/** Petit FatFs over a sector device: reading, writing and seeking in a file along its cluster chain. */
module PetitFat {
  import opened Words
  import opened Psram

  const SECTOR := 512

  datatype FResult = FrOk | FrDiskErr | FrNotOpened

  type Sectors = seq<seq<Byte>>

  /** What mounting found: FAT type, sectors per cluster, number of FAT entries and the area starts. */
  datatype Volume = Volume(fat32: bool, csize: nat, nFatent: nat, fatbase: nat, database: nat) {
    /** Bytes per cluster. */
    function Bcs(): nat {
      csize * SECTOR
    }

    /** FAT entries per sector. */
    function PerSector(): nat {
      if fat32 then 128 else 256
    }
  }

  function LdWord(s: seq<Byte>, at: nat): nat
    requires at + 2 <= |s|
  {
    s[at + 1] as int * 256 + s[at] as int
  }

  function LdDword(s: seq<Byte>, at: nat): nat
    requires at + 4 <= |s|
  {
    ((s[at + 3] as int * 256 + s[at + 2] as int) * 256 + s[at + 1] as int) * 256 + s[at] as int
  }

  /** Reading only an entry's bytes of a sector. */
  lemma LdSlice(s: seq<Byte>, at: nat)
    ensures at + 2 <= |s| ==> LdWord(s[at..at + 2], 0) == LdWord(s, at)
    ensures at + 4 <= |s| ==> LdDword(s[at..at + 4], 0) == LdDword(s, at)
  {
  }

  /** A volume as FAT requires it: cluster size a power of two up to 128 sectors, FAT before the data area,
      every cluster on the disk, sector numbers in 32 bits. */
  ghost predicate GoodVolume(v: Volume, d: Sectors) {
    && (exists k: nat :: k <= 7 && v.csize == Pow2(k))
    && 2 <= v.nFatent && 0 < v.fatbase
    && v.fatbase + (v.nFatent + v.PerSector() - 1) / v.PerSector() <= v.database
    && v.database + (v.nFatent - 2) * v.csize <= |d| <= 0x1_0000_0000
    && forall s :: 0 <= s < |d| ==> |d[s]| == SECTOR
  }

  /** get_fat: the entry of a cluster, 1 when the number is out of range. */
  function FatEntry(v: Volume, d: Sectors, clst: nat): nat
    requires GoodVolume(v, d)
  {
    if clst < 2 || clst >= v.nFatent then 1
    else
      FatSectorInArea(v, d, clst);
      var s := d[v.fatbase + clst / v.PerSector()];
      if v.fat32 then LdDword(s, clst % 128 * 4) % 0x1000_0000 else LdWord(s, clst % 256 * 2)
  }

  lemma FatSectorInArea(v: Volume, d: Sectors, clst: nat)
    requires GoodVolume(v, d) && clst < v.nFatent
    ensures v.fatbase + clst / v.PerSector() < v.database <= |d|
    ensures |d[v.fatbase + clst / v.PerSector()]| == SECTOR
  {
    var p := v.PerSector();
    assert clst / p <= (v.nFatent - 1) / p;
    assert (v.nFatent - 1) / p < (v.nFatent + p - 1) / p;
    assert (v.nFatent - 2) * v.csize >= 0;
  }

  /** A byte of the FAT, the sectors from fatbase on taken as one row of bytes. */
  predicate InFat(v: Volume, d: Sectors, n: nat) {
    v.fatbase + n / SECTOR < |d| && |d[v.fatbase + n / SECTOR]| == SECTOR
  }

  function FatByte(v: Volume, d: Sectors, n: nat): nat {
    if InFat(v, d, n) then d[v.fatbase + n / SECTOR][n % SECTOR] as int else 0
  }

  function EntryOffset(v: Volume, clst: nat): (n: nat)
    ensures n + (if v.fat32 then 4 else 2) <= SECTOR
  {
    if v.fat32 then clst % 128 * 4 else clst % 256 * 2
  }

  lemma {:induction false} EntryPlace(v: Volume, clst: nat, k: nat)
    requires k < if v.fat32 then 4 else 2
    ensures var n := if v.fat32 then 4 * clst + k else 2 * clst + k;
      n / SECTOR == clst / v.PerSector() && n % SECTOR == EntryOffset(v, clst) + k
  {
    if v.fat32 {
      DivModUnique(4 * clst + k, SECTOR, clst / 128, clst % 128 * 4 + k);
    } else {
      DivModUnique(2 * clst + k, SECTOR, clst / 256, clst % 256 * 2 + k);
    }
  }

  lemma {:induction false} ByteOfEntry(v: Volume, d: Sectors, clst: nat, k: nat, s: seq<Byte>)
    requires GoodVolume(v, d) && clst < v.nFatent && k < if v.fat32 then 4 else 2
    requires v.fatbase + clst / v.PerSector() < |d| && s == d[v.fatbase + clst / v.PerSector()]
    ensures |s| == SECTOR
    ensures FatByte(v, d, (if v.fat32 then 4 * clst else 2 * clst) + k) == s[EntryOffset(v, clst) + k] as int
  {
    EntryPlace(v, clst, k);
  }

  /** The entries are the FAT's bytes by two or by four, the lowest first; of 32 bits the upper four do not count. */
  lemma {:induction false} FatEntryIs(v: Volume, d: Sectors, clst: nat)
    requires GoodVolume(v, d) && 2 <= clst < v.nFatent
    ensures FatEntry(v, d, clst) ==
      if v.fat32 then
        (FatByte(v, d, 4 * clst) + 0x100 * FatByte(v, d, 4 * clst + 1) + 0x1_0000 * FatByte(v, d, 4 * clst + 2)
         + 0x100_0000 * FatByte(v, d, 4 * clst + 3)) % 0x1000_0000
      else FatByte(v, d, 2 * clst) + 0x100 * FatByte(v, d, 2 * clst + 1)
  {
    hide GoodVolume, FatByte;
    FatSectorInArea(v, d, clst);
    var s := d[v.fatbase + clst / v.PerSector()];
    ByteOfEntry(v, d, clst, 0, s);
    ByteOfEntry(v, d, clst, 1, s);
    if v.fat32 {
      ByteOfEntry(v, d, clst, 2, s);
      ByteOfEntry(v, d, clst, 3, s);
    }
  }

  /** clust2sect: first sector of a cluster, 0 for an invalid number. */
  function ClusterSector(v: Volume, clst: nat): nat {
    if clst < 2 || clst >= v.nFatent then 0 else (clst - 2) * v.csize + v.database
  }

  // ---------------------------------------------------------------- a file on the volume

  /** The i-th cluster of the chain that starts at `start`. */
  function ClusterAt(v: Volume, d: Sectors, start: nat, i: nat): nat
    requires GoodVolume(v, d)
  {
    if i == 0 then start else FatEntry(v, d, ClusterAt(v, d, start, i - 1))
  }

  /** The i-th cluster of a chain holds bytes of a file of this size. */
  predicate InFile(v: Volume, size: nat, i: nat) {
    i * v.Bcs() < size
  }

  /** The chain has a different data cluster for every cluster's worth of the file. */
  ghost predicate GoodChain(v: Volume, d: Sectors, start: nat, size: nat)
    requires GoodVolume(v, d)
  {
    && (forall i: nat :: InFile(v, size, i) ==> 2 <= ClusterAt(v, d, start, i) < v.nFatent)
    && (forall i: nat, j: nat :: InFile(v, size, i) && InFile(v, size, j) && i != j
          ==> ClusterAt(v, d, start, i) != ClusterAt(v, d, start, j))
  }

  lemma CsizePositive(v: Volume, d: Sectors)
    requires GoodVolume(v, d)
    ensures 0 < v.csize <= 128 && v.Bcs() == v.csize * SECTOR > 0 && 0 < v.database
  {
    var k: nat :| k <= 7 && v.csize == Pow2(k);
    Pow2Monotone(k, 7);
    assert Pow2(7) == 128;
  }

  /** The number in the chain of the cluster that holds the byte at ofs. */
  function ClusterNo(v: Volume, ofs: nat): nat
    requires v.csize > 0
  {
    DivNat(ofs, v.Bcs());
    ofs / v.Bcs()
  }

  /** The number in its cluster of the sector that holds the byte at ofs. */
  function SectorNo(v: Volume, ofs: nat): (k: nat)
    requires v.csize > 0
    ensures k < v.csize
  {
    ofs / SECTOR % v.csize
  }

  lemma {:induction false} DivNat(x: nat, m: nat)
    requires m > 0
    ensures x / m >= 0
  {
  }

  /** The sector that holds the byte at ofs. */
  function FileSector(v: Volume, d: Sectors, start: nat, ofs: nat): nat
    requires GoodVolume(v, d)
  {
    hide GoodVolume;
    CsizePositive(v, d);
    ClusterSector(v, ClusterAt(v, d, start, ClusterNo(v, ofs))) + SectorNo(v, ofs)
  }

  /** Offset, cluster and sector in the cluster. */
  lemma {:induction false} ClusterSplit(v: Volume, ofs: nat)
    requires v.csize > 0
    ensures ofs / SECTOR == ClusterNo(v, ofs) * v.csize + SectorNo(v, ofs)
    ensures ClusterNo(v, ofs) * v.Bcs() <= ofs < ClusterNo(v, ofs) * v.Bcs() + v.Bcs()
  {
    var n := ofs / SECTOR;
    var q, r := n / v.csize, n % v.csize;
    assert ofs == n * SECTOR + ofs % SECTOR && n == q * v.csize + r;
    assert q * v.Bcs() == q * v.csize * SECTOR;
    assert r * SECTOR + ofs % SECTOR < v.Bcs() by {
      assert (r + 1) * SECTOR <= v.csize * SECTOR;
    }
    DivModUnique(ofs, v.Bcs(), q, r * SECTOR + ofs % SECTOR);
  }

  /** A valid cluster's sectors are on the disk, in the data area. */
  lemma {:induction false} ClusterInArea(v: Volume, d: Sectors, clst: nat, k: nat)
    requires GoodVolume(v, d) && 2 <= clst < v.nFatent && k < v.csize
    ensures v.database <= ClusterSector(v, clst) + k < |d|
  {
    AreaBound(clst - 2, v.nFatent - 2, v.csize, k);
  }

  lemma {:induction false} AreaBound(c: nat, n: nat, m: nat, k: nat)
    requires c < n && k < m
    ensures 0 <= c * m && c * m + k < n * m
  {
    MulLe(c + 1, n, m);
    assert (c + 1) * m == c * m + m;
  }

  /** The file's bytes. */
  ghost function Contents(v: Volume, d: Sectors, start: nat, size: nat): (s: seq<Byte>)
    requires GoodVolume(v, d) && GoodChain(v, d, start, size)
    ensures |s| == size
  {
    seq(size, i requires 0 <= i < size => ByteAt(v, d, start, size, i))
  }

  ghost function ByteAt(v: Volume, d: Sectors, start: nat, size: nat, i: nat): Byte
    requires GoodVolume(v, d) && GoodChain(v, d, start, size) && i < size
  {
    SectorOnDisk(v, d, start, size, i);
    d[FileSector(v, d, start, i)][i % SECTOR]
  }

  lemma {:induction false} SectorOnDisk(v: Volume, d: Sectors, start: nat, size: nat, ofs: nat)
    requires GoodVolume(v, d) && GoodChain(v, d, start, size) && ofs < size
    ensures v.csize > 0
    ensures var c := ClusterAt(v, d, start, ClusterNo(v, ofs));
      && 2 <= c < v.nFatent
      && FileSector(v, d, start, ofs) == (c - 2) * v.csize + v.database + SectorNo(v, ofs)
    ensures v.database <= FileSector(v, d, start, ofs) < |d| && |d[FileSector(v, d, start, ofs)]| == SECTOR
  {
    CsizePositive(v, d);
    ClusterSplit(v, ofs);
    ChainValid(v, d, start, size, ClusterNo(v, ofs));
    ClusterInArea(v, d, ClusterAt(v, d, start, ClusterNo(v, ofs)), SectorNo(v, ofs));
  }

  lemma {:induction false} ChainValid(v: Volume, d: Sectors, start: nat, size: nat, i: nat)
    requires GoodVolume(v, d) && GoodChain(v, d, start, size) && InFile(v, size, i)
    ensures 2 <= ClusterAt(v, d, start, i) < v.nFatent
  {
  }

  /** Different sectors of the file are different sectors of the disk. */
  lemma {:induction false} SectorsApart(v: Volume, d: Sectors, start: nat, size: nat, i: nat, j: nat)
    requires GoodVolume(v, d) && GoodChain(v, d, start, size) && i < size && j < size
    requires FileSector(v, d, start, i) == FileSector(v, d, start, j)
    ensures i / SECTOR == j / SECTOR
  {
    hide GoodVolume, GoodChain, FileSector, ClusterAt, ClusterNo, SectorNo;
    SectorOnDisk(v, d, start, size, i);
    SectorOnDisk(v, d, start, size, j);
    ClusterSplit(v, i);
    ClusterSplit(v, j);
    var a, b := ClusterAt(v, d, start, ClusterNo(v, i)), ClusterAt(v, d, start, ClusterNo(v, j));
    SameProduct(a - 2, b - 2, v.csize, SectorNo(v, i), SectorNo(v, j));
    ChainApart(v, d, start, size, ClusterNo(v, i), ClusterNo(v, j));
  }

  lemma {:induction false} ChainApart(v: Volume, d: Sectors, start: nat, size: nat, i: nat, j: nat)
    requires GoodVolume(v, d) && GoodChain(v, d, start, size) && InFile(v, size, i) && InFile(v, size, j)
    requires ClusterAt(v, d, start, i) == ClusterAt(v, d, start, j)
    ensures i == j
  {
    hide GoodVolume, ClusterAt;
  }

  lemma {:induction false} SameProduct(a: nat, b: nat, m: nat, r: nat, s: nat)
    requires m > 0 && a * m + r == b * m + s && r < m && s < m
    ensures a == b && r == s
  {
    DivModUnique(a * m + r, m, a, r);
    DivModUnique(b * m + s, m, b, s);
  }

  // ---------------------------------------------------------------- writing sectors of the data area

  /** Changing a sector of the data area leaves the FAT, the chains and the volume as they were. */
  lemma {:induction false} FatKept(v: Volume, d: Sectors, s: nat, b: seq<Byte>, start: nat, i: nat)
    requires GoodVolume(v, d) && v.database <= s < |d| && |b| == SECTOR
    ensures GoodVolume(v, d[s := b]) && ClusterAt(v, d[s := b], start, i) == ClusterAt(v, d, start, i)
    decreases i
  {
    if i > 0 {
      FatKept(v, d, s, b, start, i - 1);
      var c := ClusterAt(v, d, start, i - 1);
      if 2 <= c < v.nFatent { FatSectorInArea(v, d, c); }
    }
  }

  lemma {:induction false} ChainKept(v: Volume, d: Sectors, s: nat, b: seq<Byte>, start: nat, size: nat)
    requires GoodVolume(v, d) && v.database <= s < |d| && |b| == SECTOR && GoodChain(v, d, start, size)
    ensures GoodVolume(v, d[s := b]) && GoodChain(v, d[s := b], start, size)
  {
    FatKept(v, d, s, b, start, 0);
    hide GoodVolume, ClusterAt, InFile;
    forall i: nat
      ensures ClusterAt(v, d[s := b], start, i) == ClusterAt(v, d, start, i)
    {
      FatKept(v, d, s, b, start, i);
    }
  }

  /** Writing the sector that holds offset p changes exactly the bytes of that sector of the file. */
  lemma {:induction false} ContentsAfterWrite(v: Volume, d: Sectors, start: nat, size: nat, p: nat, b: seq<Byte>)
    requires GoodVolume(v, d) && GoodChain(v, d, start, size) && p < size && |b| == SECTOR
    ensures var s := FileSector(v, d, start, p);
      && v.database <= s < |d| && GoodVolume(v, d[s := b]) && GoodChain(v, d[s := b], start, size)
      && forall i :: 0 <= i < size ==>
           Contents(v, d[s := b], start, size)[i]
           == if i / SECTOR == p / SECTOR then b[i % SECTOR] else Contents(v, d, start, size)[i]
  {
    hide GoodVolume, GoodChain, FileSector, ByteAt;
    SectorOnDisk(v, d, start, size, p);
    var s := FileSector(v, d, start, p);
    ChainKept(v, d, s, b, start, size);
    forall i | 0 <= i < size
      ensures ByteAt(v, d[s := b], start, size, i)
           == if i / SECTOR == p / SECTOR then b[i % SECTOR] else ByteAt(v, d, start, size, i)
    {
      ByteAfterWrite(v, d, start, size, p, b, i);
    }
  }

  lemma {:induction false} ByteAfterWrite(v: Volume, d: Sectors, start: nat, size: nat, p: nat, b: seq<Byte>, i: nat)
    requires GoodVolume(v, d) && GoodChain(v, d, start, size) && p < size && i < size && |b| == SECTOR
    requires var s := FileSector(v, d, start, p);
      s < |d| && GoodVolume(v, d[s := b]) && GoodChain(v, d[s := b], start, size)
    ensures var s := FileSector(v, d, start, p);
      ByteAt(v, d[s := b], start, size, i)
      == if i / SECTOR == p / SECTOR then b[i % SECTOR] else ByteAt(v, d, start, size, i)
  {
    hide GoodVolume, GoodChain, FileSector, ClusterAt, ClusterNo, SectorNo;
    SectorOnDisk(v, d, start, size, p);
    var s := FileSector(v, d, start, p);
    FatKept(v, d, s, b, start, ClusterNo(v, i));
    SectorOnDisk(v, d[s := b], start, size, i);
    SectorOnDisk(v, d, start, size, i);
    if i / SECTOR == p / SECTOR {
      SameCluster(v, i, p);
    } else if FileSector(v, d, start, i) == s {
      SectorsApart(v, d, start, size, i, p);
    }
  }

  lemma {:induction false} SameCluster(v: Volume, i: nat, j: nat)
    requires v.csize > 0 && i / SECTOR == j / SECTOR
    ensures ClusterNo(v, i) == ClusterNo(v, j) && SectorNo(v, i) == SectorNo(v, j)
  {
    ClusterSplit(v, i);
    ClusterSplit(v, j);
    SameProduct(ClusterNo(v, i), ClusterNo(v, j), v.csize, SectorNo(v, i), SectorNo(v, j));
  }

  // ---------------------------------------------------------------- several files

  /** Sector s holds bytes of the file. */
  ghost predicate OfFile(v: Volume, d: Sectors, start: nat, size: nat, s: nat)
    requires GoodVolume(v, d)
  {
    exists i: nat :: i < size && FileSector(v, d, start, i) == s
  }

  /** Only sectors of the file changed. */
  ghost predicate OnlyFile(v: Volume, before: Sectors, after: Sectors, start: nat, size: nat)
    requires GoodVolume(v, before)
  {
    && |after| == |before|
    && forall s :: 0 <= s < |before| && !(v.database <= s && OfFile(v, before, start, size, s)) ==>
      after[s] == before[s]
  }

  /** Chains are in the FAT. */
  lemma {:induction false} SameChain(v: Volume, d: Sectors, e: Sectors, start: nat, i: nat)
    requires GoodVolume(v, d) && GoodVolume(v, e) && |d| == |e|
    requires forall s :: 0 <= s < v.database <= |d| ==> d[s] == e[s]
    ensures ClusterAt(v, d, start, i) == ClusterAt(v, e, start, i)
    decreases i
  {
    if i > 0 {
      SameChain(v, d, e, start, i - 1);
      var c := ClusterAt(v, d, start, i - 1);
      if 2 <= c < v.nFatent { FatSectorInArea(v, d, c); }
    }
  }

  lemma {:induction false} SameFileSector(v: Volume, d: Sectors, e: Sectors, start: nat, s2: nat, z2: nat, i: nat)
    requires GoodVolume(v, d) && GoodVolume(v, e) && OnlyFile(v, d, e, s2, z2)
    ensures FileSector(v, d, start, i) == FileSector(v, e, start, i)
  {
    hide ClusterSector, ClusterNo, SectorNo, GoodVolume, ClusterAt;
    CsizePositive(v, d);
    SameChain(v, d, e, start, ClusterNo(v, i));
  }

  /** One more write to a sector of the file. */
  lemma {:induction false} OnlyFileStep(v: Volume, before: Sectors, d: Sectors, start: nat, size: nat, p: nat,
                                        b: seq<Byte>)
    requires GoodVolume(v, before) && GoodVolume(v, d) && GoodChain(v, d, start, size)
    requires OnlyFile(v, before, d, start, size) && p < size && |b| == SECTOR
    ensures FileSector(v, d, start, p) < |d|
    ensures OnlyFile(v, before, d[FileSector(v, d, start, p) := b], start, size)
  {
    hide GoodVolume, GoodChain, FileSector;
    SectorOnDisk(v, d, start, size, p);
    SameFileSector(v, before, d, start, start, size, p);
  }

  lemma {:induction false} OnlyFileTwice(v: Volume, a: Sectors, b: Sectors, c: Sectors, start: nat, size: nat)
    requires GoodVolume(v, a) && GoodVolume(v, b) && OnlyFile(v, a, b, start, size) && OnlyFile(v, b, c, start, size)
    ensures OnlyFile(v, a, c, start, size)
  {
    hide GoodVolume, FileSector;
    forall s | 0 <= s < |a| && !(v.database <= s && OfFile(v, a, start, size, s))
      ensures c[s] == a[s]
    {
      if v.database <= s && OfFile(v, b, start, size, s) {
        var i: nat :| i < size && FileSector(v, b, start, i) == s;
        SameFileSector(v, a, b, start, start, size, i);
      }
    }
  }

  /** Two files have no cluster in common. */
  ghost predicate Disjoint(v: Volume, d: Sectors, start: nat, size: nat, start2: nat, size2: nat)
    requires GoodVolume(v, d)
  {
    forall i: nat, j: nat :: InFile(v, size, i) && InFile(v, size2, j)
      ==> ClusterAt(v, d, start, i) != ClusterAt(v, d, start2, j)
  }

  /** A write to one file keeps the bytes of every file that shares no cluster with it. */
  lemma {:induction false} OtherFileKept(v: Volume, d: Sectors, e: Sectors, start: nat, size: nat, start2: nat,
                                         size2: nat)
    requires GoodVolume(v, d) && GoodVolume(v, e) && OnlyFile(v, d, e, start, size)
    requires GoodChain(v, d, start, size) && GoodChain(v, d, start2, size2)
    requires Disjoint(v, d, start, size, start2, size2)
    ensures GoodChain(v, e, start2, size2) && Contents(v, e, start2, size2) == Contents(v, d, start2, size2)
  {
    OtherChainKept(v, d, e, start, size, start2, size2);
    hide GoodVolume, GoodChain, OnlyFile, ByteAt, Disjoint;
    forall i | 0 <= i < size2
      ensures ByteAt(v, e, start2, size2, i) == ByteAt(v, d, start2, size2, i)
    {
      OtherByteKept(v, d, e, start, size, start2, size2, i);
    }
  }

  lemma {:induction false} OtherChainKept(v: Volume, d: Sectors, e: Sectors, start: nat, size: nat, start2: nat,
                                          size2: nat)
    requires GoodVolume(v, d) && GoodVolume(v, e) && OnlyFile(v, d, e, start, size) && GoodChain(v, d, start2, size2)
    ensures GoodChain(v, e, start2, size2)
  {
    hide GoodVolume, ClusterAt, InFile, OfFile;
    forall i: nat
      ensures ClusterAt(v, e, start2, i) == ClusterAt(v, d, start2, i)
    {
      SameChain(v, d, e, start2, i);
    }
  }

  lemma {:induction false} OtherByteKept(v: Volume, d: Sectors, e: Sectors, start: nat, size: nat, start2: nat,
                                         size2: nat, i: nat)
    requires GoodVolume(v, d) && GoodVolume(v, e) && OnlyFile(v, d, e, start, size) && i < size2
    requires GoodChain(v, d, start, size) && GoodChain(v, d, start2, size2) && GoodChain(v, e, start2, size2)
    requires Disjoint(v, d, start, size, start2, size2)
    ensures ByteAt(v, e, start2, size2, i) == ByteAt(v, d, start2, size2, i)
  {
    hide GoodVolume, GoodChain, FileSector, ClusterAt, Disjoint;
    SectorOnDisk(v, d, start2, size2, i);
    SectorOnDisk(v, e, start2, size2, i);
    SameFileSector(v, d, e, start2, start, size, i);
    var s := FileSector(v, d, start2, i);
    if OfFile(v, d, start, size, s) {
      var j: nat :| j < size && FileSector(v, d, start, j) == s;
      FilesApart(v, d, start, size, start2, size2, j, i);
    }
  }

  lemma {:induction false} FilesApart(v: Volume, d: Sectors, start: nat, size: nat, start2: nat, size2: nat, j: nat,
                                      i: nat)
    requires GoodVolume(v, d) && GoodChain(v, d, start, size) && GoodChain(v, d, start2, size2)
    requires Disjoint(v, d, start, size, start2, size2) && j < size && i < size2
    ensures FileSector(v, d, start, j) != FileSector(v, d, start2, i)
  {
    hide GoodVolume, GoodChain, FileSector, ClusterAt, ClusterNo, SectorNo;
    SectorOnDisk(v, d, start, size, j);
    SectorOnDisk(v, d, start2, size2, i);
    ClusterSplit(v, j);
    ClusterSplit(v, i);
    var a, b := ClusterAt(v, d, start, ClusterNo(v, j)), ClusterAt(v, d, start2, ClusterNo(v, i));
    assert InFile(v, size, ClusterNo(v, j)) && InFile(v, size2, ClusterNo(v, i));
    if FileSector(v, d, start, j) == FileSector(v, d, start2, i) {
      SameProduct(a - 2, b - 2, v.csize, SectorNo(v, j), SectorNo(v, i));
    }
  }

  /** Files that share no cluster still share none after a write to one of them. */
  lemma {:induction false} DisjointKept(v: Volume, d: Sectors, e: Sectors, start: nat, size: nat, start2: nat,
                                        size2: nat)
    requires GoodVolume(v, d) && GoodVolume(v, e) && OnlyFile(v, d, e, start, size)
    requires Disjoint(v, d, start, size, start2, size2)
    ensures Disjoint(v, e, start2, size2, start, size)
  {
    hide GoodVolume, ClusterAt, InFile, OfFile;
    forall i: nat, j: nat | InFile(v, size2, i) && InFile(v, size, j)
      ensures ClusterAt(v, e, start2, i) != ClusterAt(v, e, start, j)
    {
      SameChain(v, d, e, start2, i);
      SameChain(v, d, e, start, j);
    }
  }
}
