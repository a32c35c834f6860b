/** The open file of Petit FatFs: `pf_read`, `pf_write` and `pf_lseek` on the position fields they update. */
module PetitFs {
  import opened Wrappers
  import opened Words
  import opened Psram
  import opened PetitFat

  function Zeros(n: nat): (z: seq<Byte>)
    ensures |z| == n && forall i :: 0 <= i < n ==> z[i] == 0
  {
    var zero: Byte := 0;
    seq(n, _ => zero)
  }

  /** A sector write that ends after these bytes is filled up with zeros. */
  function Pad(b: seq<Byte>): (r: seq<Byte>)
    requires |b| <= SECTOR
    ensures |r| == SECTOR && forall k :: 0 <= k < SECTOR ==> r[k] == if k < |b| then b[k] else 0
  {
    b + Zeros(SECTOR - |b|)
  }

  /** The sector device: partial reads, and writes that are initiated, sent and finalized. */
  class Disk {
    var sectors: Sectors
    var target: Option<nat>
    var sent: seq<Byte>

    constructor (sectors: Sectors)
      ensures this.sectors == sectors && target == None
    {
      this.sectors, target, sent := sectors, None, [];
    }

    /** What the disk will hold once a write in progress is finalized. */
    function Future(): Sectors
      reads this
    {
      if target.Some? && target.value < |sectors| && |sent| <= SECTOR then sectors[target.value := Pad(sent)]
      else sectors
    }

    method Readp(sector: nat, offset: nat, count: nat) returns (b: seq<Byte>)
      requires sector < |sectors| && offset + count <= |sectors[sector]|
      ensures b == sectors[sector][offset..offset + count]
    {
      b := sectors[sector][offset..offset + count];
    }

    method Initiate(sector: nat)
      requires sector < |sectors|
      modifies this
      ensures target == Some(sector) && sent == [] && sectors == old(sectors)
    {
      target, sent := Some(sector), [];
    }

    /** Bytes beyond the sector are dropped. */
    method Send(b: seq<Byte>)
      requires |sent| <= SECTOR
      modifies this`sent
      ensures sent == old(sent) + b[..Min(|b|, SECTOR - |old(sent)|)]
    {
      sent := sent + b[..Min(|b|, SECTOR - |sent|)];
    }

    method Finalize()
      requires target.Some? && target.value < |sectors| && |sent| <= SECTOR
      modifies this
      ensures sectors == old(Future()) && target == None
    {
      sectors := sectors[target.value := Pad(sent)];
      target := None;
    }
  }

  /** The offset after a sector boundary is in the next cluster exactly at a cluster boundary. */
  lemma {:induction false} Boundary(v: Volume, ofs: nat)
    requires v.csize > 0 && ofs > 0 && ofs % SECTOR == 0
    ensures ClusterNo(v, ofs) == ClusterNo(v, ofs - 1) + if SectorNo(v, ofs) == 0 then 1 else 0
  {
    hide ClusterNo, SectorNo;
    var q, r := ClusterNo(v, ofs), SectorNo(v, ofs);
    ClusterSplit(v, ofs);
    ClusterSplit(v, ofs - 1);
    assert (ofs - 1) / SECTOR == ofs / SECTOR - 1;
    if r > 0 {
      SameProduct(ClusterNo(v, ofs - 1), q, v.csize, SectorNo(v, ofs - 1), r - 1);
    } else {
      assert q > 0;
      assert (q - 1) * v.csize + (v.csize - 1) == ofs / SECTOR - 1;
      SameProduct(ClusterNo(v, ofs - 1), q - 1, v.csize, SectorNo(v, ofs - 1), v.csize - 1);
    }
  }

  lemma {:induction false} StartOfFile(v: Volume)
    requires v.csize > 0
    ensures ClusterNo(v, 0) == 0 && SectorNo(v, 0) == 0
  {
    ClusterSplit(v, 0);
    SameProduct(ClusterNo(v, 0), 0, v.csize, SectorNo(v, 0), 0);
  }

  /** Offsets in the same sector are in the same cluster. */
  lemma {:induction false} WithinSector(v: Volume, ofs: nat, n: nat)
    requires v.csize > 0 && ofs % SECTOR + n < SECTOR
    ensures ClusterNo(v, ofs + n) == ClusterNo(v, ofs) && SectorNo(v, ofs + n) == SectorNo(v, ofs)
  {
    SameCluster(v, ofs, ofs + n);
  }

  /** The sector number in the cluster by masking, as the program computes it. */
  lemma {:induction false} SectorMask(v: Volume, d: Sectors, ofs: nat)
    requires GoodVolume(v, d)
    ensures v.csize > 0 && And32(ofs / SECTOR, v.csize - 1) == SectorNo(v, ofs)
  {
    CsizePositive(v, d);
    var k: nat :| k <= 7 && v.csize == Pow2(k);
    LowMask(ofs / SECTOR, k, 32);
  }

  /** Bytes of one sector of the file are in one sector of the disk. */
  lemma {:induction false} ByteInSector(v: Volume, d: Sectors, start: nat, size: nat, p: nat, i: nat)
    requires GoodVolume(v, d) && GoodChain(v, d, start, size) && p < size && i < size && p / SECTOR == i / SECTOR
    ensures var s := FileSector(v, d, start, p);
      s < |d| && |d[s]| == SECTOR && ByteAt(v, d, start, size, i) == d[s][i % SECTOR]
  {
    hide GoodVolume, GoodChain, ClusterAt, ClusterNo, SectorNo;
    CsizePositive(v, d);
    SectorOnDisk(v, d, start, size, i);
    SameCluster(v, p, i);
  }

  /** A piece of the file that lies in one sector. */
  lemma {:induction false} PieceOfFile(v: Volume, d: Sectors, start: nat, size: nat, p: nat, n: nat)
    requires GoodVolume(v, d) && GoodChain(v, d, start, size) && 0 < n && p + n <= size && p % SECTOR + n <= SECTOR
    ensures var s := FileSector(v, d, start, p);
      && s < |d| && |d[s]| == SECTOR
      && d[s][p % SECTOR..p % SECTOR + n] == Contents(v, d, start, size)[p..p + n]
  {
    hide GoodVolume, GoodChain, FileSector, ByteAt;
    ByteInSector(v, d, start, size, p, p);
    var s := FileSector(v, d, start, p);
    var piece, c := d[s][p % SECTOR..p % SECTOR + n], Contents(v, d, start, size)[p..p + n];
    forall k | 0 <= k < n
      ensures piece[k] == c[k]
    {
      ByteInSector(v, d, start, size, p, p + k);
      assert (p + k) % SECTOR == p % SECTOR + k;
    }
  }

  /** The position fields agree with the chain at ofs, the cluster being the one that holds ofs. */
  ghost predicate Inside(v: Volume, d: Sectors, start: nat, ofs: nat, currClust: nat, dsect: nat)
    requires GoodVolume(v, d)
  {
    CsizePositive(v, d);
    currClust == ClusterAt(v, d, start, ClusterNo(v, ofs)) && dsect == FileSector(v, d, start, ofs)
  }

  /** The same for a position that the program has moved to: the cluster holds the byte before ofs. */
  ghost predicate PlacedAt(v: Volume, d: Sectors, start: nat, ofs: nat, currClust: nat, dsect: nat)
    requires GoodVolume(v, d)
  {
    CsizePositive(v, d);
    (ofs > 0 ==> currClust == ClusterAt(v, d, start, ClusterNo(v, ofs - 1)))
    && (ofs % SECTOR != 0 ==> dsect == FileSector(v, d, start, ofs))
  }

  /** Moving on inside a sector keeps the position fields right. */
  lemma {:induction false} MoveOn(v: Volume, d: Sectors, start: nat, p: nat, n: nat, currClust: nat, dsect: nat)
    requires GoodVolume(v, d) && 0 < n && p % SECTOR + n <= SECTOR && Inside(v, d, start, p, currClust, dsect)
    ensures PlacedAt(v, d, start, p + n, currClust, dsect)
  {
    hide GoodVolume, ClusterAt, ClusterNo, SectorNo;
    CsizePositive(v, d);
    WithinSector(v, p, n - 1);
    if (p + n) % SECTOR != 0 { WithinSector(v, p, n); }
  }

  lemma {:induction false} StillInside(v: Volume, d: Sectors, start: nat, p: nat, currClust: nat, dsect: nat)
    requires GoodVolume(v, d) && p % SECTOR != 0 && PlacedAt(v, d, start, p, currClust, dsect)
    ensures Inside(v, d, start, p, currClust, dsect)
  {
    hide GoodVolume, ClusterAt, ClusterNo, SectorNo;
    CsizePositive(v, d);
    WithinSector(v, p - 1, 1);
  }

  /** Rounding down to a cluster boundary by masking, as the program computes it. */
  lemma {:induction false} ClusterMask(v: Volume, d: Sectors, x: nat)
    requires GoodVolume(v, d) && x < 0x1_0000_0000
    ensures v.csize > 0 && v.Bcs() <= 0x1_0000_0000
    ensures And32(x, 0x1_0000_0000 - v.Bcs()) == ClusterNo(v, x) * v.Bcs() <= x
    ensures ClusterNo(v, x) * v.Bcs() % SECTOR == 0
  {
    hide Pow2, And32;
    CsizePositive(v, d);
    var k: nat :| k <= 7 && v.csize == Pow2(k);
    PowerMask(x, k, v.Bcs());
    RoundDown(x, v.csize);
  }

  lemma {:induction false} PowerMask(x: nat, k: nat, m: nat)
    requires k <= 7 && x < 0x1_0000_0000 && m == Pow2(k) * SECTOR && 0 < m <= 0x1_0000_0000
    ensures And32(x, 0x1_0000_0000 - m) == x - x % m
  {
    hide Pow2, Gates;
    Pow2Plus(k, 9);
    Pow2Values();
    HighMask(x, k + 9, 32, 0x1_0000_0000 - m);
  }

  lemma {:induction false} RoundDown(x: nat, c: nat)
    requires c > 0
    ensures x - x % (c * SECTOR) == x / (c * SECTOR) * (c * SECTOR) && (x - x % (c * SECTOR)) % SECTOR == 0
  {
    var m := c * SECTOR;
    var q := x / m;
    assert x == q * m + x % m;
    assert q * m == (q * c) * SECTOR;
  }

  lemma OneClusterOn(x: nat, c: nat)
    requires x % SECTOR == 0
    ensures (x + c * SECTOR) % SECTOR == 0
  {
  }

  lemma {:induction false} Pow2Plus(k: nat, n: nat)
    ensures Pow2(k + n) == Pow2(k) * Pow2(n)
    decreases n
  {
    if n > 0 { Pow2Plus(k, n - 1); }
  }

  lemma Pow2Values()
    ensures Pow2(9) == 512 && Pow2(32) == 0x1_0000_0000
  {
    assert Pow2(4) == 16;
    Pow2Plus(4, 4);
    Pow2Plus(8, 8);
    Pow2Plus(16, 16);
  }

  /** The program's test for a seek that can start from the current cluster. */
  lemma {:induction false} SameOrLater(v: Volume, ofs: nat, ifptr: nat)
    requires v.csize > 0 && ofs > 0 && ifptr > 0 && (ofs - 1) / v.Bcs() >= (ifptr - 1) / v.Bcs()
    ensures ClusterNo(v, ifptr - 1) * v.Bcs() < ofs
  {
    ClusterSplit(v, ofs - 1);
    MulLe(ClusterNo(v, ifptr - 1), ClusterNo(v, ofs - 1), v.Bcs());
  }

  /** Rounding down to a sector boundary by masking. */
  lemma {:induction false} SectorRound(x: nat)
    requires x < 0x1_0000_0000
    ensures And32(x, 0xFFFF_FE00) == x - x % SECTOR
  {
    Pow2Values();
    HighMask(x, 9, 32, 0xFFFF_FE00);
  }

  /** Going back to the start of the sector, as a write does: the position fields stay right exactly when that
      is the start of the file or the sector is not the first of its cluster. Otherwise the next step would
      leave the cluster that it should enter. */
  lemma {:induction false} RoundingIff(v: Volume, d: Sectors, start: nat, size: nat, ofs: nat, currClust: nat,
                                       dsect: nat)
    requires GoodVolume(v, d) && GoodChain(v, d, start, size) && ofs <= size && ofs % SECTOR != 0
    requires PlacedAt(v, d, start, ofs, currClust, dsect)
    ensures v.csize > 0
    ensures PlacedAt(v, d, start, ofs - ofs % SECTOR, currClust, dsect) <==> ofs < SECTOR || SectorNo(v, ofs) != 0
  {
    hide GoodVolume, GoodChain, ClusterAt, ClusterNo, SectorNo;
    CsizePositive(v, d);
    StillInside(v, d, start, ofs, currClust, dsect);
    var r := ofs - ofs % SECTOR;
    WithinSector(v, r, ofs % SECTOR);
    if r > 0 {
      Boundary(v, r);
      SectorOnDisk(v, d, start, size, r);
      ClusterSplit(v, r - 1);
      ClusterSplit(v, r);
      if SectorNo(v, r) == 0 && ClusterAt(v, d, start, ClusterNo(v, r - 1)) == ClusterAt(v, d, start, ClusterNo(v, r)) {
        ChainApart(v, d, start, size, ClusterNo(v, r - 1), ClusterNo(v, r));
      }
    }
  }

  /** A FAT16 volume with one sector per cluster, and a file in its clusters 2 and 3. */
  const SMALL := Volume(false, 1, 4, 1, 2)

  function SmallFat(): (s: seq<Byte>)
    ensures |s| == SECTOR
  {
    seq(SECTOR, i => if i == 4 then 3 else if i == 6 || i == 7 then 255 else 0)
  }

  function SmallDisk(): Sectors {
    [Zeros(SECTOR), SmallFat(), Zeros(SECTOR), Zeros(SECTOR)]
  }

  lemma {:induction false} SmallIsGood()
    ensures GoodVolume(SMALL, SmallDisk())
    ensures FatEntry(SMALL, SmallDisk(), 2) == 3 && FatEntry(SMALL, SmallDisk(), 3) == 65535
  {
    hide Zeros;
    assert SMALL.csize == Pow2(0);
    assert forall s :: 0 <= s < |SmallDisk()| ==> |SmallDisk()[s]| == SECTOR;
  }

  lemma {:induction false} SmallChain()
    requires GoodVolume(SMALL, SmallDisk())
    ensures GoodChain(SMALL, SmallDisk(), 2, 1024)
  {
    hide GoodVolume, SmallDisk, FatEntry;
    SmallIsGood();
    assert ClusterAt(SMALL, SmallDisk(), 2, 0) == 2 && ClusterAt(SMALL, SmallDisk(), 2, 1) == 3;
    assert forall i: nat :: InFile(SMALL, 1024, i) ==> i == 0 || i == 1;
  }

  /** At 700 in that file, going back to 512 leaves cluster 3, behind which the chain ends, where cluster 2 should be:
      the step into the next cluster then leaves the file. */
  lemma {:induction false} RoundingLost()
    ensures GoodVolume(SMALL, SmallDisk()) && GoodChain(SMALL, SmallDisk(), 2, 1024)
    ensures PlacedAt(SMALL, SmallDisk(), 2, 700, 3, 3) && !PlacedAt(SMALL, SmallDisk(), 2, 512, 3, 3)
    ensures FatEntry(SMALL, SmallDisk(), 3) >= SMALL.nFatent
  {
    hide GoodVolume, SmallDisk, FatEntry;
    SmallIsGood();
    SmallChain();
    assert ClusterAt(SMALL, SmallDisk(), 2, 0) == 2 && ClusterAt(SMALL, SmallDisk(), 2, 1) == 3;
  }

  /** A position strictly behind the start of cluster q and at most at its end. */
  lemma {:induction false} SeekEnd(v: Volume, d: Sectors, start: nat, q: nat, rest: nat, clst: nat, dsect: nat)
    requires GoodVolume(v, d) && v.csize > 0 && 0 < rest <= v.Bcs() && clst == ClusterAt(v, d, start, q)
    requires var target := q * v.Bcs() + rest; target >= 0 && dsect == ClusterSector(v, clst) + SectorNo(v, target)
    ensures PlacedAt(v, d, start, q * v.Bcs() + rest, clst, dsect)
    ensures ClusterNo(v, q * v.Bcs() + rest - 1) == q
  {
    hide GoodVolume, ClusterAt, SectorNo;
    var target := q * v.Bcs() + rest;
    DivModUnique(target - 1, v.Bcs(), q, rest - 1);
    if target % SECTOR != 0 { WithinSector(v, target - 1, 1); }
  }

  // ---------------------------------------------------------------- what a write does to a file

  /** A file after b was written at `at`: a sector that is not filled ends in zeros. */
  function Written(c: seq<Byte>, at: nat, b: seq<Byte>): (r: seq<Byte>)
    requires at + |b| <= |c|
    ensures |r| == |c|
    ensures forall i :: 0 <= i < |c| ==>
      r[i] == (if at <= i < at + |b| then b[i - at] else if InTail(at + |b|, i) then 0 else c[i])
  {
    var zero: Byte := 0;
    seq(|c|, i requires 0 <= i < |c| =>
      if at <= i < at + |b| then b[i - at] else if InTail(at + |b|, i) then zero else c[i])
  }

  /** Offset i is in the part behind `end` of a sector that ends in it. */
  predicate InTail(end: nat, i: nat) {
    i >= end && end % SECTOR != 0 && i / SECTOR == end / SECTOR
  }

  /** Writing in two pieces. */
  lemma WrittenTwice(c: seq<Byte>, at: nat, a: seq<Byte>, b: seq<Byte>)
    requires at + |a| + |b| <= |c| && |b| > 0
    ensures Written(Written(c, at, a), at + |a|, b) == Written(c, at, a + b)
  {
  }

  lemma WrittenNothing(c: seq<Byte>, at: nat)
    requires at <= |c| && (at % SECTOR == 0 || at == |c|)
    ensures Written(c, at, []) == c
  {
  }

  /** Whole sectors replace exactly the bytes written. */
  lemma WrittenWhole(c: seq<Byte>, at: nat, b: seq<Byte>)
    requires at + |b| <= |c| && (at + |b|) % SECTOR == 0
    ensures Written(c, at, b) == Splice(c, at, b)
  {
  }

  /** Sending a piece to the sector that holds p: the file changes as if the piece were written at p. */
  lemma {:induction false} PieceWritten(v: Volume, d: Sectors, start: nat, size: nat, p: nat,
                                        sent: seq<Byte>, b: seq<Byte>, before: seq<Byte>)
    requires GoodVolume(v, d) && GoodChain(v, d, start, size) && |before| == size
    requires |sent| == p % SECTOR && 0 < |b| && |sent| + |b| <= SECTOR && p + |b| <= size
    requires forall i :: 0 <= i < size && i / SECTOR != p / SECTOR ==> before[i] == Contents(v, d, start, size)[i]
    requires forall i :: 0 <= i < p && i / SECTOR == p / SECTOR ==> before[i] == sent[i % SECTOR]
    ensures var s := FileSector(v, d, start, p);
      && v.database <= s < |d|
      && GoodVolume(v, d[s := Pad(sent + b)]) && GoodChain(v, d[s := Pad(sent + b)], start, size)
      && Contents(v, d[s := Pad(sent + b)], start, size) == Written(before, p, b)
  {
    hide GoodVolume, GoodChain, FileSector, Contents;
    ContentsAfterWrite(v, d, start, size, p, Pad(sent + b));
    var d' := d[FileSector(v, d, start, p) := Pad(sent + b)];
    forall i | 0 <= i < size
      ensures Contents(v, d', start, size)[i] == Written(before, p, b)[i]
    {
      SectorArith(p, |b|, i);
      if i / SECTOR == p / SECTOR {
        assert Contents(v, d', start, size)[i] == Pad(sent + b)[i % SECTOR];
        assert i < p ==> (sent + b)[i % SECTOR] == before[i];
        assert p <= i < p + |b| ==> (sent + b)[i % SECTOR] == b[i - p];
        assert p + |b| <= i ==> InTail(p + |b|, i);
      } else {
        assert Contents(v, d', start, size)[i] == before[i];
      }
    }
  }

  lemma SectorArith(p: nat, n: nat, i: nat)
    requires 0 < n && p % SECTOR + n <= SECTOR
    ensures i / SECTOR == p / SECTOR && i < p ==> i % SECTOR < p % SECTOR
    ensures i / SECTOR == p / SECTOR && p <= i ==> i % SECTOR == p % SECTOR + (i - p)
    ensures p <= i < p + n ==> i / SECTOR == p / SECTOR
    ensures (p + n) % SECTOR != 0 ==> (p + n) / SECTOR == p / SECTOR
    ensures (p + n) % SECTOR == 0 ==> p % SECTOR + n == SECTOR
  {
  }

  /** Changing a sector of the data area leaves the position where it is. */
  lemma {:induction false} InsideKept(v: Volume, d: Sectors, s: nat, b: seq<Byte>, start: nat, ofs: nat,
                                      currClust: nat, dsect: nat)
    requires GoodVolume(v, d) && v.database <= s < |d| && |b| == SECTOR
    requires Inside(v, d, start, ofs, currClust, dsect)
    ensures GoodVolume(v, d[s := b]) && Inside(v, d[s := b], start, ofs, currClust, dsect)
  {
    CsizePositive(v, d);
    FatKept(v, d, s, b, start, ClusterNo(v, ofs));
    hide GoodVolume, ClusterAt;
  }

  lemma {:induction false} InsidePlaced(v: Volume, d: Sectors, start: nat, p: nat, currClust: nat, dsect: nat)
    requires GoodVolume(v, d) && p % SECTOR != 0 && Inside(v, d, start, p, currClust, dsect)
    ensures PlacedAt(v, d, start, p, currClust, dsect)
  {
    hide GoodVolume, ClusterAt, ClusterNo, SectorNo;
    CsizePositive(v, d);
    WithinSector(v, p - 1, 1);
  }

  /** The mounted volume's open file. */
  class FatFs {
    const disk: Disk
    const vol: Volume
    var isOpen: bool
    var wip: bool      // a sector write is in progress
    var fptr: nat
    var fsize: nat
    var orgClust: nat
    var currClust: nat
    var dsect: nat

    constructor (disk: Disk, vol: Volume)
      ensures this.disk == disk && this.vol == vol && !isOpen
      ensures GoodVolume(vol, disk.sectors) && disk.target == None ==> Usable()
    {
      this.disk, this.vol := disk, vol;
      isOpen, wip, fptr, fsize, orgClust, currClust, dsect := false, false, 0, 0, 0, 0, 0;
    }

    /** The volume is sound and the fields can be used, whatever the FAT says. */
    ghost predicate Usable()
      reads this, disk
    {
      && GoodVolume(vol, disk.sectors) && fptr <= fsize < 0x1_0000_0000
      && (isOpen && fptr % SECTOR != 0 ==> dsect < |disk.sectors|)
      && (wip ==> isOpen && disk.target.Some?)
      && (disk.target.Some? ==> vol.database <= disk.target.value < |disk.sectors| && |disk.sent| <= SECTOR)
    }

    ghost predicate Chained()
      requires GoodVolume(vol, disk.sectors)
      reads this, disk
    {
      GoodChain(vol, disk.sectors, orgClust, fsize)
    }

    /** The position fields: the current cluster holds the byte before fptr, and inside a sector dsect is the
        sector of fptr. */
    ghost predicate Placed()
      requires GoodVolume(vol, disk.sectors)
      reads this, disk
    {
      PlacedAt(vol, disk.sectors, orgClust, fptr, currClust, dsect)
    }

    /** An open file with a good chain, its position fields right, and a write in progress only inside a sector. */
    ghost predicate Sound()
      reads this, disk
    {
      && Usable() && isOpen && Chained() && Placed()
      && (wip ==> fptr % SECTOR != 0 && disk.target == Some(dsect) && |disk.sent| == fptr % SECTOR)
      && (!wip ==> disk.target == None)
    }

    /** The file's bytes, counting a write in progress as finalized. */
    ghost function File(): seq<Byte>
      requires GoodVolume(vol, disk.Future()) && GoodChain(vol, disk.Future(), orgClust, fsize)
      reads this, disk
    {
      Contents(vol, disk.Future(), orgClust, fsize)
    }

    /** pf_open, once the directory entry has been found. */
    method Open(start: nat, size: nat)
      requires GoodVolume(vol, disk.sectors) && size < 0x1_0000_0000 && disk.target == None
      modifies this
      ensures Usable() && isOpen && !wip && fptr == 0 && fsize == size && orgClust == start
      ensures GoodChain(vol, disk.sectors, start, size) ==> Sound()
    {
      isOpen, wip, orgClust, fsize, fptr := true, false, start, size, 0;
    }

    /** get_fat: reads the entry's bytes from the FAT sector. */
    method GetFat(clst: nat) returns (r: nat)
      requires GoodVolume(vol, disk.sectors)
      ensures r == FatEntry(vol, disk.sectors, clst)
    {
      if clst < 2 || clst >= vol.nFatent {
        return 1;
      }
      FatSectorInArea(vol, disk.sectors, clst);
      hide GoodVolume, LdWord, LdDword;
      ghost var s := disk.sectors[vol.fatbase + clst / vol.PerSector()];
      if vol.fat32 {
        var buf := disk.Readp(vol.fatbase + clst / 128, clst % 128 * 4, 4);
        LdSlice(s, clst % 128 * 4);
        r := LdDword(buf, 0) % 0x1000_0000;
      } else {
        var buf := disk.Readp(vol.fatbase + clst / 256, clst % 256 * 2, 2);
        LdSlice(s, clst % 256 * 2);
        r := LdWord(buf, 0);
      }
    }

    /** The cluster that the code steps to, or stays in, is the one that holds fptr. */
    lemma EnterCluster()
      requires Usable() && Chained() && Placed() && fptr % SECTOR == 0 && fptr < fsize
      ensures CsizeOk()
      ensures var next := if SectorNo(vol, fptr) != 0 then currClust
                          else if fptr == 0 then orgClust else FatEntry(vol, disk.sectors, currClust);
        && next == ClusterAt(vol, disk.sectors, orgClust, ClusterNo(vol, fptr))
        && 2 <= next < vol.nFatent && ClusterSector(vol, next) > 0
        && FileSector(vol, disk.sectors, orgClust, fptr) == ClusterSector(vol, next) + SectorNo(vol, fptr)
    {
      hide GoodVolume, GoodChain, FatEntry, ClusterNo, SectorNo;
      CsizePositive(vol, disk.sectors);
      SectorOnDisk(vol, disk.sectors, orgClust, fsize, fptr);
      if fptr > 0 {
        Boundary(vol, fptr);
      } else {
        StartOfFile(vol);
      }
      ClusterInArea(vol, disk.sectors, ClusterAt(vol, disk.sectors, orgClust, ClusterNo(vol, fptr)), 0);
    }

    /** The cluster of the sector that starts at the position. */
    ghost function Entered(): nat
      requires GoodVolume(vol, disk.sectors)
      reads this, disk
    {
      CsizePositive(vol, disk.sectors);
      if SectorNo(vol, fptr) != 0 then currClust
      else if fptr == 0 then orgClust
      else FatEntry(vol, disk.sectors, currClust)
    }

    /** The start of a sector: step to the next cluster when one is needed, and set the current sector. */
    method EnterSector() returns (ok: bool)
      requires Usable() && isOpen && fptr % SECTOR == 0 && fptr < fsize
      modifies this`currClust, this`dsect
      ensures ok ==> vol.database <= dsect < |disk.sectors|
      ensures CsizeOk() && (ok <==> 2 <= old(Entered()) < vol.nFatent) && (ok ==> currClust == old(Entered()))
      ensures old(Chained() && Placed()) ==> ok && Inside(vol, disk.sectors, orgClust, fptr, currClust, dsect)
    {
      hide GoodChain, GoodVolume, FatEntry, ClusterAt, FileSector, ClusterNo, SectorNo, And32;
      SectorMask(vol, disk.sectors, fptr);
      var cs := And32(fptr / SECTOR, vol.csize - 1);
      if Chained() && Placed() { EnterCluster(); }
      if cs == 0 {
        var clst;
        if fptr == 0 {
          clst := orgClust;
        } else {
          clst := GetFat(currClust);
        }
        if clst <= 1 {
          return false;
        }
        currClust := clst;
      }
      var sect := ClusterSector(vol, currClust);
      CsizePositive(vol, disk.sectors);
      if 2 <= currClust < vol.nFatent { ClusterInArea(vol, disk.sectors, currClust, 0); }
      if sect == 0 {
        return false;
      }
      dsect := sect + cs;
      ClusterInArea(vol, disk.sectors, currClust, cs);
      ok := true;
    }

    ghost predicate CsizeOk() {
      vol.csize > 0
    }

    lemma Enter()
      requires Usable() && Placed() && fptr % SECTOR != 0
      ensures Inside(vol, disk.sectors, orgClust, fptr, currClust, dsect)
    {
      StillInside(vol, disk.sectors, orgClust, fptr, currClust, dsect);
    }

    /** The next n bytes, and the position behind them. */
    lemma Piece(n: nat)
      requires Usable() && Chained() && 0 < n && fptr + n <= fsize && fptr % SECTOR + n <= SECTOR
      requires Inside(vol, disk.sectors, orgClust, fptr, currClust, dsect)
      ensures dsect < |disk.sectors| && |disk.sectors[dsect]| == SECTOR
      ensures disk.sectors[dsect][fptr % SECTOR..fptr % SECTOR + n]
           == Contents(vol, disk.sectors, orgClust, fsize)[fptr..fptr + n]
      ensures PlacedAt(vol, disk.sectors, orgClust, fptr + n, currClust, dsect)
    {
      PieceOfFile(vol, disk.sectors, orgClust, fsize, fptr, n);
      MoveOn(vol, disk.sectors, orgClust, fptr, n, currClust, dsect);
    }

    /** One turn of the read loop: up to `left` bytes of the current sector. */
    method ReadPiece(left: nat) returns (ok: bool, b: seq<Byte>)
      requires Usable() && isOpen && 0 < left <= fsize - fptr
      modifies this
      ensures Usable() && fsize == old(fsize) && orgClust == old(orgClust)
      ensures if ok then isOpen && wip == old(wip) && 0 < |b| <= left && fptr == old(fptr) + |b| else !isOpen && !wip
      ensures old(Sound() && !wip) ==> ok && Sound() && !wip && b == File()[old(fptr)..fptr]
    {
      hide GoodVolume, GoodChain, PlacedAt, Inside, Contents;
      ghost var sound := Sound() && !wip;
      if fptr % SECTOR == 0 {
        ok := EnterSector();
        if !ok {
          isOpen, wip := false, false;
          return false, [];
        }
      } else if sound {
        Enter();
      }
      var n := Min(SECTOR - fptr % SECTOR, left);
      SectorSize(vol, disk.sectors, dsect);
      if sound { Piece(n); }
      b := disk.Readp(dsect, fptr % SECTOR, n);
      fptr := fptr + n;
      ok := true;
    }

    /** pf_read. */
    method Read(btr: nat) returns (r: FResult, data: seq<Byte>)
      requires Usable()
      modifies this
      ensures Usable() && fsize == old(fsize) && orgClust == old(orgClust)
      ensures !old(isOpen) ==> r == FrNotOpened && data == [] && fptr == old(fptr)
      ensures |data| <= btr
      ensures r == FrDiskErr ==> !isOpen
      ensures old(Sound() && !wip) ==>
        && r == FrOk && Sound() && !wip && |data| == Min(btr, fsize - old(fptr)) && fptr == old(fptr) + |data|
        && File() == old(File()) && data == File()[old(fptr)..fptr]
    {
      hide GoodVolume, GoodChain, Placed, Contents;
      data := [];
      if !isOpen {
        return FrNotOpened, [];
      }
      var left: nat := Min(btr, fsize - fptr);
      ghost var sound, from, total := Sound() && !wip, fptr, left;
      ghost var c := if sound then File() else [];
      while left > 0
        invariant Usable() && isOpen && fptr + left <= fsize && fsize == old(fsize) && orgClust == old(orgClust)
        invariant sound ==> Sound() && !wip && File() == c
        invariant |data| + left == total
        invariant sound ==> fptr == from + |data| && data == c[from..fptr]
      {
        var ok, b := ReadPiece(left);
        if !ok {
          return FrDiskErr, data;
        }
        if sound { SliceOn(c, from, fptr - |b|, |b|); }
        data, left := data + b, left - |b|;
      }
      r := FrOk;
    }

    /** Following the chain for n links from a cluster leads to data clusters only. */
    ghost predicate Leads(from: nat, n: nat)
      requires GoodVolume(vol, disk.sectors)
      reads disk
    {
      && (forall i: nat :: 0 < i <= n ==> 2 <= ClusterAt(vol, disk.sectors, from, i) < vol.nFatent)
      && 2 <= ClusterAt(vol, disk.sectors, from, n) < vol.nFatent
    }

    /** The links that a seek from ifptr to ofs follows are in order: those from the current cluster when the position
        is not behind it, else those from the first one. */
    ghost predicate CanReach(ofs: nat, ifptr: nat)
      requires GoodVolume(vol, disk.sectors) && CsizeOk() && ofs > 0
      reads this, disk
    {
      if ifptr > 0 && ClusterNo(vol, ofs - 1) >= ClusterNo(vol, ifptr - 1) then
        Leads(currClust, ClusterNo(vol, ofs - 1) - ClusterNo(vol, ifptr - 1))
      else Leads(orgClust, ClusterNo(vol, ofs - 1))
    }

    /** The cluster number of the last byte before ofs, where q whole clusters and rest bytes lie before ofs. */
    lemma ClusterOfEnd(ofs: nat, q: nat, rest: nat)
      requires vol.csize > 0 && ofs == q * vol.Bcs() + rest && rest > 0
      ensures if rest <= vol.Bcs() then ClusterNo(vol, ofs - 1) == q else ClusterNo(vol, ofs - 1) > q
    {
      if rest <= vol.Bcs() {
        DivModUnique(ofs - 1, vol.Bcs(), q, rest - 1);
      } else {
        ClusterSplit(vol, ofs - 1);
        MulLe(ClusterNo(vol, ofs - 1), q, vol.Bcs());
      }
    }

    /** Seeking to ofs bytes from the start: from the current cluster when it is not behind, else from the
        first one, along the chain. */
    method Walk(offset: nat, ifptr: nat, ghost sound: bool) returns (r: FResult)
      requires Usable() && isOpen && fptr == 0 && 0 < offset <= fsize && ifptr <= fsize
      requires sound ==> Chained() && !wip && disk.target == None
      requires sound && ifptr > 0 ==>
        CsizeOk() && currClust == ClusterAt(vol, disk.sectors, orgClust, ClusterNo(vol, ifptr - 1))
      modifies this
      ensures Usable() && fsize == old(fsize) && orgClust == old(orgClust)
      ensures r != FrNotOpened && (r == FrDiskErr ==> !isOpen)
      ensures sound ==> r == FrOk && Sound() && !wip && fptr == offset
      ensures CsizeOk() && (r == FrOk <==> old(CanReach(offset, ifptr)))
    {
      hide GoodVolume, GoodChain, Contents, And32, FatEntry, ClusterNo, SectorNo, FileSector, PlacedAt;
      hide ClusterAt, CanReach, Leads;
      CsizePositive(vol, disk.sectors);
      var bcs := vol.csize * SECTOR;
      var ofs, clst := offset, orgClust;
      ghost var q := 0;
      DivNat(ofs - 1, bcs);
      ReachIs(offset, ifptr);
      StartOfChain();
      if ifptr > 0 && (ofs - 1) / bcs >= (ifptr - 1) / bcs {
        ClusterMask(vol, disk.sectors, ifptr - 1);
        q := ClusterNo(vol, ifptr - 1);
        SameOrLater(vol, ofs, ifptr);
        fptr := And32(ifptr - 1, 0x1_0000_0000 - bcs);
        ofs := ofs - fptr;
        clst := currClust;
      } else {
        currClust := clst;
      }
      var ok;
      ok, ofs, clst, q := Follow(ofs, clst, offset, q, sound);
      if !ok {
        return FrDiskErr;
      }
      r := Settle(ofs, clst, q, sound);
    }

    lemma StartOfChain()
      requires GoodVolume(vol, disk.sectors)
      ensures ClusterAt(vol, disk.sectors, orgClust, 0) == orgClust
    {
    }

    /** The loop along the chain: from cluster from, the q0-th, with ofs bytes to go. */
    method Follow(ofs: nat, from: nat, ghost offset: nat, ghost q0: nat, ghost sound: bool)
        returns (ok: bool, rest: nat, clst: nat, ghost q: nat)
      requires Usable() && isOpen && fptr + ofs == offset <= fsize && ofs > 0 && from == currClust
      requires CsizeOk() && fptr == q0 * vol.Bcs() && fptr % SECTOR == 0
      requires sound ==> Chained() && from == ClusterAt(vol, disk.sectors, orgClust, q0)
      modifies this`fptr, this`currClust, this`isOpen, this`wip
      ensures Usable() && (!ok ==> !isOpen) && (sound ==> ok)
      ensures ok ==> isOpen && wip == old(wip) && fptr + rest == offset && 0 < rest <= vol.Bcs() && clst == currClust
      ensures ok ==> fptr == q * vol.Bcs() && fptr % SECTOR == 0
      ensures ok && sound ==> clst == ClusterAt(vol, disk.sectors, orgClust, q)
      ensures ClusterNo(vol, offset - 1) >= q0
      ensures Leads(from, ClusterNo(vol, offset - 1) - q0) <==> ok && 2 <= clst < vol.nFatent
    {
      hide GoodVolume, GoodChain, FatEntry, ClusterNo;
      CsizePositive(vol, disk.sectors);
      rest, clst, q := ofs, from, q0;
      ClusterOfEnd(offset, q, rest);
      while rest > vol.csize * SECTOR
        invariant Usable() && isOpen && wip == old(wip)
        invariant fptr + rest == offset && rest > 0 && fptr == q * vol.Bcs() && fptr % SECTOR == 0 && clst == currClust
        invariant sound ==> clst == ClusterAt(vol, disk.sectors, orgClust, q)
        invariant q0 <= q && clst == ClusterAt(vol, disk.sectors, from, q - q0)
        invariant forall i: nat :: 0 < i <= q - q0 ==> 2 <= ClusterAt(vol, disk.sectors, from, i) < vol.nFatent
        decreases rest
      {
        if sound { NextInFile(q); }
        ClusterOfEnd(offset, q, rest);
        clst := GetFat(clst);
        assert clst == ClusterAt(vol, disk.sectors, from, q - q0 + 1);
        if clst <= 1 || clst >= vol.nFatent {
          isOpen, wip, ok := false, false, false;
          return;
        }
        currClust := clst;
        OneClusterOn(fptr, vol.csize);
        fptr := fptr + vol.csize * SECTOR;
        rest := rest - vol.csize * SECTOR;
        q := q + 1;
      }
      ClusterOfEnd(offset, q, rest);
      ok := true;
    }

    lemma ReachIs(ofs: nat, ifptr: nat)
      requires GoodVolume(vol, disk.sectors) && CsizeOk() && ofs > 0
      ensures CanReach(ofs, ifptr) <==>
        if ifptr > 0 && (ofs - 1) / vol.Bcs() >= (ifptr - 1) / vol.Bcs() then
          Leads(currClust, ClusterNo(vol, ofs - 1) - ClusterNo(vol, ifptr - 1))
        else Leads(orgClust, ClusterNo(vol, ofs - 1))
    {
    }

    /** The end of a seek: rest bytes into cluster clst, the q-th of the chain. */
    method Settle(rest: nat, clst: nat, ghost q: nat, ghost sound: bool) returns (r: FResult)
      requires Usable() && isOpen && vol.csize > 0 && 0 < rest <= vol.Bcs() && fptr + rest <= fsize
      requires fptr == q * vol.Bcs() && fptr % SECTOR == 0 && clst == currClust
      requires sound ==> Chained() && !wip && disk.target == None && clst == ClusterAt(vol, disk.sectors, orgClust, q)
      modifies this
      ensures Usable() && fsize == old(fsize) && orgClust == old(orgClust)
      ensures r != FrNotOpened && (r == FrDiskErr ==> !isOpen) && (r == FrOk <==> 2 <= clst < vol.nFatent)
      ensures sound ==> r == FrOk && Sound() && !wip && fptr == old(fptr) + rest
    {
      hide GoodVolume, GoodChain, ClusterAt, And32, ClusterNo, SectorNo, FileSector, PlacedAt;
      CsizePositive(vol, disk.sectors);
      fptr := fptr + rest;
      var sect := ClusterSector(vol, clst);
      if sound { SeekInFile(q, rest); }
      if sect == 0 {
        isOpen, wip := false, false;
        return FrDiskErr;
      }
      SectorMask(vol, disk.sectors, fptr);
      ClusterInArea(vol, disk.sectors, clst, SectorNo(vol, fptr));
      dsect := sect + And32(fptr / SECTOR, vol.csize - 1);
      if sound { SeekEnd(vol, disk.sectors, orgClust, q, rest, clst, dsect); }
      r := FrOk;
    }

    lemma SeekInFile(q: nat, rest: nat)
      requires GoodVolume(vol, disk.sectors) && Chained() && vol.csize > 0 && 0 < rest && q * vol.Bcs() + rest <= fsize
      ensures 2 <= ClusterAt(vol, disk.sectors, orgClust, q) < vol.nFatent
      ensures ClusterSector(vol, ClusterAt(vol, disk.sectors, orgClust, q)) > 0
    {
      hide GoodVolume, ClusterAt;
      CsizePositive(vol, disk.sectors);
      assert InFile(vol, fsize, q);
      ClusterInArea(vol, disk.sectors, ClusterAt(vol, disk.sectors, orgClust, q), 0);
    }

    /** The chain has a cluster behind the q-th when the file goes on behind it. */
    lemma NextInFile(q: nat)
      requires GoodVolume(vol, disk.sectors) && Chained() && (q + 1) * vol.Bcs() < fsize
      ensures 2 <= FatEntry(vol, disk.sectors, ClusterAt(vol, disk.sectors, orgClust, q)) < vol.nFatent
      ensures FatEntry(vol, disk.sectors, ClusterAt(vol, disk.sectors, orgClust, q))
           == ClusterAt(vol, disk.sectors, orgClust, q + 1)
    {
      hide GoodVolume, FatEntry;
      assert InFile(vol, fsize, q + 1);
    }

    /** pf_lseek. */
    method Lseek(offset: nat) returns (r: FResult)
      requires Usable()
      modifies this
      ensures Usable() && fsize == old(fsize) && orgClust == old(orgClust)
      ensures !old(isOpen) ==> r == FrNotOpened && fptr == old(fptr)
      ensures r == FrDiskErr ==> !isOpen
      ensures old(Sound() && !wip) ==>
        r == FrOk && Sound() && !wip && fptr == Min(offset, fsize) && File() == old(File())
      ensures old(isOpen) && Min(offset, fsize) > 0 ==>
        CsizeOk() && (r == FrOk <==> old(CanReach(Min(offset, fsize), fptr)))
    {
      hide GoodVolume, GoodChain, Contents, And32, FatEntry;
      if !isOpen {
        return FrNotOpened;
      }
      ghost var sound := Sound() && !wip;
      CsizePositive(vol, disk.sectors);
      assert sound && fptr > 0 ==> currClust == ClusterAt(vol, disk.sectors, orgClust, ClusterNo(vol, fptr - 1));
      var ofs: nat := Min(offset, fsize);
      var ifptr := fptr;
      fptr := 0;
      if ofs > 0 {
        r := Walk(ofs, ifptr, sound);
      } else {
        r := FrOk;
      }
    }

    /** The file's bytes are c, counting a write in progress as finalized. */
    ghost predicate FileIs(c: seq<Byte>)
      reads this, disk
    {
      && GoodVolume(vol, disk.Future()) && GoodChain(vol, disk.Future(), orgClust, fsize)
      && Contents(vol, disk.Future(), orgClust, fsize) == c
    }

    /** Of what was on the disk before, only sectors of this file changed. */
    ghost predicate Only(before: Sectors)
      reads this, disk
    {
      GoodVolume(vol, before) && OnlyFile(vol, before, disk.sectors, orgClust, fsize)
    }

    /** A sector write is going on at fptr, in a file that would be c without it. */
    ghost predicate Sending(c: seq<Byte>)
      reads this, disk
    {
      && Usable() && isOpen && wip && Chained() && fptr < fsize
      && Inside(vol, disk.sectors, orgClust, fptr, currClust, dsect)
      && disk.target == Some(dsect) && |disk.sent| == fptr % SECTOR && |c| == fsize
      && (forall i :: 0 <= i < fsize && i / SECTOR != fptr / SECTOR
            ==> c[i] == Contents(vol, disk.sectors, orgClust, fsize)[i])
      && (forall i :: 0 <= i < fptr && i / SECTOR == fptr / SECTOR ==> c[i] == disk.sent[i % SECTOR])
    }

    /** The start of a turn of the write loop: at a sector boundary a new sector write is initiated. */
    method StartPiece(ghost c: seq<Byte>) returns (ok: bool)
      requires Usable() && isOpen && fptr < fsize && (fptr % SECTOR == 0 || wip)
      modifies this, disk
      ensures Usable() && fsize == old(fsize) && orgClust == old(orgClust) && fptr == old(fptr)
      ensures disk.sectors == old(disk.sectors)
      ensures if ok then isOpen && wip && dsect < |disk.sectors| else !isOpen && !wip
      ensures old(Sound() && FileIs(c)) ==> ok && Sending(c)
    {
      hide GoodVolume, GoodChain, Contents, Inside, PlacedAt;
      ghost var sound := Sound() && FileIs(c);
      if sound { BeforePiece(c); }
      if fptr % SECTOR == 0 {
        ok := EnterSector();
        if !ok {
          isOpen, wip := false, false;
          return false;
        }
        disk.Initiate(dsect);
        wip := true;
      } else if sound {
        Enter();
      }
      ok := true;
    }

    /** The rest of the turn: send what fits in the sector, and finalize the sector when it is full. */
    method SendPiece(b: seq<Byte>, ghost c: seq<Byte>, ghost before: Sectors) returns (n: nat)
      requires Usable() && isOpen && wip && dsect < |disk.sectors| && 0 < |b| <= fsize - fptr
      modifies this, disk
      ensures Usable() && fsize == old(fsize) && orgClust == old(orgClust)
      ensures isOpen && 0 < n <= |b| && fptr == old(fptr) + n && (fptr % SECTOR == 0 || wip)
      ensures old(Sending(c)) ==> Sound() && fptr <= |c| && FileIs(Written(c, old(fptr), b[..n]))
      ensures old(Sending(c) && Only(before)) ==> Only(before)
    {
      hide GoodVolume, GoodChain, Contents, Inside, PlacedAt, Only, Written, OnlyFile, Pad;
      n := Min(SECTOR - fptr % SECTOR, |b|);
      ghost var sending := Sending(c);
      if sending {
        if Only(before) { OnlyPiece(b[..n], c, before); }
        PieceSent(b[..n], c);
        assert b[..n][..n] == b[..n];
      }
      disk.Send(b[..n]);
      assert sending ==> disk.sent == old(disk.sent) + b[..n];
      fptr := fptr + n;
      VolumeKept(vol, disk.sectors, disk.target.value, Pad(disk.sent));
      if fptr % SECTOR == 0 {
        disk.Finalize();
        wip := false;
      }
      OnlyIs(before);
    }

    /** The predicate by its definition. */
    lemma OnlyIs(before: Sectors)
      ensures Only(before) <==> GoodVolume(vol, before) && OnlyFile(vol, before, disk.sectors, orgClust, fsize)
    {
    }

    lemma OnlyPiece(b: seq<Byte>, c: seq<Byte>, before: Sectors)
      requires Sending(c) && Only(before) && |disk.sent| + |b| <= SECTOR
      ensures GoodVolume(vol, before) && OnlyFile(vol, before, disk.sectors, orgClust, fsize)
      ensures OnlyFile(vol, before, disk.sectors[dsect := Pad(disk.sent + b)], orgClust, fsize)
    {
      hide GoodVolume, GoodChain, OnlyFile;
      OnlyFileStep(vol, before, disk.sectors, orgClust, fsize, fptr, Pad(disk.sent + b));
    }

    /** A write can start here: in a sector write, or where going back to the start of the sector is harmless. */
    predicate RoundsOk()
      reads this
    {
      vol.csize > 0 && (wip || fptr % SECTOR == 0 || fptr < SECTOR || SectorNo(vol, fptr) != 0)
    }

    /** Where a write starts. */
    function WriteStart(): (r: nat)
      reads this
      ensures r <= fptr
    {
      if wip then fptr else fptr - fptr % SECTOR
    }

    /** Go back to the start of the sector unless a sector write is in progress. */
    method RoundDown(ghost c: seq<Byte>)
      requires Usable() && isOpen
      modifies this
      ensures Usable() && isOpen && fsize == old(fsize) && orgClust == old(orgClust) && wip == old(wip)
      ensures fptr == old(WriteStart()) && (fptr % SECTOR == 0 || wip)
      ensures old(Sound() && FileIs(c) && RoundsOk()) ==> Sound() && FileIs(c)
    {
      hide GoodVolume, GoodChain, Contents, PlacedAt, FileSector, And32;
      if !wip {
        SectorRound(fptr);
        if Sound() && RoundsOk() && fptr % SECTOR != 0 { PlaceRounded(); }
        fptr := And32(fptr, 0xFFFF_FE00);
      }
    }

    lemma PlaceRounded()
      requires Sound() && RoundsOk() && !wip && fptr % SECTOR != 0
      ensures PlacedAt(vol, disk.sectors, orgClust, fptr - fptr % SECTOR, currClust, dsect)
    {
      hide GoodVolume, GoodChain, ClusterAt, ClusterNo, FileSector;
      RoundingIff(vol, disk.sectors, orgClust, fsize, fptr, currClust, dsect);
    }

    /** pf_write; c is what the file holds. */
    method Write(b: seq<Byte>, ghost c: seq<Byte>) returns (r: FResult, n: nat)
      requires Usable()
      modifies this, disk
      ensures Usable() && fsize == old(fsize) && orgClust == old(orgClust)
      ensures !old(isOpen) ==> r == FrNotOpened && n == 0 && disk.Future() == old(disk.Future())
      ensures r == FrDiskErr ==> !isOpen
      ensures old(Sound() && FileIs(c) && RoundsOk()) && b != [] ==>
        && r == FrOk && Sound() && (wip <==> fptr % SECTOR != 0)
        && old(WriteStart()) + n == fptr <= |c| && n == Min(|b|, fsize - old(WriteStart()))
        && FileIs(Written(c, old(WriteStart()), b[..n]))
      ensures old(Sound() && FileIs(c)) && b == [] ==>
        r == FrOk && Sound() && !wip && fptr == old(fptr) && FileIs(c)
      ensures old(Sound() && FileIs(c) && RoundsOk()) ==>
        OnlyFile(vol, old(disk.sectors), disk.sectors, orgClust, fsize)
    {
      hide GoodVolume, GoodChain, Contents, PlacedAt, OfFile;
      ghost var before := disk.sectors;
      assert Only(before);
      n := 0;
      if !isOpen {
        return FrNotOpened, 0;
      }
      if b == [] {
        Finish(c, before);
        return FrOk, 0;
      }
      RoundDown(c);
      r, n := WriteFrom(b[..Min(|b|, fsize - fptr)], c, before);
    }

    /** One turn of the write loop, after `done` was written at `from` in a file that held c. */
    method WriteTurn(rest: seq<Byte>, ghost c: seq<Byte>, ghost from: nat, ghost done: seq<Byte>, ghost sound: bool,
                     ghost before: Sectors)
        returns (ok: bool, k: nat)
      requires Usable() && isOpen && 0 < |rest| <= fsize - fptr && (fptr % SECTOR == 0 || wip)
      requires sound ==> |c| == fsize && from + |done| == fptr && Sound() && FileIs(Written(c, from, done))
      modifies this, disk
      ensures Usable() && fsize == old(fsize) && orgClust == old(orgClust)
      ensures if ok then isOpen && 0 < k <= |rest| && fptr == old(fptr) + k && (fptr % SECTOR == 0 || wip) else !isOpen
      ensures sound ==> ok && Sound() && FileIs(Written(c, from, done + rest[..k]))
      ensures sound && old(Only(before)) ==> Only(before)
    {
      hide GoodVolume, GoodChain, Contents, Placed, Written, OnlyFile, FileIs, Sound;
      k := 0;
      ghost var now := if sound then Written(c, from, done) else c;
      ok := StartPiece(now);
      if ok {
        k := SendPiece(rest, now, before);
        if sound { WrittenTwice(c, from, done, rest[..k]); }
      }
    }

    /** The write loop. */
    method WriteFrom(b: seq<Byte>, ghost c: seq<Byte>, ghost before: Sectors) returns (r: FResult, n: nat)
      requires Usable() && isOpen && (fptr % SECTOR == 0 || wip) && |b| <= fsize - fptr
      modifies this, disk
      ensures Usable() && fsize == old(fsize) && orgClust == old(orgClust)
      ensures r != FrNotOpened && (r == FrDiskErr ==> !isOpen)
      ensures r == FrOk ==> (fptr % SECTOR == 0 || wip)
      ensures old(Sound() && FileIs(c)) ==>
        && r == FrOk && Sound() && n == |b| && fptr == old(fptr) + n <= |c| && FileIs(Written(c, old(fptr), b))
      ensures old(Sound() && FileIs(c) && Only(before)) ==> Only(before)
    {
      hide GoodVolume, GoodChain, Contents, Placed, Written, Only;
      ghost var only := Sound() && FileIs(c) && Only(before);
      n := 0;
      ghost var sound, from := Sound() && FileIs(c), fptr;
      if sound { NothingYet(c); }
      var rest := b;
      while rest != []
        invariant Usable() && isOpen && fsize == old(fsize) && orgClust == old(orgClust)
        invariant n + |rest| == |b| && rest == b[n..] && fptr == from + n && fptr + |rest| <= fsize
        invariant fptr % SECTOR == 0 || wip
        invariant sound ==> Sound() && |c| == fsize && FileIs(Written(c, from, b[..n]))
        invariant only ==> sound && Only(before)
        decreases |rest|
      {
        var ok, k := WriteTurn(rest, c, from, b[..n], sound, before);
        if !ok {
          return FrDiskErr, n;
        }
        TakeOn(b, n, k);
        rest, n := rest[k..], n + k;
      }
      assert b[..n] == b;
      r := FrOk;
    }

    lemma NothingYet(c: seq<Byte>)
      requires Sound() && FileIs(c) && (fptr % SECTOR == 0 || wip)
      ensures |c| == fsize && Written(c, fptr, []) == c
    {
      hide GoodVolume, GoodChain, Contents, Placed, FileSector;
      if fptr == fsize || fptr % SECTOR == 0 {
        WrittenNothing(c, fptr);
      } else {
        ContentsAfterWrite(vol, disk.sectors, orgClust, fsize, fptr, Pad(disk.sent));
        PendingIsTarget();
        var s := FileSector(vol, disk.sectors, orgClust, fptr);
        assert c == Contents(vol, disk.sectors[s := Pad(disk.sent)], orgClust, fsize);
        forall i | 0 <= i < fsize && InTail(fptr, i)
          ensures c[i] == 0
        {
          SectorArith(fptr, 1, i);
          assert c[i] == Pad(disk.sent)[i % SECTOR];
        }
        assert forall i :: 0 <= i < fsize ==> Written(c, fptr, [])[i] == c[i];
      }
    }

    lemma PendingIsTarget()
      requires Sound() && wip
      ensures dsect == FileSector(vol, disk.sectors, orgClust, fptr)
    {
    }

    lemma FinishKeeps()
      requires Sound() && wip
      ensures GoodVolume(vol, disk.Future()) && GoodChain(vol, disk.Future(), orgClust, fsize)
      ensures PlacedAt(vol, disk.Future(), orgClust, fptr, currClust, dsect)
    {
      hide GoodVolume, GoodChain, ClusterAt, ClusterNo;
      var b := Pad(disk.sent);
      ChainKept(vol, disk.sectors, dsect, b, orgClust, fsize);
      StillInside(vol, disk.sectors, orgClust, fptr, currClust, dsect);
      InsideKept(vol, disk.sectors, dsect, b, orgClust, fptr, currClust, dsect);
      InsidePlaced(vol, disk.Future(), orgClust, fptr, currClust, dsect);
    }

    lemma OnlyFinish(before: Sectors)
      requires Sound() && wip && Only(before)
      ensures OnlyFile(vol, before, disk.Future(), orgClust, fsize)
    {
      hide GoodVolume, GoodChain, OnlyFile, ClusterAt, ClusterNo, SectorNo;
      PendingIsTarget();
      CsizePositive(vol, disk.sectors);
      WithinSector(vol, fptr - 1, 1);
      OnlyFileStep(vol, before, disk.sectors, orgClust, fsize, fptr - 1, Pad(disk.sent));
    }

    /** The finalize request. */
    method Finish(ghost c: seq<Byte>, ghost before: Sectors)
      requires Usable() && isOpen
      modifies this, disk
      ensures Usable() && fsize == old(fsize) && orgClust == old(orgClust) && fptr == old(fptr) && isOpen && !wip
      ensures old(Sound() && FileIs(c)) ==> Sound() && FileIs(c)
      ensures old(Sound() && Only(before)) ==> Only(before)
    {
      hide GoodVolume, GoodChain, Contents, PlacedAt, OnlyFile;
      if wip {
        VolumeKept(vol, disk.sectors, disk.target.value, Pad(disk.sent));
        if Sound() {
          FinishKeeps();
          if Only(before) { OnlyFinish(before); }
        }
        disk.Finalize();
      }
      wip := false;
    }

    /** The file before a piece is sent: other sectors are on the disk, this one has been sent so far. */
    lemma BeforePiece(c: seq<Byte>)
      requires Sound() && FileIs(c) && fptr < fsize && (fptr % SECTOR == 0 || wip)
      ensures |c| == fsize
      ensures forall i :: 0 <= i < fsize && i / SECTOR != fptr / SECTOR
                 ==> c[i] == Contents(vol, disk.sectors, orgClust, fsize)[i]
      ensures forall i :: 0 <= i < fptr && i / SECTOR == fptr / SECTOR ==> wip && c[i] == disk.sent[i % SECTOR]
    {
      hide GoodVolume, GoodChain, Contents;
      if wip {
        ContentsAfterWrite(vol, disk.sectors, orgClust, fsize, fptr, Pad(disk.sent));
      }
    }

    /** What sending a piece will do. */
    lemma PieceSent(b: seq<Byte>, c: seq<Byte>)
      requires Sending(c) && 0 < |b| && |disk.sent| + |b| <= SECTOR && fptr + |b| <= fsize
      ensures var d' := disk.sectors[dsect := Pad(disk.sent + b)];
        && GoodVolume(vol, d') && GoodChain(vol, d', orgClust, fsize)
        && Contents(vol, d', orgClust, fsize) == Written(c, fptr, b)
        && PlacedAt(vol, d', orgClust, fptr + |b|, currClust, dsect)
        && PlacedAt(vol, disk.sectors, orgClust, fptr + |b|, currClust, dsect)
    {
      hide GoodVolume, GoodChain, Contents;
      CsizePositive(vol, disk.sectors);
      var d' := disk.sectors[dsect := Pad(disk.sent + b)];
      PieceWritten(vol, disk.sectors, orgClust, fsize, fptr, disk.sent, b, c);
      InsideKept(vol, disk.sectors, dsect, Pad(disk.sent + b), orgClust, fptr, currClust, dsect);
      MoveOn(vol, disk.sectors, orgClust, fptr, |b|, currClust, dsect);
      MoveOn(vol, d', orgClust, fptr, |b|, currClust, dsect);
    }
  }

  lemma TakeOn(b: seq<Byte>, n: nat, k: nat)
    requires n + k <= |b|
    ensures b[..n] + b[n..][..k] == b[..n + k] && b[n..][k..] == b[n + k..]
  {
  }

  lemma SliceOn(s: seq<Byte>, a: nat, b: nat, n: nat)
    requires a <= b && b + n <= |s|
    ensures s[a..b] + s[b..b + n] == s[a..b + n]
  {
  }

  lemma {:induction false} VolumeKept(v: Volume, d: Sectors, s: nat, b: seq<Byte>)
    requires GoodVolume(v, d) && s < |d| && |b| == SECTOR
    ensures GoodVolume(v, d[s := b])
  {
  }

  lemma {:induction false} SectorSize(v: Volume, d: Sectors, s: nat)
    requires GoodVolume(v, d) && s < |d|
    ensures |d[s]| == SECTOR
  {
  }
}
