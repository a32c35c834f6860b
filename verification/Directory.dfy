/** Searching a FAT directory: `dir_rewind`, `dir_next` and `dir_find`. */
module Directory {
  import opened Words
  import opened Psram
  import opened PetitFat
  import opened PetitFs
  import RvBits

  const ENTRY_SIZE := 32
  const PER_SECTOR := 16  // entries
  const INDEX_LIMIT := 0x1_0000
  const ATTR := 11
  const AM_VOL := 0x08

  /** The root directory: its first sector and entry count on FAT16, its first cluster on FAT32. */
  datatype Root = Root(dirbase: nat, nRootdir: nat)

  /** A place in a directory: entry index, current cluster (0 in the static root table) and sector. */
  datatype Place = Place(index: nat, clust: nat, sect: nat)

  datatype Step = At(place: Place) | NoFile | DiskErr

  /** Where a directory starts; start 0 is the root. */
  function Rewind(v: Volume, root: Root, start: nat): Step {
    if start == 1 || start >= v.nFatent then DiskErr
    else
      var c := if v.fat32 && start == 0 then root.dirbase else start;
      At(Place(0, c, if c != 0 then ClusterSector(v, c) else root.dirbase))
  }

  /** The next entry's place. */
  function Next(v: Volume, d: Sectors, root: Root, p: Place): (r: Step)
    requires GoodVolume(v, d)
  {
    hide GoodVolume, And32, FatEntry, ClusterSector;
    var i := (p.index + 1) % INDEX_LIMIT;
    if i == 0 || p.sect == 0 || p.index >= INDEX_LIMIT then NoFile
    else if i % PER_SECTOR != 0 then At(p.(index := i))
    else if p.clust == 0 then
      if i >= root.nRootdir then NoFile else At(p.(index := i, sect := p.sect + 1))
    else
      CsizePositive(v, d);
      if And32(i / PER_SECTOR, v.csize - 1) != 0 then At(p.(index := i, sect := p.sect + 1))
      else
        var c := FatEntry(v, d, p.clust);
        if c <= 1 then DiskErr
        else if c >= v.nFatent then NoFile
        else At(Place(i, c, ClusterSector(v, c)))
  }

  /** The k-th entry's place, or how the directory ended before it. */
  function Walk(v: Volume, d: Sectors, root: Root, start: nat, k: nat): Step
    requires GoodVolume(v, d)
  {
    if k == 0 then Rewind(v, root, start)
    else
      var s := Walk(v, d, root, start, k - 1);
      if s.At? then Next(v, d, root, s.place) else s
  }

  /** The static root table is on the disk. */
  predicate GoodRoot(d: Sectors, root: Root) {
    root.dirbase + root.nRootdir / PER_SECTOR < |d| && root.nRootdir % PER_SECTOR == 0
  }

  /** A place whose sector is where its index says. */
  ghost predicate InDirectory(v: Volume, d: Sectors, root: Root, p: Place)
    requires GoodVolume(v, d)
  {
    CsizePositive(v, d);
    p.index < INDEX_LIMIT &&
    if p.clust == 0 then
      && p.sect == root.dirbase + p.index / PER_SECTOR
      && (p.index / PER_SECTOR > 0 ==> p.index / PER_SECTOR < root.nRootdir / PER_SECTOR)
    else if ClusterSector(v, p.clust) == 0 then p.sect == 0
    else p.sect == ClusterSector(v, p.clust) + p.index / PER_SECTOR % v.csize
  }

  lemma {:induction false} PlaceOnDisk(v: Volume, d: Sectors, root: Root, p: Place)
    requires GoodVolume(v, d) && GoodRoot(d, root) && InDirectory(v, d, root, p)
    ensures p.sect < |d| && |d[p.sect]| == SECTOR
  {
    CsizePositive(v, d);
    if p.clust >= 2 && p.clust < v.nFatent {
      ClusterInArea(v, d, p.clust, p.index / PER_SECTOR % v.csize);
    } else {
      assert v.database <= |d| by { ClusterSpace(v); }
    }
  }

  lemma ClusterSpace(v: Volume)
    requires v.nFatent >= 2
    ensures (v.nFatent - 2) * v.csize >= 0
  {
  }

  lemma {:induction false} RewindInDirectory(v: Volume, d: Sectors, root: Root, start: nat)
    requires GoodVolume(v, d)
    ensures Rewind(v, root, start).At? ==> InDirectory(v, d, root, Rewind(v, root, start).place)
  {
    CsizePositive(v, d);
    ZeroParts(v.csize);
    hide GoodVolume;
  }

  lemma {:induction false} ZeroParts(m: nat)
    requires m > 0
    ensures 0 / PER_SECTOR == 0 && 0 % m == 0
  {
    DivModUnique(0, m, 0, 0);
  }

  lemma {:induction false} NextIndex(v: Volume, d: Sectors, root: Root, p: Place)
    requires GoodVolume(v, d)
    ensures Next(v, d, root, p).At? ==> Next(v, d, root, p).place.index == p.index + 1 < INDEX_LIMIT
  {
    hide GoodVolume, And32, FatEntry, ClusterSector;
    if p.index < INDEX_LIMIT { SmallRemainder(p.index + 1); }
  }

  lemma SmallRemainder(i: nat)
    requires i <= INDEX_LIMIT
    ensures i % INDEX_LIMIT == if i == INDEX_LIMIT then 0 else i
  {
  }

  lemma {:induction false} NextInDirectory(v: Volume, d: Sectors, root: Root, p: Place)
    requires GoodVolume(v, d) && GoodRoot(d, root) && InDirectory(v, d, root, p)
    ensures Next(v, d, root, p).At? ==> InDirectory(v, d, root, Next(v, d, root, p).place)
  {
    hide GoodVolume, FatEntry, And32, ClusterSector, Pow2;
    CsizePositive(v, d);
    NextIndex(v, d, root, p);
    var i := p.index + 1;
    CsizeMask(v, d, i / PER_SECTOR);
    if i % PER_SECTOR != 0 {
      assert i / PER_SECTOR == p.index / PER_SECTOR;
    } else {
      assert i / PER_SECTOR == p.index / PER_SECTOR + 1;
      NextRemainder(p.index / PER_SECTOR, v.csize);
    }
  }

  lemma {:induction false} CsizeMask(v: Volume, d: Sectors, x: nat)
    requires GoodVolume(v, d)
    ensures v.csize > 0 && And32(x, v.csize - 1) == x % v.csize
  {
    var k: nat :| k <= 7 && v.csize == Pow2(k);
    LowMask(x, k, 32);
  }

  lemma {:induction false} NextRemainder(n: nat, m: nat)
    requires m > 0
    ensures (n + 1) % m != 0 ==> (n + 1) % m == n % m + 1
  {
    var q, r := n / m, n % m;
    assert n == q * m + r;
    if r + 1 < m {
      DivModUnique(n + 1, m, q, r + 1);
    } else {
      assert (q + 1) * m == q * m + m;
      DivModUnique(n + 1, m, q + 1, 0);
    }
  }

  /** In a directory that is a chain of clusters the k-th entry is in the chain's cluster of that number. */
  lemma {:induction false} WalkFollowsChain(v: Volume, d: Sectors, root: Root, start: nat, k: nat)
    requires GoodVolume(v, d) && Walk(v, d, root, start, k).At?
    ensures Rewind(v, root, start).At? && v.csize > 0 && k / PER_SECTOR / v.csize >= 0
    ensures var p, first := Walk(v, d, root, start, k).place, Rewind(v, root, start).place.clust;
      && p.index == k < 0x1_0000
      && (first != 0 ==> p.clust != 0 && p.clust == ClusterAt(v, d, first, k / PER_SECTOR / v.csize))
      && (first == 0 ==> p.clust == 0)
    decreases k
  {
    hide GoodVolume, FatEntry, And32, ClusterSector, Pow2;
    CsizePositive(v, d);
    if k == 0 {
      ZeroParts(v.csize);
    } else {
      WalkFollowsChain(v, d, root, start, k - 1);
      var p := Walk(v, d, root, start, k - 1).place;
      NextIndex(v, d, root, p);
      CsizeMask(v, d, k / PER_SECTOR);
      ClusterStep(k, v.csize);
    }
  }

  /** The cluster's number goes up exactly at its first entry. */
  lemma {:induction false} ClusterStep(k: nat, m: nat)
    requires k > 0 && m > 0
    ensures var a, b := (k - 1) / PER_SECTOR / m, k / PER_SECTOR / m;
      a >= 0 && b == if k % PER_SECTOR == 0 && k / PER_SECTOR % m == 0 then a + 1 else a
  {
    var n := (k - 1) / PER_SECTOR;
    var q, r := n / m, n % m;
    assert n == q * m + r;
    Smaller(n, m);
    if k % PER_SECTOR == 0 {
      assert k / PER_SECTOR == n + 1;
      if r + 1 < m {
        DivModUnique(n + 1, m, q, r + 1);
      } else {
        assert (q + 1) * m == q * m + m;
        DivModUnique(n + 1, m, q + 1, 0);
      }
    } else {
      assert k / PER_SECTOR == n;
    }
  }

  /** The sector of the k-th entry: counted from the start of its cluster, or of the static root table. */
  lemma {:induction false} EntrySector(v: Volume, d: Sectors, root: Root, start: nat, k: nat)
    requires GoodVolume(v, d) && GoodRoot(d, root) && Walk(v, d, root, start, k).At?
    ensures v.csize > 0
    ensures var p := Walk(v, d, root, start, k).place;
      p.sect == if p.clust == 0 then root.dirbase + k / 16
                else if 2 <= p.clust < v.nFatent then v.database + (p.clust - 2) * v.csize + k / 16 % v.csize
                else 0
  {
    hide GoodVolume, Walk, Pow2;
    CsizePositive(v, d);
    WalkInDirectory(v, d, root, start, k);
    WalkFollowsChain(v, d, root, start, k);
    var p := Walk(v, d, root, start, k).place;
    if 2 <= p.clust < v.nFatent { ClusterInArea(v, d, p.clust, 0); }
  }

  lemma {:induction false} WalkInDirectory(v: Volume, d: Sectors, root: Root, start: nat, k: nat)
    requires GoodVolume(v, d) && GoodRoot(d, root) && Walk(v, d, root, start, k).At?
    ensures InDirectory(v, d, root, Walk(v, d, root, start, k).place)
    decreases k
  {
    hide GoodVolume, GoodRoot, InDirectory, Next, Rewind;
    if k == 0 {
      RewindInDirectory(v, d, root, start);
    } else {
      WalkInDirectory(v, d, root, start, k - 1);
      NextInDirectory(v, d, root, Walk(v, d, root, start, k - 1).place);
    }
  }

  /** The static root table has all its entries, and no more. */
  lemma {:induction false} StaticTable(v: Volume, d: Sectors, root: Root, k: nat)
    requires GoodVolume(v, d) && !v.fat32 && root.dirbase > 0
    requires 0 < root.nRootdir < 0x1_0000 && root.nRootdir % 16 == 0 && k <= root.nRootdir
    ensures if k == root.nRootdir then Walk(v, d, root, 0, k) == NoFile
      else Walk(v, d, root, 0, k) == At(Place(k, 0, root.dirbase + k / 16))
    decreases k
  {
    hide GoodVolume, FatEntry, And32, ClusterSector;
    if k == 0 {
      FirstCluster(v, d);
    } else {
      StaticTable(v, d, root, k - 1);
      SmallRemainder(k);
      assert k / 16 == (k - 1) / 16 + if k % 16 == 0 then 1 else 0;
    }
  }

  lemma FirstCluster(v: Volume, d: Sectors)
    requires GoodVolume(v, d)
    ensures v.nFatent >= 2
  {
  }

  /** In a chain of clusters only the last entry of a cluster asks for the chain's link. */
  lemma {:induction false} NextInChain(v: Volume, d: Sectors, root: Root, p: Place)
    requires GoodVolume(v, d) && p.clust != 0 && p.sect != 0 && p.index + 1 < INDEX_LIMIT
    ensures v.csize > 0
    ensures var i, r, link := p.index + 1, Next(v, d, root, p), FatEntry(v, d, p.clust);
      if i % 16 != 0 || i / 16 % v.csize != 0 || 2 <= link < v.nFatent then r.At?
      else r == if link <= 1 then DiskErr else NoFile
  {
    hide GoodVolume, FatEntry, And32, Pow2, ClusterSector;
    SmallRemainder(p.index + 1);
    CsizeMask(v, d, (p.index + 1) / 16);
  }

  /** A directory of clusters goes on as long as its chain does: up to the k-th entry every cluster before is linked to
      the next one; behind the last entry of a cluster the directory ends where the chain does, with an error if its
      link is 0 or 1. */
  lemma {:induction false} ChainTable(v: Volume, d: Sectors, root: Root, start: nat, k: nat)
    requires GoodVolume(v, d) && GoodRoot(d, root) && v.csize > 0 && 2 <= start < v.nFatent && k < 0x1_0000
    requires forall i: nat :: i * v.csize * 16 < k ==> 2 <= ClusterAt(v, d, start, i) < v.nFatent
    ensures k / 16 / v.csize >= 0
    ensures var link := ClusterAt(v, d, start, k / 16 / v.csize);
      if 2 <= link < v.nFatent then Walk(v, d, root, start, k).At?
      else Walk(v, d, root, start, k) == if link <= 1 then DiskErr else NoFile
    decreases k
  {
    hide GoodVolume, GoodRoot, FatEntry, ClusterSector, Next;
    if k == 0 {
      ZeroParts(v.csize);
    } else {
      ClusterStep(k, v.csize);
      ChainTable(v, d, root, start, k - 1);
      BeforeEntry(k, v.csize);
      assert 2 <= ClusterAt(v, d, start, (k - 1) / 16 / v.csize) < v.nFatent;
      WalkFollowsChain(v, d, root, start, k - 1);
      InsideChain(v, d, root, start, k - 1);
      NextInChain(v, d, root, Walk(v, d, root, start, k - 1).place);
    }
  }

  lemma {:induction false} InsideChain(v: Volume, d: Sectors, root: Root, start: nat, k: nat)
    requires GoodVolume(v, d) && GoodRoot(d, root) && Walk(v, d, root, start, k).At?
    requires 2 <= Walk(v, d, root, start, k).place.clust < v.nFatent
    ensures Walk(v, d, root, start, k).place.sect != 0
  {
    hide GoodVolume, GoodRoot, Walk;
    CsizePositive(v, d);
    EntrySector(v, d, root, start, k);
    AreaBound(Walk(v, d, root, start, k).place.clust - 2, v.nFatent - 2, v.csize, 0);
  }

  lemma {:induction false} BeforeEntry(k: nat, m: nat)
    requires k > 0 && m > 0
    ensures (k - 1) / 16 / m * m * 16 < k
  {
    RoundsDown((k - 1) / 16, m);
  }

  /** The 32 bytes of the entry at a place. */
  function Entry(d: Sectors, p: Place): (e: seq<Byte>)
    requires p.sect < |d| && |d[p.sect]| == SECTOR
    ensures |e| == ENTRY_SIZE
  {
    d[p.sect][p.index % PER_SECTOR * ENTRY_SIZE..p.index % PER_SECTOR * ENTRY_SIZE + ENTRY_SIZE]
  }

  predicate IsEnd(e: seq<Byte>)
    requires |e| == ENTRY_SIZE
  {
    e[0] == 0
  }

  /** Not a volume label, and with this 11-byte name. */
  predicate IsWanted(e: seq<Byte>, name: seq<Byte>)
    requires |e| == ENTRY_SIZE
  {
    And32(e[ATTR], AM_VOL) == 0 && e[..11] == name
  }

  /** A wanted entry has the name and is no volume label; the bits for read-only, hidden, system, directory and archive
      (1, 2, 4, 16 and 32) make no difference. A first byte 0 ends the table. */
  lemma {:induction false} WantedIs(e: seq<Byte>, name: seq<Byte>)
    requires |e| == ENTRY_SIZE
    ensures IsWanted(e, name) <==> e[..11] == name && e[11] as int / 8 % 2 == 0
    ensures IsEnd(e) <==> e[0] as int == 0
  {
    hide Gates, Pow2;
    Powers();
    RvBits.BitMask(e[11] as int, 8, 3);
  }

  /** The search goes past the k-th entry: there is one, it is not the end marker and not the wanted one. */
  ghost predicate Passes(v: Volume, d: Sectors, root: Root, start: nat, name: seq<Byte>, k: nat)
    requires GoodVolume(v, d)
  {
    var s := Walk(v, d, root, start, k);
    && s.At? && s.place.sect < |d| && |d[s.place.sect]| == SECTOR
    && !IsEnd(Entry(d, s.place)) && !IsWanted(Entry(d, s.place), name)
  }

  class Dir {
    const vol: Volume
    const root: Root
    const disk: Disk
    var index: nat
    var clust: nat
    var sect: nat

    constructor (disk: Disk, vol: Volume, root: Root)
      ensures this.disk == disk && this.vol == vol && this.root == root
    {
      this.disk, this.vol, this.root := disk, vol, root;
      index, clust, sect := 0, 0, 0;
    }

    function Here(): Place
      reads this
    {
      Place(index, clust, sect)
    }

    ghost predicate Good()
      reads disk
    {
      GoodVolume(vol, disk.sectors) && GoodRoot(disk.sectors, root)
    }

    /** dir_rewind. */
    method DirRewind(start: nat) returns (r: Step)
      requires Good()
      modifies this
      ensures r == Rewind(vol, root, start)
      ensures r.At? ==> r.place == Here() && index == 0 && InDirectory(vol, disk.sectors, root, Here())
    {
      RewindInDirectory(vol, disk.sectors, root, start);
      if start == 1 || start >= vol.nFatent {
        return DiskErr;
      }
      var c := start;
      if vol.fat32 && c == 0 {
        c := root.dirbase;
      }
      index, clust, sect := 0, c, if c != 0 then ClusterSector(vol, c) else root.dirbase;
      r := At(Here());
    }

    /** get_fat. */
    method GetFat(c: nat) returns (r: nat)
      requires Good()
      ensures r == FatEntry(vol, disk.sectors, c)
    {
      var fs := new FatFs(disk, vol);
      r := fs.GetFat(c);
    }

    /** dir_next. */
    method DirNext() returns (r: Step)
      requires Good() && InDirectory(vol, disk.sectors, root, Here())
      modifies this
      ensures r == Next(vol, disk.sectors, root, old(Here()))
      ensures r.At? ==> r.place == Here() && InDirectory(vol, disk.sectors, root, Here())
    {
      hide InDirectory, GoodVolume, FatEntry, And32;
      NextInDirectory(vol, disk.sectors, root, Here());
      CsizePositive(vol, disk.sectors);
      var i := (index + 1) % INDEX_LIMIT;
      if i == 0 || sect == 0 || index >= INDEX_LIMIT {
        return NoFile;
      }
      if i % PER_SECTOR == 0 {
        sect := sect + 1;
        if clust == 0 {
          if i >= root.nRootdir {
            return NoFile;
          }
        } else if And32(i / PER_SECTOR, vol.csize - 1) == 0 {
          var c := GetFat(clust);
          if c <= 1 {
            return DiskErr;
          }
          if c >= vol.nFatent {
            return NoFile;
          }
          clust, sect := c, ClusterSector(vol, c);
        }
      }
      index := i;
      r := At(Here());
    }

    /** dir_find: the first entry with the name, if it comes before the end; k counts the entries passed. */
    method Find(start: nat, name: seq<Byte>) returns (r: Step, ghost k: nat)
      requires Good()
      modifies this
      ensures k < INDEX_LIMIT || (k == INDEX_LIMIT && !r.At?)
      ensures forall j :: 0 <= j < k ==> Passes(vol, disk.sectors, root, start, name, j)
      ensures r.At? ==>
        && Walk(vol, disk.sectors, root, start, k) == r && r.place == Here()
        && r.place.sect < |disk.sectors| && |disk.sectors[r.place.sect]| == SECTOR
        && !IsEnd(Entry(disk.sectors, r.place)) && IsWanted(Entry(disk.sectors, r.place), name)
      ensures r == DiskErr ==> Walk(vol, disk.sectors, root, start, k) == DiskErr
      ensures r == NoFile ==>
        var s := Walk(vol, disk.sectors, root, start, k);
        s == NoFile || (s.At? && s.place.sect < |disk.sectors| && |disk.sectors[s.place.sect]| == SECTOR
                        && IsEnd(Entry(disk.sectors, s.place)))
    {
      hide InDirectory, GoodVolume, Next, Rewind;
      k := 0;
      r := DirRewind(start);
      while r.At?
        invariant r == Walk(vol, disk.sectors, root, start, k)
        invariant r.At? ==> r.place == Here() && InDirectory(vol, disk.sectors, root, Here())
        invariant r.At? ==> index == k < INDEX_LIMIT
        invariant k <= INDEX_LIMIT
        invariant forall j :: 0 <= j < k ==> Passes(vol, disk.sectors, root, start, name, j)
        decreases INDEX_LIMIT - k
      {
        PlaceOnDisk(vol, disk.sectors, root, Here());
        var e := disk.Readp(sect, index % PER_SECTOR * ENTRY_SIZE, ENTRY_SIZE);
        if IsEnd(e) {
          return NoFile, k;
        }
        if IsWanted(e, name) {
          return;
        }
        NextIndex(vol, disk.sectors, root, Here());
        r := DirNext();
        k := k + 1;
      }
    }
  }
}
