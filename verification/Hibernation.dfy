/** Power state and hibernation: RAM and processor state through a file, across a loss of power. */
module Hibernation {
  import opened Words
  import opened Wrappers
  import opened Psram
  import opened Cache
  import opened PetitFat
  import opened PetitFs
  import opened RvCore
  import opened Emulator

  /** The file can be opened: its chain is good and no sector write is going on. */
  ghost predicate CanOpen(fs: FatFs, f: FileRef)
    reads fs, fs.disk
  {
    && fs.Usable() && fs.disk.target == None && f.size < 0x1_0000_0000
    && GoodChain(fs.vol, fs.disk.sectors, f.start, f.size)
  }

  ghost function Bytes(fs: FatFs, f: FileRef): (s: seq<Byte>)
    requires CanOpen(fs, f)
    reads fs, fs.disk
    ensures |s| == f.size
  {
    Contents(fs.vol, fs.disk.sectors, f.start, f.size)
  }

  /** pf_open of a file that can be opened. */
  method Open(fs: FatFs, f: FileRef)
    requires CanOpen(fs, f)
    modifies fs
    ensures fs.Sound() && !fs.wip && fs.fptr == 0 && fs.fsize == f.size && fs.orgClust == f.start
    ensures fs.FileIs(old(Bytes(fs, f)))
  {
    hide GoodVolume, GoodChain, Contents;
    fs.Open(f.start, f.size);
  }

  /** The open file is f with bytes c, and only its sectors differ from what was there before. */
  ghost predicate Writing(fs: FatFs, f: FileRef, c: seq<Byte>, before: Sectors)
    reads fs, fs.disk
  {
    && fs.Sound() && fs.FileIs(c) && fs.orgClust == f.start && fs.fsize == f.size
    && GoodVolume(fs.vol, before) && OnlyFile(fs.vol, before, fs.disk.sectors, f.start, f.size)
  }

  /** pf_write behind the bytes written so far. */
  method Append(fs: FatFs, f: FileRef, b: seq<Byte>, ghost c: seq<Byte>, ghost done: seq<Byte>, ghost before: Sectors)
      returns (r: FResult)
    requires fs.Usable() && |done| + |b| <= |c| && Writing(fs, f, Written(c, 0, done), before)
    requires fs.fptr == |done| && !fs.wip && |done| % SECTOR == 0 && b != []
    modifies fs, fs.disk
    ensures r == FrOk && fs.Usable() && Writing(fs, f, Written(c, 0, done + b), before)
    ensures fs.fptr == |done| + |b| && (fs.wip <==> fs.fptr % SECTOR != 0)
  {
    hide Written, FatFs.Sound, FatFs.FileIs, OnlyFile, FatFs.RoundsOk, FatFs.WriteStart;
    ghost var d, now := fs.disk.sectors, Written(c, 0, done);
    AtBoundary(fs, now);
    var n;
    r, n := fs.Write(b, now);
    assert b[..|b|] == b;
    WrittenTwice(c, 0, done, b);
    OnlyFileTwice(fs.vol, before, d, fs.disk.sectors, f.start, f.size);
  }

  lemma AtBoundary(fs: FatFs, c: seq<Byte>)
    requires fs.Sound() && fs.FileIs(c) && !fs.wip && fs.fptr % SECTOR == 0
    ensures |c| == fs.fsize && GoodVolume(fs.vol, fs.disk.sectors) && fs.RoundsOk() && fs.WriteStart() == fs.fptr
  {
    CsizePositive(fs.vol, fs.disk.sectors);
  }

  /** pf_write with no bytes: the sector write in progress is finalized. */
  method Finalize(fs: FatFs, f: FileRef, ghost c: seq<Byte>, ghost before: Sectors) returns (r: FResult)
    requires fs.Usable() && Writing(fs, f, c, before) && (fs.wip || fs.fptr % SECTOR == 0) && f.size < 0x1_0000_0000
    modifies fs, fs.disk
    ensures r == FrOk && !fs.wip && CanOpen(fs, f) && Bytes(fs, f) == c && Writing(fs, f, c, before)
  {
    hide FatFs.Sound, FatFs.FileIs, OnlyFile, FatFs.RoundsOk, GoodChain;
    ghost var d := fs.disk.sectors;
    CanFinalize(fs);
    var n;
    r, n := fs.Write([], c);
    OnlyFileTwice(fs.vol, before, d, fs.disk.sectors, f.start, f.size);
    Finalized(fs, f, c);
  }

  lemma CanFinalize(fs: FatFs)
    requires fs.Sound() && (fs.wip || fs.fptr % SECTOR == 0)
    ensures GoodVolume(fs.vol, fs.disk.sectors) && fs.RoundsOk()
  {
    CsizePositive(fs.vol, fs.disk.sectors);
  }

  lemma Finalized(fs: FatFs, f: FileRef, c: seq<Byte>)
    requires fs.Sound() && fs.FileIs(c) && !fs.wip && fs.orgClust == f.start && fs.fsize == f.size
    ensures CanOpen(fs, f) && Bytes(fs, f) == c
  {
    hide GoodVolume, GoodChain, Contents;
  }

  /** A file just opened, before anything is written. */
  lemma StartWriting(fs: FatFs, f: FileRef, c: seq<Byte>)
    requires fs.Sound() && fs.FileIs(c) && fs.orgClust == f.start && fs.fsize == f.size
    ensures |c| == f.size && Written(c, 0, []) == c && Writing(fs, f, c, fs.disk.sectors)
  {
    hide GoodChain, Contents, OfFile;
    WrittenNothing(c, 0);
  }

  /** Open a file and seek to its start. */
  method OpenForWriting(fs: FatFs, f: FileRef, ghost c: seq<Byte>)
    requires CanOpen(fs, f) && c == Bytes(fs, f)
    modifies fs
    ensures fs.Usable() && !fs.wip && fs.fptr == 0 && |c| == f.size
    ensures Written(c, 0, []) == c && Writing(fs, f, c, fs.disk.sectors)
  {
    hide GoodVolume, GoodChain, Contents;
    Open(fs, f);
    var rc := fs.Lseek(0);
    StartWriting(fs, f, c);
  }

  /** vm_save_powerstate: one byte at the start of the file STAT; the rest of its sector becomes zero. */
  method SavePowerState(fs: FatFs, stat: FileRef, state: Byte) returns (r: FResult)
    requires CanOpen(fs, stat) && stat.size > 0
    modifies fs, fs.disk
    ensures r == FrOk && !fs.wip && CanOpen(fs, stat) && Bytes(fs, stat) == Written(old(Bytes(fs, stat)), 0, [state])
    ensures GoodVolume(fs.vol, old(fs.disk.sectors))
         && OnlyFile(fs.vol, old(fs.disk.sectors), fs.disk.sectors, stat.start, stat.size)
  {
    hide Written, CanOpen, Bytes, FatFs.Usable;
    ghost var c, before := Bytes(fs, stat), fs.disk.sectors;
    assert stat.size < 0x1_0000_0000 by { CanOpenSize(fs, stat); }
    OpenForWriting(fs, stat, c);
    r := Append(fs, stat, [state], c, [], before);
    assert [] + [state] == [state];
    r := Finalize(fs, stat, Written(c, 0, [state]), before);
  }

  lemma CanOpenSize(fs: FatFs, f: FileRef)
    requires CanOpen(fs, f)
    ensures f.size < 0x1_0000_0000 && GoodVolume(fs.vol, fs.disk.sectors)
  {
  }

  /** vm_get_powerstate. */
  method GetPowerState(fs: FatFs, stat: FileRef) returns (state: Byte)
    requires CanOpen(fs, stat)
    modifies fs
    ensures !fs.wip && CanOpen(fs, stat) && Bytes(fs, stat) == old(Bytes(fs, stat))
    ensures state == if stat.size == 0 then 5 else Bytes(fs, stat)[0]
  {
    hide GoodVolume, GoodChain, Contents;
    Open(fs, stat);
    var rc, data := fs.Read(1);
    state := if rc != FrOk || data == [] then EMU_UNKNOWN else data[0];
  }

  /** What the snapshot file starts with. */
  ghost function SnapshotOf(image: seq<Byte>, core: Core): (b: seq<Byte>)
    requires |image| == RAM_SIZE
    ensures |b| == RAM_SIZE + CORE_BYTES
  {
    image + Save(core)
  }

  /** The hibernation sequence: flush the cache, then write all RAM and the processor state to the file. */
  method SaveSnapshot(e: Emulator, snap: FileRef) returns (r: FResult)
    requires e.Valid() && CanOpen(e.fs, snap) && snap.size >= RAM_SIZE + CORE_BYTES
    modifies e.Repr()
    ensures r == FrOk && e.Valid() && e.cache.Image() == old(e.cache.Image()) && e.core == old(e.core)
    ensures !e.fs.wip && CanOpen(e.fs, snap)
    ensures Bytes(e.fs, snap) == Written(old(Bytes(e.fs, snap)), 0, SnapshotOf(e.cache.Image(), e.core))
    ensures GoodVolume(e.fs.vol, old(e.fs.disk.sectors))
         && OnlyFile(e.fs.vol, old(e.fs.disk.sectors), e.fs.disk.sectors, snap.start, snap.size)
  {
    hide Written, CanOpen, Bytes, FatFs.Usable, Cache.SetOk, Cache.LineOk, Cache.Image, Save;
    ghost var c, before := Bytes(e.fs, snap), e.fs.disk.sectors;
    CanOpenSize(e.fs, snap);
    e.cache.Flush();
    OpenForWriting(e.fs, snap, c);
    SaveRam(e, snap, c, before);
    r := SaveCore(e.fs, snap, e.core, c, e.cache.Image(), before);
  }

  /** The struct behind the RAM image, and the end of the write. */
  method SaveCore(fs: FatFs, snap: FileRef, core: Core, ghost c: seq<Byte>, ghost image: seq<Byte>,
                  ghost before: Sectors)
      returns (r: FResult)
    requires fs.Usable() && |image| == RAM_SIZE && |c| == snap.size >= RAM_SIZE + CORE_BYTES
    requires !fs.wip && fs.fptr == RAM_SIZE && Writing(fs, snap, Written(c, 0, image), before)
    requires snap.size < 0x1_0000_0000
    modifies fs, fs.disk
    ensures r == FrOk && !fs.wip && CanOpen(fs, snap) && Bytes(fs, snap) == Written(c, 0, SnapshotOf(image, core))
    ensures Writing(fs, snap, Written(c, 0, SnapshotOf(image, core)), before)
  {
    hide Written, CanOpen, Bytes, FatFs.Usable, Save, Writing;
    r := Append(fs, snap, Save(core), c, image, before);
    r := Finalize(fs, snap, Written(c, 0, image + Save(core)), before);
  }

  /** The loop over RAM blocks. */
  method SaveRam(e: Emulator, snap: FileRef, ghost c: seq<Byte>, ghost before: Sectors)
    requires e.Valid() && e.cache.ram.Bytes() == e.cache.Image() && |c| == snap.size >= RAM_SIZE + CORE_BYTES
    requires !e.fs.wip && e.fs.fptr == 0 && Writing(e.fs, snap, Written(c, 0, []), before)
    modifies e.blkBuf, e.cache.ram.Repr(), e.fs, e.fs.disk
    ensures e.Valid() && e.cache.Image() == old(e.cache.Image())
    ensures !e.fs.wip && e.fs.fptr == RAM_SIZE && Writing(e.fs, snap, Written(c, 0, e.cache.Image()), before)
  {
    hide Written, FatFs.Usable, Cache.SetOk, Cache.LineOk, Cache.Image, Writing;
    ghost var image := e.cache.Image();
    var addr := 0;
    for i := 0 to RAM_BLOCKS
      invariant e.Valid() && e.cache.Image() == image && e.cache.ram.Bytes() == image && addr == i * SECTOR
      invariant !e.fs.wip && e.fs.fptr == addr <= RAM_SIZE && Writing(e.fs, snap, Written(c, 0, image[..addr]), before)
    {
      SaveChunk(e, snap, addr, c, before);
      addr := addr + SECTOR;
    }
    assert image[..addr] == image;
  }

  /** One block of RAM to the file. */
  method SaveChunk(e: Emulator, snap: FileRef, addr: nat, ghost c: seq<Byte>, ghost before: Sectors)
    requires e.Valid() && e.cache.ram.Bytes() == e.cache.Image() && |c| == snap.size >= RAM_SIZE
    requires addr % SECTOR == 0 && addr + SECTOR <= RAM_SIZE
    requires !e.fs.wip && e.fs.fptr == addr && Writing(e.fs, snap, Written(c, 0, e.cache.Image()[..addr]), before)
    modifies e.blkBuf, e.cache.ram.Repr(), e.fs, e.fs.disk
    ensures e.Valid() && e.cache.ram.Bytes() == e.cache.Image() == old(e.cache.Image())
    ensures !e.fs.wip && e.fs.fptr == addr + SECTOR
    ensures Writing(e.fs, snap, Written(c, 0, e.cache.Image()[..addr + SECTOR]), before)
  {
    hide Written, FatFs.Usable, Cache.SetOk, Cache.LineOk, Cache.Image, Writing;
    ghost var image := e.cache.Image();
    var b := e.cache.ReadRam(addr, SECTOR);
    e.FillBuffer(b);
    assert image[..addr] + image[addr..addr + SECTOR] == image[..addr + SECTOR];
    assert e.blkBuf[..] == image[addr..addr + SECTOR];
    var rc := Append(e.fs, snap, e.blkBuf[..], c, image[..addr], before);
  }

  lemma PositionHeld(e: Emulator, c: seq<Byte>)
    requires e.Holds(c)
    ensures e.fs.fptr <= |c|
  {
  }

  /** psram_load_file: RAM from addr on gets the rest of the open file, at most a RAM's worth. */
  method LoadFile(e: Emulator, addr: nat, ghost c: seq<Byte>) returns (r: FResult)
    requires e.Valid() && e.cache.recent == map[] && addr % SECTOR == 0
    requires e.Holds(c) && addr + Min(RAM_SIZE, |c| - e.fs.fptr) <= RAM_SIZE
    modifies e.blkBuf, e.cache.ram.Repr(), e.fs
    ensures e.Valid() && e.cache.recent == map[] && r == FrOk && e.Holds(c) && e.fs.orgClust == old(e.fs.orgClust)
    ensures e.fs.fptr == old(e.fs.fptr) + Min(RAM_SIZE, |c| - old(e.fs.fptr)) <= |c|
    ensures e.cache.Image() == e.cache.ram.Bytes()
         == Splice(old(e.cache.ram.Bytes()), addr, c[old(e.fs.fptr)..e.fs.fptr])
  {
    hide Cache.SetOk, Cache.LineOk, Cache.Image, Splice, FatFs.Usable, FatFs.Sound, FatFs.FileIs, Emulator.Holds;
    hide Memory.Bytes, Emulator.Separate;
    ghost var f, ram := e.fs.fptr, e.cache.ram.Bytes();
    var at := addr;
    var i := 0;
    PositionHeld(e, c);
    SpliceNothing(ram, addr);
    e.cache.EmptySeen();
    while i < RAM_BLOCKS
      invariant e.Valid() && e.cache.recent == map[] && e.Holds(c) && i <= RAM_BLOCKS
      invariant e.fs.orgClust == old(e.fs.orgClust) && f <= e.fs.fptr <= |c|
      invariant e.fs.fptr - f == Min(i * SECTOR, |c| - f) && at == addr + (e.fs.fptr - f)
      invariant e.cache.Image() == e.cache.ram.Bytes() == Splice(ram, addr, c[f..e.fs.fptr])
    {
      var n;
      r, n := LoadChunk(e, at, c);
      if r != FrOk {
        return;
      }
      if n == 0 {
        break;
      }
      SpliceFrom(ram, addr, c, f, e.fs.fptr - n - f, n);
      at, i := at + n, i + 1;
    }
    r := FrOk;
  }

  /** Up to one block of the file to RAM. */
  method LoadChunk(e: Emulator, at: nat, ghost c: seq<Byte>) returns (r: FResult, n: nat)
    requires e.Valid() && e.cache.recent == map[] && e.Holds(c) && e.fs.fptr <= |c|
    requires (e.fs.fptr < |c| ==> at % SECTOR == 0) && at + Min(SECTOR, |c| - e.fs.fptr) <= RAM_SIZE
    requires e.cache.Image() == e.cache.ram.Bytes()
    modifies e.blkBuf, e.cache.ram.Repr(), e.fs
    ensures e.Valid() && e.cache.recent == map[] && r == FrOk && e.Holds(c) && e.fs.orgClust == old(e.fs.orgClust)
    ensures n == Min(SECTOR, |c| - old(e.fs.fptr)) && e.fs.fptr == old(e.fs.fptr) + n
    ensures e.cache.Image() == e.cache.ram.Bytes() == Splice(old(e.cache.ram.Bytes()), at, c[old(e.fs.fptr)..e.fs.fptr])
  {
    hide Cache.SetOk, Cache.LineOk, Cache.Image, Splice, FatFs.Usable, FatFs.Sound, Memory.Bytes;
    var data;
    r, data := e.fs.Read(SECTOR);
    n := |data|;
    SpliceNothing(e.cache.ram.Bytes(), at);
    if n > 0 {
      e.FillBuffer(data);
      assert e.blkBuf[..n] == data;
      e.cache.WriteRam(at, e.blkBuf[..n]);
    }
  }

  /** The restore of start_vm: RAM and processor state from the snapshot file. */
  method RestoreSnapshot(e: Emulator, snap: FileRef) returns (r: FResult)
    requires e.Valid() && CanOpen(e.fs, snap) && snap.size >= RAM_SIZE + CORE_BYTES
    modifies e.Repr()
    ensures r == FrOk && e.Valid() && CanOpen(e.fs, snap) && Bytes(e.fs, snap) == old(Bytes(e.fs, snap))
    ensures e.cache.Image() == Bytes(e.fs, snap)[..RAM_SIZE]
    ensures e.core == Restore(Bytes(e.fs, snap)[RAM_SIZE..RAM_SIZE + CORE_BYTES])
  {
    hide Cache.SetOk, Cache.LineOk, Cache.Image, Splice, FatFs.Usable, FatFs.Sound, Memory.Bytes, Emulator.Holds,
      CanOpen, Bytes;
    ghost var c := Bytes(e.fs, snap);
    e.cache.Reset();
    OpenForReading(e, snap, c);
    e.cache.EmptySeen();
    r := LoadFile(e, 0, c);
    SpliceAll(e.cache.ram.Bytes(), c[..RAM_SIZE]);
    r := ReadCore(e, snap, c);
  }

  lemma SpliceAll(s: seq<Byte>, b: seq<Byte>)
    requires |s| == |b|
    ensures Splice(s, 0, b) == b
  {
  }

  method OpenForReading(e: Emulator, f: FileRef, ghost c: seq<Byte>)
    requires e.Valid() && CanOpen(e.fs, f) && c == Bytes(e.fs, f)
    modifies e.fs
    ensures e.Valid() && e.Holds(c) && e.fs.fptr == 0 && |c| == f.size && e.fs.orgClust == f.start
  {
    hide GoodVolume, GoodChain, Contents;
    Open(e.fs, f);
  }

  /** The struct behind the RAM image. */
  method ReadCore(e: Emulator, f: FileRef, ghost c: seq<Byte>) returns (r: FResult)
    requires e.Valid() && e.Holds(c) && e.fs.fptr + CORE_BYTES <= |c| == f.size && e.fs.orgClust == f.start
    modifies e.fs, e`core
    ensures r == FrOk && e.Valid() && e.core == Restore(c[old(e.fs.fptr)..old(e.fs.fptr) + CORE_BYTES])
    ensures CanOpen(e.fs, f) && Bytes(e.fs, f) == c
  {
    hide GoodVolume, GoodChain, Contents, Restore;
    var data;
    r, data := e.fs.Read(CORE_BYTES);
    assert data == c[old(e.fs.fptr)..old(e.fs.fptr) + CORE_BYTES];
    e.core := Restore(data);
  }

  /** The two files of hibernation: both can be opened, they share no cluster and are large enough. */
  ghost predicate FilesReady(fs: FatFs, stat: FileRef, snap: FileRef)
    reads fs, fs.disk
  {
    && CanOpen(fs, stat) && CanOpen(fs, snap) && stat.size > 0 && snap.size >= RAM_SIZE + CORE_BYTES
    && Disjoint(fs.vol, fs.disk.sectors, stat.start, stat.size, snap.start, snap.size)
  }

  /** Before power goes: the power state is set and the snapshot written; each leaves the other file alone. */
  method Hibernate(e: Emulator, stat: FileRef, snap: FileRef)
    requires e.Valid() && FilesReady(e.fs, stat, snap)
    modifies e.Repr()
    ensures e.Valid() && CanOpen(e.fs, stat) && CanOpen(e.fs, snap)
    ensures Bytes(e.fs, stat)[0] == 1
    ensures Bytes(e.fs, snap)[..RAM_SIZE + CORE_BYTES] == SnapshotOf(old(e.cache.Image()), old(e.core))
  {
    hide Written, FatFs.Usable, Cache.SetOk, Cache.LineOk, Cache.Image, GoodVolume, GoodChain, Contents, OnlyFile,
      Disjoint, Save;
    ghost var d := e.fs.disk.sectors;
    CanOpenSize(e.fs, stat);
    var r := SavePowerState(e.fs, stat, EMU_HIBERNATE);
    ghost var d1 := e.fs.disk.sectors;
    CanOpenSize(e.fs, stat);
    OtherFileKept(e.fs.vol, d, d1, stat.start, stat.size, snap.start, snap.size);
    DisjointKept(e.fs.vol, d, d1, stat.start, stat.size, snap.start, snap.size);
    r := SaveSnapshot(e, snap);
    CanOpenSize(e.fs, snap);
    OtherFileKept(e.fs.vol, d1, e.fs.disk.sectors, snap.start, snap.size, stat.start, stat.size);
  }

  /** Power comes back: what the new machine finds is RAM and processor state as they were. */
  method PowerCycle(e: Emulator, stat: FileRef, snap: FileRef) returns (e2: Emulator, state: Byte)
    requires e.Valid() && FilesReady(e.fs, stat, snap)
    modifies e.Repr()
    ensures e2.Valid() && state == 1
    ensures e2.cache.Image() == old(e.cache.Image()) && e2.core == old(e.core)
  {
    hide FatFs.Usable, Cache.SetOk, Cache.LineOk, Cache.Image, GoodVolume, GoodChain, Contents, Disjoint, Save, Restore;
    ghost var image, core := e.cache.Image(), e.core;
    Hibernate(e, stat, snap);
    CanOpenSize(e.fs, snap);
    e2 := new Emulator(e.fs.disk, e.fs.vol);
    state := GetPowerState(e2.fs, stat);
    if state == EMU_HIBERNATE {
      var r := RestoreSnapshot(e2, snap);
      ghost var b := Bytes(e2.fs, snap);
      assert b[..RAM_SIZE] == image && b[RAM_SIZE..RAM_SIZE + CORE_BYTES] == Save(core) by {
        assert b[..RAM_SIZE] == b[..RAM_SIZE + CORE_BYTES][..RAM_SIZE];
        assert b[RAM_SIZE..RAM_SIZE + CORE_BYTES] == b[..RAM_SIZE + CORE_BYTES][RAM_SIZE..];
      }
      RestoreSave(core);
    }
  }
}
