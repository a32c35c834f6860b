/** The emulator's block device, and hibernation: guest RAM behind the cache against files on the FAT volume. */
module Emulator {
  import opened Words
  import opened Wrappers
  import opened Psram
  import opened Cache
  import opened PetitFat
  import opened PetitFs
  import opened RvCore

  const RAM_IMAGE_OFFSET := 0x8000_0000

  const EMU_HIBERNATE: Byte := 1
  const EMU_RUNNING: Byte := 4
  const EMU_UNKNOWN: Byte := 5

  const WORDS_PER_BLOCK := SECTOR / 4
  const RAM_BLOCKS := RAM_SIZE / SECTOR

  /** Where a file's directory entry says that it is. */
  datatype FileRef = FileRef(start: nat, size: nat)

  lemma WordInLine(addr: nat)
    requires addr % 4 == 0 && addr < RAM_SIZE
    ensures InOneLine(addr, 4)
  {
  }

  lemma {:induction false} NextWord(s: seq<Byte>, p: nat, n: nat)
    requires p + n + 4 <= |s|
    ensures s[p..p + n] + s[p + n..p + n + 4] == s[p..p + n + 4]
  {
  }

  lemma {:induction false} SpliceOn(s: seq<Byte>, p: nat, b: seq<Byte>, n: nat)
    requires n + 4 <= |b| && p + |b| <= |s|
    ensures Splice(Splice(s, p, b[..n]), p + n, b[n..n + 4]) == Splice(s, p, b[..n + 4])
  {
    assert b[..n + 4] == b[..n] + b[n..n + 4];
  }

  /** Writing a piece of src behind a piece of src. */
  lemma {:induction false} SpliceFrom(s: seq<Byte>, at: nat, src: seq<Byte>, from: nat, m: nat, n: nat)
    requires from + m + n <= |src| && at + m + n <= |s|
    ensures Splice(Splice(s, at, src[from..from + m]), at + m, src[from + m..from + m + n])
         == Splice(s, at, src[from..from + m + n])
  {
    assert src[from..from + m + n] == src[from..from + m] + src[from + m..from + m + n];
  }

  lemma {:induction false} SpliceNothing(s: seq<Byte>, p: nat)
    requires p <= |s|
    ensures Splice(s, p, []) == s
  {
  }

  /** The transfer buffer after a read of up to 512 bytes. */
  function Overlay(data: seq<Byte>, buf: seq<Byte>): (r: seq<Byte>)
    requires |data| <= |buf|
    ensures |r| == |buf|
  {
    data + buf[|data|..]
  }

  class Emulator {
    const cache: Cache
    const fs: FatFs
    const blkBuf: array<Byte>
    var blkTransferSize: nat
    var blkOffs: nat
    var blkRamPtr: nat
    var blkErr: FResult
    var hibernateRequest: bool
    var core: Core

    constructor (disk: Disk, vol: Volume)
      requires GoodVolume(vol, disk.sectors) && disk.target == None
      ensures Valid() && fs.disk == disk && fs.vol == vol && !fs.isOpen && fresh(Repr() - {disk})
      ensures blkTransferSize == blkOffs == blkRamPtr == 0 && blkErr == FrOk && !hibernateRequest && core == Blank()
    {
      var zero: Byte := 0;
      cache := new Cache();
      fs := new FatFs(disk, vol);
      blkBuf := new Byte[SECTOR](_ => zero);
      blkTransferSize, blkOffs, blkRamPtr, blkErr, hibernateRequest, core := 0, 0, 0, FrOk, false, Blank();
    }

    ghost function Repr(): set<object> {
      {this, blkBuf, fs, fs.disk} + cache.Repr()
    }

    ghost predicate Separate() {
      && blkBuf.Length == SECTOR && blkBuf !in cache.Repr() && this !in cache.Repr()
      && (fs as object) !in cache.Repr() && (fs.disk as object) !in cache.Repr()
    }

    ghost predicate Valid()
      reads Repr()
    {
      Separate() && cache.Valid() && fs.Usable()
    }

    /** One word copied from RAM. */
    method LoadWord(at: nat)
      requires Valid() && blkRamPtr % 4 == 0 && blkRamPtr + 4 <= RAM_SIZE && at + 4 <= SECTOR
      modifies this`blkRamPtr, blkBuf, cache.Repr()
      ensures Valid() && cache.Image() == old(cache.Image()) && blkRamPtr == old(blkRamPtr) + 4
      ensures blkBuf[..at + 4] == old(blkBuf[..at]) + cache.Image()[old(blkRamPtr)..blkRamPtr]
    {
      hide Cache.Image, Cache.Valid, FatFs.Usable;
      WordInLine(blkRamPtr);
      var w := cache.Read(blkRamPtr, 4);
      forall k | 0 <= k < 4 {
        blkBuf[at + k] := w[k];
      }
      blkRamPtr := blkRamPtr + 4;
    }

    /** The block copied from RAM. */
    method LoadBlock()
      requires Valid() && blkRamPtr % 4 == 0 && blkRamPtr + SECTOR <= RAM_SIZE
      modifies this`blkRamPtr, blkBuf, cache.Repr()
      ensures Valid() && cache.Image() == old(cache.Image()) && blkRamPtr == old(blkRamPtr) + SECTOR
      ensures blkBuf[..] == cache.Image()[old(blkRamPtr)..blkRamPtr]
    {
      hide Cache.Image, FatFs.Usable;
      ghost var p := blkRamPtr;
      for i := 0 to WORDS_PER_BLOCK
        invariant Valid() && cache.Image() == old(cache.Image()) && blkRamPtr == p + 4 * i
        invariant blkBuf[..4 * i] == cache.Image()[p..p + 4 * i]
      {
        LoadWord(4 * i);
        NextWord(cache.Image(), p, 4 * i);
      }
    }

    /** The block copied to RAM. */
    method StoreBlock()
      requires Valid() && blkRamPtr % 4 == 0 && blkRamPtr + SECTOR <= RAM_SIZE
      modifies this`blkRamPtr, cache.Repr()
      ensures Valid() && blkRamPtr == old(blkRamPtr) + SECTOR
      ensures cache.Image() == Splice(old(cache.Image()), old(blkRamPtr), blkBuf[..])
    {
      hide Cache.Image, FatFs.Usable, Splice;
      ghost var p, b := blkRamPtr, blkBuf[..];
      SpliceNothing(cache.Image(), p);
      for i := 0 to WORDS_PER_BLOCK
        invariant Valid() && blkRamPtr == p + 4 * i && blkBuf[..] == b
        invariant cache.Image() == Splice(old(cache.Image()), p, b[..4 * i])
      {
        WordInLine(blkRamPtr);
        cache.Write(blkRamPtr, blkBuf[4 * i..4 * i + 4]);
        SpliceOn(old(cache.Image()), p, b, 4 * i);
        blkRamPtr := blkRamPtr + 4;
      }
    }
  
    /** The open file holds c, at the start of a sector that n blocks follow. */
    ghost predicate Ready(c: seq<Byte>, n: nat)
      reads fs, fs.disk
    {
      fs.Sound() && fs.FileIs(c) && !fs.wip && fs.fptr % SECTOR == 0 && fs.fptr + n * SECTOR <= fs.fsize == |c|
    }

    /** Of what was on the disk before, only sectors of the open file changed. */
    ghost predicate Only(before: Sectors)
      reads fs, fs.disk
    {
      GoodVolume(fs.vol, before) && OnlyFile(fs.vol, before, fs.disk.sectors, fs.orgClust, fs.fsize)
    }

    /** One block from RAM to the file. */
    method WriteBlock(ghost c: seq<Byte>, ghost n: nat, ghost before: Sectors)
      requires Valid() && blkRamPtr % 4 == 0 && blkRamPtr + SECTOR <= RAM_SIZE && n > 0
      modifies this`blkRamPtr, this`blkErr, blkBuf, cache.Repr(), fs, fs.disk
      ensures Valid() && cache.Image() == old(cache.Image()) && blkRamPtr == old(blkRamPtr) + SECTOR
      ensures fs.orgClust == old(fs.orgClust) && fs.fsize == old(fs.fsize)
      ensures old(Ready(c, n)) ==>
        && blkErr == FrOk && fs.fptr == old(fs.fptr) + SECTOR
        && Ready(Splice(c, old(fs.fptr), cache.Image()[old(blkRamPtr)..blkRamPtr]), n - 1)
      ensures old(Ready(c, n) && Only(before)) ==> Only(before)
    {
      hide Cache.Valid, Cache.Image, Splice, Written, FatFs.Sound, FatFs.Usable, FatFs.RoundsOk, FatFs.WriteStart,
        FatFs.FileIs, OnlyFile;
      LoadBlock();
      ghost var at, d, ready := fs.fptr, fs.disk.sectors, Ready(c, n);
      if ready { AtSector(c, n); }
      var x;
      blkErr, x := fs.Write(blkBuf[..], c);
      if ready {
        assert x == SECTOR && blkBuf[..][..x] == blkBuf[..];
        WrittenWhole(c, at, blkBuf[..]);
        if GoodVolume(fs.vol, before) && OnlyFile(fs.vol, before, d, fs.orgClust, fs.fsize) {
          OnlyFileTwice(fs.vol, before, d, fs.disk.sectors, fs.orgClust, fs.fsize);
        }
      }
    }

    lemma AtSector(c: seq<Byte>, n: nat)
      requires Ready(c, n) && n > 0
      ensures GoodVolume(fs.vol, fs.disk.sectors) && fs.RoundsOk() && fs.WriteStart() == fs.fptr
    {
      CsizePositive(fs.vol, fs.disk.sectors);
    }

    /** pf_read of one block. */
    method ReadToBuffer(ghost c: seq<Byte>, ghost n: nat)
      requires Valid() && n > 0
      modifies this`blkErr, blkBuf, fs
      ensures Valid() && fs.orgClust == old(fs.orgClust) && fs.fsize == old(fs.fsize)
      ensures old(Ready(c, n)) ==>
        && blkErr == FrOk && fs.fptr == old(fs.fptr) + SECTOR && Ready(c, n - 1)
        && blkBuf[..] == c[old(fs.fptr)..fs.fptr]
    {
      hide Cache.Valid, FatFs.Sound, FatFs.Usable, GoodVolume, GoodChain, Contents;
      var data;
      blkErr, data := fs.Read(SECTOR);
      FillBuffer(data);
    }

    /** One block from the file to RAM. */
    method ReadBlock(ghost c: seq<Byte>, ghost n: nat)
      requires Valid() && blkRamPtr % 4 == 0 && blkRamPtr + SECTOR <= RAM_SIZE && n > 0
      modifies this`blkRamPtr, this`blkErr, blkBuf, cache.Repr(), fs
      ensures Valid() && blkRamPtr == old(blkRamPtr) + SECTOR && fs.disk.sectors == old(fs.disk.sectors)
      ensures fs.orgClust == old(fs.orgClust) && fs.fsize == old(fs.fsize)
      ensures old(Ready(c, n)) ==>
        && blkErr == FrOk && fs.fptr == old(fs.fptr) + SECTOR && Ready(c, n - 1)
        && cache.Image() == Splice(old(cache.Image()), old(blkRamPtr), c[old(fs.fptr)..fs.fptr])
    {
      hide Cache.SetOk, Cache.LineOk, Cache.Image, Splice, FatFs.Usable, Ready;
      ReadToBuffer(c, n);
      StoreBlock();
    }

    /** The bytes that pf_read put at the start of the buffer. */
    method FillBuffer(data: seq<Byte>)
      requires Valid() && |data| <= SECTOR
      modifies blkBuf
      ensures Valid() && blkBuf[..] == Overlay(data, old(blkBuf[..]))
    {
      forall k | 0 <= k < |data| {
        blkBuf[k] := data[k];
      }
    }
  
    /** The transfer of CSR 0x154: all whole blocks of the transfer size, to the file or from it. */
    method Transfer(value: Word, ghost c: seq<Byte>)
      requires Valid() && blkRamPtr % 4 == 0 && blkRamPtr + blkTransferSize / SECTOR * SECTOR <= RAM_SIZE
      modifies this`blkRamPtr, this`blkErr, blkBuf, cache.Repr(), fs, fs.disk
      ensures Valid() && blkRamPtr == old(blkRamPtr) + blkTransferSize / SECTOR * SECTOR
      ensures fs.orgClust == old(fs.orgClust) && fs.fsize == old(fs.fsize)
      ensures blkTransferSize < SECTOR ==> blkErr == old(blkErr)
      ensures old(Ready(c, blkTransferSize / SECTOR)) ==>
        Moved(value, c, old(fs.fptr), old(cache.Image()), old(blkRamPtr), blkTransferSize / SECTOR * SECTOR, 0,
              old(fs.disk.sectors))
    {
      hide Valid, Cache.Image, Splice, Ready, Only;
      ValidIs();
      var nblocks: nat := blkTransferSize / SECTOR;
      ghost var p, f, total, before, ram := blkRamPtr, fs.fptr, nblocks, fs.disk.sectors, cache.Image();
      ghost var ready := Ready(c, total);
      ghost var m: nat := 0;
      if ready { StartOfTransfer(value, c, total); }
      while nblocks > 0
        invariant Valid() && cache.Valid() && m == (total - nblocks) * SECTOR && blkRamPtr == p + m
        invariant fs.orgClust == old(fs.orgClust) && fs.fsize == old(fs.fsize)
        invariant m == 0 ==> blkErr == old(blkErr)
        invariant ready ==> Moved(value, c, f, ram, p, m, nblocks, before)
      {
        TransferBlock(value, c, f, ram, p, m, nblocks, before);
        nblocks, m := nblocks - 1, m + SECTOR;
        ValidIs();
      }
    }

    /** m bytes of a transfer are done and n blocks are left: the file at f held c, and RAM at p held ram. */
    ghost predicate Moved(value: Word, c: seq<Byte>, f: nat, ram: seq<Byte>, p: nat, m: nat, n: nat, before: Sectors)
      requires cache.Shape()
      reads this, fs, fs.disk, cache.lines, cache.ram.low.mem, cache.ram.high.mem
    {
      && f + m <= |c| && p + m <= |ram| == RAM_SIZE && fs.fptr == f + m && (m > 0 ==> blkErr == FrOk)
      && (value != 0 ==> cache.Image() == ram && Ready(Splice(c, f, ram[p..p + m]), n) && Only(before))
      && (value == 0 ==> cache.Image() == Splice(ram, p, c[f..f + m]) && Ready(c, n) && fs.disk.sectors == before)
    }

    /** One turn of a transfer. */
    method TransferBlock(value: Word, ghost c: seq<Byte>, ghost f: nat, ghost ram: seq<Byte>, ghost p: nat,
                         ghost m: nat, ghost n: nat, ghost before: Sectors)
      requires Valid() && blkRamPtr % 4 == 0 && blkRamPtr + SECTOR <= RAM_SIZE && n > 0 && blkRamPtr == p + m
      modifies this`blkRamPtr, this`blkErr, blkBuf, cache.Repr(), fs, fs.disk
      ensures Valid() && blkRamPtr == old(blkRamPtr) + SECTOR
      ensures fs.orgClust == old(fs.orgClust) && fs.fsize == old(fs.fsize)
      ensures old(Moved(value, c, f, ram, p, m, n, before)) ==> Moved(value, c, f, ram, p, m + SECTOR, n - 1, before)
    {
      hide Valid, Cache.Image, Splice, Only, FatFs.Sound, FatFs.FileIs;
      ValidIs();
      ghost var moved := Moved(value, c, f, ram, p, m, n, before);
      if value != 0 {
        ghost var now := if moved then Splice(c, f, ram[p..p + m]) else c;
        WriteBlock(now, n, before);
        if moved { SpliceFrom(c, f, ram, p, m, SECTOR); }
      } else {
        ReadBlock(c, n);
        if moved { SpliceFrom(ram, p, c, f, m, SECTOR); }
      }
    }

    lemma ValidIs()
      requires Valid()
      ensures Separate() && cache.Valid()
    {
    }

    lemma StartOfTransfer(value: Word, c: seq<Byte>, n: nat)
      requires Valid() && Ready(c, n) && blkRamPtr <= RAM_SIZE
      ensures Moved(value, c, fs.fptr, cache.Image(), blkRamPtr, 0, n, fs.disk.sectors)
    {
      hide Cache.Image, GoodVolume, FatFs.FileIs, OfFile;
      SpliceNothing(cache.Image(), blkRamPtr);
      SpliceNothing(c, fs.fptr);
    }
  
    /** The transfer of CSR 0x154 can run: its RAM range is word-aligned and inside the RAM. */
    predicate RangeOk(ptr: nat, size: nat) {
      ptr % 4 == 0 && ptr + size / SECTOR * SECTOR <= RAM_SIZE
    }

    /** HandleOtherCSRWrite, for the block device and the hibernation request. */
    method CsrWrite(csrno: nat, value: Word, ghost c: seq<Byte>)
      requires Valid() && (csrno == 0x154 ==> RangeOk(blkRamPtr, blkTransferSize))
      modifies this, blkBuf, cache.Repr(), fs, fs.disk
      ensures Valid() && core == old(core) && fs.orgClust == old(fs.orgClust) && fs.fsize == old(fs.fsize)
      ensures blkOffs == if csrno == 0x152 then value else old(blkOffs)
      ensures blkTransferSize == if csrno == 0x153 then value else old(blkTransferSize)
      ensures hibernateRequest <==> old(hibernateRequest) || csrno == 0x170
      ensures csrno == 0x151 ==> blkRamPtr == U(value - 0x8000_0000)
      ensures csrno != 0x151 && csrno != 0x154 ==> blkRamPtr == old(blkRamPtr)
      ensures csrno != 0x154 ==> cache.Image() == old(cache.Image()) && fs.disk.sectors == old(fs.disk.sectors)
      ensures csrno != 0x152 && csrno != 0x154 ==>
        fs.fptr == old(fs.fptr) && fs.wip == old(fs.wip)
        && (old(fs.Sound() && fs.FileIs(c)) ==> fs.Sound() && fs.FileIs(c))
      ensures csrno == 0x152 && old(fs.Sound() && fs.FileIs(c) && !fs.wip) ==>
        blkErr == FrOk && fs.Sound() && fs.FileIs(c) && !fs.wip && fs.fptr == Min(value, fs.fsize)
      ensures csrno == 0x154 && blkTransferSize < SECTOR ==> blkErr == old(blkErr)
      ensures csrno != 0x152 && csrno != 0x154 ==> blkErr == old(blkErr)
      ensures csrno == 0x154 && old(Ready(c, blkTransferSize / SECTOR)) ==>
        Moved(value, c, old(fs.fptr), old(cache.Image()), old(blkRamPtr), blkTransferSize / SECTOR * SECTOR, 0,
              old(fs.disk.sectors))
    {
      hide Cache.Valid, Cache.Image, FatFs.Sound, FatFs.Usable, Ready, Moved;
      match csrno {
        case 0x151 => blkRamPtr := U(value - RAM_IMAGE_OFFSET);
        case 0x152 =>
          blkOffs := value;
          blkErr := fs.Lseek(blkOffs);
        case 0x153 => blkTransferSize := value;
        case 0x154 => Transfer(value, c);
        case 0x170 => hibernateRequest := true;
        case _ =>
      }
    }
  
    /** The open file holds c and no sector write is going on. */
    ghost predicate Holds(c: seq<Byte>)
      reads fs, fs.disk
    {
      fs.Sound() && fs.FileIs(c) && !fs.wip && |c| == fs.fsize
    }

    /** A guest's request: address, offset, size and direction, one CSR write each. Writing (value not 0) changes
        exactly the file's bytes from ofs on, to what RAM holds from the address on; reading is the other way. */
    method BlockRequest(addr: Word, ofs: Word, size: Word, value: Word, ghost c: seq<Byte>)
      requires Valid() && Holds(c) && RangeOk(U(addr - 0x8000_0000), size)
      requires ofs % SECTOR == 0 && ofs + size / SECTOR * SECTOR <= |c|
      modifies this, blkBuf, cache.Repr(), fs, fs.disk
      ensures Valid() && core == old(core) && fs.orgClust == old(fs.orgClust) && fs.fsize == old(fs.fsize)
      ensures blkErr == FrOk
      ensures var p, len := U(addr - 0x8000_0000), size / SECTOR * SECTOR;
        && (value != 0 ==>
             Holds(Splice(c, ofs, old(cache.Image())[p..p + len])) && cache.Image() == old(cache.Image())
             && Only(old(fs.disk.sectors)))
        && (value == 0 ==>
             Holds(c) && cache.Image() == Splice(old(cache.Image()), p, c[ofs..ofs + len])
             && fs.disk.sectors == old(fs.disk.sectors))
    {
      hide Cache.Valid, Cache.Image, FatFs.Sound, FatFs.FileIs, FatFs.Usable, Splice, Only;
      CsrWrite(0x151, addr, c);
      CsrWrite(0x152, ofs, c);
      CsrWrite(0x153, size, c);
      CsrWrite(0x154, value, c);
    }

    /** What was written from RAM at one address is what is read back to another. */
    method WriteThenRead(source: Word, target: Word, ofs: Word, size: Word, ghost c: seq<Byte>)
      requires Valid() && Holds(c)
      requires RangeOk(U(source - 0x8000_0000), size) && RangeOk(U(target - 0x8000_0000), size)
      requires ofs % SECTOR == 0 && ofs + size / SECTOR * SECTOR <= |c|
      modifies this, blkBuf, cache.Repr(), fs, fs.disk
      ensures Valid()
      ensures var p, q, len := U(source - 0x8000_0000), U(target - 0x8000_0000), size / SECTOR * SECTOR;
        && cache.Image() == Splice(old(cache.Image()), q, old(cache.Image())[p..p + len])
        && Holds(Splice(c, ofs, old(cache.Image())[p..p + len]))
    {
      hide Valid, Cache.Image, Holds, Only;
      ValidIs();
      ghost var p, len := U(source - RAM_IMAGE_OFFSET), size / SECTOR * SECTOR;
      ghost var data := cache.Image()[p..p + len];
      BlockRequest(source, ofs, size, 1, c);
      assert Splice(c, ofs, data)[ofs..ofs + len] == data;
      BlockRequest(target, ofs, size, 0, Splice(c, ofs, data));
      ValidIs();
    }
  }
}
