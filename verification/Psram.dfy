/** Bytes, and the PSRAM chips behind the emulated RAM: the byte-level chip protocol and `psram_access`. */
module Psram {
  type Byte = x: int | 0 <= x < 256

  const CHIP_SIZE := 8 * 1024 * 1024
  const RAM_SIZE := 2 * CHIP_SIZE

  const CMD_WRITE: Byte := 0x02
  const CMD_READ_FAST: Byte := 0x0B
  const CMD_READ_ID: Byte := 0x9F
  const KGD: Byte := 0x5D

  function Address24(hi: int, mid: int, lo: int): int {
    hi * 65536 + mid * 256 + lo
  }

  /** The address bytes that follow a command, highest first. */
  function AddressBytes(a: nat): (b: seq<Byte>)
    ensures |b| == 3
  {
    [a / 65536 % 256, a / 256 % 256, a % 256]
  }

  lemma AddressOfBytes(a: nat)
    requires a < 0x100_0000
    ensures Address24(AddressBytes(a)[0], AddressBytes(a)[1], AddressBytes(a)[2]) == a
  {
    var q := a / 256;
    assert a == q * 256 + a % 256 && q == q / 256 * 256 + q % 256;
    assert a / 65536 == q / 256 && a / 65536 % 256 == a / 65536;
  }

  /** A command with its address, and what follows them. */
  function Message(command: Byte, a: nat, more: seq<Byte>): (b: seq<Byte>)
    requires a < 0x100_0000
    ensures |b| == 4 + |more| && b[0] == command && (b[1] as int * 256 + b[2] as int) * 256 + b[3] as int == a
  {
    AddressOfBytes(a);
    [command] + AddressBytes(a) + more
  }

  /** s with the bytes from `at` on replaced by b. */
  function Splice(s: seq<Byte>, at: nat, b: seq<Byte>): (r: seq<Byte>)
    requires at + |b| <= |s|
    ensures |r| == |s|
    ensures forall i :: 0 <= i < |s| ==> r[i] == if at <= i < at + |b| then b[i - at] else s[i]
  {
    s[..at] + b + s[at + |b|..]
  }

  lemma SpliceParts(s: seq<Byte>, t: seq<Byte>, at: nat, b: seq<Byte>)
    requires at + |b| <= |s| + |t|
    ensures at + |b| <= |s| ==> Splice(s, at, b) + t == Splice(s + t, at, b)
    ensures |s| <= at ==> s + Splice(t, at - |s|, b) == Splice(s + t, at, b)
  {
  }

  lemma SliceIs(b: seq<Byte>, s: seq<Byte>, at: nat)
    requires at + |b| <= |s| && forall i :: 0 <= i < |b| ==> b[i] == s[at + i]
    ensures b == s[at..at + |b|]
  {
  }

  lemma SliceParts(s: seq<Byte>, t: seq<Byte>, at: nat, n: nat)
    requires at + n <= |s| + |t|
    ensures at + n <= |s| ==> s[at..at + n] == (s + t)[at..at + n]
    ensures |s| <= at ==> t[at - |s|..at - |s| + n] == (s + t)[at..at + n]
  {
  }

  /** One chip on the bus: the first write after a select is command and 24-bit address, what follows is data. */
  class Chip {
    const mem: array<Byte>
    var curCmd: Byte
    var curAddr: int
    var haveCmd: bool

    constructor ()
      ensures fresh(mem) && mem.Length == CHIP_SIZE && !haveCmd
    {
      var zero: Byte := 0;
      mem := new Byte[CHIP_SIZE](_ => zero);
      curCmd, curAddr, haveCmd := 0, 0, false;
    }

    method Select()
      modifies this`haveCmd
      ensures !haveCmd
    {
      haveCmd := false;
    }

    method Deselect()
      modifies this`haveCmd
      ensures !haveCmd
    {
      haveCmd := false;
    }

    method SpiWrite(b: seq<Byte>)
      requires |b| > 0 && mem.Length == CHIP_SIZE
      requires haveCmd ==> 0 <= curAddr && curAddr % CHIP_SIZE + |b| <= CHIP_SIZE
      modifies this, mem
      ensures haveCmd
      ensures !old(haveCmd) ==> curCmd == b[0] && mem[..] == old(mem[..])
                                && curAddr == if |b| >= 4 then (b[1] as int * 256 + b[2] as int) * 256 + b[3] as int
                                              else old(curAddr)
      ensures old(haveCmd) ==> mem[..] == Splice(old(mem[..]), old(curAddr) % CHIP_SIZE, b)
                               && curAddr == old(curAddr) + |b| && curCmd == old(curCmd)
    {
      if !haveCmd {
        curCmd := b[0];
        if |b| >= 4 {
          curAddr := Address24(b[1], b[2], b[3]);
        }
        haveCmd := true;
        return;
      }
      var at := curAddr % CHIP_SIZE;
      forall i | 0 <= i < |b| {
        mem[at + i] := b[i];
      }
      assert mem[..] == Splice(old(mem[..]), at, b);
      curAddr := curAddr + |b|;
    }

    method SpiRead(n: nat) returns (b: seq<Byte>)
      requires mem.Length == CHIP_SIZE && curAddr % CHIP_SIZE + n <= CHIP_SIZE
      modifies this`curAddr
      ensures |b| == n
      ensures curCmd != 0x9F ==>
        && curAddr == old(curAddr) + n
        && forall i :: 0 <= i < n ==> b[i] == mem[old(curAddr) % CHIP_SIZE + i]
      ensures curCmd == 0x9F ==>
        curAddr == old(curAddr) && forall i :: 0 <= i < n ==> b[i] == if i == 1 then 0x5D else 0
    {
      if curCmd == CMD_READ_ID {
        var zero: Byte := 0;
        b := seq(n, i => if i == 1 then KGD else zero);
        return;
      }
      var at := curAddr % CHIP_SIZE;
      b := mem[at..at + n];
      curAddr := curAddr + n;
    }
  }

  /** Two chips that make up the RAM; the chip select comes from the full address. */
  class Memory {
    const low: Chip
    const high: Chip

    constructor ()
      ensures Valid() && fresh(Repr())
    {
      low := new Chip();
      high := new Chip();
    }

    ghost function Repr(): set<object> {
      {low, high, low.mem, high.mem}
    }

    ghost predicate Valid() {
      low != high && low.mem != high.mem && low.mem.Length == CHIP_SIZE && high.mem.Length == CHIP_SIZE
    }

    /** All bytes by full address. */
    ghost function Bytes(): (s: seq<Byte>)
      requires Valid()
      reads low.mem, high.mem
      ensures |s| == RAM_SIZE
    {
      low.mem[..] + high.mem[..]
    }

    function ChipAt(addr: nat): Chip {
      if addr < CHIP_SIZE then low else high
    }

    /** The range lies inside one chip. */
    static predicate InOneChip(addr: nat, size: nat) {
      addr + size <= CHIP_SIZE || (CHIP_SIZE <= addr && addr + size <= RAM_SIZE)
    }

    /** Command and address bytes for the selected chip, and a dummy byte before reading; sent counts them. */
    method Address(addr: nat, write: bool) returns (c: Chip, ghost sent: nat)
      requires Valid() && addr < RAM_SIZE
      modifies low, high, low.mem, high.mem
      ensures c == ChipAt(addr) && c.haveCmd && c.curAddr == if addr < CHIP_SIZE then addr else addr - CHIP_SIZE
      ensures c.curCmd == if write then 0x02 else 0x0B
      ensures sent == if write then 4 else 5
      ensures low.mem[..] == old(low.mem[..]) && high.mem[..] == old(high.mem[..])
    {
      hide Message;
      c := ChipAt(addr);
      var local := addr % CHIP_SIZE;
      var dummy: Byte := *;
      c.Select();
      var command := if write then CMD_WRITE else CMD_READ_FAST;
      var bytes := Message(command, local, if write then [] else [dummy]);
      c.SpiWrite(bytes);
      sent := |bytes|;
    }

    method Write(addr: nat, b: seq<Byte>)
      requires Valid() && |b| > 0 && InOneChip(addr, |b|)
      modifies low, high, low.mem, high.mem
      ensures Bytes() == Splice(old(Bytes()), addr, b)
    {
      hide Splice;
      ghost var l, h := low.mem[..], high.mem[..];
      var c, sent := Address(addr, true);
      ghost var at := c.curAddr;
      assert at % CHIP_SIZE == at;
      ghost var before := c.mem[..];
      c.SpiWrite(b);
      assert c.mem[..] == Splice(before, at, b);
      c.Deselect();
      SpliceParts(l, h, addr, b);
      if addr < CHIP_SIZE {
        assert before == l && high.mem[..] == h;
      } else {
        assert before == h && low.mem[..] == l;
      }
    }

    method Read(addr: nat, n: nat) returns (b: seq<Byte>)
      requires Valid() && n > 0 && InOneChip(addr, n)
      modifies low, high, low.mem, high.mem
      ensures Bytes() == old(Bytes()) && b == old(Bytes())[addr..addr + n]
    {
      ghost var l, h := low.mem[..], high.mem[..];
      var c, sent := Address(addr, false);
      ghost var at := c.curAddr;
      assert at % CHIP_SIZE == at;
      b := c.SpiRead(n);
      c.Deselect();
      SliceIs(b, if addr < CHIP_SIZE then l else h, at);
      SliceParts(l, h, addr, n);
    }
  }
}
