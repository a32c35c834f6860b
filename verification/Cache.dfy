/** The two-way write-back cache over PSRAM: to its user it is flat byte memory. */
module Cache {
  import opened Psram

  const LINE_SIZE := 16
  const SETS := 4096
  const LINES := RAM_SIZE / LINE_SIZE

  /** A cache line with its three status bits. */
  datatype Line = Line(tag: nat, data: seq<Byte>, valid: bool, dirty: bool, lru: bool) {
    predicate Holds(t: nat) {
      t == tag && valid
    }
  }

  function Offset(addr: nat): nat {
    addr % LINE_SIZE
  }

  function Index(addr: nat): nat {
    addr / LINE_SIZE % SETS
  }

  function Tag(addr: nat): nat {
    addr / LINE_SIZE / SETS
  }

  /** First address of the line with this tag in this set. */
  function LineBase(tag: nat, index: nat): nat {
    (tag * SETS + index) * LINE_SIZE
  }

  /** An address is its tag, index and offset. */
  lemma AddressParts(addr: nat)
    requires addr < RAM_SIZE
    ensures addr == LineBase(Tag(addr), Index(addr)) + Offset(addr)
    ensures LineBase(Tag(addr), Index(addr)) + LINE_SIZE <= RAM_SIZE
    ensures Index(addr) < SETS && Tag(addr) < LINES / SETS
  {
  }

  /** Addresses of a line share its tag and index, and no others do. */
  lemma InLine(addr: nat, tag: nat, index: nat)
    requires index < SETS
    ensures LineBase(tag, index) <= addr < LineBase(tag, index) + LINE_SIZE
       <==> Tag(addr) == tag && Index(addr) == index
  {
    if LineBase(tag, index) <= addr < LineBase(tag, index) + LINE_SIZE {
      assert addr / LINE_SIZE == tag * SETS + index;
    }
  }

  /** A line inside the RAM lies inside one chip. */
  lemma LineInOneChip(tag: nat, index: nat)
    requires tag < LINES / SETS && index < SETS
    ensures Memory.InOneChip(LineBase(tag, index), LINE_SIZE)
  {
  }

  /** An access the cache supports: inside the RAM and inside one line. */
  predicate InOneLine(addr: nat, size: nat) {
    addr < RAM_SIZE && Offset(addr) + size <= LINE_SIZE
  }

  /** The line, in set i, has the same bytes as memory. */
  ghost predicate Mirrors(l: Line, i: nat, bytes: seq<Byte>) {
    && |l.data| == LINE_SIZE && LineBase(l.tag, i) + LINE_SIZE <= |bytes|
    && forall k :: 0 <= k < LINE_SIZE ==> l.data[k] == bytes[LineBase(l.tag, i) + k]
  }

  /** A dirty line is valid, and a valid one that is not dirty has the bytes of memory. */
  ghost predicate GoodLine(l: Line, i: nat, bytes: seq<Byte>) {
    && |l.data| == LINE_SIZE
    && (l.dirty ==> l.valid)
    && (l.valid ==> l.tag < LINES / SETS)
    && (l.valid && !l.dirty ==> Mirrors(l, i, bytes))
  }

  /** Writing a line to memory makes memory mirror it and leaves every other line as it was. */
  lemma WrittenBack(l: Line, i: nat, m: Line, j: nat, before: seq<Byte>)
    requires |l.data| == LINE_SIZE && l.tag < LINES / SETS && i < SETS && j < SETS && |before| == RAM_SIZE
    ensures Mirrors(l, i, Splice(before, LineBase(l.tag, i), l.data))
    ensures Mirrors(m, j, before) && !(i == j && m.tag == l.tag)
        ==> Mirrors(m, j, Splice(before, LineBase(l.tag, i), l.data))
  {
    var after := Splice(before, LineBase(l.tag, i), l.data);
    if Mirrors(m, j, before) && !(i == j && m.tag == l.tag) {
      forall k | 0 <= k < LINE_SIZE
        ensures m.data[k] == after[LineBase(m.tag, j) + k]
      {
        var at := LineBase(m.tag, j) + k;
        InLine(at, m.tag, j);
        InLine(at, l.tag, i);
      }
    }
  }

  /** The byte seen at an address whose set holds the lines l0 and l1. */
  function View(l0: Line, l1: Line, bytes: seq<Byte>, addr: nat): Byte
    requires addr < |bytes|
  {
    var t, o := Tag(addr), Offset(addr);
    if l0.Holds(t) && o < |l0.data| then l0.data[o]
    else if l1.Holds(t) && o < |l1.data| then l1.data[o]
    else bytes[addr]
  }

  /** The two ways of a set do not hold the same line. */
  predicate Apart(l0: Line, l1: Line) {
    !(l0.valid && l1.valid && l0.tag == l1.tag)
  }

  /** Writing back a line of set i changes nothing that is seen. */
  lemma SeenAfterWriteBack(l: Line, i: nat, l0: Line, l1: Line, before: seq<Byte>, addr: nat)
    requires |l.data| == LINE_SIZE && l.tag < LINES / SETS && i < SETS && |before| == RAM_SIZE && addr < RAM_SIZE
    requires |l0.data| == LINE_SIZE && |l1.data| == LINE_SIZE && Apart(l0, l1)
    requires Index(addr) == i ==> l.valid && (l == l0 || l == l1)
    ensures View(l0, l1, Splice(before, LineBase(l.tag, i), l.data), addr) == View(l0, l1, before, addr)
  {
    InLine(addr, l.tag, i);
  }

  /** Replacing a line that memory agrees with by one fetched from memory changes nothing that is seen. */
  lemma SeenAfterFill(out: Line, next: Line, other: Line, first: bool, i: nat, bytes: seq<Byte>, addr: nat)
    requires |bytes| == RAM_SIZE && addr < RAM_SIZE && i == Index(addr)
    requires out.valid ==> Mirrors(out, i, bytes)
    requires Mirrors(next, i, bytes) && !other.Holds(next.tag)
    requires |out.data| == LINE_SIZE && |other.data| == LINE_SIZE && Apart(out, other)
    ensures View(if first then next else other, if first then other else next, bytes, addr)
         == View(if first then out else other, if first then other else out, bytes, addr)
  {
    AddressParts(addr);
  }

  /** One access of a program. */
  datatype Op = ReadOp(addr: nat, size: nat) | WriteOp(addr: nat, b: seq<Byte>) {
    predicate Supported() {
      match this
      case ReadOp(addr, size) => InOneLine(addr, size)
      case WriteOp(addr, b) => InOneLine(addr, |b|)
    }
  }

  lemma InOneLineInRam(addr: nat, size: nat)
    requires InOneLine(addr, size)
    ensures addr + size <= RAM_SIZE
  {
    AddressParts(addr);
  }

  /** The first n accesses on flat memory: the memory after them and the bytes read. */
  ghost function FlatRun(mem: seq<Byte>, ops: seq<Op>, n: nat): (r: (seq<Byte>, seq<seq<Byte>>))
    requires |mem| == RAM_SIZE && n <= |ops| && forall k :: 0 <= k < |ops| ==> ops[k].Supported()
    ensures |r.0| == RAM_SIZE
  {
    if n == 0 then (mem, [])
    else
      var (m, out) := FlatRun(mem, ops, n - 1);
      assert ops[n - 1].Supported();
      match ops[n - 1]
      case ReadOp(addr, size) =>
        InOneLineInRam(addr, size);
        (m, out + [m[addr..addr + size]])
      case WriteOp(addr, b) =>
        InOneLineInRam(addr, |b|);
        (Splice(m, addr, b), out)
  }

  class Cache {
    const lines: array2<Line>
    const ram: Memory
    ghost var recent: map<nat, nat>  // the way of each set that was accessed last

    /** The cache over fresh memory, reset. */
    constructor ()
      ensures Valid() && fresh(Repr()) && recent == map[]
    {
      var zero: Byte := 0;
      var blank := Line(0, seq(LINE_SIZE, _ => zero), false, false, false);
      lines := new Line[SETS, 2]((_, _) => blank);
      ram := new Memory();
      recent := map[];
    }

    ghost function Repr(): set<object> {
      {this, lines} + ram.Repr()
    }

    ghost predicate Shape() {
      lines.Length0 == SETS && lines.Length1 == 2 && ram.Valid()
    }

    /** What holds of one way of a set. */
    ghost predicate LineOk(i: nat, w: nat)
      requires Shape() && i < SETS && w < 2
      reads lines, ram.low.mem, ram.high.mem
    {
      GoodLine(lines[i, w], i, ram.Bytes())
    }

    /** The two ways never hold the same line, and the LRU mark is on the way that was not accessed last. */
    ghost predicate SetOk(i: nat)
      requires Shape() && i < SETS
      reads this, lines
    {
      && Apart(lines[i, 0], lines[i, 1])
      && (i in recent ==> recent[i] < 2 && lines[i, 1 - recent[i]].lru && !lines[i, recent[i]].lru)
      && (i !in recent ==> !lines[i, 0].lru && !lines[i, 1].lru && !lines[i, 0].valid && !lines[i, 1].valid)
    }

    ghost predicate Valid()
      reads this, lines, ram.low.mem, ram.high.mem
    {
      && Shape()
      && (forall i :: 0 <= i < SETS ==> SetOk(i))
      && (forall i, w :: 0 <= i < SETS && 0 <= w < 2 ==> LineOk(i, w))
    }

    /** The byte that a program sees at an address. */
    ghost function Logical(addr: nat): Byte
      requires Shape() && addr < RAM_SIZE
      reads lines, ram.low.mem, ram.high.mem
    {
      View(lines[Index(addr), 0], lines[Index(addr), 1], ram.Bytes(), addr)
    }

    /** All bytes that a program sees. */
    ghost function Image(): (s: seq<Byte>)
      requires Shape()
      reads lines, ram.low.mem, ram.high.mem
      ensures |s| == RAM_SIZE && forall a :: 0 <= a < RAM_SIZE ==> s[a] == Logical(a)
    {
      seq(RAM_SIZE, a requires 0 <= a < RAM_SIZE && Shape() reads lines, ram.low.mem, ram.high.mem => Logical(a))
    }

    /** Mark way w of set i as used: its LRU mark goes to the other way. */
    method Touch(i: nat, w: nat)
      requires Shape() && i < SETS && w < 2
      modifies lines
      ensures forall j, v :: 0 <= j < SETS && 0 <= v < 2 && j != i ==> lines[j, v] == old(lines[j, v])
      ensures lines[i, w] == old(lines[i, w]).(lru := false)
      ensures lines[i, 1 - w] == old(lines[i, 1 - w]).(lru := true)
    {
      lines[i, w] := lines[i, w].(lru := false);
      lines[i, 1 - w] := lines[i, 1 - w].(lru := true);
    }

    /** The line's bytes, if it holds any, are also in the RAM. */
    ghost predicate Agrees(i: nat, w: nat)
      requires Shape() && i < SETS && w < 2
      reads lines, ram.low.mem, ram.high.mem
    {
      lines[i, w].valid ==> Mirrors(lines[i, w], i, ram.Bytes())
    }

    /** flush_line: write a dirty line back. */
    method WriteBack(i: nat, w: nat)
      requires Valid() && i < SETS && w < 2
      modifies ram.Repr()
      ensures Valid() && Agrees(i, w)
      ensures forall a :: 0 <= a < RAM_SIZE ==> Logical(a) == old(Logical(a))
      ensures forall j, v :: 0 <= j < SETS && 0 <= v < 2 && old(Agrees(j, v)) ==> Agrees(j, v)
    {
      hide View, Mirrors;
      assert LineOk(i, w);
      var l := lines[i, w];
      if l.dirty {
        LineInOneChip(l.tag, i);
        ghost var before := ram.Bytes();
        ram.Write(LineBase(l.tag, i), l.data);
        WrittenBack(l, i, l, i, before);
        forall j, v | 0 <= j < SETS && 0 <= v < 2
          ensures LineOk(j, v) && (old(Agrees(j, v)) ==> Agrees(j, v))
        {
          assert old(LineOk(j, v)) && SetOk(j);
          WrittenBack(l, i, lines[j, v], j, before);
        }
        forall a | 0 <= a < RAM_SIZE
          ensures Logical(a) == old(Logical(a))
        {
          assert SetOk(Index(a)) && old(LineOk(Index(a), 0) && LineOk(Index(a), 1));
          SeenAfterWriteBack(l, i, lines[Index(a), 0], lines[Index(a), 1], before, a);
        }
      }
    }

    /** The lookup shared by reads and writes: the way that holds the line of addr, after a miss filled from
        memory in place of the way that was accessed less recently. */
    method Fetch(addr: nat) returns (w: nat)
      requires Valid() && addr < RAM_SIZE
      modifies Repr()
      ensures Valid() && w < 2 && lines[Index(addr), w].Holds(Tag(addr))
      ensures forall a :: 0 <= a < RAM_SIZE ==> Logical(a) == old(Logical(a))
      ensures recent == old(recent)[Index(addr) := w]
      ensures old(lines[Index(addr), 0].Holds(Tag(addr))) ==> w == 0
      ensures old(lines[Index(addr), 1].Holds(Tag(addr))) ==> w == 1
      ensures (old(!lines[Index(addr), 0].Holds(Tag(addr)) && !lines[Index(addr), 1].Holds(Tag(addr)))
               && Index(addr) in old(recent)) ==> w != old(recent)[Index(addr)]
    {
      var i, t := Index(addr), Tag(addr);
      assert SetOk(i);
      var hit0, hit1 := lines[i, 0].Holds(t), lines[i, 1].Holds(t);
      w := if hit0 then 0 else if hit1 then 1 else if lines[i, 0].lru then 0 else 1;
      Use(i, w);
      if !hit0 && !hit1 {
        WriteBack(i, w);
        Fill(i, w, addr);
      }
    }

    /** Touch, and note it in the history. */
    method Use(i: nat, w: nat)
      requires Valid() && i < SETS && w < 2
      modifies this`recent, lines
      ensures Valid() && recent == old(recent)[i := w]
      ensures forall a :: 0 <= a < RAM_SIZE ==> Logical(a) == old(Logical(a))
      ensures lines[i, w] == old(lines[i, w]).(lru := false) && lines[i, 1 - w] == old(lines[i, 1 - w]).(lru := true)
    {
      hide Mirrors;
      Touch(i, w);
      recent := recent[i := w];
      forall j | 0 <= j < SETS
        ensures SetOk(j)
      {
        assert old(SetOk(j));
      }
      forall j, v | 0 <= j < SETS && 0 <= v < 2
        ensures LineOk(j, v)
      {
        assert old(LineOk(j, v));
        SameLine(old(lines[j, v]), lines[j, v], j, ram.Bytes());
      }
    }

    /** Take the line of addr from memory into way w. */
    method Fill(i: nat, w: nat, addr: nat)
      requires Valid() && addr < RAM_SIZE && i == Index(addr) && w < 2 && i in recent && recent[i] == w
      requires Agrees(i, w) && !lines[i, 0].Holds(Tag(addr)) && !lines[i, 1].Holds(Tag(addr))
      modifies lines, ram.Repr()
      ensures Valid() && lines[i, w].Holds(Tag(addr))
      ensures forall a :: 0 <= a < RAM_SIZE ==> Logical(a) == old(Logical(a))
    {
      hide View, Mirrors;
      var t := Tag(addr);
      AddressParts(addr);
      LineInOneChip(t, i);
      var data := ram.Read(LineBase(t, i), LINE_SIZE);
      var line := Line(t, data, true, false, false);
      Fetched(line, i, ram.Bytes());
      assert SetOk(i) && old(LineOk(i, 0) && LineOk(i, 1));
      lines[i, w] := line;
      forall j | 0 <= j < SETS
        ensures SetOk(j)
      {
        assert old(SetOk(j));
      }
      forall j, v | 0 <= j < SETS && 0 <= v < 2
        ensures LineOk(j, v)
      {
        assert old(LineOk(j, v));
      }
      forall a | 0 <= a < RAM_SIZE
        ensures Logical(a) == old(Logical(a))
      {
        if Index(a) == i {
          SeenAfterFill(old(lines[i, w]), line, lines[i, 1 - w], w == 0, i, ram.Bytes(), a);
        }
      }
    }

    /** What is seen from addr on is what its line holds. */
    lemma LineSeen(addr: nat, size: nat, w: nat)
      requires Valid() && InOneLine(addr, size) && w < 2 && lines[Index(addr), w].Holds(Tag(addr))
      ensures addr + size <= RAM_SIZE && |lines[Index(addr), w].data| == LINE_SIZE
      ensures lines[Index(addr), w].data[Offset(addr)..Offset(addr) + size] == Image()[addr..addr + size]
    {
      hide Mirrors, Image;
      AddressParts(addr);
      var i, o := Index(addr), Offset(addr);
      assert LineOk(i, w) && SetOk(i);
      var b := lines[i, w].data[o..o + size];
      forall k | 0 <= k < size
        ensures addr + k < RAM_SIZE && b[k] == Logical(addr + k)
      {
        InLine(addr + k, Tag(addr), i);
      }
      SliceIs(b, Image(), addr);
    }

    /** cache_read. */
    method Read(addr: nat, size: nat) returns (b: seq<Byte>)
      requires Valid() && InOneLine(addr, size)
      modifies Repr()
      ensures Valid() && Image() == old(Image())
      ensures addr + size <= RAM_SIZE && b == Image()[addr..addr + size]
    {
      hide SetOk, LineOk, View;
      AddressParts(addr);
      var w := Fetch(addr);
      LineSeen(addr, size, w);
      b := lines[Index(addr), w].data[Offset(addr)..Offset(addr) + size];
      assert Image() == old(Image());
    }

    /** cache_write. */
    method Write(addr: nat, b: seq<Byte>)
      requires Valid() && InOneLine(addr, |b|)
      modifies Repr()
      ensures Valid() && addr + |b| <= RAM_SIZE && Image() == Splice(old(Image()), addr, b)
    {
      AddressParts(addr);
      var w := Fetch(addr);
      Store(addr, w, b);
      assert forall a :: 0 <= a < RAM_SIZE ==> Image()[a] == Splice(old(Image()), addr, b)[a];
    }

    /** A program's accesses, one after the other; each read's bytes are put out in order. */
    method Run(ops: seq<Op>) returns (out: seq<seq<Byte>>)
      requires Valid() && forall k :: 0 <= k < |ops| ==> ops[k].Supported()
      modifies Repr()
      ensures Valid() && FlatRun(old(Image()), ops, |ops|) == (Image(), out)
    {
      hide SetOk, LineOk, Image, Splice;
      out := [];
      for i := 0 to |ops|
        invariant Valid() && FlatRun(old(Image()), ops, i) == (Image(), out)
      {
        assert ops[i].Supported();
        match ops[i] {
          case ReadOp(addr, size) =>
            var b := Read(addr, size);
            out := out + [b];
          case WriteOp(addr, b) =>
            Write(addr, b);
        }
      }
    }

    /** Overwrite bytes of the cached line and mark it dirty. */
    method Store(addr: nat, w: nat, b: seq<Byte>)
      requires Valid() && InOneLine(addr, |b|) && w < 2 && lines[Index(addr), w].Holds(Tag(addr))
      modifies lines
      ensures Valid()
      ensures forall a :: 0 <= a < RAM_SIZE ==>
        Logical(a) == if addr <= a < addr + |b| then b[a - addr] else old(Logical(a))
    {
      hide Mirrors;
      var i, o := Index(addr), Offset(addr);
      assert LineOk(i, w) && SetOk(i);
      ghost var l := lines[i, w];
      lines[i, w] := lines[i, w].(data := Splice(lines[i, w].data, o, b), dirty := true);
      forall j | 0 <= j < SETS
        ensures SetOk(j)
      {
        assert old(SetOk(j));
      }
      forall j, v | 0 <= j < SETS && 0 <= v < 2
        ensures LineOk(j, v)
      {
        assert old(LineOk(j, v));
      }
      forall a | 0 <= a < RAM_SIZE
        ensures Logical(a) == if addr <= a < addr + |b| then b[a - addr] else old(Logical(a))
      {
        AddressParts(a);
        AddressParts(addr);
        InLine(a, Tag(addr), i);
        assert old(LineOk(Index(a), 0) && LineOk(Index(a), 1));
      }
    }

    /** psram_access past the cache, reading. */
    method ReadRam(addr: nat, n: nat) returns (b: seq<Byte>)
      requires Valid() && n > 0 && Memory.InOneChip(addr, n)
      modifies ram.Repr()
      ensures Valid() && Image() == old(Image()) && ram.Bytes() == old(ram.Bytes()) && b == ram.Bytes()[addr..addr + n]
    {
      b := ram.Read(addr, n);
      KeptLines();
    }

    /** Memory that did not change, and lines that did not, keep what is seen. */
    twostate lemma KeptLines()
      requires old(Valid()) && Shape() && ram.Bytes() == old(ram.Bytes()) && recent == old(recent)
      requires forall i, w :: 0 <= i < SETS && 0 <= w < 2 ==> lines[i, w] == old(lines[i, w])
      ensures Valid() && Image() == old(Image())
    {
      hide GoodLine, View, Apart;
      forall i | 0 <= i < SETS
        ensures SetOk(i)
      {
        assert old(SetOk(i));
      }
      forall i, w | 0 <= i < SETS && 0 <= w < 2
        ensures LineOk(i, w)
      {
        assert old(LineOk(i, w));
      }
    }

    /** psram_access past the empty cache, writing. */
    method WriteRam(addr: nat, b: seq<Byte>)
      requires Valid() && recent == map[] && |b| > 0 && Memory.InOneChip(addr, |b|)
      modifies ram.Repr()
      ensures Valid() && ram.Bytes() == Splice(old(ram.Bytes()), addr, b) && Image() == ram.Bytes()
    {
      ram.Write(addr, b);
      forall i | 0 <= i < SETS
        ensures SetOk(i)
      {
        assert old(SetOk(i));
      }
      forall i, w | 0 <= i < SETS && 0 <= w < 2
        ensures |lines[i, w].data| == LINE_SIZE && (lines[i, w].dirty ==> lines[i, w].valid)
      {
        assert old(LineOk(i, w));
      }
      EmptyValid();
    }

    /** An empty cache shows what the RAM holds. */
    lemma EmptySeen()
      requires Valid() && recent == map[]
      ensures Image() == ram.Bytes()
    {
      forall i | 0 <= i < SETS
        ensures !lines[i, 0].valid && !lines[i, 1].valid
      {
        assert SetOk(i);
      }
      assert forall a :: 0 <= a < RAM_SIZE ==> Image()[a] == ram.Bytes()[a];
    }

    lemma EmptyValid()
      requires Shape() && recent == map[] && forall i :: 0 <= i < SETS ==> SetOk(i)
      requires forall i, w :: 0 <= i < SETS && 0 <= w < 2 ==>
        |lines[i, w].data| == LINE_SIZE && (lines[i, w].dirty ==> lines[i, w].valid)
      ensures Valid() && Image() == ram.Bytes()
    {
      forall i, w | 0 <= i < SETS && 0 <= w < 2
        ensures LineOk(i, w) && !lines[i, w].valid
      {
        assert SetOk(i);
      }
      assert forall a :: 0 <= a < RAM_SIZE ==> Image()[a] == ram.Bytes()[a];
    }

    /** cache_reset: forget every line. What is seen is then what the RAM holds. */
    method Reset()
      requires Shape()
      modifies this`recent, lines
      ensures Valid() && recent == map[] && Image() == ram.Bytes()
    {
      var zero: Byte := 0;
      var blank := Line(0, seq(LINE_SIZE, _ => zero), false, false, false);
      forall i, w | 0 <= i < SETS && 0 <= w < 2 {
        lines[i, w] := blank;
      }
      recent := map[];
    }

    /** cache_flush: write back every dirty line. The RAM then holds everything that is seen. */
    method Flush()
      requires Valid()
      modifies ram.Repr()
      ensures Valid() && ram.Bytes() == Image() == old(Image())
    {
      for i := 0 to SETS
        invariant Valid()
        invariant forall a :: 0 <= a < RAM_SIZE ==> Logical(a) == old(Logical(a))
        invariant forall j, w :: 0 <= j < i && 0 <= w < 2 ==> Agrees(j, w)
      {
        WriteBack(i, 0);
        WriteBack(i, 1);
      }
      forall a | 0 <= a < RAM_SIZE
        ensures ram.Bytes()[a] == Logical(a)
      {
        AddressParts(a);
        assert Agrees(Index(a), 0) && Agrees(Index(a), 1) && LineOk(Index(a), 0) && LineOk(Index(a), 1);
      }
    }
  }

  /** A line fetched from memory mirrors it. */
  lemma Fetched(l: Line, i: nat, bytes: seq<Byte>)
    requires |bytes| == RAM_SIZE && l.valid && !l.dirty && l.tag < LINES / SETS && i < SETS
    requires LineBase(l.tag, i) + LINE_SIZE <= RAM_SIZE
    requires l.data == bytes[LineBase(l.tag, i)..LineBase(l.tag, i) + LINE_SIZE]
    ensures Mirrors(l, i, bytes) && GoodLine(l, i, bytes)
  {
  }

  lemma SameLine(l: Line, m: Line, i: nat, bytes: seq<Byte>)
    requires l.(lru := m.lru) == m && GoodLine(l, i, bytes)
    ensures GoodLine(m, i, bytes)
  {
  }
}
