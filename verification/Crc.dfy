/** CRC-16/XMODEM of SD data blocks: the loops of two programs against division bit by bit, and what it detects. */
module Crc {
  import opened Words
  import opened Psram
  import opened RvCore
  import opened RvBits

  /** A register of 16 bits, highest first. */
  type Reg = r: seq<bool> | |r| == 16 witness seq(16, i => false)

  function Zero(): Reg {
    seq(16, i => false)
  }

  /** x^12 + x^5 + 1, what is left of the polynomial when x^16 has come out. */
  predicate Tap(i: nat) {
    i == 3 || i == 10 || i == 15
  }

  function Add(a: Reg, b: Reg): Reg {
    seq(16, i requires 0 <= i < 16 => a[i] != b[i])
  }

  /** One step of the division: shift, and subtract the polynomial when a bit comes out. */
  function Shift(r: Reg): Reg {
    seq(16, i requires 0 <= i < 16 => (i < 15 && r[i + 1]) != (r[0] && Tap(i)))
  }

  function Shifts(r: Reg, n: nat): Reg
    decreases n
  {
    if n == 0 then r else Shifts(Shift(r), n - 1)
  }

  /** Bits from the top of a register down. */
  function AtTop(e: seq<bool>): Reg
    requires |e| <= 16
  {
    e + seq(16 - |e|, i => false)
  }

  /** The register after a string of message bits, highest first. */
  function Feed(r: Reg, bits: seq<bool>): Reg
    decreases |bits|
  {
    if bits == [] then r else Feed(Shift(Add(r, AtTop([bits[0]]))), bits[1..])
  }

  /** The n low bits of a number, highest first. */
  function ToBits(x: nat, n: nat): (s: seq<bool>)
    ensures |s| == n
  {
    if n == 0 then [] else ToBits(x / 2, n - 1) + [x % 2 == 1]
  }

  function Bits(m: seq<Byte>): (s: seq<bool>)
    ensures |s| == 8 * |m|
  {
    if m == [] then [] else Bits(m[..|m| - 1]) + ToBits(m[|m| - 1], 8)
  }

  /** The check value of a message. */
  function Check(m: seq<Byte>): Reg {
    Feed(Zero(), Bits(m))
  }

  // ---------------------------------------------------------------- several bits at once

  lemma {:induction false} FeedTwice(r: Reg, a: seq<bool>, b: seq<bool>)
    ensures Feed(r, a + b) == Feed(Feed(r, a), b)
    decreases |a|
  {
    hide Shift, Add, AtTop;
    if a == [] {
      assert a + b == b;
    } else {
      assert (a + b)[1..] == a[1..] + b;
      FeedTwice(Shift(Add(r, AtTop([a[0]]))), a[1..], b);
    }
  }

  /** A bit of the register below the top one only moves up. */
  lemma ShiftIn(r: Reg, e: seq<bool>)
    requires 0 < |e| <= 16
    ensures Shift(Add(r, AtTop(e))) == Add(Shift(Add(r, AtTop([e[0]]))), AtTop(e[1..]))
  {
    var v, w := Shift(Add(r, AtTop(e))), Add(Shift(Add(r, AtTop([e[0]]))), AtTop(e[1..]));
    forall i | 0 <= i < 16
      ensures v[i] == w[i]
    {
    }
  }

  lemma AddZero(r: Reg)
    ensures Add(r, AtTop([])) == r && Add(r, r) == Zero()
  {
    assert forall i :: 0 <= i < 16 ==> Add(r, AtTop([]))[i] == r[i];
  }

  /** Feeding up to 16 bits is adding them at the top and shifting them out. */
  lemma {:induction false} FeedAtOnce(r: Reg, e: seq<bool>)
    requires |e| <= 16
    ensures Feed(r, e) == Shifts(Add(r, AtTop(e)), |e|)
    decreases |e|
  {
    hide Shift, Add, AtTop;
    if e == [] {
      AddZero(r);
    } else {
      ShiftIn(r, e);
      FeedAtOnce(Shift(Add(r, AtTop([e[0]]))), e[1..]);
    }
  }

  // ---------------------------------------------------------------- numbers as bits

  lemma {:induction false} BitsOfXor(x: nat, y: nat, n: nat, m: nat)
    requires n <= m
    ensures forall i :: 0 <= i < n ==> ToBits(Gates(GXor, x, y, m), n)[i] == (ToBits(x, n)[i] != ToBits(y, n)[i])
    decreases n
  {
    if n > 0 {
      BitsOfXor(x / 2, y / 2, n - 1, m - 1);
      var g := Gates(GXor, x / 2, y / 2, m - 1);
      assert (Bit(GXor, x, y) + 2 * g) / 2 == g;
    }
  }

  lemma {:induction false} BitsOfLow(x: nat, n: nat)
    ensures ToBits(x % Pow2(n), n) == ToBits(x, n)
    decreases n
  {
    if n > 0 {
      ModPow2(x, n);
      BitsOfLow(x / 2, n - 1);
    }
  }

  /** Doubling moves the bits up. */
  lemma {:induction false} BitsOfDouble(x: nat, n: nat)
    requires n > 0
    ensures ToBits(2 * x, n) == ToBits(x, n - 1) + [false]
  {
  }

  lemma {:induction false} TopOfBits(x: nat, n: nat)
    requires n > 0
    ensures ToBits(x, n) == [x / Pow2(n - 1) % 2 == 1] + ToBits(x, n - 1)
    decreases n
  {
    if n > 1 {
      TopOfBits(x / 2, n - 1);
      HalfThenPower(x, Pow2(n - 2));
    } else {
      assert x / 1 == x;
    }
  }

  /** High and low part. */
  lemma {:induction false} SplitBits(x: nat, k: nat, n: nat)
    ensures x / Pow2(k) >= 0 && ToBits(x, n + k) == ToBits(x / Pow2(k), n) + ToBits(x, k)
    decreases k
  {
    Smaller(x, Pow2(k));
    if k > 0 {
      SplitBits(x / 2, k - 1, n);
      HalfThenPower(x, Pow2(k - 1));
      assert ToBits(x, n + k) == ToBits(x / 2, n + k - 1) + [x % 2 == 1];
    } else {
      assert x / 1 == x;
    }
  }

  lemma {:induction false} Nibble(x: nat)
    ensures ToBits(x, 4) == [x / 8 % 2 == 1, x / 4 % 2 == 1, x / 2 % 2 == 1, x % 2 == 1]
  {
    assert x / 2 / 2 == x / 4 && x / 4 / 2 == x / 8;
    assert ToBits(x / 8, 1) == [x / 8 % 2 == 1];
    assert ToBits(x / 4, 2) == ToBits(x / 8, 1) + [x / 4 % 2 == 1];
    assert ToBits(x / 2, 3) == ToBits(x / 4, 2) + [x / 2 % 2 == 1];
  }

  lemma {:induction false} BitsOfPolynomial()
    ensures forall i :: 0 <= i < 16 ==> ToBits(0x1021, 16)[i] == Tap(i)
  {
    hide ToBits;
    LowPowers();
    SplitBits(0x1021, 4, 12);
    SplitBits(0x102, 4, 8);
    SplitBits(0x10, 4, 4);
    Nibble(0x1021);
    Nibble(0x102);
    Nibble(0x10);
    Nibble(1);
  }

  /** Numbers below 2^16 and registers. */
  function Register(crc: nat): Reg {
    ToBits(crc, 16)
  }

  lemma {:induction false} AddNumbers(x: Word, y: Word)
    ensures Register(Xor(x, y)) == Add(Register(x), Register(y))
  {
    BitsOfXor(x, y, 16, 32);
  }

  /** The test for the top bit and the shifted number. */
  lemma {:induction false} TestAndDouble(crc: Word)
    requires crc < 0x1_0000
    ensures (And(crc, 0x8000) != 0) <==> Register(crc)[0]
    ensures forall i :: 0 <= i < 15 ==> Register(2 * crc)[i] == Register(crc)[i + 1]
    ensures !Register(2 * crc)[15]
  {
    hide ToBits, And;
    Powers();
    TopOfBits(crc, 16);
    BitMask(crc, 0x8000, 15);
    BitsOfDouble(crc, 16);
  }

  /** One turn of the inner loop: the number may need 17 bits before it is cut off. */
  lemma {:induction false} ShiftNumber(crc: Word)
    requires crc < 0x1_0000
    ensures Register(if And(crc, 0x8000) != 0 then Xor(2 * crc, 0x1021) else 2 * crc) == Shift(Register(crc))
  {
    hide Register, And, Xor;
    TestAndDouble(crc);
    AddNumbers(2 * crc, 0x1021);
    PolynomialRegister();
  }

  lemma {:induction false} PolynomialRegister()
    ensures forall i :: 0 <= i < 16 ==> Register(0x1021)[i] == Tap(i)
  {
    BitsOfPolynomial();
  }

  /** Cutting off to 16 bits. */
  lemma {:induction false} CutOff(x: Word)
    ensures Register(x % 0x1_0000) == Register(x) && And(x, 0xFFFF) == x % 0x1_0000
  {
    Powers();
    BitsOfLow(x, 16);
    LowMask(x, 16, 32);
  }

  /** A byte above eight zeros. */
  lemma {:induction false} ByteAtTop(b: Byte)
    ensures Register(256 * b) == AtTop(ToBits(b, 8))
  {
    LowPowers();
    SplitBits(256 * b, 8, 8);
    EightZeros(b);
    hide ToBits;
    assert 256 * b / 256 == b;
  }

  lemma {:induction false} EightZeros(b: Byte)
    ensures ToBits(256 * b, 8) == seq(8, i => false)
  {
    hide ToBits;
    LowPowers();
    SplitBits(256 * b, 4, 4);
    Nibble(256 * b);
    Nibble(16 * b);
    assert 256 * b / 16 == 16 * b;
    assert 256 * b / 8 % 2 == 0 && 256 * b / 4 % 2 == 0 && 256 * b / 2 % 2 == 0 && 256 * b % 2 == 0;
    assert 16 * b / 8 % 2 == 0 && 16 * b / 4 % 2 == 0 && 16 * b / 2 % 2 == 0 && 16 * b % 2 == 0;
  }

  // ---------------------------------------------------------------- the two programs

  lemma {:induction false} EmptyMessage()
    ensures Check([]) == Register(0)
  {
    AllZero(16);
  }

  lemma {:induction false} AllZero(n: nat)
    ensures forall i :: 0 <= i < n ==> !ToBits(0, n)[i]
    decreases n
  {
    if n > 0 { AllZero(n - 1); }
  }

  lemma {:induction false} OneMoreByte(m: seq<Byte>, b: Byte)
    ensures Check(m + [b]) == Shifts(Add(Check(m), AtTop(ToBits(b, 8))), 8)
  {
    hide Shift, Shifts, ToBits, Add, AtTop;
    var n := m + [b];
    assert n[..|n| - 1] == m;
    FeedTwice(Zero(), Bits(m), ToBits(b, 8));
    FeedAtOnce(Check(m), ToBits(b, 8));
  }

  /** A byte added at the top. */
  lemma {:induction false} AddByte(crc: Word, b: Byte)
    requires crc < 0x1_0000
    ensures Xor(crc, 256 * b) < 0x1_0000
    ensures Register(Xor(crc, 256 * b)) == Add(Register(crc), AtTop(ToBits(b, 8)))
  {
    hide Register, Gates;
    AddNumbers(crc, 256 * b);
    ByteAtTop(b);
    XorBelow(crc, 256 * b, 16, 32);
    Powers();
  }

  lemma {:induction false} XorBelow(x: nat, y: nat, k: nat, n: nat)
    requires x < Pow2(k) && y < Pow2(k) && k <= n
    ensures Gates(GXor, x, y, n) < Pow2(k)
    decreases n
  {
    if k == 0 {
      XorZero(n);
    } else {
      XorBelow(x / 2, y / 2, k - 1, n - 1);
    }
  }

  lemma {:induction false} XorZero(n: nat)
    ensures Gates(GXor, 0, 0, n) == 0
    decreases n
  {
    if n > 0 { XorZero(n - 1); }
  }

  /** crc16_ccitt of the firmware: 16-bit arithmetic. */
  method Firmware(buf: seq<Byte>) returns (crc: Word)
    ensures crc < 0x1_0000 && Register(crc) == Check(buf)
  {
    hide Shift, Add, AtTop, Check, Register, And, Xor, ToBits;
    crc := 0x0000;
    EmptyMessage();
    assert buf[..0] == [];
    for i := 0 to |buf|
      invariant crc < 0x1_0000 && Register(crc) == Check(buf[..i])
    {
      AddByte(crc, buf[i]);
      var byte: int := buf[i];
      crc := Xor(crc, 256 * byte);
      ghost var start := Register(crc);
      for b := 0 to 8
        invariant crc < 0x1_0000 && Shifts(Register(crc), 8 - b) == Shifts(start, 8)
      {
        ShiftNumber(crc);
        var next := if And(crc, 0x8000) != 0 then Xor(2 * crc, 0x1021) else 2 * crc;
        CutOff(next);
        crc := next % 0x1_0000;
      }
      OneMoreByte(buf[..i], buf[i]);
      assert buf[..i + 1] == buf[..i] + [buf[i]];
    }
    assert buf[..|buf|] == buf;
  }

  /** The message 1 leaves the polynomial x^16 + x^12 + x^5 + 1 without its highest term. */
  lemma {:induction false} PolynomialIs()
    ensures Check([1]) == Register(0x1021)
  {
    hide Shift, Add, AtTop, ToBits;
    var zeros := seq(7, i => false);
    OneBits(zeros);
    ZerosOnly(7);
    FeedTwice(Zero(), zeros, [true]);
    assert Feed(Zero(), [true]) == Shift(Add(Zero(), AtTop([true]))) by {
      assert [true][1..] == [];
    }
    TapsAre();
  }

  lemma OneBits(zeros: seq<bool>)
    requires zeros == seq(7, i => false)
    ensures Bits([1]) == zeros + [true]
  {
    assert [1][..0] == [];
    assert ToBits(1, 8) == ToBits(0, 7) + [true];
    assert ToBits(0, 7) == zeros by { assert ToBits(0, 4) == [false, false, false, false]; }
  }

  lemma {:induction false} ZerosOnly(n: nat)
    ensures Feed(Zero(), seq(n, i => false)) == Zero()
  {
    if n > 0 {
      ZerosOnly(n - 1);
      assert seq(n, i => false)[1..] == seq(n - 1, i => false);
      assert Shift(Add(Zero(), AtTop([false]))) == Zero();
    }
  }

  lemma {:induction false} TapsAre()
    ensures Shift(Add(Zero(), AtTop([true]))) == Register(0x1021)
  {
    var taps := Shift(Add(Zero(), AtTop([true])));
    assert forall i :: 0 <= i < 16 ==> taps[i] == Tap(i);
    BitsOfPolynomial();
  }

  /** crc16_ccitt of the SD card emulator: integers kept in 16 bits by a mask. */
  method CardEmulator(data: seq<Byte>) returns (crc: Word)
    ensures crc < 0x1_0000 && Register(crc) == Check(data)
  {
    hide Shift, Add, AtTop, Check, Register, And, Xor, ToBits;
    crc := 0x0000;
    EmptyMessage();
    assert data[..0] == [];
    for i := 0 to |data|
      invariant crc < 0x1_0000 && Register(crc) == Check(data[..i])
    {
      AddByte(crc, data[i]);
      var byte: int := data[i];
      crc := Xor(crc, 256 * byte);
      ghost var start := Register(crc);
      for b := 0 to 8
        invariant crc < 0x1_0000 && Shifts(Register(crc), 8 - b) == Shifts(start, 8)
      {
        ShiftNumber(crc);
        CutOff(2 * crc);
        if And(crc, 0x8000) != 0 {
          CutOff(Xor(2 * crc, 0x1021));
          crc := And(Xor(2 * crc, 0x1021), 0xFFFF);
        } else {
          crc := And(2 * crc, 0xFFFF);
        }
      }
      OneMoreByte(data[..i], data[i]);
      assert data[..i + 1] == data[..i] + [data[i]];
    }
    assert data[..|data|] == data;
  }

  /** Numbers below 2^16 with the same register are the same, so the two programs give the same number. */
  lemma {:induction false} SameNumber(x: nat, y: nat, n: nat)
    requires ToBits(x, n) == ToBits(y, n) && x < Pow2(n) && y < Pow2(n)
    ensures x == y
    decreases n
  {
    if n > 0 {
      var s, t := ToBits(x / 2, n - 1), ToBits(y / 2, n - 1);
      assert (s + [x % 2 == 1])[..n - 1] == s && (t + [y % 2 == 1])[..n - 1] == t;
      assert (s + [x % 2 == 1])[n - 1] == (t + [y % 2 == 1])[n - 1];
      SameNumber(x / 2, y / 2, n - 1);
    }
  }

  /** The two programs agree on every message. */
  method Agree(m: seq<Byte>) returns (a: Word, b: Word)
    ensures a == b && Register(a) == Check(m)
  {
    hide Check;
    a := Firmware(m);
    b := CardEmulator(m);
    Powers();
    SameNumber(a, b, 16);
  }

  // ---------------------------------------------------------------- what the check detects

  lemma {:induction false} OneToOne(a: Reg, b: Reg)
    requires a != b
    ensures Shift(a) != Shift(b)
  {
    var i :| 0 <= i < 16 && a[i] != b[i];
    if a[0] != b[0] {
      assert Shift(a)[15] != Shift(b)[15];
    } else {
      assert Shift(a)[i - 1] != Shift(b)[i - 1];
    }
  }

  lemma AddOneToOne(r: Reg, a: Reg, b: Reg)
    requires a != b
    ensures Add(r, a) != Add(r, b) && Add(a, r) != Add(b, r)
  {
    var i :| 0 <= i < 16 && a[i] != b[i];
    assert Add(r, a)[i] != Add(r, b)[i] && Add(a, r)[i] != Add(b, r)[i];
  }

  /** A difference in the register stays one, whatever follows. */
  lemma {:induction false} SameTail(a: Reg, b: Reg, bits: seq<bool>)
    requires a != b
    ensures Feed(a, bits) != Feed(b, bits)
    decreases |bits|
  {
    hide Shift, Add, AtTop;
    if bits != [] {
      var t := AtTop([bits[0]]);
      AddOneToOne(t, a, b);
      OneToOne(Add(a, t), Add(b, t));
      SameTail(Shift(Add(a, t)), Shift(Add(b, t)), bits[1..]);
    }
  }

  lemma {:induction false} ShiftsKeep(a: Reg, b: Reg, n: nat)
    requires a != b
    ensures Shifts(a, n) != Shifts(b, n)
    decreases n
  {
    hide Shift;
    if n > 0 {
      OneToOne(a, b);
      ShiftsKeep(Shift(a), Shift(b), n - 1);
    }
  }

  lemma AtTopDiffers(a: seq<bool>, b: seq<bool>)
    requires |a| == |b| <= 16 && a != b
    ensures AtTop(a) != AtTop(b)
  {
    assert AtTop(a)[..|a|] == a && AtTop(b)[..|a|] == b;
  }

  /** Two bit strings that differ only in a burst of at most 16 bits get different check values. */
  lemma {:induction false} BurstOfBits(head: seq<bool>, a: seq<bool>, b: seq<bool>, tail: seq<bool>)
    requires |a| == |b| <= 16 && a != b
    ensures Feed(Zero(), head + a + tail) != Feed(Zero(), head + b + tail)
  {
    hide Shift, Add, AtTop, Feed;
    var r := Feed(Zero(), head);
    FeedTwice(Zero(), head + a, tail);
    FeedTwice(Zero(), head + b, tail);
    FeedTwice(Zero(), head, a);
    FeedTwice(Zero(), head, b);
    FeedAtOnce(r, a);
    FeedAtOnce(r, b);
    AtTopDiffers(a, b);
    AddOneToOne(r, AtTop(a), AtTop(b));
    ShiftsKeep(Add(r, AtTop(a)), Add(r, AtTop(b)), |a|);
    SameTail(Feed(r, a), Feed(r, b), tail);
  }

  /** The bits of two messages of the same length agree outside n bits from p on. */
  ghost predicate DifferWithin(x: seq<Byte>, y: seq<Byte>, p: nat, n: nat) {
    && |x| == |y| && p + n <= 8 * |x|
    && forall i :: 0 <= i < 8 * |x| && !(p <= i < p + n) ==> Bits(x)[i] == Bits(y)[i]
  }

  /** Any burst of at most 16 bits is detected, in messages of any length. */
  lemma {:induction false} BurstDetected(x: seq<Byte>, y: seq<Byte>, p: nat, n: nat)
    requires DifferWithin(x, y, p, n) && n <= 16 && x != y
    ensures Check(x) != Check(y)
  {
    hide Bits, Feed;
    var s, t := Bits(x), Bits(y);
    if s == t { SameBits(x, y); }
    assert s[..p] == t[..p] && s[p + n..] == t[p + n..];
    assert s == s[..p] + s[p..p + n] + s[p + n..];
    assert t == s[..p] + t[p..p + n] + s[p + n..];
    BurstOfBits(s[..p], s[p..p + n], t[p..p + n], s[p + n..]);
  }

  /** A message is determined by its bits. */
  lemma {:induction false} SameBits(x: seq<Byte>, y: seq<Byte>)
    requires |x| == |y| && Bits(x) == Bits(y)
    ensures x == y
    decreases |x|
  {
    hide ToBits;
    if x != [] {
      var k := |x| - 1;
      assert Bits(x)[..8 * k] == Bits(x[..k]) && Bits(y)[..8 * k] == Bits(y[..k]);
      assert Bits(x)[8 * k..] == ToBits(x[k], 8) && Bits(y)[8 * k..] == ToBits(y[k], 8);
      SameBits(x[..k], y[..k]);
      LowPowers();
      SameNumber(x[k], y[k], 8);
      assert x == x[..k] + [x[k]] && y == y[..k] + [y[k]];
    }
  }

  /** A message followed by its check value, high byte first. */
  function Framed(m: seq<Byte>, crc: nat): seq<Byte>
    requires crc < 0x1_0000
  {
    m + [crc / 256] + [crc % 256]
  }

  /** A framed message's own check value is 0. */
  lemma {:induction false} Residue(m: seq<Byte>, crc: nat)
    requires crc < 0x1_0000 && Register(crc) == Check(m)
    ensures Check(Framed(m, crc)) == Zero()
  {
    hide Check, Shift, Shifts, Add, Bits, ToBits;
    var hi, lo := ToBits(crc / 256, 8), ToBits(crc % 256, 8);
    LowPowers();
    SplitBits(crc, 8, 8);
    BitsOfLow(crc, 8);
    OneMoreByte(m, crc / 256);
    OneMoreByte(m + [crc / 256], crc % 256);
    HighOut(hi, lo);
    EightOut(lo);
    EightOutOfZero();
  }

  lemma HighOut(hi: seq<bool>, lo: seq<bool>)
    requires |hi| == 8 && |lo| == 8
    ensures Add(hi + lo, AtTop(hi)) == seq(8, i => false) + lo
    ensures Add(lo + seq(8, i => false), AtTop(lo)) == Zero()
  {
  }

  /** Eight shifts move the low byte up when the high one is 0. */
  lemma {:induction false} EightOut(lo: seq<bool>)
    requires |lo| == 8
    ensures Shifts(seq(8, i => false) + lo, 8) == lo + seq(8, i => false)
  {
    MoveUp(seq(8, i => false) + lo, 8);
  }

  lemma {:induction false} EightOutOfZero()
    ensures Shifts(Zero(), 8) == Zero()
  {
    MoveUp(Zero(), 8);
  }

  lemma {:induction false} MoveUp(r: Reg, n: nat)
    requires n <= 8 && forall i :: 0 <= i < n ==> !r[i]
    ensures Shifts(r, n) == r[n..] + seq(n, i => false)
    decreases n
  {
    if n > 0 {
      var s := Shift(r);
      assert forall i :: 0 <= i < 16 ==> s[i] == (i < 15 && r[i + 1]);
      MoveUp(s, n - 1);
      var v, w := s[n - 1..] + seq(n - 1, i => false), r[n..] + seq(n, i => false);
      assert forall i :: 0 <= i < 16 ==> v[i] == w[i];
    }
  }

  /** What a receiver relies on: a frame damaged in at most 16 adjacent bits does not check to 0. */
  lemma {:induction false} DamageDetected(m: seq<Byte>, crc: nat, received: seq<Byte>, p: nat, n: nat)
    requires crc < 0x1_0000 && Register(crc) == Check(m)
    requires DifferWithin(Framed(m, crc), received, p, n) && n <= 16 && received != Framed(m, crc)
    ensures Check(received) != Zero()
  {
    hide Check, Framed;
    Residue(m, crc);
    BurstDetected(Framed(m, crc), received, p, n);
  }
}
