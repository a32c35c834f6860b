/** What the values mean that RISC-V instructions compute, load and store, said without the functions that compute
    them. */
module RvValues {
  import opened Words
  import opened Psram
  import opened RvCore
  import opened RvBits
  import opened RvSpec

  // ---------------------------------------------------------------- memory

  /** Byte i of a word, the lowest first. */
  function ByteOf(val: Word, i: nat): nat {
    val / Pow2(8 * i) % 256
  }

  /** The second RAM is the first with the n low bytes of a word stored. */
  ghost predicate Stored(ram: Ram, ram': Ram, ofs: nat, n: nat, val: Word) {
    forall a :: 0 <= a < RAM_SIZE ==>
      ram'[a] as int == if ofs <= a < ofs + n then ByteOf(val, a - ofs) else ram[a] as int
  }

  lemma {:induction false} StoreIs(ram: Ram, ofs: nat, n: nat, val: Word)
    requires ofs + n <= RAM_SIZE && n <= 4
    ensures Stored(ram, Store(ram, ofs, n, val), ofs, n, val)
  {
    hide Pow2;
    Powers();
    forall a | 0 <= a < RAM_SIZE
      ensures Store(ram, ofs, n, val)[a] as int == if ofs <= a < ofs + n then ByteOf(val, a - ofs) else ram[a] as int
    {
      if ofs <= a < ofs + n { assert WordBytes(val)[a - ofs] as int == ByteOf(val, a - ofs); }
    }
  }

  /** Bytes as a number, the lowest first. */
  function Little(b: seq<Byte>): nat {
    if b == [] then 0 else b[0] as int + 256 * Little(b[1..])
  }

  lemma {:induction false} LoadIs(ram: Ram, ofs: nat, n: nat)
    requires ofs + n <= RAM_SIZE && n in {1, 2, 4}
    ensures Load(ram, ofs, n) == Little(ram[ofs..ofs + n]) < Pow2(8 * n)
  {
    var b := ram[ofs..ofs + n];
    Powers();
    LittleParts(b);
  }

  lemma LittleParts(b: seq<Byte>)
    requires |b| in {1, 2, 4}
    ensures Little(b) == b[0] as int + (if |b| > 1 then 256 * b[1] as int else 0)
                         + if |b| > 2 then 0x1_0000 * b[2] as int + 0x100_0000 * b[3] as int else 0
  {
    assert Little(b[1..]) == if |b| == 1 then 0 else b[1] as int + 256 * Little(b[1..][1..]);
    if |b| > 1 {
      assert b[1..][1..] == b[2..];
      assert Little(b[2..]) == if |b| == 2 then 0 else b[2] as int + 256 * Little(b[2..][1..]);
      if |b| > 2 {
        assert b[2..][1..] == b[3..];
        assert Little(b[3..]) == b[3] as int + 256 * Little(b[3..][1..]);
      }
    }
  }

  /** A load takes back what a store of the same size left. */
  lemma {:induction false} LoadAfterStore(ram: Ram, ram': Ram, ofs: nat, n: nat, val: Word)
    requires ofs + n <= RAM_SIZE && n in {1, 2, 4} && Stored(ram, ram', ofs, n, val)
    ensures Load(ram', ofs, n) == val % Pow2(8 * n)
  {
    hide ByteOf, Pow2;
    Powers();
    BytesSum(val);
    var b := ram'[ofs..ofs + n];
    assert forall i {:trigger b[i]} :: 0 <= i < n ==> b[i] as int == ByteOf(val, i);
  }

  lemma BytesSum(x: Word)
    ensures x % 0x100 == ByteOf(x, 0)
    ensures x % 0x1_0000 == ByteOf(x, 0) + 256 * ByteOf(x, 1)
    ensures x == ByteOf(x, 0) + 256 * ByteOf(x, 1) + 0x1_0000 * ByteOf(x, 2) + 0x100_0000 * ByteOf(x, 3)
  {
    hide Pow2;
    Powers();
    assert x / 0x1_0000 == x / 256 / 256 && x / 0x100_0000 == x / 0x1_0000 / 256;
  }

  /** LB and LH extend the sign, the other loads add zeros. */
  ghost predicate Extends(f: nat, x: nat, v: Word) {
    if f == 0 then Signed(v) == if x < 0x80 then x else x - 0x100
    else if f == 1 then Signed(v) == if x < 0x8000 then x else x - 0x1_0000
    else v == x
  }

  lemma {:induction false} ExtendedIs(f: nat, x: Word)
    requires x < Pow2(8 * LoadSize(f))
    ensures Extends(f, x, Extended(f, x))
  {
    Powers();
  }

  // ---------------------------------------------------------------- arithmetic

  /** A word as a signed number is the one of 32 bits that agrees with it modulo 2^32. */
  lemma SignedIs(x: Word)
    ensures IsWord(Signed(x)) && Signed(x) % TWO32 == x
  {
  }

  lemma SignedOf(z: int)
    requires IsWord(z)
    ensures Signed(U(z)) == z
  {
  }

  /** v is the product without its 32 low bits. */
  predicate HighOf(v: int, product: int) {
    0 <= product - v * TWO32 < TWO32
  }

  /** The quotient of a division without remainder. */
  ghost predicate Quotient(x: int, y: int, q: int) {
    exists r :: Divides(x, y, q, r)
  }

  ghost predicate Remains(x: int, y: int, r: int) {
    exists q :: Divides(x, y, q, r)
  }

  /** RV32M: MUL, MULH, MULHSU, MULHU, DIV, DIVU, REM and REMU. */
  ghost predicate MulDiv(f: nat, a: Word, b: Word, v: Word) {
    var x, y := Signed(a), Signed(b);
    match f
    case 0 => (v - a * b) % TWO32 == 0
    case 1 => HighOf(Signed(v), x * y)
    case 2 => HighOf(Signed(v), x * b)
    case 3 => HighOf(v, a * b)
    case 4 =>
      if b == 0 then v == 0xFFFF_FFFF
      else if x == -0x8000_0000 && y == -1 then v == a
      else Quotient(x, y, Signed(v))
    case 5 => if b == 0 then v == 0xFFFF_FFFF else Quotient(a, b, v)
    case 6 =>
      if b == 0 then v == a
      else if x == -0x8000_0000 && y == -1 then v == 0
      else Remains(x, y, Signed(v))
    case _ => if b == 0 then v == a else Remains(a, b, v)
  }

  lemma {:induction false} MulDivIs(f: nat, a: Word, b: Word)
    requires f < 8
    ensures MulDiv(f, a, b, MulOp(f, a, b))
  {
    hide Quotient, Remains, HighOf, Signed, Div, Remainder;
    if f == 0 {
      LowIs(a * b);
    } else if f < 4 {
      HighIs(a, b);
    } else if f % 2 == 0 {
      SignedDivIs(a, b);
    } else {
      UnsignedDivIs(a, b);
    }
  }

  lemma LowIs(n: int)
    ensures (U(n) - n) % TWO32 == 0
  {
    assert n == n / TWO32 * TWO32 + n % TWO32;
    assert U(n) - n == -(n / TWO32) * TWO32;
  }

  lemma {:induction false} HighIs(a: Word, b: Word)
    ensures HighOf(Signed(U(Signed(a) * Signed(b) / TWO32)), Signed(a) * Signed(b))
    ensures HighOf(Signed(U(Signed(a) * b / TWO32)), Signed(a) * b)
    ensures HighOf(U(a * b / TWO32), a * b)
  {
    hide Signed, HighOf;
    SignedIs(a);
    SignedIs(b);
    ProductBound(Signed(a), Signed(b));
    ProductBound(Signed(a), b);
    ProductBound(a, b);
    HighPart(Signed(a) * Signed(b));
    HighPart(Signed(a) * b);
    HighPart(a * b);
  }

  lemma HighPart(n: int)
    ensures -0x8000_0000 * TWO32 < n < 0x8000_0000 * TWO32 ==> HighOf(Signed(U(n / TWO32)), n)
    ensures 0 <= n < TWO32 * TWO32 ==> HighOf(U(n / TWO32), n)
  {
  }

  lemma ProductBound(x: int, y: int)
    ensures IsWord(x) && -0x8000_0000 <= y < TWO32 ==> -0x8000_0000 * TWO32 < x * y < 0x8000_0000 * TWO32
    ensures 0 <= x < TWO32 && 0 <= y < TWO32 ==> 0 <= x * y < TWO32 * TWO32
  {
    MulLe(0, Abs(y), Abs(x));
    MulLe(Abs(x), 0x8000_0000, Abs(y));
    MulLe(Abs(x), TWO32, Abs(y));
    Signs(Abs(x), Abs(y));
  }

  lemma {:induction false} SignedDivIs(a: Word, b: Word)
    ensures MulDiv(4, a, b, MulOp(4, a, b)) && MulDiv(6, a, b, MulOp(6, a, b))
  {
    hide Signed, Div, Remainder, Divides, HighOf;
    var x, y := Signed(a), Signed(b);
    SignedIs(a);
    SignedIs(b);
    if b == 0 {
      ByZero(x);
    } else if x == -0x8000_0000 && y == -1 {
      Overflow(a, b);
    } else {
      DivRemainder(x, y);
      QuotientSize(x, y);
      SignedOf(Div(x, y));
      SignedOf(Remainder(x, y));
      assert Divides(x, y, Signed(MulOp(4, a, b)), Signed(MulOp(6, a, b)));
    }
  }

  lemma Overflow(a: Word, b: Word)
    requires Signed(a) == -0x8000_0000 && Signed(b) == -1
    ensures MulOp(4, a, b) == a && MulOp(6, a, b) == 0
  {
    assert Div(-0x8000_0000, -1) == 0x8000_0000;
  }

  lemma {:induction false} UnsignedDivIs(a: Word, b: Word)
    ensures MulDiv(5, a, b, MulOp(5, a, b)) && MulDiv(7, a, b, MulOp(7, a, b))
  {
    hide Signed, Div, Remainder, Divides, HighOf;
    if b == 0 {
      ByZero(a);
    } else {
      DivRemainder(a, b);
      QuotientSize(a, b);
      UnsignedParts(a, b);
      assert Divides(a, b, MulOp(5, a, b), MulOp(7, a, b));
    }
  }

  lemma UnsignedParts(a: Word, b: Word)
    requires b != 0
    ensures 0 <= Div(a, b) <= a && 0 <= Remainder(a, b) < b
  {
    QuotientSize(a, b);
    assert Divides(a, b, Div(a, b), Remainder(a, b)) by { DivRemainder(a, b); }
  }

  /** The other operations with a register or an immediate: ADD and SUB, SLL, SLT, SLTU, XOR, SRL and SRA, OR, AND. */
  ghost predicate Calculates(f: nat, a: Word, b: Word, alt: bool, v: Word) {
    var p := Pow2(b % 32);
    match f
    case 0 => (v - if alt then a - b else a + b) % TWO32 == 0
    case 1 => (v - a * p) % TWO32 == 0
    case 2 => (Signed(a) < Signed(b) && v == 1) || (Signed(a) >= Signed(b) && v == 0)
    case 3 => (a < b && v == 1) || (a >= b && v == 0)
    case 4 => MadeOf(v, a, b, (s, t) => s != t)
    case 5 => if alt then Signed(v) * p <= Signed(a) < (Signed(v) + 1) * p else v * p <= a < (v + 1) * p
    case 6 => MadeOf(v, a, b, (s, t) => s || t)
    case _ => MadeOf(v, a, b, (s, t) => s && t)
  }

  lemma {:induction false} AluIs(f: nat, a: Word, b: Word, alt: bool)
    requires f < 8
    ensures Calculates(f, a, b, alt, AluOp(f, a, b, alt))
  {
    hide Signed, MadeOf, Gates, Pow2;
    GatesMade(a, b);
    ShiftCount(b);
    LowIs(if alt then a - b else a + b);
    LowIs(a * Pow2(b % 32));
    RoundsDown(a, Pow2(b % 32));
    SignedIs(a);
    RoundsDown(Signed(a), Pow2(b % 32));
    SmallerWord(Signed(a), Pow2(b % 32));
    SignedOf(Signed(a) / Pow2(b % 32));
  }

  lemma ShiftCount(b: Word)
    ensures Small(b, 0) == b % 32
  {
    Powers();
  }

  // ---------------------------------------------------------------- atomics

  /** What an atomic operation stores over prior: SWAP, ADD, XOR, AND, OR, MIN, MAX, MINU and MAXU. */
  ghost predicate Combines(op: nat, prior: Word, b: Word, v: Word) {
    match op
    case 1 => v == b
    case 0 => (v - (prior + b)) % TWO32 == 0
    case 4 => MadeOf(v, prior, b, (s, t) => s != t)
    case 12 => MadeOf(v, prior, b, (s, t) => s && t)
    case 8 => MadeOf(v, prior, b, (s, t) => s || t)
    case 16 => v in {prior, b} && Signed(v) <= Signed(prior) && Signed(v) <= Signed(b)
    case 20 => v in {prior, b} && Signed(v) >= Signed(prior) && Signed(v) >= Signed(b)
    case 24 => v in {prior, b} && v <= prior && v <= b
    case _ => v in {prior, b} && v >= prior && v >= b
  }

  lemma {:induction false} AmoIs(op: nat, prior: Word, b: Word)
    requires IsAmo(op)
    ensures Combines(op, prior, b, AmoOp(op, prior, b))
  {
    hide Gates, BitAt;
    GatesMade(b, prior);
    LowIs(prior + b);
  }
}
