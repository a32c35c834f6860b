/** Unsigned 32-bit operations as C has them, and the immediates of RISC-V instructions by two routes. */
module RvBits {
  import opened Words
  import opened RvCore

  // ---------------------------------------------------------------- operations on words

  function And(x: Word, y: Word): Word {
    GatesBound(GAnd, x, y, 32);
    Gates(GAnd, x, y, 32)
  }

  function Or(x: Word, y: Word): Word {
    GatesBound(GOr, x, y, 32);
    Gates(GOr, x, y, 32)
  }

  function Xor(x: Word, y: Word): Word {
    GatesBound(GXor, x, y, 32);
    Gates(GXor, x, y, 32)
  }

  function Not(x: Word): Word {
    TWO32 - 1 - x
  }

  function Left(x: Word, n: nat): Word {
    U(x * Pow2(n))
  }

  function Right(x: Word, n: nat): Word {
    Smaller(x, Pow2(n));
    x / Pow2(n)
  }

  lemma {:induction false} GatesBound(g: Gate, x: nat, y: nat, n: nat)
    ensures Gates(g, x, y, n) < Pow2(n)
    ensures Pow2(32) == TWO32
  {
    GatesBelow(g, x, y, n);
    Powers();
  }

  // ---------------------------------------------------------------- masks, shifts and unions of fields

  /** len one-bits from lo on. */
  function Mask(lo: nat, len: nat): nat {
    if lo == 0 then Pow2(len) - 1 else 2 * Mask(lo - 1, len)
  }

  /** Bits lo to lo + len - 1 of x. */
  function Field(x: nat, lo: nat, len: nat): (r: nat)
    ensures r < Pow2(len)
  {
    Smaller(x, Pow2(lo));
    x / Pow2(lo) % Pow2(len)
  }

  /** x with every other bit cleared. */
  function InPlace(x: nat, lo: nat, len: nat): nat {
    if lo == 0 then x % Pow2(len) else 2 * InPlace(x / 2, lo - 1, len)
  }

  lemma {:induction false} InPlaceIs(x: nat, lo: nat, len: nat)
    ensures InPlace(x, lo, len) == Field(x, lo, len) * Pow2(lo)
    decreases lo
  {
    if lo == 0 {
      assert x / 1 == x;
    } else {
      InPlaceIs(x / 2, lo - 1, len);
      HalfThenPower(x, Pow2(lo - 1));
      var f := Field(x, lo, len);
      assert f * Pow2(lo) == 2 * (f * Pow2(lo - 1));
    }
  }

  lemma {:induction false} MaskSelects(x: nat, lo: nat, len: nat, n: nat)
    requires lo + len <= n
    ensures Gates(GAnd, x, Mask(lo, len), n) == InPlace(x, lo, len)
    decreases lo
  {
    if lo == 0 {
      LowMask(x, len, n);
    } else {
      MaskSelects(x / 2, lo - 1, len, n - 1);
    }
  }

  lemma {:induction false} MaskIs(lo: nat, len: nat)
    ensures Mask(lo, len) == Pow2(lo + len) - Pow2(lo)
    decreases lo
  {
    if lo > 0 { MaskIs(lo - 1, len); }
  }

  /** A run of len one-bits from lo on, as a mask, selects a field. */
  lemma {:induction false} MaskField(x: Word, m: Word, lo: nat, len: nat)
    requires lo + len <= 32 && m == Pow2(lo + len) - Pow2(lo)
    ensures And(x, m) == Field(x, lo, len) * Pow2(lo)
  {
    Powers();
    Pow2Monotone(lo + len, 32);
    MaskSelects(x, lo, len, 32);
    InPlaceIs(x, lo, len);
    MaskIs(lo, len);
  }

  lemma {:induction false} OrZero(x: nat, n: nat)
    ensures Gates(GOr, 0, x, n) == x % Pow2(n)
    decreases n
  {
    if n == 0 {
      assert x % 1 == 0;
    } else {
      OrZero(x / 2, n - 1);
      ModPow2(x, n);
    }
  }

  /** The union of a low part and a multiple of a higher power is their sum. */
  lemma {:induction false} OrSum(a: nat, b: nat, k: nat, n: nat)
    requires b < Pow2(k) && k <= n && a * Pow2(k) + b < Pow2(n)
    ensures Gates(GOr, b, a * Pow2(k), n) == a * Pow2(k) + b
    decreases k
  {
    if k == 0 {
      OrZero(a, n);
      DivModUnique(a, Pow2(n), 0, a);
    } else {
      assert a * Pow2(k) == 2 * (a * Pow2(k - 1));
      OrSum(a, b / 2, k - 1, n - 1);
    }
  }

  lemma {:induction false} OrCommutes(x: nat, y: nat, n: nat)
    ensures Gates(GOr, x, y, n) == Gates(GOr, y, x, n)
    decreases n
  {
    if n > 0 { OrCommutes(x / 2, y / 2, n - 1); }
  }

  lemma {:induction false} OrAssociates(x: nat, y: nat, z: nat, n: nat)
    ensures Gates(GOr, Gates(GOr, x, y, n), z, n) == Gates(GOr, x, Gates(GOr, y, z, n), n)
    decreases n
  {
    if n > 0 { OrAssociates(x / 2, y / 2, z / 2, n - 1); }
  }

  lemma {:induction false} OrUp(b: Word, x: Word, a: nat, k: nat)
    requires b < Pow2(k) && k <= 32 && x == a * Pow2(k)
    ensures x + b < TWO32 ==> Or(b, x) == Or(x, b) == x + b
  {
    Powers();
    if x + b < TWO32 {
      OrSum(a, b, k, 32);
      OrCommutes(b, x, 32);
    }
  }

  // ------------------------------------------------ immediates (The RISC-V Instruction Set Manual, section 2.3)

  /** n bits as two's complement. */
  function SignExtend(x: nat, n: nat): int
    requires n > 0
  {
    if x < Pow2(n - 1) then x else x - Pow2(n)
  }

  function ImmI(ir: Word): int {
    SignExtend(Field(ir, 20, 12), 12)
  }

  function ImmS(ir: Word): int {
    SignExtend(Field(ir, 25, 7) * 32 + Field(ir, 7, 5), 12)
  }

  function ImmB(ir: Word): int {
    SignExtend(Field(ir, 31, 1) * 4096 + Field(ir, 7, 1) * 2048 + Field(ir, 25, 6) * 32 + Field(ir, 8, 4) * 2, 13)
  }

  function ImmU(ir: Word): nat {
    Field(ir, 12, 20) * 4096
  }

  function ImmJ(ir: Word): int {
    SignExtend(Field(ir, 31, 1) * 0x10_0000 + Field(ir, 12, 8) * 4096 + Field(ir, 20, 1) * 2048
               + Field(ir, 21, 10) * 2, 21)
  }

  /** The same by masks and shifts, as the program computes them. */
  function MaskedI(ir: Word): Word {
    var imm := Right(ir, 20);
    Or(imm, if And(imm, 0x800) != 0 then 0xFFFF_F000 else 0)
  }

  function MaskedS(ir: Word): Word {
    var addy := Or(And(Right(ir, 7), 0x1F), Right(And(ir, 0xFE00_0000), 20));
    if And(addy, 0x800) != 0 then Or(addy, 0xFFFF_F000) else addy
  }

  function MaskedB(ir: Word): Word {
    var immm4 := Or(Or(Or(Right(And(ir, 0xF00), 7), Right(And(ir, 0x7E00_0000), 20)), Left(And(ir, 0x80), 4)),
                    Left(Right(ir, 31), 12));
    if And(immm4, 0x1000) != 0 then Or(immm4, 0xFFFF_E000) else immm4
  }

  function MaskedJ(ir: Word): Word {
    var reladdy := Or(Or(Or(Right(And(ir, 0x8000_0000), 11), Right(And(ir, 0x7FE0_0000), 20)),
                         Right(And(ir, 0x0010_0000), 9)), And(ir, 0x000F_F000));
    if And(reladdy, 0x0010_0000) != 0 then Or(reladdy, 0xFFE0_0000) else reladdy
  }

  /** The top bit of an n-bit number, by mask. */
  lemma {:induction false} TopBit(x: Word, n: nat, sign: Word)
    requires 0 < n <= 32 && x < Pow2(n) && sign == Pow2(n - 1)
    ensures (And(x, sign) != 0) <==> x >= sign
  {
    hide And;
    assert Pow2(n) == 2 * Pow2(n - 1);
    MaskField(x, sign, n - 1, 1);
    hide Pow2;
    var q: nat := if x >= sign then 1 else 0;
    DivModUnique(x, sign, q, x - q * sign);
    assert Pow2(1) == 2 by { Powers(); }
    assert Field(x, n - 1, 1) == q;
  }

  /** The sign bit by mask, and the extension by union. */
  lemma {:induction false} Extend(x: Word, n: nat, sign: Word, ones: Word)
    requires 0 < n < 32 && x < Pow2(n) && sign == Pow2(n - 1) && ones == TWO32 - Pow2(n)
    ensures (if And(x, sign) != 0 then Or(x, ones) else x) == U(SignExtend(x, n))
  {
    TopBit(x, n, sign);
    hide And, Or, Pow2;
    Complement(n);
    OrUp(x, ones, Pow2(32 - n) - 1, n);
  }

  lemma {:induction false} Complement(n: nat)
    requires n < 32
    ensures TWO32 - Pow2(n) == (Pow2(32 - n) - 1) * Pow2(n)
  {
    Powers();
    PowersSum(32 - n, n);
  }

  lemma {:induction false} MaskedUIs(ir: Word)
    ensures And(ir, 0xFFFF_F000) == ImmU(ir)
  {
    Powers();
    hide And, Field, Pow2;
    MaskField(ir, 0xFFFF_F000, 12, 20);
  }

  lemma {:induction false} MaskedIIs(ir: Word)
    ensures MaskedI(ir) == U(ImmI(ir))
  {
    Powers();
    hide And, Or, Pow2;
    var imm := Right(ir, 20);
    TopField(ir, 20);
    OrUp(imm, 0, 0, 12);
    Extend(imm, 12, 0x800, 0xFFFF_F000);
  }

  /** The highest bits are a shift away. */
  lemma {:induction false} TopField(x: Word, lo: nat)
    requires lo <= 32
    ensures Right(x, lo) == Field(x, lo, 32 - lo) < Pow2(32 - lo)
  {
    Powers();
    hide Pow2;
    PowersSum(lo, 32 - lo);
    QuotientBelow(x, Pow2(lo), Pow2(32 - lo));
  }

  lemma {:induction false} QuotientBelow(x: nat, m: nat, n: nat)
    requires m > 0 && n > 0 && x < m * n
    ensures x / m < n && x / m % n == x / m
  {
    var q, r := x / m, x % m;
    assert x == q * m + r;
    assert m * n == n * m;
    if q >= n { MulLe(n, q, m); }
    DivModUnique(q, n, 0, q);
  }

  lemma {:induction false} ShiftDown(f: nat, p: nat, q: nat)
    requires q > 0
    ensures f * (p * q) / q == f * p
  {
    assert f * (p * q) == f * p * q;
    assert f * p >= 0;
    DivModUnique(f * (p * q), q, f * p, 0);
  }

  /** A shift and a mask select a field. */
  lemma {:induction false} FieldOfShift(x: Word, lo: nat, len: nat, m: Word)
    requires len <= 32 && m == Pow2(len) - 1
    ensures And(Right(x, lo), m) == Field(x, lo, len)
  {
    LowMask(Right(x, lo), len, 32);
  }

  /** A mask and a shift move a field down to bit lo - s. */
  lemma {:induction false} FieldMoved(x: Word, m: Word, lo: nat, len: nat, s: nat)
    requires s <= lo && lo + len <= 32 && m == Pow2(lo + len) - Pow2(lo)
    ensures Right(And(x, m), s) == Field(x, lo, len) * Pow2(lo - s)
  {
    MaskField(x, m, lo, len);
    hide And, Pow2, Field;
    PowersSum(lo - s, s);
    ShiftDown(Field(x, lo, len), Pow2(lo - s), Pow2(s));
  }

  lemma {:induction false} MaskedSIs(ir: Word)
    ensures MaskedS(ir) == U(ImmS(ir))
  {
    Powers();
    hide And, Or, Pow2, Right, Field;
    FieldOfShift(ir, 7, 5, 0x1F);
    FieldMoved(ir, 0xFE00_0000, 25, 7, 20);
    var lo, hi := Field(ir, 7, 5), Field(ir, 25, 7);
    OrUp(lo, hi * 32, hi, 5);
    Extend(hi * 32 + lo, 12, 0x800, 0xFFFF_F000);
  }

  lemma {:induction false} MaskedBIs(ir: Word)
    ensures MaskedB(ir) == U(ImmB(ir))
  {
    Powers();
    hide And, Or, Pow2, Right, Field;
    FieldMoved(ir, 0xF00, 8, 4, 7);
    FieldMoved(ir, 0x7E00_0000, 25, 6, 20);
    MaskField(ir, 0x80, 7, 1);
    TopField(ir, 31);
    var a, b, c, d := Field(ir, 8, 4), Field(ir, 25, 6), Field(ir, 7, 1), Field(ir, 31, 1);
    assert Left(And(ir, 0x80), 4) == c * 2048 && Left(Right(ir, 31), 12) == d * 4096;
    OrUp(a * 2, b * 32, b, 5);
    OrUp(b * 32 + a * 2, c * 2048, c, 11);
    OrUp(c * 2048 + b * 32 + a * 2, d * 4096, d, 12);
    Extend(d * 4096 + c * 2048 + b * 32 + a * 2, 13, 0x1000, 0xFFFF_E000);
  }

  lemma {:induction false} MaskedJIs(ir: Word)
    ensures MaskedJ(ir) == U(ImmJ(ir))
  {
    Powers();
    hide And, Or, Pow2, Right, Field;
    FieldMoved(ir, 0x8000_0000, 31, 1, 11);
    FieldMoved(ir, 0x7FE0_0000, 21, 10, 20);
    FieldMoved(ir, 0x0010_0000, 20, 1, 9);
    MaskField(ir, 0x000F_F000, 12, 8);
    var a, b, c, d := Field(ir, 31, 1), Field(ir, 21, 10), Field(ir, 20, 1), Field(ir, 12, 8);
    UnionOfFour(a * 0x10_0000, b * 2, c * 2048, d * 4096);
    OrUp(b * 2, c * 2048, c, 11);
    OrUp(c * 2048 + b * 2, d * 4096, d, 12);
    OrUp(d * 4096 + c * 2048 + b * 2, a * 0x10_0000, a, 20);
    Extend(a * 0x10_0000 + d * 4096 + c * 2048 + b * 2, 21, 0x0010_0000, 0xFFE0_0000);
  }

  lemma {:induction false} UnionOfFour(a: Word, b: Word, c: Word, d: Word)
    ensures Or(Or(Or(a, b), c), d) == Or(a, Or(Or(b, c), d))
  {
    OrAssociates(a, b, c, 32);
    OrAssociates(a, Or(b, c), d, 32);
  }

  // ---------------------------------------------------------------- single bits

  /** A bit that is set can be taken away, and one that is not can be added. */
  lemma {:induction false} HighestBit(x: Word, k: nat)
    requires k < 32
    ensures Field(x, k, 1) * Pow2(k) <= x
    ensures x - Field(x, k, 1) * Pow2(k) + Pow2(k) <= TWO32 - 1
  {
    hide Pow2;
    Powers();
    TopField(x, k);
    PowersSum(k, 32 - k);
    PowerEven(32 - k);
    QuotientParts(x, Pow2(k));
    BitApart(x / Pow2(k), Pow2(32 - k), Pow2(k), x % Pow2(k));
  }

  lemma {:induction false} PowerEven(n: nat)
    requires n > 0
    ensures Pow2(n) == 2 * Pow2(n - 1)
  {
  }

  lemma {:induction false} QuotientParts(x: nat, m: nat)
    requires m > 0
    ensures x == x / m * m + x % m && x / m >= 0
  {
  }

  lemma {:induction false} BitApart(q: nat, n: nat, m: nat, r: nat)
    requires q < n && r < m && n % 2 == 0
    ensures q % 2 * m <= q * m + r
    ensures q * m + r - q % 2 * m + m < m * n
  {
    assert m * n == n * m;
    if q % 2 == 1 {
      MulLe(1, q, m);
      MulLe(q + 1, n, m);
      assert (q + 1) * m == q * m + m;
    } else {
      MulLe(q + 2, n, m);
      assert (q + 2) * m == q * m + 2 * m;
    }
  }

  /** Testing one bit by mask. */
  lemma {:induction false} BitMask(x: Word, m: Word, k: nat)
    requires k < 32 && m == Pow2(k)
    ensures And(x, m) == Field(x, k, 1) * m
    ensures Field(x, k, 1) <= 1 && (And(x, m) != 0 <==> Field(x, k, 1) == 1)
  {
    hide And, Field;
    assert Pow2(k + 1) == 2 * Pow2(k) && Pow2(1) == 2;
    MaskField(x, m, k, 1);
  }

  /** Setting one bit by gates. */
  lemma {:induction false} SetOneBit(x: nat, k: nat, n: nat)
    requires k < n
    ensures Gates(GOr, x, Pow2(k), n) == x % Pow2(n) - InPlace(x, k, 1) + Pow2(k)
    decreases k
  {
    ModPow2(x, n);
    if k == 0 {
      OrZero(x / 2, n - 1);
      OrCommutes(x / 2, 0, n - 1);
      assert Pow2(1) == 2;
    } else {
      SetOneBit(x / 2, k - 1, n - 1);
    }
  }

  /** One gate, and the others on the halves. */
  lemma GatesStep(g: Gate, x: nat, y: nat, n: nat)
    requires n > 0
    ensures Gates(g, x, y, n) == Bit(g, x, y) + 2 * Gates(g, x / 2, y / 2, n - 1)
  {
  }

  lemma InPlaceStep(x: nat, k: nat)
    ensures Pow2(1) == 2
    ensures InPlace(x, k, 1) == if k == 0 then x % 2 else 2 * InPlace(x / 2, k - 1, 1)
  {
    assert Pow2(1) == 2 * Pow2(0);
  }

  /** A mask with one zero: its first bit, and its half. */
  lemma {:induction false} HoleInMask(y: nat, k: nat, n: nat)
    requires k < n && y + 1 + Pow2(k) == Pow2(n)
    ensures if k == 0 then y % 2 == 0 && y / 2 == Pow2(n - 1) - 1
      else y % 2 == 1 && y / 2 + 1 + Pow2(k - 1) == Pow2(n - 1)
  {
    hide Pow2;
    PowerEven(n);
    if k == 0 { AllButFirst(y, n); } else { PowerEven(k); }
  }

  /** The n low bits. */
  function LowBits(x: nat, n: nat): nat {
    x % Pow2(n)
  }

  lemma LowBitsStep(x: nat, n: nat)
    requires n > 0
    ensures LowBits(x, n) == x % 2 + 2 * LowBits(x / 2, n - 1)
    ensures Gates(GAnd, x, Pow2(n) - 1, n) == LowBits(x, n)
    ensures Gates(GAnd, x / 2, Pow2(n - 1) - 1, n - 1) == LowBits(x / 2, n - 1)
  {
    hide Pow2, Gates;
    ModPow2(x, n);
    LowMask(x, n, n);
    LowMask(x / 2, n - 1, n - 1);
  }

  lemma {:induction false} WithoutBit(x: nat, k: nat, n: nat, y: nat)
    requires k < n && y + 1 + Pow2(k) == Pow2(n)
    ensures Gates(GAnd, x, y, n) == LowBits(x, n) - InPlace(x, k, 1)
    decreases k
  {
    hide Pow2, Gates, InPlace, LowBits;
    GatesStep(GAnd, x, y, n);
    InPlaceStep(x, k);
    LowBitsStep(x, n);
    HoleInMask(y, k, n);
    if k > 0 { WithoutBit(x / 2, k - 1, n - 1, y / 2); }
  }

  /** Clearing one bit by gates. */
  lemma {:induction false} ClearOneBit(x: nat, k: nat, n: nat, y: nat)
    requires k < n && y + 1 + Pow2(k) == Pow2(n)
    ensures Gates(GAnd, x, y, n) == x % Pow2(n) - InPlace(x, k, 1)
  {
    hide Pow2, Gates, InPlace;
    WithoutBit(x, k, n, y);
  }

  lemma {:induction false} AllButFirst(y: nat, n: nat)
    requires n > 0 && y + 1 + Pow2(0) == Pow2(n)
    ensures y / 2 == Pow2(n - 1) - 1 && y % 2 == 0 && Pow2(1) == 2
  {
    assert Pow2(1) == 2 * Pow2(0);
  }

  lemma {:induction false} OrBit(x: Word, m: Word, k: nat)
    requires k < 32 && m == Pow2(k)
    ensures Or(x, m) == x - Field(x, k, 1) * m + m
    ensures And(x, Not(m)) == x - Field(x, k, 1) * m
  {
    hide Gates, Pow2, InPlace, Field;
    Powers();
    SetOneBit(x, k, 32);
    ClearOneBit(x, k, 32, Not(m));
    InPlaceIs(x, k, 1);
  }

  /** The two low bits. */
  lemma {:induction false} LowTwo(x: Word)
    ensures And(x, 3) == x % 4 && And(x, Not(3)) == x - x % 4 && Or(x, 3) == x - x % 4 + 3
  {
    hide Pow2, Gates;
    Powers();
    LowMask(x, 2, 32);
    HighMask(x, 2, 32, Not(3));
    OrThree(x, 32);
    OrCommutes(x / 4, 0, 30);
    OrZero(x / 4, 30);
    assert x / 4 % 0x4000_0000 == x / 4;
  }

  lemma {:induction false} OrThree(x: nat, n: nat)
    requires n >= 2
    ensures Gates(GOr, x, 3, n) == 3 + 4 * Gates(GOr, x / 4, 0, n - 2)
  {
    assert x / 2 / 2 == x / 4;
    assert Gates(GOr, x / 2, 1, n - 1) == 1 + 2 * Gates(GOr, x / 2 / 2, 0, n - 2);
  }
}
