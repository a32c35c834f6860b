/** Machine words: signed 32-bit wrap-around, bit operations by gates, and the RV32M division rules. */
module Words {
  datatype Gate = GOr | GXor | GAnd

  predicate IsWord(x: int) {
    -0x8000_0000 <= x < 0x8000_0000
  }

  /** Wrap-around to the signed 32-bit range. */
  function Wrap(x: int): (r: int)
    ensures IsWord(r)
    ensures IsWord(x) ==> r == x
  {
    (x + 0x8000_0000) % 0x1_0000_0000 - 0x8000_0000
  }

  /** A number of 32 bits as two's complement. */
  function Signed(x: int): (r: int)
    ensures 0 <= x < 0x1_0000_0000 ==> IsWord(r)
  {
    if x >= 0x8000_0000 then x - 0x1_0000_0000 else x
  }

  function Abs(x: int): nat {
    if x < 0 then -x else x
  }

  function Min(x: int, y: int): int {
    if x < y then x else y
  }

  function Max(x: int, y: int): int {
    if x > y then x else y
  }

  /** Numbers that differ by a multiple of 2^32 have the same 32-bit part. */
  lemma {:induction false} WrapIs(x: int, y: int, q: int)
    requires x == y + q * 0x1_0000_0000
    ensures Wrap(x) == Wrap(y)
  {
    assert (y + 0x8000_0000 + q * 0x1_0000_0000) % 0x1_0000_0000 == (y + 0x8000_0000) % 0x1_0000_0000;
  }

  /** In a step of Horner's rule wrapping once at the end is enough. */
  lemma {:induction false} WrapStep(x: int, m: int, d: int)
    ensures Wrap(Wrap(x) * m + d) == Wrap(x * m + d)
  {
    var q := (x + 0x8000_0000) / 0x1_0000_0000;
    assert Wrap(x) == x - q * 0x1_0000_0000;
    assert (x - q * 0x1_0000_0000) * m == x * m - q * m * 0x1_0000_0000;
    WrapIs(x * m + d, Wrap(x) * m + d, q * m);
  }

  function Pow2(n: nat): (r: nat)
    ensures r > 0
  {
    if n == 0 then 1 else 2 * Pow2(n - 1)
  }

  function Bit(g: Gate, x: nat, y: nat): nat {
    match g
    case GOr => if x % 2 == 1 || y % 2 == 1 then 1 else 0
    case GXor => if x % 2 != y % 2 then 1 else 0
    case GAnd => if x % 2 == 1 && y % 2 == 1 then 1 else 0
  }

  /** The n low bits of x and y combined gate by gate. */
  function Gates(g: Gate, x: nat, y: nat, n: nat): nat {
    if n == 0 then 0 else Bit(g, x, y) + 2 * Gates(g, x / 2, y / 2, n - 1)
  }

  function Bitwise(g: Gate, x: int, y: int): int {
    Wrap(Gates(g, x % 0x1_0000_0000, y % 0x1_0000_0000, 32))
  }

  function Truth(b: bool): int {
    if b then 1 else 0
  }

  function Shl(x: int, s: int): int {
    Wrap(x * Pow2(s % 32))
  }

  /** Arithmetic shift right: floor division by a power of two. */
  function Shr(x: int, s: int): int {
    Wrap(x / Pow2(s % 32))
  }

  /** Division rounding toward zero, -1 by zero. */
  function Div(x: int, y: int): int {
    if y == 0 then -1
    else
      var q := (if x < 0 then -x else x) / (if y < 0 then -y else y);
      if (x < 0) == (y < 0) then q else -q
  }

  /** The remainder of that division, the dividend by zero. */
  function Remainder(x: int, y: int): int {
    if y == 0 then x else x - y * Div(x, y)
  }

  /** The RV32M DIV and REM instructions. */
  function Quot(x: int, y: int): int {
    Wrap(Div(x, y))
  }

  function Rem(x: int, y: int): int {
    Wrap(Remainder(x, y))
  }

  function Mul(x: int, y: int): int {
    Wrap(x * y)
  }

  // ---------------------------------------------------------------- masks

  /** x & y on 32-bit words. */
  function And32(x: nat, y: nat): nat {
    Gates(GAnd, x, y, 32)
  }

  lemma {:induction false} MulLe(a: int, b: int, m: nat)
    ensures a <= b ==> a * m <= b * m
  {
  }

  lemma {:induction false} Smaller(x: nat, m: nat)
    requires m > 0
    ensures 0 <= x / m <= x
  {
    MulLe(1, m, x / m);
    assert x == x / m * m + x % m;
  }

  lemma {:induction false} DivModUnique(x: nat, m: nat, q: nat, r: nat)
    requires m > 0 && x == q * m + r && r < m
    ensures x / m == q && x % m == r
  {
    var q', r' := x / m, x % m;
    assert x == q' * m + r';
    MulLe(q' + 1, q, m);
    MulLe(q + 1, q', m);
  }

  lemma {:induction false} ModPow2(x: nat, k: nat)
    requires k > 0
    ensures x % Pow2(k) == x % 2 + 2 * (x / 2 % Pow2(k - 1))
  {
    var m := Pow2(k - 1);
    var q, r := x / 2 / m, x / 2 % m;
    assert x / 2 == q * m + r;
    assert x == q * (2 * m) + (2 * r + x % 2) by {
      assert q * (2 * m) == 2 * (q * m);
    }
    DivModUnique(x, 2 * m, q, 2 * r + x % 2);
  }

  lemma {:induction false} AndZero(x: nat, n: nat)
    ensures Gates(GAnd, x, 0, n) == 0
    decreases n
  {
    if n > 0 { AndZero(x / 2, n - 1); }
  }

  /** Masking with 2^k - 1 takes the remainder. */
  lemma {:induction false} LowMask(x: nat, k: nat, n: nat)
    requires k <= n
    ensures Gates(GAnd, x, Pow2(k) - 1, n) == x % Pow2(k)
    decreases n
  {
    if k == 0 {
      AndZero(x, n);
    } else {
      assert (Pow2(k) - 1) / 2 == Pow2(k - 1) - 1 && (Pow2(k) - 1) % 2 == 1;
      LowMask(x / 2, k - 1, n - 1);
      ModPow2(x, k);
    }
  }

  lemma {:induction false} Pow2Monotone(k: nat, n: nat)
    requires k <= n
    ensures Pow2(k) <= Pow2(n)
    decreases n
  {
    if k < n { Pow2Monotone(k, n - 1); }
  }

  lemma {:induction false} WholeRemainder(x: nat, m: nat)
    requires x < m
    ensures x % m == x && x % 1 == 0
  {
    DivModUnique(x, m, 0, x);
  }

  /** Masking with y, the complement of 2^k - 1 in n bits, rounds down. */
  lemma {:induction false} HighMask(x: nat, k: nat, n: nat, y: nat)
    requires k <= n && x < Pow2(n) && y + Pow2(k) == Pow2(n)
    ensures Gates(GAnd, x, y, n) == x - x % Pow2(k)
    decreases n
  {
    if k == 0 {
      LowMask(x, n, n);
      WholeRemainder(x, Pow2(n));
    } else {
      assert y == 2 * (y / 2);
      HighMask(x / 2, k - 1, n - 1, y / 2);
      ModPow2(x, k);
    }
  }

  // ---------------------------------------------------------------- powers of two

  /** The powers that occur as masks and shifts. */
  lemma {:induction false} Powers()
    ensures Pow2(0) == 1 && Pow2(1) == 2 && Pow2(2) == 4 && Pow2(3) == 8 && Pow2(4) == 16 && Pow2(5) == 32
    ensures Pow2(6) == 64 && Pow2(7) == 128 && Pow2(8) == 256 && Pow2(9) == 512 && Pow2(10) == 1024 && Pow2(11) == 2048
    ensures Pow2(12) == 4096 && Pow2(13) == 8192 && Pow2(14) == 0x4000 && Pow2(15) == 0x8000 && Pow2(16) == 0x1_0000
    ensures Pow2(17) == 0x2_0000 && Pow2(18) == 0x4_0000 && Pow2(19) == 0x8_0000 && Pow2(20) == 0x10_0000
    ensures Pow2(21) == 0x20_0000 && Pow2(22) == 0x40_0000 && Pow2(23) == 0x80_0000 && Pow2(24) == 0x100_0000
    ensures Pow2(25) == 0x200_0000 && Pow2(26) == 0x400_0000 && Pow2(27) == 0x800_0000 && Pow2(28) == 0x1000_0000
    ensures Pow2(29) == 0x2000_0000 && Pow2(30) == 0x4000_0000 && Pow2(31) == 0x8000_0000 && Pow2(32) == 0x1_0000_0000
  {
    LowPowers();
    PowersSum(16, 1); PowersSum(16, 2); PowersSum(16, 3); PowersSum(16, 4); PowersSum(16, 5); PowersSum(16, 6);
    PowersSum(16, 7); PowersSum(16, 8); PowersSum(16, 9); PowersSum(16, 10); PowersSum(16, 11); PowersSum(16, 12);
    PowersSum(16, 13); PowersSum(16, 14); PowersSum(16, 15); PowersSum(16, 16);
  }

  lemma {:induction false} LowPowers()
    ensures Pow2(0) == 1 && Pow2(1) == 2 && Pow2(2) == 4 && Pow2(3) == 8 && Pow2(4) == 16 && Pow2(5) == 32
    ensures Pow2(6) == 64 && Pow2(7) == 128 && Pow2(8) == 256 && Pow2(9) == 512 && Pow2(10) == 1024 && Pow2(11) == 2048
    ensures Pow2(12) == 4096 && Pow2(13) == 8192 && Pow2(14) == 0x4000 && Pow2(15) == 0x8000 && Pow2(16) == 0x1_0000
  {
  }

  lemma {:induction false} PowersSum(k: nat, n: nat)
    ensures Pow2(k + n) == Pow2(k) * Pow2(n)
    decreases n
  {
    if n > 0 { PowersSum(k, n - 1); }
  }

  lemma {:induction false} GatesBelow(g: Gate, x: nat, y: nat, n: nat)
    ensures Gates(g, x, y, n) < Pow2(n)
    decreases n
  {
    if n > 0 { GatesBelow(g, x / 2, y / 2, n - 1); }
  }

  // ---------------------------------------------------------------- what the operations mean

  /** Bit i of a number. */
  predicate BitAt(x: nat, i: nat) {
    x / Pow2(i) % 2 == 1
  }

  lemma {:induction false} HalfThenPower(x: nat, m: nat)
    requires m > 0
    ensures x / 2 / m == x / (2 * m)
  {
    var h := x / 2;
    var q, r := h / m, h % m;
    assert h == q * m + r && x == 2 * h + x % 2;
    assert q * (2 * m) == 2 * (q * m);
    DivModUnique(x, 2 * m, q, 2 * r + x % 2);
  }

  lemma GatesHalves(g: Gate, x: nat, y: nat, n: nat)
    requires n > 0
    ensures Gates(g, x, y, n) % 2 == Bit(g, x, y)
    ensures Gates(g, x, y, n) / 2 == Gates(g, x / 2, y / 2, n - 1)
  {
    var b, r := Bit(g, x, y), Gates(g, x / 2, y / 2, n - 1);
    assert Gates(g, x, y, n) == b + 2 * r && b < 2;
    hide Gates, Bit;
  }

  lemma NoPower()
    ensures Pow2(0) == 1
  {
  }

  /** One binary place further. */
  lemma {:induction false} PlaceHalved(x: nat, i: nat)
    requires i > 0
    ensures x / Pow2(i) == x / 2 / Pow2(i - 1)
  {
    HalfThenPower(x, Pow2(i - 1));
  }

  lemma {:induction false} GatesAt(g: Gate, x: nat, y: nat, n: nat, i: nat)
    requires i < n
    ensures Gates(g, x, y, n) / Pow2(i) % 2 == Bit(g, x / Pow2(i), y / Pow2(i))
    decreases i
  {
    hide Gates, Bit, Pow2;
    GatesHalves(g, x, y, n);
    if i == 0 {
      assert Pow2(0) == 1 by { NoPower(); }
    } else {
      GatesAt(g, x / 2, y / 2, n - 1, i - 1);
      PlaceHalved(Gates(g, x, y, n), i);
      PlaceHalved(x, i);
      PlaceHalved(y, i);
    }
  }

  /** The gates work bit by bit. */
  lemma {:induction false} GateBits(x: nat, y: nat, n: nat, i: nat)
    requires i < n
    ensures BitAt(Gates(GOr, x, y, n), i) <==> BitAt(x, i) || BitAt(y, i)
    ensures BitAt(Gates(GXor, x, y, n), i) <==> BitAt(x, i) != BitAt(y, i)
    ensures BitAt(Gates(GAnd, x, y, n), i) <==> BitAt(x, i) && BitAt(y, i)
  {
    hide Gates, Pow2;
    GatesAt(GOr, x, y, n, i);
    GatesAt(GXor, x, y, n, i);
    GatesAt(GAnd, x, y, n, i);
  }

  /** Each of the 32 low bits of v is made of those of x and y. */
  ghost predicate MadeOf(v: nat, x: nat, y: nat, f: (bool, bool) -> bool) {
    forall i: nat :: i < 32 ==> (BitAt(v, i) <==> f(BitAt(x, i), BitAt(y, i)))
  }

  lemma {:induction false} GatesMade(x: nat, y: nat)
    ensures MadeOf(Gates(GOr, x, y, 32), x, y, (a, b) => a || b)
    ensures MadeOf(Gates(GXor, x, y, 32), x, y, (a, b) => a != b)
    ensures MadeOf(Gates(GAnd, x, y, 32), x, y, (a, b) => a && b)
  {
    hide BitAt, Gates;
    forall i: nat | i < 32
      ensures BitAt(Gates(GOr, x, y, 32), i) <==> BitAt(x, i) || BitAt(y, i)
      ensures BitAt(Gates(GXor, x, y, 32), i) <==> BitAt(x, i) != BitAt(y, i)
      ensures BitAt(Gates(GAnd, x, y, 32), i) <==> BitAt(x, i) && BitAt(y, i)
    {
      GateBits(x, y, 32, i);
    }
  }

  /** Quotient and remainder: the quotient is rounded toward zero, the remainder has the dividend's sign. */
  ghost predicate Divides(x: int, y: int, q: int, r: int) {
    x == y * q + r && Abs(r) < Abs(y) && (r == 0 || (r < 0 <==> x < 0))
  }

  lemma {:induction false} DivRemainder(x: int, y: int)
    requires y != 0
    ensures Divides(x, y, Div(x, y), Remainder(x, y))
  {
    var p, q := Abs(x) / Abs(y), Abs(x) % Abs(y);
    assert Abs(x) == Abs(y) * p + q;
    assert Div(x, y) == if (x < 0) == (y < 0) then p else -p;
    Signs(Abs(y), p);
  }

  lemma Signs(a: int, b: int)
    ensures (-a) * (-b) == a * b && a * (-b) == (-a) * b == -(a * b)
  {
  }

  lemma DivAbs(x: int, y: int)
    requires y != 0
    ensures Abs(Div(x, y)) == Abs(x) / Abs(y) && (Div(x, y) == 0 || (Div(x, y) < 0 <==> (x < 0) != (y < 0)))
  {
    Smaller(Abs(x), Abs(y));
  }

  /** How far a quotient and a remainder can go. */
  lemma {:induction false} QuotientSize(x: int, y: int)
    requires y != 0
    ensures Abs(Div(x, y)) <= Abs(x) && (Abs(y) > 1 ==> 2 * Abs(Div(x, y)) <= Abs(x))
    ensures Div(x, y) == 0 || (Div(x, y) < 0 <==> (x < 0) != (y < 0))
    ensures Abs(Remainder(x, y)) < Abs(y)
  {
    hide Div, Remainder;
    DivAbs(x, y);
    DivRemainder(x, y);
    RoundsDown(Abs(x), Abs(y));
    SmallQuotient(Abs(Div(x, y)), Abs(y), Abs(x));
  }

  lemma SmallQuotient(p: nat, y: nat, x: nat)
    requires y > 0 && p * y <= x
    ensures p <= x && (y > 1 ==> 2 * p <= x)
  {
    MulLe(if y > 1 then 2 else 1, y, p);
  }

  /** Division by a positive number rounds down. */
  lemma {:induction false} RoundsDown(x: int, m: int)
    requires m > 0
    ensures x / m * m <= x < (x / m + 1) * m
  {
    assert x == x / m * m + x % m;
  }

  lemma WrapCongruent(x: int)
    ensures (Wrap(x) - x) % 0x1_0000_0000 == 0
  {
    var q := (x + 0x8000_0000) / 0x1_0000_0000;
    assert Wrap(x) - x == -q * 0x1_0000_0000;
  }

  lemma {:induction false} SmallerWord(x: int, p: nat)
    requires IsWord(x) && p > 0
    ensures IsWord(x / p)
  {
    var v := x / p;
    RoundsDown(x, p);
    ByPositive(v, p);
    ByPositive(v + 1, p);
  }

  lemma ByPositive(v: int, p: nat)
    requires p > 0
    ensures (v >= 0 ==> v * p >= v) && (v <= 0 ==> v * p <= v)
  {
  }

  lemma ByZero(x: int)
    ensures Div(x, 0) == -1 && Remainder(x, 0) == x
  {
  }

  /** XOR with ones inverts. */
  lemma {:induction false} Inverted(x: nat, n: nat)
    ensures Gates(GXor, x, Pow2(n) - 1, n) == Pow2(n) - 1 - x % Pow2(n)
    decreases n
  {
    if n == 0 {
      assert x % 1 == 0;
    } else {
      Inverted(x / 2, n - 1);
      ModPow2(x, n);
      assert (Pow2(n) - 1) / 2 == Pow2(n - 1) - 1 && (Pow2(n) - 1) % 2 == 1;
    }
  }

  lemma {:induction false} AllOnes(n: nat, i: nat)
    requires i < n
    ensures BitAt(Pow2(n) - 1, i)
    decreases i
  {
    if i == 0 {
      assert (Pow2(n) - 1) / 1 == Pow2(n) - 1;
    } else {
      assert (Pow2(n) - 1) / 2 == Pow2(n - 1) - 1;
      AllOnes(n - 1, i - 1);
      PlaceHalved(Pow2(n) - 1, i);
    }
  }

  lemma {:induction false} InvertedAt(x: nat, n: nat, i: nat)
    requires i < n && x < Pow2(n)
    ensures BitAt(Pow2(n) - 1 - x, i) <==> !BitAt(x, i)
  {
    hide BitAt, Gates, Pow2;
    Inverted(x, n);
    WholeRemainder(x, Pow2(n));
    GateBits(x, Pow2(n) - 1, n, i);
    AllOnes(n, i);
  }
}
