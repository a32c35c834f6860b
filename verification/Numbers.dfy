/** Printing and reading integers with the iostream classes: the reader's overflow test and the round trip. */
module Numbers {
  import opened Wrappers
  import opened Words
  import opened RvCore
  import opened RvBits

  datatype Basefield = Oct | Dec | Hex
  datatype Adjust = LeftAdjust | RightAdjust | Internal

  datatype Flags = Flags(basefield: Basefield, uppercase: bool, showbase: bool, showpos: bool, adjust: Adjust) {
    function Base(): (b: nat)
      ensures b in {8, 10, 16}
    {
      match basefield
      case Oct => 8
      case Dec => 10
      case Hex => 16
    }
  }

  // ---------------------------------------------------------------- digits and their value

  function DigitChar(d: nat, upper: bool): char
    requires d < 16
  {
    if d < 10 then '0' + d as char else (if upper then 'A' else 'a') + (d - 10) as char
  }

  /** The digit that a letter or figure stands for, -1 for other characters. */
  function DigitOf(c: char): int {
    if '0' <= c <= '9' then c as int - '0' as int
    else if 'A' <= c <= 'Z' then c as int - 'A' as int + 10
    else if 'a' <= c <= 'z' then c as int - 'a' as int + 10
    else -1
  }

  predicate IsDigit(c: char, base: nat) {
    0 <= DigitOf(c) < base
  }

  predicate AllDigits(s: seq<char>, base: nat) {
    forall k :: 0 <= k < |s| ==> IsDigit(s[k], base)
  }

  function Value(s: seq<char>, base: nat): (v: nat)
    requires AllDigits(s, base)
  {
    if s == [] then 0 else Value(s[..|s| - 1], base) * base + DigitOf(s[|s| - 1])
  }

  /** A number's digits in a base, highest first. */
  function Digits(n: nat, base: nat, upper: bool): (s: seq<char>)
    requires 2 <= base <= 16
    ensures |s| > 0
    decreases n
  {
    if n < base then [DigitChar(n, upper)]
    else
      Quotient(n, base);
      Digits(n / base, base, upper) + [DigitChar(n % base, upper)]
  }

  lemma {:induction false} Quotient(n: nat, base: nat)
    requires 2 <= base
    ensures 0 <= n / base && n == n / base * base + n % base && n % base == n - base * (n / base)
    ensures n >= base ==> n / base < n
    ensures n < base ==> n / base == 0 && n % base == n
  {
    Smaller(n, base);
    if n >= base { MulLe(n, n / base, base); }
    if n < base { DivModUnique(n, base, 0, n); }
    assert base * (n / base) == n / base * base;
    assert n > 0 ==> n * base >= n * 2;
  }

  lemma {:induction false} LastDigit(n: nat, base: nat, upper: bool)
    requires base in {8, 10, 16}
    ensures 0 <= n / base
    ensures Digits(n, base, upper)
         == (if n < base then [] else Digits(n / base, base, upper)) + [DigitChar(n % base, upper)]
  {
    hide DigitChar;
    Quotient(n, base);
  }

  lemma {:induction false} DigitBack(d: nat, upper: bool)
    requires d < 16
    ensures DigitOf(DigitChar(d, upper)) == d
  {
  }

  /** The digits of a number have its value. */
  lemma {:induction false} ValueOfDigits(n: nat, base: nat, upper: bool)
    requires base in {8, 10, 16}
    ensures AllDigits(Digits(n, base, upper), base) && Value(Digits(n, base, upper), base) == n
    decreases n
  {
    hide DigitOf, DigitChar;
    DigitBack(n % base, upper);
    if n < base {
      var s := [DigitChar(n, upper)];
      assert s[..0] == [];
    } else {
      Quotient(n, base);
      ValueOfDigits(n / base, base, upper);
      var s, t := Digits(n, base, upper), Digits(n / base, base, upper);
      assert s[..|s| - 1] == t;
    }
  }

  /** A 32-bit number has at most 11 digits in base 8, and fewer in the others. */
  lemma {:induction false} DigitCount(n: nat, k: nat, bound: nat, base: nat, upper: bool)
    requires base in {8, 10, 16} && k > 0 && n < bound && bound <= Power(base, k)
    ensures |Digits(n, base, upper)| <= k
    decreases k
  {
    hide DigitChar;
    assert Power(base, 1) == base * Power(base, 0);
    if k > 1 && n >= base {
      QuotientBelow(n, base, Power(base, k - 1));
      DigitCount(n / base, k - 1, Power(base, k - 1), base, upper);
    }
  }

  function Power(b: nat, k: nat): nat {
    if k == 0 then 1 else b * Power(b, k - 1)
  }

  /** Room for the digits of a 32-bit number. */
  lemma {:induction false} DigitRoom(n: Word, base: nat, upper: bool)
    requires base in {8, 10, 16}
    ensures |Digits(n, base, upper)| <= if base == 8 then 11 else if base == 10 then 10 else 8
  {
    hide Digits;
    PowersOfBases();
    DigitCount(n, if base == 8 then 11 else if base == 10 then 10 else 8, TWO32, base, upper);
  }

  lemma {:induction false} PowersOfBases()
    ensures Power(8, 11) >= TWO32 && Power(10, 10) >= TWO32 && Power(16, 8) >= TWO32
  {
    assert Power(8, 3) == 512 && Power(8, 6) == 0x4_0000 && Power(8, 9) == 0x800_0000;
    assert Power(10, 3) == 1000 && Power(10, 6) == 1000000 && Power(10, 9) == 1000000000;
    assert Power(16, 3) == 4096 && Power(16, 6) == 0x100_0000;
  }

  // ---------------------------------------------------------------- printing

  /** What stands before the digits. */
  function Prefix(f: Flags, neg: bool): seq<char> {
    match f.basefield
    case Dec => if neg then ['-'] else if f.showpos then ['+'] else []
    case Oct => if f.showbase then ['0'] else []
    case Hex => if f.showbase then ['0', if f.uppercase then 'X' else 'x'] else []
  }

  function Text(n: Word, f: Flags, neg: bool): (s: seq<char>)
    ensures |s| > 0
  {
    Prefix(f, neg) + Digits(n, f.Base(), f.uppercase)
  }

  function Fill(c: char, len: nat, width: nat): seq<char> {
    if len < width then seq(width - len, _ => c) else []
  }

  /** The text in its field. */
  function Padded(n: Word, f: Flags, neg: bool, fill: char, width: nat): seq<char> {
    var pad := Fill(fill, |Text(n, f, neg)|, width);
    match f.adjust
    case Internal => Prefix(f, neg) + pad + Digits(n, f.Base(), f.uppercase)
    case LeftAdjust => Text(n, f, neg) + pad
    case RightAdjust => pad + Text(n, f, neg)
  }

  const BUFFER := 13  // (8 * sizeof(uint32_t) + 2) / 3 + 2

  /** Digits above 9 are letters of the case asked for. */
  lemma {:induction false} DigitCase(n: nat, base: nat, upper: bool)
    requires base in {8, 10, 16}
    ensures forall c :: c in Digits(n, base, upper) ==>
      '0' <= c <= '9' || (base == 16 && if upper then 'A' <= c <= 'F' else 'a' <= c <= 'f')
    decreases n
  {
    Quotient(n, base);
    if n >= base { DigitCase(n / base, base, upper); }
  }

  ghost predicate OnlyFill(s: seq<char>, fill: char) {
    forall c :: c in s ==> c == fill
  }

  /** The field is as wide as asked, or as the text if that is wider, and the rest of it is filled: before the text,
      behind it, or between what stands before the digits and the digits. */
  lemma {:induction false} FieldIs(n: Word, f: Flags, neg: bool, fill: char, width: nat)
    ensures var s, t := Padded(n, f, neg, fill, width), Text(n, f, neg);
      var k, p := |s| - |t|, |Prefix(f, neg)|;
      && |s| == Max(width, |t|) && k >= 0 && t[..p] == Prefix(f, neg)
      && match f.adjust
         case RightAdjust => OnlyFill(s[..k], fill) && s[k..] == t
         case LeftAdjust => s[..|t|] == t && OnlyFill(s[|t|..], fill)
         case Internal => s[..p] == t[..p] && OnlyFill(s[p..p + k], fill) && s[p + k..] == t[p..]
  {
    hide Prefix, Digits;
    var ds := Digits(n, f.Base(), f.uppercase);
    var pad := Fill(fill, |Text(n, f, neg)|, width);
    var s := Padded(n, f, neg, fill, width);
    if f.adjust == Internal {
      assert s[|Prefix(f, neg)|..|Prefix(f, neg)| + |pad|] == pad;
    }
  }

  /** A sign in base 10 only; the base's mark in the others if it is asked for. */
  lemma {:induction false} PrefixIs(f: Flags, neg: bool)
    ensures f.Base() == 10 ==> ('-' in Prefix(f, neg) <==> neg) && ('+' in Prefix(f, neg) <==> f.showpos && !neg)
    ensures f.Base() != 10 && !f.showbase ==> Prefix(f, neg) == []
    ensures f.Base() == 8 && f.showbase ==> Prefix(f, neg) == "0"
    ensures f.Base() == 16 && f.showbase ==> Prefix(f, neg) == if f.uppercase then "0X" else "0x"
    ensures |Prefix(f, neg)| <= if f.Base() == 16 then 2 else 1
  {
  }

  class OStream {
    const flags: Flags
    const fill: char
    var width: nat
    var out: seq<char>

    constructor (flags: Flags, fill: char, width: nat)
      ensures this.flags == flags && this.fill == fill && this.width == width && out == []
    {
      this.flags, this.fill, this.width, out := flags, fill, width, [];
    }

    method Putch(c: char)
      modifies this`out
      ensures out == old(out) + [c]
    {
      out := out + [c];
    }

    method DoFill(len: nat)
      modifies this`out, this`width
      ensures width == 0 && out == old(out) + Fill(fill, len, old(width))
    {
      var n := len;
      ghost var done: nat := 0;
      while n < width
        invariant width == old(width) && n == len + done && (len < width ==> n <= width) && (len >= width ==> done == 0)
        invariant out == old(out) + seq(done, _ => fill)
      {
        Putch(fill);
        n, done := n + 1, done + 1;
      }
      width := 0;
    }

    /** fmtNum: the digits, written backwards from ptr. */
    method FmtNum(num: Word, buf: array<char>, ptr: nat) returns (p: nat)
      requires ptr == BUFFER - 1 && buf.Length == BUFFER
      modifies buf
      ensures p <= ptr && buf[p..ptr] == Digits(num, flags.Base(), flags.uppercase) && buf[ptr] == old(buf[ptr])
      ensures p >= if flags.Base() == 8 then 1 else if flags.Base() == 10 then 2 else 4
    {
      hide DigitChar, Digits;
      ghost var upper := flags.uppercase;
      var base := flags.Base();
      DigitRoom(num, base, upper);
      ghost var all := Digits(num, base, upper);
      p := ptr;
      var n: nat := num;
      var more := true;
      while more
        invariant p <= ptr && buf[ptr] == old(buf[ptr])
        invariant more ==> all == Digits(n, base, upper) + buf[p..ptr]
        invariant !more ==> all == buf[p..ptr]
        decreases more, n
      {
        var m := n;
        Quotient(n, base);
        LastDigit(n, base, upper);
        n := n / base;
        var c := m - base * n;
        p := p - 1;
        buf[p] := DigitChar(c, flags.uppercase);
        assert buf[p..ptr] == [DigitChar(c, upper)] + buf[p + 1..ptr];
        more := n != 0;
      }
    }
  
    method PutStr(s: seq<char>)
      modifies this`out
      ensures out == old(out) + s
    {
      out := out + s;
    }

    /** What putNum writes before the digits, ending at buf[num]. */
    method PutPrefix(buf: array<char>, num: nat, neg: bool) returns (str: nat)
      requires buf.Length == BUFFER && num < BUFFER
      requires num >= if flags.Base() == 8 then 1 else if flags.Base() == 10 then 2 else 4
      modifies buf
      ensures str <= num && buf[str..num] == Prefix(flags, neg) && buf[num..] == old(buf[num..])
    {
      str := num;
      if flags.basefield == Dec {
        if neg {
          str := str - 1;
          buf[str] := '-';
        } else if flags.showpos {
          str := str - 1;
          buf[str] := '+';
        }
      } else if flags.showbase {
        if flags.basefield == Hex {
          str := str - 1;
          buf[str] := if flags.uppercase then 'X' else 'x';
        }
        str := str - 1;
        buf[str] := '0';
      }
    }

    /** putNum: the number in its field; the buffer is large enough. */
    method PutNum(n: Word, neg: bool)
      modifies this`out, this`width
      ensures out == old(out) + Padded(n, flags, neg, fill, old(width)) && width == 0
    {
      hide Digits, Fill, Prefix;
      var buf := new char[BUFFER](_ => '\0');
      var ptr := BUFFER - 1;
      var num := FmtNum(n, buf, ptr);
      ghost var digits := buf[num..ptr];
      ghost var tail := buf[num..];
      var str := PutPrefix(buf, num, neg);
      assert buf[num..ptr] == digits by { assert tail[..ptr - num] == digits; }
      assert buf[str..ptr] == buf[str..num] + buf[num..ptr];
      PutField(buf[str..num], buf[num..ptr]);
    }

    /** Prefix and digits in their field. */
    method PutField(prefix: seq<char>, digits: seq<char>)
      modifies this`out, this`width
      ensures width == 0
      ensures var pad := Fill(fill, |prefix| + |digits|, old(width));
        out == old(out) + match flags.adjust
                          case Internal => prefix + pad + digits
                          case LeftAdjust => prefix + digits + pad
                          case RightAdjust => pad + (prefix + digits)
    {
      hide Fill;
      var len := |prefix| + |digits|;
      NoFill(fill, len);
      var str := prefix + digits;
      if flags.adjust == Internal {
        PutStr(prefix);
        str := digits;
        DoFill(len);
      } else if flags.adjust != LeftAdjust {
        DoFill(len);
      }
      PutStr(str);
      DoFill(len);
    }

    lemma NoFill(c: char, len: nat)
      ensures Fill(c, len, 0) == []
    {
    }

    /** putNum of a signed number: only base 10 shows a sign. */
    method PutInt(n: int)
      requires -0x8000_0000 <= n < 0x8000_0000
      modifies this`out, this`width
      ensures var neg := Negative(n, flags);
        out == old(out) + Padded(U(if neg then -n else n), flags, neg, fill, old(width))
      ensures width == 0
    {
      var neg := n < 0 && flags.Base() == 10;
      PutNum(U(if neg then -n else n), neg);
    }
  }

  predicate Negative(n: int, f: Flags) {
    n < 0 && f.basefield == Dec
  }

  // ---------------------------------------------------------------- reading

  predicate IsSpace(c: char) {
    c == ' ' || '\t' <= c <= '\r'
  }

  predicate IsX(c: char) {
    c == 'x' || c == 'X'
  }

  /** How many characters from the start of s are spaces. */
  function Spaces(s: seq<char>): (n: nat)
    ensures n <= |s| && (n < |s| ==> !IsSpace(s[n])) && forall k :: 0 <= k < n ==> IsSpace(s[k])
  {
    if s != [] && IsSpace(s[0]) then 1 + Spaces(s[1..]) else 0
  }

  /** How many characters from the start of s are digits. */
  function Run(s: seq<char>, base: nat): (n: nat)
    ensures n <= |s| && AllDigits(s[..n], base) && (n < |s| ==> !IsDigit(s[n], base))
  {
    if s != [] && IsDigit(s[0], base) then 1 + Run(s[1..], base) else 0
  }

  /** The longest prefix of a digit string whose value is at most the limit. */
  function Within(s: seq<char>, base: nat, limit: nat): (n: nat)
    requires AllDigits(s, base)
    ensures n <= |s|
    ensures Value(s[..n], base) <= limit
    ensures n < |s| ==> Value(s[..n + 1], base) > limit
  {
    if s == [] then 0
    else
      var k := Within(s[..|s| - 1], base, limit);
      assert s[..|s| - 1][..k] == s[..k];
      assert k + 1 < |s| ==> s[..|s| - 1][..k + 1] == s[..k + 1];
      assert s[..|s|] == s;
      if k == |s| - 1 && Value(s, base) <= limit then |s| else k
  }

  /** What a read gives: the number if there is one, and how far the stream has moved. */
  datatype Reading = Got(num: Word, moved: nat) | Fail(moved: nat)

  /** What comes before the digits: a sign, and in base 16 an x with the position behind the 0 before it. */
  datatype Lead = Lead(neg: bool, zerox: bool, zero: nat, first: nat)

  function LeadOf(s: seq<char>, base: nat): (l: Lead)
    ensures l.first <= |s| && l.zero <= |s|
  {
    hide Spaces;
    var a := Spaces(s);
    var b := if a < |s| && (s[a] == '-' || s[a] == '+') then a + 1 else a;
    var zerox := base == 16 && b + 1 < |s| && s[b] == '0' && IsX(s[b + 1]);
    Lead(a < |s| && s[a] == '-', zerox, if zerox then b + 1 else b, if zerox then b + 2 else b)
  }

  function DigitsAt(s: seq<char>, first: nat, base: nat): (ds: seq<char>)
    requires first <= |s|
    ensures first + |ds| <= |s| && AllDigits(ds, base)
  {
    hide DigitOf, AllDigits;
    s[first..][..Run(s[first..], base)]
  }

  /** Reading from the characters s: spaces, a sign, in base 16 an optional 0x, digits. */
  function Expected(s: seq<char>, base: nat, posMax: Word, negMax: Word): Reading
    requires base in {8, 10, 16}
  {
    hide LeadOf, DigitsAt, AllDigits, Within;
    var l := LeadOf(s, base);
    var ds := DigitsAt(s, l.first, base);
    var limit := if l.neg then negMax else posMax;
    var k := Within(ds, base, limit);
    var back := if l.zerox then l.zero else 0;
    if ds == [] then if l.zerox then Got(0, back) else Fail(back)
    else if k < |ds| then Fail(if k > 0 then l.first + k else back)
    else
      var v: int := Value(ds, base);
      Got(U(if l.neg then -v else v), l.first + |ds|)
  }

  lemma {:induction false} RunIs(s: seq<char>, base: nat, n: nat)
    requires n <= |s| && AllDigits(s[..n], base)
    ensures Run(s, base) >= n && (n == |s| || !IsDigit(s[n], base) ==> Run(s, base) == n)
  {
    hide DigitOf;
    var r := Run(s, base);
    assert forall k :: 0 <= k < n ==> s[..n][k] == s[k];
    assert forall k :: 0 <= k < r ==> s[..r][k] == s[k];
  }

  lemma {:induction false} ValueGrows(s: seq<char>, base: nat, k: nat, n: nat)
    requires k <= n <= |s| && AllDigits(s, base) && base > 0
    ensures Value(s[..k], base) <= Value(s[..n], base)
    decreases n
  {
    if k < n {
      ValueGrows(s, base, k, n - 1);
      assert s[..n][..n - 1] == s[..n - 1];
      var v := Value(s[..n - 1], base);
      MulLe(1, base, v);
      assert v * base == base * v;
    }
  }

  lemma {:induction false} WithinIs(s: seq<char>, base: nat, limit: nat, n: nat)
    requires n <= |s| && AllDigits(s, base) && base > 0
    requires Value(s[..n], base) <= limit && (n < |s| ==> Value(s[..n + 1], base) > limit)
    ensures Within(s, base, limit) == n
  {
    hide Within, Value;
    var k := Within(s, base, limit);
    if k < n { ValueGrows(s, base, k + 1, n); }
    if n < k { ValueGrows(s, base, n + 1, k); }
  }

  /** The test for overflow before the multiplication. */
  lemma {:induction false} CutTest(val: nat, d: nat, limit: nat, base: nat)
    requires base in {8, 10, 16} && d < base
    ensures (val > limit / base || (val == limit / base && d > limit % base)) <==> val * base + d > limit
  {
    var q := limit / base;
    Quotient(limit, base);
    MulLe(val + 1, q, base);
    MulLe(q + 1, val, base);
    assert (val + 1) * base == val * base + base && (q + 1) * base == q * base + base;
  }

  class IStream {
    const input: seq<char>
    const base: nat
    var pos: nat
    var fail: bool

    constructor (input: seq<char>, base: nat)
      requires base in {8, 10, 16}
      ensures this.input == input && this.base == base && pos == 0 && !fail
    {
      this.input, this.base, pos, fail := input, base, 0, false;
    }

    ghost predicate Valid()
      reads this
    {
      base in {8, 10, 16} && pos <= |input|
    }

    /** The next character, or None at the end. */
    method Getch() returns (c: Option<char>)
      requires Valid()
      modifies this`pos
      ensures Valid() && c == CharAt(old(pos)) && pos == Next(old(pos))
    {
      c := CharAt(pos);
      pos := Next(pos);
    }

    function CharAt(p: nat): Option<char> {
      if p < |input| then Some(input[p]) else None
    }

    function Next(p: nat): nat {
      if p < |input| then p + 1 else p
    }

    method ReadSkip() returns (c: Option<char>, ghost a: nat)
      requires Valid()
      modifies this`pos
      ensures Valid() && a == old(pos) + Spaces(input[old(pos)..]) && c == CharAt(a) && pos == Next(a)
    {
      ghost var s := input[pos..];
      a := pos;
      c := Getch();
      while c.Some? && IsSpace(c.value)
        invariant Valid() && a <= |input| && c == CharAt(a) && pos == Next(a)
        invariant a + Spaces(input[a..]) == old(pos) + Spaces(s)
        decreases |input| - a
      {
        assert input[a..][1..] == input[a + 1..];
        a := pos;
        c := Getch();
      }
    }
  
    /** The digits read so far, from `first` to p, are worth val, which is within the limit. */
    ghost predicate ReadSoFar(first: nat, p: nat, val: nat, limit: nat) {
      && first <= p <= |input| && AllDigits(input[first..p], base) && val == Value(input[first..p], base) <= limit
    }

    /** One more digit. */
    lemma {:induction false} DigitRead(first: nat, p: nat, val: nat, limit: nat)
      requires ReadSoFar(first, p, val, limit) && p < |input| && IsDigit(input[p], base)
      ensures AllDigits(input[first..p + 1], base)
      ensures Value(input[first..p + 1], base) == val * base + DigitOf(input[p])
    {
      hide DigitOf;
      var t := input[first..p + 1];
      assert t[..|t| - 1] == input[first..p] && t[|t| - 1] == input[p];
      forall k | 0 <= k < |t|
        ensures IsDigit(t[k], base)
      {
        if k < |t| - 1 { assert IsDigit(input[first..p][k], base); }
      }
    }

    /** The loop stops at p: at a character that is no digit, or at one too many. */
    lemma {:induction false} StoppedAt(first: nat, p: nat, val: nat, limit: nat, over: bool)
      requires ReadSoFar(first, p, val, limit) && base > 0
      requires if over then p < |input| && IsDigit(input[p], base) && val * base + DigitOf(input[p]) > limit
               else p == |input| || !IsDigit(input[p], base)
      ensures var ds := DigitsAt(input, first, base);
        && (over ==> |ds| > p - first) && (!over ==> |ds| == p - first && Value(ds, base) == val)
        && Within(ds, base, limit) == p - first
    {
      hide DigitOf, AllDigits, Within;
      var s := input[first..];
      var ds := DigitsAt(input, first, base);
      assert s[..p - first] == input[first..p];
      RunIs(s, base, p - first);
      if over {
        DigitRead(first, p, val, limit);
        assert s[..p + 1 - first] == input[first..p + 1];
        RunIs(s, base, p + 1 - first);
        assert ds[..p + 1 - first] == input[first..p + 1];
      }
      assert ds[..p - first] == input[first..p];
      WithinIs(ds, base, limit, p - first);
    }

    /** The loop over the digits, starting with c at p; `any` tells whether a digit was read, -1 means overflow. */
    method ReadDigits(c0: Option<char>, ghost p0: nat, ghost first: nat, endPos0: nat, any0: int, limit: Word)
        returns (val: nat, any: int, endPos: nat)
      requires Valid() && c0 == CharAt(p0) && pos == Next(p0) && ReadSoFar(first, p0, 0, limit)
      requires any0 == (if p0 > first then 1 else 0) && (p0 > first ==> endPos0 == p0)
      modifies this`pos
      ensures var ds := DigitsAt(input, first, base);
        var k := Within(ds, base, limit);
        && k >= p0 - first && (any == -1 <==> k < |ds|) && (any == 0 <==> ds == [])
        && (any == 1 <==> ds != [] && k == |ds|)
        && (any == 1 ==> val == Value(ds, base) && endPos == first + |ds|)
        && (any == 0 ==> val == 0 && endPos == endPos0)
        && (any == -1 ==> endPos == if k > p0 - first then first + k else endPos0)
      ensures Valid()
    {
      hide DigitOf, DigitsAt, Within;
      var cutoff, cutlim := limit / base, limit % base;
      var c := c0;
      val, any, endPos := 0, any0, endPos0;
      ghost var p := p0;
      while true
        invariant Valid() && p >= p0 && c == CharAt(p) && pos == Next(p) && ReadSoFar(first, p, val, limit)
        invariant any == (if p > first then 1 else 0) && endPos == if p > p0 then p else endPos0
        decreases |input| - p
      {
        if c == None || !IsDigit(c.value, base) {
          StoppedAt(first, p, val, limit, false);
          break;
        }
        var d := DigitOf(c.value);
        CutTest(val, d, limit, base);
        if val > cutoff || (val == cutoff && d > cutlim) {
          StoppedAt(first, p, val, limit, true);
          any := -1;
          break;
        }
        DigitRead(first, p, val, limit);
        val := val * base + d;
        endPos := pos;
        p := pos;
        c := Getch();
        any := 1;
      }
    }
  
    /** Everything up to the digits; a 0 that turns out not to be followed by x counts as a digit. */
    method ReadLead() returns (c: Option<char>, neg: bool, haveZero: bool, any: int, endPos: nat, ghost p: nat,
                    ghost first: nat)
      requires Valid()
      modifies this`pos
      ensures Valid() && c == CharAt(p) && pos == Next(p) && first <= |input|
      ensures p == first || (base == 16 && p == first + 1 <= |input| && input[first] == '0')
      ensures var l := LeadOf(input[old(pos)..], base);
        && neg == l.neg && haveZero == l.zerox && first == old(pos) + l.first
        && any == (if p > first then 1 else 0)
        && endPos == if p > first then p else if l.zerox then old(pos) + l.zero else old(pos)
    {
      hide Spaces, IsSpace, LeadOf;
      ghost var start := pos;
      endPos := pos;
      any, haveZero := 0, false;
      c, p := ReadSkip();
      neg := c == Some('-');
      if c == Some('-') || c == Some('+') {
        p := pos;
        c := Getch();
      }
      first := p;
      if base == 16 && c == Some('0') {
        endPos, p := pos, pos;
        c := Getch();
        if c.Some? && IsX(c.value) {
          first, p := pos, pos;
          c := Getch();
          haveZero := true;
        } else {
          any := 1;
        }
      }
      LeadIs(start, neg, haveZero, first);
    }

    /** getNumber: the number, and where the stream stands afterwards; failure sets failbit. */
    method GetNumber(posMax: Word, negMax: Word) returns (num: Option<Word>)
      requires Valid()
      modifies this
      ensures Valid()
      ensures match Expected(input[old(pos)..], base, posMax, negMax)
              case Got(n, moved) => num == Some(n) && pos == old(pos) + moved && fail == old(fail)
              case Fail(moved) => num == None && pos == old(pos) + moved && fail
    {
      hide DigitOf, AllDigits, Within, Value, LeadOf, DigitsAt;
      ghost var start := pos;
      var c, neg, haveZero, any, endPos, p, first := ReadLead();
      var limit := if neg then negMax else posMax;
      StartDigits(first, p, limit);
      SameDigits(start, first);
      var val, got, end := ReadDigits(c, p, first, endPos, any, limit);
      pos := end;
      if got > 0 || (haveZero && got >= 0) {
        var v: int := val;
        num := Some(U(if neg then -v else v));
      } else {
        fail := true;
        num := None;
      }
    }

    lemma SameDigits(start: nat, first: nat)
      requires start <= first <= |input|
      ensures DigitsAt(input, first, base) == DigitsAt(input[start..], first - start, base)
    {
      hide DigitOf, AllDigits;
      assert input[start..][first - start..] == input[first..];
    }

    /** What the code found before the digits is what the characters say. */
    lemma LeadIs(start: nat, neg: bool, zerox: bool, first: nat)
      requires start <= |input|
      requires var a := start + Spaces(input[start..]);
        var b := if CharAt(a) == Some('-') || CharAt(a) == Some('+') then a + 1 else a;
        && neg == (CharAt(a) == Some('-'))
        && zerox == (base == 16 && CharAt(b) == Some('0') && b + 1 < |input| && IsX(input[b + 1]))
        && first == if zerox then b + 2 else b
      ensures var l := LeadOf(input[start..], base);
        l.neg == neg && l.zerox == zerox && start + l.first == first <= |input|
          && start + l.zero == if zerox then first - 1 else first
    {
      hide Spaces;
    }

    lemma StartDigits(first: nat, p: nat, limit: nat)
      requires first <= |input| && base in {8, 10, 16}
      requires p == first || (base == 16 && p == first + 1 <= |input| && input[first] == '0')
      ensures ReadSoFar(first, p, 0, limit)
    {
      assert input[first..first] == [];
      if p == first + 1 { assert input[first..p] == ['0'] && ['0'][..0] == []; }
    }
  }

  // ---------------------------------------------------------------- the round trip

  /** What follows goes on with the number: a further digit. */
  predicate GoesOn(rest: seq<char>, base: nat) {
    rest != [] && IsDigit(rest[0], base)
  }

  /** A 0 printed in base 16 without its base, with an x behind it, looks like the start of 0x. */
  predicate LoneZeroX(n: Word, f: Flags, rest: seq<char>) {
    f.basefield == Hex && !f.showbase && n == 0 && rest != [] && IsX(rest[0])
  }

  /** What follows is taken for a part of the number. */
  predicate ReadsOn(n: Word, f: Flags, rest: seq<char>) {
    GoesOn(rest, f.Base()) || (LoneZeroX(n, f, rest) && GoesOn(rest[1..], 16))
  }

  lemma NoSpace(s: seq<char>)
    requires s != [] && !IsSpace(s[0])
    ensures Spaces(s) == 0
  {
  }

  lemma DigitsNotSpace(c: char, base: nat)
    requires IsDigit(c, base)
    ensures !IsSpace(c) && c != '-' && c != '+' && (base <= 16 ==> !IsX(c))
  {
  }

  /** Digits in front: they are what is read, unless another one follows. */
  lemma {:induction false} DigitsInFront(s: seq<char>, first: nat, ds: seq<char>, rest: seq<char>, base: nat)
    requires first <= |s| && s[first..] == ds + rest && AllDigits(ds, base)
    ensures GoesOn(rest, base) ==> |DigitsAt(s, first, base)| > |ds|
    ensures !GoesOn(rest, base) ==> DigitsAt(s, first, base) == ds
  {
    hide DigitOf;
    assert (ds + rest)[..|ds|] == ds;
    RunIs(ds + rest, base, |ds|);
    if GoesOn(rest, base) {
      assert (ds + rest)[..|ds| + 1] == ds + [rest[0]];
      RunIs(ds + rest, base, |ds| + 1);
    }
  }

  /** A digit string is read in full exactly when its value is within the limit. */
  lemma {:induction false} ReadInFull(ds: seq<char>, base: nat, limit: nat)
    requires AllDigits(ds, base) && base > 0
    ensures Within(ds, base, limit) == |ds| <==> Value(ds, base) <= limit
  {
    assert ds[..|ds|] == ds;
    if Value(ds, base) <= limit { WithinIs(ds, base, limit, |ds|); }
  }

  /** What stands before the digits in the text of a number, as the reader sees it. */
  lemma {:induction false} LeadOfText(f: Flags, neg: bool, ds: seq<char>, rest: seq<char>)
    requires ds != [] && AllDigits(ds, f.Base())
    requires f.basefield == Hex && !f.showbase && ds[0] == '0' ==> ds == ['0'] && (rest == [] || !IsX(rest[0]))
    ensures var l := LeadOf(Prefix(f, neg) + ds + rest, f.Base());
      && l.neg == (neg && f.basefield == Dec)
      && l.first == if f.basefield == Oct then 0 else |Prefix(f, neg)|
  {
    hide DigitOf;
    var s := Prefix(f, neg) + ds + rest;
    DigitsNotSpace(ds[0], f.Base());
    assert s[0] == if Prefix(f, neg) == [] then ds[0] else Prefix(f, neg)[0];
    NoSpace(s);
    if f.basefield == Hex && !f.showbase && |ds| > 1 {
      assert s[1] == ds[1];
      DigitsNotSpace(ds[1], 16);
    }
  }

  /** The first digit is 0 only for 0 itself. */
  lemma {:induction false} LeadingDigit(n: nat, base: nat, upper: bool)
    requires base in {8, 10, 16}
    ensures Digits(n, base, upper)[0] == '0' ==> n == 0
    decreases n
  {
    Quotient(n, base);
    if n >= base { LeadingDigit(n / base, base, upper); }
  }

  /** A leading 0 does not change the value, as with showbase in base 8. */
  lemma {:induction false} LeadingZero(ds: seq<char>, base: nat)
    requires AllDigits(ds, base) && base > 0
    ensures AllDigits(['0'] + ds, base) && Value(['0'] + ds, base) == Value(ds, base)
    decreases |ds|
  {
    var t := ['0'] + ds;
    if ds == [] {
      assert t[..0] == [];
    } else {
      assert t[..|t| - 1] == ['0'] + ds[..|ds| - 1];
      LeadingZero(ds[..|ds| - 1], base);
    }
  }

  /** A digit string that is not too large is what is read. */
  lemma {:induction false} ExpectedInFull(s: seq<char>, base: nat, posMax: Word, negMax: Word, ds: seq<char>)
    requires base in {8, 10, 16} && DigitsAt(s, LeadOf(s, base).first, base) == ds != []
    requires AllDigits(ds, base) && Value(ds, base) <= if LeadOf(s, base).neg then negMax else posMax
    ensures var v: int := Value(ds, base);
      Expected(s, base, posMax, negMax)
      == Got(U(if LeadOf(s, base).neg then -v else v), LeadOf(s, base).first + |ds|)
  {
    hide LeadOf, DigitsAt, Value, Within, AllDigits;
    ReadInFull(ds, base, if LeadOf(s, base).neg then negMax else posMax);
  }

  /** The digits of a printed number, as the reader sees them: in base 8 the 0 shown for the base is one of them. */
  lemma {:induction false} DigitsOfText(n: Word, f: Flags, neg: bool, rest: seq<char>) returns (ds: seq<char>)
    requires !LoneZeroX(n, f, rest) && (neg ==> f.basefield == Dec)
    ensures var s, b := Text(n, f, neg) + rest, f.Base();
      && ds != [] && AllDigits(ds, b) && Value(ds, b) == n
      && LeadOf(s, b).neg == neg && LeadOf(s, b).first + |ds| == |Text(n, f, neg)|
      && s[LeadOf(s, b).first..] == ds + rest
  {
    hide DigitOf, Digits, Value, LeadOf, AllDigits;
    var b := f.Base();
    var own := Digits(n, b, f.uppercase);
    var s := Text(n, f, neg) + rest;
    assert s == Prefix(f, neg) + own + rest;
    ValueOfDigits(n, b, f.uppercase);
    LeadingDigit(n, b, f.uppercase);
    ZeroDigits(b, f.uppercase);
    LeadOfText(f, neg, own, rest);
    ds := if f.basefield == Oct && f.showbase then ['0'] + own else own;
    if f.basefield == Oct && f.showbase { LeadingZero(own, b); }
    Behind(Prefix(f, neg), own, rest, LeadOf(s, b).first, ds);
  }

  lemma Behind(prefix: seq<char>, own: seq<char>, rest: seq<char>, first: nat, ds: seq<char>)
    requires (first == |prefix| && ds == own) || (first == 0 && ds == prefix + own)
    ensures first <= |prefix + own + rest| && (prefix + own + rest)[first..] == ds + rest
  {
  }

  /** The number itself, with the stream behind its last digit. */
  function Faithful(n: Word, f: Flags, neg: bool): Reading {
    Got(U(if neg then -(n as int) else n), |Text(n, f, neg)|)
  }

  /** When the digits are not followed by another one, they are what is read; else more is read, or too much. */
  lemma {:induction false} ReadsText(n: Word, f: Flags, neg: bool, posMax: Word, negMax: Word, rest: seq<char>)
    requires !LoneZeroX(n, f, rest) && (neg ==> f.basefield == Dec) && n <= if neg then negMax else posMax
    ensures Expected(Text(n, f, neg) + rest, f.Base(), posMax, negMax) == Faithful(n, f, neg)
      <==> !GoesOn(rest, f.Base())
  {
    hide Text, Value, LeadOf, DigitsAt, AllDigits, GoesOn, U, Within;
    var ds := DigitsOfText(n, f, neg, rest);
    var s, b := Text(n, f, neg) + rest, f.Base();
    DigitsInFront(s, LeadOf(s, b).first, ds, rest, b);
    if !GoesOn(rest, b) { ExpectedInFull(s, b, posMax, negMax, ds); }
  }

  /** A lone 0 in base 16 with an x behind it: the x is given back exactly when no hexadecimal digit follows it. */
  lemma {:induction false} ReadsLoneZero(f: Flags, posMax: Word, negMax: Word, rest: seq<char>)
    requires LoneZeroX(0, f, rest)
    ensures Expected(Text(0, f, false) + rest, 16, posMax, negMax) == Got(0, |Text(0, f, false)|)
      <==> !GoesOn(rest[1..], 16)
  {
    hide Digits, Value, Within, DigitsAt, GoesOn;
    ZeroDigits(16, f.uppercase);
    var s := Text(0, f, false) + rest;
    assert s == ['0'] + rest;
    NoSpace(s);
    assert s[2..] == [] + rest[1..];
    DigitsInFront(s, 2, [], rest[1..], 16);
  }

  /** Reading back what was printed without a width: the same number, stopping behind its last digit, if and only if
      what follows is not taken for a part of it. */
  lemma {:induction false} RoundTrip(n: Word, f: Flags, neg: bool, posMax: Word, negMax: Word, rest: seq<char>)
    requires (neg ==> f.basefield == Dec) && n <= if neg then negMax else posMax
    ensures Expected(Padded(n, f, neg, ' ', 0) + rest, f.Base(), posMax, negMax) == Faithful(n, f, neg)
      <==> !ReadsOn(n, f, rest)
  {
    hide Expected, Text, Padded, GoesOn;
    PaddedText(n, f, neg);
    if LoneZeroX(n, f, rest) {
      ReadsLoneZero(f, posMax, negMax, rest);
      XIsNoDigit(rest);
    } else {
      ReadsText(n, f, neg, posMax, negMax, rest);
    }
  }

  // ---------------------------------------------------------------- any number that is typed

  /** The six blank characters of C. */
  predicate Blank(c: char) {
    c == ' ' || c == '\t' || c == '\n' || c == 11 as char || c == 12 as char || c == '\r'
  }

  /** Blanks, a sign, and what marks base 16. */
  predicate Typed(sp: seq<char>, sign: seq<char>, mark: seq<char>, base: nat) {
    && (forall k :: 0 <= k < |sp| ==> Blank(sp[k]))
    && (sign == "" || sign == "-" || sign == "+")
    && (mark == "" || (base == 16 && (mark == "0x" || mark == "0X")))
  }

  lemma {:induction false} BlanksAre(sp: seq<char>, more: seq<char>)
    requires (forall k :: 0 <= k < |sp| ==> Blank(sp[k])) && (more == [] || !Blank(more[0]))
    ensures Spaces(sp + more) == |sp|
    decreases |sp|
  {
    if sp != [] {
      assert (sp + more)[1..] == sp[1..] + more;
      BlanksAre(sp[1..], more);
    } else {
      assert sp + more == more;
    }
  }

  lemma {:induction false} LeadOfTyped(sp: seq<char>, sign: seq<char>, mark: seq<char>, tail: seq<char>, base: nat)
    requires Typed(sp, sign, mark, base) && base <= 16
    requires tail == [] || (!Blank(tail[0]) && tail[0] != '-' && tail[0] != '+')
    requires mark == "" && base == 16 && |tail| > 1 && tail[0] == '0' ==> !IsX(tail[1])
    ensures var l := LeadOf(sp + sign + mark + tail, base);
      l.neg == (sign == "-") && l.zerox == (mark != "") && l.first == |sp| + |sign| + |mark|
  {
    hide Spaces;
    var s := sp + sign + mark + tail;
    var more := sign + mark + tail;
    assert s == sp + more;
    assert more == [] || !Blank(more[0]);
    BlanksAre(sp, more);
    hide Typed, Blank;
    assert sign != "" ==> s[|sp|] == sign[0];
    var b := |sp| + |sign|;
    assert mark != "" ==> s[b] == mark[0] && s[b + 1] == mark[1];
    assert mark == "" && tail != [] ==> s[b] == tail[0] && (|tail| > 1 ==> s[b + 1] == tail[1]);
  }

  /** Digits behind blanks, a sign and a mark are read as the number they stand for, with its sign, and the stream is
      behind the last of them; a number past the limit of its sign is not read. */
  lemma {:induction false} TypedReads(sp: seq<char>, sign: seq<char>, mark: seq<char>, ds: seq<char>, rest: seq<char>,
                                      base: nat, posMax: Word, negMax: Word)
    requires Typed(sp, sign, mark, base) && base in {8, 10, 16} && ds != [] && AllDigits(ds, base)
    requires !GoesOn(rest, base)
    requires mark == "" && base == 16 && ds == "0" ==> rest == [] || !IsX(rest[0])
    ensures var s, v := sp + sign + mark + ds + rest, Value(ds, base);
      if v <= (if sign == "-" then negMax else posMax) then
        Expected(s, base, posMax, negMax) == Got(U(if sign == "-" then -(v as int) else v), |s| - |rest|)
      else Expected(s, base, posMax, negMax).Fail?
  {
    hide LeadOf, DigitsAt, Value, Within, Expected, DigitOf, GoesOn;
    var tail := ds + rest;
    var s := sp + sign + mark + ds + rest;
    assert s == sp + sign + mark + tail;
    DigitsNotSpace(ds[0], base);
    if |ds| > 1 { DigitsNotSpace(ds[1], base); }
    LeadOfTyped(sp, sign, mark, tail, base);
    DigitsInFront(s, |sp| + |sign| + |mark|, ds, rest, base);
    LimitDecides(s, base, posMax, negMax, ds);
  }

  lemma {:induction false} LimitDecides(s: seq<char>, base: nat, posMax: Word, negMax: Word, ds: seq<char>)
    requires base in {8, 10, 16} && DigitsAt(s, LeadOf(s, base).first, base) == ds != [] && AllDigits(ds, base)
    ensures var l, v := LeadOf(s, base), Value(ds, base);
      if v <= (if l.neg then negMax else posMax) then
        Expected(s, base, posMax, negMax) == Got(U(if l.neg then -(v as int) else v), l.first + |ds|)
      else Expected(s, base, posMax, negMax).Fail?
  {
    hide LeadOf, DigitsAt, Value, AllDigits, Within;
    ReadInFull(ds, base, if LeadOf(s, base).neg then negMax else posMax);
  }

  lemma NoDigits(base: nat)
    requires base > 0
    ensures AllDigits([], base) && IsDigit('0', base)
    ensures forall rest: seq<char> :: !GoesOn(rest, base) ==> rest == [] || rest[0] != '0'
  {
  }

  /** Without a digit nothing is read, and the stream stays where it was. */
  lemma {:induction false} NothingTyped(sp: seq<char>, sign: seq<char>, rest: seq<char>, base: nat, posMax: Word,
                                        negMax: Word)
    requires Typed(sp, sign, "", base) && base in {8, 10, 16} && !GoesOn(rest, base)
    requires rest == [] || (!Blank(rest[0]) && rest[0] != '-' && rest[0] != '+')
    ensures Expected(sp + sign + rest, base, posMax, negMax) == Fail(0)
  {
    hide LeadOf, DigitsAt, Value, AllDigits, Within, DigitOf;
    assert sp + sign + "" + rest == sp + sign + rest;
    var s, first := sp + sign + rest, |sp| + |sign|;
    NoDigits(base);
    LeadOfTyped(sp, sign, "", rest, base);
    assert s[first..] == [] + rest;
    DigitsInFront(s, first, [], rest, base);
  }

  lemma XIsNoDigit(rest: seq<char>)
    requires rest != [] && IsX(rest[0])
    ensures !GoesOn(rest, 16)
  {
  }

  /** A 0 in base 16 followed by x1 is read together with them, as 1. */
  lemma {:induction false} ReadTogether()
    ensures Text(0, Flags(Hex, false, false, false, RightAdjust), false) == "0"
    ensures Expected("0" + "x1", 16, TWO32 - 1, TWO32 - 1) == Got(1, 3)
  {
    ZeroDigits(16, false);
    var s, ds := "0" + "x1", "1";
    NoSpace(s);
    assert s[2..] == ds + [] && ds[..0] == [];
    DigitsInFront(s, 2, ds, [], 16);
    ExpectedInFull(s, 16, TWO32 - 1, TWO32 - 1, ds);
  }

  lemma PaddedText(n: Word, f: Flags, neg: bool)
    ensures Padded(n, f, neg, ' ', 0) == Text(n, f, neg)
  {
    hide Digits, Prefix;
  }

  lemma ZeroDigits(base: nat, upper: bool)
    requires base in {8, 10, 16}
    ensures Digits(0, base, upper) == ['0']
  {
  }

  /** Every unsigned 32-bit number, in each base. */
  lemma {:induction false} UnsignedRoundTrip(n: Word, f: Flags, rest: seq<char>)
    ensures Expected(Padded(n, f, false, ' ', 0) + rest, f.Base(), TWO32 - 1, TWO32 - 1) == Got(n, |Text(n, f, false)|)
      <==> !ReadsOn(n, f, rest)
  {
    hide Expected, Padded, Text;
    RoundTrip(n, f, false, TWO32 - 1, TWO32 - 1, rest);
  }

  /** Every signed 32-bit number in base 10; the word read is its two's complement. */
  lemma {:induction false} SignedRoundTrip(n: int, f: Flags, rest: seq<char>)
    requires f.basefield == Dec && -0x8000_0000 <= n < 0x8000_0000
    ensures var m := U(if n < 0 then -n else n);
      && (Expected(Padded(m, f, n < 0, ' ', 0) + rest, 10, 0x7FFF_FFFF, 0x8000_0000) == Got(U(n), |Text(m, f, n < 0)|)
          <==> !GoesOn(rest, 10))
      && Signed(U(n)) == n
  {
    hide Expected, Padded, Text;
    RoundTrip(U(if n < 0 then -n else n), f, n < 0, 0x7FFF_FFFF, 0x8000_0000, rest);
  }

  /** Printing to a stream and reading from one that holds the same characters. */
  method PrintThenRead(n: Word, f: Flags) returns (back: Option<Word>)
    ensures back == Some(n)
  {
    hide Expected, Padded, Text;
    var o := new OStream(f, ' ', 0);
    o.PutNum(n, false);
    var i := new IStream(o.out, f.Base());
    UnsignedRoundTrip(n, f, []);
    assert Padded(n, f, false, ' ', 0) + [] == o.out && o.out[0..] == o.out;
    back := i.GetNumber(TWO32 - 1, TWO32 - 1);
  }
}
