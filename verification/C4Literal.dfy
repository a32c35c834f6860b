/** Literals of the c4 language: strings and characters with their escapes, and numbers in every base, scan back to what
    they spell. */
module C4Literal {
  import opened Words
  import opened Numbers
  import opened RvCore
  import opened Tok
  import opened C4Scanner
  import opened C4Layout

  /** The characters of names by their codes: upper case, underscore, lower case, and behind the first one digits. */
  lemma LettersAre(c: char)
    ensures IsLetter(c) <==> 65 <= c as int <= 90 || c as int == 95 || 97 <= c as int <= 122
    ensures IsNameChar(c) <==> IsLetter(c) || 48 <= c as int <= 57
  {
  }

  /** The program ends where its text does, or at a character 0. */
  lemma EndScans(text: seq<char>, v: View)
    requires v.p >= |text| || text[v.p] == 0 as char
    ensures Lex(text, v) == v.(tk := 0)
  {
  }

  // ---------------------------------------------------------------- strings and characters

  /** A character inside a literal: a line feed by its letter, the quote and the backslash behind a backslash. */
  function CharText(c: char, quote: char): (s: seq<char>)
    ensures s != []
  {
    if c == '\n' then ['\\', 'n'] else if c == quote || c == '\\' then ['\\', c] else [c]
  }

  function LiteralText(s: seq<char>, quote: char): seq<char> {
    if s == [] then [] else CharText(s[0], quote) + LiteralText(s[1..], quote)
  }

  /** A string or character literal that spells s. */
  function Quoted(s: seq<char>, quote: char): seq<char> {
    [quote] + LiteralText(s, quote) + [quote]
  }

  lemma {:induction false} CharScans(text: seq<char>, p: nat, c: char, quote: char)
    requires (quote == '"' || quote == '\'') && c != NUL && StandsAt(text, p, CharText(c, quote))
    ensures CharAt(text, p) != NUL && CharAt(text, p) != quote
    ensures LiteralChar(text, p) == (c, p + |CharText(c, quote)|)
  {
    StandsInside(text, p, CharText(c, quote));
  }

  /** The characters of a literal are those it spells. */
  lemma {:induction false} LiteralScans(text: seq<char>, p: nat, s: seq<char>, quote: char, ival: int)
    requires (quote == '"' || quote == '\'') && NUL !in s && StandsAt(text, p, LiteralText(s, quote) + [quote])
    ensures Literal(text, p, quote, ival) ==
      (if s == [] then ival else s[|s| - 1] as int, p + |LiteralText(s, quote)| + 1, s)
    decreases |s|
  {
    hide LiteralChar, CharText, StandsAt;
    StandsInside(text, p, LiteralText(s, quote) + [quote]);
    if s == [] {
      assert (LiteralText(s, quote) + [quote])[0] == quote;
    } else {
      assert s[0] in s;
      var first, rest := CharText(s[0], quote), LiteralText(s[1..], quote) + [quote];
      assert LiteralText(s, quote) + [quote] == first + rest;
      StandsParts(text, p, first, rest);
      CharScans(text, p, s[0], quote);
      LiteralScans(text, p + |first|, s[1..], quote, s[0] as int);
      assert [s[0]] + s[1..] == s;
    }
  }

  lemma StandsParts(text: seq<char>, p: nat, g: seq<char>, h: seq<char>)
    requires StandsAt(text, p, g + h)
    ensures StandsAt(text, p, g) && StandsAt(text, p + |g|, h)
  {
    StandsTail(text, p, g + h, |g|);
    assert (g + h)[|g|..] == h && (g + h)[..|g|] == g;
    assert text[p..p + |g|] == text[p..p + |g + h|][..|g|];
  }

  /** A string literal: its characters go to the end of the data, and its value is their place there. */
  lemma {:induction false} StringScans(text: seq<char>, v: View, s: seq<char>)
    requires NUL !in s && StandsAt(text, v.p, Quoted(s, '"'))
    ensures Lex(text, v) == v.(tk := QUOTE, ival := |v.data|, data := v.data + s, p := v.p + |Quoted(s, '"')|)
  {
    hide Literal, LexWord, Number, Operator, LineEnd, LiteralText;
    QuotedParts(text, v.p, s, '"');
    LiteralScans(text, v.p + 1, s, '"', v.ival);
  }

  /** A character literal: its character's code. */
  lemma {:induction false} CharacterScans(text: seq<char>, v: View, c: char)
    requires c != NUL && StandsAt(text, v.p, Quoted([c], '\''))
    ensures Lex(text, v) == v.(tk := NUM, ival := c as int, p := v.p + |Quoted([c], '\'')|)
  {
    hide Literal, LexWord, Number, Operator, LineEnd, LiteralText;
    QuotedParts(text, v.p, [c], '\'');
    LiteralScans(text, v.p + 1, [c], '\'', v.ival);
  }

  lemma QuotedParts(text: seq<char>, p: nat, s: seq<char>, quote: char)
    requires StandsAt(text, p, Quoted(s, quote))
    ensures p < |text| && text[p] == CharAt(text, p) == quote && StandsAt(text, p + 1, LiteralText(s, quote) + [quote])
    ensures |Quoted(s, quote)| == |LiteralText(s, quote)| + 2
  {
    assert Quoted(s, quote) == [quote] + (LiteralText(s, quote) + [quote]);
    StandsParts(text, p, [quote], LiteralText(s, quote) + [quote]);
    StandsInside(text, p, [quote]);
  }

  // ---------------------------------------------------------------- numbers

  /** A word's 32 bits as a number. */
  function Unsigned(n: int): nat {
    n % TWO32
  }

  /** Every word in base 8, behind a 0. */
  lemma {:induction false} OctalScans(text: seq<char>, v: View, n: int)
    requires IsWord(n) && StandsAt(text, v.p, ['0'] + Digits(Unsigned(n), 8, false))
    requires Ends(CharAt(text, v.p + 1 + |Digits(Unsigned(n), 8, false)|))
    ensures Lex(text, v) == v.(tk := NUM, ival := n, p := v.p + 1 + |Digits(Unsigned(n), 8, false)|)
  {
    hide Digits, Fold, Value, LexLiteral, Operator, LineEnd, LexWord;
    var ds := Digits(Unsigned(n), 8, false);
    StandsParts(text, v.p, ['0'], ds);
    StandsInside(text, v.p, ['0']);
    StandsInside(text, v.p + 1, ds);
    ValueOfDigits(Unsigned(n), 8, false);
    OctalStart(ds[0]);
    EmptyValue(ds, 8);
    FoldDigits(text, v.p + 1, 8, ds, 0, 0);
    UnsignedBack(n);
  }

  lemma OctalStart(c: char)
    requires Numbers.IsDigit(c, 8)
    ensures c != 'x' && c != 'X'
  {
  }

  lemma EmptyValue(ds: seq<char>, base: nat)
    ensures Wrap(Value(ds[..0], base)) == 0
  {
  }

  lemma UnsignedBack(n: int)
    requires IsWord(n)
    ensures Wrap(Unsigned(n)) == n
  {
    WrapIs(Unsigned(n), n, if n < 0 then 1 else 0);
  }

  /** And in base 16, behind 0x or 0X, with letters of either case. */
  lemma {:induction false} HexScans(text: seq<char>, v: View, n: int, x: char, upper: bool)
    requires IsWord(n) && (x == 'x' || x == 'X') && StandsAt(text, v.p, ['0', x] + Digits(Unsigned(n), 16, upper))
    requires Ends(CharAt(text, v.p + 2 + |Digits(Unsigned(n), 16, upper)|))
    ensures Lex(text, v) == v.(tk := NUM, ival := n, p := v.p + 2 + |Digits(Unsigned(n), 16, upper)|)
  {
    hide Digits, Fold, Value, LexLiteral, Operator, LineEnd, LexWord;
    var ds := Digits(Unsigned(n), 16, upper);
    StandsParts(text, v.p, ['0', x], ds);
    StandsInside(text, v.p, ['0', x]);
    ValueOfDigits(Unsigned(n), 16, upper);
    EmptyValue(ds, 16);
    FoldDigits(text, v.p + 2, 16, ds, 0, 0);
    UnsignedBack(n);
  }
}
