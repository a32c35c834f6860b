/** Source text laid out from tokens, with any blanks and comments between them, scans back to those tokens. */
module C4Layout {
  import opened Words
  import opened Numbers
  import opened RvCore
  import opened Tok
  import opened C4Scanner

  // ---------------------------------------------------------------- blanks and comments

  predicate IsBlank(c: char) {
    c == ' ' || c == '\t' || c == '\r' || c == '\n'
  }

  /** Where the comment's text starts, 0 if g starts with no comment. */
  function CommentStart(g: seq<char>): (k: nat)
    ensures k <= |g|
  {
    if |g| > 0 && g[0] == '#' then 1 else if |g| > 1 && g[0] == '/' && g[1] == '/' then 2 else 0
  }

  /** Blanks, line comments and `#` lines, the last line closed. */
  predicate IsGap(g: seq<char>)
    decreases |g|
  {
    if g == [] then true
    else if IsBlank(g[0]) then IsGap(g[1..])
    else
      var k := CommentStart(g);
      var e := LineEnd(g, k);
      k > 0 && e < |g| && g[e] == '\n' && IsGap(g[e..])
  }

  /** g stands in the text at p. */
  predicate StandsAt(text: seq<char>, p: nat, g: seq<char>) {
    p + |g| <= |text| && text[p..p + |g|] == g
  }

  lemma StandsTail(text: seq<char>, p: nat, g: seq<char>, k: nat)
    requires StandsAt(text, p, g) && k <= |g|
    ensures StandsAt(text, p + k, g[k..])
    ensures forall i :: 0 <= i < |g| ==> text[p + i] == g[i]
  {
    assert text[p..p + |g|][k..] == text[p + k..p + |g|];
    forall i | 0 <= i < |g|
      ensures text[p + i] == g[i]
    {
      assert text[p..p + |g|][i] == text[p + i];
    }
  }

  lemma {:induction false} LineEndIn(text: seq<char>, p: nat, g: seq<char>, k: nat)
    requires StandsAt(text, p, g) && k <= LineEnd(g, k) < |g|
    ensures LineEnd(text, p + k) == p + LineEnd(g, k)
    decreases |g| - k
  {
    StandsTail(text, p, g, 0);
    if LineEnd(g, k) != k {
      LineEndIn(text, p, g, k + 1);
    }
  }

  lemma {:induction false} LexBlank(text: seq<char>, v: View)
    requires IsBlank(CharAt(text, v.p))
    ensures Lex(text, v) == Lex(text, v.(p := v.p + 1))
  {
    hide LexWord, Number, LexLiteral, Operator, LineEnd;
    BlankIsNone(CharAt(text, v.p), CharAt(text, v.p + 1));
  }

  lemma {:induction false} LexComment(text: seq<char>, v: View, k: nat)
    requires if CharAt(text, v.p) == '#' then k == 1
      else CharAt(text, v.p) == '/' && CharAt(text, v.p + 1) == '/' && k == 2
    ensures Lex(text, v) == Lex(text, v.(p := LineEnd(text, v.p + k)))
  {
    hide LexWord, Number, LexLiteral, Operator, LineEnd;
  }

  lemma {:induction false} BlankFirst(text: seq<char>, p: nat, g: seq<char>)
    requires StandsAt(text, p, g) && g != [] && IsBlank(g[0]) && IsGap(g)
    ensures IsBlank(CharAt(text, p)) && StandsAt(text, p + 1, g[1..]) && IsGap(g[1..])
  {
    StandsTail(text, p, g, 1);
  }

  lemma {:induction false} CommentFirst(text: seq<char>, p: nat, g: seq<char>)
    requires StandsAt(text, p, g) && g != [] && !IsBlank(g[0]) && IsGap(g)
    ensures var k := CommentStart(g);
      var e := LineEnd(g, k);
      && (if CharAt(text, p) == '#' then k == 1 else CharAt(text, p) == '/' && CharAt(text, p + 1) == '/' && k == 2)
      && 0 < e < |g| && LineEnd(text, p + k) == p + e && StandsAt(text, p + e, g[e..]) && IsGap(g[e..])
  {
    hide StandsAt, LineEnd;
    var k := CommentStart(g);
    StandsInside(text, p, g);
    LineEndIn(text, p, g, k);
    StandsTail(text, p, g, LineEnd(g, k));
  }

  lemma StandsInside(text: seq<char>, p: nat, g: seq<char>)
    requires StandsAt(text, p, g)
    ensures p + |g| <= |text| && forall i :: 0 <= i < |g| ==> CharAt(text, p + i) == g[i]
  {
    StandsTail(text, p, g, 0);
  }

  /** A gap makes no difference to what comes next. */
  lemma {:induction false} GapSkipped(text: seq<char>, v: View, g: seq<char>)
    requires StandsAt(text, v.p, g) && IsGap(g)
    ensures Lex(text, v) == Lex(text, v.(p := v.p + |g|))
    decreases |g|
  {
    hide Lex, LineEnd, StandsAt, IsGap, CommentStart, IsBlank, CharAt;
    if g != [] {
      if IsBlank(g[0]) {
        BlankFirst(text, v.p, g);
        LexBlank(text, v);
        GapSkipped(text, v.(p := v.p + 1), g[1..]);
      } else {
        var k := CommentStart(g);
        var e := LineEnd(g, k);
        CommentFirst(text, v.p, g);
        LexComment(text, v, k);
        GapSkipped(text, v.(p := v.p + e), g[e..]);
      }
    }
  }

  lemma BlankIsNone(c: char, d: char)
    requires IsBlank(c)
    ensures Operator(c, d) == (0, 1)
  {
  }

  // ---------------------------------------------------------------- how tokens are spelled

  function Keyword(k: int): seq<char> {
    if k == CHAR then "char" else if k == ELSE then "else" else if k == ENUM then "enum" else if k == IF then "if"
    else if k == INT then "int" else if k == RETURN then "return" else if k == SIZEOF then "sizeof"
    else if k == WHILE then "while" else if k == FOR then "for" else ""
  }

  function OpText(k: int): seq<char> {
    if k == ASSIGN then "=" else if k == EQ then "==" else if k == NE then "!=" else if k == BANG then "!"
    else if k == LT then "<" else if k == GT then ">" else if k == LE then "<=" else if k == GE then ">="
    else if k == SHL then "<<" else if k == SHR then ">>" else if k == LOR then "||" else if k == LAN then "&&"
    else if k == OR then "|" else if k == AND then "&" else if k == XOR then "^" else if k == ADD then "+"
    else if k == SUB then "-" else if k == INC then "++" else if k == DEC then "--" else if k == MUL then "*"
    else if k == DIV then "/" else if k == MOD then "%" else if k == BRAK then "[" else if k == COND then "?"
    else if k in {TILDE, SEMI, LBRACE, RBRACE, LPAREN, RPAREN, RBRACKET, COMMA, COLON} then [k as char]
    else ""
  }

  /** A number in base 10, a negative one by its two's complement in base 16. */
  function NumText(n: int): seq<char>
    requires IsWord(n)
  {
    if n >= 0 then Digits(n, 10, false) else ['0', 'x'] + Digits(n + TWO32, 16, false)
  }

  predicate Spelled(sym: seq<Entry>, t: Token) {
    if t.kind == NUM then IsWord(t.ival) && t.id == 0
    else if t.kind == ID then t.ival == 0 && t.id < |sym| && sym[t.id].tk == ID
    else t == Plain(t.kind) && (Keyword(t.kind) != [] || OpText(t.kind) != [])
  }

  function Spelling(sym: seq<Entry>, t: Token): seq<char> {
    if t.kind == NUM && IsWord(t.ival) then NumText(t.ival)
    else if t.kind == ID && t.id < |sym| then sym[t.id].Name()
    else if Keyword(t.kind) != [] then Keyword(t.kind)
    else OpText(t.kind)
  }

  ghost predicate HasKeyword(sym: seq<Entry>, k: int) {
    exists i :: 0 <= i < |sym| && sym[i].tk == k && sym[i].Name() == Keyword(k)
  }

  /** A table without double names or names that are too long, which has the keywords. */
  ghost predicate Equipped(sym: seq<Entry>) {
    Table(sym) && Short(sym) && forall k :: CHAR <= k <= FOR ==> HasKeyword(sym, k)
  }

  /** Ends a token: a blank or the end of the text. */
  predicate Ends(c: char) {
    IsBlank(c) || c == NUL
  }

  // ---------------------------------------------------------------- one token

  lemma {:induction false} WordEndAt(text: seq<char>, p: nat, name: seq<char>, k: nat)
    requires StandsAt(text, p, name) && Ends(CharAt(text, p + |name|)) && k <= |name|
    requires forall i :: 0 <= i < |name| ==> IsNameChar(name[i])
    ensures WordEnd(text, p + k) == p + |name|
    decreases |name| - k
  {
    StandsTail(text, p, name, 0);
    if k < |name| {
      WordEndAt(text, p, name, k + 1);
    }
  }

  lemma {:induction false} NameChars(chars: seq<char>, p: nat)
    requires p <= |chars|
    ensures forall i :: p <= i < WordEnd(chars, p) ==> IsNameChar(chars[i])
    decreases |chars| - p
  {
    if p < |chars| && IsNameChar(chars[p]) {
      NameChars(chars, p + 1);
    }
  }

  /** A name of the table scans to its entry. */
  lemma {:induction false} NameScans(text: seq<char>, v: View, i: nat)
    requires Table(v.sym) && Short(v.sym) && i < |v.sym|
    requires StandsAt(text, v.p, v.sym[i].Name()) && Ends(CharAt(text, v.p + |v.sym[i].Name()|))
    ensures Lex(text, v) == v.(tk := v.sym[i].tk, id := i, p := v.p + |v.sym[i].Name()|)
  {
    hide NameHash, Find, WordEnd, Number, LexLiteral, Operator, LineEnd;
    var e := v.sym[i];
    var name := e.Name();
    NameChars(e.chars, 0);
    StandsTail(text, v.p, name, 0);
    WordEndAt(text, v.p, name, 0);
    assert name[0] == e.chars[0];
    FindExact(v.sym, name);
  }

  /** Digits in 32-bit arithmetic have the wrapped value. */
  lemma {:induction false} FoldDigits(text: seq<char>, p: nat, base: nat, ds: seq<char>, k: nat, acc: int)
    requires base in {8, 10, 16} && StandsAt(text, p, ds) && Ends(CharAt(text, p + |ds|)) && AllDigits(ds, base)
    requires k <= |ds| && acc == Wrap(Value(ds[..k], base))
    ensures Fold(text, p + k, base, acc) == (Wrap(Value(ds, base)), p + |ds|)
    decreases |ds| - k
  {
    hide Value, Wrap, DigitOf;
    StandsTail(text, p, ds, 0);
    if k < |ds| {
      ValueNext(ds, k, base);
      WrapStep(Value(ds[..k], base), base, DigitOf(ds[k]));
      FoldDigits(text, p, base, ds, k + 1, Wrap(acc * base + DigitOf(ds[k])));
    } else {
      assert ds[..k] == ds;
      EndIsNoDigit(CharAt(text, p + |ds|), base);
    }
  }

  lemma EndIsNoDigit(c: char, base: nat)
    requires Ends(c)
    ensures !IsDigit(c, base)
  {
  }

  lemma ValueNext(ds: seq<char>, k: nat, base: nat)
    requires k < |ds| && AllDigits(ds, base)
    ensures Value(ds[..k + 1], base) == Value(ds[..k], base) * base + DigitOf(ds[k])
  {
    hide DigitOf;
    assert ds[..k + 1][..k] == ds[..k];
  }

  /** A number scans to its value, a negative one from its two's complement in base 16. */
  lemma {:induction false} NumScans(text: seq<char>, v: View, n: int)
    requires IsWord(n) && StandsAt(text, v.p, NumText(n)) && Ends(CharAt(text, v.p + |NumText(n)|))
    ensures Lex(text, v) == v.(tk := NUM, ival := n, p := v.p + |NumText(n)|)
  {
    hide Digits, Fold, Value, LexLiteral, Operator, LineEnd, LexWord;
    var s := NumText(n);
    StandsTail(text, v.p, s, 0);
    if n >= 0 {
      ValueOfDigits(n, 10, false);
      LeadingDigit(n, 10, false);
      ZeroDigits(10, false);
      DecimalStart(s);
      if s[0] != '0' {
        FoldDigits(text, v.p, 10, s, 1, DigitOf(s[0]));
      } else {
        NoDigits(text, v.p + 1, 8);
      }
    } else {
      ValueOfDigits(n + TWO32, 16, false);
      StandsTail(text, v.p, s, 2);
      var ds := Digits(n + TWO32, 16, false);
      assert s[2..] == ds;
      HexStart(ds);
      FoldDigits(text, v.p + 2, 16, ds, 0, 0);
      WrapIs(n + TWO32, n, 1);
    }
  }

  lemma NoDigits(text: seq<char>, p: nat, base: nat)
    requires Ends(CharAt(text, p))
    ensures Fold(text, p, base, 0) == (0, p)
  {
    EndIsNoDigit(CharAt(text, p), base);
  }

  lemma DecimalStart(s: seq<char>)
    requires AllDigits(s, 10) && s != []
    ensures '0' <= s[0] <= '9' && DigitOf(s[0]) == Wrap(Value(s[..1], 10))
  {
    assert s[..1] == [s[0]];
    assert s[..1][..0] == [];
  }

  lemma HexStart(ds: seq<char>)
    ensures Wrap(Value(ds[..0], 16)) == 0
  {
  }

  /** An operator followed by a blank or the end. */
  lemma {:induction false} OpScans(text: seq<char>, v: View, k: int)
    requires OpText(k) != [] && StandsAt(text, v.p, OpText(k)) && Ends(CharAt(text, v.p + |OpText(k)|))
    ensures Lex(text, v) == v.(tk := k, p := v.p + |OpText(k)|)
  {
    hide LexWord, Number, LexLiteral, LineEnd, Operator, OpText;
    StandsTail(text, v.p, OpText(k), 0);
    var s := OpText(k);
    var f := CharAt(text, v.p + |s|);
    KindOfOp(k);
    OpTable(k, f);
    var c, d := CharAt(text, v.p), CharAt(text, v.p + 1);
    assert c == s[0] && d == if |s| == 2 then s[1] else f;
    assert c == '/' ==> d != '/';
  }

  lemma {:induction false} OpTable(k: int, f: char)
    requires OpText(k) != [] && Ends(f)
    ensures var s := OpText(k);
      && |s| <= 2 && s[0] != NUL && s[0] != '#' && s[0] != '\'' && s[0] != '"'
      && !IsLetter(s[0]) && !('0' <= s[0] <= '9')
      && (if s[0] == '/' then k == DIV && |s| == 1 else Operator(s[0], if |s| == 2 then s[1] else f) == (k, |s|))
  {
  }

  /** A spelled token followed by a blank or the end scans to itself and leaves the table as it is. */
  lemma {:induction false} TokenScans(text: seq<char>, v: View, t: Token)
    requires Equipped(v.sym) && Spelled(v.sym, t)
    requires StandsAt(text, v.p, Spelling(v.sym, t)) && Ends(CharAt(text, v.p + |Spelling(v.sym, t)|))
    ensures var w := Lex(text, v);
      TokenOf(w) == t && w.tk != 0 && w.p == v.p + |Spelling(v.sym, t)| && w.sym == v.sym && w.data == v.data
  {
    hide Lex, OpText, NumText, Table;
    if t.kind == NUM {
      NumScans(text, v, t.ival);
    } else if t.kind == ID {
      NameScans(text, v, t.id);
    } else if Keyword(t.kind) != [] {
      assert HasKeyword(v.sym, t.kind);
      var i :| 0 <= i < |v.sym| && v.sym[i].tk == t.kind && v.sym[i].Name() == Keyword(t.kind);
      NameScans(text, v, i);
    } else {
      KindOfOp(t.kind);
      OpScans(text, v, t.kind);
    }
  }

  lemma KindOfOp(k: int)
    requires OpText(k) != []
    ensures k != NUM && k != ID && k != QUOTE && k != 0
  {
  }

  // ---------------------------------------------------------------- whole texts

  /** The tokens that calls of `next` find from here to the end of the text. */
  function ScanAll(text: seq<char>, v: View): seq<Token>
    decreases |text| - v.p
  {
    var w := Lex(text, v);
    if w.tk == 0 then [] else [TokenOf(w)] + ScanAll(text, w)
  }

  /** The tokens spelled out, with a gap before each and one at the end. */
  function TextOf(sym: seq<Entry>, toks: seq<Token>, gaps: seq<seq<char>>): seq<char>
    requires |gaps| == |toks| + 1
  {
    if toks == [] then gaps[0]
    else gaps[0] + Spelling(sym, toks[0]) + TextOf(sym, toks[1..], gaps[1..])
  }

  /** Gaps of blanks and comments, each after a token starting with a blank unless it is the end of the text. */
  predicate Separate(gaps: seq<seq<char>>) {
    && (forall i :: 0 <= i < |gaps| ==> IsGap(gaps[i]))
    && (forall i :: 0 < i < |gaps| ==> if gaps[i] == [] then i == |gaps| - 1 else IsBlank(gaps[i][0]))
  }

  /** Every layout of spelled tokens scans back to them. */
  lemma {:induction false} ScanLayout(text: seq<char>, v: View, toks: seq<Token>, gaps: seq<seq<char>>)
    requires Equipped(v.sym) && |gaps| == |toks| + 1 && Separate(gaps) && forall t :: t in toks ==> Spelled(v.sym, t)
    requires v.p <= |text| && text[v.p..] == TextOf(v.sym, toks, gaps)
    ensures ScanAll(text, v) == toks
    decreases |toks|
  {
    hide Lex, Spelled, Spelling, IsGap, EntryOk, HasKeyword, TokenOf;
    var v1 := v.(p := v.p + |gaps[0]|);
    LayoutParts(text, v.p, v.sym, toks, gaps);
    GapSkipped(text, v, gaps[0]);
    if toks == [] {
      LexEnd(text, v1);
    } else {
      TokenScans(text, v1, toks[0]);
      var w := Lex(text, v1);
      ScanLayout(text, w, toks[1..], gaps[1..]);
    }
  }

  lemma LexEnd(text: seq<char>, v: View)
    requires v.p >= |text|
    ensures Lex(text, v).tk == 0
  {
  }

  /** Where the first gap, the first token and the rest of a layout stand. */
  lemma {:induction false} LayoutParts(text: seq<char>, p: nat, sym: seq<Entry>, toks: seq<Token>, gaps: seq<seq<char>>)
    requires |gaps| == |toks| + 1 && Separate(gaps)
    requires p <= |text| && text[p..] == TextOf(sym, toks, gaps)
    ensures StandsAt(text, p, gaps[0]) && IsGap(gaps[0])
    ensures toks == [] ==> p + |gaps[0]| == |text|
    ensures toks != [] ==>
      var s := Spelling(sym, toks[0]);
      var q := p + |gaps[0]|;
      && StandsAt(text, q, s) && Ends(CharAt(text, q + |s|)) && Separate(gaps[1..])
      && text[q + |s|..] == TextOf(sym, toks[1..], gaps[1..])
  {
    hide Spelling, IsGap;
    var all := text[p..];
    var g := gaps[0];
    if toks == [] {
      assert text[p..p + |g|] == all[..|g|];
    } else {
      var s, rest := Spelling(sym, toks[0]), TextOf(sym, toks[1..], gaps[1..]);
      ThreeParts(text, p, g, s, rest);
      RestStarts(sym, toks[1..], gaps[1..]);
    }
  }

  lemma ThreeParts(text: seq<char>, p: nat, a: seq<char>, b: seq<char>, c: seq<char>)
    requires p <= |text| && text[p..] == a + b + c
    ensures StandsAt(text, p, a) && StandsAt(text, p + |a|, b) && text[p + |a| + |b|..] == c
    ensures CharAt(text, p + |a| + |b|) == CharAt(c, 0)
  {
    var all := text[p..];
    assert text[p..p + |a|] == all[..|a|];
    assert text[p + |a|..p + |a| + |b|] == all[|a|..|a| + |b|];
    assert text[p + |a| + |b|..] == all[|a| + |b|..];
  }

  lemma RestStarts(sym: seq<Entry>, toks: seq<Token>, gaps: seq<seq<char>>)
    requires |gaps| == |toks| + 1
    requires if gaps[0] == [] then toks == [] else IsBlank(gaps[0][0])
    ensures Ends(CharAt(TextOf(sym, toks, gaps), 0))
  {
    hide Spelling;
  }

  // ---------------------------------------------------------------- a text with a name taken for another

  function Confusing(): seq<char> {
    LongName() + [' ', 'a']
  }

  /** A first name, in an empty table. */
  lemma {:induction false} FirstName(text: seq<char>, v: View, name: seq<char>)
    requires v.sym == [] && StandsAt(text, v.p, name) && Ends(CharAt(text, v.p + |name|))
    requires |name| > 0 && IsLetter(name[0]) && forall i :: 0 <= i < |name| ==> IsNameChar(name[i])
    ensures Lex(text, v) == v.(tk := ID, id := 0, p := v.p + |name|, sym := [Entry(ID, NameHash(name), text[v.p..])])
  {
    hide NameHash, WordEnd, Number, LexLiteral, Operator, LineEnd;
    StandsTail(text, v.p, name, 0);
    WordEndAt(text, v.p, name, 0);
    assert v.sym + [Entry(ID, NameHash(name), text[v.p..])] == [Entry(ID, NameHash(name), text[v.p..])];
  }

  /** A name that matches the only entry. */
  lemma {:induction false} MatchingName(text: seq<char>, v: View, name: seq<char>)
    requires |v.sym| == 1 && StandsAt(text, v.p, name) && Ends(CharAt(text, v.p + |name|))
    requires |name| > 0 && IsLetter(name[0]) && forall i :: 0 <= i < |name| ==> IsNameChar(name[i])
    requires Matches(v.sym[0], NameHash(name), name)
    ensures Lex(text, v) == v.(tk := v.sym[0].tk, id := 0, p := v.p + |name|)
  {
    hide NameHash, Matches, WordEnd, Number, LexLiteral, Operator, LineEnd;
    StandsTail(text, v.p, name, 0);
    WordEndAt(text, v.p, name, 0);
  }

  /** In the text of the long name, a blank and the name a, from an empty table: both calls of `next` give the first
      entry, though the second name is another one. */
  lemma {:induction false} ScannedAlike()
    ensures var start := View(0, 0, 0, 0, [], []);
      var first := Lex(Confusing(), start);
      var second := Lex(Confusing(), first);
      && first.tk == second.tk == ID && first.id == second.id == 0 && second.sym == first.sym && |first.sym| == 1
      && first.sym[0].Name() == LongName() && first.p == 65 && second.p == 67 && Confusing()[66..67] == "a"
  {
    hide Lex, LongName, NameHash;
    var text, v := Confusing(), View(0, 0, 0, 0, [], []);
    LongLetters();
    assert text[0..65] == LongName() && text[66..67] == "a";
    FirstName(text, v, LongName());
    var w := Lex(text, v);
    LexBlank(text, w);
    HashesAgree();
    assert "a" <= text;
    NameOfLong();
    MatchingName(text, w.(p := 66), "a");
  }

  lemma LongLetters()
    ensures LongName()[0] == 'a' && forall i :: 0 <= i < 65 ==> IsLetter(LongName()[i]) && IsNameChar(LongName()[i])
  {
  }

  lemma {:induction false} NameOfLong()
    ensures Entry(ID, NameHash(LongName()), Confusing()).Name() == LongName()
  {
    hide LongName, NameHash;
    LongLetters();
    assert Confusing()[0..65] == LongName();
    WordEndAt(Confusing(), 0, LongName(), 0);
  }

  // ---------------------------------------------------------------- the keywords

  /** The keywords from k on, each with a space after it. */
  function Spaced(k: int): seq<char>
    decreases FOR - k
  {
    if k > FOR then [] else Keyword(k) + [' '] + Spaced(k + 1)
  }

  /** The text that main scans first, before the program: keywords, library functions, void and main. */
  const STARTUP := "char else enum if int return sizeof while for "
    + "open read close printf malloc free memset memcmp write exit void main"

  /** Main's text begins with the keywords in the order of their tokens. */
  lemma {:induction false} StartupText()
    ensures StandsAt(STARTUP, 0, Spaced(CHAR))
  {
    hide Keyword, Spaced, StandsAt;
    KeywordsAre();
    LaterKeywords();
    WordAt(STARTUP, 5, ELSE);
    WordAt(STARTUP, 0, CHAR);
  }

  lemma {:induction false} LaterKeywords()
    ensures StandsAt(STARTUP, 10, Spaced(ENUM))
  {
    hide Keyword, Spaced, StandsAt;
    KeywordsAre();
    LastKeywords();
    WordAt(STARTUP, 15, IF);
    WordAt(STARTUP, 10, ENUM);
  }

  lemma {:induction false} LastKeywords()
    ensures StandsAt(STARTUP, 18, Spaced(INT))
  {
    hide Keyword, Spaced, StandsAt;
    KeywordsAre();
    NoneAt(STARTUP, 46);
    WordAt(STARTUP, 42, FOR);
    WordAt(STARTUP, 36, WHILE);
    WordAt(STARTUP, 29, SIZEOF);
    WordAt(STARTUP, 22, RETURN);
    WordAt(STARTUP, 18, INT);
  }

  lemma NoneAt(text: seq<char>, p: nat)
    requires p <= |text|
    ensures StandsAt(text, p, Spaced(FOR + 1))
  {
  }

  /** One more keyword in front. */
  lemma {:induction false} WordAt(text: seq<char>, p: nat, k: int)
    requires CHAR <= k <= FOR && p + |Keyword(k)| < |text|
    requires forall i :: 0 <= i < |Keyword(k)| ==> text[p + i] == Keyword(k)[i]
    requires text[p + |Keyword(k)|] == ' ' && StandsAt(text, p + |Keyword(k)| + 1, Spaced(k + 1))
    ensures StandsAt(text, p, Spaced(k))
  {
    hide Keyword;
    var w, more := Keyword(k), Spaced(k + 1);
    var q := p + |w| + 1;
    assert text[p..p + |w|] == w;
    assert text[p..q + |more|] == w + [' '] + text[q..q + |more|];
  }

  lemma KeywordsAre()
    ensures Keyword(CHAR) == "char" && Keyword(ELSE) == "else" && Keyword(ENUM) == "enum" && Keyword(IF) == "if"
    ensures Keyword(INT) == "int" && Keyword(RETURN) == "return" && Keyword(SIZEOF) == "sizeof"
    ensures Keyword(WHILE) == "while" && Keyword(FOR) == "for"
  {
  }

  lemma KeywordLetters(k: int)
    requires CHAR <= k <= FOR
    ensures var s := Keyword(k);
      1 < |s| <= 64 && IsLetter(s[0]) && forall i :: 0 <= i < |s| ==> IsNameChar(s[i])
  {
  }

  lemma KeywordsDiffer(a: int, b: int)
    requires CHAR <= a < b <= FOR
    ensures Keyword(a) != Keyword(b)
  {
    assert Keyword(a)[0] != Keyword(b)[0] || Keyword(a)[1] != Keyword(b)[1];
  }

  /** A name that the table lacks is added at its end. */
  lemma {:induction false} NewNameScans(text: seq<char>, v: View, name: seq<char>)
    requires Table(v.sym) && StandsAt(text, v.p, name) && Ends(CharAt(text, v.p + |name|))
    requires Short(v.sym) && 0 < |name| <= 64 && IsLetter(name[0])
    requires forall i :: 0 <= i < |name| ==> IsNameChar(name[i])
    requires forall j :: 0 <= j < |v.sym| ==> v.sym[j].Name() != name
    ensures var e := Entry(ID, NameHash(name), text[v.p..]);
      && Lex(text, v) == v.(tk := ID, id := |v.sym|, p := v.p + |name|, sym := v.sym + [e])
      && EntryOk(e) && e.Name() == name
  {
    hide NameHash, Find, WordEnd, Number, LexLiteral, Operator, LineEnd, EntryOk;
    StandsTail(text, v.p, name, 0);
    WordEndAt(text, v.p, name, 0);
    FindExact(v.sym, name);
    NewEntry(text, v.p);
  }

  /** The table holds the keywords up to k, in order. */
  ghost predicate HoldsKeywords(sym: seq<Entry>, k: int) {
    && |sym| == k - CHAR && (forall i :: 0 <= i < |sym| ==> EntryOk(sym[i]))
    && forall i :: 0 <= i < |sym| ==> sym[i].tk == CHAR + i && sym[i].Name() == Keyword(CHAR + i)
  }

  lemma {:induction false} KeywordTable(sym: seq<Entry>, k: int)
    requires CHAR <= k <= FOR + 1 && HoldsKeywords(sym, k)
    ensures Table(sym) && Short(sym) && (k == FOR + 1 ==> Equipped(sym))
    ensures k <= FOR ==> forall j :: 0 <= j < |sym| ==> sym[j].Name() != Keyword(k)
  {
    hide EntryOk, Keyword;
    forall i, j | 0 <= i < j < |sym|
      ensures sym[i].Name() != sym[j].Name()
    {
      KeywordsDiffer(CHAR + i, CHAR + j);
    }
    forall i | 0 <= i < |sym|
      ensures |sym[i].Name()| <= 64
    {
      KeywordLetters(CHAR + i);
    }
    if k <= FOR {
      forall j | 0 <= j < |sym|
        ensures sym[j].Name() != Keyword(k)
      {
        KeywordsDiffer(CHAR + j, k);
      }
    } else {
      forall w | CHAR <= w <= FOR
        ensures HasKeyword(sym, w)
      {
        assert sym[w - CHAR].tk == w && sym[w - CHAR].Name() == Keyword(w);
      }
    }
  }

  /** The tail of the keyword text from the k-th word on, after the blank that ends the word before. */
  lemma {:induction false} SpacedAt(text: seq<char>, p: nat, k: int)
    requires CHAR <= k <= FOR && StandsAt(text, p, Spaced(k))
    ensures var q := p + |Keyword(k)|;
      StandsAt(text, p, Keyword(k)) && CharAt(text, q) == ' ' && StandsAt(text, q + 1, Spaced(k + 1))
  {
    hide Keyword;
    var s, n := Spaced(k), |Keyword(k)|;
    StandsTail(text, p, s, n + 1);
    StandsInside(text, p, s);
    assert s[n + 1..] == Spaced(k + 1);
    assert text[p..p + n] == text[p..p + |s|][..n];
  }

  /** The text's next words are the keywords from k on. */
  predicate Facing(text: seq<char>, p: nat, k: int) {
    StandsAt(text, p, Spaced(k)) || (CharAt(text, p) == ' ' && StandsAt(text, p + 1, Spaced(k)))
  }

  /** The keyword loop of main: every word goes through next and gets its token. */
  method AddKeywords(s: Scanner)
    requires s.sym == [] && s.p == 0 && StandsAt(s.text, 0, Spaced(CHAR))
    modifies s`p, s`tk, s`ival, s`id, s`sym, s`data
    ensures HoldsKeywords(s.sym, FOR + 1) && Equipped(s.sym)
  {
    hide Lex, Keyword, EntryOk, Table, Spaced, StandsAt, CharAt, HoldsKeywords, Equipped;
    NoKeywords();
    var i := CHAR;
    while i <= FOR
      invariant CHAR <= i <= FOR + 1 && HoldsKeywords(s.sym, i) && Facing(s.text, s.p, i)
    {
      KeywordScans(s.text, s.At(), i);
      s.Next();
      s.sym := s.sym[s.id := s.sym[s.id].(tk := i)];
      i := i + 1;
    }
    KeywordTable(s.sym, FOR + 1);
  }

  lemma NoKeywords()
    ensures HoldsKeywords([], CHAR)
  {
  }

  /** What next does in one turn of that loop. */
  lemma {:induction false} KeywordScans(text: seq<char>, v: View, k: int)
    requires CHAR <= k <= FOR && HoldsKeywords(v.sym, k) && Facing(text, v.p, k)
    ensures var w := Lex(text, v);
      && Facing(text, w.p, k + 1) && w.id == |v.sym| && |w.sym| == |v.sym| + 1
      && HoldsKeywords(w.sym[w.id := w.sym[w.id].(tk := k)], k + 1)
  {
    hide Lex, Keyword, EntryOk, Table, Spaced, StandsAt, CharAt;
    var v1 := v;
    if !StandsAt(text, v.p, Spaced(k)) {
      LexBlank(text, v);
      v1 := v.(p := v.p + 1);
    }
    KeywordTable(v.sym, k);
    KeywordLetters(k);
    SpacedAt(text, v1.p, k);
    NewNameScans(text, v1, Keyword(k));
    Retagged(v.sym, Entry(ID, NameHash(Keyword(k)), text[v1.p..]), k);
  }

  lemma {:induction false} Retagged(sym: seq<Entry>, e: Entry, k: int)
    requires CHAR <= k <= FOR && HoldsKeywords(sym, k) && EntryOk(e) && e.Name() == Keyword(k)
    ensures var grown := sym + [e];
      HoldsKeywords(grown[|sym| := grown[|sym|].(tk := k)], k + 1)
  {
    hide Keyword, NameHash, WordEnd;
    var t := e.(tk := k);
    assert t.Name() == e.Name();
    assert (sym + [e])[|sym| := t] == sym + [t];
  }
}
