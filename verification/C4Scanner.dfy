/** The c4 scanner: source text to tokens, with the symbol table that it fills. */
module C4Scanner {
  import opened Words
  import opened Numbers
  import opened Tok

  const NUL := 0 as char

  /** A symbol-table entry: its token, its hash, and the source from its name's first character on. */
  datatype Entry = Entry(tk: int, hash: int, chars: seq<char>) {
    function Name(): seq<char> {
      chars[..WordEnd(chars, 0)]
    }
  }

  /** The scanner's variables: position, token, number, identifier, symbol table and string data. */
  datatype View = View(p: nat, tk: int, ival: int, id: nat, sym: seq<Entry>, data: seq<char>)

  /** The character at p; the text ends with a zero. */
  function CharAt(text: seq<char>, p: nat): char {
    if p < |text| then text[p] else NUL
  }

  predicate IsLetter(c: char) {
    'a' <= c <= 'z' || 'A' <= c <= 'Z' || c == '_'
  }

  predicate IsNameChar(c: char) {
    IsLetter(c) || '0' <= c <= '9'
  }

  // ---------------------------------------------------------------- what a call finds

  /** Where a name that goes on at p ends. */
  function WordEnd(text: seq<char>, p: nat): (q: nat)
    ensures p <= q && (p <= |text| ==> q <= |text|)
    decreases |text| - p
  {
    if p < |text| && IsNameChar(text[p]) then WordEnd(text, p + 1) else p
  }

  /** Where a line that goes on at p ends. */
  function LineEnd(text: seq<char>, p: nat): (q: nat)
    ensures p <= q
    decreases |text| - p
  {
    if p < |text| && text[p] != '\n' && text[p] != NUL then LineEnd(text, p + 1) else p
  }

  function Mix(name: seq<char>): int
    requires |name| > 0
  {
    var k := |name| - 1;
    if k == 0 then name[0] as int else Wrap(Mix(name[..k]) * 147 + name[k] as int)
  }

  /** The hash in 32-bit arithmetic; its low six bits are those of the length. */
  function NameHash(name: seq<char>): int
    requires |name| > 0
  {
    Wrap(Wrap(Mix(name) * 64) + |name|)
  }

  predicate Matches(e: Entry, hash: int, name: seq<char>) {
    e.hash == hash && name <= e.chars
  }

  /** The first entry from i on that matches, or the table's length. */
  function Find(sym: seq<Entry>, i: nat, hash: int, name: seq<char>): (k: nat)
    requires i <= |sym|
    ensures i <= k <= |sym|
    ensures forall j :: i <= j < k ==> !Matches(sym[j], hash, name)
    ensures k < |sym| ==> Matches(sym[k], hash, name)
    decreases |sym| - i
  {
    if i == |sym| || Matches(sym[i], hash, name) then i else Find(sym, i + 1, hash, name)
  }

  /** The value and the end of the digits at p, taken on to acc in 32-bit arithmetic. */
  function Fold(text: seq<char>, p: nat, base: nat, acc: int): (r: (int, nat))
    ensures r.1 >= p
    decreases |text| - p
  {
    if p < |text| && IsDigit(text[p], base) then Fold(text, p + 1, base, Wrap(acc * base + DigitOf(text[p])))
    else (acc, p)
  }

  /** The number that starts with the digit at p. */
  function Number(text: seq<char>, p: nat): (r: (int, nat))
    requires p < |text| && IsDigit(text[p], 10)
    ensures r.1 > p
  {
    if text[p] != '0' then Fold(text, p + 1, 10, DigitOf(text[p]))
    else if CharAt(text, p + 1) == 'x' || CharAt(text, p + 1) == 'X' then Fold(text, p + 2, 16, 0)
    else Fold(text, p + 1, 8, 0)
  }

  /** A character or string literal from p on: the last character's value, the end, and the characters. */
  function Literal(text: seq<char>, p: nat, quote: char, ival: int): (r: (int, nat, seq<char>))
    ensures r.1 > p
    decreases |text| - p
  {
    var c := CharAt(text, p);
    if c == NUL || c == quote then (ival, p + 1, [])
    else
      var one := LiteralChar(text, p);
      var rest := Literal(text, one.1, quote, one.0 as int);
      (rest.0, rest.1, [one.0] + rest.2)
  }

  /** One character of a literal; after a backslash, n is a line feed and any other character itself. */
  function LiteralChar(text: seq<char>, p: nat): (r: (char, nat))
    ensures r.1 > p
  {
    if CharAt(text, p) != '\\' then (CharAt(text, p), p + 1)
    else (if CharAt(text, p + 1) == 'n' then '\n' else CharAt(text, p + 1), p + 2)
  }

  /** The token that starts with c when d follows, and its length; 0 when c starts none. */
  function Operator(c: char, d: char): (r: (int, nat)) {
    if c == '=' then (if d == '=' then (EQ, 2) else (ASSIGN, 1))
    else if c == '+' then (if d == '+' then (INC, 2) else (ADD, 1))
    else if c == '-' then (if d == '-' then (DEC, 2) else (SUB, 1))
    else if c == '!' then (if d == '=' then (NE, 2) else (BANG, 1))
    else if c == '<' then (if d == '=' then (LE, 2) else if d == '<' then (SHL, 2) else (LT, 1))
    else if c == '>' then (if d == '=' then (GE, 2) else if d == '>' then (SHR, 2) else (GT, 1))
    else if c == '|' then (if d == '|' then (LOR, 2) else (OR, 1))
    else if c == '&' then (if d == '&' then (LAN, 2) else (AND, 1))
    else if c == '^' then (XOR, 1)
    else if c == '%' then (MOD, 1)
    else if c == '*' then (MUL, 1)
    else if c == '[' then (BRAK, 1)
    else if c == '?' then (COND, 1)
    else if c in {'~', ';', '{', '}', '(', ')', ']', ',', ':'} then (c as int, 1)
    else (0, 1)
  }

  /** One call of `next`: blanks, comments, `#` lines and unknown characters are passed over. */
  function Lex(text: seq<char>, v: View): (w: View)
    ensures w.tk != 0 ==> v.p < w.p && v.p < |text|
    decreases |text| - v.p
  {
    var c, d := CharAt(text, v.p), CharAt(text, v.p + 1);
    if c == NUL then v.(tk := 0)
    else if c == '#' then Lex(text, v.(p := LineEnd(text, v.p + 1)))
    else if IsLetter(c) then LexWord(text, v)
    else if '0' <= c <= '9' then
      var n := Number(text, v.p);
      v.(tk := NUM, ival := n.0, p := n.1)
    else if c == '/' then
      if d == '/' then Lex(text, v.(p := LineEnd(text, v.p + 2))) else v.(tk := DIV, p := v.p + 1)
    else if c == '\'' || c == '"' then LexLiteral(text, v)
    else
      var o := Operator(c, d);
      if o.0 == 0 then Lex(text, v.(p := v.p + 1)) else v.(tk := o.0, p := v.p + o.1)
  }

  /** A character literal is a number; a string goes to the data area. */
  function LexLiteral(text: seq<char>, v: View): (w: View)
    requires v.p < |text|
    ensures w.p > v.p
  {
    var l := Literal(text, v.p + 1, text[v.p], v.ival);
    if text[v.p] == '"' then v.(tk := QUOTE, ival := |v.data|, data := v.data + l.2, p := l.1)
    else v.(tk := NUM, ival := l.0, p := l.1)
  }

  /** A name: the entry that has it, or a new one. */
  function LexWord(text: seq<char>, v: View): (w: View)
    requires v.p < |text| && IsLetter(text[v.p])
    ensures w.p > v.p
  {
    var q := WordEnd(text, v.p);
    var name := text[v.p..q];
    var i := Find(v.sym, 0, NameHash(name), name);
    if i < |v.sym| then v.(tk := v.sym[i].tk, id := i, p := q)
    else v.(tk := ID, id := i, p := q, sym := v.sym + [Entry(ID, NameHash(name), text[v.p..])])
  }

  /** The token of a view, with the parts that count for its kind. */
  function TokenOf(v: View): Token {
    Token(v.tk, if v.tk == NUM || v.tk == QUOTE then v.ival else 0, if v.tk == ID then v.id else 0)
  }

  // ---------------------------------------------------------------- the scanner

  class Scanner {
    var text: seq<char>
    var p: nat
    var tk: int
    var ival: int
    var id: nat
    var sym: seq<Entry>
    var data: seq<char>

    constructor (text: seq<char>)
      ensures this.text == text && At() == View(0, 0, 0, 0, [], [])
    {
      this.text := text;
      p, tk, ival, id, sym, data := 0, 0, 0, 0, [], [];
    }

    function At(): View
      reads this
    {
      View(p, tk, ival, id, sym, data)
    }

    /** next: the variables after it are those of the function. */
    method Next()
      modifies this`p, this`tk, this`ival, this`id, this`sym, this`data
      ensures At() == Lex(text, old(At()))
    {
      hide Lex, LexWord, Number, Literal, Operator, LineEnd;
      ghost var v := At();
      while CharAt(text, p) != NUL
        invariant At() == v.(p := p, tk := tk) && Lex(text, v.(p := p)) == Lex(text, v)
        decreases |text| - p
      {
        LexCases(v.(p := p));
        var c := text[p];
        tk := c as int;
        p := p + 1;
        if c == '\n' {
          NewlineIsBlank(CharAt(text, p));
        } else if c == '#' {
          SkipLine();
        } else if IsLetter(c) {
          WordFromHere(v.(p := p - 1), tk);
          ScanWord();
          return;
        } else if '0' <= c <= '9' {
          ScanNumber();
          return;
        } else if c == '/' {
          if CharAt(text, p) == '/' {
            p := p + 1;
            SkipLine();
          } else {
            tk := DIV;
            return;
          }
        } else if c == '\'' || c == '"' {
          LiteralFromHere(v.(p := p - 1), tk);
          ScanLiteral();
          return;
        } else {
          var found := ScanOperator();
          if found {
            return;
          }
        }
      }
      LexCases(v.(p := p));
      tk := 0;
    }

    lemma {:induction false} LexCases(v: View)
      ensures var c, d := CharAt(text, v.p), CharAt(text, v.p + 1);
        var w := Lex(text, v);
        if c == NUL then w == v.(tk := 0)
        else if c == '#' then w == Lex(text, v.(p := LineEnd(text, v.p + 1)))
        else if c == '/' && d == '/' then w == Lex(text, v.(p := LineEnd(text, v.p + 2)))
        else if c == '/' then w == v.(tk := DIV, p := v.p + 1)
        else if IsLetter(c) then w == LexWord(text, v)
        else if '0' <= c <= '9' then w == v.(tk := NUM, ival := Number(text, v.p).0, p := Number(text, v.p).1)
        else if c == '\'' || c == '"' then w == LexLiteral(text, v)
        else if Operator(c, d).0 == 0 then w == Lex(text, v.(p := v.p + 1))
        else w == v.(tk := Operator(c, d).0, p := v.p + Operator(c, d).1)
    {
      hide LexWord, Number, Literal, Operator, LineEnd;
    }

    lemma NewlineIsBlank(d: char)
      ensures Operator('\n', d) == (0, 1)
    {
    }

    lemma WordFromHere(v: View, t: int)
      requires v.p < |text| && IsLetter(text[v.p])
      ensures LexWord(text, v.(tk := t)) == LexWord(text, v)
    {
    }

    lemma LiteralFromHere(v: View, t: int)
      requires v.p < |text|
      ensures LexLiteral(text, v.(tk := t)) == LexLiteral(text, v)
    {
    }

    method SkipLine()
      modifies this`p
      ensures p == LineEnd(text, old(p))
    {
      while CharAt(text, p) != NUL && CharAt(text, p) != '\n'
        invariant LineEnd(text, p) == LineEnd(text, old(p))
        decreases |text| - p
      {
        p := p + 1;
      }
    }

    /** The rest of a name: its hash, and its entry in the table. */
    method ScanWord()
      requires 0 < p <= |text| && IsLetter(text[p - 1]) && tk == text[p - 1] as int
      modifies this`p, this`tk, this`id, this`sym
      ensures At() == LexWord(text, old(At()).(p := old(p) - 1))
    {
      hide Find, Mix, IsNameChar, WordEnd;
      var pp := p - 1;
      HashWord();
      Lookup(pp);
    }

    method HashWord()
      requires 0 < p <= |text| && IsLetter(text[p - 1]) && tk == text[p - 1] as int
      modifies this`p, this`tk
      ensures old(p) <= p <= |text| && p == WordEnd(text, old(p) - 1) && tk == NameHash(text[old(p) - 1..p])
    {
      hide Mix, Wrap;
      var pp := p - 1;
      MixOne(pp);
      while IsNameChar(CharAt(text, p))
        invariant pp < p <= |text| && tk == Mix(text[pp..p]) && WordEnd(text, p) == WordEnd(text, pp)
        decreases |text| - p
      {
        MixNext(pp, p);
        tk := Wrap(tk * 147 + text[p] as int);
        p := p + 1;
      }
      tk := Wrap(Wrap(tk * 64) + (p - pp));
    }

    lemma MixOne(pp: nat)
      requires pp < |text|
      ensures Mix(text[pp..pp + 1]) == text[pp] as int
    {
    }

    lemma MixNext(pp: nat, q: nat)
      requires pp < q < |text|
      ensures Mix(text[pp..q + 1]) == Wrap(Mix(text[pp..q]) * 147 + text[q] as int)
    {
      hide Wrap;
      assert text[pp..q + 1][..q - pp] == text[pp..q];
    }

    /** The search of the symbol table, from its start. */
    method Lookup(pp: nat)
      requires pp < p <= |text| && tk == NameHash(text[pp..p])
      modifies this`tk, this`id, this`sym
      ensures var i := Find(old(sym), 0, old(tk), text[pp..p]);
        && id == i && tk == (if i < |old(sym)| then old(sym)[i].tk else ID)
        && sym == if i < |old(sym)| then old(sym) else old(sym) + [Entry(ID, old(tk), text[pp..])]
    {
      hide NameHash;
      var name := text[pp..p];
      id := 0;
      while id < |sym|
        modifies this`id, this`tk
        invariant tk == old(tk) && id <= |sym| && Find(sym, id, tk, name) == Find(sym, 0, tk, name)
      {
        if tk == sym[id].hash && name <= sym[id].chars {
          tk := sym[id].tk;
          return;
        }
        id := id + 1;
      }
      sym := sym + [Entry(ID, tk, text[pp..])];
      tk := ID;
    }

    /** A decimal, hexadecimal or octal number. */
    method ScanNumber()
      requires 0 < p <= |text| && '0' <= text[p - 1] <= '9'
      modifies this`p, this`tk, this`ival
      ensures var n := Number(text, old(p) - 1); tk == NUM && ival == n.0 && p == n.1
    {
      hide Fold;
      ival := text[p - 1] as int - '0' as int;
      if ival != 0 {
        Decimals();
      } else if CharAt(text, p) == 'x' || CharAt(text, p) == 'X' {
        p := p + 1;
        Hexadecimals();
      } else {
        Octals();
      }
      tk := NUM;
    }

    method Decimals()
      modifies this`p, this`ival
      ensures (ival, p) == Fold(text, old(p), 10, old(ival))
    {
      while '0' <= CharAt(text, p) <= '9'
        invariant Fold(text, p, 10, ival) == Fold(text, old(p), 10, old(ival))
        decreases |text| - p
      {
        ival := Wrap(ival * 10 + (text[p] as int - '0' as int));
        p := p + 1;
      }
    }

    method Hexadecimals()
      modifies this`p, this`ival
      ensures (ival, p) == Fold(text, old(p), 16, old(ival))
    {
      while IsHex(CharAt(text, p))
        invariant Fold(text, p, 16, ival) == Fold(text, old(p), 16, old(ival))
        decreases |text| - p
      {
        HexDigit(text[p]);
        ival := Wrap(ival * 16 + (text[p] as int % 16 + if text[p] >= 'A' then 9 else 0));
        p := p + 1;
      }
    }

    method Octals()
      modifies this`p, this`ival
      ensures (ival, p) == Fold(text, old(p), 8, old(ival))
    {
      while '0' <= CharAt(text, p) <= '7'
        invariant Fold(text, p, 8, ival) == Fold(text, old(p), 8, old(ival))
        decreases |text| - p
      {
        ival := Wrap(ival * 8 + (text[p] as int - '0' as int));
        p := p + 1;
      }
    }

    predicate IsHex(c: char) {
      '0' <= c <= '9' || 'a' <= c <= 'f' || 'A' <= c <= 'F'
    }

    /** The low four bits of a letter's code, plus nine, are its value. */
    lemma HexDigit(c: char)
      requires IsHex(c)
      ensures DigitOf(c) == c as int % 16 + if c >= 'A' then 9 else 0
    {
    }

    /** A character or string literal with its escapes. */
    method ScanLiteral()
      requires 0 < p <= |text| && (text[p - 1] == '\'' || text[p - 1] == '"') && tk == text[p - 1] as int
      modifies this`p, this`tk, this`ival, this`data
      ensures At() == LexLiteral(text, old(At()).(p := old(p) - 1))
    {
      hide Literal;
      var quote := text[p - 1];
      var pp := |data|;
      ReadLiteral(quote);
      p := p + 1;
      if quote == '"' {
        ival := pp;
      } else {
        tk := NUM;
      }
    }

    /** The characters up to the closing quote or the end of the text. */
    method ReadLiteral(quote: char)
      modifies this`p, this`ival, this`data
      ensures var l := Literal(text, old(p), quote, old(ival));
        p + 1 == l.1 && ival == l.0 && data == if quote == '"' then old(data) + l.2 else old(data)
    {
      hide Literal, LiteralChar;
      ghost var read: seq<char> := [];
      ghost var all := Literal(text, p, quote, ival);
      while CharAt(text, p) != NUL && CharAt(text, p) != quote
        invariant LiteralSoFar(quote, read, all)
        invariant data == old(data) + if quote == '"' then read else []
        decreases |text| - p
      {
        LiteralSplit(p, quote, ival);
        var c := TakeChar();
        if quote == '"' {
          data := data + [c];
        }
        read := read + [c];
      }
      LiteralSplit(p, quote, ival);
    }

    lemma LiteralSplit(q: nat, quote: char, i: int)
      ensures var all := Literal(text, q, quote, i);
        var one := LiteralChar(text, q);
        if CharAt(text, q) == NUL || CharAt(text, q) == quote then all == (i, q + 1, [])
        else var rest := Literal(text, one.1, quote, one.0 as int);
          all.0 == rest.0 && all.1 == rest.1 && all.2 == [one.0] + rest.2
    {
      hide LiteralChar;
    }

    ghost predicate LiteralSoFar(quote: char, read: seq<char>, all: (int, nat, seq<char>))
      reads this`text, this`p, this`ival
    {
      var l := Literal(text, p, quote, ival);
      l.0 == all.0 && l.1 == all.1 && read + l.2 == all.2
    }

    method TakeChar() returns (c: char)
      requires p < |text|
      modifies this`p, this`ival
      ensures (c, p) == LiteralChar(text, old(p)) && ival == c as int
    {
      c := text[p];
      p := p + 1;
      if c == '\\' {
        c := if CharAt(text, p) == 'n' then '\n' else CharAt(text, p);
        p := p + 1;
      }
      ival := c as int;
    }

    /** An operator or a single-character token. */
    method ScanOperator() returns (found: bool)
      requires 0 < p <= |text| && tk == text[p - 1] as int
      modifies this`p, this`tk
      ensures var o := Operator(text[old(p) - 1], CharAt(text, old(p)));
        if o.0 == 0 then !found && p == old(p) else found && tk == o.0 && p == old(p) - 1 + o.1
    {
      var c := text[p - 1];
      found := true;
      match c {
        case '=' => OneOrTwo('=', EQ, ASSIGN);
        case '+' => OneOrTwo('+', INC, ADD);
        case '-' => OneOrTwo('-', DEC, SUB);
        case '!' => OneOrTwo('=', NE, tk);
        case '<' => if CharAt(text, p) == '=' { p, tk := p + 1, LE; } else { OneOrTwo('<', SHL, LT); }
        case '>' => if CharAt(text, p) == '=' { p, tk := p + 1, GE; } else { OneOrTwo('>', SHR, GT); }
        case '|' => OneOrTwo('|', LOR, OR);
        case '&' => OneOrTwo('&', LAN, AND);
        case '^' => tk := XOR;
        case '%' => tk := MOD;
        case '*' => tk := MUL;
        case '[' => tk := BRAK;
        case '?' => tk := COND;
        case _ => found := c in {'~', ';', '{', '}', '(', ')', ']', ',', ':'};
      }
    }

    /** One token when d follows, another when not. */
    method OneOrTwo(d: char, two: int, one: int)
      modifies this`p, this`tk
      ensures if CharAt(text, old(p)) == d then p == old(p) + 1 && tk == two else p == old(p) && tk == one
    {
      if CharAt(text, p) == d {
        p, tk := p + 1, two;
      } else {
        tk := one;
      }
    }
  }

  // ---------------------------------------------------------------- the symbol table

  /** An entry for a name, with its hash. */
  ghost predicate EntryOk(e: Entry) {
    e.tk != 0 && e.chars != [] && IsLetter(e.chars[0]) && |e.Name()| > 0 && e.hash == NameHash(e.Name())
  }

  /** No two entries have the same name. */
  ghost predicate Table(sym: seq<Entry>) {
    && (forall i :: 0 <= i < |sym| ==> EntryOk(sym[i]))
    && (forall i, j :: 0 <= i < j < |sym| ==> sym[i].Name() != sym[j].Name())
  }

  /** All names have at most 64 characters. */
  ghost predicate Short(sym: seq<Entry>) {
    forall i :: 0 <= i < |sym| ==> |sym[i].Name()| <= 64
  }

  lemma {:induction false} WrapLow(x: int)
    ensures Wrap(x) % 64 == x % 64
  {
    var q := (x + 0x8000_0000) / 0x1_0000_0000;
    assert Wrap(x) == x - 64 * (q * 0x400_0000);
    SubtractSixtyFours(x, q * 0x400_0000);
  }

  lemma SubtractSixtyFours(x: int, k: int)
    ensures (x - 64 * k) % 64 == x % 64
  {
  }

  lemma {:induction false} HashLength(name: seq<char>)
    requires |name| > 0
    ensures NameHash(name) % 64 == |name| % 64
  {
    hide Wrap, Mix;
    var m := Mix(name);
    WrapLow(m * 64);
    WrapLow(Wrap(m * 64) + |name|);
    SubtractSixtyFours(m * 64, m);
  }

  /** A name matches its own entry. */
  lemma OwnMatches(e: Entry, name: seq<char>)
    requires EntryOk(e) && |name| > 0
    ensures e.Name() == name ==> Matches(e, NameHash(name), name)
  {
    hide NameHash;
  }

  /** A match is the name itself: equal hashes have lengths equal modulo 64, so the prefix compared is the whole
      name. */
  lemma {:induction false} MatchIsName(e: Entry, name: seq<char>)
    requires EntryOk(e) && |e.Name()| <= 64 && 0 < |name| <= 64
    ensures Matches(e, NameHash(name), name) <==> e.Name() == name
  {
    hide NameHash;
    HashLength(name);
    HashLength(e.Name());
  }

  /** The lookup misses no entry with the name, however long. */
  lemma {:induction false} FindOwn(sym: seq<Entry>, name: seq<char>)
    requires Table(sym) && |name| > 0 && Find(sym, 0, NameHash(name), name) == |sym|
    ensures forall j :: 0 <= j < |sym| ==> sym[j].Name() != name
  {
    hide NameHash, Find, Matches;
    forall j | 0 <= j < |sym|
      ensures sym[j].Name() != name
    {
      OwnMatches(sym[j], name);
    }
  }

  /** The lookup finds the name's entry if and only if there is one. */
  lemma {:induction false} FindExact(sym: seq<Entry>, name: seq<char>)
    requires Table(sym) && Short(sym) && 0 < |name| <= 64
    ensures var i := Find(sym, 0, NameHash(name), name);
      if i < |sym| then sym[i].Name() == name else forall j :: 0 <= j < |sym| ==> sym[j].Name() != name
  {
    hide NameHash, Find, Matches;
    forall j | 0 <= j < |sym|
      ensures Matches(sym[j], NameHash(name), name) <==> sym[j].Name() == name
    {
      MatchIsName(sym[j], name);
    }
  }

  // ---------------------------------------------------------------- two names that the search confuses

  function As(n: nat): (s: seq<char>)
    ensures |s| == n && forall i :: 0 <= i < n ==> s[i] == 'a'
  {
    seq(n, _ => 'a')
  }

  /** A name of 65 characters: 59 times a, and an end found so that its hash is that of the name a. */
  function LongName(): (s: seq<char>)
    ensures |s| == 65
  {
    As(59) + "gysrvh"
  }

  /** The number whose 32-bit part is mixed into the hash. */
  function Exact(name: seq<char>): int
    requires |name| > 0
  {
    var k := |name| - 1;
    if k == 0 then name[0] as int else Exact(name[..k]) * 147 + name[k] as int
  }

  lemma {:induction false} MixIsExact(name: seq<char>)
    requires |name| > 0 && forall i :: 0 <= i < |name| ==> IsWord(name[i] as int)
    ensures Mix(name) == Wrap(Exact(name))
    decreases |name|
  {
    hide Wrap;
    var k := |name| - 1;
    if k > 0 {
      MixIsExact(name[..k]);
      WrapStep(Exact(name[..k]), 147, name[k] as int);
    }
  }

  function SumOfAs(n: nat): int {
    if n == 0 then 0 else SumOfAs(n - 1) * 147 + 97
  }

  lemma {:induction false} ExactAs(n: nat)
    requires n > 0
    ensures Exact(As(n)) == SumOfAs(n)
    decreases n
  {
    if n > 1 {
      ExactAs(n - 1);
      assert As(n)[..n - 1] == As(n - 1);
    }
  }

  lemma {:induction false} ExactJoin(s: seq<char>, c: char)
    requires |s| > 0
    ensures Exact(s + [c]) == Exact(s) * 147 + c as int
  {
    assert (s + [c])[..|s|] == s;
  }

  lemma {:induction false} ExactLong()
    ensures Exact(LongName()) == EXACT
  {
    hide As, Exact, SumOfAs;
    ExactAs(59);
    Sum59();
    var s := As(59);
    ExactJoin(s, 'g');
    ExactJoin(s + ['g'], 'y');
    ExactJoin(s + ['g'] + ['y'], 's');
    ExactJoin(s + ['g'] + ['y'] + ['s'], 'r');
    ExactJoin(s + ['g'] + ['y'] + ['s'] + ['r'], 'v');
    ExactJoin(s + ['g'] + ['y'] + ['s'] + ['r'] + ['v'], 'h');
    assert s + ['g'] + ['y'] + ['s'] + ['r'] + ['v'] + ['h'] == LongName();
  }

  lemma {:induction false} SumJoin(m: nat, n: nat)
    ensures SumOfAs(m + n) == SumOfAs(m) * Power(147, n) + SumOfAs(n)
    decreases n
  {
    if n > 0 {
      SumJoin(m, n - 1);
      Regroup(SumOfAs(m), Power(147, n - 1));
    }
  }

  lemma {:induction false} PowerJoin(m: nat, n: nat)
    ensures Power(147, m + n) == Power(147, m) * Power(147, n)
    decreases n
  {
    if n > 0 {
      PowerJoin(m, n - 1);
      Regroup(Power(147, m), Power(147, n - 1));
    }
  }

  lemma Regroup(x: int, z: int)
    ensures x * (147 * z) == (x * z) * 147
  {
  }

  lemma {:induction false} SumOfSeven()
    ensures SumOfAs(7) == 985462770213109 && Power(147, 7) == 1483273860320763
    ensures SumOfAs(3) == 2110429 && Power(147, 3) == 3176523
  {
  }

  lemma {:induction false} Sum59()
    ensures SumOfAs(59) == SUM
  {
    hide SumOfAs, Power;
    SumOfSeven();
    SumJoin(7, 7);
    PowerJoin(7, 7);
    SumJoin(14, 14);
    PowerJoin(14, 14);
    SumJoin(28, 28);
    SumJoin(56, 3);
  }

  const TEN64: int := 10000000000000000000000000000000000000000000000000000000000000000

  const SUM: int :=
    4944719139008171739181091736371945086738069067191109488469366129 * TEN64
    + 581339884238466950965825334222336313580949486563937263023250349
  const EXACT: int :=
    49893691466112996002066186193180013014611460789772242019346966277899427571848 * TEN64
    + 3580681153019361703441590098943063631805857694149824859621818464
  const QUOTIENT: int :=
    11616780298322671093527736652917231669326187295320500158552771033230 * TEN64
    + 1043839772134246573089473346118254144429942507251598335371777615

  lemma {:induction false} HashesAgree()
    ensures NameHash(LongName()) == NameHash("a")
  {
    hide Mix, Exact;
    ExactLong();
    MixIsExact(LongName());
    WrapIs(EXACT, 1811939424, QUOTIENT);
    assert Mix("a") == 97 by { MixOfA(); }
  }

  lemma MixOfA()
    ensures Mix("a") == 97
  {
  }

  /** With the long name in the table, a search for the name a ends at it: hash and compared prefix agree. */
  lemma {:induction false} NamesConfused()
    ensures var e := Entry(ID, NameHash(LongName()), LongName());
      && e.Name() == LongName() != "a"
      && Find([e], 0, NameHash("a"), "a") == 0 && Matches(e, NameHash("a"), "a")
  {
    hide Mix, Wrap, NameHash;
    HashesAgree();
    AllLetters(LongName(), 0);
  }

  lemma {:induction false} AllLetters(s: seq<char>, k: nat)
    requires k <= |s| && forall i :: 0 <= i < |s| ==> IsLetter(s[i])
    ensures WordEnd(s, k) == |s|
    decreases |s| - k
  {
    if k < |s| { AllLetters(s, k + 1); }
  }

  /** Among names of at most n characters the search confuses none. */
  ghost predicate ExactUpTo(n: nat) {
    forall e: Entry, name: seq<char> :: EntryOk(e) && |e.Name()| <= n && 0 < |name| <= n
      ==> (Matches(e, NameHash(name), name) <==> e.Name() == name)
  }

  /** 64 characters are the limit. */
  lemma {:induction false} SafeExactly(n: nat)
    ensures ExactUpTo(n) <==> n <= 64
  {
    hide NameHash, Matches;
    if n <= 64 {
      forall e: Entry, name: seq<char> | EntryOk(e) && |e.Name()| <= n && 0 < |name| <= n
        ensures Matches(e, NameHash(name), name) <==> e.Name() == name
      {
        MatchIsName(e, name);
      }
    } else {
      NamesConfused();
      var e := Entry(ID, NameHash(LongName()), LongName());
      assert EntryOk(e) && |e.Name()| <= n && Matches(e, NameHash("a"), "a") && e.Name() != "a";
    }
  }

  /** Every call keeps the table free of double names, and entries stay where they are. */
  lemma {:induction false} LexKeepsTable(text: seq<char>, v: View)
    requires Table(v.sym)
    ensures Table(Lex(text, v).sym) && v.sym <= Lex(text, v).sym
    decreases |text| - v.p
  {
    hide LexWord, LexLiteral, Number, Operator, LineEnd, Table;
    var c, d := CharAt(text, v.p), CharAt(text, v.p + 1);
    if c == '#' {
      LexKeepsTable(text, v.(p := LineEnd(text, v.p + 1)));
    } else if IsLetter(c) {
      WordKeepsTable(text, v);
    } else if c == '\'' || c == '"' {
      LiteralKeepsTable(text, v);
    } else if c == '/' && d == '/' {
      LexKeepsTable(text, v.(p := LineEnd(text, v.p + 2)));
    } else if c != NUL && !('0' <= c <= '9') && c != '/' && Operator(c, d).0 == 0 {
      LexKeepsTable(text, v.(p := v.p + 1));
    }
  }

  lemma LiteralKeepsTable(text: seq<char>, v: View)
    requires v.p < |text|
    ensures LexLiteral(text, v).sym == v.sym
  {
  }

  lemma {:induction false} WordKeepsTable(text: seq<char>, v: View)
    requires Table(v.sym) && v.p < |text| && IsLetter(text[v.p])
    ensures Table(LexWord(text, v).sym) && v.sym <= LexWord(text, v).sym
  {
    hide NameHash, Find, Matches, WordEnd;
    var q := WordEnd(text, v.p);
    var name := text[v.p..q];
    NameStarts(text, v.p);
    if Find(v.sym, 0, NameHash(name), name) == |v.sym| { FindOwn(v.sym, name); }
    NewEntry(text, v.p);
  }

  lemma NameStarts(text: seq<char>, p: nat)
    requires p < |text| && IsLetter(text[p])
    ensures p < WordEnd(text, p) <= |text|
  {
  }

  lemma {:induction false} WordEndInSuffix(text: seq<char>, p: nat, k: nat)
    requires p + k <= |text|
    ensures WordEnd(text[p..], k) == WordEnd(text, p + k) - p
    decreases |text| - p - k
  {
    if p + k < |text| {
      WordEndInSuffix(text, p, k + 1);
    }
  }

  lemma {:induction false} NewEntry(text: seq<char>, p: nat)
    requires p < |text| && IsLetter(text[p])
    ensures var e := Entry(ID, NameHash(text[p..WordEnd(text, p)]), text[p..]);
      EntryOk(e) && e.Name() == text[p..WordEnd(text, p)]
  {
    hide NameHash, WordEnd;
    NameStarts(text, p);
    WordEndInSuffix(text, p, 0);
    assert text[p..][..WordEnd(text, p) - p] == text[p..WordEnd(text, p)];
  }
}
