/** What text and control sequences do to the terminal when they are typed in as they are written: colours, lines that
    wrap, moves and edits that undo each other, and replies. */
module VtText {
  import opened Words
  import opened Numbers
  import opened RvCore
  import opened Vt

  /** The cell that a character leaves: bytes past ASCII show as a question mark, and reverse video exchanges the
      colours. */
  function Printed(pen: Pen, c: char): Cell {
    var ch := if c < 0x80 as char then c else '?';
    if pen.reverse then Cell(ch, pen.bg, pen.fg) else Cell(ch, pen.fg, pen.bg)
  }

  /** What erasing leaves: spaces in the pen's own colours. */
  function Clear(pen: Pen): Cell {
    Cell(' ', pen.fg, pen.bg)
  }

  /** The escape state is at rest, the cursor on the screen and the region in order. */
  ghost predicate Ready(s: Status) {
    s.parser.Ok() && s.parser.state == Ground && OnScreen(s.x, s.y) && 0 <= s.top < s.bot < H
  }

  /** A stream of tame bytes takes the status s and the screen pic to t and new. */
  ghost predicate Leads(s: Status, pic: Picture, bytes: seq<char>, t: Status, after: Picture)
    requires s.parser.Shaped()
  {
    TameFrom(s.parser, bytes) && StatusAfter(s, bytes) == t && Shown(s, pic, bytes) == after
  }

  lemma {:induction false} LeadsOn(s: Status, pic: Picture, a: seq<char>, t: Status, mid: Picture,
                                   b: seq<char>, u: Status, after: Picture)
    requires s.parser.Shaped() && t.parser.Shaped() && Leads(s, pic, a, t, mid) && Leads(t, mid, b, u, after)
    ensures Leads(s, pic, a + b, u, after)
    decreases |a|
  {
    hide Status.Effect, PictureAfter, Tame;
    if a == [] {
      assert a + b == b;
    } else {
      assert (a + b)[1..] == a[1..] + b;
      LeadsOn(s.After(a[0]), PictureAfter(s, pic, a[0]), a[1..], t, mid, b, u, after);
    }
  }

  lemma {:induction false} LeadsOne(s: Status, pic: Picture, c: char)
    requires s.parser.Shaped() && Tame(s.parser, c)
    ensures Leads(s, pic, [c], s.After(c), PictureAfter(s, pic, c))
  {
    hide Status.Effect, PictureAfter, Tame;
    var t, after := s.After(c), PictureAfter(s, pic, c);
    assert [c][1..] == [];
    assert TameFrom(t.parser, []) && StatusAfter(t, []) == t && Shown(t, after, []) == after;
  }

  lemma {:induction false} SamePicture(pic: Picture, q: Picture)
    requires forall r, c {:trigger OnScreen(c, r)} :: OnScreen(c, r) ==> CellOf(pic, r, c) == CellOf(q, r, c)
    ensures pic == q
  {
    forall r | 0 <= r < H
      ensures pic[r] == q[r]
    {
      forall c | 0 <= c < W
        ensures pic[r][c] == q[r][c]
      {
        assert OnScreen(c, r);
      }
    }
  }

  // ---------------------------------------------------------------- typing a control sequence

  /** ESC and [ begin an empty control sequence, and bytes up to the final one only change the parser. */
  lemma {:induction false} SequenceBegins(s: Status)
    requires s.parser.Shaped() && s.parser.state == Ground
    ensures s.After(ESC) == s.(parser := s.parser.(state := State.Esc))
    ensures s.After(ESC).After('[') == s.(parser := Parser(Csi, EmptyParams(), 0, false, false))
  {
  }

  lemma {:induction false} SequenceGathers(s: Status, c: char)
    requires s.parser.Shaped() && s.parser.state == Csi && 0x20 <= Code(c) < 0x40
    ensures s.After(c) == s.(parser := CsiNext(s.parser, c))
  {
    hide CsiNext;
  }

  lemma {:induction false} SequenceRuns(s: Status, c: char)
    requires s.parser.Shaped() && s.parser.state == Csi && IsFinal(c)
    ensures s.After(c) == s.Grounded().Ran(c).(parser := s.parser.Ended(c))
  {
    hide Status.Ran;
  }

  /** ESC [ on a terminal at rest. */
  lemma {:induction false} Begins(s: Status, pic: Picture)
    requires Ready(s)
    ensures Leads(s, pic, [ESC, '['], s.(parser := Parser(Csi, EmptyParams(), 0, false, false)), pic)
  {
    SequenceBegins(s);
    var e := s.After(ESC);
    SamePicture(PictureAfter(s, pic, ESC), pic);
    SamePicture(PictureAfter(e, pic, '['), pic);
    LeadsOne(s, pic, ESC);
    LeadsOne(e, pic, '[');
    LeadsOn(s, pic, [ESC], e, pic, ['['], e.After('['), pic);
    assert [ESC] + ['['] == [ESC, '['];
  }

  /** A byte that is gathered. */
  lemma {:induction false} Gathers(s: Status, pic: Picture, c: char)
    requires s.parser.Shaped() && s.parser.state == Csi && 0x20 <= Code(c) < 0x40 && Tame(s.parser, c)
    ensures Leads(s, pic, [c], s.(parser := CsiNext(s.parser, c)), pic)
  {
    hide CsiNext;
    SequenceGathers(s, c);
    NotFinal(c);
    SamePicture(PictureAfter(s, pic, c), pic);
    LeadsOne(s, pic, c);
  }

  lemma NotFinal(c: char)
    requires Code(c) < 0x40
    ensures !IsEditFinal(c) && !IsFinal(c)
  {
  }

  /** The digits of a number into an empty parameter. */
  lemma {:induction false} NumberTyped(s: Status, pic: Picture, ds: seq<char>)
    requires s.parser.Shaped() && s.parser.state == Csi && s.parser.params[s.parser.Current()] == 0
    requires AllDigits(ds, 10) && ds != [] && Value(ds, 10) < TAME
    ensures var p := s.parser;
      var q := p.(nparams := p.Current() + 1, params := p.params[p.Current() := Value(ds, 10)]);
      Leads(s, pic, ds, s.(parser := q), pic)
    decreases |ds|
  {
    hide CsiNext;
    var k, p := |ds| - 1, s.parser;
    var front, c := ds[..k], ds[k];
    assert ds == front + [c];
    DigitByte(c);
    if front == [] {
      FirstDigit(p, c);
      Gathers(s, pic, c);
    } else {
      var t := s.(parser := p.(nparams := p.Current() + 1, params := p.params[p.Current() := Value(front, 10)]));
      NumberTyped(s, pic, front);
      LaterDigit(p, front, c);
      Gathers(t, pic, c);
      LeadsOn(s, pic, front, t, pic, [c], t.(parser := CsiNext(t.parser, c)), pic);
    }
  }

  lemma DigitByte(c: char)
    requires Numbers.IsDigit(c, 10)
    ensures IsDecimal(c) && 0x20 <= Code(c) < 0x40 && DigitOf(c) == Code(c) - 48
  {
  }

  lemma FirstDigit(p: Parser, c: char)
    requires p.Shaped() && p.state == Csi && p.params[p.Current()] == 0 && Numbers.IsDigit(c, 10)
    ensures Value([c], 10) == DigitOf(c) && Tame(p, c)
    ensures CsiNext(p, c) == p.(nparams := p.Current() + 1, params := p.params[p.Current() := DigitOf(c)])
  {
    assert [c][..0] == [];
  }

  lemma LaterDigit(p: Parser, front: seq<char>, c: char)
    requires p.Shaped() && p.state == Csi && AllDigits(front + [c], 10) && Value(front + [c], 10) < TAME
    ensures AllDigits(front, 10) && Numbers.IsDigit(c, 10)
    ensures var q := p.(nparams := p.Current() + 1, params := p.params[p.Current() := Value(front, 10)]);
      && Tame(q, c)
      && CsiNext(q, c) ==
         p.(nparams := p.Current() + 1, params := p.params[p.Current() := Value(front + [c], 10)])
  {
    var all := front + [c];
    assert all[..|front|] == front && all[|front|] == c;
    forall k | 0 <= k < |front|
      ensures IsDigit(front[k], 10)
    {
      assert all[k] == front[k];
    }
    assert IsDigit(all[|front|], 10);
  }

  /** A parser that holds a sequence with one number, and with two. */
  function OneParam(n: int): (p: Parser)
    ensures p.Shaped()
  {
    Parser(Csi, EmptyParams()[0 := n], 1, false, false)
  }

  function TwoParams(n: int, m: int): (p: Parser)
    ensures p.Shaped()
  {
    Parser(Csi, EmptyParams()[0 := n][1 := m], 2, false, false)
  }

  /** ESC [ n f. */
  function Sequence(n: nat, final: char): seq<char> {
    [ESC, '['] + Digits(n, 10, false) + [final]
  }

  /** ESC [ n ; m f. */
  function Sequence2(n: nat, m: nat, final: char): seq<char> {
    [ESC, '['] + Digits(n, 10, false) + [';'] + Digits(m, 10, false) + [final]
  }

  lemma {:induction false} Typed(s: Status, pic: Picture, n: nat, final: char)
    requires Ready(s) && n < TAME && IsFinal(final)
    ensures var t := s.(parser := OneParam(n));
      Leads(s, pic, Sequence(n, final), t.After(final), PictureAfter(t, pic, final))
  {
    hide Digits, Leads, PictureAfter, Status.After;
    var ds := Digits(n, 10, false);
    ValueOfDigits(n, 10, false);
    var b, t := s.(parser := Parser(Csi, EmptyParams(), 0, false, false)), s.(parser := OneParam(n));
    Begins(s, pic);
    NumberTyped(b, pic, ds);
    LeadsOn(s, pic, [ESC, '['], b, pic, ds, t, pic);
    FinalTame(t, final);
    LeadsOne(t, pic, final);
    LeadsOn(s, pic, [ESC, '['] + ds, t, pic, [final], t.After(final), PictureAfter(t, pic, final));
  }

  lemma FinalTame(t: Status, final: char)
    requires t.parser.Shaped() && IsFinal(final)
    ensures Tame(t.parser, final)
  {
  }

  lemma {:induction false} Typed2(s: Status, pic: Picture, n: nat, m: nat, final: char)
    requires Ready(s) && n < TAME && m < TAME && IsFinal(final)
    ensures var t := s.(parser := TwoParams(n, m));
      Leads(s, pic, Sequence2(n, m, final), t.After(final), PictureAfter(t, pic, final))
  {
    hide Digits, Leads, PictureAfter, Status.After;
    var ds, es := Digits(n, 10, false), Digits(m, 10, false);
    ValueOfDigits(n, 10, false);
    ValueOfDigits(m, 10, false);
    var b, t1 := s.(parser := Parser(Csi, EmptyParams(), 0, false, false)), s.(parser := OneParam(n));
    var t2 := s.(parser := Parser(Csi, EmptyParams()[0 := n], 2, false, false));
    var t := s.(parser := TwoParams(n, m));
    Begins(s, pic);
    NumberTyped(b, pic, ds);
    LeadsOn(s, pic, [ESC, '['], b, pic, ds, t1, pic);
    Gathers(t1, pic, ';');
    LeadsOn(s, pic, [ESC, '['] + ds, t1, pic, [';'], t2, pic);
    NumberTyped(t2, pic, es);
    LeadsOn(s, pic, [ESC, '['] + ds + [';'], t2, pic, es, t, pic);
    FinalTame(t, final);
    LeadsOne(t, pic, final);
    LeadsOn(s, pic, [ESC, '['] + ds + [';'] + es, t, pic, [final], t.After(final), PictureAfter(t, pic, final));
  }

  // ---------------------------------------------------------------- colours

  /** What an SGR parameter makes of the colours. */
  predicate Colours(n: nat, pen: Pen, after: Pen) {
    if n == 0 then after == Pen(7, 0, false)
    else if n == 7 || n == 27 then after == Pen(pen.fg, pen.bg, n == 7)
    else if 30 <= n <= 37 then after == Pen(n - 30, pen.bg, pen.reverse)
    else if 90 <= n <= 97 then after == Pen(n - 90, pen.bg, pen.reverse)
    else if 40 <= n <= 47 then after == Pen(pen.fg, n - 40, pen.reverse)
    else if 100 <= n <= 107 then after == Pen(pen.fg, n - 100, pen.reverse)
    else if n == 39 then after == Pen(7, pen.bg, pen.reverse)
    else if n == 49 then after == Pen(pen.fg, 0, pen.reverse)
    else after == pen
  }

  lemma {:induction false} OneColour(n: nat, pen: Pen)
    ensures Colours(n, pen, SgrFrom([n], 0, pen))
  {
  }

  /** The glyph typed behind ESC [ n m has the colours that n gives, where the cursor is or a pending wrap takes it. */
  lemma {:induction false} ColourTyped(s: Status, pic: Picture, n: nat, c: char)
    requires Ready(s) && n < TAME && IsPrintable(c)
    ensures TameFrom(s.parser, Sequence(n, 'm') + [c])
    ensures var w := s.Wrapped();
      exists pen :: Colours(n, s.pen, pen) && StatusAfter(s, Sequence(n, 'm') + [c]).pen == pen
        && CellOf(Shown(s, pic, Sequence(n, 'm') + [c]), w.y, w.x) == Printed(pen, c)
  {
    hide Colours, Sequence, Next;
    var t := s.(parser := OneParam(n));
    var u, mid := t.After('m'), PictureAfter(t, pic, 'm');
    Typed(s, pic, n, 'm');
    ColoursSet(s, n);
    OneColour(n, s.pen);
    LeadsOne(u, mid, c);
    LeadsOn(s, pic, Sequence(n, 'm'), u, mid, [c], u.After(c), PictureAfter(u, mid, c));
    GlyphShown(u, mid, c);
  }

  lemma {:induction false} ColoursSet(s: Status, n: nat)
    requires Ready(s)
    ensures var u := s.(parser := OneParam(n)).After('m');
      u == s.(pen := SgrFrom([n], 0, s.pen), parser := u.parser) && u.parser.Shaped() && u.parser.state == Ground
  {
    hide SgrFrom;
    var t := s.(parser := OneParam(n));
    SequenceRuns(t, 'm');
    assert t.Grounded().parser.params[..1] == [n];
  }

  /** A glyph typed on a terminal at rest. */
  lemma {:induction false} GlyphShown(s: Status, pic: Picture, c: char)
    requires s.parser.Shaped() && s.parser.state == Ground && IsPrintable(c)
    requires OnScreen(s.x, s.y) && 0 <= s.top < s.bot < H
    ensures var w := s.Wrapped();
      && OnScreen(w.x, w.y) && CellOf(PictureAfter(s, pic, c), w.y, w.x) == Printed(s.pen, c)
      && s.After(c).pen == s.pen
  {
    hide Next, FedCell;
  }

  /** A terminal that is fed ESC [ 3 d m and a character shows it with foreground d. */
  method TypeColoured(t: Terminal, d: nat, c: Octet)
    requires t.Valid() && t.parser.state == Ground && d < 8 && IsPrintable(c)
    modifies t, t.screen
    ensures t.Valid() && t.pen == old(t.pen).(fg := d)
    ensures var w := old(t.Setup().Wrapped());
      OnScreen(w.x, w.y) && t.screen[w.y, w.x] == Printed(old(t.pen).(fg := d), c)
  {
    hide StatusAfter, Shown, TameFrom;
    ghost var s, pic := t.Setup(), t.Picture();
    var bytes := [ESC, '[', '3', '0' + d as char, 'm', c];
    ColourBytes(d, c);
    ColourTyped(s, pic, 30 + d, c);
    t.Feed(bytes);
    assert OnScreen(s.Wrapped().x, s.Wrapped().y);
  }

  lemma ColourBytes(d: nat, c: char)
    requires d < 8
    ensures Sequence(30 + d, 'm') + [c] == [ESC, '[', '3', '0' + d as char, 'm', c]
  {
    assert Digits(30 + d, 10, false) == ['3', '0' + d as char];
  }

  /** Parameters from the i-th on are those of the rest. */
  lemma {:induction false} SgrRest(ps: seq<int>, i: nat, qs: seq<int>, pen: Pen)
    requires i <= |ps| && ps[i..] == qs
    ensures SgrFrom(ps, i, pen) == SgrFrom(qs, 0, pen)
  {
    SgrShift(ps, i, qs, 0, pen);
  }

  lemma {:induction false} SgrShift(ps: seq<int>, i: nat, qs: seq<int>, j: nat, pen: Pen)
    requires i <= |ps| && ps[i..] == qs
    ensures SgrFrom(ps, i + j, pen) == SgrFrom(qs, j, pen)
    decreases |qs| - j
  {
    if j < |qs| {
      assert ps[i + j] == qs[j] && (j + 1 < |qs| ==> ps[i + j + 1] == qs[j + 1]);
      SgrShift(ps, i, qs, j + SgrLength(qs, j), SgrOne(qs[j], pen));
    }
  }

  /** The parameters of one sequence apply one after the other, and colours that the screen does not have are passed
      over with their arguments. */
  lemma {:induction false} SgrSplits(p: int, qs: seq<int>, pen: Pen)
    ensures p != 38 && p != 48 ==> SgrFrom([p] + qs, 0, pen) == SgrFrom(qs, 0, SgrFrom([p], 0, pen))
    ensures (p == 38 || p == 48) && qs != [] && qs[0] == 5 && |qs| >= 2 ==>
      SgrFrom([p] + qs, 0, pen) == SgrFrom(qs[2..], 0, pen)
    ensures (p == 38 || p == 48) && qs != [] && qs[0] == 2 && |qs| >= 4 ==>
      SgrFrom([p] + qs, 0, pen) == SgrFrom(qs[4..], 0, pen)
  {
    var ps := [p] + qs;
    hide SgrOne;
    assert SgrFrom([p], 1, SgrOne(p, pen)) == SgrOne(p, pen);
    if p != 38 && p != 48 {
      assert ps[1..] == qs;
      SgrRest(ps, 1, qs, SgrOne(p, pen));
    } else {
      SgrIgnored(p, pen);
      if qs != [] && qs[0] == 5 && |qs| >= 2 {
        assert ps[3..] == qs[2..] && ps[1] == 5;
        SgrRest(ps, 3, qs[2..], pen);
      } else if qs != [] && qs[0] == 2 && |qs| >= 4 {
        assert ps[5..] == qs[4..] && ps[1] == 2;
        SgrRest(ps, 5, qs[4..], pen);
      }
    }
  }

  lemma SgrIgnored(p: int, pen: Pen)
    requires p == 38 || p == 48
    ensures SgrOne(p, pen) == pen
  {
  }

  // ---------------------------------------------------------------- lines of text

  ghost predicate AllPrintable(text: seq<char>) {
    forall k :: 0 <= k < |text| ==> IsPrintable(text[k])
  }

  /** At the start of a row, ready for text: wrapping on, inserting off. */
  ghost predicate AtLineStart(s: Status) {
    Ready(s) && s.x == 0 && !s.wrapPending && s.modes.autowrap && !s.modes.insert
  }

  /** The row that text goes on to without scrolling: the region's last, or below the region the screen's. */
  function LastRow(s: Status): int {
    if s.y <= s.bot then s.bot else H - 1
  }

  /** n characters from the start of a row. */
  ghost predicate Laid(s: Status, pic: Picture, text: seq<char>, t: Status, after: Picture) {
    var n := |text|;
    && (n == 0 ==> t == s)
    && (n > 0 ==> t == s.(x := Min((n - 1) % W + 1, W - 1), y := s.y + (n - 1) / W, wrapPending := n % W == 0))
    && (forall r, c {:trigger CellOf(after, r, c)} :: OnScreen(c, r) ==>
          CellOf(after, r, c) == (var k := (r - s.y) * W + c;
                                 if 0 <= k < n then Printed(s.pen, text[k]) else CellOf(pic, r, c)))
  }

  /** Printable characters typed from the start of a row: the k-th is at row k / 53 and column k % 53 from there, in the
      current colours, and nothing else changes, as long as the last row is not passed. */
  lemma {:induction false} TextWraps(s: Status, pic: Picture, text: seq<char>)
    requires AtLineStart(s) && AllPrintable(text) && (text != [] ==> s.y + (|text| - 1) / W <= LastRow(s))
    ensures TameFrom(s.parser, text) && Laid(s, pic, text, StatusAfter(s, text), Shown(s, pic, text))
    decreases |text|
  {
    hide PictureAfter, Status.Effect;
    if text != [] {
      var k := |text| - 1;
      var front, c := text[..k], text[k];
      assert text == front + [c];
      TextWraps(s, pic, front);
      var t, mid := StatusAfter(s, front), Shown(s, pic, front);
      LeadsOne(t, mid, c);
      LeadsOn(s, pic, front, t, mid, [c], t.After(c), PictureAfter(t, mid, c));
      OneMore(s, pic, front, c, t, mid);
    }
  }

  /** Where the next character goes, counted in columns and rows. */
  lemma {:induction false} NextPlace(n: nat)
    requires n > 0
    ensures if n % W == 0 then n / W == (n - 1) / W + 1 && (n - 1) % W == W - 1
      else n / W == (n - 1) / W && n % W == (n - 1) % W + 1
    ensures (n + 1) % W == 0 <==> n % W == W - 1
  {
  }

  lemma {:induction false} PlaceOf(n: nat, row: int, c: int)
    requires 0 <= c < W
    ensures row * W + c == n <==> row == n / W && c == n % W
  {
    assert n == n / W * W + n % W;
  }

  /** The cursor at which the next character is put. */
  lemma {:induction false} WrappedTo(s: Status, pic: Picture, front: seq<char>, t: Status, mid: Picture)
    requires AtLineStart(s) && s.y + |front| / W <= LastRow(s) && Laid(s, pic, front, t, mid)
    ensures var w, n := t.Wrapped(), |front|;
      && w == t.(x := n % W, y := s.y + n / W) && OnScreen(w.x, w.y)
      && (t.wrapPending ==> t.y != t.bot)
      && t.parser.Shaped() && t.parser.state == Ground && !t.modes.insert && t.modes.autowrap && t.pen == s.pen
  {
    var n := |front|;
    if n > 0 { NextPlace(n); }
  }

  lemma {:induction false} OneMore(s: Status, pic: Picture, front: seq<char>, c: char, t: Status, mid: Picture)
    requires AtLineStart(s) && IsPrintable(c) && s.y + |front| / W <= LastRow(s) && Laid(s, pic, front, t, mid)
    requires t.parser.Shaped()
    ensures Laid(s, pic, front + [c], t.After(c), PictureAfter(t, mid, c))
  {
    hide Next, TypedCell, Status.Wrapped, AtLineStart, IsPrintable, LastRow, Status.Effect, CellAfter;
    var n, after := |front|, PictureAfter(t, mid, c);
    WrappedTo(s, pic, front, t, mid);
    NextPlace(n + 1);
    GroundStays(t, c);
    forall r, col {:trigger CellOf(after, r, col)} | OnScreen(col, r)
      ensures var k := (r - s.y) * W + col;
        CellOf(after, r, col) == if 0 <= k < n + 1 then Printed(s.pen, (front + [c])[k]) else CellOf(pic, r, col)
    {
      PrintableCell(t, mid, c, r, col);
      MoreCell(s, pic, front, c, t, mid, r, col);
    }
  }

  lemma {:induction false} MoreCell(s: Status, pic: Picture, front: seq<char>, c: char, t: Status, mid: Picture,
                                    r: int, col: int)
    requires AtLineStart(s) && s.y + |front| / W <= LastRow(s) && Laid(s, pic, front, t, mid) && OnScreen(col, r)
    ensures var k, n := (r - s.y) * W + col, |front|;
      TypedCell(t, mid, Drawn(c), r, col) ==
        if 0 <= k < n + 1 then Printed(s.pen, (front + [c])[k]) else CellOf(pic, r, col)
  {
    hide Shifted, Status.Wrapped, AtLineStart, LastRow;
    WrappedTo(s, pic, front, t, mid);
    PlaceOf(|front|, r - s.y, col);
  }

  lemma GroundStays(t: Status, c: char)
    requires t.parser.Shaped() && t.parser.state == Ground && IsPrintable(c)
    ensures t.After(c) == t.Typed().(parser := t.parser)
  {
  }

  lemma PrintableCell(t: Status, mid: Picture, c: char, r: int, col: int)
    requires t.parser.Shaped() && t.parser.state == Ground && IsPrintable(c) && OnScreen(col, r)
    ensures CellOf(PictureAfter(t, mid, c), r, col) == TypedCell(t, mid, Drawn(c), r, col)
  {
    hide TypedCell;
  }

  /** One character where no wrap is due: in insert mode the rest of the row moves right; at the last column the cursor
      stays, with a wrap to come if wrapping is on. */
  lemma {:induction false} GlyphTyped(s: Status, pic: Picture, c: char)
    requires Ready(s) && IsPrintable(c) && !(s.wrapPending && s.modes.autowrap)
    ensures var t, after := s.After(c), PictureAfter(s, pic, c);
      && Leads(s, pic, [c], t, after) && Ready(t)
      && t == s.(x := if s.x == W - 1 then s.x else s.x + 1, wrapPending := s.x == W - 1 && s.modes.autowrap)
      && forall r, col {:trigger CellOf(after, r, col)} :: OnScreen(col, r) ==>
           CellOf(after, r, col) == if r != s.y || col < s.x then CellOf(pic, r, col)
                                    else if col == s.x then Printed(s.pen, c)
                                    else if s.modes.insert then CellOf(pic, r, col - 1) else CellOf(pic, r, col)
  {
    hide Shifted, CellOf;
    LeadsOne(s, pic, c);
  }

  /** One where a wrap is due goes to the start of the next row; at the region's bottom the region moves up for it. */
  lemma {:induction false} GlyphWrapped(s: Status, pic: Picture, c: char)
    requires Ready(s) && IsPrintable(c) && s.wrapPending && s.modes.autowrap && !s.modes.insert
    ensures var t, after := s.After(c), PictureAfter(s, pic, c);
      var y := if s.y == s.bot || s.y == H - 1 then s.y else s.y + 1;
      && Leads(s, pic, [c], t, after) && Ready(t) && t == s.(x := 1, y := y, wrapPending := false)
      && forall r, col {:trigger CellOf(after, r, col)} :: OnScreen(col, r) ==>
           CellOf(after, r, col) == if r == y && col == 0 then Printed(s.pen, c)
                                    else if s.y != s.bot || r < s.top || r > s.bot then CellOf(pic, r, col)
                                    else if r < s.bot then CellOf(pic, r + 1, col) else Clear(s.pen)
  {
    hide CellOf;
    LeadsOne(s, pic, c);
  }

  /** Text fed to a terminal from the start of a row. */
  method TypeText(t: Terminal, text: seq<Octet>)
    requires t.Valid() && AtLineStart(t.Setup()) && AllPrintable(text)
    requires text != [] ==> t.y + (|text| - 1) / 53 <= LastRow(t.Setup())
    modifies t, t.screen
    ensures t.Valid() && t.pen == old(t.pen)
    ensures forall k :: 0 <= k < |text| ==>
      OnScreen(k % 53, old(t.y) + k / 53) && t.screen[old(t.y) + k / 53, k % 53] == Printed(t.pen, text[k])
  {
    hide StatusAfter, Shown, TameFrom, AllPrintable, LastRow, AtLineStart;
    ghost var s, pic := t.Setup(), t.Picture();
    TextWraps(s, pic, text);
    t.Feed(text);
    forall k | 0 <= k < |text|
      ensures OnScreen(k % W, s.y + k / W) && t.screen[s.y + k / W, k % W] == Printed(s.pen, text[k])
    {
      PlacesFit(s, |text|, k);
      PlaceOf(k, k / W, k % W);
      assert CellOf(t.Picture(), s.y + k / W, k % W) == Printed(s.pen, text[k]);
    }
  }

  lemma PlacesFit(s: Status, n: nat, k: nat)
    requires AtLineStart(s) && k < n && s.y + (n - 1) / W <= LastRow(s)
    ensures OnScreen(k % W, s.y + k / W)
  {
    assert k / W <= (n - 1) / W;
  }

  // ---------------------------------------------------------------- moves

  /** What After makes of a final byte that does not edit: the screen stays. */
  lemma {:induction false} NoEdit(t: Status, pic: Picture, final: char)
    requires t.parser.Shaped() && t.parser.state == Csi && IsFinal(final) && !IsEditFinal(final)
    ensures PictureAfter(t, pic, final) == pic
  {
    SamePicture(PictureAfter(t, pic, final), pic);
  }

  /** ESC [ n f with a cursor final: the cursor moves, a pending wrap is forgotten, and nothing else changes. */
  lemma {:induction false} CursorTyped(s: Status, pic: Picture, n: nat, final: char)
    requires Ready(s) && 0 < n < TAME && IsCursorFinal(final)
    ensures var t := StatusAfter(s, Sequence(n, final));
      && Leads(s, pic, Sequence(n, final), t, pic)
      && t == s.(x := t.x, y := t.y, wrapPending := false, parser := OneParam(n).(state := Ground)) && Ready(t)
      && Moves(s, final, n, t.x, t.y)
  {
    hide Sequence, Next, Moves, ColumnAfter, RowAfter;
    Typed(s, pic, n, final);
    CursorNoEdit(final);
    OneParamIs(n);
    CursorMoves(s, n, final);
    NoEdit(s.(parser := OneParam(n)), pic, final);
    SequenceRuns(s.(parser := OneParam(n)), final);
  }

  lemma OneParamIs(n: nat)
    requires n < TAME
    ensures var p := OneParam(n).(state := Ground);
      p.Ok() && p.Param(0, 1) == (if n == 0 then 1 else n) && p.Param(0, 0) == n && p.Param(1, 1) == 1
  {
  }

  lemma {:induction false} CursorMoves(s: Status, n: nat, final: char)
    requires Ready(s) && 0 < n < TAME && IsCursorFinal(final)
    ensures var x, y := ColumnAfter(final, n, 1, s.x), RowAfter(final, n, s.y, s.top, s.bot, s.modes.origin);
      OnScreen(x, y) && Moves(s, final, n, x, y)
  {
  }

  lemma CursorNoEdit(final: char)
    requires IsCursorFinal(final)
    ensures IsFinal(final) && !IsEditFinal(final) && final != 'm'
  {
  }

  /** Where the cursor is after a move by n, or to n counted from one. */
  predicate Moves(s: Status, final: char, n: nat, x: int, y: int) {
    match final
    case 'A' => x == s.x && MovesUp(s, n, y)
    case 'F' => x == 0 && MovesUp(s, n, y)
    case 'B' => x == s.x && MovesDown(s, n, y)
    case 'e' => x == s.x && MovesDown(s, n, y)
    case 'E' => x == 0 && MovesDown(s, n, y)
    case 'C' => y == s.y && if s.x + n < W then x == s.x + n else x == W - 1
    case 'a' => y == s.y && if s.x + n < W then x == s.x + n else x == W - 1
    case 'D' => y == s.y && if s.x >= n then x == s.x - n else x == 0
    case 'G' => y == s.y && if n <= W then x == n - 1 else x == W - 1
    case '`' => y == s.y && if n <= W then x == n - 1 else x == W - 1
    case 'd' => x == s.x && GoesToRow(s, n, y)
    case _ => x == 0 && GoesToRow(s, n, y)
  }

  /** Up by n rows; from inside or below the region not past its top, from above it not off the screen. */
  predicate MovesUp(s: Status, n: nat, y: int) {
    if s.y < s.top then (if s.y >= n then y == s.y - n else y == 0)
    else if s.y - n >= s.top then y == s.y - n else y == s.top
  }

  predicate MovesDown(s: Status, n: nat, y: int) {
    if s.y > s.bot then (if s.y + n < H then y == s.y + n else y == H - 1)
    else if s.y + n <= s.bot then y == s.y + n else y == s.bot
  }

  /** Row n, counted from one: of the screen, or in origin mode of the region. */
  predicate GoesToRow(s: Status, n: nat, y: int) {
    if s.modes.origin then (if s.top + n - 1 <= s.bot then y == s.top + n - 1 else y == s.bot)
    else if n <= H then y == n - 1 else y == H - 1
  }

  /** CUP goes to any place on the screen. */
  lemma {:induction false} PlaceTyped(s: Status, pic: Picture, row: nat, column: nat)
    requires Ready(s) && 0 < row <= H && 0 < column <= W && !s.modes.origin
    ensures var t := StatusAfter(s, Sequence2(row, column, 'H'));
      && Leads(s, pic, Sequence2(row, column, 'H'), t, pic) && Ready(t)
      && t == s.(x := column - 1, y := row - 1, wrapPending := false, parser := t.parser)
  {
    hide Sequence2, Next;
    Typed2(s, pic, row, column, 'H');
    NoEdit(s.(parser := TwoParams(row, column)), pic, 'H');
    SequenceRuns(s.(parser := TwoParams(row, column)), 'H');
  }

  /** Up and down again leads back, if no margin is met on the way. */
  lemma {:induction false} UpAndDown(s: Status, pic: Picture, n: nat)
    requires Ready(s) && 0 < n < TAME && n <= s.y
    requires (s.y < s.top || s.y - n >= s.top) && (s.y <= s.bot || s.y - n > s.bot)
    ensures var t := StatusAfter(s, Sequence(n, 'A') + Sequence(n, 'B'));
      Leads(s, pic, Sequence(n, 'A') + Sequence(n, 'B'), t, pic) && t.x == s.x && t.y == s.y
  {
    hide Sequence, Leads;
    CursorTyped(s, pic, n, 'A');
    var t := StatusAfter(s, Sequence(n, 'A'));
    CursorTyped(t, pic, n, 'B');
    LeadsOn(s, pic, Sequence(n, 'A'), t, pic, Sequence(n, 'B'), StatusAfter(t, Sequence(n, 'B')), pic);
    LeadsIs(s, pic, Sequence(n, 'A') + Sequence(n, 'B'), StatusAfter(t, Sequence(n, 'B')), pic);
  }

  lemma LeadsIs(s: Status, pic: Picture, bytes: seq<char>, t: Status, after: Picture)
    requires s.parser.Shaped()
    ensures Leads(s, pic, bytes, t, after) ==> StatusAfter(s, bytes) == t && Shown(s, pic, bytes) == after
  {
  }

  // ---------------------------------------------------------------- edits

  /** An editing sequence, typed. */
  lemma {:induction false} EditTyped(s: Status, pic: Picture, n: nat, final: char)
    requires Ready(s) && n < TAME && IsEditFinal(final)
    ensures var t, after := StatusAfter(s, Sequence(n, final)), Shown(s, pic, Sequence(n, final));
      && Leads(s, pic, Sequence(n, final), t, after) && Ready(t)
      && t == s.Edited(final).(parser := OneParam(n).(state := Ground))
      && forall r, c {:trigger CellOf(after, r, c)} :: OnScreen(c, r) ==>
           CellOf(after, r, c) == EditedCell(s, pic, final, if n == 0 then 1 else n, n, r, c)
  {
    hide Sequence, Next, EditedCell;
    Typed(s, pic, n, final);
    EditNoCursor(final);
    var t := s.(parser := OneParam(n));
    SequenceRuns(t, final);
    assert t.Grounded().parser.Param(0, 1) == if n == 0 then 1 else n;
    forall r, c {:trigger CellOf(PictureAfter(t, pic, final), r, c)} | OnScreen(c, r)
      ensures CellOf(PictureAfter(t, pic, final), r, c) == EditedCell(s, pic, final, if n == 0 then 1 else n, n, r, c)
    {
      EditIgnoresParser(s, t.Grounded(), pic, final, if n == 0 then 1 else n, n, r, c);
    }
  }

  lemma EditNoCursor(final: char)
    requires IsEditFinal(final)
    ensures IsFinal(final) && !IsCursorFinal(final) && final != 'm' && !IsControl(final) && !Aborts(final)
  {
  }

  lemma EditIgnoresParser(s: Status, t: Status, pic: Picture, final: char, n: int, kind: int, r: int, c: int)
    requires t == s.(parser := t.parser)
    ensures EditedCell(t, pic, final, n, kind, r, c) == EditedCell(s, pic, final, n, kind, r, c)
  {
    hide Shifted;
  }

  /** Reading order on the screen. */
  function Place(r: int, c: int): int {
    r * W + c
  }

  /** Cells that ED and EL of a kind blank: from the cursor on, up to and with the cursor, or all, in reading order; EL
      only those of the cursor's row. */
  predicate Wiped(s: Status, final: char, kind: nat, r: int, c: int) {
    && (final == 'K' ==> r == s.y)
    && match kind
       case 0 => Place(r, c) >= Place(s.y, s.x)
       case 1 => Place(r, c) <= Place(s.y, s.x)
       case 2 => true
       case _ => final == 'J' && kind == 3
  }

  lemma {:induction false} EraseTyped(s: Status, pic: Picture, kind: nat, final: char)
    requires Ready(s) && kind < TAME && (final == 'J' || final == 'K')
    ensures var after := Shown(s, pic, Sequence(kind, final));
      forall r, c {:trigger CellOf(after, r, c)} :: OnScreen(c, r) ==>
        CellOf(after, r, c) == if Wiped(s, final, kind, r, c) then Clear(s.pen) else CellOf(pic, r, c)
  {
    hide Leads;
    EditTyped(s, pic, kind, final);
  }

  /** Rows t to b with n blank ones put in at the top, the others down and the last ones lost. */
  ghost predicate PushedDown(pic: Picture, after: Picture, t: int, b: int, n: nat, blank: Cell) {
    forall r, c {:trigger CellOf(after, r, c)} :: OnScreen(c, r) ==>
      CellOf(after, r, c) == if r < t || b < r then CellOf(pic, r, c)
                            else if r < t + n then blank else CellOf(pic, r - n, c)
  }

  /** Or n taken out at the top, the others up and blank ones behind. */
  ghost predicate PulledUp(pic: Picture, after: Picture, t: int, b: int, n: nat, blank: Cell) {
    forall r, c {:trigger CellOf(after, r, c)} :: OnScreen(c, r) ==>
      CellOf(after, r, c) == if r < t || b < r then CellOf(pic, r, c)
                            else if r + n <= b then CellOf(pic, r + n, c) else blank
  }

  lemma {:induction false} PushedCell(pic: Picture, t: int, b: int, n: nat, blank: Cell, r: int, c: int)
    requires 0 <= t <= b < H && n > 0 && OnScreen(c, r)
    ensures Shifted(pic, blank, false, t, b, n, r, c) ==
      if r < t || b < r then CellOf(pic, r, c) else if r < t + n then blank else CellOf(pic, r - n, c)
    ensures Shifted(pic, blank, true, t, b, n, r, c) ==
      if r < t || b < r then CellOf(pic, r, c) else if r + n <= b then CellOf(pic, r + n, c) else blank
  {
    hide CellOf;
  }

  /** IL and DL on the rows from the cursor to the region's end, and nothing outside the region. */
  lemma {:induction false} LinesTyped(s: Status, pic: Picture, n: nat, final: char)
    requires Ready(s) && 0 < n < TAME && (final == 'L' || final == 'M')
    ensures var after := Shown(s, pic, Sequence(n, final));
      if s.y < s.top || s.y > s.bot then after == pic
      else if final == 'L' then PushedDown(pic, after, s.y, s.bot, n, Clear(s.pen))
      else PulledUp(pic, after, s.y, s.bot, n, Clear(s.pen))
  {
    hide Leads, Sequence, RowEdited, Shifted, CellOf, StatusAfter, Shown;
    EditTyped(s, pic, n, final);
    var after := Shown(s, pic, Sequence(n, final));
    if s.y < s.top || s.y > s.bot {
      SamePicture(after, pic);
    } else {
      forall r, c {:trigger CellOf(after, r, c)} | OnScreen(c, r)
        ensures CellOf(after, r, c) == Shifted(pic, Clear(s.pen), final == 'M', s.y, s.bot, n, r, c)
        ensures CellOf(after, r, c) == if r < s.y || s.bot < r then CellOf(pic, r, c)
          else if final == 'L' then (if r < s.y + n then Clear(s.pen) else CellOf(pic, r - n, c))
          else if r + n <= s.bot then CellOf(pic, r + n, c) else Clear(s.pen)
      {
        PushedCell(pic, s.y, s.bot, n, Clear(s.pen), r, c);
      }
    }
  }

  /** SD and SU on the region. */
  lemma {:induction false} ScrollTyped(s: Status, pic: Picture, n: nat, final: char)
    requires Ready(s) && 0 < n < TAME && (final == 'T' || final == 'S')
    ensures var after := Shown(s, pic, Sequence(n, final));
      if final == 'T' then PushedDown(pic, after, s.top, s.bot, n, Clear(s.pen))
      else PulledUp(pic, after, s.top, s.bot, n, Clear(s.pen))
  {
    hide Leads, Sequence, RowEdited, Shifted, CellOf, StatusAfter, Shown;
    EditTyped(s, pic, n, final);
    var after := Shown(s, pic, Sequence(n, final));
    forall r, c {:trigger CellOf(after, r, c)} | OnScreen(c, r)
      ensures CellOf(after, r, c) == if r < s.top || s.bot < r then CellOf(pic, r, c)
        else if final == 'T' then (if r < s.top + n then Clear(s.pen) else CellOf(pic, r - n, c))
        else if r + n <= s.bot then CellOf(pic, r + n, c) else Clear(s.pen)
    {
      PushedCell(pic, s.top, s.bot, n, Clear(s.pen), r, c);
    }
  }

  /** Lines put in and taken out again: all as before, but what went over the region's end. */
  lemma {:induction false} LinesBack(pic: Picture, mid: Picture, after: Picture, t: int, b: int, n: nat, blank: Cell)
    requires 0 <= t <= b < H && PushedDown(pic, mid, t, b, n, blank) && PulledUp(mid, after, t, b, n, blank)
    ensures forall r, c {:trigger CellOf(after, r, c)} :: OnScreen(c, r) ==>
      CellOf(after, r, c) == if t <= r <= b && r + n > b then blank else CellOf(pic, r, c)
  {
  }

  /** What is at (r, c) when n blank cells were put in, n taken out, or n blanked at the cursor. */
  function InRow(s: Status, pic: Picture, n: nat, final: char, r: int, c: int): Cell {
    if r != s.y || c < s.x then CellOf(pic, r, c)
    else if final == '@' then (if c < s.x + n then Clear(s.pen) else CellOf(pic, r, c - n))
    else if final == 'P' then (if c + n < W then CellOf(pic, r, c + n) else Clear(s.pen))
    else if c < s.x + n then Clear(s.pen) else CellOf(pic, r, c)
  }

  lemma {:induction false} InRowIs(s: Status, pic: Picture, n: nat, final: char, r: int, c: int)
    requires OnScreen(s.x, s.y) && OnScreen(c, r) && n > 0 && final in {'@', 'P', 'X'}
    ensures EditedCell(s, pic, final, n, n, r, c) == InRow(s, pic, n, final, r, c)
  {
    hide CellOf, Shifted, Erased;
  }

  /** ICH, DCH and ECH on the rest of the cursor's row. */
  lemma {:induction false} CharsTyped(s: Status, pic: Picture, n: nat, final: char)
    requires Ready(s) && 0 < n < TAME && final in {'@', 'P', 'X'}
    ensures var after := Shown(s, pic, Sequence(n, final));
      forall r, c {:trigger CellOf(after, r, c)} :: OnScreen(c, r) ==>
        CellOf(after, r, c) == InRow(s, pic, n, final, r, c)
  {
    hide Leads, Sequence, EditedCell, InRow, CellOf, StatusAfter, Shown;
    EditTyped(s, pic, n, final);
    var after := Shown(s, pic, Sequence(n, final));
    forall r, c {:trigger CellOf(after, r, c)} | OnScreen(c, r)
      ensures CellOf(after, r, c) == InRow(s, pic, n, final, r, c)
    {
      InRowIs(s, pic, n, final, r, c);
    }
  }

  // ---------------------------------------------------------------- modes, region and replies

  /** ESC [ ? n f. */
  function PrivateSequence(n: nat, final: char): seq<char> {
    [ESC, '[', '?'] + Digits(n, 10, false) + [final]
  }

  lemma {:induction false} TypedPrivate(s: Status, pic: Picture, n: nat, final: char)
    requires Ready(s) && n < TAME && IsFinal(final)
    ensures var t := s.(parser := OneParam(n).(privateMode := true));
      Leads(s, pic, PrivateSequence(n, final), t.After(final), PictureAfter(t, pic, final))
  {
    hide Digits, Leads, PictureAfter, Status.After;
    var ds := Digits(n, 10, false);
    ValueOfDigits(n, 10, false);
    var b := s.(parser := Parser(Csi, EmptyParams(), 0, false, false));
    var q := s.(parser := Parser(Csi, EmptyParams(), 0, true, false));
    var t := s.(parser := OneParam(n).(privateMode := true));
    Begins(s, pic);
    Gathers(b, pic, '?');
    LeadsOn(s, pic, [ESC, '['], b, pic, ['?'], q, pic);
    assert [ESC, '['] + ['?'] == [ESC, '[', '?'];
    NumberTyped(q, pic, ds);
    LeadsOn(s, pic, [ESC, '[', '?'], q, pic, ds, t, pic);
    FinalTame(t, final);
    LeadsOne(t, pic, final);
    LeadsOn(s, pic, [ESC, '[', '?'] + ds, t, pic, [final], t.After(final), PictureAfter(t, pic, final));
  }

  /** What a mode's number switches, behind ? or without it. */
  predicate Switches(isPrivate: bool, n: nat, on: bool, m: Modes, after: Modes) {
    if !isPrivate then after == if n == 4 then Modes(on, m.autowrap, m.origin, m.appCursor, m.cursorVisible) else m
    else after == if n == 1 then Modes(m.insert, m.autowrap, m.origin, on, m.cursorVisible)
                 else if n == 6 then Modes(m.insert, m.autowrap, on, m.appCursor, m.cursorVisible)
                 else if n == 7 then Modes(m.insert, on, m.origin, m.appCursor, m.cursorVisible)
                 else if n == 25 then Modes(m.insert, m.autowrap, m.origin, m.appCursor, on)
                 else m
  }

  /** SM and RM: one mode is switched; only origin mode moves the cursor, to the first row that it allows. */
  lemma {:induction false} ModeTyped(s: Status, pic: Picture, isPrivate: bool, n: nat, on: bool)
    requires Ready(s) && n < TAME
    ensures var final := if on then 'h' else 'l';
      var bytes := if isPrivate then PrivateSequence(n, final) else Sequence(n, final);
      var t := StatusAfter(s, bytes);
      && Leads(s, pic, bytes, t, pic) && Ready(t) && Switches(isPrivate, n, on, s.modes, t.modes)
      && t == s.(modes := t.modes, x := t.x, y := t.y, wrapPending := t.wrapPending, parser := t.parser)
      && if isPrivate && n == 6 then t.x == 0 && t.y == (if on then s.top else 0) && !t.wrapPending
         else t.x == s.x && t.y == s.y && t.wrapPending == s.wrapPending
  {
    hide Sequence, PrivateSequence, Status.After, PictureAfter, Switches;
    var f := if on then 'h' else 'l';
    if isPrivate { TypedPrivate(s, pic, n, f); } else { Typed(s, pic, n, f); }
    NoEdit(s.(parser := OneParam(n).(privateMode := isPrivate)), pic, f);
    ModeSet(s, isPrivate, n, on);
  }

  lemma {:induction false} ModeSet(s: Status, isPrivate: bool, n: nat, on: bool)
    requires Ready(s) && n < TAME
    ensures var t := s.(parser := OneParam(n).(privateMode := isPrivate)).After(if on then 'h' else 'l');
      && Ready(t) && Switches(isPrivate, n, on, s.modes, t.modes)
      && t == s.(modes := t.modes, x := t.x, y := t.y, wrapPending := t.wrapPending, parser := t.parser)
      && if isPrivate && n == 6 then t.x == 0 && t.y == (if on then s.top else 0) && !t.wrapPending
         else t.x == s.x && t.y == s.y && t.wrapPending == s.wrapPending
  {
    hide Status.After, ModesFrom;
    var f := if on then 'h' else 'l';
    var t := s.(parser := OneParam(n).(privateMode := isPrivate));
    SequenceRuns(t, f);
    assert t.Grounded().parser.params[..1] == [n];
    OneMode(n, isPrivate, on, s.modes);
  }

  lemma OneMode(n: nat, isPrivate: bool, on: bool, m: Modes)
    ensures ModesFrom([n], isPrivate, on, m) == ModeAfter(n, isPrivate, on, m)
  {
    assert [n][..0] == [];
  }

  /** DECSTBM: rows t to b, counted from one, become the region if they are at least two, and the cursor goes home. */
  lemma {:induction false} RegionTyped(s: Status, pic: Picture, t: nat, b: nat)
    requires Ready(s) && 0 < t < TAME && 0 < b < TAME
    ensures var u := StatusAfter(s, Sequence2(t, b, 'r'));
      && Leads(s, pic, Sequence2(t, b, 'r'), u, pic) && Ready(u)
      && if t < b && t < H then
           u == s.(top := t - 1, bot := if b <= H then b - 1 else H - 1, x := 0,
                   y := if s.modes.origin then t - 1 else 0, wrapPending := false, parser := u.parser)
         else u == s.(parser := u.parser)
  {
    hide Sequence2, Next;
    var v := s.(parser := TwoParams(t, b));
    Typed2(s, pic, t, b, 'r');
    NoEdit(v, pic, 'r');
    SequenceRuns(v, 'r');
  }

  /** What the terminal answers to a request for its status or the cursor's place; nothing else changes. */
  lemma {:induction false} StatusTyped(s: Status, pic: Picture, n: nat)
    requires Ready(s) && n < TAME
    ensures var t := StatusAfter(s, Sequence(n, 'n'));
      && Leads(s, pic, Sequence(n, 'n'), t, pic) && t == s.(replies := t.replies, parser := t.parser)
      && t.replies == s.replies + if n == 5 then [[ESC] + "[0n"]
                                  else if n == 6 then [Position(s.x, s.y, s.top, s.modes.origin) + "R"] else []
  {
    hide Sequence, Next, Position;
    var t := s.(parser := OneParam(n));
    OneParamIs(n);
    Typed(s, pic, n, 'n');
    NoEdit(t, pic, 'n');
    SequenceRuns(t, 'n');
    assert [ESC] + "[0n" == [ESC, '[', '0', 'n'] && ['R'] == "R";
  }

  /** And to a request for its identity. */
  lemma {:induction false} IdentityTyped(s: Status, pic: Picture, n: nat)
    requires Ready(s) && n < TAME
    ensures var t := StatusAfter(s, Sequence(n, 'c'));
      && Leads(s, pic, Sequence(n, 'c'), t, pic) && t == s.(replies := t.replies, parser := t.parser)
      && t.replies == s.replies + if n == 0 then [[ESC] + "[?6c"] else []
  {
    hide Sequence, Next, Position;
    var t := s.(parser := OneParam(n));
    OneParamIs(n);
    Typed(s, pic, n, 'c');
    NoEdit(t, pic, 'c');
    SequenceRuns(t, 'c');
    assert [ESC] + "[?6c" == IDENTITY;
  }

  // ---------------------------------------------------------------- controls and strings

  /** A control on a terminal at rest: carriage return, line feed, backspace and tab. */
  lemma {:induction false} ControlTyped(s: Status, pic: Picture, c: char)
    requires Ready(s) && IsControl(c) && !Aborts(c)
    ensures Leads(s, pic, [c], s.After(c), PictureAfter(s, pic, c))
    ensures var t, after := s.After(c), PictureAfter(s, pic, c);
      && t == s.(x := t.x, y := t.y, wrapPending := t.wrapPending) && Ready(t)
      && (c == '\r' ==> t == s.(x := 0, wrapPending := false))
      && (Code(c) == 8 ==> t == s.(x := if s.x == 0 then 0 else s.x - 1, wrapPending := false))
      && (c == '\t' ==> t == s.(x := t.x) && s.x <= t.x && (t.x == W - 1 || (t.x % 8 == 0 && s.x < t.x <= s.x + 8)))
      && (IsLineFeed(c) && s.y == s.bot ==> t == s && PulledUp(pic, after, s.top, s.bot, 1, Clear(s.pen)))
      && (IsLineFeed(c) && s.y != s.bot ==> t == s.(y := if s.y == H - 1 then s.y else s.y + 1))
      && (!IsLineFeed(c) || s.y != s.bot ==> after == pic)
      && (!IsLineFeed(c) && c !in {'\r', '\t'} && Code(c) != 8 ==> t == s)
  {
    LeadsOne(s, pic, c);
    if !IsLineFeed(c) || s.y != s.bot { SamePicture(PictureAfter(s, pic, c), pic); }
  }

  /** A control inside a control sequence acts as it does at rest, and the sequence goes on. */
  lemma {:induction false} ControlInside(s: Status, pic: Picture, c: char)
    requires s.parser.Shaped() && s.parser.state == Csi && IsControl(c) && !Aborts(c)
    ensures s.After(c) == s.Grounded().After(c).(parser := s.parser)
    ensures PictureAfter(s, pic, c) == PictureAfter(s.Grounded(), pic, c)
  {
    SamePicture(PictureAfter(s, pic, c), PictureAfter(s.Grounded(), pic, c));
  }

  /** A control sequence without a number is the one with a 0. */
  lemma {:induction false} BareSequence(s: Status, pic: Picture, final: char)
    requires Ready(s) && IsFinal(final)
    ensures var bare, zero := [ESC, '[', final], Sequence(0, final);
      var t := StatusAfter(s, bare);
      && Leads(s, pic, bare, t, Shown(s, pic, zero)) && t == StatusAfter(s, zero).(parser := t.parser)
  {
    hide Leads, PictureAfter, Status.After;
    var b, z := s.(parser := Parser(Csi, EmptyParams(), 0, false, false)), s.(parser := OneParam(0));
    Begins(s, pic);
    FinalTame(b, final);
    LeadsOne(b, pic, final);
    LeadsOn(s, pic, [ESC, '['], b, pic, [final], b.After(final), PictureAfter(b, pic, final));
    assert [ESC, '['] + [final] == [ESC, '[', final];
    Typed(s, pic, 0, final);
    LeadsIs(s, pic, [ESC, '[', final], b.After(final), PictureAfter(b, pic, final));
    LeadsIs(s, pic, Sequence(0, final), z.After(final), PictureAfter(z, pic, final));
    NoNumber(s, b, z, pic, final);
  }

  /** A count of 0, in a move or an edit by a count, is 1. */
  lemma {:induction false} ZeroIsOne(s: Status, pic: Picture, final: char)
    requires Ready(s) && (IsCursorFinal(final) || final in {'L', 'M', 'P', '@', 'X', 'S', 'T'})
    ensures var zero, one := Sequence(0, final), Sequence(1, final);
      var t := StatusAfter(s, zero);
      && Leads(s, pic, zero, t, Shown(s, pic, one)) && t == StatusAfter(s, one).(parser := t.parser)
  {
    hide Leads, PictureAfter, Status.After;
    var z, o := s.(parser := OneParam(0)), s.(parser := OneParam(1));
    Typed(s, pic, 0, final);
    Typed(s, pic, 1, final);
    LeadsIs(s, pic, Sequence(0, final), z.After(final), PictureAfter(z, pic, final));
    LeadsIs(s, pic, Sequence(1, final), o.After(final), PictureAfter(o, pic, final));
    ZeroRuns(z, o, pic, final);
  }

  lemma {:induction false} ZeroRuns(z: Status, o: Status, pic: Picture, final: char)
    requires z == o.(parser := OneParam(0)) && o.parser == OneParam(1)
    requires IsCursorFinal(final) || final in {'L', 'M', 'P', '@', 'X', 'S', 'T'}
    ensures z.After(final) == o.After(final).(parser := z.After(final).parser)
    ensures PictureAfter(z, pic, final) == PictureAfter(o, pic, final)
  {
    hide Next, PictureAfter, Status.CursorMoved, Status.SettingRan;
    SequenceRuns(z, final);
    SequenceRuns(o, final);
    ZeroMoved(z.Grounded(), o.Grounded(), final);
    ZeroShown(z, o, pic, final);
  }

  lemma {:induction false} ZeroShown(z: Status, o: Status, pic: Picture, final: char)
    requires z == o.(parser := OneParam(0)) && o.parser == OneParam(1)
    requires IsCursorFinal(final) || final in {'L', 'M', 'P', '@', 'X', 'S', 'T'}
    ensures PictureAfter(z, pic, final) == PictureAfter(o, pic, final)
  {
    hide EditedCell;
    forall r, c
      ensures CellAfter(z, pic, final, r, c) == CellAfter(o, pic, final, r, c)
    {
      EditIgnoresParser(o.Grounded(), z.Grounded(), pic, final, 1, 0, r, c);
      if IsEditFinal(final) { OnlyErasesByKind(o.Grounded(), pic, final, r, c); }
    }
    SamePicture(PictureAfter(z, pic, final), PictureAfter(o, pic, final));
  }

  lemma ZeroMoved(z: Status, o: Status, final: char)
    requires z == o.(parser := z.parser) && z.parser.Shaped() && o.parser.Shaped()
    requires z.parser.nparams == 1 && z.parser.params[0] == 0 && o.parser.nparams == 1 && o.parser.params[0] == 1
    ensures z.CursorMoved(final) == o.CursorMoved(final).(parser := z.parser)
  {
    hide ColumnAfter, RowAfter;
  }

  lemma OnlyErasesByKind(s: Status, pic: Picture, final: char, r: int, c: int)
    requires final in {'L', 'M', 'P', '@', 'X', 'S', 'T'}
    ensures EditedCell(s, pic, final, 1, 0, r, c) == EditedCell(s, pic, final, 1, 1, r, c)
  {
    hide Shifted, RowEdited;
  }

  lemma {:induction false} NoNumber(s: Status, b: Status, z: Status, pic: Picture, final: char)
    requires b == s.(parser := Parser(Csi, EmptyParams(), 0, false, false)) && z == s.(parser := OneParam(0))
    requires IsFinal(final)
    ensures b.After(final) == z.After(final).(parser := b.After(final).parser)
    ensures PictureAfter(b, pic, final) == PictureAfter(z, pic, final)
  {
    hide Next, EditedCell, Status.CursorMoved, Status.SettingRan;
    SequenceRuns(b, final);
    SequenceRuns(z, final);
    NoNumberSet(b.Grounded(), z.Grounded(), final);
    NoNumberMoved(b.Grounded(), z.Grounded(), final);
    forall r, c
      ensures CellAfter(b, pic, final, r, c) == CellAfter(z, pic, final, r, c)
    {
      EditIgnoresParser(z.Grounded(), b.Grounded(), pic, final, 1, 0, r, c);
    }
    SamePicture(PictureAfter(b, pic, final), PictureAfter(z, pic, final));
  }

  lemma {:induction false} NoNumberMoved(b: Status, z: Status, final: char)
    requires b == z.(parser := b.parser) && b.parser.nparams == 0 && b.parser.Shaped()
    requires z.parser.Shaped() && z.parser.nparams == 1 && z.parser.params[0] == 0
    ensures b.CursorMoved(final) == z.CursorMoved(final).(parser := b.parser)
  {
    hide ColumnAfter, RowAfter;
  }

  /** The parsers of a sequence with no number and of one with a 0. */
  predicate NoneOrZero(b: Status, z: Status) {
    && b == z.(parser := b.parser) && b.parser.privateMode == z.parser.privateMode
    && b.parser.nparams == 0 && z.parser.nparams == 1
    && b.parser.params == EmptyParams() && z.parser.params == EmptyParams()[0 := 0]
  }

  lemma {:induction false} NoNumberSet(b: Status, z: Status, final: char)
    requires NoneOrZero(b, z) && b.parser.Shaped() && z.parser.Shaped()
    ensures b.SettingRan(final) == z.SettingRan(final).(parser := b.parser)
  {
    hide NoneOrZero, Status.Switched, Status.Coloured, Status.Narrowed, Status.Answered;
    NoNumberModes(b, z, true);
    NoNumberModes(b, z, false);
    NoNumberColours(b, z);
    NoNumberOthers(b, z, final);
  }

  lemma {:induction false} NoNumberModes(b: Status, z: Status, on: bool)
    requires NoneOrZero(b, z) && b.parser.Shaped() && z.parser.Shaped()
    ensures b.Switched(on) == z.Switched(on).(parser := b.parser)
  {
    assert z.parser.params[..1] == [0] && b.parser.params[..0] == [] && [0][..0] == [];
  }

  lemma {:induction false} NoNumberColours(b: Status, z: Status)
    requires NoneOrZero(b, z) && b.parser.Shaped() && z.parser.Shaped()
    ensures b.Coloured() == z.Coloured().(parser := b.parser)
  {
    hide SgrFrom;
    assert b.parser.Defaulted().params[..1] == [0] == z.parser.Defaulted().params[..1];
  }

  lemma {:induction false} NoNumberOthers(b: Status, z: Status, final: char)
    requires NoneOrZero(b, z) && b.parser.Shaped() && z.parser.Shaped()
    ensures b == z.(parser := b.parser) && b.Narrowed() == z.Narrowed().(parser := b.parser)
    ensures b.Answered(final) == z.Answered(final).(parser := b.parser)
  {
    hide Position;
  }

  /** CAN and SUB end whatever was begun, and nothing else happens. */
  lemma {:induction false} Aborted(s: Status, pic: Picture, c: char)
    requires s.parser.Shaped() && (Code(c) == 0x18 || Code(c) == 0x1a)
    ensures Leads(s, pic, [c], s.(parser := s.parser.(state := Ground)), pic)
  {
    LeadsOne(s, pic, c);
    SamePicture(PictureAfter(s, pic, c), pic);
  }

  /** DEL and the bytes that go on a character of several bytes draw nothing. */
  lemma {:induction false} NotDrawn(s: Status, pic: Picture, c: char)
    requires Ready(s) && (Code(c) == 0x7f || 0x80 <= Code(c) < 0xc0)
    ensures Leads(s, pic, [c], s, pic)
  {
    LeadsOne(s, pic, c);
    SamePicture(PictureAfter(s, pic, c), pic);
  }

  /** Choosing a character set, and the other sequences of ESC with two bytes, do nothing. */
  lemma {:induction false} CharacterSet(s: Status, pic: Picture, b: char, c: char)
    requires Ready(s) && b in {'(', ')', '*', '+', '#', '%'} && !Aborts(c)
    ensures Leads(s, pic, [ESC, b, c], s, pic)
  {
    hide Leads;
    var e, q := s.After(ESC), s.(parser := s.parser.(state := EscSkip));
    SequenceBegins(s);
    assert e.After(b) == q && q.After(c) == s;
    SamePicture(PictureAfter(s, pic, ESC), pic);
    SamePicture(PictureAfter(e, pic, b), pic);
    SamePicture(PictureAfter(q, pic, c), pic);
    LeadsOne(s, pic, ESC);
    LeadsOne(e, pic, b);
    LeadsOn(s, pic, [ESC], e, pic, [b], q, pic);
    assert [ESC] + [b] == [ESC, b];
    LeadsOne(q, pic, c);
    LeadsOn(s, pic, [ESC, b], q, pic, [c], s, pic);
    assert [ESC, b] + [c] == [ESC, b, c];
  }

  /** A control sequence with a prefix that the terminal does not know does nothing. */
  lemma {:induction false} ForeignSequence(s: Status, pic: Picture, prefix: char, final: char)
    requires Ready(s) && (prefix in {'<', '=', '>'} || 0x20 <= Code(prefix) < 0x30) && IsFinal(final)
    ensures var t := s.(parser := Parser(Ground, EmptyParams(), 0, false, true));
      Leads(s, pic, [ESC, '[', prefix, final], t, pic)
  {
    hide Leads, PictureAfter, Status.After;
    var b := s.(parser := Parser(Csi, EmptyParams(), 0, false, false));
    var q := s.(parser := Parser(Csi, EmptyParams(), 0, false, true));
    var t := s.(parser := Parser(Ground, EmptyParams(), 0, false, true));
    Begins(s, pic);
    Gathers(b, pic, prefix);
    LeadsOn(s, pic, [ESC, '['], b, pic, [prefix], q, pic);
    assert [ESC, '['] + [prefix] == [ESC, '[', prefix];
    FinalTame(q, final);
    LeadsOne(q, pic, final);
    ForeignDone(q, pic, final);
    LeadsOn(s, pic, [ESC, '[', prefix], q, pic, [final], t, pic);
    assert [ESC, '[', prefix] + [final] == [ESC, '[', prefix, final];
  }

  lemma {:induction false} ForeignDone(q: Status, pic: Picture, final: char)
    requires q.parser == Parser(Csi, EmptyParams(), 0, false, true) && IsFinal(final)
    ensures q.After(final) == q.(parser := q.parser.(state := Ground)) && PictureAfter(q, pic, final) == pic
  {
    SequenceRuns(q, final);
    SamePicture(PictureAfter(q, pic, final), pic);
  }

  /** A string, such as a window title, is passed over: whatever it holds but a byte that ends it changes nothing. */
  lemma {:induction false} StringIgnored(s: Status, pic: Picture, text: seq<char>)
    requires s.parser.Shaped() && s.parser.state == Str
    requires forall k :: 0 <= k < |text| ==> !Aborts(text[k]) && Code(text[k]) != 7
    ensures Leads(s, pic, text, s, pic)
    decreases |text|
  {
    if text != [] {
      var c := text[0];
      assert text == [c] + text[1..];
      LeadsOne(s, pic, c);
      SamePicture(PictureAfter(s, pic, c), pic);
      StringIgnored(s, pic, text[1..]);
      LeadsOn(s, pic, [c], s, pic, text[1..], s, pic);
    }
  }

  /** ESC ] text BEL leaves the terminal as it was. */
  lemma {:induction false} TitleIgnored(s: Status, pic: Picture, text: seq<char>)
    requires Ready(s) && forall k :: 0 <= k < |text| ==> !Aborts(text[k]) && Code(text[k]) != 7
    ensures Leads(s, pic, [ESC, ']'] + text + [7 as char], s, pic)
  {
    hide Leads;
    var e, q := s.After(ESC), s.(parser := s.parser.(state := Str));
    SequenceBegins(s);
    assert e.After(']') == q && q.After(7 as char) == s;
    SamePicture(PictureAfter(s, pic, ESC), pic);
    SamePicture(PictureAfter(e, pic, ']'), pic);
    SamePicture(PictureAfter(q, pic, 7 as char), pic);
    LeadsOne(s, pic, ESC);
    LeadsOne(e, pic, ']');
    LeadsOn(s, pic, [ESC], e, pic, [']'], q, pic);
    assert [ESC] + [']'] == [ESC, ']'];
    StringIgnored(q, pic, text);
    LeadsOn(s, pic, [ESC, ']'], q, pic, text, q, pic);
    LeadsOne(q, pic, 7 as char);
    LeadsOn(s, pic, [ESC, ']'] + text, q, pic, [7 as char], s, pic);
  }

  /** What ESC and one more character leaves. */
  ghost predicate Escapes(s: Status, pic: Picture, c: char, t: Status, after: Picture) {
    match c
    case '7' => t == s.(saved := Saved(s.x, s.y, s.pen, s.modes.origin)) && after == pic
    case '8' =>
      && after == pic && s.saved == Saved(t.x, t.y, t.pen, t.modes.origin)
      && t == s.(x := t.x, y := t.y, pen := t.pen, modes := s.modes.(origin := t.modes.origin), wrapPending := false)
    case 'Z' => t == s.(replies := s.replies + [[ESC] + "[?6c"]) && after == pic
    case 'D' => FeedsLine(s, pic, s.x, t, after)
    case 'E' => FeedsLine(s, pic, 0, t, after)
    case 'M' =>
      && t == s.(y := t.y, wrapPending := false)
      && if s.y == s.top then t.y == s.y && PushedDown(pic, after, s.top, s.bot, 1, Clear(s.pen))
         else after == pic && t.y == if s.y == 0 then 0 else s.y - 1
    case _ =>
      && t == s.(x := 0, y := 0, top := 0, bot := 29, pen := Pen(7, 0, false), wrapPending := false,
                 modes := Modes(false, true, false, false, true), saved := t.saved)
      && forall r, col {:trigger CellOf(after, r, col)} :: OnScreen(col, r) ==>
           CellOf(after, r, col) == Cell(' ', 7, 0)
  }

  /** The cursor goes to column x of the next row, or at the region's bottom the region moves up. */
  ghost predicate FeedsLine(s: Status, pic: Picture, x: int, t: Status, after: Picture) {
    t == s.(x := x, y := t.y) &&
    if s.y == s.bot then t.y == s.y && PulledUp(pic, after, s.top, s.bot, 1, Clear(s.pen))
    else after == pic && t.y == if s.y == H - 1 then s.y else s.y + 1
  }

  /** ESC and 7, 8, D, E, M, Z or c. */
  lemma {:induction false} EscapeTyped(s: Status, pic: Picture, c: char)
    requires Ready(s) && c in {'7', '8', 'D', 'E', 'M', 'c', 'Z'}
    ensures var t, after := StatusAfter(s, [ESC, c]), Shown(s, pic, [ESC, c]);
      Leads(s, pic, [ESC, c], t, after) && Escapes(s, pic, c, t, after)
  {
    hide Escapes, Status.Effect, PictureAfter;
    var e := s.After(ESC);
    var t, after := e.After(c), PictureAfter(e, pic, c);
    SequenceBegins(s);
    SamePicture(PictureAfter(s, pic, ESC), pic);
    LeadsOne(s, pic, ESC);
    LeadsOne(e, pic, c);
    LeadsOn(s, pic, [ESC], e, pic, [c], t, after);
    assert [ESC] + [c] == [ESC, c];
    EscapeDone(s, pic, c);
  }

  lemma {:induction false} EscapeDone(s: Status, pic: Picture, c: char)
    requires Ready(s) && c in {'7', '8', 'D', 'E', 'M', 'c', 'Z'}
    ensures var e := s.(parser := s.parser.(state := State.Esc));
      Escapes(s, pic, c, e.After(c), PictureAfter(e, pic, c))
  {
    hide Escapes, Status.Escaped, EscapedCell;
    var e := s.(parser := s.parser.(state := State.Esc));
    assert e.After(c) == e.Escaped(c).(parser := s.parser);
    var t, after := e.After(c), PictureAfter(e, pic, c);
    assert forall r, col {:trigger CellOf(after, r, col)} :: OnScreen(col, r) ==>
      CellOf(after, r, col) == EscapedCell(e, pic, c, r, col);
    EscapedIs(s, pic, c, e, t, after);
  }

  lemma {:induction false} EscapedIs(s: Status, pic: Picture, c: char, e: Status, t: Status, after: Picture)
    requires Ready(s) && c in {'7', '8', 'D', 'E', 'M', 'c', 'Z'}
    requires e == s.(parser := e.parser) && t == e.Escaped(c).(parser := s.parser)
    requires forall r, col {:trigger CellOf(after, r, col)} :: OnScreen(col, r) ==>
      CellOf(after, r, col) == EscapedCell(e, pic, c, r, col)
    ensures Escapes(s, pic, c, t, after)
  {
    if c in {'7', '8', 'Z'} || (c in {'D', 'E'} && s.y != s.bot) || (c == 'M' && s.y != s.top) {
      SamePicture(after, pic);
    }
    assert [ESC] + "[?6c" == IDENTITY;
  }

  // ---------------------------------------------------------------- a report that does not lead back

  const ORIGIN_ON: seq<Octet> := [ESC, '[', '?', '6', 'h']
  const SAVE: seq<Octet> := [ESC, '7']
  const ROWS_6_TO_11: seq<Octet> := [ESC, '[', '6', ';', '1', '1', 'r']
  const RESTORE: seq<Octet> := [ESC, '8']

  lemma Spelled()
    ensures ORIGIN_ON == PrivateSequence(6, 'h') && ROWS_6_TO_11 == Sequence2(6, 11, 'r')
  {
    assert Digits(6, 10, false) == ['6'] && Digits(11, 10, false) == ['1', '1'];
  }

  /** How a cursor comes to be outside the region in origin mode: origin mode with the whole screen as region, the
      cursor saved in row 0, the region set to the rows 6 to 11 counted from one, and the cursor restored. The row then
      reported leads back to row 5. */
  method RestoredOutside() returns (t: Terminal)
    ensures t.Valid() && fresh(t) && t.modes.origin && t.y == 0 && t.top == 5 && t.bot == 10
    ensures forall p: Parser, fromY: int :: p.Shaped() && p.state == Ground ==>
      RowAfter('H', Parsed(p, Position(t.x, t.y, t.top, true)).Param(0, 1), fromY, t.top, t.bot, true) != t.y
  {
    hide Parsed, Position, RowAfter, ColumnAfter, StatusAfter, Shown, TameFrom, Sequence2, PrivateSequence;
    Spelled();
    t := new Terminal();
    ModeTyped(t.Setup(), t.Picture(), true, 6, true);
    t.Feed(ORIGIN_ON);
    EscapeTyped(t.Setup(), t.Picture(), '7');
    t.Feed(SAVE);
    RegionTyped(t.Setup(), t.Picture(), 6, 11);
    t.Feed(ROWS_6_TO_11);
    EscapeTyped(t.Setup(), t.Picture(), '8');
    t.Feed(RESTORE);
    forall p: Parser, fromY: int | p.Shaped() && p.state == Ground
      ensures RowAfter('H', Parsed(p, Position(t.x, t.y, t.top, true)).Param(0, 1), fromY, t.top, t.bot, true) != t.y
    {
      ReportReadsBack(p, t.x, t.y, t.top, t.bot, true, 0, fromY);
    }
  }
}
