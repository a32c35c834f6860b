/** The VT102-style terminal on the 53x30 text screen. */
module Vt {
  import opened Numbers
  import opened RvCore
  import opened Words

  const W := 53
  const H := 30
  const MAX_PARAMS := 16
  const BLACK := 0
  const WHITE := 7
  const TAME := 1000000000  // parameter values the program is meant for stay below this

  type Octet = c: char | c as int < 256 witness ' '

  datatype Cell = Cell(ch: char, fg: int, bg: int)

  /** SGR colours; reverse swaps them on the screen. */
  datatype Pen = Pen(fg: int, bg: int, reverse: bool) {
    predicate Ok() {
      0 <= fg < 8 && 0 <= bg < 8
    }

    function Glyph(ch: char): Cell {
      if reverse then Cell(ch, bg, fg) else Cell(ch, fg, bg)
    }

    function Blank(): Cell {
      Cell(' ', fg, bg)
    }
  }

  /** What save_cursor keeps. */
  datatype Saved = Saved(x: int, y: int, pen: Pen, origin: bool)

  datatype State = Ground | Esc | EscSkip | Csi | Str | StrEsc

  /** Where a byte stream stands: the escape state and the control sequence read so far. */
  datatype Parser = Parser(state: State, params: seq<int>, nparams: int, privateMode: bool, otherPrefix: bool) {
    ghost predicate Shaped() {
      |params| == 16 && 0 <= nparams <= 16
    }

    ghost predicate Ok() {
      Shaped() && forall i :: 0 <= i < MAX_PARAMS ==> 0 <= params[i] < TAME
    }

    /** Parameter i as a signed number, with 0 or missing meaning def. */
    function Param(i: nat, def: int): (n: int)
      requires Shaped()
      ensures Ok() ==> n == def || 0 < n < TAME
    {
      if i >= nparams || params[i] == 0 then def else Signed(params[i])
    }

    /** The parameter that a digit goes to. */
    function Current(): int {
      if nparams == 0 then 0 else nparams - 1
    }

    /** A decimal digit, in unsigned 32-bit arithmetic. */
    function Digit(d: int): Parser
      requires Shaped()
    {
      this.(nparams := Current() + 1, params := params[Current() := (params[Current()] * 10 + d) % TWO32])
    }

    function Separator(): Parser {
      this.(nparams := if Current() + 1 < MAX_PARAMS then Current() + 2 else Current() + 1)
    }

    /** An SGR without parameters has one, a reset. */
    function Defaulted(): Parser
      requires Shaped()
    {
      if nparams == 0 then this.(nparams := 1, params := params[0 := 0]) else this
    }

    function Ended(c: char): Parser
      requires Shaped()
    {
      if c == 'm' && !otherPrefix then this.(state := Ground).Defaulted() else this.(state := Ground)
    }
  }

  function EmptyParams(): seq<int> {
    seq(MAX_PARAMS, _ => 0)
  }

  datatype Modes = Modes(insert: bool, autowrap: bool, origin: bool, appCursor: bool, cursorVisible: bool)

  predicate OnScreen(x: int, y: int) {
    0 <= x < W && 0 <= y < H
  }

  function Clamp(v: int, lo: int, hi: int): int {
    if v < lo then lo else if v > hi then hi else v
  }

  /** The row that set_cursor goes to: in origin mode it counts from the region's top and stays in the region. */
  function HomeRow(cy: int, top: int, bot: int, origin: bool): int {
    if origin then Clamp(cy + top, top, bot) else Clamp(cy, 0, H - 1)
  }

  /** How many lines a scroll by n moves in a region. */
  function Lines(top: int, bot: int, n: int): int {
    Min(n, bot - top + 1)
  }

  function Code(c: char): int {
    c as int
  }

  predicate IsDecimal(c: char) {
    '0' <= c <= '9'
  }

  /** What the next byte makes of the parser. */
  function Next(p: Parser, c: char): (q: Parser)
    requires p.Shaped()
    ensures q.Shaped()
  {
    if Code(c) == 0x18 || Code(c) == 0x1a then p.(state := Ground)
    else if Code(c) == 0x1b then p.(state := if p.state == Str then StrEsc else State.Esc)
    else match p.state
      case Str => if Code(c) == 7 then p.(state := Ground) else p
      case StrEsc => p.(state := if c == '\\' then Ground else Str)
      case Esc => EscNext(p, c)
      case EscSkip => p.(state := Ground)
      case Csi => if Code(c) < 0x20 || Code(c) == 0x7f then p else CsiNext(p, c)
      case Ground => p
  }

  function EscNext(p: Parser, c: char): Parser {
    if c == '[' then Parser(Csi, EmptyParams(), 0, false, false)
    else if c in {']', 'P', 'X', '^', '_'} then p.(state := Str)
    else if c in {'(', ')', '*', '+', '#', '%'} then p.(state := EscSkip)
    else p.(state := Ground)
  }

  function CsiNext(p: Parser, c: char): (q: Parser)
    requires p.Shaped()
    ensures q.Shaped()
  {
    if IsDecimal(c) then p.Digit(Code(c) - 48)
    else if c == ';' || c == ':' then p.Separator()
    else if c == '?' then p.(privateMode := true)
    else if c in {'<', '=', '>'} || Code(c) < 0x30 then p.(otherPrefix := true)
    else if 0x40 <= Code(c) <= 0x7e then p.Ended(c)
    else p.(state := Ground)
  }

  /** A byte that leaves every parameter below the limit. */
  ghost predicate Tame(p: Parser, c: char)
    requires p.Shaped()
  {
    p.state == Csi && IsDecimal(c) ==> p.params[p.Current()] * 10 + (Code(c) - 48) < TAME
  }

  /** A stream whose parameters all stay below the limit. */
  ghost predicate TameFrom(p: Parser, bytes: seq<char>)
    requires p.Shaped()
    decreases |bytes|
  {
    bytes == [] || (Tame(p, bytes[0]) && TameFrom(Next(p, bytes[0]), bytes[1..]))
  }

  /** The parser after a stream. */
  function Parsed(p: Parser, bytes: seq<char>): (q: Parser)
    requires p.Shaped()
    ensures q.Shaped()
    decreases |bytes|
  {
    if bytes == [] then p else Parsed(Next(p, bytes[0]), bytes[1..])
  }

  /** All of the terminal but the screen. */
  datatype Status = Status(
    parser: Parser, x: int, y: int, wrapPending: bool, top: int, bot: int, pen: Pen, modes: Modes, saved: Saved,
    replies: seq<seq<char>>) {
    /** A line feed: at the bottom of the region the region scrolls, elsewhere the cursor goes down if it can. */
    function Fed(): Status {
      this.(y := if y == bot || y == H - 1 then y else y + 1)
    }

    function BackFed(): Status {
      this.(y := if y == top || y == 0 then y else y - 1)
    }

    /** A pending wrap carried out. */
    function Wrapped(): Status {
      if wrapPending && modes.autowrap then this.(x := 0).Fed() else this
    }

    /** A glyph put: one column on, or a wrap to come. */
    function Typed(): Status {
      var s := Wrapped();
      s.(x := Min(s.x + 1, W - 1), wrapPending := s.x == W - 1 && modes.autowrap)
    }

    /** A C0 control. */
    function Controlled(c: char): Status {
      if c == '\r' then this.(x := 0, wrapPending := false)
      else if IsLineFeed(c) then Fed()
      else if Code(c) == 8 then this.(x := Max(x - 1, 0), wrapPending := false)
      else if c == '\t' then this.(x := Min((x / 8 + 1) * 8, W - 1))
      else this
    }

    function Stored(): Status {
      this.(saved := Saved(x, y, pen, modes.origin))
    }

    function Restored(): Status {
      this.(x := saved.x, y := saved.y, pen := saved.pen, modes := modes.(origin := saved.origin), wrapPending := false)
    }

    function Reset(): Status {
      this.(x := 0, y := 0, wrapPending := false, top := 0, bot := H - 1, pen := PLAIN, modes := DEFAULTS,
            saved := Saved(x, y, PLAIN, false))
    }

    /** What follows ESC. */
    function Escaped(c: char): Status {
      match c
      case '7' => Stored()
      case '8' => Restored()
      case 'D' => Fed()
      case 'E' => this.(x := 0).Fed()
      case 'M' => BackFed().(wrapPending := false)
      case 'c' => Reset()
      case 'Z' => this.(replies := replies + [IDENTITY])
      case _ => this
    }

    /** SM and RM; switching origin mode sends the cursor home. */
    function Switched(on: bool): Status
      requires parser.Shaped()
    {
      var ps := parser.params[..parser.nparams];
      var s := this.(modes := ModesFrom(ps, parser.privateMode, on, modes));
      if parser.privateMode && 6 in ps then s.(x := 0, y := if on then top else 0, wrapPending := false) else s
    }

    /** DECSTBM; a region of less than two rows is ignored. */
    function Narrowed(): Status
      requires parser.Shaped()
    {
      var t, b := parser.Param(0, 1) - 1, Min(parser.Param(1, H) - 1, H - 1);
      if t >= b then this
      else this.(top := t, bot := b, x := 0, y := if modes.origin then t else 0, wrapPending := false)
    }

    function Coloured(): Status
      requires parser.Shaped()
    {
      var p := parser.Defaulted();
      this.(pen := SgrFrom(p.params[..p.nparams], 0, pen))
    }

    function Answered(final: char): Status
      requires parser.Shaped()
    {
      this.(replies := replies +
        if final == 'n' then StatusReplies(parser, x, y, top, modes.origin)
        else if final == 'c' && !parser.privateMode && parser.Param(0, 0) == 0 then [IDENTITY] else [])
    }

    function CursorMoved(final: char): Status
      requires parser.Shaped()
    {
      this.(x := ColumnAfter(final, parser.Param(0, 1), parser.Param(1, 1), x),
            y := RowAfter(final, parser.Param(0, 1), y, top, bot, modes.origin), wrapPending := false)
    }

    function Edited(final: char): Status {
      this.(x := if final in {'L', 'M'} && top <= y <= bot then 0 else x,
            wrapPending := wrapPending && final in {'S', 'T'})
    }

    /** A control sequence, run by its final byte. */
    function Ran(final: char): Status
      requires parser.Shaped()
    {
      if parser.otherPrefix then this
      else if IsCursorFinal(final) then CursorMoved(final)
      else if IsEditFinal(final) then Edited(final)
      else SettingRan(final)
    }

    /** The sequences that neither move nor edit. */
    function SettingRan(final: char): Status
      requires parser.Shaped()
    {
      match final
      case 'h' => Switched(true)
      case 'l' => Switched(false)
      case 'r' => Narrowed()
      case 'm' => Coloured()
      case 's' => Stored()
      case 'u' => Restored()
      case _ => Answered(final)
    }

    /** One byte. */
    function After(c: char): Status
      requires parser.Shaped()
    {
      Effect(c).(parser := Next(parser, c))
    }

    function Grounded(): Status {
      this.(parser := parser.(state := Ground))
    }

    function Effect(c: char): Status
      requires parser.Shaped()
    {
      if Aborts(c) || parser.state in {Str, StrEsc, EscSkip} then this
      else if parser.state == State.Esc then Escaped(c)
      else if IsControl(c) then Controlled(c)
      else if parser.state == Csi then (if IsFinal(c) then Grounded().Ran(c) else this)
      else if IsPrintable(c) then Typed()
      else this
    }
  }

  const PLAIN := Pen(WHITE, BLACK, false)
  const DEFAULTS := Modes(false, true, false, false, true)

  predicate IsLineFeed(c: char) {
    c == '\n' || Code(c) == 0x0b || Code(c) == 0x0c
  }

  /** CAN, SUB and ESC, which end whatever was begun. */
  predicate Aborts(c: char) {
    Code(c) == 0x18 || Code(c) == 0x1a || Code(c) == 0x1b
  }

  predicate IsControl(c: char) {
    Code(c) < 0x20 || Code(c) == 0x7f
  }

  predicate IsFinal(c: char) {
    0x40 <= Code(c) <= 0x7e
  }

  /** Not a control and not a continuation byte of UTF-8. */
  predicate IsPrintable(c: char) {
    !IsControl(c) && !(0x80 <= Code(c) < 0xc0)
  }

  /** What is drawn for it. */
  function Drawn(c: char): char {
    if Code(c) < 0x80 then c else '?'
  }

  /** The terminal but for the screen after a stream. */
  function StatusAfter(s: Status, bytes: seq<char>): (t: Status)
    requires s.parser.Shaped()
    ensures t.parser.Shaped()
    decreases |bytes|
  {
    if bytes == [] then s else StatusAfter(s.After(bytes[0]), bytes[1..])
  }

  // ---------------------------------------------------------------- the screen as a value

  type Picture = p: seq<seq<Cell>> | |p| == H && forall r :: 0 <= r < H ==> |p[r]| == W
    witness seq(H, _ => seq(W, _ => PLAIN.Blank()))

  function CellOf(pic: Picture, r: int, c: int): Cell {
    if OnScreen(c, r) then pic[r][c] else PLAIN.Blank()
  }

  /** The cell that comes to (r, c) when rows t to b move up or down by n, blank ones coming in behind. */
  function Shifted(pic: Picture, blank: Cell, up: bool, t: int, b: int, n: int, r: int, c: int): Cell {
    var from := if up then r + Lines(t, b, n) else r - Lines(t, b, n);
    if !(t <= r <= b) then CellOf(pic, r, c) else if t <= from <= b then CellOf(pic, from, c) else blank
  }

  /** The cell at (r, c) once a line feed, if there is one, has been done. */
  function FedCell(s: Status, pic: Picture, feed: bool, r: int, c: int): Cell {
    if feed && s.y == s.bot then Shifted(pic, s.pen.Blank(), true, s.top, s.bot, 1, r, c) else CellOf(pic, r, c)
  }

  function BackFedCell(s: Status, pic: Picture, r: int, c: int): Cell {
    if s.y == s.top then Shifted(pic, s.pen.Blank(), false, s.top, s.bot, 1, r, c) else CellOf(pic, r, c)
  }

  /** A glyph put: the old screen, fed if a wrap was due, and in insert mode moved right. */
  function TypedCell(s: Status, pic: Picture, ch: char, r: int, c: int): Cell {
    var w, feed := s.Wrapped(), s.wrapPending && s.modes.autowrap;
    if r == w.y && c == w.x then s.pen.Glyph(ch)
    else if r == w.y && s.modes.insert && c > w.x then FedCell(s, pic, feed, r, c - 1)
    else FedCell(s, pic, feed, r, c)
  }

  /** A cell that ED (whole screen parts) or EL (row parts) of this kind erases. */
  predicate Erased(s: Status, rows: bool, kind: int, r: int, c: int) {
    match kind
    case 0 => (r == s.y && c >= s.x) || (rows && r > s.y)
    case 1 => (r == s.y && c <= s.x) || (rows && r < s.y)
    case 2 => rows || r == s.y
    case _ => rows && kind == 3
  }

  /** The cell that an editing sequence with first parameter n, or kind when 0 is its default, leaves at (r, c). */
  function EditedCell(s: Status, pic: Picture, final: char, n: int, kind: int, r: int, c: int): Cell {
    if final == 'J' || final == 'K' then
      if Erased(s, final == 'J', kind, r, c) then s.pen.Blank() else CellOf(pic, r, c)
    else if final == 'S' || final == 'T' then
      Shifted(pic, s.pen.Blank(), final == 'S', s.top, s.bot, n, r, c)
    else if final == 'L' || final == 'M' then
      if s.top <= s.y <= s.bot then Shifted(pic, s.pen.Blank(), final == 'M', s.y, s.bot, n, r, c)
      else CellOf(pic, r, c)
    else if r == s.y && c >= s.x then RowEdited(s, pic, final, n, r, c)
    else CellOf(pic, r, c)
  }

  function RowEdited(s: Status, pic: Picture, final: char, n: int, r: int, c: int): Cell {
    var k := Min(n, W - s.x);
    if final == 'P' then (if c + k < W then CellOf(pic, r, c + k) else s.pen.Blank())
    else if final == '@' then (if s.x <= c - k then CellOf(pic, r, c - k) else s.pen.Blank())
    else if c < s.x + n then s.pen.Blank() else CellOf(pic, r, c)
  }

  /** The cell at (r, col) after one byte. */
  function CellAfter(s: Status, pic: Picture, c: char, r: int, col: int): Cell
    requires s.parser.Shaped()
  {
    if Aborts(c) || s.parser.state in {Str, StrEsc, EscSkip} then CellOf(pic, r, col)
    else if s.parser.state == State.Esc then EscapedCell(s, pic, c, r, col)
    else if IsControl(c) then FedCell(s, pic, IsLineFeed(c), r, col)
    else if s.parser.state == Csi then RanCell(s.Grounded(), pic, c, r, col)
    else if IsPrintable(c) then TypedCell(s, pic, Drawn(c), r, col)
    else CellOf(pic, r, col)
  }

  function EscapedCell(s: Status, pic: Picture, c: char, r: int, col: int): Cell {
    if c == 'c' then PLAIN.Blank()
    else if c == 'M' then BackFedCell(s, pic, r, col)
    else FedCell(s, pic, c == 'D' || c == 'E', r, col)
  }

  function RanCell(s: Status, pic: Picture, c: char, r: int, col: int): Cell
    requires s.parser.Shaped()
  {
    if !s.parser.otherPrefix && IsEditFinal(c) then
      EditedCell(s, pic, c, s.parser.Param(0, 1), s.parser.Param(0, 0), r, col)
    else CellOf(pic, r, col)
  }

  /** Only ED and a full reset reach beyond the region and the cursor's rows, before and after. */
  lemma {:induction false} OutsideCells(s: Status, pic: Picture, c: char)
    requires s.parser.Shaped() && 0 <= s.top < s.bot < H && !ErasesScreen(s.parser, c)
    ensures forall r, col {:trigger CellAfter(s, pic, c, r, col)} ::
      OnScreen(col, r) && (r < s.top || r > s.bot) && r != s.y && r != s.After(c).y ==>
      CellAfter(s, pic, c, r, col) == CellOf(pic, r, col)
  {
    hide Next, RowEdited;
  }

  function PictureAfter(s: Status, pic: Picture, c: char): (p: Picture)
    requires s.parser.Shaped()
    ensures forall r, col {:trigger CellOf(p, r, col)} :: OnScreen(col, r) ==>
      CellOf(p, r, col) == CellAfter(s, pic, c, r, col)
  {
    seq(H, r => seq(W, col => CellAfter(s, pic, c, r, col)))
  }

  /** The screen after a stream. */
  function Shown(s: Status, pic: Picture, bytes: seq<char>): Picture
    requires s.parser.Shaped()
    decreases |bytes|
  {
    if bytes == [] then pic else Shown(s.After(bytes[0]), PictureAfter(s, pic, bytes[0]), bytes[1..])
  }

  /** ED and a full reset, the two that may change any cell. */
  predicate ErasesScreen(p: Parser, c: char) {
    (p.state == Csi && c == 'J') || (p.state == State.Esc && c == 'c')
  }

  /** Tame bytes keep the parser in range. */
  lemma {:induction false} NextOk(p: Parser, c: char)
    requires p.Ok() && Tame(p, c)
    ensures Next(p, c).Ok()
  {
  }

  predicate IsCursorFinal(c: char) {
    c in {'A', 'B', 'C', 'D', 'E', 'F', 'G', '`', 'a', 'e', 'd', 'H', 'f'}
  }

  /** ED, EL, IL, DL, DCH, ICH, ECH, SU and SD. */
  predicate IsEditFinal(c: char) {
    c in {'J', 'K', 'L', 'M', 'P', '@', 'X', 'S', 'T'}
  }

  /** The column after a cursor sequence with first parameter n and second parameter m. */
  function ColumnAfter(final: char, n: int, m: int, from: int): int {
    if final in {'C', 'a'} then Min(from + n, W - 1)
    else if final == 'D' then Max(from - n, 0)
    else if final in {'E', 'F'} then 0
    else if final in {'G', '`'} then Min(n - 1, W - 1)
    else if final in {'H', 'f'} then Clamp(m - 1, 0, W - 1)
    else from
  }

  function RowAfter(final: char, n: int, from: int, top: int, bot: int, origin: bool): int {
    if final in {'A', 'F'} then Max(from - n, if from >= top then top else 0)
    else if final in {'B', 'e', 'E'} then Min(from + n, if from <= bot then bot else H - 1)
    else if final in {'H', 'f', 'd'} then HomeRow(n - 1, top, bot, origin)
    else from
  }

  class Terminal {
    const screen: array2<Cell>
    var x: int
    var y: int
    var parser: Parser
    var wrapPending: bool
    var top: int
    var bot: int
    var pen: Pen
    var modes: Modes
    var saved: Saved
    var replies: seq<seq<char>>

    /** vt_init on a blank screen. */
    constructor ()
      ensures Valid() && fresh(screen) && replies == []
      ensures x == 0 && y == 0 && top == 0 && bot == 29 && modes == Modes(false, true, false, false, true)
      ensures parser.state == Ground && !wrapPending && pen == Pen(7, 0, false) && saved == Saved(0, 0, pen, false)
      ensures forall r, c {:trigger screen[r, c]} :: 0 <= r < H && 0 <= c < W ==> screen[r, c] == Cell(' ', 7, 0)
    {
      screen := new Cell[H, W]((_, _) => Cell(' ', WHITE, BLACK));
      x, y, parser := 0, 0, Parser(Ground, EmptyParams(), 0, false, false);
      wrapPending, top, bot := false, 0, H - 1;
      pen, modes := Pen(WHITE, BLACK, false), Modes(false, true, false, false, true);
      saved, replies := Saved(0, 0, Pen(WHITE, BLACK, false), false), [];
    }

    ghost predicate Shape() {
      screen.Length0 == H && screen.Length1 == W
    }

    ghost predicate CursorOk()
      reads this`x, this`y
    {
      OnScreen(x, y)
    }

    /** The scroll region: at least two rows of the screen. */
    ghost predicate RegionOk()
      reads this`top, this`bot
    {
      0 <= top < bot < H
    }

    ghost predicate SavedOk()
      reads this`saved
    {
      OnScreen(saved.x, saved.y) && saved.pen.Ok()
    }

    ghost predicate ParserOk()
      reads this`parser
    {
      parser.Ok()
    }

    ghost predicate PenOk()
      reads this`pen
    {
      pen.Ok()
    }

    /** Cursor and saved cursor on the screen, and region, colours and parameters in range. */
    ghost predicate Valid()
      reads this
    {
      Shape() && CursorOk() && SavedOk() && PenOk() && RegionOk() && ParserOk()
    }

    function Setup(): Status
      reads this
    {
      Status(parser, x, y, wrapPending, top, bot, pen, modes, saved, replies)
    }

    ghost function Picture(): (p: Picture)
      requires Shape()
      reads screen
      ensures forall r, c {:trigger CellOf(p, r, c)} :: OnScreen(c, r) ==> CellOf(p, r, c) == screen[r, c]
    {
      seq(H, r requires 0 <= r < H && Shape() reads screen =>
        seq(W, c requires 0 <= c < W && Shape() reads screen => screen[r, c]))
    }

    // ---------------------------------------------------------------- the screen

    method ClearCells(row: int, x0: int, x1: int)
      requires Shape() && 0 <= row < H && 0 <= x0 && x1 <= W
      modifies screen
      ensures forall r, c {:trigger OnScreen(c, r)} :: OnScreen(c, r) ==>
        screen[r, c] == if r == row && x0 <= c < x1 then pen.Blank() else old(screen[r, c])
    {
      forall c | x0 <= c < x1 {
        screen[row, c] := pen.Blank();
      }
    }

    /** Rows from r0 up to, but not including, r1. */
    method ClearRows(r0: int, r1: int)
      requires Shape() && 0 <= r0 <= r1 <= H
      modifies screen
      ensures forall r, c {:trigger OnScreen(c, r)} :: OnScreen(c, r) ==>
        screen[r, c] == if r0 <= r < r1 then pen.Blank() else old(screen[r, c])
    {
      for r := r0 to r1
        invariant forall i, c {:trigger OnScreen(c, i)} :: OnScreen(c, i) ==>
          screen[i, c] == if r0 <= i < r then pen.Blank() else old(screen[i, c])
      {
        ClearCells(r, 0, W);
      }
    }

    method CopyRow(to: int, from: int)
      requires Shape() && 0 <= to < H && 0 <= from < H
      modifies screen
      ensures forall r, c {:trigger OnScreen(c, r)} :: OnScreen(c, r) ==>
        screen[r, c] == if r == to then old(screen[from, c]) else old(screen[r, c])
    {
      forall c | 0 <= c < W {
        screen[to, c] := screen[from, c];
      }
    }

    /** The copying loop of scroll_up. */
    method CopyUp(t: int, b: int, n: int)
      requires Shape() && 0 <= t && b < H && 0 <= n <= b - t + 1
      modifies screen
      ensures forall r, c {:trigger OnScreen(c, r)} :: OnScreen(c, r) ==>
        screen[r, c] == old(if t <= r <= b - n then screen[r + n, c] else screen[r, c])
    {
      for r := t to b - n + 1
        invariant forall i, c {:trigger OnScreen(c, i)} :: OnScreen(c, i) ==>
          screen[i, c] == old(if t <= i < r then screen[i + n, c] else screen[i, c])
      {
        var from := r + n;
        assert forall c :: OnScreen(c, from) ==> screen[from, c] == old(screen[from, c]);
        CopyRow(r, from);
      }
    }

    /** The copying loop of scroll_down. */
    method CopyDown(t: int, b: int, n: int)
      requires Shape() && 0 <= t && b < H && 0 <= n <= b - t + 1
      modifies screen
      ensures forall r, c {:trigger OnScreen(c, r)} :: OnScreen(c, r) ==>
        screen[r, c] == old(if t + n <= r <= b then screen[r - n, c] else screen[r, c])
    {
      var r := b;
      while r >= t + n
        invariant t + n - 1 <= r <= b
        invariant forall i, c {:trigger OnScreen(c, i)} :: OnScreen(c, i) ==>
          screen[i, c] == old(if r < i <= b then screen[i - n, c] else screen[i, c])
      {
        var from := r - n;
        assert forall c :: OnScreen(c, from) ==> screen[from, c] == old(screen[from, c]);
        CopyRow(r, from);
        r := r - 1;
      }
    }

    /** scroll_up: rows t to b move up by n, and blank ones come in below; other rows stay. */
    method ScrollUp(t: int, b: int, n0: int)
      requires Shape() && 0 <= t <= b < H && n0 >= 0
      modifies screen
      ensures forall r, c {:trigger OnScreen(c, r)} :: OnScreen(c, r) ==>
        screen[r, c] == Shifted(old(Picture()), pen.Blank(), true, t, b, n0, r, c)
    {
      var n := if n0 > b - t + 1 then b - t + 1 else n0;
      CopyUp(t, b, n);
      ClearRows(b - n + 1, b + 1);
    }

    /** scroll_down: rows t to b move down by n, and blank ones come in above. */
    method ScrollDown(t: int, b: int, n0: int)
      requires Shape() && 0 <= t <= b < H && n0 >= 0
      modifies screen
      ensures forall r, c {:trigger OnScreen(c, r)} :: OnScreen(c, r) ==>
        screen[r, c] == Shifted(old(Picture()), pen.Blank(), false, t, b, n0, r, c)
    {
      var n := if n0 > b - t + 1 then b - t + 1 else n0;
      CopyDown(t, b, n);
      ClearRows(t, t + n);
    }

    // ---------------------------------------------------------------- cursor and characters

    /** set_cursor: inside the region in origin mode, on the screen otherwise. */
    method SetCursor(cx: int, cy: int)
      requires Valid()
      modifies this`x, this`y, this`wrapPending
      ensures Valid() && !wrapPending && x == Clamp(cx, 0, W - 1)
      ensures y == HomeRow(cy, top, bot, modes.origin)
    {
      var x1, y1 := cx, cy;
      var minY, maxY := 0, H - 1;
      if modes.origin {
        y1 := y1 + top;
        minY, maxY := top, bot;
      }
      if x1 < 0 { x1 := 0; }
      if x1 > W - 1 { x1 := W - 1; }
      if y1 < minY { y1 := minY; }
      if y1 > maxY { y1 := maxY; }
      x, y, wrapPending := x1, y1, false;
    }

    /** linefeed: at the bottom of the region the region scrolls up, elsewhere the cursor goes down if it can. */
    method Linefeed()
      requires Valid()
      modifies this`y, screen
      ensures Valid() && y == if old(y) == bot || old(y) == H - 1 then old(y) else old(y) + 1
      ensures forall r, c {:trigger OnScreen(c, r)} :: OnScreen(c, r) ==>
        screen[r, c] == FedCell(old(Setup()), old(Picture()), true, r, c)
    {
      hide Shifted, ParserOk, SavedOk, PenOk;
      if y == bot {
        ScrollUp(top, bot, 1);
      } else if y < H - 1 {
        y := y + 1;
      }
    }

    /** reverse_index: the mirror image. */
    method ReverseIndex()
      requires Valid()
      modifies this`y, screen
      ensures Valid() && y == if old(y) == top || old(y) == 0 then old(y) else old(y) - 1
      ensures forall r, c {:trigger OnScreen(c, r)} :: OnScreen(c, r) ==>
        screen[r, c] == BackFedCell(old(Setup()), old(Picture()), r, c)
    {
      hide Shifted, ParserOk, SavedOk, PenOk;
      if y == top {
        ScrollDown(top, bot, 1);
      } else if y > 0 {
        y := y - 1;
      }
    }

    /** Cells from x0 on move right by n within the row; what leaves it is lost. */
    method MoveRight(row: int, x0: int, n: int)
      requires Shape() && 0 <= row < H && 0 <= x0 && 0 <= n && x0 + n <= W
      modifies screen
      ensures forall r, c {:trigger OnScreen(c, r)} :: OnScreen(c, r) ==>
        screen[r, c] == if r == row && c >= x0 + n then old(screen[r, c - n]) else old(screen[r, c])
    {
      var i := W - 1;
      while i >= x0 + n
        invariant x0 + n - 1 <= i < W
        invariant forall r, c {:trigger OnScreen(c, r)} :: OnScreen(c, r) ==>
          screen[r, c] == if r == row && c > i then old(screen[r, c - n]) else old(screen[r, c])
      {
        assert OnScreen(i - n, row);
        screen[row, i] := screen[row, i - n];
        i := i - 1;
      }
    }

    /** Cells behind x0 + n move left by n within the row. */
    method MoveLeft(row: int, x0: int, n: int)
      requires Shape() && 0 <= row < H && 0 <= x0 && 0 <= n && x0 + n <= W
      modifies screen
      ensures forall r, c {:trigger OnScreen(c, r)} :: OnScreen(c, r) ==>
        screen[r, c] == if r == row && x0 <= c < W - n then old(screen[r, c + n]) else old(screen[r, c])
    {
      for i := x0 to W - n
        invariant forall r, c {:trigger OnScreen(c, r)} :: OnScreen(c, r) ==>
          screen[r, c] == if r == row && x0 <= c < i then old(screen[r, c + n]) else old(screen[r, c])
      {
        assert OnScreen(i + n, row);
        screen[row, i] := screen[row, i + n];
      }
    }

    /** A glyph at the cursor, the row made room for in insert mode; then one to the right, or a wrap to come. */
    method PutAtCursor(ch: char)
      requires Valid()
      modifies this`x, this`wrapPending, screen
      ensures Valid() && x == (if old(x) < W - 1 then old(x) + 1 else old(x))
      ensures wrapPending == (old(x) == W - 1 && modes.autowrap)
      ensures forall r, c {:trigger OnScreen(c, r)} :: OnScreen(c, r) ==>
        screen[r, c] == if r == y && c == old(x) then pen.Glyph(ch)
                        else if r == y && modes.insert && c > old(x) then old(screen[r, c - 1]) else old(screen[r, c])
    {
      hide ParserOk, RegionOk;
      wrapPending := false;
      if modes.insert {
        MoveRight(y, x, 1);
      }
      screen[y, x] := pen.Glyph(ch);
      if x < W - 1 {
        x := x + 1;
      } else if modes.autowrap {
        wrapPending := true;
      }
    }

    /** put_glyph: a pending wrap first goes to the start of the next line, scrolling the region at its bottom. */
    method PutGlyph(ch: char)
      requires Valid()
      modifies this`x, this`y, this`wrapPending, screen
      ensures Valid() && Setup() == old(Setup()).Typed()
      ensures forall r, c {:trigger OnScreen(c, r)} :: OnScreen(c, r) ==>
        screen[r, c] == TypedCell(old(Setup()), old(Picture()), ch, r, c)
    {
      hide SavedOk, PenOk, ParserOk;
      ghost var feed := wrapPending && modes.autowrap;
      if wrapPending && modes.autowrap {
        x := 0;
        Linefeed();
      }
      ghost var s, pic := old(Setup()), old(Picture());
      assert forall r, c {:trigger FedCell(s, pic, feed, r, c)} :: OnScreen(c, r) ==>
        screen[r, c] == FedCell(s, pic, feed, r, c);
      hide Shifted, FedCell;
      PutAtCursor(ch);
    }

    method SaveCursor()
      requires Valid()
      modifies this`saved
      ensures Valid() && saved == Saved(x, y, pen, modes.origin)
    {
      saved := Saved(x, y, pen, modes.origin);
    }

    method RestoreCursor()
      requires Valid()
      modifies this`x, this`y, this`pen, this`modes, this`wrapPending
      ensures Valid() && !wrapPending && saved == Saved(x, y, pen, modes.origin)
      ensures modes == old(modes).(origin := saved.origin)
    {
      hide RegionOk, ParserOk;
      x, y, pen, modes, wrapPending := saved.x, saved.y, saved.pen, modes.(origin := saved.origin), false;
    }

    method FullReset()
      requires Valid()
      modifies this`pen, this`modes, this`top, this`bot, this`wrapPending, this`saved
      ensures Valid() && top == 0 && bot == H - 1 && !wrapPending && modes == Modes(false, true, false, false, true)
      ensures pen == Pen(WHITE, BLACK, false) && saved == Saved(x, y, pen, false)
    {
      hide ParserOk;
      pen, modes := Pen(WHITE, BLACK, false), Modes(false, true, false, false, true);
      top, bot, wrapPending := 0, H - 1, false;
      SaveCursor();
    }

    // ---------------------------------------------------------------- control sequences

    /** sgr: the parameters, from left to right, on the colours. */
    method Sgr()
      requires Valid()
      modifies this`pen, this`parser
      ensures Valid() && parser == old(parser).Defaulted()
      ensures pen == SgrFrom(parser.params[..parser.nparams], 0, old(pen))
    {
      if parser.nparams == 0 {
        parser := parser.(nparams := 1, params := parser.params[0 := 0]);
      }
      ghost var ps, pen0 := parser.params[..parser.nparams], pen;
      var i := 0;
      while i < parser.nparams
        modifies this`pen
        invariant 0 <= i && PenOk() && SgrFrom(ps, i, pen) == SgrFrom(ps, 0, pen0)
      {
        var used := SgrStep(ps, i);
        i := i + used;
      }
    }

    /** One round of that loop: a parameter with the arguments it takes. */
    method SgrStep(ghost ps: seq<int>, i: nat) returns (used: nat)
      requires Shape() && PenOk() && ParserOk() && ps == parser.params[..parser.nparams] && i < parser.nparams
      modifies this`pen
      ensures PenOk() && used > 0 && SgrFrom(ps, i + used, pen) == SgrFrom(ps, i, old(pen))
    {
      var p := parser.params[i];
      used := 1;
      if p == 0 {
        pen := Pen(WHITE, BLACK, false);
      } else if p == 7 {
        pen := pen.(reverse := true);
      } else if p == 27 {
        pen := pen.(reverse := false);
      } else if 30 <= p <= 37 {
        pen := pen.(fg := p - 30);
      } else if p == 39 {
        pen := pen.(fg := WHITE);
      } else if 40 <= p <= 47 {
        pen := pen.(bg := p - 40);
      } else if p == 49 {
        pen := pen.(bg := BLACK);
      } else if 90 <= p <= 97 {
        pen := pen.(fg := p - 90);
      } else if 100 <= p <= 107 {
        pen := pen.(bg := p - 100);
      } else if p == 38 || p == 48 {
        if i + 1 < parser.nparams && parser.params[i + 1] == 5 {
          used := 3;
        } else if i + 1 < parser.nparams && parser.params[i + 1] == 2 {
          used := 5;
        }
      }
    }

    /** set_mode: the parameters in turn; switching origin mode sends the cursor home. */
    method SetMode(on: bool)
      requires Valid()
      modifies this`x, this`y, this`wrapPending, this`modes
      ensures Valid()
      ensures modes == ModesFrom(parser.params[..parser.nparams], parser.privateMode, on, old(modes))
      ensures if parser.privateMode && 6 in parser.params[..parser.nparams]
        then x == 0 && y == (if on then top else 0) && !wrapPending
        else x == old(x) && y == old(y) && wrapPending == old(wrapPending)
    {
      ghost var ps := parser.params[..parser.nparams];
      for i := 0 to parser.nparams
        invariant Valid()
        invariant modes == ModesFrom(ps[..i], parser.privateMode, on, old(modes))
        invariant if parser.privateMode && 6 in ps[..i] then x == 0 && y == (if on then top else 0) && !wrapPending
          else x == old(x) && y == old(y) && wrapPending == old(wrapPending)
      {
        assert ps[..i + 1] == ps[..i] + [ps[i]];
        var p := parser.params[i];
        SetOneMode(p, on);
      }
      assert ps[..parser.nparams] == ps;
    }

    /** One round of that loop. */
    method SetOneMode(p: int, on: bool)
      requires Valid()
      modifies this`x, this`y, this`wrapPending, this`modes
      ensures Valid() && modes == ModeAfter(p, parser.privateMode, on, old(modes))
      ensures if parser.privateMode && p == 6 then x == 0 && y == (if on then top else 0) && !wrapPending
        else x == old(x) && y == old(y) && wrapPending == old(wrapPending)
    {
      hide ParserOk, PenOk, SavedOk;
      if parser.privateMode {
        if p == 1 {
          modes := modes.(appCursor := on);
        } else if p == 6 {
          modes := modes.(origin := on);
          SetCursor(0, 0);
        } else if p == 7 {
          modes := modes.(autowrap := on);
        } else if p == 25 {
          modes := modes.(cursorVisible := on);
        }
      } else if p == 4 {
        modes := modes.(insert := on);
      }
    }

    /** CUU: a margin stops the move when it starts on this side of it. */
    method MoveUp(n: int)
      requires Valid() && 1 <= n < TAME
      modifies this`y, this`wrapPending
      ensures Valid() && !wrapPending && y == Max(old(y) - n, if old(y) >= top then top else 0)
    {
      hide ParserOk, SavedOk, PenOk;
      var limit := if y >= top then top else 0;
      y := if y - n < limit then limit else y - n;
      wrapPending := false;
    }

    method MoveDown(n: int)
      requires Valid() && 1 <= n < TAME
      modifies this`y, this`wrapPending
      ensures Valid() && !wrapPending && y == Min(old(y) + n, if old(y) <= bot then bot else H - 1)
    {
      hide ParserOk, SavedOk, PenOk;
      var limit := if y <= bot then bot else H - 1;
      y := if y + n > limit then limit else y + n;
      wrapPending := false;
    }

    /** The sequences that only move the cursor. */
    method CursorCsi(final: char)
      requires Valid() && IsCursorFinal(final)
      modifies this`x, this`y, this`wrapPending
      ensures Valid() && !wrapPending
      ensures x == ColumnAfter(final, parser.Param(0, 1), parser.Param(1, 1), old(x))
      ensures y == RowAfter(final, parser.Param(0, 1), old(y), top, bot, modes.origin)
    {
      hide ParserOk, SavedOk, PenOk, RegionOk, HomeRow;
      ParamRange(0, 1);
      var n := parser.Param(0, 1);
      if final == 'E' || final == 'F' {
        x := 0;
      }
      if final == 'A' || final == 'F' {
        MoveUp(n);
      } else if final == 'B' || final == 'e' || final == 'E' {
        MoveDown(n);
      } else if final == 'd' {
        SetCursor(x, n - 1);
      } else if final == 'H' || final == 'f' {
        ParamRange(1, 1);
        SetCursor(parser.Param(1, 1) - 1, n - 1);
      } else {
        MoveAcross(final, n);
      }
    }

    method MoveAcross(final: char, n: int)
      requires Valid() && 1 <= n < TAME && final in {'C', 'a', 'D', 'G', '`'}
      modifies this`x, this`wrapPending
      ensures Valid() && !wrapPending
      ensures x == if final in {'C', 'a'} then Min(old(x) + n, W - 1)
        else if final == 'D' then Max(old(x) - n, 0) else Min(n - 1, W - 1)
    {
      hide ParserOk, SavedOk, PenOk, RegionOk;
      if final == 'C' || final == 'a' {
        x := if x + n > W - 1 then W - 1 else x + n;
      } else if final == 'D' {
        x := if x - n < 0 then 0 else x - n;
      } else {
        x := if n - 1 > W - 1 then W - 1 else n - 1;
      }
      wrapPending := false;
    }

    lemma ParamRange(i: nat, def: int)
      requires ParserOk()
      ensures parser.Shaped()
      ensures parser.Param(i, def) == def || 0 < parser.Param(i, def) < TAME
    {
    }

    /** ED and EL. */
    method Erase(rows: bool, kind: int)
      requires Valid()
      modifies screen, this`wrapPending
      ensures Valid() && !wrapPending
      ensures forall r, c {:trigger OnScreen(c, r)} :: OnScreen(c, r) ==>
        screen[r, c] == if Erased(old(Setup()), rows, kind, r, c) then pen.Blank() else old(screen[r, c])
    {
      hide ParserOk, SavedOk, PenOk, RegionOk;
      match kind {
        case 0 =>
          ClearCells(y, x, W);
          if rows { ClearRows(y + 1, H); }
        case 1 =>
          if rows { ClearRows(0, y); }
          ClearCells(y, 0, x + 1);
        case 2 =>
          if rows { ClearRows(0, H); } else { ClearCells(y, 0, W); }
        case 3 =>
          if rows { ClearRows(0, H); }
        case _ =>
      }
      wrapPending := false;
    }

    /** DCH: the rest of the row moves left. */
    method DeleteChars(n0: int)
      requires Valid() && 1 <= n0 < TAME
      modifies screen, this`wrapPending
      ensures Valid() && !wrapPending
      ensures var n := Min(n0, W - x);
        forall r, c {:trigger OnScreen(c, r)} :: OnScreen(c, r) ==>
          screen[r, c] == if r != y || c < x then old(screen[r, c])
            else if c < W - n then old(screen[r, c + n]) else pen.Blank()
    {
      hide ParserOk, SavedOk, PenOk, RegionOk;
      var n := if n0 > W - x then W - x else n0;
      MoveLeft(y, x, n);
      ClearCells(y, W - n, W);
      wrapPending := false;
    }

    method MakeRoom(row: int, x0: int, n: int)
      requires Shape() && 0 <= row < H && 0 <= x0 && 0 <= n && x0 + n <= W
      modifies screen
      ensures forall r, c {:trigger OnScreen(c, r)} :: OnScreen(c, r) ==>
        screen[r, c] == if r != row || c < x0 then old(screen[r, c])
          else if c >= x0 + n then old(screen[r, c - n]) else pen.Blank()
    {
      MoveRight(row, x0, n);
      ClearCells(row, x0, x0 + n);
    }

    /** ICH: the rest of the row moves right. */
    method InsertChars(n0: int)
      requires Valid() && 1 <= n0 < TAME
      modifies screen, this`wrapPending
      ensures Valid() && !wrapPending
      ensures var n := Min(n0, W - x);
        forall r, c {:trigger OnScreen(c, r)} :: OnScreen(c, r) ==>
          screen[r, c] == if r != y || c < x then old(screen[r, c])
            else if c >= x + n then old(screen[r, c - n]) else pen.Blank()
    {
      hide ParserOk, SavedOk, PenOk, RegionOk;
      var n := if n0 > W - x then W - x else n0;
      MakeRoom(y, x, n);
      wrapPending := false;
    }

    /** ECH. */
    method EraseChars(n: int)
      requires Valid() && 1 <= n < TAME
      modifies screen, this`wrapPending
      ensures Valid() && !wrapPending
      ensures forall r, c {:trigger OnScreen(c, r)} :: OnScreen(c, r) ==>
        screen[r, c] == if r == y && x <= c < x + n then pen.Blank() else old(screen[r, c])
    {
      hide ParserOk, SavedOk, PenOk, RegionOk;
      ClearCells(y, x, if x + n > W then W else x + n);
      wrapPending := false;
    }

    /** SU and SD scroll the whole region. */
    method Scroll(up: bool, n: int)
      requires Valid() && 1 <= n < TAME
      modifies screen
      ensures Valid()
      ensures forall r, c {:trigger OnScreen(c, r)} :: OnScreen(c, r) ==>
        screen[r, c] == Shifted(old(Picture()), pen.Blank(), up, top, bot, n, r, c)
    {
      hide Shifted, ParserOk, SavedOk, PenOk, CursorOk;
      if up {
        ScrollUp(top, bot, n);
      } else {
        ScrollDown(top, bot, n);
      }
    }

    /** IL and DL, only with the cursor in the region. */
    method EditLines(insert: bool, n: int)
      requires Valid() && 1 <= n < TAME
      modifies screen, this`x, this`wrapPending
      ensures Valid() && !wrapPending
      ensures x == if top <= y <= bot then 0 else old(x)
      ensures forall r, c {:trigger OnScreen(c, r)} :: OnScreen(c, r) ==>
        screen[r, c] == if top <= y <= bot then Shifted(old(Picture()), pen.Blank(), !insert, y, bot, n, r, c)
          else old(screen[r, c])
    {
      hide Shifted, ParserOk, SavedOk, PenOk;
      if top <= y <= bot {
        if insert {
          ScrollDown(y, bot, n);
        } else {
          ScrollUp(y, bot, n);
        }
        x := 0;
      }
      wrapPending := false;
    }

    /** DECSTBM: a region of at least two rows is taken, and the cursor goes home. */
    method SetRegion()
      requires Valid()
      modifies this`top, this`bot, this`x, this`y, this`wrapPending
      ensures Valid()
      ensures var t, b := parser.Param(0, 1) - 1, Min(parser.Param(1, H) - 1, H - 1);
        if t < b then top == t && bot == b && x == 0 && y == (if modes.origin then top else 0) && !wrapPending
        else top == old(top) && bot == old(bot) && x == old(x) && y == old(y) && wrapPending == old(wrapPending)
    {
      hide SavedOk, PenOk;
      var t := parser.Param(0, 1) - 1;
      var b := parser.Param(1, H) - 1;
      if b > H - 1 {
        b := H - 1;
      }
      if t < b {
        top, bot := t, b;
        SetCursor(0, 0);
      }
    }

    // ---------------------------------------------------------------- replies

    /** put_uint: the digits come out last first and are turned round. */
    method PutUint(n0: Word) returns (s: seq<char>)
      ensures s == Digits(n0, 10, false)
    {
      hide Digits;
      var tmp := new char[10];
      var len: nat, n: nat := 0, n0;
      ghost var out: seq<char> := [];
      DigitRoom(n0, 10, false);
      var more := true;
      while more
        invariant len <= 10 && |out| == len
        invariant Digits(n0, 10, false) == (if more then Digits(n, 10, false) else []) + out
        invariant forall i :: 0 <= i < len ==> tmp[i] == out[len - 1 - i]
        decreases n, more
      {
        LastDigit(n, 10, false);
        assert len < 10;
        tmp[len] := '0' + (n % 10) as char;
        len := len + 1;
        out := [DigitChar(n % 10, false)] + out;
        n := n / 10;
        more := n != 0;
      }
      s := [];
      while len > 0
        invariant len <= 10 && |s| + len == |out| && s == out[..|s|]
        invariant forall i :: 0 <= i < len ==> tmp[i] == out[|out| - 1 - i]
      {
        len := len - 1;
        s := s + [tmp[len]];
      }
    }

    method Reply(s: seq<char>)
      modifies this`replies
      ensures replies == old(replies) + [s]
    {
      replies := replies + [s];
    }

    /** DSR: status, and the cursor's position counted from one. */
    method StatusReport()
      requires Valid()
      modifies this`replies
      ensures Valid()
      ensures replies == old(replies) + StatusReplies(parser, x, y, top, modes.origin)
    {
      hide Digits;
      if !parser.privateMode {
        if parser.Param(0, 0) == 5 {
          Reply([ESC, '[', '0', 'n']);
        } else if parser.Param(0, 0) == 6 {
          var ry := y + 1 - (if modes.origin then top else 0);
          var row := PutUint(U(ry));
          var column := PutUint(x + 1);
          Reply([ESC, '['] + row + [';'] + column + ['R']);
        }
      }
    }

    // ---------------------------------------------------------------- the dispatchers

    method EditCsi(final: char)
      requires Valid() && IsEditFinal(final)
      modifies screen, this`x, this`wrapPending
      ensures Valid() && x == if (final == 'L' || final == 'M') && top <= y <= bot then 0 else old(x)
      ensures wrapPending == (old(wrapPending) && final in {'S', 'T'})
      ensures forall r, c {:trigger OnScreen(c, r)} :: OnScreen(c, r) ==>
        screen[r, c] == EditedCell(old(Setup()), old(Picture()), final, parser.Param(0, 1), parser.Param(0, 0), r, c)
    {
      hide ParserOk, SavedOk, PenOk, RegionOk, Erased, Shifted, RowEdited;
      ParamRange(0, 1);
      var n := parser.Param(0, 1);
      if final == 'J' || final == 'K' {
        Erase(final == 'J', parser.Param(0, 0));
      } else if final == 'S' || final == 'T' {
        Scroll(final == 'S', n);
      } else if final == 'L' || final == 'M' {
        EditLines(final == 'L', n);
      } else {
        EditRow(final, n);
      }
    }

    method EditRow(final: char, n: int)
      requires Valid() && 1 <= n < TAME && (final == 'P' || final == '@' || final == 'X')
      modifies screen, this`wrapPending
      ensures Valid() && !wrapPending
      ensures forall r, c {:trigger OnScreen(c, r)} :: OnScreen(c, r) ==>
        screen[r, c] == if r == y && c >= x then RowEdited(old(Setup()), old(Picture()), final, n, r, c)
          else old(screen[r, c])
    {
      hide ParserOk, SavedOk, PenOk, RegionOk, CellOf;
      if final == 'P' {
        DeleteChars(n);
      } else if final == '@' {
        InsertChars(n);
      } else {
        EraseChars(n);
      }
    }

    /** The sequences that move or edit nothing: region, colours, modes, the saved cursor and reports. */
    method SettingsCsi(final: char)
      requires Valid() && !IsCursorFinal(final) && !IsEditFinal(final)
      modifies this
      ensures Valid() && parser == if final == 'm' then old(parser).Defaulted() else old(parser)
      ensures final != 'r' ==> top == old(top) && bot == old(bot)
      ensures final != 'u' && final != 'm' ==> pen == old(pen)
      ensures final == 'm' ==> pen == SgrFrom(parser.params[..parser.nparams], 0, old(pen))
      ensures final == 's' ==> saved == Saved(x, y, pen, modes.origin)
      ensures final == 'u' ==> saved == old(saved) && saved == Saved(x, y, pen, modes.origin)
      ensures replies == old(replies) +
        if final == 'n' then StatusReplies(old(parser), old(x), old(y), old(top), old(modes.origin))
        else if final == 'c' && !old(parser.privateMode) && old(parser.Param(0, 0)) == 0 then [IDENTITY] else []
      ensures final == 'h' || final == 'l' ==>
        modes == ModesFrom(parser.params[..parser.nparams], parser.privateMode, final == 'h', old(modes))
      ensures final == 'r' && parser.Param(0, 1) < Min(parser.Param(1, H), H) ==>
        top == parser.Param(0, 1) - 1 && bot == Min(parser.Param(1, H), H) - 1
      ensures Setup() == old(Setup()).SettingRan(final).(parser := parser)
    {
      hide ParserOk, SavedOk, PenOk, RegionOk, CursorOk, SgrFrom, StatusReplies, ModesFrom;
      if final == 'r' {
        SetRegion();
      } else if final == 'm' {
        Sgr();
      } else if final == 'h' {
        SetMode(true);
      } else if final == 'l' {
        SetMode(false);
      } else if final == 's' {
        SaveCursor();
      } else if final == 'u' {
        RestoreCursor();
      } else if final == 'n' {
        StatusReport();
      } else if final == 'c' {
        ParamRange(0, 0);
        if !parser.privateMode && parser.Param(0, 0) == 0 {
          Reply(IDENTITY);
        }
      }
    }

    /** run_csi. */
    method RunCsi(final: char)
      requires Valid()
      modifies this, screen
      ensures Valid()
      ensures forall r, c {:trigger OnScreen(c, r)} :: OnScreen(c, r) ==>
        screen[r, c] == RanCell(old(Setup()), old(Picture()), final, r, c)
      ensures final != 'J' ==> OutsideKept()
      ensures parser == if final == 'm' && !old(parser.otherPrefix) then old(parser).Defaulted() else old(parser)
      ensures Setup() == old(Setup()).Ran(final).(parser := parser)
    {
      hide ParserOk, SavedOk, PenOk, RegionOk, CursorOk, EditedCell, IsCursorFinal, IsEditFinal;
      if parser.otherPrefix {
        return;
      }
      if IsCursorFinal(final) {
        FinalsApart(final);
        CursorCsi(final);
      } else if IsEditFinal(final) {
        FinalsApart(final);
        if final != 'J' {
          ParamRange(0, 1);
          EditedOutside(final, parser.Param(0, 1), parser.Param(0, 0));
        }
        EditCsi(final);
      } else {
        SettingsCsi(final);
      }
    }

    lemma FinalsApart(final: char)
      ensures !IsCursorFinal(final) || !IsEditFinal(final)
      ensures IsCursorFinal(final) || IsEditFinal(final) ==> final != 'm'
    {
    }

    /** ESC c: a full reset, a blank screen and the cursor home. */
    method ResetAll()
      requires Valid()
      modifies this, screen
      ensures Valid() && Setup() == old(Setup()).Reset()
      ensures forall r, c {:trigger OnScreen(c, r)} :: OnScreen(c, r) ==> screen[r, c] == PLAIN.Blank()
    {
      hide ParserOk, SavedOk;
      FullReset();
      ClearRows(0, H);
      SetCursor(0, 0);
    }

    /** esc_final. */
    method EscFinal(c: char)
      requires Valid()
      modifies this, screen
      ensures Valid() && Setup() == old(Setup()).Escaped(c).(parser := EscNext(old(parser), c))
      ensures forall r, col {:trigger OnScreen(col, r)} :: OnScreen(col, r) ==>
        screen[r, col] == EscapedCell(old(Setup()), old(Picture()), c, r, col)
    {
      hide ParserOk, SavedOk, PenOk, RegionOk, EscNext, Shifted, CellOf;
      BeginEscape(c);
      if c == '7' {
        SaveCursor();
      } else if c == '8' {
        RestoreCursor();
      } else if c == 'D' {
        Linefeed();
      } else if c == 'E' {
        x := 0;
        Linefeed();
      } else if c == 'M' {
        ReverseIndex();
        wrapPending := false;
      } else if c == 'c' {
        ResetAll();
      } else if c == 'Z' {
        Reply(IDENTITY);
      }
    }

    /** The state that follows ESC and this character. */
    method BeginEscape(c: char)
      requires ParserOk()
      modifies this`parser
      ensures ParserOk() && parser == EscNext(old(parser), c)
    {
      parser := parser.(state := Ground);
      if c == '[' {
        parser := Parser(Csi, EmptyParams(), 0, false, false);
      } else if c == ']' || c == 'P' || c == 'X' || c == '^' || c == '_' {
        parser := parser.(state := Str);
      } else if c == '(' || c == ')' || c == '*' || c == '+' || c == '#' || c == '%' {
        parser := parser.(state := EscSkip);
      }
    }

    /** C0 controls, which act even inside a control sequence. */
    method Control(c: char)
      requires Valid()
      modifies this`x, this`y, this`wrapPending, screen
      ensures Valid() && Setup() == old(Setup()).Controlled(c)
      ensures forall r, col {:trigger OnScreen(col, r)} :: OnScreen(col, r) ==>
        screen[r, col] == FedCell(old(Setup()), old(Picture()), IsLineFeed(c), r, col)
    {
      hide ParserOk, SavedOk, PenOk, RegionOk;
      if c == '\r' {
        x, wrapPending := 0, false;
      } else if c == '\n' || Code(c) == 0x0b || Code(c) == 0x0c {
        Linefeed();
      } else if Code(c) == 8 {
        if x > 0 {
          x := x - 1;
        }
        wrapPending := false;
      } else if c == '\t' {
        x := (x / 8 + 1) * 8;
        if x > W - 1 {
          x := W - 1;
        }
      }
    }

    /** A byte of a control sequence: digits, separators and prefixes are gathered, the final byte runs it. */
    method CsiByte(c: char)
      requires Valid() && parser.state == Csi && Tame(parser, c) && 0x20 <= Code(c) != 0x7f
      modifies this, screen
      ensures Valid() && Setup() == old(Setup()).After(c)
      ensures forall r, col {:trigger OnScreen(col, r)} :: OnScreen(col, r) ==>
        screen[r, col] == RanCell(old(Setup()).Grounded(), old(Picture()), c, r, col)
    {
      hide SavedOk, PenOk, RegionOk, CursorOk, EditedCell, IsEditFinal, Status.Ran;
      FinalCodes(c);
      if IsDecimal(c) {
        AddDigit(Code(c) - 48);
      } else if c == ';' || c == ':' {
        if parser.nparams == 0 { parser := parser.(nparams := 1); }
        if parser.nparams < MAX_PARAMS { parser := parser.(nparams := parser.nparams + 1); }
      } else if c == '?' {
        parser := parser.(privateMode := true);
      } else if c == '>' || c == '=' || c == '<' {
        parser := parser.(otherPrefix := true);
      } else if Code(c) <= 0x2f {
        parser := parser.(otherPrefix := true);
      } else if 0x40 <= Code(c) <= 0x7e {
        FinalByte(c);
      } else {
        parser := parser.(state := Ground);
      }
    }

    /** The byte that ends a control sequence and runs it. */
    method FinalByte(c: char)
      requires Valid() && 0x40 <= Code(c) <= 0x7e
      modifies this, screen
      ensures Valid() && Setup() == old(Setup()).Grounded().Ran(c).(parser := old(parser).Ended(c))
      ensures forall r, col {:trigger OnScreen(col, r)} :: OnScreen(col, r) ==>
        screen[r, col] == RanCell(old(Setup()).Grounded(), old(Picture()), c, r, col)
    {
      hide SavedOk, PenOk, RegionOk, CursorOk, EditedCell, IsEditFinal, ColumnAfter, RowAfter, SgrFrom, ModesFrom;
      parser := parser.(state := Ground);
      RunCsi(c);
    }

    lemma FinalCodes(c: char)
      ensures IsEditFinal(c) ==> IsFinal(c)
    {
    }

    method AddDigit(d: int)
      requires ParserOk() && 0 <= d < 10 && parser.params[parser.Current()] * 10 + d < TAME
      modifies this`parser
      ensures ParserOk() && parser == old(parser).Digit(d)
    {
      if parser.nparams == 0 {
        parser := parser.(nparams := 1);
      }
      var i := parser.nparams - 1;
      parser := parser.(params := parser.params[i := (parser.params[i] * 10 + d) % TWO32]);
    }

    /** vt_putc. */
    method PutC(c: Octet)
      requires Valid() && Tame(parser, c)
      modifies this, screen
      ensures Valid() && Setup() == old(Setup()).After(c) && Picture() == PictureAfter(old(Setup()), old(Picture()), c)
      ensures !ErasesScreen(old(parser), c) ==> OutsideKept()
    {
      hide ParserOk, SavedOk, PenOk, PictureAfter, CellAfter, Status.After;
      ParamRange(0, 0);
      ghost var pic := PictureAfter(Setup(), Picture(), c);
      if !ErasesScreen(parser, c) { OutsideCells(Setup(), Picture(), c); }
      Dispatch(c);
      SamePicture(pic);
    }

    /** Its switches on the byte and the escape state. */
    method Dispatch(c: Octet)
      requires Valid() && Tame(parser, c)
      modifies this, screen
      ensures Valid() && Setup() == old(Setup()).After(c)
      ensures forall r, col {:trigger OnScreen(col, r)} :: OnScreen(col, r) ==>
        screen[r, col] == CellAfter(old(Setup()), old(Picture()), c, r, col)
    {
      hide ParserOk, SavedOk, PenOk, CursorOk, RegionOk, RanCell, EscapedCell, FedCell, TypedCell, IsEditFinal;
      hide Status.Ran, Status.Escaped, Status.Controlled, Status.Typed;
      if Code(c) == 0x18 || Code(c) == 0x1a {
        SetState(Ground);
      } else if Code(c) == 0x1b {
        SetState(if parser.state == Str then StrEsc else State.Esc);
      } else if parser.state == Str {
        if Code(c) == 7 {
          SetState(Ground);
        }
      } else if parser.state == StrEsc {
        SetState(if c == '\\' then Ground else Str);
      } else if parser.state == State.Esc {
        EscFinal(c);
      } else if parser.state == EscSkip {
        SetState(Ground);
      } else if Code(c) < 0x20 || Code(c) == 0x7f {
        Control(c);
      } else if parser.state == Csi {
        CsiByte(c);
      } else if !(0x80 <= Code(c) < 0xc0) {
        PutGlyph(if Code(c) >= 0x80 then '?' else c);
      }
    }

    lemma SamePicture(pic: Picture)
      requires Shape()
      requires forall r, c {:trigger OnScreen(c, r)} :: OnScreen(c, r) ==> screen[r, c] == CellOf(pic, r, c)
      ensures Picture() == pic
    {
      forall r | 0 <= r < H
        ensures Picture()[r] == pic[r]
      {
        forall c | 0 <= c < W
          ensures Picture()[r][c] == pic[r][c]
        {
          assert OnScreen(c, r);
        }
      }
    }

    method SetState(state: State)
      requires ParserOk()
      modifies this`parser
      ensures ParserOk() && parser == old(parser).(state := state)
    {
      parser := parser.(state := state);
    }

    /** A run over any bytes that keep the parameters tame. */
    method Feed(bytes: seq<Octet>)
      requires Valid() && TameFrom(parser, bytes)
      modifies this, screen
      ensures Valid() && parser == Parsed(old(parser), bytes)
      ensures Setup() == StatusAfter(old(Setup()), bytes) && Picture() == Shown(old(Setup()), old(Picture()), bytes)
    {
      hide Status.Effect, PictureAfter;
      for i := 0 to |bytes|
        invariant Valid() && TameFrom(parser, bytes[i..]) && Parsed(parser, bytes[i..]) == Parsed(old(parser), bytes)
        invariant StatusAfter(Setup(), bytes[i..]) == StatusAfter(old(Setup()), bytes)
        invariant Shown(Setup(), Picture(), bytes[i..]) == Shown(old(Setup()), old(Picture()), bytes)
      {
        assert bytes[i..][1..] == bytes[i + 1..];
        PutC(bytes[i]);
      }
    }

    /** Only ED reaches beyond the region and the cursor's row. */
    lemma EditedOutside(final: char, n: int, kind: int)
      requires Shape() && CursorOk() && RegionOk() && final != 'J'
      ensures forall r, c {:trigger OnScreen(c, r)} :: OnScreen(c, r) && (r < top || r > bot) && r != y ==>
        EditedCell(Setup(), Picture(), final, n, kind, r, c) == screen[r, c]
    {
      hide RowEdited;
    }

    /** No cell outside the scroll region and the cursor's rows, before and after, has changed. */
    twostate predicate OutsideKept()
      requires Shape()
      reads this`y, screen
    {
      forall r, c {:trigger OnScreen(c, r)} ::
        OnScreen(c, r) && (r < old(top) || r > old(bot)) && r != old(y) && r != y ==> screen[r, c] == old(screen[r, c])
    }
  }

  const IDENTITY: seq<char> := [ESC, '[', '?', '6', 'c']
  const ESC := 0x1b as char

  function StatusReplies(p: Parser, x: int, y: int, top: int, origin: bool): seq<seq<char>>
    requires p.Shaped()
  {
    if p.privateMode then []
    else if p.Param(0, 0) == 5 then [[ESC, '[', '0', 'n']]
    else if p.Param(0, 0) == 6 then [Position(x, y, top, origin) + ['R']]
    else []
  }

  /** A cursor position as it is reported, up to the final character. */
  function Position(x: int, y: int, top: int, origin: bool): seq<char>
  {
    [ESC, '['] + Digits(U(y + 1 - (if origin then top else 0)), 10, false) + [';'] + Digits(U(x + 1), 10, false)
  }

  /** What one SM or RM parameter does to the modes: cursor keys 1, origin 6, wrap 7, cursor 25, and insert 4. */
  function ModeAfter(p: int, privateMode: bool, on: bool, m: Modes): Modes {
    if privateMode && p == 1 then m.(appCursor := on)
    else if privateMode && p == 6 then m.(origin := on)
    else if privateMode && p == 7 then m.(autowrap := on)
    else if privateMode && p == 25 then m.(cursorVisible := on)
    else if !privateMode && p == 4 then m.(insert := on)
    else m
  }

  function ModesFrom(ps: seq<int>, privateMode: bool, on: bool, m: Modes): Modes {
    if ps == [] then m else ModeAfter(ps[|ps| - 1], privateMode, on, ModesFrom(ps[..|ps| - 1], privateMode, on, m))
  }

  /** What one SGR parameter does to the colours. */
  function SgrOne(p: int, pen: Pen): Pen {
    if p == 0 then PLAIN
    else if p == 7 || p == 27 then pen.(reverse := p == 7)
    else if 30 <= p <= 37 then pen.(fg := p - 30)
    else if 90 <= p <= 97 then pen.(fg := p - 90)
    else if p == 39 then pen.(fg := WHITE)
    else if 40 <= p <= 47 then pen.(bg := p - 40)
    else if 100 <= p <= 107 then pen.(bg := p - 100)
    else if p == 49 then pen.(bg := BLACK)
    else pen
  }

  /** How many parameters go together: 38 and 48 come with the arguments of colours that the screen does not have. */
  function SgrLength(ps: seq<int>, i: nat): (n: nat)
    requires i < |ps|
    ensures n > 0
  {
    if (ps[i] == 38 || ps[i] == 48) && i + 1 < |ps| && ps[i + 1] == 5 then 3
    else if (ps[i] == 38 || ps[i] == 48) && i + 1 < |ps| && ps[i + 1] == 2 then 5
    else 1
  }

  /** SGR parameters from the i-th on. */
  function SgrFrom(ps: seq<int>, i: nat, pen: Pen): Pen
    decreases |ps| - i
  {
    if i >= |ps| then pen else SgrFrom(ps, i + SgrLength(ps, i), SgrOne(ps[i], pen))
  }

  // ---------------------------------------------------------------- reading a report back

  lemma {:induction false} ParsedJoin(p: Parser, a: seq<char>, b: seq<char>)
    requires p.Shaped()
    ensures Parsed(p, a + b) == Parsed(Parsed(p, a), b)
    decreases |a|
  {
    hide Next;
    if a == [] {
      assert a + b == b;
    } else {
      assert (a + b)[1..] == a[1..] + b;
      ParsedJoin(Next(p, a[0]), a[1..], b);
    }
  }

  lemma {:induction false} ParsedOne(p: Parser, c: char)
    requires p.Shaped()
    ensures Parsed(p, [c]) == Next(p, c)
  {
    hide Next;
    assert Parsed(Next(p, c), []) == Next(p, c);
  }

  /** Decimal digits of a 32-bit number, typed into an empty parameter, give that number. */
  lemma {:induction false} ParsedDigits(p: Parser, ds: seq<char>)
    requires p.Shaped() && p.state == Csi && p.params[p.Current()] == 0
    requires AllDigits(ds, 10) && ds != [] && Value(ds, 10) < TWO32
    ensures Parsed(p, ds) == p.(nparams := p.Current() + 1, params := p.params[p.Current() := Value(ds, 10)])
    decreases |ds|
  {
    hide Next;
    var k := |ds| - 1;
    var front, c := ds[..k], ds[k];
    assert ds == front + [c];
    ParsedJoin(p, front, [c]);
    ParsedOne(Parsed(p, front), c);
    if front != [] {
      ParsedDigits(p, front);
    }
    DigitNext(Parsed(p, front), c);
  }

  lemma DigitNext(p: Parser, c: char)
    requires p.Shaped() && p.state == Csi && Numbers.IsDigit(c, 10)
    ensures Next(p, c) == p.Digit(DigitOf(c))
  {
  }

  /**
   * The cursor's position as it is reported, sent back as CUP, goes to the column it came from; it goes
   * to the row if and only if the cursor was not outside the region in origin mode.
   */
  lemma {:induction false} ReportReadsBack(
      p: Parser, x: int, y: int, top: int, bot: int, origin: bool, fromX: int, fromY: int)
    requires p.Shaped() && p.state == Ground && OnScreen(x, y) && 0 <= top < bot < H
    ensures var q := Parsed(p, Position(x, y, top, origin));
      && q.state == Csi && !q.otherPrefix
      && ColumnAfter('H', q.Param(0, 1), q.Param(1, 1), fromX) == x
      && (RowAfter('H', q.Param(0, 1), fromY, top, bot, origin) == y <==> !origin || top <= y <= bot)
  {
    hide Digits, Parsed;
    var row := U(y + 1 - (if origin then top else 0));
    ReportParsed(p, row, x + 1);
  }

  /** What the parser makes of two numbers after ESC [. */
  lemma {:induction false} ReportParsed(p: Parser, row: Word, column: Word)
    requires p.Shaped() && p.state == Ground
    ensures Parsed(p, [ESC, '['] + Digits(row, 10, false) + [';'] + Digits(column, 10, false)) ==
      Parser(Csi, EmptyParams()[0 := row][1 := column], 2, false, false)
  {
    hide Digits, Value, AllDigits;
    var r, c := Digits(row, 10, false), Digits(column, 10, false);
    ParsedJoin(p, [ESC, '['] + r + [';'], c);
    ParsedJoin(p, [ESC, '['] + r, [';']);
    ParsedJoin(p, [ESC, '['], r);
    IntroParsed(p);
    ValueOfDigits(row, 10, false);
    ValueOfDigits(column, 10, false);
    var p0 := Parser(Csi, EmptyParams(), 0, false, false);
    ParsedDigits(p0, r);
    var p1 := Parsed(p0, r);
    ParsedOne(p1, ';');
    ParsedDigits(Next(p1, ';'), c);
  }

  lemma {:induction false} IntroParsed(p: Parser)
    requires p.Shaped() && p.state == Ground
    ensures Parsed(p, [ESC, '[']) == Parser(Csi, EmptyParams(), 0, false, false)
  {
    assert [ESC, '['] == [ESC] + ['['];
    ParsedJoin(p, [ESC], ['[']);
    ParsedOne(p, ESC);
    ParsedOne(Next(p, ESC), '[');
  }
}
