/** Integer line and circle drawing of the display driver. */
module Gfx {
  import opened Words

  datatype Point = Point(x: int, y: int)

  const INT16_MAX := 32767

  predicate IsInt16(x: int) {
    -32768 <= x <= INT16_MAX
  }

  /** The value that a 16-bit signed variable keeps. */
  function Int16(v: int): (w: int)
    ensures IsInt16(w)
    ensures IsInt16(v) ==> w == v
  {
    (v + 32768) % 65536 - 32768
  }

  /** Wrapping once at the end is enough. */
  lemma {:induction false} WrapSum(u: int, v: int)
    ensures Int16(Int16(u) + v) == Int16(u + v) == Int16(u + Int16(v))
  {
    var j, k := (u + 32768) / 65536, (v + 32768) / 65536;
    assert Int16(u) == u - 65536 * j && Int16(v) == v - 65536 * k;
    Shifted(u + v, -j);
    Shifted(u + v, -k);
  }

  lemma {:induction false} Shifted(u: int, k: int)
    ensures Int16(u + 65536 * k) == Int16(u)
  {
    assert (u + 32768 + 65536 * k) % 65536 == (u + 32768) % 65536;
  }

  // ---------------------------------------------------------------- the ideal line, rounded

  /** How far the line has moved on the minor axis after k steps on the major one: k * dy / dx, rounded. */
  function Moved(dx: nat, dy: nat, k: nat): nat
    requires dy <= dx
  {
    if dx == 0 then 0
    else
      Smallest(k * dy + (dx - 1 - dx / 2), dx);
      (k * dy + (dx - 1 - dx / 2)) / dx
  }

  lemma {:induction false} Smallest(x: nat, m: nat)
    requires m > 0
    ensures x / m >= 0
  {
  }

  /** The k-th pixel of a line that runs along the major axis from (x0, y0). */
  function LinePoint(x0: int, y0: int, dx: nat, dy: nat, down: bool, steep: bool, k: nat): Point
    requires dy <= dx
  {
    var x, y := x0 + k, if down then y0 + Moved(dx, dy, k) else y0 - Moved(dx, dy, k);
    if steep then Point(y, x) else Point(x, y)
  }

  function LinePoints(x0: int, y0: int, dx: nat, dy: nat, down: bool, steep: bool, n: nat): (s: seq<Point>)
    requires dy <= dx
    ensures |s| == n
  {
    seq(n, k requires 0 <= k < n => LinePoint(x0, y0, dx, dy, down, steep, k))
  }

  /** An error term in range determines how far the line has moved. */
  lemma {:induction false} MovedIs(dx: nat, dy: nat, k: nat, j: nat, err: int)
    requires dy <= dx && 0 <= err < dx && err == dx / 2 - k * dy + j * dx
    ensures Moved(dx, dy, k) == j
  {
    var half := dx / 2;
    assert k * dy + (dx - 1 - half) == j * dx + (dx - 1 - err);
    assert k * dy >= 0;
    DivModUnique(k * dy + (dx - 1 - half), dx, j, dx - 1 - err);
  }

  /** Each pixel is within half a pixel of the ideal line. */
  lemma {:induction false} WithinHalf(dx: nat, dy: nat, k: nat)
    requires dy <= dx
    ensures dx > 0 ==> 2 * Abs(Moved(dx, dy, k) * dx - k * dy) <= dx
  {
    if dx > 0 {
      var half := dx / 2;
      var n := k * dy + (dx - 1 - half);
      assert k * dy >= 0;
      var q, r := n / dx, n % dx;
      assert n == dx * q + r;
      assert dx * q == q * dx;
    }
  }

  /** The line ends where it should. */
  lemma {:induction false} Ends(dx: nat, dy: nat)
    requires dy <= dx
    ensures Moved(dx, dy, 0) == 0 && Moved(dx, dy, dx) == dy
  {
    if dx > 0 {
      assert dx * dy == dy * dx;
      MovedIs(dx, dy, 0, 0, dx / 2);
      MovedIs(dx, dy, dx, dy, dx / 2);
    }
  }

  // ---------------------------------------------------------------- the framebuffer

  function Visible(p: Point, w: nat, h: nat): bool {
    0 <= p.x < w && 0 <= p.y < h
  }

  lemma InBuffer(p: Point, w: nat, h: nat)
    requires Visible(p, w, h)
    ensures 0 <= p.x + p.y * w < w * h
  {
    MulLe(p.y + 1, h, w);
    assert (p.y + 1) * w == p.y * w + w && h * w == w * h;
    assert p.y * w >= 0;
  }

  /** A buffer after pixels were drawn on it: those outside the screen change nothing. */
  function Drawn(fb: seq<nat>, w: nat, h: nat, points: seq<Point>, color: nat): (r: seq<nat>)
    requires |fb| == w * h
    ensures |r| == |fb|
  {
    if points == [] then fb
    else
      var before := Drawn(fb, w, h, points[..|points| - 1], color);
      var p := points[|points| - 1];
      if Visible(p, w, h) then
        InBuffer(p, w, h);
        before[p.x + p.y * w := color]
      else before
  }

  lemma {:induction false} DrawnOneMore(fb: seq<nat>, w: nat, h: nat, points: seq<Point>, p: Point, color: nat)
    requires |fb| == w * h
    ensures Drawn(fb, w, h, points + [p], color) == Drawn(Drawn(fb, w, h, points, color), w, h, [p], color)
  {
    var s := points + [p];
    assert s[..|s| - 1] == points && s[|s| - 1] == p;
    assert [p][..0] == [];
  }

  /** A pixel of the screen has the colour when it was among those drawn, and is unchanged otherwise. */
  lemma {:induction false} DrawnAt(fb: seq<nat>, w: nat, h: nat, points: seq<Point>, color: nat, q: Point)
    requires |fb| == w * h && Visible(q, w, h)
    ensures 0 <= q.x + q.y * w < w * h
    ensures Drawn(fb, w, h, points, color)[q.x + q.y * w] == if q in points then color else fb[q.x + q.y * w]
    decreases |points|
  {
    InBuffer(q, w, h);
    if points != [] {
      var p, rest := points[|points| - 1], points[..|points| - 1];
      DrawnAt(fb, w, h, rest, color, q);
      assert q in points <==> q in rest || q == p;
      if Visible(p, w, h) {
        InBuffer(p, w, h);
        SamePixel(p, q, w, h);
      }
    }
  }

  lemma SamePixel(p: Point, q: Point, w: nat, h: nat)
    requires Visible(p, w, h) && Visible(q, w, h)
    ensures p.x + p.y * w == q.x + q.y * w <==> p == q
  {
    assert p.y * w >= 0 && q.y * w >= 0;
    DivModUnique(p.x + p.y * w, w, p.y, p.x);
    DivModUnique(q.x + q.y * w, w, q.y, q.x);
  }

  class Display {
    const width: nat
    const height: nat
    const fb: array<nat>
    ghost var issued: seq<Point>  // every pixel asked for

    constructor (width: nat, height: nat)
      ensures Valid() && this.width == width && this.height == height && issued == [] && fresh(fb)
    {
      this.width, this.height := width, height;
      fb := new nat[width * height](_ => 0);
      issued := [];
    }

    ghost predicate Valid() {
      fb.Length == width * height
    }

    method DrawPixel(p: Point, color: nat)
      requires Valid()
      modifies this`issued, fb
      ensures issued == old(issued) + [p] && fb[..] == Drawn(old(fb[..]), width, height, [p], color)
    {
      issued := issued + [p];
      assert [p][..0] == [];
      if p.x < 0 || p.y < 0 || p.x >= width || p.y >= height {
        return;
      }
      InBuffer(p, width, height);
      fb[p.x + p.y * width] := color;
    }

    /** The buffer shows the pixels issued since it was `before` and `start` had been issued. */
    ghost predicate Shows(start: seq<Point>, points: seq<Point>, before: seq<nat>, color: nat)
      requires Valid() && |before| == width * height
      reads this, fb
    {
      issued == start + points && fb[..] == Drawn(before, width, height, points, color)
    }

    method Plot(p: Point, color: nat, ghost start: seq<Point>, ghost points: seq<Point>, ghost before: seq<nat>)
      requires Valid() && |before| == width * height && Shows(start, points, before, color)
      modifies this`issued, fb
      ensures Shows(start, points + [p], before, color)
    {
      hide Drawn;
      DrawPixel(p, color);
      DrawnOneMore(before, width, height, points, p, color);
      assert start + points + [p] == start + (points + [p]);
    }

    /** GFX_drawLine, after the ends were put in order along the major axis. The variables are 16 bits wide; y0 may
        wrap after the last pixel. */
    method LineLoop(xs: int, ys: int, x1: int, y1: int, steep: bool, color: nat)
      requires Valid() && IsInt16(xs) && IsInt16(ys) && IsInt16(y1)
      requires xs <= x1 < INT16_MAX && Abs(y1 - ys) <= x1 - xs <= INT16_MAX
      modifies this`issued, fb
      ensures var pts := LinePoints(xs, ys, x1 - xs, Abs(y1 - ys), ys < y1, steep, x1 - xs + 1);
        Shows(old(issued), pts, old(fb[..]), color)
    {
      hide Drawn, Moved, Shows, Int16, LinePoints;
      var x0, y0 := xs, ys;
      var dx, dy := x1 - x0, Abs(y1 - y0);
      var err := dx / 2;
      var ystep := if y0 < y1 then 1 else -1;
      ghost var k: nat, j: nat := 0, 0;
      ghost var pts := LinePoints(xs, ys, dx, dy, ys < y1, steep, 0);
      NothingShown(old(fb[..]), color);
      while x0 <= x1
        invariant (dx == 0 ==> j == 0) && k <= dx + 1 && x0 == Passed(xs, k) == xs + k
        invariant y0 == Int16(if ys < y1 then ys + j else ys - j)
        invariant pts == LinePoints(xs, ys, dx, dy, ys < y1, steep, k)
        invariant Shows(old(issued), pts, old(fb[..]), color)
        invariant err == dx / 2 - k * dy + j * dx && 0 <= err && (dx > 0 ==> err < dx)
        decreases x1 - x0
      {
        NotPast(dx, dy, k, j, err);
        if dx > 0 { MovedIs(dx, dy, k, j, err); } else { AtStart(dx, dy, k, j, err); }
        var p := if steep then Point(y0, x0) else Point(x0, y0);
        assert p == LinePoint(xs, ys, dx, dy, ys < y1, steep, k);
        Plot(p, color, old(issued), pts, old(fb[..]));
        LonePoint(xs, ys, dx, dy, ys < y1, steep, k);
        pts := LinePoints(xs, ys, dx, dy, ys < y1, steep, k + 1);
        Advanced(dx, dy, k, j);
        WrapSum(if ys < y1 then ys + j else ys - j, ystep);
        err := Int16(err - dy);
        if err < 0 {
          y0 := Int16(y0 + ystep);
          err := Int16(err + dx);
          j := j + 1;
        }
        x0, k := Int16(x0 + 1), k + 1;
      }
    }

    lemma NothingShown(before: seq<nat>, color: nat)
      requires Valid() && before == fb[..]
      ensures Shows(issued, [], before, color)
    {
      assert issued + [] == issued;
    }

    /** GFX_drawLine. */
    method DrawLine(x0: int, y0: int, x1: int, y1: int, color: nat)
      requires Valid()
      requires IsInt16(x0) && IsInt16(y0) && IsInt16(x1) && IsInt16(y1) && LoopEnds(x0, y0, x1, y1)
      requires Abs(x1 - x0) <= INT16_MAX && Abs(y1 - y0) <= INT16_MAX
      modifies this`issued, fb
      ensures Shows(old(issued), Line(x0, y0, x1, y1), old(fb[..]), color)
    {
      hide Shows;
      var steep := Abs(y1 - y0) > Abs(x1 - x0);
      var a0, b0, a1, b1 := x0, y0, x1, y1;
      if steep {
        a0, b0 := b0, a0;
        a1, b1 := b1, a1;
      }
      if a0 > a1 {
        a0, a1 := a1, a0;
        b0, b1 := b1, b0;
      }
      LineLoop(a0, b0, a1, b1, steep, color);
    }
  }

  /** Up to the end of the major axis the minor one does not pass its end either. */
  lemma {:induction false} NotPast(dx: nat, dy: nat, k: nat, j: nat, err: int)
    requires dy <= dx && k <= dx && err == dx / 2 - k * dy + j * dx && (dx > 0 ==> err < dx) && (dx == 0 ==> j == 0)
    ensures j <= dy
  {
    MulLe(k, dx, dy);
    if j > dy { MulLe(dy + 1, j, dx); }
  }

  lemma Advanced(dx: nat, dy: nat, k: nat, j: nat)
    ensures (k + 1) * dy == k * dy + dy && (j + 1) * dx == j * dx + dx
  {
  }

  lemma AtStart(dx: nat, dy: nat, k: nat, j: nat, err: int)
    requires dx == 0 && dy == 0 && k == 0
    ensures Moved(dx, dy, k) == 0
  {
  }

  lemma LonePoint(xs: int, ys: int, dx: nat, dy: nat, down: bool, steep: bool, k: nat)
    requires dy <= dx
    ensures LinePoints(xs, ys, dx, dy, down, steep, k + 1)
         == LinePoints(xs, ys, dx, dy, down, steep, k) + [LinePoint(xs, ys, dx, dy, down, steep, k)]
  {
  }

  /** The pixels of a line between any two points. */
  function Line(x0: int, y0: int, x1: int, y1: int): (s: seq<Point>)
    ensures |s| == (if Abs(y1 - y0) > Abs(x1 - x0) then Abs(y1 - y0) else Abs(x1 - x0)) + 1
  {
    var steep := Abs(y1 - y0) > Abs(x1 - x0);
    var a0, b0 := if steep then y0 else x0, if steep then x0 else y0;
    var a1, b1 := if steep then y1 else x1, if steep then x1 else y1;
    if a0 > a1 then LinePoints(a1, b1, a0 - a1, Abs(b0 - b1), b1 < b0, steep, a0 - a1 + 1)
    else LinePoints(a0, b0, a1 - a0, Abs(b1 - b0), b0 < b1, steep, a1 - a0 + 1)
  }

  /** The 16-bit loop variable can pass the end of the line. */
  predicate LoopEnds(x0: int, y0: int, x1: int, y1: int) {
    if Abs(y1 - y0) > Abs(x1 - x0) then y0 < INT16_MAX && y1 < INT16_MAX else x0 < INT16_MAX && x1 < INT16_MAX
  }

  /** The loop's 16-bit variable after n turns. */
  function Passed(x0: int, n: nat): int {
    if n == 0 then x0 else Int16(Passed(x0, n - 1) + 1)
  }

  /** The loop's test fails at some turn if and only if the line does not end at the largest coordinate: there the
      variable wraps to the smallest one and the loop goes on for ever. */
  lemma {:induction false} LoopEndsExactly(x0: int, x1: int)
    requires IsInt16(x0) && IsInt16(x1) && x0 <= x1
    ensures (exists n :: Passed(x0, n) > x1) <==> x1 < INT16_MAX
  {
    if x1 < INT16_MAX {
      Counts(x0, x1 - x0 + 1);
      assert Passed(x0, x1 - x0 + 1) > x1;
    } else {
      forall n: nat
        ensures Passed(x0, n) <= x1
      {
        StaysInt16(x0, n);
      }
    }
  }

  lemma {:induction false} Counts(x0: int, n: nat)
    requires IsInt16(x0) && x0 + n <= INT16_MAX
    ensures Passed(x0, n) == x0 + n
    decreases n
  {
    if n > 0 { Counts(x0, n - 1); }
  }

  lemma StaysInt16(x0: int, n: nat)
    requires IsInt16(x0)
    ensures IsInt16(Passed(x0, n))
  {
  }

  /** Both ends are drawn, first and last. */
  lemma {:induction false} LineHasEnds(x0: int, y0: int, x1: int, y1: int)
    ensures var s := Line(x0, y0, x1, y1);
      (s[0] == Point(x0, y0) && s[|s| - 1] == Point(x1, y1)) || (s[0] == Point(x1, y1) && s[|s| - 1] == Point(x0, y0))
  {
    hide Moved;
    var dx, dy := Abs(x1 - x0), Abs(y1 - y0);
    if dy > dx { Ends(dy, dx); } else { Ends(dx, dy); }
  }

  /** How far p is off the line through two points, times the distance of the points. */
  function Cross(x0: int, y0: int, x1: int, y1: int, px: int, py: int): int {
    (x1 - x0) * (py - y0) - (y1 - y0) * (px - x0)
  }

  /** The same from the other end, and with the axes swapped. */
  lemma {:induction false} CrossTurned(x0: int, y0: int, x1: int, y1: int, px: int, py: int)
    ensures Cross(x1, y1, x0, y0, px, py) == -Cross(x0, y0, x1, y1, px, py)
    ensures Cross(y0, x0, y1, x1, py, px) == -Cross(x0, y0, x1, y1, px, py)
  {
    var a, b, u, v := x1 - x0, y1 - y0, px - x0, py - y0;
    assert (-a) * (v - b) == -(a * v) + a * b;
    assert (-b) * (u - a) == -(b * u) + a * b;
  }

  lemma {:induction false} RunIsClose(a0: int, b0: int, a1: int, b1: int, k: nat)
    requires a0 <= a1 && Abs(b1 - b0) <= a1 - a0 && k <= a1 - a0
    ensures var m := Moved(a1 - a0, Abs(b1 - b0), k);
      2 * Abs(Cross(a0, b0, a1, b1, a0 + k, if b0 < b1 then b0 + m else b0 - m)) <= a1 - a0
  {
    hide Moved, Cross;
    var dx, dy := a1 - a0, Abs(b1 - b0);
    var m := Moved(dx, dy, k);
    WithinHalf(dx, dy, k);
    CrossAlong(a0, b0, a1, b1, k, m);
    if dx == 0 { NoLength(k, m, dy); }
  }

  lemma NoLength(k: nat, m: nat, dy: nat)
    requires k == 0 && dy == 0
    ensures m * 0 - k * dy == 0
  {
  }

  lemma {:induction false} CrossAlong(a0: int, b0: int, a1: int, b1: int, k: nat, m: nat)
    ensures var dx, dy := a1 - a0, Abs(b1 - b0);
      Cross(a0, b0, a1, b1, a0 + k, if b0 < b1 then b0 + m else b0 - m)
      == if b0 < b1 then m * dx - k * dy else k * dy - m * dx
  {
    var dx, dy := a1 - a0, Abs(b1 - b0);
    assert dx * (0 - m) == -(m * dx) && dx * m == m * dx;
    assert (0 - dy) * k == -(k * dy) && dy * k == k * dy;
  }

  /** Every pixel is within half a pixel of the ideal line, measured along the minor axis. */
  lemma {:induction false} LineIsClose(x0: int, y0: int, x1: int, y1: int, k: nat)
    requires k < |Line(x0, y0, x1, y1)|
    ensures var p := Line(x0, y0, x1, y1)[k];
      2 * Abs(Cross(x0, y0, x1, y1, p.x, p.y)) <= if Abs(y1 - y0) > Abs(x1 - x0) then Abs(y1 - y0) else Abs(x1 - x0)
  {
    hide Moved, Cross;
    var p := Line(x0, y0, x1, y1)[k];
    var steep := Abs(y1 - y0) > Abs(x1 - x0);
    CrossTurned(x0, y0, x1, y1, p.x, p.y);
    CrossTurned(x1, y1, x0, y0, p.x, p.y);
    if steep {
      if y0 > y1 { RunIsClose(y1, x1, y0, x0, k); } else { RunIsClose(y0, x0, y1, x1, k); }
    } else {
      if x0 > x1 { RunIsClose(x1, y1, x0, y0, k); } else { RunIsClose(x0, y0, x1, y1, k); }
    }
  }

  // ---------------------------------------------------------------- circles

  lemma {:induction false} WrapBoth(u: int, v: int)
    ensures Int16(Int16(u) + Int16(v)) == Int16(u + v)
  {
    hide Int16;
    WrapSum(u, v);
    WrapSum(Int16(u), v);
  }

  /** x*x + y*y - r*r. */
  function Off(x: int, y: int, r: int): int {
    x * x + y * y - r * r
  }

  /** y is as near to the circle as an integer can be: half a step up or down would cross it. */
  predicate OnCircle(x: int, y: int, r: int) {
    -y <= Off(x, y, r) <= y
  }

  /** The loop's variables. */
  datatype Pen = Pen(x: int, y: int, f: int, ddFx: int, ddFy: int)

  function StartPen(r: int): Pen {
    Pen(0, r, Int16(1 - r), 1, Int16(-2 * r))
  }

  /** One turn of the loop, in 16-bit arithmetic. */
  function Turn(s: Pen): Pen {
    var t := if s.f >= 0 then s.(y := s.y - 1, ddFy := Int16(s.ddFy + 2), f := Int16(s.f + Int16(s.ddFy + 2))) else s;
    t.(x := t.x + 1, ddFx := Int16(t.ddFx + 2), f := Int16(t.f + Int16(t.ddFx + 2)))
  }

  function PenAfter(r: int, k: nat): Pen {
    if k == 0 then StartPen(r) else Turn(PenAfter(r, k - 1))
  }

  /** The rows of the columns 1, 2, ... that the loop draws for a radius. */
  ghost predicate RowsOf(ys: seq<int>, r: int) {
    && (forall i :: 0 <= i < |ys| ==> i < PenAfter(r, i).y && ys[i] == PenAfter(r, i + 1).y)
    && PenAfter(r, |ys|).y <= |ys|
  }

  lemma {:induction false} ColumnOf(r: int, k: nat)
    ensures PenAfter(r, k).x == k
    decreases k
  {
    if k > 0 { ColumnOf(r, k - 1); }
  }

  /** A radius has one arc. */
  lemma {:induction false} RowsUnique(ys: seq<int>, zs: seq<int>, r: int)
    requires RowsOf(ys, r) && RowsOf(zs, r)
    ensures ys == zs
  {
    hide PenAfter;
    RowsNoLonger(ys, zs, r);
    RowsNoLonger(zs, ys, r);
    forall i | 0 <= i < |ys|
      ensures ys[i] == zs[i]
    {
      RowIs(ys, r, i);
      RowIs(zs, r, i);
    }
  }

  lemma RowsNoLonger(ys: seq<int>, zs: seq<int>, r: int)
    requires RowsOf(ys, r) && RowsOf(zs, r)
    ensures |ys| >= |zs|
  {
    hide PenAfter;
    forall k | 0 <= k < |zs|
      ensures k < PenAfter(r, k).y
    {
    }
  }

  /** A pixel and its mirror images, at 16-bit coordinates. */
  function Octants(x0: int, y0: int, x: int, y: int): seq<Point> {
    [Pixel(x0 + x, y0 + y), Pixel(x0 - x, y0 + y), Pixel(x0 + x, y0 - y), Pixel(x0 - x, y0 - y),
     Pixel(x0 + y, y0 + x), Pixel(x0 - y, y0 + x), Pixel(x0 + y, y0 - x), Pixel(x0 - y, y0 - x)]
  }

  function Pixel(x: int, y: int): Point {
    Point(Int16(x), Int16(y))
  }

  function Axes(x0: int, y0: int, r: int): seq<Point> {
    [Pixel(x0, y0 + r), Pixel(x0, y0 - r), Pixel(x0 + r, y0), Pixel(x0 - r, y0)]
  }

  /** The pixels of the columns 1, 2, ... whose rows are ys. */
  function Columns(x0: int, y0: int, ys: seq<int>): seq<Point> {
    if ys == [] then [] else Columns(x0, y0, ys[..|ys| - 1]) + Octants(x0, y0, |ys|, ys[|ys| - 1])
  }

  /** p is at (x, y) from the centre or at its image by mirrors on the axes and the diagonals. */
  ghost predicate MirrorOf(x0: int, y0: int, x: int, y: int, p: Point) {
    exists u, v :: p == Pixel(x0 + u, y0 + v)
      && ((Abs(u) == Abs(x) && Abs(v) == Abs(y)) || (Abs(u) == Abs(y) && Abs(v) == Abs(x)))
  }

  lemma {:induction false} OctantsAre(x0: int, y0: int, x: int, y: int, p: Point)
    ensures p in Octants(x0, y0, x, y) <==> MirrorOf(x0, y0, x, y, p)
  {
    hide Int16;
    if p in Octants(x0, y0, x, y) {
      var u, v :| u in {x, -x, y, -y} && v in {x, -x, y, -y} && p == Pixel(x0 + u, y0 + v)
        && ((Abs(u) == Abs(x) && Abs(v) == Abs(y)) || (Abs(u) == Abs(y) && Abs(v) == Abs(x)));
    }
  }

  /** The columns draw a point with all its mirror images, and nothing else. */
  lemma {:induction false} CircleSymmetric(x0: int, y0: int, ys: seq<int>, p: Point)
    ensures p in Columns(x0, y0, ys) <==> exists i :: 0 <= i < |ys| && MirrorOf(x0, y0, i + 1, ys[i], p)
    decreases |ys|
  {
    hide MirrorOf, Octants;
    if ys != [] {
      var k := |ys| - 1;
      CircleSymmetric(x0, y0, ys[..k], p);
      OctantsAre(x0, y0, |ys|, ys[k], p);
      assert forall i :: 0 <= i < k ==> ys[..k][i] == ys[i];
    }
  }

  /** And the ends of the axes are those of a circle of radius r. */
  lemma {:induction false} AxesAre(x0: int, y0: int, r: int, p: Point)
    ensures p in Axes(x0, y0, r) <==> MirrorOf(x0, y0, r, 0, p)
  {
    hide Int16;
    if p in Axes(x0, y0, r) {
      var u, v :| u in {0, r, -r} && v in {0, r, -r} && p == Pixel(x0 + u, y0 + v)
        && ((Abs(u) == Abs(r) && Abs(v) == Abs(0)) || (Abs(u) == Abs(0) && Abs(v) == Abs(r)));
    }
  }

  /** GFX_drawCircle, for every radius: the rows are those that the loop computes in 16-bit arithmetic. */
  method DrawCircle(d: Display, x0: int, y0: int, r: int, color: nat) returns (ghost ys: seq<int>)
    requires d.Valid() && IsInt16(r)
    modifies d`issued, d.fb
    ensures RowsOf(ys, r)
    ensures d.Shows(old(d.issued), Axes(x0, y0, r) + Columns(x0, y0, ys), old(d.fb[..]), color)
  {
    hide Drawn, Octants, Display.Shows, Axes, Columns, Int16, PenAfter;
    PenFirst(r);
    ghost var start, before := d.issued, d.fb[..];
    var f, ddFx, ddFy, x, y := Int16(1 - r), 1, Int16(-2 * r), 0, r;
    d.NothingShown(before, color);
    NoColumns(x0, y0, r);
    PlotAll(d, Axes(x0, y0, r), color, start, [], before);
    ys := [];
    while x < y
      invariant |ys| == x && Pen(x, y, f, ddFx, ddFy) == PenAfter(r, x)
      invariant forall i :: 0 <= i < |ys| ==> i < PenAfter(r, i).y && ys[i] == PenAfter(r, i + 1).y
      invariant d.Shows(start, Axes(x0, y0, r) + Columns(x0, y0, ys), before, color)
      decreases y - x
    {
      PenNext(r, x);
      if f >= 0 {
        y := y - 1;
        ddFy := Int16(ddFy + 2);
        f := Int16(f + ddFy);
      }
      x := x + 1;
      ddFx := Int16(ddFx + 2);
      f := Int16(f + ddFx);
      PlotAll(d, Octants(x0, y0, x, y), color, start, Axes(x0, y0, r) + Columns(x0, y0, ys), before);
      ColumnAdded(x0, y0, ys, y, Axes(x0, y0, r));
      ys := ys + [y];
    }
  }

  lemma PenFirst(r: int)
    ensures PenAfter(r, 0) == StartPen(r)
  {
  }

  lemma PenNext(r: int, k: nat)
    ensures PenAfter(r, k + 1) == Turn(PenAfter(r, k))
  {
  }

  lemma NoColumns(x0: int, y0: int, r: int)
    ensures [] + Axes(x0, y0, r) == Axes(x0, y0, r) + Columns(x0, y0, [])
  {
  }

  lemma ColumnAdded(x0: int, y0: int, ys: seq<int>, y: int, axes: seq<Point>)
    ensures axes + Columns(x0, y0, ys) + Octants(x0, y0, |ys| + 1, y) == axes + Columns(x0, y0, ys + [y])
  {
    hide Octants;
    assert (ys + [y])[..|ys|] == ys;
  }

  // ---------------------------------------------------------------- which radii give a circle

  /** An arc of one octant: every column's row is nearest to the circle, rows go down by at most 1, and the arc ends
      in the first column that reaches the diagonal. */
  ghost predicate Arc(ys: seq<int>, r: int) {
    && (forall i :: 0 <= i < |ys| ==> Column(ys, i, r))
    && ys != [] && ys[|ys| - 1] <= |ys|
  }

  predicate Column(ys: seq<int>, i: nat, r: int)
    requires i < |ys|
  {
    && OnCircle(i + 1, ys[i], r) && Above(ys, i, r) - 1 <= ys[i] <= Above(ys, i, r)
    && (i < |ys| - 1 ==> i + 1 < ys[i])
  }

  /** The row of the column before. */
  function Above(ys: seq<int>, i: nat, r: int): int
    requires i < |ys|
  {
    if i == 0 then r else ys[i - 1]
  }

  /** The radii for which the sign of the error term is never lost. */
  predicate RadiusFits(r: int) {
    1 <= r <= 16556 || r == 16642 || r == 16643
  }

  /** The exact error term at the pixel (x, y). */
  function Term(x: int, y: int, r: int): int {
    Off(x, y, r) + 2 * x + 1 - y
  }

  /** The variables at the pixel (x, y): in 16 bits, what they would be without a limit. */
  ghost predicate Tracking(s: Pen, r: int) {
    && 0 <= s.x && s.f == Int16(Term(s.x, s.y, r)) && s.ddFx == Int16(2 * s.x + 1) && s.ddFy == Int16(-2 * s.y)
  }

  lemma {:induction false} TermNext(x: int, y: int, r: int)
    ensures Term(x + 1, y, r) == Term(x, y, r) + 2 * x + 3
    ensures Term(x + 1, y - 1, r) == Term(x, y, r) - 2 * y + 2 + 2 * x + 3
  {
    assert (x + 1) * (x + 1) == x * x + 2 * x + 1 && (y - 1) * (y - 1) == y * y - 2 * y + 1;
  }

  /** The 16-bit variables stay the exact ones modulo 2^16 whatever the sign says. */
  lemma {:induction false} StaysTracking(s: Pen, r: int)
    requires Tracking(s, r)
    ensures Tracking(Turn(s), r)
  {
    hide Int16, Term;
    var t, x, y := Term(s.x, s.y, r), s.x, s.y;
    TermNext(x, y, r);
    WrapSum(2 * x + 1, 2);
    WrapSum(-2 * y, 2);
    WrapBoth(t, -2 * y + 2);
    WrapBoth(t, 2 * x + 3);
    WrapBoth(t + (-2 * y + 2), 2 * x + 3);
  }

  lemma {:induction false} Tracks(r: int, k: nat)
    requires 1 <= r <= INT16_MAX
    ensures Tracking(PenAfter(r, k), r)
    decreases k
  {
    hide Turn, Int16;
    if k == 0 {
      assert Term(0, r, r) == 1 - r;
      OneFits();
    } else {
      Tracks(r, k - 1);
      StaysTracking(PenAfter(r, k - 1), r);
    }
  }

  lemma OneFits()
    ensures Int16(1) == 1
  {
  }

  /** While the exact error term fits, the next pixel is on the circle too. */
  lemma {:induction false} NextOnCircle(s: Pen, r: int)
    requires Tracking(s, r) && s.x < s.y && OnCircle(s.x, s.y, r) && Off(s.x, s.y, r) < s.y
    requires IsInt16(Term(s.x, s.y, r))
    ensures var t := Turn(s); OnCircle(t.x, t.y, r) && (t.x < t.y ==> Off(t.x, t.y, r) < t.y)
  {
    hide Int16;
    TermNext(s.x, s.y, r);
    OffNext(s.x, s.y, r);
  }

  lemma {:induction false} OffNext(x: int, y: int, r: int)
    ensures Off(x + 1, y, r) == Off(x, y, r) + 2 * x + 1
    ensures Off(x + 1, y - 1, r) == Off(x, y, r) + 2 * x + 1 - 2 * y + 1
  {
    assert (x + 1) * (x + 1) == x * x + 2 * x + 1 && (y - 1) * (y - 1) == y * y - 2 * y + 1;
  }

  /** The columns behind which a row of the circle lies. */
  lemma {:induction false} ColumnBound(x: nat, b: nat)
    requires (x + 1) * (x + 1) > b * b
    ensures x >= b && (x + 1) * (x + 1) >= (b + 1) * (b + 1)
  {
    if x < b { MulLe(x + 1, b, x + 1); MulLe(x + 1, b, b); }
    MulLe(b + 1, x + 1, b + 1);
    MulLe(b + 1, x + 1, x + 1);
  }

  /** Two rows or more below the top, the column is far out. */
  lemma {:induction false} FarDown(y: nat, r: nat)
    requires 1 <= y <= r - 2
    ensures y + r * r - y * y >= 5 * r - 6
  {
    var d := r - 2 - y;
    assert r * r - y * y == 4 * r - 4 + d * (r - 2 + y);
    MulLe(1, r - 2 + y, d);
  }

  /** A step down keeps the error term above the least 16-bit number. */
  lemma {:induction false} StepDownFits(x: int, y: int, r: int)
    requires RadiusFits(r) && 0 <= x < y <= r && Term(x, y, r) >= 0
    ensures Term(x, y, r) - 2 * y + 2 + 2 * x + 3 >= -32768
  {
    if r > 16384 {
      var t := Term(x, y, r);
      assert (x + 1) * (x + 1) == t + y + r * r - y * y;
      if y == r {
        ColumnBound(x, if r <= 16556 then 128 else 129);
      } else if y == r - 1 {
        assert r * r - y * y == 2 * r - 1;
        ColumnBound(x, if r <= 16556 then 221 else 223);
      } else {
        FarDown(y, r);
        ColumnBound(x, 286);
      }
    }
  }

  lemma Large(x: nat)
    requires x >= 16384
    ensures x * x >= 16384 * 16384
  {
    MulLe(16384, x, x);
    MulLe(16384, x, 16384);
  }

  /** Up to the diagonal the error term is below the largest 16-bit number. */
  lemma {:induction false} TermBelow(x: int, y: int, r: int)
    requires RadiusFits(r) && 0 <= x < y <= r && Off(x, y, r) < y
    ensures Term(x, y, r) <= INT16_MAX
  {
    assert r * r <= 16643 * 16643 by {
      MulLe(r, 16643, r);
      MulLe(r, 16643, 16643);
    }
    assert x * x <= y * y by {
      MulLe(x, y, y);
      MulLe(x, y, x);
    }
    if x >= 16384 { Large(x); }
  }

  /** The pixel is as near as can be, and up to the diagonal the error term fits. */
  ghost predicate OnTrack(s: Pen, r: int) {
    && Tracking(s, r) && s.y <= r && OnCircle(s.x, s.y, r)
    && (s.x < s.y ==> Off(s.x, s.y, r) < s.y && IsInt16(Term(s.x, s.y, r)))
  }

  lemma {:induction false} StaysOnTrack(s: Pen, r: int)
    requires RadiusFits(r) && OnTrack(s, r) && s.x < s.y
    ensures OnTrack(Turn(s), r)
  {
    hide Int16, Off, Term, RadiusFits;
    StaysTracking(s, r);
    NextOnCircle(s, r);
    TermNext(s.x, s.y, r);
    var t := Turn(s);
    if Term(s.x, s.y, r) >= 0 { StepDownFits(s.x, s.y, r); }
    if t.x < t.y { TermBelow(t.x, t.y, r); }
  }

  lemma {:induction false} OnTrackAt(ys: seq<int>, r: int, k: nat)
    requires RadiusFits(r) && RowsOf(ys, r) && k <= |ys|
    ensures OnTrack(PenAfter(r, k), r)
    decreases k
  {
    hide OnTrack, Turn, RadiusFits;
    if k == 0 {
      StartOnTrack(r);
    } else {
      OnTrackAt(ys, r, k - 1);
      ColumnOf(r, k - 1);
      StaysOnTrack(PenAfter(r, k - 1), r);
    }
  }

  lemma StartOnTrack(r: int)
    requires RadiusFits(r)
    ensures OnTrack(StartPen(r), r)
  {
  }

  /** Rows go down by at most one a column and the arc ends at the diagonal, for every radius. */
  lemma {:induction false} RowsGoDown(ys: seq<int>, r: int)
    requires 1 <= r && RowsOf(ys, r)
    ensures ys != [] && ys[|ys| - 1] <= |ys|
    ensures forall i :: 0 <= i < |ys| ==>
      Above(ys, i, r) - 1 <= ys[i] <= Above(ys, i, r) && (i < |ys| - 1 ==> i + 1 < ys[i])
  {
    hide Int16;
    forall i | 0 <= i < |ys|
      ensures Above(ys, i, r) - 1 <= ys[i] <= Above(ys, i, r) && (i < |ys| - 1 ==> i + 1 < ys[i])
    {
      assert Above(ys, i, r) == PenAfter(r, i).y;
      assert PenAfter(r, i + 1) == Turn(PenAfter(r, i));
      if i < |ys| - 1 { assert i + 1 < PenAfter(r, i + 1).y; }
    }
  }

  /** A radius that fits gives an arc of the circle. */
  lemma {:induction false} FitsGivesArc(ys: seq<int>, r: int)
    requires RadiusFits(r) && RowsOf(ys, r)
    ensures Arc(ys, r)
  {
    hide PenAfter, OnCircle, RowsOf;
    RowsGoDown(ys, r);
    forall i | 0 <= i < |ys|
      ensures Column(ys, i, r)
    {
      RowIs(ys, r, i);
      OnTrackAt(ys, r, i + 1);
      ColumnOf(r, i + 1);
    }
  }

  lemma RowIs(ys: seq<int>, r: int, i: nat)
    requires RowsOf(ys, r) && i < |ys|
    ensures ys[i] == PenAfter(r, i + 1).y
  {
  }

  // ---------------------------------------------------------------- where the sign is lost

  lemma {:induction false} CeilRoot(r: nat) returns (m: nat)
    requires r >= 1
    ensures 1 <= m && (m - 1) * (m - 1) < r <= m * m
    decreases r
  {
    if r == 1 {
      m := 1;
    } else {
      m := CeilRoot(r - 1);
      if r > m * m {
        m := m + 1;
        assert m * m >= (m - 1) * (m - 1) + 1;
      }
    }
  }

  /** Until the column m the arc is flat. */
  lemma {:induction false} Flat(r: int, m: nat, k: nat)
    requires 1 <= r <= INT16_MAX && 1 <= m && (m - 1) * (m - 1) < r && k < m
    ensures PenAfter(r, k).y == r && PenAfter(r, k).f == (k + 1) * (k + 1) - r
    decreases k
  {
    hide Int16;
    Tracks(r, k);
    ColumnOf(r, k);
    SquareSmall(r, m, k);
    if k > 0 {
      Flat(r, m, k - 1);
      assert PenAfter(r, k) == Turn(PenAfter(r, k - 1));
    }
    assert Term(k, r, r) == (k + 1) * (k + 1) - r;
  }

  lemma {:induction false} SquareSmall(r: int, m: nat, k: nat)
    requires 1 <= r <= INT16_MAX && 1 <= m && (m - 1) * (m - 1) < r && k < m
    ensures k * k < r && m <= 182 && IsInt16((k + 1) * (k + 1) - r)
  {
    MulLe(k, m - 1, k);
    MulLe(k, m - 1, m - 1);
    if m > 182 { MulLe(182, m - 1, 182); MulLe(182, m - 1, m - 1); }
    assert (k + 1) * (k + 1) == k * k + 2 * k + 1;
  }

  lemma Small(m: nat)
    requires m <= 128
    ensures m * m <= 128 * 128
  {
    MulLe(m, 128, m);
    MulLe(m, 128, 128);
  }

  /** For the other radii the first step down takes the exact error term below the least 16-bit number. */
  lemma {:induction false} FirstStepDown(r: int, m: nat)
    requires 1 <= r <= INT16_MAX && !RadiusFits(r) && 1 <= m && (m - 1) * (m - 1) < r <= m * m
    ensures 129 <= m && m * m + 2 * m + 32771 < 3 * r
  {
    if m <= 128 { Small(m); }
    if m == 129 {
    } else if m == 130 {
    } else {
      var d := m - 131;
      assert (m - 1) * (m - 1) == d * d + 260 * d + 16900 && m * m == d * d + 262 * d + 17161;
    }
  }

  /** Then the sign is lost, and the row after the next goes down once more, away from the circle. */
  lemma {:induction false} LosesCircle(r: int, m: nat)
    requires 1 <= r <= INT16_MAX && 1 <= m && (m - 1) * (m - 1) < r <= m * m && m * m + 2 * m + 32771 < 3 * r
    ensures PenAfter(r, m).y == r - 1 && PenAfter(r, m + 1).y == r - 2 && m < r - 1 && !OnCircle(m + 1, r - 2, r)
  {
    hide Int16, Term, OnCircle, PenAfter, Turn;
    Flat(r, m, m - 1);
    TurnsDown(r, m - 1);
    Tracks(r, m);
    ColumnOf(r, m);
    SquareSmall(r, m, m - 1);
    TermNext(m - 1, r, r);
    assert Term(m - 1, r, r) == m * m - r by { TopTerm(m, r); }
    Wrapped(Term(m, r - 1, r));
    TurnsDown(r, m);
    Away(r, m);
  }

  lemma TurnsDown(r: int, k: nat)
    requires PenAfter(r, k).f >= 0
    ensures PenAfter(r, k + 1).y == PenAfter(r, k).y - 1
  {
    hide Int16;
  }

  lemma Away(r: int, m: nat)
    requires m * m + 2 * m + 32771 < 3 * r && r <= INT16_MAX
    ensures !OnCircle(m + 1, r - 2, r)
  {
    assert (m + 1) * (m + 1) == m * m + 2 * m + 1 && (r - 2) * (r - 2) == r * r - 4 * r + 4;
  }

  lemma TopTerm(m: nat, r: int)
    requires m >= 1
    ensures Term(m - 1, r, r) == m * m - r
  {
    assert (m - 1) * (m - 1) == m * m - 2 * m + 1;
  }

  lemma Wrapped(t: int)
    requires -65536 <= t < -32768
    ensures Int16(t) >= 0
  {
  }

  /** The loop draws an arc of the circle if and only if the radius is one of those that fit. */
  lemma {:induction false} CircleExactly(ys: seq<int>, r: int)
    requires 1 <= r <= INT16_MAX && RowsOf(ys, r)
    ensures Arc(ys, r) <==> RadiusFits(r)
  {
    hide PenAfter, RadiusFits;
    if RadiusFits(r) {
      FitsGivesArc(ys, r);
    } else {
      var m := CeilRoot(r);
      FirstStepDown(r, m);
      LosesCircle(r, m);
      forall k | 0 <= k < m
        ensures k < PenAfter(r, k).y
      {
        Flat(r, m, k);
        SquareSmall(r, m, k);
      }
      assert |ys| > m;
      assert ys[m] == r - 2;
      assert !Column(ys, m, r);
    }
  }

  /** The first radius that does not give a circle. */
  lemma {:induction false} NoCircle(ys: seq<int>)
    requires RowsOf(ys, 16557)
    ensures |ys| > 129 && ys[129] == 16555 && Off(130, 16555, 16557) < -16555 && !Arc(ys, 16557)
  {
    hide PenAfter, Arc;
    FirstStepDown(16557, 129);
    LosesCircle(16557, 129);
    forall k | 0 <= k < 129
      ensures k < PenAfter(16557, k).y
    {
      Flat(16557, 129, k);
    }
    CircleExactly(ys, 16557);
  }

  /** Several pixels in order. */
  method PlotAll(d: Display, points: seq<Point>, color: nat, ghost start: seq<Point>, ghost done: seq<Point>,
                 ghost before: seq<nat>)
    requires d.Valid() && |before| == d.width * d.height && d.Shows(start, done, before, color)
    modifies d`issued, d.fb
    ensures d.Shows(start, done + points, before, color)
  {
    hide Drawn;
    assert done + points[..0] == done;
    for i := 0 to |points|
      invariant d.Shows(start, done + points[..i], before, color)
    {
      d.Plot(points[i], color, start, done + points[..i], before);
      assert done + points[..i] + [points[i]] == done + points[..i + 1];
    }
    assert points[..|points|] == points;
  }
}
