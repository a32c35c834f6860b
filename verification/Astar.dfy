/** The board router's A* search over two copper layers, in exact arithmetic. */
module Astar {
  import opened Words
  import opened Wrappers

  const G: real := 0.1            // grid, mm
  const DIAGONAL: real := G * 1.4142
  const VIA_COST: real := 2.0     // mm of track a via is worth
  const FAR: real := 1000000000.0 // what an unseen cell counts as

  datatype Layer = FCu | BCu

  datatype Cell = Cell(l: Layer, i: int, j: int)

  /** Grid size, blocked cells for tracks and for vias, and the cells to connect. */
  datatype Problem = Problem(nx: nat, ny: nat, track: set<Cell>, via: set<Cell>, start: set<Cell>, goal: set<Cell>) {
    predicate InGrid(c: Cell) {
      0 <= c.i < nx && 0 <= c.j < ny
    }
  }

  /** What it costs to go from a to an adjacent cell: along an axis, diagonally, or through a via. */
  function MoveCost(a: Cell, b: Cell): Option<real> {
    var dx, dy := Abs(a.i - b.i), Abs(a.j - b.j);
    if a.l != b.l then if dx == 0 && dy == 0 then Some(VIA_COST) else None
    else if dx + dy == 1 then Some(G)
    else if dx == 1 && dy == 1 then Some(DIAGONAL)
    else None
  }

  /** A track goes to a free cell or a goal; a via needs room on both layers. */
  predicate Legal(p: Problem, a: Cell, b: Cell) {
    MoveCost(a, b).Some? &&
    if a.l == b.l then p.InGrid(b) && (b !in p.track || b in p.goal)
    else Cell(FCu, a.i, a.j) !in p.via && Cell(BCu, a.i, a.j) !in p.via
  }

  function Cost(r: seq<Cell>): real {
    if |r| < 2 then 0.0
    else Cost(r[..|r| - 1]) + (match MoveCost(r[|r| - 2], r[|r| - 1]) case Some(c) => c case None => 0.0)
  }

  /** A chain of legal moves from a start cell to c. */
  predicate IsRoute(p: Problem, r: seq<Cell>, c: Cell) {
    && |r| > 0 && r[0] in p.start && r[|r| - 1] == c
    && forall k :: 0 <= k < |r| - 1 ==> Legal(p, r[k], r[k + 1])
  }

  lemma {:induction false} Extend(p: Problem, r: seq<Cell>, a: Cell, b: Cell)
    requires IsRoute(p, r, a) && Legal(p, a, b)
    ensures IsRoute(p, r + [b], b) && Cost(r + [b]) == Cost(r) + MoveCost(a, b).value
  {
    var s := r + [b];
    assert s[..|s| - 1] == r;
    forall k | 0 <= k < |s| - 1
      ensures Legal(p, s[k], s[k + 1])
    {
      if k < |r| - 1 { assert Legal(p, r[k], r[k + 1]); }
    }
  }

  lemma {:induction false} Prefix(p: Problem, r: seq<Cell>, c: Cell)
    requires IsRoute(p, r, c) && |r| > 1
    ensures IsRoute(p, r[..|r| - 1], r[|r| - 2]) && Legal(p, r[|r| - 2], c)
    ensures Cost(r) == Cost(r[..|r| - 1]) + MoveCost(r[|r| - 2], c).value
  {
    var q := r[..|r| - 1];
    assert Legal(p, r[|r| - 2], r[|r| - 2 + 1]);
    forall k | 0 <= k < |q| - 1
      ensures Legal(p, q[k], q[k + 1])
    {
      assert Legal(p, r[k], r[k + 1]);
    }
  }

  /** The estimate never drops by more than a move costs. */
  ghost predicate Consistent(p: Problem, h: Cell -> real) {
    forall a: Cell, b: Cell :: Legal(p, a, b) ==> h(a) <= MoveCost(a, b).value + h(b)
  }

  datatype Entry = Entry(f: real, d: real, c: Cell)

  // ---------------------------------------------------------------- what the search keeps

  /** Every cell reached has a route of its cost, which its predecessor's route leads up to. */
  ghost predicate Tree(p: Problem, dist: map<Cell, real>, prev: map<Cell, Cell>, closed: set<Cell>,
                       best: map<Cell, seq<Cell>>) {
    && dist.Keys == best.Keys && prev.Keys <= dist.Keys && closed <= dist.Keys
    && (forall c :: c in p.start ==> c in dist && dist[c] == 0.0)
    && (forall c :: c in dist ==> Reached(p, dist, prev, closed, best, c))
  }

  ghost predicate Reached(p: Problem, dist: map<Cell, real>, prev: map<Cell, Cell>, closed: set<Cell>,
                          best: map<Cell, seq<Cell>>, c: Cell)
    requires c in dist && c in best && closed <= best.Keys
  {
    && p.InGrid(c) && 0.0 <= dist[c] < FAR && IsRoute(p, best[c], c) && Cost(best[c]) == dist[c]
    && (c in prev ==> prev[c] in closed && best[c] == best[prev[c]] + [c])
    && (c !in prev ==> best[c] == [c])
  }

  predicate NoDuplicates(pq: seq<Entry>) {
    forall i, j :: 0 <= i < j < |pq| ==> pq[i] != pq[j]
  }

  /** The queue holds every cell reached and not yet expanded, at its distance; what else it holds is stale. Nothing
      in it comes before an expanded cell. */
  ghost predicate Queue(h: Cell -> real, dist: map<Cell, real>, pq: seq<Entry>, closed: set<Cell>) {
    NoDuplicates(pq) && HasOpen(h, dist, pq, closed) && Entries(h, dist, pq, closed) && InOrder(h, dist, pq, closed)
  }

  ghost predicate HasOpen(h: Cell -> real, dist: map<Cell, real>, pq: seq<Entry>, closed: set<Cell>) {
    forall c :: c in dist && c !in closed ==> Entry(dist[c] + h(c), dist[c], c) in pq
  }

  ghost predicate Entries(h: Cell -> real, dist: map<Cell, real>, pq: seq<Entry>, closed: set<Cell>) {
    forall e :: e in pq ==>
      e.c in dist && e.d >= dist[e.c] && e.f == e.d + h(e.c) && (e.c in closed ==> e.d > dist[e.c])
  }

  ghost predicate InOrder(h: Cell -> real, dist: map<Cell, real>, pq: seq<Entry>, closed: set<Cell>) {
    forall c, e :: c in closed && c in dist && e in pq ==> dist[c] + h(c) <= e.f
  }

  /** Moves from expanded cells have been taken into account. */
  ghost predicate Expanded(p: Problem, dist: map<Cell, real>, closed: set<Cell>) {
    forall c, n :: c in closed && c in dist && Legal(p, c, n) && dist[c] + MoveCost(c, n).value < FAR
      ==> n in dist && dist[n] <= dist[c] + MoveCost(c, n).value
  }

  lemma MovePositive(p: Problem, a: Cell, b: Cell)
    requires Legal(p, a, b)
    ensures MoveCost(a, b).value > 0.0
  {
  }

  lemma {:induction false} CostPositive(p: Problem, r: seq<Cell>, c: Cell)
    requires IsRoute(p, r, c)
    ensures Cost(r) >= 0.0
    decreases |r|
  {
    if |r| > 1 {
      Prefix(p, r, c);
      MovePositive(p, r[|r| - 2], c);
      CostPositive(p, r[..|r| - 1], r[|r| - 2]);
    }
  }

  /** A route either has been followed at no more than its cost, or a cell in the queue is no worse than it. */
  lemma {:induction false} Followed(p: Problem, h: Cell -> real, dist: map<Cell, real>, pq: seq<Entry>,
                                    closed: set<Cell>, r: seq<Cell>, c: Cell)
    requires Consistent(p, h) && Queue(h, dist, pq, closed) && Expanded(p, dist, closed) && closed <= dist.Keys
    requires forall s :: s in p.start ==> s in dist && dist[s] == 0.0
    requires IsRoute(p, r, c) && Cost(r) < FAR
    ensures (c in dist && dist[c] <= Cost(r)) || exists e :: e in pq && e.f <= Cost(r) + h(c)
    decreases |r|
  {
    hide Legal, MoveCost;
    if |r| > 1 {
      var q, a := r[..|r| - 1], r[|r| - 2];
      Prefix(p, r, c);
      MovePositive(p, a, c);
      Followed(p, h, dist, pq, closed, q, a);
      if a in dist && dist[a] <= Cost(q) {
        if a !in closed { assert Entry(dist[a] + h(a), dist[a], a) in pq; }
      } else {
        var e :| e in pq && e.f <= Cost(q) + h(a);
        assert e.f <= Cost(r) + h(c);
      }
    }
  }

  /** A route that ends outside the expanded cells has a cell in the queue that is no worse than it. */
  lemma {:induction false} Frontier(p: Problem, h: Cell -> real, dist: map<Cell, real>, pq: seq<Entry>,
                                    closed: set<Cell>, r: seq<Cell>, c: Cell)
    requires Consistent(p, h) && Queue(h, dist, pq, closed) && Expanded(p, dist, closed) && closed <= dist.Keys
    requires forall s :: s in p.start ==> s in dist && dist[s] == 0.0
    requires IsRoute(p, r, c) && Cost(r) < FAR && c !in closed
    ensures exists e :: e in pq && e.f <= Cost(r) + h(c)
  {
    hide Legal, MoveCost, IsRoute, Cost;
    Followed(p, h, dist, pq, closed, r, c);
    if c in dist && dist[c] <= Cost(r) {
      assert Entry(dist[c] + h(c), dist[c], c) in pq;
    }
  }

  // ---------------------------------------------------------------- the search

  /** Tuple order of the queue's entries. */
  predicate Before(a: Entry, b: Entry) {
    a.f < b.f || (a.f == b.f && (a.d < b.d || (a.d == b.d && CellBefore(a.c, b.c))))
  }

  predicate CellBefore(a: Cell, b: Cell) {
    (a.l == FCu && b.l == BCu) || (a.l == b.l && (a.i < b.i || (a.i == b.i && a.j <= b.j)))
  }

  /** heappop: the first entry in tuple order, and the others. */
  method Pop(pq: seq<Entry>) returns (e: Entry, rest: seq<Entry>)
    requires pq != []
    ensures e in pq && |rest| == |pq| - 1 && (forall x :: x in pq <==> x in rest || x == e)
    ensures NoDuplicates(pq) ==> NoDuplicates(rest) && e !in rest
    ensures forall x :: x in pq ==> Before(e, x)
  {
    var k := 0;
    for n := 1 to |pq|
      invariant 0 <= k < n <= |pq| && forall m :: 0 <= m < n ==> Before(pq[k], pq[m])
    {
      if Before(pq[n], pq[k]) { k := n; }
    }
    e, rest := pq[k], pq[..k] + pq[k + 1..];
    assert pq == pq[..k] + [e] + pq[k + 1..];
  }

  /** The eight moves within a layer. */
  const STEPS: seq<(int, int, real)> :=
    [(1, 0, G), (-1, 0, G), (0, 1, G), (0, -1, G), (1, 1, DIAGONAL), (1, -1, DIAGONAL), (-1, 1, DIAGONAL),
     (-1, -1, DIAGONAL)]

  function StepTo(c: Cell, k: nat): Cell
    requires k < 8
  {
    Cell(c.l, c.i + STEPS[k].0, c.j + STEPS[k].1)
  }

  lemma StepsAre(c: Cell, k: nat)
    requires k < 8
    ensures MoveCost(c, StepTo(c, k)) == Some(STEPS[k].2)
  {
  }

  lemma AnyStep(a: Cell, b: Cell) returns (k: nat)
    requires a.l == b.l && MoveCost(a, b).Some?
    ensures k < 8 && b == StepTo(a, k)
  {
    var dx, dy := b.i - a.i, b.j - a.j;
    k := if dy == 0 then (if dx == 1 then 0 else 1) else if dx == 0 then (if dy == 1 then 2 else 3)
         else if dx == 1 then (if dy == 1 then 4 else 5) else if dy == 1 then 6 else 7;
  }

  /** The legal moves: to one of the eight cells around on the same layer, inside the grid, which must be free unless it
      is a goal; or to the other layer at the same place, if both layers have room for a via there. */
  lemma {:induction false} MovesAre(p: Problem, a: Cell, b: Cell)
    ensures Legal(p, a, b) <==>
      if a.l == b.l then
        a != b && -1 <= a.i - b.i <= 1 && -1 <= a.j - b.j <= 1
        && 0 <= b.i < p.nx && 0 <= b.j < p.ny && (b in p.track ==> b in p.goal)
      else a.i == b.i && a.j == b.j && forall l :: Cell(l, a.i, a.j) !in p.via
    ensures Legal(p, a, b) ==>
      MoveCost(a, b).value == if a.l != b.l then 2.0 else if a.i == b.i || a.j == b.j then 0.1 else 0.14142
  {
    assert forall l {:trigger Cell(l, a.i, a.j)} :: l == FCu || l == BCu;
  }

  ghost predicate Listed(nbrs: seq<(Cell, real)>, n: Cell) {
    exists k :: 0 <= k < |nbrs| && nbrs[k].0 == n
  }

  lemma ListedOn(nbrs: seq<(Cell, real)>, x: (Cell, real))
    ensures forall n :: Listed(nbrs, n) ==> Listed(nbrs + [x], n)
    ensures Listed(nbrs + [x], x.0)
  {
    assert (nbrs + [x])[|nbrs|] == x;
    forall n | Listed(nbrs, n)
      ensures Listed(nbrs + [x], n)
    {
      var k :| 0 <= k < |nbrs| && nbrs[k].0 == n;
      assert (nbrs + [x])[k].0 == n;
    }
  }

  /** The cells that can be entered from c, with what that costs. */
  method Neighbours(p: Problem, c: Cell) returns (nbrs: seq<(Cell, real)>)
    ensures forall k :: 0 <= k < |nbrs| ==> Legal(p, c, nbrs[k].0) && MoveCost(c, nbrs[k].0) == Some(nbrs[k].1)
    ensures forall n :: Legal(p, c, n) ==> Listed(nbrs, n)
  {
    hide Listed;
    nbrs := [];
    for s := 0 to 8
      invariant forall k :: 0 <= k < |nbrs| ==> Legal(p, c, nbrs[k].0) && MoveCost(c, nbrs[k].0) == Some(nbrs[k].1)
      invariant forall m :: 0 <= m < s && Legal(p, c, StepTo(c, m)) ==> Listed(nbrs, StepTo(c, m))
    {
      var n := Cell(c.l, c.i + STEPS[s].0, c.j + STEPS[s].1);
      StepsAre(c, s);
      if 0 <= n.i < p.nx && 0 <= n.j < p.ny && (n !in p.track || n in p.goal) {
        ListedOn(nbrs, (n, STEPS[s].2));
        nbrs := nbrs + [(n, STEPS[s].2)];
      }
    }
    var other := if c.l == FCu then BCu else FCu;
    if Cell(FCu, c.i, c.j) !in p.via && Cell(BCu, c.i, c.j) !in p.via {
      ListedOn(nbrs, (Cell(other, c.i, c.j), VIA_COST));
      nbrs := nbrs + [(Cell(other, c.i, c.j), VIA_COST)];
    }
    forall n | Legal(p, c, n)
      ensures Listed(nbrs, n)
    {
      if n.l == c.l {
        var k := AnyStep(c, n);
      }
    }
  }

  /** A cell that is improved has not been expanded. */
  lemma {:induction false} ImprovedIsOpen(p: Problem, h: Cell -> real, dist: map<Cell, real>, closed: set<Cell>,
                                          c: Cell, n: Cell, f: real)
    requires Consistent(p, h) && Legal(p, c, n) && c in dist && f == dist[c] + h(c)
    requires forall x :: x in closed && x in dist ==> dist[x] + h(x) <= f
    requires n in dist ==> dist[c] + MoveCost(c, n).value < dist[n]
    requires closed <= dist.Keys
    ensures n !in closed
  {
    hide Legal, MoveCost;
  }

  /** What a better way to n, from c, does to the tree. */
  lemma {:induction false} TreeGrows(p: Problem, dist: map<Cell, real>, prev: map<Cell, Cell>, closed: set<Cell>,
                                     best: map<Cell, seq<Cell>>, c: Cell, n: Cell)
    requires Tree(p, dist, prev, closed, best) && c in closed && n !in closed && Legal(p, c, n)
    requires dist[c] + MoveCost(c, n).value < (if n in dist then dist[n] else FAR)
    ensures Tree(p, dist[n := dist[c] + MoveCost(c, n).value], prev[n := c], closed, best[n := best[c] + [n]])
  {
    hide MoveCost, IsRoute, Cost;
    assert Reached(p, dist, prev, closed, best, c);
    MovePositive(p, c, n);
    Extend(p, best[c], c, n);
    EnteredInGrid(p, c, n);
    if n in dist { assert Reached(p, dist, prev, closed, best, n); }
    var dist', prev', best' := dist[n := dist[c] + MoveCost(c, n).value], prev[n := c], best[n := best[c] + [n]];
    forall x | x in dist'
      ensures Reached(p, dist', prev', closed, best', x)
    {
      if x != n { assert Reached(p, dist, prev, closed, best, x); }
    }
  }

  lemma EnteredInGrid(p: Problem, c: Cell, n: Cell)
    requires Legal(p, c, n) && p.InGrid(c)
    ensures p.InGrid(n)
  {
  }

  lemma {:induction false} QueueGrows(h: Cell -> real, dist: map<Cell, real>, pq: seq<Entry>, closed: set<Cell>,
                                      n: Cell, nd: real, f: real)
    requires Queue(h, dist, pq, closed) && n !in closed && (n in dist ==> nd < dist[n])
    requires nd + h(n) >= f && forall x :: x in closed && x in dist ==> dist[x] + h(x) <= f
    ensures Queue(h, dist[n := nd], pq + [Entry(nd + h(n), nd, n)], closed)
  {
    hide NoDuplicates, HasOpen, Entries, InOrder;
    NotQueued(h, dist, pq, closed, n, nd);
    OneMore(pq, Entry(nd + h(n), nd, n));
    OpenGrows(h, dist, pq, closed, n, nd);
    EntriesGrow(h, dist, pq, closed, n, nd);
    OrderGrows(h, dist, pq, closed, n, nd, f);
  }

  lemma {:induction false} NotQueued(h: Cell -> real, dist: map<Cell, real>, pq: seq<Entry>, closed: set<Cell>,
                                     n: Cell, nd: real)
    requires Entries(h, dist, pq, closed) && (n in dist ==> nd < dist[n])
    ensures Entry(nd + h(n), nd, n) !in pq
  {
  }

  lemma {:induction false} OpenGrows(h: Cell -> real, dist: map<Cell, real>, pq: seq<Entry>, closed: set<Cell>,
                                     n: Cell, nd: real)
    requires HasOpen(h, dist, pq, closed)
    ensures HasOpen(h, dist[n := nd], pq + [Entry(nd + h(n), nd, n)], closed)
  {
    var x := Entry(nd + h(n), nd, n);
    forall c | c in dist[n := nd] && c !in closed
      ensures Entry(dist[n := nd][c] + h(c), dist[n := nd][c], c) in pq + [x]
    {
      if c == n {
        assert (pq + [x])[|pq|] == x;
      } else {
        InLonger(pq, Entry(dist[c] + h(c), dist[c], c), x);
      }
    }
  }

  lemma {:induction false} EntriesGrow(h: Cell -> real, dist: map<Cell, real>, pq: seq<Entry>, closed: set<Cell>,
                                       n: Cell, nd: real)
    requires Entries(h, dist, pq, closed) && n !in closed && (n in dist ==> nd < dist[n])
    ensures Entries(h, dist[n := nd], pq + [Entry(nd + h(n), nd, n)], closed)
  {
    forall e | e in pq + [Entry(nd + h(n), nd, n)]
      ensures e in pq || e == Entry(nd + h(n), nd, n)
    {
      LongerHas(pq, e, Entry(nd + h(n), nd, n));
    }
  }

  lemma {:induction false} OrderGrows(h: Cell -> real, dist: map<Cell, real>, pq: seq<Entry>, closed: set<Cell>,
                                      n: Cell, nd: real, f: real)
    requires InOrder(h, dist, pq, closed) && n !in closed
    requires nd + h(n) >= f && forall x :: x in closed && x in dist ==> dist[x] + h(x) <= f
    ensures InOrder(h, dist[n := nd], pq + [Entry(nd + h(n), nd, n)], closed)
  {
    forall e | e in pq + [Entry(nd + h(n), nd, n)]
      ensures e in pq || e == Entry(nd + h(n), nd, n)
    {
      LongerHas(pq, e, Entry(nd + h(n), nd, n));
    }
  }

  lemma OneMore(pq: seq<Entry>, x: Entry)
    requires NoDuplicates(pq) && x !in pq
    ensures NoDuplicates(pq + [x])
  {
  }

  lemma InLonger(pq: seq<Entry>, e: Entry, x: Entry)
    requires e in pq
    ensures e in pq + [x]
  {
  }

  lemma LongerHas(pq: seq<Entry>, e: Entry, x: Entry)
    requires e in pq + [x]
    ensures e in pq || e == x
  {
  }

  lemma {:induction false} ExpandedStays(p: Problem, dist: map<Cell, real>, closed: set<Cell>, n: Cell, nd: real)
    requires Expanded(p, dist, closed) && n !in closed && (n in dist ==> nd < dist[n])
    ensures Expanded(p, dist[n := nd], closed)
  {
    hide Legal, MoveCost;
  }

  /** The first m moves from a cell at distance d have been taken into account. */
  ghost predicate Tried(dist: map<Cell, real>, d: real, nbrs: seq<(Cell, real)>, m: nat)
    requires m <= |nbrs|
  {
    forall k :: 0 <= k < m && d + nbrs[k].1 < FAR ==> nbrs[k].0 in dist && dist[nbrs[k].0] <= d + nbrs[k].1
  }

  /** What holds while c, just taken from the queue, is expanded. */
  ghost predicate Expanding(p: Problem, h: Cell -> real, c: Cell, d: real, dist: map<Cell, real>, prev: map<Cell, Cell>,
                            pq: seq<Entry>, closed: set<Cell>, best: map<Cell, seq<Cell>>) {
    && Tree(p, dist, prev, closed + {c}, best) && Queue(h, dist, pq, closed + {c}) && Expanded(p, dist, closed)
    && c !in closed && c in dist && dist[c] == d
    && (forall e :: e in pq ==> e.f >= d + h(c))
    && (forall x :: x in closed && x in dist ==> dist[x] + h(x) <= d + h(c))
  }

  /** The loop over the neighbours. */
  method Relax(p: Problem, h: Cell -> real, c: Cell, d: real, dist0: map<Cell, real>, prev0: map<Cell, Cell>,
               pq0: seq<Entry>, ghost closed: set<Cell>, ghost best0: map<Cell, seq<Cell>>)
      returns (dist: map<Cell, real>, prev: map<Cell, Cell>, pq: seq<Entry>, ghost best: map<Cell, seq<Cell>>)
    requires Consistent(p, h) && Expanding(p, h, c, d, dist0, prev0, pq0, closed, best0)
    ensures Expanding(p, h, c, d, dist, prev, pq, closed, best) && Expanded(p, dist, closed + {c})
  {
    hide Legal, MoveCost, Tree, Queue, Expanded, Consistent;
    dist, prev, pq, best := dist0, prev0, pq0, best0;
    var nbrs := Neighbours(p, c);
    for m := 0 to |nbrs|
      invariant Expanding(p, h, c, d, dist, prev, pq, closed, best) && Tried(dist, d, nbrs, m)
    {
      var (n, cost) := nbrs[m];
      var nd := d + cost;
      if nd < (if n in dist then dist[n] else FAR) {
        Improve(p, h, c, d, n, dist, prev, pq, closed, best);
        dist, prev, best := dist[n := nd], prev[n := c], best[n := best[c] + [n]];
        pq := pq + [Entry(nd + h(n), nd, n)];
      }
    }
    AllTried(p, dist, closed, c, nbrs);
  }

  lemma {:induction false} Improve(p: Problem, h: Cell -> real, c: Cell, d: real, n: Cell, dist: map<Cell, real>,
                                   prev: map<Cell, Cell>, pq: seq<Entry>, closed: set<Cell>, best: map<Cell, seq<Cell>>)
    requires Consistent(p, h) && Expanding(p, h, c, d, dist, prev, pq, closed, best) && Legal(p, c, n)
    requires d + MoveCost(c, n).value < (if n in dist then dist[n] else FAR)
    ensures c in best
    ensures var nd := d + MoveCost(c, n).value;
      Expanding(p, h, c, d, dist[n := nd], prev[n := c], pq + [Entry(nd + h(n), nd, n)], closed,
        best[n := best[c] + [n]])
  {
    hide MoveCost, Reached, Queue, Expanded;
    var nd := d + MoveCost(c, n).value;
    assert d + h(c) <= nd + h(n);
    MovePositive(p, c, n);
    ImprovedIsOpen(p, h, dist, closed + {c}, c, n, d + h(c));
    TreeGrows(p, dist, prev, closed + {c}, best, c, n);
    QueueGrows(h, dist, pq, closed + {c}, n, nd, d + h(c));
    ExpandedStays(p, dist, closed, n, nd);
  }

  lemma {:induction false} AllTried(p: Problem, dist: map<Cell, real>, closed: set<Cell>, c: Cell,
                                    nbrs: seq<(Cell, real)>)
    requires Expanded(p, dist, closed) && c in dist && Tried(dist, dist[c], nbrs, |nbrs|)
    requires forall k :: 0 <= k < |nbrs| ==> Legal(p, c, nbrs[k].0) && MoveCost(c, nbrs[k].0) == Some(nbrs[k].1)
    requires forall n :: Legal(p, c, n) ==> Listed(nbrs, n)
    ensures Expanded(p, dist, closed + {c})
  {
    hide Legal, MoveCost;
    forall n | Legal(p, c, n) && dist[c] + MoveCost(c, n).value < FAR
      ensures n in dist && dist[n] <= dist[c] + MoveCost(c, n).value
    {
      assert Listed(nbrs, n);
    }
  }

  /** Where the search ends: no route below FAR, or a route no worse than any other once each end's
      estimate is added. */
  ghost predicate Found(p: Problem, h: Cell -> real, path: Option<seq<Cell>>) {
    match path
    case None => forall r, c :: IsRoute(p, r, c) && c in p.goal ==> Cost(r) >= FAR
    case Some(q) =>
      && |q| > 0 && q[|q| - 1] in p.goal && IsRoute(p, q, q[|q| - 1]) && Cost(q) < FAR
      && forall r, c :: IsRoute(p, r, c) && c in p.goal && Cost(r) < FAR ==> Cost(q) + h(q[|q| - 1]) <= Cost(r) + h(c)
  }

  /** What holds between turns of the search. */
  ghost predicate Searching(p: Problem, h: Cell -> real, dist: map<Cell, real>, prev: map<Cell, Cell>,
                            pq: seq<Entry>, closed: set<Cell>, best: map<Cell, seq<Cell>>) {
    && Tree(p, dist, prev, closed, best) && Queue(h, dist, pq, closed) && Expanded(p, dist, closed)
    && closed !! p.goal && closed <= Cells(p)
  }

  ghost function Cells(p: Problem): set<Cell> {
    set l, i, j | l in {FCu, BCu} && 0 <= i < p.nx && 0 <= j < p.ny :: Cell(l, i, j)
  }

  /** The start cells, at distance 0. */
  method Begin(p: Problem, h: Cell -> real)
      returns (dist: map<Cell, real>, prev: map<Cell, Cell>, pq: seq<Entry>, ghost best: map<Cell, seq<Cell>>)
    requires forall c :: c in p.start ==> p.InGrid(c)
    ensures Searching(p, h, dist, prev, pq, {}, best)
  {
    hide Queue, Tree;
    dist, prev, pq, best := map[], map[], [], map[];
    EmptyQueue(h);
    var todo := p.start;
    while todo != {}
      invariant todo <= p.start && prev == map[] && dist.Keys == best.Keys == p.start - todo
      invariant forall c :: c in dist ==> dist[c] == 0.0 && best[c] == [c]
      invariant Queue(h, dist, pq, {})
    {
      var c :| c in todo;
      QueueGrows(h, dist, pq, {}, c, 0.0, h(c));
      dist, best := dist[c := 0.0], best[c := [c]];
      pq := pq + [Entry(h(c), 0.0, c)];
      todo := todo - {c};
    }
    StartTree(p, dist, best);
  }

  lemma EmptyQueue(h: Cell -> real)
    ensures Queue(h, map[], [], {})
  {
  }

  lemma {:induction false} StartTree(p: Problem, dist: map<Cell, real>, best: map<Cell, seq<Cell>>)
    requires dist.Keys == best.Keys == p.start && forall c :: c in p.start ==> p.InGrid(c)
    requires forall c :: c in dist ==> dist[c] == 0.0 && best[c] == [c]
    ensures Tree(p, dist, map[], {}, best)
  {
  }

  /** A stale entry can go. */
  lemma {:induction false} DropStale(h: Cell -> real, dist: map<Cell, real>, pq: seq<Entry>, rest: seq<Entry>,
                                     closed: set<Cell>, e: Entry)
    requires Queue(h, dist, pq, closed) && e in pq && (forall x :: x in pq <==> x in rest || x == e)
    requires NoDuplicates(rest)
    requires e.d > dist[e.c]
    ensures Queue(h, dist, rest, closed)
  {
  }

  /** Taking the first entry from the queue to expand its cell. */
  lemma {:induction false} StartExpanding(p: Problem, h: Cell -> real, dist: map<Cell, real>, prev: map<Cell, Cell>,
                                          pq: seq<Entry>, rest: seq<Entry>, closed: set<Cell>,
                                          best: map<Cell, seq<Cell>>, e: Entry)
    requires Searching(p, h, dist, prev, pq, closed, best) && e in pq && (forall x :: x in pq <==> x in rest || x == e)
    requires NoDuplicates(rest) && e !in rest && (forall x :: x in pq ==> Before(e, x)) && e.d <= dist[e.c]
    ensures Expanding(p, h, e.c, e.d, dist, prev, rest, closed, best) && e.c in Cells(p)
  {
    hide IsRoute, Cost, Legal, MoveCost, Expanded;
    assert Reached(p, dist, prev, closed, best, e.c);
    forall x | x in dist
      ensures Reached(p, dist, prev, closed + {e.c}, best, x)
    {
      assert Reached(p, dist, prev, closed, best, x);
    }
  }

  function Reverse<T>(s: seq<T>): (r: seq<T>)
    ensures |r| == |s|
  {
    if s == [] then [] else [s[|s| - 1]] + Reverse(s[..|s| - 1])
  }

  lemma ReverseLast(s: seq<Cell>)
    requires s != []
    ensures Reverse(s) == [s[|s| - 1]] + Reverse(s[..|s| - 1])
  {
  }

  /** The cells of `back`, turned round, are the end of c's route. */
  ghost predicate TracedBack(best: map<Cell, seq<Cell>>, c: Cell, back: seq<Cell>) {
    && back != [] && c in best && back[|back| - 1] in best
    && best[c] == best[back[|back| - 1]] + Reverse(back[..|back| - 1])
  }

  lemma {:induction false} TraceBack(p: Problem, dist: map<Cell, real>, prev: map<Cell, Cell>, closed: set<Cell>,
                                     best: map<Cell, seq<Cell>>, c: Cell, back: seq<Cell>)
    requires Tree(p, dist, prev, closed, best) && TracedBack(best, c, back) && back[|back| - 1] in dist
    ensures var x := back[|back| - 1];
      if x in prev then
        prev[x] in dist && TracedBack(best, c, back + [prev[x]]) && |best[prev[x]]| < |best[x]|
      else best[c] == Reverse(back)
  {
    hide IsRoute, Cost, Reverse;
    var x := back[|back| - 1];
    assert Reached(p, dist, prev, closed, best, x);
    ReverseLast(back);
    if x in prev {
      assert (back + [prev[x]])[..|back|] == back;
      assert best[prev[x]] + [x] + Reverse(back[..|back| - 1]) == best[prev[x]] + Reverse(back);
    }
  }

  /** The chain of predecessors, turned round, is the route that the search recorded. */
  method Trace(p: Problem, c: Cell, prev: map<Cell, Cell>, ghost dist: map<Cell, real>, ghost closed: set<Cell>,
               ghost best: map<Cell, seq<Cell>>) returns (path: seq<Cell>)
    requires Tree(p, dist, prev, closed, best) && c in dist
    ensures c in best && path == best[c]
  {
    hide Reached, Reverse;
    var back := [c];
    TraceStart(best, c);
    while back[|back| - 1] in prev
      invariant TracedBack(best, c, back) && back[|back| - 1] in dist
      decreases |best[back[|back| - 1]]|
    {
      TraceBack(p, dist, prev, closed, best, c, back);
      back := back + [prev[back[|back| - 1]]];
    }
    TraceBack(p, dist, prev, closed, best, c, back);
    path := Reverse(back);
  }

  lemma TraceStart(best: map<Cell, seq<Cell>>, c: Cell)
    requires c in best
    ensures TracedBack(best, c, [c])
  {
    assert best[c] == best[c] + Reverse([c][..0]);
  }

  /** The search loop. */
  method Search(p: Problem, h: Cell -> real) returns (path: Option<seq<Cell>>)
    requires Consistent(p, h) && forall c :: c in p.start ==> p.InGrid(c)
    ensures Found(p, h, path) && (SmallGrid(p) ==> FoundAll(p, h, path))
  {
    hide Legal, MoveCost, Expanded, IsRoute, Cost, Consistent, Reached, SmallGrid, FoundAll;
    ghost var closed: set<Cell> := {};
    var dist, prev, pq, best := Begin(p, h);
    while pq != []
      invariant Searching(p, h, dist, prev, pq, closed, best)
      decreases Cells(p) - closed, |pq|
    {
      ghost var before := pq;
      var e, rest := Pop(pq);
      pq := rest;
      if e.d > (if e.c in dist then dist[e.c] else FAR) {
        DropStale(h, dist, before, pq, closed, e);
        continue;
      }
      if e.c in p.goal {
        var q := Trace(p, e.c, prev, dist, closed, best);
        Best(p, h, dist, prev, before, closed, best, e);
        if SmallGrid(p) { NothingMissed(p, h, Some(q)); }
        return Some(q);
      }
      StartExpanding(p, h, dist, prev, before, rest, closed, best, e);
      dist, prev, pq, best := Relax(p, h, e.c, e.d, dist, prev, pq, closed, best);
      closed := closed + {e.c};
    }
    Nothing(p, h, dist, prev, closed, best);
    if SmallGrid(p) { NothingMissed(p, h, None); }
    path := None;
  }

  /** The first goal taken from the queue. */
  lemma {:induction false} Best(p: Problem, h: Cell -> real, dist: map<Cell, real>, prev: map<Cell, Cell>,
                                pq: seq<Entry>, closed: set<Cell>, best: map<Cell, seq<Cell>>, e: Entry)
    requires Consistent(p, h) && Searching(p, h, dist, prev, pq, closed, best)
    requires e in pq && e.d <= dist[e.c] && e.c in p.goal && forall x :: x in pq ==> Before(e, x)
    ensures e.c in best && Found(p, h, Some(best[e.c]))
  {
    hide Legal, MoveCost, Expanded, Consistent;
    assert Reached(p, dist, prev, closed, best, e.c);
    forall r, c | IsRoute(p, r, c) && c in p.goal && Cost(r) < FAR
      ensures dist[e.c] + h(e.c) <= Cost(r) + h(c)
    {
      Frontier(p, h, dist, pq, closed, r, c);
      var x :| x in pq && x.f <= Cost(r) + h(c);
    }
  }

  /** An empty queue. */
  lemma {:induction false} Nothing(p: Problem, h: Cell -> real, dist: map<Cell, real>, prev: map<Cell, Cell>,
                                   closed: set<Cell>, best: map<Cell, seq<Cell>>)
    requires Consistent(p, h) && Searching(p, h, dist, prev, [], closed, best)
    ensures Found(p, h, None)
  {
    hide Legal, MoveCost, Expanded, Consistent;
    forall r, c | IsRoute(p, r, c) && c in p.goal
      ensures Cost(r) >= FAR
    {
      if Cost(r) < FAR { Frontier(p, h, dist, [], closed, r, c); }
    }
  }

  // ---------------------------------------------------------------- routes without repeated cells

  predicate Simple(r: seq<Cell>) {
    forall i, j :: 0 <= i < j < |r| ==> r[i] != r[j]
  }

  /** A route can be left early, at no higher cost. */
  lemma {:induction false} LeftEarly(p: Problem, r: seq<Cell>, c: Cell, k: nat)
    requires IsRoute(p, r, c) && k < |r|
    ensures IsRoute(p, r[..k + 1], r[k]) && Cost(r[..k + 1]) <= Cost(r)
    decreases |r|
  {
    hide Legal, MoveCost, Cost;
    if k == |r| - 1 {
      assert r[..k + 1] == r;
    } else {
      Prefix(p, r, c);
      MovePositive(p, r[|r| - 2], c);
      LeftEarly(p, r[..|r| - 1], r[|r| - 2], k);
      assert r[..|r| - 1][..k + 1] == r[..k + 1];
    }
  }

  /** To every route there is one without a repeated cell that leads to the same cell and costs no more. */
  lemma {:induction false} Shortened(p: Problem, r: seq<Cell>, c: Cell) returns (s: seq<Cell>)
    requires IsRoute(p, r, c)
    ensures IsRoute(p, s, c) && Simple(s) && Cost(s) <= Cost(r)
    decreases |r|
  {
    hide Legal, MoveCost, Cost;
    if |r| == 1 {
      s := r;
    } else {
      var a := r[|r| - 2];
      Prefix(p, r, c);
      MovePositive(p, a, c);
      var t := Shortened(p, r[..|r| - 1], a);
      if k :| 0 <= k < |t| && t[k] == c {
        LeftEarly(p, t, a, k);
        s := t[..k + 1];
      } else {
        Extend(p, t, a, c);
        s := t + [c];
      }
    }
  }

  lemma {:induction false} CostAtMost(p: Problem, r: seq<Cell>, c: Cell)
    requires IsRoute(p, r, c)
    ensures Cost(r) <= 2.0 * (|r| - 1) as real
    decreases |r|
  {
    hide Legal, MoveCost, Cost;
    if |r| > 1 {
      Prefix(p, r, c);
      MoveAtMost(r[|r| - 2], c);
      CostAtMost(p, r[..|r| - 1], r[|r| - 2]);
    } else {
      NoMove(r);
    }
  }

  lemma MoveAtMost(a: Cell, b: Cell)
    requires MoveCost(a, b).Some?
    ensures MoveCost(a, b).value <= 2.0
  {
  }

  lemma NoMove(r: seq<Cell>)
    requires |r| < 2
    ensures Cost(r) == 0.0
  {
  }

  lemma {:induction false} RouteInGrid(p: Problem, r: seq<Cell>, c: Cell)
    requires IsRoute(p, r, c) && forall x :: x in p.start ==> p.InGrid(x)
    ensures forall x :: x in r ==> p.InGrid(x)
    decreases |r|
  {
    hide Legal, MoveCost;
    if |r| > 1 {
      var a := r[|r| - 2];
      Prefix(p, r, c);
      RouteInGrid(p, r[..|r| - 1], a);
      assert a == r[..|r| - 1][|r| - 2];
      EnteredInGrid(p, a, c);
      assert r == r[..|r| - 1] + [c];
    }
  }

  /** The cells of m places of column i on a layer, and of n columns. */
  ghost function ColumnCells(l: Layer, i: int, m: nat): set<Cell> {
    set j | 0 <= j < m :: Cell(l, i, j)
  }

  ghost function LayerCells(l: Layer, n: nat, m: nat): set<Cell> {
    set i, j | 0 <= i < n && 0 <= j < m :: Cell(l, i, j)
  }

  lemma {:induction false} ColumnCount(l: Layer, i: int, m: nat)
    ensures |ColumnCells(l, i, m)| <= m
    decreases m
  {
    if m > 0 {
      ColumnCount(l, i, m - 1);
      assert ColumnCells(l, i, m) == ColumnCells(l, i, m - 1) + {Cell(l, i, m - 1)};
    }
  }

  lemma {:induction false} LayerCount(l: Layer, n: nat, m: nat)
    ensures |LayerCells(l, n, m)| <= n * m
    decreases n
  {
    if n > 0 {
      LayerCount(l, n - 1, m);
      ColumnCount(l, n - 1, m);
      assert LayerCells(l, n, m) == LayerCells(l, n - 1, m) + ColumnCells(l, n - 1, m);
      assert n * m == (n - 1) * m + m;
    }
  }

  lemma {:induction false} CellCount(p: Problem)
    ensures |Cells(p)| <= 2 * (p.nx * p.ny)
  {
    hide LayerCells;
    LayerCount(FCu, p.nx, p.ny);
    LayerCount(BCu, p.nx, p.ny);
    TwoLayers(p);
  }

  lemma TwoLayers(p: Problem)
    ensures Cells(p) == LayerCells(FCu, p.nx, p.ny) + LayerCells(BCu, p.nx, p.ny)
  {
  }

  lemma {:induction false} SimpleCount(r: seq<Cell>, cells: set<Cell>)
    requires Simple(r) && forall x :: x in r ==> x in cells
    ensures |r| <= |cells|
    decreases |r|
  {
    if r != [] {
      var k := |r| - 1;
      var q, x := r[..k], r[k];
      assert forall i :: 0 <= i < k ==> q[i] == r[i] && q[i] in r;
      SimpleCount(q, cells - {x});
    }
  }

  lemma InCells(p: Problem, x: Cell)
    requires p.InGrid(x)
    ensures x in Cells(p)
  {
    assert x.l == FCu || x.l == BCu;
    assert x == Cell(x.l, x.i, x.j);
  }

  /** Four times the number of places of the grid is below what an unseen cell counts as. */
  predicate SmallGrid(p: Problem) {
    4.0 * (p.nx * p.ny) as real <= FAR
  }

  /** On such a grid every cell that can be reached can be reached below FAR. */
  lemma {:induction false} CheapRoute(p: Problem, r: seq<Cell>, c: Cell) returns (s: seq<Cell>)
    requires IsRoute(p, r, c) && SmallGrid(p) && forall x :: x in p.start ==> p.InGrid(x)
    ensures IsRoute(p, s, c) && Cost(s) <= Cost(r) && Cost(s) < FAR
  {
    hide Cost, Simple;
    s := Shortened(p, r, c);
    RouteInGrid(p, s, c);
    forall x | x in s
      ensures x in Cells(p)
    {
      InCells(p, x);
    }
    SimpleCount(s, Cells(p));
    CellCount(p);
    CostAtMost(p, s, c);
  }

  /** What the search finds on such a grid: nothing only if no goal has a route, else a route no worse than any other
      once each end's estimate is added. */
  ghost predicate FoundAll(p: Problem, h: Cell -> real, path: Option<seq<Cell>>) {
    match path
    case None => forall r, c :: c in p.goal ==> !IsRoute(p, r, c)
    case Some(q) =>
      && |q| > 0 && q[|q| - 1] in p.goal && IsRoute(p, q, q[|q| - 1])
      && forall r, c :: IsRoute(p, r, c) && c in p.goal ==> Cost(q) + h(q[|q| - 1]) <= Cost(r) + h(c)
  }

  lemma {:induction false} NothingMissed(p: Problem, h: Cell -> real, path: Option<seq<Cell>>)
    requires Found(p, h, path) && SmallGrid(p) && forall c :: c in p.start ==> p.InGrid(c)
    ensures FoundAll(p, h, path)
  {
    hide IsRoute, Cost, SmallGrid;
    forall r, c | IsRoute(p, r, c) && c in p.goal
      ensures path.Some? && Cost(path.value) + h(path.value[|path.value| - 1]) <= Cost(r) + h(c)
    {
      var s := CheapRoute(p, r, c);
    }
  }

  /** A row so long that its far end costs what an unseen cell counts as. */
  const LONG := 10_000_000_001

  function LongRow(): Problem {
    Problem(LONG, 1, {}, {}, {Cell(FCu, 0, 0)}, {Cell(FCu, LONG - 1, 0)})
  }

  /** On a larger grid the search can find nothing although there is a route. */
  lemma {:induction false} TooFar(h: Cell -> real, path: Option<seq<Cell>>)
    requires Found(LongRow(), h, path)
    ensures path == None && exists r, c :: c in LongRow().goal && IsRoute(LongRow(), r, c)
  {
    hide Cost;
    var c := Cell(FCu, LONG - 1, 0);
    if path.Some? {
      CostAtLeast(LongRow(), path.value, c);
      assert false;
    }
    RouteAlong();
  }

  lemma {:induction false} RouteAlong()
    ensures exists r, c :: c in LongRow().goal && IsRoute(LongRow(), r, c)
  {
    var r := seq(LONG, i => Cell(FCu, i, 0));
    forall k | 0 <= k < |r| - 1
      ensures Legal(LongRow(), r[k], r[k + 1])
    {
      assert r[k] == Cell(FCu, k, 0) && r[k + 1] == Cell(FCu, k + 1, 0);
    }
    var c := Cell(FCu, LONG - 1, 0);
    assert c in LongRow().goal && IsRoute(LongRow(), r, c);
  }

  // ---------------------------------------------------------------- the estimate: 0.9 of the straight line to a point

  function Sq(x: real): real {
    x * x
  }

  /** hyp gives the distance to (gx, gy) in cells. */
  ghost predicate IsHypot(hyp: (int, int) -> real, gx: real, gy: real) {
    forall i, j :: hyp(i, j) >= 0.0 && Sq(hyp(i, j)) == Sq(i as real - gx) + Sq(j as real - gy)
  }

  function Estimate(hyp: (int, int) -> real): Cell -> real {
    (c: Cell) => hyp(c.i, c.j) * G * 0.9
  }

  lemma {:induction false} SquareOrder(a: real, b: real)
    requires b >= 0.0 && Sq(a) <= Sq(b)
    ensures a <= b
  {
    if a > b { SquareGrows(a, b); }
  }

  lemma {:induction false} SquareGrows(a: real, b: real)
    requires a > b >= 0.0
    ensures Sq(a) > Sq(b)
  {
    var d, t := a - b, a + b;
    assert d * t > 0.0;
    assert d * t == a * a - b * b;
  }

  /** x*u + y*v is at most the product of the lengths. */
  lemma {:induction false} Cauchy(x: real, y: real, u: real, v: real, n: real, s: real)
    requires n >= 0.0 && Sq(n) == Sq(x) + Sq(y) && s >= 0.0 && Sq(s) >= Sq(u) + Sq(v)
    ensures x * u + y * v <= n * s
  {
    assert Sq(x * u + y * v) + Sq(x * v - y * u) == Sq(n) * (Sq(u) + Sq(v)) by {
      assert Sq(x * u + y * v) == x * x * (u * u) + 2.0 * (x * u * (y * v)) + y * y * (v * v);
      assert Sq(x * v - y * u) == x * x * (v * v) - 2.0 * (x * v * (y * u)) + y * y * (u * u);
    }
    assert Sq(x * v - y * u) >= 0.0;
    Scale(Sq(n), Sq(u) + Sq(v), Sq(s));
    assert Sq(n) * Sq(s) == Sq(n * s);
    assert n * s >= 0.0;
    SquareOrder(x * u + y * v, n * s);
  }

  lemma Scale(k: real, a: real, b: real)
    requires k >= 0.0 && a <= b
    ensures k * a <= k * b
  {
  }

  /** Moving by (u, v), at most s long, brings the distance down by at most s. */
  lemma {:induction false} Triangle(x: real, y: real, u: real, v: real, n: real, m: real, s: real)
    requires n >= 0.0 && Sq(n) == Sq(x) + Sq(y) && s >= 0.0 && Sq(s) >= Sq(u) + Sq(v)
    requires m >= 0.0 && Sq(m) == Sq(x + u) + Sq(y + v)
    ensures m <= n + s
  {
    Cauchy(x, y, u, v, n, s);
    assert Sq(x + u) == Sq(x) + 2.0 * (x * u) + Sq(u);
    assert Sq(y + v) == Sq(y) + 2.0 * (y * v) + Sq(v);
    assert Sq(n + s) == Sq(n) + 2.0 * (n * s) + Sq(s);
    SquareOrder(m, n + s);
  }

  /** The estimate is consistent with the costs of steps and vias. */
  lemma {:induction false} EstimateConsistent(p: Problem, hyp: (int, int) -> real, gx: real, gy: real)
    requires IsHypot(hyp, gx, gy)
    ensures Consistent(p, Estimate(hyp))
  {
    forall a: Cell, b: Cell | Legal(p, a, b)
      ensures Estimate(hyp)(a) <= MoveCost(a, b).value + Estimate(hyp)(b)
    {
      EstimateMove(p, hyp, gx, gy, a, b);
    }
  }

  lemma {:induction false} EstimateMove(p: Problem, hyp: (int, int) -> real, gx: real, gy: real, a: Cell, b: Cell)
    requires IsHypot(hyp, gx, gy) && MoveCost(a, b).Some?
    ensures Estimate(hyp)(a) <= MoveCost(a, b).value + Estimate(hyp)(b)
  {
    var x, y, u, v := b.i as real - gx, b.j as real - gy, (a.i - b.i) as real, (a.j - b.j) as real;
    var n, m := hyp(b.i, b.j), hyp(a.i, a.j);
    assert n >= 0.0 && Sq(n) == Sq(x) + Sq(y);
    assert x + u == a.i as real - gx && y + v == a.j as real - gy;
    if a.l != b.l {
      Triangle(x, y, u, v, n, m, 0.0);
    } else if Abs(a.i - b.i) + Abs(a.j - b.j) == 1 {
      Triangle(x, y, u, v, n, m, 1.0);
    } else {
      Triangle(x, y, u, v, n, m, 1.5);
    }
  }

  /** astar: gx and gy are the mean of the goal cells in the program; any point will do. */
  method Astar(p: Problem, hyp: (int, int) -> real, gx: real, gy: real) returns (path: Option<seq<Cell>>)
    requires IsHypot(hyp, gx, gy) && forall c :: c in p.start ==> p.InGrid(c)
    ensures Found(p, Estimate(hyp), path) && (SmallGrid(p) ==> FoundAll(p, Estimate(hyp), path))
    ensures path.Some? ==> forall r :: IsRoute(p, r, path.value[|path.value| - 1]) ==> Cost(path.value) <= Cost(r)
  {
    hide IsHypot, Legal, MoveCost, IsRoute, Cost, Estimate, SmallGrid, FoundAll;
    EstimateConsistent(p, hyp, gx, gy);
    path := Search(p, Estimate(hyp));
  }

  // ---------------------------------------------------------------- several goals

  /** The route found is dearer than another, to whatever goal, by no more than the other goal is estimated to be
      farther away. */
  lemma {:induction false} NearlyCheapest(p: Problem, h: Cell -> real, q: seq<Cell>, r: seq<Cell>, c: Cell)
    requires Found(p, h, Some(q)) && IsRoute(p, r, c) && c in p.goal
    ensures Cost(q) - Cost(r) <= h(c) - h(q[|q| - 1]) || Cost(q) < FAR <= Cost(r)
  {
    hide IsRoute, Cost;
  }

  const GRAIN: real := 0.00002  // every cost is a multiple of this

  lemma {:induction false} Grains(r: seq<Cell>) returns (n: nat)
    ensures Cost(r) == n as real * GRAIN
    decreases |r|
  {
    n := 0;
    if |r| >= 2 {
      var m := Grains(r[..|r| - 1]);
      var step := MoveCost(r[|r| - 2], r[|r| - 1]);
      n := m + if step == Some(G) then 5000 else if step == Some(DIAGONAL) then 7071
               else if step == Some(VIA_COST) then 100000 else 0;
    }
  }

  lemma LessByAGrain(m: int, n: int)
    requires m < n
    ensures m as real * GRAIN + GRAIN <= n as real * GRAIN
  {
    assert m as real + 1.0 <= n as real;
  }

  /** When the goals' estimates differ by less than the grain of costs, and so for a single goal, the route found is
      the cheapest to any of them. */
  lemma {:induction false} CheapestOfAll(p: Problem, h: Cell -> real, q: seq<Cell>)
    requires Found(p, h, Some(q)) && forall a, b :: a in p.goal && b in p.goal ==> h(a) - h(b) < GRAIN
    ensures forall r, c :: IsRoute(p, r, c) && c in p.goal ==> Cost(q) <= Cost(r)
  {
    hide IsRoute, Cost;
    var n := Grains(q);
    forall r, c | IsRoute(p, r, c) && c in p.goal
      ensures Cost(q) <= Cost(r)
    {
      NearlyCheapest(p, h, q, r, c);
      var m := Grains(r);
      if m < n { LessByAGrain(m, n); }
    }
  }

  lemma {:induction false} CostAtLeast(p: Problem, r: seq<Cell>, c: Cell)
    requires IsRoute(p, r, c)
    ensures Cost(r) >= G * (c.i - r[0].i) as real
    decreases |r|
  {
    if |r| > 1 {
      Prefix(p, r, c);
      CostAtLeast(p, r[..|r| - 1], r[|r| - 2]);
      AlongRow(p, r[|r| - 2], c);
    }
  }

  lemma AlongRow(p: Problem, a: Cell, b: Cell)
    requires Legal(p, a, b)
    ensures MoveCost(a, b).value >= G * (b.i - a.i) as real
  {
  }

  /** In general it is not: with goals at columns 4, 7, 8 and 9 of one row and the start at 5, the goal at 4 is nearest
      but the search goes to another, because the mean of the goals is at 7. */
  lemma {:induction false} NearestMissed(hyp: (int, int) -> real, q: seq<Cell>)
    requires IsHypot(hyp, 7.0, 0.0)
    requires Found(Row(), Estimate(hyp), Some(q))
    ensures IsRoute(Row(), [Cell(FCu, 5, 0), Cell(FCu, 4, 0)], Cell(FCu, 4, 0)) && Cell(FCu, 4, 0) in Row().goal
    ensures Cost([Cell(FCu, 5, 0), Cell(FCu, 4, 0)]) < Cost(q)
  {
    hide IsHypot, Cost, Estimate;
    RowRoutes();
    RowEstimates(hyp);
    CostPositive(Row(), q, q[|q| - 1]);
    CostAtLeast(Row(), q, q[|q| - 1]);
  }

  lemma {:induction false} RowRoutes()
    ensures var s, g4, g7 := Cell(FCu, 5, 0), Cell(FCu, 4, 0), Cell(FCu, 7, 0);
      && IsRoute(Row(), [s, g4], g4) && Cost([s, g4]) == 0.1
      && IsRoute(Row(), [s, Cell(FCu, 6, 0), g7], g7) && Cost([s, Cell(FCu, 6, 0), g7]) == 0.2
  {
    var s, g4, g7 := Cell(FCu, 5, 0), Cell(FCu, 4, 0), Cell(FCu, 7, 0);
    var near, far := [s, g4], [s, Cell(FCu, 6, 0), g7];
    assert near[..1] == [s] && far[..2] == [s, Cell(FCu, 6, 0)] && far[..2][..1] == [s];
  }

  lemma {:induction false} RowEstimates(hyp: (int, int) -> real)
    requires IsHypot(hyp, 7.0, 0.0)
    ensures Estimate(hyp)(Cell(FCu, 7, 0)) == 0.0 && Estimate(hyp)(Cell(FCu, 4, 0)) >= 0.27
    ensures forall c :: Estimate(hyp)(c) >= 0.0
  {
    assert Sq(hyp(7, 0)) == 0.0 == Sq(0.0);
    SquareOrder(hyp(7, 0), 0.0);
    assert Sq(hyp(4, 0)) == 9.0;
    SquareOrder(3.0, hyp(4, 0));
  }

  /** A row of ten cells on one layer. */
  function Row(): Problem {
    Problem(10, 1, {}, {}, {Cell(FCu, 5, 0)}, {Cell(FCu, 4, 0), Cell(FCu, 7, 0), Cell(FCu, 8, 0), Cell(FCu, 9, 0)})
  }
}
