/** The code of a statement behaves as the statement: it ends just past itself, returns from the frame, or
    keeps running for as long as the statement's loops do. */
module C4StmtSim {
  import opened Words
  import opened Wrappers
  import opened C4ParserSpec
  import opened C4Lang
  import opened C4Code
  import opened C4Vm
  import opened C4ExprSim
  import Opc

  function OptDepth(o: Option<Expr>): nat {
    if o.Some? then Depth(o.value) else 0
  }

  /** The deepest stack of temporaries in any expression of s. */
  function StmtDepth(s: Stmt): nat {
    match s
    case If(t, y) => Max(Depth(t), StmtDepth(y))
    case IfElse(t, y, n) => Max(Depth(t), Max(StmtDepth(y), StmtDepth(n)))
    case While(t, b) => Max(Depth(t), StmtDepth(b))
    case For(i, t, step, b) => Max(Max(OptDepth(i), OptDepth(t)), Max(OptDepth(step), StmtDepth(b)))
    case Return(r) => OptDepth(r)
    case Block(ss) => ListDepth(ss)
    case Skip => 0
    case Do(e) => Depth(e)
  }

  function ListDepth(ss: Stmts): nat {
    match ss
    case Nil => 0
    case Cons(s, tail) => Max(StmtDepth(s), ListDepth(tail))
  }

  /** The frame is usable with room for d temporaries, and holds the store. */
  ghost predicate Framed(c: Scope, floor: int, m: Vm, st: Store, d: nat) {
    0 <= m.pc && Layout(c, m.bp, floor, m.sp) && floor + d <= m.sp && Holds(c, st, m)
  }

  /** After n steps inside [lo, hi) the machine is at pc, with the store st and its stack and frame as before. */
  ghost predicate Moved(c: Scope, code: seq<int>, floor: int, m: Vm, n: nat, m': Vm, st: Store,
                        lo: int, pc: int, hi: int) {
    && Goes(code, m, n, m', lo, hi)
    && m'.pc == pc && m'.sp == m.sp && m'.bp == m.bp && Holds(c, st, m') && Quiet(c, floor, m, m')
  }

  /** After n steps inside [lo, hi) the machine has left the frame: it is at the return address, with the
      caller's frame pointer, the saved words popped and the value in the accumulator. */
  ghost predicate Left(c: Scope, code: seq<int>, floor: int, m: Vm, n: nat, m': Vm, st: Store, x: Option<int>,
                       lo: int, hi: int) {
    && Goes(code, m, n, m', lo, hi)
    && m'.pc == Load(m.mem, m.bp + 1) && m'.bp == Load(m.mem, m.bp) && m'.sp == m.bp + 2
    && (x.Some? ==> m'.a == x.value) && Holds(c, st, m'.(bp := m.bp)) && Quiet(c, floor, m, m')
  }

  /** The machine has done in n steps what the outcome says. Running out of fuel takes a step per loop turn. */
  ghost predicate Does(c: Scope, code: seq<int>, floor: int, m: Vm, o: Outcome, fuel: nat, n: nat, m': Vm,
                       lo: int, hi: int) {
    match o
    case Normal(st) => Moved(c, code, floor, m, n, m', st, lo, hi, hi)
    case Returned(st, x) => Left(c, code, floor, m, n, m', st, x, lo, hi)
    case OutOfFuel => n >= fuel && Goes(code, m, n, m', lo, hi)
  }

  // ---------------------------------------------------------------- composing runs

  lemma {:induction false} MovedOn(c: Scope, code: seq<int>, floor: int, m: Vm, n1: nat, m1: Vm, st1: Store,
                                   lo: int, mid: int, hi1: int,
                                   n2: nat, m2: Vm, st2: Store, lo2: int, pc: int, hi2: int, hi: int)
    requires Moved(c, code, floor, m, n1, m1, st1, lo, mid, hi1)
    requires Moved(c, code, floor, m1, n2, m2, st2, lo2, pc, hi2)
    requires lo <= lo2 && hi1 <= hi && hi2 <= hi
    ensures Moved(c, code, floor, m, n1 + n2, m2, st2, lo, pc, hi)
  {
    GoesOn(code, m, n1, m1, lo, hi1, n2, m2, lo2, hi2, lo, hi);
  }

  /** What is done after a run that moved, unless it ends normally. */
  lemma {:induction false} DoesAfter(c: Scope, code: seq<int>, floor: int, m: Vm, n1: nat, m1: Vm, st1: Store,
                                     lo: int, mid: int, hi1: int,
                                     o: Outcome, fuel2: nat, n2: nat, m2: Vm, lo2: int, hi2: int, fuel: nat, hi: int)
    requires Moved(c, code, floor, m, n1, m1, st1, lo, mid, hi1) && Layout(c, m.bp, floor, m.sp)
    requires Does(c, code, floor, m1, o, fuel2, n2, m2, lo2, hi2) && (o.Normal? ==> hi2 == hi)
    requires lo <= lo2 && hi1 <= hi && hi2 <= hi && fuel <= n1 + fuel2
    ensures Does(c, code, floor, m, o, fuel, n1 + n2, m2, lo, hi)
  {
    hide Goes;
    GoesOn(code, m, n1, m1, lo, hi1, n2, m2, lo2, hi2, lo, hi);
    if o.Returned? {
      assert m.bp !in Cells(c, m.bp) && m.bp + 1 !in Cells(c, m.bp);
    }
  }

  /** An unconditional jump. */
  lemma {:induction false} JumpAfter(c: Scope, code: seq<int>, floor: int, m: Vm, n: nat, m1: Vm, st: Store,
                                     lo: int, mid: int, end: int, target: int, hi: int)
    requires Moved(c, code, floor, m, n, m1, st, lo, mid, end) && lo <= mid && end <= hi && mid + 2 <= hi
    requires At(code, mid, [Opc.JMP, target])
    ensures Moved(c, code, floor, m, n + 1, Step(code, m1), st, lo, target, hi)
  {
    hide Steps, Stays;
    AtWord(code, mid, [Opc.JMP, target], 0);
    AtWord(code, mid, [Opc.JMP, target], 1);
    GoesStep(code, m, n, m1, lo, end, lo, hi);
  }

  /** A tested condition: the machine goes on behind the branch or at its target. */
  lemma {:induction false} TestSim(c: Scope, code: seq<int>, floor: int, m: Vm, st: Store, t: Expr, target: int,
                                   hi: int)
      returns (n: nat, m': Vm)
    requires Ready(c, code, floor, m, st, t)
    requires var mid := m.pc + |Code(c, t, m.pc)|; At(code, mid, [Opc.BZ, target]) && mid + 2 <= hi
    ensures var (x, st1) := Eval(c, t, st);
      n > 0 && Moved(c, code, floor, m, n, m', st1, m.pc,
                     if x != 0 then m.pc + |Code(c, t, m.pc)| + 2 else target, hi)
  {
    hide Goes, Code, At;
    var n1, m1 := ExprSim(c, code, floor, m, st, t);
    var (x, st1) := Eval(c, t, st);
    var mid := m.pc + |Code(c, t, m.pc)|;
    BranchAfter(c, code, floor, m, n1, m1, x, st1, m.pc, mid, mid, Opc.BZ, target, hi);
    n, m' := n1 + 1, Step(code, m1);
  }

  /** An expression for its effect, possibly missing. */
  lemma {:induction false} OptSim(c: Scope, code: seq<int>, floor: int, m: Vm, st: Store, o: Option<Expr>)
      returns (n: nat, m': Vm)
    requires WfOpt(c, o) && Framed(c, floor, m, st, OptDepth(o)) && At(code, m.pc, CodeOpt(c, o, m.pc))
    ensures var hi := m.pc + |CodeOpt(c, o, m.pc)|;
      Moved(c, code, floor, m, n, m', EvalOpt(c, o, st), m.pc, hi, hi)
  {
    if o.Some? {
      hide Code, At;
      n, m' := ExprSim(c, code, floor, m, st, o.value);
    } else {
      n, m' := 0, m;
    }
  }

  // ---------------------------------------------------------------- where the parts of a statement's code are

  lemma {:induction false} AtIf(c: Scope, code: seq<int>, lo: nat, t: Expr, y: Stmt)
    requires At(code, lo, CodeStmt(c, If(t, y), lo))
    ensures var ct := Code(c, t, lo);
      var yes := lo + |ct| + 2;
      var cy := CodeStmt(c, y, yes);
      && lo + |CodeStmt(c, If(t, y), lo)| == yes + |cy|
      && At(code, lo, ct) && At(code, yes - 2, [Opc.BZ, yes + |cy|]) && At(code, yes, cy)
  {
    hide Code, At;
    var ct := Code(c, t, lo);
    var cy := CodeStmt(c, y, lo + |ct| + 2);
    AtThree(code, lo, ct, [Opc.BZ, lo + |ct| + 2 + |cy|], cy);
  }

  /** The parts of the code of an if with an else. */
  ghost predicate IfElseParts(c: Scope, code: seq<int>, lo: nat, t: Expr, y: Stmt, f: Stmt) {
    var ct := Code(c, t, lo);
    var yes := lo + |ct| + 2;
    var cy := CodeStmt(c, y, yes);
    var no := yes + |cy| + 2;
    var cf := CodeStmt(c, f, no);
    && lo + |CodeStmt(c, IfElse(t, y, f), lo)| == no + |cf|
    && At(code, lo, ct) && At(code, yes - 2, [Opc.BZ, no]) && At(code, yes, cy)
    && At(code, no - 2, [Opc.JMP, no + |cf|]) && At(code, no, cf)
  }

  lemma {:induction false} AtIfElse(c: Scope, code: seq<int>, lo: nat, t: Expr, y: Stmt, f: Stmt)
    requires At(code, lo, CodeStmt(c, IfElse(t, y, f), lo))
    ensures IfElseParts(c, code, lo, t, y, f)
  {
    hide Code, CodeStmt, At;
    var ct := Code(c, t, lo);
    var cy := CodeStmt(c, y, lo + |ct| + 2);
    var no := lo + |ct| + 2 + |cy| + 2;
    var cf := CodeStmt(c, f, no);
    IfElseUnfold(c, t, y, f, lo, lo + |ct| + 2, no);
    AtDiamond(code, lo, ct, cy, cf, no, no + |cf|);
  }

  lemma {:induction false} AtWhile(c: Scope, code: seq<int>, lo: nat, t: Expr, b: Stmt)
    requires At(code, lo, CodeStmt(c, While(t, b), lo))
    ensures var ct := Code(c, t, lo);
      var body := lo + |ct| + 2;
      var cb := CodeStmt(c, b, body);
      var hi := body + |cb| + 2;
      && lo + |CodeStmt(c, While(t, b), lo)| == hi
      && At(code, lo, ct) && At(code, body - 2, [Opc.BZ, hi]) && At(code, body, cb) && At(code, hi - 2, [Opc.JMP, lo])
  {
    hide Code, At;
    var ct := Code(c, t, lo);
    var cb := CodeStmt(c, b, lo + |ct| + 2);
    var hi := lo + |ct| + 2 + |cb| + 2;
    AtThree(code, lo, ct + [Opc.BZ, hi], cb, [Opc.JMP, lo]);
    AtSplit(code, lo, ct, [Opc.BZ, hi]);
  }

  /** The parts of a `for` loop behind its initialisation. */
  ghost predicate ForParts(c: Scope, code: seq<int>, t: Option<Expr>, step: Option<Expr>, b: Stmt, test: nat, hi: nat) {
    var ct := Code(c, Test(t), test);
    var next := test + |ct| + 4;
    var cs := CodeOpt(c, step, next);
    var body := next + |cs| + 2;
    var cb := CodeStmt(c, b, body);
    && hi == body + |cb| + 2
    && At(code, test, ct) && At(code, next - 4, [Opc.BZ, hi]) && At(code, next - 2, [Opc.JMP, body])
    && At(code, next, cs) && At(code, body - 2, [Opc.JMP, test]) && At(code, body, cb)
    && At(code, hi - 2, [Opc.JMP, next])
  }

  lemma {:induction false} AtForLoop(code: seq<int>, test: int, ct: seq<int>, cs: seq<int>, cb: seq<int>,
                                     next: int, body: int, hi: int)
    requires next == test + |ct| + 4 && body == next + |cs| + 2 && hi == body + |cb| + 2
    requires At(code, test, ct + [Opc.BZ, hi, Opc.JMP, body] + cs + [Opc.JMP, test] + cb + [Opc.JMP, next])
    ensures At(code, test, ct) && At(code, next - 4, [Opc.BZ, hi]) && At(code, next - 2, [Opc.JMP, body])
    ensures At(code, next, cs) && At(code, body - 2, [Opc.JMP, test]) && At(code, body, cb)
    ensures At(code, hi - 2, [Opc.JMP, next])
  {
    hide At;
    AtThree(code, test, ct + [Opc.BZ, hi, Opc.JMP, body] + cs + [Opc.JMP, test], cb, [Opc.JMP, next]);
    AtThree(code, test, ct + [Opc.BZ, hi, Opc.JMP, body], cs, [Opc.JMP, test]);
    assert ct + [Opc.BZ, hi, Opc.JMP, body] == ct + [Opc.BZ, hi] + [Opc.JMP, body];
    AtThree(code, test, ct, [Opc.BZ, hi], [Opc.JMP, body]);
  }

  lemma {:induction false} AtFor(c: Scope, code: seq<int>, lo: nat, i: Option<Expr>, t: Option<Expr>,
                                 step: Option<Expr>, b: Stmt)
    requires At(code, lo, CodeStmt(c, For(i, t, step, b), lo))
    ensures var ci := CodeOpt(c, i, lo);
      At(code, lo, ci) && ForParts(c, code, t, step, b, lo + |ci|, lo + |CodeStmt(c, For(i, t, step, b), lo)|)
  {
    hide Code, CodeOpt, CodeStmt, At;
    var ci := CodeOpt(c, i, lo);
    var test := lo + |ci|;
    var ct := Code(c, Test(t), test);
    var next := test + |ct| + 4;
    var cs := CodeOpt(c, step, next);
    var body := next + |cs| + 2;
    var cb := CodeStmt(c, b, body);
    var hi := body + |cb| + 2;
    ForUnfold(c, i, t, step, b, lo, test, next, body);
    AtSplit(code, lo, ci, ct + [Opc.BZ, hi, Opc.JMP, body] + cs + [Opc.JMP, test] + cb + [Opc.JMP, next]);
    AtForLoop(code, test, ct, cs, cb, next, body, hi);
  }

  // ---------------------------------------------------------------- statements

  lemma {:induction false} StmtSim(c: Scope, code: seq<int>, floor: int, m: Vm, st: Store, s: Stmt, fuel: nat)
      returns (n: nat, m': Vm)
    requires WfStmt(c, s) && Framed(c, floor, m, st, StmtDepth(s)) && At(code, m.pc, CodeStmt(c, s, m.pc))
    ensures Does(c, code, floor, m, Exec(c, s, st, fuel), fuel, n, m', m.pc, m.pc + |CodeStmt(c, s, m.pc)|)
    decreases fuel, s, 1
  {
    hide Does, At, Eval, Code, Loop, Moved;
    match s {
      case If(t, y) => n, m' := IfSim(c, code, floor, m, st, t, y, fuel);
      case IfElse(t, y, f) => n, m' := IfElseSim(c, code, floor, m, st, t, y, f, fuel);
      case While(t, b) =>
        AtWhile(c, code, m.pc, t, b);
        n, m' := WhileSim(c, code, floor, m, st, t, b, fuel);
      case For(i, t, step, b) => n, m' := ForSim(c, code, floor, m, st, i, t, step, b, fuel);
      case Return(r) => n, m' := ReturnSim(c, code, floor, m, st, r, fuel);
      case Block(ss) => n, m' := ListSim(c, code, floor, m, st, ss, fuel);
      case Skip => n, m' := SkipSim(c, code, floor, m, st, fuel);
      case Do(e) =>
        n, m' := OptSim(c, code, floor, m, st, Some(e));
        DoesMoved(c, code, floor, m, EvalOpt(c, Some(e), st), fuel, n, m', m.pc, m.pc + |Code(c, e, m.pc)|);
    }
  }

  lemma {:induction false} DoesMoved(c: Scope, code: seq<int>, floor: int, m: Vm, st: Store, fuel: nat, n: nat, m': Vm,
                                     lo: int, hi: int)
    ensures Does(c, code, floor, m, Normal(st), fuel, n, m', lo, hi)
        <==> Moved(c, code, floor, m, n, m', st, lo, hi, hi)
  {
  }

  lemma {:induction false} SkipSim(c: Scope, code: seq<int>, floor: int, m: Vm, st: Store, fuel: nat)
      returns (n: nat, m': Vm)
    requires Framed(c, floor, m, st, 0)
    ensures Does(c, code, floor, m, Normal(st), fuel, n, m', m.pc, m.pc)
  {
    n, m' := 0, m;
  }

  lemma {:induction false} ReturnSim(c: Scope, code: seq<int>, floor: int, m: Vm, st: Store, r: Option<Expr>, fuel: nat)
      returns (n: nat, m': Vm)
    requires WfOpt(c, r) && Framed(c, floor, m, st, OptDepth(r)) && At(code, m.pc, CodeStmt(c, Return(r), m.pc))
    ensures Does(c, code, floor, m, Exec(c, Return(r), st, fuel), fuel, n, m', m.pc,
                 m.pc + |CodeStmt(c, Return(r), m.pc)|)
  {
    hide Steps, Stays, Code, Goes, At, Eval;
    var lo, cr := m.pc, CodeOpt(c, r, m.pc);
    var mid := lo + |cr|;
    AtSplit(code, lo, cr, [Opc.LEV]);
    AtWord(code, mid, [Opc.LEV], 0);
    var n1, m1;
    var st1 := EvalOpt(c, r, st);
    if r.Some? {
      n1, m1 := ExprSim(c, code, floor, m, st, r.value);
    } else {
      n1, m1 := 0, m;
      ZeroSteps(code, m, lo, mid);
    }
    GoesStep(code, m, n1, m1, lo, mid, lo, mid + 1);
    assert m.bp !in Cells(c, m.bp) && m.bp + 1 !in Cells(c, m.bp);
    n, m' := n1 + 1, Step(code, m1);
  }

  lemma {:induction false} ZeroSteps(code: seq<int>, m: Vm, lo: int, hi: int)
    ensures Goes(code, m, 0, m, lo, hi)
  {
  }

  lemma {:induction false} ListSim(c: Scope, code: seq<int>, floor: int, m: Vm, st: Store, ss: Stmts, fuel: nat)
      returns (n: nat, m': Vm)
    requires WfStmts(c, ss) && Framed(c, floor, m, st, ListDepth(ss)) && At(code, m.pc, CodeStmts(c, ss, m.pc))
    ensures Does(c, code, floor, m, ExecAll(c, ss, st, fuel), fuel, n, m', m.pc, m.pc + |CodeStmts(c, ss, m.pc)|)
    decreases fuel, ss, 1
  {
    hide At, CodeStmt, Exec, Goes;
    match ss {
      case Nil => n, m' := SkipSim(c, code, floor, m, st, fuel);
      case Cons(s, tail) =>
        var lo, cs := m.pc, CodeStmt(c, s, m.pc);
        var mid := lo + |cs|;
        var ct := CodeStmts(c, tail, mid);
        var hi := mid + |ct|;
        AtSplit(code, lo, cs, ct);
        var n1, m1 := StmtSim(c, code, floor, m, st, s, fuel);
        var o := Exec(c, s, st, fuel);
        if o.Normal? {
          var n2, m2 := ListSim(c, code, floor, m1, o.st, tail, fuel);
          DoesAfter(c, code, floor, m, n1, m1, o.st, lo, mid, mid,
                    ExecAll(c, tail, o.st, fuel), fuel, n2, m2, mid, hi, fuel, hi);
          n, m' := n1 + n2, m2;
        } else {
          DoesWiden(c, code, floor, m, o, fuel, n1, m1, lo, mid, hi);
          n, m' := n1, m1;
        }
    }
  }

  lemma {:induction false} DoesWiden(c: Scope, code: seq<int>, floor: int, m: Vm, o: Outcome, fuel: nat, n: nat, m': Vm,
                                     lo: int, hi1: int, hi: int)
    requires !o.Normal? && Does(c, code, floor, m, o, fuel, n, m', lo, hi1) && hi1 <= hi
    ensures Does(c, code, floor, m, o, fuel, n, m', lo, hi)
  {
    StaysWiden(code, m, n, lo, hi1, lo, hi);
  }

  lemma {:induction false} IfSim(c: Scope, code: seq<int>, floor: int, m: Vm, st: Store, t: Expr, y: Stmt, fuel: nat)
      returns (n: nat, m': Vm)
    requires WfStmt(c, If(t, y)) && Framed(c, floor, m, st, StmtDepth(If(t, y)))
    requires At(code, m.pc, CodeStmt(c, If(t, y), m.pc))
    ensures Does(c, code, floor, m, Exec(c, If(t, y), st, fuel), fuel, n, m', m.pc,
                 m.pc + |CodeStmt(c, If(t, y), m.pc)|)
    decreases fuel, y, 2
  {
    hide At, Code, CodeStmt, Does, Goes, Eval;
    AtIf(c, code, m.pc, t, y);
    var lo, yes := m.pc, m.pc + |Code(c, t, m.pc)| + 2;
    var hi := yes + |CodeStmt(c, y, yes)|;
    var n1, m1 := TestSim(c, code, floor, m, st, t, hi, hi);
    var (x, st1) := Eval(c, t, st);
    if x != 0 {
      var n2, m2 := StmtSim(c, code, floor, m1, st1, y, fuel);
      DoesAfter(c, code, floor, m, n1, m1, st1, lo, yes, hi, Exec(c, y, st1, fuel), fuel, n2, m2, yes, hi, fuel, hi);
      n, m' := n1 + n2, m2;
    } else {
      DoesMoved(c, code, floor, m, st1, fuel, n1, m1, lo, hi);
      n, m' := n1, m1;
    }
  }

  lemma {:induction false} IfElseExec(c: Scope, st: Store, t: Expr, y: Stmt, f: Stmt, fuel: nat)
    ensures var (x, st1) := Eval(c, t, st);
      Exec(c, IfElse(t, y, f), st, fuel) == Exec(c, if x != 0 then y else f, st1, fuel)
  {
    hide Eval;
  }

  lemma {:induction false} IfElseSim(c: Scope, code: seq<int>, floor: int, m: Vm, st: Store, t: Expr, y: Stmt, f: Stmt,
                                     fuel: nat)
      returns (n: nat, m': Vm)
    requires WfStmt(c, IfElse(t, y, f)) && Framed(c, floor, m, st, StmtDepth(IfElse(t, y, f)))
    requires At(code, m.pc, CodeStmt(c, IfElse(t, y, f), m.pc))
    ensures Does(c, code, floor, m, Exec(c, IfElse(t, y, f), st, fuel), fuel, n, m', m.pc,
                 m.pc + |CodeStmt(c, IfElse(t, y, f), m.pc)|)
    decreases fuel, IfElse(t, y, f), 0
  {
    hide At, Code, CodeStmt, Does, Goes, Eval, Exec;
    IfElseExec(c, st, t, y, f, fuel);
    AtIfElse(c, code, m.pc, t, y, f);
    var lo, yes := m.pc, m.pc + |Code(c, t, m.pc)| + 2;
    var no := yes + |CodeStmt(c, y, yes)| + 2;
    var hi := no + |CodeStmt(c, f, no)|;
    var n1, m1 := TestSim(c, code, floor, m, st, t, no, hi);
    var (x, st1) := Eval(c, t, st);
    if x != 0 {
      var n2, m2 := StmtSim(c, code, floor, m1, st1, y, fuel);
      var o := Exec(c, y, st1, fuel);
      if o.Normal? {
        DoesMoved(c, code, floor, m1, o.st, fuel, n2, m2, yes, no - 2);
        JumpAfter(c, code, floor, m1, n2, m2, o.st, yes, no - 2, no - 2, hi, hi);
        MovedOn(c, code, floor, m, n1, m1, st1, lo, yes, hi, n2 + 1, Step(code, m2), o.st, yes, hi, hi, hi);
        n, m' := n1 + (n2 + 1), Step(code, m2);
        DoesMoved(c, code, floor, m, o.st, fuel, n, m', lo, hi);
      } else {
        DoesAfter(c, code, floor, m, n1, m1, st1, lo, yes, hi, o, fuel, n2, m2, yes, no - 2, fuel, hi);
        n, m' := n1 + n2, m2;
      }
    } else {
      var n2, m2 := StmtSim(c, code, floor, m1, st1, f, fuel);
      DoesAfter(c, code, floor, m, n1, m1, st1, lo, no, hi, Exec(c, f, st1, fuel), fuel, n2, m2, no, hi, fuel, hi);
      n, m' := n1 + n2, m2;
    }
  }

  lemma {:induction false} WhileSim(c: Scope, code: seq<int>, floor: int, m: Vm, st: Store, t: Expr, b: Stmt, fuel: nat)
      returns (n: nat, m': Vm)
    requires WfStmt(c, While(t, b)) && Framed(c, floor, m, st, StmtDepth(While(t, b)))
    requires At(code, m.pc, CodeStmt(c, While(t, b), m.pc))
    ensures Does(c, code, floor, m, Loop(c, Some(t), None, b, st, fuel), fuel, n, m', m.pc,
                 m.pc + |CodeStmt(c, While(t, b), m.pc)|)
    decreases fuel, b, 2
  {
    hide At, Code, CodeStmt, Does, Goes, Eval, Exec;
    AtWhile(c, code, m.pc, t, b);
    var lo, body := m.pc, m.pc + |Code(c, t, m.pc)| + 2;
    var hi := body + |CodeStmt(c, b, body)| + 2;
    var n1, m1 := TestSim(c, code, floor, m, st, t, hi, hi);
    var (x, st1) := Eval(c, t, st);
    if x == 0 {
      n, m' := n1, m1;
      DoesMoved(c, code, floor, m, st1, fuel, n, m', lo, hi);
      return;
    }
    var n2, m2 := StmtSim(c, code, floor, m1, st1, b, fuel);
    var o := Exec(c, b, st1, fuel);
    if !o.Normal? {
      DoesAfter(c, code, floor, m, n1, m1, st1, lo, body, hi, o, fuel, n2, m2, body, hi - 2, fuel, hi);
      n, m' := n1 + n2, m2;
      return;
    }
    DoesMoved(c, code, floor, m1, o.st, fuel, n2, m2, body, hi - 2);
    JumpAfter(c, code, floor, m1, n2, m2, o.st, body, hi - 2, hi - 2, lo, hi);
    var m3 := Step(code, m2);
    MovedOn(c, code, floor, m, n1, m1, st1, lo, body, hi, n2 + 1, m3, o.st, body, lo, hi, hi);
    n, m' := TurnSim(c, code, floor, m, n1 + (n2 + 1), m3, o.st, lo, fuel, lo, hi);
    if fuel > 0 {
      var n4, m4 := WhileSim(c, code, floor, m3, o.st, t, b, fuel - 1);
      DoesAfter(c, code, floor, m, n1 + (n2 + 1), m3, o.st, lo, lo, hi,
                Loop(c, Some(t), None, b, o.st, fuel - 1), fuel - 1, n4, m4, lo, hi, fuel, hi);
      n, m' := n1 + (n2 + 1) + n4, m4;
    }
  }

  /** A run of one loop turn when no fuel is left for another. */
  lemma {:induction false} TurnSim(c: Scope, code: seq<int>, floor: int, m: Vm, n: nat, m1: Vm, st: Store, pc: int,
                                   fuel: nat, lo: int, hi: int)
      returns (n': nat, m': Vm)
    requires Moved(c, code, floor, m, n, m1, st, lo, pc, hi)
    ensures n' == n && m' == m1 && (fuel == 0 ==> Does(c, code, floor, m, OutOfFuel, fuel, n', m', lo, hi))
  {
    n', m' := n, m1;
  }

  lemma {:induction false} ForSim(c: Scope, code: seq<int>, floor: int, m: Vm, st: Store,
                                  i: Option<Expr>, t: Option<Expr>, step: Option<Expr>, b: Stmt, fuel: nat)
      returns (n: nat, m': Vm)
    requires WfStmt(c, For(i, t, step, b)) && Framed(c, floor, m, st, StmtDepth(For(i, t, step, b)))
    requires At(code, m.pc, CodeStmt(c, For(i, t, step, b), m.pc))
    ensures Does(c, code, floor, m, Exec(c, For(i, t, step, b), st, fuel), fuel, n, m', m.pc,
                 m.pc + |CodeStmt(c, For(i, t, step, b), m.pc)|)
    decreases fuel, b, 3
  {
    hide At, Code, CodeStmt, Does, Goes, Eval, ForParts, Loop, EvalOpt;
    AtFor(c, code, m.pc, i, t, step, b);
    var lo, hi := m.pc, m.pc + |CodeStmt(c, For(i, t, step, b), m.pc)|;
    var test := lo + |CodeOpt(c, i, lo)|;
    var n1, m1 := OptSim(c, code, floor, m, st, i);
    var st1 := EvalOpt(c, i, st);
    ForBounds(c, code, t, step, b, test, hi);
    var n2, m2 := ForLoopSim(c, code, floor, m1, st1, t, step, b, hi, fuel);
    DoesAfter(c, code, floor, m, n1, m1, st1, lo, test, test, Loop(c, t, step, b, st1, fuel), fuel, n2, m2, test,
      hi, fuel, hi);
    n, m' := n1 + n2, m2;
  }

  lemma {:induction false} ForBounds(c: Scope, code: seq<int>, t: Option<Expr>, step: Option<Expr>, b: Stmt,
                                     test: nat, hi: nat)
    requires ForParts(c, code, t, step, b, test, hi)
    ensures test <= hi
  {
    hide Code, CodeOpt, CodeStmt, At;
  }

  /** The loop of a `for`, from its test: the step runs after the body although its code comes before it. */
  lemma {:induction false} ForLoopSim(c: Scope, code: seq<int>, floor: int, m: Vm, st: Store,
                                      t: Option<Expr>, step: Option<Expr>, b: Stmt, hi: nat, fuel: nat)
      returns (n: nat, m': Vm)
    requires WfOpt(c, t) && WfOpt(c, step) && WfStmt(c, b)
    requires Framed(c, floor, m, st, Max(OptDepth(t), Max(OptDepth(step), StmtDepth(b))))
    requires ForParts(c, code, t, step, b, m.pc, hi)
    ensures Does(c, code, floor, m, Loop(c, t, step, b, st, fuel), fuel, n, m', m.pc, hi)
    decreases fuel, b, 2
  {
    hide At, Code, CodeStmt, CodeOpt, Does, Goes, Eval, Exec;
    var test := m.pc;
    var next := test + |Code(c, Test(t), test)| + 4;
    var body := next + |CodeOpt(c, step, next)| + 2;
    TestReady(c, t);
    var n1, m1 := TestSim(c, code, floor, m, st, Test(t), hi, hi);
    var (x, st1) := Eval(c, Test(t), st);
    if x == 0 {
      n, m' := n1, m1;
      DoesMoved(c, code, floor, m, st1, fuel, n, m', test, hi);
      return;
    }
    JumpAfter(c, code, floor, m, n1, m1, st1, test, next - 2, hi, body, hi);
    var m2 := Step(code, m1);
    var n3, m3 := StmtSim(c, code, floor, m2, st1, b, fuel);
    var o := Exec(c, b, st1, fuel);
    if !o.Normal? {
      DoesAfter(c, code, floor, m, n1 + 1, m2, st1, test, body, hi, o, fuel, n3, m3, body, hi - 2, fuel, hi);
      n, m' := n1 + 1 + n3, m3;
      return;
    }
    DoesMoved(c, code, floor, m2, o.st, fuel, n3, m3, body, hi - 2);
    var n5, m5 := BackSim(c, code, floor, m2, n3, m3, o.st, step, test, next, body, hi);
    var st5 := EvalOpt(c, step, o.st);
    MovedOn(c, code, floor, m, n1 + 1, m2, st1, test, body, hi, n5, m5, st5, test, test, hi, hi);
    n, m' := ForAgain(c, code, floor, m, st, n1 + 1 + n5, m5, st5, t, step, b, hi, fuel);
  }

  /** Behind a full turn of the loop. */
  lemma {:induction false} ForAgain(c: Scope, code: seq<int>, floor: int, m: Vm, st: Store, n1: nat, m1: Vm, st1: Store,
                                    t: Option<Expr>, step: Option<Expr>, b: Stmt, hi: nat, fuel: nat)
      returns (n: nat, m': Vm)
    requires WfOpt(c, t) && WfOpt(c, step) && WfStmt(c, b)
    requires Framed(c, floor, m, st, Max(OptDepth(t), Max(OptDepth(step), StmtDepth(b))))
    requires ForParts(c, code, t, step, b, m.pc, hi) && n1 > 0
    requires Moved(c, code, floor, m, n1, m1, st1, m.pc, m.pc, hi)
    ensures Does(c, code, floor, m, if fuel == 0 then OutOfFuel else Loop(c, t, step, b, st1, fuel - 1),
                 fuel, n, m', m.pc, hi)
    decreases fuel, b, 1
  {
    hide At, Code, CodeStmt, CodeOpt, Does, Goes, Eval, Exec, ForParts, Loop;
    var test := m.pc;
    n, m' := TurnSim(c, code, floor, m, n1, m1, st1, test, fuel, test, hi);
    if fuel > 0 {
      var n2, m2 := ForLoopSim(c, code, floor, m1, st1, t, step, b, hi, fuel - 1);
      DoesAfter(c, code, floor, m, n1, m1, st1, test, test, hi,
                Loop(c, t, step, b, st1, fuel - 1), fuel - 1, n2, m2, test, hi, fuel, hi);
      n, m' := n1 + n2, m2;
    }
  }

  lemma {:induction false} TestReady(c: Scope, t: Option<Expr>)
    requires WfOpt(c, t)
    ensures Wf(c, Test(t)) && Depth(Test(t)) == OptDepth(t)
  {
  }

  /** From the end of the body back to the test: a jump to the step, the step, a jump to the test. */
  lemma {:induction false} BackSim(c: Scope, code: seq<int>, floor: int, m: Vm, n: nat, m1: Vm, st: Store,
                                   step: Option<Expr>, test: nat, next: nat, body: nat, hi: nat)
      returns (n': nat, m': Vm)
    requires WfOpt(c, step) && Framed(c, floor, m1, st, OptDepth(step)) && test <= next
    requires Moved(c, code, floor, m, n, m1, st, body, hi - 2, hi - 2)
    requires body == next + |CodeOpt(c, step, next)| + 2 && body <= hi - 2
    requires At(code, next, CodeOpt(c, step, next)) && At(code, body - 2, [Opc.JMP, test])
    requires At(code, hi - 2, [Opc.JMP, next])
    ensures Moved(c, code, floor, m, n', m', EvalOpt(c, step, st), test, test, hi)
  {
    hide At, Code, CodeOpt, Goes, EvalOpt;
    JumpAfter(c, code, floor, m, n, m1, st, body, hi - 2, hi - 2, next, hi);
    var m2 := Step(code, m1);
    var n3, m3 := OptSim(c, code, floor, m2, st, step);
    var st3 := EvalOpt(c, step, st);
    JumpAfter(c, code, floor, m2, n3, m3, st3, next, body - 2, body - 2, test, hi);
    MovedWiden(c, code, floor, m, n + 1, m2, st, body, next, hi, test);
    MovedOn(c, code, floor, m, n + 1, m2, st, test, next, hi, n3 + 1, Step(code, m3), st3, next, test, hi, hi);
    n', m' := n + 1 + (n3 + 1), Step(code, m3);
  }

  lemma {:induction false} MovedWiden(c: Scope, code: seq<int>, floor: int, m: Vm, n: nat, m': Vm, st: Store,
                                      lo1: int, pc: int, hi: int, lo: int)
    requires Moved(c, code, floor, m, n, m', st, lo1, pc, hi) && lo <= lo1
    ensures Moved(c, code, floor, m, n, m', st, lo, pc, hi)
  {
    StaysWiden(code, m, n, lo1, hi, lo, hi);
  }
}
