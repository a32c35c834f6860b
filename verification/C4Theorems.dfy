/** What the compiler and its machine promise together. */
module C4Theorems {
  import opened Wrappers
  import opened Words
  import opened Tok
  import opened C4ParserSpec
  import opened C4Lang
  import opened C4Code
  import opened C4StmtParserProof
  import opened C4Vm
  import opened C4ExprSim
  import opened C4StmtSim
  import Opc

  // ---------------------------------------------------------------- the meaning of statements

  /** More fuel never changes an outcome. */
  lemma {:induction false} FuelMonotone(c: Scope, s: Stmt, st: Store, fuel: nat)
    requires !Exec(c, s, st, fuel).OutOfFuel?
    ensures Exec(c, s, st, fuel + 1) == Exec(c, s, st, fuel)
    decreases fuel, s, 1
  {
    hide Eval;
    match s {
      case If(t, y) => if Eval(c, t, st).0 != 0 { FuelMonotone(c, y, Eval(c, t, st).1, fuel); }
      case IfElse(t, y, n) => FuelMonotone(c, if Eval(c, t, st).0 != 0 then y else n, Eval(c, t, st).1, fuel);
      case While(t, b) => LoopMonotone(c, Some(t), None, b, st, fuel);
      case For(i, t, step, b) => LoopMonotone(c, t, step, b, EvalOpt(c, i, st), fuel);
      case Block(ss) => ListMonotone(c, ss, st, fuel);
      case _ =>
    }
  }

  lemma {:induction false} ListMonotone(c: Scope, ss: Stmts, st: Store, fuel: nat)
    requires !ExecAll(c, ss, st, fuel).OutOfFuel?
    ensures ExecAll(c, ss, st, fuel + 1) == ExecAll(c, ss, st, fuel)
    decreases fuel, ss, 1
  {
    if ss.Cons? {
      FuelMonotone(c, ss.head, st, fuel);
      var o := Exec(c, ss.head, st, fuel);
      if o.Normal? { ListMonotone(c, ss.tail, o.st, fuel); }
    }
  }

  lemma {:induction false} LoopMonotone(c: Scope, t: Option<Expr>, step: Option<Expr>, b: Stmt, st: Store, fuel: nat)
    requires !Loop(c, t, step, b, st, fuel).OutOfFuel?
    ensures Loop(c, t, step, b, st, fuel + 1) == Loop(c, t, step, b, st, fuel)
    decreases fuel, b, 2
  {
    hide Eval, Exec;
    var (x, st1) := Eval(c, Test(t), st);
    if x != 0 {
      FuelMonotone(c, b, st1, fuel);
      var o := Exec(c, b, st1, fuel);
      if o.Normal? { LoopMonotone(c, t, step, b, EvalOpt(c, step, o.st), fuel - 1); }
    }
  }

  /** init; while (test) { body; step } */
  function AsWhile(i: Option<Expr>, t: Option<Expr>, step: Option<Expr>, b: Stmt): Stmt {
    Block(Cons(OptDo(i), Cons(While(Test(t), Block(Cons(b, Cons(OptDo(step), Nil)))), Nil)))
  }

  function OptDo(o: Option<Expr>): Stmt {
    if o.Some? then Do(o.value) else Skip
  }

  /** A `for` means the `while` loop that it abbreviates, whatever its parts. */
  lemma {:induction false} ForMeansWhile(c: Scope, i: Option<Expr>, t: Option<Expr>, step: Option<Expr>, b: Stmt,
                                         st: Store, fuel: nat)
    ensures Exec(c, For(i, t, step, b), st, fuel) == Exec(c, AsWhile(i, t, step, b), st, fuel)
  {
    hide Eval, Loop;
    var body := Block(Cons(b, Cons(OptDo(step), Nil)));
    var loop := While(Test(t), body);
    var st1 := EvalOpt(c, i, st);
    assert Exec(c, OptDo(i), st, fuel) == Normal(st1);
    LoopMeansWhile(c, t, step, b, st1, fuel);
    var o := Loop(c, Some(Test(t)), None, body, st1, fuel);
    assert ExecAll(c, Nil, if o.Normal? then o.st else st1, fuel).Normal?;
    assert ExecAll(c, Cons(loop, Nil), st1, fuel) == o;
  }

  lemma {:induction false} LoopMeansWhile(c: Scope, t: Option<Expr>, step: Option<Expr>, b: Stmt, st: Store, fuel: nat)
    ensures Loop(c, t, step, b, st, fuel)
         == Loop(c, Some(Test(t)), None, Block(Cons(b, Cons(OptDo(step), Nil))), st, fuel)
    decreases fuel
  {
    hide Eval;
    var body := Block(Cons(b, Cons(OptDo(step), Nil)));
    var (x, st1) := Eval(c, Test(t), st);
    if x != 0 {
      var o := Exec(c, b, st1, fuel);
      BodyThenStep(c, step, b, st1, fuel);
      if o.Normal? && fuel > 0 {
        LoopMeansWhile(c, t, step, b, EvalOpt(c, step, o.st), fuel - 1);
      }
    }
  }

  lemma {:induction false} BodyThenStep(c: Scope, step: Option<Expr>, b: Stmt, st: Store, fuel: nat)
    ensures var o := Exec(c, b, st, fuel);
      Exec(c, Block(Cons(b, Cons(OptDo(step), Nil))), st, fuel)
      == if o.Normal? then Normal(EvalOpt(c, step, o.st)) else o
  {
    hide Eval;
    var o := Exec(c, b, st, fuel);
    if o.Normal? {
      var st1 := EvalOpt(c, step, o.st);
      assert Exec(c, OptDo(step), o.st, fuel) == Normal(st1);
      assert ExecAll(c, Nil, st1, fuel) == Normal(st1);
      assert ExecAll(c, Cons(OptDo(step), Nil), o.st, fuel) == Normal(st1);
    }
  }

  // ---------------------------------------------------------------- branch targets

  predicate IsBranch(op: int) {
    op == Opc.JMP || op == Opc.BZ || op == Opc.BNZ
  }

  function Width(op: int): nat {
    if HasOperand(op) then 2 else 1
  }

  /** The code is a whole number of instructions, and its branches go to positions from lo to hi. */
  predicate Branches(part: seq<int>, lo: int, hi: int) {
    part == [] ||
    (&& Width(part[0]) <= |part|
     && (IsBranch(part[0]) ==> lo <= part[1] <= hi)
     && Branches(part[Width(part[0])..], lo, hi))
  }

  lemma {:induction false} BranchesAppend(p: seq<int>, q: seq<int>, lo: int, hi: int)
    requires Branches(p, lo, hi) && Branches(q, lo, hi)
    ensures Branches(p + q, lo, hi)
    decreases |p|
  {
    if p == [] {
      assert p + q == q;
    } else {
      var w := Width(p[0]);
      assert (p + q)[w..] == p[w..] + q;
      BranchesAppend(p[w..], q, lo, hi);
    }
  }

  lemma {:induction false} Branches3(p: seq<int>, q: seq<int>, r: seq<int>, lo: int, hi: int)
    requires Branches(p, lo, hi) && Branches(q, lo, hi) && Branches(r, lo, hi)
    ensures Branches(p + q + r, lo, hi)
  {
    hide Branches;
    BranchesAppend(p, q, lo, hi);
    BranchesAppend(p + q, r, lo, hi);
  }

  lemma {:induction false} BranchesWiden(p: seq<int>, lo: int, hi: int, lo': int, hi': int)
    requires Branches(p, lo, hi) && lo' <= lo && hi <= hi'
    ensures Branches(p, lo', hi')
    decreases |p|
  {
    if p != [] { BranchesWiden(p[Width(p[0])..], lo, hi, lo', hi'); }
  }

  /** Instructions that are not branches, and one that is. */
  lemma {:induction false} BranchesPlain(lo: int, hi: int, op: int, w: int)
    ensures !HasOperand(op) ==> Branches([op], lo, hi)
    ensures HasOperand(op) && (IsBranch(op) ==> lo <= w <= hi) ==> Branches([op, w], lo, hi)
  {
    assert [op][1..] == [] && [op, w][2..] == [];
  }

  lemma {:induction false} BranchesConst(lo: int, hi: int, w: int, op: int)
    requires !HasOperand(op)
    ensures Branches([Opc.PSH, Opc.IMM, w, op], lo, hi)
  {
    BranchesPlain(lo, hi, Opc.PSH, 0);
    BranchesPlain(lo, hi, Opc.IMM, w);
    BranchesPlain(lo, hi, op, 0);
    Branches3([Opc.PSH], [Opc.IMM, w], [op], lo, hi);
    assert [Opc.PSH] + [Opc.IMM, w] + [op] == [Opc.PSH, Opc.IMM, w, op];
  }

  /** Code whose branches stay inside it. */
  predicate Closed(part: seq<int>, base: int) {
    Branches(part, base, base + |part|)
  }

  lemma {:induction false} AddrBranches(c: Scope, v: nat, lo: int, hi: int)
    ensures Branches(AddrCode(c, v), lo, hi)
  {
    BranchesPlain(lo, hi, Opc.LEA, c.loc - c.Lookup(v).val);
    BranchesPlain(lo, hi, Opc.IMM, c.Lookup(v).val);
  }

  /** Every branch in an expression's code goes to a place in that code or one past its end. */
  lemma {:induction false} ExprBranches(c: Scope, e: Expr, base: nat)
    ensures Closed(Code(c, e, base), base)
    decreases e, 1
  {
    hide Branches;
    var hi := base + |Code(c, e, base)|;
    match e {
      case Lit(n) => BranchesPlain(base, hi, Opc.IMM, n);
      case SizeofInt => BranchesPlain(base, hi, Opc.IMM, SIZEOF_INT);
      case Var(v) => VarBranches(c, v, base, hi);
      case Set(v, rhs) =>
        var cr := Code(c, rhs, base + 3);
        ExprBranches(c, rhs, base + 3);
        AddrBranches(c, v, base, hi);
        BranchesPlain(base, hi, Opc.PSH, 0);
        BranchesPlain(base, hi, Opc.SI, 0);
        BranchesWiden(cr, base + 3, base + 3 + |cr|, base, hi);
        BranchesAppend(AddrCode(c, v), [Opc.PSH], base, hi);
        Branches3(AddrCode(c, v) + [Opc.PSH], cr, [Opc.SI], base, hi);
      case Bin(op, l, r) => BinBranches(c, op, l, r, base);
      case OrElse(l, r) => ShortBranches(c, e, Opc.BNZ, base);
      case AndAlso(l, r) => ShortBranches(c, e, Opc.BZ, base);
      case Choose(t, y, n) => ChooseBranches(c, t, y, n, base);
      case Not(a) => UnaryBranches(c, a, base, 0, Opc.EQ);
      case Compl(a) => UnaryBranches(c, a, base, -1, Opc.XOR);
      case Neg(a) => NegBranches(c, a, base);
      case Pos(a) => ExprBranches(c, a, base);
      case Cast(a) => ExprBranches(c, a, base);
      case PreStep(v, up) => StepBranches(c, v, up, base, hi);
      case PostStep(v, up) =>
        StepBranches(c, v, up, base, hi);
        BranchesConst(base, hi, 1, StepOp(!up));
        var undo := [Opc.PSH, Opc.IMM, 1, StepOp(!up)];
        BranchesAppend(Code(c, PreStep(v, up), base), undo, base, hi);
        assert Code(c, e, base) == Code(c, PreStep(v, up), base) + undo;
    }
  }

  lemma {:induction false} VarBranches(c: Scope, v: nat, lo: nat, hi: int)
    ensures Branches(Code(c, Var(v), lo), lo, hi)
  {
    hide Branches;
    AddrBranches(c, v, lo, hi);
    BranchesPlain(lo, hi, Opc.LI, 0);
    BranchesAppend(AddrCode(c, v), [Opc.LI], lo, hi);
    assert AddrCode(c, v) + [] == AddrCode(c, v);
  }

  lemma {:induction false} StepBranches(c: Scope, v: nat, up: bool, lo: nat, hi: int)
    ensures Branches(Code(c, PreStep(v, up), lo), lo, hi)
  {
    hide Branches;
    AddrBranches(c, v, lo, hi);
    BranchesPlain(lo, hi, Opc.PSH, 0);
    BranchesPlain(lo, hi, Opc.LI, 0);
    BranchesPlain(lo, hi, Opc.SI, 0);
    BranchesConst(lo, hi, 1, StepOp(up));
    var tail := [Opc.PSH, Opc.IMM, 1, StepOp(up)];
    Branches3(AddrCode(c, v), [Opc.PSH], [Opc.LI], lo, hi);
    Branches3(AddrCode(c, v) + [Opc.PSH] + [Opc.LI], tail, [Opc.SI], lo, hi);
    assert Code(c, PreStep(v, up), lo) == AddrCode(c, v) + [Opc.PSH] + [Opc.LI] + tail + [Opc.SI];
  }

  lemma {:induction false} UnaryBranches(c: Scope, a: Expr, base: nat, w: int, op: int)
    requires !HasOperand(op)
    ensures Closed(Code(c, a, base) + [Opc.PSH, Opc.IMM, w, op], base)
    decreases a, 2
  {
    hide Branches;
    var ca := Code(c, a, base);
    ExprBranches(c, a, base);
    BranchesWiden(ca, base, base + |ca|, base, base + |ca| + 4);
    BranchesConst(base, base + |ca| + 4, w, op);
    BranchesAppend(ca, [Opc.PSH, Opc.IMM, w, op], base, base + |ca| + 4);
  }

  lemma {:induction false} NegBranches(c: Scope, a: Expr, base: nat)
    ensures Closed(Code(c, Neg(a), base), base)
    decreases a, 2
  {
    hide Branches;
    var hi := base + |Code(c, Neg(a), base)|;
    if a.Lit? {
      BranchesPlain(base, hi, Opc.IMM, Wrap(-a.n));
    } else {
      var ca := Code(c, a, base + 3);
      ExprBranches(c, a, base + 3);
      BranchesWiden(ca, base + 3, base + 3 + |ca|, base, hi);
      BranchesPlain(base, hi, Opc.IMM, -1);
      BranchesPlain(base, hi, Opc.PSH, 0);
      BranchesPlain(base, hi, Opc.MUL, 0);
      BranchesAppend([Opc.IMM, -1], [Opc.PSH], base, hi);
      assert [Opc.IMM, -1] + [Opc.PSH] == [Opc.IMM, -1, Opc.PSH];
      Branches3([Opc.IMM, -1, Opc.PSH], ca, [Opc.MUL], base, hi);
    }
  }

  lemma {:induction false} BinBranches(c: Scope, op: BinOp, l: Expr, r: Expr, base: nat)
    ensures Closed(Code(c, Bin(op, l, r), base), base)
    decreases Bin(op, l, r), 0
  {
    hide Branches, Code;
    var cl := Code(c, l, base);
    var mid := base + |cl| + 1;
    var cr := Code(c, r, mid);
    var hi := mid + |cr| + 1;
    BinUnfold(c, op, l, r, base, mid);
    ExprBranches(c, l, base);
    ExprBranches(c, r, mid);
    BranchesWiden(cl, base, base + |cl|, base, hi);
    BranchesWiden(cr, mid, mid + |cr|, base, hi);
    BranchesPlain(base, hi, Opc.PSH, 0);
    BranchesPlain(base, hi, OpcodeOf(op), 0);
    BranchesAppend(cl, [Opc.PSH], base, hi);
    Branches3(cl + [Opc.PSH], cr, [OpcodeOf(op)], base, hi);
  }

  lemma {:induction false} ShortBranches(c: Scope, e: Expr, branch: int, base: nat)
    requires (e.OrElse? && branch == Opc.BNZ) || (e.AndAlso? && branch == Opc.BZ)
    ensures Closed(Code(c, e, base), base)
    decreases e, 0
  {
    hide Branches;
    var cl := Code(c, e.left, base);
    var mid := base + |cl| + 2;
    var cr := Code(c, e.right, mid);
    var hi := mid + |cr|;
    ExprBranches(c, e.left, base);
    ExprBranches(c, e.right, mid);
    BranchesWiden(cl, base, base + |cl|, base, hi);
    BranchesWiden(cr, mid, hi, base, hi);
    BranchesPlain(base, hi, branch, hi);
    Branches3(cl, [branch, hi], cr, base, hi);
  }

  /** A test, two alternatives and their two jumps. */
  lemma {:induction false} DiamondBranches(ct: seq<int>, cy: seq<int>, cn: seq<int>, base: int, yes: int, no: int,
                                           hi: int)
    requires yes == base + |ct| + 2 && no == yes + |cy| + 2 && hi == no + |cn|
    requires Closed(ct, base) && Closed(cy, yes) && Closed(cn, no)
    ensures Branches(ct + [Opc.BZ, no] + cy + [Opc.JMP, hi] + cn, base, hi)
  {
    hide Branches;
    BranchesWiden(ct, base, base + |ct|, base, hi);
    BranchesWiden(cy, yes, yes + |cy|, base, hi);
    BranchesWiden(cn, no, hi, base, hi);
    BranchesPlain(base, hi, Opc.BZ, no);
    BranchesPlain(base, hi, Opc.JMP, hi);
    Branches3(ct, [Opc.BZ, no], cy, base, hi);
    Branches3(ct + [Opc.BZ, no] + cy, [Opc.JMP, hi], cn, base, hi);
  }

  lemma {:induction false} ChooseBranches(c: Scope, t: Expr, y: Expr, n: Expr, base: nat)
    ensures Closed(Code(c, Choose(t, y, n), base), base)
    decreases Choose(t, y, n), 0
  {
    hide Branches, Code;
    var yes := base + |Code(c, t, base)| + 2;
    var no := yes + |Code(c, y, yes)| + 2;
    ChooseUnfold(c, t, y, n, base, yes, no);
    ExprBranches(c, t, base);
    ExprBranches(c, y, yes);
    ExprBranches(c, n, no);
    DiamondBranches(Code(c, t, base), Code(c, y, yes), Code(c, n, no), base, yes, no, no + |Code(c, n, no)|);
  }

  /** Every JMP, BZ and BNZ in a statement's code goes to a place in that code or one past its end. */
  lemma {:induction false} StmtBranches(c: Scope, s: Stmt, base: nat)
    ensures Closed(CodeStmt(c, s, base), base)
    decreases s, 1
  {
    hide Branches, Code;
    var hi := base + |CodeStmt(c, s, base)|;
    match s {
      case If(t, y) =>
        var ct := Code(c, t, base);
        var cy := CodeStmt(c, y, base + |ct| + 2);
        ExprBranches(c, t, base);
        StmtBranches(c, y, base + |ct| + 2);
        BranchesWiden(ct, base, base + |ct|, base, hi);
        BranchesWiden(cy, base + |ct| + 2, hi, base, hi);
        BranchesPlain(base, hi, Opc.BZ, hi);
        Branches3(ct, [Opc.BZ, hi], cy, base, hi);
      case IfElse(t, y, n) => IfElseBranches(c, t, y, n, base);
      case While(t, b) =>
        var ct := Code(c, t, base);
        var cb := CodeStmt(c, b, base + |ct| + 2);
        ExprBranches(c, t, base);
        StmtBranches(c, b, base + |ct| + 2);
        BranchesWiden(ct, base, base + |ct|, base, hi);
        BranchesWiden(cb, base + |ct| + 2, hi - 2, base, hi);
        BranchesPlain(base, hi, Opc.BZ, hi);
        BranchesPlain(base, hi, Opc.JMP, base);
        BranchesAppend(ct, [Opc.BZ, hi], base, hi);
        Branches3(ct + [Opc.BZ, hi], cb, [Opc.JMP, base], base, hi);
      case For(i, t, step, b) => ForBranches(c, i, t, step, b, base);
      case Return(r) =>
        OptBranches(c, r, base, base, hi);
        BranchesPlain(base, hi, Opc.LEV, 0);
        BranchesAppend(CodeOpt(c, r, base), [Opc.LEV], base, hi);
      case Block(ss) => ListBranches(c, ss, base);
      case Skip => BranchesNone(base, hi);
      case Do(e) => ExprBranches(c, e, base);
    }
  }

  lemma {:induction false} BranchesNone(lo: int, hi: int)
    ensures Branches([], lo, hi)
  {
  }

  lemma {:induction false} OptBranches(c: Scope, o: Option<Expr>, base: nat, lo: int, hi: int)
    requires lo <= base && base + |CodeOpt(c, o, base)| <= hi
    ensures Branches(CodeOpt(c, o, base), lo, hi)
  {
    hide Branches, Code;
    if o.Some? {
      ExprBranches(c, o.value, base);
      BranchesWiden(Code(c, o.value, base), base, base + |Code(c, o.value, base)|, lo, hi);
    } else {
      BranchesNone(lo, hi);
    }
  }

  lemma {:induction false} ListBranches(c: Scope, ss: Stmts, base: nat)
    ensures Closed(CodeStmts(c, ss, base), base)
    decreases ss, 1
  {
    hide Branches, CodeStmt;
    match ss {
      case Nil => BranchesNone(base, base);
      case Cons(s, tail) =>
        var cs := CodeStmt(c, s, base);
        var ct := CodeStmts(c, tail, base + |cs|);
        var hi := base + |cs| + |ct|;
        StmtBranches(c, s, base);
        ListBranches(c, tail, base + |cs|);
        BranchesWiden(cs, base, base + |cs|, base, hi);
        BranchesWiden(ct, base + |cs|, hi, base, hi);
        BranchesAppend(cs, ct, base, hi);
    }
  }

  lemma {:induction false} IfElseBranches(c: Scope, t: Expr, y: Stmt, n: Stmt, base: nat)
    ensures Closed(CodeStmt(c, IfElse(t, y, n), base), base)
    decreases IfElse(t, y, n), 0
  {
    hide Branches, Code, CodeStmt;
    var yes := base + |Code(c, t, base)| + 2;
    var no := yes + |CodeStmt(c, y, yes)| + 2;
    IfElseUnfold(c, t, y, n, base, yes, no);
    ExprBranches(c, t, base);
    StmtBranches(c, y, yes);
    StmtBranches(c, n, no);
    DiamondBranches(Code(c, t, base), CodeStmt(c, y, yes), CodeStmt(c, n, no), base, yes, no,
                    no + |CodeStmt(c, n, no)|);
  }

  lemma {:induction false} ForBranches(c: Scope, i: Option<Expr>, t: Option<Expr>, step: Option<Expr>, b: Stmt,
                                       base: nat)
    ensures Closed(CodeStmt(c, For(i, t, step, b), base), base)
    decreases b, 2
  {
    hide Branches, Code, CodeOpt, CodeStmt;
    var ci := CodeOpt(c, i, base);
    var test := base + |ci|;
    var ct := Code(c, Test(t), test);
    var next := test + |ct| + 4;
    var cs := CodeOpt(c, step, next);
    var body := next + |cs| + 2;
    var cb := CodeStmt(c, b, body);
    var hi := body + |cb| + 2;
    ForUnfold(c, i, t, step, b, base, test, next, body);
    OptBranches(c, i, base, base, hi);
    ExprBranches(c, Test(t), test);
    OptBranches(c, step, next, base, hi);
    StmtBranches(c, b, body);
    BranchesWiden(ct, test, test + |ct|, base, hi);
    BranchesWiden(cb, body, body + |cb|, base, hi);
    BranchesPlain(base, hi, Opc.BZ, hi);
    BranchesPlain(base, hi, Opc.JMP, body);
    BranchesPlain(base, hi, Opc.JMP, test);
    BranchesPlain(base, hi, Opc.JMP, next);
    BranchesAppend([Opc.BZ, hi], [Opc.JMP, body], base, hi);
    assert [Opc.BZ, hi] + [Opc.JMP, body] == [Opc.BZ, hi, Opc.JMP, body];
    Branches3(ct, [Opc.BZ, hi, Opc.JMP, body], cs, base, hi);
    Branches3(ct + [Opc.BZ, hi, Opc.JMP, body] + cs, [Opc.JMP, test], cb, base, hi);
    BranchesAppend(ct + [Opc.BZ, hi, Opc.JMP, body] + cs + [Opc.JMP, test] + cb, [Opc.JMP, next], base, hi);
    BranchesAppend(ci, ct + [Opc.BZ, hi, Opc.JMP, body] + cs + [Opc.JMP, test] + cb + [Opc.JMP, next], base, hi);
  }

  // ---------------------------------------------------------------- the whole compiler

  lemma {:induction false} StaysAt(code: seq<int>, m: Vm, n: nat, k: nat, lo: int, hi: int)
    requires Stays(code, m, n, lo, hi) && k < n
    ensures lo <= Steps(code, m, k).pc < hi
    decreases k
  {
    if k > 0 { StaysAt(code, Step(code, m), n - 1, k - 1, lo, hi); }
  }

  /** A frame whose return address is outside the statement's code. */
  ghost predicate CalledFrom(m: Vm, lo: int, hi: int) {
    !(lo <= Load(m.mem, m.bp + 1) < hi)
  }

  /** Some fuel is enough for the statement. */
  ghost predicate Terminates(c: Scope, s: Stmt, st: Store) {
    exists fuel: nat :: !Exec(c, s, st, fuel).OutOfFuel?
  }

  /** At some step the program counter is outside the code from lo to hi. */
  ghost predicate GetsOut(code: seq<int>, m: Vm, lo: int, hi: int) {
    exists n: nat :: !(lo <= Steps(code, m, n).pc < hi)
  }

  /** The machine gets out of the statement's code exactly when the statement terminates. */
  lemma {:induction false} TerminatesTogether(c: Scope, code: seq<int>, floor: int, m: Vm, st: Store, s: Stmt)
    requires WfStmt(c, s) && Framed(c, floor, m, st, StmtDepth(s)) && At(code, m.pc, CodeStmt(c, s, m.pc))
    requires CalledFrom(m, m.pc, m.pc + |CodeStmt(c, s, m.pc)|)
    ensures Terminates(c, s, st) <==> GetsOut(code, m, m.pc, m.pc + |CodeStmt(c, s, m.pc)|)
  {
    hide Exec, Steps, CodeStmt, Stays;
    var lo, hi := m.pc, m.pc + |CodeStmt(c, s, m.pc)|;
    if fuel: nat :| !Exec(c, s, st, fuel).OutOfFuel? {
      var n, m' := StmtSim(c, code, floor, m, st, s, fuel);
      assert !(lo <= Steps(code, m, n).pc < hi);
    }
    if n: nat :| !(lo <= Steps(code, m, n).pc < hi) {
      var k, m' := StmtSim(c, code, floor, m, st, s, n + 1);
      if Exec(c, s, st, n + 1).OutOfFuel? {
        StaysAt(code, m, k, n, lo, hi);
      }
      assert !Exec(c, s, st, n + 1).OutOfFuel?;
    }
  }

  /** From source tokens to behaviour: the parser accepts the printed statement, consumes exactly its tokens,
      and the machine running what it emitted does what the statement means. */
  lemma {:induction false} CompileAndRun(c: Scope, s: Stmt, p: State, rest: seq<Token>,
                                         floor: int, m: Vm, st: Store, fuel: nat)
      returns (n: nat, m': Vm)
    requires WfStmt(c, s) && p.toks == PrintStmt(s, rest) && MayFollow(s, rest)
    requires Framed(c, floor, m, st, StmtDepth(s)) && m.pc == |p.code|
    ensures var r := StmtSpec(c, p);
      && r.Some? && r.value.toks == rest && p.code <= r.value.code
      && Does(c, r.value.code, floor, m, Exec(c, s, st, fuel), fuel, n, m', |p.code|, |r.value.code|)
  {
    hide StmtSpec, CodeStmt, PrintStmt, Does, Exec;
    ParseStmt(c, s, p, rest);
    var code := StmtSpec(c, p).value.code;
    assert code[|p.code|..] == CodeStmt(c, s, |p.code|);
    n, m' := StmtSim(c, code, floor, m, st, s, fuel);
  }

  /** The two layouts of a loop: code for `for` and code for its `while` form, run from the same store, end
      with the same outcome. */
  lemma {:induction false} ForRunsAsWhile(c: Scope, i: Option<Expr>, t: Option<Expr>, step: Option<Expr>, b: Stmt,
                                          code: seq<int>, code': seq<int>, floor: int, m: Vm, k: Vm, st: Store,
                                          fuel: nat)
      returns (n: nat, m': Vm, l: nat, k': Vm)
    requires var s, w := For(i, t, step, b), AsWhile(i, t, step, b);
      && WfStmt(c, s) && WfStmt(c, w)
      && Framed(c, floor, m, st, StmtDepth(s)) && At(code, m.pc, CodeStmt(c, s, m.pc))
      && Framed(c, floor, k, st, StmtDepth(w)) && At(code', k.pc, CodeStmt(c, w, k.pc))
    ensures var s, w := For(i, t, step, b), AsWhile(i, t, step, b);
      var o := Exec(c, s, st, fuel);
      && Does(c, code, floor, m, o, fuel, n, m', m.pc, m.pc + |CodeStmt(c, s, m.pc)|)
      && Does(c, code', floor, k, o, fuel, l, k', k.pc, k.pc + |CodeStmt(c, w, k.pc)|)
  {
    hide Exec, CodeStmt, Does;
    n, m' := StmtSim(c, code, floor, m, st, For(i, t, step, b), fuel);
    l, k' := StmtSim(c, code', floor, k, st, AsWhile(i, t, step, b), fuel);
    ForMeansWhile(c, i, t, step, b, st, fuel);
  }

  /** A binary operator computes what its instruction does, on any words. */
  lemma {:induction false} OperatorComputes(op: BinOp, x: int, y: int)
    requires IsWord(x) && IsWord(y)
    ensures IsAlu(OpcodeOf(op)) && Computes(OpcodeOf(op), x, y, Apply(op, x, y))
  {
    hide Computes;
    AluIsApply(op, x, y);
    AluComputes(OpcodeOf(op), x, y);
  }
}
