/** The code of an expression computes the expression: the machine, started at the code, ends just past
    it with the value in the accumulator, the variables updated and everything else unchanged. */
module C4ExprSim {
  import opened Words
  import opened C4ParserSpec
  import opened C4Lang
  import opened C4Code
  import opened C4Vm
  import Tok
  import Opc

  // ---------------------------------------------------------------- code placement and runs

  predicate At(code: seq<int>, base: int, part: seq<int>) {
    0 <= base && base + |part| <= |code| && code[base..base + |part|] == part
  }

  lemma AtSplit(code: seq<int>, base: int, f: seq<int>, g: seq<int>)
    requires At(code, base, f + g)
    ensures At(code, base, f) && At(code, base + |f|, g)
  {
    var part := code[base..base + |f + g|];
    assert code[base..base + |f|] == part[..|f|];
    assert code[base + |f|..base + |f| + |g|] == part[|f|..];
  }

  lemma AtWord(code: seq<int>, base: int, part: seq<int>, i: nat)
    requires At(code, base, part) && i < |part|
    ensures 0 <= base + i < |code| && code[base + i] == part[i]
  {
    assert code[base..base + |part|][i] == part[i];
  }

  /** Each of the first n steps starts between lo and hi. */
  predicate Stays(code: seq<int>, m: Vm, n: nat, lo: int, hi: int)
    decreases n
  {
    n == 0 || (lo <= m.pc < hi && Stays(code, Step(code, m), n - 1, lo, hi))
  }

  /** n steps, all started between lo and hi, lead from m to m'. */
  predicate Goes(code: seq<int>, m: Vm, n: nat, m': Vm, lo: int, hi: int) {
    Steps(code, m, n) == m' && Stays(code, m, n, lo, hi)
  }

  lemma {:induction false} StaysWiden(code: seq<int>, m: Vm, n: nat, lo: int, hi: int, lo': int, hi': int)
    requires Stays(code, m, n, lo, hi) && lo' <= lo && hi <= hi'
    ensures Stays(code, m, n, lo', hi')
    decreases n
  {
    if n > 0 { StaysWiden(code, Step(code, m), n - 1, lo, hi, lo', hi'); }
  }

  lemma {:induction false} StaysPlus(code: seq<int>, m: Vm, n: nat, k: nat, lo: int, hi: int)
    requires Stays(code, m, n, lo, hi) && Stays(code, Steps(code, m, n), k, lo, hi)
    ensures Stays(code, m, n + k, lo, hi)
    decreases n
  {
    if n > 0 { StaysPlus(code, Step(code, m), n - 1, k, lo, hi); }
  }

  /** Runs inside two parts of a range make a run inside the range. */
  lemma {:induction false} GoesOn(code: seq<int>, m: Vm, n1: nat, m1: Vm, lo1: int, hi1: int,
                                  n2: nat, m2: Vm, lo2: int, hi2: int, lo: int, hi: int)
    requires Goes(code, m, n1, m1, lo1, hi1) && Goes(code, m1, n2, m2, lo2, hi2)
    requires lo <= lo1 && hi1 <= hi && lo <= lo2 && hi2 <= hi
    ensures Goes(code, m, n1 + n2, m2, lo, hi)
  {
    StaysWiden(code, m, n1, lo1, hi1, lo, hi);
    StaysWiden(code, m1, n2, lo2, hi2, lo, hi);
    StaysPlus(code, m, n1, n2, lo, hi);
    StepsPlus(code, m, n1, n2);
  }

  /** One more step at the end of a run. */
  lemma {:induction false} GoesStep(code: seq<int>, m: Vm, n: nat, m1: Vm, lo1: int, hi1: int, lo: int, hi: int)
    requires Goes(code, m, n, m1, lo1, hi1) && lo <= lo1 && hi1 <= hi && lo <= m1.pc < hi
    ensures Goes(code, m, n + 1, Step(code, m1), lo, hi)
  {
    assert Steps(code, m1, 1) == Step(code, m1) by { assert Steps(code, Step(code, m1), 0) == Step(code, m1); }
    assert Stays(code, m1, 1, lo, hi) by { assert Stays(code, Step(code, m1), 0, lo, hi); }
    GoesOn(code, m, n, m1, lo1, hi1, 1, Step(code, m1), lo, hi, lo, hi);
  }

  /** One step as a run. */
  lemma {:induction false} GoesOnce(code: seq<int>, m: Vm, lo: int, hi: int)
    requires lo <= m.pc < hi
    ensures Goes(code, m, 1, Step(code, m), lo, hi)
  {
    assert Steps(code, m, 1) == Step(code, m) by { assert Steps(code, Step(code, m), 0) == Step(code, m); }
    assert Stays(code, m, 1, lo, hi) by { assert Stays(code, Step(code, m), 0, lo, hi); }
  }

  // ---------------------------------------------------------------- variables in memory

  function Addr(c: Scope, v: nat, bp: int): int {
    if c.Lookup(v).cls == Tok.LOC then bp + c.loc - c.Lookup(v).val else c.Lookup(v).val
  }

  /** The memory words that hold variables. */
  function Cells(c: Scope, bp: int): set<int> {
    set v | v in c.syms && IsVar(c, v) :: Addr(c, v, bp)
  }

  /** A usable frame: variables have words of their own, apart from the saved registers at bp and from the
      free stack between floor and sp. */
  ghost predicate Layout(c: Scope, bp: int, floor: int, sp: int) {
    && sp <= bp
    && (forall v :: IsVar(c, v) ==> !(floor <= Addr(c, v, bp) < sp) && Addr(c, v, bp) != bp && Addr(c, v, bp) != bp + 1)
    && (forall v, w :: IsVar(c, v) && IsVar(c, w) && v != w ==> Addr(c, v, bp) != Addr(c, w, bp))
  }

  /** The machine holds the store: every variable's word is its value. */
  ghost predicate Holds(c: Scope, st: Store, m: Vm) {
    forall v :: IsVar(c, v) ==> v in st && IsWord(st[v]) && Load(m.mem, Addr(c, v, m.bp)) == st[v]
  }

  /** Nothing changed outside the variables and the free stack. */
  ghost predicate Quiet(c: Scope, floor: int, m: Vm, m': Vm) {
    forall a :: a !in Cells(c, m.bp) && !(floor <= a < m.sp) ==> Load(m'.mem, a) == Load(m.mem, a)
  }

  /** The deepest stack of temporaries that the code of e uses. */
  function Depth(e: Expr): nat {
    match e
    case Set(_, rhs) => 1 + Depth(rhs)
    case Bin(_, l, r) => Max(Depth(l), 1 + Depth(r))
    case OrElse(l, r) => Max(Depth(l), Depth(r))
    case AndAlso(l, r) => Max(Depth(l), Depth(r))
    case Choose(t, y, n) => Max(Depth(t), Max(Depth(y), Depth(n)))
    case Not(a) => Max(Depth(a), 1)
    case Compl(a) => Max(Depth(a), 1)
    case Neg(a) => 1 + Depth(a)
    case Pos(a) => Depth(a)
    case Cast(a) => Depth(a)
    case PreStep(_, _) => 2
    case PostStep(_, _) => 2
    case _ => 0
  }

  /** The machine is about to run the code of e: placed at pc, with room for its temporaries. */
  ghost predicate Ready(c: Scope, code: seq<int>, floor: int, m: Vm, st: Store, e: Expr) {
    && Wf(c, e) && 0 <= m.pc && At(code, m.pc, Code(c, e, m.pc))
    && Layout(c, m.bp, floor, m.sp) && floor + Depth(e) <= m.sp && Holds(c, st, m)
  }

  /** After n > 0 steps inside [lo, hi) the machine is at pc with x in the accumulator, the store st in
      the variables, and its stack and frame as before. */
  ghost predicate Ran(c: Scope, code: seq<int>, floor: int, m: Vm, n: nat, m': Vm, x: int, st: Store,
                      lo: int, pc: int, hi: int) {
    && Goes(code, m, n, m', lo, hi) && n > 0
    && m'.pc == pc && m'.sp == m.sp && m'.bp == m.bp && m'.a == x
    && Holds(c, st, m') && Quiet(c, floor, m, m')
  }

  /** The same with x also pushed on the stack. */
  ghost predicate Pushed(c: Scope, code: seq<int>, floor: int, m: Vm, n: nat, m': Vm, x: int, st: Store,
                         lo: int, pc: int, hi: int) {
    && Goes(code, m, n, m', lo, hi) && n > 0
    && m'.pc == pc && m'.sp == m.sp - 1 && m'.bp == m.bp && m'.a == x && Load(m'.mem, m'.sp) == x
    && Holds(c, st, m') && Quiet(c, floor, m, m') && Layout(c, m'.bp, floor, m'.sp) && floor <= m'.sp
  }

  /** The machine has run the code of e with the effect of evaluating e. */
  ghost predicate RanExpr(c: Scope, code: seq<int>, floor: int, m: Vm, st: Store, e: Expr, n: nat, m': Vm)
    requires 0 <= m.pc
  {
    var (x, st') := Eval(c, e, st);
    var hi := m.pc + |Code(c, e, m.pc)|;
    IsWord(x) && Ran(c, code, floor, m, n, m', x, st', m.pc, hi, hi)
  }

  // ---------------------------------------------------------------- single instructions

  lemma {:induction false} ImmRan(c: Scope, code: seq<int>, floor: int, m: Vm, st: Store, w: int)
    requires At(code, m.pc, [Opc.IMM, w]) && Holds(c, st, m)
    ensures Ran(c, code, floor, m, 1, Step(code, m), w, st, m.pc, m.pc + 2, m.pc + 2)
  {
    AtWord(code, m.pc, [Opc.IMM, w], 0);
    AtWord(code, m.pc, [Opc.IMM, w], 1);
    GoesOnce(code, m, m.pc, m.pc + 2);
  }

  /** The address of a variable, or the value of a constant. */
  lemma {:induction false} AddrRan(c: Scope, code: seq<int>, floor: int, m: Vm, st: Store, v: nat)
    requires At(code, m.pc, AddrCode(c, v)) && Holds(c, st, m)
    ensures Ran(c, code, floor, m, 1, Step(code, m), Addr(c, v, m.bp), st, m.pc, m.pc + 2, m.pc + 2)
  {
    AtWord(code, m.pc, AddrCode(c, v), 0);
    AtWord(code, m.pc, AddrCode(c, v), 1);
    GoesOnce(code, m, m.pc, m.pc + 2);
  }

  lemma {:induction false} LoadRan(c: Scope, code: seq<int>, floor: int, m: Vm, st: Store, v: nat)
    requires 0 <= m.pc < |code| && code[m.pc] == Opc.LI
    requires Holds(c, st, m) && IsVar(c, v) && m.a == Addr(c, v, m.bp)
    ensures Ran(c, code, floor, m, 1, Step(code, m), st[v], st, m.pc, m.pc + 1, m.pc + 1)
  {
    GoesOnce(code, m, m.pc, m.pc + 1);
  }

  /** A run that ends where another starts. */
  lemma {:induction false} RanOn(c: Scope, code: seq<int>, floor: int, m: Vm, n1: nat, m1: Vm, x: int, st1: Store,
                                 lo: int, mid: int, hi1: int,
                                 n2: nat, m2: Vm, y: int, st2: Store, lo2: int, pc: int, hi2: int, hi: int)
    requires Ran(c, code, floor, m, n1, m1, x, st1, lo, mid, hi1)
    requires Ran(c, code, floor, m1, n2, m2, y, st2, lo2, pc, hi2)
    requires lo <= lo2 && hi1 <= hi && hi2 <= hi
    ensures Ran(c, code, floor, m, n1 + n2, m2, y, st2, lo, pc, hi)
  {
    GoesOn(code, m, n1, m1, lo, hi1, n2, m2, lo2, hi2, lo, hi);
  }

  lemma {:induction false} PushAfter(c: Scope, code: seq<int>, floor: int, m: Vm, n: nat, m1: Vm, x: int, st: Store,
                                     lo: int, mid: int, hi: int)
    requires Ran(c, code, floor, m, n, m1, x, st, lo, mid, mid) && lo <= mid < hi
    requires 0 <= mid < |code| && code[mid] == Opc.PSH
    requires Layout(c, m.bp, floor, m.sp) && floor < m.sp
    ensures Pushed(c, code, floor, m, n + 1, Step(code, m1), x, st, lo, mid + 1, hi)
  {
    hide Steps, Stays;
    GoesStep(code, m, n, m1, lo, mid, lo, hi);
    var m2 := Step(code, m1);
    forall v | IsVar(c, v)
      ensures v in st && IsWord(st[v]) && Load(m2.mem, Addr(c, v, m2.bp)) == st[v]
    {
      assert Addr(c, v, m.bp) != m.sp - 1;
    }
  }

  /** A pushed word stays on the stack while the code after the push runs. */
  lemma {:induction false} KeepsPushed(c: Scope, code: seq<int>, floor: int, m: Vm, n: nat, m2: Vm, x: int, st: Store,
                                       lo: int, mid: int, hi: int,
                                       n3: nat, m3: Vm, y: int, st3: Store, end: int)
    requires Pushed(c, code, floor, m, n, m2, x, st, lo, mid, hi)
    requires Ran(c, code, floor, m2, n3, m3, y, st3, mid, end, end)
    requires Layout(c, m.bp, floor, m.sp)
    ensures Load(m3.mem, m.sp - 1) == x && Quiet(c, floor, m, m3)
  {
    hide Goes;
    assert m.sp - 1 !in Cells(c, m.bp) by {
      assert forall v :: IsVar(c, v) ==> Addr(c, v, m.bp) != m.sp - 1;
    }
  }

  lemma {:induction false} AluAfter(c: Scope, code: seq<int>, floor: int, m: Vm, n: nat, m2: Vm, x: int, st: Store,
                                    lo: int, mid: int, hi: int,
                                    n3: nat, m3: Vm, y: int, st3: Store, op: int)
    requires Pushed(c, code, floor, m, n, m2, x, st, lo, mid, hi)
    requires Ran(c, code, floor, m2, n3, m3, y, st3, mid, hi - 1, hi - 1)
    requires Layout(c, m.bp, floor, m.sp) && lo <= mid <= hi - 1
    requires 0 <= hi - 1 < |code| && code[hi - 1] == op && IsAlu(op)
    ensures Ran(c, code, floor, m, n + n3 + 1, Step(code, m3), Alu(op, x, y), st3, lo, hi, hi)
  {
    hide Steps, Stays, Alu;
    KeepsPushed(c, code, floor, m, n, m2, x, st, lo, mid, hi, n3, m3, y, st3, hi - 1);
    GoesOn(code, m, n, m2, lo, hi, n3, m3, mid, hi - 1, lo, hi);
    GoesStep(code, m, n + n3, m3, lo, hi, lo, hi);
  }

  lemma {:induction false} StoreAfter(c: Scope, code: seq<int>, floor: int, m: Vm, n: nat, m2: Vm, st: Store,
                                      lo: int, mid: int, hi: int,
                                      n3: nat, m3: Vm, y: int, st3: Store, v: nat)
    requires IsVar(c, v) && Pushed(c, code, floor, m, n, m2, Addr(c, v, m.bp), st, lo, mid, hi)
    requires Ran(c, code, floor, m2, n3, m3, y, st3, mid, hi - 1, hi - 1) && IsWord(y)
    requires Layout(c, m.bp, floor, m.sp) && lo <= mid <= hi - 1
    requires 0 <= hi - 1 < |code| && code[hi - 1] == Opc.SI
    ensures Ran(c, code, floor, m, n + n3 + 1, Step(code, m3), y, st3[v := y], lo, hi, hi)
  {
    hide Steps, Stays;
    KeepsPushed(c, code, floor, m, n, m2, Addr(c, v, m.bp), st, lo, mid, hi, n3, m3, y, st3, hi - 1);
    GoesOn(code, m, n, m2, lo, hi, n3, m3, mid, hi - 1, lo, hi);
    GoesStep(code, m, n + n3, m3, lo, hi, lo, hi);
    assert Addr(c, v, m.bp) in Cells(c, m.bp);
    assert Step(code, m3).mem == m3.mem[Addr(c, v, m.bp) := y];
  }

  /** A branch or jump at the end of a run. */
  lemma {:induction false} BranchAfter(c: Scope, code: seq<int>, floor: int, m: Vm, n: nat, m1: Vm, x: int, st: Store,
                                       lo: int, mid: int, end: int, op: int, target: int, hi: int)
    requires Ran(c, code, floor, m, n, m1, x, st, lo, mid, end) && lo <= mid && end <= hi && mid + 2 <= hi
    requires At(code, mid, [op, target]) && op in {Opc.BZ, Opc.BNZ, Opc.JMP}
    ensures Ran(c, code, floor, m, n + 1, Step(code, m1), x, st, lo,
                if op == Opc.JMP || (op == Opc.BZ && x == 0) || (op == Opc.BNZ && x != 0) then target else mid + 2, hi)
  {
    hide Steps, Stays;
    AtWord(code, mid, [op, target], 0);
    AtWord(code, mid, [op, target], 1);
    GoesStep(code, m, n, m1, lo, end, lo, hi);
  }

  lemma {:induction false} AluIsApply(op: BinOp, x: int, y: int)
    ensures IsAlu(OpcodeOf(op)) && Alu(OpcodeOf(op), x, y) == Apply(op, x, y) && IsWord(Apply(op, x, y))
  {
  }

  // ---------------------------------------------------------------- where the parts of a tree's code are

  lemma {:induction false} AtThree(code: seq<int>, lo: int, f: seq<int>, g: seq<int>, h: seq<int>)
    requires At(code, lo, f + g + h)
    ensures At(code, lo, f) && At(code, lo + |f|, g) && At(code, lo + |f| + |g|, h)
  {
    hide At;
    AtSplit(code, lo, f + g, h);
    AtSplit(code, lo, f, g);
  }

  lemma {:induction false} AtSet(c: Scope, code: seq<int>, lo: nat, v: nat, rhs: Expr)
    requires At(code, lo, Code(c, Set(v, rhs), lo))
    ensures var cr := Code(c, rhs, lo + 3);
      && |Code(c, Set(v, rhs), lo)| == 4 + |cr| && lo + 4 + |cr| <= |code|
      && At(code, lo, AddrCode(c, v)) && code[lo + 2] == Opc.PSH && At(code, lo + 3, cr)
      && code[lo + 3 + |cr|] == Opc.SI
  {
    var cr := Code(c, rhs, lo + 3);
    AtThree(code, lo, AddrCode(c, v) + [Opc.PSH], cr, [Opc.SI]);
    AtSplit(code, lo, AddrCode(c, v), [Opc.PSH]);
    AtWord(code, lo + 2, [Opc.PSH], 0);
    AtWord(code, lo + 3 + |cr|, [Opc.SI], 0);
  }

  lemma {:induction false} AtBin(c: Scope, code: seq<int>, lo: nat, op: BinOp, l: Expr, r: Expr)
    requires At(code, lo, Code(c, Bin(op, l, r), lo))
    ensures var cl := Code(c, l, lo);
      var mid := lo + |cl| + 1;
      var cr := Code(c, r, mid);
      && lo + |Code(c, Bin(op, l, r), lo)| == mid + |cr| + 1 <= |code|
      && At(code, lo, cl) && code[mid - 1] == Opc.PSH && At(code, mid, cr) && code[mid + |cr|] == OpcodeOf(op)
  {
    hide Code, At;
    var cl := Code(c, l, lo);
    var cr := Code(c, r, lo + |cl| + 1);
    BinUnfold(c, op, l, r, lo, lo + |cl| + 1);
    AtThree(code, lo, cl + [Opc.PSH], cr, [OpcodeOf(op)]);
    AtSplit(code, lo, cl, [Opc.PSH]);
    AtWord(code, lo + |cl|, [Opc.PSH], 0);
    AtWord(code, lo + |cl| + 1 + |cr|, [OpcodeOf(op)], 0);
  }

  lemma {:induction false} AtShort(c: Scope, code: seq<int>, lo: nat, e: Expr, branch: int)
    requires (e.OrElse? && branch == Opc.BNZ) || (e.AndAlso? && branch == Opc.BZ)
    requires At(code, lo, Code(c, e, lo))
    ensures var cl := Code(c, e.left, lo);
      var mid := lo + |cl| + 2;
      var cr := Code(c, e.right, mid);
      && lo + |Code(c, e, lo)| == mid + |cr|
      && At(code, lo, cl) && At(code, mid - 2, [branch, mid + |cr|]) && At(code, mid, cr)
  {
    var cl := Code(c, e.left, lo);
    var mid := lo + |cl| + 2;
    var cr := Code(c, e.right, mid);
    AtThree(code, lo, cl, [branch, mid + |cr|], cr);
  }

  /** Two alternatives behind a test. */
  lemma {:induction false} AtDiamond(code: seq<int>, lo: int, ct: seq<int>, cy: seq<int>, cn: seq<int>, no: int,
                                     hi: int)
    requires At(code, lo, ct + [Opc.BZ, no] + cy + [Opc.JMP, hi] + cn)
    requires no == lo + |ct| + 2 + |cy| + 2
    ensures At(code, lo, ct) && At(code, lo + |ct|, [Opc.BZ, no]) && At(code, lo + |ct| + 2, cy)
    ensures At(code, no - 2, [Opc.JMP, hi]) && At(code, no, cn)
  {
    AtThree(code, lo, ct + [Opc.BZ, no] + cy, [Opc.JMP, hi], cn);
    AtThree(code, lo, ct, [Opc.BZ, no], cy);
  }

  /** The parts of the code of a conditional. */
  ghost predicate ChooseParts(c: Scope, code: seq<int>, lo: nat, t: Expr, y: Expr, f: Expr) {
    var ct := Code(c, t, lo);
    var yes := lo + |ct| + 2;
    var cy := Code(c, y, yes);
    var no := yes + |cy| + 2;
    var cf := Code(c, f, no);
    && lo + |Code(c, Choose(t, y, f), lo)| == no + |cf|
    && At(code, lo, ct) && At(code, yes - 2, [Opc.BZ, no]) && At(code, yes, cy)
    && At(code, no - 2, [Opc.JMP, no + |cf|]) && At(code, no, cf)
  }

  lemma {:induction false} AtChoose(c: Scope, code: seq<int>, lo: nat, t: Expr, y: Expr, f: Expr)
    requires At(code, lo, Code(c, Choose(t, y, f), lo))
    ensures ChooseParts(c, code, lo, t, y, f)
  {
    hide Code, At;
    var ct := Code(c, t, lo);
    var cy := Code(c, y, lo + |ct| + 2);
    var no := lo + |ct| + 2 + |cy| + 2;
    var cf := Code(c, f, no);
    ChooseUnfold(c, t, y, f, lo, lo + |ct| + 2, no);
    AtDiamond(code, lo, ct, cy, cf, no, no + |cf|);
  }

  lemma {:induction false} AtNeg(c: Scope, code: seq<int>, lo: nat, a: Expr)
    requires !a.Lit? && At(code, lo, Code(c, Neg(a), lo))
    ensures var ca := Code(c, a, lo + 3);
      && |Code(c, Neg(a), lo)| == 4 + |ca| && lo + 4 + |ca| <= |code|
      && At(code, lo, [Opc.IMM, -1]) && code[lo + 2] == Opc.PSH && At(code, lo + 3, ca)
      && code[lo + 3 + |ca|] == Opc.MUL
  {
    var ca := Code(c, a, lo + 3);
    AtThree(code, lo, [Opc.IMM, -1, Opc.PSH], ca, [Opc.MUL]);
    assert [Opc.IMM, -1, Opc.PSH] == [Opc.IMM, -1] + [Opc.PSH];
    AtSplit(code, lo, [Opc.IMM, -1], [Opc.PSH]);
    AtWord(code, lo + 2, [Opc.PSH], 0);
    AtWord(code, lo + 3 + |ca|, [Opc.MUL], 0);
  }

  lemma {:induction false} AtUnary(c: Scope, code: seq<int>, lo: nat, e: Expr, a: Expr, w: int, op: int)
    requires (e == Not(a) && w == 0 && op == Opc.EQ) || (e == Compl(a) && w == -1 && op == Opc.XOR)
    requires At(code, lo, Code(c, e, lo))
    ensures var ca := Code(c, a, lo);
      && |Code(c, e, lo)| == |ca| + 4
      && At(code, lo, ca) && At(code, lo + |ca|, [Opc.PSH, Opc.IMM, w, op])
  {
    hide At;
    AtSplit(code, lo, Code(c, a, lo), [Opc.PSH, Opc.IMM, w, op]);
  }

  lemma {:induction false} AtPostStep(c: Scope, code: seq<int>, lo: nat, v: nat, up: bool)
    requires At(code, lo, Code(c, PostStep(v, up), lo))
    ensures At(code, lo, Code(c, PreStep(v, up), lo)) && |Code(c, PreStep(v, up), lo)| == 9
    ensures At(code, lo + 9, [Opc.PSH, Opc.IMM, 1, StepOp(!up)]) && |Code(c, PostStep(v, up), lo)| == 13
  {
    var part, undo := Code(c, PreStep(v, up), lo), [Opc.PSH, Opc.IMM, 1, StepOp(!up)];
    assert Code(c, PostStep(v, up), lo) == part + undo;
    AtSplit(code, lo, part, undo);
  }

  lemma {:induction false} AtStep(c: Scope, code: seq<int>, lo: nat, v: nat, up: bool)
    requires At(code, lo, Code(c, PreStep(v, up), lo))
    ensures |Code(c, PreStep(v, up), lo)| == 9 && lo + 9 <= |code|
    ensures At(code, lo, AddrCode(c, v)) && code[lo + 2] == Opc.PSH && code[lo + 3] == Opc.LI
    ensures At(code, lo + 4, [Opc.PSH, Opc.IMM, 1, StepOp(up)]) && code[lo + 8] == Opc.SI
  {
    var tail := [Opc.PSH, Opc.IMM, 1, StepOp(up), Opc.SI];
    assert tail == [Opc.PSH, Opc.IMM, 1, StepOp(up)] + [Opc.SI];
    AtThree(code, lo, AddrCode(c, v), [Opc.PSH, Opc.LI], tail);
    AtSplit(code, lo + 4, [Opc.PSH, Opc.IMM, 1, StepOp(up)], [Opc.SI]);
    AtWord(code, lo + 2, [Opc.PSH, Opc.LI], 0);
    AtWord(code, lo + 2, [Opc.PSH, Opc.LI], 1);
    AtWord(code, lo + 8, [Opc.SI], 0);
  }

  // ---------------------------------------------------------------- expressions

  lemma {:induction false} ExprSim(c: Scope, code: seq<int>, floor: int, m: Vm, st: Store, e: Expr)
      returns (n: nat, m': Vm)
    requires Ready(c, code, floor, m, st, e)
    ensures RanExpr(c, code, floor, m, st, e, n, m')
    decreases e, 1
  {
    hide Ran;
    match e {
      case Lit(x) => ImmRan(c, code, floor, m, st, x); n, m' := 1, Step(code, m);
      case SizeofInt => ImmRan(c, code, floor, m, st, SIZEOF_INT); n, m' := 1, Step(code, m);
      case Var(v) => n, m' := VarSim(c, code, floor, m, st, v);
      case Set(v, rhs) => n, m' := SetSim(c, code, floor, m, st, v, rhs);
      case Bin(op, l, r) => n, m' := BinSim(c, code, floor, m, st, op, l, r);
      case OrElse(l, r) => n, m' := ShortSim(c, code, floor, m, st, e, Opc.BNZ);
      case AndAlso(l, r) => n, m' := ShortSim(c, code, floor, m, st, e, Opc.BZ);
      case Choose(t, y, f) => n, m' := ChooseSim(c, code, floor, m, st, t, y, f);
      case Not(a) => n, m' := UnarySim(c, code, floor, m, st, e, a, 0, Opc.EQ);
      case Compl(a) => n, m' := UnarySim(c, code, floor, m, st, e, a, -1, Opc.XOR);
      case Neg(a) => n, m' := NegSim(c, code, floor, m, st, a);
      case Pos(a) => n, m' := ExprSim(c, code, floor, m, st, a);
      case Cast(a) => n, m' := ExprSim(c, code, floor, m, st, a);
      case PreStep(v, up) => n, m' := StepSim(c, code, floor, m, st, v, up);
      case PostStep(v, up) => n, m' := PostStepSim(c, code, floor, m, st, v, up);
    }
  }

  lemma {:induction false} VarSim(c: Scope, code: seq<int>, floor: int, m: Vm, st: Store, v: nat)
      returns (n: nat, m': Vm)
    requires Ready(c, code, floor, m, st, Var(v))
    ensures RanExpr(c, code, floor, m, st, Var(v), n, m')
  {
    hide Steps, Stays;
    var lo, isConst := m.pc, c.Lookup(v).cls == Tok.NUM;
    AtSplit(code, lo, AddrCode(c, v), if isConst then [] else [Opc.LI]);
    AddrRan(c, code, floor, m, st, v);
    n, m' := 1, Step(code, m);
    if !isConst {
      AtWord(code, lo + 2, [Opc.LI], 0);
      LoadRan(c, code, floor, m', st, v);
      RanOn(c, code, floor, m, 1, m', m'.a, st, lo, lo + 2, lo + 2,
            1, Step(code, m'), st[v], st, lo + 2, lo + 3, lo + 3, lo + 3);
      n, m' := 2, Step(code, m');
    }
  }

  lemma {:induction false} SetSim(c: Scope, code: seq<int>, floor: int, m: Vm, st: Store, v: nat, rhs: Expr)
      returns (n: nat, m': Vm)
    requires Ready(c, code, floor, m, st, Set(v, rhs))
    ensures RanExpr(c, code, floor, m, st, Set(v, rhs), n, m')
    decreases rhs, 2
  {
    hide Goes, Step, Code, At, Quiet;
    var lo, cr := m.pc, Code(c, rhs, m.pc + 3);
    var hi := lo + 3 + |cr| + 1;
    AtSet(c, code, lo, v, rhs);
    AddrRan(c, code, floor, m, st, v);
    var m1 := Step(code, m);
    PushAfter(c, code, floor, m, 1, m1, Addr(c, v, m.bp), st, lo, lo + 2, hi);
    var m2 := Step(code, m1);
    var n3, m3 := ExprSim(c, code, floor, m2, st, rhs);
    StoreAfter(c, code, floor, m, 2, m2, st, lo, lo + 3, hi, n3, m3, m3.a, Eval(c, rhs, st).1, v);
    n, m' := 2 + n3 + 1, Step(code, m3);
  }

  lemma {:induction false} BinSim(c: Scope, code: seq<int>, floor: int, m: Vm, st: Store, op: BinOp, l: Expr, r: Expr)
      returns (n: nat, m': Vm)
    requires Ready(c, code, floor, m, st, Bin(op, l, r))
    ensures RanExpr(c, code, floor, m, st, Bin(op, l, r), n, m')
    decreases Bin(op, l, r), 0
  {
    hide Goes, Step, Code, At, Quiet, Alu, Apply;
    var lo, cl := m.pc, Code(c, l, m.pc);
    var mid := lo + |cl| + 1;
    var cr := Code(c, r, mid);
    var hi := mid + |cr| + 1;
    AtBin(c, code, lo, op, l, r);
    var n1, m1 := ExprSim(c, code, floor, m, st, l);
    var (x, st1) := Eval(c, l, st);
    PushAfter(c, code, floor, m, n1, m1, x, st1, lo, mid - 1, hi);
    var m2 := Step(code, m1);
    var n3, m3 := ExprSim(c, code, floor, m2, st1, r);
    var (y, st2) := Eval(c, r, st1);
    AluIsApply(op, x, y);
    AluAfter(c, code, floor, m, n1 + 1, m2, x, st1, lo, mid, hi, n3, m3, y, st2, OpcodeOf(op));
    n, m' := n1 + 1 + n3 + 1, Step(code, m3);
  }

  /** || and &&. */
  lemma {:induction false} ShortSim(c: Scope, code: seq<int>, floor: int, m: Vm, st: Store, e: Expr, branch: int)
      returns (n: nat, m': Vm)
    requires (e.OrElse? && branch == Opc.BNZ) || (e.AndAlso? && branch == Opc.BZ)
    requires Ready(c, code, floor, m, st, e)
    ensures RanExpr(c, code, floor, m, st, e, n, m')
    decreases e, 0
  {
    hide Goes, Step, Code, At, Quiet;
    var l, r := e.left, e.right;
    var lo, cl := m.pc, Code(c, l, m.pc);
    var mid := lo + |cl| + 2;
    var cr := Code(c, r, mid);
    var hi := mid + |cr|;
    AtShort(c, code, lo, e, branch);
    var n1, m1 := ExprSim(c, code, floor, m, st, l);
    var (x, st1) := Eval(c, l, st);
    BranchAfter(c, code, floor, m, n1, m1, x, st1, lo, mid - 2, mid - 2, branch, hi, hi);
    var m2 := Step(code, m1);
    n, m' := n1 + 1, m2;
    if (x != 0) == e.AndAlso? {
      var n3, m3 := ExprSim(c, code, floor, m2, st1, r);
      var (y, st2) := Eval(c, r, st1);
      RanOn(c, code, floor, m, n, m2, x, st1, lo, mid, hi, n3, m3, y, st2, mid, hi, hi, hi);
      n, m' := n + n3, m3;
    }
  }

  lemma {:induction false} ChooseSim(c: Scope, code: seq<int>, floor: int, m: Vm, st: Store, t: Expr, y: Expr, f: Expr)
      returns (n: nat, m': Vm)
    requires Ready(c, code, floor, m, st, Choose(t, y, f))
    ensures RanExpr(c, code, floor, m, st, Choose(t, y, f), n, m')
    decreases Choose(t, y, f), 0
  {
    hide Goes, Step, Code, At, Quiet;
    var lo, ct := m.pc, Code(c, t, m.pc);
    var yes := lo + |ct| + 2;
    var cy := Code(c, y, yes);
    var no := yes + |cy| + 2;
    var cf := Code(c, f, no);
    var hi := no + |cf|;
    AtChoose(c, code, lo, t, y, f);
    var n1, m1 := ExprSim(c, code, floor, m, st, t);
    var (x, st1) := Eval(c, t, st);
    BranchAfter(c, code, floor, m, n1, m1, x, st1, lo, yes - 2, yes - 2, Opc.BZ, no, hi);
    var m2 := Step(code, m1);
    if x != 0 {
      var n3, m3 := ExprSim(c, code, floor, m2, st1, y);
      var (z, st2) := Eval(c, y, st1);
      RanOn(c, code, floor, m, n1 + 1, m2, x, st1, lo, yes, hi, n3, m3, z, st2, yes, no - 2, no - 2, hi);
      BranchAfter(c, code, floor, m, n1 + 1 + n3, m3, z, st2, lo, no - 2, hi, Opc.JMP, hi, hi);
      n, m' := n1 + 1 + n3 + 1, Step(code, m3);
    } else {
      var n3, m3 := ExprSim(c, code, floor, m2, st1, f);
      var (z, st2) := Eval(c, f, st1);
      RanOn(c, code, floor, m, n1 + 1, m2, x, st1, lo, no, hi, n3, m3, z, st2, no, hi, hi, hi);
      n, m' := n1 + 1 + n3, m3;
    }
  }

  /** A run, then its value combined with a constant: push, immediate, operator. */
  lemma {:induction false} ConstAfter(c: Scope, code: seq<int>, floor: int, m: Vm, n: nat, m1: Vm, x: int, st: Store,
                                      lo: int, mid: int, w: int, op: int)
      returns (m': Vm)
    requires Ran(c, code, floor, m, n, m1, x, st, lo, mid, mid) && lo <= mid
    requires At(code, mid, [Opc.PSH, Opc.IMM, w, op]) && IsAlu(op)
    requires Layout(c, m.bp, floor, m.sp) && floor < m.sp
    ensures Ran(c, code, floor, m, n + 3, m', Alu(op, x, w), st, lo, mid + 4, mid + 4)
  {
    hide Goes, Step, At, Quiet, Alu;
    assert [Opc.PSH, Opc.IMM, w, op] == [Opc.PSH] + ([Opc.IMM, w] + [op]);
    AtSplit(code, mid, [Opc.PSH], [Opc.IMM, w] + [op]);
    AtSplit(code, mid + 1, [Opc.IMM, w], [op]);
    AtWord(code, mid, [Opc.PSH], 0);
    AtWord(code, mid + 3, [op], 0);
    PushAfter(c, code, floor, m, n, m1, x, st, lo, mid, mid + 4);
    var m2 := Step(code, m1);
    ImmRan(c, code, floor, m2, st, w);
    var m3 := Step(code, m2);
    AluAfter(c, code, floor, m, n + 1, m2, x, st, lo, mid + 1, mid + 4, 1, m3, w, st, op);
    m' := Step(code, m3);
  }

  /** ! and ~: the operand against a constant. */
  lemma {:induction false} UnarySim(c: Scope, code: seq<int>, floor: int, m: Vm, st: Store, e: Expr, a: Expr,
                                    w: int, op: int)
      returns (n: nat, m': Vm)
    requires (e == Not(a) && w == 0 && op == Opc.EQ) || (e == Compl(a) && w == -1 && op == Opc.XOR)
    requires Ready(c, code, floor, m, st, e)
    ensures RanExpr(c, code, floor, m, st, e, n, m')
    decreases e, 0
  {
    hide Goes, Step, Code, At, Quiet;
    var lo, ca := m.pc, Code(c, a, m.pc);
    AtUnary(c, code, lo, e, a, w, op);
    var n1, m1 := ExprSim(c, code, floor, m, st, a);
    var (x, st1) := Eval(c, a, st);
    m' := ConstAfter(c, code, floor, m, n1, m1, x, st1, lo, lo + |ca|, w, op);
    n := n1 + 3;
  }

  lemma {:induction false} NegLitSim(c: Scope, code: seq<int>, floor: int, m: Vm, st: Store, a: Expr)
      returns (n: nat, m': Vm)
    requires Ready(c, code, floor, m, st, Neg(a)) && a.Lit?
    ensures RanExpr(c, code, floor, m, st, Neg(a), n, m')
  {
    hide Goes, Step, At, Quiet;
    assert Eval(c, a, st) == (a.n, st);
    ImmRan(c, code, floor, m, st, Wrap(-a.n));
    n, m' := 1, Step(code, m);
  }

  lemma {:induction false} NegSim(c: Scope, code: seq<int>, floor: int, m: Vm, st: Store, a: Expr)
      returns (n: nat, m': Vm)
    requires Ready(c, code, floor, m, st, Neg(a))
    ensures RanExpr(c, code, floor, m, st, Neg(a), n, m')
    decreases a, 2
  {
    hide Goes, Step, At, Quiet, Code;
    if a.Lit? {
      n, m' := NegLitSim(c, code, floor, m, st, a);
      return;
    }
    var lo, ca := m.pc, Code(c, a, m.pc + 3);
    var hi := lo + 3 + |ca| + 1;
    AtNeg(c, code, lo, a);
    ImmRan(c, code, floor, m, st, -1);
    var m1 := Step(code, m);
    PushAfter(c, code, floor, m, 1, m1, -1, st, lo, lo + 2, hi);
    var m2 := Step(code, m1);
    var n3, m3 := ExprSim(c, code, floor, m2, st, a);
    var (y, st2) := Eval(c, a, st);
    AluAfter(c, code, floor, m, 2, m2, -1, st, lo, lo + 3, hi, n3, m3, y, st2, Opc.MUL);
    n, m' := 2 + n3 + 1, Step(code, m3);
  }

  lemma {:induction false} StepSim(c: Scope, code: seq<int>, floor: int, m: Vm, st: Store, v: nat, up: bool)
      returns (n: nat, m': Vm)
    requires Ready(c, code, floor, m, st, PreStep(v, up))
    ensures RanExpr(c, code, floor, m, st, PreStep(v, up), n, m')
  {
    hide Goes, Step, Code, At, Quiet;
    var lo := m.pc;
    var hi := lo + 9;
    AtStep(c, code, lo, v, up);
    AddrRan(c, code, floor, m, st, v);
    var m1 := Step(code, m);
    PushAfter(c, code, floor, m, 1, m1, Addr(c, v, m.bp), st, lo, lo + 2, hi);
    var m2 := Step(code, m1);
    LoadRan(c, code, floor, m2, st, v);
    var m3 := Step(code, m2);
    var m6 := ConstAfter(c, code, floor, m2, 1, m3, st[v], st, lo + 3, lo + 4, 1, StepOp(up));
    StoreAfter(c, code, floor, m, 2, m2, st, lo, lo + 3, hi, 4, m6, m6.a, st, v);
    n, m' := 7, Step(code, m6);
  }

  lemma {:induction false} PostStepSim(c: Scope, code: seq<int>, floor: int, m: Vm, st: Store, v: nat, up: bool)
      returns (n: nat, m': Vm)
    requires Ready(c, code, floor, m, st, PostStep(v, up))
    ensures RanExpr(c, code, floor, m, st, PostStep(v, up), n, m')
  {
    hide Goes, Step, Code, At, Quiet;
    var lo, mid := m.pc, m.pc + 9;
    AtPostStep(c, code, lo, v, up);
    var n1, m1 := StepSim(c, code, floor, m, st, v, up);
    var (x, st1) := Eval(c, PreStep(v, up), st);
    m' := ConstAfter(c, code, floor, m, n1, m1, x, st1, lo, mid, 1, StepOp(!up));
    n := n1 + 3;
  }
}
