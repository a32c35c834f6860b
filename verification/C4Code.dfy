/** The stack-machine code of a syntax tree. Branch targets are code positions, so the code depends on
    the position `base` where it starts. */
module C4Code {
  import opened Wrappers
  import opened Words
  import opened C4ParserSpec
  import opened C4Lang
  import Tok
  import Opc

  function OpcodeOf(op: BinOp): int {
    match op
    case BitOr => Opc.OR
    case BitXor => Opc.XOR
    case BitAnd => Opc.AND
    case Equal => Opc.EQ
    case NotEqual => Opc.NE
    case Less => Opc.LT
    case Greater => Opc.GT
    case AtMost => Opc.LE
    case AtLeast => Opc.GE
    case ShiftLeft => Opc.SHL
    case ShiftRight => Opc.SHR
    case Plus => Opc.ADD
    case Minus => Opc.SUB
    case Times => Opc.MUL
    case Over => Opc.DIV
    case Modulo => Opc.MOD
  }

  /** Two words that leave the address of a variable (or a constant's value) in the accumulator. */
  function AddrCode(c: Scope, v: nat): (r: seq<int>)
    ensures |r| == 2
  {
    if c.Lookup(v).cls == Tok.LOC then [Opc.LEA, c.loc - c.Lookup(v).val] else [Opc.IMM, c.Lookup(v).val]
  }

  function StepOp(up: bool): int {
    if up then Opc.ADD else Opc.SUB
  }

  function Code(c: Scope, e: Expr, base: nat): seq<int> {
    match e
    case Lit(n) => [Opc.IMM, n]
    case Var(v) => AddrCode(c, v) + if c.Lookup(v).cls == Tok.NUM then [] else [Opc.LI]
    case SizeofInt => [Opc.IMM, SIZEOF_INT]
    case Set(v, rhs) => AddrCode(c, v) + [Opc.PSH] + Code(c, rhs, base + 3) + [Opc.SI]
    case Bin(op, l, r) =>
      var cl := Code(c, l, base);
      cl + [Opc.PSH] + Code(c, r, base + |cl| + 1) + [OpcodeOf(op)]
    case OrElse(l, r) =>
      var cl := Code(c, l, base);
      var cr := Code(c, r, base + |cl| + 2);
      cl + [Opc.BNZ, base + |cl| + 2 + |cr|] + cr
    case AndAlso(l, r) =>
      var cl := Code(c, l, base);
      var cr := Code(c, r, base + |cl| + 2);
      cl + [Opc.BZ, base + |cl| + 2 + |cr|] + cr
    case Choose(t, y, n) =>
      var ct := Code(c, t, base);
      var cy := Code(c, y, base + |ct| + 2);
      var no := base + |ct| + 2 + |cy| + 2;
      var cn := Code(c, n, no);
      ct + [Opc.BZ, no] + cy + [Opc.JMP, no + |cn|] + cn
    case Not(a) => Code(c, a, base) + [Opc.PSH, Opc.IMM, 0, Opc.EQ]
    case Compl(a) => Code(c, a, base) + [Opc.PSH, Opc.IMM, -1, Opc.XOR]
    case Neg(a) =>
      if a.Lit? then [Opc.IMM, Wrap(-a.n)] else [Opc.IMM, -1, Opc.PSH] + Code(c, a, base + 3) + [Opc.MUL]
    case Pos(a) => Code(c, a, base)
    case Cast(a) => Code(c, a, base)
    case PreStep(v, up) => AddrCode(c, v) + [Opc.PSH, Opc.LI] + [Opc.PSH, Opc.IMM, 1, StepOp(up), Opc.SI]
    case PostStep(v, up) =>
      AddrCode(c, v) + [Opc.PSH, Opc.LI]
      + [Opc.PSH, Opc.IMM, 1, StepOp(up), Opc.SI, Opc.PSH, Opc.IMM, 1, StepOp(!up)]
  }

  function CodeOpt(c: Scope, o: Option<Expr>, base: nat): seq<int> {
    if o.Some? then Code(c, o.value, base) else []
  }

  function CodeStmt(c: Scope, s: Stmt, base: nat): seq<int> {
    match s
    case If(t, y) =>
      var ct := Code(c, t, base);
      var cy := CodeStmt(c, y, base + |ct| + 2);
      ct + [Opc.BZ, base + |ct| + 2 + |cy|] + cy
    case IfElse(t, y, n) =>
      var ct := Code(c, t, base);
      var cy := CodeStmt(c, y, base + |ct| + 2);
      var no := base + |ct| + 2 + |cy| + 2;
      var cn := CodeStmt(c, n, no);
      ct + [Opc.BZ, no] + cy + [Opc.JMP, no + |cn|] + cn
    case While(t, b) =>
      var ct := Code(c, t, base);
      var cb := CodeStmt(c, b, base + |ct| + 2);
      ct + [Opc.BZ, base + |ct| + 2 + |cb| + 2] + cb + [Opc.JMP, base]
    case For(i, t, step, b) =>
      var ci := CodeOpt(c, i, base);
      var test := base + |ci|;
      var ct := Code(c, Test(t), test);
      var next := test + |ct| + 4;
      var cs := CodeOpt(c, step, next);
      var body := next + |cs| + 2;
      var cb := CodeStmt(c, b, body);
      ci + (ct + [Opc.BZ, body + |cb| + 2, Opc.JMP, body] + cs + [Opc.JMP, test] + cb + [Opc.JMP, next])
    case Return(r) => CodeOpt(c, r, base) + [Opc.LEV]
    case Block(ss) => CodeStmts(c, ss, base)
    case Skip => []
    case Do(e) => Code(c, e, base)
  }

  function CodeStmts(c: Scope, ss: Stmts, base: nat): seq<int> {
    match ss
    case Nil => []
    case Cons(s, tail) =>
      var cs := CodeStmt(c, s, base);
      cs + CodeStmts(c, tail, base + |cs|)
  }

  // Layouts with the positions of the parts named.

  lemma {:induction false} BinUnfold(c: Scope, op: BinOp, l: Expr, r: Expr, base: nat, mid: nat)
    requires mid == base + |Code(c, l, base)| + 1
    ensures Code(c, Bin(op, l, r), base) == Code(c, l, base) + [Opc.PSH] + Code(c, r, mid) + [OpcodeOf(op)]
  {
  }

  lemma {:induction false} ChooseUnfold(c: Scope, t: Expr, y: Expr, n: Expr, base: nat, yes: nat, no: nat)
    requires yes == base + |Code(c, t, base)| + 2 && no == yes + |Code(c, y, yes)| + 2
    ensures Code(c, Choose(t, y, n), base)
         == Code(c, t, base) + [Opc.BZ, no] + Code(c, y, yes) + [Opc.JMP, no + |Code(c, n, no)|] + Code(c, n, no)
  {
  }

  lemma {:induction false} IfElseUnfold(c: Scope, t: Expr, y: Stmt, n: Stmt, base: nat, yes: nat, no: nat)
    requires yes == base + |Code(c, t, base)| + 2 && no == yes + |CodeStmt(c, y, yes)| + 2
    ensures CodeStmt(c, IfElse(t, y, n), base)
         == Code(c, t, base) + [Opc.BZ, no] + CodeStmt(c, y, yes)
            + [Opc.JMP, no + |CodeStmt(c, n, no)|] + CodeStmt(c, n, no)
  {
    hide Code;
  }

  lemma {:induction false} ForUnfold(c: Scope, i: Option<Expr>, t: Option<Expr>, step: Option<Expr>, b: Stmt,
                                     base: nat, test: nat, next: nat, body: nat)
    requires test == base + |CodeOpt(c, i, base)| && next == test + |Code(c, Test(t), test)| + 4
    requires body == next + |CodeOpt(c, step, next)| + 2
    ensures CodeStmt(c, For(i, t, step, b), base)
         == CodeOpt(c, i, base)
            + (Code(c, Test(t), test) + [Opc.BZ, body + |CodeStmt(c, b, body)| + 2, Opc.JMP, body]
               + CodeOpt(c, step, next) + [Opc.JMP, test] + CodeStmt(c, b, body) + [Opc.JMP, next])
  {
    hide Code, CodeOpt;
  }
}
