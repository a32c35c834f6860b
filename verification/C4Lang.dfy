/** Syntax trees of c4's int language, their tokens with as few parentheses as the token order allows,
    and their meaning. */
module C4Lang {
  import opened Wrappers
  import opened Words
  import opened C4ParserSpec
  import opened Tok
  import Ty

  datatype BinOp =
    | BitOr | BitXor | BitAnd | Equal | NotEqual | Less | Greater | AtMost | AtLeast
    | ShiftLeft | ShiftRight | Plus | Minus | Times | Over | Modulo

  datatype Expr =
    | Lit(n: int)
    | Var(v: nat)
    | SizeofInt
    | Set(v: nat, rhs: Expr)
    | Bin(op: BinOp, left: Expr, right: Expr)
    | OrElse(left: Expr, right: Expr)
    | AndAlso(left: Expr, right: Expr)
    | Choose(cond: Expr, yes: Expr, no: Expr)
    | Not(arg: Expr)
    | Compl(arg: Expr)
    | Neg(arg: Expr)
    | Pos(arg: Expr)
    | Cast(arg: Expr)
    | PreStep(v: nat, up: bool)
    | PostStep(v: nat, up: bool)

  datatype Stmt =
    | If(cond: Expr, yes: Stmt)
    | IfElse(cond: Expr, yes: Stmt, no: Stmt)
    | While(cond: Expr, body: Stmt)
    | For(init: Option<Expr>, test: Option<Expr>, step: Option<Expr>, body: Stmt)
    | Return(result: Option<Expr>)
    | Block(stmts: Stmts)
    | Skip
    | Do(e: Expr)

  datatype Stmts = Nil | Cons(head: Stmt, tail: Stmts)

  // ---------------------------------------------------------------- well-formed trees

  predicate IsVar(c: Scope, v: nat) {
    v in c.syms && (c.syms[v].cls == LOC || c.syms[v].cls == GLO) && c.syms[v].typ == Ty.INT
  }

  /** An int variable or an enumeration constant. */
  predicate IsName(c: Scope, v: nat) {
    IsVar(c, v) || (v in c.syms && c.syms[v].cls == NUM && IsWord(c.syms[v].val))
  }

  function Count(bad: bool): nat {
    if bad then 1 else 0
  }

  /** How many names and literals of the tree are not an int variable, constant or word in this scope. */
  function Faults(c: Scope, e: Expr): nat {
    match e
    case Lit(n) => Count(!IsWord(n))
    case Var(v) => Count(!IsName(c, v))
    case SizeofInt => 0
    case Set(v, rhs) => Count(!IsVar(c, v)) + Faults(c, rhs)
    case Bin(_, l, r) => Faults(c, l) + Faults(c, r)
    case OrElse(l, r) => Faults(c, l) + Faults(c, r)
    case AndAlso(l, r) => Faults(c, l) + Faults(c, r)
    case Choose(t, y, n) => Faults(c, t) + Faults(c, y) + Faults(c, n)
    case Not(a) => Faults(c, a)
    case Compl(a) => Faults(c, a)
    case Neg(a) => Faults(c, a)
    case Pos(a) => Faults(c, a)
    case Cast(a) => Faults(c, a)
    case PreStep(v, _) => Count(!IsVar(c, v))
    case PostStep(v, _) => Count(!IsVar(c, v))
  }

  function OptFaults(c: Scope, o: Option<Expr>): nat {
    if o.Some? then Faults(c, o.value) else 0
  }

  function StmtFaults(c: Scope, s: Stmt): nat {
    match s
    case If(t, y) => Faults(c, t) + StmtFaults(c, y)
    case IfElse(t, y, n) => Faults(c, t) + StmtFaults(c, y) + StmtFaults(c, n)
    case While(t, b) => Faults(c, t) + StmtFaults(c, b)
    case For(i, t, st, b) => OptFaults(c, i) + OptFaults(c, t) + OptFaults(c, st) + StmtFaults(c, b)
    case Return(r) => OptFaults(c, r)
    case Block(ss) => ListFaults(c, ss)
    case Skip => 0
    case Do(e) => Faults(c, e)
  }

  function ListFaults(c: Scope, ss: Stmts): nat {
    match ss
    case Nil => 0
    case Cons(s, tail) => StmtFaults(c, s) + ListFaults(c, tail)
  }

  predicate Wf(c: Scope, e: Expr) {
    Faults(c, e) == 0
  }

  predicate WfOpt(c: Scope, o: Option<Expr>) {
    OptFaults(c, o) == 0
  }

  predicate WfStmt(c: Scope, s: Stmt) {
    StmtFaults(c, s) == 0
  }

  predicate WfStmts(c: Scope, ss: Stmts) {
    ListFaults(c, ss) == 0
  }

  /** The names of expressions: declared int variables, local or global, and enumeration constants that are words. */
  lemma NamesAre(c: Scope, v: nat)
    ensures IsVar(c, v) <==> v in c.syms && c.syms[v].typ == 1 && c.syms[v].cls in {GLO, LOC}
    ensures IsName(c, v) && !IsVar(c, v) <==> v in c.syms && c.syms[v].cls == NUM && IsWord(c.syms[v].val)
  {
  }

  /** A tree is well-formed when its names, its literals and its parts are. */
  lemma WfParts(c: Scope, e: Expr)
    ensures Wf(c, e) <==>
      match e
      case Lit(n) => IsWord(n)
      case Var(v) => IsName(c, v)
      case SizeofInt => true
      case Set(v, rhs) => IsVar(c, v) && Wf(c, rhs)
      case Bin(_, l, r) => Wf(c, l) && Wf(c, r)
      case OrElse(l, r) => Wf(c, l) && Wf(c, r)
      case AndAlso(l, r) => Wf(c, l) && Wf(c, r)
      case Choose(t, y, n) => Wf(c, t) && Wf(c, y) && Wf(c, n)
      case PreStep(v, _) => IsVar(c, v)
      case PostStep(v, _) => IsVar(c, v)
      case _ => Wf(c, e.arg)
  {
  }

  lemma WfStmtParts(c: Scope, s: Stmt)
    ensures WfStmt(c, s) <==>
      match s
      case If(t, y) => Wf(c, t) && WfStmt(c, y)
      case IfElse(t, y, n) => Wf(c, t) && WfStmt(c, y) && WfStmt(c, n)
      case While(t, b) => Wf(c, t) && WfStmt(c, b)
      case For(i, t, st, b) =>
        (i.Some? ==> Wf(c, i.value)) && (t.Some? ==> Wf(c, t.value)) && (st.Some? ==> Wf(c, st.value)) && WfStmt(c, b)
      case Return(r) => r.Some? ==> Wf(c, r.value)
      case Block(ss) => WfStmts(c, ss)
      case Skip => true
      case Do(e) => Wf(c, e)
  {
  }

  lemma WfListParts(c: Scope, ss: Stmts)
    ensures WfStmts(c, ss) <==> ss.Cons? ==> WfStmt(c, ss.head) && WfStmts(c, ss.tail)
  {
  }

  // ---------------------------------------------------------------- printing

  function OpTok(op: BinOp): int {
    match op
    case BitOr => OR
    case BitXor => XOR
    case BitAnd => AND
    case Equal => EQ
    case NotEqual => NE
    case Less => LT
    case Greater => GT
    case AtMost => LE
    case AtLeast => GE
    case ShiftLeft => SHL
    case ShiftRight => SHR
    case Plus => ADD
    case Minus => SUB
    case Times => MUL
    case Over => DIV
    case Modulo => MOD
  }

  /** The lowest token of the operator's precedence class; C groups operators of a class to the left. */
  function ClassOf(op: BinOp): int {
    match op
    case BitOr => OR
    case BitXor => XOR
    case BitAnd => AND
    case Equal => EQ
    case NotEqual => EQ
    case Less => LT
    case Greater => LT
    case AtMost => LT
    case AtLeast => LT
    case ShiftLeft => SHL
    case ShiftRight => SHL
    case Plus => ADD
    case Minus => ADD
    case Times => MUL
    case Over => MUL
    case Modulo => MUL
  }

  /** The class that binds just tighter. */
  function Tighter(op: BinOp): int {
    match op
    case BitOr => XOR
    case BitXor => AND
    case BitAnd => EQ
    case Equal => LT
    case NotEqual => LT
    case Less => SHL
    case Greater => SHL
    case AtMost => SHL
    case AtLeast => SHL
    case ShiftLeft => ADD
    case ShiftRight => ADD
    case Plus => MUL
    case Minus => MUL
    case Times => INC
    case Over => INC
    case Modulo => INC
  }

  const ATOM := 200

  /** The class of a tree's outermost operator. */
  function Prec(e: Expr): int {
    match e
    case Set(_, _) => ASSIGN
    case Choose(_, _, _) => COND
    case OrElse(_, _) => LOR
    case AndAlso(_, _) => LAN
    case Bin(op, _, _) => ClassOf(op)
    case _ => ATOM
  }

  /** The tokens of e, followed by rest, where operators looser than the level need parentheses. */
  function Print(e: Expr, level: int, rest: seq<Token>): seq<Token>
    decreases e, 1
  {
    if Prec(e) < level then [Plain(LPAREN)] + Bare(e, [Plain(RPAREN)] + rest) else Bare(e, rest)
  }

  function StepTok(up: bool): Token {
    Plain(if up then INC else DEC)
  }

  /** The same without outer parentheses. */
  function Bare(e: Expr, rest: seq<Token>): seq<Token>
    decreases e, 0
  {
    match e
    case Lit(n) => [Token(NUM, n, 0)] + rest
    case Var(v) => [Token(ID, 0, v)] + rest
    case SizeofInt => [Plain(SIZEOF), Plain(LPAREN), Plain(INT), Plain(RPAREN)] + rest
    case Set(v, rhs) => [Token(ID, 0, v), Plain(ASSIGN)] + Print(rhs, ASSIGN, rest)
    case Bin(op, l, r) => Print(l, ClassOf(op), [Plain(OpTok(op))] + Print(r, Tighter(op), rest))
    case OrElse(l, r) => Print(l, LOR, [Plain(LOR)] + Print(r, LAN, rest))
    case AndAlso(l, r) => Print(l, LAN, [Plain(LAN)] + Print(r, OR, rest))
    case Choose(t, y, n) =>
      Print(t, LOR, [Plain(COND)] + Print(y, ASSIGN, [Plain(COLON)] + Print(n, COND, rest)))
    case Not(a) => [Plain(BANG)] + Print(a, INC, rest)
    case Compl(a) => [Plain(TILDE)] + Print(a, INC, rest)
    case Neg(a) => [Plain(SUB)] + Print(a, INC, rest)
    case Pos(a) => [Plain(ADD)] + Print(a, INC, rest)
    case Cast(a) => [Plain(LPAREN), Plain(INT), Plain(RPAREN)] + Print(a, INC, rest)
    case PreStep(v, up) => [StepTok(up), Token(ID, 0, v)] + rest
    case PostStep(v, up) => [Token(ID, 0, v), StepTok(up)] + rest
  }

  function PrintOpt(o: Option<Expr>, rest: seq<Token>): seq<Token> {
    if o.Some? then Print(o.value, ASSIGN, rest) else rest
  }

  /** Whether an `else` after the statement would attach inside it. */
  predicate EndsOpen(s: Stmt) {
    match s
    case If(_, _) => true
    case IfElse(_, _, n) => EndsOpen(n)
    case While(_, b) => EndsOpen(b)
    case For(_, _, _, b) => EndsOpen(b)
    case _ => false
  }

  function PrintStmt(s: Stmt, rest: seq<Token>): seq<Token>
    decreases s, 0
  {
    match s
    case If(t, y) => [Plain(IF), Plain(LPAREN)] + Print(t, ASSIGN, [Plain(RPAREN)] + PrintStmt(y, rest))
    case IfElse(t, y, n) =>
      [Plain(IF), Plain(LPAREN)]
      + Print(t, ASSIGN, [Plain(RPAREN)] + PrintClosed(y, [Plain(ELSE)] + PrintStmt(n, rest)))
    case While(t, b) => [Plain(WHILE), Plain(LPAREN)] + Print(t, ASSIGN, [Plain(RPAREN)] + PrintStmt(b, rest))
    case For(i, t, st, b) =>
      [Plain(FOR), Plain(LPAREN)]
      + PrintOpt(i, [Plain(SEMI)] + PrintOpt(t, [Plain(SEMI)] + PrintOpt(st, [Plain(RPAREN)] + PrintStmt(b, rest))))
    case Return(r) => [Plain(RETURN)] + PrintOpt(r, [Plain(SEMI)] + rest)
    case Block(ss) => [Plain(LBRACE)] + PrintStmts(ss, [Plain(RBRACE)] + rest)
    case Skip => [Plain(SEMI)] + rest
    case Do(e) => Print(e, ASSIGN, [Plain(SEMI)] + rest)
  }

  /** The branch before an `else`: in braces when it would capture it. */
  function PrintClosed(s: Stmt, rest: seq<Token>): seq<Token>
    decreases s, 1
  {
    if EndsOpen(s) then [Plain(LBRACE)] + PrintStmt(s, [Plain(RBRACE)] + rest) else PrintStmt(s, rest)
  }

  function PrintStmts(ss: Stmts, rest: seq<Token>): seq<Token> {
    match ss
    case Nil => rest
    case Cons(s, tail) => PrintStmt(s, PrintStmts(tail, rest))
  }

  // ---------------------------------------------------------------- meaning

  type Store = map<nat, int>

  /** What a name stands for: a constant's value or a variable's contents. */
  function ValueOf(c: Scope, st: Store, v: nat): int {
    if c.Lookup(v).cls == NUM then c.Lookup(v).val else if v in st then st[v] else 0
  }

  function Apply(op: BinOp, x: int, y: int): int {
    match op
    case BitOr => Bitwise(GOr, x, y)
    case BitXor => Bitwise(GXor, x, y)
    case BitAnd => Bitwise(GAnd, x, y)
    case Equal => Truth(x == y)
    case NotEqual => Truth(x != y)
    case Less => Truth(x < y)
    case Greater => Truth(x > y)
    case AtMost => Truth(x <= y)
    case AtLeast => Truth(x >= y)
    case ShiftLeft => Shl(x, y)
    case ShiftRight => Shr(x, y)
    case Plus => Wrap(x + y)
    case Minus => Wrap(x - y)
    case Times => Words.Mul(x, y)
    case Over => Quot(x, y)
    case Modulo => Rem(x, y)
  }

  /** Value of an expression and the store it leaves, left to right. The value of || and && is the
      last operand evaluated. */
  function Eval(c: Scope, e: Expr, st: Store): (r: (int, Store)) {
    match e
    case Lit(n) => (n, st)
    case Var(v) => (ValueOf(c, st, v), st)
    case SizeofInt => (SIZEOF_INT, st)
    case Set(v, rhs) =>
      var (x, st1) := Eval(c, rhs, st);
      (x, st1[v := x])
    case Bin(op, l, r) =>
      var (x, st1) := Eval(c, l, st);
      var (y, st2) := Eval(c, r, st1);
      (Apply(op, x, y), st2)
    case OrElse(l, r) =>
      var (x, st1) := Eval(c, l, st);
      if x != 0 then (x, st1) else Eval(c, r, st1)
    case AndAlso(l, r) =>
      var (x, st1) := Eval(c, l, st);
      if x == 0 then (x, st1) else Eval(c, r, st1)
    case Choose(t, y, n) =>
      var (x, st1) := Eval(c, t, st);
      if x != 0 then Eval(c, y, st1) else Eval(c, n, st1)
    case Not(a) =>
      var (x, st1) := Eval(c, a, st);
      (Truth(x == 0), st1)
    case Compl(a) =>
      var (x, st1) := Eval(c, a, st);
      (Bitwise(GXor, x, -1), st1)
    case Neg(a) =>
      var (x, st1) := Eval(c, a, st);
      (Wrap(-x), st1)
    case Pos(a) => Eval(c, a, st)
    case Cast(a) => Eval(c, a, st)
    case PreStep(v, up) =>
      var x := Wrap(ValueOf(c, st, v) + if up then 1 else -1);
      (x, st[v := x])
    case PostStep(v, up) =>
      (ValueOf(c, st, v), st[v := Wrap(ValueOf(c, st, v) + if up then 1 else -1)])
  }

  function EvalOpt(c: Scope, o: Option<Expr>, st: Store): Store {
    if o.Some? then Eval(c, o.value, st).1 else st
  }

  /** How a statement ends within a budget of loop iterations. */
  datatype Outcome = OutOfFuel | Normal(st: Store) | Returned(st: Store, value: Option<int>)

  function Exec(c: Scope, s: Stmt, st: Store, fuel: nat): Outcome
    decreases fuel, s, 0
  {
    match s
    case If(t, y) =>
      var (x, st1) := Eval(c, t, st);
      if x != 0 then Exec(c, y, st1, fuel) else Normal(st1)
    case IfElse(t, y, n) =>
      var (x, st1) := Eval(c, t, st);
      if x != 0 then Exec(c, y, st1, fuel) else Exec(c, n, st1, fuel)
    case While(t, b) => Loop(c, Some(t), None, b, st, fuel)
    case For(i, t, step, b) => Loop(c, t, step, b, EvalOpt(c, i, st), fuel)
    case Return(r) =>
      if r.Some? then
        var (x, st1) := Eval(c, r.value, st);
        Returned(st1, Some(x))
      else Returned(st, None)
    case Block(ss) => ExecAll(c, ss, st, fuel)
    case Skip => Normal(st)
    case Do(e) => Normal(Eval(c, e, st).1)
  }

  function ExecAll(c: Scope, ss: Stmts, st: Store, fuel: nat): Outcome
    decreases fuel, ss, 0
  {
    match ss
    case Nil => Normal(st)
    case Cons(s, tail) =>
      var o := Exec(c, s, st, fuel);
      if o.Normal? then ExecAll(c, tail, o.st, fuel) else o
  }

  /** A loop with an optional test (true when missing) and an optional step after each body. */
  function Loop(c: Scope, t: Option<Expr>, step: Option<Expr>, b: Stmt, st: Store, fuel: nat): Outcome
    decreases fuel, b, 1
  {
    var (x, st1) := Eval(c, Test(t), st);
    if x == 0 then Normal(st1)
    else
      var o := Exec(c, b, st1, fuel);
      if !o.Normal? then o
      else if fuel == 0 then OutOfFuel
      else Loop(c, t, step, b, EvalOpt(c, step, o.st), fuel - 1)
  }

  function Test(t: Option<Expr>): Expr {
    if t.Some? then t.value else Lit(1)
  }
}
