/** What c4's `expr` and `stmt` do to the remaining tokens and the emitted code, as functions.
    None stands for the error exits. The class Parser is proved against these functions, and the
    lemmas of C4ParserProof relate them to syntax trees. */
module C4ParserSpec {
  import opened Wrappers
  import opened Words
  import opened Tok
  import Opc
  import Ty

  const SIZEOF_INT := 4
  const SIZEOF_CHAR := 1

  /** A symbol-table entry: class (a token kind), type and value; class 0 is "not declared". */
  datatype Symbol = Symbol(cls: int, typ: int, val: int)

  /** The declarations in force: the symbol table and the frame offset `loc`. */
  datatype Scope = Scope(syms: map<nat, Symbol>, loc: int) {
    function Lookup(id: nat): Symbol {
      if id in syms then syms[id] else Symbol(0, 0, 0)
    }
  }

  /** Parser state: tokens not yet consumed (the current one first), emitted code, current type. */
  datatype State = State(toks: seq<Token>, code: seq<int>, ty: int) {
    function Tk(): int {
      if toks == [] then 0 else toks[0].kind
    }

    function Ival(): int {
      if toks == [] then 0 else toks[0].ival
    }

    function Id(): nat {
      if toks == [] then 0 else toks[0].id
    }

    function Next(): State {
      if toks == [] then this else this.(toks := toks[1..])
    }

    function Emit(words: seq<int>): State {
      this.(code := code + words)
    }

    function Typed(t: int): State {
      this.(ty := t)
    }

    /** The last emitted word; the word below the text area is zero. */
    function Last(): int {
      if code == [] then 0 else code[|code| - 1]
    }

    function SetLast(w: int): State {
      if code == [] then this else this.(code := code[|code| - 1 := w])
    }

    function DropLast(): State {
      if code == [] then this else this.(code := code[..|code| - 1])
    }

    /** Backpatching: overwrite an operand emitted earlier. */
    function Patch(d: nat, w: int): State {
      if d < |code| then this.(code := code[d := w]) else this
    }

    /** Continue only at the token k, and step over it. */
    function Expect(k: int): Option<State> {
      if Tk() == k then Some(Next()) else None
    }
  }

  /** Right-operand level and opcode of the operators that are all parsed in the same way. */
  function BinaryRow(tk: int): Option<(int, int)> {
    if tk == OR then Some((XOR, Opc.OR))
    else if tk == XOR then Some((AND, Opc.XOR))
    else if tk == AND then Some((EQ, Opc.AND))
    else if tk == EQ then Some((LT, Opc.EQ))
    else if tk == NE then Some((LT, Opc.NE))
    else if tk == LT then Some((SHL, Opc.LT))
    else if tk == GT then Some((SHL, Opc.GT))
    else if tk == LE then Some((SHL, Opc.LE))
    else if tk == GE then Some((SHL, Opc.GE))
    else if tk == SHL then Some((ADD, Opc.SHL))
    else if tk == SHR then Some((ADD, Opc.SHR))
    else if tk == MUL then Some((INC, Opc.MUL))
    else if tk == DIV then Some((INC, Opc.DIV))
    else if tk == MOD then Some((INC, Opc.MOD))
    else None
  }

  function IncSize(ty: int): int {
    if ty > Ty.PTR then SIZEOF_INT else SIZEOF_CHAR
  }

  function LoadOp(ty: int): int {
    if ty == Ty.CHAR then Opc.LC else Opc.LI
  }

  function StoreOp(ty: int): int {
    if ty == Ty.CHAR then Opc.SC else Opc.SI
  }

  /** Step over `*` tokens, adding one level of indirection each. */
  function Stars(s: State, t: int): (r: (State, int))
    ensures |r.0.toks| <= |s.toks|
    ensures r.0.code == s.code
    decreases |s.toks|
  {
    if s.Tk() == MUL then Stars(s.Next(), t + Ty.PTR) else (s, t)
  }

  /** Step over adjacent string tokens. */
  function Quotes(s: State): (r: State)
    ensures |r.toks| <= |s.toks|
    decreases |s.toks|
  {
    if s.Tk() == QUOTE then Quotes(s.Next()) else s
  }

  /** The lvalue of ++ and --: the trailing load becomes push-and-load. */
  function Reload(s: State): Option<State> {
    if s.Last() == Opc.LC then Some(s.SetLast(Opc.PSH).Emit([Opc.LC]))
    else if s.Last() == Opc.LI then Some(s.SetLast(Opc.PSH).Emit([Opc.LI]))
    else None
  }

  function SizeofSpec(s: State): (r: Option<State>)
    ensures r.Some? ==> |r.value.toks| <= |s.toks|
  {
    var s1 :- s.Expect(LPAREN);
    var (s2, t) :=
      if s1.Tk() == INT then (s1.Next(), Ty.INT)
      else if s1.Tk() == CHAR then (s1.Next(), Ty.CHAR)
      else (s1, Ty.INT);
    var (s3, t') := Stars(s2, t);
    var s4 :- s3.Expect(RPAREN);
    Some(s4.Emit([Opc.IMM, if t' == Ty.CHAR then SIZEOF_CHAR else SIZEOF_INT]).Typed(Ty.INT))
  }

  /** A variable or enumeration constant. */
  function NameSpec(s: State, loc: int, d: Symbol): Option<State> {
    if d.cls == NUM then Some(s.Emit([Opc.IMM, d.val]).Typed(Ty.INT))
    else if d.cls == LOC then Some(s.Emit([Opc.LEA, loc - d.val, LoadOp(d.typ)]).Typed(d.typ))
    else if d.cls == GLO then Some(s.Emit([Opc.IMM, d.val, LoadOp(d.typ)]).Typed(d.typ))
    else None
  }

  /** Arguments up to the closing parenthesis, each pushed; n counts them. */
  function ArgsSpec(c: Scope, s: State, n: nat): (r: Option<(State, nat)>)
    ensures r.Some? ==> |r.value.0.toks| <= |s.toks|
    decreases |s.toks|, 3
  {
    if s.Tk() == RPAREN then Some((s, n))
    else
      var s1 :- ExprSpec(c, s, ASSIGN);
      var s2 := s1.Emit([Opc.PSH]);
      ArgsSpec(c, if s2.Tk() == COMMA then s2.Next() else s2, n + 1)
  }

  function CallSpec(c: Scope, s: State, d: Symbol): (r: Option<State>)
    ensures r.Some? ==> |r.value.toks| <= |s.toks|
    decreases |s.toks|, 4
  {
    var (s1, n) :- ArgsSpec(c, s, 0);
    var s2 := s1.Next();
    if d.cls == SYS || d.cls == FUN then
      var s3 := s2.Emit(if d.cls == SYS then [d.val] else [Opc.JSR, d.val]);
      Some((if n > 0 then s3.Emit([Opc.ADJ, n]) else s3).Typed(d.typ))
    else None
  }

  /** An expression in parentheses, or a cast. */
  function ParenSpec(c: Scope, s: State): (r: Option<State>)
    ensures r.Some? ==> |r.value.toks| <= |s.toks|
    decreases |s.toks|, 3
  {
    if s.Tk() == INT || s.Tk() == CHAR then
      var (s1, t) := Stars(s.Next(), if s.Tk() == INT then Ty.INT else Ty.CHAR);
      var s2 :- s1.Expect(RPAREN);
      var s3 :- ExprSpec(c, s2, INC);
      Some(s3.Typed(t))
    else
      var s1 :- ExprSpec(c, s, ASSIGN);
      s1.Expect(RPAREN)
  }

  /** What a unary operator other than minus does after its operand. */
  function UnaryAfter(tk: int, s: State): (r: Option<State>)
    ensures r.Some? ==> r.value.toks == s.toks
  {
    if tk == MUL then
      if s.ty > Ty.INT then Some(s.Emit([LoadOp(s.ty - Ty.PTR)]).Typed(s.ty - Ty.PTR)) else None
    else if tk == AND then
      if s.Last() == Opc.LC || s.Last() == Opc.LI then Some(s.DropLast().Typed(s.ty + Ty.PTR)) else None
    else if tk == BANG then Some(s.Emit([Opc.PSH, Opc.IMM, 0, Opc.EQ]).Typed(Ty.INT))
    else if tk == TILDE then Some(s.Emit([Opc.PSH, Opc.IMM, -1, Opc.XOR]).Typed(Ty.INT))
    else if tk == ADD then Some(s.Typed(Ty.INT))
    else if tk == INC || tk == DEC then
      var s1 :- Reload(s);
      Some(s1.Emit([Opc.PSH, Opc.IMM, IncSize(s1.ty), if tk == INC then Opc.ADD else Opc.SUB, StoreOp(s1.ty)]))
    else None
  }

  /** Unary operators, after the operator token tk. */
  function UnarySpec(c: Scope, tk: int, s: State): (r: Option<State>)
    ensures r.Some? ==> |r.value.toks| <= |s.toks|
    decreases |s.toks|, 3
  {
    if tk == SUB then
      if s.Tk() == NUM then Some(s.Emit([Opc.IMM, Wrap(-s.Ival())]).Next().Typed(Ty.INT))
      else
        var s1 :- ExprSpec(c, s.Emit([Opc.IMM, -1, Opc.PSH]), INC);
        Some(s1.Emit([Opc.MUL]).Typed(Ty.INT))
    else if tk == MUL || tk == AND || tk == BANG || tk == TILDE || tk == ADD || tk == INC || tk == DEC then
      var s1 :- ExprSpec(c, s, INC);
      UnaryAfter(tk, s1)
    else None
  }

  /** The operand that starts an expression. */
  function PrefixSpec(c: Scope, s: State): (r: Option<State>)
    ensures r.Some? ==> |r.value.toks| < |s.toks|
    decreases |s.toks|, 0
  {
    var tk := s.Tk();
    if tk == 0 then None
    else if tk == NUM then Some(s.Emit([Opc.IMM, s.Ival()]).Next().Typed(Ty.INT))
    else if tk == QUOTE then Some(Quotes(s.Emit([Opc.IMM, s.Ival()]).Next()).Typed(Ty.PTR))
    else if tk == SIZEOF then SizeofSpec(s.Next())
    else if tk == ID then
      var d := c.Lookup(s.Id());
      var s1 := s.Next();
      if s1.Tk() == LPAREN then CallSpec(c, s1.Next(), d) else NameSpec(s1, c.loc, d)
    else if tk == LPAREN then ParenSpec(c, s.Next())
    else UnarySpec(c, tk, s.Next())
  }

  function CondSpec(c: Scope, s: State): (r: Option<State>)
    ensures r.Some? ==> |r.value.toks| <= |s.toks|
    decreases |s.toks|, 3
  {
    var s1 :- ExprSpec(c, s.Emit([Opc.BZ, 0]), ASSIGN);
    var s2 :- s1.Expect(COLON);
    var s3 := s2.Patch(|s.code| + 1, |s2.code| + 2).Emit([Opc.JMP, 0]);
    var s4 :- ExprSpec(c, s3, COND);
    Some(s4.Patch(|s2.code| + 1, |s4.code|))
  }

  /** || and &&: a forward branch over the right operand. */
  function ShortSpec(c: Scope, s: State, branch: int, level: int): (r: Option<State>)
    ensures r.Some? ==> |r.value.toks| <= |s.toks|
    decreases |s.toks|, 3
  {
    var s1 :- ExprSpec(c, s.Emit([branch, 0]), level);
    Some(s1.Patch(|s.code| + 1, |s1.code|).Typed(Ty.INT))
  }

  function AddSpec(c: Scope, s: State, t: int): (r: Option<State>)
    ensures r.Some? ==> |r.value.toks| <= |s.toks|
    decreases |s.toks|, 3
  {
    var s1 :- ExprSpec(c, s.Emit([Opc.PSH]), MUL);
    var s2 := if t > Ty.PTR then s1.Emit([Opc.PSH, Opc.IMM, SIZEOF_INT, Opc.MUL]) else s1;
    Some(s2.Emit([Opc.ADD]).Typed(t))
  }

  function SubSpec(c: Scope, s: State, t: int): (r: Option<State>)
    ensures r.Some? ==> |r.value.toks| <= |s.toks|
    decreases |s.toks|, 3
  {
    var s1 :- ExprSpec(c, s.Emit([Opc.PSH]), MUL);
    if t > Ty.PTR && t == s1.ty then
      Some(s1.Emit([Opc.SUB, Opc.PSH, Opc.IMM, SIZEOF_INT, Opc.DIV]).Typed(Ty.INT))
    else if t > Ty.PTR then Some(s1.Emit([Opc.PSH, Opc.IMM, SIZEOF_INT, Opc.MUL, Opc.SUB]).Typed(t))
    else Some(s1.Emit([Opc.SUB]).Typed(t))
  }

  function IndexSpec(c: Scope, s: State, t: int): (r: Option<State>)
    ensures r.Some? ==> |r.value.toks| <= |s.toks|
    decreases |s.toks|, 3
  {
    var s1 :- ExprSpec(c, s.Emit([Opc.PSH]), ASSIGN);
    var s2 :- s1.Expect(RBRACKET);
    if t < Ty.PTR then None
    else
      var s3 := if t > Ty.PTR then s2.Emit([Opc.PSH, Opc.IMM, SIZEOF_INT, Opc.MUL]) else s2;
      Some(s3.Emit([Opc.ADD, LoadOp(t - Ty.PTR)]).Typed(t - Ty.PTR))
  }

  /** One turn of the climbing loop: the operator tk with its right operand. */
  function InfixSpec(c: Scope, s: State): (r: Option<State>)
    ensures r.Some? ==> |r.value.toks| < |s.toks|
    decreases |s.toks|, 0
  {
    var tk, t, n := s.Tk(), s.ty, s.Next();
    if tk == ASSIGN then
      if s.Last() == Opc.LC || s.Last() == Opc.LI then
        var s1 :- ExprSpec(c, n.SetLast(Opc.PSH), ASSIGN);
        Some(s1.Emit([StoreOp(t)]).Typed(t))
      else None
    else if tk == COND then CondSpec(c, n)
    else if tk == LOR then ShortSpec(c, n, Opc.BNZ, LAN)
    else if tk == LAN then ShortSpec(c, n, Opc.BZ, OR)
    else if BinaryRow(tk).Some? then
      var s1 :- ExprSpec(c, n.Emit([Opc.PSH]), BinaryRow(tk).value.0);
      Some(s1.Emit([BinaryRow(tk).value.1]).Typed(Ty.INT))
    else if tk == ADD then AddSpec(c, n, t)
    else if tk == SUB then SubSpec(c, n, t)
    else if tk == INC || tk == DEC then
      var s1 :- Reload(s);
      Some(s1.Emit([Opc.PSH, Opc.IMM, IncSize(t), if tk == INC then Opc.ADD else Opc.SUB, StoreOp(t),
                    Opc.PSH, Opc.IMM, IncSize(t), if tk == INC then Opc.SUB else Opc.ADD]).Next())
    else if tk == BRAK then IndexSpec(c, n, t)
    else None
  }

  /** Precedence climbing: infix operators while they bind at least as tightly as the level. */
  function ClimbSpec(c: Scope, s: State, level: int): (r: Option<State>)
    ensures r.Some? ==> |r.value.toks| <= |s.toks|
    decreases |s.toks|, 1
  {
    if s.Tk() < level then Some(s)
    else
      var s1 :- InfixSpec(c, s);
      ClimbSpec(c, s1, level)
  }

  function ExprSpec(c: Scope, s: State, level: int): (r: Option<State>)
    ensures r.Some? ==> |r.value.toks| < |s.toks|
    decreases |s.toks|, 2
  {
    var s1 :- PrefixSpec(c, s);
    ClimbSpec(c, s1, level)
  }

  /** A condition in parentheses and the branch taken when it is zero, its target still open. */
  function HeadSpec(c: Scope, s: State): (r: Option<State>)
    ensures r.Some? ==> |r.value.toks| <= |s.toks| && |r.value.code| >= 2
  {
    var s1 :- s.Expect(LPAREN);
    var s2 :- ExprSpec(c, s1, ASSIGN);
    var s3 :- s2.Expect(RPAREN);
    Some(s3.Emit([Opc.BZ, 0]))
  }

  function IfSpec(c: Scope, s: State): (r: Option<State>)
    ensures r.Some? ==> |r.value.toks| <= |s.toks|
    decreases |s.toks|, 1
  {
    var s1 :- HeadSpec(c, s);
    var b := |s1.code| - 1;
    var s2 :- StmtSpec(c, s1);
    if s2.Tk() == ELSE then
      var s3 :- StmtSpec(c, s2.Patch(b, |s2.code| + 2).Emit([Opc.JMP, 0]).Next());
      Some(s3.Patch(|s2.code| + 1, |s3.code|))
    else Some(s2.Patch(b, |s2.code|))
  }

  function WhileSpec(c: Scope, s: State): (r: Option<State>)
    ensures r.Some? ==> |r.value.toks| <= |s.toks|
    decreases |s.toks|, 1
  {
    var s1 :- HeadSpec(c, s);
    var b := |s1.code| - 1;
    var s2 :- StmtSpec(c, s1);
    Some(s2.Emit([Opc.JMP, |s.code|]).Patch(b, |s2.code| + 2))
  }

  /** An expression that may be missing, before the token k. */
  function OptExprSpec(c: Scope, s: State, k: int): (r: Option<State>)
    ensures r.Some? ==> |r.value.toks| <= |s.toks|
  {
    if s.Tk() != k then ExprSpec(c, s, ASSIGN) else Some(s)
  }

  /** `for (init; cond;` and its two jumps; also where the condition starts. */
  function ForHeadSpec(c: Scope, s: State): (r: Option<(State, nat)>)
    ensures r.Some? ==> |r.value.0.toks| <= |s.toks| && |r.value.0.code| >= 4
  {
    var s0 :- s.Expect(LPAREN);
    var s1 :- OptExprSpec(c, s0, SEMI);
    var s2 :- s1.Expect(SEMI);
    var s3 :- if s2.Tk() != SEMI then ExprSpec(c, s2, ASSIGN) else Some(s2.Emit([Opc.IMM, 1]));
    var s4 :- s3.Expect(SEMI);
    Some((s4.Emit([Opc.BZ, 0, Opc.JMP, 0]), |s2.code|))
  }

  /** The step and its jump back to the condition at a; the body starts after it. */
  function ForStepSpec(c: Scope, s: State, a: nat): (r: Option<State>)
    ensures r.Some? ==> |r.value.toks| <= |s.toks|
  {
    var s1 :- OptExprSpec(c, s, RPAREN);
    var s2 :- s1.Expect(RPAREN);
    Some(s2.Emit([Opc.JMP, a]))
  }

  /** for (init; cond; step) body: the step code is emitted before the body's. */
  function ForSpec(c: Scope, s: State): (r: Option<State>)
    ensures r.Some? ==> |r.value.toks| <= |s.toks|
    decreases |s.toks|, 1
  {
    var (s1, a) :- ForHeadSpec(c, s);
    var d := |s1.code|;
    var s2 :- ForStepSpec(c, s1, a);
    var s3 :- StmtSpec(c, s2.Patch(d - 1, |s2.code|));
    Some(s3.Emit([Opc.JMP, d]).Patch(d - 3, |s3.code| + 2))
  }

  /** Statements up to the closing brace. */
  function BlockSpec(c: Scope, s: State): (r: Option<State>)
    ensures r.Some? ==> |r.value.toks| <= |s.toks|
    decreases |s.toks|, 1
  {
    if s.Tk() == RBRACE then Some(s.Next())
    else
      var s1 :- StmtSpec(c, s);
      BlockSpec(c, s1)
  }

  function StmtSpec(c: Scope, s: State): (r: Option<State>)
    ensures r.Some? ==> |r.value.toks| < |s.toks|
    decreases |s.toks|, 0
  {
    var tk := s.Tk();
    if tk == IF then IfSpec(c, s.Next())
    else if tk == WHILE then WhileSpec(c, s.Next())
    else if tk == FOR then ForSpec(c, s.Next())
    else if tk == RETURN then
      var s1 :- OptExprSpec(c, s.Next(), SEMI);
      s1.Emit([Opc.LEV]).Expect(SEMI)
    else if tk == LBRACE then BlockSpec(c, s.Next())
    else if tk == SEMI then Some(s.Next())
    else
      var s1 :- ExprSpec(c, s, ASSIGN);
      s1.Expect(SEMI)
  }
}
