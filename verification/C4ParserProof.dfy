/** Precedence climbing is right: the parser turns the printed form of a tree into that tree's code. */
module C4ParserProof {
  import opened Wrappers
  import opened Tok
  import opened C4ParserSpec
  import opened C4Lang
  import opened C4Code
  import Opc
  import Ty

  /** rest does not go on with an operator of the level or above, nor with a call. */
  predicate Follows(rest: seq<Token>, level: int) {
    rest == [] || (rest[0].kind < level && rest[0].kind != LPAREN)
  }

  /** The level at which the right end of a bare tree was parsed: a token below it ends the tree. */
  function RightLevel(e: Expr): int {
    match e
    case Set(_, _) => ASSIGN
    case Choose(_, _, _) => COND
    case OrElse(_, _) => LAN
    case AndAlso(_, _) => OR
    case Bin(op, _, _) => Tighter(op)
    case Lit(_) => ATOM
    case Var(_) => ATOM
    case SizeofInt => ATOM
    case PostStep(_, _) => ATOM
    case _ => INC
  }

  function Bound(e: Expr, level: int): int {
    if Prec(e) < level then ATOM else RightLevel(e)
  }

  predicate StartsExpr(k: int) {
    k in {NUM, ID, LPAREN, BANG, TILDE, ADD, SUB, INC, DEC, SIZEOF}
  }

  lemma {:induction false} BareStarts(e: Expr, rest: seq<Token>)
    ensures Bare(e, rest) != [] && StartsExpr(Bare(e, rest)[0].kind)
    ensures Prec(e) >= INC ==> (Bare(e, rest)[0].kind == NUM <==> e.Lit?)
    decreases e, 0
  {
    match e {
      case Bin(op, l, r) => PrintStarts(l, ClassOf(op), [Plain(OpTok(op))] + Print(r, Tighter(op), rest));
      case OrElse(l, r) => PrintStarts(l, LOR, [Plain(LOR)] + Print(r, LAN, rest));
      case AndAlso(l, r) => PrintStarts(l, LAN, [Plain(LAN)] + Print(r, OR, rest));
      case Choose(t, y, n) =>
        PrintStarts(t, LOR, [Plain(COND)] + Print(y, ASSIGN, [Plain(COLON)] + Print(n, COND, rest)));
      case _ =>
    }
  }

  lemma {:induction false} PrintStarts(e: Expr, level: int, rest: seq<Token>)
    ensures Print(e, level, rest) != [] && StartsExpr(Print(e, level, rest)[0].kind)
    ensures level == INC ==> (Print(e, level, rest)[0].kind == NUM <==> e.Lit?)
    decreases e, 1
  {
    BareStarts(e, if Prec(e) < level then [Plain(RPAREN)] + rest else rest);
  }

  // ---------------------------------------------------------------- single steps of the parser

  /** The state after e has been parsed and emitted. */
  function Parsed(c: Scope, s: State, e: Expr, rest: seq<Token>): State {
    State(rest, s.code + Code(c, e, |s.code|), Ty.INT)
  }

  lemma {:induction false} Begin(c: Scope, s: State, s1: State, level: int)
    requires PrefixSpec(c, s) == Some(s1)
    ensures ExprSpec(c, s, level) == ClimbSpec(c, s1, level)
  {
  }

  lemma {:induction false} Turn(c: Scope, s: State, s1: State, level: int)
    requires s.Tk() >= level && InfixSpec(c, s) == Some(s1)
    ensures ClimbSpec(c, s, level) == ClimbSpec(c, s1, level)
  {
  }

  lemma {:induction false} Stop(c: Scope, s: State, level: int)
    requires 0 < level && Follows(s.toks, level)
    ensures ClimbSpec(c, s, level) == Some(s)
  {
  }

  lemma {:induction false} ParenStep(c: Scope, s: State, s1: State)
    requires s.Tk() == LPAREN && StartsExpr(s.Next().Tk())
    requires ExprSpec(c, s.Next(), ASSIGN) == Some(s1) && s1.Tk() == RPAREN
    ensures PrefixSpec(c, s) == Some(s1.Next())
  {
    assert ParenSpec(c, s.Next()) == s1.Expect(RPAREN);
  }

  lemma {:induction false} UnaryStep(c: Scope, s: State, s1: State)
    requires s.Tk() in {BANG, TILDE, ADD} && ExprSpec(c, s.Next(), INC) == Some(s1)
    ensures PrefixSpec(c, s) == UnaryAfter(s.Tk(), s1)
  {
    assert UnarySpec(c, s.Tk(), s.Next()) == UnaryAfter(s.Tk(), s1);
  }

  lemma {:induction false} MinusStep(c: Scope, s: State, s1: State)
    requires s.Tk() == SUB && s.Next().Tk() != NUM
    requires ExprSpec(c, s.Next().Emit([Opc.IMM, -1, Opc.PSH]), INC) == Some(s1)
    ensures PrefixSpec(c, s) == Some(s1.Emit([Opc.MUL]).Typed(Ty.INT))
  {
    assert UnarySpec(c, SUB, s.Next()) == Some(s1.Emit([Opc.MUL]).Typed(Ty.INT));
  }

  lemma {:induction false} PreStepStep(c: Scope, s: State, s1: State)
    requires s.Tk() in {INC, DEC} && ExprSpec(c, s.Next(), INC) == Some(s1)
    ensures PrefixSpec(c, s) == UnaryAfter(s.Tk(), s1)
  {
    assert UnarySpec(c, s.Tk(), s.Next()) == UnaryAfter(s.Tk(), s1);
  }

  lemma {:induction false} PostStepStep(c: Scope, up: bool, s: State, s1: State)
    requires s.Tk() == (if up then INC else DEC) && s.ty == Ty.INT && Reload(s) == Some(s1)
    ensures InfixSpec(c, s)
         == Some(s1.Emit([Opc.PSH, Opc.IMM, 1, StepOp(up), Opc.SI, Opc.PSH, Opc.IMM, 1, StepOp(!up)]).Next())
  {
  }

  lemma {:induction false} CastStep(c: Scope, s: State, s1: State)
    requires s.Tk() == LPAREN && s.Next().Tk() == INT && s.Next().Next().Tk() == RPAREN
    requires ExprSpec(c, s.Next().Next().Next(), INC) == Some(s1)
    ensures PrefixSpec(c, s) == Some(s1.Typed(Ty.INT))
  {
    assert Stars(s.Next().Next(), Ty.INT) == (s.Next().Next(), Ty.INT);
    assert ParenSpec(c, s.Next()) == Some(s1.Typed(Ty.INT));
  }

  lemma {:induction false} AssignStep(c: Scope, s: State, s1: State)
    requires s.Tk() == ASSIGN && s.Last() == Opc.LI && s.ty == Ty.INT
    requires ExprSpec(c, s.Next().SetLast(Opc.PSH), ASSIGN) == Some(s1)
    ensures InfixSpec(c, s) == Some(s1.Emit([Opc.SI]).Typed(Ty.INT))
  {
  }

  /** The row of the operator table that a binary operator selects. */
  lemma {:induction false} InfixStep(c: Scope, op: BinOp, s: State, s1: State)
    requires s.Tk() == OpTok(op) && s.ty == Ty.INT
    requires ExprSpec(c, s.Next().Emit([Opc.PSH]), Tighter(op)) == Some(s1) && s1.ty == Ty.INT
    ensures InfixSpec(c, s) == Some(s1.Emit([OpcodeOf(op)]))
  {
    hide ExprSpec, ClimbSpec, PrefixSpec;
    assert op.Plus? ==> AddSpec(c, s.Next(), Ty.INT) == Some(s1.Emit([Opc.ADD]));
    assert op.Minus? ==> SubSpec(c, s.Next(), Ty.INT) == Some(s1.Emit([Opc.SUB]));
  }

  lemma {:induction false} ShortStep(c: Scope, s: State, branch: int, tight: int, s1: State)
    requires (s.Tk() == LOR && branch == Opc.BNZ && tight == LAN) || (s.Tk() == LAN && branch == Opc.BZ && tight == OR)
    requires ExprSpec(c, s.Next().Emit([branch, 0]), tight) == Some(s1)
    ensures InfixSpec(c, s) == Some(s1.Patch(|s.code| + 1, |s1.code|).Typed(Ty.INT))
  {
    assert ShortSpec(c, s.Next(), branch, tight) == Some(s1.Patch(|s.code| + 1, |s1.code|).Typed(Ty.INT));
  }

  lemma {:induction false} ChooseStep(c: Scope, s: State, s1: State, s2: State)
    requires s.Tk() == COND
    requires ExprSpec(c, s.Next().Emit([Opc.BZ, 0]), ASSIGN) == Some(s1) && s1.Tk() == COLON
    requires ExprSpec(c, s1.Next().Patch(|s.code| + 1, |s1.code| + 2).Emit([Opc.JMP, 0]), COND) == Some(s2)
    ensures InfixSpec(c, s) == Some(s2.Patch(|s1.code| + 1, |s2.code|))
  {
    assert CondSpec(c, s.Next()) == Some(s2.Patch(|s1.code| + 1, |s2.code|));
  }

  // ---------------------------------------------------------------- emitted code as concatenations

  lemma {:induction false} Append2(p: seq<int>, a: seq<int>, b: seq<int>)
    ensures p + a + b == p + (a + b)
  {
  }

  lemma {:induction false} Append3(p: seq<int>, a: seq<int>, b: seq<int>, d: seq<int>)
    ensures p + a + b + d == p + (a + b + d)
  {
  }

  lemma {:induction false} Append4(p: seq<int>, a: seq<int>, b: seq<int>, d: seq<int>, e: seq<int>)
    ensures p + a + b + d + e == p + (a + b + d + e)
  {
  }

  lemma {:induction false} Append5(p: seq<int>, a: seq<int>, b: seq<int>, d: seq<int>, e: seq<int>, f: seq<int>)
    ensures p + a + b + d + e + f == p + (a + b + d + e + f)
  {
  }

  /** Backpatching the operand of an open branch. */
  lemma {:induction false} Patched(p: seq<int>, op: int, a: seq<int>, w: int)
    ensures (p + [op, 0] + a)[|p| + 1 := w] == p + [op, w] + a
  {
  }

  /** Two alternatives with a branch to the second and a jump over it, both patched. */
  lemma {:induction false} Diamond(p: seq<int>, ct: seq<int>, cy: seq<int>, cn: seq<int>, no: int, end: int)
    ensures var s2 := p + ct + [Opc.BZ, 0] + cy;
      var s4 := s2[|p| + |ct| + 1 := no] + [Opc.JMP, 0] + cn;
      s4[|s2| + 1 := end] == p + (ct + [Opc.BZ, no] + cy + [Opc.JMP, end] + cn)
  {
    var s2 := p + ct + [Opc.BZ, 0] + cy;
    Patched(p + ct, Opc.BZ, cy, no);
    Patched(p + ct + [Opc.BZ, no] + cy, Opc.JMP, cn, end);
    Append5(p, ct, [Opc.BZ, no], cy, [Opc.JMP, end], cn);
  }

  // ---------------------------------------------------------------- the parser on printed trees

  /** The tokens of a tree printed for a level. */
  lemma PrintTokens(e: Expr, printed: int, s: State, rest: seq<Token>)
    requires s.toks == Print(e, printed, rest)
    ensures if Prec(e) < printed then s.Tk() == LPAREN && s.Next().toks == Bare(e, [Plain(RPAREN)] + rest)
      else s.toks == Bare(e, rest)
  {
    hide Bare;
  }

  /** Parsing a printed tree at a level no tighter than the one it was printed for leaves the climbing
      loop with the tree's code emitted and the rest of the tokens. */
  lemma {:induction false} ParsePrint(c: Scope, e: Expr, level: int, printed: int, s: State, rest: seq<Token>)
    requires Wf(c, e) && level <= printed <= INC
    requires s.toks == Print(e, printed, rest) && Follows(rest, Bound(e, printed))
    ensures ExprSpec(c, s, level) == ClimbSpec(c, Parsed(c, s, e, rest), level)
    decreases e, 2
  {
    hide ExprSpec, ClimbSpec, PrefixSpec, InfixSpec, Code, Print, Bare, Faults;
    PrintTokens(e, printed, s, rest);
    if Prec(e) < printed {
      var inner := [Plain(RPAREN)] + rest;
      var s1 := s.Next();
      BareStarts(e, inner);
      ParseBare(c, e, ASSIGN, s1, inner);
      var s2 := Parsed(c, s1, e, inner);
      Stop(c, s2, ASSIGN);
      ParenStep(c, s, s2);
      assert s2.Next() == Parsed(c, s, e, rest);
      Begin(c, s, Parsed(c, s, e, rest), level);
    } else {
      ParseBare(c, e, level, s, rest);
    }
  }

  /** The same when the token after the tree ends the climbing loop. */
  lemma {:induction false} ParseWhole(c: Scope, e: Expr, level: int, s: State, rest: seq<Token>)
    requires Wf(c, e) && 0 < level <= INC
    requires s.toks == Print(e, level, rest) && Follows(rest, level)
    ensures ExprSpec(c, s, level) == Some(Parsed(c, s, e, rest))
    decreases e, 3
  {
    BoundIsAbove(e, level);
    ParsePrint(c, e, level, level, s, rest);
    Stop(c, Parsed(c, s, e, rest), level);
  }

  lemma {:induction false} ParseBare(c: Scope, e: Expr, level: int, s: State, rest: seq<Token>)
    requires Wf(c, e) && level <= Prec(e) && level <= INC
    requires s.toks == Bare(e, rest) && Follows(rest, RightLevel(e))
    ensures ExprSpec(c, s, level) == ClimbSpec(c, Parsed(c, s, e, rest), level)
    decreases e, 1
  {
    hide ExprSpec, ClimbSpec, PrefixSpec, InfixSpec;
    match e {
      case Set(v, rhs) => ParseSet(c, v, rhs, level, s, rest);
      case Bin(op, l, r) => ParseBin(c, op, l, r, level, s, rest);
      case OrElse(l, r) => ParseOrElse(c, l, r, level, s, rest);
      case AndAlso(l, r) => ParseAndAlso(c, l, r, level, s, rest);
      case Choose(t, y, n) => ParseChoose(c, t, y, n, level, s, rest);
      case PostStep(v, up) => ParsePostStep(c, v, up, level, s, rest);
      case _ =>
        ParsePrefix(c, e, s, rest);
        Begin(c, s, Parsed(c, s, e, rest), level);
    }
  }

  /** Trees that the prefix part of the parser consumes whole. */
  lemma {:induction false} ParsePrefix(c: Scope, e: Expr, s: State, rest: seq<Token>)
    requires Wf(c, e) && Prec(e) == ATOM && !e.PostStep?
    requires s.toks == Bare(e, rest) && Follows(rest, RightLevel(e))
    ensures PrefixSpec(c, s) == Some(Parsed(c, s, e, rest))
    decreases e, 0
  {
    hide ExprSpec, ClimbSpec, PrefixSpec, InfixSpec;
    var s1 := s.Next();
    match e {
      case Lit(n) => ParseLit(c, n, s, rest);
      case Var(v) => ParseVar(c, v, s, rest);
      case SizeofInt => ParseSizeof(c, s, rest);
      case Not(a) =>
        ParseWhole(c, a, INC, s1, rest);
        UnaryStep(c, s, Parsed(c, s1, a, rest));
        Append2(s.code, Code(c, a, |s.code|), [Opc.PSH, Opc.IMM, 0, Opc.EQ]);
      case Compl(a) =>
        ParseWhole(c, a, INC, s1, rest);
        UnaryStep(c, s, Parsed(c, s1, a, rest));
        Append2(s.code, Code(c, a, |s.code|), [Opc.PSH, Opc.IMM, -1, Opc.XOR]);
      case Pos(a) =>
        ParseWhole(c, a, INC, s1, rest);
        UnaryStep(c, s, Parsed(c, s1, a, rest));
      case Neg(a) => ParseNeg(c, a, s, rest);
      case Cast(a) =>
        var s3 := s1.Next().Next();
        assert s3.toks == Print(a, INC, rest);
        ParseWhole(c, a, INC, s3, rest);
        CastStep(c, s, Parsed(c, s3, a, rest));
      case PreStep(v, up) => ParsePreStep(c, v, up, s, rest);
    }
  }

  lemma {:induction false} ParseLit(c: Scope, n: int, s: State, rest: seq<Token>)
    requires s.toks == [Token(NUM, n, 0)] + rest
    ensures PrefixSpec(c, s) == Some(Parsed(c, s, Lit(n), rest))
  {
    assert s.Next().toks == rest;
  }

  lemma {:induction false} ParseNeg(c: Scope, a: Expr, s: State, rest: seq<Token>)
    requires Wf(c, a) && s.toks == Bare(Neg(a), rest) && Follows(rest, INC)
    ensures PrefixSpec(c, s) == Some(Parsed(c, s, Neg(a), rest))
    decreases a, 4
  {
    PrintStarts(a, INC, rest);
    var s1 := s.Next();
    if a.Lit? {
      assert s1.Next().toks == rest;
    } else {
      var s2 := s1.Emit([Opc.IMM, -1, Opc.PSH]);
      ParseWhole(c, a, INC, s2, rest);
      MinusStep(c, s, Parsed(c, s2, a, rest));
      Append3(s.code, [Opc.IMM, -1, Opc.PSH], Code(c, a, |s2.code|), [Opc.MUL]);
    }
  }

  lemma {:induction false} ParseVar(c: Scope, v: nat, s: State, rest: seq<Token>)
    requires IsName(c, v) && s.toks == [Token(ID, 0, v)] + rest
    requires rest == [] || rest[0].kind != LPAREN
    ensures PrefixSpec(c, s) == Some(Parsed(c, s, Var(v), rest))
  {
    assert s.Next().toks == rest;
    var d := c.Lookup(v);
    assert d.cls == LOC ==> Code(c, Var(v), |s.code|) == [Opc.LEA, c.loc - d.val, Opc.LI];
    assert d.cls == GLO ==> Code(c, Var(v), |s.code|) == [Opc.IMM, d.val, Opc.LI];
    assert d.cls == NUM ==> Code(c, Var(v), |s.code|) == [Opc.IMM, d.val];
    assert NameSpec(s.Next(), c.loc, d) == Some(Parsed(c, s, Var(v), rest));
  }

  lemma {:induction false} ParseSizeof(c: Scope, s: State, rest: seq<Token>)
    requires s.toks == Bare(SizeofInt, rest)
    ensures PrefixSpec(c, s) == Some(Parsed(c, s, SizeofInt, rest))
  {
    var s1 := s.Next();
    var s3 := s1.Next().Next();
    assert s1.Tk() == LPAREN && s1.Next().Tk() == INT && s3.Tk() == RPAREN && s3.Next().toks == rest;
    assert Stars(s3, Ty.INT) == (s3, Ty.INT);
    assert SizeofSpec(s1) == Some(Parsed(c, s, SizeofInt, rest));
  }

  /** Turning the load of a variable into a push of its address. */
  lemma {:induction false} StoreCode(c: Scope, v: nat, p: seq<int>)
    requires IsVar(c, v)
    ensures var q := p + Code(c, Var(v), |p|);
      q[|q| - 1] == Opc.LI && q[|q| - 1 := Opc.PSH] == p + AddrCode(c, v) + [Opc.PSH]
  {
  }

  lemma {:induction false} ParseSet(c: Scope, v: nat, rhs: Expr, level: int, s: State, rest: seq<Token>)
    requires Wf(c, Set(v, rhs)) && level <= ASSIGN
    requires s.toks == Bare(Set(v, rhs), rest) && Follows(rest, ASSIGN)
    ensures ExprSpec(c, s, level) == ClimbSpec(c, Parsed(c, s, Set(v, rhs), rest), level)
    decreases rhs, 4
  {
    hide ExprSpec, ClimbSpec, PrefixSpec, InfixSpec;
    var tail := [Plain(ASSIGN)] + Print(rhs, ASSIGN, rest);
    assert s.toks == [Token(ID, 0, v)] + tail;
    ParseVar(c, v, s, tail);
    var s1 := Parsed(c, s, Var(v), tail);
    Begin(c, s, s1, level);
    var s2 := s1.Next().SetLast(Opc.PSH);
    StoreCode(c, v, s.code);
    assert s2.toks == Print(rhs, ASSIGN, rest);
    ParseWhole(c, rhs, ASSIGN, s2, rest);
    var s3 := Parsed(c, s2, rhs, rest);
    AssignStep(c, s1, s3);
    Append4(s.code, AddrCode(c, v), [Opc.PSH], Code(c, rhs, |s2.code|), [Opc.SI]);
    Turn(c, s1, Parsed(c, s, Set(v, rhs), rest), level);
  }

  lemma {:induction false} OperatorLevels(op: BinOp)
    ensures OR <= ClassOf(op) <= OpTok(op) < Tighter(op) <= INC
  {
  }

  lemma {:induction false} BoundIsAbove(e: Expr, level: int)
    requires level <= INC
    ensures level <= Bound(e, level)
  {
    if e.Bin? { OperatorLevels(e.op); }
  }

  /** An operator token ends the left operand that was printed for its class. */
  lemma {:induction false} EndsLeft(e: Expr, op: BinOp, rest: seq<Token>)
    ensures Follows([Plain(OpTok(op))] + rest, Bound(e, ClassOf(op)))
  {
    OperatorLevels(op);
  }

  lemma {:induction false} BinEmitted(c: Scope, op: BinOp, l: Expr, r: Expr,
                                      p: seq<int>, p1: seq<int>, p2: seq<int>)
    requires p1 == p + Code(c, l, |p|) && p2 == p1 + [Opc.PSH]
    ensures p2 + Code(c, r, |p2|) + [OpcodeOf(op)] == p + Code(c, Bin(op, l, r), |p|)
  {
    hide Code;
    BinUnfold(c, op, l, r, |p|, |p2|);
    Append4(p, Code(c, l, |p|), [Opc.PSH], Code(c, r, |p2|), [OpcodeOf(op)]);
  }

  lemma {:induction false} ParseBin(c: Scope, op: BinOp, l: Expr, r: Expr, level: int, s: State, rest: seq<Token>)
    requires Wf(c, l) && Wf(c, r) && level <= ClassOf(op)
    requires s.toks == Bare(Bin(op, l, r), rest) && Follows(rest, Tighter(op))
    ensures ExprSpec(c, s, level) == ClimbSpec(c, Parsed(c, s, Bin(op, l, r), rest), level)
    decreases Bin(op, l, r), 0
  {
    hide ExprSpec, ClimbSpec, PrefixSpec, InfixSpec, Code;
    OperatorLevels(op);
    var tail := Print(r, Tighter(op), rest);
    var mid := [Plain(OpTok(op))] + tail;
    EndsLeft(l, op, tail);
    ParsePrint(c, l, level, ClassOf(op), s, mid);
    var s1 := Parsed(c, s, l, mid);
    var s2 := s1.Next().Emit([Opc.PSH]);
    assert s2.toks == tail;
    ParseWhole(c, r, Tighter(op), s2, rest);
    var s3 := Parsed(c, s2, r, rest);
    InfixStep(c, op, s1, s3);
    BinEmitted(c, op, l, r, s.code, s1.code, s2.code);
    Turn(c, s1, Parsed(c, s, Bin(op, l, r), rest), level);
  }

  /** The code of || and && with the branch taken over the right operand. */
  function ShortCode(c: Scope, l: Expr, r: Expr, branch: int, base: nat): seq<int> {
    var cl := Code(c, l, base);
    var cr := Code(c, r, base + |cl| + 2);
    cl + [branch, base + |cl| + 2 + |cr|] + cr
  }

  lemma {:induction false} ShortEmitted(c: Scope, l: Expr, r: Expr, branch: int, p: seq<int>, p1: seq<int>,
                                        p2: seq<int>)
    requires p1 == p + Code(c, l, |p|) && p2 == p1 + [branch, 0]
    ensures var p3 := p2 + Code(c, r, |p2|); p3[|p1| + 1 := |p3|] == p + ShortCode(c, l, r, branch, |p|)
  {
    hide Code;
    var cl, cr := Code(c, l, |p|), Code(c, r, |p2|);
    Patched(p1, branch, cr, |p2 + cr|);
    Append3(p, cl, [branch, |p2 + cr|], cr);
  }

  /** The operator's token ends the left operand. */
  lemma {:induction false} EndsShort(l: Expr, tk: int, tail: seq<Token>)
    requires tk == LOR || tk == LAN
    ensures Follows([Plain(tk)] + tail, Bound(l, tk))
  {
    if l.Bin? { OperatorLevels(l.op); }
  }

  lemma {:induction false} ParseShort(c: Scope, e: Expr, l: Expr, r: Expr, tk: int, tight: int, branch: int,
                                      level: int, s: State, rest: seq<Token>)
    requires (tk == LOR && branch == Opc.BNZ && tight == LAN) || (tk == LAN && branch == Opc.BZ && tight == OR)
    requires l < e && r < e && Wf(c, l) && Wf(c, r) && level <= tk
    requires s.toks == Print(l, tk, [Plain(tk)] + Print(r, tight, rest)) && Follows(rest, tight)
    ensures ExprSpec(c, s, level)
         == ClimbSpec(c, State(rest, s.code + ShortCode(c, l, r, branch, |s.code|), Ty.INT), level)
    decreases e, 0, 0
  {
    hide ExprSpec, ClimbSpec, PrefixSpec, InfixSpec, Print, Code, ShortCode, Bound, Faults;
    var tail := Print(r, tight, rest);
    var mid := [Plain(tk)] + tail;
    EndsShort(l, tk, tail);
    ParsePrint(c, l, level, tk, s, mid);
    var s1 := Parsed(c, s, l, mid);
    var s2 := s1.Next().Emit([branch, 0]);
    assert s2.toks == tail;
    ParseWhole(c, r, tight, s2, rest);
    var s3 := Parsed(c, s2, r, rest);
    ShortStep(c, s1, branch, tight, s3);
    ShortEmitted(c, l, r, branch, s.code, s1.code, s2.code);
    Turn(c, s1, State(rest, s.code + ShortCode(c, l, r, branch, |s.code|), Ty.INT), level);
  }

  lemma {:induction false} ParseOrElse(c: Scope, l: Expr, r: Expr, level: int, s: State, rest: seq<Token>)
    requires Wf(c, l) && Wf(c, r) && level <= LOR
    requires s.toks == Bare(OrElse(l, r), rest) && Follows(rest, LAN)
    ensures ExprSpec(c, s, level) == ClimbSpec(c, Parsed(c, s, OrElse(l, r), rest), level)
    decreases OrElse(l, r), 0
  {
    hide ExprSpec, ClimbSpec, Print, Faults;
    ParseShort(c, OrElse(l, r), l, r, LOR, LAN, Opc.BNZ, level, s, rest);
  }

  lemma {:induction false} ParseAndAlso(c: Scope, l: Expr, r: Expr, level: int, s: State, rest: seq<Token>)
    requires Wf(c, l) && Wf(c, r) && level <= LAN
    requires s.toks == Bare(AndAlso(l, r), rest) && Follows(rest, OR)
    ensures ExprSpec(c, s, level) == ClimbSpec(c, Parsed(c, s, AndAlso(l, r), rest), level)
    decreases AndAlso(l, r), 0
  {
    hide ExprSpec, ClimbSpec, Print, Faults;
    ParseShort(c, AndAlso(l, r), l, r, LAN, OR, Opc.BZ, level, s, rest);
  }

  lemma {:induction false} ParseChoose(c: Scope, t: Expr, y: Expr, n: Expr, level: int, s: State, rest: seq<Token>)
    requires Wf(c, t) && Wf(c, y) && Wf(c, n) && level <= COND
    requires s.toks == Bare(Choose(t, y, n), rest) && Follows(rest, COND)
    ensures ExprSpec(c, s, level) == ClimbSpec(c, Parsed(c, s, Choose(t, y, n), rest), level)
    decreases Choose(t, y, n), 0
  {
    hide ExprSpec, ClimbSpec, PrefixSpec, InfixSpec;
    var no := Print(n, COND, rest);
    var yes := Print(y, ASSIGN, [Plain(COLON)] + no);
    var mid := [Plain(COND)] + yes;
    BoundIsAbove(t, LOR);
    ParsePrint(c, t, level, LOR, s, mid);
    var s1 := Parsed(c, s, t, mid);
    var s2 := s1.Next().Emit([Opc.BZ, 0]);
    assert s2.toks == yes;
    ParseWhole(c, y, ASSIGN, s2, [Plain(COLON)] + no);
    var s3 := Parsed(c, s2, y, [Plain(COLON)] + no);
    var s4 := s3.Next().Patch(|s1.code| + 1, |s3.code| + 2).Emit([Opc.JMP, 0]);
    assert s4.toks == no;
    ParseWhole(c, n, COND, s4, rest);
    var s5 := Parsed(c, s4, n, rest);
    ChooseStep(c, s1, s3, s5);
    ChooseCode(c, t, y, n, s, s1, s2, s3, s4, s5, rest);
    Turn(c, s1, Parsed(c, s, Choose(t, y, n), rest), level);
  }

  /** The two patched branches of a conditional make its code. */
  lemma {:induction false} ChooseCode(c: Scope, t: Expr, y: Expr, n: Expr,
                   s: State, s1: State, s2: State, s3: State, s4: State, s5: State, rest: seq<Token>)
    requires s1.code == s.code + Code(c, t, |s.code|)
    requires s2.code == s1.code + [Opc.BZ, 0]
    requires s3.code == s2.code + Code(c, y, |s2.code|)
    requires s4.code == s3.code[|s1.code| + 1 := |s3.code| + 2] + [Opc.JMP, 0]
    requires s5 == Parsed(c, s4, n, rest)
    ensures s5.Patch(|s3.code| + 1, |s5.code|) == Parsed(c, s, Choose(t, y, n), rest)
  {
    ChooseEmitted(c, t, y, n, s.code, s1.code, s2.code, s3.code, s4.code);
  }

  lemma {:induction false} ChooseEmitted(c: Scope, t: Expr, y: Expr, n: Expr,
                                         p: seq<int>, p1: seq<int>, p2: seq<int>, p3: seq<int>, p4: seq<int>)
    requires p1 == p + Code(c, t, |p|) && p2 == p1 + [Opc.BZ, 0]
    requires p3 == p2 + Code(c, y, |p2|)
    requires p4 == p3[|p1| + 1 := |p3| + 2] + [Opc.JMP, 0]
    ensures var p5 := p4 + Code(c, n, |p4|);
      p5[|p3| + 1 := |p5|] == p + Code(c, Choose(t, y, n), |p|)
  {
    hide Code;
    var ct, cy, cn := Code(c, t, |p|), Code(c, y, |p2|), Code(c, n, |p4|);
    Diamond(p, ct, cy, cn, |p4|, |p4| + |cn|);
    ChooseUnfold(c, t, y, n, |p|, |p2|, |p4|);
  }

  lemma {:induction false} ParsePreStep(c: Scope, v: nat, up: bool, s: State, rest: seq<Token>)
    requires IsVar(c, v) && s.toks == Bare(PreStep(v, up), rest) && Follows(rest, INC)
    ensures PrefixSpec(c, s) == Some(Parsed(c, s, PreStep(v, up), rest))
  {
    hide ExprSpec, ClimbSpec, PrefixSpec, InfixSpec;
    var s1 := s.Next();
    assert s1.toks == [Token(ID, 0, v)] + rest;
    ParseVar(c, v, s1, rest);
    var s2 := Parsed(c, s1, Var(v), rest);
    Begin(c, s1, s2, INC);
    Stop(c, s2, INC);
    PreStepStep(c, s, s2);
    var s3 := s2.SetLast(Opc.PSH).Emit([Opc.LI]);
    assert s3.code == s.code + (AddrCode(c, v) + [Opc.PSH, Opc.LI]);
    assert s3.Emit([Opc.PSH, Opc.IMM, 1, StepOp(up), Opc.SI]) == Parsed(c, s, PreStep(v, up), rest);
  }

  lemma {:induction false} ParsePostStep(c: Scope, v: nat, up: bool, level: int, s: State, rest: seq<Token>)
    requires IsVar(c, v) && s.toks == Bare(PostStep(v, up), rest) && level <= INC
    ensures ExprSpec(c, s, level) == ClimbSpec(c, Parsed(c, s, PostStep(v, up), rest), level)
  {
    hide ExprSpec, ClimbSpec, PrefixSpec, InfixSpec;
    var tail := [StepTok(up)] + rest;
    assert s.toks == [Token(ID, 0, v)] + tail;
    ParseVar(c, v, s, tail);
    var s1 := Parsed(c, s, Var(v), tail);
    Begin(c, s, s1, level);
    var s3 := s1.SetLast(Opc.PSH).Emit([Opc.LI]);
    assert s3.code == s.code + (AddrCode(c, v) + [Opc.PSH, Opc.LI]);
    var s4 := s3.Emit([Opc.PSH, Opc.IMM, 1, StepOp(up), Opc.SI, Opc.PSH, Opc.IMM, 1, StepOp(!up)]);
    assert s4.Next() == Parsed(c, s, PostStep(v, up), rest);
    PostStepStep(c, up, s1, s3);
    Turn(c, s1, s4.Next(), level);
  }
}
