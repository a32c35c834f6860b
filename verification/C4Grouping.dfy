/** How the parser groups operators, in C's own terms: by precedence, and from left to right within one. */
module C4Grouping {
  import opened Wrappers
  import opened Tok
  import opened C4ParserSpec
  import opened C4Lang
  import opened C4ParserProof

  /** C's precedence of the binary operators, from 10 for the tightest. */
  function Rank(op: BinOp): nat {
    match op
    case Times => 10
    case Over => 10
    case Modulo => 10
    case Plus => 9
    case Minus => 9
    case ShiftLeft => 8
    case ShiftRight => 8
    case Less => 7
    case Greater => 7
    case AtMost => 7
    case AtLeast => 7
    case Equal => 6
    case NotEqual => 6
    case BitAnd => 5
    case BitXor => 4
    case BitOr => 3
  }

  /** The operators' tokens by their names. */
  function Operator(op: BinOp): Token {
    Plain(match op
          case BitOr => OR
          case BitXor => XOR
          case BitAnd => AND
          case Equal => EQ
          case NotEqual => NE
          case Less => LT
          case Greater => GT
          case AtMost => LE
          case AtLeast => GE
          case ShiftLeft => SHL
          case ShiftRight => SHR
          case Plus => ADD
          case Minus => SUB
          case Times => MUL
          case Over => DIV
          case Modulo => MOD)
  }

  /** An operand that needs no parentheses anywhere. */
  predicate Atom(c: Scope, e: Expr) {
    Wf(c, e) && (e.Lit? || e.Var? || e.SizeofInt? || e.PostStep?)
  }

  /** x op1 y op2 z, where no parentheses say how to read it. */
  function Three(x: Expr, o1: Token, y: Expr, o2: Token, z: Expr, rest: seq<Token>): seq<Token> {
    Bare(x, [o1] + Bare(y, [o2] + Bare(z, rest)))
  }

  /** The tighter operator takes the middle operand, and the left one of two in the same class. */
  lemma {:induction false} OperatorsGroup(c: Scope, op1: BinOp, op2: BinOp, x: Expr, y: Expr, z: Expr, s: State,
                                          rest: seq<Token>)
    requires Atom(c, x) && Atom(c, y) && Atom(c, z) && Follows(rest, ASSIGN)
    requires s.toks == Three(x, Operator(op1), y, Operator(op2), z, rest)
    ensures var e := if Rank(op1) >= Rank(op2) then Bin(op2, Bin(op1, x, y), z) else Bin(op1, x, Bin(op2, y, z));
      ExprSpec(c, s, ASSIGN) == Some(Parsed(c, s, e, rest))
  {
    hide ExprSpec, Follows, Parsed, Operator;
    OperatorIs(op1);
    OperatorIs(op2);
    RanksAre(op1, op2);
    if Rank(op1) >= Rank(op2) {
      LeftPrinted(op1, op2, x, y, z, rest);
      ParseWhole(c, Bin(op2, Bin(op1, x, y), z), ASSIGN, s, rest);
    } else {
      RightPrinted(op1, op2, x, y, z, rest);
      ParseWhole(c, Bin(op1, x, Bin(op2, y, z)), ASSIGN, s, rest);
    }
  }

  lemma OperatorIs(op: BinOp)
    ensures Operator(op) == Plain(OpTok(op))
  {
  }

  lemma RanksAre(op1: BinOp, op2: BinOp)
    ensures Rank(op1) >= Rank(op2) <==> ClassOf(op1) >= ClassOf(op2)
    ensures Rank(op1) < Rank(op2) <==> ClassOf(op2) >= Tighter(op1)
  {
  }

  lemma {:induction false} LeftPrinted(op1: BinOp, op2: BinOp, x: Expr, y: Expr, z: Expr, rest: seq<Token>)
    requires Prec(x) == ATOM && Prec(y) == ATOM && Prec(z) == ATOM && ClassOf(op1) >= ClassOf(op2)
    ensures Print(Bin(op2, Bin(op1, x, y), z), ASSIGN, rest)
         == Three(x, Plain(OpTok(op1)), y, Plain(OpTok(op2)), z, rest)
  {
    hide OpTok, Bare, Tighter, ClassOf;
    ClassesAre(op1);
    ClassesAre(op2);
    var tail := [Plain(OpTok(op2))] + Bare(z, rest);
    NodePrinted(Bin(op2, Bin(op1, x, y), z), rest);
    NodePrinted(Bin(op1, x, y), tail);
  }

  lemma {:induction false} RightPrinted(op1: BinOp, op2: BinOp, x: Expr, y: Expr, z: Expr, rest: seq<Token>)
    requires Prec(x) == ATOM && Prec(y) == ATOM && Prec(z) == ATOM && ClassOf(op2) >= Tighter(op1)
    ensures Print(Bin(op1, x, Bin(op2, y, z)), ASSIGN, rest)
         == Three(x, Plain(OpTok(op1)), y, Plain(OpTok(op2)), z, rest)
  {
    hide OpTok, Bare, Tighter, ClassOf;
    ClassesAre(op1);
    ClassesAre(op2);
    NodePrinted(Bin(op1, x, Bin(op2, y, z)), rest);
    NodePrinted(Bin(op2, y, z), rest);
  }

  lemma ClassesAre(op: BinOp)
    ensures LAN < ClassOf(op) < Tighter(op) < ATOM
  {
  }

  /** The trees that three operands with && and || between them, or one of these and another operator, stand for:
      && is tighter than ||, each groups from the left, and both are looser than the others. */
  function Logical(x: Expr, y: Expr, z: Expr, op: BinOp): seq<(Token, Token, Expr)> {
    var o1, o2, o := Plain(LAN), Plain(LOR), Operator(op);
    [(o1, o2, OrElse(AndAlso(x, y), z)),
     (o2, o1, OrElse(x, AndAlso(y, z))),
     (o1, o1, AndAlso(AndAlso(x, y), z)),
     (o2, o2, OrElse(OrElse(x, y), z)),
     (o, o1, AndAlso(Bin(op, x, y), z)),
     (o1, o, AndAlso(x, Bin(op, y, z))),
     (o, o2, OrElse(Bin(op, x, y), z)),
     (o2, o, OrElse(x, Bin(op, y, z)))]
  }

  lemma {:induction false} LogicalGroup(c: Scope, x: Expr, y: Expr, z: Expr, op: BinOp, k: nat, s: State,
                                        rest: seq<Token>)
    requires Atom(c, x) && Atom(c, y) && Atom(c, z) && Follows(rest, ASSIGN) && k < 8
    requires var (o1, o2, _) := Logical(x, y, z, op)[k]; s.toks == Three(x, o1, y, o2, z, rest)
    ensures ExprSpec(c, s, ASSIGN) == Some(Parsed(c, s, Logical(x, y, z, op)[k].2, rest))
  {
    hide ExprSpec, Follows, Parsed;
    LogicalPrinted(x, y, z, op, k, rest);
    ParseWhole(c, Logical(x, y, z, op)[k].2, ASSIGN, s, rest);
  }

  lemma {:induction false} LogicalPrinted(x: Expr, y: Expr, z: Expr, op: BinOp, k: nat, rest: seq<Token>)
    requires Prec(x) == ATOM && Prec(y) == ATOM && Prec(z) == ATOM && k < 8
    ensures var (o1, o2, e) := Logical(x, y, z, op)[k]; Print(e, ASSIGN, rest) == Three(x, o1, y, o2, z, rest)
  {
    hide Operator, OpTok, Bare;
    OperatorIs(op);
    ClassesAre(op);
    var (o1, o2, e) := Logical(x, y, z, op)[k];
    var last := Bare(z, rest);
    var tail := [o2] + last;
    assert forall l {:trigger Print(z, l, rest)} :: l <= ATOM ==> Print(z, l, rest) == last;
    assert forall l {:trigger Print(y, l, tail)} :: l <= ATOM ==> Print(y, l, tail) == Bare(y, tail);
    NodePrinted(e, rest);
    if k in {0, 2, 3, 4, 6} {
      NodePrinted(e.left, tail);
    } else {
      NodePrinted(e.right, rest);
    }
  }

  lemma NodePrinted(e: Expr, rest: seq<Token>)
    ensures e.OrElse? ==> Bare(e, rest) == Print(e.left, LOR, [Plain(LOR)] + Print(e.right, LAN, rest))
    ensures e.AndAlso? ==> Bare(e, rest) == Print(e.left, LAN, [Plain(LAN)] + Print(e.right, OR, rest))
    ensures e.Bin? ==>
      Bare(e, rest) == Print(e.left, ClassOf(e.op), [Plain(OpTok(e.op))] + Print(e.right, Tighter(e.op), rest))
    ensures e.Choose? ==>
      Bare(e, rest)
      == Print(e.cond, LOR, [Plain(COND)] + Print(e.yes, ASSIGN, [Plain(COLON)] + Print(e.no, COND, rest)))
  {
  }

  /** Assignment groups from the right. */
  lemma {:induction false} AssignGroups(c: Scope, v: nat, w: nat, x: Expr, s: State, rest: seq<Token>)
    requires IsVar(c, v) && IsVar(c, w) && Atom(c, x) && Follows(rest, ASSIGN)
    requires s.toks == [Token(ID, 0, v), Plain(ASSIGN)] + ([Token(ID, 0, w), Plain(ASSIGN)] + Bare(x, rest))
    ensures ExprSpec(c, s, ASSIGN) == Some(Parsed(c, s, Set(v, Set(w, x)), rest))
  {
    hide ExprSpec, Follows, Parsed;
    assert Bare(x, rest) == Print(x, ASSIGN, rest);
    assert Bare(Set(w, x), rest) == Print(Set(w, x), ASSIGN, rest);
    ParseWhole(c, Set(v, Set(w, x)), ASSIGN, s, rest);
  }

  /** ?: groups from the right. */
  lemma {:induction false} ChoiceGroups(c: Scope, x: Expr, y: Expr, z: Expr, u: Expr, w: Expr, s: State,
                                        rest: seq<Token>)
    requires Atom(c, x) && Atom(c, y) && Atom(c, z) && Atom(c, u) && Atom(c, w) && Follows(rest, ASSIGN)
    requires var more := [Plain(COND)] + Bare(u, [Plain(COLON)] + Bare(w, rest));
      s.toks == Three(x, Plain(COND), y, Plain(COLON), z, more)
    ensures ExprSpec(c, s, ASSIGN) == Some(Parsed(c, s, Choose(x, y, Choose(z, u, w)), rest))
  {
    hide ExprSpec, Follows, Parsed, Bare;
    ChoicePrinted(z, u, w, rest);
    ChoicePrinted(x, y, Choose(z, u, w), rest);
    ParseWhole(c, Choose(x, y, Choose(z, u, w)), ASSIGN, s, rest);
  }

  lemma ChoicePrinted(x: Expr, y: Expr, z: Expr, rest: seq<Token>)
    requires Prec(x) == ATOM && Prec(y) == ATOM && Prec(z) >= COND
    ensures Print(Choose(x, y, z), ASSIGN, rest) == Print(Choose(x, y, z), COND, rest)
         == Three(x, Plain(COND), y, Plain(COLON), z, rest)
  {
    hide Bare;
    NodePrinted(Choose(x, y, z), rest);
    assert Print(z, COND, rest) == Bare(z, rest);
  }

  /** A unary minus takes only what follows it directly. */
  lemma {:induction false} MinusGroups(c: Scope, x: Expr, y: Expr, op: BinOp, s: State, rest: seq<Token>)
    requires Atom(c, x) && Atom(c, y) && Follows(rest, ASSIGN)
    requires s.toks == [Plain(SUB)] + Bare(x, [Operator(op)] + Bare(y, rest))
    ensures ExprSpec(c, s, ASSIGN) == Some(Parsed(c, s, Bin(op, Neg(x), y), rest))
  {
    hide ExprSpec, Follows, Parsed, Operator, OpTok, Tighter, ClassOf;
    OperatorIs(op);
    ClassesAre(op);
    var tail := [Operator(op)] + Bare(y, rest);
    assert Bare(x, tail) == Print(x, INC, tail);
    assert Bare(Neg(x), tail) == Print(Neg(x), ClassOf(op), tail);
    assert Bare(y, rest) == Print(y, Tighter(op), rest);
    NodePrinted(Bin(op, Neg(x), y), rest);
    ParseWhole(c, Bin(op, Neg(x), y), ASSIGN, s, rest);
  }
}
