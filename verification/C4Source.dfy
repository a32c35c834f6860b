/** From source text to behaviour: a statement's text, in any layout, compiles to code that does what it means. */
module C4Source {
  import opened Wrappers
  import opened Words
  import opened Tok
  import opened C4ParserSpec
  import opened C4Lang
  import opened C4Vm
  import opened C4StmtSim
  import opened C4StmtParserProof
  import opened C4Theorems
  import opened C4Scanner
  import opened C4Layout

  /** Every declared name is an identifier of the scanner's table. */
  ghost predicate Named(c: Scope, sym: seq<Entry>) {
    forall v :: v in c.syms ==> v < |sym| && sym[v].tk == ID
  }

  ghost predicate AllSpelled(sym: seq<Entry>, toks: seq<Token>) {
    forall t :: t in toks ==> Spelled(sym, t)
  }

  lemma {:induction false} NameSpelled(c: Scope, sym: seq<Entry>, v: nat)
    requires Named(c, sym) && v in c.syms
    ensures Spelled(sym, Token(ID, 0, v))
  {
  }

  lemma {:induction false} More(sym: seq<Entry>, t: Token, rest: seq<Token>)
    requires Spelled(sym, t) && AllSpelled(sym, rest)
    ensures AllSpelled(sym, [t] + rest)
  {
    hide Spelled;
  }

  lemma {:induction false} PlainSpelled(sym: seq<Entry>, k: int, rest: seq<Token>)
    requires (Keyword(k) != [] || OpText(k) != []) && AllSpelled(sym, rest)
    ensures AllSpelled(sym, [Plain(k)] + rest)
  {
    KindOfPlain(k);
    More(sym, Plain(k), rest);
  }

  lemma KindOfPlain(k: int)
    requires Keyword(k) != [] || OpText(k) != []
    ensures k != NUM && k != ID
  {
  }

  lemma OpSpelled(op: BinOp)
    ensures OpText(OpTok(op)) != []
  {
  }

  /** The tokens of a well-formed tree can all be spelled. */
  lemma {:induction false} PrintSpelled(c: Scope, sym: seq<Entry>, e: Expr, level: int, rest: seq<Token>)
    requires Named(c, sym) && Wf(c, e) && AllSpelled(sym, rest)
    ensures AllSpelled(sym, Print(e, level, rest))
    decreases e, 2
  {
    hide AllSpelled, Named, Faults, Keyword;
    if Prec(e) < level {
      PlainSpelled(sym, RPAREN, rest);
      BareSpelled(c, sym, e, [Plain(RPAREN)] + rest);
      PlainSpelled(sym, LPAREN, Bare(e, [Plain(RPAREN)] + rest));
    } else {
      BareSpelled(c, sym, e, rest);
    }
  }

  lemma {:induction false} BareSpelled(c: Scope, sym: seq<Entry>, e: Expr, rest: seq<Token>)
    requires Named(c, sym) && Wf(c, e) && AllSpelled(sym, rest)
    ensures AllSpelled(sym, Bare(e, rest))
    decreases e, 1
  {
    hide AllSpelled, Named, Keyword, Spelled, Print;
    match e {
      case Lit(n) => LitSpelled(sym, n, rest);
      case Var(v) => VarSpelled(c, sym, v, rest);
      case SizeofInt => SizeofSpelled(sym, rest);
      case Set(v, rhs) =>
        PrintSpelled(c, sym, rhs, ASSIGN, rest);
        PlainSpelled(sym, ASSIGN, Print(rhs, ASSIGN, rest));
        VarSpelled(c, sym, v, [Plain(ASSIGN)] + Print(rhs, ASSIGN, rest));
        assert [Token(ID, 0, v)] + ([Plain(ASSIGN)] + Print(rhs, ASSIGN, rest)) == Bare(e, rest);
      case Bin(op, l, r) =>
        OpSpelled(op);
        InfixSpelled(c, sym, e, l, ClassOf(op), OpTok(op), r, Tighter(op), rest);
      case OrElse(l, r) => InfixSpelled(c, sym, e, l, LOR, LOR, r, LAN, rest);
      case AndAlso(l, r) => InfixSpelled(c, sym, e, l, LAN, LAN, r, OR, rest);
      case Choose(t, y, n) =>
        PrintSpelled(c, sym, n, COND, rest);
        PlainSpelled(sym, COLON, Print(n, COND, rest));
        PrintSpelled(c, sym, y, ASSIGN, [Plain(COLON)] + Print(n, COND, rest));
        PlainSpelled(sym, COND, Print(y, ASSIGN, [Plain(COLON)] + Print(n, COND, rest)));
        PrintSpelled(c, sym, t, LOR, [Plain(COND)] + Print(y, ASSIGN, [Plain(COLON)] + Print(n, COND, rest)));
      case Not(a) => PrefixSpelled(c, sym, BANG, a, rest);
      case Compl(a) => PrefixSpelled(c, sym, TILDE, a, rest);
      case Neg(a) => PrefixSpelled(c, sym, SUB, a, rest);
      case Pos(a) => PrefixSpelled(c, sym, ADD, a, rest);
      case Cast(a) => CastSpelled(c, sym, a, rest);
      case PreStep(v, up) => StepsSpelled(c, sym, v, up, rest);
      case PostStep(v, up) => StepsSpelled(c, sym, v, up, rest);
    }
  }

  lemma {:induction false} LitSpelled(sym: seq<Entry>, n: int, rest: seq<Token>)
    requires IsWord(n) && AllSpelled(sym, rest)
    ensures AllSpelled(sym, [Token(NUM, n, 0)] + rest)
  {
    More(sym, Token(NUM, n, 0), rest);
  }

  lemma {:induction false} VarSpelled(c: Scope, sym: seq<Entry>, v: nat, rest: seq<Token>)
    requires Named(c, sym) && v in c.syms && AllSpelled(sym, rest)
    ensures AllSpelled(sym, [Token(ID, 0, v)] + rest)
  {
    hide AllSpelled;
    NameSpelled(c, sym, v);
    More(sym, Token(ID, 0, v), rest);
  }

  lemma {:induction false} SizeofSpelled(sym: seq<Entry>, rest: seq<Token>)
    requires AllSpelled(sym, rest)
    ensures AllSpelled(sym, [Plain(SIZEOF), Plain(LPAREN), Plain(INT), Plain(RPAREN)] + rest)
  {
    hide AllSpelled;
    PlainSpelled(sym, RPAREN, rest);
    PlainSpelled(sym, INT, [Plain(RPAREN)] + rest);
    PlainSpelled(sym, LPAREN, [Plain(INT)] + ([Plain(RPAREN)] + rest));
    PlainSpelled(sym, SIZEOF, [Plain(LPAREN)] + ([Plain(INT)] + ([Plain(RPAREN)] + rest)));
    assert [Plain(SIZEOF)] + ([Plain(LPAREN)] + ([Plain(INT)] + ([Plain(RPAREN)] + rest)))
        == [Plain(SIZEOF), Plain(LPAREN), Plain(INT), Plain(RPAREN)] + rest;
  }

  lemma {:induction false} InfixSpelled(c: Scope, sym: seq<Entry>, e: Expr, l: Expr, low: int, k: int,
                                          r: Expr, high: int, rest: seq<Token>)
    requires l < e && r < e && Named(c, sym) && Wf(c, l) && Wf(c, r) && AllSpelled(sym, rest) && OpText(k) != []
    ensures AllSpelled(sym, Print(l, low, [Plain(k)] + Print(r, high, rest)))
    decreases e, 0
  {
    hide AllSpelled, Named, Faults, Print, OpText;
    PrintSpelled(c, sym, r, high, rest);
    PlainSpelled(sym, k, Print(r, high, rest));
    PrintSpelled(c, sym, l, low, [Plain(k)] + Print(r, high, rest));
  }

  lemma {:induction false} PrefixSpelled(c: Scope, sym: seq<Entry>, k: int, a: Expr, rest: seq<Token>)
    requires Named(c, sym) && Wf(c, a) && AllSpelled(sym, rest) && OpText(k) != []
    ensures AllSpelled(sym, [Plain(k)] + Print(a, INC, rest))
    decreases a, 3
  {
    hide AllSpelled, Named, Faults, Print, OpText;
    PrintSpelled(c, sym, a, INC, rest);
    PlainSpelled(sym, k, Print(a, INC, rest));
  }

  lemma {:induction false} CastSpelled(c: Scope, sym: seq<Entry>, a: Expr, rest: seq<Token>)
    requires Named(c, sym) && Wf(c, a) && AllSpelled(sym, rest)
    ensures AllSpelled(sym, [Plain(LPAREN), Plain(INT), Plain(RPAREN)] + Print(a, INC, rest))
    decreases a, 3
  {
    hide AllSpelled, Named, Faults, Print;
    var p := Print(a, INC, rest);
    PrintSpelled(c, sym, a, INC, rest);
    PlainSpelled(sym, RPAREN, p);
    PlainSpelled(sym, INT, [Plain(RPAREN)] + p);
    PlainSpelled(sym, LPAREN, [Plain(INT)] + ([Plain(RPAREN)] + p));
    assert [Plain(LPAREN)] + ([Plain(INT)] + ([Plain(RPAREN)] + p)) == [Plain(LPAREN), Plain(INT), Plain(RPAREN)] + p;
  }

  lemma {:induction false} StepsSpelled(c: Scope, sym: seq<Entry>, v: nat, up: bool, rest: seq<Token>)
    requires Named(c, sym) && v in c.syms && AllSpelled(sym, rest)
    ensures AllSpelled(sym, [StepTok(up), Token(ID, 0, v)] + rest)
    ensures AllSpelled(sym, [Token(ID, 0, v), StepTok(up)] + rest)
  {
    hide AllSpelled, Named;
    var k := if up then INC else DEC;
    VarSpelled(c, sym, v, rest);
    PlainSpelled(sym, k, [Token(ID, 0, v)] + rest);
    PlainSpelled(sym, k, rest);
    VarSpelled(c, sym, v, [Plain(k)] + rest);
    assert [Plain(k)] + ([Token(ID, 0, v)] + rest) == [StepTok(up), Token(ID, 0, v)] + rest;
    assert [Token(ID, 0, v)] + ([Plain(k)] + rest) == [Token(ID, 0, v), StepTok(up)] + rest;
  }

  // ---------------------------------------------------------------- statements

  lemma {:induction false} OptSpelled(c: Scope, sym: seq<Entry>, o: Option<Expr>, k: int, rest: seq<Token>)
    requires Named(c, sym) && WfOpt(c, o) && AllSpelled(sym, rest) && OpText(k) != []
    ensures AllSpelled(sym, PrintOpt(o, [Plain(k)] + rest))
  {
    hide AllSpelled, Named, Faults, Print, OpText;
    PlainSpelled(sym, k, rest);
    if o.Some? {
      PrintSpelled(c, sym, o.value, ASSIGN, [Plain(k)] + rest);
    }
  }

  /** The condition in parentheses after a keyword. */
  lemma {:induction false} HeadSpelled(c: Scope, sym: seq<Entry>, k: int, t: Expr, rest: seq<Token>)
    requires Named(c, sym) && Wf(c, t) && AllSpelled(sym, rest) && Keyword(k) != []
    ensures AllSpelled(sym, [Plain(k), Plain(LPAREN)] + Print(t, ASSIGN, [Plain(RPAREN)] + rest))
  {
    hide AllSpelled, Named, Faults, Print, Keyword;
    PlainSpelled(sym, RPAREN, rest);
    var p := Print(t, ASSIGN, [Plain(RPAREN)] + rest);
    PrintSpelled(c, sym, t, ASSIGN, [Plain(RPAREN)] + rest);
    TwoSpelled(sym, k, LPAREN, p);
  }

  lemma {:induction false} TwoSpelled(sym: seq<Entry>, k: int, l: int, rest: seq<Token>)
    requires (Keyword(k) != [] || OpText(k) != []) && OpText(l) != [] && AllSpelled(sym, rest)
    ensures AllSpelled(sym, [Plain(k), Plain(l)] + rest)
  {
    hide AllSpelled, Keyword, OpText;
    PlainSpelled(sym, l, rest);
    PlainSpelled(sym, k, [Plain(l)] + rest);
    assert [Plain(k)] + ([Plain(l)] + rest) == [Plain(k), Plain(l)] + rest;
  }

  lemma {:induction false} StmtSpelled(c: Scope, sym: seq<Entry>, s: Stmt, rest: seq<Token>)
    requires Named(c, sym) && WfStmt(c, s) && AllSpelled(sym, rest)
    ensures AllSpelled(sym, PrintStmt(s, rest))
    decreases s, 0
  {
    hide AllSpelled, Named, Faults, Print, PrintOpt, OptFaults, OpText, Keyword;
    Texts();
    match s {
      case If(t, y) =>
        StmtSpelled(c, sym, y, rest);
        HeadSpelled(c, sym, IF, t, PrintStmt(y, rest));
      case IfElse(t, y, n) =>
        StmtSpelled(c, sym, n, rest);
        PlainSpelled(sym, ELSE, PrintStmt(n, rest));
        ClosedSpelled(c, sym, y, [Plain(ELSE)] + PrintStmt(n, rest));
        HeadSpelled(c, sym, IF, t, PrintClosed(y, [Plain(ELSE)] + PrintStmt(n, rest)));
      case While(t, b) =>
        StmtSpelled(c, sym, b, rest);
        HeadSpelled(c, sym, WHILE, t, PrintStmt(b, rest));
      case For(i, t, st, b) =>
        StmtSpelled(c, sym, b, rest);
        var p := PrintStmt(b, rest);
        OptSpelled(c, sym, st, RPAREN, p);
        var q := PrintOpt(st, [Plain(RPAREN)] + p);
        OptSpelled(c, sym, t, SEMI, q);
        var r := PrintOpt(t, [Plain(SEMI)] + q);
        OptSpelled(c, sym, i, SEMI, r);
        TwoSpelled(sym, FOR, LPAREN, PrintOpt(i, [Plain(SEMI)] + r));
      case Return(r) =>
        OptSpelled(c, sym, r, SEMI, rest);
        PlainSpelled(sym, RETURN, PrintOpt(r, [Plain(SEMI)] + rest));
      case Block(ss) =>
        PlainSpelled(sym, RBRACE, rest);
        StmtsSpelled(c, sym, ss, [Plain(RBRACE)] + rest);
        PlainSpelled(sym, LBRACE, PrintStmts(ss, [Plain(RBRACE)] + rest));
      case Skip => PlainSpelled(sym, SEMI, rest);
      case Do(e) =>
        PlainSpelled(sym, SEMI, rest);
        PrintSpelled(c, sym, e, ASSIGN, [Plain(SEMI)] + rest);
    }
  }

  lemma Texts()
    ensures Keyword(IF) != [] && Keyword(ELSE) != [] && Keyword(WHILE) != [] && Keyword(FOR) != []
    ensures Keyword(RETURN) != []
    ensures OpText(LPAREN) != [] && OpText(RPAREN) != [] && OpText(SEMI) != [] && OpText(LBRACE) != []
    ensures OpText(RBRACE) != []
  {
  }

  lemma {:induction false} ClosedSpelled(c: Scope, sym: seq<Entry>, s: Stmt, rest: seq<Token>)
    requires Named(c, sym) && WfStmt(c, s) && AllSpelled(sym, rest)
    ensures AllSpelled(sym, PrintClosed(s, rest))
    decreases s, 1
  {
    hide AllSpelled, Named, StmtFaults, OpText, Keyword, PrintStmt;
    Texts();
    if EndsOpen(s) {
      PlainSpelled(sym, RBRACE, rest);
      StmtSpelled(c, sym, s, [Plain(RBRACE)] + rest);
      PlainSpelled(sym, LBRACE, PrintStmt(s, [Plain(RBRACE)] + rest));
    } else {
      StmtSpelled(c, sym, s, rest);
    }
  }

  lemma {:induction false} StmtsSpelled(c: Scope, sym: seq<Entry>, ss: Stmts, rest: seq<Token>)
    requires Named(c, sym) && WfStmts(c, ss) && AllSpelled(sym, rest)
    ensures AllSpelled(sym, PrintStmts(ss, rest))
    decreases ss
  {
    hide AllSpelled, Named, StmtFaults, PrintStmt;
    match ss {
      case Nil =>
      case Cons(s, tail) =>
        StmtsSpelled(c, sym, tail, rest);
        StmtSpelled(c, sym, s, PrintStmts(tail, rest));
    }
  }

  // ---------------------------------------------------------------- the whole way

  /** A statement written out in any layout: the scanner finds its tokens, the parser accepts them and consumes
      exactly them, and the machine running what it emitted does what the statement means. */
  lemma {:induction false} SourceAndRun(c: Scope, s: Stmt, text: seq<char>, v: View, gaps: seq<seq<char>>,
                                        rest: seq<Token>, p: State, floor: int, m: Vm, st: Store, fuel: nat)
      returns (n: nat, m': Vm)
    requires Equipped(v.sym) && Named(c, v.sym) && WfStmt(c, s) && MayFollow(s, rest) && AllSpelled(v.sym, rest)
    requires |gaps| == |PrintStmt(s, rest)| + 1 && Separate(gaps)
    requires v.p <= |text| && text[v.p..] == TextOf(v.sym, PrintStmt(s, rest), gaps)
    requires p.toks == ScanAll(text, v)
    requires Framed(c, floor, m, st, StmtDepth(s)) && m.pc == |p.code|
    ensures var r := StmtSpec(c, p);
      && r.Some? && r.value.toks == rest && p.code <= r.value.code
      && Does(c, r.value.code, floor, m, Exec(c, s, st, fuel), fuel, n, m', |p.code|, |r.value.code|)
  {
    hide StmtSpec, PrintStmt, Does, Exec, TextOf, Named, WfStmt, Equipped, Framed, MayFollow, ScanAll, Spelled;
    StmtSpelled(c, v.sym, s, rest);
    ScanLayout(text, v, PrintStmt(s, rest), gaps);
    n, m' := CompileAndRun(c, s, p, rest, floor, m, st, fuel);
  }
}
