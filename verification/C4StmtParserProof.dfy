/** The statement parser turns the printed form of a statement into its code, branches patched. */
module C4StmtParserProof {
  import opened Wrappers
  import opened Tok
  import opened C4ParserSpec
  import opened C4Lang
  import opened C4Code
  import opened C4ParserProof
  import Opc

  /** The parser succeeded, with these tokens left and this code. */
  predicate Leaves(r: Option<State>, rest: seq<Token>, code: seq<int>) {
    r.Some? && r.value.toks == rest && r.value.code == code
  }

  /** After an open `if`, an `else` would be taken as its own. */
  predicate MayFollow(s: Stmt, rest: seq<Token>) {
    EndsOpen(s) ==> rest == [] || rest[0].kind != ELSE
  }

  lemma {:induction false} ParseTop(c: Scope, e: Expr, s: State, rest: seq<Token>)
    requires Wf(c, e) && s.toks == Print(e, ASSIGN, rest)
    requires rest != [] && rest[0].kind in {SEMI, RPAREN}
    ensures ExprSpec(c, s, ASSIGN) == Some(Parsed(c, s, e, rest))
    ensures StartsExpr(s.Tk())
  {
    PrintStarts(e, ASSIGN, rest);
    ParseWhole(c, e, ASSIGN, s, rest);
  }

  lemma {:induction false} ParseHead(c: Scope, t: Expr, s: State, rest: seq<Token>)
    requires Wf(c, t) && s.toks == [Plain(LPAREN)] + Print(t, ASSIGN, [Plain(RPAREN)] + rest)
    ensures Leaves(HeadSpec(c, s), rest, s.code + Code(c, t, |s.code|) + [Opc.BZ, 0])
  {
    var s1 := s.Next();
    var tail := [Plain(RPAREN)] + rest;
    assert s1.toks == Print(t, ASSIGN, tail);
    ParseTop(c, t, s1, tail);
    assert tail[1..] == rest;
  }

  lemma {:induction false} ParseOpt(c: Scope, o: Option<Expr>, s: State, k: int, rest: seq<Token>)
    requires k in {SEMI, RPAREN} && WfOpt(c, o) && s.toks == PrintOpt(o, [Plain(k)] + rest)
    ensures Leaves(OptExprSpec(c, s, k), [Plain(k)] + rest, s.code + CodeOpt(c, o, |s.code|))
  {
    if o.Some? {
      ParseTop(c, o.value, s, [Plain(k)] + rest);
    }
  }

  /** Stepping over an expected token. */
  lemma {:induction false} Skips(s: State, k: int, rest: seq<Token>)
    requires s.toks == [Plain(k)] + rest
    ensures s.Expect(k) == Some(State(rest, s.code, s.ty))
  {
  }

  lemma {:induction false} ParseStmt(c: Scope, s: Stmt, st: State, rest: seq<Token>)
    requires WfStmt(c, s) && st.toks == PrintStmt(s, rest) && MayFollow(s, rest)
    ensures Leaves(StmtSpec(c, st), rest, st.code + CodeStmt(c, s, |st.code|))
    decreases s, 1
  {
    hide ExprSpec, StmtSpec, HeadSpec, BlockSpec;
    match s {
      case If(t, y) => ParseIf(c, t, y, st, rest);
      case IfElse(t, y, n) => ParseIfElse(c, t, y, n, st, rest);
      case While(t, b) => ParseWhile(c, t, b, st, rest);
      case For(i, t, step, b) => ParseFor(c, i, t, step, b, st, rest);
      case Return(r) => ParseReturn(c, r, st, rest);
      case Block(ss) =>
        assert st.Next().toks == PrintStmts(ss, [Plain(RBRACE)] + rest);
        ParseStmts(c, ss, st.Next(), rest);
        BlockStep(c, st);
      case Skip =>
        assert st.Next().toks == rest;
        SkipStep(c, st);
      case Do(e) =>
        ParseTop(c, e, st, [Plain(SEMI)] + rest);
        Skips(Parsed(c, st, e, [Plain(SEMI)] + rest), SEMI, rest);
        DoStep(c, st, Parsed(c, st, e, [Plain(SEMI)] + rest));
    }
  }

  lemma {:induction false} BlockStep(c: Scope, s: State)
    requires s.Tk() == LBRACE
    ensures StmtSpec(c, s) == BlockSpec(c, s.Next())
  {
    hide ExprSpec;
  }

  lemma {:induction false} BlockEnd(c: Scope, s: State)
    requires s.Tk() == RBRACE
    ensures BlockSpec(c, s) == Some(s.Next())
  {
    hide ExprSpec, StmtSpec;
  }

  lemma {:induction false} BlockTurn(c: Scope, s: State, s1: State)
    requires s.Tk() != RBRACE && StmtSpec(c, s) == Some(s1)
    ensures BlockSpec(c, s) == BlockSpec(c, s1)
  {
    hide ExprSpec, StmtSpec;
  }

  lemma {:induction false} SkipStep(c: Scope, s: State)
    requires s.Tk() == SEMI
    ensures StmtSpec(c, s) == Some(s.Next())
  {
    hide ExprSpec;
  }

  lemma {:induction false} DoStep(c: Scope, s: State, s1: State)
    requires StartsExpr(s.Tk()) && ExprSpec(c, s, ASSIGN) == Some(s1)
    ensures StmtSpec(c, s) == s1.Expect(SEMI)
  {
    hide ExprSpec;
  }

  lemma {:induction false} ParseReturn(c: Scope, r: Option<Expr>, st: State, rest: seq<Token>)
    requires WfOpt(c, r) && st.toks == PrintStmt(Return(r), rest)
    ensures Leaves(StmtSpec(c, st), rest, st.code + CodeStmt(c, Return(r), |st.code|))
  {
    hide ExprSpec;
    var s1 := st.Next();
    assert s1.toks == PrintOpt(r, [Plain(SEMI)] + rest);
    ParseOpt(c, r, s1, SEMI, rest);
    var s2 := OptExprSpec(c, s1, SEMI).value.Emit([Opc.LEV]);
    Skips(s2, SEMI, rest);
    Append2(st.code, CodeOpt(c, r, |st.code|), [Opc.LEV]);
  }

  /** A statement that starts a line never starts with a closing brace or `else`. */
  lemma {:induction false} StmtStarts(s: Stmt, rest: seq<Token>)
    ensures PrintStmt(s, rest) != [] && PrintStmt(s, rest)[0].kind !in {RBRACE, ELSE}
  {
    match s {
      case Do(e) => PrintStarts(e, ASSIGN, [Plain(SEMI)] + rest);
      case _ =>
    }
  }

  lemma {:induction false} ParseStmts(c: Scope, ss: Stmts, st: State, rest: seq<Token>)
    requires WfStmts(c, ss) && st.toks == PrintStmts(ss, [Plain(RBRACE)] + rest)
    ensures Leaves(BlockSpec(c, st), rest, st.code + CodeStmts(c, ss, |st.code|))
    decreases ss, 1
  {
    hide ExprSpec, StmtSpec, HeadSpec, BlockSpec;
    match ss {
      case Nil =>
        assert st.Next().toks == rest;
        BlockEnd(c, st);
      case Cons(s, tail) =>
        var more := PrintStmts(tail, [Plain(RBRACE)] + rest);
        StmtStarts(s, more);
        assert more[0].kind != ELSE by {
          if tail.Cons? { StmtStarts(tail.head, PrintStmts(tail.tail, [Plain(RBRACE)] + rest)); }
        }
        ParseStmt(c, s, st, more);
        var s1 := StmtSpec(c, st).value;
        BlockTurn(c, st, s1);
        ParseStmts(c, tail, s1, rest);
        Append2(st.code, CodeStmt(c, s, |st.code|), CodeStmts(c, tail, |s1.code|));
    }
  }

  /** The branch before an `else`, which may stand in braces. */
  lemma {:induction false} ParseClosed(c: Scope, s: Stmt, st: State, rest: seq<Token>)
    requires WfStmt(c, s) && st.toks == PrintClosed(s, rest)
    ensures Leaves(StmtSpec(c, st), rest, st.code + CodeStmt(c, s, |st.code|))
    decreases s, 2
  {
    hide ExprSpec, StmtSpec, HeadSpec, BlockSpec;
    if EndsOpen(s) {
      var s1 := st.Next();
      assert s1.toks == PrintStmt(s, [Plain(RBRACE)] + rest);
      StmtStarts(s, [Plain(RBRACE)] + rest);
      ParseStmt(c, s, s1, [Plain(RBRACE)] + rest);
      var s2 := StmtSpec(c, s1).value;
      assert s2.Next().toks == rest;
      BlockEnd(c, s2);
      BlockTurn(c, s1, s2);
      BlockStep(c, st);
    } else {
      ParseStmt(c, s, st, rest);
    }
  }

  lemma IfTokens(t: Expr, y: Stmt, st: State, rest: seq<Token>)
    requires st.toks == PrintStmt(If(t, y), rest)
    ensures st.Tk() == IF
    ensures st.Next().toks == [Plain(LPAREN)] + Print(t, ASSIGN, [Plain(RPAREN)] + PrintStmt(y, rest))
  {
    hide Print;
  }

  lemma IfElseTokens(t: Expr, y: Stmt, n: Stmt, st: State, rest: seq<Token>)
    requires st.toks == PrintStmt(IfElse(t, y, n), rest)
    ensures st.Tk() == IF
    ensures st.Next().toks
         == [Plain(LPAREN)] + Print(t, ASSIGN, [Plain(RPAREN)] + PrintClosed(y, [Plain(ELSE)] + PrintStmt(n, rest)))
  {
    hide Print, PrintClosed;
  }

  lemma WhileTokens(t: Expr, b: Stmt, st: State, rest: seq<Token>)
    requires st.toks == PrintStmt(While(t, b), rest)
    ensures st.Tk() == WHILE
    ensures st.Next().toks == [Plain(LPAREN)] + Print(t, ASSIGN, [Plain(RPAREN)] + PrintStmt(b, rest))
  {
    hide Print;
  }

  lemma ForTokens(i: Option<Expr>, t: Option<Expr>, step: Option<Expr>, b: Stmt, st: State, rest: seq<Token>)
    requires st.toks == PrintStmt(For(i, t, step, b), rest)
    ensures st.Tk() == FOR
    ensures var tail := PrintOpt(step, [Plain(RPAREN)] + PrintStmt(b, rest));
      st.Next().toks == [Plain(LPAREN)] + PrintOpt(i, [Plain(SEMI)] + PrintOpt(t, [Plain(SEMI)] + tail))
  {
    hide PrintOpt;
  }

  lemma {:induction false} ParseIf(c: Scope, t: Expr, y: Stmt, st: State, rest: seq<Token>)
    requires Wf(c, t) && WfStmt(c, y) && st.toks == PrintStmt(If(t, y), rest) && MayFollow(If(t, y), rest)
    ensures Leaves(StmtSpec(c, st), rest, st.code + CodeStmt(c, If(t, y), |st.code|))
    decreases y, 3
  {
    hide ExprSpec, StmtSpec, HeadSpec, ForHeadSpec, ForStepSpec, Code, CodeOpt, CodeStmt, Print, PrintStmt,
      PrintClosed, Faults;
    var s0 := st.Next();
    IfTokens(t, y, st, rest);
    ParseHead(c, t, s0, PrintStmt(y, rest));
    var s1 := HeadSpec(c, s0).value;
    ParseStmt(c, y, s1, rest);
    var s2 := StmtSpec(c, s1).value;
    IfStep(c, st, s1, s2);
    IfEmitted(c, t, y, st.code, s1.code, s2.code);
  }

  lemma {:induction false} IfStep(c: Scope, s: State, s1: State, s2: State)
    requires s.Tk() == IF && HeadSpec(c, s.Next()) == Some(s1) && |s1.code| >= 2
    requires StmtSpec(c, s1) == Some(s2) && s2.Tk() != ELSE
    ensures StmtSpec(c, s) == Some(s2.Patch(|s1.code| - 1, |s2.code|))
  {
    hide ExprSpec, HeadSpec;
    assert IfSpec(c, s.Next()) == Some(s2.Patch(|s1.code| - 1, |s2.code|));
  }

  lemma {:induction false} IfEmitted(c: Scope, t: Expr, y: Stmt, p: seq<int>, p1: seq<int>, p2: seq<int>)
    requires p1 == p + Code(c, t, |p|) + [Opc.BZ, 0]
    requires p2 == p1 + CodeStmt(c, y, |p1|)
    ensures p2[|p1| - 1 := |p2|] == p + CodeStmt(c, If(t, y), |p|)
  {
    hide Code, CodeOpt;
    var ct, cy := Code(c, t, |p|), CodeStmt(c, y, |p1|);
    Patched(p + ct, Opc.BZ, cy, |p2|);
    Append3(p, ct, [Opc.BZ, |p2|], cy);
  }

  lemma {:induction false} ParseIfElse(c: Scope, t: Expr, y: Stmt, n: Stmt, st: State, rest: seq<Token>)
    requires Wf(c, t) && WfStmt(c, y) && WfStmt(c, n)
    requires st.toks == PrintStmt(IfElse(t, y, n), rest) && MayFollow(n, rest)
    ensures Leaves(StmtSpec(c, st), rest, st.code + CodeStmt(c, IfElse(t, y, n), |st.code|))
    decreases IfElse(t, y, n), 0
  {
    hide ExprSpec, StmtSpec, HeadSpec, ForHeadSpec, ForStepSpec, Code, CodeOpt, CodeStmt, Print, PrintStmt,
      PrintClosed, Faults;
    var s0 := st.Next();
    var tail := [Plain(ELSE)] + PrintStmt(n, rest);
    IfElseTokens(t, y, n, st, rest);
    ParseHead(c, t, s0, PrintClosed(y, tail));
    var s1 := HeadSpec(c, s0).value;
    ParseClosed(c, y, s1, tail);
    var s2 := StmtSpec(c, s1).value;
    var no := |s2.code| + 2;
    var s3 := s2.Patch(|s1.code| - 1, no).Emit([Opc.JMP, 0]).Next();
    assert s3.toks == PrintStmt(n, rest);
    ParseStmt(c, n, s3, rest);
    var s4 := StmtSpec(c, s3).value;
    IfElseStep(c, st, s1, s2, s4);
    IfElseEmitted(c, t, y, n, st.code, s1.code, s2.code, s3.code, s4.code);
  }

  lemma {:induction false} IfElseStep(c: Scope, s: State, s1: State, s2: State, s3: State)
    requires s.Tk() == IF && HeadSpec(c, s.Next()) == Some(s1) && |s1.code| >= 2
    requires StmtSpec(c, s1) == Some(s2) && s2.Tk() == ELSE
    requires StmtSpec(c, s2.Patch(|s1.code| - 1, |s2.code| + 2).Emit([Opc.JMP, 0]).Next()) == Some(s3)
    ensures StmtSpec(c, s) == Some(s3.Patch(|s2.code| + 1, |s3.code|))
  {
    hide ExprSpec, HeadSpec, ForHeadSpec, ForStepSpec;
    assert IfSpec(c, s.Next()) == Some(s3.Patch(|s2.code| + 1, |s3.code|));
  }

  lemma {:induction false} IfElseEmitted(c: Scope, t: Expr, y: Stmt, n: Stmt,
                      p: seq<int>, p1: seq<int>, p2: seq<int>, p3: seq<int>, p4: seq<int>)
    requires p1 == p + Code(c, t, |p|) + [Opc.BZ, 0]
    requires p2 == p1 + CodeStmt(c, y, |p1|)
    requires p3 == p2[|p1| - 1 := |p2| + 2] + [Opc.JMP, 0]
    requires p4 == p3 + CodeStmt(c, n, |p3|)
    ensures p4[|p2| + 1 := |p4|] == p + CodeStmt(c, IfElse(t, y, n), |p|)
  {
    hide Code, CodeOpt, CodeStmt;
    IfElseUnfold(c, t, y, n, |p|, |p1|, |p3|);
    Diamond(p, Code(c, t, |p|), CodeStmt(c, y, |p1|), CodeStmt(c, n, |p3|), |p3|, |p4|);
  }

  lemma {:induction false} ParseWhile(c: Scope, t: Expr, b: Stmt, st: State, rest: seq<Token>)
    requires Wf(c, t) && WfStmt(c, b) && st.toks == PrintStmt(While(t, b), rest) && MayFollow(b, rest)
    ensures Leaves(StmtSpec(c, st), rest, st.code + CodeStmt(c, While(t, b), |st.code|))
    decreases b, 3
  {
    hide ExprSpec, StmtSpec, HeadSpec, ForHeadSpec, ForStepSpec, Code, CodeOpt, CodeStmt, Print, PrintStmt,
      PrintClosed, Faults;
    var s0 := st.Next();
    WhileTokens(t, b, st, rest);
    ParseHead(c, t, s0, PrintStmt(b, rest));
    var s1 := HeadSpec(c, s0).value;
    ParseStmt(c, b, s1, rest);
    var s2 := StmtSpec(c, s1).value;
    WhileStep(c, st, s1, s2);
    WhileEmitted(c, t, b, st.code, s1.code, s2.code);
  }

  lemma {:induction false} WhileEmitted(c: Scope, t: Expr, b: Stmt, p: seq<int>, p1: seq<int>, p2: seq<int>)
    requires p1 == p + Code(c, t, |p|) + [Opc.BZ, 0]
    requires p2 == p1 + CodeStmt(c, b, |p1|)
    ensures (p2 + [Opc.JMP, |p|])[|p1| - 1 := |p2| + 2] == p + CodeStmt(c, While(t, b), |p|)
  {
    hide Code, CodeOpt;
    WhileCode(p, Code(c, t, |p|), CodeStmt(c, b, |p1|));
  }

  lemma {:induction false} WhileStep(c: Scope, s: State, s1: State, s2: State)
    requires s.Tk() == WHILE && HeadSpec(c, s.Next()) == Some(s1) && StmtSpec(c, s1) == Some(s2)
    requires |s1.code| >= 2
    ensures StmtSpec(c, s) == Some(s2.Emit([Opc.JMP, |s.code|]).Patch(|s1.code| - 1, |s2.code| + 2))
  {
    hide ExprSpec, HeadSpec, ForHeadSpec, ForStepSpec;
    assert WhileSpec(c, s.Next()) == Some(s2.Emit([Opc.JMP, |s.code|]).Patch(|s1.code| - 1, |s2.code| + 2));
  }

  /** Layout of a `while` with its patch. */
  lemma {:induction false} WhileCode(p: seq<int>, ct: seq<int>, cb: seq<int>)
    ensures var s2 := p + ct + [Opc.BZ, 0] + cb;
      (s2 + [Opc.JMP, |p|])[|p| + |ct| + 1 := |s2| + 2]
      == p + (ct + [Opc.BZ, |s2| + 2] + cb + [Opc.JMP, |p|])
  {
    var back, end := [Opc.JMP, |p|], |p + ct + [Opc.BZ, 0] + cb| + 2;
    Append2(p + ct + [Opc.BZ, 0], cb, back);
    Patched(p + ct, Opc.BZ, cb + back, end);
    Append2(p + ct + [Opc.BZ, end], cb, back);
    Append4(p, ct, [Opc.BZ, end], cb, back);
  }

  /** The head of a `for`: its test starts at the position returned. */
  lemma {:induction false} ParseForHead(c: Scope, i: Option<Expr>, t: Option<Expr>, s: State, rest: seq<Token>)
    requires WfOpt(c, i) && WfOpt(c, t)
    requires s.toks == [Plain(LPAREN)] + PrintOpt(i, [Plain(SEMI)] + PrintOpt(t, [Plain(SEMI)] + rest))
    ensures var r := ForHeadSpec(c, s);
      var ci := CodeOpt(c, i, |s.code|);
      var ct := Code(c, Test(t), |s.code| + |ci|);
      && r.Some?
      && r.value.1 == |s.code| + |ci|
      && r.value.0.toks == rest
      && r.value.0.code == s.code + ci + ct + [Opc.BZ, 0, Opc.JMP, 0]
  {
    hide ExprSpec, StmtSpec, HeadSpec, BlockSpec;
    var s0 := s.Next();
    var tail := PrintOpt(t, [Plain(SEMI)] + rest);
    assert s0.toks == PrintOpt(i, [Plain(SEMI)] + tail);
    Skips(s, LPAREN, PrintOpt(i, [Plain(SEMI)] + tail));
    ParseOpt(c, i, s0, SEMI, tail);
    var s1 := OptExprSpec(c, s0, SEMI).value;
    Skips(s1, SEMI, tail);
    var s2 := s1.Next();
    if t.Some? {
      ParseTop(c, t.value, s2, [Plain(SEMI)] + rest);
      Skips(Parsed(c, s2, t.value, [Plain(SEMI)] + rest), SEMI, rest);
    } else {
      Skips(s2.Emit([Opc.IMM, 1]), SEMI, rest);
    }
  }

  lemma {:induction false} ParseForStep(c: Scope, step: Option<Expr>, a: nat, s: State, rest: seq<Token>)
    requires WfOpt(c, step) && s.toks == PrintOpt(step, [Plain(RPAREN)] + rest)
    ensures Leaves(ForStepSpec(c, s, a), rest, s.code + CodeOpt(c, step, |s.code|) + [Opc.JMP, a])
  {
    hide ExprSpec, StmtSpec, HeadSpec, BlockSpec;
    ParseOpt(c, step, s, RPAREN, rest);
    Skips(OptExprSpec(c, s, RPAREN).value, RPAREN, rest);
  }

  lemma {:induction false} ParseFor(c: Scope, i: Option<Expr>, t: Option<Expr>, step: Option<Expr>, b: Stmt,
                                    st: State, rest: seq<Token>)
    requires WfOpt(c, i) && WfOpt(c, t) && WfOpt(c, step) && WfStmt(c, b)
    requires st.toks == PrintStmt(For(i, t, step, b), rest) && MayFollow(b, rest)
    ensures Leaves(StmtSpec(c, st), rest, st.code + CodeStmt(c, For(i, t, step, b), |st.code|))
    decreases b, 3
  {
    hide ExprSpec, StmtSpec, HeadSpec, ForHeadSpec, ForStepSpec, Code, CodeOpt, CodeStmt, Print, PrintOpt, PrintStmt,
      PrintClosed, Faults;
    var s0 := st.Next();
    var body := PrintStmt(b, rest);
    var tail := PrintOpt(step, [Plain(RPAREN)] + body);
    ForTokens(i, t, step, b, st, rest);
    ParseForHead(c, i, t, s0, tail);
    var (s1, a) := ForHeadSpec(c, s0).value;
    var d := |s1.code|;
    ParseForStep(c, step, a, s1, body);
    var s2 := ForStepSpec(c, s1, a).value;
    var s3 := s2.Patch(d - 1, |s2.code|);
    ParseStmt(c, b, s3, rest);
    var s4 := StmtSpec(c, s3).value;
    ForSteps(c, st, s1, a, s2, s4);
    ForEmitted(c, i, t, step, b, st.code, s1.code, s2.code, s4.code);
  }

  lemma {:induction false} ForEmitted(c: Scope, i: Option<Expr>, t: Option<Expr>, step: Option<Expr>, b: Stmt,
                   p: seq<int>, p1: seq<int>, p2: seq<int>, p4: seq<int>)
    requires p1 == p + CodeOpt(c, i, |p|) + Code(c, Test(t), |p| + |CodeOpt(c, i, |p|)|) + [Opc.BZ, 0, Opc.JMP, 0]
    requires p2 == p1 + CodeOpt(c, step, |p1|) + [Opc.JMP, |p| + |CodeOpt(c, i, |p|)|]
    requires p4 == p2[|p1| - 1 := |p2|] + CodeStmt(c, b, |p2|)
    ensures (p4 + [Opc.JMP, |p1|])[|p1| - 3 := |p4| + 2] == p + CodeStmt(c, For(i, t, step, b), |p|)
  {
    hide Code, CodeOpt, CodeStmt;
    var ci := CodeOpt(c, i, |p|);
    var a := |p| + |ci|;
    var ct, cs, cb := Code(c, Test(t), a), CodeOpt(c, step, |p1|), CodeStmt(c, b, |p2|);
    ForUnfold(c, i, t, step, b, |p|, a, |p1|, |p2|);
    ForCode(p, ci, ct, cs, cb, a, |p1|, |p2|);
  }

  lemma {:induction false} ForSteps(c: Scope, s: State, s1: State, a: nat, s2: State, s4: State)
    requires s.Tk() == FOR && ForHeadSpec(c, s.Next()) == Some((s1, a)) && ForStepSpec(c, s1, a) == Some(s2)
    requires |s1.code| >= 4 && StmtSpec(c, s2.Patch(|s1.code| - 1, |s2.code|)) == Some(s4)
    ensures StmtSpec(c, s) == Some(s4.Emit([Opc.JMP, |s1.code|]).Patch(|s1.code| - 3, |s4.code| + 2))
  {
    hide ExprSpec, HeadSpec, ForHeadSpec, ForStepSpec;
    assert ForSpec(c, s.Next()) == Some(s4.Emit([Opc.JMP, |s1.code|]).Patch(|s1.code| - 3, |s4.code| + 2));
  }

  /** Layout of a `for`: the two patches give the branch over the loop and the jump over the step. */
  lemma {:induction false} ForCode(p: seq<int>, ci: seq<int>, ct: seq<int>, cs: seq<int>, cb: seq<int>, a: int,
                                   d: int, body: int)
    requires d == |p| + |ci| + |ct| + 4 && body == d + |cs| + 2
    ensures var s2 := p + ci + ct + [Opc.BZ, 0, Opc.JMP, 0] + cs + [Opc.JMP, a];
      var s4 := s2[d - 1 := body] + cb + [Opc.JMP, d];
      var end := body + |cb| + 2;
      s4[d - 3 := end]
      == p + (ci + (ct + [Opc.BZ, end, Opc.JMP, body] + cs + [Opc.JMP, a] + cb + [Opc.JMP, d]))
  {
    var end := body + |cb| + 2;
    var s2 := p + ci + ct + [Opc.BZ, 0, Opc.JMP, 0] + cs + [Opc.JMP, a];
    var s3 := p + ci + ct + [Opc.BZ, 0, Opc.JMP, body] + cs + [Opc.JMP, a];
    assert s2[d - 1 := body] == s3;
    var s4 := s3 + cb + [Opc.JMP, d];
    assert s4[d - 3 := end] == p + ci + ct + [Opc.BZ, end, Opc.JMP, body] + cs + [Opc.JMP, a] + cb + [Opc.JMP, d];
  }
}
