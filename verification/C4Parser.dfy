/** c4's parser and code emitter: `expr` and `stmt` advance through the tokens, append to the code and
    patch branch operands in place. Every method does exactly what C4ParserSpec says. */
module C4Parser {
  import opened Wrappers
  import opened Words
  import opened Tok
  import opened C4ParserSpec
  import Opc
  import Ty

  class Parser {
    const scope: Scope
    var toks: seq<Token>  // what `next` has not stepped over, the current token first
    var code: seq<int>    // emitted words; the position `e` is |code| - 1
    var ty: int           // type of the last expression

    constructor (scope: Scope, toks: seq<Token>, code: seq<int>)
      ensures this.scope == scope && St() == State(toks, code, Ty.INT)
    {
      this.scope, this.toks, this.code, this.ty := scope, toks, code, Ty.INT;
    }

    function St(): State
      reads this
    {
      State(toks, code, ty)
    }

    function Tk(): int
      reads this
    {
      if toks == [] then 0 else toks[0].kind
    }

    /** ok tells whether the specified outcome r is a state, and then it is the current one. */
    ghost predicate Meets(r: Option<State>, ok: bool)
      reads this
    {
      ok == r.Some? && (ok ==> St() == r.value)
    }

    method Next()
      modifies this`toks
      ensures St() == old(St()).Next()
    {
      if toks != [] {
        toks := toks[1..];
      }
    }

    method Expect(k: int) returns (ok: bool)
      modifies this`toks
      ensures Meets(old(St()).Expect(k), ok)
    {
      ok := Tk() == k;
      if ok {
        Next();
      }
    }

    method Emit(w: int)
      modifies this`code
      ensures St() == old(St()).Emit([w])
    {
      code := code + [w];
    }

    method Emit2(v: int, w: int)
      modifies this`code
      ensures St() == old(St()).Emit([v, w])
    {
      Emit(v);
      Emit(w);
      assert code == old(code) + [v, w];
    }

    method Patch(d: nat, w: int)
      modifies this`code
      ensures St() == old(St()).Patch(d, w)
    {
      if d < |code| {
        code := code[d := w];
      }
    }

    method Stars(t: int) returns (t': int)
      modifies this`toks
      ensures (St(), t') == C4ParserSpec.Stars(old(St()), t)
    {
      t' := t;
      while Tk() == MUL
        invariant C4ParserSpec.Stars(St(), t') == C4ParserSpec.Stars(old(St()), t)
        decreases |toks|
      {
        Next();
        t' := t' + Ty.PTR;
      }
    }

    method Quotes()
      modifies this`toks
      ensures St() == C4ParserSpec.Quotes(old(St()))
    {
      while Tk() == QUOTE
        invariant C4ParserSpec.Quotes(St()) == C4ParserSpec.Quotes(old(St()))
        decreases |toks|
      {
        Next();
      }
    }

    method Reload() returns (ok: bool)
      modifies this`code
      ensures Meets(C4ParserSpec.Reload(old(St())), ok)
    {
      var last := if code == [] then 0 else code[|code| - 1];
      ok := last == Opc.LC || last == Opc.LI;
      if ok {
        code := code[|code| - 1 := Opc.PSH];
        Emit(last);
      }
    }

    method Sizeof() returns (ok: bool)
      modifies this
      ensures Meets(SizeofSpec(old(St())), ok)
    {
      ok := Expect(LPAREN);
      if !ok { return; }
      var t := Ty.INT;
      if Tk() == INT {
        Next();
      } else if Tk() == CHAR {
        Next();
        t := Ty.CHAR;
      }
      t := Stars(t);
      ok := Expect(RPAREN);
      if !ok { return; }
      Emit2(Opc.IMM, if t == Ty.CHAR then SIZEOF_CHAR else SIZEOF_INT);
      ty := Ty.INT;
    }

    method VarOrConst(d: Symbol) returns (ok: bool)
      modifies this
      ensures Meets(NameSpec(old(St()), scope.loc, d), ok)
    {
      ok := true;
      if d.cls == NUM {
        Emit2(Opc.IMM, d.val);
        ty := Ty.INT;
        return;
      } else if d.cls == LOC {
        Emit2(Opc.LEA, scope.loc - d.val);
      } else if d.cls == GLO {
        Emit2(Opc.IMM, d.val);
      } else {
        ok := false;
        return;
      }
      ty := d.typ;
      Emit(if ty == Ty.CHAR then Opc.LC else Opc.LI);
      assert code == old(code) + [if d.cls == LOC then Opc.LEA else Opc.IMM,
                                  if d.cls == LOC then scope.loc - d.val else d.val, LoadOp(d.typ)];
    }

    method Call(d: Symbol) returns (ok: bool)
      modifies this
      ensures Meets(CallSpec(scope, old(St()), d), ok)
      decreases |toks|, 4
    {
      var n := 0;
      while Tk() != RPAREN
        invariant ArgsSpec(scope, St(), n) == ArgsSpec(scope, old(St()), 0)
        invariant |toks| <= |old(toks)|
        decreases |toks|
      {
        ok := Expr(ASSIGN);
        if !ok { return; }
        Emit(Opc.PSH);
        n := n + 1;
        if Tk() == COMMA {
          Next();
        }
      }
      Next();
      if d.cls == SYS {
        Emit(d.val);
      } else if d.cls == FUN {
        Emit2(Opc.JSR, d.val);
      } else {
        return false;
      }
      if n > 0 {
        Emit2(Opc.ADJ, n);
      }
      ty := d.typ;
      ok := true;
    }

    method Paren() returns (ok: bool)
      modifies this
      ensures Meets(ParenSpec(scope, old(St())), ok)
      decreases |toks|, 3
    {
      if Tk() == INT || Tk() == CHAR {
        var t := if Tk() == INT then Ty.INT else Ty.CHAR;
        Next();
        t := Stars(t);
        ok := Expect(RPAREN);
        if !ok { return; }
        ok := Expr(INC);
        ty := t;
      } else {
        ok := Expr(ASSIGN);
        if !ok { return; }
        ok := Expect(RPAREN);
      }
    }

    method Unary(tk: int) returns (ok: bool)
      modifies this
      ensures Meets(UnarySpec(scope, tk, old(St())), ok)
      decreases |toks|, 3
    {
      if tk == SUB {
        Emit(Opc.IMM);
        if Tk() == NUM {
          Emit(Wrap(-toks[0].ival));
          assert code == old(code) + [Opc.IMM, Wrap(-toks[0].ival)];
          Next();
          ty := Ty.INT;
          return true;
        }
        Emit2(-1, Opc.PSH);
        assert code == old(code) + [Opc.IMM, -1, Opc.PSH];
        ok := Expr(INC);
        if !ok { return; }
        Emit(Opc.MUL);
        ty := Ty.INT;
        return;
      }
      if tk != MUL && tk != AND && tk != BANG && tk != TILDE && tk != ADD && tk != INC && tk != DEC {
        return false;
      }
      ok := Expr(INC);
      if !ok { return; }
      ok := UnaryTail(tk);
    }

    /** What a unary operator emits after its operand. */
    method UnaryTail(tk: int) returns (ok: bool)
      requires tk in {MUL, AND, BANG, TILDE, ADD, INC, DEC}
      modifies this
      ensures Meets(UnaryAfter(tk, old(St())), ok)
    {
      ok := true;
      if tk == MUL {
        if ty <= Ty.INT {
          return false;
        }
        ty := ty - Ty.PTR;
        Emit(LoadOp(ty));
      } else if tk == AND {
        var last := if code == [] then 0 else code[|code| - 1];
        if last != Opc.LC && last != Opc.LI {
          return false;
        }
        code := code[..|code| - 1];
        ty := ty + Ty.PTR;
      } else if tk == BANG || tk == TILDE {
        Emit2(Opc.PSH, Opc.IMM);
        Emit2(if tk == BANG then 0 else -1, if tk == BANG then Opc.EQ else Opc.XOR);
        assert code == old(code)
                    + [Opc.PSH, Opc.IMM, if tk == BANG then 0 else -1, if tk == BANG then Opc.EQ else Opc.XOR];
        ty := Ty.INT;
      } else if tk == ADD {
        ty := Ty.INT;
      } else {
        ok := Reload();
        if !ok { return; }
        Step(tk == INC);
      }
    }

    /** Add or subtract one element and store it back. */
    method Step(up: bool)
      modifies this`code
      ensures St() == old(St()).Emit([Opc.PSH, Opc.IMM, IncSize(ty), if up then Opc.ADD else Opc.SUB, StoreOp(ty)])
    {
      Emit2(Opc.PSH, Opc.IMM);
      Emit(IncSize(ty));
      Emit2(if up then Opc.ADD else Opc.SUB, StoreOp(ty));
      assert code == old(code)
                  + [Opc.PSH, Opc.IMM, IncSize(ty), if up then Opc.ADD else Opc.SUB, StoreOp(ty)];
    }

    method Prefix() returns (ok: bool)
      modifies this
      ensures Meets(PrefixSpec(scope, old(St())), ok)
      decreases |toks|, 0
    {
      var tk := Tk();
      if tk == 0 {
        return false;
      }
      var t := toks[0];
      ok := true;
      if tk == NUM {
        Emit2(Opc.IMM, t.ival);
        Next();
        ty := Ty.INT;
      } else if tk == QUOTE {
        Emit2(Opc.IMM, t.ival);
        Next();
        Quotes();
        ty := Ty.PTR;
      } else {
        Next();
        if tk == SIZEOF {
          ok := Sizeof();
        } else if tk == ID {
          var d := scope.Lookup(t.id);
          if Tk() == LPAREN {
            Next();
            ok := Call(d);
          } else {
            ok := VarOrConst(d);
          }
        } else if tk == LPAREN {
          ok := Paren();
        } else {
          ok := Unary(tk);
        }
      }
    }

    method Conditional() returns (ok: bool)
      modifies this
      ensures Meets(CondSpec(scope, old(St())), ok)
      decreases |toks|, 3
    {
      Emit2(Opc.BZ, 0);
      var d := |code| - 1;
      ok := Expr(ASSIGN);
      if !ok { return; }
      ok := Expect(COLON);
      if !ok { return; }
      Patch(d, |code| + 2);
      Emit2(Opc.JMP, 0);
      d := |code| - 1;
      ok := Expr(COND);
      if !ok { return; }
      Patch(d, |code|);
    }

    method ShortCircuit(branch: int, level: int) returns (ok: bool)
      modifies this
      ensures Meets(ShortSpec(scope, old(St()), branch, level), ok)
      decreases |toks|, 3
    {
      Emit2(branch, 0);
      var d := |code| - 1;
      ok := Expr(level);
      if !ok { return; }
      Patch(d, |code|);
      ty := Ty.INT;
    }

    method Additive(tk: int, t: int) returns (ok: bool)
      requires tk == ADD || tk == SUB
      modifies this
      ensures Meets(if tk == ADD then AddSpec(scope, old(St()), t) else SubSpec(scope, old(St()), t), ok)
      decreases |toks|, 3
    {
      Emit(Opc.PSH);
      ok := Expr(MUL);
      if !ok { return; }
      label Operand:
      if tk == SUB && t > Ty.PTR && t == ty {
        Emit2(Opc.SUB, Opc.PSH);
        Emit2(Opc.IMM, SIZEOF_INT);
        Emit(Opc.DIV);
        assert code == old@Operand(code) + [Opc.SUB, Opc.PSH, Opc.IMM, SIZEOF_INT, Opc.DIV];
        ty := Ty.INT;
        return;
      }
      ty := t;
      if ty > Ty.PTR {
        Emit2(Opc.PSH, Opc.IMM);
        Emit2(SIZEOF_INT, Opc.MUL);
        assert code == old@Operand(code) + [Opc.PSH, Opc.IMM, SIZEOF_INT, Opc.MUL];
      }
      Emit(if tk == ADD then Opc.ADD else Opc.SUB);
      assert tk == SUB && t > Ty.PTR ==>
        code == old@Operand(code) + [Opc.PSH, Opc.IMM, SIZEOF_INT, Opc.MUL, Opc.SUB];
    }

    method Index(t: int) returns (ok: bool)
      modifies this
      ensures Meets(IndexSpec(scope, old(St()), t), ok)
      decreases |toks|, 3
    {
      Emit(Opc.PSH);
      ok := Expr(ASSIGN);
      if !ok { return; }
      ok := Expect(RBRACKET);
      if !ok { return; }
      label Operand:
      if t > Ty.PTR {
        Emit2(Opc.PSH, Opc.IMM);
        Emit2(SIZEOF_INT, Opc.MUL);
        assert code == old@Operand(code) + [Opc.PSH, Opc.IMM, SIZEOF_INT, Opc.MUL];
      } else if t < Ty.PTR {
        return false;
      }
      ty := t - Ty.PTR;
      Emit2(Opc.ADD, LoadOp(ty));
    }

    method PostStep(tk: int) returns (ok: bool)
      requires tk == Tk() && (tk == INC || tk == DEC)
      modifies this
      ensures Meets(InfixSpec(scope, old(St())), ok)
    {
      ok := Reload();
      if !ok { return; }
      label Loaded:
      Step(tk == INC);
      Emit2(Opc.PSH, Opc.IMM);
      Emit2(IncSize(ty), if tk == INC then Opc.SUB else Opc.ADD);
      assert code == old@Loaded(code)
                  + [Opc.PSH, Opc.IMM, IncSize(ty), if tk == INC then Opc.ADD else Opc.SUB, StoreOp(ty),
                     Opc.PSH, Opc.IMM, IncSize(ty), if tk == INC then Opc.SUB else Opc.ADD];
      Next();
    }

    method Infix() returns (ok: bool)
      modifies this
      ensures Meets(InfixSpec(scope, old(St())), ok)
      decreases |toks|, 0
    {
      var tk, t := Tk(), ty;
      if toks == [] || tk == 0 {
        return false;
      }
      if tk == INC || tk == DEC {
        ok := PostStep(tk);
        return;
      }
      Next();
      if tk == ASSIGN {
        if code == [] || (code[|code| - 1] != Opc.LC && code[|code| - 1] != Opc.LI) {
          return false;
        }
        code := code[|code| - 1 := Opc.PSH];
        ok := Expr(ASSIGN);
        if !ok { return; }
        ty := t;
        Emit(StoreOp(ty));
      } else if tk == COND {
        ok := Conditional();
      } else if tk == LOR {
        ok := ShortCircuit(Opc.BNZ, LAN);
      } else if tk == LAN {
        ok := ShortCircuit(Opc.BZ, OR);
      } else if BinaryRow(tk).Some? {
        var (level, op) := BinaryRow(tk).value;
        Emit(Opc.PSH);
        ok := Expr(level);
        if !ok { return; }
        Emit(op);
        ty := Ty.INT;
      } else if tk == ADD || tk == SUB {
        ok := Additive(tk, t);
      } else if tk == BRAK {
        ok := Index(t);
      } else {
        ok := false;
      }
    }

    method Expr(level: int) returns (ok: bool)
      modifies this
      ensures Meets(ExprSpec(scope, old(St()), level), ok)
      decreases |toks|, 2
    {
      ok := Prefix();
      if !ok { return; }
      while Tk() >= level
        invariant |toks| < |old(toks)|
        invariant ClimbSpec(scope, St(), level) == ExprSpec(scope, old(St()), level)
        decreases |toks|
      {
        ok := Infix();
        if !ok { return; }
      }
    }

    /** An expression unless the current token is k. */
    method OptExpr(k: int) returns (ok: bool)
      modifies this
      ensures Meets(OptExprSpec(scope, old(St()), k), ok)
    {
      ok := true;
      if Tk() != k {
        ok := Expr(ASSIGN);
      }
    }

    method Head() returns (ok: bool)
      modifies this
      ensures Meets(HeadSpec(scope, old(St())), ok)
    {
      ok := Expect(LPAREN);
      if !ok { return; }
      ok := Expr(ASSIGN);
      if !ok { return; }
      ok := Expect(RPAREN);
      if !ok { return; }
      Emit2(Opc.BZ, 0);
    }

    method IfStmt() returns (ok: bool)
      modifies this
      ensures Meets(IfSpec(scope, old(St())), ok)
      decreases |toks|, 1
    {
      hide HeadSpec, StmtSpec;
      ok := Head();
      if !ok { return; }
      var b := |code| - 1;
      ok := Stmt();
      if !ok { return; }
      if Tk() == ELSE {
        Patch(b, |code| + 2);
        Emit2(Opc.JMP, 0);
        b := |code| - 1;
        Next();
        ok := Stmt();
        if !ok { return; }
      }
      Patch(b, |code|);
    }

    method WhileStmt() returns (ok: bool)
      modifies this
      ensures Meets(WhileSpec(scope, old(St())), ok)
      decreases |toks|, 1
    {
      var a := |code|;
      ok := Head();
      if !ok { return; }
      var b := |code| - 1;
      ok := Stmt();
      if !ok { return; }
      Emit2(Opc.JMP, a);
      Patch(b, |code|);
    }

    method ForHead() returns (ok: bool, a: nat)
      modifies this
      ensures ok == ForHeadSpec(scope, old(St())).Some?
      ensures ok ==> (St(), a) == ForHeadSpec(scope, old(St())).value
    {
      a := 0;
      ok := Expect(LPAREN);
      if !ok { return; }
      ok := OptExpr(SEMI);
      if !ok { return; }
      ok := Expect(SEMI);
      if !ok { return; }
      a := |code|;
      if Tk() != SEMI {
        ok := Expr(ASSIGN);
        if !ok { return; }
      } else {
        Emit2(Opc.IMM, 1);
      }
      ok := Expect(SEMI);
      if !ok { return; }
      label Condition:
      Emit2(Opc.BZ, 0);
      Emit2(Opc.JMP, 0);
      assert code == old@Condition(code) + [Opc.BZ, 0, Opc.JMP, 0];
    }

    method ForStep(a: nat) returns (ok: bool)
      modifies this
      ensures Meets(ForStepSpec(scope, old(St()), a), ok)
    {
      ok := OptExpr(RPAREN);
      if !ok { return; }
      ok := Expect(RPAREN);
      if !ok { return; }
      Emit2(Opc.JMP, a);
    }

    method ForStmt() returns (ok: bool)
      modifies this
      ensures Meets(ForSpec(scope, old(St())), ok)
      decreases |toks|, 1
    {
      hide ForHeadSpec, ForStepSpec, StmtSpec;
      var a;
      ok, a := ForHead();
      if !ok { return; }
      var b, c, d := |code| - 3, |code| - 1, |code|;
      ok := ForStep(a);
      if !ok { return; }
      Patch(c, |code|);
      ok := Stmt();
      if !ok { return; }
      Emit2(Opc.JMP, d);
      Patch(b, |code|);
    }

    method Block() returns (ok: bool)
      modifies this
      ensures Meets(BlockSpec(scope, old(St())), ok)
      decreases |toks|, 1
    {
      while Tk() != RBRACE
        invariant BlockSpec(scope, St()) == BlockSpec(scope, old(St()))
        invariant |toks| <= |old(toks)|
        decreases |toks|
      {
        ok := Stmt();
        if !ok { return; }
      }
      Next();
      ok := true;
    }

    method Stmt() returns (ok: bool)
      modifies this
      ensures Meets(StmtSpec(scope, old(St())), ok)
      decreases |toks|, 0
    {
      var tk := Tk();
      ok := true;
      if tk == IF {
        Next();
        ok := IfStmt();
      } else if tk == WHILE {
        Next();
        ok := WhileStmt();
      } else if tk == FOR {
        Next();
        ok := ForStmt();
      } else if tk == RETURN {
        Next();
        ok := OptExpr(SEMI);
        if !ok { return; }
        Emit(Opc.LEV);
        ok := Expect(SEMI);
      } else if tk == LBRACE {
        Next();
        ok := Block();
      } else if tk == SEMI {
        Next();
      } else {
        ok := Expr(ASSIGN);
        if !ok { return; }
        ok := Expect(SEMI);
      }
    }
  }
}
