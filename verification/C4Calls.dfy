/** Calls: the arguments are parsed, evaluated and pushed from left to right, and the callee's parameters are where
    its LEA instructions look for them. */
module C4Calls {
  import opened Words
  import opened Tok
  import opened C4ParserSpec
  import opened C4Lang
  import opened C4Code
  import opened C4Vm
  import opened C4ParserProof
  import opened C4ExprSim
  import opened Wrappers
  import Opc

  predicate WfArgs(c: Scope, es: seq<Expr>) {
    forall k :: 0 <= k < |es| ==> Wf(c, es[k])
  }

  /** The arguments with commas between them, the closing parenthesis, and rest. */
  function PrintArgs(es: seq<Expr>, rest: seq<Token>): seq<Token> {
    if es == [] then [Plain(RPAREN)] + rest
    else Print(es[0], ASSIGN, (if |es| == 1 then [] else [Plain(COMMA)]) + PrintArgs(es[1..], rest))
  }

  function CodeArgs(c: Scope, es: seq<Expr>, base: nat): seq<int> {
    if es == [] then []
    else var ce := Code(c, es[0], base); ce + [Opc.PSH] + CodeArgs(c, es[1..], base + |ce| + 1)
  }

  /** The words of a call of the function at entry. */
  function CodeCall(c: Scope, es: seq<Expr>, base: nat, entry: int): seq<int> {
    CodeArgs(c, es, base) + [Opc.JSR, entry] + if es == [] then [] else [Opc.ADJ, |es|]
  }

  /** The arguments' values, from left to right, and the store afterwards. */
  function Values(c: Scope, es: seq<Expr>, st: Store): (r: (seq<int>, Store))
    ensures |r.0| == |es|
  {
    if es == [] then ([], st)
    else
      var (x, st1) := Eval(c, es[0], st);
      var (xs, st2) := Values(c, es[1..], st1);
      ([x] + xs, st2)
  }

  function ArgsDepth(es: seq<Expr>): nat {
    if es == [] then 0 else Max(Depth(es[0]), 1 + ArgsDepth(es[1..]))
  }

  // ---------------------------------------------------------------- parsing

  lemma {:induction false} ArgsParsed(c: Scope, es: seq<Expr>, s: State, rest: seq<Token>, n: nat)
    requires WfArgs(c, es) && s.toks == PrintArgs(es, rest)
    ensures var r := ArgsSpec(c, s, n);
      && r.Some? && r.value.0.toks == [Plain(RPAREN)] + rest
      && r.value.0.code == s.code + CodeArgs(c, es, |s.code|) && r.value.1 == n + |es|
    decreases |es|
  {
    hide ExprSpec, Print, Code, Faults;
    if es != [] {
      var tail := (if |es| == 1 then [] else [Plain(COMMA)]) + PrintArgs(es[1..], rest);
      PrintStarts(es[0], ASSIGN, tail);
      if |es| > 1 { assert tail[0] == Plain(COMMA) && tail[1..] == PrintArgs(es[1..], rest); }
      ParseWhole(c, es[0], ASSIGN, s, tail);
      var s2 := Parsed(c, s, es[0], tail).Emit([Opc.PSH]);
      var s3 := if s2.Tk() == COMMA then s2.Next() else s2;
      assert s3.toks == PrintArgs(es[1..], rest);
      ArgsParsed(c, es[1..], s3, rest, n + 1);
      assert s3.code == s.code + (Code(c, es[0], |s.code|) + [Opc.PSH]);
    }
  }

  /** f(e1, ..., en) in the text becomes the code of the call, with the function's type. */
  lemma {:induction false} CallParsed(c: Scope, f: nat, es: seq<Expr>, s: State, rest: seq<Token>)
    requires WfArgs(c, es) && c.Lookup(f).cls == FUN
    requires s.toks == [Token(ID, 0, f), Plain(LPAREN)] + PrintArgs(es, rest)
    ensures PrefixSpec(c, s)
         == Some(State(rest, s.code + CodeCall(c, es, |s.code|, c.Lookup(f).val), c.Lookup(f).typ))
  {
    hide ExprSpec, ArgsSpec, PrintArgs, CodeArgs;
    var s1 := s.Next().Next();
    assert s1.toks == PrintArgs(es, rest);
    ArgsParsed(c, es, s1, rest, 0);
    assert PrefixSpec(c, s) == CallSpec(c, s1, c.Lookup(f));
    var ca, jump := CodeArgs(c, es, |s.code|), [Opc.JSR, c.Lookup(f).val];
    var end := ArgsSpec(c, s1, 0).value.0;
    assert end.Next().toks == rest;
    assert s.code + ca + jump == s.code + (ca + jump + []);
    assert s.code + ca + jump + [Opc.ADJ, |es|] == s.code + (ca + jump + [Opc.ADJ, |es|]);
  }

  // ---------------------------------------------------------------- running

  /** The machine has run the arguments: their values are on the stack, the first one highest. */
  ghost predicate RanArgs(c: Scope, code: seq<int>, floor: int, m: Vm, st: Store, es: seq<Expr>, n: nat, m': Vm)
    requires 0 <= m.pc
  {
    var (vs, st') := Values(c, es, st);
    var end := m.pc + |CodeArgs(c, es, m.pc)|;
    && Goes(code, m, n, m', m.pc, end)
    && m'.pc == end && m'.sp == m.sp - |es| && m'.bp == m.bp
    && Holds(c, st', m') && Quiet(c, floor, m, m')
    && forall k :: 0 <= k < |es| ==> Load(m'.mem, m.sp - 1 - k) == vs[k]
  }

  ghost predicate ReadyArgs(c: Scope, code: seq<int>, floor: int, m: Vm, st: Store, es: seq<Expr>)
    requires 0 <= m.pc
  {
    && WfArgs(c, es) && At(code, m.pc, CodeArgs(c, es, m.pc))
    && Layout(c, m.bp, floor, m.sp) && floor + ArgsDepth(es) <= m.sp && Holds(c, st, m)
  }

  lemma Nothing(code: seq<int>, m: Vm)
    ensures Goes(code, m, 0, m, m.pc, m.pc)
  {
  }

  /** The first argument is evaluated and pushed; the machine is ready for the others. */
  lemma {:induction false} FirstArg(c: Scope, code: seq<int>, floor: int, m: Vm, st: Store, es: seq<Expr>)
      returns (n: nat, m': Vm)
    requires 0 <= m.pc && ReadyArgs(c, code, floor, m, st, es) && es != []
    ensures var (x, st') := Eval(c, es[0], st);
      var end := m.pc + |Code(c, es[0], m.pc)| + 1;
      && Pushed(c, code, floor, m, n, m', x, st', m.pc, end, end)
      && m'.pc == end && ReadyArgs(c, code, floor, m', st', es[1..])
  {
    hide Goes, Eval, Code, Faults, Depth, Holds, Layout, Quiet, Step;
    var e := es[0];
    var ce := Code(c, e, m.pc);
    var more := CodeArgs(c, es[1..], m.pc + |ce| + 1);
    assert CodeArgs(c, es, m.pc) == ce + [Opc.PSH] + more;
    AtThree(code, m.pc, ce, [Opc.PSH], more);
    AtWord(code, m.pc + |ce|, [Opc.PSH], 0);
    var n1, m1 := ExprSim(c, code, floor, m, st, e);
    var (x, st') := Eval(c, e, st);
    PushAfter(c, code, floor, m, n1, m1, x, st', m.pc, m.pc + |ce|, m.pc + |ce| + 1);
    n, m' := n1 + 1, Step(code, m1);
  }

  lemma {:induction false} ArgsSim(c: Scope, code: seq<int>, floor: int, m: Vm, st: Store, es: seq<Expr>)
      returns (n: nat, m': Vm)
    requires 0 <= m.pc && ReadyArgs(c, code, floor, m, st, es)
    ensures RanArgs(c, code, floor, m, st, es, n, m')
    decreases |es|
  {
    hide Goes, Eval, Code, Faults, Step;
    if es == [] {
      n, m' := 0, m;
      Nothing(code, m);
    } else {
      var n2, m2 := FirstArg(c, code, floor, m, st, es);
      var st2 := Eval(c, es[0], st).1;
      var n3;
      n3, m' := ArgsSim(c, code, floor, m2, st2, es[1..]);
      n := n2 + n3;
      var end := m.pc + |CodeArgs(c, es, m.pc)|;
      GoesOn(code, m, n2, m2, m.pc, m2.pc, n3, m', m2.pc, end, m.pc, end);
    }
  }

  // ---------------------------------------------------------------- the call

  /** The parameters of a callee, in order, by the offsets that its declaration gave them. */
  ghost predicate Parameters(c: Scope, ids: seq<nat>) {
    && c.loc == |ids| + 1
    && forall k :: 0 <= k < |ids| ==> c.Lookup(ids[k]).cls == LOC && c.Lookup(ids[k]).val == k
  }

  /** The machine has run a call up to the callee's first instruction: each parameter is its argument's value, and
      the frame has the caller's frame pointer and the position behind the call. */
  ghost predicate Entered(m: Vm, callee: Scope, ids: seq<nat>, vs: seq<int>, back: int, entry: int, m': Vm)
    requires |vs| == |ids|
  {
    && m'.pc == entry + 2 && m'.bp == m.sp - |ids| - 2
    && Load(m'.mem, m'.bp) == m.bp && Load(m'.mem, m'.bp + 1) == back
    && forall k :: 0 <= k < |ids| ==> Load(m'.mem, Addr(callee, ids[k], m'.bp)) == vs[k]
  }

  lemma {:induction false} CallSim(c: Scope, callee: Scope, ids: seq<nat>, code: seq<int>, floor: int, m: Vm,
                                   st: Store, es: seq<Expr>, entry: nat)
      returns (n: nat, m': Vm)
    requires 0 <= m.pc && ReadyArgs(c, code, floor, m, st, es) && At(code, m.pc, CodeCall(c, es, m.pc, entry))
    requires |ids| == |es| && Parameters(callee, ids) && entry + 1 < |code| && code[entry] == Opc.ENT
    ensures m' == Steps(code, m, n)
    ensures Entered(m, callee, ids, Values(c, es, st).0, m.pc + |CodeArgs(c, es, m.pc)| + 2, entry, m')
    ensures m'.sp == m'.bp - code[entry + 1]
  {
    hide At, Step, Steps, Stays, Code, Faults, Values, ReadyArgs, Holds, Quiet, Layout, Entered;
    var ca, tail := CodeArgs(c, es, m.pc), if es == [] then [] else [Opc.ADJ, |es|];
    AtThree(code, m.pc, ca, [Opc.JSR, entry], tail);
    AtWord(code, m.pc + |ca|, [Opc.JSR, entry], 0);
    AtWord(code, m.pc + |ca|, [Opc.JSR, entry], 1);
    var n1, m1 := ArgsSim(c, code, floor, m, st, es);
    CallEnters(code, m1, entry);
    StepsPlus(code, m, n1, 2);
    n, m' := n1 + 2, Steps(code, m1, 2);
    FrameHas(callee, ids, Values(c, es, st).0, m, m1, entry, m');
  }

  /** With the arguments on the stack of m1, the frame that JSR and ENT make has the parameters. */
  lemma {:induction false} FrameHas(callee: Scope, ids: seq<nat>, vs: seq<int>, m: Vm, m1: Vm, entry: int, m2: Vm)
    requires Parameters(callee, ids) && |vs| == |ids| && m1.sp == m.sp - |ids| && m1.bp == m.bp
    requires forall k :: 0 <= k < |ids| ==> Load(m1.mem, m.sp - 1 - k) == vs[k]
    requires m2.pc == entry + 2 && m2.bp == m1.sp - 2
    requires m2.mem == m1.mem[m1.sp - 1 := m1.pc + 2][m1.sp - 2 := m1.bp]
    ensures Entered(m, callee, ids, vs, m1.pc + 2, entry, m2)
  {
    forall k | 0 <= k < |ids|
      ensures Load(m2.mem, Addr(callee, ids[k], m2.bp)) == vs[k]
    {
      assert Addr(callee, ids[k], m2.bp) == m.sp - 1 - k;
    }
  }

  /** The way back: whatever the callee did, if it kept its frame's two words, its LEV and the ADJ behind the call
      leave the caller's frame and stack as they were before the arguments, with the result in a. */
  lemma {:induction false} CallBack(c: Scope, callee: Scope, ids: seq<nat>, code: seq<int>, m: Vm, es: seq<Expr>,
                                    vs: seq<int>, entry: nat, m1: Vm, m2: Vm)
    requires 0 <= m.pc && At(code, m.pc, CodeCall(c, es, m.pc, entry))
    requires |vs| == |ids| == |es| && Entered(m, callee, ids, vs, m.pc + |CodeArgs(c, es, m.pc)| + 2, entry, m1)
    requires 0 <= m2.pc < |code| && code[m2.pc] == Opc.LEV && m2.bp == m1.bp
    requires Load(m2.mem, m1.bp) == Load(m1.mem, m1.bp) && Load(m2.mem, m1.bp + 1) == Load(m1.mem, m1.bp + 1)
    ensures Steps(code, m2, if es == [] then 1 else 2)
         == Vm(m.pc + |CodeCall(c, es, m.pc, entry)|, m.sp, m.bp, m2.a, m2.mem)
  {
    hide CodeArgs;
    var ca, tail := CodeArgs(c, es, m.pc), if es == [] then [] else [Opc.ADJ, |es|];
    AtThree(code, m.pc, ca, [Opc.JSR, entry], tail);
    var back := Step(code, m2);
    assert back == Vm(m.pc + |ca| + 2, m.sp - |es|, m.bp, m2.a, m2.mem);
    if es == [] {
      assert Steps(code, m2, 1) == back by { assert Steps(code, back, 0) == back; }
    } else {
      AtWord(code, m.pc + |ca| + 2, tail, 0);
      AtWord(code, m.pc + |ca| + 2, tail, 1);
      assert Steps(code, m2, 2) == Step(code, back) by { assert Steps(code, Step(code, back), 0) == Step(code, back); }
    }
  }
}
