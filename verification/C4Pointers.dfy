/** The branches of c4's expression parser that int trees do not reach: pointers, sizes and array elements, by the laws
    that C has for them, and what the words they emit compute. */
module C4Pointers {
  import opened Wrappers
  import opened Words
  import opened Tok
  import opened C4ParserSpec
  import opened C4Vm
  import opened C4ExprSim
  import Opc
  import Ty

  // ---------------------------------------------------------------- laws of the parser

  /** Climbing to a tighter level first makes no difference. */
  lemma {:induction false} ClimbThrough(c: Scope, s: State, low: int, high: int)
    requires low <= high && ClimbSpec(c, s, high).Some?
    ensures ClimbSpec(c, s, low) == ClimbSpec(c, ClimbSpec(c, s, high).value, low)
    decreases |s.toks|
  {
    hide InfixSpec;
    if s.Tk() >= high {
      ClimbThrough(c, InfixSpec(c, s).value, low, high);
    }
  }

  /** An operand that a looser level would not go on with is the same at that level. */
  lemma {:induction false} SameOperand(c: Scope, s: State, low: int, high: int)
    requires low <= high && ExprSpec(c, s, high).Some? && ExprSpec(c, s, high).value.Tk() < low
    ensures ExprSpec(c, s, low) == ExprSpec(c, s, high)
  {
    hide PrefixSpec, InfixSpec;
    ClimbThrough(c, PrefixSpec(c, s).value, low, high);
  }

  /** a[i] is *(a + i): the same code and type, for every operand i that ends at the bracket. */
  lemma {:induction false} IndexIsDeref(c: Scope, s: State, t: int)
    requires t >= Ty.PTR
    requires var i := ExprSpec(c, s.Emit([Opc.PSH]), MUL); i.Some? && i.value.Tk() == RBRACKET
    ensures AddSpec(c, s, t).Some? && AddSpec(c, s, t).value.Tk() == RBRACKET
    ensures IndexSpec(c, s, t) == UnaryAfter(MUL, AddSpec(c, s, t).value.Next())
    ensures IndexSpec(c, s, t).Some?
  {
    hide ExprSpec;
    SameOperand(c, s.Emit([Opc.PSH]), ASSIGN, MUL);
    var i := ExprSpec(c, s.Emit([Opc.PSH]), MUL).value;
    var code := i.code + if t > Ty.PTR then [Opc.PSH, Opc.IMM, SIZEOF_INT, Opc.MUL] else [];
    assert code + [Opc.ADD, LoadOp(t - Ty.PTR)] == code + [Opc.ADD] + [LoadOp(t - Ty.PTR)];
    assert i.code + [] == i.code;
  }

  /** &*p is p. */
  lemma {:induction false} AddressOfTarget(s: State)
    requires s.ty > Ty.INT
    ensures UnaryAfter(MUL, s).Some? && UnaryAfter(AND, UnaryAfter(MUL, s).value) == Some(s)
  {
    var d := UnaryAfter(MUL, s).value;
    assert d.code[..|d.code| - 1] == s.code;
  }

  /** *&v is v, for what ends with the load of its type. */
  lemma {:induction false} TargetOfAddress(s: State)
    requires s.code != [] && s.Last() == LoadOp(s.ty) && s.ty >= Ty.CHAR
    ensures UnaryAfter(AND, s).Some? && UnaryAfter(MUL, UnaryAfter(AND, s).value) == Some(s)
  {
    assert s.code[..|s.code| - 1] + [LoadOp(s.ty)] == s.code;
  }

  /** Only a pointer can be followed, and only what was loaded has an address. */
  lemma WrongOperand(s: State)
    ensures s.ty <= Ty.INT ==> UnaryAfter(MUL, s) == None
    ensures s.Last() != Opc.LI && s.Last() != Opc.LC ==> UnaryAfter(AND, s) == None && UnaryAfter(INC, s) == None
  {
  }

  /** Following a char pointer loads a char, following any other one a word. */
  lemma {:induction false} DerefIs(s: State, stars: nat, isChar: bool)
    requires stars > 0 && s.ty == (if isChar then 0 else 1) + 2 * stars
    ensures UnaryAfter(MUL, s)
         == Some(State(s.toks, s.code + [if isChar && stars == 1 then Opc.LC else Opc.LI], s.ty - 2))
  {
  }

  /** Assignment: the load that ends its left side becomes a push, and behind the right side comes the store of that
      type. */
  lemma {:induction false} AssignIs(c: Scope, s: State)
    requires s.Tk() == ASSIGN && s.code != []
    ensures var front := s.code[..|s.code| - 1];
      var e := ExprSpec(c, State(s.toks[1..], front + [Opc.PSH], s.ty), ASSIGN);
      InfixSpec(c, s) ==
        if (s.Last() != Opc.LC && s.Last() != Opc.LI) || e.None? then None
        else Some(State(e.value.toks, e.value.code + [if s.ty == 0 then Opc.SC else Opc.SI], s.ty))
  {
    hide ExprSpec;
    assert s.code[|s.code| - 1 := Opc.PSH] == s.code[..|s.code| - 1] + [Opc.PSH];
  }

  /** A variable, local or global: its address and the load of its type; a constant: its value. */
  lemma {:induction false} NameIs(s: State, loc: int, d: Symbol)
    requires d.cls in {NUM, LOC, GLO}
    ensures NameSpec(s, loc, d) == Some(
      if d.cls == NUM then State(s.toks, s.code + [Opc.IMM, d.val], 1)
      else State(s.toks, s.code + (if d.cls == LOC then [Opc.LEA, loc - d.val] else [Opc.IMM, d.val])
                                + [if d.typ == 0 then Opc.LC else Opc.LI], d.typ))
  {
    assert s.code + [Opc.LEA, loc - d.val] + [LoadOp(d.typ)] == s.code + [Opc.LEA, loc - d.val, LoadOp(d.typ)];
    assert s.code + [Opc.IMM, d.val] + [LoadOp(d.typ)] == s.code + [Opc.IMM, d.val, LoadOp(d.typ)];
  }

  /** String literals side by side are one char pointer, to the first one's place. */
  lemma {:induction false} StringsJoin(c: Scope, s: State, n: nat, places: seq<int>, rest: seq<Token>)
    requires |places| == n > 0 && s.toks == seq(n, k requires 0 <= k < n => Token(QUOTE, places[k], 0)) + rest
    requires rest == [] || rest[0].kind != QUOTE
    ensures PrefixSpec(c, s) == Some(State(rest, s.code + [Opc.IMM, places[0]], 2))
  {
    var more := seq(n - 1, k requires 0 <= k < n - 1 => Token(QUOTE, places[k + 1], 0));
    var s1 := s.Emit([Opc.IMM, s.Ival()]).Next();
    assert s1.toks == more + rest;
    QuotesPassed(s1, more, rest);
  }

  lemma {:induction false} QuotesPassed(s: State, front: seq<Token>, rest: seq<Token>)
    requires s.toks == front + rest && forall k :: 0 <= k < |front| ==> front[k].kind == QUOTE
    requires rest == [] || rest[0].kind != QUOTE
    ensures Quotes(s) == s.(toks := rest)
    decreases |front|
  {
    if front != [] {
      assert s.Next().toks == front[1..] + rest;
      QuotesPassed(s.Next(), front[1..], rest);
    } else {
      assert s.toks == rest;
    }
  }

  /** n stars and a closing parenthesis. */
  function StarsThen(n: nat, rest: seq<Token>): seq<Token> {
    if n == 0 then [Plain(RPAREN)] + rest else [Plain(MUL)] + StarsThen(n - 1, rest)
  }

  lemma {:induction false} StarsCounted(s: State, t: int, n: nat, rest: seq<Token>)
    requires s.toks == StarsThen(n, rest)
    ensures Stars(s, t) == (s.(toks := [Plain(RPAREN)] + rest), t + n * Ty.PTR)
    decreases n
  {
    if n > 0 { StarsCounted(s.Next(), t + Ty.PTR, n - 1, rest); }
  }

  /** sizeof: 1 for char, 4 for int and for every pointer. */
  lemma {:induction false} SizeofIs(s: State, isChar: bool, n: nat, rest: seq<Token>)
    requires s.toks == [Plain(LPAREN), Plain(if isChar then CHAR else INT)] + StarsThen(n, rest)
    ensures SizeofSpec(s) == Some(State(rest, s.code + [Opc.IMM, if isChar && n == 0 then 1 else 4], Ty.INT))
  {
    var s2 := s.Next().Next();
    assert s2.toks == StarsThen(n, rest);
    StarsCounted(s2, if isChar then Ty.CHAR else Ty.INT, n, rest);
  }

  /** A cast with n stars changes the type and nothing else. */
  lemma {:induction false} CastIs(c: Scope, s: State, isChar: bool, n: nat, rest: seq<Token>)
    requires s.toks == [Plain(if isChar then CHAR else INT)] + StarsThen(n, rest)
    ensures var e := ExprSpec(c, s.(toks := rest), INC);
      ParenSpec(c, s) == if e.Some? then Some(e.value.Typed((if isChar then 0 else 1) + 2 * n)) else None
  {
    hide ExprSpec;
    assert s.Next().toks == StarsThen(n, rest);
    StarsCounted(s.Next(), if isChar then Ty.CHAR else Ty.INT, n, rest);
  }

  // ---------------------------------------------------------------- pointer arithmetic

  /** The bytes that a pointer of type t moves by for one element. */
  function ElementSize(t: int): int {
    if t > 2 then 4 else 1
  }

  /** A step by ++ or -- is one element. */
  lemma StepIsElement(t: int)
    ensures IncSize(t) == ElementSize(t)
  {
  }

  /** The words behind the operand of `+`, of `-` with an int, and of `-` with a pointer. */
  function SumWords(t: int): seq<int> {
    if t > 2 then [Opc.PSH, Opc.IMM, 4, Opc.MUL, Opc.ADD] else [Opc.ADD]
  }

  function LessWords(t: int): seq<int> {
    if t > 2 then [Opc.PSH, Opc.IMM, 4, Opc.MUL, Opc.SUB] else [Opc.SUB]
  }

  function DistanceWords(): seq<int> {
    [Opc.SUB, Opc.PSH, Opc.IMM, 4, Opc.DIV]
  }

  lemma {:induction false} AddEmits(c: Scope, s: State, t: int)
    ensures var i := ExprSpec(c, s.Emit([Opc.PSH]), MUL);
      AddSpec(c, s, t) == if i.Some? then Some(i.value.Emit(SumWords(t)).Typed(t)) else None
  {
    hide ExprSpec;
    var i := ExprSpec(c, s.Emit([Opc.PSH]), MUL);
    if i.Some? {
      assert i.value.code + [Opc.PSH, Opc.IMM, 4, Opc.MUL] + [Opc.ADD]
          == i.value.code + [Opc.PSH, Opc.IMM, 4, Opc.MUL, Opc.ADD];
    }
  }

  /** The difference of two pointers of one type counts elements; every other one keeps the left type. */
  lemma {:induction false} SubEmits(c: Scope, s: State, t: int)
    ensures var i := ExprSpec(c, s.Emit([Opc.PSH]), MUL);
      SubSpec(c, s, t) == if i.None? then None
        else if t > 2 && i.value.ty == t then Some(i.value.Emit(DistanceWords()).Typed(Ty.INT))
        else Some(i.value.Emit(LessWords(t)).Typed(t))
  {
    hide ExprSpec;
  }

  /** n steps through the words w at the machine's pc, with the left operand on the stack and the right one in a: the
      stack is popped, v is in a, and memory above that operand is as before. */
  ghost predicate Calculates(code: seq<int>, m: Vm, n: nat, w: seq<int>, v: int) {
    var m' := Steps(code, m, n);
    && m'.pc == m.pc + |w| && m'.sp == m.sp + 1 && m'.bp == m.bp && m'.a == v
    && forall a :: a > m.sp ==> Load(m'.mem, a) == Load(m.mem, a)
  }

  /** The machine is at the words w, with words in its left and right operands. */
  ghost predicate AtOperands(code: seq<int>, m: Vm, w: seq<int>) {
    At(code, m.pc, w) && IsWord(m.a) && IsWord(Load(m.mem, m.sp))
  }

  lemma {:induction false} WordsAre(code: seq<int>, at: int, w: seq<int>)
    requires At(code, at, w)
    ensures forall i {:trigger w[i]} :: 0 <= i < |w| ==> 0 <= at + i < |code| && code[at + i] == w[i]
  {
    forall i | 0 <= i < |w|
      ensures 0 <= at + i < |code| && code[at + i] == w[i]
    {
      AtWord(code, at, w, i);
    }
  }

  lemma {:induction false} AluStep(code: seq<int>, m: Vm, op: int)
    requires 0 <= m.pc < |code| && code[m.pc] == op && IsAlu(op)
    ensures Steps(code, m, 1) == m.(pc := m.pc + 1, sp := m.sp + 1, a := Alu(op, Load(m.mem, m.sp), m.a))
  {
    hide Alu;
    assert Steps(code, Step(code, m), 0) == Step(code, m);
  }

  /** PSH, IMM 4 and an operation work on a. */
  lemma {:induction false} WithFour(code: seq<int>, m: Vm, op: int)
    requires At(code, m.pc, [Opc.PSH, Opc.IMM, 4, op]) && IsAlu(op)
    ensures Steps(code, m, 3) == m.(pc := m.pc + 4, a := Alu(op, m.a, 4), mem := m.mem[m.sp - 1 := m.a])
  {
    hide Alu;
    var w := [Opc.PSH, Opc.IMM, 4, op];
    AtWord(code, m.pc, w, 0);
    AtWord(code, m.pc, w, 1);
    AtWord(code, m.pc, w, 2);
    AtWord(code, m.pc, w, 3);
    var m1 := m.(pc := m.pc + 1, sp := m.sp - 1, mem := m.mem[m.sp - 1 := m.a]);
    var m2 := m1.(pc := m.pc + 3, a := 4);
    assert Step(code, m) == m1 && Step(code, m1) == m2;
    AluStep(code, m2, op);
    assert Steps(code, m, 3) == Steps(code, m1, 2) == Steps(code, m2, 1);
  }

  /** p + i is i elements on, p - i elements back. */
  lemma {:induction false} SumComputes(code: seq<int>, m: Vm, t: int, less: bool)
    requires AtOperands(code, m, if less then LessWords(t) else SumWords(t))
    ensures var x, k := Load(m.mem, m.sp), ElementSize(t);
      Calculates(code, m, if t > 2 then 4 else 1, if less then LessWords(t) else SumWords(t),
                 Wrap(if less then x - k * m.a else x + k * m.a))
  {
    hide Alu, Wrap;
    var op, x := if less then Opc.SUB else Opc.ADD, Load(m.mem, m.sp);
    if t > 2 {
      assert LessWords(t) == [Opc.PSH, Opc.IMM, 4, Opc.MUL] + [Opc.SUB];
      assert SumWords(t) == [Opc.PSH, Opc.IMM, 4, Opc.MUL] + [Opc.ADD];
      ScaledThen(code, m, op);
      ScaledSum(x, m.a, less);
    } else {
      AtWord(code, m.pc, [op], 0);
      AluStep(code, m, op);
      assert Alu(op, x, m.a) == Wrap(if less then x - m.a else x + m.a) by { Sums(x, m.a); }
    }
  }

  lemma {:induction false} ScaledThen(code: seq<int>, m: Vm, op: int)
    requires At(code, m.pc, [Opc.PSH, Opc.IMM, 4, Opc.MUL] + [op]) && IsAlu(op)
    ensures Steps(code, m, 4) == m.(pc := m.pc + 5, sp := m.sp + 1, mem := m.mem[m.sp - 1 := m.a],
                                    a := Alu(op, Load(m.mem, m.sp), Alu(Opc.MUL, m.a, 4)))
  {
    hide Alu;
    AtSplit(code, m.pc, [Opc.PSH, Opc.IMM, 4, Opc.MUL], [op]);
    WithFour(code, m, Opc.MUL);
    var m1 := Steps(code, m, 3);
    AtWord(code, m1.pc, [op], 0);
    StepsPlus(code, m, 3, 1);
    AluStep(code, m1, op);
  }

  lemma Sums(x: int, y: int)
    ensures Alu(Opc.ADD, x, y) == Wrap(x + y) && Alu(Opc.SUB, x, y) == Wrap(x - y) && Alu(Opc.MUL, x, y) == Wrap(x * y)
  {
  }

  lemma {:induction false} ScaledSum(x: int, i: int, less: bool)
    ensures Alu(if less then Opc.SUB else Opc.ADD, x, Alu(Opc.MUL, i, 4)) == Wrap(if less then x - 4 * i else x + 4 * i)
  {
    hide Alu, Wrap;
    Sums(i, 4);
    Sums(x, Wrap(i * 4));
    WrapStep(i * 4, if less then -1 else 1, x);
  }

  /** p - q is the distance in elements: (p + i) - p is i. */
  lemma {:induction false} DistanceComputes(code: seq<int>, m: Vm, i: int)
    requires AtOperands(code, m, DistanceWords()) && -0x2000_0000 <= i < 0x2000_0000
    requires Load(m.mem, m.sp) == Wrap(m.a + 4 * i)
    ensures Calculates(code, m, 4, DistanceWords(), i)
  {
    hide Alu, Wrap;
    assert DistanceWords() == [Opc.SUB] + [Opc.PSH, Opc.IMM, 4, Opc.DIV];
    DifferenceThen(code, m);
    Distance(Load(m.mem, m.sp), m.a, i);
  }

  lemma {:induction false} DifferenceThen(code: seq<int>, m: Vm)
    requires At(code, m.pc, [Opc.SUB] + [Opc.PSH, Opc.IMM, 4, Opc.DIV])
    ensures var d := Alu(Opc.SUB, Load(m.mem, m.sp), m.a);
      Steps(code, m, 4) == m.(pc := m.pc + 5, sp := m.sp + 1, mem := m.mem[m.sp := d], a := Alu(Opc.DIV, d, 4))
  {
    hide Alu;
    AtSplit(code, m.pc, [Opc.SUB], [Opc.PSH, Opc.IMM, 4, Opc.DIV]);
    AtWord(code, m.pc, [Opc.SUB], 0);
    AluStep(code, m, Opc.SUB);
    StepsPlus(code, m, 1, 3);
    WithFour(code, Steps(code, m, 1), Opc.DIV);
  }

  lemma Distance(x: int, p: int, i: int)
    requires x == Wrap(p + 4 * i) && -0x2000_0000 <= i < 0x2000_0000
    ensures Alu(Opc.DIV, Alu(Opc.SUB, x, p), 4) == i
  {
    hide Alu, Wrap;
    Sums(x, p);
    WrapStep(p + 4 * i, 1, -p);
    ExactQuotient(i);
  }

  lemma ExactQuotient(i: int)
    requires -0x2000_0000 <= i < 0x2000_0000
    ensures Wrap(4 * i) == 4 * i && Alu(Opc.DIV, 4 * i, 4) == i
  {
  }
}
