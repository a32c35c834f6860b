/** The c4 virtual machine: registers pc, sp, bp and a over a word-addressed memory. */
module C4Vm {
  import opened Words
  import Opc

  type Memory = map<int, int>

  /** Machine registers and memory. Code positions index the code; data addresses count words. */
  datatype Vm = Vm(pc: int, sp: int, bp: int, a: int, mem: Memory)

  function Load(mem: Memory, addr: int): int {
    if addr in mem then mem[addr] else 0
  }

  predicate HasOperand(op: int) {
    Opc.LEA <= op <= Opc.ADJ
  }

  predicate IsAlu(op: int) {
    Opc.OR <= op <= Opc.MOD
  }

  /** The machine stops: pc outside the code, a missing operand, or an instruction that is not modelled. */
  predicate Stuck(code: seq<int>, m: Vm) {
    || !(0 <= m.pc < |code|)
    || (HasOperand(code[m.pc]) && m.pc + 1 >= |code|)
    || !(HasOperand(code[m.pc]) || code[m.pc] in {Opc.LEV, Opc.LI, Opc.SI, Opc.PSH} || IsAlu(code[m.pc]))
  }

  function Alu(op: int, x: int, y: int): int
    requires IsAlu(op)
  {
    if op == Opc.OR then Bitwise(GOr, x, y)
    else if op == Opc.XOR then Bitwise(GXor, x, y)
    else if op == Opc.AND then Bitwise(GAnd, x, y)
    else if op == Opc.EQ then Truth(x == y)
    else if op == Opc.NE then Truth(x != y)
    else if op == Opc.LT then Truth(x < y)
    else if op == Opc.GT then Truth(x > y)
    else if op == Opc.LE then Truth(x <= y)
    else if op == Opc.GE then Truth(x >= y)
    else if op == Opc.SHL then Shl(x, y)
    else if op == Opc.SHR then Shr(x, y)
    else if op == Opc.ADD then Wrap(x + y)
    else if op == Opc.SUB then Wrap(x - y)
    else if op == Opc.MUL then Mul(x, y)
    else if op == Opc.DIV then Quot(x, y)
    else Rem(x, y)
  }

  function Step(code: seq<int>, m: Vm): Vm {
    if Stuck(code, m) then m
    else
      var i := code[m.pc];
      if HasOperand(i) then
        var w, next := code[m.pc + 1], m.pc + 2;
        if i == Opc.LEA then m.(pc := next, a := m.bp + w)
        else if i == Opc.IMM then m.(pc := next, a := w)
        else if i == Opc.JMP then m.(pc := w)
        else if i == Opc.JSR then m.(pc := w, sp := m.sp - 1, mem := m.mem[m.sp - 1 := next])
        else if i == Opc.BZ then m.(pc := if m.a != 0 then next else w)
        else if i == Opc.BNZ then m.(pc := if m.a != 0 then w else next)
        else if i == Opc.ENT then m.(pc := next, bp := m.sp - 1, sp := m.sp - 1 - w, mem := m.mem[m.sp - 1 := m.bp])
        else m.(pc := next, sp := m.sp + w)
      else if i == Opc.LEV then m.(sp := m.bp + 2, bp := Load(m.mem, m.bp), pc := Load(m.mem, m.bp + 1))
      else if i == Opc.LI then m.(pc := m.pc + 1, a := Load(m.mem, m.a))
      else if i == Opc.SI then m.(pc := m.pc + 1, sp := m.sp + 1, mem := m.mem[Load(m.mem, m.sp) := m.a])
      else if i == Opc.PSH then m.(pc := m.pc + 1, sp := m.sp - 1, mem := m.mem[m.sp - 1 := m.a])
      else m.(pc := m.pc + 1, sp := m.sp + 1, a := Alu(i, Load(m.mem, m.sp), m.a))
  }

  function Steps(code: seq<int>, m: Vm, n: nat): Vm
    decreases n
  {
    if n == 0 then m else Steps(code, Step(code, m), n - 1)
  }

  class Machine {
    const code: seq<int>
    var pc: int
    var sp: int
    var bp: int
    var a: int
    var mem: Memory

    constructor (code: seq<int>, m: Vm)
      ensures this.code == code && Now() == m
    {
      this.code := code;
      pc, sp, bp, a, mem := m.pc, m.sp, m.bp, m.a, m.mem;
    }

    function Now(): Vm
      reads this
    {
      Vm(pc, sp, bp, a, mem)
    }

    method Push(w: int)
      modifies this
      ensures Now() == old(Now()).(sp := old(sp) - 1, mem := old(mem)[old(sp) - 1 := w])
    {
      sp := sp - 1;
      mem := mem[sp := w];
    }

    method Pop() returns (w: int)
      modifies this`sp
      ensures sp == old(sp) + 1 && w == Load(mem, old(sp))
    {
      w := Load(mem, sp);
      sp := sp + 1;
    }

    /** One turn of the interpreter loop. */
    method Cycle()
      requires !Stuck(code, Now())
      modifies this
      ensures Now() == Step(code, old(Now()))
    {
      var i := code[pc];
      pc := pc + 1;
      if i == Opc.LEA {
        a := bp + code[pc];
        pc := pc + 1;
      } else if i == Opc.IMM {
        a := code[pc];
        pc := pc + 1;
      } else if i == Opc.JMP {
        pc := code[pc];
      } else if i == Opc.JSR {
        Push(pc + 1);
        pc := code[pc];
      } else if i == Opc.BZ {
        pc := if a != 0 then pc + 1 else code[pc];
      } else if i == Opc.BNZ {
        pc := if a != 0 then code[pc] else pc + 1;
      } else if i == Opc.ENT {
        Push(bp);
        bp := sp;
        sp := sp - code[pc];
        pc := pc + 1;
      } else if i == Opc.ADJ {
        sp := sp + code[pc];
        pc := pc + 1;
      } else if i == Opc.LEV {
        sp := bp;
        bp := Pop();
        pc := Pop();
      } else if i == Opc.LI {
        a := Load(mem, a);
      } else if i == Opc.SI {
        var addr := Pop();
        mem := mem[addr := a];
      } else if i == Opc.PSH {
        Push(a);
      } else {
        var x := Pop();
        a := Alu(i, x, a);
      }
    }

    /** At most `limit` turns; the machine stops early only when it is stuck. */
    method Run(limit: nat) returns (cycles: nat)
      modifies this
      ensures cycles <= limit && Now() == Steps(code, old(Now()), cycles)
      ensures cycles < limit ==> Stuck(code, Now())
    {
      cycles := 0;
      while cycles < limit && !Stuck(code, Now())
        invariant cycles <= limit
        invariant Now() == Steps(code, old(Now()), cycles)
      {
        StepsPlus(code, old(Now()), cycles, 1);
        Cycle();
        cycles := cycles + 1;
      }
    }
  }

  lemma {:induction false} StepsPlus(code: seq<int>, m: Vm, n: nat, k: nat)
    ensures Steps(code, m, n + k) == Steps(code, Steps(code, m, n), k)
    decreases n
  {
    if n > 0 {
      StepsPlus(code, Step(code, m), n - 1, k);
    }
  }

  // ---------------------------------------------------------------- what the operations mean

  const TWO32 := 0x1_0000_0000

  /** Every bit of the word v is made of those of x and y. */
  ghost predicate BitsFrom(v: int, x: int, y: int, f: (bool, bool) -> bool) {
    IsWord(v) && MadeOf(v % TWO32, x % TWO32, y % TWO32, f)
  }

  /** v is the word that agrees with n modulo 2^32. */
  predicate WordOf(v: int, n: int) {
    IsWord(v) && (v - n) % TWO32 == 0
  }

  /** What an operation on the words x and y leaves in a. */
  ghost predicate Computes(op: int, x: int, y: int, v: int)
    requires IsAlu(op)
  {
    var p := Pow2(y % 32);
    if op == Opc.OR then BitsFrom(v, x, y, (a, b) => a || b)
    else if op == Opc.XOR then BitsFrom(v, x, y, (a, b) => a != b)
    else if op == Opc.AND then BitsFrom(v, x, y, (a, b) => a && b)
    else if op == Opc.EQ then (x == y && v == 1) || (x != y && v == 0)
    else if op == Opc.NE then (x == y && v == 0) || (x != y && v == 1)
    else if op == Opc.LT then (x < y && v == 1) || (x >= y && v == 0)
    else if op == Opc.GT then (x > y && v == 1) || (x <= y && v == 0)
    else if op == Opc.LE then (x <= y && v == 1) || (x > y && v == 0)
    else if op == Opc.GE then (x >= y && v == 1) || (x < y && v == 0)
    else if op == Opc.SHL then WordOf(v, x * p)
    else if op == Opc.SHR then v * p <= x < (v + 1) * p
    else if op == Opc.ADD then WordOf(v, x + y)
    else if op == Opc.SUB then WordOf(v, x - y)
    else if op == Opc.MUL then WordOf(v, x * y)
    else if y == 0 then v == if op == Opc.DIV then -1 else x
    else if x == -0x8000_0000 && y == -1 then v == if op == Opc.DIV then x else 0
    else exists q, r :: Divides(x, y, q, r) && v == if op == Opc.DIV then q else r
  }

  lemma {:induction false} BitwiseIs(x: int, y: int)
    ensures BitsFrom(Bitwise(GOr, x, y), x, y, (a, b) => a || b)
    ensures BitsFrom(Bitwise(GXor, x, y), x, y, (a, b) => a != b)
    ensures BitsFrom(Bitwise(GAnd, x, y), x, y, (a, b) => a && b)
  {
    hide Gates, MadeOf;
    GatesMade(x % TWO32, y % TWO32);
    BitwiseWord(GOr, x, y);
    BitwiseWord(GXor, x, y);
    BitwiseWord(GAnd, x, y);
  }

  lemma {:induction false} BitwiseWord(g: Gate, x: int, y: int)
    ensures Bitwise(g, x, y) % TWO32 == Gates(g, x % TWO32, y % TWO32, 32)
  {
    hide Gates;
    GatesBelow(g, x % TWO32, y % TWO32, 32);
    Powers();
    WrapCongruent(Gates(g, x % TWO32, y % TWO32, 32));
  }

  /** A shift right by less than 32 stays a word. */
  lemma {:induction false} ShiftIs(x: int, y: int)
    requires IsWord(x)
    ensures var p := Pow2(y % 32); Shr(x, y) * p <= x < (Shr(x, y) + 1) * p
  {
    hide Pow2;
    var p := Pow2(y % 32);
    RoundsDown(x, p);
    SmallerWord(x, p);
  }

  lemma {:induction false} QuotientIs(x: int, y: int)
    requires IsWord(x) && IsWord(y)
    ensures Computes(Opc.DIV, x, y, Quot(x, y)) && Computes(Opc.MOD, x, y, Rem(x, y))
  {
    hide BitsFrom, Divides, Div, Remainder, Wrap;
    if y == 0 {
      ByZero(x);
    } else if x == -0x8000_0000 && y == -1 {
      Overflow();
    } else {
      DivRemainder(x, y);
      QuotientFits(x, y);
    }
  }

  lemma Overflow()
    ensures Quot(-0x8000_0000, -1) == -0x8000_0000 && Rem(-0x8000_0000, -1) == 0
  {
    assert Div(-0x8000_0000, -1) == 0x8000_0000;
  }

  lemma {:induction false} QuotientFits(x: int, y: int)
    requires IsWord(x) && IsWord(y) && y != 0 && (x != -0x8000_0000 || y != -1)
    ensures IsWord(Div(x, y)) && IsWord(Remainder(x, y))
  {
    hide Div, Remainder, Divides;
    QuotientSize(x, y);
  }

  /** Each operation computes what its name says. */
  lemma {:induction false} AluComputes(op: int, x: int, y: int)
    requires IsAlu(op) && IsWord(x) && IsWord(y)
    ensures Computes(op, x, y, Alu(op, x, y))
  {
    hide Bitwise, Wrap, Div, Remainder, BitsFrom, Divides, Shr;
    BitwiseIs(x, y);
    ShiftIs(x, y);
    WrapCongruent(x * Pow2(y % 32));
    WrapCongruent(x + y);
    WrapCongruent(x - y);
    WrapCongruent(x * y);
    QuotientIs(x, y);
  }

  /** An operation of the machine pops its left operand and leaves the result in a. */
  lemma {:induction false} OperationComputes(code: seq<int>, m: Vm)
    requires !Stuck(code, m) && IsAlu(code[m.pc]) && IsWord(m.a) && IsWord(Load(m.mem, m.sp))
    ensures var m' := Step(code, m);
      && Computes(code[m.pc], Load(m.mem, m.sp), m.a, m'.a)
      && m'.pc == m.pc + 1 && m'.sp == m.sp + 1 && m'.bp == m.bp && m'.mem == m.mem
  {
    hide Alu, Computes;
    AluComputes(code[m.pc], Load(m.mem, m.sp), m.a);
  }

  /** The complement of all bits. */
  lemma {:induction false} ComplementIs(x: int)
    requires IsWord(x)
    ensures Bitwise(GXor, x, -1) == -x - 1
  {
    hide Gates, Pow2;
    Powers();
    Inverted(x % TWO32, 32);
    WholeRemainder(x % TWO32, TWO32);
  }

  // ---------------------------------------------------------------- calls

  /** JSR and ENT: the callee starts behind its ENT, with locals free slots below its frame pointer, where the
      caller's is kept, and the return address above that. */
  lemma {:induction false} CallEnters(code: seq<int>, m: Vm, f: nat)
    requires 0 <= m.pc && m.pc + 1 < |code| && code[m.pc] == Opc.JSR && code[m.pc + 1] == f
    requires f + 1 < |code| && code[f] == Opc.ENT
    ensures Steps(code, m, 2) == Vm(f + 2, m.sp - 2 - code[f + 1], m.sp - 2, m.a,
                                    m.mem[m.sp - 1 := m.pc + 2][m.sp - 2 := m.bp])
  {
    assert Steps(code, m, 2) == Step(code, Step(code, m));
  }

  /** LEV and the ADJ behind the call: whatever the callee did, if it kept the two words of its frame, the caller goes
      on with its own stack and frame pointers, the w arguments taken off, and the value in a. */
  lemma {:induction false} CallReturns(code: seq<int>, m: Vm, m1: Vm, w: int)
    requires 0 <= m.pc && m.pc + 3 < |code| && code[m.pc + 2] == Opc.ADJ && code[m.pc + 3] == w
    requires 0 <= m1.pc < |code| && code[m1.pc] == Opc.LEV && m1.bp == m.sp - 2
    requires Load(m1.mem, m.sp - 2) == m.bp && Load(m1.mem, m.sp - 1) == m.pc + 2
    ensures Steps(code, m1, 2) == Vm(m.pc + 4, m.sp + w, m.bp, m1.a, m1.mem)
  {
    assert Steps(code, m1, 2) == Step(code, Step(code, m1));
  }
}
