/** Traps of the processor in the terms of its CSR numbers and cause codes: what faults, when the timer interrupts, and
    what the handler finds. */
module RvTraps {
  import opened Words
  import opened Psram
  import opened RvCore
  import opened RvBits
  import opened RvSpec
  import opened RvIsa

  /** The handler finds cause, value and place in mcause, mtval and mepc, and is where mtvec points. */
  lemma {:induction false} TrapCsrs<E>(m: Machine<E>, h: Hooks<E>, cause: Word, tval: Word, pc: Word, cycle: Word)
    ensures var m1 := Trap(m, cause, tval, pc);
      && ReadCsr(m1, h, 0x342, cycle) == (m1, cause)
      && ReadCsr(m1, h, 0x343, cycle) == (m1, tval)
      && ReadCsr(m1, h, 0x341, cycle) == (m1, pc)
      && m1.core.pc == ReadCsr(m, h, 0x305, cycle).1
      && !BitAt(ReadCsr(m1, h, 0x300, cycle).1, 3)
      && (BitAt(ReadCsr(m1, h, 0x300, cycle).1, 7) <==> BitAt(ReadCsr(m, h, 0x300, cycle).1, 3))
  {
    Powers();
    TrapIs(m, cause, tval, pc);
  }

  /** Outside RAM or off a word's boundary nothing is fetched. */
  lemma {:induction false} FetchFaults<E>(m: Machine<E>, h: Hooks<E>, cycle: Word)
    requires !(0x8000_0000 <= m.core.pc < 0x8000_0000 + RAM_SIZE) || m.core.pc % 4 != 0
    ensures var cause := if 0x8000_0000 <= m.core.pc < 0x8000_0000 + RAM_SIZE then 0 else 1;
      var r := Instruction(m, h, cycle);
      r.1 == Trapped && Traps(m, cause, m.core.pc, m.core.pc, r.0)
  {
    hide Trap, Traps, Execute;
    var inside := 0x8000_0000 <= m.core.pc < 0x8000_0000 + RAM_SIZE;
    TrapIs(m, if inside then 0 else 1, m.core.pc, m.core.pc);
    OffsetIs(m.core.pc);
  }

  lemma OffsetIs(pc: Word)
    ensures 0x8000_0000 <= pc < 0x8000_0000 + RAM_SIZE ==> Ofs(pc) == pc - 0x8000_0000
    ensures !(0x8000_0000 <= pc < 0x8000_0000 + RAM_SIZE) ==> Ofs(pc) >= RAM_SIZE
    ensures Ofs(pc) % 4 == pc % 4
  {
  }

  /** The opcodes that the processor knows. */
  const OPCODES: set<nat> := {0x37, 0x17, 0x6F, 0x67, 0x63, 0x03, 0x23, 0x13, 0x33, 0x0F, 0x73, 0x2F}

  /** Words that are no instruction: an unknown opcode, or one of the function codes that a known one leaves out.
      Loads and stores look at theirs only for an address in RAM. */
  predicate Undefined<E>(m: Machine<E>, ir: Word) {
    var opcode, f, f12 := ir % 128, ir / 0x1000 % 8, ir / 0x10_0000;
    var base, f5 := m.core.regs[ir / 0x8000 % 32], ir / 0x800_0000;
    || opcode !in OPCODES
    || (opcode == 0x63 && f in {2, 3})
    || (opcode == 0x03 && f in {3, 6, 7} && OfRam(U(base + ImmI(ir))))
    || (opcode == 0x23 && f in {3, 4, 5, 6, 7} && OfRam(U(base + ImmS(ir))))
    || (opcode == 0x73 && f == 4)
    || (opcode == 0x73 && f == 0 && f12 % 256 != 2 && f12 !in {0, 1, 0x105})
    || (opcode == 0x2F && f5 !in {0, 1, 2, 3, 4, 8, 12, 16, 20, 24, 28} && OfRam(base))
  }

  /** Exactly these words are illegal. */
  lemma {:induction false} IllegalExactly<E>(m: Machine<E>, h: Hooks<E>, pc: Word, ir: Word, cycle: Word)
    ensures Undefined(m, ir) <==> Execute(m, h, pc, ir, cycle) == Fault(2, pc)
  {
    hide Field, ImmI, ImmS, ImmB, ImmJ, ImmU, AluOp, MulOp, AmoOp, Taken, RvSpec.Load, RvSpec.Store, Extended, CsrOp,
         WithBit, U, OfRam, RvSpec.InRam;
    FieldsAre(ir);
    RamAddress(U(Rs1(m.core, ir) + ImmI(ir)));
    RamAddress(U(Rs1(m.core, ir) + ImmS(ir)));
    RamAddress(Rs1(m.core, ir));
    CsrRetires(m, h, pc, ir, cycle);
  }

  lemma CsrRetires<E>(m: Machine<E>, h: Hooks<E>, pc: Word, ir: Word, cycle: Word)
    ensures CsrOp(m, h, pc, ir, cycle).Retire?
  {
  }

  lemma FieldsAre(ir: Word)
    ensures Field(ir, 0, 7) == ir % 128 && Field(ir, 12, 3) == ir / 0x1000 % 8 && Field(ir, 20, 12) == ir / 0x10_0000
    ensures Field(ir, 15, 5) == ir / 0x8000 % 32 && Field(ir, 27, 5) == ir / 0x800_0000
  {
    Powers();
    LowPowers();
  }

  // ---------------------------------------------------------------- the timer

  /** The timer has gone on by elapsed, as a number of 64 bits; it is due past a match value other than 0. A due timer
      has its interrupt pending and wakes the processor; one that is not due has none pending. */
  ghost predicate Ticked(c: Core, elapsed: Word, k: Core) {
    var now := (c.timerh * 0x1_0000_0000 + c.timerl + elapsed) % 0x1_0000_0000_0000_0000;
    var match_ := c.timermatchh * 0x1_0000_0000 + c.timermatchl;
    && k == c.(timerl := k.timerl, timerh := k.timerh, mip := k.mip, extraflags := k.extraflags)
    && k.timerh * 0x1_0000_0000 + k.timerl == now
    && if match_ != 0 && now > match_ then
         && MadeOf(k.mip, c.mip, 0x80, (s, t) => s || t)
         && MadeOf(k.extraflags, c.extraflags, 4, (s, t) => s && !t)
       else MadeOf(k.mip, c.mip, 0x80, (s, t) => s && !t) && k.extraflags == c.extraflags
  }

  lemma {:induction false} TickIs(c: Core, elapsed: Word)
    ensures Ticked(c, elapsed, Tick(c, elapsed))
  {
    hide WithBit, MadeOf, Low, High;
    Powers();
    BitAdded(c.mip, 7);
    BitRemoved(c.mip, 7);
    BitRemoved(c.extraflags, 2);
    HalvesOf((Counter(c.timerl, c.timerh) + elapsed) % TWO64);
  }

  lemma HalvesOf(x: nat)
    requires x < TWO64
    ensures High(x) * 0x1_0000_0000 + Low(x) == x
  {
  }

  lemma {:induction false} BitRemoved(x: Word, k: nat)
    requires k < 32
    ensures MadeOf(WithBit(x, k, false), x, Pow2(k), (s, t) => s && !t)
  {
    hide And, MadeOf, Field, Pow2;
    Powers();
    Pow2Monotone(k, 31);
    OrBit(x, Pow2(k), k);
    CsrMatches(CSRRC, x, Pow2(k));
  }

  /** One call: the timer goes on; a processor that still waits does nothing, an enabled pending timer interrupt traps
      before any instruction, and otherwise count instructions run. */
  lemma {:induction false} StepTurns<E>(m: Machine<E>, h: Hooks<E>, elapsed: Word, count: int)
    ensures var k, r := Tick(m.core, elapsed), Step(m, h, elapsed, count);
      && Ticked(m.core, elapsed, k)
      && if BitAt(k.extraflags, 2) then r == (m.(core := k), 1)
         else if BitAt(k.mip, 7) && BitAt(k.mie, 7) && BitAt(k.mstatus, 3) then
           r.1 == 0 && Traps(m.(core := k), 0x8000_0007, 0, k.pc, r.0)
         else r == Batch(m.(core := k), h, if count < 0 then 0 else count)
  {
    hide Tick, Ticked, Traps, Trap, Batch;
    TickIs(m.core, elapsed);
    var k := Tick(m.core, elapsed);
    OneBit(k.extraflags, 2);
    OneBit(k.mip, 7);
    OneBit(k.mie, 7);
    OneBit(k.mstatus, 3);
    TrapIs(m.(core := k), 0x8000_0007, 0, k.pc);
  }

  lemma OneBit(x: Word, k: nat)
    ensures BitSet(x, k) <==> BitAt(x, k)
  {
    LowPowers();
  }
}
