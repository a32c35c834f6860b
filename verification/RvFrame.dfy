/** What instructions leave alone: the registers other than their target, the cycle counter, the reservation. */
module RvFrame {
  import opened Wrappers
  import opened Words
  import opened RvCore
  import opened RvBits
  import opened RvSpec

  /** The machine that an effect goes on with. */
  function After<E>(e: Effect<E>): Option<Machine<E>> {
    match e
    case Retire(_, _, _, m) => Some(m)
    case Fault(_, _) => None
    case Wait(m) => Some(m)
    case Power(_, m) => Some(m)
  }

  /** The offset that an LR.W reserves. */
  function Reserves(c: Core, ir: Word): Option<Word> {
    if Opcode(ir) == 0x2F && Small(ir, 27) == 2 && InRam(Rs1(c, ir)) then Some(Ofs(Rs1(c, ir))) else None
  }

  /** Registers, program counter and cycles are as before, and the reservation is lr or as before. */
  ghost predicate Kept(c: Core, d: Core, lr: Option<Word>) {
    && d.regs == c.regs && d.pc == c.pc && d.cyclel == c.cyclel && d.cycleh == c.cycleh
    && Reservation(d.extraflags) == if lr.Some? then lr.value else Reservation(c.extraflags)
  }

  /** Changing the two low bits or the third does not touch the reservation. */
  lemma {:induction false} FlagBits(x: Word, y: Word, n: nat)
    requires n < 4
    ensures (x - x % 4 + n) / 8 == x / 8
    ensures WithBit(x, 2, true) / 8 == x / 8 && WithBit(x, 2, false) / 8 == x / 8
  {
    hide Pow2, Field;
    LowPowers();
    ThirdBit(x, Field(x, 2, 1));
  }

  lemma ThirdBit(x: Word, f: nat)
    requires f == Field(x, 2, 1)
    ensures (x - f * 4 + 4) / 8 == x / 8 && (x - f * 4) / 8 == x / 8
  {
    LowPowers();
    hide Pow2;
    InThirdBit(x, f);
  }

  lemma InThirdBit(x: nat, f: nat)
    requires f == x / 4 % 2
    ensures (x - f * 4 + 4) / 8 == x / 8 && (x - f * 4) / 8 == x / 8
  {
  }

  lemma {:induction false} CsrFrame<E>(m: Machine<E>, h: Hooks<E>, pc: Word, ir: Word, cycle: Word)
    ensures Kept(m.core, After(CsrOp(m, h, pc, ir, cycle)).value.core, None)
  {
    hide Field, And, Or, Not, Small, Funct3, Reservation, Pow2, U;
  }

  lemma {:induction false} SystemFrame<E>(m: Machine<E>, h: Hooks<E>, pc: Word, ir: Word, cycle: Word)
    ensures var a := After(SystemOp(m, h, pc, ir, cycle)); a.Some? ==> Kept(m.core, a.value.core, None)
  {
    hide CsrOp, WithBit, And, Or, Small, Funct3, U, Pow2;
    CsrFrame(m, h, pc, ir, cycle);
    LowPowers();
    FlagBits(m.core.extraflags, 0, 0);
    FlagBits(m.core.extraflags, 0, Field(m.core.mstatus, 11, 2));
    hide Field;
  }

  lemma {:induction false} AtomicFrame<E>(m: Machine<E>, pc: Word, ir: Word)
    requires Opcode(ir) == 0x2F
    ensures var a := After(Atomic(m, pc, ir)); a.Some? ==> Kept(m.core, a.value.core, Reserves(m.core, ir))
  {
    hide Field, And, Or, Small, Load, Store, AmoOp, IsAmo, U, Pow2, Ofs, Opcode;
  }

  lemma {:induction false} MemoryFrame<E>(m: Machine<E>, h: Hooks<E>, pc: Word, ir: Word)
    ensures var a := After(LoadOp(m, h, pc, ir)); a.Some? ==> Kept(m.core, a.value.core, None)
    ensures var a := After(StoreOp(m, h, pc, ir)); a.Some? ==> Kept(m.core, a.value.core, None)
  {
    hide Field, Small, Load, Store, U, Pow2, Ofs, ImmI, ImmS, Funct3, Reservation, Extended;
  }

  /** An instruction before its register write. */
  lemma {:induction false} ExecuteFrame<E>(m: Machine<E>, h: Hooks<E>, pc: Word, ir: Word, cycle: Word)
    ensures var a := After(Execute(m, h, pc, ir, cycle)); a.Some? ==> Kept(m.core, a.value.core, Reserves(m.core, ir))
  {
    hide Field, Small, U, Pow2, Ofs, ImmI, ImmB, ImmU, ImmJ, Funct3, Reservation, Opcode, Rd,
         LoadOp, StoreOp, SystemOp, Atomic, MulOp, AluOp, Taken;
    match Opcode(ir) {
      case 0x03 => MemoryFrame(m, h, pc, ir);
      case 0x23 => MemoryFrame(m, h, pc, ir);
      case 0x73 => SystemFrame(m, h, pc, ir, cycle);
      case 0x2F => AtomicFrame(m, pc, ir);
      case _ =>
    }
  }

  /** The reservation that the next instruction makes. */
  function Fetched<E>(m: Machine<E>): Option<Word> {
    if FetchFault(m.core.pc) then None else Reserves(m.core, Load(m.ram, Ofs(m.core.pc), 4))
  }

  /** One instruction: x0 is not written, cycles are not counted, the reservation changes only by LR.W. */
  lemma {:induction false} InstructionFrame<E>(m: Machine<E>, h: Hooks<E>, cycle: Word)
    ensures var c := Instruction(m, h, cycle).0.core;
      && c.regs[0] == m.core.regs[0] && c.cyclel == m.core.cyclel && c.cycleh == m.core.cycleh
      && Reservation(c.extraflags) == match Fetched(m) case Some(o) => o case None => Reservation(m.core.extraflags)
  {
    hide Execute, Load, U, Reserves, Field, Ofs;
    TrapFrame(m.core);
    if !FetchFault(m.core.pc) {
      var ir := Load(m.ram, Ofs(m.core.pc), 4);
      ExecuteFrame(m, h, m.core.pc, ir, cycle);
      FaultReserves(m, h, m.core.pc, ir, cycle);
    }
  }

  lemma {:induction false} TrapFrame(c: Core)
    ensures Reservation(c.extraflags - Mode(c.extraflags) + 3) == Reservation(c.extraflags)
  {
    FlagBits(c.extraflags, 0, 3);
  }

  /** An instruction that faults makes no reservation. */
  lemma {:induction false} FaultReserves<E>(m: Machine<E>, h: Hooks<E>, pc: Word, ir: Word, cycle: Word)
    ensures Execute(m, h, pc, ir, cycle).Fault? ==> Reserves(m.core, ir) == None
  {
    hide Field, Small, U, Pow2, Ofs, ImmI, ImmB, ImmU, ImmJ, Funct3, Opcode, Rd, Load, Store,
         LoadOp, StoreOp, SystemOp, MulOp, AluOp, Taken;
  }
}
