/** `MiniRV32IMAStep`: the processor as the program runs it, batch by batch. */
module RvCpu {
  import opened Wrappers
  import opened Words
  import opened Psram
  import opened RvCore
  import opened RvBits
  import opened RvSpec
  import opened RvValues
  import opened RvFrame

  /** A register number in an instruction, by shift and mask. */
  function RegNo(ir: Word, lo: nat): (r: nat)
    requires lo <= 27
    ensures r < 32 && r == Small(ir, lo)
  {
    LowPowers();
    FieldOfShift(ir, lo, 5, 0x1F);
    And(Right(ir, lo), 0x1F)
  }

  function Funct(ir: Word): (r: nat)
    ensures r < 8 && r == Funct3(ir)
  {
    LowPowers();
    FieldOfShift(ir, 12, 3, 7);
    And(Right(ir, 12), 7)
  }

  function CsrNumber(ir: Word): (r: Word)
    ensures r == Field(ir, 20, 12) < 4096
  {
    LowPowers();
    TopField(ir, 20);
    Right(ir, 20)
  }

  /** What an instruction left in the local variables and in the machine m agrees with its effect. */
  ghost predicate Done<E>(e: Effect<E>, before: Machine<E>, m: Machine<E>, pc: Word,
                          ret: Option<int>, trap: Word, rval: Word, rdid: nat, npc: Word) {
    match e
    case Retire(next, rd, val, m1) =>
      ret == None && trap == 0 && rdid == rd < 32 && (rd != 0 ==> rval == val) && U(npc + 4) == next && m == m1
    case Fault(cause, tval) =>
      && ret == None && trap == cause + 1 && trap < 0x8000_0000 && npc == pc && m == before
      && tval == (if 5 < trap <= 8 then rval else pc)
    case Wait(m1) => ret == Some(1) && m == m1
    case Power(code, m1) => ret == Some(Signed(code)) && m == m1
  }

  /** The loop's step of 4 after a jump that goes 4 short of its target. */
  lemma {:induction false} JumpShort(pc: Word, imm: int)
    ensures U(U(pc + U(imm) - 4) + 4) == U(pc + imm) && U(pc + U(imm)) == U(pc + imm)
  {
  }

  lemma {:induction false} OffsetAndBack(addr: Word)
    ensures U(Ofs(addr) + RAM_IMAGE_OFFSET) == addr
  {
  }

  lemma {:induction false} AddressOf(a: Word, imm: int)
    ensures U(U(a + U(imm)) - RAM_IMAGE_OFFSET) == Ofs(U(a + imm))
    ensures U(U(imm) + a - RAM_IMAGE_OFFSET) == Ofs(U(a + imm))
  {
    WrapOnce(imm, a);
    WrapOnce(imm, a - RAM_IMAGE_OFFSET);
    WrapOnce(a + imm, -RAM_IMAGE_OFFSET);
  }

  lemma {:induction false} WrapOnce(x: int, y: int)
    ensures U(U(x) + y) == U(x + y)
  {
  }

  /** Bit 5 of the opcode tells register operands from immediate ones. */
  lemma {:induction false} OperandKind(ir: Word)
    requires Opcode(ir) == 0x13 || Opcode(ir) == 0x33
    ensures And(ir, 0x20) != 0 <==> Opcode(ir) == 0x33
  {
    hide And;
    Powers();
    BitMask(ir, 0x20, 5);
    hide Pow2;
    assert Opcode(ir) == ir % 128 by { assert ir / 1 == ir; }
    assert Field(ir, 5, 1) == ir / 32 % 2;
    assert ir / 32 % 2 == ir % 128 / 32;
  }

  /** The second register's number is the low end of the immediate. */
  lemma {:induction false} RegInImm(ir: Word)
    ensures And(MaskedI(ir), 0x1F) == Small(ir, 20)
  {
    hide And, Gates;
    MaskedIIs(ir);
    Powers();
    MaskField(U(ImmI(ir)), 0x1F, 0, 5);
    hide Pow2, MaskedI;
    var f := ir / 0x10_0000;
    assert Small(ir, 20) == f % 32 && Field(ir, 20, 12) == f % 4096;
    assert U(ImmI(ir)) % 32 == f % 32;
    assert U(ImmI(ir)) / 1 == U(ImmI(ir));
  }

  lemma {:induction false} ShiftAmount(x: Word)
    ensures And(x, 0x1F) == Small(x, 0)
  {
    hide And;
    Powers();
    MaskField(x, 0x1F, 0, 5);
  }

  /** The mixed product by unsigned 64-bit arithmetic. */
  lemma {:induction false} MixedProduct(s: int, b: Word)
    requires -0x8000_0000 <= s < 0x8000_0000
    ensures s % TWO64 * b % TWO64 / TWO32 == U(s * b / TWO32)
  {
    var t := s * b;
    if s < 0 {
      assert s % TWO64 == s + TWO64;
      assert (s + TWO64) * b == t + TWO64 * b;
      ModShift(t, b);
    } else {
      assert s % TWO64 == s;
    }
    HighHalf(t);
  }

  lemma {:induction false} ModShift(t: int, b: int)
    ensures (t + TWO64 * b) % TWO64 == t % TWO64
  {
  }

  lemma {:induction false} HighHalf(t: int)
    ensures t % TWO64 / TWO32 == t / TWO32 % TWO32
  {
  }

  class Cpu<E> {
    const hooks: Hooks<E>
    var regs: Regs
    var pc: Word
    var mstatus: Word
    var cyclel: Word
    var cycleh: Word
    var timerl: Word
    var timerh: Word
    var timermatchl: Word
    var timermatchh: Word
    var mscratch: Word
    var mtvec: Word
    var mie: Word
    var mip: Word
    var mepc: Word
    var mtval: Word
    var mcause: Word
    var extraflags: Word
    var ram: Ram
    var env: E

    constructor (m: Machine<E>, hooks: Hooks<E>)
      ensures this.hooks == hooks && State() == m
    {
      this.hooks, ram, env := hooks, m.ram, m.env;
      regs, pc, mstatus, cyclel, cycleh := m.core.regs, m.core.pc, m.core.mstatus, m.core.cyclel, m.core.cycleh;
      timerl, timerh, timermatchl, timermatchh := m.core.timerl, m.core.timerh, m.core.timermatchl, m.core.timermatchh;
      mscratch, mtvec, mie, mip := m.core.mscratch, m.core.mtvec, m.core.mie, m.core.mip;
      mepc, mtval, mcause, extraflags := m.core.mepc, m.core.mtval, m.core.mcause, m.core.extraflags;
    }

    function State(): Machine<E>
      reads this
    {
      At(pc)
    }

    /** The machine when the program counter is in a local variable. */
    function At(p: Word): Machine<E>
      reads this
    {
      Machine(Core(regs, p, mstatus, cyclel, cycleh, timerl, timerh, timermatchl, timermatchh,
                   mscratch, mtvec, mie, mip, mepc, mtval, mcause, extraflags), ram, env)
    }

    /** Conditional branches. */
    method BranchCode(ir: Word, pc: Word) returns (trap: Word, npc: Word)
      ensures Done(Branch(At(pc), pc, ir), At(pc), At(pc), pc, None, trap, 0, 0, npc)
    {
      hide MaskedB, ImmB, U, Field, Signed, RegNo, Funct, Small;
      MaskedBIs(ir);
      JumpShort(pc, ImmB(ir));
      trap, npc := 0, pc;
      var immm4 := MaskedB(ir);
      var rs1, rs2 := regs[RegNo(ir, 15)], regs[RegNo(ir, 20)];
      var target := U(pc + immm4 - 4);
      match Funct(ir) {
        case 0 => if rs1 == rs2 { npc := target; }
        case 1 => if rs1 != rs2 { npc := target; }
        case 4 => if Signed(rs1) < Signed(rs2) { npc := target; }
        case 5 => if Signed(rs1) >= Signed(rs2) { npc := target; }
        case 6 => if rs1 < rs2 { npc := target; }
        case 7 => if rs1 >= rs2 { npc := target; }
        case _ => trap := 2 + 1;
      }
    }

    static lemma RamLoaded(ram: Ram, f: nat, ofs: nat)
      requires ofs < RAM_SIZE - 3
      ensures var n := Little(ram[ofs..ofs + LoadSize(f)]);
        n == Load(ram, ofs, LoadSize(f)) && Extends(f, n, Extended(f, n))
    {
      LoadIs(ram, ofs, LoadSize(f));
      ExtendedIs(f, Load(ram, ofs, LoadSize(f)));
    }

    /** A load inside the RAM. */
    method LoadRam(ir: Word, ofs: nat) returns (trap: Word, rval: Word)
      requires ofs < RAM_SIZE - 3
      ensures trap == if Funct3(ir) in {0, 1, 2, 4, 5} then 0 else 3
      ensures trap == 0 ==> rval == Extended(Funct3(ir), Load(ram, ofs, LoadSize(Funct3(ir))))
      ensures trap == 0 ==> Extends(Funct3(ir), Little(ram[ofs..ofs + LoadSize(Funct3(ir))]), rval)
    {
      RamLoaded(ram, Funct3(ir), ofs);
      hide Load, SignExtend, Field;
      trap, rval := 0, 0;
      match Funct(ir) {
        case 0 => rval := U(SignExtend(Load(ram, ofs, 1), 8));
        case 1 => rval := U(SignExtend(Load(ram, ofs, 2), 16));
        case 2 => rval := Load(ram, ofs, 4);
        case 4 => rval := Load(ram, ofs, 1);
        case 5 => rval := Load(ram, ofs, 2);
        case _ => trap := 2 + 1;
      }
    }

    /** A load from the timer or a device. */
    method LoadDevice(addr: Word) returns (rval: Word)
      modifies this`env
      ensures addr == 0x1100_BFFC ==> rval == timerh && env == old(env)
      ensures addr == 0x1100_BFF8 ==> rval == timerl && env == old(env)
      ensures addr != 0x1100_BFFC && addr != 0x1100_BFF8 ==> (env, rval) == hooks.load(old(env), addr)
    {
      if addr == 0x1100_BFFC {
        rval := timerh;
      } else if addr == 0x1100_BFF8 {
        rval := timerl;
      } else {
        var (e, v) := hooks.load(env, addr);
        env, rval := e, v;
      }
    }

    /** Loads. */
    method LoadCode(ir: Word, pc: Word, ghost m: Machine<E>) returns (trap: Word, rval: Word)
      requires m == At(pc)
      modifies this`env
      ensures Done(LoadOp(m, hooks, pc, ir), m, At(pc), pc, None, trap, rval, Rd(ir), pc)
    {
      hide MaskedI, ImmI, Load, U, Ofs, Field, SignExtend, RegNo, Small, Funct3;
      MaskedIIs(ir);
      AddressOf(regs[Small(ir, 15)], ImmI(ir));
      OffsetAndBack(U(regs[Small(ir, 15)] + ImmI(ir)));
      trap, rval := 0, 0;
      var rsval := U(U(regs[RegNo(ir, 15)] + MaskedI(ir)) - RAM_IMAGE_OFFSET);
      if rsval >= RAM_SIZE - 3 {
        rsval := U(rsval + RAM_IMAGE_OFFSET);
        if 0x1000_0000 <= rsval < 0x1200_0000 {
          rval := LoadDevice(rsval);
        } else {
          trap, rval := 5 + 1, rsval;
        }
      } else {
        trap, rval := LoadRam(ir, rsval);
      }
    }

    /** A store inside the RAM. */
    method StoreRam(ir: Word, ofs: nat, val: Word) returns (trap: Word)
      requires ofs < RAM_SIZE - 3
      modifies this`ram
      ensures trap == if Funct3(ir) > 2 then 3 else 0
      ensures ram == if Funct3(ir) > 2 then old(ram) else Store(old(ram), ofs, StoreSize(Funct3(ir)), val)
      ensures Funct3(ir) <= 2 ==> Stored(old(ram), ram, ofs, StoreSize(Funct3(ir)), val)
    {
      hide Store, Field, Stored;
      StoreIs(ram, ofs, 1, val);
      StoreIs(ram, ofs, 2, val);
      StoreIs(ram, ofs, 4, val);
      trap := 0;
      match Funct(ir) {
        case 0 => ram := Store(ram, ofs, 1, val);
        case 1 => ram := Store(ram, ofs, 2, val);
        case 2 => ram := Store(ram, ofs, 4, val);
        case _ => trap := 2 + 1;
      }
    }

    /** A store to the timer, the SYSCON or a device. */
    method StoreDevice(addy: Word, val: Word, pc: Word) returns (ret: Option<int>)
      modifies this`timermatchh, this`timermatchl, this`pc, this`env
      ensures timermatchh == if addy == 0x1100_4004 then val else old(timermatchh)
      ensures timermatchl == if addy == 0x1100_4000 then val else old(timermatchl)
      ensures ret == if addy == 0x1110_0000 then Some(Signed(val)) else None
      ensures this.pc == if addy == 0x1110_0000 then U(pc + 4) else old(this.pc)
      ensures env == if addy == 0x1100_4004 || addy == 0x1100_4000 || addy == 0x1110_0000 then old(env)
                     else hooks.store(old(env), addy, val)
    {
      ret := None;
      if addy == 0x1100_4004 {
        timermatchh := val;
      } else if addy == 0x1100_4000 {
        timermatchl := val;
      } else if addy == 0x1110_0000 {
        this.pc := U(pc + 4);
        ret := Some(Signed(val));
      } else {
        env := hooks.store(env, addy, val);
      }
    }

    /** Stores; one to the SYSCON returns the stored value. */
    method StoreCode(ir: Word, pc: Word, ghost m: Machine<E>) returns (ret: Option<int>, trap: Word, rval: Word)
      requires m == At(pc)
      modifies this`timermatchh, this`timermatchl, this`pc, this`env, this`ram
      ensures this.pc == if ret.Some? then U(pc + 4) else old(this.pc)
      ensures Done(StoreOp(m, hooks, pc, ir), m, At(pc), pc, ret, trap, rval, 0, pc)
      ensures var addr := U(regs[Small(ir, 15)] + ImmS(ir));
        InRam(addr) && Funct3(ir) <= 2 ==> Stored(m.ram, ram, Ofs(addr), StoreSize(Funct3(ir)), regs[Small(ir, 20)])
    {
      hide Stored;
      hide MaskedS, ImmS, Store, U, Ofs, Signed, RegNo, Small, Funct3;
      MaskedSIs(ir);
      AddressOf(regs[Small(ir, 15)], ImmS(ir));
      OffsetAndBack(U(regs[Small(ir, 15)] + ImmS(ir)));
      ret, trap, rval := None, 0, 0;
      var rs1 := regs[RegNo(ir, 15)];
      var rs2 := regs[RegNo(ir, 20)];
      var addy := U(MaskedS(ir) + rs1 - RAM_IMAGE_OFFSET);
      if addy >= RAM_SIZE - 3 {
        addy := U(addy + RAM_IMAGE_OFFSET);
        if 0x1000_0000 <= addy < 0x1200_0000 {
          ret := StoreDevice(addy, rs2, pc);
        } else {
          trap, rval := 7 + 1, addy;
        }
      } else {
        trap := StoreRam(ir, addy, rs2);
      }
    }
  
    /** RV32M. */
    method MulCode(f: nat, rs1: Word, rs2: Word) returns (rval: Word)
      requires f < 8
      ensures rval == MulOp(f, rs1, rs2) && MulDiv(f, rs1, rs2, rval)
    {
      hide Div, Remainder, MulDiv;
      MulDivIs(f, rs1, rs2);
      rval := 0;
      match f {
        case 0 => rval := U(rs1 * rs2);
        case 1 => rval := U(Signed(rs1) * Signed(rs2) / TWO32);
        case 2 =>
          MixedProduct(Signed(rs1), rs2);
          rval := Signed(rs1) % TWO64 * rs2 % TWO64 / TWO32;
        case 3 => rval := U(rs1 * rs2 / TWO32);
        case 4 => rval := DivCode(rs1, rs2);
        case 5 => rval := DivUCode(rs1, rs2);
        case 6 => rval := RemCode(rs1, rs2);
        case 7 => rval := RemUCode(rs1, rs2);
      }
    }

    static method DivCode(rs1: Word, rs2: Word) returns (rval: Word)
      ensures rval == U(Div(Signed(rs1), Signed(rs2)))
    {
      if rs2 == 0 {
        rval := U(-1);
      } else if Signed(rs1) == -0x8000_0000 && Signed(rs2) == -1 {
        rval := rs1;
      } else {
        rval := U(Div(Signed(rs1), Signed(rs2)));
      }
    }

    static method DivUCode(rs1: Word, rs2: Word) returns (rval: Word)
      ensures rval == U(Div(rs1, rs2))
    {
      if rs2 == 0 {
        rval := 0xFFFF_FFFF;
      } else {
        Smaller(rs1, rs2);
        rval := rs1 / rs2;
      }
    }

    static method RemCode(rs1: Word, rs2: Word) returns (rval: Word)
      ensures rval == U(Remainder(Signed(rs1), Signed(rs2)))
    {
      if rs2 == 0 {
        rval := rs1;
      } else if Signed(rs1) == -0x8000_0000 && Signed(rs2) == -1 {
        rval := 0;
      } else {
        rval := U(Remainder(Signed(rs1), Signed(rs2)));
      }
    }

    static method RemUCode(rs1: Word, rs2: Word) returns (rval: Word)
      ensures rval == U(Remainder(rs1, rs2))
    {
      if rs2 == 0 {
        rval := rs1;
      } else {
        rval := rs1 % rs2;
        assert rs1 == rs2 * (rs1 / rs2) + rs1 % rs2;
      }
    }

    /** The other operations; subtraction only with register operands. */
    method AluCode(ir: Word, isReg: bool, rs1: Word, rs2: Word) returns (rval: Word)
      ensures var alt := BitSet(ir, 30) && (isReg || Funct3(ir) != 0);
        rval == AluOp(Funct3(ir), rs1, rs2, alt) && Calculates(Funct3(ir), rs1, rs2, alt, rval)
    {
      hide And, Or, Xor, Field, Signed, Small, Calculates;
      AluIs(Funct3(ir), rs1, rs2, BitSet(ir, 30) && (isReg || Funct3(ir) != 0));
      Powers();
      ShiftAmount(rs2);
      BitMask(ir, 0x4000_0000, 30);
      var alt := And(ir, 0x4000_0000) != 0;
      rval := 0;
      match Funct(ir) {
        case 0 => rval := if isReg && alt then U(rs1 - rs2) else U(rs1 + rs2);
        case 1 => rval := Left(rs1, And(rs2, 0x1F));
        case 2 => rval := if Signed(rs1) < Signed(rs2) then 1 else 0;
        case 3 => rval := if rs1 < rs2 then 1 else 0;
        case 4 => rval := Xor(rs1, rs2);
        case 5 => rval := if alt then U(Signed(rs1) / Pow2(And(rs2, 0x1F))) else Right(rs1, And(rs2, 0x1F));
        case 6 => rval := Or(rs1, rs2);
        case _ => rval := And(rs1, rs2);
      }
    }

    /** Op-immediate and op. */
    method OpCode(ir: Word, pc: Word) returns (rval: Word)
      requires Opcode(ir) == 0x13 || Opcode(ir) == 0x33
      ensures Done(Op(At(pc), pc, ir, Opcode(ir) == 0x33), At(pc), At(pc), pc, None, 0, rval, Rd(ir), pc)
    {
      hide And, Or, MaskedI, ImmI, U, Field, Small, RegNo, MulOp, AluOp, Funct3;
      OperandKind(ir);
      RegInImm(ir);
      MaskedIIs(ir);
      BitOf25(ir);
      var imm := MaskedI(ir);
      var rs1 := regs[RegNo(ir, 15)];
      var isReg := And(ir, 0x20) != 0;
      var rs2 := if isReg then regs[And(imm, 0x1F)] else imm;
      if isReg && And(ir, 0x0200_0000) != 0 {
        rval := MulCode(Funct(ir), rs1, rs2);
      } else {
        rval := AluCode(ir, isReg, rs1, rs2);
      }
    }

    static lemma BitOf25(ir: Word)
      ensures And(ir, 0x0200_0000) != 0 <==> BitSet(ir, 25)
    {
      hide And, Field;
      Powers();
      BitMask(ir, 0x0200_0000, 25);
    }
  
    /** The value of a CSR. */
    method CsrReadCode(csrno: Word, cycle: Word, pc: Word, ghost m: Machine<E>) returns (rval: Word)
      requires m == At(pc)
      modifies this`env
      ensures (At(pc), rval) == ReadCsr(m, hooks, csrno, cycle)
    {
      match csrno {
        case 0x340 => rval := mscratch;
        case 0x305 => rval := mtvec;
        case 0x304 => rval := mie;
        case 0xC00 => rval := cycle;
        case 0x344 => rval := mip;
        case 0x341 => rval := mepc;
        case 0x300 => rval := mstatus;
        case 0x342 => rval := mcause;
        case 0x343 => rval := mtval;
        case 0xF11 => rval := 0xFF0F_F0FF;
        case 0x301 => rval := 0x4040_1101;
        case _ =>
          var (e, v) := hooks.csrRead(env, csrno);
          env, rval := e, v;
      }
    }

    method CsrWriteCode(csrno: Word, val: Word, pc: Word, ghost m: Machine<E>)
      requires m == At(pc)
      modifies this`mscratch, this`mtvec, this`mie, this`mip, this`mepc, this`mstatus, this`mcause, this`mtval,
               this`env, this`ram
      ensures At(pc) == WriteCsr(m, hooks, csrno, val)
    {
      match csrno {
        case 0x340 => mscratch := val;
        case 0x305 => mtvec := val;
        case 0x304 => mie := val;
        case 0x344 => mip := val;
        case 0x341 => mepc := val;
        case 0x300 => mstatus := val;
        case 0x342 => mcause := val;
        case 0x343 => mtval := val;
        case _ =>
          var (e, r) := hooks.csrWrite(env, ram, csrno, val);
          env, ram := e, r;
      }
    }

    /** Zicsr. */
    method CsrCode(ir: Word, pc: Word, cycle: Word, ghost m: Machine<E>) returns (rval: Word)
      requires m == At(pc) && Funct3(ir) % 4 != 0
      modifies this
      ensures this.pc == old(this.pc)
      ensures Done(CsrOp(m, hooks, pc, ir, cycle), m, At(pc), pc, None, 0, rval, Rd(ir), pc)
    {
      hide And, Or, Not, Field, RegNo, Small, ReadCsr, WriteCsr, Funct3;
      var csrno := CsrNumber(ir);
      var microop := Funct(ir);
      var rs1imm := RegNo(ir, 15);
      var rs1 := regs[rs1imm];
      rval := CsrReadCode(csrno, cycle, pc, m);
      var writeval := rs1;
      match microop {
        case 1 => writeval := rs1;
        case 2 => writeval := Or(rval, rs1);
        case 3 => writeval := And(rval, Not(rs1));
        case 5 => writeval := rs1imm;
        case 6 => writeval := Or(rval, rs1imm);
        case 7 => writeval := And(rval, Not(rs1imm));
      }
      CsrWriteCode(csrno, writeval, pc, ReadCsr(m, hooks, csrno, cycle).0);
    }

    /** WFI. */
    method SleepCode(pc: Word, ghost m: Machine<E>)
      requires m == At(pc)
      modifies this`mstatus, this`extraflags, this`pc
      ensures this.pc == U(pc + 4)
      ensures At(pc) == m.(core := m.core.(mstatus := WithBit(m.core.mstatus, 3, true),
                                           extraflags := WithBit(m.core.extraflags, 2, true)))
    {
      hide And, Or, Field;
      Powers();
      OrBit(mstatus, 8, 3);
      OrBit(extraflags, 4, 2);
      mstatus := Or(mstatus, 8);
      extraflags := Or(extraflags, 4);
      this.pc := U(pc + 4);
    }

    /** MRET. */
    method ReturnCode(pc: Word, ghost m: Machine<E>) returns (npc: Word)
      requires m == At(pc)
      modifies this`mstatus, this`extraflags
      ensures Done(Mret(m), m, At(pc), pc, None, 0, 0, 0, npc)
    {
      hide And, Or, Right, Left, Field, Gates;
      MretFlags(mstatus, extraflags);
      var startmstatus, startextraflags := mstatus, extraflags;
      mstatus := Or(Or(Right(And(startmstatus, 0x80), 4), Left(And(startextraflags, 3), 11)), 0x80);
      extraflags := Or(And(startextraflags, Not(3)), And(Right(startmstatus, 11), 3));
      npc := U(mepc - 4);
    }

    /** ECALL, EBREAK, WFI, MRET and the CSR instructions. */
    method SystemCode(ir: Word, pc: Word, cycle: Word, ghost m: Machine<E>)
        returns (ret: Option<int>, trap: Word, rval: Word, rdid: nat, npc: Word)
      requires m == At(pc)
      modifies this
      ensures this.pc == if ret.Some? then U(pc + 4) else old(this.pc)
      ensures Done(SystemOp(m, hooks, pc, ir, cycle), m, At(pc), pc, ret, trap, rval, rdid, npc)
    {
      hide And, Or, Not, Field, RegNo, Small, CsrOp, Mret, Funct3, WithBit;
      var csrno := CsrNumber(ir);
      var microop := Funct(ir);
      LowTwo(microop);
      LowTwo(extraflags);
      LowByte(csrno);
      ret, trap, rval, rdid, npc := None, 0, 0, Rd(ir), pc;
      if And(microop, 3) != 0 {
        rval := CsrCode(ir, pc, cycle, m);
      } else if microop == 0 {
        rdid := 0;
        if csrno == 0x105 {
          SleepCode(pc, m);
          ret := Some(1);
        } else if And(csrno, 0xFF) == 2 {
          npc := ReturnCode(pc, m);
        } else {
          match csrno {
            case 0 => trap := if And(extraflags, 3) != 0 then 11 + 1 else 8 + 1;
            case 1 => trap := 3 + 1;
            case _ => trap := 2 + 1;
          }
        }
      } else {
        trap := 2 + 1;
      }
    }
  
    /** The value that an atomic operation stores, if the operation is known. */
    static method CombineCode(op: nat, rval: Word, rs2: Word) returns (known: bool, val: Word)
      ensures known <==> IsAmo(op)
      ensures known ==> val == AmoOp(op, rval, rs2) && Combines(op, rval, rs2, val)
    {
      hide Combines;
      if IsAmo(op) { AmoIs(op, rval, rs2); }
      known, val := true, rs2;
      match op {
        case 1 =>
        case 0 => val := U(rs2 + rval);
        case 4 => val := Xor(rs2, rval);
        case 12 => val := And(rs2, rval);
        case 8 => val := Or(rs2, rval);
        case 16 => val := if Signed(rs2) < Signed(rval) then rs2 else rval;
        case 20 => val := if Signed(rs2) > Signed(rval) then rs2 else rval;
        case 24 => val := if rs2 < rval then rs2 else rval;
        case 28 => val := if rs2 > rval then rs2 else rval;
        case _ => known := false;
      }
    }

    /** RV32A. */
    method AtomicCode(ir: Word, pc: Word, ghost m: Machine<E>) returns (trap: Word, rval: Word)
      requires m == At(pc)
      modifies this`extraflags, this`ram
      ensures Done(Atomic(m, pc, ir), m, At(pc), pc, None, trap, rval, Rd(ir), pc)
    {
      hide And, Or, Left, Right, Field, Small, RegNo, Load, Store, AmoOp, IsAmo;
      OffsetAndBack(regs[Small(ir, 15)]);
      trap, rval := 0, 0;
      var rs2 := regs[RegNo(ir, 20)];
      var irmid := RegNo(ir, 27);
      var rs1 := U(regs[RegNo(ir, 15)] - RAM_IMAGE_OFFSET);
      if rs1 >= RAM_SIZE - 3 {
        trap := 7 + 1;
        rval := U(rs1 + RAM_IMAGE_OFFSET);
      } else {
        rval := Load(ram, rs1, 4);
        ReservationBits(extraflags, rs1);
        var dowrite := true;
        if irmid == 2 {
          dowrite := false;
          extraflags := Or(And(extraflags, 7), Left(rs1, 3));
        } else if irmid == 3 {
          rval := if Right(extraflags, 3) != And(rs1, 0x1FFF_FFFF) then 1 else 0;
          dowrite := rval == 0;
        } else {
          var known, val := CombineCode(irmid, rval, rs2);
          if known {
            rs2 := val;
          } else {
            trap := 2 + 1;
            dowrite := false;
          }
        }
        if dowrite {
          ram := Store(ram, rs1, 4, rs2);
        }
      }
    }

    /** The switch on the opcode. */
    method InstructionCode(ir: Word, pc: Word, cycle: Word, ghost m: Machine<E>)
        returns (ret: Option<int>, trap: Word, rval: Word, rdid: nat, npc: Word)
      requires m == At(pc)
      modifies this
      ensures this.pc == if ret.Some? then U(pc + 4) else old(this.pc)
      ensures Done(Execute(m, hooks, pc, ir, cycle), m, At(pc), pc, ret, trap, rval, rdid, npc)
    {
      hide And, Right, Field, Small, RegNo, MaskedI, MaskedJ, ImmI, ImmJ, ImmU, Opcode, Rd, Funct3,
           Branch, LoadOp, StoreOp, Op, SystemOp, Atomic;
      ret, trap, rval, rdid, npc := None, 0, 0, RdCode(ir), pc;
      match OpcodeCode(ir) {
        case 0x37 =>
          MaskedUIs(ir);
          rval := And(ir, 0xFFFF_F000);
        case 0x17 =>
          MaskedUIs(ir);
          rval := U(pc + And(ir, 0xFFFF_F000));
        case 0x6F =>
          MaskedJIs(ir);
          JumpShort(pc, ImmJ(ir));
          rval := U(pc + 4);
          npc := U(pc + MaskedJ(ir) - 4);
        case 0x67 =>
          npc := IndirectCode(ir);
          rval := U(pc + 4);
        case 0x63 =>
          trap, npc := BranchCode(ir, pc);
          rdid := 0;
        case 0x03 =>
          trap, rval := LoadCode(ir, pc, m);
        case 0x23 =>
          ret, trap, rval := StoreCode(ir, pc, m);
          rdid := 0;
        case 0x13 =>
          rval := OpCode(ir, pc);
        case 0x33 =>
          rval := OpCode(ir, pc);
        case 0x0F =>
          rdid := 0;
        case 0x73 =>
          ret, trap, rval, rdid, npc := SystemCode(ir, pc, cycle, m);
        case 0x2F =>
          trap, rval := AtomicCode(ir, pc, m);
        case _ =>
          trap := 2 + 1;
      }
    }

    /** The target of JALR, 4 short. */
    method IndirectCode(ir: Word) returns (npc: Word)
      ensures var t := U(Rs1(At(pc).core, ir) + ImmI(ir)); U(npc + 4) == t - t % 2
    {
      hide And, Or, Field, Small, RegNo, MaskedI, ImmI;
      MaskedIIs(ir);
      WrapOnce(ImmI(ir), regs[Small(ir, 15)]);
      var t := U(regs[RegNo(ir, 15)] + MaskedI(ir));
      ClearLowest(t);
      WrapOnce(And(t, Not(1)) - 4, 4);
      npc := U(And(t, Not(1)) - 4);
    }
  
    /** The timer goes on. */
    method AdvanceTimer(elapsedUs: Word)
      modifies this`timerl, this`timerh
      ensures var t := (Counter(old(timerl), old(timerh)) + elapsedUs) % TWO64; timerl == Low(t) && timerh == High(t)
    {
      AddHalves(timerl, timerh, elapsedUs);
      var newTimer := U(timerl + elapsedUs);
      if newTimer < timerl {
        timerh := U(timerh + 1);
      }
      timerl := newTimer;
    }

    /** The timer interrupt becomes pending, or not. */
    method MatchTimer()
      modifies this`extraflags, this`mip
      ensures var due := Counter(timerl, timerh) > Counter(timermatchl, timermatchh) != 0;
        && mip == WithBit(old(mip), 7, due)
        && extraflags == if due then WithBit(old(extraflags), 2, false) else old(extraflags)
    {
      hide And, Or, Field, Counter;
      Powers();
      OrBit(extraflags, 4, 2);
      OrBit(mip, 128, 7);
      CompareHalves(timerl, timerh, timermatchl, timermatchh);
      if (timerh > timermatchh || (timerh == timermatchh && timerl > timermatchl))
        && (timermatchh != 0 || timermatchl != 0) {
        extraflags := And(extraflags, Not(4));
        mip := Or(mip, 128);
      } else {
        mip := And(mip, Not(128));
      }
    }

    /** The timer at the start of a call. */
    method TimerCode(elapsedUs: Word, ghost m: Machine<E>)
      requires m == State()
      modifies this`timerl, this`timerh, this`extraflags, this`mip
      ensures State() == m.(core := Tick(m.core, elapsedUs))
    {
      hide WithBit, Low, High, Counter;
      AdvanceTimer(elapsedUs);
      HalvesBack((Counter(m.core.timerl, m.core.timerh) + elapsedUs) % TWO64);
      MatchTimer();
    }

    /** Entering the trap handler, from an exception (trap is its cause plus 1) or an interrupt. */
    method TrapCode(trap: Word, rval: Word, pc: Word, ghost m: Machine<E>) returns (npc: Word)
      requires trap != 0 && m == At(if trap < 0x8000_0000 then pc else U(pc + 4))
      modifies this`mcause, this`mtval, this`mepc, this`mstatus, this`extraflags
      ensures At(npc) == if trap < 0x8000_0000 then Trap(m, trap - 1, if 5 < trap <= 8 then rval else pc, pc)
                         else Trap(m, trap, 0, U(pc + 4))
    {
      hide And, Or, Not, Left, Field, U;
      TrapFlags(mstatus, extraflags, trap);
      AlreadyWord(mtvec);
      npc := pc;
      if And(trap, 0x8000_0000) != 0 {
        mcause, mtval := trap, 0;
        npc := U(npc + 4);
      } else {
        mcause, mtval := trap - 1, if 5 < trap <= 8 then rval else npc;
      }
      mepc := npc;
      mstatus := Or(Left(And(mstatus, 8), 4), Left(And(extraflags, 3), 11));
      npc := U(mtvec - 4);
      extraflags := Or(extraflags, 3);
      WrapOnce(mtvec - 4, 4);
      npc := U(npc + 4);
    }

    /** One turn of the loop: fetch, execute, write back. */
    method TurnCode(pc: Word, cycle: Word, ghost m: Machine<E>)
        returns (ret: Option<int>, trap: Word, rval: Word, npc: Word)
      requires m == At(pc)
      modifies this
      ensures Turned(Instruction(m, hooks, cycle), m, pc, ret, trap, rval, npc)
    {
      hide Execute, Load, Trap, And, Field;
      Powers();
      ret, trap, rval, npc := None, 0, 0, pc;
      var ofs := U(pc - RAM_IMAGE_OFFSET);
      LowTwo(ofs);
      if ofs >= RAM_SIZE {
        trap := 1 + 1;
      } else if And(ofs, 3) != 0 {
        trap := 1 + 0;
      } else {
        var ir := Load(ram, ofs, 4);
        var rdid;
        ret, trap, rval, rdid, npc := InstructionCode(ir, pc, cycle, m);
        if ret == None && trap == 0 && rdid != 0 {
          regs := regs[rdid := rval];
        }
      }
    }

    /** What a turn left agrees with the instruction's result r. */
    ghost predicate Turned(r: (Machine<E>, Stop), m: Machine<E>, pc: Word, ret: Option<int>, trap: Word, rval: Word,
                           npc: Word)
      reads this
    {
      match r.1
      case Running => ret == None && trap == 0 && At(U(npc + 4)) == r.0
      case Trapped =>
        && ret == None && 0 < trap < 0x8000_0000 && npc == pc && At(pc) == m
        && r.0 == Trap(m, trap - 1, if 5 < trap <= 8 then rval else pc, pc)
      case Asleep => ret == Some(1) && State() == r.0
      case Off(code) => ret == Some(Signed(code)) && State() == r.0
    }

    /** What the loop left agrees with its progress b from m1. */
    ghost predicate Looped(b: Progress<E>, m1: Machine<E>, ret: Option<int>, trap: Word, rval: Word, p: Word,
                           cycle: Word)
      reads this
    {
      match b.stop
      case Running => ret == None && trap == 0 && At(p) == b.m && cycle == U(m1.core.cyclel + b.steps)
      case Trapped =>
        && ret == None && 0 < trap < 0x8000_0000 && cycle == U(m1.core.cyclel + b.steps)
        && b.m == Trap(At(p), trap - 1, if 5 < trap <= 8 then rval else p, p)
      case Asleep => ret == Some(1) && State() == b.m
      case Off(code) => ret == Some(Signed(code)) && State() == b.m
    }

    /** The instruction loop. */
    method LoopCode(count: int, ghost m1: Machine<E>)
        returns (ret: Option<int>, trap: Word, rval: Word, p: Word, cycle: Word)
      requires m1 == State()
      modifies this
      ensures Looped(Iterate(m1, hooks, if count < 0 then 0 else count), m1, ret, trap, rval, p, cycle)
    {
      hide Trap, Instruction, Signed, Turned, U, Iterate;
      IterateNone(m1);
      AlreadyWord(m1.core.cyclel);
      ret, trap, rval, p, cycle := None, 0, 0, pc, cyclel;
      var icount := 0;
      while icount < count
        invariant 0 <= icount && (icount <= count || icount == 0)
        invariant ret == None && trap == 0 && cycle == U(m1.core.cyclel + icount)
        invariant Iterate(m1, hooks, icount) == Progress(At(p), icount, Running)
      {
        WrapOnce(m1.core.cyclel + icount, 1);
        cycle := U(cycle + 1);
        ghost var m := At(p);
        ret, trap, rval, p := TurnCode(p, cycle, m);
        TurnedIs(Instruction(m, hooks, cycle), m, m.core.pc, ret, trap, rval, p);
        IterateOn(m1, icount, m, cycle);
        StopsFor(m1, hooks, icount + 1, count);
        if ret.Some? || trap != 0 {
          return;
        }
        p := U(p + 4);
        icount := icount + 1;
      }
    }

    lemma IterateNone(m1: Machine<E>)
      ensures Iterate(m1, hooks, 0) == Progress(m1, 0, Running)
    {
    }

    lemma IterateOn(m1: Machine<E>, n: nat, m: Machine<E>, cycle: Word)
      requires Iterate(m1, hooks, n) == Progress(m, n, Running) && cycle == U(m1.core.cyclel + (n + 1))
      ensures var r := Instruction(m, hooks, cycle); Iterate(m1, hooks, n + 1) == Progress(r.0, n + 1, r.1)
    {
      hide Instruction;
    }

    lemma TurnedIs(r: (Machine<E>, Stop), m: Machine<E>, pc: Word, ret: Option<int>, trap: Word, rval: Word, npc: Word)
      requires Turned(r, m, pc, ret, trap, rval, npc) && m.core.pc == pc
      ensures ret == None && trap == 0 <==> r.1.Running?
      ensures match r.1
              case Running => At(U(npc + 4)) == r.0
              case Trapped => ret == None && 0 < trap < 0x8000_0000 && npc == pc && At(npc) == m
                              && r.0 == Trap(At(npc), trap - 1, if 5 < trap <= 8 then rval else npc, npc)
              case Asleep => ret == Some(1) && State() == r.0
              case Off(code) => ret == Some(Signed(code)) && State() == r.0
    {
    }

    /** The cycle counter and the program counter are stored. */
    method StoreCounters(p: Word, cycle: Word, ghost m: Machine<E>, ghost steps: nat)
      requires m == At(p) && steps < TWO32 && cycle == U(cyclel + steps)
      modifies this`cyclel, this`cycleh, this`pc
      ensures State() == m.(core := AddCycles(m.core, steps))
    {
      AddHalves(cyclel, cycleh, steps);
      if cyclel > cycle {
        cycleh := U(cycleh + 1);
      }
      cyclel := cycle;
      pc := p;
    }

    /** MiniRV32IMAStep. */
    method Step(elapsedUs: Word, count: int) returns (r: int)
      requires -0x8000_0000 <= count < 0x8000_0000
      modifies this
      ensures (State(), r) == RvSpec.Step(old(State()), hooks, elapsedUs, count)
    {
      hide And, Field, Trap, Tick, Instruction, Iterate, U, AddCycles, Signed;
      TimerCode(elapsedUs, State());
      FlagTests(this);
      ghost var m1 := State();
      if And(extraflags, 4) != 0 {
        return 1;
      }
      var trap, rval, p, cycle := 0, 0, pc, cyclel;
      ghost var steps: nat := 0;
      if And(mip, 0x80) != 0 && And(mie, 0x80) != 0 && And(mstatus, 8) != 0 {
        BackAndForth(pc);
        AlreadyWord(cyclel);
        trap := 0x8000_0007;
        p := U(p - 4);
      } else {
        var ret;
        ret, trap, rval, p, cycle := LoopCode(count, m1);
        if ret.Some? {
          return ret.value;
        }
        steps := Iterate(m1, hooks, if count < 0 then 0 else count).steps;
        CyclesKept(m1, hooks, if count < 0 then 0 else count);
      }
      if trap != 0 {
        ghost var m := At(if trap < 0x8000_0000 then p else U(p + 4));
        if trap < 0x8000_0000 { TrapKeepsCycles(m, trap - 1, if 5 < trap <= 8 then rval else p, p); }
        p := TrapCode(trap, rval, p, m);
      }
      NoCycles(At(p).core);
      StoreCounters(p, cycle, At(p), steps);
      r := 0;
    }
  }

  lemma {:induction false} BackAndForth(pc: Word)
    ensures U(U(pc - 4) + 4) == pc
  {
  }

  lemma {:induction false} AlreadyWord(x: Word)
    ensures U(x) == x
  {
  }

  lemma {:induction false} NoCycles(c: Core)
    ensures AddCycles(c, 0) == c
  {
    AddHalves(c.cyclel, c.cycleh, 0);
  }

  lemma TrapKeepsCycles<E>(m: Machine<E>, cause: Word, tval: Word, pc: Word)
    ensures Trap(m, cause, tval, pc).core.cyclel == m.core.cyclel
  {
  }

  /** Once stopped, stopped. */
  lemma {:induction false} StopsFor<E>(m: Machine<E>, h: Hooks<E>, k: nat, n: int)
    requires k <= n
    ensures !Iterate(m, h, k).stop.Running? ==> Iterate(m, h, n) == Iterate(m, h, k)
    decreases n
  {
    if k < n { StopsFor(m, h, k, n - 1); }
  }

  /** Instructions do not touch the cycle counter. */
  lemma {:induction false} CyclesKept<E>(m: Machine<E>, h: Hooks<E>, k: nat)
    ensures Iterate(m, h, k).m.core.cyclel == m.core.cyclel && Iterate(m, h, k).m.core.cycleh == m.core.cycleh
    decreases k
  {
    hide Instruction;
    if k > 0 {
      CyclesKept(m, h, k - 1);
      InstructionFrame(Iterate(m, h, k - 1).m, h, U(m.core.cyclel + k));
    }
  }

  lemma FlagTests<E>(cpu: Cpu<E>)
    ensures And(cpu.extraflags, 4) != 0 <==> Waiting(cpu.extraflags)
    ensures And(cpu.mip, 0x80) != 0 <==> BitSet(cpu.mip, 7)
    ensures And(cpu.mie, 0x80) != 0 <==> BitSet(cpu.mie, 7)
    ensures And(cpu.mstatus, 8) != 0 <==> BitSet(cpu.mstatus, 3)
  {
    hide And, Field;
    Powers();
    BitMask(cpu.extraflags, 4, 2);
    BitMask(cpu.mip, 0x80, 7);
    BitMask(cpu.mie, 0x80, 7);
    BitMask(cpu.mstatus, 8, 3);
  }

  /** Adding to a counter in two halves, with the carry found by comparison. */
  lemma {:induction false} AddHalves(lo: Word, hi: Word, n: nat)
    requires n < TWO32
    ensures Low((Counter(lo, hi) + n) % TWO64) == U(lo + n)
    ensures High((Counter(lo, hi) + n) % TWO64) == if U(lo + n) < lo then U(hi + 1) else hi
  {
    var t := Counter(lo, hi) + n;
    if lo + n < TWO32 {
      DivModUnique(t, TWO32, hi, lo + n);
    } else {
      DivModUnique(t, TWO32, hi + 1, lo + n - TWO32);
    }
    HighHalf(t);
  }

  lemma {:induction false} HalvesBack(t: nat)
    requires t < TWO64
    ensures Counter(Low(t), High(t)) == t
  {
    var q := t / TWO32;
    assert t == q * TWO32 + t % TWO32;
    DivModUnique(q, TWO32, 0, q);
  }

  lemma {:induction false} CompareHalves(lo: Word, hi: Word, lo2: Word, hi2: Word)
    ensures Counter(lo, hi) > Counter(lo2, hi2) <==> hi > hi2 || (hi == hi2 && lo > lo2)
    ensures Counter(lo2, hi2) != 0 <==> hi2 != 0 || lo2 != 0
  {
  }

  /** The status and flag words on entering the handler, and the test for an interrupt. */
  lemma {:induction false} TrapFlags(status: Word, flags: Word, trap: Word)
    ensures Or(Left(And(status, 8), 4), Left(And(flags, 3), 11)) == Field(status, 3, 1) * 128 + flags % 4 * 2048
    ensures Or(flags, 3) == flags - flags % 4 + 3
    ensures And(trap, 0x8000_0000) != 0 <==> trap >= 0x8000_0000
  {
    hide And, Or, Field, Gates;
    Powers();
    BitMask(status, 8, 3);
    LowTwo(flags);
    var a, b := Field(status, 3, 1), flags % 4;
    assert Left(a * 8, 4) == a * 128 && Left(b, 11) == b * 2048;
    OrUp(a * 128, b * 2048, b, 11);
    TopBit(trap, 32, 0x8000_0000);
  }

  function RdCode(ir: Word): (r: nat)
    ensures r == Rd(ir) < 32
  {
    RegNo(ir, 7)
  }

  function OpcodeCode(ir: Word): (r: Word)
    ensures r == Opcode(ir)
  {
    LowPowers();
    MaskField(ir, 0x7F, 0, 7);
    And(ir, 0x7F)
  }

  lemma {:induction false} ClearLowest(x: Word)
    ensures And(x, Not(1)) == x - x % 2
  {
    hide And;
    LowPowers();
    OrBit(x, 1, 0);
    hide Pow2;
    assert x / 1 == x;
  }

  /** The reservation in the flag word. */
  lemma {:induction false} ReservationBits(flags: Word, ofs: Word)
    requires ofs < RAM_SIZE
    ensures Or(And(flags, 7), Left(ofs, 3)) == flags % 8 + 8 * ofs
    ensures Right(flags, 3) == flags / 8 && And(ofs, 0x1FFF_FFFF) == ofs
  {
    hide And, Or, Field, Gates;
    Powers();
    MaskField(flags, 7, 0, 3);
    MaskField(ofs, 0x1FFF_FFFF, 0, 29);
    LowFields(flags, 3);
    LowFields(ofs, 29);
    OrUp(flags % 8, ofs * 8, ofs, 3);
  }

  lemma {:induction false} LowFields(x: nat, len: nat)
    ensures Field(x, 0, len) == x % Pow2(len)
  {
    assert x / 1 == x;
  }

  lemma {:induction false} LowByte(x: Word)
    ensures And(x, 0xFF) == x % 256
  {
    hide And;
    Powers();
    MaskField(x, 0xFF, 0, 8);
    hide Pow2;
    assert x / 1 == x;
  }

  /** The status and flag words that MRET computes. */
  lemma {:induction false} MretFlags(status: Word, flags: Word)
    ensures Or(Or(Right(And(status, 0x80), 4), Left(And(flags, 3), 11)), 0x80)
         == Field(status, 7, 1) * 8 + flags % 4 * 2048 + 128
    ensures Or(And(flags, Not(3)), And(Right(status, 11), 3)) == flags - flags % 4 + Field(status, 11, 2)
  {
    hide And, Or, Right, Field, Gates, Pow2;
    Powers();
    FieldMoved(status, 0x80, 7, 1, 4);
    LowTwo(flags);
    var a, b := Field(status, 7, 1), flags % 4;
    assert Left(b, 11) == b * 2048;
    OrAssociates(a * 8, b * 2048, 0x80, 32);
    OrUp(0x80, b * 2048, b, 11);
    OrUp(a * 8, b * 2048 + 0x80, b * 16 + 1, 7);
    FieldOfShift(status, 11, 2, 3);
    OrUp(Field(status, 11, 2), flags - flags % 4, flags / 4, 2);
    OrSymmetric(a, b);
  }

  lemma {:induction false} OrSymmetric(a: nat, b: nat)
    requires a < 2 && b < 4
    ensures Or(Or(a * 8, b * 2048), 0x80) == Or(a * 8, Or(0x80, b * 2048))
  {
    hide Gates, Pow2;
    OrAssociates(a * 8, b * 2048, 0x80, 32);
    OrCommutes(b * 2048, 0x80, 32);
  }
}
