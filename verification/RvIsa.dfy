/** Instructions of RV32IMA by name, their encodings (The RISC-V Instruction Set Manual, section 2.2 and chapter 24),
    and what each does. */
module RvIsa {
  import opened Words
  import opened Psram
  import opened RvCore
  import opened RvBits
  import opened RvSpec
  import opened RvValues

  type Reg = r: int | 0 <= r < 32

  datatype Cond = BEQ | BNE | BLT | BGE | BLTU | BGEU
  datatype LoadKind = LB | LH | LW | LBU | LHU
  datatype StoreKind = SB | SH | SW
  datatype AluKind = ADD | SUB | SLL | SLT | SLTU | XOR | SRL | SRA | OR | AND
  datatype MulKind = MUL | MULH | MULHSU | MULHU | DIV | DIVU | REM | REMU
  datatype CsrKind = CSRRW | CSRRS | CSRRC
  datatype AmoKind = SWAP | AADD | AXOR | AAND | AOR | MIN | MAX | MINU | MAXU

  datatype Instr =
    | Lui(rd: Reg, upper: nat)
    | Auipc(rd: Reg, upper: nat)
    | Jal(rd: Reg, off: int)
    | Jalr(rd: Reg, rs1: Reg, off: int)
    | If(cond: Cond, rs1: Reg, rs2: Reg, off: int)
    | Load(load: LoadKind, rd: Reg, rs1: Reg, off: int)
    | Store(store: StoreKind, rs1: Reg, rs2: Reg, off: int)
    | Imm(op: AluKind, rd: Reg, rs1: Reg, imm: int)
    | Alu(op: AluKind, rd: Reg, rs1: Reg, rs2: Reg)
    | Mul(mul: MulKind, rd: Reg, rs1: Reg, rs2: Reg)
    | Csr(csrOp: CsrKind, immediate: bool, rd: Reg, src: Reg, csr: nat)
    | Ecall
    | Ebreak
    | Mret
    | Wfi
    | Fence
    | Lr(rd: Reg, rs1: Reg)
    | Sc(rd: Reg, rs1: Reg, rs2: Reg)
    | Amo(amo: AmoKind, rd: Reg, rs1: Reg, rs2: Reg)

  /** The operands fit their fields; SUB has no immediate form, and a shift's amount is below 32. */
  predicate Encodable(i: Instr) {
    match i
    case Lui(_, u) => u < 0x10_0000
    case Auipc(_, u) => u < 0x10_0000
    case Jal(_, off) => -0x10_0000 <= off < 0x10_0000 && off % 2 == 0
    case Jalr(_, _, off) => -2048 <= off < 2048
    case If(_, _, _, off) => -4096 <= off < 4096 && off % 2 == 0
    case Load(_, _, _, off) => -2048 <= off < 2048
    case Store(_, _, _, off) => -2048 <= off < 2048
    case Imm(op, _, _, imm) => op != SUB && (if op in {SLL, SRL, SRA} then 0 <= imm < 32 else -2048 <= imm < 2048)
    case Csr(_, _, _, _, csr) => csr < 4096
    case _ => true
  }

  // ---------------------------------------------------------------- formats

  function RType(f7: nat, rs2: Reg, rs1: Reg, f3: nat, rd: Reg, opcode: nat): Word
    requires f7 < 128 && f3 < 8 && opcode < 128
  {
    f7 * 0x200_0000 + rs2 * 0x10_0000 + rs1 * 0x8000 + f3 * 0x1000 + rd * 0x80 + opcode
  }

  function IType(imm: int, rs1: Reg, f3: nat, rd: Reg, opcode: nat): Word
    requires f3 < 8 && opcode < 128
  {
    imm % 4096 * 0x10_0000 + rs1 * 0x8000 + f3 * 0x1000 + rd * 0x80 + opcode
  }

  function SType(imm: int, rs2: Reg, rs1: Reg, f3: nat, opcode: nat): Word
    requires f3 < 8 && opcode < 128
  {
    RType(imm % 4096 / 32, rs2, rs1, f3, imm % 32, opcode)
  }

  /** The bits of the offset, from the highest: 12, 10 to 5, and behind the registers 4 to 1 and 11. */
  function BType(imm: int, rs2: Reg, rs1: Reg, f3: nat, opcode: nat): Word
    requires f3 < 8 && opcode < 128
  {
    RType(imm / 4096 % 2 * 64 + imm / 32 % 64, rs2, rs1, f3, imm / 2 % 16 * 2 + imm / 2048 % 2, opcode)
  }

  function UType(upper: nat, rd: Reg, opcode: nat): Word
    requires upper < 0x10_0000 && opcode < 128
  {
    upper * 0x1000 + rd * 0x80 + opcode
  }

  /** The bits of the offset, from the highest: 20, 10 to 1, 11, and 19 to 12. */
  function JType(imm: int, rd: Reg, opcode: nat): Word
    requires opcode < 128
  {
    UType(imm / 0x10_0000 % 2 * 0x8_0000 + imm / 2 % 1024 * 0x200 + imm / 2048 % 2 * 0x100 + imm / 4096 % 256,
          rd, opcode)
  }

  function CondCode(c: Cond): nat {
    match c
    case BEQ => 0
    case BNE => 1
    case BLT => 4
    case BGE => 5
    case BLTU => 6
    case BGEU => 7
  }

  function LoadCode(k: LoadKind): nat {
    match k
    case LB => 0
    case LH => 1
    case LW => 2
    case LBU => 4
    case LHU => 5
  }

  function StoreCode(k: StoreKind): nat {
    match k
    case SB => 0
    case SH => 1
    case SW => 2
  }

  function AluCode(k: AluKind): nat {
    match k
    case ADD => 0
    case SUB => 0
    case SLL => 1
    case SLT => 2
    case SLTU => 3
    case XOR => 4
    case SRL => 5
    case SRA => 5
    case OR => 6
    case AND => 7
  }

  /** SUB and SRA have bit 30 set. */
  function AluBits(k: AluKind): nat {
    if k == SUB || k == SRA then 32 else 0
  }

  function MulCode(k: MulKind): nat {
    match k
    case MUL => 0
    case MULH => 1
    case MULHSU => 2
    case MULHU => 3
    case DIV => 4
    case DIVU => 5
    case REM => 6
    case REMU => 7
  }

  function CsrCode(k: CsrKind): nat {
    match k
    case CSRRW => 1
    case CSRRS => 2
    case CSRRC => 3
  }

  function AmoCode(k: AmoKind): nat {
    match k
    case AADD => 0
    case SWAP => 1
    case AXOR => 4
    case AOR => 8
    case AAND => 12
    case MIN => 16
    case MAX => 20
    case MINU => 24
    case MAXU => 28
  }

  function Encode(i: Instr): Word
    requires Encodable(i)
  {
    match i
    case Lui(rd, u) => UType(u, rd, 0x37)
    case Auipc(rd, u) => UType(u, rd, 0x17)
    case Jal(rd, off) => JType(off, rd, 0x6F)
    case Jalr(rd, rs1, off) => IType(off, rs1, 0, rd, 0x67)
    case If(c, rs1, rs2, off) => BType(off, rs2, rs1, CondCode(c), 0x63)
    case Load(k, rd, rs1, off) => IType(off, rs1, LoadCode(k), rd, 0x03)
    case Store(k, rs1, rs2, off) => SType(off, rs2, rs1, StoreCode(k), 0x23)
    case Imm(op, rd, rs1, imm) => IType(AluBits(op) * 32 + imm, rs1, AluCode(op), rd, 0x13)
    case Alu(op, rd, rs1, rs2) => RType(AluBits(op), rs2, rs1, AluCode(op), rd, 0x33)
    case Mul(op, rd, rs1, rs2) => RType(1, rs2, rs1, MulCode(op), rd, 0x33)
    case Csr(k, immediate, rd, src, csr) => IType(csr, src, CsrCode(k) + if immediate then 4 else 0, rd, 0x73)
    case Ecall => 0x0000_0073
    case Ebreak => 0x0010_0073
    case Mret => 0x3020_0073
    case Wfi => 0x1050_0073
    case Fence => 0x0FF0_000F
    case Lr(rd, rs1) => RType(2 * 4, 0, rs1, 2, rd, 0x2F)
    case Sc(rd, rs1, rs2) => RType(3 * 4, rs2, rs1, 2, rd, 0x2F)
    case Amo(k, rd, rs1, rs2) => RType(AmoCode(k) * 4, rs2, rs1, 2, rd, 0x2F)
  }

  // ---------------------------------------------------------------- meaning

  predicate Holds(c: Cond, a: Word, b: Word) {
    match c
    case BEQ => a == b
    case BNE => a != b
    case BLT => Signed(a) < Signed(b)
    case BGE => Signed(a) >= Signed(b)
    case BLTU => a < b
    case BGEU => a >= b
  }

  predicate OfRam(addr: Word) {
    0x8000_0000 <= addr < 0x80FF_FFFD
  }

  function LoadBytes(k: LoadKind): nat {
    match k
    case LB => 1
    case LBU => 1
    case LH => 2
    case LHU => 2
    case LW => 4
  }

  function StoreBytes(k: StoreKind): nat {
    match k
    case SB => 1
    case SH => 2
    case SW => 4
  }

  /** The value a load leaves in its register: the bytes as a number, signed for LB and LH. */
  ghost predicate Loads(k: LoadKind, ram: Ram, ofs: nat, v: Word)
    requires ofs + LoadBytes(k) <= RAM_SIZE
  {
    var n := Little(ram[ofs..ofs + LoadBytes(k)]);
    match k
    case LB => Signed(v) == if n < 0x80 then n else n - 0x100
    case LH => Signed(v) == if n < 0x8000 then n else n - 0x1_0000
    case _ => v == n
  }

  ghost predicate AluGives(k: AluKind, a: Word, b: Word, v: Word) {
    match k
    case ADD => (v - (a + b)) % TWO32 == 0
    case SUB => (v - (a - b)) % TWO32 == 0
    case SLL => (v - a * Pow2(b % 32)) % TWO32 == 0
    case SLT => v == if Signed(a) < Signed(b) then 1 else 0
    case SLTU => v == if a < b then 1 else 0
    case XOR => MadeOf(v, a, b, (s, t) => s != t)
    case SRL => v * Pow2(b % 32) <= a < (v + 1) * Pow2(b % 32)
    case SRA => Signed(v) * Pow2(b % 32) <= Signed(a) < (Signed(v) + 1) * Pow2(b % 32)
    case OR => MadeOf(v, a, b, (s, t) => s || t)
    case AND => MadeOf(v, a, b, (s, t) => s && t)
  }

  ghost predicate CsrGives(k: CsrKind, prior: Word, a: Word, v: Word) {
    match k
    case CSRRW => v == a
    case CSRRS => MadeOf(v, prior, a, (s, t) => s || t)
    case CSRRC => MadeOf(v, prior, a, (s, t) => s && !t)
  }

  /** Register rd gets v and the next instruction follows; nothing else changes. */
  ghost predicate Gets<E>(e: Effect<E>, m: Machine<E>, pc: Word, rd: Reg) {
    e.Retire? && e.next == U(pc + 4) && e.rd == rd && e.m == m
  }

  /** What an instruction at pc does to the machine. */
  ghost predicate Does<E>(i: Instr, m: Machine<E>, h: Hooks<E>, pc: Word, cycle: Word, e: Effect<E>)
    requires Encodable(i)
  {
    var r := m.core.regs;
    match i
    case Lui(rd, u) => Gets(e, m, pc, rd) && e.val == u * 4096
    case Auipc(rd, u) => Gets(e, m, pc, rd) && e.val == U(pc + u * 4096)
    case Jal(rd, off) => e == Retire(U(pc + off), rd, U(pc + 4), m)
    case Jalr(rd, rs1, off) => var t := U(r[rs1] + off); e == Retire(t - t % 2, rd, U(pc + 4), m)
    case If(c, rs1, rs2, off) => e == Retire(if Holds(c, r[rs1], r[rs2]) then U(pc + off) else U(pc + 4), 0, 0, m)
    case Load(k, rd, rs1, off) => DoesLoad(k, rd, U(r[rs1] + off), m, h, pc, e)
    case Store(k, rs1, rs2, off) => DoesStore(k, r[rs2], U(r[rs1] + off), m, h, pc, e)
    case Imm(op, rd, rs1, imm) => Gets(e, m, pc, rd) && AluGives(op, r[rs1], U(imm), e.val)
    case Alu(op, rd, rs1, rs2) => Gets(e, m, pc, rd) && AluGives(op, r[rs1], r[rs2], e.val)
    case Mul(k, rd, rs1, rs2) => Gets(e, m, pc, rd) && MulDiv(MulCode(k), r[rs1], r[rs2], e.val)
    case Csr(k, immediate, rd, src, csr) =>
      DoesCsr(k, rd, if immediate then src else r[src], csr, m, h, pc, cycle, e)
    case Ecall => e == Fault(if Mode(m.core.extraflags) == 0 then 8 else 11, pc)
    case Ebreak => e == Fault(3, pc)
    case Mret => Returns(m, e)
    case Wfi => Waits(m, e)
    case Fence => e == Retire(U(pc + 4), 0, 0, m)
    case Lr(rd, rs1) => if OfRam(r[rs1]) then DoesLr(rd, r[rs1] - 0x8000_0000, m, pc, e) else e == Fault(7, r[rs1])
    case Sc(rd, rs1, rs2) =>
      if OfRam(r[rs1]) then DoesSc(rd, r[rs1] - 0x8000_0000, r[rs2], m, pc, e) else e == Fault(7, r[rs1])
    case Amo(k, rd, rs1, rs2) =>
      if OfRam(r[rs1]) then DoesAmo(k, rd, r[rs1] - 0x8000_0000, r[rs2], m, pc, e) else e == Fault(7, r[rs1])
  }

  /** The next instruction follows, and the machine's registers, CSRs and devices stay as they are. */
  ghost predicate MovesOn<E>(e: Effect<E>, m: Machine<E>, pc: Word, rd: Reg) {
    e.Retire? && e.next == U(pc + 4) && e.rd == rd && e.m == m.(ram := e.m.ram)
  }

  /** A load from the RAM, the timer or a device, or an access fault. */
  ghost predicate DoesLoad<E>(k: LoadKind, rd: Reg, addr: Word, m: Machine<E>, h: Hooks<E>, pc: Word, e: Effect<E>) {
    if OfRam(addr) then Gets(e, m, pc, rd) && Loads(k, m.ram, addr - 0x8000_0000, e.val)
    else if addr == 0x1100_BFFC then Gets(e, m, pc, rd) && e.val == m.core.timerh
    else if addr == 0x1100_BFF8 then Gets(e, m, pc, rd) && e.val == m.core.timerl
    else if 0x1000_0000 <= addr < 0x1200_0000 then
      e == Retire(U(pc + 4), rd, h.load(m.env, addr).1, m.(env := h.load(m.env, addr).0))
    else e == Fault(5, addr)
  }

  /** A store to the RAM, the timer's match value, the SYSCON or a device, or an access fault. */
  ghost predicate DoesStore<E>(
      k: StoreKind, val: Word, addr: Word, m: Machine<E>, h: Hooks<E>, pc: Word, e: Effect<E>) {
    if OfRam(addr) then MovesOn(e, m, pc, 0) && Stored(m.ram, e.m.ram, addr - 0x8000_0000, StoreBytes(k), val)
    else if addr == 0x1100_4004 then e == Retire(U(pc + 4), 0, 0, m.(core := m.core.(timermatchh := val)))
    else if addr == 0x1100_4000 then e == Retire(U(pc + 4), 0, 0, m.(core := m.core.(timermatchl := val)))
    else if addr == 0x1110_0000 then e == Power(val, m)
    else if 0x1000_0000 <= addr < 0x1200_0000 then e == Retire(U(pc + 4), 0, 0, m.(env := h.store(m.env, addr, val)))
    else e == Fault(7, addr)
  }

  ghost predicate DoesCsr<E>(
      k: CsrKind, rd: Reg, a: Word, csr: nat, m: Machine<E>, h: Hooks<E>, pc: Word, cycle: Word, e: Effect<E>)
    requires csr < 4096
  {
    var (m1, prior) := ReadCsr(m, h, csr, cycle);
    && e.Retire? && e.next == U(pc + 4) && e.rd == rd && e.val == prior
    && exists v: Word :: CsrGives(k, prior, a, v) && e.m == WriteCsr(m1, h, csr, v)
  }

  /** LR.W reads a word and reserves its place. */
  ghost predicate DoesLr<E>(rd: Reg, ofs: nat, m: Machine<E>, pc: Word, e: Effect<E>)
    requires ofs < RAM_SIZE - 3
  {
    && e.Retire? && e.next == U(pc + 4) && e.rd == rd && e.val == Little(m.ram[ofs..ofs + 4])
    && e.m == m.(core := m.core.(extraflags := m.core.extraflags % 8 + 8 * ofs))
  }

  /** SC.W stores if its place is the reserved one. */
  ghost predicate DoesSc<E>(rd: Reg, ofs: nat, val: Word, m: Machine<E>, pc: Word, e: Effect<E>)
    requires ofs < RAM_SIZE - 3
  {
    && MovesOn(e, m, pc, rd)
    && if m.core.extraflags / 8 == ofs then e.val == 0 && Stored(m.ram, e.m.ram, ofs, 4, val)
       else e.val == 1 && e.m.ram == m.ram
  }

  ghost predicate DoesAmo<E>(k: AmoKind, rd: Reg, ofs: nat, b: Word, m: Machine<E>, pc: Word, e: Effect<E>)
    requires ofs < RAM_SIZE - 3
  {
    && MovesOn(e, m, pc, rd) && e.val == Little(m.ram[ofs..ofs + 4])
    && exists v: Word :: Combines(AmoCode(k), e.val, b, v) && Stored(m.ram, e.m.ram, ofs, 4, v)
  }

  /** WFI enables interrupts and waits. */
  ghost predicate Waits<E>(m: Machine<E>, e: Effect<E>) {
    && e.Wait? && e.m == m.(core := m.core.(mstatus := e.m.core.mstatus, extraflags := e.m.core.extraflags))
    && MadeOf(e.m.core.mstatus, m.core.mstatus, 8, (s, t) => s || t)
    && MadeOf(e.m.core.extraflags, m.core.extraflags, 4, (s, t) => s || t)
  }

  /** MRET goes back to mepc with the interrupt enable and the mode from where the trap put them. */
  ghost predicate Returns<E>(m: Machine<E>, e: Effect<E>) {
    var status, flags := m.core.mstatus, m.core.extraflags;
    && e.Retire? && e.next == m.core.mepc && e.rd == 0
    && e.m == m.(core := m.core.(mstatus := e.m.core.mstatus, extraflags := e.m.core.extraflags))
    && e.m.core.mstatus == (if BitAt(status, 7) then 0x88 else 0x80) + flags % 4 * 0x800
    && e.m.core.extraflags % 4 == status / 0x800 % 4 && e.m.core.extraflags / 4 == flags / 4
  }

  // ---------------------------------------------------------------- decoding

  /** A field of a number put together from parts. */
  lemma {:induction false} FieldAt(x: nat, hi: nat, mid: nat, lo: nat, p: nat, len: nat, m: nat, n: nat)
    requires m == Pow2(p) && n == Pow2(len) && x == hi * (m * n) + mid * m + lo && mid < n && lo < m
    ensures Field(x, p, len) == mid
  {
    hide Pow2;
    assert x == (hi * n + mid) * m + lo by { Regroup(hi, n, m, mid); }
    assert hi * n >= 0;
    DivModUnique(x, m, hi * n + mid, lo);
    DivModUnique(hi * n + mid, n, hi, mid);
  }

  lemma Regroup(hi: nat, n: nat, m: nat, mid: nat)
    ensures (hi * n + mid) * m == hi * (m * n) + mid * m
  {
  }

  /** The fields of an encoded instruction. */
  lemma {:induction false} Fields(f7: nat, rs2: Reg, rs1: Reg, f3: nat, rd: Reg, opcode: nat)
    requires f7 < 128 && f3 < 8 && opcode < 128
    ensures var ir := RType(f7, rs2, rs1, f3, rd, opcode);
      && Opcode(ir) == opcode && Rd(ir) == rd && Funct3(ir) == f3 && Small(ir, 15) == rs1 && Small(ir, 20) == rs2
      && Field(ir, 25, 7) == f7 && Small(ir, 27) == f7 / 4 && Field(ir, 20, 12) == f7 * 32 + rs2
  {
    Powers();
    hide Pow2, Field;
    var ir := RType(f7, rs2, rs1, f3, rd, opcode);
    var a := ((f7 * 32 + rs2) * 32 + rs1) * 8 + f3;
    FieldAt(ir, a * 32 + rd, opcode, 0, 0, 7, 1, 0x80);
    FieldAt(ir, a, rd, opcode, 7, 5, 0x80, 0x20);
    FieldAt(ir, (f7 * 32 + rs2) * 32 + rs1, f3, rd * 0x80 + opcode, 12, 3, 0x1000, 8);
    var low := f3 * 0x1000 + rd * 0x80 + opcode;
    FieldAt(ir, f7 * 32 + rs2, rs1, low, 15, 5, 0x8000, 0x20);
    FieldAt(ir, f7, rs2, rs1 * 0x8000 + low, 20, 5, 0x10_0000, 0x20);
    FieldAt(ir, 0, f7 * 32 + rs2, rs1 * 0x8000 + low, 20, 12, 0x10_0000, 0x1000);
    var mid := rs2 * 0x10_0000 + rs1 * 0x8000 + low;
    FieldAt(ir, 0, f7, mid, 25, 7, 0x200_0000, 0x80);
    FieldAt(ir, 0, f7 / 4, f7 % 4 * 0x200_0000 + mid, 27, 5, 0x800_0000, 0x20);
  }

  /** Two fields cut in two. */
  lemma {:induction false} HalfFields(f7: nat, rs2: Reg, rs1: Reg, f3: nat, rd: Reg, opcode: nat)
    requires f7 < 128 && f3 < 8 && opcode < 128
    ensures var ir := RType(f7, rs2, rs1, f3, rd, opcode);
      && Field(ir, 31, 1) == f7 / 64 && Field(ir, 25, 6) == f7 % 64
      && Field(ir, 8, 4) == rd / 2 && Field(ir, 7, 1) == rd % 2
      && Field(ir, 30, 1) == f7 / 32 % 2 && Field(ir, 25, 1) == f7 % 2
  {
    Powers();
    hide Pow2, Field;
    var ir := RType(f7, rs2, rs1, f3, rd, opcode);
    var a := ((f7 * 32 + rs2) * 32 + rs1) * 8 + f3;
    var mid := rs2 * 0x10_0000 + rs1 * 0x8000 + f3 * 0x1000 + rd * 0x80 + opcode;
    FieldAt(ir, 0, f7 / 64, f7 % 64 * 0x200_0000 + mid, 31, 1, 0x8000_0000, 2);
    FieldAt(ir, f7 / 64, f7 % 64, mid, 25, 6, 0x200_0000, 64);
    FieldAt(ir, f7 / 64, f7 / 32 % 2, f7 % 32 * 0x200_0000 + mid, 30, 1, 0x4000_0000, 2);
    FieldAt(ir, f7 / 2, f7 % 2, mid, 25, 1, 0x200_0000, 2);
    FieldAt(ir, a, rd / 2, rd % 2 * 0x80 + opcode, 8, 4, 0x100, 16);
    FieldAt(ir, a * 16 + rd / 2, rd % 2, opcode, 7, 1, 0x80, 2);
  }

  /** Numbers of n bits as two's complement. */
  lemma {:induction false} Signs(imm: int, p: int, n: nat)
    requires n > 0 && p == Pow2(n - 1) && -p <= imm < p
    ensures Pow2(n) == 2 * p && imm % Pow2(n) == (if imm < 0 then imm + 2 * p else imm)
    ensures SignExtend(imm % Pow2(n), n) == imm
  {
    var q := if imm < 0 then -1 else 0;
    assert imm == q * Pow2(n) + (imm - q * Pow2(n));
    ModIs(imm, Pow2(n), q);
  }

  lemma ModIs(x: int, m: nat, q: int)
    requires 0 <= x - q * m < m
    ensures x % m == x - q * m && x / m == q
  {
    var q', r' := x / m, x % m;
    assert x == q' * m + r';
    MulLe(q' + 1, q, m);
    MulLe(q + 1, q', m);
  }

  lemma Split(u: int, m: nat)
    requires m > 0
    ensures u == u / m * m + u % m && 0 <= u % m < m
  {
  }

  lemma {:induction false} TwiceDivided(x: int, m: nat, n: nat)
    requires m > 0 && n > 0
    ensures m * n > 0 && x / m / n == x / (m * n)
  {
    var q := x / m;
    Split(x, m);
    Split(q, n);
    var d := q / n;
    assert x == d * (m * n) + (q % n * m + x % m) by { Regrouped(d, n, q % n, m, x % m); }
    MulLe(q % n + 1, n, m);
    assert (q % n + 1) * m == q % n * m + m && q % n * m >= 0;
    ModIs(x, m * n, d);
  }

  lemma Regrouped(d: int, n: nat, r: int, m: nat, t: int)
    ensures (d * n + r) * m + t == d * (m * n) + (r * m + t)
  {
  }

  lemma {:induction false} IFields(imm: int, rs1: Reg, f3: nat, rd: Reg, opcode: nat)
    requires -2048 <= imm < 4096 && f3 < 8 && opcode < 128
    ensures var ir := IType(imm, rs1, f3, rd, opcode);
      && Opcode(ir) == opcode && Rd(ir) == rd && Funct3(ir) == f3 && Small(ir, 15) == rs1
      && Field(ir, 20, 12) == imm % 4096 && Field(ir, 25, 7) == imm % 4096 / 32
      && (imm < 2048 ==> ImmI(ir) == imm)
  {
    hide Field, Opcode, Rd, Small, Funct3, SignExtend, Pow2;
    Powers();
    var u := imm % 4096;
    Split(u, 32);
    var a, b := u / 32, u % 32;
    assert a < 128;
    assert IType(imm, rs1, f3, rd, opcode) == RType(a, b, rs1, f3, rd, opcode);
    Fields(a, b, rs1, f3, rd, opcode);
    if imm < 2048 { Signs(imm, 2048, 12); }
  }

  lemma {:induction false} SFields(imm: int, rs2: Reg, rs1: Reg, f3: nat, opcode: nat)
    requires -2048 <= imm < 2048 && f3 < 8 && opcode < 128
    ensures var ir := SType(imm, rs2, rs1, f3, opcode);
      && Opcode(ir) == opcode && Funct3(ir) == f3 && Small(ir, 15) == rs1 && Small(ir, 20) == rs2 && ImmS(ir) == imm
  {
    hide Field, Opcode, Funct3, RType, SignExtend, Pow2;
    Powers();
    Fields(imm % 4096 / 32, rs2, rs1, f3, imm % 32, opcode);
    Signs(imm, 2048, 12);
    assert imm % 4096 % 32 == imm % 32;
    Split(imm % 4096, 32);
  }

  lemma {:induction false} BFields(imm: int, rs2: Reg, rs1: Reg, f3: nat, opcode: nat)
    requires -4096 <= imm < 4096 && imm % 2 == 0 && f3 < 8 && opcode < 128
    ensures var ir := BType(imm, rs2, rs1, f3, opcode);
      && Opcode(ir) == opcode && Funct3(ir) == f3 && Small(ir, 15) == rs1 && Small(ir, 20) == rs2 && ImmB(ir) == imm
  {
    hide Field, Opcode, Small, Funct3, RType, SignExtend, Pow2;
    Powers();
    BranchBits(imm);
    var d, b, a, c := imm / 4096 % 2, imm / 32 % 64, imm / 2 % 16, imm / 2048 % 2;
    Fields(d * 64 + b, rs2, rs1, f3, a * 2 + c, opcode);
    HalfFields(d * 64 + b, rs2, rs1, f3, a * 2 + c, opcode);
    ModIs(d * 64 + b, 64, d);
    ModIs(a * 2 + c, 2, a);
    Signs(imm, 4096, 13);
  }

  lemma {:induction false} BranchBits(imm: int)
    requires -4096 <= imm < 4096 && imm % 2 == 0
    ensures imm / 4096 % 2 * 4096 + imm / 2048 % 2 * 2048 + imm / 32 % 64 * 32 + imm / 2 % 16 * 2 == imm % 8192
  {
    Digits(imm, 16, 64);
    var d := imm / 4096;
    TwiceDivided(imm, 2048, 2);
    Split(imm / 2048, 2);
    ModIs(imm, 8192, if imm < 0 then -1 else 0);
    ModIs(imm, 4096, if imm < 0 then -1 else 0);
    assert d % 2 == if imm < 0 then 1 else 0;
  }

  /** An even number, digit by digit. */
  lemma {:induction false} Digits(x: int, m: nat, n: nat)
    requires x % 2 == 0 && m > 0 && n > 0
    ensures 2 * m > 0 && 2 * m * n > 0
    ensures x == (x / (2 * m * n) * n + x / (2 * m) % n) * (2 * m) + x / 2 % m * 2
  {
    Split(x / 2, m);
    TwiceDivided(x, 2, m);
    Split(x / (2 * m), n);
    TwiceDivided(x, 2 * m, n);
    assert x / (2 * m) * m * 2 == x / (2 * m) * (2 * m);
  }

  lemma {:induction false} UFields(upper: nat, rd: Reg, opcode: nat)
    requires upper < 0x10_0000 && opcode < 128
    ensures var ir := UType(upper, rd, opcode);
      && Opcode(ir) == opcode && Rd(ir) == rd && ImmU(ir) == upper * 4096
  {
    Powers();
    hide Pow2, Field;
    var ir := UType(upper, rd, opcode);
    FieldAt(ir, upper * 32 + rd, opcode, 0, 0, 7, 1, 0x80);
    FieldAt(ir, upper, rd, opcode, 7, 5, 0x80, 0x20);
    FieldAt(ir, 0, upper, rd * 0x80 + opcode, 12, 20, 0x1000, 0x10_0000);
  }

  lemma {:induction false} JFields(imm: int, rd: Reg, opcode: nat)
    requires -0x10_0000 <= imm < 0x10_0000 && imm % 2 == 0 && opcode < 128
    ensures var ir := JType(imm, rd, opcode); Opcode(ir) == opcode && Rd(ir) == rd && ImmJ(ir) == imm
  {
    hide Field, Opcode, Rd, SignExtend, Pow2, UType;
    Powers();
    JParts(imm / 0x10_0000 % 2, imm / 2 % 1024, imm / 2048 % 2, imm / 4096 % 256, rd, opcode);
    JumpBits(imm);
    Signs(imm, 0x10_0000, 21);
  }

  lemma {:induction false} JParts(s: nat, x: nat, y: nat, z: nat, rd: Reg, opcode: nat)
    requires s < 2 && x < 1024 && y < 2 && z < 256 && opcode < 128
    ensures var ir := UType(s * 0x8_0000 + x * 0x200 + y * 0x100 + z, rd, opcode);
      && Opcode(ir) == opcode && Rd(ir) == rd
      && Field(ir, 31, 1) == s && Field(ir, 21, 10) == x && Field(ir, 20, 1) == y && Field(ir, 12, 8) == z
  {
    hide Pow2, Field, Opcode, Rd;
    Powers();
    var u, low := s * 0x8_0000 + x * 0x200 + y * 0x100 + z, rd * 0x80 + opcode;
    UFields(u, rd, opcode);
    var ir := UType(u, rd, opcode);
    FieldAt(ir, 0, s, x * 0x20_0000 + y * 0x10_0000 + z * 0x1000 + low, 31, 1, 0x8000_0000, 2);
    FieldAt(ir, s, x, y * 0x10_0000 + z * 0x1000 + low, 21, 10, 0x20_0000, 1024);
    FieldAt(ir, s * 1024 + x, y, z * 0x1000 + low, 20, 1, 0x10_0000, 2);
    FieldAt(ir, (s * 1024 + x) * 2 + y, z, low, 12, 8, 0x1000, 256);
  }

  lemma {:induction false} JumpBits(imm: int)
    requires -0x10_0000 <= imm < 0x10_0000 && imm % 2 == 0
    ensures imm / 0x10_0000 % 2 * 0x10_0000 + imm / 4096 % 256 * 4096 + imm / 2048 % 2 * 2048 + imm / 2 % 1024 * 2
         == imm % 0x20_0000
  {
    Digits(imm, 1024, 2);
    TwiceDivided(imm, 4096, 256);
    Split(imm / 4096, 256);
    ModIs(imm, 0x20_0000, if imm < 0 then -1 else 0);
    ModIs(imm, 0x10_0000, if imm < 0 then -1 else 0);
    assert imm / 0x10_0000 % 2 == if imm < 0 then 1 else 0;
  }

  // ---------------------------------------------------------------- execution

  /** Every instruction does what its name says. */
  lemma {:induction false} Executes<E>(i: Instr, m: Machine<E>, h: Hooks<E>, pc: Word, cycle: Word)
    requires Encodable(i)
    ensures Does(i, m, h, pc, cycle, Execute(m, h, pc, Encode(i), cycle))
  {
    hide Execute, Encode, Does;
    match i
    case Lui(_, _) => UpperDoes(i, m, h, pc, cycle);
    case Auipc(_, _) => UpperDoes(i, m, h, pc, cycle);
    case Jal(_, _) => JumpDoes(i, m, h, pc, cycle);
    case Jalr(_, _, _) => JumpDoes(i, m, h, pc, cycle);
    case If(_, _, _, _) => BranchDoes(i, m, h, pc, cycle);
    case Load(_, _, _, _) => LoadDoes(i, m, h, pc, cycle);
    case Store(_, _, _, _) => StoreDoes(i, m, h, pc, cycle);
    case Imm(_, _, _, _) => ImmDoes(i, m, h, pc, cycle);
    case Alu(_, _, _, _) => AluDoes(i, m, h, pc, cycle);
    case Mul(_, _, _, _) => MulDoes(i, m, h, pc, cycle);
    case Csr(_, _, _, _, _) => CsrDoes(i, m, h, pc, cycle);
    case Fence => FenceDoes(m, h, pc, cycle);
    case Mret => ReturnDoes(m, h, pc, cycle);
    case Wfi => WaitDoes(m, h, pc, cycle);
    case Lr(_, _) => LrDoes(i, m, h, pc, cycle);
    case Sc(_, _, _) => ScDoes(i, m, h, pc, cycle);
    case Amo(_, _, _, _) => AmoDoes(i, m, h, pc, cycle);
    case _ => CallDoes(i, m, h, pc, cycle);
  }

  lemma {:induction false} UpperDoes<E>(i: Instr, m: Machine<E>, h: Hooks<E>, pc: Word, cycle: Word)
    requires Encodable(i) && (i.Lui? || i.Auipc?)
    ensures Does(i, m, h, pc, cycle, Execute(m, h, pc, Encode(i), cycle))
  {
    hide Branch, LoadOp, StoreOp, RvSpec.Op, SystemOp, Atomic;
    hide Field, UType, U, Opcode, Rd;
    UFields(i.upper, i.rd, if i.Lui? then 0x37 else 0x17);
  }

  lemma {:induction false} JumpDoes<E>(i: Instr, m: Machine<E>, h: Hooks<E>, pc: Word, cycle: Word)
    requires Encodable(i) && (i.Jal? || i.Jalr?)
    ensures Does(i, m, h, pc, cycle, Execute(m, h, pc, Encode(i), cycle))
  {
    hide Branch, LoadOp, StoreOp, RvSpec.Op, SystemOp, Atomic;
    hide Field, JType, IType, U, Opcode, Rd, ImmI, ImmJ, Small;
    if i.Jal? { JFields(i.off, i.rd, 0x6F); } else { IFields(i.off, i.rs1, 0, i.rd, 0x67); }
  }

  lemma {:induction false} BranchDoes<E>(i: Instr, m: Machine<E>, h: Hooks<E>, pc: Word, cycle: Word)
    requires Encodable(i) && i.If?
    ensures Does(i, m, h, pc, cycle, Execute(m, h, pc, Encode(i), cycle))
  {
    hide LoadOp, StoreOp, RvSpec.Op, SystemOp, Atomic;
    hide Field, BType, U, Opcode, Funct3, ImmB, Small, Signed;
    BFields(i.off, i.rs2, i.rs1, CondCode(i.cond), 0x63);
  }

  lemma RamAddress(addr: Word)
    ensures InRam(addr) <==> OfRam(addr)
    ensures OfRam(addr) ==> Ofs(addr) == addr - 0x8000_0000
  {
  }

  lemma {:induction false} LoadDoes<E>(i: Instr, m: Machine<E>, h: Hooks<E>, pc: Word, cycle: Word)
    requires Encodable(i) && i.Load?
    ensures Does(i, m, h, pc, cycle, Execute(m, h, pc, Encode(i), cycle))
  {
    hide Field, IType, U, Opcode, Rd, Funct3, ImmI, Small, LoadOp, DoesLoad;
    IFields(i.off, i.rs1, LoadCode(i.load), i.rd, 0x03);
    LoadOpIs(i.load, i.rd, i.rs1, i.off, m, h, pc, Encode(i));
  }

  lemma {:induction false} LoadOpIs<E>(
      k: LoadKind, rd: Reg, rs1: Reg, off: int, m: Machine<E>, h: Hooks<E>, pc: Word, ir: Word)
    requires Funct3(ir) == LoadCode(k) && Rd(ir) == rd && Small(ir, 15) == rs1 && ImmI(ir) == off
    ensures DoesLoad(k, rd, U(m.core.regs[rs1] + off), m, h, pc, LoadOp(m, h, pc, ir))
  {
    hide Field, U, Rd, Funct3, ImmI, Small, Signed, InRam, OfRam, Ofs, RvSpec.Load, Extended, Little;
    var addr := U(m.core.regs[rs1] + off);
    RamAddress(addr);
    if OfRam(addr) {
      BytesFit(addr);
      LoadIs(m.ram, Ofs(addr), LoadBytes(k));
      ExtendedIs(LoadCode(k), RvSpec.Load(m.ram, Ofs(addr), LoadBytes(k)));
    }
  }

  lemma BytesFit(addr: Word)
    ensures OfRam(addr) ==> addr - 0x8000_0000 + 4 <= RAM_SIZE
    ensures Pow2(8) == 0x100 && Pow2(16) == 0x1_0000 && Pow2(32) == TWO32
  {
    Powers();
  }

  lemma {:induction false} StoreDoes<E>(i: Instr, m: Machine<E>, h: Hooks<E>, pc: Word, cycle: Word)
    requires Encodable(i) && i.Store?
    ensures Does(i, m, h, pc, cycle, Execute(m, h, pc, Encode(i), cycle))
  {
    hide Field, SType, U, Opcode, Funct3, ImmS, Small, StoreOp, DoesStore;
    SFields(i.off, i.rs2, i.rs1, StoreCode(i.store), 0x23);
    StoreOpIs(i.store, i.rs1, i.rs2, i.off, m, h, pc, Encode(i));
  }

  lemma {:induction false} StoreOpIs<E>(
      k: StoreKind, rs1: Reg, rs2: Reg, off: int, m: Machine<E>, h: Hooks<E>, pc: Word, ir: Word)
    requires Funct3(ir) == StoreCode(k) && Small(ir, 15) == rs1 && Small(ir, 20) == rs2 && ImmS(ir) == off
    ensures DoesStore(k, m.core.regs[rs2], U(m.core.regs[rs1] + off), m, h, pc, StoreOp(m, h, pc, ir))
  {
    hide Field, U, Funct3, ImmS, Small, InRam, OfRam, Ofs, RvSpec.Store, Stored;
    var addr := U(m.core.regs[rs1] + off);
    RamAddress(addr);
    if OfRam(addr) {
      BytesFit(addr);
      StoreIs(m.ram, Ofs(addr), StoreBytes(k), m.core.regs[rs2]);
    }
  }

  /** The operation by its code and bit 30. */
  lemma {:induction false} AluMatches(k: AluKind, a: Word, b: Word, b': Word, alt: bool)
    requires (k == SUB ==> alt) && (k == ADD ==> !alt) && (k == SRA ==> alt) && (k == SRL ==> !alt)
    requires b == b' || (k in {SLL, SRL, SRA} && b % 32 == b' % 32)
    ensures AluGives(k, a, b', AluOp(AluCode(k), a, b, alt))
  {
    hide AluOp, MadeOf, Pow2, Signed;
    AluIs(AluCode(k), a, b, alt);
  }

  lemma {:induction false} ImmDoes<E>(i: Instr, m: Machine<E>, h: Hooks<E>, pc: Word, cycle: Word)
    requires Encodable(i) && i.Imm?
    ensures Does(i, m, h, pc, cycle, Execute(m, h, pc, Encode(i), cycle))
  {
    hide Field, IType, U, Opcode, Rd, Funct3, ImmI, Small, RvSpec.Op, Gets, AluGives;
    IFields(AluBits(i.op) * 32 + i.imm, i.rs1, AluCode(i.op), i.rd, 0x13);
    ImmOpIs(i.op, i.rd, i.rs1, i.imm, m, pc, Encode(i));
  }

  lemma {:induction false} ImmOpIs<E>(op: AluKind, rd: Reg, rs1: Reg, imm: int, m: Machine<E>, pc: Word, ir: Word)
    requires Encodable(Imm(op, rd, rs1, imm)) && ir == IType(AluBits(op) * 32 + imm, rs1, AluCode(op), rd, 0x13)
    requires Funct3(ir) == AluCode(op) && Rd(ir) == rd && Small(ir, 15) == rs1 && ImmI(ir) == AluBits(op) * 32 + imm
    ensures var e := RvSpec.Op(m, pc, ir, false); Gets(e, m, pc, rd) && AluGives(op, m.core.regs[rs1], U(imm), e.val)
  {
    hide Field, IType, U, Opcode, Rd, Funct3, ImmI, Small, AluOp, AluGives;
    if op in {SRL, SRA} { ImmBit30(op, imm, rs1, rd); }
    ShiftImm(op, imm);
    AluMatches(op, m.core.regs[rs1], U(AluBits(op) * 32 + imm), U(imm), BitSet(ir, 30) && AluCode(op) != 0);
  }

  lemma ShiftImm(op: AluKind, imm: int)
    requires op in {SLL, SRL, SRA} ==> 0 <= imm < 32
    ensures op !in {SLL, SRL, SRA, SUB} ==> AluBits(op) == 0
    ensures op in {SLL, SRL, SRA} ==> U(AluBits(op) * 32 + imm) % 32 == U(imm) % 32
  {
  }

  lemma {:induction false} ImmBit30(op: AluKind, imm: int, rs1: Reg, rd: Reg)
    requires op in {SRL, SRA} && 0 <= imm < 32
    ensures var ir := IType(AluBits(op) * 32 + imm, rs1, 5, rd, 0x13); BitSet(ir, 30) <==> op == SRA
  {
    hide Field;
    assert IType(AluBits(op) * 32 + imm, rs1, 5, rd, 0x13) == RType(AluBits(op), imm, rs1, 5, rd, 0x13);
    HalfFields(AluBits(op), imm, rs1, 5, rd, 0x13);
  }

  lemma {:induction false} AluDoes<E>(i: Instr, m: Machine<E>, h: Hooks<E>, pc: Word, cycle: Word)
    requires Encodable(i) && i.Alu?
    ensures Does(i, m, h, pc, cycle, Execute(m, h, pc, Encode(i), cycle))
  {
    hide Branch, LoadOp, StoreOp, SystemOp, Atomic;
    hide Field, RType, U, Opcode, Rd, Funct3, Small, AluOp, AluGives, MulOp, ImmI;
    Fields(AluBits(i.op), i.rs2, i.rs1, AluCode(i.op), i.rd, 0x33);
    HalfFields(AluBits(i.op), i.rs2, i.rs1, AluCode(i.op), i.rd, 0x33);
    var a, b := m.core.regs[i.rs1], m.core.regs[i.rs2];
    AluMatches(i.op, a, b, b, BitSet(Encode(i), 30));
  }

  lemma {:induction false} MulDoes<E>(i: Instr, m: Machine<E>, h: Hooks<E>, pc: Word, cycle: Word)
    requires Encodable(i) && i.Mul?
    ensures Does(i, m, h, pc, cycle, Execute(m, h, pc, Encode(i), cycle))
  {
    hide Branch, LoadOp, StoreOp, SystemOp, Atomic;
    hide Field, RType, U, Opcode, Rd, Funct3, Small, AluOp, MulOp, MulDiv, ImmI;
    Fields(1, i.rs2, i.rs1, MulCode(i.mul), i.rd, 0x33);
    HalfFields(1, i.rs2, i.rs1, MulCode(i.mul), i.rd, 0x33);
    MulDivIs(MulCode(i.mul), m.core.regs[i.rs1], m.core.regs[i.rs2]);
  }

  lemma {:induction false} CsrDoes<E>(i: Instr, m: Machine<E>, h: Hooks<E>, pc: Word, cycle: Word)
    requires Encodable(i) && i.Csr?
    ensures Does(i, m, h, pc, cycle, Execute(m, h, pc, Encode(i), cycle))
  {
    hide Field, IType, U, Opcode, Rd, Funct3, Small, CsrOp, DoesCsr;
    var f := CsrCode(i.csrOp) + if i.immediate then 4 else 0;
    IFields(i.csr, i.src, f, i.rd, 0x73);
    assert i.csr % 4096 == i.csr;
    CsrOpIs(i.csrOp, i.immediate, i.rd, i.src, i.csr, m, h, pc, Encode(i), cycle);
  }

  lemma {:induction false} CsrOpIs<E>(k: CsrKind, immediate: bool, rd: Reg, src: Reg, csr: nat, m: Machine<E>,
                                      h: Hooks<E>, pc: Word, ir: Word, cycle: Word)
    requires Funct3(ir) == CsrCode(k) + (if immediate then 4 else 0) && Rd(ir) == rd && Small(ir, 15) == src
    requires Field(ir, 20, 12) == csr < 4096
    ensures var a: Word := if immediate then src else m.core.regs[src];
      DoesCsr(k, rd, a, csr, m, h, pc, cycle, CsrOp(m, h, pc, ir, cycle))
  {
    hide Field, U, Rd, Funct3, Small, ReadCsr, WriteCsr, Or, And, RvBits.Not, CsrGives;
    var (m1, prior) := ReadCsr(m, h, csr, cycle);
    var a: Word := if immediate then src else m.core.regs[src];
    CsrMatches(k, prior, a);
    var v := match k case CSRRW => a case CSRRS => Or(prior, a) case CSRRC => And(prior, RvBits.Not(a));
    assert CsrGives(k, prior, a, v);
  }

  lemma {:induction false} CsrMatches(k: CsrKind, prior: Word, a: Word)
    ensures CsrGives(CSRRW, prior, a, a)
    ensures CsrGives(CSRRS, prior, a, Or(prior, a)) && CsrGives(CSRRC, prior, a, And(prior, RvBits.Not(a)))
  {
    hide BitAt, Gates, Pow2;
    Powers();
    GatesMade(prior, a);
    GatesMade(prior, RvBits.Not(a));
    forall j: nat | j < 32
      ensures BitAt(RvBits.Not(a), j) <==> !BitAt(a, j)
    {
      InvertedAt(a, 32, j);
    }
  }

  /** An instruction word of the atomic opcode with these fields. */
  predicate AtomicWord(ir: Word, op: nat, rd: Reg, rs1: Reg, rs2: Reg) {
    Opcode(ir) == 0x2F && Small(ir, 27) == op && Rd(ir) == rd && Small(ir, 15) == rs1 && Small(ir, 20) == rs2
  }

  lemma {:induction false} LrDoes<E>(i: Instr, m: Machine<E>, h: Hooks<E>, pc: Word, cycle: Word)
    requires Encodable(i) && i.Lr?
    ensures Does(i, m, h, pc, cycle, Execute(m, h, pc, Encode(i), cycle))
  {
    hide Atomic, RType, Rd, Small, Field, Opcode, DoesLr, OfRam;
    Fields(8, 0, i.rs1, 2, i.rd, 0x2F);
    LrOpIs(i.rd, m.core.regs[i.rs1], m, pc, Encode(i));
  }

  lemma {:induction false} ScDoes<E>(i: Instr, m: Machine<E>, h: Hooks<E>, pc: Word, cycle: Word)
    requires Encodable(i) && i.Sc?
    ensures Does(i, m, h, pc, cycle, Execute(m, h, pc, Encode(i), cycle))
  {
    hide Atomic, RType, Rd, Small, Field, Opcode, DoesSc, OfRam;
    Fields(12, i.rs2, i.rs1, 2, i.rd, 0x2F);
    ScOpIs(i.rd, m.core.regs[i.rs1], m.core.regs[i.rs2], m, pc, Encode(i));
  }

  lemma {:induction false} AmoDoes<E>(i: Instr, m: Machine<E>, h: Hooks<E>, pc: Word, cycle: Word)
    requires Encodable(i) && i.Amo?
    ensures Does(i, m, h, pc, cycle, Execute(m, h, pc, Encode(i), cycle))
  {
    hide Atomic, RType, Rd, Small, Field, Opcode, DoesAmo, OfRam;
    Fields(AmoCode(i.amo) * 4, i.rs2, i.rs1, 2, i.rd, 0x2F);
    AmoOpIs(i.amo, i.rd, m.core.regs[i.rs1], m.core.regs[i.rs2], m, pc, Encode(i));
  }

  lemma {:induction false} LrOpIs<E>(rd: Reg, addr: Word, m: Machine<E>, pc: Word, ir: Word)
    requires AtomicWord(ir, 2, rd, Small(ir, 15), 0) && addr == m.core.regs[Small(ir, 15)]
    ensures var e := Atomic(m, pc, ir);
      if OfRam(addr) then DoesLr(rd, addr - 0x8000_0000, m, pc, e) else e == Fault(7, addr)
  {
    hide Field, U, Opcode, Rd, Small, InRam, OfRam, Ofs, RvSpec.Load, RvSpec.Store, Little, AmoOp;
    RamAddress(addr);
    if OfRam(addr) {
      BytesFit(addr);
      LoadIs(m.ram, Ofs(addr), 4);
    }
  }

  lemma {:induction false} ScOpIs<E>(rd: Reg, addr: Word, val: Word, m: Machine<E>, pc: Word, ir: Word)
    requires AtomicWord(ir, 3, rd, Small(ir, 15), Small(ir, 20))
    requires addr == m.core.regs[Small(ir, 15)] && val == m.core.regs[Small(ir, 20)]
    ensures var e := Atomic(m, pc, ir);
      if OfRam(addr) then DoesSc(rd, addr - 0x8000_0000, val, m, pc, e) else e == Fault(7, addr)
  {
    hide Field, U, Opcode, Rd, Small, InRam, OfRam, Ofs, RvSpec.Load, RvSpec.Store, Stored, AmoOp;
    RamAddress(addr);
    if OfRam(addr) {
      BytesFit(addr);
      StoreIs(m.ram, Ofs(addr), 4, val);
    }
  }

  lemma {:induction false} AmoOpIs<E>(k: AmoKind, rd: Reg, addr: Word, b: Word, m: Machine<E>, pc: Word, ir: Word)
    requires AtomicWord(ir, AmoCode(k), rd, Small(ir, 15), Small(ir, 20))
    requires addr == m.core.regs[Small(ir, 15)] && b == m.core.regs[Small(ir, 20)]
    ensures var e := Atomic(m, pc, ir);
      if OfRam(addr) then DoesAmo(k, rd, addr - 0x8000_0000, b, m, pc, e) else e == Fault(7, addr)
  {
    hide Field, U, Opcode, Rd, Small, InRam, Ofs, RvSpec.Load, RvSpec.Store, AmoOp, DoesAmo;
    RamAddress(addr);
    if OfRam(addr) { AmoStores(k, rd, addr, b, m, pc, Atomic(m, pc, ir)); }
  }

  lemma {:induction false} AmoStores<E>(k: AmoKind, rd: Reg, addr: Word, b: Word, m: Machine<E>, pc: Word, e: Effect<E>)
    requires OfRam(addr) && Ofs(addr) < RAM_SIZE - 3
    requires var prior := RvSpec.Load(m.ram, Ofs(addr), 4);
      e == Retire(U(pc + 4), rd, prior, m.(ram := RvSpec.Store(m.ram, Ofs(addr), 4, AmoOp(AmoCode(k), prior, b))))
    ensures DoesAmo(k, rd, addr - 0x8000_0000, b, m, pc, e)
  {
    hide U, Ofs, RvSpec.Load, RvSpec.Store, Stored, Little, AmoOp, Combines;
    RamAddress(addr);
    LoadIs(m.ram, Ofs(addr), 4);
    var prior := RvSpec.Load(m.ram, Ofs(addr), 4);
    AmoIs(AmoCode(k), prior, b);
    StoreIs(m.ram, Ofs(addr), 4, AmoOp(AmoCode(k), prior, b));
  }

  lemma {:induction false} CallDoes<E>(i: Instr, m: Machine<E>, h: Hooks<E>, pc: Word, cycle: Word)
    requires Encodable(i) && (i.Ecall? || i.Ebreak?)
    ensures Does(i, m, h, pc, cycle, Execute(m, h, pc, Encode(i), cycle))
  {
    hide CsrOp, Field, U, WithBit, RvSpec.Mret, Opcode, Funct3, IType;
    var n := if i.Ecall? then 0 else 1;
    SystemWord(n);
    IFields(n, 0, 0, 0, 0x73);
  }

  /** The encodings without operands. */
  lemma SystemWord(n: nat)
    requires n in {0, 1, 0x302, 0x105}
    ensures n % 4096 == n
    ensures IType(n, 0, 0, 0, 0x73) ==
      Encode(if n == 0 then Ecall else if n == 1 then Ebreak else if n == 0x302 then Mret else Wfi)
    ensures IType(0x0FF, 0, 0, 0, 0x0F) == Encode(Fence)
  {
  }

  lemma {:induction false} FenceDoes<E>(m: Machine<E>, h: Hooks<E>, pc: Word, cycle: Word)
    ensures Does(Fence, m, h, pc, cycle, Execute(m, h, pc, Encode(Fence), cycle))
  {
    hide Field, U, Opcode, IType, Encode;
    SystemWord(0);
    IFields(0x0FF, 0, 0, 0, 0x0F);
  }

  lemma {:induction false} ReturnDoes<E>(m: Machine<E>, h: Hooks<E>, pc: Word, cycle: Word)
    ensures Does(Mret, m, h, pc, cycle, Execute(m, h, pc, Encode(Mret), cycle))
  {
    hide CsrOp, Field, U, WithBit, RvSpec.Mret, Opcode, Funct3, Returns, IType, Encode;
    SystemWord(0x302);
    IFields(0x302, 0, 0, 0, 0x73);
    MretIs(m);
  }

  lemma {:induction false} WaitDoes<E>(m: Machine<E>, h: Hooks<E>, pc: Word, cycle: Word)
    ensures Does(Wfi, m, h, pc, cycle, Execute(m, h, pc, Encode(Wfi), cycle))
  {
    hide CsrOp, Field, U, WithBit, RvSpec.Mret, Opcode, Funct3, MadeOf, IType, Encode;
    SystemWord(0x105);
    IFields(0x105, 0, 0, 0, 0x73);
    BitAdded(m.core.mstatus, 3);
    BitAdded(m.core.extraflags, 2);
    assert Pow2(3) == 8 && Pow2(2) == 4;
  }

  lemma {:induction false} BitAdded(x: Word, k: nat)
    requires k < 32
    ensures MadeOf(WithBit(x, k, true), x, Pow2(k), (s, t) => s || t)
  {
    hide Gates, MadeOf, Field, Pow2;
    Powers();
    Pow2Monotone(k, 31);
    OrBit(x, Pow2(k), k);
    GatesMade(x, Pow2(k));
  }

  lemma {:induction false} MretIs<E>(m: Machine<E>)
    ensures Returns(m, RvSpec.Mret(m))
  {
    hide U;
    Powers();
  }

  // ---------------------------------------------------------------- one turn of the machine

  /** What is left of an effect at pc: the register and pc written, or the trap entered. */
  ghost predicate Leaves<E>(e: Effect<E>, m: Machine<E>, pc: Word, m': Machine<E>, stop: Stop) {
    match e
    case Retire(next, rd, val, m1) =>
      && stop == Running && m' == m1.(core := m1.core.(regs := m'.core.regs, pc := next))
      && (forall k :: 0 <= k < 32 ==> m'.core.regs[k] == if k == rd && k != 0 then val else m1.core.regs[k])
    case Fault(cause, tval) => stop == Trapped && Traps(m, cause, tval, pc, m')
    case Wait(m1) => stop == Asleep && m' == m1.(core := m1.core.(pc := U(pc + 4)))
    case Power(code, m1) => stop == Off(code) && m' == m1.(core := m1.core.(pc := U(pc + 4)))
  }

  /** A trap notes its cause, value and place, keeps interrupt enable and mode in mstatus, and goes to the handler
      in machine mode with interrupts off. */
  ghost predicate Traps<E>(m: Machine<E>, cause: Word, tval: Word, pc: Word, m': Machine<E>) {
    && m' == m.(core := m.core.(mcause := cause, mtval := tval, mepc := pc, pc := m.core.mtvec,
                                mstatus := m'.core.mstatus, extraflags := m'.core.extraflags))
    && m'.core.mstatus == (if BitAt(m.core.mstatus, 3) then 0x80 else 0) + m.core.extraflags % 4 * 0x800
    && m'.core.extraflags % 4 == 3 && m'.core.extraflags / 4 == m.core.extraflags / 4
  }

  lemma {:induction false} TrapIs<E>(m: Machine<E>, cause: Word, tval: Word, pc: Word)
    ensures Traps(m, cause, tval, pc, Trap(m, cause, tval, pc))
  {
    Powers();
  }

  lemma {:induction false} ApplyLeaves<E>(e: Effect<E>, m: Machine<E>, pc: Word)
    ensures var r := Apply(m, e, pc); Leaves(e, m, pc, r.0, r.1)
  {
    hide Trap, Traps;
    if e.Fault? { TrapIs(m, e.cause, e.tval, pc); }
  }

  /** An instruction in RAM at the machine's pc is executed as its name says. */
  lemma {:induction false} Fetches<E>(i: Instr, m: Machine<E>, h: Hooks<E>, cycle: Word)
    requires Encodable(i)
    requires 0x8000_0000 <= m.core.pc < 0x8000_0000 + RAM_SIZE && m.core.pc % 4 == 0
    requires var ofs := m.core.pc - 0x8000_0000; Little(m.ram[ofs..ofs + 4]) == Encode(i)
    ensures var e := Execute(m, h, m.core.pc, Encode(i), cycle);
      var r := Instruction(m, h, cycle);
      Does(i, m, h, m.core.pc, cycle, e) && Leaves(e, m, m.core.pc, r.0, r.1)
  {
    hide Execute, Encode, Does, RvSpec.Load, Little, Trap, Apply, Leaves, Instruction, Encodable;
    Executes(i, m, h, m.core.pc, cycle);
    LoadIs(m.ram, m.core.pc - 0x8000_0000, 4);
    FetchedIs(m, h, cycle);
    ApplyLeaves(Execute(m, h, m.core.pc, Encode(i), cycle), m, m.core.pc);
  }

  /** A word in RAM is fetched and executed. */
  lemma FetchedIs<E>(m: Machine<E>, h: Hooks<E>, cycle: Word)
    requires 0x8000_0000 <= m.core.pc < 0x8000_0000 + RAM_SIZE && m.core.pc % 4 == 0
    ensures var pc := m.core.pc;
      var ir := RvSpec.Load(m.ram, pc - 0x8000_0000, 4);
      Instruction(m, h, cycle) == Apply(m, Execute(m, h, pc, ir, cycle), pc)
  {
    hide Execute, RvSpec.Load, Apply, Trap;
  }

  /** An MRET behind a trap goes back to where the trap came from, with interrupt enable and mode as they were. */
  lemma {:induction false} TrapThenReturn<E>(m: Machine<E>, cause: Word, tval: Word, pc: Word)
    ensures var e := RvSpec.Mret(Trap(m, cause, tval, pc));
      && e.Retire? && e.next == pc && e.m.ram == m.ram && e.m.core.regs == m.core.regs
      && (BitAt(e.m.core.mstatus, 3) <==> BitAt(m.core.mstatus, 3)) && e.m.core.extraflags == m.core.extraflags
  {
    hide Trap, RvSpec.Mret, Pow2;
    Powers();
    TrapIs(m, cause, tval, pc);
    MretIs(Trap(m, cause, tval, pc));
  }

  predicate IsCsr(csr: nat) {
    csr in {0x340, 0x305, 0x304, 0x344, 0x341, 0x300, 0x342, 0x343}
  }

  /** A CSR of the processor reads back what was written to it, and no other one changes. */
  lemma {:induction false} CsrReadsBack<E>(m: Machine<E>, h: Hooks<E>, csr: nat, val: Word, other: nat, cycle: Word)
    requires IsCsr(csr) && IsCsr(other)
    ensures var m1 := WriteCsr(m, h, csr, val);
      ReadCsr(m1, h, other, cycle) == (m1, if other == csr then val else ReadCsr(m, h, other, cycle).1)
  {
  }
}
