/** The RV32IMA machine as an interpreter of single instructions, with an explicit next pc and 64-bit counters. */
module RvSpec {
  import opened Words
  import opened Psram
  import opened RvCore
  import opened RvBits

  const RAM_IMAGE_OFFSET := 0x8000_0000
  const CAUSE_MISALIGNED := 0
  const CAUSE_FETCH := 1
  const CAUSE_ILLEGAL := 2
  const CAUSE_BREAKPOINT := 3
  const CAUSE_LOAD := 5
  const CAUSE_STORE := 7
  const CAUSE_ECALL_U := 8
  const CAUSE_ECALL_M := 11
  const TIMER_INTERRUPT: Word := 0x8000_0007

  type Ram = m: seq<Byte> | |m| == RAM_SIZE witness seq(RAM_SIZE, _ => 0)

  /** The emulator around the processor: console, UART, custom CSRs and what hangs on them. */
  datatype Hooks<!E> = Hooks(
    load: (E, Word) -> (E, Word),
    store: (E, Word, Word) -> E,
    csrRead: (E, Word) -> (E, Word),
    csrWrite: (E, Ram, Word, Word) -> (E, Ram))

  datatype Machine<E> = Machine(core: Core, ram: Ram, env: E)

  /** What an instruction does: go on at `next` with a register written, fault, wait for an interrupt, or end. */
  datatype Effect<E> =
    | Retire(next: Word, rd: nat, val: Word, m: Machine<E>)
    | Fault(cause: Word, tval: Word)
    | Wait(m: Machine<E>)
    | Power(code: Word, m: Machine<E>)

  // ---------------------------------------------------------------- fields of an instruction

  function Small(ir: Word, lo: nat): (r: nat)
    ensures r < 32
  {
    LowPowers();
    Field(ir, lo, 5)
  }

  function Rd(ir: Word): (r: nat)
    ensures r < 32
  {
    Small(ir, 7)
  }

  function Rs1(c: Core, ir: Word): Word {
    c.regs[Small(ir, 15)]
  }

  function Rs2(c: Core, ir: Word): Word {
    c.regs[Small(ir, 20)]
  }

  function Funct3(ir: Word): nat {
    Field(ir, 12, 3)
  }

  predicate BitSet(x: Word, k: nat) {
    Field(x, k, 1) == 1
  }

  // ---------------------------------------------------------------- memory

  /** The RAM offset of an address. */
  function Ofs(addr: Word): Word {
    U(addr - RAM_IMAGE_OFFSET)
  }

  predicate InRam(addr: Word) {
    Ofs(addr) < RAM_SIZE - 3
  }

  predicate InDevices(addr: Word) {
    0x1000_0000 <= addr < 0x1200_0000
  }

  /** n bytes as a little-endian number. */
  function Load(ram: Ram, ofs: nat, n: nat): Word
    requires ofs + n <= RAM_SIZE && n <= 4
  {
    BytesWord(ram[ofs..ofs + n] + seq(4 - n, _ => 0))
  }

  /** The n low bytes of a word stored. */
  function Store(ram: Ram, ofs: nat, n: nat, val: Word): Ram
    requires ofs + n <= RAM_SIZE && n <= 4
  {
    Splice(ram, ofs, WordBytes(val)[..n])
  }

  // ---------------------------------------------------------------- arithmetic (sections 2.4, 7.1 and 7.2)

  function MulOp(f: nat, a: Word, b: Word): Word {
    match f
    case 0 => U(a * b)
    case 1 => U(Signed(a) * Signed(b) / TWO32)
    case 2 => U(Signed(a) * b / TWO32)
    case 3 => U(a * b / TWO32)
    case 4 => U(Div(Signed(a), Signed(b)))
    case 5 => U(Div(a, b))
    case 6 => U(Remainder(Signed(a), Signed(b)))
    case _ => U(Remainder(a, b))
  }

  /** alt is subtraction for f == 0 and the arithmetic shift for f == 5. */
  function AluOp(f: nat, a: Word, b: Word, alt: bool): Word {
    var s := Small(b, 0);
    match f
    case 0 => if alt then U(a - b) else U(a + b)
    case 1 => U(a * Pow2(s))
    case 2 => if Signed(a) < Signed(b) then 1 else 0
    case 3 => if a < b then 1 else 0
    case 4 => Xor(a, b)
    case 5 => if alt then U(Signed(a) / Pow2(s)) else Right(a, s)
    case 6 => Or(a, b)
    case _ => And(a, b)
  }

  function Taken(f: nat, a: Word, b: Word): bool {
    match f
    case 0 => a == b
    case 1 => a != b
    case 4 => Signed(a) < Signed(b)
    case 5 => Signed(a) >= Signed(b)
    case 6 => a < b
    case _ => a >= b
  }

  // ---------------------------------------------------------------- instructions

  function Branch<E>(m: Machine<E>, pc: Word, ir: Word): Effect<E> {
    var f := Funct3(ir);
    if f == 2 || f == 3 then Fault(CAUSE_ILLEGAL, pc)
    else Retire(if Taken(f, Rs1(m.core, ir), Rs2(m.core, ir)) then U(pc + ImmB(ir)) else U(pc + 4), 0, 0, m)
  }

  function LoadSize(f: nat): nat {
    if f == 0 || f == 4 then 1 else if f == 1 || f == 5 then 2 else 4
  }

  /** Sign extension for LB and LH. */
  function Extended(f: nat, x: Word): Word {
    if f == 0 then U(SignExtend(x, 8)) else if f == 1 then U(SignExtend(x, 16)) else x
  }

  function LoadOp<E>(m: Machine<E>, h: Hooks<E>, pc: Word, ir: Word): Effect<E> {
    var addr := U(Rs1(m.core, ir) + ImmI(ir));
    var f := Funct3(ir);
    if InRam(addr) then
      if f !in {0, 1, 2, 4, 5} then Fault(CAUSE_ILLEGAL, pc)
      else Retire(U(pc + 4), Rd(ir), Extended(f, Load(m.ram, Ofs(addr), LoadSize(f))), m)
    else if InDevices(addr) then
      if addr == 0x1100_BFFC then Retire(U(pc + 4), Rd(ir), m.core.timerh, m)
      else if addr == 0x1100_BFF8 then Retire(U(pc + 4), Rd(ir), m.core.timerl, m)
      else var (env, val) := h.load(m.env, addr); Retire(U(pc + 4), Rd(ir), val, m.(env := env))
    else Fault(CAUSE_LOAD, addr)
  }

  function StoreSize(f: nat): nat {
    if f == 0 then 1 else if f == 1 then 2 else 4
  }

  function StoreOp<E>(m: Machine<E>, h: Hooks<E>, pc: Word, ir: Word): Effect<E> {
    var addr := U(Rs1(m.core, ir) + ImmS(ir));
    var val := Rs2(m.core, ir);
    var f := Funct3(ir);
    if InRam(addr) then
      if f > 2 then Fault(CAUSE_ILLEGAL, pc)
      else Retire(U(pc + 4), 0, 0, m.(ram := Store(m.ram, Ofs(addr), StoreSize(f), val)))
    else if InDevices(addr) then
      if addr == 0x1100_4004 then Retire(U(pc + 4), 0, 0, m.(core := m.core.(timermatchh := val)))
      else if addr == 0x1100_4000 then Retire(U(pc + 4), 0, 0, m.(core := m.core.(timermatchl := val)))
      else if addr == 0x1110_0000 then Power(val, m)
      else Retire(U(pc + 4), 0, 0, m.(env := h.store(m.env, addr, val)))
    else Fault(CAUSE_STORE, addr)
  }

  function Op<E>(m: Machine<E>, pc: Word, ir: Word, isReg: bool): Effect<E> {
    var a := Rs1(m.core, ir);
    var b := if isReg then Rs2(m.core, ir) else U(ImmI(ir));
    var f := Funct3(ir);
    var val := if isReg && BitSet(ir, 25) then MulOp(f, a, b) else AluOp(f, a, b, BitSet(ir, 30) && (isReg || f != 0));
    Retire(U(pc + 4), Rd(ir), val, m)
  }

  /** A CSR's value; cycle counts the instruction that reads it. */
  function ReadCsr<E>(m: Machine<E>, h: Hooks<E>, csr: nat, cycle: Word): (Machine<E>, Word)
    requires csr < TWO32
  {
    match csr
    case 0x340 => (m, m.core.mscratch)
    case 0x305 => (m, m.core.mtvec)
    case 0x304 => (m, m.core.mie)
    case 0xC00 => (m, cycle)
    case 0x344 => (m, m.core.mip)
    case 0x341 => (m, m.core.mepc)
    case 0x300 => (m, m.core.mstatus)
    case 0x342 => (m, m.core.mcause)
    case 0x343 => (m, m.core.mtval)
    case 0xF11 => (m, 0xFF0F_F0FF)
    case 0x301 => (m, 0x4040_1101)
    case _ => var (env, val) := h.csrRead(m.env, csr); (m.(env := env), val)
  }

  function WriteCsr<E>(m: Machine<E>, h: Hooks<E>, csr: nat, val: Word): Machine<E>
    requires csr < TWO32
  {
    match csr
    case 0x340 => m.(core := m.core.(mscratch := val))
    case 0x305 => m.(core := m.core.(mtvec := val))
    case 0x304 => m.(core := m.core.(mie := val))
    case 0x344 => m.(core := m.core.(mip := val))
    case 0x341 => m.(core := m.core.(mepc := val))
    case 0x300 => m.(core := m.core.(mstatus := val))
    case 0x342 => m.(core := m.core.(mcause := val))
    case 0x343 => m.(core := m.core.(mtval := val))
    case _ => var (env, ram) := h.csrWrite(m.env, m.ram, csr, val); m.(env := env, ram := ram)
  }

  function CsrOp<E>(m: Machine<E>, h: Hooks<E>, pc: Word, ir: Word, cycle: Word): Effect<E> {
    CsrNo(ir);
    var f, csr := Funct3(ir), Field(ir, 20, 12);
    var (m1, prior) := ReadCsr(m, h, csr, cycle);
    var a: Word := if f < 4 then Rs1(m.core, ir) else Small(ir, 15);
    var val := if f % 4 == 1 then a else if f % 4 == 2 then Or(prior, a) else And(prior, Not(a));
    Retire(U(pc + 4), Rd(ir), prior, WriteCsr(m1, h, csr, val))
  }

  lemma CsrNo(ir: Word)
    ensures Field(ir, 20, 12) < 4096
  {
    LowPowers();
  }

  /** Privilege, the wait flag and the reservation share a word. */
  function Mode(flags: Word): nat {
    flags % 4
  }

  predicate Waiting(flags: Word) {
    BitSet(flags, 2)
  }

  function Reservation(flags: Word): nat {
    flags / 8
  }

  function WithBit(x: Word, k: nat, b: bool): Word
    requires k < 32
  {
    FieldInPlace(x, k);
    x - Field(x, k, 1) * Pow2(k) + if b then Pow2(k) else 0
  }

  lemma {:induction false} FieldInPlace(x: Word, k: nat)
    requires k < 32
    ensures Field(x, k, 1) * Pow2(k) <= x
    ensures x - Field(x, k, 1) * Pow2(k) + Pow2(k) < TWO32
  {
    Powers();
    HighestBit(x, k);
  }

  function Mret<E>(m: Machine<E>): Effect<E> {
    LowPowers();
    var c := m.core;
    var status := Field(c.mstatus, 7, 1) * 8 + Mode(c.extraflags) * 2048 + 128;
    var flags := c.extraflags - Mode(c.extraflags) + Field(c.mstatus, 11, 2);
    Retire(c.mepc, 0, 0, m.(core := c.(mstatus := status, extraflags := flags)))
  }

  function SystemOp<E>(m: Machine<E>, h: Hooks<E>, pc: Word, ir: Word, cycle: Word): Effect<E> {
    var f, csr := Funct3(ir), Field(ir, 20, 12);
    if f % 4 != 0 then CsrOp(m, h, pc, ir, cycle)
    else if f == 4 then Fault(CAUSE_ILLEGAL, pc)
    else if csr == 0x105 then
      Wait(m.(core := m.core.(mstatus := WithBit(m.core.mstatus, 3, true),
                              extraflags := WithBit(m.core.extraflags, 2, true))))
    else if csr % 256 == 2 then Mret(m)
    else if csr == 0 then Fault(if Mode(m.core.extraflags) != 0 then CAUSE_ECALL_M else CAUSE_ECALL_U, pc)
    else if csr == 1 then Fault(CAUSE_BREAKPOINT, pc)
    else Fault(CAUSE_ILLEGAL, pc)
  }

  predicate IsAmo(op: nat) {
    op in {0, 1, 4, 8, 12, 16, 20, 24, 28}
  }

  function AmoOp(op: nat, prior: Word, b: Word): Word {
    match op
    case 1 => b
    case 0 => U(b + prior)
    case 4 => Xor(b, prior)
    case 12 => And(b, prior)
    case 8 => Or(b, prior)
    case 16 => if Signed(b) < Signed(prior) then b else prior
    case 20 => if Signed(b) > Signed(prior) then b else prior
    case 24 => if b < prior then b else prior
    case _ => if b > prior then b else prior
  }

  function Atomic<E>(m: Machine<E>, pc: Word, ir: Word): Effect<E> {
    var addr, b, op := Rs1(m.core, ir), Rs2(m.core, ir), Small(ir, 27);
    if !InRam(addr) then Fault(CAUSE_STORE, addr)
    else
      var o := Ofs(addr);
      var prior := Load(m.ram, o, 4);
      if op == 2 then
        Retire(U(pc + 4), Rd(ir), prior, m.(core := m.core.(extraflags := m.core.extraflags % 8 + 8 * o)))
      else if op == 3 then
        if Reservation(m.core.extraflags) == o then Retire(U(pc + 4), Rd(ir), 0, m.(ram := Store(m.ram, o, 4, b)))
        else Retire(U(pc + 4), Rd(ir), 1, m)
      else if IsAmo(op) then Retire(U(pc + 4), Rd(ir), prior, m.(ram := Store(m.ram, o, 4, AmoOp(op, prior, b))))
      else Fault(CAUSE_ILLEGAL, pc)
  }

  function Opcode(ir: Word): nat {
    Field(ir, 0, 7)
  }

  /** One instruction at pc. */
  function Execute<E>(m: Machine<E>, h: Hooks<E>, pc: Word, ir: Word, cycle: Word): Effect<E> {
    match Opcode(ir)
    case 0x37 => UpperSmall(ir); Retire(U(pc + 4), Rd(ir), ImmU(ir), m)
    case 0x17 => Retire(U(pc + 4), Rd(ir), U(pc + ImmU(ir)), m)
    case 0x6F => Retire(U(pc + ImmJ(ir)), Rd(ir), U(pc + 4), m)
    case 0x67 =>
      var t := U(Rs1(m.core, ir) + ImmI(ir));
      Retire(t - t % 2, Rd(ir), U(pc + 4), m)
    case 0x63 => Branch(m, pc, ir)
    case 0x03 => LoadOp(m, h, pc, ir)
    case 0x23 => StoreOp(m, h, pc, ir)
    case 0x13 => Op(m, pc, ir, false)
    case 0x33 => Op(m, pc, ir, true)
    case 0x0F => Retire(U(pc + 4), 0, 0, m)
    case 0x73 => SystemOp(m, h, pc, ir, cycle)
    case 0x2F => Atomic(m, pc, ir)
    case _ => Fault(CAUSE_ILLEGAL, pc)
  }

  lemma UpperSmall(ir: Word)
    ensures ImmU(ir) < TWO32
  {
    Powers();
  }

  // ---------------------------------------------------------------- traps, and runs of instructions

  /** Entering the trap handler from pc. */
  function Trap<E>(m: Machine<E>, cause: Word, tval: Word, pc: Word): Machine<E> {
    LowPowers();
    var c := m.core;
    m.(core := c.(
      mcause := cause, mtval := tval, mepc := pc, pc := c.mtvec,
      mstatus := Field(c.mstatus, 3, 1) * 128 + Mode(c.extraflags) * 2048,
      extraflags := c.extraflags - Mode(c.extraflags) + 3))
  }

  datatype Stop = Running | Trapped | Asleep | Off(code: Word)

  function SetReg(c: Core, rd: nat, val: Word): Core
    requires rd < 32
  {
    if rd == 0 then c else c.(regs := c.regs[rd := val])
  }

  /** What the machine is after an instruction at pc with this effect. */
  function Apply<E>(m: Machine<E>, e: Effect<E>, pc: Word): (Machine<E>, Stop) {
    match e
    case Retire(next, rd, val, m1) =>
      (m1.(core := (if rd < 32 then SetReg(m1.core, rd, val) else m1.core).(pc := next)), Running)
    case Fault(cause, tval) => (Trap(m, cause, tval, pc), Trapped)
    case Wait(m1) => (m1.(core := m1.core.(pc := U(pc + 4))), Asleep)
    case Power(code, m1) => (m1.(core := m1.core.(pc := U(pc + 4))), Off(code))
  }

  function FetchFault(pc: Word): bool {
    Ofs(pc) >= RAM_SIZE || Ofs(pc) % 4 != 0
  }

  /** One instruction, fetched at the machine's pc. */
  function Instruction<E>(m: Machine<E>, h: Hooks<E>, cycle: Word): (Machine<E>, Stop) {
    var pc := m.core.pc;
    if FetchFault(pc) then (Trap(m, if Ofs(pc) >= RAM_SIZE then CAUSE_FETCH else CAUSE_MISALIGNED, pc, pc), Trapped)
    else Apply(m, Execute(m, h, pc, Load(m.ram, Ofs(pc), 4), cycle), pc)
  }

  /** A machine after some instructions, and why it stopped. */
  datatype Progress<E> = Progress(m: Machine<E>, steps: nat, stop: Stop)

  /** Up to k instructions, until the first trap, wait or end. */
  function Iterate<E>(m: Machine<E>, h: Hooks<E>, k: nat): (p: Progress<E>)
    ensures p.steps <= k && (p.stop.Running? ==> p.steps == k)
  {
    if k == 0 then Progress(m, 0, Running)
    else
      var p := Iterate(m, h, k - 1);
      if !p.stop.Running? then p
      else
        var (m1, stop) := Instruction(p.m, h, U(m.core.cyclel + k));
        Progress(m1, k, stop)
  }

  /** A 64-bit counter in two halves. */
  function Counter(lo: Word, hi: Word): nat {
    hi * TWO32 + lo
  }

  const TWO64 := 0x1_0000_0000_0000_0000

  function Low(x: nat): Word {
    x % TWO32
  }

  function High(x: nat): Word {
    x / TWO32 % TWO32
  }

  function AddCycles(c: Core, n: nat): Core {
    var t := (Counter(c.cyclel, c.cycleh) + n) % TWO64;
    c.(cyclel := Low(t), cycleh := High(t))
  }

  /** The instructions of one call: the cycle counter takes them in unless the processor went to sleep or off. */
  function Batch<E>(m: Machine<E>, h: Hooks<E>, count: nat): (Machine<E>, int) {
    var p := Iterate(m, h, count);
    match p.stop
    case Asleep => (p.m, 1)
    case Off(code) => (p.m, Signed(code))
    case _ => (p.m.(core := AddCycles(p.m.core, p.steps)), 0)
  }

  /** The timer runs on; past the match value its interrupt is pending and the processor awake. */
  function Tick(c: Core, elapsed: Word): Core {
    var t := (Counter(c.timerl, c.timerh) + elapsed) % TWO64;
    var match_ := Counter(c.timermatchl, c.timermatchh);
    var due := t > match_ && match_ != 0;
    c.(timerl := Low(t), timerh := High(t), mip := WithBit(c.mip, 7, due),
       extraflags := if due then WithBit(c.extraflags, 2, false) else c.extraflags)
  }

  predicate Interrupted(c: Core) {
    BitSet(c.mip, 7) && BitSet(c.mie, 7) && BitSet(c.mstatus, 3)
  }

  /** MiniRV32IMAStep: the machine afterwards and the value returned. */
  function Step<E>(m: Machine<E>, h: Hooks<E>, elapsed: Word, count: int): (Machine<E>, int) {
    var m1 := m.(core := Tick(m.core, elapsed));
    if Waiting(m1.core.extraflags) then (m1, 1)
    else if Interrupted(m1.core) then (Trap(m1, TIMER_INTERRUPT, 0, m1.core.pc), 0)
    else Batch(m1, h, if count < 0 then 0 else count)
  }
}
