/** The processor with its RAM behind the cache: every fetch, load, store and atomic goes through a cache line. */
module RvCached {
  import opened Words
  import opened Psram
  import opened RvCore
  import opened RvBits
  import opened RvSpec
  import opened RvCpu
  import opened Cache

  const BLANK: Ram := seq(RAM_SIZE, _ => 0)  // stands in where an instruction does not look at the RAM

  /** Custom CSRs that leave the RAM alone. */
  ghost predicate Quiet<E(!new)>(h: Hooks<E>) {
    forall env: E, ram: Ram, csr: Word, val: Word ::
      h.csrWrite(env, ram, csr, val) == (h.csrWrite(env, BLANK, csr, val).0, ram)
  }

  /** Where a load, a store or an atomic goes. */
  function Target(c: Core, ir: Word): Word {
    match Opcode(ir)
    case 0x03 => U(Rs1(c, ir) + ImmI(ir))
    case 0x23 => U(Rs1(c, ir) + ImmS(ir))
    case _ => Rs1(c, ir)
  }

  /** How many bytes of the RAM an instruction reads or writes there. */
  function Width(c: Core, ir: Word): nat {
    var f := Funct3(ir);
    if !InRam(Target(c, ir)) then 0
    else match Opcode(ir)
      case 0x03 => if f in {0, 1, 2, 4, 5} then LoadSize(f) else 0
      case 0x23 => if f <= 2 then StoreSize(f) else 0
      case 0x2F => 4
      case _ => 0
  }

  /** The instruction at the machine's pc accesses the RAM inside one line, if it accesses it. */
  ghost predicate Near<E>(m: Machine<E>) {
    FetchFault(m.core.pc) ||
    var ir := RvSpec.Load(m.ram, Ofs(m.core.pc), 4);
    Width(m.core, ir) > 0 ==> InOneLine(Ofs(Target(m.core, ir)), Width(m.core, ir))
  }

  /** So do all instructions of a run that are reached. */
  ghost predicate NearRun<E>(m: Machine<E>, h: Hooks<E>, k: nat) {
    forall j :: 0 <= j < k && Iterate(m, h, j).stop.Running? ==> Near(Iterate(m, h, j).m)
  }

  /** And all instructions that a call of MiniRV32IMAStep executes. */
  ghost predicate NearStep<E>(m: Machine<E>, h: Hooks<E>, elapsed: Word, count: int) {
    var m1 := m.(core := Tick(m.core, elapsed));
    Waiting(m1.core.extraflags) || Interrupted(m1.core) || NearRun(m1, h, if count < 0 then 0 else count)
  }

  /** An effect with another RAM. */
  function OnRam<E>(e: Effect<E>, ram: Ram): Effect<E> {
    match e
    case Retire(next, rd, val, m) => Retire(next, rd, val, m.(ram := ram))
    case Fault(cause, tval) => e
    case Wait(m) => Wait(m.(ram := ram))
    case Power(code, m) => Power(code, m.(ram := ram))
  }

  /** An instruction that does not access the RAM has the same effect whatever is in it. */
  lemma {:induction false} RamKept<E(!new)>(m: Machine<E>, h: Hooks<E>, pc: Word, ir: Word, cycle: Word)
    requires Quiet(h) && Width(m.core, ir) == 0 && (Opcode(ir) == 0x2F ==> !InRam(Target(m.core, ir)))
    ensures Execute(m, h, pc, ir, cycle) == OnRam(Execute(m.(ram := BLANK), h, pc, ir, cycle), m.ram)
  {
    hide Quiet, Width, Target, InRam, Branch, LoadOp, StoreOp, RvSpec.Op, SystemOp, Atomic, OnRam;
    match Opcode(ir)
    case 0x63 => BranchKept(m, pc, ir);
    case 0x03 => LoadKept(m, h, pc, ir);
    case 0x23 => StoreKept(m, h, pc, ir);
    case 0x13 => OpKept(m, pc, ir, false);
    case 0x33 => OpKept(m, pc, ir, true);
    case 0x73 => SystemKept(m, h, pc, ir, cycle);
    case 0x2F => AtomicKept(m, pc, ir);
    case _ => PlainKept(m, h, pc, ir, cycle);
  }

  lemma {:induction false} PlainKept<E(!new)>(m: Machine<E>, h: Hooks<E>, pc: Word, ir: Word, cycle: Word)
    requires Opcode(ir) !in {0x63, 0x03, 0x23, 0x13, 0x33, 0x73, 0x2F}
    ensures Execute(m, h, pc, ir, cycle) == OnRam(Execute(m.(ram := BLANK), h, pc, ir, cycle), m.ram)
  {
    hide U, ImmJ, ImmI, Small, Field;
  }

  lemma {:induction false} BranchKept<E(!new)>(m: Machine<E>, pc: Word, ir: Word)
    ensures Branch(m, pc, ir) == OnRam(Branch(m.(ram := BLANK), pc, ir), m.ram)
  {
    hide U, ImmB, Taken, Small, Field;
  }

  lemma {:induction false} OpKept<E(!new)>(m: Machine<E>, pc: Word, ir: Word, isReg: bool)
    ensures RvSpec.Op(m, pc, ir, isReg) == OnRam(RvSpec.Op(m.(ram := BLANK), pc, ir, isReg), m.ram)
  {
    hide U, ImmI, MulOp, AluOp, Small, Field;
  }

  lemma {:induction false} LoadKept<E(!new)>(m: Machine<E>, h: Hooks<E>, pc: Word, ir: Word)
    requires Width(m.core, ir) == 0 && Opcode(ir) == 0x03
    ensures LoadOp(m, h, pc, ir) == OnRam(LoadOp(m.(ram := BLANK), h, pc, ir), m.ram)
  {
    hide U, ImmI, ImmS, Small, Field, Ofs, Extended;
  }

  lemma {:induction false} StoreKept<E(!new)>(m: Machine<E>, h: Hooks<E>, pc: Word, ir: Word)
    requires Width(m.core, ir) == 0 && Opcode(ir) == 0x23
    ensures StoreOp(m, h, pc, ir) == OnRam(StoreOp(m.(ram := BLANK), h, pc, ir), m.ram)
  {
    hide U, ImmI, ImmS, Small, Field, Ofs;
  }

  lemma {:induction false} AtomicKept<E(!new)>(m: Machine<E>, pc: Word, ir: Word)
    requires Opcode(ir) == 0x2F && !InRam(Target(m.core, ir))
    ensures Atomic(m, pc, ir) == OnRam(Atomic(m.(ram := BLANK), pc, ir), m.ram)
  {
    hide U, ImmI, ImmS, Small, Field, Ofs;
  }

  lemma {:induction false} SystemKept<E(!new)>(m: Machine<E>, h: Hooks<E>, pc: Word, ir: Word, cycle: Word)
    requires Quiet(h)
    ensures SystemOp(m, h, pc, ir, cycle) == OnRam(SystemOp(m.(ram := BLANK), h, pc, ir, cycle), m.ram)
  {
    hide Quiet, U, Small, Field, WithBit, CsrOp, OnRam;
    if Funct3(ir) % 4 != 0 { CsrKept(m, h, pc, ir, cycle); } else { QuietSystem(m, h, pc, ir, cycle); }
  }

  lemma {:induction false} QuietSystem<E(!new)>(m: Machine<E>, h: Hooks<E>, pc: Word, ir: Word, cycle: Word)
    requires Funct3(ir) % 4 == 0
    ensures SystemOp(m, h, pc, ir, cycle) == OnRam(SystemOp(m.(ram := BLANK), h, pc, ir, cycle), m.ram)
  {
    hide U, Small, Field, WithBit, CsrOp;
  }

  lemma {:induction false} CsrKept<E(!new)>(m: Machine<E>, h: Hooks<E>, pc: Word, ir: Word, cycle: Word)
    requires Quiet(h)
    ensures CsrOp(m, h, pc, ir, cycle) == OnRam(CsrOp(m.(ram := BLANK), h, pc, ir, cycle), m.ram)
  {
    hide Quiet, U, Small, Field, ReadCsr, WriteCsr, Or, And;
    CsrNo(ir);
    var f, csr := Funct3(ir), Field(ir, 20, 12);
    var (m1, prior) := ReadCsr(m, h, csr, cycle);
    ReadKept(m, h, csr, cycle);
    var a: Word := if f < 4 then Rs1(m.core, ir) else Small(ir, 15);
    WriteKept(m1, h, csr, if f % 4 == 1 then a else if f % 4 == 2 then Or(prior, a) else And(prior, Not(a)));
  }

  lemma {:induction false} ReadKept<E(!new)>(m: Machine<E>, h: Hooks<E>, csr: nat, cycle: Word)
    requires csr < TWO32
    ensures var r := ReadCsr(m.(ram := BLANK), h, csr, cycle);
      ReadCsr(m, h, csr, cycle) == (r.0.(ram := m.ram), r.1) && r.0.ram == BLANK
  {
  }

  lemma {:induction false} WriteKept<E(!new)>(m: Machine<E>, h: Hooks<E>, csr: nat, val: Word)
    requires csr < TWO32 && Quiet(h)
    ensures WriteCsr(m, h, csr, val) == WriteCsr(m.(ram := BLANK), h, csr, val).(ram := m.ram)
  {
  }

  class Board<E(!new)> {
    const hooks: Hooks<E>
    const cache: Cache
    var core: Core
    var env: E

    constructor (cache: Cache, hooks: Hooks<E>, core: Core, env: E)
      ensures this.cache == cache && this.hooks == hooks && this.core == core && this.env == env
    {
      this.cache, this.hooks, this.core, this.env := cache, hooks, core, env;
    }

    ghost predicate Valid()
      reads cache, cache.lines, cache.ram.low.mem, cache.ram.high.mem
    {
      cache.Valid() && this !in cache.Repr() && Quiet(hooks)
    }

    /** The machine that the guest sees. */
    ghost function State(): Machine<E>
      requires Valid()
      reads this, cache, cache.lines, cache.ram.low.mem, cache.ram.high.mem
    {
      Machine(core, cache.Image(), env)
    }

    method Load(ofs: nat, n: nat) returns (x: Word)
      requires Valid() && InOneLine(ofs, n) && n <= 4
      modifies cache.Repr()
      ensures Valid() && cache.Image() == old(cache.Image())
      ensures ofs + n <= RAM_SIZE && x == RvSpec.Load(cache.Image(), ofs, n)
    {
      var b := cache.Read(ofs, n);
      x := BytesWord(b + seq(4 - n, _ => 0));
    }

    method Store(ofs: nat, n: nat, val: Word)
      requires Valid() && InOneLine(ofs, n) && n <= 4
      modifies cache.Repr()
      ensures Valid() && ofs + n <= RAM_SIZE && cache.Image() == RvSpec.Store(old(cache.Image()), ofs, n, val)
    {
      cache.Write(ofs, WordBytes(val)[..n]);
    }

    /** A load from the RAM, or one that faults. */
    method LoadTurn(pc: Word, ir: Word) returns (e: Effect<E>)
      requires Valid() && InRam(Target(core, ir)) && Opcode(ir) == 0x03
      requires Width(core, ir) > 0 ==> InOneLine(Ofs(Target(core, ir)), Width(core, ir))
      modifies cache.Repr()
      ensures Valid() && cache.Image() == old(cache.Image())
      ensures OnRam(e, cache.Image()) == LoadOp(old(State()), hooks, pc, ir)
    {
      hide U, Ofs, ImmI, ImmS, Field, Small, Cache.Image, Cache.Valid, InOneLine, RvSpec.Load, Extended, Quiet;
      var addr := U(Rs1(core, ir) + ImmI(ir));
      var f := Funct3(ir);
      if f !in {0, 1, 2, 4, 5} {
        e := Fault(CAUSE_ILLEGAL, pc);
      } else {
        var x := Load(Ofs(addr), LoadSize(f));
        e := Retire(U(pc + 4), Rd(ir), Extended(f, x), Machine(core, BLANK, env));
      }
    }

    /** A store to the RAM, or one that faults. */
    method StoreTurn(pc: Word, ir: Word) returns (e: Effect<E>)
      requires Valid() && InRam(Target(core, ir)) && Opcode(ir) == 0x23
      requires Width(core, ir) > 0 ==> InOneLine(Ofs(Target(core, ir)), Width(core, ir))
      modifies cache.Repr()
      ensures Valid() && (e.Fault? ==> cache.Image() == old(cache.Image()))
      ensures OnRam(e, cache.Image()) == StoreOp(old(State()), hooks, pc, ir)
    {
      hide U, Ofs, ImmI, ImmS, Field, Small, Cache.Image, Cache.Valid, InOneLine, RvSpec.Store, Quiet;
      var addr := U(Rs1(core, ir) + ImmS(ir));
      var f := Funct3(ir);
      if f > 2 {
        e := Fault(CAUSE_ILLEGAL, pc);
      } else {
        Store(Ofs(addr), StoreSize(f), Rs2(core, ir));
        e := Retire(U(pc + 4), 0, 0, Machine(core, BLANK, env));
      }
    }

    /** LR.W, SC.W and the read-modify-write operations: a read, and a write if the operation has one. */
    method AtomicTurn(pc: Word, ir: Word) returns (e: Effect<E>)
      requires Valid() && InRam(Target(core, ir)) && Opcode(ir) == 0x2F
      requires InOneLine(Ofs(Target(core, ir)), 4)
      modifies cache.Repr()
      ensures Valid() && (e.Fault? ==> cache.Image() == old(cache.Image()))
      ensures OnRam(e, cache.Image()) == Atomic(old(State()), pc, ir)
    {
      hide U, Ofs, Field, Small, Cache.Image, Cache.Valid, InOneLine, RvSpec.Load, RvSpec.Store, AmoOp, Quiet;
      var b, op, o := Rs2(core, ir), Small(ir, 27), Ofs(Rs1(core, ir));
      var prior := Load(o, 4);
      if op == 2 {
        var c := core.(extraflags := core.extraflags % 8 + 8 * o);
        e := Retire(U(pc + 4), Rd(ir), prior, Machine(c, BLANK, env));
      } else if op == 3 && Reservation(core.extraflags) != o {
        e := Retire(U(pc + 4), Rd(ir), 1, Machine(core, BLANK, env));
      } else if op == 3 {
        Store(o, 4, b);
        e := Retire(U(pc + 4), Rd(ir), 0, Machine(core, BLANK, env));
      } else if IsAmo(op) {
        Store(o, 4, AmoOp(op, prior, b));
        e := Retire(U(pc + 4), Rd(ir), prior, Machine(core, BLANK, env));
      } else {
        e := Fault(CAUSE_ILLEGAL, pc);
      }
    }

    /** The instruction's effect, its accesses made through the cache. */
    method Perform(pc: Word, ir: Word, cycle: Word) returns (e: Effect<E>)
      requires Valid()
      requires Width(core, ir) > 0 ==> InOneLine(Ofs(Target(core, ir)), Width(core, ir))
      modifies cache.Repr()
      ensures Valid() && (e.Fault? ==> cache.Image() == old(cache.Image()))
      ensures OnRam(e, cache.Image()) == Execute(old(State()), hooks, pc, ir, cycle)
    {
      hide Field, Cache.Image, Cache.Valid, InOneLine, Quiet, OnRam, LoadOp, StoreOp, Atomic, Branch, RvSpec.Op;
      hide SystemOp, U, Ofs, InRam, LoadSize, StoreSize;
      if InRam(Target(core, ir)) && Opcode(ir) == 0x03 {
        e := LoadTurn(pc, ir);
      } else if InRam(Target(core, ir)) && Opcode(ir) == 0x23 {
        e := StoreTurn(pc, ir);
      } else if InRam(Target(core, ir)) && Opcode(ir) == 0x2F {
        e := AtomicTurn(pc, ir);
      } else {
        RamKept(State(), hooks, pc, ir, cycle);
        e := Execute(Machine(core, BLANK, env), hooks, pc, ir, cycle);
      }
    }

    /** The core and the environment after an effect. */
    method Settle(e: Effect<E>, pc: Word, ghost m: Machine<E>) returns (stop: Stop)
      requires Valid() && m.core == core && m.env == env && (e.Fault? ==> m.ram == cache.Image())
      modifies this
      ensures Valid() && (State(), stop) == Apply(m, OnRam(e, cache.Image()), pc)
    {
      hide U, Trap, Cache.Image, Cache.Valid, Quiet, SetReg;
      match e {
        case Retire(next, rd, val, m1) =>
          core, env := (if rd < 32 then SetReg(m1.core, rd, val) else m1.core).(pc := next), m1.env;
          stop := Running;
        case Fault(cause, tval) =>
          TrapKept(m, cause, tval, pc);
          core := Trap(Machine(core, BLANK, env), cause, tval, pc).core;
          stop := Trapped;
        case Wait(m1) =>
          core, env := m1.core.(pc := U(pc + 4)), m1.env;
          stop := Asleep;
        case Power(code, m1) =>
          core, env := m1.core.(pc := U(pc + 4)), m1.env;
          stop := Off(code);
      }
    }

    /** One instruction over the cache is one over the flat memory that the cache shows. */
    method Turn(cycle: Word) returns (stop: Stop)
      requires Valid() && Near(State())
      modifies this, cache.Repr()
      ensures Valid() && (State(), stop) == RvSpec.Instruction(old(State()), hooks, cycle)
    {
      hide U, Ofs, Execute, Trap, Cache.Image, Cache.Valid, InOneLine, RvSpec.Load, Quiet, OnRam, Width, Target, Apply;
      var pc := core.pc;
      if FetchFault(pc) {
        var cause := if Ofs(pc) >= RAM_SIZE then CAUSE_FETCH else CAUSE_MISALIGNED;
        TrapKept(State(), cause, pc, pc);
        core := Trap(Machine(core, BLANK, env), cause, pc, pc).core;
        return Trapped;
      }
      AlignedNear(Ofs(pc), 4);
      var ir := Load(Ofs(pc), 4);
      var e := Perform(pc, ir, cycle);
      stop := Settle(e, pc, old(State()));
    }

    /** A run of instructions over the cache, until the first trap, wait or end. */
    method Run(k: nat) returns (steps: nat, stop: Stop)
      requires Valid() && NearRun(State(), hooks, k)
      modifies this, cache.Repr()
      ensures Valid() && Progress(State(), steps, stop) == Iterate(old(State()), hooks, k)
    {
      hide U, Instruction, Cache.Image, Cache.Valid, Quiet, Near;
      var cyclel := core.cyclel;
      steps, stop := 0, Running;
      while steps < k && stop.Running?
        invariant Valid() && steps <= k && Progress(State(), steps, stop) == Iterate(old(State()), hooks, steps)
        invariant !stop.Running? ==> steps > 0
      {
        steps := steps + 1;
        stop := Turn(U(cyclel + steps));
      }
      StopsThere(old(State()), steps, k);
    }

    /** MiniRV32IMAStep over the cache. */
    method Step(elapsed: Word, count: int) returns (r: int)
      requires Valid() && NearStep(State(), hooks, elapsed, count)
      modifies this, cache.Repr()
      ensures Valid() && (State(), r) == RvSpec.Step(old(State()), hooks, elapsed, count)
    {
      hide U, Iterate, Cache.Image, Cache.Valid, Quiet, Tick, Trap, Waiting, Interrupted, NearRun, AddCycles, Signed;
      core := Tick(core, elapsed);
      if Waiting(core.extraflags) {
        return 1;
      }
      if Interrupted(core) {
        TrapKept(State(), TIMER_INTERRUPT, 0, core.pc);
        core := Trap(Machine(core, BLANK, env), TIMER_INTERRUPT, 0, core.pc).core;
        return 0;
      }
      var steps, stop := Run(if count < 0 then 0 else count);
      match stop {
        case Asleep => r := 1;
        case Off(code) => r := Signed(code);
        case _ =>
          core := AddCycles(core, steps);
          r := 0;
      }
    }

    lemma {:induction false} StopsThere(m: Machine<E>, n: nat, k: nat)
      requires n <= k && (n == k || !Iterate(m, hooks, n).stop.Running?)
      ensures Iterate(m, hooks, n) == Iterate(m, hooks, k)
      decreases k
    {
      hide Instruction;
      if n < k { StopsThere(m, n, k - 1); }
    }
  }

  lemma TrapKept<E>(m: Machine<E>, cause: Word, tval: Word, pc: Word)
    ensures Trap(m, cause, tval, pc) == m.(core := Trap(Machine(m.core, BLANK, m.env), cause, tval, pc).core)
  {
  }

  /** An access at a multiple of its size is inside one line. */
  lemma {:induction false} AlignedNear(ofs: nat, n: nat)
    requires ofs < RAM_SIZE && (n == 1 || (n == 2 && ofs % 2 == 0) || (n == 4 && ofs % 4 == 0))
    ensures InOneLine(ofs, n)
  {
    var q, r := ofs / 16, ofs % 16;
    assert ofs == 16 * q + r;
    if n == 2 {
      var p := ofs / 2;
      assert r == 2 * (p - 8 * q);
    } else if n == 4 {
      var p := ofs / 4;
      assert r == 4 * (p - 4 * q);
    }
  }

  /** The processor over flat memory and the one over the cache, from the same state, do the same. */
  method SideBySide<E(!new)>(cpu: Cpu<E>, board: Board<E>, elapsed: Word, count: int) returns (r: int, s: int)
    requires board.Valid() && cpu.hooks == board.hooks && cpu.State() == board.State()
    requires -0x8000_0000 <= count < 0x8000_0000 && NearStep(board.State(), board.hooks, elapsed, count)
    requires (cpu as object) !in board.cache.Repr()
    modifies cpu, board, board.cache.Repr()
    ensures board.Valid() && r == s && cpu.State() == board.State()
  {
    hide RvSpec.Step, Cache.Image, Cache.Valid, NearStep, Quiet;
    r := cpu.Step(elapsed, count);
    s := board.Step(elapsed, count);
  }
}
