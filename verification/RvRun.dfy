/** Runs of the processor from power-on, and the emulator's loop around it with its two 64-bit counters. */
module RvRun {
  import opened Words
  import opened Psram
  import opened RvCore
  import opened RvBits
  import opened RvSpec
  import opened RvFrame
  import opened RvCpu

  // ---------------------------------------------------------------- x0 and the reservation

  /** The last reservation made, when it was `last` before the first k instructions. */
  function IterateLr<E>(m: Machine<E>, h: Hooks<E>, k: nat, last: nat): nat {
    if k == 0 then last
    else
      var prior := IterateLr(m, h, k - 1, last);
      var p := Iterate(m, h, k - 1);
      if p.stop.Running? && Fetched(p.m).Some? then Fetched(p.m).value else prior
  }

  /** One call of the step function. */
  datatype Call = Call(elapsed: Word, count: int)

  function Ticked<E>(m: Machine<E>, c: Call): Machine<E> {
    m.(core := Tick(m.core, c.elapsed))
  }

  /** The call executes instructions. */
  predicate Executes<E>(m: Machine<E>, c: Call) {
    !Waiting(Ticked(m, c).core.extraflags) && !Interrupted(Ticked(m, c).core)
  }

  function Count(c: Call): nat {
    if c.count < 0 then 0 else c.count
  }

  function CallLr<E>(m: Machine<E>, h: Hooks<E>, c: Call, last: nat): nat {
    if Executes(m, c) then IterateLr(Ticked(m, c), h, Count(c), last) else last
  }

  /** The machine after the first n calls of a run. */
  function Run<E>(m: Machine<E>, h: Hooks<E>, calls: seq<Call>, n: nat): Machine<E>
    requires n <= |calls|
  {
    if n == 0 then m else Step(Run(m, h, calls, n - 1), h, calls[n - 1].elapsed, calls[n - 1].count).0
  }

  /** The offset reserved by the most recent LR.W of the run, 0 if there was none. */
  function RunLr<E>(m: Machine<E>, h: Hooks<E>, calls: seq<Call>, n: nat): nat
    requires n <= |calls|
  {
    if n == 0 then 0 else CallLr(Run(m, h, calls, n - 1), h, calls[n - 1], RunLr(m, h, calls, n - 1))
  }

  /** x0 holds 0 and the flag word holds the reservation `last`. */
  predicate Tracks<E>(m: Machine<E>, last: nat) {
    m.core.regs[0] == 0 && Reservation(m.core.extraflags) == last
  }

  /** As start_vm sets it up: all zero but the device tree pointer, machine mode and the program counter. */
  predicate PoweredOn<E>(m: Machine<E>) {
    && (forall i :: 0 <= i < 32 && i != 11 ==> m.core.regs[i] == 0)
    && m.core.extraflags == 3 && m.core.pc == RAM_IMAGE_OFFSET
  }

  lemma {:induction false} IterateTracks<E>(m: Machine<E>, h: Hooks<E>, k: nat, last: nat)
    requires Tracks(m, last)
    ensures Tracks(Iterate(m, h, k).m, IterateLr(m, h, k, last))
    decreases k
  {
    hide Instruction, Fetched;
    if k > 0 {
      IterateTracks(m, h, k - 1, last);
      InstructionFrame(Iterate(m, h, k - 1).m, h, U(m.core.cyclel + k));
    }
  }

  lemma {:induction false} TickTracks(c: Core, elapsed: Word)
    ensures Tick(c, elapsed).regs == c.regs && Reservation(Tick(c, elapsed).extraflags) == Reservation(c.extraflags)
  {
    hide WithBit, Counter;
    FlagBits(c.extraflags, 0, 0);
  }

  lemma {:induction false} CallTracks<E>(m: Machine<E>, h: Hooks<E>, c: Call, last: nat)
    requires Tracks(m, last)
    ensures Tracks(Step(m, h, c.elapsed, c.count).0, CallLr(m, h, c, last))
  {
    hide Tick, Iterate, Reservation, IterateLr, Field, Waiting, Interrupted, AddCycles.requires;
    TickTracks(m.core, c.elapsed);
    var m1 := Ticked(m, c);
    TrapFrame(m1.core);
    if Executes(m, c) { IterateTracks(m1, h, Count(c), last); }
  }

  /** On every run from power-on x0 stays 0, and the flag word holds the offset of the most recent LR.W. */
  lemma {:induction false} RunTracks<E>(m: Machine<E>, h: Hooks<E>, calls: seq<Call>, n: nat)
    requires PoweredOn(m) && n <= |calls|
    ensures Tracks(Run(m, h, calls, n), RunLr(m, h, calls, n))
    decreases n
  {
    hide Step, CallLr, Reservation;
    if n == 0 {
      assert Reservation(3) == 0 by { ReservationOfThree(); }
    } else {
      RunTracks(m, h, calls, n - 1);
      CallTracks(Run(m, h, calls, n - 1), h, calls[n - 1], RunLr(m, h, calls, n - 1));
    }
  }

  lemma ReservationOfThree()
    ensures Reservation(3) == 0
  {
  }

  /** SC.W at any point of a run: it stores and gives 0 exactly when its offset is that of the most recent LR.W,
      and otherwise gives 1 and changes nothing. */
  lemma {:induction false} StoreConditional<E>(m: Machine<E>, h: Hooks<E>, calls: seq<Call>, n: nat, c: Call, k: nat,
                                               ir: Word, cycle: Word)
    requires PoweredOn(m) && n <= |calls| && Executes(Run(m, h, calls, n), c)
    requires Opcode(ir) == 0x2F && Small(ir, 27) == 3
    ensures var before := Run(m, h, calls, n);
      var at := Iterate(Ticked(before, c), h, k).m;
      var last := IterateLr(Ticked(before, c), h, k, RunLr(m, h, calls, n));
      InRam(Rs1(at.core, ir)) ==>
        Execute(at, h, at.core.pc, ir, cycle)
        == if Ofs(Rs1(at.core, ir)) == last
           then Retire(U(at.core.pc + 4), Rd(ir), 0,
                       at.(ram := RvSpec.Store(at.ram, Ofs(Rs1(at.core, ir)), 4, Rs2(at.core, ir))))
           else Retire(U(at.core.pc + 4), Rd(ir), 1, at)
  {
    hide Step, Iterate, IterateLr, Tick, RvSpec.Store, RvSpec.Load, U, Ofs, Opcode, Small, Executes, Rd;
    RunTracks(m, h, calls, n);
    var before := Run(m, h, calls, n);
    TickTracks(before.core, c.elapsed);
    IterateTracks(Ticked(before, c), h, k, RunLr(m, h, calls, n));
  }

  // ---------------------------------------------------------------- counting instructions

  /** The loop turns of a call that are counted: those of a call that neither slept nor ended. */
  function Counted<E>(m: Machine<E>, h: Hooks<E>, c: Call): nat {
    if !Executes(m, c) then 0
    else
      var p := Iterate(Ticked(m, c), h, Count(c));
      if p.stop.Running? || p.stop.Trapped? then p.steps else 0
  }

  /** A call adds what it counts to the cycle counter. */
  lemma {:induction false} CallCycles<E>(m: Machine<E>, h: Hooks<E>, c: Call)
    ensures var d := Step(m, h, c.elapsed, c.count).0.core;
      Counter(d.cyclel, d.cycleh) == (Counter(m.core.cyclel, m.core.cycleh) + Counted(m, h, c)) % TWO64
  {
    hide Tick, Iterate, Field, Waiting, Interrupted, Counter, Low, High;
    TickKeepsCycles(m.core, c.elapsed);
    SmallCounter(m.core.cyclel, m.core.cycleh);
    if Executes(m, c) {
      var p := Iterate(Ticked(m, c), h, Count(c));
      CyclesKept(Ticked(m, c), h, Count(c));
      HalvesBack((Counter(m.core.cyclel, m.core.cycleh) + p.steps) % TWO64);
    }
  }

  lemma TickKeepsCycles(c: Core, elapsed: Word)
    ensures Tick(c, elapsed).cyclel == c.cyclel && Tick(c, elapsed).cycleh == c.cycleh
  {
  }

  lemma {:induction false} SmallCounter(lo: Word, hi: Word)
    ensures Counter(lo, hi) % TWO64 == Counter(lo, hi)
  {
  }

  /** The loop turns of a call. */
  function LoopTurns<E>(m: Machine<E>, h: Hooks<E>, c: Call): nat {
    if Executes(m, c) then Iterate(Ticked(m, c), h, Count(c)).steps else 0
  }

  /** The guest stored 0 to the SYSCON in this call. */
  predicate StoredZero<E>(m: Machine<E>, h: Hooks<E>, c: Call) {
    Executes(m, c) && Iterate(Ticked(m, c), h, Count(c)).stop == Off(0)
  }

  /** The loop turns of a call that returns 0, nothing for another. */
  function ZeroCall<E>(m: Machine<E>, h: Hooks<E>, c: Call): nat {
    if Step(m, h, c.elapsed, c.count).1 == 0 then LoopTurns(m, h, c) else 0
  }

  /** A call that returns 0 counts all its loop turns, if and only if the guest did not store 0 to the SYSCON; a call
      that returns something else counts none. */
  lemma {:induction false} ZeroCounts<E>(m: Machine<E>, h: Hooks<E>, c: Call)
    ensures Counted(m, h, c) <= ZeroCall(m, h, c)
    ensures Counted(m, h, c) == ZeroCall(m, h, c) <==> !StoredZero(m, h, c)
  {
    hide Tick, Instruction, Field, Waiting, Interrupted, AddCycles;
    var p := Iterate(Ticked(m, c), h, Count(c));
    if Executes(m, c) && p.stop.Off? {
      SomeSteps(Ticked(m, c), h, Count(c));
      SignedZero(p.stop.code);
    }
  }

  lemma SignedZero(x: Word)
    ensures Signed(x) == 0 <==> x == 0
  {
  }

  lemma {:induction false} SomeSteps<E>(m: Machine<E>, h: Hooks<E>, k: nat)
    ensures !Iterate(m, h, k).stop.Running? ==> Iterate(m, h, k).steps > 0
    decreases k
  {
    hide Instruction;
    if k > 0 { SomeSteps(m, h, k - 1); }
  }

  // sw x0, 0(x1)
  const STORE_ZERO: Word := 0xA023

  /** RAM that starts with that instruction. */
  function StoreZeroRam(): (ram: Ram)
    ensures Load(ram, 0, 4) == STORE_ZERO
  {
    var ram: Ram := seq(RAM_SIZE, i => if i == 0 then 0x23 else if i == 1 then 0xA0 else 0);
    assert ram[0..4] + seq(0, _ => 0) == [0x23, 0xA0, 0, 0];
    ram
  }

  /** A machine that is about to store 0 to the SYSCON, whose address is in x1. */
  function StoreZeroMachine<E>(e: E): Machine<E> {
    var zero: Word := 0;
    var regs: Regs := seq(32, i => if i == 1 then 0x1110_0000 else zero);
    Machine(Blank().(regs := regs, pc := RAM_IMAGE_OFFSET, extraflags := 3), StoreZeroRam(), e)
  }

  lemma {:induction false} StoreZeroFields()
    ensures Opcode(STORE_ZERO) == 0x23 && Small(STORE_ZERO, 15) == 1 && Small(STORE_ZERO, 20) == 0
    ensures ImmS(STORE_ZERO) == 0
  {
    Powers();
    LowPowers();
  }

  lemma {:induction false} StoreZeroStops<E>(e: E, h: Hooks<E>, m: Machine<E>, cycle: Word)
    requires m.ram == StoreZeroRam() && m.core.pc == RAM_IMAGE_OFFSET && m.core.regs == StoreZeroMachine(e).core.regs
    ensures Instruction(m, h, cycle).1 == Off(0)
  {
    hide Opcode, Small, ImmS, StoreZeroRam, Blank, Load, LoadOp, Branch, Op, SystemOp, Atomic, RvSpec.Store;
    StoreZeroFields();
  }

  /** There a call of one instruction returns 0 and counts nothing. */
  lemma {:induction false} ZeroNotCounted<E>(e: E, h: Hooks<E>)
    ensures var m, c := StoreZeroMachine(e), Call(0, 1);
      && Step(m, h, c.elapsed, c.count).1 == 0 && LoopTurns(m, h, c) == 1 && Counted(m, h, c) == 0
      && StoredZero(m, h, c)
  {
    hide Instruction, StoreZeroRam;
    var m, c := StoreZeroMachine(e), Call(0, 1);
    Quiet(m);
    StoreZeroStops(e, h, Ticked(m, c), U(m.core.cyclel + 1));
    assert Iterate(Ticked(m, c), h, 0) == Progress(Ticked(m, c), 0, Running);
    assert Iterate(Ticked(m, c), h, 1).stop == Off(0) && Iterate(Ticked(m, c), h, 1).steps == 1;
  }

  lemma {:induction false} Quiet<E>(m: Machine<E>)
    requires m.core.timermatchl == 0 && m.core.timermatchh == 0 && m.core.mip == 0 && m.core.extraflags == 3
    ensures Executes(m, Call(0, 1)) && Ticked(m, Call(0, 1)).core.cyclel == m.core.cyclel
    ensures Ticked(m, Call(0, 1)).core.pc == m.core.pc && Ticked(m, Call(0, 1)).core.regs == m.core.regs
  {
    Powers();
    LowPowers();
  }

  const EMU_POWEROFF := 0
  const EMU_REBOOT := 2
  const EMU_UNKNOWN := 5

  /** How a turn of the emulator's loop ends: go on, fall out of the loop, or return a power state. */
  datatype Turn = GoOn | FallOut | Return(state: int)

  function TurnOf(ret: int): Turn {
    if ret == 0 || ret == 1 then GoOn
    else if ret == 3 then FallOut
    else if ret == 0x7777 then Return(EMU_REBOOT)
    else if ret == 0x5555 then Return(EMU_POWEROFF)
    else Return(EMU_UNKNOWN)
  }

  /** A guest that stores to the SYSCON ends the loop: 0x5555 powers off (state 0), 0x7777 reboots (state 2), and any
      other word but 0, 1 and 3 leaves the state unknown (5). */
  lemma {:induction false} SysconEnds<E>(m: Machine<E>, h: Hooks<E>, elapsed: Word, count: int, code: Word)
    requires count >= 1 && !Waiting(Tick(m.core, elapsed).extraflags) && !Interrupted(Tick(m.core, elapsed))
    requires var k := m.(core := Tick(m.core, elapsed)); Instruction(k, h, U(k.core.cyclel + 1)).1 == Off(code)
    ensures var t := TurnOf(Step(m, h, elapsed, count).1);
      if code == 0x5555 then t == Return(0) else if code == 0x7777 then t == Return(2)
      else code !in {0, 1, 3} ==> t == Return(5)
  {
    hide Instruction, Tick;
    var k := m.(core := Tick(m.core, elapsed));
    StopsFirst(k, h, count);
    SignedCode(code);
  }

  lemma SignedCode(code: Word)
    ensures code < 0x1_0000 ==> Signed(code) == code
    ensures code >= 0x1_0000 ==> Signed(code) >= 0x1_0000 || Signed(code) < 0
  {
  }

  /** The first instruction that stops the processor is the last one of the call. */
  lemma {:induction false} StopsFirst<E>(m: Machine<E>, h: Hooks<E>, k: nat)
    requires k >= 1 && !Instruction(m, h, U(m.core.cyclel + 1)).1.Running?
    ensures var p := Iterate(m, h, k);
      p.steps == 1 && (p.m, p.stop) == Instruction(m, h, U(m.core.cyclel + 1))
    decreases k
  {
    hide Instruction;
    if k == 1 {
      assert Iterate(m, h, 0) == Progress(m, 0, Running);
    } else {
      StopsFirst(m, h, k - 1);
    }
  }

  /** Adding n in the two ways of the loop. */
  lemma {:induction false} CarryByAmount(lo: Word, hi: Word, n: nat)
    requires n < TWO32
    ensures U(lo + n) < n <==> U(lo + n) < lo
    ensures n > 0 ==> Counter(U(lo + n), if U(lo + n) < n then U(hi + 1) else hi) == (Counter(lo, hi) + n) % TWO64
  {
    AddHalves(lo, hi, n);
    HalvesBack((Counter(lo, hi) + n) % TWO64);
  }

  /** Sums modulo 2^64 with the same amount added. */
  lemma {:induction false} AddToBoth(cycles: nat, idle: nat, retired: nat, n: nat)
    requires cycles == (idle + retired) % TWO64
    ensures (cycles + n) % TWO64 == ((idle + n) % TWO64 + retired) % TWO64
    ensures (cycles + n) % TWO64 == (idle + (retired + n)) % TWO64
  {
    AddInside(idle + retired, n);
    AddInside(idle + n, retired);
  }

  lemma {:induction false} AddInside(x: nat, y: nat)
    ensures (x % TWO64 + y) % TWO64 == (x + y) % TWO64
  {
  }

  /** One turn of the loop: a call of the step function, and cycles credited when the processor slept. */
  function FlipSpec<E>(m: Machine<E>, h: Hooks<E>, c: Call): Machine<E> {
    var (m1, ret) := Step(m, h, c.elapsed, c.count);
    if ret == 1 then m1.(core := AddCycles(m1.core, Count(c))) else m1
  }

  datatype LoopState<E> = LoopState(m: Machine<E>, retired: nat, turn: Turn)

  /** The first n turns, up to the one that ends the loop. */
  function Turns<E>(m: Machine<E>, h: Hooks<E>, per: int, elapsed: seq<Word>, n: nat): LoopState<E>
    requires n <= |elapsed|
  {
    if n == 0 then LoopState(m, 0, GoOn)
    else
      var s := Turns(m, h, per, elapsed, n - 1);
      if s.turn != GoOn then s
      else
        var c := Call(elapsed[n - 1], per);
        LoopState(FlipSpec(s.m, h, c), s.retired + Counted(s.m, h, c), TurnOf(Step(s.m, h, c.elapsed, c.count).1))
  }

  /** The loop turns of the calls that returned 0, among the first n up to the end of the loop. */
  function ZeroTurns<E>(m: Machine<E>, h: Hooks<E>, per: int, elapsed: seq<Word>, n: nat): nat
    requires n <= |elapsed|
  {
    if n == 0 then 0
    else
      var s := Turns(m, h, per, elapsed, n - 1);
      ZeroTurns(m, h, per, elapsed, n - 1) + if s.turn != GoOn then 0 else ZeroCall(s.m, h, Call(elapsed[n - 1], per))
  }

  /** No call of those stored 0 to the SYSCON. */
  ghost predicate NoneStoredZero<E>(m: Machine<E>, h: Hooks<E>, per: int, elapsed: seq<Word>, n: nat)
    requires n <= |elapsed|
  {
    forall j :: 0 <= j < n && Turns(m, h, per, elapsed, j).turn == GoOn
      ==> !StoredZero(Turns(m, h, per, elapsed, j).m, h, Call(elapsed[j], per))
  }

  /** The count of a run is the loop turns of its calls that returned 0, if and only if none of them stored 0 to the
      SYSCON. */
  lemma {:induction false} RunCounts<E>(m: Machine<E>, h: Hooks<E>, per: int, elapsed: seq<Word>, n: nat)
    requires n <= |elapsed|
    ensures Turns(m, h, per, elapsed, n).retired <= ZeroTurns(m, h, per, elapsed, n)
    ensures Turns(m, h, per, elapsed, n).retired == ZeroTurns(m, h, per, elapsed, n)
      <==> NoneStoredZero(m, h, per, elapsed, n)
    decreases n
  {
    hide FlipSpec, Counted, ZeroCall, StoredZero, Step;
    if n > 0 {
      RunCounts(m, h, per, elapsed, n - 1);
      ZeroCounts(Turns(m, h, per, elapsed, n - 1).m, h, Call(elapsed[n - 1], per));
    }
  }

  lemma {:induction false} EndedEarly<E>(m: Machine<E>, h: Hooks<E>, per: int, elapsed: seq<Word>, k: nat, n: nat)
    requires k <= n <= |elapsed| && Turns(m, h, per, elapsed, k).turn != GoOn
    ensures Turns(m, h, per, elapsed, n) == Turns(m, h, per, elapsed, k)
    decreases n
  {
    if k < n { EndedEarly(m, h, per, elapsed, k, n - 1); }
  }

  /** The processor loop of start_vm with the count of fabricated cycles. */
  class VmLoop<E> {
    const cpu: Cpu<E>
    const singleStep: bool
    var idleLo: Word
    var idleHi: Word
    ghost var retired: nat  // instruction loop turns counted so far

    constructor (m: Machine<E>, hooks: Hooks<E>, singleStep: bool)
      requires m.core.cyclel == 0 && m.core.cycleh == 0
      ensures Balanced() && retired == 0 && fresh(cpu) && cpu.State() == m && cpu.hooks == hooks
      ensures this.singleStep == singleStep
    {
      this.singleStep := singleStep;
      cpu := new Cpu<E>(m, hooks);
      idleLo, idleHi, retired := 0, 0, 0;
    }

    function PerFlip(): int {
      if singleStep then 1 else 4096
    }

    /** Cycles are idle cycles plus instruction loop turns, modulo 2^64. */
    ghost predicate Balanced()
      reads this, cpu
    {
      Counter(cpu.cyclel, cpu.cycleh) == (Counter(idleLo, idleHi) + retired) % TWO64
    }

    /** One turn of the loop. */
    method Flip(elapsedUs: Word) returns (t: Turn)
      requires Balanced()
      modifies this, cpu
      ensures Balanced()
      ensures t == TurnOf(Step(old(cpu.State()), cpu.hooks, elapsedUs, PerFlip()).1)
      ensures retired == old(retired) + Counted(old(cpu.State()), cpu.hooks, Call(elapsedUs, PerFlip()))
      ensures cpu.State() == FlipSpec(old(cpu.State()), cpu.hooks, Call(elapsedUs, if singleStep then 1 else 4096))
    {
      hide AddCycles, Counter, Counted, RvSpec.Step, U;
      ghost var m := cpu.State();
      ghost var c := Call(elapsedUs, PerFlip());
      CallCycles(m, cpu.hooks, c);
      AddToBoth(Counter(cpu.cyclel, cpu.cycleh), Counter(idleLo, idleHi), retired, Counted(m, cpu.hooks, c));
      var ret := cpu.Step(elapsedUs, PerFlip());
      retired := retired + Counted(m, cpu.hooks, c);
      if ret == 1 {
        AddIdle();
      }
      t := TurnOf(ret);
    }

    /** The cycles credited to a sleeping processor. */
    method AddIdle()
      requires Balanced()
      modifies this`idleLo, this`idleHi, cpu
      ensures Balanced() && cpu.State() == old(cpu.State()).(core := AddCycles(old(cpu.State()).core, PerFlip()))
    {
      hide Counter, U, Low, High, AddCycles;
      AddToBoth(Counter(cpu.cyclel, cpu.cycleh), Counter(idleLo, idleHi), retired, PerFlip());
      CreditCpu();
      CountIdle();
    }

    method CreditCpu()
      modifies cpu
      ensures Counter(cpu.cyclel, cpu.cycleh) == (old(Counter(cpu.cyclel, cpu.cycleh)) + PerFlip()) % TWO64
      ensures cpu.State() == old(cpu.State()).(core := AddCycles(old(cpu.State()).core, PerFlip()))
    {
      hide Counter, U, Low, High;
      var n := PerFlip();
      HalvesBack((Counter(cpu.cyclel, cpu.cycleh) + n) % TWO64);
      var t := (Counter(cpu.cyclel, cpu.cycleh) + n) % TWO64;
      cpu.cyclel, cpu.cycleh := Low(t), High(t);
    }

    method CountIdle()
      modifies this`idleLo, this`idleHi
      ensures Counter(idleLo, idleHi) == (old(Counter(idleLo, idleHi)) + PerFlip()) % TWO64
    {
      hide Counter, U, Low, High;
      var n := PerFlip();
      CarryByAmount(idleLo, idleHi, n);
      idleLo := U(idleLo + n);
      if idleLo < n {
        idleHi := U(idleHi + 1);
      }
    }

    /** The loop, for as many turns as there are times, or until it ends. */
    method Loop(elapsed: seq<Word>) returns (t: Turn)
      requires Balanced()
      modifies this, cpu
      ensures Balanced() && retired >= old(retired)
      ensures LoopState(cpu.State(), retired - old(retired), t)
           == Turns(old(cpu.State()), cpu.hooks, PerFlip(), elapsed, |elapsed|)
      ensures retired - old(retired) == ZeroTurns(old(cpu.State()), cpu.hooks, PerFlip(), elapsed, |elapsed|)
        <==> NoneStoredZero(old(cpu.State()), cpu.hooks, PerFlip(), elapsed, |elapsed|)
    {
      hide Step, FlipSpec, Counted, Balanced, ZeroTurns, NoneStoredZero;
      RunCounts(cpu.State(), cpu.hooks, PerFlip(), elapsed, |elapsed|);
      t := GoOn;
      ghost var m := cpu.State();
      for i := 0 to |elapsed|
        invariant Balanced() && t == GoOn && retired >= old(retired)
        invariant LoopState(cpu.State(), retired - old(retired), GoOn) == Turns(m, cpu.hooks, PerFlip(), elapsed, i)
      {
        t := Flip(elapsed[i]);
        if t != GoOn {
          EndedEarly(m, cpu.hooks, PerFlip(), elapsed, i + 1, |elapsed|);
          return;
        }
      }
    }

    /** vm_get_instret: while neither counter has wrapped, exactly the instruction loop turns counted. */
    method GetInstret() returns (n: nat)
      requires Balanced()
      ensures Counter(idleLo, idleHi) + retired < TWO64 ==> n == retired
    {
      var cycles, idle := Counter(cpu.cyclel, cpu.cycleh), Counter(idleLo, idleHi);
      n := if cycles > idle then cycles - idle else 0;
    }
  }
}
