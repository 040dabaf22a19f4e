/** The guard of MVP-4 and MVP-5 is exact: a turn whose state does not meet it does not follow the sequential core. */
module PipelineExact {
  import opened Words
  import opened Isa
  import opened Cache
  import opened Mmu
  import opened Sequential
  import opened Pipeline
  import opened PipelineInvariant
  import opened PipelineGuard
  import opened PipelineProof
  import opened PipelineRegisters
  import opened PipelineExecute
  import opened PipelineRun
  import Footprint

  // ---------------------------------------------------------------- what a departure is

  /** The execute unit leaves a state from which no turn gets back in step. */
  ghost predicate Departs(v: Variant, app: App, order: seq<Word>, t: Cpu, x: Executed, ref: Cached) {
    var step := StepCached(Dropping, app, order, ref);
    match x
    case Stalled => false
    case Ran =>
      step.CachedNext? ==>
        || !SameRegs(Settled(t.regs, t.wbus), step.next.regs)
        || !Chain(v, app, t, step.next.pc)
        || (!t.eu.pendingRead && t.l1d != step.next.lines)
    case RanAndFlush(target) =>
      step.CachedNext? ==>
        !SameRegs(Settled(t.regs, t.wbus), step.next.regs) || (target == step.next.pc && target >= 4 * |app.code|)
    case Stopped(stop) =>
      stop == Return && t.wu.pendingWrite && (!SameRegs(t.regs, ref.regs) || t.memory != ref.memory)
  }

  // ---------------------------------------------------------------- the program counter

  /** In-flight program counters fix the one that comes next. */
  lemma ChainIsUnique(v: Variant, app: App, s: Cpu, a: int, b: int)
    requires Chain(v, app, s, a) && Chain(v, app, s, b) && (!s.blocked || Decoded(s.eu, s.xbus) > 0)
    ensures a == b
  {
  }

  /** A redirected fetch unit behind the program has no place in any chain. */
  lemma BehindIsNoChain(v: Variant, app: App, s: Cpu, pc: int)
    requires !s.blocked && !s.fu.complete && s.fu.pc >= 4 * |app.code|
    ensures !Chain(v, app, s, pc)
  {
  }

  lemma MissedLanding(v: Variant, app: App, s: Cpu, pc: int, r: RunnerPc, e: Execution, t: Cpu)
    requires Runnable(app) && Chain(v, app, s, pc) && s.eu.processing && s.eu.runner == Some(r)
    requires e.pcChange && !Lands(v, app, s.bu, r, e)
    requires !(s.bu.toCheck && s.bu.expectation != e.nextPc)
    requires t.xbus == s.xbus && t.dbus == s.dbus && !t.eu.processing
    requires if v == Mvp5 && IsUnconditionalBranch(r.instr) then t.fu == Redirect(s.fu, e.nextPc) && !t.blocked
             else t.fu == s.fu && t.blocked == s.blocked
    ensures !Chain(v, app, t, e.nextPc)
  {
    if v == Mvp5 && IsUnconditionalBranch(r.instr) {
      BehindIsNoChain(v, app, t, e.nextPc);
    } else {
      ChainAdvances(v, app, s, pc, t);
      NotBlocked(v, app, s, pc);
      hide Upstream, Downstream;
      if Chain(v, app, t, e.nextPc) { ChainIsUnique(v, app, t, pc + 4, e.nextPc); }
    }
  }

  lemma NotBlocked(v: Variant, app: App, s: Cpu, pc: int)
    requires Chain(v, app, s, pc) && s.eu.processing && !(v == Mvp5 && IsJump(s.eu.runner))
    ensures !s.blocked || s.xbus.current.Some? || s.xbus.pending.Some?
  {
  }

  // ---------------------------------------------------------------- an instruction whose result does not fit

  lemma SendDeparts(v: Variant, app: App, order: seq<Word>, s: Cpu, ref: Cached, bytes: seq<Byte>, e: Execution,
                    s1: Cpu)
    requires Ready(v, app, order, s, ref, bytes) && !Fits(v, app, order, s, s.eu.runner.value, e)
    requires var r := s.eu.runner.value;
             && Run(r.instr, NO_FORWARD, ref.regs, app.labels, ref.pc, bytes) == Ok(e) && !e.isReturn && e.data == []
             && s1 == s.(regs := DirectWrite(r.instr, s.regs, r.pc), eu := s1.eu)
             && !s1.eu.processing && !s1.eu.pendingRead && s1.eu.memory.None?
    ensures var (t, x) := Send(v, s1, s.eu.runner.value, e); Departs(v, app, order, t, x, ref)
  {
    var r := s.eu.runner.value;
    var (t, x) := Send(v, s1, r, e);
    SequentialNext(v, app, order, s, ref, bytes, e);
    SequentialStep(v, app, order, s, ref, bytes);
    EntryIsProper(r.instr, FirstOperand(r.instr, NO_FORWARD, ref.regs), SecondOperand(r.instr, NO_FORWARD, ref.regs),
                  app.labels, ref.pc, bytes, e);
    SendEffect(v, s1, r, e);
    if !RaInOrder(s.wbus, r.instr, r.pc) {
      SendSettles(r.instr, e, s.regs, s.wbus, r.pc, ref.regs);
    } else if !(s.bu.toCheck && s.bu.expectation != e.nextPc) {
      MissedLanding(v, app, s, ref.pc, r, e, t);
    }
    hide Run, StepCached, StepEntry, Send, Compute, Chain;
  }

  lemma StoreDeparts(v: Variant, app: App, order: seq<Word>, s: Cpu, ref: Cached, bytes: seq<Byte>, e: Execution,
                     s1: Cpu)
    requires Ready(v, app, order, s, ref, bytes) && !Fits(v, app, order, s, s.eu.runner.value, e)
    requires var r := s.eu.runner.value;
             && r.instr.Store? && Run(r.instr, NO_FORWARD, ref.regs, app.labels, ref.pc, bytes) == Ok(e)
             && s1 == s.(regs := s.regs, eu := s1.eu)
             && !s1.eu.processing && !s1.eu.pendingRead && s1.eu.memory.None?
    ensures Deliver(v, order, s1, s.eu.runner.value, e).1 == Ran
            && StepCached(Dropping, app, order, ref) == CachedStop(Error(BadAddress))
  {
    SequentialStep(v, app, order, s, ref, bytes);
    SequentialStore(v, app, order, s, ref, bytes, e);
    DeliverMiss(v, order, s1, s.eu.runner.value, e);
    hide Run, StepCached, StepEntry, Compute, Chain, LookUp, Deliver, Registers;
  }

  lemma ReturnDeparts(v: Variant, app: App, order: seq<Word>, s: Cpu, ref: Cached, bytes: seq<Byte>, e: Execution)
    requires Ready(v, app, order, s, ref, bytes) && !Fits(v, app, order, s, s.eu.runner.value, e)
    requires var r := s.eu.runner.value;
             Run(r.instr, NO_FORWARD, ref.regs, app.labels, ref.pc, bytes) == Ok(e) && e.isReturn && e.data == []
             && !e.pcChange && r.instr.Ret?
    ensures var (t, x) := RunNow(v, app, order, s, s.eu.runner.value, bytes);
            x == Stopped(Return) && Departs(v, app, order, t, x, ref)
  {
    SequentialStep(v, app, order, s, ref, bytes);
    hide StepCached, Chain, LookUp;
  }

  lemma RunDeparts(v: Variant, app: App, order: seq<Word>, s: Cpu, ref: Cached, bytes: seq<Byte>)
    requires Ready(v, app, order, s, ref, bytes) && !ResultFits(v, app, order, s, s.eu.runner.value, bytes)
    ensures var (t, x) := RunNow(v, app, order, s, s.eu.runner.value, bytes); Departs(v, app, order, t, x, ref)
  {
    var r := s.eu.runner.value;
    var e := Run(r.instr, NO_FORWARD, ref.regs, app.labels, ref.pc, bytes).value;
    SequentialStep(v, app, order, s, ref, bytes);
    StoreData(r.instr, FirstOperand(r.instr, NO_FORWARD, ref.regs), SecondOperand(r.instr, NO_FORWARD, ref.regs),
              app.labels, ref.pc, bytes, e);
    EntryIsProper(r.instr, FirstOperand(r.instr, NO_FORWARD, ref.regs), SecondOperand(r.instr, NO_FORWARD, ref.regs),
                  app.labels, ref.pc, bytes, e);
    hide StepCached, StepEntry, Chain, Run, Fits, LookUp, Departs;
    var s1 := s.(regs := DirectWrite(r.instr, s.regs, r.pc), eu := s.eu.(runner := None, processing := false));
    if e.isReturn {
      ReturnDeparts(v, app, order, s, ref, bytes, e);
    } else if r.instr.Store? {
      StoreDeparts(v, app, order, s, ref, bytes, e, s1);
      RanOverAStop(v, app, order, Deliver(v, order, s1, r, e).0, ref);
    } else {
      SendDeparts(v, app, order, s, ref, bytes, e, s1);
    }
  }

  lemma RanOverAStop(v: Variant, app: App, order: seq<Word>, t: Cpu, ref: Cached)
    requires StepCached(Dropping, app, order, ref).CachedStop?
    ensures Departs(v, app, order, t, Ran, ref)
  {
    hide StepCached;
  }

  // ---------------------------------------------------------------- a line that misses a queued store

  lemma LoadRuns(i: Instr, regs: Regs, labels: map<string, Word>, pc: Word, bytes: seq<Byte>)
    requires i.Load? && |bytes| == Bytes(i.width)
    ensures var out := Run(i, NO_FORWARD, regs, labels, pc, bytes);
            out.Ok? && out.value.registerChange && !out.value.isReturn && !out.value.pcChange && out.value.data == []
  {
  }

  lemma LoadSends(v: Variant, app: App, order: seq<Word>, s: Cpu, r: RunnerPc, bytes: seq<Byte>)
    requires r.instr.Load? && |bytes| == Bytes(r.instr.width)
    ensures var (t, x) := RunNow(v, app, order, s, r, bytes);
            x == Ran && t.l1d == s.l1d && t.eu.pendingRead == s.eu.pendingRead
  {
    LoadRuns(r.instr, s.regs, app.labels, r.pc, bytes);
    hide Run, AddAll;
  }

  lemma SequentialLoad(app: App, order: seq<Word>, ref: Cached, l: Loaded)
    requires 0 <= Index(ref.pc) < |app.code| && app.code[Index(ref.pc)].Load?
    requires var i := app.code[Index(ref.pc)];
             FetchOperands(ref.lines, ref.memory, MemoryRead(i, NO_FORWARD, ref.regs)) == Some(l)
             && |l.bytes| == Bytes(i.width)
    ensures StepCached(Dropping, app, order, ref).CachedNext?
            && StepCached(Dropping, app, order, ref).next.lines == l.lines
  {
    LoadRuns(app.code[Index(ref.pc)], ref.regs, app.labels, ref.pc, l.bytes);
    hide Run, FetchOperands, MemoryRead;
  }

  lemma StaleLineDeparts(v: Variant, app: App, order: seq<Word>, s: Cpu, ref: Cached)
    requires Inv(v, app, s, ref) && s.eu.pendingRead && s.eu.remaining == 1 && !LineIsCurrent(s)
    ensures var (t, x) := FinishRead(v, app, order, s); Departs(v, app, order, t, x, ref)
  {
    var r := s.eu.runner.value;
    var addrs := s.eu.addrs;
    MissTellsLine(s.l1d, s.memory, ref.memory, addrs);
    var l, m := LoadMiss(s.l1d, s.memory, addrs).value, LoadMiss(s.l1d, ref.memory, addrs).value;
    MissServesAll(s.l1d, s.memory, addrs);
    MissServesAll(s.l1d, ref.memory, addrs);
    MissIsFetched(v, app, s, ref, m);
    hide Registers, SettledMemory, LoadMiss, GetAll, FetchLine, StepCached, RunNow, Upstream;
    SequentialLoad(app, order, ref, m);
    LoadSends(v, app, order, s.(eu := s.eu.(remaining := 0, pendingRead := false, memory := None), l1d := l.lines,
                                memory := l.memory), r, l.bytes);
  }

  lemma MissServesAll(lines: seq<Line>, memory: Memory, addrs: seq<Word>)
    requires |addrs| > 0
    ensures LoadMiss(lines, memory, addrs).Some? ==> |LoadMiss(lines, memory, addrs).value.bytes| == |addrs|
  {
    hide GetAll;
  }

  lemma MissIsFetched(v: Variant, app: App, s: Cpu, ref: Cached, m: Loaded)
    requires Inv(v, app, s, ref) && s.eu.pendingRead && s.eu.memory.None? && s.eu.addrs != []
    requires LoadMiss(s.l1d, ref.memory, s.eu.addrs) == Some(m)
    ensures s.eu.runner.Some? && s.eu.runner.value.instr.Load? && 0 <= Index(ref.pc) < |app.code|
    ensures var i := s.eu.runner.value.instr;
            && i == app.code[Index(ref.pc)] && s.eu.addrs == MemoryRead(i, NO_FORWARD, ref.regs)
            && |s.eu.addrs| == Bytes(i.width)
            && FetchOperands(ref.lines, ref.memory, MemoryRead(i, NO_FORWARD, ref.regs)) == Some(m)
  {
    hide LoadMiss, GetAll, Registers;
  }

  // ---------------------------------------------------------------- the execute unit

  /** The instruction about to run sees its operands. Without this the same result may still come out by chance. */
  predicate SeesOperands(s: Cpu) {
    var o := Oldest(s);
    !s.eu.pendingRead && o.Some? && Proceeds(s, o.value.0, o.value.1) ==> OperandsSeen(s.regs, s.wbus, o.value.0.instr)
  }

  /** The unit with the instruction in it, about to run. */
  function Poised(v: Variant, s: Cpu, r: RunnerPc): Cpu {
    var (bu, fu) := AssertBranch(v, s.bu, s.fu, r);
    s.(bu := bu, fu := fu, xbus := if s.eu.processing then s.xbus else s.xbus.Shift(),
       eu := s.eu.(runner := Some(r), remaining := 0, processing := true))
  }

  lemma PoisedRuns(v: Variant, app: App, order: seq<Word>, s: Cpu, r: RunnerPc)
    requires !s.eu.pendingRead && Oldest(s) == Some((r, 1)) && Proceeds(s, r, 1) && !r.instr.Load?
    ensures ExecuteCycle(v, app, order, s) == RunNow(v, app, order, Poised(v, s, r), r, [])
  {
    hide RunNow, AssertBranch, ReadRegisters;
  }

  lemma PoisedIsReady(v: Variant, app: App, order: seq<Word>, s: Cpu, ref: Cached, r: RunnerPc)
    requires Inv(v, app, s, ref) && !s.eu.pendingRead && Oldest(s) == Some((r, 1)) && Proceeds(s, r, 1)
             && !r.instr.Load?
    requires OperandsSeen(s.regs, s.wbus, r.instr)
    ensures Ready(v, app, order, Poised(v, s, r), ref, [])
  {
    hide Upstream, SettledMemory, OperandsSeen;
    SeenReadsReference(r.instr, s.regs, s.wbus, ref.regs);
    Footprint.ReadsAreComplete(r.instr, NO_FORWARD, s.regs, NO_FORWARD, ref.regs, app.labels, r.pc, []);
    var t := if s.eu.processing then s else
      s.(xbus := s.xbus.Shift(), eu := s.eu.(runner := Some(r), remaining := 1, processing := true));
    if !s.eu.processing { TakeKeepsInv(v, app, s, ref, r, t); }
    AssertKeepsChain(v, app, t, ref.pc, r);
    BecomesReady(v, app, order, t, ref, Poised(v, s, r), []);
  }

  lemma ExecuteDeparts(v: Variant, app: App, order: seq<Word>, s: Cpu, ref: Cached)
    requires Inv(v, app, s, ref) && !Guard(v, app, order, s) && SeesOperands(s)
    ensures var (t, x) := ExecuteCycle(v, app, order, s); Departs(v, app, order, t, x, ref)
  {
    hide Inv, ResultFits, LineIsCurrent, RunNow, FinishRead, Departs, Poised;
    if s.eu.pendingRead {
      StaleLineDeparts(v, app, order, s, ref);
    } else {
      var r := Oldest(s).value.0;
      PoisedRuns(v, app, order, s, r);
      PoisedIsReady(v, app, order, s, ref, r);
      PoisedHolds(v, s, r);
      SameResultFits(v, app, order, Noted(v, s, r), Poised(v, s, r), r);
      RunDeparts(v, app, order, Poised(v, s, r), ref, []);
    }
  }

  lemma PoisedHolds(v: Variant, s: Cpu, r: RunnerPc)
    ensures var t := Poised(v, s, r);
            && t.eu.runner == Some(r) && t.regs == s.regs && t.wbus == s.wbus && t.wu == s.wu
            && t.bu == Noted(v, s, r).bu
            && t.l1d == s.l1d && t.memory == s.memory
  {
    hide AssertBranch;
  }

  // ---------------------------------------------------------------- the turn

  /** Retiring, one cycle or all of it, does not change what the registers will be. */
  lemma WriteSettles(s: Retiring)
    ensures var t := WriteCycle(s); t.Some? ==> Settled(t.value.regs, t.value.wbus) == Settled(s.regs, s.wbus)
  {
    hide DropNonPositive;
  }

  lemma {:induction false} DrainSettles(s: Retiring)
    requires s.wu.pendingWrite ==> s.wu.cycles > 0
    ensures var d := Drain(s); d.Some? ==> d.value.0.regs == Settled(s.regs, s.wbus)
    decreases Owed(s)
  {
    if !Drained(s) {
      WriteSettles(s);
      var t := WriteCycle(s);
      hide WriteCycle, Settled;
      if t.Some? {
        DrainSteps(s);
        DrainSettles(t.value);
      }
    }
  }

  lemma DrainSteps(s: Retiring)
    requires (s.wu.pendingWrite ==> s.wu.cycles > 0) && !Drained(s) && WriteCycle(s).Some?
    ensures var t := WriteCycle(s).value;
            && (t.wu.pendingWrite ==> t.wu.cycles > 0) && Owed(t) < Owed(s)
            && Drain(s) == (var d := Drain(t); if d.None? then None else Some((d.value.0, d.value.1 + 1)))
  {
    hide Retire;
  }

  lemma WriteSucceeds(s: Retiring, size: nat)
    requires (s.wbus.current.Some? ==> Proper(s.wbus.current.value, size)) && size == |s.memory|
    ensures WriteCycle(s).Some?
    ensures s.wu.pendingWrite ==> WriteCycle(s).value.regs == s.regs && WriteCycle(s).value.memory == s.memory
  {
    hide Retire;
  }

  lemma NotInStep(v: Variant, app: App, s: Cpu, ref: Cached)
    requires !SameRegs(Settled(s.regs, s.wbus), ref.regs) || !Chain(v, app, s, ref.pc)
             || (!s.eu.pendingRead && s.l1d != ref.lines)
    ensures !Inv(v, app, s, ref)
  {
    hide Settled, Chain;
  }

  lemma DepartureShows(v: Variant, app: App, order: seq<Word>, s: Cpu, ref: Cached, u: Cpu, x: Executed)
    requires Inv(v, app, s, ref) && Departs(v, app, order, u, x, ref)
    requires u.wbus.current.Some? ==> Proper(u.wbus.current.value, |u.memory|)
    ensures var w := WriteCycle(Retirement(u));
            w.Some? && !TurnFollows(v, app, order, s, ref, AfterWrite(v, WithRetirement(u, w.value), x))
  {
    hide StepCached, Chain, Settled, WriteCycle, Registers, Storage, Drain, Inv, Rank, Price, Flush;
    WriteSucceeds(Retirement(u), |u.memory|);
    WriteSettles(Retirement(u));
    var t := WithRetirement(u, WriteCycle(Retirement(u)).value);
    var step := StepCached(Dropping, app, order, ref);
    if step.CachedNext? {
      SameChain(v, app, u, t, step.next.pc);
      match x
      case Ran => NotInStep(v, app, t, step.next);
      case RanAndFlush(target) =>
        if !(t.wu.pendingWrite && t.wu.cycles <= 0) && Drain(Retirement(t)).Some? {
          DrainSettles(Retirement(t));
          FlushedShows(v, app, t, Drain(Retirement(t)).value.0, target, step.next);
        }
      case _ =>
    }
  }

  lemma SameChain(v: Variant, app: App, s: Cpu, t: Cpu, pc: int)
    requires t.eu == s.eu && t.xbus == s.xbus && t.fu == s.fu && t.dbus == s.dbus && t.blocked == s.blocked
    ensures Chain(v, app, t, pc) == Chain(v, app, s, pc)
  {
    hide Upstream, Downstream;
  }

  lemma FlushedShows(v: Variant, app: App, s: Cpu, d: Retiring, target: Word, ref: Cached)
    requires !SameRegs(d.regs, ref.regs) || (target == ref.pc && target >= 4 * |app.code|)
    ensures !Inv(v, app, Flush(v, WithRetirement(s, d), target), ref)
  {
    var next := Flush(v, WithRetirement(s, d), target);
    EmptyBusSettles(next.regs, next.memory, next.wbus);
    if target >= 4 * |app.code| { BehindIsNoChain(v, app, next, ref.pc); }
    NotInStep(v, app, next, ref);
    hide Settled, SettledMemory, Chain, Upstream;
  }

  /** The guard is exact: a turn whose instruction sees its operands follows the sequential core if and only if the
      state before it is guarded. */
  lemma GuardIsExact(v: Variant, app: App, order: seq<Word>, s: Cpu, ref: Cached)
    requires Inv(v, app, s, ref) && SeesOperands(s)
    ensures Guard(v, app, order, s) <==> TurnFollows(v, app, order, s, ref, CycleOnce(v, app, order, s))
  {
    hide Inv, Guard, TurnFollows, CycleOnce, SeesOperands;
    if Guard(v, app, order, s) {
      TurnIsFollowed(v, app, order, s, ref);
    } else {
      UnguardedDeparts(v, app, order, s, ref);
    }
  }

  lemma UnguardedDeparts(v: Variant, app: App, order: seq<Word>, s: Cpu, ref: Cached)
    requires Inv(v, app, s, ref) && SeesOperands(s) && !Guard(v, app, order, s)
    ensures !TurnFollows(v, app, order, s, ref, CycleOnce(v, app, order, s))
  {
    FetchDecodeKeepsInv(v, app, s, ref);
    if ref.pc <= -4 { BeforeTheProgram(v, app, order, s, ref); }
    var t := FetchDecode(v, app, s).value;
    FrontKeepsCurrent(v, app, s);
    SameGuard(v, app, order, s, t);
    assert SeesOperands(t) by { hide OperandsSeen, IsWriteHazard; }
    ExecuteDeparts(v, app, order, t, ref);
    ExecuteLeaves(v, app, order, t);
    var ux := ExecuteCycle(v, app, order, t);
    CycleUnfolds(v, app, order, s, t, ux.0, ux.1);
    CurrentIsProper(v, app, t, ref);
    hide FetchDecode, ExecuteCycle, Guard, AfterWrite, WriteCycle, StepCached, Chain, Registers, Storage, TurnFollows,
         CycleOnce, Proper;
    DepartureShows(v, app, order, s, ref, ux.0, ux.1);
    OnlyReturnsDepart(v, app, order, ux.0, ux.1, ref);
  }

  lemma OnlyReturnsDepart(v: Variant, app: App, order: seq<Word>, t: Cpu, x: Executed, ref: Cached)
    requires Departs(v, app, order, t, x, ref)
    ensures !(x.Stopped? && x.stop.Error?)
  {
  }

  lemma CurrentIsProper(v: Variant, app: App, s: Cpu, ref: Cached)
    requires Inv(v, app, s, ref)
    ensures s.wbus.current.Some? ==> Proper(s.wbus.current.value, |s.memory|)
  {
    hide Storage, Chain, Proper;
  }

  /** In front of the program nothing is in flight, and no guard is needed. */
  lemma BeforeTheProgram(v: Variant, app: App, order: seq<Word>, s: Cpu, ref: Cached)
    requires Inv(v, app, s, ref) && ref.pc <= -4
    ensures Guard(v, app, order, s)
  {
    hide Registers, Storage, Upstream, ResultFits, OperandsSeen;
  }
}
