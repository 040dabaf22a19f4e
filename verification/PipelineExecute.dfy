/** The execute unit runs what the sequential core would run next, and leaves what it would leave. */
module PipelineExecute {
  import opened Words
  import opened Isa
  import opened Cache
  import opened Mmu
  import opened Sequential
  import opened Pipeline
  import opened PipelineInvariant
  import opened PipelineGuard
  import opened PipelineRegisters
  import opened Footprint
  import Coherence

  // ---------------------------------------------------------------- running an instruction

  /** The instruction in the execute unit is the reference's next one, has its operands, and its result fits. */
  ghost predicate Ready(v: Variant, app: App, order: seq<Word>, s: Cpu, ref: Cached, bytes: seq<Byte>) {
    && Runnable(app) && WriteTimer(s.wu) && s.wbus.pending.None?
    && Registers(s.regs, s.pending, s.wbus, ref.regs, |s.memory|)
    && SettledMemory(s.memory, s.wbus) == ref.memory
    && s.eu.processing && !s.eu.pendingRead && s.eu.memory.None?
    && Chain(v, app, s, ref.pc) && FetchTimer(s.fu)
    && var r := s.eu.runner.value;
    && FetchOperands(ref.lines, ref.memory, MemoryRead(r.instr, NO_FORWARD, ref.regs))
       == Some(Loaded(bytes, s.l1d, ref.memory))
    && Run(r.instr, NO_FORWARD, s.regs, app.labels, r.pc, bytes)
       == Run(r.instr, NO_FORWARD, ref.regs, app.labels, r.pc, bytes)
  }

  /** The entry that the reference's next step puts on the write bus: none for a store into the L1D. */
  function StepEntry(app: App, order: seq<Word>, ref: Cached): Option<WriteEntry> {
    if !(0 <= Index(ref.pc) < |app.code|) then None else
      var i := app.code[Index(ref.pc)];
      match Run(i, NO_FORWARD, ref.regs, app.labels, ref.pc, LoadedBytes(ref, i))
      case Fail(_) => None
      case Ok(e) => if e.data != [] && LookUp(ref.lines, order, e).0.Some? then None else Some(Entry(i, e))
  }

  function LoadedBytes(ref: Cached, i: Instr): seq<Byte> {
    var l := FetchOperands(ref.lines, ref.memory, MemoryRead(i, NO_FORWARD, ref.regs));
    if l.Some? then l.value.bytes else []
  }

  function Sent(bus: Bus<WriteEntry>, w: Option<WriteEntry>): Bus<WriteEntry> {
    if w.Some? then bus.(pending := w) else bus
  }

  /** The state an instruction leaves when it changes the program flow. */
  ghost predicate Settling(v: Variant, app: App, s: Cpu, ref: Cached) {
    && Runnable(app) && WriteTimer(s.wu)
    && Registers(s.regs, s.pending, s.wbus, ref.regs, |s.memory|)
    && SettledMemory(s.memory, s.wbus) == ref.memory && s.l1d == ref.lines
    && !s.eu.processing && !s.eu.pendingRead && s.eu.memory.None?
    && ref.pc < 4 * |app.code|
    && (v == Mvp4 ==> !s.fu.toClean)
  }

  ghost predicate Stopping(s: Cpu, ref: Cached) {
    && s.wbus.pending.None? && SameRegs(Settled(s.regs, s.wbus), ref.regs)
    && SettledMemory(s.memory, s.wbus) == ref.memory
    && s.l1d == ref.lines && NothingStuck(s.regs, s.memory, s.wbus, s.wu)
    && (s.wbus.current.Some? ==> Proper(s.wbus.current.value, |s.memory|))
  }

  /** A step of the execute unit against a step of the sequential core. */
  ghost predicate Follows(v: Variant, app: App, order: seq<Word>, wbus: Bus<WriteEntry>, t: Cpu, x: Executed,
                          ref: Cached) {
    var step := StepCached(Dropping, app, order, ref);
    match x
    case Stalled => Inv(v, app, t, ref) && t.wbus == wbus
    case Ran => step.CachedNext? && Inv(v, app, t, step.next) && t.wbus == Sent(wbus, StepEntry(app, order, ref))
    case RanAndFlush(target) =>
      && step.CachedNext? && step.next.pc == target && Settling(v, app, t, step.next)
      && t.wbus == Sent(wbus, StepEntry(app, order, ref))
    case Stopped(stop) => stop != End && step == CachedStop(stop) && (stop == Return ==> Stopping(t, ref))
  }

  lemma ChainAdvances(v: Variant, app: App, s: Cpu, pc: int, t: Cpu)
    requires Runnable(app) && Chain(v, app, s, pc) && s.eu.processing
    requires v == Mvp5 ==> !IsJump(s.eu.runner)
    requires t.fu == s.fu && t.dbus == s.dbus && t.xbus == s.xbus && t.blocked == s.blocked && !t.eu.processing
    ensures Chain(v, app, t, pc + 4) && Wrap(pc + 4) == pc + 4
  {
    assert Downstream(v, app, t.eu, t.xbus, t.blocked, pc + 4);
    hide Downstream, Upstream;
    assert Decoded(t.eu, t.xbus) == Decoded(s.eu, s.xbus) - 1;
  }

  lemma ChainResolved(app: App, s: Cpu, pc: int, t: Cpu, dest: Word)
    requires Runnable(app) && Chain(Mvp5, app, s, pc) && s.eu.processing && IsJump(s.eu.runner)
    requires dest < 4 * |app.code|
    requires t.fu == Redirect(s.fu, dest) && t.xbus == s.xbus && !t.blocked && !t.eu.processing
    ensures Chain(Mvp5, app, t, dest)
  {
  }

  lemma SequentialStep(v: Variant, app: App, order: seq<Word>, s: Cpu, ref: Cached, bytes: seq<Byte>)
    requires Ready(v, app, order, s, ref, bytes)
    ensures s.eu.runner.Some?
    ensures var i := s.eu.runner.value.instr;
            && 0 <= Index(ref.pc) < |app.code| && i == app.code[Index(ref.pc)] && s.eu.runner.value.pc == ref.pc
            && -4 < ref.pc < 4 * |app.code| && bytes == LoadedBytes(ref, i)
            && StepCached(Dropping, app, order, ref)
               == Finish(Dropping, app, order, ref, i, Loaded(bytes, s.l1d, ref.memory))
  {
  }

  /** The reference after an instruction that does not store. */
  function Next(s: Cpu, ref: Cached, i: Instr, e: Execution): Cached {
    Cached(Written(Dropping, DirectWrite(i, ref.regs, ref.pc), i, e), NextPc(ref.pc, e), s.l1d, ref.memory)
  }

  lemma SequentialNext(v: Variant, app: App, order: seq<Word>, s: Cpu, ref: Cached, bytes: seq<Byte>, e: Execution)
    requires Ready(v, app, order, s, ref, bytes)
    requires Run(s.eu.runner.value.instr, NO_FORWARD, ref.regs, app.labels, ref.pc, bytes) == Ok(e) && !e.isReturn
             && e.data == []
    ensures StepCached(Dropping, app, order, ref) == CachedNext(Next(s, ref, s.eu.runner.value.instr, e))
    ensures StepEntry(app, order, ref) == Some(Entry(s.eu.runner.value.instr, e))
  {
    SequentialStep(v, app, order, s, ref, bytes);
    hide Run, StepCached;
  }

  /** What Send leaves, spelled out. */
  lemma SendEffect(v: Variant, s: Cpu, r: RunnerPc, e: Execution)
    ensures var (t, x) := Send(v, s, r, e);
            && t.wbus == s.wbus.(pending := Some(Entry(r.instr, e)))
            && t.pending == AddAll(s.pending, WriteRegisters(r.instr))
            && t.regs == s.regs && t.memory == s.memory && t.l1d == s.l1d && t.wu == s.wu && t.eu == s.eu
            && t.xbus == s.xbus && t.dbus == s.dbus
            && (if v == Mvp5 && IsUnconditionalBranch(r.instr) then t.fu == Redirect(s.fu, e.nextPc) && !t.blocked
                else t.fu == s.fu && t.blocked == s.blocked)
            && x == (if e.pcChange && s.bu.toCheck && s.bu.expectation != e.nextPc then RanAndFlush(e.nextPc) else Ran)
  {
  }

  /** The execute unit is free again and the chain starts at the next instruction. */
  lemma SendKeepsChain(v: Variant, app: App, s: Cpu, pc: int, r: RunnerPc, e: Execution, t: Cpu)
    requires Runnable(app) && Chain(v, app, s, pc) && s.eu.processing && s.eu.runner == Some(r)
    requires e.pcChange ==> Lands(v, app, s.bu, r, e)
    requires IsUnconditionalBranch(r.instr) ==> e.pcChange
    requires !(e.pcChange && s.bu.toCheck && s.bu.expectation != e.nextPc)
    requires t.xbus == s.xbus && t.dbus == s.dbus && !t.eu.processing
    requires if v == Mvp5 && IsUnconditionalBranch(r.instr) then t.fu == Redirect(s.fu, e.nextPc) && !t.blocked
             else t.fu == s.fu && t.blocked == s.blocked
    ensures Chain(v, app, t, NextPc(r.pc, e))
  {
    assert r.pc == pc;
    hide Downstream, Upstream;
    if v == Mvp5 && IsUnconditionalBranch(r.instr) {
      ChainResolved(app, s, pc, t, e.nextPc);
    } else {
      ChainAdvances(v, app, s, pc, t);
    }
  }

  /** A write to a register, or nothing, joins the queue: memory will be the same. */
  lemma SendKeepsMemory(memory: Memory, bus: Bus<WriteEntry>, w: WriteEntry)
    requires bus.pending.None?
    ensures SettledMemory(memory, bus.(pending := Some(w))) == Landed(SettledMemory(memory, bus), w)
  {
  }

  lemma SendFollows(v: Variant, app: App, order: seq<Word>, s: Cpu, ref: Cached, bytes: seq<Byte>, e: Execution,
                    s1: Cpu)
    requires Ready(v, app, order, s, ref, bytes) && Fits(v, app, order, s, s.eu.runner.value, e)
    requires var r := s.eu.runner.value;
             && Run(r.instr, NO_FORWARD, ref.regs, app.labels, ref.pc, bytes) == Ok(e) && !e.isReturn && e.data == []
             && s1 == s.(regs := DirectWrite(r.instr, s.regs, r.pc), eu := s1.eu)
             && !s1.eu.processing && !s1.eu.pendingRead && s1.eu.memory.None?
    ensures var (t, x) := Send(v, s1, s.eu.runner.value, e); Follows(v, app, order, s.wbus, t, x, ref)
  {
    var r := s.eu.runner.value;
    var (t, x) := Send(v, s1, r, e);
    SequentialNext(v, app, order, s, ref, bytes, e);
    SequentialStep(v, app, order, s, ref, bytes);
    EntryIsProper(r.instr, FirstOperand(r.instr, NO_FORWARD, ref.regs), SecondOperand(r.instr, NO_FORWARD, ref.regs),
                  app.labels, ref.pc, bytes, e);
    SendEffect(v, s1, r, e);
    SendKeepsRegisters(r.instr, e, s.regs, s.pending, s.wbus, ref.pc, ref.regs, |s.memory|);
    SendKeepsMemory(s.memory, s.wbus, Entry(r.instr, e));
    hide Run, StepCached, StepEntry, Registers, Send, Compute;
    if x == Ran {
      SendKeepsChain(v, app, s, ref.pc, r, e, t);
    }
  }

  lemma StoreData(i: Instr, x: Word, y: Word, labels: map<string, Word>, pc: Word, bytes: seq<Byte>, e: Execution)
    requires Compute(i, x, y, labels, pc, bytes) == Ok(e)
    ensures e.data != [] <==> i.Store?
    ensures i.Store? ==> !e.registerChange && !e.pcChange && !e.isReturn && WriteRegisters(i) == []
    ensures e.isReturn ==> i.Ret?
  {
  }

  lemma SequentialStore(v: Variant, app: App, order: seq<Word>, s: Cpu, ref: Cached, bytes: seq<Byte>, e: Execution)
    requires Ready(v, app, order, s, ref, bytes)
    requires var r := s.eu.runner.value;
             r.instr.Store? && Run(r.instr, NO_FORWARD, ref.regs, app.labels, ref.pc, bytes) == Ok(e)
    ensures s.l1d == ref.lines && e.data != [] && !e.registerChange && !e.pcChange && !e.isReturn
    ensures StepEntry(app, order, ref) == if LookUp(s.l1d, order, e).0.Some? then None
            else Some(Entry(s.eu.runner.value.instr, e))
    ensures StepCached(Dropping, app, order, ref)
         == match StoreThrough(s.l1d, ref.memory, order, e)
            case None => CachedStop(Error(BadAddress))
            case Some(st) => CachedNext(Cached(ref.regs, Wrap(ref.pc + 4), st.lines, st.memory))
  {
    var i := s.eu.runner.value.instr;
    SequentialStep(v, app, order, s, ref, bytes);
    StoreData(i, FirstOperand(i, NO_FORWARD, ref.regs), SecondOperand(i, NO_FORWARD, ref.regs), app.labels, ref.pc,
              bytes, e);
    hide StepCached, StoreThrough, LookUp, Compute, Chain, Registers;
    assert bytes == [];
  }

  lemma DeliverStore(v: Variant, order: seq<Word>, s: Cpu, r: RunnerPc, e: Execution)
    requires e.data != [] && LookUp(s.l1d, order, e).0.Some?
    ensures var l1d := LookUp(s.l1d, order, e).1;
            var w := WriteTo(l1d, e.address, e.data);
            Deliver(v, order, s, r, e)
            == if w.None? then (s.(l1d := l1d), Stopped(Error(BadAddress))) else (s.(l1d := w.value), Ran)
  {
  }

  lemma StoreKeepsInv(v: Variant, app: App, s: Cpu, ref: Cached, t: Cpu)
    requires Runnable(app) && WriteTimer(s.wu) && Registers(s.regs, s.pending, s.wbus, ref.regs, |s.memory|)
    requires Chain(v, app, s, ref.pc) && FetchTimer(s.fu) && s.eu.processing && !IsJump(s.eu.runner)
    requires SettledMemory(s.memory, s.wbus) == ref.memory
    requires t.fu == s.fu && t.dbus == s.dbus && t.xbus == s.xbus && t.blocked == s.blocked && t.wbus == s.wbus
    requires t.wu == s.wu && t.regs == s.regs && t.pending == s.pending && t.memory == s.memory
    requires !t.eu.processing && !t.eu.pendingRead && t.eu.memory.None?
    ensures Inv(v, app, t, Cached(ref.regs, Wrap(ref.pc + 4), t.l1d, ref.memory))
  {
    ChainAdvances(v, app, s, ref.pc, t);
  }

  lemma StoreKeepsRegisters(regs: Regs, pending: Pending, bus: Bus<WriteEntry>, refRegs: Regs, size: nat, i: Instr,
                            e: Execution)
    requires Registers(regs, pending, bus, refRegs, size) && bus.pending.None?
    requires i.Store? && !e.registerChange && 0 <= e.address && e.address + |e.data| <= size
    ensures Registers(regs, AddAll(pending, WriteRegisters(i)), bus.(pending := Some(Entry(i, e))), refRegs, size)
  {
    AddNone(pending);
    var bus1 := bus.(pending := Some(Entry(i, e)));
    forall r: Reg | r != ZERO ensures Count(pending, r) == WritersOf(bus1, r) {
      assert Count(pending, r) == WritersOf(bus, r);
    }
  }

  lemma DeliverMiss(v: Variant, order: seq<Word>, s: Cpu, r: RunnerPc, e: Execution)
    requires e.data != [] && LookUp(s.l1d, order, e).0.None? && !e.pcChange && r.instr.Store?
    ensures Deliver(v, order, s, r, e)
         == (s.(l1d := LookUp(s.l1d, order, e).1, wbus := s.wbus.(pending := Some(Entry(r.instr, e))),
                pending := AddAll(s.pending, WriteRegisters(r.instr))), Ran)
  {
    hide LookUp;
  }

  lemma MissedStoreKeepsInv(v: Variant, app: App, s: Cpu, ref: Cached, r: RunnerPc, e: Execution, t: Cpu)
    requires Runnable(app) && WriteTimer(s.wu) && Registers(s.regs, s.pending, s.wbus, ref.regs, |s.memory|)
    requires Chain(v, app, s, ref.pc) && FetchTimer(s.fu) && s.eu.processing && s.eu.runner == Some(r) && r.instr.Store?
    requires SettledMemory(s.memory, s.wbus) == ref.memory && s.wbus.pending.None?
    requires !e.registerChange && e.data != [] && Inside(s.memory, e)
    requires t.fu == s.fu && t.dbus == s.dbus && t.xbus == s.xbus && t.blocked == s.blocked
    requires t.wbus == s.wbus.(pending := Some(Entry(r.instr, e)))
             && t.pending == AddAll(s.pending, WriteRegisters(r.instr))
    requires t.wu == s.wu && t.regs == s.regs && t.memory == s.memory
    requires !t.eu.processing && !t.eu.pendingRead && t.eu.memory.None?
    ensures Inv(v, app, t, Cached(ref.regs, Wrap(ref.pc + 4), t.l1d, WriteTruncated(ref.memory, e.address, e.data)))
  {
    SendKeepsMemory(s.memory, s.wbus, Entry(r.instr, e));
    StoreKeepsRegisters(s.regs, s.pending, s.wbus, ref.regs, |s.memory|, r.instr, e);
    ChainAdvances(v, app, s, ref.pc, t);
    hide Registers, SettledMemory, Chain, AddAll, WriteRegisters;
  }

  /** A store past the L1D goes to the write bus. */
  lemma MissedStoreFollows(v: Variant, app: App, order: seq<Word>, s: Cpu, ref: Cached, bytes: seq<Byte>, e: Execution,
                           s1: Cpu)
    requires Ready(v, app, order, s, ref, bytes)
    requires var r := s.eu.runner.value;
             && r.instr.Store? && Run(r.instr, NO_FORWARD, ref.regs, app.labels, ref.pc, bytes) == Ok(e)
             && s1 == s.(regs := s.regs, eu := s1.eu)
             && !s1.eu.processing && !s1.eu.pendingRead && s1.eu.memory.None?
    requires LookUp(s.l1d, order, e).0.None? && Inside(s.memory, e)
    ensures var (t, x) := Deliver(v, order, s1, s.eu.runner.value, e);
            x == Ran && Follows(v, app, order, s.wbus, t, x, ref)
  {
    hide Run, Compute, LookUp, StepCached, StepEntry, WriteTo, StoreThrough, Chain, Registers, SettledMemory, Deliver,
         Inv, FetchOperands, MemoryRead;
    SequentialStep(v, app, order, s, ref, bytes);
    SequentialStore(v, app, order, s, ref, bytes, e);
    var r := s.eu.runner.value;
    DeliverMiss(v, order, s1, r, e);
    MissedStoreStep(order, s.l1d, ref.memory, e);
    MissedStoreKeepsInv(v, app, s, ref, r, e, Deliver(v, order, s1, r, e).0);
  }

  lemma MissedStoreStep(order: seq<Word>, lines: seq<Line>, memory: Memory, e: Execution)
    requires LookUp(lines, order, e).0.None? && 0 <= e.address && e.address + |e.data| <= |memory|
    ensures StoreThrough(lines, memory, order, e)
         == Some(Stored(false, LookUp(lines, order, e).1, WriteTruncated(memory, e.address, e.data)))
  {
    hide LookUp;
  }

  /** A store that hits is over at once, in the L1D of both cores. */
  lemma HitStoreFollows(v: Variant, app: App, order: seq<Word>, s: Cpu, ref: Cached, bytes: seq<Byte>, e: Execution,
                        s1: Cpu)
    requires Ready(v, app, order, s, ref, bytes)
    requires var r := s.eu.runner.value;
             && r.instr.Store? && Run(r.instr, NO_FORWARD, ref.regs, app.labels, ref.pc, bytes) == Ok(e)
             && s1 == s.(regs := s.regs, eu := s1.eu)
             && !s1.eu.processing && !s1.eu.pendingRead && s1.eu.memory.None?
    requires LookUp(s.l1d, order, e).0.Some?
    ensures var (t, x) := Deliver(v, order, s1, s.eu.runner.value, e);
            x != Stalled && Follows(v, app, order, s.wbus, t, x, ref)
  {
    hide Run, Compute, LookUp, StepCached, StepEntry, WriteTo, Chain, Registers, SettledMemory, Deliver, Inv,
         FetchOperands, MemoryRead;
    SequentialStep(v, app, order, s, ref, bytes);
    SequentialStore(v, app, order, s, ref, bytes, e);
    DeliverStore(v, order, s1, s.eu.runner.value, e);
    var w := WriteTo(LookUp(s.l1d, order, e).1, e.address, e.data);
    if w.Some? { StoreKeepsInv(v, app, s, ref, s1.(l1d := w.value)); }
  }

  /** A store, either way. */
  lemma StoreFollows(v: Variant, app: App, order: seq<Word>, s: Cpu, ref: Cached, bytes: seq<Byte>, e: Execution,
                     s1: Cpu)
    requires Ready(v, app, order, s, ref, bytes) && Fits(v, app, order, s, s.eu.runner.value, e)
    requires var r := s.eu.runner.value;
             && r.instr.Store? && Run(r.instr, NO_FORWARD, ref.regs, app.labels, ref.pc, bytes) == Ok(e)
             && s1 == s.(regs := s.regs, eu := s1.eu)
             && !s1.eu.processing && !s1.eu.pendingRead && s1.eu.memory.None?
    ensures var (t, x) := Deliver(v, order, s1, s.eu.runner.value, e);
            x != Stalled && Follows(v, app, order, s.wbus, t, x, ref)
  {
    hide Ready, Run, LookUp, Deliver, Follows, RaInOrder, NothingStuck, Lands, Inside;
    SequentialStore(v, app, order, s, ref, bytes, e);
    if LookUp(s.l1d, order, e).0.Some? {
      HitStoreFollows(v, app, order, s, ref, bytes, e, s1);
    } else {
      MissedStoreFollows(v, app, order, s, ref, bytes, e, s1);
    }
  }

  lemma RunFollows(v: Variant, app: App, order: seq<Word>, s: Cpu, ref: Cached, bytes: seq<Byte>)
    requires Ready(v, app, order, s, ref, bytes) && ResultFits(v, app, order, s, s.eu.runner.value, bytes)
    ensures var (t, x) := RunNow(v, app, order, s, s.eu.runner.value, bytes);
            x != Stalled && Follows(v, app, order, s.wbus, t, x, ref)
  {
    var r := s.eu.runner.value;
    var out := Run(r.instr, NO_FORWARD, ref.regs, app.labels, ref.pc, bytes);
    SequentialStep(v, app, order, s, ref, bytes);
    hide StepCached, StepEntry, Chain, Run, Fits, LookUp;
    if out.Ok? {
      var e := out.value;
      StoreData(r.instr, FirstOperand(r.instr, NO_FORWARD, ref.regs), SecondOperand(r.instr, NO_FORWARD, ref.regs),
                app.labels, ref.pc, bytes, e);
      var s1 := s.(regs := DirectWrite(r.instr, s.regs, r.pc), eu := s.eu.(runner := None, processing := false));
      if e.isReturn {
        ReturnStops(v, app, order, s, ref, bytes, e);
      } else if r.instr.Store? {
        StoreFollows(v, app, order, s, ref, bytes, e, s1);
      } else {
        SendFollows(v, app, order, s, ref, bytes, e, s1);
      }
    }
  }

  lemma ReturnStops(v: Variant, app: App, order: seq<Word>, s: Cpu, ref: Cached, bytes: seq<Byte>, e: Execution)
    requires Ready(v, app, order, s, ref, bytes) && Fits(v, app, order, s, s.eu.runner.value, e)
    requires var r := s.eu.runner.value;
             Run(r.instr, NO_FORWARD, ref.regs, app.labels, ref.pc, bytes) == Ok(e) && e.isReturn && r.instr.Ret?
    ensures var (t, x) := RunNow(v, app, order, s, s.eu.runner.value, bytes);
            x == Stopped(Return) && Follows(v, app, order, s.wbus, t, x, ref)
  {
    SequentialStep(v, app, order, s, ref, bytes);
    hide StepCached, Chain;
  }

  // ---------------------------------------------------------------- the execute unit

  /** A stalled cycle brings the oldest instruction closer, or leaves queued writes to wait for. */
  ghost predicate Closer(s: Cpu, t: Cpu)
    requires FetchTimer(s.fu) && ExecuteTimer(s.eu) && WriteTimer(s.wu) && FetchTimer(t.fu) && ExecuteTimer(t.eu)
  {
    t.wu == s.wu && (Distance(t) < Distance(s) || (Distance(t) == Distance(s) && Backlog(s.wu, s.wbus) > 0))
  }

  lemma AssertKeepsChain(v: Variant, app: App, s: Cpu, pc: int, r: RunnerPc)
    requires Runnable(app) && Chain(v, app, s, pc) && FetchTimer(s.fu) && s.eu.processing && s.eu.runner == Some(r)
    ensures var (bu, fu) := AssertBranch(v, s.bu, s.fu, r);
            && FetchTimer(fu) && (fu == s.fu || s.blocked)
  {
  }

  /** The operands are fetched, and the instruction has them. */
  lemma BecomesReady(v: Variant, app: App, order: seq<Word>, s: Cpu, ref: Cached, t: Cpu, bytes: seq<Byte>)
    requires Inv(v, app, s, ref) && s.wbus.pending.None? && s.eu.processing
    requires t == s.(bu := t.bu, fu := t.fu, eu := t.eu, l1d := t.l1d)
    requires t.eu.processing && !t.eu.pendingRead && t.eu.memory.None? && t.eu.runner == s.eu.runner
    requires FetchTimer(t.fu) && (t.fu == s.fu || s.blocked)
    requires var i := s.eu.runner.value.instr;
             && FetchOperands(ref.lines, ref.memory, MemoryRead(i, NO_FORWARD, ref.regs))
                == Some(Loaded(bytes, t.l1d, ref.memory))
             && Run(i, NO_FORWARD, s.regs, app.labels, ref.pc, bytes)
                == Run(i, NO_FORWARD, ref.regs, app.labels, ref.pc, bytes)
    ensures Ready(v, app, order, t, ref, bytes)
  {
    hide StepCached, Run, Registers, FetchOperands, SettledMemory;
  }

  lemma NothingPendingKeepsInv(v: Variant, app: App, s: Cpu, ref: Cached, t: Cpu)
    requires Inv(v, app, s, ref) && s.eu.processing
    requires t == s.(bu := t.bu, fu := t.fu, eu := t.eu, l1d := t.l1d)
    requires t.eu.processing && t.eu.runner == s.eu.runner && ExecuteTimer(t.eu)
    requires FetchTimer(t.fu) && (t.fu == s.fu || s.blocked)
    requires Storage(t.eu, t.l1d, t.memory, t.wbus, ref) && (t.eu.pendingRead ==> t.wbus.pending.None?)
    ensures Inv(v, app, t, ref)
  {
    hide Registers, Storage;
  }

  lemma HazardHasWriter(i: Instr, regs: Regs, pending: Pending, bus: Bus<WriteEntry>, refRegs: Regs, size: nat)
    requires Registers(regs, pending, bus, refRegs, size)
    requires IsWriteHazard(pending, ReadRegisters(i))
    ensures bus.current.Some? || bus.pending.Some?
  {
  }

  lemma PrepareFollows(v: Variant, app: App, order: seq<Word>, s: Cpu, ref: Cached)
    requires Inv(v, app, s, ref) && Guard(v, app, order, s)
    requires s.eu.processing && !s.eu.pendingRead
    ensures var (t, x) := Prepare(v, app, order, s);
            Follows(v, app, order, s.wbus, t, x, ref) && (x == Stalled ==> Closer(s, t))
  {
    hide RunNow, Compute, StepCached, StepEntry, Registers, Upstream, ResultFits, OperandsSeen, SettledMemory, Sent;
    var r := s.eu.runner.value;
    if s.eu.remaining != 1 {
      NothingPendingKeepsInv(v, app, s, ref, s.(eu := s.eu.(remaining := s.eu.remaining - 1)));
    } else if s.wbus.pending.None? {
      AssertKeepsChain(v, app, s, ref.pc, r);
      var (bu, fu) := AssertBranch(v, s.bu, s.fu, r);
      var s1 := s.(bu := bu, fu := fu);
      if IsWriteHazard(s.pending, ReadRegisters(r.instr)) {
        HazardHasWriter(r.instr, s.regs, s.pending, s.wbus, ref.regs, |s.memory|);
        NothingPendingKeepsInv(v, app, s, ref, s1);
      } else {
        ProceedFollows(v, app, order, s, ref, s1);
      }
    }
  }

  /** The instruction has passed the scoreboard: it starts its load or runs. */
  lemma ProceedFollows(v: Variant, app: App, order: seq<Word>, s: Cpu, ref: Cached, s1: Cpu)
    requires Inv(v, app, s, ref) && Guard(v, app, order, s)
    requires s.eu.processing && !s.eu.pendingRead && s.eu.remaining == 1 && s.wbus.pending.None?
    requires var r := s.eu.runner.value;
             && !IsWriteHazard(s.pending, ReadRegisters(r.instr))
             && s1 == s.(bu := AssertBranch(v, s.bu, s.fu, r).0, fu := s1.fu)
             && FetchTimer(s1.fu) && (s1.fu == s.fu || s.blocked)
    ensures var (t, x) := WhenReady(v, app, order, s1, s.eu.runner.value);
            Follows(v, app, order, s.wbus, t, x, ref) && (x == Stalled ==> Closer(s, t))
  {
    hide RunNow, Compute, StepCached, StepEntry, Upstream, OperandsSeen, Sent, AssertBranch;
    var r := s.eu.runner.value;
    SeenReadsReference(r.instr, s.regs, s.wbus, ref.regs);
    ReadsAreComplete(r.instr, NO_FORWARD, s.regs, NO_FORWARD, ref.regs, app.labels, r.pc, []);
    hide Registers, SettledMemory, ReadRegisters;
    var addrs := MemoryRead(r.instr, NO_FORWARD, s.regs);
    if addrs == [] {
      var s2 := s1.(eu := s1.eu.(remaining := 0));
      BecomesReady(v, app, order, s, ref, s2, []);
      SameResultFits(v, app, order, Noted(v, s, r), s2, r);
      hide ResultFits;
      RunFollows(v, app, order, s2, ref, []);
    } else {
      NothingPendingKeepsInv(v, app, s, ref, StartRead(s1, addrs));
    }
  }

  lemma SameResultFits(v: Variant, app: App, order: seq<Word>, s: Cpu, t: Cpu, r: RunnerPc)
    requires t.regs == s.regs && t.wbus == s.wbus && t.wu == s.wu && t.bu == s.bu && t.l1d == s.l1d
             && t.memory == s.memory
    ensures ResultFits(v, app, order, t, r, []) == ResultFits(v, app, order, s, r, [])
  {
    hide Run, LookUp, Lands, NothingStuck, RaInOrder;
  }

  // ---------------------------------------------------------------- loads

  lemma LoadReadsNothing(i: Instr, a: Regs, b: Regs, labels: map<string, Word>, pc: Word, bytes: seq<Byte>)
    ensures i.Load? ==> Run(i, NO_FORWARD, a, labels, pc, bytes) == Run(i, NO_FORWARD, b, labels, pc, bytes)
  {
  }

  lemma LoadFits(v: Variant, app: App, order: seq<Word>, s: Cpu, r: RunnerPc, bytes: seq<Byte>)
    requires r.instr.Load?
    ensures ResultFits(v, app, order, s, r, bytes)
  {
    var out := Run(r.instr, NO_FORWARD, s.regs, app.labels, r.pc, bytes);
    if out.Ok? {
      EntryIsProper(r.instr, FirstOperand(r.instr, NO_FORWARD, s.regs), SecondOperand(r.instr, NO_FORWARD, s.regs),
                    app.labels, r.pc, bytes, out.value);
    }
    hide Compute, LookUp;
  }

  /** A miss leaves memory as it was, and depends on memory only through the line it fetches. */
  lemma MissReadsOneLine(lines: seq<Line>, a: Memory, b: Memory, addrs: seq<Word>)
    requires |addrs| > 0
    ensures LoadMiss(lines, a, addrs).Some? ==> addrs[0] >= 0 && LoadMiss(lines, a, addrs).value.memory == a
    ensures addrs[0] >= 0 && FetchLine(a, addrs[0]) == FetchLine(b, addrs[0]) ==>
      match LoadMiss(lines, a, addrs)
      case None => LoadMiss(lines, b, addrs).None?
      case Some(l) => LoadMiss(lines, b, addrs) == Some(Loaded(l.bytes, l.lines, b))
  {
    hide GetAll, Push;
    if addrs[0] >= 0 {
      Coherence.WritingBackIncomingIsIdle(a, addrs[0]);
      Coherence.WritingBackIncomingIsIdle(b, addrs[0]);
    }
  }

  /** Lines for the same addresses, with whatever bytes. */
  ghost predicate SameShape(a: seq<Line>, b: seq<Line>) {
    |a| == |b| && forall k :: 0 <= k < |a| ==> a[k].lo == b[k].lo && a[k].hi == b[k].hi
  }

  lemma {:induction false} SameShapeFinds(a: seq<Line>, b: seq<Line>, x: Word)
    requires SameShape(a, b)
    ensures Find(a, x) == Find(b, x)
  {
    if a != [] && !Covers(a[0], x) { SameShapeFinds(a[1..], b[1..], x); }
  }

  lemma SameMove(a: seq<Line>, b: seq<Line>, i: nat)
    requires SameShape(a, b) && i < |a|
    ensures SameShape(ToFront(a, i), ToFront(b, i))
    ensures ToFront(a, i) == ToFront(b, i) <==> a == b
  {
    var a1, b1 := ToFront(a, i), ToFront(b, i);
    if a1 == b1 {
      forall k | 0 <= k < |a| ensures a[k] == b[k] {
        var j := if k == i then 0 else if k < i then k + 1 else k;
        assert a1[j] == a[k] && b1[j] == b[k];
      }
    }
  }

  /** Reading moves lines of the same shape alike, so the bytes tell them apart before and after. */
  lemma {:induction false} SameShapeReads(a: seq<Line>, b: seq<Line>, addrs: seq<Word>)
    requires SameShape(a, b)
    ensures var (x, a1), (y, b1) := GetAll(a, addrs), GetAll(b, addrs);
            (x.Some? <==> y.Some?) && (a1 == b1 <==> a == b)
    decreases |addrs|
  {
    if addrs != [] {
      SameShapeFinds(a, b, addrs[0]);
      var i := Find(a, addrs[0]);
      if i < |a| {
        SameMove(a, b, i);
        SameShapeReads(ToFront(a, i), ToFront(b, i), addrs[1..]);
      }
    }
  }

  /** Whether a miss is served does not depend on memory; the lines it leaves tell the line that was fetched. */
  lemma MissTellsLine(lines: seq<Line>, a: Memory, b: Memory, addrs: seq<Word>)
    requires |addrs| > 0
    ensures LoadMiss(lines, a, addrs).Some? <==> LoadMiss(lines, b, addrs).Some?
    ensures LoadMiss(lines, a, addrs).Some? ==> addrs[0] >= 0
    ensures LoadMiss(lines, a, addrs).Some?
            && LoadMiss(lines, a, addrs).value.lines == LoadMiss(lines, b, addrs).value.lines
        ==> FetchLine(a, addrs[0]) == FetchLine(b, addrs[0])
  {
    if addrs[0] >= 0 {
      var la := Line(addrs[0], Wrap(addrs[0] + LINE_LENGTH), FetchLine(a, addrs[0]));
      var lb := Line(addrs[0], Wrap(addrs[0] + LINE_LENGTH), FetchLine(b, addrs[0]));
      var pa, pb := Push(lines, NUMBER_OF_LINES, la), Push(lines, NUMBER_OF_LINES, lb);
      assert pa[0] == la && pb[0] == lb;
      SameShapeReads(pa, pb, addrs);
      hide GetAll, FetchLine;
    }
  }

  /** A load finishes with what the reference fetches. */
  lemma FinishReadUnfolds(v: Variant, app: App, order: seq<Word>, s: Cpu, ref: Cached)
    requires Inv(v, app, s, ref) && s.eu.pendingRead && LineIsCurrent(s)
    ensures s.eu.runner.Some? && s.eu.runner.value.instr.Load?
    ensures var r := s.eu.runner.value;
            var l := FetchOperands(ref.lines, ref.memory, MemoryRead(r.instr, NO_FORWARD, ref.regs));
            var s1 := s.(eu := s.eu.(remaining := 0, pendingRead := false));
            && FinishRead(v, app, order, s)
               == (if l.None? then (s1, Stopped(Error(BadAddress)))
                   else RunNow(v, app, order, s1.(eu := s1.eu.(memory := None), l1d := l.value.lines), r,
                               l.value.bytes))
            && (l.Some? ==> l.value.memory == ref.memory)
  {
    var addrs := MemoryRead(s.eu.runner.value.instr, NO_FORWARD, ref.regs);
    if s.eu.memory.None? {
      MissReadsOneLine(s.l1d, s.memory, ref.memory, addrs);
      MissTellsLine(s.l1d, s.memory, ref.memory, addrs);
    }
    hide RunNow, Registers, Chain, LoadMiss, GetAll, SettledMemory, FetchLine;
  }

  lemma FinishReadFollows(v: Variant, app: App, order: seq<Word>, s: Cpu, ref: Cached)
    requires Inv(v, app, s, ref) && LineIsCurrent(s)
    requires s.eu.pendingRead && s.eu.remaining == 1
    ensures var (t, x) := FinishRead(v, app, order, s); x != Stalled && Follows(v, app, order, s.wbus, t, x, ref)
  {
    hide RunNow, Run, StepCached, Registers, Chain, FinishRead, FetchOperands, Storage, ResultFits, LineIsCurrent,
         SettledMemory;
    FinishReadUnfolds(v, app, order, s, ref);
    var r := s.eu.runner.value;
    var l := FetchOperands(ref.lines, ref.memory, MemoryRead(r.instr, NO_FORWARD, ref.regs));
    LoadReadsNothing(r.instr, s.regs, ref.regs, app.labels, ref.pc, if l.Some? then l.value.bytes else []);
    if l.Some? {
      var t := s.(eu := s.eu.(remaining := 0, pendingRead := false, memory := None), l1d := l.value.lines);
      BecomesReady(v, app, order, s, ref, t, l.value.bytes);
      LoadFits(v, app, order, t, r, l.value.bytes);
      RunFollows(v, app, order, t, ref, l.value.bytes);
    } else {
      FetchFails(v, app, order, s, ref);
    }
  }

  lemma FetchFails(v: Variant, app: App, order: seq<Word>, s: Cpu, ref: Cached)
    requires Inv(v, app, s, ref) && s.eu.processing && s.eu.runner.Some?
    requires FetchOperands(ref.lines, ref.memory, MemoryRead(s.eu.runner.value.instr, NO_FORWARD, ref.regs)).None?
    ensures StepCached(Dropping, app, order, ref) == CachedStop(Error(BadAddress))
  {
    hide Finish, FetchOperands, Registers, Storage, Upstream;
  }

  // ---------------------------------------------------------------- a cycle of the execute unit

  lemma TakeKeepsInv(v: Variant, app: App, s: Cpu, ref: Cached, r: RunnerPc, t: Cpu)
    requires Inv(v, app, s, ref) && !s.eu.processing && s.xbus.current == Some(r)
    requires t == s.(xbus := s.xbus.Shift(),
                     eu := s.eu.(runner := Some(r), remaining := Cycles(r.instr), processing := true))
    ensures Inv(v, app, t, ref) && Distance(t) <= 101
  {
    hide Registers, SettledMemory;
  }

  lemma IdleKeepsInv(v: Variant, app: App, s: Cpu, ref: Cached, t: Cpu)
    requires Inv(v, app, s, ref) && !s.eu.processing && s.xbus.current.None?
    requires t == s.(xbus := s.xbus.Shift())
    ensures Inv(v, app, t, ref)
    ensures if Decoded(s.eu, s.xbus) > 0 then Closer(s, t) else Distance(t) == Distance(s)
  {
    hide Registers, SettledMemory;
  }

  /** What a cycle of the execute unit that runs nothing does to the way left. */
  ghost predicate Approaches(s: Cpu, t: Cpu)
    requires FetchTimer(s.fu) && ExecuteTimer(s.eu) && WriteTimer(s.wu) && FetchTimer(t.fu) && ExecuteTimer(t.eu)
  {
    if Decoded(s.eu, s.xbus) > 0 then Closer(s, t) else t.wu == s.wu && Distance(t) == Distance(s)
  }

  lemma ReadFollows(v: Variant, app: App, order: seq<Word>, s: Cpu, ref: Cached)
    requires Inv(v, app, s, ref) && Guard(v, app, order, s) && s.eu.pendingRead
    ensures var (t, x) := ExecuteCycle(v, app, order, s);
            Follows(v, app, order, s.wbus, t, x, ref) && (x == Stalled ==> Approaches(s, t))
  {
    hide FinishRead, StepCached, StepEntry, Registers, Chain, LineIsCurrent, SettledMemory;
    if s.eu.remaining != 1 {
      NothingPendingKeepsInv(v, app, s, ref, s.(eu := s.eu.(remaining := s.eu.remaining - 1)));
    } else {
      FinishReadFollows(v, app, order, s, ref);
    }
  }

  lemma TakeFollows(v: Variant, app: App, order: seq<Word>, s: Cpu, ref: Cached)
    requires Inv(v, app, s, ref) && Guard(v, app, order, s)
    requires !s.eu.processing && s.xbus.current.Some?
    ensures var (t, x) := ExecuteCycle(v, app, order, s);
            Follows(v, app, order, s.wbus, t, x, ref) && (x == Stalled ==> Approaches(s, t))
  {
    hide StepCached, StepEntry, Registers, OperandsSeen, SettledMemory, Prepare, ResultFits, Chain;
    var r := s.xbus.current.value;
    var t := s.(xbus := s.xbus.Shift(),
                eu := s.eu.(runner := Some(r), remaining := Cycles(r.instr), processing := true));
    TakeKeepsInv(v, app, s, ref, r, t);
    SameResultFits(v, app, order, Noted(v, s, r), Noted(v, t, r), r);
    PrepareFollows(v, app, order, t, ref);
  }

  lemma ExecuteFollows(v: Variant, app: App, order: seq<Word>, s: Cpu, ref: Cached)
    requires Inv(v, app, s, ref) && Guard(v, app, order, s)
    ensures var (t, x) := ExecuteCycle(v, app, order, s);
            Follows(v, app, order, s.wbus, t, x, ref) && (x == Stalled ==> Approaches(s, t))
  {
    hide Guard, StepCached, StepEntry, Registers, Storage, Upstream, Prepare, FinishRead, Follows;
    if s.eu.pendingRead {
      ReadFollows(v, app, order, s, ref);
    } else if s.eu.processing {
      PrepareFollows(v, app, order, s, ref);
    } else if s.xbus.current.Some? {
      TakeFollows(v, app, order, s, ref);
    } else {
      IdleFollows(v, app, order, s, ref);
    }
  }

  lemma IdleFollows(v: Variant, app: App, order: seq<Word>, s: Cpu, ref: Cached)
    requires Inv(v, app, s, ref) && !s.eu.processing && s.xbus.current.None?
    ensures var (t, x) := ExecuteCycle(v, app, order, s);
            Follows(v, app, order, s.wbus, t, x, ref) && x == Stalled && Approaches(s, t)
  {
    IdleKeepsInv(v, app, s, ref, s.(xbus := s.xbus.Shift()));
    hide Registers, Storage, Chain, StepCached, StepEntry;
  }
}
