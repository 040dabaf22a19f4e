/** Whole runs of MVP-4 and MVP-5 against whole runs of the sequential core. */
module PipelineRun {
  import opened Words
  import opened Isa
  import opened Mmu
  import opened Sequential
  import opened Pipeline
  import opened Draining
  import opened PipelineInvariant
  import opened PipelineGuard
  import opened PipelineProof
  import opened PipelineExecute

  // ---------------------------------------------------------------- write back

  lemma SubOne(p: Pending, r: Reg)
    ensures SubAll(p, [r]) == p[r := Count(p, r) - 1] && SubAll(p, []) == p
  {
    assert SubAll(p, [r]) == SubAll(p[r := Count(p, r) - 1], [r][1..]);
  }

  lemma RetireKeepsRegisters(regs: Regs, pending: Pending, wbus: Bus<WriteEntry>, refRegs: Regs, size: nat)
    requires Registers(regs, pending, wbus, refRegs, size) && wbus.current.Some?
    ensures var w := wbus.current.value;
            if w.exe.registerChange then
                Registers(Retire(regs, w), SubAll(pending, w.writes), wbus.Shift(), refRegs, size)
            else Registers(regs, pending, wbus.Shift(), refRegs, size)
  {
    var w := wbus.current.value;
    if w.exe.registerChange {
      SubOne(pending, w.exe.register);
      forall r: Reg | r != ZERO
        ensures Count(SubAll(pending, w.writes), r) == WritersOf(wbus.Shift(), r)
      {
        assert Count(pending, r) == WritersOf(wbus, r);
        assert r in w.writes <==> r == w.exe.register && w.writes != [];
      }
    }
  }

  /** One cycle of the write unit: what the registers and memory will be stays the same, and the backlog falls by
      one. */
  ghost predicate WroteBack(s: Retiring, t: Retiring, refRegs: Regs)
    requires WriteTimer(s.wu)
  {
    && WriteTimer(t.wu) && |t.memory| == |s.memory|
    && Registers(t.regs, t.pending, t.wbus, refRegs, |t.memory|)
    && SettledMemory(t.memory, t.wbus) == SettledMemory(s.memory, s.wbus)
    && Backlog(t.wu, t.wbus) == (if Backlog(s.wu, s.wbus) > 0 then Backlog(s.wu, s.wbus) - 1 else 0)
    && (s.wbus.pending.None? ==> t.wbus.pending.None?)
  }

  lemma WriteKeepsRegisters(s: Retiring, refRegs: Regs)
    requires WriteTimer(s.wu) && Registers(s.regs, s.pending, s.wbus, refRegs, |s.memory|)
    ensures var t := WriteCycle(s); t.Some? && WroteBack(s, t.value, refRegs)
  {
    if !s.wu.pendingWrite && s.wbus.current.Some? {
      RetireKeepsRegisters(s.regs, s.pending, s.wbus, refRegs, |s.memory|);
    }
  }

  // ---------------------------------------------------------------- one turn

  ghost predicate Finished(s: Cpu, ref: Cached) {
    SameRegs(s.regs, ref.regs) && s.memory == ref.memory && s.l1d == ref.lines
  }

  lemma WriteKeepsInv(v: Variant, app: App, s: Cpu, ref: Cached, t: Retiring)
    requires Inv(v, app, s, ref) && WroteBack(Retirement(s), t, ref.regs)
    ensures Inv(v, app, WithRetirement(s, t), ref)
    ensures Distance(WithRetirement(s, t)) == Distance(s)
  {
    hide Registers, SettledMemory, Upstream, Downstream, Backlog;
  }

  lemma CompleteIsEnd(v: Variant, app: App, s: Cpu, ref: Cached)
    requires Inv(v, app, s, ref) && IsComplete(s)
    ensures Finished(s, ref)
    ensures forall order :: StepCached(Dropping, app, order, ref) == CachedStop(End)
  {
  }

  lemma IdleIsComplete(v: Variant, app: App, s: Cpu, ref: Cached)
    requires Inv(v, app, s, ref) && !Busy(s) && !s.fu.toClean && Backlog(s.wu, s.wbus) == 0
    ensures IsComplete(s)
  {
    hide Registers, Storage;
  }

  lemma AppliedOne(r: Retired, ws: seq<WriteEntry>, size: nat)
    requires ws != [] && Proper(ws[0], size) && |r.memory| == size
    ensures Apply(r, ws[0]).Some? && ApplyAll(r, ws) == ApplyAll(Apply(r, ws[0]).value, ws[1..])
    ensures var r1 := Apply(r, ws[0]).value; r1.regs == Retire(r.regs, ws[0]) && r1.memory == Landed(r.memory, ws[0])
  {
    hide DropNonPositive;
  }

  /** What the queue amounts to, all at once. */
  lemma AppliedIsSettled(s: Retiring, refRegs: Regs)
    requires Registers(s.regs, s.pending, s.wbus, refRegs, |s.memory|)
    ensures var r := ApplyAll(StateOf(s), s.wbus.Contents());
            r.Some? && SameRegs(r.value.regs, refRegs) && r.value.memory == SettledMemory(s.memory, s.wbus)
  {
    var ws := s.wbus.Contents();
    if ws != [] {
      AppliedOne(StateOf(s), ws, |s.memory|);
      var r := Apply(StateOf(s), ws[0]).value;
      if ws[1..] != [] { AppliedOne(r, ws[1..], |s.memory|); }
    }
    hide Apply, Retire, Landed;
  }

  lemma BacklogIsDrainTime(s: Retiring)
    requires WriteTimer(s.wu)
    ensures DrainTime(s) == Backlog(s.wu, s.wbus)
  {
    var ws := s.wbus.Contents();
    if ws != [] {
      assert CostOfAll(ws) == CostOf(ws[0]) + CostOfAll(ws[1..]);
      if ws[1..] != [] { assert CostOfAll(ws[1..]) == CostOf(ws[1]) + CostOfAll(ws[1..][1..]); }
    }
    hide CostOf;
  }

  /** After a branch the drain retires all that is queued, the branch's own entry last, and nothing is left in
      flight. */
  lemma FlushKeepsInv(v: Variant, app: App, s: Cpu, ref: Cached)
    requires Settling(v, app, s, ref)
    ensures var d := Drain(Retirement(s));
            d.Some? && d.value.1 == Backlog(s.wu, s.wbus) &&
            var next := Flush(v, WithRetirement(s, d.value.0), ref.pc);
            Inv(v, app, next, ref) && Backlog(next.wu, next.wbus) == 0
  {
    var t := Retirement(s);
    DrainIsFifo(t);
    AppliedIsSettled(t, ref.regs);
    BacklogIsDrainTime(t);
    var d := Drain(t).value.0;
    FlushedIsInv(v, app, s, ref, d);
    hide Drain, ApplyAll, Registers, SettledMemory, Flush, DrainTime, Backlog, Inv;
  }

  lemma FlushedIsInv(v: Variant, app: App, s: Cpu, ref: Cached, d: Retiring)
    requires Settling(v, app, s, ref) && Drained(d) && SameRegs(d.regs, ref.regs) && d.memory == ref.memory
    ensures var next := Flush(v, WithRetirement(s, d), ref.pc);
            Inv(v, app, next, ref) && Backlog(next.wu, next.wbus) == 0
  {
    hide SettledMemory, Settled;
    var next := Flush(v, WithRetirement(s, d), ref.pc);
    EmptyBusSettles(next.regs, next.memory, next.wbus);
    assert Registers(next.regs, next.pending, next.wbus, ref.regs, |next.memory|);
  }

  lemma EmptyBusSettles(regs: Regs, memory: Memory, bus: Bus<WriteEntry>)
    requires bus.IsEmpty()
    ensures Settled(regs, bus) == regs && SettledMemory(memory, bus) == memory
  {
  }

  /** The reference's next step stores past the L1D. */
  predicate PastCache(app: App, order: seq<Word>, ref: Cached) {
    StepEntry(app, order, ref).Some? && WritesMemory(StepEntry(app, order, ref).value)
  }

  /** What an instruction may cost: a flush and a fetch from memory, and the write to memory of a store. */
  function Price(app: App, order: seq<Word>, ref: Cached): nat {
    158 + if PastCache(app, order, ref) then 50 else 0
  }

  /** One turn of the loop against the sequential core: it runs its next instruction, or comes closer to that, or
      stops for its reason. */
  ghost predicate TurnFollows(v: Variant, app: App, order: seq<Word>, s: Cpu, ref: Cached, u: Turn)
    requires Inv(v, app, s, ref)
  {
    var step := StepCached(Dropping, app, order, ref);
    && (u.ran ==> step.CachedNext?)
    && var now := if u.ran then step.next else ref;
    match u.stop
    case None =>
      && Inv(v, app, u.next, now)
      && (if u.ran then u.cycles >= 1 && u.cycles + Rank(u.next) <= Rank(s) + Price(app, order, ref)
          else u.cycles == 1 && Rank(u.next) < Rank(s))
    case Some(End) => Inv(v, app, u.next, now) && IsComplete(u.next) && u.cycles == 1
    case Some(Return) => !u.ran && u.cycles == 1 && step == CachedStop(Return) && Finished(u.next, ref)
    case Some(Error(f)) => !u.ran && u.cycles == 1 && step == CachedStop(Error(f))
  }

  lemma SentBacklog(app: App, order: seq<Word>, ref: Cached, wu: WriteState, bus: Bus<WriteEntry>)
    requires WriteTimer(wu)
    ensures Backlog(wu, Sent(bus, StepEntry(app, order, ref))) + 156 <= Backlog(wu, bus) + Price(app, order, ref)
  {
    hide StepEntry;
  }

  lemma TurnThatRuns(v: Variant, app: App, order: seq<Word>, s: Cpu, ref: Cached, u: Cpu)
    requires Inv(v, app, s, ref) && Follows(v, app, order, s.wbus, u, Ran, ref) && u.wu == s.wu
    ensures var w := WriteCycle(Retirement(u));
            w.Some? && TurnFollows(v, app, order, s, ref, AfterWrite(v, WithRetirement(u, w.value), Ran))
  {
    hide Registers, SettledMemory, Chain, StepCached, StepEntry, Backlog, PastCache, Sent;
    var now := StepCached(Dropping, app, order, ref).next;
    WriteKeepsRegisters(Retirement(u), now.regs);
    var w := WriteCycle(Retirement(u)).value;
    hide WriteCycle;
    WriteKeepsInv(v, app, u, now, w);
    SentBacklog(app, order, ref, s.wu, s.wbus);
  }

  lemma TurnThatStalls(v: Variant, app: App, order: seq<Word>, s: Cpu, ref: Cached, t: Cpu, u: Cpu)
    requires Inv(v, app, s, ref) && Inv(v, app, t, ref) && OnlyFrontMoved(s, t)
    requires if Decoded(s.eu, s.xbus) > 0 then Decoded(t.eu, t.xbus) > 0 && Distance(t) == Distance(s)
             else Distance(t) <= Distance(s) && (Busy(s) ==> Distance(t) < Distance(s))
    requires !Busy(s) ==>
               !Busy(t) && !t.fu.toClean && u.fu == t.fu && u.dbus == t.dbus && u.xbus == t.xbus.Shift() && u.eu == t.eu
    requires Follows(v, app, order, t.wbus, u, Stalled, ref) && Approaches(t, u)
    ensures var w := WriteCycle(Retirement(u));
            w.Some? && TurnFollows(v, app, order, s, ref, AfterWrite(v, WithRetirement(u, w.value), Stalled))
  {
    hide Registers, SettledMemory, Chain, StepCached, StepEntry, Backlog, Price;
    WriteKeepsRegisters(Retirement(u), ref.regs);
    var w := WriteCycle(Retirement(u)).value;
    hide WriteCycle;
    WriteKeepsInv(v, app, u, ref, w);
    var last := WithRetirement(u, w);
    if !Busy(s) && Backlog(s.wu, s.wbus) == 0 { IdleIsComplete(v, app, last, ref); }
  }

  /** With nothing left to run, a turn only empties the write bus. */
  lemma IdleTurn(v: Variant, app: App, order: seq<Word>, s: Cpu, ref: Cached, t: Cpu)
    requires Inv(v, app, s, ref) && !Busy(s)
    requires FetchDecode(v, app, s) == Some(t)
    ensures !Busy(t) && !t.fu.toClean
    ensures ExecuteCycle(v, app, order, t) == (t.(xbus := t.xbus.Shift()), Stalled)
  {
    hide Registers, Storage, Prepare, FinishRead;
  }

  lemma TurnWithFlush(v: Variant, app: App, order: seq<Word>, s: Cpu, ref: Cached, u: Cpu, target: Word)
    requires Inv(v, app, s, ref) && u.wu == s.wu
    requires Follows(v, app, order, s.wbus, u, RanAndFlush(target), ref)
    ensures var w := WriteCycle(Retirement(u));
            w.Some? && TurnFollows(v, app, order, s, ref,
                                   AfterWrite(v, WithRetirement(u, w.value), RanAndFlush(target)))
  {
    hide Registers, SettledMemory, StepCached, StepEntry, Backlog, PastCache, Sent, Flush, Drain, Inv, Chain;
    var now := StepCached(Dropping, app, order, ref).next;
    WriteKeepsRegisters(Retirement(u), now.regs);
    var w := WriteCycle(Retirement(u)).value;
    hide WriteCycle;
    var last := WithRetirement(u, w);
    FlushKeepsInv(v, app, last, now);
    SentBacklog(app, order, ref, s.wu, s.wbus);
    InvTimes(v, app, s, ref);
    InvTimes(v, app, Flush(v, WithRetirement(last, Drain(Retirement(last)).value.0), target), now);
  }

  lemma InvTimes(v: Variant, app: App, s: Cpu, ref: Cached)
    requires Inv(v, app, s, ref)
    ensures FetchTimer(s.fu) && ExecuteTimer(s.eu) && WriteTimer(s.wu)
  {
  }

  lemma TurnAtReturn(v: Variant, app: App, order: seq<Word>, s: Cpu, ref: Cached, u: Cpu)
    requires Inv(v, app, s, ref) && u.wu == s.wu
    requires Follows(v, app, order, s.wbus, u, Stopped(Return), ref)
    ensures var w := WriteCycle(Retirement(u));
            w.Some? && TurnFollows(v, app, order, s, ref, AfterWrite(v, WithRetirement(u, w.value), Stopped(Return)))
  {
    hide StepCached, Chain, Registers;
  }

  lemma CycleUnfolds(v: Variant, app: App, order: seq<Word>, s: Cpu, t: Cpu, u: Cpu, x: Executed)
    requires FetchDecode(v, app, s) == Some(t) && ExecuteCycle(v, app, order, t) == (u, x)
    ensures CycleOnce(v, app, order, s)
         == if x.Stopped? && x.stop.Error? then Turn(u, 1, false, Some(x.stop))
            else if WriteCycle(Retirement(u)).None? then Turn(u, 1, false, Some(Error(BadAddress)))
            else AfterWrite(v, WithRetirement(u, WriteCycle(Retirement(u)).value), x)
  {
    hide FetchDecode, ExecuteCycle, WriteCycle, AfterWrite;
  }

  lemma SameGuard(v: Variant, app: App, order: seq<Word>, s: Cpu, t: Cpu)
    requires OnlyFrontMoved(s, t) && t.xbus.current == s.xbus.current
    ensures Guard(v, app, order, t) == Guard(v, app, order, s)
  {
    hide OperandsSeen, ResultFits, IsWriteHazard, LoadMiss, FetchLine, SettledMemory;
    var o := Oldest(s);
    if !s.eu.pendingRead && o.Some? {
      SameResultFits(v, app, order, Noted(v, s, o.value.0), Noted(v, t, o.value.0), o.value.0);
    }
  }

  lemma FrontKeepsCurrent(v: Variant, app: App, s: Cpu)
    ensures FetchDecode(v, app, s).Some? ==> FetchDecode(v, app, s).value.xbus.current == s.xbus.current
  {
    hide FetchCycle;
  }

  /** Every guarded turn runs the reference's next instruction, comes closer to it, or ends the run for its reason. */
  lemma TurnIsFollowed(v: Variant, app: App, order: seq<Word>, s: Cpu, ref: Cached)
    requires Inv(v, app, s, ref) && Guard(v, app, order, s)
    ensures TurnFollows(v, app, order, s, ref, CycleOnce(v, app, order, s))
  {
    FetchDecodeKeepsInv(v, app, s, ref);
    var f := FetchDecode(v, app, s);
    if f.Some? {
      var t := f.value;
      FrontKeepsCurrent(v, app, s);
      SameGuard(v, app, order, s, t);
      ExecuteFollows(v, app, order, t, ref);
      ExecuteLeaves(v, app, order, t);
      var ux := ExecuteCycle(v, app, order, t);
      var u, x := ux.0, ux.1;
      CycleUnfolds(v, app, order, s, t, u, x);
      hide FetchDecode, ExecuteCycle, Guard, AfterWrite, WriteCycle, StepCached, StepEntry, Chain, Registers, Storage;
      if x == Stalled {
        if !Busy(s) { IdleTurn(v, app, order, s, ref, t); }
        TurnThatStalls(v, app, order, s, ref, t, u);
      } else if x == Ran {
        TurnThatRuns(v, app, order, s, ref, u);
      } else if x.RanAndFlush? {
        TurnWithFlush(v, app, order, s, ref, u, x.target);
      } else if x == Stopped(Return) {
        TurnAtReturn(v, app, order, s, ref, u);
      }
    }
  }

  // ---------------------------------------------------------------- whole runs

  /** A run so far: instructions executed, cycles spent, and why it ended if it has. */
  datatype Progress = Progress(cpu: Cpu, executed: nat, cycles: nat, stop: Option<Stop>)

  function Took(p: Progress, u: Turn): Progress {
    Progress(u.next, p.executed + (if u.ran then 1 else 0), p.cycles + u.cycles, u.stop)
  }

  /** `orders(k)` is the walk over changed addresses that the k-th instruction's store uses. */
  function Advance(v: Variant, app: App, orders: nat -> seq<Word>, p: Progress): Progress {
    if p.stop.Some? then p else
      Took(p, CycleOnce(v, app, orders(p.executed), p.cpu))
  }

  function AfterTurns(v: Variant, app: App, orders: nat -> seq<Word>, p: Progress, turns: nat): Progress {
    if turns == 0 then p else Advance(v, app, orders, AfterTurns(v, app, orders, p, turns - 1))
  }

  /** The core as built, with any registers and memory. */
  ghost predicate Fresh(s: Cpu) {
    && s.fu == FetchState(0, 0, false, false, false) && !s.blocked
    && s.dbus.IsEmpty() && s.xbus.IsEmpty() && s.wbus.IsEmpty()
    && !s.eu.processing && !s.eu.pendingRead && s.eu.memory.None? && !s.wu.pendingWrite
    && s.pending == map[] && s.l1i == [] && s.l1d == []
  }

  function Start(s: Cpu): Cached { Cached(s.regs, 0, s.l1d, s.memory) }

  function Begin(s: Cpu): Progress { Progress(s, 0, 0, None) }

  /** The state before turn k, if the run gets there, is guarded. */
  ghost predicate GuardedAt(v: Variant, app: App, orders: nat -> seq<Word>, s: Cpu, k: nat) {
    var p := AfterTurns(v, app, orders, Begin(s), k);
    p.stop.None? ==> Guard(v, app, orders(p.executed), p.cpu)
  }

  /** The stores past the L1D among the first n instructions of the sequential core. */
  function Misses(app: App, orders: nat -> seq<Word>, start: Cached, n: nat): nat {
    if n == 0 then 0 else
      var ref := Reference(Dropping, app, orders, start, n - 1);
      Misses(app, orders, start, n - 1) + if ref.Some? && PastCache(app, orders(n - 1), ref.value) then 1 else 0
  }

  function Budget(app: App, orders: nat -> seq<Word>, start: Cached, n: nat): nat {
    158 * n + 50 * Misses(app, orders, start, n)
  }

  /** The run stands where the sequential core stands after as many instructions, in time, and ends for its reason. */
  ghost predicate Agrees(v: Variant, app: App, orders: nat -> seq<Word>, start: Cached, p: Progress) {
    var ref := Reference(Dropping, app, orders, start, p.executed);
    && ref.Some?
    && (match p.stop
        case None => Inv(v, app, p.cpu, ref.value)
        && p.cycles + Rank(p.cpu) <= 156 + Budget(app, orders, start, p.executed)
        case Some(stop) =>
          && StepCached(Dropping, app, orders(p.executed), ref.value) == CachedStop(stop)
          && (!stop.Error? ==> Finished(p.cpu, ref.value))
          && p.cycles <= 157 + Budget(app, orders, start, p.executed))
  }

  lemma FreshAgrees(v: Variant, app: App, orders: nat -> seq<Word>, s: Cpu)
    requires Runnable(app) && Fresh(s)
    ensures Agrees(v, app, orders, Start(s), Begin(s))
  {
    assert Reference(Dropping, app, orders, Start(s), 0) == Some(Start(s));
  }

  lemma EndIsFinished(v: Variant, app: App, order: seq<Word>, s: Cpu, ref: Cached, u: Turn)
    requires Inv(v, app, s, ref) && TurnFollows(v, app, order, s, ref, u) && u.stop == Some(End)
    ensures var now := if u.ran then StepCached(Dropping, app, order, ref).next else ref;
            && Finished(u.next, now)
            && forall o :: StepCached(Dropping, app, o, now) == CachedStop(End)
  {
    hide Inv, IsComplete, Finished, StepCached;
    CompleteIsEnd(v, app, u.next, if u.ran then StepCached(Dropping, app, order, ref).next else ref);
  }

  lemma ReferenceAdvances(app: App, orders: nat -> seq<Word>, start: Cached, p: Progress, u: Turn, ref: Cached)
    requires Reference(Dropping, app, orders, start, p.executed) == Some(ref)
    requires u.ran ==> StepCached(Dropping, app, orders(p.executed), ref).CachedNext?
    ensures Reference(Dropping, app, orders, start, Took(p, u).executed)
         == Some(if u.ran then StepCached(Dropping, app, orders(p.executed), ref).next else ref)
    ensures Budget(app, orders, start, Took(p, u).executed)
         == Budget(app, orders, start, p.executed) + if u.ran then Price(app, orders(p.executed), ref) else 0
  {
    hide StepCached, PastCache;
  }

  lemma TurnAgrees(v: Variant, app: App, orders: nat -> seq<Word>, start: Cached, p: Progress, u: Turn)
    requires Agrees(v, app, orders, start, p) && p.stop.None?
    requires TurnFollows(v, app, orders(p.executed), p.cpu, Reference(Dropping, app, orders, start, p.executed).value,
                         u)
    ensures Agrees(v, app, orders, start, Took(p, u))
    ensures u.stop.None? && !u.ran ==>
              Inv(v, app, u.next, Reference(Dropping, app, orders, start, p.executed).value)
              && Rank(u.next) < Rank(p.cpu)
  {
    hide StepCached, Inv, Budget, Price, Reference, Finished, IsComplete;
    var ref := Reference(Dropping, app, orders, start, p.executed).value;
    InvTimes(v, app, p.cpu, ref);
    ReferenceAdvances(app, orders, start, p, u, ref);
    PriceIsPositive(app, orders(p.executed), ref);
    if u.stop == Some(End) {
      EndIsFinished(v, app, orders(p.executed), p.cpu, ref, u);
    }
  }

  lemma PriceIsPositive(app: App, order: seq<Word>, ref: Cached)
    ensures Price(app, order, ref) >= 158
  {
  }

  lemma AdvanceAgrees(v: Variant, app: App, orders: nat -> seq<Word>, start: Cached, p: Progress)
    requires Agrees(v, app, orders, start, p) && p.stop.None? && Guard(v, app, orders(p.executed), p.cpu)
    ensures var q := Advance(v, app, orders, p);
            && Agrees(v, app, orders, start, q) && p.executed <= q.executed <= p.executed + 1
            && (q.stop.None? && q.executed == p.executed ==> Patience(q) < Patience(p))
  {
    hide StepCached, CycleOnce, Guard, Inv, Budget, Reference, Rank;
    var ref := Reference(Dropping, app, orders, start, p.executed).value;
    var u := CycleOnce(v, app, orders(p.executed), p.cpu);
    TurnIsFollowed(v, app, orders(p.executed), p.cpu, ref);
    TurnAgrees(v, app, orders, start, p, u);
    InvTimes(v, app, p.cpu, ref);
    if u.stop.None? && !u.ran { InvTimes(v, app, u.next, ref); }
  }

  /** Safety: as long as its states are guarded the core stands where the sequential core stands after the same number
      of instructions, whatever the branch target buffer predicted; once it ends, registers, memory and L1D are
      equal. */
  lemma {:induction false} PipelineRefinesSequential(v: Variant, app: App, orders: nat -> seq<Word>, s: Cpu, turns: nat)
    requires Runnable(app) && Fresh(s)
    requires forall k: nat :: k < turns ==> GuardedAt(v, app, orders, s, k)
    ensures Agrees(v, app, orders, Start(s), AfterTurns(v, app, orders, Begin(s), turns))
  {
    hide Agrees, Guard, Fresh, Advance;
    if turns == 0 {
      FreshAgrees(v, app, orders, s);
    } else {
      PipelineRefinesSequential(v, app, orders, s, turns - 1);
      var p := AfterTurns(v, app, orders, Begin(s), turns - 1);
      assert GuardedAt(v, app, orders, s, turns - 1);
      if p.stop.None? { AdvanceAgrees(v, app, orders, Start(s), p); } else { StoppedStays(v, app, orders, p); }
    }
  }

  lemma StoppedStays(v: Variant, app: App, orders: nat -> seq<Word>, p: Progress)
    requires p.stop.Some?
    ensures Advance(v, app, orders, p) == p
  {
  }

  /** The registers with the write bus applied are the reference's, so is memory, and L1D; the scoreboard counts the
      declared writes on the bus; what the execute unit holds, and after it the execute bus, is what the reference
      executes next. */
  ghost predicate InStep(app: App, s: Cpu, ref: Cached) {
    && SameRegs(Settled(s.regs, s.wbus), ref.regs) && SettledMemory(s.memory, s.wbus) == ref.memory
    && (!s.eu.pendingRead ==> s.l1d == ref.lines)
    && (forall r: Reg :: r != ZERO ==> Count(s.pending, r) == WritersOf(s.wbus, r))
    && (s.eu.processing ==> s.eu.runner.Some? && Placed(app, s.eu.runner.value, ref.pc))
    && (s.xbus.current.Some? ==> Placed(app, s.xbus.current.value, ref.pc + if s.eu.processing then 4 else 0))
  }

  lemma InvIsInStep(v: Variant, app: App, s: Cpu, ref: Cached)
    requires Inv(v, app, s, ref)
    ensures InStep(app, s, ref)
  {
    hide Upstream, JumpsBlock;
  }

  /** What this means at any point of a run that goes on. */
  lemma EveryTurnKeeps(v: Variant, app: App, orders: nat -> seq<Word>, s: Cpu, turns: nat)
    requires Runnable(app) && Fresh(s) && (forall k: nat :: k < turns ==> GuardedAt(v, app, orders, s, k))
    requires AfterTurns(v, app, orders, Begin(s), turns).stop.None?
    ensures var p := AfterTurns(v, app, orders, Begin(s), turns);
            var ref := Reference(Dropping, app, orders, Start(s), p.executed);
            ref.Some? && InStep(app, p.cpu, ref.value)
  {
    hide AfterTurns, Reference, GuardedAt, Inv, InStep, Fresh, Runnable;
    PipelineRefinesSequential(v, app, orders, s, turns);
    var p := AfterTurns(v, app, orders, Begin(s), turns);
    InvIsInStep(v, app, p.cpu, Reference(Dropping, app, orders, Start(s), p.executed).value);
  }

  /** The sequential core stops right after its n-th instruction. */
  ghost predicate StopsAfter(app: App, orders: nat -> seq<Word>, start: Cached, n: nat) {
    var ref := Reference(Dropping, app, orders, start, n);
    ref.Some? && StepCached(Dropping, app, orders(n), ref.value).CachedStop?
  }

  /** The cycles without an instruction that may still come before the next one. */
  ghost function Patience(p: Progress): nat {
    if FetchTimer(p.cpu.fu) && ExecuteTimer(p.cpu.eu) && WriteTimer(p.cpu.wu) then Rank(p.cpu) else 0
  }

  lemma ExecutedIsBounded(v: Variant, app: App, orders: nat -> seq<Word>, start: Cached, p: Progress, n: nat)
    requires Agrees(v, app, orders, start, p) && p.executed <= n + 1 && StopsAfter(app, orders, start, n)
    ensures p.executed <= n && (p.stop.Some? ==> p.executed == n)
  {
    hide StepCached, Inv, Budget;
    if p.stop.Some? && p.executed <= n { StopIsUnique(app, orders, start, p.executed, n); }
  }

  /** The sequential core stops at one place only. */
  lemma {:induction false} StopIsUnique(app: App, orders: nat -> seq<Word>, start: Cached, m: nat, n: nat)
    requires m <= n && Reference(Dropping, app, orders, start, m).Some?
             && Reference(Dropping, app, orders, start, n).Some?
    requires StepCached(Dropping, app, orders(m), Reference(Dropping, app, orders, start, m).value).CachedStop?
    ensures m == n
  {
    hide StepCached;
    if m < n {
      ReferencePrefix(Dropping, app, orders, start, m + 1, n);
    }
  }

  /** From any point of a guarded run the end is near. */
  lemma {:induction false} EndIsNear(v: Variant, app: App, orders: nat -> seq<Word>, s: Cpu, n: nat, turns: nat)
    returns (more: nat)
    requires forall k: nat :: GuardedAt(v, app, orders, s, k)
    requires var p := AfterTurns(v, app, orders, Begin(s), turns);
             Agrees(v, app, orders, Start(s), p) && p.stop.None? && p.executed <= n
    requires StopsAfter(app, orders, Start(s), n)
    ensures var q := AfterTurns(v, app, orders, Begin(s), more);
            q.stop.Some? && q.executed == n && Agrees(v, app, orders, Start(s), q)
    decreases n - AfterTurns(v, app, orders, Begin(s), turns).executed,
              Patience(AfterTurns(v, app, orders, Begin(s), turns))
  {
    hide StepCached, CycleOnce, StopsAfter, Agrees, Reference, Patience, Advance, Guard;
    var p := AfterTurns(v, app, orders, Begin(s), turns);
    assert GuardedAt(v, app, orders, s, turns);
    AdvanceAgrees(v, app, orders, Start(s), p);
    var q := AfterTurns(v, app, orders, Begin(s), turns + 1);
    ExecutedIsBounded(v, app, orders, Start(s), q, n);
    more := turns + 1;
    if q.stop.None? { more := EndIsNear(v, app, orders, s, n, turns + 1); }
  }

  /** What the end of a run is like, when the sequential core stops after n instructions: it has executed those n, ends
      for the same reason and in the same state, within 158 n + 157 cycles and 50 for each store past the L1D. */
  ghost predicate EndsLike(app: App, orders: nat -> seq<Word>, start: Cached, n: nat, q: Progress) {
    var ref := Reference(Dropping, app, orders, start, n);
    && ref.Some? && q.stop.Some? && StepCached(Dropping, app, orders(n), ref.value) == CachedStop(q.stop.value)
    && q.executed == n && q.cycles <= 158 * n + 157 + 50 * Misses(app, orders, start, n)
    && (!q.stop.value.Error? ==> Finished(q.cpu, ref.value))
  }

  /** Liveness: when the sequential core stops, a guarded run does too. */
  lemma PipelineTerminates(v: Variant, app: App, orders: nat -> seq<Word>, s: Cpu, n: nat) returns (turns: nat)
    requires Runnable(app) && Fresh(s) && StopsAfter(app, orders, Start(s), n)
    requires forall k: nat :: GuardedAt(v, app, orders, s, k)
    ensures EndsLike(app, orders, Start(s), n, AfterTurns(v, app, orders, Begin(s), turns))
  {
    hide GuardedAt, StepCached, Fresh, Inv, Finished;
    FreshAgrees(v, app, orders, s);
    turns := EndIsNear(v, app, orders, s, n, 0);
    hide AfterTurns, StopsAfter;
  }
}
