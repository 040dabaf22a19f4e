/** What MVP-4 and MVP-5 expect of jumps and branches, and when they flush (proc/mvp4/bu.go, proc/mvp5/bu.go,
    proc/mvp5/btb.go). */
module Prediction {
  import opened Words
  import opened Isa
  import opened Cache
  import opened Mmu
  import opened Sequential
  import opened Pipeline
  import opened PipelineGuard
  import opened PipelineRun
  import opened BranchTargets
  import opened Latency
  import Draining

  /** The jumps resolved so far are `jumps`, oldest first; MVP-5 knows those at the last four program counters it has
      inserted. */
  predicate IsKnown(v: Variant, jumps: seq<Target>, pc: Word) { v == Mvp5 && pc in LastFew(Insertions(jumps)) }

  /** The buffer of MVP-5 is that of the jumps resolved so far. */
  predicate Remembers(v: Variant, s: Cpu, jumps: seq<Target>) { v == Mvp5 ==> s.bu.btb == BufferAfter(jumps) }

  /** What the instruction does that runs next. */
  function Result(app: App, s: Cpu, r: RunnerPc): Result<Execution> {
    Run(r.instr, NO_FORWARD, s.regs, app.labels, r.pc, [])
  }

  /** The target is not the one that the branch unit expects: of a jump it does not know it expects -1, of a branch the
      next instruction, and of a bltu in MVP-4 what it expected of the last branch, if that has not been checked. */
  predicate Mispredicted(v: Variant, s: Cpu, r: RunnerPc, jumps: seq<Target>, target: Word) {
    if IsUnconditionalBranch(r.instr) then !IsKnown(v, jumps, r.pc) && target != -1
    else if IsConditionalBranch(r.instr) then target != Wrap(r.pc + 4)
    else v == Mvp4 && s.bu.toCheck && s.bu.expectation != target
  }

  // ---------------------------------------------------------------- one cycle of the execute unit

  lemma NotedExpects(v: Variant, s: Cpu, r: RunnerPc, jumps: seq<Target>, target: Word)
    requires Remembers(v, s, jumps)
    ensures var (bu, fu) := AssertBranch(v, s.bu, s.fu, r);
            && bu.btb == s.bu.btb
            && ((bu.toCheck && bu.expectation != target) <==> Mispredicted(v, s, r, jumps, target))
            && (IsKnown(v, jumps, r.pc) ==> Latest(jumps, r.pc).Some?)
            && fu == if IsUnconditionalBranch(r.instr) && IsKnown(v, jumps, r.pc)
                     then Redirect(s.fu, Latest(jumps, r.pc).value) else s.fu
  {
    hide Lookup, Latest, IsKnown, BufferAfter, Remembers, IsConditionalBranch;
    KnownIsFound(v, s, jumps, r.pc);
  }

  lemma KnownIsFound(v: Variant, s: Cpu, jumps: seq<Target>, pc: Word)
    requires Remembers(v, s, jumps)
    ensures v == Mvp4 ==> !IsKnown(v, jumps, pc)
    ensures v == Mvp5 ==> Lookup(s.bu.btb, pc) == if IsKnown(v, jumps, pc) then Latest(jumps, pc) else None
    ensures IsKnown(v, jumps, pc) ==> Latest(jumps, pc).Some?
  {
    hide LastFew, Insertions, BufferAfter, Lookup, Latest;
    GetIsLatest(jumps, pc);
    if IsKnown(v, jumps, pc) { KnownHaveTargets(jumps, pc); }
  }

  lemma KnownHaveTargets(jumps: seq<Target>, pc: Word)
    requires pc in LastFew(Insertions(jumps))
    ensures Latest(jumps, pc).Some?
  {
    BufferIsBoundedMap(jumps);
    var btb := BufferAfter(jumps);
    var k :| 0 <= k < |Pcs(btb)| && Pcs(btb)[k] == pc;
    assert btb[k].pc == pc;
    hide LastFew, Insertions, BufferAfter, Latest;
  }

  /** Nothing but a jump or a branch changes the program counter, and none of these touches memory or returns. */
  lemma OnlyBranchesJump(i: Instr, regs: Regs, labels: map<string, Word>, pc: Word)
    ensures var out := Run(i, NO_FORWARD, regs, labels, pc, []);
            out.Ok? && out.value.pcChange ==> (IsBranch(i) || i.Branch?) && out.value.data == [] && !out.value.isReturn
    ensures var out := Run(i, NO_FORWARD, regs, labels, pc, []);
            out.Ok? && IsUnconditionalBranch(i) ==> out.value.pcChange
  {
  }

  lemma ReadySends(v: Variant, app: App, order: seq<Word>, s: Cpu, r: RunnerPc, e: Execution)
    requires !IsWriteHazard(s.pending, ReadRegisters(r.instr)) && !r.instr.Load?
    requires Result(app, s, r) == Ok(e) && e.data == [] && !e.isReturn
    ensures var (u, x) := WhenReady(v, app, order, s, r);
            && x == (if e.pcChange && s.bu.toCheck && s.bu.expectation != e.nextPc then RanAndFlush(e.nextPc) else Ran)
            && (if v == Mvp5 && IsUnconditionalBranch(r.instr)
                then u.bu.btb == Remember(s.bu.btb, r.pc, e.nextPc) && u.fu == Redirect(s.fu, e.nextPc)
                else u.bu.btb == s.bu.btb && u.fu == s.fu)
  {
    ReadsOnlyLoads(r.instr, s.regs);
    hide Run, IsWriteHazard, MemoryRead, Remember;
  }

  /** The cycle in which an instruction that is no load and no store runs: it flushes if and only if it changes the
      program counter to where it was not expected to; and MVP-5 notes the target of a jump, known or not, and fetches
      from there. */
  lemma FlushesExactly(v: Variant, app: App, order: seq<Word>, s: Cpu, r: RunnerPc, jumps: seq<Target>, e: Execution)
    requires AtHand(s, r) && Remembers(v, s, jumps) && !r.instr.Load? && !r.instr.Store?
    requires Result(app, s, r) == Ok(e) && !e.isReturn
    ensures var (u, x) := ExecuteCycle(v, app, order, s);
            && x == (if e.pcChange && Mispredicted(v, s, r, jumps, e.nextPc) then RanAndFlush(e.nextPc) else Ran)
            && Remembers(v, u, if IsUnconditionalBranch(r.instr) then jumps + [Target(r.pc, e.nextPc)] else jumps)
            && u.fu == if v == Mvp5 && IsUnconditionalBranch(r.instr)
                       then s.fu.(complete := false, pc := e.nextPc, toClean := true) else s.fu
  {
    hide WhenReady, IsWriteHazard, AssertBranch, Run, BufferAfter, Remember, Latest, Mispredicted, IsKnown, MemoryRead;
    NoData(r.instr, s.regs, app.labels, r.pc);
    NotedExpects(v, s, r, jumps, e.nextPc);
    KnownIsFound(v, s, jumps, r.pc);
    if v == Mvp5 { RememberedNext(jumps, Target(r.pc, e.nextPc)); }
    var t := if s.eu.processing then s else
      s.(xbus := s.xbus.Shift(), eu := s.eu.(runner := Some(r), remaining := 1, processing := true));
    var (bu, fu) := AssertBranch(v, t.bu, t.fu, r);
    ReadySends(v, app, order, t.(bu := bu, fu := fu), r, e);
  }

  lemma NoData(i: Instr, regs: Regs, labels: map<string, Word>, pc: Word)
    requires !i.Load? && !i.Store?
    ensures var out := Run(i, NO_FORWARD, regs, labels, pc, []); out.Ok? ==> out.value.data == []
  {
  }

  lemma RememberedNext(jumps: seq<Target>, t: Target)
    ensures BufferAfter(jumps + [t]) == Remember(BufferAfter(jumps), t.pc, t.dest)
  {
    assert (jumps + [t])[..|jumps|] == jumps;
    hide Remember;
  }

  /** A turn is one cycle, and a flush takes the time of the drain before it on top. */
  lemma FlushCosts(v: Variant, app: App, order: seq<Word>, s: Cpu, t: Cpu)
    requires FetchDecode(v, app, s) == Some(t)
    ensures var c, ux := CycleOnce(v, app, order, s), ExecuteCycle(v, app, order, t);
            var w := WriteCycle(Retirement(ux.0));
            && (!ux.1.RanAndFlush? ==> c.cycles == 1)
            && (ux.1.RanAndFlush? && c.stop.None? ==>
                  && w.Some? && c.cycles == 1 + Draining.DrainTime(w.value)
                  && c.next.fu.pc == ux.1.target && !c.next.fu.processing)
  {
    hide FetchDecode, ExecuteCycle, WriteCycle;
    var ux := ExecuteCycle(v, app, order, t);
    CycleUnfolds(v, app, order, s, t, ux.0, ux.1);
    hide CycleOnce;
    var w := WriteCycle(Retirement(ux.0));
    if w.Some? && (w.value.wu.pendingWrite ==> w.value.wu.cycles > 0) { Draining.DrainIsFifo(w.value); }
    hide Drain, Draining.DrainTime;
  }

  /** While the write bus is full nothing is noted of the instruction that waits for it. */
  lemma FullBusNotesNothing(v: Variant, app: App, order: seq<Word>, s: Cpu, r: RunnerPc)
    requires Due(s, r) && s.wbus.pending.Some?
    ensures var (u, x) := ExecuteCycle(v, app, order, s); x == Stalled && u.bu == s.bu && u.fu == s.fu
  {
    hide AssertBranch, WhenReady;
  }

  /** A jump that still waits for a register: from the first cycle on the fetch unit stands at the target it last had,
      if its program counter is known, and otherwise where it stood. */
  lemma WaitingJumpIsPredicted(v: Variant, app: App, order: seq<Word>, s: Cpu, r: RunnerPc, jumps: seq<Target>)
    requires Due(s, r) && Remembers(v, s, jumps) && IsUnconditionalBranch(r.instr)
    requires s.wbus.pending.None? && IsWriteHazard(s.pending, ReadRegisters(r.instr))
    ensures var (u, x) := ExecuteCycle(v, app, order, s);
            && x == Stalled
            && if IsKnown(v, jumps, r.pc)
               then Latest(jumps, r.pc).Some?
                    && u.fu == s.fu.(complete := false, pc := Latest(jumps, r.pc).value, toClean := true)
               else u.fu == s.fu
  {
    NotedExpects(v, s, r, jumps, 0);
    hide IsWriteHazard, AssertBranch, RunNow, MemoryRead, BufferAfter, LastFew, Insertions, Latest, Mispredicted;
  }

  // ---------------------------------------------------------------- whole runs

  /** What runs past the scoreboard in this cycle of the execute unit, if anything does. */
  function Taken(s: Cpu): Option<RunnerPc> {
    match Oldest(s)
    case None => None
    case Some((r, _)) => if AtHand(s, r) then Some(r) else None
  }

  /** The jump that this cycle resolves, with its target. */
  function Resolved(app: App, s: Cpu): (jumps: seq<Target>)
    ensures |jumps| <= 1
  {
    match Taken(s)
    case None => []
    case Some(r) =>
      match Result(app, s, r)
      case Fail(_) => []
      case Ok(e) => if IsUnconditionalBranch(r.instr) then [Target(r.pc, e.nextPc)] else []
  }

  /** Only loads wait for memory. */
  predicate OnlyLoadsWait(s: Cpu) { s.eu.pendingRead ==> s.eu.runner.Some? && s.eu.runner.value.instr.Load? }

  /** The buffer after an instruction has run. */
  function BufferWith(v: Variant, app: App, s: Cpu, r: RunnerPc, bytes: seq<Byte>): seq<Target> {
    match Run(r.instr, NO_FORWARD, s.regs, app.labels, r.pc, bytes)
    case Fail(_) => s.bu.btb
    case Ok(e) =>
      if v == Mvp5 && IsUnconditionalBranch(r.instr) then Remember(s.bu.btb, r.pc, e.nextPc) else s.bu.btb
  }

  lemma RunRemembers(v: Variant, app: App, order: seq<Word>, s: Cpu, r: RunnerPc, bytes: seq<Byte>)
    ensures var (u, x) := RunNow(v, app, order, s, r, bytes);
            u.bu.btb == BufferWith(v, app, s, r, bytes) && u.eu.pendingRead == s.eu.pendingRead
  {
    hide LookUp, WriteTo, Remember, Run, Send;
    JumpsOnlySend(r.instr, s.regs, app.labels, r.pc, bytes);
    var out := Run(r.instr, NO_FORWARD, s.regs, app.labels, r.pc, bytes);
    if out.Ok? && !out.value.isReturn {
      var t := s.(eu := s.eu.(runner := None, processing := false), regs := DirectWrite(r.instr, s.regs, r.pc));
      SendRemembers(v, t, r, out.value);
      SendRemembers(v, t.(l1d := LookUp(t.l1d, order, out.value).1), r, out.value);
    }
  }

  lemma SendRemembers(v: Variant, s: Cpu, r: RunnerPc, e: Execution)
    ensures var u := Send(v, s, r, e).0;
            && u.eu == s.eu
            && u.bu.btb == if v == Mvp5 && IsUnconditionalBranch(r.instr) then Remember(s.bu.btb, r.pc, e.nextPc)
               else s.bu.btb
  {
    hide Remember;
  }

  lemma JumpsOnlySend(i: Instr, regs: Regs, labels: map<string, Word>, pc: Word, bytes: seq<Byte>)
    ensures var out := Run(i, NO_FORWARD, regs, labels, pc, bytes);
            out.Ok? && IsUnconditionalBranch(i) ==> out.value.data == [] && !out.value.isReturn
  {
  }

  lemma ReadyRemembers(v: Variant, app: App, order: seq<Word>, s: Cpu, r: RunnerPc)
    requires !IsWriteHazard(s.pending, ReadRegisters(r.instr)) && !s.eu.pendingRead && s.eu.runner == Some(r)
    ensures var (u, x) := WhenReady(v, app, order, s, r);
            && OnlyLoadsWait(u)
            && u.bu.btb == if r.instr.Load? then s.bu.btb else BufferWith(v, app, s, r, [])
  {
    ReadsOnlyLoads(r.instr, s.regs);
    RunRemembers(v, app, order, s.(eu := s.eu.(remaining := 0)), r, []);
    hide RunNow, MemoryRead, IsWriteHazard, GetAll, Run, Remember;
  }

  lemma AtHandRemembers(v: Variant, app: App, order: seq<Word>, s: Cpu, r: RunnerPc)
    requires AtHand(s, r)
    ensures var (u, x) := ExecuteCycle(v, app, order, s);
            && OnlyLoadsWait(u)
            && u.bu.btb == if r.instr.Load? then s.bu.btb else BufferWith(v, app, s, r, [])
  {
    hide WhenReady, IsWriteHazard, AssertBranch, Run, Remember;
    var t := if s.eu.processing then s else
      s.(xbus := s.xbus.Shift(), eu := s.eu.(runner := Some(r), remaining := 1, processing := true));
    AssertKeepsBuffer(v, t.bu, t.fu, r);
    var (bu, fu) := AssertBranch(v, t.bu, t.fu, r);
    ReadyRemembers(v, app, order, t.(bu := bu, fu := fu), r);
  }

  lemma AssertKeepsBuffer(v: Variant, bu: BranchState, fu: FetchState, r: RunnerPc)
    ensures AssertBranch(v, bu, fu, r).0.btb == bu.btb
  {
    hide Lookup;
  }

  lemma WaitingRemembers(v: Variant, app: App, order: seq<Word>, s: Cpu)
    requires Taken(s).None? && OnlyLoadsWait(s)
    ensures var (u, x) := ExecuteCycle(v, app, order, s);
            u.bu.btb == s.bu.btb && (!x.Stopped? ==> OnlyLoadsWait(u))
  {
    hide IsWriteHazard, RunNow, MemoryRead, AssertBranch, LoadMiss, Run;
    if s.eu.pendingRead && s.eu.remaining == 1 && (s.eu.memory.Some? || s.eu.addrs != []) {
      var l := if s.eu.memory.Some? then Some(Loaded(s.eu.memory.value, s.l1d, s.memory))
        else LoadMiss(s.l1d, s.memory, s.eu.addrs);
      if l.Some? {
        RunRemembers(v, app, order,
                     s.(eu := s.eu.(remaining := 0, pendingRead := false, memory := None), l1d := l.value.lines,
                        memory := l.value.memory),
                     s.eu.runner.value, l.value.bytes);
      }
    } else if Oldest(s).Some? {
      var r := Oldest(s).value.0;
      AssertKeepsBuffer(v, s.bu, s.fu, r);
    }
  }

  lemma ExecuteRemembers(v: Variant, app: App, order: seq<Word>, s: Cpu, jumps: seq<Target>)
    requires Remembers(v, s, jumps) && OnlyLoadsWait(s)
    ensures var (u, x) := ExecuteCycle(v, app, order, s);
            Remembers(v, u, jumps + Resolved(app, s)) && (!x.Stopped? ==> OnlyLoadsWait(u))
  {
    hide ExecuteCycle, AtHand, Oldest, Run, BufferAfter, Remember;
    match Taken(s)
    case None =>
      WaitingRemembers(v, app, order, s);
      assert jumps + [] == jumps;
    case Some(r) =>
      AtHandRemembers(v, app, order, s, r);
      if Resolved(app, s) == [] { assert jumps + [] == jumps; } else { RememberedNext(jumps, Resolved(app, s)[0]); }
  }

  /** The jumps that the first turns of a run resolve, oldest first. */
  function JumpsIn(v: Variant, app: App, orders: nat -> seq<Word>, p: Progress, turns: nat): seq<Target> {
    if turns == 0 then [] else
      var before := JumpsIn(v, app, orders, p, turns - 1);
      var q := AfterTurns(v, app, orders, p, turns - 1);
      if q.stop.Some? then before else
        match FetchDecode(v, app, q.cpu)
        case None => before
        case Some(t) => before + Resolved(app, t)
  }

  lemma TurnRemembers(v: Variant, app: App, order: seq<Word>, s: Cpu, t: Cpu, jumps: seq<Target>)
    requires FetchDecode(v, app, s) == Some(t) && Remembers(v, s, jumps) && OnlyLoadsWait(s)
    ensures var c := CycleOnce(v, app, order, s);
            Remembers(v, c.next, jumps + Resolved(app, t)) && (c.stop.None? ==> OnlyLoadsWait(c.next))
  {
    hide ExecuteCycle, WriteCycle, Drain, Resolved, Remembers;
    FrontLeaves(v, app, s);
    SameBuffer(v, s, t, jumps);
    ExecuteRemembers(v, app, order, t, jumps);
    var u := ExecuteCycle(v, app, order, t).0;
    var c := CycleOnce(v, app, order, s);
    CycleUnfolds(v, app, order, s, t, u, ExecuteCycle(v, app, order, t).1);
    hide FetchDecode, CycleOnce;
    SameBuffer(v, u, c.next, jumps + Resolved(app, t));
  }

  lemma SameBuffer(v: Variant, s: Cpu, t: Cpu, jumps: seq<Target>)
    requires t.bu.btb == s.bu.btb && Remembers(v, s, jumps)
    ensures Remembers(v, t, jumps)
  {
  }

  /** In every run of a core as built the branch target buffer is that of the jumps the run has resolved. */
  lemma {:induction false} BufferIsOfTheRun(v: Variant, app: App, orders: nat -> seq<Word>, p: Progress, turns: nat)
    requires p.cpu.bu.btb == [] && !p.cpu.eu.pendingRead
    ensures var q := AfterTurns(v, app, orders, p, turns);
            Remembers(v, q.cpu, JumpsIn(v, app, orders, p, turns)) && (q.stop.None? ==> OnlyLoadsWait(q.cpu))
  {
    hide CycleOnce, Resolved, FetchDecode;
    if turns > 0 {
      hide Remembers;
      BufferIsOfTheRun(v, app, orders, p, turns - 1);
      var q := AfterTurns(v, app, orders, p, turns - 1);
      if q.stop.None? {
        var f := FetchDecode(v, app, q.cpu);
        if f.Some? { TurnRemembers(v, app, orders(q.executed), q.cpu, f.value, JumpsIn(v, app, orders, p, turns - 1)); }
        else { FrontPanics(v, app, orders(q.executed), q.cpu); }
      }
    }
  }

  lemma FrontPanics(v: Variant, app: App, order: seq<Word>, s: Cpu)
    requires FetchDecode(v, app, s).None?
    ensures CycleOnce(v, app, order, s) == Turn(s, 1, false, Some(Error(GoPanic)))
  {
    hide FetchDecode;
  }

  /** In every run of a core as built: the turn in which a jump runs flushes if and only if its program counter is not
      among the last four inserted by the jumps before it, or the core is MVP-4, and its target is not -1. */
  lemma JumpFlushesUnlessKnown(v: Variant, app: App, orders: nat -> seq<Word>, p: Progress, turns: nat, t: Cpu,
                               r: RunnerPc, e: Execution)
    requires p.cpu.bu.btb == [] && !p.cpu.eu.pendingRead
    requires var q := AfterTurns(v, app, orders, p, turns);
             && q.stop.None? && FetchDecode(v, app, q.cpu) == Some(t)
             && AtHand(t, r) && IsUnconditionalBranch(r.instr) && Result(app, t, r) == Ok(e)
    ensures var q := AfterTurns(v, app, orders, p, turns);
            var known := v == Mvp5 && r.pc in LastFew(Insertions(JumpsIn(v, app, orders, p, turns)));
            && ExecuteCycle(v, app, orders(q.executed), t).1
               == (if known || e.nextPc == -1 then Ran else RanAndFlush(e.nextPc))
            && JumpsIn(v, app, orders, p, turns + 1)
               == JumpsIn(v, app, orders, p, turns) + [Target(r.pc, e.nextPc)]
  {
    hide CycleOnce, FetchDecode, Run, ExecuteCycle, Insertions, LastFew, AtHand, Remembers;
    BufferIsOfTheRun(v, app, orders, p, turns);
    var q := AfterTurns(v, app, orders, p, turns);
    FrontLeaves(v, app, q.cpu);
    SameBuffer(v, q.cpu, t, JumpsIn(v, app, orders, p, turns));
    OnlyBranchesJump(r.instr, t.regs, app.labels, r.pc);
    FlushesExactly(v, app, orders(q.executed), t, r, JumpsIn(v, app, orders, p, turns), e);
    AtHandIsTaken(t, r);
  }

  lemma AtHandIsTaken(s: Cpu, r: RunnerPc)
    requires AtHand(s, r)
    ensures Taken(s) == Some(r)
  {
    hide IsWriteHazard;
  }
}
