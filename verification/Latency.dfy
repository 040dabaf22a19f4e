/** How long MVP-4 and MVP-5 take over an instruction (proc/mvp4/eu.go, proc/mvp5/eu.go). */
module Latency {
  import opened Words
  import opened Isa
  import opened Cache
  import opened Mmu
  import opened Sequential
  import opened Pipeline
  import opened PipelineInvariant
  import opened PipelineProof
  import opened PipelineRun
  import Coherence
  import PipelineExact

  // ---------------------------------------------------------------- one turn

  /** The front end moves nothing that the execute unit is about to take. */
  lemma FrontLeaves(v: Variant, app: App, s: Cpu)
    ensures var t := FetchDecode(v, app, s);
            t.Some? ==> OnlyFrontMoved(s, t.value) && t.value.xbus.current == s.xbus.current
  {
    hide FetchCycle;
  }

  /** A turn whose execute unit waits runs nothing and leaves that unit and the L1D as it left them; with nothing to
      write back it goes on, with the same registers and memory. */
  lemma WaitingTurn(v: Variant, app: App, order: seq<Word>, s: Cpu, t: Cpu, u: Cpu)
    requires FetchDecode(v, app, s) == Some(t) && ExecuteCycle(v, app, order, t) == (u, Stalled) && u.eu.processing
    ensures var c := CycleOnce(v, app, order, s);
            && !c.ran
            && (c.stop.None? ==> c.next.eu == u.eu && c.next.l1d == u.l1d)
            && (u.wbus.IsEmpty() ==> c.stop.None? && c.next == u.(wu := c.next.wu))
  {
    hide FetchDecode, ExecuteCycle, Retire, SubAll;
  }

  /** A turn in which the execute unit does not wait runs an instruction or ends the run. */
  lemma RunningTurn(v: Variant, app: App, order: seq<Word>, s: Cpu, t: Cpu)
    requires FetchDecode(v, app, s) == Some(t) && !ExecuteCycle(v, app, order, t).1.Stalled?
    ensures var c := CycleOnce(v, app, order, s); c.ran || c.stop.Some?
  {
    hide FetchDecode, ExecuteCycle, WriteCycle, Drain;
  }

  /** The instruction at hand counts down, with no write queued that it would have to wait for. */
  predicate Counting(s: Cpu, r: RunnerPc, remaining: int) {
    && s.eu.processing && !s.eu.pendingRead && s.eu.runner == Some(r) && s.eu.remaining == remaining
    && s.wbus.IsEmpty() && !IsWriteHazard(s.pending, ReadRegisters(r.instr))
  }

  /** It waits for what it loads. */
  predicate Loading(s: Cpu, remaining: int) {
    s.eu.processing && s.eu.pendingRead && s.eu.remaining == remaining
  }

  /** What an instruction sees of the state. */
  predicate SameOperands(s: Cpu, t: Cpu) { t.l1d == s.l1d && t.regs == s.regs }

  lemma CountingTurn(v: Variant, app: App, order: seq<Word>, s: Cpu, r: RunnerPc, remaining: int)
    requires Counting(s, r, remaining) && remaining != 1
    ensures var c := CycleOnce(v, app, order, s);
            !c.ran && (c.stop.None? ==> Counting(c.next, r, remaining - 1) && SameOperands(s, c.next))
  {
    FrontLeaves(v, app, s);
    var f := FetchDecode(v, app, s);
    if f.Some? {
      var t := f.value;
      var u := t.(eu := t.eu.(remaining := t.eu.remaining - 1));
      assert ExecuteCycle(v, app, order, t) == (u, Stalled);
      WaitingTurn(v, app, order, s, t, u);
    }
    hide FetchDecode, ExecuteCycle, IsWriteHazard;
  }

  lemma LoadingTurn(v: Variant, app: App, order: seq<Word>, s: Cpu, remaining: int)
    requires Loading(s, remaining)
    ensures var c := CycleOnce(v, app, order, s);
            if remaining != 1 then !c.ran && (c.stop.None? ==> Loading(c.next, remaining - 1))
            else c.ran || c.stop.Some?
  {
    FrontLeaves(v, app, s);
    var f := FetchDecode(v, app, s);
    if f.Some? {
      var t := f.value;
      if remaining != 1 {
        var u := t.(eu := t.eu.(remaining := t.eu.remaining - 1));
        assert ExecuteCycle(v, app, order, t) == (u, Stalled);
        WaitingTurn(v, app, order, s, t, u);
      } else {
        FinishingRuns(v, app, order, t);
        RunningTurn(v, app, order, s, t);
      }
    }
    hide FetchDecode, ExecuteCycle;
  }

  lemma SendNeverStalls(v: Variant, s: Cpu, r: RunnerPc, e: Execution)
    ensures !Send(v, s, r, e).1.Stalled?
  {
  }

  lemma RunNeverStalls(v: Variant, app: App, order: seq<Word>, s: Cpu, r: RunnerPc, bytes: seq<Byte>)
    ensures !RunNow(v, app, order, s, r, bytes).1.Stalled?
  {
    hide Run, LookUp, WriteTo, Send;
    var out := Run(r.instr, NO_FORWARD, s.regs, app.labels, r.pc, bytes);
    if out.Ok? && !out.value.isReturn {
      var t := s.(eu := s.eu.(runner := None, processing := false), regs := DirectWrite(r.instr, s.regs, r.pc));
      SendNeverStalls(v, t, r, out.value);
      SendNeverStalls(v, t.(l1d := LookUp(t.l1d, order, out.value).1), r, out.value);
    }
  }

  lemma FinishingRuns(v: Variant, app: App, order: seq<Word>, s: Cpu)
    requires s.eu.pendingRead && s.eu.remaining == 1
    ensures !ExecuteCycle(v, app, order, s).1.Stalled?
  {
    hide LoadMiss, RunNow;
    if s.eu.runner.Some? && (s.eu.memory.Some? || s.eu.addrs != []) {
      var l := if s.eu.memory.Some? then Some(Loaded(s.eu.memory.value, s.l1d, s.memory))
        else LoadMiss(s.l1d, s.memory, s.eu.addrs);
      if l.Some? {
        RunNeverStalls(v, app, order,
                       s.(eu := s.eu.(remaining := 0, pendingRead := false, memory := None), l1d := l.value.lines,
                          memory := l.value.memory),
                       s.eu.runner.value, l.value.bytes);
      }
    }
  }

  /** The instruction that has its turn in the execute unit neither counts down nor waits. */
  predicate AtHand(s: Cpu, r: RunnerPc) {
    && !s.eu.pendingRead && s.wbus.pending.None? && !IsWriteHazard(s.pending, ReadRegisters(r.instr))
    && if s.eu.processing then s.eu.runner == Some(r) && s.eu.remaining == 1
       else s.xbus.current == Some(r) && Cycles(r.instr) == 1
  }

  ghost predicate AllResident(s: Cpu, r: RunnerPc) {
    var addrs := MemoryRead(r.instr, NO_FORWARD, s.regs);
    forall k :: 0 <= k < |addrs| ==> Coherence.Resident(s.l1d, addrs[k])
  }

  lemma ReadyExecutes(v: Variant, app: App, order: seq<Word>, s: Cpu, r: RunnerPc)
    requires !IsWriteHazard(s.pending, ReadRegisters(r.instr))
    ensures var (u, x) := WhenReady(v, app, order, s, r);
            if r.instr.Load?
            then x.Stalled? && u.eu.pendingRead && u.eu.remaining == (if AllResident(s, r) then 1 else 50)
                 && u.eu.processing == s.eu.processing
            else !x.Stalled?
  {
    ReadsOnlyLoads(r.instr, s.regs);
    Coherence.GetAllPermutes(s.l1d, MemoryRead(r.instr, NO_FORWARD, s.regs));
    RunNeverStalls(v, app, order, s.(eu := s.eu.(remaining := 0)), r, []);
    hide RunNow, MemoryRead, IsWriteHazard, GetAll;
  }

  lemma AtHandExecutes(v: Variant, app: App, order: seq<Word>, s: Cpu, r: RunnerPc)
    requires AtHand(s, r)
    ensures var (u, x) := ExecuteCycle(v, app, order, s);
            if r.instr.Load? then x.Stalled? && Loading(u, if AllResident(s, r) then 1 else 50) else !x.Stalled?
  {
    var t := if s.eu.processing then s else
      s.(xbus := s.xbus.Shift(), eu := s.eu.(runner := Some(r), remaining := 1, processing := true));
    var (bu, fu) := AssertBranch(v, t.bu, t.fu, r);
    ReadyExecutes(v, app, order, t.(bu := bu, fu := fu), r);
    hide WhenReady, IsWriteHazard, AssertBranch, MemoryRead, Coherence.Resident;
  }

  lemma ReadsOnlyLoads(i: Instr, regs: Regs)
    ensures MemoryRead(i, NO_FORWARD, regs) != [] <==> i.Load?
  {
    if i.Load? { assert |MemoryRead(i, NO_FORWARD, regs)| == Bytes(i.width); }
  }

  lemma AtHandTurn(v: Variant, app: App, order: seq<Word>, s: Cpu, r: RunnerPc)
    requires AtHand(s, r)
    ensures var c := CycleOnce(v, app, order, s);
            if r.instr.Load? then !c.ran && (c.stop.None? ==> Loading(c.next, if AllResident(s, r) then 1 else 50))
            else c.ran || c.stop.Some?
  {
    FrontLeaves(v, app, s);
    var f := FetchDecode(v, app, s);
    if f.Some? {
      var t := f.value;
      AtHandExecutes(v, app, order, t, r);
      if r.instr.Load? { WaitingTurn(v, app, order, s, t, ExecuteCycle(v, app, order, t).0); }
      else { RunningTurn(v, app, order, s, t); }
    }
    hide FetchDecode, ExecuteCycle, IsWriteHazard, Coherence.Resident;
  }

  lemma TakingTurn(v: Variant, app: App, order: seq<Word>, s: Cpu, r: RunnerPc)
    requires !s.eu.processing && !s.eu.pendingRead && s.xbus.current == Some(r) && r.instr.Load?
    requires s.wbus.IsEmpty() && !IsWriteHazard(s.pending, ReadRegisters(r.instr))
    ensures var c := CycleOnce(v, app, order, s);
            !c.ran && (c.stop.None? ==> Counting(c.next, r, 49) && SameOperands(s, c.next))
  {
    FrontLeaves(v, app, s);
    var f := FetchDecode(v, app, s);
    if f.Some? {
      var t := f.value;
      var u := ExecuteCycle(v, app, order, t).0;
      assert ExecuteCycle(v, app, order, t) == (u, Stalled);
      assert u.eu.remaining == 49 && u.eu.processing && u.eu.runner == Some(r) && !u.eu.pendingRead;
      WaitingTurn(v, app, order, s, t, u);
    }
    hide FetchDecode, ExecuteCycle, IsWriteHazard;
  }

  /** It has its turn, and no cycle more to count. */
  predicate Due(s: Cpu, r: RunnerPc) {
    !s.eu.pendingRead && if s.eu.processing then s.eu.runner == Some(r) && s.eu.remaining == 1
                         else s.xbus.current == Some(r) && Cycles(r.instr) == 1
  }

  lemma HazardIsQueued(pending: Pending, wbus: Bus<WriteEntry>, rs: seq<Reg>)
    requires forall r: Reg :: r != ZERO ==> Count(pending, r) == WritersOf(wbus, r)
    ensures IsWriteHazard(pending, rs) <==> exists r :: r in rs && r != ZERO && WritersOf(wbus, r) > 0
  {
    if IsWriteHazard(pending, rs) {
      var k :| 0 <= k < |rs| && rs[k] != ZERO && Count(pending, rs[k]) > 0;
      assert rs[k] in rs;
    }
    hide WritersOf;
  }

  /** An instruction that is due and not a load runs in this turn if and only if the write bus has room and no queued
      write declares a register that it reads. */
  lemma WaitsExactly(v: Variant, app: App, order: seq<Word>, s: Cpu, r: RunnerPc, ref: Cached)
    requires Inv(v, app, s, ref) && FetchDecode(v, app, s).Some? && Due(s, r) && !r.instr.Load?
    ensures var c := CycleOnce(v, app, order, s);
            c.ran || c.stop.Some? <==>
              && s.wbus.pending.None?
              && !exists q :: q in ReadRegisters(r.instr) && q != ZERO && WritersOf(s.wbus, q) > 0
  {
    HazardIsQueued(s.pending, s.wbus, ReadRegisters(r.instr));
    if s.wbus.pending.None? && !IsWriteHazard(s.pending, ReadRegisters(r.instr)) {
      AtHandTurn(v, app, order, s, r);
    } else {
      FrontLeaves(v, app, s);
      var t := FetchDecode(v, app, s).value;
      DueWaits(v, app, order, t, r);
      var u := ExecuteCycle(v, app, order, t).0;
      PipelineExact.WriteSucceeds(Retirement(u), |s.memory|);
      GoesOn(v, app, order, s, t, u);
    }
    hide FetchDecode, ExecuteCycle, IsWriteHazard, WritersOf, CycleOnce, Chain, Storage, Registers;
  }

  lemma DueWaits(v: Variant, app: App, order: seq<Word>, s: Cpu, r: RunnerPc)
    requires Due(s, r) && (s.wbus.pending.Some? || IsWriteHazard(s.pending, ReadRegisters(r.instr)))
    ensures var (u, x) := ExecuteCycle(v, app, order, s);
            x.Stalled? && u.eu.processing && Retirement(u) == Retirement(s)
  {
    hide IsWriteHazard, RunNow, MemoryRead, AssertBranch;
  }

  lemma GoesOn(v: Variant, app: App, order: seq<Word>, s: Cpu, t: Cpu, u: Cpu)
    requires FetchDecode(v, app, s) == Some(t) && ExecuteCycle(v, app, order, t) == (u, Stalled) && u.eu.processing
    requires WriteCycle(Retirement(u)).Some?
    ensures var c := CycleOnce(v, app, order, s); !c.ran && c.stop.None?
  {
    hide FetchDecode, ExecuteCycle, WriteCycle;
  }

  /** Everything has been fetched, and no unit or bus holds anything. */
  predicate AllDone(s: Cpu) {
    && s.fu.complete && s.dbus == Bus(None, None) && s.xbus == Bus(None, None) && !s.eu.processing
    && s.wbus == Bus(None, None) && !s.wu.pendingWrite
  }

  /** A turn that neither fails, nor returns, nor flushes ends the run if and only if nothing is left to do. */
  lemma EndsExactly(v: Variant, app: App, order: seq<Word>, s: Cpu, t: Cpu)
    requires FetchDecode(v, app, s) == Some(t)
    ensures var c, x := CycleOnce(v, app, order, s), ExecuteCycle(v, app, order, t).1;
            && (c.stop == Some(End) ==> AllDone(c.next))
            && ((x.Stalled? || x.Ran?) && (c.stop.None? || !c.stop.value.Error?) ==>
                  (c.stop == Some(End) <==> AllDone(c.next)))
  {
    hide FetchDecode, ExecuteCycle, WriteCycle, Drain;
    StopsNotAtEnd(v, app, order, t);
  }

  lemma StopsNotAtEnd(v: Variant, app: App, order: seq<Word>, s: Cpu)
    ensures ExecuteCycle(v, app, order, s).1 != Stopped(End)
  {
    hide Run, LoadMiss, LookUp, AssertBranch, IsWriteHazard, MemoryRead, GetAll, WriteTo, AddAll;
  }

  // ---------------------------------------------------------------- many turns

  /** The next instruction runs in exactly the n-th turn from here, unless the core stops before. */
  ghost predicate RunsIn(v: Variant, app: App, orders: nat -> seq<Word>, p: Progress, n: nat) {
    && (forall j: nat :: j < n ==> AfterTurns(v, app, orders, p, j).executed == p.executed)
    && (AfterTurns(v, app, orders, p, n).stop.None? ==> AfterTurns(v, app, orders, p, n).executed == p.executed + 1)
  }

  lemma {:induction false} TurnFirst(v: Variant, app: App, orders: nat -> seq<Word>, p: Progress, n: nat)
    ensures AfterTurns(v, app, orders, p, n + 1) == AfterTurns(v, app, orders, Advance(v, app, orders, p), n)
  {
    hide Advance;
    if n > 0 { TurnFirst(v, app, orders, p, n - 1); }
  }

  lemma {:induction false} StoppedStays(v: Variant, app: App, orders: nat -> seq<Word>, p: Progress, n: nat)
    requires p.stop.Some?
    ensures AfterTurns(v, app, orders, p, n) == p
  {
    hide CycleOnce;
    if n > 0 { StoppedStays(v, app, orders, p, n - 1); }
  }

  /** One more turn in front. */
  lemma RunsLater(v: Variant, app: App, orders: nat -> seq<Word>, p: Progress, n: nat)
    requires p.stop.None? && !CycleOnce(v, app, orders(p.executed), p.cpu).ran
    requires Advance(v, app, orders, p).stop.None? ==> RunsIn(v, app, orders, Advance(v, app, orders, p), n)
    ensures RunsIn(v, app, orders, p, n + 1)
  {
    hide CycleOnce, AfterTurns;
    var q := Advance(v, app, orders, p);
    assert q.executed == p.executed;
    forall j: nat | j <= n ensures j < n + 1 ==> AfterTurns(v, app, orders, p, j).executed == p.executed {
      if j > 0 { LaterTurns(v, app, orders, p, q, n, j); } else { NoTurns(v, app, orders, p); }
    }
    TurnFirst(v, app, orders, p, n);
    if q.stop.Some? { StoppedStays(v, app, orders, q, n); }
  }

  lemma NoTurns(v: Variant, app: App, orders: nat -> seq<Word>, p: Progress)
    ensures AfterTurns(v, app, orders, p, 0) == p
  {
  }

  lemma LaterTurns(v: Variant, app: App, orders: nat -> seq<Word>, p: Progress, q: Progress, n: nat, j: nat)
    requires q == Advance(v, app, orders, p) && 0 < j <= n
    requires q.stop.None? ==> RunsIn(v, app, orders, q, n)
    ensures AfterTurns(v, app, orders, p, j).executed == q.executed
  {
    hide AfterTurns, Advance;
    TurnFirst(v, app, orders, p, j - 1);
    if q.stop.Some? { StoppedStays(v, app, orders, q, j - 1); }
  }

  lemma RunsNow(v: Variant, app: App, orders: nat -> seq<Word>, p: Progress)
    requires p.stop.None?
    requires var c := CycleOnce(v, app, orders(p.executed), p.cpu); c.ran || c.stop.Some?
    ensures RunsIn(v, app, orders, p, 1)
  {
    hide CycleOnce;
    assert AfterTurns(v, app, orders, p, 0) == p;
    assert AfterTurns(v, app, orders, p, 1) == Advance(v, app, orders, p);
  }

  lemma {:induction false} LoadingRuns(v: Variant, app: App, orders: nat -> seq<Word>, p: Progress, remaining: nat)
    requires p.stop.None? && Loading(p.cpu, remaining) && remaining >= 1
    ensures RunsIn(v, app, orders, p, remaining)
    decreases remaining
  {
    hide CycleOnce, RunsIn;
    LoadingTurn(v, app, orders(p.executed), p.cpu, remaining);
    if remaining == 1 {
      RunsNow(v, app, orders, p);
    } else {
      var q := Advance(v, app, orders, p);
      if q.stop.None? { LoadingRuns(v, app, orders, q, remaining - 1); }
      RunsLater(v, app, orders, p, remaining - 1);
    }
  }

  /** An instruction that gets its operands runs in that very turn; a load starts to read in it and runs one turn later
      if the L1D holds all it needs, and else fifty turns later. */
  lemma LoadTakes(v: Variant, app: App, orders: nat -> seq<Word>, p: Progress, r: RunnerPc)
    requires p.stop.None? && AtHand(p.cpu, r)
    ensures RunsIn(v, app, orders, p, if !r.instr.Load? then 1 else if AllResident(p.cpu, r) then 2 else 51)
  {
    hide CycleOnce, RunsIn, AtHand, AllResident, AfterTurns;
    AtHandTurn(v, app, orders(p.executed), p.cpu, r);
    if r.instr.Load? {
      var q, wait := Advance(v, app, orders, p), if AllResident(p.cpu, r) then 1 else 50;
      if q.stop.None? { LoadingRuns(v, app, orders, q, wait); }
      RunsLater(v, app, orders, p, wait);
    } else {
      RunsNow(v, app, orders, p);
    }
  }

  lemma {:induction false} CountingRuns(v: Variant, app: App, orders: nat -> seq<Word>, p: Progress, r: RunnerPc,
                                        remaining: nat)
    requires p.stop.None? && Counting(p.cpu, r, remaining) && remaining >= 1 && r.instr.Load?
    ensures RunsIn(v, app, orders, p, remaining + if AllResident(p.cpu, r) then 1 else 50)
    decreases remaining
  {
    hide CycleOnce, RunsIn, AllResident, AfterTurns, IsWriteHazard;
    if remaining == 1 {
      LoadTakes(v, app, orders, p, r);
    } else {
      CountingTurn(v, app, orders(p.executed), p.cpu, r, remaining);
      var q, wait := Advance(v, app, orders, p), if AllResident(p.cpu, r) then 1 else 50;
      if q.stop.None? {
        SameResidents(p.cpu, q.cpu, r);
        CountingRuns(v, app, orders, q, r, remaining - 1);
      }
      RunsLater(v, app, orders, p, remaining - 1 + wait);
    }
  }

  lemma SameResidents(s: Cpu, t: Cpu, r: RunnerPc)
    requires SameOperands(s, t)
    ensures AllResident(t, r) == AllResident(s, r)
  {
  }

  /** From the turn in which the execute unit takes an instruction, with no write queued before it: it runs in that
      turn, or, a load, in the 51st if the L1D holds all it needs, and else in the hundredth. */
  lemma InstructionTakes(v: Variant, app: App, orders: nat -> seq<Word>, p: Progress, r: RunnerPc)
    requires p.stop.None? && !p.cpu.eu.processing && !p.cpu.eu.pendingRead && p.cpu.xbus.current == Some(r)
    requires p.cpu.wbus.IsEmpty() && !IsWriteHazard(p.cpu.pending, ReadRegisters(r.instr))
    ensures RunsIn(v, app, orders, p, if !r.instr.Load? then 1 else if AllResident(p.cpu, r) then 51 else 100)
  {
    hide CycleOnce, RunsIn, AllResident, AfterTurns, IsWriteHazard;
    if r.instr.Load? {
      TakingTurn(v, app, orders(p.executed), p.cpu, r);
      var q, wait := Advance(v, app, orders, p), if AllResident(p.cpu, r) then 50 else 99;
      if q.stop.None? {
        SameResidents(p.cpu, q.cpu, r);
        CountingRuns(v, app, orders, q, r, 49);
      }
      RunsLater(v, app, orders, p, wait);
    } else {
      LoadTakes(v, app, orders, p, r);
    }
  }
}
