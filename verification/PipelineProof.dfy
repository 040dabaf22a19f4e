/** MVP-4 and MVP-5 refine the sequential core, cycle by cycle. */
module PipelineProof {
  import opened Words
  import opened Isa
  import opened Cache
  import opened Mmu
  import opened Sequential
  import opened Pipeline
  import opened PipelineInvariant

  // ---------------------------------------------------------------- fetch and decode

  /** The fetch unit cleans the bus when told to, then counts down, or hands its program counter over. */
  ghost predicate FetchStep(app: App, fu: FetchState, dbus: Bus<Word>, fu1: FetchState, dbus1: Bus<Word>) {
    var bus := Fetched(fu, dbus);
    && !fu1.toClean && FetchTimer(fu1)
    && (if fu.complete then fu1 == fu.(toClean := false) && dbus1 == bus
        else if dbus1 == bus then
          && fu1.pc == fu.pc && !fu1.complete && fu1.processing
          && (bus.pending.None? ==> fu1.remaining < if fu.processing then fu.remaining else 51)
        else
          && bus.pending.None? && dbus1 == bus.(pending := Some(fu.pc))
          && fu1.pc == Wrap(fu.pc + 4) && (fu1.complete <==> Index(fu1.pc) >= |app.code|))
  }

  lemma FetchIsStep(app: App, fu: FetchState, l1i: seq<Line>, dbus: Bus<Word>)
    requires FetchTimer(fu)
    ensures var (fu1, l1i1, dbus1) := FetchCycle(app, fu, l1i, dbus); FetchStep(app, fu, dbus, fu1, dbus1)
  {
    var (fu1, l1i1) := StartFetch(fu.(toClean := false), l1i);
    assert 1 <= fu1.remaining <= 50 && fu1.processing && fu1.pc == fu.pc && fu1.complete == fu.complete;
  }

  lemma FetchStepKeepsUpstream(app: App, fu: FetchState, dbus: Bus<Word>, fu1: FetchState, dbus1: Bus<Word>, first: int)
    requires Runnable(app) && FetchTimer(fu) && FetchStep(app, fu, dbus, fu1, dbus1)
    requires Upstream(app, fu, Fetched(fu, dbus), first)
    ensures Upstream(app, fu1, dbus1, first)
    ensures FetchDistance(fu1, dbus1) <= FetchDistance(fu, Fetched(fu, dbus))
    ensures Fetched(fu, dbus).IsEmpty() && !fu.complete ==>
              FetchDistance(fu1, dbus1) < FetchDistance(fu, Fetched(fu, dbus))
  {
  }

  /** The decode unit moves at most one instruction on, and waits when that is a jump. */
  ghost predicate DecodeStep(fu: FetchState, eu: ExecuteState, dbus: Bus<Word>, xbus: Bus<RunnerPc>, dbus1: Bus<Word>,
                             xbus1: Bus<RunnerPc>)
    requires FetchTimer(fu)
  {
    && (xbus1 == xbus || (xbus.pending.None? && xbus1 == Bus(xbus.current, xbus1.pending) && xbus1.pending.Some?))
    && (Decoded(eu, xbus) == 0 ==>
          if xbus1.pending.Some? then dbus.current.Some?
          else FetchDistance(fu, dbus1) <= FetchDistance(fu, dbus)
               && (!dbus.IsEmpty() ==> FetchDistance(fu, dbus1) < FetchDistance(fu, dbus)))
  }

  lemma DecodeKeepsChain(v: Variant, app: App, fu: FetchState, eu: ExecuteState, dbus: Bus<Word>, xbus: Bus<RunnerPc>,
                         pc: int)
    requires Runnable(app) && FetchTimer(fu)
    requires Downstream(v, app, eu, xbus, false, pc)
    requires Upstream(app, fu, dbus, pc + 4 * Decoded(eu, xbus))
    ensures var d := DecodeCycle(v, app, false, dbus, xbus);
            if d.None? then pc <= -4 else
              var (blocked1, dbus1, xbus1) := d.value;
              && Downstream(v, app, eu, xbus1, blocked1, pc)
              && (!blocked1 ==> Upstream(app, fu, dbus1, pc + 4 * Decoded(eu, xbus1)))
              && DecodeStep(fu, eu, dbus, xbus, dbus1, xbus1)
  {
  }

  /** Some instruction is on its way to the execute unit or still to be fetched. */
  predicate Busy(s: Cpu) {
    Decoded(s.eu, s.xbus) > 0 || !Fetched(s.fu, s.dbus).IsEmpty() || !s.fu.complete
  }

  ghost predicate OnlyFrontMoved(s: Cpu, t: Cpu) {
    t.eu == s.eu && t.wbus == s.wbus && t.wu == s.wu && t.bu == s.bu && t.regs == s.regs
    && t.pending == s.pending && t.memory == s.memory && t.l1d == s.l1d
  }

  /** Fetch, then decode. */
  ghost predicate FrontStep(app: App, s: Cpu, t: Cpu, dbus: Bus<Word>)
    requires FetchTimer(t.fu)
  {
    && FetchStep(app, s.fu, s.dbus, t.fu, dbus)
    && (if s.blocked then t.dbus == dbus && t.xbus == s.xbus else DecodeStep(t.fu, s.eu, dbus, s.xbus, t.dbus, t.xbus))
    && OnlyFrontMoved(s, t)
  }

  lemma FrontComesCloser(v: Variant, app: App, s: Cpu, pc: int, t: Cpu, dbus: Bus<Word>)
    requires Runnable(app) && Chain(v, app, s, pc) && FetchTimer(s.fu) && FetchTimer(t.fu) && ExecuteTimer(s.eu)
    requires FrontStep(app, s, t, dbus)
    ensures if Decoded(s.eu, s.xbus) > 0 then Decoded(t.eu, t.xbus) > 0 && Distance(t) == Distance(s)
            else Distance(t) <= Distance(s) && (Busy(s) ==> Distance(t) < Distance(s))
  {
    if !s.blocked {
      FetchStepKeepsUpstream(app, s.fu, s.dbus, t.fu, dbus, pc + 4 * Decoded(s.eu, s.xbus));
    }
  }

  lemma FetchKeepsChain(v: Variant, app: App, s: Cpu, pc: int)
    requires Runnable(app) && Chain(v, app, s, pc) && FetchTimer(s.fu)
    ensures var f := FetchCycle(app, s.fu, s.l1i, s.dbus);
            && FetchStep(app, s.fu, s.dbus, f.0, f.2)
            && (!s.blocked ==> Upstream(app, f.0, f.2, pc + 4 * Decoded(s.eu, s.xbus)))
  {
    FetchIsStep(app, s.fu, s.l1i, s.dbus);
    if !s.blocked {
      var f := FetchCycle(app, s.fu, s.l1i, s.dbus);
      FetchStepKeepsUpstream(app, s.fu, s.dbus, f.0, f.2, pc + 4 * Decoded(s.eu, s.xbus));
    }
  }

  lemma FrontKeepsChain(v: Variant, app: App, s: Cpu, pc: int, fu: FetchState, l1i: seq<Line>, dbus: Bus<Word>)
    requires Runnable(app) && Chain(v, app, s, pc)
    requires FetchTimer(fu) && FetchStep(app, s.fu, s.dbus, fu, dbus)
    requires !s.blocked ==> Upstream(app, fu, dbus, pc + 4 * Decoded(s.eu, s.xbus))
    ensures var d := DecodeCycle(v, app, s.blocked, dbus, s.xbus);
            if d.None? then pc <= -4 else
              var t := s.(fu := fu, l1i := l1i, dbus := d.value.1, blocked := d.value.0, xbus := d.value.2);
              Chain(v, app, t, pc) && FrontStep(app, s, t, dbus)
  {
    hide Upstream, Downstream;
    if !s.blocked {
      hide DecodeCycle;
      DecodeKeepsChain(v, app, fu, s.eu, dbus, s.xbus, pc);
    }
  }

  /** Fetch and decode keep the chain and bring its first instruction closer. Only a program counter in front of the
      program makes the decode unit panic. */
  lemma FetchDecodeKeepsInv(v: Variant, app: App, s: Cpu, ref: Cached)
    requires Inv(v, app, s, ref)
    ensures match FetchDecode(v, app, s)
            case None => ref.pc <= -4
            case Some(t) =>
              && Inv(v, app, t, ref) && OnlyFrontMoved(s, t)
              && (if Decoded(s.eu, s.xbus) > 0 then Decoded(t.eu, t.xbus) > 0 && Distance(t) == Distance(s)
                  else Distance(t) <= Distance(s) && (Busy(s) ==> Distance(t) < Distance(s)))
  {
    hide Registers, Storage, DecodeCycle, FetchCycle;
    var f := FetchCycle(app, s.fu, s.l1i, s.dbus);
    FetchKeepsChain(v, app, s, ref.pc);
    FrontKeepsChain(v, app, s, ref.pc, f.0, f.1, f.2);
    var r := FetchDecode(v, app, s);
    if r.Some? { FrontComesCloser(v, app, s, ref.pc, r.value, f.2); }
  }

  // ---------------------------------------------------------------- what the execute unit leaves alone

  ghost predicate Leaves(s: Cpu, t: Cpu) {
    t.dbus == s.dbus && t.wu == s.wu && t.l1i == s.l1i && t.wbus.current == s.wbus.current && |t.memory| == |s.memory|
  }

  lemma MissKeepsSize(lines: seq<Line>, memory: Memory, addrs: seq<Word>)
    requires |addrs| > 0
    ensures LoadMiss(lines, memory, addrs).Some? ==> |LoadMiss(lines, memory, addrs).value.memory| == |memory|
  {
    hide GetAll;
  }

  lemma SendLeaves(v: Variant, s: Cpu, r: RunnerPc, e: Execution)
    ensures Leaves(s, Send(v, s, r, e).0)
  {
    hide AddAll, Remember, WriteRegisters;
  }

  lemma DeliverLeaves(v: Variant, order: seq<Word>, s: Cpu, r: RunnerPc, e: Execution)
    ensures Leaves(s, Deliver(v, order, s, r, e).0)
  {
    hide Send, LookUp, WriteTo;
    SendLeaves(v, s, r, e);
    SendLeaves(v, s.(l1d := LookUp(s.l1d, order, e).1), r, e);
  }

  lemma RunLeaves(v: Variant, app: App, order: seq<Word>, s: Cpu, r: RunnerPc, bytes: seq<Byte>)
    ensures Leaves(s, RunNow(v, app, order, s, r, bytes).0)
  {
    hide Run, Deliver, DirectWrite;
    var out := Run(r.instr, NO_FORWARD, s.regs, app.labels, r.pc, bytes);
    if out.Ok? {
      var t := s.(eu := s.eu.(runner := None, processing := false), regs := DirectWrite(r.instr, s.regs, r.pc));
      DeliverLeaves(v, order, t, r, out.value);
    }
  }

  lemma FinishReadLeaves(v: Variant, app: App, order: seq<Word>, s: Cpu)
    ensures Leaves(s, FinishRead(v, app, order, s).0)
  {
    hide LoadMiss, RunNow;
    if !(s.eu.runner.None? || (s.eu.memory.None? && s.eu.addrs == [])) {
      var l := if s.eu.memory.Some? then Some(Loaded(s.eu.memory.value, s.l1d, s.memory))
        else LoadMiss(s.l1d, s.memory, s.eu.addrs);
      if s.eu.memory.None? { MissKeepsSize(s.l1d, s.memory, s.eu.addrs); }
      if l.Some? {
        var s2 := s.(eu := s.eu.(remaining := 0, pendingRead := false, memory := None), l1d := l.value.lines,
                     memory := l.value.memory);
        RunLeaves(v, app, order, s2, s.eu.runner.value, l.value.bytes);
      }
    }
  }

  lemma PrepareLeaves(v: Variant, app: App, order: seq<Word>, s: Cpu)
    ensures Leaves(s, Prepare(v, app, order, s).0)
  {
    hide GetAll, RunNow, AssertBranch, MemoryRead, ReadRegisters;
    if s.eu.runner.Some? {
      var (bu, fu) := AssertBranch(v, s.bu, s.fu, s.eu.runner.value);
      RunLeaves(v, app, order, s.(bu := bu, fu := fu, eu := s.eu.(remaining := 0)), s.eu.runner.value, []);
    }
  }

  /** The execute unit touches neither the bus before the decode unit, nor the write unit, nor the L1I. */
  lemma ExecuteLeaves(v: Variant, app: App, order: seq<Word>, s: Cpu)
    ensures Leaves(s, ExecuteCycle(v, app, order, s).0)
  {
    hide Prepare, FinishRead, Cycles;
    FinishReadLeaves(v, app, order, s);
    PrepareLeaves(v, app, order, s);
    if s.xbus.current.Some? {
      var r := s.xbus.current.value;
      PrepareLeaves(v, app, order, s.(xbus := s.xbus.Shift(),
                                      eu := s.eu.(runner := Some(r), remaining := Cycles(r.instr),
                                                  processing := true)));
    }
  }
}
