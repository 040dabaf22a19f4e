/** Jumps that MVP-4 and MVP-5 take elsewhere than the sequential core does, and the write of jal that comes too
    early. */
module PipelineJumps {
  import opened Words
  import opened Isa
  import opened Sequential
  import opened Pipeline
  import opened PipelineInvariant
  import opened PipelineRegisters
  import opened PipelineRun
  import opened PipelineExact
  import opened PipelineDepartures

  // ---------------------------------------------------------------- a jump and the flush after it

  /** A jump at the door of the execute unit, at most one result before it. */
  ghost predicate JumpAtDoor(t: Cpu, r: RunnerPc) {
    && !t.eu.pendingRead && !t.eu.processing && t.xbus.current == Some(r) && t.wbus.pending.None? && !t.wu.pendingWrite
    && IsUnconditionalBranch(r.instr) && t.bu == BranchState(false, 0, [])
    && !IsWriteHazard(t.pending, ReadRegisters(r.instr))
  }

  function Jumped(v: Variant, t: Cpu, r: RunnerPc, e: Execution): Cpu {
    t.(xbus := t.xbus.Shift(), eu := t.eu.(runner := None, processing := false, remaining := 0),
       regs := DirectWrite(r.instr, t.regs, r.pc),
       wbus := t.wbus.(pending := Some(Entry(r.instr, e))), pending := AddAll(t.pending, WriteRegisters(r.instr)),
       bu := BranchState(false, -1, if v == Mvp5 then [Target(r.pc, e.nextPc)] else []),
       fu := if v == Mvp5 then Redirect(t.fu, e.nextPc) else t.fu, blocked := if v == Mvp5 then false else t.blocked)
  }

  lemma JumpRuns(v: Variant, app: App, order: seq<Word>, t: Cpu, r: RunnerPc, e: Execution)
    requires JumpAtDoor(t, r) && Run(r.instr, NO_FORWARD, t.regs, app.labels, r.pc, []) == Ok(e)
    requires !e.isReturn && e.data == [] && e.pcChange
    ensures ExecuteCycle(v, app, order, t) == (Jumped(v, t, r, e), if e.nextPc == -1 then
                                                 Ran else RanAndFlush(e.nextPc))
  {
    PoisedRuns(v, app, order, t, r);
    assert Remember([], r.pc, e.nextPc) == [Target(r.pc, e.nextPc)];
    hide Run, AddAll, DirectWrite, ExecuteCycle, WriteRegisters, ReadRegisters;
  }

  /** The core once the jump's own result has been written and everything younger is gone. */
  function Flushed(v: Variant, t: Cpu, r: RunnerPc, e: Execution): Cpu {
    var u := Jumped(v, t, r, e);
    Flush(v, u.(regs := Settled(u.regs, u.wbus), wbus := Bus(None, None)), e.nextPc)
  }

  lemma FlushingTurn(v: Variant, app: App, order: seq<Word>, s: Cpu, t: Cpu, r: RunnerPc, e: Execution)
    requires FetchDecode(v, app, s) == Some(t) && JumpAtDoor(t, r)
    requires Run(r.instr, NO_FORWARD, t.regs, app.labels, r.pc, []) == Ok(e) && !e.isReturn && e.data == []
             && e.pcChange
    requires e.nextPc != -1 && (t.wbus.current.Some? ==> t.wbus.current.value.exe.data == [])
    ensures CycleOnce(v, app, order, s) == Turn(Flushed(v, t, r, e), 2, true, None)
  {
    JumpRuns(v, app, order, t, r, e);
    var u := Jumped(v, t, r, e);
    hide FetchDecode, ExecuteCycle, CycleOnce, Run, DropNonPositive, AddAll, DirectWrite, SubAll, IsWriteHazard,
         ReadRegisters;
    CycleUnfolds(v, app, order, s, t, u, RanAndFlush(e.nextPc));
    DrainsTheJump(v, u, e.nextPc);
  }

  /** The turn that follows an execution of a jump writes what is queued, oldest first. */
  lemma DrainsTheJump(v: Variant, u: Cpu, target: Word)
    requires !u.wu.pendingWrite && u.wbus.pending.Some? && u.wbus.pending.value.exe.data == []
    requires u.wbus.current.Some? ==> u.wbus.current.value.exe.data == []
    ensures var w := WriteCycle(Retirement(u));
            w.Some? && AfterWrite(v, WithRetirement(u, w.value), RanAndFlush(target))
                       == Turn(Flush(v, u.(regs := Settled(u.regs, u.wbus), wbus := Bus(None, None)), target), 2, true,
                               None)
  {
    hide DropNonPositive, SubAll;
    var w := WriteCycle(Retirement(u)).value;
    var x := WriteCycle(w).value;
    assert Drained(x) && Drain(x) == Some((x, 0));
    assert Drain(w) == Some((x, 1));
  }

  // ---------------------------------------------------------------- one instruction alone

  /** The only instruction of a program at the execute unit. */
  function Alone(v: Variant, app: App, s: Cpu): Cpu
    requires |app.code| == 1
  {
    s.(fu := FetchState(4, 0, true, false, false), l1i := FirstLine(),
       xbus := Bus(Some(RunnerPc(app.code[0], 0)), None),
       blocked := v == Mvp5 && IsUnconditionalBranch(app.code[0]))
  }

  lemma AloneIsDecoded(v: Variant, app: App, orders: nat -> seq<Word>, s: Cpu)
    requires New(s) && |app.code| == 1
    ensures AfterTurns(v, app, orders, Begin(s), 51) == Progress(Alone(v, app, s), 0, 51, None)
    ensures FetchDecode(v, app, Alone(v, app, s)) == Some(Alone(v, app, s))
  {
    Begins(v, app, orders, s);
    AloneTurn(v, app, orders(0), s);
    hide CycleOnce, Begun, New, FetchDecode;
    Goes(v, app, orders, s, 50, Progress(Begun(app, s), 0, 50, None), Turn(Alone(v, app, s), 1, false, None));
  }

  lemma AloneTurn(v: Variant, app: App, order: seq<Word>, s: Cpu)
    requires New(s) && |app.code| == 1
    ensures CycleOnce(v, app, order, Begun(app, s)) == Turn(Alone(v, app, s), 1, false, None)
    ensures FetchDecode(v, app, Alone(v, app, s)) == Some(Alone(v, app, s))
  {
    hide FirstLine;
  }

  // ---------------------------------------------------------------- after a flush

  /** Nothing in flight, and the fetch unit at a program counter of the first line. */
  ghost predicate Restarts(s: Cpu, pc: Word) {
    && 0 <= pc < 64 && s.fu.pc == pc && !s.fu.complete && !s.fu.processing && s.l1i == FirstLine() && !s.blocked
    && s.dbus == Bus(None, None) && s.xbus == Bus(None, None) && s.wbus == Bus(None, None)
    && !s.eu.processing && !s.eu.pendingRead && !s.wu.pendingWrite
  }

  function Refetched(app: App, s: Cpu, pc: Word): Cpu {
    s.(fu := FetchState(Wrap(pc + 4), 0, Index(Wrap(pc + 4)) >= |app.code|, false, false), dbus := Bus(Some(pc), None))
  }

  lemma RestartTurn(v: Variant, app: App, order: seq<Word>, s: Cpu, pc: Word)
    requires Restarts(s, pc)
    ensures CycleOnce(v, app, order, s) == Turn(Refetched(app, s, pc), 1, false, None)
  {
    FirstLineHits(pc);
    hide FirstLine;
  }

  lemma RestartOutside(v: Variant, app: App, order: seq<Word>, s: Cpu, pc: Word)
    requires Restarts(s, pc) && pc >= 4 * |app.code| && Index(pc) >= |app.code|
    ensures CycleOnce(v, app, order, Refetched(app, s, pc)).stop == Some(Error(GoPanic))
  {
    hide FirstLine, Wrap;
    assert Refetched(app, s, pc).fu.complete by { assert Wrap(pc + 4) == pc + 4; }
  }

  // ---------------------------------------------------------------- a jump to the end of the program

  function JumpToEnd(): App { App([J("end")], map["end" := 4]) }

  lemma JRuns(regs: Regs, i: Instr)
    requires i == J("end")
    ensures Run(i, NO_FORWARD, regs, map["end" := 4], 0, []) == Ok(NO_EFFECT.(pcChange := true, nextPc := 4))
  {
  }

  lemma FlushedRestarts(v: Variant, t: Cpu, r: RunnerPc, e: Execution)
    requires t.l1i == FirstLine() && 0 <= e.nextPc < 64 && !t.wu.pendingWrite && !t.eu.pendingRead
    requires t.dbus == Bus(None, None)
    ensures Restarts(Flushed(v, t, r, e), e.nextPc)
  {
    hide Settled, DirectWrite, AddAll;
  }

  lemma JumpIsAtDoor(v: Variant, app: App, s: Cpu)
    requires New(s) && |app.code| == 1 && IsUnconditionalBranch(app.code[0])
    ensures JumpAtDoor(Alone(v, app, s), RunnerPc(app.code[0], 0))
  {
  }

  lemma AloneIsQuiet(v: Variant, app: App, s: Cpu)
    requires New(s) && |app.code| == 1
    ensures var t := Alone(v, app, s);
            t.dbus == Bus(None, None) && t.wbus.current.None? && !t.wu.pendingWrite && !t.eu.pendingRead
            && t.l1i == FirstLine()
  {
  }

  /** Three turns from the jump to the panic. */
  lemma JumpOutPanics(v: Variant, app: App, orders: nat -> seq<Word>, s: Cpu, e: Execution)
    requires New(s) && |app.code| == 1 && IsUnconditionalBranch(app.code[0])
    requires Run(app.code[0], NO_FORWARD, s.regs, app.labels, 0, []) == Ok(e) && !e.isReturn && e.data == []
             && e.pcChange
    requires 4 <= e.nextPc < 64
    ensures AfterTurns(v, app, orders, Begin(s), 54).stop == Some(Error(GoPanic))
  {
    hide CycleOnce, FetchDecode, Run, Flushed, FirstLine, Restarts, Refetched, JumpAtDoor, New, Fresh, AfterTurns;
    var t, r := Alone(v, app, s), RunnerPc(app.code[0], 0);
    AloneIsDecoded(v, app, orders, s);
    JumpIsAtDoor(v, app, s);
    AloneIsQuiet(v, app, s);
    hide Alone;
    FlushedRestarts(v, t, r, e);
    FlushingTurn(v, app, orders(0), t, t, r, e);
    var s1 := Flushed(v, t, r, e);
    RestartTurn(v, app, orders(1), s1, e.nextPc);
    RestartOutside(v, app, orders(1), s1, e.nextPc);
    var s2 := Refetched(app, s1, e.nextPc);
    Goes(v, app, orders, s, 51, Progress(t, 0, 51, None), Turn(s1, 2, true, None));
    Goes(v, app, orders, s, 52, Progress(s1, 1, 53, None), Turn(s2, 1, false, None));
    Goes(v, app, orders, s, 53, Progress(s2, 1, 54, None), CycleOnce(v, app, orders(1), s2));
  }

  /** A jump behind the last instruction ends the run of the sequential core, and panics in the pipelines. */
  lemma JumpToEndPanics(v: Variant, orders: nat -> seq<Word>, s: Cpu)
    requires New(s)
    ensures AfterTurns(v, JumpToEnd(), orders, Begin(s), 54).stop == Some(Error(GoPanic))
    ensures var ref := Reference(Dropping, JumpToEnd(), orders, Start(s), 1);
            ref.Some? && StepCached(Dropping, JumpToEnd(), orders(1), ref.value) == CachedStop(End)
  {
    hide Run, New, Fresh, AfterTurns, Reference, StepCached, Retire;
    var app, e := JumpToEnd(), NO_EFFECT.(pcChange := true, nextPc := 4);
    JRuns(s.regs, app.code[0]);
    JumpOutPanics(v, app, orders, s, e);
    StartIsEmpty(s);
    var c0, c1 := Start(s), Cached(s.regs, 4, [], s.memory);
    StepOf(app, orders(0), c0, app.code[0], e);
    NothingRetires(s.regs, Entry(app.code[0], e));
    ReferenceBegins(app, orders, c0);
    ReferenceGoes(app, orders, c0, 0, c0, c1);
    EndsAt(app, orders(1), c1);
  }

  lemma EndsAt(app: App, order: seq<Word>, c: Cached)
    requires Index(c.pc) >= |app.code|
    ensures StepCached(Dropping, app, order, c) == CachedStop(End)
  {
  }

  // ---------------------------------------------------------------- a jump to -1

  function JumpToMinusOne(): App { App([Jalr(6, 0, -1)], map[]) }

  /** jalr to -1 from the given program counter: every execution of it leads back to it. */
  function JalrExecution(pc: Word): Execution { RegisterWrite(6, Wrap(pc + 4)).(pcChange := true, nextPc := -1) }

  lemma JalrRuns(regs: Regs, pc: Word, i: Instr)
    requires i == Jalr(6, 0, -1) && Read(regs, 0) == 0
    ensures Run(i, NO_FORWARD, regs, map[], pc, []) == Ok(JalrExecution(pc))
  {
  }

  lemma EndingTurn(v: Variant, app: App, order: seq<Word>, s: Cpu)
    requires s.fu.complete && !s.fu.toClean && !s.blocked && s.dbus == Bus(None, None) && s.xbus == Bus(None, None)
    requires !s.eu.processing && !s.eu.pendingRead && !s.wu.pendingWrite
    requires s.wbus.pending.None? && s.wbus.current.Some? && s.wbus.current.value.exe.data == []
    ensures CycleOnce(v, app, order, s).stop == Some(End)
  {
    hide Retire, SubAll;
  }

  lemma MinusOneTurn(app: App, order: seq<Word>, s: Cpu)
    requires New(s) && app == JumpToMinusOne() && Read(s.regs, 0) == 0
    ensures var u := CycleOnce(Mvp4, app, order, Alone(Mvp4, app, s));
            u.ran && u.stop.None? && forall o :: CycleOnce(Mvp4, app, o, u.next).stop == Some(End)
  {
    var t, r, e := Alone(Mvp4, app, s), RunnerPc(app.code[0], 0), JalrExecution(0);
    AloneTurn(Mvp4, app, order, s);
    JalrRuns(s.regs, 0, app.code[0]);
    JumpIsAtDoor(Mvp4, app, s);
    JumpRuns(Mvp4, app, order, t, r, e);
    var u := Jumped(Mvp4, t, r, e);
    CycleUnfolds(Mvp4, app, order, t, t, u, Ran);
    hide FetchDecode, ExecuteCycle, CycleOnce, Run, AddAll, Retire, SubAll;
    var w := WriteCycle(Retirement(u)).value;
    var s1 := WithRetirement(u, w);
    forall o ensures CycleOnce(Mvp4, app, o, s1).stop == Some(End) { EndingTurn(Mvp4, app, o, s1); }
  }

  lemma {:induction false} MinusOneGoesOn(orders: nat -> seq<Word>, start: Cached, n: nat)
    requires start.pc == 0 && start.lines == [] && Read(start.regs, 0) == 0
    ensures var ref := Reference(Dropping, JumpToMinusOne(), orders, start, n);
            && ref.Some? && -4 < ref.value.pc < 4 && ref.value.lines == [] && Read(ref.value.regs, 0) == 0
            && StepCached(Dropping, JumpToMinusOne(), orders(n), ref.value).CachedNext?
  {
    var app := JumpToMinusOne();
    hide StepCached, Run;
    if n > 0 { MinusOneGoesOn(orders, start, n - 1); }
    var c := if n == 0 then start
      else StepCached(Dropping, app, orders(n - 1), Reference(Dropping, app, orders, start, n - 1).value).next;
    if n > 0 { MinusOneStep(orders(n - 1), Reference(Dropping, app, orders, start, n - 1).value); }
    MinusOneStep(orders(n), c);
  }

  lemma MinusOneStep(order: seq<Word>, c: Cached)
    requires -4 < c.pc < 4 && c.lines == [] && Read(c.regs, 0) == 0
    ensures var step := StepCached(Dropping, JumpToMinusOne(), order, c);
            step.CachedNext? && step.next.pc == -1 && step.next.lines == [] && Read(step.next.regs, 0) == 0
  {
    var app, e := JumpToMinusOne(), JalrExecution(c.pc);
    JalrRuns(c.regs, c.pc, app.code[0]);
    hide Run, StepCached;
    StepOf(app, order, c, app.code[0], e);
    RetireShape(c.regs, Entry(app.code[0], e));
    hide Retire;
  }

  /** MVP-4 takes -1 for its own mark of a target it does not know: a jump there does not flush, and the run ends, where
      the sequential core, for which -1 names the first instruction, goes on for ever. */
  lemma MinusOneIsMissed(orders: nat -> seq<Word>, s: Cpu)
    requires New(s) && Read(s.regs, 0) == 0
    ensures AfterTurns(Mvp4, JumpToMinusOne(), orders, Begin(s), 53).stop == Some(End)
    ensures forall n: nat :: var ref := Reference(Dropping, JumpToMinusOne(), orders, Start(s), n);
              ref.Some? && StepCached(Dropping, JumpToMinusOne(), orders(n), ref.value).CachedNext?
  {
    var app := JumpToMinusOne();
    AloneIsDecoded(Mvp4, app, orders, s);
    MinusOneTurn(app, orders(0), s);
    var u := CycleOnce(Mvp4, app, orders(0), Alone(Mvp4, app, s));
    StartIsEmpty(s);
    hide CycleOnce, FetchDecode, New, Fresh, AfterTurns, StepCached, Reference;
    Goes(Mvp4, app, orders, s, 51, Progress(Alone(Mvp4, app, s), 0, 51, None), u);
    Goes(Mvp4, app, orders, s, 52, Progress(u.next, 1, 51 + u.cycles, None), CycleOnce(Mvp4, app, orders(1), u.next));
    forall n: nat ensures var ref := Reference(Dropping, app, orders, Start(s), n);
                          ref.Some? && StepCached(Dropping, app, orders(n), ref.value).CachedNext?
    {
      MinusOneGoesOn(orders, Start(s), n);
    }
  }

  // ---------------------------------------------------------------- jal and ra

  /** The instruction at the target, at the execute unit. */
  function Reached(app: App, s: Cpu, pc: Word, i: Instr): Cpu {
    s.(fu := FetchState(Wrap(pc + 4), 0, true, false, false), dbus := Bus(None, None),
       xbus := Bus(Some(RunnerPc(i, pc)), None))
  }

  lemma RefetchedTurn(v: Variant, app: App, order: seq<Word>, s: Cpu, pc: Word)
    requires Restarts(s, pc) && 0 <= Index(pc) < |app.code| && Index(Wrap(pc + 4)) >= |app.code|
    requires !IsUnconditionalBranch(app.code[Index(pc)])
    ensures CycleOnce(v, app, order, Refetched(app, s, pc))
            == Turn(Reached(app, s, pc, app.code[Index(pc)]), 1, false, None)
    ensures FetchDecode(v, app, Reached(app, s, pc, app.code[Index(pc)]))
            == Some(Reached(app, s, pc, app.code[Index(pc)]))
  {
    hide FirstLine, Wrap, Index;
  }

  function JalAfterLi(): App { App([Li(1, 7), Jal(0, "on"), Ret], map["on" := 8]) }

  const JAL := RegisterWrite(0, 8).(pcChange := true, nextPc := 8)

  lemma JalRuns(regs: Regs, i: Instr)
    requires i == Jal(0, "on")
    ensures Run(i, NO_FORWARD, regs, map["on" := 8], 4, []) == Ok(JAL)
  {
  }

  /** The state when jal is about to run and the write to ra before it is queued. */
  function BeforeJal(app: App, s: Cpu): Cpu
    requires app == JalAfterLi()
  {
    Between(app, s, 1, Entry(app.code[0], RegisterWrite(1, 7)), AddAll(s.pending, [1]))
  }

  function WithJal(app: App, s: Cpu): Cpu
    requires app == JalAfterLi()
  {
    BeforeJal(app, s).(dbus := Bus(None, None), xbus := Bus(Some(Nth(app, 1)), Some(Nth(app, 2))))
  }

  lemma JalTurn(app: App, order: seq<Word>, s: Cpu)
    requires New(s) && app == JalAfterLi()
    ensures CycleOnce(Mvp4, app, order, BeforeJal(app, s)) == Turn(Flushed(Mvp4, WithJal(app, s), Nth(app, 1), JAL), 2,
                                                                   true, None)
    ensures Restarts(Flushed(Mvp4, WithJal(app, s), Nth(app, 1), JAL), 8)
  {
    var s1, t1 := BeforeJal(app, s), WithJal(app, s);
    FrontThree(Mvp4, app, s1);
    JalRuns(s.regs, app.code[1]);
    JalAtDoor(app, s);
    hide FirstLine, CycleOnce, FetchDecode, Run, AddAll, JumpAtDoor;
    FlushingTurn(Mvp4, app, order, s1, t1, Nth(app, 1), JAL);
    FlushedRestarts(Mvp4, t1, Nth(app, 1), JAL);
  }

  lemma JalAtDoor(app: App, s: Cpu)
    requires New(s) && app == JalAfterLi()
    ensures JumpAtDoor(WithJal(app, s), Nth(app, 1))
  {
    assert ReadRegisters(app.code[1]) == [];
  }

  /** What ra holds in the end: the queued 7, not the 4 that jal wrote. */
  lemma JalLeavesRa(app: App, s: Cpu)
    requires New(s) && app == JalAfterLi()
    ensures Read(Flushed(Mvp4, WithJal(app, s), Nth(app, 1), JAL).regs, 1) == 7
  {
    var t1 := WithJal(app, s);
    var w0, w1 := Entry(app.code[0], RegisterWrite(1, 7)), Entry(app.code[1], JAL);
    var regs := DirectWrite(app.code[1], s.regs, 4);
    assert t1.wbus.current == Some(w0);
    RetireShape(regs, w0);
    RetireShape(Retire(regs, w0), w1);
    hide Retire, AddAll;
    assert Flushed(Mvp4, t1, Nth(app, 1), JAL).regs == Settled(regs, Bus(Some(w0), Some(w1)));
  }

  lemma ReachedRet(app: App, s: Cpu, pc: Word)
    requires Restarts(s, pc) && !s.bu.toCheck
    ensures AtDoor(Reached(app, s, pc, Ret), RunnerPc(Ret, pc))
    ensures WriteCycle(Retirement(Reached(app, s, pc, Ret))) == Some(Retirement(Reached(app, s, pc, Ret)))
  {
    assert ReadRegisters(Ret) == [];
  }

  /** From a flush to the ret at its target. */
  lemma ReturnsAfterFlush(v: Variant, app: App, orders: nat -> seq<Word>, s: Cpu, k: nat, p: Progress, pc: Word)
    requires AfterTurns(v, app, orders, Begin(s), k) == p && p.stop.None? && Restarts(p.cpu, pc) && !p.cpu.bu.toCheck
    requires 0 <= Index(pc) < |app.code| && Index(Wrap(pc + 4)) >= |app.code| && app.code[Index(pc)] == Ret
    ensures var q := AfterTurns(v, app, orders, Begin(s), k + 3); q.stop == Some(Return) && q.cpu.regs == p.cpu.regs
  {
    var a, b := Refetched(app, p.cpu, pc), Reached(app, p.cpu, pc, Ret);
    hide CycleOnce, FetchDecode, Restarts, Refetched, Reached, AtDoor, AfterTurns, Wrap, Index, WriteCycle, Retirement;
    RestartTurn(v, app, orders(p.executed), p.cpu, pc);
    RefetchedTurn(v, app, orders(p.executed), p.cpu, pc);
    ReachedRet(app, p.cpu, pc);
    ReachedRegs(app, p.cpu, pc);
    ReturningTurn(v, app, orders(p.executed), b, b, RunnerPc(Ret, pc), Retirement(b));
    Goes(v, app, orders, s, k, p, Turn(a, 1, false, None));
    Goes(v, app, orders, s, k + 1, Progress(a, p.executed, p.cycles + 1, None), Turn(b, 1, false, None));
    Goes(v, app, orders, s, k + 2, Progress(b, p.executed, p.cycles + 2, None),
         CycleOnce(v, app, orders(p.executed), b));
  }

  lemma ReachedRegs(app: App, s: Cpu, pc: Word)
    ensures Retirement(Reached(app, s, pc, Ret)).regs == s.regs
  {
  }

  lemma JalSequentially(orders: nat -> seq<Word>, s: Cpu)
    requires New(s)
    ensures var ref := Reference(Dropping, JalAfterLi(), orders, Start(s), 2);
            && ref.Some? && Read(ref.value.regs, 1) == 4
            && StepCached(Dropping, JalAfterLi(), orders(2), ref.value) == CachedStop(Return)
  {
    hide StepCached, Run, Retire, New, Fresh, Reference;
    var app := JalAfterLi();
    var w0, w1 := Entry(app.code[0], RegisterWrite(1, 7)), Entry(app.code[1], JAL);
    StartIsEmpty(s);
    var c0 := Start(s);
    var c1 := Cached(Retire(s.regs, w0), 4, [], s.memory);
    var c2 := Cached(Retire(c1.regs[1 := 4], w1), 8, [], s.memory);
    RunsAlone(app, s.regs, 0, 1, 7);
    JalRuns(c1.regs, app.code[1]);
    StepOf(app, orders(0), c0, app.code[0], RegisterWrite(1, 7));
    StepOf(app, orders(1), c1, app.code[1], JAL);
    ReferenceBegins(app, orders, c0);
    ReferenceGoes(app, orders, c0, 0, c0, c1);
    ReferenceGoes(app, orders, c0, 1, c1, c2);
    RetireShape(c1.regs[1 := 4], w1);
    ReturnsAt(app, orders(2), c2);
  }

  /** The state after the flush that follows jal. */
  function AfterJal(app: App, s: Cpu): Cpu
    requires app == JalAfterLi()
  {
    Flushed(Mvp4, WithJal(app, s), Nth(app, 1), JAL)
  }

  lemma JalFlushes(app: App, orders: nat -> seq<Word>, s: Cpu)
    requires New(s) && app == JalAfterLi()
    ensures AfterTurns(Mvp4, app, orders, Begin(s), 53) == Progress(AfterJal(app, s), 2, 54, None)
  {
    FirstIsDecoded(Mvp4, app, orders, s);
    hide CycleOnce, Run, New, Fresh, AfterTurns, Flushed, Restarts, BeforeJal, WithJal, Decoded1;
    JalBegins(app, orders(0), s);
    JalTurn(app, orders(1), s);
    Goes(Mvp4, app, orders, s, 51, Progress(Decoded1(app, s), 0, 51, None), Turn(BeforeJal(app, s), 1, true, None));
    Goes(Mvp4, app, orders, s, 52, Progress(BeforeJal(app, s), 1, 52, None), Turn(AfterJal(app, s), 2, true, None));
  }

  lemma JalLoses(app: App, orders: nat -> seq<Word>, s: Cpu)
    requires New(s) && app == JalAfterLi()
    ensures var p := AfterTurns(Mvp4, app, orders, Begin(s), 56); p.stop == Some(Return) && Read(p.cpu.regs, 1) == 7
  {
    hide CycleOnce, Run, New, Fresh, AfterTurns, Flushed, Restarts, BeforeJal, WithJal, Decoded1;
    JalFlushes(app, orders, s);
    JalTurn(app, orders(1), s);
    JalLeavesRa(app, s);
    FlushedNotes(app, s);
    ReturnsAfterFlush(Mvp4, app, orders, s, 53, Progress(AfterJal(app, s), 2, 54, None), 8);
  }

  /** jal writes ra while it runs; the write before it, still queued, then overwrites it. */
  lemma RaIsOvertaken(orders: nat -> seq<Word>, s: Cpu)
    requires New(s)
    ensures var p := AfterTurns(Mvp4, JalAfterLi(), orders, Begin(s), 56);
            p.stop == Some(Return) && Read(p.cpu.regs, 1) == 7
    ensures var ref := Reference(Dropping, JalAfterLi(), orders, Start(s), 2);
            && ref.Some? && Read(ref.value.regs, 1) == 4
            && StepCached(Dropping, JalAfterLi(), orders(2), ref.value) == CachedStop(Return)
  {
    hide AfterTurns, New, StepCached, Reference, JalAfterLi;
    JalLoses(JalAfterLi(), orders, s);
    JalSequentially(orders, s);
  }

  lemma JalBegins(app: App, order: seq<Word>, s: Cpu)
    requires New(s) && app == JalAfterLi()
    ensures CycleOnce(Mvp4, app, order, Decoded1(app, s)) == Turn(BeforeJal(app, s), 1, true, None)
  {
    RunsAlone(app, s.regs, 0, 1, 7);
    hide CycleOnce, Run, Decoded1;
    FirstQueues(Mvp4, app, order, s, RegisterWrite(1, 7));
    assert WriteRegisters(app.code[0]) == [1];
  }

  lemma FlushedNotes(app: App, s: Cpu)
    requires app == JalAfterLi()
    ensures !Flushed(Mvp4, WithJal(app, s), Nth(app, 1), JAL).bu.toCheck
  {
    hide Settled, AddAll;
  }
}
