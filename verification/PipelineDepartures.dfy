/** Programs on which MVP-4 or MVP-5 does not do what the sequential core does: one for each part of the guard. */
module PipelineDepartures {
  import opened Words
  import opened Isa
  import opened Cache
  import opened Mmu
  import opened Sequential
  import opened Pipeline
  import opened PipelineInvariant
  import opened PipelineRun
  import opened PipelineExact
  import opened PipelineRegisters

  // ---------------------------------------------------------------- the first fetch

  /** A core as built, with a branch unit that has noted nothing. */
  ghost predicate New(s: Cpu) {
    && Fresh(s) && s.bu == BranchState(false, 0, [])
    && s.dbus == Bus(None, None) && s.xbus == Bus(None, None) && s.wbus == Bus(None, None)
    && s.eu == ExecuteState(false, 0, false, [], None, None) && s.wu == WriteState(false, 0)
  }

  function FirstLine(): seq<Line> { [Line(0, 64, FetchLine([], 0))] }

  /** The core while the first instruction comes from memory. */
  function Fetching(s: Cpu, remaining: int): Cpu {
    s.(fu := FetchState(0, remaining, false, true, false), l1i := FirstLine())
  }

  /** The core when the first instruction is at the decode unit. */
  function Begun(app: App, s: Cpu): Cpu {
    s.(fu := FetchState(4, 0, 4 >= 4 * |app.code|, false, false), l1i := FirstLine(), dbus := Bus(Some(0), None))
  }

  lemma FirstTurn(v: Variant, app: App, order: seq<Word>, s: Cpu)
    requires New(s)
    ensures CycleOnce(v, app, order, s) == Turn(Fetching(s, 49), 1, false, None)
  {
    assert Push([], NUMBER_OF_LINES, Line(0, 64, FetchLine([], 0))) == FirstLine();
    hide FetchLine;
  }

  lemma FetchTurn(v: Variant, app: App, order: seq<Word>, s: Cpu, remaining: int)
    requires New(s) && remaining > 1
    ensures CycleOnce(v, app, order, Fetching(s, remaining)) == Turn(Fetching(s, remaining - 1), 1, false, None)
  {
    hide FirstLine;
  }

  lemma LastFetchTurn(v: Variant, app: App, order: seq<Word>, s: Cpu)
    requires New(s) && 0 < |app.code|
    ensures CycleOnce(v, app, order, Fetching(s, 1)) == Turn(Begun(app, s), 1, false, None)
  {
    hide FirstLine;
  }

  lemma {:induction false} FetchesFirst(v: Variant, app: App, orders: nat -> seq<Word>, s: Cpu, k: nat)
    requires New(s) && 1 <= k <= 49
    ensures AfterTurns(v, app, orders, Begin(s), k) == Progress(Fetching(s, 50 - k), 0, k, None)
  {
    hide CycleOnce, Fetching, New;
    if k == 1 {
      FirstTurn(v, app, orders(0), s);
      assert AfterTurns(v, app, orders, Begin(s), 0) == Begin(s);
    } else {
      FetchesFirst(v, app, orders, s, k - 1);
      FetchTurn(v, app, orders(0), s, 51 - k);
    }
  }

  /** Fifty turns to the first instruction. */
  lemma Begins(v: Variant, app: App, orders: nat -> seq<Word>, s: Cpu)
    requires New(s) && 0 < |app.code|
    ensures AfterTurns(v, app, orders, Begin(s), 50) == Progress(Begun(app, s), 0, 50, None)
  {
    hide CycleOnce, Fetching, New, Begun;
    FetchesFirst(v, app, orders, s, 49);
    LastFetchTurn(v, app, orders(0), s);
  }

  lemma Goes(v: Variant, app: App, orders: nat -> seq<Word>, s: Cpu, k: nat, p: Progress, u: Turn)
    requires AfterTurns(v, app, orders, Begin(s), k) == p && p.stop.None?
             && CycleOnce(v, app, orders(p.executed), p.cpu) == u
    ensures AfterTurns(v, app, orders, Begin(s), k + 1) == Took(p, u)
  {
    hide CycleOnce;
  }

  /** Fetching from the first line takes one turn. */
  lemma FirstLineHits(pc: Word)
    requires 0 <= pc < 64
    ensures Get(FirstLine(), pc) == (Some(0), FirstLine())
  {
    assert Find(FirstLine(), pc) == 0;
    assert ToFront(FirstLine(), 0) == FirstLine();
  }

  // ---------------------------------------------------------------- three instructions in a row

  function Nth(app: App, k: nat): RunnerPc
    requires k < |app.code| == 3
  {
    RunnerPc(app.code[k], 4 * k)
  }

  /** One turn on, the first instruction is at the execute unit. */
  function Decoded1(app: App, s: Cpu): Cpu
    requires |app.code| == 3
  {
    s.(fu := FetchState(8, 0, false, false, false), l1i := FirstLine(), dbus := Bus(Some(4), None),
       xbus := Bus(Some(Nth(app, 0)), None),
       blocked := false)
  }

  lemma SecondTurn(v: Variant, app: App, order: seq<Word>, s: Cpu)
    requires New(s) && |app.code| == 3 && !IsUnconditionalBranch(app.code[0])
    ensures CycleOnce(v, app, order, Begun(app, s)) == Turn(Decoded1(app, s), 1, false, None)
  {
    FirstLineHits(4);
    hide FirstLine;
  }

  /** The core before its 52nd turn, in which the first of three instructions runs. */
  lemma FirstIsDecoded(v: Variant, app: App, orders: nat -> seq<Word>, s: Cpu)
    requires New(s) && |app.code| == 3 && !IsUnconditionalBranch(app.code[0])
    ensures AfterTurns(v, app, orders, Begin(s), 51) == Progress(Decoded1(app, s), 0, 51, None)
  {
    hide CycleOnce, Begun, New, Decoded1;
    Begins(v, app, orders, s);
    SecondTurn(v, app, orders(0), s);
    Goes(v, app, orders, s, 50, Progress(Begun(app, s), 0, 50, None), Turn(Decoded1(app, s), 1, false, None));
  }

  /** What fetch and decode do in the turns in which the three instructions run. */
  lemma FrontThree(v: Variant, app: App, s: Cpu)
    requires |app.code| == 3 && !s.blocked && s.l1i == FirstLine()
    ensures s.fu == FetchState(8, 0, false, false, false) && s.dbus == Bus(Some(4), None)
            && s.xbus == Bus(Some(Nth(app, 0)), None) ==>
      FetchDecode(v, app, s)
      == Some(s.(fu := FetchState(12, 0, true, false, false), dbus := Bus(Some(8), None),
                 xbus := Bus(Some(Nth(app, 0)), Some(Nth(app, 1))),
                 blocked := v == Mvp5 && IsUnconditionalBranch(app.code[1])))
    ensures s.fu == FetchState(12, 0, true, false, false) && s.dbus == Bus(Some(8), None)
            && s.xbus == Bus(Some(Nth(app, 1)), None) ==>
      FetchDecode(v, app, s)
      == Some(s.(dbus := Bus(None, None), xbus := Bus(Some(Nth(app, 1)), Some(Nth(app, 2))),
                 blocked := v == Mvp5 && IsUnconditionalBranch(app.code[2])))
    ensures s.fu == FetchState(12, 0, true, false, false) && s.dbus == Bus(None, None) && s.xbus.pending.None? ==>
      FetchDecode(v, app, s) == Some(s)
  {
    FirstLineHits(8);
    hide FirstLine;
  }

  // ---------------------------------------------------------------- single turns

  /** The core after an instruction has queued its result. */
  function Queued(t: Cpu, order: seq<Word>, r: RunnerPc, e: Execution): Cpu {
    t.(xbus := t.xbus.Shift(), eu := t.eu.(runner := None, processing := false, remaining := 0),
       l1d := if e.data == [] then t.l1d else LookUp(t.l1d, order, e).1,
       wbus := t.wbus.(pending := Some(Entry(r.instr, e))), pending := AddAll(t.pending, WriteRegisters(r.instr)))
  }

  /** The unit is free, the instruction at its door, and nothing holds it up. */
  ghost predicate AtDoor(t: Cpu, r: RunnerPc) {
    && !t.eu.pendingRead && !t.eu.processing && t.xbus.current == Some(r) && t.wbus.pending.None?
    && !IsBranch(r.instr) && !r.instr.Load? && !t.bu.toCheck && !IsWriteHazard(t.pending, ReadRegisters(r.instr))
  }

  /** An instruction that queues its result. */
  lemma QueueingTurn(v: Variant, app: App, order: seq<Word>, s: Cpu, t: Cpu, r: RunnerPc, e: Execution, w: Retiring)
    requires FetchDecode(v, app, s) == Some(t) && AtDoor(t, r)
    requires Run(r.instr, NO_FORWARD, t.regs, app.labels, r.pc, []) == Ok(e) && !e.isReturn
    requires e.data != [] ==> LookUp(t.l1d, order, e).0.None?
    requires WriteCycle(Retirement(Queued(t, order, r, e))) == Some(w)
    requires !t.xbus.Shift().IsEmpty()
    ensures CycleOnce(v, app, order, s) == Turn(WithRetirement(Queued(t, order, r, e), w), 1, true, None)
  {
    PoisedRuns(v, app, order, t, r);
    QueueingRun(v, app, order, t, r, e);
    hide ExecuteCycle, FetchDecode, WriteCycle, Run, RunNow, LookUp, AddAll, Poised, CycleOnce, AtDoor;
    CycleUnfolds(v, app, order, s, t, Queued(t, order, r, e), Ran);
  }

  lemma QueueingRun(v: Variant, app: App, order: seq<Word>, t: Cpu, r: RunnerPc, e: Execution)
    requires AtDoor(t, r) && Run(r.instr, NO_FORWARD, t.regs, app.labels, r.pc, []) == Ok(e) && !e.isReturn
    requires e.data != [] ==> LookUp(t.l1d, order, e).0.None?
    ensures RunNow(v, app, order, Poised(v, t, r), r, []) == (Queued(t, order, r, e), Ran)
  {
    hide Run, LookUp, AddAll;
  }

  /** ret */
  lemma ReturningTurn(v: Variant, app: App, order: seq<Word>, s: Cpu, t: Cpu, r: RunnerPc, w: Retiring)
    requires FetchDecode(v, app, s) == Some(t) && AtDoor(t, r) && r.instr == Ret
    requires WriteCycle(Retirement(t)) == Some(w)
    ensures var u := CycleOnce(v, app, order, s);
            u.cycles == 1 && !u.ran && u.stop == Some(Return) && u.next.regs == w.regs && u.next.memory == w.memory
            && u.next.l1d == t.l1d
  {
    PoisedRuns(v, app, order, t, r);
    hide FetchDecode, WriteCycle, ExecuteCycle;
    var u := ExecuteCycle(v, app, order, t);
    assert u == RunNow(v, app, order, Poised(v, t, r), r, []);
    CycleUnfolds(v, app, order, s, t, u.0, u.1);
    assert Retirement(u.0) == Retirement(t);
  }

  // ---------------------------------------------------------------- two instructions and a ret

  /** Two instructions, neither a branch nor a load, that run one after the other without a hazard, and a ret. */
  ghost predicate TwoAndRet(app: App, order: seq<Word>, s: Cpu, e0: Execution, e1: Execution) {
    && |app.code| == 3 && app.code[2] == Ret
    && (forall k :: 0 <= k < 2 ==> !IsBranch(app.code[k]) && !app.code[k].Load?)
    && !IsWriteHazard(AddAll(map[], WriteRegisters(app.code[0])), ReadRegisters(app.code[1]))
    && Run(app.code[0], NO_FORWARD, s.regs, app.labels, 0, []) == Ok(e0) && !e0.isReturn
    && Run(app.code[1], NO_FORWARD, s.regs, app.labels, 4, []) == Ok(e1) && !e1.isReturn
    && (e0.data != [] ==> LookUp([], order, e0) == (None, []))
    && (e0.data != [] ==> 0 <= e0.address && e0.address + |e0.data| <= |s.memory|)
  }

  /** The core when the k-th of the three instructions is about to run and `entry` waits to be written. */
  function Between(app: App, s: Cpu, k: nat, entry: WriteEntry, pending: Pending): Cpu
    requires |app.code| == 3 && 1 <= k <= 2
  {
    s.(fu := FetchState(12, 0, true, false, false), l1i := FirstLine(), blocked := false,
       dbus := Bus(if k == 1 then Some(8) else None, None), xbus := Bus(Some(Nth(app, k)), None),
       wbus := Bus(Some(entry), None), pending := pending)
  }

  lemma FirstQueues(v: Variant, app: App, order: seq<Word>, s: Cpu, e0: Execution)
    requires New(s) && |app.code| == 3 && !IsBranch(app.code[0]) && !app.code[0].Load?
    requires !(v == Mvp5 && IsUnconditionalBranch(app.code[1]))
    requires Run(app.code[0], NO_FORWARD, s.regs, app.labels, 0, []) == Ok(e0) && !e0.isReturn
    requires e0.data != [] ==> LookUp([], order, e0) == (None, [])
    ensures CycleOnce(v, app, order, Decoded1(app, s))
         == Turn(Between(app, s, 1, Entry(app.code[0], e0), AddAll(s.pending, WriteRegisters(app.code[0]))), 1, true,
                 None)
  {
    var s0 := Decoded1(app, s);
    FrontThree(v, app, s0);
    hide FirstLine, CycleOnce, FetchDecode, LookUp, Run, AddAll, WriteRegisters, ReadRegisters;
    var t0 := FetchDecode(v, app, s0).value;
    var u0 := Queued(t0, order, Nth(app, 0), e0);
    var w0 := Retirement(u0).(wbus := Bus(Some(Entry(app.code[0], e0)), None));
    assert WriteCycle(Retirement(u0)) == Some(w0);
    QueueingTurn(v, app, order, s0, t0, Nth(app, 0), e0, w0);
  }

  /** What the write unit makes of the first entry. */
  function FirstWritten(s: Cpu, app: App, e0: Execution, e1: Execution, pending: Pending): Retiring
    requires |app.code| == 3
  {
    var w := Entry(app.code[0], e0);
    Retiring(if e0.registerChange then Retire(s.regs, w) else s.regs,
             if e0.registerChange then SubAll(pending, w.writes) else pending,
             Landed(s.memory, w),
             if Draining.WritesMemory(w) then WriteState(true, 50) else s.wu,
             Bus(Some(Entry(app.code[1], e1)), None))
  }

  lemma RunsSecond(v: Variant, app: App, order: seq<Word>, s: Cpu, e0: Execution, e1: Execution, order1: seq<Word>)
    requires New(s) && TwoAndRet(app, order, s, e0, e1) && (e1.data != [] ==> LookUp([], order1, e1) == (None, []))
    ensures var pending0 := AddAll(s.pending, WriteRegisters(app.code[0]));
            var pending1 := AddAll(pending0, WriteRegisters(app.code[1]));
            CycleOnce(v, app, order1, Between(app, s, 1, Entry(app.code[0], e0), pending0))
            == Turn(WithRetirement(Between(app, s, 2, Entry(app.code[1], e1), pending1),
                                   FirstWritten(s, app, e0, e1, pending1)), 1, true, None)
  {
    var pending0 := AddAll(s.pending, WriteRegisters(app.code[0]));
    var s1 := Between(app, s, 1, Entry(app.code[0], e0), pending0);
    FrontThree(v, app, s1);
    hide FirstLine, CycleOnce, FetchDecode, LookUp, Run, AddAll, WriteRegisters, ReadRegisters, Retire, SubAll;
    var t1 := FetchDecode(v, app, s1).value;
    var u1 := Queued(t1, order1, Nth(app, 1), e1);
    var w1 := FirstWritten(s, app, e0, e1, u1.pending);
    assert WriteCycle(Retirement(u1)) == Some(w1);
    QueueingTurn(v, app, order1, s1, t1, Nth(app, 1), e1, w1);
  }

  /** The registers and memory that a run of two instructions and a ret ends with: behind a store to memory the second
      result is never written. */
  function LeftBy(app: App, s: Cpu, e0: Execution, e1: Execution): (Regs, Memory)
    requires |app.code| == 3
  {
    var w0, w1 := Entry(app.code[0], e0), Entry(app.code[1], e1);
    if Draining.WritesMemory(w0) then (s.regs, Landed(s.memory, w0))
    else (Settled(s.regs, Bus(Some(w0), Some(w1))), SettledMemory(s.memory, Bus(Some(w0), Some(w1))))
  }

  lemma LastWritten(app: App, s: Cpu, e0: Execution, e1: Execution, pending: Pending)
    requires |app.code| == 3 && !s.wu.pendingWrite
    requires e1.data != [] && e0.data == [] ==> 0 <= e1.address && e1.address + |e1.data| <= |s.memory|
    requires e0.data != [] ==> !e0.registerChange
    ensures var w := WriteCycle(FirstWritten(s, app, e0, e1, pending));
            w.Some? && (w.value.regs, w.value.memory) == LeftBy(app, s, e0, e1)
  {
    hide DropNonPositive, SubAll, WriteRegisters;
  }

  lemma RetAtDoor(app: App, s: Cpu, entry: WriteEntry, pending: Pending, f: Retiring)
    requires New(s) && |app.code| == 3 && app.code[2] == Ret && f.wbus.pending.None?
    ensures AtDoor(WithRetirement(Between(app, s, 2, entry, pending), f), Nth(app, 2))
  {
    assert ReadRegisters(Ret) == [];
  }

  lemma ReturnsThird(v: Variant, app: App, order: seq<Word>, order2: seq<Word>, s: Cpu, e0: Execution, e1: Execution)
    requires New(s) && TwoAndRet(app, order, s, e0, e1)
    requires e1.data != [] && e0.data == [] ==> 0 <= e1.address && e1.address + |e1.data| <= |s.memory|
    requires e0.data != [] ==> !e0.registerChange
    ensures var pending1 := AddAll(AddAll(s.pending, WriteRegisters(app.code[0])), WriteRegisters(app.code[1]));
            var u := CycleOnce(v, app, order2, WithRetirement(Between(app, s, 2, Entry(app.code[1], e1), pending1),
                                                              FirstWritten(s, app, e0, e1, pending1)));
            u.cycles == 1 && !u.ran && u.stop == Some(Return) && (u.next.regs, u.next.memory) == LeftBy(app, s, e0, e1)
  {
    var pending1 := AddAll(AddAll(s.pending, WriteRegisters(app.code[0])), WriteRegisters(app.code[1]));
    var f := FirstWritten(s, app, e0, e1, pending1);
    var s2 := WithRetirement(Between(app, s, 2, Entry(app.code[1], e1), pending1), f);
    FrontThree(v, app, s2);
    LastWritten(app, s, e0, e1, pending1);
    RetAtDoor(app, s, Entry(app.code[1], e1), pending1, f);
    assert Retirement(s2) == f;
    hide FirstLine, CycleOnce, FetchDecode, LookUp, Run, AddAll, WriteRegisters, FirstWritten, WriteCycle, LeftBy,
         AtDoor;
    ReturningTurn(v, app, order2, s2, s2, Nth(app, 2), WriteCycle(f).value);
  }

  lemma RunOfThree(v: Variant, app: App, orders: nat -> seq<Word>, s: Cpu, e0: Execution, e1: Execution)
    requires New(s) && TwoAndRet(app, orders(0), s, e0, e1)
             && (e1.data != [] ==> LookUp([], orders(1), e1) == (None, []))
    requires e1.data != [] && e0.data == [] ==> 0 <= e1.address && e1.address + |e1.data| <= |s.memory|
    requires e0.data != [] ==> !e0.registerChange
    ensures var p := AfterTurns(v, app, orders, Begin(s), 54);
            p.stop == Some(Return) && p.executed == 2 && (p.cpu.regs, p.cpu.memory) == LeftBy(app, s, e0, e1)
  {
    var pending0 := AddAll(s.pending, WriteRegisters(app.code[0]));
    var pending1 := AddAll(pending0, WriteRegisters(app.code[1]));
    var s1 := Between(app, s, 1, Entry(app.code[0], e0), pending0);
    var s2 := WithRetirement(Between(app, s, 2, Entry(app.code[1], e1), pending1),
                             FirstWritten(s, app, e0, e1, pending1));
    FirstIsDecoded(v, app, orders, s);
    FirstQueues(v, app, orders(0), s, e0);
    RunsSecond(v, app, orders(0), s, e0, e1, orders(1));
    ReturnsThird(v, app, orders(0), orders(2), s, e0, e1);
    hide CycleOnce, Between, FirstWritten, WithRetirement, LeftBy, LookUp, TwoAndRet, New, AddAll, WriteRegisters;
    Goes(v, app, orders, s, 51, Progress(Decoded1(app, s), 0, 51, None), Turn(s1, 1, true, None));
    Goes(v, app, orders, s, 52, Progress(s1, 1, 52, None), Turn(s2, 1, true, None));
    Goes(v, app, orders, s, 53, Progress(s2, 2, 53, None), CycleOnce(v, app, orders(2), s2));
  }

  // ---------------------------------------------------------------- the sequential core on the same program

  lemma ReferenceGoes(app: App, orders: nat -> seq<Word>, start: Cached, k: nat, c: Cached, d: Cached)
    requires Reference(Dropping, app, orders, start, k) == Some(c)
             && StepCached(Dropping, app, orders(k), c) == CachedNext(d)
    ensures Reference(Dropping, app, orders, start, k + 1) == Some(d)
  {
    hide StepCached;
  }

  /** A store to the first byte of memory, with nothing cached. */
  lemma FirstStoreMisses(order: seq<Word>, e: Execution)
    requires |e.data| == 1
    ensures LookUp([], order, e) == (None, [])
  {
    var addrs := Arrange(order, Addresses(e.address, 1));
    assert |multiset(addrs)| == |multiset(Addresses(e.address, 1))| == 1;
    assert addrs != [];
  }

  lemma StoreZero(app: App, regs: Regs, address: Word, pc: Word, i: Instr)
    requires i == Store(OneByte, 0, address, 0) && Read(regs, 0) == 0
    ensures Run(i, NO_FORWARD, regs, app.labels, pc, []) == Ok(NO_EFFECT.(address := address, data := [0]))
  {
    assert ByteOf(0, 0) == 0;
  }

  /** A step of the sequential core with nothing cached. */
  lemma StepOf(app: App, order: seq<Word>, c: Cached, i: Instr, e: Execution)
    requires 0 <= Index(c.pc) < |app.code| && app.code[Index(c.pc)] == i && !i.Load? && c.lines == []
    requires Run(i, NO_FORWARD, c.regs, app.labels, c.pc, []) == Ok(e) && !e.isReturn
             && (e.registerChange ==> e.data == [])
    requires e.data != [] ==> LookUp([], order, e) == (None, []) && 0 <= e.address && e.address + |e.data| <= |c.memory|
    ensures StepCached(Dropping, app, order, c)
         == CachedNext(Cached(Retire(DirectWrite(i, c.regs, c.pc), Entry(i, e)), NextPc(c.pc, e), [],
                              Landed(c.memory, Entry(i, e))))
  {
    hide Run, LookUp, DropNonPositive, DirectWrite;
  }

  /** The sequential core on the same two instructions, when the second does not depend on the first. */
  lemma ReferenceOfTwo(app: App, orders: nat -> seq<Word>, s: Cpu, e0: Execution, e1: Execution)
    requires New(s) && TwoAndRet(app, orders(0), s, e0, e1)
             && (e1.data != [] ==> LookUp([], orders(1), e1) == (None, []))
    requires var w0 := Entry(app.code[0], e0);
             && Run(app.code[1], NO_FORWARD, Retire(s.regs, w0), app.labels, 4, []) == Ok(e1)
             && (e0.registerChange ==> e0.data == []) && (e1.registerChange ==> e1.data == []) && !e0.pcChange
             && !e1.pcChange
             && (e1.data != [] ==> 0 <= e1.address && e1.address + |e1.data| <= |s.memory|)
    ensures var w0, w1 := Entry(app.code[0], e0), Entry(app.code[1], e1);
            var ref := Reference(Dropping, app, orders, Start(s), 2);
            && ref == Some(Cached(Retire(Retire(s.regs, w0), w1), 8, [], Landed(Landed(s.memory, w0), w1)))
            && StepCached(Dropping, app, orders(2), ref.value) == CachedStop(Return)
  {
    var w0, w1 := Entry(app.code[0], e0), Entry(app.code[1], e1);
    var c0 := Start(s);
    var c1 := Cached(Retire(s.regs, w0), 4, [], Landed(s.memory, w0));
    var c2 := Cached(Retire(Retire(s.regs, w0), w1), 8, [], Landed(Landed(s.memory, w0), w1));
    StepOf(app, orders(0), c0, app.code[0], e0);
    StepOf(app, orders(1), c1, app.code[1], e1);
    assert StepCached(Dropping, app, orders(2), c2) == CachedStop(Return);
    assert Reference(Dropping, app, orders, c0, 0) == Some(c0);
    hide StepCached, Run, LookUp, Retire, Landed, TwoAndRet, New;
    ReferenceGoes(app, orders, c0, 0, c0, c1);
    ReferenceGoes(app, orders, c0, 1, c1, c2);
  }

  lemma RunsAlone(app: App, regs: Regs, pc: Word, rd: Reg, imm: Word)
    ensures Run(Li(rd, imm), NO_FORWARD, regs, app.labels, pc, []) == Ok(RegisterWrite(rd, imm))
  {
  }

  lemma NoHazardYet(i: Instr, j: Instr)
    requires WriteRegisters(i) == [] || ReadRegisters(j) == []
    ensures !IsWriteHazard(AddAll(map[], WriteRegisters(i)), ReadRegisters(j))
  {
    assert AddAll(map[], []) == map[];
  }

  // ---------------------------------------------------------------- a result left behind a store

  function StoreThenReturn(): App { App([Store(OneByte, 0, 0, 0), Li(10, 1), Ret], map[]) }

  lemma StoreThenReturnRuns(order: seq<Word>, s: Cpu)
    requires New(s) && s.regs == map[] && |s.memory| == 1
    ensures TwoAndRet(StoreThenReturn(), order, s, NO_EFFECT.(data := [0]), RegisterWrite(10, 1))
  {
    hide Run, LookUp, IsWriteHazard, AddAll, New;
    var app := StoreThenReturn();
    StoreZero(app, s.regs, 0, 0, app.code[0]);
    RunsAlone(app, s.regs, 4, 10, 1);
    FirstStoreMisses(order, NO_EFFECT.(data := [0]));
    NoHazardYet(app.code[0], app.code[1]);
  }

  /** A store past the L1D keeps the write unit busy, the result of the next instruction waits behind it, and ret ends
      the run without it. */
  lemma ResultIsLost(v: Variant, orders: nat -> seq<Word>, s: Cpu)
    requires New(s) && s.regs == map[] && |s.memory| == 1
    ensures var p := AfterTurns(v, StoreThenReturn(), orders, Begin(s), 54);
            p.stop == Some(Return) && p.executed == 2 && Read(p.cpu.regs, 10) == 0
    ensures var ref := Reference(Dropping, StoreThenReturn(), orders, Start(s), 2);
            && ref.Some? && Read(ref.value.regs, 10) == 1
            && StepCached(Dropping, StoreThenReturn(), orders(2), ref.value) == CachedStop(Return)
  {
    hide TwoAndRet, LookUp, Run, AfterTurns, New, DropNonPositive, Reference, StepCached, Fresh;
    var app, e0, e1 := StoreThenReturn(), NO_EFFECT.(data := [0]), RegisterWrite(10, 1);
    StoreThenReturnRuns(orders(0), s);
    RunOfThree(v, app, orders, s, e0, e1);
    RunsAlone(app, map[], 4, 10, 1);
    NothingRetires(s.regs, Entry(app.code[0], e0));
    ReferenceOfTwo(app, orders, s, e0, e1);
    RetireShape(map[], Entry(app.code[1], e1));
    hide Retire;
  }

  lemma NothingRetires(regs: Regs, w: WriteEntry)
    requires !w.exe.registerChange
    ensures Retire(regs, w) == regs
  {
  }

  // ---------------------------------------------------------------- an error behind a store

  function StoreOutside(): App { App([Store(OneByte, 0, 0, 0), Store(OneByte, 0, 1, 0), Ret], map[]) }

  lemma StoreOutsideRuns(order: seq<Word>, s: Cpu)
    requires New(s) && s.regs == map[] && |s.memory| == 1
    ensures TwoAndRet(StoreOutside(), order, s, NO_EFFECT.(data := [0]), NO_EFFECT.(address := 1, data := [0]))
  {
    hide Run, LookUp, IsWriteHazard, AddAll, New;
    var app := StoreOutside();
    StoreZero(app, s.regs, 0, 0, app.code[0]);
    StoreZero(app, s.regs, 1, 4, app.code[1]);
    FirstStoreMisses(order, NO_EFFECT.(data := [0]));
    NoHazardYet(app.code[0], app.code[1]);
  }

  lemma NoStoreOutside(app: App, order: seq<Word>, c: Cached, i: Instr, e: Execution)
    requires 0 <= Index(c.pc) < |app.code| && app.code[Index(c.pc)] == i && i.Store? && c.lines == []
    requires Run(i, NO_FORWARD, c.regs, app.labels, c.pc, []) == Ok(e) && !e.isReturn && !e.registerChange
             && e.data != []
    requires LookUp([], order, e) == (None, []) && e.address >= |c.memory|
    ensures StepCached(Dropping, app, order, c) == CachedStop(Error(BadAddress))
  {
    hide Run, LookUp;
  }

  /** Behind a store to memory, a store outside memory waits and is forgotten, where the sequential core stops with an
      error. */
  lemma ErrorIsLost(v: Variant, orders: nat -> seq<Word>, s: Cpu)
    requires New(s) && s.regs == map[] && |s.memory| == 1
    ensures AfterTurns(v, StoreOutside(), orders, Begin(s), 54).stop == Some(Return)
    ensures var ref := Reference(Dropping, StoreOutside(), orders, Start(s), 1);
            ref.Some? && StepCached(Dropping, StoreOutside(), orders(1), ref.value) == CachedStop(Error(BadAddress))
  {
    hide TwoAndRet, LookUp, Run, AfterTurns, New, DropNonPositive, Reference, StepCached, Fresh;
    var app, e0, e1 := StoreOutside(), NO_EFFECT.(data := [0]), NO_EFFECT.(address := 1, data := [0]);
    StoreOutsideRuns(orders(0), s);
    FirstStoreMisses(orders(1), e1);
    RunOfThree(v, app, orders, s, e0, e1);
    var c0, w0 := Start(s), Entry(app.code[0], e0);
    var c1 := Cached(Retire(s.regs, w0), 4, [], Landed(s.memory, w0));
    NothingRetires(s.regs, w0);
    FirstStoreMisses(orders(0), e0);
    StoreZero(app, s.regs, 0, 0, app.code[0]);
    StoreZero(app, s.regs, 1, 4, app.code[1]);
    StartIsEmpty(s);
    StepOf(app, orders(0), c0, app.code[0], e0);
    ReferenceBegins(app, orders, c0);
    ReferenceGoes(app, orders, c0, 0, c0, c1);
    NoStoreOutside(app, orders(1), c1, app.code[1], e1);
  }

  lemma StartIsEmpty(s: Cpu)
    requires New(s)
    ensures Start(s) == Cached(s.regs, 0, [], s.memory)
  {
  }

  lemma ReferenceBegins(app: App, orders: nat -> seq<Word>, start: Cached)
    ensures Reference(Dropping, app, orders, start, 0) == Some(start)
  {
  }

  // ---------------------------------------------------------------- a taken bltu

  function TakenBltu(): App { App([Branch(Bltu, 0, 5, "out"), Li(6, 1), Ret], map["out" := 8]) }

  lemma BltuRuns(regs: Regs, i: Instr)
    requires i == Branch(Bltu, 0, 5, "out") && regs == map[5 := 1]
    ensures Run(i, NO_FORWARD, regs, map["out" := 8], 0, []) == Ok(NO_EFFECT.(pcChange := true, nextPc := 8))
  {
  }

  lemma TakenBltuRuns(order: seq<Word>, s: Cpu)
    requires New(s) && s.regs == map[5 := 1]
    ensures TwoAndRet(TakenBltu(), order, s, NO_EFFECT.(pcChange := true, nextPc := 8), RegisterWrite(6, 1))
  {
    hide Run, LookUp, IsWriteHazard, AddAll, New;
    var app := TakenBltu();
    BltuRuns(s.regs, app.code[0]);
    RunsAlone(app, s.regs, 4, 6, 1);
    NoHazardYet(app.code[0], app.code[1]);
  }

  /** The branch unit does not know bltu: taken, it does not flush, and the instructions after it run. */
  lemma BltuFallsThrough(v: Variant, orders: nat -> seq<Word>, s: Cpu)
    requires New(s) && s.regs == map[5 := 1]
    ensures var p := AfterTurns(v, TakenBltu(), orders, Begin(s), 54);
            p.stop == Some(Return) && Read(p.cpu.regs, 6) == 1
    ensures var ref := Reference(Dropping, TakenBltu(), orders, Start(s), 1);
            && ref.Some? && Read(ref.value.regs, 6) == 0
            && StepCached(Dropping, TakenBltu(), orders(1), ref.value) == CachedStop(Return)
  {
    hide TwoAndRet, LookUp, Run, AfterTurns, New, DropNonPositive, Reference, Fresh;
    var app, e0, e1 := TakenBltu(), NO_EFFECT.(pcChange := true, nextPc := 8), RegisterWrite(6, 1);
    TakenBltuRuns(orders(0), s);
    RunOfThree(v, app, orders, s, e0, e1);
    var c0, w0 := Start(s), Entry(app.code[0], e0);
    var c1 := Cached(s.regs, 8, [], s.memory);
    NothingRetires(s.regs, w0);
    RetireShape(s.regs, Entry(app.code[1], e1));
    BltuRuns(s.regs, app.code[0]);
    StartIsEmpty(s);
    StepOf(app, orders(0), c0, app.code[0], e0);
    ReferenceBegins(app, orders, c0);
    ReferenceGoes(app, orders, c0, 0, c0, c1);
    ReturnsAt(app, orders(1), c1);
    hide StepCached, Retire;
  }

  lemma ReturnsAt(app: App, order: seq<Word>, c: Cached)
    requires 0 <= Index(c.pc) < |app.code| && app.code[Index(c.pc)] == Ret
    ensures StepCached(Dropping, app, order, c) == CachedStop(Return)
  {
  }
}
