/** An lh and the instruction after it, on MVP-4 and MVP-5. */
module PipelineLoads {
  import opened Words
  import opened Isa
  import opened Cache
  import opened Mmu
  import opened Sequential
  import opened Pipeline
  import opened PipelineRegisters
  import opened PipelineRun
  import opened PipelineDepartures
  import Footprint

  function HalfThenMove(): App { App([Load(TwoBytes, 5, 0, 0), Mv(6, 5), Ret], map[]) }

  /** lh in the execute unit, counting down or waiting for memory, and the other two behind it. */
  function Waiting(app: App, s: Cpu, remaining: int, reading: bool): Cpu
    requires |app.code| == 3
  {
    s.(fu := FetchState(12, 0, true, false, false), l1i := FirstLine(), blocked := false,
       xbus := Bus(Some(Nth(app, 1)), Some(Nth(app, 2))),
       eu := ExecuteState(true, remaining, reading, if reading then [0, 1] else [], None, Some(Nth(app, 0))))
  }

  /** The turn in which lh enters the execute unit. */
  function Entered(app: App, s: Cpu): Cpu
    requires |app.code| == 3
  {
    s.(fu := FetchState(12, 0, true, false, false), l1i := FirstLine(), blocked := false,
       dbus := Bus(Some(8), None), xbus := Bus(Some(Nth(app, 1)), None),
       eu := ExecuteState(true, 49, false, [], None, Some(Nth(app, 0))))
  }

  lemma EnterTurns(v: Variant, app: App, order: seq<Word>, s: Cpu)
    requires New(s) && app == HalfThenMove()
    ensures CycleOnce(v, app, order, Decoded1(app, s)) == Turn(Entered(app, s), 1, false, None)
    ensures CycleOnce(v, app, order, Entered(app, s)) == Turn(Waiting(app, s, 48, false), 1, false, None)
  {
    FrontThree(v, app, Decoded1(app, s));
    FrontThree(v, app, Entered(app, s));
    hide FirstLine, FetchDecode;
  }

  /** Nothing moves in front of a busy execute unit. */
  lemma WaitingFront(v: Variant, app: App, s: Cpu, remaining: int, reading: bool)
    requires New(s) && |app.code| == 3
    ensures FetchDecode(v, app, Waiting(app, s, remaining, reading)) == Some(Waiting(app, s, remaining, reading))
  {
    hide FirstLine;
  }

  lemma WaitTurn(v: Variant, app: App, order: seq<Word>, s: Cpu, remaining: int, reading: bool)
    requires New(s) && |app.code| == 3 && remaining > 1
    ensures CycleOnce(v, app, order, Waiting(app, s, remaining, reading))
            == Turn(Waiting(app, s, remaining - 1, reading), 1, false, None)
  {
    WaitingFront(v, app, s, remaining, reading);
    hide FirstLine, FetchDecode;
  }

  lemma {:induction false} Waits(v: Variant, app: App, orders: nat -> seq<Word>, s: Cpu, from: nat, remaining: nat,
                                 reading: bool, k: nat)
    requires New(s) && |app.code| == 3 && k < remaining
    requires AfterTurns(v, app, orders, Begin(s), from) == Progress(Waiting(app, s, remaining, reading), 0, from, None)
    ensures AfterTurns(v, app, orders, Begin(s), from + k)
            == Progress(Waiting(app, s, remaining - k, reading), 0, from + k, None)
  {
    hide CycleOnce, Waiting, New;
    if k > 0 {
      Waits(v, app, orders, s, from, remaining, reading, k - 1);
      WaitTurn(v, app, orders(0), s, remaining - k + 1, reading);
    }
  }

  lemma NoHazard(i: Instr)
    ensures !IsWriteHazard(map[], ReadRegisters(i))
  {
  }

  /** A turn without results, in which the execute unit stalls or queues one. */
  lemma QuietTurn(v: Variant, app: App, order: seq<Word>, s: Cpu, t: Cpu, u: Cpu, x: Executed)
    requires FetchDecode(v, app, s) == Some(t) && ExecuteCycle(v, app, order, t) == (u, x) && (x == Stalled || x == Ran)
    requires !u.wu.pendingWrite && u.wbus.current.None? && !u.xbus.IsEmpty()
    ensures CycleOnce(v, app, order, s) == Turn(u.(wbus := u.wbus.Shift()), 1, x == Ran, None)
  {
    hide FetchDecode, ExecuteCycle, CycleOnce;
    CycleUnfolds(v, app, order, s, t, u, x);
  }

  lemma ReadStarts(v: Variant, app: App, order: seq<Word>, s: Cpu)
    requires New(s) && |app.code| == 3 && app.code[0].Load? && MemoryRead(app.code[0], NO_FORWARD, s.regs) == [0, 1]
    ensures ExecuteCycle(v, app, order, Waiting(app, s, 1, false)) == (Waiting(app, s, 50, true), Stalled)
  {
    NoHazard(app.code[0]);
    assert GetAll([], [0, 1]) == (None, []);
    hide FirstLine, MemoryRead, IsWriteHazard, GetAll, ReadRegisters;
  }

  lemma TwoAddresses(regs: Regs)
    requires regs == map[]
    ensures MemoryRead(Load(TwoBytes, 5, 0, 0), NO_FORWARD, regs) == [0, 1]
  {
    assert Addresses(0, 1) == [0];
    assert Addresses(0, 2) == Addresses(0, 1) + [1];
  }

  // ---------------------------------------------------------------- the value

  function LoadedLine(memory: Memory): seq<Line> { [Line(0, 64, FetchLine(memory, 0))] }

  lemma MissFetches(memory: Memory)
    requires memory == [1, 0]
    ensures LoadMiss([], memory, [0, 1]) == Some(Loaded([1, 0], LoadedLine(memory), memory))
  {
    var line := Line(0, 64, FetchLine(memory, 0));
    var one := LoadedLine(memory);
    assert FetchLine(memory, 0)[0] == 1 && FetchLine(memory, 0)[1] == 0;
    assert Push([], NUMBER_OF_LINES, line) == one;
    FrontHits(one, 0);
    FrontHits(one, 1);
    hide FetchLine, Get, Push;
    GetsOne(one, 1);
    assert [0, 1][1..] == [1];
    assert [1] + [0] == [1, 0];
  }

  lemma GetsOne(lines: seq<Line>, a: Word)
    requires Get(lines, a).0.Some?
    ensures GetAll(lines, [a]) == (Some([Get(lines, a).0.value]), Get(lines, a).1)
  {
    hide Get;
    var g := Get(lines, a);
    assert [a][1..] == [] && [g.0.value] + [] == [g.0.value];
    assert GetAll(g.1, []) == (Some([]), g.1);
  }

  lemma FrontHits(lines: seq<Line>, a: Word)
    requires |lines| == 1 && Covers(lines[0], a)
    ensures Get(lines, a) == (Some(At(lines[0], a)), lines)
  {
    assert ToFront(lines, 0) == lines;
  }

  const HALF := RegisterWrite(5, 1)

  lemma HalfRuns(regs: Regs, i: Instr)
    requires i == Load(TwoBytes, 5, 0, 0)
    ensures Run(i, NO_FORWARD, regs, map[], 0, [1, 0]) == Ok(HALF)
  {
    hide WordOf, Alu, Wrap;
    Footprint.OneWord();
  }

  lemma MoveRuns(regs: Regs, i: Instr)
    requires i == Mv(6, 5)
    ensures Run(i, NO_FORWARD, regs, map[], 4, []) == Ok(RegisterWrite(6, Read(regs, 5)))
  {
  }

  /** The program, as far as its run needs it. */
  lemma HalfFacts(app: App, regs: Regs)
    requires app == HalfThenMove()
    ensures |app.code| == 3 && app.code[0].Load? && !IsBranch(app.code[0]) && !IsBranch(app.code[1])
            && !app.code[1].Load? && app.code[2] == Ret
    ensures WriteRegisters(app.code[0]) == [] && WriteRegisters(app.code[1]) == [6] && !app.code[0].Jal?
            && !app.code[1].Jal?
    ensures regs == map[] ==> MemoryRead(app.code[0], NO_FORWARD, regs) == [0, 1]
    ensures MemoryRead(app.code[1], NO_FORWARD, regs) == []
  {
    hide MemoryRead;
    if regs == map[] { TwoAddresses(regs); }
    NotALoad(app.code[1], regs);
  }

  lemma HalfResult(app: App, regs: Regs)
    requires app == HalfThenMove()
    ensures Run(app.code[0], NO_FORWARD, regs, app.labels, 0, [1, 0]) == Ok(HALF)
  {
    hide Run;
    HalfRuns(regs, app.code[0]);
  }

  lemma MoveResult(app: App, regs: Regs)
    requires app == HalfThenMove()
    ensures Run(app.code[1], NO_FORWARD, regs, app.labels, 4, []) == Ok(RegisterWrite(6, Read(regs, 5)))
  {
    hide Run;
    MoveRuns(regs, app.code[1]);
  }

  lemma NotALoad(i: Instr, regs: Regs)
    requires !i.Load?
    ensures MemoryRead(i, NO_FORWARD, regs) == []
  {
  }

  lemma ReadTurn(v: Variant, app: App, order: seq<Word>, s: Cpu)
    requires New(s) && app == HalfThenMove() && s.regs == map[]
    ensures CycleOnce(v, app, order, Waiting(app, s, 1, false)) == Turn(Waiting(app, s, 50, true), 1, false, None)
  {
    hide FirstLine, FetchDecode, ExecuteCycle, CycleOnce, HalfThenMove, MemoryRead;
    HalfFacts(app, s.regs);
    WaitingFront(v, app, s, 1, false);
    ReadStarts(v, app, order, s);
    QuietTurn(v, app, order, Waiting(app, s, 1, false), Waiting(app, s, 1, false), Waiting(app, s, 50, true), Stalled);
  }

  /** lh is done, and its value is queued. */
  function HalfQueued(app: App, s: Cpu): Cpu
    requires app == HalfThenMove()
  {
    Waiting(app, s, 0, true).(eu := ExecuteState(false, 0, false, [0, 1], None, None), l1d := LoadedLine(s.memory),
                              wbus := Bus(Some(Entry(app.code[0], HALF)), None))
  }

  lemma HalfSends(v: Variant, app: App, order: seq<Word>, s: Cpu)
    requires New(s) && app == HalfThenMove() && s.regs == map[] && s.memory == [1, 0]
    ensures ExecuteCycle(v, app, order, Waiting(app, s, 1, true))
         == (HalfQueued(app, s).(wbus := Bus(None, Some(Entry(app.code[0], HALF)))), Ran)
  {
    hide FirstLine, LoadMiss, LoadedLine, Run, AddAll, WriteRegisters, LookUp, HalfThenMove, MemoryRead, ReadRegisters,
         Compute;
    HalfFacts(app, s.regs);
    HalfResult(app, s.regs);
    MissFetches(s.memory);
    AddNone(s.pending);
  }

  lemma HalfTurn(v: Variant, app: App, order: seq<Word>, s: Cpu)
    requires New(s) && app == HalfThenMove() && s.regs == map[] && s.memory == [1, 0]
    ensures CycleOnce(v, app, order, Waiting(app, s, 1, true)) == Turn(HalfQueued(app, s), 1, true, None)
  {
    hide FirstLine, FetchDecode, ExecuteCycle, CycleOnce, HalfThenMove, LoadedLine;
    HalfFacts(app, s.regs);
    WaitingFront(v, app, s, 1, true);
    HalfSends(v, app, order, s);
    QuietTurn(v, app, order, Waiting(app, s, 1, true), Waiting(app, s, 1, true),
              HalfQueued(app, s).(wbus := Bus(None, Some(Entry(app.code[0], HALF)))), Ran);
  }

  // ---------------------------------------------------------------- the move that comes too early

  function MoveEntry(app: App): WriteEntry
    requires app == HalfThenMove()
  {
    Entry(app.code[1], RegisterWrite(6, 0))
  }

  /** The move has run with the old value while the new one was being written. */
  function Moved(app: App, s: Cpu): Cpu
    requires app == HalfThenMove()
  {
    HalfQueued(app, s).(xbus := Bus(Some(Nth(app, 2)), None), regs := map[5 := 1],
                        wbus := Bus(Some(MoveEntry(app)), None),
                        pending := AddAll(s.pending, [6]))
  }

  lemma HalfFront(v: Variant, app: App, s: Cpu)
    requires New(s) && app == HalfThenMove()
    ensures FetchDecode(v, app, HalfQueued(app, s)) == Some(HalfQueued(app, s))
    ensures AtDoor(HalfQueued(app, s), Nth(app, 1))
  {
    NoHazard(app.code[1]);
    hide FirstLine, LoadedLine, ReadRegisters, IsWriteHazard;
  }

  lemma MoveTurn(v: Variant, app: App, order: seq<Word>, s: Cpu)
    requires New(s) && app == HalfThenMove() && s.regs == map[]
    ensures CycleOnce(v, app, order, HalfQueued(app, s)) == Turn(Moved(app, s), 1, true, None)
  {
    var t, r, e := HalfQueued(app, s), Nth(app, 1), RegisterWrite(6, 0);
    HalfFront(v, app, s);
    MoveRuns(s.regs, app.code[1]);
    var w0 := Entry(app.code[0], HALF);
    RetireShape(map[], w0);
    assert WriteRegisters(app.code[1]) == [6];
    hide FirstLine, LoadedLine, FetchDecode, CycleOnce, Run, LookUp, AtDoor, Retire, AddAll;
    var u := Queued(t, order, r, e);
    var w := Retiring(map[5 := 1], SubAll(u.pending, []), s.memory, s.wu, Bus(Some(MoveEntry(app)), None));
    assert SubAll(u.pending, []) == u.pending;
    assert WriteCycle(Retirement(u)) == Some(w);
    QueueingTurn(v, app, order, t, t, r, e, w);
  }

  lemma MovedFront(v: Variant, app: App, s: Cpu)
    requires New(s) && app == HalfThenMove()
    ensures FetchDecode(v, app, Moved(app, s)) == Some(Moved(app, s))
    ensures AtDoor(Moved(app, s), Nth(app, 2))
  {
    assert ReadRegisters(Ret) == [];
    hide FirstLine, LoadedLine, AddAll;
  }

  lemma MovedReturns(v: Variant, app: App, order: seq<Word>, s: Cpu)
    requires New(s) && app == HalfThenMove()
    ensures var u := CycleOnce(v, app, order, Moved(app, s)); u.stop == Some(Return) && Read(u.next.regs, 6) == 0
  {
    MovedFront(v, app, s);
    var t, w := Moved(app, s), MoveEntry(app);
    RetireShape(map[5 := 1], w);
    hide FirstLine, LoadedLine, FetchDecode, CycleOnce, AtDoor, Retire, AddAll, SubAll;
    ReturningTurn(v, app, order, t, t, Nth(app, 2), WriteCycle(Retirement(t)).value);
  }

  lemma HalfSequentially(orders: nat -> seq<Word>, s: Cpu)
    requires New(s) && s.regs == map[] && s.memory == [1, 0]
    ensures var ref := Reference(Dropping, HalfThenMove(), orders, Start(s), 2);
            && ref.Some? && Read(ref.value.regs, 6) == 1
            && StepCached(Dropping, HalfThenMove(), orders(2), ref.value) == CachedStop(Return)
  {
    hide Reference, New, Fresh, LoadedLine, Run, Retire, StepCached, HalfThenMove;
    var app := HalfThenMove();
    HalfFacts(app, map[5 := 1]);
    var c0 := Start(s);
    var w1 := Entry(app.code[1], RegisterWrite(6, 1));
    var c1 := Cached(map[5 := 1], 4, LoadedLine(s.memory), s.memory);
    var c2 := Cached(Retire(map[5 := 1], w1), 8, LoadedLine(s.memory), s.memory);
    StartIsEmpty(s);
    HalfStep(app, orders(0), c0);
    MoveStep(app, orders(1), c1);
    RetireShape(map[5 := 1], w1);
    ReferenceBegins(app, orders, c0);
    ReferenceGoes(app, orders, c0, 0, c0, c1);
    ReferenceGoes(app, orders, c0, 1, c1, c2);
    ReturnsAt(app, orders(2), c2);
  }

  lemma HalfStep(app: App, order: seq<Word>, c: Cached)
    requires app == HalfThenMove() && c == Cached(map[], 0, [], [1, 0])
    ensures StepCached(Dropping, app, order, c) == CachedNext(Cached(map[5 := 1], 4, LoadedLine(c.memory), c.memory))
  {
    hide Run, MemoryRead, LoadMiss, LoadedLine, Retire, GetAll, HalfThenMove, WriteRegisters;
    HalfFacts(app, c.regs);
    HalfResult(app, c.regs);
    MissFetches(c.memory);
    RetireShape(map[], Entry(app.code[0], HALF));
    NothingCached([0, 1]);
  }

  lemma NothingCached(addrs: seq<Word>)
    requires addrs != []
    ensures GetAll([], addrs) == (None, [])
  {
  }

  lemma MoveStep(app: App, order: seq<Word>, c: Cached)
    requires app == HalfThenMove() && c.pc == 4 && Read(c.regs, 5) == 1
    ensures |app.code| == 3
    ensures StepCached(Dropping, app, order, c)
         == CachedNext(Cached(Retire(c.regs, Entry(app.code[1], RegisterWrite(6, 1))), 8, c.lines, c.memory))
  {
    hide Run, Retire, MemoryRead, HalfThenMove, WriteRegisters;
    HalfFacts(app, c.regs);
    MoveResult(app, c.regs);
  }

  lemma HalfRunsTo(v: Variant, app: App, orders: nat -> seq<Word>, s: Cpu)
    requires New(s) && app == HalfThenMove() && s.regs == map[] && s.memory == [1, 0]
    ensures AfterTurns(v, app, orders, Begin(s), 151) == Progress(HalfQueued(app, s), 1, 151, None)
  {
    hide CycleOnce, New, Fresh, AfterTurns, Waiting, Entered, HalfQueued, Decoded1, HalfThenMove;
    HalfFacts(app, s.regs);
    FirstIsDecoded(v, app, orders, s);
    EnterTurns(v, app, orders(0), s);
    Goes(v, app, orders, s, 51, Progress(Decoded1(app, s), 0, 51, None), Turn(Entered(app, s), 1, false, None));
    Goes(v, app, orders, s, 52, Progress(Entered(app, s), 0, 52, None),
         Turn(Waiting(app, s, 48, false), 1, false, None));
    Waits(v, app, orders, s, 53, 48, false, 47);
    ReadTurn(v, app, orders(0), s);
    Goes(v, app, orders, s, 100, Progress(Waiting(app, s, 1, false), 0, 100, None),
         Turn(Waiting(app, s, 50, true), 1, false, None));
    Waits(v, app, orders, s, 101, 50, true, 49);
    HalfTurn(v, app, orders(0), s);
    Goes(v, app, orders, s, 150, Progress(Waiting(app, s, 1, true), 0, 150, None),
         Turn(HalfQueued(app, s), 1, true, None));
  }

  /** lh does not tell the scoreboard what it writes: the instruction right after it reads the old value. */
  lemma HalfIsUnseen(v: Variant, orders: nat -> seq<Word>, s: Cpu)
    requires New(s) && s.regs == map[] && s.memory == [1, 0]
    ensures var p := AfterTurns(v, HalfThenMove(), orders, Begin(s), 153);
            p.stop == Some(Return) && Read(p.cpu.regs, 6) == 0
    ensures var ref := Reference(Dropping, HalfThenMove(), orders, Start(s), 2);
            && ref.Some? && Read(ref.value.regs, 6) == 1
            && StepCached(Dropping, HalfThenMove(), orders(2), ref.value) == CachedStop(Return)
  {
    var app := HalfThenMove();
    hide CycleOnce, New, Fresh, AfterTurns, HalfQueued, Moved, Reference, StepCached, HalfThenMove;
    HalfSequentially(orders, s);
    HalfRunsTo(v, app, orders, s);
    MoveTurn(v, app, orders(1), s);
    MovedReturns(v, app, orders(2), s);
    Goes(v, app, orders, s, 151, Progress(HalfQueued(app, s), 1, 151, None), Turn(Moved(app, s), 1, true, None));
    Goes(v, app, orders, s, 152, Progress(Moved(app, s), 2, 152, None), CycleOnce(v, app, orders(2), Moved(app, s)));
  }
}
