/** A run of MVP-6.1 that computes a wrong value: three instructions, each of which needs the result of the one
    before. */
module ForwardingChain {
  import opened Words
  import opened Isa
  import opened Pipeline
  import opened Scoreboard
  import opened Control
  import opened OutOfOrder
  import opened InFlightTheorems
  import opened InFlightProgress
  import InFlightChains
  import Coherence
  import InFlight
  import Sequential
  import Buffered = BufferedBus

  const FIRST := RunnerPc(Li(5, 1), 0)
  const SECOND := RunnerPc(AluRI(Add, 6, 5, 1), 4)
  const THIRD := RunnerPc(AluRI(Add, 7, 6, 1), 8)

  // ---------------------------------------------------------------- buses with at most two entries

  function NoEntry<T>(): Buffered.Bus<T> { Buffered.Bus([], []) }

  function Waiting<T>(t: T, from: int): Buffered.Bus<T> { Buffered.Bus([], [Buffered.Timed(from, t)]) }

  function WaitingTwo<T>(t: T, u: T, from: int): Buffered.Bus<T> {
    Buffered.Bus([], [Buffered.Timed(from, t), Buffered.Timed(from, u)])
  }

  function Ready<T>(t: T): Buffered.Bus<T> { Buffered.Bus([t], []) }

  lemma ConnectWaiting<T>(t: T, cycle: int)
    ensures Waiting(t, cycle).Connect(BUS_LENGTH, cycle) == Ready(t)
  {
    var buffer := Waiting(t, cycle).buffer;
    assert buffer[1..] == [];
    assert Buffered.Moved(0, BUS_LENGTH, buffer, cycle) == 1;
    assert Buffered.Values(buffer[..1]) == [t];
  }

  lemma ConnectTwo<T>(t: T, u: T, cycle: int)
    ensures WaitingTwo(t, u, cycle).Connect(BUS_LENGTH, cycle) == Buffered.Bus([t, u], [])
  {
    var buffer := WaitingTwo(t, u, cycle).buffer;
    assert buffer[1..] == [Buffered.Timed(cycle, u)] && buffer[1..][1..] == [];
    assert Buffered.Moved(1, BUS_LENGTH, buffer[1..], cycle) == 1;
    assert Buffered.Values(buffer[..2]) == [t, u];
  }

  lemma ConnectReady<T>(t: T, cycle: int)
    ensures Ready(t).Connect(BUS_LENGTH, cycle) == Ready(t)
  {
  }

  lemma ConnectNothing<T>(cycle: int)
    ensures NoEntry<T>().Connect(BUS_LENGTH, cycle) == NoEntry<T>()
  {
  }

  lemma AddOne<T>(t: T, cycle: int)
    ensures Buffered.AddAll(NoEntry<T>(), [t], cycle) == Waiting(t, cycle + 1)
    ensures Buffered.AddAll(Ready(t), [], cycle) == Ready(t)
    ensures Buffered.Add(NoEntry<T>(), t, cycle) == Waiting(t, cycle + 1)
  {
    assert [t][1..] == [];
  }

  lemma DeliverOne<T>(a: T, b: T, cycle: int)
    ensures Buffered.AddAll(Ready(a), [b], cycle) == Ready(a).(buffer := [Buffered.Timed(cycle + 1, b)])
  {
    assert [b][1..] == [];
  }

  lemma DeliverTwo<T>(a: T, b: T, c: T, cycle: int)
    ensures Buffered.AddAll(Ready(a), [b, c], cycle) == WaitingTwo(b, c, cycle + 1).(queue := [a])
  {
    assert [b, c][1..] == [c];
    var bus := Buffered.Add(Ready(a), b, cycle);
    assert bus.buffer == [Buffered.Timed(cycle + 1, b)];
    DeliverMore(bus, c, cycle);
    assert Buffered.Add(bus, c, cycle).buffer == [Buffered.Timed(cycle + 1, b), Buffered.Timed(cycle + 1, c)];
  }

  lemma DeliverMore<T>(bus: Buffered.Bus<T>, c: T, cycle: int)
    ensures Buffered.AddAll(bus, [c], cycle) == Buffered.Add(bus, c, cycle)
    ensures Buffered.AddAll(bus, [], cycle) == bus
  {
    assert [c][1..] == [];
  }

  // ---------------------------------------------------------------- issuing

  function Issue0(): Issue { Issue(NoEntry(), Board(map[], map[]), [], [], [], 0) }

  function Issue1(): Issue { Issue(Waiting(0, 54), Board(map[], map[5 := 1]), [FIRST], [NO_WIRE], [], 0) }

  lemma RaiseOne(p: Pending, r: Reg)
    requires r != ZERO
    ensures Raise(p, [r]) == p[r := Count(p, r) + 1] && Raise(p, []) == p
    ensures Lower(p, []) == p && Lower(p, [r]) == (if Count(p, r) <= 1 then p - {r} else p[r := Count(p, r) - 1])
  {
    assert [r][1..] == [];
    assert Raise(p, [r]) == Raise(p[r := Count(p, r) + 1], [r][1..]);
  }

  lemma OneHazard(b: Board, rs: seq<Reg>, rd: Reg)
    requires |rs| <= 1 && rd != ZERO && Count(b.readers, rd) == 0 && Count(b.writers, rd) == 0
    requires rs != [] ==> rs[0] != ZERO && Count(b.writers, rs[0]) > 0
    ensures ReadHazards(b, rs) + WriteHazards(b, [rd]) == if rs == [] then [] else [Hazard(ReadAfterWrite, rs[0])]
  {
    assert [rd][1..] == [];
    if rs != [] { assert rs[1..] == []; }
  }

  lemma IssueFirst()
    ensures Handle(Mvp61, 53, 0, [], [], Issue0(), Candidate(FIRST, NO_WIRE))
         == Handled(Issue1(), Candidate(FIRST, NO_WIRE), true, false)
  {
    var i := FIRST.instr;
    OneHazard(Issue0().board, [], 5);
    RaiseOne(map[], 5);
    AddOne<nat>(0, 53);
    hide ReadHazards, WriteHazards, Raise, Buffered.Add, Clashes;
    assert !Clashes([], i) by { NothingClashes(i); }
    assert AddPending(Issue0().board, i) == Issue1().board;
  }

  lemma FirstCycle()
    ensures Cycle(Mvp61, 53, Unit(WaitingTwo(SECOND, THIRD, 54).(queue := [FIRST]), [], [], Issue0()))
         == Unit(WaitingTwo(SECOND, THIRD, 54), [], [0], Issue1())
  {
    hide Handle;
    IssueFirst();
    assert [FIRST][1..] == [];
    assert FromBus(Mvp61, 53, 0, [], [], Issue1(), [], [], 1) == (Issue1(), [], []);
    assert FromBus(Mvp61, 53, 0, [], [], Issue0(), [], [FIRST], 2) == (Issue1(), [], []);
    assert From(0, 1) == [0];
  }

  // ---------------------------------------------------------------- the second instruction receives from the first

  function Issue1Ready(): Issue { Issue1().(bus := Ready(0)) }

  function Issue2(): Issue {
    Issue(Ready(0).(buffer := [Buffered.Timed(55, 1)]), Board(map[5 := 1], map[5 := 1, 6 := 1]), [FIRST, SECOND],
          [Wire(None, Some(0), 5), Wire(Some(0), None, 5)], [Channel(0, 5, None)], 0)
  }

  lemma ForwardSecond()
    ensures ShouldForward([0], Issue1Ready(), SECOND.instr) == Some((0, 5))
    ensures Hazards(Issue1Ready().board, SECOND.instr) != []
  {
    OneHazard(Issue1Ready().board, [5], 6);
    assert Control.Shared([5], [5]) == Some(5);
  }

  lemma LinkSecond()
    ensures Link(Issue1Ready(), Candidate(SECOND, NO_WIRE), 0, 5)
         == (Issue1Ready().(wires := [Wire(None, Some(0), 5)], channels := [Channel(0, 5, None)]),
             Candidate(SECOND, Wire(Some(0), None, 5)))
  {
    var s := Issue1Ready();
    assert s.channels + [Channel(0, 5, None)] == [Channel(0, 5, None)];
    assert s.wires[0 := Wire(None, Some(0), 5)] == [Wire(None, Some(0), 5)];
  }

  lemma IssueSecond()
    ensures Handle(Mvp61, 54, 1, [0], [], Issue1Ready(), Candidate(SECOND, NO_WIRE))
         == Handled(Issue2(), Candidate(SECOND, Wire(Some(0), None, 5)), true, true)
  {
    NothingClashes(SECOND.instr);
    ForwardSecond();
    LinkSecond();
    RaiseOne(map[], 5);
    RaiseOne(map[5 := 1], 6);
    hide Clashes, Hazards, ShouldForward, Link, Raise;
    var s1 := Issue1Ready().(wires := [Wire(None, Some(0), 5)], channels := [Channel(0, 5, None)]);
    assert AddPending(s1.board, SECOND.instr) == Issue2().board;
    assert Push(s1, Candidate(SECOND, Wire(Some(0), None, 5)), 54) == Issue2();
  }

  lemma SecondCycle()
    ensures Cycle(Mvp61, 54, Unit(Buffered.Bus([SECOND, THIRD], []), [], [0], Issue1Ready()))
            == Unit(Ready(THIRD), [], [1], Issue2())
  {
    hide Handle;
    IssueSecond();
    assert [SECOND, THIRD][1..] == [THIRD];
    assert FromBus(Mvp61, 54, 1, [0], [], Issue1Ready(), [], [SECOND, THIRD], 2) == (Issue2(), [], [THIRD]);
    assert From(1, 2) == [1];
  }

  // ---------------------------------------------------------------- and forwards to the third

  /** The first has run by now. */
  function Issue2Ready(): Issue { Issue2().(bus := Ready(1), channels := [Channel(0, 5, Some(1))]) }

  function Issue3(): Issue {
    Issue(Ready(1).(buffer := [Buffered.Timed(56, 2)]), Board(map[5 := 1, 6 := 1], map[5 := 1, 6 := 1, 7 := 1]),
          [FIRST, SECOND, THIRD],
          [Wire(None, Some(0), 5), Wire(Some(0), Some(1), 6), Wire(Some(1), None, 6)],
          [Channel(0, 5, Some(1)), Channel(1, 6, None)], 0)
  }

  lemma ForwardThird()
    ensures ShouldForward([1], Issue2Ready(), THIRD.instr) == Some((1, 6))
    ensures Hazards(Issue2Ready().board, THIRD.instr) != []
  {
    OneHazard(Issue2Ready().board, [6], 7);
    assert Control.Shared([6], [6]) == Some(6);
  }

  lemma LinkThird()
    ensures Link(Issue2Ready(), Candidate(THIRD, NO_WIRE), 1, 6)
         == (Issue2Ready().(wires := [Wire(None, Some(0), 5), Wire(Some(0), Some(1), 6)],
                            channels := [Channel(0, 5, Some(1)), Channel(1, 6, None)]),
             Candidate(THIRD, Wire(Some(1), None, 6)))
  {
    var s := Issue2Ready();
    assert s.channels + [Channel(1, 6, None)] == [Channel(0, 5, Some(1)), Channel(1, 6, None)];
    assert s.wires[1 := Wire(Some(0), Some(1), 6)] == [Wire(None, Some(0), 5), Wire(Some(0), Some(1), 6)];
  }

  lemma IssueThird()
    ensures Handle(Mvp61, 55, 2, [1], [], Issue2Ready(), Candidate(THIRD, NO_WIRE))
         == Handled(Issue3(), Candidate(THIRD, Wire(Some(1), None, 6)), true, true)
  {
    NothingClashes(THIRD.instr);
    ForwardThird();
    LinkThird();
    RaiseOne(map[5 := 1], 6);
    RaiseOne(map[5 := 1, 6 := 1], 7);
    hide Clashes, Hazards, ShouldForward, Link, Raise;
    var s1 := Issue2Ready().(wires := [Wire(None, Some(0), 5), Wire(Some(0), Some(1), 6)],
                             channels := [Channel(0, 5, Some(1)), Channel(1, 6, None)]);
    assert AddPending(s1.board, THIRD.instr) == Issue3().board;
    assert Push(s1, Candidate(THIRD, Wire(Some(1), None, 6)), 55) == Issue3();
  }

  lemma ThirdCycle()
    ensures Cycle(Mvp61, 55, Unit(Ready(THIRD), [], [1], Issue2Ready())) == Unit(NoEntry(), [], [2], Issue3())
  {
    hide Handle;
    IssueThird();
    assert [THIRD][1..] == [];
    assert FromBus(Mvp61, 55, 2, [1], [], Issue2Ready(), [], [THIRD], 2) == (Issue3(), [], []);
    assert From(2, 3) == [2];
  }

  // ---------------------------------------------------------------- the cores after each cycle

  function Result(rd: Reg, v: Word): Execution {
    NO_EFFECT.(registerChange := true, register := rd, registerValue := v)
  }

  function Nothing(): Core { Empty(map[], [], []) }

  function Core1(): Core { Core(Unit(Waiting(FIRST, 53), [], [], Issue0()), Idle, Idle, NoEntry(), map[], [], []) }

  function Core2(): Core {
    Core(Unit(WaitingTwo(SECOND, THIRD, 54), [], [0], Issue1()), Idle, Idle, NoEntry(), map[], [], [])
  }

  /** The first instruction has handed its result over, and waits to retire. */
  function Core3(): Core {
    var issue := Issue2().(bus := Waiting(1, 55), channels := [Channel(0, 5, Some(1))]);
    Core(Unit(Ready(THIRD), [], [1], issue), Idle, Idle, Waiting(Done(0, FIRST.instr, Result(5, 1)), 55), map[], [], [])
  }

  /** The second has added 1 to the old value of register 5, which is 0. */
  function Core4(): Core {
    var issue := Issue3().(bus := Waiting(2, 56), channels := [Channel(0, 5, None), Channel(1, 6, Some(1))],
                           board := Board(map[5 := 1, 6 := 1], map[6 := 1, 7 := 1]));
    Core(Unit(NoEntry(), [], [2], issue), Idle, Idle, Waiting(Done(1, SECOND.instr, Result(6, 1)), 56), map[5 := 1], [],
         [])
  }

  lemma IdleUnits(cycle: int, s: Core)
    requires s.eu0.Idle? && s.eu1.Idle? && s.unit.issue.bus.queue == []
    ensures ExecuteStage(map[], cycle, s) == Some(s)
  {
  }

  lemma NothingToIssue(cycle: int, inBus: Buffered.Bus<RunnerPc>)
    requires inBus.queue == []
    ensures Cycle(Mvp61, cycle, Unit(inBus, [], [], Issue0())) == Unit(inBus, [], [], Issue0())
  {
    assert From(0, 0) == [];
  }

  /** A cycle in which nothing executes or retires. */
  lemma QuietCycle(cycle: int, s: Core, fed: seq<RunnerPc>, t: Core)
    requires Valid(s.unit) && IssueStage(Mvp61, cycle, s, fed) == t
    requires t.eu0.Idle? && t.eu1.Idle? && t.unit.issue.bus.queue == [] && t.out.queue == []
    ensures CoreCycle(Mvp61, map[], cycle, s, fed) == Some(t)
  {
    hide IssueStage;
    IdleUnits(cycle, t);
    hide ExecuteStage;
  }

  lemma Arrive1()
    ensures Arrived(Nothing().unit, 52, [FIRST]) == Unit(Waiting(FIRST, 53), [], [], Issue0())
  {
    AddOne(FIRST, 52);
    ConnectNothing<RunnerPc>(52);
    ConnectNothing<nat>(52);
    hide Buffered.AddAll, Buffered.Bus.Connect;
  }

  lemma Stage1()
    ensures Valid(Nothing().unit)
    ensures IssueStage(Mvp61, 52, Nothing(), [FIRST]) == Core1()
  {
    hide Cycle, Arrived, Buffered.Bus.Connect;
    Arrive1();
    ConnectNothing<Done>(52);
    NothingToIssue(52, Waiting(FIRST, 53));
  }

  lemma Cycle1()
    ensures CoreCycle(Mvp61, map[], 52, Nothing(), [FIRST]) == Some(Core1())
  {
    hide IssueStage, Empty, CoreCycle, Issue0;
    Stage1();
    Core1IsQuiet();
    QuietCycle(52, Nothing(), [FIRST], Core1());
  }

  lemma Core1IsQuiet()
    ensures var t := Core1(); t.eu0.Idle? && t.eu1.Idle? && t.unit.issue.bus.queue == [] && t.out.queue == []
  {
  }

  lemma Cycle2()
    ensures CoreCycle(Mvp61, map[], 53, Core1(), [SECOND, THIRD]) == Some(Core2())
  {
    ConnectWaiting(FIRST, 53);
    ConnectNothing<nat>(53);
    ConnectNothing<Done>(53);
    DeliverTwo(FIRST, SECOND, THIRD, 53);
    FirstCycle();
    hide Cycle, Buffered.Add, Buffered.AddAll, Buffered.Bus.Connect;
    QuietCycle(53, Core1(), [SECOND, THIRD], Core2());
  }

  // ---------------------------------------------------------------- the first runs

  function Shared3(): OutOfOrder.Shared { OutOfOrder.Shared(Issue2().bus, NoEntry(), Issue2().channels, [], []) }

  function Shared3Ran(): OutOfOrder.Shared {
    OutOfOrder.Shared(Waiting(1, 55), Waiting(Done(0, FIRST.instr, Result(5, 1)), 55), [Channel(0, 5, Some(1))], [], [])
  }

  lemma FirstRuns()
    ensures EuCycle(map[], 54, Issue2().issued, Issue2().wires, map[], Idle, Shared3()) == Some((Idle, Shared3Ran()))
  {
    var s := Shared3();
    assert s.bus.queue[1..] == [];
    assert Run(FIRST.instr, NO_FORWARD, map[], map[], 0, []) == Ok(Result(5, 1));
    AddOne(Done(0, FIRST.instr, Result(5, 1)), 54);
    assert s.channels[0 := Channel(0, 5, Some(1))] == [Channel(0, 5, Some(1))];
    assert Fill(s.channels, 0, 1) == Some([Channel(0, 5, Some(1))]);
    hide Run, Fill, Buffered.Add;
  }

  lemma Cycle3()
    ensures CoreCycle(Mvp61, map[], 54, Core2(), []) == Some(Core3())
  {
    ConnectTwo(SECOND, THIRD, 54);
    ConnectWaiting<nat>(0, 54);
    ConnectNothing<Done>(54);
    DeliverMore(Buffered.Bus([SECOND, THIRD], []), THIRD, 54);
    SecondCycle();
    FirstRuns();
    hide Cycle, Buffered.Add, Buffered.AddAll, EuCycle;
    assert EuCycle(map[], 54, Issue2().issued, Issue2().wires, map[], Idle, Shared3Ran())
           == Some((Idle, Shared3Ran())) by {
      IdleEu(54, Issue2(), map[], Shared3Ran());
    }
  }

  lemma IdleEu(cycle: int, issue: Issue, regs: Regs, s: OutOfOrder.Shared)
    requires s.bus.queue == []
    ensures EuCycle(map[], cycle, issue.issued, issue.wires, regs, Idle, s) == Some((Idle, s))
  {
  }

  // ---------------------------------------------------------------- the second reads the old value

  function Shared4(): OutOfOrder.Shared {
    OutOfOrder.Shared(Issue3().bus, Ready(Done(0, FIRST.instr, Result(5, 1))), Issue3().channels, [], [])
  }

  function Shared4Ran(): OutOfOrder.Shared {
    OutOfOrder.Shared(Waiting(2, 56),
                      Ready(Done(0, FIRST.instr,
                                 Result(5, 1))).(buffer := [Buffered.Timed(56, Done(1, SECOND.instr, Result(6, 1)))]),
                      [Channel(0, 5, None), Channel(1, 6, Some(1))], [], [])
  }

  /** The value 1 arrives, but under the name of the register that the instruction itself forwards. */
  lemma SecondReadsOld()
    ensures Run(SECOND.instr, Forward(6, 1), map[], map[], 4, []) == Ok(Result(6, 1))
  {
  }

  lemma SecondRuns()
    ensures EuCycle(map[], 55, Issue3().issued, Issue3().wires, map[], Idle, Shared4()) == Some((Idle, Shared4Ran()))
  {
    var s := Shared4();
    assert s.bus.queue[1..] == [];
    SecondReadsOld();
    DeliverOne(Done(0, FIRST.instr, Result(5, 1)), Done(1, SECOND.instr, Result(6, 1)), 55);
    var channels := [Channel(0, 5, None), Channel(1, 6, None)];
    assert s.channels[0 := Channel(0, 5, None)] == channels;
    assert Fill(channels, 1, 1) == Some([Channel(0, 5, None), Channel(1, 6, Some(1))]) by {
      assert channels[1 := Channel(1, 6, Some(1))] == [Channel(0, 5, None), Channel(1, 6, Some(1))];
    }
    hide Run, Fill;
  }

  lemma RetireFirst()
    ensures WuCycle(map[], Issue3().board, Shared4Ran().out)
         == (map[5 := 1], Board(map[5 := 1, 6 := 1], map[6 := 1, 7 := 1]),
             Waiting(Done(1, SECOND.instr, Result(6, 1)), 56))
  {
    RaiseOne(Issue3().board.writers, 5);
    RaiseOne(Issue3().board.readers, 5);
    assert Issue3().board.writers - {5} == map[6 := 1, 7 := 1];
    var empty: Regs := map[];
    assert empty[5 := 1] == map[5 := 1];
    assert Shared4Ran().out.queue[1..] == [];
    hide Lower;
  }

  function Issued4(): Core {
    Core(Unit(NoEntry(), [], [2], Issue3()), Idle, Idle, Ready(Done(0, FIRST.instr, Result(5, 1))), map[], [], [])
  }

  lemma Arrive4()
    ensures Arrived(Core3().unit, 55, []) == Unit(Ready(THIRD), [], [1], Issue2Ready())
    ensures Core3().out.Connect(BUS_LENGTH, 55) == Issued4().out
  {
    hide Issue2, Buffered.Bus.Connect;
    ConnectReady(THIRD, 55);
    ConnectWaiting<nat>(1, 55);
    ConnectWaiting(Done(0, FIRST.instr, Result(5, 1)), 55);
  }

  lemma Stage4()
    ensures Valid(Core3().unit) && IssueStage(Mvp61, 55, Core3(), []) == Issued4()
  {
    Arrive4();
    ThirdCycle();
    AllValid();
    hide Cycle, Arrived, Issue2, Issue2Ready, Issue3, Buffered.Bus.Connect;
  }

  lemma Execute4()
    ensures ExecuteStage(map[], 55, Issued4()) == Some(WithShared(Issued4(), Shared4Ran()))
  {
    SecondRuns();
    IdleEu(55, Issue3(), map[], Shared4Ran());
    hide EuCycle;
  }

  lemma Write4()
    ensures WriteOnce(WriteOnce(WithShared(Issued4(), Shared4Ran()))) == Core4()
  {
    RetireFirst();
  }

  lemma Cycle4()
    ensures CoreCycle(Mvp61, map[], 55, Core3(), []) == Some(Core4())
  {
    Stage4();
    Execute4();
    Write4();
    hide IssueStage, ExecuteStage, WriteOnce, Issued4, Shared4Ran, Core3, Core4, WithShared;
  }

  // ---------------------------------------------------------------- what should have come out

  function World(): InFlight.World {
    InFlight.World(map[], [], [FIRST, SECOND, THIRD],
                   [map[], map[5 := 1], map[5 := 1, 6 := 2], map[5 := 1, 6 := 2, 7 := 3]])
  }

  lemma StepOf(x: RunnerPc, rd: Reg, before: Regs, v: Word)
    requires rd != ZERO
    requires x.instr == Li(rd, v)
             || (x.instr.AluRI? && x.instr.op == Add && x.instr.rd == rd
                 && Wrap(Read(before, x.instr.rs) + x.instr.imm) == v)
    requires x.instr.AluRI? ==> x.instr.rs != ZERO
    ensures InFlight.Outcome(map[], [], before, x) == Some(Result(rd, v))
    ensures Sequential.Written(Sequential.Plain, before, x.instr, Result(rd, v)) == before[rd := v]
  {
    assert Sequential.BytesAt([], []) == [];
  }

  lemma WorldIsSequential()
    ensures InFlight.Sequentially(World())
    ensures InFlight.ExeOf(World(), 1) == Result(6, 2)
  {
    var w := World();
    StepOf(FIRST, 5, w.states[0], 1);
    StepOf(SECOND, 6, w.states[1], 2);
    StepOf(THIRD, 7, w.states[2], 3);
    assert w.states[0][5 := 1] == w.states[1] && w.states[1][6 := 2] == w.states[2]
           && w.states[2][7 := 3] == w.states[3];
    hide InFlight.Outcome, Sequential.Written;
    assert InFlight.Follows(w, 0) && InFlight.Follows(w, 1) && InFlight.Follows(w, 2);
  }

  // ---------------------------------------------------------------- the whole run

  /** What the fetch unit makes the decode unit deliver: it misses the L1I and waits for 51 cycles, hands over the first
      instruction alone, and the other two together, two a cycle. */
  function Fetched(): seq<seq<RunnerPc>> { Idling(51) + [[FIRST], [SECOND, THIRD], [], []] }

  function PowerUp(): Beginning { Beginning(Nothing(), 0) }

  lemma NothingArrives(cycle: int)
    ensures Arrived(Nothing().unit, cycle, []) == Unit(NoEntry(), [], [], Issue0())
  {
    ConnectNothing<RunnerPc>(cycle);
    ConnectNothing<nat>(cycle);
    hide Buffered.Bus.Connect;
  }

  lemma NothingIssues(cycle: int)
    ensures Valid(Nothing().unit) && IssueStage(Mvp61, cycle, Nothing(), []) == Nothing()
  {
    hide Cycle, Arrived, Buffered.Bus.Connect;
    NothingArrives(cycle);
    ConnectNothing<Done>(cycle);
    NothingToIssue(cycle, NoEntry());
  }

  lemma NothingHappens(cycle: int)
    ensures Valid(Nothing().unit) && CoreCycle(Mvp61, map[], cycle, Nothing(), []) == Some(Nothing())
  {
    NothingIssues(cycle);
    hide IssueStage, CoreCycle, Issue0;
    QuietCycle(cycle, Nothing(), [], Nothing());
  }

  lemma {:induction false} IdlingDoesNothing(k: nat)
    ensures CoreAfter(Mvp61, map[], PowerUp(), Idling(k)) == Some(Nothing())
  {
    hide CoreCycle, Nothing, Idling;
    if k == 0 {
      assert Idling(0) == [];
    } else {
      IdlingDoesNothing(k - 1);
      NothingHappens(k);
      hide CoreAfter;
      OneMore(Idling(k - 1), Nothing(), [], Nothing());
      assert Idling(k - 1) + [[]] == Idling(k);
    }
  }

  lemma OneMore(feeds: seq<seq<RunnerPc>>, s: Core, fed: seq<RunnerPc>, t: Core)
    requires Valid(s.unit) && CoreCycle(Mvp61, map[], |feeds| + 1, s, fed) == Some(t)
    ensures CoreAfter(Mvp61, map[], PowerUp(), feeds) == Some(s) ==>
              CoreAfter(Mvp61, map[], PowerUp(), feeds + [fed]) == Some(t)
  {
    hide CoreCycle;
    assert (feeds + [fed])[..|feeds|] == feeds;
  }

  lemma AllCycles()
    ensures CoreAfter(Mvp61, map[], PowerUp(), Fetched()) == Some(Core4())
  {
    hide CoreCycle, CoreAfter, Valid, PowerUp, Nothing, Core1, Core2, Core3, Core4, Idling;
    var idle := Idling(51);
    IdlingDoesNothing(51);
    AllValid();
    Cycle1();
    OneMore(idle, Nothing(), [FIRST], Core1());
    Cycle2();
    OneMore(idle + [[FIRST]], Core1(), [SECOND, THIRD], Core2());
    Cycle3();
    OneMore(idle + [[FIRST]] + [[SECOND, THIRD]], Core2(), [], Core3());
    Cycle4();
    OneMore(idle + [[FIRST]] + [[SECOND, THIRD]] + [[]], Core3(), [], Core4());
    assert idle + [[FIRST]] + [[SECOND, THIRD]] + [[]] + [[]] == Fetched();
  }

  lemma AllValid()
    ensures Valid(Nothing().unit) && Valid(Core1().unit) && Valid(Core2().unit) && Valid(Core3().unit)
  {
  }

  /** After cycle 55 the second instruction is about to write 1 where program order gives 2: made to forward its own
      result, it was handed the first one's under the wrong name. */
  lemma ChainGoesWrong()
    ensures InFlight.Sequentially(World()) && Delivered(Fetched()) == World().prog
    ensures Begins(PowerUp(), World().states[0], World().memory)
    ensures var s := CoreAfter(Mvp61, World().labels, PowerUp(), Fetched());
            s == Some(Core4()) && !MeansSequential(World(), s.value)
  {
    WorldIsSequential();
    AllCycles();
    FetchedIsProgram();
    hide CoreAfter, InFlight.ExeOf, InFlight.Sequentially, Fetched, Delivered;
    assert Coherence.Coherent([], [], []);
    var d := Done(1, SECOND.instr, Result(6, 1));
    assert Core4().out.Contents()[0] == d;
    assert d in Core4().out.Contents();
  }

  lemma FetchedIsProgram()
    ensures Delivered(Fetched()) == [FIRST, SECOND, THIRD]
  {
    var idle := Idling(51);
    assert Delivered(idle) == [] by { InFlightChains.IdleDelivers([], 51); assert [] + idle == idle; }
    DeliverNext(idle, [FIRST]);
    DeliverNext(idle + [[FIRST]], [SECOND, THIRD]);
    DeliverNext(idle + [[FIRST]] + [[SECOND, THIRD]], []);
    DeliverNext(idle + [[FIRST]] + [[SECOND, THIRD]] + [[]], []);
    hide Delivered;
    assert idle + [[FIRST]] + [[SECOND, THIRD]] + [[]] + [[]] == Fetched();
  }

  lemma DeliverNext(feeds: seq<seq<RunnerPc>>, fed: seq<RunnerPc>)
    ensures Delivered(feeds + [fed]) == Delivered(feeds) + fed
  {
    assert (feeds + [fed])[..|feeds|] == feeds;
  }
}
