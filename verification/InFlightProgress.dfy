/** The out-of-order cores finish: between two flushes everything that was delivered retires, within a bounded time. */
module InFlightProgress {
  import opened Words
  import opened Isa
  import opened Pipeline
  import opened Scoreboard
  import opened Control
  import opened OutOfOrder
  import opened InFlight
  import opened InFlightControl
  import opened InFlightRun
  import opened InFlightAlive
  import opened InFlightTheorems
  import Sequential
  import Coherence
  import opened Mmu
  import Buffered = BufferedBus

  // ---------------------------------------------------------------- the work left

  function EuWork(eu: Eu): nat {
    match eu
    case Idle => 0
    case Preparing(_, _, _) => 53
    case Loading(_, _, _, _, remaining, _, _) => if remaining > 0 then 3 + remaining else 3
  }

  function BusWork(bus: Buffered.Bus<nat>): nat { 55 * |bus.buffer| + 54 * |bus.queue| }

  function OutWork(out: Buffered.Bus<Done>): nat { 2 * |out.buffer| + |out.queue| }

  function SharedWork(s: Shared): nat { BusWork(s.bus) + OutWork(s.out) }

  function UnitWork(u: Unit): nat {
    58 * |u.inBus.buffer| + 57 * |u.inBus.queue| + 56 * |u.pendings| + BusWork(u.issue.bus)
  }

  /** A bound on the cycles until everything has retired: each instruction adds at most 58. */
  function Work(s: Core): nat { UnitWork(s.unit) + EuWork(s.eu0) + EuWork(s.eu1) + OutWork(s.out) }

  lemma NoWorkIsQuiet(s: Core)
    requires Work(s) == 0
    ensures s.unit.inBus.IsEmpty() && s.unit.pendings == [] && Flight(s.unit.issue.bus, s.eu0, s.eu1, s.out) == []
    ensures Stream(s.unit) == s.unit.issue.issued
  {
  }

  // ---------------------------------------------------------------- executing

  /** Why a unit may do nothing in a cycle. */
  predicate Stuck(s: Shared, eu: Eu) {
    || (eu.Idle? && s.bus.queue == [])
    || (eu.Preparing?
        && (!s.out.CanAdd(BUS_LENGTH)
            || (eu.wire.receiver.Some?
                && (eu.wire.receiver.value >= |s.channels| || s.channels[eu.wire.receiver.value].value.None?))))
  }

  /** A step that gets something done. */
  ghost predicate Lowers(cycle: int, s: Shared, eu: Eu, r: Option<(Eu, Shared)>) {
    r.Some? ==> SharedWork(r.value.1) + EuWork(r.value.0) < SharedWork(s) + EuWork(eu) && OutGrows(cycle, s, r.value.1)
  }

  ghost predicate OutGrows(cycle: int, s: Shared, s1: Shared) {
    s1.out.queue == s.out.queue && (Timely(s.out, cycle + 1) ==> Timely(s1.out, cycle + 1))
  }

  lemma FinishLowers(labels: map<string, Word>, cycle: int, regs: Regs, id: nat, runner: RunnerPc, wire: Wire,
                     f: Forward, bytes: seq<Byte>, s: Shared, eu: Eu)
    requires !eu.Idle?
    ensures Lowers(cycle, s, eu, Finish(labels, cycle, regs, id, runner, wire, f, bytes, s))
  {
    hide Run;
  }

  lemma StartLowers(labels: map<string, Word>, cycle: int, regs: Regs, id: nat, runner: RunnerPc, wire: Wire,
                    f: Forward, s: Shared, eu: Eu)
    requires eu.Preparing?
    ensures Lowers(cycle, s, eu, Start(labels, cycle, regs, id, runner, wire, f, s))
  {
    hide MemoryRead, Finish;
    FinishLowers(labels, cycle, regs, id, runner, wire, f, [], s, eu);
  }

  lemma PrepareLowers(labels: map<string, Word>, cycle: int, regs: Regs, id: nat, runner: RunnerPc, wire: Wire,
                      s: Shared)
    ensures var eu, r := Preparing(id, runner, wire), PrepareRun(labels, cycle, regs, id, runner, wire, s);
            Lowers(cycle, s, eu, r) || (r == Some((eu, s)) && Stuck(s, eu))
  {
    hide Start;
    StartLowers(labels, cycle, regs, id, runner, wire, NO_FORWARD, s, Preparing(id, runner, wire));
    if wire.receiver.Some? && wire.receiver.value < |s.channels| && s.channels[wire.receiver.value].value.Some? {
      var k := wire.receiver.value;
      var s1 := s.(channels := s.channels[k := s.channels[k].(value := None)]);
      var f := Forward(wire.register, s.channels[k].value.value);
      StartLowers(labels, cycle, regs, id, runner, wire, f, s1, Preparing(id, runner, wire));
    }
  }

  lemma EuLowers(labels: map<string, Word>, cycle: int, issued: seq<RunnerPc>, wires: seq<Wire>, regs: Regs, eu: Eu,
                 s: Shared)
    ensures var r := EuCycle(labels, cycle, issued, wires, regs, eu, s);
            Lowers(cycle, s, eu, r) || (r == Some((eu, s)) && Stuck(s, eu))
  {
    hide PrepareRun, Finish;
    match eu
    case Idle =>
      if s.bus.queue != [] && s.bus.queue[0] < |issued| && s.bus.queue[0] < |wires| {
        var id := s.bus.queue[0];
        PrepareLowers(labels, cycle, regs, id, issued[id], wires[id], s.(bus := s.bus.(queue := s.bus.queue[1..])));
      }
    case Preparing(id, runner, wire) => PrepareLowers(labels, cycle, regs, id, runner, wire, s);
    case Loading(id, runner, wire, forward, remaining, addrs, hit) =>
      if hit.Some? {
        FinishLowers(labels, cycle, regs, id, runner, wire, forward, hit.value, s, eu);
      } else if addrs != [] {
        var l := LoadMiss(s.lines, s.memory, addrs);
        if l.Some? {
          FinishLowers(labels, cycle, regs, id, runner, wire, forward, l.value.bytes,
                       s.(lines := l.value.lines, memory := l.value.memory), eu);
        }
      }
  }

  /** What makes a core go on, besides its invariant. `cycle` is the next one. */
  ghost predicate Going(s: Core, cycle: int) {
    && LivelyIssue(s.unit.issue, s.eu0, s.eu1, s.unit.pendings, cycle - 1)
    && Timely(s.unit.inBus, cycle) && Timely(s.out, cycle)
  }

  ghost predicate SameUnit(u: Unit, u1: Unit) {
    && u1.inBus == u.inBus && u1.pendings == u.pendings
    && u1.issue.issued == u.issue.issued && u1.issue.wires == u.issue.wires
  }

  lemma ExecuteGoes(labels: map<string, Word>, cycle: int, s: Core)
    requires Going(s, cycle + 1) && ExecuteStage(labels, cycle, s).Some?
    ensures var t := ExecuteStage(labels, cycle, s).value;
            && Going(t, cycle + 1) && SameUnit(s.unit, t.unit) && t.out.queue == s.out.queue
            && Work(t) <= Work(s)
            && (Work(t) == Work(s) ==> Stuck(SharedOf(s), s.eu0) && Stuck(SharedOf(s), s.eu1))
  {
    hide EuCycle, Lively, Timely, Stuck, Buffered.Values;
    var issue := s.unit.issue;
    var a := EuCycle(labels, cycle, issue.issued, issue.wires, s.regs, s.eu0, SharedOf(s)).value;
    EuLively(labels, cycle, issue.issued, issue.wires, s.regs, s.eu0, s.eu1, SharedOf(s), s.unit.pendings);
    EuLowers(labels, cycle, issue.issued, issue.wires, s.regs, s.eu0, SharedOf(s));
    LivelySwaps(issue.wires, a.1.channels, a.1.bus.Contents(), a.0, s.eu1, s.unit.pendings);
    var b := EuCycle(labels, cycle, issue.issued, issue.wires, s.regs, s.eu1, a.1).value;
    EuLively(labels, cycle, issue.issued, issue.wires, s.regs, s.eu1, a.0, a.1, s.unit.pendings);
    EuLowers(labels, cycle, issue.issued, issue.wires, s.regs, s.eu1, a.1);
    LivelySwaps(issue.wires, b.1.channels, b.1.bus.Contents(), b.0, a.0, s.unit.pendings);
    SameBuffer(issue.bus, b.1.bus, cycle + 1);
  }

  lemma SameBuffer<T>(bus: Buffered.Bus<T>, bus1: Buffered.Bus<T>, cycle: int)
    requires Timely(bus, cycle) && bus1.buffer == bus.buffer
    ensures Timely(bus1, cycle)
  {
  }

  lemma WriteGoes(s: Core, cycle: int)
    requires Going(s, cycle)
    ensures var t := WriteOnce(s);
            && Going(t, cycle) && SameUnit(s.unit, t.unit)
            && Work(t) == Work(s) - if s.out.queue == [] then 0 else 1
  {
    hide Lively, DeletePending, Buffered.Values;
  }

  // ---------------------------------------------------------------- nobody waits for ever

  /** The maker of a channel comes before the one who waits for it. */
  lemma MakerIsEarlier(w: World, s: Core, eu: Eu)
    requires Inv(w, s) && eu in [s.eu0, s.eu1] && eu.Preparing? && eu.wire.receiver.Some?
    ensures var k, channels := eu.wire.receiver.value, s.unit.issue.channels;
            k < |channels| && channels[k].maker < eu.id
  {
    hide IssueOk, KeptOk, CacheOk, DoneOk, Stream, Fresh, Ready, Sends;
    var issue := s.unit.issue;
    IssueOkSizes(w, s.regs, issue, Rest(s.eu0, s.eu1, s.out));
    assert EuOk(w, s.regs, issue.wires, issue.channels, eu);
  }

  /** With room for results, the earliest instruction in the execute units is never stuck. */
  lemma StuckIsIdle(w: World, s: Core)
    requires Inv(w, s) && s.out.buffer == []
    requires Lively(s.unit.issue.wires, s.unit.issue.channels, s.unit.issue.bus.Contents(), s.eu0, s.eu1,
                    s.unit.pendings)
    requires Stuck(SharedOf(s), s.eu0) && Stuck(SharedOf(s), s.eu1)
    ensures s.eu0 == Idle && s.eu1 == Idle && s.unit.issue.bus.queue == []
  {
    if s.eu0.Preparing? { MakerIsEarlier(w, s, s.eu0); }
    if s.eu1.Preparing? { MakerIsEarlier(w, s, s.eu1); }
    hide Inv, Sole, Channelled, Buffered.Values, Buffered.Bus.Contents;
  }

  // ---------------------------------------------------------------- issuing

  lemma {:induction false} NothingPending(b: Board, issued: seq<RunnerPc>, i: Instr)
    requires Exact(b, issued, [])
    ensures Hazards(b, i) == []
  {
    if Hazards(b, i) != [] {
      var h := Hazards(b, i)[0];
      assert h in Hazards(b, i);
      HazardsAreExact(b, i, h);
      PendingMeansInFlight(b, issued, [], h.register);
    }
  }

  /** With nothing in flight the next instruction is issued. */
  lemma QuietIssues(v: Version, cycle: int, u: Unit)
    requires Tidy(u) && Exact(u.issue.board, u.issue.issued, []) && u.issue.bus.IsEmpty()
    requires u.pendings != [] || u.inBus.queue != []
    ensures |Cycle(v, cycle, u).issue.issued| > |u.issue.issued|
  {
    hide Handle, FromBus, Pushes, Runners, Exact;
    var first := |u.issue.issued|;
    var c := if u.pendings != [] then u.pendings[0] else Candidate(u.inBus.queue[0], NO_WIRE);
    var h := Handle(v, cycle, first, u.previous, [], u.issue, c);
    NothingPending(u.issue.board, u.issue.issued, c.runner.instr);
    QuietPushes(v, cycle, u, c);
    if u.pendings != [] {
      assert u.pendings == [c] && u.pendings[1..] == [];
      var p := FromPendings(v, cycle, first, u.previous, [], u.issue, u.pendings);
      assert FromPendings(v, cycle, first, u.previous, [], h.issue, []) == Pass(h.issue, [], [], false);
      assert p.issue == h.issue && p.stop == h.stop && p.kept == [] && p.skipped == [];
      var remaining := BUS_LENGTH - (|p.issue.issued| - first);
      if !p.stop { BusIssuesMore(v, cycle, first, u.previous, p.issue, u.inBus.queue, remaining); }
    } else {
      FromBusUnfolds(v, cycle, first, u.previous, u.issue, u.inBus.queue, BUS_LENGTH, h);
      if !h.stop { BusIssuesMore(v, cycle, first, u.previous, h.issue, u.inBus.queue[1..], BUS_LENGTH - 1); }
    }
  }

  lemma QuietPushes(v: Version, cycle: int, u: Unit, c: Candidate)
    requires Tidy(u) && u.issue.bus.IsEmpty() && Hazards(u.issue.board, c.runner.instr) == []
    ensures var h := Handle(v, cycle, |u.issue.issued|, u.previous, [], u.issue, c);
            h.push && |h.issue.issued| == |u.issue.issued| + 1 && |h.issue.bus.buffer| == 1
  {
    hide Hazards, AddPending;
    NothingClashes(c.runner.instr);
  }

  lemma BusIssuesMore(v: Version, cycle: int, first: nat, previous: seq<nat>, s: Issue, queue: seq<RunnerPc>,
                      remaining: int)
    requires Sized(s, previous) && first <= |s.issued| && |s.bus.buffer| == 1 && remaining == BUS_LENGTH - 1
    ensures |FromBus(v, cycle, first, previous, [], s, [], queue, remaining).0.issued| >= |s.issued|
  {
    FromBusIsInOrder(v, cycle, first, previous, s, queue, remaining);
    hide FromBus;
  }

  lemma ArrivedGoes(s: Core, cycle: int, fed: seq<RunnerPc>)
    requires Going(s, cycle)
    ensures var u := Arrived(s.unit, cycle, fed);
            && LivelyIssue(u.issue, s.eu0, s.eu1, u.pendings, cycle) && Timely(u.inBus, cycle + 1)
            && UnitWork(u) <= UnitWork(s.unit) + 58 * |fed|
            && (u.issue.bus.queue == [] ==> u.issue.bus.buffer == [])
            && (u.inBus.queue == [] && fed == [] ==> u.inBus.buffer == [])
  {
    hide Lively, Buffered.AddAll, Buffered.Moved, Buffered.Values;
    ConnectTimely(s.unit.inBus, cycle);
    ConnectTimely(s.unit.issue.bus, cycle);
    Buffered.ConnectContents(s.unit.issue.bus, BUS_LENGTH, cycle);
    AddAllTimely(s.unit.inBus.Connect(BUS_LENGTH, cycle), fed, cycle);
  }

  /** What an issue stage leaves to do, and that it issues when nothing is in flight. */
  lemma IssueGoes(v: Version, cycle: int, s: Core, fed: seq<RunnerPc>)
    requires Going(s, cycle) && Tidy(s.unit)
    requires Fresh(s.unit.previous, Buffered.Values(s.unit.issue.bus.buffer), s.unit.issue.wires)
    ensures var t, u := IssueStage(v, cycle, s, fed), Arrived(s.unit, cycle, fed);
            && Going(t, cycle + 1)
            && |u.issue.issued| <= |t.unit.issue.issued|
            && Work(t) + |t.unit.issue.issued| <= Work(s) + 58 * |fed| + |u.issue.issued|
            && (t.out.queue == [] ==> t.out.buffer == [])
            && t.unit.issue.bus.queue == u.issue.bus.queue
            && |t.unit.issue.bus.buffer| == |u.issue.bus.buffer| + |t.unit.issue.issued| - |u.issue.issued|
            && (Work(t) == Work(s) && fed == [] ==> UnitWork(u) == UnitWork(s.unit))
  {
    hide Lively, Buffered.Values, Cycle, Fresh, InOrder, UnitWork, Stream, Buffered.AddAll, Buffered.Moved;
    var u := Arrived(s.unit, cycle, fed);
    ArrivedGoes(s, cycle, fed);
    ConnectTimely(s.out, cycle);
    ArrivedTidy(s.unit, cycle, fed);
    CycleLively(v, cycle, u, s.eu0, s.eu1);
    CycleIsInOrder(v, cycle, u);
    CycleWork(u, Cycle(v, cycle, u));
    TimelyLater(s.out.Connect(BUS_LENGTH, cycle), cycle);
    SameBuffer(u.inBus, Cycle(v, cycle, u).inBus, cycle + 1);
  }

  lemma ArrivedTidy(u: Unit, cycle: int, fed: seq<RunnerPc>)
    requires Tidy(u) && Fresh(u.previous, Buffered.Values(u.issue.bus.buffer), u.issue.wires)
    ensures var t := Arrived(u, cycle, fed); Tidy(t) && Fresh(t.previous, t.issue.bus.Contents(), t.issue.wires)
  {
    ConnectedStream(u, cycle, fed);
    FreshIsOnBus(u.previous, u.issue.bus, u.issue.wires);
    hide Stream, Fresh, Buffered.AddAll, Buffered.Values;
  }

  lemma TimelyLater<T>(bus: Buffered.Bus<T>, cycle: int)
    requires Timely(bus, cycle)
    ensures Timely(bus, cycle + 1)
  {
  }

  lemma CycleWork(u: Unit, t: Unit)
    requires InOrder(u, t) && t.inBus.buffer == u.inBus.buffer && |t.inBus.queue| <= |u.inBus.queue|
    ensures |u.issue.issued| <= |t.issue.issued|
    ensures UnitWork(t) + |t.issue.issued| <= UnitWork(u) + |u.issue.issued|
    ensures t.issue.bus.queue == u.issue.bus.queue
    ensures |t.issue.bus.buffer| == |u.issue.bus.buffer| + |t.issue.issued| - |u.issue.issued|
  {
    assert |Stream(t)| == |Stream(u)|;
  }

  // ---------------------------------------------------------------- a cycle

  lemma InvParts(w: World, s: Core)
    requires Inv(w, s)
    ensures Tidy(s.unit) && Fresh(s.unit.previous, Buffered.Values(s.unit.issue.bus.buffer), s.unit.issue.wires)
    ensures Exact(s.unit.issue.board, s.unit.issue.issued, s.unit.issue.bus.Contents() + Rest(s.eu0, s.eu1, s.out))
  {
    hide Tidy, Fresh, Exact, Rest, Buffered.Values, UnitsOk, KeptOk, CacheOk, Stream, BusOk, Ordered, ChannelsCarry;
  }

  lemma ConnectedEmpty<T>(bus: Buffered.Bus<T>, cycle: int)
    requires Timely(bus, cycle) && bus.Connect(BUS_LENGTH, cycle).queue == []
    ensures bus.IsEmpty() && bus.Connect(BUS_LENGTH, cycle).IsEmpty()
  {
    ConnectTimely(bus, cycle);
  }

  /** If nothing moves there is nothing left. */
  lemma UnmovedIsQuiet(w: World, v: Version, cycle: int, s: Core)
    requires Inv(w, s) && Going(s, cycle) && s.eu0 == Idle && s.eu1 == Idle && Valid(s.unit)
    requires var u := Arrived(s.unit, cycle, []);
             && UnitWork(u) == UnitWork(s.unit) && u.issue.bus.queue == []
             && |IssueStage(v, cycle, s, []).unit.issue.issued| == |u.issue.issued|
    requires s.out.Connect(BUS_LENGTH, cycle).queue == []
    ensures Work(s) == 0
  {
    hide Inv, Exact, Lively, Fresh, Cycle, Timely, Buffered.Bus.Connect, Buffered.AddAll, Buffered.Values;
    var u := Arrived(s.unit, cycle, []);
    InvParts(w, s);
    ArrivedGoes(s, cycle, []);
    ArrivedTidy(s.unit, cycle, []);
    ConnectedEmpty(s.out, cycle);
    ConnectedEmpty(s.unit.issue.bus, cycle);
    NothingHeld(s);
    if u.pendings != [] || u.inBus.queue != [] { QuietIssues(v, cycle, u); }
  }

  lemma NothingHeld(s: Core)
    requires s.eu0 == Idle && s.eu1 == Idle && s.out.IsEmpty() && s.unit.issue.bus.IsEmpty()
    ensures s.unit.issue.bus.Contents() + Rest(s.eu0, s.eu1, s.out) == []
  {
  }

  /** In each cycle the work left grows by no more than what is delivered, and without deliveries it falls. */
  lemma CycleWorks(w: World, s: Core, v: Version, cycle: int, fed: seq<RunnerPc>)
    requires Inv(w, s) && Going(s, cycle) && Stream(s.unit) + fed <= w.prog
    requires Valid(s.unit) && Uncrossed(IssueStage(v, cycle, s, fed).unit.issue.wires)
    requires SafeStage(w, IssueStage(v, cycle, s, fed), cycle)
    ensures var r := CoreCycle(v, w.labels, cycle, s, fed);
            && r.Some? && Going(r.value, cycle + 1)
            && Work(r.value) <= Work(s) + 58 * |fed|
            && (fed == [] && Work(s) > 0 ==> Work(r.value) < Work(s))
  {
    hide Inv, Going, IssueStage, ExecuteStage, WriteOnce, Stream, Uncrossed, Arrived, UnitWork, BusWork, EuWork, Work,
         Stuck, SafeStage;
    InvParts(w, s);
    IssueStageKeeps(w, s, v, cycle, fed);
    IssueGoes(v, cycle, s, fed);
    var t := IssueStage(v, cycle, s, fed);
    ExecuteStageKeeps(w, t, cycle);
    ExecuteGoes(w.labels, cycle, t);
    var e := ExecuteStage(w.labels, cycle, t).value;
    WriteGoes(e, cycle + 1);
    WriteGoes(WriteOnce(e), cycle + 1);
    if fed == [] && Work(WriteOnce(WriteOnce(e))) == Work(s) {
      GoingIsLively(t, cycle + 1);
      StuckIsIdle(w, t);
      StageKeepsUnits(v, cycle, s);
      UnmovedIsQuiet(w, v, cycle, s);
    }
  }

  lemma GoingIsLively(s: Core, cycle: int)
    requires Going(s, cycle)
    ensures Lively(s.unit.issue.wires, s.unit.issue.channels, s.unit.issue.bus.Contents(), s.eu0, s.eu1,
                   s.unit.pendings)
  {
  }

  lemma StageKeepsUnits(v: Version, cycle: int, s: Core)
    requires Valid(s.unit)
    ensures var t := IssueStage(v, cycle, s, []);
            t.eu0 == s.eu0 && t.eu1 == s.eu1 && t.out == s.out.Connect(BUS_LENGTH, cycle)
  {
  }

  // ---------------------------------------------------------------- runs

  lemma BeginningGoes(from: Beginning, regs: Regs, memory: Memory)
    requires Begins(from, regs, memory)
    ensures Going(from.core, from.cycle + 1) && Work(from.core) == 0
  {
    hide Coherence.Coherent;
  }

  /** Every reachable state goes on, with no more work left than what was delivered can make. */
  lemma {:induction false} RunGoes(w: World, v: Version, from: Beginning, feeds: seq<seq<RunnerPc>>)
    requires Sequentially(w) && Begins(from, w.states[0], w.memory) && Delivered(feeds) <= w.prog
    requires NeverCrosses(v, w.labels, from, feeds) && SafeMisses(v, w, from, feeds)
    ensures var s := CoreAfter(v, w.labels, from, feeds);
            && s.Some? && Inv(w, s.value) && Stream(s.value.unit) == Delivered(feeds)
            && Going(s.value, from.cycle + |feeds| + 1) && Work(s.value) <= 58 * |Delivered(feeds)|
  {
    hide Sequentially, Inv, Stream, CoreCycle, IssueStage, Uncrossed, Begins, Going, Work, SafeStage;
    SequentiallySizes(w);
    RunKeeps(w, v, from, feeds);
    if feeds == [] {
      BeginningGoes(from, w.states[0], w.memory);
    } else {
      var last := |feeds| - 1;
      NeverCrossesPrefix(v, w.labels, from, feeds);
      SafeMissesPrefix(v, w, from, feeds);
      RunGoes(w, v, from, feeds[..last]);
      var s := CoreAfter(v, w.labels, from, feeds[..last]).value;
      InvIsValid(w, s);
      assert NoCrossing(v, w.labels, from, feeds, last) && SafeAt(v, w, from, feeds, last);
      CycleWorks(w, s, v, from.cycle + |feeds|, feeds[last]);
    }
  }

  /** Cycles in which the decode unit delivers nothing. */
  function Idling(k: nat): (feeds: seq<seq<RunnerPc>>)
    ensures |feeds| == k && forall j :: 0 <= j < k ==> feeds[j] == []
  {
    seq(k, j requires 0 <= j < k => [])
  }

  lemma OneMoreIdle(feeds: seq<seq<RunnerPc>>, k: nat)
    ensures (feeds + Idling(k + 1))[..|feeds| + k] == feeds + Idling(k)
    ensures (feeds + Idling(k + 1))[|feeds| + k] == []
  {
  }

  lemma IdleCycleWorks(w: World, v: Version, from: Beginning, feeds: seq<seq<RunnerPc>>)
    requires feeds != [] && feeds[|feeds| - 1] == []
    requires Sequentially(w) && Begins(from, w.states[0], w.memory) && Delivered(feeds[..|feeds| - 1]) <= w.prog
    requires NeverCrosses(v, w.labels, from, feeds) && SafeMisses(v, w, from, feeds)
    ensures Delivered(feeds) == Delivered(feeds[..|feeds| - 1])
    ensures var s := CoreAfter(v, w.labels, from, feeds[..|feeds| - 1]);
            var t := CoreAfter(v, w.labels, from, feeds);
            s.Some? && t.Some? && (Work(s.value) == 0 || Work(t.value) < Work(s.value))
            && Work(t.value) <= Work(s.value)
  {
    hide Sequentially, Inv, Stream, CoreCycle, IssueStage, Uncrossed, Begins, Going, Work, SafeStage;
    SequentiallySizes(w);
    var last := |feeds| - 1;
    NeverCrossesPrefix(v, w.labels, from, feeds);
    SafeMissesPrefix(v, w, from, feeds);
    RunGoes(w, v, from, feeds[..last]);
    var s := CoreAfter(v, w.labels, from, feeds[..last]).value;
    InvIsValid(w, s);
    assert NoCrossing(v, w.labels, from, feeds, last) && SafeAt(v, w, from, feeds, last);
    CycleWorks(w, s, v, from.cycle + |feeds|, []);
  }

  lemma {:induction false} RunDrains(w: World, v: Version, from: Beginning, feeds: seq<seq<RunnerPc>>, k: nat)
    requires Sequentially(w) && Begins(from, w.states[0], w.memory) && Delivered(feeds) <= w.prog
    requires NeverCrosses(v, w.labels, from, feeds + Idling(k)) && SafeMisses(v, w, from, feeds + Idling(k))
    ensures Delivered(feeds + Idling(k)) == Delivered(feeds)
    ensures var s := CoreAfter(v, w.labels, from, feeds + Idling(k));
            s.Some? && (Work(s.value) == 0 || Work(s.value) + k <= 58 * |Delivered(feeds)|)
  {
    hide Sequentially, CoreAfter, NeverCrosses, SafeMisses, Delivered, Begins, Work;
    SequentiallySizes(w);
    var all := feeds + Idling(k);
    if k == 0 {
      assert all == feeds;
      RunGoes(w, v, from, feeds);
    } else {
      OneMoreIdle(feeds, k - 1);
      NeverCrossesPrefix(v, w.labels, from, all);
      SafeMissesPrefix(v, w, from, all);
      RunDrains(w, v, from, feeds, k - 1);
      IdleCycleWorks(w, v, from, all);
    }
  }

  /** Everything has retired, and the registers are those of executing it one after the other. */
  ghost predicate AllRetired(w: World, s: Core, delivered: seq<RunnerPc>)
    requires |delivered| < |w.states|
  {
    && s.unit.issue.issued == delivered && s.unit.pendings == [] && s.unit.inBus.IsEmpty() && InFlightOf(s) == []
    && SameRegs(s.regs, w.states[|delivered|]) && MemoryMeans(w, s)
  }

  /** Neither core deadlocks: whatever was delivered and when, it has all retired at most 58 cycles an instruction after
      the last delivery, a forwarded value never fails to arrive, and the registers are right. */
  lemma EverythingRetires(w: World, v: Version, from: Beginning, feeds: seq<seq<RunnerPc>>, k: nat)
    requires Sequentially(w) && Begins(from, w.states[0], w.memory)
    requires Delivered(feeds) <= w.prog && k >= 58 * |Delivered(feeds)|
    requires v == Mvp61 ==> NeverCrosses(v, w.labels, from, feeds + Idling(k))
    requires SafeMisses(v, w, from, feeds + Idling(k))
    ensures |Delivered(feeds)| < |w.states|
    ensures var s := CoreAfter(v, w.labels, from, feeds + Idling(k));
            s.Some? && AllRetired(w, s.value, Delivered(feeds)) && s.value.memory == from.core.memory
  {
    MemoryStands(v, w.labels, from, feeds + Idling(k));
    hide Sequentially, Inv, Stream, Flight, Going, Work, CoreAfter, MeansSequential, NeverCrosses, SafeMisses,
         Delivered;
    SequentiallySizes(w);
    if v == Mvp60 { NeverCrosses60(w.labels, from, feeds + Idling(k)); }
    RunDrains(w, v, from, feeds, k);
    RunGoes(w, v, from, feeds + Idling(k));
    var s := CoreAfter(v, w.labels, from, feeds + Idling(k)).value;
    NoWorkIsQuiet(s);
    InvMeansSequential(w, s);
    QuietMeansEqual(w, s);
    MeansMemory(w, s);
  }

  /** Total correctness: given the instructions that MVP-1 executes, in whatever portions and cycles, MVP-6.0, or
      MVP-6.1 without a crossing, ends with MVP-1's registers. */
  lemma OutOfOrderFinishes(v: Version, app: App, start: Sequential.Flat, n: nat, from: Beginning,
                           feeds: seq<seq<RunnerPc>>)
    requires StraightLine(app, start, n) && Begins(from, start.regs, start.memory)
    requires Delivered(feeds) == WorldOf(app, start, n).prog
    requires v == Mvp61 ==> NeverCrosses(v, app.labels, from, feeds + Idling(58 * n))
    requires SafeMisses(v, WorldOf(app, start, n), from, feeds + Idling(58 * n))
    ensures var s := CoreAfter(v, app.labels, from, feeds + Idling(58 * n));
            && s.Some? && |s.value.unit.issue.issued| == n && InFlightOf(s.value) == []
            && s.value.memory == from.core.memory && EndsAs(s.value, Nth(app, start, n))
  {
    var w := WorldOf(app, start, n);
    WorldOfIsSequential(app, start, n);
    MemoryStays(app, start, n, n);
    assert w.states[0] == start.regs && w.states[n] == Nth(app, start, n).regs;
    hide StraightLine, Sequentially, CoreAfter, NeverCrosses, SafeMisses, Delivered, EndsAs, MemoryMeans;
    EverythingRetires(w, v, from, feeds, 58 * n);
    MeansEnds(w, CoreAfter(v, app.labels, from, feeds + Idling(58 * n)).value, Nth(app, start, n));
  }
}
