/** Whole runs of the out-of-order cores between two flushes. */
module InFlightRun {
  import opened Words
  import opened Pipeline
  import opened Scoreboard
  import opened Control
  import opened OutOfOrder
  import opened InFlight
  import opened InFlightIssue
  import opened InFlightControl
  import opened InFlightExecute
  import Buffered = BufferedBus

  // ---------------------------------------------------------------- write back

  lemma TakenDone(out: Buffered.Bus<Done>)
    requires out.queue != []
    ensures var out1 := out.(queue := out.queue[1..]);
            && out.Contents() == [out.queue[0]] + out1.Contents()
            && Ids(out.Contents()) == [out.queue[0].id] + Ids(out1.Contents())
  {
    var out1 := out.(queue := out.queue[1..]);
    assert out.queue == [out.queue[0]] + out.queue[1..];
    Buffered.Associates([out.queue[0]], out.queue[1..], Buffered.Values(out.buffer));
  }

  lemma TakenOut(id: nat, bus: seq<nat>, held: seq<nat>, done: seq<nat>, n: nat)
    requires Distinct(bus + (held + ([id] + done)), n)
    ensures multiset(bus + (held + ([id] + done))) == multiset(bus + (held + done)) + multiset{id}
    ensures Distinct(bus + (held + done), n) && id < n
    ensures id in bus + (held + ([id] + done)) && id !in bus + (held + done)
    ensures forall x :: x in bus + (held + done) ==> x in bus + (held + ([id] + done))
  {
    var flight: seq<nat>, flight1: seq<nat> := bus + (held + ([id] + done)), bus + (held + done);
    assert multiset(flight) == multiset(bus) + multiset(held) + multiset{id} + multiset(done);
    assert multiset(flight1) == multiset(bus) + multiset(held) + multiset(done);
    assert multiset(flight)[id] == multiset(flight1)[id] + 1;
    assert id in flight;
    forall x | x in flight1 ensures x in flight && x < n {
      assert x in bus || x in held || x in done;
    }
    forall x: nat ensures multiset(flight1)[x] <= 1 { assert multiset(flight)[x] <= 1; }
    assert id !in multiset(flight1);
  }

  /** The registers once the oldest result has been written. */
  function Retired(regs: Regs, d: Done): Regs {
    if d.exe.registerChange then regs[d.exe.register := d.exe.registerValue] else regs
  }

  lemma RetiredReads(w: World, regs: Regs, d: Done)
    requires Sequentially(w) && d.id < |w.prog| && d.exe == ExeOf(w, d.id) && Read(regs, ZERO) == 0
    ensures Read(Retired(regs, d), ZERO) == 0
    ensures forall r: Reg :: r != ZERO ==>
      Read(Retired(regs, d), r) == if r in Writes(w, d.id) then Read(w.states[d.id + 1], r) else Read(regs, r)
  {
    ExeShape(w, d.id);
  }

  lemma RetiredSettles(w: World, regs: Regs, n: nat, wires: seq<Wire>, channels: seq<Channel>, flight: seq<nat>,
                       d: Done, flight1: seq<nat>)
    requires Sequentially(w) && n == |wires| <= |w.prog| && d.id < n && d.exe == ExeOf(w, d.id)
    requires Settled(w, regs, n, flight) && Ordered(w, wires, channels, flight) && d.id in flight
    requires forall x :: x in flight ==> x in flight1 || x == d.id
    ensures Settled(w, Retired(regs, d), n, flight1)
  {
    var regs1 := Retired(regs, d);
    RetiredReads(w, regs, d);
    forall r: Reg | r != ZERO && Unclaimed(w, flight1, r) ensures Read(regs1, r) == Read(w.states[n], r) {
      if r in Writes(w, d.id) {
        forall j | d.id + 1 <= j < n ensures r !in Writes(w, j) { OneWriter(w, wires, channels, flight, d.id, j, r); }
        Unwritten(w, d.id + 1, n, r);
      } else {
        assert Unclaimed(w, flight, r);
      }
    }
  }

  lemma RetiredStillOld(w: World, regs: Regs, wires: seq<Wire>, channels: seq<Channel>, flight: seq<nat>, d: Done,
                        flight1: seq<nat>)
    requires Sequentially(w) && |wires| <= |w.prog| && d.id < |wires| && d.exe == ExeOf(w, d.id)
             && Read(regs, ZERO) == 0
    requires AllStillOld(w, regs, flight) && Ordered(w, wires, channels, flight) && d.id in flight
    requires forall x :: x in flight1 ==> x in flight && x != d.id && x < |wires|
    ensures AllStillOld(w, Retired(regs, d), flight1)
  {
    RetiredReads(w, regs, d);
    forall i, r: Reg | i in flight1 && r != ZERO && r in Writes(w, i)
      ensures Read(Retired(regs, d), r) == Read(w.states[i], r)
    {
      assert StillOld(w, regs, i);
      if r in Writes(w, d.id) {
        if i < d.id {
          OneWriter(w, wires, channels, flight, i, d.id, r);
        } else {
          OneWriter(w, wires, channels, flight, d.id, i, r);
        }
      }
    }
    hide Ordered, Retired;
  }

  /** A write disturbs no operand that is still to be read. */
  lemma RetiredKeepsReady(w: World, regs: Regs, wires: seq<Wire>, channels: seq<Channel>, flight: seq<nat>, d: Done,
                          wire: Wire, id: nat)
    requires Sequentially(w) && |wires| <= |w.prog| && d.id < |wires| && id < |wires| && d.exe == ExeOf(w, d.id)
    requires Ordered(w, wires, channels, flight) && d.id in flight && id in flight && id != d.id
             && Read(regs, ZERO) == 0
    requires wire.receiver == wires[id].receiver && Waits(w, regs, channels, wire, id)
    ensures Waits(w, Retired(regs, d), channels, wire, id)
  {
    RetiredReads(w, regs, d);
    forall r: Reg | r != ZERO && r in Reads(w, id) && r != Received(channels, wire) ensures r !in Writes(w, d.id) {
      if d.id < id {
        assert OnlyThrough(w.prog[d.id].instr, w.prog[id].instr, Via(wires[id], channels, d.id));
      } else {
        assert OnlyThrough(w.prog[id].instr, w.prog[d.id].instr, Via(wires[d.id], channels, id));
      }
    }
  }

  lemma RetiredKeepsBus(w: World, regs: Regs, wires: seq<Wire>, channels: seq<Channel>, flight: seq<nat>, d: Done,
                        ids: seq<nat>)
    requires Sequentially(w) && |wires| <= |w.prog| && d.id < |wires| && d.exe == ExeOf(w, d.id)
    requires Ordered(w, wires, channels, flight) && d.id in flight && Read(regs, ZERO) == 0
    requires BusOk(w, regs, wires, channels, ids) && (forall id :: id in ids ==> id in flight) && d.id !in ids
    ensures BusOk(w, Retired(regs, d), wires, channels, ids)
  {
    forall id | id in ids ensures Waits(w, Retired(regs, d), channels, wires[id], id) {
      RetiredKeepsReady(w, regs, wires, channels, flight, d, wires[id], id);
    }
  }

  lemma RetiredKeepsEu(w: World, regs: Regs, wires: seq<Wire>, channels: seq<Channel>, flight: seq<nat>, d: Done,
                       eu: Eu)
    requires Sequentially(w) && |wires| <= |w.prog| && d.id < |wires| && d.exe == ExeOf(w, d.id)
    requires Ordered(w, wires, channels, flight) && d.id in flight && Read(regs, ZERO) == 0
    requires EuOk(w, regs, wires, channels, eu) && (forall id :: id in Held(eu) ==> id in flight) && d.id !in Held(eu)
    ensures EuOk(w, Retired(regs, d), wires, channels, eu)
  {
    if eu.Preparing? {
      assert eu.id in Held(eu);
      RetiredKeepsReady(w, regs, wires, channels, flight, d, eu.wire, eu.id);
    }
  }

  /** All that concerns instructions in flight. */
  ghost predicate CoreOk(w: World, regs: Regs, s: Issue, eu0: Eu, eu1: Eu, out: Buffered.Bus<Done>) {
    IssueOk(w, regs, s, Rest(eu0, eu1, out)) && UnitsOk(w, regs, s, eu0, eu1, out)
  }

  /** The oldest result leaves everything that is in flight. */
  lemma RetiredFlight(w: World, s: Issue, eu0: Eu, eu1: Eu, out: Buffered.Bus<Done>, out1: Buffered.Bus<Done>,
                      flight: seq<nat>, flight1: seq<nat>)
    requires out.queue != [] && out1 == out.(queue := out.queue[1..])
    requires flight == s.bus.Contents() + Rest(eu0, eu1, out) && flight1 == s.bus.Contents() + Rest(eu0, eu1, out1)
    requires Distinct(flight, |s.issued|)
    ensures var id := out.queue[0].id;
            && multiset(flight) == multiset(flight1) + multiset{id} && Distinct(flight1, |s.issued|)
            && id in flight && id !in flight1 && id < |s.issued|
            && (forall x :: x in flight1 ==> x in flight) && (forall x :: x in flight ==> x in flight1 || x == id)
            && (forall x :: x in s.bus.Contents() || x in Held(eu0) || x in Held(eu1) ==> x in flight1)
  {
    TakenDone(out);
    var id, bus, held, done := out.queue[0].id, s.bus.Contents(), Held(eu0) + Held(eu1), Ids(out1.Contents());
    TakenOut(id, bus, held, done, |s.issued|);
    hide Distinct, Ids, Buffered.Values;
    forall x | x in flight ensures x in flight1 || x == id {
      assert x in bus || x in held || x in [id] + done;
    }
  }

  lemma DoneShrinks(w: World, n: nat, out: Buffered.Bus<Done>)
    requires Sequentially(w) && n <= |w.prog| && DoneOk(w, n, out.Contents()) && out.queue != []
    ensures DoneOk(w, n, out.(queue := out.queue[1..]).Contents())
    ensures var d := out.queue[0]; d.id < n && d.instr == w.prog[d.id].instr && d.exe == ExeOf(w, d.id)
  {
    TakenDone(out);
    assert out.queue[0] in out.Contents();
    hide ExeOf;
  }

  lemma RetireKeeps(w: World, regs: Regs, s: Issue, eu0: Eu, eu1: Eu, out: Buffered.Bus<Done>)
    requires CoreOk(w, regs, s, eu0, eu1, out)
    ensures var t := WuCycle(regs, s.board, out);
            CoreOk(w, t.0, s.(board := t.1), eu0, eu1, t.2)
  {
    hide Sequentially, Distinct, ChannelsCarry, Channelled, BusOk, EuOk, DoneOk, Ordered, Exact, Ids, Buffered.Values,
         ExeOf, DeletePending, Rest, AllStillOld;
    if out.queue != [] {
      var d, out1, n := out.queue[0], out.(queue := out.queue[1..]), |s.issued|;
      var flight, flight1 := s.bus.Contents() + Rest(eu0, eu1, out), s.bus.Contents() + Rest(eu0, eu1, out1);
      SequentiallySizes(w);
      RetiredFlight(w, s, eu0, eu1, out, out1, flight, flight1);
      DoneShrinks(w, n, out);
      RetireKeepsExact(s.board, s.issued, flight, d.id, flight1);
      RetiredSettles(w, regs, n, s.wires, s.channels, flight, d, flight1);
      DistinctIsBounded(flight1, n);
      RetiredStillOld(w, regs, s.wires, s.channels, flight, d, flight1);
      OrderedSubset(w, s.wires, s.channels, flight, flight1);
      RetiredKeepsBus(w, regs, s.wires, s.channels, flight, d, s.bus.Contents());
      RetiredKeepsEu(w, regs, s.wires, s.channels, flight, d, eu0);
      RetiredKeepsEu(w, regs, s.wires, s.channels, flight, d, eu1);
      hide Settled;
    }
  }

  lemma OrderedSubset(w: World, wires: seq<Wire>, channels: seq<Channel>, flight: seq<nat>, flight1: seq<nat>)
    requires |wires| <= |w.prog| && Ordered(w, wires, channels, flight)
    requires forall x :: x in flight1 ==> x in flight
    ensures Ordered(w, wires, channels, flight1)
  {
    hide OnlyThrough;
  }

  // ---------------------------------------------------------------- the invariant

  ghost predicate Inv(w: World, s: Core) {
    && UnitOk(w, s.regs, s.unit, Rest(s.eu0, s.eu1, s.out), Buffered.Values(s.unit.issue.bus.buffer))
    && UnitsOk(w, s.regs, s.unit.issue, s.eu0, s.eu1, s.out)
    && CacheOk(w, s.lines, s.memory)
  }

  // ---------------------------------------------------------------- connecting and issuing

  lemma ConnectedStream(u: Unit, cycle: int, fed: seq<RunnerPc>)
    ensures Stream(Arrived(u, cycle, fed)) == Stream(u) + fed
    ensures Arrived(u, cycle, fed).issue.bus.Contents() == u.issue.bus.Contents()
    ensures |Arrived(u, cycle, fed).issue.bus.buffer| <= |u.issue.bus.buffer|
  {
    Buffered.ConnectContents(u.inBus, BUS_LENGTH, cycle);
    Buffered.AddAllContents(u.inBus.Connect(BUS_LENGTH, cycle), fed, cycle);
    Buffered.ConnectContents(u.issue.bus, BUS_LENGTH, cycle);
    Buffered.Associates(u.issue.issued + Runners(u.pendings), u.inBus.Contents(), fed);
  }

  lemma FreshIsOnBus(previous: seq<nat>, bus: Buffered.Bus<nat>, wires: seq<Wire>)
    requires Fresh(previous, Buffered.Values(bus.buffer), wires)
    ensures Fresh(previous, bus.Contents(), wires)
  {
  }

  lemma ConnectedOk(w: World, regs: Regs, u: Unit, rest: seq<nat>, cycle: int, fed: seq<RunnerPc>)
    requires UnitOk(w, regs, u, rest, Buffered.Values(u.issue.bus.buffer)) && Stream(u) + fed <= w.prog
    ensures var u1 := Arrived(u, cycle, fed); UnitOk(w, regs, u1, rest, u1.issue.bus.Contents())
  {
    ConnectedStream(u, cycle, fed);
    FreshIsOnBus(u.previous, u.issue.bus, u.issue.wires);
    hide Stream, Exact, Ordered, Settled, AllStillOld, Sequentially, Distinct, ChannelsCarry, Channelled, BusOk, Fresh,
         Buffered.AddAll, Buffered.Values;
  }

  lemma ExtendedEu(w: World, regs: Regs, s: Issue, s1: Issue, eu: Eu)
    requires |s.wires| <= |s1.wires| <= |w.prog| < |w.states| && Extends(s, s1)
    requires EuOk(w, regs, s.wires, s.channels, eu)
    ensures EuOk(w, regs, s1.wires, s1.channels, eu)
  {
    if eu.Preparing? {
      assert s1.wires[eu.id].receiver == s.wires[eu.id].receiver;
      assert forall k :: 0 <= k < |s.channels| ==> s1.channels[k] == s.channels[k];
    }
  }

  lemma ExtendedUnits(w: World, regs: Regs, s: Issue, s1: Issue, eu0: Eu, eu1: Eu, out: Buffered.Bus<Done>)
    requires Sequentially(w) && |s.wires| == |s.issued| && |s1.wires| == |s1.issued| <= |w.prog| && Extends(s, s1)
    requires |s.wires| <= |w.prog| && UnitsOk(w, regs, s, eu0, eu1, out)
    ensures UnitsOk(w, regs, s1, eu0, eu1, out)
  {
    SequentiallySizes(w);
    ExtendedEu(w, regs, s, s1, eu0);
    ExtendedEu(w, regs, s, s1, eu1);
    hide EuOk, ExeOf;
  }

  lemma ConnectedDone(w: World, regs: Regs, s: Issue, eu0: Eu, eu1: Eu, out: Buffered.Bus<Done>, cycle: int)
    requires Sequentially(w) && |s.wires| == |s.issued| <= |w.prog| && UnitsOk(w, regs, s, eu0, eu1, out)
    ensures var out1 := out.Connect(BUS_LENGTH, cycle);
            UnitsOk(w, regs, s, eu0, eu1, out1) && Rest(eu0, eu1, out1) == Rest(eu0, eu1, out)
  {
    Buffered.ConnectContents(out, BUS_LENGTH, cycle);
  }

  lemma IssueStageKeeps(w: World, s: Core, v: Version, cycle: int, fed: seq<RunnerPc>)
    requires Inv(w, s) && Stream(s.unit) + fed <= w.prog
    requires Valid(s.unit) && Uncrossed(IssueStage(v, cycle, s, fed).unit.issue.wires)
    ensures Inv(w, IssueStage(v, cycle, s, fed))
    ensures Stream(IssueStage(v, cycle, s, fed).unit) == Stream(s.unit) + fed
  {
    hide Cycle, IssueOk, Fresh, KeptOk, UnitsOk, CacheOk, Stream, Uncrossed, Rest, Buffered.AddAll, Buffered.Values;
    var u := Arrived(s.unit, cycle, fed);
    var t := IssueStage(v, cycle, s, fed);
    assert t.unit == Cycle(v, cycle, u);
    ConnectedOk(w, s.regs, s.unit, Rest(s.eu0, s.eu1, s.out), cycle, fed);
    ConnectedStream(s.unit, cycle, fed);
    CycleIsInOrder(v, cycle, u);
    UnitKeeps(w, s.regs, u, Rest(s.eu0, s.eu1, s.out), v, cycle);
    IssueOkSizes(w, s.regs, s.unit.issue, Rest(s.eu0, s.eu1, s.out));
    IssueOkSizes(w, s.regs, t.unit.issue, Rest(s.eu0, s.eu1, s.out));
    IssueOkSequential(w, s.regs, t.unit.issue, Rest(s.eu0, s.eu1, s.out));
    ExtendedUnits(w, s.regs, s.unit.issue, t.unit.issue, s.eu0, s.eu1, s.out);
    ConnectedDone(w, s.regs, t.unit.issue, s.eu0, s.eu1, s.out, cycle);
  }

  lemma IssueOkSequential(w: World, regs: Regs, s: Issue, rest: seq<nat>)
    requires IssueOk(w, regs, s, rest)
    ensures Sequentially(w)
  {
  }

  // ---------------------------------------------------------------- executing

  lemma SwappedFlight(bus: seq<nat>, a: seq<nat>, b: seq<nat>, done: seq<nat>)
    ensures multiset(bus + (a + b + done)) == multiset(bus + (b + a + done))
  {
    assert multiset(bus + (a + b + done)) == multiset(bus) + multiset(a) + multiset(b) + multiset(done);
    assert multiset(bus + (b + a + done)) == multiset(bus) + multiset(a) + multiset(b) + multiset(done);
  }

  lemma SwapUnits(w: World, regs: Regs, wires: seq<Wire>, s: Shared, a: Eu, b: Eu)
    requires EuInv(w, regs, wires, s, a, b)
    ensures EuInv(w, regs, wires, s, b, a)
    ensures multiset(FlightOf(s, a, b)) == multiset(FlightOf(s, b, a))
  {
    SwappedFlight(s.bus.Contents(), Held(a), Held(b), Ids(s.out.Contents()));
    DistinctPermutes(FlightOf(s, a, b), FlightOf(s, b, a), |wires|);
    hide Sequentially, Distinct, ChannelsCarry, BusOk, EuOk, DoneOk, CacheOk, Ids, Buffered.Values;
  }

  /** What both units together keep, and what they leave alone. */
  ghost predicate BothStep(w: World, regs: Regs, wires: seq<Wire>, s: Shared, a: Eu, b: Eu, s1: Shared, a1: Eu,
                           b1: Eu) {
    && EuInv(w, regs, wires, s1, a1, b1)
    && multiset(FlightOf(s1, a1, b1)) == multiset(FlightOf(s, a, b))
    && SameMakers(s.channels, s1.channels)
    && s1.bus.buffer == s.bus.buffer
  }

  lemma BothUnitsKeep(w: World, regs: Regs, wires: seq<Wire>, s: Shared, a: Eu, b: Eu, cycle: int)
    requires EuInv(w, regs, wires, s, a, b) && SafeMiss(w, s, a)
    requires var r := EuCycle(w.labels, cycle, w.prog[..|wires|], wires, regs, a, s);
             r.Some? ==> SafeMiss(w, r.value.1, b)
    ensures var r := EuCycle(w.labels, cycle, w.prog[..|wires|], wires, regs, a, s);
            && r.Some?
            && var q := EuCycle(w.labels, cycle, w.prog[..|wires|], wires, regs, b, r.value.1);
            && q.Some?
            && BothStep(w, regs, wires, s, a, b, q.value.1, r.value.0, q.value.0)
  {
    hide EuCycle, EuInv, Flight, SafeMiss;
    EuInvSizes(w, regs, wires, s, a, b);
    EuKeeps(w, regs, wires, s, a, b, cycle);
    var r := EuCycle(w.labels, cycle, w.prog[..|wires|], wires, regs, a, s).value;
    SwapUnits(w, regs, wires, r.1, r.0, b);
    EuKeeps(w, regs, wires, r.1, b, r.0, cycle);
    var q := EuCycle(w.labels, cycle, w.prog[..|wires|], wires, regs, b, r.1).value;
    SwapUnits(w, regs, wires, q.1, q.0, r.0);
  }

  lemma EuInvSizes(w: World, regs: Regs, wires: seq<Wire>, s: Shared, a: Eu, b: Eu)
    requires EuInv(w, regs, wires, s, a, b)
    ensures |wires| <= |w.prog|
  {
  }

  lemma SameMembers(a: seq<nat>, b: seq<nat>)
    requires multiset(a) == multiset(b)
    ensures forall x :: x in a <==> x in b
  {
    forall x ensures x in a <==> x in b {
      assert x in a <==> x in multiset(a);
      assert x in b <==> x in multiset(b);
    }
  }

  lemma SameMakersOrdered(w: World, wires: seq<Wire>, a: seq<Channel>, b: seq<Channel>, flight: seq<nat>,
                          flight1: seq<nat>)
    requires |wires| <= |w.prog| && SameMakers(a, b) && Ordered(w, wires, a, flight)
    requires forall x :: x in flight <==> x in flight1
    ensures Ordered(w, wires, b, flight1)
  {
    forall i, j | i in flight1 && i < j < |wires|
      ensures OnlyThrough(w.prog[i].instr, w.prog[j].instr, Via(wires[j], b, i)) {
      assert Via(wires[j], b, i) == Via(wires[j], a, i);
    }
    hide OnlyThrough;
  }

  lemma SettledMoves(w: World, regs: Regs, n: nat, flight: seq<nat>, flight1: seq<nat>)
    requires n < |w.states| && Settled(w, regs, n, flight) && (forall x :: x in flight <==> x in flight1)
    ensures Settled(w, regs, n, flight1)
  {
    forall r: Reg | r != ZERO && Unclaimed(w, flight1, r) ensures Read(regs, r) == Read(w.states[n], r) {
      assert Unclaimed(w, flight, r);
    }
  }

  lemma StillOldMoves(w: World, regs: Regs, flight: seq<nat>, flight1: seq<nat>)
    requires AllStillOld(w, regs, flight) && (forall x :: x in flight1 ==> x in flight)
    ensures AllStillOld(w, regs, flight1)
  {
    hide StillOld;
  }

  lemma SameMakersKept(w: World, s: Issue, s1: Issue, cs: seq<Candidate>)
    requires SameMakers(s.channels, s1.channels) && s.issued == s1.issued && KeptOk(w, s, cs)
    ensures KeptOk(w, s1, cs)
  {
  }

  lemma ExecutedOk(w: World, regs: Regs, s: Issue, a: Eu, b: Eu, sh: Shared, sh1: Shared, a1: Eu, b1: Eu)
    requires sh.bus == s.bus && sh.channels == s.channels && CoreOk(w, regs, s, a, b, sh.out)
    requires BothStep(w, regs, s.wires, sh, a, b, sh1, a1, b1)
    ensures CoreOk(w, regs, s.(bus := sh1.bus, channels := sh1.channels), a1, b1, sh1.out)
  {
    hide Sequentially, Distinct, ChannelsCarry, BusOk, EuOk, DoneOk, CacheOk, Ordered, Settled, AllStillOld, Exact,
         SameMakers, Rest, Buffered.Values;
    var flight, flight1 := FlightOf(sh, a, b), FlightOf(sh1, a1, b1);
    SequentiallySizes(w);
    SameMembers(flight, flight1);
    MoveKeepsExact(s.board, s.issued, flight, flight1);
    SameMakersOrdered(w, s.wires, sh.channels, sh1.channels, flight, flight1);
    SettledMoves(w, regs, |s.issued|, flight, flight1);
    StillOldMoves(w, regs, flight, flight1);
    SameMakersSize(s.channels, sh1.channels);
  }

  lemma SameMakersSize(a: seq<Channel>, b: seq<Channel>)
    requires SameMakers(a, b)
    ensures |a| == |b|
  {
  }

  lemma CoreOkIsEuInv(w: World, regs: Regs, s: Issue, a: Eu, b: Eu, sh: Shared)
    requires sh.bus == s.bus && sh.channels == s.channels && CoreOk(w, regs, s, a, b, sh.out)
             && CacheOk(w, sh.lines, sh.memory)
    ensures EuInv(w, regs, s.wires, sh, a, b) && s.issued == w.prog[..|s.wires|]
  {
    hide Sequentially, Distinct, ChannelsCarry, BusOk, EuOk, DoneOk, CacheOk, Ordered, Exact, Rest, Buffered.Values;
  }

  /** Neither unit's miss disturbs the L1D in this cycle. */
  ghost predicate SafeStage(w: World, s: Core, cycle: int) {
    var issue := s.unit.issue;
    && SafeMiss(w, SharedOf(s), s.eu0)
    && var a := EuCycle(w.labels, cycle, issue.issued, issue.wires, s.regs, s.eu0, SharedOf(s));
       a.Some? ==> SafeMiss(w, a.value.1, s.eu1)
  }

  lemma ExecuteStageKeeps(w: World, s: Core, cycle: int)
    requires Inv(w, s) && SafeStage(w, s, cycle)
    ensures var r := ExecuteStage(w.labels, cycle, s);
            r.Some? && Inv(w, r.value) && Stream(r.value.unit) == Stream(s.unit)
  {
    hide EuCycle, IssueOk, KeptOk, UnitsOk, CacheOk, Rest, Fresh, Runners, Buffered.Values, EuInv, Flight, SameMakers,
         SafeMiss;
    var issue, sh := s.unit.issue, SharedOf(s);
    IssueOkSizes(w, s.regs, issue, Rest(s.eu0, s.eu1, s.out));
    IssueOkSequential(w, s.regs, issue, Rest(s.eu0, s.eu1, s.out));
    CoreOkIsEuInv(w, s.regs, issue, s.eu0, s.eu1, sh);
    BothUnitsKeep(w, s.regs, issue.wires, sh, s.eu0, s.eu1, cycle);
    var t := ExecuteStage(w.labels, cycle, s).value;
    var sh1 := SharedOf(t);
    ExecutedOk(w, s.regs, issue, s.eu0, s.eu1, sh, sh1, t.eu0, t.eu1);
    SameMakersKept(w, issue, t.unit.issue, s.unit.pendings);
    EuInvCache(w, s.regs, issue.wires, sh1, t.eu0, t.eu1);
  }

  lemma EuInvCache(w: World, regs: Regs, wires: seq<Wire>, s: Shared, a: Eu, b: Eu)
    requires EuInv(w, regs, wires, s, a, b)
    ensures CacheOk(w, s.lines, s.memory)
  {
  }

  // ---------------------------------------------------------------- a cycle

  lemma WriteOnceKeeps(w: World, s: Core)
    requires Inv(w, s)
    ensures Inv(w, WriteOnce(s)) && Stream(WriteOnce(s).unit) == Stream(s.unit)
  {
    hide WuCycle, IssueOk, UnitsOk, CacheOk, Rest, Fresh, Runners, Buffered.Values;
    RetireKeeps(w, s.regs, s.unit.issue, s.eu0, s.eu1, s.out);
  }

  /** Every cycle keeps the invariant and gets through, as long as no instruction both receives and forwards and no miss
      disturbs the L1D. */
  lemma CycleKeeps(w: World, s: Core, v: Version, cycle: int, fed: seq<RunnerPc>)
    requires Inv(w, s) && Stream(s.unit) + fed <= w.prog
    requires Valid(s.unit) && Uncrossed(IssueStage(v, cycle, s, fed).unit.issue.wires)
    requires SafeStage(w, IssueStage(v, cycle, s, fed), cycle)
    ensures var t := CoreCycle(v, w.labels, cycle, s, fed);
            t.Some? && Inv(w, t.value) && Stream(t.value.unit) == Stream(s.unit) + fed
  {
    hide IssueStage, ExecuteStage, WriteOnce, Inv, Stream, Uncrossed, SafeStage;
    IssueStageKeeps(w, s, v, cycle, fed);
    var a := IssueStage(v, cycle, s, fed);
    ExecuteStageKeeps(w, a, cycle);
    var b := ExecuteStage(w.labels, cycle, a).value;
    WriteOnceKeeps(w, b);
    WriteOnceKeeps(w, WriteOnce(b));
  }
}
