/** Which programs MVP-6.1 runs right: a condition on the program alone under which no forward is ever crossed. */
module InFlightChains {
  import opened Words
  import opened Isa
  import opened Pipeline
  import opened Scoreboard
  import opened Control
  import opened OutOfOrder
  import opened InFlight
  import opened InFlightControl
  import opened InFlightRun
  import opened InFlightTheorems
  import opened InFlightProgress
  import InFlightIssue
  import Sequential
  import Buffered = BufferedBus

  /** A producer was issued in the cycle before, two a cycle, so it is at most four instructions back. */
  const WINDOW := 4

  /** The second instruction reads a register that the first writes. */
  predicate Passes(a: Instr, b: Instr) { Control.Shared(WriteRegisters(a), ReadRegisters(b)).Some? }

  predicate Depends(prog: seq<RunnerPc>, i: nat, j: nat) {
    i < j < |prog| && j - i <= WINDOW && Passes(prog[i].instr, prog[j].instr)
  }

  ghost predicate MayReceive(prog: seq<RunnerPc>, j: nat) { exists i: nat :: Depends(prog, i, j) }

  ghost predicate MayForward(prog: seq<RunnerPc>, j: nat) { exists k: nat :: Depends(prog, j, k) }

  /** No instruction both reads what one of the four before it writes and writes what one of the four after it reads. */
  ghost predicate Unchained(prog: seq<RunnerPc>) {
    forall j: nat :: j < |prog| ==> !(MayReceive(prog, j) && MayForward(prog, j))
  }

  /** Wires follow the dependences of the program. */
  ghost predicate Wired(prog: seq<RunnerPc>, wires: seq<Wire>) {
    && |wires| <= |prog|
    && forall j :: 0 <= j < |wires| ==>
      (wires[j].receiver.Some? ==> MayReceive(prog, j)) && (wires[j].forwarder.Some? ==> MayForward(prog, j))
  }

  ghost predicate CandidateWired(prog: seq<RunnerPc>, n: nat, c: Candidate) {
    c.wire.forwarder.None? && (c.wire.receiver.Some? ==> MayReceive(prog, n))
  }

  lemma UnchainedIsUncrossed(prog: seq<RunnerPc>, wires: seq<Wire>)
    requires Unchained(prog) && Wired(prog, wires)
    ensures Uncrossed(wires)
  {
    hide MayReceive, MayForward;
  }

  // ---------------------------------------------------------------- a cycle of the control unit

  /** The instructions of the previous cycle are close to the ones of this one. */
  ghost predicate Close(first: nat, previous: seq<nat>, s: Issue) {
    && first <= |s.issued| <= first + |s.bus.buffer| && |s.bus.buffer| <= BUS_LENGTH
    && forall k :: 0 <= k < |previous| ==> previous[k] + BUS_LENGTH >= first
  }

  ghost predicate WiredIssue(prog: seq<RunnerPc>, first: nat, previous: seq<nat>, s: Issue) {
    Sized(s, previous) && s.issued <= prog && Wired(prog, s.wires) && Close(first, previous, s)
  }

  lemma LinkedWires(prog: seq<RunnerPc>, wires: seq<Wire>, p: nat, wire: Wire)
    requires Wired(prog, wires) && p < |wires| && wire.receiver == wires[p].receiver && MayForward(prog, p)
    ensures Wired(prog, wires[p := wire])
  {
    hide MayReceive, MayForward;
  }

  lemma PushedWires(prog: seq<RunnerPc>, wires: seq<Wire>, c: Candidate)
    requires Wired(prog, wires) && |wires| < |prog| && CandidateWired(prog, |wires|, c)
    ensures Wired(prog, wires + [c.wire])
  {
    hide MayReceive, MayForward;
  }

  lemma ChosenDepends(prog: seq<RunnerPc>, first: nat, previous: seq<nat>, s: Issue)
    requires WiredIssue(prog, first, previous, s) && |s.issued| < |prog|
    ensures var f := ShouldForward(previous, s, prog[|s.issued|].instr);
            f.Some? ==> Depends(prog, f.value.0, |s.issued|)
  {
    var n := |s.issued|;
    var i := prog[n].instr;
    var f := ShouldForward(previous, s, i);
    if f.Some? {
      InFlightIssue.ChooseShares(previous, s.issued, i);
      assert s.issued[f.value.0] == prog[f.value.0];
      SharedIsShared(WriteRegisters(prog[f.value.0].instr), ReadRegisters(i));
      var k :| 0 <= k < |previous| && previous[k] == f.value.0;
    }
    hide Hazards, Choose, Wired;
  }

  lemma HandleWired(prog: seq<RunnerPc>, cycle: int, first: nat, previous: seq<nat>, s: Issue, c: Candidate)
    requires WiredIssue(prog, first, previous, s) && |s.issued| < |prog|
    requires c.runner == prog[|s.issued|] && CandidateWired(prog, |s.issued|, c)
    ensures var h := Handle(Mvp61, cycle, first, previous, [], s, c);
            && WiredIssue(prog, first, previous, h.issue)
            && (!h.push ==> CandidateWired(prog, |h.issue.issued|,
                                           h.candidate) && CandidateWired(prog, |h.issue.issued|, c))
  {
    hide Hazards, Choose, AddPending, IsBranch, Wired, Depends, MayReceive, MayForward;
    var n := |s.issued|;
    NothingClashes(c.runner.instr);
    PushedWires(prog, s.wires, c);
    var f := ShouldForward(previous, s, c.runner.instr);
    if f.Some? {
      var (p, r) := f.value;
      ChosenDepends(prog, first, previous, s);
      DependsBoth(prog, p, n);
      var (s1, c1) := Link(s, c, p, r);
      LinkedWires(prog, s.wires, p, s1.wires[p]);
      PushedWires(prog, s1.wires, c1);
    }
  }

  lemma DependsBoth(prog: seq<RunnerPc>, i: nat, j: nat)
    requires Depends(prog, i, j)
    ensures MayForward(prog, i) && MayReceive(prog, j)
  {
  }

  lemma PendingsWired(prog: seq<RunnerPc>, cycle: int, first: nat, previous: seq<nat>, s: Issue, cs: seq<Candidate>)
    requires WiredIssue(prog, first, previous, s) && first == |s.issued| && |cs| <= 1
    requires cs != [] ==>
               |s.issued| < |prog| && cs[0].runner == prog[|s.issued|] && CandidateWired(prog, |s.issued|, cs[0])
    ensures var p := FromPendings(Mvp61, cycle, first, previous, [], s, cs);
            && WiredIssue(prog, first, previous, p.issue)
            && (forall c :: c in p.kept ==> CandidateWired(prog, |p.issue.issued|, c))
  {
    hide Handle, WiredIssue, CandidateWired;
    if cs != [] {
      HandleWired(prog, cycle, first, previous, s, cs[0]);
      WiredIsSized(prog, first, previous, s);
      HandleDecides(Mvp61, cycle, first, previous, s, cs[0]);
      hide Pushes;
      assert cs[1..] == [];
    }
  }

  lemma WiredIsSized(prog: seq<RunnerPc>, first: nat, previous: seq<nat>, s: Issue)
    requires WiredIssue(prog, first, previous, s)
    ensures Sized(s, previous) && first <= |s.issued| && s.issued <= prog
  {
  }

  lemma {:induction false} QueueWired(prog: seq<RunnerPc>, cycle: int, first: nat, previous: seq<nat>, s: Issue,
                                      queue: seq<RunnerPc>, remaining: int)
    requires WiredIssue(prog, first, previous, s) && s.issued + queue <= prog
    ensures var r := FromBus(Mvp61, cycle, first, previous, [], s, [], queue, remaining);
            && WiredIssue(prog, first, previous, r.0)
            && (forall c :: c in r.1 ==> CandidateWired(prog, |r.0.issued|, c))
    decreases |queue|
  {
    hide Handle, WiredIssue, MayReceive;
    WiredIsSized(prog, first, previous, s);
    if queue != [] {
      var world := World(map[], [], prog, []);
      var c := Candidate(queue[0], NO_WIRE);
      var h := Handle(Mvp61, cycle, first, previous, [], s, c);
      StreamHead(world, s.issued, queue);
      HandleWired(prog, cycle, first, previous, s, c);
      HandleDecides(Mvp61, cycle, first, previous, s, c);
      FromBusUnfolds(Mvp61, cycle, first, previous, s, queue, remaining, h);
      hide FromBus, Pushes, CandidateWired;
      if !h.stop { QueueWired(prog, cycle, first, previous, h.issue, queue[1..], remaining - 1); }
    }
  }

  ghost predicate WiredUnit(prog: seq<RunnerPc>, u: Unit) {
    && Wired(prog, u.issue.wires)
    && (forall c :: c in u.pendings ==> CandidateWired(prog, |u.issue.issued|, c))
    && forall k :: 0 <= k < |u.previous| ==> u.previous[k] + BUS_LENGTH >= |u.issue.issued|
  }

  lemma CycleWired(prog: seq<RunnerPc>, cycle: int, u: Unit)
    requires Tidy(u) && Stream(u) <= prog && WiredUnit(prog, u)
    ensures WiredUnit(prog, Cycle(Mvp61, cycle, u))
  {
    hide Wired, CandidateWired, FromPendings, FromBus, Stream;
    var world := World(map[], [], prog, []);
    CycleIsInOrder(Mvp61, cycle, u);
    if u.issue.bus.CanAdd(BUS_LENGTH) {
      var first := |u.issue.issued|;
      StreamPrefix(prog, u);
      if u.pendings != [] { StreamPending(world, u); }
      PendingsWired(prog, cycle, first, u.previous, u.issue, u.pendings);
      OnePendingDecides(Mvp61, cycle, first, u.previous, u.issue, u.pendings);
      var p := FromPendings(Mvp61, cycle, first, u.previous, [], u.issue, u.pendings);
      if !p.stop {
        var remaining := BUS_LENGTH - |u.issue.bus.buffer| - (|p.issue.issued| - first);
        assert p.issue.issued + Runners([]) == p.issue.issued;
        StreamQueue(world, u, p.issue.issued);
        QueueWired(prog, cycle, first, u.previous, p.issue, u.inBus.queue, remaining);
      }
    }
    hide Pushes;
  }

  lemma StreamPrefix(prog: seq<RunnerPc>, u: Unit)
    requires Stream(u) <= prog
    ensures u.issue.issued <= prog
  {
    assert Stream(u)[..|u.issue.issued|] == u.issue.issued;
  }

  // ---------------------------------------------------------------- runs

  lemma ExecutionKeepsPrevious(v: Version, labels: map<string, Word>, cycle: int, s: Core, fed: seq<RunnerPc>)
    requires Valid(s.unit)
    ensures var t, a := CoreCycle(v, labels, cycle, s, fed), IssueStage(v, cycle, s, fed);
            t.Some? ==> && t.value.unit.previous == a.unit.previous && t.value.unit.issue.issued == a.unit.issue.issued
                        && t.value.unit.issue.wires == a.unit.issue.wires && t.value.unit.pendings == a.unit.pendings
  {
    hide IssueStage, EuCycle, WuCycle;
  }

  lemma StageWired(w: World, cycle: int, s: Core, fed: seq<RunnerPc>)
    requires Inv(w, s) && WiredUnit(w.prog, s.unit) && Stream(s.unit) + fed <= w.prog && Unchained(w.prog)
             && Valid(s.unit)
    ensures var t := IssueStage(Mvp61, cycle, s, fed).unit; WiredUnit(w.prog, t) && Uncrossed(t.issue.wires)
  {
    hide Inv, Cycle, Wired, CandidateWired, Unchained, Uncrossed, Fresh;
    var u := Arrived(s.unit, cycle, fed);
    InvParts(w, s);
    ArrivedTidy(s.unit, cycle, fed);
    ConnectedStream(s.unit, cycle, fed);
    hide Stream, Buffered.AddAll;
    CycleWired(w.prog, cycle, u);
    UnchainedIsUncrossed(w.prog, Cycle(Mvp61, cycle, u).issue.wires);
  }

  lemma NeverCrossesMore(labels: map<string, Word>, from: Beginning, feeds: seq<seq<RunnerPc>>)
    requires feeds != [] && NeverCrosses(Mvp61, labels, from, feeds[..|feeds| - 1])
    requires NoCrossing(Mvp61, labels, from, feeds, |feeds| - 1)
    ensures NeverCrosses(Mvp61, labels, from, feeds)
  {
    hide CoreAfter, IssueStage, Uncrossed, Valid;
    var shorter := feeds[..|feeds| - 1];
    forall k | 0 <= k < |feeds| ensures NoCrossing(Mvp61, labels, from, feeds, k) {
      if k < |shorter| {
        assert NoCrossing(Mvp61, labels, from, shorter, k);
        assert shorter[..k] == feeds[..k];
      }
    }
  }

  /** A program without chains never crosses a forward, whatever is delivered when. */
  lemma {:induction false} UnchainedNeverCrosses(w: World, from: Beginning, feeds: seq<seq<RunnerPc>>)
    requires Sequentially(w) && Begins(from, w.states[0], w.memory) && Delivered(feeds) <= w.prog && Unchained(w.prog)
    requires SafeMisses(Mvp61, w, from, feeds)
    ensures |w.states| > 0
    ensures NeverCrosses(Mvp61, w.labels, from, feeds)
    ensures var s := CoreAfter(Mvp61, w.labels, from, feeds);
            s.Some? && WiredUnit(w.prog, s.value.unit)
  {
    hide Sequentially, Inv, Stream, CoreCycle, IssueStage, Uncrossed, Unchained, WiredUnit, NeverCrosses, SafeMisses;
    SequentiallySizes(w);
    if feeds == [] {
      NothingCrosses(w.labels, from);
      EmptyIsWired(w.prog, from.core);
    } else {
      var last := |feeds| - 1;
      SafeMissesPrefix(Mvp61, w, from, feeds);
      UnchainedNeverCrosses(w, from, feeds[..last]);
      RunKeeps(w, Mvp61, from, feeds[..last]);
      var s := CoreAfter(Mvp61, w.labels, from, feeds[..last]).value;
      InvIsValid(w, s);
      StageWired(w, from.cycle + |feeds|, s, feeds[last]);
      assert NoCrossing(Mvp61, w.labels, from, feeds, last);
      NeverCrossesMore(w.labels, from, feeds);
      RunKeeps(w, Mvp61, from, feeds);
      ExecutionKeepsPrevious(Mvp61, w.labels, from.cycle + |feeds|, s, feeds[last]);
      var t := CoreCycle(Mvp61, w.labels, from.cycle + |feeds|, s, feeds[last]).value;
      SameWired(w.prog, IssueStage(Mvp61, from.cycle + |feeds|, s, feeds[last]).unit, t.unit);
    }
  }

  lemma NothingCrosses(labels: map<string, Word>, from: Beginning)
    ensures NeverCrosses(Mvp61, labels, from, [])
  {
  }

  lemma EmptyIsWired(prog: seq<RunnerPc>, s: Core)
    requires s == Empty(s.regs, s.lines, s.memory)
    ensures WiredUnit(prog, s.unit)
  {
  }

  lemma SameWired(prog: seq<RunnerPc>, u: Unit, t: Unit)
    requires WiredUnit(prog, u) && t.previous == u.previous && t.issue.issued == u.issue.issued
    requires t.issue.wires == u.issue.wires && t.pendings == u.pendings
    ensures WiredUnit(prog, t)
  {
  }

  /** MVP-6.1 ends with MVP-1's registers for every program without chains, and MVP-6.0 for every program. */
  lemma UnchainedMeansMvp1(v: Version, app: App, start: Sequential.Flat, n: nat, from: Beginning,
                           feeds: seq<seq<RunnerPc>>)
    requires StraightLine(app, start, n) && Begins(from, start.regs, start.memory)
    requires Delivered(feeds) == WorldOf(app, start, n).prog
    requires v == Mvp61 ==> Unchained(WorldOf(app, start, n).prog)
    requires SafeMisses(v, WorldOf(app, start, n), from, feeds + Idling(58 * n))
    ensures var s := CoreAfter(v, app.labels, from, feeds + Idling(58 * n));
            && s.Some? && |s.value.unit.issue.issued| == n && InFlightOf(s.value) == []
            && s.value.memory == from.core.memory && EndsAs(s.value, Nth(app, start, n))
  {
    var w := WorldOf(app, start, n);
    assert w.states[0] == Nth(app, start, 0).regs == start.regs;
    if v == Mvp61 {
      WorldOfIsSequential(app, start, n);
      hide StraightLine, Sequentially, CoreAfter, NeverCrosses, SafeMisses, Delivered, Unchained, EndsAs;
      IdleDelivers(feeds, 58 * n);
      UnchainedNeverCrosses(w, from, feeds + Idling(58 * n));
    }
    hide StraightLine, Sequentially, CoreAfter, NeverCrosses, SafeMisses, Delivered, Unchained, EndsAs;
    OutOfOrderFinishes(v, app, start, n, from, feeds);
  }

  lemma {:induction false} IdleDelivers(feeds: seq<seq<RunnerPc>>, k: nat)
    ensures Delivered(feeds + Idling(k)) == Delivered(feeds)
  {
    if k == 0 {
      assert feeds + Idling(0) == feeds;
    } else {
      OneMoreIdle(feeds, k - 1);
      IdleDelivers(feeds, k - 1);
    }
  }
}
