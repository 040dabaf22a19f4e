/** A whole cycle of the control unit keeps the invariant of the out-of-order cores. */
module InFlightControl {
  import opened Words
  import opened Pipeline
  import opened Scoreboard
  import opened Control
  import opened InFlight
  import opened InFlightIssue
  import Buffered = BufferedBus

  ghost predicate KeptOk(w: World, s: Issue, cs: seq<Candidate>) {
    forall c :: c in cs ==> |s.issued| < |w.states| && CandidateOk(w, s.channels, |s.issued|, c)
  }

  lemma ExtendsCompose(a: Issue, b: Issue, c: Issue)
    requires Extends(a, b) && Extends(b, c)
    ensures Extends(a, c)
  {
  }

  lemma PendingsKeep(w: World, regs: Regs, s: Issue, rest: seq<nat>, v: Version, cycle: int, previous: seq<nat>,
                     cs: seq<Candidate>)
    requires IssueOk(w, regs, s, rest) && Fresh(previous, s.bus.Contents(), s.wires) && Sized(s, previous)
    requires |cs| <= 1 && KeptOk(w, s, cs) && (cs != [] ==> |s.issued| < |w.prog| && cs[0].runner == w.prog[|s.issued|])
    requires var p := FromPendings(v, cycle, |s.issued|, previous, [], s, cs); p.stop ==> Uncrossed(p.issue.wires)
    ensures var p := FromPendings(v, cycle, |s.issued|, previous, [], s, cs);
            Handles(w, regs, s, rest, previous, p.issue, p.stop) && KeptOk(w, p.issue, p.kept)
  {
    hide IssueOk, Handle, CandidateOk, Uncrossed, Fresh;
    if cs != [] {
      var h := Handle(v, cycle, |s.issued|, previous, [], s, cs[0]);
      assert cs[1..] == [];
      HandleKeeps(w, regs, s, rest, v, cycle, |s.issued|, previous, cs[0]);
      HandleDecides(v, cycle, |s.issued|, previous, s, cs[0]);
      IssueOkSizes(w, regs, h.issue, rest);
    }
  }

  lemma IssueOkSizes(w: World, regs: Regs, s: Issue, rest: seq<nat>)
    requires IssueOk(w, regs, s, rest)
    ensures |s.issued| == |s.wires| <= |w.prog| < |w.states| && s.issued == w.prog[..|s.issued|]
  {
  }

  lemma StreamHead(w: World, issued: seq<RunnerPc>, queue: seq<RunnerPc>)
    requires issued + queue <= w.prog && queue != []
    ensures |issued| < |w.prog| && queue[0] == w.prog[|issued|] && issued + [queue[0]] + queue[1..] <= w.prog
  {
    assert queue == [queue[0]] + queue[1..];
    Buffered.Associates(issued, [queue[0]], queue[1..]);
    assert (issued + queue)[|issued|] == queue[0];
  }

  lemma NewCandidate(w: World, channels: seq<Channel>, n: nat, x: RunnerPc)
    requires n < |w.states|
    ensures CandidateOk(w, channels, n, Candidate(x, NO_WIRE))
  {
  }

  lemma {:induction false} QueueKeeps(w: World, regs: Regs, s: Issue, rest: seq<nat>, v: Version, cycle: int,
                                      first: nat, previous: seq<nat>, queue: seq<RunnerPc>, remaining: int)
    requires IssueOk(w, regs, s, rest) && Fresh(previous, s.bus.Contents(), s.wires) && Sized(s, previous)
             && first <= |s.issued|
    requires s.issued + queue <= w.prog
    requires Uncrossed(FromBus(v, cycle, first, previous, [], s, [], queue, remaining).0.wires)
    ensures var r := FromBus(v, cycle, first, previous, [], s, [], queue, remaining);
            IssueOk(w, regs, r.0, rest) && Extends(s, r.0) && KeptOk(w, r.0, r.1)
    decreases |queue|
  {
    hide IssueOk, Handle, CandidateOk, Uncrossed, Fresh, Sequentially;
    if !((v == Mvp60 && remaining <= 0) || queue == []) {
      var c := Candidate(queue[0], NO_WIRE);
      var h := Handle(v, cycle, first, previous, [], s, c);
      StreamHead(w, s.issued, queue);
      HandleDecides(v, cycle, first, previous, s, c);
      FromBusUnfolds(v, cycle, first, previous, s, queue, remaining, h);
      IssueOkSizes(w, regs, s, rest);
      NewCandidate(w, s.channels, |s.issued|, queue[0]);
      hide FromBus;
      HandleKeeps(w, regs, s, rest, v, cycle, first, previous, c);
      IssueOkSizes(w, regs, h.issue, rest);
      if !h.stop {
        QueueKeeps(w, regs, h.issue, rest, v, cycle, first, previous, queue[1..], remaining - 1);
        ExtendsCompose(s, h.issue, FromBus(v, cycle, first, previous, [], h.issue, [], queue[1..], remaining - 1).0);
      }
    }
  }

  // ---------------------------------------------------------------- new instructions feed nobody yet

  ghost predicate NewIdle(first: nat, wires: seq<Wire>) {
    forall j :: first <= j < |wires| ==> wires[j].forwarder.None?
  }

  lemma HandleKeepsIdle(v: Version, cycle: int, first: nat, previous: seq<nat>, s: Issue, c: Candidate)
    requires Sized(s, previous) && Known(previous, first) && NewIdle(first, s.wires) && c.wire.forwarder.None?
    ensures NewIdle(first, Handle(v, cycle, first, previous, [], s, c).issue.wires)
  {
    hide Hazards, Choose, AddPending, Buffered.Add;
    var f := ShouldForward(previous, s, c.runner.instr);
    if f.Some? {
      var k :| 0 <= k < |previous| && previous[k] == f.value.0;
    }
  }

  lemma PendingsKeepIdle(v: Version, cycle: int, first: nat, previous: seq<nat>, s: Issue, cs: seq<Candidate>)
    requires Sized(s, previous) && Known(previous, first) && NewIdle(first, s.wires) && first == |s.issued|
    requires |cs| <= 1 && forall c :: c in cs ==> c.wire.forwarder.None?
    ensures NewIdle(first, FromPendings(v, cycle, first, previous, [], s, cs).issue.wires)
  {
    hide Handle, NewIdle;
    if cs != [] {
      HandleKeepsIdle(v, cycle, first, previous, s, cs[0]);
      HandleDecides(v, cycle, first, previous, s, cs[0]);
      assert cs[1..] == [];
    }
  }

  lemma {:induction false} QueueKeepsIdle(v: Version, cycle: int, first: nat, previous: seq<nat>, s: Issue,
                                          queue: seq<RunnerPc>, remaining: int)
    requires Sized(s, previous) && Known(previous, first) && NewIdle(first, s.wires) && first <= |s.issued|
    ensures NewIdle(first, FromBus(v, cycle, first, previous, [], s, [], queue, remaining).0.wires)
    decreases |queue|
  {
    hide Handle, NewIdle, Known;
    if !((v == Mvp60 && remaining <= 0) || queue == []) {
      var c := Candidate(queue[0], NO_WIRE);
      var h := Handle(v, cycle, first, previous, [], s, c);
      HandleKeepsIdle(v, cycle, first, previous, s, c);
      HandleDecides(v, cycle, first, previous, s, c);
      FromBusUnfolds(v, cycle, first, previous, s, queue, remaining, h);
      hide FromBus;
      if !h.stop { QueueKeepsIdle(v, cycle, first, previous, h.issue, queue[1..], remaining - 1); }
    }
  }

  // ---------------------------------------------------------------- the cycle

  ghost predicate UnitOk(w: World, regs: Regs, u: Unit, rest: seq<nat>, newest: seq<nat>) {
    && Tidy(u) && Stream(u) <= w.prog
    && IssueOk(w, regs, u.issue, rest) && KeptOk(w, u.issue, u.pendings)
    && Fresh(u.previous, newest, u.issue.wires)
  }

  lemma StreamPending(w: World, u: Unit)
    requires Stream(u) <= w.prog && u.pendings != []
    ensures |u.issue.issued| < |w.prog| && u.pendings[0].runner == w.prog[|u.issue.issued|]
  {
    assert Stream(u)[|u.issue.issued|] == u.pendings[0].runner;
  }

  lemma StreamQueue(w: World, u: Unit, issued: seq<RunnerPc>)
    requires Stream(u) <= w.prog && issued == u.issue.issued + Runners(u.pendings)
    ensures issued + u.inBus.queue <= w.prog
  {
    Buffered.Associates(issued, u.inBus.queue, Buffered.Values(u.inBus.buffer));
    assert Stream(u)[..|issued| + |u.inBus.queue|] == issued + u.inBus.queue;
  }

  lemma KeptIsIdle(w: World, s: Issue, cs: seq<Candidate>)
    requires KeptOk(w, s, cs)
    ensures forall c :: c in cs ==> c.wire.forwarder.None?
  {
  }

  lemma KnownFirst(previous: seq<nat>, s: Issue)
    requires Sized(s, previous)
    ensures Known(previous, |s.issued|) && NewIdle(|s.issued|, s.wires)
  {
  }

  lemma PassesKeep(w: World, regs: Regs, u: Unit, rest: seq<nat>, v: Version, cycle: int)
    requires UnitOk(w, regs, u, rest, u.issue.bus.Contents()) && u.issue.bus.CanAdd(BUS_LENGTH)
    requires Uncrossed(Cycle(v, cycle, u).issue.wires)
    ensures var t := Cycle(v, cycle, u);
            IssueOk(w, regs, t.issue, rest) && Extends(u.issue, t.issue) && KeptOk(w, t.issue, t.pendings)
            && NewIdle(|u.issue.issued|, t.issue.wires)
  {
    hide IssueOk, Fresh, Uncrossed, FromBus, FromPendings, KeptOk, Pushes, NewIdle, Stream;
    var first := |u.issue.issued|;
    var p := FromPendings(v, cycle, first, u.previous, [], u.issue, u.pendings);
    if u.pendings != [] { StreamPending(w, u); }
    OnePendingDecides(v, cycle, first, u.previous, u.issue, u.pendings);
    PendingsKeep(w, regs, u.issue, rest, v, cycle, u.previous, u.pendings);
    KeptIsIdle(w, u.issue, u.pendings);
    KnownFirst(u.previous, u.issue);
    PendingsKeepIdle(v, cycle, first, u.previous, u.issue, u.pendings);
    if !p.stop {
      var remaining := BUS_LENGTH - |u.issue.bus.buffer| - (|p.issue.issued| - first);
      var r := FromBus(v, cycle, first, u.previous, [], p.issue, [], u.inBus.queue, remaining);
      assert p.issue.issued + Runners([]) == p.issue.issued;
      StreamQueue(w, u, p.issue.issued);
      PushesGrow(first, u.issue, p.issue);
      QueueKeeps(w, regs, p.issue, rest, v, cycle, first, u.previous, u.inBus.queue, remaining);
      QueueKeepsIdle(v, cycle, first, u.previous, p.issue, u.inBus.queue, remaining);
      ExtendsCompose(u.issue, p.issue, r.0);
    }
  }

  lemma PushedIsBuffered(first: nat, s: Issue, s1: Issue)
    requires Pushes(first, s, s1) && first == |s.issued| && |s1.wires| == |s1.issued| && NewIdle(first, s1.wires)
    ensures Fresh(From(first, |s1.issued|), Buffered.Values(s1.bus.buffer), s1.wires)
  {
    var ids := From(first, |s1.issued|);
    assert s1.bus.Contents()[|s.bus.queue|..] == Buffered.Values(s1.bus.buffer);
    assert (s.bus.Contents() + ids)[|s.bus.queue|..] == Buffered.Values(s.bus.buffer) + ids;
  }

  /** A cycle of the control unit, as long as it lets no instruction both receive and forward. */
  lemma UnitKeeps(w: World, regs: Regs, u: Unit, rest: seq<nat>, v: Version, cycle: int)
    requires UnitOk(w, regs, u, rest, u.issue.bus.Contents())
    requires Uncrossed(Cycle(v, cycle, u).issue.wires)
    ensures var t := Cycle(v, cycle, u);
            UnitOk(w, regs, t, rest, Buffered.Values(t.issue.bus.buffer)) && Extends(u.issue, t.issue)
  {
    CycleIsInOrder(v, cycle, u);
    var t := Cycle(v, cycle, u);
    if u.issue.bus.CanAdd(BUS_LENGTH) {
      PassesKeep(w, regs, u, rest, v, cycle);
      hide IssueOk, Uncrossed, Cycle, Stream, Pushes, NewIdle, KeptOk, Fresh;
      PushedIsBuffered(|u.issue.issued|, u.issue, t.issue);
    }
  }
}
