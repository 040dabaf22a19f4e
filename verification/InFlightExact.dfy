/** MVP-6.1 hands out the right operands exactly while no forward is crossed: the equivalence for one forward, lifted to
    a cycle of the control unit and to whole runs. */
module InFlightExact {
  import opened Words
  import opened Isa
  import opened Pipeline
  import opened Scoreboard
  import opened Control
  import opened OutOfOrder
  import opened InFlight
  import opened InFlightIssue
  import opened InFlightControl
  import opened InFlightRun
  import opened InFlightTheorems
  import InFlightChains
  import Buffered = BufferedBus

  /** Each instruction on the execute bus reads its operands of program order from the registers, but the one that comes
      through its channel, and names that one as its maker does. */
  ghost predicate OperandsRight(w: World, regs: Regs, s: Issue) {
    |s.wires| <= |w.prog| < |w.states| && BusOk(w, regs, s.wires, s.channels, s.bus.Contents())
  }

  ghost predicate Exactly(w: World, regs: Regs, s: Issue, stop: bool) {
    && (OperandsRight(w, regs, s) <==> Uncrossed(s.wires))
    && (!stop ==> Uncrossed(s.wires))
  }

  lemma OkIsRight(w: World, regs: Regs, s: Issue, rest: seq<nat>)
    requires IssueOk(w, regs, s, rest)
    ensures OperandsRight(w, regs, s)
  {
    hide BusOk, Exact, Ordered, Settled, AllStillOld, Distinct, ChannelsCarry, Channelled;
  }

  // ---------------------------------------------------------------- one candidate

  lemma UncrossedGrows(wires: seq<Wire>, wire: Wire)
    requires wire.forwarder.None?
    ensures Uncrossed(wires + [wire]) <==> Uncrossed(wires)
  {
    if Uncrossed(wires + [wire]) { UncrossedPrefix(wires, wire); }
  }

  lemma LinkedUncrossed(s: Issue, c: Candidate, p: nat, r: Reg)
    requires p < |s.wires| && Uncrossed(s.wires)
    ensures Uncrossed(Link(s, c, p, r).0.wires) <==> s.wires[p].receiver.None?
  {
    assert Link(s, c, p, r).0.wires[p].forwarder.Some?;
  }

  lemma WrongStaysWrong(w: World, regs: Regs, s: Issue, c: Candidate, cycle: int)
    requires |s.wires| == |s.issued| < |w.prog| && !OperandsRight(w, regs, s)
             && (forall id :: id in s.bus.Contents() ==> id < |s.wires|)
    ensures !OperandsRight(w, regs, Push(s, c, cycle))
  {
    hide Waits, AddPending, Buffered.Add, Buffered.Values;
    var t := Push(s, c, cycle);
    var n: nat := |s.issued|;
    Buffered.AddContents(s.bus, n, cycle);
    assert t.bus.Contents() == s.bus.Contents() + [n] && t.wires == s.wires + [c.wire] && t.channels == s.channels;
    if OperandsRight(w, regs, t) {
      forall id | id in s.bus.Contents() ensures Waits(w, regs, s.channels, s.wires[id], id) {
        assert id in t.bus.Contents();
        assert t.wires[id] == s.wires[id];
      }
    }
  }

  /** One forward, and what is pushed with it. */
  lemma ForwardIsExact(w: World, regs: Regs, s: Issue, rest: seq<nat>, previous: seq<nat>, c: Candidate, p: nat, r: Reg,
                       cycle: int)
    requires Decided(w, regs, s, rest, previous, p, r) && c.runner == w.prog[|s.issued|]
    requires CandidateOk(w, s.channels, |s.issued|, c) && Uncrossed(s.wires)
    ensures p < |s.wires|
    ensures var (s1, c1) := Link(s, c, p, r);
            Exactly(w, regs, s1, true) && Exactly(w, regs, Push(s1, c1, cycle), true)
  {
    hide IssueOk, Decided, Uncrossed, OperandsRight, CandidateOk, Clear, Ready, Push, Buffered.Values;
    ForwardIsSound(w, regs, s, rest, previous, c, p, r);
    var (s1, c1) := Link(s, c, p, r);
    LinkedUncrossed(s, c, p, r);
    DecidedSizes(w, regs, s, rest, previous, p, r);
    NoForwarder(w, s, c);
    PushedWires(s1, c1, cycle);
    UncrossedGrows(s1.wires, c1.wire);
    if s.wires[p].receiver.None? {
      ForwardedHandleKeeps(w, regs, s, rest, previous, c, p, r, cycle);
      OkIsRight(w, regs, s1, rest);
      OkIsRight(w, regs, Push(s1, c1, cycle), rest);
    } else {
      NotRight(w, regs, s, s1);
      WrongStaysWrong(w, regs, s1, c1, cycle);
    }
  }

  lemma NoForwarder(w: World, s: Issue, c: Candidate)
    requires |s.issued| < |w.states| && CandidateOk(w, s.channels, |s.issued|, c)
    ensures c.wire.forwarder.None?
  {
  }

  lemma PushedWires(s: Issue, c: Candidate, cycle: int)
    ensures Push(s, c, cycle).wires == s.wires + [c.wire]
  {
  }

  lemma NotRight(w: World, regs: Regs, s: Issue, s1: Issue)
    requires s1.bus == s.bus && |s1.wires| <= |w.prog| < |w.states|
             && !BusOk(w, regs, s1.wires, s1.channels, s.bus.Contents())
    ensures !OperandsRight(w, regs, s1)
  {
  }

  lemma DecidedSizes(w: World, regs: Regs, s: Issue, rest: seq<nat>, previous: seq<nat>, p: nat, r: Reg)
    requires Decided(w, regs, s, rest, previous, p, r)
    ensures |s.wires| == |s.issued| < |w.prog| < |w.states| && forall id :: id in s.bus.Contents() ==> id < |s.wires|
  {
    hide BusOk, Exact, Ordered, Settled, AllStillOld, ChannelsCarry, Channelled, Fresh, Known, Hazards, Choose;
    forall id | id in s.bus.Contents() ensures id < |s.wires| { assert id in s.bus.Contents() + rest; }
  }

  lemma PlainIsExact(w: World, regs: Regs, s: Issue, rest: seq<nat>, c: Candidate, cycle: int)
    requires IssueOk(w, regs, s, rest) && |s.issued| < |w.prog| && c.runner == w.prog[|s.issued|] && Uncrossed(s.wires)
    requires CandidateOk(w, s.channels, |s.issued|, c) && Hazards(s.board, c.runner.instr) == []
    ensures Exactly(w, regs, Push(s, c, cycle), false)
  {
    PlainHandleKeeps(w, regs, s, rest, c, cycle);
    IssueOkSizes(w, regs, s, rest);
    hide IssueOk, Uncrossed, OperandsRight, Push, Hazards;
    OkIsRight(w, regs, Push(s, c, cycle), rest);
    PushedWires(s, c, cycle);
    UncrossedGrows(s.wires, c.wire);
  }

  lemma HandleIsExact(w: World, regs: Regs, s: Issue, rest: seq<nat>, cycle: int, first: nat, previous: seq<nat>,
                      c: Candidate)
    requires IssueOk(w, regs, s, rest) && Fresh(previous, s.bus.Contents(), s.wires) && Sized(s, previous)
    requires |s.issued| < |w.prog| && c.runner == w.prog[|s.issued|] && CandidateOk(w, s.channels, |s.issued|, c)
    requires Uncrossed(s.wires)
    ensures var h := Handle(Mvp61, cycle, first, previous, [], s, c); Exactly(w, regs, h.issue, h.stop)
  {
    hide IssueOk, Uncrossed, OperandsRight, CandidateOk, Push, Link, Hazards, Choose, IsBranch, Fresh, Clashes,
         Buffered.Values;
    OkIsRight(w, regs, s, rest);
    NothingClashes(c.runner.instr);
    var f := ShouldForward(previous, s, c.runner.instr);
    if Hazards(s.board, c.runner.instr) == [] {
      PlainIsExact(w, regs, s, rest, c, cycle);
    } else if f.Some? {
      assert Decided(w, regs, s, rest, previous, f.value.0, f.value.1);
      ForwardIsExact(w, regs, s, rest, previous, c, f.value.0, f.value.1, cycle);
    }
  }

  // ---------------------------------------------------------------- a cycle of the control unit

  lemma PendingsAreExact(w: World, regs: Regs, s: Issue, rest: seq<nat>, cycle: int, previous: seq<nat>,
                         cs: seq<Candidate>)
    requires IssueOk(w, regs, s, rest) && Fresh(previous, s.bus.Contents(), s.wires) && Sized(s, previous)
             && Uncrossed(s.wires)
    requires |cs| <= 1 && KeptOk(w, s, cs) && (cs != [] ==> |s.issued| < |w.prog| && cs[0].runner == w.prog[|s.issued|])
    ensures var p := FromPendings(Mvp61, cycle, |s.issued|, previous, [], s, cs); Exactly(w, regs, p.issue, p.stop)
  {
    hide IssueOk, Handle, CandidateOk, Uncrossed, Fresh, OperandsRight;
    OkIsRight(w, regs, s, rest);
    if cs != [] {
      assert cs[1..] == [];
      HandleIsExact(w, regs, s, rest, cycle, |s.issued|, previous, cs[0]);
      HandleDecides(Mvp61, cycle, |s.issued|, previous, s, cs[0]);
    }
  }

  lemma {:induction false} QueueIsExact(w: World, regs: Regs, s: Issue, rest: seq<nat>, cycle: int, first: nat,
                                        previous: seq<nat>, queue: seq<RunnerPc>, remaining: int)
    requires IssueOk(w, regs, s, rest) && Fresh(previous, s.bus.Contents(), s.wires) && Sized(s, previous)
             && first <= |s.issued|
    requires s.issued + queue <= w.prog && Uncrossed(s.wires)
    ensures Exactly(w, regs, FromBus(Mvp61, cycle, first, previous, [], s, [], queue, remaining).0, true)
    decreases |queue|
  {
    hide IssueOk, Handle, CandidateOk, Uncrossed, Fresh, OperandsRight;
    OkIsRight(w, regs, s, rest);
    if queue != [] {
      var c := Candidate(queue[0], NO_WIRE);
      var h := Handle(Mvp61, cycle, first, previous, [], s, c);
      StreamHead(w, s.issued, queue);
      HandleDecides(Mvp61, cycle, first, previous, s, c);
      FromBusUnfolds(Mvp61, cycle, first, previous, s, queue, remaining, h);
      IssueOkSizes(w, regs, s, rest);
      NewCandidate(w, s.channels, |s.issued|, queue[0]);
      hide FromBus;
      HandleIsExact(w, regs, s, rest, cycle, first, previous, c);
      if !h.stop {
        HandleKeeps(w, regs, s, rest, Mvp61, cycle, first, previous, c);
        QueueIsExact(w, regs, h.issue, rest, cycle, first, previous, queue[1..], remaining - 1);
      }
    }
  }

  /** After a cycle every instruction on the execute bus has the right operands, or one of them both receives and
      forwards. */
  lemma CycleIsExact(w: World, regs: Regs, u: Unit, rest: seq<nat>, cycle: int)
    requires UnitOk(w, regs, u, rest, u.issue.bus.Contents()) && Uncrossed(u.issue.wires)
    ensures Exactly(w, regs, Cycle(Mvp61, cycle, u).issue, true)
  {
    hide IssueOk, Fresh, Uncrossed, FromBus, FromPendings, KeptOk, Pushes, Stream, OperandsRight;
    OkIsRight(w, regs, u.issue, rest);
    if u.issue.bus.CanAdd(BUS_LENGTH) {
      var first := |u.issue.issued|;
      var p := FromPendings(Mvp61, cycle, first, u.previous, [], u.issue, u.pendings);
      if u.pendings != [] { StreamPending(w, u); }
      OnePendingDecides(Mvp61, cycle, first, u.previous, u.issue, u.pendings);
      PendingsAreExact(w, regs, u.issue, rest, cycle, u.previous, u.pendings);
      if !p.stop {
        var remaining := BUS_LENGTH - |u.issue.bus.buffer| - (|p.issue.issued| - first);
        assert p.issue.issued + Runners([]) == p.issue.issued;
        StreamQueue(w, u, p.issue.issued);
        PushesGrow(first, u.issue, p.issue);
        PendingsKeep(w, regs, u.issue, rest, Mvp61, cycle, u.previous, u.pendings);
        QueueIsExact(w, regs, p.issue, rest, cycle, first, u.previous, u.inBus.queue, remaining);
      }
    }
  }

  lemma StageIsExact(w: World, s: Core, cycle: int, fed: seq<RunnerPc>)
    requires Inv(w, s) && Stream(s.unit) + fed <= w.prog && Valid(s.unit) && Uncrossed(s.unit.issue.wires)
    ensures Exactly(w, s.regs, IssueStage(Mvp61, cycle, s, fed).unit.issue, true)
  {
    hide Cycle, IssueOk, Fresh, KeptOk, UnitsOk, CacheOk, Stream, Uncrossed, OperandsRight, Rest, Buffered.AddAll,
         Buffered.Values;
    var u := Arrived(s.unit, cycle, fed);
    ConnectedOk(w, s.regs, s.unit, Rest(s.eu0, s.eu1, s.out), cycle, fed);
    CycleIsExact(w, s.regs, u, Rest(s.eu0, s.eu1, s.out), cycle);
  }

  // ---------------------------------------------------------------- runs

  /** In the k-th cycle, once the control unit has issued. */
  ghost predicate HandsRight(w: World, from: Beginning, feeds: seq<seq<RunnerPc>>, k: nat)
    requires k < |feeds|
  {
    var before := CoreAfter(Mvp61, w.labels, from, feeds[..k]);
    && before.Some? && Valid(before.value.unit)
    && OperandsRight(w, before.value.regs, IssueStage(Mvp61, from.cycle + k + 1, before.value, feeds[k]).unit.issue)
  }

  ghost predicate AlwaysHandsRight(w: World, from: Beginning, feeds: seq<seq<RunnerPc>>) {
    forall k :: 0 <= k < |feeds| ==> HandsRight(w, from, feeds, k)
  }

  /** Before the cycle that crosses first, nothing is crossed. */
  lemma UncrossedSoFar(w: World, from: Beginning, feeds: seq<seq<RunnerPc>>)
    requires Sequentially(w) && Begins(from, w.states[0], w.memory) && Delivered(feeds) <= w.prog
    requires SafeMisses(Mvp61, w, from, feeds)
    requires NeverCrosses(Mvp61, w.labels, from, feeds)
    ensures var s := CoreAfter(Mvp61, w.labels, from, feeds); s.Some? && Uncrossed(s.value.unit.issue.wires)
  {
    hide Sequentially, Inv, Stream, CoreCycle, IssueStage, Uncrossed, Begins;
    SequentiallySizes(w);
    RunKeeps(w, Mvp61, from, feeds);
    if feeds == [] {
      BeginsUncrossed(from, w.states[0], w.memory);
    } else {
      var last := |feeds| - 1;
      NeverCrossesPrefix(Mvp61, w.labels, from, feeds);
      SafeMissesPrefix(Mvp61, w, from, feeds);
      DeliveredPrefix(w, feeds);
      RunKeeps(w, Mvp61, from, feeds[..last]);
      var s := CoreAfter(Mvp61, w.labels, from, feeds[..last]).value;
      InvIsValid(w, s);
      assert NoCrossing(Mvp61, w.labels, from, feeds, last);
      InFlightChains.ExecutionKeepsPrevious(Mvp61, w.labels, from.cycle + |feeds|, s, feeds[last]);
    }
  }

  lemma BeginsUncrossed(from: Beginning, regs: Regs, memory: seq<Byte>)
    requires Begins(from, regs, memory)
    ensures Uncrossed(from.core.unit.issue.wires)
  {
  }

  lemma DeliveredPrefix(w: World, feeds: seq<seq<RunnerPc>>)
    requires feeds != [] && Delivered(feeds) <= w.prog
    ensures Delivered(feeds[..|feeds| - 1]) <= w.prog
    ensures Delivered(feeds[..|feeds| - 1]) + feeds[|feeds| - 1] <= w.prog
  {
  }

  lemma HandsRightPrefix(w: World, from: Beginning, feeds: seq<seq<RunnerPc>>)
    requires feeds != []
    ensures AlwaysHandsRight(w, from, feeds)
       <==> AlwaysHandsRight(w, from, feeds[..|feeds| - 1]) && HandsRight(w, from, feeds, |feeds| - 1)
  {
    hide CoreAfter, IssueStage, OperandsRight;
    var shorter := feeds[..|feeds| - 1];
    forall k | 0 <= k < |shorter| ensures HandsRight(w, from, shorter, k) <==> HandsRight(w, from, feeds, k) {
      assert shorter[..k] == feeds[..k];
    }
    hide HandsRight;
  }

  lemma CrossesPrefix(w: World, from: Beginning, feeds: seq<seq<RunnerPc>>)
    requires feeds != []
    ensures NeverCrosses(Mvp61, w.labels, from, feeds)
       <==>
         && NeverCrosses(Mvp61, w.labels, from, feeds[..|feeds| - 1])
         && NoCrossing(Mvp61, w.labels, from, feeds, |feeds| - 1)
  {
    if NeverCrosses(Mvp61, w.labels, from, feeds) {
      NeverCrossesPrefix(Mvp61, w.labels, from, feeds);
    } else if NeverCrosses(Mvp61, w.labels, from, feeds[..|feeds| - 1])
    && NoCrossing(Mvp61, w.labels, from, feeds, |feeds| - 1) {
      InFlightChains.NeverCrossesMore(w.labels, from, feeds);
    }
    hide NoCrossing;
  }

  /** In every cycle of a run MVP-6.1 gives each instruction on the execute bus the operands of program order if and
      only if in no cycle does it make an instruction forward that itself receives. */
  lemma {:induction false} NeverCrossesIsExact(w: World, from: Beginning, feeds: seq<seq<RunnerPc>>)
    requires Sequentially(w) && Begins(from, w.states[0], w.memory) && Delivered(feeds) <= w.prog
    requires SafeMisses(Mvp61, w, from, feeds)
    ensures NeverCrosses(Mvp61, w.labels, from, feeds) <==> AlwaysHandsRight(w, from, feeds)
  {
    hide Sequentially, Inv, Stream, CoreAfter, CoreCycle, IssueStage, Uncrossed, Begins, OperandsRight, NeverCrosses,
         SafeMisses, AlwaysHandsRight;
    if feeds == [] {
      NothingToCross(w, from);
    } else {
      var last := |feeds| - 1;
      DeliveredPrefix(w, feeds);
      SafeMissesPrefix(Mvp61, w, from, feeds);
      NeverCrossesIsExact(w, from, feeds[..last]);
      HandsRightPrefix(w, from, feeds);
      CrossesPrefix(w, from, feeds);
      if NeverCrosses(Mvp61, w.labels, from, feeds[..last]) {
        RunKeeps(w, Mvp61, from, feeds[..last]);
        UncrossedSoFar(w, from, feeds[..last]);
        var s := CoreAfter(Mvp61, w.labels, from, feeds[..last]).value;
        InvIsValid(w, s);
        StageIsExact(w, s, from.cycle + |feeds|, feeds[last]);
      }
    }
  }

  lemma NothingToCross(w: World, from: Beginning)
    ensures NeverCrosses(Mvp61, w.labels, from, []) && AlwaysHandsRight(w, from, [])
  {
  }
}
