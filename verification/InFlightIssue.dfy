/** Issuing keeps the invariant of the out-of-order cores. */
module InFlightIssue {
  import opened Words
  import opened Isa
  import opened Pipeline
  import opened Scoreboard
  import opened Control
  import opened OutOfOrder
  import opened InFlight
  import Buffered = BufferedBus

  // ---------------------------------------------------------------- what the scoreboard tells

  ghost predicate Clear(w: World, channels: seq<Channel>, flight: seq<nat>, n: nat, wire: Wire)
    requires n < |w.prog|
  {
    forall i :: i in flight && i < n ==> OnlyThrough(w.prog[i].instr, w.prog[n].instr, Via(wire, channels, i))
  }

  lemma WeakerThrough(a: Instr, b: Instr, r: Reg)
    requires OnlyThrough(a, b, ZERO)
    ensures OnlyThrough(a, b, r)
  {
  }

  /** Without hazards nothing in flight conflicts with the next instruction, and its operands are final. */
  lemma NoHazardIsClear(w: World, regs: Regs, s: Issue, rest: seq<nat>, wire: Wire)
    requires IssueOk(w, regs, s, rest) && |s.issued| < |w.prog|
    requires Hazards(s.board, w.prog[|s.issued|].instr) == []
    ensures Clear(w, s.channels, s.bus.Contents() + rest, |s.issued|, wire)
    ensures Ready(w, regs, s.channels, wire, |s.issued|)
  {
    var flight, n := s.bus.Contents() + rest, |s.issued|;
    var x := w.prog[n].instr;
    forall i | i in flight && i < n ensures OnlyThrough(w.prog[i].instr, x, ZERO) {
      forall q: Reg | q != ZERO
        ensures q in WriteRegisters(w.prog[i].instr) ==> q !in WriteRegisters(x) && q !in ReadRegisters(x)
        ensures q in ReadRegisters(w.prog[i].instr) ==> q !in WriteRegisters(x)
      {
        NoHazardOn(s.board, s.issued, flight, x, q);
        assert s.issued[i] == w.prog[i];
      }
    }
    forall i | i in flight && i < n ensures OnlyThrough(w.prog[i].instr, x, Via(wire, s.channels, i)) {
      WeakerThrough(w.prog[i].instr, x, Via(wire, s.channels, i));
    }
    forall r: Reg | r != ZERO && r in ReadRegisters(x) ensures Read(regs, r) == Read(w.states[n], r) {
      NoHazardOn(s.board, s.issued, flight, x, r);
      assert Unclaimed(w, flight, r);
    }
  }

  lemma NoHazardOn(b: Board, issued: seq<RunnerPc>, flight: seq<nat>, x: Instr, q: Reg)
    requires Exact(b, issued, flight) && (forall id :: id in flight ==> id < |issued|)
    requires Hazards(b, x) == [] && q != ZERO
    ensures q in ReadRegisters(x) ==> forall id :: id in flight ==> q !in WriteRegisters(issued[id].instr)
    ensures q in WriteRegisters(x) ==>
      forall id :: id in flight ==> q !in WriteRegisters(issued[id].instr) && q !in ReadRegisters(issued[id].instr)
  {
    HazardsAreExact(b, x, Hazard(ReadAfterWrite, q));
    HazardsAreExact(b, x, Hazard(WriteAfterWrite, q));
    HazardsAreExact(b, x, Hazard(WriteAfterRead, q));
    PendingMeansInFlight(b, issued, flight, q);
  }

  // ---------------------------------------------------------------- a push

  lemma FlightGrows(bus: Buffered.Bus<nat>, rest: seq<nat>, n: nat, cycle: int)
    requires Distinct(bus.Contents() + rest, n)
    ensures var flight1 := Buffered.Add(bus, n, cycle).Contents() + rest;
            && multiset(flight1) == multiset(bus.Contents() + rest) + multiset{n}
            && Distinct(flight1, n + 1)
            && forall id :: id in flight1 <==> id in bus.Contents() + rest || id == n
  {
    Buffered.AddContents(bus, n, cycle);
    var flight1 := Buffered.Add(bus, n, cycle).Contents() + rest;
    assert multiset(flight1) == multiset(bus.Contents()) + multiset{n} + multiset(rest);
    assert n !in bus.Contents() + rest;
    assert n !in multiset(bus.Contents() + rest);
    forall id ensures id in flight1 <==> id in bus.Contents() + rest || id == n {
      assert id in flight1 <==> id in multiset(flight1);
      assert id in bus.Contents() + rest <==> id in multiset(bus.Contents() + rest);
    }
  }

  lemma OrderedGrows(w: World, wires: seq<Wire>, channels: seq<Channel>, flight: seq<nat>, flight1: seq<nat>,
                     wire: Wire)
    requires |wires| < |w.prog| && Ordered(w, wires, channels, flight)
    requires Clear(w, channels, flight, |wires|, wire)
    requires forall id :: id in flight1 <==> id in flight || id == |wires|
    ensures Ordered(w, wires + [wire], channels, flight1)
  {
  }

  lemma SettledGrows(w: World, regs: Regs, n: nat, flight: seq<nat>, flight1: seq<nat>)
    requires Sequentially(w) && n < |w.prog| && Settled(w, regs, n, flight)
    requires forall id :: id in flight1 <==> id in flight || id == n
    ensures Settled(w, regs, n + 1, flight1)
  {
    ExeShape(w, n);
    forall r: Reg | r != ZERO && Unclaimed(w, flight1, r) ensures Read(regs, r) == Read(w.states[n + 1], r) {
      assert Unclaimed(w, flight, r) && r !in Writes(w, n);
    }
  }

  lemma StillOldGrows(w: World, regs: Regs, channels: seq<Channel>, n: nat, flight: seq<nat>, wire: Wire,
                      flight1: seq<nat>)
    requires n < |w.prog| < |w.states| && Settled(w, regs, n, flight) && AllStillOld(w, regs, flight)
    requires Clear(w, channels, flight, n, wire) && (forall id :: id in flight ==> id < n)
    requires forall id :: id in flight1 <==> id in flight || id == n
    ensures AllStillOld(w, regs, flight1)
  {
    forall r: Reg | r != ZERO && r in Writes(w, n) ensures Read(regs, r) == Read(w.states[n], r) {
      forall i | i in flight && i < |w.prog| ensures r !in Writes(w, i) {
        assert OnlyThrough(w.prog[i].instr, w.prog[n].instr, Via(wire, channels, i));
      }
      assert Unclaimed(w, flight, r);
    }
    assert StillOld(w, regs, n);
    hide StillOld, Settled, Clear;
  }

  lemma BusGrows(w: World, regs: Regs, wires: seq<Wire>, channels: seq<Channel>, ids: seq<nat>, wire: Wire,
                 ids1: seq<nat>)
    requires |wires| < |w.prog| < |w.states| && BusOk(w, regs, wires, channels, ids)
    requires Waits(w, regs, channels, wire, |wires|)
    requires forall id :: id in ids1 <==> id in ids || id == |wires|
    ensures BusOk(w, regs, wires + [wire], channels, ids1)
  {
    hide Waits;
  }

  lemma ChannelsGrow(w: World, wires: seq<Wire>, channels: seq<Channel>, wire: Wire)
    requires |wires| < |w.prog| < |w.states| && ChannelsCarry(w, channels, |wires|) && Channelled(wires, channels)
    requires Receives(w, channels, wire, |wires|)
    ensures ChannelsCarry(w, channels, |wires| + 1) && Channelled(wires + [wire], channels)
  {
  }

  lemma PushKeeps(w: World, regs: Regs, s: Issue, rest: seq<nat>, c: Candidate, cycle: int)
    requires IssueOk(w, regs, s, rest) && |s.issued| < |w.prog| && c.runner == w.prog[|s.issued|]
    requires CandidateOk(w, s.channels, |s.issued|, c)
    requires Clear(w, s.channels, s.bus.Contents() + rest, |s.issued|, c.wire)
             && Ready(w, regs, s.channels, c.wire, |s.issued|)
    ensures IssueOk(w, regs, Push(s, c, cycle), rest)
  {
    hide Exact, Ordered, Settled, AllStillOld, Sequentially, Distinct, Ready, Receives, ChannelsCarry, Channelled,
         BusOk, Clear, AddPending, Buffered.Add, Buffered.Values, Sends;
    var n: nat := |s.issued|;
    var s1 := Push(s, c, cycle);
    var flight, flight1 := s.bus.Contents() + rest, s1.bus.Contents() + rest;
    DistinctIsBounded(flight, n);
    FlightGrows(s.bus, rest, n, cycle);
    IssueKeepsExact(s.board, s.issued, flight, c.runner, flight1);
    OrderedGrows(w, s.wires, s.channels, flight, flight1, c.wire);
    SequentiallySizes(w);
    SettledGrows(w, regs, n, flight, flight1);
    StillOldGrows(w, regs, s.channels, n, flight, c.wire, flight1);
    Buffered.AddContents(s.bus, n, cycle);
    NoSends(s.channels, c.wire, n);
    BusGrows(w, regs, s.wires, s.channels, s.bus.Contents(), c.wire, s1.bus.Contents());
    ChannelsGrow(w, s.wires, s.channels, c.wire);
    assert s1.issued == w.prog[..n + 1];
  }

  lemma DistinctIsBounded(flight: seq<nat>, n: nat)
    requires Distinct(flight, n)
    ensures forall id :: id in flight ==> id < n
  {
  }

  lemma NoSends(channels: seq<Channel>, wire: Wire, id: nat)
    requires wire.forwarder.None?
    ensures Sends(channels, wire, id)
  {
  }

  // ---------------------------------------------------------------- a forward

  lemma LinkOrdered(w: World, s: Issue, flight: seq<nat>, c: Candidate, p: nat, r: Reg)
    requires |s.wires| <= |w.prog| && p < |s.wires| && Channelled(s.wires, s.channels)
    requires Ordered(w, s.wires, s.channels, flight)
    ensures var s1 := Link(s, c, p, r).0; Ordered(w, s1.wires, s1.channels, flight) && Channelled(s1.wires, s1.channels)
  {
    var s1 := Link(s, c, p, r).0;
    forall i, j | i in flight && i < j < |s.wires|
      ensures OnlyThrough(w.prog[i].instr, w.prog[j].instr, Via(s1.wires[j], s1.channels, i))
    {
      assert Via(s1.wires[j], s1.channels, i) == Via(s.wires[j], s.channels, i);
    }
    hide OnlyThrough;
  }

  lemma LinkChannels(w: World, s: Issue, c: Candidate, p: nat, r: Reg)
    requires |s.wires| <= |w.prog| < |w.states| && p < |s.wires| && ChannelsCarry(w, s.channels, |s.wires|)
    requires r != ZERO && Writes(w, p) == [r]
    ensures ChannelsCarry(w, Link(s, c, p, r).0.channels, |s.wires|)
  {
  }

  lemma LinkBus(w: World, regs: Regs, s: Issue, c: Candidate, p: nat, r: Reg, ids: seq<nat>)
    requires |s.wires| <= |w.prog| < |w.states| && p < |s.wires| && BusOk(w, regs, s.wires, s.channels, ids)
    requires s.wires[p].receiver.None?
    ensures var s1 := Link(s, c, p, r).0; BusOk(w, regs, s1.wires, s1.channels, ids)
  {
    var s1 := Link(s, c, p, r).0;
    forall id | id in ids ensures Waits(w, regs, s1.channels, s1.wires[id], id) {
      assert Waits(w, regs, s.channels, s.wires[id], id);
    }
  }

  /** The channel changes nothing for those who are not at its ends. */
  lemma LinkKeeps(w: World, regs: Regs, s: Issue, rest: seq<nat>, c: Candidate, p: nat, r: Reg)
    requires IssueOk(w, regs, s, rest) && |s.issued| < |w.prog|
    requires p in s.bus.Contents() && p < |s.wires| && s.wires[p].forwarder.None? && s.wires[p].receiver.None?
    requires r != ZERO && Writes(w, p) == [r]
    ensures IssueOk(w, regs, Link(s, c, p, r).0, rest)
  {
    hide Exact, Ordered, Settled, AllStillOld, Sequentially, Distinct, ChannelsCarry, Channelled, BusOk,
         Buffered.Values;
    SequentiallySizes(w);
    LinkOrdered(w, s, s.bus.Contents() + rest, c, p, r);
    LinkChannels(w, s, c, p, r);
    LinkBus(w, regs, s, c, p, r, s.bus.Contents());
  }

  lemma {:induction false} ChooseShares(previous: seq<nat>, issued: seq<RunnerPc>, i: Instr)
    requires Known(previous, |issued|)
    ensures var c := Choose(previous, issued, i);
            c.Some? ==>
              && c.value.1 != ZERO && c.value.1 in ReadRegisters(i)
              && c.value.1 in WriteRegisters(issued[c.value.0].instr)
  {
    if previous != [] {
      SharedIsShared(WriteRegisters(issued[previous[0]].instr), ReadRegisters(i));
      ChooseShares(previous[1..], issued, i);
    }
  }

  lemma OnlyHazard(b: Board, issued: seq<RunnerPc>, flight: seq<nat>, x: Instr, r: Reg, q: Reg)
    requires Exact(b, issued, flight) && (forall id :: id in flight ==> id < |issued|)
    requires |Hazards(b, x)| == 1 && Hazard(ReadAfterWrite, r) in Hazards(b, x) && q != ZERO
    ensures q in ReadRegisters(x) && q != r ==> forall id :: id in flight ==> q !in WriteRegisters(issued[id].instr)
    ensures q in WriteRegisters(x) ==>
      forall id :: id in flight ==> q !in WriteRegisters(issued[id].instr) && q !in ReadRegisters(issued[id].instr)
  {
    HazardsAreExact(b, x, Hazard(ReadAfterWrite, q));
    HazardsAreExact(b, x, Hazard(WriteAfterWrite, q));
    HazardsAreExact(b, x, Hazard(WriteAfterRead, q));
    PendingMeansInFlight(b, issued, flight, q);
  }

  /** The decision to forward. */
  ghost predicate Decided(w: World, regs: Regs, s: Issue, rest: seq<nat>, previous: seq<nat>, p: nat, r: Reg) {
    && IssueOk(w, regs, s, rest) && |s.issued| < |w.prog|
    && Fresh(previous, s.bus.Contents(), s.wires) && Known(previous, |s.issued|)
    && ShouldForward(previous, s, w.prog[|s.issued|].instr) == Some((p, r))
  }

  lemma DecidedFacts(w: World, regs: Regs, s: Issue, rest: seq<nat>, previous: seq<nat>, p: nat, r: Reg)
    requires Decided(w, regs, s, rest, previous, p, r)
    ensures p in s.bus.Contents() && p < |s.wires| && s.wires[p].forwarder.None?
    ensures r != ZERO && r in Reads(w, |s.issued|) && Writes(w, p) == [r] && r !in Writes(w, |s.issued|)
    ensures var hs := Hazards(s.board, w.prog[|s.issued|].instr); |hs| == 1 && Hazard(ReadAfterWrite, r) in hs
  {
    var n := |s.issued|;
    var x := w.prog[n].instr;
    ChooseShares(previous, s.issued, x);
    assert s.issued[p] == w.prog[p];
    var k :| 0 <= k < |previous| && previous[k] == p;
    HazardsAreExact(s.board, x, Hazard(ReadAfterWrite, r));
    PendingMeansInFlight(s.board, s.issued, s.bus.Contents() + rest, r);
    assert p in s.bus.Contents() + rest;
    OnlyHazard(s.board, s.issued, s.bus.Contents() + rest, x, r, r);
  }

  lemma OneWriter(w: World, wires: seq<Wire>, channels: seq<Channel>, flight: seq<nat>, i: nat, j: nat, r: Reg)
    requires |wires| <= |w.prog| && Ordered(w, wires, channels, flight) && i in flight && i < j < |wires|
    requires r != ZERO && r in Writes(w, i)
    ensures r !in Writes(w, j)
  {
    assert OnlyThrough(w.prog[i].instr, w.prog[j].instr, Via(wires[j], channels, i));
  }

  lemma SoleWriter(w: World, wires: seq<Wire>, channels: seq<Channel>, flight: seq<nat>, p: nat, r: Reg)
    requires |wires| <= |w.prog| && Ordered(w, wires, channels, flight) && p in flight && r != ZERO
    requires (forall i :: i in flight ==> i < |wires|) && r in Writes(w, p)
    ensures forall i :: i in flight && r in Writes(w, i) ==> i == p
    ensures forall j :: p < j < |wires| ==> r !in Writes(w, j)
  {
    forall i | i in flight && r in Writes(w, i) ensures i == p {
      if i < p { OneWriter(w, wires, channels, flight, i, p, r); }
      if p < i { OneWriter(w, wires, channels, flight, p, i, r); }
    }
    forall j | p < j < |wires| ensures r !in Writes(w, j) { OneWriter(w, wires, channels, flight, p, j, r); }
  }

  /** The chosen producer has not left the execute bus, so its channel is set before it runs; it has no other consumer,
      and it is the one instruction in flight that writes the register. */
  lemma ChosenProducer(w: World, regs: Regs, s: Issue, rest: seq<nat>, previous: seq<nat>, p: nat, r: Reg)
    requires Decided(w, regs, s, rest, previous, p, r)
    ensures p in s.bus.Contents() && p < |s.wires| && s.wires[p].forwarder.None?
    ensures r != ZERO && r in Reads(w, |s.issued|) && Writes(w, p) == [r] && r !in Writes(w, |s.issued|)
    ensures forall i :: i in s.bus.Contents() + rest && r in Writes(w, i) ==> i == p
    ensures Read(w.states[p + 1], r) == Read(w.states[|s.issued|], r)
  {
    hide Exact, Settled, AllStillOld, ChannelsCarry, Channelled, BusOk, Fresh, Known, Hazards, Choose, OnlyThrough,
         Buffered.Values, Read;
    DecidedFacts(w, regs, s, rest, previous, p, r);
    var flight := s.bus.Contents() + rest;
    assert p in flight;
    SoleWriter(w, s.wires, s.channels, flight, p, r);
    hide Ordered;
    Unwritten(w, p + 1, |s.issued|, r);
  }

  lemma DecidedIsClear(w: World, regs: Regs, s: Issue, rest: seq<nat>, previous: seq<nat>, p: nat, r: Reg, s1: Issue,
                       c: Candidate)
    requires Decided(w, regs, s, rest, previous, p, r)
    requires (s1, c) == Link(s, Candidate(w.prog[|s.issued|], c.wire), p, r)
    ensures Clear(w, s1.channels, s1.bus.Contents() + rest, |s.issued|, c.wire)
    ensures Ready(w, regs, s1.channels, c.wire, |s.issued|)
  {
    ChosenProducer(w, regs, s, rest, previous, p, r);
    DecidedFacts(w, regs, s, rest, previous, p, r);
    var flight, n := s.bus.Contents() + rest, |s.issued|;
    var x := w.prog[n].instr;
    forall i | i in flight && i < n ensures OnlyThrough(w.prog[i].instr, x, Via(c.wire, s1.channels, i)) {
      assert s.issued[i] == w.prog[i];
      assert Via(c.wire, s1.channels, i) == if i == p then r else ZERO;
      forall q: Reg | q != ZERO
        ensures q in WriteRegisters(w.prog[i].instr) ==>
                  q !in WriteRegisters(x) && (q in ReadRegisters(x) ==> q == r && i == p)
        ensures q in ReadRegisters(w.prog[i].instr) ==> q !in WriteRegisters(x)
      {
        OnlyHazard(s.board, s.issued, flight, x, r, q);
      }
    }
    forall q: Reg | q != ZERO && q in ReadRegisters(x) && q != r ensures Read(regs, q) == Read(w.states[n], q) {
      OnlyHazard(s.board, s.issued, flight, x, r, q);
      assert Unclaimed(w, flight, q);
    }
  }

  // ---------------------------------------------------------------- one candidate

  /** Channels are only added, and no issued instruction changes its receiver. */
  ghost predicate Extends(s: Issue, s1: Issue) {
    && |s.wires| <= |s1.wires| && s.channels <= s1.channels
    && (forall j :: 0 <= j < |s.wires| ==> s1.wires[j].receiver == s.wires[j].receiver)
  }

  lemma PlainHandleKeeps(w: World, regs: Regs, s: Issue, rest: seq<nat>, c: Candidate, cycle: int)
    requires IssueOk(w, regs, s, rest) && |s.issued| < |w.prog| && c.runner == w.prog[|s.issued|]
    requires CandidateOk(w, s.channels, |s.issued|, c) && Hazards(s.board, c.runner.instr) == []
    ensures IssueOk(w, regs, Push(s, c, cycle), rest) && Extends(s, Push(s, c, cycle))
  {
    NoHazardIsClear(w, regs, s, rest, c.wire);
    PushKeeps(w, regs, s, rest, c, cycle);
  }

  lemma CandidateWithMore(w: World, channels: seq<Channel>, more: seq<Channel>, n: nat, c: Candidate)
    requires n < |w.states| && CandidateOk(w, channels, n, c)
    ensures CandidateOk(w, channels + more, n, c)
  {
  }

  lemma LinkedCandidate(w: World, regs: Regs, s: Issue, rest: seq<nat>, previous: seq<nat>, c: Candidate, p: nat,
                        r: Reg)
    requires Decided(w, regs, s, rest, previous, p, r) && c.runner == w.prog[|s.issued|]
    requires CandidateOk(w, s.channels, |s.issued|, c)
    requires p < |s.wires| && Uncrossed(Link(s, c, p, r).0.wires)
    ensures var (s1, c1) := Link(s, c, p, r);
            && IssueOk(w, regs, s1, rest)
            && CandidateOk(w, s1.channels, |s1.issued|, c1) && CandidateOk(w, s1.channels, |s1.issued|, c)
            && Clear(w, s1.channels, s1.bus.Contents() + rest, |s1.issued|, c1.wire)
            && Ready(w, regs, s1.channels, c1.wire, |s1.issued|)
  {
    hide IssueOk, Clear, Ready, Decided, Uncrossed, Buffered.Values, Carries, Receives;
    ChosenProducer(w, regs, s, rest, previous, p, r);
    DecidedIsIssueOk(w, regs, s, rest, previous, p, r);
    var (s1, c1) := Link(s, c, p, r);
    UncrossedProducer(s, c, p, r);
    assert Candidate(c.runner, c.wire) == c;
    DecidedIsClear(w, regs, s, rest, previous, p, r, s1, c1);
    LinkKeeps(w, regs, s, rest, c, p, r);
    CandidateWithMore(w, s.channels, [Channel(p, r, None)], |s.issued|, c);
    LinkedReceives(w, s, c, p, r);
  }

  lemma UncrossedProducer(s: Issue, c: Candidate, p: nat, r: Reg)
    requires p < |s.wires| && Uncrossed(Link(s, c, p, r).0.wires)
    ensures s.wires[p].receiver.None?
  {
    var s1 := Link(s, c, p, r).0;
    assert s1.wires[p].forwarder.Some? && s1.wires[p].receiver == s.wires[p].receiver;
  }

  lemma LinkedReceives(w: World, s: Issue, c: Candidate, p: nat, r: Reg)
    requires p < |s.wires| && p < |s.issued| < |w.prog| < |w.states|
             && Read(w.states[p + 1], r) == Read(w.states[|s.issued|], r)
    requires r !in Writes(w, |s.issued|)
    ensures var (s1, c1) := Link(s, c, p, r); Receives(w, s1.channels, c1.wire, |s.issued|)
  {
  }

  lemma DecidedIsIssueOk(w: World, regs: Regs, s: Issue, rest: seq<nat>, previous: seq<nat>, p: nat, r: Reg)
    requires Decided(w, regs, s, rest, previous, p, r)
    ensures IssueOk(w, regs, s, rest) && |s.wires| == |s.issued| < |w.prog| < |w.states|
  {
  }

  lemma LinkExtends(s: Issue, c: Candidate, p: nat, r: Reg, cycle: int)
    requires p < |s.wires| && c.wire.forwarder.None?
    ensures var (s1, c1) := Link(s, c, p, r); Extends(s, s1) && Extends(s, Push(s1, c1, cycle))
  {
  }

  lemma ForwardedHandleKeeps(w: World, regs: Regs, s: Issue, rest: seq<nat>, previous: seq<nat>, c: Candidate, p: nat,
                             r: Reg, cycle: int)
    requires Decided(w, regs, s, rest, previous, p, r) && c.runner == w.prog[|s.issued|]
    requires CandidateOk(w, s.channels, |s.issued|, c)
    requires p < |s.wires| && Uncrossed(Link(s, c, p, r).0.wires)
    ensures var (s1, c1) := Link(s, c, p, r);
            && IssueOk(w, regs, s1, rest) && Extends(s, s1)
            && CandidateOk(w, s1.channels, |s1.issued|, c1) && CandidateOk(w, s1.channels, |s1.issued|, c)
            && IssueOk(w, regs, Push(s1, c1, cycle), rest) && Extends(s, Push(s1, c1, cycle))
  {
    LinkedCandidate(w, regs, s, rest, previous, c, p, r);
    DecidedIsIssueOk(w, regs, s, rest, previous, p, r);
    LinkExtends(s, c, p, r, cycle);
    var (s1, c1) := Link(s, c, p, r);
    hide IssueOk, Clear, Ready, Uncrossed, Decided, Receives, Push, Extends, Buffered.Values;
    PushKeeps(w, regs, s1, rest, c1, cycle);
  }

  /** What handling one candidate, or several, leaves. */
  ghost predicate Handles(w: World, regs: Regs, s: Issue, rest: seq<nat>, previous: seq<nat>, s1: Issue, stop: bool) {
    && IssueOk(w, regs, s1, rest) && Extends(s, s1)
    && (!stop ==> Fresh(previous, s1.bus.Contents(), s1.wires))
  }

  lemma HandleKeeps(w: World, regs: Regs, s: Issue, rest: seq<nat>, v: Version, cycle: int, first: nat,
                    previous: seq<nat>, c: Candidate)
    requires IssueOk(w, regs, s, rest) && Fresh(previous, s.bus.Contents(), s.wires) && Sized(s, previous)
    requires |s.issued| < |w.prog| && c.runner == w.prog[|s.issued|] && CandidateOk(w, s.channels, |s.issued|, c)
    requires var h := Handle(v, cycle, first, previous, [], s, c); h.stop ==> Uncrossed(h.issue.wires)
    ensures var h := Handle(v, cycle, first, previous, [], s, c);
            && Handles(w, regs, s, rest, previous, h.issue, h.stop)
            && (!h.push ==> CandidateOk(w, h.issue.channels, |h.issue.issued|, h.candidate)
                            && CandidateOk(w, h.issue.channels, |h.issue.issued|, c))
  {
    var i := c.runner.instr;
    var f := if v == Mvp61 then ShouldForward(previous, s, i) else None;
    assert !Clashes([], i);
    if |s.issued| > first && IsBranch(i) {
    } else if Hazards(s.board, i) == [] {
      PlainHandleKeeps(w, regs, s, rest, c, cycle);
      PushStaysFresh(s, c, cycle, previous);
    } else if f.Some? {
      assert Decided(w, regs, s, rest, previous, f.value.0, f.value.1);
      var (s1, c1) := Link(s, c, f.value.0, f.value.1);
      if s1.bus.CanAdd(BUS_LENGTH) { UncrossedPrefix(s1.wires, c1.wire); }
      ForwardedHandleKeeps(w, regs, s, rest, previous, c, f.value.0, f.value.1, cycle);
    }
    hide IssueOk, Push, Link, Hazards, Choose, Uncrossed, CandidateOk, IsBranch;
  }

  lemma PushStaysFresh(s: Issue, c: Candidate, cycle: int, previous: seq<nat>)
    requires Fresh(previous, s.bus.Contents(), s.wires)
    ensures var s1 := Push(s, c, cycle); Fresh(previous, s1.bus.Contents(), s1.wires)
  {
    var n: nat := |s.issued|;
    Buffered.AddContents(s.bus, n, cycle);
    hide Buffered.Add, AddPending;
  }

  lemma UncrossedPrefix(wires: seq<Wire>, wire: Wire)
    requires Uncrossed(wires + [wire])
    ensures Uncrossed(wires)
  {
    forall j | 0 <= j < |wires| ensures wires[j].receiver.None? || wires[j].forwarder.None? {
      assert (wires + [wire])[j] == wires[j];
    }
  }

  /** Exactly when a forward leaves every instruction on the execute bus with the right operand: the instruction that is
      made to forward must not be one that receives, for both ends of a channel name the register in the same field. */
  lemma ForwardIsSound(w: World, regs: Regs, s: Issue, rest: seq<nat>, previous: seq<nat>, c: Candidate, p: nat, r: Reg)
    requires Decided(w, regs, s, rest, previous, p, r)
    ensures p < |s.wires|
    ensures var s1 := Link(s, c, p, r).0;
            BusOk(w, regs, s1.wires, s1.channels, s.bus.Contents()) <==> s.wires[p].receiver.None?
  {
    DecidedFacts(w, regs, s, rest, previous, p, r);
    var s1 := Link(s, c, p, r).0;
    if s.wires[p].receiver.None? {
      LinkBus(w, regs, s, c, p, r, s.bus.Contents());
    } else {
      CrossedReceivesWrongly(w, regs, s, c, p, r);
    }
  }

  /** What it computes otherwise: handed the value v, it runs as if the register r that it forwards held v, and reads
      the register q that v was meant for as it is. As long as v's maker has not retired, that is the old value. */
  lemma CrossedComputes(w: World, regs: Regs, s: Issue, rest: seq<nat>, previous: seq<nat>, c: Candidate, p: nat,
                        r: Reg, k: nat, v: Word, cycle: int, sh: OutOfOrder.Shared)
    requires Decided(w, regs, s, rest, previous, p, r) && p < |s.wires| && s.wires[p].receiver == Some(k)
    requires sh.out.CanAdd(BUS_LENGTH) && k < |sh.channels| && sh.channels[k].value == Some(v)
    ensures k < |s.channels|
    ensures var x, wire, q, m := w.prog[p], Link(s, c, p, r).0.wires[p], s.channels[k].register, s.channels[k].maker;
            && q != r && r in Writes(w, p)
            && PrepareRun(w.labels, cycle, regs, p, x, wire, sh)
            == Start(w.labels, cycle, regs, p, x, wire, Forward(r, v),
                     sh.(channels := sh.channels[k := sh.channels[k].(value := None)]))
            && MemoryRead(x.instr, Forward(r, v), regs) == MemoryRead(x.instr, NO_FORWARD, regs[r := v])
            && (forall bytes :: Run(x.instr, Forward(r, v), regs, w.labels, x.pc, bytes)
                             == Run(x.instr, NO_FORWARD, regs[r := v], w.labels, x.pc, bytes))
            && Read(regs[r := v], q) == Read(regs, q)
            && (m in s.bus.Contents() + rest ==> m < |w.states| && Read(regs, q) == Read(w.states[m], q))
  {
    hide Exact, Ordered, Channelled, Fresh, Known, Hazards, Choose, Run, MemoryRead, Start, Buffered.Values;
    DecidedFacts(w, regs, s, rest, previous, p, r);
    var x, m := w.prog[p], s.channels[k].maker;
    assert Waits(w, regs, s.channels, s.wires[p], p) && Carries(w, s.channels[k], |s.issued|);
    forall bytes ensures Run(x.instr, Forward(r, v), regs, w.labels, x.pc, bytes)
                      == Run(x.instr, NO_FORWARD, regs[r := v], w.labels, x.pc, bytes)
    {
      ForwardIsOverlay(x.instr, r, v, regs, w.labels, x.pc, bytes);
    }
    ForwardIsOverlay(x.instr, r, v, regs, w.labels, x.pc, []);
    if m in s.bus.Contents() + rest { assert StillOld(w, regs, m); }
  }

  lemma CrossedReceivesWrongly(w: World, regs: Regs, s: Issue, c: Candidate, p: nat, r: Reg)
    requires p < |s.wires| <= |w.prog| < |w.states| && BusOk(w, regs, s.wires, s.channels, s.bus.Contents())
    requires p in s.bus.Contents() && s.wires[p].receiver.Some? && r in Writes(w, p)
    ensures var s1 := Link(s, c, p, r).0; !BusOk(w, regs, s1.wires, s1.channels, s.bus.Contents())
  {
    var s1 := Link(s, c, p, r).0;
    assert Waits(w, regs, s.channels, s.wires[p], p);
    assert !Receives(w, s1.channels, s1.wires[p], p);
  }
}
