/** Which loads of MVP-6.0 and MVP-6.1 disturb the L1D: the equivalence for one miss, lifted to cycles and whole
    runs. */
module InFlightMisses {
  import opened Words
  import opened Isa
  import opened Cache
  import opened Mmu
  import opened Pipeline
  import opened OutOfOrder
  import opened InFlight
  import opened InFlightControl
  import opened InFlightExecute
  import opened InFlightRun
  import opened InFlightTheorems
  import opened Control
  import Coherence
  import CoherentRun
  import InFlightExact
  import Buffered = BufferedBus

  // ---------------------------------------------------------------- one execute unit

  lemma FinishKeepsLines(labels: map<string, Word>, cycle: int, regs: Regs, id: nat, x: RunnerPc, wire: Wire,
                         f: Forward, bytes: seq<Byte>, s: Shared)
    ensures var r := Finish(labels, cycle, regs, id, x, wire, f, bytes, s);
            r.Some? ==> r.value.1.lines == s.lines && r.value.1.memory == s.memory
  {
    hide Run, Fill, Buffered.Add;
  }

  /** A cycle of an execute unit leaves the L1D coherent if and only if its miss is safe, if it has one. */
  lemma UnitIsExact(w: World, regs: Regs, wires: seq<Wire>, s: Shared, eu: Eu, other: Eu, cycle: int)
    requires EuInv(w, regs, wires, s, eu, other)
    ensures |wires| <= |w.prog|
    ensures var r := EuCycle(w.labels, cycle, w.prog[..|wires|], wires, regs, eu, s);
            SafeMiss(w, s, eu) <==> r.Some? && CacheOk(w, r.value.1.lines, r.value.1.memory)
  {
    hide Distinct, ChannelsCarry, BusOk, DoneOk, Flight, Sends, Run, GetAll, Coherence.WindowClean,
         Coherence.VictimClean, Coherence.Coherent;
    if SafeMiss(w, s, eu) {
      EuKeeps(w, regs, wires, s, eu, other, cycle);
    } else {
      hide PrepareRun, Sequentially, Finish, MemoryRead, LoadMiss;
      SequentiallySizes(w);
      CoherentRun.MissAgrees(s.lines, s.memory, w.memory, w.prog[eu.id].instr, w.states[eu.id]);
      var l := LoadMiss(s.lines, s.memory, eu.addrs).value;
      FinishKeepsLines(w.labels, cycle, regs, eu.id, eu.runner, eu.wire, eu.forward, l.bytes,
                       s.(lines := l.lines, memory := l.memory));
    }
  }

  // ---------------------------------------------------------------- a cycle

  /** Both execute units get through this cycle and leave the L1D coherent. */
  ghost predicate StaysCoherent(w: World, s: Core, cycle: int) {
    var issue := s.unit.issue;
    var a := EuCycle(w.labels, cycle, issue.issued, issue.wires, s.regs, s.eu0, SharedOf(s));
    && a.Some? && CacheOk(w, a.value.1.lines, a.value.1.memory)
    && var b := EuCycle(w.labels, cycle, issue.issued, issue.wires, s.regs, s.eu1, a.value.1);
       b.Some? && CacheOk(w, b.value.1.lines, b.value.1.memory)
  }

  lemma ExecutionIsExact(w: World, s: Core, cycle: int)
    requires Inv(w, s)
    ensures SafeStage(w, s, cycle) <==> StaysCoherent(w, s, cycle)
  {
    hide EuCycle, IssueOk, KeptOk, UnitsOk, CacheOk, Rest, Fresh, Runners, Buffered.Values, EuInv, Flight, SafeMiss;
    var issue, sh := s.unit.issue, SharedOf(s);
    IssueOkSizes(w, s.regs, issue, Rest(s.eu0, s.eu1, s.out));
    CoreOkIsEuInv(w, s.regs, issue, s.eu0, s.eu1, sh);
    UnitIsExact(w, s.regs, issue.wires, sh, s.eu0, s.eu1, cycle);
    if SafeMiss(w, sh, s.eu0) {
      EuKeeps(w, s.regs, issue.wires, sh, s.eu0, s.eu1, cycle);
      var a := EuCycle(w.labels, cycle, issue.issued, issue.wires, s.regs, s.eu0, sh).value;
      SwapUnits(w, s.regs, issue.wires, a.1, a.0, s.eu1);
      UnitIsExact(w, s.regs, issue.wires, a.1, s.eu1, a.0, cycle);
    }
  }

  // ---------------------------------------------------------------- runs

  ghost predicate CoherentAt(v: Version, w: World, from: Beginning, feeds: seq<seq<RunnerPc>>, k: nat)
    requires k < |feeds|
  {
    var before := CoreAfter(v, w.labels, from, feeds[..k]);
    && before.Some? && Valid(before.value.unit)
    && StaysCoherent(w, IssueStage(v, from.cycle + k + 1, before.value, feeds[k]), from.cycle + k + 1)
  }

  ghost predicate AlwaysCoherent(v: Version, w: World, from: Beginning, feeds: seq<seq<RunnerPc>>) {
    forall k :: 0 <= k < |feeds| ==> CoherentAt(v, w, from, feeds, k)
  }

  lemma CoherentPrefix(v: Version, w: World, from: Beginning, feeds: seq<seq<RunnerPc>>)
    requires feeds != []
    ensures AlwaysCoherent(v, w, from, feeds)
       <==> AlwaysCoherent(v, w, from, feeds[..|feeds| - 1]) && CoherentAt(v, w, from, feeds, |feeds| - 1)
    ensures SafeMisses(v, w, from, feeds)
       <==> SafeMisses(v, w, from, feeds[..|feeds| - 1]) && SafeAt(v, w, from, feeds, |feeds| - 1)
  {
    hide CoreAfter, IssueStage, StaysCoherent, SafeStage;
    var shorter := feeds[..|feeds| - 1];
    forall k | 0 <= k < |shorter|
      ensures CoherentAt(v, w, from, shorter, k) <==> CoherentAt(v, w, from, feeds, k)
      ensures SafeAt(v, w, from, shorter, k) <==> SafeAt(v, w, from, feeds, k)
    {
      assert shorter[..k] == feeds[..k];
    }
    hide CoherentAt, SafeAt;
  }

  /** Without a crossing, no cycle panics on a load and the L1D stays coherent after each execute unit if and only if
      every miss is safe. */
  lemma {:induction false} SafeMissesAreExact(v: Version, w: World, from: Beginning, feeds: seq<seq<RunnerPc>>)
    requires Sequentially(w) && Begins(from, w.states[0], w.memory) && Delivered(feeds) <= w.prog
    requires NeverCrosses(v, w.labels, from, feeds)
    ensures SafeMisses(v, w, from, feeds) <==> AlwaysCoherent(v, w, from, feeds)
  {
    hide Sequentially, Inv, Stream, CoreAfter, CoreCycle, IssueStage, Uncrossed, Begins, SafeStage, StaysCoherent,
         NeverCrosses;
    if feeds == [] {
    } else {
      var last := |feeds| - 1;
      InFlightExact.DeliveredPrefix(w, feeds);
      NeverCrossesPrefix(v, w.labels, from, feeds);
      SafeMissesAreExact(v, w, from, feeds[..last]);
      CoherentPrefix(v, w, from, feeds);
      if SafeMisses(v, w, from, feeds[..last]) {
        RunKeeps(w, v, from, feeds[..last]);
        var s := CoreAfter(v, w.labels, from, feeds[..last]).value;
        InvIsValid(w, s);
        LastUncrossed(v, w.labels, from, feeds, s);
        IssueStageKeeps(w, s, v, from.cycle + |feeds|, feeds[last]);
        ExecutionIsExact(w, IssueStage(v, from.cycle + |feeds|, s, feeds[last]), from.cycle + |feeds|);
      }
      hide SafeMisses, AlwaysCoherent;
    }
  }

  lemma LastUncrossed(v: Version, labels: map<string, Word>, from: Beginning, feeds: seq<seq<RunnerPc>>, s: Core)
    requires feeds != [] && NeverCrosses(v, labels, from, feeds) && Valid(s.unit)
    requires CoreAfter(v, labels, from, feeds[..|feeds| - 1]) == Some(s)
    ensures Uncrossed(IssueStage(v, from.cycle + |feeds|, s, feeds[|feeds| - 1]).unit.issue.wires)
  {
    hide CoreAfter, IssueStage, Uncrossed;
    assert NoCrossing(v, labels, from, feeds, |feeds| - 1);
  }
}
