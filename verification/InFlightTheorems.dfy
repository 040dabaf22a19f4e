/** MVP-6.0 and MVP-6.1 against executing the same instructions one after the other. */
module InFlightTheorems {
  import opened Words
  import opened Isa
  import opened Cache
  import opened Mmu
  import opened Pipeline
  import opened Scoreboard
  import opened Control
  import opened OutOfOrder
  import opened InFlight
  import opened InFlightControl
  import opened InFlightRun
  import Sequential
  import Coherence
  import CoherentRun
  import Buffered = BufferedBus

  // ---------------------------------------------------------------- runs

  /** A core with nothing in it but registers, L1D and memory. */
  function Empty(regs: Regs, lines: seq<Line>, memory: Memory): Core {
    Core(Unit(Buffered.Bus([], []), [], [], Issue(Buffered.Bus([], []), Board(map[], map[]), [], [], [], 0)),
         Idle, Idle, Buffered.Bus([], []), regs, lines, memory)
  }

  /** A core and the cycles it has counted. */
  datatype Beginning = Beginning(core: Core, cycle: nat)

  /** At power-up, and after every flush, a core is empty but for registers, memory and L1D, which a flush leaves alone
      as it does the cycle count. What instructions see in memory, through the L1D, is `flat`. */
  ghost predicate Begins(from: Beginning, regs: Regs, flat: Memory) {
    && from.core == Empty(regs, from.core.lines, from.core.memory)
    && Coherence.Coherent(from.core.lines, from.core.memory, flat)
  }

  /** In the k-th cycle after the beginning, from 0, the decode unit delivers feeds[k]. */
  function CoreAfter(v: Version, labels: map<string, Word>, from: Beginning, feeds: seq<seq<RunnerPc>>): Option<Core> {
    if feeds == [] then Some(from.core) else
      var before := CoreAfter(v, labels, from, feeds[..|feeds| - 1]);
      if before.None? || !Valid(before.value.unit) then None
      else CoreCycle(v, labels, from.cycle + |feeds|, before.value, feeds[|feeds| - 1])
  }

  function Delivered(feeds: seq<seq<RunnerPc>>): seq<RunnerPc> {
    if feeds == [] then [] else Delivered(feeds[..|feeds| - 1]) + feeds[|feeds| - 1]
  }

  ghost predicate NoCrossing(v: Version, labels: map<string, Word>, from: Beginning, feeds: seq<seq<RunnerPc>>, k: nat)
    requires k < |feeds|
  {
    var before := CoreAfter(v, labels, from, feeds[..k]);
    before.Some? && Valid(before.value.unit) ==>
      Uncrossed(IssueStage(v, from.cycle + k + 1, before.value, feeds[k]).unit.issue.wires)
  }

  /** In no cycle does the control unit make an instruction forward a value that itself receives one. */
  ghost predicate NeverCrosses(v: Version, labels: map<string, Word>, from: Beginning, feeds: seq<seq<RunnerPc>>) {
    forall k :: 0 <= k < |feeds| ==> NoCrossing(v, labels, from, feeds, k)
  }

  ghost predicate SafeAt(v: Version, w: World, from: Beginning, feeds: seq<seq<RunnerPc>>, k: nat)
    requires k < |feeds|
  {
    var before := CoreAfter(v, w.labels, from, feeds[..k]);
    before.Some? && Valid(before.value.unit) ==>
      SafeStage(w, IssueStage(v, from.cycle + k + 1, before.value, feeds[k]), from.cycle + k + 1)
  }

  /** No load that misses finds in memory what only the L1D holds, or drops an only copy. */
  ghost predicate SafeMisses(v: Version, w: World, from: Beginning, feeds: seq<seq<RunnerPc>>) {
    forall k :: 0 <= k < |feeds| ==> SafeAt(v, w, from, feeds, k)
  }

  lemma SafeMissesPrefix(v: Version, w: World, from: Beginning, feeds: seq<seq<RunnerPc>>)
    requires feeds != [] && SafeMisses(v, w, from, feeds)
    ensures SafeMisses(v, w, from, feeds[..|feeds| - 1])
  {
    var shorter := feeds[..|feeds| - 1];
    hide CoreAfter, IssueStage, SafeStage;
    forall k | 0 <= k < |shorter| ensures SafeAt(v, w, from, shorter, k) {
      assert SafeAt(v, w, from, feeds, k);
      assert shorter[..k] == feeds[..k];
    }
  }

  // ---------------------------------------------------------------- a clean L1D

  lemma EuKeepsMemory(labels: map<string, Word>, cycle: int, issued: seq<RunnerPc>, wires: seq<Wire>, regs: Regs,
                      eu: Eu, s: Shared)
    ensures var r := EuCycle(labels, cycle, issued, wires, regs, eu, s); r.Some? ==> r.value.1.memory == s.memory
  {
    hide Run, GetAll, MemoryRead, FetchLine, Cache.Push;
    if eu.Loading? && eu.addrs != [] && eu.addrs[0] >= 0 { Coherence.WritingBackIncomingIsIdle(s.memory, eu.addrs[0]); }
  }

  lemma CycleKeepsMemory(v: Version, labels: map<string, Word>, cycle: int, s: Core, fed: seq<RunnerPc>)
    requires Valid(s.unit)
    ensures var t := CoreCycle(v, labels, cycle, s, fed); t.Some? ==> t.value.memory == s.memory
  {
    hide EuCycle, Control.Cycle, WuCycle;
    var t := IssueStage(v, cycle, s, fed);
    var issue := t.unit.issue;
    EuKeepsMemory(labels, cycle, issue.issued, issue.wires, t.regs, t.eu0, SharedOf(t));
    var a := EuCycle(labels, cycle, issue.issued, issue.wires, t.regs, t.eu0, SharedOf(t));
    if a.Some? { EuKeepsMemory(labels, cycle, issue.issued, issue.wires, t.regs, t.eu1, a.value.1); }
  }

  /** Memory itself never changes: not even a full L1D writes to it what it does not hold. */
  lemma {:induction false} MemoryStands(v: Version, labels: map<string, Word>, from: Beginning,
                                        feeds: seq<seq<RunnerPc>>)
    ensures var s := CoreAfter(v, labels, from, feeds); s.Some? ==> s.value.memory == from.core.memory
  {
    hide CoreCycle;
    if feeds != [] {
      var last := |feeds| - 1;
      MemoryStands(v, labels, from, feeds[..last]);
      var s := CoreAfter(v, labels, from, feeds[..last]);
      if s.Some? && Valid(s.value.unit) { CycleKeepsMemory(v, labels, from.cycle + |feeds|, s.value, feeds[last]); }
    }
  }

  lemma CleanStageIsSafe(w: World, s: Core, cycle: int)
    requires s.memory == w.memory
    ensures SafeStage(w, s, cycle)
  {
    hide EuCycle;
    var issue := s.unit.issue;
    EuKeepsMemory(w.labels, cycle, issue.issued, issue.wires, s.regs, s.eu0, SharedOf(s));
  }

  /** From an L1D that holds nothing but what is in memory every miss is safe. */
  lemma CleanIsSafe(v: Version, w: World, from: Beginning, feeds: seq<seq<RunnerPc>>)
    requires from.core.memory == w.memory
    ensures SafeMisses(v, w, from, feeds)
  {
    hide CoreAfter, Control.Cycle, SafeStage;
    forall k | 0 <= k < |feeds| ensures SafeAt(v, w, from, feeds, k) {
      MemoryStands(v, w.labels, from, feeds[..k]);
      var before := CoreAfter(v, w.labels, from, feeds[..k]);
      if before.Some? && Valid(before.value.unit) {
        CleanStageIsSafe(w, IssueStage(v, from.cycle + k + 1, before.value, feeds[k]), from.cycle + k + 1);
      }
    }
  }

  // ---------------------------------------------------------------- every cycle

  lemma BeginningIsOk(w: World, from: Beginning)
    requires Sequentially(w) && Begins(from, w.states[0], w.memory)
    ensures Inv(w, from.core) && Stream(from.core.unit) == []
  {
    var s := from.core;
    SequentiallySizes(w);
    NothingInFlight(w, s.regs, s.unit.issue);
    hide Coherence.Coherent, Sequentially, IssueOk;
  }

  lemma NothingInFlight(w: World, regs: Regs, s: Issue)
    requires Sequentially(w) && regs == w.states[0]
             && s == Issue(Buffered.Bus([], []), Board(map[], map[]), [], [], [], 0)
    ensures IssueOk(w, regs, s, Rest(Idle, Idle, Buffered.Bus([], [])))
  {
    assert Flight(s.bus, Idle, Idle, Buffered.Bus([], [])) == [];
    hide Follows;
  }

  lemma NeverCrossesPrefix(v: Version, labels: map<string, Word>, from: Beginning, feeds: seq<seq<RunnerPc>>)
    requires feeds != [] && NeverCrosses(v, labels, from, feeds)
    ensures NeverCrosses(v, labels, from, feeds[..|feeds| - 1])
  {
    var shorter := feeds[..|feeds| - 1];
    forall k | 0 <= k < |shorter| ensures NoCrossing(v, labels, from, shorter, k) {
      assert NoCrossing(v, labels, from, feeds, k);
      assert shorter[..k] == feeds[..k];
    }
  }

  lemma InvIsValid(w: World, s: Core)
    requires Inv(w, s)
    ensures Valid(s.unit)
  {
  }

  /** Whatever the decode unit delivers and when, no cycle goes wrong and each keeps the invariant. */
  lemma {:induction false} RunKeeps(w: World, v: Version, from: Beginning, feeds: seq<seq<RunnerPc>>)
    requires Sequentially(w) && Begins(from, w.states[0], w.memory) && Delivered(feeds) <= w.prog
    requires NeverCrosses(v, w.labels, from, feeds) && SafeMisses(v, w, from, feeds)
    ensures var s := CoreAfter(v, w.labels, from, feeds);
            s.Some? && Inv(w, s.value) && Stream(s.value.unit) == Delivered(feeds)
  {
    hide Sequentially, Inv, Stream, CoreCycle, IssueStage, Uncrossed, Begins, SafeStage;
    SequentiallySizes(w);
    if feeds == [] {
      BeginningIsOk(w, from);
    } else {
      var last := |feeds| - 1;
      NeverCrossesPrefix(v, w.labels, from, feeds);
      SafeMissesPrefix(v, w, from, feeds);
      RunKeeps(w, v, from, feeds[..last]);
      var s := CoreAfter(v, w.labels, from, feeds[..last]).value;
      InvIsValid(w, s);
      assert NoCrossing(v, w.labels, from, feeds, last) && SafeAt(v, w, from, feeds, last);
      CycleKeeps(w, s, v, from.cycle + |feeds|, feeds[last]);
    }
  }

  // ---------------------------------------------------------------- finishing what is in flight

  /** The registers once the given instructions have executed and retired, in this order. */
  ghost function Finished(w: World, regs: Regs, order: seq<nat>): Regs
    requires Sequentially(w) && forall k :: 0 <= k < |order| ==> order[k] < |w.prog|
    decreases |order|
  {
    if order == [] then regs
    else Finished(w, Retired(regs, Done(order[0], w.prog[order[0]].instr, ExeOf(w, order[0]))), order[1..])
  }

  /** The instructions in flight may finish in any order: the registers end up as in program order. */
  lemma {:induction false} AnyOrderWillDo(w: World, regs: Regs, wires: seq<Wire>, channels: seq<Channel>,
                                          flight: seq<nat>, order: seq<nat>)
    requires Sequentially(w) && |wires| <= |w.prog| && Ordered(w, wires, channels, flight)
    requires forall k :: 0 <= k < |order| ==> order[k] in flight && order[k] < |wires|
    requires Settled(w, regs, |wires|, order)
    ensures SameRegs(Finished(w, regs, order), w.states[|wires|])
    decreases |order|
  {
    if order == [] {
      ZeroStays(w, |wires|);
      forall r: Reg ensures Read(regs, r) == Read(w.states[|wires|], r) {
        if r != ZERO { assert Unclaimed(w, [], r); }
      }
    } else {
      var id := order[0];
      var d := Done(id, w.prog[id].instr, ExeOf(w, id));
      OrderedSubset(w, wires, channels, flight, order);
      RetiredSettles(w, regs, |wires|, wires, channels, order, d, order[1..]);
      AnyOrderWillDo(w, Retired(regs, d), wires, channels, flight, order[1..]);
    }
  }

  function InFlightOf(s: Core): seq<nat> { Flight(s.unit.issue.bus, s.eu0, s.eu1, s.out) }

  /** The state of the core is that of the sequential execution, up to what is in flight: results on their way are the
      sequential ones, and in whatever order the rest finishes the registers come out right. */
  ghost predicate MeansSequential(w: World, s: Core)
    requires Sequentially(w)
  {
    var n := |s.unit.issue.issued|;
    && n <= |w.prog| && s.unit.issue.issued == w.prog[..n]
    && (forall id :: id in InFlightOf(s) ==> id < n)
    && DoneOk(w, n, s.out.Contents())
    && (forall order: seq<nat> :: multiset(order) == multiset(InFlightOf(s)) ==> FinishesRight(w, s, order))
    && Exact(s.unit.issue.board, s.unit.issue.issued, InFlightOf(s))
    && MemoryMeans(w, s)
  }

  /** Through the L1D memory looks as at the beginning. */
  ghost predicate MemoryMeans(w: World, s: Core) { Coherence.Coherent(s.lines, s.memory, w.memory) }

  ghost predicate FinishesRight(w: World, s: Core, order: seq<nat>)
    requires Sequentially(w) && |s.unit.issue.issued| <= |w.prog|
  {
    && (forall k :: 0 <= k < |order| ==> order[k] < |w.prog|)
    && SameRegs(Finished(w, s.regs, order), w.states[|s.unit.issue.issued|])
  }

  lemma OrderFinishesRight(w: World, s: Core, order: seq<nat>)
    requires Sequentially(w) && Inv(w, s) && multiset(order) == multiset(InFlightOf(s))
    ensures FinishesRight(w, s, order)
  {
    var issue := s.unit.issue;
    SameMembers(order, InFlightOf(s));
    hide Exact, ChannelsCarry, BusOk, UnitsOk, CacheOk, KeptOk, Stream, Flight, Rest, Buffered.Values, Ordered;
    forall k | 0 <= k < |order| ensures order[k] in InFlightOf(s) { assert order[k] in order; }
    SettledMoves(w, s.regs, |issue.issued|, InFlightOf(s), order);
    AnyOrderWillDo(w, s.regs, issue.wires, issue.channels, InFlightOf(s), order);
  }

  lemma InvMeansSequential(w: World, s: Core)
    requires Sequentially(w) && Inv(w, s)
    ensures MeansSequential(w, s)
  {
    forall order: seq<nat> | multiset(order) == multiset(InFlightOf(s)) ensures FinishesRight(w, s, order) {
      OrderFinishesRight(w, s, order);
    }
    hide FinishesRight, ChannelsCarry, BusOk, EuOk, Settled, AllStillOld, Ordered;
  }

  /** With nothing in flight the registers are those of the sequential execution. */
  lemma QuietMeansEqual(w: World, s: Core)
    requires Sequentially(w) && MeansSequential(w, s) && InFlightOf(s) == []
    ensures SameRegs(s.regs, w.states[|s.unit.issue.issued|])
  {
    assert FinishesRight(w, s, []);
  }

  // ---------------------------------------------------------------- MVP-6.0 does not forward

  ghost predicate NoReceivers(wires: seq<Wire>) { forall j :: 0 <= j < |wires| ==> wires[j].receiver.None? }

  ghost predicate NoneReceives(cs: seq<Candidate>) { forall c :: c in cs ==> c.wire.receiver.None? }

  lemma HandleStaysUnwired(cycle: int, first: nat, previous: seq<nat>, skipped: seq<Instr>, s: Issue, c: Candidate)
    requires Sized(s, previous) && NoReceivers(s.wires) && c.wire.receiver.None?
    ensures var h := Handle(Mvp60, cycle, first, previous, skipped, s, c);
            NoReceivers(h.issue.wires) && h.candidate == c
  {
    hide Hazards, AddPending, Buffered.Add, IsBranch;
  }

  lemma {:induction false} PendingsStayUnwired(cycle: int, first: nat, previous: seq<nat>, skipped: seq<Instr>,
                                               s: Issue, cs: seq<Candidate>)
    requires Sized(s, previous) && NoReceivers(s.wires) && NoneReceives(cs)
    ensures var p := FromPendings(Mvp60, cycle, first, previous, skipped, s, cs);
            NoReceivers(p.issue.wires) && NoneReceives(p.kept)
    decreases |cs|
  {
    hide Handle, NoReceivers;
    if cs != [] {
      var h := Handle(Mvp60, cycle, first, previous, skipped, s, cs[0]);
      HandleStaysUnwired(cycle, first, previous, skipped, s, cs[0]);
      PendingsStayUnwired(cycle, first, previous, if h.push then skipped else skipped + [cs[0].runner.instr], h.issue,
                          cs[1..]);
    }
  }

  lemma {:induction false} QueueStaysUnwired(cycle: int, first: nat, previous: seq<nat>, skipped: seq<Instr>, s: Issue,
                                             pendings: seq<Candidate>, queue: seq<RunnerPc>, remaining: int)
    requires Sized(s, previous) && NoReceivers(s.wires) && NoneReceives(pendings)
    ensures var r := FromBus(Mvp60, cycle, first, previous, skipped, s, pendings, queue, remaining);
            NoReceivers(r.0.wires) && NoneReceives(r.1)
    decreases |queue|
  {
    hide Handle, NoReceivers;
    if !(remaining <= 0 || |pendings| >= PENDING_LENGTH || queue == []) {
      var c := Candidate(queue[0], NO_WIRE);
      var h := Handle(Mvp60, cycle, first, previous, skipped, s, c);
      HandleStaysUnwired(cycle, first, previous, skipped, s, c);
      QueueStaysUnwired(cycle, first, previous, if h.push then skipped else skipped + [queue[0].instr], h.issue,
                        if h.push then pendings else pendings + [h.candidate], queue[1..], if h.push then remaining - 1
                          else remaining);
    }
  }

  lemma CycleStaysUnwired(cycle: int, u: Unit)
    requires Valid(u) && NoReceivers(u.issue.wires) && NoneReceives(u.pendings)
    ensures var t := Cycle(Mvp60, cycle, u); NoReceivers(t.issue.wires) && NoneReceives(t.pendings)
  {
    hide FromPendings, FromBus, NoReceivers, NoneReceives;
    var first := |u.issue.issued|;
    PendingsStayUnwired(cycle, first, u.previous, [], u.issue, u.pendings);
    var p := FromPendings(Mvp60, cycle, first, u.previous, [], u.issue, u.pendings);
    var remaining := BUS_LENGTH - |u.issue.bus.buffer| - (|p.issue.issued| - first);
    QueueStaysUnwired(cycle, first, u.previous, p.skipped, p.issue, p.kept, u.inBus.queue, remaining);
  }

  lemma NoReceiversUncrossed(wires: seq<Wire>)
    requires NoReceivers(wires)
    ensures Uncrossed(wires)
  {
  }

  lemma StageStaysUnwired(cycle: int, s: Core, fed: seq<RunnerPc>)
    requires Valid(s.unit) && NoReceivers(s.unit.issue.wires) && NoneReceives(s.unit.pendings)
    ensures var t := IssueStage(Mvp60, cycle, s, fed).unit;
            NoReceivers(t.issue.wires) && NoneReceives(t.pendings) && Uncrossed(t.issue.wires)
  {
    hide Cycle, NoReceivers, NoneReceives, Uncrossed, Buffered.AddAll;
    CycleStaysUnwired(cycle, Arrived(s.unit, cycle, fed));
    NoReceiversUncrossed(IssueStage(Mvp60, cycle, s, fed).unit.issue.wires);
  }

  lemma ExecutionKeepsWires(v: Version, labels: map<string, Word>, cycle: int, s: Core, fed: seq<RunnerPc>)
    requires Valid(s.unit)
    ensures var t := CoreCycle(v, labels, cycle, s, fed);
            var a := IssueStage(v, cycle, s, fed);
            t.Some? ==> t.value.unit.issue.wires == a.unit.issue.wires && t.value.unit.pendings == a.unit.pendings
  {
    hide IssueStage, EuCycle, WuCycle;
  }

  predicate NothingWaits(u: Unit) { u.issue.wires == [] && u.pendings == [] }

  lemma NothingIsUnwired(u: Unit)
    requires NothingWaits(u)
    ensures NoReceivers(u.issue.wires) && NoneReceives(u.pendings)
  {
  }

  lemma {:induction false} RunStaysUnwired(labels: map<string, Word>, from: Beginning, feeds: seq<seq<RunnerPc>>)
    requires NothingWaits(from.core.unit)
    ensures var s := CoreAfter(Mvp60, labels, from, feeds);
            s.Some? ==> NoReceivers(s.value.unit.issue.wires) && NoneReceives(s.value.unit.pendings)
  {
    hide NoReceivers, NoneReceives, CoreCycle, IssueStage, NothingWaits;
    if feeds == [] {
      NothingIsUnwired(from.core.unit);
    } else {
      var last := |feeds| - 1;
      RunStaysUnwired(labels, from, feeds[..last]);
      var s := CoreAfter(Mvp60, labels, from, feeds[..last]);
      if s.Some? && Valid(s.value.unit) {
        StageStaysUnwired(from.cycle + |feeds|, s.value, feeds[last]);
        ExecutionKeepsWires(Mvp60, labels, from.cycle + |feeds|, s.value, feeds[last]);
      }
    }
  }

  lemma NeverCrosses60(labels: map<string, Word>, from: Beginning, feeds: seq<seq<RunnerPc>>)
    requires NothingWaits(from.core.unit)
    ensures NeverCrosses(Mvp60, labels, from, feeds)
  {
    hide NoReceivers, NoneReceives, CoreCycle, IssueStage, Uncrossed, NothingWaits;
    forall k | 0 <= k < |feeds| ensures NoCrossing(Mvp60, labels, from, feeds, k) {
      RunStaysUnwired(labels, from, feeds[..k]);
      var s := CoreAfter(Mvp60, labels, from, feeds[..k]);
      if s.Some? && Valid(s.value.unit) { StageStaysUnwired(from.cycle + k + 1, s.value, feeds[k]); }
    }
  }

  // ---------------------------------------------------------------- the theorems

  /** MVP-6.0: completion in any order means program order. */
  lemma Mvp60IsSequential(w: World, from: Beginning, feeds: seq<seq<RunnerPc>>)
    requires Sequentially(w) && Begins(from, w.states[0], w.memory) && Delivered(feeds) <= w.prog
    requires SafeMisses(Mvp60, w, from, feeds)
    ensures var s := CoreAfter(Mvp60, w.labels, from, feeds);
            && s.Some? && MeansSequential(w, s.value) && Stream(s.value.unit) == Delivered(feeds)
            && s.value.memory == from.core.memory
  {
    MemoryStands(Mvp60, w.labels, from, feeds);
    hide Sequentially, CoreAfter, MeansSequential, Stream, Inv, SafeMisses;
    SequentiallySizes(w);
    NeverCrosses60(w.labels, from, feeds);
    RunKeeps(w, Mvp60, from, feeds);
    InvMeansSequential(w, CoreAfter(Mvp60, w.labels, from, feeds).value);
  }

  /** MVP-6.1: so does operand forwarding, as long as no instruction both receives and forwards. */
  lemma Mvp61IsSequential(w: World, from: Beginning, feeds: seq<seq<RunnerPc>>)
    requires Sequentially(w) && Begins(from, w.states[0], w.memory) && Delivered(feeds) <= w.prog
    requires NeverCrosses(Mvp61, w.labels, from, feeds) && SafeMisses(Mvp61, w, from, feeds)
    ensures var s := CoreAfter(Mvp61, w.labels, from, feeds);
            && s.Some? && MeansSequential(w, s.value) && Stream(s.value.unit) == Delivered(feeds)
            && s.value.memory == from.core.memory
  {
    MemoryStands(Mvp61, w.labels, from, feeds);
    hide Sequentially, CoreAfter, MeansSequential, Stream, Inv, NeverCrosses, SafeMisses;
    SequentiallySizes(w);
    RunKeeps(w, Mvp61, from, feeds);
    InvMeansSequential(w, CoreAfter(Mvp61, w.labels, from, feeds).value);
  }

  /** In MVP-6.0 no two instructions in flight share a register, but for two reads of it. */
  lemma Mvp60IsHazardFree(w: World, from: Beginning, feeds: seq<seq<RunnerPc>>, i: nat, j: nat)
    requires Sequentially(w) && Begins(from, w.states[0], w.memory) && Delivered(feeds) <= w.prog
    requires SafeMisses(Mvp60, w, from, feeds)
    ensures var s := CoreAfter(Mvp60, w.labels, from, feeds);
            s.Some? && (i in InFlightOf(s.value) && j in InFlightOf(s.value) && i < j ==>
              j < |w.prog| && OnlyThrough(w.prog[i].instr, w.prog[j].instr, ZERO))
  {
    hide Sequentially, CoreAfter, OnlyThrough, Flight, SafeMisses;
    SequentiallySizes(w);
    NeverCrosses60(w.labels, from, feeds);
    RunKeeps(w, Mvp60, from, feeds);
    RunStaysUnwired(w.labels, from, feeds);
    var s := CoreAfter(Mvp60, w.labels, from, feeds).value;
    if i in InFlightOf(s) && j in InFlightOf(s) && i < j { HazardOnlyThrough(w, s, i, j); }
  }

  /** In MVP-6.1 the only hazard between two of them is a read of the register that the earlier hands to the later. */
  lemma HazardOnlyThrough(w: World, s: Core, i: nat, j: nat)
    requires Inv(w, s) && i in InFlightOf(s) && j in InFlightOf(s) && i < j
    ensures var issue := s.unit.issue;
            && j < |issue.wires| <= |w.prog|
            && OnlyThrough(w.prog[i].instr, w.prog[j].instr, Via(issue.wires[j], issue.channels, i))
            && (NoReceivers(issue.wires) ==> OnlyThrough(w.prog[i].instr, w.prog[j].instr, ZERO))
  {
    hide OnlyThrough, Exact, BusOk, Settled, AllStillOld, UnitsOk, CacheOk, KeptOk, ChannelsCarry, Rest, Stream, Fresh;
  }

  // ---------------------------------------------------------------- against MVP-1

  /** The first n instructions that MVP-1 executes are register code. */
  ghost predicate StraightLine(app: App, start: Sequential.Flat, n: nat) {
    && Read(start.regs, ZERO) == 0 && |start.memory| <= 0x8000_0000 - LINE_LENGTH
    && (forall k: nat :: k <= n ==> Sequential.FlatAfter(Sequential.Plain, app, start, k).Some?)
    && (forall k: nat :: k < n ==>
          0 <= Index(Nth(app, start, k).pc) < |app.code| && Simple(app.code[Index(Nth(app, start, k).pc)]))
  }

  function Nth(app: App, start: Sequential.Flat, k: nat): Sequential.Flat {
    var f := Sequential.FlatAfter(Sequential.Plain, app, start, k);
    if f.Some? then f.value else start
  }

  ghost function WorldOf(app: App, start: Sequential.Flat, n: nat): (w: World)
    requires StraightLine(app, start, n)
  {
    World(app.labels, start.memory,
          seq(n, k requires 0 <= k < n => RunnerPc(app.code[Index(Nth(app, start, k).pc)], Nth(app, start, k).pc)),
          seq(n + 1, k requires 0 <= k <= n => Nth(app, start, k).regs))
  }

  lemma StepIsExecuted(app: App, f: Sequential.Flat, i: Instr)
    requires 0 <= Index(f.pc) < |app.code| && i == app.code[Index(f.pc)] && Simple(i)
    requires Sequential.Step(Sequential.Plain, app, f).FlatNext?
    ensures var e := Outcome(app.labels, f.memory, f.regs, RunnerPc(i, f.pc));
            var f1 := Sequential.Step(Sequential.Plain, app, f).next;
            e.Some? && f1.regs == Sequential.Written(Sequential.Plain, f.regs, i, e.value) && f1.memory == f.memory
  {
    var addrs := MemoryRead(i, NO_FORWARD, f.regs);
    if Sequential.InRange(f.memory, addrs) {
      SimpleExecution(i, NO_FORWARD, f.regs, app.labels, f.pc, Sequential.BytesAt(f.memory, addrs));
    }
    hide Run;
  }

  lemma NextIsStep(app: App, start: Sequential.Flat, n: nat, k: nat)
    requires StraightLine(app, start, n) && k < n
    ensures var f := Nth(app, start, k);
            && 0 <= Index(f.pc) < |app.code| && Simple(app.code[Index(f.pc)])
            && Sequential.Step(Sequential.Plain, app, f) == Sequential.FlatNext(Nth(app, start, k + 1))
  {
    hide Sequential.Step, Simple;
    assert Sequential.FlatAfter(Sequential.Plain, app, start, k).Some?;
    assert Sequential.FlatAfter(Sequential.Plain, app, start, k + 1).Some?;
  }

  lemma {:induction false} MemoryStays(app: App, start: Sequential.Flat, n: nat, k: nat)
    requires StraightLine(app, start, n) && k <= n
    ensures Nth(app, start, k).memory == start.memory
  {
    hide Sequential.Step, Simple, StraightLine, Outcome;
    if k > 0 {
      MemoryStays(app, start, n, k - 1);
      NextIsStep(app, start, n, k - 1);
      StepIsExecuted(app, Nth(app, start, k - 1), app.code[Index(Nth(app, start, k - 1).pc)]);
    }
  }

  lemma WorldOfIsSequential(app: App, start: Sequential.Flat, n: nat)
    requires StraightLine(app, start, n)
    ensures Sequentially(WorldOf(app, start, n))
  {
    var w := WorldOf(app, start, n);
    forall k | 0 <= k < |w.prog| ensures Follows(w, k) { WorldFollows(app, start, n, k); }
    hide Follows, Sequential.FlatAfter;
    assert Sequential.FlatAfter(Sequential.Plain, app, start, 0) == Some(start);
  }

  lemma WorldFollows(app: App, start: Sequential.Flat, n: nat, k: nat)
    requires StraightLine(app, start, n) && k < n
    ensures Follows(WorldOf(app, start, n), k)
  {
    var f := Nth(app, start, k);
    MemoryStays(app, start, n, k);
    NextIsStep(app, start, n, k);
    StepIsExecuted(app, f, app.code[Index(f.pc)]);
    hide Sequential.Step, Outcome, Simple, Nth, StraightLine;
  }

  /** The registers are MVP-1's, and so is memory as the L1D shows it, and as it will be once that has been written
      back. */
  ghost predicate EndsAs(s: Core, f: Sequential.Flat) {
    && SameRegs(s.regs, f.regs)
    && Coherence.Coherent(s.lines, s.memory, f.memory) && Flushed(s.lines, s.memory) == f.memory
  }

  lemma MeansEnds(w: World, s: Core, f: Sequential.Flat)
    requires MemoryMeans(w, s) && w.memory == f.memory && SameRegs(s.regs, f.regs)
    ensures EndsAs(s, f)
  {
    CoherentRun.FlushPublishes(s.lines, s.memory, f.memory);
  }

  /** Once the code MVP-1 executes has gone through MVP-6.0, or through MVP-6.1 without a crossing, the registers are
      those of MVP-1. */
  lemma OutOfOrderMeansMvp1(v: Version, app: App, start: Sequential.Flat, n: nat, from: Beginning,
                            feeds: seq<seq<RunnerPc>>)
    requires StraightLine(app, start, n) && Begins(from, start.regs, start.memory)
             && Delivered(feeds) == WorldOf(app, start, n).prog
    requires v == Mvp61 ==> NeverCrosses(v, app.labels, from, feeds)
    requires SafeMisses(v, WorldOf(app, start, n), from, feeds)
    ensures var s := CoreAfter(v, app.labels, from, feeds);
            && s.Some? && s.value.memory == from.core.memory
            && (|s.value.unit.issue.issued| == n && InFlightOf(s.value) == [] ==> EndsAs(s.value, Nth(app, start, n)))
  {
    var w := WorldOf(app, start, n);
    WorldOfIsSequential(app, start, n);
    MemoryStays(app, start, n, n);
    assert w.states[0] == start.regs && w.states[n] == Nth(app, start, n).regs;
    hide StraightLine, Sequentially, MeansSequential, CoreAfter, Stream, NeverCrosses, SafeMisses, EndsAs, MemoryMeans;
    if v == Mvp60 { Mvp60IsSequential(w, from, feeds); } else { Mvp61IsSequential(w, from, feeds); }
    var s := CoreAfter(v, app.labels, from, feeds).value;
    if |s.unit.issue.issued| == n && InFlightOf(s) == [] {
      QuietMeansEqual(w, s);
      MeansMemory(w, s);
      MeansEnds(w, s, Nth(app, start, n));
    }
  }

  lemma MeansMemory(w: World, s: Core)
    requires Sequentially(w) && MeansSequential(w, s)
    ensures MemoryMeans(w, s)
  {
  }
}
