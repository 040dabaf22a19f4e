/** Why the out-of-order cores do not starve: whoever waits for a channel is alone in waiting for it, and the channel is
    full or the instruction that fills it is on its way. */
module InFlightAlive {
  import opened Words
  import opened Isa
  import Mmu
  import opened Pipeline
  import opened Scoreboard
  import opened Control
  import opened OutOfOrder
  import opened InFlight
  import InFlightIssue
  import Buffered = BufferedBus

  predicate Fills(eu: Eu, m: nat, k: nat) { !eu.Idle? && eu.id == m && eu.wire.forwarder == Some(k) }

  /** Instruction m has not finished and will fill channel k. */
  predicate Coming(wires: seq<Wire>, ids: seq<nat>, a: Eu, b: Eu, m: nat, k: nat) {
    (m in ids && m < |wires| && wires[m].forwarder == Some(k)) || Fills(a, m, k) || Fills(b, m, k)
  }

  predicate Answered(wires: seq<Wire>, channels: seq<Channel>, ids: seq<nat>, a: Eu, b: Eu, receiver: Option<nat>) {
    receiver.Some? ==>
      && receiver.value < |channels|
      && (channels[receiver.value].value.Some?
          || Coming(wires, ids, a, b, channels[receiver.value].maker, receiver.value))
  }

  /** Each instruction that has still to receive a value will get it. */
  ghost predicate Answers(wires: seq<Wire>, channels: seq<Channel>, ids: seq<nat>, a: Eu, b: Eu, cs: seq<Candidate>) {
    && (forall id :: id in ids && id < |wires| ==> Answered(wires, channels, ids, a, b, wires[id].receiver))
    && (a.Preparing? ==> Answered(wires, channels, ids, a, b, a.wire.receiver))
    && (b.Preparing? ==> Answered(wires, channels, ids, a, b, b.wire.receiver))
    && (forall c :: c in cs ==> Answered(wires, channels, ids, a, b, c.wire.receiver))
  }

  /** No two instructions receive through the same channel. */
  ghost predicate Sole(wires: seq<Wire>, cs: seq<Candidate>) {
    && (forall i, j :: 0 <= i < j < |wires| && wires[i].receiver.Some? ==> wires[i].receiver != wires[j].receiver)
    && (forall c, i :: c in cs && 0 <= i < |wires| && c.wire.receiver.Some? ==> wires[i].receiver != c.wire.receiver)
  }

  ghost predicate Ahead(wires: seq<Wire>, ids: seq<nat>, eu: Eu) {
    !eu.Idle? ==>
      && eu.id < |wires| && (forall x :: x in ids ==> eu.id < x)
      && (eu.Preparing? ==> eu.wire.receiver == wires[eu.id].receiver)
  }

  /** The execute bus is in issue order, and behind what the execute units hold. */
  ghost predicate InLine(wires: seq<Wire>, ids: seq<nat>, a: Eu, b: Eu) {
    && (forall i, j :: 0 <= i < j < |ids| ==> ids[i] < ids[j])
    && (forall x :: x in ids ==> x < |wires|)
    && Ahead(wires, ids, a) && Ahead(wires, ids, b)
    && (!a.Idle? && !b.Idle? ==> a.id != b.id)
  }

  ghost predicate Lively(wires: seq<Wire>, channels: seq<Channel>, ids: seq<nat>, a: Eu, b: Eu, cs: seq<Candidate>) {
    && Answers(wires, channels, ids, a, b, cs) && Sole(wires, cs) && InLine(wires, ids, a, b)
    && Channelled(wires, channels)
  }

  lemma LivelySwaps(wires: seq<Wire>, channels: seq<Channel>, ids: seq<nat>, a: Eu, b: Eu, cs: seq<Candidate>)
    requires Lively(wires, channels, ids, a, b, cs)
    ensures Lively(wires, channels, ids, b, a, cs)
  {
  }

  // ---------------------------------------------------------------- in time

  /** What waits in the buffer may leave it in the given cycle. */
  ghost predicate Timely<T>(bus: Buffered.Bus<T>, cycle: int) {
    forall k :: 0 <= k < |bus.buffer| ==> bus.buffer[k].from <= cycle
  }

  lemma ConnectTimely<T>(bus: Buffered.Bus<T>, cycle: int)
    requires Timely(bus, cycle)
    ensures var bus1 := bus.Connect(BUS_LENGTH, cycle);
            && Timely(bus1, cycle) && (bus1.queue == [] ==> bus1.buffer == [])
            && |bus1.buffer| <= |bus.buffer| && |bus1.queue| + |bus1.buffer| == |bus.queue| + |bus.buffer|
  {
    if |bus.queue| < BUS_LENGTH { Buffered.MovedIsLongest(|bus.queue|, BUS_LENGTH, bus.buffer, cycle); }
  }

  lemma AddTimely<T>(bus: Buffered.Bus<T>, t: T, cycle: int)
    requires Timely(bus, cycle + 1)
    ensures Timely(Buffered.Add(bus, t, cycle), cycle + 1)
  {
  }

  lemma {:induction false} AddAllTimely<T>(bus: Buffered.Bus<T>, ts: seq<T>, cycle: int)
    requires Timely(bus, cycle + 1)
    ensures var bus1 := Buffered.AddAll(bus, ts, cycle);
            Timely(bus1, cycle + 1) && |bus1.buffer| == |bus.buffer| + |ts| && bus1.queue == bus.queue
    decreases |ts|
  {
    if ts != [] {
      AddTimely(bus, ts[0], cycle);
      AddAllTimely(Buffered.Add(bus, ts[0], cycle), ts[1..], cycle);
    }
  }

  // ---------------------------------------------------------------- issuing

  ghost predicate LivelyIssue(s: Issue, a: Eu, b: Eu, cs: seq<Candidate>, cycle: int) {
    && |s.wires| == |s.issued| && Timely(s.bus, cycle + 1)
    && Lively(s.wires, s.channels, s.bus.Contents(), a, b, cs)
  }

  lemma PushedAnswer(wires: seq<Wire>, channels: seq<Channel>, ids: seq<nat>, a: Eu, b: Eu, wire: Wire,
                     receiver: Option<nat>)
    requires Answered(wires, channels, ids, a, b, receiver)
    ensures var n: nat := |wires|; Answered(wires + [wire], channels, ids + [n], a, b, receiver)
  {
  }

  lemma PushLively(wires: seq<Wire>, channels: seq<Channel>, ids: seq<nat>, a: Eu, b: Eu, c: Candidate)
    requires Lively(wires, channels, ids, a, b, [c])
    ensures var n: nat := |wires|; Lively(wires + [c.wire], channels, ids + [n], a, b, [])
  {
    var n: nat := |wires|;
    var wires1, ids1 := wires + [c.wire], ids + [n];
    assert forall x :: x in ids1 <==> x in ids || x == |wires|;
    assert c in [c];
    forall id | id in ids1 && id < |wires1| ensures Answered(wires1, channels, ids1, a, b, wires1[id].receiver) {
      PushedAnswer(wires, channels, ids, a, b, c.wire, wires1[id].receiver);
    }
    if a.Preparing? { PushedAnswer(wires, channels, ids, a, b, c.wire, a.wire.receiver); }
    if b.Preparing? { PushedAnswer(wires, channels, ids, a, b, c.wire, b.wire.receiver); }
    assert Channelled(wires1, channels) by { assert Answered(wires, channels, ids, a, b, c.wire.receiver); }
    hide Answered, Channelled;
    assert forall x :: x in ids1 ==> x < |wires1|;
    forall i, j | 0 <= i < j < |ids1| ensures ids1[i] < ids1[j] { assert ids[i] in ids; }
  }

  lemma IssueOfPush(s: Issue, a: Eu, b: Eu, c: Candidate, cycle: int)
    requires LivelyIssue(s, a, b, [c], cycle)
    ensures LivelyIssue(Push(s, c, cycle), a, b, [], cycle)
  {
    var id: nat := |s.issued|;
    Buffered.AddContents(s.bus, id, cycle);
    AddTimely(s.bus, id, cycle);
    PushLively(s.wires, s.channels, s.bus.Contents(), a, b, c);
    hide Lively, Buffered.Add, Timely, AddPending, Buffered.Values;
  }

  lemma LinkedAnswer(s: Issue, ids: seq<nat>, a: Eu, b: Eu, c: Candidate, p: nat, r: Reg, receiver: Option<nat>)
    requires p < |s.wires| && s.wires[p].forwarder.None? && Answered(s.wires, s.channels, ids, a, b, receiver)
    ensures var s1 := Link(s, c, p, r).0; Answered(s1.wires, s1.channels, ids, a, b, receiver)
  {
  }

  /** A new channel takes nothing from those who wait, and its maker is on the bus. */
  lemma LinkLively(s: Issue, ids: seq<nat>, a: Eu, b: Eu, c: Candidate, p: nat, r: Reg)
    requires p < |s.wires| && p in ids && s.wires[p].forwarder.None? && Lively(s.wires, s.channels, ids, a, b, [c])
    ensures var (s1, c1) := Link(s, c, p, r);
            Lively(s1.wires, s1.channels, ids, a, b, [c]) && Lively(s1.wires, s1.channels, ids, a, b, [c1])
  {
    var (s1, c1) := Link(s, c, p, r);
    assert c in [c];
    forall id | id in ids && id < |s1.wires| ensures Answered(s1.wires, s1.channels, ids, a, b, s1.wires[id].receiver) {
      LinkedAnswer(s, ids, a, b, c, p, r, s.wires[id].receiver);
    }
    if a.Preparing? { LinkedAnswer(s, ids, a, b, c, p, r, a.wire.receiver); }
    if b.Preparing? { LinkedAnswer(s, ids, a, b, c, p, r, b.wire.receiver); }
    LinkedAnswer(s, ids, a, b, c, p, r, c.wire.receiver);
    assert Answered(s1.wires, s1.channels, ids, a, b, c1.wire.receiver);
    hide Answered;
  }

  lemma IssueOfLink(s: Issue, a: Eu, b: Eu, c: Candidate, p: nat, r: Reg, cycle: int)
    requires p < |s.wires| && p in s.bus.Contents() && s.wires[p].forwarder.None? && LivelyIssue(s, a, b, [c], cycle)
    ensures var (s1, c1) := Link(s, c, p, r);
            LivelyIssue(s1, a, b, [c], cycle) && LivelyIssue(s1, a, b, [c1], cycle)
  {
    LinkLively(s, s.bus.Contents(), a, b, c, p, r);
    hide Lively, Timely;
  }

  /** What handling a candidate leaves of it, in the control unit's copy and in the original. */
  ghost predicate Leaves(s1: Issue, a: Eu, b: Eu, c: Candidate, c1: Candidate, push: bool, cycle: int) {
    && LivelyIssue(s1, a, b, if push then [] else [c], cycle)
    && LivelyIssue(s1, a, b, if push then [] else [c1], cycle)
  }

  lemma HandleLively(v: Version, cycle: int, first: nat, previous: seq<nat>, s: Issue, c: Candidate, a: Eu, b: Eu)
    requires Sized(s, previous) && Fresh(previous, s.bus.Contents(), s.wires) && LivelyIssue(s, a, b, [c], cycle)
    ensures var h := Handle(v, cycle, first, previous, [], s, c);
            && Leaves(h.issue, a, b, c, h.candidate, h.push, cycle)
            && (!h.stop ==> Fresh(previous, h.issue.bus.Contents(), h.issue.wires))
  {
    hide Hazards, LivelyIssue, Push, Link, Choose, IsBranch;
    NothingClashes(c.runner.instr);
    IssueOfPush(s, a, b, c, cycle);
    InFlightIssue.PushStaysFresh(s, c, cycle, previous);
    var f := ShouldForward(previous, s, c.runner.instr);
    if f.Some? {
      var (p, r) := f.value;
      var k :| 0 <= k < |previous| && previous[k] == p;
      IssueOfLink(s, a, b, c, p, r, cycle);
      var (s1, c1) := Link(s, c, p, r);
      IssueOfPush(s1, a, b, c1, cycle);
    }
  }

  lemma PendingsLively(v: Version, cycle: int, first: nat, previous: seq<nat>, s: Issue, cs: seq<Candidate>, a: Eu,
                       b: Eu)
    requires Sized(s, previous) && Fresh(previous, s.bus.Contents(), s.wires) && LivelyIssue(s, a, b, cs, cycle)
    requires |cs| <= 1 && first == |s.issued|
    ensures var p := FromPendings(v, cycle, first, previous, [], s, cs);
            && LivelyIssue(p.issue, a, b, p.kept, cycle)
            && (!p.stop ==> Fresh(previous, p.issue.bus.Contents(), p.issue.wires))
  {
    hide Handle, LivelyIssue, Fresh;
    if cs != [] {
      assert cs == [cs[0]];
      HandleLively(v, cycle, first, previous, s, cs[0], a, b);
      HandleDecides(v, cycle, first, previous, s, cs[0]);
      hide Pushes;
      assert cs[1..] == [];
      var h := Handle(v, cycle, first, previous, [], s, cs[0]);
      assert FromPendings(v, cycle, first, previous, [], s, cs).kept == if h.push then [] else [cs[0]];
    }
  }

  /** A new candidate waits for nothing. */
  lemma NewIsLively(s: Issue, a: Eu, b: Eu, x: RunnerPc, cycle: int)
    requires LivelyIssue(s, a, b, [], cycle)
    ensures LivelyIssue(s, a, b, [Candidate(x, NO_WIRE)], cycle)
  {
    hide Timely, InLine;
  }

  lemma {:induction false} QueueLively(v: Version, cycle: int, first: nat, previous: seq<nat>, s: Issue,
                                       queue: seq<RunnerPc>, remaining: int, a: Eu, b: Eu)
    requires Sized(s, previous) && first <= |s.issued|
    requires Fresh(previous, s.bus.Contents(), s.wires) && LivelyIssue(s, a, b, [], cycle)
    ensures var r := FromBus(v, cycle, first, previous, [], s, [], queue, remaining);
            LivelyIssue(r.0, a, b, r.1, cycle) && |r.2| <= |queue|
    decreases |queue|
  {
    hide Handle, LivelyIssue, Fresh, Known;
    if !((v == Mvp60 && remaining <= 0) || queue == []) {
      var c := Candidate(queue[0], NO_WIRE);
      var h := Handle(v, cycle, first, previous, [], s, c);
      NewIsLively(s, a, b, queue[0], cycle);
      HandleLively(v, cycle, first, previous, s, c, a, b);
      HandleDecides(v, cycle, first, previous, s, c);
      PushesGrow(first, s, h.issue);
      FromBusUnfolds(v, cycle, first, previous, s, queue, remaining, h);
      hide FromBus, Pushes;
      if !h.stop { QueueLively(v, cycle, first, previous, h.issue, queue[1..], remaining - 1, a, b); }
    }
  }

  lemma CycleLively(v: Version, cycle: int, u: Unit, a: Eu, b: Eu)
    requires Tidy(u) && Fresh(u.previous, u.issue.bus.Contents(), u.issue.wires)
             && LivelyIssue(u.issue, a, b, u.pendings, cycle)
    ensures var t := Cycle(v, cycle, u);
            && LivelyIssue(t.issue, a, b, t.pendings, cycle)
            && t.inBus.buffer == u.inBus.buffer && |t.inBus.queue| <= |u.inBus.queue|
  {
    hide FromPendings, FromBus, LivelyIssue, Fresh;
    if u.issue.bus.CanAdd(BUS_LENGTH) {
      var first := |u.issue.issued|;
      PendingsLively(v, cycle, first, u.previous, u.issue, u.pendings, a, b);
      OnePendingDecides(v, cycle, first, u.previous, u.issue, u.pendings);
      var p := FromPendings(v, cycle, first, u.previous, [], u.issue, u.pendings);
      PushesGrow(first, u.issue, p.issue);
      hide Pushes;
      if !p.stop {
        var remaining := BUS_LENGTH - |u.issue.bus.buffer| - (|p.issue.issued| - first);
        QueueLively(v, cycle, first, u.previous, p.issue, u.inBus.queue, remaining, a, b);
      }
    }
  }

  // ---------------------------------------------------------------- executing

  lemma TakenLively(wires: seq<Wire>, channels: seq<Channel>, ids: seq<nat>, other: Eu, cs: seq<Candidate>,
                    runner: RunnerPc)
    requires ids != [] && ids[0] < |wires| && Lively(wires, channels, ids, Idle, other, cs)
    ensures Lively(wires, channels, ids[1..], Preparing(ids[0], runner, wires[ids[0]]), other, cs)
  {
    var eu1 := Preparing(ids[0], runner, wires[ids[0]]);
    assert forall x :: x in ids <==> x == ids[0] || x in ids[1..];
    forall receiver | Answered(wires, channels, ids, Idle, other, receiver)
      ensures Answered(wires, channels, ids[1..], eu1, other, receiver) {}
    assert Answered(wires, channels, ids, Idle, other, wires[ids[0]].receiver);
    forall x | x in ids[1..] ensures ids[0] < x { var i :| 0 <= i < |ids[1..]| && ids[1..][i] == x; }
    hide Answered, Channelled, Sole;
    assert ids[0] in ids;
    assert forall i, j :: 0 <= i < j < |ids[1..]| ==> ids[1..][i] < ids[1..][j];
  }

  /** An instruction that has its operands waits no more, and nobody else waits for the channel it emptied. */
  lemma ReceivedLively(wires: seq<Wire>, channels: seq<Channel>, ids: seq<nat>, eu: Eu, other: Eu, cs: seq<Candidate>,
                       eu1: Eu)
    requires eu.Preparing? && eu1.Loading? && eu1.id == eu.id && eu1.wire == eu.wire
    requires Lively(wires, channels, ids, eu, other, cs)
    ensures Lively(wires, channels, ids, eu1, other, cs)
    ensures eu.wire.receiver.Some? ==>
      var k := eu.wire.receiver.value;
      k < |channels| && Lively(wires, channels[k := channels[k].(value := None)], ids, eu1, other, cs)
  {
    forall receiver | Answered(wires, channels, ids, eu, other, receiver)
      ensures Answered(wires, channels, ids, eu1, other, receiver) {}
    if eu.wire.receiver.Some? {
      var k := eu.wire.receiver.value;
      var channels1 := channels[k := channels[k].(value := None)];
      forall receiver | Answered(wires, channels, ids, eu, other, receiver) && receiver != Some(k)
        ensures Answered(wires, channels1, ids, eu1, other, receiver) {}
      forall id | id in ids && id < |wires| ensures wires[id].receiver != Some(k) { assert eu.id < id; }
      hide Answered;
    }
    hide Answered;
  }

  /** An instruction that has finished leaves its channel full. */
  lemma FinishedLively(wires: seq<Wire>, channels: seq<Channel>, ids: seq<nat>, eu: Eu, other: Eu, cs: seq<Candidate>,
                       v: Word)
    requires eu.Loading? && Lively(wires, channels, ids, eu, other, cs)
    ensures eu.wire.forwarder.None? ==> Lively(wires, channels, ids, Idle, other, cs)
    ensures eu.wire.forwarder.Some? ==>
      var k := eu.wire.forwarder.value;
      k < |channels| ==> Lively(wires, channels[k := channels[k].(value := Some(v))], ids, Idle, other, cs)
  {
    if eu.wire.forwarder.None? {
      forall receiver | Answered(wires, channels, ids, eu, other, receiver)
        ensures Answered(wires, channels, ids, Idle, other, receiver) {}
    } else if eu.wire.forwarder.value < |channels| {
      var k := eu.wire.forwarder.value;
      var channels1 := channels[k := channels[k].(value := Some(v))];
      forall receiver | Answered(wires, channels, ids, eu, other, receiver)
        ensures Answered(wires, channels1, ids, Idle, other, receiver) {}
    }
    hide Answered;
  }

  lemma LoadingLively(wires: seq<Wire>, channels: seq<Channel>, ids: seq<nat>, eu: Eu, other: Eu, cs: seq<Candidate>,
                      eu1: Eu)
    requires eu.Loading? && eu1.Loading? && eu1.id == eu.id && eu1.wire == eu.wire
             && Lively(wires, channels, ids, eu, other, cs)
    ensures Lively(wires, channels, ids, eu1, other, cs)
  {
    forall receiver | Answered(wires, channels, ids, eu, other, receiver)
      ensures Answered(wires, channels, ids, eu1, other, receiver) {}
    hide Answered;
  }

  /** What is left is lively, with nothing but the head of the queue gone from the execute bus. */
  ghost predicate StaysLively(wires: seq<Wire>, other: Eu, cs: seq<Candidate>, s: Shared, r: Option<(Eu, Shared)>) {
    r.Some? ==>
      && Lively(wires, r.value.1.channels, r.value.1.bus.Contents(), r.value.0, other, cs)
      && r.value.1.bus.buffer == s.bus.buffer
  }

  lemma FinishLively(labels: map<string, Word>, cycle: int, regs: Regs, id: nat, runner: RunnerPc, wire: Wire,
                     f: Forward, bytes: seq<Byte>, s: Shared, wires: seq<Wire>, eu: Eu, other: Eu, cs: seq<Candidate>)
    requires eu.Loading? && eu.id == id && eu.wire == wire && Lively(wires, s.channels, s.bus.Contents(), eu, other, cs)
    ensures StaysLively(wires, other, cs, s, Finish(labels, cycle, regs, id, runner, wire, f, bytes, s))
  {
    hide Run, Buffered.Add, Buffered.Values, Lively;
    var r := Run(runner.instr, f, regs, labels, runner.pc, bytes);
    FinishedLively(wires, s.channels, s.bus.Contents(), eu, other, cs, if r.Ok? then r.value.registerValue else 0);
  }

  lemma StartLively(labels: map<string, Word>, cycle: int, regs: Regs, id: nat, runner: RunnerPc, wire: Wire,
                    f: Forward, s: Shared, wires: seq<Wire>, eu: Eu, other: Eu, cs: seq<Candidate>)
    requires eu.Loading? && eu.id == id && eu.wire == wire && Lively(wires, s.channels, s.bus.Contents(), eu, other, cs)
    ensures StaysLively(wires, other, cs, s, Start(labels, cycle, regs, id, runner, wire, f, s))
  {
    hide Finish, MemoryRead, Lively, Buffered.Values;
    FinishLively(labels, cycle, regs, id, runner, wire, f, [], s, wires, eu, other, cs);
    var r := Start(labels, cycle, regs, id, runner, wire, f, s);
    if r.Some? && r.value.0.Loading? && MemoryRead(runner.instr, f, regs) != [] {
      LoadingLively(wires, s.channels, s.bus.Contents(), eu, other, cs, r.value.0);
    }
  }

  lemma PrepareLively(labels: map<string, Word>, cycle: int, regs: Regs, id: nat, runner: RunnerPc, wire: Wire,
                      s: Shared, wires: seq<Wire>, other: Eu, cs: seq<Candidate>)
    requires Lively(wires, s.channels, s.bus.Contents(), Preparing(id, runner, wire), other, cs)
    ensures StaysLively(wires, other, cs, s, PrepareRun(labels, cycle, regs, id, runner, wire, s))
  {
    hide Start, Lively, Buffered.Values;
    var eu1 := Loading(id, runner, wire, NO_FORWARD, 0, [], None);
    ReceivedLively(wires, s.channels, s.bus.Contents(), Preparing(id, runner, wire), other, cs, eu1);
    StartLively(labels, cycle, regs, id, runner, wire, NO_FORWARD, s, wires, eu1, other, cs);
    if wire.receiver.Some? && wire.receiver.value < |s.channels| && s.channels[wire.receiver.value].value.Some? {
      var k := wire.receiver.value;
      var s1 := s.(channels := s.channels[k := s.channels[k].(value := None)]);
      var f := Forward(wire.register, s.channels[k].value.value);
      StartLively(labels, cycle, regs, id, runner, wire, f, s1, wires, eu1, other, cs);
    }
  }

  lemma EuLively(labels: map<string, Word>, cycle: int, issued: seq<RunnerPc>, wires: seq<Wire>, regs: Regs, eu: Eu,
                 other: Eu, s: Shared, cs: seq<Candidate>)
    requires Lively(wires, s.channels, s.bus.Contents(), eu, other, cs)
    ensures StaysLively(wires, other, cs, s, EuCycle(labels, cycle, issued, wires, regs, eu, s))
  {
    hide PrepareRun, Finish, Lively, Buffered.Values;
    match eu
    case Idle =>
      if s.bus.queue != [] && s.bus.queue[0] < |issued| && s.bus.queue[0] < |wires| {
        var id := s.bus.queue[0];
        var s1 := s.(bus := s.bus.(queue := s.bus.queue[1..]));
        assert s1.bus.Contents() == s.bus.Contents()[1..];
        TakenLively(wires, s.channels, s.bus.Contents(), other, cs, issued[id]);
        PrepareLively(labels, cycle, regs, id, issued[id], wires[id], s1, wires, other, cs);
      }
    case Preparing(id, runner, wire) => PrepareLively(labels, cycle, regs, id, runner, wire, s, wires, other, cs);
    case Loading(id, runner, wire, forward, remaining, addrs, hit) =>
      LoadingLively(wires, s.channels, s.bus.Contents(), eu, other, cs, eu.(remaining := remaining - 1));
      if hit.Some? {
        FinishLively(labels, cycle, regs, id, runner, wire, forward, hit.value, s, wires, eu, other, cs);
      } else if addrs != [] {
        var l := Mmu.LoadMiss(s.lines, s.memory, addrs);
        if l.Some? {
          var s1 := s.(lines := l.value.lines, memory := l.value.memory);
          FinishLively(labels, cycle, regs, id, runner, wire, forward, l.value.bytes, s1, wires, eu, other, cs);
        }
      }
  }
}
