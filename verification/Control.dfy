/** The control units of MVP-6.0 and MVP-6.1 (proc/mvp6-0/cu.go, proc/mvp6-1/cu.go). */
module Control {
  import opened Words
  import opened Isa
  import opened Pipeline
  import opened Scoreboard
  import Buffered = BufferedBus

  datatype Version = Mvp60 | Mvp61

  /** Both sides of every bus hold two entries. */
  const BUS_LENGTH := 2
  const PENDING_LENGTH := 10

  /** The fields of an issued instruction that the source reaches through a pointer. */
  datatype Wire = Wire(receiver: Option<nat>, forwarder: Option<nat>, register: Reg)

  /** A one-slot channel; `maker` and `register` only record what it was made for. */
  datatype Channel = Channel(maker: nat, register: Reg, value: Option<Word>)

  const NO_WIRE := Wire(None, None, ZERO)

  /** The control unit's own copy of an instruction it has not pushed. */
  datatype Candidate = Candidate(runner: RunnerPc, wire: Wire)

  /** What the control unit changes. A pushed instruction is known by its place in `issued`; the execute bus carries
      that place, as the source's bus carries a pointer. `clashes` records how often the check against skipped
      instructions has answered yes. */
  datatype Issue = Issue(
    bus: Buffered.Bus<nat>,
    board: Board,
    issued: seq<RunnerPc>,
    wires: seq<Wire>,
    channels: seq<Channel>,
    clashes: nat)

  function Push(s: Issue, c: Candidate, cycle: int): Issue {
    var id: nat := |s.issued|;
    s.(bus := Buffered.Add(s.bus, id, cycle),
       board := AddPending(s.board, c.runner.instr),
       issued := s.issued + [c.runner],
       wires := s.wires + [c.wire])
  }

  /** The first non-zero register among `rs` that is also among `ws`. */
  function Shared(ws: seq<Reg>, rs: seq<Reg>): Option<Reg> {
    if rs == [] then None else if rs[0] != ZERO && rs[0] in ws then Some(rs[0]) else Shared(ws, rs[1..])
  }

  lemma {:induction false} SharedIsShared(ws: seq<Reg>, rs: seq<Reg>)
    ensures match Shared(ws, rs)
            case Some(r) => r != ZERO && r in ws && r in rs
            case None => forall r :: r in rs && r in ws ==> r == ZERO
  {
    if rs != [] && !(rs[0] != ZERO && rs[0] in ws) { SharedIsShared(ws, rs[1..]); }
  }

  predicate Known(previous: seq<nat>, n: nat) { forall k :: 0 <= k < |previous| ==> previous[k] < n }

  /** Walks the instructions pushed in the previous cycle for one that writes what i reads. */
  function Choose(previous: seq<nat>, issued: seq<RunnerPc>, i: Instr): (c: Option<(nat, Reg)>)
    requires Known(previous, |issued|)
    ensures c.Some? ==> c.value.0 in previous && c.value.0 < |issued|
  {
    if previous == [] then None else
      var r := Shared(WriteRegisters(issued[previous[0]].instr), ReadRegisters(i));
      if r.Some? then Some((previous[0], r.value)) else Choose(previous[1..], issued, i)
  }

  function ShouldForward(previous: seq<nat>, s: Issue, i: Instr): (c: Option<(nat, Reg)>)
    requires Known(previous, |s.issued|)
    ensures c.Some? ==> c.value.0 in previous && c.value.0 < |s.issued|
  {
    var hazards := Hazards(s.board, i);
    if |hazards| != 1 || hazards[0].kind != ReadAfterWrite then None else Choose(previous, s.issued, i)
  }

  /** One new channel from an earlier instruction to this one. Each end has a single field that names the register. */
  function Link(s: Issue, c: Candidate, p: nat, r: Reg): (Issue, Candidate)
    requires p < |s.wires|
  {
    var k: nat := |s.channels|;
    (s.(channels := s.channels + [Channel(p, r, None)],
        wires := s.wires[p := s.wires[p].(forwarder := Some(k), register := r)]),
     c.(wire := c.wire.(receiver := Some(k), register := r)))
  }

  predicate Clashes(skipped: seq<Instr>, i: Instr) {
    exists k :: 0 <= k < |skipped| && SharesWith(skipped[k], i)
  }

  predicate SharesWith(a: Instr, b: Instr) {
    || Shared(WriteRegisters(a), ReadRegisters(b)).Some?
    || Shared(WriteRegisters(a), WriteRegisters(b)).Some?
    || Shared(ReadRegisters(a), WriteRegisters(b)).Some?
  }

  datatype Handled = Handled(issue: Issue, candidate: Candidate, push: bool, stop: bool)

  predicate Sized(s: Issue, previous: seq<nat>) { |s.wires| == |s.issued| && Known(previous, |s.issued|) }

  /** `first` is the number of instructions issued before this cycle. */
  function Handle(v: Version, cycle: int, first: nat, previous: seq<nat>, skipped: seq<Instr>, s: Issue,
                  c: Candidate): (h: Handled)
    requires Sized(s, previous)
    ensures Sized(h.issue, previous)
  {
    if |s.issued| > first && IsBranch(c.runner.instr) then Handled(s, c, false, true)
    else if v == Mvp61 && Clashes(skipped, c.runner.instr) then Handled(s.(clashes := s.clashes + 1), c, false, false)
    else if Hazards(s.board, c.runner.instr) == [] then
      if v == Mvp61 && !s.bus.CanAdd(BUS_LENGTH) then Handled(s, c, false, true)
      else Handled(Push(s, c, cycle), c, true, false)
    else
      var f := if v == Mvp61 then ShouldForward(previous, s, c.runner.instr) else None;
      if f.None? then Handled(s, c, false, true) else
        var (s1, c1) := Link(s, c, f.value.0, f.value.1);
        if !s1.bus.CanAdd(BUS_LENGTH) then Handled(s1, c1, false, true)
        else Handled(Push(s1, c1, cycle), c1, true, true)
  }

  /** What a pass over a list of candidates leaves: the ones kept, in order, and whether the cycle ends. */
  datatype Pass = Pass(issue: Issue, kept: seq<Candidate>, skipped: seq<Instr>, stop: bool)

  /** The first loop of a cycle. It works on copies, so a candidate it cannot push stays as it was. */
  function FromPendings(v: Version, cycle: int, first: nat, previous: seq<nat>, skipped: seq<Instr>, s: Issue,
                        cs: seq<Candidate>): (p: Pass)
    requires Sized(s, previous)
    ensures Sized(p.issue, previous)
    decreases |cs|
  {
    if cs == [] then Pass(s, [], skipped, false) else
      var h := Handle(v, cycle, first, previous, skipped, s, cs[0]);
      var skipped1 := if h.push then skipped else skipped + [cs[0].runner.instr];
      var kept := if h.push then [] else [cs[0]];
      if h.stop then Pass(h.issue, kept + cs[1..], skipped1, true) else
        var rest := FromPendings(v, cycle, first, previous, skipped1, h.issue, cs[1..]);
        rest.(kept := kept + rest.kept)
  }

  /** The second loop takes new instructions off the input bus. Only MVP-6.0 counts the room left. */
  function FromBus(v: Version, cycle: int, first: nat, previous: seq<nat>, skipped: seq<Instr>, s: Issue,
                   pendings: seq<Candidate>, queue: seq<RunnerPc>,
                   remaining: int): (r: (Issue, seq<Candidate>, seq<RunnerPc>))
    requires Sized(s, previous)
    ensures Sized(r.0, previous)
    decreases |queue|
  {
    if (v == Mvp60 && remaining <= 0) || |pendings| >= PENDING_LENGTH || queue == [] then (s, pendings, queue) else
      var h := Handle(v, cycle, first, previous, skipped, s, Candidate(queue[0], NO_WIRE));
      var skipped1 := if h.push then skipped else skipped + [queue[0].instr];
      var pendings1 := if h.push then pendings else pendings + [h.candidate];
      if h.stop then (h.issue, pendings1, queue[1..])
      else FromBus(v, cycle, first, previous, skipped1, h.issue, pendings1, queue[1..],
                   if h.push then remaining - 1 else remaining)
  }

  datatype Unit = Unit(inBus: Buffered.Bus<RunnerPc>, pendings: seq<Candidate>, previous: seq<nat>, issue: Issue)

  predicate Valid(u: Unit) { Sized(u.issue, u.previous) }

  function From(first: nat, n: nat): (ids: seq<nat>)
    requires first <= n
    ensures |ids| == n - first && forall k :: 0 <= k < |ids| ==> ids[k] == first + k
  {
    seq(n - first, k requires 0 <= k => first + k)
  }

  function Cycle(v: Version, cycle: int, u: Unit): Unit
    requires Valid(u)
  {
    if !u.issue.bus.CanAdd(BUS_LENGTH) then u.(previous := []) else
      var first := |u.issue.issued|;
      var p := FromPendings(v, cycle, first, u.previous, [], u.issue, u.pendings);
      if p.stop then Unit(u.inBus, p.kept, Pushed(first, p.issue), p.issue) else
        var remaining := BUS_LENGTH - |u.issue.bus.buffer| - (|p.issue.issued| - first);
        var r := FromBus(v, cycle, first, u.previous, p.skipped, p.issue, p.kept, u.inBus.queue, remaining);
        Unit(u.inBus.(queue := r.2), r.1, Pushed(first, r.0), r.0)
  }

  function Pushed(first: nat, s: Issue): seq<nat> { if first <= |s.issued| then From(first, |s.issued|) else [] }

  // ---------------------------------------------------------------- strictly in order

  function Runners(cs: seq<Candidate>): (rs: seq<RunnerPc>)
    ensures |rs| == |cs| && forall k :: 0 <= k < |cs| ==> rs[k] == cs[k].runner
  {
    seq(|cs|, k requires 0 <= k < |cs| => cs[k].runner)
  }

  /** Everything the control unit has issued or still has to. */
  function Stream(u: Unit): seq<RunnerPc> { u.issue.issued + Runners(u.pendings) + u.inBus.Contents() }

  /** What part of a cycle did to the execute bus: a push for each instruction issued, none a branch unless it came
      first, none beyond the length of the bus. */
  ghost predicate Pushes(first: nat, s: Issue, s1: Issue) {
    && |s.issued| <= |s1.issued| && s1.issued[..|s.issued|] == s.issued
    && (forall k :: |s.issued| <= k < |s1.issued| && first < k ==> !IsBranch(s1.issued[k].instr))
    && s1.bus.Contents() == s.bus.Contents() + From(|s.issued|, |s1.issued|)
    && s1.bus.queue == s.bus.queue
    && |s1.bus.buffer| == |s.bus.buffer| + (|s1.issued| - |s.issued|)
    && s1.clashes == s.clashes
  }

  lemma PushPushes(first: nat, s: Issue, c: Candidate, cycle: int)
    requires first <= |s.issued| && (first < |s.issued| ==> !IsBranch(c.runner.instr))
    ensures Pushes(first, s, Push(s, c, cycle))
  {
    var n: nat := |s.issued|;
    Buffered.AddContents(s.bus, n, cycle);
  }

  /** Without skipped instructions each candidate is pushed or ends the cycle. */
  lemma HandleDecides(v: Version, cycle: int, first: nat, previous: seq<nat>, s: Issue, c: Candidate)
    requires Sized(s, previous) && first <= |s.issued|
    ensures var h := Handle(v, cycle, first, previous, [], s, c);
            && (h.push || h.stop) && h.candidate.runner == c.runner
            && Pushes(first, s, h.issue)
            && h.issue.issued == (if h.push then s.issued + [c.runner] else s.issued)
            && (v == Mvp60 && h.push ==> !h.stop)
            && (v == Mvp61 && h.push ==> |s.bus.buffer| != BUS_LENGTH)
  {
    hide Push, Hazards, ShouldForward, IsBranch, Clashes, Link, Pushes;
    NothingClashes(c.runner.instr);
    NothingPushed(first, s);
    if !(|s.issued| > first && IsBranch(c.runner.instr)) {
      PushPushes(first, s, c, cycle);
      PushIssues(s, c, cycle);
      var f := ShouldForward(previous, s, c.runner.instr);
      if f.Some? {
        var (s1, c1) := Link(s, c, f.value.0, f.value.1);
        LinkLeaves(first, s, c, f.value.0, f.value.1);
        PushPushes(first, s1, c1, cycle);
        PushIssues(s1, c1, cycle);
        LinkedPushes(first, s, s1, Push(s1, c1, cycle));
      }
    }
  }

  lemma NothingClashes(i: Instr)
    ensures !Clashes([], i)
  {
  }

  lemma NothingPushed(first: nat, s: Issue)
    ensures Pushes(first, s, s)
  {
  }

  lemma PushIssues(s: Issue, c: Candidate, cycle: int)
    ensures Push(s, c, cycle).issued == s.issued + [c.runner]
  {
  }

  /** Wiring a forward issues nothing. */
  lemma LinkLeaves(first: nat, s: Issue, c: Candidate, p: nat, r: Reg)
    requires p < |s.wires|
    ensures var (s1, c1) := Link(s, c, p, r);
            && s1.bus == s.bus && s1.issued == s.issued && |s1.wires| == |s.wires| && s1.clashes == s.clashes
            && c1.runner == c.runner && Pushes(first, s, s1)
  {
  }

  lemma LinkedPushes(first: nat, s: Issue, s1: Issue, t: Issue)
    requires s1.bus == s.bus && s1.issued == s.issued && s1.clashes == s.clashes && Pushes(first, s1, t)
    ensures Pushes(first, s, t)
  {
  }

  lemma PushesCompose(first: nat, s: Issue, s1: Issue, s2: Issue)
    requires Pushes(first, s, s1) && Pushes(first, s1, s2)
    ensures Pushes(first, s, s2)
  {
    assert From(|s.issued|, |s2.issued|) == From(|s.issued|, |s1.issued|) + From(|s1.issued|, |s2.issued|);
    Buffered.Associates(s.bus.Contents(), From(|s.issued|, |s1.issued|), From(|s1.issued|, |s2.issued|));
    hide From;
  }

  lemma OnePendingDecides(v: Version, cycle: int, first: nat, previous: seq<nat>, s: Issue, cs: seq<Candidate>)
    requires Sized(s, previous) && first == |s.issued| && |cs| <= 1 && |s.bus.buffer| < BUS_LENGTH
    ensures var p := FromPendings(v, cycle, first, previous, [], s, cs);
            && Pushes(first, s, p.issue) && |p.issue.bus.buffer| <= BUS_LENGTH
            && (p.stop || (p.kept == [] && p.skipped == []))
            && |p.kept| <= 1
            && p.issue.issued + Runners(p.kept) == s.issued + Runners(cs)
  {
    if cs == [] {
    } else {
      HandleDecides(v, cycle, first, previous, s, cs[0]);
      var h := Handle(v, cycle, first, previous, [], s, cs[0]);
      assert cs[1..] == [];
      hide Handle, Pushes;
      assert FromPendings(v, cycle, first, previous, [], h.issue, []) == Pass(h.issue, [], [], false);
      assert Runners(cs) == [cs[0].runner];
    }
  }

  lemma FromBusUnfolds(v: Version, cycle: int, first: nat, previous: seq<nat>, s: Issue, queue: seq<RunnerPc>,
                       remaining: int, h: Handled)
    requires Sized(s, previous) && queue != [] && (v == Mvp60 ==> remaining > 0)
    requires h == Handle(v, cycle, first, previous, [], s, Candidate(queue[0], NO_WIRE)) && (h.push || h.stop)
    ensures FromBus(v, cycle, first, previous, [], s, [], queue, remaining)
         == if h.stop then (h.issue, if h.push then [] else [h.candidate], queue[1..])
            else FromBus(v, cycle, first, previous, [], h.issue, [], queue[1..], remaining - 1)
  {
    assert [] + [h.candidate] == [h.candidate];
    hide Handle;
  }

  ghost predicate BusInOrder(first: nat, s: Issue, queue: seq<RunnerPc>, r: (Issue, seq<Candidate>, seq<RunnerPc>)) {
    && Pushes(first, s, r.0) && |r.0.bus.buffer| <= BUS_LENGTH
    && |r.1| <= 1
    && r.0.issued + (Runners(r.1) + r.2) == s.issued + queue
  }

  lemma {:induction false} FromBusIsInOrder(v: Version, cycle: int, first: nat, previous: seq<nat>, s: Issue,
                                            queue: seq<RunnerPc>, remaining: int)
    requires Sized(s, previous) && first <= |s.issued| && |s.bus.buffer| <= BUS_LENGTH
    requires v == Mvp60 ==> remaining == BUS_LENGTH - |s.bus.buffer|
    ensures BusInOrder(first, s, queue, FromBus(v, cycle, first, previous, [], s, [], queue, remaining))
    decreases |queue|
  {
    if (v == Mvp60 && remaining <= 0) || queue == [] {
      assert Runners([]) + queue == queue;
    } else {
      var c := Candidate(queue[0], NO_WIRE);
      HandleDecides(v, cycle, first, previous, s, c);
      var h := Handle(v, cycle, first, previous, [], s, c);
      FromBusUnfolds(v, cycle, first, previous, s, queue, remaining, h);
      hide Handle, FromBus;
      OneStepInOrder(first, s, queue, h);
      if !h.stop {
        FromBusIsInOrder(v, cycle, first, previous, h.issue, queue[1..], remaining - 1);
        PushesCompose(first, s, h.issue,
                      FromBus(v, cycle, first, previous, [], h.issue, [], queue[1..], remaining - 1).0);
      }
    }
  }

  lemma OneStepInOrder(first: nat, s: Issue, queue: seq<RunnerPc>, h: Handled)
    requires queue != [] && (h.push || h.stop) && h.candidate.runner == queue[0]
    requires h.issue.issued == (if h.push then s.issued + [queue[0]] else s.issued)
    ensures h.push ==> h.issue.issued + queue[1..] == s.issued + queue && Runners([]) + queue[1..] == queue[1..]
    ensures !h.push ==> h.issue.issued + (Runners([h.candidate]) + queue[1..]) == s.issued + queue
  {
    assert queue == [queue[0]] + queue[1..];
    assert Runners([h.candidate]) == [queue[0]];
    Buffered.Associates(s.issued, [queue[0]], queue[1..]);
  }

  /** The execute bus is within its length and at most one instruction waits in the control unit. */
  ghost predicate Tidy(u: Unit) {
    Valid(u) && |u.pendings| <= 1 && |u.issue.bus.buffer| <= BUS_LENGTH
  }

  /** Over a cycle nothing is lost, duplicated or reordered: what has been issued, the candidate that waits and what the
      input bus holds stay one and the same sequence, of which the issued part grows. Only the first issue of a cycle
      may be a branch, the bus stays within its length although MVP-6.0 never asks it, and the check against skipped
      instructions does not fire. */
  lemma CycleIsInOrder(v: Version, cycle: int, u: Unit)
    requires Tidy(u)
    ensures InOrder(u, Cycle(v, cycle, u))
  {
    hide Cycle, FromPendings, FromBus, Runners, Pushes, InOrder, From, Stream;
    if u.issue.bus.CanAdd(BUS_LENGTH) {
      var first := |u.issue.issued|;
      OnePendingDecides(v, cycle, first, u.previous, u.issue, u.pendings);
      var p := FromPendings(v, cycle, first, u.previous, [], u.issue, u.pendings);
      var remaining := BUS_LENGTH - |u.issue.bus.buffer| - (|p.issue.issued| - first);
      var r := FromBus(v, cycle, first, u.previous, p.skipped, p.issue, p.kept, u.inBus.queue, remaining);
      CycleUnfolds(v, cycle, u, p, r);
      PushesGrow(first, u.issue, p.issue);
      if p.stop {
        StopsInOrder(u, p);
      } else {
        assert p.issue.issued + Runners([]) == p.issue.issued by { assert Runners([]) == []; }
        FromBusIsInOrder(v, cycle, first, u.previous, p.issue, u.inBus.queue, remaining);
        GoesOnInOrder(u, p, r);
      }
    } else {
      BlockedInOrder(v, cycle, u);
    }
  }

  lemma CycleUnfolds(v: Version, cycle: int, u: Unit, p: Pass, r: (Issue, seq<Candidate>, seq<RunnerPc>))
    requires Valid(u) && u.issue.bus.CanAdd(BUS_LENGTH)
    requires p == FromPendings(v, cycle, |u.issue.issued|, u.previous, [], u.issue, u.pendings)
    requires r == FromBus(v, cycle, |u.issue.issued|, u.previous, p.skipped, p.issue, p.kept, u.inBus.queue,
                          BUS_LENGTH - |u.issue.bus.buffer| - (|p.issue.issued| - |u.issue.issued|))
    ensures Cycle(v, cycle, u) == if p.stop then Unit(u.inBus, p.kept, Pushed(|u.issue.issued|, p.issue), p.issue)
                                  else Unit(u.inBus.(queue := r.2), r.1, Pushed(|u.issue.issued|, r.0), r.0)
  {
    hide FromPendings, FromBus;
  }

  lemma BlockedInOrder(v: Version, cycle: int, u: Unit)
    requires Tidy(u) && !u.issue.bus.CanAdd(BUS_LENGTH)
    ensures InOrder(u, Cycle(v, cycle, u))
  {
    assert From(|u.issue.issued|, |u.issue.issued|) == [];
  }

  lemma PushesGrow(first: nat, s: Issue, s1: Issue)
    requires Pushes(first, s, s1)
    ensures |s.issued| <= |s1.issued| && |s1.bus.buffer| == |s.bus.buffer| + (|s1.issued| - |s.issued|)
  {
  }

  ghost predicate InOrder(u: Unit, t: Unit) {
    && Tidy(t)
    && Stream(t) == Stream(u)
    && Pushes(|u.issue.issued|, u.issue, t.issue)
    && t.previous == From(|u.issue.issued|, |t.issue.issued|)
  }

  lemma StopsInOrder(u: Unit, p: Pass)
    requires Tidy(u) && Pushes(|u.issue.issued|, u.issue, p.issue) && |p.issue.bus.buffer| <= BUS_LENGTH
             && |p.kept| <= 1
    requires p.issue.issued + Runners(p.kept) == u.issue.issued + Runners(u.pendings) && Sized(p.issue, u.previous)
    ensures InOrder(u, Unit(u.inBus, p.kept, Pushed(|u.issue.issued|, p.issue), p.issue))
  {
    hide Runners;
  }

  lemma GoesOnInOrder(u: Unit, p: Pass, r: (Issue, seq<Candidate>, seq<RunnerPc>))
    requires Tidy(u) && Pushes(|u.issue.issued|, u.issue, p.issue) && |p.kept| == 0
    requires p.issue.issued + Runners(p.kept) == u.issue.issued + Runners(u.pendings)
    requires BusInOrder(|u.issue.issued|, p.issue, u.inBus.queue, r) && Sized(r.0, u.previous)
    ensures InOrder(u, Unit(u.inBus.(queue := r.2), r.1, Pushed(|u.issue.issued|, r.0), r.0))
  {
    PushesCompose(|u.issue.issued|, u.issue, p.issue, r.0);
    assert p.issue.issued + Runners([]) == p.issue.issued;
    StreamAfterBus(u, p.issue, r);
    hide Runners, Stream;
  }

  lemma StreamAfterBus(u: Unit, s: Issue, r: (Issue, seq<Candidate>, seq<RunnerPc>))
    requires s.issued == u.issue.issued + Runners(u.pendings)
    requires r.0.issued + (Runners(r.1) + r.2) == s.issued + u.inBus.queue
    ensures Stream(Unit(u.inBus.(queue := r.2), r.1, [], r.0)) == Stream(u)
  {
    var rest := Buffered.Values(u.inBus.buffer);
    Buffered.Associates(r.0.issued + Runners(r.1), r.2, rest);
    Buffered.Associates(r.0.issued, Runners(r.1), r.2);
    Buffered.Associates(s.issued, u.inBus.queue, rest);
    hide Runners, Buffered.Values;
  }
}
