/** MVP-6.0 and MVP-6.1 at full speed: what they do in every single cycle with independent instructions. */
module Throughput {
  import opened Words
  import opened Isa
  import Cache
  import opened Mmu
  import opened Pipeline
  import opened Scoreboard
  import opened Control
  import opened OutOfOrder
  import opened InFlight
  import opened InFlightTheorems
  import opened IssueLaws
  import Coherence
  import Footprint
  import Sequential
  import Buffered = BufferedBus

  // ---------------------------------------------------------------- buses

  /** Entries that may be taken from cycle c on. */
  function Stamped<T>(xs: seq<T>, c: int): (b: seq<Buffered.Timed<T>>)
    ensures |b| == |xs| && forall k :: 0 <= k < |xs| ==> b[k] == Buffered.Timed(c, xs[k])
  {
    seq(|xs|, k requires 0 <= k < |xs| => Buffered.Timed(c, xs[k]))
  }

  lemma ConnectsAll<T>(xs: seq<T>, c: int)
    requires |xs| <= 2
    ensures Buffered.Bus([], Stamped(xs, c)).Connect(BUS_LENGTH, c) == Buffered.Bus(xs, [])
  {
    var b := Stamped(xs, c);
    Buffered.MovedIsLongest(0, BUS_LENGTH, b, c);
    assert Buffered.Moved(0, BUS_LENGTH, b, c) == |b|;
    assert b[..|b|] == b && Buffered.Values(b) == xs;
  }

  lemma {:induction false} AddsAll<T>(b: Buffered.Bus<T>, xs: seq<T>, c: int)
    ensures Buffered.AddAll(b, xs, c) == b.(buffer := b.buffer + Stamped(xs, c + 1))
    decreases |xs|
  {
    if xs == [] {
      assert b.buffer + Stamped(xs, c + 1) == b.buffer;
    } else {
      AddsAll(Buffered.Add(b, xs[0], c), xs[1..], c);
      assert Stamped(xs, c + 1) == [Buffered.Timed(c + 1, xs[0])] + Stamped(xs[1..], c + 1);
      Buffered.Associates(b.buffer, [Buffered.Timed(c + 1, xs[0])], Stamped(xs[1..], c + 1));
    }
  }

  // ---------------------------------------------------------------- the state of a core in full flow

  /** Register code without loads, of which no two instructions from a to b conflict. */
  ghost predicate Apart(w: World, a: nat, b: nat) {
    && Sequentially(w) && a <= b <= |w.prog|
    && (forall i :: a <= i < b ==> !w.prog[i].instr.Load?)
    && forall i, j :: a <= i < j < b ==> Independent(w.prog[i].instr, w.prog[j].instr)
  }

  ghost function DoneOf(w: World, id: nat): Done
    requires Sequentially(w) && id < |w.prog|
  {
    Done(id, w.prog[id].instr, ExeOf(w, id))
  }

  ghost function Dones(w: World, a: nat, b: nat): (ds: seq<Done>)
    requires Sequentially(w) && a <= b <= |w.prog|
    ensures |ds| == b - a && forall k :: 0 <= k < b - a ==> ds[k] == DoneOf(w, a + k)
  {
    seq(b - a, k requires 0 <= k < b - a => DoneOf(w, a + k))
  }

  ghost predicate Unwired(wires: seq<Wire>) {
    forall k :: 0 <= k < |wires| ==> wires[k] == NO_WIRE
  }

  /** The control unit has issued the first d instructions; those from a on are in flight. */
  ghost predicate Issued(w: World, s: Issue, a: nat, d: nat) {
    && a <= d <= |w.prog| && s.issued == w.prog[..d] && |s.wires| == d && Unwired(s.wires)
    && Exact(s.board, s.issued, From(a, d))
  }

  /** Before cycle c: the instructions before a have retired, those before b have executed, those before d have been
      issued, and those before e delivered, each range in the cycle just gone. */
  ghost predicate Flowing(w: World, s: Core, c: int, a: nat, b: nat, d: nat, e: nat)
    requires Sequentially(w)
  {
    && a <= b <= d <= e <= |w.prog|
    && s.unit.inBus == Buffered.Bus([], Stamped(w.prog[d..e], c)) && s.unit.pendings == [] && Known(s.unit.previous, d)
    && Issued(w, s.unit.issue, a, d) && s.unit.issue.bus == Buffered.Bus([], Stamped(From(b, d), c))
    && s.eu0.Idle? && s.eu1.Idle?
    && s.out == Buffered.Bus([], Stamped(Dones(w, a, b), c))
    && SameRegs(s.regs, w.states[a])
  }

  // ---------------------------------------------------------------- issue

  lemma InFlightIsNoConflict(w: World, s: Issue, a: nat, d: nat)
    requires Issued(w, s, a, d) && d < |w.prog| && Apart(w, a, d + 1)
    ensures NoConflict(s.board, w.prog[d].instr)
  {
    hide ReadRegisters, WriteRegisters, Sequentially, Exact;
    var i := w.prog[d].instr;
    forall r: Reg | r != ZERO
      ensures Count(s.board.writers, r) > 0 ==> r !in ReadRegisters(i) && r !in WriteRegisters(i)
      ensures Count(s.board.readers, r) > 0 ==> r !in WriteRegisters(i)
    {
      PendingMeansInFlight(s.board, s.issued, From(a, d), r);
      if Count(s.board.writers, r) > 0 {
        var id :| id in From(a, d) && r in WriteRegisters(s.issued[id].instr);
        assert Independent(w.prog[id].instr, i);
      }
      if Count(s.board.readers, r) > 0 {
        var id :| id in From(a, d) && r in ReadRegisters(s.issued[id].instr);
        assert Independent(w.prog[id].instr, i);
      }
    }
  }

  lemma SimpleIsNoBranch(w: World, d: nat)
    requires Sequentially(w) && d < |w.prog|
    ensures !IsBranch(w.prog[d].instr)
  {
    assert Follows(w, d);
  }

  lemma PushesNext(w: World, v: Version, cycle: int, first: nat, previous: seq<nat>, s: Issue, a: nat, d: nat)
    requires Issued(w, s, a, d) && d < |w.prog| && Apart(w, a, d + 1) && Sized(s, previous)
    requires |s.bus.buffer| < BUS_LENGTH
    ensures var c := Candidate(w.prog[d], NO_WIRE);
            && Handle(v, cycle, first, previous, [], s, c) == Handled(Push(s, c, cycle), c, true, false)
            && Issued(w, Push(s, c, cycle), a, d + 1)
  {
    hide Hazards, AddPending, Clashes, IsBranch, NoConflict, Exact, Apart, Sequentially;
    var c := Candidate(w.prog[d], NO_WIRE);
    ApartIsSequential(w, a, d + 1);
    InFlightIsNoConflict(w, s, a, d);
    SimpleIsNoBranch(w, d);
    NoHazardIsNoConflict(s.board, c.runner.instr);
    NothingClashes(c.runner.instr);
    assert w.prog[..d + 1] == w.prog[..d] + [w.prog[d]];
    assert From(a, d + 1) == From(a, d) + [d];
    IssueKeepsExact(s.board, s.issued, From(a, d), c.runner, From(a, d + 1));
  }

  lemma {:induction false} IssuesRange(w: World, v: Version, cycle: int, first: nat, previous: seq<nat>, s: Issue,
                                       a: nat, d: nat, e: nat, remaining: int) returns (t: Issue)
    requires Issued(w, s, a, d) && d <= e && Apart(w, a, e) && Sized(s, previous)
    requires |s.bus.buffer| + (e - d) <= BUS_LENGTH && (v == Mvp60 ==> remaining >= e - d)
    ensures FromBus(v, cycle, first, previous, [], s, [], w.prog[d..e], remaining) == (t, [], [])
    ensures Issued(w, t, a, e) && t.bus == s.bus.(buffer := s.bus.buffer + Stamped(From(d, e), cycle + 1))
    decreases e - d
  {
    hide Handle, Exact, Push;
    if d == e {
      t := s;
      assert s.bus.buffer + Stamped(From(d, e), cycle + 1) == s.bus.buffer;
    } else {
      ApartPart(w, a, d + 1, e);
      PushesNext(w, v, cycle, first, previous, s, a, d);
      var c := Candidate(w.prog[d], NO_WIRE);
      var s1 := Push(s, c, cycle);
      PushedBus(s, c, cycle);
      assert w.prog[d..e][0] == w.prog[d] && w.prog[d..e][1..] == w.prog[d + 1..e];
      t := IssuesRange(w, v, cycle, first, previous, s1, a, d + 1, e, remaining - 1);
      assert Stamped(From(d, e), cycle + 1)
          == [Buffered.Timed(cycle + 1, d)] + Stamped(From(d + 1, e), cycle + 1);
      Buffered.Associates(s.bus.buffer, [Buffered.Timed(cycle + 1, d)], Stamped(From(d + 1, e), cycle + 1));
      FromBusUnfolds(v, cycle, first, previous, s, w.prog[d..e], remaining, Handled(s1, c, true, false));
    }
  }

  lemma ApartPart(w: World, a: nat, b: nat, c: nat)
    requires Apart(w, a, c) && a <= b <= c
    ensures Apart(w, a, b)
  {
    hide Independent, Sequentially;
  }

  lemma PushedBus(s: Issue, c: Candidate, cycle: int)
    ensures Push(s, c, cycle).bus == s.bus.(buffer := s.bus.buffer + [Buffered.Timed(cycle + 1, |s.issued|)])
    ensures |Push(s, c, cycle).wires| == |s.wires| + 1 && |Push(s, c, cycle).issued| == |s.issued| + 1
  {
  }

  /** With the buses connected: the instructions delivered last are at hand, and those issued last on their way. */
  lemma ArrivesFlowing(w: World, s: Core, cycle: int, fed: seq<RunnerPc>, a: nat, b: nat, d: nat, e: nat)
    requires Sequentially(w) && Flowing(w, s, cycle, a, b, d, e) && e - d <= 2 && d - b <= 2 && b - a <= 2
    ensures var u := Arrived(s.unit, cycle, fed);
            && u == s.unit.(inBus := Buffered.Bus(w.prog[d..e], Stamped(fed, cycle + 1)),
                            issue := s.unit.issue.(bus := Buffered.Bus(From(b, d), [])))
            && s.out.Connect(BUS_LENGTH, cycle) == Buffered.Bus(Dones(w, a, b), [])
  {
    hide Exact, Sequentially, SameRegs, Unwired;
    ConnectsAll(w.prog[d..e], cycle);
    ConnectsAll(From(b, d), cycle);
    ConnectsAll(Dones(w, a, b), cycle);
    AddsAll(Buffered.Bus(w.prog[d..e], []), fed, cycle);
    assert [] + Stamped(fed, cycle + 1) == Stamped(fed, cycle + 1);
  }

  lemma IssuesArrived(w: World, v: Version, cycle: int, u: Unit, a: nat, b: nat, d: nat, e: nat)
    requires Apart(w, a, e) && d <= e <= d + 2 && Issued(w, u.issue, a, d) && Known(u.previous, d)
    requires u.inBus.queue == w.prog[d..e] && u.pendings == [] && b <= d
    requires u.issue.bus == Buffered.Bus(From(b, d), [])
    ensures var t := Control.Cycle(v, cycle, u);
            && t.inBus == u.inBus.(queue := []) && t.pendings == [] && Known(t.previous, e)
            && Issued(w, t.issue, a, e)
            && t.issue.bus == Buffered.Bus(From(b, d), Stamped(From(d, e), cycle + 1))
  {
    hide Control.Cycle, Apart, Exact, FromBus, Unwired;
    var t := IssuesRange(w, v, cycle, d, u.previous, u.issue, a, d, e, 2);
    assert [] + Stamped(From(d, e), cycle + 1) == Stamped(From(d, e), cycle + 1);
    CycleUnfolds(v, cycle, u, Pass(u.issue, [], [], false), (t, [], []));
  }

  lemma IssueFlows(w: World, v: Version, s: Core, cycle: int, fed: seq<RunnerPc>, a: nat, b: nat, d: nat, e: nat)
    requires Apart(w, a, e) && Flowing(w, s, cycle, a, b, d, e) && e - d <= 2 && d - b <= 2 && b - a <= 2
    ensures var t := IssueStage(v, cycle, s, fed);
            && t.unit.inBus == Buffered.Bus([], Stamped(fed, cycle + 1)) && t.unit.pendings == []
            && Known(t.unit.previous, e)
            && Issued(w, t.unit.issue, a, e)
            && t.unit.issue.bus == Buffered.Bus(From(b, d), Stamped(From(d, e), cycle + 1))
            && t.eu0.Idle? && t.eu1.Idle? && t.regs == s.regs
            && t.out == Buffered.Bus(Dones(w, a, b), [])
  {
    hide Exact, Control.Cycle, Apart, Sequentially, SameRegs, Unwired, Arrived;
    ApartIsSequential(w, a, e);
    ArrivesFlowing(w, s, cycle, fed, a, b, d, e);
    IssuesArrived(w, v, cycle, Arrived(s.unit, cycle, fed), a, b, d, e);
  }

  // ---------------------------------------------------------------- execute

  /** What an instruction in flight computes does not depend on the ones it is independent of. */
  lemma ComputesResult(w: World, regs: Regs, a: nat, id: nat)
    requires Apart(w, a, id + 1) && a <= id && SameRegs(regs, w.states[a])
    ensures Run(w.prog[id].instr, NO_FORWARD, regs, w.labels, w.prog[id].pc, []) == Ok(ExeOf(w, id))
    ensures MemoryRead(w.prog[id].instr, NO_FORWARD, regs) == []
  {
    var i := w.prog[id].instr;
    assert Follows(w, id);
    assert MemoryRead(i, NO_FORWARD, w.states[id]) == [];
    assert Sequential.BytesAt(w.memory, []) == [];
    forall k | 0 <= k < |ReadRegisters(i)|
      ensures RegisterRead(regs, NO_FORWARD, ReadRegisters(i)[k])
           == RegisterRead(w.states[id], NO_FORWARD, ReadRegisters(i)[k])
    {
      var r := ReadRegisters(i)[k];
      assert r in ReadRegisters(i);
      if r != ZERO {
        forall j | a <= j < id ensures r !in Writes(w, j) { assert Independent(w.prog[j].instr, i); }
        Unwritten(w, a, id, r);
      }
    }
    Footprint.ReadsAreComplete(i, NO_FORWARD, regs, NO_FORWARD, w.states[id], w.labels, w.prog[id].pc, []);
    hide Run, MemoryRead;
  }

  /** An idle execute unit takes one instruction off the bus and is done with it in the same cycle. */
  lemma UnitTakesOne(w: World, cycle: int, issued: seq<RunnerPc>, wires: seq<Wire>, regs: Regs, s: Shared, a: nat,
                     x: nat, d: nat)
    requires Apart(w, a, d) && a <= x <= d <= |issued| == |wires| && issued <= w.prog && Unwired(wires)
    requires SameRegs(regs, w.states[a]) && s.bus.queue == From(x, d) && |s.out.buffer| < BUS_LENGTH
    ensures EuCycle(w.labels, cycle, issued, wires, regs, Idle, s)
         == Some((Idle, if x == d then s else s.(bus := s.bus.(queue := From(x + 1, d)),
                                                 out := Buffered.Add(s.out, DoneOf(w, x), cycle))))
  {
    hide Run, MemoryRead, Apart, Sequentially, SameRegs;
    ApartIsSequential(w, a, d);
    if x < d {
      ApartPart(w, a, x + 1, d);
      ComputesResult(w, regs, a, x);
      ExeShape(w, x);
      assert From(x, d)[0] == x && From(x, d)[1..] == From(x + 1, d);
      assert issued[x] == w.prog[x] && wires[x] == NO_WIRE;
    }
  }

  lemma ExecuteFlows(w: World, s: Core, cycle: int, a: nat, b: nat, d: nat, e: nat)
    requires Apart(w, a, e) && a <= b <= d <= e && d - b <= 2
    requires Issued(w, s.unit.issue, a, e) && s.unit.issue.bus.queue == From(b, d)
    requires s.eu0.Idle? && s.eu1.Idle? && s.out.buffer == [] && SameRegs(s.regs, w.states[a])
    ensures ExecuteStage(w.labels, cycle, s)
         == Some(s.(unit := s.unit.(issue := s.unit.issue.(bus := s.unit.issue.bus.(queue := []))),
                    out := s.out.(buffer := Stamped(Dones(w, b, d), cycle + 1))))
  {
    hide EuCycle, Exact, Run;
    ApartPart(w, a, d, e);
    var issue, sh := s.unit.issue, SharedOf(s);
    UnitTakesOne(w, cycle, issue.issued, issue.wires, s.regs, sh, a, b, d);
    var sh1 := EuCycle(w.labels, cycle, issue.issued, issue.wires, s.regs, Idle, sh).value.1;
    var x := if b == d then b else b + 1;
    UnitTakesOne(w, cycle, issue.issued, issue.wires, s.regs, sh1, a, x, d);
    var sh2 := EuCycle(w.labels, cycle, issue.issued, issue.wires, s.regs, Idle, sh1).value.1;
    assert From(d, d) == [];
    assert sh2.bus == issue.bus.(queue := []);
    assert sh2.out.buffer == Stamped(Dones(w, b, d), cycle + 1);
    hide Apart, Sequentially, Issued;
  }

  // ---------------------------------------------------------------- retire

  function Written(regs: Regs, e: Execution): Regs {
    if e.registerChange then regs[e.register := e.registerValue] else regs
  }

  lemma NextState(w: World, regs: Regs, a: nat)
    requires Sequentially(w) && a < |w.prog| && SameRegs(regs, w.states[a])
    ensures SameRegs(Written(regs, ExeOf(w, a)), w.states[a + 1])
  {
    ExeShape(w, a);
    hide Sequentially;
    forall r: Reg ensures Read(Written(regs, ExeOf(w, a)), r) == Read(w.states[a + 1], r) {
      assert Read(regs, r) == Read(w.states[a], r);
    }
  }

  lemma ReleasesOne(w: World, s: Issue, a: nat, d: nat)
    requires Issued(w, s, a, d) && a < d
    ensures Issued(w, s.(board := DeletePending(s.board, w.prog[a].instr)), a + 1, d)
  {
    assert From(a, d) == [a] + From(a + 1, d);
    RetireKeepsExact(s.board, s.issued, From(a, d), a, From(a + 1, d));
    hide DeletePending, Exact;
  }

  lemma RetiresOne(w: World, s: Core, a: nat, b: nat, d: nat)
    requires Sequentially(w) && a <= b <= d <= |w.prog| && Issued(w, s.unit.issue, a, d)
    requires s.out.queue == Dones(w, a, b) && SameRegs(s.regs, w.states[a])
    ensures var t, x := WriteOnce(s), if a == b then a else a + 1;
            && t == s.(regs := t.regs, unit := s.unit.(issue := s.unit.issue.(board := t.unit.issue.board)),
                       out := s.out.(queue := Dones(w, x, b)))
            && Issued(w, t.unit.issue, x, d) && SameRegs(t.regs, w.states[x])
  {
    hide DeletePending, Exact, Sequentially, Issued, SameRegs;
    if a < b {
      NextState(w, s.regs, a);
      ReleasesOne(w, s.unit.issue, a, d);
      assert s.out.queue[0] == DoneOf(w, a) && Dones(w, a, b)[1..] == Dones(w, a + 1, b);
    }
  }

  // ---------------------------------------------------------------- a cycle

  /** In one cycle the instructions delivered in the cycle before are issued, those issued before it execute, and those
      executed before it retire, all of them. */
  lemma CycleFlows(w: World, v: Version, s: Core, cycle: int, fed: seq<RunnerPc>, a: nat, b: nat, d: nat, e: nat)
    requires Apart(w, a, e) && Flowing(w, s, cycle, a, b, d, e) && e - d <= 2 && d - b <= 2 && b - a <= 2
    requires Valid(s.unit) && e + |fed| <= |w.prog| && fed == w.prog[e..e + |fed|]
    ensures var t := CoreCycle(v, w.labels, cycle, s, fed);
            t.Some? && Flowing(w, t.value, cycle + 1, b, d, e, e + |fed|) && Valid(t.value.unit)
  {
    hide Exact, Apart, IssueStage, ExecuteStage, Sequentially, WriteOnce;
    ApartIsSequential(w, a, e);
    IssueFlows(w, v, s, cycle, fed, a, b, d, e);
    var t0 := IssueStage(v, cycle, s, fed);
    ExecuteFlows(w, t0, cycle, a, b, d, e);
    var t1 := ExecuteStage(w.labels, cycle, t0).value;
    RetiresOne(w, t1, a, b, e);
    var t2, x := WriteOnce(t1), if a == b then a else a + 1;
    RetiresOne(w, t2, x, b, e);
    assert Dones(w, b, b) == [];
  }

  lemma ApartIsSequential(w: World, a: nat, b: nat)
    requires Apart(w, a, b)
    ensures Sequentially(w)
  {
  }

  // ---------------------------------------------------------------- runs

  /** How many instructions have been delivered in the first m cycles. */
  function Upto(feeds: seq<seq<RunnerPc>>, m: int): nat
    requires m <= |feeds|
  {
    if m <= 0 then 0 else |Delivered(feeds[..m])|
  }

  /** What is delivered within three cycles, of which this is the last, does not conflict. */
  ghost predicate ApartUpTo(w: World, feeds: seq<seq<RunnerPc>>, m: nat)
    requires m <= |feeds|
  {
    Apart(w, Upto(feeds, m - 3), Upto(feeds, m))
  }

  /** The decode unit delivers the program, at most two instructions a cycle, and what it delivers within three cycles
      does not conflict. */
  ghost predicate Paced(w: World, feeds: seq<seq<RunnerPc>>) {
    && Sequentially(w) && Delivered(feeds) <= w.prog
    && (forall k :: 0 <= k < |feeds| ==> |feeds[k]| <= 2)
    && (forall m :: 0 <= m <= |feeds| ==> ApartUpTo(w, feeds, m))
  }

  lemma UptoGrows(feeds: seq<seq<RunnerPc>>, m: nat)
    requires m < |feeds|
    ensures Upto(feeds, m + 1) == Upto(feeds, m) + |feeds[m]|
  {
    assert feeds[..m + 1][..m] == feeds[..m];
    if m == 0 { assert feeds[..0] == [] && Delivered(feeds[..0]) == []; }
  }

  lemma UptoOfPart(feeds: seq<seq<RunnerPc>>, n: nat, m: int)
    requires m <= n <= |feeds|
    ensures Upto(feeds[..n], m) == Upto(feeds, m)
  {
    if m > 0 { assert feeds[..n][..m] == feeds[..m]; }
  }

  lemma PartIsApart(w: World, feeds: seq<seq<RunnerPc>>, m: nat)
    requires Paced(w, feeds) && m < |feeds|
    ensures ApartUpTo(w, feeds[..|feeds| - 1], m)
  {
    hide Apart, Sequentially, Upto;
    assert ApartUpTo(w, feeds, m);
    UptoOfPart(feeds, |feeds| - 1, m);
    UptoOfPart(feeds, |feeds| - 1, m - 3);
  }

  lemma PacedPart(w: World, feeds: seq<seq<RunnerPc>>)
    requires Paced(w, feeds) && feeds != []
    ensures Paced(w, feeds[..|feeds| - 1])
    ensures Delivered(feeds) == Delivered(feeds[..|feeds| - 1]) + feeds[|feeds| - 1]
  {
    var last := |feeds| - 1;
    hide ApartUpTo, Sequentially;
    forall m: nat | m <= last ensures ApartUpTo(w, feeds[..last], m) { PartIsApart(w, feeds, m); }
    PrefixOfSum(Delivered(feeds[..last]), feeds[last], w.prog);
  }

  lemma PrefixOfSum<T>(a: seq<T>, b: seq<T>, c: seq<T>)
    requires a + b <= c
    ensures a <= c
  {
    assert (a + b)[..|a|] == a;
  }

  lemma Ranges(w: World, feeds: seq<seq<RunnerPc>>, n: nat)
    requires Paced(w, feeds) && n <= |feeds|
    ensures var a, b, d, e := Upto(feeds, n - 3), Upto(feeds, n - 2), Upto(feeds, n - 1), Upto(feeds, n);
            a <= b <= d <= e && b - a <= 2 && d - b <= 2 && e - d <= 2 && Apart(w, a, e)
  {
    if n >= 1 { UptoGrows(feeds, n - 1); }
    if n >= 2 { UptoGrows(feeds, n - 2); }
    if n >= 3 { UptoGrows(feeds, n - 3); }
    assert ApartUpTo(w, feeds, n);
    hide Apart, Upto;
  }

  /** Full speed: as long as what is delivered within three cycles does not conflict, up to two instructions a cycle are
      issued in the cycle after the one that delivered them, execute in the one after that, and have retired one later,
      from power-up or any flush on; in between the registers are those of program order. */
  lemma {:induction false} FullSpeed(w: World, v: Version, from: Beginning, feeds: seq<seq<RunnerPc>>)
    requires Paced(w, feeds) && Begins(from, w.states[0], w.memory)
    ensures var n, s := |feeds|, CoreAfter(v, w.labels, from, feeds);
            && s.Some? && Valid(s.value.unit)
            && Flowing(w, s.value, from.cycle + n + 1, Upto(feeds, n - 3), Upto(feeds, n - 2), Upto(feeds, n - 1),
                       Upto(feeds, n))
  {
    hide CoreCycle, Flowing, Apart, Sequentially, Upto;
    if feeds == [] {
      EmptyFlows(w, from);
      NothingUpto();
    } else {
      var last := |feeds| - 1;
      PacedPart(w, feeds);
      FullSpeed(w, v, from, feeds[..last]);
      Ranges(w, feeds, last);
      UptoOfPart(feeds, last, last - 3);
      UptoOfPart(feeds, last, last - 2);
      UptoOfPart(feeds, last, last - 1);
      UptoOfPart(feeds, last, last);
      UptoGrows(feeds, last);
      Ranges(w, feeds, last + 1);
      var s := CoreAfter(v, w.labels, from, feeds[..last]).value;
      FedPart(w, feeds);
      CycleFlows(w, v, s, from.cycle + |feeds|, feeds[last], Upto(feeds, last - 3), Upto(feeds, last - 2),
                 Upto(feeds, last - 1), Upto(feeds, last));
    }
  }

  lemma FedPart(w: World, feeds: seq<seq<RunnerPc>>)
    requires feeds != [] && Delivered(feeds) <= w.prog
    ensures var e := Upto(feeds, |feeds| - 1);
            e + |feeds[|feeds| - 1]| <= |w.prog| && feeds[|feeds| - 1] == w.prog[e..e + |feeds[|feeds| - 1]|]
  {
    var last := |feeds| - 1;
    var before, fed := Delivered(feeds[..last]), feeds[last];
    assert Upto(feeds, last) == |before| by { if last == 0 { assert feeds[..0] == []; } }
    assert Delivered(feeds) == before + fed;
    assert w.prog[..|before + fed|] == before + fed;
    assert w.prog[|before|..|before| + |fed|] == (before + fed)[|before|..];
  }

  lemma NothingUpto()
    ensures forall m: int :: m <= 0 ==> Upto([], m) == 0
  {
  }

  lemma EmptyFlows(w: World, from: Beginning)
    requires Sequentially(w) && Begins(from, w.states[0], w.memory)
    ensures Valid(from.core.unit) && Flowing(w, from.core, from.cycle + 1, 0, 0, 0, 0)
  {
    SequentiallySizes(w);
    hide Coherence.Coherent, Sequentially;
    assert From(0, 0) == [] && w.prog[0..0] == [] && w.prog[..0] == [];
    assert Dones(w, 0, 0) == [];
  }

  // ---------------------------------------------------------------- waiting

  /** A unit with an instruction to prepare waits if and only if the write bus is full or the instruction is to receive
      a value that has not been sent; otherwise it starts with that value, and empties the channel. */
  lemma UnitWaitsExactly(labels: map<string, Word>, cycle: int, regs: Regs, id: nat, runner: RunnerPc, wire: Wire,
                         s: Shared)
    ensures var r := PrepareRun(labels, cycle, regs, id, runner, wire, s);
            var k := if wire.receiver.Some? then wire.receiver.value else 0;
            var sent := wire.receiver.Some? && k < |s.channels| && s.channels[k].value.Some?;
            && (r == Some((Preparing(id, runner, wire), s))
                <==> |s.out.buffer| == 2 || (wire.receiver.Some? && !sent))
            && (|s.out.buffer| != 2 && sent ==>
                  r == Start(labels, cycle, regs, id, runner, wire, Forward(wire.register, s.channels[k].value.value),
                             s.(channels := s.channels[k := s.channels[k].(value := None)])))
            && (|s.out.buffer| != 2 && wire.receiver.None? ==>
                  r == Start(labels, cycle, regs, id, runner, wire, NO_FORWARD, s))
  {
    hide Start;
    NeverPrepares(labels, cycle, regs, id, runner, wire, NO_FORWARD, s);
    if wire.receiver.Some? && wire.receiver.value < |s.channels| && s.channels[wire.receiver.value].value.Some? {
      var k := wire.receiver.value;
      NeverPrepares(labels, cycle, regs, id, runner, wire, Forward(wire.register, s.channels[k].value.value),
                    s.(channels := s.channels[k := s.channels[k].(value := None)]));
    }
  }

  lemma NeverPrepares(labels: map<string, Word>, cycle: int, regs: Regs, id: nat, runner: RunnerPc, wire: Wire,
                      f: Forward, s: Shared)
    ensures var r := Start(labels, cycle, regs, id, runner, wire, f, s); r.Some? ==> !r.value.0.Preparing?
  {
    hide Finish, Cache.GetAll, MemoryRead;
    FinishIsIdle(labels, cycle, regs, id, runner, wire, f, [], s);
  }

  // ---------------------------------------------------------------- loads

  /** What an execute unit finds in a cycle. */
  datatype Surroundings = Surroundings(cycle: int, issued: seq<RunnerPc>, wires: seq<Wire>, regs: Regs, shared: Shared)

  /** An execute unit after some cycles, whatever the rest of the core does meanwhile. */
  function UnitAfter(labels: map<string, Word>, eu: Eu, around: seq<Surroundings>): Option<Eu> {
    if around == [] then Some(eu) else
      var before, x := UnitAfter(labels, eu, around[..|around| - 1]), around[|around| - 1];
      if before.None? then None else
        var r := EuCycle(labels, x.cycle, x.issued, x.wires, x.regs, before.value, x.shared);
        if r.None? then None else Some(r.value.0)
  }

  lemma {:induction false} CountsDown(labels: map<string, Word>, eu: Eu, around: seq<Surroundings>)
    requires eu.Loading? && |around| <= eu.remaining
    ensures UnitAfter(labels, eu, around) == Some(eu.(remaining := eu.remaining - |around|))
  {
    hide Finish, PrepareRun, LoadMiss;
    if around != [] { CountsDown(labels, eu, around[..|around| - 1]); }
  }

  lemma FinishIsIdle(labels: map<string, Word>, cycle: int, regs: Regs, id: nat, x: RunnerPc, wire: Wire, f: Forward,
                     bytes: seq<Byte>, s: Shared)
    ensures var r := Finish(labels, cycle, regs, id, x, wire, f, bytes, s); r.Some? ==> r.value.0.Idle?
  {
    hide Run, Fill, Buffered.Add;
  }

  /** A load that starts in one cycle is done in the next if the L1D holds all it needs, and else fifty cycles later,
      not before and not after, whatever the other units do. */
  lemma UnitLoads(labels: map<string, Word>, cycle: int, regs: Regs, id: nat, runner: RunnerPc, wire: Wire, f: Forward,
                  s: Shared, around: seq<Surroundings>)
    requires runner.instr.Load?
    ensures Start(labels, cycle, regs, id, runner, wire, f, s).Some?
    ensures var addrs := MemoryRead(runner.instr, f, regs);
            var wait := if forall k :: 0 <= k < |addrs| ==> Coherence.Resident(s.lines, addrs[k]) then 1 else 50;
            var u := UnitAfter(labels, Start(labels, cycle, regs, id, runner, wire, f, s).value.0, around);
            && (|around| < wait ==> u.Some? && u.value.Loading?)
            && (|around| == wait ==> u.None? || u.value.Idle?)
  {
    hide EuCycle, Start, MemoryRead, Coherence.Resident, UnitAfter;
    StartsLoading(labels, cycle, regs, id, runner, wire, f, s);
    var eu := Start(labels, cycle, regs, id, runner, wire, f, s).value.0;
    if |around| <= eu.remaining {
      CountsDown(labels, eu, around);
    } else if |around| == eu.remaining + 1 {
      var x := around[|around| - 1];
      CountsDown(labels, eu, around[..|around| - 1]);
      DoneIsIdle(labels, eu.(remaining := 0), x);
      LastCycle(labels, eu, around);
    }
  }

  lemma LastCycle(labels: map<string, Word>, eu: Eu, around: seq<Surroundings>)
    requires around != [] && UnitAfter(labels, eu, around[..|around| - 1]).Some?
    ensures var before, x := UnitAfter(labels, eu, around[..|around| - 1]).value, around[|around| - 1];
            var r := EuCycle(labels, x.cycle, x.issued, x.wires, x.regs, before, x.shared);
            UnitAfter(labels, eu, around) == if r.None? then None else Some(r.value.0)
  {
    hide EuCycle;
  }

  lemma StartsLoading(labels: map<string, Word>, cycle: int, regs: Regs, id: nat, runner: RunnerPc, wire: Wire,
                      f: Forward, s: Shared)
    requires runner.instr.Load?
    ensures var addrs := MemoryRead(runner.instr, f, regs);
            var r := Start(labels, cycle, regs, id, runner, wire, f, s);
            && r.Some? && r.value.0.Loading?
            && r.value.0.remaining
               == if forall k :: 0 <= k < |addrs| ==> Coherence.Resident(s.lines, addrs[k]) then 0 else 49
  {
    hide Cache.GetAll, Coherence.Resident, Addresses;
    var addrs := MemoryRead(runner.instr, f, regs);
    assert |addrs| == Bytes(runner.instr.width);
    Coherence.GetAllPermutes(s.lines, addrs);
  }

  lemma DoneIsIdle(labels: map<string, Word>, eu: Eu, x: Surroundings)
    requires eu.Loading? && eu.remaining == 0
    ensures var r := EuCycle(labels, x.cycle, x.issued, x.wires, x.regs, eu, x.shared); r.Some? ==> r.value.0.Idle?
  {
    hide Finish;
    if eu.hit.Some? {
      FinishIsIdle(labels, x.cycle, x.regs, eu.id, eu.runner, eu.wire, eu.forward, eu.hit.value, x.shared);
    } else if eu.addrs != [] {
      var l := LoadMiss(x.shared.lines, x.shared.memory, eu.addrs);
      if l.Some? {
        FinishIsIdle(labels, x.cycle, x.regs, eu.id, eu.runner, eu.wire, eu.forward, l.value.bytes,
                     x.shared.(lines := l.value.lines, memory := l.value.memory));
      }
    }
  }
}
