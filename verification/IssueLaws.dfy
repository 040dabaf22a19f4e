/** Exactly what the control units of MVP-6.0 and MVP-6.1 issue in a cycle (proc/mvp6-0/cu.go, proc/mvp6-1/cu.go). */
module IssueLaws {
  import opened Words
  import opened Isa
  import opened Pipeline
  import opened Scoreboard
  import opened Control
  import Buffered = BufferedBus

  // ---------------------------------------------------------------- conflicts and forwards

  predicate Awaited(b: Board, r: Reg) { r != ZERO && Count(b.writers, r) > 0 }

  /** A register to write that is still to be written or read. */
  predicate Claimed(b: Board, r: Reg) { r != ZERO && (Count(b.writers, r) > 0 || Count(b.readers, r) > 0) }

  ghost predicate NoConflict(b: Board, i: Instr) {
    && (forall r :: r in ReadRegisters(i) ==> !Awaited(b, r))
    && (forall r :: r in WriteRegisters(i) ==> !Claimed(b, r))
  }

  lemma ConflictIsHazard(b: Board, i: Instr, r: Reg)
    requires (r in ReadRegisters(i) && Awaited(b, r)) || (r in WriteRegisters(i) && Claimed(b, r))
    ensures Hazards(b, i) != []
  {
    var h := Hazard(if r in ReadRegisters(i) && Awaited(b, r) then ReadAfterWrite
                    else if Count(b.writers, r) > 0 then WriteAfterWrite else WriteAfterRead, r);
    HazardsAreExact(b, i, h);
    hide Hazards;
    assert h in Hazards(b, i);
  }

  lemma HazardIsConflict(b: Board, i: Instr)
    requires Hazards(b, i) != []
    ensures !NoConflict(b, i)
  {
    var h := Hazards(b, i)[0];
    HazardsAreExact(b, i, h);
    hide Hazards;
    assert h in Hazards(b, i);
    assert if h.kind == ReadAfterWrite then Awaited(b, h.register) else Claimed(b, h.register);
  }

  lemma NoHazardIsNoConflict(b: Board, i: Instr)
    ensures Hazards(b, i) == [] <==> NoConflict(b, i)
  {
    hide Hazards, Awaited, Claimed, ReadRegisters, WriteRegisters;
    if Hazards(b, i) != [] {
      HazardIsConflict(b, i);
    } else if !NoConflict(b, i) {
      var r: Reg :| (r in ReadRegisters(i) && Awaited(b, r)) || (r in WriteRegisters(i) && Claimed(b, r));
      ConflictIsHazard(b, i, r);
    }
  }

  /** The only conflict is that of one operand, still to be written. */
  ghost predicate OneOperandAwaited(b: Board, i: Instr) {
    && (forall r :: r in WriteRegisters(i) ==> !Claimed(b, r))
    && exists k :: 0 <= k < |ReadRegisters(i)| && Awaited(b, ReadRegisters(i)[k])
         && forall j :: 0 <= j < |ReadRegisters(i)| && j != k ==> !Awaited(b, ReadRegisters(i)[j])
  }

  /** An instruction of the previous cycle writes something that this one reads. */
  ghost predicate MadeBefore(previous: seq<nat>, issued: seq<RunnerPc>, i: Instr)
    requires Known(previous, |issued|)
  {
    exists k :: 0 <= k < |previous| && Feeds(issued[previous[k]].instr, i)
  }

  ghost predicate Feeds(a: Instr, b: Instr) {
    exists r :: r in WriteRegisters(a) && r in ReadRegisters(b) && r != ZERO
  }

  lemma SharedFeeds(a: Instr, b: Instr)
    ensures Control.Shared(WriteRegisters(a), ReadRegisters(b)).Some? <==> Feeds(a, b)
  {
    SharedIsShared(WriteRegisters(a), ReadRegisters(b));
  }

  /** The k-th of the previous instructions is the first that feeds this one. */
  ghost predicate FirstFeeds(previous: seq<nat>, issued: seq<RunnerPc>, i: Instr, k: nat)
    requires Known(previous, |issued|) && k < |previous|
  {
    Feeds(issued[previous[k]].instr, i) && forall j :: 0 <= j < k ==> !Feeds(issued[previous[j]].instr, i)
  }

  lemma FirstLater(previous: seq<nat>, issued: seq<RunnerPc>, i: Instr, k: nat)
    requires Known(previous, |issued|) && 0 < |previous| && !Feeds(issued[previous[0]].instr, i)
    requires k + 1 < |previous| && FirstFeeds(previous[1..], issued, i, k)
    ensures FirstFeeds(previous, issued, i, k + 1)
  {
    hide Feeds;
    forall j | 0 <= j < k + 1 ensures !Feeds(issued[previous[j]].instr, i) {
      if j > 0 { assert previous[j] == previous[1..][j - 1]; }
    }
  }

  lemma {:induction false} ChooseFinds(previous: seq<nat>, issued: seq<RunnerPc>, i: Instr) returns (k: nat)
    requires Known(previous, |issued|)
    ensures Choose(previous, issued, i).None? ==> !MadeBefore(previous, issued, i)
    ensures Choose(previous, issued, i).Some? ==>
      var (p, r) := Choose(previous, issued, i).value;
      && k < |previous| && previous[k] == p && FirstFeeds(previous, issued, i, k)
      && r != ZERO && r in WriteRegisters(issued[p].instr) && r in ReadRegisters(i)
    decreases |previous|
  {
    hide Feeds, Control.Shared, FirstFeeds, ReadRegisters, WriteRegisters;
    k := 0;
    if previous != [] {
      var a := issued[previous[0]].instr;
      SharedFeeds(a, i);
      SharedIsShared(WriteRegisters(a), ReadRegisters(i));
      if Feeds(a, i) {
        FirstIsFirst(previous, issued, i);
      } else {
        var j := ChooseFinds(previous[1..], issued, i);
        MadeLater(previous, issued, i);
        k := j + 1;
        if Choose(previous, issued, i).Some? { FirstLater(previous, issued, i, j); }
      }
    }
  }

  lemma FirstIsFirst(previous: seq<nat>, issued: seq<RunnerPc>, i: Instr)
    requires Known(previous, |issued|) && previous != [] && Feeds(issued[previous[0]].instr, i)
    ensures FirstFeeds(previous, issued, i, 0)
  {
  }

  lemma MadeLater(previous: seq<nat>, issued: seq<RunnerPc>, i: Instr)
    requires Known(previous, |issued|) && previous != [] && !Feeds(issued[previous[0]].instr, i)
    ensures MadeBefore(previous, issued, i) ==> MadeBefore(previous[1..], issued, i)
  {
    hide Feeds;
    if MadeBefore(previous, issued, i) {
      var k :| 0 <= k < |previous| && Feeds(issued[previous[k]].instr, i);
      assert Feeds(issued[previous[1..][k - 1]].instr, i);
    }
  }

  lemma AtMostTwo(i: Instr)
    ensures |ReadRegisters(i)| <= 2
  {
  }

  lemma OneHazard(b: Board, i: Instr)
    ensures |Hazards(b, i)| == 1 && Hazards(b, i)[0].kind == ReadAfterWrite <==> OneOperandAwaited(b, i)
  {
    hide ReadRegisters, WriteRegisters, ReadHazards, WriteHazards, Awaited, Claimed;
    AtMostTwo(i);
    var rs, ws := ReadRegisters(i), WriteRegisters(i);
    var x, y := ReadHazards(b, rs), WriteHazards(b, ws);
    WritesConflict(b, ws);
    ReadsConflict(b, rs);
    OneOfTwo(b, rs);
    assert Hazards(b, i) == x + y;
    hide Hazards;
    if |x| == 1 && y == [] { assert (x + y)[0] == x[0]; }
    if |x| == 0 && y != [] { assert (x + y)[0] == y[0]; }
  }

  lemma OneOfTwo(b: Board, rs: seq<Reg>)
    requires |rs| <= 2
    ensures (exists k :: 0 <= k < |rs| && Awaited(b, rs[k])
                           && forall j :: 0 <= j < |rs| && j != k ==> !Awaited(b, rs[j]))
       <==> (if |rs| > 0 && Awaited(b, rs[0]) then 1 else 0) + (if |rs| > 1 && Awaited(b, rs[1]) then 1 else 0) == 1
  {
    hide Awaited;
  }

  lemma WritesConflict(b: Board, ws: seq<Reg>)
    requires |ws| <= 1
    ensures WriteHazards(b, ws) == [] <==> forall r :: r in ws ==> !Claimed(b, r)
    ensures forall k :: 0 <= k < |WriteHazards(b, ws)| ==> WriteHazards(b, ws)[k].kind != ReadAfterWrite
  {
    if ws != [] { assert ws[1..] == [] && ws[0] in ws; }
  }

  lemma ReadsConflict(b: Board, rs: seq<Reg>)
    requires |rs| <= 2
    ensures |ReadHazards(b, rs)|
         == (if |rs| > 0 && Awaited(b, rs[0]) then 1 else 0) + (if |rs| > 1 && Awaited(b, rs[1]) then 1 else 0)
    ensures forall k :: 0 <= k < |ReadHazards(b, rs)| ==> ReadHazards(b, rs)[k].kind == ReadAfterWrite
  {
    if |rs| > 0 {
      assert rs[1..] == if |rs| > 1 then [rs[1]] else [];
      if |rs| > 1 { assert rs[1..][1..] == []; }
    }
  }

  /** MVP-6.1 forwards to an instruction if and only if it waits for one operand and nothing else, and one of the
      instructions pushed in the previous cycle writes something that it reads; it takes the first of these. */
  lemma ForwardsExactly(previous: seq<nat>, s: Issue, i: Instr)
    requires Known(previous, |s.issued|)
    ensures ShouldForward(previous, s, i).Some? <==>
      OneOperandAwaited(s.board, i) && MadeBefore(previous, s.issued, i)
    ensures ShouldForward(previous, s, i).Some? ==>
      var (p, r) := ShouldForward(previous, s, i).value;
      && r != ZERO && r in WriteRegisters(s.issued[p].instr) && r in ReadRegisters(i)
      && exists k :: 0 <= k < |previous| && previous[k] == p && FirstFeeds(previous, s.issued, i, k)
  {
    OneHazard(s.board, i);
    var k := ChooseFinds(previous, s.issued, i);
    hide Hazards, Choose, OneOperandAwaited, Feeds;
    if Choose(previous, s.issued, i).Some? { FirstMakes(previous, s.issued, i, k); }
  }

  lemma FirstMakes(previous: seq<nat>, issued: seq<RunnerPc>, i: Instr, k: nat)
    requires Known(previous, |issued|) && k < |previous| && FirstFeeds(previous, issued, i, k)
    ensures MadeBefore(previous, issued, i)
  {
  }

  // ---------------------------------------------------------------- one candidate

  ghost predicate Forwardable(v: Version, b: Board, previous: seq<nat>, issued: seq<RunnerPc>, i: Instr)
    requires Known(previous, |issued|)
  {
    v == Mvp61 && OneOperandAwaited(b, i) && MadeBefore(previous, issued, i)
  }

  lemma NoClash(i: Instr)
    ensures !Clashes([], i)
  {
  }

  lemma OneConflictIsOne(b: Board, i: Instr)
    ensures OneOperandAwaited(b, i) ==> !NoConflict(b, i)
  {
    if OneOperandAwaited(b, i) {
      var k :| 0 <= k < |ReadRegisters(i)| && Awaited(b, ReadRegisters(i)[k]);
      assert ReadRegisters(i)[k] in ReadRegisters(i);
    }
  }

  /** With nothing skipped before it a candidate is pushed if and only if it is no branch behind another issue, the bus
      has room, where the core asks, and it meets no conflict or can be forwarded to; a forward ends the cycle, and so
      does a candidate that is not pushed. */
  lemma PushesExactly(v: Version, cycle: int, first: nat, previous: seq<nat>, s: Issue, c: Candidate)
    requires Sized(s, previous)
    ensures var h := Handle(v, cycle, first, previous, [], s, c);
            var i := c.runner.instr;
            && (h.push <==>
                  && !(|s.issued| > first && IsBranch(i))
                  && (v == Mvp61 ==> s.bus.CanAdd(BUS_LENGTH))
                  && (NoConflict(s.board, i) || Forwardable(v, s.board, previous, s.issued, i)))
            && (h.stop <==> !h.push || !NoConflict(s.board, i))
            && (h.push ==> h.issue.board == AddPending(s.board, i) && h.issue.issued == s.issued + [c.runner]
                           && h.issue.bus == Buffered.Add(s.bus, |s.issued|, cycle))
            && (!h.push ==> h.issue.board == s.board && h.issue.issued == s.issued && h.issue.bus == s.bus)
  {
    hide Hazards, ShouldForward, IsBranch, NoConflict, Clashes, OneOperandAwaited, MadeBefore;
    NoClash(c.runner.instr);
    NoHazardIsNoConflict(s.board, c.runner.instr);
    ForwardsExactly(previous, s, c.runner.instr);
    OneConflictIsOne(s.board, c.runner.instr);
  }

  // ---------------------------------------------------------------- one cycle

  /** The scoreboard once more instructions have been issued. */
  function BoardWith(b: Board, rs: seq<RunnerPc>): Board {
    if rs == [] then b else AddPending(BoardWith(b, rs[..|rs| - 1]), rs[|rs| - 1].instr)
  }

  /** What the control unit has before it, in order. */
  function AtHand(u: Unit): seq<RunnerPc> { Runners(u.pendings) + u.inBus.queue }

  /** The k-th instruction at hand, from 0, may be issued behind the ones before it: the bus has room, only the first
      may be a branch, it meets no conflict with what is in flight or can be forwarded to, and the one before it was
      not. */
  ghost predicate MayIssue(v: Version, u: Unit, rs: seq<RunnerPc>, k: nat)
    requires Valid(u) && k < |rs|
  {
    && |u.issue.bus.buffer| + k < BUS_LENGTH
    && !(k > 0 && IsBranch(rs[k].instr))
    && (|| NoConflict(BoardWith(u.issue.board, rs[..k]), rs[k].instr)
        || Forwardable(v, BoardWith(u.issue.board, rs[..k]), u.previous, u.issue.issued, rs[k].instr))
    && (k > 0 ==> NoConflict(BoardWith(u.issue.board, rs[..k - 1]), rs[k - 1].instr))
  }

  /** Where the cycle stands once the first k have been issued. */
  ghost predicate Standing(u: Unit, rs: seq<RunnerPc>, s: Issue, k: nat) {
    && k <= |rs| && Sized(s, u.previous)
    && s.issued == u.issue.issued + rs[..k] && s.board == BoardWith(u.issue.board, rs[..k])
    && |s.bus.buffer| == |u.issue.bus.buffer| + k
  }

  /** Exactly the first n may be issued, and have been. */
  ghost predicate Greedy(v: Version, u: Unit, rs: seq<RunnerPc>, from: nat, n: nat)
    requires Valid(u)
  {
    && from <= n <= |rs|
    && (forall k :: from <= k < n ==> MayIssue(v, u, rs, k))
    && (n < |rs| ==> !MayIssue(v, u, rs, n))
  }

  lemma SamePast(previous: seq<nat>, issued: seq<RunnerPc>, more: seq<RunnerPc>, i: Instr)
    requires Known(previous, |issued|)
    ensures Known(previous, |issued + more|)
    ensures MadeBefore(previous, issued + more, i) == MadeBefore(previous, issued, i)
  {
    forall k | 0 <= k < |previous| ensures (issued + more)[previous[k]] == issued[previous[k]] {}
    hide Feeds;
  }

  lemma BoardGrows(b: Board, rs: seq<RunnerPc>, k: nat)
    requires k < |rs|
    ensures BoardWith(b, rs[..k + 1]) == AddPending(BoardWith(b, rs[..k]), rs[k].instr)
  {
    assert rs[..k + 1][..k] == rs[..k];
  }

  /** One candidate of a cycle that has not ended. */
  lemma HandlesNext(v: Version, cycle: int, u: Unit, rs: seq<RunnerPc>, s: Issue, k: nat, c: Candidate)
    requires Valid(u) && Standing(u, rs, s, k) && k < |rs| && c.runner == rs[k]
    requires |s.bus.buffer| < BUS_LENGTH || (v == Mvp61 && |s.bus.buffer| == BUS_LENGTH)
    requires k > 0 ==> NoConflict(BoardWith(u.issue.board, rs[..k - 1]), rs[k - 1].instr)
    ensures var h := Handle(v, cycle, |u.issue.issued|, u.previous, [], s, c);
            && (h.push <==> MayIssue(v, u, rs, k))
            && (h.push ==> Standing(u, rs, h.issue, k + 1)
                           && (!h.stop <==> NoConflict(BoardWith(u.issue.board, rs[..k]), rs[k].instr)))
            && (!h.push ==> h.stop && Standing(u, rs, h.issue, k))
  {
    hide Handle, BoardWith, NoConflict, IsBranch, MadeBefore, OneOperandAwaited;
    PushesExactly(v, cycle, |u.issue.issued|, u.previous, s, c);
    SamePast(u.previous, u.issue.issued, rs[..k], c.runner.instr);
    BoardGrows(u.issue.board, rs, k);
    assert rs[..k + 1] == rs[..k] + [rs[k]];
  }

  lemma StopsAfterForward(v: Version, u: Unit, rs: seq<RunnerPc>, k: nat)
    requires Valid(u) && k < |rs| && MayIssue(v, u, rs, k)
    requires !NoConflict(BoardWith(u.issue.board, rs[..k]), rs[k].instr)
    ensures Greedy(v, u, rs, k, k + 1)
  {
    hide BoardWith, NoConflict, IsBranch, Forwardable;
  }

  lemma {:induction false} FromBusIsGreedy(v: Version, cycle: int, u: Unit, rs: seq<RunnerPc>, s: Issue, k: nat,
                                           queue: seq<RunnerPc>, remaining: int)
    requires Valid(u) && Standing(u, rs, s, k) && queue == rs[k..] && |s.bus.buffer| <= BUS_LENGTH
    requires v == Mvp60 ==> remaining == BUS_LENGTH - |s.bus.buffer|
    requires k > 0 ==> NoConflict(BoardWith(u.issue.board, rs[..k - 1]), rs[k - 1].instr)
    ensures var r := FromBus(v, cycle, |u.issue.issued|, u.previous, [], s, [], queue, remaining);
            exists n :: Greedy(v, u, rs, k, n) && Standing(u, rs, r.0, n)
    decreases |queue|
  {
    hide Handle, FromBus, BoardWith, NoConflict, IsBranch, Forwardable, Standing;
    var first := |u.issue.issued|;
    StandingFits(u, rs, s, k);
    if queue == [] || (v == Mvp60 && remaining <= 0) {
      NothingFromBus(v, cycle, first, u.previous, s, queue, remaining);
      assert Greedy(v, u, rs, k, k);
    } else {
      var c := Candidate(queue[0], NO_WIRE);
      HandlesNext(v, cycle, u, rs, s, k, c);
      HandleDecides(v, cycle, first, u.previous, s, c);
      var h := Handle(v, cycle, first, u.previous, [], s, c);
      FromBusUnfolds(v, cycle, first, u.previous, s, queue, remaining, h);
      if !h.push {
        assert Greedy(v, u, rs, k, k);
      } else if h.stop {
        StopsAfterForward(v, u, rs, k);
      } else {
        StandingFits(u, rs, h.issue, k + 1);
        FromBusIsGreedy(v, cycle, u, rs, h.issue, k + 1, queue[1..], remaining - 1);
        var n :| Greedy(v, u, rs, k + 1, n)
                 && Standing(u, rs, FromBus(v, cycle, first, u.previous, [], h.issue, [], queue[1..], remaining - 1).0,
                             n);
        assert Greedy(v, u, rs, k, n);
      }
    }
  }

  lemma StandingFits(u: Unit, rs: seq<RunnerPc>, s: Issue, k: nat)
    requires Standing(u, rs, s, k)
    ensures k <= |rs| && Sized(s, u.previous) && |s.bus.buffer| == |u.issue.bus.buffer| + k
    ensures |u.issue.issued| <= |s.issued|
  {
  }

  lemma NothingFromBus(v: Version, cycle: int, first: nat, previous: seq<nat>, s: Issue, queue: seq<RunnerPc>,
                       remaining: int)
    requires Sized(s, previous) && (queue == [] || (v == Mvp60 && remaining <= 0))
    ensures FromBus(v, cycle, first, previous, [], s, [], queue, remaining) == (s, [], queue)
  {
  }

  lemma FromPendingsIsGreedy(v: Version, cycle: int, u: Unit, rs: seq<RunnerPc>)
    requires Tidy(u) && u.issue.bus.CanAdd(BUS_LENGTH) && rs == AtHand(u)
    ensures var p := FromPendings(v, cycle, |u.issue.issued|, u.previous, [], u.issue, u.pendings);
            if p.stop then exists n :: Greedy(v, u, rs, 0, n) && Standing(u, rs, p.issue, n)
            else
              && Standing(u, rs, p.issue, |u.pendings|) && p.kept == [] && p.skipped == []
              && rs[|u.pendings|..] == u.inBus.queue
              && (u.pendings != [] ==> MayIssue(v, u, rs, 0)
                                       && NoConflict(BoardWith(u.issue.board, rs[..0]), rs[0].instr))
  {
    hide Handle, NoConflict, IsBranch, Forwardable, BoardWith, Standing, FromPendings;
    StandsAtFirst(u, rs);
    var p := FromPendings(v, cycle, |u.issue.issued|, u.previous, [], u.issue, u.pendings);
    if u.pendings == [] {
      NoPendings(v, cycle, |u.issue.issued|, u.previous, u.issue);
      assert rs[0..] == u.inBus.queue;
    } else {
      var c := u.pendings[0];
      assert rs[0] == c.runner && rs[1..] == u.inBus.queue;
      HandlesNext(v, cycle, u, rs, u.issue, 0, c);
      var h := Handle(v, cycle, |u.issue.issued|, u.previous, [], u.issue, c);
      OnePending(v, cycle, |u.issue.issued|, u.previous, u.issue, u.pendings);
      if !h.push {
        assert Greedy(v, u, rs, 0, 0);
      } else if h.stop {
        StopsAfterForward(v, u, rs, 0);
      }
    }
  }

  lemma StandsAtFirst(u: Unit, rs: seq<RunnerPc>)
    requires Valid(u)
    ensures Standing(u, rs, u.issue, 0)
  {
  }

  lemma NoPendings(v: Version, cycle: int, first: nat, previous: seq<nat>, s: Issue)
    requires Sized(s, previous)
    ensures FromPendings(v, cycle, first, previous, [], s, []) == Pass(s, [], [], false)
  {
  }

  lemma OnePending(v: Version, cycle: int, first: nat, previous: seq<nat>, s: Issue, cs: seq<Candidate>)
    requires Sized(s, previous) && |cs| == 1
    ensures var p := FromPendings(v, cycle, first, previous, [], s, cs);
            var h := Handle(v, cycle, first, previous, [], s, cs[0]);
            && p.issue == h.issue && p.stop == h.stop
            && (h.push ==> p.kept == [] && p.skipped == [])
  {
    hide Handle;
    assert cs[1..] == [];
  }

  /** A cycle issues the longest possible stretch of what it has at hand: every instruction up to the first one that may
      not be issued. */
  lemma IssuesAllItMay(v: Version, cycle: int, u: Unit) returns (n: nat)
    requires Tidy(u)
    ensures Greedy(v, u, AtHand(u), 0, n)
    ensures Cycle(v, cycle, u).issue.issued == u.issue.issued + AtHand(u)[..n]
    ensures Cycle(v, cycle, u).issue.board == BoardWith(u.issue.board, AtHand(u)[..n])
  {
    hide Handle, NoConflict, IsBranch, Forwardable, BoardWith, FromPendings, FromBus, Greedy, Standing;
    var rs, first := AtHand(u), |u.issue.issued|;
    StandsAtFirst(u, rs);
    n := 0;
    if u.issue.bus.CanAdd(BUS_LENGTH) {
      FromPendingsIsGreedy(v, cycle, u, rs);
      var p := FromPendings(v, cycle, first, u.previous, [], u.issue, u.pendings);
      if p.stop {
        n :| Greedy(v, u, rs, 0, n) && Standing(u, rs, p.issue, n);
      } else {
        var k := |u.pendings|;
        StandingFits(u, rs, p.issue, k);
        var remaining := BUS_LENGTH - |u.issue.bus.buffer| - (|p.issue.issued| - first);
        StandingCounts(u, rs, p.issue, k);
        FromBusIsGreedy(v, cycle, u, rs, p.issue, k, u.inBus.queue, remaining);
        var r := FromBus(v, cycle, first, u.previous, [], p.issue, [], u.inBus.queue, remaining);
        n :| Greedy(v, u, rs, k, n) && Standing(u, rs, r.0, n);
        GreedyFromStart(v, u, rs, k, n);
      }
    } else {
      FullIsGreedy(v, u, rs);
    }
    StandingMeans(u, rs, Cycle(v, cycle, u).issue, n);
  }

  lemma StandingCounts(u: Unit, rs: seq<RunnerPc>, s: Issue, k: nat)
    requires Standing(u, rs, s, k)
    ensures |s.issued| == |u.issue.issued| + k
  {
  }

  lemma StandingMeans(u: Unit, rs: seq<RunnerPc>, s: Issue, k: nat)
    requires Standing(u, rs, s, k)
    ensures k <= |rs| && s.issued == u.issue.issued + rs[..k] && s.board == BoardWith(u.issue.board, rs[..k])
  {
  }

  lemma GreedyFromStart(v: Version, u: Unit, rs: seq<RunnerPc>, k: nat, n: nat)
    requires Valid(u) && k <= 1 && Greedy(v, u, rs, k, n) && (k > 0 ==> 0 < |rs| && MayIssue(v, u, rs, 0))
    ensures Greedy(v, u, rs, 0, n)
  {
    hide MayIssue;
  }

  lemma FullIsGreedy(v: Version, u: Unit, rs: seq<RunnerPc>)
    requires Tidy(u) && !u.issue.bus.CanAdd(BUS_LENGTH)
    ensures Greedy(v, u, rs, 0, 0)
  {
    hide NoConflict, Forwardable, BoardWith;
  }

  // ---------------------------------------------------------------- two at once

  /** Neither reads or writes what the other writes. */
  ghost predicate Independent(a: Instr, b: Instr) {
    && (forall r :: r in WriteRegisters(a) && r != ZERO ==> r !in ReadRegisters(b) && r !in WriteRegisters(b))
    && (forall r :: r in ReadRegisters(a) && r != ZERO ==> r !in WriteRegisters(b))
  }

  lemma IndependentStaysClear(b: Board, x: Instr, y: Instr)
    requires NoConflict(b, y) && Independent(x, y)
    ensures NoConflict(AddPending(b, x), y)
  {
    forall r: Reg | r != ZERO
      ensures Count(AddPending(b, x).writers, r) == Count(b.writers, r) + Occurs(WriteRegisters(x), r)
      ensures Count(AddPending(b, x).readers, r) == Count(b.readers, r) + Occurs(ReadRegisters(x), r)
      ensures Occurs(WriteRegisters(x), r) > 0 <==> r in WriteRegisters(x)
      ensures Occurs(ReadRegisters(x), r) > 0 <==> r in ReadRegisters(x)
    {
      RaiseCounts(b.writers, WriteRegisters(x), r);
      RaiseCounts(b.readers, ReadRegisters(x), r);
      OccursIn(WriteRegisters(x), r);
      OccursIn(ReadRegisters(x), r);
    }
  }

  /** Two instructions that conflict with nothing in flight nor with each other go in one cycle, if the second is no
      branch. */
  lemma IssuesTwo(v: Version, cycle: int, u: Unit)
    requires Tidy(u) && u.issue.bus.buffer == [] && |AtHand(u)| >= 2
    requires var a, b := AtHand(u)[0].instr, AtHand(u)[1].instr;
             NoConflict(u.issue.board, a) && NoConflict(u.issue.board, b) && Independent(a, b) && !IsBranch(b)
    ensures Cycle(v, cycle, u).issue.issued == u.issue.issued + AtHand(u)[..2]
  {
    hide Cycle, NoConflict, IsBranch, Independent;
    var rs := AtHand(u);
    var n := IssuesAllItMay(v, cycle, u);
    assert rs[..0] == [] && BoardWith(u.issue.board, rs[..0]) == u.issue.board;
    BoardGrows(u.issue.board, rs, 0);
    IndependentStaysClear(u.issue.board, rs[0].instr, rs[1].instr);
    assert MayIssue(v, u, rs, 0) && MayIssue(v, u, rs, 1);
    assert n > 2 ==> MayIssue(v, u, rs, 2);
  }
}
