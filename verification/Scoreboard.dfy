/** The scoreboard of MVP-6.0 and MVP-6.1: pending reads and writes of each register (risc/app.go). */
module Scoreboard {
  import opened Words
  import opened Isa
  import opened Pipeline

  datatype Board = Board(readers: Pending, writers: Pending)

  function Raise(p: Pending, rs: seq<Reg>): Pending
    decreases |rs|
  {
    if rs == [] then p
    else Raise(if rs[0] == ZERO then p else p[rs[0] := Count(p, rs[0]) + 1], rs[1..])
  }

  function Lower(p: Pending, rs: seq<Reg>): Pending
    decreases |rs|
  {
    if rs == [] then p
    else Lower(if rs[0] == ZERO then p
               else if Count(p, rs[0]) - 1 <= 0 then p - {rs[0]}
               else p[rs[0] := Count(p, rs[0]) - 1], rs[1..])
  }

  function AddPending(b: Board, i: Instr): Board {
    Board(Raise(b.readers, ReadRegisters(i)), Raise(b.writers, WriteRegisters(i)))
  }

  function DeletePending(b: Board, i: Instr): Board {
    Board(Lower(b.readers, ReadRegisters(i)), Lower(b.writers, WriteRegisters(i)))
  }

  datatype HazardKind = ReadAfterWrite | WriteAfterWrite | WriteAfterRead
  datatype Hazard = Hazard(kind: HazardKind, register: Reg)

  function ReadHazards(b: Board, rs: seq<Reg>): seq<Hazard> {
    if rs == [] then [] else
      (if rs[0] != ZERO && Count(b.writers, rs[0]) > 0 then [Hazard(ReadAfterWrite, rs[0])] else [])
      + ReadHazards(b, rs[1..])
  }

  function WriteHazards(b: Board, rs: seq<Reg>): seq<Hazard> {
    if rs == [] then [] else
      (if rs[0] != ZERO && Count(b.writers, rs[0]) > 0 then [Hazard(WriteAfterWrite, rs[0])] else [])
      + (if rs[0] != ZERO && Count(b.readers, rs[0]) > 0 then [Hazard(WriteAfterRead, rs[0])] else [])
      + WriteHazards(b, rs[1..])
  }

  function Hazards(b: Board, i: Instr): seq<Hazard> {
    ReadHazards(b, ReadRegisters(i)) + WriteHazards(b, WriteRegisters(i))
  }

  lemma {:induction false} ReadHazardsOf(b: Board, rs: seq<Reg>)
    ensures forall h :: h in ReadHazards(b, rs) <==>
      h.kind == ReadAfterWrite && h.register != ZERO && h.register in rs && Count(b.writers, h.register) > 0
  {
    if rs != [] { ReadHazardsOf(b, rs[1..]); }
  }

  lemma {:induction false} WriteHazardsOf(b: Board, rs: seq<Reg>)
    ensures forall h :: h in WriteHazards(b, rs) <==>
      && h.kind != ReadAfterWrite && h.register != ZERO && h.register in rs
      && Count(if h.kind == WriteAfterWrite then b.writers else b.readers, h.register) > 0
  {
    if rs != [] { WriteHazardsOf(b, rs[1..]); }
  }

  /** The reported hazards are exactly the pending registers an instruction reads or writes, of each kind. */
  lemma HazardsAreExact(b: Board, i: Instr, h: Hazard)
    ensures h in Hazards(b, i) <==>
      && h.register != ZERO
      && (if h.kind == ReadAfterWrite then h.register in ReadRegisters(i) else h.register in WriteRegisters(i))
      && Count(if h.kind == WriteAfterRead then b.readers else b.writers, h.register) > 0
  {
    ReadHazardsOf(b, ReadRegisters(i));
    WriteHazardsOf(b, WriteRegisters(i));
  }

  // ---------------------------------------------------------------- what the counts count

  function Occurs(rs: seq<Reg>, r: Reg): nat {
    if rs == [] then 0 else (if rs[0] == r then 1 else 0) + Occurs(rs[1..], r)
  }

  lemma {:induction false} OccursIn(rs: seq<Reg>, r: Reg)
    ensures Occurs(rs, r) > 0 <==> r in rs
  {
    if rs != [] { OccursIn(rs[1..], r); }
  }

  lemma {:induction false} RaiseCounts(p: Pending, rs: seq<Reg>, r: Reg)
    requires r != ZERO
    ensures Count(Raise(p, rs), r) == Count(p, r) + Occurs(rs, r)
    decreases |rs|
  {
    if rs != [] {
      RaiseCounts(if rs[0] == ZERO then p else p[rs[0] := Count(p, rs[0]) + 1], rs[1..], r);
    }
  }

  lemma {:induction false} LowerCounts(p: Pending, rs: seq<Reg>, r: Reg)
    requires r != ZERO && Count(p, r) >= Occurs(rs, r)
    ensures Count(Lower(p, rs), r) == Count(p, r) - Occurs(rs, r)
    decreases |rs|
  {
    if rs != [] {
      LowerCounts(if rs[0] == ZERO then p
                  else if Count(p, rs[0]) - 1 <= 0 then p - {rs[0]}
                  else p[rs[0] := Count(p, rs[0]) - 1], rs[1..], r);
    }
  }

  /** Occurrences of a register among the ones read, or written, by the instructions in flight. */
  datatype Measure = Reading(r: Reg) | Writing(r: Reg)

  function Weight(m: Measure, i: Instr): nat {
    match m case Reading(r) => Occurs(ReadRegisters(i), r) case Writing(r) => Occurs(WriteRegisters(i), r)
  }

  /** `flight` lists instructions by their place in the issue order. */
  function Total(m: Measure, issued: seq<RunnerPc>, flight: seq<nat>): nat {
    if flight == [] then 0 else
      (if flight[0] < |issued| then Weight(m, issued[flight[0]].instr) else 0) + Total(m, issued, flight[1..])
  }

  lemma {:induction false} TotalOfConcat(m: Measure, issued: seq<RunnerPc>, a: seq<nat>, b: seq<nat>)
    ensures Total(m, issued, a + b) == Total(m, issued, a) + Total(m, issued, b)
  {
    if a == [] {
      assert a + b == b;
    } else {
      TotalOfConcat(m, issued, a[1..], b);
      assert (a + b)[1..] == a[1..] + b;
    }
  }

  lemma TotalWithout(m: Measure, issued: seq<RunnerPc>, b: seq<nat>, k: nat)
    requires k < |b|
    ensures Total(m, issued, b) == Total(m, issued, b[..k] + b[k + 1..]) + Total(m, issued, [b[k]])
    ensures multiset(b) == multiset(b[..k] + b[k + 1..]) + multiset{b[k]}
  {
    assert b == b[..k] + ([b[k]] + b[k + 1..]);
    TotalOfConcat(m, issued, b[..k], [b[k]] + b[k + 1..]);
    TotalOfConcat(m, issued, [b[k]], b[k + 1..]);
    TotalOfConcat(m, issued, b[..k], b[k + 1..]);
  }

  lemma SameWithout(a: multiset<nat>, b: multiset<nat>, x: nat)
    requires a + multiset{x} == b + multiset{x}
    ensures a == b
  {
    assert a == (a + multiset{x}) - multiset{x};
    assert b == (b + multiset{x}) - multiset{x};
  }

  /** The total does not depend on where in the machine an instruction is. */
  lemma {:induction false} TotalPermutes(m: Measure, issued: seq<RunnerPc>, a: seq<nat>, b: seq<nat>)
    requires multiset(a) == multiset(b)
    ensures Total(m, issued, a) == Total(m, issued, b)
    decreases |a|
  {
    if a == [] {
      assert |b| == |multiset(b)| == 0;
    } else {
      assert a[0] in multiset(b);
      var k :| 0 <= k < |b| && b[k] == a[0];
      TotalWithout(m, issued, b, k);
      TotalWithout(m, issued, a, 0);
      var rest := b[..k] + b[k + 1..];
      assert a[..0] + a[1..] == a[1..];
      SameWithout(multiset(a[1..]), multiset(rest), a[0]);
      TotalPermutes(m, issued, a[1..], rest);
    }
  }

  lemma {:induction false} TotalWithMore(m: Measure, issued: seq<RunnerPc>, x: RunnerPc, flight: seq<nat>)
    requires forall id :: id in flight ==> id < |issued|
    ensures Total(m, issued + [x], flight) == Total(m, issued, flight)
  {
    if flight != [] {
      assert flight[0] in flight && forall id :: id in flight[1..] ==> id in flight;
      TotalWithMore(m, issued, x, flight[1..]);
    }
  }

  lemma {:induction false} TotalIsPositive(m: Measure, issued: seq<RunnerPc>, flight: seq<nat>)
    ensures Total(m, issued, flight) > 0 <==>
      exists id :: id in flight && id < |issued| && Weight(m, issued[id].instr) > 0
  {
    if flight != [] {
      TotalIsPositive(m, issued, flight[1..]);
      if Total(m, issued, flight) > 0 {
        if flight[0] < |issued| && Weight(m, issued[flight[0]].instr) > 0 {
          assert flight[0] in flight;
        } else {
          var id :| id in flight[1..] && id < |issued| && Weight(m, issued[id].instr) > 0;
          assert id in flight;
        }
      } else {
        forall id | id in flight && id < |issued| ensures Weight(m, issued[id].instr) == 0 {
          if id != flight[0] { assert id in flight[1..]; }
        }
      }
    }
  }

  /** Every non-zero register counts its occurrences among the instructions in flight. */
  ghost predicate Exact(b: Board, issued: seq<RunnerPc>, flight: seq<nat>) {
    forall r: Reg :: r != ZERO ==>
      Count(b.readers, r) == Total(Reading(r), issued, flight)
      && Count(b.writers, r) == Total(Writing(r), issued, flight)
  }

  /** An issue adds one instruction's registers. */
  lemma IssueKeepsExact(b: Board, issued: seq<RunnerPc>, flight: seq<nat>, x: RunnerPc, flight1: seq<nat>)
    requires Exact(b, issued, flight) && (forall id :: id in flight ==> id < |issued|)
    requires var n: nat := |issued|; multiset(flight1) == multiset(flight) + multiset{n}
    ensures Exact(AddPending(b, x.instr), issued + [x], flight1)
  {
    var n: nat, issued1 := |issued|, issued + [x];
    forall r: Reg | r != ZERO
      ensures Count(AddPending(b, x.instr).readers, r) == Total(Reading(r), issued1, flight1)
      ensures Count(AddPending(b, x.instr).writers, r) == Total(Writing(r), issued1, flight1)
    {
      RaiseCounts(b.readers, ReadRegisters(x.instr), r);
      RaiseCounts(b.writers, WriteRegisters(x.instr), r);
      TotalWithOneMore(Reading(r), issued, x, flight, flight1);
      TotalWithOneMore(Writing(r), issued, x, flight, flight1);
    }
  }

  lemma TotalWithOneMore(m: Measure, issued: seq<RunnerPc>, x: RunnerPc, flight: seq<nat>, flight1: seq<nat>)
    requires forall id :: id in flight ==> id < |issued|
    requires var n: nat := |issued|; multiset(flight1) == multiset(flight) + multiset{n}
    ensures Total(m, issued + [x], flight1) == Total(m, issued, flight) + Weight(m, x.instr)
  {
    var n: nat, issued1 := |issued|, issued + [x];
    TotalPermutes(m, issued1, flight1, flight + [n]);
    TotalOfConcat(m, issued1, flight, [n]);
    TotalWithMore(m, issued, x, flight);
    assert [n][1..] == [];
  }

  /** A retirement takes one instruction's registers away again: each is released exactly once. */
  lemma RetireKeepsExact(b: Board, issued: seq<RunnerPc>, flight: seq<nat>, id: nat, flight1: seq<nat>)
    requires Exact(b, issued, flight) && id < |issued|
    requires multiset(flight) == multiset(flight1) + multiset{id}
    ensures Exact(DeletePending(b, issued[id].instr), issued, flight1)
  {
    var i := issued[id].instr;
    forall r: Reg | r != ZERO
      ensures Count(DeletePending(b, i).readers, r) == Total(Reading(r), issued, flight1)
      ensures Count(DeletePending(b, i).writers, r) == Total(Writing(r), issued, flight1)
    {
      TotalWithOneLess(Reading(r), issued, flight, id, flight1);
      TotalWithOneLess(Writing(r), issued, flight, id, flight1);
      LowerCounts(b.readers, ReadRegisters(i), r);
      LowerCounts(b.writers, WriteRegisters(i), r);
    }
  }

  lemma TotalWithOneLess(m: Measure, issued: seq<RunnerPc>, flight: seq<nat>, id: nat, flight1: seq<nat>)
    requires id < |issued| && multiset(flight) == multiset(flight1) + multiset{id}
    ensures Total(m, issued, flight) == Total(m, issued, flight1) + Weight(m, issued[id].instr)
  {
    TotalPermutes(m, issued, flight, flight1 + [id]);
    TotalOfConcat(m, issued, flight1, [id]);
    assert [id][1..] == [];
  }

  lemma MoveKeepsExact(b: Board, issued: seq<RunnerPc>, flight: seq<nat>, flight1: seq<nat>)
    requires Exact(b, issued, flight) && multiset(flight) == multiset(flight1)
    ensures Exact(b, issued, flight1)
  {
    forall r: Reg | r != ZERO
      ensures Count(b.readers, r) == Total(Reading(r), issued, flight1)
      ensures Count(b.writers, r) == Total(Writing(r), issued, flight1)
    {
      TotalPermutes(Reading(r), issued, flight, flight1);
      TotalPermutes(Writing(r), issued, flight, flight1);
    }
  }

  /** What an exact scoreboard tells: a register is pending exactly when an instruction in flight names it. */
  lemma PendingMeansInFlight(b: Board, issued: seq<RunnerPc>, flight: seq<nat>, r: Reg)
    requires Exact(b, issued, flight) && (forall id :: id in flight ==> id < |issued|) && r != ZERO
    ensures Count(b.writers, r) > 0 <==> exists id :: id in flight && r in WriteRegisters(issued[id].instr)
    ensures Count(b.readers, r) > 0 <==> exists id :: id in flight && r in ReadRegisters(issued[id].instr)
  {
    TotalIsPositive(Writing(r), issued, flight);
    TotalIsPositive(Reading(r), issued, flight);
    forall id | id in flight
      ensures Weight(Writing(r), issued[id].instr) > 0 <==> r in WriteRegisters(issued[id].instr)
      ensures Weight(Reading(r), issued[id].instr) > 0 <==> r in ReadRegisters(issued[id].instr)
    {
      OccursIn(WriteRegisters(issued[id].instr), r);
      OccursIn(ReadRegisters(issued[id].instr), r);
    }
  }
}
