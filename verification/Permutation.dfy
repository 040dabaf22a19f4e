/** Instructions that share no register but zero may run in any order (risc/opcodes.go, risc/app.go). */
module Permutation {
  import opened Words
  import opened Isa
  import opened Mmu
  import opened Pipeline
  import opened Footprint
  import opened InFlight
  import Sequential

  function RunAll(labels: map<string, Word>, memory: Memory, regs: Regs, xs: seq<RunnerPc>): Option<Regs>
    decreases |xs|
  {
    if xs == [] then Some(regs) else
      var e := Outcome(labels, memory, regs, xs[0]);
      if e.None? then None
      else RunAll(labels, memory, Sequential.Written(Sequential.Plain, regs, xs[0].instr, e.value), xs[1..])
  }

  ghost predicate Same(a: Option<Regs>, b: Option<Regs>) {
    if a.Some? then b.Some? && SameRegs(a.value, b.value) else b.None?
  }

  ghost predicate Independent(a: Instr, b: Instr) { OnlyThrough(a, b, ZERO) }

  ghost predicate Unrelated(xs: seq<RunnerPc>) {
    && (forall k :: 0 <= k < |xs| ==> Simple(xs[k].instr))
    && forall i, j :: 0 <= i < j < |xs| ==> Independent(xs[i].instr, xs[j].instr)
  }

  lemma SameReadsSameOutcome(labels: map<string, Word>, memory: Memory, a: Regs, b: Regs, x: RunnerPc)
    requires AgreeOn(a, b, ReadRegisters(x.instr)) && Read(a, ZERO) == 0 && Read(b, ZERO) == 0
    ensures Outcome(labels, memory, a, x) == Outcome(labels, memory, b, x)
  {
    var rs := ReadRegisters(x.instr);
    assert forall k :: 0 <= k < |rs| ==> RegisterRead(a, NO_FORWARD, rs[k]) == RegisterRead(b, NO_FORWARD, rs[k]);
    var addrs := MemoryRead(x.instr, NO_FORWARD, a);
    ReadsAreComplete(x.instr, NO_FORWARD, a, NO_FORWARD, b, labels, x.pc, []);
    if Sequential.InRange(memory, addrs) {
      ReadsAreComplete(x.instr, NO_FORWARD, a, NO_FORWARD, b, labels, x.pc, Sequential.BytesAt(memory, addrs));
    }
    hide Run, MemoryRead;
  }

  /** What one instruction of register code does to the registers. */
  function RegsAfter(regs: Regs, i: Instr, e: Execution): Regs { Sequential.Written(Sequential.Plain, regs, i, e) }

  lemma OutcomeShape(labels: map<string, Word>, memory: Memory, regs: Regs, x: RunnerPc)
    requires Simple(x.instr)
    ensures match Outcome(labels, memory, regs, x)
            case None => true
            case Some(e) =>
              && WriteRegisters(x.instr) == (if e.registerChange then [e.register] else [])
              && (e.registerChange && e.register == ZERO ==> e.registerValue == 0)
  {
    var addrs := MemoryRead(x.instr, NO_FORWARD, regs);
    if Sequential.InRange(memory, addrs) {
      SimpleExecution(x.instr, NO_FORWARD, regs, labels, x.pc, Sequential.BytesAt(memory, addrs));
    }
    hide Run, MemoryRead;
  }

  /** Running x leaves alone what an independent y reads, so y comes out the same. */
  lemma Undisturbed(labels: map<string, Word>, memory: Memory, regs: Regs, x: RunnerPc, e: Execution, y: RunnerPc)
    requires Simple(x.instr) && Independent(x.instr, y.instr) && Read(regs, ZERO) == 0
    requires Outcome(labels, memory, regs, x) == Some(e)
    ensures Outcome(labels, memory, RegsAfter(regs, x.instr, e), y) == Outcome(labels, memory, regs, y)
    ensures Read(RegsAfter(regs, x.instr, e), ZERO) == 0
  {
    OutcomeShape(labels, memory, regs, x);
    hide Outcome, Simple;
    var regs1, rs := RegsAfter(regs, x.instr, e), ReadRegisters(y.instr);
    forall k | 0 <= k < |rs| ensures Read(regs1, rs[k]) == Read(regs, rs[k]) {
      if rs[k] != ZERO && e.registerChange { assert e.register in WriteRegisters(x.instr); }
    }
    SameReadsSameOutcome(labels, memory, regs1, regs, y);
  }

  lemma {:induction false} SameStartSameEnd(labels: map<string, Word>, memory: Memory, a: Regs, b: Regs,
                                            xs: seq<RunnerPc>)
    requires SameRegs(a, b) && Read(a, ZERO) == 0 && forall k :: 0 <= k < |xs| ==> Simple(xs[k].instr)
    ensures Same(RunAll(labels, memory, a, xs), RunAll(labels, memory, b, xs))
    decreases |xs|
  {
    if xs != [] {
      SameReadsSameOutcome(labels, memory, a, b, xs[0]);
      OutcomeShape(labels, memory, a, xs[0]);
      hide Outcome, Simple;
      var e := Outcome(labels, memory, a, xs[0]);
      if e.Some? {
        var a1, b1 := RegsAfter(a, xs[0].instr, e.value), RegsAfter(b, xs[0].instr, e.value);
        forall r: Reg ensures Read(a1, r) == Read(b1, r) { assert Read(a, r) == Read(b, r); }
        SameStartSameEnd(labels, memory, a1, b1, xs[1..]);
      }
    }
  }

  lemma SameTransitive(a: Option<Regs>, b: Option<Regs>, c: Option<Regs>)
    requires Same(a, b) && Same(b, c)
    ensures Same(a, c)
  {
  }

  lemma SwapTwo(labels: map<string, Word>, memory: Memory, regs: Regs, x: RunnerPc, y: RunnerPc, rest: seq<RunnerPc>)
    requires Simple(x.instr) && Simple(y.instr) && Independent(x.instr, y.instr) && Read(regs, ZERO) == 0
    requires forall k :: 0 <= k < |rest| ==> Simple(rest[k].instr)
    ensures Same(RunAll(labels, memory, regs, [x, y] + rest), RunAll(labels, memory, regs, [y, x] + rest))
  {
    assert ([x, y] + rest)[1..] == [y] + rest && ([y, x] + rest)[1..] == [x] + rest;
    assert ([y] + rest)[1..] == rest && ([x] + rest)[1..] == rest;
    var ex, ey := Outcome(labels, memory, regs, x), Outcome(labels, memory, regs, y);
    OutcomeShape(labels, memory, regs, x);
    OutcomeShape(labels, memory, regs, y);
    if ex.Some? { Undisturbed(labels, memory, regs, x, ex.value, y); }
    if ey.Some? { Undisturbed(labels, memory, regs, y, ey.value, x); }
    hide Outcome, Simple;
    if ex.Some? && ey.Some? {
      var a := RegsAfter(RegsAfter(regs, x.instr, ex.value), y.instr, ey.value);
      var b := RegsAfter(RegsAfter(regs, y.instr, ey.value), x.instr, ex.value);
      if ex.value.registerChange && ey.value.registerChange && ex.value.register != ZERO {
        DifferentTargets(x.instr, ex.value, y.instr, ey.value);
      }
      Commute(regs, x.instr, ex.value, y.instr, ey.value);
      SameStartSameEnd(labels, memory, a, b, rest);
    }
  }

  lemma DifferentTargets(i: Instr, e: Execution, j: Instr, f: Execution)
    requires WriteRegisters(i) == (if e.registerChange then [e.register] else [])
    requires WriteRegisters(j) == (if f.registerChange then [f.register] else [])
    requires Independent(i, j) && e.registerChange && f.registerChange && e.register != ZERO
    ensures e.register != f.register
  {
    assert e.register in WriteRegisters(i);
    assert f.register in WriteRegisters(j);
  }

  lemma Commute(regs: Regs, i: Instr, e: Execution, j: Instr, f: Execution)
    requires e.registerChange && e.register == ZERO ==> e.registerValue == 0
    requires f.registerChange && f.register == ZERO ==> f.registerValue == 0
    requires e.registerChange && f.registerChange && e.register != ZERO ==> e.register != f.register
    requires Read(regs, ZERO) == 0
    ensures SameRegs(RegsAfter(RegsAfter(regs, i, e), j, f), RegsAfter(RegsAfter(regs, j, f), i, e))
    ensures Read(RegsAfter(RegsAfter(regs, i, e), j, f), ZERO) == 0
  {
  }

  /** An instruction can be run first instead of in its place. */
  lemma {:induction false} MoveToFront(labels: map<string, Word>, memory: Memory, regs: Regs, xs: seq<RunnerPc>, k: nat)
    requires Unrelated(xs) && k < |xs| && Read(regs, ZERO) == 0
    ensures Same(RunAll(labels, memory, regs, xs), RunAll(labels, memory, regs, [xs[k]] + xs[..k] + xs[k + 1..]))
    decreases k
  {
    if k == 0 {
      assert [xs[0]] + xs[..0] + xs[1..] == xs;
      SameStartSameEnd(labels, memory, regs, regs, xs);
    } else {
      var x, y, rest := xs[0], xs[k], xs[1..k] + xs[k + 1..];
      AfterTheFirst(labels, memory, regs, xs, k);
      RestIsSimple(xs, k);
      SwapTwo(labels, memory, regs, x, y, rest);
      FrontForms(xs, k);
      hide RunAll, Same, Unrelated;
      SameTransitive(RunAll(labels, memory, regs, xs), RunAll(labels, memory, regs, [x, y] + rest),
                     RunAll(labels, memory, regs, [y, x] + rest));
    }
  }

  lemma RestIsSimple(xs: seq<RunnerPc>, k: nat)
    requires Unrelated(xs) && 0 < k < |xs|
    ensures var rest := xs[1..k] + xs[k + 1..]; forall j :: 0 <= j < |rest| ==> Simple(rest[j].instr)
    ensures Independent(xs[0].instr, xs[k].instr)
  {
  }

  lemma FrontForms(xs: seq<RunnerPc>, k: nat)
    requires 0 < k < |xs|
    ensures var x, y, rest := xs[0], xs[k], xs[1..k] + xs[k + 1..];
            [x] + ([y] + rest) == [x, y] + rest && [y, x] + rest == [xs[k]] + xs[..k] + xs[k + 1..]
  {
  }

  lemma {:induction false} AfterTheFirst(labels: map<string, Word>, memory: Memory, regs: Regs, xs: seq<RunnerPc>,
                                         k: nat)
    requires Unrelated(xs) && 0 < k < |xs| && Read(regs, ZERO) == 0
    ensures Same(RunAll(labels, memory, regs, xs),
                 RunAll(labels, memory, regs, [xs[0]] + ([xs[k]] + (xs[1..k] + xs[k + 1..]))))
    decreases k, 0
  {
    var e := Outcome(labels, memory, regs, xs[0]);
    var tail := [xs[k]] + (xs[1..k] + xs[k + 1..]);
    assert ([xs[0]] + tail)[1..] == tail;
    OutcomeShape(labels, memory, regs, xs[0]);
    hide Outcome;
    if e.Some? {
      var regs1 := RegsAfter(regs, xs[0].instr, e.value);
      MoveToFront(labels, memory, regs1, xs[1..], k - 1);
      assert xs[1..][..k - 1] == xs[1..k] && xs[1..][k..] == xs[k + 1..];
      assert [xs[k]] + xs[1..k] + xs[k + 1..] == tail;
    }
  }

  /** Pairwise independent register code leaves the same registers, or fails, in every order. */
  lemma {:induction false} AnyPermutation(labels: map<string, Word>, memory: Memory, regs: Regs, xs: seq<RunnerPc>,
                                          ys: seq<RunnerPc>)
    requires Unrelated(xs) && multiset(xs) == multiset(ys) && Read(regs, ZERO) == 0
    ensures Same(RunAll(labels, memory, regs, xs), RunAll(labels, memory, regs, ys))
    decreases |ys|
  {
    if ys == [] {
      assert |xs| == |multiset(xs)| == 0;
    } else {
      assert ys[0] in multiset(xs);
      var k :| 0 <= k < |xs| && xs[k] == ys[0];
      var rest := xs[..k] + xs[k + 1..];
      MoveToFront(labels, memory, regs, xs, k);
      assert [xs[k]] + xs[..k] + xs[k + 1..] == [ys[0]] + rest;
      WithoutOne(xs, k, ys);
      SameTail(labels, memory, regs, ys, rest);
      SameTransitive(RunAll(labels, memory, regs, xs), RunAll(labels, memory, regs, [ys[0]] + rest),
                     RunAll(labels, memory, regs, ys));
    }
  }

  lemma WithoutOne(xs: seq<RunnerPc>, k: nat, ys: seq<RunnerPc>)
    requires Unrelated(xs) && k < |xs| && ys != [] && xs[k] == ys[0] && multiset(xs) == multiset(ys)
    ensures var rest := xs[..k] + xs[k + 1..]; Unrelated(rest) && multiset(rest) == multiset(ys[1..])
  {
    RestIsUnrelated(xs, k);
    MultisetWithout(xs, k);
    MultisetWithout(ys, 0);
    assert ys[..0] + ys[1..] == ys[1..];
    hide Unrelated;
  }

  lemma RestIsUnrelated(xs: seq<RunnerPc>, k: nat)
    requires Unrelated(xs) && k < |xs|
    ensures Unrelated(xs[..k] + xs[k + 1..])
  {
    var rest := xs[..k] + xs[k + 1..];
    forall j | 0 <= j < |rest| ensures rest[j] == xs[if j < k then j else j + 1] {
    }
    hide Simple, Independent;
  }

  lemma MultisetWithout(xs: seq<RunnerPc>, k: nat)
    requires k < |xs|
    ensures multiset(xs[..k] + xs[k + 1..]) == multiset(xs) - multiset{xs[k]}
  {
    assert xs == xs[..k] + ([xs[k]] + xs[k + 1..]);
  }

  lemma {:induction false} SameTail(labels: map<string, Word>, memory: Memory, regs: Regs, ys: seq<RunnerPc>,
                                    rest: seq<RunnerPc>)
    requires ys != [] && Unrelated(rest) && multiset(rest) == multiset(ys[1..]) && Read(regs, ZERO) == 0
             && Simple(ys[0].instr)
    ensures Same(RunAll(labels, memory, regs, [ys[0]] + rest), RunAll(labels, memory, regs, ys))
    decreases |ys|, 0
  {
    assert ([ys[0]] + rest)[1..] == rest;
    var e := Outcome(labels, memory, regs, ys[0]);
    OutcomeShape(labels, memory, regs, ys[0]);
    hide Outcome;
    if e.Some? { AnyPermutation(labels, memory, RegsAfter(regs, ys[0].instr, e.value), rest, ys[1..]); }
  }
}
