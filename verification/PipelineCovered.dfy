/** Conditions on the sequential run alone under which every state of MVP-4 and MVP-5 is guarded. */
module PipelineCovered {
  import opened Words
  import opened Isa
  import opened Mmu
  import opened Sequential
  import opened Pipeline
  import opened PipelineInvariant
  import opened PipelineGuard
  import opened PipelineProof
  import opened PipelineRegisters
  import opened PipelineExecute
  import opened PipelineRun
  import Footprint

  ghost predicate HasJal(app: App) { exists k :: 0 <= k < |app.code| && app.code[k].Jal? }

  /** With jal about, no instruction names ra as its destination. */
  ghost predicate LeavesRa(app: App) {
    HasJal(app) ==> forall k :: 0 <= k < |app.code| ==> RA !in WriteRegisters(app.code[k])
  }

  /** The step the sequential core takes next: no lh, no taken bltu, no store past the L1D, and no jump out of the
      program. */
  ghost predicate Covered(app: App, order: seq<Word>, ref: Cached) {
    0 <= Index(ref.pc) < |app.code| ==>
      var i := app.code[Index(ref.pc)];
      && !(i.Load? && i.width == TwoBytes)
      && (match Run(i, NO_FORWARD, ref.regs, app.labels, ref.pc, LoadedBytes(ref, i))
          case Fail(_) => true
          case Ok(e) =>
            && (e.pcChange ==> 0 <= e.nextPc < 4 * |app.code| && IsBranch(i))
            && (e.data != [] ==> LookUp(ref.lines, order, e).0.Some?))
  }

  ghost predicate CoveredUpTo(app: App, orders: nat -> seq<Word>, start: Cached, n: nat) {
    forall k: nat :: k <= n && Reference(Dropping, app, orders, start, k).Some? ==>
      Covered(app, orders(k), Reference(Dropping, app, orders, start, k).value)
  }

  // ---------------------------------------------------------------- what covered steps leave

  /** A declared write, and with jal about not to ra. */
  ghost predicate TameEntry(app: App, w: WriteEntry) {
    && w.exe.data == [] && (w.exe.registerChange ==> w.writes == [w.exe.register])
    && (HasJal(app) ==> !(w.exe.registerChange && w.exe.register == RA))
  }

  /** The write unit is never busy, and at most one write is queued between turns. */
  ghost predicate Tame(app: App, s: Cpu) {
    && !s.wu.pendingWrite && s.wbus.pending.None? && (s.wbus.current.Some? ==> TameEntry(app, s.wbus.current.value))
  }

  lemma CoveredEntryIsTame(app: App, order: seq<Word>, ref: Cached)
    requires LeavesRa(app) && Covered(app, order, ref)
    ensures var w := StepEntry(app, order, ref); w.Some? ==> TameEntry(app, w.value)
  {
    if 0 <= Index(ref.pc) < |app.code| {
      var i := app.code[Index(ref.pc)];
      var out := Run(i, NO_FORWARD, ref.regs, app.labels, ref.pc, LoadedBytes(ref, i));
      if out.Ok? {
        Declared(i, FirstOperand(i, NO_FORWARD, ref.regs), SecondOperand(i, NO_FORWARD, ref.regs), app.labels, ref.pc,
                 LoadedBytes(ref, i), out.value);
      }
      hide Run, LookUp, LoadedBytes, WriteRegisters;
    }
  }

  lemma Declared(i: Instr, x: Word, y: Word, labels: map<string, Word>, pc: Word, bytes: seq<Byte>, e: Execution)
    requires Compute(i, x, y, labels, pc, bytes) == Ok(e) && !(i.Load? && i.width == TwoBytes)
    ensures e.registerChange ==> WriteRegisters(i) == [e.register]
  {
  }

  lemma TameIsSeen(app: App, s: Cpu, i: Instr, ref: Cached)
    requires Tame(app, s) && Registers(s.regs, s.pending, s.wbus, ref.regs, |s.memory|)
    requires !IsWriteHazard(s.pending, ReadRegisters(i))
    ensures OperandsSeen(s.regs, s.wbus, i)
  {
    OnlyUndeclaredIsUnseen(i, s.regs, s.pending, s.wbus, ref.regs, |s.memory|);
    hide ReadRegisters, OperandsSeen, Registers;
  }

  lemma NotedExpects(v: Variant, app: App, bu: BranchState, fu: FetchState, r: RunnerPc, e: Execution)
    requires 0 < |app.code| < 0x2000_0000 && -4 < r.pc < 4 * |app.code|
    requires 0 <= e.nextPc < 4 * |app.code| && IsBranch(r.instr)
    ensures Lands(v, app, AssertBranch(v, bu, fu, r).0, r, e)
  {
    hide Lookup;
  }

  lemma NoBytes(ref: Cached, i: Instr)
    requires !i.Load?
    ensures LoadedBytes(ref, i) == []
  {
  }

  /** The instruction about to run is the reference's next. */
  lemma OldestIsPlaced(v: Variant, app: App, s: Cpu, ref: Cached)
    requires Inv(v, app, s, ref) && Oldest(s).Some?
    ensures Placed(app, Oldest(s).value.0, ref.pc) && -4 < ref.pc < 4 * |app.code|
    ensures !s.eu.pendingRead ==> s.l1d == ref.lines
  {
    hide Registers, Upstream, SettledMemory;
  }

  lemma InvRegisters(v: Variant, app: App, s: Cpu, ref: Cached)
    requires Inv(v, app, s, ref)
    ensures SameRegs(Settled(s.regs, s.wbus), ref.regs)
  {
    hide Chain, Upstream, Downstream, Storage;
  }

  lemma CoveredResultFits(v: Variant, app: App, order: seq<Word>, s: Cpu, ref: Cached, r: RunnerPc)
    requires Inv(v, app, s, ref) && Covered(app, order, ref) && Tame(app, s)
    requires Placed(app, r, ref.pc) && !r.instr.Load? && OperandsSeen(s.regs, s.wbus, r.instr) && s.l1d == ref.lines
    ensures ResultFits(v, app, order, Noted(v, s, r), r, [])
  {
    hide Registers, Storage, Chain, Run, LookUp, LoadedBytes, ReadRegisters, OperandsSeen, Lands, AssertBranch,
         Upstream, Downstream, SettledMemory;
    NoBytes(ref, r.instr);
    InvRegisters(v, app, s, ref);
    SeenReadsReference(r.instr, s.regs, s.wbus, ref.regs);
    Footprint.ReadsAreComplete(r.instr, NO_FORWARD, s.regs, NO_FORWARD, ref.regs, app.labels, r.pc, []);
    var out := Run(r.instr, NO_FORWARD, s.regs, app.labels, r.pc, []);
    assert r.instr.Jal? ==> HasJal(app);
    hide HasJal, Settled;
    if out.Ok? && out.value.pcChange { NotedExpects(v, app, s.bu, s.fu, r, out.value); }
  }

  lemma TameLineIsCurrent(app: App, s: Cpu)
    requires Tame(app, s)
    ensures LineIsCurrent(s)
  {
    assert SettledMemory(s.memory, s.wbus) == s.memory;
    hide LoadMiss, FetchLine;
  }

  lemma CoveredIsGuarded(v: Variant, app: App, order: seq<Word>, s: Cpu, ref: Cached)
    requires Inv(v, app, s, ref) && Covered(app, order, ref) && Tame(app, s)
    ensures Guard(v, app, order, s)
  {
    hide Covered, Tame, ResultFits, OperandsSeen, LineIsCurrent, Upstream, Downstream, IsWriteHazard, Storage;
    TameLineIsCurrent(app, s);
    var o := Oldest(s);
    if !s.eu.pendingRead && o.Some? && Proceeds(s, o.value.0, o.value.1) {
      OldestIsPlaced(v, app, s, ref);
      TameIsSeen(app, s, o.value.0.instr, ref);
      if !o.value.0.instr.Load? { CoveredResultFits(v, app, order, s, ref, o.value.0); }
    }
  }

  // ---------------------------------------------------------------- turns and runs

  lemma WriteKeepsTame(app: App, s: Retiring)
    requires !s.wu.pendingWrite
    requires (s.wbus.current.Some? ==> TameEntry(app, s.wbus.current.value))
             && (s.wbus.pending.Some? ==> TameEntry(app, s.wbus.pending.value))
    ensures var t := WriteCycle(s);
            && t.Some? && !t.value.wu.pendingWrite && t.value.wbus == s.wbus.Shift()
  {
    hide Retire;
  }

  lemma WrittenIsTame(v: Variant, app: App, s: Cpu, x: Executed)
    requires !s.wu.pendingWrite
    requires (s.wbus.current.Some? ==> TameEntry(app, s.wbus.current.value))
             && (s.wbus.pending.Some? ==> TameEntry(app, s.wbus.pending.value))
    ensures var w := WriteCycle(Retirement(s));
            w.Some? && var u := AfterWrite(v, WithRetirement(s, w.value), x); u.stop.None? ==> Tame(app, u.next)
  {
    WriteKeepsTame(app, Retirement(s));
    hide Drain, WriteCycle, TameEntry;
  }

  lemma TurnKeepsTame(v: Variant, app: App, order: seq<Word>, s: Cpu, ref: Cached)
    requires Inv(v, app, s, ref) && Guard(v, app, order, s) && Covered(app, order, ref) && LeavesRa(app) && Tame(app, s)
    ensures var u := CycleOnce(v, app, order, s); u.stop.None? ==> Tame(app, u.next)
  {
    FetchDecodeKeepsInv(v, app, s, ref);
    if FetchDecode(v, app, s).Some? {
      var t := FetchDecode(v, app, s).value;
      FrontKeepsCurrent(v, app, s);
      SameGuard(v, app, order, s, t);
      ExecuteFollows(v, app, order, t, ref);
      ExecuteLeaves(v, app, order, t);
      CoveredEntryIsTame(app, order, ref);
      var ux := ExecuteCycle(v, app, order, t);
      CycleUnfolds(v, app, order, s, t, ux.0, ux.1);
      hide Covered, LeavesRa, TameEntry, Guard, Inv, StepCached, StepEntry, FetchDecode, ExecuteCycle, CycleOnce,
           AfterWrite, WriteCycle, Settling;
      if !ux.1.Stopped? { WrittenIsTame(v, app, ux.0, ux.1); } else { StoppedIsOver(v, ux.0, ux.1); }
    }
  }

  lemma StoppedIsOver(v: Variant, s: Cpu, x: Executed)
    requires x.Stopped?
    ensures var w := WriteCycle(Retirement(s)); w.Some? ==> AfterWrite(v, WithRetirement(s, w.value), x).stop.Some?
  {
    hide WriteCycle;
  }

  /** A covered run of the sequential core keeps all the states of the pipeline guarded. */
  lemma {:induction false} CoveredRunIsGuarded(v: Variant, app: App, orders: nat -> seq<Word>, s: Cpu, turns: nat)
    requires Runnable(app) && LeavesRa(app) && Fresh(s) && (forall n: nat :: CoveredUpTo(app, orders, Start(s), n))
    ensures forall k: nat :: k <= turns ==> GuardedAt(v, app, orders, s, k)
    ensures var p := AfterTurns(v, app, orders, Begin(s), turns);
            Agrees(v, app, orders, Start(s), p) && (p.stop.None? ==> Tame(app, p.cpu))
  {
    hide Covered, Tame, Guard, LeavesRa, Inv, CycleOnce, Budget, StepCached, Finished;
    if turns == 0 {
      FreshAgrees(v, app, orders, s);
      FreshIsTame(app, s);
    } else {
      CoveredRunIsGuarded(v, app, orders, s, turns - 1);
      var p := AfterTurns(v, app, orders, Begin(s), turns - 1);
      assert GuardedAt(v, app, orders, s, turns - 1);
      if p.stop.None? {
        AdvanceAgrees(v, app, orders, Start(s), p);
        assert CoveredUpTo(app, orders, Start(s), p.executed);
        TurnKeepsTame(v, app, orders(p.executed), p.cpu, Reference(Dropping, app, orders, Start(s), p.executed).value);
      }
    }
    var q := AfterTurns(v, app, orders, Begin(s), turns);
    if q.stop.None? {
      assert CoveredUpTo(app, orders, Start(s), q.executed);
      CoveredIsGuarded(v, app, orders(q.executed), q.cpu, Reference(Dropping, app, orders, Start(s), q.executed).value);
    }
  }

  lemma FreshIsTame(app: App, s: Cpu)
    requires Fresh(s)
    ensures Tame(app, s)
  {
  }

  /** Where the reference stops there is nothing more to cover. */
  lemma CoveredToTheEnd(app: App, orders: nat -> seq<Word>, start: Cached, n: nat)
    requires CoveredUpTo(app, orders, start, n) && StopsAfter(app, orders, start, n)
    ensures forall m: nat :: CoveredUpTo(app, orders, start, m)
  {
    hide Covered, StepCached, CoveredUpTo;
    forall m: nat ensures CoveredUpTo(app, orders, start, m) { CoveredThroughout(app, orders, start, n, m); }
  }

  lemma NothingBeyond(app: App, orders: nat -> seq<Word>, start: Cached, n: nat, k: nat)
    requires StopsAfter(app, orders, start, n) && k > n
    ensures Reference(Dropping, app, orders, start, k).None?
  {
    hide StepCached;
    assert Reference(Dropping, app, orders, start, n + 1).None?;
    if Reference(Dropping, app, orders, start, k).Some? { ReferencePrefix(Dropping, app, orders, start, n + 1, k); }
  }

  lemma CoveredThroughout(app: App, orders: nat -> seq<Word>, start: Cached, n: nat, m: nat)
    requires CoveredUpTo(app, orders, start, n) && StopsAfter(app, orders, start, n)
    ensures CoveredUpTo(app, orders, start, m)
  {
    forall k: nat | n < k <= m ensures Reference(Dropping, app, orders, start, k).None? {
      NothingBeyond(app, orders, start, n, k);
    }
    hide Covered, StepCached, Reference, StopsAfter;
  }

  /** Liveness in terms of the sequential run alone. */
  lemma CoveredTerminates(v: Variant, app: App, orders: nat -> seq<Word>, s: Cpu, n: nat) returns (turns: nat)
    requires Runnable(app) && LeavesRa(app) && Fresh(s) && CoveredUpTo(app, orders, Start(s), n)
             && StopsAfter(app, orders, Start(s), n)
    ensures EndsLike(app, orders, Start(s), n, AfterTurns(v, app, orders, Begin(s), turns))
            && Misses(app, orders, Start(s), n) == 0
  {
    hide GuardedAt, CoveredUpTo, LeavesRa, Fresh, StopsAfter, EndsLike;
    CoveredToTheEnd(app, orders, Start(s), n);
    forall k: nat ensures GuardedAt(v, app, orders, s, k) { CoveredRunIsGuarded(v, app, orders, s, k); }
    CoveredMissesNothing(app, orders, Start(s), n);
    turns := PipelineTerminates(v, app, orders, s, n);
  }

  lemma CoveredLast(app: App, orders: nat -> seq<Word>, start: Cached, n: nat)
    requires CoveredUpTo(app, orders, start, n) && Reference(Dropping, app, orders, start, n).Some?
    ensures Covered(app, orders(n), Reference(Dropping, app, orders, start, n).value)
  {
    hide Covered, Reference;
  }

  lemma {:induction false} CoveredMissesNothing(app: App, orders: nat -> seq<Word>, start: Cached, n: nat)
    requires LeavesRa(app) && forall m: nat :: CoveredUpTo(app, orders, start, m)
    ensures Misses(app, orders, start, n) == 0
  {
    hide Covered, StepEntry, LeavesRa, CoveredUpTo, Reference;
    if n > 0 {
      CoveredMissesNothing(app, orders, start, n - 1);
      var ref := Reference(Dropping, app, orders, start, n - 1);
      if ref.Some? {
        CoveredLast(app, orders, start, n - 1);
        CoveredEntryIsTame(app, orders(n - 1), ref.value);
      }
    }
  }
}
