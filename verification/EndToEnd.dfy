/** From the pipelines down to MVP-1: the write-back of MVP-4 and MVP-5 against the plain one, and the whole chain
    pipeline - MVP-3 - MVP-1. */
module EndToEnd {
  import opened Words
  import opened Isa
  import opened Mmu
  import opened Sequential
  import opened Footprint
  import opened Pipeline
  import opened PipelineInvariant
  import opened PipelineExecute
  import opened PipelineRun
  import opened PipelineCovered
  import PipelineRegisters
  import Coherence
  import CoherentRun
  import Faults

  // ---------------------------------------------------------------- one write-back

  /** The value an instruction writes is not one that the write-back of MVP-4 and MVP-5 loses. */
  predicate KeepsValue(i: Instr, e: Execution) {
    e.registerChange && WriteRegisters(i) != [] ==> e.registerValue >= 0
  }

  lemma WritesItsRegister(i: Instr, regs: Regs, labels: map<string, Word>, pc: Word, bytes: seq<Byte>)
    ensures match Run(i, NO_FORWARD, regs, labels, pc, bytes)
            case Fail(_) => true
            case Ok(e) => e.registerChange ==> WriteRegisters(i) == [e.register] || WriteRegisters(i) == []
  {
  }

  /** Deleting a register that is not positive is writing 0 to it when it is negative, and nothing otherwise. */
  lemma DropReads(regs: Regs, r: Reg, q: Reg)
    ensures Read(DropNonPositive(regs, [r]), q) == if q == r && Read(regs, r) < 0 then 0 else Read(regs, q)
  {
    var one := [r];
    assert one[1..] == [];
    assert DropNonPositive(regs, one) == DropNonPositive(if Read(regs, r) <= 0 then regs - {r} else regs, []);
  }

  lemma SameUpdate(a: Regs, b: Regs, r: Reg, v: Word)
    requires SameRegs(a, b)
    ensures SameRegs(a[r := v], b[r := v])
  {
    var a1, b1 := a[r := v], b[r := v];
    forall q: Reg ensures Read(a1, q) == Read(b1, q) {
      assert Read(a, q) == Read(b, q);
    }
  }

  /** Exactly when both write-backs leave the same registers. */
  lemma WriteBackAgrees(a: Regs, b: Regs, i: Instr, e: Execution)
    requires SameRegs(a, b)
    requires e.registerChange ==> WriteRegisters(i) == [e.register] || WriteRegisters(i) == []
    ensures SameRegs(Written(Plain, a, i, e), Written(Dropping, b, i, e)) <==> KeepsValue(i, e)
  {
    if e.registerChange {
      var a1, b1 := a[e.register := e.registerValue], b[e.register := e.registerValue];
      SameUpdate(a, b, e.register, e.registerValue);
      if WriteRegisters(i) != [] {
        forall r: Reg
          ensures Read(Retire(b, Entry(i, e)), r) == if r == e.register && e.registerValue < 0 then 0 else Read(a1, r) {
          DropReads(b1, e.register, r);
        }
        if e.registerValue < 0 { assert Read(a1, e.register) != Read(Retire(b, Entry(i, e)), e.register); }
      }
    }
  }

  // ---------------------------------------------------------------- one step

  ghost predicate Alike(a: Cached, b: Cached) {
    SameRegs(a.regs, b.regs) && a.pc == b.pc && a.lines == b.lines && a.memory == b.memory
  }

  /** The next instruction writes nothing negative. */
  ghost predicate WritesNonNegative(app: App, a: Cached) {
    0 <= Index(a.pc) < |app.code| ==>
      var i := app.code[Index(a.pc)];
      KeepsResult(i, Run(i, NO_FORWARD, a.regs, app.labels, a.pc, LoadedBytes(a, i)))
  }

  lemma SameRegsSameRun(i: Instr, a: Regs, b: Regs, labels: map<string, Word>, pc: Word, bytes: seq<Byte>)
    requires SameRegs(a, b)
    ensures Run(i, NO_FORWARD, a, labels, pc, bytes) == Run(i, NO_FORWARD, b, labels, pc, bytes)
    ensures MemoryRead(i, NO_FORWARD, a) == MemoryRead(i, NO_FORWARD, b)
    ensures SameRegs(DirectWrite(i, a, pc), DirectWrite(i, b, pc))
  {
    ReadsAreComplete(i, NO_FORWARD, a, NO_FORWARD, b, labels, pc, bytes);
    SameUpdate(a, b, RA, pc);
  }

  ghost predicate StepsAlike(keeps: bool, a: CachedStep, b: CachedStep) {
    match a
    case CachedStop(stop) => b == a
    case CachedNext(a1) => b.CachedNext? && (Alike(a1, b.next) <==> keeps)
  }

  ghost predicate KeepsResult(i: Instr, r: Result<Execution>) { r.Ok? ==> KeepsValue(i, r.value) }

  lemma FinishAlike(app: App, order: seq<Word>, a: Cached, b: Cached, i: Instr, l: Loaded)
    requires Alike(a, b)
    ensures StepsAlike(KeepsResult(i, Run(i, NO_FORWARD, a.regs, app.labels, a.pc, l.bytes)),
                       Finish(Plain, app, order, a, i, l), Finish(Dropping, app, order, b, i, l))
  {
    hide Run, StoreThrough, KeepsValue, Written, DirectWrite, SameRegs, NextPc;
    SameRegsSameRun(i, a.regs, b.regs, app.labels, a.pc, l.bytes);
    WritesItsRegister(i, a.regs, app.labels, a.pc, l.bytes);
    var r := Run(i, NO_FORWARD, a.regs, app.labels, a.pc, l.bytes);
    if r.Ok? {
      WriteBackAgrees(DirectWrite(i, a.regs, a.pc), DirectWrite(i, b.regs, a.pc), i, r.value);
    }
  }

  lemma StepsAgree(app: App, order: seq<Word>, a: Cached, b: Cached)
    requires Alike(a, b)
    ensures StepsAlike(WritesNonNegative(app, a), StepCached(Plain, app, order, a), StepCached(Dropping, app, order, b))
  {
    if 0 <= Index(a.pc) < |app.code| {
      var i := app.code[Index(a.pc)];
      SameRegsSameRun(i, a.regs, b.regs, app.labels, a.pc, []);
      var l := FetchOperands(a.lines, a.memory, MemoryRead(i, NO_FORWARD, a.regs));
      hide Finish, Run, FetchOperands, KeepsValue, SameRegs;
      if l.Some? { FinishAlike(app, order, a, b, i, l.value); }
    }
  }

  lemma AlikeCovered(app: App, order: seq<Word>, a: Cached, b: Cached)
    requires Alike(a, b) && Covered(app, order, a)
    ensures Covered(app, order, b)
  {
    if 0 <= Index(a.pc) < |app.code| {
      var i := app.code[Index(a.pc)];
      SameRegsSameRun(i, a.regs, b.regs, app.labels, a.pc, []);
      SameRegsSameRun(i, a.regs, b.regs, app.labels, a.pc, LoadedBytes(a, i));
      hide Run, FetchOperands, LookUp, SameRegs;
    }
  }

  // ---------------------------------------------------------------- whole runs

  ghost predicate NonNegativeAt(app: App, orders: nat -> seq<Word>, start: Cached, k: nat) {
    var a := Reference(Plain, app, orders, start, k);
    a.Some? ==> WritesNonNegative(app, a.value)
  }

  ghost predicate AlikeAt(app: App, orders: nat -> seq<Word>, start: Cached, k: nat) {
    var a, b := Reference(Plain, app, orders, start, k), Reference(Dropping, app, orders, start, k);
    if a.Some? then b.Some? && Alike(a.value, b.value) else b.None?
  }

  lemma AlikeNext(app: App, orders: nat -> seq<Word>, start: Cached, k: nat)
    requires AlikeAt(app, orders, start, k)
    ensures Reference(Plain, app, orders, start, k + 1).Some? ==>
      (AlikeAt(app, orders, start, k + 1) <==> NonNegativeAt(app, orders, start, k))
    ensures Reference(Plain, app, orders, start, k + 1).None? ==> AlikeAt(app, orders, start, k + 1)
  {
    var a, b := Reference(Plain, app, orders, start, k), Reference(Dropping, app, orders, start, k);
    hide StepCached, WritesNonNegative, Alike;
    if a.Some? { StepsAgree(app, orders(k), a.value, b.value); }
  }

  /** The registers of the pipelines' reference are those of the plain one all along a run exactly when no instruction
      before its last state writes a negative value. */
  lemma {:induction false} RunsAlike(app: App, orders: nat -> seq<Word>, start: Cached, n: nat)
    requires Reference(Plain, app, orders, start, n).Some?
    ensures (forall k: nat :: k <= n ==> AlikeAt(app, orders, start, k))
       <==> (forall k: nat :: k < n ==> NonNegativeAt(app, orders, start, k))
  {
    hide StepCached, WritesNonNegative, AlikeAt, NonNegativeAt;
    if n > 0 {
      RunsAlike(app, orders, start, n - 1);
      if AlikeAt(app, orders, start, n - 1) { AlikeNext(app, orders, start, n - 1); }
    } else {
      StartsAlike(app, orders, start);
    }
  }

  lemma StartsAlike(app: App, orders: nat -> seq<Word>, start: Cached)
    ensures AlikeAt(app, orders, start, 0)
  {
  }

  /** One instruction is enough to tell the two apart. */
  lemma NegativeWriteIsLost(orders: nat -> seq<Word>)
    ensures var app, start := App([Li(5, -1)], map[]), Cached(map[], 0, [], []);
            && Reference(Plain, app, orders, start, 1).Some? && Reference(Dropping, app, orders, start, 1).Some?
            && Read(Reference(Plain, app, orders, start, 1).value.regs, 5) == -1
            && Read(Reference(Dropping, app, orders, start, 1).value.regs, 5) == 0
  {
    var app, start := App([Li(5, -1)], map[]), Cached(map[], 0, [], []);
    assert Reference(Plain, app, orders, start, 0) == Some(start);
    assert Reference(Dropping, app, orders, start, 0) == Some(start);
    DropReads(map[5 := -1], 5, 5);
  }

  // ---------------------------------------------------------------- the whole chain

  /** MVP-1, on flat memory, stops after n instructions. */
  ghost predicate FlatStops(app: App, start: Flat, n: nat) {
    var f := FlatAfter(Plain, app, start, n);
    f.Some? && Step(Plain, app, f.value).FlatStop?
  }

  /** If MVP-1 stops there on a bad address, the L1D does not let MVP-3 go on. */
  ghost predicate SharesStop(app: App, orders: nat -> seq<Word>, s: Cpu, n: nat) {
    var c, f := Reference(Plain, app, orders, Start(s), n), FlatAfter(Plain, app, AsFlat(s), n);
    && c.Some? && f.Some? && Step(Plain, app, f.value).FlatStop?
    && Faults.Shares(app, orders(n), c.value, Step(Plain, app, f.value).stop)
  }

  function AsFlat(s: Cpu): Flat { Flat(s.regs, 0, s.memory) }

  /** What makes the reference of the pipelines agree with MVP-1 on flat memory: no instruction writes a negative value,
      and none leaves the L1D incoherent. */
  ghost predicate SoundRun(app: App, orders: nat -> seq<Word>, start: Cached, n: nat) {
    && (forall k: nat :: k < n ==> NonNegativeAt(app, orders, start, k))
    && (forall k: nat :: k < n ==>
          CoherentRun.SafeAt(Plain, app, orders, start, Flat(start.regs, start.pc, start.memory), k))
  }

  /** What the code requires of a run, said of the sequential cores alone: a sound run whose steps the pipelines
      cover. */
  ghost predicate GoodRun(app: App, orders: nat -> seq<Word>, start: Cached, n: nat) {
    && (forall k: nat :: k <= n && Reference(Plain, app, orders, start, k).Some? ==>
          Covered(app, orders(k), Reference(Plain, app, orders, start, k).value))
    && SoundRun(app, orders, start, n)
  }

  lemma {:induction false} GoodRunIsCovered(app: App, orders: nat -> seq<Word>, start: Cached, n: nat)
    requires GoodRun(app, orders, start, n) && Reference(Plain, app, orders, start, n).Some?
    ensures CoveredUpTo(app, orders, start, n) && AlikeAt(app, orders, start, n)
  {
    RunsAlike(app, orders, start, n);
    hide StepCached, Covered, CoherentRun.SafeAt, NonNegativeAt, Alike;
    forall k: nat | k <= n && Reference(Dropping, app, orders, start, k).Some?
      ensures Covered(app, orders(k), Reference(Dropping, app, orders, start, k).value)
    {
      ReferencePrefix(Plain, app, orders, start, k, n);
      assert AlikeAt(app, orders, start, k);
      AlikeCovered(app, orders(k), Reference(Plain, app, orders, start, k).value,
                   Reference(Dropping, app, orders, start, k).value);
    }
  }

  /** Where MVP-1 stops the reference of the pipelines has its registers and, once flushed, its memory, and stops or
      not. */
  lemma SoundRunStops(app: App, orders: nat -> seq<Word>, s: Cpu, n: nat)
    requires Fresh(s) && |s.memory| <= 0x8000_0000 - LINE_LENGTH
    requires FlatStops(app, AsFlat(s), n) && SoundRun(app, orders, Start(s), n)
    ensures Reference(Plain, app, orders, Start(s), n).Some? && Reference(Dropping, app, orders, Start(s), n).Some?
    ensures StopsAfter(app, orders, Start(s), n) <==> SharesStop(app, orders, s, n)
    ensures var d, f := Reference(Dropping, app, orders, Start(s), n).value, FlatAfter(Plain, app, AsFlat(s), n).value;
            && (SharesStop(app, orders, s, n) ==>
                  StepCached(Dropping, app, orders(n), d) == CachedStop(Step(Plain, app, f).stop))
            && SameRegs(d.regs, f.regs) && Flushed(d.lines, d.memory) == f.memory
  {
    var start := Start(s);
    CoherentRun.CachedRunAgrees(Plain, app, orders, start, AsFlat(s), n);
    assert CoherentRun.TracksAt(Plain, app, orders, start, AsFlat(s), n);
    var c, f := Reference(Plain, app, orders, start, n).value, FlatAfter(Plain, app, AsFlat(s), n).value;
    CoherentRun.CachedStepAgrees(Plain, app, orders(n), c, f);
    RunsAlike(app, orders, start, n);
    assert AlikeAt(app, orders, start, n);
    var d := Reference(Dropping, app, orders, start, n).value;
    StepsAgree(app, orders(n), c, d);
    hide Step, StepCached, CoherentRun.Safe, NonNegativeAt, SoundRun, Faults.Shares;
    CoherentRun.FlushPublishes(c.lines, c.memory, f.memory);
  }

  /** The run ends as MVP-1's: for its reason, after as many instructions, in time, with its registers, and with its
      memory once the L1D has been flushed. */
  ghost predicate EndsLikeMvp1(app: App, s: Cpu, n: nat, q: Progress, cycles: nat) {
    var f := FlatAfter(Plain, app, AsFlat(s), n);
    && f.Some? && Step(Plain, app, f.value).FlatStop? && q.stop == Some(Step(Plain, app, f.value).stop)
    && q.executed == n && q.cycles <= cycles
    && (!q.stop.value.Error? ==>
          SameRegs(q.cpu.regs, f.value.regs) && Flushed(q.cpu.l1d, q.cpu.memory) == f.value.memory)
  }

  lemma ReferenceEnds(app: App, orders: nat -> seq<Word>, s: Cpu, n: nat, q: Progress)
    requires Fresh(s) && |s.memory| <= 0x8000_0000 - LINE_LENGTH
    requires FlatStops(app, AsFlat(s), n) && SoundRun(app, orders, Start(s), n) && EndsLike(app, orders, Start(s), n, q)
    ensures EndsLikeMvp1(app, s, n, q, 158 * n + 157 + 50 * Misses(app, orders, Start(s), n))
  {
    hide Step, StepCached, SoundRun, Fresh, Flushed, SameRegs, Misses, Reference, FlatAfter, SharesStop;
    SoundRunStops(app, orders, s, n);
    EndsIsStop(app, orders, Start(s), n, q);
    var d, f := Reference(Dropping, app, orders, Start(s), n).value, FlatAfter(Plain, app, AsFlat(s), n).value;
    PipelineRegisters.SameTransits(q.cpu.regs, d.regs, f.regs);
  }

  lemma EndsIsStop(app: App, orders: nat -> seq<Word>, start: Cached, n: nat, q: Progress)
    requires EndsLike(app, orders, start, n, q)
    ensures StopsAfter(app, orders, start, n)
  {
    hide StepCached, Reference;
  }

  /** MVP-4 and MVP-5 mean what MVP-1 means, over every guarded run that is sound: they end as MVP-1's run if and only
      if, where that one ends on a bad address, the L1D does not let the access pass. */
  lemma GuardedMeansMvp1(v: Variant, app: App, orders: nat -> seq<Word>, s: Cpu, n: nat) returns (turns: nat)
    requires Runnable(app) && Fresh(s) && |s.memory| <= 0x8000_0000 - LINE_LENGTH
    requires FlatStops(app, AsFlat(s), n) && SoundRun(app, orders, Start(s), n)
    requires forall k: nat :: GuardedAt(v, app, orders, s, k)
    ensures var bound := 158 * n + 157 + 50 * Misses(app, orders, Start(s), n);
            if SharesStop(app, orders, s, n) then
                EndsLikeMvp1(app, s, n, AfterTurns(v, app, orders, Begin(s), turns), bound)
            else forall t: nat :: !EndsLikeMvp1(app, s, n, AfterTurns(v, app, orders, Begin(s), t), bound)
  {
    hide GuardedAt, Fresh, FlatStops, SoundRun, EndsLike, EndsLikeMvp1, StopsAfter, AfterTurns, Misses, SharesStop,
         Runnable, Step, StepCached, Reference, FlatAfter, Flushed, SameRegs;
    turns := 0;
    SoundRunStops(app, orders, s, n);
    if SharesStop(app, orders, s, n) {
      turns := PipelineTerminates(v, app, orders, s, n);
      ReferenceEnds(app, orders, s, n, AfterTurns(v, app, orders, Begin(s), turns));
    } else {
      var bound := 158 * n + 157 + 50 * Misses(app, orders, Start(s), n);
      forall t: nat ensures !EndsLikeMvp1(app, s, n, AfterTurns(v, app, orders, Begin(s), t), bound) {
        GoesOnPast(v, app, orders, s, n, t, bound);
      }
    }
  }

  lemma GoesOnPast(v: Variant, app: App, orders: nat -> seq<Word>, s: Cpu, n: nat, t: nat, cycles: nat)
    requires Runnable(app) && Fresh(s) && !StopsAfter(app, orders, Start(s), n)
    requires forall k: nat :: GuardedAt(v, app, orders, s, k)
    ensures !EndsLikeMvp1(app, s, n, AfterTurns(v, app, orders, Begin(s), t), cycles)
  {
    hide GuardedAt, Fresh, EndsLikeMvp1, StopsAfter, AfterTurns, Agrees;
    PipelineRefinesSequential(v, app, orders, s, t);
    StopsWithReference(v, app, orders, s, n, AfterTurns(v, app, orders, Begin(s), t), cycles);
  }

  /** A run that follows the reference and ends after n instructions ends where the reference stops. */
  lemma StopsWithReference(v: Variant, app: App, orders: nat -> seq<Word>, s: Cpu, n: nat, q: Progress, cycles: nat)
    requires Agrees(v, app, orders, Start(s), q) && !StopsAfter(app, orders, Start(s), n)
    ensures !EndsLikeMvp1(app, s, n, q, cycles)
  {
    hide StepCached, Reference, Finished, Inv, Step, FlatAfter, Budget;
  }

  /** The same with a condition on the sequential run in place of the guard, within 158 n + 157 cycles. */
  lemma PipelineMeansMvp1(v: Variant, app: App, orders: nat -> seq<Word>, s: Cpu, n: nat) returns (turns: nat)
    requires Runnable(app) && LeavesRa(app) && Fresh(s) && |s.memory| <= 0x8000_0000 - LINE_LENGTH
    requires FlatStops(app, AsFlat(s), n) && GoodRun(app, orders, Start(s), n) && SharesStop(app, orders, s, n)
    ensures EndsLikeMvp1(app, s, n, AfterTurns(v, app, orders, Begin(s), turns), 158 * n + 157)
  {
    hide Fresh, FlatStops, SoundRun, EndsLike, EndsLikeMvp1, StopsAfter, AfterTurns, Misses, CoveredUpTo, LeavesRa,
         Covered, SharesStop;
    SoundRunStops(app, orders, s, n);
    GoodRunIsCovered(app, orders, Start(s), n);
    turns := CoveredTerminates(v, app, orders, s, n);
    ReferenceEnds(app, orders, s, n, AfterTurns(v, app, orders, Begin(s), turns));
  }

  // ---------------------------------------------------------------- programs that only load, in terms of MVP-1 alone

  function FlatBytes(f: Flat, i: Instr): seq<Byte> {
    var addrs := MemoryRead(i, NO_FORWARD, f.regs);
    if InRange(f.memory, addrs) then BytesAt(f.memory, addrs) else []
  }

  /** What the pipelines ask of the next instruction: no lh, no taken bltu, no jump out of the program, and nothing
      negative written. */
  ghost predicate FlatCovered(app: App, f: Flat) {
    0 <= f.pc < 4 * |app.code| ==>
      var i := app.code[f.pc / 4];
      && !(i.Load? && i.width == TwoBytes)
      && match Run(i, NO_FORWARD, f.regs, app.labels, f.pc, FlatBytes(f, i))
         case Fail(_) => true
         case Ok(e) => KeepsValue(i, e) && (e.pcChange ==> 0 <= e.nextPc < 4 * |app.code| && IsBranch(i))
  }

  lemma SameBytes(c: Cached, f: Flat, i: Instr)
    requires CoherentRun.Tracks(c, f) && c.memory == f.memory && InRange(f.memory, MemoryRead(i, NO_FORWARD, f.regs))
    ensures LoadedBytes(c, i) == FlatBytes(f, i)
  {
    var addrs := MemoryRead(i, NO_FORWARD, f.regs);
    if addrs == [] {
      assert BytesAt(f.memory, addrs) == [];
    } else {
      CoherentRun.LoadAgrees(c.lines, c.memory, f.memory, i, c.regs);
    }
  }

  lemma FlatCoveredIsCovered(app: App, order: seq<Word>, c: Cached, f: Flat)
    requires CoherentRun.LoadsOnly(app) && FlatCovered(app, f) && CoherentRun.Tracks(c, f) && c.memory == f.memory
    requires 0 <= Index(f.pc) < |app.code| ==> InRange(f.memory, MemoryRead(app.code[Index(f.pc)], NO_FORWARD, f.regs))
    requires f.pc >= 0
    ensures Covered(app, order, c) && WritesNonNegative(app, c)
  {
    IndexInside(app, f.pc);
    if f.pc < 4 * |app.code| {
      SameBytes(c, f, app.code[f.pc / 4]);
      NotAStore(app.code[f.pc / 4], f.regs, app.labels, f.pc, FlatBytes(f, app.code[f.pc / 4]));
    }
    hide Run, FlatBytes, LoadedBytes, Coherence.Coherent, Index, LookUp;
  }

  lemma IndexInside(app: App, pc: Word)
    requires pc >= 0
    ensures Index(pc) == pc / 4 >= 0 && (Index(pc) < |app.code| <==> pc < 4 * |app.code|)
  {
  }

  lemma NotAStore(i: Instr, regs: Regs, labels: map<string, Word>, pc: Word, bytes: seq<Byte>)
    requires !i.Store?
    ensures var out := Run(i, NO_FORWARD, regs, labels, pc, bytes); out.Ok? ==> out.value.data == []
  {
  }

  lemma GoesOnInRange(app: App, f: Flat)
    requires Step(Plain, app, f) != FlatStop(Error(BadAddress))
    ensures 0 <= Index(f.pc) < |app.code| ==> InRange(f.memory, MemoryRead(app.code[Index(f.pc)], NO_FORWARD, f.regs))
  {
    hide FinishFlat, MemoryRead;
  }

  /** Over a covered run the program counter stays where jumps inside the program and their successors lead. */
  lemma {:induction false} PcStaysInside(app: App, start: Flat, k: nat)
    requires Runnable(app) && start.pc == 0 && FlatAfter(Plain, app, start, k).Some?
    requires forall j: nat :: j < k && FlatAfter(Plain, app, start, j).Some? ==>
               FlatCovered(app, FlatAfter(Plain, app, start, j).value)
    ensures 0 <= FlatAfter(Plain, app, start, k).value.pc <= 4 * |app.code| + 3
  {
    hide Step, FlatCovered;
    if k > 0 {
      var f := FlatAfter(Plain, app, start, k - 1).value;
      PcStaysInside(app, start, k - 1);
      assert FlatAfter(Plain, app, start, k - 1).Some?;
      NextPcInside(app, f);
    }
  }

  lemma NextPcInside(app: App, f: Flat)
    requires Runnable(app) && 0 <= f.pc <= 4 * |app.code| + 3 && FlatCovered(app, f) && Step(Plain, app, f).FlatNext?
    ensures 0 <= Step(Plain, app, f).next.pc <= 4 * |app.code| + 3
  {
    hide Run, MemoryRead, WriteMemory, BytesAt;
  }

  lemma LoadOnlyGoodRun(app: App, orders: nat -> seq<Word>, start: Flat, n: nat)
    requires Runnable(app) && CoherentRun.LoadsOnly(app) && start.pc == 0 && |start.memory| <= 0x8000_0000 - LINE_LENGTH
    requires FlatStops(app, start, n)
    requires forall k: nat :: k <= n && FlatAfter(Plain, app, start, k).Some? ==>
               FlatCovered(app, FlatAfter(Plain, app, start, k).value)
    ensures GoodRun(app, orders, Cached(start.regs, 0, [], start.memory), n)
  {
    var c0 := Cached(start.regs, 0, [], start.memory);
    hide Step, StepCached, Covered, WritesNonNegative, FlatCovered, CoherentRun.Safe, Coherence.Coherent;
    forall k: nat | k <= n
      ensures Reference(Plain, app, orders, c0, k).Some?
      ensures Covered(app, orders(k), Reference(Plain, app, orders, c0, k).value)
      ensures k < n ==> NonNegativeAt(app, orders, c0, k) && CoherentRun.SafeAt(Plain, app, orders, c0, start, k)
    {
      LoadOnlyStep(app, orders, start, n, k);
    }
  }

  lemma {:induction false} FlatPrefix(app: App, start: Flat, k: nat, n: nat)
    requires k <= n && FlatAfter(Plain, app, start, n).Some?
    ensures FlatAfter(Plain, app, start, k).Some?
    ensures k < n ==> Step(Plain, app, FlatAfter(Plain, app, start, k).value).FlatNext?
  {
    hide Step;
    if k < n { FlatPrefix(app, start, k, n - 1); }
  }

  lemma LoadOnlyStep(app: App, orders: nat -> seq<Word>, start: Flat, n: nat, k: nat)
    requires Runnable(app) && CoherentRun.LoadsOnly(app) && start.pc == 0 && |start.memory| <= 0x8000_0000 - LINE_LENGTH
    requires FlatStops(app, start, n) && k <= n
    requires forall j: nat :: j <= n && FlatAfter(Plain, app, start, j).Some? ==>
               FlatCovered(app, FlatAfter(Plain, app, start, j).value)
    ensures var c0 := Cached(start.regs, 0, [], start.memory);
            var c := Reference(Plain, app, orders, c0, k);
            && c.Some? && Covered(app, orders(k), c.value) && (k < n ==> WritesNonNegative(app, c.value))
            && CoherentRun.SafeAt(Plain, app, orders, c0, start, k)
  {
    hide Step, StepCached, Covered, WritesNonNegative, FlatCovered, CoherentRun.Safe, Coherence.Coherent;
    FlatPrefix(app, start, k, n);
    var f := FlatAfter(Plain, app, start, k).value;
    CoherentRun.LoadOnlyRunsAgree(Plain, app, orders, start, k);
    var c := Reference(Plain, app, orders, Cached(start.regs, 0, [], start.memory), k).value;
    PcStaysInside(app, start, k);
    if Step(Plain, app, f) == FlatStop(Error(BadAddress)) {
      FaultingIsCovered(app, orders(k), c, f);
    } else {
      GoesOnInRange(app, f);
      FlatCoveredIsCovered(app, orders(k), c, f);
    }
    CoherentRun.LoadsAreSafe(app, orders(k), c, f);
    TracksSizes(c, f);
  }

  /** A load that faults, or reads on, jumps nowhere and stores nothing. */
  lemma FaultingIsCovered(app: App, order: seq<Word>, c: Cached, f: Flat)
    requires CoherentRun.LoadsOnly(app) && FlatCovered(app, f) && c.pc == f.pc && f.pc >= 0
    requires Step(Plain, app, f) == FlatStop(Error(BadAddress))
    ensures Covered(app, order, c)
  {
    Faults.OnlyMemoryFaults(Plain, app, f);
    IndexInside(app, f.pc);
    var i := app.code[Index(f.pc)];
    LoadsDoNoMore(i, c.regs, app.labels, c.pc, LoadedBytes(c, i));
    hide Run, LoadedBytes, Step, LookUp;
  }

  lemma LoadsDoNoMore(i: Instr, regs: Regs, labels: map<string, Word>, pc: Word, bytes: seq<Byte>)
    requires i.Load?
    ensures var out := Run(i, NO_FORWARD, regs, labels, pc, bytes);
            out.Ok? ==> !out.value.pcChange && out.value.data == []
  {
  }

  lemma TracksSizes(c: Cached, f: Flat)
    requires CoherentRun.Tracks(c, f)
    ensures |c.memory| == |f.memory|
  {
  }

  /** The same for programs that only load, with every condition said of MVP-1's own run, but for what the L1D holds
      behind the end of memory when that run ends on a bad address. */
  lemma LoadOnlyPipelineMeansMvp1(v: Variant, app: App, orders: nat -> seq<Word>, s: Cpu, n: nat) returns (turns: nat)
    requires Runnable(app) && LeavesRa(app) && CoherentRun.LoadsOnly(app) && Fresh(s)
             && |s.memory| <= 0x8000_0000 - LINE_LENGTH
    requires FlatStops(app, AsFlat(s), n) && SharesStop(app, orders, s, n)
    requires forall k: nat :: k <= n && FlatAfter(Plain, app, AsFlat(s), k).Some? ==>
      FlatCovered(app, FlatAfter(Plain, app, AsFlat(s), k).value)
    ensures var q := AfterTurns(v, app, orders, Begin(s), turns);
            && EndsLikeMvp1(app, s, n, q, 158 * n + 157)
            && (!q.stop.value.Error? ==> Flushed(q.cpu.l1d, q.cpu.memory) == s.memory)
  {
    hide Step, FlatCovered, GoodRun, Flushed, SharesStop;
    LoadOnlyGoodRun(app, orders, AsFlat(s), n);
    CoherentRun.LoadOnlyRunsAgree(Plain, app, orders, AsFlat(s), n);
    turns := PipelineMeansMvp1(v, app, orders, s, n);
  }

  // ---------------------------------------------------------------- the premises can be met

  function SmallProgram(): App { App([Li(5, 1), Ret], map[]) }

  lemma SmallSteps(f: Flat)
    requires f.pc == 0
    ensures var f1 := Flat(f.regs[5 := 1], 4, f.memory);
            && FlatAfter(Plain, SmallProgram(), f, 0) == Some(f) && FlatAfter(Plain, SmallProgram(), f, 1) == Some(f1)
            && Step(Plain, SmallProgram(), f1) == FlatStop(Return)
  {
    var app, f1 := SmallProgram(), Flat(f.regs[5 := 1], 4, f.memory);
    assert BytesAt(f.memory, []) == [];
    assert Step(Plain, app, f) == FlatNext(f1);
    assert Step(Plain, app, f1) == FlatStop(Return);
    hide Step;
    assert FlatAfter(Plain, app, f, 0) == Some(f);
  }

  /** The premises of the theorem above, for a program and whatever memory: they do not exclude each other. */
  lemma PremisesAreMet(orders: nat -> seq<Word>, s: Cpu)
    requires Fresh(s) && |s.memory| <= 0x8000_0000 - LINE_LENGTH
    ensures Runnable(SmallProgram()) && LeavesRa(SmallProgram()) && CoherentRun.LoadsOnly(SmallProgram())
    ensures FlatStops(SmallProgram(), AsFlat(s), 1) && SharesStop(SmallProgram(), orders, s, 1)
    ensures forall k: nat :: k <= 1 && FlatAfter(Plain, SmallProgram(), AsFlat(s), k).Some? ==>
      FlatCovered(SmallProgram(), FlatAfter(Plain, SmallProgram(), AsFlat(s), k).value)
  {
    var app, f := SmallProgram(), AsFlat(s);
    var f1 := Flat(f.regs[5 := 1], 4, f.memory);
    SmallSteps(f);
    hide Step, FlatAfter, Reference, StepCached, Fresh;
    CoherentRun.LoadOnlyRunsAgree(Plain, app, orders, f, 1);
    assert FlatCovered(app, f) && FlatCovered(app, f1);
  }
}
