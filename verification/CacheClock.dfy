/** The clock of MVP-3, and what its caches save against MVP-1 (proc/mvp3/cpu.go). */
module CacheClock {
  import opened Words
  import opened Isa
  import opened Cache
  import opened Mmu
  import opened Sequential
  import CoherentRun
  import Lockstep

  const ACCESS := 51

  /** MVP-3 with its L1I and its clock. */
  datatype Timed = Timed(cached: Cached, l1i: seq<Line>, cycle: nat)

  function BlankLine(pc: Word): Line { Line(pc, Wrap(pc + LINE_LENGTH), seq(LINE_LENGTH, _ => 0)) }

  function Fetched(s: Timed): Timed {
    var (b, l1i) := Get(s.l1i, s.cached.pc);
    if b.Some? then s.(l1i := l1i, cycle := s.cycle + 1)
    else s.(l1i := Push(l1i, NUMBER_OF_LINES, BlankLine(s.cached.pc)), cycle := s.cycle + ACCESS)
  }

  function OperandCost(lines: seq<Line>, addrs: seq<Word>): nat {
    if addrs == [] then 0 else 1 + if GetAll(lines, addrs).0.Some? then 0 else ACCESS
  }

  /** Writing back a register, into the L1D, or to memory. */
  function WriteCost(lines: seq<Line>, order: seq<Word>, e: Execution): nat {
    if e.registerChange then 1 else
    if e.data == [] then 0 else
    if LookUp(lines, order, e).0.Some? then 1 else ACCESS
  }

  datatype TimedStep = Goes(next: Timed) | Stops(last: Timed, stop: Stop)

  /** One turn of the loop with its cycles. After an error the clock does not matter. */
  function TimedTurn(app: App, order: seq<Word>, s: Timed): TimedStep {
    var at := Index(s.cached.pc);
    if at >= |app.code| then Stops(s, End) else
    if at < 0 then Stops(s, Error(GoPanic)) else
      var i := app.code[at];
      var addrs := MemoryRead(i, NO_FORWARD, s.cached.regs);
      match FetchOperands(s.cached.lines, s.cached.memory, addrs)
      case None => Stops(s, Error(BadAddress))
      case Some(l) =>
        match Run(i, NO_FORWARD, s.cached.regs, app.labels, s.cached.pc, l.bytes)
        case Fail(f) => Stops(s, Error(f))
        case Ok(e) =>
          var f := Fetched(s);
          var t := f.(cycle := f.cycle + 1 + OperandCost(s.cached.lines, addrs) + Cycles(i));
          match StepCached(Plain, app, order, s.cached)
          case CachedStop(stop) => Stops(t, stop)
          case CachedNext(c) => Goes(t.(cached := c, cycle := t.cycle + WriteCost(l.lines, order, e)))
  }

  /** The state before turn n, if the run gets there. */
  function TimedAfter(app: App, orders: nat -> seq<Word>, start: Timed, n: nat): Option<Timed> {
    if n == 0 then Some(start) else
      var before := TimedAfter(app, orders, start, n - 1);
      if before.None? then None else
        var step := TimedTurn(app, orders(n - 1), before.value);
        if step.Goes? then Some(step.next) else None
  }

  /** The clock does not change what is computed. */
  lemma TurnIsStep(app: App, order: seq<Word>, s: Timed)
    ensures match TimedTurn(app, order, s)
            case Goes(t) => StepCached(Plain, app, order, s.cached) == CachedNext(t.cached)
            case Stops(_, stop) => StepCached(Plain, app, order, s.cached) == CachedStop(stop)
  {
    hide Run, FetchOperands, MemoryRead, StoreThrough, Written;
  }

  lemma {:induction false} TimedIsReference(app: App, orders: nat -> seq<Word>, start: Timed, n: nat)
    ensures var t, c := TimedAfter(app, orders, start, n), Reference(Plain, app, orders, start.cached, n);
            (t.Some? <==> c.Some?) && (t.Some? ==> t.value.cached == c.value)
  {
    hide TimedTurn, StepCached;
    if n > 0 {
      TimedIsReference(app, orders, start, n - 1);
      var t := TimedAfter(app, orders, start, n - 1);
      if t.Some? { TurnIsStep(app, orders(n - 1), t.value); }
    }
  }

  /** A turn that has its operands, spelled out. */
  lemma TurnUnfolds(app: App, order: seq<Word>, s: Timed, i: Instr, l: Loaded)
    requires 0 <= Index(s.cached.pc) < |app.code| && i == app.code[Index(s.cached.pc)]
    requires FetchOperands(s.cached.lines, s.cached.memory, MemoryRead(i, NO_FORWARD, s.cached.regs)) == Some(l)
    ensures var f := Fetched(s);
            var t := f.cycle + 1 + OperandCost(s.cached.lines, MemoryRead(i, NO_FORWARD, s.cached.regs)) + Cycles(i);
            var out := Run(i, NO_FORWARD, s.cached.regs, app.labels, s.cached.pc, l.bytes);
            TimedTurn(app, order, s)
            == if out.Fail? then Stops(s, Error(out.fault)) else
                 match Finish(Plain, app, order, s.cached, i, l)
                 case CachedStop(stop) => Stops(f.(cycle := t), stop)
                 case CachedNext(c) => Goes(Timed(c, f.l1i, t + WriteCost(l.lines, order, out.value)))
  {
    hide Run, FetchOperands, MemoryRead, Finish, OperandCost, WriteCost, Fetched;
  }

  lemma TurnAtEnd(app: App, order: seq<Word>, s: Timed)
    ensures Index(s.cached.pc) >= |app.code| ==> TimedTurn(app, order, s) == Stops(s, End)
  {
    hide Run, MemoryRead, FetchOperands;
  }

  lemma {:induction false} TimedPrefix(app: App, orders: nat -> seq<Word>, start: Timed, m: nat, n: nat)
    requires m <= n && TimedAfter(app, orders, start, n).Some?
    ensures TimedAfter(app, orders, start, m).Some?
  {
    hide TimedTurn;
    if m < n { TimedPrefix(app, orders, start, m, n - 1); }
  }

  lemma StopsOnlyOnce(app: App, orders: nat -> seq<Word>, start: Timed, k: nat, n: nat)
    requires k <= n && TimedAfter(app, orders, start, k).Some? && TimedAfter(app, orders, start, n).Some?
    ensures TimedTurn(app, orders(k), TimedAfter(app, orders, start, k).value).Stops? ==> k == n
  {
    hide TimedTurn;
    if k < n { TimedPrefix(app, orders, start, k + 1, n); }
  }

  // ---------------------------------------------------------------- what the caches save

  /** Hits and misses so far. */
  datatype Tally = Tally(fetchHits: nat, fetchMisses: nat, loadHits: nat, loadMisses: nat, storeHits: nat,
                         storeMisses: nat)

  function Counted(app: App, order: seq<Word>, s: Timed, c: Tally): Tally {
    var at := Index(s.cached.pc);
    if !(0 <= at < |app.code|) then c else
      var i := app.code[at];
      var addrs := MemoryRead(i, NO_FORWARD, s.cached.regs);
      var c1 := if Get(s.l1i, s.cached.pc).0.Some? then c.(fetchHits := c.fetchHits + 1)
        else c.(fetchMisses := c.fetchMisses + 1);
      if addrs != [] then
        if GetAll(s.cached.lines, addrs).0.Some? then c1.(loadHits := c1.loadHits + 1)
          else c1.(loadMisses := c1.loadMisses + 1)
      else
        match Run(i, NO_FORWARD, s.cached.regs, app.labels, s.cached.pc, [])
        case Fail(_) => c1
        case Ok(e) =>
          if e.data == [] then c1 else
          if LookUp(s.cached.lines, order, e).0.Some? then c1.(storeHits := c1.storeHits + 1)
          else c1.(storeMisses := c1.storeMisses + 1)
  }

  function TallyAfter(app: App, orders: nat -> seq<Word>, start: Timed, n: nat): Tally {
    if n == 0 then Tally(0, 0, 0, 0, 0, 0) else
      var before := TimedAfter(app, orders, start, n - 1);
      var c := TallyAfter(app, orders, start, n - 1);
      if before.None? then c else Counted(app, orders(n - 1), before.value, c)
  }

  /** A hit saves 49 cycles; a miss costs one more for a fetch or a store, two more for a load. */
  ghost predicate Balanced(mvp1: int, mvp3: int, c: Tally) {
    mvp3 + 49 * (c.fetchHits + c.loadHits + c.storeHits) == mvp1 + c.fetchMisses + 2 * c.loadMisses + c.storeMisses
  }

  /** The kind of an instruction decides which results it has. */
  lemma SameKind(i: Instr, a: Regs, b: Regs, labels: map<string, Word>, pc: Word, x: seq<Byte>, y: seq<Byte>)
    ensures var p, q := Run(i, NO_FORWARD, a, labels, pc, x), Run(i, NO_FORWARD, b, labels, pc, y);
            p.Ok? && q.Ok? ==>
              && p.value.registerChange == q.value.registerChange && (p.value.data == [] <==> q.value.data == [])
              && (p.value.isReturn <==> q.value.isReturn)
              && (p.value.data != [] ==> i.Store? && !p.value.registerChange)
  {
  }

  ghost predicate SamePc(app: App, orders: nat -> seq<Word>, a: Lockstep.Clocked, b: Timed, k: nat) {
    var f, c := FlatAfter(Plain, app, a.flat, k), TimedAfter(app, orders, b, k);
    f.Some? && c.Some? && f.value.pc == c.value.cached.pc
  }

  /** MVP-1's clock after k instructions inside the program. */
  lemma {:induction false} ClockedIsFlat(app: App, a: Lockstep.Clocked, n: nat)
    requires FlatAfter(Plain, app, a.flat, n).Some?
    ensures var s := Lockstep.StateAfter(Lockstep.Mvp1, app, a, n);
            s.Running? && s.s.flat == FlatAfter(Plain, app, a.flat, n).value
  {
    hide Step, Lockstep.TurnOf;
    if n > 0 {
      ClockedIsFlat(app, a, n - 1);
      TurnOfNext(app, Lockstep.StateAfter(Lockstep.Mvp1, app, a, n - 1).s);
    }
  }

  lemma TurnOfNext(app: App, s: Lockstep.Clocked)
    requires Step(Plain, app, s.flat).FlatNext?
    ensures 0 <= Index(s.flat.pc) < |app.code|
    ensures var i := app.code[Index(s.flat.pc)];
            var d := Lockstep.Current(app, s.flat);
            && d.Ok? && d.value.instr == i && d.value.reading == (MemoryRead(i, NO_FORWARD, s.flat.regs) != [])
            && !d.value.exe.isReturn
            && (exists bytes :: Run(i, NO_FORWARD, s.flat.regs, app.labels, s.flat.pc, bytes) == Ok(d.value.exe))
            && Lockstep.TurnOf(Lockstep.Mvp1, app, s)
               == Lockstep.Goes(s.(flat := Step(Plain, app, s.flat).next,
                                   cycle := s.cycle + 51 + (if d.value.reading then 50 else 0) + Cycles(i)
                                     + Lockstep.WriteCost(Lockstep.Mvp1, d.value.exe)))
  {
    hide Run, MemoryRead, WriteMemory;
  }

  /** What one turn of MVP-3 adds to the tally, by the kind of instruction. */
  lemma CountedUnfolds(app: App, order: seq<Word>, s: Timed, i: Instr, e: Execution, l: Loaded, c: Tally)
    requires 0 <= Index(s.cached.pc) < |app.code| && i == app.code[Index(s.cached.pc)]
    requires FetchOperands(s.cached.lines, s.cached.memory, MemoryRead(i, NO_FORWARD, s.cached.regs)) == Some(l)
    requires Run(i, NO_FORWARD, s.cached.regs, app.labels, s.cached.pc, l.bytes) == Ok(e)
    requires e.data != [] ==> i.Store? && !e.registerChange
    ensures var addrs, c1 := MemoryRead(i, NO_FORWARD, s.cached.regs), Counted(app, order, s, c);
            && c1.fetchHits - c.fetchHits == (if Get(s.l1i, s.cached.pc).0.Some? then 1 else 0)
            && c1.fetchMisses - c.fetchMisses == (if Get(s.l1i, s.cached.pc).0.Some? then 0 else 1)
            && c1.loadHits - c.loadHits == (if addrs != [] && OperandCost(s.cached.lines, addrs) == 1 then 1 else 0)
            && c1.loadMisses - c.loadMisses == (if addrs != [] && OperandCost(s.cached.lines, addrs) != 1 then 1 else 0)
            && c1.storeHits - c.storeHits == (if e.data != [] && WriteCost(l.lines, order, e) == 1 then 1 else 0)
            && c1.storeMisses - c.storeMisses == (if e.data != [] && WriteCost(l.lines, order, e) != 1 then 1 else 0)
  {
    ReadsOnlyLoads(i, s.cached.regs);
    hide Run, MemoryRead, GetAll, Get, LookUp, LoadThrough;
  }

  lemma ReadsOnlyLoads(i: Instr, regs: Regs)
    ensures MemoryRead(i, NO_FORWARD, regs) == [] <==> !i.Load?
  {
  }

  lemma CostsAre(lines: seq<Line>, order: seq<Word>, addrs: seq<Word>, e: Execution, s: Timed)
    ensures OperandCost(lines, addrs) == if addrs == [] then 0 else if OperandCost(lines, addrs) == 1 then 1 else 52
    ensures e.data != [] && !e.registerChange ==> WriteCost(lines, order, e) == if WriteCost(lines, order, e) == 1 then
              1 else 51
    ensures e.data == [] ==> WriteCost(lines, order, e) == Lockstep.WriteCost(Lockstep.Mvp1, e)
    ensures e.data != [] && !e.registerChange ==> Lockstep.WriteCost(Lockstep.Mvp1, e) == 50
    ensures Fetched(s).cycle == s.cycle + if Get(s.l1i, s.cached.pc).0.Some? then 1 else 51
  {
    hide GetAll, Get, LookUp;
  }

  /** The books of one instruction. */
  lemma Books(mvp1: int, mvp3: int, c: Tally, c1: Tally, fetch: nat, reading: bool, operands: nat, storing: bool,
              write1: nat, write3: nat, busy: nat)
    requires Balanced(mvp1, mvp3, c)
    requires (fetch == 1 && c1.fetchHits == c.fetchHits + 1 && c1.fetchMisses == c.fetchMisses)
          || (fetch == 51 && c1.fetchHits == c.fetchHits && c1.fetchMisses == c.fetchMisses + 1)
    requires if !reading then operands == 0 && c1.loadHits == c.loadHits && c1.loadMisses == c.loadMisses else
               || (operands == 1 && c1.loadHits == c.loadHits + 1 && c1.loadMisses == c.loadMisses)
               || (operands == 52 && c1.loadHits == c.loadHits && c1.loadMisses == c.loadMisses + 1)
    requires if !storing then write1 == write3 && c1.storeHits == c.storeHits && c1.storeMisses == c.storeMisses else
               && write1 == 50
               && (|| (write3 == 1 && c1.storeHits == c.storeHits + 1 && c1.storeMisses == c.storeMisses)
                   || (write3 == 51 && c1.storeHits == c.storeHits && c1.storeMisses == c.storeMisses + 1))
    ensures Balanced(mvp1 + 51 + (if reading then 50 else 0) + busy + write1,
                     mvp3 + fetch + 1 + operands + busy + write3, c1)
  {
  }

  /** One instruction on both. */
  lemma TurnBalances(app: App, order: seq<Word>, a: Lockstep.Clocked, b: Timed, c: Tally)
    requires a.flat.pc == b.cached.pc && Balanced(a.cycle, b.cycle, c)
    requires Step(Plain, app, a.flat).FlatNext? && TimedTurn(app, order, b).Goes?
    ensures var s := Lockstep.TurnOf(Lockstep.Mvp1, app, a);
            s.Goes? && Balanced(s.next.cycle, TimedTurn(app, order, b).next.cycle, Counted(app, order, b, c))
  {
    hide Run, MemoryRead, TimedTurn, Lockstep.TurnOf, Step, Lockstep.Current, Finish, GetAll, Get, LookUp, Counted,
         OperandCost, WriteCost, Fetched, FetchOperands, Lockstep.WriteCost, Balanced, Index, Cycles;
    TurnOfNext(app, a);
    var i := app.code[Index(a.flat.pc)];
    var d := Lockstep.Current(app, a.flat).value;
    HasOperands(app, order, b);
    var addrs := MemoryRead(i, NO_FORWARD, b.cached.regs);
    var l := FetchOperands(b.cached.lines, b.cached.memory, addrs).value;
    var bytes :| Run(i, NO_FORWARD, a.flat.regs, app.labels, a.flat.pc, bytes) == Ok(d.exe);
    TurnUnfolds(app, order, b, i, l);
    SameKind(i, a.flat.regs, b.cached.regs, app.labels, a.flat.pc, bytes, l.bytes);
    ReadsOnlyLoads(i, a.flat.regs);
    ReadsOnlyLoads(i, b.cached.regs);
    var e := Run(i, NO_FORWARD, b.cached.regs, app.labels, b.cached.pc, l.bytes).value;
    CountedUnfolds(app, order, b, i, e, l, c);
    CostsAre(l.lines, order, addrs, e, b);
    CostsAre(b.cached.lines, order, addrs, e, b);
    SameWriteCost(d.exe, e);
    Books(a.cycle, b.cycle, c, Counted(app, order, b, c), Fetched(b).cycle - b.cycle, d.reading,
          OperandCost(b.cached.lines, addrs),
          e.data != [], Lockstep.WriteCost(Lockstep.Mvp1, d.exe), WriteCost(l.lines, order, e), Cycles(i));
  }

  lemma SameWriteCost(d: Execution, e: Execution)
    requires d.registerChange == e.registerChange && (d.data == [] <==> e.data == [])
    ensures Lockstep.WriteCost(Lockstep.Mvp1, d) == Lockstep.WriteCost(Lockstep.Mvp1, e)
  {
  }

  lemma HasOperands(app: App, order: seq<Word>, s: Timed)
    requires TimedTurn(app, order, s).Goes?
    ensures 0 <= Index(s.cached.pc) < |app.code|
    ensures FetchOperands(s.cached.lines, s.cached.memory,
                          MemoryRead(app.code[Index(s.cached.pc)], NO_FORWARD, s.cached.regs)).Some?
  {
    hide FetchOperands, MemoryRead, Run, StepCached;
  }

  /** What the caches of MVP-3 save against MVP-1, as long as both execute the same instructions. */
  lemma {:induction false} CachesSave(app: App, orders: nat -> seq<Word>, a: Lockstep.Clocked, b: Timed, n: nat)
    requires a.cycle == b.cycle && forall k: nat :: k <= n ==> SamePc(app, orders, a, b, k)
    ensures var s, t := Lockstep.StateAfter(Lockstep.Mvp1, app, a, n), TimedAfter(app, orders, b, n);
            s.Running? && t.Some? && Balanced(s.s.cycle, t.value.cycle, TallyAfter(app, orders, b, n))
  {
    hide Step, TimedTurn, Lockstep.TurnOf, Counted;
    assert SamePc(app, orders, a, b, n);
    ClockedIsFlat(app, a, n);
    if n > 0 {
      CachesSave(app, orders, a, b, n - 1);
      assert SamePc(app, orders, a, b, n - 1);
      ClockedIsFlat(app, a, n - 1);
      TurnBalances(app, orders(n - 1), Lockstep.StateAfter(Lockstep.Mvp1, app, a, n - 1).s,
                   TimedAfter(app, orders, b, n - 1).value,
                   TallyAfter(app, orders, b, n - 1));
    }
  }

  /** On every run that the L1D keeps coherent, to the cycle. */
  lemma SafeRunSaves(app: App, orders: nat -> seq<Word>, a: Lockstep.Clocked, b: Timed, n: nat)
    requires a.cycle == b.cycle && CoherentRun.Tracks(b.cached, a.flat) && FlatAfter(Plain, app, a.flat, n).Some?
    requires forall k: nat :: k < n ==> CoherentRun.SafeAt(Plain, app, orders, b.cached, a.flat, k)
    ensures var s, t := Lockstep.StateAfter(Lockstep.Mvp1, app, a, n), TimedAfter(app, orders, b, n);
            s.Running? && t.Some? && Balanced(s.s.cycle, t.value.cycle, TallyAfter(app, orders, b, n))
  {
    hide Lockstep.StateAfter, Balanced, TallyAfter, CoherentRun.SafeAt;
    CoherentRun.CachedRunAgrees(Plain, app, orders, b.cached, a.flat, n);
    forall k: nat | k <= n ensures SamePc(app, orders, a, b, k) {
      assert CoherentRun.TracksAt(Plain, app, orders, b.cached, a.flat, k);
      TimedIsReference(app, orders, b, k);
    }
    CachesSave(app, orders, a, b, n);
  }
}
