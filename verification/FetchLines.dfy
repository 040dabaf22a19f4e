/** What the L1I of MVP-3, MVP-4 and MVP-5 holds after any sequence of fetches, and what MVP-3's clock makes of it
    (proc/mvp3/cpu.go, proc/mvp4/fu.go, proc/mvp5/fu.go). */
module FetchLines {
  import opened Words
  import opened Isa
  import opened Cache
  import opened Mmu
  import opened Sequential
  import opened Pipeline
  import opened PipelineRun
  import Coherence
  import CacheClock
  import Clocks
  import PipelineProof

  // ---------------------------------------------------------------- where lines start

  /** The 64 bytes from a start hold the program counter. */
  predicate Holds(start: Word, pc: Word) { start <= pc < start + 64 < 0x8000_0000 }

  /** The first of these starts whose line holds it, or how many there are. */
  function Holder(starts: seq<Word>, pc: Word): (k: nat)
    ensures k <= |starts|
  {
    if starts == [] || Holds(starts[0], pc) then 0 else 1 + Holder(starts[1..], pc)
  }

  predicate Held(starts: seq<Word>, pc: Word) { Holder(starts, pc) < |starts| }

  /** The starts of the lines after fetches at these program counters, the last one used in front: a fetch that no line
      holds opens one there, and of more than sixteen the last is dropped. */
  function Starts(pcs: seq<Word>): seq<Word> {
    if pcs == [] then [] else
      var before, pc := Starts(pcs[..|pcs| - 1]), pcs[|pcs| - 1];
      var k := Holder(before, pc);
      if k < |before| then [before[k]] + before[..k] + before[k + 1..]
      else if |before| < 16 then [pc] + before else [pc] + before[..15]
  }

  /** Where the line ends, unless that wraps around. */
  function EndOf(start: Word): Word { Wrap(start + 64) }

  ghost predicate LinesAt(lines: seq<Line>, starts: seq<Word>) {
    && |lines| == |starts| <= 16
    && forall k :: 0 <= k < |lines| ==> lines[k].lo == starts[k] && lines[k].hi == EndOf(starts[k])
  }

  lemma {:induction false} FindsHolder(lines: seq<Line>, starts: seq<Word>, pc: Word)
    requires LinesAt(lines, starts)
    ensures Find(lines, pc) == Holder(starts, pc)
  {
    if lines != [] {
      assert Covers(lines[0], pc) <==> Holds(starts[0], pc);
      FindsHolder(lines[1..], starts[1..], pc);
    }
  }

  lemma MovesTogether(lines: seq<Line>, starts: seq<Word>, i: nat)
    requires LinesAt(lines, starts) && i < |lines|
    ensures LinesAt(ToFront(lines, i), [starts[i]] + starts[..i] + starts[i + 1..])
  {
    hide EndOf;
    var lines1, starts1 := ToFront(lines, i), [starts[i]] + starts[..i] + starts[i + 1..];
    forall k | 0 <= k < |lines1| ensures lines1[k].lo == starts1[k] && lines1[k].hi == EndOf(starts1[k]) {
      var j := if k == 0 then i else if k <= i then k - 1 else k;
      assert lines1[k] == lines[j] && starts1[k] == starts[j];
    }
  }

  lemma OpensTogether(lines: seq<Line>, starts: seq<Word>, line: Line)
    requires LinesAt(lines, starts) && line.hi == EndOf(line.lo)
    ensures LinesAt(Push(lines, 16, line), if |starts| < 16 then [line.lo] + starts else [line.lo] + starts[..15])
  {
    hide EndOf;
  }

  /** One fetch: whether it hits, and the lines after it. */
  lemma FetchLeaves(lines: seq<Line>, pcs: seq<Word>, pc: Word, fetched: Line)
    requires LinesAt(lines, Starts(pcs)) && fetched.lo == pc && fetched.hi == EndOf(pc)
    ensures var (b, lines1) := Get(lines, pc);
            && (b.Some? <==> Held(Starts(pcs), pc))
            && LinesAt(if b.Some? then lines1 else Push(lines1, 16, fetched), Starts(pcs + [pc]))
  {
    FindsHolder(lines, Starts(pcs), pc);
    var i := Find(lines, pc);
    hide Starts, Holder, Find, Push, ToFront, EndOf;
    if i < |lines| {
      MovesTogether(lines, Starts(pcs), i);
      GrowsByHit(pcs, pc, i);
    } else {
      OpensTogether(lines, Starts(pcs), fetched);
      GrowsByMiss(pcs, pc);
    }
  }

  lemma GrowsByHit(pcs: seq<Word>, pc: Word, i: nat)
    requires i == Holder(Starts(pcs), pc) < |Starts(pcs)|
    ensures Starts(pcs + [pc]) == [Starts(pcs)[i]] + Starts(pcs)[..i] + Starts(pcs)[i + 1..]
  {
    assert (pcs + [pc])[..|pcs|] == pcs;
  }

  lemma GrowsByMiss(pcs: seq<Word>, pc: Word)
    requires !Held(Starts(pcs), pc)
    ensures Starts(pcs + [pc])
         == if |Starts(pcs)| < 16 then [pc] + Starts(pcs) else [pc] + Starts(pcs)[..15]
  {
    assert (pcs + [pc])[..|pcs|] == pcs;
  }

  // ---------------------------------------------------------------- MVP-3

  /** What an instruction costs on MVP-3: to fetch, 1 in the L1I and 51 past it; one to decode; a load 1, past the L1D
      51 more, and 50 to execute, any other one; and one for a register or a store into the L1D, 51 for one past it. */
  function Price3(i: Instr, fetched: bool, loaded: bool, stored: bool): nat {
    (if fetched then 1 else 51) + Clocks.Price(i) - 50
    + (if i.Load? then (if loaded then 1 else 52) - 50 else 0)
    + (if i.Store? then (if stored then 1 else 51) - 50 else 0)
  }

  ghost predicate AllResident(lines: seq<Line>, addrs: seq<Word>) {
    forall k :: 0 <= k < |addrs| ==> Coherence.Resident(lines, addrs[k])
  }

  /** The addresses that an instruction stores to. */
  function StoredAt(app: App, s: Cached, i: Instr): seq<Word> {
    match Run(i, NO_FORWARD, s.regs, app.labels, s.pc, [])
    case Fail(_) => []
    case Ok(e) => Addresses(e.address, |e.data|)
  }

  /** What the instruction at hand costs after fetches at these program counters. */
  ghost function PriceNow(app: App, s: Cached, pcs: seq<Word>): int {
    if !(0 <= Index(s.pc) < |app.code|) then 0 else
      var i := app.code[Index(s.pc)];
      Price3(i, Held(Starts(pcs), s.pc), AllResident(s.lines, MemoryRead(i, NO_FORWARD, s.regs)),
             AllResident(s.lines, StoredAt(app, s, i)))
  }

  lemma ArrangedResident(lines: seq<Line>, order: seq<Word>, addrs: seq<Word>)
    ensures GetAll(lines, Arrange(order, addrs)).0.Some? <==> AllResident(lines, addrs)
  {
    var walk := Arrange(order, addrs);
    Coherence.GetAllPermutes(lines, walk);
    forall a ensures a in walk <==> a in addrs { assert a in multiset(walk) <==> a in multiset(addrs); }
    if AllResident(lines, addrs) {
      forall k | 0 <= k < |walk| ensures Coherence.Resident(lines, walk[k]) { assert walk[k] in walk; }
    } else {
      var k :| 0 <= k < |addrs| && !Coherence.Resident(lines, addrs[k]);
      assert addrs[k] in addrs;
      var j :| 0 <= j < |walk| && walk[j] == addrs[k];
    }
    hide GetAll, Arrange, Coherence.Resident;
  }

  /** One turn of MVP-3 that goes on, with its cycles. */
  lemma TurnCosts(app: App, order: seq<Word>, s: CacheClock.Timed, pcs: seq<Word>)
    requires LinesAt(s.l1i, Starts(pcs)) && CacheClock.TimedTurn(app, order, s).Goes?
    ensures var t := CacheClock.TimedTurn(app, order, s).next;
            && LinesAt(t.l1i, Starts(pcs + [s.cached.pc]))
            && t.cycle == s.cycle + PriceNow(app, s.cached, pcs)
  {
    hide CacheClock.TimedTurn, MemoryRead, FetchOperands, Run, Starts, Held, LinesAt, Finish, AllResident, Clocks.Price,
         CacheClock.OperandCost, CacheClock.WriteCost, CacheClock.Fetched, Cycles;
    CacheClock.HasOperands(app, order, s);
    var i := app.code[Index(s.cached.pc)];
    var addrs := MemoryRead(i, NO_FORWARD, s.cached.regs);
    var l := FetchOperands(s.cached.lines, s.cached.memory, addrs).value;
    CacheClock.TurnUnfolds(app, order, s, i, l);
    FetchedCosts(s, pcs);
    var e := Run(i, NO_FORWARD, s.cached.regs, app.labels, s.cached.pc, l.bytes).value;
    Clocks.Results(i, s.cached.regs, app.labels, s.cached.pc, l.bytes);
    OperandsCost(s.cached.lines, addrs);
    StoresCost(app, order, s.cached, i, l, e);
    PriceIs(i);
  }

  lemma PriceIs(i: Instr)
    ensures Clocks.Price(i) == 51 + Cycles(i) + (if i.Load? then 50 else 0)
              + if i.Store? then 50 else if i.Branch? || i.Beqz? || i.J? || i.Nop? || i.Ret? then 0 else 1
  {
  }

  lemma FetchedCosts(s: CacheClock.Timed, pcs: seq<Word>)
    requires LinesAt(s.l1i, Starts(pcs))
    ensures var f := CacheClock.Fetched(s);
            && f.cycle == s.cycle + (if Held(Starts(pcs), s.cached.pc) then 1 else 51)
            && LinesAt(f.l1i, Starts(pcs + [s.cached.pc]))
  {
    FetchLeaves(s.l1i, pcs, s.cached.pc, CacheClock.BlankLine(s.cached.pc));
    hide Get, Push, Starts, Held, LinesAt;
  }

  lemma OperandsCost(lines: seq<Line>, addrs: seq<Word>)
    ensures CacheClock.OperandCost(lines, addrs)
         == if addrs == [] then 0 else if AllResident(lines, addrs) then 1 else 52
  {
    Coherence.GetAllPermutes(lines, addrs);
    hide GetAll, Coherence.Resident;
  }

  lemma StoresCost(app: App, order: seq<Word>, s: Cached, i: Instr, l: Loaded, e: Execution)
    requires FetchOperands(s.lines, s.memory, MemoryRead(i, NO_FORWARD, s.regs)) == Some(l)
    requires Run(i, NO_FORWARD, s.regs, app.labels, s.pc, l.bytes) == Ok(e)
    requires (e.data != [] <==> i.Store?) && (i.Store? ==> !e.registerChange)
    ensures CacheClock.WriteCost(l.lines, order, e)
         == if i.Store? then (if AllResident(s.lines, StoredAt(app, s, i)) then 1 else 51)
            else if e.registerChange then 1 else 0
  {
    if i.Store? {
      assert MemoryRead(i, NO_FORWARD, s.regs) == [];
      assert l == Loaded([], s.lines, s.memory);
      ArrangedResident(s.lines, order, Addresses(e.address, |e.data|));
    }
    hide Run, GetAll, Arrange, Coherence.Resident, Addresses, LoadThrough;
  }

  /** The program counters of the first n turns. */
  function PcsOf(app: App, orders: nat -> seq<Word>, start: CacheClock.Timed, n: nat): seq<Word> {
    if n == 0 then [] else
      match CacheClock.TimedAfter(app, orders, start, n - 1)
      case None => []
      case Some(t) => PcsOf(app, orders, start, n - 1) + [t.cached.pc]
  }

  ghost function Prices3(app: App, orders: nat -> seq<Word>, start: CacheClock.Timed, n: nat): int {
    if n == 0 then 0 else
      match CacheClock.TimedAfter(app, orders, start, n - 1)
      case None => 0
      case Some(t) => Prices3(app, orders, start, n - 1) + PriceNow(app, t.cached, PcsOf(app, orders, start, n - 1))
  }

  /** MVP-3's clock is the sum of these prices, over every run from an empty L1I. */
  lemma {:induction false} Mvp3IsPrices(app: App, orders: nat -> seq<Word>, start: CacheClock.Timed, n: nat)
    requires start.l1i == [] && CacheClock.TimedAfter(app, orders, start, n).Some?
    ensures var t := CacheClock.TimedAfter(app, orders, start, n).value;
            && LinesAt(t.l1i, Starts(PcsOf(app, orders, start, n)))
            && t.cycle == start.cycle + Prices3(app, orders, start, n)
  {
    hide CacheClock.TimedTurn, Starts, PriceNow;
    if n > 0 {
      Mvp3IsPrices(app, orders, start, n - 1);
      TurnCosts(app, orders(n - 1), CacheClock.TimedAfter(app, orders, start, n - 1).value,
                PcsOf(app, orders, start, n - 1));
    } else {
      NothingHeld();
    }
  }

  lemma NothingHeld()
    ensures LinesAt([], Starts([]))
  {
  }

  // ---------------------------------------------------------------- MVP-4 and MVP-5

  /** The program counter at which this turn begins a fetch, if it does. */
  function Begun(fu: FetchState): (pcs: seq<Word>)
    ensures |pcs| <= 1
  {
    if fu.complete || fu.processing then [] else [fu.pc]
  }

  function PcsBegun(v: Variant, app: App, orders: nat -> seq<Word>, p: Progress, turns: nat): seq<Word> {
    if turns == 0 then [] else
      var before, q := PcsBegun(v, app, orders, p, turns - 1), AfterTurns(v, app, orders, p, turns - 1);
      if q.stop.Some? || FetchDecode(v, app, q.cpu).None? then before else before + Begun(q.cpu.fu)
  }

  /** A fetch that begins in this turn is over in it if a line holds its program counter, and else takes fifty turns;
      one that is over hands its program counter to a bus with room, and waits for room otherwise. */
  lemma FetchTakes(app: App, fu: FetchState, l1i: seq<Line>, dbus: Bus<Word>, pcs: seq<Word>)
    requires LinesAt(l1i, Starts(pcs)) && !fu.complete
    ensures var (f, lines, bus) := FetchCycle(app, fu, l1i, dbus);
            var left := if fu.processing then fu.remaining else if Held(Starts(pcs), fu.pc) then 1 else 50;
            var room := fu.toClean || dbus.pending.None?;
            && LinesAt(lines, Starts(pcs + Begun(fu)))
            && (left != 1 ==> f.processing && f.remaining == left - 1 && f.pc == fu.pc && !f.complete)
            && (left == 1 && !room ==> f.processing && f.remaining == 1 && f.pc == fu.pc && bus == dbus)
            && (left == 1 && room ==> !f.processing && f.pc == Wrap(fu.pc + 4) && bus.pending == Some(fu.pc))
            && (left != 1 || !room ==> bus == if fu.toClean then Bus(None, None) else dbus)
  {
    if fu.processing {
      assert pcs + [] == pcs;
    } else {
      FetchLeaves(l1i, pcs, fu.pc, Line(fu.pc, Wrap(fu.pc + LINE_LENGTH), FetchLine([], 0)));
    }
    hide Get, Push, Starts, Held, LinesAt, FetchLine;
  }

  lemma FetchIdles(app: App, fu: FetchState, l1i: seq<Line>, dbus: Bus<Word>)
    requires fu.complete
    ensures FetchCycle(app, fu, l1i, dbus).1 == l1i
  {
  }

  lemma TurnFetches(v: Variant, app: App, order: seq<Word>, s: Cpu, pcs: seq<Word>)
    requires LinesAt(s.l1i, Starts(pcs)) && FetchDecode(v, app, s).Some?
    ensures LinesAt(CycleOnce(v, app, order, s).next.l1i, Starts(pcs + Begun(s.fu)))
  {
    hide FetchCycle, ExecuteCycle, LinesAt, Starts, Begun, WriteCycle, Drain;
    if s.fu.complete {
      FetchIdles(app, s.fu, s.l1i, s.dbus);
      assert Begun(s.fu) == [] by { NothingBegun(s.fu); }
      assert pcs + [] == pcs;
    } else {
      FetchTakes(app, s.fu, s.l1i, s.dbus, pcs);
    }
    var t := FetchDecode(v, app, s).value;
    assert t.l1i == FetchCycle(app, s.fu, s.l1i, s.dbus).1;
    hide FetchDecode;
    PipelineProof.ExecuteLeaves(v, app, order, t);
    var (u, x) := ExecuteCycle(v, app, order, t);
    CycleUnfolds(v, app, order, s, t, u, x);
  }

  lemma NothingBegun(fu: FetchState)
    requires fu.complete
    ensures Begun(fu) == []
  {
  }

  /** Over every run from an empty L1I its lines are those of the fetches begun so far. */
  lemma {:induction false} LinesAreOfTheRun(v: Variant, app: App, orders: nat -> seq<Word>, p: Progress, turns: nat)
    requires p.cpu.l1i == []
    ensures LinesAt(AfterTurns(v, app, orders, p, turns).cpu.l1i, Starts(PcsBegun(v, app, orders, p, turns)))
  {
    hide CycleOnce, FetchDecode, LinesAt, Starts, Begun;
    if turns == 0 {
      NothingHeld();
    } else {
      LinesAreOfTheRun(v, app, orders, p, turns - 1);
      var q := AfterTurns(v, app, orders, p, turns - 1);
      if q.stop.None? {
        if FetchDecode(v, app, q.cpu).Some? {
          TurnFetches(v, app, orders(q.executed), q.cpu, PcsBegun(v, app, orders, p, turns - 1));
        } else {
          Panics(v, app, orders(q.executed), q.cpu);
        }
      }
    }
  }

  lemma Panics(v: Variant, app: App, order: seq<Word>, s: Cpu)
    requires FetchDecode(v, app, s).None?
    ensures CycleOnce(v, app, order, s).next == s
  {
    hide FetchDecode;
  }
}
