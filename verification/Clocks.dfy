/** The clocks of MVP-1 and MVP-2 in themselves: the price of every instruction, and what a fetch hits
    (proc/mvp1/cpu.go, proc/mvp2/cpu.go). */
module Clocks {
  import opened Words
  import opened Isa
  import opened Mmu
  import opened Sequential
  import opened Lockstep

  // ---------------------------------------------------------------- what is executed

  /** The instruction and the program counter of each turn that executes one, in order. */
  datatype Executed = Executed(instr: Instr, pc: Word)

  /** The instruction that this turn executes, if it does. */
  function Now(app: App, s: Clocked): (now: seq<Executed>)
    ensures |now| <= 1
  {
    if 0 <= Index(s.flat.pc) < |app.code| && Current(app, s.flat).Ok?
    then [Executed(app.code[Index(s.flat.pc)], s.flat.pc)] else []
  }

  function Trace(model: Model, app: App, start: Clocked, turns: nat): seq<Executed> {
    if turns == 0 then [] else
      var before := Trace(model, app, start, turns - 1);
      match StateAfter(model, app, start, turns - 1)
      case Running(s) => before + Now(app, s)
      case _ => before
  }

  /** What an instruction costs on MVP-1: 50 to fetch it, one to decode it, one to execute it, one for a register it
      writes, 50 to write memory; and a load takes 50 to read and 50 to execute. */
  function Price(i: Instr): nat {
    match i
    case Load(_, _, _, _) => 152
    case Store(_, _, _, _) => 102
    case Branch(_, _, _, _) => 52
    case Beqz(_, _) => 52
    case J(_) => 52
    case Nop => 52
    case Ret => 52
    case _ => 53
  }

  function Prices(trace: seq<Executed>): nat {
    if trace == [] then 0 else Prices(trace[..|trace| - 1]) + Price(trace[|trace| - 1].instr)
  }

  lemma PricesGrow(trace: seq<Executed>, now: seq<Executed>)
    requires |now| <= 1
    ensures Prices(trace + now) == Prices(trace) + if now == [] then 0 else Price(now[0].instr)
  {
    if now == [] { assert trace + now == trace; } else { assert (trace + now)[..|trace|] == trace; }
  }

  /** The kind of an instruction decides its results. */
  lemma Results(i: Instr, regs: Regs, labels: map<string, Word>, pc: Word, bytes: seq<Byte>)
    ensures var out := Run(i, NO_FORWARD, regs, labels, pc, bytes);
            out.Ok? ==>
              && (out.value.data != [] <==> i.Store?) && (out.value.isReturn <==> i.Ret?)
              && (out.value.registerChange
                  <==> !(i.Store? || i.Branch? || i.Beqz? || i.J? || i.Nop? || i.Ret?))
    ensures MemoryRead(i, NO_FORWARD, regs) != [] <==> i.Load?
  {
    hide Alu, LoadedWord, StoredBytes, RegisterRead, Wrap;
    if i.Load? { assert |MemoryRead(i, NO_FORWARD, regs)| == Bytes(i.width); }
  }

  lemma TurnCosts(app: App, s: Clocked)
    ensures match TurnOf(Mvp1, app, s)
            case Goes(t) => t.cycle == s.cycle + Spent(app, s)
            case Ends(t) => t.cycle == s.cycle + Spent(app, s)
            case Fails(_) => true
  {
    hide Run, MemoryRead, WriteMemory, BytesAt;
    if 0 <= Index(s.flat.pc) < |app.code| && Current(app, s.flat).Ok? {
      var i := app.code[Index(s.flat.pc)];
      var addrs := MemoryRead(i, NO_FORWARD, s.flat.regs);
      Results(i, s.flat.regs, app.labels, s.flat.pc, BytesAt(s.flat.memory, addrs));
      StepFollowsCurrent(app, s.flat);
      hide Step;
    }
  }

  function Spent(app: App, s: Clocked): nat {
    if Now(app, s) == [] then 0 else Price(Now(app, s)[0].instr)
  }

  /** MVP-1's clock is the sum of the prices of what it executes, over every run, restarts through ra included. */
  lemma {:induction false} ClockIsPrices(app: App, start: Clocked, turns: nat)
    ensures match StateAfter(Mvp1, app, start, turns)
            case Running(s) => s.cycle == start.cycle + Prices(Trace(Mvp1, app, start, turns))
            case Ended(s) => s.cycle == start.cycle + Prices(Trace(Mvp1, app, start, turns))
            case Failed(_) => true
  {
    hide TurnOf, Price, Current, Index;
    if turns > 0 {
      ClockIsPrices(app, start, turns - 1);
      var before := StateAfter(Mvp1, app, start, turns - 1);
      if before.Running? {
        var s := before.s;
        TurnCosts(app, s);
        PricesGrow(Trace(Mvp1, app, start, turns - 1), Now(app, s));
        hide Prices;
      }
    }
  }

  // ---------------------------------------------------------------- restarting

  /** A program that runs off its end with something in ra begins again with the same memory, and with the same
      registers but for ra, which is then 0. */
  lemma {:induction false} RunsAgain(model: Model, app: App, start: Clocked, n: nat, again: nat)
    requires FlatAfter(Plain, app, start.flat, n).Some?
    requires var f := FlatAfter(Plain, app, start.flat, n).value;
             && Index(f.pc) >= |app.code| && Read(f.regs, RA) != 0
             && FlatAfter(Plain, app, Flat(f.regs[RA := 0], 0, f.memory), again).Some?
    ensures var f := FlatAfter(Plain, app, start.flat, n).value;
            var s := StateAfter(model, app, start, n + 1 + again);
            s.Running? && s.s.flat == FlatAfter(Plain, app, Flat(f.regs[RA := 0], 0, f.memory), again).value
  {
    hide Step, TurnOf;
    var f := FlatAfter(Plain, app, start.flat, n).value;
    if again > 0 {
      RunsAgain(model, app, start, n, again - 1);
      NextTurn(model, app, StateAfter(model, app, start, n + again).s);
    } else {
      RunsFlat(model, app, start, n);
      EndTurn(model, app, StateAfter(model, app, start, n).s);
    }
  }

  lemma {:induction false} RunsFlat(model: Model, app: App, start: Clocked, n: nat)
    requires FlatAfter(Plain, app, start.flat, n).Some?
    ensures var s := StateAfter(model, app, start, n);
            s.Running? && s.s.flat == FlatAfter(Plain, app, start.flat, n).value
  {
    hide Step, TurnOf;
    if n > 0 {
      RunsFlat(model, app, start, n - 1);
      NextTurn(model, app, StateAfter(model, app, start, n - 1).s);
    }
  }

  lemma NextTurn(model: Model, app: App, s: Clocked)
    requires Step(Plain, app, s.flat).FlatNext?
    ensures TurnOf(model, app, s).Goes? && TurnOf(model, app, s).next.flat == Step(Plain, app, s.flat).next
  {
    hide Run, MemoryRead, WriteMemory;
  }

  lemma EndTurn(model: Model, app: App, s: Clocked)
    requires Index(s.flat.pc) >= |app.code| && Read(s.flat.regs, RA) != 0
    ensures TurnOf(model, app, s).Goes?
            && TurnOf(model, app, s).next.flat == Flat(s.flat.regs[RA := 0], 0, s.flat.memory)
  {
    hide Current, Step;
  }

  // ---------------------------------------------------------------- what a fetch of MVP-2 hits

  /** The program counter lies within 64 bytes behind the miss, both ends included. */
  predicate Near(miss: Word, pc: Word) { miss <= pc <= miss + 64 < 0x8000_0000 }

  /** The last of these fetches that was not near the miss before it. */
  function LastMiss(trace: seq<Executed>): Option<Word> {
    if trace == [] then None else
      var before, pc := LastMiss(trace[..|trace| - 1]), trace[|trace| - 1].pc;
      if before.Some? && Near(before.value, pc) then before else Some(pc)
  }

  predicate IsNear(trace: seq<Executed>, pc: Word) { LastMiss(trace).Some? && Near(LastMiss(trace).value, pc) }

  /** On MVP-2 a fetch costs 1 near the last miss and 51 elsewhere, and each access to memory 51. */
  function Price2(i: Instr, near: bool): nat {
    Price(i) - 50 + (if near then 1 else 51) + (if i.Load? || i.Store? then 1 else 0)
  }

  function Prices2(trace: seq<Executed>): nat {
    if trace == [] then 0 else
      var before, x := trace[..|trace| - 1], trace[|trace| - 1];
      Prices2(before) + Price2(x.instr, IsNear(before, x.pc))
  }

  lemma Prices2Grow(trace: seq<Executed>, x: Executed)
    ensures Prices2(trace + [x]) == Prices2(trace) + Price2(x.instr, IsNear(trace, x.pc))
    ensures LastMiss(trace + [x]) == if IsNear(trace, x.pc) then LastMiss(trace) else Some(x.pc)
  {
    assert (trace + [x])[..|trace|] == trace;
  }

  /** The window of MVP-2's L1I is the one the last miss opened. */
  predicate Opened(s: Clocked, trace: seq<Executed>) {
    match LastMiss(trace)
    case None => s.from == s.to == -1 && trace == [] && s.flat.pc == 0
    case Some(miss) => s.from == miss && s.to == Wrap(miss + 64)
  }

  lemma HitsAreNear(s: Clocked, trace: seq<Executed>)
    requires Opened(s, trace)
    ensures Hits(s) <==> IsNear(trace, s.flat.pc)
  {
    hide LastMiss;
  }

  lemma TurnFetches(app: App, s: Clocked)
    ensures match TurnOf(Mvp2, app, s)
            case Fails(_) => true
            case Ends(t) => t.cycle == s.cycle + Spent2(app, s)
            case Goes(t) =>
              && t.cycle == s.cycle + Spent2(app, s)
              && if Now(app, s) == [] then t.from == s.from && t.to == s.to && t.flat.pc == 0
                 else t.from == Fetched(Mvp2, s).from && t.to == Fetched(Mvp2, s).to
  {
    hide Run, MemoryRead, WriteMemory, BytesAt;
    if 0 <= Index(s.flat.pc) < |app.code| && Current(app, s.flat).Ok? {
      var i := app.code[Index(s.flat.pc)];
      var addrs := MemoryRead(i, NO_FORWARD, s.flat.regs);
      Results(i, s.flat.regs, app.labels, s.flat.pc, BytesAt(s.flat.memory, addrs));
      StepFollowsCurrent(app, s.flat);
      assert Price(i) == 52 + (if i.Load? then 100 else if i.Store? then 50 else
                                 if i.Branch? || i.Beqz? || i.J? || i.Nop? || i.Ret? then 0 else 1);
      hide Step;
    }
  }

  function Spent2(app: App, s: Clocked): nat {
    if Now(app, s) == [] then 0 else Price2(Now(app, s)[0].instr, Hits(s))
  }

  lemma StaysOpened(app: App, s: Clocked, t: Clocked, trace: seq<Executed>)
    requires Opened(s, trace)
    requires if Now(app, s) == [] then t.from == s.from && t.to == s.to && t.flat.pc == 0
             else t.from == Fetched(Mvp2, s).from && t.to == Fetched(Mvp2, s).to
    ensures Opened(t, trace + Now(app, s))
    ensures Prices2(trace + Now(app, s)) == Prices2(trace) + Spent2(app, s)
  {
    hide LastMiss, Prices2, Current, Index;
    HitsAreNear(s, trace);
    if Now(app, s) == [] { assert trace + [] == trace; } else { Prices2Grow(trace, Now(app, s)[0]); }
  }

  /** A fetch of MVP-2 hits if and only if it is near the last miss of the run, over every run of the core as built,
      and the clock is the sum of what the instructions so cost. */
  lemma {:induction false} Mvp2HitsNearLastMiss(app: App, start: Clocked, turns: nat)
    requires start.from == start.to == -1 && start.flat.pc == 0
    ensures var trace := Trace(Mvp2, app, start, turns);
            match StateAfter(Mvp2, app, start, turns)
            case Running(s) =>
              && s.cycle == start.cycle + Prices2(trace)
              && Opened(s, trace) && (Hits(s) <==> IsNear(trace, s.flat.pc))
              && Fetched(Mvp2, s).cycle == s.cycle + if IsNear(trace, s.flat.pc) then 1 else 51
            case Ended(s) => s.cycle == start.cycle + Prices2(trace)
            case Failed(_) => true
  {
    hide TurnOf, Current, Index, LastMiss, Prices2, Now, Spent2;
    if turns > 0 {
      Mvp2HitsNearLastMiss(app, start, turns - 1);
      var before := StateAfter(Mvp2, app, start, turns - 1);
      var trace := Trace(Mvp2, app, start, turns - 1);
      if before.Running? {
        TurnFetches(app, before.s);
        var turn := TurnOf(Mvp2, app, before.s);
        if !turn.Fails? {
          if turn.Goes? {
            StaysOpened(app, before.s, turn.next, trace);
            HitsAreNear(turn.next, trace + Now(app, before.s));
          } else {
            StaysPriced(app, before.s, trace);
          }
        }
      }
    } else {
      StartIsOpened(start);
    }
    hide Opened;
  }

  lemma StaysPriced(app: App, s: Clocked, trace: seq<Executed>)
    requires Opened(s, trace)
    ensures Prices2(trace + Now(app, s)) == Prices2(trace) + Spent2(app, s)
  {
    var t := if Now(app, s) == [] then s.(flat := s.flat.(pc := 0)) else Fetched(Mvp2, s);
    StaysOpened(app, s, t, trace);
  }

  lemma StartIsOpened(start: Clocked)
    requires start.from == start.to == -1 && start.flat.pc == 0
    ensures Opened(start, []) && Prices2([]) == 0 && (Hits(start) <==> IsNear([], start.flat.pc))
  {
  }
}
