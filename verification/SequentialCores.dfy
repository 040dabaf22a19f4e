/** MVP-1, MVP-2 and MVP-3 as objects (proc/mvp1/cpu.go, proc/mvp2/cpu.go, proc/mvp3/cpu.go). */
module SequentialCores {
  import opened Words
  import opened Isa
  import opened Cache
  import opened Mmu
  import opened Sequential
  import opened Machine
  import opened Lockstep
  import CacheClock

  // ---------------------------------------------------------------- MVP-1 and MVP-2

  class SimpleCore {
    const model: Model
    const ctx: Context
    var cycle: nat
    var li1From: Word
    var li1To: Word

    function View(pc: Word): Clocked
      reads this, ctx, ctx.memory
    {
      Clocked(Flat(ctx.registers, pc, ctx.memory[..]), cycle, li1From, li1To)
    }

    constructor (model: Model, memoryBytes: nat)
      ensures fresh(ctx) && fresh(ctx.memory) && this.model == model
      ensures View(0) == Clocked(Flat(map[], 0, seq(memoryBytes, _ => 0)), 0, -1, -1)
    {
      this.model := model;
      ctx := new Context(memoryBytes);
      cycle := 0;
      li1From := -1;
      li1To := -1;
    }

    method FetchInstruction(pc: Word)
      modifies this
      ensures View(pc) == Fetched(model, old(View(pc)))
    {
      if model == Mvp1 {
        cycle := cycle + 50;
      } else if li1From <= pc <= li1To {
        cycle := cycle + 1;
      } else {
        cycle := cycle + 51;
        li1From := pc;
        li1To := Wrap(pc + L1I_SIZE);
      }
    }

    /** Reads memory and runs the instruction. After a failure the clock does not matter. */
    method Execute(app: App, i: Instr, pc: Word) returns (r: Result<Doing>)
      requires 0 <= Index(pc) < |app.code| && i == app.code[Index(pc)]
      modifies this`cycle, ctx`registers
      ensures r == Current(app, old(View(pc)).flat)
      ensures r.Ok? ==>
                cycle + 1 == old(cycle) + ExecuteCost(model, r.value)
                && ctx.registers == DirectWrite(i, old(ctx.registers), pc)
    {
      hide Compute, MemoryRead, Index;
      var addrs := MemoryRead(i, NO_FORWARD, ctx.registers);
      var memory := [];
      if addrs != [] {
        var k := 0;
        while k < |addrs|
          invariant k <= |addrs| && |memory| == k
          invariant forall j :: 0 <= j < k ==> 0 <= addrs[j] < ctx.memory.Length && memory[j] == ctx.memory[addrs[j]]
        {
          if !(0 <= addrs[k] < ctx.memory.Length) {
            return Fail(BadAddress);
          }
          memory := memory + [ctx.memory[addrs[k]]];
          k := k + 1;
        }
        cycle := cycle + AccessCost(model);
      }
      assert memory == BytesAt(ctx.memory[..], addrs);
      var out := Isa.Run(i, NO_FORWARD, ctx.registers, app.labels, pc, memory);
      if out.Fail? {
        return Fail(out.fault);
      }
      ctx.registers := DirectWrite(i, ctx.registers, pc);
      cycle := cycle + Cycles(i);
      r := Ok(Doing(i, addrs != [], out.value));
    }

    /** One turn of the loop of Run, inside the program. */
    method Turn(app: App, pc: Word) returns (next: Word, stop: Option<Stop>)
      requires Index(pc) < |app.code|
      modifies this, ctx`registers, ctx.memory
      ensures match TurnOf(model, app, old(View(pc)))
              case Goes(t) => stop.None? && View(next) == t
              case Ends(t) => stop == Some(Return) && View(pc) == t
              case Fails(fault) => stop == Some(Error(fault))
    {
      hide Isa.Run, MemoryRead, Index, BytesAt;
      next, stop := pc, None;
      ghost var s := View(pc);
      FetchInstruction(pc);
      if Index(pc) < 0 {
        stop := Some(Error(GoPanic));
        return;
      }
      var i := app.code[Index(pc)];
      cycle := cycle + 1;
      var r := Execute(app, i, pc);
      if r.Fail? {
        stop := Some(Error(r.fault));
        return;
      }
      var e := r.value.exe;
      StepOfCurrent(app, s.flat);
      if e.isReturn {
        OnlyRetReturns(app, s.flat);
        stop := Some(Return);
        return;
      }
      next := if e.pcChange then e.nextPc else Wrap(pc + 4);
      if e.registerChange {
        ctx.WriteRegister(e);
        cycle := cycle + 1;
      } else if e.data != [] {
        var ok := ctx.WriteMemory(e);
        if !ok {
          stop := Some(Error(BadAddress));
          return;
        }
        cycle := cycle + AccessCost(model);
      }
    }

    /** The whole run, given that it is over within so many turns. A return and the end of the program both return the
        clock. */
    method Run(app: App, ghost turns: nat) returns (stop: Stop)
      requires !StateAfter(model, app, View(0), turns).Running?
      modifies this, ctx`registers, ctx.memory
      ensures match StateAfter(model, app, old(View(0)), turns)
              case Running(_) => false
              case Ended(s) => !stop.Error? && cycle == s.cycle && ctx.registers == s.flat.regs
              && ctx.memory[..] == s.flat.memory
              case Failed(fault) => stop == Error(fault)
    {
      hide TurnOf;
      ghost var start := View(0);
      var pc: Word := 0;
      ghost var k := 0;
      while true
        invariant k <= turns && StateAfter(model, app, start, k) == Running(View(pc))
        decreases turns - k
      {
        ghost var turn := TurnOf(model, app, View(pc));
        TurnAtEnd(model, app, View(pc));
        assert StateAfter(model, app, start, k + 1)
            == match turn case Goes(t) => Running(t) case Ends(t) => Ended(t) case Fails(f) => Failed(f);
        if !turn.Goes? { OverIsOver(model, app, start, k + 1, turns); }
        if Index(pc) < |app.code| {
          var next, over := Turn(app, pc);
          if over.Some? {
            return over.value;
          }
          pc := next;
        } else if Read(ctx.registers, RA) != 0 {
          ctx.registers := ctx.registers[RA := 0];
          pc := 0;
        } else {
          return End;
        }
        k := k + 1;
      }
    }
  }

  // ---------------------------------------------------------------- MVP-3

  class CachedCore {
    const ctx: Context
    const mmu: MemoryManagementUnit
    var cycle: nat

    predicate Valid()
      reads this, mmu, mmu.l1i, mmu.l1d
    {
      mmu.Valid() && mmu.ctx == ctx && mmu.accessCost == CacheClock.ACCESS
    }

    function View(pc: Word): Cached
      reads this, ctx, ctx.memory, mmu, mmu.l1d
    {
      Cached(ctx.registers, pc, mmu.l1d.lines, ctx.memory[..])
    }

    /** With the L1I and the clock. */
    function Timed(pc: Word): CacheClock.Timed
      reads this, ctx, ctx.memory, mmu, mmu.l1d, mmu.l1i
    {
      CacheClock.Timed(View(pc), mmu.l1i.lines, cycle)
    }

    constructor (memoryBytes: nat)
      ensures Valid() && fresh(ctx) && fresh(ctx.memory) && fresh(mmu) && fresh(mmu.l1i) && fresh(mmu.l1d)
      ensures Timed(0) == CacheClock.Timed(Cached(map[], 0, [], seq(memoryBytes, _ => 0)), [], 0)
    {
      var context := new Context(memoryBytes);
      ctx := context;
      mmu := new MemoryManagementUnit(context, CacheClock.ACCESS);
      cycle := 0;
    }

    method FetchInstruction(pc: Word)
      requires Valid()
      modifies this, mmu.l1i
      ensures Valid() && Timed(pc) == CacheClock.Fetched(old(Timed(pc)))
    {
      var hit := mmu.GetFromL1I(pc);
      if hit {
        cycle := cycle + 1;
      } else {
        cycle := cycle + mmu.accessCost;
        mmu.PushLineToL1I(pc, seq(LINE_LENGTH, _ => 0));
      }
    }

    /** The bytes a load needs. None where the source panics. */
    method ReadOperands(i: Instr) returns (bytes: Option<seq<Byte>>)
      requires Valid()
      modifies this, mmu.l1d, ctx.memory
      ensures Valid()
      ensures var addrs := MemoryRead(i, NO_FORWARD, ctx.registers);
              var l := FetchOperands(old(mmu.l1d.lines), old(ctx.memory[..]), addrs);
              && bytes.Some? == l.Some?
              && (l.Some? ==> l.value == Loaded(bytes.value, mmu.l1d.lines, ctx.memory[..]))
              && cycle == old(cycle) + CacheClock.OperandCost(old(mmu.l1d.lines), addrs)
    {
      hide GetAll, LoadMiss, MemoryRead;
      var addrs := MemoryRead(i, NO_FORWARD, ctx.registers);
      if addrs == [] {
        return Some([]);
      }
      cycle := cycle + 1;
      bytes := mmu.GetFromL1D(addrs);
      if bytes.None? {
        cycle := cycle + mmu.accessCost;
        bytes := mmu.FetchAndRead(addrs);
      }
    }

    /** To the L1D when all the addresses are there, and else to memory. */
    method WriteData(order: seq<Word>, e: Execution) returns (ok: bool)
      requires Valid() && !e.registerChange && e.data != []
      modifies this, mmu.l1d, ctx.memory
      ensures Valid()
      ensures var st := StoreThrough(old(mmu.l1d.lines), old(ctx.memory[..]), order, e);
              ok == st.Some? && (ok ==> mmu.l1d.lines == st.value.lines && ctx.memory[..] == st.value.memory)
      ensures cycle == old(cycle) + CacheClock.WriteCost(old(mmu.l1d.lines), order, e)
    {
      hide LookUp, WriteTo, WriteMemory;
      var hit := mmu.DoesExecutionMemoryChangesExistsInL1D(order, e);
      if hit {
        ok := mmu.WriteExecutionMemoryChangesToL1D(e);
        cycle := cycle + 1;
      } else {
        ok := ctx.WriteMemory(e);
        cycle := cycle + mmu.accessCost;
      }
    }

    /** One turn of the loop of Run, inside the program. */
    method Turn(app: App, order: seq<Word>, pc: Word) returns (next: Word, stop: Option<Stop>)
      requires Valid() && Index(pc) < |app.code|
      modifies this, ctx`registers, ctx.memory, mmu.l1i, mmu.l1d
      ensures Valid()
      ensures match CacheClock.TimedTurn(app, order, old(Timed(pc)))
              case Goes(t) => stop.None? && Timed(next) == t
              case Stops(t, s) => stop == Some(s) && s != End && (!s.Error? ==> Timed(pc) == t)
    {
      hide Compute, MemoryRead, LoadThrough, StoreThrough, Index, CacheClock.OperandCost, CacheClock.WriteCost, Cycles;
      next, stop := pc, None;
      ghost var start := Timed(pc);
      FetchInstruction(pc);
      if Index(pc) < 0 {
        stop := Some(Error(GoPanic));
        return;
      }
      var i := app.code[Index(pc)];
      cycle := cycle + 1;
      ghost var s := View(pc);
      var bytes := ReadOperands(i);
      if bytes.None? {
        stop := Some(Error(BadAddress));
        return;
      }
      ghost var l := Loaded(bytes.value, mmu.l1d.lines, ctx.memory[..]);
      ghost var before := cycle;
      next, stop := Finish(app, order, pc, i, bytes.value, s);
      RetReadsNothing(app, s.regs, pc, i, bytes.value);
      CacheClock.TurnUnfolds(app, order, start, i, l);
    }

    /** The whole run, given that the core's step function stops after n instructions: it ends for that reason, in that
        state, with every line written back, and with the clock of the timed run and 51 cycles for each line. After an
        error none of this matters. */
    method Run(app: App, orders: nat -> seq<Word>, ghost n: nat) returns (stop: Stop)
      requires Valid()
      requires var ref := CacheClock.TimedAfter(app, orders, Timed(0), n);
               ref.Some? && CacheClock.TimedTurn(app, orders(n), ref.value).Stops?
      modifies this, ctx`registers, ctx.memory, mmu.l1i, mmu.l1d
      ensures Valid()
      ensures var end := CacheClock.TimedTurn(app, orders(n),
                                              CacheClock.TimedAfter(app, orders, old(Timed(0)), n).value);
              var last := end.last.cached;
              && stop == end.stop
              && (!stop.Error? ==>
                    && ctx.registers == last.regs && mmu.l1d.lines == last.lines
                    && ctx.memory[..] == Flushed(last.lines, last.memory)
                    && cycle == end.last.cycle + 51 * |last.lines|)
    {
      hide CacheClock.TimedTurn;
      ghost var start := Timed(0);
      var pc: Word, k := 0, 0;
      while true
        invariant Valid() && k <= n && CacheClock.TimedAfter(app, orders, start, k) == Some(Timed(pc))
        decreases n - k
      {
        ghost var step := CacheClock.TimedTurn(app, orders(k), Timed(pc));
        CacheClock.StopsOnlyOnce(app, orders, start, k, n);
        CacheClock.TurnAtEnd(app, orders(k), Timed(pc));
        if Index(pc) >= |app.code| {
          stop := End;
          break;
        }
        var next, over := Turn(app, orders(k), pc);
        if over.Some? {
          stop := over.value;
          break;
        }
        pc := next;
        k := k + 1;
      }
      if !stop.Error? {
        var flushing := mmu.Flush();
        cycle := cycle + flushing;
      }
    }

    method Finish(app: App, order: seq<Word>, pc: Word, i: Instr, bytes: seq<Byte>, ghost s: Cached)
      returns (next: Word, stop: Option<Stop>)
      requires Valid() && s.pc == pc && s.regs == ctx.registers
      modifies this, ctx`registers, ctx.memory, mmu.l1d
      ensures Valid()
      ensures match Sequential.Finish(Plain, app, order, s, i, Loaded(bytes, old(mmu.l1d.lines), old(ctx.memory[..])))
              case CachedNext(t) =>
                && stop.None? && View(next) == t
                && Isa.Run(i, NO_FORWARD, s.regs, app.labels, pc, bytes).Ok?
                && cycle == old(cycle) + Cycles(i)
                   + CacheClock.WriteCost(old(mmu.l1d.lines), order,
                                          Isa.Run(i, NO_FORWARD, s.regs, app.labels, pc, bytes).value)
              case CachedStop(st) => stop == Some(st)
      ensures stop != Some(End)
      ensures stop == Some(Return) ==>
        && Isa.Run(i, NO_FORWARD, s.regs, app.labels, pc, bytes).Ok?
        && Isa.Run(i, NO_FORWARD, s.regs, app.labels, pc, bytes).value.isReturn
        && ctx.registers == DirectWrite(i, s.regs, pc) && mmu.l1d.lines == old(mmu.l1d.lines)
        && ctx.memory[..] == old(ctx.memory[..])
        && cycle == old(cycle) + Cycles(i)
    {
      hide Isa.Run, StoreThrough, LookUp;
      next, stop := pc, None;
      var out := Isa.Run(i, NO_FORWARD, ctx.registers, app.labels, pc, bytes);
      if out.Fail? {
        stop := Some(Error(out.fault));
        return;
      }
      var e := out.value;
      ctx.registers := DirectWrite(i, ctx.registers, pc);
      cycle := cycle + Cycles(i);
      if e.isReturn {
        stop := Some(Return);
        return;
      }
      next := if e.pcChange then e.nextPc else Wrap(pc + 4);
      if e.registerChange {
        ctx.WriteRegister(e);
        cycle := cycle + 1;
      } else if e.data != [] {
        var ok := WriteData(order, e);
        if !ok {
          stop := Some(Error(BadAddress));
        }
      }
    }
  }

  lemma RetReadsNothing(app: App, regs: Regs, pc: Word, i: Instr, bytes: seq<Byte>)
    ensures var out := Isa.Run(i, NO_FORWARD, regs, app.labels, pc, bytes);
            out.Ok? && out.value.isReturn ==> MemoryRead(i, NO_FORWARD, regs) == [] && DirectWrite(i, regs, pc) == regs
  {
  }

  lemma TurnAtEnd(model: Model, app: App, s: Clocked)
    ensures Index(s.flat.pc) >= |app.code| ==>
      TurnOf(model, app, s)
      == if Read(s.flat.regs, RA) != 0 then Goes(s.(flat := Flat(s.flat.regs[RA := 0], 0, s.flat.memory))) else Ends(s)
  {
  }

  lemma OnlyRetReturns(app: App, f: Flat)
    requires 0 <= Index(f.pc) < |app.code| && Current(app, f).Ok? && Current(app, f).value.exe.isReturn
    ensures DirectWrite(app.code[Index(f.pc)], f.regs, f.pc) == f.regs
  {
    hide MemoryRead, BytesAt;
  }

  /** A step of the flat core in terms of its execution. */
  lemma StepOfCurrent(app: App, f: Flat)
    requires 0 <= Index(f.pc) < |app.code| && Current(app, f).Ok?
    ensures var e := Current(app, f).value.exe;
            var regs := Written(Plain, DirectWrite(app.code[Index(f.pc)], f.regs, f.pc), app.code[Index(f.pc)], e);
            Step(Plain, app, f)
            == if e.isReturn then FlatStop(Return)
               else if e.registerChange || e.data == [] then FlatNext(Flat(regs, NextPc(f.pc, e), f.memory))
               else match WriteMemory(f.memory, e.address, e.data)
                    case None => FlatStop(Error(BadAddress))
                    case Some(m) => FlatNext(Flat(regs, NextPc(f.pc, e), m))
  {
    hide Isa.Run, MemoryRead, WriteMemory, Index, BytesAt;
  }
}
