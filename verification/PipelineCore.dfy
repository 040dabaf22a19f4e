/** The execute unit and the whole core of MVP-4 and MVP-5 as objects (proc/mvp4/eu.go, proc/mvp5/eu.go, and their
    cpu.go). */
module PipelineCore {
  import opened Words
  import opened Isa
  import opened Cache
  import opened Mmu
  import opened Sequential
  import opened Pipeline
  import opened Machine
  import opened PipelineUnits
  import opened PipelineInvariant
  import opened PipelineGuard
  import opened PipelineProof
  import opened PipelineRun

  class ExecuteUnit {
    const v: Variant
    const bu: BranchUnit
    const mmu: MemoryManagementUnit
    var processing: bool
    var remainingCycles: int
    var pendingMemoryRead: bool
    var addrs: seq<Word>
    var memory: Option<seq<Byte>>
    var runner: Option<RunnerPc>

    function View(): ExecuteState
      reads this
    {
      ExecuteState(processing, remainingCycles, pendingMemoryRead, addrs, memory, runner)
    }

    constructor (v: Variant, bu: BranchUnit, mmu: MemoryManagementUnit)
      ensures View() == ExecuteState(false, 0, false, [], None, None) && this.v == v && this.bu == bu && this.mmu == mmu
    {
      this.v := v;
      this.bu := bu;
      this.mmu := mmu;
      processing, remainingCycles, pendingMemoryRead, addrs, memory, runner := false, 0, false, [], None, None;
    }

    predicate Apart(ctx: Context, inBus: SimpleBus<RunnerPc>, outBus: SimpleBus<WriteEntry>)
      reads this, mmu, mmu.l1i, mmu.l1d
    {
      var a: object := inBus;
      && mmu.Valid() && bu.v == v && mmu.ctx == ctx && a != outBus
    }

    /** The parts of a core that this unit works on, as the function that specifies it sees them. */
    predicate Shows(s: Cpu, ctx: Context, inBus: SimpleBus<RunnerPc>, outBus: SimpleBus<WriteEntry>)
      reads this, ctx, ctx.memory, inBus, outBus, bu, bu.btb, bu.fu, bu.du, mmu, mmu.l1d
    {
      && s.eu == View() && s.xbus == inBus.View() && s.wbus == outBus.View()
      && s.bu == bu.View() && s.fu == bu.fu.View() && s.blocked == bu.du.pendingBranchResolution
      && s.regs == ctx.registers && s.pending == ctx.pendingWrites && s.memory == ctx.memory[..]
      && s.l1d == mmu.l1d.lines
    }

    // In what follows `s` is the core before a method, as its specification sees it. Where the source stops
    // with an error the core no longer matters.

    ghost predicate Matches(t: (Cpu, Executed), x: Executed, ctx: Context, inBus: SimpleBus<RunnerPc>,
                            outBus: SimpleBus<WriteEntry>)
      reads this, ctx, ctx.memory, inBus, outBus, bu, bu.btb, bu.fu, bu.du, mmu, mmu.l1d
    {
      x == t.1 && (!(x.Stopped? && x.stop.Error?) ==> Shows(t.0, ctx, inBus, outBus))
    }

    method Enqueue(ctx: Context, r: RunnerPc, e: Execution, ghost s: Cpu, ghost inBus: SimpleBus<RunnerPc>,
                   outBus: SimpleBus<WriteEntry>)
      requires Apart(ctx, inBus, outBus) && Shows(s, ctx, inBus, outBus)
      modifies ctx`pendingWrites, outBus
      ensures Apart(ctx, inBus, outBus)
      ensures Shows(s.(wbus := s.wbus.(pending := Some(Entry(r.instr, e))),
                       pending := AddAll(s.pending, WriteRegisters(r.instr))),
                    ctx, inBus, outBus)
    {
      outBus.Add(Entry(r.instr, e));
      ctx.AddPendingWriteRegisters(WriteRegisters(r.instr));
    }

    method Notify(ctx: Context, r: RunnerPc, e: Execution, ghost s: Cpu, ghost inBus: SimpleBus<RunnerPc>,
                  ghost outBus: SimpleBus<WriteEntry>)
      requires Apart(ctx, inBus, outBus) && Shows(s, ctx, inBus, outBus)
      modifies bu, bu.btb, bu.fu, bu.du
      ensures Apart(ctx, inBus, outBus)
      ensures Shows(if v == Mvp5 && IsUnconditionalBranch(r.instr) then
                      Resolve(s, r.pc, e.nextPc) else s, ctx, inBus, outBus)
    {
      if v == Mvp5 && IsUnconditionalBranch(r.instr) {
        bu.NotifyJumpAddressResolved(r.pc, e.nextPc);
      }
    }

    /** Queues a result and resolves a branch. */
    method Deliver(ctx: Context, r: RunnerPc, e: Execution, ghost s: Cpu, ghost inBus: SimpleBus<RunnerPc>,
                   outBus: SimpleBus<WriteEntry>)
      returns (x: Executed)
      requires Apart(ctx, inBus, outBus) && Shows(s, ctx, inBus, outBus)
      modifies ctx`pendingWrites, outBus, bu, bu.btb, bu.fu, bu.du
      ensures Apart(ctx, inBus, outBus) && Matches(Send(v, s, r, e), x, ctx, inBus, outBus)
    {
      hide AddAll, Remember, Entry;
      ghost var s1 := s.(wbus := s.wbus.(pending := Some(Entry(r.instr, e))),
                         pending := AddAll(s.pending, WriteRegisters(r.instr)));
      Enqueue(ctx, r, e, s, inBus, outBus);
      Notify(ctx, r, e, s1, inBus, outBus);
      if e.pcChange {
        var flush := bu.ShouldFlushPipeline(e.nextPc);
        return if flush then RanAndFlush(e.nextPc) else Ran;
      }
      return Ran;
    }

    /** A store whose addresses are all in the L1D is done there. */
    method Complete(ctx: Context, order: seq<Word>, r: RunnerPc, e: Execution, ghost s: Cpu,
                    ghost inBus: SimpleBus<RunnerPc>, outBus: SimpleBus<WriteEntry>) returns (x: Executed)
      requires Apart(ctx, inBus, outBus) && Shows(s, ctx, inBus, outBus)
      modifies ctx`pendingWrites, outBus, bu, bu.btb, bu.fu, bu.du, mmu.l1d
      ensures Apart(ctx, inBus, outBus) && Matches(Pipeline.Deliver(v, order, s, r, e), x, ctx, inBus, outBus)
    {
      if e.data == [] {
        x := Deliver(ctx, r, e, s, inBus, outBus);
      } else {
        var hit := mmu.DoesExecutionMemoryChangesExistsInL1D(order, e);
        if hit {
          var ok := mmu.WriteExecutionMemoryChangesToL1D(e);
          x := if ok then Ran else Stopped(Error(BadAddress));
        } else {
          x := Deliver(ctx, r, e, s.(l1d := LookUp(s.l1d, order, e).1), inBus, outBus);
        }
      }
    }

    method Run(ctx: Context, app: App, order: seq<Word>, r: RunnerPc, bytes: seq<Byte>, ghost s: Cpu,
               ghost inBus: SimpleBus<RunnerPc>, outBus: SimpleBus<WriteEntry>) returns (x: Executed)
      requires Apart(ctx, inBus, outBus) && Shows(s, ctx, inBus, outBus)
      modifies this, ctx`registers, ctx`pendingWrites, outBus, bu, bu.btb, bu.fu, bu.du, mmu.l1d
      ensures Apart(ctx, inBus, outBus) && Matches(RunNow(v, app, order, s, r, bytes), x, ctx, inBus, outBus)
    {
      hide Compute, Pipeline.Deliver;
      runner := None;
      var res := Isa.Run(r.instr, NO_FORWARD, ctx.registers, app.labels, r.pc, bytes);
      if res.Fail? {
        return Stopped(Error(res.fault));
      }
      ctx.registers := DirectWrite(r.instr, ctx.registers, r.pc);
      if res.value.isReturn {
        return Stopped(Return);
      }
      processing := false;
      ghost var s1 := s.(eu := s.eu.(runner := None, processing := false), regs := DirectWrite(r.instr, s.regs, r.pc));
      x := Complete(ctx, order, r, res.value, s1, inBus, outBus);
    }

    /** A load whose wait is over. */
    method FinishRead(ctx: Context, app: App, order: seq<Word>, ghost s: Cpu, ghost inBus: SimpleBus<RunnerPc>,
                      outBus: SimpleBus<WriteEntry>) returns (x: Executed)
      requires Apart(ctx, inBus, outBus) && Shows(s, ctx, inBus, outBus)
      modifies this, ctx`registers, ctx`pendingWrites, ctx.memory, outBus, bu, bu.btb, bu.fu, bu.du, mmu.l1d
      ensures Apart(ctx, inBus, outBus) && Matches(Pipeline.FinishRead(v, app, order, s), x, ctx, inBus, outBus)
    {
      hide RunNow, LoadMiss;
      remainingCycles := 0;
      pendingMemoryRead := false;
      if runner.None? || (memory.None? && addrs == []) {
        return Stopped(Error(GoPanic));
      }
      var bytes := memory;
      if memory.None? {
        bytes := mmu.FetchAndRead(addrs);
        if bytes.None? {
          return Stopped(Error(BadAddress));
        }
      }
      memory := None;
      ghost var l := if s.eu.memory.Some? then Loaded(s.eu.memory.value, s.l1d, s.memory)
          else LoadMiss(s.l1d, s.memory, s.eu.addrs).value;
      ghost var s2 := s.(eu := s.eu.(remaining := 0, pendingRead := false, memory := None), l1d := l.lines,
                         memory := l.memory);
      x := Run(ctx, app, order, runner.value, bytes.value, s2, inBus, outBus);
    }

    /** Starts a load. */
    method Load(ctx: Context, wanted: seq<Word>, ghost s: Cpu, ghost inBus: SimpleBus<RunnerPc>,
                ghost outBus: SimpleBus<WriteEntry>)
      requires Apart(ctx, inBus, outBus) && Shows(s, ctx, inBus, outBus)
      modifies this, mmu.l1d
      ensures Apart(ctx, inBus, outBus) && Shows(StartRead(s, wanted), ctx, inBus, outBus)
    {
      hide GetAll;
      var bytes := mmu.GetFromL1D(wanted);
      pendingMemoryRead := true;
      if bytes.Some? {
        memory := bytes;
        remainingCycles := 1;
      } else {
        addrs := wanted;
        remainingCycles := CYCLES_MEMORY_ACCESS;
      }
    }

    /** Waits for operands, then runs or starts a load. */
    method Begin(ctx: Context, app: App, order: seq<Word>, r: RunnerPc, ghost s: Cpu, ghost inBus: SimpleBus<RunnerPc>,
                 outBus: SimpleBus<WriteEntry>) returns (x: Executed)
      requires Apart(ctx, inBus, outBus) && Shows(s.(eu := s.eu.(remaining := 0)), ctx, inBus, outBus)
               && s.eu.remaining == 1
      modifies this, ctx`registers, ctx`pendingWrites, outBus, bu, bu.btb, bu.fu, bu.du, mmu.l1d
      ensures Apart(ctx, inBus, outBus) && Matches(WhenReady(v, app, order, s, r), x, ctx, inBus, outBus)
    {
      hide RunNow, StartRead, MemoryRead, ReadRegisters;
      var hazard := ctx.IsWriteDataHazard(ReadRegisters(r.instr));
      if hazard {
        remainingCycles := 1;
        return Stalled;
      }
      var wanted := MemoryRead(r.instr, NO_FORWARD, ctx.registers);
      if wanted != [] {
        ghost var s0 := s.(eu := s.eu.(remaining := 0));
        Load(ctx, wanted, s0, inBus, outBus);
        StartReadForgets(s, wanted);
        return Stalled;
      }
      x := Run(ctx, app, order, r, [], s.(eu := s.eu.(remaining := 0)), inBus, outBus);
    }

    /** The last cycle of an instruction. */
    method Prepare(ctx: Context, app: App, order: seq<Word>, ghost s: Cpu, ghost inBus: SimpleBus<RunnerPc>,
                   outBus: SimpleBus<WriteEntry>) returns (x: Executed)
      requires Apart(ctx, inBus, outBus) && Shows(s, ctx, inBus, outBus)
      modifies this, ctx`registers, ctx`pendingWrites, outBus, bu, bu.btb, bu.fu, bu.du, mmu.l1d
      ensures Apart(ctx, inBus, outBus) && Matches(Pipeline.Prepare(v, app, order, s), x, ctx, inBus, outBus)
    {
      hide WhenReady, AssertBranch;
      remainingCycles := remainingCycles - 1;
      if remainingCycles != 0 {
        return Stalled;
      }
      if !outBus.CanAdd() {
        remainingCycles := 1;
        return Stalled;
      }
      if runner.None? {
        remainingCycles := 1;
        return Stopped(Error(GoPanic));
      }
      ghost var a := AssertBranch(v, s.bu, s.fu, runner.value);
      bu.Assert(runner.value);
      x := Begin(ctx, app, order, runner.value, s.(bu := a.0, fu := a.1), inBus, outBus);
    }

    method Cycle(ctx: Context, app: App, order: seq<Word>, ghost s: Cpu, inBus: SimpleBus<RunnerPc>,
                 outBus: SimpleBus<WriteEntry>) returns (x: Executed)
      requires Apart(ctx, inBus, outBus) && Shows(s, ctx, inBus, outBus)
      modifies this, ctx`registers, ctx`pendingWrites, ctx.memory, inBus, outBus, bu, bu.btb, bu.fu, bu.du, mmu.l1d
      ensures Apart(ctx, inBus, outBus) && Matches(ExecuteCycle(v, app, order, s), x, ctx, inBus, outBus)
    {
      hide Pipeline.Prepare, Pipeline.FinishRead;
      if pendingMemoryRead {
        if remainingCycles != 1 {
          remainingCycles := remainingCycles - 1;
          return Stalled;
        }
        x := FinishRead(ctx, app, order, s, inBus, outBus);
        return;
      }
      ghost var s1 := s;
      if !processing {
        var next := inBus.Get();
        if next.None? {
          return Stalled;
        }
        runner := next;
        remainingCycles := Cycles(next.value.instr);
        processing := true;
        s1 := s.(xbus := s.xbus.Shift(),
                 eu := s.eu.(runner := next, remaining := Cycles(next.value.instr), processing := true));
      }
      x := Prepare(ctx, app, order, s1, inBus, outBus);
    }
  }

  class Core {
    const v: Variant
    const ctx: Context
    const mmu: MemoryManagementUnit
    const fetchUnit: FetchUnit
    const decodeBus: SimpleBus<Word>
    const decodeUnit: DecodeUnit
    const executeBus: SimpleBus<RunnerPc>
    const executeUnit: ExecuteUnit
    const writeBus: SimpleBus<WriteEntry>
    const writeUnit: WriteUnit
    const branchUnit: BranchUnit

    predicate Valid()
      reads this, mmu, mmu.l1i, mmu.l1d
    {
      var a: object, b: object, c: object := decodeBus, executeBus, writeBus;
      && a != b && b != c && a != c
      && mmu.Valid() && mmu.ctx == ctx && mmu.accessCost == CYCLES_MEMORY_ACCESS
      && fetchUnit.mmu == mmu && executeUnit.mmu == mmu && executeUnit.bu == branchUnit
      && branchUnit.fu == fetchUnit && branchUnit.du == decodeUnit
      && decodeUnit.v == v && executeUnit.v == v && branchUnit.v == v
    }

    function View(): Cpu
      reads this, ctx, ctx.memory, mmu, mmu.l1i, mmu.l1d, fetchUnit, decodeBus, decodeUnit, executeBus, executeUnit,
      writeBus,
            writeUnit, branchUnit, branchUnit.btb
    {
      Cpu(fetchUnit.View(), decodeBus.View(), decodeUnit.pendingBranchResolution, executeBus.View(), executeUnit.View(),
          writeBus.View(), writeUnit.View(), branchUnit.View(), ctx.registers, ctx.pendingWrites, ctx.memory[..],
          mmu.l1i.lines, mmu.l1d.lines)
    }

    constructor (v: Variant, memoryBytes: nat)
      ensures Valid() && this.v == v
      ensures fresh(ctx) && fresh(ctx.memory) && fresh(mmu) && fresh(mmu.l1i) && fresh(mmu.l1d) && fresh(fetchUnit)
      ensures fresh(decodeBus) && fresh(decodeUnit) && fresh(executeBus) && fresh(executeUnit) && fresh(writeBus)
      ensures fresh(writeUnit) && fresh(branchUnit) && fresh(branchUnit.btb)
      ensures Fresh(View()) && View().regs == map[] && View().memory == seq(memoryBytes, _ => 0)
    {
      var context := new Context(memoryBytes);
      var unit := new MemoryManagementUnit(context, CYCLES_MEMORY_ACCESS);
      var fu := new FetchUnit(unit);
      var du := new DecodeUnit(v);
      var bu := new BranchUnit(v, fu, du);
      this.v := v;
      ctx, mmu, fetchUnit, decodeUnit, branchUnit := context, unit, fu, du, bu;
      decodeBus := new SimpleBus<Word>();
      executeBus := new SimpleBus<RunnerPc>();
      executeUnit := new ExecuteUnit(v, bu, unit);
      writeBus := new SimpleBus<WriteEntry>();
      writeUnit := new WriteUnit();
    }

    /** Fetch and decode. */
    method FrontEnd(app: App) returns (ok: bool)
      requires Valid()
      modifies fetchUnit, mmu.l1i, decodeBus, decodeUnit, executeBus
      ensures Valid()
      ensures var f := FetchDecode(v, app, old(View())); ok == f.Some? && (ok ==> View() == f.value)
    {
      fetchUnit.Cycle(app, decodeBus);
      ok := decodeUnit.Cycle(app, decodeBus, executeBus);
    }

    method Execute(app: App, order: seq<Word>) returns (x: Executed)
      requires Valid()
      modifies executeUnit, ctx`registers, ctx`pendingWrites, ctx.memory, executeBus, writeBus, branchUnit,
               branchUnit.btb, fetchUnit, decodeUnit, mmu.l1d
      ensures Valid()
      ensures var e := ExecuteCycle(v, app, order, old(View()));
              x == e.1 && (!(x.Stopped? && x.stop.Error?) ==> View() == e.0)
    {
      hide ExecuteCycle;
      ghost var s := View();
      x := executeUnit.Cycle(ctx, app, order, s, executeBus, writeBus);
      ExecuteLeaves(v, app, order, s);
    }

    method WriteBack() returns (ok: bool)
      requires Valid()
      modifies writeUnit, ctx`registers, ctx`pendingWrites, ctx.memory, writeBus
      ensures Valid()
      ensures var t := WriteCycle(Retirement(old(View())));
              ok == t.Some? && (ok ==> View() == WithRetirement(old(View()), t.value))
    {
      hide WriteCycle;
      ok := writeUnit.Cycle(ctx, writeBus);
    }

    /** The loop before a flush, with the number of its turns. */
    method DrainAll() returns (ok: bool, cycles: nat)
      requires Valid() && (writeUnit.pendingMemoryWrite ==> writeUnit.cycles > 0)
      modifies writeUnit, ctx`registers, ctx`pendingWrites, ctx.memory, writeBus
      ensures Valid()
      ensures var d := Drain(Retirement(old(View())));
              ok == d.Some? && (ok ==> View() == WithRetirement(old(View()), d.value.0) && cycles == d.value.1)
    {
      hide Drain, WriteCycle;
      ok, cycles := true, 0;
      DrainEnds(Retirement(View()));
      while writeUnit.pendingMemoryWrite || writeBus.current.Some? || writeBus.pending.Some?
        invariant Valid() && (writeUnit.pendingMemoryWrite ==> writeUnit.cycles > 0) && ok
        invariant View() == WithRetirement(old(View()), Retirement(View()))
        invariant Later(Drain(Retirement(View())), cycles) == Drain(Retirement(old(View())))
        decreases Owed(Retirement(View()))
      {
        DrainUnfolds(Retirement(View()), cycles);
        cycles := cycles + 1;
        ok := WriteBack();
        if !ok {
          return;
        }
      }
      DrainEnds(Retirement(View()));
    }

    method Flush(target: Word)
      requires Valid()
      modifies fetchUnit, decodeUnit, executeUnit, decodeBus, executeBus, writeBus, ctx`pendingWrites, ctx`pendingReads
      ensures Valid() && View() == Pipeline.Flush(v, old(View()), target)
    {
      FlushUnits(target);
      FlushBuses();
      ctx.Flush();
    }

    method FlushUnits(target: Word)
      requires Valid()
      modifies fetchUnit, decodeUnit, executeUnit
      ensures Valid()
      ensures var s := old(View());
              View() == s.(fu := s.fu.(processing := false, complete := false, pc := target), blocked := false,
                           eu := if v == Mvp5 then s.eu.(processing := false, remaining := 0) else s.eu)
    {
      fetchUnit.Flush(target);
      decodeUnit.pendingBranchResolution := false;
      if v == Mvp5 {
        executeUnit.processing := false;
        executeUnit.remainingCycles := 0;
      }
    }

    method FlushBuses()
      requires Valid()
      modifies decodeBus, executeBus, writeBus
      ensures Valid()
      ensures View() == old(View()).(dbus := Bus(None, None), xbus := Bus(None, None), wbus := Bus(None, None))
    {
      decodeBus.Clean();
      executeBus.Clean();
      writeBus.Clean();
    }

    /** One turn of the loop of Run. */
    method Turn(app: App, order: seq<Word>) returns (ran: bool, cycles: nat, stop: Option<Stop>)
      requires Valid()
      modifies ctx, ctx.memory, mmu.l1i, mmu.l1d, fetchUnit, decodeBus, decodeUnit, executeBus, executeUnit, writeBus,
               writeUnit, branchUnit, branchUnit.btb
      ensures Valid()
      ensures var u := CycleOnce(v, app, order, old(View()));
              && stop == u.stop && cycles == u.cycles && ran == u.ran
              && (!(stop.Some? && stop.value.Error?) ==> View() == u.next)
    {
      hide FetchDecode, ExecuteAndWrite;
      var ok := FrontEnd(app);
      if !ok {
        ran, cycles, stop := false, 1, Some(Error(GoPanic));
        return;
      }
      ran, cycles, stop := BackEnd(app, order);
    }

    /** Execute and write back, and what follows from them. */
    method BackEnd(app: App, order: seq<Word>) returns (ran: bool, cycles: nat, stop: Option<Stop>)
      requires Valid()
      modifies ctx, ctx.memory, mmu.l1d, fetchUnit, decodeBus, decodeUnit, executeBus, executeUnit, writeBus, writeUnit,
               branchUnit, branchUnit.btb
      ensures Valid()
      ensures var u := ExecuteAndWrite(v, app, order, old(View()));
              && stop == u.stop && cycles == u.cycles && ran == u.ran
              && (!(stop.Some? && stop.value.Error?) ==> View() == u.next)
    {
      hide ExecuteCycle, WriteBackAndFinish;
      var x := Execute(app, order);
      if x.Stopped? && x.stop.Error? {
        ran, cycles, stop := false, 1, Some(x.stop);
        return;
      }
      ran, cycles, stop := WriteAndFinish(x);
    }

    method WriteAndFinish(x: Executed) returns (ran: bool, cycles: nat, stop: Option<Stop>)
      requires Valid()
      modifies ctx, ctx.memory, fetchUnit, decodeBus, decodeUnit, executeBus, executeUnit, writeBus, writeUnit
      ensures Valid()
      ensures var u := WriteBackAndFinish(v, old(View()), x);
              && stop == u.stop && cycles == u.cycles && ran == u.ran
              && (!(stop.Some? && stop.value.Error?) ==> View() == u.next)
    {
      hide WriteCycle, AfterWrite, Retirement, WithRetirement;
      var ok := WriteBack();
      if !ok {
        ran, cycles, stop := false, 1, Some(Error(BadAddress));
        return;
      }
      ran, cycles, stop := Finish(x);
    }

    predicate IsDone()
      reads this, fetchUnit, decodeBus, executeBus, executeUnit, writeBus, writeUnit
    {
      && fetchUnit.complete && !executeUnit.processing && !writeUnit.pendingMemoryWrite
      && decodeBus.View().IsEmpty() && executeBus.View().IsEmpty() && writeBus.View().IsEmpty()
    }

    /** A mispredicted branch. */
    method DrainAndFlush(target: Word) returns (cycles: nat, stop: Option<Stop>)
      requires Valid()
      modifies ctx, ctx.memory, fetchUnit, decodeBus, decodeUnit, executeBus, executeUnit, writeBus, writeUnit
      ensures Valid()
      ensures var u := AfterWrite(v, old(View()), RanAndFlush(target));
              && stop == u.stop && cycles == u.cycles && u.ran
              && (!(stop.Some? && stop.value.Error?) ==> View() == u.next)
    {
      hide Drain, Pipeline.Flush, WithRetirement;
      cycles, stop := 1, None;
      if writeUnit.pendingMemoryWrite && writeUnit.cycles <= 0 {
        stop := Some(Error(GoPanic));
        return;
      }
      var ok, more := DrainAll();
      if !ok {
        stop := Some(Error(BadAddress));
        return;
      }
      cycles := 1 + more;
      Flush(target);
    }

    /** What a turn does once the write unit has had its cycle. */
    method Finish(x: Executed) returns (ran: bool, cycles: nat, stop: Option<Stop>)
      requires Valid()
      modifies ctx, ctx.memory, fetchUnit, decodeBus, decodeUnit, executeBus, executeUnit, writeBus, writeUnit
      ensures Valid()
      ensures var u := AfterWrite(v, old(View()), x);
              && stop == u.stop && cycles == u.cycles && ran == u.ran
              && (!(stop.Some? && stop.value.Error?) ==> View() == u.next)
    {
      hide Drain, Pipeline.Flush, AfterWrite;
      ran, cycles, stop := false, 1, None;
      AfterWriteCases(v, View(), x);
      match x
      case Stopped(s) =>
        stop := Some(s);
      case RanAndFlush(target) =>
        ran := true;
        cycles, stop := DrainAndFlush(target);
      case _ =>
        ran := x.Ran?;
        if IsDone() {
          stop := Some(End);
        }
    }

    /** The whole run of a fresh core whose states are guarded, given that the sequential core stops after n
        instructions: it ends for the same reason and in its state, then writes its cache back, 50 cycles a line. After
        an error neither state nor cycles matter. */
    method Run(app: App, orders: nat -> seq<Word>, ghost n: nat) returns (cycle: nat, stop: Stop, ghost turns: nat)
      requires Valid() && Fresh(View()) && Runnable(app) && StopsAfter(app, orders, Start(View()), n)
      requires forall k: nat :: GuardedAt(v, app, orders, View(), k)
      modifies ctx, ctx.memory, mmu.l1i, mmu.l1d, fetchUnit, decodeBus, decodeUnit, executeBus, executeUnit, writeBus,
               writeUnit, branchUnit, branchUnit.btb
      ensures Valid()
      ensures var ref := Reference(Dropping, app, orders, Start(old(View())), n).value;
              && stop == StepCached(Dropping, app, orders(n), ref).stop
              && (!stop.Error? ==>
                    && SameRegs(ctx.registers, ref.regs) && mmu.l1d.lines == ref.lines
                    && ctx.memory[..] == Flushed(ref.lines, ref.memory)
                    && cycle <= 158 * n + 157 + 50 * Misses(app, orders, Start(old(View())), n) + 50 * |ref.lines|)
      ensures var p := AfterTurns(v, app, orders, Begin(old(View())), turns);
              && p.stop == Some(stop) && p.executed == n
              && (!stop.Error? ==> cycle == p.cycles + 50 * |p.cpu.l1d|)
    {
      hide Inv, Guard, StepCached, CycleOnce, StopsAfter, Reference, Patience, Agrees, Fresh, Misses;
      ghost var first := View();
      ghost var p := Begin(first);
      turns := 0;
      FreshAgrees(v, app, orders, first);
      cycle := 0;
      var executed := 0;
      while true
        invariant Valid() && p == Progress(View(), executed, cycle, None) && executed <= n
        invariant p == AfterTurns(v, app, orders, Begin(first), turns) && Agrees(v, app, orders, Start(first), p)
        decreases n - executed, Patience(p)
      {
        assert GuardedAt(v, app, orders, first, turns);
        AdvanceAgrees(v, app, orders, Start(first), p);
        ghost var q := Advance(v, app, orders, p);
        ExecutedIsBounded(v, app, orders, Start(first), q, n);
        var ran, more, over := Turn(app, orders(executed));
        assert q.cycles == cycle + more && q.stop == over && q.executed == executed + if ran then 1 else 0;
        cycle := cycle + more;
        if over.Some? {
          stop := over.value;
          AgreesAtStop(v, app, orders, Start(first), q, n);
          turns := turns + 1;
          if !stop.Error? {
            var flushing := mmu.Flush();
            cycle := cycle + flushing;
          }
          return;
        }
        if ran {
          executed := executed + 1;
        }
        p, turns := q, turns + 1;
      }
    }
  }

  lemma AgreesAtStop(v: Variant, app: App, orders: nat -> seq<Word>, start: Cached, q: Progress, n: nat)
    requires Agrees(v, app, orders, start, q) && q.stop.Some? && q.executed == n
    ensures EndsLike(app, orders, start, n, q)
  {
  }

  lemma AfterWriteCases(v: Variant, s: Cpu, x: Executed)
    ensures x.Stopped? ==> AfterWrite(v, s, x) == Turn(s, 1, false, Some(x.stop))
    ensures x.Stalled? || x.Ran? ==>
              AfterWrite(v, s, x) == Turn(s, 1, x.Ran?, if IsComplete(s) then Some(End) else None)
  {
  }

  /** A drain that follows this many turns. */
  function Later(d: Option<(Retiring, nat)>, cycles: nat): Option<(Retiring, nat)> {
    if d.None? then None else Some((d.value.0, d.value.1 + cycles))
  }

  lemma DrainUnfolds(s: Retiring, cycles: nat)
    requires (s.wu.pendingWrite ==> s.wu.cycles > 0) && !Drained(s)
    ensures var t := WriteCycle(s);
            if t.None? then Drain(s).None?
            else (t.value.wu.pendingWrite ==> t.value.wu.cycles > 0) && Owed(t.value) < Owed(s)
                 && Later(Drain(s), cycles) == Later(Drain(t.value), cycles + 1)
  {
  }

  lemma DrainEnds(s: Retiring)
    requires s.wu.pendingWrite ==> s.wu.cycles > 0
    ensures Later(Drain(s), 0) == Drain(s)
    ensures Drained(s) ==> Drain(s) == Some((s, 0))
  {
  }

  lemma StartReadForgets(s: Cpu, wanted: seq<Word>)
    ensures StartRead(s.(eu := s.eu.(remaining := 0)), wanted) == StartRead(s, wanted)
  {
    hide GetAll;
  }
}
