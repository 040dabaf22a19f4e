/** The units of MVP-6.0 and MVP-6.1 as objects that change in place (proc/mvp6-0, proc/mvp6-1). */
module OutOfOrderUnits {
  import opened Words
  import opened Isa
  import opened Cache
  import opened Mmu
  import opened Pipeline
  import opened Scoreboard
  import opened Control
  import opened OutOfOrder
  import opened Machine
  import Buffered = BufferedBus

  /** What Go's pointers and channels reach: the issued instructions, by their place in the issue order. */
  class Heap {
    var issued: seq<RunnerPc>
    var wires: seq<Wire>
    var channels: seq<Channel>

    constructor ()
      ensures issued == [] && wires == [] && channels == []
    {
      issued, wires, channels := [], [], [];
    }
  }

  // ---------------------------------------------------------------- control

  class ControlUnit {
    const v: Version
    const ctx: Context
    const heap: Heap
    const inBus: TimedBus<RunnerPc>
    const outBus: TimedBus<nat>
    var pendings: seq<Candidate>
    var previous: seq<nat>
    var skipped: seq<Instr>
    ghost var clashes: nat

    predicate Valid()
      reads this, heap, inBus, outBus
    {
      var a: object := inBus;
      && a != outBus && outBus.queueLength == outBus.bufferLength == BUS_LENGTH
      && |heap.wires| == |heap.issued| && Known(previous, |heap.issued|)
    }

    ghost function IssueView(): Issue
      reads this, ctx, heap, outBus
    {
      Issue(outBus.View(), ctx.View(), heap.issued, heap.wires, heap.channels, clashes)
    }

    ghost function View(): Unit
      reads this, ctx, heap, inBus, outBus
    {
      Unit(inBus.View(), pendings, previous, IssueView())
    }

    constructor (v: Version, ctx: Context, heap: Heap, inBus: TimedBus<RunnerPc>, outBus: TimedBus<nat>)
      requires var a: object := inBus; a != outBus
      requires outBus.queueLength == outBus.bufferLength == BUS_LENGTH && |heap.wires| == |heap.issued|
      ensures Valid() && this.v == v && this.ctx == ctx && this.heap == heap && this.inBus == inBus
              && this.outBus == outBus
      ensures pendings == [] && previous == [] && clashes == 0
    {
      this.v, this.ctx, this.heap, this.inBus, this.outBus := v, ctx, heap, inBus, outBus;
      pendings, previous, skipped, clashes := [], [], [], 0;
    }

    method PushRunner(cycle: int, c: Candidate)
      requires Valid()
      modifies ctx`pendingReads, ctx`pendingWrites, heap, outBus`buffer
      ensures Valid() && IssueView() == Control.Push(old(IssueView()), c, cycle)
    {
      var id: nat := |heap.issued|;
      outBus.Add(id, cycle);
      ctx.AddPendingRegisters(c.runner.instr);
      heap.issued := heap.issued + [c.runner];
      heap.wires := heap.wires + [c.wire];
    }

    method IsDataHazardWithSkippedRunners(i: Instr) returns (clash: bool)
      ensures clash == Clashes(skipped, i)
    {
      var k := 0;
      while k < |skipped|
        invariant k <= |skipped| && forall j :: 0 <= j < k ==> !SharesWith(skipped[j], i)
      {
        if SharesWith(skipped[k], i) {
          return true;
        }
        k := k + 1;
      }
      return false;
    }

    method ShouldUseForwarding(i: Instr, hazards: seq<Hazard>) returns (c: Option<(nat, Reg)>)
      requires Valid() && hazards == Hazards(ctx.View(), i)
      ensures c == ShouldForward(previous, IssueView(), i)
    {
      hide Hazards, Choose;
      if |hazards| != 1 || hazards[0].kind != ReadAfterWrite {
        return None;
      }
      c := WalkPrevious(i);
    }

    /** Looks for an instruction pushed in the previous cycle. */
    method WalkPrevious(i: Instr) returns (c: Option<(nat, Reg)>)
      requires Valid()
      ensures c == Choose(previous, heap.issued, i)
    {
      hide ReadRegisters, WriteRegisters, Control.Shared;
      var k := 0;
      assert previous[0..] == previous;
      while k < |previous|
        invariant k <= |previous|
        invariant Known(previous[k..], |heap.issued|)
        invariant Choose(previous, heap.issued, i) == Choose(previous[k..], heap.issued, i)
      {
        assert previous[k..][0] == previous[k] && previous[k..][1..] == previous[k + 1..];
        var r := Control.Shared(WriteRegisters(heap.issued[previous[k]].instr), ReadRegisters(i));
        if r.Some? {
          return Some((previous[k], r.value));
        }
        k := k + 1;
      }
      return None;
    }

    /** Makes a channel and hands both ends out. */
    method Forward(c: Candidate, p: nat, r: Reg) returns (c1: Candidate)
      requires Valid() && p < |heap.wires|
      modifies heap
      ensures Valid() && (IssueView(), c1) == Link(old(IssueView()), c, p, r)
    {
      var k: nat := |heap.channels|;
      heap.channels := heap.channels + [Channel(p, r, None)];
      heap.wires := heap.wires[p := heap.wires[p].(forwarder := Some(k), register := r)];
      c1 := c.(wire := c.wire.(receiver := Some(k), register := r));
    }

    method HandleRunner(cycle: int, pushed: nat, c: Candidate) returns (c1: Candidate, push: bool, stop: bool)
      requires Valid() && pushed <= |heap.issued|
      modifies this`clashes, ctx`pendingReads, ctx`pendingWrites, heap, outBus`buffer
      ensures Valid()
      ensures Handled(IssueView(), c1, push, stop)
           == Handle(v, cycle, |old(heap.issued)| - pushed, previous, skipped, old(IssueView()), c)
    {
      hide Control.Push, Hazards, ShouldForward, Link, Clashes, IsBranch;
      c1 := c;
      if pushed > 0 && IsBranch(c.runner.instr) {
        return c, false, true;
      }
      if v == Mvp61 {
        var clash := IsDataHazardWithSkippedRunners(c.runner.instr);
        if clash {
          clashes := clashes + 1;
          return c, false, false;
        }
      }
      var hazards := ctx.IsDataHazard3(c.runner.instr);
      if hazards == [] {
        if v == Mvp61 && !outBus.View().CanAdd(BUS_LENGTH) {
          return c, false, true;
        }
        PushRunner(cycle, c);
        PushLeaves(old(IssueView()), c, cycle);
        return c, true, false;
      }
      if v == Mvp60 {
        return c, false, true;
      }
      var f := ShouldUseForwarding(c.runner.instr, hazards);
      if f.None? {
        return c, false, true;
      }
      c1 := Forward(c, f.value.0, f.value.1);
      Control.LinkLeaves(0, old(IssueView()), c, f.value.0, f.value.1);
      if !outBus.View().CanAdd(BUS_LENGTH) {
        return c1, false, true;
      }
      ghost var s1 := IssueView();
      PushRunner(cycle, c1);
      PushLeaves(s1, c1, cycle);
      return c1, true, true;
    }

    /** The first loop of a cycle, over a snapshot of the pending instructions. */
    method IssuePendings(cycle: int) returns (pushed: nat, stop: bool)
      requires Valid() && skipped == []
      modifies this, ctx`pendingReads, ctx`pendingWrites, heap, outBus`buffer
      ensures Valid() && previous == old(previous)
      ensures var p := FromPendings(v, cycle, |old(heap.issued)|, previous, [], old(IssueView()), old(pendings));
              && Pass(IssueView(), pendings, skipped, stop) == p
              && |heap.issued| == |old(heap.issued)| + pushed
    {
      hide Handle, FromPendings, WithKept;
      var snapshot := pendings;
      ghost var first, start := |heap.issued|, IssueView();
      ghost var kept: seq<Candidate> := [];
      pushed, stop := 0, false;
      var k := 0;
      assert snapshot[0..] == snapshot;
      PassEnds(FromPendings(v, cycle, first, previous, [], start, snapshot));
      while k < |snapshot| && !stop
        invariant k <= |snapshot| && Valid() && previous == old(previous) && pendings == kept + snapshot[k..]
        invariant |heap.issued| == first + pushed
        invariant stop ==>
                    FromPendings(v, cycle, first, previous, [], start, snapshot)
                    == Pass(IssueView(), pendings, skipped, true)
        invariant !stop ==>
          WithKept(kept, FromPendings(v, cycle, first, previous, skipped, IssueView(), snapshot[k..]))
          == FromPendings(v, cycle, first, previous, [], start, snapshot)
      {
        ghost var s, before := IssueView(), skipped;
        TakeOne(kept, snapshot, k);
        PassUnfolds(v, cycle, first, previous, skipped, s, snapshot[k..], kept);
        HandleCounts(v, cycle, first, previous, before, s, snapshot[k]);
        var c, push, over := HandleRunner(cycle, pushed, snapshot[k]);
        var at := |pendings| - (|snapshot| - k);
        if push {
          pendings := pendings[..at] + pendings[at + 1..];
          pushed := pushed + 1;
        } else {
          skipped := skipped + [snapshot[k].runner.instr];
          kept := kept + [snapshot[k]];
        }
        k := k + 1;
        stop := over;
      }
      if !stop { PassDone(v, cycle, first, previous, skipped, IssueView(), kept); }
    }

    /** The second loop, over the input bus. */
    method IssueNew(cycle: int, pushedBefore: nat, room: int, ghost first: nat)
      requires Valid() && |heap.issued| == first + pushedBefore
      modifies this, ctx`pendingReads, ctx`pendingWrites, heap, outBus`buffer, inBus`queue
      ensures Valid() && previous == old(previous) && |inBus.queue| <= |old(inBus.queue)|
      ensures var r := FromBus(v, cycle, first, previous, old(skipped), old(IssueView()), old(pendings),
                               old(inBus.queue), room);
              (IssueView(), pendings, inBus.queue) == r
    {
      hide Handle, FromBus;
      var pushed, remaining, over := pushedBefore, room, false;
      ghost var goal := FromBus(v, cycle, first, previous, skipped, IssueView(), pendings, inBus.queue, room);
      while !over
        invariant Valid() && previous == old(previous) && |heap.issued| == first + pushed
                  && |inBus.queue| <= |old(inBus.queue)|
        invariant over ==> (IssueView(), pendings, inBus.queue) == goal
        invariant !over ==>
                    FromBus(v, cycle, first, previous, skipped, IssueView(), pendings, inBus.queue, remaining) == goal
        decreases |inBus.queue|, !over
      {
        BusUnfolds(v, cycle, first, previous, skipped, IssueView(), pendings, inBus.queue, remaining);
        if (v == Mvp60 && remaining <= 0) || |pendings| >= PENDING_LENGTH {
          return;
        }
        var next := inBus.Get();
        if next.None? {
          return;
        }
        HandleCounts(v, cycle, first, previous, skipped, IssueView(), Candidate(next.value, NO_WIRE));
        var c, push, stop := HandleRunner(cycle, pushed, Candidate(next.value, NO_WIRE));
        if push {
          remaining := remaining - 1;
          pushed := pushed + 1;
        } else {
          pendings := pendings + [c];
          skipped := skipped + [next.value.instr];
        }
        over := stop;
      }
    }

    method Cycle(cycle: int)
      requires Valid()
      modifies this, ctx`pendingReads, ctx`pendingWrites, heap, outBus`buffer, inBus`queue
      ensures Valid() && View() == Control.Cycle(v, cycle, old(View())) && |inBus.queue| <= |old(inBus.queue)|
    {
      hide FromPendings, FromBus;
      skipped := [];
      if !outBus.View().CanAdd(BUS_LENGTH) {
        previous := [];
        return;
      }
      var remaining := BUS_LENGTH - |outBus.buffer|;
      var first := |heap.issued|;
      var pushed, stop := IssuePendings(cycle);
      if !stop {
        IssueNew(cycle, pushed, remaining - pushed, first);
      }
      previous := if first <= |heap.issued| then From(first, |heap.issued|) else [];
    }
  }

  lemma BusUnfolds(v: Version, cycle: int, first: nat, previous: seq<nat>, skipped: seq<Instr>, s: Issue,
                   pendings: seq<Candidate>, queue: seq<RunnerPc>, remaining: int)
    requires Sized(s, previous)
    ensures FromBus(v, cycle, first, previous, skipped, s, pendings, queue, remaining)
         == if (v == Mvp60 && remaining <= 0) || |pendings| >= PENDING_LENGTH || queue == [] then (s, pendings, queue)
            else
              var h := Handle(v, cycle, first, previous, skipped, s, Candidate(queue[0], NO_WIRE));
              var skipped1 := if h.push then skipped else skipped + [queue[0].instr];
              var pendings1 := if h.push then pendings else pendings + [h.candidate];
              if h.stop then (h.issue, pendings1, queue[1..])
              else FromBus(v, cycle, first, previous, skipped1, h.issue, pendings1, queue[1..], if h.push then
                             remaining - 1 else remaining)
  {
    hide Handle;
  }

  /** The list of pending instructions while a pass walks over it. */
  lemma TakeOne(kept: seq<Candidate>, snapshot: seq<Candidate>, k: nat)
    requires k < |snapshot|
    ensures snapshot[k..] != [] && snapshot[k..][0] == snapshot[k] && snapshot[k..][1..] == snapshot[k + 1..]
    ensures var pendings := kept + snapshot[k..];
            && |pendings| - (|snapshot| - k) == |kept|
            && pendings[..|kept|] + pendings[|kept| + 1..] == kept + snapshot[k + 1..]
            && pendings == (kept + [snapshot[k]]) + snapshot[k + 1..]
  {
  }

  lemma PassDone(v: Version, cycle: int, first: nat, previous: seq<nat>, skipped: seq<Instr>, s: Issue,
                 kept: seq<Candidate>)
    requires Sized(s, previous)
    ensures WithKept(kept, FromPendings(v, cycle, first, previous, skipped, s, []))
            == Pass(s, kept + [], skipped, false)
    ensures kept + [] == kept
  {
  }

  /** A pass over the rest of a list, behind what has been kept so far. */
  function WithKept(kept: seq<Candidate>, p: Pass): Pass { p.(kept := kept + p.kept) }

  lemma PassEnds(p: Pass)
    ensures WithKept([], p) == p
  {
    assert [] + p.kept == p.kept;
  }

  lemma PassUnfolds(v: Version, cycle: int, first: nat, previous: seq<nat>, skipped: seq<Instr>, s: Issue,
                    cs: seq<Candidate>, kept: seq<Candidate>)
    requires Sized(s, previous) && cs != []
    ensures var h := Handle(v, cycle, first, previous, skipped, s, cs[0]);
            var skipped1 := if h.push then skipped else skipped + [cs[0].runner.instr];
            var kept1 := if h.push then kept else kept + [cs[0]];
            WithKept(kept, FromPendings(v, cycle, first, previous, skipped, s, cs))
            == if h.stop then Pass(h.issue, kept1 + cs[1..], skipped1, true)
               else WithKept(kept1, FromPendings(v, cycle, first, previous, skipped1, h.issue, cs[1..]))
  {
    hide Handle;
    var h := Handle(v, cycle, first, previous, skipped, s, cs[0]);
    var own := if h.push then [] else [cs[0]];
    var rest := FromPendings(v, cycle, first, previous, if h.push then
                               skipped else skipped + [cs[0].runner.instr], h.issue, cs[1..]);
    assert kept + (own + cs[1..]) == (kept + own) + cs[1..];
    assert kept + (own + rest.kept) == (kept + own) + rest.kept;
    assert kept + [] == kept;
  }

  /** Only a push adds to what has been issued. */
  lemma HandleCounts(v: Version, cycle: int, first: nat, previous: seq<nat>, skipped: seq<Instr>, s: Issue,
                     c: Candidate)
    requires Sized(s, previous)
    ensures var h := Handle(v, cycle, first, previous, skipped, s, c);
            |h.issue.issued| == |s.issued| + if h.push then 1 else 0
  {
    hide Hazards, Choose, IsBranch, AddPending;
  }

  lemma PushLeaves(s: Issue, c: Candidate, cycle: int)
    ensures Control.Push(s, c, cycle).bus.queue == s.bus.queue
  {
  }

  // ---------------------------------------------------------------- execute

  class ExecuteUnit {
    const ctx: Context
    const heap: Heap
    const mmu: MemoryManagementUnit
    const inBus: TimedBus<nat>
    const outBus: TimedBus<Done>
    var state: Eu

    predicate Valid()
      reads this, mmu, mmu.l1i, mmu.l1d, inBus, outBus
    {
      var a: object := inBus;
      && a != outBus && mmu.Valid() && mmu.ctx == ctx
    }

    function SharedView(): OutOfOrder.Shared
      reads this, ctx, ctx.memory, heap, mmu, mmu.l1d, inBus, outBus
    {
      OutOfOrder.Shared(inBus.View(), outBus.View(), heap.channels, mmu.l1d.lines, ctx.memory[..])
    }

    constructor (ctx: Context, heap: Heap, mmu: MemoryManagementUnit, inBus: TimedBus<nat>, outBus: TimedBus<Done>)
      requires mmu.Valid() && mmu.ctx == ctx
      requires var a: object := inBus; a != outBus
      ensures Valid() && state == Idle
      ensures this.ctx == ctx && this.heap == heap && this.mmu == mmu && this.inBus == inBus && this.outBus == outBus
    {
      this.ctx, this.heap, this.mmu, this.inBus, this.outBus := ctx, heap, mmu, inBus, outBus;
      state := Idle;
    }

    /** Runs, queues the result and hands it over. `ok` is false where the source stops or this model ends. */
    method Run(labels: map<string, Word>, cycle: int, id: nat, runner: RunnerPc, wire: Wire, f: Forward,
               bytes: seq<Byte>)
      returns (ok: bool)
      requires Valid()
      modifies this, heap`channels, outBus`buffer
      ensures Valid()
      ensures var r := OutOfOrder.Finish(labels, cycle, ctx.registers, id, runner, wire, f, bytes, old(SharedView()));
              ok == r.Some? && (ok ==> r.value == (state, SharedView()))
    {
      hide Compute;
      var out := Isa.Run(runner.instr, f, ctx.registers, labels, runner.pc, bytes);
      if out.Fail? || out.value.isReturn || out.value.data != [] || out.value.pcChange {
        return false;
      }
      outBus.Add(Done(id, runner.instr, out.value), cycle);
      if wire.forwarder.Some? {
        var k := wire.forwarder.value;
        if k >= |heap.channels| || heap.channels[k].value.Some? {
          return false;
        }
        heap.channels := heap.channels[k := heap.channels[k].(value := Some(out.value.registerValue))];
      }
      state := Idle;
      ok := true;
    }

    method Begin(labels: map<string, Word>, cycle: int, id: nat, runner: RunnerPc, wire: Wire, f: Forward)
      returns (ok: bool)
      requires Valid()
      modifies this, heap`channels, outBus`buffer, mmu.l1d
      ensures Valid()
      ensures var r := OutOfOrder.Start(labels, cycle, ctx.registers, id, runner, wire, f, old(SharedView()));
              ok == r.Some? && (ok ==> r.value == (state, SharedView()))
    {
      hide OutOfOrder.Finish, MemoryRead, GetAll;
      var addrs := MemoryRead(runner.instr, f, ctx.registers);
      if addrs == [] {
        ok := Run(labels, cycle, id, runner, wire, f, []);
        return;
      }
      var hit := mmu.GetFromL1D(addrs);
      state := Loading(id, runner, wire, f, if hit.Some? then 0 else CYCLES_MEMORY_ACCESS - 1, addrs, hit);
      ok := true;
    }

    method PrepareRun(labels: map<string, Word>, cycle: int, id: nat, runner: RunnerPc, wire: Wire) returns (ok: bool)
      requires Valid()
      modifies this, heap`channels, outBus`buffer, mmu.l1d
      ensures Valid()
      ensures var r := OutOfOrder.PrepareRun(labels, cycle, ctx.registers, id, runner, wire, old(SharedView()));
              ok == r.Some? && (ok ==> r.value == (state, SharedView()))
    {
      hide OutOfOrder.Start;
      ok := true;
      if !outBus.View().CanAdd(BUS_LENGTH) {
        state := Preparing(id, runner, wire);
        return;
      }
      var f := NO_FORWARD;
      if wire.receiver.Some? {
        var k := wire.receiver.value;
        if k >= |heap.channels| || heap.channels[k].value.None? {
          state := Preparing(id, runner, wire);
          return;
        }
        f := Forward(wire.register, heap.channels[k].value.value);
        heap.channels := heap.channels[k := heap.channels[k].(value := None)];
      }
      ok := Begin(labels, cycle, id, runner, wire, f);
    }

    /** A load that still waits, or whose wait is over. */
    method ContinueLoad(labels: map<string, Word>, cycle: int) returns (ok: bool)
      requires Valid() && state.Loading?
      modifies this, heap`channels, outBus`buffer, mmu.l1d, ctx.memory
      ensures Valid()
      ensures var r := EuCycle(labels, cycle, heap.issued, heap.wires, ctx.registers, old(state), old(SharedView()));
              ok == r.Some? && (ok ==> r.value == (state, SharedView()))
    {
      hide OutOfOrder.Finish, LoadMiss;
      if state.remaining > 0 {
        state := state.(remaining := state.remaining - 1);
        return true;
      }
      var eu := state;
      var bytes := eu.hit;
      if bytes.None? {
        if eu.addrs == [] {
          return false;
        }
        bytes := mmu.FetchAndRead(eu.addrs);
        if bytes.None? {
          return false;
        }
      }
      ok := Run(labels, cycle, eu.id, eu.runner, eu.wire, eu.forward, bytes.value);
    }

    method Cycle(labels: map<string, Word>, cycle: int) returns (ok: bool)
      requires Valid()
      modifies this, heap`channels, inBus`queue, outBus`buffer, mmu.l1d, ctx.memory
      ensures Valid() && |inBus.queue| <= |old(inBus.queue)|
      ensures var r := EuCycle(labels, cycle, heap.issued, heap.wires, ctx.registers, old(state), old(SharedView()));
              ok == r.Some? && (ok ==> r.value == (state, SharedView()))
    {
      hide OutOfOrder.PrepareRun, OutOfOrder.Finish, LoadMiss;
      match state
      case Loading(_, _, _, _, _, _, _) =>
        ok := ContinueLoad(labels, cycle);
      case Preparing(id, runner, wire) =>
        ok := PrepareRun(labels, cycle, id, runner, wire);
      case Idle =>
        var id := inBus.Get();
        if id.None? {
          return true;
        }
        if id.value >= |heap.issued| || id.value >= |heap.wires| {
          return false;
        }
        ok := PrepareRun(labels, cycle, id.value, heap.issued[id.value], heap.wires[id.value]);
    }
  }

  // ---------------------------------------------------------------- write back

  class WriteUnit {
    const ctx: Context
    const inBus: TimedBus<Done>

    constructor (ctx: Context, inBus: TimedBus<Done>)
      ensures this.ctx == ctx && this.inBus == inBus
    {
      this.ctx, this.inBus := ctx, inBus;
    }

    method Cycle()
      modifies ctx`registers, ctx`pendingReads, ctx`pendingWrites, inBus`queue
      ensures |inBus.queue| <= |old(inBus.queue)|
      ensures (ctx.registers, ctx.View(), inBus.View())
              == WuCycle(old(ctx.registers), old(ctx.View()), old(inBus.View()))
    {
      var d := inBus.Get();
      if d.None? {
        return;
      }
      if d.value.exe.registerChange {
        ctx.WriteRegister(d.value.exe);
      }
      ctx.DeletePendingRegisters(ReadRegisters(d.value.instr), WriteRegisters(d.value.instr));
    }
  }

  // ---------------------------------------------------------------- the core

  class Core {
    const ctx: Context
    const heap: Heap
    const mmu: MemoryManagementUnit
    const controlBus: TimedBus<RunnerPc>
    const executeBus: TimedBus<nat>
    const writeBus: TimedBus<Done>
    const controlUnit: ControlUnit
    const first: ExecuteUnit
    const second: ExecuteUnit
    const writeUnits: (WriteUnit, WriteUnit)

    predicate Valid()
      reads this, heap, mmu, mmu.l1i, mmu.l1d, controlBus, executeBus, writeBus, controlUnit, first, second
    {
      var a: object, b: object, c: object := controlBus, executeBus, writeBus;
      && a != b && b != c && a != c && first != second
      && controlUnit.ctx == ctx && controlUnit.heap == heap && controlUnit.inBus == controlBus
      && controlUnit.outBus == executeBus
      && first.ctx == ctx && first.heap == heap && first.mmu == mmu && first.inBus == executeBus
      && first.outBus == writeBus
      && second.ctx == ctx && second.heap == heap && second.mmu == mmu && second.inBus == executeBus
      && second.outBus == writeBus
      && writeUnits.0.ctx == ctx && writeUnits.0.inBus == writeBus && writeUnits.1.ctx == ctx
      && writeUnits.1.inBus == writeBus
      && controlUnit.Valid() && first.Valid() && second.Valid()
      && |controlBus.queue| <= controlBus.queueLength == BUS_LENGTH
      && |executeBus.queue| <= executeBus.queueLength == BUS_LENGTH
      && |writeBus.queue| <= writeBus.queueLength == BUS_LENGTH
    }

    ghost function View(): OutOfOrder.Core
      reads this, ctx, ctx.memory, heap, mmu, mmu.l1d, controlBus, executeBus, writeBus, controlUnit, controlUnit.ctx,
            controlUnit.heap, controlUnit.inBus, controlUnit.outBus, first, second
    {
      OutOfOrder.Core(controlUnit.View(), first.state, second.state, writeBus.View(), ctx.registers, mmu.l1d.lines,
                      ctx.memory[..])
    }

    constructor (v: Version, memoryBytes: nat)
      ensures Valid() && controlUnit.v == v
      ensures fresh(ctx) && fresh(ctx.memory) && fresh(heap) && fresh(mmu) && fresh(mmu.l1i) && fresh(mmu.l1d)
      ensures fresh(controlBus) && fresh(executeBus) && fresh(writeBus) && fresh(controlUnit) && fresh(first)
              && fresh(second)
      ensures View().regs == map[] && View().memory == seq(memoryBytes, _ => 0) && View().lines == []
      ensures View().unit == Unit(Buffered.Bus([], []), [], [],
                                  Control.Issue(Buffered.Bus([], []), Board(map[], map[]), [], [], [], 0))
      ensures View().eu0 == Idle && View().eu1 == Idle && View().out == Buffered.Bus([], [])
    {
      var context := new Context(memoryBytes);
      var objects := new Heap();
      var unit := new MemoryManagementUnit(context, CYCLES_MEMORY_ACCESS);
      var toControl := new TimedBus<RunnerPc>(BUS_LENGTH, BUS_LENGTH);
      var toExecute := new TimedBus<nat>(BUS_LENGTH, BUS_LENGTH);
      var toWrite := new TimedBus<Done>(BUS_LENGTH, BUS_LENGTH);
      ctx, heap, mmu, controlBus, executeBus, writeBus := context, objects, unit, toControl, toExecute, toWrite;
      controlUnit := new ControlUnit(v, context, objects, toControl, toExecute);
      first := new ExecuteUnit(context, objects, unit, toExecute, toWrite);
      second := new ExecuteUnit(context, objects, unit, toExecute, toWrite);
      var wu0 := new WriteUnit(context, toWrite);
      var wu1 := new WriteUnit(context, toWrite);
      writeUnits := (wu0, wu1);
    }

    method ConnectBuses(cycle: int)
      requires Valid()
      modifies controlBus, executeBus, writeBus
      ensures Valid()
      ensures controlBus.View() == old(controlBus.View()).Connect(BUS_LENGTH, cycle)
      ensures executeBus.View() == old(executeBus.View()).Connect(BUS_LENGTH, cycle)
      ensures writeBus.View() == old(writeBus.View()).Connect(BUS_LENGTH, cycle)
    {
      Buffered.ConnectContents(controlBus.View(), BUS_LENGTH, cycle);
      Buffered.ConnectContents(executeBus.View(), BUS_LENGTH, cycle);
      Buffered.ConnectContents(writeBus.View(), BUS_LENGTH, cycle);
      hide Buffered.Values, Buffered.Moved;
      controlBus.Connect(cycle);
      executeBus.Connect(cycle);
      writeBus.Connect(cycle);
    }

    /** What the decode unit delivers. */
    method Deliver(cycle: int, fed: seq<RunnerPc>)
      requires Valid()
      modifies controlBus`buffer
      ensures Valid() && controlBus.View() == Buffered.AddAll(old(controlBus.View()), fed, cycle)
    {
      var k := 0;
      assert fed[0..] == fed;
      while k < |fed|
        invariant k <= |fed|
        invariant Buffered.AddAll(controlBus.View(), fed[k..], cycle)
                  == Buffered.AddAll(old(controlBus.View()), fed, cycle)
      {
        assert fed[k..][0] == fed[k] && fed[k..][1..] == fed[k + 1..];
        controlBus.Add(fed[k], cycle);
        k := k + 1;
      }
      assert fed[|fed|..] == [];
    }

    /** The buses, before the control unit has its cycle. */
    method Arrive(cycle: int, fed: seq<RunnerPc>)
      requires Valid()
      modifies controlBus, executeBus, writeBus
      ensures Valid()
      ensures controlUnit.View() == Arrived(old(controlUnit.View()), cycle, fed)
      ensures writeBus.View() == old(writeBus.View()).Connect(BUS_LENGTH, cycle)
    {
      hide Buffered.AddAll, Buffered.Bus.Connect;
      ConnectBuses(cycle);
      Deliver(cycle, fed);
    }

    /** Connects the buses, takes what the decode unit delivers, and issues. */
    method Issue(cycle: int, fed: seq<RunnerPc>)
      requires Valid()
      modifies ctx`pendingReads, ctx`pendingWrites, heap, controlBus, executeBus, writeBus, controlUnit
      ensures Valid() && View() == IssueStage(controlUnit.v, cycle, old(View()), fed)
    {
      hide Control.Cycle, Buffered.Bus.Connect;
      Arrive(cycle, fed);
      controlUnit.Cycle(cycle);
    }

    method Execute(labels: map<string, Word>, cycle: int) returns (ok: bool)
      requires Valid()
      modifies heap`channels, executeBus`queue, writeBus`buffer, mmu.l1d, ctx.memory, first, second
      ensures Valid()
      ensures var r := ExecuteStage(labels, cycle, old(View())); ok == r.Some? && (ok ==> View() == r.value)
    {
      hide EuCycle;
      ghost var s := SharedOf(View());
      ok := first.Cycle(labels, cycle);
      if ok {
        ok := second.Cycle(labels, cycle);
      }
    }

    method WriteBack()
      requires Valid()
      modifies ctx`registers, ctx`pendingReads, ctx`pendingWrites, writeBus`queue
      ensures Valid() && View() == WriteOnce(WriteOnce(old(View())))
    {
      hide WuCycle;
      writeUnits.0.Cycle();
      ghost var between := View();
      assert between == WriteOnce(old(View()));
      writeUnits.1.Cycle();
    }

    /** One cycle, in which the decode unit delivers `fed`. `ok` is false where the source stops or the model ends. */
    method Cycle(labels: map<string, Word>, cycle: int, fed: seq<RunnerPc>) returns (ok: bool)
      requires Valid()
      modifies ctx, ctx.memory, heap, mmu.l1d, controlBus, executeBus, writeBus, controlUnit, first, second
      ensures Valid()
      ensures var r := CoreCycle(controlUnit.v, labels, cycle, old(View()), fed);
              ok == r.Some? && (ok ==> View() == r.value)
    {
      hide IssueStage, ExecuteStage, WriteOnce;
      Issue(cycle, fed);
      ok := Execute(labels, cycle);
      if ok {
        WriteBack();
      }
    }
  }
}
