/** What every cycle of MVP-4 and MVP-5 keeps, relative to the sequential core they refine. */
module PipelineInvariant {
  import opened Words
  import opened Isa
  import opened Cache
  import opened Mmu
  import opened Sequential
  import opened Pipeline
  import opened Draining

  ghost predicate Runnable(app: App) { 0 < |app.code| < 0x2000_0000 }

  // ---------------------------------------------------------------- registers, memory, scoreboard

  /** The registers once the queued writes have retired, oldest first. */
  function Settled(regs: Regs, bus: Bus<WriteEntry>): Regs {
    var regs1 := if bus.current.Some? then Retire(regs, bus.current.value) else regs;
    if bus.pending.Some? then Retire(regs1, bus.pending.value) else regs1
  }

  /** Memory once a queued entry has been written. */
  function Landed(memory: Memory, w: WriteEntry): (m: Memory)
    ensures |m| == |memory|
  {
    if WritesMemory(w) then WriteTruncated(memory, w.exe.address, w.exe.data) else memory
  }

  function SettledMemory(memory: Memory, bus: Bus<WriteEntry>): (m: Memory)
    ensures |m| == |memory|
  {
    var memory1 := if bus.current.Some? then Landed(memory, bus.current.value) else memory;
    if bus.pending.Some? then Landed(memory1, bus.pending.value) else memory1
  }

  function WritersOf(bus: Bus<WriteEntry>, r: Reg): nat {
    (if bus.current.Some? && r in bus.current.value.writes then 1 else 0)
    + (if bus.pending.Some? && r in bus.pending.value.writes then 1 else 0)
  }

  /** What instructions queue: a write to the register they declare, or lh's, which declares none, or bytes inside
      memory. */
  ghost predicate Proper(w: WriteEntry, size: nat) {
    && (if w.exe.registerChange then w.exe.data == []
        && (w.writes == [w.exe.register] || w.writes == []) else w.writes == [])
    && (w.exe.data != [] ==> 0 <= w.exe.address && w.exe.address + |w.exe.data| <= size)
  }

  ghost predicate ProperBus(bus: Bus<WriteEntry>, size: nat) {
    && (bus.current.Some? ==> Proper(bus.current.value, size))
    && (bus.pending.Some? ==> Proper(bus.pending.value, size))
  }

  /** Once the queue has retired every register reads as in the reference, and the pending counts are those of the
      queue. */
  ghost predicate Registers(regs: Regs, pending: Pending, wbus: Bus<WriteEntry>, refRegs: Regs, size: nat) {
    && ProperBus(wbus, size)
    && SameRegs(Settled(regs, wbus), refRegs)
    && forall r: Reg :: r != ZERO ==> Count(pending, r) == WritersOf(wbus, r)
  }

  /** The L1D while a load waits: it has been asked once for the addresses. */
  ghost predicate ReadStarted(eu: ExecuteState, l1d: seq<Line>, ref: Cached) {
    && eu.runner.Some?
    && eu.runner.value.instr.Load?
    && var addrs := MemoryRead(eu.runner.value.instr, NO_FORWARD, ref.regs);
    && (eu.memory, l1d) == GetAll(ref.lines, addrs)
    && (eu.memory.None? ==> eu.addrs == addrs)
  }

  ghost predicate Storage(eu: ExecuteState, l1d: seq<Line>, memory: Memory, wbus: Bus<WriteEntry>, ref: Cached) {
    && SettledMemory(memory, wbus) == ref.memory
    && (if eu.pendingRead then ReadStarted(eu, l1d, ref) else l1d == ref.lines)
  }

  // ---------------------------------------------------------------- instructions in flight

  /** The instruction at pc. Go divides towards zero, so program counters -3 to -1 name the first instruction. */
  ghost predicate Placed(app: App, r: RunnerPc, pc: int) {
    r.pc == pc && 0 <= Index(r.pc) < |app.code| && r.instr == app.code[Index(r.pc)]
  }

  function One<T>(o: Option<T>): nat { if o.Some? then 1 else 0 }

  /** The instruction in the execute unit. */
  function Running(eu: ExecuteState): Option<RunnerPc> { if eu.processing then eu.runner else None }

  function Decoded(eu: ExecuteState, xbus: Bus<RunnerPc>): nat {
    One(Running(eu)) + One(xbus.current) + One(xbus.pending)
  }

  ghost predicate IsJump(r: Option<RunnerPc>) { r.Some? && IsUnconditionalBranch(r.value.instr) }

  /** In MVP-5 a jump is the youngest instruction past the decode unit, which waits for it. */
  ghost predicate JumpsBlock(eu: ExecuteState, xbus: Bus<RunnerPc>, blocked: bool) {
    && (IsJump(Running(eu)) ==> xbus.IsEmpty())
    && (IsJump(xbus.current) ==> xbus.pending.None?)
    && (blocked <==> IsJump(Running(eu)) || IsJump(xbus.current) || IsJump(xbus.pending))
  }

  /** The instructions past the decode unit are those at the reference's program counter and on. */
  ghost predicate Downstream(v: Variant, app: App, eu: ExecuteState, xbus: Bus<RunnerPc>, blocked: bool, pc: int) {
    && (eu.processing ==> eu.runner.Some?)
    && (Running(eu).Some? ==> Placed(app, Running(eu).value, pc))
    && (xbus.current.Some? ==> Placed(app, xbus.current.value, pc + 4 * One(Running(eu))))
    && (xbus.pending.Some? ==> Placed(app, xbus.pending.value, pc + 4 * (One(Running(eu)) + One(xbus.current))))
    && (if v == Mvp5 then JumpsBlock(eu, xbus, blocked) else !blocked)
  }

  /** What the decode unit may still take from its bus. */
  function Fetched(fu: FetchState, dbus: Bus<Word>): Bus<Word> { if fu.toClean then Bus(None, None) else dbus }

  /** The bus to the decode unit and the fetch unit hold the program counters from `first` on. */
  ghost predicate Upstream(app: App, fu: FetchState, bus: Bus<Word>, first: int) {
    && (bus.current.Some? ==> bus.current.value == first < 4 * |app.code|)
    && (bus.pending.Some? ==> bus.pending.value == first + 4 * One(bus.current) < 4 * |app.code|)
    && fu.pc == first + 4 * (One(bus.current) + One(bus.pending)) <= 4 * |app.code| + 3
    && (fu.complete <==> fu.pc >= 4 * |app.code|)
  }

  /** While the decode unit waits for a jump, what is fetched does not matter. */
  ghost predicate Chain(v: Variant, app: App, s: Cpu, pc: int) {
    && Downstream(v, app, s.eu, s.xbus, s.blocked, pc)
    && (!s.blocked ==> Upstream(app, s.fu, Fetched(s.fu, s.dbus), pc + 4 * Decoded(s.eu, s.xbus)))
    && (!s.blocked && s.fu.toClean ==> v == Mvp5 && Decoded(s.eu, s.xbus) == 0)
  }

  /** Countdowns stay where the units can finish them. */
  ghost predicate FetchTimer(fu: FetchState) { fu.processing ==> 1 <= fu.remaining <= 50 }

  ghost predicate ExecuteTimer(eu: ExecuteState) {
    && (eu.processing ==> 1 <= eu.remaining <= 50)
    && (eu.pendingRead ==> eu.processing)
    && (eu.memory.Some? ==> eu.pendingRead)
  }

  ghost predicate WriteTimer(wu: WriteState) { wu.pendingWrite ==> 1 <= wu.cycles <= 50 }

  /** While a load waits nothing is queued behind the entry to be written next. */
  ghost predicate Inv(v: Variant, app: App, s: Cpu, ref: Cached) {
    && Runnable(app)
    && Registers(s.regs, s.pending, s.wbus, ref.regs, |s.memory|)
    && Storage(s.eu, s.l1d, s.memory, s.wbus, ref)
    && Chain(v, app, s, ref.pc)
    && FetchTimer(s.fu) && ExecuteTimer(s.eu) && WriteTimer(s.wu)
    && (s.eu.pendingRead ==> s.wbus.pending.None?)
  }

  // ---------------------------------------------------------------- progress

  function FetchDistance(fu: FetchState, bus: Bus<Word>): nat
    requires FetchTimer(fu)
  {
    if bus.current.Some? then 104
    else if bus.pending.Some? then 105
    else if fu.complete then 0
    else 105 + if fu.processing then fu.remaining else 51
  }

  /** How far the oldest instruction in flight is from running. */
  function Distance(s: Cpu): (d: nat)
    requires FetchTimer(s.fu) && ExecuteTimer(s.eu)
    ensures d <= 156
  {
    if s.eu.processing then (if s.eu.pendingRead then s.eu.remaining else 51 + s.eu.remaining)
    else if s.xbus.current.Some? then 102
    else if s.xbus.pending.Some? then 103
    else FetchDistance(s.fu, Fetched(s.fu, s.dbus))
  }

  function CostOfEntry(w: Option<WriteEntry>): nat { if w.Some? then CostOf(w.value) else 0 }

  /** The cycles until the write bus is empty and the write unit idle. */
  function Backlog(wu: WriteState, wbus: Bus<WriteEntry>): nat
    requires WriteTimer(wu)
  {
    (if wu.pendingWrite then wu.cycles else 0)
    + (if wbus.current.None? && wbus.pending.Some? then 1 else 0)
    + CostOfEntry(wbus.current) + CostOfEntry(wbus.pending)
  }

  /** Every turn without an instruction brings this down. */
  function Rank(s: Cpu): nat
    requires FetchTimer(s.fu) && ExecuteTimer(s.eu) && WriteTimer(s.wu)
  {
    Distance(s) + Backlog(s.wu, s.wbus)
  }
}
