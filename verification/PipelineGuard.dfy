/** What MVP-4 and MVP-5 do not check: the conditions on their state under which a turn follows the sequential core. */
module PipelineGuard {
  import opened Words
  import opened Isa
  import opened Mmu
  import opened Sequential
  import opened Pipeline
  import opened PipelineInvariant

  /** The registers read hold what they will hold once the queued writes have retired. The scoreboard sees to that, but
      for the write of an lh, which it does not know of. */
  predicate OperandsSeen(regs: Regs, wbus: Bus<WriteEntry>, i: Instr) {
    forall k :: 0 <= k < |ReadRegisters(i)| && ReadRegisters(i)[k] != ZERO ==>
      Read(regs, ReadRegisters(i)[k]) == Read(Settled(regs, wbus), ReadRegisters(i)[k])
  }

  /** What its register reads as once an entry has retired. */
  function Kept(w: WriteEntry): Word {
    if w.exe.registerValue <= 0 && w.writes != [] then 0 else w.exe.registerValue
  }

  /** jal writes ra at once, before a queued write to it, which then wins unless jal names ra itself. */
  predicate RaInOrder(wbus: Bus<WriteEntry>, i: Instr, pc: Word) {
    i.Jal? && i.rd != RA && wbus.current.Some? && wbus.current.value.exe.registerChange
    && wbus.current.value.exe.register == RA ==>
      Kept(wbus.current.value) == pc
  }

  /** The instruction that comes out of the front end after a change of the program counter is the one it leads to:
      after a flush, or in MVP-5 a jump, the target, if that is not behind the program, and else the next one in memory.
      `bu` is what the branch unit notes of the instruction at hand; a bltu finds there what the last branch left. */
  predicate Lands(v: Variant, app: App, bu: BranchState, r: RunnerPc, e: Execution) {
    if (bu.toCheck && bu.expectation != e.nextPc) || (v == Mvp5 && IsUnconditionalBranch(r.instr))
    then e.nextPc < 4 * |app.code|
    else e.nextPc == r.pc + 4
  }

  /** ret ends the run after one more cycle of the write unit, so nothing that counts may wait behind a memory write. */
  ghost predicate NothingStuck(regs: Regs, memory: Memory, wbus: Bus<WriteEntry>, wu: WriteState) {
    wu.pendingWrite ==> SameRegs(Settled(regs, wbus), regs) && SettledMemory(memory, wbus) == memory
  }

  predicate Inside(memory: Memory, e: Execution) { 0 <= e.address && e.address + |e.data| <= |memory| }

  /** What an execution asks of the state, once the branch unit has noted the instruction. */
  ghost predicate Fits(v: Variant, app: App, order: seq<Word>, s: Cpu, r: RunnerPc, e: Execution) {
    && RaInOrder(s.wbus, r.instr, r.pc)
    && (e.isReturn ==> NothingStuck(s.regs, s.memory, s.wbus, s.wu))
    && (e.pcChange ==> Lands(v, app, s.bu, r, e))
    && (e.data != [] && LookUp(s.l1d, order, e).0.None? ==> Inside(s.memory, e))
  }

  ghost predicate ResultFits(v: Variant, app: App, order: seq<Word>, s: Cpu, r: RunnerPc, bytes: seq<Byte>) {
    var out := Run(r.instr, NO_FORWARD, s.regs, app.labels, r.pc, bytes);
    out.Ok? ==> Fits(v, app, order, s, r, out.value)
  }

  /** A line from memory misses the queued stores. */
  predicate LineIsCurrent(s: Cpu) {
    s.eu.memory.None? && s.eu.addrs != [] && LoadMiss(s.l1d, s.memory, s.eu.addrs).Some? ==>
      FetchLine(s.memory, s.eu.addrs[0]) == FetchLine(SettledMemory(s.memory, s.wbus), s.eu.addrs[0])
  }

  /** The instruction whose turn it is in the execute unit, with its remaining cycles. */
  function Oldest(s: Cpu): Option<(RunnerPc, int)> {
    if s.eu.processing then (if s.eu.runner.Some? then Some((s.eu.runner.value, s.eu.remaining)) else None)
    else if s.xbus.current.Some? then Some((s.xbus.current.value, Cycles(s.xbus.current.value.instr)))
    else None
  }

  /** It neither counts down, nor waits for the write bus, nor for a register. */
  predicate Proceeds(s: Cpu, r: RunnerPc, remaining: int) {
    remaining == 1 && s.wbus.pending.None? && !IsWriteHazard(s.pending, ReadRegisters(r.instr))
  }

  function Noted(v: Variant, s: Cpu, r: RunnerPc): Cpu { s.(bu := AssertBranch(v, s.bu, s.fu, r).0) }

  /** The condition on the state before a turn. It says nothing of turns in which no instruction gets on. */
  ghost predicate Guard(v: Variant, app: App, order: seq<Word>, s: Cpu) {
    if s.eu.pendingRead then s.eu.remaining == 1 ==> LineIsCurrent(s) else
      var o := Oldest(s);
      o.Some? && Proceeds(s, o.value.0, o.value.1) ==>
        && OperandsSeen(s.regs, s.wbus, o.value.0.instr)
        && (!o.value.0.instr.Load? ==> ResultFits(v, app, order, Noted(v, s, o.value.0), o.value.0, []))
  }
}
