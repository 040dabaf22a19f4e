/** The units of MVP-4 and MVP-5 as objects that change in place (proc/mvp4, proc/mvp5), each held against the function
    of `Pipeline` that says what one of its cycles does. */
module PipelineUnits {
  import opened Words
  import opened Isa
  import opened Mmu
  import opened Sequential
  import opened Pipeline
  import opened Machine

  // ---------------------------------------------------------------- fetch

  class FetchUnit {
    const mmu: MemoryManagementUnit
    var pc: Word
    var remainingCycles: int
    var complete: bool
    var processing: bool
    var toCleanPending: bool

    function View(): FetchState
      reads this
    {
      FetchState(pc, remainingCycles, complete, processing, toCleanPending)
    }

    constructor (mmu: MemoryManagementUnit)
      ensures View() == FetchState(0, 0, false, false, false) && this.mmu == mmu
    {
      this.mmu := mmu;
      pc := 0;
      remainingCycles := 0;
      complete := false;
      processing := false;
      toCleanPending := false;
    }

    method Reset(pc: Word, cleanPending: bool)
      modifies this
      ensures View() == old(View()).(complete := false, pc := pc, toClean := cleanPending)
    {
      complete := false;
      this.pc := pc;
      toCleanPending := cleanPending;
    }

    method Cycle(app: App, outBus: SimpleBus<Word>)
      requires mmu.Valid()
      modifies this, mmu.l1i, outBus
      ensures mmu.Valid()
      ensures (View(), mmu.l1i.lines, outBus.View()) == FetchCycle(app, old(View()), old(mmu.l1i.lines),
                                                                   old(outBus.View()))
    {
      if toCleanPending {
        outBus.Clean();
        toCleanPending := false;
      }
      if complete {
        return;
      }
      if !processing {
        processing := true;
        var hit := mmu.GetFromL1I(pc);
        if hit {
          remainingCycles := 1;
        } else {
          remainingCycles := CYCLES_MEMORY_ACCESS;
          var line := seq(LINE_LENGTH, _ => 0);
          assert line == FetchLine([], 0);
          mmu.PushLineToL1I(pc, line);
        }
      }
      remainingCycles := remainingCycles - 1;
      if remainingCycles == 0 {
        if !outBus.CanAdd() {
          remainingCycles := 1;
          return;
        }
        processing := false;
        var currentPc := pc;
        pc := Wrap(pc + 4);
        if Index(pc) >= |app.code| {
          complete := true;
        }
        outBus.Add(currentPc);
      }
    }

    method Flush(pc: Word)
      modifies this
      ensures View() == old(View()).(processing := false, complete := false, pc := pc)
    {
      processing := false;
      complete := false;
      this.pc := pc;
    }
  }

  // ---------------------------------------------------------------- decode

  class DecodeUnit {
    const v: Variant
    var pendingBranchResolution: bool

    constructor (v: Variant)
      ensures !pendingBranchResolution && this.v == v
    {
      this.v := v;
      pendingBranchResolution := false;
    }

    /** `ok` is false where the source indexes outside the program. */
    method Cycle(app: App, inBus: SimpleBus<Word>, outBus: SimpleBus<RunnerPc>) returns (ok: bool)
      requires var a: object := inBus; a != outBus
      modifies this, inBus, outBus
      ensures var d := DecodeCycle(v, app, old(pendingBranchResolution), old(inBus.View()), old(outBus.View()));
              ok == d.Some? && (ok ==> d.value == (pendingBranchResolution, inBus.View(), outBus.View()))
    {
      ok := true;
      if pendingBranchResolution || !outBus.CanAdd() {
        return;
      }
      var pc := inBus.Get();
      if pc.None? {
        return;
      }
      if !(0 <= Index(pc.value) < |app.code|) {
        return false;
      }
      var i := app.code[Index(pc.value)];
      if v == Mvp5 && IsUnconditionalBranch(i) {
        pendingBranchResolution := true;
      }
      outBus.Add(RunnerPc(i, pc.value));
    }
  }

  // ---------------------------------------------------------------- branches

  class BranchTargetBuffer {
    var buffer: seq<Target>

    constructor ()
      ensures buffer == []
    {
      buffer := [];
    }

    method Add(pc: Word, dest: Word)
      modifies this
      ensures buffer == Remember(old(buffer), pc, dest)
    {
      var i := 0;
      while i < |buffer|
        invariant i <= |buffer| && buffer == old(buffer)
        invariant forall k :: 0 <= k < i ==> buffer[k].pc != pc
        invariant Replace(buffer, pc, dest) == buffer[..i] + Replace(buffer[i..], pc, dest)
      {
        if buffer[i].pc == pc {
          buffer := buffer[..i] + [Target(pc, dest)] + buffer[i + 1..];
          return;
        }
        i := i + 1;
      }
      if |buffer| != BTB_LENGTH {
        buffer := buffer + [Target(pc, dest)];
      } else {
        buffer := buffer[1..] + [Target(pc, dest)];
      }
    }

    method Get(pc: Word) returns (dest: Option<Word>)
      ensures dest == Lookup(buffer, pc)
    {
      var i := 0;
      while i < |buffer|
        invariant i <= |buffer| && Lookup(buffer, pc) == Lookup(buffer[i..], pc)
      {
        if buffer[i].pc == pc {
          return Some(buffer[i].dest);
        }
        i := i + 1;
      }
      return None;
    }
  }

  class BranchUnit {
    const v: Variant
    const btb: BranchTargetBuffer
    const fu: FetchUnit
    const du: DecodeUnit
    var toCheck: bool
    var expectation: Word

    function View(): BranchState
      reads this, btb
    {
      BranchState(toCheck, expectation, btb.buffer)
    }

    constructor (v: Variant, fu: FetchUnit, du: DecodeUnit)
      ensures View() == BranchState(false, 0, []) && this.v == v && this.fu == fu && this.du == du && fresh(btb)
    {
      this.v := v;
      this.fu := fu;
      this.du := du;
      btb := new BranchTargetBuffer();
      toCheck := false;
      expectation := 0;
    }

    method Assert(runner: RunnerPc)
      modifies this, fu
      ensures (View(), fu.View()) == AssertBranch(v, old(View()), old(fu.View()), runner)
    {
      if IsUnconditionalBranch(runner.instr) {
        var known := None;
        if v == Mvp5 {
          known := btb.Get(runner.pc);
        }
        if known.None? {
          toCheck := true;
          expectation := -1;
        } else {
          toCheck := false;
          fu.Reset(known.value, true);
        }
      } else if IsConditionalBranch(runner.instr) {
        toCheck := true;
        expectation := Wrap(runner.pc + 4);
      } else if v == Mvp5 {
        toCheck := false;
      }
    }

    method ShouldFlushPipeline(pc: Word) returns (flush: bool)
      modifies this
      ensures flush == (old(toCheck) && expectation != pc)
      ensures !toCheck && expectation == old(expectation)
    {
      if !toCheck {
        return false;
      }
      toCheck := false;
      flush := expectation != pc;
    }

    method NotifyJumpAddressResolved(pc: Word, pcTo: Word)
      modifies this, btb, fu, du
      ensures View() == old(View()).(btb := Remember(old(btb.buffer), pc, pcTo))
      ensures fu.View() == Redirect(old(fu.View()), pcTo) && !du.pendingBranchResolution
    {
      btb.Add(pc, pcTo);
      fu.Reset(pcTo, true);
      du.pendingBranchResolution := false;
    }
  }

  // ---------------------------------------------------------------- write back

  class WriteUnit {
    var pendingMemoryWrite: bool
    var cycles: int

    function View(): WriteState
      reads this
    {
      WriteState(pendingMemoryWrite, cycles)
    }

    constructor ()
      ensures !pendingMemoryWrite
    {
      pendingMemoryWrite := false;
      cycles := 0;
    }

    function Around(ctx: Context, inBus: SimpleBus<WriteEntry>): Retiring
      reads this, ctx, ctx.memory, inBus
    {
      Retiring(ctx.registers, ctx.pendingWrites, ctx.memory[..], View(), inBus.View())
    }

    /** `ok` is false where the source panics. */
    method Cycle(ctx: Context, inBus: SimpleBus<WriteEntry>) returns (ok: bool)
      modifies this, ctx`registers, ctx`pendingWrites, ctx.memory, inBus
      ensures var t := WriteCycle(old(Around(ctx, inBus)));
              ok == t.Some? && (ok ==> t.value == Around(ctx, inBus))
    {
      ok := true;
      if pendingMemoryWrite {
        cycles := cycles - 1;
        if cycles == 0 {
          pendingMemoryWrite := false;
        }
        return;
      }
      var w := inBus.Get();
      if w.None? {
        return;
      }
      if w.value.exe.registerChange {
        ctx.WriteRegister(w.value.exe);
        ctx.DeletePendingWriteRegisters(w.value.writes);
      } else if w.value.exe.data != [] {
        pendingMemoryWrite := true;
        cycles := CYCLES_MEMORY_ACCESS;
        ok := ctx.WriteMemory(w.value.exe);
      }
    }
  }
}
