/** MVP-1 and MVP-2, with their clocks and the restart through ra (proc/mvp1/cpu.go, proc/mvp2/cpu.go). */
module Lockstep {
  import opened Words
  import opened Isa
  import opened Mmu
  import opened Sequential

  datatype Model = Mvp1 | Mvp2

  /** MVP-2 keeps the window of addresses its L1I holds, both ends included; MVP-1 has none. */
  datatype Clocked = Clocked(flat: Flat, cycle: nat, from: Word, to: Word)

  const L1I_SIZE := 64

  function AccessCost(model: Model): nat { if model == Mvp1 then 50 else 51 }

  predicate Hits(s: Clocked) { s.from <= s.flat.pc <= s.to }

  function Fetched(model: Model, s: Clocked): Clocked {
    if model == Mvp1 then s.(cycle := s.cycle + 50)
    else if Hits(s) then s.(cycle := s.cycle + 1)
    else s.(cycle := s.cycle + 51, from := s.flat.pc, to := Wrap(s.flat.pc + L1I_SIZE))
  }

  /** The instruction at hand and its execution, where there is one. */
  datatype Doing = Doing(instr: Instr, reading: bool, exe: Execution)

  function Current(app: App, f: Flat): Result<Doing> {
    var at := Index(f.pc);
    if !(0 <= at < |app.code|) then Fail(GoPanic) else
      var i := app.code[at];
      var addrs := MemoryRead(i, NO_FORWARD, f.regs);
      if !InRange(f.memory, addrs) then Fail(BadAddress) else
        match Run(i, NO_FORWARD, f.regs, app.labels, f.pc, BytesAt(f.memory, addrs))
        case Fail(fault) => Fail(fault)
        case Ok(e) => Ok(Doing(i, addrs != [], e))
  }

  function ExecuteCost(model: Model, d: Doing): nat {
    1 + (if d.reading then AccessCost(model) else 0) + Cycles(d.instr)
  }

  function WriteCost(model: Model, e: Execution): nat {
    if e.registerChange then 1 else if e.data != [] then AccessCost(model) else 0
  }

  datatype Turn = Goes(next: Clocked) | Ends(last: Clocked) | Fails(fault: Fault)

  /** One turn of the loop, or the restart after it. */
  function TurnOf(model: Model, app: App, s: Clocked): Turn {
    if Index(s.flat.pc) >= |app.code| then
      if Read(s.flat.regs, RA) != 0 then Goes(s.(flat := Flat(s.flat.regs[RA := 0], 0, s.flat.memory))) else Ends(s)
    else
      match Current(app, s.flat)
      case Fail(fault) => Fails(fault)
      case Ok(d) =>
        var f := Fetched(model, s);
        var t := f.(cycle := f.cycle + ExecuteCost(model, d));
        match Step(Plain, app, s.flat)
        case FlatStop(Error(fault)) => Fails(fault)
        case FlatStop(_) => Ends(t)
        case FlatNext(next) => Goes(t.(flat := next, cycle := t.cycle + WriteCost(model, d.exe)))
  }

  /** What has been counted on the way. */
  datatype Tally = Tally(hits: nat, misses: nat, dataReads: nat, writes: nat)

  function Counted(app: App, s: Clocked, c: Tally): Tally {
    if Index(s.flat.pc) >= |app.code| then c else
      match Current(app, s.flat)
      case Fail(_) => c
      case Ok(d) =>
        var c1 := if Hits(s) then c.(hits := c.hits + 1) else c.(misses := c.misses + 1);
        var c2 := if d.reading then c1.(dataReads := c1.dataReads + 1) else c1;
        if !d.exe.isReturn && !d.exe.registerChange && d.exe.data != [] then c2.(writes := c2.writes + 1) else c2
  }

  // ---------------------------------------------------------------- lockstep

  datatype State = Running(s: Clocked) | Ended(s: Clocked) | Failed(fault: Fault)

  function StateAfter(model: Model, app: App, start: Clocked, turns: nat): State {
    if turns == 0 then Running(start) else
      match StateAfter(model, app, start, turns - 1)
      case Running(s) => (match TurnOf(model, app, s) case Goes(t) => Running(t) case Ends(t) =>
                            Ended(t) case Fails(f) => Failed(f))
      case other => other
  }

  function TallyAfter(app: App, start: Clocked, turns: nat): Tally {
    if turns == 0 then Tally(0, 0, 0, 0) else
      match StateAfter(Mvp2, app, start, turns - 1)
      case Running(s) => Counted(app, s, TallyAfter(app, start, turns - 1))
      case _ => TallyAfter(app, start, turns - 1)
  }

  /** Same registers, memory and program counter, and clocks apart by what the L1I saved and the accesses cost more. */
  ghost predicate InStep(a: Clocked, b: Clocked, c: Tally) {
    && a.flat == b.flat
    && b.cycle + 49 * c.hits == a.cycle + c.misses + c.dataReads + c.writes
  }

  ghost predicate StatesInStep(a: State, b: State, c: Tally) {
    match a
    case Running(s) => b.Running? && InStep(s, b.s, c)
    case Ended(s) => b.Ended? && InStep(s, b.s, c)
    case Failed(fault) => b == a
  }

  lemma TurnKeepsStep(app: App, a: Clocked, b: Clocked, c: Tally)
    requires InStep(a, b, c)
    ensures var c1 := Counted(app, b, c);
            match TurnOf(Mvp1, app, a)
            case Goes(s) => TurnOf(Mvp2, app, b).Goes? && InStep(s, TurnOf(Mvp2, app, b).next, c1)
            case Ends(s) => TurnOf(Mvp2, app, b).Ends? && InStep(s, TurnOf(Mvp2, app, b).last, c1)
            case Fails(fault) => TurnOf(Mvp2, app, b) == Fails(fault)
  {
    if Index(a.flat.pc) < |app.code| { StepFollowsCurrent(app, a.flat); }
    hide Step, Current, Index;
  }

  /** The step ends with a return exactly when the execution at hand is one. */
  lemma StepFollowsCurrent(app: App, f: Flat)
    requires Index(f.pc) < |app.code|
    ensures Current(app, f).Ok? && Current(app, f).value.exe.isReturn ==> Step(Plain, app, f) == FlatStop(Return)
    ensures Current(app, f).Ok? && !Current(app, f).value.exe.isReturn ==> Step(Plain, app, f) != FlatStop(Return)
    ensures Step(Plain, app, f) != FlatStop(End)
  {
    hide Run, MemoryRead, WriteMemory, Index;
  }

  /** Whatever the program, MVP-2 runs in step with MVP-1: c2 + 49 hits = c1 + misses + data reads + data writes. */
  lemma {:induction false} RunsInStep(app: App, a: Clocked, b: Clocked, turns: nat)
    requires a.flat == b.flat && a.cycle == b.cycle
    ensures StatesInStep(StateAfter(Mvp1, app, a, turns), StateAfter(Mvp2, app, b, turns), TallyAfter(app, b, turns))
  {
    hide TurnOf, Counted;
    if turns > 0 {
      RunsInStep(app, a, b, turns - 1);
      var s, t := StateAfter(Mvp1, app, a, turns - 1), StateAfter(Mvp2, app, b, turns - 1);
      if s.Running? { TurnKeepsStep(app, s.s, t.s, TallyAfter(app, b, turns - 1)); }
    }
  }

  /** A run that is over stays over. */
  lemma {:induction false} OverIsOver(model: Model, app: App, start: Clocked, m: nat, n: nat)
    requires m <= n && !StateAfter(model, app, start, m).Running?
    ensures StateAfter(model, app, start, n) == StateAfter(model, app, start, m)
  {
    hide TurnOf;
    if m < n { OverIsOver(model, app, start, m, n - 1); }
  }
}
