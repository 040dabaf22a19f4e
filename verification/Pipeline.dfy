/** One cycle of the pipelined cores MVP-4 and MVP-5 as a function of their state (proc/mvp4, proc/mvp5).
    The two packages share every unit except the places that branch on `Variant` below. */
module Pipeline {
  import opened Words
  import opened Isa
  import opened Cache
  import opened Mmu
  import opened Sequential

  datatype Variant = Mvp4 | Mvp5

  // ---------------------------------------------------------------- buses (proc/comp/bus.go)

  datatype Bus<+T> = Bus(current: Option<T>, pending: Option<T>) {
    /** Taking the current entry moves the pending one up, even when there was nothing to take. */
    function Shift(): Bus<T> { Bus(pending, None) }

    predicate IsEmpty() { current.None? && pending.None? }

    function Contents(): seq<T> {
      (if current.Some? then [current.value] else []) + (if pending.Some? then [pending.value] else [])
    }
  }

  // ---------------------------------------------------------------- pending writes (risc/app.go)

  type Pending = map<Reg, int>

  function Count(p: Pending, r: Reg): int { if r in p then p[r] else 0 }

  function AddAll(p: Pending, rs: seq<Reg>): Pending
    decreases |rs|
  {
    if rs == [] then p else AddAll(p[rs[0] := Count(p, rs[0]) + 1], rs[1..])
  }

  function SubAll(p: Pending, rs: seq<Reg>): Pending
    decreases |rs|
  {
    if rs == [] then p else SubAll(p[rs[0] := Count(p, rs[0]) - 1], rs[1..])
  }

  predicate IsWriteHazard(p: Pending, rs: seq<Reg>) {
    exists k :: 0 <= k < |rs| && rs[k] != ZERO && Count(p, rs[k]) > 0
  }

  // ---------------------------------------------------------------- state

  datatype RunnerPc = RunnerPc(instr: Instr, pc: Word)

  datatype FetchState = FetchState(pc: Word, remaining: int, complete: bool, processing: bool, toClean: bool)

  datatype ExecuteState = ExecuteState(
    processing: bool,
    remaining: int,
    pendingRead: bool,
    addrs: seq<Word>,
    memory: Option<seq<Byte>>,
    runner: Option<RunnerPc>)

  datatype WriteState = WriteState(pendingWrite: bool, cycles: int)

  datatype Target = Target(pc: Word, dest: Word)

  datatype BranchState = BranchState(toCheck: bool, expectation: Word, btb: seq<Target>)

  datatype Cpu = Cpu(
    fu: FetchState,
    dbus: Bus<Word>,
    blocked: bool,
    xbus: Bus<RunnerPc>,
    eu: ExecuteState,
    wbus: Bus<WriteEntry>,
    wu: WriteState,
    bu: BranchState,
    regs: Regs,
    pending: Pending,
    memory: Memory,
    l1i: seq<Line>,
    l1d: seq<Line>)

  // ---------------------------------------------------------------- fetch

  function FetchCycle(app: App, fu: FetchState, l1i: seq<Line>, dbus: Bus<Word>): (FetchState, seq<Line>, Bus<Word>) {
    var bus := if fu.toClean then Bus(None, None) else dbus;
    var fu0 := fu.(toClean := false);
    if fu.complete then (fu0, l1i, bus) else
      var (fu1, l1i1) := StartFetch(fu0, l1i);
      if fu1.remaining != 1 then (fu1.(remaining := fu1.remaining - 1), l1i1, bus)
      else if bus.pending.Some? then (fu1, l1i1, bus)
      else
        var pc := Wrap(fu.pc + 4);
        (FetchState(pc, 0, Index(pc) >= |app.code|, false, false), l1i1, bus.(pending := Some(fu.pc)))
  }

  function StartFetch(fu: FetchState, l1i: seq<Line>): (FetchState, seq<Line>) {
    if fu.processing then (fu, l1i) else
    var (b, l1i1) := Get(l1i, fu.pc);
    if b.Some? then (fu.(processing := true, remaining := 1), l1i1)
    else (fu.(processing := true, remaining := CYCLES_MEMORY_ACCESS),
          Push(l1i1, NUMBER_OF_LINES, Line(fu.pc, Wrap(fu.pc + LINE_LENGTH), FetchLine([], 0))))
  }

  function Redirect(fu: FetchState, pc: Word): FetchState {
    fu.(complete := false, pc := pc, toClean := true)
  }

  // ---------------------------------------------------------------- decode

  /** None where the source indexes outside the program. */
  function DecodeCycle(v: Variant, app: App, blocked: bool, dbus: Bus<Word>, xbus: Bus<RunnerPc>):
    Option<(bool, Bus<Word>, Bus<RunnerPc>)>
  {
    if blocked || xbus.pending.Some? then Some((blocked, dbus, xbus)) else
    if dbus.current.None? then Some((blocked, dbus.Shift(), xbus)) else
      var pc := dbus.current.value;
      if !(0 <= Index(pc) < |app.code|) then None else
        var i := app.code[Index(pc)];
        Some((v == Mvp5 && IsUnconditionalBranch(i), dbus.Shift(), xbus.(pending := Some(RunnerPc(i, pc)))))
  }

  // ---------------------------------------------------------------- branches

  function Lookup(btb: seq<Target>, pc: Word): Option<Word> {
    if btb == [] then None else if btb[0].pc == pc then Some(btb[0].dest) else Lookup(btb[1..], pc)
  }

  const BTB_LENGTH := 4

  function Remember(btb: seq<Target>, pc: Word, dest: Word): seq<Target> {
    if exists k :: 0 <= k < |btb| && btb[k].pc == pc then Replace(btb, pc, dest)
    else if |btb| != BTB_LENGTH then btb + [Target(pc, dest)]
    else btb[1..] + [Target(pc, dest)]
  }

  function Replace(btb: seq<Target>, pc: Word, dest: Word): seq<Target> {
    if btb == [] then []
    else if btb[0].pc == pc then [Target(pc, dest)] + btb[1..]
    else [btb[0]] + Replace(btb[1..], pc, dest)
  }

  /** Before an instruction runs, the branch unit notes what it expects of it. */
  function AssertBranch(v: Variant, bu: BranchState, fu: FetchState, r: RunnerPc): (BranchState, FetchState) {
    if IsUnconditionalBranch(r.instr) then
      var known := if v == Mvp5 then Lookup(bu.btb, r.pc) else None;
      if known.Some? then (bu.(toCheck := false), Redirect(fu, known.value))
      else (bu.(toCheck := true, expectation := -1), fu)
    else if IsConditionalBranch(r.instr) then (bu.(toCheck := true, expectation := Wrap(r.pc + 4)), fu)
    else (if v == Mvp5 then bu.(toCheck := false) else bu, fu)
  }

  // ---------------------------------------------------------------- execute

  datatype Executed = Stalled | Ran | RanAndFlush(target: Word) | Stopped(stop: Stop)

  function ExecuteCycle(v: Variant, app: App, order: seq<Word>, s: Cpu): (Cpu, Executed) {
    if s.eu.pendingRead then
      if s.eu.remaining != 1 then (s.(eu := s.eu.(remaining := s.eu.remaining - 1)), Stalled)
      else FinishRead(v, app, order, s)
    else if s.eu.processing then Prepare(v, app, order, s)
    else if s.xbus.current.None? then (s.(xbus := s.xbus.Shift()), Stalled)
    else
      var r := s.xbus.current.value;
      Prepare(v, app, order, s.(
        xbus := s.xbus.Shift(),
        eu := s.eu.(runner := Some(r), remaining := Cycles(r.instr), processing := true)))
  }

  /** A load whose wait is over. */
  function FinishRead(v: Variant, app: App, order: seq<Word>, s: Cpu): (Cpu, Executed) {
    var s1 := s.(eu := s.eu.(remaining := 0, pendingRead := false));
    if s.eu.runner.None? || (s.eu.memory.None? && s.eu.addrs == []) then (s1, Stopped(Error(GoPanic))) else
      var l := if s.eu.memory.Some? then Some(Loaded(s.eu.memory.value, s.l1d, s.memory))
        else LoadMiss(s.l1d, s.memory, s.eu.addrs);
      if l.None? then (s1, Stopped(Error(BadAddress))) else
        var s2 := s1.(eu := s1.eu.(memory := None), l1d := l.value.lines, memory := l.value.memory);
        RunNow(v, app, order, s2, s.eu.runner.value, l.value.bytes)
  }

  /** The last cycle of an instruction: it waits for the write bus and for its operands, then runs or starts a load. */
  function Prepare(v: Variant, app: App, order: seq<Word>, s: Cpu): (Cpu, Executed) {
    if s.eu.remaining != 1 then (s.(eu := s.eu.(remaining := s.eu.remaining - 1)), Stalled)
    else if s.wbus.pending.Some? then (s, Stalled)
    else if s.eu.runner.None? then (s, Stopped(Error(GoPanic)))
    else
      var r := s.eu.runner.value;
      var (bu, fu) := AssertBranch(v, s.bu, s.fu, r);
      WhenReady(v, app, order, s.(bu := bu, fu := fu), r)
  }

  function WhenReady(v: Variant, app: App, order: seq<Word>, s: Cpu, r: RunnerPc): (Cpu, Executed) {
    if IsWriteHazard(s.pending, ReadRegisters(r.instr)) then (s, Stalled) else
      var addrs := MemoryRead(r.instr, NO_FORWARD, s.regs);
      if addrs == [] then RunNow(v, app, order, s.(eu := s.eu.(remaining := 0)), r, [])
      else (StartRead(s, addrs), Stalled)
  }

  function StartRead(s: Cpu, addrs: seq<Word>): Cpu {
    var (hit, l1d) := GetAll(s.l1d, addrs);
    s.(l1d := l1d,
       eu := if hit.Some? then s.eu.(memory := hit, pendingRead := true, remaining := 1)
             else s.eu.(addrs := addrs, pendingRead := true, remaining := CYCLES_MEMORY_ACCESS))
  }

  function RunNow(v: Variant, app: App, order: seq<Word>, s: Cpu, r: RunnerPc, bytes: seq<Byte>): (Cpu, Executed) {
    var s1 := s.(eu := s.eu.(runner := None));
    match Run(r.instr, NO_FORWARD, s.regs, app.labels, r.pc, bytes)
    case Fail(f) => (s1, Stopped(Error(f)))
    case Ok(e) =>
      var s2 := s1.(regs := DirectWrite(r.instr, s.regs, r.pc));
      if e.isReturn then (s2, Stopped(Return)) else Deliver(v, order, s2.(eu := s2.eu.(processing := false)), r, e)
  }

  /** A store that hits is done at once; everything else goes to the write bus. */
  function Deliver(v: Variant, order: seq<Word>, s: Cpu, r: RunnerPc, e: Execution): (Cpu, Executed) {
    if e.data == [] then Send(v, s, r, e) else
      var (hit, l1d) := LookUp(s.l1d, order, e);
      if hit.None? then Send(v, s.(l1d := l1d), r, e) else
        var w := WriteTo(l1d, e.address, e.data);
        if w.None? then (s.(l1d := l1d), Stopped(Error(BadAddress))) else (s.(l1d := w.value), Ran)
  }

  function Send(v: Variant, s: Cpu, r: RunnerPc, e: Execution): (Cpu, Executed) {
    var s1 := s.(wbus := s.wbus.(pending := Some(Entry(r.instr, e))),
                 pending := AddAll(s.pending, WriteRegisters(r.instr)));
    var s2 := if v == Mvp5 && IsUnconditionalBranch(r.instr) then Resolve(s1, r.pc, e.nextPc) else s1;
    if e.pcChange && s.bu.toCheck then
      (s2.(bu := s2.bu.(toCheck := false)), if s.bu.expectation != e.nextPc then RanAndFlush(e.nextPc) else Ran)
    else (s2, Ran)
  }

  function Resolve(s: Cpu, pc: Word, dest: Word): Cpu {
    s.(bu := s.bu.(btb := Remember(s.bu.btb, pc, dest)), fu := Redirect(s.fu, dest), blocked := false)
  }

  // ---------------------------------------------------------------- write back

  /** What the write unit works on. */
  datatype Retiring = Retiring(regs: Regs, pending: Pending, memory: Memory, wu: WriteState, wbus: Bus<WriteEntry>)

  /** None where the source panics. */
  function WriteCycle(s: Retiring): Option<Retiring> {
    if s.wu.pendingWrite then
      Some(s.(wu := WriteState(s.wu.cycles != 1, s.wu.cycles - 1)))
    else if s.wbus.current.None? then Some(s.(wbus := s.wbus.Shift()))
    else
      var w := s.wbus.current.value;
      var s1 := s.(wbus := s.wbus.Shift());
      if w.exe.registerChange then Some(s1.(regs := Retire(s.regs, w), pending := SubAll(s.pending, w.writes)))
      else if w.exe.data == [] then Some(s1)
      else
        var m := WriteMemory(s.memory, w.exe.address, w.exe.data);
        if m.None? then None else Some(s1.(memory := m.value, wu := WriteState(true, CYCLES_MEMORY_ACCESS)))
  }

  predicate Drained(s: Retiring) { !s.wu.pendingWrite && s.wbus.IsEmpty() }

  /** Write cycles still owed: what is left of the current memory write, and at most 51 for each queued entry. */
  function Owed(s: Retiring): nat {
    (if s.wu.pendingWrite then (if s.wu.cycles > 0 then s.wu.cycles else 0) else 0)
    + (if s.wbus.pending.Some? then 52 else 0) + (if s.wbus.current.Some? then 51 else 0)
  }

  /** The loop that a flush runs before it squashes anything, with the number of its turns. */
  function Drain(s: Retiring): (r: Option<(Retiring, nat)>)
    requires s.wu.pendingWrite ==> s.wu.cycles > 0
    ensures r.Some? ==> Drained(r.value.0)
    decreases Owed(s)
  {
    if Drained(s) then Some((s, 0)) else
      var s1 := WriteCycle(s);
      if s1.None? then None else
        var r := Drain(s1.value);
        if r.None? then None else Some((r.value.0, r.value.1 + 1))
  }

  // ---------------------------------------------------------------- the cycle

  function Retirement(s: Cpu): Retiring { Retiring(s.regs, s.pending, s.memory, s.wu, s.wbus) }

  function WithRetirement(s: Cpu, t: Retiring): Cpu {
    s.(regs := t.regs, pending := t.pending, memory := t.memory, wu := t.wu, wbus := t.wbus)
  }

  /** What a flush leaves: empty buses and scoreboard, and the fetch unit at the branch target. */
  function Flush(v: Variant, s: Cpu, target: Word): Cpu {
    s.(fu := s.fu.(processing := false, complete := false, pc := target),
       blocked := false,
       eu := if v == Mvp5 then s.eu.(processing := false, remaining := 0) else s.eu,
       dbus := Bus(None, None), xbus := Bus(None, None), wbus := Bus(None, None), pending := map[])
  }

  predicate IsComplete(s: Cpu) {
    s.fu.complete && !s.eu.processing && !s.wu.pendingWrite && s.dbus.IsEmpty() && s.xbus.IsEmpty() && s.wbus.IsEmpty()
  }

  /** One turn of the loop of `Run`: the cycles it took, whether an instruction ran, and why the loop ended. */
  datatype Turn = Turn(next: Cpu, cycles: nat, ran: bool, stop: Option<Stop>)

  function FetchDecode(v: Variant, app: App, s: Cpu): Option<Cpu> {
    var (fu, l1i, dbus) := FetchCycle(app, s.fu, s.l1i, s.dbus);
    var d := DecodeCycle(v, app, s.blocked, dbus, s.xbus);
    if d.None? then None
    else Some(s.(fu := fu, l1i := l1i, dbus := d.value.1, blocked := d.value.0, xbus := d.value.2))
  }

  function CycleOnce(v: Variant, app: App, order: seq<Word>, s: Cpu): Turn {
    var f := FetchDecode(v, app, s);
    if f.None? then Turn(s, 1, false, Some(Error(GoPanic))) else ExecuteAndWrite(v, app, order, f.value)
  }

  function ExecuteAndWrite(v: Variant, app: App, order: seq<Word>, s: Cpu): Turn {
    var (s2, x) := ExecuteCycle(v, app, order, s);
    if x.Stopped? && x.stop.Error? then Turn(s2, 1, false, Some(x.stop)) else WriteBackAndFinish(v, s2, x)
  }

  function WriteBackAndFinish(v: Variant, s: Cpu, x: Executed): Turn {
    var t := WriteCycle(Retirement(s));
    if t.None? then Turn(s, 1, false, Some(Error(BadAddress))) else AfterWrite(v, WithRetirement(s, t.value), x)
  }

  function AfterWrite(v: Variant, s: Cpu, x: Executed): Turn {
    match x
    case Stopped(stop) => Turn(s, 1, false, Some(stop))
    case RanAndFlush(target) =>
      if s.wu.pendingWrite && s.wu.cycles <= 0 then Turn(s, 1, true, Some(Error(GoPanic))) else
        var d := Drain(Retirement(s));
        if d.None? then Turn(s, 1, true, Some(Error(BadAddress)))
        else Turn(Flush(v, WithRetirement(s, d.value.0), target), 1 + d.value.1, true, None)
    case _ => Turn(s, 1, x.Ran?, if IsComplete(s) then Some(End) else None)
  }
}
