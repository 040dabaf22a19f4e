/** The sequential cores: MVP-1 on flat memory (proc/mvp1/cpu.go) and MVP-3 behind its L1D (proc/mvp3/cpu.go).
    One step is one turn of the loop of `Run`, without MVP-1's restart through ra. */
module Sequential {
  import opened Words
  import opened Isa
  import opened Cache
  import opened Mmu

  /** An instruction as the write unit of MVP-4 and MVP-5 receives it. */
  datatype WriteEntry = WriteEntry(exe: Execution, writes: seq<Reg>)

  function Entry(i: Instr, e: Execution): WriteEntry { WriteEntry(e, WriteRegisters(i)) }

  /** The source deletes a register, not its pending count, when its value is not positive. */
  function DropNonPositive(regs: Regs, rs: seq<Reg>): Regs {
    if rs == [] then regs
    else DropNonPositive(if Read(regs, rs[0]) <= 0 then regs - {rs[0]} else regs, rs[1..])
  }

  function Retire(regs: Regs, w: WriteEntry): Regs {
    if w.exe.registerChange then DropNonPositive(regs[w.exe.register := w.exe.registerValue], w.writes) else regs
  }

  /** Plain is the write-back of MVP-1 to MVP-3, Dropping that of MVP-4 and MVP-5. */
  datatype WriteBack = Plain | Dropping

  function Written(mode: WriteBack, regs: Regs, i: Instr, e: Execution): Regs {
    match mode
    case Plain => if e.registerChange then regs[e.register := e.registerValue] else regs
    case Dropping => Retire(regs, Entry(i, e))
  }

  datatype Stop = End | Return | Error(fault: Fault)

  function NextPc(pc: Word, e: Execution): Word {
    if e.pcChange then e.nextPc else Wrap(pc + 4)
  }

  // ---------------------------------------------------------------- MVP-1: flat memory

  datatype Flat = Flat(regs: Regs, pc: Word, memory: Memory)
  datatype FlatStep = FlatNext(next: Flat) | FlatStop(stop: Stop)

  predicate InRange(memory: Memory, addrs: seq<Word>) {
    forall k :: 0 <= k < |addrs| ==> 0 <= addrs[k] < |memory|
  }

  function BytesAt(memory: Memory, addrs: seq<Word>): (bytes: seq<Byte>)
    requires InRange(memory, addrs)
    ensures |bytes| == |addrs|
    ensures forall k :: 0 <= k < |addrs| ==> bytes[k] == memory[addrs[k]]
  {
    seq(|addrs|, k requires 0 <= k < |addrs| => memory[addrs[k]])
  }

  function Step(mode: WriteBack, app: App, s: Flat): FlatStep {
    var at := Index(s.pc);
    if at >= |app.code| then FlatStop(End) else
    if at < 0 then FlatStop(Error(GoPanic)) else
      var i := app.code[at];
      var addrs := MemoryRead(i, NO_FORWARD, s.regs);
      if !InRange(s.memory, addrs) then FlatStop(Error(BadAddress))
      else FinishFlat(mode, app, s, i, BytesAt(s.memory, addrs))
  }

  function FinishFlat(mode: WriteBack, app: App, s: Flat, i: Instr, bytes: seq<Byte>): FlatStep {
    match Run(i, NO_FORWARD, s.regs, app.labels, s.pc, bytes)
    case Fail(f) => FlatStop(Error(f))
    case Ok(e) =>
      if e.isReturn then FlatStop(Return) else
        var regs := Written(mode, DirectWrite(i, s.regs, s.pc), i, e);
        if e.registerChange || e.data == [] then FlatNext(Flat(regs, NextPc(s.pc, e), s.memory)) else
          match WriteMemory(s.memory, e.address, e.data)
          case None => FlatStop(Error(BadAddress))
          case Some(m) => FlatNext(Flat(regs, NextPc(s.pc, e), m))
  }

  function StoreExecution(app: App, pc: Word, regs: Regs, i: Instr): Execution
    requires i.Store?
  {
    Run(i, NO_FORWARD, regs, app.labels, pc, []).value
  }

  lemma StoreOnFlat(mode: WriteBack, app: App, f: Flat, i: Instr)
    requires 0 <= Index(f.pc) < |app.code| && i == app.code[Index(f.pc)] && i.Store?
    ensures var e := StoreExecution(app, f.pc, f.regs, i);
            && e.data != []
            && Step(mode, app, f) == match WriteMemory(f.memory, e.address, e.data)
               case None => FlatStop(Error(BadAddress))
               case Some(m) => FlatNext(Flat(f.regs, Wrap(f.pc + 4), m))
  {
    assert Step(mode, app, f) == FinishFlat(mode, app, f, i, []);
    hide WriteMemory, StoredBytes, Step;
  }

  // ---------------------------------------------------------------- MVP-3: behind the L1D

  datatype Cached = Cached(regs: Regs, pc: Word, lines: seq<Line>, memory: Memory)
  datatype CachedStep = CachedNext(next: Cached) | CachedStop(stop: Stop)

  datatype Stored = Stored(hit: bool, lines: seq<Line>, memory: Memory)

  /** Asks the L1D for every address a store changes. */
  function LookUp(lines: seq<Line>, order: seq<Word>, e: Execution): (Option<seq<Byte>>, seq<Line>) {
    GetAll(lines, Arrange(order, Addresses(e.address, |e.data|)))
  }

  /** A store goes to the L1D when all its addresses are there, else to memory only. None where the source panics. */
  function StoreThrough(lines: seq<Line>, memory: Memory, order: seq<Word>, e: Execution): Option<Stored> {
    var (hit, lines1) := LookUp(lines, order, e);
    if hit.Some? then
      var w := WriteTo(lines1, e.address, e.data);
      if w.None? then None else Some(Stored(true, w.value, memory))
    else
      var m := WriteMemory(memory, e.address, e.data);
      if m.None? then None else Some(Stored(false, lines1, m.value))
  }

  function FetchOperands(lines: seq<Line>, memory: Memory, addrs: seq<Word>): Option<Loaded> {
    if addrs == [] then Some(Loaded([], lines, memory)) else LoadThrough(lines, memory, addrs)
  }

  /** `order` is the walk over the changed addresses that this step's store happens to use. */
  function StepCached(mode: WriteBack, app: App, order: seq<Word>, s: Cached): CachedStep {
    var at := Index(s.pc);
    if at >= |app.code| then CachedStop(End) else
    if at < 0 then CachedStop(Error(GoPanic)) else
      var i := app.code[at];
      match FetchOperands(s.lines, s.memory, MemoryRead(i, NO_FORWARD, s.regs))
      case None => CachedStop(Error(BadAddress))
      case Some(l) => Finish(mode, app, order, s, i, l)
  }

  function Finish(mode: WriteBack, app: App, order: seq<Word>, s: Cached, i: Instr, l: Loaded): CachedStep {
    match Run(i, NO_FORWARD, s.regs, app.labels, s.pc, l.bytes)
    case Fail(f) => CachedStop(Error(f))
    case Ok(e) =>
      if e.isReturn then CachedStop(Return) else
        var regs := Written(mode, DirectWrite(i, s.regs, s.pc), i, e);
        if e.registerChange || e.data == [] then CachedNext(Cached(regs, NextPc(s.pc, e), l.lines, l.memory)) else
          match StoreThrough(l.lines, l.memory, order, e)
          case None => CachedStop(Error(BadAddress))
          case Some(st) => CachedNext(Cached(regs, NextPc(s.pc, e), st.lines, st.memory))
  }

  // ---------------------------------------------------------------- whole runs

  /** MVP-1 after n instructions, if it gets that far. */
  function FlatAfter(mode: WriteBack, app: App, start: Flat, n: nat): Option<Flat> {
    if n == 0 then Some(start) else
      var before := FlatAfter(mode, app, start, n - 1);
      if before.None? then None else
        var step := Step(mode, app, before.value);
        if step.FlatNext? then Some(step.next) else None
  }

  /** MVP-3 after n instructions, if it gets that far; `orders(k)` is the walk that the k-th instruction's store
      uses. */
  function Reference(mode: WriteBack, app: App, orders: nat -> seq<Word>, start: Cached, n: nat): Option<Cached> {
    if n == 0 then Some(start) else
      var before := Reference(mode, app, orders, start, n - 1);
      if before.None? then None else
        var step := StepCached(mode, app, orders(n - 1), before.value);
        if step.CachedNext? then Some(step.next) else None
  }

  lemma {:induction false} ReferencePrefix(mode: WriteBack, app: App, orders: nat -> seq<Word>, start: Cached, m: nat,
                                           n: nat)
    requires m <= n && Reference(mode, app, orders, start, n).Some?
    ensures Reference(mode, app, orders, start, m).Some?
  {
    hide StepCached;
    if m < n { ReferencePrefix(mode, app, orders, start, m, n - 1); }
  }
}
