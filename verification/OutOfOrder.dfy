/** The dual-issue cores MVP-6.0 and MVP-6.1 between two flushes: control unit, two execute units, two write units
    (proc/mvp6-0, proc/mvp6-1). Branches, stores and ret are not part of this model, so nothing flushes. */
module OutOfOrder {
  import opened Words
  import opened Isa
  import opened Cache
  import opened Mmu
  import opened Pipeline
  import opened Scoreboard
  import opened Control
  import Buffered = BufferedBus

  /** An executed instruction on its way to the write units. */
  datatype Done = Done(id: nat, instr: Instr, exe: Execution)

  /** `Preparing` and `Loading` are the source's coroutines, with the variables they captured. */
  datatype Eu =
    | Idle
    | Preparing(id: nat, runner: RunnerPc, wire: Wire)
    | Loading(id: nat, runner: RunnerPc, wire: Wire, forward: Forward, remaining: int, addrs: seq<Word>,
              hit: Option<seq<Byte>>)

  /** What the execute units share. */
  datatype Shared = Shared(
    bus: Buffered.Bus<nat>,
    out: Buffered.Bus<Done>,
    channels: seq<Channel>,
    lines: seq<Line>,
    memory: Memory)

  datatype Core = Core(unit: Unit, eu0: Eu, eu1: Eu, out: Buffered.Bus<Done>, regs: Regs, lines: seq<Line>,
                       memory: Memory)

  // ---------------------------------------------------------------- execute

  /** None where the source panics, blocks for ever, or leaves this model. */
  function EuCycle(labels: map<string, Word>, cycle: int, issued: seq<RunnerPc>, wires: seq<Wire>, regs: Regs, eu: Eu,
                   s: Shared):
    Option<(Eu, Shared)>
  {
    match eu
    case Idle =>
      if s.bus.queue == [] then Some((eu, s)) else
        var id := s.bus.queue[0];
        if id >= |issued| || id >= |wires| then None
        else PrepareRun(labels, cycle, regs, id, issued[id], wires[id], s.(bus := s.bus.(queue := s.bus.queue[1..])))
    case Preparing(id, runner, wire) => PrepareRun(labels, cycle, regs, id, runner, wire, s)
    case Loading(id, runner, wire, forward, remaining, addrs, hit) =>
      if remaining > 0 then Some((eu.(remaining := remaining - 1), s))
      else if hit.Some? then Finish(labels, cycle, regs, id, runner, wire, forward, hit.value, s)
      else if addrs == [] then None
      else
        var l := LoadMiss(s.lines, s.memory, addrs);
        if l.None? then None
        else Finish(labels, cycle, regs, id, runner, wire, forward, l.value.bytes,
                    s.(lines := l.value.lines, memory := l.value.memory))
  }

  function PrepareRun(labels: map<string, Word>, cycle: int, regs: Regs, id: nat, runner: RunnerPc, wire: Wire,
                      s: Shared):
    Option<(Eu, Shared)>
  {
    if !s.out.CanAdd(BUS_LENGTH) then Some((Preparing(id, runner, wire), s)) else
    if wire.receiver.None? then Start(labels, cycle, regs, id, runner, wire, NO_FORWARD, s) else
      var k := wire.receiver.value;
      if k >= |s.channels| || s.channels[k].value.None? then Some((Preparing(id, runner, wire), s))
      else Start(labels, cycle, regs, id, runner, wire, Forward(wire.register, s.channels[k].value.value),
                 s.(channels := s.channels[k := s.channels[k].(value := None)]))
  }

  /** Runs at once, or starts a load that takes one cycle from the L1D and 50 from memory. */
  function Start(labels: map<string, Word>, cycle: int, regs: Regs, id: nat, runner: RunnerPc, wire: Wire, f: Forward,
                 s: Shared):
    Option<(Eu, Shared)>
  {
    var addrs := MemoryRead(runner.instr, f, regs);
    if addrs == [] then Finish(labels, cycle, regs, id, runner, wire, f, [], s) else
      var (hit, lines) := GetAll(s.lines, addrs);
      Some((Loading(id, runner, wire, f, if hit.Some? then 0 else CYCLES_MEMORY_ACCESS - 1, addrs, hit),
            s.(lines := lines)))
  }

  function Finish(labels: map<string, Word>, cycle: int, regs: Regs, id: nat, runner: RunnerPc, wire: Wire, f: Forward,
                  bytes: seq<Byte>, s: Shared): Option<(Eu, Shared)>
  {
    var r := Run(runner.instr, f, regs, labels, runner.pc, bytes);
    if r.Fail? || r.value.isReturn || r.value.data != [] || r.value.pcChange then None else
      var s1 := s.(out := Buffered.Add(s.out, Done(id, runner.instr, r.value), cycle));
      if wire.forwarder.None? then Some((Idle, s1)) else
        var channels := Fill(s.channels, wire.forwarder.value, r.value.registerValue);
        if channels.None? then None else Some((Idle, s1.(channels := channels.value)))
  }

  /** A channel holds one value: sending to a full one blocks. */
  function Fill(channels: seq<Channel>, k: nat, v: Word): Option<seq<Channel>> {
    if k >= |channels| || channels[k].value.Some? then None
    else Some(channels[k := channels[k].(value := Some(v))])
  }

  // ---------------------------------------------------------------- write back

  function WuCycle(regs: Regs, board: Board, out: Buffered.Bus<Done>): (Regs, Board, Buffered.Bus<Done>) {
    if out.queue == [] then (regs, board, out) else
      var d := out.queue[0];
      (if d.exe.registerChange then regs[d.exe.register := d.exe.registerValue] else regs,
       DeletePending(board, d.instr),
       out.(queue := out.queue[1..]))
  }

  // ---------------------------------------------------------------- the cycle

  function SharedOf(s: Core): Shared {
    Shared(s.unit.issue.bus, s.out, s.unit.issue.channels, s.lines, s.memory)
  }

  function WithShared(s: Core, t: Shared): Core {
    s.(unit := s.unit.(issue := s.unit.issue.(bus := t.bus, channels := t.channels)), out := t.out, lines := t.lines,
       memory := t.memory)
  }

  /** The control unit once its buses are connected and the decode unit has delivered. */
  function Arrived(u: Unit, cycle: int, fed: seq<RunnerPc>): Unit {
    u.(inBus := Buffered.AddAll(u.inBus.Connect(BUS_LENGTH, cycle), fed, cycle),
       issue := u.issue.(bus := u.issue.bus.Connect(BUS_LENGTH, cycle)))
  }

  /** The buses connect, the decode unit delivers, and the control unit issues. */
  function IssueStage(v: Version, cycle: int, s: Core, fed: seq<RunnerPc>): Core
    requires Valid(s.unit)
  {
    s.(unit := Control.Cycle(v, cycle, Arrived(s.unit, cycle, fed)), out := s.out.Connect(BUS_LENGTH, cycle))
  }

  function ExecuteStage(labels: map<string, Word>, cycle: int, s: Core): Option<Core> {
    var issue := s.unit.issue;
    var a := EuCycle(labels, cycle, issue.issued, issue.wires, s.regs, s.eu0, SharedOf(s));
    if a.None? then None else
      var b := EuCycle(labels, cycle, issue.issued, issue.wires, s.regs, s.eu1, a.value.1);
      if b.None? then None else Some(WithShared(s.(eu0 := a.value.0, eu1 := b.value.0), b.value.1))
  }

  function WriteOnce(s: Core): Core {
    var (regs, board, out) := WuCycle(s.regs, s.unit.issue.board, s.out);
    s.(regs := regs, out := out, unit := s.unit.(issue := s.unit.issue.(board := board)))
  }

  /** One cycle, in which the decode unit delivers `fed`. */
  function CoreCycle(v: Version, labels: map<string, Word>, cycle: int, s: Core, fed: seq<RunnerPc>): Option<Core>
    requires Valid(s.unit)
  {
    var e := ExecuteStage(labels, cycle, IssueStage(v, cycle, s, fed));
    if e.None? then None else Some(WriteOnce(WriteOnce(e.value)))
  }
}
