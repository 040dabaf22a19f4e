/** What the out-of-order cores keep, relative to executing the same instructions one after the other. */
module InFlight {
  import opened Words
  import opened Isa
  import opened Cache
  import opened Mmu
  import opened Pipeline
  import opened Scoreboard
  import opened Control
  import opened OutOfOrder
  import Sequential
  import Coherence
  import Buffered = BufferedBus

  // ---------------------------------------------------------------- the instructions, one after the other

  /** Register code: no branch, no store, no ret, and not lh. */
  predicate Simple(i: Instr) {
    i.AluRR? || i.AluRI? || i.Li? || i.Lui? || i.Auipc? || i.Mv? || i.Nop? || (i.Load? && i.width != TwoBytes)
  }

  function Outcome(labels: map<string, Word>, memory: Memory, regs: Regs, x: RunnerPc): Option<Execution> {
    var addrs := MemoryRead(x.instr, NO_FORWARD, regs);
    if !Sequential.InRange(memory, addrs) then None else
      match Run(x.instr, NO_FORWARD, regs, labels, x.pc, Sequential.BytesAt(memory, addrs))
      case Ok(e) => Some(e)
      case Fail(_) => None
  }

  /** A program and the registers before each of its instructions, and after the last. */
  datatype World = World(labels: map<string, Word>, memory: Memory, prog: seq<RunnerPc>, states: seq<Regs>)

  ghost predicate Sequentially(w: World) {
    && |w.states| == |w.prog| + 1
    && |w.memory| <= 0x8000_0000 - LINE_LENGTH
    && Read(w.states[0], ZERO) == 0
    && forall k :: 0 <= k < |w.prog| ==> Follows(w, k)
  }

  ghost predicate Follows(w: World, k: nat)
    requires |w.states| == |w.prog| + 1 && k < |w.prog|
  {
    && Simple(w.prog[k].instr)
    && var e := Outcome(w.labels, w.memory, w.states[k], w.prog[k]);
    && e.Some?
    && w.states[k + 1] == Sequential.Written(Sequential.Plain, w.states[k], w.prog[k].instr, e.value)
  }

  function Reads(w: World, id: nat): seq<Reg>
    requires id < |w.prog|
  {
    ReadRegisters(w.prog[id].instr)
  }

  function Writes(w: World, id: nat): seq<Reg>
    requires id < |w.prog|
  {
    WriteRegisters(w.prog[id].instr)
  }

  ghost function ExeOf(w: World, id: nat): Execution
    requires Sequentially(w) && id < |w.prog|
  {
    assert Follows(w, id);
    Outcome(w.labels, w.memory, w.states[id], w.prog[id]).value
  }

  lemma SequentiallySizes(w: World)
    requires Sequentially(w)
    ensures |w.states| == |w.prog| + 1
  {
  }

  /** What register code does: it changes at most the one register it declares, and register zero only to 0. */
  lemma SimpleExecution(i: Instr, f: Forward, regs: Regs, labels: map<string, Word>, pc: Word, bytes: seq<Byte>)
    requires Simple(i)
    ensures match Run(i, f, regs, labels, pc, bytes)
            case Fail(_) => true
            case Ok(e) =>
              && !e.isReturn && e.data == [] && !e.pcChange
              && WriteRegisters(i) == (if e.registerChange then [e.register] else [])
              && (e.registerChange && e.register == ZERO ==> e.registerValue == 0)
  {
  }

  /** A forwarded value stands in for what the register holds. */
  lemma ForwardIsOverlay(i: Instr, r: Reg, v: Word, regs: Regs, labels: map<string, Word>, pc: Word, bytes: seq<Byte>)
    requires r != ZERO && Read(regs, ZERO) == 0
    ensures Run(i, Forward(r, v), regs, labels, pc, bytes) == Run(i, NO_FORWARD, regs[r := v], labels, pc, bytes)
    ensures MemoryRead(i, Forward(r, v), regs) == MemoryRead(i, NO_FORWARD, regs[r := v])
  {
    hide Compute, Addresses;
  }

  lemma ExeShape(w: World, id: nat)
    requires Sequentially(w) && id < |w.prog|
    ensures var e := ExeOf(w, id);
            && !e.isReturn && e.data == [] && !e.pcChange
            && Writes(w, id) == (if e.registerChange then [e.register] else [])
            && (e.registerChange && e.register == ZERO ==> e.registerValue == 0)
            && w.states[id + 1] == (if e.registerChange then
                                      w.states[id][e.register := e.registerValue] else w.states[id])
  {
    assert Follows(w, id);
    var addrs := MemoryRead(w.prog[id].instr, NO_FORWARD, w.states[id]);
    SimpleExecution(w.prog[id].instr, NO_FORWARD, w.states[id], w.labels, w.prog[id].pc,
                    Sequential.BytesAt(w.memory, addrs));
  }

  lemma {:induction false} ZeroStays(w: World, k: nat)
    requires Sequentially(w) && k <= |w.prog|
    ensures Read(w.states[k], ZERO) == 0
  {
    if k > 0 {
      ZeroStays(w, k - 1);
      ExeShape(w, k - 1);
    }
  }

  /** A register that no instruction from a to b writes. */
  lemma {:induction false} Unwritten(w: World, a: nat, b: nat, r: Reg)
    requires Sequentially(w) && a <= b <= |w.prog|
    requires forall j :: a <= j < b ==> r !in Writes(w, j)
    ensures Read(w.states[a], r) == Read(w.states[b], r)
  {
    if a < b {
      Unwritten(w, a, b - 1, r);
      ExeShape(w, b - 1);
    }
  }

  // ---------------------------------------------------------------- hazards between instructions in flight

  /** The second instruction may follow the first before that retires, but for a read of r. */
  ghost predicate OnlyThrough(a: Instr, b: Instr, r: Reg) {
    forall q: Reg :: q != ZERO ==>
      && (q in WriteRegisters(a) ==> q !in WriteRegisters(b) && (q in ReadRegisters(b) ==> q == r))
      && (q in ReadRegisters(a) ==> q !in WriteRegisters(b))
  }

  /** The register that i hands over through this wire, or zero. */
  function Via(wire: Wire, channels: seq<Channel>, i: nat): Reg {
    var k := wire.receiver;
    if k.Some? && k.value < |channels| && channels[k.value].maker == i then channels[k.value].register else ZERO
  }

  /** No later instruction was issued over a hazard with one in flight, but for forwarded reads. */
  ghost predicate Ordered(w: World, wires: seq<Wire>, channels: seq<Channel>, flight: seq<nat>)
    requires |wires| <= |w.prog|
  {
    forall i, j :: i in flight && i < j < |wires| ==>
      OnlyThrough(w.prog[i].instr, w.prog[j].instr, Via(wires[j], channels, i))
  }

  // ---------------------------------------------------------------- values

  ghost predicate Unclaimed(w: World, flight: seq<nat>, r: Reg) {
    forall i :: i in flight && i < |w.prog| ==> r !in Writes(w, i)
  }

  /** A register that nothing in flight writes has its final value so far. */
  ghost predicate Settled(w: World, regs: Regs, n: nat, flight: seq<nat>)
    requires n < |w.states|
  {
    && Read(regs, ZERO) == 0
    && forall r: Reg :: r != ZERO && Unclaimed(w, flight, r) ==> Read(regs, r) == Read(w.states[n], r)
  }

  /** The registers this instruction is still to write hold what they held before it. */
  ghost predicate StillOld(w: World, regs: Regs, id: nat)
    requires id < |w.prog| && id < |w.states|
  {
    forall r: Reg :: r != ZERO && r in Writes(w, id) ==> Read(regs, r) == Read(w.states[id], r)
  }

  ghost predicate AllStillOld(w: World, regs: Regs, flight: seq<nat>) {
    forall i :: i in flight && i < |w.prog| && i < |w.states| ==> StillOld(w, regs, i)
  }

  function Received(channels: seq<Channel>, wire: Wire): Reg {
    if wire.receiver.Some? && wire.receiver.value < |channels| then channels[wire.receiver.value].register else ZERO
  }

  /** What an instruction reads from the registers is what it would read in program order. */
  ghost predicate Ready(w: World, regs: Regs, channels: seq<Channel>, wire: Wire, id: nat)
    requires id < |w.prog| && id < |w.states|
  {
    forall r: Reg :: r != ZERO && r in Reads(w, id) && r != Received(channels, wire) ==>
        Read(regs, r) == Read(w.states[id], r)
  }

  /** The value it is handed is the one it would read, under the name it would read it by. */
  ghost predicate Receives(w: World, channels: seq<Channel>, wire: Wire, id: nat)
    requires id < |w.states|
  {
    wire.receiver.Some? ==>
      && wire.receiver.value < |channels|
      && var c := channels[wire.receiver.value];
      && c.maker < id && c.register == wire.register && (id < |w.prog| ==> c.register !in Writes(w, id))
      && Read(w.states[id], c.register) == Read(w.states[c.maker + 1], c.register)
  }

  /** A channel it still has to fill is its own and empty. */
  ghost predicate Sends(channels: seq<Channel>, wire: Wire, id: nat) {
    wire.forwarder.Some? ==>
      && wire.forwarder.value < |channels|
      && channels[wire.forwarder.value].maker == id
      && channels[wire.forwarder.value].value.None?
  }

  /** A channel carries the register its maker writes, and at most its final value. */
  ghost predicate Carries(w: World, c: Channel, n: nat)
    requires n <= |w.prog| < |w.states|
  {
    && c.maker < n && c.register != ZERO && Writes(w, c.maker) == [c.register]
    && (c.value.Some? ==> c.value.value == Read(w.states[c.maker + 1], c.register))
  }

  ghost predicate ChannelsCarry(w: World, channels: seq<Channel>, n: nat)
    requires n <= |w.prog| < |w.states|
  {
    forall k :: 0 <= k < |channels| ==> Carries(w, channels[k], n)
  }

  ghost predicate Waits(w: World, regs: Regs, channels: seq<Channel>, wire: Wire, id: nat)
    requires id < |w.prog| && id < |w.states|
  {
    Ready(w, regs, channels, wire, id) && Receives(w, channels, wire, id) && Sends(channels, wire, id)
  }

  // ---------------------------------------------------------------- the units

  ghost predicate LoadsFrom(w: World, id: nat, addrs: seq<Word>, hit: Option<seq<Byte>>)
    requires id < |w.prog| && id < |w.states|
  {
    && addrs != [] && addrs == MemoryRead(w.prog[id].instr, NO_FORWARD, w.states[id])
    && Sequential.InRange(w.memory, addrs)
    && (hit.Some? ==> hit.value == Sequential.BytesAt(w.memory, addrs))
  }

  ghost predicate EuOk(w: World, regs: Regs, wires: seq<Wire>, channels: seq<Channel>, eu: Eu)
    requires |wires| <= |w.prog| < |w.states|
  {
    match eu
    case Idle => true
    case Preparing(id, runner, wire) =>
      id < |wires| && runner == w.prog[id] && wire.receiver == wires[id].receiver && Waits(w, regs, channels, wire, id)
    case Loading(id, runner, wire, _, _, addrs, hit) =>
      id < |wires| && runner == w.prog[id] && Sends(channels, wire, id) && LoadsFrom(w, id, addrs, hit)
  }

  ghost predicate BusOk(w: World, regs: Regs, wires: seq<Wire>, channels: seq<Channel>, ids: seq<nat>)
    requires |wires| <= |w.prog| < |w.states|
  {
    forall id :: id in ids ==> id < |wires| && Waits(w, regs, channels, wires[id], id)
  }

  ghost predicate DoneOk(w: World, n: nat, ds: seq<Done>)
    requires Sequentially(w) && n <= |w.prog|
  {
    forall d :: d in ds ==> d.id < n && d.instr == w.prog[d.id].instr && d.exe == ExeOf(w, d.id)
  }

  function Held(eu: Eu): seq<nat> { if eu.Idle? then [] else [eu.id] }

  function Ids(ds: seq<Done>): (ids: seq<nat>)
    ensures |ids| == |ds| && forall k :: 0 <= k < |ids| ==> ids[k] == ds[k].id
  {
    seq(|ds|, k requires 0 <= k < |ds| => ds[k].id)
  }

  function Flight(bus: Buffered.Bus<nat>, eu0: Eu, eu1: Eu, out: Buffered.Bus<Done>): seq<nat> {
    bus.Contents() + Rest(eu0, eu1, out)
  }

  /** What is in flight past the execute bus. */
  function Rest(eu0: Eu, eu1: Eu, out: Buffered.Bus<Done>): seq<nat> { Held(eu0) + Held(eu1) + Ids(out.Contents()) }

  ghost predicate Distinct(flight: seq<nat>, n: nat) {
    && (forall id :: id in flight ==> id < n)
    && forall id: nat :: multiset(flight)[id] <= 1
  }

  /** What was pushed in the previous cycle has not left the bus, and feeds nobody yet. */
  ghost predicate Fresh(previous: seq<nat>, ids: seq<nat>, wires: seq<Wire>) {
    forall k :: 0 <= k < |previous| ==>
        previous[k] in ids && previous[k] < |wires| && wires[previous[k]].forwarder.None?
  }

  ghost predicate Channelled(wires: seq<Wire>, channels: seq<Channel>) {
    forall j :: 0 <= j < |wires| && wires[j].receiver.Some? ==> wires[j].receiver.value < |channels|
  }

  /** No instruction both receives and forwards a value. */
  ghost predicate Uncrossed(wires: seq<Wire>) {
    forall j :: 0 <= j < |wires| ==> wires[j].receiver.None? || wires[j].forwarder.None?
  }

  /** A candidate that has already been given a channel would still receive the right value. */
  ghost predicate CandidateOk(w: World, channels: seq<Channel>, n: nat, c: Candidate)
    requires n < |w.states|
  {
    c.wire.forwarder.None? && Receives(w, channels, c.wire, n)
  }

  /** The part of the invariant that issuing can touch; `rest` is in flight past the execute bus. */
  ghost predicate IssueOk(w: World, regs: Regs, s: Issue, rest: seq<nat>) {
    var flight, n := s.bus.Contents() + rest, |s.issued|;
    && Sequentially(w)
    && n <= |w.prog| && s.issued == w.prog[..n] && |s.wires| == n
    && Distinct(flight, n)
    && Exact(s.board, s.issued, flight)
    && Ordered(w, s.wires, s.channels, flight)
    && Settled(w, regs, n, flight) && AllStillOld(w, regs, flight)
    && ChannelsCarry(w, s.channels, n) && Channelled(s.wires, s.channels)
    && BusOk(w, regs, s.wires, s.channels, s.bus.Contents())
  }

  ghost predicate UnitsOk(w: World, regs: Regs, s: Issue, eu0: Eu, eu1: Eu, out: Buffered.Bus<Done>)
    requires Sequentially(w) && |s.wires| == |s.issued| <= |w.prog|
  {
    && EuOk(w, regs, s.wires, s.channels, eu0) && EuOk(w, regs, s.wires, s.channels, eu1)
    && DoneOk(w, |s.issued|, out.Contents())
  }

  /** What the instructions see through the L1D is the memory of the world. */
  ghost predicate CacheOk(w: World, lines: seq<Line>, memory: Memory) { Coherence.Coherent(lines, memory, w.memory) }

  /** A load whose line comes from memory now finds there what the L1D alone may hold, and drops no only copy. */
  ghost predicate SafeMiss(w: World, s: Shared, eu: Eu) {
    eu.Loading? && eu.remaining <= 0 && eu.hit.None? && eu.addrs != [] && eu.addrs[0] >= 0
    && |s.memory| == |w.memory| ==>
      && Coherence.WindowClean(s.memory, w.memory, eu.addrs[0])
      && Coherence.VictimClean(s.lines, s.memory, w.memory, eu.addrs[0])
  }
}
