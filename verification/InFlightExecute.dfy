/** A cycle of an execute unit keeps the invariant of the out-of-order cores. */
module InFlightExecute {
  import opened Words
  import opened Isa
  import opened Cache
  import opened Mmu
  import opened Footprint
  import opened Pipeline
  import opened Control
  import opened OutOfOrder
  import opened InFlight
  import Sequential
  import Coherence
  import CoherentRun
  import Buffered = BufferedBus

  // ---------------------------------------------------------------- what a filled or emptied channel leaves alone

  ghost predicate SameMakers(a: seq<Channel>, b: seq<Channel>) {
    |a| == |b| && forall k :: 0 <= k < |a| ==> a[k].maker == b[k].maker && a[k].register == b[k].register
  }

  lemma SameMakersWait(w: World, regs: Regs, a: seq<Channel>, b: seq<Channel>, wire: Wire, id: nat)
    requires SameMakers(a, b) && id < |w.prog| && id < |w.states|
    ensures Ready(w, regs, a, wire, id) ==> Ready(w, regs, b, wire, id)
    ensures Receives(w, a, wire, id) ==> Receives(w, b, wire, id)
  {
  }

  // ---------------------------------------------------------------- what one unit and its surroundings keep

  function FlightOf(s: Shared, eu: Eu, other: Eu): seq<nat> { Flight(s.bus, eu, other, s.out) }

  ghost predicate EuInv(w: World, regs: Regs, wires: seq<Wire>, s: Shared, eu: Eu, other: Eu) {
    && Sequentially(w) && |wires| <= |w.prog| && Read(regs, ZERO) == 0
    && Distinct(FlightOf(s, eu, other), |wires|)
    && ChannelsCarry(w, s.channels, |wires|)
    && BusOk(w, regs, wires, s.channels, s.bus.Contents())
    && EuOk(w, regs, wires, s.channels, eu) && EuOk(w, regs, wires, s.channels, other)
    && DoneOk(w, |wires|, s.out.Contents())
    && CacheOk(w, s.lines, s.memory)
  }

  /** One step of one unit, as the others see it. */
  ghost predicate EuStep(w: World, regs: Regs, wires: seq<Wire>, s: Shared, eu: Eu, other: Eu, s1: Shared, eu1: Eu) {
    && EuInv(w, regs, wires, s1, eu1, other)
    && multiset(FlightOf(s1, eu1, other)) == multiset(FlightOf(s, eu, other))
    && SameMakers(s.channels, s1.channels)
    && s1.bus.buffer == s.bus.buffer
  }

  // ---------------------------------------------------------------- taking an instruction off the bus

  lemma DistinctPermutes(a: seq<nat>, b: seq<nat>, n: nat)
    requires Distinct(a, n) && multiset(a) == multiset(b)
    ensures Distinct(b, n)
  {
    forall id | id in b ensures id < n {
      assert id in multiset(b);
      assert id in multiset(a);
      assert id in a;
    }
  }

  lemma MovedUp(id: nat, bus: seq<nat>, other: seq<nat>, done: seq<nat>)
    ensures multiset(bus + ([id] + other + done)) == multiset(([id] + bus) + ([] + other + done))
  {
    assert multiset(bus + ([id] + other + done)) == multiset(bus) + multiset{id} + multiset(other) + multiset(done);
    assert multiset(([id] + bus) + ([] + other + done)) == multiset(bus) + multiset{id} + multiset(other)
           + multiset(done);
  }

  lemma TakenContents(bus: Buffered.Bus<nat>)
    requires bus.queue != []
    ensures bus.Contents() == [bus.queue[0]] + bus.(queue := bus.queue[1..]).Contents()
  {
    assert bus.queue == [bus.queue[0]] + bus.queue[1..];
    Buffered.Associates([bus.queue[0]], bus.queue[1..], Buffered.Values(bus.buffer));
  }

  lemma TakenFlight(s: Shared, s1: Shared, eu1: Eu, other: Eu)
    requires s.bus.queue != [] && s1 == s.(bus := s.bus.(queue := s.bus.queue[1..]))
    requires Held(eu1) == [s.bus.queue[0]]
    ensures multiset(FlightOf(s1, eu1, other)) == multiset(FlightOf(s, Idle, other))
    ensures forall id :: id in s1.bus.Contents() ==> id in s.bus.Contents()
    ensures s.bus.queue[0] in s.bus.Contents()
  {
    TakenContents(s.bus);
    MovedUp(s.bus.queue[0], s1.bus.Contents(), Held(other), Ids(s.out.Contents()));
    hide Ids, Buffered.Values;
  }

  lemma SameMakersSelf(channels: seq<Channel>)
    ensures SameMakers(channels, channels)
  {
  }

  lemma GetKeeps(w: World, regs: Regs, wires: seq<Wire>, s: Shared, other: Eu)
    requires EuInv(w, regs, wires, s, Idle, other) && s.bus.queue != []
    ensures var id := s.bus.queue[0];
            && id < |wires|
            && EuStep(w, regs, wires, s, Idle, other, s.(bus := s.bus.(queue := s.bus.queue[1..])),
                      Preparing(id, w.prog[id], wires[id]))
  {
    hide Distinct, Sequentially, ChannelsCarry, CacheOk, Waits, DoneOk, Flight, Ids, Buffered.Values;
    var id := s.bus.queue[0];
    var s1 := s.(bus := s.bus.(queue := s.bus.queue[1..]));
    SequentiallySizes(w);
    TakenContents(s.bus);
    assert id in s.bus.Contents();
    var eu1 := Preparing(id, w.prog[id], wires[id]);
    TakenFlight(s, s1, eu1, other);
    DistinctPermutes(FlightOf(s, Idle, other), FlightOf(s1, eu1, other), |wires|);
    SameMakersSelf(s.channels);
    hide SameMakers;
  }

  // ---------------------------------------------------------------- the operands

  /** What the instruction reads, from the registers or handed over, is what it reads in program order. */
  ghost predicate Supplied(w: World, regs: Regs, f: Forward, id: nat)
    requires id < |w.prog| && id < |w.states|
  {
    forall k :: 0 <= k < |Reads(w, id)| ==>
      RegisterRead(regs, f, Reads(w, id)[k]) == RegisterRead(w.states[id], NO_FORWARD, Reads(w, id)[k])
  }

  lemma WaitingIsSupplied(w: World, regs: Regs, channels: seq<Channel>, wire: Wire, id: nat, n: nat)
    requires Sequentially(w) && id < n <= |w.prog| && Read(regs, ZERO) == 0
    requires Waits(w, regs, channels, wire, id) && ChannelsCarry(w, channels, n)
    requires wire.receiver.Some? ==> wire.receiver.value < |channels| && channels[wire.receiver.value].value.Some?
    ensures Supplied(w, regs,
                     if wire.receiver.Some? then Forward(wire.register, channels[wire.receiver.value].value.value)
                       else NO_FORWARD, id)
  {
    ZeroStays(w, id);
    if wire.receiver.Some? { assert Carries(w, channels[wire.receiver.value], n); }
  }

  lemma SuppliedRun(w: World, regs: Regs, f: Forward, id: nat, bytes: seq<Byte>)
    requires Sequentially(w) && id < |w.prog| && Supplied(w, regs, f, id)
    ensures MemoryRead(w.prog[id].instr, f, regs) == MemoryRead(w.prog[id].instr, NO_FORWARD, w.states[id])
    ensures Run(w.prog[id].instr, f, regs, w.labels, w.prog[id].pc, bytes)
         == Run(w.prog[id].instr, NO_FORWARD, w.states[id], w.labels, w.prog[id].pc, bytes)
  {
    var rs := ReadRegisters(w.prog[id].instr);
    assert rs == Reads(w, id);
    forall k | 0 <= k < |rs| ensures RegisterRead(regs, f, rs[k]) == RegisterRead(w.states[id], NO_FORWARD, rs[k]) {
      assert Reads(w, id)[k] == rs[k];
    }
    ReadsAreComplete(w.prog[id].instr, f, regs, NO_FORWARD, w.states[id], w.labels, w.prog[id].pc, bytes);
  }

  /** The same execution, given the bytes at the addresses it loads from. */
  lemma RunIsExe(w: World, id: nat, addrs: seq<Word>)
    requires Sequentially(w) && id < |w.prog| && addrs == MemoryRead(w.prog[id].instr, NO_FORWARD, w.states[id])
    ensures Sequential.InRange(w.memory, addrs)
    ensures Run(w.prog[id].instr, NO_FORWARD, w.states[id], w.labels, w.prog[id].pc,
                Sequential.BytesAt(w.memory, addrs))
         == Ok(ExeOf(w, id))
  {
    assert Follows(w, id);
  }

  // ---------------------------------------------------------------- finishing

  lemma MovedOut(id: nat, bus: seq<nat>, other: seq<nat>, done: seq<nat>)
    ensures multiset(bus + ([] + other + (done + [id]))) == multiset(bus + ([id] + other + done))
  {
    assert multiset(bus + ([id] + other + done)) == multiset(bus) + multiset{id} + multiset(other) + multiset(done);
    assert multiset(bus + ([] + other + (done + [id]))) == multiset(bus) + multiset{id} + multiset(other)
           + multiset(done);
  }

  lemma IdsOfMore(ds: seq<Done>, d: Done)
    ensures Ids(ds + [d]) == Ids(ds) + [d.id]
  {
  }

  lemma FinishedFlight(s: Shared, s1: Shared, eu: Eu, other: Eu, d: Done, cycle: int)
    requires Held(eu) == [d.id] && s1.bus == s.bus && s1.out == Buffered.Add(s.out, d, cycle)
    ensures multiset(FlightOf(s1, Idle, other)) == multiset(FlightOf(s, eu, other))
    ensures s1.out.Contents() == s.out.Contents() + [d]
  {
    Buffered.AddContents(s.out, d, cycle);
    IdsOfMore(s.out.Contents(), d);
    MovedOut(d.id, s.bus.Contents(), Held(other), Ids(s.out.Contents()));
    hide Ids, Buffered.Values, Buffered.Add;
  }

  /** The channel an instruction fills is its own, so no other sender's channel changes. */
  lemma SendKeepsSenders(channels: seq<Channel>, k: nat, v: Option<Word>, wire: Wire, id: nat)
    requires k < |channels| && Sends(channels, wire, id) && channels[k].maker != id
    ensures Sends(channels[k := channels[k].(value := v)], wire, id)
  {
  }

  lemma Apart(bus: seq<nat>, id: nat, other: seq<nat>, done: seq<nat>, n: nat)
    requires Distinct(bus + ([id] + other + done), n)
    ensures id !in bus && id !in other && id !in done && id < n
  {
    var flight: seq<nat> := bus + ([id] + other + done);
    assert multiset(flight) == multiset(bus) + multiset{id} + multiset(other) + multiset(done);
    assert multiset(flight)[id] <= 1;
    assert id in flight;
    assert multiset(bus)[id] == 0 && multiset(other)[id] == 0 && multiset(done)[id] == 0;
    assert id !in multiset(bus) && id !in multiset(other) && id !in multiset(done);
  }

  /** A value for channel k from its maker, which is no longer waiting anywhere else. */
  ghost predicate Sent(w: World, channels: seq<Channel>, k: nat, v: Word, channels1: seq<Channel>)
    requires |w.prog| < |w.states|
  {
    && k < |channels| && channels1 == channels[k := channels[k].(value := Some(v))]
    && channels[k].maker < |w.prog| && v == Read(w.states[channels[k].maker + 1], channels[k].register)
  }

  lemma SentKeepsCarrying(w: World, channels: seq<Channel>, k: nat, v: Word, channels1: seq<Channel>, n: nat)
    requires |w.prog| < |w.states| && Sent(w, channels, k, v, channels1)
    requires n <= |w.prog| && ChannelsCarry(w, channels, n)
    ensures ChannelsCarry(w, channels1, n) && SameMakers(channels, channels1)
  {
  }

  lemma SentKeepsWaiting(w: World, regs: Regs, channels: seq<Channel>, k: nat, v: Word, channels1: seq<Channel>,
                         wire: Wire, id: nat)
    requires |w.prog| < |w.states| && Sent(w, channels, k, v, channels1) && id < |w.prog|
    requires channels[k].maker != id && Sends(channels, wire, id)
    ensures Sends(channels1, wire, id)
    ensures Waits(w, regs, channels, wire, id) ==> Waits(w, regs, channels1, wire, id)
  {
    SendKeepsSenders(channels, k, Some(v), wire, id);
    SameMakersWait(w, regs, channels, channels1, wire, id);
  }

  lemma SentKeepsBus(w: World, regs: Regs, wires: seq<Wire>, channels: seq<Channel>, k: nat, v: Word,
                     channels1: seq<Channel>, ids: seq<nat>)
    requires |wires| <= |w.prog| < |w.states| && Sent(w, channels, k, v, channels1)
    requires BusOk(w, regs, wires, channels, ids) && channels[k].maker !in ids
    ensures BusOk(w, regs, wires, channels1, ids)
  {
    forall id | id in ids ensures Waits(w, regs, channels1, wires[id], id) {
      SentKeepsWaiting(w, regs, channels, k, v, channels1, wires[id], id);
    }
  }

  lemma SentKeepsEu(w: World, regs: Regs, wires: seq<Wire>, channels: seq<Channel>, k: nat, v: Word,
                    channels1: seq<Channel>, eu: Eu)
    requires |wires| <= |w.prog| < |w.states| && Sent(w, channels, k, v, channels1)
    requires EuOk(w, regs, wires, channels, eu) && channels[k].maker !in Held(eu)
    ensures EuOk(w, regs, wires, channels1, eu)
  {
    if !eu.Idle? {
      assert eu.id in Held(eu);
      SentKeepsWaiting(w, regs, channels, k, v, channels1, eu.wire, eu.id);
    }
  }

  ghost predicate Holds(w: World, wires: seq<Wire>, channels: seq<Channel>, eu: Eu, id: nat, runner: RunnerPc,
                        wire: Wire) {
    && Held(eu) == [id] && id < |wires| <= |w.prog| && runner == w.prog[id] && Sends(channels, wire, id)
  }

  lemma DoneGrows(w: World, n: nat, ds: seq<Done>, d: Done)
    requires Sequentially(w) && n <= |w.prog| && DoneOk(w, n, ds)
    requires d.id < n && d.instr == w.prog[d.id].instr && d.exe == ExeOf(w, d.id)
    ensures DoneOk(w, n, ds + [d])
  {
  }

  lemma SentValue(w: World, wires: seq<Wire>, channels: seq<Channel>, wire: Wire, id: nat)
    requires Sequentially(w) && id < |wires| <= |w.prog| && Sends(channels, wire, id) && wire.forwarder.Some?
    requires ChannelsCarry(w, channels, |wires|)
    ensures var k, v := wire.forwarder.value, ExeOf(w, id).registerValue;
            && k < |channels| && channels[k].maker == id
            && Fill(channels, k, v) == Some(channels[k := channels[k].(value := Some(v))])
            && Sent(w, channels, k, v, channels[k := channels[k].(value := Some(v))])
  {
    var k := wire.forwarder.value;
    assert Carries(w, channels[k], |wires|);
    ExeShape(w, id);
  }

  /** The channels once an instruction has sent its result. */
  lemma SendKeeps(w: World, regs: Regs, wires: seq<Wire>, s: Shared, eu: Eu, other: Eu, id: nat, runner: RunnerPc,
                  wire: Wire)
    requires EuInv(w, regs, wires, s, eu, other) && Holds(w, wires, s.channels, eu, id, runner, wire)
             && wire.forwarder.Some?
    ensures var channels := Fill(s.channels, wire.forwarder.value, ExeOf(w, id).registerValue);
            && channels.Some? && SameMakers(s.channels, channels.value)
            && ChannelsCarry(w, channels.value, |wires|) && BusOk(w, regs, wires, channels.value, s.bus.Contents())
            && EuOk(w, regs, wires, channels.value, Idle) && EuOk(w, regs, wires, channels.value, other)
  {
    hide Sequentially, Distinct, ChannelsCarry, BusOk, EuOk, DoneOk, CacheOk, Sends, Ids, ExeOf, Sent, Buffered.Values,
         SameMakers, Fill;
    SequentiallySizes(w);
    var k, v := wire.forwarder.value, ExeOf(w, id).registerValue;
    SentValue(w, wires, s.channels, wire, id);
    var channels1 := s.channels[k := s.channels[k].(value := Some(v))];
    Apart(s.bus.Contents(), id, Held(other), Ids(s.out.Contents()), |wires|);
    SentKeepsCarrying(w, s.channels, k, v, channels1, |wires|);
    SentKeepsBus(w, regs, wires, s.channels, k, v, channels1, s.bus.Contents());
    SentKeepsEu(w, regs, wires, s.channels, k, v, channels1, other);
    IdleIsOk(w, regs, wires, channels1);
  }

  lemma FinishKeeps(w: World, regs: Regs, wires: seq<Wire>, s: Shared, eu: Eu, other: Eu, cycle: int, id: nat,
                    runner: RunnerPc, wire: Wire, f: Forward, bytes: seq<Byte>)
    requires EuInv(w, regs, wires, s, eu, other) && Holds(w, wires, s.channels, eu, id, runner, wire)
    requires Run(runner.instr, f, regs, w.labels, runner.pc, bytes) == Ok(ExeOf(w, id))
    ensures var r := Finish(w.labels, cycle, regs, id, runner, wire, f, bytes, s);
            r.Some? && r.value.0 == Idle && EuStep(w, regs, wires, s, eu, other, r.value.1, Idle)
  {
    hide Sequentially, Run, Distinct, ChannelsCarry, BusOk, EuOk, DoneOk, CacheOk, Sends, Buffered.Add, Buffered.Values,
         Ids, ExeOf, Fill, SameMakers, Flight;
    var d := Done(id, runner.instr, ExeOf(w, id));
    var s1 := s.(out := Buffered.Add(s.out, d, cycle));
    SequentiallySizes(w);
    ExeShape(w, id);
    FinishedFlight(s, s1, eu, other, d, cycle);
    DoneGrows(w, |wires|, s.out.Contents(), d);
    DistinctPermutes(FlightOf(s, eu, other), FlightOf(s1, Idle, other), |wires|);
    IdleIsOk(w, regs, wires, s.channels);
    if wire.forwarder.Some? { SendKeeps(w, regs, wires, s, eu, other, id, runner, wire); }
  }

  lemma IdleIsOk(w: World, regs: Regs, wires: seq<Wire>, channels: seq<Channel>)
    requires |wires| <= |w.prog| < |w.states|
    ensures EuOk(w, regs, wires, channels, Idle) && SameMakers(channels, channels)
  {
  }

  // ---------------------------------------------------------------- starting

  lemma HitIsRight(w: World, lines: seq<Line>, memory: Memory, addrs: seq<Word>)
    requires CacheOk(w, lines, memory) && Sequential.InRange(w.memory, addrs)
    ensures var (hit, lines1) := GetAll(lines, addrs);
            CacheOk(w, lines1, memory) && (hit.Some? ==> hit.value == Sequential.BytesAt(w.memory, addrs))
  {
    var (hit, lines1) := GetAll(lines, addrs);
    Coherence.GetAllPermutes(lines, addrs);
    Coherence.SameLinesSameView(lines, lines1, memory, w.memory);
    if hit.Some? { Coherence.LoadedBytesAreFlat(lines, memory, w.memory, addrs); }
  }

  lemma LoadingStep(w: World, regs: Regs, wires: seq<Wire>, s: Shared, eu: Eu, other: Eu, lines: seq<Line>, eu1: Eu)
    requires EuInv(w, regs, wires, s, eu, other) && CacheOk(w, lines, s.memory)
    requires EuOk(w, regs, wires, s.channels, eu1) && Held(eu1) == Held(eu)
    ensures EuStep(w, regs, wires, s, eu, other, s.(lines := lines), eu1)
  {
    hide Sequentially, Distinct, ChannelsCarry, BusOk, EuOk, DoneOk, CacheOk;
  }

  lemma StartKeeps(w: World, regs: Regs, wires: seq<Wire>, s: Shared, eu: Eu, other: Eu, cycle: int, id: nat,
                   runner: RunnerPc, wire: Wire, f: Forward)
    requires EuInv(w, regs, wires, s, eu, other) && Holds(w, wires, s.channels, eu, id, runner, wire)
             && Supplied(w, regs, f, id)
    ensures var r := Start(w.labels, cycle, regs, id, runner, wire, f, s);
            r.Some? && EuStep(w, regs, wires, s, eu, other, r.value.1, r.value.0)
  {
    hide Sequentially, Distinct, ChannelsCarry, BusOk, DoneOk, CacheOk, Run, MemoryRead, Supplied, Finish, ExeOf;
    SequentiallySizes(w);
    var addrs := MemoryRead(runner.instr, f, regs);
    SuppliedRun(w, regs, f, id, []);
    RunIsExe(w, id, addrs);
    if addrs == [] {
      assert Sequential.BytesAt(w.memory, addrs) == [];
      FinishKeeps(w, regs, wires, s, eu, other, cycle, id, runner, wire, f, []);
    } else {
      var (hit, lines) := GetAll(s.lines, addrs);
      HitIsRight(w, s.lines, s.memory, addrs);
      var eu1 := Loading(id, runner, wire, f, if hit.Some? then 0 else CYCLES_MEMORY_ACCESS - 1, addrs, hit);
      LoadingStep(w, regs, wires, s, eu, other, lines, eu1);
    }
  }

  lemma SameStep(w: World, regs: Regs, wires: seq<Wire>, s: Shared, eu: Eu, other: Eu)
    requires EuInv(w, regs, wires, s, eu, other)
    ensures EuStep(w, regs, wires, s, eu, other, s, eu)
  {
  }

  lemma StepsCompose(w: World, regs: Regs, wires: seq<Wire>, other: Eu, s: Shared, eu: Eu, s1: Shared, eu1: Eu,
                     s2: Shared, eu2: Eu)
    requires EuStep(w, regs, wires, s, eu, other, s1, eu1) && EuStep(w, regs, wires, s1, eu1, other, s2, eu2)
    ensures EuStep(w, regs, wires, s, eu, other, s2, eu2)
  {
    hide EuInv, Flight;
  }

  // ---------------------------------------------------------------- receiving

  lemma EmptiedKeeps(w: World, regs: Regs, channels: seq<Channel>, k: nat, wire: Wire, id: nat)
    requires k < |channels| && id < |w.prog| && id < |w.states|
    ensures var channels1 := channels[k := channels[k].(value := None)];
            && SameMakers(channels, channels1)
            && (Sends(channels, wire, id) ==> Sends(channels1, wire, id))
            && (Waits(w, regs, channels, wire, id) ==> Waits(w, regs, channels1, wire, id))
  {
    SameMakersWait(w, regs, channels, channels[k := channels[k].(value := None)], wire, id);
  }

  lemma ReceiveKeeps(w: World, regs: Regs, wires: seq<Wire>, s: Shared, eu: Eu, other: Eu, k: nat)
    requires EuInv(w, regs, wires, s, eu, other) && k < |s.channels|
    ensures var s1 := s.(channels := s.channels[k := s.channels[k].(value := None)]);
            EuStep(w, regs, wires, s, eu, other, s1, eu)
  {
    hide Sequentially, Distinct, DoneOk, CacheOk, EuOk, BusOk, SameMakers, Flight, ChannelsCarry;
    SequentiallySizes(w);
    EmptiedBus(w, regs, wires, s.channels, k, s.bus.Contents());
    EmptiedEu(w, regs, wires, s.channels, k, eu);
    EmptiedEu(w, regs, wires, s.channels, k, other);
    EmptiedMakers(w, s.channels, k, |wires|);
  }

  lemma EmptiedEu(w: World, regs: Regs, wires: seq<Wire>, channels: seq<Channel>, k: nat, eu: Eu)
    requires |wires| <= |w.prog| < |w.states| && k < |channels| && EuOk(w, regs, wires, channels, eu)
    ensures EuOk(w, regs, wires, channels[k := channels[k].(value := None)], eu)
  {
    if !eu.Idle? { EmptiedKeeps(w, regs, channels, k, eu.wire, eu.id); }
  }

  lemma EmptiedMakers(w: World, channels: seq<Channel>, k: nat, n: nat)
    requires k < |channels| && n <= |w.prog| < |w.states| && ChannelsCarry(w, channels, n)
    ensures SameMakers(channels, channels[k := channels[k].(value := None)])
    ensures ChannelsCarry(w, channels[k := channels[k].(value := None)], n)
  {
  }

  lemma EmptiedBus(w: World, regs: Regs, wires: seq<Wire>, channels: seq<Channel>, k: nat, ids: seq<nat>)
    requires |wires| <= |w.prog| < |w.states| && k < |channels| && BusOk(w, regs, wires, channels, ids)
    ensures BusOk(w, regs, wires, channels[k := channels[k].(value := None)], ids)
  {
    var channels1 := channels[k := channels[k].(value := None)];
    forall id | id in ids ensures Waits(w, regs, channels1, wires[id], id) {
      EmptiedKeeps(w, regs, channels, k, wires[id], id);
    }
  }

  lemma PrepareKeeps(w: World, regs: Regs, wires: seq<Wire>, s: Shared, other: Eu, cycle: int, id: nat,
                     runner: RunnerPc, wire: Wire)
    requires EuInv(w, regs, wires, s, Preparing(id, runner, wire), other)
    ensures var r := PrepareRun(w.labels, cycle, regs, id, runner, wire, s);
            r.Some? && EuStep(w, regs, wires, s, Preparing(id, runner, wire), other, r.value.1, r.value.0)
  {
    hide Sequentially, Distinct, ChannelsCarry, BusOk, DoneOk, CacheOk, Start, Waits, Supplied, Flight;
    SequentiallySizes(w);
    var eu := Preparing(id, runner, wire);
    SameStep(w, regs, wires, s, eu, other);
    PreparingHolds(w, regs, wires, s, other, id, runner, wire);
    if wire.receiver.None? {
      WaitingIsSupplied(w, regs, s.channels, wire, id, |wires|);
      StartKeeps(w, regs, wires, s, eu, other, cycle, id, runner, wire, NO_FORWARD);
    } else {
      var k := wire.receiver.value;
      if k < |s.channels| && s.channels[k].value.Some? {
        WaitingIsSupplied(w, regs, s.channels, wire, id, |wires|);
        var f := Forward(wire.register, s.channels[k].value.value);
        var s1 := s.(channels := s.channels[k := s.channels[k].(value := None)]);
        ReceiveKeeps(w, regs, wires, s, eu, other, k);
        PreparingHolds(w, regs, wires, s1, other, id, runner, wire);
        StartKeeps(w, regs, wires, s1, eu, other, cycle, id, runner, wire, f);
        var r := Start(w.labels, cycle, regs, id, runner, wire, f, s1);
        hide EuInv, Holds;
        StepsCompose(w, regs, wires, other, s, eu, s1, eu, r.value.1, r.value.0);
      }
    }
  }

  lemma PreparingHolds(w: World, regs: Regs, wires: seq<Wire>, s: Shared, other: Eu, id: nat, runner: RunnerPc,
                       wire: Wire)
    requires EuInv(w, regs, wires, s, Preparing(id, runner, wire), other)
    ensures Holds(w, wires, s.channels, Preparing(id, runner, wire), id, runner, wire)
    ensures id < |w.prog| < |w.states| && Waits(w, regs, s.channels, wire, id)
  {
  }

  // ---------------------------------------------------------------- loading

  /** A load reads no register once it has its bytes. */
  lemma LoadRuns(i: Instr, f: Forward, a: Regs, b: Regs, labels: map<string, Word>, pc: Word, bytes: seq<Byte>)
    requires i.Load?
    ensures Run(i, f, a, labels, pc, bytes) == Run(i, NO_FORWARD, b, labels, pc, bytes)
  {
  }

  /** A safe miss returns the bytes of program order and leaves the L1D coherent. */
  lemma FetchIsRight(w: World, id: nat, lines: seq<Line>, memory: Memory, addrs: seq<Word>)
    requires Sequentially(w) && id < |w.prog| && CacheOk(w, lines, memory) && LoadsFrom(w, id, addrs, None)
    requires Coherence.WindowClean(memory, w.memory, addrs[0])
             && Coherence.VictimClean(lines, memory, w.memory, addrs[0])
    ensures var l := LoadMiss(lines, memory, addrs);
            l.Some? && CacheOk(w, l.value.lines, l.value.memory) && l.value.bytes == Sequential.BytesAt(w.memory, addrs)
  {
    CoherentRun.MissAgrees(lines, memory, w.memory, w.prog[id].instr, w.states[id]);
  }

  lemma LoadKeeps(w: World, regs: Regs, wires: seq<Wire>, s: Shared, eu: Eu, other: Eu, cycle: int)
    requires EuInv(w, regs, wires, s, eu, other) && eu.Loading? && SafeMiss(w, s, eu)
    ensures var r := EuCycle(w.labels, cycle, w.prog[..|wires|], wires, regs, eu, s);
            r.Some? && EuStep(w, regs, wires, s, eu, other, r.value.1, r.value.0)
  {
    hide Sequentially, Distinct, ChannelsCarry, BusOk, DoneOk, CacheOk, Run, Finish, Flight, ExeOf, SafeMiss,
         Coherence.WindowClean, Coherence.VictimClean;
    SequentiallySizes(w);
    var id, addrs := eu.id, eu.addrs;
    LoadsAreLoads(w, id, addrs, eu.hit);
    RunIsExe(w, id, addrs);
    if eu.remaining > 0 {
      LoadingStep(w, regs, wires, s, eu, other, s.lines, eu.(remaining := eu.remaining - 1));
    } else if eu.hit.Some? {
      LoadRuns(w.prog[id].instr, eu.forward, regs, w.states[id], w.labels, w.prog[id].pc, eu.hit.value);
      FinishKeeps(w, regs, wires, s, eu, other, cycle, id, eu.runner, eu.wire, eu.forward, eu.hit.value);
    } else {
      SafeIsClean(w, s, eu);
      FetchIsRight(w, id, s.lines, s.memory, addrs);
      var l := LoadMiss(s.lines, s.memory, addrs).value;
      LoadRuns(w.prog[id].instr, eu.forward, regs, w.states[id], w.labels, w.prog[id].pc, l.bytes);
      var s1 := s.(lines := l.lines, memory := l.memory);
      FetchedStep(w, regs, wires, s, eu, other, l);
      FinishKeeps(w, regs, wires, s1, eu, other, cycle, id, eu.runner, eu.wire, eu.forward, l.bytes);
      var r := Finish(w.labels, cycle, regs, id, eu.runner, eu.wire, eu.forward, l.bytes, s1);
      hide EuInv;
      StepsCompose(w, regs, wires, other, s, eu, s1, eu, r.value.1, r.value.0);
    }
  }

  lemma SafeIsClean(w: World, s: Shared, eu: Eu)
    requires eu.Loading? && eu.remaining <= 0 && eu.hit.None? && SafeMiss(w, s, eu) && CacheOk(w, s.lines, s.memory)
    requires eu.addrs != [] && Sequential.InRange(w.memory, eu.addrs)
    ensures |s.memory| == |w.memory| && eu.addrs[0] >= 0
    ensures Coherence.WindowClean(s.memory, w.memory, eu.addrs[0])
    ensures Coherence.VictimClean(s.lines, s.memory, w.memory, eu.addrs[0])
  {
  }

  lemma LoadsAreLoads(w: World, id: nat, addrs: seq<Word>, hit: Option<seq<Byte>>)
    requires id < |w.prog| && id < |w.states| && LoadsFrom(w, id, addrs, hit)
    ensures w.prog[id].instr.Load?
  {
  }

  lemma FetchedStep(w: World, regs: Regs, wires: seq<Wire>, s: Shared, eu: Eu, other: Eu, l: Loaded)
    requires EuInv(w, regs, wires, s, eu, other) && CacheOk(w, l.lines, l.memory)
    ensures EuStep(w, regs, wires, s, eu, other, s.(lines := l.lines, memory := l.memory), eu)
  {
  }

  /** A cycle of one execute unit. */
  lemma EuKeeps(w: World, regs: Regs, wires: seq<Wire>, s: Shared, eu: Eu, other: Eu, cycle: int)
    requires EuInv(w, regs, wires, s, eu, other) && SafeMiss(w, s, eu)
    ensures var r := EuCycle(w.labels, cycle, w.prog[..|wires|], wires, regs, eu, s);
            r.Some? && EuStep(w, regs, wires, s, eu, other, r.value.1, r.value.0)
  {
    hide Sequentially, Distinct, ChannelsCarry, BusOk, DoneOk, CacheOk, PrepareRun, Finish, Flight, Waits, SafeMiss;
    match eu
    case Loading(_, _, _, _, _, _, _) => LoadKeeps(w, regs, wires, s, eu, other, cycle);
    case Preparing(id, runner, wire) => PrepareKeeps(w, regs, wires, s, other, cycle, id, runner, wire);
    case Idle =>
      SameStep(w, regs, wires, s, eu, other);
      if s.bus.queue != [] {
        var id := s.bus.queue[0];
        var s1 := s.(bus := s.bus.(queue := s.bus.queue[1..]));
        GetKeeps(w, regs, wires, s, other);
        PrepareKeeps(w, regs, wires, s1, other, cycle, id, w.prog[id], wires[id]);
        var r := PrepareRun(w.labels, cycle, regs, id, w.prog[id], wires[id], s1);
        hide EuInv;
        StepsCompose(w, regs, wires, other, s, eu, s1, Preparing(id, w.prog[id], wires[id]), r.value.1, r.value.0);
      }
  }
}
