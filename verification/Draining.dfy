/** The loop that MVP-4 and MVP-5 run before a flush, for anything the write bus may hold (proc/mvp4/cpu.go,
    proc/mvp5/cpu.go). */
module Draining {
  import opened Words
  import opened Mmu
  import opened Sequential
  import opened Pipeline

  /** What retirement changes. */
  datatype Retired = Retired(regs: Regs, pending: Pending, memory: Memory)

  predicate WritesMemory(w: WriteEntry) { !w.exe.registerChange && w.exe.data != [] }

  /** One queued entry, applied in full. None where the source panics. */
  function Apply(r: Retired, w: WriteEntry): Option<Retired> {
    if w.exe.registerChange then Some(r.(regs := Retire(r.regs, w), pending := SubAll(r.pending, w.writes)))
    else if w.exe.data == [] then Some(r)
    else
      var m := WriteMemory(r.memory, w.exe.address, w.exe.data);
      if m.None? then None else Some(r.(memory := m.value))
  }

  function ApplyAll(r: Retired, ws: seq<WriteEntry>): Option<Retired>
    decreases |ws|
  {
    if ws == [] then Some(r) else
      var r1 := Apply(r, ws[0]);
      if r1.None? then None else ApplyAll(r1.value, ws[1..])
  }

  /** An entry takes one cycle, and 50 more when it writes memory. */
  function CostOf(w: WriteEntry): nat { if WritesMemory(w) then 51 else 1 }

  function CostOfAll(ws: seq<WriteEntry>): nat
    decreases |ws|
  {
    if ws == [] then 0 else CostOf(ws[0]) + CostOfAll(ws[1..])
  }

  /** The cycles a drain takes: the rest of a memory write under way, one to move up an entry that nothing precedes, and
      the entries. */
  function DrainTime(s: Retiring): int {
    (if s.wu.pendingWrite then s.wu.cycles else 0)
    + (if s.wbus.current.None? && s.wbus.pending.Some? then 1 else 0)
    + CostOfAll(s.wbus.Contents())
  }

  function StateOf(s: Retiring): Retired { Retired(s.regs, s.pending, s.memory) }

  /** The drain has applied every entry, oldest first, in exactly its time, and left nothing under way; or there is an
      entry whose memory write panics. */
  ghost predicate DrainsInOrder(s: Retiring) 
    requires s.wu.pendingWrite ==> s.wu.cycles > 0
  {
    var end := ApplyAll(StateOf(s), s.wbus.Contents());
    match Drain(s)
    case None => end.None?
    case Some((t, cycles)) =>
      && end == Some(StateOf(t))
      && cycles == DrainTime(s)
      && Drained(t)
  }

  lemma {:induction false} DrainIsFifo(s: Retiring)
    requires s.wu.pendingWrite ==> s.wu.cycles > 0
    ensures DrainsInOrder(s)
    decreases Owed(s)
  {
    if !Drained(s) {
      var s1 := WriteCycle(s);
      if s.wu.pendingWrite {
        DrainIsFifo(s1.value);
      } else if s.wbus.current.None? {
        assert s1.value.wbus.Contents() == s.wbus.Contents();
        DrainIsFifo(s1.value);
      } else {
        var w := s.wbus.current.value;
        assert s.wbus.Contents() == [w] + s.wbus.Shift().Contents();
        assert s.wbus.Contents()[1..] == s.wbus.Shift().Contents();
        if s1.Some? { DrainIsFifo(s1.value); }
      }
    }
  }

  /** A flush squashes nothing older than the branch: what it leaves is the drained state, nothing in flight, an empty
      scoreboard, and fetch at the target. */
  lemma FlushIsExact(v: Variant, s: Cpu, target: Word)
    requires s.wu.pendingWrite ==> s.wu.cycles > 0
    ensures match Drain(Retirement(s))
            case None => ApplyAll(StateOf(Retirement(s)), s.wbus.Contents()).None?
            case Some((t, cycles)) =>
              var f := Flush(v, WithRetirement(s, t), target);
              && ApplyAll(StateOf(Retirement(s)), s.wbus.Contents()) == Some(Retired(f.regs, t.pending, f.memory))
              && cycles == DrainTime(Retirement(s))
              && f.dbus.IsEmpty() && f.xbus.IsEmpty() && f.wbus.IsEmpty() && !f.wu.pendingWrite
              && !f.blocked && (v == Mvp5 ==> !f.eu.processing) && f.pending == map[]
              && f.fu.pc == target && !f.fu.processing && !f.fu.complete
  {
    DrainIsFifo(Retirement(s));
  }
}
