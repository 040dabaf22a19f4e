/** The clock of MVP-4 and MVP-5 on straight code, turn by turn (proc/mvp4, proc/mvp5). */
module PipelineClock {
  import opened Words
  import opened Isa
  import opened Cache
  import opened Mmu
  import opened Sequential
  import opened Pipeline
  import opened PipelineRun

  /** Register code without loads that cannot fail. */
  predicate Steady(i: Instr) {
    || i.Li? || i.Lui? || i.Auipc? || i.Mv? || i.Nop?
    || ((i.AluRR? || i.AluRI?) && i.op !in {Div, Rem, Sra, Srl})
  }

  /** No instruction reads what the one before it writes. */
  ghost predicate Apart(code: seq<Instr>) {
    forall k :: 0 < k < |code| ==>
      forall r :: r in ReadRegisters(code[k]) && r != ZERO ==> r !in WriteRegisters(code[k - 1])
  }

  ghost predicate StraightCode(app: App) {
    && 0 < |app.code| && 4 * |app.code| + LINE_LENGTH < 0x8000_0000
    && (forall k :: 0 <= k < |app.code| ==> Steady(app.code[k]))
    && Apart(app.code)
  }

  lemma SteadyResult(i: Instr, regs: Regs, labels: map<string, Word>, pc: Word)
    requires Steady(i)
    ensures var out := Run(i, NO_FORWARD, regs, labels, pc, []);
            && out.Ok? && out.value.data == [] && !out.value.pcChange && !out.value.isReturn
            && (if out.value.registerChange then WriteRegisters(i) == [out.value.register] else WriteRegisters(i) == [])
    ensures MemoryRead(i, NO_FORWARD, regs) == [] && !IsBranch(i) && Cycles(i) == 1
  {
    hide Wrap, Bitwise, Pow2;
  }

  // ---------------------------------------------------------------- what the units hold

  function PcOf(k: Option<nat>): Option<Word>
    requires k.Some? ==> 4 * k.value < 0x8000_0000
  {
    if k.Some? then Some(4 * k.value) else None
  }

  predicate Names(app: App, k: Option<nat>) {
    k.Some? ==> k.value < |app.code| && 4 * k.value < 0x8000_0000
  }

  function RunnerOf(app: App, k: Option<nat>): Option<RunnerPc>
    requires Names(app, k)
  {
    if k.Some? then Some(RunnerPc(app.code[k.value], 4 * k.value)) else None
  }

  /** The result of instruction k. */
  ghost predicate IsEntry(app: App, w: Option<WriteEntry>, k: Option<nat>)
    requires Names(app, k)
  {
    && (w.Some? <==> k.Some?)
    && (k.Some? ==>
          && w.value.writes == WriteRegisters(app.code[k.value]) && w.value.exe.data == []
          && (!w.value.exe.registerChange ==> w.value.writes == []))
  }

  ghost predicate Counts(app: App, pending: Pending, k: Option<nat>)
    requires Names(app, k)
  {
    forall r: Reg :: Count(pending, r) == if k.Some? && r in WriteRegisters(app.code[k.value]) then 1 else 0
  }

  /** Past the fetch unit: a has just been fetched, b decoded, c has run. */
  ghost predicate Flow(app: App, s: Cpu, a: Option<nat>, b: Option<nat>, c: Option<nat>) {
    && Names(app, a) && Names(app, b) && Names(app, c)
    && s.dbus == Bus(PcOf(a), None) && s.xbus == Bus(RunnerOf(app, b), None)
    && !s.blocked && !s.eu.processing && !s.eu.pendingRead && !s.wu.pendingWrite && !s.fu.toClean
    && s.wbus.pending.None? && IsEntry(app, s.wbus.current, c) && Counts(app, s.pending, c)
  }

  lemma DecodeFlows(v: Variant, app: App, a: Option<nat>, b: Option<nat>, h: Option<nat>)
    requires StraightCode(app) && Names(app, a) && Names(app, b) && Names(app, h)
    ensures DecodeCycle(v, app, false, Bus(PcOf(a), PcOf(h)), Bus(RunnerOf(app, b), None))
         == Some((false, Bus(PcOf(h), None), Bus(RunnerOf(app, b), RunnerOf(app, a))))
  {
    if a.Some? {
      var i := app.code[a.value];
      assert Steady(i);
      assert Index(4 * a.value) == a.value;
    }
  }

  lemma ExecuteFlows(v: Variant, app: App, order: seq<Word>, s: Cpu, a: Option<nat>, b: nat, c: Option<nat>)
    requires StraightCode(app) && Names(app, a) && Names(app, Some(b)) && Names(app, c)
    requires s.xbus == Bus(RunnerOf(app, Some(b)), RunnerOf(app, a)) && !s.eu.processing && !s.eu.pendingRead
    requires s.wbus.pending.None? && Counts(app, s.pending, c) && (c.Some? ==> c.value + 1 == b)
    ensures var (u, x) := ExecuteCycle(v, app, order, s);
            && x == Ran
            && u.fu == s.fu && u.dbus == s.dbus && u.blocked == s.blocked && u.wu == s.wu
            && u.xbus == Bus(RunnerOf(app, a), None) && !u.eu.processing && !u.eu.pendingRead
            && u.wbus.current == s.wbus.current && IsEntry(app, u.wbus.pending, Some(b))
            && u.pending == AddAll(s.pending, WriteRegisters(app.code[b]))
            && u.l1i == s.l1i && u.l1d == s.l1d && u.memory == s.memory
  {
    var i := app.code[b];
    var r := RunnerPc(i, 4 * b);
    assert Steady(i);
    SteadyResult(i, s.regs, app.labels, r.pc);
    assert !IsWriteHazard(s.pending, ReadRegisters(i)) by { NoHazard(app, s.pending, b, c); }
    var t := s.(xbus := s.xbus.Shift(), eu := s.eu.(runner := Some(r), remaining := 1, processing := true));
    var (bu, fu) := AssertBranch(v, t.bu, t.fu, r);
    assert fu == t.fu;
    hide Run, IsWriteHazard, AddAll;
    var t1 := t.(bu := bu);
    assert ExecuteCycle(v, app, order, s) == WhenReady(v, app, order, t1, r);
    var e := Run(i, NO_FORWARD, s.regs, app.labels, r.pc, []).value;
    RunsSteady(v, app, order, t1, r, e);
  }

  lemma NoHazard(app: App, pending: Pending, b: nat, c: Option<nat>)
    requires StraightCode(app) && Names(app, Some(b)) && Names(app, c) && Counts(app, pending, c)
    requires c.Some? ==> c.value + 1 == b
    ensures !IsWriteHazard(pending, ReadRegisters(app.code[b]))
  {
    var rs := ReadRegisters(app.code[b]);
    forall k | 0 <= k < |rs| && rs[k] != ZERO ensures Count(pending, rs[k]) == 0 { assert rs[k] in rs; }
    hide ReadRegisters, WriteRegisters, Steady;
  }

  lemma RunsSteady(v: Variant, app: App, order: seq<Word>, s: Cpu, r: RunnerPc, e: Execution)
    requires !IsWriteHazard(s.pending, ReadRegisters(r.instr)) && MemoryRead(r.instr, NO_FORWARD, s.regs) == []
    requires Run(r.instr, NO_FORWARD, s.regs, app.labels, r.pc, []) == Ok(e)
    requires e.data == [] && !e.pcChange && !e.isReturn && !IsBranch(r.instr)
    ensures var (u, x) := WhenReady(v, app, order, s, r);
            && x == Ran
            && u == s.(eu := s.eu.(remaining := 0, runner := None, processing := false), regs := u.regs,
                       wbus := s.wbus.(pending := Some(Entry(r.instr, e))),
                       pending := AddAll(s.pending, WriteRegisters(r.instr)))
  {
    hide Run, IsWriteHazard, AddAll, MemoryRead;
  }

  lemma AddOne(app: App, pending: Pending, b: nat, c: Option<nat>)
    requires Names(app, Some(b)) && Names(app, c) && Counts(app, pending, c)
    ensures forall r: Reg :: Count(AddAll(pending, WriteRegisters(app.code[b])), r)
                          == Count(pending, r) + if r in WriteRegisters(app.code[b]) then 1 else 0
  {
    var ws := WriteRegisters(app.code[b]);
    hide WriteRegisters;
    if ws != [] { assert ws == [ws[0]] && ws[1..] == []; }
  }

  /** The write unit takes the entry before it, and the new one moves up. */
  lemma WriteFlows(app: App, s: Retiring, b: Option<nat>, c: Option<nat>)
    requires Names(app, b) && Names(app, c) && !s.wu.pendingWrite
    requires IsEntry(app, s.wbus.current, c) && IsEntry(app, s.wbus.pending, b)
    requires forall r: Reg :: Count(s.pending, r)
               == (if c.Some? && r in WriteRegisters(app.code[c.value]) then 1 else 0)
                  + (if b.Some? && r in WriteRegisters(app.code[b.value]) then 1 else 0)
    ensures var t := WriteCycle(s);
            && t.Some? && t.value.memory == s.memory && t.value.wu == s.wu
            && t.value.wbus == Bus(s.wbus.pending, None) && Counts(app, t.value.pending, b)
  {
    hide WriteRegisters, Retire;
    if c.Some? {
      var w := s.wbus.current.value;
      if w.exe.registerChange {
        SubOne(app, s.pending, c.value, b);
      }
    }
  }

  lemma SubOne(app: App, pending: Pending, c: nat, b: Option<nat>)
    requires Names(app, Some(c)) && Names(app, b)
    requires forall r: Reg :: Count(pending, r)
               == (if r in WriteRegisters(app.code[c]) then 1 else 0)
                  + (if b.Some? && r in WriteRegisters(app.code[b.value]) then 1 else 0)
    ensures Counts(app, SubAll(pending, WriteRegisters(app.code[c])), b)
  {
    var ws := WriteRegisters(app.code[c]);
    forall r: Reg ensures Count(SubAll(pending, ws), r) == Count(pending, r) - if r in ws then 1 else 0 {
      if ws != [] { assert ws == [ws[0]] && ws[1..] == []; }
    }
    hide WriteRegisters, SubAll;
  }

  // ---------------------------------------------------------------- the fetch unit's timetable

  /** How many instructions have been fetched in t turns: the first of each line of sixteen takes fifty, every other
      one. */
  function FetchedBy(t: nat): nat { 16 * (t / 65) + if t % 65 < 49 then 0 else t % 65 - 49 }

  /** The instruction that turn t + 1 fetches, if it does. */
  function FetchedNext(app: App, t: nat): Option<nat> {
    if t % 65 >= 49 && FetchedBy(t) < |app.code| then Some(FetchedBy(t)) else None
  }

  lemma FetchedGrows(t: nat)
    ensures FetchedBy(t + 1) == FetchedBy(t) + if t % 65 >= 49 then 1 else 0
    ensures (t + 1) % 65 == (if t % 65 == 64 then 0 else t % 65 + 1)
    ensures (t + 1) / 65 == (if t % 65 == 64 then t / 65 + 1 else t / 65)
    ensures FetchedBy(t) <= 16 * (t / 65) + 15 && (FetchedBy(t) == 16 * (t / 65) <==> t % 65 <= 49)
  {
  }

  /** Where the fetch unit stands after t turns. */
  ghost predicate FrontAt(app: App, fu: FetchState, l1i: seq<Line>, t: nat) {
    && !fu.toClean
    && (fu.complete <==> FetchedBy(t) >= |app.code|)
    && (!fu.complete ==>
          && fu.pc == 4 * FetchedBy(t)
          && (if 0 < t % 65 < 50 then fu.processing && fu.remaining == 50 - t % 65 else !fu.processing)
          && if t % 65 == 0 then NoneHolds(l1i, 64 * (t / 65))
             else l1i != [] && l1i[0].lo == 64 * (t / 65) && l1i[0].hi == 64 * (t / 65) + 64
                  && NoneHolds(l1i[1..], 64 * (t / 65)))
  }

  /** These lines end at or before a. */
  predicate NoneHolds(lines: seq<Line>, a: int) { forall k :: 0 <= k < |lines| ==> lines[k].hi <= a }

  lemma {:induction false} NotFound(lines: seq<Line>, a: Word)
    requires NoneHolds(lines, a)
    ensures Find(lines, a) == |lines|
  {
    if lines != [] { NotFound(lines[1..], a); }
  }

  lemma FetchStarts(app: App, fu: FetchState, l1i: seq<Line>, t: nat)
    requires StraightCode(app) && FrontAt(app, fu, l1i, t) && !fu.complete && !(0 < t % 65 < 50)
    ensures var (f, l) := StartFetch(fu, l1i);
            && f == fu.(processing := true, remaining := if t % 65 == 0 then 50 else 1)
            && l != [] && l[0].lo == 64 * (t / 65) && l[0].hi == 64 * (t / 65) + 64 && NoneHolds(l[1..], 64 * (t / 65))
  {
    FetchedGrows(t);
    if t % 65 == 0 {
      NotFound(l1i, fu.pc);
      var line := Line(fu.pc, Wrap(fu.pc + LINE_LENGTH), FetchLine([], 0));
      var l := Push(l1i, NUMBER_OF_LINES, line);
      assert l[0] == line && l[1..] <= l1i;
    } else {
      assert Covers(l1i[0], fu.pc);
      assert ToFront(l1i, 0) == l1i;
    }
  }

  /** Every turn the fetch unit keeps its timetable, as long as its bus has room. */
  lemma FetchKeepsTime(app: App, fu: FetchState, l1i: seq<Line>, current: Option<Word>, t: nat)
    requires StraightCode(app) && FrontAt(app, fu, l1i, t)
    ensures var (f, l, bus) := FetchCycle(app, fu, l1i, Bus(current, None));
            && FrontAt(app, f, l, t + 1) && Names(app, FetchedNext(app, t))
            && bus == Bus(current, PcOf(FetchedNext(app, t)))
  {
    FetchedGrows(t);
    if !fu.complete {
      if !(0 < t % 65 < 50) { FetchStarts(app, fu, l1i, t); }
      var (f, l) := StartFetch(fu, l1i);
      assert f.remaining == if t % 65 >= 49 then 1 else 50 - t % 65;
      assert l != [] && l[0].lo == 64 * (t / 65) && l[0].hi == 64 * (t / 65) + 64 && NoneHolds(l[1..], 64 * (t / 65));
      if t % 65 == 64 {
        forall k | 0 <= k < |l| ensures l[k].hi <= 64 * (t / 65) + 64 { if k > 0 { assert l[k] == l[1..][k - 1]; } }
      }
      if t % 65 >= 49 { assert Index(4 * (FetchedBy(t) + 1)) == FetchedBy(t) + 1; }
      hide StartFetch, Find;
    }
  }

  // ---------------------------------------------------------------- a turn

  lemma ExecuteTurn(v: Variant, app: App, order: seq<Word>, s: Cpu, a: Option<nat>, b: Option<nat>, c: Option<nat>)
    requires StraightCode(app) && Names(app, a) && Names(app, b) && Names(app, c)
    requires s.xbus == Bus(RunnerOf(app, b), RunnerOf(app, a)) && !s.eu.processing && !s.eu.pendingRead
    requires s.wbus.pending.None? && Counts(app, s.pending, c) && (b.Some? && c.Some? ==> c.value + 1 == b.value)
    ensures var (u, x) := ExecuteCycle(v, app, order, s);
            && x == (if b.Some? then Ran else Stalled)
            && u.fu == s.fu && u.dbus == s.dbus && u.blocked == s.blocked && u.wu == s.wu && u.l1i == s.l1i
            && u.l1d == s.l1d && u.xbus == Bus(RunnerOf(app, a), None) && !u.eu.processing && !u.eu.pendingRead
            && u.wbus.current == s.wbus.current && IsEntry(app, u.wbus.pending, b)
            && forall r: Reg :: Count(u.pending, r)
                 == (if c.Some? && r in WriteRegisters(app.code[c.value]) then 1 else 0)
                    + (if b.Some? && r in WriteRegisters(app.code[b.value]) then 1 else 0)
  {
    if b.Some? {
      ExecuteFlows(v, app, order, s, a, b.value, c);
      AddOne(app, s.pending, b.value, c);
    }
    hide ExecuteCycle, WriteRegisters, AddAll, Steady, Apart;
    if b.None? { NothingToTake(v, app, order, s); }
  }

  lemma NothingToTake(v: Variant, app: App, order: seq<Word>, s: Cpu)
    requires s.xbus.current.None? && !s.eu.processing && !s.eu.pendingRead
    ensures ExecuteCycle(v, app, order, s) == (s.(xbus := s.xbus.Shift()), Stalled)
  {
  }

  lemma FrontTurn(v: Variant, app: App, s: Cpu, t: nat, a: Option<nat>, b: Option<nat>, c: Option<nat>)
    requires StraightCode(app) && Flow(app, s, a, b, c) && FrontAt(app, s.fu, s.l1i, t)
    ensures Names(app, FetchedNext(app, t))
    ensures var f := FetchDecode(v, app, s);
            && f.Some? && FrontAt(app, f.value.fu, f.value.l1i, t + 1)
            && f.value == s.(fu := f.value.fu, l1i := f.value.l1i, dbus := Bus(PcOf(FetchedNext(app, t)), None),
                             xbus := Bus(RunnerOf(app, b), RunnerOf(app, a)))
  {
    FetchKeepsTime(app, s.fu, s.l1i, PcOf(a), t);
    DecodeFlows(v, app, a, b, FetchedNext(app, t));
    hide FetchCycle, DecodeCycle, FrontAt, StraightCode, IsEntry, Counts;
  }

  /** One turn: the fetch unit keeps its timetable, what it fetched last is decoded, what was decoded last runs, and
      what ran last retires. */
  lemma TurnFlows(v: Variant, app: App, order: seq<Word>, s: Cpu, t: nat, a: Option<nat>, b: Option<nat>,
                  c: Option<nat>)
    requires StraightCode(app) && Flow(app, s, a, b, c) && FrontAt(app, s.fu, s.l1i, t)
    requires b.Some? && c.Some? ==> c.value + 1 == b.value
    ensures var u, h := CycleOnce(v, app, order, s), FetchedNext(app, t);
            && Flow(app, u.next, h, a, b) && FrontAt(app, u.next.fu, u.next.l1i, t + 1) && u.next.l1d == s.l1d
            && u.ran == b.Some? && u.cycles == 1
            && u.stop == if FetchedBy(t + 1) >= |app.code| && h.None? && a.None? && b.None? then Some(End) else None
  {
    hide FrontAt, StraightCode, IsEntry, Counts, ExecuteCycle, FetchDecode, WriteCycle, WriteRegisters;
    FrontTurn(v, app, s, t, a, b, c);
    var f := FetchDecode(v, app, s).value;
    CountsAre(app, f.pending, c);
    ExecuteTurn(v, app, order, f, a, b, c);
    var u := ExecuteCycle(v, app, order, f).0;
    WriteFlows(app, Retirement(u), b, c);
    CycleUnfolds(v, app, order, s, f, u, ExecuteCycle(v, app, order, f).1);
    FrontComplete(app, u.fu, u.l1i, t + 1);
    hide CycleOnce;
    EntryIsSome(app, u.wbus.pending, b);
  }

  lemma CountsAre(app: App, pending: Pending, c: Option<nat>)
    requires Names(app, c) && Counts(app, pending, c)
    ensures forall r: Reg :: Count(pending, r) == if c.Some? && r in WriteRegisters(app.code[c.value]) then 1 else 0
  {
    hide WriteRegisters;
  }

  lemma EntryIsSome(app: App, w: Option<WriteEntry>, k: Option<nat>)
    requires Names(app, k) && IsEntry(app, w, k)
    ensures w.Some? <==> k.Some?
  {
    hide WriteRegisters;
  }

  lemma FrontComplete(app: App, fu: FetchState, l1i: seq<Line>, t: nat)
    requires FrontAt(app, fu, l1i, t)
    ensures (fu.complete <==> FetchedBy(t) >= |app.code|) && !fu.toClean
  {
  }

  // ---------------------------------------------------------------- whole runs

  /** What turn t has fetched. */
  function FetchedIn(app: App, t: int): Option<nat> { if t <= 0 then None else FetchedNext(app, t - 1) }

  /** The instructions that have run in t turns: those fetched two turns before. */
  function RunBy(app: App, t: nat): nat {
    var k := if t < 2 then 0 else FetchedBy(t - 2);
    if k < |app.code| then k else |app.code|
  }

  ghost predicate OnTime(app: App, p: Progress, t: nat) {
    && p.stop.None? && p.cycles == t && p.executed == RunBy(app, t)
    && FrontAt(app, p.cpu.fu, p.cpu.l1i, t)
    && Flow(app, p.cpu, FetchedIn(app, t), FetchedIn(app, t - 1), FetchedIn(app, t - 2))
  }

  /** The turn that fetches the last of n instructions. */
  function LastFetch(n: nat): (h: nat)
    requires n > 0
    ensures h >= 50
  {
    65 * ((n - 1) / 16) + 50 + (n - 1) % 16
  }

  lemma LastFetchIsLast(n: nat, t: nat)
    requires n > 0
    ensures var h := LastFetch(n);
            && FetchedBy(h - 1) == n - 1 && (h - 1) % 65 >= 49
            && (FetchedBy(t) >= n <==> t >= h)
  {
    var q, r := (n - 1) / 16, (n - 1) % 16;
    var h := LastFetch(n);
    assert h - 1 == 65 * q + (49 + r);
    assert (h - 1) / 65 == q && (h - 1) % 65 == 49 + r;
    var a, b := t / 65, t % 65;
    assert t == 65 * a + b && n - 1 == 16 * q + r;
  }

  lemma Neighbours(app: App, t: int)
    ensures FetchedIn(app, t).Some? && FetchedIn(app, t - 1).Some? ==>
              FetchedIn(app, t - 1).value + 1 == FetchedIn(app, t).value
  {
    if t >= 2 { FetchedGrows(t - 2); }
  }

  lemma RunsByTime(app: App, t: nat)
    ensures RunBy(app, t + 1) == RunBy(app, t) + if FetchedIn(app, t - 1).Some? then 1 else 0
  {
    if t >= 2 { FetchedGrows(t - 2); }
  }

  lemma NextOnTime(v: Variant, app: App, orders: nat -> seq<Word>, p: Progress, t: nat)
    requires StraightCode(app) && OnTime(app, p, t)
    ensures var q, h := Advance(v, app, orders, p), LastFetch(|app.code|);
            && q.cpu.l1d == p.cpu.l1d
            && if t < h + 2 then OnTime(app, q, t + 1)
               else t == h + 2 ==> q.stop == Some(End) && q.cycles == t + 1 && q.executed == |app.code|
  {
    hide Flow, FrontAt, StraightCode, CycleOnce, FetchedBy, RunBy;
    Neighbours(app, t - 1);
    RunsByTime(app, t);
    TurnFlows(v, app, orders(p.executed), p.cpu, t, FetchedIn(app, t), FetchedIn(app, t - 1), FetchedIn(app, t - 2));
    HasCode(app);
    WhatIsFetched(app, t);
  }

  lemma HasCode(app: App)
    requires StraightCode(app)
    ensures |app.code| > 0
  {
  }

  lemma WhatIsFetched(app: App, t: nat)
    requires |app.code| > 0
    ensures var h := LastFetch(|app.code|);
            var done := FetchedBy(t + 1) >= |app.code| && FetchedNext(app, t).None? && FetchedIn(app, t).None?
              && FetchedIn(app, t - 1).None?;
            && (t < h + 2 ==> !done)
            && (t == h + 2 ==> done && RunBy(app, t + 1) == |app.code|)
  {
    hide FetchedBy, LastFetch;
    var n := |app.code|;
    var h := LastFetch(n);
    LastFetchIsLast(n, t);
    LastFetchIsLast(n, t + 1);
    if t >= 1 { LastFetchIsLast(n, t - 1); }
    if t >= 2 { LastFetchIsLast(n, t - 2); }
    assert FetchedNext(app, h - 1) == Some(n - 1);
  }

  /** Straight register code on a core as built, to the cycle: after t turns as many instructions have run as the fetch
      unit had fetched two turns before, sixteen in each 65 turns, and the run ends 3 turns after its last fetch. */
  lemma {:induction false} StraightCodeTakes(v: Variant, app: App, orders: nat -> seq<Word>, s: Cpu, t: nat)
    requires StraightCode(app) && Fresh(s)
    ensures var p, h := AfterTurns(v, app, orders, Begin(s), t), LastFetch(|app.code|);
            && (t <= h + 2 ==> OnTime(app, p, t))
            && (t > h + 2 ==> p.stop == Some(End) && p.cycles == h + 3 && p.executed == |app.code|)
  {
    hide OnTime, Advance, StraightCode, Fresh, LastFetch;
    HasCode(app);
    if t == 0 {
      BeginsOnTime(app, s);
    } else {
      StraightCodeTakes(v, app, orders, s, t - 1);
      var p := AfterTurns(v, app, orders, Begin(s), t - 1);
      if t - 1 <= LastFetch(|app.code|) + 2 { NextOnTime(v, app, orders, p, t - 1); }
      else { StoppedAdvance(v, app, orders, p); }
    }
  }

  lemma StoppedAdvance(v: Variant, app: App, orders: nat -> seq<Word>, p: Progress)
    requires p.stop.Some?
    ensures Advance(v, app, orders, p) == p
  {
    hide CycleOnce;
  }

  lemma BeginsOnTime(app: App, s: Cpu)
    requires StraightCode(app) && Fresh(s)
    ensures OnTime(app, Begin(s), 0)
  {
    hide WriteRegisters, Steady, Apart;
  }
}
