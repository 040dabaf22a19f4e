/** The buses between the units of MVP-6.0 and MVP-6.1 (proc/comp/bus.go, from line 43 on). */
module BufferedBus {

  datatype Timed<+T> = Timed(from: int, value: T)

  function Values<T>(buffer: seq<Timed<T>>): (vs: seq<T>)
    ensures |vs| == |buffer| && forall k :: 0 <= k < |vs| ==> vs[k] == buffer[k].value
  {
    seq(|buffer|, k requires 0 <= k < |buffer| => buffer[k].value)
  }

  /** How many entries of the buffer a connect moves behind a queue of q entries. */
  function Moved<T>(q: nat, queueLength: nat, buffer: seq<Timed<T>>, cycle: int): (m: nat)
    requires q <= queueLength
    ensures m <= |buffer|
    decreases |buffer|
  {
    if buffer == [] || q == queueLength || buffer[0].from > cycle then 0
    else 1 + Moved(q + 1, queueLength, buffer[1..], cycle)
  }

  datatype Bus<+T> = Bus(queue: seq<T>, buffer: seq<Timed<T>>) {
    function Contents(): seq<T> { queue + Values(buffer) }

    predicate CanAdd(bufferLength: nat) { |buffer| != bufferLength }

    predicate IsEmpty() { queue == [] && buffer == [] }

    function Connect(queueLength: nat, cycle: int): Bus<T> {
      if |queue| >= queueLength then this else
        var m := Moved(|queue|, queueLength, buffer, cycle);
        Bus(queue + Values(buffer[..m]), buffer[m..])
    }
  }

  /** Additions are never refused: callers ask CanAdd first, or do not. */
  function Add<T>(b: Bus<T>, t: T, cycle: int): Bus<T> {
    b.(buffer := b.buffer + [Timed(cycle + 1, t)])
  }

  function AddAll<T>(b: Bus<T>, ts: seq<T>, cycle: int): Bus<T>
    decreases |ts|
  {
    if ts == [] then b else AddAll(Add(b, ts[0], cycle), ts[1..], cycle)
  }

  lemma AddContents<T>(b: Bus<T>, t: T, cycle: int)
    ensures Add(b, t, cycle).Contents() == b.Contents() + [t]
  {
  }

  lemma {:induction false} AddAllContents<T>(b: Bus<T>, ts: seq<T>, cycle: int)
    ensures AddAll(b, ts, cycle).Contents() == b.Contents() + ts
    ensures AddAll(b, ts, cycle).queue == b.queue
    decreases |ts|
  {
    if ts != [] {
      AddContents(b, ts[0], cycle);
      AddAllContents(Add(b, ts[0], cycle), ts[1..], cycle);
    }
  }

  // ---------------------------------------------------------------- connecting

  /** A connect moves as many entries as are available and fit, from the front, and no more. */
  lemma {:induction false} MovedIsLongest<T>(q: nat, queueLength: nat, buffer: seq<Timed<T>>, cycle: int)
    requires q <= queueLength
    ensures var m := Moved(q, queueLength, buffer, cycle);
            && q + m <= queueLength
            && (forall k :: 0 <= k < m ==> buffer[k].from <= cycle)
            && (m < |buffer| ==> q + m == queueLength || buffer[m].from > cycle)
    decreases |buffer|
  {
    if !(buffer == [] || q == queueLength || buffer[0].from > cycle) {
      MovedIsLongest(q + 1, queueLength, buffer[1..], cycle);
      var m := Moved(q, queueLength, buffer, cycle);
      forall k | 0 <= k < m ensures buffer[k].from <= cycle {
        if k > 0 { assert buffer[k] == buffer[1..][k - 1]; }
      }
    }
  }

  /** Connecting reorders and loses nothing. */
  lemma ConnectContents<T>(b: Bus<T>, queueLength: nat, cycle: int)
    ensures b.Connect(queueLength, cycle).Contents() == b.Contents()
    ensures |b.queue| <= queueLength ==> |b.Connect(queueLength, cycle).queue| <= queueLength
  {
    if |b.queue| < queueLength {
      MovedIsLongest(|b.queue|, queueLength, b.buffer, cycle);
      var m := Moved(|b.queue|, queueLength, b.buffer, cycle);
      ValuesSplit(b.buffer, m);
      Associates(b.queue, Values(b.buffer[..m]), Values(b.buffer[m..]));
      hide Values, Moved;
    }
  }

  lemma Associates<T>(a: seq<T>, b: seq<T>, c: seq<T>)
    ensures (a + b) + c == a + (b + c)
  {
  }

  lemma ValuesSplit<T>(buffer: seq<Timed<T>>, m: nat)
    requires m <= |buffer|
    ensures Values(buffer) == Values(buffer[..m]) + Values(buffer[m..])
  {
  }

  // ---------------------------------------------------------------- histories

  datatype Op<+T> = DoAdd(t: T) | DoGet | DoConnect

  /** An operation with the cycle it happens in. */
  datatype Event<+T> = Event(op: Op<T>, cycle: int)

  datatype History<+T> = History(bus: Bus<T>, taken: seq<T>, added: seq<Timed<T>>)

  function Apply<T>(queueLength: nat, h: History<T>, e: Event<T>): History<T> {
    match e.op
    case DoAdd(t) => h.(bus := Add(h.bus, t, e.cycle), added := h.added + [Timed(e.cycle + 1, t)])
    case DoGet => if h.bus.queue == [] then h
                  else h.(bus := h.bus.(queue := h.bus.queue[1..]), taken := h.taken + [h.bus.queue[0]])
    case DoConnect => h.(bus := h.bus.Connect(queueLength, e.cycle))
  }

  function Play<T>(queueLength: nat, events: seq<Event<T>>): History<T> {
    if events == [] then History(Bus([], []), [], [])
    else Apply(queueLength, Play(queueLength, events[..|events| - 1]), events[|events| - 1])
  }

  /** Cycles do not run backwards. */
  ghost predicate InOrder<T(!new)>(events: seq<Event<T>>) {
    forall i, j :: 0 <= i < j < |events| ==> events[i].cycle <= events[j].cycle
  }

  ghost predicate AvailableBy<T(!new)>(entries: seq<Timed<T>>, cycle: int) {
    forall k :: 0 <= k < |entries| ==> entries[k].from <= cycle
  }

  /** What came out, then the queue, then the buffer, is what went in; what left the buffer had been available. */
  ghost predicate IsFifo<T(!new)>(queueLength: nat, h: History<T>, now: int) {
    && |h.taken| + |h.bus.queue| <= |h.added|
    && h.taken + h.bus.queue == Values(h.added[..|h.taken| + |h.bus.queue|])
    && h.bus.buffer == h.added[|h.taken| + |h.bus.queue|..]
    && |h.bus.queue| <= queueLength
    && AvailableBy(h.added[..|h.taken| + |h.bus.queue|], now)
    && AvailableBy(h.added, now + 1)
  }

  lemma AddKeepsFifo<T(!new)>(queueLength: nat, h: History<T>, t: T, cycle: int, now: int)
    requires IsFifo(queueLength, h, now) && now <= cycle
    ensures IsFifo(queueLength, Apply(queueLength, h, Event(DoAdd(t), cycle)), cycle)
  {
    var h1 := Apply(queueLength, h, Event(DoAdd(t), cycle));
    var n := |h.taken| + |h.bus.queue|;
    assert h1.added[..n] == h.added[..n] && h1.added[n..] == h.added[n..] + [Timed(cycle + 1, t)];
  }

  lemma GetKeepsFifo<T(!new)>(queueLength: nat, h: History<T>, cycle: int, now: int)
    requires IsFifo(queueLength, h, now) && now <= cycle
    ensures IsFifo(queueLength, Apply(queueLength, h, Event(DoGet, cycle)), cycle)
  {
    var h1 := Apply(queueLength, h, Event(DoGet, cycle));
    assert h1.taken + h1.bus.queue == h.taken + h.bus.queue;
  }

  lemma LongerPrefix<T(!new)>(added: seq<Timed<T>>, at: nat, m: nat, now: int, cycle: int)
    requires at + m <= |added| && now <= cycle
    requires AvailableBy(added[..at], now) && AvailableBy(added[at..][..m], cycle)
    ensures Values(added[..at + m]) == Values(added[..at]) + Values(added[at..][..m])
    ensures added[at..][m..] == added[at + m..]
    ensures AvailableBy(added[..at + m], cycle)
  {
    forall k | 0 <= k < at + m ensures added[k].from <= cycle {
      if k < at { assert added[k] == added[..at][k]; } else { assert added[k] == added[at..][..m][k - at]; }
    }
  }

  lemma MoveKeepsFifo<T(!new)>(queueLength: nat, h: History<T>, m: nat, more: seq<T>, cycle: int, now: int)
    requires IsFifo(queueLength, h, now) && now <= cycle
    requires m <= |h.bus.buffer| && AvailableBy(h.bus.buffer[..m], cycle) && |h.bus.queue| + m <= queueLength
    requires more == Values(h.bus.buffer[..m])
    ensures IsFifo(queueLength, h.(bus := Bus(h.bus.queue + more, h.bus.buffer[m..])), cycle)
  {
    LongerPrefix(h.added, |h.taken| + |h.bus.queue|, m, now, cycle);
    Associates(h.taken, h.bus.queue, more);
    hide Values, AvailableBy;
  }

  lemma ConnectKeepsFifo<T(!new)>(queueLength: nat, h: History<T>, cycle: int, now: int)
    requires IsFifo(queueLength, h, now) && now <= cycle
    ensures IsFifo(queueLength, Apply(queueLength, h, Event(DoConnect, cycle)), cycle)
  {
    if |h.bus.queue| < queueLength {
      MovedIsLongest(|h.bus.queue|, queueLength, h.bus.buffer, cycle);
      var m := Moved(|h.bus.queue|, queueLength, h.bus.buffer, cycle);
      MoveKeepsFifo(queueLength, h, m, Values(h.bus.buffer[..m]), cycle, now);
    } else {
      LongerPrefix(h.added, |h.taken| + |h.bus.queue|, 0, now, cycle);
    }
  }

  /** Every history with cycles in order is that of a first-in first-out queue whose entries come out no earlier than
      the cycle after the one they went in. */
  lemma {:induction false} RefinesTimedFifo<T(!new)>(queueLength: nat, events: seq<Event<T>>, start: int)
    requires InOrder(events) && (forall k :: 0 <= k < |events| ==> start <= events[k].cycle)
    ensures IsFifo(queueLength, Play(queueLength, events), if events == [] then start else events[|events| - 1].cycle)
  {
    if events != [] {
      var last := |events| - 1;
      RefinesTimedFifo(queueLength, events[..last], start);
      var h, now := Play(queueLength, events[..last]), if last == 0 then start else events[last - 1].cycle;
      var cycle := events[last].cycle;
      match events[last].op
      case DoAdd(t) => AddKeepsFifo(queueLength, h, t, cycle, now);
      case DoGet => GetKeepsFifo(queueLength, h, cycle, now);
      case DoConnect => ConnectKeepsFifo(queueLength, h, cycle, now);
    }
  }
}
