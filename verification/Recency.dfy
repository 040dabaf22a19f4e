/** The order of the cache's lines is the order of their last use (proc/comp/cache.go). */
module Recency {
  import opened Words
  import opened Cache
  import CoherentRun

  datatype Use = DoGet(a: Word) | DoWrite(a: Word, data: seq<Byte>) | DoPush(line: Line)

  /** The lines, and for each the time it was last hit by a Get or inserted. */
  datatype Stamped = Stamped(lines: seq<Line>, stamps: seq<nat>)

  function Apply(n: nat, s: Stamped, use: Use, now: nat): Stamped
    requires |s.stamps| == |s.lines|
  {
    match use
    case DoGet(a) =>
      var i := Find(s.lines, a);
      if i == |s.lines| then s
      else Stamped(Get(s.lines, a).1, [now] + s.stamps[..i] + s.stamps[i + 1..])
    case DoWrite(a, data) =>
      var w := WriteTo(s.lines, a, data);
      if w.None? then s else s.(lines := w.value)
    case DoPush(line) =>
      var stamps := [now] + s.stamps;
      Stamped(Push(s.lines, n, line), if |stamps| > n then stamps[..n] else stamps)
  }

  function CacheAfter(n: nat, uses: seq<Use>): (s: Stamped)
    ensures |s.stamps| == |s.lines|
  {
    if uses == [] then Stamped([], [])
    else Apply(n, CacheAfter(n, uses[..|uses| - 1]), uses[|uses| - 1], |uses|)
  }

  /** Most recent first, and nothing from the future. */
  ghost predicate Recent(stamps: seq<nat>, now: nat) {
    && (forall i, j :: 0 <= i < j < |stamps| ==> stamps[i] > stamps[j])
    && forall i :: 0 <= i < |stamps| ==> stamps[i] <= now
  }

  lemma FrontIsRecent(stamps: seq<nat>, i: nat, now: nat)
    requires Recent(stamps, now) && i < |stamps|
    ensures Recent([now + 1] + stamps[..i] + stamps[i + 1..], now + 1)
  {
    var stamps1 := [now + 1] + stamps[..i] + stamps[i + 1..];
    var at := (k: int) => if k <= i then k - 1 else k;
    assert forall k :: 0 < k < |stamps1| ==> stamps1[k] == stamps[at(k)];
  }

  /** After every history the lines stand in the order of their last hit or insertion, and there are at most n. */
  lemma {:induction false} OrderIsRecency(n: nat, uses: seq<Use>)
    ensures var s := CacheAfter(n, uses); |s.lines| <= n && Recent(s.stamps, |uses|)
  {
    if uses != [] {
      var last := |uses| - 1;
      OrderIsRecency(n, uses[..last]);
      var s := CacheAfter(n, uses[..last]);
      match uses[last]
      case DoGet(a) => if Find(s.lines, a) < |s.lines| { FrontIsRecent(s.stamps, Find(s.lines, a), last); }
      case DoWrite(a, data) =>
      case DoPush(line) =>
    }
  }

  /** So the line that a push drops is the least recently used, and it drops one only when the cache is full. */
  lemma DroppedIsLeastRecent(n: nat, uses: seq<Use>, line: Line)
    requires n > 0
    ensures var s := CacheAfter(n, uses);
            var lines1 := Push(s.lines, n, line);
            if |s.lines| < n then lines1 == [line] + s.lines
            else lines1 == [line] + s.lines[..n - 1] && forall k :: 0 <= k < n - 1 ==> s.stamps[n - 1] < s.stamps[k]
  {
    OrderIsRecency(n, uses);
  }

  /** A hit permutes the lines; while they are disjoint it changes no lookup. */
  lemma HitChangesNoLookup(lines: seq<Line>, i: nat, a: Word)
    requires i < |lines|
    ensures multiset(ToFront(lines, i)) == multiset(lines)
    ensures CoherentRun.Disjoint(lines) ==> Get(ToFront(lines, i), a).0 == Get(lines, a).0
  {
    assert lines == lines[..i] + [lines[i]] + lines[i + 1..];
    if CoherentRun.Disjoint(lines) {
      CoherentRun.PermutedStaysDisjoint(lines, i);
      var lines1 := ToFront(lines, i);
      SameCoverSameByte(lines, lines1, a);
    }
  }

  lemma SameCoverSameByte(lines: seq<Line>, lines1: seq<Line>, a: Word)
    requires CoherentRun.Disjoint(lines) && multiset(lines) == multiset(lines1)
    ensures Get(lines1, a).0 == Get(lines, a).0
  {
    var i, j := Find(lines, a), Find(lines1, a);
    if i < |lines| {
      assert lines[i] in multiset(lines1);
      assert lines[i] in lines1;
    }
    if j < |lines1| {
      assert lines1[j] in multiset(lines);
      assert lines1[j] in lines;
    }
  }
}
