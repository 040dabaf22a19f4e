/** The LRU cache of lines (proc/comp/cache.go). */
module Cache {
  import opened Words

  /** Bytes for the addresses lo (included) to hi (excluded). */
  datatype RawLine = Line(lo: Word, hi: Word, data: seq<Byte>)
  type Line = l: RawLine | l.hi - l.lo <= |l.data| witness Line(0, 0, [])

  predicate Covers(l: Line, a: Word) { l.lo <= a < l.hi }

  function At(l: Line, a: Word): Byte
    requires Covers(l, a)
  {
    l.data[a - l.lo]
  }

  /** Position of the first line that covers a, or the number of lines. */
  function Find(lines: seq<Line>, a: Word): (i: nat)
    ensures i <= |lines|
    ensures i < |lines| ==> Covers(lines[i], a)
    ensures forall j :: 0 <= j < i ==> !Covers(lines[j], a)
  {
    if lines == [] || Covers(lines[0], a) then 0 else 1 + Find(lines[1..], a)
  }

  function ToFront(lines: seq<Line>, i: nat): seq<Line>
    requires i < |lines|
  {
    [lines[i]] + lines[..i] + lines[i + 1..]
  }

  /** A hit moves the line to the front. */
  function Get(lines: seq<Line>, a: Word): (Option<Byte>, seq<Line>) {
    var i := Find(lines, a);
    if i == |lines| then (None, lines) else (Some(At(lines[i], a)), ToFront(lines, i))
  }

  /** Reads the addresses in turn and gives up at the first miss; earlier hits keep their new places. */
  function GetAll(lines: seq<Line>, addrs: seq<Word>): (r: (Option<seq<Byte>>, seq<Line>))
    ensures r.0.Some? ==> |r.0.value| == |addrs|
    decreases |addrs|
  {
    if addrs == [] then (Some([]), lines) else
      var (b, lines1) := Get(lines, addrs[0]);
      if b.None? then (None, lines1) else
        var (bs, lines2) := GetAll(lines1, addrs[1..]);
        (if bs.None? then None else Some([b.value] + bs.value), lines2)
  }

  function Overwrite(l: Line, a: Word, data: seq<Byte>): Line
    requires l.lo <= a && a - l.lo + |data| <= |l.data|
  {
    var at := a - l.lo;
    l.(data := l.data[..at] + data + l.data[at + |data|..])
  }

  /** Writes into the first line that covers the address; None where the source panics. */
  function WriteTo(lines: seq<Line>, a: Word, data: seq<Byte>): Option<seq<Line>> {
    var i := Find(lines, a);
    if i == |lines| || a - lines[i].lo + |data| > |lines[i].data| then None
    else Some(lines[i := Overwrite(lines[i], a, data)])
  }

  /** A new line goes to the front; beyond n lines the last one is dropped. */
  function Push(lines: seq<Line>, n: nat, l: Line): seq<Line> {
    var all := [l] + lines;
    if |all| > n then all[..n] else all
  }

  /** What the source does to its `lines` field, in place. */
  class LRUCache {
    const numberOfLines: nat
    const lineLength: nat
    var lines: seq<Line>

    constructor (lineLength: nat, cacheLength: nat)
      requires lineLength > 0 && cacheLength % lineLength == 0
      ensures lines == [] && this.lineLength == lineLength && numberOfLines == cacheLength / lineLength
    {
      this.lineLength := lineLength;
      numberOfLines := cacheLength / lineLength;
      lines := [];
    }

    method Read(a: Word) returns (b: Option<Byte>)
      modifies this
      ensures (b, lines) == Get(old(lines), a)
    {
      var i := 0;
      while i < |lines|
        invariant i <= |lines| && lines == old(lines)
        invariant forall j :: 0 <= j < i ==> !Covers(lines[j], a)
      {
        if Covers(lines[i], a) {
          b := Some(At(lines[i], a));
          lines := [lines[i]] + lines[..i] + lines[i + 1..];
          return;
        }
        i := i + 1;
      }
      b := None;
    }

    /** `ok` is false where the source panics. */
    method Write(a: Word, data: seq<Byte>) returns (ok: bool)
      modifies this
      ensures ok == WriteTo(old(lines), a, data).Some?
      ensures lines == if ok then WriteTo(old(lines), a, data).value else old(lines)
    {
      var i := 0;
      while i < |lines|
        invariant i <= |lines| && lines == old(lines)
        invariant forall j :: 0 <= j < i ==> !Covers(lines[j], a)
      {
        if Covers(lines[i], a) {
          if a - lines[i].lo + |data| > |lines[i].data| {
            return false;
          }
          lines := lines[i := Overwrite(lines[i], a, data)];
          return true;
        }
        i := i + 1;
      }
      return false;
    }

    /** Returns the data of the last line that stays when the cache was full, and nothing otherwise. */
    method PushLine(a: Word, data: seq<Byte>) returns (evicted: seq<Byte>)
      requires |data| == lineLength && numberOfLines > 0
      modifies this
      ensures lines == Push(old(lines), numberOfLines, Line(a, Wrap(a + lineLength), data))
      ensures evicted == if |old(lines)| + 1 > numberOfLines then lines[|lines| - 1].data else []
    {
      lines := [Line(a, Wrap(a + lineLength), data)] + lines;
      evicted := [];
      if |lines| > numberOfLines {
        lines := lines[..numberOfLines];
        evicted := lines[|lines| - 1].data;
      }
    }
  }
}
