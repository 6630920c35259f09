/** What the splices of the source do to `lines`, with history and screen told apart. */
module Splices {
  import opened Sequences

  /** `s.slice(-k)`, which is all of s for k == 0. */
  function SliceLast<T>(s: seq<T>, k: nat): seq<T> { if k == 0 then s else LastN(s, k) }

  /** The insertion and the removal of `scroll`, behind whatever history p is left. */
  lemma ScrollSplice<T>(p: seq<T>, s: seq<T>, top: nat, bottom: nat, v: T)
    requires top <= bottom < |s|
    ensures var t := InsertAt(p + s, |p| + 1 + bottom, v);
      && |t| == |p| + |s| + 1
      && (top == 0 ==> t[..|p| + 1] == p + [s[0]] && t[|p| + 1..] == ShiftUp(s, top, bottom + 1, 1, v))
      && RemoveAt(t, |p| + top)[..|p|] == p
      && RemoveAt(t, |p| + top)[|p|..] == ShiftUp(s, top, bottom + 1, 1, v)
  {
    var t := InsertAt(p + s, |p| + 1 + bottom, v);
    var u := s[..bottom + 1] + [v] + s[bottom + 1..];
    assert t == p + u;
    assert u == InsertAt(s, bottom + 1, v);
    InsertThenRemove(s, top, bottom + 1, v);
    assert RemoveAt(t, |p| + top) == p + RemoveAt(u, top);
    assert top == 0 ==> u[1..] == RemoveAt(u, 0);
    assert t[..|p| + 1] == p + [s[0]];
    assert t[|p| + 1..] == u[1..];
  }

  /** Trimming keeps the end of history and the whole screen. */
  lemma TrimSplit<T>(h: seq<T>, s: seq<T>, k: nat)
    requires 1 <= k <= |h| + 1 && |s| >= 1
    ensures SliceLast(h + s, k + |s| - 1) == LastN(h, k - 1) + s
    ensures LastN(h, k - 1) + [s[0]] == LastN(h + [s[0]], k)
  {
    var drop := |h| + 1 - k;
    assert SliceLast(h + s, k + |s| - 1) == (h + s)[drop..];
    assert (h + s)[drop..] == h[drop..] + s;
    assert (h + [s[0]])[drop..] == h[drop..] + [s[0]];
  }

  lemma SplitBack<T>(h: seq<T>, s: seq<T>)
    ensures (h + s)[..|h|] == h && (h + s)[|h|..] == s
  {
  }

  /** A block move behind history, as seen on the two parts. */
  lemma MovedBlock<T>(lines: seq<T>, base: nat, a: nat, b: nat, n: nat, v: T)
    requires base <= |lines| && a <= b <= |lines| - base
    ensures var s := lines[base..];
      && ShiftUp(lines, base + a, base + b, n, v)[..base] == lines[..base]
      && ShiftUp(lines, base + a, base + b, n, v)[base..] == ShiftUp(s, a, b, n, v)
      && ShiftDown(lines, base + a, base + b, n, v)[..base] == lines[..base]
      && ShiftDown(lines, base + a, base + b, n, v)[base..] == ShiftDown(s, a, b, n, v)
  {
    var h, s := lines[..base], lines[base..];
    assert lines == h + s;
    ShiftBehind(h, s, a, b, n, v);
    hide ShiftUp, ShiftDown;
    SplitBack(h, ShiftUp(s, a, b, n, v));
    SplitBack(h, ShiftDown(s, a, b, n, v));
  }

  /** Replacing one line of the screen. */
  lemma EditedLine<T>(lines: seq<T>, base: nat, y: nat, v: T)
    requires base + y < |lines|
    ensures lines[base + y := v][..base] == lines[..base]
    ensures lines[base + y := v][base..] == lines[base..][y := v]
  {
  }
}
