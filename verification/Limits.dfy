/** `scroll` on the line array and its offset, for every scrollback limit. A limit of 1,
    which the closed form of a scroll leaves out, is where the two can come apart. */
module Limits {
  import opened Sequences
  import opened Buffer
  import opened Resizing
  import opened Splices
  import opened Loops

  /** lines and ybase after the slice. */
  function TrimmedLines(b: Buf, scrollback: nat): (r: (seq<Line>, nat))
    requires Inv(b)
    ensures r.1 + b.bottom <= |r.0| && 1 <= |r.0|
  {
    var ybase := |b.history| + 1;
    if ybase == scrollback then (SliceLast(Lines(b), ybase / 2 + b.rows - 1), ybase / 2) else (Lines(b), ybase)
  }

  /** And after the new line, and the line that leaves the region. */
  function RawScroll(b: Buf, scrollback: nat): (seq<Line>, nat)
    requires Inv(b)
  {
    var (kept, ybase) := TrimmedLines(b, scrollback);
    var lines := InsertAt(kept, ybase + b.bottom, BlankLine(b.cols, DEF_ATTR));
    if b.top == 0 then (lines, ybase)
    else
      var less := if ybase == 0 then 0 else ybase - 1;
      (RemoveAt(lines, less + b.top), less)
  }

  /** Unless the limit is 1 this is history ++ screen after a scroll, split where it ends. */
  lemma RawScrollIsScroll(b: Buf, scrollback: nat)
    requires Inv(b) && scrollback != 1
    ensures var r := Scroll(b, scrollback); RawScroll(b, scrollback) == (Lines(r), |r.history|)
  {
    hide Inv, Scroll, InsertAt, RemoveAt, SliceLast, Copies, KeptHistory, Above, Below;
    Bounds(b);
    var p, blank := KeptHistory(b.history, scrollback), BlankLine(b.cols, DEF_ATTR);
    KeptIsTrimmed(b, scrollback);
    var t := InsertAt(p + b.screen, |p| + 1 + b.bottom, blank);
    var lines := if b.top == 0 then t else RemoveAt(t, |p| + b.top);
    var ybase := if b.top == 0 then |p| + 1 else |p|;
    ScrollFinished(b, scrollback, t, blank, lines, ybase);
    assert Above(lines, ybase) + Below(lines, ybase) == lines && |Above(lines, ybase)| == ybase by { SplitLength(lines, ybase); }
  }

  lemma SplitLength(lines: seq<Line>, ybase: nat)
    requires ybase <= |lines|
    ensures Above(lines, ybase) + Below(lines, ybase) == lines && |Above(lines, ybase)| == ybase
  {
  }

  lemma KeptIsTrimmed(b: Buf, scrollback: nat)
    requires Inv(b) && scrollback != 1
    ensures var p := KeptHistory(b.history, scrollback); TrimmedLines(b, scrollback) == (p + b.screen, |p| + 1)
  {
    if |b.history| + 1 == scrollback { TrimSplit(b.history, b.screen, scrollback / 2); }
  }

  /** The array keeps one line per row below ybase if and only if it is not a limit of 1
      that is reached with a top margin set or on a screen of a single row: a margin then
      costs a line, and a single row gains one. */
  lemma ScrollKeepsSize(b: Buf, scrollback: nat)
    requires Inv(b)
    ensures var r := RawScroll(b, scrollback);
      |r.0| == r.1 + b.rows <==> scrollback != 1 || b.history != [] || (b.top == 0 && b.rows >= 2)
  {
    hide InsertAt, RemoveAt;
  }

  /** With a limit of 1 nothing is ever kept from an empty history, and nothing ever
      trimmed from another one, as if there were no limit at all. */
  lemma LimitOfOne(b: Buf)
    requires Inv(b)
    ensures b.history == [] && b.top == 0 && b.rows >= 2 ==>
      RawScroll(b, 1) == (ShiftUp(b.screen, 0, b.bottom + 1, 1, BlankLine(b.cols, DEF_ATTR)), 0)
    ensures b.history != [] ==> var r := Scroll(b, 0); RawScroll(b, 1) == (Lines(r), |r.history|)
  {
    hide Scroll, ShiftUp, InsertAt, SliceLast, Copies;
    if b.history == [] {
      assert Lines(b) == b.screen;
      if b.rows >= 2 {
        FirstLineLost(b.screen, b.bottom, BlankLine(b.cols, DEF_ATTR));
      }
    } else {
      RawScrollIsScroll(b, 0);
    }
  }

  lemma FirstLineLost(s: seq<Line>, bottom: nat, v: Line)
    requires bottom < |s| && 2 <= |s|
    ensures |SliceLast(s, |s| - 1)| == |s| - 1
    ensures InsertAt(SliceLast(s, |s| - 1), bottom, v) == ShiftUp(s, 0, bottom + 1, 1, v)
  {
    assert SliceLast(s, |s| - 1) == s[1..];
    assert s[1..][..bottom] == s[1..bottom + 1] && s[1..][bottom..] == s[bottom + 1..];
  }
}
