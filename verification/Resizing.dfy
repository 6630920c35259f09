/** Resizing the buffer: lines are cut or padded, rows move between history and
    screen so that the cursor stays on its line. */
module Resizing {
  import opened Sequences
  import opened TabStops
  import opened Buffer

  /** Growing pads short lines; otherwise long lines are cut, even at equal width. */
  function FitLine(line: Line, oldCols: int, cols: int): (r: Line)
    requires 1 <= cols
    ensures |line| >= oldCols ==> |r| >= cols
    ensures |r| >= Min(|line|, cols)
    ensures r[..Min(|line|, cols)] == line[..Min(|line|, cols)]
    ensures |line| == oldCols == cols ==> r == line
  {
    if oldCols < cols then
      if |line| < cols then line + Copies(cols - |line|, Blank(DEF_ATTR)) else line
    else
      if |line| > cols then line[..cols] else line
  }

  function FitLines(lines: seq<Line>, oldCols: int, cols: int): (r: seq<Line>)
    requires 1 <= cols
    ensures |r| == |lines|
    ensures forall i {:trigger r[i]} :: 0 <= i < |lines| ==> r[i] == FitLine(lines[i], oldCols, cols)
    ensures Covers(lines, oldCols) ==> Covers(r, cols)
  {
    seq(|lines|, i requires 0 <= i < |lines| => FitLine(lines[i], oldCols, cols))
  }

  /** The new width; tab stops are set up against the old one. */
  function FitCols(b: Buf, cols: int): (r: Buf)
    requires Inv(b) && 1 <= cols
    ensures Inv(r.(x := 0))
  {
    b.(cols := cols,
       history := FitLines(b.history, b.cols, cols),
       screen := FitLines(b.screen, b.cols, cols),
       tabs := SetupStops(b.tabs, b.cols, b.cols))
  }

  /** Rows that come back from history when d rows are added. */
  function Pulled(b: Buf, d: nat): nat {
    if b.y == b.rows - 1 then Min(|b.history|, d) else 0
  }

  function GrowRows(b: Buf, d: nat): (r: Buf)
    requires Inv(b.(x := 0))
    ensures Inv(r.(x := 0, top := 0, bottom := 0))
  {
    var p := Pulled(b, d);
    var h := |b.history| - p;
    b.(rows := b.rows + d,
       history := b.history[..h],
       screen := b.history[h..] + b.screen + Copies(d - p, BlankLine(b.cols, DEF_ATTR)),
       ydisp := Max(b.ydisp - p, 0),
       y := b.y + p)
  }

  /** Rows that are cut below the cursor when d rows are removed. */
  function Cut(b: Buf, d: nat): int { Min(d, b.rows - 1 - b.y) }

  function ShrinkRows(b: Buf, d: nat): (r: Buf)
    requires Inv(b.(x := 0)) && d < b.rows
    ensures Inv(r.(x := 0, top := 0, bottom := 0))
  {
    var q := d - Cut(b, d);
    b.(rows := b.rows - d,
       history := b.history + b.screen[..q],
       screen := b.screen[q..b.rows - Cut(b, d)],
       ydisp := b.ydisp + q,
       y := Min(b.y, b.rows - d - 1))
  }

  function FitRows(b: Buf, rows: int): (r: Buf)
    requires Inv(b.(x := 0)) && 1 <= rows
    ensures Inv(r.(x := 0, top := 0, bottom := 0)) && r.rows == rows && r.cols == b.cols && r.x == b.x
  {
    if b.rows < rows then GrowRows(b, rows - b.rows) else ShrinkRows(b, b.rows - rows)
  }

  /** `resize(x, y)`: the same size is left entirely alone, a size below 1 is 1. */
  function Resize(b: Buf, x: int, y: int): (r: Buf)
    requires Inv(b)
    ensures Inv(r)
  {
    if x == b.cols && y == b.rows then b
    else
      var f := FitRows(FitCols(b, Max(x, 1)), Max(y, 1));
      f.(x := Min(b.x, Max(x, 1) - 1), top := 0, bottom := Max(y, 1) - 1)
  }

  function Lines(b: Buf): seq<Line> { b.history + b.screen }

  /** The absolute index of the cursor's line. */
  function CursorLine(b: Buf): int { |b.history| + b.y }

  /** Two lines have the same first n cells. */
  ghost predicate Agree(r: Line, line: Line, n: int) {
    0 <= n <= |r| && n <= |line| && r[..n] == line[..n]
  }

  /** Whatever the target size, the cursor stays on the same buffer line, and no
      line down to it loses any of the columns both widths have. */
  lemma ResizeKeepsCursorLine(b: Buf, x: int, y: int)
    requires Inv(b)
    ensures var r := Resize(b, x, y);
      && CursorLine(r) == CursorLine(b) < |Lines(r)|
      && forall i {:trigger Lines(r)[i]} :: 0 <= i <= CursorLine(b) ==> Agree(Lines(r)[i], Lines(b)[i], Min(b.cols, r.cols))
  {
    if x != b.cols || y != b.rows {
      var f := FitCols(b, Max(x, 1));
      var g := FitRows(f, Max(y, 1));
      RowsKeepLines(f, Max(y, 1));
      FittedLines(b, Max(x, 1));
      assert Lines(Resize(b, x, y)) == Lines(g) && CursorLine(Resize(b, x, y)) == CursorLine(g) && CursorLine(f) == CursorLine(b);
    }
  }

  lemma FittedLines(b: Buf, cols: int)
    requires Inv(b) && 1 <= cols
    ensures var f := FitCols(b, cols);
      |Lines(f)| == |Lines(b)| && forall i {:trigger Lines(f)[i]} ::
        0 <= i < |Lines(b)| ==> Agree(Lines(f)[i], Lines(b)[i], Min(b.cols, cols))
  {
    var f := FitCols(b, cols);
    forall i | 0 <= i < |Lines(b)| ensures Agree(Lines(f)[i], Lines(b)[i], Min(b.cols, cols)) {
      var n := |b.history|;
      var line := if i < n then b.history[i] else b.screen[i - n];
      assert Lines(b)[i] == line && |line| >= b.cols;
      var fit := FitLine(line, b.cols, cols);
      assert Lines(f)[i] == fit;
      var m := Min(|line|, cols);
      assert fit[..m][..Min(b.cols, cols)] == line[..m][..Min(b.cols, cols)];
    }
  }

  lemma RowsKeepLines(b: Buf, rows: int)
    requires Inv(b.(x := 0)) && 1 <= rows
    ensures var r := FitRows(b, rows);
      && CursorLine(r) == CursorLine(b) < Min(|Lines(r)|, |Lines(b)|)
      && forall i {:trigger Lines(r)[i]} :: 0 <= i <= CursorLine(b) ==> Lines(r)[i] == Lines(b)[i]
  {
    hide GrowRows, ShrinkRows, Lines, CursorLine, Extends;
    if b.rows < rows {
      GrowExtends(b, rows - b.rows);
      AgreeUpTo(Lines(b), Lines(FitRows(b, rows)), CursorLine(b));
    } else {
      ShrinkCuts(b, b.rows - rows);
      AgreeUpTo(Lines(FitRows(b, rows)), Lines(b), CursorLine(b));
    }
  }

  lemma AgreeUpTo<T>(p: seq<T>, s: seq<T>, n: int)
    requires Extends(p, s) && n < |p|
    ensures n < |s|
    ensures forall i {:trigger s[i]} :: 0 <= i <= n ==> s[i] == p[i]
    ensures forall i {:trigger p[i]} :: 0 <= i <= n ==> s[i] == p[i]
  {
  }

  /** s starts with p. */
  ghost predicate Extends<T>(p: seq<T>, s: seq<T>) {
    |p| <= |s| && forall i {:trigger s[i]} :: 0 <= i < |p| ==> s[i] == p[i]
  }

  lemma GrowExtends(b: Buf, d: nat)
    requires Inv(b.(x := 0))
    ensures var r := GrowRows(b, d);
      Extends(Lines(b), Lines(r)) && CursorLine(r) == CursorLine(b) < |Lines(b)|
  {
    var p := Pulled(b, d);
    Regroup(b.history, b.screen, Copies(d - p, BlankLine(b.cols, DEF_ATTR)), |b.history| - p);
  }

  lemma ShrinkCuts(b: Buf, d: nat)
    requires Inv(b.(x := 0)) && d < b.rows
    ensures var r := ShrinkRows(b, d);
      Extends(Lines(r), Lines(b)) && CursorLine(r) == CursorLine(b) < |Lines(r)|
  {
    Resplit(b.history, b.screen, d - Cut(b, d), b.rows - Cut(b, d));
  }

  lemma Regroup<T>(h: seq<T>, s: seq<T>, c: seq<T>, k: nat)
    requires k <= |h|
    ensures h[..k] + (h[k..] + s + c) == (h + s) + c
  {
  }

  lemma Resplit<T>(h: seq<T>, s: seq<T>, q: nat, kept: nat)
    requires q <= kept <= |s|
    ensures Extends((h + s[..q]) + s[q..kept], h + s)
  {
  }

  /** A line in another width: as it was, padded with blanks, or cut. */
  ghost predicate Refitted(r: Line, line: Line, oldCols: int, cols: int) {
    && |r| == (if oldCols < cols then Max(|line|, cols) else Min(|line|, cols))
    && forall j {:trigger r[j]} :: 0 <= j < |r| ==> r[j] == (if j < |line| then line[j] else Blank(DEF_ATTR))
  }

  /** What a resize leaves in every line it keeps, and the blank lines it adds behind
      them; margins and cursor column are brought in line with the new size. */
  lemma ResizedLines(b: Buf, x: int, y: int)
    requires Inv(b) && 1 <= x && 1 <= y && !(x == b.cols && y == b.rows)
    ensures var r := Resize(b, x, y);
      && r.cols == x && r.rows == y && r.top == 0 && r.bottom == y - 1 && r.x == Min(b.x, x - 1)
      && forall i {:trigger Lines(r)[i]} :: 0 <= i < |Lines(r)| ==>
           if i < |Lines(b)| then Refitted(Lines(r)[i], Lines(b)[i], b.cols, x) else Lines(r)[i] == BlankLine(x, DEF_ATTR)
  {
    hide GrowRows, ShrinkRows, FitLine, Refitted;
    var f := FitCols(b, x);
    var g := FitRows(f, y);
    assert Lines(Resize(b, x, y)) == Lines(g);
    if f.rows < y { GrowAppends(f, y - f.rows); } else { ShrinkCuts(f, f.rows - y); }
    forall i | 0 <= i < |Lines(b)| ensures |Lines(f)| == |Lines(b)| && Refitted(Lines(f)[i], Lines(b)[i], b.cols, x) {
      RefittedLine(Lines(b)[i], b.cols, x);
      assert Lines(f)[i] == FitLine(Lines(b)[i], b.cols, x);
    }
  }

  /** Tab stops are set up against the old width: from the last one left of the old edge
      on, every eighth column of the old width gets one, and so a wider screen gets none
      beyond it. */
  lemma ResizedStops(b: Buf, x: int, y: int)
    requires Inv(b) && !(x == b.cols && y == b.rows)
    ensures var r, start := Resize(b, x, y), if b.cols in b.tabs then b.cols else PrevStop(b.tabs, b.cols, b.cols);
      && (forall t :: t in r.tabs <==> t in b.tabs || (start <= t < b.cols && (t - start) % 8 == 0))
      && ((forall t :: t in b.tabs <==> 0 <= t < b.cols && t % 8 == 0) ==> r.tabs == b.tabs)
    ensures var last := PrevStop(b.tabs, b.cols, b.cols);
      if Between(b.tabs, 0, b.cols) == {} then last == 0
      else last in b.tabs && 0 < last < b.cols && Between(b.tabs, last, b.cols) == {}
  {
    hide *;
    StopsResized(b, x, y);
    StopsSet(b.tabs, b.cols);
  }

  lemma StopsResized(b: Buf, x: int, y: int)
    requires Inv(b) && !(x == b.cols && y == b.rows)
    ensures 1 <= b.cols && Resize(b, x, y).tabs == SetupStops(b.tabs, b.cols, b.cols)
  {
    hide FitLines, SetupStops;
  }

  lemma StopsSet(tabs: set<int>, cols: int)
    requires 1 <= cols
    ensures var r, start := SetupStops(tabs, cols, cols), if cols in tabs then cols else PrevStop(tabs, cols, cols);
      && (forall t :: t in r <==> t in tabs || (start <= t < cols && (t - start) % 8 == 0))
      && ((forall t :: t in tabs <==> 0 <= t < cols && t % 8 == 0) ==> r == tabs)
    ensures var last := PrevStop(tabs, cols, cols);
      if Between(tabs, 0, cols) == {} then last == 0 else last in tabs && 0 < last < cols && Between(tabs, last, cols) == {}
  {
    hide PrevStop, Between;
    PrevStopIsLast(tabs, cols, cols);
    var r, start := SetupStops(tabs, cols, cols), if cols in tabs then cols else PrevStop(tabs, cols, cols);
    if forall t :: t in tabs <==> 0 <= t < cols && t % 8 == 0 {
      assert start % 8 == 0;
      forall t | t in r ensures t in tabs { }
    }
  }

  lemma RefittedLine(line: Line, oldCols: int, cols: int)
    requires 1 <= cols
    ensures Refitted(FitLine(line, oldCols, cols), line, oldCols, cols)
  {
  }

  lemma GrowAppends(b: Buf, d: nat)
    requires Inv(b.(x := 0))
    ensures var r := GrowRows(b, d);
      && |Lines(b)| <= |Lines(r)|
      && forall i {:trigger Lines(r)[i]} :: 0 <= i < |Lines(r)| ==>
           Lines(r)[i] == if i < |Lines(b)| then Lines(b)[i] else BlankLine(b.cols, DEF_ATTR)
  {
    var p := Pulled(b, d);
    Regroup(b.history, b.screen, Copies(d - p, BlankLine(b.cols, DEF_ATTR)), |b.history| - p);
  }

  /** Removing k rows moves those above the cursor that do not fit into the scrollback,
      so it can pass its limit; it stays below if and only if there was room for them. */
  lemma ShrinkHistory(b: Buf, k: nat, scrollback: nat)
    requires Inv(b) && 1 <= k < b.rows
    ensures var h := Resize(b, b.cols, b.rows - k).history;
      |h| == |b.history| + k - Cut(b, k) && (|h| < scrollback <==> |b.history| + k - Cut(b, k) < scrollback)
  {
  }

  /** Every line is exactly cols long. */
  ghost predicate Exact(lines: seq<Line>, cols: int) {
    forall i {:trigger lines[i]} :: 0 <= i < |lines| ==> |lines[i]| == cols
  }

  lemma ExactParts(b: Buf)
    requires Exact(Lines(b), b.cols)
    ensures Exact(b.history, b.cols) && Exact(b.screen, b.cols)
  {
    forall i | 0 <= i < |b.history| ensures |b.history[i]| == b.cols { assert b.history[i] == Lines(b)[i]; }
    forall i | 0 <= i < |b.screen| ensures |b.screen[i]| == b.cols {
      assert b.screen[i] == Lines(b)[|b.history| + i];
    }
  }

  /** At equal width, fitting the columns only cuts overlong lines. */
  lemma SameWidth(b: Buf)
    requires Inv(b)
    ensures Exact(Lines(b), b.cols) <==> Trimmed(b).history == b.history && Trimmed(b).screen == b.screen
  {
    var f := Trimmed(b);
    if Exact(Lines(b), b.cols) {
      ExactParts(b);
    } else {
      var i :| 0 <= i < |Lines(b)| && |Lines(b)[i]| != b.cols;
      assert Lines(f)[i] == FitLine(Lines(b)[i], b.cols, b.cols);
    }
  }

  /** Changing only the height of a buffer. */
  function Rehang(b: Buf, rows: int): (r: Buf)
    requires Inv(b) && 1 <= rows
  {
    FitRows(b, rows).(x := Min(b.x, b.cols - 1), top := 0, bottom := rows - 1, tabs := SetupStops(b.tabs, b.cols, b.cols))
  }

  /** The buffer with overlong lines cut. */
  function Trimmed(b: Buf): (e: Buf)
    requires Inv(b)
    ensures Inv(e) && Exact(e.history, e.cols) && Exact(e.screen, e.cols)
    ensures e == b.(history := e.history, screen := e.screen)
    ensures |e.history| == |b.history|
  {
    b.(history := FitLines(b.history, b.cols, b.cols), screen := FitLines(b.screen, b.cols, b.cols))
  }

  lemma ResizeRows(b: Buf, rows: int)
    requires Inv(b) && 1 <= rows != b.rows
    ensures Resize(b, b.cols, rows) == Rehang(Trimmed(b), rows)
  {
    hide SetupStops, Covers, Exact, BlankLine, Copies, FitLines;
  }

  /** Adding k rows and removing them again restores cursor row and heights for
      every k, including when only some of the rows came from history. The lines
      themselves come back if and only if none was longer than the screen is wide,
      and the viewport if and only if it was not above the pulled rows. */
  lemma GrowShrinkRoundTrip(b: Buf, k: nat)
    requires Inv(b) && k >= 1
    ensures var r := Resize(Resize(b, b.cols, b.rows + k), b.cols, b.rows);
      && |r.history| == |b.history| && r.y == b.y && r.rows == b.rows && r.cols == b.cols
      && (Exact(Lines(b), b.cols) <==> r.history == b.history && r.screen == b.screen)
      && (r.ydisp == b.ydisp <==> b.ydisp >= Pulled(b, k))
      && (r.x == b.x <==> b.x < b.cols)
  {
    hide Resize, Rehang, Exact;
    var e := Trimmed(b);
    SameWidth(b);
    ThereAndBack(b, k);
    RegrownRows(e, Rehang(e, e.rows + k), k);
  }

  /** Both resizes reduced to their row moves on the buffer with overlong lines cut. */
  lemma ThereAndBack(b: Buf, k: nat)
    requires Inv(b) && k >= 1
    ensures var g := Rehang(Trimmed(b), b.rows + k);
      Inv(g) && Resize(Resize(b, b.cols, b.rows + k), b.cols, b.rows) == Rehang(g, b.rows)
  {
    hide *;
    OneRow(b);
    var e := Trimmed(b);
    ResizeRows(b, b.rows + k);
    GrownRows(e, k);
    var g := Rehang(e, b.rows + k);
    TrimmedExact(g);
    ResizeRows(g, b.rows);
  }

  lemma OneRow(b: Buf)
    requires Inv(b)
    ensures 1 <= b.rows && Trimmed(b).rows == b.rows && Trimmed(b).cols == b.cols
  {
    hide FitLines, Exact;
  }

  lemma TrimmedExact(g: Buf)
    requires Inv(g) && Exact(Lines(g), g.cols)
    ensures Trimmed(g) == g
  {
    SameWidth(g);
  }

  lemma GrownRows(e: Buf, k: nat)
    requires Inv(e) && k >= 1 && Exact(e.history, e.cols) && Exact(e.screen, e.cols)
    ensures var g := Rehang(e, e.rows + k);
      Inv(g) && Exact(Lines(g), g.cols) && g.cols == e.cols && g.rows != e.rows
  {
  }

  lemma RegrownRows(e: Buf, g: Buf, k: nat)
    requires Inv(e) && k >= 1 && g == Rehang(e, e.rows + k) && Inv(g)
    ensures var r := Rehang(g, e.rows);
      && r.history == e.history && r.screen == e.screen && r.y == e.y && r.rows == e.rows
      && r.ydisp == Max(e.ydisp - Pulled(e, k), 0) + Pulled(e, k)
      && r.x == Min(e.x, e.cols - 1) && r.cols == e.cols
  {
    var p := Pulled(e, k);
    Rejoin(e.history, e.screen, Copies(k - p, BlankLine(e.cols, DEF_ATTR)), p);
    assert Cut(g, k) == k - p;
  }

  lemma Rejoin<T>(h: seq<T>, s: seq<T>, c: seq<T>, p: nat)
    requires p <= |h|
    ensures var t := h[|h| - p..] + s + c;
      h[..|h| - p] + t[..p] == h && t[p..p + |s|] == s
  {
    var t := h[|h| - p..] + s + c;
    assert t[..p] == h[|h| - p..];
  }

  /** Rows lo..hi of the screen are what a fresh row is. */
  ghost predicate BlankRows(b: Buf, lo: int, hi: int) {
    forall i {:trigger b.screen[i]} :: 0 <= lo <= i < hi <= |b.screen| && 0 <= b.cols ==>
      b.screen[i] == BlankLine(b.cols, DEF_ATTR)
  }

  /** The other way round loses more. Removing k rows and adding them again gives
      back the lines, the split between history and screen, and the cursor row if and
      only if the rows cut below the cursor were blank, and either none was cut, or
      there was no history to fill the gap from, or the cursor had not come to rest
      on the last row. */
  lemma ShrinkGrowRoundTrip(b: Buf, k: nat)
    requires Inv(b) && 1 <= k < b.rows && Exact(Lines(b), b.cols)
    ensures var r := Resize(Resize(b, b.cols, b.rows - k), b.cols, b.rows);
      && (r.history == b.history && r.screen == b.screen && r.y == b.y <==>
          && (Cut(b, k) == 0 || b.history == [] || b.y < b.rows - 1 - k)
          && BlankRows(b, b.rows - Cut(b, k), b.rows))
  {
    hide Resize, Exact, BlankRows, Rehang, Inv;
    assert 1 <= b.rows - k by { assert k < b.rows; }
    ResizeRows(b, b.rows - k);
    TrimmedExact(b);
    ShrunkRows(b, k);
    var g := Rehang(b, b.rows - k);
    assert 1 <= b.rows;
    ResizeRows(g, b.rows);
    TrimmedExact(g);
    PulledBack(b, g, k);
    if Pulled(g, k) == k - Cut(b, k) { ReshrunkRows(b, g, k); }
  }

  /** Just the rows that went into history come back, or else history has changed. */
  lemma PulledBack(b: Buf, g: Buf, k: nat)
    requires Inv(b) && 1 <= k < b.rows && g == Rehang(b, b.rows - k) && Inv(g)
    ensures Pulled(g, k) == k - Cut(b, k) <==> Cut(b, k) == 0 || b.history == [] || b.y < b.rows - 1 - k
    ensures |Rehang(g, b.rows).history| == |b.history| ==> Pulled(g, k) == k - Cut(b, k)
  {
  }

  lemma ShrunkRows(e: Buf, k: nat)
    requires Inv(e) && 1 <= k < e.rows && Exact(Lines(e), e.cols)
    ensures var g := Rehang(e, e.rows - k);
      Inv(g) && Exact(Lines(g), g.cols) && g.cols == e.cols && g.rows != e.rows
  {
    ExactParts(e);
  }

  lemma ReshrunkRows(e: Buf, g: Buf, k: nat)
    requires Inv(e) && 1 <= k < e.rows && g == Rehang(e, e.rows - k) && Inv(g)
    requires Pulled(g, k) == k - Cut(e, k)
    ensures var r := Rehang(g, e.rows);
      && r.history == e.history && r.y == e.y
      && (r.screen == e.screen <==> BlankRows(e, e.rows - Cut(e, k), e.rows))
  {
    var r := Rehang(g, e.rows);
    var q, kept := k - Cut(e, k), e.rows - Cut(e, k);
    var blank := BlankLine(e.cols, DEF_ATTR);
    assert g.history == e.history + e.screen[..q] && g.screen == e.screen[q..kept];
    Refill(e.history, e.screen, q, kept, blank);
    assert r.screen == (e.history + e.screen[..q])[|e.history|..] + e.screen[q..kept] + Copies(Cut(e, k), blank);
  }

  lemma Refill<T>(h: seq<T>, s: seq<T>, q: nat, kept: nat, v: T)
    requires q <= kept <= |s|
    ensures (h + s[..q])[..|h|] == h
    ensures var t := (h + s[..q])[|h|..] + s[q..kept] + Copies(|s| - kept, v);
      t == s <==> forall i :: kept <= i < |s| ==> s[i] == v
  {
    assert (h + s[..q])[|h|..] == s[..q];
    var t := s[..q] + s[q..kept] + Copies(|s| - kept, v);
    assert forall i {:trigger t[i]} :: 0 <= i < |s| ==> t[i] == if i < kept then s[i] else v;
    if t == s {
      forall i | kept <= i < |s| ensures s[i] == v { assert t[i] == v; }
    }
  }
}
