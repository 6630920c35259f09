/** What the loops and splices of the terminal object do, one step at a time: facts
    about a `lines` array cut at `ybase` into history and screen. */
module Loops {
  import opened Sequences
  import opened TabStops
  import opened Buffer
  import opened Resizing
  import opened Splices
  import opened Attributes
  import opened Widths
  import opened Parser
  import opened Emulator
  import opened Effects
  import opened Rendering
  import opened Refreshing
  import opened Display

  function Above(lines: seq<Line>, ybase: int): seq<Line> { if 0 <= ybase <= |lines| then lines[..ybase] else [] }

  function Below(lines: seq<Line>, ybase: int): seq<Line> { if 0 <= ybase <= |lines| then lines[ybase..] else lines }

  /** `line[x] = c` for an index inside the line or just behind it. */
  function Store(line: Line, x: int, c: Cell): Line
    requires 0 <= x <= |line|
  {
    if x < |line| then line[x := c] else line + [c]
  }

  lemma StoreExtendsFill(line: Line, a: nat, b: nat, c: Cell)
    requires a <= |line| && a <= b <= |Fill(line, a, b, c)|
    ensures Store(Fill(line, a, b, c), b, c) == Fill(line, a, b + 1, c)
  {
    var s, f := Store(Fill(line, a, b, c), b, c), Fill(line, a, b + 1, c);
    hide Fill;
    assert |s| == |f|;
  }

  lemma StoreBeforeFill(line: Line, a: nat, b: nat, c: Cell)
    requires a < b <= |line| + 1 && a < |line|
    ensures Store(Fill(line, a + 1, b, c), a, c) == Fill(line, a, b, c)
  {
    var s, f := Store(Fill(line, a + 1, b, c), a, c), Fill(line, a, b, c);
    hide Fill;
    assert |s| == |f|;
  }

  /** The parts of `lines` before an operation. */
  ghost predicate SplitAt(b: Buf, lines: seq<Line>, ybase: int) {
    0 <= ybase <= |lines| && b.history == Above(lines, ybase) && b.screen == Below(lines, ybase)
  }

  lemma LineWritten(b: Buf, was: seq<Line>, ybase: int, y: int, line: Line)
    requires Inv(b) && SplitAt(b, was, ybase) && 0 <= y < b.rows && |line| >= b.cols
    ensures ybase + y < |was|
    ensures var lines := was[ybase + y := line];
      b.(history := Above(lines, ybase), screen := Below(lines, ybase)) == WithLine(b, y, line)
  {
    EditedLine(was, ybase, y, line);
  }

  lemma LineOf(b: Buf, lines: seq<Line>, ybase: int, y: int)
    requires Inv(b) && SplitAt(b, lines, ybase) && 0 <= y < b.rows
    ensures ybase + y < |lines| && lines[ybase + y] == b.screen[y] && |b.screen[y]| >= b.cols
  {
  }

  lemma FillNothing(line: Line, a: nat, c: Cell)
    requires a <= |line|
    ensures Fill(line, a, a, c) == line
  {
  }

  lemma FillLength(line: Line, a: nat, b: nat, c: Cell)
    requires a <= |line|
    ensures |Fill(line, a, b, c)| == if a < b then Max(|line|, b) else |line|
  {
  }

  lemma EraseNoRows(b: Buf, lo: int, attr: nat)
    requires Inv(b) && 0 <= lo <= b.rows
    ensures EraseRows(b, lo, lo, attr) == b
  {
  }

  lemma EraseRowsPeels(b: Buf, lo: int, hi: int, attr: nat)
    requires Inv(b) && 0 <= lo < hi <= b.rows
    ensures EraseRows(b, lo, hi, attr) == Buffer.EraseRight(EraseRows(b, lo + 1, hi, attr), 0, lo, attr)
  {
    hide Buffer.EraseRight, Inv;
  }

  lemma {:induction false} EraseRowsGrows(b: Buf, lo: int, hi: int, attr: nat)
    requires Inv(b) && 0 <= lo <= hi < b.rows
    ensures EraseRows(b, lo, hi + 1, attr) == Buffer.EraseRight(EraseRows(b, lo, hi, attr), 0, hi, attr)
    decreases hi - lo
  {
    hide EraseRows, Buffer.EraseRight;
    EraseRowsPeels(b, lo, hi + 1, attr);
    if lo == hi {
      EraseNoRows(b, lo, attr);
      EraseNoRows(b, lo + 1, attr);
    } else {
      EraseRowsPeels(b, lo, hi, attr);
      EraseRowsGrows(b, lo + 1, hi, attr);
      ErasesCommute(EraseRows(b, lo + 1, hi, attr), lo, hi, attr);
    }
  }

  lemma ErasesCommute(b: Buf, i: int, j: int, attr: nat)
    requires Inv(b) && 0 <= i < b.rows && 0 <= j < b.rows && i != j
    ensures Buffer.EraseRight(Buffer.EraseRight(b, 0, i, attr), 0, j, attr) ==
            Buffer.EraseRight(Buffer.EraseRight(b, 0, j, attr), 0, i, attr)
  {
    hide Fill;
  }

  /** A step of ICH: blanks are opened one behind the other. */
  lemma OneMoreBlank(was: Line, x: nat, j: nat, c: Cell)
    requires x <= j < |was|
    ensures var line := ShiftDown(was, x, |was|, j - x, c);
      RemoveAt(InsertAt(line, j, c), |was|) == ShiftDown(was, x, |was|, j + 1 - x, c)
  {
    hide ShiftDown, InsertAt, RemoveAt;
    var line, next := ShiftDown(was, x, |was|, j - x, c), ShiftDown(was, x, |was|, j + 1 - x, c);
    ShiftedElements(was, x, |was|, j - x, c);
    ShiftedElements(was, x, |was|, j + 1 - x, c);
    InsertThenRemove(line, j, |was|, c);
    ShiftedElements(line, j, |was|, 1, c);
    assert ShiftDown(line, j, |was|, 1, c) == next;
  }

  /** A step of DCH, inside the line or just behind it. */
  lemma DeletedOne(was: Line, x: nat, k: nat, c: Cell)
    requires x <= |was|
    ensures x < |was| ==> var line := ShiftUp(was, x, |was|, k, c);
      RemoveAt(line, x) + [c] == ShiftUp(was, x, |was|, k + 1, c)
    ensures x == |was| ==> RemoveAt(was + [c], x) + [c] == was + [c]
  {
    hide ShiftUp;
    if x < |was| {
      var line := ShiftUp(was, x, |was|, k, c);
      ShiftsAdd(was, x, |was|, k, 1, c);
      ShiftedElements(line, x, |was|, 1, c);
      assert RemoveAt(line, x) + [c] == ShiftUp(line, x, |was|, 1, c);
    }
  }

  lemma ShovedLine(line: Line, x: int, cols: int, attr: nat)
    requires 1 <= cols <= |line| && 0 <= x < cols
    ensures var kept := line[..|line| - 1];
      Shove(line, x, cols, attr) ==
      InsertAt(if line[|line| - 1].width == 0 && 0 <= cols - 2 && kept[cols - 2].width == 2
               then kept[cols - 2 := Blank(attr)] else kept, x, Blank(attr))
  {
  }

  lemma FillSecondHalf(line: Line, x: nat, attr: nat)
    requires x < |line|
    ensures Store(line, x + 1, Cell(attr, [], 0)) == Fill(line, x + 1, x + 2, Cell(attr, [], 0))
  {
  }

  /** The branches of printing, and what each of them announces. */
  lemma PrintCases(b: Buf, scrollback: nat, wrap: bool, insert: bool, attr: nat, ch: Text, w: nat, span: Range)
    requires Inv(b) && scrollback != 1 && w <= 2 && !(w == 2 && b.cols == 1 && wrap)
    ensures var r, said := Put(b, scrollback, wrap, insert, attr, ch, w), Widen(span, PrintAnnounces(b, wrap, w));
      if w == 0 && b.x > 0 then r == Combine(b, ch) && said == Widen(span, Rows(b.y, b.y))
      else if !Overflows(b, w) then r == Place(b, insert, attr, ch, w) && said == Widen(span, Rows(b.y, b.y))
      else if wrap then
        && Inv(b.(x := 0))
        && (var c := Buffer.Index(b.(x := 0), scrollback);
            && Inv(c) && c.x == 0 && c.cols == b.cols && r == Place(c, insert, attr, ch, w)
            && said == Widen(Widen(span, if AtMargin(b.(x := 0)) then Rows(b.top, b.bottom) else Nowhere), Rows(c.y, c.y)))
      else if w == 2 then r == b.(x := b.cols - 1) && said == span
      else
        && Inv(b.(x := b.cols - 1)) && r == Place(b.(x := b.cols - 1), insert, attr, ch, w)
        && said == Widen(span, Rows(b.y, b.y))
  {
    hide Combine, Place, ScrolledHistory, ShiftUp;
    if wrap { IndexRow(b.(x := 0), scrollback); }
  }

  lemma InsertedLines(b: Buf, was: seq<Line>, ybase: int, lines: seq<Line>, n: nat, attr: nat)
    requires Inv(b) && SplitAt(b, was, ybase)
    requires var blank := BlankLine(b.cols, EraseAttr(attr));
      lines == if b.y <= b.bottom then ShiftDown(was, ybase + b.y, ybase + b.bottom + 1, n, blank)
               else ShiftUp(was, ybase + b.bottom + 1, ybase + b.y, n, blank)
    ensures |lines| == |was|
    ensures b.(history := Above(lines, ybase), screen := Below(lines, ybase)) == Buffer.InsertLines(b, n, attr)
  {
    hide ShiftUp, ShiftDown, Copies;
    var blank := BlankLine(b.cols, EraseAttr(attr));
    if b.y <= b.bottom { MovedBlock(was, ybase, b.y, b.bottom + 1, n, blank); }
    else { MovedBlock(was, ybase, b.bottom + 1, b.y, n, blank); }
  }

  lemma DeletedLines(b: Buf, was: seq<Line>, ybase: int, lines: seq<Line>, n: nat, attr: nat)
    requires Inv(b) && SplitAt(b, was, ybase)
    requires var blank := BlankLine(b.cols, EraseAttr(attr));
      lines == if b.y <= b.bottom then ShiftUp(was, ybase + b.y, ybase + b.bottom + 1, n, blank)
               else ShiftDown(was, ybase + b.bottom + 1, ybase + b.y, n, blank)
    ensures |lines| == |was|
    ensures b.(history := Above(lines, ybase), screen := Below(lines, ybase)) == Buffer.DeleteLines(b, n, attr)
  {
    hide ShiftUp, ShiftDown, Copies;
    var blank := BlankLine(b.cols, EraseAttr(attr));
    if b.y <= b.bottom { MovedBlock(was, ybase, b.y, b.bottom + 1, n, blank); }
    else { MovedBlock(was, ybase, b.bottom + 1, b.y, n, blank); }
  }

  lemma RolledLines(b: Buf, was: seq<Line>, ybase: int, n: nat)
    requires Inv(b) && SplitAt(b, was, ybase)
    ensures var up := ShiftUp(was, ybase + b.top, ybase + b.bottom + 1, n, BlankLine(b.cols, DEF_ATTR));
      b.(history := Above(up, ybase), screen := Below(up, ybase)) == Buffer.ScrollUp(b, n)
    ensures var down := ShiftDown(was, ybase + b.top, ybase + b.bottom + 1, n, BlankLine(b.cols, DEF_ATTR));
      b.(history := Above(down, ybase), screen := Below(down, ybase)) == Buffer.ScrollDown(b, n)
  {
    hide ShiftUp, ShiftDown, Copies;
    MovedBlock(was, ybase, b.top, b.bottom + 1, n, BlankLine(b.cols, DEF_ATTR));
  }

  lemma Bounds(b: Buf)
    requires Inv(b)
    ensures 0 <= b.top <= b.bottom < b.rows == |b.screen| && 1 <= b.cols && 0 <= b.y < b.rows && 0 <= b.x <= b.cols
  {
  }

  /** The two parts of `lines` at the end of `scroll`. */
  lemma ScrollFinished(b: Buf, scrollback: nat, t: seq<Line>, blank: Line, lines: seq<Line>, ybase: int)
    requires Inv(b) && scrollback != 1 && blank == BlankLine(b.cols, DEF_ATTR)
    requires var p := KeptHistory(b.history, scrollback);
      && t == InsertAt(p + b.screen, |p| + 1 + b.bottom, blank)
      && (if b.top == 0 then ybase == |p| + 1 && lines == t else ybase == |p| && lines == RemoveAt(t, |p| + b.top))
    ensures 0 <= ybase <= |lines|
    ensures b.(history := Above(lines, ybase), ydisp := ybase, screen := Below(lines, ybase)) == Buffer.Scroll(b, scrollback)
  {
    hide ShiftUp, KeptHistory, Buffer.Scroll, RemoveAt, InsertAt, Inv, Copies;
    var p := KeptHistory(b.history, scrollback);
    Bounds(b);
    ScrollSplice(p, b.screen, b.top, b.bottom, blank);
    ScrolledParts(b, scrollback, lines[..ybase], lines[ybase..], p);
  }

  /** What a scroll leaves of the history before the new line joins it. */
  function KeptHistory(h: seq<Line>, scrollback: nat): seq<Line>
    requires scrollback != 1
  {
    if |h| + 1 == scrollback then LastN(h, scrollback / 2 - 1) else h
  }

  /** What is left in the two cases of `scroll` is what a scroll leaves. */
  lemma ScrolledParts(b: Buf, scrollback: nat, left: seq<Line>, below: seq<Line>, p: seq<Line>)
    requires Inv(b) && scrollback != 1
    requires p == KeptHistory(b.history, scrollback)
    requires left == if b.top == 0 then p + [b.screen[0]] else p
    requires below == ShiftUp(b.screen, b.top, b.bottom + 1, 1, BlankLine(b.cols, DEF_ATTR))
    ensures b.(history := left, ydisp := |left|, screen := below) == Buffer.Scroll(b, scrollback)
    ensures Inv(Buffer.Scroll(b, scrollback))
  {
    hide ShiftUp, Copies, BlankLine, Inv;
    Bounds(b);
    if |b.history| + 1 == scrollback && b.top == 0 { TrimSplit(b.history, b.screen, scrollback / 2); }
  }

  // ---- Tab stops -------------------------------------------------------------------

  lemma NoStops(start: int)
    ensures StopsFrom(start, start) == {}
  {
  }

  lemma OneMoreStop(start: int, i: int, cols: int)
    requires start <= i < cols && EveryEighth(start, i)
    ensures StopsFrom(start, i + 8) == StopsFrom(start, i) + {i} && EveryEighth(start, i + 8)
  {
    forall k | i < k < i + 8 ensures !EveryEighth(start, k) { assert (k - start) % 8 == (k - i) % 8; }
  }

  lemma StopsEnd(start: int, i: int, cols: int)
    requires start <= i && cols <= i && EveryEighth(start, i) && (i == start || i - 8 < cols)
    ensures StopsFrom(start, i) == StopsFrom(start, cols)
  {
    forall k | i - 8 < k < i ensures !EveryEighth(start, k) { assert (k - start) % 8 == (k - (i - 8)) % 8; }
  }

  // ---- Resizing ----------------------------------------------------------------------

  lemma FittedParts(b: Buf, was: seq<Line>, ybase: int, lines: seq<Line>, cols: int)
    requires Inv(b) && SplitAt(b, was, ybase) && 1 <= cols && |lines| == |was|
    requires forall k {:trigger lines[k]} :: 0 <= k < |was| ==> lines[k] == FitLine(was[k], b.cols, cols)
    ensures Above(lines, ybase) == FitLines(b.history, b.cols, cols)
    ensures Below(lines, ybase) == FitLines(b.screen, b.cols, cols)
  {
    hide FitLine;
    assert forall k {:trigger lines[k]} :: ybase <= k < |was| ==> was[k] == b.screen[k - ybase];
  }

  lemma OneMoreCopy<T>(n: nat, v: T)
    ensures Copies(n + 1, v) == Copies(n, v) + [v] && |Copies(n, v)| == n
    ensures Copies(0, v) == []
  {
  }

  lemma GrownParts(b: Buf, was: seq<Line>, lines: seq<Line>, p: int, d: nat)
    requires Inv(b.(x := 0)) && SplitAt(b, was, |b.history|) && p == Pulled(b, d)
    requires lines == was + Copies(d - p, BlankLine(b.cols, DEF_ATTR))
    ensures var h := |b.history| - p;
      && 0 <= h <= |lines|
      && GrowRows(b, d) == b.(rows := b.rows + d, history := Above(lines, h), screen := Below(lines, h),
                              ydisp := Max(b.ydisp - p, 0), y := b.y + p)
  {
    var h := |b.history| - p;
    assert was == b.history + b.screen;
    assert lines[..h] == b.history[..h];
    assert lines[h..] == b.history[h..] + b.screen + Copies(d - p, BlankLine(b.cols, DEF_ATTR));
  }

  lemma ShrunkParts(b: Buf, was: seq<Line>, lines: seq<Line>, d: nat)
    requires Inv(b.(x := 0)) && SplitAt(b, was, |b.history|) && d < b.rows
    requires lines == was[..|was| - Cut(b, d)]
    ensures var h := |b.history| + (d - Cut(b, d));
      && 0 <= h <= |lines|
      && ShrinkRows(b, d) == b.(rows := b.rows - d, history := Above(lines, h), screen := Below(lines, h),
                                ydisp := b.ydisp + (d - Cut(b, d)), y := Min(b.y, b.rows - d - 1))
  {
    var q := d - Cut(b, d);
    assert was == b.history + b.screen;
    assert lines[..|b.history| + q] == b.history + b.screen[..q];
    assert lines[|b.history| + q..] == b.screen[q..b.rows - Cut(b, d)];
  }

  /** The three stages of a resize. */
  lemma ResizeSteps(b: Buf, x: int, y: int)
    requires Inv(b) && (x != b.cols || y != b.rows)
    ensures var cols, rows := Max(x, 1), Max(y, 1);
      var f := FitCols(b, cols);
      && Inv(f.(x := 0)) && f.rows == b.rows && f.x == b.x && f.cols == cols && 0 <= f.y < f.rows
      && (b.rows < rows ==> var g := GrowRows(f, rows - b.rows);
            Resizing.Resize(b, x, y) == g.(x := Min(b.x, cols - 1), top := 0, bottom := rows - 1)
            && g.y == f.y + Pulled(f, rows - b.rows))
      && (rows <= b.rows ==> var s := ShrinkRows(f, b.rows - rows);
            Resizing.Resize(b, x, y) == s.(x := Min(b.x, cols - 1), top := 0, bottom := rows - 1)
            && s.y == Min(f.y, rows - 1))
  {
    hide FitCols, GrowRows, ShrinkRows, Inv;
    var f := FitCols(b, Max(x, 1));
    FittedSize(b, Max(x, 1));
    if b.rows < Max(y, 1) { GrownRow(f, Max(y, 1) - b.rows); } else { ShrunkRow(f, b.rows - Max(y, 1)); }
  }

  lemma FittedSize(b: Buf, cols: int)
    requires Inv(b) && 1 <= cols
    ensures var f := FitCols(b, cols);
      Inv(f.(x := 0)) && f.rows == b.rows && f.x == b.x && f.cols == cols && 0 <= f.y < f.rows
  {
  }

  lemma GrownRow(f: Buf, d: nat)
    requires Inv(f.(x := 0))
    ensures GrowRows(f, d).y == f.y + Pulled(f, d)
  {
    hide Inv;
  }

  lemma ShrunkRow(f: Buf, d: nat)
    requires Inv(f.(x := 0)) && d < f.rows
    ensures ShrinkRows(f, d).y == Min(f.y, f.rows - d - 1)
  {
  }

  lemma ReverseCases(b: Buf, attr: nat)
    requires Inv(b)
    ensures b.y - 1 >= b.top ==> Buffer.ReverseIndex(b, attr) == b.(y := b.y - 1)
  {
  }

  /** The lines after the reverse scroll of RI. */
  lemma ReversedLines(b: Buf, was: seq<Line>, ybase: int, lines: seq<Line>, attr: nat)
    requires Inv(b) && SplitAt(b, was, ybase) && b.y - 1 < b.top
    requires lines == ShiftDown(was, ybase + b.y, ybase + b.bottom + 1, 1, BlankLine(b.cols, EraseAttr(attr)))
    ensures b.(history := Above(lines, ybase), screen := Below(lines, ybase)) == Buffer.ReverseIndex(b, attr)
  {
    hide ShiftUp, ShiftDown, Copies;
    MovedBlock(was, ybase, b.y, b.bottom + 1, 1, BlankLine(b.cols, EraseAttr(attr)));
  }

  lemma TwoRequests(p: Pending, a: Range, b: Range)
    ensures RequestAll(p, []) == p && RequestAll(p, [a]) == Request(p, a)
    ensures RequestAll(p, [a, b]) == RequestAll(p, [a] + [b]) == Request(Request(p, a), b)
    ensures RequestAll(p, [a] + []) == Request(p, a)
  {
    assert [a] + [b] == [a, b] && [a] + [] == [a];
    hide Request;
    assert [a, b][1..] == [b] && [a][1..] == [] == [b][1..];
    assert RequestAll(Request(p, a), [b]) == RequestAll(Request(Request(p, a), b), []);
  }

  lemma ResizedState(e: Emu, x: int, y: int)
    requires EmuInv(e)
    ensures x == e.buf.cols && y == e.buf.rows ==> ResizeTo(e, x, y) == e
    ensures x != e.buf.cols || y != e.buf.rows ==>
      ResizeTo(e, x, y) == e.(buf := Resizing.Resize(e.buf, x, y), normal := None)
  {
  }

  lemma ResetState(e: Emu)
    requires EmuInv(e)
    ensures Emulator.Reset(e) == Emu(e.cfg, FreshBuf(e.buf.rows, e.buf.cols), None, DEF_ATTR, false, true, false, false,
      e.savedX, e.savedY, e.savedCols, FRESH_CHARSETS, e.sent, e.title)
  {
  }

  lemma AltState(e: Emu)
    requires EmuInv(e)
    ensures e.normal.Some? ==>
      EnterAlt(e) == e && LeaveAlt(e) == e.(buf := e.normal.value, normal := None, shown := true)
    ensures e.normal.None? ==>
      && LeaveAlt(e) == e && EnterAlt(e) == Emulator.Reset(e).(normal := Some(e.buf), shown := true)
      && (var f := Emulator.Reset(e); f.buf.y == 0 && !f.shown && f.buf.rows == e.buf.rows && f.buf.cols == e.buf.cols)
  {
  }

  lemma Whole(e: Emu)
    ensures WholeScreen(e) == Range(0, e.buf.rows - 1)
  {
  }

  lemma SetWidth(e: Emu)
    requires EmuInv(e)
    ensures SetModeRequests(e, PRIVATE, 3) == if e.buf.cols != 132 then [WholeScreen(e)] else []
    ensures WholeScreen(e) == Range(0, e.buf.rows - 1)
    ensures var f := e.(savedCols := Some(e.buf.cols));
      && EmuInv(f) && Emulator.SetMode(e, PRIVATE, 3) == ResizeTo(f, 132, e.buf.rows)
      && ResizeTo(f, 132, e.buf.rows).buf.rows == e.buf.rows
  {
    hide Resizing.Resize;
    ResizeColsKeepsBottom(e.buf, 132);
  }

  lemma FitsAlready(rows: seq<Markup>)
    ensures |rows| >= 1 ==> FitElements(rows, Max(|rows|, 1)) == rows
  {
  }

  lemma ResetWidth(e: Emu)
    requires EmuInv(e)
    ensures ResetModeRequests(e, PRIVATE, 3) ==
      if e.buf.cols == 132 && e.savedCols.Some? && e.savedCols.value != 132 then [WholeScreen(e)] else []
    ensures WholeScreen(e) == Range(0, e.buf.rows - 1)
    ensures Emulator.ResetMode(e, PRIVATE, 3) ==
      (if e.buf.cols == 132 && e.savedCols.Some? then ResizeTo(e, e.savedCols.value, e.buf.rows) else e).(savedCols := None)
    ensures e.savedCols.Some? ==> ResizeTo(e, e.savedCols.value, e.buf.rows).buf.rows == e.buf.rows
  {
    hide Resizing.Resize;
    if e.savedCols.Some? { ResizeColsKeepsBottom(e.buf, e.savedCols.value); }
  }

  lemma {:induction false} RequestsAdd(p: Pending, a: seq<Range>, b: seq<Range>)
    ensures RequestAll(p, a + b) == RequestAll(RequestAll(p, a), b)
    decreases |a|
  {
    hide Request;
    if a == [] {
      assert a + b == b;
    } else {
      assert (a + b)[1..] == a[1..] + b;
      RequestsAdd(Request(p, a[0]), a[1..], b);
    }
  }

  lemma SoftState(e: Emu)
    requires EmuInv(e)
    ensures Emulator.SoftReset(e) == e.(hidden := false, insert := false, wrap := false, attr := DEF_ATTR,
      buf := e.buf.(top := 0, bottom := e.buf.rows - 1, x := 0, y := 0), charsets := FRESH_CHARSETS)
  {
  }

  lemma MoveState(e: Emu, final: CodeUnit, ps: seq<nat>, prefix: Text)
    requires EmuInv(e) && |ps| >= 1 && IsMove(final)
    ensures ExecCsi(e, final, ps, prefix) == e.(buf := MoveCursor(e.buf, final, ps))
    ensures var r := MoveCursor(e.buf, final, ps); r == e.buf.(x := r.x, y := r.y)
  {
    hide MoveCursor;
  }

  lemma EditState(e: Emu, final: CodeUnit, ps: seq<nat>, prefix: Text)
    requires EmuInv(e) && |ps| >= 1 && IsEdit(final)
    ensures ExecCsi(e, final, ps, prefix) == e.(buf := EditBuffer(e.buf, e.attr, final, ps))
    ensures CsiAnnounces(e.buf, final, ps, prefix) == CsiAnnounces(e.buf, final, ps, [])
    ensures EditBuffer(e.buf, e.attr, final, ps).rows == e.buf.rows
  {
    hide EditBuffer;
  }

  /** The final characters that the switch behind OtherState tells apart. */
  lemma OtherFinals()
    ensures SD == 84 && DA == 99 && TBC == 103 && SM == 104 && RM == 108 && SGR == 109 && DSR == 110
    ensures DECSTR == 112 && DECSTBM == 114 && SCP == 115 && RCP == 117
  {
  }

  lemma OtherState(e: Emu, final: CodeUnit, ps: seq<nat>, prefix: Text)
    requires EmuInv(e) && |ps| >= 1
    ensures final == SD ==>
      ExecOther(e, final, ps, prefix) == if |ps| < 2 && prefix == [] then e.(buf := Buffer.ScrollDown(e.buf, Count(ps))) else e
    ensures final == DA ==> ExecOther(e, final, ps, prefix) == DeviceAttributes(e, prefix, ps)
    ensures final == TBC ==> ExecOther(e, final, ps, prefix) == e.(buf := TabClear(e.buf, ps))
    ensures final == SM ==> ExecOther(e, final, ps, prefix) == SetModes(e, prefix, ps)
    ensures final == RM ==> ExecOther(e, final, ps, prefix) == ResetModes(e, prefix, ps)
    ensures final == SGR ==> ExecOther(e, final, ps, prefix) == if prefix == [] then e.(attr := SgrAttr(e.attr, ps)) else e
    ensures final == DSR ==> ExecOther(e, final, ps, prefix) == if prefix == [] then DeviceStatus(e, ps) else e
    ensures final == DECSTR ==> ExecOther(e, final, ps, prefix) == if prefix == [33] then Emulator.SoftReset(e) else e
    ensures final == DECSTBM ==>
      ExecOther(e, final, ps, prefix) == if prefix == [] then e.(buf := SetScrollRegion(e.buf, ps)) else e
    ensures final == SCP ==> ExecOther(e, final, ps, prefix) == e.(savedX := e.buf.x, savedY := e.buf.y)
    ensures final == RCP ==> ExecOther(e, final, ps, prefix) == Restore(e)
    ensures final !in {SD, DA, TBC, SM, RM, SGR, DSR, DECSTR, DECSTBM, SCP, RCP} ==> ExecOther(e, final, ps, prefix) == e
    ensures final == SD || final == TBC || final == DECSTBM || (!IsMove(final) && !IsEdit(final)) ==>
      CsiAnnounces(e.buf, final, ps, prefix) ==
        if final == SD && |ps| < 2 && prefix == [] then Rows(e.buf.top, e.buf.bottom) else Nowhere
    ensures Requests(e, Csi(final, ps, prefix)) ==
      if final == SM then SetModesRequests(e, prefix, ps)
      else if final == RM then ResetModesRequests(e, prefix, ps) else []
  {
    hide DeviceAttributes, TabClear, SetModes, ResetModes, SgrAttr, DeviceStatus, Emulator.SoftReset, SetScrollRegion, Restore,
      SetModesRequests, ResetModesRequests, Buffer.ScrollDown, Inv, EmuInv;
  }

  lemma Unwidened(r: Range)
    ensures Widen(r, Nowhere) == r
  {
  }

  lemma CsiNote(n: Note, e: Emu, final: CodeUnit, ps: seq<nat>, prefix: Text)
    requires EmuInv(e) && |ps| >= 1
    ensures NoteCommand(n, e, Csi(final, ps, prefix)) ==
      Note(Widen(n.range, CsiAnnounces(e.buf, final, ps, prefix)), RequestAll(n.pending, Requests(e, Csi(final, ps, prefix))))
    ensures IsMove(final) ==> CsiAnnounces(e.buf, final, ps, prefix) == Nowhere
    ensures IsMove(final) || IsEdit(final) ==> RequestAll(n.pending, Requests(e, Csi(final, ps, prefix))) == n.pending
    ensures Widen(n.range, Nowhere) == n.range
    ensures !IsMove(final) && !IsEdit(final) ==> ExecCsi(e, final, ps, prefix) == ExecOther(e, final, ps, prefix)
  {
    hide SetModesRequests, ResetModesRequests, EmuInv, ExecOther;
  }

  // ---- Commands and what they announce ------------------------------------------------------

  /** The commands of the control characters in terms of each other. */
  lemma ControlStates(e: Emu)
    requires EmuInv(e)
    ensures Exec(e, CarriageReturn) == e.(buf := MoveTo(e.buf, 0, e.buf.y))
    ensures Exec(e, Backspace) == if e.buf.x > 0 then e.(buf := MoveTo(e.buf, e.buf.x - 1, e.buf.y)) else e
    ensures Exec(e, Tab) == e.(buf := MoveTo(e.buf, NextStop(e.buf.tabs, e.buf.cols, e.buf.x), e.buf.y))
    ensures Exec(e, SetTab) == e.(buf := e.buf.(tabs := e.buf.tabs + {e.buf.x}))
    ensures Exec(e, IndexDown) == e.(buf := Buffer.Index(e.buf, e.cfg.scrollback))
    ensures Exec(e, IndexUp) == e.(buf := Buffer.ReverseIndex(e.buf, e.attr))
  {
    hide Buffer.Index, Buffer.ReverseIndex;
  }

  lemma LineStates(e: Emu)
    requires EmuInv(e)
    ensures EmuInv(Exec(e, CarriageReturn))
    ensures Exec(e, NextLine) == Exec(Exec(e, CarriageReturn), IndexDown)
    ensures Exec(e, LineFeed) == Exec(if e.cfg.convertEol then Exec(e, CarriageReturn) else e, IndexDown)
  {
    hide Buffer.Index;
  }

  lemma ControlNotes(n: Note, e: Emu)
    requires EmuInv(e)
    ensures NoteCommand(n, e, IndexDown) ==
      Note(Widen(n.range, if AtMargin(e.buf) then Rows(e.buf.top, e.buf.bottom) else Nowhere), n.pending)
    ensures NoteCommand(n, e, IndexUp) ==
      Note(Widen(n.range, if e.buf.y - 1 < e.buf.top then Rows(e.buf.top, e.buf.bottom) else Nowhere), n.pending)
    ensures NoteCommand(n, e, LineFeed) == NoteCommand(n, e, IndexDown) == NoteCommand(n, e, NextLine)
  {
    hide EmuInv, Widen;
  }

  lemma ReturnKeepsNote(n: Note, e: Emu)
    requires EmuInv(e) && EmuInv(Exec(e, CarriageReturn))
    ensures NoteCommand(n, Exec(e, CarriageReturn), IndexDown) == NoteCommand(n, e, IndexDown)
  {
    hide EmuInv, Widen;
  }

  lemma PrintState(n: Note, e: Emu, ch: Text, w: nat)
    requires EmuInv(e) && |ch| >= 1 && w <= 2 && Admissible(e, Print(ch, w))
    ensures Exec(e, Print(ch, w)) ==
      e.(buf := Put(e.buf, e.cfg.scrollback, e.wrap, e.insert, e.attr, Translate(e.charsets.current, ch), w))
    ensures !(w == 2 && e.buf.cols == 1 && e.wrap)
    ensures NoteCommand(n, e, Print(ch, w)) == Note(Widen(n.range, PrintAnnounces(e.buf, e.wrap, w)), n.pending)
    ensures Exec(e, Print(ch, w)).buf.rows == e.buf.rows && Exec(e, Print(ch, w)).buf.cols == e.buf.cols
  {
    hide Place, Combine, Widen, PrintAnnounces, Translate, ScrolledHistory, ShiftUp;
  }

  lemma OneCommand(n: Note, e: Emu, c: Cmd)
    requires EmuInv(e) && WellFormed(c) && Admissible(e, c)
    ensures EmuInv(Exec(e, c)) && AllWellFormed([c]) && AdmissibleAll(e, [c])
    ensures ExecAll(e, [c]) == Exec(e, c) && NoteAll(n, e, [c]) == NoteCommand(n, e, c)
  {
    hide Exec, NoteCommand, Admissible, EmuInv, WellFormed;
    ExecKeepsInvariant(e, c);
    assert [c] + [] == [c];
    UnfoldRun(n, e, c, []);
    NothingRuns(n, Exec(e, c));
  }

  /** Commands nobody hears of. */
  lemma SilentCommands(n: Note, e: Emu)
    requires EmuInv(e)
    ensures NoteCommand(n, e, CarriageReturn) == n && NoteCommand(n, e, Backspace) == n && NoteCommand(n, e, Tab) == n
    ensures NoteCommand(n, e, SetTab) == n && NoteCommand(n, e, SaveCursor) == n && NoteCommand(n, e, RestoreCursor) == n
    ensures forall g {:trigger ShiftTo(g)} :: NoteCommand(n, e, ShiftTo(g)) == n
  {
    hide EmuInv;
  }

  /** What the silent commands that touch neither screen nor modes come to. */
  lemma CursorStates(n: Note, e: Emu)
    requires EmuInv(e)
    ensures Exec(e, SaveCursor) == e.(savedX := e.buf.x, savedY := e.buf.y) && Exec(e, RestoreCursor) == Restore(e)
    ensures NoteCommand(n, e, SaveCursor) == n && NoteCommand(n, e, RestoreCursor) == n
    ensures Exec(e, FullReset) == Emulator.Reset(e)
    ensures NoteCommand(n, e, FullReset) == Note(n.range, Request(n.pending, WholeScreen(e)))
  {
    hide EmuInv, Request;
    TwoRequests(n.pending, WholeScreen(e), WholeScreen(e));
  }

  lemma CsiStates(e: Emu, final: CodeUnit, ps: seq<nat>, prefix: Text)
    requires EmuInv(e) && |ps| >= 1
    ensures Exec(e, Csi(final, ps, prefix)) == ExecCsi(e, final, ps, prefix)
  {
  }

  lemma StatusStates(e: Emu, n: Note, prefix: Text, request: Text)
    requires EmuInv(e)
    ensures Exec(e, StatusString(prefix, request)) == ReportStatus(e, prefix, request)
    ensures NoteCommand(n, e, StatusString(prefix, request)) == n
  {
    hide EmuInv, ReportStatus;
  }
}
