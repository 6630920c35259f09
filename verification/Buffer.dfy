/** The screen buffer as the user sees it: scrollback history above a screen of
    exactly `rows` lines, a cursor, a scroll region and tab stops. Every operation
    of the emulator on its `lines` array has its closed form here. */
module Buffer {
  import opened Sequences
  import opened TabStops

  datatype Cell = Cell(attr: nat, ch: Text, width: nat)

  type Line = seq<Cell>

  /** No flags, foreground 257, background 256. */
  const DEF_ATTR: nat := 257 * 512 + 256

  const SPACE: CodeUnit := 0x20

  function Blank(attr: nat): Cell { Cell(attr, [SPACE], 1) }

  function BlankLine(cols: nat, attr: nat): (line: Line)
    ensures |line| == cols
  {
    Copies(cols, Blank(attr))
  }

  /** The attribute of erased cells: default flags and foreground, current background. */
  function EraseAttr(attr: nat): nat { DEF_ATTR - DEF_ATTR % 512 + attr % 512 }

  datatype Buf = Buf(
    rows: int, cols: int,
    history: seq<Line>, screen: seq<Line>, ydisp: int,
    x: int, y: int, top: int, bottom: int, tabs: set<int>)

  /** Every line has a cell in each of the first cols columns. */
  ghost predicate Covers(lines: seq<Line>, cols: int) {
    forall i {:trigger lines[i]} :: 0 <= i < |lines| ==> |lines[i]| >= cols
  }

  /** What every operation keeps; x == cols is the pending-wrap position. */
  ghost predicate Inv(b: Buf) {
    && 1 <= b.rows == |b.screen| && 1 <= b.cols
    && 0 <= b.ydisp <= |b.history|
    && 0 <= b.x <= b.cols && 0 <= b.y < b.rows
    && 0 <= b.top <= b.bottom < b.rows
    && Covers(b.history, b.cols) && Covers(b.screen, b.cols)
  }

  /** r differs from b in the screen rows lo..hi and in the cursor at most. */
  ghost predicate Edits(b: Buf, r: Buf, lo: int, hi: int) {
    && r == b.(screen := r.screen, x := r.x, y := r.y)
    && |r.screen| == |b.screen|
    && forall i {:trigger r.screen[i]} :: 0 <= i < |b.screen| && !(lo <= i <= hi) ==> r.screen[i] == b.screen[i]
  }

  function FreshBuf(rows: int, cols: int): (b: Buf)
    requires 1 <= rows && 1 <= cols
    ensures Inv(b)
  {
    Buf(rows, cols, [], Copies(rows, BlankLine(cols, DEF_ATTR)), 0, 0, 0, 0, rows - 1, StopsFrom(0, cols))
  }

  // ---- Scrolling ----------------------------------------------------------

  /** History after a scroll: the line leaving a full-height region joins it, and
      reaching the limit halves it, even when the region starts lower down. */
  function ScrolledHistory(b: Buf, scrollback: nat): (h: seq<Line>)
    requires Inv(b) && scrollback != 1
    ensures IsSuffix(h, if b.top == 0 then b.history + [b.screen[0]] else b.history)
    ensures Covers(h, b.cols)
    ensures |b.history| < scrollback ==> |h| < scrollback
    ensures if |b.history| + 1 == scrollback then |h| >= scrollback / 2 - 1
            else h == if b.top == 0 then b.history + [b.screen[0]] else b.history
  {
    var full := |b.history| + 1 == scrollback;
    if b.top == 0 then
      var all := b.history + [b.screen[0]];
      if full then LastN(all, scrollback / 2) else all
    else if full then LastN(b.history, scrollback / 2 - 1) else b.history
  }

  function Scroll(b: Buf, scrollback: nat): (r: Buf)
    requires Inv(b) && scrollback != 1
    ensures Inv(r)
  {
    var h := ScrolledHistory(b, scrollback);
    var s := ShiftUp(b.screen, b.top, b.bottom + 1, 1, BlankLine(b.cols, DEF_ATTR));
    b.(history := h, ydisp := |h|, screen := s)
  }

  function Index(b: Buf, scrollback: nat): (r: Buf)
    requires Inv(b) && scrollback != 1
    ensures Inv(r)
  {
    if b.y + 1 > b.bottom then Scroll(b, scrollback) else b.(y := b.y + 1)
  }

  function ReverseIndex(b: Buf, attr: nat): (r: Buf)
    requires Inv(b)
    ensures Inv(r) && Edits(b, r, b.y, b.bottom)
  {
    if b.y - 1 < b.top
    then b.(screen := ShiftDown(b.screen, b.y, b.bottom + 1, 1, BlankLine(b.cols, EraseAttr(attr))))
    else b.(y := b.y - 1)
  }

  // ---- Line blocks --------------------------------------------------------

  /** Below the margins the source's two splices cross, and the block between the
      margin and the cursor moves the other way. */
  function InsertLines(b: Buf, n: nat, attr: nat): (r: Buf)
    requires Inv(b)
    ensures Inv(r) && Edits(b, r, Min(b.y, b.bottom), Max(b.y, b.bottom))
  {
    var blank := BlankLine(b.cols, EraseAttr(attr));
    if b.y <= b.bottom
    then b.(screen := ShiftDown(b.screen, b.y, b.bottom + 1, n, blank))
    else b.(screen := ShiftUp(b.screen, b.bottom + 1, b.y, n, blank))
  }

  function DeleteLines(b: Buf, n: nat, attr: nat): (r: Buf)
    requires Inv(b)
    ensures Inv(r) && Edits(b, r, Min(b.y, b.bottom), Max(b.y, b.bottom))
  {
    var blank := BlankLine(b.cols, EraseAttr(attr));
    if b.y <= b.bottom
    then b.(screen := ShiftUp(b.screen, b.y, b.bottom + 1, n, blank))
    else b.(screen := ShiftDown(b.screen, b.bottom + 1, b.y, n, blank))
  }

  function ScrollUp(b: Buf, n: nat): (r: Buf)
    requires Inv(b)
    ensures Inv(r) && Edits(b, r, b.top, b.bottom)
  {
    b.(screen := ShiftUp(b.screen, b.top, b.bottom + 1, n, BlankLine(b.cols, DEF_ATTR)))
  }

  function ScrollDown(b: Buf, n: nat): (r: Buf)
    requires Inv(b)
    ensures Inv(r) && Edits(b, r, b.top, b.bottom)
  {
    b.(screen := ShiftDown(b.screen, b.top, b.bottom + 1, n, BlankLine(b.cols, DEF_ATTR)))
  }

  // ---- Edits inside a line ------------------------------------------------

  function WithLine(b: Buf, y: int, line: Line): (r: Buf)
    requires Inv(b) && 0 <= y < b.rows && |line| >= b.cols
    ensures Inv(r) && Edits(b, r, y, y)
  {
    b.(screen := b.screen[y := line])
  }

  function EraseRight(b: Buf, x: int, y: int, attr: nat): (r: Buf)
    requires Inv(b) && 0 <= x <= b.cols && 0 <= y < b.rows
    ensures Inv(r) && Edits(b, r, y, y)
  {
    WithLine(b, y, Fill(b.screen[y], x, b.cols, Blank(EraseAttr(attr))))
  }

  /** Erases column x itself too: at x == cols the line grows by a cell. */
  function EraseLeft(b: Buf, x: int, y: int, attr: nat): (r: Buf)
    requires Inv(b) && 0 <= x <= b.cols && 0 <= y < b.rows
    ensures Inv(r) && Edits(b, r, y, y)
  {
    WithLine(b, y, Fill(b.screen[y], 0, x + 1, Blank(EraseAttr(attr))))
  }

  /** The first cols cells of rows [lo, hi) blanked. */
  function EraseRows(b: Buf, lo: int, hi: int, attr: nat): (r: Buf)
    requires Inv(b) && 0 <= lo <= hi <= b.rows
    ensures Inv(r) && Edits(b, r, lo, hi - 1)
    ensures forall i {:trigger r.screen[i]} :: lo <= i < hi ==>
      r.screen[i] == Fill(b.screen[i], 0, b.cols, Blank(EraseAttr(attr)))
    decreases hi - lo
  {
    if lo == hi then b
    else EraseRight(EraseRows(b, lo + 1, hi, attr), 0, lo, attr)
  }

  function EraseInLine(b: Buf, mode: nat, attr: nat): (r: Buf)
    requires Inv(b)
    ensures Inv(r) && Edits(b, r, b.y, b.y)
    ensures mode > 2 ==> r == b
  {
    if mode == 0 then EraseRight(b, b.x, b.y, attr)
    else if mode == 1 then EraseLeft(b, b.x, b.y, attr)
    else if mode == 2 then EraseRight(b, 0, b.y, attr)
    else b
  }

  function EraseInDisplay(b: Buf, mode: nat, attr: nat): (r: Buf)
    requires Inv(b)
    ensures Inv(r) && Edits(b, r, if mode == 0 then b.y else 0, if mode == 1 then b.y else b.rows - 1)
    ensures mode > 2 ==> r == b
  {
    if mode == 0 then EraseRows(EraseRight(b, b.x, b.y, attr), b.y + 1, b.rows, attr)
    else if mode == 1 then EraseRows(EraseLeft(b, b.x, b.y, attr), 0, b.y, attr)
    else if mode == 2 then EraseRows(b, 0, b.rows, attr)
    else b
  }

  function InsertChars(b: Buf, n: nat, attr: nat): (r: Buf)
    requires Inv(b)
    ensures Inv(r) && Edits(b, r, b.y, b.y)
  {
    var line := b.screen[b.y];
    WithLine(b, b.y, ShiftDown(line, b.x, |line|, Min(n, b.cols - b.x), Blank(EraseAttr(attr))))
  }

  /** Behind the last cell there is nothing to remove, so the line grows by one. */
  function DeleteChars(b: Buf, n: nat, attr: nat): (r: Buf)
    requires Inv(b) && n >= 1
    ensures Inv(r) && Edits(b, r, b.y, b.y)
  {
    var line := b.screen[b.y];
    var blank := Blank(EraseAttr(attr));
    WithLine(b, b.y, if b.x < |line| then ShiftUp(line, b.x, |line|, n, blank) else line + [blank])
  }

  function EraseChars(b: Buf, n: nat, attr: nat): (r: Buf)
    requires Inv(b)
    ensures Inv(r) && Edits(b, r, b.y, b.y)
  {
    WithLine(b, b.y, Fill(b.screen[b.y], b.x, Min(b.x + n, b.cols), Blank(EraseAttr(attr))))
  }

  /** REP does not look at the right edge: the cursor advances by n whatever n is. */
  function RepeatCell(b: Buf, n: nat): (r: Buf)
    requires Inv(b)
    ensures Edits(b, r, b.y, b.y)
    ensures Inv(r) <==> b.x + n <= b.cols
  {
    var line := b.screen[b.y];
    var c := if b.x > 0 then line[b.x - 1] else Blank(DEF_ATTR);
    WithLine(b, b.y, Fill(line, b.x, b.x + n, c)).(x := b.x + n)
  }

  // ---- Printing -----------------------------------------------------------

  /** Where a combining mark goes: the cell before the cursor, or the one before
      that when the former is the empty half of a wide character. */
  function CombineTarget(b: Buf): (k: int)
    requires Inv(b)
    ensures -1 <= k < b.x || k == -1
  {
    if b.x == 0 then -1
    else if b.screen[b.y][b.x - 1].width == 0 then b.x - 2
    else b.x - 1
  }

  function Combine(b: Buf, ch: Text): (r: Buf)
    requires Inv(b)
    ensures Inv(r) && Edits(b, r, b.y, b.y) && r.x == b.x && r.y == b.y
  {
    var k := CombineTarget(b);
    if k < 0 then b
    else
      var line := b.screen[b.y];
      WithLine(b, b.y, line[k := line[k].(ch := line[k].ch + ch)])
  }

  /** One insert-mode move: the last cell falls off and a blank opens at x. A wide
      character cut in half by the fall is blanked too. */
  function Shove(line: Line, x: int, cols: int, attr: nat): (r: Line)
    requires 1 <= cols <= |line| && 0 <= x < |line|
    ensures |r| == |line|
  {
    var kept := line[..|line| - 1];
    var halved := line[|line| - 1].width == 0 && 0 <= cols - 2 && kept[cols - 2].width == 2;
    var mended := if halved then kept[cols - 2 := Blank(attr)] else kept;
    InsertAt(mended, x, Blank(attr))
  }

  /** Writes ch at the cursor and, for a wide character, its empty second half. */
  function Place(b: Buf, insert: bool, attr: nat, ch: Text, w: nat): (r: Buf)
    requires Inv(b) && w <= 2 && b.x < b.cols && (b.x + w <= b.cols || b.x == 0)
    ensures Edits(b, r, b.y, b.y) && r.y == b.y && r.x == b.x + Max(w, 1)
    ensures Inv(r) <==> b.x + w <= b.cols
  {
    var line := b.screen[b.y];
    var once := if insert && w >= 1 then Shove(line, b.x, b.cols, attr) else line;
    var twice := if insert && w == 2 then Shove(once, b.x, b.cols, attr) else once;
    var placed := twice[b.x := Cell(attr, ch, w)];
    var done := if w == 2 then Fill(placed, b.x + 1, b.x + 2, Cell(attr, [], 0)) else placed;
    WithLine(b, b.y, done).(x := b.x + Max(w, 1))
  }

  function Overflows(b: Buf, w: nat): bool { b.x + w - 1 >= b.cols }

  /** The whole of printing: combine, wrap (or stick to the last column), place. */
  function Put(b: Buf, scrollback: nat, wrap: bool, insert: bool, attr: nat, ch: Text, w: nat): (r: Buf)
    requires Inv(b) && scrollback != 1 && w <= 2
    ensures Inv(r) <==> !(w == 2 && b.cols == 1 && wrap)
  {
    if w == 0 && b.x > 0 then Combine(b, ch)
    else if !Overflows(b, w) then Place(b, insert, attr, ch, w)
    else if wrap then Place(Index(b.(x := 0), scrollback), insert, attr, ch, w)
    else if w == 2 then b.(x := b.cols - 1)
    else Place(b.(x := b.cols - 1), insert, attr, ch, w)
  }
}
