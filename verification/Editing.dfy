/** Laws of the editing functions: counts add up, inverse pairs cancel, erasing in
    parts erases the whole. */
module Editing {
  import opened Sequences
  import opened Buffer

  /** A scroll moves exactly the rows of the region up by one, blanks its last row and
      leaves the other rows alone. What is kept of the history is the end of it; the top
      row joins it first when the region starts there. The history is cut only when the
      limit is reached, and then to half of it. */
  lemma ScrollMovesRegion(b: Buf, scrollback: nat)
    requires Inv(b) && scrollback != 1
    ensures var r := Scroll(b, scrollback);
      && |r.screen| == |b.screen| && r.screen[b.bottom] == BlankLine(b.cols, DEF_ATTR)
      && (forall i {:trigger r.screen[i]} :: b.top <= i < b.bottom ==> r.screen[i] == b.screen[i + 1])
      && (forall i {:trigger r.screen[i]} :: 0 <= i < b.rows && !(b.top <= i <= b.bottom) ==> r.screen[i] == b.screen[i])
    ensures var r, joined := Scroll(b, scrollback), if b.top == 0 then b.history + [b.screen[0]] else b.history;
      && IsSuffix(r.history, joined) && r.ydisp == |r.history|
      && (|b.history| + 1 != scrollback ==> r.history == joined)
      && (|b.history| + 1 == scrollback ==> |r.history| == scrollback / 2 - if b.top == 0 then 0 else 1)
  {
    hide ShiftUp, Copies;
    ShiftedElements(b.screen, b.top, b.bottom + 1, 1, BlankLine(b.cols, DEF_ATTR));
  }

  /** IL n and DL n move the rows from the cursor to the bottom margin by n, for every n
      even beyond the height, fill up with blank rows, and touch nothing else. */
  lemma LineBlocksMove(b: Buf, n: nat, attr: nat)
    requires Inv(b) && b.y <= b.bottom
    ensures var r, blank := InsertLines(b, n, attr), BlankLine(b.cols, EraseAttr(attr));
      && r == b.(screen := r.screen) && |r.screen| == |b.screen|
      && forall i {:trigger r.screen[i]} :: 0 <= i < b.rows ==>
           r.screen[i] == if !(b.y <= i <= b.bottom) then b.screen[i] else if i < b.y + n then blank else b.screen[i - n]
    ensures var r, blank := DeleteLines(b, n, attr), BlankLine(b.cols, EraseAttr(attr));
      && r == b.(screen := r.screen) && |r.screen| == |b.screen|
      && forall i {:trigger r.screen[i]} :: 0 <= i < b.rows ==>
           r.screen[i] == if !(b.y <= i <= b.bottom) then b.screen[i] else if i + n > b.bottom then blank else b.screen[i + n]
  {
    hide ShiftUp, ShiftDown, Copies;
    ShiftedElements(b.screen, b.y, b.bottom + 1, n, BlankLine(b.cols, EraseAttr(attr)));
  }

  /** SD n and SU n do the same to the whole scroll region. */
  lemma RegionMoves(b: Buf, n: nat)
    requires Inv(b)
    ensures var r, blank := ScrollDown(b, n), BlankLine(b.cols, DEF_ATTR);
      && r == b.(screen := r.screen) && |r.screen| == |b.screen|
      && forall i {:trigger r.screen[i]} :: 0 <= i < b.rows ==>
           r.screen[i] == if !(b.top <= i <= b.bottom) then b.screen[i] else if i < b.top + n then blank else b.screen[i - n]
    ensures var r, blank := ScrollUp(b, n), BlankLine(b.cols, DEF_ATTR);
      && r == b.(screen := r.screen) && |r.screen| == |b.screen|
      && forall i {:trigger r.screen[i]} :: 0 <= i < b.rows ==>
           r.screen[i] == if !(b.top <= i <= b.bottom) then b.screen[i] else if i + n > b.bottom then blank else b.screen[i + n]
  {
    hide ShiftUp, ShiftDown, Copies;
    ShiftedElements(b.screen, b.top, b.bottom + 1, n, BlankLine(b.cols, DEF_ATTR));
  }

  /** IL and DL of m and then n lines are the same as of m + n at once, so each is n
      single steps, wherever the cursor is. */
  lemma LineCountsAdd(b: Buf, m: nat, n: nat, attr: nat)
    requires Inv(b)
    ensures InsertLines(InsertLines(b, m, attr), n, attr) == InsertLines(b, m + n, attr)
    ensures DeleteLines(DeleteLines(b, m, attr), n, attr) == DeleteLines(b, m + n, attr)
  {
    hide ShiftUp, ShiftDown;
    var blank := BlankLine(b.cols, EraseAttr(attr));
    if b.y <= b.bottom {
      ShiftsAdd(b.screen, b.y, b.bottom + 1, m, n, blank);
      hide *;
      InsideMargins(b, m, attr);
      InsideMargins(b, m + n, attr);
      InsideMargins(InsertLines(b, m, attr), n, attr);
      InsideMargins(DeleteLines(b, m, attr), n, attr);
    } else {
      ShiftsAdd(b.screen, b.bottom + 1, b.y, m, n, blank);
      hide *;
      OutsideMargins(b, m, attr);
      OutsideMargins(b, m + n, attr);
      OutsideMargins(InsertLines(b, m, attr), n, attr);
      OutsideMargins(DeleteLines(b, m, attr), n, attr);
    }
  }

  lemma InsideMargins(b: Buf, n: nat, attr: nat)
    requires Inv(b) && b.y <= b.bottom
    ensures 0 <= b.y <= b.bottom + 1 <= |b.screen| && 0 <= b.cols
    ensures var blank := BlankLine(b.cols, EraseAttr(attr));
      && InsertLines(b, n, attr) == b.(screen := ShiftDown(b.screen, b.y, b.bottom + 1, n, blank))
      && DeleteLines(b, n, attr) == b.(screen := ShiftUp(b.screen, b.y, b.bottom + 1, n, blank))
  {
  }

  lemma OutsideMargins(b: Buf, n: nat, attr: nat)
    requires Inv(b) && b.y > b.bottom
    ensures 0 <= b.bottom + 1 <= b.y <= |b.screen| && 0 <= b.cols
    ensures var blank := BlankLine(b.cols, EraseAttr(attr));
      && InsertLines(b, n, attr) == b.(screen := ShiftUp(b.screen, b.bottom + 1, b.y, n, blank))
      && DeleteLines(b, n, attr) == b.(screen := ShiftDown(b.screen, b.bottom + 1, b.y, n, blank))
  {
  }

  /** The same for SU and SD. */
  lemma RegionCountsAdd(b: Buf, m: nat, n: nat)
    requires Inv(b)
    ensures ScrollUp(ScrollUp(b, m), n) == ScrollUp(b, m + n)
    ensures ScrollDown(ScrollDown(b, m), n) == ScrollDown(b, m + n)
  {
    hide ShiftUp, ShiftDown;
    ShiftsAdd(b.screen, b.top, b.bottom + 1, m, n, BlankLine(b.cols, DEF_ATTR));
  }

  /** Inside the margins, DL n takes back IL n, but the lines IL pushed out at the
      bottom stay lost: the last min(n, height) rows of the region are blank. */
  lemma DeleteUndoesInsert(b: Buf, n: nat, attr: nat)
    requires Inv(b) && b.y <= b.bottom
    ensures var lost := Min(n, b.bottom + 1 - b.y);
      DeleteLines(InsertLines(b, n, attr), n, attr) ==
      b.(screen := Fill(b.screen, b.bottom + 1 - lost, b.bottom + 1, BlankLine(b.cols, EraseAttr(attr))))
  {
    hide ShiftUp, ShiftDown, Fill;
    DownThenUp(b.screen, b.y, b.bottom + 1, n, BlankLine(b.cols, EraseAttr(attr)), BlankLine(b.cols, EraseAttr(attr)));
  }

  /** The same for SD and SU on the scroll region. */
  lemma ScrollUpUndoesScrollDown(b: Buf, n: nat)
    requires Inv(b)
    ensures var lost := Min(n, b.bottom + 1 - b.top);
      ScrollUp(ScrollDown(b, n), n) ==
      b.(screen := Fill(b.screen, b.bottom + 1 - lost, b.bottom + 1, BlankLine(b.cols, DEF_ATTR)))
  {
    hide ShiftUp, ShiftDown, Fill;
    DownThenUp(b.screen, b.top, b.bottom + 1, n, BlankLine(b.cols, DEF_ATTR), BlankLine(b.cols, DEF_ATTR));
  }

  /** On a full line ICH n inserts n blanks and cuts the line to its width, and DCH n
      deletes n cells and pads it, for every n. */
  lemma CharEditsInClosedForm(b: Buf, n: nat, attr: nat)
    requires Inv(b) && n >= 1 && b.x < b.cols == |b.screen[b.y]|
    ensures var line, blank := b.screen[b.y], Blank(EraseAttr(attr));
      && InsertChars(b, n, attr) ==
         b.(screen := b.screen[b.y := (line[..b.x] + Copies(n, blank) + line[b.x..])[..b.cols]])
      && DeleteChars(b, n, attr) ==
         b.(screen := b.screen[b.y := (line[..b.x] + line[Min(b.x + n, b.cols)..] + Copies(n, blank))[..b.cols]])
  {
    var line, blank := b.screen[b.y], Blank(EraseAttr(attr));
    InsertedCells(line, b.x, n, blank);
    DeletedCells(line, b.x, n, blank);
  }

  lemma InsertedCells(line: Line, x: nat, n: nat, v: Cell)
    requires x < |line|
    ensures ShiftDown(line, x, |line|, Min(n, |line| - x), v) == (line[..x] + Copies(n, v) + line[x..])[..|line|]
  {
    hide ShiftDown;
    var k := Min(n, |line| - x);
    ShiftedElements(line, x, |line|, k, v);
    var r := (line[..x] + Copies(n, v) + line[x..])[..|line|];
    assert forall i {:trigger r[i]} :: 0 <= i < |line| ==>
      r[i] == if i < x then line[i] else if i < x + k then v else line[i - k];
  }

  lemma DeletedCells(line: Line, x: nat, n: nat, v: Cell)
    requires x < |line|
    ensures ShiftUp(line, x, |line|, n, v) == (line[..x] + line[Min(x + n, |line|)..] + Copies(n, v))[..|line|]
  {
    hide ShiftUp;
    ShiftedElements(line, x, |line|, n, v);
  }

  /** DCH n takes back ICH n except for the cells pushed off the line. */
  lemma DeleteCharsUndoesInsertChars(b: Buf, n: nat, attr: nat)
    requires Inv(b) && n >= 1 && b.x < b.cols == |b.screen[b.y]|
    ensures var lost := Min(n, b.cols - b.x);
      DeleteChars(InsertChars(b, n, attr), n, attr) ==
      b.(screen := b.screen[b.y := Fill(b.screen[b.y], b.cols - lost, b.cols, Blank(EraseAttr(attr)))])
  {
    var line, blank := b.screen[b.y], Blank(EraseAttr(attr));
    var k := Min(n, b.cols - b.x);
    DownThenUp(line, b.x, b.cols, k, blank, blank);
    var shifted := ShiftDown(line, b.x, b.cols, k, blank);
    SameShift(shifted, b.x, n, blank);
  }

  /** Past the end of the line a larger count makes no difference. */
  lemma SameShift(line: Line, x: nat, n: nat, v: Cell)
    requires x < |line|
    ensures ShiftUp(line, x, |line|, n, v) == ShiftUp(line, x, |line|, Min(n, |line| - x), v)
  {
    hide ShiftUp;
    ShiftedElements(line, x, |line|, n, v);
    ShiftedElements(line, x, |line|, Min(n, |line| - x), v);
  }

  /** ED 0 and then ED 1 erase what ED 2 erases, if and only if the cursor is not
      waiting to wrap, or the line already has a blank cell behind its last column:
      from the pending-wrap position ED 1 writes a cell too many. */
  lemma BelowAndAboveIsAll(b: Buf, attr: nat)
    requires Inv(b)
    ensures var line, blank := b.screen[b.y], Blank(EraseAttr(attr));
      EraseInDisplay(EraseInDisplay(b, 0, attr), 1, attr) == EraseInDisplay(b, 2, attr) <==>
      b.x < b.cols || (|line| > b.cols && line[b.cols] == blank)
  {
    hide EraseInDisplay, Fill, Inv;
    CursorInside(b);
    var blank := Blank(EraseAttr(attr));
    var line := b.screen[b.y];
    var below := EraseInDisplay(b, 0, attr);
    var parts := EraseInDisplay(below, 1, attr);
    var whole := EraseInDisplay(b, 2, attr);
    BelowRows(b, attr);
    AboveRows(below, attr);
    AllRows(b, attr);
    CursorLineErased(line, b.x, b.cols, blank);
    if parts.screen[b.y] == whole.screen[b.y] {
      forall i | 0 <= i < b.rows ensures parts.screen[i] == whole.screen[i] {
        if i < b.y { assert parts.screen[i] == Fill(below.screen[i], 0, b.cols, blank); }
        if i > b.y { assert parts.screen[i] == below.screen[i]; }
      }
      assert parts.screen == whole.screen;
    }
  }

  lemma CursorInside(b: Buf)
    requires Inv(b)
    ensures 0 <= b.y < b.rows == |b.screen| && 0 <= b.x <= b.cols <= |b.screen[b.y]|
  {
  }

  lemma CursorLineErased(line: Line, x: nat, cols: nat, v: Cell)
    requires x <= cols <= |line|
    ensures Fill(Fill(line, x, cols, v), 0, x + 1, v) == Fill(line, 0, cols, v) <==>
      x < cols || (|line| > cols && line[cols] == v)
  {
    var p, w := Fill(Fill(line, x, cols, v), 0, x + 1, v), Fill(line, 0, cols, v);
    if x < cols || (|line| > cols && line[cols] == v) { assert p == w; } else { assert p[cols] == v; }
  }

  lemma BelowRows(b: Buf, attr: nat)
    requires Inv(b)
    ensures var r, blank := EraseInDisplay(b, 0, attr), Blank(EraseAttr(attr));
      && r == b.(screen := r.screen) && Inv(r) && |r.screen| == |b.screen|
      && r.screen[b.y] == Fill(b.screen[b.y], b.x, b.cols, blank)
      && (forall i {:trigger r.screen[i]} :: 0 <= i < b.y ==> r.screen[i] == b.screen[i])
      && (forall i {:trigger r.screen[i]} :: b.y < i < b.rows ==> r.screen[i] == Fill(b.screen[i], 0, b.cols, blank))
  {
    hide EraseRows, Fill;
    EraseKeepsCursor(EraseRight(b, b.x, b.y, attr), b.y + 1, b.rows, attr);
  }

  lemma AboveRows(b: Buf, attr: nat)
    requires Inv(b)
    ensures var r, blank := EraseInDisplay(b, 1, attr), Blank(EraseAttr(attr));
      && r == b.(screen := r.screen) && |r.screen| == |b.screen|
      && r.screen[b.y] == Fill(b.screen[b.y], 0, b.x + 1, blank)
      && (forall i {:trigger r.screen[i]} :: b.y < i < b.rows ==> r.screen[i] == b.screen[i])
      && (forall i {:trigger r.screen[i]} :: 0 <= i < b.y ==> r.screen[i] == Fill(b.screen[i], 0, b.cols, blank))
  {
    hide EraseRows, Fill;
    EraseKeepsCursor(EraseLeft(b, b.x, b.y, attr), 0, b.y, attr);
  }

  lemma AllRows(b: Buf, attr: nat)
    requires Inv(b)
    ensures var r, blank := EraseInDisplay(b, 2, attr), Blank(EraseAttr(attr));
      && r == b.(screen := r.screen) && |r.screen| == |b.screen|
      && (forall i {:trigger r.screen[i]} :: 0 <= i < b.rows ==> r.screen[i] == Fill(b.screen[i], 0, b.cols, blank))
  {
    hide EraseRows, Fill;
    EraseKeepsCursor(b, 0, b.rows, attr);
  }

  lemma {:induction false} EraseKeepsCursor(b: Buf, lo: int, hi: int, attr: nat)
    requires Inv(b) && 0 <= lo <= hi <= b.rows
    ensures var r := EraseRows(b, lo, hi, attr); r == b.(screen := r.screen)
    decreases hi - lo
  {
    hide Fill, Inv;
    if lo < hi { EraseKeepsCursor(b, lo + 1, hi, attr); }
  }
}
