/** The buffer operations as the source writes them: loops and splices over the fields
    of the screen, each method tied to the operation on Buf that it computes. */
module Screens {
  import opened Sequences
  import opened TabStops
  import opened Buffer
  import opened Resizing
  import opened Splices
  import opened Loops
  import opened Emulator
  import opened Effects
  import opened Rendering
  import opened Refreshing
  import opened Display

  /** The object in which the alternate screen mode keeps the normal screen. */
  datatype NormalScreen = NormalScreen(
    lines: seq<Line>, ybase: int, ydisp: int, x: int, y: int, scrollTop: int, scrollBottom: int, tabs: set<int>)

  /** The screen half of the terminal object: the line array with its offsets, the
      cursor, margins and tab stops, the modes printing looks at, the rows announced
      for the next refresh, and the row elements. */
  class Screen {
    const scrollback: nat

    var cols: int
    var rows: int
    var lines: seq<Line>
    var ybase: int
    var ydisp: int
    var x: int
    var y: int
    var scrollTop: int
    var scrollBottom: int
    var tabs: set<int>
    var curAttr: nat
    var insertMode: bool
    var wraparoundMode: bool
    var refreshStart: int
    var refreshEnd: int
    var children: seq<Markup>

    /** The buffer the fields stand for. */
    ghost function Contents(): Buf
      reads this
    {
      Buf(rows, cols, Above(lines, ybase), Below(lines, ybase), ydisp, x, y, scrollTop, scrollBottom, tabs)
    }

    ghost function Span(): Range
      reads `refreshStart, `refreshEnd
    {
      Range(refreshStart, refreshEnd)
    }

    /** What the buffer operations leave alone. */
    ghost function Style(): (nat, bool, bool)
      reads `curAttr, `insertMode, `wraparoundMode
    {
      (curAttr, insertMode, wraparoundMode)
    }

    ghost predicate InBounds()
      reads this
    {
      0 <= ybase <= |lines|
    }

    /** What the buffer operations rely on; each of them keeps it because the
        operation on Buf it computes does. */
    ghost predicate Ok()
      reads this
    {
      scrollback != 1 && InBounds() && Inv(Contents())
    }

    constructor (scrollback: nat, rows: int, cols: int)
      requires 1 <= rows && 1 <= cols
      ensures this.scrollback == scrollback && this.rows == rows && this.cols == cols
      ensures InBounds() && Contents() == FreshBuf(rows, cols)
      ensures curAttr == DEF_ATTR && !insertMode && wraparoundMode && children == []
    {
      this.scrollback, this.rows, this.cols := scrollback, rows, cols;
      lines, ybase, ydisp, x, y, scrollTop, scrollBottom, tabs := [], 0, 0, 0, 0, 0, 0, {};
      curAttr, insertMode, wraparoundMode := DEF_ATTR, false, true;
      refreshStart, refreshEnd, children := 0, 0, [];
      new;
      Initialize();
    }

    /** What the constructor sets, and `reset` sets again. */
    method Initialize()
      requires 1 <= rows && 1 <= cols
      modifies this
      ensures Span() == old(Span()) && children == old(children) && rows == old(rows) && cols == old(cols)
      ensures InBounds() && Contents() == FreshBuf(rows, cols)
      ensures curAttr == DEF_ATTR && !insertMode && wraparoundMode
    {
      hide Copies, BlankLine, StopsFrom;
      InitializeModes();
      InitializeBuffer();
    }

    method InitializeModes()
      modifies `insertMode, `wraparoundMode, `curAttr
      ensures curAttr == DEF_ATTR && !insertMode && wraparoundMode
    {
      insertMode, wraparoundMode, curAttr := false, true, DEF_ATTR;
    }

    method InitializeBuffer()
      requires 1 <= rows && 1 <= cols
      modifies `ybase, `ydisp, `x, `y, `scrollTop, `scrollBottom, `lines, `tabs
      ensures InBounds() && Contents() == FreshBuf(rows, cols)
    {
      hide Copies, BlankLine, StopsFrom;
      ybase, ydisp, x, y := 0, 0, 0, 0;
      scrollTop, scrollBottom := 0, rows - 1;
      FillLines();
      SetupStops(None);
    }

    method FillLines()
      requires 1 <= cols && 0 <= rows
      modifies `lines
      ensures lines == Copies(rows, BlankLine(cols, DEF_ATTR))
    {
      lines := [];
      var i := rows;
      while i > 0
        invariant 0 <= i <= rows
        invariant lines == Copies(rows - i, BlankLine(cols, DEF_ATTR))
        modifies `lines
      {
        i := i - 1;
        var line := NewBlankLine(false);
        lines := lines + [line];
      }
    }

    lemma Facts()
      requires Ok()
      ensures |lines| == ybase + rows && 0 <= ybase && SplitAt(Contents(), lines, ybase)
      ensures 0 <= scrollTop <= scrollBottom < rows && 1 <= cols && 0 <= y < rows && 0 <= x <= cols
      ensures |Contents().history| == ybase && |Contents().screen| == rows
      ensures forall i {:trigger lines[i]} :: 0 <= i < |lines| ==> |lines[i]| >= cols
    {
      assert forall i {:trigger lines[i]} :: 0 <= i < ybase ==> lines[i] == Contents().history[i];
      assert forall i {:trigger lines[i]} :: ybase <= i < |lines| ==> lines[i] == Contents().screen[i - ybase];
    }

    /** The same while the cursor's column may lie off the screen. */
    lemma FactsBelow()
      requires InBounds() && Inv(Contents().(x := 0))
      ensures |lines| == ybase + rows && 0 <= ybase && SplitAt(Contents(), lines, ybase) && |Contents().history| == ybase
      ensures 1 <= cols && 0 <= y < rows && 0 <= ydisp <= ybase
    {
    }

    // ---- Small helpers --------------------------------------------------------------

    method UpdateRange(row: int)
      modifies `refreshStart, `refreshEnd
      ensures Span() == Widen(old(Span()), Rows(row, row)) && Contents() == old(Contents())
    {
      if row < refreshStart { refreshStart := row; }
      if row > refreshEnd { refreshEnd := row; }
    }

    function EraseCell(): Cell
      reads this
    {
      Blank(EraseAttr(curAttr))
    }

    method NewBlankLine(cur: bool) returns (line: Line)
      requires cols >= 0
      ensures line == BlankLine(cols, if cur then EraseAttr(curAttr) else DEF_ATTR)
    {
      var ch := if cur then EraseCell() else Blank(DEF_ATTR);
      line := [];
      for i := 0 to cols
        invariant line == Copies(i, ch)
      {
        line := line + [ch];
      }
    }

    // ---- Scrolling --------------------------------------------------------------------

    /** The head of `scroll`: one more line above the screen, and half of them gone
        when that reaches the limit. */
    method RaiseBase()
      requires Ok()
      modifies `lines, `ybase
      ensures var p := KeptHistory(old(Contents()).history, scrollback);
        lines == p + old(Contents()).screen && ybase == |p| + 1
    {
      hide LastN, SliceLast, Inv;
      ghost var h, s := lines[..ybase], lines[ybase..];
      Facts();
      assert lines == h + s;
      ybase := ybase + 1;
      if ybase == scrollback {
        ybase := ybase / 2;
        lines := SliceLast(lines, ybase + rows - 1);
        TrimSplit(h, s, ybase);
      }
    }

    /** A new line at an index, pushed when that amounts to the same. */
    method PutLine(row: int, line: Line)
      requires 0 <= row <= |lines|
      modifies `lines
      ensures lines == InsertAt(old(lines), row, line)
    {
      if row == |lines| {
        lines := lines + [line];
      } else {
        lines := InsertAt(lines, row, line);
      }
    }

    /** With a top margin the line gained above is taken out of the region again. */
    method DropTopLine()
      requires 0 <= scrollTop && 1 <= ybase && ybase + scrollTop <= |lines|
      modifies `lines, `ybase, `ydisp
      ensures scrollTop == 0 ==> lines == old(lines) && ybase == old(ybase) && ydisp == old(ydisp)
      ensures scrollTop != 0 ==>
        ydisp == ybase == old(ybase) - 1 && lines == RemoveAt(old(lines), ybase + scrollTop)
    {
      if scrollTop != 0 {
        if ybase != 0 {
          ybase := ybase - 1;
          ydisp := ybase;
        }
        lines := RemoveAt(lines, ybase + scrollTop);
      }
    }

    /** All of `scroll` but its two range updates. */
    method ScrollLines()
      requires Ok()
      modifies `lines, `ybase, `ydisp
      ensures InBounds() && Contents() == Buffer.Scroll(old(Contents()), scrollback)
    {
      hide Inv, ShiftUp, Copies, InsertAt, RemoveAt, Buffer.Scroll, KeptHistory, Above, Below;
      ghost var b := Contents();
      Facts();
      RaiseBase();
      var row := ybase + rows - 1;
      row := row - (rows - 1 - scrollBottom);
      var blank := NewBlankLine(false);
      ydisp := ybase;
      PutLine(row, blank);
      ghost var t := lines;
      DropTopLine();
      ScrollFinished(b, scrollback, t, blank, lines, ybase);
    }

    method Scroll()
      requires Ok()
      modifies `lines, `ybase, `ydisp, `refreshStart, `refreshEnd
      ensures InBounds() && Contents() == Buffer.Scroll(old(Contents()), scrollback)
      ensures Span() == Widen(old(Span()), Rows(scrollTop, scrollBottom))
    {
      hide Buffer.Scroll, Inv, Above, Below;
      Facts();
      ScrollLines();
      UpdateRange(scrollTop);
      UpdateRange(scrollBottom);
    }

    method Index()
      requires Ok()
      modifies `lines, `ybase, `ydisp, `y, `refreshStart, `refreshEnd
      ensures InBounds() && Contents() == Buffer.Index(old(Contents()), scrollback)
      ensures Span() == Widen(old(Span()), if AtMargin(old(Contents())) then Rows(scrollTop, scrollBottom) else Nowhere)
    {
      y := y + 1;
      if y > scrollBottom {
        y := y - 1;
        Scroll();
      }
    }

    /** `lines.splice(at, 0, line)` and `lines.splice(gone, 1)`, in this order. */
    method Swap(at: int, gone: int, line: Line)
      requires 0 <= at <= |lines| && 0 <= gone <= |lines|
      modifies `lines
      ensures at <= gone ==> lines == ShiftDown(old(lines), at, gone, 1, line)
      ensures gone <= at ==> lines == ShiftUp(old(lines), gone, at, 1, line)
    {
      hide ShiftUp, ShiftDown, InsertAt, RemoveAt;
      if at <= gone { InsertThenRemove(lines, at, gone, line); }
      if gone <= at { InsertThenRemove(lines, gone, at, line); }
      lines := InsertAt(lines, at, line);
      lines := RemoveAt(lines, gone);
    }

    method ReverseIndex()
      requires Ok()
      modifies `lines, `y, `refreshStart, `refreshEnd
      ensures InBounds() && Contents() == Buffer.ReverseIndex(old(Contents()), curAttr)
      ensures Span() == Widen(old(Span()),
        if old(y) - 1 < scrollTop then Rows(scrollTop, scrollBottom) else Nowhere)
    {
      hide Inv, Above, Below, ShiftUp, ShiftDown, Copies, Buffer.ReverseIndex;
      ghost var b, was := Contents(), lines;
      Facts();
      ReverseCases(b, curAttr);
      y := y - 1;
      if y < scrollTop {
        y := y + 1;
        var blank := NewBlankLine(true);
        var j := rows - 1 - scrollBottom;
        Swap(y + ybase, rows - 1 + ybase - j + 1, blank);
        ReversedLines(b, was, ybase, lines, curAttr);
        UpdateRange(scrollTop);
        UpdateRange(scrollBottom);
      }
    }

    // ---- Line blocks ------------------------------------------------------------------

    method InsertLines(params: seq<nat>)
      requires Ok() && |params| >= 1
      modifies `lines, `refreshStart, `refreshEnd
      ensures InBounds() && Contents() == Buffer.InsertLines(old(Contents()), Count(params), curAttr)
      ensures Span() == Widen(old(Span()), Rows(Min(y, scrollBottom), Max(y, scrollBottom)))
    {
      hide Inv, Above, Below, Buffer.InsertLines, ShiftUp, ShiftDown, Copies;
      ghost var b, was := Contents(), lines;
      Facts();
      var param := params[0];
      if param < 1 { param := 1; }
      var row := y + ybase;
      var j := rows - 1 - scrollBottom;
      j := rows - 1 + ybase - j + 1;
      RepeatSwap(row, j, param);
      InsertedLines(b, was, ybase, lines, param, curAttr);
      UpdateRange(y);
      UpdateRange(scrollBottom);
    }

    method DeleteLines(params: seq<nat>)
      requires Ok() && |params| >= 1
      modifies `lines, `refreshStart, `refreshEnd
      ensures InBounds() && Contents() == Buffer.DeleteLines(old(Contents()), Count(params), curAttr)
      ensures Span() == Widen(old(Span()), Rows(Min(y, scrollBottom), Max(y, scrollBottom)))
    {
      hide Inv, Above, Below, Buffer.DeleteLines, ShiftUp, ShiftDown, Copies;
      ghost var b, was := Contents(), lines;
      Facts();
      var param := params[0];
      if param < 1 { param := 1; }
      var row := y + ybase;
      var j := rows - 1 - scrollBottom;
      j := rows - 1 + ybase - j;
      RepeatSwap(j + 1, row, param);
      DeletedLines(b, was, ybase, lines, param, curAttr);
      UpdateRange(y);
      UpdateRange(scrollBottom);
    }

    method ScrollUp(params: seq<nat>)
      requires Ok() && |params| >= 1
      modifies `lines, `refreshStart, `refreshEnd
      ensures InBounds() && Contents() == Buffer.ScrollUp(old(Contents()), Count(params))
      ensures Span() == Widen(old(Span()), Rows(scrollTop, scrollBottom))
    {
      hide Inv, Above, Below, Buffer.ScrollUp, ShiftUp, ShiftDown, Copies, InsertAt, RemoveAt;
      ghost var b, was := Contents(), lines;
      Facts();
      var param := if params[0] == 0 then 1 else params[0];
      ghost var n, blank, lo, hi := param, BlankLine(cols, DEF_ATTR), ybase + scrollTop, ybase + scrollBottom + 1;
      NoShift(was, lo, hi, blank);
      while param > 0
        invariant 0 <= param <= n && |lines| == |was| && hi <= |was|
        invariant lines == ShiftUp(was, lo, hi, n - param, blank)
        modifies `lines
      {
        ShiftsAdd(was, lo, hi, n - param, 1, blank);
        RemoveThenInsert(lines, lo, hi, blank);
        param := param - 1;
        lines := RemoveAt(lines, ybase + scrollTop);
        var line := NewBlankLine(false);
        lines := InsertAt(lines, ybase + scrollBottom, line);
      }
      RolledLines(b, was, ybase, n);
      UpdateRange(scrollTop);
      UpdateRange(scrollBottom);
    }

    method ScrollDown(params: seq<nat>)
      requires Ok() && |params| >= 1
      modifies `lines, `refreshStart, `refreshEnd
      ensures InBounds() && Contents() == Buffer.ScrollDown(old(Contents()), Count(params))
      ensures Span() == Widen(old(Span()), Rows(scrollTop, scrollBottom))
    {
      hide Inv, Above, Below, Buffer.ScrollDown, ShiftUp, ShiftDown, Copies, InsertAt, RemoveAt;
      ghost var b, was := Contents(), lines;
      Facts();
      var param := if params[0] == 0 then 1 else params[0];
      ghost var n, blank, lo, hi := param, BlankLine(cols, DEF_ATTR), ybase + scrollTop, ybase + scrollBottom + 1;
      NoShift(was, lo, hi, blank);
      while param > 0
        invariant 0 <= param <= n && |lines| == |was| && hi <= |was|
        invariant lines == ShiftDown(was, lo, hi, n - param, blank)
        modifies `lines
      {
        ShiftsAdd(was, lo, hi, n - param, 1, blank);
        RemoveThenInsert(lines, lo, hi, blank);
        param := param - 1;
        lines := RemoveAt(lines, ybase + scrollBottom);
        var line := NewBlankLine(false);
        lines := InsertAt(lines, ybase + scrollTop, line);
      }
      RolledLines(b, was, ybase, n);
      UpdateRange(scrollTop);
      UpdateRange(scrollBottom);
    }

    /** The loop shared by IL and DL. */
    method RepeatSwap(at: int, gone: int, n: nat)
      requires 0 <= at <= |lines| && 0 <= gone <= |lines| && cols >= 0
      modifies `lines
      ensures var blank := BlankLine(cols, EraseAttr(curAttr));
        && (at <= gone ==> lines == ShiftDown(old(lines), at, gone, n, blank))
        && (gone <= at ==> lines == ShiftUp(old(lines), gone, at, n, blank))
    {
      hide ShiftUp, ShiftDown, Copies;
      var param := n;
      ghost var was := lines;
      ghost var blank := BlankLine(cols, EraseAttr(curAttr));
      if at <= gone { NoShift(was, at, gone, blank); }
      if gone <= at { NoShift(was, gone, at, blank); }
      while param > 0
        invariant 0 <= param <= n && |lines| == |was|
        invariant at <= gone ==> lines == ShiftDown(was, at, gone, n - param, blank)
        invariant gone <= at ==> lines == ShiftUp(was, gone, at, n - param, blank)
      {
        if at <= gone { ShiftsAdd(was, at, gone, n - param, 1, blank); }
        if gone <= at { ShiftsAdd(was, gone, at, n - param, 1, blank); }
        param := param - 1;
        var line := NewBlankLine(true);
        Swap(at, gone, line);
      }
    }

    // ---- Edits inside a line --------------------------------------------------------------

    /** Writes a line back to where it came from. */
    method WriteLine(row: int, line: Line)
      requires Ok() && 0 <= row < rows && |line| >= cols
      modifies `lines
      ensures InBounds() && Contents() == WithLine(old(Contents()), row, line)
    {
      hide Inv, Above, Below, WithLine;
      Facts();
      LineWritten(Contents(), lines, ybase, row, line);
      lines := lines[ybase + row := line];
    }

    method EraseRight(from: int, row: int)
      requires Ok() && 0 <= from <= cols && 0 <= row < rows
      modifies `lines, `refreshStart, `refreshEnd
      ensures InBounds() && Contents() == Buffer.EraseRight(old(Contents()), from, row, curAttr)
      ensures Span() == Widen(old(Span()), Rows(row, row))
    {
      hide Inv, Above, Below, WithLine, Fill;
      Facts();
      LineOf(Contents(), lines, ybase, row);
      var line := lines[ybase + row];
      ghost var was := line;
      var ch := EraseCell();
      FillNothing(was, from, ch);
      for j := from to cols
        invariant line == Fill(was, from, j, ch)
        modifies {}
      {
        FillLength(was, from, j, ch);
        FillLength(was, from, j + 1, ch);
        StoreExtendsFill(was, from, j, ch);
        line := Store(line, j, ch);
      }
      FillLength(was, from, cols, ch);
      WriteLine(row, line);
      UpdateRange(row);
    }

    /** From column `from` leftwards, itself included. */
    method EraseLeft(from: int, row: int)
      requires Ok() && 0 <= from <= cols && 0 <= row < rows
      modifies `lines, `refreshStart, `refreshEnd
      ensures InBounds() && Contents() == Buffer.EraseLeft(old(Contents()), from, row, curAttr)
      ensures Span() == Widen(old(Span()), Rows(row, row))
    {
      hide Inv, Above, Below, WithLine, Fill;
      Facts();
      LineOf(Contents(), lines, ybase, row);
      var line := lines[ybase + row];
      ghost var was := line;
      var ch := EraseCell();
      var j := from + 1;
      while j > 0
        invariant 0 <= j <= from + 1
        invariant if j == from + 1 then line == was else line == Fill(was, j, from + 1, ch)
        modifies {}
      {
        j := j - 1;
        FillLength(was, j, from + 1, ch);
        if j == from { FillNothing(was, j, ch); StoreExtendsFill(was, j, j, ch); }
        else { FillLength(was, j + 1, from + 1, ch); StoreBeforeFill(was, j, from + 1, ch); }
        line := Store(line, j, ch);
      }
      FillLength(was, 0, from + 1, ch);
      WriteLine(row, line);
      UpdateRange(row);
    }

    method EraseLine(row: int)
      requires Ok() && 0 <= row < rows
      modifies `lines, `refreshStart, `refreshEnd
      ensures InBounds() && Contents() == Buffer.EraseRight(old(Contents()), 0, row, curAttr)
      ensures Span() == Widen(old(Span()), Rows(row, row))
    {
      EraseRight(0, row);
    }

    method EraseInLine(params: seq<nat>)
      requires Ok() && |params| >= 1
      modifies `lines, `refreshStart, `refreshEnd
      ensures InBounds() && Contents() == Buffer.EraseInLine(old(Contents()), params[0], curAttr)
      ensures Span() == Widen(old(Span()), if params[0] <= 2 then Rows(y, y) else Nowhere)
    {
      hide Inv, Above, Below, Buffer.EraseRight, Buffer.EraseLeft;
      Facts();
      match params[0]
      case 0 => EraseRight(x, y);
      case 1 => EraseLeft(x, y);
      case 2 => EraseLine(y);
      case _ =>
    }

    method EraseInDisplay(params: seq<nat>)
      requires Ok() && |params| >= 1
      modifies `lines, `refreshStart, `refreshEnd
      ensures InBounds() && Contents() == Buffer.EraseInDisplay(old(Contents()), params[0], curAttr)
      ensures Span() == Widen(old(Span()), CsiAnnounces(old(Contents()), ED, params, []))
    {
      hide Inv, Above, Below, Buffer.EraseRight, Buffer.EraseLeft, EraseRows;
      Facts();
      match params[0]
      case 0 => EraseBelow();
      case 1 => EraseAbove();
      case 2 => EraseRowsUp(rows);
      case _ =>
    }

    method EraseBelow()
      requires Ok()
      modifies `lines, `refreshStart, `refreshEnd
      ensures InBounds() &&
        Contents() == EraseRows(Buffer.EraseRight(old(Contents()), x, y, curAttr), y + 1, rows, curAttr)
      ensures Span() == Widen(old(Span()), Rows(y, rows - 1))
    {
      hide Inv, Above, Below, Buffer.EraseRight, EraseRows;
      Facts();
      EraseRight(x, y);
      ghost var b := Contents();
      EraseNoRows(b, y + 1, curAttr);
      var j := y + 1;
      while j < rows
        invariant y + 1 <= j <= rows
        invariant Ok() && Contents() == EraseRows(b, y + 1, j, curAttr)
        invariant Span() == Widen(old(Span()), Rows(y, j - 1))
        modifies `lines, `refreshStart, `refreshEnd
      {
        EraseRowsGrows(b, y + 1, j, curAttr);
        EraseLine(j);
        j := j + 1;
      }
    }

    method EraseAbove()
      requires Ok()
      modifies `lines, `refreshStart, `refreshEnd
      ensures InBounds() && Contents() == EraseRows(Buffer.EraseLeft(old(Contents()), x, y, curAttr), 0, y, curAttr)
      ensures Span() == Widen(old(Span()), Rows(0, y))
    {
      hide Inv, Above, Below, Buffer.EraseLeft, EraseRows;
      Facts();
      EraseLeft(x, y);
      EraseRowsUp(y);
    }

    /** `while (j--) this.eraseLine(j)`. */
    method EraseRowsUp(count: int)
      requires Ok() && 0 <= count <= rows
      modifies `lines, `refreshStart, `refreshEnd
      ensures InBounds() && Contents() == EraseRows(old(Contents()), 0, count, curAttr)
      ensures Span() == Widen(old(Span()), if count == 0 then Nowhere else Rows(0, count - 1))
    {
      hide Inv, Above, Below, Buffer.EraseRight, EraseRows;
      ghost var b := Contents();
      EraseNoRows(b, count, curAttr);
      var j := count;
      while j > 0
        invariant 0 <= j <= count
        invariant Ok() && Contents() == EraseRows(b, j, count, curAttr)
        invariant Span() == Widen(old(Span()), if j == count then Nowhere else Rows(j, count - 1))
        modifies `lines, `refreshStart, `refreshEnd
      {
        EraseRowsPeels(b, j - 1, count, curAttr);
        j := j - 1;
        EraseLine(j);
      }
    }

    method InsertChars(params: seq<nat>)
      requires Ok() && |params| >= 1
      modifies `lines
      ensures InBounds() && Contents() == Buffer.InsertChars(old(Contents()), Count(params), curAttr)
    {
      hide Inv, Above, Below, WithLine, ShiftDown, ShiftUp, InsertAt, RemoveAt;
      Facts();
      LineOf(Contents(), lines, ybase, y);
      var param := params[0];
      if param < 1 { param := 1; }
      var line := lines[ybase + y];
      var j := x;
      var ch := EraseCell();
      ghost var was, n := line, param;
      NoShift(was, x, |was|, ch);
      while param > 0 && j < cols
        invariant 0 <= param <= n && x <= j <= cols && j - x == n - param
        invariant |line| == |was| && line == ShiftDown(was, x, |was|, j - x, ch)
        modifies {}
      {
        OneMoreBlank(was, x, j, ch);
        param := param - 1;
        line := InsertAt(line, j, ch);
        j := j + 1;
        line := RemoveAt(line, |line| - 1);
      }
      WriteLine(y, line);
    }

    method DeleteChars(params: seq<nat>)
      requires Ok() && |params| >= 1
      modifies `lines
      ensures InBounds() && Contents() == Buffer.DeleteChars(old(Contents()), Count(params), curAttr)
    {
      hide Inv, Above, Below, WithLine, ShiftUp, ShiftDown, RemoveAt;
      Facts();
      LineOf(Contents(), lines, ybase, y);
      var param := params[0];
      if param < 1 { param := 1; }
      var line := lines[ybase + y];
      var ch := EraseCell();
      ghost var was, n := line, param;
      if x < |was| { NoShift(was, x, |was|, ch); }
      while param > 0
        invariant 0 <= param <= n
        invariant x < |was| ==> |line| == |was| && line == ShiftUp(was, x, |was|, n - param, ch)
        invariant x == |was| ==> line == if param == n then was else was + [ch]
        modifies {}
      {
        DeletedOne(was, x, n - param, ch);
        param := param - 1;
        if x < |line| { line := RemoveAt(line, x); }
        line := line + [ch];
      }
      WriteLine(y, line);
    }

    method EraseChars(params: seq<nat>)
      requires Ok() && |params| >= 1
      modifies `lines
      ensures InBounds() && Contents() == Buffer.EraseChars(old(Contents()), Count(params), curAttr)
    {
      hide Inv, Above, Below, WithLine, Fill;
      Facts();
      LineOf(Contents(), lines, ybase, y);
      var param := params[0];
      if param < 1 { param := 1; }
      var line := lines[ybase + y];
      var j := x;
      var ch := EraseCell();
      ghost var was, n := line, param;
      FillNothing(was, x, ch);
      while param > 0 && j < cols
        invariant 0 <= param <= n && x <= j <= cols && j - x == n - param
        invariant line == Fill(was, x, j, ch)
        modifies {}
      {
        FillLength(was, x, j, ch);
        StoreExtendsFill(was, x, j, ch);
        param := param - 1;
        line := Store(line, j, ch);
        j := j + 1;
      }
      FillLength(was, x, j, ch);
      WriteLine(y, line);
    }

    /** REP takes a default blank when there is no cell before the cursor. */
    method RepeatPrecedingCharacter(params: seq<nat>)
      requires Ok() && |params| >= 1
      modifies `lines, `x
      ensures InBounds() && Contents() == RepeatCell(old(Contents()), Count(params))
    {
      hide Inv, Above, Below, WithLine, Fill;
      Facts();
      LineOf(Contents(), lines, ybase, y);
      var param := if params[0] == 0 then 1 else params[0];
      var line := lines[ybase + y];
      var ch := if x > 0 then line[x - 1] else Blank(DEF_ATTR);
      ghost var was, n, from := line, param, x;
      FillNothing(was, from, ch);
      var j := x;
      while param > 0
        invariant 0 <= param <= n && j == from + (n - param)
        invariant line == Fill(was, from, j, ch)
        modifies {}
      {
        FillLength(was, from, j, ch);
        StoreExtendsFill(was, from, j, ch);
        param := param - 1;
        line := Store(line, j, ch);
        j := j + 1;
      }
      FillLength(was, from, j, ch);
      WriteLine(y, line);
      x := j;
    }

    // ---- Printing ---------------------------------------------------------------------------

    method CombineChar(ch: Text)
      requires Ok() && x > 0
      modifies `lines, `refreshStart, `refreshEnd
      ensures InBounds() && Contents() == Combine(old(Contents()), ch)
      ensures Span() == Widen(old(Span()), Rows(y, y))
    {
      hide Inv, Above, Below, WithLine;
      Facts();
      LineOf(Contents(), lines, ybase, y);
      var line := lines[ybase + y];
      if line[x - 1].width == 0 {
        if x - 2 >= 0 {
          line := line[x - 2 := line[x - 2].(ch := line[x - 2].ch + ch)];
          WriteLine(y, line);
        }
      } else {
        line := line[x - 1 := line[x - 1].(ch := line[x - 1].ch + ch)];
        WriteLine(y, line);
      }
      UpdateRange(y);
    }

    method PlaceChar(ch: Text, w: nat)
      requires Ok() && w <= 2 && x < cols && x + w <= cols
      modifies `lines, `x, `refreshStart, `refreshEnd
      ensures InBounds() && Contents() == Place(old(Contents()), insertMode, curAttr, ch, w)
      ensures Span() == Widen(old(Span()), Rows(y, y))
    {
      hide Inv, Above, Below, WithLine, Fill, Shove, InsertAt;
      Facts();
      LineOf(Contents(), lines, ybase, y);
      var line := lines[ybase + y];
      ghost var was := line;
      if insertMode {
        for moves := 0 to w
          invariant |line| == |was|
          invariant line == if moves == 0 then was else if moves == 1 then Shove(was, x, cols, curAttr)
                            else Shove(Shove(was, x, cols, curAttr), x, cols, curAttr)
          modifies {}
        {
          ShovedLine(line, x, cols, curAttr);
          var removed := line[|line| - 1];
          var kept := line[..|line| - 1];
          if removed.width == 0 && 0 <= cols - 2 && kept[cols - 2].width == 2 {
            kept := kept[cols - 2 := Blank(curAttr)];
          }
          line := InsertAt(kept, x, Blank(curAttr));
        }
      }
      line := Store(line, x, Cell(curAttr, ch, w));
      FillSecondHalf(line, x, curAttr);
      if w == 2 { line := Store(line, x + 1, Cell(curAttr, [], 0)); }
      WriteLine(y, line);
      x := x + 1;
      UpdateRange(y);
      if w == 2 { x := x + 1; }
    }

    /** The print branch: combine, wrap or stick, place. */
    method PrintCell(ch: Text, w: nat)
      requires Ok() && w <= 2 && !(w == 2 && cols == 1 && wraparoundMode)
      modifies `lines, `ybase, `ydisp, `x, `y, `refreshStart, `refreshEnd
      ensures InBounds() && Contents() == Put(old(Contents()), scrollback, wraparoundMode, insertMode, curAttr, ch, w)
      ensures Span() == Widen(old(Span()), PrintAnnounces(old(Contents()), wraparoundMode, w))
    {
      hide Inv, Above, Below, Combine, Place, Buffer.Index, Put, PrintAnnounces, Widen, AtMargin;
      ghost var b := Contents();
      Facts();
      PrintCases(b, scrollback, wraparoundMode, insertMode, curAttr, ch, w, Span());
      if w == 0 && x > 0 {
        CombineChar(ch);
        return;
      }
      if x + w - 1 >= cols {
        if wraparoundMode {
          x := 0;
          Index();
          Facts();
        } else {
          x := cols - 1;
          if w == 2 { return; }
        }
      }
      PlaceChar(ch, w);
    }

    // ---- Cursor movement ---------------------------------------------------------------------

    method CursorUp(params: seq<nat>)
      requires |params| >= 1 && Ok()
      modifies `y
      ensures Contents() == MoveCursor(old(Contents()), CUU, params)
    {
      var param := params[0];
      if param < 1 { param := 1; }
      y := y - param;
      if y < 0 { y := 0; }
    }

    method CursorDown(params: seq<nat>)
      requires |params| >= 1 && Ok()
      modifies `y
      ensures Contents() == MoveCursor(old(Contents()), CUD, params)
    {
      var param := params[0];
      if param < 1 { param := 1; }
      y := y + param;
      if y >= rows { y := rows - 1; }
    }

    method CursorForward(params: seq<nat>)
      requires |params| >= 1 && Ok()
      modifies `x
      ensures Contents() == MoveCursor(old(Contents()), CUF, params)
    {
      var param := params[0];
      if param < 1 { param := 1; }
      x := x + param;
      if x >= cols { x := cols - 1; }
    }

    method CursorBackward(params: seq<nat>)
      requires |params| >= 1 && Ok()
      modifies `x
      ensures Contents() == MoveCursor(old(Contents()), CUB, params)
    {
      var param := params[0];
      if param < 1 { param := 1; }
      x := x - param;
      if x < 0 { x := 0; }
    }

    method CursorNextLine(params: seq<nat>)
      requires |params| >= 1 && Ok()
      modifies `x, `y
      ensures Contents() == MoveCursor(old(Contents()), CNL, params)
    {
      var param := params[0];
      if param < 1 { param := 1; }
      y := y + param;
      if y >= rows { y := rows - 1; }
      x := 0;
    }

    method CursorPrecedingLine(params: seq<nat>)
      requires |params| >= 1 && Ok()
      modifies `x, `y
      ensures Contents() == MoveCursor(old(Contents()), CPL, params)
    {
      var param := params[0];
      if param < 1 { param := 1; }
      y := y - param;
      if y < 0 { y := 0; }
      x := 0;
    }

    /** The right edge is not looked at. */
    method CursorCharAbsolute(params: seq<nat>)
      requires |params| >= 1 && Ok()
      modifies `x
      ensures Contents() == MoveCursor(old(Contents()), CHA, params)
    {
      var param := params[0];
      if param < 1 { param := 1; }
      x := param - 1;
    }

    method CursorPos(params: seq<nat>)
      requires |params| >= 1 && Ok()
      modifies `x, `y
      ensures Contents() == MoveCursor(old(Contents()), CUP, params)
    {
      var row: int := params[0] as int - 1;
      var col: int := if |params| >= 2 then params[1] as int - 1 else 0;
      if row < 0 { row := 0; } else if row >= rows { row := rows - 1; }
      if col < 0 { col := 0; } else if col >= cols { col := cols - 1; }
      x := col;
      y := row;
    }

    method CharPosAbsolute(params: seq<nat>)
      requires |params| >= 1 && Ok()
      modifies `x
      ensures Contents() == MoveCursor(old(Contents()), HPA, params)
    {
      var param := params[0];
      if param < 1 { param := 1; }
      x := param - 1;
      if x >= cols { x := cols - 1; }
    }

    method HPositionRelative(params: seq<nat>)
      requires |params| >= 1 && Ok()
      modifies `x
      ensures Contents() == MoveCursor(old(Contents()), HPR, params)
    {
      var param := params[0];
      if param < 1 { param := 1; }
      x := x + param;
      if x >= cols { x := cols - 1; }
    }

    method LinePosAbsolute(params: seq<nat>)
      requires |params| >= 1 && Ok()
      modifies `y
      ensures Contents() == MoveCursor(old(Contents()), VPA, params)
    {
      var param := params[0];
      if param < 1 { param := 1; }
      y := param - 1;
      if y >= rows { y := rows - 1; }
    }

    method VPositionRelative(params: seq<nat>)
      requires |params| >= 1 && Ok()
      modifies `y
      ensures Contents() == MoveCursor(old(Contents()), VPR, params)
    {
      var param := params[0];
      if param < 1 { param := 1; }
      y := y + param;
      if y >= rows { y := rows - 1; }
    }

    /** Without a second parameter there is no column to go to. */
    method HVPosition(params: seq<nat>)
      requires |params| >= 1 && Ok()
      modifies `x, `y
      ensures Contents() == MoveCursor(old(Contents()), HVP, params)
    {
      var row := if params[0] < 1 then 1 else params[0];
      y := row - 1;
      if y >= rows { y := rows - 1; }
      if |params| < 2 {
        x := NOT_A_COLUMN;
      } else {
        var col := if params[1] < 1 then 1 else params[1];
        x := col - 1;
        if x >= cols { x := cols - 1; }
      }
    }

    // ---- Tab stops -----------------------------------------------------------------------------

    method NextStop(from: int) returns (r: int)
      requires 1 <= cols && 0 <= from
      ensures r == TabStops.NextStop(tabs, cols, from)
    {
      var k := from + 1;
      while k !in tabs && k < cols
        invariant 0 < k
        invariant TabStops.NextStop(tabs, cols, from) ==
          if k >= cols then cols - 1 else if k in tabs then k else TabStops.NextStop(tabs, cols, k)
        decreases cols - k
      {
        k := k + 1;
      }
      r := if k >= cols then cols - 1 else if k < 0 then 0 else k;
    }

    method PrevStop(from: int) returns (r: int)
      requires 1 <= cols && 0 <= from <= cols
      ensures r == TabStops.PrevStop(tabs, cols, from)
    {
      var k := from - 1;
      while k !in tabs && k > 0
        invariant -1 <= k < cols
        invariant TabStops.PrevStop(tabs, cols, from) ==
          if k <= 0 then 0 else if k in tabs then k else TabStops.PrevStop(tabs, cols, k)
      {
        k := k - 1;
      }
      r := if k >= cols then cols - 1 else if k < 0 then 0 else k;
    }

    /** `setupStops(i)`; without an argument all stops are set anew. */
    method SetupStops(from: Option<int>)
      requires 1 <= cols && (from.Some? ==> 0 <= from.value <= cols)
      modifies `tabs
      ensures tabs == match from
        case None => StopsFrom(0, cols)
        case Some(i) => TabStops.SetupStops(old(tabs), cols, i)
    {
      var i: int;
      if from.Some? {
        i := from.value;
        if i !in tabs { i := PrevStop(i); }
      } else {
        tabs := {};
        i := 0;
      }
      ghost var was, start := tabs, i;
      NoStops(start);
      while i < cols
        invariant start <= i && EveryEighth(start, i) && (i >= cols ==> i == start || i - 8 < cols)
        invariant tabs == was + StopsFrom(start, i)
        decreases cols - i
        modifies `tabs
      {
        OneMoreStop(start, i, cols);
        tabs := tabs + {i};
        i := i + 8;
      }
      StopsEnd(start, i, cols);
    }

    method CursorForwardTab(params: seq<nat>)
      requires |params| >= 1 && Ok()
      modifies `x
      ensures Contents() == MoveCursor(old(Contents()), CHT, params)
    {
      hide TabStops.NextStop;
      Facts();
      var param := if params[0] == 0 then 1 else params[0];
      while param > 0
        invariant 0 <= param && 0 <= x <= cols
        invariant ForwardTabs(tabs, cols, x, param) == ForwardTabs(tabs, cols, old(x), Count(params))
        modifies `x
      {
        param := param - 1;
        x := NextStop(x);
      }
    }

    method CursorBackwardTab(params: seq<nat>)
      requires |params| >= 1 && Ok()
      modifies `x
      ensures Contents() == MoveCursor(old(Contents()), CBT, params)
    {
      hide TabStops.PrevStop;
      Facts();
      var param := if params[0] == 0 then 1 else params[0];
      while param > 0
        invariant 0 <= param && 0 <= x <= cols
        invariant BackwardTabs(tabs, cols, x, param) == BackwardTabs(tabs, cols, old(x), Count(params))
        modifies `x
      {
        param := param - 1;
        x := PrevStop(x);
      }
    }

    method TabSet()
      modifies `tabs
      ensures Contents() == old(Contents()).(tabs := old(tabs) + {x})
    {
      tabs := tabs + {x};
    }

    method MoveTo(toX: int, toY: int)
      modifies `x, `y
      ensures Contents() == Emulator.MoveTo(old(Contents()), toX, toY)
    {
      x := toX;
      y := toY;
    }

    method TabClear(params: seq<nat>)
      requires |params| >= 1 && Ok()
      modifies `tabs
      ensures Contents() == Emulator.TabClear(old(Contents()), params)
    {
      var param := params[0];
      if param <= 0 { tabs := tabs - {x}; }
      else if param == 3 { tabs := {}; }
    }

    // ---- Resizing --------------------------------------------------------------------------------

    /** The two column loops: short lines are padded when the screen grows, long ones
        cut otherwise. */
    method FitColumns(toCols: int)
      requires Ok() && 1 <= toCols
      modifies `lines, `tabs, `cols
      ensures InBounds() && Contents() == FitCols(old(Contents()), toCols)
    {
      hide Inv, Above, Below, FitLine, FitLines, TabStops.SetupStops;
      ghost var b, was := Contents(), lines;
      Facts();
      var i := |lines|;
      while i > 0
        invariant 0 <= i <= |was| == |lines|
        invariant forall k {:trigger lines[k]} :: 0 <= k < |was| ==>
          lines[k] == if k < i then was[k] else FitLine(was[k], cols, toCols)
        modifies `lines
      {
        i := i - 1;
        var line := FitOneLine(lines[i], toCols);
        lines := lines[i := line];
      }
      FittedParts(b, was, ybase, lines, toCols);
      SetupStops(Some(cols));
      cols := toCols;
    }

    method FitOneLine(line0: Line, toCols: int) returns (line: Line)
      requires 1 <= toCols
      ensures line == FitLine(line0, cols, toCols)
    {
      line := line0;
      if cols < toCols {
        var ch := Blank(DEF_ATTR);
        while |line| < toCols
          invariant |line0| <= |line| && (|line| <= toCols || line == line0)
          invariant line == line0 + Copies(|line| - |line0|, ch)
        {
          line := line + [ch];
        }
      } else {
        while |line| > toCols
          invariant |line| <= |line0| && line == line0[..|line|]
          invariant |line| >= Min(|line0|, toCols)
        {
          line := line[..|line| - 1];
        }
      }
    }

    /** The row loop of a growing screen. */
    method AddRows(toRows: int) returns (addToY: int)
      requires InBounds() && Inv(Contents().(x := 0)) && rows <= toRows && |children| == rows
      modifies `lines, `ybase, `ydisp, `children
      ensures InBounds() && Contents().(rows := toRows, y := y + addToY) == GrowRows(old(Contents()), toRows - rows)
      ensures addToY == Pulled(old(Contents()), toRows - rows)
      ensures children == FitElements(old(children), toRows)
    {
      hide Inv, Above, Below, GrowRows, Copies, SplitAt;
      FactsBelow();
      ghost var b, was, blank := Contents(), lines, BlankLine(cols, DEF_ATTR);
      addToY := 0;
      var j := rows;
      while j < toRows
        invariant rows <= j <= toRows && addToY == Pulled(b, j - rows) && ybase == |b.history| - addToY
        invariant lines == was + Copies(j - rows - addToY, blank) && ydisp == Max(b.ydisp - addToY, 0)
        invariant children == old(children) + Copies(j - rows, [])
        modifies `lines, `ybase, `ydisp, `children
      {
        OneMoreCopy(j - rows - addToY, blank);
        OneMoreCopy<Markup>(j - rows, []);
        j := j + 1;
        if |lines| < toRows + ybase { addToY := AddRow(addToY); }
        if |children| < toRows { children := children + [[]]; }
      }
      GrownParts(b, was, lines, addToY, toRows - rows);
    }

    /** A line comes back from above if there is one and nothing lies below the cursor;
        otherwise a blank one is added below. */
    method AddRow(addToY: int) returns (more: int)
      requires 1 <= cols
      modifies `lines, `ybase, `ydisp
      ensures if old(ybase) > 0 && old(|lines|) <= old(ybase) + y + addToY + 1
              then more == addToY + 1 && lines == old(lines) && ybase == old(ybase) - 1
                   && ydisp == if old(ydisp) > 0 then old(ydisp) - 1 else old(ydisp)
              else more == addToY && ybase == old(ybase) && ydisp == old(ydisp)
                   && lines == old(lines) + [BlankLine(cols, DEF_ATTR)]
    {
      more := addToY;
      if ybase > 0 && |lines| <= ybase + y + addToY + 1 {
        ybase := ybase - 1;
        more := more + 1;
        if ydisp > 0 { ydisp := ydisp - 1; }
      } else {
        var line := NewBlankLine(false);
        lines := lines + [line];
      }
    }

    /** The row loop of a shrinking screen: rows below the cursor go first. */
    method RemoveRows(toRows: int)
      requires InBounds() && Inv(Contents().(x := 0)) && 1 <= toRows <= rows == |children|
      modifies `lines, `ybase, `ydisp, `children
      ensures InBounds() && Contents().(rows := toRows, y := Min(y, toRows - 1)) == ShrinkRows(old(Contents()), rows - toRows)
      ensures children == FitElements(old(children), toRows)
    {
      hide Inv, Above, Below, ShrinkRows, SplitAt;
      FactsBelow();
      ghost var b, was := Contents(), lines;
      var j := rows;
      while j > toRows
        invariant toRows <= j <= rows
        invariant ybase == |b.history| + (rows - j - Cut(b, rows - j)) && ydisp == b.ydisp + (rows - j - Cut(b, rows - j))
        invariant lines == was[..|was| - Cut(b, rows - j)]
        invariant children == old(children)[rows - j..]
        modifies `lines, `ybase, `ydisp, `children
      {
        j := j - 1;
        if |lines| > toRows + ybase {
          if |lines| > ybase + y + 1 {
            lines := lines[..|lines| - 1];
          } else {
            ybase := ybase + 1;
            ydisp := ydisp + 1;
          }
        }
        if |children| > toRows { children := children[1..]; }
      }
      ShrunkParts(b, was, lines, rows - toRows);
    }

    method Resize(toCols0: int, toRows0: int)
      requires Ok() && (toCols0 != cols || toRows0 != rows) && |children| == rows
      modifies this
      ensures Style() == old(Style()) && Span() == old(Span())
      ensures InBounds() && Contents() == Resizing.Resize(old(Contents()), toCols0, toRows0)
      ensures children == FitElements(old(children), Max(toRows0, 1)) && |children| == rows
    {
      hide Inv, Above, Below, GrowRows, ShrinkRows, FitCols, FitElements;
      ghost var b := Contents();
      ResizeSteps(b, toCols0, toRows0);
      var toCols, toRows := toCols0, toRows0;
      if toCols < 1 { toCols := 1; }
      if toRows < 1 { toRows := 1; }
      FitColumns(toCols);
      var addToY := 0;
      if rows < toRows { addToY := AddRows(toRows); } else { RemoveRows(toRows); }
      FinishResize(toCols, toRows, addToY);
    }

    /** The end of `resize`: the cursor stays on the screen; the margins and the saved
        screen are dropped. */
    method FinishResize(toCols: int, toRows: int, addToY: int)
      modifies `rows, `x, `y, `scrollTop, `scrollBottom
      ensures Contents() == old(Contents()).(rows := toRows, y := Min(old(y), toRows - 1) + addToY,
        x := Min(old(x), toCols - 1), top := 0, bottom := toRows - 1)
    {
      rows := toRows;
      if y >= toRows { y := toRows - 1; }
      if addToY != 0 { y := y + addToY; }
      if x >= toCols { x := toCols - 1; }
      scrollTop := 0;
      scrollBottom := toRows - 1;
    }

    // ---- Margins, saved cursor, saved screen ---------------------------------------------------

    method SetScrollRegion(params: seq<nat>)
      requires |params| >= 1 && Ok()
      modifies `scrollTop, `scrollBottom, `x, `y
      ensures Contents() == Emulator.SetScrollRegion(old(Contents()), params)
    {
      scrollTop := (if params[0] != 0 then params[0] else 1) - 1;
      scrollBottom := (if |params| >= 2 && params[1] != 0 then params[1] else rows) - 1;
      x := 0;
      y := 0;
    }

    /** The screen part of DECSTR. */
    method SoftReset()
      modifies this
      ensures Span() == old(Span()) && children == old(children) && rows == old(rows) && cols == old(cols)
      ensures InBounds() == old(InBounds())
      ensures Contents() == old(Contents()).(top := 0, bottom := rows - 1, x := 0, y := 0)
      ensures !insertMode && !wraparoundMode && curAttr == DEF_ATTR
    {
      insertMode, wraparoundMode := false, false;
      scrollTop, scrollBottom := 0, rows - 1;
      curAttr := DEF_ATTR;
      x, y := 0, 0;
    }

    method Save() returns (n: NormalScreen)
      ensures n == NormalScreen(lines, ybase, ydisp, x, y, scrollTop, scrollBottom, tabs)
    {
      n := NormalScreen(lines, ybase, ydisp, x, y, scrollTop, scrollBottom, tabs);
    }

    method Restore(n: NormalScreen)
      modifies this
      ensures Style() == old(Style()) && Span() == old(Span()) && children == old(children)
      ensures rows == old(rows) && cols == old(cols)
      ensures lines == n.lines && ybase == n.ybase && y == n.y
      ensures Contents() == Buf(rows, cols, Above(n.lines, n.ybase), Below(n.lines, n.ybase), n.ydisp, n.x, n.y,
        n.scrollTop, n.scrollBottom, n.tabs)
    {
      lines, ybase, ydisp := n.lines, n.ybase, n.ydisp;
      x, y := n.x, n.y;
      scrollTop, scrollBottom, tabs := n.scrollTop, n.scrollBottom, n.tabs;
    }

    // ---- What is refreshed ------------------------------------------------------------------------

    /** A write starts with the cursor's row, or with everything when the viewport has
        to return to the bottom. */
    method BeginRange()
      modifies `refreshStart, `refreshEnd, `ydisp
      ensures Contents() == old(Contents()).(ydisp := ybase) && InBounds() == old(InBounds())
      ensures Span() == if ybase != old(ydisp) then Range(0, rows - 1) else Range(y, y)
    {
      refreshStart := y;
      refreshEnd := y;
      if ybase != ydisp {
        ydisp := ybase;
        MaxRange();
      }
    }

    method MaxRange()
      modifies `refreshStart, `refreshEnd
      ensures Span() == Range(0, rows - 1)
    {
      refreshStart := 0;
      refreshEnd := rows - 1;
    }

    // ---- Control sequences that concern the screen alone -------------------------------------------

    method Move(final: CodeUnit, params: seq<nat>)
      requires Ok() && |params| >= 1 && IsMove(final)
      modifies `x, `y
      ensures InBounds() && Contents() == MoveCursor(old(Contents()), final, params)
    {
      hide Contents, MoveCursor, Inv;
      match final
      case CUU => CursorUp(params);
      case CUD => CursorDown(params);
      case CUF => CursorForward(params);
      case CUB => CursorBackward(params);
      case CNL => CursorNextLine(params);
      case CPL => CursorPrecedingLine(params);
      case CHA => CursorCharAbsolute(params);
      case CUP => CursorPos(params);
      case CHT => CursorForwardTab(params);
      case CBT => CursorBackwardTab(params);
      case HPA => CharPosAbsolute(params);
      case HPR => HPositionRelative(params);
      case VPA => LinePosAbsolute(params);
      case VPR => VPositionRelative(params);
      case HVP => HVPosition(params);
    }

    method Edit(final: CodeUnit, params: seq<nat>)
      requires Ok() && |params| >= 1 && IsEdit(final)
      modifies `lines, `x, `refreshStart, `refreshEnd
      ensures InBounds() && Contents() == EditBuffer(old(Contents()), curAttr, final, params)
      ensures Span() == Widen(old(Span()), CsiAnnounces(old(Contents()), final, params, []))
    {
      hide Ok, Buffer.InsertChars, Buffer.EraseInDisplay, Buffer.EraseInLine, Buffer.InsertLines, Buffer.DeleteLines,
        Buffer.DeleteChars, Buffer.ScrollUp, Buffer.EraseChars, RepeatCell, Inv, Above, Below;
      match final
      case ICH => InsertChars(params);
      case ED => EraseInDisplay(params);
      case EL => EraseInLine(params);
      case IL => InsertLines(params);
      case DL => DeleteLines(params);
      case DCH => DeleteChars(params);
      case SU => ScrollUp(params);
      case ECH => EraseChars(params);
      case REP => RepeatPrecedingCharacter(params);
    }

    // ---- Row elements and viewport -------------------------------------------------------------------

    method InsertRows()
      requires children == [] && rows >= 0
      modifies `children
      ensures children == Copies(rows, []) && Contents() == old(Contents()) && InBounds() == old(InBounds())
    {
      for i := 0 to rows
        invariant children == Copies(i, [])
        modifies `children
      {
        children := children + [[]];
      }
    }

    method SetRow(row: int, out: Markup)
      requires 0 <= row < |children|
      modifies `children
      ensures children == old(children)[row := out] && Contents() == old(Contents()) && InBounds() == old(InBounds())
    {
      children := children[row := out];
    }

    method ScrollDisp(disp: int)
      requires 0 <= ybase
      modifies `ydisp
      ensures Contents() == old(Contents()).(ydisp := Max(0, Min(old(ydisp) + disp, ybase))) && InBounds() == old(InBounds())
    {
      ydisp := ydisp + disp;
      if ydisp > ybase { ydisp := ybase; } else if ydisp < 0 { ydisp := 0; }
    }
  }
}
