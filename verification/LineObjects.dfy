/** The line store as it lies on the heap: an array object holding line objects that are
    edited in place. While the alternate screen is up there are two arrays, and nothing
    done to one of them can be seen in the other. */
module LineObjects {
  import opened Sequences
  import opened Buffer
  import opened Resizing
  import opened Splices
  import opened Loops

  class LineObject {
    var cells: Line

    constructor (cells: Line)
      ensures this.cells == cells
    {
      this.cells := cells;
    }
  }

  class LineArray {
    var items: seq<LineObject>

    constructor (items: seq<LineObject>)
      ensures this.items == items
    {
      this.items := items;
    }
  }

  ghost predicate Distinct(items: seq<LineObject>) {
    forall i, j {:trigger items[i], items[j]} :: 0 <= i < j < |items| ==> items[i] != items[j]
  }

  ghost predicate Apart(items: seq<LineObject>, others: seq<LineObject>) {
    forall i, j {:trigger items[i], others[j]} :: 0 <= i < |items| && 0 <= j < |others| ==> items[i] != others[j]
  }

  ghost function CellsOf(items: seq<LineObject>): (r: seq<Line>)
    reads items
    ensures |r| == |items|
    ensures forall i {:trigger r[i]} :: 0 <= i < |items| ==> r[i] == items[i].cells
  {
    seq(|items|, i requires 0 <= i < |items| reads items => items[i].cells)
  }

  /** What the emulator does to its lines between two switches of the screen. */
  datatype Edit =
    | SetCell(row: nat, x: nat, c: Cell)
    | InsertLine(row: nat, line: Line)
    | RemoveLine(row: nat)
    | Trim(keep: nat)

  /** The same on values; positions outside the array change nothing. */
  function Edited(lines: seq<Line>, e: Edit): seq<Line> {
    match e
    case SetCell(row, x, c) => if row < |lines| && x <= |lines[row]| then lines[row := Store(lines[row], x, c)] else lines
    case InsertLine(row, line) => if row <= |lines| then InsertAt(lines, row, line) else lines
    case RemoveLine(row) => if row < |lines| then RemoveAt(lines, row) else lines
    case Trim(keep) => SliceLast(lines, keep)
  }

  function EditedAll(lines: seq<Line>, edits: seq<Edit>): seq<Line>
    decreases |edits|
  {
    if edits == [] then lines else EditedAll(Edited(lines, edits[0]), edits[1..])
  }

  lemma {:induction false} EditsAdd(lines: seq<Line>, a: seq<Edit>, b: seq<Edit>)
    ensures EditedAll(lines, a + b) == EditedAll(EditedAll(lines, a), b)
    decreases |a|
  {
    hide Edited;
    if a == [] {
      assert a + b == b;
    } else {
      assert (a + b)[1..] == a[1..] + b;
      EditsAdd(Edited(lines, a[0]), a[1..], b);
    }
  }

  // ---- Operations of the screen as edits -----------------------------------------------------

  /** `scroll`: the trim if the limit is reached, the new line, and with a top margin the
      line that leaves the region. */
  function ScrollEdits(b: Buf, scrollback: nat): seq<Edit>
    requires Inv(b) && scrollback != 1
  {
    var full := |b.history| + 1 == scrollback;
    var base := if full then scrollback / 2 - 1 else |b.history|;
    (if full then [Trim(base + b.rows)] else [])
      + [InsertLine(base + 1 + b.bottom, BlankLine(b.cols, DEF_ATTR))]
      + if b.top == 0 then [] else [RemoveLine(base + b.top)]
  }

  /** They are what `scroll` does to history ++ screen. */
  lemma ScrollIsEdits(b: Buf, scrollback: nat)
    requires Inv(b) && scrollback != 1
    ensures EditedAll(Lines(b), ScrollEdits(b, scrollback)) == Lines(Scroll(b, scrollback))
  {
    hide Inv, EditedAll, Edited, Scroll, InsertAt, RemoveAt, SliceLast, Copies, KeptHistory, Above, Below;
    Bounds(b);
    KeptLength(b.history, scrollback);
    var p, blank := KeptHistory(b.history, scrollback), BlankLine(b.cols, DEF_ATTR);
    var full := |b.history| + 1 == scrollback;
    var trim: seq<Edit> := if full then [Trim(|p| + b.rows)] else [];
    var put := [InsertLine(|p| + 1 + b.bottom, blank)];
    var drop: seq<Edit> := if b.top == 0 then [] else [RemoveLine(|p| + b.top)];
    if full { TrimSplit(b.history, b.screen, scrollback / 2); }
    SingleEdits(Lines(b));
    OneTrim(Lines(b), |p| + b.rows);
    var t := InsertAt(p + b.screen, |p| + 1 + b.bottom, blank);
    OneInsert(p + b.screen, |p| + 1 + b.bottom, blank);
    OneRemove(t, |p| + b.top);
    SingleEdits(t);
    EditsAdd(Lines(b), trim + put, drop);
    EditsAdd(Lines(b), trim, put);
    var lines := EditedAll(t, drop);
    var ybase := if b.top == 0 then |p| + 1 else |p|;
    ScrollFinished(b, scrollback, t, blank, lines, ybase);
    Rejoined(lines, ybase);
  }

  lemma KeptLength(h: seq<Line>, scrollback: nat)
    requires scrollback != 1
    ensures |KeptHistory(h, scrollback)| == if |h| + 1 == scrollback then scrollback / 2 - 1 else |h|
    ensures |h| + 1 == scrollback ==> KeptHistory(h, scrollback) == LastN(h, scrollback / 2 - 1)
    ensures |h| + 1 != scrollback ==> KeptHistory(h, scrollback) == h
  {
  }

  lemma Rejoined(lines: seq<Line>, ybase: int)
    requires 0 <= ybase <= |lines|
    ensures Above(lines, ybase) + Below(lines, ybase) == lines
  {
  }

  lemma SingleEdits(lines: seq<Line>)
    ensures EditedAll(lines, []) == lines
  {
  }

  lemma OneEdit(lines: seq<Line>, e: Edit)
    ensures EditedAll(lines, [e]) == Edited(lines, e)
  {
    assert [e][1..] == [];
  }

  lemma OneTrim(lines: seq<Line>, keep: nat)
    ensures EditedAll(lines, [Trim(keep)]) == SliceLast(lines, keep)
  {
    OneEdit(lines, Trim(keep));
  }

  lemma OneInsert(lines: seq<Line>, row: nat, line: Line)
    ensures row <= |lines| ==> EditedAll(lines, [InsertLine(row, line)]) == InsertAt(lines, row, line)
  {
    OneEdit(lines, InsertLine(row, line));
  }

  lemma OneRemove(lines: seq<Line>, row: nat)
    ensures row < |lines| ==> EditedAll(lines, [RemoveLine(row)]) == RemoveAt(lines, row)
  {
    OneEdit(lines, RemoveLine(row));
  }

  /** The pair of splices that IL, DL and RI repeat. */
  function SwapEdits(at: nat, gone: nat, line: Line, n: nat): seq<Edit> {
    if n == 0 then [] else SwapEdits(at, gone, line, n - 1) + [InsertLine(at, line), RemoveLine(gone)]
  }

  lemma {:induction false} SwapsAreEdits(lines: seq<Line>, at: nat, gone: nat, line: Line, n: nat)
    requires at <= |lines| && gone <= |lines|
    ensures at <= gone ==> EditedAll(lines, SwapEdits(at, gone, line, n)) == ShiftDown(lines, at, gone, n, line)
    ensures gone <= at ==> EditedAll(lines, SwapEdits(at, gone, line, n)) == ShiftUp(lines, gone, at, n, line)
  {
    hide InsertAt, RemoveAt, ShiftUp, ShiftDown;
    if n == 0 {
      if at <= gone { NoShift(lines, at, gone, line); }
      if gone <= at { NoShift(lines, gone, at, line); }
    } else {
      SwapsAreEdits(lines, at, gone, line, n - 1);
      var before := EditedAll(lines, SwapEdits(at, gone, line, n - 1));
      EditsAdd(lines, SwapEdits(at, gone, line, n - 1), [InsertLine(at, line), RemoveLine(gone)]);
      OneSwap(before, at, gone, line);
      if at <= gone { ShiftsAdd(lines, at, gone, n - 1, 1, line); }
      if gone <= at { ShiftsAdd(lines, gone, at, n - 1, 1, line); }
    }
  }

  lemma OneSwap(lines: seq<Line>, at: nat, gone: nat, line: Line)
    requires at <= |lines| && gone <= |lines|
    ensures var r := EditedAll(lines, [InsertLine(at, line), RemoveLine(gone)]);
      && (at <= gone ==> r == ShiftDown(lines, at, gone, 1, line))
      && (gone <= at ==> r == ShiftUp(lines, gone, at, 1, line))
  {
    hide InsertAt, RemoveAt, ShiftUp, ShiftDown;
    var two := [InsertLine(at, line), RemoveLine(gone)];
    assert two[1..] == [RemoveLine(gone)];
    OneEdit(InsertAt(lines, at, line), RemoveLine(gone));
    if at <= gone { InsertThenRemove(lines, at, gone, line); }
    if gone <= at { InsertThenRemove(lines, gone, at, line); }
  }

  /** IL n and DL n on history ++ screen. */
  lemma LineBlocksAreEdits(b: Buf, n: nat, attr: nat)
    requires Inv(b)
    ensures var blank, h := BlankLine(b.cols, EraseAttr(attr)), |b.history|;
      && EditedAll(Lines(b), SwapEdits(h + b.y, h + b.bottom + 1, blank, n)) == Lines(InsertLines(b, n, attr))
      && EditedAll(Lines(b), SwapEdits(h + b.bottom + 1, h + b.y, blank, n)) == Lines(DeleteLines(b, n, attr))
  {
    hide Inv, EditedAll, Edited, SwapEdits, InsertLines, DeleteLines, ShiftUp, ShiftDown, Copies, Above, Below;
    Bounds(b);
    var blank, h := BlankLine(b.cols, EraseAttr(attr)), |b.history|;
    SplitLines(b);
    SwapsAreEdits(Lines(b), h + b.y, h + b.bottom + 1, blank, n);
    SwapsAreEdits(Lines(b), h + b.bottom + 1, h + b.y, blank, n);
    var down := EditedAll(Lines(b), SwapEdits(h + b.y, h + b.bottom + 1, blank, n));
    var up := EditedAll(Lines(b), SwapEdits(h + b.bottom + 1, h + b.y, blank, n));
    InsertedLines(b, Lines(b), h, down, n, attr);
    DeletedLines(b, Lines(b), h, up, n, attr);
    Rejoined(down, h);
    Rejoined(up, h);
  }

  lemma SplitLines(b: Buf)
    requires Inv(b)
    ensures SplitAt(b, Lines(b), |b.history|) && |Lines(b)| == |b.history| + b.rows
  {
  }

  /** Cells written one after another. */
  function FillEdits(row: nat, from: nat, end: nat, c: Cell): seq<Edit>
    decreases end
  {
    if end <= from then [] else FillEdits(row, from, end - 1, c) + [SetCell(row, end - 1, c)]
  }

  lemma {:induction false} FillsAreEdits(lines: seq<Line>, row: nat, from: nat, end: nat, c: Cell)
    requires row < |lines| && from <= |lines[row]|
    ensures EditedAll(lines, FillEdits(row, from, end, c)) == lines[row := Fill(lines[row], from, end, c)]
    decreases end
  {
    hide Fill, Store;
    var line := lines[row];
    if end <= from {
      FillBackwards(line, from, end, c);
    } else {
      FillsAreEdits(lines, row, from, end - 1, c);
      EditsAdd(lines, FillEdits(row, from, end - 1, c), [SetCell(row, end - 1, c)]);
      OneEdit(lines[row := Fill(line, from, end - 1, c)], SetCell(row, end - 1, c));
      FillLength(line, from, end - 1, c);
      FillLength(line, from, end, c);
      StoreExtendsFill(line, from, end - 1, c);
    }
  }

  lemma FillBackwards(line: Line, from: nat, end: nat, c: Cell)
    requires from <= |line| && end <= from
    ensures Fill(line, from, end, c) == line
  {
  }

  /** The loop of `eraseRight` on history ++ screen. */
  lemma EraseIsEdits(b: Buf, x: nat, y: nat, attr: nat)
    requires Inv(b) && x <= b.cols && y < b.rows
    ensures EditedAll(Lines(b), FillEdits(|b.history| + y, x, b.cols, Blank(EraseAttr(attr)))) == Lines(EraseRight(b, x, y, attr))
  {
    hide Fill;
    FillsAreEdits(Lines(b), |b.history| + y, x, b.cols, Blank(EraseAttr(attr)));
  }

  class LineStore {
    var lines: LineArray
    var normal: LineArray?

    /** No line object is in an array twice or in both, and the arrays are two. */
    ghost predicate Valid()
      reads this, lines, normal
    {
      && Distinct(lines.items)
      && (normal != null ==> normal != lines && Distinct(normal.items) && Apart(lines.items, normal.items))
    }

    ghost function Lines(): seq<Line>
      reads this, lines, lines.items
    {
      CellsOf(lines.items)
    }

    ghost function Saved(): Option<seq<Line>>
      reads this, normal, if normal != null then normal.items else []
    {
      if normal == null then None else Some(CellsOf(normal.items))
    }

    constructor ()
      ensures Valid() && Lines() == [] && normal == null && fresh(lines)
    {
      lines := new LineArray([]);
      normal := null;
    }

    /** A cell written in place. */
    method SetCell(row: nat, x: nat, c: Cell)
      requires Valid() && row < |lines.items| && x <= |lines.items[row].cells|
      modifies lines.items[row]
      ensures Valid() && Saved() == old(Saved())
      ensures Lines() == old(Lines())[row := Store(old(Lines())[row], x, c)]
    {
      hide Store;
      var line := lines.items[row];
      line.cells := Store(line.cells, x, c);
    }

    /** `splice(row, 0, line)` with a new line. */
    method InsertLine(row: nat, cells: Line)
      requires Valid() && row <= |lines.items|
      modifies lines
      ensures Valid() && Saved() == old(Saved()) && lines == old(lines)
      ensures Lines() == InsertAt(old(Lines()), row, cells)
      ensures exists line: LineObject :: fresh(line) && lines.items == InsertAt(old(lines.items), row, line)
    {
      var line := new LineObject(cells);
      lines.items := InsertAt(lines.items, row, line);
    }

    /** `splice(row, 1)`. */
    method RemoveLine(row: nat)
      requires Valid() && row < |lines.items|
      modifies lines
      ensures Valid() && Saved() == old(Saved())
      ensures Lines() == RemoveAt(old(Lines()), row)
      ensures lines.items == RemoveAt(old(lines.items), row)
    {
      lines.items := RemoveAt(lines.items, row);
    }

    /** `this.lines = this.lines.slice(-keep)`: a new array of old lines. */
    method Trim(keep: nat)
      requires Valid()
      modifies `lines
      ensures Valid() && Saved() == old(Saved())
      ensures Lines() == SliceLast(old(Lines()), keep)
      ensures fresh(lines) && lines.items == SliceLast(old(lines.items), keep)
    {
      lines := new LineArray(SliceLast(lines.items, keep));
    }

    method Apply(e: Edit)
      requires Valid()
      modifies `lines, lines, lines.items
      ensures Valid() && Saved() == old(Saved())
      ensures Lines() == Edited(old(Lines()), e)
      ensures lines == old(lines) || fresh(lines)
      ensures forall i {:trigger lines.items[i]} :: 0 <= i < |lines.items| ==>
        lines.items[i] in old(lines.items) || fresh(lines.items[i])
    {
      match e
      case SetCell(row, x, c) =>
        if row < |lines.items| && x <= |lines.items[row].cells| { SetCell(row, x, c); }
      case InsertLine(row, line) =>
        if row <= |lines.items| { InsertLine(row, line); }
      case RemoveLine(row) =>
        if row < |lines.items| { RemoveLine(row); }
      case Trim(keep) => Trim(keep);
    }

    /** Any list of edits. With the lists above: `scroll`, IL, DL, RI and erasing show in
        the current store as they do on values, and the saved one cannot tell. */
    method ApplyAll(edits: seq<Edit>)
      requires Valid()
      modifies `lines, lines, lines.items
      ensures Valid() && Saved() == old(Saved()) && Lines() == EditedAll(old(Lines()), edits)
      ensures lines == old(lines) || fresh(lines)
      ensures forall i {:trigger lines.items[i]} :: 0 <= i < |lines.items| ==>
        lines.items[i] in old(lines.items) || fresh(lines.items[i])
    {
      hide Edited;
      for k := 0 to |edits|
        invariant Valid() && Saved() == old(Saved())
        invariant EditedAll(Lines(), edits[k..]) == EditedAll(old(Lines()), edits)
        invariant lines == old(lines) || fresh(lines)
        invariant forall i {:trigger lines.items[i]} :: 0 <= i < |lines.items| ==>
          lines.items[i] in old(lines.items) || fresh(lines.items[i])
      {
        assert edits[k..][0] == edits[k] && edits[k..][1..] == edits[k + 1..];
        Apply(edits[k]);
      }
    }

    /** The alternate screen gets an array of its own; `normal` keeps the old one. */
    method Enter(rows: nat, blank: Line)
      requires Valid() && normal == null
      modifies this
      ensures Valid() && normal == old(lines) && Lines() == Copies(rows, blank)
      ensures fresh(lines) && forall i {:trigger lines.items[i]} :: 0 <= i < |lines.items| ==> fresh(lines.items[i])
    {
      normal := lines;
      var items: seq<LineObject> := [];
      for i := 0 to rows
        invariant |items| == i && Distinct(items)
        invariant forall k {:trigger items[k]} :: 0 <= k < i ==> fresh(items[k]) && items[k].cells == blank
        invariant CellsOf(items) == Copies(i, blank)
        modifies {}
      {
        var line := new LineObject(blank);
        items := items + [line];
      }
      lines := new LineArray(items);
    }

    method Leave()
      requires Valid() && normal != null
      modifies this
      ensures Valid() && lines == old(normal) && normal == null && Some(Lines()) == old(Saved())
    {
      lines := normal;
      normal := null;
    }

    /** A visit to the alternate screen, whatever is done there, leaves the very same
        array with the very same lines behind: none of the objects there were before is
        written to at all. */
    method Visit(rows: nat, blank: Line, edits: seq<Edit>)
      requires Valid() && normal == null
      modifies this
      ensures Valid() && normal == null && lines == old(lines) && lines.items == old(lines.items) && Lines() == old(Lines())
    {
      Enter(rows, blank);
      ApplyAll(edits);
      Leave();
    }
  }
}
