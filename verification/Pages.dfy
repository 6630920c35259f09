/** Whole pages: characters of either width and line breaks, as a text, laid out on the
    screen and in the scrollback. */
module Pages {
  import opened Sequences
  import opened Widths
  import opened Buffer
  import opened Resizing
  import opened Emulator
  import opened Parser
  import opened Effects
  import opened Replays
  import opened Texts
  import opened Controls
  import opened Printing
  import opened Autowrap

  /** A character of one or two columns, or CR LF. */
  datatype Item = Char(ch: Text, w: nat) | Break

  // ---- Where things should be -------------------------------------------------------------------------

  /** Lines down, and column. */
  type Position = (nat, nat)

  /** Where the cursor is after the items, from column x: each character goes behind the
      one before it, or to the next line if it does not fit there. */
  function Reach(x: nat, cols: nat, items: seq<Item>): Position {
    if items == [] then (0, x)
    else
      var (row, col) := Reach(x, cols, items[..|items| - 1]);
      match items[|items| - 1]
      case Break => (row + 1, 0)
      case Char(_, w) => if col + w > cols then (row + 1, w) else (row, col + w)
  }

  /** Lines scrolled off while the cursor goes d lines down. */
  function Lifted(b: Buf, d: nat): int { Max(0, b.y + d - (b.rows - 1)) }

  /** Left of the cursor or above it. */
  predicate Passed(b: Buf, row: int, col: int) { row < b.y || (row == b.y && col < b.x) }

  /** From b to r the cursor has gone d lines down, everything behind it has moved up with
      the lines scrolled off, and nothing of it has changed. */
  ghost predicate Descends(b: Buf, r: Buf, d: nat) {
    && r.rows == b.rows && r.cols == b.cols && FullMargins(r)
    && r.y == b.y + d - Lifted(b, d) && (d == 0 ==> r.x >= b.x)
    && forall row, col, c {:trigger Shows(b, row, col, c)} ::
         Shows(b, row, col, c) && Passed(b, row, col) ==> Shows(r, row - Lifted(b, d), col, c)
  }

  lemma DescentsAdd(b: Buf, m: Buf, r: Buf, d: nat, k: nat)
    requires Descends(b, m, d) && Descends(m, r, k) && 0 <= b.y < b.rows
    ensures Descends(b, r, d + k) && Lifted(b, d + k) == Lifted(b, d) + Lifted(m, k)
  {
    hide Shows;
  }

  // ---- One item --------------------------------------------------------------------------------------

  lemma BreakDescends(b: Buf, scrollback: nat)
    requires Inv(b) && FullMargins(b) && scrollback != 1
    ensures var r := Index(b.(x := 0), scrollback); Inv(r) && Descends(b, r, 1) && r.x == 0
  {
    hide Inv, Index, Shows, Scroll, Lines;
    SameLines(b);
    BreakFields(b, scrollback);
    forall row, col, c | Shows(b, row, col, c) && Passed(b, row, col)
      ensures Shows(Index(b.(x := 0), scrollback), row - Lifted(b, 1), col, c)
    {
      BreakShows(b, scrollback, row, col, c);
    }
  }

  lemma BreakShows(b: Buf, scrollback: nat, row: int, col: int, c: Cell)
    requires Inv(b) && FullMargins(b) && scrollback != 1 && Shows(b, row, col, c) && row <= b.y
    ensures Shows(Index(b.(x := 0), scrollback), row - Lifted(b, 1), col, c)
  {
    hide Inv, Index, Shows, Scroll, Lines;
    SameLines(b);
    BreakFields(b, scrollback);
    var r := Index(b.(x := 0), scrollback);
    if b.y == b.rows - 1 { MovedUp(b, r, scrollback, row, col, c); } else { SameShows(b, r); }
  }

  lemma SameShows(b: Buf, r: Buf)
    requires |r.history| == |b.history| && Lines(r) == Lines(b)
    ensures forall row, col, c {:trigger Shows(b, row, col, c)} :: Shows(b, row, col, c) ==> Shows(r, row, col, c)
  {
  }

  lemma BreakFields(b: Buf, scrollback: nat)
    requires Inv(b) && FullMargins(b) && scrollback != 1
    ensures var r := Index(b.(x := 0), scrollback);
      && Inv(r) && r.x == 0 && r.rows == b.rows && r.cols == b.cols && FullMargins(r)
      && 0 <= b.y < b.rows && r.y == b.y + 1 - Lifted(b, 1)
      && (b.y == b.rows - 1 ==> r == Scroll(b.(x := 0), scrollback))
      && (b.y < b.rows - 1 ==> r.history == b.history && Lines(r) == Lines(b))
  {
    hide ScrolledHistory, ShiftUp;
  }

  /** The character and its empty half, if it has one, where the cursor was. */
  ghost predicate Stands(r: Buf, row: int, col: int, attr: nat, ch: Text, w: nat) {
    Shows(r, row, col, Cell(attr, ch, w)) && (w == 2 ==> Shows(r, row, col + 1, Cell(attr, [], 0)))
  }

  lemma PlacedDescends(s: Buf, r: Buf, attr: nat, ch: Text, w: nat)
    requires Inv(s) && Inv(r) && FullMargins(s) && 1 <= w <= 2 && s.x + w <= s.cols
    requires s.y < |r.screen| && r == s.(screen := s.screen[s.y := r.screen[s.y]], x := s.x + w)
    requires RowAfter(s.screen[s.y], r.screen[s.y], s.x, s.cols, false, attr, ch, w)
    ensures Descends(s, r, 0) && Stands(r, r.y, s.x, attr, ch, w)
  {
    assert Lines(r)[|r.history| + s.y] == r.screen[s.y];
    forall row, col, c | Shows(s, row, col, c) && Passed(s, row, col) ensures Shows(r, row, col, c) {
      var i := |s.history| + row;
      if i >= 0 {
        if row < 0 { assert Lines(r)[i] == s.history[i] == Lines(s)[i]; }
        else { assert Lines(r)[i] == r.screen[row] && Lines(s)[i] == s.screen[row]; }
      }
    }
  }

  lemma CharDescends(b: Buf, scrollback: nat, attr: nat, ch: Text, w: nat)
    requires Inv(b) && FullMargins(b) && scrollback != 1 && 1 <= w <= 2 && w <= b.cols
    ensures var r, d := Put(b, scrollback, true, false, attr, ch, w), if b.x + w > b.cols then 1 else 0;
      && Inv(r) && Descends(b, r, d) && r.x == (if d == 1 then w else b.x + w) && Stands(r, r.y, r.x - w, attr, ch, w)
  {
    hide Inv, RowAfter, LineFed, Index, Put, Shows, Lines;
    var s, r := Spot(b, scrollback, true, w), Put(b, scrollback, true, false, attr, ch, w);
    PutCharacter(b, scrollback, true, false, attr, ch, w);
    PutHolds(b, scrollback, attr, ch, w);
    if b.x + w > b.cols { BreakDescends(b, scrollback); }
    PlacedDescends(s, r, attr, ch, w);
    if b.x + w > b.cols { DescentsAdd(b, s, r, 1, 0); }
  }

  lemma PutHolds(b: Buf, scrollback: nat, attr: nat, ch: Text, w: nat)
    requires Inv(b) && scrollback != 1 && 1 <= w <= 2 && w <= b.cols
    ensures Inv(Put(b, scrollback, true, false, attr, ch, w)) && 0 <= b.y < b.rows
  {
  }

  // ---- A page ----------------------------------------------------------------------------------------

  /** Every character fits a line. */
  ghost predicate Fitting(cols: int, items: seq<Item>) {
    forall k {:trigger items[k]} :: 0 <= k < |items| && items[k].Char? ==> 1 <= items[k].w <= 2 && items[k].w <= cols
  }

  /** One item after another, with autowrap and without insert mode. */
  function Flow(b: Buf, scrollback: nat, attr: nat, items: seq<Item>): (r: Buf)
    requires Inv(b) && scrollback != 1 && Fitting(b.cols, items)
    ensures Inv(r) && r.cols == b.cols
  {
    if items == [] then b
    else
      var m := Flow(b, scrollback, attr, items[..|items| - 1]);
      Onward(m, scrollback, attr, items[|items| - 1])
  }

  function Onward(b: Buf, scrollback: nat, attr: nat, item: Item): (r: Buf)
    requires Inv(b) && scrollback != 1 && (item.Char? ==> 1 <= item.w <= 2 && item.w <= b.cols)
    ensures Inv(r) && r.cols == b.cols
  {
    IndexColumns(b.(x := 0), scrollback);
    match item
    case Break => Index(b.(x := 0), scrollback)
    case Char(ch, w) => PutFrame(b, scrollback, true, false, attr, ch, w); Put(b, scrollback, true, false, attr, ch, w)
  }

  /** What one item does. */
  lemma OnwardDescends(b: Buf, scrollback: nat, attr: nat, item: Item)
    requires Inv(b) && FullMargins(b) && scrollback != 1 && (item.Char? ==> 1 <= item.w <= 2 && item.w <= b.cols)
    ensures var r := Onward(b, scrollback, attr, item);
      match item
      case Break => Descends(b, r, 1) && r.x == 0
      case Char(ch, w) =>
        var d := if b.x + w > b.cols then 1 else 0;
        Descends(b, r, d) && r.x == (if d == 1 then w else b.x + w) && Stands(r, r.y, r.x - w, attr, ch, w)
  {
    hide Inv, Put, Index, Descends, Stands;
    match item
    case Break => BreakDescends(b, scrollback);
    case Char(ch, w) => CharDescends(b, scrollback, attr, ch, w);
  }

  /** Item k stands in its place, counted from the line the page began on, with the lines
      scrolled off since then. */
  ghost predicate StandsAt(b: Buf, r: Buf, attr: nat, items: seq<Item>, k: nat)
    requires k < |items| && 0 <= b.x && 0 <= b.cols
  {
    items[k].Char? ==>
      var (row, col) := Reach(b.x, b.cols, items[..k + 1]);
      Stands(r, b.y + row - Lifted(b, Reach(b.x, b.cols, items).0), col - items[k].w, attr, items[k].ch, items[k].w)
  }

  lemma {:induction false} ReachGrows(x: nat, cols: nat, items: seq<Item>, k: nat)
    requires k <= |items|
    ensures var (row, col) := Reach(x, cols, items[..k]);
      var (r, c) := Reach(x, cols, items);
      row < r || (row == r && col <= c)
    decreases |items|
  {
    if k == |items| {
      assert items[..k] == items;
    } else {
      var n := |items| - 1;
      assert items[..n][..k] == items[..k];
      ReachGrows(x, cols, items[..n], k);
    }
  }

  lemma {:induction false} FlowLayout(b: Buf, scrollback: nat, attr: nat, items: seq<Item>)
    requires Inv(b) && FullMargins(b) && scrollback != 1 && Fitting(b.cols, items)
    ensures Laid(b, Flow(b, scrollback, attr, items), attr, items)
    decreases |items|
  {
    hide Inv, Put, Index, Shows, Descends, Laid, Fitting, Reach;
    if items == [] {
      NoDescent(b, attr);
    } else {
      var n := |items| - 1;
      assert items[..n] + [items[n]] == items;
      FittingParts(b.cols, items);
      FlowLayout(b, scrollback, attr, items[..n]);
      FlowOne(b, Flow(b, scrollback, attr, items[..n]), scrollback, attr, items[..n], items[n]);
    }
  }

  lemma FittingParts(cols: int, items: seq<Item>)
    requires |items| >= 1 && Fitting(cols, items)
    ensures Fitting(cols, items[..|items| - 1])
  {
  }

  lemma NoDescent(b: Buf, attr: nat)
    requires Inv(b) && FullMargins(b)
    ensures Laid(b, b, attr, [])
  {
  }

  /** The layout of these items in r. */
  ghost predicate Laid(b: Buf, r: Buf, attr: nat, items: seq<Item>)
    requires 0 <= b.x && 0 <= b.cols
  {
    var d := Reach(b.x, b.cols, items);
    && Descends(b, r, d.0) && r.x == d.1
    && forall k {:trigger items[k]} :: 0 <= k < |items| ==> StandsAt(b, r, attr, items, k)
  }

  /** What stands behind the cursor goes on standing, lifted as far as the lines are. */
  lemma StaysStanding(b: Buf, m: Buf, r: Buf, attr: nat, items: seq<Item>, k: nat, d: nat)
    requires k < |items| && 0 <= b.x && 0 <= b.cols && 0 <= b.y < b.rows && Laid(b, m, attr, items) && Descends(m, r, d)
    requires var (row, col) := Reach(b.x, b.cols, items[..k + 1]);
      var (last, x) := Reach(b.x, b.cols, items);
      row < last || (row == last && col <= x)
    requires items[k].Char? ==> 1 <= items[k].w <= 2
    ensures items[k].Char? ==>
      var (row, col) := Reach(b.x, b.cols, items[..k + 1]);
      Stands(r, b.y + row - Lifted(b, Reach(b.x, b.cols, items).0 + d), col - items[k].w, attr, items[k].ch, items[k].w)
  {
    hide Shows, Reach;
    assert StandsAt(b, m, attr, items, k);
  }

  /** One item more. */
  lemma FlowOne(b: Buf, m: Buf, scrollback: nat, attr: nat, init: seq<Item>, last: Item)
    requires Inv(b) && Inv(m) && m.cols == b.cols && scrollback != 1 && Fitting(b.cols, init + [last])
    requires Laid(b, m, attr, init)
    ensures Fitting(m.cols, [last]) && last == [last][0] && Laid(b, Onward(m, scrollback, attr, last), attr, init + [last])
  {
    hide Inv, Shows, Descends, Onward, Reach, Stands, Index, Put;
    var items := init + [last];
    assert items[..|init|] == init && items[|init|] == last && items[..|items|] == items;
    var r := Onward(m, scrollback, attr, last);
    CursorBounds(b);
    DescentFields(b, m, Reach(b.x, b.cols, init).0);
    assert items[|items| - 1] == last && (last.Char? ==> 1 <= last.w <= 2 && last.w <= m.cols);
    OnwardDescends(m, scrollback, attr, last);
    ReachOne(b.x, b.cols, init, last);
    var before, d := Reach(b.x, b.cols, init), Reach(b.x, b.cols, items);
    DescentsAdd(b, m, r, before.0, d.0 - before.0);
    DescentFields(b, r, d.0);
    forall k | 0 <= k < |items| ensures StandsAt(b, r, attr, items, k) {
      if k < |init| {
        assert init[..k + 1] == items[..k + 1] && init[k] == items[k];
        ReachGrows(b.x, b.cols, init, k + 1);
        StaysStanding(b, m, r, attr, init, k, d.0 - before.0);
      }
    }
  }

  lemma DescentFields(b: Buf, r: Buf, d: nat)
    requires Descends(b, r, d)
    ensures r.y == b.y + d - Lifted(b, d) && r.rows == b.rows && r.cols == b.cols && FullMargins(r)
  {
  }

  lemma ReachOne(x: nat, cols: nat, init: seq<Item>, last: Item)
    ensures var (row, col) := Reach(x, cols, init);
      Reach(x, cols, init + [last]) ==
        match last
        case Break => (row + 1, 0)
        case Char(_, w) => if col + w > cols then (row + 1, w) else (row, col + w)
  {
    assert (init + [last])[..|init|] == init;
  }

  lemma CursorBounds(b: Buf)
    requires Inv(b)
    ensures 0 <= b.y < b.rows && 0 <= b.x && 0 <= b.cols
  {
  }

  // ---- As a text ---------------------------------------------------------------------------------------

  /** The characters and CR LF for every break. */
  function Spelled(items: seq<Item>): Text {
    if items == [] then []
    else Spelled(items[..|items| - 1]) + match items[|items| - 1] case Break => [CR, LF] case Char(ch, _) => ch
  }

  function Said(items: seq<Item>): (cmds: seq<Cmd>) {
    if items == [] then []
    else
      Said(items[..|items| - 1])
        + match items[|items| - 1] case Break => [CarriageReturn, LineFeed] case Char(ch, w) => [Print(ch, w)]
  }

  /** Every character is one. */
  ghost predicate Written(items: seq<Item>) {
    forall k {:trigger items[k]} :: 0 <= k < |items| && items[k].Char? ==> IsChar(items[k].ch, items[k].w)
  }

  lemma {:induction false} ReadsPage(items: seq<Item>)
    requires Written(items)
    ensures Reads(Spelled(items), Said(items))
    decreases |items|
  {
    hide Reads, Width;
    if items == [] {
      ReadsNothing();
    } else {
      var n := |items| - 1;
      ReadsPage(items[..n]);
      match items[n]
      case Break =>
        ReadsBreak();
        ReadsBoth(Spelled(items[..n]), Said(items[..n]), [CR, LF], [CarriageReturn, LineFeed]);
      case Char(ch, w) =>
        ReadsChar(ch, w);
        ReadsBoth(Spelled(items[..n]), Said(items[..n]), ch, [Print(ch, w)]);
    }
  }

  lemma ReadsBreak()
    ensures Reads([CR, LF], [CarriageReturn, LineFeed])
  {
    ReadsUnit(CR, [CarriageReturn]);
    ReadsUnit(LF, [LineFeed]);
    ReadsBoth([CR], [CarriageReturn], [LF], [LineFeed]);
    assert [CR, LF] == [CR] + [LF] && [CarriageReturn, LineFeed] == [CarriageReturn] + [LineFeed];
  }

  lemma {:induction false} PageRuns(e: Emu, items: seq<Item>)
    requires EmuInv(e) && Plainly(e) && Written(items) && Fitting(e.buf.cols, items)
    ensures Runs(e, Ground, Spelled(items))
    ensures After(e, Ground, Spelled(items)) == e.(buf := Flow(e.buf, e.cfg.scrollback, e.attr, items))
    decreases |items|
  {
    hide Runs, After, Reads, EmuInv, Inv, Onward, Width;
    PageBuffer(e);
    if items == [] {
      ReadsNothing();
      NothingGives(e, []);
      Given(e, []);
    } else {
      var n := |items| - 1;
      PageRuns(e, items[..n]);
      ReadsPage(items[..n]);
      var f := e.(buf := Flow(e.buf, e.cfg.scrollback, e.attr, items[..n]));
      ItemText(f, items[n]);
      var text := match items[n] case Break => [CR, LF] case Char(ch, _) => ch;
      var cmds := match items[n] case Break => [CarriageReturn, LineFeed] case Char(ch, w) => [Print(ch, w)];
      BothGive(e, Spelled(items[..n]), Said(items[..n]), text, cmds);
      Given(e, Spelled(items[..n]) + text);
    }
  }

  lemma PageBuffer(e: Emu)
    requires EmuInv(e)
    ensures Inv(e.buf) && e.cfg.scrollback != 1
  {
  }

  lemma ItemText(e: Emu, item: Item)
    requires EmuInv(e) && Plainly(e) && (item.Char? ==> IsChar(item.ch, item.w) && 1 <= item.w <= 2 && item.w <= e.buf.cols)
    ensures var text := match item case Break => [CR, LF] case Char(ch, _) => ch;
      && Reads(text, match item case Break => [CarriageReturn, LineFeed] case Char(ch, w) => [Print(ch, w)])
      && Gives(e, text, e.(buf := Onward(e.buf, e.cfg.scrollback, e.attr, item)))
  {
    hide Runs, After, Reads, Put, Index, Width;
    match item
    case Break => BreakText(e);
    case Char(ch, w) =>
      ReadsChar(ch, w);
      CharacterText(e, ch, w);
  }

  lemma BreakText(e: Emu)
    requires EmuInv(e)
    ensures Reads([CR, LF], [CarriageReturn, LineFeed])
    ensures Gives(e, [CR, LF], e.(buf := Index(e.buf.(x := 0), e.cfg.scrollback)))
  {
    ReadsBreak();
    ReadsUnit(CR, [CarriageReturn]);
    ReadsUnit(LF, [LineFeed]);
    assert [CR, LF] == [CR] + [LF];
    hide Runs, After, Reads, Index;
    var home := e.(buf := e.buf.(x := 0));
    OneGives(e, [CR], CarriageReturn);
    OneGives(home, [LF], LineFeed);
    Given(e, [CR]);
    Given(home, [LF]);
    BothGive(e, [CR], [CarriageReturn], [LF], [LineFeed]);
  }

  /** The page: any characters of one or two columns and any line breaks, as one text sent
      to a full-height region from any cursor position. Each character stands where the
      rule puts it, wide ones with their empty half behind them, however many lines have
      been scrolled off or trimmed since; and what was behind the cursor is still there. */
  lemma PageIsLaidOut(e: Emu, items: seq<Item>)
    requires EmuInv(e) && Plainly(e) && FullMargins(e.buf) && Written(items) && Fitting(e.buf.cols, items)
    ensures Runs(e, Ground, Spelled(items)) && 0 <= e.buf.x && 0 <= e.buf.cols
    ensures var r := After(e, Ground, Spelled(items)); r == e.(buf := r.buf) && Laid(e.buf, r.buf, e.attr, items)
  {
    hide Runs, After, Laid, Flow;
    PageBuffer(e);
    CursorBounds(e.buf);
    PageRuns(e, items);
    FlowLayout(e.buf, e.cfg.scrollback, e.attr, items);
  }

  // ---- The rule in closed form ---------------------------------------------------------------------------

  /** n characters of one width. */
  ghost predicate AllOf(items: seq<Item>, w: nat) {
    forall k {:trigger items[k]} :: 0 <= k < |items| ==> items[k].Char? && items[k].w == w
  }

  /** Narrow characters fill every column. */
  lemma {:induction false} NarrowReach(x: nat, cols: nat, items: seq<Item>)
    requires 1 <= cols && x <= cols && AllOf(items, 1)
    ensures var n := |items|; Reach(x, cols, items) == if n == 0 then (0, x) else ((x + n - 1) / cols, (x + n - 1) % cols + 1)
    decreases |items|
  {
    if items != [] {
      var n := |items| - 1;
      NarrowReach(x, cols, items[..n]);
      if n == 0 {
        if x < cols { DivMod(x, cols, 0, x); } else { DivMod(x, cols, 1, 0); }
      } else {
        NextCell(x + n - 1, cols);
      }
    }
  }

  /** Wide ones leave a column at the end of the line free when their number of columns
      does not come out even: f of them fit on the line printing starts on, p on every
      other one. */
  lemma {:induction false} WideReach(x: nat, cols: nat, items: seq<Item>)
    requires 2 <= cols && x <= cols && AllOf(items, 2)
    ensures var n, f, p := |items|, (cols - x) / 2, cols / 2;
      Reach(x, cols, items) == if n <= f then (0, x + 2 * n) else (1 + (n - f - 1) / p, 2 * ((n - f - 1) % p) + 2)
    decreases |items|
  {
    if items != [] {
      var n, f, p := |items| - 1, (cols - x) / 2, cols / 2;
      WideReach(x, cols, items[..n]);
      if n == f { DivMod(0, p, 0, 0); }
      if n > f { NextCell(n - f - 1, p); }
    }
  }

  // ---- Short lines ---------------------------------------------------------------------------------------

  /** The lines with CR LF between them. */
  function Joined(lines: seq<Text>): Text
    requires |lines| >= 1
  {
    if |lines| == 1 then lines[0] else Joined(lines[..|lines| - 1]) + ([CR, LF] + lines[|lines| - 1])
  }

  ghost predicate ShortLines(cols: int, lines: seq<Text>) {
    forall i {:trigger lines[i]} :: 0 <= i < |lines| ==> Printable(lines[i]) && |lines[i]| <= cols
  }

  /** Line i stands i lines below the first, from column 0. */
  ghost predicate LinesStand(b: Buf, r: Buf, attr: nat, lines: seq<Text>)
    requires |lines| >= 1
  {
    var down := |lines| - 1;
    && Descends(b, r, down) && r.x == |lines[down]|
    && forall i, k {:trigger lines[i][k]} :: 0 <= i < |lines| && 0 <= k < |lines[i]| ==>
         Shows(r, b.y + i - Lifted(b, down), k, Cell(attr, [lines[i][k]], 1))
  }

  function NarrowItems(line: Text): (items: seq<Item>)
    ensures |items| == |line| && forall k {:trigger items[k]} :: 0 <= k < |line| ==> items[k] == Char([line[k]], 1)
  {
    seq(|line|, k requires 0 <= k < |line| => Char([line[k]], 1))
  }

  lemma {:induction false} LineReach(x: nat, cols: nat, start: seq<Item>, line: Text)
    requires |line| <= cols && Reach(x, cols, start).1 == 0
    ensures Reach(x, cols, start + NarrowItems(line)) == (Reach(x, cols, start).0, |line|)
    decreases |line|
  {
    if line == [] {
      assert start + NarrowItems(line) == start;
    } else {
      var n := |line| - 1;
      LineReach(x, cols, start, line[..n]);
      assert start + NarrowItems(line) == start + NarrowItems(line[..n]) + [Char([line[n]], 1)];
      ReachOne(x, cols, start + NarrowItems(line[..n]), Char([line[n]], 1));
    }
  }

  /** Nothing, in column 0, or a break. */
  predicate Starts(start: seq<Item>, x: int) { (start == [] && x == 0) || start == [Break] }

  lemma StartReach(x: nat, cols: nat, start: seq<Item>)
    requires Starts(start, x)
    ensures Reach(x, cols, start) == (|start|, 0) && Spelled(start) == if start == [] then [] else [CR, LF]
  {
  }

  lemma CharsAreWritten(start: seq<Item>, line: Text, cols: int)
    requires Printable(line) && 1 <= cols && (start == [] || start == [Break])
    ensures Written(start + NarrowItems(line)) && Fitting(cols, start + NarrowItems(line))
  {
    hide Width;
    forall k | 0 <= k < |line| ensures IsChar([line[k]], 1) { AsciiIsNarrow(line[k]); }
  }

  lemma {:induction false} LineSpelled(start: seq<Item>, line: Text)
    ensures Spelled(start + NarrowItems(line)) == Spelled(start) + line
    decreases |line|
  {
    if line == [] {
      assert start + NarrowItems(line) == start;
    } else {
      var n := |line| - 1;
      LineSpelled(start, line[..n]);
      var items := start + NarrowItems(line);
      assert items[..|items| - 1] == start + NarrowItems(line[..n]) && items[|items| - 1] == Char([line[n]], 1);
      assert line == line[..n] + [line[n]];
    }
  }

  /** One short line more, from the start of a line, with or without a break first. */
  lemma OneLine(e: Emu, start: seq<Item>, line: Text)
    requires EmuInv(e) && Plainly(e) && FullMargins(e.buf) && Printable(line) && |line| <= e.buf.cols
    requires Starts(start, e.buf.x) && (start == [] || start == [Break])
    ensures var b, text, d := e.buf, (if start == [] then [] else [CR, LF]) + line, |start|;
      && Reads(text, Said(start + NarrowItems(line))) && Runs(e, Ground, text)
      && var r := After(e, Ground, text);
         && r == e.(buf := r.buf) && Descends(b, r.buf, d) && r.buf.x == |line|
         && forall k {:trigger line[k]} :: 0 <= k < |line| ==>
              Shows(r.buf, b.y + d - Lifted(b, d), k, Cell(e.attr, [line[k]], 1))
  {
    hide *;
    var items := start + NarrowItems(line);
    PageSize(e);
    CharsAreWritten(start, line, e.buf.cols);
    PageIsLaidOut(e, items);
    ReadsPage(items);
    LineSpelled(start, line);
    StartReach(e.buf.x, e.buf.cols, start);
    LaidLine(e.buf, After(e, Ground, Spelled(items)).buf, e.attr, start, line);
  }

  lemma LaidLine(b: Buf, r: Buf, attr: nat, start: seq<Item>, line: Text)
    requires 0 <= b.x && 1 <= b.cols && |line| <= b.cols && Starts(start, b.x) && Laid(b, r, attr, start + NarrowItems(line))
    ensures var d := |start|;
      && Descends(b, r, d) && r.x == |line|
      && forall k {:trigger line[k]} :: 0 <= k < |line| ==> Shows(r, b.y + d - Lifted(b, d), k, Cell(attr, [line[k]], 1))
  {
    hide Descends, Shows, Reach;
    var items := start + NarrowItems(line);
    StartReach(b.x, b.cols, start);
    LineReach(b.x, b.cols, start, line);
    forall k | 0 <= k < |line| ensures Shows(r, b.y + |start| - Lifted(b, |start|), k, Cell(attr, [line[k]], 1)) {
      var i := |start| + k;
      assert items[i] == Char([line[k]], 1) && StandsAt(b, r, attr, items, i);
      assert items[..i + 1] == start + NarrowItems(line[..k + 1]);
      LineReach(b.x, b.cols, start, line[..k + 1]);
    }
  }

  lemma PageSize(e: Emu)
    requires EmuInv(e)
    ensures 1 <= e.buf.cols && 0 <= e.buf.x && 0 <= e.buf.y < e.buf.rows
  {
  }

  /** Short lines joined by CR LF, from the start of a line of a full-height region: each
      stands from column 0 in a line of its own, in order and without gaps, counted with
      the lines scrolled off and trimmed. */
  lemma {:induction false} ShortLinesStand(e: Emu, lines: seq<Text>)
    requires EmuInv(e) && Plainly(e) && FullMargins(e.buf) && e.buf.x == 0
    requires |lines| >= 1 && ShortLines(e.buf.cols, lines)
    ensures exists cmds :: Reads(Joined(lines), cmds)
    ensures Runs(e, Ground, Joined(lines))
    ensures var r := After(e, Ground, Joined(lines)); r == e.(buf := r.buf) && LinesStand(e.buf, r.buf, e.attr, lines)
    decreases |lines|
  {
    hide Runs, After, Reads, Descends, Shows, EmuInv, Printable;
    var n := |lines| - 1;
    PageSize(e);
    if n == 0 {
      OneLine(e, [], lines[0]);
      assert [] + lines[0] == lines[0] == Joined(lines);
      assert Reads(Joined(lines), Said([] + NarrowItems(lines[0])));
    } else {
      ShortLinesStand(e, lines[..n]);
      var m := After(e, Ground, Joined(lines[..n]));
      var x :| Reads(Joined(lines[..n]), x);
      DescentFields(e.buf, m.buf, n - 1);
      AfterHolds(e, Joined(lines[..n]));
      OneLine(m, [Break], lines[n]);
      var text, y := [CR, LF] + lines[n], Said([Break] + NarrowItems(lines[n]));
      BothGive(e, Joined(lines[..n]), x, text, y);
      ReadsBoth(Joined(lines[..n]), x, text, y);
      assert Joined(lines) == Joined(lines[..n]) + text;
      assert Reads(Joined(lines), x + y);
      Given(e, Joined(lines[..n]) + text);
      LinesAdd(e.buf, m.buf, After(m, Ground, text).buf, e.attr, lines);
    }
  }

  lemma AfterHolds(e: Emu, text: Text)
    requires EmuInv(e) && Runs(e, Ground, text)
    ensures EmuInv(After(e, Ground, text))
  {
  }

  lemma LinesAdd(b: Buf, m: Buf, r: Buf, attr: nat, lines: seq<Text>)
    requires |lines| >= 2 && 0 <= b.y < b.rows && LinesStand(b, m, attr, lines[..|lines| - 1]) && Descends(m, r, 1)
    requires var n := |lines| - 1;
      r.x == |lines[n]| && forall k {:trigger lines[n][k]} :: 0 <= k < |lines[n]| ==>
        Shows(r, m.y + 1 - Lifted(m, 1), k, Cell(attr, [lines[n][k]], 1))
    ensures LinesStand(b, r, attr, lines)
  {
    hide Shows;
    var n := |lines| - 1;
    DescentsAdd(b, m, r, n - 1, 1);
    forall i, k | 0 <= i < |lines| && 0 <= k < |lines[i]|
      ensures Shows(r, b.y + i - Lifted(b, n), k, Cell(attr, [lines[i][k]], 1))
    {
      if i < n { assert lines[..n][i][k] == lines[i][k]; }
    }
  }
}
