/** Changes nobody is told of: ICH, DCH, ECH and REP do not announce the cursor row,
    and RI above the top margin not all the rows it moves. Exactly when that shows. */
module Silence {
  import opened Sequences
  import opened Buffer
  import opened Emulator
  import opened Effects
  import opened Parser
  import opened Rendering
  import opened Refreshing
  import opened Display
  import opened Chunks
  import opened Cuts
  import opened Looks

  // ---- What an edit does to the look of its row ---------------------------------------------

  function CursorRowOf(b: Buf): Line
    requires Inv(b)
  {
    b.screen[b.y]
  }

  /** The cells from column lo up to column hi. */
  function Cells(b: Buf, lo: int, hi: int): seq<Cell>
    requires Inv(b) && 0 <= lo <= hi <= b.cols
  {
    CursorRowOf(b)[lo..hi]
  }

  /** The cell REP repeats. */
  function Repeated(b: Buf): Cell
    requires Inv(b)
  {
    if b.x > 0 then CursorRowOf(b)[b.x - 1] else Blank(DEF_ATTR)
  }

  /** What stands n cells behind the cursor and further on, blanks behind the end. */
  function Behind(b: Buf, n: nat, blank: Cell): seq<Cell>
    requires Inv(b)
  {
    var line := CursorRowOf(b);
    (line[Min(b.x + n, |line|)..] + Copies(n, blank))[..b.cols - b.x]
  }

  /** Looking at the cursor row, a caller can tell beforehand whether an edit will leave
      it looking as it does:
      ICH n, if the cells pushed off the row look erased and so does everything visible
      from the cursor on; DCH n, if the row goes on n cells behind the cursor as it does
      at the cursor; ECH n, if the cells already look erased; REP n, if they already look
      like the cell in front of them. */
  ghost predicate EditStays(b: Buf, attr: nat, final: CodeUnit, n: nat)
    requires Inv(b) && n >= 1 && EditsSilently(final) && (final == REP ==> b.x + n <= b.cols)
  {
    var blank := Blank(EraseAttr(attr));
    var k := Min(n, b.cols - b.x);
    match final
    case ICH => k == 0 || (VisibleLike(Cells(b, b.x, b.cols - k), blank) && AllLike(Cells(b, b.cols - k, b.cols), blank))
    case DCH => LooksOf(Cells(b, b.x, b.cols)) == LooksOf(Behind(b, n, blank))
    case ECH => AllLike(Cells(b, b.x, b.x + k), blank)
    case _ => AllLike(Cells(b, b.x, b.x + n), Repeated(b))
  }

  /** The first cells of two rows look alike. */
  ghost predicate Alike(r: Line, line: Line, cols: int) {
    0 <= cols <= |r| && cols <= |line| && LooksOf(r[..cols]) == LooksOf(line[..cols])
  }

  lemma EditShows(b: Buf, attr: nat, final: CodeUnit, ps: seq<nat>)
    requires Inv(b) && |ps| >= 1 && EditsSilently(final) && (final == REP ==> b.x + Count(ps) <= b.cols)
    ensures Inv(EditBuffer(b, attr, final, ps))
    ensures Alike(EditBuffer(b, attr, final, ps).screen[b.y], CursorRowOf(b), b.cols) <==>
      EditStays(b, attr, final, Count(ps))
  {
    hide InsertChars, DeleteChars, EraseChars, RepeatCell, AllLike, VisibleLike, LooksOf, Behind;
    match final
    case ICH => InsertShows(b, Count(ps), attr);
    case DCH => DeleteShows(b, Count(ps), attr);
    case ECH => EraseShows(b, Count(ps), attr);
    case _ => RepeatShows(b, Count(ps));
  }

  /** Cells between two unchanged parts of a row. */
  lemma MiddleShows(front: seq<Cell>, a: seq<Cell>, b: seq<Cell>, back: seq<Cell>)
    ensures LooksOf(front + a + back) == LooksOf(front + b + back) <==> LooksOf(a) == LooksOf(b)
  {
    hide LooksOf;
    LooksAdd(front + a, back);
    LooksAdd(front, a);
    LooksAdd(front + b, back);
    LooksAdd(front, b);
    var f, l, m, r := LooksOf(front), LooksOf(a), LooksOf(b), LooksOf(back);
    if f + l + r == f + m + r { Cancel(f, l, m, r); }
  }

  lemma Cancel<T>(f: seq<T>, l: seq<T>, m: seq<T>, r: seq<T>)
    requires f + l + r == f + m + r
    ensures l == m
  {
    assert |l| == |m|;
    forall i | 0 <= i < |l| ensures l[i] == m[i] {
      assert (f + l + r)[|f| + i] == l[i] && (f + m + r)[|f| + i] == m[i];
    }
  }

  lemma EraseShows(b: Buf, n: nat, attr: nat)
    requires Inv(b)
    ensures Alike(EraseChars(b, n, attr).screen[b.y], CursorRowOf(b), b.cols) <==>
      AllLike(Cells(b, b.x, b.x + Min(n, b.cols - b.x)), Blank(EraseAttr(attr)))
  {
    hide LooksOf, AllLike;
    FillShows(CursorRowOf(b), b.cols, b.x, Min(n, b.cols - b.x), Blank(EraseAttr(attr)));
  }

  lemma RepeatShows(b: Buf, n: nat)
    requires Inv(b) && b.x + n <= b.cols
    ensures Alike(RepeatCell(b, n).screen[b.y], CursorRowOf(b), b.cols) <==> AllLike(Cells(b, b.x, b.x + n), Repeated(b))
  {
    hide LooksOf, AllLike;
    FillShows(CursorRowOf(b), b.cols, b.x, n, Repeated(b));
  }

  lemma FillShows(line: Line, cols: nat, x: nat, k: nat, c: Cell)
    requires x + k <= cols <= |line|
    ensures Alike(Fill(line, x, x + k, c), line, cols) <==> AllLike(line[x..x + k], c)
  {
    hide LooksOf, AllLike;
    var r := Fill(line, x, x + k, c);
    assert r[..cols] == line[..x] + Copies(k, c) + line[x + k..cols];
    assert line[..cols] == line[..x] + line[x..x + k] + line[x + k..cols];
    MiddleShows(line[..x], Copies(k, c), line[x..x + k], line[x + k..cols]);
    LikeCopies(line[x..x + k], c);
  }

  lemma InsertShows(b: Buf, n: nat, attr: nat)
    requires Inv(b) && n >= 1
    ensures var blank, k := Blank(EraseAttr(attr)), Min(n, b.cols - b.x);
      Alike(InsertChars(b, n, attr).screen[b.y], CursorRowOf(b), b.cols) <==>
        k == 0 || (VisibleLike(Cells(b, b.x, b.cols - k), blank) && AllLike(Cells(b, b.cols - k, b.cols), blank))
  {
    hide LooksOf, AllLike, VisibleLike;
    ShiftShows(CursorRowOf(b), b.cols, b.x, Min(n, b.cols - b.x), Blank(EraseAttr(attr)));
  }

  lemma ShiftShows(line: Line, cols: nat, x: nat, k: nat, blank: Cell)
    requires x + k <= cols <= |line| && blank.width != 0
    ensures Alike(ShiftDown(line, x, |line|, k, blank), line, cols) <==>
      k == 0 || (VisibleLike(line[x..cols - k], blank) && AllLike(line[cols - k..cols], blank))
  {
    hide LooksOf, AllLike, VisibleLike, ShiftDown;
    var r := ShiftDown(line, x, |line|, k, blank);
    ShiftedElements(line, x, |line|, k, blank);
    var kept, lost := line[x..cols - k], line[cols - k..cols];
    assert r[..cols] == line[..x] + (Copies(k, blank) + kept) + [];
    assert line[..cols] == line[..x] + (kept + lost) + [];
    MiddleShows(line[..x], Copies(k, blank) + kept, kept + lost, []);
    if k == 0 {
      assert Copies(k, blank) + kept == kept + lost;
    } else {
      LooksAdd(Copies(k, blank), kept);
      LooksAdd(kept, lost);
      CopiesLook(k, blank);
      SlideRight(LookOf(blank), k, LooksOf(kept), LooksOf(lost));
      LikeCopies(lost, blank);
      UniformLooks(kept, blank);
    }
  }

  lemma UniformLooks(cells: seq<Cell>, c: Cell)
    ensures LooksOf(cells) == Copies(|LooksOf(cells)|, LookOf(c)) <==> VisibleLike(cells, c)
  {
    hide LooksOf;
    if VisibleLike(cells, c) { LikeOne(cells, c); }
    if LooksOf(cells) == Copies(|LooksOf(cells)|, LookOf(c)) { OneLike(cells, c); }
  }

  lemma DeleteShows(b: Buf, n: nat, attr: nat)
    requires Inv(b) && n >= 1
    ensures Alike(DeleteChars(b, n, attr).screen[b.y], CursorRowOf(b), b.cols) <==>
      LooksOf(Cells(b, b.x, b.cols)) == LooksOf(Behind(b, n, Blank(EraseAttr(attr))))
  {
    hide LooksOf, ShiftUp, Copies;
    var line, blank := CursorRowOf(b), Blank(EraseAttr(attr));
    LineCovers(b, b.y);
    DeletedCells(line, b.x, b.cols, n, blank);
    assert line[..b.cols] == line[..b.x] + line[b.x..b.cols] + [];
    MiddleShows(line[..b.x], Behind(b, n, blank), line[b.x..b.cols], []);
  }

  /** The first cols cells of a line after DCH n. */
  lemma DeletedCells(line: Line, x: nat, cols: nat, n: nat, blank: Cell)
    requires x <= cols <= |line| && n >= 1
    ensures var r := if x < |line| then ShiftUp(line, x, |line|, n, blank) else line + [blank];
      var tail := line[Min(x + n, |line|)..] + Copies(n, blank);
      |tail| >= cols - x && |r| >= cols && r[..cols] == line[..x] + tail[..cols - x] + []
  {
    hide ShiftUp, Copies;
    var k := Min(n, |line| - x);
    var kept := line[x + k..];
    if x < |line| {
      ShiftedToEnd(line, x, n, blank);
      SameStart(kept, k, n, blank, cols - x);
      StartBehind(line[..x], kept + Copies(k, blank), cols);
    } else {
      StartBehind(line, [blank], cols);
    }
  }

  lemma ShiftedToEnd<T>(s: seq<T>, a: nat, n: nat, v: T)
    requires a <= |s|
    ensures var k := Min(n, |s| - a); ShiftUp(s, a, |s|, n, v) == s[..a] + (s[a + k..] + Copies(k, v))
  {
  }

  lemma SameStart<T>(s: seq<T>, k: nat, n: nat, v: T, m: nat)
    requires k <= n && m <= |s| + k
    ensures (s + Copies(k, v))[..m] == (s + Copies(n, v))[..m]
  {
  }

  lemma StartBehind<T>(front: seq<T>, back: seq<T>, m: nat)
    requires |front| <= m <= |front| + |back|
    ensures (front + back)[..m] == front + back[..m - |front|]
  {
  }

  /** On a line as wide as the screen DCH n stays unseen if and only if the n cells it
      deletes look erased and so does everything visible behind them. */
  lemma DeleteOnFullLine(b: Buf, n: nat, attr: nat)
    requires Inv(b) && n >= 1 && |CursorRowOf(b)| == b.cols
    ensures var blank, k := Blank(EraseAttr(attr)), Min(n, b.cols - b.x);
      EditStays(b, attr, DCH, n) <==>
        k == 0 || (AllLike(Cells(b, b.x, b.x + k), blank) && VisibleLike(Cells(b, b.x + k, b.cols), blank))
  {
    hide LooksOf, AllLike, VisibleLike;
    var line, blank, k := CursorRowOf(b), Blank(EraseAttr(attr)), Min(n, b.cols - b.x);
    var gone, kept := line[b.x..b.x + k], line[b.x + k..b.cols];
    assert Cells(b, b.x, b.cols) == gone + kept;
    assert Behind(b, n, blank) == kept + Copies(k, blank);
    if k == 0 {
      assert gone + kept == kept + Copies(k, blank);
    } else {
      LooksAdd(gone, kept);
      LooksAdd(kept, Copies(k, blank));
      CopiesLook(k, blank);
      SlideLeft(LookOf(blank), k, LooksOf(gone), LooksOf(kept));
      LikeCopies(gone, blank);
      UniformLooks(kept, blank);
    }
  }

  // ---- What that does to the display ----------------------------------------------------------

  /** Row r is neither announced nor covered by a refresh. */
  ghost predicate Unheard(n: Note, r: int) { !(n.range.lo <= r <= n.range.hi) && !Covered(n.pending, r) }

  /** The rows a command leaves unheard of look as they did. */
  ghost predicate StaysRight(n: Note, e: Emu, c: Cmd)
    requires EmuInv(e) && WellFormed(c)
  {
    var m, f := NoteCommand(n, e, c), Exec(e, c);
    |f.buf.screen| == |e.buf.screen| && (AllCovered(m.pending, e.buf.rows) ||
      forall r {:trigger f.buf.screen[r]} :: 0 <= r < |e.buf.screen| && Unheard(m, r) ==>
        Alike(f.buf.screen[r], e.buf.screen[r], e.buf.cols))
  }

  /** The step of tracking made exact: the rows on display go on being right where they
      have to be if and only if the rows left unheard of look as they did. */
  lemma TracksExactly(n: Note, e: Emu, c: Cmd, rows: seq<Markup>)
    requires EmuInv(e) && WellFormed(c) && Admissible(e, c) && Tracks(n, e, rows)
    ensures EmuInv(Exec(e, c)) && (Tracks(NoteCommand(n, e, c), Exec(e, c), rows) <==> StaysRight(n, e, c))
  {
    hide EmuInv, Exec, Admissible, Announces, Requests, Render, Alike, Changes;
    ExecKeepsInvariant(e, c);
    StepFits(n, e, c);
    var m, f := NoteCommand(n, e, c), Exec(e, c);
    SameRows(e, f);
    if Requests(e, c) != [] {
      RequestsWholeScreen(e, c);
      RequestAllCovers(n.pending, Requests(e, c), e.buf.rows);
    } else if !AllCovered(m.pending, e.buf.rows) {
      CommandKeepsRows(e, c);
      forall r | 0 <= r < e.buf.rows && Unheard(m, r)
        ensures rows[r] == Bare(f, r) <==> Alike(f.buf.screen[r], e.buf.screen[r], e.buf.cols)
      {
        assert rows[r] == Bare(e, r);
        BareAlike(e, f, r);
      }
    }
  }

  lemma SameRows(e: Emu, f: Emu)
    requires EmuInv(e) && EmuInv(f) && f.buf.rows == e.buf.rows
    ensures |f.buf.screen| == |e.buf.screen| == e.buf.rows
  {
  }

  lemma BareAlike(e: Emu, f: Emu, r: int)
    requires EmuInv(e) && EmuInv(f) && f.buf.rows == e.buf.rows && f.buf.cols == e.buf.cols && 0 <= r < e.buf.rows
    ensures Bare(f, r) == Bare(e, r) <==> Alike(f.buf.screen[r], e.buf.screen[r], e.buf.cols)
  {
    RenderedAlike(f.buf.screen[r], e.buf.screen[r], e.buf.cols);
  }

  lemma AlikeItself(line: Line, cols: int)
    requires 0 <= cols <= |line|
    ensures Alike(line, line, cols)
  {
  }

  /** What a silent edit does: the cursor row is edited and nothing announced. */
  lemma SilentStep(n: Note, e: Emu, c: Cmd)
    requires EmuInv(e) && WellFormed(c) && Admissible(e, c) && c.Csi? && EditsSilently(c.final)
    ensures NoteCommand(n, e, c) == n
    ensures c.final == REP ==> e.buf.x + Count(c.params) <= e.buf.cols
    ensures var r := EditBuffer(e.buf, e.attr, c.final, c.params);
      Exec(e, c).buf == r && Edits(e.buf, r, e.buf.y, e.buf.y)
    ensures 0 <= e.buf.y < e.buf.rows == |e.buf.screen|
  {
    hide InsertChars, DeleteChars, EraseChars, RepeatCell;
  }

  /** ICH, DCH, ECH and REP keep the display right if and only if their row is announced
      or covered already, or their guard holds. */
  lemma SilentEditExactly(n: Note, e: Emu, c: Cmd, rows: seq<Markup>)
    requires EmuInv(e) && WellFormed(c) && Admissible(e, c) && Tracks(n, e, rows)
    requires c.Csi? && EditsSilently(c.final)
    ensures EmuInv(Exec(e, c)) && (c.final == REP ==> e.buf.x + Count(c.params) <= e.buf.cols)
    ensures Tracks(NoteCommand(n, e, c), Exec(e, c), rows) <==>
      !Unheard(n, e.buf.y) || AllCovered(n.pending, e.buf.rows) || EditStays(e.buf, e.attr, c.final, Count(c.params))
  {
    hide EmuInv, Inv, Exec, Admissible, Tracks, EditStays, EditBuffer, NoteCommand, Alike;
    TracksExactly(n, e, c, rows);
    SilentStep(n, e, c);
    InvOf(e);
    EditShows(e.buf, e.attr, c.final, c.params);
    forall r | 0 <= r < |e.buf.screen| && r != e.buf.y ensures Alike(Exec(e, c).buf.screen[r], e.buf.screen[r], e.buf.cols) {
      LineCovers(e.buf, r);
      AlikeItself(e.buf.screen[r], e.buf.cols);
    }
  }

  lemma InvOf(e: Emu)
    requires EmuInv(e)
    ensures Inv(e.buf)
  {
  }

  lemma LineCovers(b: Buf, r: int)
    requires Inv(b) && 0 <= r < |b.screen|
    ensures 0 <= b.cols <= |b.screen[r]|
  {
  }

  // ---- RI above the top margin ------------------------------------------------------------------

  /** The row RI puts in the place of row r. */
  function MovedDown(e: Emu, r: int): Line
    requires EmuInv(e) && e.buf.y <= r < e.buf.rows
  {
    if r == e.buf.y then BlankLine(e.buf.cols, EraseAttr(e.attr)) else e.buf.screen[r - 1]
  }

  /** RI above the top margin moves everything from the cursor down but announces the
      region only. Each row between that nobody else has heard of must look like the one
      above it, and the cursor row erased. */
  ghost predicate ReverseStays(n: Note, e: Emu)
    requires EmuInv(e)
  {
    forall r {:trigger e.buf.screen[r]} :: e.buf.y <= r < Min(e.buf.top, n.range.lo) && !Covered(n.pending, r) ==>
      Alike(MovedDown(e, r), e.buf.screen[r], e.buf.cols)
  }

  lemma ReverseStep(n: Note, e: Emu)
    requires EmuInv(e)
    ensures var m, f := NoteCommand(n, e, IndexUp), Exec(e, IndexUp);
      && m.pending == n.pending && |f.buf.screen| == |e.buf.screen| == e.buf.rows
      && 0 <= e.buf.y < e.buf.rows && e.buf.top <= e.buf.bottom < e.buf.rows
      && (if e.buf.y - 1 < e.buf.top
          then m.range == Range(Min(n.range.lo, e.buf.top), Max(n.range.hi, e.buf.bottom))
          else m == n && f.buf.screen == e.buf.screen)
  {
    hide ShiftDown;
  }

  lemma ReverseRows(e: Emu, r: int)
    requires EmuInv(e) && 0 <= r < e.buf.rows && e.buf.y < e.buf.top
    ensures var f := Exec(e, IndexUp);
      f.buf.screen[r] == if e.buf.y <= r <= e.buf.bottom then MovedDown(e, r) else e.buf.screen[r]
  {
    hide ShiftDown;
    ShiftedElements(e.buf.screen, e.buf.y, e.buf.bottom + 1, 1, BlankLine(e.buf.cols, EraseAttr(e.attr)));
  }

  /** RI keeps the display right if and only if the cursor is not above the region, a
      refresh of everything is on its way, or its guard holds. */
  lemma ReverseIndexExactly(n: Note, e: Emu, rows: seq<Markup>)
    requires EmuInv(e) && Tracks(n, e, rows)
    ensures EmuInv(Exec(e, IndexUp))
    ensures Tracks(NoteCommand(n, e, IndexUp), Exec(e, IndexUp), rows) <==>
      e.buf.y >= e.buf.top || AllCovered(n.pending, e.buf.rows) || ReverseStays(n, e)
  {
    hide EmuInv, Inv, Exec, Tracks, NoteCommand, Alike, MovedDown;
    TracksExactly(n, e, IndexUp, rows);
    ReverseStep(n, e);
    if e.buf.y >= e.buf.top {
      ReverseInside(n, e, rows);
    } else {
      InvOf(e);
      forall r | 0 <= r < e.buf.rows
        ensures var f := Exec(e, IndexUp);
          f.buf.screen[r] == if e.buf.y <= r <= e.buf.bottom then MovedDown(e, r) else e.buf.screen[r]
        ensures !(e.buf.y <= r <= e.buf.bottom) ==> Alike(Exec(e, IndexUp).buf.screen[r], e.buf.screen[r], e.buf.cols)
      {
        ReverseRows(e, r);
        LineCovers(e.buf, r);
        AlikeItself(e.buf.screen[r], e.buf.cols);
      }
    }
  }

  lemma ReverseInside(n: Note, e: Emu, rows: seq<Markup>)
    requires EmuInv(e) && Tracks(n, e, rows) && e.buf.y >= e.buf.top
    ensures EmuInv(Exec(e, IndexUp)) && Tracks(NoteCommand(n, e, IndexUp), Exec(e, IndexUp), rows)
  {
    hide EmuInv, Exec, Tracks, NoteCommand;
    MostCommandsAreHeard(n, e, IndexUp);
    StepTracks(n, e, IndexUp, rows);
  }

  // ---- As a text ---------------------------------------------------------------------------------

  /** Down to row 2, a silent edit there, and back home. */
  function EditBelow(final: CodeUnit, n: nat): Text {
    Encode([], [2, 1], CUP) + (Encode([], [n], final) + (Encode([], [1, 1], CUP) + []))
  }

  function EditBelowCommands(final: CodeUnit, n: nat): seq<Cmd> {
    [Csi(CUP, [2, 1], []), Csi(final, [n], []), Csi(CUP, [1, 1], [])]
  }

  lemma EditBelowScan(final: CodeUnit, n: nat)
    requires EditsSilently(final)
    ensures Read(Ground, [], EditBelow(final, n)) == Scanned(Ground, [], EditBelowCommands(final, n), false)
  {
    hide Scan, Encode;
    var c: Text := Encode([], [1, 1], CUP) + [];
    var b: Text := Encode([], [n], final) + c;
    CsiRoundTrip([], [2, 1], CUP, b);
    CsiRoundTrip([], [n], final, c);
    CsiRoundTrip([], [1, 1], CUP, []);
    NothingToRead(Ground, 0);
    ReadsScan(Ground, EditBelow(final, n));
    var down, edit, home := Csi(CUP, [2, 1], []), Csi(final, [n], []), Csi(CUP, [1, 1], []);
    assert [home] + [] == [home] && [edit] + [home] == [edit, home] && [down] + [edit, home] == [down, edit, home];
  }

  /** The buffer with the cursor at the start of row 2. */
  function SecondRow(b: Buf): Buf { b.(x := 0, y := 1) }

  lemma EditBelowSteps(e: Emu, final: CodeUnit, n: nat)
    requires EmuInv(e) && e.buf.rows >= 2 && EditsSilently(final) && (final == REP ==> Max(n, 1) <= e.buf.cols)
    ensures Inv(SecondRow(e.buf)) && EmuInv(e.(buf := SecondRow(e.buf)))
    ensures var e1, r := e.(buf := SecondRow(e.buf)), EditBuffer(SecondRow(e.buf), e.attr, final, [n]);
      && Exec(e, Csi(CUP, [2, 1], [])) == e1
      && EmuInv(e.(buf := r)) && Exec(e1, Csi(final, [n], [])) == e.(buf := r)
      && Exec(e.(buf := r), Csi(CUP, [1, 1], [])) == e.(buf := r.(x := 0, y := 0))
  {
    hide InsertChars, DeleteChars, EraseChars, RepeatCell;
  }

  lemma EditBelowNotes(e: Emu, n: Note, final: CodeUnit, k: nat)
    requires EmuInv(e) && EditsSilently(final)
    ensures var down, edit, home := Csi(CUP, [2, 1], []), Csi(final, [k], []), Csi(CUP, [1, 1], []);
      && NoteCommand(n, e, down) == NoteCommand(n, e, edit) == NoteCommand(n, e, home) == n
      && WellFormed(down) && WellFormed(edit) && WellFormed(home)
      && AllWellFormed([down, edit, home]) && AllWellFormed([edit, home]) && AllWellFormed([home])
      && Admissible(e, down) && Admissible(e, home) && ((final == REP ==> e.buf.x + Max(k, 1) <= e.buf.cols) ==> Admissible(e, edit))
  {
    hide EmuInv;
  }

  lemma EditBelowRuns(e: Emu, n: Note, final: CodeUnit, k: nat)
    requires EmuInv(e) && e.buf.rows >= 2 && EditsSilently(final) && (final == REP ==> Max(k, 1) <= e.buf.cols)
    ensures var cmds := EditBelowCommands(final, k);
      && AllWellFormed(cmds) && AdmissibleAll(e, cmds) && NoteAll(n, e, cmds) == n && Inv(SecondRow(e.buf))
      && ExecAll(e, cmds) == e.(buf := EditBuffer(SecondRow(e.buf), e.attr, final, [k]).(x := 0, y := 0))
  {
    hide EmuInv, Inv, Exec, EditBuffer, NoteCommand, Admissible, WellFormed, AllWellFormed, AdmissibleAll, ExecAll, NoteAll;
    var down, edit, home := Csi(CUP, [2, 1], []), Csi(final, [k], []), Csi(CUP, [1, 1], []);
    EditBelowSteps(e, final, k);
    var e1 := e.(buf := SecondRow(e.buf));
    var e2 := e.(buf := EditBuffer(SecondRow(e.buf), e.attr, final, [k]));
    EditBelowNotes(e, n, final, k);
    EditBelowNotes(e1, n, final, k);
    EditBelowNotes(e2, n, final, k);
    assert [home] + [] == [home] && [edit] + [home] == [edit, home] && [down] + [edit, home] == [down, edit, home];
    UnfoldRun(n, e, down, [edit, home]);
    UnfoldRun(n, e1, edit, [home]);
    UnfoldRun(n, e2, home, []);
    NothingRuns(n, Exec(e2, home));
  }

  /** Sent as a text to a terminal that is up to date and at rest with its cursor on row
      1, a silent edit of row 2 keeps the display coherent if and only if its guard
      holds: else row 2 is stale and no refresh on its way. */
  lemma SilentEditBelow(s: Sys, final: CodeUnit, n: nat)
    requires SysInv(s) && UpToDate(s) && s.pending.Idle? && s.mode == Ground && s.high == []
    requires AtBottom(s.emu) && s.emu.buf.y == 0 && s.emu.buf.rows >= 2
    requires EditsSilently(final) && (final == REP ==> Max(n, 1) <= s.emu.buf.cols)
    ensures CanWrite(s, EditBelow(final, n)) && SysInv(Write(s, EditBelow(final, n))) && Inv(SecondRow(s.emu.buf))
    ensures Coherent(Write(s, EditBelow(final, n))) <==> EditStays(SecondRow(s.emu.buf), s.emu.attr, final, Max(n, 1))
  {
    hide EmuInv, Inv, EditBuffer, EditStays, AdmissibleAll, ExecAll, NoteAll, Alike, View, Bare, EditBelow, EditBelowCommands;
    var e := s.emu;
    var data := EditBelow(final, n);
    AlreadyBegun(e);
    BeginFits(s);
    EditBelowScan(final, n);
    EditBelowRuns(e, BeginNote(s), final, n);
    WriteCoherentExactly(s, data);
    var t := Write(s, data);
    assert t.pending == Queued(0, 0, false);
    BelowRow(e, final, n);
    EditShows(SecondRow(e.buf), e.attr, final, [n]);
    forall r | 0 <= r < e.buf.rows && !Covered(t.pending, r)
      ensures Bare(t.emu, r) == Bare(e, r) <==> r != 1 || Alike(t.emu.buf.screen[1], e.buf.screen[1], e.buf.cols)
    {
      SameRows(e, t.emu);
      BareAlike(e, t.emu, r);
      if r != 1 { LineCoversEmu(e, r); AlikeItself(e.buf.screen[r], e.buf.cols); }
    }
    assert !Covered(t.pending, 1);
  }

  lemma LineCoversEmu(e: Emu, r: int)
    requires EmuInv(e) && 0 <= r < e.buf.rows
    ensures r < |e.buf.screen| && 0 <= e.buf.cols <= |e.buf.screen[r]|
  {
  }

  lemma BelowRow(e: Emu, final: CodeUnit, n: nat)
    requires EmuInv(e) && e.buf.rows >= 2 && EditsSilently(final) && Inv(SecondRow(e.buf))
    ensures var r := EditBuffer(SecondRow(e.buf), e.attr, final, [n]);
      && r.rows == e.buf.rows && r.cols == e.buf.cols && |r.screen| == |e.buf.screen| == e.buf.rows
      && CursorRowOf(SecondRow(e.buf)) == e.buf.screen[1]
      && forall i {:trigger r.screen[i]} :: 0 <= i < e.buf.rows && i != 1 ==> r.screen[i] == e.buf.screen[i]
    ensures Count([n]) == Max(n, 1)
  {
    hide InsertChars, DeleteChars, EraseChars, RepeatCell;
  }

  /** An instance: ICH 1 on a row with something visible in its first column. */
  lemma SilentInsertGoesStale(s: Sys)
    requires SysInv(s) && UpToDate(s) && s.pending.Idle? && s.mode == Ground && s.high == []
    requires AtBottom(s.emu) && s.emu.buf.y == 0 && s.emu.buf.rows >= 2
    requires var c := s.emu.buf.screen[1][0]; c.width != 0 && Spell(c.ch) != NBSP_ENTITY
    ensures CanWrite(s, EditBelow(ICH, 1))
    ensures var t := Write(s, EditBelow(ICH, 1)); SysInv(t) && !Coherent(t)
  {
    hide SysInv, Coherent, UpToDate, CanWrite, EditBelow;
    SilentEditBelow(s, ICH, 1);
    var b, blank := SecondRow(s.emu.buf), Blank(EraseAttr(s.emu.attr));
    var c := CursorRowOf(b)[0];
    assert Spell(blank.ch) == NBSP_ENTITY;
    assert LookOf(c) != LookOf(blank);
    if b.cols == 1 { assert Cells(b, 0, 1)[0] == c; } else { assert Cells(b, 0, b.cols - 1)[0] == c; }
  }
}
