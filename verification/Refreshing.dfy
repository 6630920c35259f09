/** The render cache: which rows on display may be stale, and why a refresh that
    covers them is always on its way. */
module Refreshing {
  import opened Sequences
  import opened Buffer
  import opened Resizing
  import opened Emulator
  import opened Parser
  import opened Effects
  import opened Rendering

  /** The rows a write has touched so far: refreshStart and refreshEnd. */
  datatype Range = Range(lo: int, hi: int)

  /** A timer with the range it was set up for, and whether a second request came in
      the meantime. */
  datatype Pending = Idle | Queued(lo: int, hi: int, full: bool)

  /** The rows a command announces or changes. */
  datatype Interval = Nowhere | Rows(lo: int, hi: int)

  /** `updateRange` on both ends of an interval. */
  function Widen(r: Range, i: Interval): Range {
    match i
    case Nowhere => r
    case Rows(lo, hi) => Range(Min(r.lo, lo), Max(r.hi, hi))
  }

  /** `refresh(lo, hi)`, queued. */
  function Request(p: Pending, r: Range): Pending {
    match p
    case Idle => Queued(r.lo, r.hi, false)
    case Queued(_, _, _) => p.(full := true)
  }

  function RequestAll(p: Pending, rs: seq<Range>): Pending
    decreases |rs|
  {
    if rs == [] then p else RequestAll(Request(p, rs[0]), rs[1..])
  }

  function WholeScreen(e: Emu): Range { Range(0, e.buf.rows - 1) }

  // ---- What a command announces ---------------------------------------------------

  function Region(b: Buf): Interval { Rows(b.top, b.bottom) }

  function PrintAnnounces(b: Buf, wrap: bool, w: nat): Interval {
    if (w == 0 && b.x > 0) || !Overflows(b, w) then Rows(b.y, b.y)
    else if wrap then
      if AtMargin(b) then Rows(Min(b.top, b.y), Max(b.bottom, b.y)) else Rows(b.y + 1, b.y + 1)
    else if w == 2 then Nowhere
    else Rows(b.y, b.y)
  }

  /** ICH, DCH, ECH and REP announce nothing. */
  function CsiAnnounces(b: Buf, final: CodeUnit, ps: seq<nat>, prefix: Text): Interval
    requires |ps| >= 1
  {
    match final
    case ED =>
      if ps[0] == 0 then Rows(b.y, b.rows - 1)
      else if ps[0] == 1 then Rows(0, b.y)
      else if ps[0] == 2 then Rows(0, b.rows - 1)
      else Nowhere
    case EL => if ps[0] <= 2 then Rows(b.y, b.y) else Nowhere
    case IL => Rows(Min(b.y, b.bottom), Max(b.y, b.bottom))
    case DL => Rows(Min(b.y, b.bottom), Max(b.y, b.bottom))
    case SU => Region(b)
    case SD => if |ps| < 2 && prefix == [] then Region(b) else Nowhere
    case _ => Nowhere
  }

  function Announces(e: Emu, c: Cmd): Interval
    requires WellFormed(c)
  {
    match c
    case Print(_, w) => PrintAnnounces(e.buf, e.wrap, w)
    case LineFeed => if AtMargin(e.buf) then Region(e.buf) else Nowhere
    case NextLine => if AtMargin(e.buf) then Region(e.buf) else Nowhere
    case IndexDown => if AtMargin(e.buf) then Region(e.buf) else Nowhere
    case IndexUp => if e.buf.y - 1 < e.buf.top then Region(e.buf) else Nowhere
    case Csi(final, ps, prefix) => CsiAnnounces(e.buf, final, ps, prefix)
    case _ => Nowhere
  }

  predicate EditsSilently(final: CodeUnit) { final == ICH || final == DCH || final == ECH || final == REP }

  /** The rows it can change: more than announced for the silent edits, and for RI
      above the top margin, which moves everything from the cursor down. */
  function Changes(e: Emu, c: Cmd): Interval
    requires WellFormed(c)
  {
    match c
    case IndexUp => if e.buf.y - 1 < e.buf.top then Rows(e.buf.y, e.buf.bottom) else Nowhere
    case Csi(final, _, _) => if EditsSilently(final) then Rows(e.buf.y, e.buf.y) else Announces(e, c)
    case _ => Announces(e, c)
  }

  predicate Within(i: Interval, r: Range) {
    match i
    case Nowhere => true
    case Rows(lo, hi) => r.lo <= lo && hi <= r.hi
  }

  // ---- Refreshes requested in the middle of a write -----------------------------------

  function SetModeRequests(e: Emu, prefix: Text, p: nat): seq<Range> {
    if prefix == PRIVATE && p == 3 && e.buf.cols != 132 then [WholeScreen(e)]
    else if prefix == PRIVATE && IsAltMode(p) && e.normal.None? then [WholeScreen(e), Range(0, 0)]
    else []
  }

  function SetModesRequests(e: Emu, prefix: Text, ps: seq<nat>): seq<Range>
    requires EmuInv(e)
    decreases |ps|
  {
    if ps == [] then []
    else SetModeRequests(e, prefix, ps[0]) +
         SetModesRequests(SetMode(e, prefix, ps[0]), PrefixAfter(e, prefix, ps[0]), ps[1..])
  }

  function ResetModeRequests(e: Emu, prefix: Text, p: nat): seq<Range> {
    if prefix == PRIVATE && p == 3 && e.buf.cols == 132 && e.savedCols.Some? && e.savedCols.value != 132 then [WholeScreen(e)]
    else if prefix == PRIVATE && IsAltMode(p) && e.normal.Some? then
      [WholeScreen(e)] + if e.shown then [] else [Range(e.normal.value.y, e.normal.value.y)]
    else []
  }

  function ResetModesRequests(e: Emu, prefix: Text, ps: seq<nat>): seq<Range>
    requires EmuInv(e)
    decreases |ps|
  {
    if ps == [] then []
    else ResetModeRequests(e, prefix, ps[0]) + ResetModesRequests(ResetMode(e, prefix, ps[0]), prefix, ps[1..])
  }

  function Requests(e: Emu, c: Cmd): seq<Range>
    requires EmuInv(e)
  {
    match c
    case FullReset => [WholeScreen(e)]
    case Csi(final, ps, prefix) =>
      if final == SM then SetModesRequests(e, prefix, ps)
      else if final == RM then ResetModesRequests(e, prefix, ps)
      else []
    case _ => []
  }

  // ---- The viewport -------------------------------------------------------------------

  ghost predicate AtBottom(e: Emu) { e.buf.ydisp == |e.buf.history| }

  ghost predicate SavedAtBottom(e: Emu) {
    e.normal.Some? ==> e.normal.value.ydisp == |e.normal.value.history|
  }

  predicate CursorVisible(e: Emu) { e.shown && !e.hidden }

  /** The column of the cursor if it is on viewport row r, or -1. */
  function CursorOn(e: Emu, r: int): int {
    if e.buf.y == r - (|e.buf.history| - e.buf.ydisp) && CursorVisible(e) then e.buf.x else -1
  }

  function ViewLine(e: Emu, r: int): Line
    requires EmuInv(e) && 0 <= r < e.buf.rows
  {
    Lines(e.buf)[r + e.buf.ydisp]
  }

  /** What viewport row r should look like. */
  function View(e: Emu, r: int): Markup
    requires EmuInv(e) && 0 <= r < e.buf.rows
  {
    ViewLineCovers(e, r);
    Render(ViewLine(e, r), e.buf.cols, CursorOn(e, r))
  }

  lemma ViewLineCovers(e: Emu, r: int)
    requires EmuInv(e) && 0 <= r < e.buf.rows
    ensures |ViewLine(e, r)| >= e.buf.cols
    ensures AtBottom(e) ==> ViewLine(e, r) == e.buf.screen[r]
  {
  }

  // ---- What commands do to rows ----------------------------------------------------------

  /** Rows outside i, the size and the viewport are as before. */
  ghost predicate RowsKept(e: Emu, f: Emu, i: Interval) {
    && f.buf.rows == e.buf.rows && f.buf.cols == e.buf.cols && |f.buf.screen| == |e.buf.screen|
    && (AtBottom(e) ==> AtBottom(f)) && (SavedAtBottom(e) ==> SavedAtBottom(f))
    && forall r {:trigger f.buf.screen[r]} :: 0 <= r < |e.buf.screen| && !(i.Rows? && i.lo <= r <= i.hi) ==>
         f.buf.screen[r] == e.buf.screen[r]
  }

  lemma SilentModeKeepsRows(e: Emu, prefix: Text, p: nat)
    requires EmuInv(e)
    ensures SetModeRequests(e, prefix, p) == [] ==>
      var f := SetMode(e, prefix, p); f.buf == e.buf && f.normal == e.normal
    ensures ResetModeRequests(e, prefix, p) == [] ==>
      var f := ResetMode(e, prefix, p); f.buf == e.buf && f.normal == e.normal
  {
    hide EmuInv, EnterAlt, LeaveAlt;
    if prefix == PRIVATE && IsAltMode(p) { AltModeTwice(e); }
  }

  lemma AltModeTwice(e: Emu)
    requires EmuInv(e)
    ensures e.normal.Some? ==> EnterAlt(e) == e
    ensures e.normal.None? ==> LeaveAlt(e) == e
  {
  }

  lemma {:induction false} SilentModesKeepRows(e: Emu, prefix: Text, ps: seq<nat>)
    requires EmuInv(e)
    ensures SetModesRequests(e, prefix, ps) == [] ==>
      var f := SetModes(e, prefix, ps); f.buf == e.buf && f.normal == e.normal
    ensures ResetModesRequests(e, prefix, ps) == [] ==>
      var f := ResetModes(e, prefix, ps); f.buf == e.buf && f.normal == e.normal
    decreases |ps|
  {
    hide EmuInv, SetMode, ResetMode, SetModeRequests, ResetModeRequests, PrefixAfter;
    if ps != [] {
      SilentModeKeepsRows(e, prefix, ps[0]);
      SilentModesKeepRows(SetMode(e, prefix, ps[0]), PrefixAfter(e, prefix, ps[0]), ps[1..]);
      SilentModesKeepRows(ResetMode(e, prefix, ps[0]), prefix, ps[1..]);
    }
  }

  /** The buffer's share: rows outside i as before, viewport at the bottom if it was. */
  ghost predicate BufRowsKept(b: Buf, r: Buf, i: Interval) {
    && r.rows == b.rows && r.cols == b.cols && |r.screen| == |b.screen|
    && (b.ydisp == |b.history| ==> r.ydisp == |r.history|)
    && forall k {:trigger r.screen[k]} :: 0 <= k < |b.screen| && !(i.Rows? && i.lo <= k <= i.hi) ==>
         r.screen[k] == b.screen[k]
  }

  /** An interval that stays on the screen. */
  predicate OnScreen(i: Interval, rows: int) { i.Rows? ==> 0 <= i.lo <= i.hi < rows }

  lemma EditsKeepRows(b: Buf, r: Buf, lo: int, hi: int)
    requires Edits(b, r, lo, hi)
    ensures BufRowsKept(b, r, Rows(lo, hi))
  {
  }

  lemma IndexKeepsRows(b: Buf, scrollback: nat)
    requires Inv(b) && scrollback != 1
    ensures BufRowsKept(b, Index(b, scrollback), if AtMargin(b) then Region(b) else Nowhere)
  {
    hide ScrolledHistory;
  }

  lemma PutKeepsRows(e: Emu, ch: Text, w: nat)
    requires EmuInv(e) && w <= 2 && !(w == 2 && e.buf.cols == 1 && e.wrap)
    ensures BufRowsKept(e.buf, Put(e.buf, e.cfg.scrollback, e.wrap, e.insert, e.attr, ch, w), PrintAnnounces(e.buf, e.wrap, w))
    ensures OnScreen(PrintAnnounces(e.buf, e.wrap, w), e.buf.rows)
  {
    hide Place, Combine, Index;
    var b := e.buf;
    IndexKeepsRows(b.(x := 0), e.cfg.scrollback);
    IndexRow(b.(x := 0), e.cfg.scrollback);
  }

  lemma IndexRow(b: Buf, scrollback: nat)
    requires Inv(b) && scrollback != 1
    ensures Index(b, scrollback).y == if AtMargin(b) then b.y else b.y + 1
  {
  }

  lemma EditBufferKeepsRows(b: Buf, attr: nat, final: CodeUnit, ps: seq<nat>, prefix: Text)
    requires Inv(b) && |ps| >= 1 && IsEdit(final)
    ensures var i := if EditsSilently(final) then Rows(b.y, b.y) else CsiAnnounces(b, final, ps, prefix);
      BufRowsKept(b, EditBuffer(b, attr, final, ps), i) && OnScreen(i, b.rows)
  {
    hide InsertChars, DeleteChars, EraseChars, RepeatCell, InsertLines, DeleteLines, ScrollUp, EraseInDisplay, EraseInLine;
  }

  /** No command touches a row outside the interval it is said to change. */
  lemma CommandKeepsRows(e: Emu, c: Cmd)
    requires EmuInv(e) && WellFormed(c) && Admissible(e, c) && Requests(e, c) == []
    ensures RowsKept(e, Exec(e, c), Changes(e, c))
    ensures OnScreen(Changes(e, c), e.buf.rows) && OnScreen(Announces(e, c), e.buf.rows)
  {
    match c
    case Print(ch, w) =>
      PutKeepsRows(e, Translate(e.charsets.current, ch), w);
      hide Put, Translate, PrintAnnounces;
    case LineFeed => IndexCommandKeepsRows(e, c);
    case NextLine => IndexCommandKeepsRows(e, c);
    case IndexDown => IndexCommandKeepsRows(e, c);
    case Csi(final, ps, prefix) => CsiKeepsRows(e, final, ps, prefix);
    case _ => hide ReportStatus, StatusReply;
  }

  lemma IndexCommandKeepsRows(e: Emu, c: Cmd)
    requires EmuInv(e) && (c.LineFeed? || c.NextLine? || c.IndexDown?)
    ensures RowsKept(e, Exec(e, c), Announces(e, c)) && OnScreen(Announces(e, c), e.buf.rows)
  {
    hide Index;
    IndexKeepsRows(e.buf, e.cfg.scrollback);
    IndexKeepsRows(e.buf.(x := 0), e.cfg.scrollback);
  }

  lemma CsiKeepsRows(e: Emu, final: CodeUnit, ps: seq<nat>, prefix: Text)
    requires EmuInv(e) && |ps| >= 1 && Requests(e, Csi(final, ps, prefix)) == []
    ensures var c := Csi(final, ps, prefix);
      RowsKept(e, Exec(e, c), Changes(e, c))
      && OnScreen(Changes(e, c), e.buf.rows) && OnScreen(Announces(e, c), e.buf.rows)
  {
    hide MoveCursor, EditBuffer, ExecOther;
    if IsEdit(final) {
      EditBufferKeepsRows(e.buf, e.attr, final, ps, prefix);
    } else if !IsMove(final) {
      OtherCsiKeepsRows(e, final, ps, prefix);
    }
  }

  lemma OtherCsiKeepsRows(e: Emu, final: CodeUnit, ps: seq<nat>, prefix: Text)
    requires EmuInv(e) && |ps| >= 1 && Requests(e, Csi(final, ps, prefix)) == []
    requires !IsEdit(final) && !IsMove(final)
    ensures var i := CsiAnnounces(e.buf, final, ps, prefix);
      RowsKept(e, ExecOther(e, final, ps, prefix), i) && OnScreen(i, e.buf.rows) && !EditsSilently(final)
  {
    hide SetModes, ResetModes, DeviceStatus, DeviceAttributes, SetModesRequests, ResetModesRequests, ScrollDown;
    if final == SM || final == RM {
      SilentModesKeepRows(e, prefix, ps);
    } else if final == SD {
      EditsKeepRows(e.buf, ScrollDown(e.buf, Count(ps)), e.buf.top, e.buf.bottom);
    } else {
      QuietCsiKeepsRows(e, final, ps, prefix);
    }
  }

  lemma QuietCsiKeepsRows(e: Emu, final: CodeUnit, ps: seq<nat>, prefix: Text)
    requires EmuInv(e) && |ps| >= 1
    requires !IsEdit(final) && !IsMove(final) && final != SM && final != RM && final != SD
    ensures var r := ExecOther(e, final, ps, prefix);
      && r.normal == e.normal
      && r.buf == e.buf.(x := r.buf.x, y := r.buf.y, top := r.buf.top, bottom := r.buf.bottom, tabs := r.buf.tabs)
  {
    hide DeviceStatus, DeviceAttributes, EmuInv, Inv;
  }

  // ---- Commands that ask for a refresh themselves --------------------------------------------

  ghost predicate SameHeight(e: Emu, f: Emu) {
    f.buf.rows == e.buf.rows && (AtBottom(e) && SavedAtBottom(e) ==> AtBottom(f) && SavedAtBottom(f))
  }

  lemma ModeKeepsHeight(e: Emu, prefix: Text, p: nat)
    requires EmuInv(e)
    ensures SameHeight(e, SetMode(e, prefix, p)) && SameHeight(e, ResetMode(e, prefix, p))
  {
    SetModeKeepsHeight(e, prefix, p);
    ResetModeKeepsHeight(e, prefix, p);
  }

  lemma SetModeKeepsHeight(e: Emu, prefix: Text, p: nat)
    requires EmuInv(e)
    ensures SameHeight(e, SetMode(e, prefix, p))
  {
    hide ResizeTo, EnterAlt, EmuInv, PlainAll;
    if prefix == PRIVATE && p == 3 {
      var f := e.(savedCols := Some(e.buf.cols));
      assert EmuInv(f) by { SavedColsAreFree(e, f.savedCols); }
      WidthKeepsHeight(f, 132);
      assert SetMode(e, prefix, p) == ResizeTo(f, 132, e.buf.rows);
    } else if prefix == PRIVATE && IsAltMode(p) {
      AltKeepsHeight(e);
    } else {
      assert SetMode(e, prefix, p).buf == e.buf && SetMode(e, prefix, p).normal == e.normal;
    }
  }

  lemma SavedColsAreFree(e: Emu, cols: Option<int>)
    requires EmuInv(e) && (cols == None || cols == Some(e.buf.cols))
    ensures EmuInv(e.(savedCols := cols))
  {
  }

  lemma ResetModeKeepsHeight(e: Emu, prefix: Text, p: nat)
    requires EmuInv(e)
    ensures SameHeight(e, ResetMode(e, prefix, p))
  {
    hide ResizeTo, LeaveAlt, EmuInv;
    if prefix == PRIVATE && p == 3 {
      if e.savedCols.Some? { WidthKeepsHeight(e, e.savedCols.value); }
    } else if prefix == PRIVATE && IsAltMode(p) {
      AltKeepsHeight(e);
    } else {
      assert ResetMode(e, prefix, p).buf == e.buf && ResetMode(e, prefix, p).normal == e.normal;
    }
  }

  lemma WidthKeepsHeight(e: Emu, cols: int)
    requires EmuInv(e)
    ensures SameHeight(e, ResizeTo(e, cols, e.buf.rows))
  {
    hide Resize;
    ResizeColsKeepsBottom(e.buf, cols);
  }

  lemma AltKeepsHeight(e: Emu)
    requires EmuInv(e)
    ensures SameHeight(e, EnterAlt(e)) && SameHeight(e, LeaveAlt(e))
  {
    FreshAtBottom(e.buf.rows, e.buf.cols);
    hide FreshBuf;
  }

  lemma FreshAtBottom(rows: int, cols: int)
    requires 1 <= rows && 1 <= cols
    ensures var b := FreshBuf(rows, cols); b.rows == rows && b.cols == cols && b.ydisp == |b.history|
  {
  }

  lemma ResizeColsKeepsBottom(b: Buf, cols: int)
    requires Inv(b)
    ensures var r := Resize(b, cols, b.rows);
      r.rows == b.rows && (b.ydisp == |b.history| ==> r.ydisp == |r.history|)
  {
    hide Inv;
    if cols != b.cols { FittedHistory(b, Max(cols, 1)); }
  }

  lemma FittedHistory(b: Buf, cols: int)
    requires Inv(b) && 1 <= cols
    ensures var f := FitCols(b, cols);
      |f.history| == |b.history| && f.ydisp == b.ydisp && f.rows == b.rows && f.y == b.y < b.rows && 1 <= b.rows
  {
  }

  lemma {:induction false} ModesKeepHeight(e: Emu, prefix: Text, ps: seq<nat>)
    requires EmuInv(e)
    ensures SameHeight(e, SetModes(e, prefix, ps)) && SameHeight(e, ResetModes(e, prefix, ps))
    decreases |ps|
  {
    hide EmuInv, SetMode, ResetMode, PrefixAfter;
    if ps != [] {
      ModeKeepsHeight(e, prefix, ps[0]);
      ModesKeepHeight(SetMode(e, prefix, ps[0]), PrefixAfter(e, prefix, ps[0]), ps[1..]);
      ModesKeepHeight(ResetMode(e, prefix, ps[0]), prefix, ps[1..]);
    }
  }

  lemma FirstRequest(e: Emu, prefix: Text, p: nat)
    ensures var rs := SetModeRequests(e, prefix, p); rs != [] ==> rs[0] == WholeScreen(e)
    ensures var rs := ResetModeRequests(e, prefix, p); rs != [] ==> rs[0] == WholeScreen(e)
  {
  }

  /** The first thing asked for is always the whole screen. */
  lemma {:induction false} ModesRequestWholeScreen(e: Emu, prefix: Text, ps: seq<nat>)
    requires EmuInv(e)
    ensures var rs := SetModesRequests(e, prefix, ps); rs != [] ==> rs[0] == WholeScreen(e)
    ensures var rs := ResetModesRequests(e, prefix, ps); rs != [] ==> rs[0] == WholeScreen(e)
    decreases |ps|
  {
    hide EmuInv, SetMode, ResetMode, PrefixAfter, SetModeRequests, ResetModeRequests;
    if ps != [] {
      SilentModeKeepsRows(e, prefix, ps[0]);
      FirstRequest(e, prefix, ps[0]);
      ModesRequestWholeScreen(SetMode(e, prefix, ps[0]), PrefixAfter(e, prefix, ps[0]), ps[1..]);
      ModesRequestWholeScreen(ResetMode(e, prefix, ps[0]), prefix, ps[1..]);
    }
  }

  lemma RequestsWholeScreen(e: Emu, c: Cmd)
    requires EmuInv(e) && WellFormed(c) && Admissible(e, c)
    ensures Requests(e, c) != [] ==> Requests(e, c)[0] == WholeScreen(e)
    ensures SameHeight(e, Exec(e, c))
  {
    if c.FullReset? {
      FreshAtBottom(e.buf.rows, e.buf.cols);
      hide FreshBuf;
    } else if c.Csi? && (c.final == SM || c.final == RM) {
      ModeCommandRequests(e, c);
    } else {
      assert Requests(e, c) == [];
      CommandKeepsRows(e, c);
      hide *;
      KeptHeight(e, Exec(e, c), Changes(e, c));
    }
  }

  lemma KeptHeight(e: Emu, f: Emu, i: Interval)
    requires RowsKept(e, f, i)
    ensures SameHeight(e, f)
  {
  }

  lemma ModeCommandRequests(e: Emu, c: Cmd)
    requires EmuInv(e) && WellFormed(c) && c.Csi? && (c.final == SM || c.final == RM)
    ensures Requests(e, c) != [] ==> Requests(e, c)[0] == WholeScreen(e)
    ensures SameHeight(e, Exec(e, c))
  {
    ModesRequestWholeScreen(e, c.prefix, c.params);
    ModesKeepHeight(e, c.prefix, c.params);
    assert Exec(e, c) == if c.final == SM then SetModes(e, c.prefix, c.params) else ResetModes(e, c.prefix, c.params) by {
      hide SetModes, ResetModes, EmuInv;
    }
    hide SetModes, ResetModes, SetModesRequests, ResetModesRequests, EmuInv, SameHeight, Exec;
  }

  // ---- One write ---------------------------------------------------------------------------------

  /** Every row is covered by the pending refresh. */
  ghost predicate AllCovered(p: Pending, rows: int) {
    p.Queued? && (p.full || (p.lo <= 0 && rows - 1 <= p.hi))
  }

  ghost predicate Covered(p: Pending, r: int) { p.Queued? && (p.full || p.lo <= r <= p.hi) }

  /** What a timer will do stays on the screen. */
  ghost predicate PendingOk(p: Pending, rows: int) {
    p.Queued? && !p.full ==> 0 <= p.lo <= p.hi < rows
  }

  lemma RequestAllCovers(p: Pending, rs: seq<Range>, rows: int)
    requires PendingOk(p, rows) && 1 <= rows
    requires |rs| > 0 && rs[0] == Range(0, rows - 1)
    ensures AllCovered(RequestAll(p, rs), rows) && PendingOk(RequestAll(p, rs), rows)
  {
    MoreRequests(Request(p, rs[0]), rs[1..], rows);
  }

  lemma {:induction false} MoreRequests(p: Pending, rs: seq<Range>, rows: int)
    requires AllCovered(p, rows) && PendingOk(p, rows)
    ensures AllCovered(RequestAll(p, rs), rows) && PendingOk(RequestAll(p, rs), rows)
    decreases |rs|
  {
    if rs != [] { MoreRequests(Request(p, rs[0]), rs[1..], rows); }
  }

  /** The bookkeeping of a write in progress. */
  datatype Note = Note(range: Range, pending: Pending)

  ghost function NoteCommand(n: Note, e: Emu, c: Cmd): Note
    requires EmuInv(e) && WellFormed(c)
  {
    Note(Widen(n.range, Announces(e, c)), RequestAll(n.pending, Requests(e, c)))
  }

  ghost function NoteAll(n: Note, e: Emu, cmds: seq<Cmd>): Note
    requires EmuInv(e) && AllWellFormed(cmds) && AdmissibleAll(e, cmds)
    decreases |cmds|
  {
    if cmds == [] then n
    else
      ExecKeepsInvariant(e, cmds[0]);
      NoteAll(NoteCommand(n, e, cmds[0]), Exec(e, cmds[0]), cmds[1..])
  }

  /** Every change is heard of: it lies within what the write announces, or a refresh
      of everything is on its way anyway. Only the silent edits and RI above the top
      margin can fail this, and only away from the rows announced so far. */
  ghost predicate Heard(n: Note, e: Emu, c: Cmd)
    requires EmuInv(e) && WellFormed(c)
  {
    var m := NoteCommand(n, e, c);
    Within(Changes(e, c), m.range) || AllCovered(m.pending, e.buf.rows)
  }

  ghost predicate HeardAll(n: Note, e: Emu, cmds: seq<Cmd>)
    requires EmuInv(e) && AllWellFormed(cmds) && AdmissibleAll(e, cmds)
    decreases |cmds|
  {
    cmds == [] || (
      Heard(n, e, cmds[0]) && (
        ExecKeepsInvariant(e, cmds[0]);
        HeardAll(NoteCommand(n, e, cmds[0]), Exec(e, cmds[0]), cmds[1..])))
  }

  /** A command that announces what it changes is always heard. */
  lemma MostCommandsAreHeard(n: Note, e: Emu, c: Cmd)
    requires EmuInv(e) && WellFormed(c)
    ensures !(c.Csi? && EditsSilently(c.final)) && !(c.IndexUp? && e.buf.y < e.buf.top) ==> Heard(n, e, c)
  {
  }

  /** Commands that announce all they change wherever the cursor is. */
  ghost predicate AllSpoken(cmds: seq<Cmd>) {
    forall i {:trigger cmds[i]} :: 0 <= i < |cmds| ==> !(cmds[i].Csi? && EditsSilently(cmds[i].final)) && !cmds[i].IndexUp?
  }

  /** So a write without ICH, DCH, ECH, REP and RI is heard from end to end. */
  lemma {:induction false} SpokenRunsAreHeard(n: Note, e: Emu, cmds: seq<Cmd>)
    requires EmuInv(e) && AllWellFormed(cmds) && AdmissibleAll(e, cmds) && AllSpoken(cmds)
    ensures HeardAll(n, e, cmds)
    decreases |cmds|
  {
    hide Exec, EmuInv, Admissible, WellFormed, Heard, NoteCommand;
    if cmds != [] {
      MostCommandsAreHeard(n, e, cmds[0]);
      ExecKeepsInvariant(e, cmds[0]);
      SpokenRunsAreHeard(NoteCommand(n, e, cmds[0]), Exec(e, cmds[0]), cmds[1..]);
    }
  }

  /** While a write is in progress: a row outside the announced range and not covered
      by a refresh is displayed as it is, without a cursor. */
  ghost predicate Tracks(n: Note, e: Emu, rows: seq<Markup>)
    requires EmuInv(e)
  {
    && |rows| == e.buf.rows && AtBottom(e) && SavedAtBottom(e)
    && 0 <= n.range.lo <= n.range.hi < e.buf.rows
    && PendingOk(n.pending, e.buf.rows)
    && (AllCovered(n.pending, e.buf.rows) ||
        forall r {:trigger rows[r]} :: 0 <= r < e.buf.rows && !(n.range.lo <= r <= n.range.hi) && !Covered(n.pending, r) ==>
          rows[r] == Bare(e, r))
  }

  /** Row r of the screen without a cursor. */
  function Bare(e: Emu, r: int): Markup
    requires EmuInv(e) && 0 <= r < e.buf.rows
  {
    Render(e.buf.screen[r], e.buf.cols, -1)
  }

  lemma StepTracks(n: Note, e: Emu, c: Cmd, rows: seq<Markup>)
    requires EmuInv(e) && WellFormed(c) && Admissible(e, c) && Tracks(n, e, rows) && Heard(n, e, c)
    ensures EmuInv(Exec(e, c)) && Tracks(NoteCommand(n, e, c), Exec(e, c), rows)
  {
    ExecKeepsInvariant(e, c);
    RequestsWholeScreen(e, c);
    var m, f := NoteCommand(n, e, c), Exec(e, c);
    if Requests(e, c) == [] {
      CommandKeepsRows(e, c);
      StepTracksRows(n, m, e, f, Announces(e, c), Changes(e, c), rows);
    } else {
      RequestAllCovers(n.pending, Requests(e, c), e.buf.rows);
      AnnouncesNothing(e, c);
    }
  }

  lemma AnnouncesNothing(e: Emu, c: Cmd)
    requires EmuInv(e) && WellFormed(c) && Requests(e, c) != []
    ensures Announces(e, c) == Nowhere
  {
    hide SetModesRequests, ResetModesRequests, PrintAnnounces, AtMargin, WholeScreen;
  }

  lemma StepTracksRows(n: Note, m: Note, e: Emu, f: Emu, said: Interval, done: Interval, rows: seq<Markup>)
    requires EmuInv(e) && EmuInv(f) && Tracks(n, e, rows)
    requires m == Note(Widen(n.range, said), n.pending) && OnScreen(said, e.buf.rows)
    requires RowsKept(e, f, done)
    requires Within(done, m.range) || AllCovered(m.pending, e.buf.rows)
    ensures Tracks(m, f, rows)
  {
    assert |e.buf.screen| == e.buf.rows;
    hide Render, EmuInv;
    if !AllCovered(m.pending, e.buf.rows) {
      forall r | 0 <= r < f.buf.rows && !(m.range.lo <= r <= m.range.hi) && !Covered(m.pending, r)
        ensures rows[r] == Bare(f, r)
      {
        assert f.buf.screen[r] == e.buf.screen[r];
        assert rows[r] == Bare(e, r);
      }
    }
  }

  lemma {:induction false} RunTracks(n: Note, e: Emu, cmds: seq<Cmd>, rows: seq<Markup>)
    requires EmuInv(e) && AllWellFormed(cmds) && AdmissibleAll(e, cmds)
    requires Tracks(n, e, rows) && HeardAll(n, e, cmds)
    ensures Tracks(NoteAll(n, e, cmds), ExecAll(e, cmds), rows)
    decreases |cmds|
  {
    hide Exec, EmuInv, Admissible, WellFormed, Tracks, Heard, NoteCommand;
    if cmds != [] {
      StepTracks(n, e, cmds[0], rows);
      ExecKeepsInvariant(e, cmds[0]);
      RunTracks(NoteCommand(n, e, cmds[0]), Exec(e, cmds[0]), cmds[1..], rows);
    }
  }

  // ---- What every write keeps, heard or not ---------------------------------------------------------

  /** The bookkeeping of a write stays on the screen, and the viewport at the bottom. */
  ghost predicate Fits(n: Note, e: Emu) {
    && AtBottom(e) && SavedAtBottom(e)
    && 0 <= n.range.lo <= n.range.hi < e.buf.rows && PendingOk(n.pending, e.buf.rows)
  }

  /** The range only widens, and a pending refresh is not called off. */
  ghost predicate Grows(n: Note, m: Note) {
    && m.range.lo <= n.range.lo && n.range.hi <= m.range.hi
    && (m.pending.Idle? ==> n.pending.Idle?)
  }

  lemma StepFits(n: Note, e: Emu, c: Cmd)
    requires EmuInv(e) && WellFormed(c) && Admissible(e, c) && Fits(n, e)
    ensures Fits(NoteCommand(n, e, c), Exec(e, c)) && Grows(n, NoteCommand(n, e, c))
    ensures Exec(e, c).buf.rows == e.buf.rows
  {
    hide EmuInv, Exec, Admissible, Announces, Requests;
    RequestsWholeScreen(e, c);
    if Requests(e, c) == [] {
      CommandKeepsRows(e, c);
    } else {
      AnnouncesNothing(e, c);
      RequestAllCovers(n.pending, Requests(e, c), e.buf.rows);
    }
  }

  lemma {:induction false} RunFits(n: Note, e: Emu, cmds: seq<Cmd>)
    requires EmuInv(e) && AllWellFormed(cmds) && AdmissibleAll(e, cmds) && Fits(n, e)
    ensures Fits(NoteAll(n, e, cmds), ExecAll(e, cmds)) && Grows(n, NoteAll(n, e, cmds))
    ensures ExecAll(e, cmds).buf.rows == e.buf.rows
    decreases |cmds|
  {
    hide Exec, EmuInv, Admissible, WellFormed, Fits, NoteCommand;
    if cmds != [] {
      ExecKeepsInvariant(e, cmds[0]);
      StepFits(n, e, cmds[0]);
      RunFits(NoteCommand(n, e, cmds[0]), Exec(e, cmds[0]), cmds[1..]);
    }
  }
}
