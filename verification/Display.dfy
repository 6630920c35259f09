/** A terminal on display, driven by events: writes, refresh timers, resizes,
    viewport scrolls and the cursor appearing. */
module Display {
  import opened Sequences
  import opened Buffer
  import opened Resizing
  import opened Emulator
  import opened Parser
  import opened Rendering
  import opened Refreshing

  /** rows is what was last rendered into the row elements. */
  datatype Sys = Sys(mode: Mode, high: Text, emu: Emu, pending: Pending, rows: seq<Markup>)

  ghost predicate SysInv(s: Sys) {
    && EmuInv(s.emu) && SavedAtBottom(s.emu)
    && |s.rows| == s.emu.buf.rows && PendingOk(s.pending, s.emu.buf.rows)
  }

  /** Every row that differs from what it should show is covered by the pending refresh. */
  ghost predicate Coherent(s: Sys)
    requires SysInv(s)
  {
    forall r {:trigger s.rows[r]} :: 0 <= r < s.emu.buf.rows && !Covered(s.pending, r) ==> s.rows[r] == View(s.emu, r)
  }

  ghost predicate UpToDate(s: Sys)
    requires SysInv(s)
  {
    forall r {:trigger s.rows[r]} :: 0 <= r < s.emu.buf.rows ==> s.rows[r] == View(s.emu, r)
  }

  // ---- Writing ------------------------------------------------------------------

  /** A write first brings the viewport back to the bottom. */
  function Begin(e: Emu): (r: Emu)
    requires EmuInv(e)
    ensures EmuInv(r) && AtBottom(r)
  {
    e.(buf := e.buf.(ydisp := |e.buf.history|))
  }

  function BeginNote(s: Sys): Note {
    var b := s.emu.buf;
    Note(if b.ydisp != |b.history| then WholeScreen(s.emu) else Range(b.y, b.y), s.pending)
  }

  ghost predicate CanWrite(s: Sys, data: Text)
    requires SysInv(s)
  {
    AdmissibleAll(Begin(s.emu), Read(s.mode, s.high, data).cmds)
  }

  ghost function Write(s: Sys, data: Text): Sys
    requires SysInv(s) && CanWrite(s, data)
  {
    var read := Read(s.mode, s.high, data);
    var e := Begin(s.emu);
    var f := ExecAll(e, read.cmds);
    var n := NoteAll(BeginNote(s), e, read.cmds);
    Sys(read.mode, read.high, f, Request(n.pending, Widen(n.range, Rows(f.buf.y, f.buf.y))), s.rows)
  }

  lemma BeginTracks(s: Sys)
    requires SysInv(s) && Coherent(s)
    ensures Tracks(BeginNote(s), Begin(s.emu), s.rows)
  {
    var e, f, n := s.emu, Begin(s.emu), BeginNote(s);
    if AtBottom(e) {
      assert f == e;
      forall r | 0 <= r < e.buf.rows && r != e.buf.y && !Covered(n.pending, r) ensures s.rows[r] == Bare(e, r) {
        ViewLineCovers(e, r);
        assert s.rows[r] == View(e, r);
      }
    }
  }

  lemma EndIsCoherent(n: Note, s: Sys)
    requires EmuInv(s.emu) && Tracks(n, s.emu, s.rows)
    requires s.pending == Request(n.pending, Widen(n.range, Rows(s.emu.buf.y, s.emu.buf.y)))
    ensures SysInv(s) && Coherent(s)
  {
    var e := s.emu;
    forall r | 0 <= r < e.buf.rows && !Covered(s.pending, r) ensures s.rows[r] == View(e, r) {
      ViewLineCovers(e, r);
      assert s.rows[r] == Bare(e, r);
    }
  }

  /** After any write whose changes are all heard of, whatever is stale is covered. */
  lemma WriteKeepsCoherence(s: Sys, data: Text)
    requires SysInv(s) && Coherent(s) && CanWrite(s, data)
    requires HeardAll(BeginNote(s), Begin(s.emu), Read(s.mode, s.high, data).cmds)
    ensures SysInv(Write(s, data)) && Coherent(Write(s, data))
  {
    hide Read, ExecAll, NoteAll, EmuInv, AdmissibleAll, HeardAll;
    var cmds := Read(s.mode, s.high, data).cmds;
    BeginTracks(s);
    RunTracks(BeginNote(s), Begin(s.emu), cmds, s.rows);
    EndIsCoherent(NoteAll(BeginNote(s), Begin(s.emu), cmds), Write(s, data));
  }

  /** Every row that the write leaves to no refresh looks the same before and after it,
      the cursor aside. */
  ghost predicate RowsStay(s: Sys, data: Text)
    requires SysInv(s) && CanWrite(s, data)
  {
    var t := Write(s, data);
    EmuInv(t.emu) && t.emu.buf.rows == s.emu.buf.rows && forall r {:trigger Covered(t.pending, r)} ::
      0 <= r < s.emu.buf.rows && !Covered(t.pending, r) ==> Bare(t.emu, r) == Bare(Begin(s.emu), r)
  }

  lemma BeginFits(s: Sys)
    requires SysInv(s)
    ensures EmuInv(Begin(s.emu)) && Fits(BeginNote(s), Begin(s.emu)) && BeginNote(s).pending == s.pending
    ensures var r := BeginNote(s).range; if AtBottom(s.emu) then r == Range(s.emu.buf.y, s.emu.buf.y) else r == WholeScreen(s.emu)
  {
  }

  /** A row nobody will refresh was on display as it stood when the write began. */
  lemma UncoveredRow(s: Sys, n: Note, r: int)
    requires SysInv(s) && Coherent(s) && Grows(BeginNote(s), n) && n.pending.Idle?
    requires 0 <= r < s.emu.buf.rows && !(n.range.lo <= r <= n.range.hi)
    ensures AtBottom(s.emu) && s.rows[r] == Bare(Begin(s.emu), r)
  {
    BeginFits(s);
    assert AtBottom(s.emu);
    assert Begin(s.emu) == s.emu;
    ViewLineCovers(s.emu, r);
    assert s.rows[r] == View(s.emu, r);
  }

  /** The exact condition: a write keeps the display coherent if and only if the rows it
      leaves to no refresh still look as they did. */
  lemma WriteCoherentExactly(s: Sys, data: Text)
    requires SysInv(s) && Coherent(s) && CanWrite(s, data)
    ensures SysInv(Write(s, data)) && (Coherent(Write(s, data)) <==> RowsStay(s, data))
  {
    hide EmuInv, Read, AdmissibleAll, ExecAll, NoteAll, Grows, Fits, View, Bare, Render;
    var e, cmds := Begin(s.emu), Read(s.mode, s.high, data).cmds;
    var f, n, t := ExecAll(e, cmds), NoteAll(BeginNote(s), e, cmds), Write(s, data);
    BeginFits(s);
    RunFits(BeginNote(s), e, cmds);
    EndFits(n, f);
    if n.pending.Idle? {
      forall r | 0 <= r < f.buf.rows && !Covered(t.pending, r)
        ensures s.rows[r] == Bare(e, r) && View(f, r) == Bare(f, r)
      {
        UncoveredRow(s, n, r);
        BareView(f, r);
      }
    }
  }

  lemma BareView(e: Emu, r: int)
    requires EmuInv(e) && AtBottom(e) && 0 <= r < e.buf.rows
    ensures r != e.buf.y ==> View(e, r) == Bare(e, r)
  {
    ViewLineCovers(e, r);
  }

  lemma EndFits(n: Note, f: Emu)
    requires EmuInv(f) && Fits(n, f)
    ensures AtBottom(f) && SavedAtBottom(f)
    ensures PendingOk(Request(n.pending, Widen(n.range, Rows(f.buf.y, f.buf.y))), f.buf.rows)
    ensures var p := Request(n.pending, Widen(n.range, Rows(f.buf.y, f.buf.y)));
      forall r {:trigger Covered(p, r)} :: !Covered(p, r) ==>
        n.pending.Idle? && !(n.range.lo <= r <= n.range.hi) && r != f.buf.y
  {
  }

  /** In particular a write whose changes are all heard of leaves no such row looking
      different. */
  lemma HeardRowsStay(s: Sys, data: Text)
    requires SysInv(s) && Coherent(s) && CanWrite(s, data)
    requires HeardAll(BeginNote(s), Begin(s.emu), Read(s.mode, s.high, data).cmds)
    ensures RowsStay(s, data)
  {
    WriteKeepsCoherence(s, data);
    WriteCoherentExactly(s, data);
  }

  // ---- The timer -------------------------------------------------------------------

  /** The rows a firing timer renders. */
  function Due(s: Sys): Range
    requires s.pending.Queued?
  {
    if s.pending.full then WholeScreen(s.emu) else Range(s.pending.lo, s.pending.hi)
  }

  function Fire(s: Sys): Sys
    requires SysInv(s) && s.pending.Queued?
  {
    var due := Due(s);
    s.(pending := Idle,
       rows := seq(|s.rows|, r requires 0 <= r < |s.rows| && SysInv(s) =>
         if due.lo <= r <= due.hi then View(s.emu, r) else s.rows[r]))
  }

  /** The refresh stays on the screen, whatever resizes came in between, and leaves
      every row up to date. */
  lemma FireBringsUpToDate(s: Sys)
    requires SysInv(s) && Coherent(s) && s.pending.Queued?
    ensures 0 <= Due(s).lo <= Due(s).hi < s.emu.buf.rows
    ensures SysInv(Fire(s)) && UpToDate(Fire(s)) && Coherent(Fire(s))
  {
    hide View, EmuInv;
    assert 1 <= s.emu.buf.rows by { RowsPositive(s.emu); }
  }

  /** What a firing timer does to a row. */
  lemma FiredRow(s: Sys, r: int)
    requires SysInv(s) && s.pending.Queued? && 0 <= r < s.emu.buf.rows
    ensures |Fire(s).rows| == |s.rows| == s.emu.buf.rows
    ensures Fire(s).rows[r] == if Due(s).lo <= r <= Due(s).hi then View(s.emu, r) else s.rows[r]
  {
    hide View, EmuInv;
  }

  /** One request and no more renders exactly its rows, a second one all rows. */
  lemma RequestsRender(s: Sys, a: Range, b: Range, r: int)
    requires SysInv(s) && s.pending.Idle? && 0 <= a.lo <= a.hi < s.emu.buf.rows && 0 <= r < s.emu.buf.rows
    ensures var once, twice := s.(pending := Request(s.pending, a)), s.(pending := Request(Request(s.pending, a), b));
      && SysInv(once) && SysInv(twice) && once.pending.Queued? && twice.pending.Queued?
      && |Fire(once).rows| == |Fire(twice).rows| == |s.rows|
      && Fire(once).rows[r] == (if a.lo <= r <= a.hi then View(s.emu, r) else s.rows[r])
      && Fire(twice).rows[r] == View(s.emu, r)
  {
    hide View, EmuInv, Fire;
    FiredRow(s.(pending := Request(s.pending, a)), r);
    FiredRow(s.(pending := Request(Request(s.pending, a), b)), r);
  }

  lemma RowsPositive(e: Emu)
    requires EmuInv(e)
    ensures 1 <= e.buf.rows
  {
  }

  // ---- Resizing, scrolling, the cursor -----------------------------------------------

  /** New row elements are empty; rows are taken away at the top. */
  function FitElements(rows: seq<Markup>, n: int): (r: seq<Markup>)
    requires n >= 0
    ensures |r| == n
  {
    if |rows| < n then rows + Copies(n - |rows|, []) else rows[|rows| - n..]
  }

  /** Rows that stay keep what was rendered into them; those above them go. */
  lemma ElementsStay(rows: seq<Markup>, n: nat, i: nat)
    requires i < n
    ensures var r, gone := FitElements(rows, n), Max(0, |rows| - n);
      r[i] == if i + gone < |rows| then rows[i + gone] else []
  {
  }

  function ResizeSys(s: Sys, x: int, y: int): Sys
    requires SysInv(s)
  {
    if x == s.emu.buf.cols && y == s.emu.buf.rows then s
    else
      var f := ResizeTo(s.emu, x, y);
      s.(emu := f, pending := Request(s.pending, WholeScreen(f)), rows := FitElements(s.rows, Max(y, 1)))
  }

  lemma ResizeKeepsCoherence(s: Sys, x: int, y: int)
    requires SysInv(s) && Coherent(s)
    ensures SysInv(ResizeSys(s, x, y)) && Coherent(ResizeSys(s, x, y))
  {
    if x != s.emu.buf.cols || y != s.emu.buf.rows {
      ResizedRows(s.emu.buf, x, y);
      hide Resize, View, Inv;
    }
  }

  lemma ResizedRows(b: Buf, x: int, y: int)
    requires Inv(b)
    ensures Resize(b, x, y).rows == Max(y, 1) || (x == b.cols && y == b.rows)
    ensures Inv(Resize(b, x, y))
  {
  }

  function ViewportMoved(e: Emu, disp: int): (r: Emu)
    requires EmuInv(e)
    ensures EmuInv(r)
  {
    e.(buf := e.buf.(ydisp := Max(0, Min(e.buf.ydisp + disp, |e.buf.history|))))
  }

  /** The viewport moves by disp, as far as history and screen reach, and shows in row r
      what it showed in row r + disp before. */
  lemma ViewportShifts(e: Emu, disp: int)
    requires EmuInv(e)
    ensures var f, d := ViewportMoved(e, disp), ViewportMoved(e, disp).buf.ydisp - e.buf.ydisp;
      && d == (if disp < 0 then Max(disp, -e.buf.ydisp) else Min(disp, |e.buf.history| - e.buf.ydisp))
      && f == e.(buf := e.buf.(ydisp := e.buf.ydisp + d))
      && forall r :: 0 <= r < e.buf.rows && 0 <= r + d < e.buf.rows ==> ViewLine(f, r) == ViewLine(e, r + d)
  {
  }

  function ScrollDisp(s: Sys, disp: int): Sys
    requires SysInv(s)
  {
    s.(emu := ViewportMoved(s.emu, disp), pending := Request(s.pending, WholeScreen(s.emu)))
  }

  lemma ScrollDispKeepsCoherence(s: Sys, disp: int)
    requires SysInv(s) && Coherent(s)
    ensures SysInv(ScrollDisp(s, disp)) && Coherent(ScrollDisp(s, disp))
  {
    hide View;
  }

  function ShowCursor(s: Sys): Sys
    requires SysInv(s)
  {
    if s.emu.shown then s
    else s.(emu := s.emu.(shown := true), pending := Request(s.pending, Range(s.emu.buf.y, s.emu.buf.y)))
  }

  /** The viewport row the cursor is on. */
  function CursorRow(e: Emu): int { e.buf.y + (|e.buf.history| - e.buf.ydisp) }

  /** The cursor takes up a cell of the viewport. */
  predicate CursorShows(e: Emu)
    requires EmuInv(e)
  {
    CursorRow(e) < e.buf.rows && e.buf.x < e.buf.cols && (
      ViewLineCovers(e, CursorRow(e));
      ViewLine(e, CursorRow(e))[e.buf.x].width != 0)
  }

  /** The refresh asked for is of the cursor's screen row, which is its viewport row
      only at the bottom. Showing the cursor while scrolled back keeps coherence if
      and only if it was shown already, is hidden, another refresh is pending, or it
      is not in view. */
  lemma ShowCursorCoherence(s: Sys)
    requires SysInv(s) && Coherent(s)
    ensures SysInv(ShowCursor(s))
    ensures Coherent(ShowCursor(s)) <==>
      s.emu.shown || s.emu.hidden || s.pending.Queued? || AtBottom(s.emu) || !CursorShows(s.emu)
  {
    var e := s.emu;
    if !e.shown {
      var t := ShowCursor(s);
      assert SysInv(t);
      forall r | 0 <= r < e.buf.rows && r != CursorRow(e) ensures View(t.emu, r) == View(e, r) {
        ViewLineCovers(e, r);
      }
      if CursorRow(e) < e.buf.rows {
        var r := CursorRow(e);
        ViewLineCovers(e, r);
        var line := ViewLine(e, r);
        assert View(e, r) == Render(line, e.buf.cols, -1);
        assert View(t.emu, r) == Render(line, e.buf.cols, if e.hidden then -1 else e.buf.x);
        CursorIsDrawn(line, e.buf.cols, e.buf.x);
        if s.pending.Idle? { assert s.rows[r] == View(e, r); }
      }
      hide View, Render;
    }
  }

  ghost predicate DataNonNegative(vs: seq<(int, Text)>) { forall i {:trigger vs[i]} :: 0 <= i < |vs| ==> vs[i].0 >= 0 }

  lemma {:induction false} VisibleCursor(line: Line, cols: nat, x: int, i: nat)
    requires cols <= |line| && i <= cols
    ensures DataNonNegative(Visible(line, cols, -1, i))
    ensures i <= x < cols && line[x].width != 0 ==> !DataNonNegative(Visible(line, cols, x, i))
    ensures !(i <= x < cols && line[x].width != 0) ==> Visible(line, cols, x, i) == Visible(line, cols, -1, i)
    decreases cols - i
  {
    if i < cols {
      VisibleCursor(line, cols, x, i + 1);
      if line[i].width != 0 {
        var v := Visible(line, cols, x, i);
        if i == x {
          assert v[0].0 == CURSOR;
        } else {
          var rest := Visible(line, cols, x, i + 1);
          assert v[1..] == rest;
          assert forall k :: 0 <= k < |rest| ==> v[k + 1] == rest[k];
        }
      }
    }
  }

  lemma {:induction false} RenderWithoutCursor(line: Line, cols: nat, x: int, i: nat, attr: int)
    requires cols <= |line| && i <= cols
    requires !(i <= x < cols && line[x].width != 0)
    ensures RenderFrom(line, cols, x, i, attr) == RenderFrom(line, cols, -1, i, attr)
    decreases cols - i
  {
    hide Spell, Switch;
    if i < cols {
      if line[i].width == 0 { RenderWithoutCursor(line, cols, x, i + 1, attr); }
      else { RenderWithoutCursor(line, cols, x, i + 1, line[i].attr); }
    }
  }

  /** A row looks different with a cursor exactly when there is a cell to carry it. */
  lemma CursorIsDrawn(line: Line, cols: nat, x: int)
    requires cols <= |line| && 0 <= x
    ensures Render(line, cols, x) != Render(line, cols, -1) <==> x < cols && line[x].width != 0
  {
    if x < cols && line[x].width != 0 {
      RenderDecodes(line, cols, x, 0, DEF_ATTR);
      RenderDecodes(line, cols, -1, 0, DEF_ATTR);
      VisibleCursor(line, cols, x, 0);
    } else {
      RenderWithoutCursor(line, cols, x, 0, DEF_ATTR);
    }
  }

  // ---- Runs of events ------------------------------------------------------------------

  datatype Event =
    | WriteText(data: Text)
    | TimerFires
    | Resized(x: int, y: int)
    | ViewportScrolled(disp: int)
    | CursorShown

  /** When an event can happen at all. */
  ghost predicate Possible(s: Sys, ev: Event)
    requires SysInv(s)
  {
    match ev
    case WriteText(data) => CanWrite(s, data)
    case TimerFires => s.pending.Queued?
    case _ => true
  }

  /** And when it can happen without anything going stale unnoticed. */
  ghost predicate Enabled(s: Sys, ev: Event)
    requires SysInv(s)
  {
    Possible(s, ev) &&
    match ev
    case WriteText(data) => RowsStay(s, data)
    case CursorShown => s.emu.shown || s.emu.hidden || s.pending.Queued? || AtBottom(s.emu) || !CursorShows(s.emu)
    case _ => true
  }

  ghost function Happens(s: Sys, ev: Event): Sys
    requires SysInv(s) && Possible(s, ev)
  {
    match ev
    case WriteText(data) => Write(s, data)
    case TimerFires => Fire(s)
    case Resized(x, y) => ResizeSys(s, x, y)
    case ViewportScrolled(disp) => ScrollDisp(s, disp)
    case CursorShown => ShowCursor(s)
  }

  /** The guard is exact: any event that can happen keeps the display coherent if and
      only if it is enabled. */
  lemma EventKeepsCoherence(s: Sys, ev: Event)
    requires SysInv(s) && Coherent(s) && Possible(s, ev)
    ensures SysInv(Happens(s, ev)) && (Coherent(Happens(s, ev)) <==> Enabled(s, ev))
  {
    match ev
    case WriteText(data) => WriteCoherentExactly(s, data);
    case TimerFires => FireBringsUpToDate(s);
    case Resized(x, y) => ResizeKeepsCoherence(s, x, y);
    case ViewportScrolled(disp) => ScrollDispKeepsCoherence(s, disp);
    case CursorShown => ShowCursorCoherence(s);
  }

  /** Opening a terminal makes empty rows and asks for a refresh of all of them. */
  function OpenTerminal(cfg: Config, rows: int, cols: int): Sys
    requires cfg.scrollback != 1 && 1 <= rows && 1 <= cols
  {
    Sys(Ground, [], Fresh(cfg, rows, cols), Queued(0, rows - 1, false), Copies(rows, []))
  }

  /** The states reached from s by a run of enabled events. */
  ghost predicate Reaches(s: Sys, events: seq<Event>, t: Sys)
    decreases |events|
  {
    if events == [] then t == s
    else SysInv(s) && Enabled(s, events[0]) && Reaches(Happens(s, events[0]), events[1..], t)
  }

  lemma {:induction false} RunKeepsCoherence(s: Sys, events: seq<Event>, t: Sys)
    requires SysInv(s) && Coherent(s) && Reaches(s, events, t)
    ensures SysInv(t) && Coherent(t)
    decreases |events|
  {
    hide SysInv, Coherent, Possible, RowsStay, Happens;
    if events != [] {
      EventKeepsCoherence(s, events[0]);
      RunKeepsCoherence(Happens(s, events[0]), events[1..], t);
    }
  }

  /** Whatever happens to a terminal after it is opened, as long as no refresh is
      pending the display shows exactly the buffer, and a pending one never reaches
      off the screen. */
  lemma DisplayIsFaithful(cfg: Config, rows: int, cols: int, events: seq<Event>, t: Sys)
    requires cfg.scrollback != 1 && 1 <= rows && 1 <= cols
    requires Reaches(OpenTerminal(cfg, rows, cols), events, t)
    ensures SysInv(t) && Coherent(t)
    ensures t.pending.Idle? ==> UpToDate(t)
    ensures t.pending.Queued? ==> 0 <= Due(t).lo <= Due(t).hi < t.emu.buf.rows
  {
    RunKeepsCoherence(OpenTerminal(cfg, rows, cols), events, t);
    if t.pending.Queued? { FireBringsUpToDate(t); }
  }

  // ---- Short runs -----------------------------------------------------------------------

  lemma UnfoldRun(n: Note, e: Emu, c: Cmd, rest: seq<Cmd>)
    requires EmuInv(e) && WellFormed(c) && AllWellFormed([c] + rest) && Admissible(e, c)
    ensures EmuInv(Exec(e, c)) && AllWellFormed(rest)
    ensures AdmissibleAll(e, [c] + rest) <==> AdmissibleAll(Exec(e, c), rest)
    ensures AdmissibleAll(e, [c] + rest) ==>
      && ExecAll(e, [c] + rest) == ExecAll(Exec(e, c), rest)
      && NoteAll(n, e, [c] + rest) == NoteAll(NoteCommand(n, e, c), Exec(e, c), rest)
  {
    hide Exec, EmuInv, Admissible, WellFormed, NoteCommand;
    ExecKeepsInvariant(e, c);
    var cmds := [c] + rest;
    assert cmds[1..] == rest && cmds[0] == c;
    assert forall i :: 0 <= i < |rest| ==> rest[i] == cmds[i + 1];
  }

  lemma NothingRuns(n: Note, e: Emu)
    requires EmuInv(e)
    ensures AdmissibleAll(e, []) && ExecAll(e, []) == e && NoteAll(n, e, []) == n
  {
  }
}
