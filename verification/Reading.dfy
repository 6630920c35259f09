/** The text a `write` still has to read, and the run it still has to make. */
module Reading {
  import opened Sequences
  import opened Buffer
  import opened Emulator
  import opened Parser
  import opened Resizing
  import opened Rendering
  import opened Refreshing
  import opened Display
  import opened Loops

  /** What is still to be read from position i on; i may lie beyond the end. */
  function Left(m: Mode, data: Text, i: nat, drop: nat): Scanned {
    if i <= |data| then Scan(m, data[i..], drop) else Scanned(m, [], [], true)
  }

  lemma AllLeft(m: Mode, high: Text, data: Text)
    ensures Left(m, high + data, 0, |high|) == Read(m, high, data)
  {
    assert (high + data)[0..] == high + data;
  }

  /** A high surrogate at the very end. */
  lemma OneLeft(m: Mode, data: Text, i: nat, drop: nat)
    requires i == |data| - 1 && i < |data| - drop && IsHigh(data[i])
    ensures Left(m, data, i, drop) == Scanned(m, [data[i]], [], false)
    ensures Left(m, data, i + 1, drop) == Scanned(m, [], [], false)
  {
    assert data[i..] == [data[i]];
  }

  /** The character at position i, read by the parser or passed over. */
  lemma NextLeft(m: Mode, data: Text, i: nat, drop: nat, ch: Text, code: int)
    requires i < |data| - drop
    requires if IsHigh(data[i]) then i + 1 < |data| && ch == [data[i], data[i + 1]] && code == Combined(data[i], data[i + 1])
             else ch == [data[i]] && code == data[i]
    ensures var r := if IsLow(code) then Reaction(m, [], 1) else React(m, ch, code);
      var rest, next := Left(m, data, i, drop), Left(r.mode, data, i + r.advance, drop);
      && rest.cmds == r.cmds + next.cmds && rest.mode == next.mode && rest.high == next.high
      && AllWellFormed(r.cmds) && (r.advance == 0 ==> m.Escape? && !r.mode.Escape?)
    ensures IsLow(code) ==> Left(m, data, i, drop) == Left(m, data, i + 1, drop)
  {
    hide React, Scan;
    var s := data[i..];
    assert s[0] == data[i] && s[..1] == [data[i]];
    if |s| > 1 { assert s[..2] == [data[i], data[i + 1]]; }
    var r := Next(m, s);
    ScanNext(m, s, drop);
    if r.advance <= |s| { assert s[r.advance..] == data[i + r.advance..]; }
    PrependNothing(Left(m, data, i + 1, drop));
  }

  lemma ScanNext(m: Mode, s: Text, drop: nat)
    requires |s| > drop && !Lone(s)
    ensures var r := Next(m, s);
      Scan(m, s, drop) ==
        Prepend(r.cmds, if r.advance > |s| then Scanned(r.mode, [], [], true) else Scan(r.mode, s[r.advance..], drop))
  {
    hide Next;
  }

  /** Running the rest from here ends where running everything from the start does. */
  ghost predicate Leads(n: Note, e: Emu, rest: seq<Cmd>, n0: Note, e0: Emu, all: seq<Cmd>) {
    && EmuInv(e) && EmuInv(e0) && AllWellFormed(rest) && AllWellFormed(all)
    && AdmissibleAll(e, rest) && AdmissibleAll(e0, all)
    && ExecAll(e, rest) == ExecAll(e0, all) && NoteAll(n, e, rest) == NoteAll(n0, e0, all)
  }

  lemma LeadsFromStart(n: Note, e: Emu, all: seq<Cmd>)
    requires EmuInv(e) && AllWellFormed(all) && AdmissibleAll(e, all)
    ensures Leads(n, e, all, n, e, all)
  {
  }

  lemma LeadsOn(n: Note, e: Emu, a: seq<Cmd>, b: seq<Cmd>, n0: Note, e0: Emu, all: seq<Cmd>)
    requires Leads(n, e, a + b, n0, e0, all) && AllWellFormed(a)
    ensures EmuInv(e) && AdmissibleAll(e, a) && EmuInv(ExecAll(e, a))
    ensures Leads(NoteAll(n, e, a), ExecAll(e, a), b, n0, e0, all)
  {
    hide EmuInv, AdmissibleAll, ExecAll, NoteAll;
    assert AllWellFormed(b) by {
      forall i | 0 <= i < |b| ensures WellFormed(b[i]) { assert b[i] == (a + b)[|a| + i]; }
    }
    ExecAllComposes(e, a, b);
    NoteAllComposes(n, e, a, b);
  }

  lemma {:induction false} NoteAllComposes(n: Note, e: Emu, a: seq<Cmd>, b: seq<Cmd>)
    requires EmuInv(e) && AllWellFormed(a) && AllWellFormed(b) && AllWellFormed(a + b)
    requires AdmissibleAll(e, a + b) && AdmissibleAll(e, a) && AdmissibleAll(ExecAll(e, a), b)
    ensures NoteAll(n, e, a + b) == NoteAll(NoteAll(n, e, a), ExecAll(e, a), b)
    decreases |a|
  {
    hide Exec, Admissible, EmuInv, NoteCommand;
    if a == [] {
      assert a + b == b;
    } else {
      assert (a + b)[1..] == a[1..] + b;
      ExecKeepsInvariant(e, a[0]);
      NoteAllComposes(NoteCommand(n, e, a[0]), Exec(e, a[0]), a[1..], b);
    }
  }

  lemma NothingLeft(n: Note, e: Emu, m: Mode, data: Text, i: nat, drop: nat, n0: Note, e0: Emu, all: seq<Cmd>)
    requires |data| - drop <= i && Leads(n, e, Left(m, data, i, drop).cmds, n0, e0, all)
    ensures Left(m, data, i, drop).mode == m && Left(m, data, i, drop).high == []
    ensures EmuInv(e0) && AllWellFormed(all) && AdmissibleAll(e0, all) && e == ExecAll(e0, all) && n == NoteAll(n0, e0, all)
  {
    NothingRuns(n, e);
  }

  lemma WriteFacts(s: Sys, data: Text)
    requires SysInv(s) && CanWrite(s, data)
    ensures EmuInv(s.emu) && EmuInv(Begin(s.emu))
    ensures var all := Read(s.mode, s.high, data).cmds;
      && AllWellFormed(all) && AdmissibleAll(Begin(s.emu), all)
      && (var f, n := ExecAll(Begin(s.emu), all), NoteAll(BeginNote(s), Begin(s.emu), all);
          Write(s, data) == Sys(Read(s.mode, s.high, data).mode, Read(s.mode, s.high, data).high, f,
                                Request(n.pending, Widen(n.range, Rows(f.buf.y, f.buf.y))), s.rows))
  {
  }

  /** The head of a write, on the fields it looks at. */
  lemma BeginState(s: Sys, lines: seq<Line>, ybase: int)
    requires EmuInv(s.emu) && 0 <= ybase <= |lines| && s.emu.buf.history == Above(lines, ybase)
    ensures Begin(s.emu) == s.emu.(buf := s.emu.buf.(ydisp := ybase))
    ensures BeginNote(s) ==
      Note(if ybase != s.emu.buf.ydisp then Range(0, s.emu.buf.rows - 1) else Range(s.emu.buf.y, s.emu.buf.y), s.pending)
  {
  }

  // ---- Events ----------------------------------------------------------------------------

  lemma DueFacts(s: Sys)
    requires SysInv(s) && s.pending.Queued?
    ensures 0 <= Due(s).lo <= Due(s).hi < s.emu.buf.rows == |s.rows| && EmuInv(s.emu)
    ensures Fire(s) == s.(pending := Idle, rows := Refreshed(s, Due(s).lo, Due(s).hi))
  {
    hide View;
  }

  /** Rows lo..hi as they should look, the others as they were. */
  function Refreshed(s: Sys, lo: int, hi: int): (rows: seq<Markup>)
    requires EmuInv(s.emu) && |s.rows| == s.emu.buf.rows
    ensures |rows| == |s.rows|
  {
    seq(|s.rows|, r requires 0 <= r < |s.rows| && EmuInv(s.emu) && |s.rows| == s.emu.buf.rows =>
      if lo <= r <= hi then View(s.emu, r) else s.rows[r])
  }

  lemma NothingRefreshed(s: Sys, lo: int)
    requires EmuInv(s.emu) && |s.rows| == s.emu.buf.rows
    ensures Refreshed(s, lo, lo - 1) == s.rows
  {
    hide View, EmuInv;
  }

  lemma RefreshedOne(s: Sys, lo: int, y: int)
    requires EmuInv(s.emu) && |s.rows| == s.emu.buf.rows && 0 <= lo <= y < |s.rows|
    ensures Refreshed(s, lo, y) == Refreshed(s, lo, y - 1)[y := View(s.emu, y)]
  {
    hide View, EmuInv;
  }

  /** Row y of the viewport, found in the line array. */
  lemma ShownLine(e: Emu, lines: seq<Line>, ybase: int, y: int)
    requires EmuInv(e) && SplitAt(e.buf, lines, ybase) && 0 <= y < e.buf.rows
    ensures ybase == |e.buf.history| && 0 <= y + e.buf.ydisp < |lines| && 1 <= e.buf.cols
    ensures lines[y + e.buf.ydisp] == ViewLine(e, y) && |ViewLine(e, y)| >= e.buf.cols
  {
    ViewLineCovers(e, y);
    assert Lines(e.buf) == lines;
  }

  lemma ScrollState(s: Sys, disp: int, lines: seq<Line>, ybase: int)
    requires SysInv(s) && 0 <= ybase <= |lines| && s.emu.buf.history == Above(lines, ybase)
    ensures 0 <= ybase
    ensures Display.ScrollDisp(s, disp) ==
      s.(emu := s.emu.(buf := s.emu.buf.(ydisp := Max(0, Min(s.emu.buf.ydisp + disp, ybase)))),
         pending := Request(s.pending, Range(0, s.emu.buf.rows - 1)))
  {
    hide EmuInv, PendingOk, SavedAtBottom;
  }

  lemma ResizedSize(e: Emu, x: int, y: int)
    requires EmuInv(e)
    ensures x == e.buf.cols && y == e.buf.rows ==> ResizeTo(e, x, y) == e
    ensures WholeScreen(ResizeTo(e, x, y)) == Range(0, ResizeTo(e, x, y).buf.rows - 1)
  {
  }

  lemma ShownAlready(e: Emu)
    ensures e.shown ==> e.(shown := true) == e
  {
  }
}
