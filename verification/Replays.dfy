/** Texts through parser and emulator together: reports that can be played back,
    chunks that may be cut, and whole sessions on the alternate screen. */
module Replays {
  import opened Sequences
  import opened Numerals
  import opened Buffer
  import opened Emulator
  import opened Parser
  import opened Effects

  /** Executing what a text says, from rest. */
  ghost predicate Runs(e: Emu, m: Mode, data: Text)
    requires EmuInv(e)
  {
    AdmissibleAll(e, Scan(m, data, 0).cmds)
  }

  ghost function After(e: Emu, m: Mode, data: Text): (r: Emu)
    requires EmuInv(e) && Runs(e, m, data)
    ensures EmuInv(r)
  {
    ExecAll(e, Scan(m, data, 0).cmds)
  }

  /** Two chunks lead to the same state as their concatenation whenever the cut is
      clean, and one way is admissible exactly when the other is. */
  lemma ChunkIndependence(e: Emu, m: Mode, a: Text, b: Text)
    requires EmuInv(e) && CleanCut(m, a)
    ensures var next := Scan(m, a, 0).mode;
      && (Runs(e, m, a + b) <==> Runs(e, m, a) && Runs(After(e, m, a), next, b))
      && (Runs(e, m, a + b) ==> After(e, m, a + b) == After(After(e, m, a), next, b))
      && Scan(m, a + b, 0).mode == Scan(next, b, 0).mode
      && Scan(m, a + b, 0).high == Scan(next, b, 0).high
  {
    hide Scan, ExecAll, AdmissibleAll, EmuInv;
    CleanCutsDoNotMatter(m, a, b);
    ExecAllComposes(e, Scan(m, a, 0).cmds, Scan(Scan(m, a, 0).mode, b, 0).cmds);
  }

  /** A control sequence alone. */
  lemma OneSequence(e: Emu, prefix: Text, ps: seq<nat>, final: CodeUnit)
    requires EmuInv(e) && |ps| >= 1 && IsFinal(final)
    requires prefix == [] || (|prefix| == 1 && IsPrefix(prefix[0]))
    ensures var text, c := Encode(prefix, ps, final), Csi(final, ps, prefix);
      && Scan(Ground, text, 0) == Scanned(Ground, [], [c], false)
      && (Runs(e, Ground, text) <==> Admissible(e, c))
      && (Runs(e, Ground, text) ==> After(e, Ground, text) == Exec(e, c))
  {
    var text, c := Encode(prefix, ps, final), Csi(final, ps, prefix);
    CsiRoundTrip(prefix, ps, final, []);
    assert text + [] == text;
    assert Scan(Ground, [], 0) == Scanned(Ground, [], [], false);
    assert [c] + [] == [c];
    SingleCommand(e, c);
  }

  /** ESC [ in front of the margins that DECRQSS reports puts them back, on any
      screen of the same height. */
  lemma MarginReportRestores(e: Emu, f: Emu)
    requires EmuInv(e) && EmuInv(f) && f.buf.rows == e.buf.rows
    ensures var text := [ESC, 91] + MarginReport(e.buf);
      && Runs(f, Ground, text)
      && After(f, Ground, text) == f.(buf := f.buf.(top := e.buf.top, bottom := e.buf.bottom, x := 0, y := 0))
  {
    var top, bottom := e.buf.top + 1, e.buf.bottom + 1;
    assert 1 <= top <= bottom <= f.buf.rows && IsFinal(DECSTBM);
    assert MarginReport(e.buf) == Decimal(top) + [59] + Decimal(bottom) + [DECSTBM];
    hide *;
    TwoParameters(top, bottom, DECSTBM);
    OneSequence(f, [], [top, bottom], DECSTBM);
    StbmSets(f, top, bottom);
  }

  lemma StbmSets(e: Emu, top: nat, bottom: nat)
    requires EmuInv(e) && 1 <= top <= bottom <= e.buf.rows
    ensures var c := Csi(DECSTBM, [top, bottom], []);
      Admissible(e, c) && Exec(e, c) == e.(buf := e.buf.(top := top - 1, bottom := bottom - 1, x := 0, y := 0))
  {
  }

  lemma TwoParameters(a: nat, b: nat, final: CodeUnit)
    ensures Encode([], [a, b], final) == [ESC, 91] + (Decimal(a) + [59] + Decimal(b) + [final])
  {
    hide Decimal;
    var ps: seq<nat> := [a, b];
    assert ps[1..] == [b];
    assert Join([b]) == Decimal(b);
    assert Join(ps) == Decimal(a) + [59] + Decimal(b);
  }

  /** A cursor report with its final R turned into H is a CUP that brings the cursor
      back, if and only if it was not waiting to wrap. */
  lemma CursorReportRestores(e: Emu, f: Emu)
    requires EmuInv(e) && EmuInv(f) && f.buf.rows == e.buf.rows && f.buf.cols == e.buf.cols
    ensures var report := CursorReport(e.buf);
      var text := report[..|report| - 1] + [CUP];
      && Runs(f, Ground, text)
      && (After(f, Ground, text) == f.(buf := f.buf.(x := e.buf.x, y := e.buf.y)) <==> e.buf.x < e.buf.cols)
  {
    hide *;
    ReportedPlace(e);
    var row, col := e.buf.y + 1, e.buf.x + 1;
    TwoParameters(row, col, CUP);
    OneSequence(f, [], [row, col], CUP);
    CupMoves(f, row, col);
    ReportAsCup(e.buf);
    CupMovesBack(f, row, col);
  }

  lemma ReportedPlace(e: Emu)
    requires EmuInv(e)
    ensures 0 <= e.buf.y < e.buf.rows && 0 <= e.buf.x <= e.buf.cols && IsFinal(CUP)
  {
  }

  lemma CupMovesBack(e: Emu, row: nat, col: nat)
    requires EmuInv(e)
    ensures (e.(buf := e.buf.(x := Min(col, e.buf.cols) - 1, y := row - 1)) ==
             e.(buf := e.buf.(x := col - 1, y := row - 1))) <==> col <= e.buf.cols
  {
  }

  lemma ReportAsCup(b: Buf)
    requires 0 <= b.x && 0 <= b.y
    ensures var report := CursorReport(b);
      report[..|report| - 1] + [CUP] == [ESC, 91] + (Decimal(b.y + 1) + [59] + Decimal(b.x + 1) + [CUP])
  {
    hide Decimal;
    var report := CursorReport(b);
    var head := [ESC, 91] + Decimal(b.y + 1) + [59] + Decimal(b.x + 1);
    assert report == head + [82] && report[..|report| - 1] == head;
  }

  lemma CupMoves(e: Emu, row: nat, col: nat)
    requires EmuInv(e) && 1 <= row <= e.buf.rows && 1 <= col
    ensures var c := Csi(CUP, [row, col], []);
      Admissible(e, c) && Exec(e, c) == e.(buf := e.buf.(x := Min(col, e.buf.cols) - 1, y := row - 1))
  {
  }

  // ---- Sessions on the alternate screen ------------------------------------------

  function Session(p: nat, body: Text, q: nat): Text {
    Encode(PRIVATE, [p], SM) + (body + Encode(PRIVATE, [q], RM))
  }

  lemma SessionScan(p: nat, body: Text, q: nat)
    requires CleanCut(Ground, body) && Scan(Ground, body, 0).mode == Ground
    ensures Scan(Ground, Session(p, body, q), 0).cmds ==
      [Csi(SM, [p], PRIVATE)] + (Scan(Ground, body, 0).cmds + [Csi(RM, [q], PRIVATE)])
  {
    var leave := Encode(PRIVATE, [q], RM);
    CsiRoundTrip(PRIVATE, [p], SM, body + leave);
    CleanCutsDoNotMatter(Ground, body, leave);
    CsiRoundTrip(PRIVATE, [q], RM, []);
    assert leave + [] == leave;
    assert Scan(Ground, [], 0) == Scanned(Ground, [], [], false);
    hide Scan;
    assert [Csi(RM, [q], PRIVATE)] + [] == [Csi(RM, [q], PRIVATE)];
  }

  /** A text that enters the alternate screen, does anything short of leaving it, and
      leaves it again: afterwards the buffer is the one from before, down to the
      viewport, the margins and the tab stops. */
  lemma SessionLeavesNoTrace(e: Emu, p: nat, body: Text, q: nat)
    requires EmuInv(e) && e.normal.None? && IsAltMode(p) && IsAltMode(q)
    requires CleanCut(Ground, body) && Scan(Ground, body, 0).mode == Ground
    requires NoLeave(Scan(Ground, body, 0).cmds) && AdmissibleAll(EnterAlt(e), Scan(Ground, body, 0).cmds)
    ensures Runs(e, Ground, Session(p, body, q))
    ensures var r := After(e, Ground, Session(p, body, q)); r.buf == e.buf && r.normal == None
  {
    var cmds := Scan(Ground, body, 0).cmds;
    SessionScan(p, body, q);
    AltScreenRoundTrip(e, cmds);
    hide Scan, Session;
    SessionRuns(e, p, cmds, q);
  }

  lemma SessionRuns(e: Emu, p: nat, cmds: seq<Cmd>, q: nat)
    requires EmuInv(e) && IsAltMode(p) && IsAltMode(q)
    requires AllWellFormed(cmds) && AdmissibleAll(EnterAlt(e), cmds)
    ensures var all := [Csi(SM, [p], PRIVATE)] + (cmds + [Csi(RM, [q], PRIVATE)]);
      && AllWellFormed(all) && AdmissibleAll(e, all)
      && ExecAll(e, all) == LeaveAlt(ExecAll(EnterAlt(e), cmds))
  {
    hide Exec, EnterAlt, LeaveAlt, EmuInv, ExecAll, AdmissibleAll;
    var enter, leave := Csi(SM, [p], PRIVATE), Csi(RM, [q], PRIVATE);
    var f := ExecAll(EnterAlt(e), cmds);
    AltModeCommands(e, p, q);
    AltModeCommands(f, p, q);
    SingleCommand(e, enter);
    SingleCommand(f, leave);
    ExecAllComposes(EnterAlt(e), cmds, [leave]);
    ExecAllComposes(e, [enter], cmds + [leave]);
  }

  lemma SingleCommand(e: Emu, c: Cmd)
    requires EmuInv(e) && WellFormed(c)
    ensures AllWellFormed([c])
    ensures AdmissibleAll(e, [c]) <==> Admissible(e, c)
    ensures Admissible(e, c) ==> ExecAll(e, [c]) == Exec(e, c)
  {
    hide Exec, EmuInv, Admissible, WellFormed;
    var rest := [c][1..];
    assert rest == [];
    if Admissible(e, c) {
      ExecKeepsInvariant(e, c);
      var r := Exec(e, c);
      assert AllWellFormed(rest) && AdmissibleAll(r, rest) && ExecAll(r, rest) == r;
    }
  }

  lemma AltModeCommands(e: Emu, p: nat, q: nat)
    requires EmuInv(e) && IsAltMode(p) && IsAltMode(q)
    ensures Exec(e, Csi(SM, [p], PRIVATE)) == EnterAlt(e)
    ensures Exec(e, Csi(RM, [q], PRIVATE)) == LeaveAlt(e)
  {
    hide EnterAlt, LeaveAlt, EmuInv;
    var ps: seq<nat>, qs: seq<nat> := [p], [q];
    assert ps[1..] == [] && qs[1..] == [];
    assert SetMode(e, PRIVATE, p) == EnterAlt(e) && ResetMode(e, PRIVATE, q) == LeaveAlt(e);
    assert SetModes(EnterAlt(e), PrefixAfter(e, PRIVATE, p), ps[1..]) == EnterAlt(e);
    assert ResetModes(LeaveAlt(e), PRIVATE, qs[1..]) == LeaveAlt(e);
    assert SetModes(e, PRIVATE, ps) == EnterAlt(e);
    assert ResetModes(e, PRIVATE, qs) == LeaveAlt(e);
  }
}
