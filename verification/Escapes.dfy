/** More short escapes as texts: the saved cursor, tab stops, character sets, RIS, and
    what is read without effect. */
module Escapes {
  import opened Sequences
  import opened TabStops
  import opened Buffer
  import opened Resizing
  import opened Widths
  import opened Numerals
  import opened Emulator
  import opened Parser
  import opened Replays
  import opened Texts
  import opened Controls
  import opened Effects
  import opened Cuts

  // ---- The saved cursor --------------------------------------------------------------------

  /** ESC 7 and CSI s. */
  predicate Saves(c: Cmd) { c.SaveCursor? || (c.Csi? && c.final == SCP) }

  ghost predicate NoSave(cmds: seq<Cmd>) { forall i {:trigger cmds[i]} :: 0 <= i < |cmds| ==> !Saves(cmds[i]) }

  predicate SameSaved(e: Emu, r: Emu) { r.savedX == e.savedX && r.savedY == e.savedY }

  lemma {:induction false} ModesKeepSaved(e: Emu, prefix: Text, ps: seq<nat>)
    requires EmuInv(e)
    ensures SameSaved(e, SetModes(e, prefix, ps))
    decreases |ps|
  {
    hide EmuInv;
    if ps != [] { ModesKeepSaved(SetMode(e, prefix, ps[0]), PrefixAfter(e, prefix, ps[0]), ps[1..]); }
  }

  lemma {:induction false} ResetModesKeepSaved(e: Emu, prefix: Text, ps: seq<nat>)
    requires EmuInv(e)
    ensures SameSaved(e, ResetModes(e, prefix, ps))
    decreases |ps|
  {
    hide EmuInv;
    if ps != [] { ResetModesKeepSaved(ResetMode(e, prefix, ps[0]), prefix, ps[1..]); }
  }

  /** Nothing but ESC 7 and CSI s touches the saved cursor, not even RIS or a switch of
      screens. */
  lemma CommandKeepsSaved(e: Emu, c: Cmd)
    requires EmuInv(e) && WellFormed(c) && !Saves(c)
    ensures SameSaved(e, Exec(e, c))
  {
    hide EmuInv, SetModes, ResetModes, MoveCursor, EditBuffer, Put, Index, ReverseIndex, Fresh, ScrollDown,
      TabClear, SetScrollRegion, DeviceAttributes, DeviceStatus, ReportStatus, SetLevel, SetCharset;
    if c.Csi? {
      ModesKeepSaved(e, c.prefix, c.params);
      ResetModesKeepSaved(e, c.prefix, c.params);
    }
  }

  lemma {:induction false} RunKeepsSaved(e: Emu, cmds: seq<Cmd>)
    requires EmuInv(e) && AllWellFormed(cmds) && AdmissibleAll(e, cmds) && NoSave(cmds)
    ensures SameSaved(e, ExecAll(e, cmds))
    decreases |cmds|
  {
    hide EmuInv, Exec, Admissible, WellFormed, Saves;
    if cmds != [] {
      ExecKeepsInvariant(e, cmds[0]);
      CommandKeepsSaved(e, cmds[0]);
      RunKeepsSaved(Exec(e, cmds[0]), cmds[1..]);
    }
  }

  /** e with its cursor saved. */
  function CursorSaved(e: Emu): Emu { e.(savedX := e.buf.x, savedY := e.buf.y) }

  lemma SaveText(e: Emu)
    requires EmuInv(e)
    ensures EmuInv(CursorSaved(e))
    ensures Reads([ESC, 55], [SaveCursor]) && Gives(e, [ESC, 55], CursorSaved(e))
    ensures Reads(Encode([], [0], SCP), [Csi(SCP, [0], [])]) && Gives(e, Encode([], [0], SCP), CursorSaved(e))
  {
    hide *;
    SavedReads();
    SaveExecutes(e);
    OneGives(e, [ESC, 55], SaveCursor);
    OneGives(e, Encode([], [0], SCP), Csi(SCP, [0], []));
  }

  lemma SavedReads()
    ensures Reads([ESC, 55], [SaveCursor]) && Reads(Encode([], [0], SCP), [Csi(SCP, [0], [])])
    ensures Reads([ESC, 56], [RestoreCursor]) && Reads(Encode([], [0], RCP), [Csi(RCP, [0], [])])
  {
    ReadsEscape(55, [SaveCursor]);
    ReadsEscape(56, [RestoreCursor]);
    hide Encode, Reads;
    ReadsCsi([], [0], SCP);
    ReadsCsi([], [0], RCP);
  }

  lemma SaveExecutes(e: Emu)
    requires EmuInv(e)
    ensures EmuInv(CursorSaved(e)) && WellFormed(SaveCursor) && WellFormed(Csi(SCP, [0], []))
    ensures Admissible(e, SaveCursor) && Exec(e, SaveCursor) == CursorSaved(e)
    ensures Admissible(e, Csi(SCP, [0], [])) && Exec(e, Csi(SCP, [0], [])) == CursorSaved(e)
  {
  }

  /** ESC 8 and CSI u go to the saved position, which has to be on the screen. */
  lemma RestoreText(e: Emu)
    requires EmuInv(e)
    ensures var there := e.savedX <= e.buf.cols && e.savedY < e.buf.rows;
      var r := e.(buf := e.buf.(x := e.savedX, y := e.savedY));
      && Reads([ESC, 56], [RestoreCursor]) && (Runs(e, Ground, [ESC, 56]) <==> there)
      && (there ==> Gives(e, [ESC, 56], r))
      && (Runs(e, Ground, Encode([], [0], RCP)) <==> there) && (there ==> Gives(e, Encode([], [0], RCP), r))
  {
    hide *;
    SavedReads();
    RestoreExecutes(e);
    OneGives(e, [ESC, 56], RestoreCursor);
    OneGives(e, Encode([], [0], RCP), Csi(RCP, [0], []));
  }

  lemma RestoreExecutes(e: Emu)
    requires EmuInv(e)
    ensures var there := e.savedX <= e.buf.cols && e.savedY < e.buf.rows;
      var r := e.(buf := e.buf.(x := e.savedX, y := e.savedY));
      && WellFormed(RestoreCursor) && (Admissible(e, RestoreCursor) <==> there) && Exec(e, RestoreCursor) == r
      && WellFormed(Csi(RCP, [0], [])) && (Admissible(e, Csi(RCP, [0], [])) <==> there) && Exec(e, Csi(RCP, [0], [])) == r
  {
  }

  /** ESC 7, any text that saves no cursor itself, ESC 8: the cursor is back where it
      was and all else is as the text left it, if and only if the text has not made the
      screen too small for that. */
  lemma RestoreUndoesMoves(e: Emu, body: Text, cmds: seq<Cmd>)
    requires EmuInv(e) && Reads(body, cmds) && NoSave(cmds)
    ensures EmuInv(CursorSaved(e)) && Gives(e, [ESC, 55], CursorSaved(e))
    ensures Runs(e, Ground, [ESC, 55] + body + [ESC, 56]) <==>
      Runs(CursorSaved(e), Ground, body) && var m := After(CursorSaved(e), Ground, body); e.buf.x <= m.buf.cols && e.buf.y < m.buf.rows
    ensures Runs(e, Ground, [ESC, 55] + body + [ESC, 56]) ==>
      var m := After(CursorSaved(e), Ground, body); Gives(e, [ESC, 55] + body + [ESC, 56], m.(buf := m.buf.(x := e.buf.x, y := e.buf.y)))
  {
    hide *;
    var f := CursorSaved(e);
    SaveText(e);
    Given(e, [ESC, 55]);
    BothGive(e, [ESC, 55], [SaveCursor], body, cmds);
    ReadsBoth([ESC, 55], [SaveCursor], body, cmds);
    Given(e, [ESC, 55] + body);
    if Runs(f, Ground, body) {
      BodyKeepsSaved(e, body, cmds);
      var m := After(f, Ground, body);
      RestoreText(m);
      BothGive(e, [ESC, 55] + body, [SaveCursor] + cmds, [ESC, 56], [RestoreCursor]);
      Given(m, [ESC, 56]);
    } else {
      EscEightReads();
      BothGive(e, [ESC, 55] + body, [SaveCursor] + cmds, [ESC, 56], [RestoreCursor]);
    }
  }

  lemma EscEightReads()
    ensures Reads([ESC, 56], [RestoreCursor])
  {
    ReadsEscape(56, [RestoreCursor]);
  }

  lemma BodyKeepsSaved(e: Emu, body: Text, cmds: seq<Cmd>)
    requires EmuInv(e) && EmuInv(CursorSaved(e)) && Reads(body, cmds) && NoSave(cmds) && Runs(CursorSaved(e), Ground, body)
    ensures var m := After(CursorSaved(e), Ground, body); m.savedX == e.buf.x && m.savedY == e.buf.y
  {
    hide EmuInv, Scan;
    ReadsWellFormed(body, cmds);
    RunKeepsSaved(CursorSaved(e), cmds);
  }

  // ---- Tab stops -----------------------------------------------------------------------------

  /** HT goes to the first stop to the right, or the last column when there is none. */
  lemma TabText(e: Emu)
    requires EmuInv(e)
    ensures Reads([HT], [Tab]) && Runs(e, Ground, [HT])
    ensures var b, r := e.buf, After(e, Ground, [HT]);
      && r == e.(buf := b.(x := r.buf.x))
      && (if Between(b.tabs, b.x, b.cols) == {} then r.buf.x == b.cols - 1
          else r.buf.x in b.tabs && b.x < r.buf.x && Between(b.tabs, b.x, r.buf.x) == {})
  {
    ReadsUnit(HT, [Tab]);
    hide Between, Scan, After, Runs;
    NextStopIsFirst(e.buf.tabs, e.buf.cols, e.buf.x);
    OneGives(e, [HT], Tab);
    Given(e, [HT]);
  }

  /** ESC H sets a stop at the cursor, CSI 0 g takes it away, CSI 3 g takes all. */
  lemma StopTexts(e: Emu)
    requires EmuInv(e)
    ensures Gives(e, [ESC, 72], e.(buf := e.buf.(tabs := e.buf.tabs + {e.buf.x})))
    ensures Gives(e, Encode([], [0], TBC), e.(buf := e.buf.(tabs := e.buf.tabs - {e.buf.x})))
    ensures Gives(e, Encode([], [3], TBC), e.(buf := e.buf.(tabs := {})))
  {
    ReadsEscape(72, [SetTab]);
    ReadsCsi([], [0], TBC);
    ReadsCsi([], [3], TBC);
    StopsExecute(e);
    hide *;
    OneGives(e, [ESC, 72], SetTab);
    OneGives(e, Encode([], [0], TBC), Csi(TBC, [0], []));
    OneGives(e, Encode([], [3], TBC), Csi(TBC, [3], []));
  }

  lemma StopsExecute(e: Emu)
    requires EmuInv(e)
    ensures WellFormed(SetTab) && Admissible(e, SetTab) && Exec(e, SetTab) == e.(buf := e.buf.(tabs := e.buf.tabs + {e.buf.x}))
    ensures var c := Csi(TBC, [0], []);
      WellFormed(c) && Admissible(e, c) && Exec(e, c) == e.(buf := e.buf.(tabs := e.buf.tabs - {e.buf.x}))
    ensures var c := Csi(TBC, [3], []);
      WellFormed(c) && Admissible(e, c) && Exec(e, c) == e.(buf := e.buf.(tabs := {}))
  {
    hide EmuInv;
  }

  // ---- Character sets --------------------------------------------------------------------------

  /** The set in force is the one designated to the current level. */
  predicate InForce(c: Charsets) { c.current == if c.level in c.sets then c.sets[c.level] else Plain }

  lemma ModeKeepsInForce(e: Emu, prefix: Text, p: nat)
    requires EmuInv(e) && InForce(e.charsets)
    ensures InForce(SetMode(e, prefix, p).charsets) && InForce(ResetMode(e, prefix, p).charsets)
  {
    hide EmuInv, Resize, PlainAll, InForce;
    PlainInForce(e.charsets);
  }

  lemma PlainInForce(c: Charsets)
    requires InForce(c)
    ensures InForce(PlainAll(c)) && InForce(FRESH_CHARSETS)
  {
  }

  /** Whatever the modes are set to. */
  lemma {:induction false} ModesKeepInForce(e: Emu, prefix: Text, ps: seq<nat>)
    requires EmuInv(e) && InForce(e.charsets)
    ensures InForce(SetModes(e, prefix, ps).charsets) && InForce(ResetModes(e, prefix, ps).charsets)
    decreases |ps|
  {
    hide EmuInv, SetMode, ResetMode, InForce;
    if ps != [] {
      ModeKeepsInForce(e, prefix, ps[0]);
      ModesKeepInForce(SetMode(e, prefix, ps[0]), PrefixAfter(e, prefix, ps[0]), ps[1..]);
      ModesKeepInForce(ResetMode(e, prefix, ps[0]), prefix, ps[1..]);
    }
  }

  lemma CommandKeepsInForce(e: Emu, c: Cmd)
    requires EmuInv(e) && WellFormed(c) && InForce(e.charsets)
    ensures InForce(Exec(e, c).charsets)
  {
    hide EmuInv, SetModes, ResetModes, MoveCursor, EditBuffer, Put, Index, ReverseIndex, ScrollDown,
      TabClear, SetScrollRegion;
    if c.Csi? { ModesKeepInForce(e, c.prefix, c.params); }
  }

  lemma {:induction false} SetInForce(e: Emu, cmds: seq<Cmd>)
    requires EmuInv(e) && InForce(e.charsets) && AllWellFormed(cmds) && AdmissibleAll(e, cmds)
    ensures InForce(ExecAll(e, cmds).charsets)
    decreases |cmds|
  {
    hide EmuInv, Exec, Admissible, WellFormed, InForce;
    if cmds != [] {
      ExecKeepsInvariant(e, cmds[0]);
      CommandKeepsInForce(e, cmds[0]);
      SetInForce(Exec(e, cmds[0]), cmds[1..]);
    }
  }

  /** The level that the unit behind ESC designates to. */
  predicate Designator(u: CodeUnit, g: nat) {
    (u == 40 && g == 0) || ((u == 41 || u == 45) && g == 1) || ((u == 42 || u == 46) && g == 2) || (u == 43 && g == 3)
  }

  /** Designated is r if level g has set cs in it, all else being as in e. */
  ghost predicate Designated(e: Emu, r: Emu, g: nat, cs: Charset) {
    && r == e.(charsets := r.charsets) && r.charsets.level == e.charsets.level && r.charsets.sets == e.charsets.sets[g := cs]
    && r.charsets.current == if e.charsets.level == g then cs else e.charsets.current
  }

  /** ESC ( 0 and its like make level g draw lines, any other set is plain. */
  lemma DesignateText(e: Emu, u: CodeUnit, g: nat, v: CodeUnit)
    requires EmuInv(e) && Designator(u, g) && IsPlain(v) && v != 47
    ensures Runs(e, Ground, [ESC, u, v])
    ensures Designated(e, After(e, Ground, [ESC, u, v]), g, if v == 48 then Graphics else Plain)
  {
    var cs := if v == 48 then Graphics else Plain;
    ReadsDesignation(u, g, v, Designate(g, cs));
    hide Scan, After, Runs;
    OneGives(e, [ESC, u, v], Designate(g, cs));
    Given(e, [ESC, u, v]);
  }

  lemma ReadsDesignation(u: CodeUnit, g: nat, v: CodeUnit, c: Cmd)
    requires Designator(u, g) && IsPlain(v) && React(Designating(g), [v], v) == Reaction(Ground, [c], 1)
    ensures Reads([ESC, u, v], [c])
  {
    assert [ESC, u, v] == [ESC] + [u, v] && [u, v] == [u] + [v] && [v] + [] == [v] && [c] + [] == [c];
    assert React(Escape, [u], u) == Reaction(Designating(g), [], 1);
    EscapeOpens([u, v]);
    hide Scan, React;
    Unit(Escape, u, [v]);
    PrependNothing(Scan(Designating(g), [v], 0));
    Unit(Designating(g), v, []);
    ReadsNothing();
  }

  /** SO and SI, and the locking shifts: the set of that level comes into force. The
      shifts of ESC leave the escaped state open, which the next plain character closes. */
  lemma ShiftTexts(e: Emu, g: nat)
    requires EmuInv(e) && g <= 3
    ensures var text := if g == 0 then [15] else if g == 1 then [14] else [ESC, if g == 2 then 110 else 111, 65];
      && Runs(e, Ground, text)
      && After(e, Ground, text) ==
           e.(charsets := e.charsets.(level := g, current := if g in e.charsets.sets then e.charsets.sets[g] else Plain))
  {
    var text := if g == 0 then [15] else if g == 1 then [14] else [ESC, if g == 2 then 110 else 111, 65];
    if g <= 1 { ReadsUnit(text[0], [ShiftTo(g)]); } else { ReadsShift(text[1], g); }
    hide Scan, After, Runs;
    OneGives(e, text, ShiftTo(g));
    Given(e, text);
  }

  lemma ReadsShift(u: CodeUnit, g: nat)
    requires (u == 110 && g == 2) || ((u == 111 || u == 124) && g == 3) || (u == 125 && g == 2) || (u == 126 && g == 1)
    ensures Reads([ESC, u, 65], [ShiftTo(g)])
  {
    assert [ESC, u, 65] == [ESC] + [u, 65] && [u, 65] == [u] + [65] && [65] + [] == [65];
    assert React(Escape, [u], u) == Reaction(Escape, [ShiftTo(g)], 1) && React(Escape, [65], 65) == Reaction(Ground, [], 1);
    EscapeOpens([u, 65]);
    hide Scan, React;
    Unit(Escape, u, [65]);
    Unit(Escape, 65, []);
    ReadsNothing();
    PrependNothing(Scan(Ground, [], 0));
  }

  /** The cell a printed unit is found in. */
  predicate Printed(b: Buf, ch: Text) {
    0 <= b.y < |b.screen| && 1 <= b.x <= |b.screen[b.y]| && b.screen[b.y][b.x - 1].ch == ch
  }

  /** While line drawing is in force, the units from '`' to '~' come out as lines; all
      other printable units, and these in a plain set, as themselves. */
  lemma DrawnText(e: Emu, u: CodeUnit)
    requires EmuInv(e) && 0x20 <= u < 0x7f
    ensures Runs(e, Ground, [u])
    ensures Printed(After(e, Ground, [u]).buf,
                    [if e.charsets.current == Graphics && 96 <= u then GRAPHICS[u - 96] else u])
  {
    hide *;
    DrawnReads(u);
    DrawnExecutes(e, u);
    OneGives(e, [u], Print([u], 1));
    Given(e, [u]);
  }

  lemma DrawnReads(u: CodeUnit)
    requires 0x20 <= u < 0x7f
    ensures Reads([u], [Print([u], 1)]) && WellFormed(Print([u], 1))
  {
    AsciiIsNarrow(u);
    ReadsUnit(u, [Print([u], 1)]);
  }

  lemma DrawnExecutes(e: Emu, u: CodeUnit)
    requires EmuInv(e) && 0x20 <= u < 0x7f
    ensures Admissible(e, Print([u], 1))
    ensures Printed(Exec(e, Print([u], 1)).buf, [if e.charsets.current == Graphics && 96 <= u then GRAPHICS[u - 96] else u])
  {
    hide Put;
    var ch := [if e.charsets.current == Graphics && 96 <= u then GRAPHICS[u - 96] else u];
    PutShows(e.buf, e.cfg.scrollback, e.wrap, e.insert, e.attr, ch);
    assert Translate(e.charsets.current, [u]) == ch;
  }

  // ---- Reset -------------------------------------------------------------------------------------

  /** RIS in fields: a blank screen and no history, the cursor at home, full margins, a stop
      in every eighth column, default pen, modes and sets. Size, options, saved cursor and
      width, replies and title stay. */
  lemma ResetText(e: Emu)
    requires EmuInv(e)
    ensures Runs(e, Ground, [ESC, 99])
    ensures var b, r := e.buf, After(e, Ground, [ESC, 99]);
      && r.buf.rows == b.rows && r.buf.cols == b.cols && r.buf.history == [] && r.buf.ydisp == 0
      && r.buf.screen == Copies(b.rows, Copies(b.cols, Cell(DEF_ATTR, [SPACE], 1)))
      && r.buf.x == 0 && r.buf.y == 0 && r.buf.top == 0 && r.buf.bottom == b.rows - 1
      && (forall t :: t in r.buf.tabs <==> 0 <= t < b.cols && t % 8 == 0)
      && r == e.(buf := r.buf, normal := None, attr := DEF_ATTR, insert := false, wrap := true,
                 shown := false, hidden := false, charsets := FRESH_CHARSETS)
  {
    ReadsEscape(99, [FullReset]);
    hide Scan, After, Runs;
    OneGives(e, [ESC, 99], FullReset);
    Given(e, [ESC, 99]);
  }

  // ---- Without effect ------------------------------------------------------------------------------

  /** Units that do nothing at rest. */
  predicate Idles(u: CodeUnit) { u < 32 && !(8 <= u <= 15) && u != ESC }

  /** Units that do nothing behind ESC, and end it. */
  predicate IdlesEscaped(u: CodeUnit) {
    IsPlain(u) && !(40 <= u <= 43) && !(45 <= u <= 47) && !(77 <= u <= 80) && !(93 <= u <= 95) && !(124 <= u <= 126)
    && u !in {35, 37, 55, 56, 68, 69, 72, 91, 99, 110, 111}
  }

  lemma IdleTexts(e: Emu, u: CodeUnit)
    requires EmuInv(e)
    ensures Idles(u) ==> Gives(e, [u], e)
    ensures IdlesEscaped(u) ==> Gives(e, [ESC, u], e)
    ensures IsPlain(u) ==> Gives(e, [ESC, 35, u], e)
  {
    if Idles(u) {
      ReadsUnit(u, []);
      NothingGives(e, [u]);
    }
    if IdlesEscaped(u) {
      ReadsEscape(u, []);
      NothingGives(e, [ESC, u]);
    }
    if IsPlain(u) {
      SkipsOne(35, u, []);
      NothingGives(e, [ESC, 35, u]);
    }
  }

  /** ESC, a unit that skips the next one, and that one. */
  lemma SkipsOne(u: CodeUnit, skipped: CodeUnit, cmds: seq<Cmd>)
    requires IsPlain(u) && React(Escape, [u], u) == Reaction(Ground, cmds, 2)
    ensures Reads([ESC, u, skipped], cmds)
  {
    var rest: Text := [u, skipped];
    assert [ESC, u, skipped] == [ESC] + rest && rest[..1] == [u] && rest[2..] == [];
    EscapeOpens(rest);
    assert Next(Escape, rest) == Reaction(Ground, cmds, 2);
    ReadsNothing();
    assert cmds + [] == cmds;
  }

  /** ESC % and one unit: level 0 again, and plain. */
  lemma DefaultSetText(e: Emu, u: CodeUnit)
    requires EmuInv(e)
    ensures Runs(e, Ground, [ESC, 37, u])
    ensures After(e, Ground, [ESC, 37, u]) ==
      e.(charsets := Charsets(0, e.charsets.sets[0 := Plain], Plain))
  {
    var cmds := [ShiftTo(0), Designate(0, Plain)];
    SkipsOne(37, u, cmds);
    hide Scan;
    assert cmds == [cmds[0]] + [cmds[1]];
    SingleCommand(e, cmds[0]);
    SingleCommand(Exec(e, cmds[0]), cmds[1]);
    ExecAllComposes(e, [cmds[0]], [cmds[1]]);
  }

  /** Single shifts are passed over: ESC stays open for what follows. */
  lemma SingleShifts(u: CodeUnit, rest: Text)
    requires u == 78 || u == 79
    ensures Scan(Ground, [ESC] + ([u] + rest), 0) == Scan(Ground, [ESC] + rest, 0)
  {
    assert React(Escape, [u], u) == Reaction(Escape, [], 1);
    hide Scan, React;
    EscapeOpens([u] + rest);
    EscapeOpens(rest);
    Unit(Escape, u, rest);
    PrependNothing(Scan(Escape, rest, 0));
  }

  /** ESC / steps back to be read as a set of level 3, which is plain and skips a unit. */
  lemma SlashDesignates(skipped: CodeUnit)
    ensures Reads([ESC] + [47, skipped], [Designate(3, Plain)])
  {
    var rest: Text := [47, skipped];
    assert rest[..1] == [47] && rest[0..] == rest;
    assert Next(Escape, rest) == Reaction(Designating(3), [], 0);
    EscapeOpens(rest);
    SlashSkips(3, skipped);
    assert Scan(Escape, rest, 0) == Prepend([], Scan(Designating(3), rest, 0));
  }

  /** So does a '/' behind any other designator. */
  lemma SlashIsPlain(u: CodeUnit, g: nat, skipped: CodeUnit)
    requires Designator(u, g)
    ensures Reads([ESC] + ([u] + [47, skipped]), [Designate(g, Plain)])
  {
    assert React(Escape, [u], u) == Reaction(Designating(g), [], 1);
    hide Scan, React;
    SlashSkips(g, skipped);
    EscapeOpens([u] + [47, skipped]);
    Unit(Escape, u, [47, skipped]);
    PrependNothing(Scan(Designating(g), [47, skipped], 0));
  }

  lemma SlashSkips(g: nat, skipped: CodeUnit)
    ensures Scan(Designating(g), [47, skipped], 0) == Scanned(Ground, [], [Designate(g, Plain)], false)
  {
    var rest: Text := [47, skipped];
    assert rest[..1] == [47] && rest[2..] == [];
    assert Next(Designating(g), rest) == Reaction(Ground, [Designate(g, Plain)], 2);
    ReadsNothing();
    assert [Designate(g, Plain)] + [] == [Designate(g, Plain)];
  }
}
