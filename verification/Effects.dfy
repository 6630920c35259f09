/** What a command can change: history, the saved screen, and which rows; and what
    it announces to the renderer while doing so. */
module Effects {
  import opened Sequences
  import opened Buffer
  import opened Resizing
  import opened Emulator

  // ---- Scrollback -------------------------------------------------------------

  predicate SwitchesScreen(p: nat) { p == 3 || IsAltMode(p) }

  /** RIS, and the private modes for the alternate screen and for 132 columns. */
  predicate Switches(c: Cmd) {
    || c.FullReset?
    || (c.Csi? && (c.final == SM || c.final == RM) && c.prefix == PRIVATE
        && exists i :: 0 <= i < |c.params| && SwitchesScreen(c.params[i]))
  }

  predicate AtMargin(b: Buf) { b.y + 1 > b.bottom }

  /** Whether the command scrolls the region up by a line. */
  predicate Scrolls(e: Emu, c: Cmd) {
    match c
    case LineFeed => AtMargin(e.buf)
    case NextLine => AtMargin(e.buf)
    case IndexDown => AtMargin(e.buf)
    case Print(_, w) => !(w == 0 && e.buf.x > 0) && Overflows(e.buf, w) && e.wrap && AtMargin(e.buf)
    case _ => false
  }

  /** The line that leaves the screen at the top, if one does. */
  function ScrolledOff(e: Emu, c: Cmd): seq<Line>
    requires EmuInv(e)
  {
    if Scrolls(e, c) && e.buf.top == 0 then [e.buf.screen[0]] else []
  }

  lemma PlainModeKeepsBuffer(e: Emu, prefix: Text, p: nat)
    requires EmuInv(e)
    requires prefix == PRIVATE ==> !SwitchesScreen(p)
    ensures SameBuffer(e, SetMode(e, prefix, p)) && SameBuffer(e, ResetMode(e, prefix, p))
    ensures PrefixAfter(e, prefix, p) == prefix
  {
    hide EmuInv, EnterAlt, LeaveAlt, ResizeTo;
  }

  ghost predicate SameBuffer(e: Emu, r: Emu) {
    r.buf == e.buf && r.normal == e.normal && r.cfg == e.cfg
  }

  lemma {:induction false} PlainModesKeepBuffer(e: Emu, prefix: Text, ps: seq<nat>)
    requires EmuInv(e)
    requires prefix == PRIVATE ==> forall i :: 0 <= i < |ps| ==> !SwitchesScreen(ps[i])
    ensures SameBuffer(e, SetModes(e, prefix, ps)) && SameBuffer(e, ResetModes(e, prefix, ps))
    decreases |ps|
  {
    hide EmuInv, SetMode, ResetMode, PrefixAfter, SwitchesScreen;
    if ps != [] {
      PlainModeKeepsBuffer(e, prefix, ps[0]);
      PlainModesKeepBuffer(SetMode(e, prefix, ps[0]), prefix, ps[1..]);
      PlainModesKeepBuffer(ResetMode(e, prefix, ps[0]), prefix, ps[1..]);
    }
  }

  /** r differs from e as any command but a screen switch may. */
  ghost predicate Framed(e: Emu, r: Emu, scrolls: bool, off: seq<Line>) {
    && r.normal == e.normal && r.cfg == e.cfg
    && r.buf.rows == e.buf.rows && r.buf.cols == e.buf.cols
    && IsSuffix(r.buf.history, e.buf.history + off)
    && (!scrolls ==> r.buf.history == e.buf.history && r.buf.ydisp == e.buf.ydisp)
    && (scrolls ==> r.buf.ydisp == |r.buf.history|)
    && (|e.buf.history| < e.cfg.scrollback ==> |r.buf.history| < e.cfg.scrollback)
    && (r.buf.history == e.buf.history + off || TrimmedAt(e.buf, r.buf, e.cfg.scrollback))
  }

  /** Lines are dropped only when the limit is reached, and about half stay. */
  ghost predicate TrimmedAt(b: Buf, r: Buf, scrollback: nat) {
    |b.history| + 1 == scrollback && |r.history| >= scrollback / 2 - 1
  }

  /** Short of a screen switch, no command touches the saved screen or the size, and
      history only ever gains the line that scrolled off and loses its oldest ones. */
  lemma CommandFrame(e: Emu, c: Cmd)
    requires EmuInv(e) && WellFormed(c) && !Switches(c)
    ensures Framed(e, Exec(e, c), Scrolls(e, c), ScrolledOff(e, c))
  {
    if c.Csi? {
      if c.final == SM || c.final == RM { PlainModesKeepBuffer(e, c.prefix, c.params); }
      hide *;
      CsiCommandFrame(e, c);
    } else if c.Print? {
      PrintCommandFrame(e, c);
    } else if c.LineFeed? || c.NextLine? || c.IndexDown? {
      IndexCommandFrame(e, c);
    } else {
      OtherCommandFrame(e, c);
    }
  }

  lemma CsiCommandFrame(e: Emu, c: Cmd)
    requires EmuInv(e) && WellFormed(c) && c.Csi?
    requires c.final == SM ==> SameBuffer(e, SetModes(e, c.prefix, c.params))
    requires c.final == RM ==> SameBuffer(e, ResetModes(e, c.prefix, c.params))
    ensures Framed(e, Exec(e, c), Scrolls(e, c), ScrolledOff(e, c))
  {
    hide ExecCsi;
    assert e.buf.history + [] == e.buf.history;
    CsiFrame(e, c.final, c.params, c.prefix);
  }

  lemma PrintCommandFrame(e: Emu, c: Cmd)
    requires EmuInv(e) && WellFormed(c) && c.Print?
    ensures Framed(e, Exec(e, c), Scrolls(e, c), ScrolledOff(e, c))
  {
    hide Put, Translate, Inv;
    var scrollback := e.cfg.scrollback;
    PutFrame(e.buf, scrollback, e.wrap, e.insert, e.attr, Translate(e.charsets.current, c.ch), c.w);
    assert Scrolls(e, c) && e.buf.top == 0 ==> |e.buf.screen| > 0 by { Inv0(e.buf); }
  }

  lemma IndexCommandFrame(e: Emu, c: Cmd)
    requires EmuInv(e) && (c.LineFeed? || c.NextLine? || c.IndexDown?)
    ensures Framed(e, Exec(e, c), Scrolls(e, c), ScrolledOff(e, c))
  {
    hide Index, Inv;
    Inv0(e.buf);
    IndexFrame(e.buf, e.cfg.scrollback);
    IndexFrame(e.buf.(x := 0), e.cfg.scrollback);
  }

  lemma OtherCommandFrame(e: Emu, c: Cmd)
    requires EmuInv(e) && WellFormed(c) && !Switches(c)
    requires !c.Csi? && !c.Print? && !c.LineFeed? && !c.NextLine? && !c.IndexDown?
    ensures Framed(e, Exec(e, c), Scrolls(e, c), ScrolledOff(e, c))
  {
    hide ReportStatus, StatusReply, ExecCsi, PrintChar;
    assert e.buf.history + [] == e.buf.history;
  }

  lemma Inv0(b: Buf)
    requires Inv(b)
    ensures Inv(b.(x := 0)) && |b.screen| > 0
  {
  }

  lemma CsiFrame(e: Emu, final: CodeUnit, ps: seq<nat>, prefix: Text)
    requires EmuInv(e) && |ps| >= 1
    requires final == SM ==> SameBuffer(e, SetModes(e, prefix, ps))
    requires final == RM ==> SameBuffer(e, ResetModes(e, prefix, ps))
    ensures var r := ExecCsi(e, final, ps, prefix);
      && r.normal == e.normal && r.cfg == e.cfg
      && r.buf.rows == e.buf.rows && r.buf.cols == e.buf.cols
      && r.buf.history == e.buf.history && r.buf.ydisp == e.buf.ydisp
  {
    hide SetModes, ResetModes, MoveCursor, EditBuffer, DeviceStatus, DeviceAttributes, ScrollDown, EmuInv, Inv;
    if !IsMove(final) && !IsEdit(final) {
      match final
      case SM =>
      case RM =>
      case _ =>
    }
  }

  /** The buffer's share of a frame. */
  ghost predicate BufFramed(b: Buf, r: Buf, scrollback: nat, scrolls: bool) {
    var off := if scrolls && b.top == 0 && |b.screen| > 0 then [b.screen[0]] else [];
    && r.rows == b.rows && r.cols == b.cols
    && IsSuffix(r.history, b.history + off)
    && (r.history == b.history + off || TrimmedAt(b, r, scrollback))
    && (!scrolls ==> r.history == b.history && r.ydisp == b.ydisp)
    && (scrolls ==> r.ydisp == |r.history|)
    && (|b.history| < scrollback ==> |r.history| < scrollback)
  }

  lemma IndexFrame(b: Buf, scrollback: nat)
    requires Inv(b) && scrollback != 1
    ensures BufFramed(b, Index(b, scrollback), scrollback, AtMargin(b))
  {
    hide ScrolledHistory;
    assert b.history + [] == b.history;
  }

  lemma PutFrame(b: Buf, scrollback: nat, wrap: bool, insert: bool, attr: nat, ch: Text, w: nat)
    requires Inv(b) && scrollback != 1 && w <= 2
    ensures var scrolls := !(w == 0 && b.x > 0) && Overflows(b, w) && wrap && AtMargin(b);
      BufFramed(b, Put(b, scrollback, wrap, insert, attr, ch, w), scrollback, scrolls)
  {
    hide Place, Combine, Index;
    IndexFrame(b.(x := 0), scrollback);
    assert b.history + [] == b.history;
  }

  // ---- Runs -----------------------------------------------------------------------

  ghost predicate NoSwitch(cmds: seq<Cmd>) {
    forall i {:trigger cmds[i]} :: 0 <= i < |cmds| ==> !Switches(cmds[i])
  }

  /** Every line that left the screen at the top during a run, in order. */
  ghost function Log(e: Emu, cmds: seq<Cmd>): seq<Line>
    requires EmuInv(e) && AllWellFormed(cmds) && AdmissibleAll(e, cmds)
    decreases |cmds|
  {
    if cmds == [] then []
    else
      ExecKeepsInvariant(e, cmds[0]);
      ScrolledOff(e, cmds[0]) + Log(Exec(e, cmds[0]), cmds[1..])
  }

  /** h holds the most recent part of h0 and the log, in order and without gaps; it
      stays below the limit if it is; nothing is dropped while there is room, about half
      the limit is kept, and nothing is dropped ever again once the limit is passed. */
  ghost predicate Conserves(h0: seq<Line>, log: seq<Line>, h: seq<Line>, scrollback: nat) {
    && IsSuffix(h, h0 + log)
    && (|h0| < scrollback ==> |h| < scrollback)
    && (|h0| >= scrollback ==> h == h0 + log)
    && (|h0| + |log| + 1 < scrollback || scrollback == 0 ==> h == h0 + log)
    && (h == h0 + log || |h| >= scrollback / 2 - 1)
  }

  lemma ConservationComposes(h0: seq<Line>, off: seq<Line>, h1: seq<Line>, log: seq<Line>, h2: seq<Line>, scrollback: nat)
    requires Conserves(h0, off, h1, scrollback) && Conserves(h1, log, h2, scrollback)
    ensures Conserves(h0, off + log, h2, scrollback)
  {
    assert (h0 + off) + log == h0 + (off + log);
    SuffixOfSuffix(h1, h0 + off, h2, log);
  }

  /** The scrollback after any run without a screen switch. */
  lemma {:induction false} ScrollbackConserved(e: Emu, cmds: seq<Cmd>)
    requires EmuInv(e) && AllWellFormed(cmds) && AdmissibleAll(e, cmds) && NoSwitch(cmds)
    ensures Conserves(e.buf.history, Log(e, cmds), ExecAll(e, cmds).buf.history, e.cfg.scrollback)
    decreases |cmds|
  {
    hide Exec, EmuInv, Admissible, WellFormed, ScrolledOff, Switches, Scrolls, Conserves;
    if cmds == [] {
      NothingConserved(e.buf.history, e.cfg.scrollback);
    } else {
      var r, off := Exec(e, cmds[0]), ScrolledOff(e, cmds[0]);
      ExecKeepsInvariant(e, cmds[0]);
      CommandFrame(e, cmds[0]);
      FrameConserves(e, r, Scrolls(e, cmds[0]), off);
      ScrollbackConserved(r, cmds[1..]);
      ConservationComposes(e.buf.history, off, r.buf.history, Log(r, cmds[1..]), ExecAll(e, cmds).buf.history, e.cfg.scrollback);
    }
  }

  lemma NothingConserved(h: seq<Line>, scrollback: nat)
    ensures Conserves(h, [], h, scrollback)
  {
    assert h + [] == h;
  }

  lemma FrameConserves(e: Emu, r: Emu, scrolls: bool, off: seq<Line>)
    requires Framed(e, r, scrolls, off)
    ensures Conserves(e.buf.history, off, r.buf.history, e.cfg.scrollback) && r.cfg == e.cfg
  {
  }

  lemma SuffixOfSuffix<T>(a: seq<T>, b: seq<T>, c: seq<T>, t: seq<T>)
    requires IsSuffix(a, b) && IsSuffix(c, a + t)
    ensures IsSuffix(c, b + t)
  {
    assert b + t == b[..|b| - |a|] + (a + t);
  }

  /** For a terminal that starts fresh: what was trimmed and what is in the scrollback
      make up exactly what ever scrolled off. */
  lemma ScrollbackFromFresh(cfg: Config, rows: int, cols: int, cmds: seq<Cmd>)
    requires cfg.scrollback >= 2 && 1 <= rows && 1 <= cols && AllWellFormed(cmds)
    requires AdmissibleAll(Fresh(cfg, rows, cols), cmds) && NoSwitch(cmds)
    ensures var e := Fresh(cfg, rows, cols);
      var h, log := ExecAll(e, cmds).buf.history, Log(e, cmds);
      |h| <= |log| && log[..|log| - |h|] + h == log && |h| < cfg.scrollback
  {
    var e := Fresh(cfg, rows, cols);
    ScrollbackConserved(e, cmds);
    hide EmuInv, ExecAll, AdmissibleAll, Log, AllWellFormed, NoSwitch;
    assert e.buf.history + Log(e, cmds) == Log(e, cmds);
  }

  /** A shrink that pushes the scrollback to its limit or past it ends all trimming: the
      limit is only noticed when it is hit exactly, and from then on every line that
      scrolls off is kept. */
  lemma ShrinkEndsTrimming(e: Emu, k: nat, cmds: seq<Cmd>)
    requires EmuInv(e) && 1 <= k < e.buf.rows && AllWellFormed(cmds)
    requires var f := ResizeTo(e, e.buf.cols, e.buf.rows - k); AdmissibleAll(f, cmds) && NoSwitch(cmds)
    ensures var f := ResizeTo(e, e.buf.cols, e.buf.rows - k);
      |e.buf.history| + k - Cut(e.buf, k) >= e.cfg.scrollback ==>
        ExecAll(f, cmds).buf.history == f.buf.history + Log(f, cmds) && |f.buf.history| >= e.cfg.scrollback
  {
    hide Inv, Resize, ExecAll, Log, AdmissibleAll;
    var f := ResizeTo(e, e.buf.cols, e.buf.rows - k);
    ScrollbackConserved(f, cmds);
    ShrinkHistory(e.buf, k, e.cfg.scrollback);
  }

  // ---- The alternate screen -------------------------------------------------------

  ghost predicate Mentions(ps: seq<nat>, p: nat) { exists i :: 0 <= i < |ps| && ps[i] == p }

  /** RIS, a change to or from 132 columns, and leaving the alternate screen. */
  ghost predicate Leaves(c: Cmd) {
    || c.FullReset?
    || (c.Csi? && c.prefix == PRIVATE && c.final == SM && Mentions(c.params, 3))
    || (c.Csi? && c.prefix == PRIVATE && c.final == RM && exists i :: 0 <= i < |c.params| && SwitchesScreen(c.params[i]))
  }

  /** On the alternate screen, setting its mode again does nothing. */
  lemma {:induction false} SetModesOnAlt(e: Emu, prefix: Text, ps: seq<nat>)
    requires EmuInv(e) && e.normal.Some?
    requires prefix == PRIVATE ==> !Mentions(ps, 3)
    ensures SameBuffer(e, SetModes(e, prefix, ps))
    decreases |ps|
  {
    if ps != [] {
      assert prefix == PRIVATE ==> ps[0] != 3;
      assert forall i :: 0 <= i < |ps[1..]| ==> ps[1..][i] == ps[i + 1];
      SetModeOnAlt(e, prefix, ps[0]);
      hide SetMode, EmuInv, PrefixAfter;
      SetModesOnAlt(SetMode(e, prefix, ps[0]), prefix, ps[1..]);
    }
  }

  lemma SetModeOnAlt(e: Emu, prefix: Text, p: nat)
    requires EmuInv(e) && e.normal.Some? && (prefix == PRIVATE ==> p != 3)
    ensures SameBuffer(e, SetMode(e, prefix, p)) && PrefixAfter(e, prefix, p) == prefix
  {
    hide EmuInv;
  }

  /** No command but those three reaches the saved buffer. */
  lemma AltCommandFrame(e: Emu, c: Cmd)
    requires EmuInv(e) && e.normal.Some? && WellFormed(c) && !Leaves(c)
    ensures var r := Exec(e, c);
      r.normal == e.normal && r.buf.rows == e.buf.rows && r.buf.cols == e.buf.cols
  {
    if c.Csi? && c.final == SM {
      SetModesOnAlt(e, c.prefix, c.params);
      CsiCommandFrame(e, c);
    } else {
      CommandFrame(e, c);
    }
  }

  ghost predicate NoLeave(cmds: seq<Cmd>) {
    forall i {:trigger cmds[i]} :: 0 <= i < |cmds| ==> !Leaves(cmds[i])
  }

  lemma {:induction false} AltRunKeepsSaved(e: Emu, cmds: seq<Cmd>)
    requires EmuInv(e) && e.normal.Some?
    requires AllWellFormed(cmds) && AdmissibleAll(e, cmds) && NoLeave(cmds)
    ensures var r := ExecAll(e, cmds);
      r.normal == e.normal && r.buf.rows == e.buf.rows && r.buf.cols == e.buf.cols
    decreases |cmds|
  {
    hide Exec, EmuInv, Admissible, WellFormed, Leaves;
    if cmds != [] {
      ExecKeepsInvariant(e, cmds[0]);
      AltCommandFrame(e, cmds[0]);
      AltRunKeepsSaved(Exec(e, cmds[0]), cmds[1..]);
    }
  }

  /** Whatever runs on the alternate screen, leaving it brings back lines, history,
      viewport, cursor, margins and tab stops exactly as they were. */
  lemma AltScreenRoundTrip(e: Emu, cmds: seq<Cmd>)
    requires EmuInv(e) && e.normal.None?
    requires AllWellFormed(cmds) && AdmissibleAll(EnterAlt(e), cmds) && NoLeave(cmds)
    ensures var r := LeaveAlt(ExecAll(EnterAlt(e), cmds));
      r.buf == e.buf && r.normal == None
  {
    AltRunKeepsSaved(EnterAlt(e), cmds);
  }
}
