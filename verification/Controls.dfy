/** Control characters and short escapes as texts: what each does to the terminal, in
    fields, and the laws between them. */
module Controls {
  import opened Sequences
  import opened TabStops
  import opened Buffer
  import opened Editing
  import opened Emulator
  import opened Parser
  import opened Replays
  import opened Texts
  import opened Effects

  const LF: CodeUnit := 10
  const CR: CodeUnit := 13
  const BS: CodeUnit := 8
  const HT: CodeUnit := 9

  // ---- Lines up and down ---------------------------------------------------------------------

  /** From b one line down to column x: the cursor moves, or below it the region moves up
      by a row and the row that leaves a region at the top of the screen joins history. */
  ghost predicate LineFed(b: Buf, r: Buf, x: int, scrollback: nat)
    requires Inv(b)
  {
    if b.y < b.bottom then r == b.(x := x, y := b.y + 1)
    else
      var joined := if b.top == 0 then b.history + [b.screen[0]] else b.history;
      && r == b.(x := x, history := r.history, ydisp := |r.history|, screen := r.screen)
      && IsSuffix(r.history, joined) && (|b.history| + 1 != scrollback ==> r.history == joined)
      && |r.screen| == |b.screen|
      && forall i {:trigger r.screen[i]} :: 0 <= i < b.rows ==>
           r.screen[i] == (if !(b.top <= i <= b.bottom) then b.screen[i]
                           else if i == b.bottom then BlankLine(b.cols, DEF_ATTR) else b.screen[i + 1])
  }

  /** One line up: the cursor moves, or the rows from it to the bottom margin move down. */
  ghost predicate ReverseFed(b: Buf, r: Buf, attr: nat)
    requires Inv(b)
  {
    if b.y > b.top then r == b.(y := b.y - 1)
    else
      && r == b.(screen := r.screen) && |r.screen| == |b.screen|
      && forall i {:trigger r.screen[i]} :: 0 <= i < b.rows ==>
           r.screen[i] == (if !(b.y <= i <= b.bottom) then b.screen[i]
                           else if i == b.y then BlankLine(b.cols, EraseAttr(attr)) else b.screen[i - 1])
  }

  lemma IndexFeeds(b: Buf, x: int, scrollback: nat)
    requires Inv(b) && scrollback != 1 && 0 <= x <= b.cols
    ensures LineFed(b, Index(b.(x := x), scrollback), x, scrollback)
  {
    hide Scroll, ScrolledHistory, BlankLine;
    ScrollMovesRegion(b.(x := x), scrollback);
    ScrollKeepsFields(b.(x := x), scrollback);
  }

  lemma ScrollKeepsFields(b: Buf, scrollback: nat)
    requires Inv(b) && scrollback != 1
    ensures var r := Scroll(b, scrollback); r == b.(history := r.history, ydisp := r.ydisp, screen := r.screen)
  {
  }

  lemma ReverseIndexFeeds(b: Buf, attr: nat)
    requires Inv(b)
    ensures ReverseFed(b, ReverseIndex(b, attr), attr)
  {
    hide ShiftDown, BlankLine;
    ShiftedElements(b.screen, b.y, Max(b.bottom + 1, b.y), 1, BlankLine(b.cols, EraseAttr(attr)));
  }

  /** LF, VT and FF go a line down, to column 0 only if line ends are converted. */
  lemma LineFeedText(e: Emu, u: CodeUnit)
    requires EmuInv(e) && (u == LF || u == 11 || u == 12)
    ensures Reads([u], [LineFeed]) && Runs(e, Ground, [u])
    ensures var r := After(e, Ground, [u]);
      r == e.(buf := r.buf) && LineFed(e.buf, r.buf, if e.cfg.convertEol then 0 else e.buf.x, e.cfg.scrollback)
  {
    hide Index, LineFed;
    ReadsUnit(u, [LineFeed]);
    OneGives(e, [u], LineFeed);
    IndexFeeds(e.buf, if e.cfg.convertEol then 0 else e.buf.x, e.cfg.scrollback);
  }

  /** CR goes to column 0 and BS one column left of where it is. */
  lemma ReturnText(e: Emu)
    requires EmuInv(e)
    ensures Reads([CR], [CarriageReturn]) && Gives(e, [CR], e.(buf := e.buf.(x := 0)))
    ensures Reads([BS], [Backspace]) && Gives(e, [BS], e.(buf := e.buf.(x := e.buf.x - if e.buf.x == 0 then 0 else 1)))
  {
    ReadsUnit(CR, [CarriageReturn]);
    OneGives(e, [CR], CarriageReturn);
    ReadsUnit(BS, [Backspace]);
    OneGives(e, [BS], Backspace);
  }

  /** ESC D and ESC M go a line down and up, ESC E down to column 0. */
  lemma IndexTexts(e: Emu)
    requires EmuInv(e)
    ensures Reads([ESC, 68], [IndexDown]) && Runs(e, Ground, [ESC, 68])
    ensures var r := After(e, Ground, [ESC, 68]); r == e.(buf := r.buf) && LineFed(e.buf, r.buf, e.buf.x, e.cfg.scrollback)
    ensures Reads([ESC, 69], [NextLine]) && Runs(e, Ground, [ESC, 69])
    ensures var r := After(e, Ground, [ESC, 69]); r == e.(buf := r.buf) && LineFed(e.buf, r.buf, 0, e.cfg.scrollback)
    ensures Reads([ESC, 77], [IndexUp]) && Runs(e, Ground, [ESC, 77])
    ensures var r := After(e, Ground, [ESC, 77]); r == e.(buf := r.buf) && ReverseFed(e.buf, r.buf, e.attr)
  {
    ReadsEscape(68, [IndexDown]);
    ReadsEscape(69, [NextLine]);
    ReadsEscape(77, [IndexUp]);
    LinesExecute(e);
    hide *;
    OneGives(e, [ESC, 68], IndexDown);
    OneGives(e, [ESC, 69], NextLine);
    OneGives(e, [ESC, 77], IndexUp);
    Given(e, [ESC, 68]);
    Given(e, [ESC, 69]);
    Given(e, [ESC, 77]);
  }

  lemma LinesExecute(e: Emu)
    requires EmuInv(e)
    ensures WellFormed(IndexDown) && Admissible(e, IndexDown) && WellFormed(NextLine) && Admissible(e, NextLine)
    ensures WellFormed(IndexUp) && Admissible(e, IndexUp) && Inv(e.buf)
    ensures var r := Exec(e, IndexDown); r == e.(buf := r.buf) && LineFed(e.buf, r.buf, e.buf.x, e.cfg.scrollback)
    ensures var r := Exec(e, NextLine); r == e.(buf := r.buf) && LineFed(e.buf, r.buf, 0, e.cfg.scrollback)
    ensures var r := Exec(e, IndexUp); r == e.(buf := r.buf) && ReverseFed(e.buf, r.buf, e.attr)
  {
    hide Index, ReverseIndex, LineFed, ReverseFed;
    IndexFeeds(e.buf, e.buf.x, e.cfg.scrollback);
    IndexFeeds(e.buf, 0, e.cfg.scrollback);
    ReverseIndexFeeds(e.buf, e.attr);
  }

  /** Inside the margins down and up, and up and down, lead back to the same state. */
  lemma DownAndUp(e: Emu)
    requires EmuInv(e)
    ensures e.buf.top <= e.buf.y < e.buf.bottom ==> Gives(e, [ESC, 68] + [ESC, 77], e)
    ensures e.buf.top < e.buf.y <= e.buf.bottom ==> Gives(e, [ESC, 77] + [ESC, 68], e)
  {
    hide EmuInv, Runs, After, Reads;
    IndexTexts(e);
    var down, up := After(e, Ground, [ESC, 68]), After(e, Ground, [ESC, 77]);
    IndexTexts(down);
    IndexTexts(up);
    InvHolds(e);
    BothGive(e, [ESC, 68], [IndexDown], [ESC, 77], [IndexUp]);
    BothGive(e, [ESC, 77], [IndexUp], [ESC, 68], [IndexDown]);
  }

  lemma InvHolds(e: Emu)
    requires EmuInv(e)
    ensures Inv(e.buf)
  {
  }

  /** ESC E is CR LF, on every terminal and wherever the cursor is. */
  lemma NextLineIsReturnAndFeed(e: Emu)
    requires EmuInv(e)
    ensures Runs(e, Ground, [ESC, 69]) && Gives(e, [CR] + [LF], After(e, Ground, [ESC, 69]))
  {
    hide Index, Scan;
    ReturnText(e);
    var home := e.(buf := e.buf.(x := 0));
    LineFeedText(home, LF);
    BothGive(e, [CR], [CarriageReturn], [LF], [LineFeed]);
    ReadsEscape(69, [NextLine]);
    OneGives(e, [ESC, 69], NextLine);
    OneGives(home, [LF], LineFeed);
  }
}
