/** Erasing and repeating cell by cell, how EL and ED hang together, and every editing
    sequence as a text. */
module Erasing {
  import opened Sequences
  import opened Buffer
  import opened Editing
  import opened Emulator
  import opened Parser
  import opened Replays
  import opened Texts
  import opened Moves

  /** r has the given cursor row, and all else is as in b. */
  ghost predicate OnlyRow(b: Buf, r: Buf, row: Line)
    requires Inv(b)
  {
    r == b.(screen := b.screen[b.y := row])
  }

  /** EL 0 blanks the columns from the cursor to the edge, EL 1 those up to and including
      the cursor, which is one too many for a cursor that waits to wrap, EL 2 all of them. */
  lemma ErasedLine(b: Buf, mode: nat, attr: nat)
    requires Inv(b)
    ensures var line, r, blank := b.screen[b.y], EraseInLine(b, mode, attr), Blank(EraseAttr(attr));
      var row := r.screen[b.y];
      && OnlyRow(b, r, row) && |row| == (if mode == 1 then Max(|line|, b.x + 1) else |line|)
      && forall i {:trigger row[i]} :: 0 <= i < |row| ==>
           row[i] == (if (mode == 0 && b.x <= i < b.cols) || (mode == 1 && i <= b.x) || (mode == 2 && i < b.cols) then blank else line[i])
  {
    hide Fill;
    var line, blank := b.screen[b.y], Blank(EraseAttr(attr));
    FilledElements(line, b.x, b.cols, blank);
    FilledElements(line, 0, b.x + 1, blank);
    FilledElements(line, 0, b.cols, blank);
  }

  /** On the cursor row ED does what EL does. */
  lemma DisplayAndLine(b: Buf, mode: nat, attr: nat)
    requires Inv(b)
    ensures EraseInDisplay(b, mode, attr).screen[b.y] == EraseInLine(b, mode, attr).screen[b.y]
  {
    BelowRows(b, attr);
    AboveRows(b, attr);
    AllRows(b, attr);
    hide EraseRows, Fill;
  }

  /** EL 0 and then EL 1 come to EL 2 under the same condition as for ED. */
  lemma RightAndLeftIsAll(b: Buf, attr: nat)
    requires Inv(b)
    ensures var line, blank := b.screen[b.y], Blank(EraseAttr(attr));
      EraseInLine(EraseInLine(b, 0, attr), 1, attr) == EraseInLine(b, 2, attr) <==>
      b.x < b.cols || (|line| > b.cols && line[b.cols] == blank)
  {
    hide Fill;
    var line, blank := b.screen[b.y], Blank(EraseAttr(attr));
    CursorLineErased(line, b.x, b.cols, blank);
    var right := EraseInLine(b, 0, attr);
    assert right.screen[b.y] == Fill(line, b.x, b.cols, blank);
    var parts, whole := EraseInLine(right, 1, attr), EraseInLine(b, 2, attr);
    assert parts.screen == b.screen[b.y := Fill(Fill(line, b.x, b.cols, blank), 0, b.x + 1, blank)];
    assert whole.screen == b.screen[b.y := Fill(line, 0, b.cols, blank)];
    assert parts.screen[b.y] == whole.screen[b.y] <==> parts.screen == whole.screen;
  }

  /** ECH n blanks n cells from the cursor on, as far as the edge; REP n copies the cell
      before the cursor n times, or a blank in column 0, and moves behind the copies. */
  lemma ErasedAndRepeated(b: Buf, n: nat, attr: nat)
    requires Inv(b)
    ensures var line, r := b.screen[b.y], EraseChars(b, n, attr);
      var row := r.screen[b.y];
      && OnlyRow(b, r, row) && |row| == |line|
      && forall i {:trigger row[i]} :: 0 <= i < |row| ==>
           row[i] == (if b.x <= i < b.x + n && i < b.cols then Blank(EraseAttr(attr)) else line[i])
    ensures var line, r := b.screen[b.y], RepeatCell(b, n);
      var row := r.screen[b.y];
      && OnlyRow(b, r.(x := b.x), row) && r.x == b.x + n && |row| == (if n == 0 then |line| else Max(|line|, b.x + n))
      && forall i {:trigger row[i]} :: 0 <= i < |row| ==>
           row[i] == (if b.x <= i < b.x + n then (if b.x == 0 then Blank(DEF_ATTR) else line[b.x - 1]) else line[i])
  {
    hide Fill;
    var line := b.screen[b.y];
    FilledElements(line, b.x, Min(b.x + n, b.cols), Blank(EraseAttr(attr)));
    FilledElements(line, b.x, b.x + n, if b.x > 0 then line[b.x - 1] else Blank(DEF_ATTR));
  }

  // ---- As texts --------------------------------------------------------------------------------------

  /** Any other sequence as a text. */
  lemma SequenceText(e: Emu, ps: seq<nat>, final: CodeUnit, r: Emu)
    requires EmuInv(e) && |ps| >= 1 && IsFinal(final)
    requires Admissible(e, Csi(final, ps, [])) && Exec(e, Csi(final, ps, [])) == r
    ensures Gives(e, Encode([], ps, final), r)
  {
    hide Exec, Admissible, EmuInv, Scan, Encode, Runs, After;
    ReadsCsi([], ps, final);
    OneGives(e, Encode([], ps, final), Csi(final, ps, []));
  }

  function WithBuffer(e: Emu, b: Buf): Emu { e.(buf := b) }

  /** The sequences that edit a line, with 1 for 0; REP has to stay within the line. */
  lemma CellTexts(e: Emu, n: nat)
    requires EmuInv(e)
    ensures var b, k := e.buf, if n == 0 then 1 else n;
      && Gives(e, Key(n, ICH), WithBuffer(e, InsertChars(b, k, e.attr)))
      && Gives(e, Key(n, DCH), WithBuffer(e, DeleteChars(b, k, e.attr)))
      && Gives(e, Key(n, ECH), WithBuffer(e, EraseChars(b, k, e.attr)))
      && (b.x + k <= b.cols ==> Gives(e, Key(n, REP), WithBuffer(e, RepeatCell(b, k))))
      && (Runs(e, Ground, Key(n, REP)) <==> b.x + k <= b.cols)
  {
    hide *;
    var b, k := e.buf, if n == 0 then 1 else n;
    KeyIs(n);
    EditFinals();
    CellsExecute(e, n);
    SequenceText(e, [n], ICH, WithBuffer(e, InsertChars(b, k, e.attr)));
    SequenceText(e, [n], DCH, WithBuffer(e, DeleteChars(b, k, e.attr)));
    SequenceText(e, [n], ECH, WithBuffer(e, EraseChars(b, k, e.attr)));
    if b.x + k <= b.cols { SequenceText(e, [n], REP, WithBuffer(e, RepeatCell(b, k))); }
    RepeatRuns(e, n);
  }

  lemma EditFinals()
    ensures IsFinal(ICH) && IsFinal(DCH) && IsFinal(ECH) && IsFinal(REP)
    ensures IsFinal(IL) && IsFinal(DL) && IsFinal(SU) && IsFinal(SD) && IsFinal(EL) && IsFinal(ED)
  {
  }

  lemma RepeatRuns(e: Emu, n: nat)
    requires EmuInv(e)
    ensures Runs(e, Ground, Encode([], [n], REP)) <==> e.buf.x + (if n == 0 then 1 else n) <= e.buf.cols
  {
    ReadsCsi([], [n], REP);
    hide Runs, Scan, Encode, After, Exec, EmuInv;
    OneGives(e, Encode([], [n], REP), Csi(REP, [n], []));
  }

  lemma CellsExecute(e: Emu, n: nat)
    requires EmuInv(e)
    ensures Inv(e.buf)
    ensures var b, k := e.buf, if n == 0 then 1 else n;
      && Exec(e, Csi(ICH, [n], [])) == WithBuffer(e, InsertChars(b, k, e.attr))
      && Exec(e, Csi(DCH, [n], [])) == WithBuffer(e, DeleteChars(b, k, e.attr))
      && Exec(e, Csi(ECH, [n], [])) == WithBuffer(e, EraseChars(b, k, e.attr))
      && Exec(e, Csi(REP, [n], [])) == WithBuffer(e, RepeatCell(b, k))
      && Admissible(e, Csi(ICH, [n], [])) && Admissible(e, Csi(DCH, [n], [])) && Admissible(e, Csi(ECH, [n], []))
      && (b.x + k <= b.cols ==> Admissible(e, Csi(REP, [n], [])))
  {
    hide InsertChars, DeleteChars, EraseChars, RepeatCell;
  }

  /** The sequences that move lines, with 1 for 0. */
  lemma LineTexts(e: Emu, n: nat)
    requires EmuInv(e)
    ensures var b, k := e.buf, if n == 0 then 1 else n;
      && Gives(e, Key(n, IL), WithBuffer(e, InsertLines(b, k, e.attr)))
      && Gives(e, Key(n, DL), WithBuffer(e, DeleteLines(b, k, e.attr)))
      && Gives(e, Key(n, SU), WithBuffer(e, ScrollUp(b, k)))
      && Gives(e, Key(n, SD), WithBuffer(e, ScrollDown(b, k)))
  {
    hide *;
    var b, k := e.buf, if n == 0 then 1 else n;
    KeyIs(n);
    EditFinals();
    LineSequencesExecute(e, n);
    SequenceText(e, [n], IL, WithBuffer(e, InsertLines(b, k, e.attr)));
    SequenceText(e, [n], DL, WithBuffer(e, DeleteLines(b, k, e.attr)));
    SequenceText(e, [n], SU, WithBuffer(e, ScrollUp(b, k)));
    SequenceText(e, [n], SD, WithBuffer(e, ScrollDown(b, k)));
  }

  lemma LineSequencesExecute(e: Emu, n: nat)
    requires EmuInv(e)
    ensures Inv(e.buf)
    ensures var b, k := e.buf, if n == 0 then 1 else n;
      && Exec(e, Csi(IL, [n], [])) == WithBuffer(e, InsertLines(b, k, e.attr))
      && Exec(e, Csi(DL, [n], [])) == WithBuffer(e, DeleteLines(b, k, e.attr))
      && Exec(e, Csi(SU, [n], [])) == WithBuffer(e, ScrollUp(b, k))
      && Exec(e, Csi(SD, [n], [])) == WithBuffer(e, ScrollDown(b, k))
      && Admissible(e, Csi(IL, [n], [])) && Admissible(e, Csi(DL, [n], []))
      && Admissible(e, Csi(SU, [n], [])) && Admissible(e, Csi(SD, [n], []))
  {
    hide InsertLines, DeleteLines, ScrollUp, ScrollDown;
  }

  /** EL and ED as texts; modes above 2 do nothing. */
  lemma EraseTexts(e: Emu, mode: nat)
    requires EmuInv(e)
    ensures Gives(e, Key(mode, EL), WithBuffer(e, EraseInLine(e.buf, mode, e.attr)))
    ensures Gives(e, Key(mode, ED), WithBuffer(e, EraseInDisplay(e.buf, mode, e.attr)))
    ensures mode > 2 ==> Gives(e, Key(mode, EL), e) && Gives(e, Key(mode, ED), e)
  {
    hide *;
    KeyIs(mode);
    EditFinals();
    ErasuresExecute(e, mode);
    SequenceText(e, [mode], EL, WithBuffer(e, EraseInLine(e.buf, mode, e.attr)));
    SequenceText(e, [mode], ED, WithBuffer(e, EraseInDisplay(e.buf, mode, e.attr)));
  }

  lemma ErasuresExecute(e: Emu, mode: nat)
    requires EmuInv(e)
    ensures Inv(e.buf)
    ensures Exec(e, Csi(EL, [mode], [])) == WithBuffer(e, EraseInLine(e.buf, mode, e.attr))
    ensures Exec(e, Csi(ED, [mode], [])) == WithBuffer(e, EraseInDisplay(e.buf, mode, e.attr))
    ensures Admissible(e, Csi(EL, [mode], [])) && Admissible(e, Csi(ED, [mode], []))
    ensures mode > 2 ==> WithBuffer(e, EraseInLine(e.buf, mode, e.attr)) == e == WithBuffer(e, EraseInDisplay(e.buf, mode, e.attr))
  {
    hide EraseRows, Fill;
  }

  /** A prefix, or a second parameter for SD, makes these sequences something else, which
      the terminal does not know; DECSTR is nothing without its prefix. */
  lemma UnknownSequences(e: Emu, prefix: Text, ps: seq<nat>)
    requires EmuInv(e) && |ps| >= 1 && (prefix == [] || (|prefix| == 1 && IsPrefix(prefix[0])))
    ensures prefix != [] || |ps| >= 2 ==> Gives(e, Encode(prefix, ps, SD), e)
    ensures prefix != [] ==>
      Gives(e, Encode(prefix, ps, SGR), e) && Gives(e, Encode(prefix, ps, DSR), e) && Gives(e, Encode(prefix, ps, DECSTBM), e)
    ensures prefix != [33] ==> Gives(e, Encode(prefix, ps, DECSTR), e)
  {
    hide Gives, Encode, EmuInv, Exec, Admissible;
    if prefix != [] || |ps| >= 2 { NoEffect(e, prefix, ps, SD); }
    if prefix != [] {
      NoEffect(e, prefix, ps, SGR);
      NoEffect(e, prefix, ps, DSR);
      NoEffect(e, prefix, ps, DECSTBM);
    }
    if prefix != [33] { NoEffect(e, prefix, ps, DECSTR); }
  }

  lemma NoEffect(e: Emu, prefix: Text, ps: seq<nat>, final: CodeUnit)
    requires EmuInv(e) && |ps| >= 1 && (prefix == [] || (|prefix| == 1 && IsPrefix(prefix[0])))
    requires (final == SD && (prefix != [] || |ps| >= 2)) || (prefix != [] && final in {SGR, DSR, DECSTBM})
             || (final == DECSTR && prefix != [33])
    ensures Gives(e, Encode(prefix, ps, final), e)
  {
    var c := Csi(final, ps, prefix);
    ReadsCsi(prefix, ps, final);
    assert Exec(e, c) == e && Admissible(e, c);
    hide Runs, After, Scan, Encode, EmuInv, Exec, Admissible;
    OneGives(e, Encode(prefix, ps, final), c);
  }

  /** Four units that some sequences carry in front of their final character are passed
      over wherever they stand. */
  lemma PostfixIsPassedOver(params: seq<nat>, cur: nat, prefix: Text, u: CodeUnit, rest: Text)
    requires u == 36 || u == 34 || u == 32 || u == 39
    ensures Scan(Sequence(params, cur, prefix), [u] + rest, 0) == Scan(Sequence(params, cur, prefix), rest, 0)
  {
    assert React(Sequence(params, cur, prefix), [u], u) == Reaction(Sequence(params, cur, prefix), [], 1);
    hide Scan, React;
    Unit(Sequence(params, cur, prefix), u, rest);
    PrependNothing(Scan(Sequence(params, cur, prefix), rest, 0));
  }
}
