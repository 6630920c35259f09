/** Questions as texts and the answers they put on the way, and that these answers, sent
    back, restore what they report. */
module Reports {
  import opened Sequences
  import opened Numerals
  import opened Buffer
  import opened Emulator
  import opened Parser
  import opened Replays
  import opened Texts
  import opened Moves
  import opened Erasing
  import opened Strings

  /** e with one more reply on the way. */
  function Replied(e: Emu, t: Text): Emu { e.(sent := e.sent + [t]) }

  /** DSR 5 answers that all is well, DSR 6 with row and column of the cursor, counted from
      1; any other DSR not at all. */
  lemma StatusText(e: Emu, n: nat)
    requires EmuInv(e) && 0 <= e.buf.x && 0 <= e.buf.y
    ensures Gives(e, Key(n, DSR),
      if n == 5 then Replied(e, [ESC, 91, 48, 110])
      else if n == 6 then Replied(e, [ESC, 91] + Decimal(e.buf.y + 1) + [59] + Decimal(e.buf.x + 1) + [82])
      else e)
  {
    hide Gives, Encode, Decimal;
    SequenceText(e, [n], DSR, DeviceStatus(e, [n]));
  }

  /** DA and secondary DA by kind of terminal; only the parameter 0 is answered. */
  lemma AttributesText(e: Emu, n: nat)
    requires EmuInv(e)
    ensures Gives(e, Key(n, DA),
      if n > 0 || e.cfg.kind == OtherTerm then e
      else if e.cfg.kind == LinuxConsole then Replied(e, [ESC, 91, 63, 54, 99])
      else Replied(e, [ESC, 91, 63, 49, 59, 50, 99]))
  {
    hide Gives, Encode;
    SequenceText(e, [n], DA, DeviceAttributes(e, [], [n]));
  }

  /** The text that puts the last reply's cursor back: its final R turned into H. */
  function AsCup(report: Text): Text
    requires |report| >= 1
  {
    report[..|report| - 1] + [CUP]
  }

  /** What DSR 6 makes terminal e send, with H for R, brings the cursor of any terminal f
      of the same size to where it was in e, if and only if it was not waiting to wrap. */
  lemma CursorAnswerRestores(e: Emu, f: Emu)
    requires EmuInv(e) && EmuInv(f) && f.buf.rows == e.buf.rows && f.buf.cols == e.buf.cols
    ensures Runs(e, Ground, Key(6, DSR))
    ensures var r := After(e, Ground, Key(6, DSR));
      && |r.sent| == |e.sent| + 1 && r == e.(sent := e.sent + [r.sent[|e.sent|]]) && |r.sent[|e.sent|]| >= 1
      && var text := AsCup(r.sent[|e.sent|]);
         && Runs(f, Ground, text)
         && (After(f, Ground, text) == f.(buf := f.buf.(x := e.buf.x, y := e.buf.y)) <==> e.buf.x < e.buf.cols)
  {
    hide *;
    PlacesHold(e);
    StatusText(e, 6);
    ReportIs(e.buf);
    ReplyIsLast(e, Key(6, DSR), CursorReport(e.buf));
    CursorReportRestores(e, f);
  }

  lemma ReportIs(b: Buf)
    requires 0 <= b.x && 0 <= b.y
    ensures CursorReport(b) == [ESC, 91] + Decimal(b.y + 1) + [59] + Decimal(b.x + 1) + [82]
    ensures forall report {:trigger AsCup(report)} :: |report| >= 1 ==> AsCup(report) == report[..|report| - 1] + [CUP]
  {
  }

  /** The reply is the last thing on the way, and all that is new. */
  lemma ReplyIsLast(e: Emu, text: Text, reply: Text)
    requires EmuInv(e) && Gives(e, text, Replied(e, reply))
    ensures Runs(e, Ground, text)
    ensures var r := After(e, Ground, text);
      |r.sent| == |e.sent| + 1 && r.sent[|e.sent|] == reply && r == e.(sent := e.sent + [r.sent[|e.sent|]])
  {
  }

  lemma PlacesHold(e: Emu)
    requires EmuInv(e)
    ensures 0 <= e.buf.x && 0 <= e.buf.y && 0 <= e.buf.top && 0 <= e.buf.bottom
  {
  }

  const ST: Text := [ESC, 92]

  /** What DECRQSS makes terminal e send about its margins: behind its head and before its
      end stand the parameters and the final character that, behind ESC [, give any
      terminal f of the same height the same margins. */
  lemma MarginAnswerRestores(e: Emu, f: Emu)
    requires EmuInv(e) && EmuInv(f) && f.buf.rows == e.buf.rows
    ensures var question := [ESC, 80] + STATUS_PREFIX + [DECSTBM] + ST;
      && Runs(e, Ground, question)
      && var r := After(e, Ground, question);
         && |r.sent| == |e.sent| + 1 && r == e.(sent := e.sent + [r.sent[|e.sent|]]) && |r.sent[|e.sent|]| >= 7
         && var answer := r.sent[|e.sent|];
            var text := [ESC, 91] + answer[5..|answer| - 2];
            && answer[..5] == [ESC, 80, 48, 36, 114] && answer[|answer| - 2..] == ST
            && Runs(f, Ground, text)
            && After(f, Ground, text) == f.(buf := f.buf.(top := e.buf.top, bottom := e.buf.bottom, x := 0, y := 0))
  {
    hide *;
    var question := [ESC, 80] + STATUS_PREFIX + [DECSTBM] + ST;
    PlacesHold(e);
    MarginRequest();
    QueryText(e, [DECSTBM]);
    MarginsAre(e.buf);
    AnswerParts(MarginReport(e.buf));
    ReplyIsLast(e, question, [ESC, 80, 48, 36, 114] + MarginReport(e.buf) + ST);
    MarginReportRestores(e, f);
  }

  lemma MarginRequest()
    ensures IsPlain(DECSTBM) && DECSTBM != ESC && DECSTBM != BEL && IsBody([DECSTBM])
    ensures [DECSTBM] != [34, 113] && [DECSTBM] != [34, 112]
  {
  }

  lemma MarginsAre(b: Buf)
    requires 0 <= b.top && 0 <= b.bottom
    ensures MarginReport(b) == Decimal(b.top + 1) + [59] + Decimal(b.bottom + 1) + [DECSTBM]
  {
  }

  lemma AnswerParts(body: Text)
    ensures var answer := [ESC, 80, 48, 36, 114] + body + ST;
      && |answer| >= 7 && answer[5..|answer| - 2] == body
      && answer[..5] == [ESC, 80, 48, 36, 114] && answer[|answer| - 2..] == ST
  {
  }

  /** DECRQSS with any request, and what it is answered: the settings that are reported
      as they stand, the others empty. */
  lemma QueryText(e: Emu, request: Text)
    requires EmuInv(e) && IsBody(request)
    ensures 0 <= e.buf.top && 0 <= e.buf.bottom
    ensures Gives(e, [ESC, 80] + STATUS_PREFIX + request + ST,
      Replied(e, [ESC, 80, 48, 36, 114] + (
        if request == [34, 113] then [48, 34, 113]
        else if request == [34, 112] then [54, 49, 34, 112]
        else if request == [DECSTBM] then Decimal(e.buf.top + 1) + [59] + Decimal(e.buf.bottom + 1) + [DECSTBM]
        else if request == [109] then [48, 109]
        else []) + ST))
  {
    hide Runs, After, Scan, Decimal;
    ReadsQuery(STATUS_PREFIX, request, ST);
    OneGives(e, [ESC, 80] + STATUS_PREFIX + request + ST, StatusString(STATUS_PREFIX, request));
  }

  /** Secondary DA; the Linux console only sends its parameter back. */
  lemma SecondaryText(e: Emu, n: nat)
    requires EmuInv(e)
    ensures Gives(e, Encode([62], [n], DA),
      if n > 0 || e.cfg.kind == OtherTerm then e
      else if e.cfg.kind == Xterm then Replied(e, [ESC, 91, 62, 48, 59, 50, 55, 54, 59, 48, 99])
      else if e.cfg.kind == RxvtUnicode then Replied(e, [ESC, 91, 62, 56, 53, 59, 57, 53, 59, 48, 99])
      else if e.cfg.kind == ScreenTerm then Replied(e, [ESC, 91, 62, 56, 51, 59, 52, 48, 48, 48, 51, 59, 48, 99])
      else Replied(e, [48, 99]))
  {
    hide *;
    SecondaryIs(e, n);
    PrefixedText(e, n);
  }

  lemma SecondaryIs(e: Emu, n: nat)
    requires EmuInv(e)
    ensures DeviceAttributes(e, [62], [n]) ==
      if n > 0 || e.cfg.kind == OtherTerm then e
      else if e.cfg.kind == Xterm then Replied(e, [ESC, 91, 62, 48, 59, 50, 55, 54, 59, 48, 99])
      else if e.cfg.kind == RxvtUnicode then Replied(e, [ESC, 91, 62, 56, 53, 59, 57, 53, 59, 48, 99])
      else if e.cfg.kind == ScreenTerm then Replied(e, [ESC, 91, 62, 56, 51, 59, 52, 48, 48, 48, 51, 59, 48, 99])
      else Replied(e, [48, 99])
  {
    assert Decimal(0) + [99] == [48, 99];
  }

  lemma PrefixedText(e: Emu, n: nat)
    requires EmuInv(e)
    ensures Gives(e, Encode([62], [n], DA), DeviceAttributes(e, [62], [n]))
  {
    var c := Csi(DA, [n], [62]);
    ReadsCsi([62], [n], DA);
    assert Exec(e, c) == DeviceAttributes(e, [62], [n]) && Admissible(e, c);
    hide Runs, After, Scan, Encode, Exec, EmuInv, DeviceAttributes;
    OneGives(e, Encode([62], [n], DA), c);
  }

  /** The termcap query is refused with its own request. */
  lemma TermcapText(e: Emu, request: Text)
    requires EmuInv(e) && IsBody(request)
    ensures Gives(e, [ESC, 80] + TERMCAP_PREFIX + request + ST,
      Replied(e, [ESC, 80, 48, 43, 114] + (if request == [] then [48] else request) + ST))
  {
    hide Runs, After, Scan, Decimal;
    ReadsQuery(TERMCAP_PREFIX, request, ST);
    OneGives(e, [ESC, 80] + TERMCAP_PREFIX + request + ST, StatusString(TERMCAP_PREFIX, request));
  }
}
