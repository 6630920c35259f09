/** Setting and resetting modes as texts, and what they mean for what is written after. */
module Modes {
  import opened Sequences
  import opened Buffer
  import opened Resizing
  import opened Emulator
  import opened Parser
  import opened Replays
  import opened Texts
  import opened Moves
  import opened Erasing

  function Set(p: nat): Text { Encode(PRIVATE, [p], SM) }

  function Unset(p: nat): Text { Encode(PRIVATE, [p], RM) }

  lemma ModeText(e: Emu, prefix: Text, p: nat)
    requires EmuInv(e) && (prefix == [] || prefix == PRIVATE)
    ensures Gives(e, Encode(prefix, [p], SM), SetMode(e, prefix, p))
    ensures Gives(e, Encode(prefix, [p], RM), ResetMode(e, prefix, p))
  {
    ReadsCsi(prefix, [p], SM);
    ReadsCsi(prefix, [p], RM);
    OneMode(e, prefix, p);
    hide Runs, After, Scan, Encode, SetMode, ResetMode, EmuInv, Exec;
    OneGives(e, Encode(prefix, [p], SM), Csi(SM, [p], prefix));
    OneGives(e, Encode(prefix, [p], RM), Csi(RM, [p], prefix));
  }

  lemma OneMode(e: Emu, prefix: Text, p: nat)
    requires EmuInv(e)
    ensures Exec(e, Csi(SM, [p], prefix)) == SetMode(e, prefix, p)
    ensures Exec(e, Csi(RM, [p], prefix)) == ResetMode(e, prefix, p)
  {
    hide SetMode, ResetMode, EmuInv;
    var ps: seq<nat> := [p];
    assert ps[1..] == [];
    assert SetModes(SetMode(e, prefix, p), PrefixAfter(e, prefix, p), ps[1..]) == SetMode(e, prefix, p);
    assert ResetModes(ResetMode(e, prefix, p), prefix, ps[1..]) == ResetMode(e, prefix, p);
    assert SetModes(e, prefix, ps) == SetMode(e, prefix, p);
    assert ResetModes(e, prefix, ps) == ResetMode(e, prefix, p);
  }

  /** Insert mode is ANSI mode 4; autowrap, the cursor and the plain character sets are
      private modes 7, 25 and 2. */
  lemma FlagModes(e: Emu)
    requires EmuInv(e)
    ensures Gives(e, Key(4, SM), e.(insert := true)) && Gives(e, Key(4, RM), e.(insert := false))
    ensures Gives(e, Set(7), e.(wrap := true)) && Gives(e, Unset(7), e.(wrap := false))
    ensures Gives(e, Set(25), e.(hidden := false)) && Gives(e, Unset(25), e.(hidden := true))
    ensures Gives(e, Set(2), e.(charsets := Charsets(e.charsets.level,
                                                     e.charsets.sets[0 := Plain][1 := Plain][2 := Plain][3 := Plain],
                                                     if e.charsets.level <= 3 then Plain else e.charsets.current)))
  {
    hide Gives, Encode;
    ModeText(e, [], 4);
    ModeText(e, PRIVATE, 7);
    ModeText(e, PRIVATE, 25);
    ModeText(e, PRIVATE, 2);
  }

  /** Modes this model has no use for change nothing. */
  lemma OtherModes(e: Emu, p: nat)
    requires EmuInv(e)
    ensures p != 4 ==> Gives(e, Key(p, SM), e) && Gives(e, Key(p, RM), e)
    ensures p !in {2, 3, 7, 25, 47, 1047, 1049} ==> Gives(e, Set(p), e) && Gives(e, Unset(p), e)
    ensures Gives(e, Unset(2), e)
  {
    hide Gives, Encode;
    ModeText(e, [], p);
    ModeText(e, PRIVATE, p);
    ModeText(e, PRIVATE, 2);
  }

  /** DECCOLM: mode 3 makes the screen 132 columns wide and, reset, as wide as it was. */
  lemma WidthComesBack(e: Emu)
    requires EmuInv(e)
    ensures Runs(e, Ground, Set(3))
    ensures var m := After(e, Ground, Set(3));
      && EmuInv(m) && m.buf.cols == 132 && m.buf.rows == e.buf.rows && Runs(m, Ground, Unset(3))
      && var r := After(m, Ground, Unset(3)); r.buf.cols == e.buf.cols && r.buf.rows == e.buf.rows && r.savedCols == None
    ensures e.buf.cols == 132 ==> After(After(e, Ground, Set(3)), Ground, Unset(3)).buf == e.buf
  {
    hide Runs, After, Encode, EmuInv, Resize;
    ModeText(e, PRIVATE, 3);
    Given(e, Set(3));
    var m := SetMode(e, PRIVATE, 3);
    ModeText(m, PRIVATE, 3);
    Given(m, Unset(3));
    SizeAfter(e, 132);
    SizeAfter(m, e.buf.cols);
  }

  lemma SizeAfter(e: Emu, cols: int)
    requires EmuInv(e) && 1 <= cols
    ensures 1 <= e.buf.rows && 1 <= e.buf.cols
    ensures cols != e.buf.cols ==> Resize(e.buf, cols, e.buf.rows).cols == cols && Resize(e.buf, cols, e.buf.rows).rows == e.buf.rows
  {
  }

  /** DECSTR in fields. */
  lemma SoftResetText(e: Emu)
    requires EmuInv(e)
    ensures Gives(e, Encode([33], [0], DECSTR),
      e.(hidden := false, insert := false, wrap := false, attr := 257 * 512 + 256, charsets := FRESH_CHARSETS,
         buf := e.buf.(top := 0, bottom := e.buf.rows - 1, x := 0, y := 0)))
  {
    ReadsCsi([33], [0], DECSTR);
    var c := Csi(DECSTR, [0], [33]);
    hide Runs, After, Scan, Encode;
    OneGives(e, Encode([33], [0], DECSTR), c);
  }

  /** DECSTBM takes the margins it is given, home included, if they are in order and on
      the screen; 0 stands for the first and the last row. */
  lemma MarginsText(e: Emu, top: nat, bottom: nat)
    requires EmuInv(e)
    ensures var t, b := if top == 0 then 1 else top, if bottom == 0 then e.buf.rows else bottom;
      var text := Encode([], [top, bottom], DECSTBM);
      && (Runs(e, Ground, text) <==> t <= b <= e.buf.rows)
      && (t <= b <= e.buf.rows ==> Gives(e, text, e.(buf := e.buf.(top := t - 1, bottom := b - 1, x := 0, y := 0))))
  {
    ReadsCsi([], [top, bottom], DECSTBM);
    hide Runs, After, Scan, Encode;
    OneGives(e, Encode([], [top, bottom], DECSTBM), Csi(DECSTBM, [top, bottom], []));
  }

  /** Entering the alternate screen ends the private list: what follows in it is read as
      ANSI modes, so that ? 1049 ; 4 h turns insert mode on. */
  lemma PrefixIsLost(e: Emu, p: nat, q: nat)
    requires EmuInv(e) && IsAltMode(p)
    ensures Gives(e, Encode(PRIVATE, [p, q], SM),
      if e.normal.None? then SetMode(EnterAlt(e), [], q) else SetMode(e, PRIVATE, q))
  {
    var c := Csi(SM, [p, q], PRIVATE);
    ReadsCsi(PRIVATE, [p, q], SM);
    TwoModes(e, p, q);
    hide Runs, After, Scan, Encode, SetMode, EnterAlt, EmuInv, Exec;
    OneGives(e, Encode(PRIVATE, [p, q], SM), c);
  }

  lemma TwoModes(e: Emu, p: nat, q: nat)
    requires EmuInv(e) && IsAltMode(p)
    ensures Exec(e, Csi(SM, [p, q], PRIVATE)) == if e.normal.None? then SetMode(EnterAlt(e), [], q) else SetMode(e, PRIVATE, q)
  {
    var ps: seq<nat>, qs: seq<nat> := [p, q], [q];
    assert ps[1..] == qs && qs[1..] == [];
    assert SetMode(e, PRIVATE, p) == EnterAlt(e);
    var f, prefix := EnterAlt(e), PrefixAfter(e, PRIVATE, p);
    hide SetMode, EnterAlt, EmuInv;
    assert SetModes(SetMode(f, prefix, q), PrefixAfter(f, prefix, q), qs[1..]) == SetMode(f, prefix, q);
    assert SetModes(f, prefix, qs) == SetMode(f, prefix, q);
    assert SetModes(e, PRIVATE, ps) == SetModes(f, prefix, ps[1..]);
    if e.normal.Some? { AlreadyThere(e); }
  }

  lemma AlreadyThere(e: Emu)
    requires EmuInv(e) && e.normal.Some?
    ensures EnterAlt(e) == e
  {
  }

  /** The alternate screen: entering it is a reset that keeps the main screen aside and
      shows the cursor, leaving it brings the main screen back; on the screen in question
      already, nothing happens. */
  lemma AlternateTexts(e: Emu, p: nat)
    requires EmuInv(e) && IsAltMode(p)
    ensures e.normal.None? ==>
      && Runs(e, Ground, [ESC, 99])
      && Gives(e, Set(p), After(e, Ground, [ESC, 99]).(normal := Some(e.buf), shown := true)) && Gives(e, Unset(p), e)
    ensures e.normal.Some? ==>
      Gives(e, Set(p), e) && Gives(e, Unset(p), e.(buf := e.normal.value, normal := None, shown := true))
  {
    hide Gives, Encode, EmuInv;
    ModeText(e, PRIVATE, p);
    ResetReads();
    OneGives(e, [ESC, 99], FullReset);
    Given(e, [ESC, 99]);
    if e.normal.Some? { SavedSize(e); }
  }

  lemma ResetReads()
    ensures Reads([ESC, 99], [FullReset])
  {
    ReadsEscape(99, [FullReset]);
  }

  lemma SavedSize(e: Emu)
    requires EmuInv(e) && e.normal.Some?
    ensures e.normal.value.rows == e.buf.rows && e.normal.value.cols == e.buf.cols
  {
  }
}
