/** Where a text may be cut into writes: exactly between characters and skips. */
module Cuts {
  import opened Sequences
  import opened Buffer
  import opened Widths
  import opened Emulator
  import opened Parser
  import opened Refreshing
  import opened Display
  import opened Chunks

  const EIGHT: CodeUnit := 56
  const FIRST_LOW: CodeUnit := 0xDC00

  /** Reading a and then b in two chunks comes to the same as reading them in one. */
  ghost predicate ReadsAsOne(m: Mode, a: Text, b: Text) {
    var first, one := Scan(m, a, 0), Scan(m, a + b, 0);
    var second := Read(first.mode, first.high, b);
    one.cmds == first.cmds + second.cmds && one.mode == second.mode
  }

  /** A cut does not matter, whatever follows, if and only if it is clean: every skip
      that is cut off and every surrogate pair that is split changes the reading of
      some text behind it. */
  lemma ExactCut(m: Mode, a: Text)
    ensures CleanCut(m, a) <==> forall b {:trigger a + b} :: ReadsAsOne(m, a, b)
  {
    hide Scan;
    if CleanCut(m, a) {
      forall b ensures ReadsAsOne(m, a, b) {
        ReadsScan(Scan(m, a, 0).mode, b);
        CleanCutsDoNotMatter(m, a, b);
      }
    } else if Scan(m, a, 0).high == [] {
      SkipGoesOn(m, a, EIGHT);
      ReadsScan(Ground, [EIGHT]);
      PrintedEight();
      assert !ReadsAsOne(m, a, [EIGHT]);
    } else {
      var r := Scan(m, a, 0);
      HighIsHigh(m, a);
      PairModes(r.mode, r.high[0]);
      var p := PairReaction(r.mode, r.high[0]);
      var x := Telltale(p.mode);
      TelltaleTells(p.mode);
      SplitPair(m, a, x);
      assert !ReadsAsOne(m, a, [FIRST_LOW, x]);
    }
  }

  /** A skip beyond the end swallows the next unit of the whole text, but nothing of
      the next chunk. */
  lemma {:induction false} SkipGoesOn(m: Mode, a: Text, u: CodeUnit)
    requires Scan(m, a, 0).over
    ensures var r := Scan(m, a, 0);
      r.mode == Ground && r.high == [] && Scan(m, a + [u], 0) == Scanned(Ground, [], r.cmds, false)
    decreases |a|, if m.Escape? then 1 else 0
  {
    NextIsLocal(m, a, [u]);
    var r := Next(m, a);
    if r.advance > |a| {
      assert r.mode == Ground;
      assert (a + [u])[2..] == [];
      assert r.cmds + [] == r.cmds;
    } else {
      assert (a + [u])[r.advance..] == a[r.advance..] + [u];
      SkipGoesOn(r.mode, a[r.advance..], u);
    }
  }

  /** What a high surrogate and the first low one behind it do. */
  function PairReaction(m: Mode, high: CodeUnit): Reaction { React(m, [high, FIRST_LOW], Combined(high, FIRST_LOW)) }

  /** They leave the parser at rest or inside a string. */
  lemma PairModes(m: Mode, high: CodeUnit)
    ensures var r := PairReaction(m, high);
      r.advance == 1 && !r.mode.Escape? && !r.mode.Designating? && !r.mode.Sequence?
  {
  }

  /** A unit that is noticed in the given mode. */
  function Telltale(m: Mode): CodeUnit { if m == Ground then EIGHT else BEL }

  lemma TelltaleTells(m: Mode)
    requires !m.Escape? && !m.Designating? && !m.Sequence?
    ensures var x := Telltale(m);
      var r := React(m, [x], x);
      && r.advance == 1 && !IsHigh(x) && !IsLow(x)
      && (if m == Ground then r == Reaction(Ground, [Print([EIGHT], 1)], 1) else r.mode == Ground)
  {
    AsciiIsNarrow(EIGHT);
  }

  /** A high surrogate kept for the next chunk goes in front of what follows. */
  lemma {:induction false} HighGoesOn(m: Mode, a: Text, b: Text)
    requires Scan(m, a, 0).high != []
    ensures var r := Scan(m, a, 0);
      Scan(m, a + b, 0) == Prepend(r.cmds, Scan(r.mode, r.high + b, 0))
    decreases |a|, if m.Escape? then 1 else 0
  {
    if Lone(a) {
      PrependNothing(Scan(m, a + b, 0));
    } else {
      NextIsLocal(m, a, b);
      var r := Next(m, a);
      assert (a + b)[r.advance..] == a[r.advance..] + b;
      HighGoesOn(r.mode, a[r.advance..], b);
      var tail := Scan(r.mode, a[r.advance..], 0);
      PrependTwice(r.cmds, tail.cmds, Scan(tail.mode, tail.high + b, 0));
    }
  }

  lemma {:induction false} HighIsHigh(m: Mode, a: Text)
    requires Scan(m, a, 0).high != []
    ensures var high := Scan(m, a, 0).high; |high| == 1 && IsHigh(high[0]) && !Scan(m, a, 0).over
    decreases |a|, if m.Escape? then 1 else 0
  {
    if !Lone(a) { HighIsHigh(Next(m, a).mode, a[Next(m, a).advance..]); }
  }

  /** A split pair and one more unit: read as one, all of it counts; read in two
      chunks, the last unit is not reached. */
  lemma SplitPair(m: Mode, a: Text, x: CodeUnit)
    requires Scan(m, a, 0).high != [] && !IsHigh(x) && !IsLow(x)
    requires var r := Scan(m, a, 0);
      |r.high| == 1 && IsHigh(r.high[0]) && React(PairReaction(r.mode, r.high[0]).mode, [x], x).advance == 1
    ensures var r := Scan(m, a, 0);
      var p := PairReaction(r.mode, r.high[0]);
      var q := React(p.mode, [x], x);
      && Scan(m, a + [FIRST_LOW, x], 0) == Scanned(q.mode, [], r.cmds + (p.cmds + q.cmds), false)
      && Read(r.mode, r.high, [FIRST_LOW, x]) == Scanned(p.mode, [], p.cmds, false)
  {
    hide Scan, React;
    var r := Scan(m, a, 0);
    var h := r.high[0];
    var p := PairReaction(r.mode, h);
    var q := React(p.mode, [x], x);
    PairModes(r.mode, h);
    HighGoesOn(m, a, [FIRST_LOW, x]);
    assert r.high + [FIRST_LOW, x] == [h, FIRST_LOW, x];
    PairIsRead(r.mode, h, x, 0);
    PairIsRead(r.mode, h, x, 1);
    Unit(p.mode, x, []);
    assert [x] + [] == [x] && q.cmds + [] == q.cmds;
    NothingToRead(q.mode, 0);
  }

  lemma NothingToRead(m: Mode, drop: nat)
    ensures Scan(m, [], drop) == Scanned(m, [], [], 0 < drop)
  {
  }

  /** The pair, its second half passed over, and what is left. */
  lemma PairIsRead(m: Mode, h: CodeUnit, x: CodeUnit, drop: nat)
    requires IsHigh(h) && drop <= 1 && PairReaction(m, h).advance == 1
    ensures var p := PairReaction(m, h);
      Scan(m, [h, FIRST_LOW, x], drop) ==
        Prepend(p.cmds, if drop == 0 then Scan(p.mode, [x], 0) else Scanned(p.mode, [], [], false))
  {
    hide React;
    var p := PairReaction(m, h);
    var s: Text := [h, FIRST_LOW, x];
    assert s[..2] == [h, FIRST_LOW] && s[1..] == [FIRST_LOW, x];
    assert Next(m, s) == p;
    var t: Text := [FIRST_LOW, x];
    assert t[1..] == [x];
    assert Next(p.mode, t) == Reaction(p.mode, [], 1);
    PrependNothing(Scan(p.mode, [x], drop));
    assert Scan(p.mode, t, drop) == Scan(p.mode, [x], drop);
  }

  // ---- What the terminal notices ----------------------------------------------------------

  /** Writing a and then b comes to the same as writing both at once, admissibility
      included. */
  ghost predicate WritesAsOne(c: Core, a: Text, b: Text)
    requires CoreInv(c) && CanFeed(c, a)
  {
    && (CanFeed(c, a + b) <==> CanFeed(Feed(c, a), b))
    && (CanFeed(c, a + b) ==> Feed(c, a + b) == Feed(Feed(c, a), b))
  }

  /** The terminal itself tells an unclean cut: it does not matter where a text is cut
      into two writes, whatever the second one is, if and only if the cut is clean. */
  lemma ExactCutFeeds(c: Core, a: Text)
    requires CoreInv(c) && c.high == [] && CanFeed(c, a) && Feed(c, a).emu.buf.cols >= 2
    ensures CleanCut(c.mode, a) <==> forall b {:trigger a + b} :: WritesAsOne(c, a, b)
  {
    hide Scan, CoreInv, CanFeed, Feed, CleanCut;
    if CleanCut(c.mode, a) {
      forall b ensures WritesAsOne(c, a, b) { FeedsCompose(c, a, b); }
    } else if Scan(c.mode, a, 0).high == [] {
      UncleanIs(c.mode, a);
      CutSkipShows(c, a);
    } else {
      CutPairShows(c, a);
    }
  }

  lemma UncleanIs(m: Mode, a: Text)
    ensures CleanCut(m, a) <==> Scan(m, a, 0).high == [] && !Scan(m, a, 0).over
  {
  }

  const NINE: CodeUnit := 57

  /** Printing an 8 and printing a 9 cannot both come to nothing. */
  lemma PrintingShows(e: Emu)
    requires EmuInv(e)
    ensures Admissible(e, Print([EIGHT], 1)) && Admissible(e, Print([NINE], 1))
    ensures Exec(e, Print([EIGHT], 1)) != e || Exec(e, Print([NINE], 1)) != e
  {
    PutShows(e.buf, e.cfg.scrollback, e.wrap, e.insert, e.attr, [EIGHT]);
    PutShows(e.buf, e.cfg.scrollback, e.wrap, e.insert, e.attr, [NINE]);
    hide Put;
    assert Translate(e.charsets.current, [EIGHT]) == [EIGHT] && Translate(e.charsets.current, [NINE]) == [NINE];
    assert [EIGHT][0] != [NINE][0];
  }

  lemma PutShows(b: Buf, scrollback: nat, wrap: bool, insert: bool, attr: nat, ch: Text)
    requires Inv(b) && scrollback != 1
    ensures var r := Put(b, scrollback, wrap, insert, attr, ch, 1);
      && 0 <= r.y < |r.screen| && 1 <= r.x <= |r.screen[r.y]| && r.screen[r.y][r.x - 1].ch == ch
  {
    hide Index, Shove, Combine;
    IndexRow(b.(x := 0), scrollback);
  }

  /** A text whose commands are those of a and more. */
  lemma FeedFurther(c: Core, a: Text, b: Text, more: seq<Cmd>)
    requires CoreInv(c) && c.high == [] && CanFeed(c, a) && AllWellFormed(more)
    requires Scan(c.mode, a + b, 0).cmds == Scan(c.mode, a, 0).cmds + more && Scan(c.mode, a + b, 0).high == []
    ensures var e := Feed(c, a).emu;
      && EmuInv(e) && (CanFeed(c, a + b) <==> AdmissibleAll(e, more))
      && (AdmissibleAll(e, more) ==> Feed(c, a + b) == Core(Scan(c.mode, a + b, 0).mode, [], ExecAll(e, more)))
  {
    hide Scan, ExecAll, AdmissibleAll, EmuInv;
    ReadsScan(c.mode, a);
    ReadsScan(c.mode, a + b);
    ExecAllComposes(Begin(c.emu), Scan(c.mode, a, 0).cmds, more);
  }

  /** Another chunk behind what has been fed. */
  lemma FeedBehind(c: Core, a: Text, b: Text)
    requires CoreInv(c) && c.high == [] && CanFeed(c, a)
    ensures var d, r := Feed(c, a), Scan(c.mode, a, 0);
      var second := Read(r.mode, r.high, b);
      && d == Core(r.mode, r.high, d.emu) && EmuInv(d.emu)
      && (CanFeed(d, b) <==> AdmissibleAll(d.emu, second.cmds))
      && (CanFeed(d, b) ==> Feed(d, b) == Core(second.mode, second.high, ExecAll(d.emu, second.cmds)))
  {
    hide Scan, ExecAll, AdmissibleAll, EmuInv;
    ReadsScan(c.mode, a);
    AlreadyBegun(Feed(c, a).emu);
  }

  /** Nothing to run, and one print. */
  lemma PrintAlone(e: Emu, u: CodeUnit)
    requires EmuInv(e) && (u == EIGHT || u == NINE)
    ensures AdmissibleAll(e, []) && ExecAll(e, []) == e
    ensures var c := Print([u], 1);
      WellFormed(c) && AllWellFormed([c]) && AdmissibleAll(e, [c]) && ExecAll(e, [c]) == Exec(e, c)
  {
    hide Exec, EmuInv;
    PrintingShows(e);
    ExecKeepsInvariant(e, Print([u], 1));
    var cmds := [Print([u], 1)];
    assert cmds[1..] == [];
  }

  lemma DigitIsRead(u: CodeUnit)
    requires u == EIGHT || u == NINE
    ensures React(Ground, [u], u) == Reaction(Ground, [Print([u], 1)], 1)
    ensures Read(Ground, [], [u]) == Scanned(Ground, [], [Print([u], 1)], false)
  {
    AsciiIsNarrow(u);
    hide Scan;
    ReadsScan(Ground, [u]);
    Unit(Ground, u, []);
    assert [u] + [] == [u];
    NothingToRead(Ground, 0);
  }

  lemma CutSkipShows(c: Core, a: Text)
    requires CoreInv(c) && c.high == [] && CanFeed(c, a) && Scan(c.mode, a, 0).over
    ensures !WritesAsOne(c, a, [EIGHT]) || !WritesAsOne(c, a, [NINE])
  {
    hide Scan, CoreInv, CanFeed, Feed, EmuInv, AdmissibleAll, ExecAll, Exec, React;
    var r, d := Scan(c.mode, a, 0), Feed(c, a);
    forall u | u == EIGHT || u == NINE
      ensures WritesAsOne(c, a, [u]) ==> EmuInv(d.emu) && Exec(d.emu, Print([u], 1)) == d.emu
    {
      SkipGoesOn(c.mode, a, u);
      assert r.cmds == r.cmds + [];
      FeedFurther(c, a, [u], []);
      FeedBehind(c, a, [u]);
      DigitIsRead(u);
      PrintAlone(d.emu, u);
    }
    FeedBehind(c, a, []);
    PrintingShows(d.emu);
  }

  lemma CutPairShows(c: Core, a: Text)
    requires CoreInv(c) && c.high == [] && CanFeed(c, a) && Scan(c.mode, a, 0).high != []
    requires Feed(c, a).emu.buf.cols >= 2
    ensures !WritesAsOne(c, a, [FIRST_LOW, EIGHT]) || !WritesAsOne(c, a, [FIRST_LOW, NINE]) || !WritesAsOne(c, a, [FIRST_LOW, BEL])
  {
    hide Scan, CoreInv, CanFeed, Feed, EmuInv, AdmissibleAll, ExecAll, Exec, React;
    var r, d := Scan(c.mode, a, 0), Feed(c, a);
    HighIsHigh(c.mode, a);
    PairModes(r.mode, r.high[0]);
    FeedBehind(c, a, []);
    var p := PairReaction(r.mode, r.high[0]);
    PairIsAdmissible(d.emu, r.mode, r.high[0]);
    var f := ExecAll(d.emu, p.cmds);
    if p.mode == Ground {
      forall u | u == EIGHT || u == NINE
        ensures WritesAsOne(c, a, [FIRST_LOW, u]) ==> Exec(f, Print([u], 1)) == f
      {
        DigitIsRead(u);
        SplitPair(c.mode, a, u);
        PrintAlone(f, u);
        ExecAllComposes(d.emu, p.cmds, [Print([u], 1)]);
        FeedFurther(c, a, [FIRST_LOW, u], p.cmds + [Print([u], 1)]);
        FeedBehind(c, a, [FIRST_LOW, u]);
      }
      PrintingShows(f);
    } else {
      TelltaleTells(p.mode);
      EndOfString(p.mode);
      SplitPair(c.mode, a, BEL);
      var q := React(p.mode, [BEL], BEL);
      HarmlessEnd(f, q.cmds);
      ExecAllComposes(d.emu, p.cmds, q.cmds);
      FeedFurther(c, a, [FIRST_LOW, BEL], p.cmds + q.cmds);
      FeedBehind(c, a, [FIRST_LOW, BEL]);
    }
  }

  lemma PairIsAdmissible(e: Emu, m: Mode, high: CodeUnit)
    requires EmuInv(e) && e.buf.cols >= 2
    ensures var cmds := PairReaction(m, high).cmds; AllWellFormed(cmds) && AdmissibleAll(e, cmds)
  {
    hide EmuInv, Exec;
    var cmds := PairReaction(m, high).cmds;
    if cmds != [] {
      assert |cmds| == 1 && cmds[1..] == [];
      ExecKeepsInvariant(e, cmds[0]);
    }
  }

  /** The commands at the end of a string are always admissible. */
  ghost predicate OnlyStrings(cmds: seq<Cmd>) { cmds == [] || (|cmds| == 1 && (cmds[0].SetTitle? || cmds[0].StatusString?)) }

  lemma EndOfString(m: Mode)
    requires !m.Escape? && !m.Designating? && !m.Sequence? && m != Ground
    ensures OnlyStrings(React(m, [BEL], BEL).cmds)
  {
  }

  lemma HarmlessEnd(e: Emu, cmds: seq<Cmd>)
    requires EmuInv(e) && OnlyStrings(cmds)
    ensures AllWellFormed(cmds) && AdmissibleAll(e, cmds)
  {
    hide EmuInv, Exec;
    if cmds != [] {
      assert cmds[1..] == [];
      ExecKeepsInvariant(e, cmds[0]);
    }
  }
}
