/** What an SGR list comes to: each field of the pen is what the last parameter that
    writes it makes it, and what nothing writes stays. */
module Pens {
  import opened Sequences
  import opened Buffer
  import opened Palette
  import opened Attributes
  import opened Emulator
  import opened Parser
  import opened Replays
  import opened Texts

  datatype Field = Foreground | Background | Bold | Underline | Blink | Inverse | Invisible

  /** The first parameters of the groups that write a field. */
  predicate Writes(p: nat, f: Field) {
    p == 0 ||
    match f
    case Foreground => 30 <= p <= 39 || 90 <= p <= 97
    case Background => 40 <= p <= 49 || 100 <= p <= 107
    case Bold => p == 1 || p == 22
    case Underline => p == 4 || p == 24
    case Blink => p == 5 || p == 25
    case Inverse => p == 7 || p == 27
    case Invisible => p == 8 || p == 28
  }

  /** No group of the list writes the field. */
  predicate LeavesAlone(ps: seq<nat>, f: Field)
    decreases |ps|
  {
    ps == [] || (!Writes(ps[0], f) && LeavesAlone(Rest(ps, Span(ps)), f))
  }

  predicate SameField(p: Pen, q: Pen, f: Field) {
    match f
    case Foreground => p.fg == q.fg
    case Background => p.bg == q.bg
    case Bold => p.bold == q.bold
    case Underline => p.underline == q.underline
    case Blink => p.blink == q.blink
    case Inverse => p.inverse == q.inverse
    case Invisible => p.invisible == q.invisible
  }

  lemma FlagLeaves(pen: Pen, p: nat, f: Field)
    requires !Writes(p, f)
    ensures SameField(ApplyFlag(pen, p), pen, f)
  {
  }

  lemma SingleLeaves(pen: Pen, p: nat, f: Field)
    requires ValidPen(pen) && !Writes(p, f)
    ensures SameField(ApplySingle(pen, p), pen, f)
  {
    FlagLeaves(pen, p, f);
    hide ApplyFlag;
  }

  lemma GroupLeaves(pen: Pen, ps: seq<nat>, f: Field)
    requires ValidPen(pen) && |ps| >= 1 && !Writes(ps[0], f)
    ensures SameField(Apply(pen, ps), pen, f)
  {
    SingleLeaves(pen, ps[0], f);
    hide ExtendedColor, ApplySingle;
  }

  lemma SameFields(p: Pen, q: Pen, r: Pen, f: Field)
    requires SameField(p, q, f) && SameField(q, r, f)
    ensures SameField(p, r, f)
  {
  }

  lemma FieldItself(p: Pen, f: Field)
    ensures SameField(p, p, f)
  {
  }

  /** A list leaves a field alone that none of its groups writes. */
  lemma {:induction false} UnwrittenStays(pen: Pen, ps: seq<nat>, f: Field)
    requires ValidPen(pen) && LeavesAlone(ps, f)
    ensures SameField(Sgr(pen, ps), pen, f)
    decreases |ps|
  {
    hide Apply, Span, Writes, SameField;
    if ps == [] {
      FieldItself(pen, f);
    } else {
      var next := Apply(pen, ps);
      GroupLeaves(pen, ps, f);
      UnwrittenStays(next, Rest(ps, Span(ps)), f);
      SameFields(Sgr(pen, ps), next, pen, f);
    }
  }

  /** Behind a closed list, a group and a list that leaves the field alone: the field is
      as the group left it. */
  lemma LastWriter(pen: Pen, a: seq<nat>, g: seq<nat>, b: seq<nat>, f: Field)
    requires ValidPen(pen) && Closed(a) && |g| >= 1 && Span(g) == |g| && LeavesAlone(b, f)
    ensures ValidPen(Sgr(pen, a)) && SameField(Sgr(pen, a + g + b), Apply(Sgr(pen, a), g), f)
  {
    hide Apply;
    ClosedListsCompose(pen, a, g + b);
    assert a + g + b == a + (g + b) && g[|g|..] == [] && Rest(g, |g|) == [];
    ClosedListsCompose(Sgr(pen, a), g, b);
    UnwrittenStays(Sgr(Sgr(pen, a), g), b, f);
  }

  /** The last colour wins: one of the eight, one of the bright eight, the default, or an
      entry of the palette, in front and behind. */
  lemma LastForeground(pen: Pen, a: seq<nat>, b: seq<nat>, c: nat, k: nat)
    requires ValidPen(pen) && Closed(a) && LeavesAlone(b, Foreground) && c < 8 && k < 256
    ensures Sgr(pen, a + [30 + c] + b).fg == c
    ensures Sgr(pen, a + [90 + c] + b).fg == 8 + c
    ensures Sgr(pen, a + [39] + b).fg == 257
    ensures Sgr(pen, a + [38, 5, k] + b).fg == k
  {
    hide *;
    ForegroundGroups(Sgr(pen, a), c, k);
    LastWriter(pen, a, [30 + c], b, Foreground);
    LastWriter(pen, a, [90 + c], b, Foreground);
    LastWriter(pen, a, [39], b, Foreground);
    LastWriter(pen, a, [38, 5, k], b, Foreground);
    FieldIsForeground();
  }

  /** And so does the palette entry nearest to the last colour given in full. */
  lemma LastFullForeground(pen: Pen, a: seq<nat>, b: seq<nat>, red: nat, green: nat, blue: nat)
    requires ValidPen(pen) && Closed(a) && LeavesAlone(b, Foreground) && red < 256 && green < 256 && blue < 256
    ensures IsNearest(Vcolors(), Rgb(red, green, blue), Sgr(pen, a + [38, 2, red, green, blue] + b).fg)
  {
    hide *;
    NearestIsNearest(Rgb(red, green, blue));
    FullGroup(Sgr(pen, a), red, green, blue);
    LastWriter(pen, a, [38, 2, red, green, blue], b, Foreground);
    FieldIsForeground();
  }

  lemma FullGroup(pen: Pen, red: nat, green: nat, blue: nat)
    requires red < 256 && green < 256 && blue < 256
    ensures Span([38, 2, red, green, blue]) == Span([48, 2, red, green, blue]) == 5
    ensures ValidPen(pen) ==>
      && Apply(pen, [38, 2, red, green, blue]).fg == Nearest(Rgb(red, green, blue))
      && Apply(pen, [48, 2, red, green, blue]).bg == Nearest(Rgb(red, green, blue))
  {
    hide Nearest;
  }

  lemma ForegroundGroups(pen: Pen, c: nat, k: nat)
    requires c < 8 && k < 256
    ensures Span([30 + c]) == Span([90 + c]) == Span([39]) == 1 && Span([38, 5, k]) == 3
    ensures ValidPen(pen) ==>
      && Apply(pen, [30 + c]).fg == c && Apply(pen, [90 + c]).fg == 8 + c
      && Apply(pen, [39]).fg == 257 && Apply(pen, [38, 5, k]).fg == k
  {
    hide Nearest;
  }

  lemma FieldIsForeground()
    ensures forall p, q {:trigger SameField(p, q, Foreground)} :: SameField(p, q, Foreground) <==> p.fg == q.fg
  {
  }

  /** The same behind the text. */
  lemma LastBackground(pen: Pen, a: seq<nat>, b: seq<nat>, c: nat, k: nat)
    requires ValidPen(pen) && Closed(a) && LeavesAlone(b, Background) && c < 8 && k < 256
    ensures Sgr(pen, a + [40 + c] + b).bg == c
    ensures Sgr(pen, a + [100 + c] + b).bg == 8 + c
    ensures Sgr(pen, a + [49] + b).bg == 256
    ensures Sgr(pen, a + [48, 5, k] + b).bg == k
  {
    hide *;
    BackgroundGroups(Sgr(pen, a), c, k);
    LastWriter(pen, a, [40 + c], b, Background);
    LastWriter(pen, a, [100 + c], b, Background);
    LastWriter(pen, a, [49], b, Background);
    LastWriter(pen, a, [48, 5, k], b, Background);
    FieldIsBackground();
  }

  /** And so does the palette entry nearest to the last colour given in full. */
  lemma LastFullBackground(pen: Pen, a: seq<nat>, b: seq<nat>, red: nat, green: nat, blue: nat)
    requires ValidPen(pen) && Closed(a) && LeavesAlone(b, Background) && red < 256 && green < 256 && blue < 256
    ensures IsNearest(Vcolors(), Rgb(red, green, blue), Sgr(pen, a + [48, 2, red, green, blue] + b).bg)
  {
    hide *;
    NearestIsNearest(Rgb(red, green, blue));
    FullGroup(Sgr(pen, a), red, green, blue);
    LastWriter(pen, a, [48, 2, red, green, blue], b, Background);
    FieldIsBackground();
  }

  lemma BackgroundGroups(pen: Pen, c: nat, k: nat)
    requires c < 8 && k < 256
    ensures Span([40 + c]) == Span([100 + c]) == Span([49]) == 1 && Span([48, 5, k]) == 3
    ensures ValidPen(pen) ==>
      && Apply(pen, [40 + c]).bg == c && Apply(pen, [100 + c]).bg == 8 + c
      && Apply(pen, [49]).bg == 256 && Apply(pen, [48, 5, k]).bg == k
  {
    hide Nearest;
  }

  lemma FieldIsBackground()
    ensures forall p, q {:trigger SameField(p, q, Background)} :: SameField(p, q, Background) <==> p.bg == q.bg
  {
  }

  /** Each flag is on behind its parameter and off behind that parameter's opposite. */
  lemma LastFlag(pen: Pen, a: seq<nat>, b: seq<nat>)
    requires ValidPen(pen) && Closed(a)
    ensures LeavesAlone(b, Bold) ==> Sgr(pen, a + [1] + b).bold && !Sgr(pen, a + [22] + b).bold
    ensures LeavesAlone(b, Underline) ==> Sgr(pen, a + [4] + b).underline && !Sgr(pen, a + [24] + b).underline
    ensures LeavesAlone(b, Blink) ==> Sgr(pen, a + [5] + b).blink && !Sgr(pen, a + [25] + b).blink
    ensures LeavesAlone(b, Inverse) ==> Sgr(pen, a + [7] + b).inverse && !Sgr(pen, a + [27] + b).inverse
    ensures LeavesAlone(b, Invisible) ==> Sgr(pen, a + [8] + b).invisible && !Sgr(pen, a + [28] + b).invisible
  {
    hide Sgr, LeavesAlone, Closed, Apply, Span;
    FlagGroups();
    if LeavesAlone(b, Bold) { LastWriter(pen, a, [1], b, Bold); LastWriter(pen, a, [22], b, Bold); }
    if LeavesAlone(b, Underline) { LastWriter(pen, a, [4], b, Underline); LastWriter(pen, a, [24], b, Underline); }
    if LeavesAlone(b, Blink) { LastWriter(pen, a, [5], b, Blink); LastWriter(pen, a, [25], b, Blink); }
    if LeavesAlone(b, Inverse) { LastWriter(pen, a, [7], b, Inverse); LastWriter(pen, a, [27], b, Inverse); }
    if LeavesAlone(b, Invisible) { LastWriter(pen, a, [8], b, Invisible); LastWriter(pen, a, [28], b, Invisible); }
  }

  lemma FlagGroups()
    ensures forall p {:trigger Span([p])} :: p <= 28 ==> Span([p]) == 1
    ensures forall pen {:trigger Apply(pen, [1])} :: ValidPen(pen) ==> Apply(pen, [1]).bold
    ensures forall pen {:trigger Apply(pen, [22])} :: ValidPen(pen) ==> !Apply(pen, [22]).bold
    ensures forall pen {:trigger Apply(pen, [4])} :: ValidPen(pen) ==> Apply(pen, [4]).underline
    ensures forall pen {:trigger Apply(pen, [24])} :: ValidPen(pen) ==> !Apply(pen, [24]).underline
    ensures forall pen {:trigger Apply(pen, [5])} :: ValidPen(pen) ==> Apply(pen, [5]).blink
    ensures forall pen {:trigger Apply(pen, [25])} :: ValidPen(pen) ==> !Apply(pen, [25]).blink
    ensures forall pen {:trigger Apply(pen, [7])} :: ValidPen(pen) ==> Apply(pen, [7]).inverse
    ensures forall pen {:trigger Apply(pen, [27])} :: ValidPen(pen) ==> !Apply(pen, [27]).inverse
    ensures forall pen {:trigger Apply(pen, [8])} :: ValidPen(pen) ==> Apply(pen, [8]).invisible
    ensures forall pen {:trigger Apply(pen, [28])} :: ValidPen(pen) ==> !Apply(pen, [28]).invisible
  {
  }

  /** Whatever came before it, 0 starts over. */
  lemma ZeroStartsOver(pen: Pen, a: seq<nat>, b: seq<nat>)
    requires ValidPen(pen) && Closed(a)
    ensures Sgr(pen, a + [0] + b) == Sgr(DEFAULT_PEN, b)
    ensures DEFAULT_PEN == Pen(false, false, false, false, false, 257, 256)
  {
    assert a + [0] + b == a + ([0] + b);
    ClosedListsCompose(pen, a, [0] + b);
    assert Rest([0] + b, 1) == b;
    assert Sgr(Sgr(pen, a), [0] + b) == Sgr(DEFAULT_PEN, b);
  }

  // ---- As a text, and on the packed attribute ------------------------------------------------------

  /** SGR as a text changes the attribute only, and as the list changes the pen. */
  lemma SgrText(e: Emu, ps: seq<nat>)
    requires EmuInv(e) && |ps| >= 1
    ensures Runs(e, Ground, Encode([], ps, SGR))
    ensures var r := After(e, Ground, Encode([], ps, SGR)); r == e.(attr := r.attr) && Unpack(r.attr) == Sgr(Unpack(e.attr), ps)
  {
    hide *;
    var c := Csi(SGR, ps, []);
    SgrIsFinal();
    ReadsCsi([], ps, SGR);
    SgrExecutes(e, ps);
    OneGives(e, Encode([], ps, SGR), c);
    Given(e, Encode([], ps, SGR));
  }

  lemma SgrIsFinal()
    ensures IsFinal(SGR)
  {
  }

  lemma SgrExecutes(e: Emu, ps: seq<nat>)
    requires EmuInv(e) && |ps| >= 1
    ensures var c, r := Csi(SGR, ps, []), Exec(e, Csi(SGR, ps, []));
      WellFormed(c) && Admissible(e, c) && r == e.(attr := r.attr) && Unpack(r.attr) == Sgr(Unpack(e.attr), ps)
  {
    hide Exec, Unpack, Sgr, SgrAttr, EmuInv, ValidPen;
    SgrChanges(e, ps);
    SgrUnpacks(e.attr, ps);
  }

  lemma SgrChanges(e: Emu, ps: seq<nat>)
    requires EmuInv(e) && |ps| >= 1
    ensures e.attr < ATTR_LIMIT && Exec(e, Csi(SGR, ps, [])) == e.(attr := SgrAttr(e.attr, ps))
  {
    hide SgrAttr;
  }

  lemma SgrUnpacks(attr: nat, ps: seq<nat>)
    requires attr < ATTR_LIMIT
    ensures Unpack(SgrAttr(attr, ps)) == Sgr(Unpack(attr), ps)
  {
    hide Unpack, Pack, Sgr;
    PackRoundTrip(Sgr(Unpack(attr), ps), attr);
  }

  /** Erased cells have the default pen but for the background, which is the current one. */
  lemma ErasedPen(p: Pen)
    requires ValidPen(p)
    ensures Unpack(EraseAttr(Pack(p))) == DEFAULT_PEN.(bg := p.bg)
  {
    var q := DEFAULT_PEN.(bg := p.bg);
    SplitParts(Flags(p), p.fg, p.bg);
    hide Flags;
    ErasedParts(Flags(p), p.fg, p.bg);
    hide PackParts;
    assert Flags(DEFAULT_PEN) == 0 by { NoFlags(); }
    assert Pack(q) == PackParts(0, 257, p.bg) by { NoFlags(); }
    hide EraseAttr, Unpack, Pack;
    assert EraseAttr(Pack(p)) == Pack(q);
    PackRoundTrip(q, 0);
  }

  lemma NoFlags()
    ensures forall fg, bg :: Flags(Pen(false, false, false, false, false, fg, bg)) == 0
  {
  }

  lemma ErasedParts(flags: nat, fg: nat, bg: nat)
    requires fg < 512 && bg < 512
    ensures EraseAttr(PackParts(flags, fg, bg)) == PackParts(0, 257, bg)
  {
    assert PackParts(flags, fg, bg) % 512 == bg;
  }
}
