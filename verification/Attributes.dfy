/** Character attributes: the packed integer every cell carries, the record it
    stands for, and what an SGR parameter list does to the record. */
module Attributes {
  import opened Sequences
  import opened Buffer
  import opened Palette

  datatype Pen = Pen(bold: bool, underline: bool, blink: bool, inverse: bool, invisible: bool, fg: int, bg: int)

  ghost predicate ValidPen(p: Pen) { 0 <= p.fg < 512 && 0 <= p.bg < 512 }

  const DEFAULT_PEN := Pen(false, false, false, false, false, 257, 256)

  function Bit(b: bool, weight: nat): nat { if b then weight else 0 }

  function Flags(p: Pen): (f: nat)
    ensures f < 32
  {
    Bit(p.bold, 1) + Bit(p.underline, 2) + Bit(p.blink, 4) + Bit(p.inverse, 8) + Bit(p.invisible, 16)
  }

  /** `flags & weight` for a power of two. */
  predicate Has(flags: nat, weight: nat)
    requires weight > 0
  {
    flags / weight % 2 == 1
  }

  function PenOf(flags: nat, fg: int, bg: int): Pen {
    Pen(Has(flags, 1), Has(flags, 2), Has(flags, 4), Has(flags, 8), Has(flags, 16), fg, bg)
  }

  /** `(flags << 18) | (fg << 9) | bg` for flags below 32 and colours below 512. */
  function PackParts(flags: nat, fg: nat, bg: nat): nat { flags * 0x4_0000 + fg * 0x200 + bg }

  function Pack(p: Pen): nat
    requires ValidPen(p)
  {
    PackParts(Flags(p), p.fg, p.bg)
  }

  /** `attr >> 18`, `(attr >> 9) & 0x1ff` and `attr & 0x1ff`. */
  function FlagsOf(attr: nat): nat { attr / 0x4_0000 }

  function FgOf(attr: nat): (c: nat)
    ensures c < 512
  {
    attr / 0x200 % 0x200
  }

  function BgOf(attr: nat): (c: nat)
    ensures c < 512
  {
    attr % 0x200
  }

  function Unpack(attr: nat): (p: Pen)
    ensures ValidPen(p)
  {
    PenOf(FlagsOf(attr), FgOf(attr), BgOf(attr))
  }

  const ATTR_LIMIT: nat := 0x80_0000

  lemma FlagsRoundTrip(flags: nat, fg: int, bg: int)
    requires flags < 32
    ensures Flags(PenOf(flags, fg, bg)) == flags
  {
    var p := PenOf(flags, fg, bg);
    TopBit(flags, 16);
    var f4 := flags - Bit(p.invisible, 16);
    TopBit(f4, 8);
    LowerBits(flags, 16);
    var f3 := f4 - Bit(p.inverse, 8);
    TopBit(f3, 4);
    LowerBits(f4, 8);
    var f2 := f3 - Bit(p.blink, 4);
    TopBit(f2, 2);
    LowerBits(f3, 4);
    LowerBits(f2, 2);
  }

  /** The highest of the bits of a number below 2 * weight. */
  lemma TopBit(flags: nat, weight: nat)
    requires weight > 0 && flags < 2 * weight
    ensures Has(flags, weight) <==> flags >= weight
  {
    if flags >= weight { assert flags / weight == 1; }
  }

  /** Taking it away leaves the lower bits alone. */
  lemma LowerBits(flags: nat, weight: nat)
    requires flags < 2 * weight && (weight == 2 || weight == 4 || weight == 8 || weight == 16)
    ensures var rest := if Has(flags, weight) then flags - weight else flags;
      && (Has(rest, 1) <==> Has(flags, 1))
      && (weight > 2 ==> (Has(rest, 2) <==> Has(flags, 2)))
      && (weight > 4 ==> (Has(rest, 4) <==> Has(flags, 4)))
      && (weight > 8 ==> (Has(rest, 8) <==> Has(flags, 8)))
  {
    TopBit(flags, weight);
  }

  lemma PenRoundTrip(p: Pen)
    ensures PenOf(Flags(p), p.fg, p.bg) == p
  {
  }

  /** Packing loses nothing, and every attribute below the limit is a packed pen. */
  lemma PackRoundTrip(p: Pen, attr: nat)
    requires ValidPen(p) && attr < ATTR_LIMIT
    ensures Unpack(Pack(p)) == p && Pack(p) < ATTR_LIMIT
    ensures Pack(Unpack(attr)) == attr
    ensures Unpack(DEF_ATTR) == DEFAULT_PEN
  {
    PenRoundTrip(p);
    SplitParts(Flags(p), p.fg, p.bg);
    JoinParts(attr);
    FlagsRoundTrip(FlagsOf(attr), FgOf(attr), BgOf(attr));
    PenRoundTrip(DEFAULT_PEN);
    SplitParts(0, 257, 256);
  }

  lemma JoinParts(attr: nat)
    requires attr < ATTR_LIMIT
    ensures FlagsOf(attr) < 32
    ensures PackParts(FlagsOf(attr), FgOf(attr), BgOf(attr)) == attr
  {
    var hi := attr / 0x200;
    assert hi / 0x200 == attr / 0x4_0000;
  }

  lemma SplitParts(flags: nat, fg: nat, bg: nat)
    requires fg < 512 && bg < 512
    ensures var a := PackParts(flags, fg, bg);
      FlagsOf(a) == flags && FgOf(a) == fg && BgOf(a) == bg
  {
    assert PackParts(flags, fg, bg) / 0x200 == flags * 0x200 + fg;
  }

  // ---- SGR ----------------------------------------------------------------

  /** `params[i] & 0xff`, where a missing parameter reads as 0. */
  function Arg(ps: seq<nat>, i: nat): nat { if i < |ps| then ps[i] % 256 else 0 }

  function Extended(ps: seq<nat>): bool { |ps| >= 1 && (ps[0] == 38 || ps[0] == 48) }

  /** The colour an extended group of at least two parameters selects, if any. */
  function ExtendedColor(ps: seq<nat>): (c: Option<nat>)
    requires Extended(ps)
    ensures c.Some? ==> c.value < 256
  {
    if |ps| >= 2 && ps[1] == 2 then Some(Nearest(Rgb(Arg(ps, 2), Arg(ps, 3), Arg(ps, 4))))
    else if |ps| >= 2 && ps[1] == 5 then Some(Arg(ps, 2))
    else None
  }

  /** How many parameters the group at the head of the list needs to be complete;
      a trailing 38 or 48 still waits for its kind. */
  function Span(ps: seq<nat>): (n: nat)
    requires |ps| >= 1
    ensures n >= 1
  {
    if !Extended(ps) then 1
    else if |ps| == 1 then 2
    else if ps[1] == 2 then 5
    else if ps[1] == 5 then 3
    else 1
  }

  /** A parameter that turns one flag on or off. */
  function ApplyFlag(pen: Pen, p: nat): Pen {
    match p
    case 1 => pen.(bold := true)
    case 4 => pen.(underline := true)
    case 5 => pen.(blink := true)
    case 7 => pen.(inverse := true)
    case 8 => pen.(invisible := true)
    case 22 => pen.(bold := false)
    case 24 => pen.(underline := false)
    case 25 => pen.(blink := false)
    case 27 => pen.(inverse := false)
    case 28 => pen.(invisible := false)
    case _ => pen
  }

  /** A parameter that stands alone: a palette colour, a default, or a flag. */
  function ApplySingle(pen: Pen, p: nat): (r: Pen)
    requires ValidPen(pen)
    ensures ValidPen(r)
  {
    if 30 <= p <= 37 then pen.(fg := p - 30)
    else if 40 <= p <= 47 then pen.(bg := p - 40)
    else if 90 <= p <= 97 then pen.(fg := p - 82)
    else if 100 <= p <= 107 then pen.(bg := p - 92)
    else if p == 0 then DEFAULT_PEN
    else if p == 39 then pen.(fg := DEFAULT_PEN.fg)
    else if p == 49 then pen.(bg := DEFAULT_PEN.bg)
    else ApplyFlag(pen, p)
  }

  /** What the group at the head of the list does. */
  function Apply(pen: Pen, ps: seq<nat>): (r: Pen)
    requires |ps| >= 1 && ValidPen(pen)
    ensures ValidPen(r)
  {
    if !Extended(ps) then ApplySingle(pen, ps[0])
    else
      match ExtendedColor(ps)
      case Some(c) => if ps[0] == 38 then pen.(fg := c) else pen.(bg := c)
      case None => pen
  }

  function Rest(ps: seq<nat>, n: nat): seq<nat> { if n < |ps| then ps[n..] else [] }

  function Sgr(pen: Pen, ps: seq<nat>): (r: Pen)
    requires ValidPen(pen)
    ensures ValidPen(r)
    decreases |ps|
  {
    if ps == [] then pen else Sgr(Apply(pen, ps), Rest(ps, Span(ps)))
  }

  /** No group is cut short by the end of the list. */
  predicate Closed(ps: seq<nat>)
    decreases |ps|
  {
    ps == [] || (Span(ps) <= |ps| && Closed(ps[Span(ps)..]))
  }

  /** A complete group does not see what follows it. */
  lemma SameGroup(pen: Pen, a: seq<nat>, b: seq<nat>)
    requires ValidPen(pen) && |a| >= 1 && Span(a) <= |a|
    ensures Span(a + b) == Span(a) && Apply(pen, a + b) == Apply(pen, a)
  {
    hide ApplySingle, Nearest;
  }

  lemma {:induction false} ClosedListsCompose(pen: Pen, a: seq<nat>, b: seq<nat>)
    requires ValidPen(pen) && Closed(a)
    ensures Sgr(pen, a + b) == Sgr(Sgr(pen, a), b)
    decreases |a|
  {
    if a == [] {
      assert a + b == b;
    } else {
      var n := Span(a);
      SameGroup(pen, a, b);
      hide Apply, Span;
      assert Rest(a + b, n) == a[n..] + b;
      ClosedListsCompose(Apply(pen, a), a[n..], b);
    }
  }

  /** What completes a cut-off list and at the same time resets on its own. */
  function Completion(a: seq<nat>): seq<nat>
    requires !Closed(a)
    decreases |a|
  {
    if Span(a) <= |a| then Completion(a[Span(a)..])
    else if |a| == 1 then [5, 0]
    else Copies(Span(a) - |a|, 0)
  }

  /** Read as one list the completion is swallowed as a colour; on its own it resets. */
  lemma {:induction false} CutListsDoNotCompose(pen: Pen, a: seq<nat>)
    requires ValidPen(pen) && !Closed(a)
    ensures Sgr(pen, a + Completion(a)) != Sgr(Sgr(pen, a), Completion(a))
    decreases |a|
  {
    var n := Span(a);
    var b := Completion(a);
    if n <= |a| {
      SameGroup(pen, a, b);
      hide Apply, Span;
      assert Rest(a + b, n) == a[n..] + b;
      CutListsDoNotCompose(Apply(pen, a), a[n..]);
    } else {
      ResetWins(Sgr(pen, a), b);
      CompletedGroup(pen, a);
    }
  }

  lemma CompletedGroup(pen: Pen, a: seq<nat>)
    requires ValidPen(pen) && |a| >= 1 && |a| < Span(a)
    ensures Sgr(pen, a + Completion(a)) != DEFAULT_PEN
  {
    var whole := a + Completion(a);
    assert Extended(whole) && whole[0] == a[0];
    assert |whole| == Span(whole) && ExtendedColor(whole).Some?;
    assert Rest(whole, Span(whole)) == [];
    assert Sgr(pen, whole) == Apply(pen, whole);
  }

  /** A list of zeros, with a 5 in front or not, ends in the default pen. */
  lemma {:induction false} ResetWins(pen: Pen, b: seq<nat>)
    requires ValidPen(pen) && (b == [5, 0] || (|b| > 0 && b == Copies(|b|, 0)))
    ensures Sgr(pen, b) == DEFAULT_PEN
    decreases |b|
  {
    if b == [5, 0] {
      assert Rest(b, 1) == [0];
      ResetWins(Apply(pen, b), [0]);
    } else {
      assert Span(b) == 1;
      if |b| > 1 { assert Rest(b, 1) == Copies(|b| - 1, 0); ResetWins(DEFAULT_PEN, b[1..]); }
    }
  }

  /** A list may be split exactly where no extended colour group is open. */
  lemma SgrSplitsExactly(a: seq<nat>)
    ensures Closed(a) <==> forall pen, b {:trigger Sgr(pen, a + b)} :: ValidPen(pen) ==> Sgr(pen, a + b) == Sgr(Sgr(pen, a), b)
  {
    if Closed(a) {
      forall pen, b | ValidPen(pen) ensures Sgr(pen, a + b) == Sgr(Sgr(pen, a), b) {
        ClosedListsCompose(pen, a, b);
      }
    } else {
      CutListsDoNotCompose(DEFAULT_PEN, a);
      assert ValidPen(DEFAULT_PEN) && Sgr(DEFAULT_PEN, a + Completion(a)) != Sgr(Sgr(DEFAULT_PEN, a), Completion(a));
    }
  }

  /** The packed attribute after an SGR list. */
  function SgrAttr(attr: nat, ps: seq<nat>): (r: nat)
    requires attr < ATTR_LIMIT
    ensures r < ATTR_LIMIT
  {
    PackRoundTrip(Sgr(Unpack(attr), ps), attr);
    Pack(Sgr(Unpack(attr), ps))
  }

  /** `flags | weight` and `flags & ~weight` for a power of two. */
  function WithBit(flags: nat, weight: nat): nat
    requires weight > 0
  {
    if Has(flags, weight) then flags else flags + weight
  }

  function WithoutBit(flags: nat, weight: nat): int
    requires weight > 0
  {
    if Has(flags, weight) then flags - weight else flags
  }

  lemma BitsAreFields(p: Pen)
    ensures WithBit(Flags(p), 1) == Flags(p.(bold := true)) && WithoutBit(Flags(p), 1) == Flags(p.(bold := false))
    ensures WithBit(Flags(p), 2) == Flags(p.(underline := true)) && WithoutBit(Flags(p), 2) == Flags(p.(underline := false))
    ensures WithBit(Flags(p), 4) == Flags(p.(blink := true)) && WithoutBit(Flags(p), 4) == Flags(p.(blink := false))
    ensures WithBit(Flags(p), 8) == Flags(p.(inverse := true)) && WithoutBit(Flags(p), 8) == Flags(p.(inverse := false))
    ensures WithBit(Flags(p), 16) == Flags(p.(invisible := true)) && WithoutBit(Flags(p), 16) == Flags(p.(invisible := false))
  {
    PenRoundTrip(p);
  }

  /** The packed interpreter: flags and colours taken apart, changed one parameter
      after another, and packed again. It computes what the record interpreter does. */
  method CharAttributes(matcher: ColorMatcher, curAttr: nat, params: seq<nat>) returns (attr: nat)
    requires matcher.Valid() && curAttr < ATTR_LIMIT
    modifies matcher
    ensures matcher.Valid()
    ensures attr == SgrAttr(curAttr, params)
  {
    hide Sgr, Apply, Parts, Unpack, SgrAttr, FlagsOf, FgOf, BgOf, PackParts, Nearest, Unhash, Span, Rest;
    if |params| == 1 && params[0] == 0 {
      SingleReset(curAttr);
      assert params == [0];
      return DEF_ATTR;
    }
    var flags: nat, fg: nat, bg: nat := FlagsOf(curAttr), FgOf(curAttr), BgOf(curAttr);
    ghost var pen := Unpack(curAttr);
    TakenApart(curAttr);
    RestOfAll(params, 0);
    var i := 0;
    while i < |params|
      invariant 0 <= i
      invariant matcher.Valid()
      invariant ValidPen(pen) && Parts(pen, flags, fg, bg)
      invariant Sgr(Unpack(curAttr), params) == Sgr(pen, Rest(params, i))
      decreases |params| - i
    {
      var n;
      SgrUnfolds(pen, params, i);
      ghost var next := Apply(pen, params[i..]);
      flags, fg, bg, n := Group(matcher, params, i, flags, fg, bg, pen);
      pen, i := next, i + n;
    }
    RestOfAll(params, i);
    attr := PackParts(flags, fg, bg);
    PutTogether(curAttr, params, pen, flags, fg, bg);
  }

  lemma RestOfAll(ps: seq<nat>, n: nat)
    ensures n == 0 ==> Rest(ps, n) == ps
    ensures n >= |ps| ==> Rest(ps, n) == []
  {
  }

  lemma TakenApart(attr: nat)
    requires attr < ATTR_LIMIT
    ensures ValidPen(Unpack(attr)) && Parts(Unpack(attr), FlagsOf(attr), FgOf(attr), BgOf(attr))
  {
    JoinParts(attr);
    FlagsRoundTrip(FlagsOf(attr), FgOf(attr), BgOf(attr));
  }

  lemma PutTogether(attr: nat, ps: seq<nat>, pen: Pen, flags: nat, fg: nat, bg: nat)
    requires attr < ATTR_LIMIT && Parts(pen, flags, fg, bg) && Sgr(Unpack(attr), ps) == Sgr(pen, [])
    ensures PackParts(flags, fg, bg) == SgrAttr(attr, ps)
  {
    hide Unpack, PenOf;
  }

  lemma SingleReset(attr: nat)
    requires attr < ATTR_LIMIT
    ensures SgrAttr(attr, [0]) == DEF_ATTR
  {
    PackRoundTrip(DEFAULT_PEN, DEF_ATTR);
    assert Rest([0], 1) == [];
    assert Sgr(Unpack(attr), [0]) == Sgr(DEFAULT_PEN, []);
  }

  /** The three variables of the packed interpreter stand for the pen. */
  ghost predicate Parts(pen: Pen, flags: nat, fg: nat, bg: nat) {
    ValidPen(pen) && Flags(pen) == flags && pen.fg == fg && pen.bg == bg
  }

  lemma SgrUnfolds(pen: Pen, params: seq<nat>, i: nat)
    requires ValidPen(pen) && i < |params|
    ensures Sgr(pen, Rest(params, i)) == Sgr(Apply(pen, params[i..]), Rest(params, i + Span(params[i..])))
  {
    var ps := params[i..];
    assert Rest(params, i) == ps;
    assert Rest(ps, Span(ps)) == Rest(params, i + Span(ps));
  }

  /** One pass through the branches; an extended group that the list cuts short is
      skipped over all the same, which the unread rest does not notice. */
  method Group(matcher: ColorMatcher, params: seq<nat>, i: nat, flags0: nat, fg0: nat, bg0: nat, ghost pen: Pen)
    returns (flags: nat, fg: nat, bg: nat, n: nat)
    requires matcher.Valid() && i < |params| && Parts(pen, flags0, fg0, bg0)
    modifies matcher
    ensures matcher.Valid()
    ensures Parts(Apply(pen, params[i..]), flags, fg, bg)
    ensures n >= 1 && Rest(params, i + n) == Rest(params, i + Span(params[i..]))
  {
    hide Nearest, Unhash;
    flags, fg, bg, n := flags0, fg0, bg0, 1;
    if params[i] != 38 && params[i] != 48 {
      flags, fg, bg := Single(params[i], flags, fg, bg, pen);
    } else if i + 1 < |params| && params[i + 1] == 2 {
      var c := matcher.MatchColor(Rgb(Arg(params, i + 2), Arg(params, i + 3), Arg(params, i + 4)));
      if params[i] == 38 { fg := c; } else { bg := c; }
      n := 5;
    } else if i + 1 < |params| && params[i + 1] == 5 {
      if params[i] == 38 { fg := Arg(params, i + 2); } else { bg := Arg(params, i + 2); }
      n := 3;
    }
  }

  lemma DefaultParts()
    ensures FlagsOf(DEF_ATTR) == 0 == Flags(DEFAULT_PEN)
    ensures FgOf(DEF_ATTR) == DEFAULT_PEN.fg && BgOf(DEF_ATTR) == DEFAULT_PEN.bg
  {
  }

  /** Every branch but the two extended ones. */
  method Single(p: nat, flags0: nat, fg0: nat, bg0: nat, ghost pen: Pen) returns (flags: nat, fg: nat, bg: nat)
    requires Parts(pen, flags0, fg0, bg0)
    ensures Parts(ApplySingle(pen, p), flags, fg, bg)
  {
    DefaultParts();
    hide FlagsOf, FgOf, BgOf, ApplyFlag;
    flags, fg, bg := flags0, fg0, bg0;
    if p >= 30 && p <= 37 { fg := p - 30; }
    else if p >= 40 && p <= 47 { bg := p - 40; }
    else if p >= 90 && p <= 97 { fg := p + 8 - 90; }
    else if p >= 100 && p <= 107 { bg := p + 8 - 100; }
    else if p == 0 { flags, fg, bg := FlagsOf(DEF_ATTR), FgOf(DEF_ATTR), BgOf(DEF_ATTR); }
    else if p == 39 { fg := FgOf(DEF_ATTR); }
    else if p == 49 { bg := BgOf(DEF_ATTR); }
    else { flags := Flag(p, flags, pen); }
  }

  method Flag(p: nat, flags0: nat, ghost pen: Pen) returns (flags: nat)
    requires Flags(pen) == flags0
    ensures flags == Flags(ApplyFlag(pen, p))
    ensures var r := ApplyFlag(pen, p); r.fg == pen.fg && r.bg == pen.bg
  {
    BitsAreFields(pen);
    flags := flags0;
    if p == 1 { flags := WithBit(flags, 1); }
    else if p == 4 { flags := WithBit(flags, 2); }
    else if p == 5 { flags := WithBit(flags, 4); }
    else if p == 7 { flags := WithBit(flags, 8); }
    else if p == 8 { flags := WithBit(flags, 16); }
    else if p == 22 { flags := WithoutBit(flags, 1); }
    else if p == 24 { flags := WithoutBit(flags, 2); }
    else if p == 25 { flags := WithoutBit(flags, 4); }
    else if p == 27 { flags := WithoutBit(flags, 8); }
    else if p == 28 { flags := WithoutBit(flags, 16); }
  }
}
