/** The escape-sequence parser. It never looks at the screen, so reading a text
    comes down to a list of commands and the mode it ends in. */
module Parser {
  import opened Sequences
  import opened Numerals
  import opened Widths
  import opened Emulator

  datatype Mode =
    | Ground
    | Escape
    | Designating(g: nat)
    | Sequence(params: seq<nat>, cur: nat, prefix: Text)
    | OscCode(cur: nat)
    | OscText(code: nat, text: Text)
    | DeviceString(prefix: Text, request: Text)
    | Ignoring

  /** What one character does: the new mode, the commands it completes and how far
      the reading position moves. Two units are skipped where the source has a
      second `i++`, none where it steps back. */
  datatype Reaction = Reaction(mode: Mode, cmds: seq<Cmd>, advance: nat)

  const BEL: CodeUnit := 7

  function InGround(ch: Text, code: int): Reaction
    requires |ch| >= 1
  {
    if |ch| > 1 then Reaction(Ground, [Print(ch, Width(code))], 1)
    else
      match ch[0]
      case 7 => Reaction(Ground, [], 1)
      case 10 => Reaction(Ground, [LineFeed], 1)
      case 11 => Reaction(Ground, [LineFeed], 1)
      case 12 => Reaction(Ground, [LineFeed], 1)
      case 13 => Reaction(Ground, [CarriageReturn], 1)
      case 8 => Reaction(Ground, [Backspace], 1)
      case 9 => Reaction(Ground, [Tab], 1)
      case 14 => Reaction(Ground, [ShiftTo(1)], 1)
      case 15 => Reaction(Ground, [ShiftTo(0)], 1)
      case 27 => Reaction(Escape, [], 1)
      case u => Reaction(Ground, if u >= 32 then [Print(ch, Width(code))] else [], 1)
  }

  /** Some locking shifts leave the parser in the escaped state. */
  function InEscape(ch: Text): Reaction
    requires |ch| >= 1
  {
    if |ch| > 1 then Reaction(Ground, [], 1)
    else
      match ch[0]
      case 91 => Reaction(Sequence([], 0, []), [], 1)                          // '['
      case 93 => Reaction(OscCode(0), [], 1)                                   // ']'
      case 80 => Reaction(DeviceString([], []), [], 1)                         // 'P'
      case 95 => Reaction(Ignoring, [], 1)                                     // '_'
      case 94 => Reaction(Ignoring, [], 1)                                     // '^'
      case 99 => Reaction(Ground, [FullReset], 1)                              // 'c'
      case 69 => Reaction(Ground, [NextLine], 1)                               // 'E'
      case 68 => Reaction(Ground, [IndexDown], 1)                              // 'D'
      case 77 => Reaction(Ground, [IndexUp], 1)                                // 'M'
      case 37 => Reaction(Ground, [ShiftTo(0), Designate(0, Plain)], 2)        // '%'
      case 40 => Reaction(Designating(0), [], 1)                               // '('
      case 41 => Reaction(Designating(1), [], 1)                               // ')'
      case 42 => Reaction(Designating(2), [], 1)                               // '*'
      case 43 => Reaction(Designating(3), [], 1)                               // '+'
      case 45 => Reaction(Designating(1), [], 1)                               // '-'
      case 46 => Reaction(Designating(2), [], 1)                               // '.'
      case 47 => Reaction(Designating(3), [], 0)                               // '/'
      case 78 => Reaction(Escape, [], 1)                                       // 'N'
      case 79 => Reaction(Escape, [], 1)                                       // 'O'
      case 110 => Reaction(Escape, [ShiftTo(2)], 1)                            // 'n'
      case 111 => Reaction(Escape, [ShiftTo(3)], 1)                            // 'o'
      case 124 => Reaction(Escape, [ShiftTo(3)], 1)                            // '|'
      case 125 => Reaction(Escape, [ShiftTo(2)], 1)                            // '}'
      case 126 => Reaction(Escape, [ShiftTo(1)], 1)                            // '~'
      case 55 => Reaction(Ground, [SaveCursor], 1)                             // '7'
      case 56 => Reaction(Ground, [RestoreCursor], 1)                          // '8'
      case 35 => Reaction(Ground, [], 2)                                       // '#'
      case 72 => Reaction(Ground, [SetTab], 1)                                 // 'H'
      case _ => Reaction(Ground, [], 1)
  }

  function InDesignating(g: nat, ch: Text): Reaction {
    if ch == [48] then Reaction(Ground, [Designate(g, Graphics)], 1)           // '0'
    else Reaction(Ground, [Designate(g, Plain)], if ch == [47] then 2 else 1)  // '/'
  }

  /** ESC and BEL end a string; the character after ESC is skipped. */
  predicate Ends(ch: Text) { ch == [ESC] || ch == [BEL] }

  function EndAdvance(ch: Text): nat { if ch == [ESC] then 2 else 1 }

  function InOscCode(cur: nat, ch: Text): Reaction {
    if Ends(ch) then Reaction(Ground, [], EndAdvance(ch))
    else if |ch| == 1 && IsDigit(ch[0]) then Reaction(OscCode(cur * 10 + (ch[0] as int - 48)), [], 1)
    else if ch == [59] then Reaction(OscText(cur, []), [], 1)                  // ';'
    else Reaction(OscCode(cur), [], 1)
  }

  function InOscText(code: nat, text: Text, ch: Text): Reaction {
    if Ends(ch) then Reaction(Ground, if code <= 2 && text != [] then [SetTitle(text)] else [], EndAdvance(ch))
    else Reaction(OscText(code, text + ch), [], 1)
  }

  predicate IsPrefix(u: CodeUnit) { u == 63 || u == 62 || u == 33 }                // ? > !

  predicate IsPostfix(u: CodeUnit) { u == 36 || u == 34 || u == 32 || u == 39 }    // $ " space '

  /** Anything that is not part of the list is the final character; an unknown one
      only ends the sequence. */
  function InSequence(params: seq<nat>, cur: nat, prefix: Text, ch: Text): Reaction
    requires |ch| >= 1
  {
    if |ch| > 1 then Reaction(Ground, [], 1)
    else
      var u := ch[0];
      if IsPrefix(u) then Reaction(Sequence(params, cur, ch), [], 1)
      else if IsDigit(u) then Reaction(Sequence(params, cur * 10 + (u as int - 48), prefix), [], 1)
      else if IsPostfix(u) then Reaction(Sequence(params, cur, prefix), [], 1)
      else if u == 59 then Reaction(Sequence(params + [cur], 0, prefix), [], 1)      // ';'
      else Reaction(Ground, [Csi(u, params + [cur], prefix)], 1)
  }

  /** Two characters of prefix, then the request; without a '$' or '+' in front the
      request starts at once. */
  function InDeviceString(prefix: Text, request: Text, ch: Text): Reaction {
    if Ends(ch) then Reaction(Ground, [StatusString(prefix, request)], EndAdvance(ch))
    else if request != [] then Reaction(DeviceString(prefix, request + ch), [], 1)
    else if (prefix == [] && ch != [36] && ch != [43]) || |prefix| == 2 then Reaction(DeviceString(prefix, ch), [], 1)
    else Reaction(DeviceString(prefix + ch, []), [], 1)
  }

  function React(m: Mode, ch: Text, code: int): (r: Reaction)
    requires |ch| >= 1
    ensures r.advance <= 2
    ensures r.advance == 0 ==> m.Escape? && !r.mode.Escape?
    ensures forall i {:trigger r.cmds[i]} :: 0 <= i < |r.cmds| ==> WellFormed(r.cmds[i])
  {
    match m
    case Ground => InGround(ch, code)
    case Escape => InEscape(ch)
    case Designating(g) => InDesignating(g, ch)
    case Sequence(params, cur, prefix) => InSequence(params, cur, prefix, ch)
    case OscCode(cur) => InOscCode(cur, ch)
    case OscText(n, text) => InOscText(n, text, ch)
    case DeviceString(prefix, request) => InDeviceString(prefix, request, ch)
    case Ignoring => if Ends(ch) then Reaction(Ground, [], EndAdvance(ch)) else Reaction(Ignoring, [], 1)
  }

  // ---- Reading a chunk --------------------------------------------------------

  predicate IsHigh(u: int) { 0xD800 <= u <= 0xDBFF }

  predicate IsLow(u: int) { 0xDC00 <= u <= 0xDFFF }

  /** The code point of a high surrogate and whatever unit follows it. */
  function Combined(high: int, low: int): int { (high - 0xD800) * 0x400 + (low - 0xDC00) + 0x1_0000 }

  /** The end of a chunk: the mode, a high surrogate waiting for its other half, the
      commands, and whether a skip went beyond the end. */
  datatype Scanned = Scanned(mode: Mode, high: Text, cmds: seq<Cmd>, over: bool)

  function Prepend(cmds: seq<Cmd>, r: Scanned): Scanned { r.(cmds := cmds + r.cmds) }

  /** A high surrogate with nothing behind it. */
  predicate Lone(s: Text) { |s| == 1 && IsHigh(s[0]) }

  /** One pass of the loop: a surrogate pair is taken together, and its second half
      passed over when its turn comes. */
  function Next(m: Mode, s: Text): (r: Reaction)
    requires |s| >= 1 && !Lone(s)
    ensures r.advance <= 2
    ensures r.advance == 0 ==> m.Escape? && !r.mode.Escape?
    ensures AllWellFormed(r.cmds)
  {
    var code := if IsHigh(s[0]) then Combined(s[0], s[1]) else s[0];
    var ch := if IsHigh(s[0]) then s[..2] else s[..1];
    if IsLow(code) then Reaction(m, [], 1) else React(m, ch, code)
  }

  /** Reads s but for its last drop units. The measure is the text left and, for the
      one step back, the escaped state it leaves behind. */
  function Scan(m: Mode, s: Text, drop: nat): (r: Scanned)
    ensures AllWellFormed(r.cmds)
    decreases |s|, if m.Escape? then 1 else 0
  {
    if |s| <= drop then Scanned(m, [], [], |s| < drop)
    else if Lone(s) then Scanned(m, s, [], false)
    else
      var r := Next(m, s);
      if r.advance > |s| then Scanned(r.mode, [], r.cmds, true)
      else Prepend(r.cmds, Scan(r.mode, s[r.advance..], drop))
  }

  /** One call of `write`: the surrogate left over from the last call goes in front,
      but the length has already been taken, so the last unit is never read. */
  function Read(m: Mode, high: Text, data: Text): (r: Scanned)
    ensures AllWellFormed(r.cmds)
  {
    Scan(m, high + data, |high|)
  }

  /** The chunk ends between characters: no half surrogate pair, no skip beyond it. */
  predicate CleanCut(m: Mode, a: Text) {
    var r := Scan(m, a, 0);
    r.high == [] && !r.over
  }

  /** Reading is the same in one chunk or two when the cut is clean. */
  lemma {:induction false} CleanCutsDoNotMatter(m: Mode, a: Text, b: Text)
    requires CleanCut(m, a)
    ensures var r := Scan(m, a, 0);
      Scan(m, a + b, 0) == Prepend(r.cmds, Scan(r.mode, b, 0))
    decreases |a|, if m.Escape? then 1 else 0
  {
    if a == [] {
      assert a + b == b;
      PrependNothing(Scan(m, b, 0));
    } else {
      NextIsLocal(m, a, b);
      var r := Next(m, a);
      var n := r.advance;
      assert (a + b)[n..] == a[n..] + b;
      CleanCutsDoNotMatter(r.mode, a[n..], b);
      var tail := Scan(r.mode, a[n..], 0);
      PrependTwice(r.cmds, tail.cmds, Scan(tail.mode, b, 0));
    }
  }

  lemma NextIsLocal(m: Mode, a: Text, b: Text)
    requires |a| >= 1 && !Lone(a)
    ensures !Lone(a + b) && Next(m, a + b) == Next(m, a)
  {
    assert (a + b)[..1] == a[..1];
    if |a| > 1 { assert (a + b)[..2] == a[..2]; }
  }

  lemma PrependTwice(a: seq<Cmd>, b: seq<Cmd>, r: Scanned)
    ensures Prepend(a, Prepend(b, r)) == Prepend(a + b, r)
  {
    assert a + (b + r.cmds) == (a + b) + r.cmds;
  }

  /** A skip that ends its chunk is forgotten: ESC # 8 in one chunk draws nothing,
      cut after the '#' it prints an 8. */
  lemma OvershootingCutMatters()
    ensures Scan(Ground, [ESC, 35] + [56], 0).cmds == []
    ensures Scan(Ground, [ESC, 35], 0) == Scanned(Ground, [], [], true)
    ensures Scan(Ground, [56], 0).cmds == [Print([56], 1)]
    ensures !CleanCut(Ground, [ESC, 35])
  {
    hide Scan;
    assert [ESC] + [35] == [ESC, 35] && [ESC] + [35, 56] == [ESC, 35] + [56];
    Unit(Ground, ESC, [35]);
    Unit(Ground, ESC, [35, 56]);
    PrependNothing(Scan(Escape, [35], 0));
    PrependNothing(Scan(Escape, [35, 56], 0));
    AfterHash();
    PrintedEight();
  }

  lemma AfterHash()
    ensures Scan(Escape, [35], 0) == Scanned(Ground, [], [], true)
    ensures Scan(Escape, [35, 56], 0) == Scanned(Ground, [], [], false)
  {
    var s: Text := [35];
    var t: Text := [35, 56];
    assert s[..1] == [35] == t[..1] && t[2..] == [];
    assert Next(Escape, s) == Reaction(Ground, [], 2) == Next(Escape, t);
    PrependNothing(Scan(Ground, [], 0));
  }

  lemma PrintedEight()
    ensures Scan(Ground, [56], 0) == Scanned(Ground, [], [Print([56], 1)], false)
  {
    var e: Text := [56];
    AsciiIsNarrow(56);
    assert e[..1] == e && e[1..] == [];
    assert Next(Ground, e) == Reaction(Ground, [Print(e, 1)], 1);
  }

  /** After a split surrogate pair the last unit of the next chunk is lost, whatever
      it is. */
  lemma {:induction false} SplitPairLosesLastUnit(m: Mode, s: Text, u: CodeUnit, v: CodeUnit)
    requires |s| >= 1 && !IsHigh(s[|s| - 1])
    ensures Scan(m, s + [u], 1) == Scan(m, s + [v], 1)
    decreases |s|, if m.Escape? then 1 else 0
  {
    var a, b := s + [u], s + [v];
    NextIsLocal(m, s, [u]);
    NextIsLocal(m, s, [v]);
    var n := Next(m, s).advance;
    if n < |s| {
      assert a[n..] == s[n..] + [u] && b[n..] == s[n..] + [v];
      SplitPairLosesLastUnit(Next(m, s).mode, s[n..], u, v);
    }
  }

  // ---- Control sequences read back ----------------------------------------------

  function Join(ps: seq<nat>): Text
    requires |ps| >= 1
  {
    if |ps| == 1 then Decimal(ps[0]) else Decimal(ps[0]) + [59] + Join(ps[1..])
  }

  /** ESC [ prefix parameters final. */
  function Encode(prefix: Text, ps: seq<nat>, final: CodeUnit): Text
    requires |ps| >= 1
  {
    [ESC, 91] + prefix + Join(ps) + [final]
  }

  predicate IsFinal(u: CodeUnit) {
    !IsPrefix(u) && !IsDigit(u) && !IsPostfix(u) && u != 59 && !IsHigh(u) && !IsLow(u)
  }

  /** One plain unit at the head of the text. */
  lemma Unit(m: Mode, u: CodeUnit, rest: Text)
    requires !IsHigh(u) && !IsLow(u)
    requires React(m, [u], u).advance == 1
    ensures var r := React(m, [u], u);
      Scan(m, [u] + rest, 0) == Prepend(r.cmds, Scan(r.mode, rest, 0))
  {
    var s := [u] + rest;
    assert s[..1] == [u] && s[1..] == rest;
    assert Next(m, s) == React(m, [u], u);
  }

  lemma {:induction false} ReadDigits(params: seq<nat>, cur: nat, prefix: Text, t: Text, rest: Text)
    requires forall i :: 0 <= i < |t| ==> IsDigit(t[i])
    ensures Scan(Sequence(params, cur, prefix), t + rest, 0) ==
            Scan(Sequence(params, Accumulate(cur, t), prefix), rest, 0)
  {
    hide Scan;
    if t == [] {
      assert t + rest == rest;
    } else {
      var k := |t| - 1;
      ReadDigits(params, cur, prefix, t[..k], [t[k]] + rest);
      assert t[..k] + ([t[k]] + rest) == t + rest;
      var sofar := Accumulate(cur, t[..k]);
      assert IsDigit(t[k]);
      Unit(Sequence(params, sofar, prefix), t[k], rest);
      PrependNothing(Scan(Sequence(params, Accumulate(cur, t), prefix), rest, 0));
    }
  }

  lemma PrependNothing(r: Scanned)
    ensures Prepend([], r) == r
  {
    assert [] + r.cmds == r.cmds;
  }

  lemma {:induction false} ReadList(params: seq<nat>, prefix: Text, ps: seq<nat>, final: CodeUnit, rest: Text)
    requires |ps| >= 1 && IsFinal(final)
    ensures Scan(Sequence(params, 0, prefix), Join(ps) + [final] + rest, 0) ==
            Prepend([Csi(final, params + ps, prefix)], Scan(Ground, rest, 0))
    decreases |ps|
  {
    hide Scan;
    var d := Decimal(ps[0]);
    DecimalReadsBack(ps[0]);
    if |ps| == 1 {
      ReadDigits(params, 0, prefix, d, [final] + rest);
      assert Join(ps) + [final] + rest == d + ([final] + rest);
      Unit(Sequence(params, ps[0], prefix), final, rest);
      assert params + [ps[0]] == params + ps;
    } else {
      var tail := Join(ps[1..]) + [final] + rest;
      assert Join(ps) + [final] + rest == d + ([59] + tail);
      ReadDigits(params, 0, prefix, d, [59] + tail);
      Unit(Sequence(params, ps[0], prefix), 59, tail);
      PrependNothing(Scan(Sequence(params + [ps[0]], 0, prefix), tail, 0));
      ReadList(params + [ps[0]], prefix, ps[1..], final, rest);
      assert params + [ps[0]] + ps[1..] == params + ps;
    }
  }

  /** Every encoded control sequence is read back as exactly the command it stands
      for, and the parser is at rest again. */
  lemma CsiRoundTrip(prefix: Text, ps: seq<nat>, final: CodeUnit, rest: Text)
    requires prefix == [] || (|prefix| == 1 && IsPrefix(prefix[0]))
    requires |ps| >= 1 && IsFinal(final)
    ensures Scan(Ground, Encode(prefix, ps, final) + rest, 0) ==
            Prepend([Csi(final, ps, prefix)], Scan(Ground, rest, 0))
  {
    hide Scan;
    var tail := Join(ps) + [final] + rest;
    ReadList([], prefix, ps, final, rest);
    assert [] + ps == ps;
    if prefix == [] {
      assert Encode(prefix, ps, final) + rest == [ESC, 91] + tail;
      ReadIntroducer(tail);
    } else {
      assert prefix == [prefix[0]];
      assert Encode(prefix, ps, final) + rest == [ESC, 91] + ([prefix[0]] + tail);
      ReadIntroducer([prefix[0]] + tail);
      Unit(Sequence([], 0, []), prefix[0], tail);
      PrependNothing(Scan(Sequence([], 0, prefix), tail, 0));
    }
  }

  /** ESC [ opens a control sequence. */
  lemma ReadIntroducer(rest: Text)
    ensures Scan(Ground, [ESC, 91] + rest, 0) == Scan(Sequence([], 0, []), rest, 0)
  {
    hide Scan;
    assert [ESC, 91] + rest == [ESC] + ([91] + rest);
    Unit(Ground, ESC, [91] + rest);
    PrependNothing(Scan(Escape, [91] + rest, 0));
    Unit(Escape, 91, rest);
    PrependNothing(Scan(Sequence([], 0, []), rest, 0));
  }
}
