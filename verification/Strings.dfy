/** The string sequences as texts: titles, device control strings, and those that are
    ignored. */
module Strings {
  import opened Sequences
  import opened Numerals
  import opened Buffer
  import opened Emulator
  import opened Parser
  import opened Replays
  import opened Texts

  /** What can stand in a string: neither ESC nor BEL ends it, and every unit is a
      character. */
  ghost predicate IsBody(t: Text) { forall i {:trigger t[i]} :: 0 <= i < |t| ==> IsPlain(t[i]) && t[i] != ESC && t[i] != BEL }

  /** BEL, or ESC and a unit that is skipped. */
  predicate IsEnd(t: Text) { t == [BEL] || (|t| == 2 && t[0] == ESC) }

  /** The modes that gather what they read. */
  predicate Gathers(m: Mode) { m.OscText? || m.Ignoring? || (m.DeviceString? && |m.prefix| == 2) }

  function Gathered(m: Mode, t: Text): (r: Mode)
    requires Gathers(m)
    ensures Gathers(r)
  {
    match m
    case OscText(code, text) => OscText(code, text + t)
    case DeviceString(prefix, request) => DeviceString(prefix, request + t)
    case _ => m
  }

  lemma {:induction false} ReadsBody(m: Mode, t: Text, rest: Text)
    requires Gathers(m) && IsBody(t)
    ensures Scan(m, t + rest, 0) == Scan(Gathered(m, t), rest, 0)
    decreases |t|
  {
    hide Scan, Gathered, Gathers;
    if t == [] {
      assert t + rest == rest;
      GatheredNothing(m);
    } else {
      var k := |t| - 1;
      ReadsBody(m, t[..k], [t[k]] + rest);
      assert t[..k] + ([t[k]] + rest) == t + rest && t[..k] + [t[k]] == t;
      ReadsOneMore(m, t[..k], t[k], rest);
    }
  }

  lemma GatheredNothing(m: Mode)
    requires Gathers(m)
    ensures Gathered(m, []) == m
  {
  }

  lemma ReadsOneMore(m: Mode, t: Text, u: CodeUnit, rest: Text)
    requires Gathers(m) && IsPlain(u) && u != ESC && u != BEL
    ensures Scan(Gathered(m, t), [u] + rest, 0) == Scan(Gathered(m, t + [u]), rest, 0)
  {
    hide Scan, React, Gathered, Gathers;
    GathersOne(Gathered(m, t), u);
    GatheredTwice(m, t, [u]);
    Unit(Gathered(m, t), u, rest);
    PrependNothing(Scan(Gathered(m, t + [u]), rest, 0));
  }

  lemma GathersOne(m: Mode, u: CodeUnit)
    requires Gathers(m) && u != ESC && u != BEL
    ensures React(m, [u], u) == Reaction(Gathered(m, [u]), [], 1)
  {
  }

  lemma GatheredTwice(m: Mode, a: Text, b: Text)
    requires Gathers(m)
    ensures Gathered(Gathered(m, a), b) == Gathered(m, a + b)
  {
    match m
    case OscText(_, text) => assert text + a + b == text + (a + b);
    case DeviceString(_, request) => assert request + a + b == request + (a + b);
    case _ =>
  }

  /** The commands at the end of a string. */
  lemma ReadsEnd(m: Mode, t: Text)
    requires Gathers(m) && IsEnd(t)
    ensures Scan(m, t, 0) == Scanned(Ground, [], React(m, t[..1], t[0]).cmds, false)
  {
    var r := React(m, t[..1], t[0]);
    ReadsNothing();
    assert Next(m, t) == r && t[r.advance..] == [] && r.cmds + [] == r.cmds;
  }

  /** ESC, an opening unit, a body and an end. */
  lemma ReadsString(open: CodeUnit, m: Mode, head: Text, body: Text, end: Text, cmds: seq<Cmd>)
    requires IsBody(body) && IsEnd(end) && Gathers(m) && Scan(Escape, [open] + (head + (body + end)), 0) == Scan(m, body + end, 0)
    requires React(Gathered(m, body), end[..1], end[0]).cmds == cmds
    ensures Reads([ESC, open] + head + body + end, cmds)
  {
    hide Scan, React;
    EscapeOpens([open] + (head + (body + end)));
    assert [ESC, open] + head + body + end == [ESC] + ([open] + (head + (body + end)));
    ReadsBody(m, body, end);
    ReadsEnd(Gathered(m, body), end);
  }

  // ---- Ignored strings ----------------------------------------------------------------------------

  /** APC and PM, ESC _ and ESC ^ with all they hold, have no effect. */
  lemma IgnoredText(e: Emu, open: CodeUnit, body: Text, end: Text)
    requires EmuInv(e) && (open == 95 || open == 94) && IsBody(body) && IsEnd(end)
    ensures Gives(e, [ESC, open] + [] + body + end, e)
  {
    assert [] + (body + end) == body + end && React(Escape, [open], open) == Reaction(Ignoring, [], 1);
    Unit(Escape, open, body + end);
    PrependNothing(Scan(Ignoring, body + end, 0));
    hide Scan;
    ReadsString(open, Ignoring, [], body, end, []);
    NothingGives(e, [ESC, open] + [] + body + end);
  }

  // ---- Titles -------------------------------------------------------------------------------------

  lemma {:induction false} ReadsCode(cur: nat, t: Text, rest: Text)
    requires forall i :: 0 <= i < |t| ==> IsDigit(t[i])
    ensures Scan(OscCode(cur), t + rest, 0) == Scan(OscCode(Accumulate(cur, t)), rest, 0)
    decreases |t|
  {
    hide Scan;
    if t == [] {
      assert t + rest == rest;
    } else {
      var k := |t| - 1;
      ReadsCode(cur, t[..k], [t[k]] + rest);
      assert t[..k] + ([t[k]] + rest) == t + rest;
      assert IsDigit(t[k]);
      Unit(OscCode(Accumulate(cur, t[..k])), t[k], rest);
      PrependNothing(Scan(OscCode(Accumulate(cur, t)), rest, 0));
    }
  }

  /** ESC ] code ; up to the title. */
  lemma ReadsTitleHead(code: nat, rest: Text)
    ensures Scan(Escape, [93] + (Decimal(code) + [59] + rest), 0) == Scan(OscText(code, []), rest, 0)
  {
    hide Scan;
    var digits := Decimal(code);
    assert digits + [59] + rest == digits + ([59] + rest);
    Unit(Escape, 93, digits + ([59] + rest));
    PrependNothing(Scan(OscCode(0), digits + ([59] + rest), 0));
    ReadsCode(0, digits, [59] + rest);
    DecimalReadsBack(code);
    Unit(OscCode(code), 59, rest);
    PrependNothing(Scan(OscText(code, []), rest, 0));
  }

  /** OSC 0, 1 and 2 set the title to what they hold, if they hold anything; other codes
      do nothing. */
  lemma TitleText(e: Emu, code: nat, title: Text, end: Text)
    requires EmuInv(e) && IsBody(title) && IsEnd(end)
    ensures var text := [ESC, 93] + (Decimal(code) + [59]) + title + end;
      Gives(e, text, if code <= 2 && title != [] then e.(title := title) else e)
  {
    hide *;
    var sets := code <= 2 && title != [];
    var text, cmds := [ESC, 93] + (Decimal(code) + [59]) + title + end, if sets then [SetTitle(title)] else [];
    ReadsTitle(code, title, end, cmds);
    if sets { SetsTitle(e, title); OneGives(e, text, SetTitle(title)); } else { NothingGives(e, text); }
  }

  lemma SetsTitle(e: Emu, title: Text)
    requires EmuInv(e)
    ensures WellFormed(SetTitle(title)) && Admissible(e, SetTitle(title)) && Exec(e, SetTitle(title)) == e.(title := title)
  {
  }

  lemma ReadsTitle(code: nat, title: Text, end: Text, cmds: seq<Cmd>)
    requires IsBody(title) && IsEnd(end) && cmds == if code <= 2 && title != [] then [SetTitle(title)] else []
    ensures Reads([ESC, 93] + (Decimal(code) + [59]) + title + end, cmds)
  {
    hide *;
    ReadsTitleHead(code, title + end);
    TitleEnds(code, title, end);
    ReadsString(93, OscText(code, []), Decimal(code) + [59], title, end, cmds);
  }

  lemma TitleEnds(code: nat, title: Text, end: Text)
    requires IsEnd(end)
    ensures Gathers(OscText(code, [])) && |end| >= 1
    ensures React(Gathered(OscText(code, []), title), end[..1], end[0]).cmds ==
      if code <= 2 && title != [] then [SetTitle(title)] else []
  {
    assert [] + title == title;
  }

  // ---- Device control strings ------------------------------------------------------------------------

  /** ESC P $ q and ESC P + q with their requests, however they end, are read as such. */
  lemma ReadsQuery(prefix: Text, request: Text, end: Text)
    requires (prefix == STATUS_PREFIX || prefix == TERMCAP_PREFIX) && IsBody(request) && IsEnd(end)
    ensures Reads([ESC, 80] + prefix + request + end, [StatusString(prefix, request)])
  {
    hide *;
    ReadsQueryHead(prefix, request + end);
    QueryEnds(prefix, request, end);
    ReadsString(80, DeviceString(prefix, []), prefix, request, end, [StatusString(prefix, request)]);
  }

  lemma QueryEnds(prefix: Text, request: Text, end: Text)
    requires (prefix == STATUS_PREFIX || prefix == TERMCAP_PREFIX) && IsEnd(end)
    ensures Gathers(DeviceString(prefix, [])) && |end| >= 1
    ensures React(Gathered(DeviceString(prefix, []), request), end[..1], end[0]).cmds == [StatusString(prefix, request)]
  {
    assert [] + request == request;
  }

  lemma ReadsQueryHead(prefix: Text, rest: Text)
    requires prefix == STATUS_PREFIX || prefix == TERMCAP_PREFIX
    ensures Scan(Escape, [80] + (prefix + rest), 0) == Scan(DeviceString(prefix, []), rest, 0)
  {
    var u := prefix[0];
    assert prefix + rest == [u] + ([113] + rest) && [u] + [113] == prefix && [] + [u] == [u];
    assert React(DeviceString([], []), [u], u) == Reaction(DeviceString([u], []), [], 1);
    assert React(DeviceString([u], []), [113], 113) == Reaction(DeviceString(prefix, []), [], 1);
    hide Scan;
    Unit(Escape, 80, prefix + rest);
    PrependNothing(Scan(DeviceString([], []), prefix + rest, 0));
    hide React;
    Unit(DeviceString([], []), u, [113] + rest);
    PrependNothing(Scan(DeviceString([u], []), [113] + rest, 0));
    Unit(DeviceString([u], []), 113, rest);
    PrependNothing(Scan(DeviceString(prefix, []), rest, 0));
  }
}
