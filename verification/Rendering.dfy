/** One row of the screen turned into markup. */
module Rendering {
  import opened Sequences
  import opened Buffer
  import opened Attributes
  import opened Numerals

  /** The attribute that stands for the cell under the cursor. */
  const CURSOR := -1

  datatype Token = Open(data: int) | Close | Chars(text: Text)

  type Markup = seq<Token>

  const AMP: CodeUnit := 38
  const LT: CodeUnit := 60
  const GT: CodeUnit := 62
  const NBSP: CodeUnit := 0xA0

  const AMP_ENTITY: Text := [38, 97, 109, 112, 59]            // &amp;
  const LT_ENTITY: Text := [38, 108, 116, 59]                 // &lt;
  const GT_ENTITY: Text := [38, 103, 116, 59]                 // &gt;
  const NBSP_ENTITY: Text := [38, 110, 98, 115, 112, 59]      // &nbsp;

  /** `ch <= ' '` on strings. */
  predicate Blankish(ch: Text) { ch == [] || ch[0] < SPACE || ch == [SPACE] }

  function Spell(ch: Text): Text {
    if ch == [AMP] then AMP_ENTITY
    else if ch == [LT] then LT_ENTITY
    else if ch == [GT] then GT_ENTITY
    else if Blankish(ch) then NBSP_ENTITY
    else ch
  }

  function DataAt(line: Line, x: int, i: nat): int
    requires i < |line|
  {
    if i == x then CURSOR else line[i].attr
  }

  function Closing(attr: int): Markup { if attr != DEF_ATTR then [Close] else [] }

  function Opening(data: int): Markup { if data != DEF_ATTR then [Open(data)] else [] }

  /** What closes the old run and opens the new one. */
  function Switch(attr: int, data: int): Markup {
    if data == attr then [] else Closing(attr) + Opening(data)
  }

  /** The markup of cells i and up, with a run of the given attribute under way. */
  function RenderFrom(line: Line, cols: nat, x: int, i: nat, attr: int): Markup
    requires cols <= |line| && i <= cols
    decreases cols - i
  {
    if i == cols then Closing(attr)
    else if line[i].width == 0 then RenderFrom(line, cols, x, i + 1, attr)
    else
      var data := DataAt(line, x, i);
      Switch(attr, data) + [Chars(Spell(line[i].ch))] + RenderFrom(line, cols, x, i + 1, data)
  }

  /** A row with the cursor in column x, or nowhere for x == -1. */
  function Render(line: Line, cols: nat, x: int): Markup
    requires cols <= |line|
  {
    RenderFrom(line, cols, x, 0, DEF_ATTR)
  }

  /** The loop of `refresh` over the cells of one row. */
  method RenderRow(line: Line, cols: nat, x: int) returns (out: Markup)
    requires cols <= |line|
    ensures out == Render(line, cols, x)
  {
    out := [];
    var attr: int := DEF_ATTR;
    for i := 0 to cols
      invariant out + RenderFrom(line, cols, x, i, attr) == Render(line, cols, x)
    {
      if line[i].width != 0 {
        var data := if i == x then CURSOR else line[i].attr;
        var spelling := Spell(line[i].ch);
        RenderedCell(out, line, cols, x, i, attr, data);
        if data != attr {
          if attr != DEF_ATTR { out := out + [Close]; }
          if data != DEF_ATTR { out := out + [Open(data)]; }
        }
        out := out + [Chars(spelling)];
        attr := data;
      }
    }
    if attr != DEF_ATTR { out := out + [Close]; }
  }

  /** What one visible cell appends, in the order the loop appends it. */
  lemma RenderedCell(out: Markup, line: Line, cols: nat, x: int, i: nat, attr: int, data: int)
    requires cols <= |line| && i < cols && line[i].width != 0 && data == DataAt(line, x, i)
    ensures var closed := if data != attr && attr != DEF_ATTR then out + [Close] else out;
      var start := if data != attr && data != DEF_ATTR then closed + [Open(data)] else closed;
      start + [Chars(Spell(line[i].ch))] + RenderFrom(line, cols, x, i + 1, data) == out + RenderFrom(line, cols, x, i, attr)
  {
    hide Spell;
    var chars, tail := [Chars(Spell(line[i].ch))], RenderFrom(line, cols, x, i + 1, data);
    assert RenderFrom(line, cols, x, i, attr) == Switch(attr, data) + chars + tail;
    hide RenderFrom;
    assert out + Switch(attr, data) + chars + tail == out + (Switch(attr, data) + chars + tail);
  }

  // ---- What markup means --------------------------------------------------------

  /** Reads markup back into styled characters. Spans must alternate properly: none is
      start inside another, none is start for the default style, none stays open. */
  function Decode(ts: Markup, cur: int): Option<seq<(int, Text)>> {
    if ts == [] then (if cur == DEF_ATTR then Some([]) else None)
    else
      match ts[0]
      case Open(data) => if cur == DEF_ATTR && data != DEF_ATTR then Decode(ts[1..], data) else None
      case Close => if cur != DEF_ATTR then Decode(ts[1..], DEF_ATTR) else None
      case Chars(text) =>
        match Decode(ts[1..], cur)
        case Some(rest) => Some([(cur, text)] + rest)
        case None => None
  }

  /** The cells that take up a column, each with its style and its spelling. */
  function Visible(line: Line, cols: nat, x: int, i: nat): seq<(int, Text)>
    requires cols <= |line| && i <= cols
    decreases cols - i
  {
    if i == cols then []
    else if line[i].width == 0 then Visible(line, cols, x, i + 1)
    else [(DataAt(line, x, i), Spell(line[i].ch))] + Visible(line, cols, x, i + 1)
  }

  lemma ClosingDecodes(attr: int, rest: Markup)
    ensures Decode(Closing(attr) + rest, attr) == Decode(rest, DEF_ATTR)
  {
    if attr != DEF_ATTR { assert ([Close] + rest)[1..] == rest; } else { assert [] + rest == rest; }
  }

  lemma OpeningDecodes(data: int, rest: Markup)
    ensures Decode(Opening(data) + rest, DEF_ATTR) == Decode(rest, data)
  {
    if data != DEF_ATTR { assert ([Open(data)] + rest)[1..] == rest; } else { assert [] + rest == rest; }
  }

  lemma SwitchDecodes(attr: int, data: int, rest: Markup)
    ensures Decode(Switch(attr, data) + rest, attr) == Decode(rest, data)
  {
    hide Decode, Closing, Opening;
    if data == attr {
      assert [] + rest == rest;
    } else {
      ClosingDecodes(attr, Opening(data) + rest);
      OpeningDecodes(data, rest);
      assert Closing(attr) + Opening(data) + rest == Closing(attr) + (Opening(data) + rest);
    }
  }

  /** Rendering loses nothing and invents nothing: read back, the markup is properly
      nested and shows exactly the visible cells, each in its own style. */
  lemma {:induction false} RenderDecodes(line: Line, cols: nat, x: int, i: nat, attr: int)
    requires cols <= |line| && i <= cols
    ensures Decode(RenderFrom(line, cols, x, i, attr), attr) == Some(Visible(line, cols, x, i))
    decreases cols - i
  {
    if i < cols {
      if line[i].width == 0 {
        RenderDecodes(line, cols, x, i + 1, attr);
      } else {
        var data := DataAt(line, x, i);
        var tail := RenderFrom(line, cols, x, i + 1, data);
        var chars := [Chars(Spell(line[i].ch))];
        RenderDecodes(line, cols, x, i + 1, data);
        assert RenderFrom(line, cols, x, i, attr) == Switch(attr, data) + (chars + tail);
        SwitchDecodes(attr, data, chars + tail);
        assert (chars + tail)[1..] == tail;
      }
    } else if attr != DEF_ATTR {
      var end := [Close];
      assert end[1..] == [];
    }
  }

  // ---- Markup as text -------------------------------------------------------------

  function Ascii(s: string): Text { seq(|s|, i requires 0 <= i < |s| => (s[i] as int) % 0x80) }

  /** The colours of a cell's span, None standing for the default one: bold brightens
      the first eight, inverse swaps, and the swapped defaults are pinned. */
  function Colors(p: Pen): (c: (Option<nat>, Option<nat>))
    requires ValidPen(p)
    ensures c.0.Some? ==> c.0.value < 256
    ensures c.1.Some? ==> c.1.value < 256
  {
    var fg0 := if p.bold && p.fg < 8 then p.fg + 8 else p.fg;
    var bg1 := if p.inverse then fg0 else p.bg;
    var fg1 := if p.inverse then (if p.bold && p.bg < 8 then p.bg + 8 else p.bg) else fg0;
    var bg := if p.inverse && bg1 == 257 then 15 else bg1;
    var fg := if p.inverse && fg1 == 256 then 0 else fg1;
    (if bg < 256 then Some(bg) else None, if fg < 256 then Some(fg) else None)
  }

  /** Inverting swaps the two default colours for black on white. */
  lemma InverseOfDefault()
    ensures Colors(DEFAULT_PEN) == (None, None)
    ensures Colors(DEFAULT_PEN.(inverse := true)) == (Some(15), Some(0))
  {
  }

  function ClassList(p: Pen): seq<Text>
    requires ValidPen(p)
  {
    var c := Colors(p);
    (if p.bold then [Ascii("xterm-bold")] else []) +
    (if p.underline then [Ascii("xterm-underline")] else []) +
    (if p.blink then [Ascii("xterm-blink")] else []) +
    (if p.invisible then [Ascii("xterm-hidden")] else []) +
    (if c.0.Some? then [Ascii("xterm-bg-color-") + Decimal(c.0.value)] else []) +
    (if c.1.Some? then [Ascii("xterm-color-") + Decimal(c.1.value)] else [])
  }

  function Spaced(words: seq<Text>): Text {
    if words == [] then [] else if |words| == 1 then words[0] else words[0] + [SPACE] + Spaced(words[1..])
  }

  /** Between the '<' and the '>' of an opening tag. */
  function TagBody(data: int, blink: bool): Text {
    if data < 0 then
      Ascii("span") + Ascii(" class=\"") + Ascii("reverse-video ") + Ascii("terminal-cursor")
        + (if blink then Ascii(" blinking") else []) + Ascii("\"")
    else
      var classes := ClassList(Unpack(data));
      Ascii("span") + (if classes != [] then Ascii(" class=\"") + Spaced(classes) + Ascii("\"") else [])
  }

  function HtmlOf(t: Token, blink: bool): Text {
    match t
    case Open(data) => [LT] + TagBody(data, blink) + [GT]
    case Close => [LT] + Ascii("/span") + [GT]
    case Chars(text) => text
  }

  /** The string a row's element receives. */
  function Html(ts: Markup, blink: bool): Text {
    if ts == [] then [] else HtmlOf(ts[0], blink) + Html(ts[1..], blink)
  }

  ghost predicate NoTagEnd(t: Text) { forall i :: 0 <= i < |t| ==> t[i] != GT }

  lemma FlagNames()
    ensures NoTagEnd(Ascii("xterm-bold")) && NoTagEnd(Ascii("xterm-underline"))
  {
  }

  lemma MoreFlagNames()
    ensures NoTagEnd(Ascii("xterm-blink")) && NoTagEnd(Ascii("xterm-hidden"))
  {
  }

  lemma ColorNames()
    ensures NoTagEnd(Ascii("xterm-bg-color-")) && NoTagEnd(Ascii("xterm-color-"))
  {
  }

  lemma NumeralHasNoTagEnd(n: nat)
    ensures NoTagEnd(Decimal(n))
  {
    forall i | 0 <= i < |Decimal(n)| ensures Decimal(n)[i] != GT { assert IsDigit(Decimal(n)[i]); }
  }

  lemma ClassListHasNoTagEnd(p: Pen)
    requires ValidPen(p)
    ensures forall i {:trigger ClassList(p)[i]} :: 0 <= i < |ClassList(p)| ==> NoTagEnd(ClassList(p)[i])
  {
    hide Ascii, Decimal, Colors;
    var c := Colors(p);
    FlagNames();
    MoreFlagNames();
    ColorNames();
    if c.0.Some? { NumeralHasNoTagEnd(c.0.value); }
    if c.1.Some? { NumeralHasNoTagEnd(c.1.value); }
  }

  lemma {:induction false} SpacedHasNoTagEnd(words: seq<Text>)
    requires forall i {:trigger words[i]} :: 0 <= i < |words| ==> NoTagEnd(words[i])
    ensures NoTagEnd(Spaced(words))
  {
    if |words| > 1 { SpacedHasNoTagEnd(words[1..]); }
  }

  lemma TagWords()
    ensures NoTagEnd(Ascii("span")) && NoTagEnd(Ascii(" class=\"")) && NoTagEnd(Ascii("\"")) && NoTagEnd(Ascii("/span"))
  {
  }

  lemma CursorWords()
    ensures NoTagEnd(Ascii("reverse-video ")) && NoTagEnd(Ascii("terminal-cursor")) && NoTagEnd(Ascii(" blinking"))
  {
  }

  lemma TagBodyHasNoTagEnd(data: int, blink: bool)
    ensures NoTagEnd(TagBody(data, blink)) && NoTagEnd(Ascii("/span"))
  {
    hide Ascii, Spaced, ClassList;
    TagWords();
    CursorWords();
    if data >= 0 {
      ClassListHasNoTagEnd(Unpack(data));
      SpacedHasNoTagEnd(ClassList(Unpack(data)));
    }
  }

  /** What is left of h behind its first '>'. */
  function SkipTag(h: Text): (r: Text)
    ensures |r| <= |h|
  {
    if h == [] then [] else if h[0] == GT then h[1..] else SkipTag(h[1..])
  }

  /** Tags dropped, entities resolved: the text a browser shows. */
  function TextContent(h: Text): Text
    decreases |h|
  {
    if h == [] then []
    else if h[0] == LT then TextContent(SkipTag(h[1..]))
    else if AMP_ENTITY <= h then [AMP] + TextContent(h[5..])
    else if LT_ENTITY <= h then [LT] + TextContent(h[4..])
    else if GT_ENTITY <= h then [GT] + TextContent(h[4..])
    else if NBSP_ENTITY <= h then [NBSP] + TextContent(h[6..])
    else [h[0]] + TextContent(h[1..])
  }

  lemma {:induction false} SkipsWholeTag(body: Text, rest: Text)
    requires NoTagEnd(body)
    ensures SkipTag(body + [GT] + rest) == rest
  {
    var h := body + [GT] + rest;
    if body == [] {
      assert h == [GT] + rest;
    } else {
      assert h[1..] == body[1..] + [GT] + rest;
      assert h[0] == body[0];
      SkipsWholeTag(body[1..], rest);
    }
  }

  /** A cell whose text cannot be mistaken for markup: a single unit, or a cluster
      without '<' and '&'. */
  ghost predicate Harmless(ch: Text) {
    |ch| == 1 || forall i :: 0 <= i < |ch| ==> ch[i] != LT && ch[i] != AMP
  }

  /** What a cell shows. */
  function Shown(ch: Text): Text { if Blankish(ch) then [NBSP] else ch }

  lemma {:induction false} CopiesThrough(ch: Text, rest: Text)
    requires forall i :: 0 <= i < |ch| ==> ch[i] != LT && ch[i] != AMP
    ensures TextContent(ch + rest) == ch + TextContent(rest)
  {
    hide TextContent;
    if ch == [] {
      assert [] + rest == rest;
      assert [] + TextContent(rest) == TextContent(rest);
    } else {
      assert ch + rest == [ch[0]] + (ch[1..] + rest);
      PlainUnit(ch[0], ch[1..] + rest);
      CopiesThrough(ch[1..], rest);
      assert [ch[0]] + (ch[1..] + TextContent(rest)) == ch + TextContent(rest);
    }
  }

  lemma PlainUnit(u: CodeUnit, rest: Text)
    requires u != LT && u != AMP
    ensures TextContent([u] + rest) == [u] + TextContent(rest)
  {
    var h := [u] + rest;
    assert h[1..] == rest && h[0] == u;
  }

  lemma EntityResolves(entity: Text, rest: Text)
    requires entity == AMP_ENTITY || entity == LT_ENTITY || entity == GT_ENTITY || entity == NBSP_ENTITY
    ensures TextContent(entity + rest) ==
      [if entity == AMP_ENTITY then AMP else if entity == LT_ENTITY then LT else if entity == GT_ENTITY then GT else NBSP]
      + TextContent(rest)
  {
    var h := entity + rest;
    assert entity <= h && h[|entity|..] == rest && h[0] == AMP && h[1] == entity[1];
  }

  lemma SpellingIsShown(ch: Text, rest: Text)
    requires Harmless(ch)
    ensures TextContent(Spell(ch) + rest) == Shown(ch) + TextContent(rest)
  {
    if ch == [AMP] { EntityResolves(AMP_ENTITY, rest); }
    else if ch == [LT] { EntityResolves(LT_ENTITY, rest); }
    else if ch == [GT] { EntityResolves(GT_ENTITY, rest); }
    else if Blankish(ch) { EntityResolves(NBSP_ENTITY, rest); }
    else { CopiesThrough(ch, rest); }
  }

  lemma TagIsInvisible(t: Token, blink: bool, rest: Text)
    requires !t.Chars?
    ensures TextContent(HtmlOf(t, blink) + rest) == TextContent(rest)
  {
    var body := if t.Open? then TagBody(t.data, blink) else Ascii("/span");
    TagBodyHasNoTagEnd(if t.Open? then t.data else 0, blink);
    hide TagBody, Ascii;
    SkipsWholeTag(body, rest);
    var h := HtmlOf(t, blink) + rest;
    assert h == [LT] + (body + [GT] + rest);
    assert h[1..] == body + [GT] + rest;
  }

  /** The text of the cells that take up a column. */
  function RowText(line: Line, cols: nat, i: nat): Text
    requires cols <= |line| && i <= cols
    decreases cols - i
  {
    if i == cols then []
    else if line[i].width == 0 then RowText(line, cols, i + 1)
    else Shown(line[i].ch) + RowText(line, cols, i + 1)
  }

  lemma HtmlCons(t: Token, rest: Markup, blink: bool)
    ensures Html([t] + rest, blink) == HtmlOf(t, blink) + Html(rest, blink)
  {
    hide HtmlOf;
    assert ([t] + rest)[1..] == rest;
  }

  lemma TagsAreInvisible(ts: Markup, blink: bool, rest: Markup)
    requires ts == [] || (|ts| == 1 && !ts[0].Chars?)
    ensures TextContent(Html(ts + rest, blink)) == TextContent(Html(rest, blink))
  {
    hide HtmlOf, TextContent, Html;
    if ts == [] {
      assert [] + rest == rest;
    } else {
      assert ts == [ts[0]];
      HtmlCons(ts[0], rest, blink);
      TagIsInvisible(ts[0], blink, Html(rest, blink));
    }
  }

  lemma SwitchIsInvisible(attr: int, data: int, blink: bool, rest: Markup)
    ensures TextContent(Html(Switch(attr, data) + rest, blink)) == TextContent(Html(rest, blink))
  {
    hide HtmlOf, TextContent, Html;
    if data == attr {
      assert [] + rest == rest;
    } else {
      TagsAreInvisible(Closing(attr), blink, Opening(data) + rest);
      TagsAreInvisible(Opening(data), blink, rest);
      assert Closing(attr) + Opening(data) + rest == Closing(attr) + (Opening(data) + rest);
    }
  }

  /** Stripped of its tags, a rendered row is the row's text. */
  lemma {:induction false} RowTextSurvives(line: Line, cols: nat, x: int, blink: bool, i: nat, attr: int)
    requires cols <= |line| && i <= cols
    requires forall k :: 0 <= k < cols && line[k].width != 0 ==> Harmless(line[k].ch)
    ensures TextContent(Html(RenderFrom(line, cols, x, i, attr), blink)) == RowText(line, cols, i)
    decreases cols - i
  {
    hide HtmlOf, TextContent, Harmless, Spell, Shown, Switch, Html;
    if i == cols {
      SwitchEnd(attr, blink);
    } else if line[i].width == 0 {
      RowTextSurvives(line, cols, x, blink, i + 1, attr);
    } else {
      var data := DataAt(line, x, i);
      var tail := RenderFrom(line, cols, x, i + 1, data);
      var spelt := Spell(line[i].ch);
      var chars := [Chars(spelt)];
      RowTextSurvives(line, cols, x, blink, i + 1, data);
      assert RenderFrom(line, cols, x, i, attr) == Switch(attr, data) + (chars + tail);
      SwitchIsInvisible(attr, data, blink, chars + tail);
      HtmlCons(Chars(spelt), tail, blink);
      CharsHtml(spelt, blink);
      SpellingIsShown(line[i].ch, Html(tail, blink));
    }
  }

  lemma CharsHtml(text: Text, blink: bool)
    ensures HtmlOf(Chars(text), blink) == text
  {
  }

  lemma SwitchEnd(attr: int, blink: bool)
    ensures TextContent(Html(Closing(attr), blink)) == []
  {
    TagsAreInvisible(Closing(attr), blink, []);
    assert Closing(attr) + [] == Closing(attr);
  }

  /** Rendering is faithful: properly nested spans that show exactly the visible cells
      in their styles, and, tags stripped, exactly the text of the row. */
  lemma RenderIsFaithful(line: Line, cols: nat, x: int, blink: bool)
    requires cols <= |line|
    ensures Decode(Render(line, cols, x), DEF_ATTR) == Some(Visible(line, cols, x, 0))
    ensures (forall k :: 0 <= k < cols && line[k].width != 0 ==> Harmless(line[k].ch)) ==>
      TextContent(Html(Render(line, cols, x), blink)) == RowText(line, cols, 0)
  {
    RenderDecodes(line, cols, x, 0, DEF_ATTR);
    if forall k :: 0 <= k < cols && line[k].width != 0 ==> Harmless(line[k].ch) {
      RowTextSurvives(line, cols, x, blink, 0, DEF_ATTR);
    }
  }
}
