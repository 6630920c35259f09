/** Which classes a cell's span carries: one for each flag, and its two colours. */
module Styles {
  import opened Sequences
  import opened Numerals
  import opened Attributes
  import opened Rendering

  /** A colour of the palette, the first eight brightened by bold type; the two default
      colours are none. */
  function Shade(p: Pen, c: int): Option<nat>
    requires 0 <= c
  {
    if c >= 256 then None else if p.bold && c < 8 then Some(c + 8) else Some(c)
  }

  /** Without inverse video the foreground is brightened by bold, the background never. */
  lemma UprightColors(p: Pen)
    requires ValidPen(p) && !p.inverse
    ensures Colors(p) == (if p.bg < 256 then Some(p.bg) else None, Shade(p, p.fg))
  {
  }

  /** With it they change places, both brightened, and a default in the wrong place
      becomes white or black. */
  lemma InverseColors(p: Pen)
    requires ValidPen(p) && p.inverse
    ensures Colors(p) == (if p.fg == 257 then Some(15) else Shade(p, p.fg), if p.bg == 256 then Some(0) else Shade(p, p.bg))
  {
  }

  /** Inverse is an exchange of the two colours, but for those defaults and the brightened
      background. */
  lemma InverseExchanges(p: Pen)
    requires ValidPen(p) && !p.inverse && p.fg != 257 && p.bg != 256 && !(p.bold && p.fg < 8)
    ensures Colors(p.(inverse := true)) == Colors(p.(fg := p.bg, bg := p.fg))
  {
  }

  // ---- Class names ------------------------------------------------------------------------------------

  /** What tells the six kinds of names apart: two letters behind "xterm-". */
  ghost predicate Begins(t: Text, u: CodeUnit, v: CodeUnit) { |t| >= 8 && t[6] == u && t[7] == v }

  lemma FlagNamesDiffer()
    ensures Begins(Ascii("xterm-bold"), 98, 111) && Begins(Ascii("xterm-underline"), 117, 110)
    ensures Begins(Ascii("xterm-blink"), 98, 108) && Begins(Ascii("xterm-hidden"), 104, 105)
  {
  }

  lemma ColorNamesDiffer(k: nat)
    ensures Begins(Ascii("xterm-bg-color-") + Decimal(k), 98, 103) && Begins(Ascii("xterm-color-") + Decimal(k), 99, 111)
  {
    hide Decimal;
    var bg, fg := Ascii("xterm-bg-color-"), Ascii("xterm-color-");
    assert Begins(bg, 98, 103) && Begins(fg, 99, 111);
  }

  /** The six lists a class list is made of. */
  lemma ClassesAre(p: Pen, w: Text)
    requires ValidPen(p)
    ensures w in ClassList(p) <==>
      || (p.bold && w == Ascii("xterm-bold")) || (p.underline && w == Ascii("xterm-underline"))
      || (p.blink && w == Ascii("xterm-blink")) || (p.invisible && w == Ascii("xterm-hidden"))
      || (Colors(p).0.Some? && w == Ascii("xterm-bg-color-") + Decimal(Colors(p).0.value))
      || (Colors(p).1.Some? && w == Ascii("xterm-color-") + Decimal(Colors(p).1.value))
  {
    hide Ascii, Decimal, Colors;
  }

  /** A span carries the class of a flag if and only if the flag is on. */
  lemma FlagClasses(p: Pen)
    requires ValidPen(p)
    ensures Ascii("xterm-bold") in ClassList(p) <==> p.bold
    ensures Ascii("xterm-underline") in ClassList(p) <==> p.underline
    ensures Ascii("xterm-blink") in ClassList(p) <==> p.blink
    ensures Ascii("xterm-hidden") in ClassList(p) <==> p.invisible
  {
    hide Ascii, Decimal, ClassList, Colors;
    FlagNamesDiffer();
    var c := Colors(p);
    if c.0.Some? { ColorNamesDiffer(c.0.value); }
    if c.1.Some? { ColorNamesDiffer(c.1.value); }
    ClassesAre(p, Ascii("xterm-bold"));
    ClassesAre(p, Ascii("xterm-underline"));
    ClassesAre(p, Ascii("xterm-blink"));
    ClassesAre(p, Ascii("xterm-hidden"));
  }

  /** And that of a colour if and only if it is the colour in that place. */
  lemma ColorClasses(p: Pen, k: nat)
    requires ValidPen(p)
    ensures Ascii("xterm-bg-color-") + Decimal(k) in ClassList(p) <==> Colors(p).0 == Some(k)
    ensures Ascii("xterm-color-") + Decimal(k) in ClassList(p) <==> Colors(p).1 == Some(k)
  {
    hide Ascii, Decimal, ClassList, Colors;
    FlagNamesDiffer();
    ColorNamesDiffer(k);
    var c := Colors(p);
    if c.0.Some? { ColorNamesDiffer(c.0.value); SameNumeral(Ascii("xterm-bg-color-"), c.0.value, k); }
    if c.1.Some? { ColorNamesDiffer(c.1.value); SameNumeral(Ascii("xterm-color-"), c.1.value, k); }
    ClassesAre(p, Ascii("xterm-bg-color-") + Decimal(k));
    ClassesAre(p, Ascii("xterm-color-") + Decimal(k));
  }

  lemma SameNumeral(head: Text, m: nat, n: nat)
    ensures head + Decimal(m) == head + Decimal(n) <==> m == n
  {
    hide Decimal, Accumulate;
    DecimalReadsBack(m);
    DecimalReadsBack(n);
    if head + Decimal(m) == head + Decimal(n) {
      assert (head + Decimal(m))[|head|..] == Decimal(m) && (head + Decimal(n))[|head|..] == Decimal(n);
    }
  }

  // ---- Characters --------------------------------------------------------------------------------------

  /** A single unit as it is spelled: everything up to the blank as a no-break space,
      three units as entities, the rest as they are. */
  lemma SpelledUnits(u: CodeUnit)
    ensures u <= 32 ==> Spell([u]) == Ascii("&nbsp;")
    ensures Spell([38]) == Ascii("&amp;") && Spell([60]) == Ascii("&lt;") && Spell([62]) == Ascii("&gt;")
    ensures u > 32 && u != 38 && u != 60 && u != 62 ==> Spell([u]) == [u]
  {
  }
}
