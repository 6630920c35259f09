/** How many columns a character takes: Markus Kuhn's wcwidth with its table of
    combining characters, kept in parts small enough to check by evaluation. */
module Widths {
  import opened Sequences

  const COMBINING_0: seq<(int, int)> := [
    (0x0300, 0x036F), (0x0483, 0x0486), (0x0488, 0x0489), (0x0591, 0x05BD),
    (0x05BF, 0x05BF), (0x05C1, 0x05C2), (0x05C4, 0x05C5), (0x05C7, 0x05C7),
    (0x0600, 0x0603), (0x0610, 0x0615), (0x064B, 0x065E), (0x0670, 0x0670),
    (0x06D6, 0x06E4), (0x06E7, 0x06E8), (0x06EA, 0x06ED), (0x070F, 0x070F)
  ]

  const COMBINING_1: seq<(int, int)> := [
    (0x0711, 0x0711), (0x0730, 0x074A), (0x07A6, 0x07B0), (0x07EB, 0x07F3),
    (0x0901, 0x0902), (0x093C, 0x093C), (0x0941, 0x0948), (0x094D, 0x094D),
    (0x0951, 0x0954), (0x0962, 0x0963), (0x0981, 0x0981), (0x09BC, 0x09BC),
    (0x09C1, 0x09C4), (0x09CD, 0x09CD), (0x09E2, 0x09E3), (0x0A01, 0x0A02)
  ]

  const COMBINING_2: seq<(int, int)> := [
    (0x0A3C, 0x0A3C), (0x0A41, 0x0A42), (0x0A47, 0x0A48), (0x0A4B, 0x0A4D),
    (0x0A70, 0x0A71), (0x0A81, 0x0A82), (0x0ABC, 0x0ABC), (0x0AC1, 0x0AC5),
    (0x0AC7, 0x0AC8), (0x0ACD, 0x0ACD), (0x0AE2, 0x0AE3), (0x0B01, 0x0B01),
    (0x0B3C, 0x0B3C), (0x0B3F, 0x0B3F), (0x0B41, 0x0B43), (0x0B4D, 0x0B4D)
  ]

  const COMBINING_3: seq<(int, int)> := [
    (0x0B56, 0x0B56), (0x0B82, 0x0B82), (0x0BC0, 0x0BC0), (0x0BCD, 0x0BCD),
    (0x0C3E, 0x0C40), (0x0C46, 0x0C48), (0x0C4A, 0x0C4D), (0x0C55, 0x0C56),
    (0x0CBC, 0x0CBC), (0x0CBF, 0x0CBF), (0x0CC6, 0x0CC6), (0x0CCC, 0x0CCD),
    (0x0CE2, 0x0CE3), (0x0D41, 0x0D43), (0x0D4D, 0x0D4D), (0x0DCA, 0x0DCA)
  ]

  const COMBINING_4: seq<(int, int)> := [
    (0x0DD2, 0x0DD4), (0x0DD6, 0x0DD6), (0x0E31, 0x0E31), (0x0E34, 0x0E3A),
    (0x0E47, 0x0E4E), (0x0EB1, 0x0EB1), (0x0EB4, 0x0EB9), (0x0EBB, 0x0EBC),
    (0x0EC8, 0x0ECD), (0x0F18, 0x0F19), (0x0F35, 0x0F35), (0x0F37, 0x0F37),
    (0x0F39, 0x0F39), (0x0F71, 0x0F7E), (0x0F80, 0x0F84), (0x0F86, 0x0F87)
  ]

  const COMBINING_5: seq<(int, int)> := [
    (0x0F90, 0x0F97), (0x0F99, 0x0FBC), (0x0FC6, 0x0FC6), (0x102D, 0x1030),
    (0x1032, 0x1032), (0x1036, 0x1037), (0x1039, 0x1039), (0x1058, 0x1059),
    (0x1160, 0x11FF), (0x135F, 0x135F), (0x1712, 0x1714), (0x1732, 0x1734),
    (0x1752, 0x1753), (0x1772, 0x1773), (0x17B4, 0x17B5), (0x17B7, 0x17BD)
  ]

  const COMBINING_6: seq<(int, int)> := [
    (0x17C6, 0x17C6), (0x17C9, 0x17D3), (0x17DD, 0x17DD), (0x180B, 0x180D),
    (0x18A9, 0x18A9), (0x1920, 0x1922), (0x1927, 0x1928), (0x1932, 0x1932),
    (0x1939, 0x193B), (0x1A17, 0x1A18), (0x1B00, 0x1B03), (0x1B34, 0x1B34),
    (0x1B36, 0x1B3A), (0x1B3C, 0x1B3C), (0x1B42, 0x1B42), (0x1B6B, 0x1B73)
  ]

  const COMBINING_7: seq<(int, int)> := [
    (0x1DC0, 0x1DCA), (0x1DFE, 0x1DFF), (0x200B, 0x200F), (0x202A, 0x202E),
    (0x2060, 0x2063), (0x206A, 0x206F), (0x20D0, 0x20EF), (0x302A, 0x302F),
    (0x3099, 0x309A), (0xA806, 0xA806), (0xA80B, 0xA80B), (0xA825, 0xA826),
    (0xFB1E, 0xFB1E), (0xFE00, 0xFE0F), (0xFE20, 0xFE23), (0xFEFF, 0xFEFF)
  ]

  const COMBINING_8: seq<(int, int)> := [
    (0xFFF9, 0xFFFB), (0x10A01, 0x10A03), (0x10A05, 0x10A06), (0x10A0C, 0x10A0F),
    (0x10A38, 0x10A3A), (0x10A3F, 0x10A3F), (0x1D167, 0x1D169), (0x1D173, 0x1D182),
    (0x1D185, 0x1D18B), (0x1D1AA, 0x1D1AD), (0x1D242, 0x1D244), (0xE0001, 0xE0001),
    (0xE0020, 0xE007F), (0xE0100, 0xE01EF)
  ]

  /** The combining ranges, both ends included. */
  const COMBINING: seq<(int, int)> :=
    COMBINING_0 + COMBINING_1 + COMBINING_2 +
    COMBINING_3 + COMBINING_4 + COMBINING_5 +
    COMBINING_6 + COMBINING_7 + COMBINING_8

  /** Every range is nonempty and ends before the next one starts. */
  ghost predicate Sorted(table: seq<(int, int)>) {
    && (forall i :: 0 <= i < |table| ==> table[i].0 <= table[i].1)
    && (forall i, j :: 0 <= i < j < |table| ==> table[i].1 < table[j].0)
  }

  predicate InTable(table: seq<(int, int)>, ucs: int) {
    exists i :: 0 <= i < |table| && table[i].0 <= ucs <= table[i].1
  }

  /** A table from first to last whose neighbours do not overlap. */
  ghost predicate Block(table: seq<(int, int)>, first: int, last: int) {
    && |table| > 0 && table[0].0 == first && table[|table| - 1].1 == last
    && (forall i {:trigger table[i]} :: 0 <= i < |table| ==>
          table[i].0 <= table[i].1 && (i + 1 < |table| ==> table[i].1 < table[i + 1].0))
  }

  lemma JoinBlocks(a: seq<(int, int)>, b: seq<(int, int)>, first: int, mid: int, next: int, last: int)
    requires Block(a, first, mid) && Block(b, next, last) && mid < next
    ensures Block(a + b, first, last)
  {
    var t := a + b;
    forall i | 0 <= i < |t|
      ensures t[i].0 <= t[i].1 && (i + 1 < |t| ==> t[i].1 < t[i + 1].0)
    {
      if i < |a| { assert t[i] == a[i]; } else { assert t[i] == b[i - |a|]; }
    }
  }

  lemma Part0()
    ensures Block(COMBINING_0, 0x0300, 0x070F)
  {
  }

  lemma Part1()
    ensures Block(COMBINING_1, 0x0711, 0x0A02)
  {
  }

  lemma Part2()
    ensures Block(COMBINING_2, 0x0A3C, 0x0B4D)
  {
  }

  lemma Part3()
    ensures Block(COMBINING_3, 0x0B56, 0x0DCA)
  {
  }

  lemma Part4()
    ensures Block(COMBINING_4, 0x0DD2, 0x0F87)
  {
  }

  lemma Part5()
    ensures Block(COMBINING_5, 0x0F90, 0x17BD)
  {
  }

  lemma Part6()
    ensures Block(COMBINING_6, 0x17C6, 0x1B73)
  {
  }

  lemma Part7()
    ensures Block(COMBINING_7, 0x1DC0, 0xFEFF)
  {
  }

  lemma Part8()
    ensures Block(COMBINING_8, 0xFFF9, 0xE01EF)
  {
  }

  lemma CombiningIsBlock()
    ensures Block(COMBINING, 0x0300, 0xE01EF)
  {
    Part0();
    Part1();
    Part2();
    Part3();
    Part4();
    Part5();
    Part6();
    Part7();
    Part8();
    var t := COMBINING_0;
    JoinBlocks(t, COMBINING_1, 0x0300, 0x070F, 0x0711, 0x0A02);
    t := t + COMBINING_1;
    JoinBlocks(t, COMBINING_2, 0x0300, 0x0A02, 0x0A3C, 0x0B4D);
    t := t + COMBINING_2;
    JoinBlocks(t, COMBINING_3, 0x0300, 0x0B4D, 0x0B56, 0x0DCA);
    t := t + COMBINING_3;
    JoinBlocks(t, COMBINING_4, 0x0300, 0x0DCA, 0x0DD2, 0x0F87);
    t := t + COMBINING_4;
    JoinBlocks(t, COMBINING_5, 0x0300, 0x0F87, 0x0F90, 0x17BD);
    t := t + COMBINING_5;
    JoinBlocks(t, COMBINING_6, 0x0300, 0x17BD, 0x17C6, 0x1B73);
    t := t + COMBINING_6;
    JoinBlocks(t, COMBINING_7, 0x0300, 0x1B73, 0x1DC0, 0xFEFF);
    t := t + COMBINING_7;
    JoinBlocks(t, COMBINING_8, 0x0300, 0xFEFF, 0xFFF9, 0xE01EF);
    t := t + COMBINING_8;
  }

  lemma {:induction false} BlockIsSorted(table: seq<(int, int)>, first: int, last: int, i: nat, j: nat)
    requires Block(table, first, last) && i < j < |table|
    ensures table[i].1 < table[j].0
    decreases j
  {
    if i + 1 < j { BlockIsSorted(table, first, last, i, j - 1); assert table[j - 1].1 < table[j].0; }
  }

  lemma CombiningIsSorted()
    ensures Sorted(COMBINING) && |COMBINING| > 0 && COMBINING[0].0 == 0x0300
  {
    CombiningIsBlock();
    forall i, j | 0 <= i < j < |COMBINING| ensures COMBINING[i].1 < COMBINING[j].0 {
      BlockIsSorted(COMBINING, 0x0300, 0xE01EF, i, j);
    }
  }

  /** The binary search agrees with linear membership on every sorted table. */
  method Bisearch(table: seq<(int, int)>, ucs: int) returns (found: bool)
    requires Sorted(table) && |table| > 0
    ensures found <==> InTable(table, ucs)
  {
    var lo, hi := 0, |table| - 1;
    if ucs < table[0].0 || ucs > table[hi].1 { return false; }
    while hi >= lo
      invariant 0 <= lo <= hi + 1 <= |table|
      invariant forall i :: 0 <= i < lo ==> table[i].1 < ucs
      invariant forall i :: hi < i < |table| ==> ucs < table[i].0
      decreases hi - lo
    {
      var mid := (lo + hi) / 2;
      if ucs > table[mid].1 {
        lo := mid + 1;
      } else if ucs < table[mid].0 {
        hi := mid - 1;
      } else {
        return true;
      }
    }
    return false;
  }

  predicate IsWide(ucs: int) {
    ucs >= 0x1100 &&
    ( ucs <= 0x115f ||                                   // Hangul Jamo initial consonants
      ucs == 0x2329 ||
      ucs == 0x232a ||
      (0x2e80 <= ucs <= 0xa4cf && ucs != 0x303f) ||      // CJK .. Yi
      0xac00 <= ucs <= 0xd7a3 ||                         // Hangul syllables
      0xf900 <= ucs <= 0xfaff ||                         // CJK compatibility ideographs
      0xfe10 <= ucs <= 0xfe19 ||                         // vertical forms
      0xfe30 <= ucs <= 0xfe6f ||                         // CJK compatibility forms
      0xff00 <= ucs <= 0xff60 ||                         // fullwidth forms
      0xffe0 <= ucs <= 0xffe6 ||
      0x20000 <= ucs <= 0x2fffd ||
      0x30000 <= ucs <= 0x3fffd)
  }

  /** Control characters and NUL take no column, and neither do combining marks. */
  function Width(ucs: int): (w: nat)
    ensures w <= 2
  {
    if ucs < 32 || 0x7f <= ucs < 0xa0 then 0
    else if InTable(COMBINING, ucs) then 0
    else if IsWide(ucs) then 2
    else 1
  }

  method Wcwidth(ucs: int) returns (w: nat)
    ensures w == Width(ucs)
  {
    if ucs == 0 { return 0; }
    if ucs < 32 || (ucs >= 0x7f && ucs < 0xa0) { return 0; }
    CombiningIsSorted();
    var combining := Bisearch(COMBINING, ucs);
    if combining { return 0; }
    return 1 + if IsWide(ucs) then 1 else 0;
  }

  /** Printable ASCII is one column wide. */
  lemma AsciiIsNarrow(ucs: int)
    requires 0x20 <= ucs < 0x7f
    ensures Width(ucs) == 1
  {
    CombiningIsSorted();
    forall i | 0 <= i < |COMBINING| ensures ucs < COMBINING[i].0 {
      if i > 0 { assert COMBINING[0].1 < COMBINING[i].0; }
    }
  }
}
