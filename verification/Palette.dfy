/** The 256-colour palette and the memoised search for the nearest colour. */
module Palette {
  import opened Sequences

  datatype Rgb = Rgb(r: int, g: int, b: int)

  predicate IsByte(v: int) { 0 <= v < 256 }

  /** The sixteen Tango colours. */
  const TANGO: seq<Rgb> := [
    Rgb(0x2e, 0x34, 0x36), Rgb(0xcc, 0x00, 0x00), Rgb(0x4e, 0x9a, 0x06), Rgb(0xc4, 0xa0, 0x00),
    Rgb(0x34, 0x65, 0xa4), Rgb(0x75, 0x50, 0x7b), Rgb(0x06, 0x98, 0x9a), Rgb(0xd3, 0xd7, 0xcf),
    Rgb(0x55, 0x57, 0x53), Rgb(0xef, 0x29, 0x29), Rgb(0x8a, 0xe2, 0x34), Rgb(0xfc, 0xe9, 0x4f),
    Rgb(0x72, 0x9f, 0xcf), Rgb(0xad, 0x7f, 0xa8), Rgb(0x34, 0xe2, 0xe2), Rgb(0xee, 0xee, 0xec)
  ]

  function Level(i: nat): int
    requires i < 6
  {
    [0x00, 0x5f, 0x87, 0xaf, 0xd7, 0xff][i]
  }

  function CubeColor(i: nat): Rgb
    requires i < 216
  {
    Rgb(Level(i / 36 % 6), Level(i / 6 % 6), Level(i % 6))
  }

  /** Tango colours, then the 6x6x6 cube, then 24 greys. */
  function Vcolors(): (t: seq<Rgb>)
    ensures |t| == 256
  {
    TANGO + seq(216, i requires 0 <= i < 216 => CubeColor(i)) + seq(24, i => Rgb(8 + i * 10, 8 + i * 10, 8 + i * 10))
  }

  function Square(v: int): (s: int)
    ensures s >= 0 && (s == 0 <==> v == 0)
  {
    v * v
  }

  function Distance(c: Rgb, d: Rgb): (r: int)
    ensures r >= 0 && (r == 0 <==> c == d)
  {
    Square(30 * (c.r - d.r)) + Square(59 * (c.g - d.g)) + Square(11 * (c.b - d.b))
  }

  /** The cube and the greys by position: six levels, 0 and then from 95 in steps of 40,
      for red, green and blue in this order, and 24 greys from 8 in steps of 10. */
  lemma PaletteEntries(r: nat, g: nat, b: nat, k: nat)
    requires r < 6 && g < 6 && b < 6 && k < 24
    ensures Vcolors()[16 + 36 * r + 6 * g + b] ==
      Rgb(if r == 0 then 0 else 55 + 40 * r, if g == 0 then 0 else 55 + 40 * g, if b == 0 then 0 else 55 + 40 * b)
    ensures Vcolors()[232 + k] == Rgb(8 + 10 * k, 8 + 10 * k, 8 + 10 * k)
  {
    CubeEntry(r, g, b);
    assert Vcolors()[16 + (36 * r + 6 * g + b)] == CubeColor(36 * r + 6 * g + b) by { hide CubeColor; }
  }

  lemma CubeEntry(r: nat, g: nat, b: nat)
    requires r < 6 && g < 6 && b < 6
    ensures CubeColor(36 * r + 6 * g + b) ==
      Rgb(if r == 0 then 0 else 55 + 40 * r, if g == 0 then 0 else 55 + 40 * g, if b == 0 then 0 else 55 + 40 * b)
  {
    var i := 36 * r + 6 * g + b;
    assert i / 6 == 6 * r + g && i / 6 % 6 == g && i % 6 == b && i / 36 == r;
    LevelsAre();
    hide Level;
  }

  lemma LevelsAre()
    ensures forall i: nat {:trigger Level(i)} :: i < 6 ==> Level(i) == if i == 0 then 0 else 55 + 40 * i
  {
  }

  /** The three channels weigh 30, 59 and 11 of a hundred, whatever the colour and in
      either direction. */
  lemma ChannelWeights(c: Rgb, k: int)
    ensures Distance(c, c.(r := c.r + k)) == 900 * k * k
    ensures Distance(c, c.(g := c.g + k)) == 3481 * k * k
    ensures Distance(c, c.(b := c.b + k)) == 121 * k * k
  {
  }

  /** i is the leftmost entry at the least distance from c. */
  ghost predicate IsNearest(table: seq<Rgb>, c: Rgb, i: int) {
    && 0 <= i < |table|
    && (forall j :: 0 <= j < |table| ==> Distance(c, table[i]) <= Distance(c, table[j]))
    && (forall j :: 0 <= j < i ==> Distance(c, table[i]) < Distance(c, table[j]))
  }

  lemma NearestIsUnique(table: seq<Rgb>, c: Rgb, i: int, j: int)
    requires IsNearest(table, c, i) && IsNearest(table, c, j)
    ensures i == j
  {
    assert Distance(c, table[i]) <= Distance(c, table[j]) <= Distance(c, table[i]);
  }

  /** One more entry: it wins only by being strictly nearer. */
  lemma NearestStep(table: seq<Rgb>, c: Rgb, n: nat, best: int)
    requires n < |table| && (n > 0 ==> IsNearest(table[..n], c, best))
    ensures IsNearest(table[..n + 1], c, if n == 0 || Distance(c, table[n]) < Distance(c, table[best]) then n else best)
  {
    assert forall j :: 0 <= j < n ==> table[..n][j] == table[j] == table[..n + 1][j];
    if n > 0 {
      assert forall j :: 0 <= j < n ==> Distance(c, table[best]) <= Distance(c, table[j]);
      assert forall j :: 0 <= j < best ==> Distance(c, table[best]) < Distance(c, table[j]);
    }
  }

  /** Distance 0 cannot be beaten by anything further right. */
  lemma ExactMatchWins(table: seq<Rgb>, c: Rgb, n: nat, best: int)
    requires n < |table| && (n > 0 ==> IsNearest(table[..n], c, best) && Distance(c, table[best]) > 0)
    requires Distance(c, table[n]) == 0
    ensures IsNearest(table, c, n)
  {
    NearestStep(table, c, n, best);
    assert forall j :: 0 <= j < n ==> table[..n + 1][j] == table[j];
  }

  function NearestIn(table: seq<Rgb>, c: Rgb): (i: nat)
    requires |table| > 0
    ensures IsNearest(table, c, i)
  {
    var last := |table| - 1;
    if last == 0 then 0
    else
      var best := NearestIn(table[..last], c);
      if Distance(c, table[last]) < Distance(c, table[best]) then last else best
  }

  /** The palette index SGR 38;2 and 48;2 select. */
  function Nearest(c: Rgb): (i: nat)
    ensures i < 256
  {
    NearestIn(Vcolors(), c)
  }

  /** It is the leftmost of the nearest colours. */
  lemma NearestIsNearest(c: Rgb)
    ensures IsNearest(Vcolors(), c, Nearest(c))
  {
    hide Vcolors, IsNearest;
  }

  function Hash(c: Rgb): int { c.r * 0x1_0000 + c.g * 0x100 + c.b }

  /** Recovers a colour from its cache key. */
  function Unhash(h: int): Rgb { Rgb(h / 0x1_0000, h / 0x100 % 0x100, h % 0x100) }

  lemma UnhashRecovers(c: Rgb)
    requires IsByte(c.r) && IsByte(c.g) && IsByte(c.b)
    ensures Unhash(Hash(c)) == c
  {
    assert Hash(c) / 0x100 == c.r * 0x100 + c.g;
  }

  /** Two colours never share a cache key. */
  lemma HashIsInjective(c: Rgb, d: Rgb)
    requires IsByte(c.r) && IsByte(c.g) && IsByte(c.b) && IsByte(d.r) && IsByte(d.g) && IsByte(d.b)
    ensures Hash(c) == Hash(d) <==> c == d
  {
    hide Hash, Unhash;
    UnhashRecovers(c);
    UnhashRecovers(d);
  }

  class ColorMatcher {
    var cache: map<int, int>

    /** Whatever was asked before, a cached answer is the right one. */
    ghost predicate Valid()
      reads this
    {
      forall h {:trigger cache[h]} :: h in cache ==> cache[h] == Nearest(Unhash(h))
    }

    constructor ()
      ensures Valid()
    {
      cache := map[];
    }

    method MatchColor(c: Rgb) returns (li: int)
      requires Valid() && IsByte(c.r) && IsByte(c.g) && IsByte(c.b)
      modifies this
      ensures Valid()
      ensures li == Nearest(c)
    {
      hide Vcolors, Nearest, Distance, IsNearest, Hash, Unhash;
      var hash := Hash(c);
      UnhashRecovers(c);
      if hash in cache { return cache[hash]; }
      li := Search(Vcolors(), c);
      NearestIsNearest(c);
      NearestIsUnique(Vcolors(), c, li, Nearest(c));
      cache := cache[hash := li];
    }
  }

  /** The scan behind a cache miss; Infinity, its initial distance, is None here. */
  method Search(vcolors: seq<Rgb>, c: Rgb) returns (li: int)
    requires |vcolors| > 0
    ensures IsNearest(vcolors, c, li)
  {
    var ldiff: Option<int> := None;
    li := -1;
    for i := 0 to |vcolors|
      invariant i == 0 <==> ldiff == None
      invariant i > 0 ==>
        IsNearest(vcolors[..i], c, li) && ldiff == Some(Distance(c, vcolors[li])) && ldiff.value > 0
    {
      var diff := Distance(c, vcolors[i]);
      if diff == 0 {
        ExactMatchWins(vcolors, c, i, li);
        return i;
      }
      NearestStep(vcolors, c, i, li);
      if ldiff == None || diff < ldiff.value {
        ldiff := Some(diff);
        li := i;
      }
    }
    assert vcolors[..|vcolors|] == vcolors;
  }
}
