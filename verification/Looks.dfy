/** What a row looks like: its visible cells with their styles and spellings. Two rows
    are rendered alike exactly when they look alike. */
module Looks {
  import opened Sequences
  import opened Buffer
  import opened Rendering

  type Look = (int, Text)

  function LookOf(c: Cell): Look { (c.attr as int, Spell(c.ch)) }

  /** The cells that take up a column. */
  function LooksOf(cells: seq<Cell>): (r: seq<Look>)
    ensures |r| <= |cells|
  {
    if cells == [] then []
    else (if cells[0].width == 0 then [] else [LookOf(cells[0])]) + LooksOf(cells[1..])
  }

  /** No cell hides behind another one. */
  ghost predicate AllVisible(cells: seq<Cell>) { forall i {:trigger cells[i]} :: 0 <= i < |cells| ==> cells[i].width != 0 }

  lemma {:induction false} LooksAdd(a: seq<Cell>, b: seq<Cell>)
    ensures LooksOf(a + b) == LooksOf(a) + LooksOf(b)
  {
    if a == [] {
      assert a + b == b;
    } else {
      assert (a + b)[1..] == a[1..] + b;
      LooksAdd(a[1..], b);
    }
  }

  /** A sequence shows as many looks as it has cells only when all of them are visible,
      and then in their order. */
  lemma {:induction false} VisibleLooks(cells: seq<Cell>)
    ensures |LooksOf(cells)| == |cells| <==> AllVisible(cells)
    ensures AllVisible(cells) ==> forall i {:trigger cells[i]} :: 0 <= i < |cells| ==> LooksOf(cells)[i] == LookOf(cells[i])
  {
    if cells != [] {
      VisibleLooks(cells[1..]);
      assert AllVisible(cells) ==> AllVisible(cells[1..]);
      if AllVisible(cells[1..]) && cells[0].width != 0 {
        forall i | 0 <= i < |cells| ensures cells[i].width != 0 && LooksOf(cells)[i] == LookOf(cells[i]) {
          if i > 0 { assert cells[i] == cells[1..][i - 1]; }
        }
      }
    }
  }

  // ---- Looking alike is being rendered alike ------------------------------------------------

  lemma {:induction false} VisibleIsLooks(line: Line, cols: nat, i: nat)
    requires cols <= |line| && i <= cols
    ensures Visible(line, cols, -1, i) == LooksOf(line[i..cols])
    decreases cols - i
  {
    if i < cols {
      VisibleIsLooks(line, cols, i + 1);
      assert line[i..cols][0] == line[i] && line[i..cols][1..] == line[i + 1..cols];
    }
  }

  /** What is visible decides the markup. */
  lemma {:induction false} VisibleDecides(a: Line, b: Line, cols: nat, i: nat, j: nat, attr: int)
    requires cols <= |a| && cols <= |b| && i <= cols && j <= cols
    requires Visible(a, cols, -1, i) == Visible(b, cols, -1, j)
    ensures RenderFrom(a, cols, -1, i, attr) == RenderFrom(b, cols, -1, j, attr)
    decreases (cols - i) + (cols - j)
  {
    if i < cols && a[i].width == 0 {
      VisibleDecides(a, b, cols, i + 1, j, attr);
    } else if j < cols && b[j].width == 0 {
      VisibleDecides(a, b, cols, i, j + 1, attr);
    } else if i < cols {
      var v, w := Visible(a, cols, -1, i), Visible(b, cols, -1, j);
      assert v[1..] == Visible(a, cols, -1, i + 1);
      assert j < cols;
      assert w[1..] == Visible(b, cols, -1, j + 1);
      assert v[0] == w[0];
      VisibleDecides(a, b, cols, i + 1, j + 1, v[0].0);
    }
  }

  lemma RenderedAlike(a: Line, b: Line, cols: nat)
    requires cols <= |a| && cols <= |b|
    ensures Render(a, cols, -1) == Render(b, cols, -1) <==> LooksOf(a[..cols]) == LooksOf(b[..cols])
  {
    VisibleIsLooks(a, cols, 0);
    VisibleIsLooks(b, cols, 0);
    assert a[0..cols] == a[..cols] && b[0..cols] == b[..cols];
    RenderDecodes(a, cols, -1, 0, DEF_ATTR);
    RenderDecodes(b, cols, -1, 0, DEF_ATTR);
    if LooksOf(a[..cols]) == LooksOf(b[..cols]) { VisibleDecides(a, b, cols, 0, 0, DEF_ATTR); }
  }

  // ---- Cells replaced and cells moved ----------------------------------------------------------

  /** One cell can stand for another. */
  predicate SameLook(c: Cell, d: Cell) {
    (c.width == 0 <==> d.width == 0) && (c.width != 0 ==> LookOf(c) == LookOf(d))
  }

  ghost predicate AllLike(cells: seq<Cell>, c: Cell) { forall i {:trigger cells[i]} :: 0 <= i < |cells| ==> SameLook(cells[i], c) }

  /** Every visible one of the cells can. */
  ghost predicate VisibleLike(cells: seq<Cell>, c: Cell) {
    forall i {:trigger cells[i]} :: 0 <= i < |cells| && cells[i].width != 0 ==> LookOf(cells[i]) == LookOf(c)
  }

  lemma {:induction false} CopiesLook(n: nat, c: Cell)
    ensures LooksOf(Copies(n, c)) == if c.width == 0 then [] else Copies(n, LookOf(c))
  {
    if n > 0 {
      CopiesLook(n - 1, c);
      assert Copies(n, c)[1..] == Copies(n - 1, c);
      assert Copies(n, LookOf(c)) == [LookOf(c)] + Copies(n - 1, LookOf(c));
    }
  }

  ghost predicate NoneVisible(cells: seq<Cell>) { forall i {:trigger cells[i]} :: 0 <= i < |cells| ==> cells[i].width == 0 }

  lemma {:induction false} NothingVisible(cells: seq<Cell>)
    ensures LooksOf(cells) == [] <==> NoneVisible(cells)
  {
    if cells != [] {
      NothingVisible(cells[1..]);
      assert NoneVisible(cells) ==> NoneVisible(cells[1..]);
      if LooksOf(cells) == [] {
        forall i | 0 <= i < |cells| ensures cells[i].width == 0 { if i > 0 { assert cells[i] == cells[1..][i - 1]; } }
      }
    }
  }

  /** n cells look like n copies of c if and only if each of them does. */
  lemma LikeCopies(cells: seq<Cell>, c: Cell)
    ensures LooksOf(cells) == LooksOf(Copies(|cells|, c)) <==> AllLike(cells, c)
  {
    hide LooksOf, LookOf;
    CopiesLook(|cells|, c);
    NothingVisible(cells);
    VisibleLooks(cells);
    if c.width != 0 && LooksOf(cells) == Copies(|cells|, LookOf(c)) {
      forall i | 0 <= i < |cells| ensures SameLook(cells[i], c) { assert LooksOf(cells)[i] == LookOf(cells[i]); }
    } else if c.width != 0 && AllLike(cells, c) {
      assert AllVisible(cells);
      forall i | 0 <= i < |cells| ensures LooksOf(cells)[i] == LookOf(c) { assert SameLook(cells[i], c); }
    }
  }

  /** The looks of cells all of which are like c where they are visible at all. */
  lemma {:induction false} LikeOne(cells: seq<Cell>, c: Cell)
    requires VisibleLike(cells, c)
    ensures LooksOf(cells) == Copies(|LooksOf(cells)|, LookOf(c))
  {
    if cells != [] {
      forall i | 0 <= i < |cells[1..]| && cells[1..][i].width != 0 ensures LookOf(cells[1..][i]) == LookOf(c) {
        assert cells[1..][i] == cells[i + 1];
      }
      LikeOne(cells[1..], c);
    }
  }

  /** And the other way round. */
  lemma {:induction false} OneLike(cells: seq<Cell>, c: Cell)
    requires forall i {:trigger LooksOf(cells)[i]} :: 0 <= i < |LooksOf(cells)| ==> LooksOf(cells)[i] == LookOf(c)
    ensures VisibleLike(cells, c)
  {
    if cells != [] {
      var all, rest := LooksOf(cells), LooksOf(cells[1..]);
      var d := |all| - |rest|;
      forall i | 0 <= i < |rest| ensures rest[i] == LookOf(c) { assert all[i + d] == rest[i]; }
      OneLike(cells[1..], c);
      forall i | 0 <= i < |cells| && cells[i].width != 0 ensures LookOf(cells[i]) == LookOf(c) {
        if i == 0 { assert all[0] == LookOf(cells[0]); } else { assert cells[i] == cells[1..][i - 1]; }
      }
    }
  }

  /** k equal things in front of b are k things behind it only if everything is equal. */
  lemma SlideRight<T>(v: T, k: nat, b: seq<T>, c: seq<T>)
    requires k >= 1
    ensures Copies(k, v) + b == b + c <==> b == Copies(|b|, v) && c == Copies(k, v)
  {
    var l := Copies(k, v) + b;
    if l == b + c {
      AllEqual(v, k, b, c, |l|);
      forall i | 0 <= i < |b| ensures b[i] == v { assert l[i] == (b + c)[i]; }
      forall i | 0 <= i < |c| ensures c[i] == v { assert l[|b| + i] == (b + c)[|b| + i]; }
    }
  }

  lemma {:induction false} AllEqual<T>(v: T, k: nat, b: seq<T>, c: seq<T>, n: nat)
    requires k >= 1 && Copies(k, v) + b == b + c && n <= k + |b|
    ensures forall i {:trigger (b + c)[i]} :: 0 <= i < n ==> (b + c)[i] == v
  {
    if n > 0 {
      AllEqual(v, k, b, c, n - 1);
      var l := Copies(k, v) + b;
      if n - 1 >= k { assert l[n - 1] == b[n - 1 - k] == (b + c)[n - 1 - k]; }
    }
  }

  /** The same from the other side. */
  lemma SlideLeft<T>(v: T, k: nat, a: seq<T>, b: seq<T>)
    requires k >= 1
    ensures a + b == b + Copies(k, v) <==> b == Copies(|b|, v) && a == Copies(k, v)
  {
    var l := b + Copies(k, v);
    if a + b == l {
      assert |a| == k;
      AllEqualBack(v, k, a, b, 0);
      forall i | 0 <= i < |b| ensures b[i] == v { assert (a + b)[k + i] == b[i]; }
      forall i | 0 <= i < |a| ensures a[i] == v { assert (a + b)[i] == a[i]; }
    }
  }

  lemma {:induction false} AllEqualBack<T>(v: T, k: nat, a: seq<T>, b: seq<T>, n: nat)
    requires k >= 1 && a + b == b + Copies(k, v) && |a| == k && n <= k + |b|
    ensures forall i {:trigger (a + b)[i]} :: n <= i < k + |b| ==> (a + b)[i] == v
    decreases k + |b| - n
  {
    if n < k + |b| {
      AllEqualBack(v, k, a, b, n + 1);
      var l := b + Copies(k, v);
      if n < |b| { assert l[n] == b[n] == (a + b)[n + k]; }
    }
  }
}
