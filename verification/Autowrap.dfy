/** Where printed text ends up: wrapping, scrolling and trimming together lay
    characters out as if on an endless sheet cols columns wide. */
module Autowrap {
  import opened Sequences
  import opened Numerals
  import opened Widths
  import opened Buffer
  import opened Resizing
  import opened Emulator
  import opened Parser
  import opened Effects

  /** Printing narrow characters one after another, with autowrap and without insert mode. */
  function Type(b: Buf, scrollback: nat, attr: nat, chs: seq<Text>): (r: Buf)
    requires Inv(b) && scrollback != 1
    ensures Inv(r)
    decreases |chs|
  {
    if chs == [] then b
    else Put(Type(b, scrollback, attr, chs[..|chs| - 1]), scrollback, true, false, attr, chs[|chs| - 1], 1)
  }

  /** Line wraps while n characters are printed from column x. */
  function Wraps(x: int, cols: int, n: nat): int
    requires 1 <= cols && 0 <= x
  {
    if n == 0 then 0 else (x + n - 1) / cols
  }

  /** Lines scrolled off the top while n characters are printed on b. */
  function Scrolled(b: Buf, n: nat): int
    requires 1 <= b.cols && 0 <= b.x
  {
    Max(0, b.y + Wraps(b.x, b.cols, n) - (b.rows - 1))
  }

  /** The cell at a row counted from the top of the screen, negative rows reaching
      into the scrollback; a row trimmed away has nothing to show. */
  ghost predicate Shows(b: Buf, row: int, col: int, c: Cell) {
    var i := |b.history| + row;
    i >= 0 ==> i < |Lines(b)| && 0 <= col < |Lines(b)[i]| && Lines(b)[i][col] == c
  }

  ghost predicate FullMargins(b: Buf) { b.top == 0 && b.bottom == b.rows - 1 }

  predicate WrapsUp(b: Buf) { b.x == b.cols && b.y == b.rows - 1 }

  /** One narrow character more: the next cell of the line, or the first cell of the
      next one, with everything moved up a row when there is none. */
  ghost predicate OneMore(b: Buf, r: Buf, c: Cell) {
    var up := if WrapsUp(b) then 1 else 0;
    && r.rows == b.rows && r.cols == b.cols && FullMargins(r)
    && r.x == (if b.x == b.cols then 1 else b.x + 1)
    && r.y == (if b.x == b.cols && !WrapsUp(b) then b.y + 1 else b.y)
    && Shows(r, r.y, r.x - 1, c)
    && (forall row, col, c {:trigger Shows(b, row, col, c)} ::
          Shows(b, row, col, c) && !(row - up == r.y && col == r.x - 1) && row < b.rows
          ==> Shows(r, row - up, col, c))
  }

  /** The buffer the character is placed on. */
  function Wrapped(b: Buf, scrollback: nat): (r: Buf)
    requires Inv(b) && scrollback != 1
    ensures Inv(r)
  {
    if b.x == b.cols then Index(b.(x := 0), scrollback) else b
  }

  function Placed(b: Buf, c: Cell): (r: Buf)
    requires Inv(b) && b.x < b.cols
    ensures Inv(r)
  {
    b.(screen := b.screen[b.y := b.screen[b.y][b.x := c]], x := b.x + 1)
  }

  lemma PutIsPlaced(b: Buf, scrollback: nat, attr: nat, ch: Text)
    requires Inv(b) && scrollback != 1
    ensures Put(b, scrollback, true, false, attr, ch, 1) == Placed(Wrapped(b, scrollback), Cell(attr, ch, 1))
  {
    hide Index, Combine;
    var i := Wrapped(b, scrollback);
    assert i.x < i.cols by { WrappedHasRoom(b, scrollback); }
    assert Place(i, false, attr, ch, 1) == Placed(i, Cell(attr, ch, 1));
  }

  lemma WrappedHasRoom(b: Buf, scrollback: nat)
    requires Inv(b) && scrollback != 1
    ensures Wrapped(b, scrollback).x < Wrapped(b, scrollback).cols
  {
  }

  lemma PutNarrow(b: Buf, scrollback: nat, attr: nat, ch: Text)
    requires Inv(b) && FullMargins(b) && scrollback != 1
    ensures OneMore(b, Put(b, scrollback, true, false, attr, ch, 1), Cell(attr, ch, 1))
  {
    hide Inv, Put, Wrapped, Scroll, Lines;
    PutIsPlaced(b, scrollback, attr, ch);
    WrappedHasRoom(b, scrollback);
    WrappedFacts(b, scrollback);
    var c := Cell(attr, ch, 1);
    var i := Wrapped(b, scrollback);
    var up := if WrapsUp(b) then 1 else 0;
    forall row, col, c' | Shows(b, row, col, c') && row < b.rows ensures Shows(i, row - up, col, c') {
      if WrapsUp(b) { MovedUp(b, i, scrollback, row, col, c'); }
    }
    PlacedShows(i, c);
  }

  lemma WrappedFacts(b: Buf, scrollback: nat)
    requires Inv(b) && FullMargins(b) && scrollback != 1
    ensures var i := Wrapped(b, scrollback);
      && i.rows == b.rows && i.cols == b.cols && FullMargins(i) && i.x == (if b.x == b.cols then 0 else b.x)
      && i.y == (if b.x == b.cols && !WrapsUp(b) then b.y + 1 else b.y) && i.y < b.rows
      && (WrapsUp(b) ==> i == Scroll(b.(x := 0), scrollback))
      && (!WrapsUp(b) ==> Lines(i) == Lines(b) && |i.history| == |b.history|)
  {
    hide ScrolledHistory, ShiftUp;
  }

  lemma PlacedShows(b: Buf, c: Cell)
    requires Inv(b) && b.x < b.cols
    ensures var r := Placed(b, c);
      && Shows(r, b.y, b.x, c)
      && (forall row, col, c' {:trigger Shows(b, row, col, c')} ::
            Shows(b, row, col, c') && !(row == b.y && col == b.x) ==> Shows(r, row, col, c'))
  {
    var r := Placed(b, c);
    assert Lines(r)[|r.history| + b.y] == r.screen[b.y];
    forall row, col, c' | Shows(b, row, col, c') && !(row == b.y && col == b.x) ensures Shows(r, row, col, c') {
      var i := |b.history| + row;
      if i >= 0 {
        if row < 0 { assert Lines(r)[i] == b.history[i] == Lines(b)[i]; }
        else { assert Lines(r)[i] == r.screen[row] && Lines(b)[i] == b.screen[row]; }
      }
    }
  }

  lemma MovedUp(b: Buf, r: Buf, scrollback: nat, row: int, col: int, c: Cell)
    requires Inv(b) && FullMargins(b) && scrollback != 1
    requires r == Scroll(b.(x := 0), scrollback)
    requires Shows(b, row, col, c) && row < b.rows
    ensures Shows(r, row - 1, col, c)
  {
    hide Inv, Lines, Scroll;
    SameLines(b);
    ScrolledLines(b.(x := 0), scrollback);
  }

  lemma SameLines(b: Buf)
    requires Inv(b)
    ensures Lines(b.(x := 0)) == Lines(b) && Inv(b.(x := 0)) && |b.history| + b.rows == |Lines(b)|
  {
  }

  /** A full-height scroll appends a blank line to all there is, and takes away as many
      at the top as were trimmed. */
  lemma ScrolledLines(b: Buf, scrollback: nat)
    requires Inv(b) && FullMargins(b) && scrollback != 1
    ensures var r, d := Scroll(b, scrollback), |b.history| + 1 - |Scroll(b, scrollback).history|;
      && 0 <= d <= |Lines(b)|
      && Lines(r) == Lines(b)[d..] + [BlankLine(b.cols, DEF_ATTR)] && |Lines(b)| == |b.history| + b.rows
  {
    hide ScrolledHistory, BlankLine;
    var r := Scroll(b, scrollback);
    var all := b.history + [b.screen[0]];
    var d := |all| - |r.history|;
    assert r.history == all[d..];
    assert r.screen == b.screen[1..] + [BlankLine(b.cols, DEF_ATTR)];
    assert Lines(b) == all + b.screen[1..];
    assert all[d..] + b.screen[1..] == Lines(b)[d..];
  }

  /** The layout: character k stands in column (x + k) mod cols of the line
      (x + k) div cols below the one printing started on, moved up by the lines that
      scrolled off since, however many of them were trimmed. */
  ghost predicate LaidOut(b: Buf, r: Buf, attr: nat, chs: seq<Text>)
    requires Inv(b)
  {
    var n := |chs|;
    && Inv(r) && r.rows == b.rows && r.cols == b.cols && FullMargins(r)
    && r.x == (if n == 0 then b.x else (b.x + n - 1) % b.cols + 1)
    && r.y == Min(b.y + Wraps(b.x, b.cols, n), b.rows - 1)
    && forall k {:trigger chs[k]} :: 0 <= k < n ==>
         Shows(r, b.y + (b.x + k) / b.cols - Scrolled(b, n), (b.x + k) % b.cols, Cell(attr, chs[k], 1))
  }

  lemma {:induction false} AutowrapLayout(b: Buf, scrollback: nat, attr: nat, chs: seq<Text>)
    requires Inv(b) && FullMargins(b) && scrollback != 1
    ensures LaidOut(b, Type(b, scrollback, attr, chs), attr, chs)
    decreases |chs|
  {
    if chs != [] {
      var n := |chs| - 1;
      AutowrapLayout(b, scrollback, attr, chs[..n]);
      var r := Type(b, scrollback, attr, chs[..n]);
      PutNarrow(r, scrollback, attr, chs[n]);
      LayOutOne(b, r, Type(b, scrollback, attr, chs), attr, chs);
    }
  }

  /** q = p + 1 in columns: the next column, or the first one of the next line. */
  lemma NextCell(p: int, cols: int)
    requires 0 <= p && 1 <= cols
    ensures var (q, m) := ((p + 1) / cols, (p + 1) % cols);
      if p % cols == cols - 1 then m == 0 && q == p / cols + 1 else m == p % cols + 1 && q == p / cols
  {
    var q, m := p / cols, p % cols;
    assert p == q * cols + m;
    if m == cols - 1 {
      assert p + 1 == (q + 1) * cols;
      DivMod(p + 1, cols, q + 1, 0);
    } else {
      DivMod(p + 1, cols, q, m + 1);
    }
  }

  lemma DivMod(p: int, cols: int, q: int, m: int)
    requires 1 <= cols && p == q * cols + m && 0 <= m < cols
    ensures p / cols == q && p % cols == m
  {
    var d := p / cols - q;
    assert d * cols == m - p % cols;
    assert d >= 1 ==> d * cols >= cols;
    assert d <= -1 ==> d * cols <= -cols;
  }

  lemma SameCell(x: int, k: nat, n: nat, cols: int)
    requires 0 <= x && 1 <= cols && (x + k) / cols == (x + n) / cols && (x + k) % cols == (x + n) % cols
    ensures k == n
  {
    assert x + k == (x + k) / cols * cols + (x + k) % cols;
    assert x + n == (x + n) / cols * cols + (x + n) % cols;
  }

  /** The cursor position after n characters, in terms of the cell of character n. */
  lemma CursorCell(x: int, cols: int, n: nat, at: int)
    requires 0 <= x <= cols && 1 <= cols && at == (if n == 0 then x else (x + n - 1) % cols + 1)
    ensures at == cols ==> (x + n) % cols == 0 && (x + n) / cols == Wraps(x, cols, n) + 1
    ensures at < cols ==> (x + n) % cols == at && (x + n) / cols == Wraps(x, cols, n)
  {
    if n == 0 {
      if x == cols { DivMod(x, cols, 1, 0); } else { DivMod(x, cols, 0, x); }
    } else {
      NextCell(x + n - 1, cols);
    }
  }

  /** Where character n goes, from where the cursor stands after n characters. */
  lemma NextPosition(b: Buf, r: Buf, n: nat)
    requires Inv(b) && r.rows == b.rows && r.cols == b.cols
    requires r.x == if n == 0 then b.x else (b.x + n - 1) % b.cols + 1
    requires r.y == Min(b.y + Wraps(b.x, b.cols, n), b.rows - 1)
    ensures var wraps := r.x == b.cols;
      && Wraps(b.x, b.cols, n + 1) == (b.x + n) / b.cols == Wraps(b.x, b.cols, n) + (if wraps then 1 else 0)
      && (b.x + n) % b.cols == (if wraps then 0 else r.x)
      && Scrolled(b, n + 1) == Scrolled(b, n) + (if WrapsUp(r) then 1 else 0)
      && 0 <= Wraps(b.x, b.cols, n)
  {
    CursorCell(b.x, b.cols, n, r.x);
    if n > 0 { Monotone(0, b.x + n - 1, b.cols); }
  }

  lemma LayOutOne(b: Buf, r: Buf, r': Buf, attr: nat, chs: seq<Text>)
    requires Inv(b) && |chs| > 0 && LaidOut(b, r, attr, chs[..|chs| - 1])
    requires Inv(r') && OneMore(r, r', Cell(attr, chs[|chs| - 1], 1))
    ensures LaidOut(b, r', attr, chs)
  {
    var n := |chs| - 1;
    var cols := b.cols;
    var up := if WrapsUp(r) then 1 else 0;
    NextPosition(b, r, n);
    hide Wraps;
    forall k | 0 <= k < n + 1
      ensures Shows(r', b.y + (b.x + k) / cols - Scrolled(b, n + 1), (b.x + k) % cols, Cell(attr, chs[k], 1))
    {
      if k < n {
        assert chs[..n][k] == chs[k];
        var row := b.y + (b.x + k) / cols - Scrolled(b, n);
        Monotone(b.x + k, b.x + n - 1, cols);
        if row - up == r'.y && (b.x + k) % cols == r'.x - 1 { SameCell(b.x, k, n, cols); }
      }
    }
  }

  lemma Monotone(p: int, q: int, cols: int)
    requires 0 <= p <= q && 1 <= cols
    ensures p / cols <= q / cols
  {
    var d := p / cols - q / cols;
    assert p == p / cols * cols + p % cols && q == q / cols * cols + q % cols;
    assert p - q == d * cols + p % cols - q % cols;
    assert d >= 1 ==> d * cols >= cols;
  }

  // ---- The same for text ------------------------------------------------------------

  ghost predicate Printable(data: Text) { forall i :: 0 <= i < |data| ==> 0x20 <= data[i] < 0x7f }

  function Prints(data: Text): (cmds: seq<Cmd>)
    ensures |cmds| == |data| && forall i {:trigger cmds[i]} :: 0 <= i < |data| ==> cmds[i] == Print([data[i]], 1)
  {
    seq(|data|, i requires 0 <= i < |data| => Print([data[i]], 1))
  }

  lemma {:induction false} PrintableScan(data: Text)
    requires Printable(data)
    ensures Scan(Ground, data, 0) == Scanned(Ground, [], Prints(data), false)
  {
    if data != [] {
      hide Scan;
      AsciiIsNarrow(data[0]);
      PrintableScan(data[1..]);
      assert data == [data[0]] + data[1..];
      PrintsOne(data[0], data[1..]);
      assert Prints(data) == [Print([data[0]], 1)] + Prints(data[1..]);
    }
  }

  lemma PrintsOne(u: CodeUnit, rest: Text)
    requires 0x20 <= u < 0x7f && Width(u) == 1
    ensures Scan(Ground, [u] + rest, 0) == Prepend([Print([u], 1)], Scan(Ground, rest, 0))
  {
    hide Scan, Width;
    Unit(Ground, u, rest);
  }

  /** Plain printing: autowrap on, insert mode off, no graphics set. */
  ghost predicate Plainly(e: Emu) { e.wrap && !e.insert && e.charsets.current == Plain }

  function Singles(data: Text): (chs: seq<Text>)
    ensures |chs| == |data| && forall i {:trigger chs[i]} :: 0 <= i < |data| ==> chs[i] == [data[i]]
  {
    seq(|data|, i requires 0 <= i < |data| => [data[i]])
  }

  lemma {:induction false} PrintsType(e: Emu, data: Text)
    requires EmuInv(e) && Plainly(e)
    ensures AllWellFormed(Prints(data)) && AdmissibleAll(e, Prints(data))
    ensures ExecAll(e, Prints(data)) == e.(buf := Type(e.buf, e.cfg.scrollback, e.attr, Singles(data)))
    decreases |data|
  {
    hide Type, Exec, Admissible, Put, Inv;
    var cmds := Prints(data);
    if data == [] {
      assert cmds == [];
      TypeNothing(e);
    } else {
      var n := |data| - 1;
      var last := Print([data[n]], 1);
      PrintsType(e, data[..n]);
      assert cmds == Prints(data[..n]) + [last];
      assert Singles(data)[..n] == Singles(data[..n]);
      ExecAllComposes(e, Prints(data[..n]), [last]);
      TypeLast(e, Singles(data));
      PrintsLast(e.(buf := Type(e.buf, e.cfg.scrollback, e.attr, Singles(data[..n]))), [data[n]]);
    }
  }

  lemma TypeNothing(e: Emu)
    requires EmuInv(e)
    ensures e == e.(buf := Type(e.buf, e.cfg.scrollback, e.attr, []))
  {
  }

  lemma TypeLast(e: Emu, chs: seq<Text>)
    requires EmuInv(e) && Plainly(e) && |chs| > 0
    ensures var f := e.(buf := Type(e.buf, e.cfg.scrollback, e.attr, chs[..|chs| - 1]));
      && EmuInv(f) && Plainly(f)
      && e.(buf := Type(e.buf, e.cfg.scrollback, e.attr, chs)) ==
         f.(buf := Put(f.buf, f.cfg.scrollback, true, false, f.attr, chs[|chs| - 1], 1))
  {
    hide Put;
    TypeKeepsSize(e.buf, e.cfg.scrollback, e.attr, chs[..|chs| - 1]);
  }

  lemma {:induction false} TypeKeepsSize(b: Buf, scrollback: nat, attr: nat, chs: seq<Text>)
    requires Inv(b) && scrollback != 1
    ensures var r := Type(b, scrollback, attr, chs); r.rows == b.rows && r.cols == b.cols
    decreases |chs|
  {
    if chs != [] {
      TypeKeepsSize(b, scrollback, attr, chs[..|chs| - 1]);
      PutFrame(Type(b, scrollback, attr, chs[..|chs| - 1]), scrollback, true, false, attr, chs[|chs| - 1], 1);
      hide Put, Inv;
    }
  }

  lemma PrintsLast(e: Emu, ch: Text)
    requires EmuInv(e) && Plainly(e) && |ch| >= 1
    ensures var cmds := [Print(ch, 1)];
      AllWellFormed(cmds) && AdmissibleAll(e, cmds)
      && ExecAll(e, cmds) == e.(buf := Put(e.buf, e.cfg.scrollback, true, false, e.attr, ch, 1))
  {
    hide Put;
    var c := Print(ch, 1);
    ExecKeepsInvariant(e, c);
    assert [c][1..] == [];
  }

  /** Writing printable ASCII on a full-height region lays it out as on an endless sheet. */
  lemma TextIsLaidOut(e: Emu, data: Text)
    requires EmuInv(e) && Plainly(e) && FullMargins(e.buf) && Printable(data)
    ensures var cmds := Scan(Ground, data, 0).cmds;
      AdmissibleAll(e, cmds) && LaidOut(e.buf, ExecAll(e, cmds).buf, e.attr, Singles(data))
  {
    PrintableScan(data);
    PrintsType(e, data);
    AutowrapLayout(e.buf, e.cfg.scrollback, e.attr, Singles(data));
  }
}
