/** Cursor movements as texts: which coordinate moves, which way and how far, and the
    laws that make all of them out of a few. */
module Moves {
  import opened Sequences
  import opened TabStops
  import opened Buffer
  import opened Numerals
  import opened Emulator
  import opened Parser
  import opened Replays
  import opened Texts
  import opened Controls

  /** ESC [ n final. */
  function Key(n: nat, final: CodeUnit): Text { Encode([], [n], final) }

  /** The cursor at column x of row y, all else as in e. */
  function At(e: Emu, x: int, y: int): Emu { e.(buf := e.buf.(x := x, y := y)) }

  ghost predicate Goes(e: Emu, text: Text, x: int, y: int)
    requires EmuInv(e)
  {
    Gives(e, text, At(e, x, y))
  }

  /** An admissible movement as a text. */
  lemma MoveText(e: Emu, ps: seq<nat>, final: CodeUnit)
    requires EmuInv(e) && |ps| >= 1 && IsMove(final)
    requires (final == CHA ==> ps[0] <= e.buf.cols + 1) && (final == HVP ==> |ps| >= 2)
    ensures Reads(Encode([], ps, final), [Csi(final, ps, [])])
    ensures var r := MoveCursor(e.buf, final, ps); Inv(r) && r == e.buf.(x := r.x, y := r.y) && Goes(e, Encode([], ps, final), r.x, r.y)
  {
    var c := Csi(final, ps, []);
    ReadsCsi([], ps, final);
    hide Runs, After, Scan, Encode, MoveCursor;
    OneGives(e, Encode([], ps, final), c);
    Given(e, Encode([], ps, final));
  }

  /** The four directions: one coordinate moves, by n or 1 for 0, or as far as the edge
      lets it. A cursor that waits to wrap is beyond the right edge, and CUF takes it
      back. */
  lemma Directions(e: Emu, n: nat)
    requires EmuInv(e)
    ensures var b, k := e.buf, if n == 0 then 1 else n;
      && Goes(e, Key(n, CUU), b.x, b.y - Min(k, b.y))
      && Goes(e, Key(n, CUD), b.x, b.y + Min(k, b.rows - 1 - b.y))
      && Goes(e, Key(n, CUF), b.x + Min(k, b.cols - 1 - b.x), b.y)
      && Goes(e, Key(n, CUB), b.x - Min(k, b.x), b.y)
  {
    MovesInFields(e.buf, n);
    hide *;
    FourMoves();
    MoveText(e, [n], CUU);
    MoveText(e, [n], CUD);
    MoveText(e, [n], CUF);
    MoveText(e, [n], CUB);
    KeyIs(n);
  }

  lemma KeyIs(n: nat)
    ensures forall final {:trigger Key(n, final)} :: Key(n, final) == Encode([], [n], final)
  {
  }

  lemma FourMoves()
    ensures IsMove(CUU) && IsMove(CUD) && IsMove(CUF) && IsMove(CUB)
    ensures CUU != CHA && CUD != CHA && CUF != CHA && CUB != CHA && CUU != HVP && CUD != HVP && CUF != HVP && CUB != HVP
  {
  }

  lemma MovesInFields(b: Buf, n: nat)
    requires Inv(b)
    ensures var ps, k := [n], if n == 0 then 1 else n;
      && MoveCursor(b, CUU, ps) == b.(y := b.y - Min(k, b.y))
      && MoveCursor(b, CUD, ps) == b.(y := b.y + Min(k, b.rows - 1 - b.y))
      && MoveCursor(b, CUF, ps) == b.(x := b.x + Min(k, b.cols - 1 - b.x))
      && MoveCursor(b, CUB, ps) == b.(x := b.x - Min(k, b.x))
  {
  }

  /** Two texts with the same effect. */
  ghost predicate Same(e: Emu, a: Text, b: Text)
    requires EmuInv(e)
  {
    Runs(e, Ground, a) && Gives(e, b, After(e, Ground, a))
  }

  /** A movement without a parameter, ESC [ final, is the one with a 0. */
  lemma NoParameterIsZero(final: CodeUnit)
    requires IsFinal(final)
    ensures Scan(Ground, [ESC, 91, final], 0) == Scan(Ground, Key(0, final), 0)
  {
    ReadsCsi([], [0], final);
    assert [ESC, 91, final] == [ESC, 91] + [final] && [final] + [] == [final];
    assert [] + [0] == [0];
    assert React(Sequence([], 0, []), [final], final) == Reaction(Ground, [Csi(final, [0], [])], 1);
    hide Scan, React;
    ReadIntroducer([final]);
    Unit(Sequence([], 0, []), final, []);
    ReadsNothing();
    assert [Csi(final, [0], [])] + [] == [Csi(final, [0], [])];
  }

  predicate MoveIsSafe(b: Buf, ps: seq<nat>, final: CodeUnit) {
    |ps| >= 1 && IsMove(final) && (final == CHA ==> ps[0] <= b.cols + 1) && (final == HVP ==> |ps| >= 2)
  }

  /** One movement after the other. */
  lemma TwoMoves(e: Emu, ps: seq<nat>, first: CodeUnit, x: int, y: int, qs: seq<nat>, second: CodeUnit, x': int, y': int)
    requires EmuInv(e) && MoveIsSafe(e.buf, ps, first) && MoveIsSafe(e.buf, qs, second)
    requires MoveCursor(e.buf, first, ps) == e.buf.(x := x, y := y)
    requires Inv(e.buf.(x := x, y := y)) && MoveCursor(e.buf.(x := x, y := y), second, qs) == e.buf.(x := x', y := y')
    ensures Goes(e, Encode([], ps, first) + Encode([], qs, second), x', y')
    ensures Gives(e, Encode([], ps, first) + Encode([], qs, second), e) <==> x' == e.buf.x && y' == e.buf.y
  {
    hide MoveCursor, Encode, Scan, Runs, After, EmuInv, Inv;
    var a, b := Encode([], ps, first), Encode([], qs, second);
    MoveText(e, ps, first);
    Given(e, a);
    MoveText(At(e, x, y), qs, second);
    Given(At(e, x, y), b);
    BothGive(e, a, [Csi(first, ps, [])], b, [Csi(second, qs, [])]);
    Given(e, a + b);
  }

  /** The way back: down and up again, or right and left, leads back if and only if the
      edge does not get in the way, or the cursor came from the opposite edge. */
  lemma WayBack(e: Emu, n: nat)
    requires EmuInv(e)
    ensures var b, k := e.buf, if n == 0 then 1 else n;
      && (Gives(e, Key(n, CUD) + Key(n, CUU), e) <==> b.y == 0 || b.y + k <= b.rows - 1)
      && (Gives(e, Key(n, CUU) + Key(n, CUD), e) <==> b.y == b.rows - 1 || k <= b.y)
      && (Gives(e, Key(n, CUF) + Key(n, CUB), e) <==> b.x == 0 || b.x + k <= b.cols - 1)
      && (Gives(e, Key(n, CUB) + Key(n, CUF), e) <==> b.x == b.cols - 1 || k <= b.x < b.cols)
  {
    hide *;
    RowsBack(e, n);
    ColumnsBack(e, n);
  }

  lemma RowsBack(e: Emu, n: nat)
    requires EmuInv(e)
    ensures var b, k := e.buf, if n == 0 then 1 else n;
      && (Gives(e, Key(n, CUD) + Key(n, CUU), e) <==> b.y == 0 || b.y + k <= b.rows - 1)
      && (Gives(e, Key(n, CUU) + Key(n, CUD), e) <==> b.y == b.rows - 1 || k <= b.y)
  {
    hide MoveCursor, Encode, Gives, Goes;
    var b, k := e.buf, if n == 0 then 1 else n;
    var up, down := b.y - Min(k, b.y), b.y + Min(k, b.rows - 1 - b.y);
    MovesInFields(b, n);
    MovesInFields(b.(y := up), n);
    MovesInFields(b.(y := down), n);
    TwoMoves(e, [n], CUD, b.x, down, [n], CUU, b.x, down - Min(k, down));
    TwoMoves(e, [n], CUU, b.x, up, [n], CUD, b.x, up + Min(k, b.rows - 1 - up));
  }

  lemma ColumnsBack(e: Emu, n: nat)
    requires EmuInv(e)
    ensures var b, k := e.buf, if n == 0 then 1 else n;
      && (Gives(e, Key(n, CUF) + Key(n, CUB), e) <==> b.x == 0 || b.x + k <= b.cols - 1)
      && (Gives(e, Key(n, CUB) + Key(n, CUF), e) <==> b.x == b.cols - 1 || k <= b.x < b.cols)
  {
    hide MoveCursor, Encode, Gives, Goes;
    var b, k := e.buf, if n == 0 then 1 else n;
    var left, right := b.x - Min(k, b.x), b.x + Min(k, b.cols - 1 - b.x);
    MovesInFields(b, n);
    MovesInFields(b.(x := left), n);
    MovesInFields(b.(x := right), n);
    TwoMoves(e, [n], CUF, right, b.y, [n], CUB, right - Min(k, right), b.y);
    TwoMoves(e, [n], CUB, left, b.y, [n], CUF, left + Min(k, b.cols - 1 - left), b.y);
  }

  lemma SamePlace(e: Emu, a: Text, b: Text, x: int, y: int)
    requires EmuInv(e) && Goes(e, a, x, y) && Goes(e, b, x, y)
    ensures Same(e, a, b)
  {
  }

  /** Counts of the same direction add up. */
  lemma MovesAdd(e: Emu, m: nat, n: nat)
    requires EmuInv(e) && m >= 1 && n >= 1
    ensures Same(e, Key(m + n, CUU), Key(m, CUU) + Key(n, CUU))
    ensures Same(e, Key(m + n, CUD), Key(m, CUD) + Key(n, CUD))
    ensures Same(e, Key(m + n, CUF), Key(m, CUF) + Key(n, CUF))
    ensures Same(e, Key(m + n, CUB), Key(m, CUB) + Key(n, CUB))
  {
    StepsAdd(e, m, n, CUU);
    StepsAdd(e, m, n, CUD);
    StepsAdd(e, m, n, CUF);
    StepsAdd(e, m, n, CUB);
  }

  lemma StepsAdd(e: Emu, m: nat, n: nat, final: CodeUnit)
    requires EmuInv(e) && m >= 1 && n >= 1 && (final == CUU || final == CUD || final == CUF || final == CUB)
    ensures Same(e, Key(m + n, final), Key(m, final) + Key(n, final))
  {
    var b := e.buf;
    var once, twice := MoveCursor(b, final, [m]), MoveCursor(b, final, [m + n]);
    assert MoveCursor(once, final, [n]) == twice;
    hide MoveCursor, Encode, Runs, After;
    MoveText(e, [m + n], final);
    TwoMoves(e, [m], final, once.x, once.y, [n], final, twice.x, twice.y);
    SamePlace(e, Key(m + n, final), Key(m, final) + Key(n, final), twice.x, twice.y);
  }

  // ---- The other movements -----------------------------------------------------------------------

  /** One movement does what another one does. */
  lemma SameMove(e: Emu, ps: seq<nat>, a: CodeUnit, qs: seq<nat>, b: CodeUnit)
    requires EmuInv(e) && MoveIsSafe(e.buf, ps, a) && MoveIsSafe(e.buf, qs, b)
    requires MoveCursor(e.buf, a, ps) == MoveCursor(e.buf, b, qs)
    ensures Same(e, Encode([], ps, a), Encode([], qs, b))
  {
    hide MoveCursor, Encode, Runs, After;
    MoveText(e, ps, a);
    MoveText(e, qs, b);
    var r := MoveCursor(e.buf, a, ps);
    SamePlace(e, Encode([], ps, a), Encode([], qs, b), r.x, r.y);
  }

  /** One movement does what two others do in a row. */
  lemma SameAsTwo(e: Emu, ps: seq<nat>, a: CodeUnit, qs: seq<nat>, b: CodeUnit, rs: seq<nat>, c: CodeUnit)
    requires EmuInv(e) && MoveIsSafe(e.buf, ps, a) && MoveIsSafe(e.buf, qs, b) && MoveIsSafe(e.buf, rs, c)
    requires MoveCursor(e.buf, a, ps) == MoveCursor(MoveCursor(e.buf, b, qs), c, rs)
    ensures Same(e, Encode([], ps, a), Encode([], qs, b) + Encode([], rs, c))
  {
    hide MoveCursor, Encode, Runs, After;
    MoveText(e, ps, a);
    var m := MoveCursor(e.buf, b, qs);
    MoveText(e, qs, b);
    var r := MoveCursor(m, c, rs);
    assert r == m.(x := r.x, y := r.y);
    TwoMoves(e, qs, b, m.x, m.y, rs, c, r.x, r.y);
    SamePlace(e, Encode([], ps, a), Encode([], qs, b) + Encode([], rs, c), r.x, r.y);
  }

  /** HPR is CUF and VPR is CUD; CNL and CPL are CUD and CUU, ending in column 0. */
  lemma RelativeMoves(e: Emu, n: nat)
    requires EmuInv(e)
    ensures Same(e, Key(n, CUF), Key(n, HPR)) && Same(e, Key(n, CUD), Key(n, VPR))
    ensures Same(e, Key(n, CNL), Key(n, CUD) + [CR]) && Same(e, Key(n, CPL), Key(n, CUU) + [CR])
  {
    SameMove(e, [n], CUF, [n], HPR);
    SameMove(e, [n], CUD, [n], VPR);
    ThenReturn(e, n, CUD, CNL);
    ThenReturn(e, n, CUU, CPL);
  }

  lemma ThenReturn(e: Emu, n: nat, move: CodeUnit, line: CodeUnit)
    requires EmuInv(e) && ((move == CUD && line == CNL) || (move == CUU && line == CPL))
    ensures Same(e, Key(n, line), Key(n, move) + [CR])
  {
    var m := MoveCursor(e.buf, move, [n]);
    assert MoveCursor(e.buf, line, [n]) == m.(x := 0);
    hide MoveCursor, Encode, Runs, After, Reads;
    MoveText(e, [n], line);
    MoveText(e, [n], move);
    Given(e, Key(n, move));
    ReturnText(At(e, m.x, m.y));
    Given(At(e, m.x, m.y), [CR]);
    BothGive(e, Key(n, move), [Csi(move, [n], [])], [CR], [CarriageReturn]);
    SamePlace(e, Key(n, line), Key(n, move) + [CR], 0, m.y);
  }

  /** CUP goes to the given row and column, counted from 1 and held on the screen, 0 and
      a missing column standing for 1. */
  lemma Positions(e: Emu, row: nat, col: nat)
    requires EmuInv(e)
    ensures var b := e.buf;
      && Goes(e, Encode([], [row, col], CUP), Min(if col == 0 then 1 else col, b.cols) - 1, Min(if row == 0 then 1 else row, b.rows) - 1)
      && Same(e, Encode([], [row, 1], CUP), Encode([], [row], CUP))
  {
    SameMove(e, [row, 1], CUP, [row], CUP);
    assert MoveCursor(e.buf, CUP, [row, col]) ==
      e.buf.(x := Min(if col == 0 then 1 else col, e.buf.cols) - 1, y := Min(if row == 0 then 1 else row, e.buf.rows) - 1);
    hide MoveCursor, Encode, Runs, After, Goes;
    MoveText(e, [row, col], CUP);
  }

  /** HVP with two parameters is CUP, and so are HPA and VPA together, in either order. */
  lemma AbsoluteMoves(e: Emu, row: nat, col: nat)
    requires EmuInv(e)
    ensures Same(e, Encode([], [row, col], CUP), Encode([], [row, col], HVP))
    ensures Same(e, Encode([], [row, col], CUP), Key(col, HPA) + Key(row, VPA))
    ensures Same(e, Encode([], [row, col], CUP), Key(row, VPA) + Key(col, HPA))
  {
    SameMove(e, [row, col], CUP, [row, col], HVP);
    SameAsTwo(e, [row, col], CUP, [col], HPA, [row], VPA);
    SameAsTwo(e, [row, col], CUP, [row], VPA, [col], HPA);
  }

  /** CHA is HPA for every column on the screen; one column further it leaves the cursor
      waiting to wrap, where HPA stays in the last column, and beyond that it is not
      admissible. */
  lemma ColumnMoves(e: Emu, col: nat)
    requires EmuInv(e)
    ensures Runs(e, Ground, Key(col, CHA)) <==> col <= e.buf.cols + 1
    ensures col <= e.buf.cols ==> Same(e, Key(col, HPA), Key(col, CHA))
    ensures col == e.buf.cols + 1 ==> Goes(e, Key(col, CHA), e.buf.cols, e.buf.y) && Goes(e, Key(col, HPA), e.buf.cols - 1, e.buf.y)
  {
    ReadsCsi([], [col], CHA);
    OneGives(e, Key(col, CHA), Csi(CHA, [col], []));
    if col <= e.buf.cols { SameMove(e, [col], HPA, [col], CHA); }
    hide Encode, Runs, After;
    if col == e.buf.cols + 1 {
      MoveText(e, [col], CHA);
      MoveText(e, [col], HPA);
    }
  }

  /** x is the k-th stop right of the cursor, or the last column when there are fewer. */
  ghost predicate NthRight(b: Buf, k: nat, x: int) {
    if |Between(b.tabs, b.x, b.cols)| >= k
    then x in b.tabs && b.x < x < b.cols && |Between(b.tabs, b.x, x + 1)| == k
    else x == b.cols - 1
  }

  ghost predicate NthLeft(b: Buf, k: nat, x: int) {
    if |Between(b.tabs, 0, b.x)| >= k
    then x in b.tabs && 0 < x < b.x && |Between(b.tabs, x - 1, b.x)| == k
    else x == 0
  }

  lemma TabColumns(b: Buf, n: nat)
    requires Inv(b)
    ensures var k := if n == 0 then 1 else n;
      && MoveCursor(b, CHT, [n]).y == b.y && NthRight(b, k, MoveCursor(b, CHT, [n]).x)
      && MoveCursor(b, CBT, [n]).y == b.y && NthLeft(b, k, MoveCursor(b, CBT, [n]).x)
  {
    hide Between;
    var k := if n == 0 then 1 else n;
    ForwardReachesNth(b.tabs, b.cols, b.x, k);
    BackwardReachesNth(b.tabs, b.cols, b.x, k);
  }

  /** CHT n goes to the n-th stop to the right or the last column, CBT n to the n-th to
      the left or column 0; the row stays. */
  lemma TabMoves(e: Emu, n: nat)
    requires EmuInv(e)
    ensures var b, k := e.buf, if n == 0 then 1 else n;
      && (exists x :: Goes(e, Key(n, CHT), x, b.y) && NthRight(b, k, x))
      && (exists x :: Goes(e, Key(n, CBT), x, b.y) && NthLeft(b, k, x))
  {
    hide *;
    InvHolds(e);
    TabColumns(e.buf, n);
    KeyIs(n);
    TabsAreMoves();
    MoveText(e, [n], CHT);
    MoveText(e, [n], CBT);
    assert Goes(e, Key(n, CHT), MoveCursor(e.buf, CHT, [n]).x, e.buf.y);
    assert Goes(e, Key(n, CBT), MoveCursor(e.buf, CBT, [n]).x, e.buf.y);
  }

  lemma TabsAreMoves()
    ensures IsMove(CHT) && IsMove(CBT) && CHT != CHA && CHT != HVP && CBT != CHA && CBT != HVP
  {
  }
}
