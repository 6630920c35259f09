/** The row a printed character leaves behind, cell by cell, for every width, with and
    without insert mode. */
module Printing {
  import opened Sequences
  import opened Buffer
  import opened Emulator
  import opened Parser
  import opened Widths
  import opened Replays
  import opened Texts
  import opened Controls

  /** What insert mode makes of cell i of the old line before it moves: a wide character
      whose second half falls off the line is blanked. Cells fall off for each of the w
      columns; the second move looks one cell further left, if the cursor is not there. */
  predicate Halved(line: Line, x: int, cols: int, w: nat, i: int)
    requires 1 <= cols <= |line|
  {
    || (i == cols - 2 && 0 <= i && line[i].width == 2 && line[|line| - 1].width == 0)
    || (w == 2 && i == cols - 3 && x <= i && 0 <= i && line[i].width == 2 && line[|line| - 2].width == 0)
  }

  /** The character stands at x with an empty half behind it if it is wide. Without insert
      mode nothing else changes; with it the cells from x on have moved right by the
      width, those that fell off the end are gone, and halved characters are blank. */
  ghost predicate RowAfter(line: Line, row: Line, x: int, cols: int, insert: bool, attr: nat, ch: Text, w: nat)
    requires 1 <= cols <= |line| && 0 <= x && w <= 2
  {
    && |row| == |line|
    && forall i {:trigger row[i]} :: 0 <= i < |row| ==>
         row[i] == (if i == x then Cell(attr, ch, w)
                    else if w == 2 && i == x + 1 then Cell(attr, [], 0)
                    else if !insert || w == 0 then line[i]
                    else
                      var from := if i < x then i else i - w;
                      if Halved(line, x, cols, w, from) then Blank(attr) else line[from])
  }

  lemma ShovedCells(line: Line, x: int, cols: int, attr: nat)
    requires 1 <= cols <= |line| && 0 <= x < |line|
    ensures var r := Shove(line, x, cols, attr);
      forall i {:trigger r[i]} :: 0 <= i < |line| ==>
        r[i] == (if i == x then Blank(attr)
                 else
                   var from := if i < x then i else i - 1;
                   if Halved(line, x, cols, 1, from) then Blank(attr) else line[from])
  {
  }

  /** Both moves of a wide character. */
  lemma ShovedTwice(line: Line, x: int, cols: int, attr: nat)
    requires 1 <= cols <= |line| && 0 <= x && x + 2 <= cols
    ensures var r := Shove(Shove(line, x, cols, attr), x, cols, attr);
      forall i {:trigger r[i]} :: 0 <= i < |line| && i != x && i != x + 1 ==>
        r[i] == (var from := if i < x then i else i - 2;
                 if Halved(line, x, cols, 2, from) then Blank(attr) else line[from])
  {
    hide Shove;
    var once := Shove(line, x, cols, attr);
    ShovedCells(line, x, cols, attr);
    ShovedCells(once, x, cols, attr);
  }

  /** The row once the cells have moved: the character and its empty half are written. */
  lemma WrittenCells(line: Line, moved: Line, x: int, cols: int, insert: bool, attr: nat, ch: Text, w: nat)
    requires 1 <= cols <= |line| && 0 <= x < cols && w <= 2 && x + w <= cols
    requires moved == if !insert || w == 0 then line
                      else if w == 1 then Shove(line, x, cols, attr)
                      else Shove(Shove(line, x, cols, attr), x, cols, attr)
    ensures var placed := moved[x := Cell(attr, ch, w)];
      RowAfter(line, if w == 2 then Fill(placed, x + 1, x + 2, Cell(attr, [], 0)) else placed, x, cols, insert, attr, ch, w)
  {
    hide Shove, Halved, Fill;
    if insert && w == 1 { ShovedCells(line, x, cols, attr); }
    if insert && w == 2 { ShovedTwice(line, x, cols, attr); }
    FilledElements(moved[x := Cell(attr, ch, w)], x + 1, x + 2, Cell(attr, [], 0));
  }

  /** A character that fits. */
  lemma PlacedRow(b: Buf, insert: bool, attr: nat, ch: Text, w: nat)
    requires Inv(b) && w <= 2 && b.x < b.cols && b.x + w <= b.cols
    ensures var r := Place(b, insert, attr, ch, w);
      && r == b.(screen := b.screen[b.y := r.screen[b.y]], x := b.x + Max(w, 1))
      && RowAfter(b.screen[b.y], r.screen[b.y], b.x, b.cols, insert, attr, ch, w)
  {
    hide Shove, RowAfter, Fill;
    var line := b.screen[b.y];
    var once := if insert && w >= 1 then Shove(line, b.x, b.cols, attr) else line;
    var moved := if insert && w == 2 then Shove(once, b.x, b.cols, attr) else once;
    WrittenCells(line, moved, b.x, b.cols, insert, attr, ch, w);
  }

  // ---- Where it goes -----------------------------------------------------------------------------

  /** The buffer a character is placed on: where the cursor is, a line down in column 0, or
      in the last column when there is no wrapping. */
  function Spot(b: Buf, scrollback: nat, wrap: bool, w: nat): (s: Buf)
    requires Inv(b) && scrollback != 1
    ensures Inv(s)
  {
    if b.x + w <= b.cols then b else if wrap then Index(b.(x := 0), scrollback) else b.(x := b.cols - 1)
  }

  /** The character has room where the cursor is, or finds it on the next line. */
  predicate HasRoom(b: Buf, wrap: bool, w: nat) { b.x + w <= b.cols || (if wrap then w <= b.cols else w == 1) }

  /** Any character but a mark behind another one: it wraps if there is no room for it,
      and leaves its row as described, the cursor behind it. */
  lemma PutCharacter(b: Buf, scrollback: nat, wrap: bool, insert: bool, attr: nat, ch: Text, w: nat)
    requires Inv(b) && scrollback != 1 && w <= 2 && (w == 0 ==> b.x == 0) && HasRoom(b, wrap, w)
    ensures var s, r := Spot(b, scrollback, wrap, w), Put(b, scrollback, wrap, insert, attr, ch, w);
      && (b.x + w > b.cols && wrap ==> LineFed(b, s, 0, scrollback))
      && r == s.(screen := s.screen[s.y := r.screen[s.y]], x := s.x + Max(w, 1))
      && RowAfter(s.screen[s.y], r.screen[s.y], s.x, s.cols, insert, attr, ch, w)
  {
    hide Index, Place, RowAfter, LineFed;
    var s := Spot(b, scrollback, wrap, w);
    IndexFeeds(b, 0, scrollback);
    IndexColumns(b.(x := 0), scrollback);
    PlacedRow(s, insert, attr, ch, w);
  }

  lemma IndexColumns(b: Buf, scrollback: nat)
    requires Inv(b) && scrollback != 1
    ensures var r := Index(b, scrollback); Inv(r) && r.x == b.x && r.cols == b.cols
  {
    hide ScrolledHistory, ShiftUp;
  }

  /** A wide character without room and without wrapping is not shown at all. */
  lemma PutSticks(b: Buf, scrollback: nat, insert: bool, attr: nat, ch: Text)
    requires Inv(b) && scrollback != 1 && b.x + 2 > b.cols
    ensures Put(b, scrollback, false, insert, attr, ch, 2) == b.(x := b.cols - 1)
  {
  }

  /** A combining mark joins the character it follows, wide or narrow, and changes nothing
      else. */
  lemma MarkJoins(b: Buf, scrollback: nat, wrap: bool, insert: bool, attr: nat, ch: Text, w: nat, mark: Text)
    requires Inv(b) && scrollback != 1 && 1 <= w <= 2 && HasRoom(b, wrap, w)
    ensures var m := Put(b, scrollback, wrap, insert, attr, ch, w);
      && Inv(m) && w <= m.x
      && Put(m, scrollback, wrap, insert, attr, mark, 0) ==
         m.(screen := m.screen[m.y := m.screen[m.y][m.x - w := Cell(attr, ch + mark, w)]])
  {
    hide Index, Place, Halved, LineFed, Inv;
    PutCharacter(b, scrollback, wrap, insert, attr, ch, w);
    SpotFits(b, scrollback, wrap, w);
  }

  lemma SpotFits(b: Buf, scrollback: nat, wrap: bool, w: nat)
    requires Inv(b) && scrollback != 1 && 1 <= w <= 2 && HasRoom(b, wrap, w)
    ensures var s := Spot(b, scrollback, wrap, w);
      0 <= s.x && s.x + w <= s.cols <= |s.screen[s.y]| && 0 <= s.y < |s.screen|
  {
    hide Index;
    IndexColumns(b.(x := 0), scrollback);
  }

  // ---- As a text -----------------------------------------------------------------------------------

  /** One character of width w: a unit, or a surrogate pair. */
  predicate IsChar(ch: Text, w: nat) {
    || (|ch| == 1 && ch[0] >= 32 && IsPlain(ch[0]) && Width(ch[0]) == w)
    || (|ch| == 2 && IsHigh(ch[0]) && IsLow(ch[1]) && Width(Combined(ch[0], ch[1])) == w)
  }

  lemma ReadsChar(ch: Text, w: nat)
    requires IsChar(ch, w)
    ensures Reads(ch, [Print(ch, w)])
  {
    hide Width;
    if |ch| == 1 {
      assert ch == [ch[0]];
      ReadsUnit(ch[0], [Print(ch, w)]);
    } else {
      var low := ch[1..];
      assert ch[..2] == ch && low == [ch[1]];
      assert Next(Ground, ch) == Reaction(Ground, [Print(ch, w)], 1);
      assert Scan(Ground, low, 0) == Scanned(Ground, [], [], false) by { LowIsPassed(low); }
      assert Scan(Ground, ch, 0) == Prepend([Print(ch, w)], Scan(Ground, low, 0));
      assert [Print(ch, w)] + [] == [Print(ch, w)];
    }
  }

  lemma LowIsPassed(low: Text)
    requires |low| == 1 && IsLow(low[0])
    ensures Scan(Ground, low, 0) == Scanned(Ground, [], [], false)
  {
    assert low[1..] == [] && Next(Ground, low) == Reaction(Ground, [], 1);
    PrependNothing(Scan(Ground, [], 0));
  }

  /** A character as a text, drawn in the current set and in the current pen. */
  lemma CharacterText(e: Emu, ch: Text, w: nat)
    requires EmuInv(e) && IsChar(ch, w)
    ensures Runs(e, Ground, ch) <==> !(w == 2 && e.buf.cols == 1 && e.wrap)
    ensures Runs(e, Ground, ch) ==>
      After(e, Ground, ch) ==
        e.(buf := Put(e.buf, e.cfg.scrollback, e.wrap, e.insert, e.attr, Translate(e.charsets.current, ch), w))
  {
    ReadsChar(ch, w);
    hide Put, Scan, Runs, After, Width;
    OneGives(e, ch, Print(ch, w));
    Given(e, ch);
  }
}
