/** Writing with autowrap off: the line fills up and its last column is overwritten. */
module Sticking {
  import opened Sequences
  import opened Widths
  import opened Buffer
  import opened Emulator
  import opened Parser
  import opened Replays
  import opened Texts
  import opened Printing
  import opened Autowrap

  /** The row after the text was typed from column x: its characters one after another,
      but in the last column the last of those that came so far. */
  ghost predicate Stuck(line: Line, row: Line, x: int, cols: int, attr: nat, data: Text)
    requires 0 <= x <= cols <= |line| && 1 <= cols
  {
    var last := Min(x + |data| - 1, cols - 1);
    && |row| == |line|
    && forall i {:trigger row[i]} :: 0 <= i < |line| ==>
         row[i] == (if data != [] && i == last then Cell(attr, [data[|data| - 1]], 1)
                    else if x <= i < last then Cell(attr, [data[i - x]], 1)
                    else line[i])
  }

  /** b with that row, the cursor behind it. */
  ghost predicate StuckIn(b: Buf, r: Buf, attr: nat, data: Text)
    requires Inv(b)
  {
    && r == b.(screen := r.screen, x := Min(b.x + |data|, b.cols))
    && |r.screen| == |b.screen| && r.screen == b.screen[b.y := r.screen[b.y]]
    && Stuck(b.screen[b.y], r.screen[b.y], b.x, b.cols, attr, data)
  }

  lemma StuckOne(b: Buf, m: Buf, scrollback: nat, attr: nat, data: Text, u: CodeUnit)
    requires Inv(b) && Inv(m) && scrollback != 1 && StuckIn(b, m, attr, data)
    ensures Inv(m) && StuckIn(b, Put(m, scrollback, false, false, attr, [u], 1), attr, data + [u])
  {
    hide Index, Place;
    var s := Spot(m, scrollback, false, 1);
    PutCharacter(m, scrollback, false, false, attr, [u], 1);
    var r := Put(m, scrollback, false, false, attr, [u], 1);
    assert s.y == b.y && s.x == Min(b.x + |data|, b.cols - 1);
    StuckCells(b.screen[b.y], m.screen[b.y], r.screen[b.y], b.x, b.cols, attr, data, u);
    assert r.screen == b.screen[b.y := r.screen[b.y]];
  }

  lemma StuckCells(line: Line, before: Line, row: Line, x: int, cols: int, attr: nat, data: Text, u: CodeUnit)
    requires 0 <= x <= cols <= |line| && 1 <= cols && Stuck(line, before, x, cols, attr, data)
    requires RowAfter(before, row, Min(x + |data|, cols - 1), cols, false, attr, [u], 1)
    ensures Stuck(line, row, x, cols, attr, data + [u])
  {
    hide Halved;
    var more := data + [u];
    assert |more| == |data| + 1 && more[|data|] == u;
    assert forall i {:trigger more[i]} :: 0 <= i < |data| ==> more[i] == data[i];
  }

  /** With autowrap and insert mode off printable text stays on its line, whatever its
      length: nothing scrolls, and what does not fit ends up in the last column. */
  lemma {:induction false} StickingText(e: Emu, data: Text)
    requires EmuInv(e) && !e.wrap && !e.insert && e.charsets.current == Plain && Printable(data)
    ensures exists cmds :: Reads(data, cmds)
    ensures Runs(e, Ground, data) && Inv(e.buf)
    ensures var r := After(e, Ground, data); r == e.(buf := r.buf) && StuckIn(e.buf, r.buf, e.attr, data)
    decreases |data|
  {
    hide Runs, After, Reads, Put, EmuInv, StuckIn, Width;
    Buffers(e);
    if data == [] {
      ReadsNothing();
      assert Reads(data, []);
      NothingGives(e, data);
      Given(e, data);
      NothingSticks(e.buf, e.attr);
    } else {
      var n := |data| - 1;
      StickingText(e, data[..n]);
      var m := After(e, Ground, data[..n]);
      var cmds :| Reads(data[..n], cmds);
      AfterIsInv(e, data[..n]);
      Buffers(m);
      AsciiIsNarrow(data[n]);
      ReadsChar([data[n]], 1);
      CharacterText(m, [data[n]], 1);
      StuckOne(e.buf, m.buf, e.cfg.scrollback, e.attr, data[..n], data[n]);
      assert data == data[..n] + [data[n]];
      ReadsBoth(data[..n], cmds, [data[n]], [Print([data[n]], 1)]);
      assert Reads(data, cmds + [Print([data[n]], 1)]);
      BothGive(e, data[..n], cmds, [data[n]], [Print([data[n]], 1)]);
      Given(e, data);
    }
  }

  lemma Buffers(e: Emu)
    requires EmuInv(e)
    ensures Inv(e.buf) && e.cfg.scrollback != 1
  {
  }

  lemma AfterIsInv(e: Emu, data: Text)
    requires EmuInv(e) && Runs(e, Ground, data)
    ensures EmuInv(After(e, Ground, data))
  {
  }

  lemma NothingSticks(b: Buf, attr: nat)
    requires Inv(b)
    ensures StuckIn(b, b, attr, [])
  {
    assert b.screen == b.screen[b.y := b.screen[b.y]];
  }
}
