/** What a text does to the terminal however it is cut into writes. */
module Chunks {
  import opened Sequences
  import opened Emulator
  import opened Parser
  import opened Refreshing
  import opened Display

  /** The terminal without its refresh bookkeeping. */
  datatype Core = Core(mode: Mode, high: Text, emu: Emu)

  function CoreOf(s: Sys): Core { Core(s.mode, s.high, s.emu) }

  ghost predicate CoreInv(c: Core) { EmuInv(c.emu) && SavedAtBottom(c.emu) }

  ghost predicate CanFeed(c: Core, data: Text)
    requires CoreInv(c)
  {
    AdmissibleAll(Begin(c.emu), Read(c.mode, c.high, data).cmds)
  }

  ghost function Feed(c: Core, data: Text): (r: Core)
    requires CoreInv(c) && CanFeed(c, data)
    ensures CoreInv(r) && AtBottom(r.emu)
  {
    var read := Read(c.mode, c.high, data);
    RunStaysAtBottom(Begin(c.emu), read.cmds);
    Core(read.mode, read.high, ExecAll(Begin(c.emu), read.cmds))
  }

  lemma {:induction false} RunStaysAtBottom(e: Emu, cmds: seq<Cmd>)
    requires EmuInv(e) && AllWellFormed(cmds) && AdmissibleAll(e, cmds) && AtBottom(e) && SavedAtBottom(e)
    ensures AtBottom(ExecAll(e, cmds)) && SavedAtBottom(ExecAll(e, cmds))
    decreases |cmds|
  {
    hide Exec, EmuInv, Admissible, AtBottom, SavedAtBottom, Requests;
    if cmds != [] {
      ExecKeepsInvariant(e, cmds[0]);
      RequestsWholeScreen(e, cmds[0]);
      RunStaysAtBottom(Exec(e, cmds[0]), cmds[1..]);
    }
  }

  /** A write is a feed and some bookkeeping. */
  lemma WriteFeeds(s: Sys, data: Text)
    requires SysInv(s) && CanWrite(s, data)
    ensures CanFeed(CoreOf(s), data) && CoreOf(Write(s, data)) == Feed(CoreOf(s), data)
  {
    hide EmuInv, Read, AdmissibleAll;
  }

  /** Two writes do what one does, viewport included, whenever the cut between them is
      clean; and one way is admissible exactly when the other is. */
  lemma FeedsCompose(c: Core, a: Text, b: Text)
    requires CoreInv(c) && c.high == [] && CleanCut(c.mode, a)
    ensures CanFeed(c, a + b) <==> CanFeed(c, a) && CanFeed(Feed(c, a), b)
    ensures CanFeed(c, a + b) ==> Feed(c, a + b) == Feed(Feed(c, a), b)
  {
    hide Scan, ExecAll, AdmissibleAll, EmuInv, Prepend;
    var e := Begin(c.emu);
    ReadsScan(c.mode, a);
    ReadsScan(c.mode, a + b);
    ReadsScan(Scan(c.mode, a, 0).mode, b);
    CleanCutsDoNotMatter(c.mode, a, b);
    var first, second := Scan(c.mode, a, 0), Scan(Scan(c.mode, a, 0).mode, b, 0);
    PrependedParts(first.cmds, second);
    ExecAllComposes(e, first.cmds, second.cmds);
    if AdmissibleAll(e, first.cmds) { AlreadyBegun(Feed(c, a).emu); }
  }

  lemma ReadsScan(m: Mode, data: Text)
    ensures Read(m, [], data) == Scan(m, data, 0)
  {
    assert [] + data == data;
  }

  lemma PrependedParts(cmds: seq<Cmd>, r: Scanned)
    ensures var p := Prepend(cmds, r); p.cmds == cmds + r.cmds && p.mode == r.mode && p.high == r.high
  {
  }

  lemma AlreadyBegun(e: Emu)
    requires EmuInv(e) && AtBottom(e)
    ensures Begin(e) == e
  {
  }

  // ---- Any number of chunks --------------------------------------------------------

  function Concat(chunks: seq<Text>): Text {
    if chunks == [] then [] else Concat(chunks[..|chunks| - 1]) + chunks[|chunks| - 1]
  }

  lemma ConcatOne(chunks: seq<Text>, last: Text)
    ensures Concat(chunks + [last]) == Concat(chunks) + last
  {
    assert (chunks + [last])[..|chunks|] == chunks;
  }

  /** Chunks written one after the other; None when one of them is not admissible. */
  ghost function FeedAll(c: Core, chunks: seq<Text>): (r: Option<Core>)
    requires CoreInv(c)
    ensures r.Some? ==> CoreInv(r.value)
    decreases |chunks|
  {
    if chunks == [] then Some(c)
    else
      match FeedAll(c, chunks[..|chunks| - 1])
      case None => None
      case Some(d) =>
        if CanFeed(d, chunks[|chunks| - 1]) then Some(Feed(d, chunks[|chunks| - 1])) else None
  }

  /** No chunk but the last ends within a character or a skip. */
  ghost predicate CleanCuts(m: Mode, chunks: seq<Text>) {
    forall k {:trigger chunks[..k]} :: 0 < k < |chunks| ==> CleanCut(m, Concat(chunks[..k]))
  }

  /** However many clean cuts there are, the chunks do what the whole text does. */
  lemma {:induction false} FeedAllIsFeed(c: Core, chunks: seq<Text>)
    requires CoreInv(c) && c.high == [] && |chunks| >= 1 && CleanCuts(c.mode, chunks)
    ensures FeedAll(c, chunks) == if CanFeed(c, Concat(chunks)) then Some(Feed(c, Concat(chunks))) else None
    decreases |chunks|
  {
    hide CanFeed, Feed, CoreInv, CleanCut;
    var n := |chunks| - 1;
    var init, last := chunks[..n], chunks[n];
    if n == 0 {
      assert Concat(init) == [] && [] + last == last;
      assert FeedAll(c, init) == Some(c);
    } else {
      forall k | 0 < k < n ensures CleanCut(c.mode, Concat(init[..k])) { assert init[..k] == chunks[..k]; }
      FeedAllIsFeed(c, init);
      FeedsCompose(c, Concat(init), last);
    }
  }
}
