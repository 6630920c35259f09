/** The two queues between the terminal and its peer: what the terminal sends, held
    back by a millisecond, and what a buffered socket receives, held back by ten. */
module Queues {
  import opened Sequences
  import opened Emulator
  import opened Parser
  import opened Display
  import opened Chunks

  // ---- Sending ------------------------------------------------------------------------

  /** Data waiting, timers set and not yet fired, and what the handler was given. */
  datatype Outbox = Outbox(queue: Text, timers: nat, delivered: seq<Text>)

  const EMPTY_OUTBOX := Outbox([], 0, [])

  datatype OutEvent = Sends(data: Text) | SendTimer | FullyReset

  predicate CanHappen(o: Outbox, ev: OutEvent) { ev.SendTimer? ==> o.timers > 0 }

  /** A reset runs the constructor, which empties the queue but leaves its timer. */
  function OutboxAfter(o: Outbox, ev: OutEvent): Outbox
    requires CanHappen(o, ev)
  {
    match ev
    case Sends(data) => o.(queue := o.queue + data, timers := if o.queue == [] then o.timers + 1 else o.timers)
    case SendTimer => Outbox([], o.timers - 1, o.delivered + [o.queue])
    case FullyReset => o.(queue := [])
  }

  ghost predicate OutboxRun(o: Outbox, events: seq<OutEvent>, r: Outbox)
    decreases |events|
  {
    if events == [] then r == o
    else CanHappen(o, events[0]) && OutboxRun(OutboxAfter(o, events[0]), events[1..], r)
  }

  function SentBy(events: seq<OutEvent>): Text {
    if events == [] then []
    else (if events[0].Sends? then events[0].data else []) + SentBy(events[1..])
  }

  /** Without a reset nothing is lost, doubled or reordered: what was delivered, and
      behind it what is waiting, is everything that was sent. A reset then loses
      something if and only if something is waiting. */
  lemma {:induction false} SendDeliversInOrder(o: Outbox, events: seq<OutEvent>, r: Outbox)
    requires OutboxRun(o, events, r) && FullyReset !in events
    ensures Concat(r.delivered) + r.queue == Concat(o.delivered) + o.queue + SentBy(events)
    ensures var w := OutboxAfter(r, FullyReset);
      Concat(w.delivered) + w.queue == Concat(o.delivered) + o.queue + SentBy(events) <==> r.queue == []
    decreases |events|
  {
    if events != [] {
      var next := OutboxAfter(o, events[0]);
      SendDeliversInOrder(next, events[1..], r);
      match events[0]
      case Sends(data) =>
        assert Concat(o.delivered) + (o.queue + data) + SentBy(events[1..]) ==
               Concat(o.delivered) + o.queue + (data + SentBy(events[1..]));
      case SendTimer => ConcatOne(o.delivered, o.queue);
    }
  }

  ghost predicate Armed(o: Outbox) { o.queue != [] ==> o.timers > 0 }

  /** Nothing ever waits without a timer, so letting the timers fire delivers it. */
  lemma {:induction false} NothingIsStranded(o: Outbox, events: seq<OutEvent>, r: Outbox)
    requires Armed(o) && OutboxRun(o, events, r)
    ensures Armed(r) && (r.queue != [] ==> CanHappen(r, SendTimer) && OutboxAfter(r, SendTimer).queue == [])
    decreases |events|
  {
    if events != [] { NothingIsStranded(OutboxAfter(o, events[0]), events[1..], r); }
  }

  /** A timer too many: one per empty datum sent, or queue wiped, while nothing else
      was waiting for it. */
  function Surplus(o: Outbox): int { o.timers - if o.queue == [] then 0 else 1 }

  /** What makes a timer fire for nothing. */
  predicate Wasteful(o: Outbox, ev: OutEvent) {
    match ev
    case Sends(data) => o.queue == [] && data == []
    case SendTimer => false
    case FullyReset => o.queue != []
  }

  /** A timer is pending if and only if something waits, and then exactly one, for as
      long as nothing wasteful happens; and one wasteful event ends that. */
  lemma TimerIffWaiting(o: Outbox, ev: OutEvent)
    requires CanHappen(o, ev) && Surplus(o) == 0
    ensures Surplus(OutboxAfter(o, ev)) == 0 <==> !Wasteful(o, ev)
    ensures Surplus(OutboxAfter(o, ev)) == 0 ==> (OutboxAfter(o, ev).timers == if OutboxAfter(o, ev).queue == [] then 0 else 1)
  {
  }

  ghost predicate Thrifty(o: Outbox, events: seq<OutEvent>)
    decreases |events|
  {
    events == [] || !CanHappen(o, events[0])
    || (!Wasteful(o, events[0]) && Thrifty(OutboxAfter(o, events[0]), events[1..]))
  }

  lemma {:induction false} TimersFollowQueue(o: Outbox, events: seq<OutEvent>, r: Outbox)
    requires Surplus(o) == 0 && OutboxRun(o, events, r) && Thrifty(o, events)
    ensures r.timers == if r.queue == [] then 0 else 1
    decreases |events|
  {
    if events != [] {
      TimerIffWaiting(o, events[0]);
      TimersFollowQueue(OutboxAfter(o, events[0]), events[1..], r);
    }
  }

  class Sender {
    var queue: Text
    var timers: nat
    var delivered: seq<Text>

    function Value(): Outbox
      reads this
    {
      Outbox(queue, timers, delivered)
    }

    constructor ()
      ensures Value() == EMPTY_OUTBOX
    {
      queue, timers, delivered := [], 0, [];
    }

    /** `send`: the first datum sets up the timer. */
    method Send(data: Text)
      modifies this
      ensures Value() == OutboxAfter(old(Value()), Sends(data))
    {
      if queue == [] { timers := timers + 1; }
      queue := queue + data;
    }

    /** The timer hands everything over at once. */
    method Fire()
      requires timers > 0
      modifies this
      ensures Value() == OutboxAfter(old(Value()), SendTimer)
    {
      timers := timers - 1;
      delivered := delivered + [queue];
      queue := [];
    }
  }

  // ---- Receiving, buffered ----------------------------------------------------------------

  /** The socket buffer (null, or a string), flush timers set and not yet fired, what
      was written to the terminal, and whether a flush found null and threw. */
  datatype Inbox = Inbox(buffer: Option<Text>, timers: nat, written: seq<Text>, failed: bool)

  const EMPTY_INBOX := Inbox(None, 0, [], false)

  datatype InEvent = Message(data: Text) | FlushTimer

  predicate CanOccur(b: Inbox, ev: InEvent) { !b.failed && (ev.FlushTimer? ==> b.timers > 0) }

  /** An empty string is as good as no buffer to `_pushToBuffer`, but not to `_flushBuffer`. */
  function Handled(b: Inbox, ev: InEvent): Inbox
    requires CanOccur(b, ev)
  {
    match ev
    case Message(data) =>
      if b.buffer.Some? && b.buffer.value != [] then b.(buffer := Some(b.buffer.value + data))
      else b.(buffer := Some(data), timers := b.timers + 1)
    case FlushTimer =>
      if b.buffer.None? then b.(failed := true, timers := b.timers - 1)
      else Inbox(None, b.timers - 1, b.written + [b.buffer.value], false)
  }

  ghost predicate InboxRun(b: Inbox, events: seq<InEvent>, r: Inbox)
    decreases |events|
  {
    if events == [] then r == b
    else CanOccur(b, events[0]) && InboxRun(Handled(b, events[0]), events[1..], r)
  }

  lemma {:induction false} InboxRunBack(b: Inbox, events: seq<InEvent>, ev: InEvent, r: Inbox)
    requires InboxRun(b, events + [ev], r)
    ensures exists m :: InboxRun(b, events, m) && CanOccur(m, ev) && Handled(m, ev) == r
    decreases |events|
  {
    var all := events + [ev];
    if events == [] {
      assert all[1..] == [];
      assert InboxRun(b, events, b);
    } else {
      assert all[1..] == events[1..] + [ev];
      InboxRunBack(Handled(b, events[0]), events[1..], ev, r);
      var m :| InboxRun(Handled(b, events[0]), events[1..], m) && CanOccur(m, ev) && Handled(m, ev) == r;
      assert InboxRun(b, events, m);
    }
  }

  function Messages(events: seq<InEvent>): seq<Text> {
    if events == [] then []
    else With(Messages(events[..|events| - 1]), events[|events| - 1])
  }

  function Waiting(b: Inbox): Text { if b.buffer.Some? then b.buffer.value else [] }

  /** The first k writes end where the first j messages do, for some j that leaves a
      message at least to each of the other writes and to the one that waits. */
  ghost predicate EndsAt(b: Inbox, messages: seq<Text>, k: nat, j: nat)
    requires k <= |b.written|
  {
    && j + (|b.written| - k) + (if b.buffer.Some? then 1 else 0) <= |messages|
    && Concat(b.written[..k]) == Concat(messages[..j])
  }

  ghost predicate EndsSomewhere(b: Inbox, messages: seq<Text>, k: nat)
    requires k <= |b.written|
  {
    exists j: nat :: EndsAt(b, messages, k, j)
  }

  ghost predicate EndsBetween(b: Inbox, messages: seq<Text>) {
    forall k: nat :: k <= |b.written| ==> EndsSomewhere(b, messages, k)
  }

  /** Buffering regroups the messages and does nothing else: what was written and what
      waits behind it is the concatenation of the messages, and every write ends
      between two messages. */
  lemma {:induction false} BufferRegroups(events: seq<InEvent>, r: Inbox)
    requires InboxRun(EMPTY_INBOX, events, r)
    ensures Concat(r.written) + Waiting(r) == Concat(Messages(events))
    ensures EndsBetween(r, Messages(events))
    decreases |events|
  {
    if events == [] {
      assert EndsAt(r, Messages(events), 0, 0);
    } else {
      var ev, init := events[|events| - 1], events[..|events| - 1];
      assert events == init + [ev];
      InboxRunBack(EMPTY_INBOX, init, ev, r);
      var m :| InboxRun(EMPTY_INBOX, init, m) && CanOccur(m, ev) && Handled(m, ev) == r;
      BufferRegroups(init, m);
      RegroupStep(m, ev, Messages(init));
    }
  }

  function With(before: seq<Text>, ev: InEvent): seq<Text> { before + if ev.Message? then [ev.data] else [] }

  lemma RegroupStep(m: Inbox, ev: InEvent, before: seq<Text>)
    requires CanOccur(m, ev) && Concat(m.written) + Waiting(m) == Concat(before) && EndsBetween(m, before)
    ensures Concat(Handled(m, ev).written) + Waiting(Handled(m, ev)) == Concat(With(before, ev))
    ensures EndsBetween(Handled(m, ev), With(before, ev))
  {
    hide EndsBetween;
    RegroupText(m, ev, before);
    RegroupEnds(m, ev, before);
  }

  lemma RegroupText(m: Inbox, ev: InEvent, before: seq<Text>)
    requires CanOccur(m, ev) && Concat(m.written) + Waiting(m) == Concat(before)
    ensures Concat(Handled(m, ev).written) + Waiting(Handled(m, ev)) == Concat(With(before, ev))
  {
    hide Concat;
    var r := Handled(m, ev);
    if ev.Message? {
      ConcatOne(before, ev.data);
      assert Concat(m.written) + (Waiting(m) + ev.data) == Concat(m.written) + Waiting(m) + ev.data;
    } else {
      assert With(before, ev) == before;
      if m.buffer.Some? {
        ConcatOne(m.written, m.buffer.value);
        assert Concat(r.written) + [] == Concat(m.written) + Waiting(m);
      }
    }
  }

  lemma RegroupEnds(m: Inbox, ev: InEvent, before: seq<Text>)
    requires CanOccur(m, ev) && EndsBetween(m, before)
    requires Concat(Handled(m, ev).written) + Waiting(Handled(m, ev)) == Concat(With(before, ev))
    ensures EndsBetween(Handled(m, ev), With(before, ev))
  {
    hide Concat;
    var r, after := Handled(m, ev), With(before, ev);
    forall k: nat | k <= |r.written| ensures EndsSomewhere(r, after, k) {
      if k <= |m.written| {
        assert EndsSomewhere(m, before, k);
        var j: nat :| EndsAt(m, before, k, j);
        assert r.written[..k] == m.written[..k] && after[..j] == before[..j];
        assert EndsAt(r, after, k, j);
      } else {
        assert r.written[..k] == r.written && after[..|after|] == after;
        assert Concat(r.written) + [] == Concat(r.written);
        assert EndsAt(r, after, k, |after|);
      }
    }
  }

  /** Timers beyond the one a buffer needs. */
  function Extra(b: Inbox): int { b.timers - if b.buffer.Some? then 1 else 0 }

  /** A message that arrives right behind an empty one. */
  predicate BehindEmpty(b: Inbox, ev: InEvent) { ev.Message? && b.buffer == Some([]) }

  /** Letting all the timers fire. */
  function Flushed(b: Inbox): Inbox
    decreases b.timers
  {
    if b.failed || b.timers == 0 then b else Flushed(Handled(b, FlushTimer))
  }

  function Unlucky(b: Inbox, events: seq<InEvent>): nat
    decreases |events|
  {
    if events == [] || !CanOccur(b, events[0]) then 0
    else (if BehindEmpty(b, events[0]) then 1 else 0) + Unlucky(Handled(b, events[0]), events[1..])
  }

  /** Each message that arrives right behind an empty one sets up a timer too many, and
      nothing else does. */
  lemma {:induction false} ExtraTimers(b: Inbox, events: seq<InEvent>, r: Inbox)
    requires InboxRun(b, events, r) && !r.failed
    ensures Extra(r) == Extra(b) + Unlucky(b, events)
    decreases |events|
  {
    if events != [] {
      var next := Handled(b, events[0]);
      if next.failed { StaysFailed(next, events[1..], r); }
      ExtraTimers(next, events[1..], r);
    }
  }

  lemma {:induction false} StaysFailed(b: Inbox, events: seq<InEvent>, r: Inbox)
    requires b.failed && InboxRun(b, events, r)
    ensures r.failed
    decreases |events|
  {
  }

  /** Letting the timers fire after any run that has not failed yet writes everything
      and never fails, if and only if no message came right behind an empty one. */
  lemma BufferFailsIffUnlucky(events: seq<InEvent>, r: Inbox)
    requires InboxRun(EMPTY_INBOX, events, r) && !r.failed
    ensures !Flushed(r).failed <==> Unlucky(EMPTY_INBOX, events) == 0
    ensures !Flushed(r).failed ==> Concat(Flushed(r).written) == Concat(Messages(events))
  {
    ExtraTimers(EMPTY_INBOX, events, r);
    BufferRegroups(events, r);
    if r.timers > 0 {
      var f := Handled(r, FlushTimer);
      if r.buffer.Some? { ConcatOne(r.written, r.buffer.value); }
      assert Flushed(r) == Flushed(f);
      if f.timers > 0 && !f.failed { assert Flushed(f) == Flushed(Handled(f, FlushTimer)) == Handled(f, FlushTimer); }
    }
  }

  /** Buffered or not, the terminal ends in the same state: whenever the messages are
      cut cleanly, the chunks that were written do to it what the messages would have
      done one by one. */
  lemma BufferedIsDirect(c: Core, events: seq<InEvent>, r: Inbox)
    requires CoreInv(c) && c.high == [] && CleanCuts(c.mode, Messages(events))
    requires InboxRun(EMPTY_INBOX, events, r) && r.buffer.None? && r.written != []
    ensures FeedAll(c, r.written) == FeedAll(c, Messages(events))
  {
    hide CleanCut, CoreInv, FeedAll, CanFeed, Feed;
    var messages := Messages(events);
    BufferRegroups(events, r);
    assert Concat(r.written) + [] == Concat(r.written);
    assert EndsSomewhere(r, messages, 0);
    var j: nat :| EndsAt(r, messages, 0, j);
    CleanWrites(c.mode, r, messages);
    FeedAllIsFeed(c, messages);
    FeedAllIsFeed(c, r.written);
  }

  lemma CleanWrites(m: Mode, r: Inbox, messages: seq<Text>)
    requires CleanCuts(m, messages) && EndsBetween(r, messages)
    ensures CleanCuts(m, r.written)
  {
    hide CleanCut;
    EmptyCutIsClean(m);
    forall k | 0 < k < |r.written| ensures CleanCut(m, Concat(r.written[..k])) {
      assert EndsSomewhere(r, messages, k);
      var j: nat :| EndsAt(r, messages, k, j);
      if j == 0 { assert messages[..0] == []; }
    }
  }

  lemma EmptyCutIsClean(m: Mode)
    ensures CleanCut(m, [])
  {
  }

  class Receiver {
    var buffer: Option<Text>
    var timers: nat
    var written: seq<Text>
    var failed: bool

    function Value(): Inbox
      reads this
    {
      Inbox(buffer, timers, written, failed)
    }

    constructor ()
      ensures Value() == EMPTY_INBOX
    {
      buffer, timers, written, failed := None, 0, [], false;
    }

    method PushToBuffer(data: Text)
      requires !failed
      modifies this
      ensures Value() == Handled(old(Value()), Message(data))
    {
      if buffer.Some? && buffer.value != [] {
        buffer := Some(buffer.value + data);
      } else {
        buffer := Some(data);
        timers := timers + 1;
      }
    }

    /** Writing null throws before anything is cleared. */
    method FlushBuffer()
      requires !failed && timers > 0
      modifies this
      ensures Value() == Handled(old(Value()), FlushTimer)
    {
      timers := timers - 1;
      if buffer.None? {
        failed := true;
        return;
      }
      written := written + [buffer.value];
      buffer := None;
    }
  }
}
