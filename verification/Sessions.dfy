/** The terminal object driven by events, from the moment it is opened. */
module Sessions {
  import opened Sequences
  import opened Palette
  import opened Emulator
  import Parser
  import opened Refreshing
  import opened Display
  import opened Xterm

  /** Every event of the list is enabled when its turn comes. */
  ghost predicate EnabledAll(s: Sys, events: seq<Event>)
    decreases |events|
  {
    events == [] || (SysInv(s) && Enabled(s, events[0]) && EnabledAll(Happens(s, events[0]), events[1..]))
  }

  /** The state after the whole list. */
  ghost function HappensAll(s: Sys, events: seq<Event>): (t: Sys)
    requires EnabledAll(s, events)
    ensures Display.Reaches(s, events, t)
    decreases |events|
  {
    if events == [] then s else HappensAll(Happens(s, events[0]), events[1..])
  }

  /** One event, handled by the object. */
  method Handle(t: Terminal, ev: Event)
    requires t.Sound() && t.ParserOk() && SysInv(t.System()) && Enabled(t.System(), ev)
    modifies t, t.screen, t.matcher
    ensures t.System() == Happens(old(t.System()), ev) && t.Sound() && t.ParserOk()
  {
    hide *;
    t.SystemParts();
    EnabledCases(t.System(), ev);
    match ev
    case WriteText(data) => t.Write(data);
    case TimerFires => t.RefreshNow();
    case Resized(x, y) => t.ResizeTerminal(x, y);
    case ViewportScrolled(disp) => t.ScrollDisp(disp);
    case CursorShown => t.CursorAppears();
  }

  lemma EnabledCases(s: Sys, ev: Event)
    requires SysInv(s) && Enabled(s, ev)
    ensures ev.WriteText? ==> CanWrite(s, ev.data) && Happens(s, ev) == Write(s, ev.data)
    ensures ev.TimerFires? ==> s.pending.Queued? && Happens(s, ev) == Fire(s)
    ensures ev.Resized? ==> Happens(s, ev) == ResizeSys(s, ev.x, ev.y)
    ensures ev.ViewportScrolled? ==> Happens(s, ev) == ScrollDisp(s, ev.disp)
    ensures ev.CursorShown? ==> Happens(s, ev) == ShowCursor(s)
  {
  }

  /** A terminal is made and opened, and events happen to it in any order they are
      enabled in. Whenever no refresh is pending afterwards, the row elements of the
      object show exactly what its buffer holds. */
  method Serve(cfg: Config, matcher: ColorMatcher, rows: int, cols: int, events: seq<Event>) returns (t: Terminal)
    requires cfg.scrollback != 1 && 1 <= rows && 1 <= cols && matcher.Valid()
    requires EnabledAll(OpenTerminal(cfg, rows, cols), events)
    modifies matcher
    ensures t.System() == HappensAll(OpenTerminal(cfg, rows, cols), events)
    ensures SysInv(t.System()) && (!t.refreshIsQueued ==> UpToDate(t.System()))
  {
    hide *;
    ghost var start := OpenTerminal(cfg, rows, cols);
    t := new Terminal(cfg, matcher, rows, cols);
    t.SystemParts();
    OpenedState(cfg, rows, cols);
    t.Parts();
    t.Open();
    OpenedInv(cfg, rows, cols);
    for k := 0 to |events|
      invariant fresh(t) && fresh(t.screen) && t.matcher == matcher
      invariant t.Sound() && t.ParserOk() && EnabledAll(t.System(), events[k..])
      invariant HappensAll(t.System(), events[k..]) == HappensAll(start, events)
      invariant SysInv(t.System()) && Coherent(t.System())
    {
      assert events[k..][0] == events[k] && events[k..][1..] == events[k + 1..];
      OneHappens(t.System(), events[k..]);
      EventKeepsCoherence(t.System(), events[k]);
      Handle(t, events[k]);
    }
    assert events[|events|..] == [];
    NoneHappens(t.System());
    t.SystemParts();
    Settled(t.System());
  }

  lemma OneHappens(s: Sys, events: seq<Event>)
    requires events != [] && EnabledAll(s, events)
    ensures SysInv(s) && Enabled(s, events[0]) && Possible(s, events[0]) && EnabledAll(Happens(s, events[0]), events[1..])
    ensures HappensAll(s, events) == HappensAll(Happens(s, events[0]), events[1..])
  {
    hide SysInv, Possible, RowsStay, Happens;
  }

  lemma NoneHappens(s: Sys)
    ensures EnabledAll(s, []) && HappensAll(s, []) == s
  {
  }

  lemma Settled(s: Sys)
    requires SysInv(s) && Coherent(s)
    ensures !s.pending.Queued? ==> UpToDate(s)
  {
    hide SysInv, View;
  }

  /** What opening adds to a fresh terminal. */
  lemma OpenedState(cfg: Config, rows: int, cols: int)
    requires cfg.scrollback != 1 && 1 <= rows && 1 <= cols
    ensures Fresh(cfg, rows, cols).buf.rows == rows
    ensures OpenTerminal(cfg, rows, cols) ==
      Sys(Parser.Ground, [], Fresh(cfg, rows, cols), Request(Idle, Range(0, rows - 1)), Copies(rows, []))
  {
  }

  lemma OpenedInv(cfg: Config, rows: int, cols: int)
    requires cfg.scrollback != 1 && 1 <= rows && 1 <= cols
    ensures SysInv(OpenTerminal(cfg, rows, cols)) && Coherent(OpenTerminal(cfg, rows, cols))
  {
    FreshAtBottom(rows, cols);
    hide View;
  }
}
