/** The terminal object around the screen: modes and the saved screen, the refresh
    timer, and the loop of `write`. */
module Xterm {
  import opened Sequences
  import opened Buffer
  import opened Loops
  import opened Screens
  import opened Palette
  import opened Attributes
  import opened Widths
  import opened Numerals
  import opened Emulator
  import opened Parser
  import opened Rendering
  import opened Refreshing
  import opened Display
  import opened Reading

  /** The states of the parser. */
  datatype State = Normal | Escaped | InCsi | InOsc | InCharset | InDcs | InIgnored

  /** `currentParam` is a number until it becomes a string. */
  datatype Param = Number(n: nat) | String(t: Text)

  function ParamNumber(p: Param): nat { if p.Number? then p.n else 0 }

  function ParamText(p: Param): Text { if p.String? then p.t else [] }

  class Terminal {
    const cfg: Config
    const matcher: ColorMatcher
    const screen: Screen

    var cursorState: bool
    var cursorHidden: bool
    var savedX: int
    var savedY: int
    var savedCols: Option<int>
    var normal: Option<NormalScreen>
    var glevel: nat
    var charsets: map<nat, Charset>
    var charset: Charset
    var sent: seq<Text>
    var title: Text
    var state: State
    var params: seq<nat>
    var currentParam: Param
    var prefix: Text
    var gcharset: Option<nat>
    var surrogateHigh: Text
    var refreshIsQueued: bool
    var fullRefreshNext: bool
    var timer: Range

    // ---- The state the fields stand for -------------------------------------------

    /** The saved screen, at the size of the current one. */
    ghost function Saved(): Option<Buf>
      reads this, screen
    {
      match normal
      case None => None
      case Some(n) =>
        Some(Buf(screen.rows, screen.cols, Above(n.lines, n.ybase), Below(n.lines, n.ybase), n.ydisp, n.x, n.y,
                 n.scrollTop, n.scrollBottom, n.tabs))
    }

    ghost function State(): Emu
      reads this, screen
    {
      Emu(cfg, screen.Contents(), Saved(), screen.curAttr, screen.insertMode, screen.wraparoundMode, cursorState, cursorHidden,
          savedX, savedY, savedCols, Charsets(glevel, charsets, charset), sent, title)
    }

    ghost function Pend(): Pending
      reads `refreshIsQueued, `timer, `fullRefreshNext
    {
      if refreshIsQueued then Queued(timer.lo, timer.hi, fullRefreshNext) else Idle
    }

    /** The bookkeeping of a write in progress. */
    ghost function Mark(): Note
      reads this, screen
    {
      Note(screen.Span(), Pend())
    }

    ghost function ParserMode(): Mode
      reads `state, `gcharset, `params, `currentParam, `prefix
    {
      match state
      case Normal => Ground
      case Escaped => Escape
      case InCharset => Designating(if gcharset.Some? then gcharset.value else 0)
      case InCsi => Sequence(params, ParamNumber(currentParam), prefix)
      case InOsc =>
        if params == [] then OscCode(ParamNumber(currentParam)) else OscText(params[0], ParamText(currentParam))
      case InDcs => DeviceString(prefix, ParamText(currentParam))
      case InIgnored => Ignoring
    }

    /** All the fields of the parser. */
    ghost function Parsing(): (State, seq<nat>, Param, Text, Option<nat>, Text)
      reads `state, `params, `currentParam, `prefix, `gcharset, `surrogateHigh
    {
      (state, params, currentParam, prefix, gcharset, surrogateHigh)
    }

    /** The kind of `currentParam` goes with the state; the prefix is empty outside
        control sequences and device strings. */
    ghost predicate ParserOk()
      reads `state, `params, `currentParam, `prefix, `gcharset
    {
      match state
      case InCsi => currentParam.Number?
      case InOsc => prefix == [] && |params| <= 1 && (if params == [] then currentParam.Number? else currentParam.String?)
      case InDcs => currentParam.String? || currentParam == Number(0)
      case InCharset => prefix == [] && gcharset.Some?
      case _ => prefix == []
    }

    ghost predicate SavedInBounds()
      reads this
    {
      normal.Some? ==> 0 <= normal.value.ybase <= |normal.value.lines|
    }

    /** What every step keeps besides the invariant of the state. */
    ghost predicate Sound()
      reads this, screen, matcher
    {
      && screen.InBounds() && screen.scrollback == cfg.scrollback && |screen.children| == screen.rows
      && SavedInBounds() && matcher.Valid() && (fullRefreshNext ==> refreshIsQueued)
    }

    /** The definitions above, for proofs that keep them hidden. */
    lemma Parts()
      ensures State() == Emu(cfg, screen.Contents(), Saved(), screen.curAttr, screen.insertMode, screen.wraparoundMode,
        cursorState, cursorHidden, savedX, savedY, savedCols, Charsets(glevel, charsets, charset), sent, title)
      ensures screen.Contents().rows == screen.rows && screen.Contents().cols == screen.cols
      ensures screen.Contents().x == screen.x && screen.Contents().y == screen.y
      ensures normal == None ==> Saved() == None && SavedInBounds()
      ensures normal.Some? ==>
        var n := normal.value;
        && Saved() == Some(Buf(screen.rows, screen.cols, Above(n.lines, n.ybase), Below(n.lines, n.ybase), n.ydisp, n.x, n.y,
                               n.scrollTop, n.scrollBottom, n.tabs))
        && SavedInBounds() == (0 <= n.ybase <= |n.lines|)
      ensures Sound() == (
        && screen.InBounds() && screen.scrollback == cfg.scrollback && |screen.children| == screen.rows
        && SavedInBounds() && matcher.Valid() && (fullRefreshNext ==> refreshIsQueued))
      ensures Mark() == Note(screen.Span(), Pend())
      ensures screen.InBounds() == (0 <= screen.ybase <= |screen.lines|)
      ensures screen.Style() == (screen.curAttr, screen.insertMode, screen.wraparoundMode)
      ensures screen.Contents().tabs == screen.tabs
      ensures screen.Contents().top == screen.scrollTop && screen.Contents().bottom == screen.scrollBottom
    {
    }

    lemma StateFacts()
      requires Sound() && EmuInv(State())
      ensures screen.Ok() && 1 <= screen.rows && 1 <= screen.cols && 0 <= screen.y < screen.rows && screen.curAttr < ATTR_LIMIT
      ensures 0 <= screen.x && 0 <= screen.scrollTop && 0 <= screen.scrollBottom
    {
    }

    constructor (cfg: Config, matcher: ColorMatcher, rows: int, cols: int)
      requires cfg.scrollback != 1 && 1 <= rows && 1 <= cols && matcher.Valid()
      ensures this.cfg == cfg && this.matcher == matcher && fresh(screen)
      ensures State() == Fresh(cfg, rows, cols) && Pend() == Idle
      ensures screen.InBounds() && screen.scrollback == cfg.scrollback && screen.children == []
      ensures SavedInBounds() && matcher.Valid() && !fullRefreshNext
      ensures ParserMode() == Ground && ParserOk() && surrogateHigh == []
    {
      hide FreshBuf, Above, Below;
      this.cfg, this.matcher := cfg, matcher;
      screen := new Screen(cfg.scrollback, rows, cols);
      cursorState, cursorHidden := false, false;
      savedX, savedY, savedCols, normal := 0, 0, None, None;
      glevel, charsets, charset, sent, title := 0, map[0 := Plain], Plain, [], [];
      state, params, currentParam, prefix, gcharset, surrogateHigh := Normal, [], Number(0), [], None, [];
      refreshIsQueued, fullRefreshNext, timer := false, false, Range(0, 0);
    }

    // ---- Refresh requests ------------------------------------------------------------

    /** `refresh(start, end)`: the first request sets up a timer, a second one turns it
        into a refresh of everything. */
    method Refresh(start: int, end: int)
      requires Sound()
      modifies this
      ensures State() == old(State()) && Parsing() == old(Parsing()) && Sound()
      ensures Pend() == Request(old(Pend()), Range(start, end))
    {
      if refreshIsQueued {
        fullRefreshNext := true;
      } else {
        timer := Range(start, end);
        refreshIsQueued := true;
      }
    }

    method ShowCursor()
      requires Sound()
      modifies this
      ensures State() == old(State()).(shown := true) && Parsing() == old(Parsing()) && Sound()
      ensures Pend() == if old(cursorState) then old(Pend()) else Request(old(Pend()), Range(screen.y, screen.y))
    {
      if !cursorState {
        cursorState := true;
        Refresh(screen.y, screen.y);
      }
    }

    // ---- Resizing, resets and modes -----------------------------------------------------

    method Resize(toCols: int, toRows: int)
      requires Sound() && EmuInv(State())
      modifies this, screen
      ensures State() == ResizeTo(old(State()), toCols, toRows) && Parsing() == old(Parsing()) && Sound()
      ensures screen.Span() == old(screen.Span())
      ensures if toCols == old(screen.cols) && toRows == old(screen.rows)
              then Pend() == old(Pend()) && screen.children == old(screen.children)
              else Pend() == Request(old(Pend()), Range(0, screen.rows - 1))
                   && screen.children == FitElements(old(screen.children), Max(toRows, 1))
    {
      hide *;
      StateFacts();
      ResizedState(State(), toCols, toRows);
      Parts();
      if toCols == screen.cols && toRows == screen.rows { return; }
      ResizeScreen(toCols, toRows);
      Refresh(0, screen.rows - 1);
    }

    /** The part of `resize` before the refresh; the saved screen is dropped. */
    method ResizeScreen(toCols: int, toRows: int)
      requires Sound() && EmuInv(State()) && (toCols != screen.cols || toRows != screen.rows)
      modifies this, screen
      ensures State() == old(State()).(buf := Resizing.Resize(old(State()).buf, toCols, toRows), normal := None)
      ensures Parsing() == old(Parsing()) && Sound()
      ensures screen.Span() == old(screen.Span()) && Pend() == old(Pend())
      ensures screen.children == FitElements(old(screen.children), Max(toRows, 1))
    {
      hide *;
      StateFacts();
      Parts();
      screen.Resize(toCols, toRows);
      normal := None;
      Parts();
    }

    method InitializeModes()
      modifies `cursorState, `cursorHidden, `normal, `charset, `glevel, `charsets
      ensures normal == None && !cursorState && !cursorHidden
      ensures Charsets(glevel, charsets, charset) == FRESH_CHARSETS
    {
      cursorState, cursorHidden, normal := false, false, None;
      charset, glevel, charsets := Plain, 0, map[0 := Plain];
    }

    method InitializeParser()
      modifies `state, `gcharset, `params, `currentParam, `prefix, `surrogateHigh
      ensures Parsing() == (Normal, [], Number(0), [], None, [])
    {
      state, gcharset := Normal, None;
      params, currentParam, prefix, surrogateHigh := [], Number(0), [], [];
    }

    /** What the constructor sets, set again. */
    method Initialize()
      requires Sound() && EmuInv(State())
      modifies this, screen
      ensures State() == Emulator.Reset(old(State())) && Parsing() == (Normal, [], Number(0), [], None, []) && Sound()
      ensures screen.Span() == old(screen.Span()) && Pend() == old(Pend()) && screen.children == old(screen.children)
    {
      hide *;
      StateFacts();
      ResetState(State());
      Parts();
      screen.Initialize();
      InitializeModes();
      InitializeParser();
      Parts();
    }

    /** `reset` runs the constructor again. */
    method Reset()
      requires Sound() && EmuInv(State())
      modifies this, screen
      ensures State() == Emulator.Reset(old(State())) && Parsing() == (Normal, [], Number(0), [], None, []) && Sound()
      ensures screen.Span() == old(screen.Span()) && screen.children == old(screen.children)
      ensures Pend() == Request(old(Pend()), WholeScreen(old(State())))
    {
      hide *;
      StateFacts();
      Parts();
      Whole(State());
      Initialize();
      Refresh(0, screen.rows - 1);
    }

    method EnterAlternate()
      requires Sound() && EmuInv(State())
      modifies this, screen
      ensures State() == EnterAlt(old(State())) && Sound()
      ensures screen.Span() == old(screen.Span()) && screen.children == old(screen.children)
      ensures if old(normal).Some? then Pend() == old(Pend()) && Parsing() == old(Parsing())
              else Pend() == RequestAll(old(Pend()), [WholeScreen(old(State())), Range(0, 0)])
                   && Parsing() == (Normal, [], Number(0), [], None, [])
    {
      hide *;
      Parts();
      AltState(State());
      TwoRequests(Pend(), WholeScreen(State()), Range(0, 0));
      if normal.None? {
        var saved := screen.Save();
        SavedIs(saved);
        Reset();
        Keep(saved);
        Parts();
        ShowCursor();
      }
    }

    method Keep(saved: NormalScreen)
      requires Sound() && 0 <= saved.ybase <= |saved.lines|
      modifies `normal
      ensures Sound() && State() == old(State()).(normal := Some(Buf(screen.rows, screen.cols, Above(saved.lines, saved.ybase),
        Below(saved.lines, saved.ybase), saved.ydisp, saved.x, saved.y, saved.scrollTop, saved.scrollBottom, saved.tabs)))
    {
      normal := Some(saved);
    }

    /** What is saved is the screen. */
    lemma SavedIs(n: NormalScreen)
      requires n == NormalScreen(screen.lines, screen.ybase, screen.ydisp, screen.x, screen.y, screen.scrollTop,
        screen.scrollBottom, screen.tabs)
      ensures screen.Contents() == Buf(screen.rows, screen.cols, Above(n.lines, n.ybase), Below(n.lines, n.ybase), n.ydisp,
        n.x, n.y, n.scrollTop, n.scrollBottom, n.tabs)
      ensures screen.InBounds() ==> 0 <= n.ybase <= |n.lines|
    {
    }

    method LeaveAlternate()
      requires Sound() && EmuInv(State())
      modifies this, screen
      ensures State() == LeaveAlt(old(State())) && Sound() && Parsing() == old(Parsing())
      ensures screen.Span() == old(screen.Span()) && screen.children == old(screen.children)
      ensures Pend() == if old(normal).None? then old(Pend()) else RequestAll(old(Pend()),
        [WholeScreen(old(State()))] + if old(cursorState) then [] else [Range(old(normal).value.y, old(normal).value.y)])
    {
      hide *;
      Parts();
      AltState(State());
      if normal.Some? {
        TwoRequests(Pend(), WholeScreen(State()), Range(normal.value.y, normal.value.y));
        Whole(State());
        RestoreScreen();
        Parts();
        Refresh(0, screen.rows - 1);
        Parts();
        ShowCursor();
      }
    }

    method RestoreScreen()
      requires Sound() && normal.Some?
      modifies screen, `normal
      ensures Saved() == None && screen.y == old(normal).value.y
      ensures State() == old(State()).(buf := old(Saved()).value, normal := None) && Sound()
      ensures screen.Span() == old(screen.Span()) && screen.children == old(screen.children)
    {
      hide *;
      Parts();
      screen.Restore(normal.value);
      normal := None;
      Parts();
    }

    method SetgLevel(g: nat)
      modifies `glevel, `charset
      ensures Charsets(glevel, charsets, charset) == SetLevel(old(Charsets(glevel, charsets, charset)), g)
    {
      glevel := g;
      charset := if g in charsets then charsets[g] else Plain;
    }

    method SetgCharset(g: nat, cs: Charset)
      modifies `charsets, `charset
      ensures Charsets(glevel, charsets, charset) == SetCharset(old(Charsets(glevel, charsets, charset)), g, cs)
    {
      charsets := charsets[g := cs];
      if glevel == g { charset := cs; }
    }

    method SetAllCharsets()
      modifies `charsets, `charset
      ensures Charsets(glevel, charsets, charset) == PlainAll(old(Charsets(glevel, charsets, charset)))
    {
      SetgCharset(0, Plain);
      SetgCharset(1, Plain);
      SetgCharset(2, Plain);
      SetgCharset(3, Plain);
    }

    /** DECCOLM: 132 columns, and the old width kept for later. */
    method WideColumns()
      requires Sound() && EmuInv(State())
      modifies this, screen
      ensures State() == Emulator.SetMode(old(State()), PRIVATE, 3) && Sound() && Parsing() == old(Parsing())
      ensures screen.Span() == old(screen.Span()) && screen.children == old(screen.children)
      ensures Pend() == RequestAll(old(Pend()), SetModeRequests(old(State()), PRIVATE, 3))
    {
      hide *;
      Parts();
      StateFacts();
      SetWidth(State());
      FitsAlready(screen.children);
      TwoRequests(Pend(), WholeScreen(State()), Range(0, 0));
      KeepColumns();
      Resize(132, screen.rows);
      Parts();
    }

    method KeepColumns()
      requires Sound() && EmuInv(State())
      modifies `savedCols
      ensures State() == old(State()).(savedCols := Some(screen.cols)) && Sound()
    {
      savedCols := Some(screen.cols);
    }

    method SetMode(p: nat)
      requires Sound() && EmuInv(State())
      modifies this, screen
      ensures State() == Emulator.SetMode(old(State()), old(prefix), p) && Sound()
      ensures Pend() == RequestAll(old(Pend()), SetModeRequests(old(State()), old(prefix), p))
      ensures prefix == PrefixAfter(old(State()), old(prefix), p)
      ensures screen.Span() == old(screen.Span()) && screen.children == old(screen.children)
      ensures old(state) == Normal ==> state == Normal
      ensures old(surrogateHigh) == [] ==> surrogateHigh == []
    {
      hide Above, Below, Request, Inv, EmuInv, EnterAlt, PlainAll, Resizing.Resize, FitElements;
      if prefix == [] {
        if p == 4 { screen.insertMode := true; }
      } else if prefix == PRIVATE {
        match p
        case 2 => SetAllCharsets();
        case 3 => WideColumns();
        case 7 => screen.wraparoundMode := true;
        case 25 => cursorHidden := false;
        case 1049 => EnterAlternate();
        case 47 => EnterAlternate();
        case 1047 => EnterAlternate();
        case _ =>
      }
    }

    method ResetMode(p: nat)
      requires Sound() && EmuInv(State())
      modifies this, screen
      ensures State() == Emulator.ResetMode(old(State()), old(prefix), p) && Sound() && Parsing() == old(Parsing())
      ensures Pend() == RequestAll(old(Pend()), ResetModeRequests(old(State()), old(prefix), p))
      ensures screen.Span() == old(screen.Span()) && screen.children == old(screen.children)
    {
      hide Above, Below, Request, Inv, EmuInv, LeaveAlt, Resizing.Resize, FitElements;
      if prefix == [] {
        if p == 4 { screen.insertMode := false; }
      } else if prefix == PRIVATE {
        match p
        case 3 => NarrowColumns();
        case 7 => screen.wraparoundMode := false;
        case 25 => cursorHidden := true;
        case 1049 => LeaveAlternate();
        case 47 => LeaveAlternate();
        case 1047 => LeaveAlternate();
        case _ =>
      }
    }

    /** Back from 132 columns to the width kept. */
    method NarrowColumns()
      requires Sound() && EmuInv(State())
      modifies this, screen
      ensures State() == Emulator.ResetMode(old(State()), PRIVATE, 3) && Sound() && Parsing() == old(Parsing())
      ensures screen.Span() == old(screen.Span()) && screen.children == old(screen.children)
      ensures Pend() == RequestAll(old(Pend()), ResetModeRequests(old(State()), PRIVATE, 3))
    {
      hide *;
      Parts();
      StateFacts();
      ResetWidth(State());
      FitsAlready(screen.children);
      TwoRequests(Pend(), WholeScreen(State()), Range(0, 0));
      if screen.cols == 132 && savedCols.Some? { Resize(savedCols.value, screen.rows); }
      ForgetColumns();
    }

    method ForgetColumns()
      requires Sound()
      modifies `savedCols
      ensures State() == old(State()).(savedCols := None) && Sound()
    {
      savedCols := None;
    }

    /** `setMode` of a list; entering the alternate screen on the way resets the prefix. */
    method SetModes(ps: seq<nat>)
      requires Sound() && EmuInv(State()) && state == Normal && surrogateHigh == []
      modifies this, screen
      ensures State() == Emulator.SetModes(old(State()), old(prefix), ps) && Sound()
      ensures Pend() == RequestAll(old(Pend()), SetModesRequests(old(State()), old(prefix), ps))
      ensures screen.Span() == old(screen.Span()) && screen.children == old(screen.children)
      ensures state == Normal && surrogateHigh == []
    {
      hide Above, Below, Request, Inv, EmuInv, Emulator.SetMode, SetModeRequests, PrefixAfter, State, Sound, Pend;
      for i := 0 to |ps|
        invariant Sound() && EmuInv(State()) && state == Normal && surrogateHigh == []
        invariant Emulator.SetModes(State(), prefix, ps[i..]) == Emulator.SetModes(old(State()), old(prefix), ps)
        invariant RequestAll(Pend(), SetModesRequests(State(), prefix, ps[i..])) ==
          RequestAll(old(Pend()), SetModesRequests(old(State()), old(prefix), ps))
        invariant screen.Span() == old(screen.Span()) && screen.children == old(screen.children)
      {
        assert ps[i..][0] == ps[i] && ps[i..][1..] == ps[i + 1..];
        RequestsAdd(Pend(), SetModeRequests(State(), prefix, ps[i]),
          SetModesRequests(Emulator.SetMode(State(), prefix, ps[i]), PrefixAfter(State(), prefix, ps[i]), ps[i + 1..]));
        SetMode(ps[i]);
      }
    }

    method ResetModes(ps: seq<nat>)
      requires Sound() && EmuInv(State())
      modifies this, screen
      ensures State() == Emulator.ResetModes(old(State()), old(prefix), ps) && Sound() && Parsing() == old(Parsing())
      ensures Pend() == RequestAll(old(Pend()), ResetModesRequests(old(State()), old(prefix), ps))
      ensures screen.Span() == old(screen.Span()) && screen.children == old(screen.children)
    {
      hide Above, Below, Request, Inv, EmuInv, Emulator.ResetMode, ResetModeRequests, State, Sound, Pend;
      for i := 0 to |ps|
        invariant Sound() && EmuInv(State()) && Parsing() == old(Parsing())
        invariant Emulator.ResetModes(State(), prefix, ps[i..]) == Emulator.ResetModes(old(State()), old(prefix), ps)
        invariant RequestAll(Pend(), ResetModesRequests(State(), prefix, ps[i..])) ==
          RequestAll(old(Pend()), ResetModesRequests(old(State()), old(prefix), ps))
        invariant screen.Span() == old(screen.Span()) && screen.children == old(screen.children)
      {
        assert ps[i..][0] == ps[i] && ps[i..][1..] == ps[i + 1..];
        RequestsAdd(Pend(), ResetModeRequests(State(), prefix, ps[i]),
          ResetModesRequests(Emulator.ResetMode(State(), prefix, ps[i]), prefix, ps[i + 1..]));
        ResetMode(ps[i]);
      }
    }

    method SoftReset()
      requires Sound() && EmuInv(State())
      modifies this, screen
      ensures State() == Emulator.SoftReset(old(State())) && Sound() && Parsing() == old(Parsing())
      ensures screen.Span() == old(screen.Span()) && Pend() == old(Pend()) && screen.children == old(screen.children)
    {
      hide *;
      Parts();
      SoftState(State());
      screen.SoftReset();
      SoftResetModes();
      Parts();
    }

    method SoftResetModes()
      modifies `cursorHidden, `charset, `glevel, `charsets
      ensures !cursorHidden && Charsets(glevel, charsets, charset) == FRESH_CHARSETS
    {
      cursorHidden := false;
      charset, glevel, charsets := Plain, 0, map[0 := Plain];
    }

    // ---- Reports -----------------------------------------------------------------------------

    method Send(data: Text)
      requires Sound()
      modifies `sent
      ensures State() == Emulator.Send(old(State()), data) && Sound()
    {
      sent := sent + [data];
    }

    method DeviceStatus(ps: seq<nat>)
      requires Sound() && EmuInv(State()) && |ps| >= 1
      modifies `sent
      ensures State() == Emulator.DeviceStatus(old(State()), ps) && Sound()
    {
      hide EmuInv, Inv, Emulator.Send;
      StateFacts();
      Parts();
      match ps[0]
      case 5 => Send([ESC, 91, 48, 110]);
      case 6 => Send([ESC, 91] + Decimal(screen.y + 1) + [59] + Decimal(screen.x + 1) + [82]);
      case _ =>
    }

    method SendDeviceAttributes(ps: seq<nat>)
      requires Sound() && EmuInv(State()) && |ps| >= 1
      modifies `sent
      ensures State() == DeviceAttributes(old(State()), prefix, ps) && Sound()
    {
      hide EmuInv, Inv, Emulator.Send;
      Parts();
      if ps[0] > 0 { return; }
      if prefix == [] {
        if cfg.kind.Xterm? || cfg.kind.RxvtUnicode? || cfg.kind.ScreenTerm? {
          Send([ESC, 91, 63, 49, 59, 50, 99]);
        } else if cfg.kind.LinuxConsole? {
          Send([ESC, 91, 63, 54, 99]);
        }
      } else if prefix == [62] {
        if cfg.kind.Xterm? { Send([ESC, 91, 62, 48, 59, 50, 55, 54, 59, 48, 99]); }
        else if cfg.kind.RxvtUnicode? { Send([ESC, 91, 62, 56, 53, 59, 57, 53, 59, 48, 99]); }
        else if cfg.kind.LinuxConsole? { Send(Decimal(ps[0]) + [99]); }
        else if cfg.kind.ScreenTerm? { Send([ESC, 91, 62, 56, 51, 59, 52, 48, 48, 48, 51, 59, 48, 99]); }
      }
    }

    /** What the end of a device control string is answered with. */
    method AnswerStatus(pt0: Text)
      requires Sound() && EmuInv(State())
      modifies `sent
      ensures State() == ReportStatus(old(State()), prefix, pt0) && Sound() && Mark() == old(Mark())
    {
      hide EmuInv, Inv, Emulator.Send;
      StateFacts();
      Parts();
      var pt := pt0;
      if prefix == STATUS_PREFIX {
        if pt == [34, 113] { pt := [48, 34, 113]; }
        else if pt == [34, 112] { pt := [54, 49, 34, 112]; }
        else if pt == [DECSTBM] { pt := Decimal(screen.scrollTop + 1) + [59] + Decimal(screen.scrollBottom + 1) + [DECSTBM]; }
        else if pt == [109] { pt := [48, 109]; }
        else { pt := []; }
        Send([ESC, 80, 48, 36, 114] + pt + [ESC, 92]);
      } else if prefix == TERMCAP_PREFIX {
        if pt == [] { pt := [ZERO]; }
        Send([ESC, 80, 48, 43, 114] + pt + [ESC, 92]);
      }
    }

    // ---- Control sequences ---------------------------------------------------------------------

    method CursorSequence(final: CodeUnit)
      requires Sound() && EmuInv(State()) && |params| >= 1 && IsMove(final)
      modifies screen
      ensures State() == ExecCsi(old(State()), final, params, prefix) && Sound()
      ensures screen.Span() == old(screen.Span()) && screen.children == old(screen.children)
    {
      hide *;
      Parts();
      StateFacts();
      MoveState(State(), final, params, prefix);
      screen.Move(final, params);
      Parts();
    }

    method EditSequence(final: CodeUnit)
      requires Sound() && EmuInv(State()) && |params| >= 1 && IsEdit(final)
      modifies screen
      ensures State() == ExecCsi(old(State()), final, params, prefix) && Sound()
      ensures screen.Span() == Widen(old(screen.Span()), CsiAnnounces(old(State()).buf, final, params, prefix))
      ensures screen.children == old(screen.children)
    {
      hide *;
      Parts();
      StateFacts();
      EditState(State(), final, params, prefix);
      screen.Edit(final, params);
      Parts();
    }

    /** SGR, packed: the only sequence that asks the colour cache. */
    method CharAttributes(ps: seq<nat>)
      requires Sound() && EmuInv(State())
      modifies screen, matcher
      ensures State() == old(State()).(attr := SgrAttr(old(State()).attr, ps)) && Sound()
      ensures screen.Span() == old(screen.Span()) && screen.children == old(screen.children)
    {
      hide *;
      Parts();
      StateFacts();
      var attr := Attributes.CharAttributes(matcher, screen.curAttr, ps);
      Parts();
      Recolor(attr);
      Parts();
    }

    method Recolor(attr: nat)
      requires Sound()
      modifies screen
      ensures State() == old(State()).(attr := attr) && Sound()
      ensures screen.Span() == old(screen.Span()) && screen.children == old(screen.children)
    {
      hide Above, Below;
      screen.curAttr := attr;
    }

    method SaveCursor()
      requires Sound()
      modifies `savedX, `savedY
      ensures State() == old(State()).(savedX := screen.x, savedY := screen.y) && Sound() && Mark() == old(Mark())
    {
      savedX := screen.x;
      savedY := screen.y;
    }

    method RestoreCursor()
      requires Sound() && EmuInv(State())
      modifies screen
      ensures State() == Restore(old(State())) && Sound() && Mark() == old(Mark())
      ensures screen.Span() == old(screen.Span()) && screen.children == old(screen.children)
    {
      hide Above, Below, EmuInv;
      screen.x := savedX;
      screen.y := savedY;
    }

    /** The sequences that only set tab stops, margins or rows of the screen. */
    method ScreenSequence(final: CodeUnit)
      requires Sound() && EmuInv(State()) && |params| >= 1 && (final == SD || final == TBC || final == DECSTBM)
      modifies screen
      ensures State() == ExecOther(old(State()), final, params, prefix) && Sound()
      ensures screen.Span() == Widen(old(screen.Span()), CsiAnnounces(old(State()).buf, final, params, prefix))
      ensures screen.children == old(screen.children)
    {
      hide *;
      Parts();
      StateFacts();
      OtherFinals();
      OtherState(State(), final, params, prefix);
      Unwidened(screen.Span());
      match final {
        case SD => if |params| < 2 && prefix == [] { screen.ScrollDown(params); }
        case TBC => screen.TabClear(params);
        case DECSTBM => if prefix == [] { screen.SetScrollRegion(params); }
      }
      Parts();
    }

    /** The rest of the switch over the final character. */
    method OtherSequence(final: CodeUnit)
      requires Sound() && EmuInv(State()) && |params| >= 1 && !IsMove(final) && !IsEdit(final)
      requires state == Normal && surrogateHigh == []
      modifies this, screen, matcher
      ensures State() == ExecOther(old(State()), final, old(params), old(prefix)) && Sound()
      ensures screen.Span() == Widen(old(screen.Span()), CsiAnnounces(old(State()).buf, final, old(params), old(prefix)))
      ensures Pend() == RequestAll(old(Pend()), Requests(old(State()), Cmd.Csi(final, old(params), old(prefix))))
      ensures screen.children == old(screen.children) && state == Normal && surrogateHigh == []
    {
      hide *;
      Parts();
      OtherFinals();
      OtherState(State(), final, params, prefix);
      Unwidened(screen.Span());
      TwoRequests(Pend(), Range(0, 0), Range(0, 0));
      ParsingParts();
      match final {
        case SD => ScreenSequence(final);
        case TBC => ScreenSequence(final);
        case DECSTBM => ScreenSequence(final);
        case DA => SendDeviceAttributes(params);
        case SM => SetModes(params);
        case RM => ResetModes(params);
        case SGR => if prefix == [] { CharAttributes(params); }
        case DSR => if prefix == [] { DeviceStatus(params); }
        case DECSTR => if prefix == [33] { SoftReset(); }
        case SCP => SaveCursor();
        case RCP => RestoreCursor();
        case _ =>
      }
      ParsingParts();
    }

    lemma ParsingParts()
      ensures Parsing() == (state, params, currentParam, prefix, gcharset, surrogateHigh)
    {
    }

    /** A complete control sequence. */
    method ControlSequence(final: CodeUnit)
      requires Sound() && EmuInv(State()) && |params| >= 1 && state == Normal && surrogateHigh == []
      modifies this, screen, matcher
      ensures State() == ExecCsi(old(State()), final, old(params), old(prefix)) && Sound()
      ensures Mark() == NoteCommand(old(Mark()), old(State()), Cmd.Csi(final, old(params), old(prefix)))
      ensures screen.children == old(screen.children) && state == Normal && surrogateHigh == []
    {
      hide *;
      Parts();
      CsiNote(Mark(), State(), final, params, prefix);
      if IsMove(final) { CursorSequence(final); }
      else if IsEdit(final) { EditSequence(final); }
      else { OtherSequence(final); }
      Parts();
    }

    // ---- Control characters and short escapes -----------------------------------------------------

    method CarriageReturn()
      requires Sound() && EmuInv(State())
      modifies screen
      ensures State() == Exec(old(State()), Cmd.CarriageReturn) && Sound()
      ensures Mark() == NoteCommand(old(Mark()), old(State()), Cmd.CarriageReturn) && screen.children == old(screen.children)
    {
      hide *;
      Parts();
      ControlStates(State());
      SilentCommands(Mark(), State());
      screen.MoveTo(0, screen.y);
      Parts();
    }

    method Backspace()
      requires Sound() && EmuInv(State())
      modifies screen
      ensures State() == Exec(old(State()), Cmd.Backspace) && Sound()
      ensures Mark() == NoteCommand(old(Mark()), old(State()), Cmd.Backspace) && screen.children == old(screen.children)
    {
      hide *;
      Parts();
      StateFacts();
      ControlStates(State());
      SilentCommands(Mark(), State());
      if screen.x > 0 { screen.MoveTo(screen.x - 1, screen.y); }
      Parts();
    }

    method Tab()
      requires Sound() && EmuInv(State())
      modifies screen
      ensures State() == Exec(old(State()), Cmd.Tab) && Sound()
      ensures Mark() == NoteCommand(old(Mark()), old(State()), Cmd.Tab) && screen.children == old(screen.children)
    {
      hide *;
      Parts();
      StateFacts();
      ControlStates(State());
      SilentCommands(Mark(), State());
      var stop := screen.NextStop(screen.x);
      screen.MoveTo(stop, screen.y);
      Parts();
    }

    method Index()
      requires Sound() && EmuInv(State())
      modifies screen
      ensures State() == Exec(old(State()), IndexDown) && Sound()
      ensures Mark() == NoteCommand(old(Mark()), old(State()), IndexDown) && screen.children == old(screen.children)
    {
      hide *;
      Parts();
      StateFacts();
      ControlStates(State());
      ControlNotes(Mark(), State());
      screen.Index();
      Parts();
    }

    method ReverseIndex()
      requires Sound() && EmuInv(State())
      modifies screen
      ensures State() == Exec(old(State()), IndexUp) && Sound()
      ensures Mark() == NoteCommand(old(Mark()), old(State()), IndexUp) && screen.children == old(screen.children)
    {
      hide *;
      Parts();
      StateFacts();
      ControlStates(State());
      ControlNotes(Mark(), State());
      screen.ReverseIndex();
      Parts();
    }

    method LineFeed()
      requires Sound() && EmuInv(State())
      modifies screen
      ensures State() == Exec(old(State()), Cmd.LineFeed) && Sound()
      ensures Mark() == NoteCommand(old(Mark()), old(State()), Cmd.LineFeed) && screen.children == old(screen.children)
    {
      hide *;
      Parts();
      LineStates(State());
      SilentCommands(Mark(), State());
      ControlNotes(Mark(), State());
      ReturnKeepsNote(Mark(), State());
      if cfg.convertEol { CarriageReturn(); }
      Parts();
      Index();
    }

    method NextLine()
      requires Sound() && EmuInv(State())
      modifies screen
      ensures State() == Exec(old(State()), Cmd.NextLine) && Sound()
      ensures Mark() == NoteCommand(old(Mark()), old(State()), Cmd.NextLine) && screen.children == old(screen.children)
    {
      hide *;
      Parts();
      LineStates(State());
      SilentCommands(Mark(), State());
      ControlNotes(Mark(), State());
      ReturnKeepsNote(Mark(), State());
      CarriageReturn();
      Parts();
      Index();
    }

    method TabSet()
      requires Sound() && EmuInv(State())
      modifies screen
      ensures State() == Exec(old(State()), SetTab) && Sound()
      ensures Mark() == NoteCommand(old(Mark()), old(State()), SetTab) && screen.children == old(screen.children)
    {
      hide *;
      Parts();
      ControlStates(State());
      SilentCommands(Mark(), State());
      screen.TabSet();
      Parts();
    }

    /** The print branch: the width is looked up before the character set is. */
    method Print(ch0: Text, code: int)
      requires Sound() && EmuInv(State()) && |ch0| >= 1 && Admissible(State(), Cmd.Print(ch0, Width(code)))
      modifies screen
      ensures State() == Exec(old(State()), Cmd.Print(ch0, Width(code))) && Sound()
      ensures Mark() == NoteCommand(old(Mark()), old(State()), Cmd.Print(ch0, Width(code)))
      ensures screen.children == old(screen.children)
    {
      hide *;
      Parts();
      StateFacts();
      PrintState(Mark(), State(), ch0, Width(code));
      var w := Wcwidth(code);
      var ch := Translate(charset, ch0);
      screen.PrintCell(ch, w);
      Parts();
    }

    // ---- The parser, state by state ------------------------------------------------------------

    /** The parser may react: its commands are admissible where the terminal stands. */
    ghost predicate Ready(r: Reaction)
      reads this, screen, matcher
    {
      && Sound() && EmuInv(State()) && ParserOk() && surrogateHigh == []
      && AllWellFormed(r.cmds) && AdmissibleAll(State(), r.cmds)
    }

    /** The reaction has been carried out, from the state and the notes given. */
    ghost predicate Took(r: Reaction, e: Emu, n: Note, rows: seq<Markup>)
      requires EmuInv(e) && AllWellFormed(r.cmds) && AdmissibleAll(e, r.cmds)
      reads this, screen, matcher
    {
      && ParserMode() == r.mode && ParserOk() && surrogateHigh == []
      && State() == ExecAll(e, r.cmds) && Sound() && Mark() == NoteAll(n, e, r.cmds) && screen.children == rows
    }

    lemma ReadyFor(r: Reaction)
      requires Ready(r)
      ensures Sound() && EmuInv(State()) && ParserOk() && surrogateHigh == []
      ensures AllWellFormed(r.cmds) && AdmissibleAll(State(), r.cmds)
      ensures |r.cmds| >= 1 ==> Admissible(State(), r.cmds[0])
    {
    }

    lemma TookNothing(r: Reaction, e: Emu, n: Note)
      requires EmuInv(e) && r.cmds == []
      requires ParserMode() == r.mode && ParserOk() && surrogateHigh == []
      requires State() == e && Sound() && Mark() == n
      ensures AllWellFormed(r.cmds) && AdmissibleAll(e, r.cmds) && Took(r, e, n, screen.children)
    {
      hide Sound, State, Mark, ParserMode, ParserOk, EmuInv;
    }

    lemma TookOne(r: Reaction, c: Cmd, e: Emu, n: Note)
      requires EmuInv(e) && r.cmds == [c] && WellFormed(c) && Admissible(e, c)
      requires ParserMode() == r.mode && ParserOk() && surrogateHigh == []
      requires State() == Exec(e, c) && Sound() && Mark() == NoteCommand(n, e, c)
      ensures AllWellFormed(r.cmds) && AdmissibleAll(e, r.cmds) && Took(r, e, n, screen.children)
    {
      hide Sound, State, Mark, ParserMode, ParserOk, EmuInv, Exec, NoteCommand, Admissible;
      OneCommand(n, e, c);
    }

    method NormalChar(ch: Text, code: int)
      requires |ch| >= 1 && state == Normal && Ready(React(Ground, ch, code))
      modifies this, screen
      ensures Took(React(Ground, ch, code), old(State()), old(Mark()), old(screen.children))
    {
      hide State, Sound, Mark, ParserMode, ParserOk, Took, Ready, EmuInv, Exec, NoteCommand, Admissible, AdmissibleAll;
      ghost var r, e, n := React(Ground, ch, code), State(), Mark();
      ReadyFor(r);
      AtRest();
      if |ch| > 1 || ch[0] >= 32 {
        Print(ch, code);
        TookOne(r, Cmd.Print(ch, Width(code)), e, n);
      } else {
        match ch[0]
        case 7 => TookNothing(r, e, n);
        case 27 => Enter(Escaped); AtEscape(); TookNothing(r, e, n);
        case 14 => ShiftTo(1); TookOne(r, Cmd.ShiftTo(1), e, n);
        case 15 => ShiftTo(0); TookOne(r, Cmd.ShiftTo(0), e, n);
        case u =>
          assert ch == [u];
          ControlChar(u, code);
      }
    }

    /** The control characters that move the cursor. */
    method ControlChar(u: CodeUnit, code: int)
      requires u < 32 && u !in {7, 14, 15, 27} && state == Normal && Ready(React(Ground, [u], code))
      modifies this, screen
      ensures Took(React(Ground, [u], code), old(State()), old(Mark()), old(screen.children))
    {
      hide State, Sound, Mark, ParserMode, ParserOk, Took, Ready, EmuInv, Exec, NoteCommand, Admissible, AdmissibleAll;
      ghost var r, e, n := React(Ground, [u], code), State(), Mark();
      ReadyFor(r);
      AtRest();
      match u
      case 10 => LineFeed(); TookOne(r, Cmd.LineFeed, e, n);
      case 11 => LineFeed(); TookOne(r, Cmd.LineFeed, e, n);
      case 12 => LineFeed(); TookOne(r, Cmd.LineFeed, e, n);
      case 13 => CarriageReturn(); TookOne(r, Cmd.CarriageReturn, e, n);
      case 8 => Backspace(); TookOne(r, Cmd.Backspace, e, n);
      case 9 => Tab(); TookOne(r, Cmd.Tab, e, n);
      case _ => TookNothing(r, e, n);
    }

    lemma AtRest()
      requires state == Normal && ParserOk()
      ensures ParserMode() == Ground && prefix == []
    {
    }

    lemma AtEscape()
      requires state == Escaped && prefix == []
      ensures ParserMode() == Escape && ParserOk()
    {
    }

    /** `this.state = s`. */
    method Enter(s: State)
      requires Sound()
      modifies `state
      ensures state == s && State() == old(State()) && Mark() == old(Mark()) && Sound()
    {
      state := s;
    }

    method ShiftTo(g: nat)
      requires Sound() && EmuInv(State())
      modifies `glevel, `charset
      ensures State() == Exec(old(State()), Cmd.ShiftTo(g)) && Sound()
      ensures Mark() == NoteCommand(old(Mark()), old(State()), Cmd.ShiftTo(g))
    {
      hide EmuInv, Inv, Above, Below;
      SetgLevel(g);
    }

    lemma AtNormal()
      requires state == Normal && prefix == []
      ensures ParserMode() == Ground && ParserOk()
    {
    }

    /** A sequence begins: no parameters yet. */
    method Start(s: State)
      requires Sound() && prefix == [] && (s.InCsi? || s.InOsc? || s.InDcs? || s.InIgnored?)
      modifies `params, `currentParam, `state
      ensures State() == old(State()) && Mark() == old(Mark()) && Sound() && ParserOk()
      ensures ParserMode() == match s
        case InCsi => Sequence([], 0, [])
        case InOsc => OscCode(0)
        case InDcs => DeviceString([], [])
        case _ => Ignoring
    {
      hide Above, Below;
      params := [];
      currentParam := Number(0);
      state := s;
    }

    method Designate(g: nat)
      requires Sound() && prefix == []
      modifies `gcharset, `state
      ensures State() == old(State()) && Mark() == old(Mark()) && Sound() && ParserOk()
      ensures ParserMode() == Designating(g)
    {
      hide Above, Below;
      gcharset := Some(g);
      state := InCharset;
    }

    method EscapedChar(ch: Text, code: int) returns (advance: nat)
      requires |ch| >= 1 && state == Escaped && Ready(React(Escape, ch, code))
      modifies this, screen
      ensures Took(React(Escape, ch, code), old(State()), old(Mark()), old(screen.children))
      ensures advance == React(Escape, ch, code).advance
    {
      hide State, Sound, Mark, ParserMode, ParserOk, Took, Ready, EmuInv, Exec, NoteCommand, Admissible, AdmissibleAll;
      ghost var r, e, n := React(Escape, ch, code), State(), Mark();
      ReadyFor(r);
      EscapedIs();
      advance := 1;
      if |ch| > 1 {
        Enter(Normal);
        AtNormal();
        TookNothing(r, e, n);
        return;
      }
      assert ch == [ch[0]];
      match ch[0]
      case 91 => Start(InCsi); TookNothing(r, e, n);
      case 93 => Start(InOsc); TookNothing(r, e, n);
      case 80 => Start(InDcs); TookNothing(r, e, n);
      case 95 => Start(InIgnored); TookNothing(r, e, n);
      case 94 => Start(InIgnored); TookNothing(r, e, n);
      case 40 => Designate(0); TookNothing(r, e, n);
      case 41 => Designate(1); TookNothing(r, e, n);
      case 42 => Designate(2); TookNothing(r, e, n);
      case 43 => Designate(3); TookNothing(r, e, n);
      case 45 => Designate(1); TookNothing(r, e, n);
      case 46 => Designate(2); TookNothing(r, e, n);
      case 47 =>
        Designate(3);
        advance := 0;
        TookNothing(r, e, n);
      case u => advance := EscapedCommand(u, code);
    }

    lemma EscapedIs()
      requires state == Escaped && ParserOk()
      ensures ParserMode() == Escape && prefix == []
    {
    }

    /** The escapes that do something to the terminal, and the unknown ones. */
    method EscapedCommand(u: CodeUnit, code: int) returns (advance: nat)
      requires state == Escaped && Ready(React(Escape, [u], code))
      requires u !in {91, 93, 80, 95, 94, 40, 41, 42, 43, 45, 46, 47}
      modifies this, screen
      ensures Took(React(Escape, [u], code), old(State()), old(Mark()), old(screen.children))
      ensures advance == React(Escape, [u], code).advance
    {
      hide State, Sound, Mark, ParserMode, ParserOk, Took, Ready, EmuInv, Exec, NoteCommand, Admissible, AdmissibleAll;
      ghost var r, e, n := React(Escape, [u], code), State(), Mark();
      ReadyFor(r);
      EscapedIs();
      advance := 1;
      match u
      case 78 => TookNothing(r, e, n);
      case 79 => TookNothing(r, e, n);
      case 110 => ShiftTo(2); TookOne(r, Cmd.ShiftTo(2), e, n);
      case 111 => ShiftTo(3); TookOne(r, Cmd.ShiftTo(3), e, n);
      case 124 => ShiftTo(3); TookOne(r, Cmd.ShiftTo(3), e, n);
      case 125 => ShiftTo(2); TookOne(r, Cmd.ShiftTo(2), e, n);
      case 126 => ShiftTo(1); TookOne(r, Cmd.ShiftTo(1), e, n);
      case 37 => SelectDefaultSet(code); advance := 2;
      case 99 => FullReset(code);
      case _ =>
        if u == 35 { advance := 2; }
        EscapedLast(u, code);
    }

    /** The escapes after which the parser is at rest again. */
    method EscapedLast(u: CodeUnit, code: int)
      requires state == Escaped && Ready(React(Escape, [u], code))
      requires u !in {91, 93, 80, 95, 94, 40, 41, 42, 43, 45, 46, 47, 78, 79, 110, 111, 124, 125, 126, 37, 99}
      modifies this, screen
      ensures Took(React(Escape, [u], code), old(State()), old(Mark()), old(screen.children))
    {
      hide State, Sound, Mark, ParserMode, ParserOk, Took, Ready, EmuInv, Exec, NoteCommand, Admissible, AdmissibleAll;
      ghost var r, e, n := React(Escape, [u], code), State(), Mark();
      ReadyFor(r);
      EscapedIs();
      Enter(Normal);
      AtNormal();
      CursorPlace();
      CursorStates(n, e);
      match u
      case 69 => NextLine(); TookOne(r, Cmd.NextLine, e, n);
      case 68 => Index(); TookOne(r, IndexDown, e, n);
      case 77 => ReverseIndex(); TookOne(r, IndexUp, e, n);
      case 55 => SaveCursor(); TookOne(r, Cmd.SaveCursor, e, n);
      case 56 => RestoreCursor(); TookOne(r, Cmd.RestoreCursor, e, n);
      case 72 => TabSet(); TookOne(r, SetTab, e, n);
      case _ => TookNothing(r, e, n);
    }

    lemma CursorPlace()
      ensures State().buf.x == screen.x && State().buf.y == screen.y
    {
    }

    method SelectDefaultSet(code: int)
      requires state == Escaped && Ready(React(Escape, [37], code))
      modifies this
      ensures Took(React(Escape, [37], code), old(State()), old(Mark()), screen.children)
    {
      hide State, Sound, Mark, ParserMode, ParserOk, Took, Ready, EmuInv, Exec, NoteCommand, AdmissibleAll;
      ghost var r, e, n := React(Escape, [37], code), State(), Mark();
      ReadyFor(r);
      EscapedIs();
      ShiftTo(0);
      OneCommand(n, e, Cmd.ShiftTo(0));
      AssignCharset(0, Plain);
      Enter(Normal);
      AtNormal();
      TookTwo(r, Cmd.ShiftTo(0), Cmd.Designate(0, Plain), e, n);
    }

    method AssignCharset(g: nat, cs: Charset)
      requires Sound() && EmuInv(State())
      modifies `charsets, `charset
      ensures State() == Exec(old(State()), Cmd.Designate(g, cs)) && Sound()
      ensures Mark() == NoteCommand(old(Mark()), old(State()), Cmd.Designate(g, cs))
    {
      hide EmuInv, Inv, Above, Below;
      SetgCharset(g, cs);
    }

    method FullReset(code: int)
      requires state == Escaped && Ready(React(Escape, [99], code))
      modifies this, screen
      ensures Took(React(Escape, [99], code), old(State()), old(Mark()), old(screen.children))
    {
      hide State, Sound, Mark, ParserMode, ParserOk, Took, Ready, EmuInv, Exec, NoteCommand, Admissible, AdmissibleAll;
      ghost var r, e, n := React(Escape, [99], code), State(), Mark();
      ReadyFor(r);
      Parts();
      CursorStates(n, e);
      Reset();
      Parts();
      ParsingParts();
      AtNormal();
      TookOne(r, Cmd.FullReset, e, n);
    }

    lemma TookTwo(r: Reaction, c: Cmd, d: Cmd, e: Emu, n: Note)
      requires EmuInv(e) && r.cmds == [c, d] && WellFormed(c) && WellFormed(d) && Admissible(e, c) && EmuInv(Exec(e, c))
      requires Admissible(Exec(e, c), d)
      requires ParserMode() == r.mode && ParserOk() && surrogateHigh == []
      requires State() == Exec(Exec(e, c), d) && Sound() && Mark() == NoteCommand(NoteCommand(n, e, c), Exec(e, c), d)
      ensures AllWellFormed(r.cmds) && AdmissibleAll(e, r.cmds) && Took(r, e, n, screen.children)
    {
      hide Sound, State, Mark, ParserMode, ParserOk, EmuInv, Exec, NoteCommand, Admissible;
      OneCommand(NoteCommand(n, e, c), Exec(e, c), d);
      assert r.cmds == [c] + [d];
      UnfoldRun(n, e, c, [d]);
    }

    method CharsetChar(ch: Text, code: int) returns (advance: nat)
      requires |ch| >= 1 && state == InCharset && Ready(React(ParserMode(), ch, code))
      modifies this, screen
      ensures var r := React(old(ParserMode()), ch, code);
        Took(r, old(State()), old(Mark()), old(screen.children)) && advance == r.advance
    {
      hide State, Sound, Mark, ParserOk, Took, Ready, EmuInv, Exec, NoteCommand, AdmissibleAll;
      ghost var r, e, n := React(ParserMode(), ch, code), State(), Mark();
      ReadyFor(r);
      CharsetIs();
      var g := gcharset.value;
      var cs := Plain;
      advance := 1;
      if ch == [48] { cs := Graphics; }
      else if ch == [47] { advance := 2; }
      AssignCharset(g, cs);
      Enter(Normal);
      AtNormal();
      TookOne(r, Cmd.Designate(g, cs), e, n);
    }

    lemma CharsetIs()
      requires state == InCharset && ParserOk()
      ensures gcharset.Some? && ParserMode() == Designating(gcharset.value) && prefix == []
    {
    }

    method IgnoredChar(ch: Text, code: int) returns (advance: nat)
      requires |ch| >= 1 && state == InIgnored && Ready(React(Ignoring, ch, code))
      modifies this
      ensures var r := React(Ignoring, ch, code);
        Took(r, old(State()), old(Mark()), screen.children) && advance == r.advance
    {
      hide State, Sound, Mark, Took, Ready, EmuInv, AdmissibleAll;
      ghost var r, e, n := React(Ignoring, ch, code), State(), Mark();
      ReadyFor(r);
      advance := 1;
      if ch == [ESC] || ch == [BEL] {
        if ch == [ESC] { advance := 2; }
        Enter(Normal);
      }
      TookNothing(r, e, n);
    }

    /** Sets the number or string being read; `params` and `state` stay. */
    method Gather(p: Param)
      requires Sound()
      modifies `currentParam
      ensures currentParam == p && State() == old(State()) && Mark() == old(Mark()) && Sound()
    {
      currentParam := p;
    }

    method GatherPrefix(p: Text)
      requires Sound()
      modifies `prefix
      ensures prefix == p && State() == old(State()) && Mark() == old(Mark()) && Sound()
    {
      prefix := p;
    }

    /** `this.params.push(this.currentParam)`, and what is read next. */
    method PushParam(next: Param)
      requires Sound() && currentParam.Number?
      modifies `params, `currentParam
      ensures params == old(params) + [old(currentParam).n] && currentParam == next
      ensures State() == old(State()) && Mark() == old(Mark()) && Sound()
    {
      params := params + [currentParam.n];
      currentParam := next;
    }

    method OscChar(ch: Text, code: int) returns (advance: nat)
      requires |ch| >= 1 && state == InOsc && Ready(React(ParserMode(), ch, code))
      modifies this
      ensures var r := React(old(ParserMode()), ch, code);
        Took(r, old(State()), old(Mark()), screen.children) && advance == r.advance
    {
      hide State, Sound, Mark, Took, Ready, EmuInv, Exec, NoteCommand, AdmissibleAll;
      ghost var r, e, n := React(ParserMode(), ch, code), State(), Mark();
      ReadyFor(r);
      advance := 1;
      if ch == [ESC] || ch == [BEL] {
        if ch == [ESC] { advance := 2; }
        var titled := |params| == 1 && params[0] <= 2 && currentParam.t != [];
        if titled {
          ghost var text := currentParam.t;
          SetTitle(currentParam.t);
          EndString();
          TookOne(r, Cmd.SetTitle(text), e, n);
        } else {
          EndString();
          TookNothing(r, e, n);
        }
        return;
      }
      if |params| == 0 {
        if |ch| == 1 && IsDigit(ch[0]) {
          Gather(Number(currentParam.n * 10 + (ch[0] as int - 48)));
        } else if ch == [59] {
          PushParam(String([]));
        }
      } else {
        Gather(String(currentParam.t + ch));
      }
      TookNothing(r, e, n);
    }

    method SetTitle(text: Text)
      requires Sound() && EmuInv(State())
      modifies `title
      ensures State() == Exec(old(State()), Cmd.SetTitle(text)) && Sound()
      ensures Mark() == NoteCommand(old(Mark()), old(State()), Cmd.SetTitle(text))
    {
      hide EmuInv, Inv, Above, Below;
      title := text;
    }

    method EndString()
      requires Sound() && prefix == []
      modifies `params, `currentParam, `state
      ensures state == Normal && State() == old(State()) && Mark() == old(Mark()) && Sound()
    {
      hide Above, Below;
      params := [];
      currentParam := Number(0);
      state := Normal;
    }

    method CsiChar(ch: Text, code: int)
      requires |ch| >= 1 && state == InCsi && Ready(React(ParserMode(), ch, code))
      modifies this, screen, matcher
      ensures Took(React(old(ParserMode()), ch, code), old(State()), old(Mark()), old(screen.children))
    {
      hide State, Sound, Mark, Took, Ready, EmuInv, Exec, NoteCommand, AdmissibleAll;
      ghost var r, e, n := React(ParserMode(), ch, code), State(), Mark();
      ReadyFor(r);
      if |ch| == 1 && IsPrefix(ch[0]) {
        GatherPrefix(ch);
        TookNothing(r, e, n);
        return;
      }
      if |ch| == 1 && IsDigit(ch[0]) {
        Gather(Number(currentParam.n * 10 + (ch[0] as int - 48)));
        TookNothing(r, e, n);
        return;
      }
      if |ch| == 1 && IsPostfix(ch[0]) {
        TookNothing(r, e, n);
        return;
      }
      PushParam(Number(0));
      if ch == [59] {
        TookNothing(r, e, n);
        return;
      }
      Enter(Normal);
      if |ch| == 1 {
        ghost var c := Cmd.Csi(ch[0], params, prefix);
        CsiStates(e, c.final, c.params, c.prefix);
        ControlSequence(ch[0]);
        GatherPrefix([]);
        TookOne(r, c, e, n);
      } else {
        GatherPrefix([]);
        TookNothing(r, e, n);
      }
    }

    method DcsChar(ch: Text, code: int) returns (advance: nat)
      requires |ch| >= 1 && state == InDcs && Ready(React(ParserMode(), ch, code))
      modifies this
      ensures var r := React(old(ParserMode()), ch, code);
        Took(r, old(State()), old(Mark()), screen.children) && advance == r.advance
    {
      hide State, Sound, Mark, Took, Ready, EmuInv, Exec, NoteCommand, AdmissibleAll;
      ghost var r, e, n := React(ParserMode(), ch, code), State(), Mark();
      ReadyFor(r);
      advance := 1;
      if ch == [ESC] || ch == [BEL] {
        if ch == [ESC] { advance := 2; }
        ghost var c := StatusString(prefix, ParamText(currentParam));
        EndDeviceString();
        TookOne(r, c, e, n);
        return;
      }
      if currentParam.Number? || currentParam.t == [] {
        if prefix == [] && ch != [36] && ch != [43] { Gather(String(ch)); }
        else if |prefix| == 2 { Gather(String(ch)); }
        else { GatherPrefix(prefix + ch); }
      } else {
        Gather(String(currentParam.t + ch));
      }
      TookNothing(r, e, n);
    }

    method EndDeviceString()
      requires Sound() && EmuInv(State())
      modifies `sent, `currentParam, `prefix, `state
      ensures state == Normal && prefix == []
      ensures State() == Exec(old(State()), StatusString(old(prefix), ParamText(old(currentParam)))) && Sound()
      ensures Mark() == NoteCommand(old(Mark()), old(State()), StatusString(old(prefix), ParamText(old(currentParam))))
    {
      hide *;
      var pt := ParamText(currentParam);
      StatusStates(State(), Mark(), prefix, pt);
      AnswerStatus(pt);
      Gather(Number(0));
      GatherPrefix([]);
      Enter(Normal);
    }

    /** One character of input: the switch over the states. */
    method Step(ch: Text, code: int) returns (advance: nat)
      requires |ch| >= 1 && Ready(React(ParserMode(), ch, code))
      modifies this, screen, matcher
      ensures var r := React(old(ParserMode()), ch, code);
        Took(r, old(State()), old(Mark()), old(screen.children)) && advance == r.advance
    {
      hide State, Sound, Mark, Took, Ready, EmuInv, AdmissibleAll, ParserOk;
      ReadyFor(React(ParserMode(), ch, code));
      match state
      case Normal => NormalChar(ch, code); advance := 1;
      case Escaped => advance := EscapedChar(ch, code);
      case InCharset => advance := CharsetChar(ch, code);
      case InOsc => advance := OscChar(ch, code);
      case InCsi => CsiChar(ch, code); advance := 1;
      case InDcs => advance := DcsChar(ch, code);
      case InIgnored => advance := IgnoredChar(ch, code);
    }

    // ---- Writing ---------------------------------------------------------------------------------

    ghost function System(): Sys
      reads this, screen
    {
      Sys(ParserMode(), surrogateHigh, State(), Pend(), screen.children)
    }

    /** The head of `write`: the viewport returns to the bottom. */
    method BeginWrite()
      requires Sound() && EmuInv(State())
      modifies screen
      ensures State() == Begin(old(State())) && Sound() && Mark() == BeginNote(old(System()))
      ensures screen.children == old(screen.children)
    {
      hide *;
      Parts();
      SystemParts();
      BeginState(System(), screen.lines, screen.ybase);
      screen.BeginRange();
      Parts();
    }

    lemma SystemParts()
      ensures System() == Sys(ParserMode(), surrogateHigh, State(), Pend(), screen.children)
      ensures Pend().Queued? <==> refreshIsQueued
      ensures screen.Contents().history == Above(screen.lines, screen.ybase) && screen.Contents().ydisp == screen.ydisp
    {
    }

    /** The tail of `write`. */
    method EndWrite()
      requires Sound() && EmuInv(State())
      modifies this, screen
      ensures State() == old(State()) && Sound()
      ensures ParserMode() == old(ParserMode()) && ParserOk() == old(ParserOk()) && surrogateHigh == old(surrogateHigh)
      ensures Pend() == Request(old(Pend()), Widen(old(screen.Span()), Rows(old(State()).buf.y, old(State()).buf.y)))
      ensures screen.children == old(screen.children)
    {
      hide State, Sound, Mark, Pend, EmuInv, Widen, Request;
      Parts();
      screen.UpdateRange(screen.y);
      Parts();
      SpanIs();
      Refresh(screen.refreshStart, screen.refreshEnd);
    }

    lemma SpanIs()
      ensures screen.Span() == Range(screen.refreshStart, screen.refreshEnd)
    {
    }

    /** A high surrogate at the very end of the data is kept for the next write. */
    method KeepSurrogate(u: CodeUnit)
      requires Sound()
      modifies `surrogateHigh
      ensures surrogateHigh == [u] && State() == old(State()) && Mark() == old(Mark()) && Sound()
    {
      surrogateHigh := [u];
    }

    /** The leftover surrogate goes in front of the new data. */
    method TakeSurrogate(data0: Text) returns (data: Text)
      requires Sound()
      modifies `surrogateHigh
      ensures data == old(surrogateHigh) + data0 && surrogateHigh == []
      ensures State() == old(State()) && Mark() == old(Mark()) && Sound()
    {
      data := data0;
      if surrogateHigh != [] {
        data := surrogateHigh + data;
        surrogateHigh := [];
      }
    }

    lemma IsReady(r: Reaction)
      requires Sound() && EmuInv(State()) && ParserOk() && surrogateHigh == []
      requires AllWellFormed(r.cmds) && AdmissibleAll(State(), r.cmds)
      ensures Ready(r)
    {
    }

    lemma HasTaken(r: Reaction, e: Emu, n: Note, rows: seq<Markup>)
      requires EmuInv(e) && AllWellFormed(r.cmds) && AdmissibleAll(e, r.cmds) && Took(r, e, n, rows)
      ensures ParserMode() == r.mode && ParserOk() && surrogateHigh == []
      ensures State() == ExecAll(e, r.cmds) && Sound() && Mark() == NoteAll(n, e, r.cmds) && screen.children == rows
      ensures EmuInv(State())
    {
    }

    lemma EscapedMode()
      ensures ParserMode().Escape? <==> state == Escaped
    {
    }

    /** `write`: the length is taken before the leftover surrogate goes in front, so the
        last unit is not reached when there is one. The loop goes on for as long as
        units are left, except that ESC / is read twice, once in each of two states. */
    method Write(data0: Text)
      requires Sound() && ParserOk() && SysInv(System()) && CanWrite(System(), data0)
      modifies this, screen, matcher
      ensures System() == Display.Write(old(System()), data0) && Sound() && ParserOk()
    {
      hide *;
      ghost var s := System();
      var l, i := |data0|, 0;
      SystemParts();
      WriteFacts(s, data0);
      BeginWrite();
      var data := TakeSurrogate(data0);
      ghost var e, n, total, drop := State(), Mark(), Read(s.mode, s.high, data0), |s.high|;
      AllLeft(s.mode, s.high, data0);
      LeadsFromStart(n, e, total.cmds);
      while i < l
        invariant 0 <= i && l == |data| - drop && l >= 0
        invariant Sound() && EmuInv(State()) && ParserOk() && screen.children == s.rows
        invariant surrogateHigh == [] || i >= l
        invariant var rest := Left(ParserMode(), data, i, drop);
          && Leads(Mark(), State(), rest.cmds, n, e, total.cmds)
          && rest.mode == total.mode && (if surrogateHigh == [] then rest.high else surrogateHigh) == total.high
        decreases |data| - i, if state == Escaped then 1 else 0
      {
        var u := data[i];
        var ch, code := [u], u as int;
        if IsHigh(u) {
          if i + 1 >= |data| {
            OneLeft(ParserMode(), data, i, drop);
            KeepSurrogate(u);
            i := i + 1;
            continue;
          }
          code := Combined(u, data[i + 1]);
          ch := [u, data[i + 1]];
        }
        EscapedMode();
        NextLeft(ParserMode(), data, i, drop, ch, code);
        if IsLow(code) {
          i := i + 1;
          continue;
        }
        ghost var r := React(ParserMode(), ch, code);
        LeadsOn(Mark(), State(), r.cmds, Left(r.mode, data, i + r.advance, drop).cmds, n, e, total.cmds);
        IsReady(r);
        ghost var e1, n1 := State(), Mark();
        var advance := Step(ch, code);
        HasTaken(r, e1, n1, s.rows);
        EscapedMode();
        i := i + advance;
      }
      NothingLeft(Mark(), State(), ParserMode(), data, i, drop, n, e, total.cmds);
      Parts();
      EndWrite();
      SystemParts();
    }

    // ---- Events ------------------------------------------------------------------------------------

    /** `open` makes the row elements and asks for a refresh of all of them. */
    method Open()
      requires screen.InBounds() && screen.scrollback == cfg.scrollback && screen.children == [] && screen.rows >= 0
      requires SavedInBounds() && matcher.Valid() && (fullRefreshNext ==> refreshIsQueued)
      modifies this, screen
      ensures System() == old(System()).(rows := Copies(old(screen.rows), []),
                                         pending := Request(old(Pend()), Range(0, old(screen.rows) - 1)))
      ensures Sound() && ParserOk() == old(ParserOk())
    {
      hide *;
      SystemParts();
      Parts();
      screen.InsertRows();
      Parts();
      RequestRefresh(0, screen.rows - 1);
      SystemParts();
    }

    /** A refresh request, seen from outside. */
    method RequestRefresh(start: int, end: int)
      requires Sound()
      modifies this
      ensures State() == old(State()) && Sound() && Pend() == Request(old(Pend()), Range(start, end))
      ensures ParserMode() == old(ParserMode()) && ParserOk() == old(ParserOk()) && surrogateHigh == old(surrogateHigh)
    {
      hide State, Sound, Pend, Request;
      Refresh(start, end);
    }

    /** The timer: the lock is released, and the rows asked for, or all of them, are
        rendered anew. */
    method RefreshNow()
      requires Sound() && SysInv(System()) && refreshIsQueued
      modifies this, screen
      ensures System() == Fire(old(System())) && Sound() && ParserOk() == old(ParserOk())
    {
      hide *;
      ghost var s := System();
      SystemParts();
      Parts();
      DueFacts(s);
      var start, end := ReleaseLock();
      NothingRefreshed(s, start);
      var y := start;
      while y <= end
        invariant start <= y <= end + 1 && Sound() && State() == s.emu
        invariant screen.children == Refreshed(s, start, y - 1)
        modifies screen
      {
        Parts();
        var out := RenderedRow(y);
        RefreshedOne(s, start, y);
        screen.SetRow(y, out);
        Parts();
        y := y + 1;
      }
      SystemParts();
    }

    method ReleaseLock() returns (start: int, end: int)
      requires Sound() && refreshIsQueued
      modifies `refreshIsQueued, `fullRefreshNext
      ensures State() == old(State()) && Sound() && Pend() == Idle
      ensures start == Due(old(System())).lo && end == Due(old(System())).hi
    {
      hide Above, Below, View;
      refreshIsQueued := false;
      start, end := timer.lo, timer.hi;
      if fullRefreshNext {
        start := 0;
        end := screen.rows - 1;
        fullRefreshNext := false;
      }
    }

    /** One row: the line the viewport shows there, with the cursor if it is on it. */
    method RenderedRow(y: int) returns (out: Markup)
      requires Sound() && EmuInv(State()) && 0 <= y < screen.rows
      ensures out == View(State(), y)
    {
      hide Render;
      var row := y + screen.ydisp;
      ShownLine(State(), screen.lines, screen.ybase, y);
      var line := screen.lines[row];
      var x := if screen.y == y - (screen.ybase - screen.ydisp) && cursorState && !cursorHidden then screen.x else -1;
      out := RenderRow(line, screen.cols, x);
    }

    method ScrollDisp(disp: int)
      requires Sound() && SysInv(System())
      modifies this, screen
      ensures System() == Display.ScrollDisp(old(System()), disp) && Sound() && ParserOk() == old(ParserOk())
    {
      hide *;
      SystemParts();
      Parts();
      ScrollState(System(), disp, screen.lines, screen.ybase);
      screen.ScrollDisp(disp);
      Parts();
      RequestRefresh(0, screen.rows - 1);
      SystemParts();
    }

    /** A resize from outside. */
    method ResizeTerminal(toCols: int, toRows: int)
      requires Sound() && SysInv(System())
      modifies this, screen
      ensures System() == ResizeSys(old(System()), toCols, toRows) && Sound() && ParserOk() == old(ParserOk())
    {
      hide State, Sound, Pend, EmuInv, Request, FitElements, ResizeTo, SavedAtBottom, PendingOk;
      Parts();
      ResizedSize(State(), toCols, toRows);
      Resize(toCols, toRows);
      Parts();
    }

    /** The cursor appears when the terminal is focused or a key is pressed. */
    method CursorAppears()
      requires Sound() && SysInv(System())
      modifies this, screen
      ensures System() == Display.ShowCursor(old(System())) && Sound() && ParserOk() == old(ParserOk())
    {
      hide State, Sound, Pend, EmuInv, Request, SavedAtBottom, PendingOk;
      Parts();
      ShownAlready(State());
      ShowCursor();
    }
  }
}
