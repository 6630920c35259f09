/** The emulator without its parser: the state the control functions act on and
    what each command does to it. */
module Emulator {
  import opened Sequences
  import opened TabStops
  import opened Buffer
  import opened Resizing
  import opened Attributes
  import opened Numerals

  datatype TermKind = Xterm | RxvtUnicode | LinuxConsole | ScreenTerm | OtherTerm

  /** Options that never change. */
  datatype Config = Config(scrollback: nat, convertEol: bool, kind: TermKind)

  /** All sets but DEC Special Graphics are the identity. */
  datatype Charset = Plain | Graphics

  datatype Charsets = Charsets(level: nat, sets: map<nat, Charset>, current: Charset)

  const FRESH_CHARSETS := Charsets(0, map[0 := Plain], Plain)

  datatype Emu = Emu(
    cfg: Config, buf: Buf, normal: Option<Buf>, attr: nat,
    insert: bool, wrap: bool, shown: bool, hidden: bool,
    savedX: int, savedY: int, savedCols: Option<int>,
    charsets: Charsets, sent: seq<Text>, title: Text)

  /** The global invariant. While the alternate screen is up, the saved buffer fits
      the screen it will return to. */
  ghost predicate EmuInv(e: Emu) {
    && e.cfg.scrollback != 1
    && Inv(e.buf)
    && e.attr < ATTR_LIMIT
    && 0 <= e.savedX && 0 <= e.savedY
    && (e.savedCols.Some? ==> e.savedCols.value >= 1)
    && (e.normal.Some? ==>
          Inv(e.normal.value) && e.normal.value.rows == e.buf.rows && e.normal.value.cols == e.buf.cols)
  }

  /** A new terminal of the given size. */
  function Fresh(cfg: Config, rows: int, cols: int): (e: Emu)
    requires cfg.scrollback != 1 && 1 <= rows && 1 <= cols
    ensures EmuInv(e)
  {
    Emu(cfg, FreshBuf(rows, cols), None, DEF_ATTR, false, true, false, false, 0, 0, None, FRESH_CHARSETS, [], [])
  }

  datatype Cmd =
    | Print(ch: Text, w: nat)
    | LineFeed | CarriageReturn | Backspace | Tab
    | ShiftTo(g: nat)
    | Designate(g: nat, cs: Charset)
    | FullReset | NextLine | IndexDown | IndexUp
    | SaveCursor | RestoreCursor | SetTab
    | Csi(final: CodeUnit, params: seq<nat>, prefix: Text)
    | SetTitle(text: Text)
    | StatusString(prefix: Text, request: Text)

  predicate WellFormed(c: Cmd) {
    match c
    case Print(ch, w) => |ch| >= 1 && w <= 2
    case Csi(_, params, _) => |params| >= 1
    case _ => true
  }

  /** `if (param < 1) param = 1` and `params[0] || 1` alike. */
  function Count(ps: seq<nat>): (n: nat)
    requires |ps| >= 1
    ensures n >= 1
  {
    Max(ps[0], 1)
  }

  // ---- Characters and character sets ---------------------------------------

  /** DEC Special Graphics for '`' to '~'. */
  const GRAPHICS: Text := [
    0x25c6, 0x2592, 0x0009, 0x000c, 0x000d, 0x000a, 0x00b0, 0x00b1, 0x2424, 0x000b, 0x2518, 0x2510,
    0x250c, 0x2514, 0x253c, 0x23ba, 0x23bb, 0x2500, 0x23bc, 0x23bd, 0x251c, 0x2524, 0x2534, 0x252c,
    0x2502, 0x2264, 0x2265, 0x03c0, 0x2260, 0x00a3, 0x00b7
  ]

  function Translate(cs: Charset, ch: Text): Text {
    if cs.Graphics? && |ch| == 1 && 96 <= ch[0] <= 126 then [GRAPHICS[ch[0] - 96]] else ch
  }

  function SetLevel(c: Charsets, g: nat): Charsets {
    c.(level := g, current := if g in c.sets then c.sets[g] else Plain)
  }

  function SetCharset(c: Charsets, g: nat, cs: Charset): Charsets {
    c.(sets := c.sets[g := cs], current := if c.level == g then cs else c.current)
  }

  function PrintChar(e: Emu, ch: Text, w: nat): Emu
    requires EmuInv(e) && w <= 2
  {
    e.(buf := Put(e.buf, e.cfg.scrollback, e.wrap, e.insert, e.attr, Translate(e.charsets.current, ch), w))
  }

  // ---- Resets, modes and the alternate screen --------------------------------

  /** RIS: a new terminal but for the saved cursor, saved width and title. */
  function Reset(e: Emu): (r: Emu)
    requires EmuInv(e)
    ensures EmuInv(r)
  {
    Fresh(e.cfg, e.buf.rows, e.buf.cols).(
      savedX := e.savedX, savedY := e.savedY, savedCols := e.savedCols, sent := e.sent, title := e.title)
  }

  /** DECSTR; autowrap is turned off. */
  function SoftReset(e: Emu): (r: Emu)
    requires EmuInv(e)
    ensures EmuInv(r)
  {
    e.(hidden := false, insert := false, wrap := false, attr := DEF_ATTR,
       buf := e.buf.(top := 0, bottom := e.buf.rows - 1, x := 0, y := 0),
       charsets := FRESH_CHARSETS)
  }

  /** A change of size drops the saved buffer. */
  function ResizeTo(e: Emu, x: int, y: int): (r: Emu)
    requires EmuInv(e)
    ensures EmuInv(r)
  {
    if x == e.buf.cols && y == e.buf.rows then e
    else e.(buf := Resize(e.buf, x, y), normal := None)
  }

  predicate IsAltMode(p: nat) { p == 47 || p == 1047 || p == 1049 }

  /** To the alternate screen, unless already there. */
  function EnterAlt(e: Emu): (r: Emu)
    requires EmuInv(e)
    ensures EmuInv(r)
  {
    if e.normal.Some? then e else Reset(e).(normal := Some(e.buf), shown := true)
  }

  /** Back to the saved buffer, at the current size. */
  function LeaveAlt(e: Emu): (r: Emu)
    requires EmuInv(e)
    ensures EmuInv(r)
  {
    if e.normal.None? then e
    else e.(buf := e.normal.value.(rows := e.buf.rows, cols := e.buf.cols), normal := None, shown := true)
  }

  const PRIVATE: Text := [63]   // '?'

  function SetMode(e: Emu, prefix: Text, p: nat): (r: Emu)
    requires EmuInv(e)
    ensures EmuInv(r)
  {
    if prefix == [] then
      if p == 4 then e.(insert := true) else e
    else if prefix == PRIVATE then
      if p == 2 then e.(charsets := PlainAll(e.charsets))
      else if p == 3 then ResizeTo(e.(savedCols := Some(e.buf.cols)), 132, e.buf.rows)
      else if p == 7 then e.(wrap := true)
      else if p == 25 then e.(hidden := false)
      else if IsAltMode(p) then EnterAlt(e)
      else e
    else e
  }

  function PlainAll(c: Charsets): Charsets {
    SetCharset(SetCharset(SetCharset(SetCharset(c, 0, Plain), 1, Plain), 2, Plain), 3, Plain)
  }

  /** Entering the alternate screen resets the parser, so the parameters after it
      are no longer private. */
  function PrefixAfter(e: Emu, prefix: Text, p: nat): Text {
    if prefix == PRIVATE && IsAltMode(p) && e.normal.None? then [] else prefix
  }

  function SetModes(e: Emu, prefix: Text, ps: seq<nat>): (r: Emu)
    requires EmuInv(e)
    ensures EmuInv(r)
    decreases |ps|
  {
    if ps == [] then e
    else SetModes(SetMode(e, prefix, ps[0]), PrefixAfter(e, prefix, ps[0]), ps[1..])
  }

  function ResetMode(e: Emu, prefix: Text, p: nat): (r: Emu)
    requires EmuInv(e)
    ensures EmuInv(r)
  {
    if prefix == [] then
      if p == 4 then e.(insert := false) else e
    else if prefix == PRIVATE then
      if p == 3 then
        (if e.buf.cols == 132 && e.savedCols.Some? then ResizeTo(e, e.savedCols.value, e.buf.rows) else e).(savedCols := None)
      else if p == 7 then e.(wrap := false)
      else if p == 25 then e.(hidden := true)
      else if IsAltMode(p) then LeaveAlt(e)
      else e
    else e
  }

  function ResetModes(e: Emu, prefix: Text, ps: seq<nat>): (r: Emu)
    requires EmuInv(e)
    ensures EmuInv(r)
    decreases |ps|
  {
    if ps == [] then e
    else ResetModes(ResetMode(e, prefix, ps[0]), prefix, ps[1..])
  }

  // ---- Final characters of control sequences ---------------------------------------

  const ICH: CodeUnit := 64
  const CUU: CodeUnit := 65
  const CUD: CodeUnit := 66
  const CUF: CodeUnit := 67
  const CUB: CodeUnit := 68
  const CNL: CodeUnit := 69
  const CPL: CodeUnit := 70
  const CHA: CodeUnit := 71
  const CUP: CodeUnit := 72
  const CHT: CodeUnit := 73
  const ED: CodeUnit := 74
  const EL: CodeUnit := 75
  const IL: CodeUnit := 76
  const DL: CodeUnit := 77
  const DCH: CodeUnit := 80
  const SU: CodeUnit := 83
  const SD: CodeUnit := 84
  const ECH: CodeUnit := 88
  const CBT: CodeUnit := 90
  const HPA: CodeUnit := 96
  const HPR: CodeUnit := 97
  const REP: CodeUnit := 98
  const DA: CodeUnit := 99
  const VPA: CodeUnit := 100
  const VPR: CodeUnit := 101
  const HVP: CodeUnit := 102
  const TBC: CodeUnit := 103
  const SM: CodeUnit := 104
  const RM: CodeUnit := 108
  const SGR: CodeUnit := 109
  const DSR: CodeUnit := 110
  const DECSTR: CodeUnit := 112
  const DECSTBM: CodeUnit := 114
  const SCP: CodeUnit := 115
  const RCP: CodeUnit := 117

  // ---- Cursor and margins -----------------------------------------------------

  function Clamp(v: int, size: int): int { if v < 0 then 0 else if v >= size then size - 1 else v }

  /** The column the source computes from a missing parameter; no column at all. */
  const NOT_A_COLUMN := -1

  function MoveTo(b: Buf, x: int, y: int): Buf { b.(x := x, y := y) }

  /** Cursor movements; CHA does not look at the right edge and HVP needs both parameters. */
  function MoveCursor(b: Buf, final: CodeUnit, ps: seq<nat>): (r: Buf)
    requires Inv(b) && |ps| >= 1
    ensures r == b.(x := r.x, y := r.y)
    ensures Inv(r) <==> (final == CHA ==> ps[0] <= b.cols + 1) && (final == HVP ==> |ps| >= 2)
  {
    var n := Count(ps);
    match final
    case CUU => MoveTo(b, b.x, Max(b.y - n, 0))                       // 'A'
    case CUD => MoveTo(b, b.x, Min(b.y + n, b.rows - 1))              // 'B'
    case CUF => MoveTo(b, Min(b.x + n, b.cols - 1), b.y)              // 'C'
    case CUB => MoveTo(b, Max(b.x - n, 0), b.y)                       // 'D'
    case CNL => MoveTo(b, 0, Min(b.y + n, b.rows - 1))                // 'E'
    case CPL => MoveTo(b, 0, Max(b.y - n, 0))                         // 'F'
    case CHA => MoveTo(b, n - 1, b.y)                                 // 'G'
    case CUP =>                                                       // 'H'
      MoveTo(b, if |ps| >= 2 then Clamp(ps[1] as int - 1, b.cols) else 0, Clamp(ps[0] as int - 1, b.rows))
    case CHT => MoveTo(b, ForwardTabs(b.tabs, b.cols, b.x, n), b.y)   // 'I'
    case CBT => MoveTo(b, BackwardTabs(b.tabs, b.cols, b.x, n), b.y)  // 'Z'
    case HPA => MoveTo(b, Min(n - 1, b.cols - 1), b.y)                // '`'
    case HPR => MoveTo(b, Min(b.x + n, b.cols - 1), b.y)              // 'a'
    case VPA => MoveTo(b, b.x, Min(n - 1, b.rows - 1))                // 'd'
    case VPR => MoveTo(b, b.x, Min(b.y + n, b.rows - 1))              // 'e'
    case HVP =>                                                       // 'f'
      MoveTo(b, if |ps| >= 2 then Min(Max(ps[1], 1) - 1, b.cols - 1) else NOT_A_COLUMN, Min(n - 1, b.rows - 1))
    case _ => b
  }

  /** `params[i] || otherwise`. */
  function Or(ps: seq<nat>, i: nat, otherwise: int): int {
    if i < |ps| && ps[i] != 0 then ps[i] else otherwise
  }

  /** DECSTBM takes any margins it is given. */
  function SetScrollRegion(b: Buf, ps: seq<nat>): (r: Buf)
    requires Inv(b) && |ps| >= 1
    ensures Inv(r) <==> Or(ps, 0, 1) <= Or(ps, 1, b.rows) <= b.rows
  {
    b.(top := Or(ps, 0, 1) - 1, bottom := Or(ps, 1, b.rows) - 1, x := 0, y := 0)
  }

  function Restore(e: Emu): (r: Emu)
    requires EmuInv(e)
    ensures EmuInv(r) <==> e.savedX <= e.buf.cols && e.savedY < e.buf.rows
  {
    e.(buf := MoveTo(e.buf, e.savedX, e.savedY))
  }

  function TabClear(b: Buf, ps: seq<nat>): (r: Buf)
    requires Inv(b) && |ps| >= 1
    ensures Inv(r)
  {
    if ps[0] == 0 then b.(tabs := b.tabs - {b.x})
    else if ps[0] == 3 then b.(tabs := {})
    else b
  }

  // ---- Reports -----------------------------------------------------------------

  const ESC: CodeUnit := 27

  function Send(e: Emu, t: Text): Emu { e.(sent := e.sent + [t]) }

  /** ESC [ row ; column R. */
  function CursorReport(b: Buf): Text
    requires 0 <= b.x && 0 <= b.y
  {
    [ESC, 91] + Decimal(b.y + 1) + [59] + Decimal(b.x + 1) + [82]
  }

  function DeviceStatus(e: Emu, ps: seq<nat>): (r: Emu)
    requires EmuInv(e) && |ps| >= 1
    ensures r == e.(sent := r.sent)
  {
    if ps[0] == 5 then Send(e, [ESC, 91, 48, 110])                         // ESC [ 0 n
    else if ps[0] == 6 then Send(e, CursorReport(e.buf))
    else e
  }

  function DeviceAttributes(e: Emu, prefix: Text, ps: seq<nat>): (r: Emu)
    requires EmuInv(e) && |ps| >= 1
    ensures r == e.(sent := r.sent)
  {
    if ps[0] > 0 then e
    else if prefix == [] then
      match e.cfg.kind
      case OtherTerm => e
      case LinuxConsole => Send(e, [ESC, 91, 63, 54, 99])                  // ESC [ ? 6 c
      case _ => Send(e, [ESC, 91, 63, 49, 59, 50, 99])                     // ESC [ ? 1 ; 2 c
    else if prefix == [62] then
      match e.cfg.kind
      case Xterm => Send(e, [ESC, 91, 62, 48, 59, 50, 55, 54, 59, 48, 99])        // ESC [ > 0 ; 276 ; 0 c
      case RxvtUnicode => Send(e, [ESC, 91, 62, 56, 53, 59, 57, 53, 59, 48, 99])  // ESC [ > 85 ; 95 ; 0 c
      case LinuxConsole => Send(e, Decimal(ps[0]) + [99])
      case ScreenTerm =>
        Send(e, [ESC, 91, 62, 56, 51, 59, 52, 48, 48, 48, 51, 59, 48, 99])        // ESC [ > 83 ; 40003 ; 0 c
      case OtherTerm => e
    else e
  }

  const STATUS_PREFIX: Text := [36, 113]   // "$q"
  const TERMCAP_PREFIX: Text := [43, 113]  // "+q"

  /** top ; bottom r, as DECSTBM would take it. */
  function MarginReport(b: Buf): Text
    requires 0 <= b.top && 0 <= b.bottom
  {
    Decimal(b.top + 1) + [59] + Decimal(b.bottom + 1) + [DECSTBM]
  }

  function StatusReply(b: Buf, request: Text): Text
    requires Inv(b)
  {
    if request == [34, 113] then [48, 34, 113]                             // "q -> 0"q
    else if request == [34, 112] then [54, 49, 34, 112]                    // "p -> 61"p
    else if request == [DECSTBM] then MarginReport(b)                      // r
    else if request == [109] then [48, 109]                                // m -> 0m
    else []
  }

  /** DECRQSS and the termcap query; both always answer "invalid" (0). */
  function ReportStatus(e: Emu, prefix: Text, request: Text): (r: Emu)
    requires EmuInv(e)
    ensures r == e.(sent := r.sent)
  {
    if prefix == STATUS_PREFIX then Send(e, [ESC, 80, 48, 36, 114] + StatusReply(e.buf, request) + [ESC, 92])
    else if prefix == TERMCAP_PREFIX then
      Send(e, [ESC, 80, 48, 43, 114] + (if request == [] then [ZERO] else request) + [ESC, 92])
    else e
  }

  // ---- Commands -----------------------------------------------------------------

  /** The control sequences that only touch the buffer's contents. */
  function EditBuffer(b: Buf, attr: nat, final: CodeUnit, ps: seq<nat>): (r: Buf)
    requires Inv(b) && |ps| >= 1
    ensures Inv(r) <==> (final == REP ==> b.x + Count(ps) <= b.cols)
    ensures Edits(b, r, 0, b.rows - 1)
  {
    match final
    case ICH => InsertChars(b, Count(ps), attr)  // '@'
    case ED => EraseInDisplay(b, ps[0], attr)    // 'J'
    case EL => EraseInLine(b, ps[0], attr)       // 'K'
    case IL => InsertLines(b, Count(ps), attr)   // 'L'
    case DL => DeleteLines(b, Count(ps), attr)   // 'M'
    case DCH => DeleteChars(b, Count(ps), attr)  // 'P'
    case SU => ScrollUp(b, Count(ps))            // 'S'
    case ECH => EraseChars(b, Count(ps), attr)   // 'X'
    case REP => RepeatCell(b, Count(ps))         // 'b'
    case _ => b
  }

  predicate IsMove(final: CodeUnit) {
    CUU <= final <= CHT || final == CBT || final == HPA || final == HPR || VPA <= final <= HVP
  }

  predicate IsEdit(final: CodeUnit) {
    final == ICH || ED <= final <= DL || final == DCH || final == SU || final == ECH || final == REP
  }

  function ExecCsi(e: Emu, final: CodeUnit, ps: seq<nat>, prefix: Text): Emu
    requires EmuInv(e) && |ps| >= 1
  {
    if IsMove(final) then e.(buf := MoveCursor(e.buf, final, ps))
    else if IsEdit(final) then e.(buf := EditBuffer(e.buf, e.attr, final, ps))
    else ExecOther(e, final, ps, prefix)
  }

  function ExecOther(e: Emu, final: CodeUnit, ps: seq<nat>, prefix: Text): Emu
    requires EmuInv(e) && |ps| >= 1
  {
    match final
    case SD =>                                                                         // 'T'
      if |ps| < 2 && prefix == [] then e.(buf := ScrollDown(e.buf, Count(ps))) else e
    case DA => DeviceAttributes(e, prefix, ps)                                         // 'c'
    case TBC => e.(buf := TabClear(e.buf, ps))                                         // 'g'
    case SM => SetModes(e, prefix, ps)                                                 // 'h'
    case RM => ResetModes(e, prefix, ps)                                               // 'l'
    case SGR => if prefix == [] then e.(attr := SgrAttr(e.attr, ps)) else e            // 'm'
    case DSR => if prefix == [] then DeviceStatus(e, ps) else e                        // 'n'
    case DECSTR => if prefix == [33] then SoftReset(e) else e                          // 'p'
    case DECSTBM => if prefix == [] then e.(buf := SetScrollRegion(e.buf, ps)) else e  // 'r'
    case SCP => e.(savedX := e.buf.x, savedY := e.buf.y)                               // 's' save cursor
    case RCP => Restore(e)                                                             // 'u' restore cursor
    case _ => e
  }

  function Exec(e: Emu, c: Cmd): Emu
    requires EmuInv(e) && WellFormed(c)
  {
    var b := e.buf;
    match c
    case Print(ch, w) => PrintChar(e, ch, w)
    case LineFeed => e.(buf := Index(if e.cfg.convertEol then b.(x := 0) else b, e.cfg.scrollback))
    case CarriageReturn => e.(buf := b.(x := 0))
    case Backspace => e.(buf := b.(x := Max(b.x - 1, 0)))
    case Tab => e.(buf := b.(x := NextStop(b.tabs, b.cols, b.x)))
    case ShiftTo(g) => e.(charsets := SetLevel(e.charsets, g))
    case Designate(g, cs) => e.(charsets := SetCharset(e.charsets, g, cs))
    case FullReset => Reset(e)
    case NextLine => e.(buf := Index(b.(x := 0), e.cfg.scrollback))
    case IndexDown => e.(buf := Index(b, e.cfg.scrollback))
    case IndexUp => e.(buf := ReverseIndex(b, e.attr))
    case SaveCursor => e.(savedX := b.x, savedY := b.y)
    case RestoreCursor => Restore(e)
    case SetTab => e.(buf := b.(tabs := b.tabs + {b.x}))
    case Csi(final, params, prefix) => ExecCsi(e, final, params, prefix)
    case SetTitle(text) => e.(title := text)
    case StatusString(prefix, request) => ReportStatus(e, prefix, request)
  }

  /** What a caller has to check before a control sequence: the column of CHA, the
      parameters of HVP, the reach of REP, the margins of DECSTBM and the saved
      position of a restored cursor. */
  predicate AdmissibleCsi(e: Emu, final: CodeUnit, ps: seq<nat>, prefix: Text)
    requires |ps| >= 1
  {
    match final
    case CHA => ps[0] <= e.buf.cols + 1
    case REP => e.buf.x + Count(ps) <= e.buf.cols
    case HVP => |ps| >= 2
    case DECSTBM => prefix == [] ==> Or(ps, 0, 1) <= Or(ps, 1, e.buf.rows) <= e.buf.rows
    case RCP => e.savedX <= e.buf.cols && e.savedY < e.buf.rows
    case _ => true
  }

  /** Wide characters also need a second column to wrap to. */
  predicate Admissible(e: Emu, c: Cmd)
    requires WellFormed(c)
  {
    match c
    case Print(_, w) => !(w == 2 && e.buf.cols == 1 && e.wrap)
    case RestoreCursor => e.savedX <= e.buf.cols && e.savedY < e.buf.rows
    case Csi(final, params, prefix) => AdmissibleCsi(e, final, params, prefix)
    case _ => true
  }

  /** The guard is exact: the global invariant survives a control sequence if and
      only if the guard let it through. */
  lemma CsiKeepsInvariant(e: Emu, final: CodeUnit, ps: seq<nat>, prefix: Text)
    requires EmuInv(e) && |ps| >= 1
    ensures EmuInv(ExecCsi(e, final, ps, prefix)) <==> AdmissibleCsi(e, final, ps, prefix)
  {
    if !IsMove(final) && !IsEdit(final) { OtherKeepsInvariant(e, final, ps, prefix); }
  }

  lemma OtherKeepsInvariant(e: Emu, final: CodeUnit, ps: seq<nat>, prefix: Text)
    requires EmuInv(e) && |ps| >= 1 && !IsMove(final) && !IsEdit(final)
    ensures EmuInv(ExecOther(e, final, ps, prefix)) <==> AdmissibleCsi(e, final, ps, prefix)
  {
    hide SetModes, ResetModes, Restore, SoftReset, SgrAttr, DeviceStatus, DeviceAttributes, ScrollDown;
    var r := ExecOther(e, final, ps, prefix);
    match final
    case DA | DSR => assert r == e.(sent := r.sent);
    case SM => assert r == SetModes(e, prefix, ps);
    case RM => assert r == ResetModes(e, prefix, ps);
    case RCP => assert r == Restore(e);
    case DECSTBM =>
    case _ =>
  }

  lemma ExecKeepsInvariant(e: Emu, c: Cmd)
    requires EmuInv(e) && WellFormed(c)
    ensures EmuInv(Exec(e, c)) <==> Admissible(e, c)
  {
    if c.Csi? { CsiKeepsInvariant(e, c.final, c.params, c.prefix); }
  }

  // ---- Runs of commands -----------------------------------------------------------

  ghost predicate AllWellFormed(cmds: seq<Cmd>) {
    forall i {:trigger cmds[i]} :: 0 <= i < |cmds| ==> WellFormed(cmds[i])
  }

  /** Every command is admissible in the state the ones before it leave behind. */
  ghost predicate AdmissibleAll(e: Emu, cmds: seq<Cmd>)
    requires EmuInv(e) && AllWellFormed(cmds)
    decreases |cmds|
  {
    cmds == [] || (
      Admissible(e, cmds[0]) && (
        ExecKeepsInvariant(e, cmds[0]);
        AdmissibleAll(Exec(e, cmds[0]), cmds[1..])))
  }

  /** The state after a run; the invariant holds throughout. */
  ghost function ExecAll(e: Emu, cmds: seq<Cmd>): (r: Emu)
    requires EmuInv(e) && AllWellFormed(cmds) && AdmissibleAll(e, cmds)
    ensures EmuInv(r)
    decreases |cmds|
  {
    if cmds == [] then e
    else
      ExecKeepsInvariant(e, cmds[0]);
      ExecAll(Exec(e, cmds[0]), cmds[1..])
  }

  lemma {:induction false} ExecAllComposes(e: Emu, a: seq<Cmd>, b: seq<Cmd>)
    requires EmuInv(e) && AllWellFormed(a) && AllWellFormed(b)
    ensures AllWellFormed(a + b)
    ensures AdmissibleAll(e, a + b) <==> AdmissibleAll(e, a) && AdmissibleAll(ExecAll(e, a), b)
    ensures AdmissibleAll(e, a + b) ==> ExecAll(e, a + b) == ExecAll(ExecAll(e, a), b)
    decreases |a|
  {
    hide Exec, Admissible, EmuInv;
    if a == [] {
      assert a + b == b;
    } else {
      assert (a + b)[1..] == a[1..] + b;
      if Admissible(e, a[0]) {
        ExecKeepsInvariant(e, a[0]);
        ExecAllComposes(Exec(e, a[0]), a[1..], b);
      }
    }
  }
}
