# The terminal emulator of `static/xterm.js`, verified

This project models the emulator behind the browser terminal, without the browser: the
line array with its scrollback offsets, the cursor, margins and tab stops, the
alternate screen, the escape-sequence parser, character attributes and colours, the
rows last rendered, and the two queues that connect the terminal to its peer.

It has four layers.

* **What the emulator means.** A buffer is a scrollback history above a screen of exactly
  `rows` lines (`Buffer`, `Resizing`); every operation on the spliced array has a closed
  form there. `Emulator` is the state the control functions act on and what each command
  does to it, `Parser` reads a text into commands, `Rendering` turns a row into markup,
  `Refreshing` and `Display` are the render cache with its debounced timer, `Attributes`,
  `Palette`, `Widths` and `TabStops` the tables and lookups, `Queues` the timer-driven
  queues.
* **What the source does.** `Screens.Screen` and `Xterm.Terminal` have the source's fields,
  loops and splices; each method is proved to compute what the first layer says. The
  source keeps all these fields in one object; here the screen half is an object of its
  own, so that what an operation cannot touch shows in its frame. `Loops`, `Splices` and
  `Reading` hold the single steps of the loops. `LineObjects` has the arrays and lines as
  objects on the heap and shows that the two line stores never share one.
* **What follows.** Laws and properties of whole runs: the global invariant with its exact
  guard (`Emulator`), coherence of the render cache (`Display`) with the exact effect of the
  commands that announce nothing (`Looks`, `Silence`), scrollback conservation and the
  alternate screen (`Effects`), autowrap layout (`Autowrap`), laws of the editing functions
  (`Editing`, `Erasing`), round trips of resizing (`Resizing`), replayed reports and whole
  sessions (`Replays`), independence of chunks with the exact cuts that break it (`Chunks`,
  `Cuts`), and the terminal object driven by events from the moment it is opened
  (`Sessions`).
* **What a text does.** The same terminal seen from outside, as texts sent to it and fields
  found afterwards, so that the reading of a text, the choice of the command and its effect
  are stated in one: control characters and short escapes (`Controls`, `Escapes`), cursor
  movements and the laws between them (`Moves`), SGR lists by the last parameter that
  writes a field (`Pens`), printed rows cell by cell (`Printing`), pages of narrow and wide
  characters and line breaks (`Pages`), lines without autowrap (`Sticking`), strings,
  modes, questions and their answers (`Strings`, `Modes`, `Reports`), and the classes of a
  rendered span (`Styles`). `Texts` has the vocabulary.

`dafny verify dfyconfig.toml` checks all of it.

Some of the properties one would like to have are false of the code. Each is stated as an
equivalence with the condition under which it holds, and where a picture helps there is a
concrete input:

* ICH, DCH, ECH and REP do not announce the row they change, and RI above the top margin
  not all the rows it moves. The display stays right if and only if the guard of the
  command holds (`Silence.SilentEditExactly`, `Silence.ReverseIndexExactly`), and a whole
  write keeps it coherent if and only if the rows it leaves to no refresh look as before
  (`Display.WriteCoherentExactly`). Pictures: `Silence.SilentEditBelow`,
  `Silence.SilentInsertGoesStale`.
* A chunk that ends in a skip or in half a surrogate pair reads differently from the whole:
  where a text is cut does not matter, whatever follows, if and only if the cut is clean,
  for the parser (`Cuts.ExactCut`) and for the terminal (`Cuts.ExactCutFeeds`). Pictures:
  `Parser.OvershootingCutMatters`, `Parser.SplitPairLosesLastUnit`.
* The scrollback stays below its limit in any run, but a shrink moves rows into it: it stays
  below if and only if they fit (`Resizing.ShrinkHistory`), and once it is past the limit
  nothing is ever trimmed again (`Effects.ShrinkEndsTrimming`).
* A cursor report does not restore a cursor that was waiting to wrap; ED 0 and ED 1 from
  there erase a cell too many; a resize round trip restores lines only if none was
  overlong; and the buffered socket writes `null` when a message comes right behind an
  empty one.

Where the code and its own comments disagree, the code is followed: `resetMode` 1049 does
not restore the cursor position that `saveCursor` kept, `softReset` turns autowrap off,
and RIS leaves the saved cursor and the title as they were.

Two limits of the code are kept as preconditions: the scrollback limit is not 1, where a
scroll can lose or gain a line (`Limits.ScrollKeepsSize` says exactly when), and sizes are
positive. Everything else that can go wrong is either handled as the code handles it
or guarded by `Emulator.Admissible`, which is proved exact.

## Model

| member | source | states |
|---|---|---|
| `Display.DisplayIsFaithful` | static/xterm.js:1202-1401 | after any run of writes, timer firings, resizes, viewport scrolls and cursor appearances from a newly opened terminal, each of them meeting the exact condition of `EventKeepsCoherence`: with no refresh pending every row element shows exactly its buffer row and cursor, and a pending refresh stays within the rows of the screen; cells are values, so a mark in a shared blank shows in one place only |
| `Sessions.Serve` | static/xterm.js:156-2990 | the object itself, made, opened and driven by any enabled events, is in the state the events lead to, and whenever no refresh is pending its row elements show exactly its buffer; cells are values here too |
| `Sessions.Handle` | static/xterm.js:1202-2990 | one event, handled by the object, is the event of the display |
| `Display.RunKeepsCoherence` | static/xterm.js:1216-1240 | every event keeps: a row that differs from what it should show is covered by the pending refresh |
| `Display.WriteKeepsCoherence` | static/xterm.js:1476-2521 | a write whose changes all lie in the announced range (or under a full refresh) keeps the render cache coherent; the other half is `WriteCoherentExactly` |
| `Display.WriteCoherentExactly` | static/xterm.js:1476-2521 | any write keeps the render cache coherent if and only if every row it leaves to no refresh looks, the cursor aside, as it did when the write began |
| `Display.HeardRowsStay` | static/xterm.js:1476-2521 | which is so whenever all its changes are announced |
| `Display.FireBringsUpToDate` | static/xterm.js:1231-1394 | an executed refresh lies within rows 0..rows-1, whatever resizes came in between, and leaves every row up to date |
| `Display.RequestsRender` | static/xterm.js:1216-1240 | one request and no more renders exactly its rows, a second one all rows |
| `Display.ResizeKeepsCoherence` | static/xterm.js:2884-2990 | a resize keeps the render cache coherent, new and removed row elements included |
| `Display.ScrollDispKeepsCoherence` | static/xterm.js:1460-1470 | scrolling the viewport keeps the render cache coherent |
| `Display.ViewportShifts` | static/xterm.js:1460-1470 | the viewport moves by disp as far as history and screen reach, and row r shows what row r + disp showed |
| `Display.ElementsStay` | static/xterm.js:2936-2962 | row elements that stay keep what was rendered into them |
| `Display.ShowCursorCoherence` | static/xterm.js:1406-1411 | `showCursor` refreshes the screen row, not the viewport row: it keeps coherence if and only if the cursor was shown already, is hidden, a refresh is pending, the viewport is at the bottom, or the cursor is not in view |
| `Display.CursorIsDrawn` | static/xterm.js:1266-1287 | a row looks different with a cursor if and only if the cursor stands on a cell of non-zero width inside the screen |
| `Display.EventKeepsCoherence` | static/xterm.js:1202-1240 | any event that can happen keeps the render cache coherent if and only if it is enabled: the rows a write leaves to no refresh look as before, and an appearing cursor meets the condition of `ShowCursorCoherence` |
| `Refreshing.CommandKeepsRows` | static/xterm.js:2996-3005 | no command changes a row outside the interval it is said to change, and what it announces stays on the screen |
| `Refreshing.MostCommandsAreHeard` | static/xterm.js:2996-3013 | only ICH, DCH, ECH, REP, and RI above the top margin can change a row that `updateRange` is not told of |
| `Refreshing.SpokenRunsAreHeard` | static/xterm.js:2996-3013 | a write without ICH, DCH, ECH, REP and RI has all its changes within the range it announces |
| `Refreshing.StepTracks` | static/xterm.js:2996-3013 | one command keeps: rows outside the announced range and not covered by a refresh are displayed as they are |
| `Refreshing.RunTracks` | static/xterm.js:1493-2519 | the same over all commands of a write |
| `Refreshing.StepFits` | static/xterm.js:2996-3013 | one command, heard or not: the announced range stays on the screen and only grows, and a pending refresh is kept |
| `Refreshing.RunFits` | static/xterm.js:1493-2519 | the same over all commands of a write |
| `Looks.RenderedAlike` | static/xterm.js:1273-1393 | two rows are rendered to the same markup if and only if their visible cells have the same attributes and spellings in the same order |
| `Silence.TracksExactly` | static/xterm.js:2996-3013 | for every command: the rows on display go on being right where they have to be if and only if the rows left neither announced nor covered look as they did |
| `Silence.EditShows` | static/xterm.js:3642-3789 | whether ICH, DCH, ECH or REP leaves its row looking the same can be told beforehand: if and only if the guard on the cells from the cursor on holds |
| `Silence.DeleteOnFullLine` | static/xterm.js:3757-3770 | on a line as wide as the screen the guard of DCH says that the deleted cells and everything visible behind them look erased |
| `Silence.SilentEditExactly` | static/xterm.js:3642-3789 | ICH, DCH and ECH, and REP at 4447, keep the display right if and only if their row is announced or covered anyway, or that guard holds |
| `Silence.ReverseIndexExactly` | static/xterm.js:3187-3203 | RI keeps it right if and only if the cursor is not above the region, a refresh of everything is on its way, or each row moved unannounced looks like the one above it and the cursor row erased |
| `Silence.SilentEditBelow` | static/xterm.js:3642-3789 | sent as a text to a terminal at rest with its display up to date, each of the four leaves row 2 stale with no refresh on its way if and only if its guard fails |
| `Silence.SilentInsertGoesStale` | static/xterm.js:3642-3656 | a picture: ICH 1 as a text, on a row with something visible in its first column, leaves that row stale with no refresh on its way |
| `Refreshing.RequestsWholeScreen` | static/xterm.js:2978-2985 | a command that asks for refreshes asks for the whole screen first, and the viewport stays at the bottom |
| `Emulator.ExecKeepsInvariant` | static/xterm.js:1515-2516 | the global invariant (line counts, cursor and margin ranges, every line at least `cols` cells, saved buffer of the current size) survives a command if and only if the caller-checkable guard holds |
| `Emulator.CsiKeepsInvariant` | static/xterm.js:1995-2417 | the same for control sequences: the guard speaks of CHA, REP, one-parameter HVP, DECSTBM and restored cursors, and is exact |
| `Emulator.OtherKeepsInvariant` | static/xterm.js:2033-2220 | the part of it for the sequences that are neither cursor moves nor edits |
| `Emulator.ExecAll` | static/xterm.js:1493-2516 | the invariant holds after any admissible run of commands |
| `Emulator.ExecAllComposes` | static/xterm.js:1493-2516 | a run of two lists of commands is the run of one and then the other, and admissibility splits the same way |
| `Emulator.Fresh` | static/xterm.js:156-315 | a new terminal meets the invariant |
| `Emulator.Reset` | static/xterm.js:3209-3214 | RIS keeps the invariant |
| `Emulator.SoftReset` | static/xterm.js:4550-4564 | DECSTR keeps the invariant |
| `Emulator.ResizeTo` | static/xterm.js:2884-2990 | resizing keeps the invariant |
| `Emulator.EnterAlt` | static/xterm.js:4115-4139 | entering the alternate screen keeps the invariant, of the saved buffer too |
| `Emulator.LeaveAlt` | static/xterm.js:4296-4317 | leaving it does |
| `Emulator.SetModes` | static/xterm.js:4022-4142 | a list of modes keeps the invariant |
| `Emulator.ResetModes` | static/xterm.js:4226-4320 | a list of reset modes does |
| `Emulator.MoveCursor` | static/xterm.js:3234-3311 | cursor moves change the cursor only and keep the invariant if and only if CHA stays within cols + 1 and HVP has two parameters; which way and how far each goes is stated in `Moves` |
| `Emulator.SetScrollRegion` | static/xterm.js:4329-4335 | keeps the invariant if and only if the margins are in order and on the screen |
| `Emulator.Restore` | static/xterm.js:4352-4355 | keeps the invariant if and only if the saved position is on the screen |
| `Emulator.EditBuffer` | static/xterm.js:3642-3789 | edits change rows and cursor only and keep the invariant if and only if REP stays within the line |
| `Buffer.ScrolledHistory` | static/xterm.js:1419-1422 | history after a scroll is the end of the old history (with the top row joined to it when the region starts there), halved exactly when the limit is reached |
| `Buffer.Scroll` | static/xterm.js:1416-1454 | keeps the invariant in trim and non-trim cases alike |
| `Limits.RawScrollIsScroll` | static/xterm.js:1416-1449 | slice, splices and offset, taken as they stand, are that scroll for every limit but 1 |
| `Limits.ScrollKeepsSize` | static/xterm.js:1416-1449 | for every limit: the array keeps one line per row below `ybase` if and only if it is not a limit of 1 that is reached with a top margin set or on a screen of a single row |
| `Limits.LimitOfOne` | static/xterm.js:1419-1422 | with a limit of 1 an empty history stays empty while the region moves up, and any other is never trimmed |
| `Buffer.Index` | static/xterm.js:3174-3181 | keeps the invariant |
| `Buffer.ReverseIndex` | static/xterm.js:3187-3203 | keeps the invariant and changes no row outside cursor..bottom margin |
| `Buffer.InsertLines` | static/xterm.js:3703-3723 | keeps the invariant and changes only the rows between cursor and bottom margin, below the margin too |
| `Buffer.DeleteLines` | static/xterm.js:3730-3750 | the same for DL |
| `Buffer.ScrollUp` | static/xterm.js:4377-4386 | keeps the invariant and changes the scroll region only |
| `Buffer.ScrollDown` | static/xterm.js:4392-4401 | the same for SD |
| `Buffer.EraseRight` | static/xterm.js:3068-3078 | keeps the invariant and changes its row only |
| `Buffer.EraseLeft` | static/xterm.js:3087-3095 | the same, also at the pending-wrap position where the line grows by a cell |
| `Buffer.EraseRows` | static/xterm.js:3329-3351 | every row of the range has its first cols cells blank, the others are as before |
| `Buffer.EraseInLine` | static/xterm.js:3365-3377 | changes the cursor row only; a mode above 2 changes nothing; the three modes cell by cell are `Erasing.ErasedLine` |
| `Buffer.EraseInDisplay` | static/xterm.js:3326-3351 | changes the rows of its mode only; a mode above 2 changes nothing |
| `Buffer.InsertChars` | static/xterm.js:3642-3656 | keeps the invariant and changes the cursor row only |
| `Buffer.DeleteChars` | static/xterm.js:3757-3770 | the same for DCH |
| `Buffer.EraseChars` | static/xterm.js:3776-3789 | the same for ECH |
| `Buffer.RepeatCell` | static/xterm.js:4447-4453 | REP keeps the invariant if and only if the cursor stays within the line |
| `Buffer.Combine` | static/xterm.js:1583-1599 | a combining mark changes one cell of the cursor row and moves nothing, for a cell that is not shared: a blank from a resize or a blank line would show it in several places |
| `Buffer.Shove` | static/xterm.js:1622-1634 | an insert-mode move keeps the length of the line |
| `Buffer.Place` | static/xterm.js:1619-1645 | a placed character advances the cursor by its width and keeps the invariant if and only if it fits; the row it leaves is `Printing.PlacedRow` |
| `Buffer.Put` | static/xterm.js:1569-1647 | printing keeps the invariant if and only if the character is not a wide one wrapped on a one-column screen; what it leaves where is `Printing.PutCharacter` |
| `Editing.ScrollMovesRegion` | static/xterm.js:1416-1454 | a scroll moves rows scrollTop..scrollBottom up by one, blanks the last, leaves the other rows alone; history is a suffix of history ++ [row 0] or of history, and is cut only at the limit |
| `Editing.LineBlocksMove` | static/xterm.js:3703-3750 | IL n and DL n are n-place block moves between cursor and bottom margin filled with blanks, for every n, and touch nothing else |
| `Editing.RegionMoves` | static/xterm.js:4377-4401 | SU n and SD n likewise on the scroll region |
| `Editing.LineCountsAdd` | static/xterm.js:3703-3750 | IL (DL) m and then n is IL (DL) m + n, wherever the cursor is |
| `Editing.RegionCountsAdd` | static/xterm.js:4377-4401 | the same for SU and SD |
| `Editing.DeleteUndoesInsert` | static/xterm.js:3703-3750 | DL n after IL n restores the rows except that the last min(n, height) are blank |
| `Editing.ScrollUpUndoesScrollDown` | static/xterm.js:4377-4401 | SU n after SD n likewise |
| `Editing.CharEditsInClosedForm` | static/xterm.js:3642-3770 | on a full line ICH n is insert-and-cut and DCH n delete-and-pad for every n |
| `Editing.DeleteCharsUndoesInsertChars` | static/xterm.js:3642-3770 | DCH n after ICH n restores the line except its last min(n, cols - x) cells |
| `Editing.BelowAndAboveIsAll` | static/xterm.js:3326-3351 | ED 0 and then ED 1 is ED 2, history untouched, if and only if the cursor is not waiting to wrap or a blank already stands behind the last column |
| `Erasing.ErasedLine` | static/xterm.js:3365-3377 | EL cell by cell: mode 0 blanks the columns from the cursor to the edge, mode 1 those up to and including the cursor, mode 2 all; every other cell, cursor and history stay |
| `Erasing.DisplayAndLine` | static/xterm.js:3326-3377 | on the cursor row ED does what EL does, in every mode |
| `Erasing.RightAndLeftIsAll` | static/xterm.js:3365-3377 | EL 0 and then EL 1 is EL 2 under the same exact condition as for ED |
| `Erasing.ErasedAndRepeated` | static/xterm.js:3776-3789 | ECH blanks n cells as far as the edge; REP, at 4447, copies the cell before the cursor, or a blank in column 0, n times and moves behind the copies |
| `Erasing.CellTexts` | static/xterm.js:3642-3789 | ICH, DCH, ECH and REP as texts, 0 standing for 1; REP is admissible if and only if it stays within the line |
| `Erasing.LineTexts` | static/xterm.js:3703-3750 | IL and DL, and SU and SD at 4377, as texts |
| `Erasing.EraseTexts` | static/xterm.js:3326-3377 | EL and ED as texts; modes above 2 do nothing |
| `Erasing.UnknownSequences` | static/xterm.js:1995-2417 | a prefix, or a second parameter for SD, makes SD, SGR, DSR and DECSTBM unknown, and DECSTR is unknown without its own: they do nothing |
| `Erasing.PostfixIsPassedOver` | static/xterm.js:1983-1987 | four units are passed over wherever they stand in a sequence |
| `Effects.CommandFrame` | static/xterm.js:1416-1454 | a command that does not switch screens leaves the saved screen and the size alone and adds exactly the line it scrolls off to the scrollback |
| `Effects.ScrollbackConserved` | static/xterm.js:1419-1449 | over any run without a screen switch the scrollback is the end of what it was followed by every line scrolled off, in order and without gaps; it stays below the limit if it was, is dropped only by halving, and is never trimmed again if it was not below the limit |
| `Effects.ScrollbackFromFresh` | static/xterm.js:1419-1449 | from a fresh terminal: dropped lines plus `ybase` are the lines ever scrolled off, and `ybase` stays below the limit |
| `Effects.ShrinkEndsTrimming` | static/xterm.js:1419-1422 | after a shrink that pushes the scrollback to its limit or past it, every line scrolled off in any run without a switch is kept |
| `Effects.AltCommandFrame` | static/xterm.js:4115-4139 | on the alternate screen no command but a leave, a reset or a resize touches the saved buffer |
| `Effects.AltRunKeepsSaved` | static/xterm.js:4115-4139 | the same over runs |
| `Effects.AltScreenRoundTrip` | static/xterm.js:4296-4317 | entering, any run that does not leave, and leaving: lines, ybase, ydisp, cursor, margins and tabs are exactly as before |
| `LineObjects.LineStore.SetCell` | static/xterm.js:1636-1636 | a write into a line object shows in that line only and not in the saved array |
| `LineObjects.LineStore.InsertLine` | static/xterm.js:1440-1440 | a splice of a new line shows in its own array only |
| `LineObjects.LineStore.RemoveLine` | static/xterm.js:1448-1448 | a splice that removes a line likewise |
| `LineObjects.LineStore.Trim` | static/xterm.js:1421-1421 | a slice makes a new array of old lines and leaves the saved one alone |
| `LineObjects.ScrollIsEdits` | static/xterm.js:1416-1454 | a slice when the limit is reached, a splice of a blank line and a splice of the line that leaves the region come to `scroll`, history and margins included |
| `LineObjects.LineBlocksAreEdits` | static/xterm.js:3703-3750 | n pairs of splices on the line array come to IL n, and to DL n with the two places exchanged |
| `LineObjects.EraseIsEdits` | static/xterm.js:3068-3078 | cells written one after another come to `eraseRight` |
| `LineObjects.LineStore.Apply` | static/xterm.js:1416-1454 | any single write, splice or slice computes on the objects what it computes on values, and the saved array cannot tell |
| `LineObjects.LineStore.ApplyAll` | static/xterm.js:1416-1454 | so does any list of them, such as those of `ScrollIsEdits`, `LineBlocksAreEdits` and `EraseIsEdits` |
| `LineObjects.LineStore.Enter` | static/xterm.js:4118-4137 | the alternate screen gets an array and lines of its own |
| `LineObjects.LineStore.Leave` | static/xterm.js:4299-4307 | the old array is back |
| `LineObjects.LineStore.Visit` | static/xterm.js:4115-4317 | whatever is edited between entering and leaving, no object that was there before is written to |
| `Autowrap.PutNarrow` | static/xterm.js:1603-1646 | one narrow character: the next cell, or the first of the next line with everything moved up when there is none |
| `Autowrap.ScrolledLines` | static/xterm.js:1416-1454 | a full-height scroll appends a blank line to history ++ screen and takes away at the top what was trimmed |
| `Autowrap.AutowrapLayout` | static/xterm.js:1569-1647 | character k of n stands in column (x+k) mod cols of the line (x+k) div cols below the start, counted with the scrolled and trimmed lines |
| `Autowrap.PrintableScan` | static/xterm.js:1563-1647 | printable ASCII is read as one print command per character |
| `Autowrap.PrintsType` | static/xterm.js:1563-1647 | running those commands is printing them one after another |
| `Autowrap.TextIsLaidOut` | static/xterm.js:1493-1647 | a printable text, read and executed, is laid out as above |
| `Printing.PlacedRow` | static/xterm.js:1619-1645 | the row a character leaves, cell by cell, for every width and with and without insert mode: the character, its empty half if it is wide, and all other cells unchanged or moved right by its width, what fell off gone and halved wide characters blanked |
| `Printing.PutCharacter` | static/xterm.js:1600-1645 | a character goes where the cursor is, to the next line if there is no room, or to the last column without autowrap, and leaves its row as above |
| `Printing.PutSticks` | static/xterm.js:1605-1617 | a wide character without room and without autowrap is not shown at all |
| `Printing.MarkJoins` | static/xterm.js:1583-1599 | a combining mark joins the character it follows, wide or narrow, and changes nothing else |
| `Printing.CharacterText` | static/xterm.js:1563-1647 | a unit or a surrogate pair as a text is that print, in the current set and pen, and is admissible if and only if it is not a wide one wrapped on a one-column screen |
| `Pages.PageIsLaidOut` | static/xterm.js:1493-1647 | any characters of one or two columns and any CR LF between them, as one text from any cursor position of a full-height region: each stands where the width rule puts it, wide ones with their empty half, however many lines were scrolled off or trimmed, and all that was behind the cursor is still there |
| `Pages.NarrowReach` | static/xterm.js:1600-1645 | for narrow characters the rule is the division of `AutowrapLayout` |
| `Pages.WideReach` | static/xterm.js:1600-1645 | n wide characters from column x: (cols - x) / 2 on the first line, cols / 2 on every other, two columns each |
| `Pages.ShortLinesStand` | static/xterm.js:1522-1539 | printable lines of at most cols characters joined by CR LF: line i stands i lines below the first, from column 0, counted with the scrolled and trimmed lines |
| `Sticking.StickingText` | static/xterm.js:1605-1617 | with autowrap and insert mode off printable text of any length stays on its line, nothing scrolls, and the last column holds its last character |
| `Resizing.Resize` | static/xterm.js:2884-2990 | keeps the invariant for every target size |
| `Resizing.ResizeKeepsCursorLine` | static/xterm.js:2884-2976 | whatever the target size, the cursor stays on its buffer line and no line down to it loses a column both widths have |
| `Resizing.ResizedLines` | static/xterm.js:2896-2976 | every line a resize keeps is as it was, padded with blanks or cut, the lines it adds are blank, the margins are the whole screen and the cursor column is held in it |
| `Resizing.ResizedStops` | static/xterm.js:2917-2917 | tab stops are set up against the old width: every eighth column from the last stop before its edge, and so a wider screen gets none beyond it |
| `Resizing.GrowShrinkRoundTrip` | static/xterm.js:2920-2976 | adding k rows and removing them restores heights and cursor row for every k; the lines come back if and only if none was overlong, the viewport if and only if it was not above the pulled rows |
| `Resizing.ShrinkGrowRoundTrip` | static/xterm.js:2920-2976 | removing k rows and adding them restores lines, split and cursor row if and only if the rows cut were blank and nothing else filled the gap |
| `Resizing.ShrinkHistory` | static/xterm.js:2948-2963 | a shrink by k rows leaves the scrollback below the limit if and only if there was room for the k rows less the blank ones cut below the cursor |
| `Parser.React` | static/xterm.js:1515-2516 | every reaction moves on by at most two units, and steps back only out of the escaped state; what each unit stands for is stated in `Controls`, `Escapes`, `Moves`, `Strings` and `Modes` |
| `Parser.Scan` | static/xterm.js:1493-2516 | reading ends on every text: the text left, then the escaped state, decreases |
| `Parser.CleanCutsDoNotMatter` | static/xterm.js:1493-1513 | reading two chunks is reading them together when the cut splits no surrogate pair and no skip; the other half is `Cuts.ExactCut` |
| `Parser.OvershootingCutMatters` | static/xterm.js:1797-1802 | a picture: ESC # at the end of a chunk forgets its skip |
| `Parser.SplitPairLosesLastUnit` | static/xterm.js:1476-1491 | after a split surrogate pair the last unit of the next chunk is not read, whatever it is |
| `Cuts.ExactCut` | static/xterm.js:1493-1513 | from any parser state, where a text is cut does not matter, whatever follows, if and only if the cut is clean: every skip cut off and every pair split changes the reading of some text behind it |
| `Parser.CsiRoundTrip` | static/xterm.js:1970-1995 | every encoded control sequence is read back as exactly its prefix, parameter list and final character, and the parser is at rest |
| `Parser.ReadDigits` | static/xterm.js:1978-1981 | a run of digits is read as its decimal value |
| `Parser.ReadList` | static/xterm.js:1989-1993 | a list of parameters joined by ';' is read back |
| `Numerals.DecimalReadsBack` | static/xterm.js:1978-1981 | the decimal rendering of a number reads back as that number |
| `Replays.ChunkIndependence` | static/xterm.js:1493-2516 | two chunks lead to the state of their concatenation whenever the cut is clean, and are admissible exactly together |
| `Replays.OneSequence` | static/xterm.js:1970-2421 | an encoded sequence does what its command does and nothing else |
| `Replays.MarginReportRestores` | static/xterm.js:2451-2457 | replaying the DECRQSS margin report restores both margins |
| `Replays.CursorReportRestores` | static/xterm.js:3594-3598 | replaying the cursor report as CUP restores the cursor if and only if it was not waiting to wrap |
| `Replays.SessionLeavesNoTrace` | static/xterm.js:4115-4317 | a text that enters the alternate screen, does anything short of leaving, and leaves restores the buffer exactly |
| `Controls.LineFeedText` | static/xterm.js:1522-1534 | LF, VT and FF keep the column, or go to column 0 if line ends are converted, and go a line down: the cursor below the bottom margin stays and the region moves up by a row, the row that leaves the top of the screen joining history |
| `Controls.ReturnText` | static/xterm.js:1537-1546 | CR goes to column 0, BS one column left of where it is, all else staying |
| `Controls.IndexTexts` | static/xterm.js:1690-1703 | ESC D and ESC E go a line down, keeping the column or to column 0; ESC M goes a line up, or at the top margin moves the rows from the cursor to the bottom margin down by one |
| `Controls.DownAndUp` | static/xterm.js:1693-1703 | inside the margins ESC D ESC M, and ESC M ESC D, lead back to the very same state |
| `Controls.NextLineIsReturnAndFeed` | static/xterm.js:1690-1692 | ESC E and CR LF have the same effect in every state |
| `Escapes.RunKeepsSaved` | static/xterm.js:4342-4345 | no run without ESC 7 and CSI s changes the saved cursor, through resets and screen switches |
| `Escapes.RestoreUndoesMoves` | static/xterm.js:4342-4355 | ESC 7, any text that saves no cursor, ESC 8: the cursor is back and all else is as the text left it, if and only if the text has not made the screen too small for that |
| `Escapes.SaveText` | static/xterm.js:1788-1792 | ESC 7 and CSI s keep the position of the cursor and do nothing else |
| `Escapes.RestoreText` | static/xterm.js:1794-1797 | ESC 8 and CSI u go to the saved position and are admissible if and only if it is on the screen |
| `Escapes.TabText` | static/xterm.js:1549-1552 | HT goes to the first stop to the right, or the last column when there is none |
| `Escapes.StopTexts` | static/xterm.js:4464-4471 | ESC H sets a stop at the cursor, CSI 0 g takes it away, CSI 3 g takes all |
| `Escapes.SetInForce` | static/xterm.js:2765-2780 | throughout any run the character set in force is the one designated to the current level |
| `Escapes.DesignateText` | static/xterm.js:1712-1744 | ESC ( 0 and its like make a level draw lines, any other set is plain; nothing else changes |
| `Escapes.ShiftTexts` | static/xterm.js:1763-1787 | SO, SI and the locking shifts bring the set of their level into force |
| `Escapes.DefaultSetText` | static/xterm.js:1704-1710 | ESC % and one unit: level 0 again, and plain |
| `Escapes.SlashDesignates` | static/xterm.js:1745-1749 | ESC / steps back, is read as a set of level 3, and skips a unit |
| `Escapes.SlashIsPlain` | static/xterm.js:1875-1878 | behind any other designator '/' means plain and skips a unit |
| `Escapes.SingleShifts` | static/xterm.js:1754-1762 | ESC N and ESC O leave ESC open for what follows |
| `Escapes.DrawnText` | static/xterm.js:1569-1578 | while line drawing is in force the units from '`' to '~' come out as lines, all other printable units as themselves |
| `Escapes.ResetText` | static/xterm.js:3209-3214 | RIS in fields: blank screen, no history, home, full margins, a stop in every eighth column, default pen, modes and sets; size, options, saved cursor and width, replies and title stay |
| `Escapes.IdleTexts` | static/xterm.js:1516-1830 | the other control characters, the other short escapes, and ESC # with its unit have no effect |
| `Strings.TitleText` | static/xterm.js:1888-1968 | OSC 0, 1 and 2 set the title to what they hold, ended either way, if they hold anything; other codes do nothing |
| `Strings.IgnoredText` | static/xterm.js:2509-2515 | PM and APC with all they hold have no effect |
| `Strings.ReadsQuery` | static/xterm.js:2424-2507 | DECRQSS and the termcap query with any request are read as such |
| `Moves.Directions` | static/xterm.js:3234-3279 | CUU, CUD, CUF and CUB as texts: one coordinate moves, in that direction, by n or 1 for 0, or as far as the edge lets it; all else stays |
| `Moves.WayBack` | static/xterm.js:3234-3279 | a movement and its opposite lead back if and only if no edge gets in the way, or the cursor came from the opposite edge |
| `Moves.MovesAdd` | static/xterm.js:3234-3279 | counts of the same direction add up |
| `Moves.NoParameterIsZero` | static/xterm.js:1970-1995 | a sequence without parameters is read as one with a 0 |
| `Moves.RelativeMoves` | static/xterm.js:3663-3685 | HPR is CUF, VPR is CUD, CNL and CPL are CUD and CUU followed by CR, in every state |
| `Moves.Positions` | static/xterm.js:3286-3311 | CUP goes to the given row and column held on the screen, 0 and a missing column standing for 1 |
| `Moves.AbsoluteMoves` | static/xterm.js:3795-3933 | HVP with two parameters is CUP, and so are HPA and VPA together in either order |
| `Moves.ColumnMoves` | static/xterm.js:3692-3696 | CHA is HPA on the screen, leaves the cursor waiting to wrap one column further, and is not admissible beyond that |
| `Moves.TabMoves` | static/xterm.js:4366-4441 | CHT n and CBT n as texts reach the n-th stop to the right and to the left, or the edge, and stay on their row |
| `Modes.FlagModes` | static/xterm.js:4034-4260 | insert mode is ANSI mode 4, autowrap, the cursor and the plain sets are private modes 7, 25 and 2; each sets and resets its own field only |
| `Modes.OtherModes` | static/xterm.js:4022-4320 | the modes this model has no use for change nothing |
| `Modes.WidthComesBack` | static/xterm.js:4055-4058 | private mode 3 makes the screen 132 columns wide and, reset, as wide as it was |
| `Modes.AlternateTexts` | static/xterm.js:4115-4139 | entering the alternate screen is RIS with the main screen kept aside and the cursor shown, leaving it brings the main screen back exactly; on the screen in question already nothing happens |
| `Modes.PrefixIsLost` | static/xterm.js:4022-4032 | what follows an entry to the alternate screen in the same list is read as ANSI modes |
| `Modes.SoftResetText` | static/xterm.js:4550-4564 | DECSTR in fields |
| `Modes.MarginsText` | static/xterm.js:4329-4335 | DECSTBM takes margins that are in order and on the screen, 0 standing for the first and the last row, and goes home |
| `Reports.StatusText` | static/xterm.js:3585-3602 | DSR 5 and DSR 6 put exactly their answers on the way, any other DSR nothing |
| `Reports.AttributesText` | static/xterm.js:3857-3870 | DA by kind of terminal |
| `Reports.SecondaryText` | static/xterm.js:3870-3884 | secondary DA by kind of terminal |
| `Reports.QueryText` | static/xterm.js:2435-2471 | what DECRQSS is answered for any request |
| `Reports.TermcapText` | static/xterm.js:2474-2487 | the termcap query is refused with its own request |
| `Reports.CursorAnswerRestores` | static/xterm.js:3594-3598 | the text DSR 6 makes a terminal send, with H for R, brings the cursor of any terminal of the same size to the same place if and only if it was not waiting to wrap |
| `Reports.MarginAnswerRestores` | static/xterm.js:2451-2471 | the body of the text DECRQSS r makes a terminal send, behind ESC [, gives any terminal of the same height the same margins |
| `Chunks.Feed` | static/xterm.js:1476-1491 | a write ends with the viewport at the bottom and keeps the invariant |
| `Chunks.RunStaysAtBottom` | static/xterm.js:1479-1485 | `ydisp == ybase` holds throughout a write, alternate screen included |
| `Chunks.WriteFeeds` | static/xterm.js:1476-2521 | a write is a feed and refresh bookkeeping |
| `Chunks.FeedsCompose` | static/xterm.js:1476-2521 | write(a+b) and write(a); write(b) reach the same state up to refresh bookkeeping whenever the cut is clean |
| `Chunks.FeedAllIsFeed` | static/xterm.js:1476-2521 | the same for any number of chunks |
| `Cuts.ExactCutFeeds` | static/xterm.js:1476-2521 | the terminal can tell: two writes come to one, whatever the second is, state and admissibility alike, if and only if the cut is clean, on any screen at least two columns wide after the first write |
| `Attributes.PackRoundTrip` | static/xterm.js:3558-3558 | packing and unpacking are inverse, and flags < 32 and colours < 512 are kept |
| `Attributes.ClosedListsCompose` | static/xterm.js:3459-3556 | interpreting a ++ b is interpreting a and then b when a ends outside a 38/48 group |
| `Attributes.CutListsDoNotCompose` | static/xterm.js:3519-3548 | and not when it ends inside one |
| `Attributes.SgrSplitsExactly` | static/xterm.js:3459-3556 | so it composes for every continuation if and only if the list is closed |
| `Pens.UnwrittenStays` | static/xterm.js:3459-3556 | a list leaves every field alone that none of its groups writes |
| `Pens.LastForeground` | static/xterm.js:3460-3541 | behind any closed list and in front of any list that leaves the foreground alone: 30 + c gives c, 90 + c gives 8 + c, 39 the default, 38;5;k gives k |
| `Pens.LastBackground` | static/xterm.js:3463-3545 | the same for the background with 40, 100, 49 and 48;5 |
| `Pens.LastFullForeground` | static/xterm.js:3519-3530 | 38;2 with a colour gives the leftmost palette entry nearest to it |
| `Pens.LastFullBackground` | static/xterm.js:3534-3545 | the same for 48;2 |
| `Pens.LastFlag` | static/xterm.js:3482-3512 | each of the five flags is on behind its parameter and off behind the opposite one, until written again |
| `Pens.ZeroStartsOver` | static/xterm.js:3476-3480 | whatever came before it, 0 starts over from the default pen |
| `Pens.SgrText` | static/xterm.js:2027-2031 | SGR as a text changes the attribute only, and as the list changes the pen |
| `Pens.ErasedPen` | static/xterm.js:322-325 | erased cells have the default pen but for the background, which is the current one |
| `Attributes.SgrAttr` | static/xterm.js:3444-3559 | the attribute stays a packed pen; what a list makes of it is `Pens.SgrText` |
| `Attributes.CharAttributes` | static/xterm.js:3444-3559 | the packed interpreter agrees with the record interpreter on every list |
| `Attributes.Group` | static/xterm.js:3519-3548 | one pass of its loop, extended colours included |
| `Attributes.Single` | static/xterm.js:3459-3526 | one simple parameter |
| `Attributes.Flag` | static/xterm.js:3482-3512 | one flag parameter |
| `Palette.NearestIsNearest` | static/xterm.js:4964-4999 | the specification is the leftmost entry of least weighted distance |
| `Palette.NearestIsUnique` | static/xterm.js:4964-4999 | there is only one such entry |
| `Palette.ChannelWeights` | static/xterm.js:5005-5009 | red, green and blue weigh 30, 59 and 11 whatever the colour |
| `Palette.PaletteEntries` | static/xterm.js:355-384 | the cube and the greys by position |
| `Palette.HashIsInjective` | static/xterm.js:4965-4965 | the cache key is injective on 8-bit triples |
| `Palette.ColorMatcher.MatchColor` | static/xterm.js:4964-5000 | the answer is the leftmost nearest entry whatever the cache holds |
| `Palette.Search` | static/xterm.js:4980-4997 | the scan finds it |
| `Widths.CombiningIsSorted` | static/xterm.js:5032-5081 | the table of combining characters is sorted and disjoint |
| `Widths.Bisearch` | static/xterm.js:5083-5099 | binary search is membership in the table |
| `Widths.Wcwidth` | static/xterm.js:5100-5127 | the width of a code point |
| `Widths.AsciiIsNarrow` | static/xterm.js:5100-5127 | printable ASCII is one column wide |
| `TabStops.NextStopIsFirst` | static/xterm.js:3054-3060 | the next stop is the first one to the right, or the last column |
| `TabStops.PrevStopIsLast` | static/xterm.js:3041-3047 | the previous stop is the last one to the left, or column 0 |
| `TabStops.ForwardReachesNth` | static/xterm.js:4366-4371 | CHT n reaches the n-th stop to the right, or the edge |
| `TabStops.BackwardReachesNth` | static/xterm.js:4436-4441 | CBT n reaches the n-th stop to the left, or column 0 |
| `Rendering.RenderRow` | static/xterm.js:1273-1393 | the loop over the cells produces the specified token stream |
| `Rendering.RenderDecodes` | static/xterm.js:1281-1390 | spans are balanced and never nested, and one is open exactly while the run is not of the default style; what they enclose is the visible cells with their styles |
| `Rendering.RenderIsFaithful` | static/xterm.js:1273-1393 | stripping tags and resolving entities gives back the text of the visible cells, blanks as no-break spaces |
| `Rendering.RowTextSurvives` | static/xterm.js:1281-1390 | the same from any cell of the row |
| `Rendering.InverseOfDefault` | static/xterm.js:1320-1345 | inverse video of the default colours comes out as black on white |
| `Styles.UprightColors` | static/xterm.js:1299-1303 | without inverse video bold brightens the first eight foregrounds, the background never, and the two defaults are no colour |
| `Styles.InverseColors` | static/xterm.js:1316-1345 | with it the colours change places, both brightened, and a default in the wrong place becomes white or black |
| `Styles.InverseExchanges` | static/xterm.js:1320-1326 | inverse video is an exchange of the two colours but for those cases |
| `Styles.FlagClasses` | static/xterm.js:1299-1331 | a span carries the class of a flag if and only if the flag is on |
| `Styles.ColorClasses` | static/xterm.js:1347-1353 | it carries the class of a colour if and only if that is the colour in that place |
| `Styles.SpelledUnits` | static/xterm.js:1367-1384 | every unit up to the blank is a no-break space, three are entities, all others stand for themselves |
| `Queues.SendDeliversInOrder` | static/xterm.js:2831-2842 | without a reset what was delivered and what waits is everything sent, in order; a reset loses data if and only if some is waiting |
| `Queues.NothingIsStranded` | static/xterm.js:2831-2842 | nothing ever waits without a timer |
| `Queues.TimerIffWaiting` | static/xterm.js:2831-2842 | one step: where a timer is pending if and only if something waits, this stays so after an event if and only if the event is not the sending of an empty datum into an empty queue or the wiping of a waiting one |
| `Queues.TimersFollowQueue` | static/xterm.js:2831-2842 | over runs without such events exactly one timer is pending while something waits, and none otherwise |
| `Queues.Sender.Send` | static/xterm.js:2831-2842 | the first datum sets up the timer, later ones join the queue |
| `Queues.Sender.Fire` | static/xterm.js:2835-2838 | the timer hands over everything at once |
| `Queues.BufferRegroups` | static/attach.js:52-66 | buffering only regroups: written and waiting text is the concatenation of the messages, and every write ends between two messages |
| `Queues.ExtraTimers` | static/attach.js:59-66 | each message right behind an empty one sets up a timer too many, and nothing else does |
| `Queues.BufferFailsIffUnlucky` | static/attach.js:52-66 | letting the timers fire writes everything and never fails if and only if no message came right behind an empty one |
| `Queues.BufferedIsDirect` | static/attach.js:68-74 | when the messages are cut cleanly, buffered and direct delivery leave the terminal in the same state |
| `Queues.Receiver.PushToBuffer` | static/attach.js:59-66 | an empty buffer counts as none |
| `Queues.Receiver.FlushBuffer` | static/attach.js:52-57 | a flush without a buffer throws |
| `Screens.Screen.constructor` | static/xterm.js:245-315 | the fields of a new terminal stand for a fresh buffer |
| `Screens.Screen.Initialize` | static/xterm.js:3209-3214 | set again, they do too |
| `Screens.Screen.NewBlankLine` | static/xterm.js:3111-3125 | a blank line of the current width |
| `Screens.Screen.UpdateRange` | static/xterm.js:2996-3005 | the range widens to the row |
| `Screens.Screen.BeginRange` | static/xterm.js:1479-1485 | a write starts at the bottom, with the cursor row or everything to refresh |
| `Screens.Screen.MaxRange` | static/xterm.js:3010-3013 | everything is to be refreshed |
| `Screens.Screen.Scroll` | static/xterm.js:1416-1454 | the splices, in trim and non-trim cases, compute the scroll of history ++ screen |
| `Screens.Screen.Index` | static/xterm.js:3174-3181 | the same for IND |
| `Screens.Screen.ReverseIndex` | static/xterm.js:3187-3203 | the same for RI |
| `Screens.Screen.InsertLines` | static/xterm.js:3703-3723 | n pairs of splices are one n-place block move |
| `Screens.Screen.DeleteLines` | static/xterm.js:3730-3750 | the same for DL |
| `Screens.Screen.ScrollUp` | static/xterm.js:4377-4386 | the same for SU |
| `Screens.Screen.ScrollDown` | static/xterm.js:4392-4401 | the same for SD |
| `Screens.Screen.EraseRight` | static/xterm.js:3068-3078 | the loop over the cells erases to the right |
| `Screens.Screen.EraseLeft` | static/xterm.js:3087-3095 | the loop erases to the left, the cursor cell included |
| `Screens.Screen.EraseLine` | static/xterm.js:3102-3104 | the whole row |
| `Screens.Screen.EraseInLine` | static/xterm.js:3365-3377 | EL |
| `Screens.Screen.EraseInDisplay` | static/xterm.js:3326-3351 | ED, its three loops over rows included |
| `Screens.Screen.InsertChars` | static/xterm.js:3642-3656 | the cell splices of ICH are one block move |
| `Screens.Screen.DeleteChars` | static/xterm.js:3757-3770 | the same for DCH, at the end of the line too |
| `Screens.Screen.EraseChars` | static/xterm.js:3776-3789 | ECH |
| `Screens.Screen.RepeatPrecedingCharacter` | static/xterm.js:4447-4453 | REP |
| `Screens.Screen.CombineChar` | static/xterm.js:1583-1599 | a combining mark joins the cell before the cursor |
| `Screens.Screen.PlaceChar` | static/xterm.js:1619-1645 | insert-mode moves and placement |
| `Screens.Screen.PrintCell` | static/xterm.js:1580-1646 | combine, wrap or stick, place |
| `Screens.Screen.CursorUp` | static/xterm.js:3234-3239 | CUU |
| `Screens.Screen.CursorDown` | static/xterm.js:3246-3253 | CUD |
| `Screens.Screen.CursorForward` | static/xterm.js:3260-3267 | CUF |
| `Screens.Screen.CursorBackward` | static/xterm.js:3274-3279 | CUB |
| `Screens.Screen.CursorNextLine` | static/xterm.js:3663-3671 | CNL |
| `Screens.Screen.CursorPrecedingLine` | static/xterm.js:3679-3685 | CPL |
| `Screens.Screen.CursorCharAbsolute` | static/xterm.js:3692-3696 | CHA, unclamped on the right |
| `Screens.Screen.CursorPos` | static/xterm.js:3286-3311 | CUP |
| `Screens.Screen.CharPosAbsolute` | static/xterm.js:3795-3802 | HPA |
| `Screens.Screen.HPositionRelative` | static/xterm.js:3810-3817 | HPR |
| `Screens.Screen.LinePosAbsolute` | static/xterm.js:3891-3898 | VPA |
| `Screens.Screen.VPositionRelative` | static/xterm.js:3905-3912 | VPR |
| `Screens.Screen.HVPosition` | static/xterm.js:3920-3933 | HVP |
| `Screens.Screen.NextStop` | static/xterm.js:3054-3060 | the search to the right |
| `Screens.Screen.PrevStop` | static/xterm.js:3041-3047 | the search to the left |
| `Screens.Screen.SetupStops` | static/xterm.js:3021-3034 | a stop every eight columns from the start on |
| `Screens.Screen.CursorForwardTab` | static/xterm.js:4366-4371 | CHT |
| `Screens.Screen.CursorBackwardTab` | static/xterm.js:4436-4441 | CBT |
| `Screens.Screen.TabClear` | static/xterm.js:4464-4471 | TBC |
| `Screens.Screen.SetScrollRegion` | static/xterm.js:4331-4334 | DECSTBM |
| `Screens.Screen.FitColumns` | static/xterm.js:2896-2918 | the column loops of a resize, and the stops set up against the old width |
| `Screens.Screen.AddRows` | static/xterm.js:2923-2946 | the row loop of a growing screen |
| `Screens.Screen.RemoveRows` | static/xterm.js:2948-2963 | the row loop of a shrinking one |
| `Screens.Screen.Resize` | static/xterm.js:2884-2981 | the loops together compute the resize of the buffer |
| `Screens.Screen.Restore` | static/xterm.js:4300-4307 | the saved screen is back |
| `Xterm.Terminal.constructor` | static/xterm.js:156-315 | a new terminal is the fresh state, its parser at rest and no refresh pending |
| `Xterm.Terminal.Open` | static/xterm.js:758-767 | opening makes the row elements and asks for a refresh of them all |
| `Xterm.Terminal.Refresh` | static/xterm.js:1216-1228 | the first request sets up a timer, a second one makes it full |
| `Xterm.Terminal.RefreshNow` | static/xterm.js:1231-1394 | the firing timer renders exactly the rows due and no others |
| `Xterm.Terminal.RenderedRow` | static/xterm.js:1257-1271 | line and cursor column of a viewport row |
| `Xterm.Terminal.ShowCursor` | static/xterm.js:1406-1411 | the cursor is shown and its screen row refreshed |
| `Xterm.Terminal.ScrollDisp` | static/xterm.js:1460-1470 | the viewport moves within the scrollback |
| `Xterm.Terminal.Resize` | static/xterm.js:2884-2990 | the resize of the state, the refresh and the dropped saved screen |
| `Xterm.Terminal.ResizeTerminal` | static/xterm.js:2884-2990 | the resize as an event of the display |
| `Xterm.Terminal.CursorAppears` | static/xterm.js:1406-1411 | the cursor as an event of the display |
| `Xterm.Terminal.Reset` | static/xterm.js:3209-3214 | RIS |
| `Xterm.Terminal.SoftReset` | static/xterm.js:4550-4564 | DECSTR |
| `Xterm.Terminal.EnterAlternate` | static/xterm.js:4118-4138 | `normal` keeps the screen and the terminal starts afresh |
| `Xterm.Terminal.LeaveAlternate` | static/xterm.js:4299-4315 | the screen is back and refreshed |
| `Xterm.Terminal.SetMode` | static/xterm.js:4034-4141 | one mode |
| `Xterm.Terminal.ResetMode` | static/xterm.js:4238-4319 | one reset mode |
| `Xterm.Terminal.SetModes` | static/xterm.js:4023-4032 | a list of modes; entering the alternate screen on the way clears the prefix |
| `Xterm.Terminal.ResetModes` | static/xterm.js:4227-4236 | a list of reset modes |
| `Xterm.Terminal.SetgLevel` | static/xterm.js:2765-2768 | the character set of a level is selected |
| `Xterm.Terminal.SetgCharset` | static/xterm.js:2775-2780 | a set is assigned to a level |
| `Xterm.Terminal.DeviceStatus` | static/xterm.js:3585-3602 | DSR |
| `Xterm.Terminal.SendDeviceAttributes` | static/xterm.js:3857-3884 | primary and secondary DA |
| `Xterm.Terminal.AnswerStatus` | static/xterm.js:2428-2487 | DECRQSS and the termcap query |
| `Xterm.Terminal.SaveCursor` | static/xterm.js:4342-4345 | DECSC |
| `Xterm.Terminal.RestoreCursor` | static/xterm.js:4352-4355 | DECRC |
| `Xterm.Terminal.CharAttributes` | static/xterm.js:2027-2031 | SGR |
| `Xterm.Terminal.ControlSequence` | static/xterm.js:1995-2417 | a complete control sequence does what its command does, and announces and requests what it is said to |
| `Xterm.Terminal.Print` | static/xterm.js:1563-1647 | a character is measured, translated and printed |
| `Xterm.Terminal.LineFeed` | static/xterm.js:1522-1534 | LF, VT and FF |
| `Xterm.Terminal.CarriageReturn` | static/xterm.js:1537-1539 | CR |
| `Xterm.Terminal.Backspace` | static/xterm.js:1542-1546 | BS |
| `Xterm.Terminal.Tab` | static/xterm.js:1549-1552 | HT |
| `Xterm.Terminal.TabSet` | static/xterm.js:3220-3223 | HTS |
| `Xterm.Terminal.Index` | static/xterm.js:3174-3181 | IND |
| `Xterm.Terminal.NextLine` | static/xterm.js:1690-1694 | NEL |
| `Xterm.Terminal.ReverseIndex` | static/xterm.js:3187-3203 | RI |
| `Xterm.Terminal.NormalChar` | static/xterm.js:1516-1649 | the normal state carries out exactly the specified reaction |
| `Xterm.Terminal.EscapedChar` | static/xterm.js:1650-1830 | so does the escaped state, its step back included |
| `Xterm.Terminal.CharsetChar` | static/xterm.js:1831-1886 | so does the charset state |
| `Xterm.Terminal.OscChar` | static/xterm.js:1888-1968 | so does the OSC state |
| `Xterm.Terminal.CsiChar` | static/xterm.js:1970-2422 | so does the CSI state |
| `Xterm.Terminal.DcsChar` | static/xterm.js:2424-2507 | so does the DCS state |
| `Xterm.Terminal.IgnoredChar` | static/xterm.js:2509-2515 | so does the ignoring state |
| `Xterm.Terminal.Step` | static/xterm.js:1515-2516 | the switch over the states |
| `Xterm.Terminal.BeginWrite` | static/xterm.js:1479-1485 | the head of a write |
| `Xterm.Terminal.EndWrite` | static/xterm.js:2519-2520 | its tail |
| `Xterm.Terminal.Write` | static/xterm.js:1476-2521 | the loop ends on every input and leaves the terminal, its parser, the pending refresh and the row elements exactly as the specified write does |
| `Reading.NextLeft` | static/xterm.js:1493-1513 | the character at the reading position, surrogate pairs taken together |
| `Reading.NoteAllComposes` | static/xterm.js:2996-3013 | the bookkeeping of two lists of commands is that of one and then the other |

## Left out

- Shared cells: blank lines and the padding of a resize hold the same cell object many
  times over, and a combining mark appended in place shows in all of them; cells are
  values here, so a mark reaches one cell only.
- Screens.Screen.CombineChar: does not model that sharing, see above; it states what happens
  to a cell that is not shared.
- Buffer.Combine: the same.
- Display.DisplayIsFaithful: does not model it either: a mark appended to a shared blank also
  changes rows that nobody announces, and those go stale.
- Sessions.Serve: the same.
- LineObjects.LineStore.Apply: models arrays and lines as objects, their cells as values.
- Cuts.ExactCutFeeds: speaks of screens at least two columns wide; on a single column a wide
  character never fits, and a write that holds one is outside the guard.
- Buffer.Scroll: excludes a scrollback limit of 1, and so does everything built on it; what
  the code does there to its lines is in `Limits` only.
- Buffer.ScrolledHistory: the same.
- Screens.Screen.Scroll: the same.
- Emulator.MoveCursor: HVP with one parameter computes a column that is not a number; it is
  modelled as a column off the screen, and the guard excludes it.
- Xterm.Terminal.Open: models the row elements and the refresh of `open`, not the other
  elements, listeners and the focus it sets.
- Xterm.Terminal.DeviceStatus: the branch for the `?` prefix, which the parser never reaches.
- Queues.Sender.Fire: does not model a handler that sends in turn while the timer hands data
  over; what it sends then is wiped with the queue.
- Queues.Receiver.FlushBuffer: does not model `clearTimeout`, whose timer variable is never
  set, so that it has no effect.
- Modes that only flip a boolean nothing here reads: application keypad and cursor, origin
  mode, mouse reporting, focus events; bell, logging, and the `postfix` that is stored and
  never used.
- Character sets other than DEC Special Graphics, which the source leaves undefined; they
  are all the identity.
- Browser work: elements, keyboard, mouse, selection, copy and paste, and the detaching of
  row container during large refreshes; a row element is the markup last put into it.
- Bold type is taken to keep the width of characters (`brokenBold` is false).
- Numbers are unbounded; the rounding of very large parameters is not modelled.
- Functions the parser never calls, `static/fit.js`, and the server in Go.
- Listeners of `data`, `title`, `resize` and `refresh` events; what would be sent and the title
  are recorded in the state.
