# slowertext, modelled in Dafny

slowertext is a small modal terminal text editor in C++. It has an insert
mode and a command mode. Key bindings, colours, tab width, auto-indent and
the status line are read from an RC file of `key = value` lines. The text is
held as a vector of lines. The screen is redrawn after every key: text rows
with an optional line-number gutter, an inverse-video status bar and a
message bar whose message fades after five seconds.

This project models the core of the editor in Dafny and proves what it
promises:

- `Slowertext` (include/slowertext.h) has the key codes, `CTRL_KEY`, the
  editor modes and the settings that the editor reads.
- `LineBuffer` (src/buffer.cpp) has the line operations as functions on a
  sequence of lines. Class `LineBuffer.Buffer` performs them in place and is
  proved to agree with them.
- `FileIO` (src/file.cpp) models `std::getline` splitting and saving (lines
  joined by `\n`). It proves which buffers survive a save followed by a
  load. Methods `SaveFile` and `LoadFile` keep the source's loops.
- `Config` (src/config.cpp) covers:
  - binding strings to key codes;
  - the boolean words;
  - `key = value` parsing with blank trimming;
  - `std::stoi`;
  - laying the recognised values over the defaults, proved equal to a
    field-by-field overlay.
- `KeyDecoder` models `read_key`: the wait for a byte, then escape
  sequences to key codes. It proves that every key but Escape decodes back
  to itself whatever follows it, that Escape does when no byte follows it
  (`KeyDecoder.LoneEscape`), and that reads which time out before a key
  change nothing but the number of reads used.
- `Editing` has the editing handlers of src/input.cpp as functions on lines
  and cursor: movement, smart backspace, delete, enter with auto-indent,
  tab, typing. It proves undo-style laws between them.
- `Dispatch` has `process_keypress` and `process_command` as a state
  machine on a snapshot of the editor. It proves session-level properties,
  for example: typing text, `:wq`, and, with confirm_quit on (the
  default), quitting never loses unsaved work without a save or a force.
- `Session` has class `Editor`: the global `EditorConfig`, its buffer, and
  the two statics of `process_keypress`. Its handlers work in place, loop
  by loop, and each is proved to reach the state `Editing` or `Dispatch`
  describes. The constructor is `init_editor`.
- `Renderer` (src/renderer.cpp) covers:
  - colour codes;
  - scrolling;
  - each drawn row;
  - the status bar, including `%f`/`%modified`/`%m` substitution and the
    right-aligned position;
  - the timed message bar;
  - the cursor placement of `refresh_screen`.

Outside services are parameters:

- the clock is `now`;
- whether a file opens is `canOpen` or `isOpen`;
- file and RC contents are strings;
- terminal input is a sequence of read results;
- terminal output is returned as strings and a `Frame`.

## Model

| member | source | states |
|---|---|---|
| Slowertext.CtrlKey | include/slowertext.h:40 | `CTRL_KEY` keeps the low five bits: the result is in 0..31, congruent to the key modulo 32, and a control code is unchanged |
| Slowertext.CtrlKeyValues | include/slowertext.h:40 | Ctrl-S, Ctrl-H, Ctrl-I, Ctrl-Q and Ctrl-F are 0x13, 8, 9, 17 and 6, and Ctrl of an upper-case letter equals Ctrl of the lower-case one |
| Slowertext.KeyCodesDisjoint | include/slowertext.h:41-47 | Delete and the four arrows are pairwise distinct and above 255, while Escape and Backspace are byte values |
| Text.FindChar | src/config.cpp:108 | `find` of a character returns the first index holding it, or none exactly when it does not occur |
| Text.ToLower | src/config.cpp:209 | lowercasing keeps the length and maps every character through `tolower` |
| Text.ToLowerIdempotent | src/config.cpp:217-218 | lowercasing twice is lowercasing once |
| Text.ToLowerAppend | src/config.cpp:217-218 | lowercasing distributes over concatenation |
| Text.ToLowerOfLower | src/config.cpp:217-218 | a string without upper-case letters is its own lowercase |
| Text.DecimalStringValue | src/renderer.cpp:149 | the `%d` digits of n read back as n |
| LineBuffer.CharInserted | src/buffer.cpp:17-31 | on a valid row, the character lands at the clamped column and the rest of the line shifts right; every other row is unchanged; an invalid row changes nothing |
| LineBuffer.CharDeleted | src/buffer.cpp:38-52 | with a character at (x, y), exactly that character is removed; otherwise nothing changes |
| LineBuffer.NewlineInserted | src/buffer.cpp:60-78 | a valid row splits at the clamped column into two rows whose concatenation is the old row; rows before and after are kept |
| LineBuffer.LineDeleted | src/buffer.cpp:84-99 | a valid row is removed; the only row is cleared to `""` instead; at least one line always remains |
| LineBuffer.LineSet | src/buffer.cpp:127-141 | a negative row changes nothing; otherwise row y holds the line, the buffer grows with empty lines up to y, and other rows are kept |
| LineBuffer.DeleteUndoesInsert | src/buffer.cpp:17-52 | deleting at the clamped column undoes an insert |
| LineBuffer.JoinUndoesNewline | src/buffer.cpp:60-99 | setting row y to the two halves and deleting row y+1 undoes a newline |
| LineBuffer.GetLineAfterSetLine | src/buffer.cpp:106-141 | `get_line` returns what `set_line` stored and is unchanged on other rows |
| LineBuffer.DeleteEveryLine | src/buffer.cpp:84-99 | deleting the first line as many times as there are lines leaves one empty line |
| LineBuffer.Buffer.constructor | src/buffer.cpp:7-9 | a new buffer holds one empty line and is unmodified |
| LineBuffer.Buffer.InsertChar | src/buffer.cpp:17-31 | the lines become `CharInserted`; the modified flag is set exactly when the row was valid |
| LineBuffer.Buffer.DeleteChar | src/buffer.cpp:38-52 | the lines become `CharDeleted`; the flag is set exactly when a character was there |
| LineBuffer.Buffer.InsertNewline | src/buffer.cpp:60-78 | the lines become `NewlineInserted`; the flag is set exactly when the row was valid |
| LineBuffer.Buffer.DeleteLine | src/buffer.cpp:84-99 | the lines become `LineDeleted`; the flag is set exactly when the row was valid |
| LineBuffer.Buffer.GetLine | src/buffer.cpp:106-111 | the row's text, or `""` for a row out of range |
| LineBuffer.Buffer.GetLineCount | src/buffer.cpp:117-119 | the number of lines, never below one |
| LineBuffer.Buffer.SetLine | src/buffer.cpp:127-141 | the padding loop and store give `LineSet`; the flag is set exactly when y is not negative |
| LineBuffer.Buffer.SetModified | src/buffer.cpp:155-157 | the flag takes the given value and the lines are kept |
| LineBuffer.Buffer.Clear | src/buffer.cpp:162-166 | one empty line, unmodified |
| FileIO.Getline | src/file.cpp:24 | `std::getline` splits off a first line without `\n`; the input is that line, the newline if there was one, and the strictly shorter rest |
| FileIO.Getlines | src/file.cpp:24-34 | the lines read contain no newline, and empty content yields no lines |
| FileIO.LoadedLines | src/file.cpp:18-34 | the buffer after a load has at least one line |
| FileIO.JoinSnoc | src/file.cpp:61-67 | saving one more line appends `\n` and that line |
| FileIO.GetlinesOfJoin | src/file.cpp:24-34 | reading back saved lines gives them back, except a trailing empty line, which is lost |
| FileIO.SaveLoadRoundTrip | src/file.cpp:11-71 | save then load is the identity exactly when the last line is non-empty or the buffer is one empty line; otherwise the trailing empty line is dropped |
| FileIO.SaveFile | src/file.cpp:49-71 | succeeds exactly when the name is non-empty and the stream opens; it then writes the lines joined by `\n` |
| FileIO.StoreLine | src/file.cpp:25-33 | the first line replaces the default empty line and later lines are appended at the end |
| FileIO.LoadFile | src/file.cpp:11-41 | a file that does not open leaves the buffer alone; otherwise the buffer holds the lines read and is unmodified |
| Config.NamedKey | src/config.cpp:221-230 | the named keys never begin like a `ctrl+`, function-key or `alt+` binding |
| Config.KeyBindingCaseInsensitive | src/config.cpp:213-218 | a binding's code depends only on its lowercase form |
| Config.LowercaseBinding | src/config.cpp:213-261 | a non-empty binding with no capitals is parsed as written |
| Config.EditingKeyNames | src/config.cpp:221-223 | escape/esc, backspace, delete/del give their key codes |
| Config.VerticalArrowKeyNames | src/config.cpp:224-225 | arrow_up/up and arrow_down/down give the arrow codes |
| Config.HorizontalArrowKeyNames | src/config.cpp:226-227 | arrow_left/left and arrow_right/right give the arrow codes |
| Config.WhitespaceKeyNames | src/config.cpp:228-230 | tab, enter/return and space give 9, 13 and 32 |
| Config.MixedCaseBindings | src/config.cpp:217-224 | "Arrow_Up" and "ESC" are recognised |
| Config.CtrlBinding | src/config.cpp:233-238 | "ctrl+" and a letter in either case gives `CTRL_KEY` of the lowercase letter, in 1..26 |
| Config.CtrlLetterBinding | src/config.cpp:233-238 | a six-character "ctrl+<letter>" binding gives `CTRL_KEY(letter)` |
| Config.AltBinding | src/config.cpp:241-245 | "alt+c" gives the signed byte of the lowercased c |
| Config.FunctionKeyBinding | src/config.cpp:248-252 | any binding of two or more characters starting with f or F is unbound (0) |
| Config.SingleCharBinding | src/config.cpp:255-257 | a one-character binding gives the signed byte of its lowercase |
| Config.HighByteBindingNeverMatches | src/config.cpp:255-257 | a single byte of 0x80..0xff parses to a negative code that no key read can equal |
| Config.UnboundMatchesNul | src/input.cpp:296-299 | an unbound binding (code 0) matches a NUL key |
| Config.StringToBoolCaseInsensitive | src/config.cpp:207-211 | the boolean words are case-insensitive |
| Config.StringToBoolWords | src/config.cpp:207-211 | "TRUE", "Yes", "1" and "On" are true; "false", "0", "" and "y" are false |
| Config.LeadingBlanks | src/config.cpp:113-116 | counts the spaces and tabs before the first other character |
| Config.TrailingBlanks | src/config.cpp:113-116 | counts the spaces and tabs after the last other character |
| Config.Trim | src/config.cpp:113-116 | the trimmed string is the slice of the input between the leading and trailing blanks, and starts and ends with non-blanks |
| Config.TrimKeepsOut | src/config.cpp:110-116 | trimming cannot introduce a character, so the key has no `=` |
| Config.ParseConfigLine | src/config.cpp:103-106 | empty, `#` and `[` lines leave the map unchanged |
| Config.ParsedEntry | src/config.cpp:108-119 | at the first `=`, the trimmed key maps to the trimmed rest and every other key is kept |
| Config.FirstOccurrence | src/config.cpp:108 | `find` returns the first `=` |
| Config.LaterValueWins | src/config.cpp:118 | when two lines set the same key, the later value is kept |
| Config.DigitPrefix | src/config.cpp:130 | the longest all-digit prefix |
| Config.Stoi | src/config.cpp:130 | `std::stoi` succeeds only with a value in the 32-bit int range |
| Config.StoiOfDecimal | src/config.cpp:130 | stoi reads back every non-negative int written in decimal |
| Config.StoiExamples | src/config.cpp:130 | "8" parses; "", "abc" and "-" throw |
| Config.KeyOf | src/config.cpp:127-202 | a recognised key is exactly the name of its setting |
| Config.KeyOfName | src/config.cpp:127-202 | every setting is recognised by its own name |
| Config.KeyOfDisplayName | src/config.cpp:127-146 | the display settings are recognised by their names |
| Config.KeyOfBehaviourName | src/config.cpp:145-174 | the behaviour settings are recognised by their names |
| Config.KeyOfModeName | src/config.cpp:175-186 | syntax_highlighting, default_mode and enter_insert are recognised |
| Config.KeyOfBindingName | src/config.cpp:187-190 | enter_command and save_file are recognised |
| Config.KeyOfQuitName | src/config.cpp:191-194 | quit_editor and force_quit are recognised |
| Config.KeyNameInjective | src/config.cpp:127-202 | no two settings share a key |
| Config.KnownStep | src/config.cpp:123-204 | adding an entry changes the recognised entries exactly when its key is recognised |
| Config.SetIsOverlay | src/config.cpp:127-202 | one branch of the if-chain equals overlaying that single entry |
| Config.SetIsOverlayDisplay | src/config.cpp:127-146 | the same, for the display settings |
| Config.SetIsOverlayBehaviour | src/config.cpp:145-174 | the same, for the behaviour settings |
| Config.SetIsOverlayModes | src/config.cpp:175-186 | the same, for syntax highlighting, default mode and enter_insert |
| Config.SetIsOverlayBindings | src/config.cpp:187-194 | the same, for the other bindings |
| Config.OverlayCompose | src/config.cpp:123-204 | applying a new entry after the others equals applying all of them together |
| Config.OverlayComposeFlags | src/config.cpp:127-150 | the same, for the line-number, auto-indent and tilde flags |
| Config.OverlayComposeSwitches | src/config.cpp:151-176 | the same, for current-line highlight, quit confirmation and syntax highlighting |
| Config.OverlayComposeTabWidth | src/config.cpp:129-130 | the same, for the tab width |
| Config.OverlayComposeTexts | src/config.cpp:135-146 | the same, for the status format and the colours |
| Config.OverlayComposeBindings | src/config.cpp:179-194 | the same, for the default mode and the bindings |
| Config.ApplyStep | src/config.cpp:123-204 | one loop iteration on a new key extends the applied map by that key |
| Config.UpdateIsOverlay | src/config.cpp:127-202 | one recognised entry updates the overlay like a one-entry overlay, and fails exactly when stoi throws |
| Config.AppliedEmpty | src/config.cpp:122-205 | an empty map changes nothing |
| Config.AppliedFailureGrows | src/config.cpp:129-174 | a numeric value stoi rejects makes any larger map fail too |
| Config.KnownSingle | src/config.cpp:123-204 | a one-entry map is recognised exactly when its key is |
| Config.KnownSingleKey | src/config.cpp:123-204 | a setting's own name gives a one-entry recognised map |
| Config.UnknownKeyIgnored | src/config.cpp:202-203 | an unknown key changes nothing |
| Config.DefaultModeExact | src/config.cpp:179-184 | only "insert" and "command" change the start mode; any other value keeps it |
| Config.TabWidthUnchecked | src/config.cpp:129-130 | any int stoi accepts becomes the tab width (zero and negatives included), and a value it rejects fails the load |
| Config.ApplyLoopStep | src/config.cpp:123-204 | the loop invariant: after a set of keys, the settings are the applied map restricted to those keys |
| Config.ApplyConfigValues | src/config.cpp:122-205 | the loop over the map gives `Applied`, or failure when stoi throws |
| Config.DefaultModeBindings | src/config.cpp:38-39 | the default bindings for entering insert and command mode are Tab and Escape |
| Config.DefaultFileBindings | src/config.cpp:40-42 | the default save, quit and force-quit bindings are Ctrl-S, Ctrl-Q and Ctrl-F |
| Config.ParseConfigText | src/config.cpp:55-60 | the getline loop gives the map of every parsed line, in order |
| Config.LoadConfig | src/config.cpp:10-64 | no RC file gives the defaults; otherwise the parsed values are applied over the defaults |
| KeyDecoder.Waited | src/input.cpp:18-23 | the reads the first loop waits through are exactly the leading ones that brought no byte and no error |
| KeyDecoder.ReadKey | src/input.cpp:13-55 | -1 exactly when the read that ends the wait fails; otherwise a key code, consuming the wait and one to four reads |
| KeyDecoder.KeyAfterWait | src/input.cpp:18-55 | -1 exactly on a failed read; otherwise a key code from one to four reads |
| KeyDecoder.IdleReadsSkipped | src/input.cpp:18-23 | timed-out reads in front of a key give the same key, with that many more reads used |
| KeyDecoder.Encode | src/input.cpp:26-51 | the terminal's bytes for each key |
| KeyDecoder.DecodeEncode | src/input.cpp:13-55 | every key except a lone Escape decodes from its bytes, whatever follows, consuming exactly them |
| KeyDecoder.LoneEscape | src/input.cpp:26-30 | Escape followed by a read that brings no byte (timed out or failed) is Escape, and that read is consumed too |
| KeyDecoder.UnknownSequences | src/input.cpp:32-51 | unrecognised sequences consume their bytes and come back as Escape |
| KeyDecoder.PlainBytes | src/input.cpp:54 | any byte other than Escape is returned unchanged |
| KeyDecoder.DecodeEncodeAll | src/input.cpp:13-55 | a stream of encoded keys decodes to the same keys in order |
| KeyDecoder.EncodeAll | src/input.cpp:13-55 | no keys, no bytes |
| Editing.Moved | src/input.cpp:63-100 | arrows keep the cursor on the text, and other keys do not move it |
| Editing.HorizontalStep | src/input.cpp:82-99 | right moves one character forward and left one back in the text (line ends count as one), except at the very end or start |
| Editing.LeftUndoesRight | src/input.cpp:82-99 | left undoes right anywhere except at the end |
| Editing.RightUndoesLeft | src/input.cpp:82-99 | right undoes left anywhere except at the start |
| Editing.UpAfterDown | src/input.cpp:63-81 | down then up returns to the row, and keeps the column exactly when the row below was long enough to hold it |
| Editing.LeadingSpaces | src/input.cpp:133-140 | the count of leading spaces |
| Editing.BackspaceWidth | src/input.cpp:114-147 | deletes a whole tab width only when the width is above 1, the width of characters before the cursor are spaces and the leading spaces before them are a multiple of the width; in every other case exactly 1 |
| Editing.Backspaced | src/input.cpp:107-174 | deletes one char, or a tab width of spaces ending on a tab stop, before the cursor; or joins with the previous line at column 0; nothing happens at (0,0) |
| Editing.BackspaceOffTabStop | src/input.cpp:133-147 | when the leading spaces before the last tab width are not a multiple of it, Backspace deletes exactly one character |
| Editing.SmartTabExamples | src/input.cpp:114-147 | smart deletion examples, including a tab-aligned run of spaces and a misaligned one |
| Editing.Deleted | src/input.cpp:181-197 | removes the character under the cursor, or joins the next line at the end of a line; the cursor stays |
| Editing.IndentWidth | src/input.cpp:213-217 | the count of leading spaces and tabs |
| Editing.Entered | src/input.cpp:204-228 | splits at the cursor; the new line starts with as many spaces as the indent before the cursor (with auto-indent on) |
| Editing.BackspaceUndoesEnter | src/input.cpp:107-228 | backspace right after Enter (no auto-indent) restores the lines and cursor |
| Editing.AutoIndentKeepsSpaces | src/input.cpp:210-223 | an indented line keeps its indent on the next line |
| Editing.AutoIndentTabBecomesSpace | src/input.cpp:213-221 | a leading tab is counted and re-inserted as one space |
| Editing.AutoIndentInsideIndent | src/input.cpp:206-221 | Enter inside an indent counts only the blanks before the cursor and puts them in front of the rest of the line |
| Editing.EnterOneLine | src/input.cpp:204-228 | the two lines Enter produces from one line |
| Editing.Tabbed | src/input.cpp:235-250 | inserts exactly tab-width spaces at the cursor; a non-positive width does nothing |
| Editing.Typed | src/input.cpp:378-399 | inserts the character at the cursor and moves right |
| Editing.BackspaceUndoesTyped | src/input.cpp:107-174 | backspace undoes typing a non-space character |
| Editing.BackspaceUndoesTab | src/input.cpp:107-174 | backspace at a tab stop undoes Tab |
| Dispatch.DefaultBindings | src/config.cpp:38-42 | the default binding codes are 9, 27, 0x13, 0x11, 0x06 |
| Dispatch.WithStatus | src/main.cpp:58-61 | `set_status_message` sets the message and its time and nothing else |
| Dispatch.AfterEdit | src/input.cpp:170 | the handlers copy the buffer's flag into `config.modified` |
| Dispatch.Saved | src/input.cpp:265-266 | clears both dirty flags and keeps the lines |
| Dispatch.Save | src/input.cpp:257-274 | writes exactly when there is a name and the file opens; the write clears the dirty flags with "File saved: name"; otherwise nothing is written and the flags stay |
| Dispatch.Quit | src/input.cpp:282-288 | quits exactly when forced, confirmation is off, or the buffer is clean |
| Dispatch.Echo | src/input.cpp:462-464 | while a command is being typed the message becomes ":" and the command, with the current time; otherwise nothing changes |
| Dispatch.MovedState | src/input.cpp:63-100 | moving keeps the editor consistent |
| Dispatch.Keypress | src/input.cpp:307-470 | -1 gives "Error: Invalid key input"; only insert mode changes the text, and marks it dirty; a write holds the joined lines and clears the dirty flags |
| Dispatch.InsertKey | src/input.cpp:318-344 | insert mode: the enter_command binding, whatever key it is, switches to command mode and no other key changes the mode; the text changes only with the dirty flag set; quitting needs the quit binding with quit allowed, or the force-quit binding |
| Dispatch.EditKey | src/input.cpp:346-407 | editing keys never quit or change mode and mark the buffer dirty whenever the text changes; Tab inserts spaces whatever enter_insert is; only the editing keys and the codes 32..126 and 128..255 change the text, the latter typed at the cursor unless bound to enter_insert; other keys only refresh the echo |
| Dispatch.CommandKey | src/input.cpp:409-460 | command mode never changes the text; only enter_insert changes the mode, and it keeps the command line as it was; `:` opens an empty command line; the quit bindings act even while a command is typed and keep it; quitting needs a quit binding, `:q` when allowed, `:q!`, or a successful `:wq` |
| Dispatch.OtherCommandKey | src/input.cpp:434-460 | outside the command line, command mode neither writes nor quits |
| Dispatch.CommandLineInput | src/input.cpp:434-464 | Enter runs the command and closes the line; every other key keeps it open, writes nothing and leaves ":" and the command on the status line; Backspace drops the last character, or on an empty command changes nothing but the echo; a printable key is appended; other keys leave the command alone |
| Dispatch.RunCommand | src/input.cpp:477-522 | commands never change the text, mode or command line; quitting only through q, q! or a saving wq/sq |
| Dispatch.SaveAndQuit | src/input.cpp:488-500 | `:wq` writes and quits exactly when there is a name and the file opens; otherwise nothing changes but the message |
| Dispatch.SaveAs | src/input.cpp:501-515 | `:saves` writes under the new name and adopts it on success; a failure keeps the old name |
| Dispatch.Initial | src/main.cpp:20-52 | a new editor is consistent, not quitting, clean, one empty line |
| Dispatch.Run | src/input.cpp:307-470 | any key sequence keeps the editor consistent |
| Dispatch.QuitNeedsSaveOrForce | src/input.cpp:282-288 | with confirmation on and unsaved changes, a key quits only by force-quit, `:q!`, or a key that writes the file |
| Dispatch.RunStep | src/input.cpp:307-470 | a key that writes nothing moves the session on by its new state |
| Dispatch.TypeKey | src/input.cpp:378-387 | an unbound printable key types itself |
| Dispatch.Codes | src/input.cpp:378-387 | a text's key codes are its characters |
| Dispatch.RunAppend | src/input.cpp:307-470 | running two key sequences in turn equals running their concatenation |
| Dispatch.TypeText | src/input.cpp:378-387 | typing a text of unbound printable keys inserts it at the cursor and leaves the cursor after it, dirty and unwritten |
| Dispatch.TypeFirst | src/input.cpp:378-387 | the first key of a text types its first character |
| Dispatch.EnterKey | src/input.cpp:352-355 | an unbound Enter splits the line |
| Dispatch.DefaultsSparePrintable | src/config.cpp:38-42 | with the default bindings, printable characters and Enter type themselves |
| Dispatch.TypeLineThenEnter | src/input.cpp:352-387 | from a fresh editor, a line and Enter give that line and an empty one holding the cursor |
| Dispatch.TypeTwoLines | src/input.cpp:352-387 | a line, Enter and a second line give exactly those two lines, dirty, the cursor at the end |
| Dispatch.ColonKey | src/input.cpp:418-422 | `:` opens an empty command line |
| Dispatch.CommandBindingFirst | src/input.cpp:323-327 | in insert mode the enter_command binding switches to command mode whatever key it is, Tab and Enter included |
| Dispatch.TabIgnoresInsertBinding | src/input.cpp:346-350 | Tab inserts spaces even when it is the enter_insert binding |
| Dispatch.DefaultTabInsertsSpaces | src/input.cpp:346-350 | with the default settings Tab is enter_insert and still inserts spaces |
| Dispatch.InsertModeTextKeys | src/input.cpp:346-407 | in insert mode only the editing keys and the codes 32..126 and 128..255 change the text; another unbound key only refreshes the echo |
| Dispatch.QuitDuringEntry | src/input.cpp:424-427 | the quit binding acts while a command is typed, and leaves the command line open and unchanged |
| Dispatch.InsertBindingKeepsEntry | src/input.cpp:412-416 | enter_insert in command mode keeps the command line's state |
| Dispatch.BackspaceOnEmptyCommand | src/input.cpp:443-444 | Backspace on an empty command changes nothing but the echo |
| Dispatch.CommandLineEchoed | src/input.cpp:462-464 | after any command-line key but Enter the status line shows ":" and the command |
| Dispatch.CommandLineKey | src/input.cpp:445-464 | a printable key on the command line is appended and echoed |
| Dispatch.CommandFirst | src/input.cpp:445-448 | the first key of a command appends its first character |
| Dispatch.TypeCommand | src/input.cpp:445-448 | typing a command appends it and changes nothing else |
| Dispatch.RunOne | src/input.cpp:307-470 | one key on its own is one step |
| Dispatch.WriteQuit | src/input.cpp:488-500 | Enter on `wq` with a name writes the lines, quits clean and closes the line |
| Dispatch.ColonThenCommand | src/input.cpp:418-448 | `:` then a command leaves exactly that command pending |
| Dispatch.WriteQuitKeys | src/input.cpp:418-448 | the keys `:wq` and Enter write the file once and quit clean |
| Dispatch.WriteQuitWithoutName | src/input.cpp:489-492 | `:wq` without a name neither writes nor quits, and says "Error: No filename specified" |
| Dispatch.SaveAsName | src/input.cpp:501-511 | `saves` and a separator save under the rest, which becomes the name |
| Dispatch.SaveAsAnySeparator | src/input.cpp:501-503 | the character after "saves" is skipped whatever it is |
| Session.SpacesBetween | src/input.cpp:120-130 | the scan finds whether a stretch is all spaces |
| Session.CountLeadingSpaces | src/input.cpp:133-140 | the loop counts the leading spaces |
| Session.CountIndent | src/input.cpp:213-217 | the loop counts the leading spaces and tabs |
| Session.Editor.constructor | src/main.cpp:20-52 | the new editor is `Initial` for its settings |
| Session.Editor.SetStatusMessage | src/main.cpp:58-61 | the state becomes `WithStatus` |
| Session.Editor.MoveVertically | src/input.cpp:63-81 | up/down in place reaches `MovedState` |
| Session.Editor.MoveHorizontally | src/input.cpp:82-99 | left/right in place reaches `MovedState` |
| Session.Editor.MoveCursor | src/input.cpp:63-100 | `handle_cursor_movement` reaches `MovedState` |
| Session.Editor.BackspaceCount | src/input.cpp:114-147 | the scans compute `BackspaceWidth` |
| Session.Editor.DeleteBeforeCursor | src/input.cpp:150-155 | the deletion loop reaches `Backspaced` |
| Session.Editor.JoinWithPrevious | src/input.cpp:160-169 | the join reaches `Backspaced` |
| Session.Editor.HandleBackspace | src/input.cpp:107-174 | `handle_backspace` reaches `Backspaced` |
| Session.Editor.HandleDelete | src/input.cpp:181-197 | `handle_delete` reaches `Deleted` |
| Session.Editor.HandleEnter | src/input.cpp:204-228 | `handle_enter` reaches `Entered` |
| Session.Editor.AutoIndent | src/input.cpp:211-223 | the indent loop inserts exactly the indent width of spaces |
| Session.Editor.HandleTab | src/input.cpp:235-250 | `handle_tab` reaches `Tabbed` |
| Session.Editor.InsertTyped | src/input.cpp:378-399 | typing reaches `Typed` |
| Session.Editor.HandleSave | src/input.cpp:257-274 | `handle_save` reaches `Save` |
| Session.Editor.HandleQuit | src/input.cpp:282-288 | `handle_quit` reaches `Quit` |
| Session.Editor.SaveAndQuitCommand | src/input.cpp:488-500 | reaches `SaveAndQuit` |
| Session.Editor.SaveAsCommand | src/input.cpp:501-515 | reaches `SaveAs` |
| Session.Editor.ProcessCommand | src/input.cpp:477-522 | `process_command` reaches `RunCommand` |
| Session.Editor.EchoCommand | src/input.cpp:462-464 | reaches `Echo` |
| Session.Editor.InsertModeKey | src/input.cpp:318-407 | reaches `InsertKey` |
| Session.Editor.EditingKey | src/input.cpp:346-407 | reaches `EditKey` |
| Session.Editor.CommandLineKey | src/input.cpp:434-448 | reaches `CommandLineInput` |
| Session.Editor.CommandModeKey | src/input.cpp:409-464 | reaches `CommandKey` |
| Session.Editor.OtherCommandModeKey | src/input.cpp:434-464 | reaches `OtherCommandKey` |
| Session.Editor.ProcessKey | src/input.cpp:313-464 | reaches `Keypress` |
| Session.Editor.ProcessKeypress | src/input.cpp:307-470 | decodes one key with `read_key` and reaches `Keypress` for it |
| Renderer.Sgr | include/slowertext.h:22-37 | a colour escape is ESC `[`, a group digit, an index digit and `m` |
| Renderer.ColorCode | src/renderer.cpp:10-28 | a colour code is empty or a five-character SGR sequence |
| Renderer.ColorTable | src/renderer.cpp:11-26 | the i-th colour name gives foreground 3i, and with `bg_` background 4i |
| Renderer.UnknownColor | src/renderer.cpp:27 | any other name gives no code |
| Renderer.BackgroundOfForeground | src/renderer.cpp:19-26 | a background code is its foreground code with 3 turned into 4 |
| Renderer.ColorIsNotInverse | src/renderer.cpp:46 | no colour code equals the inverse-video code |
| Renderer.Scrolled | src/renderer.cpp:231-264 | the cursor is clamped onto the text and kept if already valid; the window then contains it; offsets are kept while the cursor is visible and never go negative |
| Renderer.WithOffsets | src/renderer.cpp:222-223 | only the scroll offsets are copied back |
| Renderer.ScrollIsMinimal | src/renderer.cpp:250-255 | a cursor above the window puts it on the top row, and one below puts it on the bottom row |
| Renderer.ScrollIdempotent | src/renderer.cpp:231-264 | scrolling again changes nothing |
| Renderer.Scroll | src/renderer.cpp:231-264 | the imperative scroll computes `Scrolled` |
| Renderer.WriteBytes | src/renderer.cpp:97 | `write(fd, literal, n)` sends the first n bytes of the literal and its NUL |
| Renderer.RowEndAsWritten | src/renderer.cpp:97-99 | as written, each row ends with a NUL byte between the colour reset and the clear |
| Renderer.RowEnd | src/renderer.cpp:97-99 | corrected: reset, clear and CR LF, with no NUL |
| Renderer.PadLeft | src/renderer.cpp:55 | `%4d` pads with spaces on the left to the width |
| Renderer.Gutter | src/renderer.cpp:52-60 | the gutter is at least five wide and ends with a space, and is blank past the end of the text |
| Renderer.GutterNumber | src/renderer.cpp:55 | after the padding, the gutter holds the 1-based line number |
| Renderer.GutterWidth | src/renderer.cpp:55 | the gutter of a text row is five wide below line 10000 |
| Renderer.Visible | src/renderer.cpp:72-86 | shows the part of the line from the column offset, at most a screen wide |
| Renderer.RowOf | src/renderer.cpp:41-94 | inverse exactly on the highlighted cursor row; the gutter with line numbers on; a tilde exactly for rows past the text or empty lines when enabled; comment colour exactly for `#` and `//` lines when syntax highlighting is on |
| Renderer.RowText | src/renderer.cpp:44-99 | corrected: every row ends with the row terminator `RowEnd`, without the NUL the source sends |
| Renderer.NoNulInColorCode | src/renderer.cpp:10-28 | colour codes contain no NUL |
| Renderer.RowHasNoNul | src/renderer.cpp:41-99 | corrected rows of NUL-free text contain no NUL |
| Renderer.DrawRow | src/renderer.cpp:42-99 | corrected: one iteration writes `RowText` of `RowOf`, ending with `RowEnd` |
| Renderer.DrawRows | src/renderer.cpp:36-101 | corrected: draws exactly `screen_rows` rows (none if not positive), row y being `RowOf` y, each ending with `RowEnd` |
| Renderer.ShownName | src/renderer.cpp:118 | the shown name is never empty (`[No Name]`) |
| Renderer.Find | src/renderer.cpp:126 | `find` from a position returns the first occurrence there or later, or none |
| Renderer.ReplaceAllSkip | src/renderer.cpp:126-129 | text before the next occurrence is copied unchanged |
| Renderer.ReplaceAllMissAt | src/renderer.cpp:126-129 | a character where no occurrence starts is copied |
| Renderer.ReplaceAllCopy | src/renderer.cpp:126-129 | text without the pattern's first character is copied |
| Renderer.ReplaceAllAt | src/renderer.cpp:127 | an occurrence is replaced and the search continues after it |
| Renderer.ReplaceStep | src/renderer.cpp:126-129 | the loop invariant: the replaced prefix plus the rest still to be replaced |
| Renderer.ReplaceEvery | src/renderer.cpp:123-143 | the find/replace loop, which resumes after each replacement, replaces every occurrence left to right |
| Renderer.ReplaceAllNone | src/renderer.cpp:126-129 | without occurrences nothing changes |
| Renderer.DefaultNamed | src/renderer.cpp:126-129 | the default format's `%f` becomes the name |
| Renderer.DefaultMarked | src/renderer.cpp:133-136 | `%modified` becomes the star or nothing |
| Renderer.DefaultModed | src/renderer.cpp:140-143 | `%m` becomes the mode |
| Renderer.DefaultStatusLeft | src/renderer.cpp:117-143 | with the default format and a name without `%`, the left side is name, star, " - ", mode |
| Renderer.FileNameIsExpanded | src/renderer.cpp:126-143 | a file called `%m` shows as the mode, because later substitutions run over earlier ones |
| Renderer.RightStatus | src/renderer.cpp:149-150 | "row/lines" is at least three characters |
| Renderer.Padding | src/renderer.cpp:157-165 | pads to the screen width; the position ends the bar only if it fits exactly at the end |
| Renderer.Pad | src/renderer.cpp:157-165 | the padding loop computes `Padding` |
| Renderer.StatusEndAsWritten | src/renderer.cpp:168-169 | as written, the status bar ends with a NUL byte |
| Renderer.StatusEnd | src/renderer.cpp:168-169 | corrected: reset and CR LF, with no NUL |
| Renderer.StatusLayout | src/renderer.cpp:146-165 | the bar is exactly screen-wide, starts with the left text cut to 240 and to the width, and ends with the position when it fits |
| Renderer.LayOutStatus | src/renderer.cpp:146-165 | the layout code computes `StatusLayout` |
| Renderer.ExpandFormat | src/renderer.cpp:117-143 | the three substitution loops compute the left text |
| Renderer.DrawStatusBar | src/renderer.cpp:108-170 | corrected: the bar is the background code, the layout and `StatusEnd`, without the NUL the source sends |
| Renderer.MessageBar | src/renderer.cpp:177-187 | clear line, then a prefix of the message no wider than the screen, shown exactly when it is non-empty, the screen has width and the message is under 5 s old |
| Renderer.MessageShownForFiveSeconds | src/renderer.cpp:184-185 | a message that fits is shown whole for under five seconds, then hidden |
| Renderer.View | src/renderer.cpp:197-198 | the copy drawn keeps the text, settings, mode and message; its cursor is on the text and, on a screen of positive size, inside the window; a cursor already on the text stays |
| Renderer.CursorColumnAsWritten | src/renderer.cpp:214-215 | as written, the cursor column adds a fixed 5 with line numbers |
| Renderer.CursorMissesWideGutter | src/renderer.cpp:214-215 | from line 10000 the gutter is wider than 5, so the as-written cursor lands left of its character |
| Renderer.CursorColumn | src/renderer.cpp:214-215 | corrected: the column adds the actual gutter width |
| Renderer.CursorColumnsAgree | src/renderer.cpp:214-215 | below line 10000 both agree |
| Renderer.Screen | src/renderer.cpp:195-219 | corrected: the frame has `screen_rows` rows of the scrolled view, and the cursor at the corrected column and the row relative to the scroll |
| Renderer.CursorOnItsCharacter | src/renderer.cpp:195-264 | the cursor is on a drawn row, inside the screen, over the very character it stands on in the buffer |
| Renderer.RefreshScreen | src/renderer.cpp:195-224 | corrected: draws `Screen`, with the corrected row and status ends and cursor column, and copies only the new scroll offsets back into the editor |

## Left out

- `terminal.cpp` is not part of this model. Raw mode, the window-size query and the escape sequences that hide, show and place the cursor are left out. The cursor's place is the `cursorCol`/`cursorRow` of a `Frame`.
- `main`'s loop, its start-up file load from `argv`, `SIGWINCH`, `atexit`, and `getchar()` in debug mode are left out.
- The frame is kept as its parts (background, rows, status bar, message bar, cursor), not as one byte stream.
- File streams, `stat` and `get_config_path` (HOME, passwd, the three candidate paths) are left out. Whether a file opens is a parameter, and its content is a string.
- `debug_mode` messages are left out. The model is the editor with debug mode off.
- The `try`/`catch` blocks are left out. Nothing in the modelled code throws, except `std::stoi` while loading the RC file. `Config.Applied` reports that as `None`: start-up fails.
- Settings that nothing in the editor reads are left out: show_whitespace, color_scheme, font, create_backups, word_wrap, default_extension, show_hidden_files, default_encoding, line_endings and the four cursor bindings. The numeric keys other than tab_width are still checked by `std::stoi`.
- Renderer.MessageBar, Renderer.Screen and Renderer.RefreshScreen require a screen width that is not negative. A negative width would make the source's `write` lengths negative.
- Renderer.StatusLayout: `snprintf("%.240s")` stops at a NUL byte inside the expanded format. The model cuts at 240 characters only, as for a format without NUL bytes.
- Dispatch.SaveAs: the source also checks for an empty file name after "saves". That branch is dead because the command is longer than six characters. It is not modelled, and `Dispatch.SaveAsName` proves the name is never empty.
- Config.Stoi models 32-bit `int` only. A value that fits does not wrap.

Behaviour of the code a reader may not expect, kept as is:

- Config values are not stripped of quotes.
- `tab_width` is not range-checked (`Config.TabWidthUnchecked`).
- A save followed by a load drops a trailing empty line (`FileIO.SaveLoadRoundTrip`).
- An unbound binding parses to 0 and so matches a NUL key (`Config.UnboundMatchesNul`).
- ":saves" skips whatever single character follows it (`Dispatch.SaveAsAnySeparator`).

## Findings

| source | as written | input that shows it | evidently intended | confidence | as-written member | corrected member |
|---|---|---|---|---|---|---|
| src/renderer.cpp:97, src/renderer.cpp:168 | `write(STDOUT_FILENO, COLOR_RESET, 4)` writes four bytes of the three-byte `"\033[m"`, so the string's terminating NUL goes to the terminal after every row and after the status bar | any redraw | write the three bytes of the reset sequence | high (not executed) | Renderer.RowEndAsWritten, Renderer.StatusEndAsWritten | Renderer.RowEnd, Renderer.StatusEnd, Renderer.RowHasNoNul |
| src/renderer.cpp:55, src/renderer.cpp:214-215 | the cursor column adds a fixed 5 for the gutter, but `"%4d "` is wider than 5 once the line number has five digits | line numbers on and the cursor on line 10000 or later | add the width of the gutter actually drawn | high (not executed) | Renderer.CursorColumnAsWritten, Renderer.CursorMissesWideGutter | Renderer.CursorColumn, Renderer.CursorOnItsCharacter |
