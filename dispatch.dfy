/**
 * The input state machine of src/input.cpp as functions on a snapshot of
 * the editor: InputHandler::process_keypress (which handler a key reaches,
 * in which mode, in which order) and InputHandler::process_command (the
 * ':' commands), together with handle_save and handle_quit. Class
 * Session.Editor performs these steps in place and is proved to agree.
 *
 * Saving is an outside service: whether the output stream opens is the
 * parameter `canOpen`, and what is written is returned as a FileWrite.
 * set_status_message reads the clock: the time is the parameter `now`.
 */
module Dispatch {
  import opened Text
  import opened Slowertext
  import opened Editing
  import FileIO
  import Config

  /** The whole editor as the input handlers see it: the buffer's lines and
      modified flag, the runtime fields of EditorConfig, and the two static
      variables of process_keypress (command_buffer, in_command_input). */
  datatype EditorState = EditorState(
    lines: seq<string>,
    bufferModified: bool,
    cursorX: int,
    cursorY: int,
    rowOffset: int,
    colOffset: int,
    screenRows: int,
    screenCols: int,
    mode: Mode,
    filename: string,
    modified: bool,
    quit: bool,
    statusMsg: string,
    statusMsgTime: int,
    commandBuffer: string,
    inCommandInput: bool)

  /** What every reachable state satisfies: the cursor is on the text, the
      status bar's dirty flag agrees with the buffer's, and the scroll
      offsets are not negative. */
  predicate Consistent(s: EditorState) {
    && CursorValid(s.lines, s.cursorX, s.cursorY)
    && s.modified == s.bufferModified
    && s.rowOffset >= 0 && s.colOffset >= 0
  }

  /** The key codes of the five configurable bindings. */
  datatype Bindings = Bindings(enterInsert: int, enterCommand: int, saveFile: int, quitEditor: int, forceQuit: int)

  /** key_matches_binding parses the binding string on every call; the
      settings never change during a session, so the codes are these. */
  function BindingsOf(st: Settings): Bindings {
    Bindings(
      Config.ParseKeyBinding(st.enterInsert),
      Config.ParseKeyBinding(st.enterCommand),
      Config.ParseKeyBinding(st.saveFile),
      Config.ParseKeyBinding(st.quitEditor),
      Config.ParseKeyBinding(st.forceQuit))
  }

  /** With the default settings: Tab, Escape, Ctrl-S, Ctrl-Q and Ctrl-F. */
  lemma DefaultBindings()
    ensures BindingsOf(Config.Defaults()) == Bindings(9, EscKey, 0x13, 0x11, 0x06)
  {
    Config.DefaultModeBindings();
    Config.DefaultFileBindings();
  }

  /** A file that save_file wrote: its name and full content. */
  datatype FileWrite = FileWrite(name: string, content: string)

  /** The state after a key, and the file written while handling it, if any. */
  datatype Step = Step(state: EditorState, write: Option<FileWrite>)

  /** The files a step wrote, as a list. */
  function Written(step: Step): (r: seq<FileWrite>)
    ensures |r| <= 1 && (r == [] <==> step.write.None?)
  {
    if step.write.Some? then [step.write.value] else []
  }

  /** set_status_message. */
  function WithStatus(s: EditorState, msg: string, now: int): (r: EditorState)
    ensures r.statusMsg == msg && r.statusMsgTime == now
    ensures r.(statusMsg := s.statusMsg, statusMsgTime := s.statusMsgTime) == s
    ensures Consistent(r) == Consistent(s)
  {
    s.(statusMsg := msg, statusMsgTime := now)
  }

  /** An editing handler's result stored back: the lines and cursor, and
      `config.modified = buffer.is_modified()` after the buffer's flag has
      been set by any change. */
  function AfterEdit(s: EditorState, e: Edit): (r: EditorState)
    requires Consistent(s) && CursorValid(e.lines, e.x, e.y)
    ensures Consistent(r)
    ensures r.lines == e.lines && r.cursorX == e.x && r.cursorY == e.y
    ensures r.bufferModified == (s.bufferModified || e.changed) && r.modified == r.bufferModified
  {
    var dirty := s.bufferModified || e.changed;
    s.(lines := e.lines, cursorX := e.x, cursorY := e.y, bufferModified := dirty, modified := dirty)
  }

  /** The buffer after a successful save: the lines were written and both
      dirty flags are cleared. */
  function Saved(s: EditorState): (r: EditorState)
    ensures !r.bufferModified && !r.modified && r.lines == s.lines
    ensures Consistent(s) ==> Consistent(r)
  {
    s.(bufferModified := false, modified := false)
  }

  /** handle_save. */
  function Save(s: EditorState, now: int, canOpen: bool): (r: Step)
    ensures r.write.Some? <==> s.filename != "" && canOpen
    ensures r.write.Some? ==>
      && r.write.value == FileWrite(s.filename, FileIO.Join(s.lines))
      && !r.state.bufferModified && !r.state.modified
      && r.state.statusMsg == "File saved: " + s.filename
    ensures r.write.None? ==> r.state.bufferModified == s.bufferModified
    ensures r.state.lines == s.lines && r.state.quit == s.quit && r.state.filename == s.filename
    ensures Consistent(s) ==> Consistent(r.state)
    ensures r.state.mode == s.mode && r.state.inCommandInput == s.inCommandInput
  {
    if s.filename == "" then
      Step(WithStatus(s, "Error: No filename specified", now), None)
    else if canOpen then
      Step(WithStatus(Saved(s), "File saved: " + s.filename, now), Some(FileWrite(s.filename, FileIO.Join(s.lines))))
    else
      Step(WithStatus(s, "Error: Could not save file", now), None)
  }

  /** handle_quit: refused only when it is not forced, confirm_quit is on
      and the buffer has unsaved changes. */
  function Quit(s: EditorState, confirmQuit: bool, force: bool, now: int): (r: EditorState)
    ensures r.quit <==> s.quit || force || !confirmQuit || !s.bufferModified
    ensures r.lines == s.lines && r.bufferModified == s.bufferModified
    ensures Consistent(s) ==> Consistent(r)
    ensures r.mode == s.mode && r.inCommandInput == s.inCommandInput && r.commandBuffer == s.commandBuffer
  {
    if !force && confirmQuit && s.bufferModified then
      WithStatus(s, "File modified. Use force quit or save first", now)
    else
      s.(quit := true)
  }

  /** Quitting without force needs confirm_quit off or no unsaved change. */
  predicate QuitAllowed(s: EditorState, st: Settings) {
    !st.confirmQuit || !s.bufferModified
  }

  /** The status line shows the command being typed after every key that
      reaches the end of process_keypress. */
  function Echo(s: EditorState, now: int): (r: EditorState)
    ensures s.inCommandInput ==> r.statusMsg == ":" + s.commandBuffer && r.statusMsgTime == now
    ensures !s.inCommandInput ==> r == s
    ensures r.(statusMsg := s.statusMsg, statusMsgTime := s.statusMsgTime) == s
    ensures Consistent(r) == Consistent(s)
    ensures r.lines == s.lines && r.bufferModified == s.bufferModified && r.quit == s.quit
  {
    if s.inCommandInput then WithStatus(s, ":" + s.commandBuffer, now) else s
  }

  function NoWrite(s: EditorState): Step {
    Step(s, None)
  }

  /** The cursor after an arrow key. */
  function MovedState(s: EditorState, key: int): (r: EditorState)
    requires Consistent(s)
    ensures Consistent(r)
  {
    var (x, y) := Moved(s.lines, s.cursorX, s.cursorY, key);
    s.(cursorX := x, cursorY := y)
  }

  /** The codes read_key can return. */
  predicate IsInput(c: int) {
    c == -1 || IsKeyCode(c)
  }

  /** process_keypress after read_key returned c. */
  function Keypress(s: EditorState, st: Settings, b: Bindings, c: int, now: int, canOpen: bool): (r: Step)
    requires Consistent(s) && IsInput(c)
    ensures c == -1 ==> r == NoWrite(WithStatus(s, "Error: Invalid key input", now))
    ensures Consistent(r.state)
    ensures r.write.Some? ==>
      && r.write.value.content == FileIO.Join(s.lines)
      && r.state.lines == s.lines && !r.state.bufferModified && !r.state.modified
    ensures s.mode == Command ==> r.state.lines == s.lines
    ensures r.state.lines != s.lines ==> s.mode == Insert && r.state.bufferModified
  {
    if c == -1 then NoWrite(WithStatus(s, "Error: Invalid key input", now))
    else if s.mode == Insert then InsertKey(s, st, b, c, now, canOpen)
    else CommandKey(s, st, b, c, now, canOpen)
  }

  /** Insert mode, in the order the source tests: the mode switch, save and
      the two quits, then Tab, Enter, Backspace, Delete and the arrows, then
      the insert-mode binding, then characters; any other control character
      only refreshes the command echo. */
  function InsertKey(s: EditorState, st: Settings, b: Bindings, c: int, now: int, canOpen: bool): (r: Step)
    requires Consistent(s) && IsKeyCode(c)
    ensures Consistent(r.state)
    ensures r.write.Some? ==>
      && r.write.value.content == FileIO.Join(s.lines)
      && r.state.lines == s.lines && !r.state.bufferModified && !r.state.modified
    ensures r.state.lines != s.lines ==> r.state.bufferModified
    ensures r.state.quit != s.quit ==> (c == b.quitEditor && QuitAllowed(s, st)) || c == b.forceQuit
    ensures c != b.enterCommand ==> r.state.mode == s.mode
    ensures c == b.enterCommand ==>
      r.write.None? && r.state.lines == s.lines && r.state.mode == Command && r.state.statusMsg == "Command mode"
  {
    if c == b.enterCommand then NoWrite(WithStatus(s.(mode := Command), "Command mode", now))
    else if c == b.saveFile then Save(s, now, canOpen)
    else if c == b.quitEditor then NoWrite(Quit(s, st.confirmQuit, false, now))
    else if c == b.forceQuit then NoWrite(Quit(s, st.confirmQuit, true, now))
    else NoWrite(EditKey(s, st, b, c, now))
  }

  /** Insert mode once the mode switch, save and the quits are ruled out:
      the editing keys and the arrows, then the insert-mode binding and
      characters. */
  function EditKey(s: EditorState, st: Settings, b: Bindings, c: int, now: int): (r: EditorState)
    requires Consistent(s) && IsKeyCode(c)
    ensures Consistent(r) && r.quit == s.quit && r.mode == s.mode
    ensures r.lines != s.lines ==> r.bufferModified
    ensures s.bufferModified ==> r.bufferModified
    ensures r.lines != s.lines ==> EditingKeyCode(c) || IsTypedChar(c)
    ensures c == '\t' as int ==> r == AfterEdit(s, Tabbed(s.lines, s.cursorX, s.cursorY, st.tabWidth))
    ensures IsTypedChar(c) && c != b.enterInsert ==>
      && r.lines == s.lines[s.cursorY := s.lines[s.cursorY][..s.cursorX] + [c as char] + s.lines[s.cursorY][s.cursorX..]]
      && r.cursorX == s.cursorX + 1 && r.cursorY == s.cursorY && r.bufferModified
    ensures !EditingKeyCode(c) && c == b.enterInsert ==> r == WithStatus(s, "Already in Insert mode", now)
    ensures !EditingKeyCode(c) && !IsTypedChar(c) && c != b.enterInsert ==> r == Echo(s, now)
  {
    if EditingKeyCode(c) then HandlerKey(s, st, c) else CharacterKey(s, b, c, now)
  }

  /** Tab, Enter, Backspace, Delete and the arrows, each with its handler;
      Tab inserts spaces whatever the bindings are. */
  function HandlerKey(s: EditorState, st: Settings, c: int): (r: EditorState)
    requires Consistent(s) && EditingKeyCode(c)
    ensures Consistent(r) && r.quit == s.quit && r.mode == s.mode
    ensures r.lines != s.lines ==> r.bufferModified
    ensures s.bufferModified ==> r.bufferModified
    ensures c == '\t' as int ==> r == AfterEdit(s, Tabbed(s.lines, s.cursorX, s.cursorY, st.tabWidth))
  {
    var (x, y) := (s.cursorX, s.cursorY);
    if c == '\t' as int then AfterEdit(s, Tabbed(s.lines, x, y, st.tabWidth))
    else if c == '\r' as int || c == '\n' as int then AfterEdit(s, Entered(s.lines, x, y, st.autoIndent))
    else if c == BackspaceKey || c == 8 then AfterEdit(s, Backspaced(s.lines, x, y, st.tabWidth))
    else if c == DeleteKey then AfterEdit(s, Deleted(s.lines, x, y))
    else MovedState(s, c)
  }

  /** Any other key in insert mode: the insert-mode binding (never Tab here)
      reports that the mode is already on; the codes 32..126 and 128..255
      are typed at the cursor; a control character only refreshes the
      command echo. */
  function CharacterKey(s: EditorState, b: Bindings, c: int, now: int): (r: EditorState)
    requires Consistent(s) && IsKeyCode(c) && !EditingKeyCode(c)
    ensures Consistent(r) && r.quit == s.quit && r.mode == s.mode
    ensures r.lines != s.lines ==> IsTypedChar(c) && r.bufferModified
    ensures s.bufferModified ==> r.bufferModified
    ensures IsTypedChar(c) && c != b.enterInsert ==>
      && r.lines == s.lines[s.cursorY := s.lines[s.cursorY][..s.cursorX] + [c as char] + s.lines[s.cursorY][s.cursorX..]]
      && r.cursorX == s.cursorX + 1 && r.cursorY == s.cursorY && r.bufferModified
    ensures c == b.enterInsert ==> r == WithStatus(s, "Already in Insert mode", now)
    ensures !IsTypedChar(c) && c != b.enterInsert ==> r == Echo(s, now)
  {
    if c == b.enterInsert then WithStatus(s, "Already in Insert mode", now)
    else if IsTypedChar(c) then AfterEdit(s, Typed(s.lines, s.cursorX, s.cursorY, c as char))
    else Echo(s, now)
  }

  /** The keys insert mode hands to an editing handler or the cursor before
      looking at the insert-mode binding: Tab, Enter, Backspace, Delete and
      the arrows. */
  predicate EditingKeyCode(c: int) {
    c == '\t' as int || c == '\r' as int || c == '\n' as int || c == BackspaceKey || c == 8
    || c == DeleteKey || IsArrow(c)
  }

  /** The codes insert mode types as a character: printable ASCII and the
      bytes above 127 (127 itself is Backspace). */
  predicate IsTypedChar(c: int) {
    (32 <= c <= 126) || (128 <= c <= 255)
  }

  /** Command mode: the insert-mode binding, ':' (start typing a command),
      the two quits, then either command-line editing or the arrows; any
      other key is rejected. */
  function CommandKey(s: EditorState, st: Settings, b: Bindings, c: int, now: int, canOpen: bool): (r: Step)
    requires Consistent(s) && IsKeyCode(c)
    ensures Consistent(r.state)
    ensures r.state.lines == s.lines
    ensures r.state.quit != s.quit ==>
      || (c == b.quitEditor && QuitAllowed(s, st)) || c == b.forceQuit
      || (s.inCommandInput && s.commandBuffer == "q" && QuitAllowed(s, st))
      || (s.inCommandInput && s.commandBuffer == "q!") || r.write.Some?
    ensures r.write.Some? ==>
      && r.write.value.content == FileIO.Join(s.lines)
      && r.state.lines == s.lines && !r.state.bufferModified && !r.state.modified
    ensures c != b.enterInsert ==> r.state.mode == s.mode
    ensures c == b.enterInsert ==>
      && r.write.None? && r.state.mode == Insert && r.state.statusMsg == "Insert mode"
      && r.state.inCommandInput == s.inCommandInput && r.state.commandBuffer == s.commandBuffer
    ensures c != b.enterInsert && c == ':' as int ==>
      r.write.None? && r.state.inCommandInput && r.state.commandBuffer == ""
    ensures c != b.enterInsert && c != ':' as int && (c == b.quitEditor || c == b.forceQuit) ==>
      && r.write.None? && r.state.inCommandInput == s.inCommandInput && r.state.commandBuffer == s.commandBuffer
      && (r.state.quit <==> s.quit || c != b.quitEditor || QuitAllowed(s, st))
  {
    if c == b.enterInsert then NoWrite(WithStatus(s.(mode := Insert), "Insert mode", now))
    else if c == ':' as int then NoWrite(s.(inCommandInput := true, commandBuffer := ""))
    else if c == b.quitEditor then NoWrite(Quit(s, st.confirmQuit, false, now))
    else if c == b.forceQuit then NoWrite(Quit(s, st.confirmQuit, true, now))
    else OtherCommandKey(s, st, c, now, canOpen)
  }

  /** A command-mode key that is neither a binding nor ':': a key of the
      command line while one is being typed, else an arrow, else an error
      message; the command line is echoed in the last two cases. */
  function OtherCommandKey(s: EditorState, st: Settings, c: int, now: int, canOpen: bool): (r: Step)
    requires Consistent(s) && IsKeyCode(c)
    ensures Consistent(r.state)
    ensures r.state.lines == s.lines
    ensures r.state.quit != s.quit ==>
      || (s.inCommandInput && s.commandBuffer == "q" && QuitAllowed(s, st))
      || (s.inCommandInput && s.commandBuffer == "q!") || r.write.Some?
    ensures r.write.Some? ==>
      && r.write.value.content == FileIO.Join(s.lines)
      && r.state.lines == s.lines && !r.state.bufferModified && !r.state.modified
    ensures !s.inCommandInput ==> r.write.None? && r.state.quit == s.quit
  {
    if s.inCommandInput then CommandLineInput(s, st, c, now, canOpen)
    else if IsArrow(c) then NoWrite(Echo(MovedState(s, c), now))
    else NoWrite(Echo(WithStatus(s, "Invalid command mode key", now), now))
  }

  /** A key on the command line (after the bindings and ':' were ruled
      out): Enter runs the command, Backspace drops the last character of
      a non-empty command, a printable character is appended; the command
      is echoed afterwards, unless Enter ended the command line. */
  function CommandLineInput(s: EditorState, st: Settings, c: int, now: int, canOpen: bool): (r: Step)
    requires Consistent(s) && s.inCommandInput
    ensures Consistent(r.state) && r.state.lines == s.lines
    ensures r.state.quit != s.quit ==>
      || (s.commandBuffer == "q" && QuitAllowed(s, st)) || s.commandBuffer == "q!" || r.write.Some?
    ensures r.write.Some? ==>
      && r.write.value.content == FileIO.Join(s.lines)
      && !r.state.bufferModified && !r.state.modified
    ensures r.write.None? ==> r.state.bufferModified == s.bufferModified
    ensures r.state.inCommandInput <==> c != '\r' as int && c != '\n' as int
    ensures c != '\r' as int && c != '\n' as int ==>
      && r.write.None? && r.state.quit == s.quit && r.state.mode == s.mode
      && r.state.statusMsg == ":" + r.state.commandBuffer && r.state.statusMsgTime == now
    ensures (c == BackspaceKey || c == 8) && s.commandBuffer == "" ==> r == NoWrite(WithStatus(s, ":", now))
    ensures (c == BackspaceKey || c == 8) && s.commandBuffer != "" ==>
      r.state.commandBuffer + [s.commandBuffer[|s.commandBuffer| - 1]] == s.commandBuffer
    ensures 32 <= c <= 126 ==> r.state.commandBuffer == s.commandBuffer + [c as char]
    ensures !(32 <= c <= 126) && c != BackspaceKey && c != 8 && c != '\r' as int && c != '\n' as int ==>
      r.state.commandBuffer == s.commandBuffer
  {
    if c == '\r' as int || c == '\n' as int then
      var r := RunCommand(s.(inCommandInput := false), st, s.commandBuffer, now, canOpen);
      Step(Echo(r.state, now), r.write)
    else if (c == BackspaceKey || c == 8) && s.commandBuffer != "" then
      NoWrite(Echo(s.(commandBuffer := s.commandBuffer[..|s.commandBuffer| - 1]), now))
    else if 32 <= c <= 126 then
      NoWrite(Echo(s.(commandBuffer := s.commandBuffer + [c as char]), now))
    else
      NoWrite(Echo(s, now))
  }

  /** process_command. "saves" followed by any one character and a name of
      at least one character saves under that name. */
  function RunCommand(s: EditorState, st: Settings, cmd: string, now: int, canOpen: bool): (r: Step)
    requires Consistent(s)
    ensures Consistent(r.state) && r.state.lines == s.lines
    ensures r.state.mode == s.mode && r.state.inCommandInput == s.inCommandInput
    ensures r.write.None? ==> r.state.bufferModified == s.bufferModified
    ensures r.write.Some? ==> !r.state.bufferModified && r.write.value.content == FileIO.Join(s.lines)
    ensures r.state.quit != s.quit ==>
      (cmd == "q" && QuitAllowed(s, st)) || cmd == "q!" || ((cmd == "wq" || cmd == "sq") && r.write.Some?)
  {
    if cmd == "q" then NoWrite(Quit(s, st.confirmQuit, false, now))
    else if cmd == "q!" then NoWrite(Quit(s, st.confirmQuit, true, now))
    else if cmd == "s" || cmd == "w" then Save(s, now, canOpen)
    else if cmd == "wq" || cmd == "sq" then SaveAndQuit(s, now, canOpen)
    else if |cmd| > 6 && cmd[..5] == "saves" then SaveAs(s, cmd[6..], now, canOpen)
    else NoWrite(WithStatus(s, "Unknown command: " + cmd, now))
  }

  /** ":wq" and ":sq": save, and quit only when the save succeeded. */
  function SaveAndQuit(s: EditorState, now: int, canOpen: bool): (r: Step)
    requires Consistent(s)
    ensures Consistent(r.state) && r.state.lines == s.lines
    ensures r.write.Some? <==> s.filename != "" && canOpen
    ensures r.write.Some? ==>
      && r.write.value == FileWrite(s.filename, FileIO.Join(s.lines))
      && r.state.quit && !r.state.bufferModified && !r.state.modified
    ensures r.write.None? ==> r.state.quit == s.quit && r.state.bufferModified == s.bufferModified
    ensures r.state.mode == s.mode && r.state.inCommandInput == s.inCommandInput
  {
    if s.filename == "" then NoWrite(WithStatus(s, "Error: No filename specified", now))
    else if canOpen then Step(Saved(s).(quit := true), Some(FileWrite(s.filename, FileIO.Join(s.lines))))
    else NoWrite(WithStatus(s, "Error: Could not save file", now))
  }

  /** ":saves" with a name, never empty there: on success the name becomes
      the file name. */
  function SaveAs(s: EditorState, name: string, now: int, canOpen: bool): (r: Step)
    requires Consistent(s) && name != ""
    ensures Consistent(r.state) && r.state.lines == s.lines && r.state.quit == s.quit
    ensures r.write.Some? <==> canOpen
    ensures r.write.Some? ==>
      && r.write.value == FileWrite(name, FileIO.Join(s.lines))
      && r.state.filename == name && !r.state.bufferModified && !r.state.modified
    ensures r.write.None? ==> r.state.filename == s.filename && r.state.bufferModified == s.bufferModified
    ensures r.state.mode == s.mode && r.state.inCommandInput == s.inCommandInput
  {
    if canOpen then
      Step(WithStatus(Saved(s).(filename := name), "File saved as: " + name, now), Some(FileWrite(name, FileIO.Join(s.lines))))
    else NoWrite(WithStatus(s, "Error: Could not save file as " + name, now))
  }

  /* ---------------- sessions ---------------- */

  /** init_editor followed by load_config and the terminal size query: one
      empty line, cursor and offsets at 0, the configured start mode, no
      file name, nothing pending; two rows are kept for the status and
      message bars. */
  function Initial(st: Settings, termRows: int, termCols: int): (r: EditorState)
    ensures Consistent(r) && !r.quit && !r.bufferModified && r.lines == [""]
  {
    EditorState(
      lines := [""], bufferModified := false,
      cursorX := 0, cursorY := 0, rowOffset := 0, colOffset := 0,
      screenRows := termRows - 2, screenCols := termCols,
      mode := st.defaultMode, filename := "", modified := false, quit := false,
      statusMsg := "", statusMsgTime := 0,
      commandBuffer := "", inCommandInput := false)
  }

  predicate AllInput(keys: seq<int>) {
    forall i :: 0 <= i < |keys| ==> IsInput(keys[i])
  }

  /** Several keys in a row (all at the same time of day and with the same
      answer from the file system): the final state and the files written,
      in order. */
  function Run(s: EditorState, st: Settings, b: Bindings, keys: seq<int>, now: int, canOpen: bool): (r: (EditorState, seq<FileWrite>))
    requires Consistent(s) && AllInput(keys)
    ensures Consistent(r.0)
    decreases |keys|
  {
    if keys == [] then (s, [])
    else
      var step := Keypress(s, st, b, keys[0], now, canOpen);
      var rest := Run(step.state, st, b, keys[1..], now, canOpen);
      (rest.0, Written(step) + rest.1)
  }

  /* ---------------- properties of the state machine ---------------- */

  /** A key that quits while changes are unsaved and confirm_quit is on was
      a force quit (the binding or ":q!") or saved the file first (":wq"). */
  lemma QuitNeedsSaveOrForce(s: EditorState, st: Settings, b: Bindings, c: int, now: int, canOpen: bool)
    requires Consistent(s) && IsInput(c) && !s.quit
    requires st.confirmQuit && s.bufferModified
    requires Keypress(s, st, b, c, now, canOpen).state.quit
    ensures || c == b.forceQuit
            || (s.mode == Command && s.inCommandInput && s.commandBuffer == "q!")
            || Keypress(s, st, b, c, now, canOpen).write.Some?
  {
    if s.mode == Insert {
      assert Keypress(s, st, b, c, now, canOpen) == InsertKey(s, st, b, c, now, canOpen);
    } else {
      assert Keypress(s, st, b, c, now, canOpen) == CommandKey(s, st, b, c, now, canOpen);
    }
  }

  /* ---------------- whole sessions ---------------- */

  /** A key no binding claims. */
  predicate Unbound(b: Bindings, c: int) {
    c != b.enterInsert && c != b.enterCommand && c != b.saveFile && c != b.quitEditor && c != b.forceQuit
  }

  /** One key of a run that writes no file. */
  lemma RunStep(s: EditorState, st: Settings, b: Bindings, keys: seq<int>, now: int, canOpen: bool)
    requires Consistent(s) && AllInput(keys) && keys != []
    requires Keypress(s, st, b, keys[0], now, canOpen).write.None?
    ensures Run(s, st, b, keys, now, canOpen) == Run(Keypress(s, st, b, keys[0], now, canOpen).state, st, b, keys[1..], now, canOpen)
  {
    var rest := Run(Keypress(s, st, b, keys[0], now, canOpen).state, st, b, keys[1..], now, canOpen);
    assert [] + rest.1 == rest.1;
  }

  /** In insert mode an unbound printable key is typed at the cursor. */
  lemma TypeKey(s: EditorState, st: Settings, b: Bindings, c: int, now: int, canOpen: bool)
    requires Consistent(s) && s.mode == Insert && 32 <= c <= 126 && Unbound(b, c)
    ensures Keypress(s, st, b, c, now, canOpen) == NoWrite(AfterEdit(s, Typed(s.lines, s.cursorX, s.cursorY, c as char)))
  {
  }

  /** The key codes of a text. */
  function Codes(t: string): (r: seq<int>)
    ensures |r| == |t| && forall i :: 0 <= i < |t| ==> r[i] == t[i] as int
  {
    if t == [] then [] else [t[0] as int] + Codes(t[1..])
  }

  /** Text that types as itself: printable and claimed by no binding. */
  predicate Typeable(b: Bindings, t: string) {
    forall i :: 0 <= i < |t| ==> 32 <= t[i] as int <= 126 && Unbound(b, t[i] as int)
  }

  lemma AllInputAppend(k1: seq<int>, k2: seq<int>)
    requires AllInput(k1) && AllInput(k2)
    ensures AllInput(k1 + k2)
  {
    forall i | 0 <= i < |k1 + k2| ensures IsInput((k1 + k2)[i]) {
      if i >= |k1| { assert (k1 + k2)[i] == k2[i - |k1|]; }
    }
  }

  lemma WrittenAssoc(a: seq<FileWrite>, b: seq<FileWrite>, c: seq<FileWrite>)
    ensures a + (b + c) == (a + b) + c
  {
  }

  /** Keys run one after another: running two sequences of keys in a row is
      running their concatenation, and the files written are concatenated. */
  lemma {:induction false} RunAppend(s: EditorState, st: Settings, b: Bindings, k1: seq<int>, k2: seq<int>, now: int, canOpen: bool)
    requires Consistent(s) && AllInput(k1) && AllInput(k2)
    ensures AllInput(k1 + k2)
    ensures var r1 := Run(s, st, b, k1, now, canOpen);
      var r2 := Run(r1.0, st, b, k2, now, canOpen);
      Run(s, st, b, k1 + k2, now, canOpen) == (r2.0, r1.1 + r2.1)
    decreases |k1|
  {
    AllInputAppend(k1, k2);
    if k1 == [] {
      assert k1 + k2 == k2;
      assert [] + Run(s, st, b, k2, now, canOpen).1 == Run(s, st, b, k2, now, canOpen).1;
    } else {
      var step := Keypress(s, st, b, k1[0], now, canOpen);
      var r1 := Run(step.state, st, b, k1[1..], now, canOpen);
      var r2 := Run(r1.0, st, b, k2, now, canOpen);
      var r12 := Run(step.state, st, b, k1[1..] + k2, now, canOpen);
      assert Run(s, st, b, k1, now, canOpen) == (r1.0, Written(step) + r1.1);
      assert (k1 + k2)[0] == k1[0] && (k1 + k2)[1..] == k1[1..] + k2;
      assert Run(s, st, b, k1 + k2, now, canOpen) == (r12.0, Written(step) + r12.1);
      RunAppend(step.state, st, b, k1[1..], k2, now, canOpen);
      WrittenAssoc(Written(step), r1.1, r2.1);
    }
  }

  /** Typing text in insert mode inserts it at the cursor, leaves the cursor
      just after it, marks the buffer modified (when the text is not empty)
      and writes nothing. */
  lemma {:induction false} TypeText(s: EditorState, st: Settings, b: Bindings, t: string, now: int, canOpen: bool)
    requires Consistent(s) && s.mode == Insert && Typeable(b, t)
    ensures AllInput(Codes(t))
    ensures var r := Run(s, st, b, Codes(t), now, canOpen);
      && r.0.lines == s.lines[s.cursorY := s.lines[s.cursorY][..s.cursorX] + t + s.lines[s.cursorY][s.cursorX..]]
      && r.0.cursorX == s.cursorX + |t| && r.0.cursorY == s.cursorY
      && r.0.mode == Insert && r.1 == [] && (t != [] ==> r.0.bufferModified)
    decreases |t|
  {
    var line, x, y := s.lines[s.cursorY], s.cursorX, s.cursorY;
    if t == [] {
      assert Codes(t) == [];
      assert line[..x] + t + line[x..] == line;
    } else {
      TypeFirst(s, st, b, t, now, canOpen);
      var s1 := AfterEdit(s, Typed(s.lines, x, y, t[0]));
      var line1 := line[..x] + [t[0]] + line[x..];
      TypedState(s, t[0]);
      TypeText(s1, st, b, t[1..], now, canOpen);
      var r := Run(s1, st, b, Codes(t[1..]), now, canOpen);
      assert Run(s, st, b, Codes(t), now, canOpen) == r;
      assert r.0.bufferModified by {
        if t[1..] == [] { assert Codes(t[1..]) == []; }
      }
      var typed := line[..x] + t + line[x..];
      InsertFirst(line, x, t);
      UpdateTwice(s.lines, y, line1, typed);
    }
  }

  /** The state after typing one character in insert mode. */
  lemma TypedState(s: EditorState, c: char)
    requires Consistent(s) && s.mode == Insert
    ensures var x, y := s.cursorX, s.cursorY;
      var s1 := AfterEdit(s, Typed(s.lines, x, y, c));
      && Consistent(s1)
      && s1.lines == s.lines[y := s.lines[y][..x] + [c] + s.lines[y][x..]]
      && s1.cursorX == x + 1 && s1.cursorY == y && s1.mode == Insert && s1.bufferModified
  {
  }

  lemma UpdateTwice(lines: seq<string>, y: int, a: string, b: string)
    requires 0 <= y < |lines|
    ensures lines[y := a][y := b] == lines[y := b]
  {
  }

  /** Inserting the first character of a text and then the rest just after
      it inserts the whole text. */
  lemma InsertFirst(line: string, x: int, t: string)
    requires 0 <= x <= |line| && t != []
    ensures var line1 := line[..x] + [t[0]] + line[x..];
      line1[..x + 1] + t[1..] + line1[x + 1..] == line[..x] + t + line[x..]
  {
    var line1 := line[..x] + [t[0]] + line[x..];
    assert line1[..x + 1] == line[..x] + [t[0]];
    assert line1[x + 1..] == line[x..];
    assert [t[0]] + t[1..] == t;
  }

  /** The first character of typeable text is typed by the first key. */
  lemma TypeFirst(s: EditorState, st: Settings, b: Bindings, t: string, now: int, canOpen: bool)
    requires Consistent(s) && s.mode == Insert && Typeable(b, t) && t != []
    ensures AllInput(Codes(t)) && Typeable(b, t[1..])
    ensures Run(s, st, b, Codes(t), now, canOpen)
         == Run(AfterEdit(s, Typed(s.lines, s.cursorX, s.cursorY, t[0])), st, b, Codes(t[1..]), now, canOpen)
  {
    var c := t[0] as int;
    assert 32 <= c <= 126 && Unbound(b, c);
    TypeKey(s, st, b, c, now, canOpen);
    assert Typeable(b, t[1..]) by {
      forall i | 0 <= i < |t[1..]| ensures 32 <= t[1..][i] as int <= 126 && Unbound(b, t[1..][i] as int) {
        assert t[1..][i] == t[i + 1];
      }
    }
    assert Codes(t)[1..] == Codes(t[1..]);
    RunStep(s, st, b, Codes(t), now, canOpen);
  }

  /** In insert mode an unbound Enter splits the line at the cursor. */
  lemma EnterKey(s: EditorState, st: Settings, b: Bindings, now: int, canOpen: bool)
    requires Consistent(s) && s.mode == Insert && Unbound(b, '\r' as int)
    ensures Keypress(s, st, b, '\r' as int, now, canOpen) == NoWrite(AfterEdit(s, Entered(s.lines, s.cursorX, s.cursorY, st.autoIndent)))
  {
  }

  /** With the default bindings, all of which are control characters, every
      printable character and Enter type as themselves. */
  lemma DefaultsSparePrintable(t: string)
    requires forall i :: 0 <= i < |t| ==> 32 <= t[i] as int <= 126
    ensures Typeable(BindingsOf(Config.Defaults()), t) && Unbound(BindingsOf(Config.Defaults()), '\r' as int)
  {
    DefaultBindings();
  }

  /** Typing a line and Enter into a fresh editor that starts in insert
      mode: the line, then an empty line holding the cursor. A first line
      that does not start with a space leaves nothing to auto-indent. */
  lemma TypeLineThenEnter(st: Settings, b: Bindings, t: string, rows: int, cols: int, now: int, canOpen: bool)
    requires st.defaultMode == Insert && Typeable(b, t) && Unbound(b, '\r' as int)
    requires t == [] || t[0] != ' '
    ensures AllInput(Codes(t) + [13])
    ensures var r := Run(Initial(st, rows, cols), st, b, Codes(t) + [13], now, canOpen);
      && r.0.lines == [t, ""] && (r.0.cursorX, r.0.cursorY) == (0, 1)
      && r.0.mode == Insert && r.0.bufferModified && r.1 == []
  {
    var s0 := Initial(st, rows, cols);
    TypeText(s0, st, b, t, now, canOpen);
    var s1 := Run(s0, st, b, Codes(t), now, canOpen).0;
    assert s1.lines == [t] && s1.cursorX == |t| && s1.cursorY == 0 by {
      assert s0.lines[0][..0] + t + s0.lines[0][0..] == t;
    }
    EnterKey(s1, st, b, now, canOpen);
    var s2 := AfterEdit(s1, Entered(s1.lines, |t|, 0, st.autoIndent));
    assert IndentWidth(t[..|t|]) == 0 by {
      assert t[..|t|] == t;
    }
    assert s2.lines == [t, ""] && s2.cursorX == 0 && s2.cursorY == 1 by {
      assert t[..|t|] == t && t[|t|..] == "";
      assert Spaces(0) + "" == "";
    }
    RunStep(s1, st, b, [13], now, canOpen);
    RunAppend(s0, st, b, Codes(t), [13], now, canOpen);
  }

  /** Typing a line, Enter and a second line into a fresh editor that starts
      in insert mode gives exactly those two lines, the cursor at the end of
      the second, and a dirty buffer; nothing is written. */
  lemma TypeTwoLines(st: Settings, b: Bindings, t1: string, t2: string, rows: int, cols: int, now: int, canOpen: bool)
    requires st.defaultMode == Insert && Typeable(b, t1) && Typeable(b, t2) && Unbound(b, '\r' as int)
    requires t1 == [] || t1[0] != ' '
    ensures AllInput(Codes(t1) + [13] + Codes(t2))
    ensures var r := Run(Initial(st, rows, cols), st, b, Codes(t1) + [13] + Codes(t2), now, canOpen);
      && r.0.lines == [t1, t2] && (r.0.cursorX, r.0.cursorY) == (|t2|, 1)
      && r.0.modified && r.1 == []
  {
    var s0 := Initial(st, rows, cols);
    TypeLineThenEnter(st, b, t1, rows, cols, now, canOpen);
    var s2 := Run(s0, st, b, Codes(t1) + [13], now, canOpen).0;
    TypeSecondLine(s2, st, b, t1, t2, now, canOpen);
    RunAppend(s0, st, b, Codes(t1) + [13], Codes(t2), now, canOpen);
  }

  /** Typing on the empty second line of a dirty buffer fills that line. */
  lemma TypeSecondLine(s: EditorState, st: Settings, b: Bindings, t1: string, t2: string, now: int, canOpen: bool)
    requires Consistent(s) && s.mode == Insert && s.bufferModified && Typeable(b, t2)
    requires s.lines == [t1, ""] && s.cursorX == 0 && s.cursorY == 1
    ensures AllInput(Codes(t2))
    ensures var r := Run(s, st, b, Codes(t2), now, canOpen);
      && r.0.lines == [t1, t2] && (r.0.cursorX, r.0.cursorY) == (|t2|, 1)
      && r.0.modified && r.1 == []
  {
    TypeText(s, st, b, t2, now, canOpen);
    assert s.lines[1][..0] + t2 + s.lines[1][0..] == t2;
    if t2 == [] {
      assert Codes(t2) == [];
    }
  }

  /* ---------------- which branch of process_keypress wins ---------------- */

  /** In insert mode the enter_command binding is tested first: it switches
      to command mode whatever key it is, Tab and Enter included. */
  lemma CommandBindingFirst(s: EditorState, st: Settings, b: Bindings, c: int, now: int, canOpen: bool)
    requires Consistent(s) && s.mode == Insert && IsKeyCode(c) && c == b.enterCommand
    ensures var r := Keypress(s, st, b, c, now, canOpen);
      r.write.None? && r.state.mode == Command && r.state.lines == s.lines && r.state.quit == s.quit
  {
  }

  /** Tab inserts spaces even when it is the enter_insert binding (as it is
      by default); only the four bindings tested before it take it away. */
  lemma TabIgnoresInsertBinding(s: EditorState, st: Settings, b: Bindings, now: int, canOpen: bool)
    requires Consistent(s) && s.mode == Insert
    requires b.enterCommand != '\t' as int && b.saveFile != '\t' as int
    requires b.quitEditor != '\t' as int && b.forceQuit != '\t' as int
    ensures Keypress(s, st, b, '\t' as int, now, canOpen) == NoWrite(AfterEdit(s, Tabbed(s.lines, s.cursorX, s.cursorY, st.tabWidth)))
  {
  }

  /** With the default settings Tab is the enter_insert binding, and in
      insert mode it still inserts tab_width spaces. */
  lemma DefaultTabInsertsSpaces(s: EditorState, now: int, canOpen: bool)
    requires Consistent(s) && s.mode == Insert
    ensures var b := BindingsOf(Config.Defaults());
      && b.enterInsert == '\t' as int
      && Keypress(s, Config.Defaults(), b, '\t' as int, now, canOpen)
         == NoWrite(AfterEdit(s, Tabbed(s.lines, s.cursorX, s.cursorY, Config.Defaults().tabWidth)))
  {
    DefaultBindings();
    TabIgnoresInsertBinding(s, Config.Defaults(), BindingsOf(Config.Defaults()), now, canOpen);
  }

  /** The only keys that change the text in insert mode are the editing keys
      and the character codes 32..126 and 128..255; every other control
      character leaves everything but the command echo alone. */
  lemma InsertModeTextKeys(s: EditorState, st: Settings, b: Bindings, c: int, now: int, canOpen: bool)
    requires Consistent(s) && s.mode == Insert && IsKeyCode(c)
    ensures var r := Keypress(s, st, b, c, now, canOpen);
      r.state.lines != s.lines ==> EditingKeyCode(c) || IsTypedChar(c)
    ensures Unbound(b, c) && !EditingKeyCode(c) && !IsTypedChar(c) ==>
      Keypress(s, st, b, c, now, canOpen) == NoWrite(Echo(s, now))
  {
  }

  /** In command mode the quit bindings act while a command is being typed,
      and leave the command line as it was. */
  lemma QuitDuringEntry(s: EditorState, st: Settings, b: Bindings, c: int, now: int, canOpen: bool)
    requires Consistent(s) && s.mode == Command && s.inCommandInput && IsKeyCode(c)
    requires c == b.quitEditor && c != b.enterInsert && c != ':' as int
    ensures var r := Keypress(s, st, b, c, now, canOpen);
      && r.write.None? && r.state.inCommandInput && r.state.commandBuffer == s.commandBuffer
      && (r.state.quit <==> s.quit || QuitAllowed(s, st))
  {
  }

  /** The enter_insert binding in command mode changes the mode and nothing
      of the command line: a command being typed stays open. */
  lemma InsertBindingKeepsEntry(s: EditorState, st: Settings, b: Bindings, now: int, canOpen: bool)
    requires Consistent(s) && s.mode == Command && IsKeyCode(b.enterInsert)
    ensures var r := Keypress(s, st, b, b.enterInsert, now, canOpen);
      && r.state.mode == Insert && r.write.None?
      && r.state.inCommandInput == s.inCommandInput && r.state.commandBuffer == s.commandBuffer
  {
  }

  /** Backspace on an empty command line changes nothing but the echo. */
  lemma BackspaceOnEmptyCommand(s: EditorState, st: Settings, b: Bindings, now: int, canOpen: bool)
    requires Consistent(s) && s.mode == Command && s.inCommandInput && s.commandBuffer == ""
    requires Unbound(b, BackspaceKey)
    ensures Keypress(s, st, b, BackspaceKey, now, canOpen) == NoWrite(WithStatus(s, ":", now))
  {
  }

  /** Every key on the command line other than Enter, ':' and the bindings
      leaves the status line showing ':' and the command typed so far. */
  lemma CommandLineEchoed(s: EditorState, st: Settings, b: Bindings, c: int, now: int, canOpen: bool)
    requires Consistent(s) && s.mode == Command && s.inCommandInput && IsKeyCode(c)
    requires Unbound(b, c) && c != ':' as int && c != '\r' as int && c != '\n' as int
    ensures var r := Keypress(s, st, b, c, now, canOpen);
      && r.write.None? && r.state.inCommandInput
      && r.state.statusMsg == ":" + r.state.commandBuffer && r.state.statusMsgTime == now
  {
  }

  /** In command mode ':' opens an empty command line. */
  lemma ColonKey(s: EditorState, st: Settings, b: Bindings, now: int, canOpen: bool)
    requires Consistent(s) && s.mode == Command && Unbound(b, ':' as int)
    ensures Keypress(s, st, b, ':' as int, now, canOpen) == NoWrite(s.(inCommandInput := true, commandBuffer := ""))
  {
  }

  /** On the command line an unbound printable key other than ':' is
      appended to the command and echoed; nothing else changes. */
  lemma CommandLineKey(s: EditorState, st: Settings, b: Bindings, c: int, now: int, canOpen: bool)
    requires Consistent(s) && s.mode == Command && s.inCommandInput
    requires 32 <= c <= 126 && c != ':' as int && Unbound(b, c)
    ensures Keypress(s, st, b, c, now, canOpen)
         == NoWrite(WithStatus(s.(commandBuffer := s.commandBuffer + [c as char]), ":" + s.commandBuffer + [c as char], now))
  {
  }

  /** The first character of a typeable command is appended by the first key. */
  lemma CommandFirst(s: EditorState, st: Settings, b: Bindings, t: string, now: int, canOpen: bool)
    requires Consistent(s) && s.mode == Command && s.inCommandInput && Typeable(b, t) && ':' !in t && t != []
    ensures AllInput(Codes(t)) && Typeable(b, t[1..]) && ':' !in t[1..]
    ensures Run(s, st, b, Codes(t), now, canOpen)
         == Run(WithStatus(s.(commandBuffer := s.commandBuffer + [t[0]]), ":" + s.commandBuffer + [t[0]], now), st, b, Codes(t[1..]), now, canOpen)
  {
    var c := t[0] as int;
    assert 32 <= c <= 126 && Unbound(b, c) && c != ':' as int;
    CommandLineKey(s, st, b, c, now, canOpen);
    assert Typeable(b, t[1..]) by {
      forall i | 0 <= i < |t[1..]| ensures 32 <= t[1..][i] as int <= 126 && Unbound(b, t[1..][i] as int) {
        assert t[1..][i] == t[i + 1];
      }
    }
    assert Codes(t)[1..] == Codes(t[1..]);
    RunStep(s, st, b, Codes(t), now, canOpen);
  }

  lemma AppendFirst(u: string, t: string)
    requires t != []
    ensures u + [t[0]] + t[1..] == u + t
  {
    assert [t[0]] + t[1..] == t;
  }

  /** Typing a command on the command line appends it to the command and
      changes nothing but the echo; nothing is written. */
  lemma {:induction false} TypeCommand(s: EditorState, st: Settings, b: Bindings, t: string, now: int, canOpen: bool)
    requires Consistent(s) && s.mode == Command && s.inCommandInput && Typeable(b, t) && ':' !in t
    ensures AllInput(Codes(t))
    ensures var r := Run(s, st, b, Codes(t), now, canOpen);
      && r.0.(statusMsg := s.statusMsg, statusMsgTime := s.statusMsgTime) == s.(commandBuffer := s.commandBuffer + t)
      && r.1 == []
    decreases |t|
  {
    if t == [] {
      assert Codes(t) == [] && s.commandBuffer + t == s.commandBuffer;
    } else {
      CommandFirst(s, st, b, t, now, canOpen);
      var s1 := WithStatus(s.(commandBuffer := s.commandBuffer + [t[0]]), ":" + s.commandBuffer + [t[0]], now);
      TypeCommand(s1, st, b, t[1..], now, canOpen);
      AppendFirst(s.commandBuffer, t);
    }
  }

  /** One key on its own. */
  lemma RunOne(s: EditorState, st: Settings, b: Bindings, c: int, now: int, canOpen: bool)
    requires Consistent(s) && IsInput(c)
    ensures AllInput([c])
    ensures var step := Keypress(s, st, b, c, now, canOpen);
      Run(s, st, b, [c], now, canOpen) == (step.state, Written(step))
  {
    var step := Keypress(s, st, b, c, now, canOpen);
    assert [c][1..] == [];
    assert Written(step) + [] == Written(step);
  }

  /** ":wq" then Enter, with a file name and a stream that opens: the buffer
      is written, marked clean, and the editor quits. */
  lemma WriteQuit(s: EditorState, st: Settings, b: Bindings, now: int)
    requires Consistent(s) && s.mode == Command && s.inCommandInput && s.commandBuffer == "wq"
    requires s.filename != "" && Unbound(b, '\r' as int)
    ensures var r := Keypress(s, st, b, '\r' as int, now, true);
      && r.write == Some(FileWrite(s.filename, FileIO.Join(s.lines)))
      && r.state.quit && !r.state.bufferModified && !r.state.inCommandInput
  {
  }

  /** ':' and a command, from command mode: the command line holds the
      command, the buffer, file name and flags are untouched, and nothing is
      written. */
  lemma ColonThenCommand(s: EditorState, st: Settings, b: Bindings, t: string, now: int, canOpen: bool)
    requires Consistent(s) && s.mode == Command && Unbound(b, ':' as int) && Typeable(b, t) && ':' !in t
    ensures AllInput([':' as int] + Codes(t))
    ensures var r := Run(s, st, b, [':' as int] + Codes(t), now, canOpen);
      && r.0.(statusMsg := s.statusMsg, statusMsgTime := s.statusMsgTime) == s.(inCommandInput := true, commandBuffer := t)
      && r.1 == []
  {
    ColonKey(s, st, b, now, canOpen);
    var s1 := s.(inCommandInput := true, commandBuffer := "");
    RunOne(s, st, b, ':' as int, now, canOpen);
    TypeCommand(s1, st, b, t, now, canOpen);
    assert "" + t == t;
    RunAppend(s, st, b, [':' as int], Codes(t), now, canOpen);
  }

  /** The whole session ":wq" Enter, from command mode with a file name:
      exactly one file is written, holding the buffer, and the editor quits
      with the buffer clean. */
  lemma WriteQuitKeys(s: EditorState, st: Settings, b: Bindings, now: int)
    requires Consistent(s) && s.mode == Command && s.filename != ""
    requires Unbound(b, ':' as int) && Typeable(b, "wq") && Unbound(b, '\r' as int)
    ensures AllInput([':' as int] + Codes("wq") + [13])
    ensures var r := Run(s, st, b, [':' as int] + Codes("wq") + [13], now, true);
      && r.0.quit && !r.0.bufferModified && r.0.lines == s.lines
      && r.1 == [FileWrite(s.filename, FileIO.Join(s.lines))]
  {
    assert ':' !in "wq";
    ColonThenCommand(s, st, b, "wq", now, true);
    var s2 := Run(s, st, b, [':' as int] + Codes("wq"), now, true).0;
    assert s2.commandBuffer == "wq" && s2.inCommandInput && s2.mode == Command && s2.filename == s.filename && s2.lines == s.lines;
    WriteQuit(s2, st, b, now);
    RunOne(s2, st, b, 13, now, true);
    RunAppend(s, st, b, [':' as int] + Codes("wq"), [13], now, true);
  }

  /** ":wq" then Enter without a file name: nothing is written, the editor
      stays open and says why. */
  lemma WriteQuitWithoutName(s: EditorState, st: Settings, b: Bindings, now: int, canOpen: bool)
    requires Consistent(s) && s.mode == Command && s.inCommandInput && s.commandBuffer == "wq"
    requires s.filename == "" && !s.quit && Unbound(b, '\r' as int)
    ensures var r := Keypress(s, st, b, '\r' as int, now, canOpen);
      && r.write.None? && !r.state.quit
      && r.state.statusMsg == "Error: No filename specified"
  {
  }

  /** ":saves" takes the name from the seventh character on, whatever the
      sixth is; the name is never empty. */
  lemma SaveAsName(s: EditorState, st: Settings, cmd: string, now: int)
    requires Consistent(s) && |cmd| > 6 && cmd[..5] == "saves"
    ensures var r := RunCommand(s, st, cmd, now, true);
      && r.write == Some(FileWrite(cmd[6..], FileIO.Join(s.lines)))
      && r.state.filename == cmd[6..] != ""
      && r.state.statusMsg == "File saved as: " + cmd[6..]
  {
    assert cmd != "q" && cmd != "q!" && cmd != "s" && cmd != "w" && cmd != "wq" && cmd != "sq";
  }

  /** "savesXname.txt" saves to "name.txt": the separator is not checked. */
  lemma SaveAsAnySeparator(s: EditorState, st: Settings, now: int)
    requires Consistent(s)
    ensures RunCommand(s, st, "savesXname.txt", now, true).state.filename == "name.txt"
  {
    SaveAsName(s, st, "savesXname.txt", now);
  }
}
