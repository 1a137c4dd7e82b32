/**
 * The running editor: the global EditorConfig of src/main.cpp (its runtime
 * fields and its settings), the Buffer it edits, and the two static
 * variables of InputHandler::process_keypress. The handlers of
 * src/input.cpp work on these in place, loop by loop as the source does;
 * each method is proved to leave the editor in the state the matching
 * function of Editing or Dispatch describes, so the properties proved
 * there hold of the running editor.
 */
module Session {
  import opened Text
  import opened Slowertext
  import opened Editing
  import opened LineBuffer
  import opened Dispatch
  import FileIO
  import Config
  import KeyDecoder

  /* ---------------- scanning loops ---------------- */

  /** The all-spaces scan of handle_backspace over line[from..to]. */
  method SpacesBetween(line: string, from: int, to: int) returns (all: bool)
    requires 0 <= from <= to <= |line|
    ensures all == AllSpaces(line[from..to])
  {
    all := true;
    var i := from;
    while i < to
      invariant from <= i <= to
      invariant all == AllSpaces(line[from..i])
    {
      if line[i] != ' ' {
        assert line[from..to][i - from] == line[i];
        return false;
      }
      assert line[from..i + 1] == line[from..i] + [line[i]];
      i := i + 1;
    }
  }

  /** The leading-space count of handle_backspace, over line[..limit]. */
  method CountLeadingSpaces(line: string, limit: int) returns (n: int)
    requires 0 <= limit <= |line|
    ensures n == LeadingSpaces(line[..limit])
  {
    n := 0;
    while n < limit && line[n] == ' '
      invariant 0 <= n <= limit
      invariant forall i :: 0 <= i < n ==> line[i] == ' '
    {
      n := n + 1;
    }
  }

  /** The indentation count of handle_enter: the spaces and tabs opening the line. */
  method CountIndent(line: string) returns (n: int)
    ensures n == IndentWidth(line)
  {
    n := 0;
    while n < |line| && (line[n] == ' ' || line[n] == '\t')
      invariant 0 <= n <= |line|
      invariant forall i :: 0 <= i < n ==> line[i] == ' ' || line[i] == '\t'
    {
      n := n + 1;
    }
  }

  /** One more space typed into a run of spaces between a and b. */
  lemma SpaceIntoGap(a: string, b: string, i: nat)
    ensures var l := a + Spaces(i) + b;
      |a| + i <= |l| && l[..|a| + i] + [' '] + l[|a| + i..] == a + Spaces(i + 1) + b
  {
    var l := a + Spaces(i) + b;
    assert l[..|a| + i] == a + Spaces(i);
    assert l[|a| + i..] == b;
  }

  /** One more character deleted before a gap that ends at x. */
  lemma DeleteBeforeGap(line: string, k: int, x: int)
    requires 0 < k <= x <= |line|
    ensures var cur := line[..k] + line[x..];
      cur[..k - 1] + cur[k..] == line[..k - 1] + line[x..]
  {
    var cur := line[..k] + line[x..];
    assert cur[..k - 1] == line[..k - 1];
    assert cur[k..] == line[x..];
  }

  /** The row list after the newline of handle_enter and i indentation spaces. */
  function Split(lines: seq<string>, x: int, y: int, i: nat): seq<string>
    requires CursorValid(lines, x, y)
  {
    lines[..y] + [lines[y][..x], Spaces(i) + lines[y][x..]] + lines[y + 1..]
  }

  lemma SplitStep(lines: seq<string>, x: int, y: int, i: nat)
    requires CursorValid(lines, x, y)
    ensures var cur := Split(lines, x, y, i);
      && ValidRow(cur, y + 1) && |cur[y + 1]| >= i
      && CharInserted(cur, i, y + 1, ' ') == Split(lines, x, y, i + 1)
  {
    var cur := Split(lines, x, y, i);
    assert cur[y + 1] == Spaces(i) + lines[y][x..];
    SpaceIntoGap("", lines[y][x..], i);
    assert "" + Spaces(i) + lines[y][x..] == Spaces(i) + lines[y][x..];
    assert "" + Spaces(i + 1) + lines[y][x..] == Spaces(i + 1) + lines[y][x..];
    assert cur[y + 1 := Spaces(i + 1) + lines[y][x..]] == Split(lines, x, y, i + 1);
  }

  /* ---------------- the editor ---------------- */

  class Editor {
    /** The buffer and the settings load_config produced. */
    const buffer: Buffer
    const settings: Settings

    var cursorX: int
    var cursorY: int
    var rowOffset: int
    var colOffset: int
    var screenRows: int
    var screenCols: int
    var mode: Mode
    var filename: string
    var modified: bool
    var quit: bool
    var statusMsg: string
    var statusMsgTime: int
    /** The two statics of process_keypress. */
    var commandBuffer: string
    var inCommandInput: bool

    /** The editor as the specification functions see it. */
    ghost function State(): EditorState
      reads this, buffer
    {
      EditorState(buffer.lines, buffer.modified, cursorX, cursorY, rowOffset, colOffset,
        screenRows, screenCols, mode, filename, modified, quit, statusMsg, statusMsgTime,
        commandBuffer, inCommandInput)
    }

    ghost predicate Valid()
      reads this, buffer
    {
      buffer.Valid() && Consistent(State())
    }

    /** init_editor, with the settings load_config read and the terminal
        size already queried: two rows go to the status and message bars. */
    constructor (st: Settings, termRows: int, termCols: int)
      ensures Valid() && fresh(buffer)
      ensures settings == st && State() == Initial(st, termRows, termCols)
    {
      buffer := new Buffer();
      settings := st;
      cursorX, cursorY := 0, 0;
      rowOffset, colOffset := 0, 0;
      mode := st.defaultMode;
      filename := "";
      modified, quit := false, false;
      statusMsg, statusMsgTime := "", 0;
      screenRows, screenCols := termRows - 2, termCols;
      commandBuffer, inCommandInput := "", false;
    }

    /** set_status_message. */
    method SetStatusMessage(msg: string, now: int)
      requires Valid()
      modifies this
      ensures Valid()
      ensures State() == WithStatus(old(State()), msg, now)
    {
      statusMsg := msg;
      statusMsgTime := now;
    }

    /** handle_cursor_movement for Up and Down: change row, then clamp the
        column to the new row's length. */
    method MoveVertically(key: int)
      requires Valid() && (key == ArrowUp || key == ArrowDown)
      modifies this
      ensures Valid()
      ensures State() == MovedState(old(State()), key)
    {
      if key == ArrowUp {
        if cursorY > 0 {
          cursorY := cursorY - 1;
          var line := buffer.GetLine(cursorY);
          if cursorX > |line| {
            cursorX := |line|;
          }
        }
      } else {
        if cursorY < buffer.GetLineCount() - 1 {
          cursorY := cursorY + 1;
          var line := buffer.GetLine(cursorY);
          if cursorX > |line| {
            cursorX := |line|;
          }
        }
      }
    }

    /** handle_cursor_movement for Left and Right: wrap across line ends. */
    method MoveHorizontally(key: int)
      requires Valid() && (key == ArrowLeft || key == ArrowRight)
      modifies this
      ensures Valid()
      ensures State() == MovedState(old(State()), key)
    {
      if key == ArrowLeft {
        if cursorX > 0 {
          cursorX := cursorX - 1;
        } else if cursorY > 0 {
          cursorY := cursorY - 1;
          cursorX := |buffer.GetLine(cursorY)|;
        }
      } else {
        var line := buffer.GetLine(cursorY);
        if cursorX < |line| {
          cursorX := cursorX + 1;
        } else if cursorY < buffer.GetLineCount() - 1 {
          cursorY := cursorY + 1;
          cursorX := 0;
        }
      }
    }

    /** handle_cursor_movement: any other key leaves the cursor alone. */
    method MoveCursor(key: int)
      requires Valid()
      modifies this
      ensures Valid()
      ensures State() == MovedState(old(State()), key)
    {
      if key == ArrowUp || key == ArrowDown {
        MoveVertically(key);
      } else if key == ArrowLeft || key == ArrowRight {
        MoveHorizontally(key);
      }
    }

    /** How many characters handle_backspace deletes at a column above 0. */
    method BackspaceCount() returns (n: int)
      requires Valid() && cursorX > 0
      ensures n == BackspaceWidth(buffer.lines[cursorY], cursorX, settings.tabWidth)
    {
      var line := buffer.GetLine(cursorY);
      var tw := settings.tabWidth;
      n := 1;
      if tw > 1 && cursorX >= tw {
        var start := cursorX - tw;
        if start >= 0 && start < |line| {
          var allSpaces := SpacesBetween(line, start, cursorX);
          var leading := CountLeadingSpaces(line, start);
          if allSpaces && leading % tw == 0 {
            n := tw;
          }
        }
      }
    }

    /** handle_backspace inside a line: delete the counted characters
        before the cursor one at a time, moving left with each. */
    method DeleteBeforeCursor()
      requires Valid() && cursorX > 0
      modifies this, buffer
      ensures Valid()
      ensures State() == AfterEdit(old(State()), Backspaced(old(buffer.lines), old(cursorX), old(cursorY), settings.tabWidth))
    {
      var n := BackspaceCount();
      var x0, y := cursorX, cursorY;
      var line := buffer.lines[y];
      var x := x0;
      var i := 0;
      assert old(buffer.lines)[y := line[..x] + line[x0..]] == old(buffer.lines) by {
        assert line[..x] + line[x0..] == line;
      }
      while i < n
        modifies buffer
        invariant 0 <= i <= n && x == x0 - i && buffer.Valid()
        invariant buffer.lines == old(buffer.lines)[y := line[..x] + line[x0..]]
        invariant buffer.modified == (old(buffer.modified) || i > 0)
      {
        if x > 0 {
          DeleteBeforeGap(line, x, x0);
          buffer.DeleteChar(x - 1, y);
          x := x - 1;
        }
        i := i + 1;
      }
      cursorX := x;
      modified := buffer.IsModified();
    }

    /** handle_backspace at the start of a line below the first: append the
        line to the one above, remove it, and put the cursor at the join. */
    method JoinWithPrevious()
      requires Valid() && cursorX == 0 && cursorY > 0
      modifies this, buffer
      ensures Valid()
      ensures State() == AfterEdit(old(State()), Backspaced(old(buffer.lines), old(cursorX), old(cursorY), settings.tabWidth))
    {
      var y := cursorY;
      var current := buffer.GetLine(y);
      var prev := buffer.GetLine(y - 1);
      cursorX := |prev|;
      buffer.SetLine(y - 1, prev + current);
      buffer.DeleteLine(y);
      cursorY := y - 1;
      modified := buffer.IsModified();
    }

    /** handle_backspace. */
    method HandleBackspace()
      requires Valid()
      modifies this, buffer
      ensures Valid()
      ensures State() == AfterEdit(old(State()), Backspaced(old(buffer.lines), old(cursorX), old(cursorY), settings.tabWidth))
    {
      if cursorX > 0 {
        DeleteBeforeCursor();
      } else if cursorY > 0 {
        JoinWithPrevious();
      } else {
        modified := buffer.IsModified();
      }
    }

    /** handle_delete. */
    method HandleDelete()
      requires Valid()
      modifies this, buffer
      ensures Valid()
      ensures State() == AfterEdit(old(State()), Deleted(old(buffer.lines), old(cursorX), old(cursorY)))
    {
      var current := buffer.GetLine(cursorY);
      if cursorX < |current| {
        buffer.DeleteChar(cursorX, cursorY);
      } else if cursorY < buffer.GetLineCount() - 1 {
        var next := buffer.GetLine(cursorY + 1);
        buffer.SetLine(cursorY, current + next);
        buffer.DeleteLine(cursorY + 1);
      }
      modified := buffer.IsModified();
    }

    /** handle_enter. */
    method HandleEnter()
      requires Valid()
      modifies this, buffer
      ensures Valid()
      ensures State() == AfterEdit(old(State()), Entered(old(buffer.lines), old(cursorX), old(cursorY), settings.autoIndent))
    {
      ghost var lines0 := buffer.lines;
      var x0, y := cursorX, cursorY;
      buffer.InsertNewline(x0, y);
      assert buffer.lines == Split(lines0, x0, y, 0) by {
        assert Spaces(0) + lines0[y][x0..] == lines0[y][x0..];
      }
      cursorY := y + 1;
      cursorX := 0;
      if settings.autoIndent && cursorY > 0 {
        cursorX := AutoIndent(lines0, x0, y);
      }
      modified := buffer.IsModified();
    }

    /** The auto-indent of handle_enter: count the spaces and tabs opening
        the upper half of the split line, and type that many spaces at the
        start of the new line. */
    method AutoIndent(ghost lines0: seq<string>, x0: int, y: int) returns (x: int)
      requires CursorValid(lines0, x0, y) && buffer.Valid() && buffer.modified
      requires buffer.lines == Split(lines0, x0, y, 0)
      modifies buffer
      ensures buffer.Valid() && buffer.modified
      ensures x == IndentWidth(lines0[y][..x0]) && buffer.lines == Split(lines0, x0, y, x)
    {
      var prev := buffer.GetLine(y);
      var indent := CountIndent(prev);
      x := 0;
      while x < indent
        invariant 0 <= x <= indent && buffer.Valid() && buffer.modified
        invariant buffer.lines == Split(lines0, x0, y, x)
      {
        SplitStep(lines0, x0, y, x);
        buffer.InsertChar(x, y + 1, ' ');
        x := x + 1;
      }
    }

    /** handle_tab. */
    method HandleTab()
      requires Valid()
      modifies this, buffer
      ensures Valid()
      ensures State() == AfterEdit(old(State()), Tabbed(old(buffer.lines), old(cursorX), old(cursorY), settings.tabWidth))
    {
      var x0, y := cursorX, cursorY;
      var line := buffer.lines[y];
      var x := x0;
      var i := 0;
      assert line[..x0] + Spaces(0) + line[x0..] == line;
      while i < settings.tabWidth
        modifies buffer
        invariant 0 <= i && (settings.tabWidth > 0 ==> i <= settings.tabWidth) && x == x0 + i
        invariant settings.tabWidth <= 0 ==> i == 0
        invariant buffer.Valid()
        invariant buffer.lines == old(buffer.lines)[y := line[..x0] + Spaces(i) + line[x0..]]
        invariant buffer.modified == (old(buffer.modified) || i > 0)
      {
        SpaceIntoGap(line[..x0], line[x0..], i);
        buffer.InsertChar(x, y, ' ');
        x := x + 1;
        i := i + 1;
      }
      cursorX := x;
      modified := buffer.IsModified();
    }

    /** A printable or extended character in insert mode. */
    method InsertTyped(c: char)
      requires Valid()
      modifies this, buffer
      ensures Valid()
      ensures State() == AfterEdit(old(State()), Typed(old(buffer.lines), old(cursorX), old(cursorY), c))
    {
      buffer.InsertChar(cursorX, cursorY, c);
      cursorX := cursorX + 1;
      modified := buffer.IsModified();
    }

    /** handle_save: the file written, if any. */
    method HandleSave(now: int, canOpen: bool) returns (write: Option<FileWrite>)
      requires Valid()
      modifies this, buffer
      ensures Valid()
      ensures Step(State(), write) == Save(old(State()), now, canOpen)
    {
      if filename == "" {
        SetStatusMessage("Error: No filename specified", now);
        return None;
      }
      var ok, written := FileIO.SaveFile(filename, buffer, canOpen);
      if ok {
        buffer.SetModified(false);
        modified := false;
        SetStatusMessage("File saved: " + filename, now);
        write := Some(FileWrite(filename, written));
      } else {
        SetStatusMessage("Error: Could not save file", now);
        write := None;
      }
    }

    /** handle_quit. */
    method HandleQuit(force: bool, now: int)
      requires Valid()
      modifies this
      ensures Valid()
      ensures State() == Quit(old(State()), settings.confirmQuit, force, now)
    {
      if !force && settings.confirmQuit && buffer.IsModified() {
        SetStatusMessage("File modified. Use force quit or save first", now);
      } else {
        quit := true;
      }
    }

    /** process_command for ":wq" and ":sq". */
    method SaveAndQuitCommand(now: int, canOpen: bool) returns (write: Option<FileWrite>)
      requires Valid()
      modifies this, buffer
      ensures Valid()
      ensures Step(State(), write) == SaveAndQuit(old(State()), now, canOpen)
    {
      write := None;
      if filename == "" {
        SetStatusMessage("Error: No filename specified", now);
        return;
      }
      var ok, written := FileIO.SaveFile(filename, buffer, canOpen);
      if ok {
        buffer.SetModified(false);
        modified := false;
        quit := true;
        write := Some(FileWrite(filename, written));
      } else {
        SetStatusMessage("Error: Could not save file", now);
      }
    }

    /** process_command for ":saves" and a name. */
    method SaveAsCommand(name: string, now: int, canOpen: bool) returns (write: Option<FileWrite>)
      requires Valid() && name != ""
      modifies this, buffer
      ensures Valid()
      ensures Step(State(), write) == SaveAs(old(State()), name, now, canOpen)
    {
      write := None;
      var ok, written := FileIO.SaveFile(name, buffer, canOpen);
      if ok {
        filename := name;
        buffer.SetModified(false);
        modified := false;
        SetStatusMessage("File saved as: " + name, now);
        write := Some(FileWrite(name, written));
      } else {
        SetStatusMessage("Error: Could not save file as " + name, now);
      }
    }

    /** process_command. */
    method ProcessCommand(cmd: string, now: int, canOpen: bool) returns (write: Option<FileWrite>)
      requires Valid()
      modifies this, buffer
      ensures Valid()
      ensures Step(State(), write) == RunCommand(old(State()), settings, cmd, now, canOpen)
    {
      write := None;
      if cmd == "q" {
        HandleQuit(false, now);
      } else if cmd == "q!" {
        HandleQuit(true, now);
      } else if cmd == "s" || cmd == "w" {
        write := HandleSave(now, canOpen);
      } else if cmd == "wq" || cmd == "sq" {
        write := SaveAndQuitCommand(now, canOpen);
      } else if |cmd| > 6 && cmd[..5] == "saves" {
        write := SaveAsCommand(cmd[6..], now, canOpen);
      } else {
        SetStatusMessage("Unknown command: " + cmd, now);
      }
    }

    /** The end of process_keypress: while a command is being typed, the
        status line echoes it. */
    method EchoCommand(now: int)
      requires Valid()
      modifies this
      ensures Valid()
      ensures State() == Echo(old(State()), now)
    {
      if inCommandInput {
        SetStatusMessage(":" + commandBuffer, now);
      }
    }

    /** The insert-mode half of process_keypress. */
    method InsertModeKey(c: int, now: int, canOpen: bool) returns (write: Option<FileWrite>)
      requires Valid() && IsKeyCode(c)
      modifies this, buffer
      ensures Valid()
      ensures Step(State(), write) == InsertKey(old(State()), settings, BindingsOf(settings), c, now, canOpen)
    {
      write := None;
      if Config.KeyMatchesBinding(c, settings.enterCommand) {
        mode := Command;
        SetStatusMessage("Command mode", now);
      } else if Config.KeyMatchesBinding(c, settings.saveFile) {
        write := HandleSave(now, canOpen);
      } else if Config.KeyMatchesBinding(c, settings.quitEditor) {
        HandleQuit(false, now);
      } else if Config.KeyMatchesBinding(c, settings.forceQuit) {
        HandleQuit(true, now);
      } else {
        EditingKey(c, now);
      }
    }

    /** The rest of the insert-mode half of process_keypress: the editing
        keys, the arrows, the insert-mode binding and characters. */
    method EditingKey(c: int, now: int)
      requires Valid() && IsKeyCode(c)
      modifies this, buffer
      ensures Valid()
      ensures State() == EditKey(old(State()), settings, BindingsOf(settings), c, now)
    {
      if c == '\t' as int {
        HandleTab();
      } else if c == '\r' as int || c == '\n' as int {
        HandleEnter();
      } else if c == BackspaceKey || c == 8 {
        HandleBackspace();
      } else if c == DeleteKey {
        HandleDelete();
      } else if IsArrow(c) {
        MoveCursor(c);
      } else if Config.KeyMatchesBinding(c, settings.enterInsert) && c != '\t' as int {
        SetStatusMessage("Already in Insert mode", now);
      } else if c >= 32 {
        InsertTyped(c as char);
      } else {
        EchoCommand(now);
      }
    }

    /** A key on the command line, with the echo that ends process_keypress. */
    method CommandLineKey(c: int, now: int, canOpen: bool) returns (write: Option<FileWrite>)
      requires Valid() && inCommandInput
      modifies this, buffer
      ensures Valid()
      ensures Step(State(), write) == CommandLineInput(old(State()), settings, c, now, canOpen)
    {
      write := None;
      if c == '\r' as int || c == '\n' as int {
        inCommandInput := false;
        var cmd := commandBuffer;
        write := ProcessCommand(cmd, now, canOpen);
      } else if (c == BackspaceKey || c == 8) && commandBuffer != "" {
        commandBuffer := commandBuffer[..|commandBuffer| - 1];
      } else if 32 <= c <= 126 {
        commandBuffer := commandBuffer + [c as char];
      }
      EchoCommand(now);
    }

    /** The command-mode half of process_keypress, including the echo at its end. */
    method CommandModeKey(c: int, now: int, canOpen: bool) returns (write: Option<FileWrite>)
      requires Valid() && IsKeyCode(c)
      modifies this, buffer
      ensures Valid()
      ensures Step(State(), write) == CommandKey(old(State()), settings, BindingsOf(settings), c, now, canOpen)
    {
      write := None;
      if Config.KeyMatchesBinding(c, settings.enterInsert) {
        mode := Insert;
        SetStatusMessage("Insert mode", now);
        return;
      }
      if c == ':' as int {
        inCommandInput := true;
        commandBuffer := "";
        return;
      }
      if Config.KeyMatchesBinding(c, settings.quitEditor) {
        HandleQuit(false, now);
        return;
      }
      if Config.KeyMatchesBinding(c, settings.forceQuit) {
        HandleQuit(true, now);
        return;
      }
      write := OtherCommandModeKey(c, now, canOpen);
    }

    /** The rest of process_keypress in command mode: the command line while
        it is open, else arrows move the cursor and anything else is an
        invalid key. */
    method OtherCommandModeKey(c: int, now: int, canOpen: bool) returns (write: Option<FileWrite>)
      requires Valid() && IsKeyCode(c)
      modifies this, buffer
      ensures Valid()
      ensures Step(State(), write) == OtherCommandKey(old(State()), settings, c, now, canOpen)
    {
      write := None;
      if inCommandInput {
        write := CommandLineKey(c, now, canOpen);
        return;
      }
      if IsArrow(c) {
        MoveCursor(c);
      } else {
        SetStatusMessage("Invalid command mode key", now);
      }
      EchoCommand(now);
    }

    /** process_keypress for a key already read. */
    method ProcessKey(c: int, now: int, canOpen: bool) returns (write: Option<FileWrite>)
      requires Valid() && IsInput(c)
      modifies this, buffer
      ensures Valid()
      ensures Step(State(), write) == Keypress(old(State()), settings, BindingsOf(settings), c, now, canOpen)
    {
      if c == -1 {
        SetStatusMessage("Error: Invalid key input", now);
        write := None;
      } else if mode == Insert {
        write := InsertModeKey(c, now, canOpen);
      } else {
        write := CommandModeKey(c, now, canOpen);
      }
    }

    /** process_keypress: read one key from the terminal input and handle
        it; `used` is how many reads the key took, the waiting included. */
    method ProcessKeypress(input: seq<KeyDecoder.Read>, now: int, canOpen: bool) returns (used: nat, write: Option<FileWrite>)
      requires Valid() && KeyDecoder.Arrives(input)
      modifies this, buffer
      ensures Valid()
      ensures var d := KeyDecoder.ReadKey(input);
        && used == d.used
        && Step(State(), write) == Keypress(old(State()), settings, BindingsOf(settings), d.key, now, canOpen)
    {
      var d := KeyDecoder.ReadKey(input);
      used := d.used;
      write := ProcessKey(d.key, now, canOpen);
    }
  }
}
