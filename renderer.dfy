/**
 * Drawing the screen (src/renderer.cpp): the text rows with their gutter,
 * colours and tildes, the status bar built from the status format, the
 * message bar, and the scrolling that keeps the cursor in view.
 *
 * A frame is kept as its parts (the text each write() call group sends)
 * rather than as one byte stream; the terminal calls that hide, show and
 * place the cursor appear as the cursor position the frame asks for.
 */
module Renderer {
  import opened Text
  import opened Slowertext
  import opened Editing
  import opened Dispatch
  import Session

  /* ---------------- ANSI sequences (include/slowertext.h) ---------------- */

  const Esc: char := 27 as char
  /** CLEAR_LINE. */
  const ClearLine: string := [Esc, '[', 'K']
  /** COLOR_RESET. */
  const ColorReset: string := [Esc, '[', 'm']
  /** The inverse-video sequence draw_rows uses for the current line. */
  const Inverse: string := [Esc, '[', '7', 'm']
  const NewLine: string := ['\r', '\n']

  /** The eight colour names, in the order of their ANSI codes 0..7. */
  const ColorNames: seq<string> := ["black", "red", "green", "yellow", "blue", "magenta", "cyan", "white"]

  /** The select-graphic-rendition sequence ESC [ <group><index> m: group '3'
      sets the foreground, group '4' the background. */
  function Sgr(group: char, index: nat): (r: string)
    requires index < 8
    ensures |r| == 5 && r[0] == Esc && r[1] == '[' && r[2] == group && r[4] == 'm'
  {
    [Esc, '[', group, DigitChar(index), 'm']
  }

  /** Whether a name is "bg_" followed by a colour name. */
  predicate IsBackgroundName(color: string) {
    |color| > 3 && color[..3] == "bg_" && color[3..] in ColorNames
  }

  /** get_color_code: a colour name gives its foreground code, "bg_" and a
      colour name its background code, and every other string (an unknown
      name, a name in another case) the empty string, which draws nothing. */
  function ColorCode(color: string): (r: string)
    ensures r == [] || (|r| == 5 && r[..2] == [Esc, '['] && r[4] == 'm')
  {
    if color == "black" then [Esc, '[', '3', '0', 'm']
    else if color == "red" then [Esc, '[', '3', '1', 'm']
    else if color == "green" then [Esc, '[', '3', '2', 'm']
    else if color == "yellow" then [Esc, '[', '3', '3', 'm']
    else if color == "blue" then [Esc, '[', '3', '4', 'm']
    else if color == "magenta" then [Esc, '[', '3', '5', 'm']
    else if color == "cyan" then [Esc, '[', '3', '6', 'm']
    else if color == "white" then [Esc, '[', '3', '7', 'm']
    else if color == "bg_black" then [Esc, '[', '4', '0', 'm']
    else if color == "bg_red" then [Esc, '[', '4', '1', 'm']
    else if color == "bg_green" then [Esc, '[', '4', '2', 'm']
    else if color == "bg_yellow" then [Esc, '[', '4', '3', 'm']
    else if color == "bg_blue" then [Esc, '[', '4', '4', 'm']
    else if color == "bg_magenta" then [Esc, '[', '4', '5', 'm']
    else if color == "bg_cyan" then [Esc, '[', '4', '6', 'm']
    else if color == "bg_white" then [Esc, '[', '4', '7', 'm']
    else ""
  }

  /** The code table: the i-th colour name gives ESC [ 3 i m, and the same
      name after "bg_" gives ESC [ 4 i m. */
  lemma ColorTable(i: nat)
    requires i < |ColorNames|
    ensures ColorCode(ColorNames[i]) == Sgr('3', i)
    ensures ColorCode("bg_" + ColorNames[i]) == Sgr('4', i)
  {
    var bg := "bg_" + ColorNames[i];
    if i == 0 { assert bg == "bg_black"; }
    else if i == 1 { assert bg == "bg_red"; }
    else if i == 2 { assert bg == "bg_green"; }
    else if i == 3 { assert bg == "bg_yellow"; }
    else if i == 4 { assert bg == "bg_blue"; }
    else if i == 5 { assert bg == "bg_magenta"; }
    else if i == 6 { assert bg == "bg_cyan"; }
    else { assert bg == "bg_white"; }
  }

  /** Any other string, such as an unknown name or a name in capitals,
      gives no code. */
  lemma UnknownColor(color: string)
    requires color !in ColorNames && !IsBackgroundName(color)
    ensures ColorCode(color) == ""
  {
  }

  /** The background code of a colour is its foreground code with the group
      digit 3 turned into 4. */
  lemma BackgroundOfForeground(name: string)
    requires name in ColorNames
    ensures ColorCode("bg_" + name) == ColorCode(name)[2 := '4']
  {
    var i :| 0 <= i < |ColorNames| && ColorNames[i] == name;
    ColorTable(i);
  }

  /** No colour code, foreground or background, is the inverse-video
      sequence, so the highlighted line is always told apart. */
  lemma ColorIsNotInverse(color: string)
    ensures ColorCode(color) != Inverse
  {
  }

  /* ---------------- scroll ---------------- */

  /** The cursor and offsets of the copy scroll() works on. */
  datatype Window = Window(cursorX: int, cursorY: int, rowOffset: int, colOffset: int)

  /** What scroll() leaves in the copy: the cursor clamped onto the text,
      then each offset moved only as far as needed to bring the cursor into
      a window of screenRows by screenCols. */
  function Scrolled(s: EditorState): (r: Window)
    requires |s.lines| >= 1
    ensures CursorValid(s.lines, r.cursorX, r.cursorY)
    ensures CursorValid(s.lines, s.cursorX, s.cursorY) ==> r.cursorX == s.cursorX && r.cursorY == s.cursorY
    ensures s.screenRows > 0 ==> r.rowOffset <= r.cursorY < r.rowOffset + s.screenRows
    ensures s.screenCols > 0 ==> r.colOffset <= r.cursorX < r.colOffset + s.screenCols
    ensures s.rowOffset <= r.cursorY < s.rowOffset + s.screenRows ==> r.rowOffset == s.rowOffset
    ensures s.colOffset <= r.cursorX < s.colOffset + s.screenCols ==> r.colOffset == s.colOffset
    ensures s.rowOffset >= 0 && s.colOffset >= 0 ==> r.rowOffset >= 0 && r.colOffset >= 0
  {
    var y0 := if s.cursorY >= |s.lines| then |s.lines| - 1 else s.cursorY;
    var y := if y0 < 0 then 0 else y0;
    var x0 := if s.cursorX > |s.lines[y]| then |s.lines[y]| else s.cursorX;
    var x := if x0 < 0 then 0 else x0;
    var ro0 := if y < s.rowOffset then y else s.rowOffset;
    var ro := if y >= ro0 + s.screenRows then y - s.screenRows + 1 else ro0;
    var co0 := if x < s.colOffset then x else s.colOffset;
    var co := if x >= co0 + s.screenCols then x - s.screenCols + 1 else co0;
    Window(x, y, ro, co)
  }

  /** The state with the offsets of a scroll stored back, as refresh_screen
      does with the copy's row_offset and col_offset (and nothing else). */
  function WithOffsets(s: EditorState, w: Window): (r: EditorState)
    ensures r.rowOffset == w.rowOffset && r.colOffset == w.colOffset
    ensures r.(rowOffset := s.rowOffset, colOffset := s.colOffset) == s
  {
    s.(rowOffset := w.rowOffset, colOffset := w.colOffset)
  }

  /** When the cursor leaves the window, the window moves just far enough:
      above it, the cursor's row becomes the top row; below it, the bottom
      row. */
  lemma ScrollIsMinimal(s: EditorState)
    requires Consistent(s) && s.screenRows > 0
    ensures s.cursorY < s.rowOffset ==> Scrolled(s).rowOffset == s.cursorY
    ensures s.cursorY >= s.rowOffset + s.screenRows ==> Scrolled(s).rowOffset == s.cursorY - s.screenRows + 1
  {
  }

  /** Scrolling again after storing the offsets back changes nothing, even
      on a terminal too small to show a single row. */
  lemma ScrollIdempotent(s: EditorState)
    requires Consistent(s)
    ensures Scrolled(WithOffsets(s, Scrolled(s))) == Scrolled(s)
  {
  }

  /** scroll, on the mutable copy refresh_screen makes. */
  method Scroll(s: EditorState) returns (r: Window)
    requires |s.lines| >= 1
    ensures r == Scrolled(s)
  {
    r := Window(s.cursorX, s.cursorY, s.rowOffset, s.colOffset);
    if r.cursorY >= |s.lines| {
      r := r.(cursorY := |s.lines| - 1);
    }
    if r.cursorY < 0 {
      r := r.(cursorY := 0);
    }
    var lineLength := |s.lines[r.cursorY]|;
    if r.cursorX > lineLength {
      r := r.(cursorX := lineLength);
    }
    if r.cursorX < 0 {
      r := r.(cursorX := 0);
    }
    if r.cursorY < r.rowOffset {
      r := r.(rowOffset := r.cursorY);
    }
    if r.cursorY >= r.rowOffset + s.screenRows {
      r := r.(rowOffset := r.cursorY - s.screenRows + 1);
    }
    if r.cursorX < r.colOffset {
      r := r.(colOffset := r.cursorX);
    }
    if r.cursorX >= r.colOffset + s.screenCols {
      r := r.(colOffset := r.cursorX - s.screenCols + 1);
    }
  }

  /* ---------------- draw_rows ---------------- */

  /** What write(fd, literal, n) sends for a C string literal: its first n
      bytes, where byte |literal| is the terminating NUL. */
  function WriteBytes(literal: string, n: nat): (r: string)
    requires n <= |literal| + 1
    ensures |r| == n && r <= literal + ['\0']
  {
    (literal + ['\0'])[..n]
  }

  /** The end of a text row as draw_rows writes it: COLOR_RESET with a count
      of 4, one more than its length, then CLEAR_LINE and "\r\n". */
  function RowEndAsWritten(): (r: string)
    ensures r == ColorReset + ['\0'] + ClearLine + NewLine
    ensures '\0' in r
  {
    assert (ColorReset + ['\0'] + ClearLine + NewLine)[3] == '\0';
    WriteBytes(ColorReset, 4) + WriteBytes(ClearLine, 3) + NewLine
  }

  /** The end of a text row with COLOR_RESET written at its own length:
      reset, clear to the end of the line, newline, and no NUL byte. */
  function RowEnd(): (r: string)
    ensures r == ColorReset + ClearLine + NewLine
    ensures '\0' !in r
  {
    WriteBytes(ColorReset, |ColorReset|) + WriteBytes(ClearLine, |ClearLine|) + NewLine
  }

  /** printf's "%4d": the digits right-aligned in a field of four columns,
      wider when they do not fit. */
  function PadLeft(s: string, width: nat): (r: string)
    ensures |r| == if |s| < width then width else |s|
    ensures r[|r| - |s|..] == s && AllSpaces(r[..|r| - |s|])
  {
    if |s| < width then Spaces(width - |s|) + s else s
  }

  /** The line-number gutter: "%4d " of the 1-based row number on rows of
      the text, five spaces below its end. */
  function Gutter(fileRow: int, lineCount: int): (r: string)
    requires fileRow >= 0
    ensures |r| >= 5 && r[|r| - 1] == ' '
    ensures fileRow >= lineCount ==> |r| == 5 && AllSpaces(r)
  {
    if fileRow < lineCount then PadLeft(DecimalString(fileRow + 1), 4) + " " else Spaces(5)
  }

  lemma ShortDecimal(n: nat)
    requires n < 10000
    ensures |DecimalString(n)| <= 4
  {
    var a := n / 10;
    var b := a / 10;
    var c := b / 10;
    if n >= 10 {
      assert |DecimalString(n)| == |DecimalString(a)| + 1;
      if a >= 10 {
        assert |DecimalString(a)| == |DecimalString(b)| + 1;
        if b >= 10 {
          assert |DecimalString(b)| == |DecimalString(c)| + 1;
        }
      }
    }
  }

  /** Blanks in front of a number are exactly the leading spaces. */
  lemma LeadingSpacesOfPadded(d: string, k: nat)
    requires d != [] && d[0] != ' '
    ensures LeadingSpaces(Spaces(k) + d + " ") == k
  {
    assert (Spaces(k) + d + " ")[k] == d[0];
  }

  /** The gutter of a row of the text, taken apart. */
  lemma GutterShape(fileRow: int, lineCount: int, d: string, pad: nat)
    requires 0 <= fileRow < lineCount && d == DecimalString(fileRow + 1)
    requires pad == if |d| < 4 then 4 - |d| else 0
    ensures var g := Gutter(fileRow, lineCount);
      g == Spaces(pad) + d + " " && LeadingSpaces(g) == pad && g[pad..|g| - 1] == d
  {
    assert PadLeft(d, 4) == Spaces(pad) + d;
    LeadingSpacesOfPadded(d, pad);
    var g := Spaces(pad) + d + " ";
    assert g[pad..|g| - 1] == d;
  }

  /** On a row of the text the gutter holds, after its leading blanks, the
      row's 1-based number in decimal and a space. */
  lemma GutterNumber(fileRow: int, lineCount: int)
    requires 0 <= fileRow < lineCount
    ensures var g := Gutter(fileRow, lineCount); var k := LeadingSpaces(g);
      && k < |g| - 1
      && (forall i :: k <= i < |g| - 1 ==> IsDigit(g[i]))
      && DigitsValue(g[k..|g| - 1]) == fileRow + 1
  {
    var g := Gutter(fileRow, lineCount);
    var d := DecimalString(fileRow + 1);
    var pad := if |d| < 4 then 4 - |d| else 0;
    GutterShape(fileRow, lineCount, d, pad);
    assert LeadingSpaces(g) == pad && g[pad..|g| - 1] == d;
    DecimalStringValue(fileRow + 1);
  }

  /** The gutter of a row of the text is five columns wide as long as the
      row's number has at most four digits. */
  lemma GutterWidth(fileRow: int, lineCount: int)
    requires 0 <= fileRow < lineCount && fileRow + 1 < 10000
    ensures |Gutter(fileRow, lineCount)| == 5
  {
    ShortDecimal(fileRow + 1);
  }

  /** The part of a line inside the window: the columns from colOffset on,
      at most screenCols of them. */
  function Visible(line: string, colOffset: int, cols: int): (r: string)
    requires colOffset >= 0
    ensures |r| == if |line| <= colOffset || cols <= 0 then 0 else Min(|line| - colOffset, cols)
    ensures forall i :: 0 <= i < |r| ==> colOffset + i < |line| && r[i] == line[colOffset + i]
  {
    var len0 := |line| - colOffset;
    var len1 := if len0 < 0 then 0 else len0;
    var len := if len1 > cols then cols else len1;
    if len > 0 then line[colOffset..colOffset + len] else ""
  }

  /** The basic syntax highlighting: a line that starts with "#" or "//". */
  predicate IsComment(line: string) {
    StartsWith(line, "#") || StartsWith(line, "//")
  }

  /** One screen row as draw_rows writes it: the opening colour, the gutter,
      the colour and the visible text of the line (both empty when nothing
      of the line is visible), and whether a tilde follows. */
  datatype Row = Row(lead: string, gutter: string, color: string, text: string, tilde: bool)

  /** Screen row y of a window whose first row is the text's row rowOffset. */
  function RowOf(st: Settings, s: EditorState, y: int): (r: Row)
    requires y >= 0 && s.rowOffset >= 0 && s.colOffset >= 0
    ensures r.lead == Inverse <==> st.highlightCurrentLine && y + s.rowOffset == s.cursorY
    ensures r.lead != Inverse ==> r.lead == ColorCode("bg_" + st.backgroundColor)
    ensures st.showLineNumbers ==> r.gutter == Gutter(y + s.rowOffset, |s.lines|)
    ensures !st.showLineNumbers ==> r.gutter == []
    ensures y + s.rowOffset >= |s.lines| ==> r.text == [] && (r.tilde <==> st.showTilde)
    ensures y + s.rowOffset < |s.lines| ==>
      var line := s.lines[y + s.rowOffset];
      && r.text == Visible(line, s.colOffset, s.screenCols)
      && (r.tilde <==> st.showTilde && line == [])
      && (r.text != [] && st.syntaxHighlighting && IsComment(line) ==> r.color == ColorCode(st.commentColor))
      && (r.text != [] && !(st.syntaxHighlighting && IsComment(line)) ==> r.color == ColorCode(st.textColor))
  {
    ColorIsNotInverse("bg_" + st.backgroundColor);
    var fileRow := y + s.rowOffset;
    var lead := if st.highlightCurrentLine && fileRow == s.cursorY then Inverse else ColorCode("bg_" + st.backgroundColor);
    var gutter := if st.showLineNumbers then Gutter(fileRow, |s.lines|) else [];
    if fileRow >= |s.lines| then Row(lead, gutter, [], [], st.showTilde)
    else
      var line := s.lines[fileRow];
      var text := Visible(line, s.colOffset, s.screenCols);
      var color :=
        if text == [] then []
        else if st.syntaxHighlighting && IsComment(line) then ColorCode(st.commentColor)
        else ColorCode(st.textColor);
      Row(lead, gutter, color, text, line == [] && st.showTilde)
  }

  /** The bytes of a row: colour codes and text, then the row end. */
  function RowText(st: Settings, row: Row): (r: string)
    ensures |r| >= |RowEnd()| && r[|r| - |RowEnd()|..] == RowEnd()
  {
    row.lead + row.gutter + row.color + row.text
      + (if row.tilde then ColorCode(st.textColor) + "~" else "")
      + RowEnd()
  }

  lemma NoNulInColorCode(color: string)
    ensures '\0' !in ColorCode(color)
  {
  }

  /** A row sends a NUL byte only if the line shown on it holds one. */
  lemma RowHasNoNul(st: Settings, s: EditorState, y: int)
    requires y >= 0 && s.rowOffset >= 0 && s.colOffset >= 0
    requires forall i :: 0 <= i < |s.lines| ==> '\0' !in s.lines[i]
    ensures '\0' !in RowText(st, RowOf(st, s, y))
  {
    var row := RowOf(st, s, y);
    NoNulInColorCode("bg_" + st.backgroundColor);
    NoNulInColorCode(st.commentColor);
    NoNulInColorCode(st.textColor);
    assert '\0' !in row.gutter by {
      if st.showLineNumbers && y + s.rowOffset < |s.lines| {
        var d := DecimalString(y + s.rowOffset + 1);
        assert forall i :: 0 <= i < |d| ==> IsDigit(d[i]);
      }
    }
    assert '\0' !in row.text by {
      if y + s.rowOffset < |s.lines| {
        assert '\0' !in s.lines[y + s.rowOffset];
      }
    }
  }

  /** The body of draw_rows' loop for screen row y, with the three colour
      codes it looks up once before the loop. */
  method DrawRow(st: Settings, s: EditorState, y: int, textColor: string, bgColor: string, commentColor: string)
    returns (row: string)
    requires y >= 0 && s.rowOffset >= 0 && s.colOffset >= 0
    requires textColor == ColorCode(st.textColor) && bgColor == ColorCode("bg_" + st.backgroundColor)
    requires commentColor == ColorCode(st.commentColor)
    ensures row == RowText(st, RowOf(st, s, y))
  {
    var fileRow := y + s.rowOffset;
    var lead := if st.highlightCurrentLine && fileRow == s.cursorY then Inverse else bgColor;
    var gutter := if st.showLineNumbers then Gutter(fileRow, |s.lines|) else [];
    var color, text, tilde := [], [], false;
    if fileRow >= |s.lines| {
      tilde := st.showTilde;
    } else {
      var line := s.lines[fileRow];
      text := Visible(line, s.colOffset, s.screenCols);
      if text != [] {
        color := if st.syntaxHighlighting && IsComment(line) then commentColor else textColor;
      }
      tilde := line == [] && st.showTilde;
    }
    row := RowText(st, Row(lead, gutter, color, text, tilde));
  }

  /** draw_rows: one row per screen row, top to bottom. */
  method DrawRows(st: Settings, s: EditorState) returns (rows: seq<string>)
    requires s.rowOffset >= 0 && s.colOffset >= 0
    ensures |rows| == if s.screenRows > 0 then s.screenRows else 0
    ensures forall y :: 0 <= y < |rows| ==> rows[y] == RowText(st, RowOf(st, s, y))
  {
    var textColor := ColorCode(st.textColor);
    var bgColor := ColorCode("bg_" + st.backgroundColor);
    var commentColor := ColorCode(st.commentColor);
    rows := [];
    var y := 0;
    while y < s.screenRows
      invariant 0 <= y && |rows| == y
      invariant y <= s.screenRows || y == 0
      invariant forall i :: 0 <= i < y ==> rows[i] == RowText(st, RowOf(st, s, i))
    {
      var row := DrawRow(st, s, y, textColor, bgColor, commentColor);
      rows := rows + [row];
      y := y + 1;
    }
  }

  /* ---------------- draw_status_bar ---------------- */

  function ModeName(m: Mode): string {
    if m == Insert then "INSERT" else "COMMAND"
  }

  /** The name the status bar shows for a buffer without a file name. */
  function ShownName(filename: string): (r: string)
    ensures r != []
  {
    if filename == "" then "[No Name]" else filename
  }

  /** Whether pat occurs in s at index i. */
  predicate OccursAt(s: string, pat: string, i: int) {
    0 <= i && i + |pat| <= |s| && s[i..i + |pat|] == pat
  }

  /** std::string::find(pat, from): the first occurrence at or after from. */
  function Find(s: string, pat: string, from: nat): (r: Option<nat>)
    ensures r.Some? ==> from <= r.value && OccursAt(s, pat, r.value)
    ensures r.Some? ==> forall i :: from <= i < r.value ==> !OccursAt(s, pat, i)
    ensures r.None? ==> forall i :: from <= i ==> !OccursAt(s, pat, i)
    decreases |s| - from
  {
    if from + |pat| > |s| then None
    else if s[from..from + |pat|] == pat then Some(from)
    else Find(s, pat, from + 1)
  }

  /** Every occurrence of pat replaced by rep, scanning left to right; the
      text put in is not searched again. */
  function ReplaceAll(s: string, pat: string, rep: string): string
    requires pat != []
    decreases |s|
  {
    if |s| < |pat| then s
    else if s[..|pat|] == pat then rep + ReplaceAll(s[|pat|..], pat, rep)
    else [s[0]] + ReplaceAll(s[1..], pat, rep)
  }

  /** Text that holds no occurrence of the pattern is copied as it is. */
  lemma {:induction false} ReplaceAllSkip(s: string, pat: string, rep: string, i: nat, j: nat)
    requires pat != [] && i <= j <= |s|
    requires forall k :: i <= k < j ==> !OccursAt(s, pat, k)
    ensures ReplaceAll(s[i..], pat, rep) == s[i..j] + ReplaceAll(s[j..], pat, rep)
    decreases j - i
  {
    if i < j {
      ReplaceAllSkip(s, pat, rep, i + 1, j);
      ReplaceAllMissAt(s, pat, rep, i);
      ConsAppend(s, i, j, ReplaceAll(s[j..], pat, rep));
    }
  }

  /** A character where no occurrence starts is copied. */
  lemma ReplaceAllMissAt(s: string, pat: string, rep: string, i: nat)
    requires pat != [] && i < |s| && !OccursAt(s, pat, i)
    ensures ReplaceAll(s[i..], pat, rep) == [s[i]] + ReplaceAll(s[i + 1..], pat, rep)
  {
    var t := s[i..];
    assert t[1..] == s[i + 1..];
    if |t| >= |pat| {
      assert t[..|pat|] == s[i..i + |pat|];
    } else {
      assert t == [s[i]] + t[1..];
    }
  }

  lemma ConsAppend(s: string, i: nat, j: nat, rest: string)
    requires i < j <= |s|
    ensures [s[i]] + (s[i + 1..j] + rest) == s[i..j] + rest
  {
    assert s[i..j] == [s[i]] + s[i + 1..j];
  }

  /** A string that does not contain the pattern's first character is left
      alone, also in front of other text. */
  lemma {:induction false} ReplaceAllCopy(a: string, b: string, pat: string, rep: string)
    requires pat != [] && pat[0] !in a
    ensures ReplaceAll(a + b, pat, rep) == a + ReplaceAll(b, pat, rep)
  {
    var s := a + b;
    forall k | 0 <= k < |a| ensures !OccursAt(s, pat, k) {
      assert s[k] == a[k];
    }
    ReplaceAllSkip(s, pat, rep, 0, |a|);
    assert s[0..] == s && s[0..|a|] == a && s[|a|..] == b;
  }

  /** The string after replacing the occurrence at i, split where the
      search resumes. */
  lemma SpliceParts(r: string, pos: nat, i: nat, n: nat, rep: string)
    requires pos <= i && i + n <= |r|
    ensures var r' := r[..i] + rep + r[i + n..];
      r'[..i + |rep|] == r[..pos] + r[pos..i] + rep && r'[i + |rep|..] == r[i + n..]
  {
  }

  /** An occurrence is replaced and the scan goes on behind it. */
  lemma ReplaceAllAt(r: string, pat: string, rep: string, i: nat)
    requires pat != [] && OccursAt(r, pat, i)
    ensures ReplaceAll(r[i..], pat, rep) == rep + ReplaceAll(r[i + |pat|..], pat, rep)
  {
    assert r[i..][..|pat|] == pat;
    assert r[i..][|pat|..] == r[i + |pat|..];
  }

  /** The text before the resumed search, followed by the rest's result. */
  lemma SpliceTarget(r: string, pos: nat, i: nat, n: nat, rep: string, rest: string, target: string)
    requires pos <= i && i + n <= |r|
    requires target == r[..pos] + (r[pos..i] + (rep + rest))
    ensures (r[..i] + rep + r[i + n..])[..i + |rep|] + rest == target
  {
    SpliceParts(r, pos, i, n, rep);
  }

  /** One replacement as the loop of draw_status_bar makes it. */
  lemma ReplaceStep(r: string, pat: string, rep: string, pos: nat, i: nat, target: string)
    requires pat != [] && pos <= i && OccursAt(r, pat, i)
    requires forall k :: pos <= k < i ==> !OccursAt(r, pat, k)
    requires r[..pos] + ReplaceAll(r[pos..], pat, rep) == target
    ensures var r' := r[..i] + rep + r[i + |pat|..];
      r'[..i + |rep|] + ReplaceAll(r'[i + |rep|..], pat, rep) == target
  {
    ReplaceAllSkip(r, pat, rep, pos, i);
    ReplaceAllAt(r, pat, rep, i);
    SpliceParts(r, pos, i, |pat|, rep);
    SpliceTarget(r, pos, i, |pat|, rep, ReplaceAll(r[i + |pat|..], pat, rep), target);
  }

  /** One of the three find-and-replace loops of draw_status_bar: after each
      replacement the search resumes behind the inserted text. */
  method ReplaceEvery(format: string, pat: string, rep: string) returns (r: string)
    requires pat != []
    ensures r == ReplaceAll(format, pat, rep)
  {
    r := format;
    var pos: nat := 0;
    var next := Find(r, pat, pos);
    while next.Some?
      invariant pos <= |r|
      invariant r[..pos] + ReplaceAll(r[pos..], pat, rep) == ReplaceAll(format, pat, rep)
      invariant next == Find(r, pat, pos)
      decreases |r| - pos
    {
      var i := next.value;
      ReplaceStep(r, pat, rep, pos, i, ReplaceAll(format, pat, rep));
      r := r[..i] + rep + r[i + |pat|..];
      pos := i + |rep|;
      next := Find(r, pat, pos);
    }
    ReplaceAllSkip(r, pat, rep, pos, |r|);
    assert r[..pos] + r[pos..] == r;
  }

  /** The left part of the status bar: the status format with %f, then
      %modified, then %m expanded, in that order. */
  function StatusLeft(st: Settings, s: EditorState): string {
    var named := ReplaceAll(st.statusFormat, "%f", ShownName(s.filename));
    var marked := ReplaceAll(named, "%modified", if s.modified then "*" else "");
    ReplaceAll(marked, "%m", ModeName(s.mode))
  }

  /** The first character of a string when it is not the start of the
      pattern. */
  lemma ReplaceAllMiss(s: string, pat: string, rep: string)
    requires pat != [] && s != [] && (|s| < |pat| || s[..|pat|] != pat)
    ensures ReplaceAll(s, pat, rep) == [s[0]] + ReplaceAll(s[1..], pat, rep)
  {
    if |s| < |pat| {
      assert ReplaceAll(s[1..], pat, rep) == s[1..];
    }
  }

  /** A string in which the pattern never occurs is left as it is. */
  lemma ReplaceAllNone(s: string, pat: string, rep: string)
    requires pat != [] && forall k :: 0 <= k < |s| ==> !OccursAt(s, pat, k)
    ensures ReplaceAll(s, pat, rep) == s
  {
    ReplaceAllSkip(s, pat, rep, 0, |s|);
    assert s[0..] == s && s[0..|s|] == s && s[|s|..] == [];
  }

  /** "%m" is not "%f": both of its characters are copied. */
  lemma PercentM(rest: string, name: string)
    ensures ReplaceAll("%m" + rest, "%f", name) == "%m" + ReplaceAll(rest, "%f", name)
  {
    var s := "%m" + rest;
    assert s[0] == '%' && s[1] == 'm';
    assert |s| >= 2 && s[..2] != "%f" by {
      assert s[..2][1] == 'm';
    }
    ReplaceAllMiss(s, "%f", name);
    assert s[1..] == "m" + rest;
    ReplaceAllCopy("m", rest, "%f", name);
  }

  /** The first expansion of the default format. */
  lemma DefaultNamed(name: string)
    ensures ReplaceAll("%f%modified - %m", "%f", name) == name + "%modified - %m"
  {
    var s := "%f%modified - %m";
    var t := "%modified - %m";
    assert s[..2] == "%f" && s[2..] == t;
    var u := "odified - %m";
    assert t == "%m" + u;
    PercentM(u, name);
    NamedTail(name);
  }

  lemma NamedTail(name: string)
    ensures ReplaceAll("odified - %m", "%f", name) == "odified - %m"
  {
    assert "odified - %m" == "odified - " + "%m";
    ReplaceAllCopy("odified - ", "%m", "%f", name);
    PercentM([], name);
    assert "%m" + [] == "%m";
  }

  /** The second expansion of the default format. */
  lemma DefaultMarked(name: string, star: string)
    requires '%' !in name
    ensures ReplaceAll(name + "%modified - %m", "%modified", star) == name + star + " - %m"
  {
    ReplaceAllCopy(name, "%modified - %m", "%modified", star);
    var t := "%modified - %m";
    assert t[..9] == "%modified" && t[9..] == " - %m";
    assert ReplaceAll(" - %m", "%modified", star) == " - %m";
  }

  /** The default format "%f%modified - %m" shows the file name, a star when
      there are unsaved changes, and the mode. */
  lemma DefaultStatusLeft(st: Settings, s: EditorState)
    requires st.statusFormat == "%f%modified - %m" && '%' !in s.filename
    ensures StatusLeft(st, s) == ShownName(s.filename) + (if s.modified then "*" else "") + " - " + ModeName(s.mode)
  {
    var name := ShownName(s.filename);
    var star := if s.modified then "*" else "";
    DefaultNamed(name);
    assert '%' !in name;
    DefaultMarked(name, star);
    DefaultModed(name + star, ModeName(s.mode));
  }

  /** The third expansion of the default format. */
  lemma DefaultModed(front: string, mode: string)
    requires '%' !in front
    ensures ReplaceAll(front + " - %m", "%m", mode) == front + " - " + mode
  {
    assert '%' !in front + " - ";
    ReplaceAllCopy(front + " - ", "%m", "%m", mode);
    assert front + " - %m" == front + " - " + "%m";
    assert "%m"[2..] == [];
  }

  /** The expansions run one after the other over the whole text, so a file
      name that itself holds "%m" shows the mode in its place. */
  lemma FileNameIsExpanded(st: Settings, s: EditorState)
    requires st.statusFormat == "%f" && s.filename == "%m" && s.mode == Insert
    ensures StatusLeft(st, s) == "INSERT"
  {
    assert "%f"[2..] == [] && "%m"[2..] == [];
    assert ReplaceAll("%f", "%f", "%m") == "%m";
    assert ReplaceAll("%m", "%modified", if s.modified then "*" else "") == "%m";
    assert ReplaceAll("%m", "%m", "INSERT") == "INSERT";
  }

  /** "%d/%d": the 1-based cursor row and the number of lines. */
  function RightStatus(s: EditorState): (r: string)
    requires s.cursorY >= 0
    ensures |r| >= 3
  {
    DecimalString(s.cursorY + 1) + "/" + DecimalString(|s.lines|)
  }

  /** The part of the bar after the left text of width len: spaces to the
      last column, except that the position text takes the last columns
      when it fits after the left text. */
  function Padding(len: int, cols: int, right: string): (r: string)
    ensures |r| == if len < cols then cols - len else 0
    ensures right != [] && len + |right| <= cols ==> r[|r| - |right|..] == right && AllSpaces(r[..|r| - |right|])
    ensures !(right != [] && len + |right| <= cols) ==> AllSpaces(r)
  {
    if right != [] && len + |right| <= cols then Spaces(cols - len - |right|) + right
    else Spaces(if len < cols then cols - len else 0)
  }

  /** The padding loop of draw_status_bar: one space per step until the
      columns left are exactly the width of the position text. */
  method Pad(len0: int, cols: int, right: string) returns (out: string)
    ensures out == Padding(len0, cols, right)
  {
    out := [];
    var len := len0;
    while len < cols
      invariant len0 <= len && (len <= cols || len == len0)
      invariant out == Spaces(len - len0)
      invariant right != [] && len0 + |right| <= cols ==> len + |right| <= cols
      decreases cols - len
    {
      if cols - len == |right| {
        out := out + right;
        return;
      }
      out := out + " ";
      len := len + 1;
    }
  }

  /** The end of the status bar as written: COLOR_RESET with a count of 4,
      then "\r\n". */
  function StatusEndAsWritten(): (r: string)
    ensures r == ColorReset + ['\0'] + NewLine
    ensures '\0' in r
  {
    assert (ColorReset + ['\0'] + NewLine)[3] == '\0';
    WriteBytes(ColorReset, 4) + NewLine
  }

  /** The end of the status bar with COLOR_RESET at its own length. */
  function StatusEnd(): (r: string)
    ensures r == ColorReset + NewLine
    ensures '\0' !in r
  {
    WriteBytes(ColorReset, |ColorReset|) + NewLine
  }

  /** The text of the status bar between its colour and its end, from the
      expanded format and the position text: the format cut to 240
      characters and to the screen width, then the padding. It fills the
      width exactly, and the position text ends it whenever it fits after
      the (cut) format. */
  function StatusLayout(left: string, right: string, cols: int): (r: string)
    requires cols >= 0
    ensures |r| == cols
    ensures r[..Min(Min(|left|, 240), cols)] == left[..Min(Min(|left|, 240), cols)]
    ensures right != [] && Min(|left|, 240) + |right| <= cols ==> r[|r| - |right|..] == right
  {
    var shown := left[..Min(|left|, 240)];
    var len := Min(|shown|, cols);
    shown[..len] + Padding(len, cols, right)
  }

  /** The cut and the padding of draw_status_bar. */
  method LayOutStatus(format: string, rstatus: string, cols: int) returns (text: string)
    requires cols >= 0
    ensures text == StatusLayout(format, rstatus, cols)
  {
    var status := format[..Min(|format|, 240)];
    var len := |status|;
    if len > cols {
      len := cols;
    }
    var padding := Pad(len, cols, rstatus);
    text := status[..len] + padding;
  }

  /** The three substitutions of draw_status_bar. */
  method ExpandFormat(st: Settings, s: EditorState) returns (format: string)
    ensures format == StatusLeft(st, s)
  {
    var modeName := if s.mode == Insert then "INSERT" else "COMMAND";
    var filename := if s.filename == "" then "[No Name]" else s.filename;
    var indicator := if s.modified then "*" else "";
    format := ReplaceEvery(st.statusFormat, "%f", filename);
    format := ReplaceEvery(format, "%modified", indicator);
    format := ReplaceEvery(format, "%m", modeName);
  }

  /** draw_status_bar. */
  method DrawStatusBar(st: Settings, s: EditorState) returns (bar: string)
    requires s.cursorY >= 0 && s.screenCols >= 0
    ensures bar == ColorCode("bg_" + st.statusBarColor) + StatusLayout(StatusLeft(st, s), RightStatus(s), s.screenCols) + StatusEnd()
  {
    var statusColor := ColorCode("bg_" + st.statusBarColor);
    var format := ExpandFormat(st, s);
    var rstatus := RightStatus(s);
    var text := LayOutStatus(format, rstatus, s.screenCols);
    bar := statusColor + text + StatusEnd();
  }

  /* ---------------- draw_message_bar ---------------- */

  /** The message bar: clear the line, then the status message cut to the
      screen width, only while it is less than five seconds old. */
  function MessageBar(s: EditorState, now: int): (r: string)
    requires s.screenCols >= 0
    ensures |r| >= |ClearLine| && r[..|ClearLine|] == ClearLine
    ensures |r| > |ClearLine| <==> s.statusMsg != [] && s.screenCols > 0 && now - s.statusMsgTime < 5
    ensures |r| - |ClearLine| <= s.screenCols && |r| - |ClearLine| <= |s.statusMsg|
    ensures r[|ClearLine|..] == s.statusMsg[..|r| - |ClearLine|]
  {
    var msgLen := Min(|s.statusMsg|, s.screenCols);
    if msgLen != 0 && now - s.statusMsgTime < 5 then ClearLine + s.statusMsg[..msgLen] else ClearLine
  }

  /** A message set at time t is on screen, whole if it fits, exactly while
      fewer than five seconds have passed. */
  lemma MessageShownForFiveSeconds(s: EditorState, msg: string, t: int, now: int)
    requires s.screenCols >= |msg| > 0
    ensures MessageBar(WithStatus(s, msg, t), now) == if now - t < 5 then ClearLine + msg else ClearLine
  {
  }

  /* ---------------- refresh_screen ---------------- */

  /** The copy refresh_screen draws from: the state with the scrolled cursor
      and offsets. The text, the settings, the mode and the message are
      those of the editor; the cursor is on the text and, on a screen of
      positive size, inside the window; a cursor already on the text is
      not moved. */
  function View(s: EditorState): (v: EditorState)
    requires |s.lines| >= 1
    ensures v.(cursorX := s.cursorX, cursorY := s.cursorY, rowOffset := s.rowOffset, colOffset := s.colOffset) == s
    ensures CursorValid(s.lines, v.cursorX, v.cursorY)
    ensures CursorValid(s.lines, s.cursorX, s.cursorY) ==> v.cursorX == s.cursorX && v.cursorY == s.cursorY
    ensures s.screenRows > 0 ==> v.rowOffset <= v.cursorY < v.rowOffset + s.screenRows
    ensures s.screenCols > 0 ==> v.colOffset <= v.cursorX < v.colOffset + s.screenCols
    ensures s.rowOffset >= 0 && s.colOffset >= 0 ==> v.rowOffset >= 0 && v.colOffset >= 0
  {
    var w := Scrolled(s);
    s.(cursorX := w.cursorX, cursorY := w.cursorY, rowOffset := w.rowOffset, colOffset := w.colOffset)
  }

  lemma LongDecimal(n: nat)
    requires n >= 10000
    ensures |DecimalString(n)| >= 5
  {
    var a := n / 10;
    var b := a / 10;
    var c := b / 10;
    assert |DecimalString(n)| == |DecimalString(a)| + 1;
    assert |DecimalString(a)| == |DecimalString(b)| + 1;
    assert |DecimalString(b)| == |DecimalString(c)| + 1;
  }

  /** The cursor column refresh_screen asks for, as written: the gutter is
      always counted as five columns wide. */
  function CursorColumnAsWritten(st: Settings, v: EditorState): (col: int)
    ensures col - (v.cursorX - v.colOffset) == if st.showLineNumbers then 5 else 0
  {
    (v.cursorX - v.colOffset) + (if st.showLineNumbers then 5 else 0)
  }

  /** From row number 10000 on, "%4d " is six columns wide, so the column
      asked for is one left of where the character under the cursor is
      drawn. */
  lemma CursorMissesWideGutter(st: Settings, s: EditorState)
    requires Consistent(s) && st.showLineNumbers && s.cursorY >= 9999
    requires s.rowOffset <= s.cursorY
    ensures var row := RowOf(st, s, s.cursorY - s.rowOffset);
      CursorColumnAsWritten(st, s) < |row.gutter| + (s.cursorX - s.colOffset)
  {
    var row := RowOf(st, s, s.cursorY - s.rowOffset);
    LongDecimal(s.cursorY + 1);
    assert row.gutter == PadLeft(DecimalString(s.cursorY + 1), 4) + " ";
  }

  /** The cursor column with the gutter counted at the width it is drawn
      with on the cursor's row. */
  function CursorColumn(st: Settings, v: EditorState): (col: int)
    requires v.cursorY >= 0
    ensures !st.showLineNumbers ==> col == v.cursorX - v.colOffset
    ensures st.showLineNumbers ==> col == v.cursorX - v.colOffset + |Gutter(v.cursorY, |v.lines|)|
  {
    (v.cursorX - v.colOffset) + (if st.showLineNumbers then |Gutter(v.cursorY, |v.lines|)| else 0)
  }

  /** With at most 9999 lines the two agree. */
  lemma CursorColumnsAgree(st: Settings, v: EditorState)
    requires 0 <= v.cursorY < |v.lines| && v.cursorY + 1 < 10000
    ensures CursorColumn(st, v) == CursorColumnAsWritten(st, v)
  {
    GutterWidth(v.cursorY, |v.lines|);
  }

  /** What one refresh puts on the terminal. */
  datatype Frame = Frame(
    background: string,
    rows: seq<string>,
    statusBar: string,
    messageBar: string,
    cursorCol: int,
    cursorRow: int)

  /** The frame refresh_screen draws for a state at time now. */
  function Screen(st: Settings, s: EditorState, now: int): (f: Frame)
    requires Consistent(s) && s.screenCols >= 0
    ensures |f.rows| == if s.screenRows > 0 then s.screenRows else 0
    ensures forall y :: 0 <= y < |f.rows| ==> f.rows[y] == RowText(st, RowOf(st, View(s), y))
    ensures f.cursorCol == CursorColumn(st, View(s)) && f.cursorRow == View(s).cursorY - View(s).rowOffset
  {
    var v := View(s);
    Frame(
      ColorCode("bg_" + st.backgroundColor),
      seq(if s.screenRows > 0 then s.screenRows else 0, y requires y >= 0 => RowText(st, RowOf(st, v, y))),
      ColorCode("bg_" + st.statusBarColor) + StatusLayout(StatusLeft(st, v), RightStatus(v), v.screenCols) + StatusEnd(),
      MessageBar(v, now),
      CursorColumn(st, v),
      v.cursorY - v.rowOffset)
  }

  /** On a screen with room for text, the cursor lands on the screen row that
      shows its line, and on the column where the character under it is
      drawn: after the gutter, at the cursor's column less the horizontal
      offset, inside the window. */
  lemma CursorOnItsCharacter(st: Settings, s: EditorState)
    requires Consistent(s) && s.screenRows > 0 && s.screenCols > 0
    ensures var v := View(s); var y := v.cursorY - v.rowOffset;
      && 0 <= y < s.screenRows
      && var row := RowOf(st, v, y);
      && CursorColumn(st, v) == |row.gutter| + (s.cursorX - v.colOffset)
      && 0 <= s.cursorX - v.colOffset < s.screenCols
      && (s.cursorX < |s.lines[s.cursorY]| ==> row.text[s.cursorX - v.colOffset] == s.lines[s.cursorY][s.cursorX])
  {
    var w := Scrolled(s);
    assert w.cursorX == s.cursorX && w.cursorY == s.cursorY;
    var v := View(s);
    var y := v.cursorY - v.rowOffset;
    var row := RowOf(st, v, y);
    assert y + v.rowOffset == s.cursorY;
    if s.cursorX < |s.lines[s.cursorY]| {
      var line := s.lines[s.cursorY];
      assert row.text == Visible(line, v.colOffset, s.screenCols);
      assert |row.text| > s.cursorX - v.colOffset;
    }
  }

  /** refresh_screen: draws from a scrolled copy, then stores back only the
      copy's two offsets. */
  method RefreshScreen(e: Session.Editor, now: int) returns (f: Frame)
    requires e.Valid() && e.screenCols >= 0
    modifies e
    ensures e.Valid()
    ensures e.State() == WithOffsets(old(e.State()), Scrolled(old(e.State())))
    ensures f == Screen(e.settings, old(e.State()), now)
  {
    var s := EditorState(e.buffer.lines, e.buffer.modified, e.cursorX, e.cursorY, e.rowOffset, e.colOffset,
      e.screenRows, e.screenCols, e.mode, e.filename, e.modified, e.quit, e.statusMsg, e.statusMsgTime,
      e.commandBuffer, e.inCommandInput);
    assert s == e.State();
    var w := Scroll(s);
    var copy := s.(cursorX := w.cursorX, cursorY := w.cursorY, rowOffset := w.rowOffset, colOffset := w.colOffset);
    var background := ColorCode("bg_" + e.settings.backgroundColor);
    var rows := DrawRows(e.settings, copy);
    var statusBar := DrawStatusBar(e.settings, copy);
    var messageBar := MessageBar(copy, now);
    var cursorCol := CursorColumn(e.settings, copy);
    var cursorRow := copy.cursorY - copy.rowOffset;
    f := Frame(background, rows, statusBar, messageBar, cursorCol, cursorRow);
    e.rowOffset := w.rowOffset;
    e.colOffset := w.colOffset;
  }
}
