/**
 * What each editing handler of src/input.cpp does to the lines and the
 * cursor, as functions. The cursor is (x, y): column x of row y. Every
 * handler is specified for a valid cursor, the state the editor keeps
 * (see Dispatch.Consistent); class Session.Editor performs the same edits
 * in place through the buffer and is proved to agree with these functions.
 */
module Editing {
  import opened Text
  import opened Slowertext

  /** The cursor is on an existing row, at most one column past its end. */
  predicate CursorValid(lines: seq<string>, x: int, y: int) {
    0 <= y < |lines| && 0 <= x <= |lines[y]|
  }

  /** The lines and cursor after a handler, and whether the handler changed
      the buffer (which sets its modified flag). */
  datatype Edit = Edit(lines: seq<string>, x: int, y: int, changed: bool)

  function Min(a: int, b: int): int {
    if a < b then a else b
  }

  /* ---------------- handle_cursor_movement ---------------- */

  /** The cursor after an arrow key: Up and Down keep the column but clamp it
      to the new row; Left and Right wrap across line ends; at the edges of
      the buffer nothing moves; any other key leaves the cursor alone. */
  function Moved(lines: seq<string>, x: int, y: int, key: int): (r: (int, int))
    requires CursorValid(lines, x, y)
    ensures CursorValid(lines, r.0, r.1)
    ensures !IsArrow(key) ==> r == (x, y)
  {
    if key == ArrowUp then
      if y > 0 then (Min(x, |lines[y - 1]|), y - 1) else (x, y)
    else if key == ArrowDown then
      if y < |lines| - 1 then (Min(x, |lines[y + 1]|), y + 1) else (x, y)
    else if key == ArrowLeft then
      if x > 0 then (x - 1, y) else if y > 0 then (|lines[y - 1]|, y - 1) else (x, y)
    else if key == ArrowRight then
      if x < |lines[y]| then (x + 1, y) else if y < |lines| - 1 then (0, y + 1) else (x, y)
    else (x, y)
  }

  /** Left and Right step through the text one position at a time, except
      at its start and end. */
  lemma {:induction false} HorizontalStep(lines: seq<string>, x: int, y: int)
    requires CursorValid(lines, x, y)
    ensures var (rx, ry) := Moved(lines, x, y, ArrowRight);
      (x, y) == (|lines[|lines| - 1]|, |lines| - 1) || TextIndex(lines, rx, ry) == TextIndex(lines, x, y) + 1
    ensures var (lx, ly) := Moved(lines, x, y, ArrowLeft);
      (x, y) == (0, 0) || TextIndex(lines, lx, ly) == TextIndex(lines, x, y) - 1
  {
    var (rx, ry) := Moved(lines, x, y, ArrowRight);
    var (lx, ly) := Moved(lines, x, y, ArrowLeft);
    TextIndexShift(lines, x, y);
    TextIndexShift(lines, rx, ry);
    TextIndexShift(lines, lx, ly);
    if x == |lines[y]| && y < |lines| - 1 {
      TextIndexNextRow(lines, y);
    }
    if x == 0 && y > 0 {
      TextIndexNextRow(lines, y - 1);
    }
  }

  /** The index of (x, y) in the lines joined with one separator each. */
  function TextIndex(lines: seq<string>, x: int, y: int): int
    requires 0 <= y <= |lines|
    decreases y
  {
    if y == 0 then x else TextIndex(lines, |lines[y - 1]| + 1 + x, y - 1)
  }

  /** The start of a row comes right after the end of the row before it. */
  lemma TextIndexNextRow(lines: seq<string>, y: int)
    requires 0 <= y < |lines| - 1
    ensures TextIndex(lines, 0, y + 1) == TextIndex(lines, |lines[y]|, y) + 1
  {
    TextIndexShift(lines, |lines[y]| + 1, y);
    TextIndexShift(lines, |lines[y]|, y);
  }

  lemma {:induction false} TextIndexShift(lines: seq<string>, x: int, y: int)
    requires 0 <= y <= |lines|
    ensures TextIndex(lines, x, y) == TextIndex(lines, 0, y) + x
    decreases y
  {
    if y > 0 {
      TextIndexShift(lines, |lines[y - 1]| + 1 + x, y - 1);
      TextIndexShift(lines, |lines[y - 1]| + 1, y - 1);
    }
  }

  /** Left undoes Right everywhere except at the very end of the text. */
  lemma LeftUndoesRight(lines: seq<string>, x: int, y: int)
    requires CursorValid(lines, x, y)
    requires (x, y) != (|lines[|lines| - 1]|, |lines| - 1)
    ensures var (rx, ry) := Moved(lines, x, y, ArrowRight);
      Moved(lines, rx, ry, ArrowLeft) == (x, y)
  {
  }

  /** Right undoes Left everywhere except at the very start of the text. */
  lemma RightUndoesLeft(lines: seq<string>, x: int, y: int)
    requires CursorValid(lines, x, y)
    requires (x, y) != (0, 0)
    ensures var (lx, ly) := Moved(lines, x, y, ArrowLeft);
      Moved(lines, lx, ly, ArrowRight) == (x, y)
  {
  }

  /** Down then Up returns to the row; the column survives exactly when the
      row below was long enough to hold it. */
  lemma UpAfterDown(lines: seq<string>, x: int, y: int)
    requires CursorValid(lines, x, y) && y < |lines| - 1
    ensures var (dx, dy) := Moved(lines, x, y, ArrowDown);
      var (ux, uy) := Moved(lines, dx, dy, ArrowUp);
      uy == y && (ux == x <==> x <= |lines[y + 1]|)
  {
  }

  /* ---------------- handle_backspace ---------------- */

  /** The number of spaces the string starts with. */
  function LeadingSpaces(s: string): (n: nat)
    ensures n <= |s|
    ensures forall i :: 0 <= i < n ==> s[i] == ' '
    ensures n < |s| ==> s[n] != ' '
  {
    if s != [] && s[0] == ' ' then 1 + LeadingSpaces(s[1..]) else 0
  }

  predicate AllSpaces(s: string) {
    forall i :: 0 <= i < |s| ==> s[i] == ' '
  }

  /** Backspace removes a whole tab width when the tab width is above 1, the
      tab width of characters before the cursor are all spaces, and the run
      of spaces that opens the line before them is a multiple of the tab
      width. */
  predicate SmartTab(line: string, x: int, tw: int)
    requires 0 <= x <= |line|
  {
    && tw > 1 && x >= tw
    && AllSpaces(line[x - tw..x])
    && LeadingSpaces(line[..x - tw]) % tw == 0
  }

  /** How many characters Backspace removes in the middle of a line. */
  function BackspaceWidth(line: string, x: int, tw: int): (n: int)
    requires 0 < x <= |line|
    ensures 1 <= n <= x
    ensures n > 1 ==> n == tw && AllSpaces(line[x - n..x]) && LeadingSpaces(line[..x - n]) % tw == 0
    ensures tw <= 1 || x < tw ==> n == 1
    ensures tw > 1 && x >= tw && LeadingSpaces(line[..x - tw]) % tw != 0 ==> n == 1
    ensures tw > 1 && x >= tw && !AllSpaces(line[x - tw..x]) ==> n == 1
  {
    if SmartTab(line, x, tw) then tw else 1
  }

  /** handle_backspace: inside a line, delete BackspaceWidth characters
      before the cursor; at the start of a line, append the line to the one
      above and put the cursor at the join; at the start of the text, do
      nothing. */
  function Backspaced(lines: seq<string>, x: int, y: int, tw: int): (r: Edit)
    requires CursorValid(lines, x, y)
    ensures CursorValid(r.lines, r.x, r.y)
    ensures r.changed <==> (x, y) != (0, 0)
    ensures x > 0 ==>
      var n := x - r.x;
      && 1 <= n <= x && r.y == y && |r.lines| == |lines|
      && r.lines == lines[y := lines[y][..r.x] + lines[y][x..]]
      && (n == 1 || (n == tw && AllSpaces(lines[y][r.x..x])))
      && (n > 1 ==> LeadingSpaces(lines[y][..r.x]) % tw == 0)
    ensures x == 0 && y > 0 ==>
      && r.y == y - 1 && r.x == |lines[y - 1]|
      && r.lines == lines[..y - 1] + [lines[y - 1] + lines[y]] + lines[y + 1..]
    ensures !r.changed ==> r.lines == lines && (r.x, r.y) == (x, y)
  {
    if x > 0 then
      var n := BackspaceWidth(lines[y], x, tw);
      Edit(lines[y := lines[y][..x - n] + lines[y][x..]], x - n, y, true)
    else if y > 0 then
      Edit(lines[..y - 1] + [lines[y - 1] + lines[y]] + lines[y + 1..], |lines[y - 1]|, y - 1, true)
    else
      Edit(lines, x, y, false)
  }

  /** Off a tab stop Backspace deletes one character, even inside a run of
      spaces as long as the tab width. */
  lemma BackspaceOffTabStop(lines: seq<string>, x: int, y: int, tw: int)
    requires CursorValid(lines, x, y) && 0 < x && tw > 1 && x >= tw
    requires LeadingSpaces(lines[y][..x - tw]) % tw != 0
    ensures Backspaced(lines, x, y, tw) == Edit(lines[y := lines[y][..x - 1] + lines[y][x..]], x - 1, y, true)
  {
  }

  /** Eight spaces with a tab width of 4: at column 8 Backspace removes a
      whole tab stop; at column 6 the two spaces before position 2 are not a
      multiple of 4, so only one space goes. After "ab" the leading run is
      empty, a multiple of every width, so two spaces go with a width of 2. */
  lemma SmartTabExamples()
    ensures BackspaceWidth("        ", 8, 4) == 4
    ensures BackspaceWidth("        ", 6, 4) == 1
    ensures BackspaceWidth("ab  cd", 4, 2) == 2
    ensures BackspaceWidth("ab  cd", 4, 4) == 1
  {
    assert LeadingSpaces("        "[..4]) == 4 by {
      assert "        "[..4] == "    ";
    }
    assert LeadingSpaces("        "[..2]) == 2 by {
      assert "        "[..2] == "  ";
    }
    assert LeadingSpaces("ab  cd"[..2]) == 0;
    assert AllSpaces("ab  cd"[2..4]) by {
      assert "ab  cd"[2..4] == "  ";
    }
  }

  /* ---------------- handle_delete ---------------- */

  /** handle_delete: remove the character under the cursor; at the end of a
      line, pull the next line up onto it; at the end of the text, do
      nothing. The cursor never moves. */
  function Deleted(lines: seq<string>, x: int, y: int): (r: Edit)
    requires CursorValid(lines, x, y)
    ensures CursorValid(r.lines, r.x, r.y) && (r.x, r.y) == (x, y)
    ensures r.changed <==> (x < |lines[y]| || y < |lines| - 1)
    ensures x < |lines[y]| ==> r.lines == lines[y := lines[y][..x] + lines[y][x + 1..]]
    ensures x == |lines[y]| && y < |lines| - 1 ==>
      r.lines == lines[..y] + [lines[y] + lines[y + 1]] + lines[y + 2..]
    ensures !r.changed ==> r.lines == lines
  {
    if x < |lines[y]| then
      Edit(lines[y := lines[y][..x] + lines[y][x + 1..]], x, y, true)
    else if y < |lines| - 1 then
      Edit(lines[..y] + [lines[y] + lines[y + 1]] + lines[y + 2..], x, y, true)
    else
      Edit(lines, x, y, false)
  }

  /* ---------------- handle_enter ---------------- */

  /** The indentation handle_enter copies: the number of spaces and tabs
      that open the line. */
  function IndentWidth(s: string): (n: nat)
    ensures n <= |s|
    ensures forall i :: 0 <= i < n ==> s[i] == ' ' || s[i] == '\t'
    ensures n < |s| ==> s[n] != ' ' && s[n] != '\t'
  {
    if s != [] && (s[0] == ' ' || s[0] == '\t') then 1 + IndentWidth(s[1..]) else 0
  }

  /** handle_enter: split the line at the cursor and move to the start of
      the new line; with auto-indent, the new line first receives one space
      for every space or tab opening the part left above, and the cursor
      lands after them. */
  function Entered(lines: seq<string>, x: int, y: int, autoIndent: bool): (r: Edit)
    requires CursorValid(lines, x, y)
    ensures CursorValid(r.lines, r.x, r.y) && r.changed
    ensures r.y == y + 1 && |r.lines| == |lines| + 1
    ensures r.lines[..y] == lines[..y] && r.lines[y + 2..] == lines[y + 1..]
    ensures r.lines[y] == lines[y][..x]
    ensures r.lines[y + 1] == Spaces(r.x) + lines[y][x..]
    ensures r.x == if autoIndent then IndentWidth(lines[y][..x]) else 0
  {
    var indent := if autoIndent then IndentWidth(lines[y][..x]) else 0;
    Edit(lines[..y] + [lines[y][..x], Spaces(indent) + lines[y][x..]] + lines[y + 1..], indent, y + 1, true)
  }

  /** Without auto-indent, Backspace right after Enter joins the two halves
      again and puts the cursor back. */
  lemma BackspaceUndoesEnter(lines: seq<string>, x: int, y: int, tw: int)
    requires CursorValid(lines, x, y)
    ensures var e := Entered(lines, x, y, false);
      Backspaced(e.lines, e.x, e.y, tw) == Edit(lines, x, y, true)
  {
    var e := Entered(lines, x, y, false);
    var b := Backspaced(e.lines, e.x, e.y, tw);
    assert e.lines[y] + e.lines[y + 1] == lines[y];
    assert b.lines == e.lines[..y] + [lines[y]] + e.lines[y + 2..];
    assert e.lines[..y] == lines[..y];
    assert lines == lines[..y] + [lines[y]] + lines[y + 1..];
  }

  /** Enter at the end of "  if" opens a line of two spaces. */
  lemma AutoIndentKeepsSpaces()
    ensures Entered(["  if"], 4, 0, true).lines == ["  if", "  "]
  {
    assert "  if"[..4] == "  if" && "  if"[4..] == "";
    assert "  if"[1..] == " if" && " if"[1..] == "if";
    EnterOneLine("  if", 4, 2);
    assert Spaces(2) + "" == "  ";
  }

  /** A tab in the indentation is copied as one space. */
  lemma AutoIndentTabBecomesSpace()
    ensures Entered(["\tx"], 2, 0, true).lines == ["\tx", " "]
  {
    assert "\tx"[..2] == "\tx" && "\tx"[2..] == "" && "\tx"[1..] == "x";
    EnterOneLine("\tx", 2, 1);
    assert Spaces(1) + "" == " ";
  }

  /** Splitting inside the indentation copies only the part left above. */
  lemma AutoIndentInsideIndent()
    ensures Entered(["  ab"], 1, 0, true).lines == [" ", "  ab"]
  {
    assert "  ab"[..1] == " " && " "[1..] == "" && "  ab"[1..] == " ab";
    EnterOneLine("  ab", 1, 1);
    assert Spaces(1) + " ab" == "  ab";
  }

  lemma EnterOneLine(line: string, x: nat, indent: nat)
    requires x <= |line| && IndentWidth(line[..x]) == indent
    ensures Entered([line], x, 0, true).lines == [line[..x], Spaces(indent) + line[x..]]
  {
    assert [line][..0] == [] && [line][1..] == [];
  }

  /* ---------------- handle_tab and plain characters ---------------- */

  /** handle_tab: insert tab_width spaces at the cursor and move past them;
      a tab width of 0 or less inserts nothing. */
  function Tabbed(lines: seq<string>, x: int, y: int, tw: int): (r: Edit)
    requires CursorValid(lines, x, y)
    ensures CursorValid(r.lines, r.x, r.y) && r.y == y
    ensures r.changed <==> tw > 0
    ensures r.x == x + (if tw > 0 then tw else 0)
    ensures r.lines == lines[y := lines[y][..x] + Spaces(r.x - x) + lines[y][x..]]
    ensures !r.changed ==> r.lines == lines
  {
    var n := if tw > 0 then tw else 0;
    assert n == 0 ==> lines[y][..x] + Spaces(n) + lines[y][x..] == lines[y];
    Edit(lines[y := lines[y][..x] + Spaces(n) + lines[y][x..]], x + n, y, tw > 0)
  }

  /** A printable key: the character goes in at the cursor, which moves past it. */
  function Typed(lines: seq<string>, x: int, y: int, c: char): (r: Edit)
    requires CursorValid(lines, x, y)
    ensures CursorValid(r.lines, r.x, r.y) && r.changed
    ensures r.x == x + 1 && r.y == y
    ensures r.lines == lines[y := lines[y][..x] + [c] + lines[y][x..]]
  {
    Edit(lines[y := lines[y][..x] + [c] + lines[y][x..]], x + 1, y, true)
  }

  /** Backspace removes a character just typed, unless it was a space that
      completes a tab stop. */
  lemma BackspaceUndoesTyped(lines: seq<string>, x: int, y: int, c: char, tw: int)
    requires CursorValid(lines, x, y) && c != ' '
    ensures var t := Typed(lines, x, y, c);
      Backspaced(t.lines, t.x, t.y, tw) == Edit(lines, x, y, true)
  {
    var t := Typed(lines, x, y, c);
    var line := t.lines[y];
    assert !SmartTab(line, x + 1, tw) by {
      assert line[x] == c;
    }
    assert line[..x] + line[x + 1..] == lines[y];
  }

  /** Backspace right after Tab removes the whole tab again when the cursor
      started on a tab stop of the line's leading spaces. */
  lemma BackspaceUndoesTab(lines: seq<string>, x: int, y: int, tw: int)
    requires CursorValid(lines, x, y) && tw > 1
    requires LeadingSpaces(lines[y][..x]) % tw == 0
    ensures var t := Tabbed(lines, x, y, tw);
      Backspaced(t.lines, t.x, t.y, tw) == Edit(lines, x, y, true)
  {
    var t := Tabbed(lines, x, y, tw);
    var line := t.lines[y];
    assert line[..x] == lines[y][..x];
    assert line[x..x + tw] == Spaces(tw);
    assert SmartTab(line, x + tw, tw);
    assert line[..x] + line[x + tw..] == lines[y];
  }
}
