/**
 * The text buffer (src/buffer.cpp): an ordered list of lines and a dirty
 * flag. Every edit is addressed by (column, row); an invalid row is a silent
 * no-op and an out-of-range column means "end of line".
 *
 * The functions below give the effect of each edit on the list of lines;
 * class Buffer performs the edits in place and is specified by them.
 */
module LineBuffer {

  predicate ValidRow(lines: seq<string>, y: int) {
    0 <= y < |lines|
  }

  /** insert_char / insert_newline: a column below 0 or past the end of the
      line is replaced by the line's length. */
  function ClampColumn(x: int, len: nat): nat {
    if x < 0 || x > len then len else x
  }

  /** get_line: the stored line, or "" for a row out of range. */
  function LineAt(lines: seq<string>, y: int): string {
    if ValidRow(lines, y) then lines[y] else ""
  }

  /** The lines after insert_char(x, y, c). */
  function CharInserted(lines: seq<string>, x: int, y: int, c: char): (r: seq<string>)
    ensures |r| == |lines|
    ensures forall i :: 0 <= i < |lines| && i != y ==> r[i] == lines[i]
    ensures ValidRow(lines, y) ==>
      var p := ClampColumn(x, |lines[y]|);
      && |r[y]| == |lines[y]| + 1
      && r[y][p] == c
      && r[y][..p] == lines[y][..p]
      && r[y][p + 1..] == lines[y][p..]
    ensures !ValidRow(lines, y) ==> r == lines
  {
    if !ValidRow(lines, y) then lines
    else
      var p := ClampColumn(x, |lines[y]|);
      lines[y := lines[y][..p] + [c] + lines[y][p..]]
  }

  /** delete_char(x, y) removes a character only when one is at (x, y). */
  predicate HasCharAt(lines: seq<string>, x: int, y: int) {
    ValidRow(lines, y) && 0 <= x < |lines[y]|
  }

  /** The lines after delete_char(x, y). */
  function CharDeleted(lines: seq<string>, x: int, y: int): (r: seq<string>)
    ensures |r| == |lines|
    ensures forall i :: 0 <= i < |lines| && i != y ==> r[i] == lines[i]
    ensures HasCharAt(lines, x, y) ==>
      && |r[y]| == |lines[y]| - 1
      && r[y][..x] == lines[y][..x]
      && r[y][x..] == lines[y][x + 1..]
    ensures !HasCharAt(lines, x, y) ==> r == lines
  {
    if !HasCharAt(lines, x, y) then lines
    else lines[y := lines[y][..x] + lines[y][x + 1..]]
  }

  /** The lines after insert_newline(x, y): the line is split at the clamped
      column and the tail becomes the next line. */
  function NewlineInserted(lines: seq<string>, x: int, y: int): (r: seq<string>)
    ensures ValidRow(lines, y) ==>
      var p := ClampColumn(x, |lines[y]|);
      && |r| == |lines| + 1
      && r[..y] == lines[..y]
      && r[y] == lines[y][..p]
      && r[y + 1] == lines[y][p..]
      && r[y] + r[y + 1] == lines[y]
      && r[y + 2..] == lines[y + 1..]
    ensures !ValidRow(lines, y) ==> r == lines
  {
    if !ValidRow(lines, y) then lines
    else
      var p := ClampColumn(x, |lines[y]|);
      assert lines[y][..p] + lines[y][p..] == lines[y];
      lines[..y] + [lines[y][..p], lines[y][p..]] + lines[y + 1..]
  }

  /** The lines after delete_line(y): the row is removed, except that the
      only line is emptied instead. */
  function LineDeleted(lines: seq<string>, y: int): (r: seq<string>)
    ensures ValidRow(lines, y) && |lines| > 1 ==>
      |r| == |lines| - 1 && r[..y] == lines[..y] && r[y..] == lines[y + 1..]
    ensures ValidRow(lines, y) && |lines| == 1 ==> r == [""]
    ensures !ValidRow(lines, y) ==> r == lines
    ensures |lines| >= 1 ==> |r| >= 1
  {
    if !ValidRow(lines, y) then lines
    else if |lines| > 1 then lines[..y] + lines[y + 1..]
    else [""]
  }

  /** The lines after set_line(y, line): for y >= 0 the list is padded with
      empty lines until row y exists, then row y is replaced. */
  function LineSet(lines: seq<string>, y: int, line: string): (r: seq<string>)
    ensures y < 0 ==> r == lines
    ensures y >= 0 ==>
      && |r| == (if y < |lines| then |lines| else y + 1)
      && r[y] == line
      && (forall i :: 0 <= i < |lines| && i != y ==> r[i] == lines[i])
      && (forall i :: |lines| <= i < |r| && i != y ==> r[i] == "")
  {
    if y < 0 then lines
    else if y < |lines| then lines[y := line]
    else lines + EmptyLines(y - |lines|) + [line]
  }

  /** n empty lines. */
  function EmptyLines(n: nat): (r: seq<string>)
    ensures |r| == n
    ensures forall i :: 0 <= i < n ==> r[i] == ""
  {
    if n == 0 then [] else EmptyLines(n - 1) + [""]
  }

  /** Deleting a character where one was just inserted restores the lines. */
  lemma DeleteUndoesInsert(lines: seq<string>, x: int, y: int, c: char)
    requires ValidRow(lines, y)
    ensures CharDeleted(CharInserted(lines, x, y, c), ClampColumn(x, |lines[y]|), y) == lines
  {
    var p := ClampColumn(x, |lines[y]|);
    var r := CharInserted(lines, x, y, c);
    assert HasCharAt(r, p, y);
    var d := CharDeleted(r, p, y);
    assert d[y] == r[y][..p] + r[y][p + 1..];
    assert d[y] == lines[y][..p] + lines[y][p..];
    assert lines[y][..p] + lines[y][p..] == lines[y];
  }

  /** Splitting a line and then removing the tail row while appending it to
      the head (the join performed by Delete at end of line) restores the lines. */
  lemma JoinUndoesNewline(lines: seq<string>, x: int, y: int)
    requires ValidRow(lines, y)
    ensures var r := NewlineInserted(lines, x, y);
      LineDeleted(LineSet(r, y, r[y] + r[y + 1]), y + 1) == lines
  {
    var r := NewlineInserted(lines, x, y);
    var s := LineSet(r, y, r[y] + r[y + 1]);
    assert s == r[y := lines[y]];
    var d := LineDeleted(s, y + 1);
    assert |d| == |lines|;
    forall i | 0 <= i < |lines| ensures d[i] == lines[i] {
      if i < y {
        assert d[i] == s[i] == r[i];
        assert r[..y][i] == lines[..y][i];
      } else if i == y {
        assert d[i] == s[i];
      } else {
        assert d[i] == s[i + 1] == r[i + 1];
        assert r[y + 2..][i - y - 1] == lines[y + 1..][i - y - 1];
      }
    }
  }

  /** get_line returns what set_line stored. */
  lemma GetLineAfterSetLine(lines: seq<string>, y: int, line: string, z: int)
    requires y >= 0
    ensures LineAt(LineSet(lines, y, line), y) == line
    ensures z != y && ValidRow(lines, z) ==> LineAt(LineSet(lines, y, line), z) == LineAt(lines, z)
  {
  }

  /** delete_line(0) applied n times. */
  function DeleteFirstLine(lines: seq<string>, n: nat): seq<string>
    decreases n
  {
    if n == 0 then lines else DeleteFirstLine(LineDeleted(lines, 0), n - 1)
  }

  /** Deleting row 0 as many times as there are lines leaves one empty line:
      the last call clears the line instead of removing it. */
  lemma {:induction false} DeleteEveryLine(lines: seq<string>)
    requires |lines| >= 1
    ensures DeleteFirstLine(lines, |lines|) == [""]
  {
    if |lines| > 1 {
      var r := LineDeleted(lines, 0);
      assert |r| == |lines| - 1;
      DeleteEveryLine(r);
    }
  }

  class Buffer {
    var lines: seq<string>
    var modified: bool

    /** The buffer never holds an empty list of lines. */
    ghost predicate Valid()
      reads this
    {
      |lines| >= 1
    }

    /** A new buffer holds one empty line and is clean. */
    constructor ()
      ensures Valid()
      ensures lines == [""] && !modified
    {
      lines := [""];
      modified := false;
    }

    method InsertChar(x: int, y: int, c: char)
      requires Valid()
      modifies this
      ensures Valid()
      ensures lines == CharInserted(old(lines), x, y, c)
      ensures modified == (ValidRow(old(lines), y) || old(modified))
    {
      if y < 0 || y >= |lines| {
        return;
      }
      var p := x;
      if x < 0 || x > |lines[y]| {
        p := |lines[y]|;
      }
      lines := lines[y := lines[y][..p] + [c] + lines[y][p..]];
      modified := true;
    }

    method DeleteChar(x: int, y: int)
      requires Valid()
      modifies this
      ensures Valid()
      ensures lines == CharDeleted(old(lines), x, y)
      ensures modified == (HasCharAt(old(lines), x, y) || old(modified))
    {
      if y < 0 || y >= |lines| {
        return;
      }
      if x < 0 || x >= |lines[y]| {
        return;
      }
      lines := lines[y := lines[y][..x] + lines[y][x + 1..]];
      modified := true;
    }

    method InsertNewline(x: int, y: int)
      requires Valid()
      modifies this
      ensures Valid()
      ensures lines == NewlineInserted(old(lines), x, y)
      ensures modified == (ValidRow(old(lines), y) || old(modified))
    {
      if y < 0 || y >= |lines| {
        return;
      }
      var p := x;
      if x < 0 || x > |lines[y]| {
        p := |lines[y]|;
      }
      var newLine := lines[y][p..];
      lines := lines[y := lines[y][..p]];
      lines := lines[..y + 1] + [newLine] + lines[y + 1..];
      modified := true;
    }

    method DeleteLine(y: int)
      requires Valid()
      modifies this
      ensures Valid()
      ensures lines == LineDeleted(old(lines), y)
      ensures modified == (ValidRow(old(lines), y) || old(modified))
    {
      if y < 0 || y >= |lines| {
        return;
      }
      if |lines| > 1 {
        lines := lines[..y] + lines[y + 1..];
        modified := true;
      } else {
        lines := lines[0 := ""];
        modified := true;
      }
    }

    function GetLine(y: int): (r: string)
      reads this
      ensures r == LineAt(lines, y)
    {
      if y < 0 || y >= |lines| then "" else lines[y]
    }

    function GetLineCount(): (n: int)
      reads this
      requires Valid()
      ensures n >= 1 && n == |lines|
    {
      |lines|
    }

    method SetLine(y: int, line: string)
      requires Valid()
      modifies this
      ensures Valid()
      ensures lines == LineSet(old(lines), y, line)
      ensures modified == (y >= 0 || old(modified))
    {
      if y < 0 {
        return;
      }
      while y >= |lines|
        invariant |lines| >= |old(lines)| >= 1
        invariant lines == old(lines) + EmptyLines(|lines| - |old(lines)|)
        invariant |lines| <= y + 1 || lines == old(lines)
        decreases y - |lines|
      {
        lines := lines + [""];
      }
      lines := lines[y := line];
      modified := true;
    }

    function IsModified(): bool
      reads this
    {
      modified
    }

    method SetModified(mod: bool)
      modifies this
      ensures lines == old(lines) && modified == mod
    {
      modified := mod;
    }

    method Clear()
      modifies this
      ensures Valid()
      ensures lines == [""] && !modified
    {
      lines := [""];
      modified := false;
    }

    function GetLines(): seq<string>
      reads this
    {
      lines
    }
  }
}
