/**
 * Loading and saving the buffer (src/file.cpp). Opening the stream is an
 * outside service: whether it opens is a parameter, the file's content is a
 * string, and what save_file writes is returned as a string.
 */
module FileIO {
  import opened Text
  import opened LineBuffer

  /** One std::getline call on a non-empty remaining stream: the text up to
      the first '\n' (which is consumed and not stored), or all of it. */
  function Getline(s: string): (r: (string, string))
    requires s != []
    ensures '\n' !in r.0
    ensures |r.1| < |s|
    ensures s == r.0 + (if |r.0| < |s| then "\n" else "") + r.1
  {
    match FindChar(s, '\n')
    case None => (s, "")
    case Some(i) =>
      assert s == s[..i] + "\n" + s[i + 1..];
      (s[..i], s[i + 1..])
  }

  /** The lines `while (std::getline(file, line))` produces: the text split at
      '\n', where a final '\n' (or an empty file) does not start another line. */
  function Getlines(s: string): (r: seq<string>)
    ensures forall i :: 0 <= i < |r| ==> '\n' !in r[i]
    ensures s == [] <==> r == []
    decreases |s|
  {
    if s == [] then [] else [Getline(s).0] + Getlines(Getline(s).1)
  }

  /** The buffer load_file leaves: the lines read, or one empty line for an
      empty file. */
  function LoadedLines(content: string): (r: seq<string>)
    ensures |r| >= 1
  {
    if Getlines(content) == [] then [""] else Getlines(content)
  }

  /** The text save_file writes: the lines joined by '\n', no '\n' after the last. */
  function Join(lines: seq<string>): string {
    if |lines| == 0 then ""
    else if |lines| == 1 then lines[0]
    else lines[0] + "\n" + Join(lines[1..])
  }

  lemma {:induction false} JoinSnoc(lines: seq<string>, line: string)
    requires |lines| >= 1
    ensures Join(lines + [line]) == Join(lines) + "\n" + line
  {
    if |lines| > 1 {
      assert (lines + [line])[1..] == lines[1..] + [line];
      JoinSnoc(lines[1..], line);
    } else {
      assert (lines + [line])[1..] == [line];
    }
  }

  predicate NoNewlines(lines: seq<string>) {
    forall i :: 0 <= i < |lines| ==> '\n' !in lines[i]
  }

  /** Reading back a saved non-empty list of lines without '\n' gives the
      lines again, except that a final empty line is lost. */
  lemma {:induction false} GetlinesOfJoin(lines: seq<string>)
    requires |lines| >= 1 && NoNewlines(lines)
    ensures Getlines(Join(lines)) ==
      if lines[|lines| - 1] == "" then lines[..|lines| - 1] else lines
  {
    if |lines| == 1 {
      GetlinesOfLine(lines[0]);
    } else {
      var rest := lines[1..];
      GetlinesStep(lines);
      assert NoNewlines(rest) by {
        forall i | 0 <= i < |rest| ensures '\n' !in rest[i] {
          assert rest[i] == lines[i + 1];
        }
      }
      GetlinesOfJoin(rest);
      Reassemble(lines);
    }
  }

  /** The first line read, then the lines of the rest. */
  lemma GetlinesStep(lines: seq<string>)
    requires |lines| >= 2 && '\n' !in lines[0]
    ensures Getlines(Join(lines)) == [lines[0]] + Getlines(Join(lines[1..]))
  {
    GetlineOfJoin(lines);
  }

  /** Putting the first line back in front of the tail's result. */
  lemma Reassemble(lines: seq<string>)
    requires |lines| >= 2
    ensures var rest := lines[1..];
      [lines[0]] + (if rest[|rest| - 1] == "" then rest[..|rest| - 1] else rest)
      == if lines[|lines| - 1] == "" then lines[..|lines| - 1] else lines
  {
    var rest := lines[1..];
    assert rest[|rest| - 1] == lines[|lines| - 1];
    assert [lines[0]] + rest[..|rest| - 1] == lines[..|lines| - 1];
    assert [lines[0]] + rest == lines;
  }

  /** A text without '\n' is one line, or none when empty. */
  lemma GetlinesOfLine(line: string)
    requires '\n' !in line
    ensures Getlines(line) == if line == "" then [] else [line]
  {
    if line != "" {
      assert FindChar(line, '\n').None?;
      assert Getline(line) == (line, "");
    }
  }

  /** The first getline on a saved text reads back its first line. */
  lemma GetlineOfJoin(lines: seq<string>)
    requires |lines| >= 2 && '\n' !in lines[0]
    ensures Join(lines) != [] && Getline(Join(lines)) == (lines[0], Join(lines[1..]))
  {
    var s := Join(lines);
    assert s == lines[0] + "\n" + Join(lines[1..]);
    FirstNewlineAfter(lines[0], Join(lines[1..]));
    assert s[..|lines[0]|] == lines[0];
    assert s[|lines[0]| + 1..] == Join(lines[1..]);
  }

  lemma FirstNewlineAfter(a: string, b: string)
    requires '\n' !in a
    ensures FindChar(a + "\n" + b, '\n') == Some(|a|)
  {
    var s := a + "\n" + b;
    assert s[|a|] == '\n';
    assert s[..|a|] == a;
  }

  /** Save then load restores the buffer exactly when its last line is not
      empty, or the buffer is the single empty line. */
  lemma SaveLoadRoundTrip(lines: seq<string>)
    requires |lines| >= 1 && NoNewlines(lines)
    ensures LoadedLines(Join(lines)) == lines <==> (lines[|lines| - 1] != "" || lines == [""])
    ensures |lines| >= 2 && lines[|lines| - 1] == "" ==> LoadedLines(Join(lines)) == lines[..|lines| - 1]
  {
    GetlinesOfJoin(lines);
  }

  /** save_file: an empty name fails before any I/O; otherwise the result is
      whether the stream opened, and the stream receives Join(lines). */
  method SaveFile(filename: string, buffer: Buffer, canOpen: bool) returns (ok: bool, written: string)
    ensures ok == (filename != "" && canOpen)
    ensures written == if ok then Join(buffer.lines) else ""
  {
    if filename == "" {
      return false, "";
    }
    if !canOpen {
      return false, "";
    }
    var lines := buffer.GetLines();
    written := "";
    var i := 0;
    while i < |lines|
      invariant 0 <= i <= |lines|
      invariant i == 0 ==> written == ""
      invariant 0 < i ==> written == Join(lines[..i]) + (if i < |lines| then "\n" else "")
    {
      written := written + lines[i];
      if i < |lines| - 1 {
        written := written + "\n";
      }
      if i > 0 {
        JoinSnoc(lines[..i], lines[i]);
        assert lines[..i + 1] == lines[..i] + [lines[i]];
      } else {
        assert lines[..1] == [lines[0]];
      }
      i := i + 1;
    }
    assert lines[..|lines|] == lines;
    ok := true;
  }

  /** One more getline moves a line from the unread text to the lines read. */
  lemma ReadStep(content: string, read: seq<string>, rest: string)
    requires rest != [] && Getlines(content) == read + Getlines(rest)
    ensures Getlines(content) == (read + [Getline(rest).0]) + Getlines(Getline(rest).1)
  {
    assert Getlines(rest) == [Getline(rest).0] + Getlines(Getline(rest).1);
  }

  /** The body of load_file's loop: the first line read replaces the empty
      line clear() leaves, every later one goes after the last. */
  method StoreLine(buffer: Buffer, line: string, ghost read: seq<string>, firstLine: bool)
    requires buffer.Valid() && (firstLine <==> read == [])
    requires firstLine ==> buffer.lines == [""]
    requires !firstLine ==> buffer.lines == read
    modifies buffer
    ensures buffer.Valid() && buffer.lines == read + [line]
  {
    if firstLine {
      buffer.SetLine(0, line);
    } else {
      var lineCount := buffer.GetLineCount();
      assert LineSet(read, lineCount, line) == read + [line] by {
        assert EmptyLines(0) == [];
      }
      buffer.SetLine(lineCount, line);
    }
  }

  /** load_file: when the stream does not open nothing changes; otherwise the
      buffer is cleared, each line read is stored with set_line (the first one
      over the initial empty line, the others appended) and the buffer is
      marked clean. */
  method LoadFile(isOpen: bool, content: string, buffer: Buffer) returns (ok: bool)
    requires buffer.Valid()
    modifies buffer
    ensures buffer.Valid()
    ensures ok == isOpen
    ensures !ok ==> buffer.lines == old(buffer.lines) && buffer.modified == old(buffer.modified)
    ensures ok ==> buffer.lines == LoadedLines(content) && !buffer.modified
  {
    if !isOpen {
      return false;
    }
    buffer.Clear();
    var rest := content;
    var firstLine := true;
    ghost var read: seq<string> := [];
    while rest != []
      invariant buffer.Valid()
      invariant Getlines(content) == read + Getlines(rest)
      invariant firstLine <==> read == []
      invariant firstLine ==> buffer.lines == [""]
      invariant !firstLine ==> buffer.lines == read
      decreases |rest|
    {
      var (line, remaining) := Getline(rest);
      ReadStep(content, read, rest);
      StoreLine(buffer, line, read, firstLine);
      firstLine := false;
      read := read + [line];
      rest := remaining;
    }
    buffer.SetModified(false);
    return true;
  }
}
