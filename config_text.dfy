/**
 * The comment-line filter applied to the configuration file before it is parsed
 * (src/main.cpp:64-76).  Each line, as `getline` delivers it without its newline, loses its
 * leading spaces and tabs; a line that then starts with "//" is dropped, and every other line
 * is appended to the document buffer followed by a newline.
 */
module ConfigText {

  /** The characters skipped at the start of a line: space and tab only. */
  predicate IsBlank(ch: char)
  {
    ch == ' ' || ch == '\t'
  }

  /**
   * The position of the first character of `line` that is not blank, or `|line|` when there is
   * none (the source's `npos`).
   */
  function FirstNonBlank(line: string): (r: nat)
    ensures r <= |line|
    ensures forall k | 0 <= k < r :: IsBlank(line[k])
    ensures r < |line| ==> !IsBlank(line[r])
  {
    if |line| == 0 || !IsBlank(line[0]) then 0 else 1 + FirstNonBlank(line[1..])
  }

  /** The line without its leading blanks; a line of blanks only is left as it is. */
  function Trimmed(line: string): string
  {
    var start := FirstNonBlank(line);
    if start < |line| then line[start..] else line
  }

  /** A line that starts with "//" once its leading blanks are gone. */
  predicate IsCommentLine(line: string)
  {
    var t := Trimmed(line);
    2 <= |t| && t[..2] == "//"
  }

  /** What one line contributes to the document buffer. */
  function Emit(line: string): string
  {
    if IsCommentLine(line) then "" else Trimmed(line) + "\n"
  }

  /** The document buffer after the filter has read `lines`. */
  function Filtered(lines: seq<string>): string
  {
    if |lines| == 0 then "" else Filtered(lines[..|lines| - 1]) + Emit(lines[|lines| - 1])
  }

  /** The source's read loop: one line at a time, appending to the buffer. */
  method FilterComments(lines: seq<string>) returns (buffer: string)
    ensures buffer == Filtered(lines)
  {
    buffer := "";
    var i := 0;
    while i < |lines|
      invariant 0 <= i <= |lines|
      invariant buffer == Filtered(lines[..i])
    {
      var line := lines[i];
      var start := FirstNonBlank(line);
      if start < |line| {
        line := line[start..];
      }
      if !(2 <= |line| && line[..2] == "//") {
        buffer := buffer + line + "\n";
      }
      assert lines[..i + 1][..i] == lines[..i];
      i := i + 1;
    }
    assert lines[..i] == lines;
  }

  /**
   * Trimming leaves a suffix of the line that is empty or starts with a non-blank character,
   * unless the line holds nothing but blanks, in which case it is left unchanged.
   */
  lemma TrimmedIsSuffix(line: string)
    ensures var t := Trimmed(line);
      && |t| <= |line| && t == line[|line| - |t|..]
      && (0 < |t| && IsBlank(t[0]) ==> t == line && forall k | 0 <= k < |line| :: IsBlank(line[k]))
  {
  }

  /** Trimming twice is trimming once. */
  lemma TrimmedIdempotent(line: string)
    ensures Trimmed(Trimmed(line)) == Trimmed(line)
  {
    var t := Trimmed(line);
    if FirstNonBlank(line) < |line| {
      assert FirstNonBlank(t) == 0;
    }
  }

  /** Reading one more line appends what that line contributes. */
  lemma FilteredSnoc(a: seq<string>, line: string)
    ensures Filtered(a + [line]) == Filtered(a) + Emit(line)
  {
    assert (a + [line])[..|a|] == a;
  }

  /** The last line of `b` is also the last line of `a + b`. */
  lemma LastOfAppend(a: seq<string>, b: seq<string>)
    requires 0 < |b|
    ensures a + b == (a + b[..|b| - 1]) + [b[|b| - 1]]
    ensures b == b[..|b| - 1] + [b[|b| - 1]]
  {
  }

  lemma Associative(x: string, y: string, z: string)
    ensures (x + y) + z == x + (y + z)
  {
  }

  /** The buffer of a concatenation of inputs is the concatenation of their buffers. */
  lemma {:induction false} FilteredAppend(a: seq<string>, b: seq<string>)
    ensures Filtered(a + b) == Filtered(a) + Filtered(b)
    decreases |b|
  {
    if |b| == 0 {
      assert a + b == a;
    } else {
      var b', last := b[..|b| - 1], b[|b| - 1];
      LastOfAppend(a, b);
      FilteredSnoc(a + b', last);
      FilteredSnoc(b', last);
      FilteredAppend(a, b');
      Associative(Filtered(a), Filtered(b'), Emit(last));
    }
  }

  /** A comment line leaves the buffer as it is, wherever it occurs. */
  lemma CommentLineDropped(a: seq<string>, line: string, b: seq<string>)
    requires IsCommentLine(line)
    ensures Filtered(a + [line] + b) == Filtered(a + b)
  {
    FilteredAppend(a + [line], b);
    FilteredSnoc(a, line);
    assert Filtered(a + [line]) == Filtered(a) + "";
    assert Filtered(a) + "" == Filtered(a);
    FilteredAppend(a, b);
  }

  /** Number of newline characters in `s`. */
  function Newlines(s: string): nat
  {
    if |s| == 0 then 0 else Newlines(s[..|s| - 1]) + (if s[|s| - 1] == '\n' then 1 else 0)
  }

  /** Newline counts add up over a concatenation. */
  lemma {:induction false} NewlinesAppend(s: string, t: string)
    ensures Newlines(s + t) == Newlines(s) + Newlines(t)
    decreases |t|
  {
    if |t| == 0 {
      assert s + t == s;
    } else {
      assert (s + t)[..|s + t| - 1] == s + t[..|t| - 1];
      NewlinesAppend(s, t[..|t| - 1]);
    }
  }

  /** Number of lines that are not comment lines. */
  function KeptLines(lines: seq<string>): nat
  {
    if |lines| == 0 then 0
    else KeptLines(lines[..|lines| - 1]) + (if IsCommentLine(lines[|lines| - 1]) then 0 else 1)
  }

  /**
   * For lines without newline characters, as `getline` delivers them, the buffer holds exactly
   * one line per line that is not a comment.
   */
  lemma {:induction false} OneBufferLinePerKeptLine(lines: seq<string>)
    requires forall i, k | 0 <= i < |lines| && 0 <= k < |lines[i]| :: lines[i][k] != '\n'
    ensures Newlines(Filtered(lines)) == KeptLines(lines)
    decreases |lines|
  {
    if |lines| > 0 {
      var init, line := lines[..|lines| - 1], lines[|lines| - 1];
      OneBufferLinePerKeptLine(init);
      NewlinesAppend(Filtered(init), Emit(line));
      if !IsCommentLine(line) {
        var t := Trimmed(line);
        TrimmedIsSuffix(line);
        NoNewlines(t);
        NewlinesAppend(t, "\n");
        assert Newlines("\n") == Newlines("") + 1;
      }
    }
  }

  /** A string without newline characters counts none. */
  lemma {:induction false} NoNewlines(s: string)
    requires forall k | 0 <= k < |s| :: s[k] != '\n'
    ensures Newlines(s) == 0
    decreases |s|
  {
    if |s| > 0 {
      NoNewlines(s[..|s| - 1]);
    }
  }
}
