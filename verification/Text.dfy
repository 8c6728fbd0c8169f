/**
 Byte strings as the programs use them: searching, taking newline-terminated
 lines off the front of a buffer, and the laws that make line framing
 independent of how a stream was cut into chunks.
 */
module Text {

  datatype Option<+T> = None | Some(value: T)

  predicate Free(s: string, c: char) {
    forall i :: 0 <= i < |s| ==> s[i] != c
  }

  /** Index of the first `c` in `s`, or `|s|` when there is none. */
  function Find(s: string, c: char): (k: nat)
    ensures k <= |s| && (k < |s| ==> s[k] == c)
    ensures forall i :: 0 <= i < k ==> s[i] != c
  {
    if s == "" then 0
    else if s[0] == c then 0
    else
      var k := 1 + Find(s[1..], c);
      assert forall i :: 0 < i < |s| ==> s[i] == s[1..][i - 1];
      k
  }

  lemma FindUnique(s: string, c: char, k: nat)
    requires k < |s| && s[k] == c && Free(s[..k], c)
    ensures Find(s, c) == k
  {
    forall i | 0 <= i < k ensures s[i] != c {
      assert s[..k][i] == s[i];
    }
  }

  lemma FindNothing(s: string, c: char)
    requires Free(s, c)
    ensures Find(s, c) == |s|
  {
  }

  predicate OccursAt(s: string, t: string, i: nat) {
    i + |t| <= |s| && s[i..i + |t|] == t
  }

  predicate Contains(s: string, t: string) {
    exists i :: 0 <= i <= |s| && OccursAt(s, t, i)
  }

  /** A complete line: one newline, at the end. */
  predicate IsLine(s: string) {
    s != "" && s[|s| - 1] == '\n' && Free(s[..|s| - 1], '\n')
  }

  /** The complete lines at the front of a buffer, in order. */
  function Lines(s: string): seq<string>
    decreases |s|
  {
    var k := Find(s, '\n');
    if k == |s| then [] else [s[..k + 1]] + Lines(s[k + 1..])
  }

  /** What is left of a buffer after its complete lines. */
  function Rest(s: string): string
    decreases |s|
  {
    var k := Find(s, '\n');
    if k == |s| then s else Rest(s[k + 1..])
  }

  function Join(parts: seq<string>): string {
    if parts == [] then "" else parts[0] + Join(parts[1..])
  }

  lemma {:induction false} JoinAppend(a: seq<string>, b: seq<string>)
    ensures Join(a + b) == Join(a) + Join(b)
  {
    if a == [] {
      assert a + b == b;
    } else {
      assert (a + b)[1..] == a[1..] + b;
      JoinAppend(a[1..], b);
    }
  }

  lemma JoinOne(part: string)
    ensures Join([part]) == part
  {
    assert Join([part]) == part + Join([]);
  }

  lemma LinesOfLineThen(line: string, s: string)
    requires IsLine(line)
    ensures Lines(line + s) == [line] + Lines(s)
    ensures Rest(line + s) == Rest(s)
  {
    var k := |line| - 1;
    assert (line + s)[..k] == line[..k];
    FindUnique(line + s, '\n', k);
    assert (line + s)[..k + 1] == line;
    assert (line + s)[k + 1..] == s;
  }

  lemma FirstLine(s: string) returns (line: string, tail: string)
    requires !Free(s, '\n')
    ensures IsLine(line) && s == line + tail && |tail| < |s|
  {
    var k := Find(s, '\n');
    line, tail := s[..k + 1], s[k + 1..];
  }

  lemma NoLines(s: string)
    requires Free(s, '\n')
    ensures Lines(s) == [] && Rest(s) == s
  {
    FindNothing(s, '\n');
  }

  /** Framing loses nothing: the lines and the rest are the buffer. */
  lemma {:induction false} LinesAreTheBuffer(s: string)
    ensures Join(Lines(s)) + Rest(s) == s
    ensures Free(Rest(s), '\n')
    ensures forall line :: line in Lines(s) ==> IsLine(line)
    decreases |s|
  {
    hide Lines, Rest, Find;
    if Free(s, '\n') {
      NoLines(s);
      assert Join([]) + s == s;
    } else {
      var line, tail := FirstLine(s);
      LinesAreTheBuffer(tail);
      LinesOfLineThen(line, tail);
      JoinPushed(line, Lines(tail), Rest(tail));
    }
  }

  lemma JoinPushed(line: string, lines: seq<string>, rest: string)
    ensures Join([line] + lines) + rest == line + (Join(lines) + rest)
  {
    assert ([line] + lines)[1..] == lines;
  }

  /** Framing is the only decomposition into lines and a newline-free rest. */
  lemma {:induction false} LinesUnique(lines: seq<string>, rest: string)
    requires forall line :: line in lines ==> IsLine(line)
    requires Free(rest, '\n')
    ensures Lines(Join(lines) + rest) == lines
    ensures Rest(Join(lines) + rest) == rest
  {
    hide Lines, Rest, Find, IsLine;
    if lines == [] {
      assert Join(lines) + rest == rest;
      NoLines(rest);
    } else {
      LinesUnique(lines[1..], rest);
      LinesOfLineThen(lines[0], Join(lines[1..]) + rest);
      JoinPushed(lines[0], lines[1..], rest);
      assert [lines[0]] + lines[1..] == lines;
    }
  }

  /** Framing a stream in two pieces gives the lines of the whole stream. */
  lemma {:induction false} LinesOfChunks(a: string, b: string)
    ensures Lines(a + b) == Lines(a) + Lines(Rest(a) + b)
    ensures Rest(a + b) == Rest(Rest(a) + b)
    decreases |a|
  {
    hide Lines, Rest, Find;
    if Free(a, '\n') {
      NoLines(a);
    } else {
      var line, tail := FirstLine(a);
      LinesOfChunks(tail, b);
      LinesOfChunksStep(line, tail, b);
    }
  }

  lemma LinesOfChunksStep(line: string, tail: string, b: string)
    requires IsLine(line)
    requires Lines(tail + b) == Lines(tail) + Lines(Rest(tail) + b)
    requires Rest(tail + b) == Rest(Rest(tail) + b)
    ensures Lines((line + tail) + b) == Lines(line + tail) + Lines(Rest(line + tail) + b)
    ensures Rest((line + tail) + b) == Rest(Rest(line + tail) + b)
  {
    hide Lines, Rest, Find;
    LinesOfLineThen(line, tail);
    LinesOfLineThen(line, tail + b);
    assert (line + tail) + b == line + (tail + b);
    assert [line] + (Lines(tail) + Lines(Rest(tail) + b)) == ([line] + Lines(tail)) + Lines(Rest(tail) + b);
  }

  /** A prefix of a line-structured stream frames to a prefix of its lines. */
  lemma LinesOfPrefix(a: string, lines: seq<string>, rest: string)
    requires forall line :: line in lines ==> IsLine(line)
    requires Free(rest, '\n')
    requires a <= Join(lines) + rest
    ensures Lines(a) <= lines
  {
    hide Lines, Rest, Find, IsLine;
    var whole := Join(lines) + rest;
    assert whole == a + whole[|a|..];
    LinesOfChunks(a, whole[|a|..]);
    LinesUnique(lines, rest);
  }
}
