/**
  Newline framing of a log sink: what the complete lines of a byte sequence
  are, and the two splitters of the daemon proved against that meaning.
*/
module LogLines {

  newtype byte = i: int | 0 <= i < 256

  type Bytes = seq<byte>

  const NEWLINE: byte := 10

  /** The complete (newline-terminated) lines of s, oldest first, without their newlines. */
  function Lines(s: Bytes): seq<Bytes> {
    if s == [] then []
    else
      var init := s[..|s| - 1];
      if s[|s| - 1] == NEWLINE then Lines(init) + [Partial(init)] else Lines(init)
  }

  /** The bytes after the last newline of s. */
  function Partial(s: Bytes): Bytes {
    if s == [] then []
    else if s[|s| - 1] == NEWLINE then []
    else Partial(s[..|s| - 1]) + [s[|s| - 1]]
  }

  /** The lines written back, each followed by a newline. */
  function Unlines(lines: seq<Bytes>): Bytes {
    if lines == [] then []
    else Unlines(lines[..|lines| - 1]) + lines[|lines| - 1] + [NEWLINE]
  }

  predicate NoNewline(s: Bytes) {
    NEWLINE !in s
  }

  predicate AllNoNewline(lines: seq<Bytes>) {
    forall i :: 0 <= i < |lines| ==> NoNewline(lines[i])
  }

  /** Splitting loses nothing: the lines and the partial rebuild the input, and no piece holds a newline. */
  lemma {:induction false} SplitRebuilds(s: Bytes)
    ensures Unlines(Lines(s)) + Partial(s) == s
    ensures AllNoNewline(Lines(s)) && NoNewline(Partial(s))
  {
    if s == [] {
    } else {
      var init, c := s[..|s| - 1], s[|s| - 1];
      SplitRebuilds(init);
      SplitStep(s);
      assert s == init + [c];
      if c == NEWLINE {
        UnlinesAppend(Lines(init), Partial(init));
        assert Unlines(Lines(s)) + [] == Unlines(Lines(s));
      } else {
        Reassociate(Unlines(Lines(init)), Partial(init), [c]);
      }
    }
  }

  /** What the last byte does to a split. */
  lemma SplitStep(s: Bytes)
    requires s != []
    ensures var init, c := s[..|s| - 1], s[|s| - 1];
      if c == NEWLINE then Lines(s) == Lines(init) + [Partial(init)] && Partial(s) == []
      else Lines(s) == Lines(init) && Partial(s) == Partial(init) + [c]
  {
  }

  lemma UnlinesAppend(lines: seq<Bytes>, line: Bytes)
    ensures Unlines(lines + [line]) == Unlines(lines) + line + [NEWLINE]
  {
    assert (lines + [line])[..|lines|] == lines;
  }

  lemma Reassociate(a: Bytes, b: Bytes, c: Bytes)
    ensures a + b + c == a + (b + c)
  {
  }

  /** And that characterises it: every newline-free decomposition is the one computed. */
  lemma {:induction false} SplitUnique(lines: seq<Bytes>, partial: Bytes)
    requires AllNoNewline(lines) && NoNewline(partial)
    ensures Lines(Unlines(lines) + partial) == lines
    ensures Partial(Unlines(lines) + partial) == partial
    decreases |lines|, |partial|
  {
    var s := Unlines(lines) + partial;
    if partial != [] {
      var p := partial[..|partial| - 1];
      SplitUnique(lines, p);
      assert s[..|s| - 1] == Unlines(lines) + p;
      assert s[|s| - 1] == partial[|partial| - 1] && partial[|partial| - 1] in partial;
      assert partial == p + [partial[|partial| - 1]];
    } else if lines != [] {
      var last := lines[|lines| - 1];
      var front := lines[..|lines| - 1];
      SplitUnique(front, last);
      assert s == Unlines(front) + last + [NEWLINE];
      assert s[..|s| - 1] == Unlines(front) + last;
      assert lines == front + [last];
    } else {
      assert s == [];
    }
  }

  /** Appending bytes: what was complete stays, and only the partial line is continued. */
  lemma {:induction false} SplitAppend(a: Bytes, b: Bytes)
    ensures Lines(a + b) == Lines(a) + Lines(Partial(a) + b)
    ensures Partial(a + b) == Partial(Partial(a) + b)
  {
    if b == [] {
      assert a + b == a && Partial(a) + b == Partial(a);
      SplitRebuilds(a);
      NoLinesWithoutNewline(Partial(a));
    } else {
      var init := b[..|b| - 1];
      SplitAppend(a, init);
      LastAppended(a, b);
      LastAppended(Partial(a), b);
      SplitStep(a + b);
      SplitStep(Partial(a) + b);
    }
  }

  lemma LastAppended(a: Bytes, b: Bytes)
    requires b != []
    ensures (a + b)[..|a + b| - 1] == a + b[..|b| - 1] && (a + b)[|a + b| - 1] == b[|b| - 1]
  {
  }

  lemma {:induction false} NoLinesWithoutNewline(s: Bytes)
    requires NoNewline(s)
    ensures Lines(s) == [] && Partial(s) == s
  {
    if s != [] {
      assert s[|s| - 1] in s;
      NoLinesWithoutNewline(s[..|s| - 1]);
      assert s == s[..|s| - 1] + [s[|s| - 1]];
    }
  }

  /** One more complete line at the front of the unread bytes. */
  lemma SplitFirstLine(line: Bytes, rest: Bytes)
    requires NoNewline(line)
    ensures Lines(line + [NEWLINE] + rest) == [line] + Lines(rest)
    ensures Partial(line + [NEWLINE] + rest) == Partial(rest)
  {
    var head := line + [NEWLINE];
    NoLinesWithoutNewline(line);
    assert head[..|head| - 1] == line;
    assert Lines(head) == [line] && Partial(head) == [];
    SplitAppend(head, rest);
    assert [] + rest == rest;
  }

  /** memchr: the first newline at or after start, relative to start, or -1. */
  method IndexNewline(buf: Bytes, start: nat) returns (i: int)
    requires start <= |buf|
    ensures -1 <= i && start + i < |buf|
    ensures i == -1 ==> NoNewline(buf[start..])
    ensures i >= 0 ==> buf[start + i] == NEWLINE && NoNewline(buf[start..start + i])
  {
    i := 0;
    while start + i < |buf|
      invariant 0 <= i && start + i <= |buf|
      invariant NoNewline(buf[start..start + i])
    {
      if buf[start + i] == NEWLINE {
        return;
      }
      i := i + 1;
    }
    i := -1;
  }

  /** One turn of the splitting loop: the line found at start is the next complete line. */
  lemma NextLine(buf: Bytes, lines: seq<Bytes>, start: nat, end: nat)
    requires start <= end < |buf|
    requires buf[end] == NEWLINE && NoNewline(buf[start..end])
    requires Lines(buf) == lines + Lines(buf[start..]) && Partial(buf) == Partial(buf[start..])
    requires start == |Unlines(lines)|
    ensures Lines(buf) == lines + [buf[start..end]] + Lines(buf[end + 1..])
    ensures Partial(buf) == Partial(buf[end + 1..])
    ensures end + 1 == |Unlines(lines + [buf[start..end]])|
  {
    var line := buf[start..end];
    assert buf[start..] == line + [NEWLINE] + buf[end + 1..];
    SplitFirstLine(line, buf[end + 1..]);
    assert lines + ([line] + Lines(buf[end + 1..])) == lines + [line] + Lines(buf[end + 1..]);
    assert (lines + [line])[..|lines|] == lines;
  }

  /**
    The pump's splitter. A line equal to the last freshly built one reuses it
    (the source shares the string), so the result must be the same lines all the same.
   */
  method SplitCompleteConsumed(buf: Bytes) returns (lines: seq<Bytes>, partial: Bytes, consumed: nat)
    ensures lines == Lines(buf) && partial == Partial(buf)
    ensures consumed + |partial| == |buf|
    ensures consumed == |Unlines(lines)|
  {
    lines := [];
    var start := 0;
    var lastStart, lastLen := -1, 0;
    assert buf[..0] == [];
    assert buf[0..] == buf;
    while true
      invariant 0 <= start <= |buf|
      invariant Lines(buf) == lines + Lines(buf[start..])
      invariant Partial(buf) == Partial(buf[start..])
      invariant start == |Unlines(lines)|
      invariant lastLen > 0 ==> 0 <= lastStart && lastStart + lastLen <= |buf|
      invariant lastLen > 0 ==> lines != [] && lines[|lines| - 1] == buf[lastStart..lastStart + lastLen]
      decreases |buf| - start
    {
      var i := IndexNewline(buf, start);
      if i < 0 {
        break;
      }
      var line := buf[start..start + i];
      NextLine(buf, lines, start, start + i);
      if lastLen == i && lastLen > 0 && line == buf[lastStart..lastStart + lastLen] {
        lines := lines + [lines[|lines| - 1]];
      } else {
        lines := lines + [line];
        lastStart, lastLen := start, i;
      }
      start := start + i + 1;
    }
    NoLinesWithoutNewline(buf[start..]);
    partial := [];
    if start < |buf| {
      partial := buf[start..];
    }
    consumed := start;
  }

  lemma SliceNext(buf: Bytes, start: nat, i: nat)
    requires start <= i < |buf|
    ensures buf[start..i + 1] == buf[start..i] + [buf[i]]
  {
  }

  /** The byte-at-a-time splitter the file-fallback poller uses. */
  method SplitComplete(buf: Bytes) returns (lines: seq<Bytes>, partial: Bytes)
    ensures lines == Lines(buf) && partial == Partial(buf)
  {
    lines := [];
    var start := 0;
    assert buf[..0] == [];
    for i := 0 to |buf|
      invariant 0 <= start <= i
      invariant lines == Lines(buf[..i])
      invariant buf[start..i] == Partial(buf[..i])
    {
      assert buf[..i + 1][..i] == buf[..i];
      SplitStep(buf[..i + 1]);
      if buf[i] == NEWLINE {
        lines := lines + [buf[start..i]];
        start := i + 1;
      } else {
        SliceNext(buf, start, i);
      }
    }
    assert buf[..|buf|] == buf;
    partial := [];
    if start < |buf| {
      partial := buf[start..];
    }
  }
}
