/**
  The tailing pump of one log sink: offset discipline, head-skip past the batch
  cap, and copytruncate rotation with a carried partial line.

  Files are byte sequences. A copy and its truncate are one step, `archives`
  keeps every copy ever made, and I/O fails only where the offset itself makes
  it fail: seeking to a negative position.
 */
module Pump {
  import opened Common
  import opened LogLines

  const MAX_BATCH_BYTES: nat := 0x400_0000
  const DEFAULT_MAX_LINE_BYTES: nat := 0x2000
  const DEFAULT_ROTATE_MAX: nat := 0xA0_0000
  const MIB: nat := 0x10_0000

  /** Lines longer than maxLine are cut; rotateMax <= 0 turns rotation off. */
  datatype Options = Options(maxLine: nat, rotateMax: int)

  predicate Usable(opts: Options) {
    0 < opts.maxLine < MAX_BATCH_BYTES
  }

  /** The sink on disk together with everything the pump remembers and has reported. */
  datatype Tail = Tail(
    live: Option<Bytes>,
    archives: seq<Bytes>,
    offset: int,
    carry: Bytes,
    emitted: seq<Bytes>,
    skips: seq<int>,
    cuts: nat,
    rotations: nat,
    clears: nat)

  const FRESH := Tail(None, [], 0, [], [], [], 0, 0, 0)

  function Take(s: Bytes, n: nat): Bytes {
    if |s| <= n then s else s[..n]
  }

  function Flatten(parts: seq<Bytes>): Bytes {
    if parts == [] then [] else Flatten(parts[..|parts| - 1]) + parts[|parts| - 1]
  }

  function Live(s: Tail): Bytes {
    if s.live.Some? then s.live.value else []
  }

  /** Everything the child ever wrote to the sink. */
  function Written(s: Tail): Bytes {
    Flatten(s.archives) + Live(s)
  }

  // ---------------------------------------------------------------- reading

  datatype ReadResult = ReadError | Read(offset: int, lines: seq<Bytes>, partial: Bytes)

  function ReadNew(file: Bytes, off0: int, prefix: Bytes): ReadResult
    requires |prefix| < MAX_BATCH_BYTES
  {
    var off := if |file| < off0 then 0 else off0;
    if |file| == off then Read(off, [], prefix)
    else if off < 0 then ReadError
    else
      var chunk := prefix + file[off..off + Min(|file| - off, MAX_BATCH_BYTES - |prefix|)];
      var consumed := |chunk| - |Partial(chunk)|;
      Read(if consumed < |prefix| then off else off + consumed - |prefix|, Lines(chunk), Partial(chunk))
  }

  // ------------------------------------------------------------------- tick

  /** Whether this tick moves the live file aside. */
  predicate Rotates(opts: Options, s: Tail, copyOk: bool) {
    opts.rotateMax > 0 && s.live.Some? && |s.live.value| >= opts.rotateMax && copyOk
  }

  /** Bytes this tick finds past the offset; `mid` are those the child appends between stat and open. */
  function Growth(opts: Options, s: Tail, mid: Bytes, copyOk: bool): int {
    var size := if Rotates(opts, s, copyOk) then |Live(s) + mid| else |Live(s)|;
    size - (if |Live(s)| < s.offset then 0 else s.offset)
  }

  /** The guard of the head-skip is not taken: the growth and the carried prefix fit one batch. */
  predicate Fits(opts: Options, s: Tail, mid: Bytes, copyOk: bool) {
    Growth(opts, s, mid, copyOk) <= MAX_BATCH_BYTES - |s.carry|
  }

  /** One wake-up of the pump, start to end. */
  function TickStep(opts: Options, s: Tail, mid: Bytes, copyOk: bool): (t: Tail)
    requires Usable(opts) && |s.carry| <= opts.maxLine
    ensures |t.carry| <= opts.maxLine
  {
    if s.live.None? then
      s.(offset := 0, live := if mid == [] then None else Some(mid))
    else
      var size0 := |s.live.value|;
      var rewritten := size0 < s.offset;
      var off := if rewritten then 0 else s.offset;
      var content := s.live.value + mid;
      var rotated := Rotates(opts, s, copyOk);
      var base := s.(
        live := Some(if rotated then [] else content),
        archives := if rotated then s.archives + [content] else s.archives,
        offset := off,
        clears := if rewritten && size0 == 0 then s.clears + 1 else s.clears);
      if !rotated && size0 == off then base
      else
        var size := if rotated then |content| else size0;
        CaptureFrom(opts, base, content, size, rotated)
  }

  /** The reading half of a tick: skip past the cap, read, take in the outcome. */
  function CaptureFrom(opts: Options, s: Tail, content: Bytes, size: int, rotated: bool): (t: Tail)
    requires Usable(opts) && |s.carry| <= opts.maxLine
    ensures |t.carry| <= opts.maxLine
  {
    var seeked := HeadSkip(s, size);
    Capture(opts, seeked, ReadNew(content, seeked.offset, seeked.carry), rotated)
  }

  /** Past the batch cap the head of the growth is skipped, counted, and the carried prefix with it. */
  function HeadSkip(s: Tail, size: int): Tail {
    if size - s.offset > MAX_BATCH_BYTES - |s.carry| then
      s.(offset := size - MAX_BATCH_BYTES, carry := [], skips := s.skips + [(size - s.offset) / MIB])
    else s
  }

  /** What the tick does with the outcome of its read. */
  function Capture(opts: Options, s: Tail, read: ReadResult, rotated: bool): Tail {
    match read
    case ReadError => s.(offset := 0)
    case Read(offset, lines, partial) =>
      var t := s.(
        offset := offset,
        emitted := s.emitted + lines,
        carry := if lines != [] then [] else s.carry);
      if rotated then
        t.(offset := 0,
           carry := Take(partial, opts.maxLine),
           cuts := if |partial| > opts.maxLine then t.cuts + 1 else t.cuts,
           rotations := t.rotations + 1)
      else t
  }

  // ------------------------------------------------- captured exactly once

  /** A captured line shows its true line on the first maxLine bytes, and whole if it fits. */
  predicate Agrees(got: Bytes, line: Bytes, maxLine: nat) {
    |got| <= |line| && Take(got, maxLine) == Take(line, maxLine)
  }

  predicate AgreeAll(got: seq<Bytes>, lines: seq<Bytes>, maxLine: nat) {
    |got| == |lines| && forall i :: 0 <= i < |got| ==> Agrees(got[i], lines[i], maxLine)
  }

  /** The part of the child's output the pump has taken in. */
  function Seen(s: Tail): Bytes
    requires 0 <= s.offset <= |Live(s)|
  {
    Flatten(s.archives) + Live(s)[..s.offset]
  }

  /**
    Exactly once, in order, none merged or repeated: the emitted lines are those
    of the bytes seen, and the carry is the head of the line still open.
   */
  ghost predicate Tracks(opts: Options, s: Tail) {
    && 0 <= s.offset <= |Live(s)|
    && (s.offset == 0 || s.carry == [])
    && s.carry == Take(Partial(Seen(s)), opts.maxLine)
    && AgreeAll(s.emitted, Lines(Seen(s)), opts.maxLine)
  }

  /** The part of the live file it has not. */
  function Unseen(s: Tail): Bytes
    requires 0 <= s.offset <= |Live(s)|
  {
    Live(s)[s.offset..]
  }

  /** What every state the pump gets into has: an offset inside the file, and a carry only at its start. */
  predicate Settled(opts: Options, s: Tail) {
    && 0 <= s.offset <= |Live(s)|
    && (s.offset == 0 || s.carry == [])
    && NoNewline(s.carry) && |s.carry| <= opts.maxLine
  }

  /** The lines emitted are those of the bytes seen, and the carry is the head of the line still open. */
  ghost predicate Follows(opts: Options, s: Tail, seen: Bytes, emitted: seq<Bytes>) {
    && 0 <= s.offset <= |Live(s)|
    && (s.offset == 0 || s.carry == [])
    && s.carry == Take(Partial(seen), opts.maxLine)
    && AgreeAll(emitted, Lines(seen), opts.maxLine)
  }

  lemma FollowsSettled(opts: Options, s: Tail, seen: Bytes, emitted: seq<Bytes>)
    requires Follows(opts, s, seen, emitted)
    ensures Settled(opts, s)
  {
    SplitRebuilds(seen);
    TakeNoNewline(Partial(seen), opts.maxLine);
  }

  lemma TakeNoNewline(s: Bytes, n: nat)
    requires NoNewline(s)
    ensures NoNewline(Take(s, n)) && |Take(s, n)| <= n
  {
  }

  /** A line no longer than maxLine is captured byte for byte. */
  lemma AgreesExact(got: Bytes, line: Bytes, maxLine: nat)
    requires Agrees(got, line, maxLine) && |line| <= maxLine
    ensures got == line
  {
  }

  /** Splitting carry + seg yields the lines that finishing the open line with seg yields. */
  lemma CaptureChunk(seen: Bytes, carry: Bytes, seg: Bytes, maxLine: nat, emitted: seq<Bytes>)
    requires carry == Take(Partial(seen), maxLine)
    requires AgreeAll(emitted, Lines(seen), maxLine)
    ensures AgreeAll(emitted + Lines(carry + seg), Lines(seen + seg), maxLine)
    ensures Take(Partial(carry + seg), maxLine) == Take(Partial(seen + seg), maxLine)
    ensures Lines(carry + seg) == [] ==>
      Partial(carry + seg) == carry + seg && Lines(seen + seg) == Lines(seen)
    ensures Lines(carry + seg) != [] ==>
      Partial(carry + seg) == Partial(seen + seg) && |Partial(seen + seg)| < |seg|
  {
    SplitRebuilds(seen);
    SplitAppend(seen, seg);
    CaptureOpen(Partial(seen), carry, seg, maxLine);
  }

  /** The same for the open line alone. */
  lemma CaptureOpen(open: Bytes, carry: Bytes, seg: Bytes, maxLine: nat)
    requires carry == Take(open, maxLine) && NoNewline(open)
    ensures AgreeAll(Lines(carry + seg), Lines(open + seg), maxLine)
    ensures Take(Partial(carry + seg), maxLine) == Take(Partial(open + seg), maxLine)
    ensures Lines(carry + seg) == [] ==> Partial(carry + seg) == carry + seg
    ensures Lines(carry + seg) != [] ==>
      Partial(carry + seg) == Partial(open + seg) && |Partial(open + seg)| < |seg|
  {
    assert NoNewline(carry);
    if NoNewline(seg) {
      NoLinesWithoutNewline(carry + seg);
      NoLinesWithoutNewline(open + seg);
      TakeAppend(open, seg, maxLine);
    } else {
      var a, b := AtFirstNewline(seg);
      assert carry + seg == (carry + a) + [NEWLINE] + b;
      assert open + seg == (open + a) + [NEWLINE] + b;
      SplitFirstLine(carry + a, b);
      SplitFirstLine(open + a, b);
      TakeAppend(open, a, maxLine);
      AgreeCons(carry + a, open + a, Lines(b), maxLine);
      SplitRebuilds(b);
    }
  }

  lemma AgreeCons(got: Bytes, line: Bytes, rest: seq<Bytes>, maxLine: nat)
    requires Agrees(got, line, maxLine)
    ensures AgreeAll([got] + rest, [line] + rest, maxLine)
  {
  }

  lemma TakeAppend(open: Bytes, seg: Bytes, n: nat)
    ensures Take(Take(open, n) + seg, n) == Take(open + seg, n)
  {
  }

  lemma {:induction false} AtFirstNewline(s: Bytes) returns (a: Bytes, b: Bytes)
    requires !NoNewline(s)
    ensures s == a + [NEWLINE] + b && NoNewline(a)
  {
    if s[0] == NEWLINE {
      a, b := [], s[1..];
    } else {
      assert s == [s[0]] + s[1..];
      var a', b' := AtFirstNewline(s[1..]);
      a, b := [s[0]] + a', b';
    }
  }

  /** The consumed prefix of a chunk is exactly its lines written back. */
  lemma ConsumedPrefix(seen: Bytes)
    ensures |Partial(seen)| <= |seen|
    ensures Lines(seen[..|seen| - |Partial(seen)|]) == Lines(seen)
    ensures Partial(seen[..|seen| - |Partial(seen)|]) == []
  {
    SplitRebuilds(seen);
    SplitUnique(Lines(seen), []);
    assert seen[..|seen| - |Partial(seen)|] == Unlines(Lines(seen)) + [];
  }

  /** A tick that finds nothing to read. */
  lemma QuietTick(opts: Options, s: Tail, mid: Bytes, copyOk: bool)
    requires Usable(opts) && Settled(opts, s)
    requires s.live.None? || (!Rotates(opts, s, copyOk) && |s.live.value| == s.offset)
    ensures var t := TickStep(opts, s, mid, copyOk);
      t.(live := s.live) == s && Live(t) == Live(s) + mid
  {
  }

  /** What the copied-aside branch of a tick leaves, in terms of the bytes read. */
  lemma RotatedReadStep(opts: Options, s: Tail, mid: Bytes, copyOk: bool, seg: Bytes)
    requires Usable(opts) && Settled(opts, s) && Fits(opts, s, mid, copyOk)
    requires Rotates(opts, s, copyOk) && seg == (s.live.value + mid)[s.offset..]
    ensures var t := TickStep(opts, s, mid, copyOk);
      && t.live == Some([]) && t.offset == 0
      && t.emitted == s.emitted + Lines(s.carry + seg)
      && t.carry == Take(Partial(s.carry + seg), opts.maxLine)
      && t.skips == s.skips && t.clears == s.clears
  {
    var content := s.live.value + mid;
    assert s.offset + Min(|content| - s.offset, MAX_BATCH_BYTES - |s.carry|) == |content|;
    assert content[s.offset..|content|] == seg;
    if |content| == s.offset {
      assert s.carry + seg == s.carry;
      NoLinesWithoutNewline(s.carry);
    }
  }

  /** What the live-file branch of a tick leaves, in terms of the bytes read. */
  lemma LiveReadStep(opts: Options, s: Tail, mid: Bytes, copyOk: bool, content: Bytes, seg: Bytes)
    requires Usable(opts) && Settled(opts, s) && Fits(opts, s, mid, copyOk)
    requires s.live.Some? && !Rotates(opts, s, copyOk) && |s.live.value| != s.offset
    requires content == s.live.value + mid
    requires seg == content[s.offset..s.offset + Min(|content| - s.offset, MAX_BATCH_BYTES - |s.carry|)]
    ensures TickStep(opts, s, mid, copyOk) == AfterLiveRead(s, content, seg)
  {
    var base := s.(live := Some(content));
    LiveTickReads(opts, s, mid, copyOk, base);
    assert HeadSkip(base, |s.live.value|) == base;
  }

  lemma LiveTickReads(opts: Options, s: Tail, mid: Bytes, copyOk: bool, base: Tail)
    requires Usable(opts) && Settled(opts, s)
    requires s.live.Some? && !Rotates(opts, s, copyOk) && |s.live.value| != s.offset
    requires base == s.(live := Some(s.live.value + mid))
    ensures TickStep(opts, s, mid, copyOk) == CaptureFrom(opts, base, s.live.value + mid, |s.live.value|, false)
  {
  }

  function AfterLiveRead(s: Tail, content: Bytes, seg: Bytes): Tail {
    var chunk := s.carry + seg;
    s.(live := Some(content),
       offset := if |seg| < |Partial(chunk)| then s.offset else s.offset + |seg| - |Partial(chunk)|,
       emitted := s.emitted + Lines(chunk),
       carry := if Lines(chunk) != [] then [] else s.carry)
  }

  /** Reading on from the copied-aside file. */
  lemma RotatedFollows(opts: Options, s: Tail, t: Tail, seen: Bytes, n: nat, seg: Bytes)
    requires n <= |s.emitted| && Follows(opts, s, seen, s.emitted[n..])
    requires t.live == Some([]) && t.offset == 0
    requires t.emitted == s.emitted + Lines(s.carry + seg)
    requires t.carry == Take(Partial(s.carry + seg), opts.maxLine)
    ensures Follows(opts, t, seen + seg, t.emitted[n..])
  {
    CaptureChunk(seen, s.carry, seg, opts.maxLine, s.emitted[n..]);
    DropFrom(s.emitted, Lines(s.carry + seg), n);
  }

  lemma DropFrom<T>(a: seq<T>, b: seq<T>, n: nat)
    requires n <= |a|
    ensures (a + b)[n..] == a[n..] + b
  {
  }

  /** Reading on from the live file: up to the last newline read, or nothing. */
  lemma LiveFollows(opts: Options, s: Tail, seen: Bytes, n: nat, content: Bytes, seg: Bytes) returns (now: Bytes)
    requires n <= |s.emitted| && Follows(opts, s, seen, s.emitted[n..])
    requires s.offset + |seg| <= |content| && seg == content[s.offset..s.offset + |seg|]
    ensures var t := AfterLiveRead(s, content, seg);
      && n <= |t.emitted| && Follows(opts, t, now, t.emitted[n..])
      && now + Unseen(t) == seen + content[s.offset..]
      && (s.offset + |seg| == |content| ==> Lines(now + Unseen(t)) == Lines(now))
  {
    var t := AfterLiveRead(s, content, seg);
    CaptureChunk(seen, s.carry, seg, opts.maxLine, s.emitted[n..]);
    DropFrom(s.emitted, Lines(s.carry + seg), n);
    if Lines(s.carry + seg) == [] {
      now := seen;
      OpenRead(s, content, seg);
      OpenFollows(opts, s, t, s.emitted[n..], seen, content, seg);
    } else {
      now := ConsumedFollows(opts, t, t.emitted[n..], seen, s.offset, content, seg);
    }
  }

  lemma OpenFollows(opts: Options, s: Tail, t: Tail, emitted: seq<Bytes>, seen: Bytes, content: Bytes, seg: Bytes)
    requires Follows(opts, s, seen, emitted) && Lines(seen + seg) == Lines(seen)
    requires s.offset + |seg| <= |content| && seg == content[s.offset..s.offset + |seg|]
    requires t == s.(live := Some(content))
    ensures Follows(opts, t, seen, emitted)
    ensures s.offset + |seg| == |content| ==> Lines(seen + Unseen(t)) == Lines(seen)
  {
    WholeTail(content, s.offset, seg);
  }

  /** Once a line is closed, what is taken in ends just after the last newline read. */
  lemma ConsumedFollows(opts: Options, t: Tail, emitted: seq<Bytes>, seen: Bytes, offset: nat,
                        content: Bytes, seg: Bytes)
    returns (now: Bytes)
    requires offset + |seg| <= |content| && seg == content[offset..offset + |seg|]
    requires |Partial(seen + seg)| <= |seg| && AgreeAll(emitted, Lines(seen + seg), opts.maxLine)
    requires t.live == Some(content) && t.offset == offset + |seg| - |Partial(seen + seg)| && t.carry == []
    ensures Follows(opts, t, now, emitted)
    ensures now + Unseen(t) == seen + content[offset..]
    ensures offset + |seg| == |content| ==> Lines(now + Unseen(t)) == Lines(now)
  {
    var all := seen + seg;
    var rest := |Partial(all)|;
    ConsumedPrefix(all);
    now := all[..|all| - rest];
    SeenSplits(seen, content, offset, seg, rest);
  }

  lemma WholeTail(content: Bytes, offset: nat, seg: Bytes)
    requires offset + |seg| <= |content| && seg == content[offset..offset + |seg|]
    ensures offset + |seg| == |content| ==> content[offset..] == seg
  {
  }

  /** A read that closed no line leaves all but the file as it was. */
  lemma OpenRead(s: Tail, content: Bytes, seg: Bytes)
    requires s.offset == 0 || s.carry == []
    requires Lines(s.carry + seg) == [] && Partial(s.carry + seg) == s.carry + seg
    ensures AfterLiveRead(s, content, seg) == s.(live := Some(content))
  {
    assert s.emitted + [] == s.emitted;
  }

  /** Bytes seen and bytes not seen make up the same whole, wherever the line is drawn. */
  lemma SeenSplits(seen: Bytes, content: Bytes, offset: nat, seg: Bytes, rest: nat)
    requires rest <= |seg| && offset + |seg| <= |content| && seg == content[offset..offset + |seg|]
    ensures var all := seen + seg;
      all[..|all| - rest] + content[offset + |seg| - rest..] == seen + content[offset..]
    ensures offset + |seg| == |content| ==> content[offset..] == seg
  {
    var k := |seg| - rest;
    TailSplits(content, offset, seg, k);
    HeadSplits(seen, seg, k);
    Reassociate(seen, seg[..k], content[offset + k..]);
  }

  lemma TailSplits(content: Bytes, offset: nat, seg: Bytes, k: nat)
    requires k <= |seg| && offset + |seg| <= |content| && seg == content[offset..offset + |seg|]
    ensures content[offset..] == seg[..k] + content[offset + k..]
    ensures offset + |seg| == |content| ==> content[offset..] == seg
  {
  }

  lemma HeadSplits(seen: Bytes, seg: Bytes, k: nat)
    requires k <= |seg|
    ensures (seen + seg)[..|seen| + k] == seen + seg[..k]
    ensures k == 0 ==> (seen + seg)[..|seen| + k] == seen
  {
  }

  lemma AppendedTail(file: Bytes, mid: Bytes, offset: nat)
    requires offset <= |file|
    ensures (file + mid)[offset..] == file[offset..] + mid
  {
  }

  /**
    One tick, whatever lands between stat and open and whether or not it
    rotates, goes on from the bytes seen without losing or repeating any, as
    long as the head-skip guard is not taken; and a tick with nothing landing in
    between leaves no complete line behind.
   */
  lemma TickFollows(opts: Options, s: Tail, seen: Bytes, n: nat, mid: Bytes, copyOk: bool) returns (now: Bytes)
    requires Usable(opts) && n <= |s.emitted| && Follows(opts, s, seen, s.emitted[n..])
    requires |s.carry| <= opts.maxLine && Fits(opts, s, mid, copyOk)
    ensures var t := TickStep(opts, s, mid, copyOk);
      && n <= |t.emitted| && Follows(opts, t, now, t.emitted[n..])
      && now + Unseen(t) == seen + Unseen(s) + mid
      && (mid == [] ==> Lines(now + Unseen(t)) == Lines(now))
      && t.skips == s.skips && t.clears == s.clears
  {
    FollowsSettled(opts, s, seen, s.emitted[n..]);
    var t := TickStep(opts, s, mid, copyOk);
    if s.live.None? || (!Rotates(opts, s, copyOk) && |s.live.value| == s.offset) {
      now := seen;
      QuietTick(opts, s, mid, copyOk);
      QuietFollows(opts, s, t, seen, n, mid);
    } else if Rotates(opts, s, copyOk) {
      var seg := (s.live.value + mid)[s.offset..];
      now := seen + seg;
      RotatedReadStep(opts, s, mid, copyOk, seg);
      RotatedFollows(opts, s, t, seen, n, seg);
      GrowsBy(s, seen, mid);
      assert Unseen(t) == [] && now + [] == now;
    } else {
      now := LiveTickFollows(opts, s, t, seen, n, mid, copyOk);
    }
  }

  lemma QuietFollows(opts: Options, s: Tail, t: Tail, seen: Bytes, n: nat, mid: Bytes)
    requires n <= |s.emitted| && Follows(opts, s, seen, s.emitted[n..])
    requires |Live(s)| == s.offset && t.(live := s.live) == s && Live(t) == Live(s) + mid
    ensures n <= |t.emitted| && Follows(opts, t, seen, t.emitted[n..])
    ensures seen + Unseen(t) == seen + Unseen(s) + mid
    ensures mid == [] ==> seen + Unseen(t) == seen
    ensures t.skips == s.skips && t.clears == s.clears
  {
    assert t.emitted == s.emitted && t.offset == s.offset && t.carry == s.carry;
    assert Unseen(s) == [] && Unseen(t) == mid;
    assert seen + [] == seen;
  }

  lemma LiveTickFollows(opts: Options, s: Tail, t: Tail, seen: Bytes, n: nat, mid: Bytes, copyOk: bool)
    returns (now: Bytes)
    requires Usable(opts) && Settled(opts, s) && Fits(opts, s, mid, copyOk)
    requires n <= |s.emitted| && Follows(opts, s, seen, s.emitted[n..])
    requires s.live.Some? && !Rotates(opts, s, copyOk) && |s.live.value| != s.offset
    requires t == TickStep(opts, s, mid, copyOk)
    ensures n <= |t.emitted| && Follows(opts, t, now, t.emitted[n..])
    ensures now + Unseen(t) == seen + Unseen(s) + mid
    ensures mid == [] ==> Lines(now + Unseen(t)) == Lines(now)
    ensures t.skips == s.skips && t.clears == s.clears
  {
    var content := s.live.value + mid;
    var seg := content[s.offset..s.offset + Min(|content| - s.offset, MAX_BATCH_BYTES - |s.carry|)];
    LiveReadStep(opts, s, mid, copyOk, content, seg);
    now := LiveFollows(opts, s, seen, n, content, seg);
    GrowsBy(s, seen, mid);
  }

  /** Bytes appended to the live file are the end of what has not been seen. */
  lemma GrowsBy(s: Tail, seen: Bytes, mid: Bytes)
    requires s.live.Some? && 0 <= s.offset <= |s.live.value|
    ensures seen + (s.live.value + mid)[s.offset..] == seen + Unseen(s) + mid
  {
    AppendedTail(s.live.value, mid, s.offset);
    Reassociate(seen, Unseen(s), mid);
  }

  /**
    One tick keeps the bookkeeping exact, whatever lands between stat and open,
    whether or not it rotates, as long as the head-skip guard is not taken.
   */
  lemma TickTracks(opts: Options, s: Tail, mid: Bytes, copyOk: bool)
    requires Usable(opts) && Tracks(opts, s) && Fits(opts, s, mid, copyOk)
    ensures var t := TickStep(opts, s, mid, copyOk);
      Tracks(opts, t) && t.skips == s.skips && t.clears == s.clears
  {
    var t := TickStep(opts, s, mid, copyOk);
    assert s.emitted[0..] == s.emitted && t.emitted[0..] == t.emitted;
    var now := TickFollows(opts, s, Seen(s), 0, mid, copyOk);
    WrittenAfterTick(opts, s, mid, copyOk);
    SeenAndUnseen(s);
    SeenAndUnseen(t);
    SamePrefix(now, Seen(t), Unseen(t));
  }

  lemma SeenAndUnseen(s: Tail)
    requires 0 <= s.offset <= |Live(s)|
    ensures Seen(s) + Unseen(s) == Written(s)
  {
    assert Live(s) == Live(s)[..s.offset] + Live(s)[s.offset..];
  }

  lemma SamePrefix(a: Bytes, b: Bytes, c: Bytes)
    requires a + c == b + c
    ensures a == b
  {
    assert |a + c| == |b + c|;
    assert (a + c)[..|a|] == a && (b + c)[..|b|] == b;
  }

  lemma WrittenAfterTick(opts: Options, s: Tail, mid: Bytes, copyOk: bool)
    requires Usable(opts) && |s.carry| <= opts.maxLine
    ensures Written(TickStep(opts, s, mid, copyOk)) == Written(s) + mid
  {
    FilesAfterTick(opts, s, mid, copyOk);
    if s.live.Some? && Rotates(opts, s, copyOk) {
      FlattenAppend(s.archives, s.live.value + mid);
    }
  }

  /** What a tick does to the files. */
  lemma FilesAfterTick(opts: Options, s: Tail, mid: Bytes, copyOk: bool)
    requires Usable(opts) && |s.carry| <= opts.maxLine
    ensures var t := TickStep(opts, s, mid, copyOk);
      if s.live.None? then
        t.archives == s.archives && Live(t) == mid
      else if Rotates(opts, s, copyOk) then
        t.archives == s.archives + [s.live.value + mid] && t.live == Some([])
      else
        t.archives == s.archives && t.live == Some(s.live.value + mid)
  {
  }

  lemma FlattenAppend(parts: seq<Bytes>, last: Bytes)
    ensures Flatten(parts + [last]) == Flatten(parts) + last
  {
    assert (parts + [last])[..|parts|] == parts;
  }

  lemma SeenAfterCopy(s: Tail, mid: Bytes, t: Tail)
    requires s.live.Some? && 0 <= s.offset <= |s.live.value|
    requires t.archives == s.archives + [s.live.value + mid] && t.live == Some([]) && t.offset == 0
    ensures Seen(t) == Written(t) == Seen(s) + (s.live.value + mid)[s.offset..]
  {
    assert t.archives[..|t.archives| - 1] == s.archives;
    var content := s.live.value + mid;
    assert content == s.live.value[..s.offset] + content[s.offset..];
  }

  // ------------------------------------------------------------------- runs

  /** What can happen to a sink: the child appends, or the pump wakes up. */
  datatype Event = Write(data: Bytes) | Wake(mid: Bytes, copyOk: bool)

  function Step(opts: Options, s: Tail, e: Event): (t: Tail)
    requires Usable(opts) && |s.carry| <= opts.maxLine
    ensures |t.carry| <= opts.maxLine
  {
    match e
    case Write(data) => s.(live := Some(Live(s) + data))
    case Wake(mid, copyOk) => TickStep(opts, s, mid, copyOk)
  }

  function Run(opts: Options, s: Tail, events: seq<Event>): (t: Tail)
    requires Usable(opts) && |s.carry| <= opts.maxLine
    ensures |t.carry| <= opts.maxLine
  {
    if events == [] then s
    else Step(opts, Run(opts, s, events[..|events| - 1]), events[|events| - 1])
  }

  /** Everything the child writes in the course of a run. */
  function Output(events: seq<Event>): Bytes {
    if events == [] then []
    else
      var e := events[|events| - 1];
      Output(events[..|events| - 1]) + Appended(e)
  }

  function Appended(e: Event): Bytes {
    if e.Write? then e.data else e.mid
  }

  /** No wake-up of the run takes the head-skip branch. */
  predicate RunFits(opts: Options, s: Tail, events: seq<Event>)
    requires Usable(opts) && |s.carry| <= opts.maxLine
  {
    events == [] ||
    (var front := events[..|events| - 1];
     var e := events[|events| - 1];
     RunFits(opts, s, front) && (e.Wake? ==> Fits(opts, Run(opts, s, front), e.mid, e.copyOk)))
  }

  lemma WriteTracks(opts: Options, s: Tail, data: Bytes)
    requires Usable(opts) && Tracks(opts, s)
    ensures Tracks(opts, Step(opts, s, Write(data)))
    ensures Written(Step(opts, s, Write(data))) == Written(s) + data
  {
    var t := Step(opts, s, Write(data));
    assert Live(t)[..s.offset] == Live(s)[..s.offset];
    assert Seen(t) == Seen(s);
  }

  lemma StepWrites(opts: Options, s: Tail, e: Event)
    requires Usable(opts) && |s.carry| <= opts.maxLine
    ensures Written(Step(opts, s, e)) == Written(s) + Appended(e)
  {
    match e
    case Write(data) => Reassociate(Flatten(s.archives), Live(s), data);
    case Wake(mid, copyOk) => WrittenAfterTick(opts, s, mid, copyOk);
  }

  /** No run loses or invents a byte on disk, whatever the pump makes of it. */
  lemma {:induction false} RunWrites(opts: Options, s: Tail, events: seq<Event>)
    requires Usable(opts) && |s.carry| <= opts.maxLine
    ensures Written(Run(opts, s, events)) == Written(s) + Output(events)
  {
    if events != [] {
      var front, e := events[..|events| - 1], events[|events| - 1];
      RunWrites(opts, s, front);
      StepWrites(opts, Run(opts, s, front), e);
      Reassociate(Written(s), Output(front), Appended(e));
    } else {
      assert Written(s) + [] == Written(s);
    }
  }

  lemma StepFollows(opts: Options, s: Tail, seen: Bytes, n: nat, e: Event) returns (now: Bytes)
    requires Usable(opts) && n <= |s.emitted| && Follows(opts, s, seen, s.emitted[n..]) && |s.carry| <= opts.maxLine
    requires e.Wake? ==> Fits(opts, s, e.mid, e.copyOk)
    ensures var t := Step(opts, s, e);
      && n <= |t.emitted| && Follows(opts, t, now, t.emitted[n..])
      && now + Unseen(t) == seen + Unseen(s) + Appended(e)
      && t.skips == s.skips && t.clears == s.clears
  {
    match e
    case Write(data) =>
      now := seen;
      var t := Step(opts, s, e);
      assert Unseen(t) == Unseen(s) + data;
      Reassociate(seen, Unseen(s), data);
    case Wake(mid, copyOk) =>
      now := TickFollows(opts, s, seen, n, mid, copyOk);
  }

  /**
    Every run within the cap goes on from the bytes seen: seen and unseen bytes
    together grow by what the child writes, none lost or repeated, and the lines
    emitted since any earlier point stay those of the bytes seen.
   */
  lemma {:induction false} RunFollows(opts: Options, s: Tail, seen: Bytes, n: nat, events: seq<Event>)
    returns (now: Bytes)
    requires Usable(opts) && n <= |s.emitted| && Follows(opts, s, seen, s.emitted[n..]) && |s.carry| <= opts.maxLine
    requires RunFits(opts, s, events)
    ensures var t := Run(opts, s, events);
      && n <= |t.emitted| && Follows(opts, t, now, t.emitted[n..])
      && now + Unseen(t) == seen + Unseen(s) + Output(events)
      && t.skips == s.skips && t.clears == s.clears
  {
    if events == [] {
      now := seen;
      assert seen + Unseen(s) + [] == seen + Unseen(s);
    } else {
      var front, e := events[..|events| - 1], events[|events| - 1];
      var sofar := RunFollows(opts, s, seen, n, front);
      now := StepFollows(opts, Run(opts, s, front), sofar, n, e);
      Reassociate(seen + Unseen(s), Output(front), Appended(e));
    }
  }

  /**
    Capture is exactly once over every interleaving of appends and wake-ups,
    rotating or not: what has been emitted is the newline split of a prefix of
    the child's output, and one quiet wake-up makes that the whole output.
   */
  lemma CaptureExactlyOnce(opts: Options, events: seq<Event>, copyOk: bool)
    requires Usable(opts) && RunFits(opts, FRESH, events)
    ensures var s := Run(opts, FRESH, events);
      && Tracks(opts, s)
      && Seen(s) <= Output(events)
      && AgreeAll(s.emitted, Lines(Seen(s)), opts.maxLine)
      && s.skips == [] && s.clears == 0
      && (Fits(opts, s, [], copyOk) ==>
            AgreeAll(TickStep(opts, s, [], copyOk).emitted, Lines(Output(events)), opts.maxLine))
  {
    var s := Run(opts, FRESH, events);
    var seen := RunFollows(opts, FRESH, [], 0, events);
    RunWrites(opts, FRESH, events);
    assert s.emitted[0..] == s.emitted && [] + Output(events) == Output(events);
    SeenAndUnseen(s);
    SamePrefix(seen, Seen(s), Unseen(s));
    QuietWakeCatchesUp(opts, s, copyOk);
  }

  /** A wake-up with nothing landing in between has emitted every complete line there is. */
  lemma QuietWakeCatchesUp(opts: Options, s: Tail, copyOk: bool)
    requires Usable(opts) && Tracks(opts, s)
    ensures Fits(opts, s, [], copyOk) ==>
      AgreeAll(TickStep(opts, s, [], copyOk).emitted, Lines(Written(s)), opts.maxLine)
  {
    if Fits(opts, s, [], copyOk) {
      assert s.emitted[0..] == s.emitted;
      var t := TickStep(opts, s, [], copyOk);
      assert t.emitted[0..] == t.emitted;
      var now := TickFollows(opts, s, Seen(s), 0, [], copyOk);
      SeenAndUnseen(s);
      assert Written(s) + [] == Written(s);
    }
  }

  // ---------------------------------------------------------------- rotation

  /** A wake-up moves the file aside if and only if it has reached the threshold and can be copied. */
  lemma RotatesAtThreshold(opts: Options, s: Tail, mid: Bytes, copyOk: bool)
    requires Usable(opts) && |s.carry| <= opts.maxLine && s.live.Some?
    ensures var t := TickStep(opts, s, mid, copyOk);
      && (t.archives != s.archives <==> opts.rotateMax > 0 && |s.live.value| >= opts.rotateMax && copyOk)
      && (opts.rotateMax > 0 && copyOk ==> |Live(t)| < opts.rotateMax + |mid|)
  {
    FilesAfterTick(opts, s, mid, copyOk);
  }

  /** It is counted, and so is the line it cuts: one open for longer than a line may be. */
  lemma RotationCounted(opts: Options, s: Tail, mid: Bytes, copyOk: bool)
    requires Usable(opts) && Settled(opts, s) && Fits(opts, s, mid, copyOk) && s.live.Some?
    ensures var t := TickStep(opts, s, mid, copyOk);
      if opts.rotateMax > 0 && |s.live.value| >= opts.rotateMax && copyOk then
        && t.rotations == s.rotations + 1
        && t.cuts == s.cuts + if |Partial(s.carry + (s.live.value + mid)[s.offset..])| > opts.maxLine then 1 else 0
      else t.rotations == s.rotations && t.cuts == s.cuts
  {
    var content := s.live.value + mid;
    var seg := content[s.offset..];
    assert s.offset + Min(|content| - s.offset, MAX_BATCH_BYTES - |s.carry|) >= |content| || !Rotates(opts, s, copyOk);
    assert content[s.offset..|content|] == seg;
    if |content| == s.offset {
      assert s.carry + seg == s.carry;
      NoLinesWithoutNewline(s.carry);
    }
  }

  // --------------------------------------------------------- past the guard

  /**
    When the growth exceeds the batch, the head of it and the carried prefix are
    dropped: only lines of the MAX_BATCH_BYTES before the noted size are emitted.
    The number noted is the whole growth in MiB, 64 more than the bytes passed over.
   */
  lemma HeadSkipKeepsTail(opts: Options, s: Tail, content: Bytes, size: int, rotated: bool)
    requires Usable(opts) && |s.carry| <= opts.maxLine
    requires MAX_BATCH_BYTES <= size <= |content| && size - s.offset > MAX_BATCH_BYTES - |s.carry|
    ensures var start := size - MAX_BATCH_BYTES;
      var t := CaptureFrom(opts, s, content, size, rotated);
      && t.emitted == s.emitted + Lines(content[start..start + MAX_BATCH_BYTES])
      && t.skips == s.skips + [(size - s.offset) / MIB]
      && (size - s.offset) / MIB == (start - s.offset) / MIB + 64
  {
    ReadBatch(content, size - MAX_BATCH_BYTES);
  }

  lemma ReadBatch(content: Bytes, start: nat)
    requires start + MAX_BATCH_BYTES <= |content|
    ensures ReadNew(content, start, []).Read?
    ensures ReadNew(content, start, []).lines == Lines(content[start..start + MAX_BATCH_BYTES])
  {
    assert Min(|content| - start, MAX_BATCH_BYTES) == MAX_BATCH_BYTES;
    assert [] + content[start..start + MAX_BATCH_BYTES] == content[start..start + MAX_BATCH_BYTES];
  }

  // --------------------------------------------------------------- recovery

  /** Every step leaves the pump fit to go on, skipped head and failed seek included, and takes back no line. */
  lemma StepSettles(opts: Options, s: Tail, e: Event)
    requires Usable(opts) && Settled(opts, s)
    ensures Settled(opts, Step(opts, s, e)) && s.emitted <= Step(opts, s, e).emitted
  {
    if e.Wake? && s.live.Some? {
      var content := s.live.value + e.mid;
      var rotated := Rotates(opts, s, e.copyOk);
      var base := s.(
        live := Some(if rotated then [] else content),
        archives := if rotated then s.archives + [content] else s.archives);
      if rotated || |s.live.value| != s.offset {
        var size := if rotated then |content| else |s.live.value|;
        CaptureSettles(opts, base, content, size, rotated);
      }
    }
  }

  lemma CaptureSettles(opts: Options, s: Tail, content: Bytes, size: nat, rotated: bool)
    requires Usable(opts) && 0 <= s.offset <= size <= |content| && (s.offset == 0 || s.carry == [])
    requires NoNewline(s.carry) && |s.carry| <= opts.maxLine
    requires s.live == Some(if rotated then [] else content)
    ensures var t := CaptureFrom(opts, s, content, size, rotated);
      Settled(opts, t) && s.emitted <= t.emitted
  {
    var seeked := HeadSkip(s, size);
    ReadSettles(content, seeked.offset, seeked.carry);
    var read := ReadNew(content, seeked.offset, seeked.carry);
    if read.Read? {
      TakeNoNewline(read.partial, opts.maxLine);
    }
  }

  /** Where a read ends up, from any offset. */
  lemma ReadSettles(file: Bytes, off: int, prefix: Bytes)
    requires off <= |file| && |prefix| < MAX_BATCH_BYTES && NoNewline(prefix)
    ensures var read := ReadNew(file, off, prefix);
      if read.ReadError? then off < 0
      else
        && off <= read.offset <= |file| && NoNewline(read.partial)
        && (read.lines == [] ==> read.offset == off)
        && off >= 0
  {
    if off >= 0 && |file| != off {
      var seg := file[off..off + Min(|file| - off, MAX_BATCH_BYTES - |prefix|)];
      PartialFits(prefix + seg);
    }
  }

  lemma PartialFits(chunk: Bytes)
    ensures |Partial(chunk)| <= |chunk| && NoNewline(Partial(chunk))
    ensures Lines(chunk) == [] ==> Partial(chunk) == chunk
  {
    SplitRebuilds(chunk);
    if Lines(chunk) == [] {
      assert Unlines([]) + Partial(chunk) == Partial(chunk);
    }
  }

  // ------------------------------------------------ files changed from outside

  /** What can happen to a sink when others touch it too: it is emptied, or removed. */
  datatype Deed = Does(e: Event) | Truncates | Removes

  function After(opts: Options, s: Tail, d: Deed): (t: Tail)
    requires Usable(opts) && |s.carry| <= opts.maxLine
    ensures |t.carry| <= opts.maxLine
  {
    match d
    case Does(e) => Step(opts, s, e)
    case Truncates => s.(live := if s.live.Some? then Some([]) else None)
    case Removes => s.(live := None)
  }

  function RunDeeds(opts: Options, s: Tail, deeds: seq<Deed>): (t: Tail)
    requires Usable(opts) && |s.carry| <= opts.maxLine
    ensures |t.carry| <= opts.maxLine
  {
    if deeds == [] then s
    else After(opts, RunDeeds(opts, s, deeds[..|deeds| - 1]), deeds[|deeds| - 1])
  }

  /** Settled, but for a file that may have become shorter than the offset. */
  predicate Loose(opts: Options, s: Tail) {
    && 0 <= s.offset
    && (s.offset == 0 || s.carry == [])
    && NoNewline(s.carry) && |s.carry| <= opts.maxLine
  }

  /** A file found shorter than the offset is read from its start; that it was found empty is noted. */
  lemma ShrunkStartsOver(opts: Options, s: Tail, mid: Bytes, copyOk: bool)
    requires Usable(opts) && Loose(opts, s) && s.live.Some? && |s.live.value| < s.offset
    ensures Settled(opts, s.(offset := 0))
    ensures TickStep(opts, s, mid, copyOk) ==
      TickStep(opts, s.(offset := 0), mid, copyOk).(clears := s.clears + if s.live.value == [] then 1 else 0)
  {
  }

  /**
    The next wake-up after an outside truncation emits exactly the complete lines
    of the new content, all there was when it looked and perhaps more, and goes
    on from there.
   */
  lemma ShrunkWakeCaptures(opts: Options, s: Tail, mid: Bytes, copyOk: bool) returns (k: nat)
    requires Usable(opts) && Loose(opts, s) && s.live.Some? && |s.live.value| < s.offset
    requires Fits(opts, s, mid, copyOk)
    ensures var t, due := TickStep(opts, s, mid, copyOk), s.live.value + mid;
      && |s.live.value| <= k <= |due| && t.emitted == s.emitted + Lines(due[..k])
      && t.clears == s.clears + (if s.live.value == [] then 1 else 0) && t.skips == s.skips
      && Settled(opts, t) && |Unseen(t)| <= |due|
      && Follows(opts, t, due[..|due| - |Unseen(t)|], Lines(due[..k]))
  {
    var again := s.(offset := 0);
    ShrunkStartsOver(opts, s, mid, copyOk);
    var n, due := |s.emitted|, s.live.value + mid;
    var t := TickStep(opts, again, mid, copyOk);
    CarryFollows(opts, again);
    var now := TickFollows(opts, again, [], n, mid, copyOk);
    FollowsSettled(opts, t, now, t.emitted[n..]);
    assert [] + Unseen(again) + mid == due;
    assert due[..|due| - |Unseen(t)|] == now;
    k := FromTheStart(opts, again, mid, copyOk);
    assert (s.emitted + Lines(due[..k]))[n..] == Lines(due[..k]);
  }

  /** What a wake-up at offset 0 with nothing carried reads. */
  lemma FromTheStart(opts: Options, s: Tail, mid: Bytes, copyOk: bool) returns (k: nat)
    requires Usable(opts) && Settled(opts, s) && s.offset == 0 && s.carry == [] && s.live.Some?
    requires Fits(opts, s, mid, copyOk)
    ensures var due := s.live.value + mid;
      |s.live.value| <= k <= |due| && TickStep(opts, s, mid, copyOk).emitted == s.emitted + Lines(due[..k])
  {
    var due := s.live.value + mid;
    if Rotates(opts, s, copyOk) {
      k := |due|;
      assert due[0..] == due[..k] && [] + due == due;
      RotatedReadStep(opts, s, mid, copyOk, due[0..]);
    } else if |s.live.value| == 0 {
      k := 0;
      QuietTick(opts, s, mid, copyOk);
      assert s.emitted + [] == s.emitted;
    } else {
      k := Min(|due|, MAX_BATCH_BYTES);
      assert [] + due[0..0 + k] == due[..k];
      LiveReadStep(opts, s, mid, copyOk, due, due[0..0 + k]);
    }
  }

  /** A file that is gone is looked for from its start when it is back. */
  lemma GoneStartsOver(opts: Options, s: Tail, mid: Bytes, copyOk: bool)
    requires Usable(opts) && Loose(opts, s) && s.live.None?
    ensures var t := TickStep(opts, s, mid, copyOk);
      t.offset == 0 && Unseen(t) == mid && t.emitted == s.emitted && t.carry == s.carry && t.clears == s.clears
  {
  }

  /** Whatever is done to a sink, the pump stays in such a state, and takes back no line; a wake-up settles it. */
  lemma DeedKeepsLoose(opts: Options, s: Tail, d: Deed)
    requires Usable(opts) && Loose(opts, s)
    ensures Loose(opts, After(opts, s, d)) && s.emitted <= After(opts, s, d).emitted
    ensures d.Does? && d.e.Wake? ==> Settled(opts, After(opts, s, d))
    ensures d.Does? && Settled(opts, s) ==> Settled(opts, After(opts, s, d))
  {
    if d.Does? && d.e.Wake? && s.live.Some? && |s.live.value| < s.offset {
      ShrunkStartsOver(opts, s, d.e.mid, d.e.copyOk);
      StepSettles(opts, s.(offset := 0), d.e);
    } else if d.Does? && Settled(opts, s) {
      StepSettles(opts, s, d.e);
    }
  }

  lemma {:induction false} DeedsKeepLoose(opts: Options, deeds: seq<Deed>)
    requires Usable(opts)
    ensures Loose(opts, RunDeeds(opts, FRESH, deeds))
    ensures (forall d :: d in deeds ==> d.Does?) ==> Settled(opts, RunDeeds(opts, FRESH, deeds))
  {
    if deeds != [] {
      var front, d := deeds[..|deeds| - 1], deeds[|deeds| - 1];
      assert forall e :: e in front ==> e in deeds;
      DeedsKeepLoose(opts, front);
      DeedKeepsLoose(opts, RunDeeds(opts, FRESH, front), d);
    }
  }

  /** What is left to capture: the carried head of a line, the unread bytes, and what the child writes from here on. */
  function Left(s: Tail, events: seq<Event>): Bytes
    requires 0 <= s.offset <= |Live(s)|
  {
    s.carry + Unseen(s) + Output(events)
  }

  /**
    Capture recovers: whatever happened before, heads skipped, seeks failed and
    the file emptied or removed included, from any state in which the file is not
    shorter than the offset a run within the cap captures what is left exactly
    once, up to the last newline taken in, and one quiet wake-up makes that all
    of it. Every wake-up leaves such a state.
   */
  lemma CaptureRecovers(opts: Options, before: seq<Deed>, after: seq<Event>, copyOk: bool)
    requires Usable(opts) && RunFits(opts, RunDeeds(opts, FRESH, before), after)
    requires var s := RunDeeds(opts, FRESH, before);
      s.offset <= |Live(s)|
    ensures var s := RunDeeds(opts, FRESH, before);
      Settled(opts, s) && Recovered(opts, s, Run(opts, s, after), Left(s, after), copyOk)
  {
    DeedsKeepLoose(opts, before);
    RecoversFrom(opts, RunDeeds(opts, FRESH, before), after, copyOk);
  }

  /**
    The lines emitted from s to t are those of `left` as far as it was taken in,
    and those of all of it one quiet wake-up later.
   */
  ghost predicate Recovered(opts: Options, s: Tail, t: Tail, left: Bytes, copyOk: bool)
    requires Usable(opts)
  {
    && Settled(opts, t) && s.emitted <= t.emitted && |Unseen(t)| <= |left|
    && AgreeAll(t.emitted[|s.emitted|..], Lines(left[..|left| - |Unseen(t)|]), opts.maxLine)
    && (Fits(opts, t, [], copyOk) ==>
          var u := TickStep(opts, t, [], copyOk);
          s.emitted <= u.emitted && AgreeAll(u.emitted[|s.emitted|..], Lines(left), opts.maxLine))
  }

  lemma RecoversFrom(opts: Options, s: Tail, after: seq<Event>, copyOk: bool)
    requires Usable(opts) && Settled(opts, s) && RunFits(opts, s, after)
    ensures Recovered(opts, s, Run(opts, s, after), Left(s, after), copyOk)
  {
    var n := |s.emitted|;
    var left := Left(s, after);
    var t := Run(opts, s, after);
    CarryFollows(opts, s);
    var seen := RunFollows(opts, s, s.carry, n, after);
    FollowsSettled(opts, t, seen, t.emitted[n..]);
    EmittedGrows(opts, s, after);
    assert left[..|left| - |Unseen(t)|] == seen;
    if Fits(opts, t, [], copyOk) {
      var now := TickFollows(opts, t, seen, n, [], copyOk);
      StepSettles(opts, t, Wake([], copyOk));
      assert left + [] == left;
    }
  }

  lemma CarryFollows(opts: Options, s: Tail)
    requires Settled(opts, s)
    ensures Follows(opts, s, s.carry, s.emitted[|s.emitted|..])
  {
    NoLinesWithoutNewline(s.carry);
  }

  lemma {:induction false} EmittedGrows(opts: Options, s: Tail, events: seq<Event>)
    requires Usable(opts) && Settled(opts, s)
    ensures Settled(opts, Run(opts, s, events)) && s.emitted <= Run(opts, s, events).emitted
  {
    if events != [] {
      var front := events[..|events| - 1];
      EmittedGrows(opts, s, front);
      StepSettles(opts, Run(opts, s, front), events[|events| - 1]);
    }
  }

  // ------------------------------------------------------- the copy window

  /** A tick during which the child also appends between a copy and its truncate, or after the read. */
  function TickInWindow(opts: Options, s: Tail, mid: Bytes, late: Bytes, copyOk: bool): Tail
    requires Usable(opts) && |s.carry| <= opts.maxLine
  {
    var t := TickStep(opts, s, mid, copyOk);
    if Rotates(opts, s, copyOk) then t else Step(opts, t, Write(late))
  }

  /**
    The truncate takes with it exactly the bytes that land after the copy: the
    rest stays on disk, and the bookkeeping exact.
   */
  lemma WindowLosesExactly(opts: Options, s: Tail, mid: Bytes, late: Bytes, copyOk: bool)
    requires Usable(opts) && Tracks(opts, s) && Fits(opts, s, mid, copyOk)
    ensures |s.carry| <= opts.maxLine
    ensures var t := TickInWindow(opts, s, mid, late, copyOk);
      && Tracks(opts, t)
      && Written(t) == Written(s) + mid + (if Rotates(opts, s, copyOk) then [] else late)
      && (Written(t) == Written(s) + mid + late <==> late == [] || !Rotates(opts, s, copyOk))
  {
    TickTracks(opts, s, mid, copyOk);
    WrittenAfterTick(opts, s, mid, copyOk);
    if Rotates(opts, s, copyOk) {
      assert Written(s) + mid + [] == Written(s) + mid;
      assert |Written(s) + mid + late| == |Written(s) + mid| + |late|;
    } else {
      WriteTracks(opts, TickStep(opts, s, mid, copyOk), late);
    }
  }

  // ------------------------------------------------------- below the cap

  /**
    The cap's contract speaks of growth alone, but the guard also counts the
    carried prefix. While growth is below the cap, the capture stays exact if
    and only if growth and prefix together fit: otherwise the skip target is
    before the start of the file, the seek fails, and the carried prefix (with
    the whole copied-aside file, on a rotating tick) is dropped.
   */
  lemma ExactIffGrowthAndCarryFit(opts: Options, s: Tail, mid: Bytes, copyOk: bool)
    requires Usable(opts) && Tracks(opts, s)
    requires Growth(opts, s, mid, copyOk) < MAX_BATCH_BYTES
    ensures Tracks(opts, TickStep(opts, s, mid, copyOk)) <==>
            Growth(opts, s, mid, copyOk) + |s.carry| <= MAX_BATCH_BYTES
  {
    if Fits(opts, s, mid, copyOk) {
      TickTracks(opts, s, mid, copyOk);
    } else {
      var t := TickStep(opts, s, mid, copyOk);
      var content := Live(s) + mid;
      FailedSeek(opts, s, mid, copyOk);
      SplitRebuilds(Seen(s));
      if Rotates(opts, s, copyOk) {
        SeenAfterCopy(s, mid, t);
        assert content[s.offset..] == content;
        SplitAppend(Seen(s), content);
        SplitRebuilds(Partial(Seen(s)) + content);
        if Tracks(opts, t) {
          assert false;
        }
      } else {
        assert Seen(t) == Seen(s);
      }
    }
  }

  lemma FailedSeek(opts: Options, s: Tail, mid: Bytes, copyOk: bool)
    requires Usable(opts) && Tracks(opts, s) && !Fits(opts, s, mid, copyOk)
    requires Growth(opts, s, mid, copyOk) < MAX_BATCH_BYTES
    ensures s.live.Some? && s.carry != [] && s.offset == 0
    ensures var t := TickStep(opts, s, mid, copyOk);
      && t.carry == [] && t.offset == 0 && t.emitted == s.emitted
      && t.live == Some(if Rotates(opts, s, copyOk) then [] else s.live.value + mid)
      && t.archives == if Rotates(opts, s, copyOk) then s.archives + [s.live.value + mid] else s.archives
  {
  }

  /**
    It happens with the default options: a first rotation carries the head of
    an open line, the child finishes it within less than one batch, and the
    next rotation captures nothing of a file that holds a complete line.
   */
  lemma RotationCanLoseABatch()
    ensures var opts := Options(DEFAULT_MAX_LINE_BYTES, DEFAULT_ROTATE_MAX);
      var head := seq(DEFAULT_ROTATE_MAX, (_: nat) => 97 as byte);
      var rest := seq(MAX_BATCH_BYTES - 2, (_: nat) => 97 as byte) + [NEWLINE];
      var carried := Step(opts, Step(opts, FRESH, Write(head)), Wake([], true));
      var end := Step(opts, Step(opts, carried, Write(rest)), Wake([], true));
      && |rest| < MAX_BATCH_BYTES
      && end.emitted == [] && Live(end) == []
      && |Lines(Written(end))| == 1
  {
    var opts := Options(DEFAULT_MAX_LINE_BYTES, DEFAULT_ROTATE_MAX);
    var head := seq(DEFAULT_ROTATE_MAX, (_: nat) => 97 as byte);
    var body := seq(MAX_BATCH_BYTES - 2, (_: nat) => 97 as byte);
    LostBatch(opts, head, body);
  }

  /** Whatever the bytes: a carried head, then almost a batch that closes its line, then nothing captured. */
  lemma LostBatch(opts: Options, head: Bytes, body: Bytes)
    requires 1 < opts.maxLine < MAX_BATCH_BYTES
    requires 0 < opts.rotateMax <= |head| <= MAX_BATCH_BYTES && opts.maxLine <= |head|
    requires NoNewline(head) && NoNewline(body)
    requires MAX_BATCH_BYTES - opts.maxLine < |body| + 1 < MAX_BATCH_BYTES && opts.rotateMax <= |body| + 1
    ensures var rest := body + [NEWLINE];
      var carried := Step(opts, Step(opts, FRESH, Write(head)), Wake([], true));
      var end := Step(opts, Step(opts, carried, Write(rest)), Wake([], true));
      end.emitted == [] && Live(end) == [] && |Lines(Written(end))| == 1
  {
    var rest := body + [NEWLINE];
    var s1 := Step(opts, FRESH, Write(head));
    assert [] + head == head && [] + rest == rest && rest + [] == rest;
    FirstRotation(opts, head);
    var s2 := Step(opts, s1, Wake([], true));
    var s3 := Step(opts, s2, Write(rest));
    assert s3 == s2.(live := Some(rest));
    CarriedHeadTracks(opts, s3, head);
    AlmostABatch(opts, s3, head, body);
  }

  lemma AlmostABatch(opts: Options, s: Tail, head: Bytes, body: Bytes)
    requires Usable(opts) && Tracks(opts, s)
    requires NoNewline(head) && NoNewline(body)
    requires s.archives == [head] && s.offset == 0 && |s.carry| == opts.maxLine && s.emitted == []
    requires s.live == Some(body + [NEWLINE])
    requires MAX_BATCH_BYTES - opts.maxLine < |body| + 1 < MAX_BATCH_BYTES && 0 < opts.rotateMax <= |body| + 1
    ensures var end := TickStep(opts, s, [], true);
      end.emitted == [] && Live(end) == [] && |Lines(Written(end))| == 1
  {
    var rest := body + [NEWLINE];
    assert rest + [] == rest;
    FailedSeek(opts, s, [], true);
    TwoParts(head, rest);
    assert head + rest + [] == (head + body) + [NEWLINE] + [];
    SplitFirstLine(head + body, []);
  }

  lemma CarriedHeadTracks(opts: Options, s: Tail, head: Bytes)
    requires Usable(opts) && NoNewline(head) && opts.maxLine <= |head|
    requires s.archives == [head] && s.offset == 0 && s.carry == head[..opts.maxLine] && s.emitted == []
    ensures Tracks(opts, s)
  {
    NoLinesWithoutNewline(head);
    TwoParts(head, []);
    assert [head][..0] == [];
    assert Flatten([head]) == Flatten([]) + head == head;
    assert Seen(s) == head + [] == head;
  }

  lemma TwoParts(a: Bytes, b: Bytes)
    ensures Flatten([a, b]) == a + b
  {
    assert [a, b][..1] == [a] && [a][..0] == [];
    assert Flatten([a]) == Flatten([]) + a == a;
    assert Flatten([a, b]) == Flatten([a]) + b;
  }

  /** A first rotation in the middle of a line carries its head and emits nothing. */
  lemma FirstRotation(opts: Options, head: Bytes)
    requires Usable(opts) && 0 < opts.rotateMax <= |head| <= MAX_BATCH_BYTES && opts.maxLine <= |head|
    requires NoNewline(head)
    ensures TickStep(opts, FRESH.(live := Some(head)), [], true) ==
      FRESH.(live := Some([]), archives := [head], carry := head[..opts.maxLine],
             cuts := if |head| > opts.maxLine then 1 else 0, rotations := 1)
  {
    var moved := FRESH.(live := Some([]), archives := [head]);
    FirstRotationReads(opts, head, moved);
    WholeFile(head);
    assert HeadSkip(moved, |head|) == moved;
  }

  lemma FirstRotationReads(opts: Options, head: Bytes, moved: Tail)
    requires Usable(opts) && 0 < opts.rotateMax <= |head|
    requires moved == FRESH.(live := Some([]), archives := [head])
    ensures TickStep(opts, FRESH.(live := Some(head)), [], true) == CaptureFrom(opts, moved, head, |head|, true)
  {
    assert head + [] == head && [] + [head] == [head];
  }

  /** Reading a file without a newline from its start. */
  lemma WholeFile(head: Bytes)
    requires 0 < |head| <= MAX_BATCH_BYTES && NoNewline(head)
    ensures ReadNew(head, 0, []) == Read(0, [], head)
  {
    NoLinesWithoutNewline(head);
    assert head[0..|head|] == head && [] + head == head;
  }

  // -------------------------------------------------------- the pump itself

  /** One sink and the goroutine tailing it. */
  class SinkPump {
    const opts: Options
    var live: Option<Bytes>
    var archives: seq<Bytes>
    var offset: int
    var carry: Bytes
    var emitted: seq<Bytes>
    var skips: seq<int>
    var cuts: nat
    var rotations: nat
    var clears: nat

    constructor (opts: Options)
      ensures this.opts == opts && View() == FRESH
    {
      this.opts := opts;
      live, archives, offset, carry, emitted := None, [], 0, [], [];
      skips, cuts, rotations, clears := [], 0, 0, 0;
    }

    function View(): Tail
      reads this
    {
      Tail(live, archives, offset, carry, emitted, skips, cuts, rotations, clears)
    }

    /** The child appends to the sink, creating it if need be. */
    method ChildWrites(data: Bytes)
      modifies this`live
      ensures View() == old(View()).(live := Some(Live(old(View())) + data))
    {
      live := Some((if live.Some? then live.value else []) + data);
    }

    /** Copy the live file aside and truncate it, when it is due and the copy succeeds. */
    method RotateIfDue(copyOk: bool) returns (archive: Option<Bytes>)
      modifies this`live, this`archives
      ensures archive.Some? == (opts.rotateMax > 0 && old(live).Some? && |old(live).value| >= opts.rotateMax && copyOk)
      ensures archive.None? ==> live == old(live) && archives == old(archives)
      ensures archive.Some? ==>
        archive == old(live) && live == Some([]) && archives == old(archives) + [archive.value]
    {
      if opts.rotateMax <= 0 || live.None? || |live.value| < opts.rotateMax || !copyOk {
        return None;
      }
      archive := live;
      archives := archives + [live.value];
      live := Some([]);
    }

    /** Fill a buffer with want bytes, prefix first; the kernel returns the file piece by piece. */
    static method ReadFull(file: Bytes, off: nat, prefix: Bytes, want: nat) returns (buf: Bytes)
      requires |prefix| <= want && off + want - |prefix| <= |file|
      ensures buf == prefix + file[off..off + want - |prefix|]
    {
      buf := prefix;
      assert file[off..off] == [];
      while |buf| < want
        invariant |prefix| <= |buf| <= want
        invariant buf == prefix + file[off..off + |buf| - |prefix|]
      {
        var n: nat :| 1 <= n <= want - |buf|;
        var at := off + |buf| - |prefix|;
        assert file[off..at + n] == file[off..at] + file[at..at + n];
        buf := buf + file[at..at + n];
      }
    }

    /** Read what a file holds past off0, after the carried prefix. */
    static method ReadNewIntoPrefix(file: Bytes, off0: int, prefix: Bytes) returns (r: ReadResult)
      requires |prefix| < MAX_BATCH_BYTES
      ensures r == ReadNew(file, off0, prefix)
    {
      var off := off0;
      if |file| < off {
        off := 0;
      }
      if |file| == off {
        return Read(off, [], prefix);
      }
      var want := |prefix| + Min(|file| - off, MAX_BATCH_BYTES - |prefix|);
      if off < 0 {
        return ReadError;
      }
      var buf := ReadFull(file, off, prefix, want);
      var lines, partial, consumed := SplitCompleteConsumed(buf);
      r := Read(off + (if consumed < |prefix| then 0 else consumed - |prefix|), lines, partial);
    }

    /** Past the batch cap the head of the growth is passed over. */
    method SkipHead(size: int)
      modifies this`offset, this`carry, this`skips
      ensures View() == HeadSkip(old(View()), size)
    {
      var skip := size - offset;
      if skip > MAX_BATCH_BYTES - |carry| {
        skips := skips + [skip / MIB];
        offset := size - MAX_BATCH_BYTES;
        carry := [];
      }
    }

    /** The part of a pass that reads: skip past the cap, read, report the lines, carry across a rotation. */
    method CaptureNew(content: Bytes, size: int, rotated: bool)
      requires Usable(opts) && |carry| <= opts.maxLine
      modifies this`offset, this`carry, this`emitted, this`skips, this`cuts, this`rotations
      ensures View() == CaptureFrom(opts, old(View()), content, size, rotated)
    {
      SkipHead(size);
      var read := ReadNewIntoPrefix(content, offset, carry);
      if read.ReadError? {
        offset := 0;
        return;
      }
      offset := read.offset;
      emitted := emitted + read.lines;
      if read.lines != [] {
        carry := [];
      }
      if rotated {
        var partial := read.partial;
        if |partial| > opts.maxLine {
          partial := partial[..opts.maxLine];
          cuts := cuts + 1;
        }
        carry := partial;
        offset := 0;
        rotations := rotations + 1;
      }
    }

    /** One pass of the pump's loop. */
    method Tick(mid: Bytes, copyOk: bool)
      requires Usable(opts) && |carry| <= opts.maxLine
      modifies this
      ensures View() == TickStep(opts, old(View()), mid, copyOk)
    {
      if live.None? {
        offset := 0;
        if mid != [] {
          live := Some(mid);
        }
        return;
      }
      var size := |live.value|;
      if size < offset {
        offset := 0;
        if size == 0 {
          clears := clears + 1;
        }
      }
      var due := opts.rotateMax > 0 && size >= opts.rotateMax;
      live := Some(live.value + mid);
      var content := live.value;
      var archive := None;
      if due {
        archive := RotateIfDue(copyOk);
      }
      if archive.Some? {
        CaptureNew(content, |content|, true);
      } else if size != offset {
        CaptureNew(content, size, false);
      }
    }
  }
}
