/**
  One live consumer of a log route: a bounded channel, a count of undelivered
  lines per stream, and drop markers. Loss is never silent, and the exact
  condition under which markers also sit where the lines are missing.
*/
module Subscriber {
  import opened Common
  import opened LogRing

  /**
    What a subscriber looks like from outside: `received` is what its consumer
    has taken from the channel, `channel` what is queued in it.
   */
  datatype SubState = SubState(
    capacity: nat,
    received: seq<Entry>,
    channel: seq<Entry>,
    pending: map<Stream, nat>,
    drops: nat)

  function Pending(s: SubState, st: Stream): nat {
    if st in s.pending then s.pending[st] else 0
  }

  /** Everything that ever went into the channel, in order. */
  function Sent(s: SubState): seq<Entry> {
    s.received + s.channel
  }

  function Subscribed(capacity: nat): SubState {
    SubState(capacity, [], [], map[], 0)
  }

  /** The consumer takes up to k entries. */
  function Receive(s: SubState, k: nat): SubState {
    var n := Min(k, |s.channel|);
    s.(received := s.received + s.channel[..n], channel := s.channel[n..])
  }

  /** The text of a marker is rendered from its count; only the count matters here. */
  function Marker(st: Stream, n: nat, seqNo: nat): Entry {
    Entry(st, [], seqNo, n)
  }

  /** The first select: report the gap of e's stream, unless the channel is full. */
  function FlushMarker(s: SubState, e: Entry): SubState {
    var n := Pending(s, e.stream);
    if n > 0 && |s.channel| < s.capacity then
      s.(channel := s.channel + [Marker(e.stream, n, e.seqNo)], pending := s.pending[e.stream := 0])
    else s
  }

  /** The second select: queue e, or count it as dropped. */
  function Deliver(s: SubState, e: Entry): SubState {
    if |s.channel| < s.capacity then s.(channel := s.channel + [e])
    else s.(pending := s.pending[e.stream := Pending(s, e.stream) + 1], drops := s.drops + 1)
  }

  /** When the consumer runs: before the marker's select, and between the two selects. */
  datatype Schedule = Schedule(before: nat, between: nat)

  /** Fanning one line out to one subscriber. */
  function Fan(s: SubState, e: Entry, when: Schedule): SubState {
    Deliver(Receive(FlushMarker(Receive(s, when.before), e), when.between), e)
  }

  // ------------------------------------------------ what the consumer can tell

  datatype Position = Line(e: Entry) | Gap

  function Gaps(n: nat): seq<Position> {
    seq(n, _ => Gap)
  }

  /** The part of stream st that a reader of `sent` can account for: each marker stands for its n gaps. */
  function Expand(sent: seq<Entry>, st: Stream): seq<Position> {
    if sent == [] then []
    else
      var front := Expand(sent[..|sent| - 1], st);
      var e := sent[|sent| - 1];
      if e.stream != st then front
      else if e.dropped == 0 then front + [Line(e)]
      else front + Gaps(e.dropped)
  }

  function OfStream(lines: seq<Entry>, st: Stream): seq<Entry> {
    if lines == [] then []
    else
      var front := OfStream(lines[..|lines| - 1], st);
      var e := lines[|lines| - 1];
      if e.stream == st then front + [e] else front
  }

  /** Lines a marker has announced as lost, both streams. */
  function Announced(sent: seq<Entry>): nat {
    if sent == [] then 0 else Announced(sent[..|sent| - 1]) + sent[|sent| - 1].dropped
  }

  function DeliveredLines(sent: seq<Entry>): seq<Entry> {
    if sent == [] then []
    else
      var front := DeliveredLines(sent[..|sent| - 1]);
      var e := sent[|sent| - 1];
      if e.dropped == 0 then front + [e] else front
  }

  predicate Increasing(lines: seq<Entry>) {
    forall i, j :: 0 <= i < j < |lines| ==> lines[i].seqNo < lines[j].seqNo
  }

  /** Captured lines as a route produces them: no markers, sequence numbers rising. */
  predicate Produced(lines: seq<Entry>) {
    Increasing(lines) && forall i :: 0 <= i < |lines| ==> lines[i].dropped == 0
  }

  /** Delivered, announced and still pending together make up the whole stream. */
  predicate Accounted(s: SubState, lines: seq<Entry>, st: Stream) {
    |Expand(Sent(s), st)| + Pending(s, st) == |OfStream(lines, st)|
  }

  /** The bookkeeping every schedule keeps. */
  ghost predicate Sound(s: SubState, lines: seq<Entry>) {
    && s.capacity > 0 && |s.channel| <= s.capacity
    && Produced(lines)
    && Accounted(s, lines, Stdout) && Accounted(s, lines, Stderr)
    && s.drops == Announced(Sent(s)) + Pending(s, Stdout) + Pending(s, Stderr)
    && Increasing(DeliveredLines(Sent(s)))
    && (forall e :: e in DeliveredLines(Sent(s)) ==> e in lines)
  }

  lemma SentAppend(sent: seq<Entry>, e: Entry)
    ensures forall st ::
      Expand(sent + [e], st) ==
        (Expand(sent, st) + (if e.stream != st then [] else if e.dropped == 0 then [Line(e)] else Gaps(e.dropped)))
    ensures Announced(sent + [e]) == Announced(sent) + e.dropped
    ensures DeliveredLines(sent + [e]) == DeliveredLines(sent) + if e.dropped == 0 then [e] else []
  {
    assert (sent + [e])[..|sent + [e]| - 1] == sent;
  }

  lemma LinesAppend(lines: seq<Entry>, e: Entry)
    ensures forall st :: OfStream(lines + [e], st) == OfStream(lines, st) + if e.stream == st then [e] else []
  {
    assert (lines + [e])[..|lines + [e]| - 1] == lines;
  }

  /** Receiving changes nothing the bookkeeping looks at. */
  lemma ReceiveKeepsSent(s: SubState, k: nat)
    ensures Sent(Receive(s, k)) == Sent(s)
  {
    var n := Min(k, |s.channel|);
    assert s.channel == s.channel[..n] + s.channel[n..];
  }

  lemma FlushSent(s: SubState, e: Entry)
    ensures var t := FlushMarker(s, e);
      var n := Pending(s, e.stream);
      var flushed := n > 0 && |s.channel| < s.capacity;
      && Sent(t) == (if flushed then Sent(s) + [Marker(e.stream, n, e.seqNo)] else Sent(s))
      && (forall st :: Pending(t, st) == if flushed && st == e.stream then 0 else Pending(s, st))
  {
  }

  lemma DeliverSent(s: SubState, e: Entry)
    ensures var t := Deliver(s, e);
      var queued := |s.channel| < s.capacity;
      && Sent(t) == (if queued then Sent(s) + [e] else Sent(s))
      && (forall st :: Pending(t, st) == Pending(s, st) + if !queued && st == e.stream then 1 else 0)
  {
  }

  lemma ReceiveSound(s: SubState, k: nat, lines: seq<Entry>)
    requires Sound(s, lines)
    ensures Sound(Receive(s, k), lines)
  {
    ReceiveKeepsSent(s, k);
  }

  lemma FlushSound(s: SubState, e: Entry, lines: seq<Entry>)
    requires Sound(s, lines)
    ensures Sound(FlushMarker(s, e), lines)
  {
    FlushSent(s, e);
    SentAppend(Sent(s), Marker(e.stream, Pending(s, e.stream), e.seqNo));
  }

  lemma DeliverSound(s: SubState, e: Entry, lines: seq<Entry>)
    requires Sound(s, lines) && Produced(lines + [e])
    ensures Sound(Deliver(s, e), lines + [e])
  {
    DeliverSent(s, e);
    SentAppend(Sent(s), e);
    LinesAppend(lines, e);
    assert (lines + [e])[|lines|] == e;
    forall d | d in DeliveredLines(Sent(s))
      ensures d.seqNo < e.seqNo && d in lines + [e]
    {
      var i :| 0 <= i < |lines| && lines[i] == d;
      assert (lines + [e])[i] == d;
    }
  }

  /** Fanning out under any schedule keeps the bookkeeping: no line is lost uncounted. */
  lemma FanSound(s: SubState, e: Entry, when: Schedule, lines: seq<Entry>)
    requires Sound(s, lines) && Produced(lines + [e])
    ensures Sound(Fan(s, e, when), lines + [e])
  {
    ReceiveSound(s, when.before, lines);
    var s1 := Receive(s, when.before);
    FlushSound(s1, e, lines);
    var s2 := FlushMarker(s1, e);
    ReceiveSound(s2, when.between, lines);
    DeliverSound(Receive(s2, when.between), e, lines);
  }

  // ------------------------------------------------------------- positions

  /** Expanding markers puts every delivered line at the very position it was produced at. */
  predicate AlignedStream(s: SubState, lines: seq<Entry>, st: Stream) {
    var seen := Expand(Sent(s), st);
    var all := OfStream(lines, st);
    |seen| <= |all| && forall i :: 0 <= i < |seen| && seen[i].Line? ==> seen[i].e == all[i]
  }

  predicate Aligned(s: SubState, lines: seq<Entry>) {
    AlignedStream(s, lines, Stdout) && AlignedStream(s, lines, Stderr)
  }

  /** The consumer frees a slot after a marker was put off and before its line is sent. */
  predicate OvertakesMarker(s: SubState, e: Entry, when: Schedule) {
    var s1 := Receive(s, when.before);
    Pending(s1, e.stream) > 0 && |s1.channel| == s1.capacity && when.between > 0
  }

  lemma {:induction false} OfStreamOrdered(lines: seq<Entry>, st: Stream, last: Entry)
    requires Produced(lines + [last])
    ensures forall e :: e in OfStream(lines, st) ==> e.seqNo < last.seqNo
  {
    if lines != [] {
      var front := lines[..|lines| - 1];
      var all := lines + [last];
      forall i, j | 0 <= i < j < |front + [last]|
        ensures (front + [last])[i].seqNo < (front + [last])[j].seqNo
      {
        assert (front + [last])[i] == all[i];
        assert (front + [last])[j] == if j < |front| then all[j] else all[|lines|];
      }
      forall i | 0 <= i < |front + [last]|
        ensures (front + [last])[i].dropped == 0
      {
        assert (front + [last])[i] == if i < |front| then all[i] else all[|lines|];
      }
      OfStreamOrdered(front, st, last);
      assert all[|lines| - 1] == lines[|lines| - 1] && all[|lines|] == last;
    }
  }

  /**
    Positions stay exact if and only if no receive falls between the two
    selects while a marker is being held back by a full channel.
   */
  lemma AlignedIffNotOvertaken(s: SubState, e: Entry, when: Schedule, lines: seq<Entry>)
    requires Sound(s, lines) && Aligned(s, lines) && Produced(lines + [e])
    ensures Aligned(Fan(s, e, when), lines + [e]) <==> !OvertakesMarker(s, e, when)
  {
    ReceiveKeepsSent(s, when.before);
    var s1 := Receive(s, when.before);
    ReceiveSound(s, when.before, lines);
    FlushSent(s1, e);
    var s2 := FlushMarker(s1, e);
    FlushSound(s1, e, lines);
    FlushAligned(s1, e, lines);
    ReceiveKeepsSent(s2, when.between);
    ReceiveSound(s2, when.between, lines);
    DeliverAligned(Receive(s2, when.between), e, lines);
  }

  lemma FlushAligned(s: SubState, e: Entry, lines: seq<Entry>)
    requires Sound(s, lines) && Aligned(s, lines)
    ensures Aligned(FlushMarker(s, e), lines)
  {
    FlushSent(s, e);
    SentAppend(Sent(s), Marker(e.stream, Pending(s, e.stream), e.seqNo));
  }

  /** Delivering keeps positions exact unless the line goes in ahead of its own stream's gap. */
  lemma DeliverAligned(s: SubState, e: Entry, lines: seq<Entry>)
    requires Sound(s, lines) && Aligned(s, lines) && Produced(lines + [e])
    ensures Aligned(Deliver(s, e), lines + [e]) <==>
      !(|s.channel| < s.capacity && Pending(s, e.stream) > 0)
  {
    DeliverSent(s, e);
    LinesAppend(lines, e);
    if |s.channel| < s.capacity {
      SentAppend(Sent(s), e);
      if Pending(s, e.stream) > 0 {
        LineAheadOfGap(s, e, lines);
      } else {
        LineInPlace(s, e, lines, Stdout);
        LineInPlace(s, e, lines, Stderr);
      }
    }
  }

  lemma LineInPlace(s: SubState, e: Entry, lines: seq<Entry>, st: Stream)
    requires Sound(s, lines) && Aligned(s, lines) && e.dropped == 0
    requires |s.channel| < s.capacity && Pending(s, e.stream) == 0
    ensures AlignedStream(Deliver(s, e), lines + [e], st)
  {
    DeliverSent(s, e);
    SentAppend(Sent(s), e);
    LinesAppend(lines, e);
  }

  lemma LineAheadOfGap(s: SubState, e: Entry, lines: seq<Entry>)
    requires Sound(s, lines) && Produced(lines + [e])
    requires |s.channel| < s.capacity && Pending(s, e.stream) > 0
    ensures !AlignedStream(Deliver(s, e), lines + [e], e.stream)
  {
    DeliverSent(s, e);
    SentAppend(Sent(s), e);
    LinesAppend(lines, e);
    OfStreamOrdered(lines, e.stream, e);
    assert (lines + [e])[|lines|] == e;
    var at := |Expand(Sent(s), e.stream)|;
    assert Expand(Sent(Deliver(s, e)), e.stream)[at] == Line(e);
    assert OfStream(lines + [e], e.stream)[at] == OfStream(lines, e.stream)[at];
    assert OfStream(lines, e.stream)[at] in OfStream(lines, e.stream);
  }

  // ------------------------------------------------------------------ runs

  /** Fanning a sequence of lines, each under its own schedule. */
  function FanAll(s: SubState, lines: seq<Entry>, when: seq<Schedule>): SubState
    requires |when| == |lines|
  {
    if lines == [] then s
    else Fan(FanAll(s, lines[..|lines| - 1], when[..|lines| - 1]), lines[|lines| - 1], when[|lines| - 1])
  }

  lemma ProducedPrefix(lines: seq<Entry>)
    requires Produced(lines) && lines != []
    ensures Produced(lines[..|lines| - 1])
    ensures lines == lines[..|lines| - 1] + [lines[|lines| - 1]]
  {
  }

  lemma EmptySound(capacity: nat)
    requires capacity > 0
    ensures Sound(Subscribed(capacity), []) && Aligned(Subscribed(capacity), [])
  {
  }

  /**
    Loss is never silent, over every run and every consumer: per stream, lines
    delivered or queued + lines announced by markers + lines pending are the
    lines produced since Subscribe; drops are what is announced or pending; and
    delivered lines are produced lines in order.
   */
  lemma {:induction false} LossNeverSilent(capacity: nat, lines: seq<Entry>, when: seq<Schedule>)
    requires capacity > 0 && |when| == |lines| && Produced(lines)
    ensures Sound(FanAll(Subscribed(capacity), lines, when), lines)
  {
    if lines == [] {
      EmptySound(capacity);
    } else {
      ProducedPrefix(lines);
      LossNeverSilent(capacity, lines[..|lines| - 1], when[..|lines| - 1]);
      FanSound(FanAll(Subscribed(capacity), lines[..|lines| - 1], when[..|lines| - 1]),
               lines[|lines| - 1], when[|lines| - 1], lines[..|lines| - 1]);
    }
  }

  /**
    A gap is announced as soon as there is room: the marker goes in next, with
    the whole count, and the gap is settled.
   */
  lemma MarkerGoesFirst(s: SubState, e: Entry)
    requires Pending(s, e.stream) > 0 && |s.channel| < s.capacity
    ensures var t := FlushMarker(s, e);
      && |t.channel| == |s.channel| + 1 && t.channel[..|s.channel|] == s.channel
      && t.channel[|s.channel|].stream == e.stream && t.channel[|s.channel|].seqNo == e.seqNo
      && t.channel[|s.channel|].dropped == Pending(s, e.stream)
      && Pending(t, e.stream) == 0 && t.drops == s.drops && t.received == s.received
  {
  }

  /** A line is lost if and only if the channel is full when its turn comes. */
  lemma LostIffFull(s: SubState, e: Entry, when: Schedule)
    requires |s.channel| <= s.capacity
    ensures var r := Receive(FlushMarker(Receive(s, when.before), e), when.between);
      var t := Fan(s, e, when);
      && (t.drops == s.drops || t.drops == s.drops + 1)
      && (t.drops == s.drops + 1 <==> |r.channel| == s.capacity)
      && (t.drops == s.drops ==> t.channel == r.channel + [e])
  {
    NeverOverfull(s, when.before);
    NeverOverfull(FlushMarker(Receive(s, when.before), e), when.between);
  }

  lemma NeverOverfull(s: SubState, k: nat)
    requires |s.channel| <= s.capacity
    ensures var r := Receive(s, k);
      |r.channel| <= r.capacity == s.capacity && r.drops == s.drops
  {
  }

  /** The consumer has made room by the time each line is fanned out. */
  predicate KeepsUp(capacity: nat, lines: seq<Entry>, when: seq<Schedule>)
    requires |when| == |lines|
  {
    lines == [] ||
    (var n := |lines| - 1;
     && KeepsUp(capacity, lines[..n], when[..n])
     && |Receive(FanAll(Subscribed(capacity), lines[..n], when[..n]), when[n].before).channel| < capacity)
  }

  /** Such a consumer is sent every line, in order, and nothing else. */
  lemma {:induction false} KeepingUpLosesNothing(capacity: nat, lines: seq<Entry>, when: seq<Schedule>)
    requires |when| == |lines| && KeepsUp(capacity, lines, when)
    ensures var s := FanAll(Subscribed(capacity), lines, when);
      && Sent(s) == lines && s.drops == 0 && Pending(s, Stdout) == 0 && Pending(s, Stderr) == 0
      && s.capacity == capacity
  {
    if lines != [] {
      var n := |lines| - 1;
      var s := FanAll(Subscribed(capacity), lines[..n], when[..n]);
      KeepingUpLosesNothing(capacity, lines[..n], when[..n]);
      LineGoesIn(s, lines[n], when[n]);
      assert lines == lines[..n] + [lines[n]];
    }
  }

  lemma LineGoesIn(s: SubState, e: Entry, when: Schedule)
    requires Pending(s, Stdout) == 0 && Pending(s, Stderr) == 0
    requires |Receive(s, when.before).channel| < s.capacity
    ensures var t := Fan(s, e, when);
      && Sent(t) == Sent(s) + [e] && t.drops == s.drops && t.pending == s.pending && t.capacity == s.capacity
  {
    var s1 := Receive(s, when.before);
    ReceiveKeepsSent(s, when.before);
    assert e.stream == Stdout || e.stream == Stderr;
    assert FlushMarker(s1, e) == s1;
    ReceiveKeepsSent(s1, when.between);
    DeliverSent(Receive(s1, when.between), e);
  }

  predicate NeverOvertaken(capacity: nat, lines: seq<Entry>, when: seq<Schedule>)
    requires |when| == |lines|
  {
    lines == [] ||
    (var n := |lines| - 1;
     && NeverOvertaken(capacity, lines[..n], when[..n])
     && !OvertakesMarker(FanAll(Subscribed(capacity), lines[..n], when[..n]), lines[n], when[n]))
  }

  lemma FlushExtends(s: SubState, e: Entry, st: Stream)
    ensures Expand(Sent(s), st) <= Expand(Sent(FlushMarker(s, e)), st)
  {
    FlushSent(s, e);
    SentAppend(Sent(s), Marker(e.stream, Pending(s, e.stream), e.seqNo));
  }

  lemma DeliverExtends(s: SubState, e: Entry, st: Stream)
    ensures Expand(Sent(s), st) <= Expand(Sent(Deliver(s, e)), st)
  {
    DeliverSent(s, e);
    SentAppend(Sent(s), e);
  }

  lemma PrefixChain<T>(a: seq<T>, b: seq<T>, c: seq<T>)
    requires a <= b && b <= c
    ensures a <= c
  {
  }

  /** What the reader can account for only ever grows at the end. */
  lemma FanExtends(s: SubState, e: Entry, when: Schedule, st: Stream)
    ensures Expand(Sent(s), st) <= Expand(Sent(Fan(s, e, when)), st)
  {
    var s1 := Receive(s, when.before);
    var s2 := FlushMarker(s1, e);
    var s3 := Receive(s2, when.between);
    ReceiveKeepsSent(s, when.before);
    FlushExtends(s1, e, st);
    ReceiveKeepsSent(s2, when.between);
    DeliverExtends(s3, e, st);
    PrefixChain(Expand(Sent(s), st), Expand(Sent(s2), st), Expand(Sent(Deliver(s3, e)), st));
  }

  /** A line out of place stays out of place. */
  lemma FanStaysMisaligned(s: SubState, e: Entry, when: Schedule, lines: seq<Entry>)
    requires Sound(s, lines) && !Aligned(s, lines)
    ensures !Aligned(Fan(s, e, when), lines + [e])
  {
    var st := if AlignedStream(s, lines, Stdout) then Stderr else Stdout;
    FanExtends(s, e, when, st);
    LinesAppend(lines, e);
    var seen, all := Expand(Sent(s), st), OfStream(lines, st);
    var i :| 0 <= i < |seen| && seen[i].Line? && seen[i].e != all[i];
    assert Expand(Sent(Fan(s, e, when)), st)[i] == seen[i];
    assert OfStream(lines + [e], st)[i] == all[i];
  }

  /**
    Over whole runs: delivered lines are all at their produced positions if and
    only if no marker was ever overtaken.
   */
  lemma {:induction false} MarkersSitAtTheGaps(capacity: nat, lines: seq<Entry>, when: seq<Schedule>)
    requires capacity > 0 && |when| == |lines| && Produced(lines)
    ensures Aligned(FanAll(Subscribed(capacity), lines, when), lines) <==> NeverOvertaken(capacity, lines, when)
  {
    if lines == [] {
      EmptySound(capacity);
    } else {
      var n := |lines| - 1;
      var s := FanAll(Subscribed(capacity), lines[..n], when[..n]);
      ProducedPrefix(lines);
      MarkersSitAtTheGaps(capacity, lines[..n], when[..n]);
      LossNeverSilent(capacity, lines[..n], when[..n]);
      if NeverOvertaken(capacity, lines[..n], when[..n]) {
        AlignedIffNotOvertaken(s, lines[n], when[n], lines[..n]);
      } else {
        FanStaysMisaligned(s, lines[n], when[n], lines[..n]);
      }
    }
  }

  /** An overtaken marker does happen: capacity one, the second line lost, the third sent before its gap. */
  lemma OvertakenExample(a: Entry, b: Entry, c: Entry)
    requires Produced([a] + [b] + [c]) && a.stream == b.stream == c.stream
    ensures var s := Fan(Fan(Subscribed(1), a, Schedule(0, 0)), b, Schedule(0, 0));
      !Aligned(Fan(s, c, Schedule(0, 1)), [a] + [b] + [c])
  {
    var s := Fan(Fan(Subscribed(1), a, Schedule(0, 0)), b, Schedule(0, 0));
    ProducedPrefix([a] + [b] + [c]);
    ProducedPrefix([a] + [b]);
    OneSlot(a, b);
    EmptySound(1);
    assert [] + [a] == [a];
    FanSound(Subscribed(1), a, Schedule(0, 0), []);
    FanSound(Fan(Subscribed(1), a, Schedule(0, 0)), b, Schedule(0, 0), [a]);
    OvertakenThird(s, a, b, c);
  }

  lemma OneSlot(a: Entry, b: Entry)
    ensures Fan(Subscribed(1), a, Schedule(0, 0)) == Subscribed(1).(channel := [a])
    ensures Fan(Subscribed(1).(channel := [a]), b, Schedule(0, 0)) ==
      SubState(1, [], [a], map[b.stream := 1], 1)
  {
  }

  lemma OvertakenThird(s: SubState, a: Entry, b: Entry, c: Entry)
    requires Produced([a] + [b] + [c]) && b.stream == c.stream
    requires s == SubState(1, [], [a], map[b.stream := 1], 1) && Sound(s, [a] + [b])
    ensures !Aligned(Fan(s, c, Schedule(0, 1)), [a] + [b] + [c])
  {
    var freed := Receive(FlushMarker(Receive(s, 0), c), 1);
    assert freed == s.(received := [a], channel := []);
    ReceiveSound(s, 1, [a] + [b]);
    LineAheadOfGap(freed, c, [a] + [b]);
  }
}
