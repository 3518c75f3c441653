/**
  From the bytes a child writes to the lines a client reads: the pump, the route
  and the attachment put together, for one sink.
 */
module Pipeline {
  import opened LogLines
  import opened LogRing
  import opened Subscriber
  import Route
  import opened Attach
  import Pump

  /** The captures of one stream, in order: the data the route was given for it. */
  function Given(steps: seq<RouteStep>, st: Stream): seq<Bytes> {
    if steps == [] then []
    else
      var front := Given(steps[..|steps| - 1], st);
      var e := steps[|steps| - 1];
      if e.Capture? && e.st == st then front + [e.data] else front
  }

  /** They are what the history holds of the stream. */
  lemma {:induction false} HistoryHoldsGiven(steps: seq<RouteStep>, st: Stream)
    ensures var lines, given := OfStream(HistoryOf(steps), st), Given(steps, st);
      |lines| == |given| && forall k :: 0 <= k < |lines| ==> lines[k].data == given[k]
  {
    if steps != [] {
      var front, e := steps[..|steps| - 1], steps[|steps| - 1];
      HistoryHoldsGiven(front, st);
      if e.Capture? {
        LinesAppend(HistoryOf(front), Entry(e.st, e.data, |HistoryOf(front)| + 1, 0));
      }
    }
  }

  /** The route has been handed the lines a pump emitted on this stream, in order, each as the ring keeps it. */
  ghost predicate Fed(steps: seq<RouteStep>, st: Stream, emitted: seq<Bytes>, maxLine: nat) {
    && |Given(steps, st)| == |emitted|
    && forall k :: 0 <= k < |emitted| ==> Route.Carries(Entry(st, Given(steps, st)[k], 0, 0), emitted[k], maxLine)
  }

  /** A batch hands over its lines. */
  lemma {:induction false} BatchFeeds(steps: seq<RouteStep>, emitted: seq<Bytes>, lines: seq<Bytes>, st: Stream,
                                      maxLine: nat)
    requires Fed(steps, st, emitted, maxLine)
    ensures Fed(steps + Captures(lines, st, maxLine), st, emitted + lines, maxLine)
  {
    if lines == [] {
      assert steps + Captures([], st, maxLine) == steps && emitted + [] == emitted;
    } else {
      var n := |lines| - 1;
      BatchFeeds(steps, emitted, lines[..n], st, maxLine);
      CapturesAppend(steps, lines, st, maxLine);
      assert emitted + lines == (emitted + lines[..n]) + [lines[n]];
      OneFeeds(steps + Captures(lines[..n], st, maxLine), emitted + lines[..n], lines[n], st, maxLine);
    }
  }

  lemma OneFeeds(steps: seq<RouteStep>, emitted: seq<Bytes>, line: Bytes, st: Stream, maxLine: nat)
    requires Fed(steps, st, emitted, maxLine)
    ensures Fed(steps + [Capture(st, Route.RingData(line, maxLine))], st, emitted + [line], maxLine)
  {
    var e := Capture(st, Route.RingData(line, maxLine));
    assert (steps + [e])[..|steps|] == steps;
    Route.RingDataCarries(Entry(st, e.data, 0, 0), line, maxLine);
  }

  /**
    What a client is shown of a line the child wrote: all of it, if it is no
    longer than a line may be; else its head, with or without the mark.
   */
  predicate Shows(data: Bytes, line: Bytes, maxLine: nat) {
    if |line| <= maxLine then data == line
    else data == line[..maxLine] || data == line[..maxLine] + Route.Ascii("...[truncated]")
  }

  lemma CarriedShows(data: Bytes, got: Bytes, line: Bytes, st: Stream, maxLine: nat)
    requires Pump.Agrees(got, line, maxLine) && Route.Carries(Entry(st, data, 0, 0), got, maxLine)
    ensures Shows(data, line, maxLine)
  {
    if |line| > maxLine {
      assert |got| >= maxLine && got[..maxLine] == line[..maxLine];
      assert |got| == maxLine ==> got == got[..maxLine];
    }
  }

  /**
    The k-th line of a sink in the route's history shows the k-th line the child
    wrote to it, for every run within the cap and however the batches fall.
   */
  lemma HistoryShowsWritten(opts: Pump.Options, events: seq<Pump.Event>, steps: seq<RouteStep>, st: Stream)
    requires Pump.Usable(opts) && Pump.RunFits(opts, Pump.FRESH, events)
    requires Fed(steps, st, Pump.Run(opts, Pump.FRESH, events).emitted, opts.maxLine)
    ensures var s := Pump.Run(opts, Pump.FRESH, events);
      Pump.Tracks(opts, s) && Pump.Seen(s) <= Pump.Output(events)
    ensures var s := Pump.Run(opts, Pump.FRESH, events);
      var lines, written := OfStream(HistoryOf(steps), st), Lines(Pump.Seen(s));
      |lines| == |written| && forall k :: 0 <= k < |lines| ==> Shows(lines[k].data, written[k], opts.maxLine)
  {
    var s := Pump.Run(opts, Pump.FRESH, events);
    Pump.CaptureExactlyOnce(opts, events, false);
    HistoryHoldsGiven(steps, st);
    var lines, written := OfStream(HistoryOf(steps), st), Lines(Pump.Seen(s));
    forall k | 0 <= k < |lines|
      ensures Shows(lines[k].data, written[k], opts.maxLine)
    {
      CarriedShows(lines[k].data, s.emitted[k], written[k], st, opts.maxLine);
    }
  }

  /** What a client gets are lines of the history, each of its own stream. */
  lemma ClientLinesFromHistory(lines: seq<Entry>, a: nat, b: nat, count: nat, n: int, withStderr: bool,
                               sub: SubState, st: Stream, e: Entry)
    requires Attached(lines, a, b, count, sub)
    requires e in ClientLines(SnapshotOf(RingAt(lines, b, count), n, withStderr), Sent(sub), st, withStderr)
    ensures e in lines && e.stream == st
  {
    var view := RingAt(lines, b, count);
    var snap := SnapshotOf(view, n, withStderr);
    if e in BacklogOf(snap, st) {
      HistoryIncreasing(lines, b - count, b);
      BacklogFromRing(view, n, withStderr, st, e);
    } else {
      LiveFromChannel(Sent(sub), snap.maxSeq, withStderr, st, e);
    }
  }

  lemma BacklogFromRing(view: seq<Entry>, n: int, withStderr: bool, st: Stream, e: Entry)
    requires Increasing(view) && e in BacklogOf(SnapshotOf(view, n, withStderr), st)
    ensures e in view && e.stream == st
  {
    if n > 0 {
      var all := Wanted(view, withStderr);
      WantedIncreasing(view, withStderr);
      OfStreamIncreasing(all, st);
      LastNMembers(OfStream(all, st), n);
    }
  }

  lemma LiveFromChannel(sent: seq<Entry>, maxSeq: nat, withStderr: bool, st: Stream, e: Entry)
    requires Increasing(DeliveredLines(sent))
    requires e in OfStream(DeliveredLines(Followed(sent, maxSeq, withStderr)), st)
    ensures e in DeliveredLines(sent) && e.stream == st
  {
    FollowedLines(sent, maxSeq, withStderr);
    OfStreamIncreasing(DeliveredLines(Followed(sent, maxSeq, withStderr)), st);
  }

  /**
    So a client reads what the child wrote: every line it gets of a sink shows
    the line at its own place among those the child wrote there, and, numbers
    rising, in the order written and none twice.
   */
  lemma ClientReadsWritten(opts: Pump.Options, events: seq<Pump.Event>, v: Visit, n: int, withStderr: bool, st: Stream)
    requires Pump.Usable(opts) && Pump.RunFits(opts, Pump.FRESH, events)
    requires Possible(v) && IsWanted(st, withStderr)
    requires Fed(v.before + v.between + v.after, st, Pump.Run(opts, Pump.FRESH, events).emitted, opts.maxLine)
    ensures Pump.Tracks(opts, Pump.Run(opts, Pump.FRESH, events))
    ensures var written := Lines(Pump.Seen(Pump.Run(opts, Pump.FRESH, events)));
      var got := ClientLines(SnapshotOf(HeldAt(v), n, withStderr), Sent(Client(v)), st, withStderr);
      var all := OfStream(AllLines(v), st);
      && Increasing(got) && Increasing(all) && |all| == |written|
      && forall e :: e in got ==>
           exists k :: 0 <= k < |all| && all[k] == e && Shows(e.data, written[k], opts.maxLine)
  {
    var steps := v.before + v.between + v.after;
    HistoryShowsWritten(opts, events, steps, st);
    AttachBoundary(v, n, withStderr, st);
    VisitAttaches(v);
    HistoryOfStream(AllLines(v), st);
    var got := ClientLines(SnapshotOf(HeldAt(v), n, withStderr), Sent(Client(v)), st, withStderr);
    forall e | e in got
      ensures e in OfStream(AllLines(v), st)
    {
      ClientLinesFromHistory(AllLines(v), SubscribedAt(v), SnapshotAt(v), |HeldAt(v)|, n, withStderr, Client(v), st, e);
    }
  }

  lemma HistoryOfStream(lines: seq<Entry>, st: Stream)
    requires History(lines)
    ensures Increasing(OfStream(lines, st))
    ensures forall e :: e in OfStream(lines, st) <==> e in lines && e.stream == st
  {
    HistoryIncreasing(lines, 0, |lines|);
    assert lines[0..|lines|] == lines;
    OfStreamIncreasing(lines, st);
  }
}
