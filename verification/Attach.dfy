/**
  Attaching a log client to a route: subscribe first, snapshot the ring second,
  then drop live lines the snapshot covers. What the client sees across that
  boundary, exactly.
 */
module Attach {
  import opened LogLines
  import opened LogRing
  import opened Subscriber
  import opened Route

  /** The route's whole history: line i carries number i + 1. */
  predicate History(lines: seq<Entry>) {
    forall i :: 0 <= i < |lines| ==> lines[i].seqNo == i + 1 && lines[i].dropped == 0
  }

  /** What the backlog phase sends per stream, and the highest number it covers. */
  datatype Snapshot = Snapshot(outs: seq<Entry>, errs: seq<Entry>, maxSeq: nat)

  function LastSeq(entries: seq<Entry>): nat {
    if entries == [] then 0 else entries[|entries| - 1].seqNo
  }

  function SnapshotOf(view: seq<Entry>, n: int, withStderr: bool): Snapshot {
    if n <= 0 then Snapshot([], [], 0)
    else
      var all := Wanted(view, withStderr);
      Snapshot(LastN(OfStream(all, Stdout), n), LastN(OfStream(all, Stderr), n), LastSeq(all))
  }

  /** The backlog phase's loop: split per stream, remember the highest number. */
  method Partition(all: seq<Entry>) returns (outs: seq<Entry>, errs: seq<Entry>, maxSeq: nat)
    requires Increasing(all)
    ensures outs == OfStream(all, Stdout) && errs == OfStream(all, Stderr)
    ensures maxSeq == LastSeq(all)
  {
    outs, errs, maxSeq := [], [], 0;
    for i := 0 to |all|
      invariant outs == OfStream(all[..i], Stdout) && errs == OfStream(all[..i], Stderr)
      invariant maxSeq == LastSeq(all[..i])
    {
      assert all[..i + 1][..i] == all[..i];
      var e := all[i];
      if e.stream == Stderr {
        errs := errs + [e];
      } else {
        outs := outs + [e];
      }
      if e.seqNo > maxSeq {
        maxSeq := e.seqNo;
      }
    }
    assert all[..|all|] == all;
  }

  /** What of a ring snapshot is sent. */
  method Select(all: seq<Entry>, n: nat, withStderr: bool) returns (snap: Snapshot)
    requires Increasing(all) && (withStderr || OfStream(all, Stderr) == [])
    ensures snap == Snapshot(LastN(OfStream(all, Stdout), n), LastN(OfStream(all, Stderr), n), LastSeq(all))
  {
    var outs, errs, maxSeq := Partition(all);
    if |outs| > n {
      outs := outs[|outs| - n..];
    }
    if withStderr && |errs| > n {
      errs := errs[|errs| - n..];
    }
    snap := Snapshot(outs, errs, maxSeq);
  }

  /** The backlog phase. */
  method BacklogPhase(ring: Ring, n: int, withStderr: bool) returns (snap: Snapshot)
    requires ring.Valid() && Increasing(ring.View())
    ensures snap == SnapshotOf(ring.View(), n, withStderr)
  {
    if n <= 0 {
      return Snapshot([], [], 0);
    }
    var all := ring.BacklogAll(withStderr, false);
    snap := SelectWanted(ring.View(), all, n, withStderr);
  }

  method SelectWanted(ghost view: seq<Entry>, all: seq<Entry>, n: nat, withStderr: bool) returns (snap: Snapshot)
    requires Increasing(view) && n > 0 && all == Wanted(view, withStderr)
    ensures snap == SnapshotOf(view, n, withStderr)
  {
    WantedFits(view, withStderr);
    snap := Select(all, n, withStderr);
  }

  /** What the ring hands over is in order, and without stderr unless that is wanted. */
  lemma WantedFits(view: seq<Entry>, withStderr: bool)
    requires Increasing(view)
    ensures Increasing(Wanted(view, withStderr))
    ensures withStderr || OfStream(Wanted(view, withStderr), Stderr) == []
  {
    WantedIncreasing(view, withStderr);
    WantedStderr(view, withStderr);
  }

  /** The follow phase forwards markers always, lines only above the snapshot, stderr only on request. */
  predicate Forwards(e: Entry, maxSeq: nat, withStderr: bool) {
    !(e.dropped == 0 && e.seqNo <= maxSeq) && !(e.stream == Stderr && !withStderr)
  }

  function Followed(received: seq<Entry>, maxSeq: nat, withStderr: bool): seq<Entry> {
    if received == [] then []
    else
      var front := Followed(received[..|received| - 1], maxSeq, withStderr);
      var e := received[|received| - 1];
      if Forwards(e, maxSeq, withStderr) then front + [e] else front
  }

  predicate IsWanted(st: Stream, withStderr: bool) {
    st == Stdout || withStderr
  }

  /** The lines of one stream the client gets: backlog, then what the follow phase lets through. */
  function ClientLines(snap: Snapshot, sent: seq<Entry>, st: Stream, withStderr: bool): seq<Entry> {
    (if st == Stdout then snap.outs else snap.errs)
      + OfStream(DeliveredLines(Followed(sent, snap.maxSeq, withStderr)), st)
  }

  // ------------------------------------------------------------ filter facts

  lemma {:induction false} WantedStderr(view: seq<Entry>, withStderr: bool)
    ensures OfStream(Wanted(view, withStderr), Stdout) == OfStream(view, Stdout)
    ensures OfStream(Wanted(view, withStderr), Stderr) == if withStderr then OfStream(view, Stderr) else []
  {
    if view != [] {
      var front := view[..|view| - 1];
      WantedStderr(front, withStderr);
      LinesAppend(Wanted(front, withStderr), view[|view| - 1]);
    }
  }

  lemma WantedLast(view: seq<Entry>, withStderr: bool)
    requires view != [] && view[|view| - 1].stream == Stdout
    requires Wanted(view[..|view| - 1], withStderr) == view[..|view| - 1]
    ensures Wanted(view, withStderr) == view
  {
  }

  /** A merged sink tags every line stdout, so a stdout-only client still gets all of it. */
  lemma {:induction false} MergedKeepsAll(view: seq<Entry>, withStderr: bool)
    requires forall i :: 0 <= i < |view| ==> view[i].stream == Stdout
    ensures Wanted(view, withStderr) == view == Wanted(view, true)
  {
    if view != [] {
      var front, last := view[..|view| - 1], view[|view| - 1];
      assert view[|view| - 1].stream == Stdout;
      assert forall i :: 0 <= i < |front| ==> front[i] == view[i];
      MergedKeepsAll(front, withStderr);
      WantedLast(view, withStderr);
      WantedLast(view, true);
    }
  }

  lemma LastIsHighest(lines: seq<Entry>)
    requires Increasing(lines) && lines != []
    ensures var front, last := lines[..|lines| - 1], lines[|lines| - 1];
      && Increasing(front)
      && (forall e :: e in front ==> e.seqNo < last.seqNo)
      && (forall e :: e in lines <==> e in front || e == last)
  {
    var front, last := lines[..|lines| - 1], lines[|lines| - 1];
    assert lines == front + [last];
    forall e | e in front ensures e.seqNo < last.seqNo {
      var i :| 0 <= i < |front| && front[i] == e;
      assert lines[i] == e;
    }
  }

  lemma AppendHighest(lines: seq<Entry>, e: Entry)
    requires Increasing(lines)
    ensures (forall d :: d in lines ==> d.seqNo < e.seqNo) ==> Increasing(lines + [e])
  {
  }

  /** Filters keep members and order. */
  lemma {:induction false} WantedIncreasing(view: seq<Entry>, withStderr: bool)
    requires Increasing(view)
    ensures Increasing(Wanted(view, withStderr))
    ensures forall e :: e in Wanted(view, withStderr) <==> e in view && IsWanted(e.stream, withStderr)
  {
    if view != [] {
      var front := view[..|view| - 1];
      LastIsHighest(view);
      WantedIncreasing(front, withStderr);
      AppendHighest(Wanted(front, withStderr), view[|view| - 1]);
    }
  }

  lemma {:induction false} OfStreamIncreasing(lines: seq<Entry>, st: Stream)
    requires Increasing(lines)
    ensures Increasing(OfStream(lines, st))
    ensures forall e :: e in OfStream(lines, st) <==> e in lines && e.stream == st
  {
    if lines != [] {
      var front := lines[..|lines| - 1];
      LastIsHighest(lines);
      OfStreamIncreasing(front, st);
      AppendHighest(OfStream(front, st), lines[|lines| - 1]);
    }
  }

  /** What follows misses nothing above the snapshot and adds nothing. */
  lemma {:induction false} FollowedMembers(sent: seq<Entry>, maxSeq: nat, withStderr: bool, e: Entry)
    ensures e in DeliveredLines(Followed(sent, maxSeq, withStderr)) <==>
      e in DeliveredLines(sent) && e.seqNo > maxSeq && IsWanted(e.stream, withStderr)
  {
    if sent != [] {
      var front := sent[..|sent| - 1];
      FollowedMembers(front, maxSeq, withStderr, e);
      SentAppend(Followed(front, maxSeq, withStderr), sent[|sent| - 1]);
    }
  }

  /** Nothing of an unwanted stream is forwarded, lines and markers alike, and nothing that was not sent. */
  lemma {:induction false} FollowedStreams(sent: seq<Entry>, maxSeq: nat, withStderr: bool)
    ensures forall e :: e in Followed(sent, maxSeq, withStderr) ==> e in sent && IsWanted(e.stream, withStderr)
  {
    if sent != [] {
      FollowedStreams(sent[..|sent| - 1], maxSeq, withStderr);
      assert sent == sent[..|sent| - 1] + [sent[|sent| - 1]];
    }
  }

  /** And it stays in order. */
  lemma {:induction false} FollowedOrder(sent: seq<Entry>, maxSeq: nat, withStderr: bool)
    requires Increasing(DeliveredLines(sent))
    ensures Increasing(DeliveredLines(Followed(sent, maxSeq, withStderr)))
  {
    if sent != [] {
      var front := sent[..|sent| - 1];
      var e := sent[|sent| - 1];
      PrefixIncreasing(sent);
      FollowedOrder(front, maxSeq, withStderr);
      var kept := Followed(front, maxSeq, withStderr);
      SentAppend(kept, e);
      forall d | d in DeliveredLines(kept) ensures e.dropped == 0 ==> d.seqNo < e.seqNo {
        FollowedMembers(front, maxSeq, withStderr, d);
      }
      OrderAppend(DeliveredLines(kept), e);
    }
  }

  lemma OrderAppend(lines: seq<Entry>, e: Entry)
    requires Increasing(lines)
    requires e.dropped == 0 ==> forall d :: d in lines ==> d.seqNo < e.seqNo
    ensures Increasing(lines + if e.dropped == 0 then [e] else [])
  {
  }

  lemma FollowedLines(sent: seq<Entry>, maxSeq: nat, withStderr: bool)
    requires Increasing(DeliveredLines(sent))
    ensures var lines := DeliveredLines(Followed(sent, maxSeq, withStderr));
      && Increasing(lines)
      && forall e :: e in lines <==>
           e in DeliveredLines(sent) && e.seqNo > maxSeq && IsWanted(e.stream, withStderr)
  {
    FollowedOrder(sent, maxSeq, withStderr);
    forall e
      ensures e in DeliveredLines(Followed(sent, maxSeq, withStderr)) <==>
        e in DeliveredLines(sent) && e.seqNo > maxSeq && IsWanted(e.stream, withStderr)
    {
      FollowedMembers(sent, maxSeq, withStderr, e);
    }
  }

  lemma PrefixIncreasing(sent: seq<Entry>)
    requires sent != [] && Increasing(DeliveredLines(sent))
    ensures Increasing(DeliveredLines(sent[..|sent| - 1]))
    ensures sent[|sent| - 1].dropped == 0 ==>
      forall e :: e in DeliveredLines(sent[..|sent| - 1]) ==> e.seqNo < sent[|sent| - 1].seqNo
  {
    var front, e := sent[..|sent| - 1], sent[|sent| - 1];
    assert DeliveredLines(sent) == if e.dropped == 0 then DeliveredLines(front) + [e] else DeliveredLines(front);
    if e.dropped == 0 {
      FrontIncreasing(DeliveredLines(front), e);
    }
  }

  lemma FrontIncreasing(lines: seq<Entry>, e: Entry)
    requires Increasing(lines + [e])
    ensures Increasing(lines) && forall d :: d in lines ==> d.seqNo < e.seqNo
  {
    LastIsHighest(lines + [e]);
    assert (lines + [e])[..|lines|] == lines;
  }

  /** How many lost lines of a stream the reader is told about. */
  function AnnouncedOf(sent: seq<Entry>, st: Stream): nat {
    if sent == [] then 0
    else
      var e := sent[|sent| - 1];
      AnnouncedOf(sent[..|sent| - 1], st) + (if e.stream == st then e.dropped else 0)
  }

  /** No marker of a wanted stream is ever filtered. */
  lemma {:induction false} MarkersSurvive(sent: seq<Entry>, maxSeq: nat, withStderr: bool, st: Stream)
    requires IsWanted(st, withStderr)
    ensures AnnouncedOf(Followed(sent, maxSeq, withStderr), st) == AnnouncedOf(sent, st)
  {
    if sent != [] {
      var front := sent[..|sent| - 1];
      var e := sent[|sent| - 1];
      MarkersSurvive(front, maxSeq, withStderr, st);
      var kept := Followed(front, maxSeq, withStderr);
      assert (kept + [e])[..|kept + [e]| - 1] == kept;
    }
  }

  lemma {:induction false} ExpandCounts(sent: seq<Entry>, st: Stream)
    ensures |Expand(sent, st)| == |OfStream(DeliveredLines(sent), st)| + AnnouncedOf(sent, st)
  {
    if sent != [] {
      var front := sent[..|sent| - 1];
      ExpandCounts(front, st);
      LinesAppend(DeliveredLines(front), sent[|sent| - 1]);
    }
  }

  // ---------------------------------------------------------- the boundary

  /** The state of an attachment: what the route wrote, where the client came in, what it holds. */
  ghost predicate Attached(lines: seq<Entry>, a: nat, b: nat, count: nat, sub: SubState) {
    && History(lines)
    && a <= b <= |lines| && count <= b
    && Sound(sub, lines[a..])
  }

  /** The ring at the snapshot. */
  function RingAt(lines: seq<Entry>, b: nat, count: nat): seq<Entry>
    requires count <= b <= |lines|
  {
    lines[b - count..b]
  }

  /** A pushed ring always holds a suffix of the history, cleared or not. */
  lemma RingHoldsSuffix(lines: seq<Entry>, count: nat, e: Entry, maxLines: nat, maxBytes: nat)
    requires maxLines > 0 && count <= |lines|
    ensures var kept := Push(RingAt(lines, |lines|, count), e, maxLines, maxBytes);
      |kept| <= |lines| + 1 && kept == RingAt(lines + [e], |lines| + 1, |kept|)
  {
    var view := RingAt(lines, |lines|, count);
    PushKeepsLongestSuffix(view, e, maxLines, maxBytes);
    var kept := Push(view, e, maxLines, maxBytes);
    assert view + [e] == (lines + [e])[|lines| - count..];
  }

  lemma HistoryIncreasing(lines: seq<Entry>, lo: nat, hi: nat)
    requires History(lines) && lo <= hi <= |lines|
    ensures Increasing(lines[lo..hi])
    ensures forall e: Entry :: e in lines[lo..hi] <==> (lo < e.seqNo <= hi && lines[e.seqNo - 1] == e)
  {
    var view := lines[lo..hi];
    assert forall i :: 0 <= i < |view| ==> view[i] == lines[lo + i] && view[i].seqNo == lo + i + 1;
    forall e: Entry | e in view ensures lo < e.seqNo <= hi && lines[e.seqNo - 1] == e {
      var i :| 0 <= i < |view| && view[i] == e;
      assert lines[lo + i] == e;
    }
    forall e: Entry | lo < e.seqNo <= hi && lines[e.seqNo - 1] == e ensures e in view {
      assert view[e.seqNo - 1 - lo] == e;
    }
  }

  /** Membership in the last n. */
  lemma LastNOf(front: seq<Entry>, e: Entry, rest: seq<Entry>, n: nat)
    requires Increasing(front + [e] + rest)
    ensures e in LastN(front + [e] + rest, n) <==> |rest| < n
  {
    var all := front + [e] + rest;
    assert all[|front|] == e;
    if |rest| < n && |all| > n {
      assert LastN(all, n)[|front| - (|all| - n)] == e;
    }
    if e in LastN(all, n) && |all| > n {
      var j :| 0 <= j < n && LastN(all, n)[j] == e;
      assert all[j + |all| - n] == e;
    }
  }

  lemma {:induction false} OfStreamConcat(x: seq<Entry>, y: seq<Entry>, st: Stream)
    ensures OfStream(x + y, st) == OfStream(x, st) + OfStream(y, st)
  {
    if y == [] {
      assert x + y == x;
    } else {
      var front := y[..|y| - 1];
      OfStreamConcat(x, front, st);
      assert (x + y)[..|x + y| - 1] == x + front;
    }
  }

  /** The line sits in the ring and fewer than n of its stream's lines come after it there. */
  predicate InBacklog(lines: seq<Entry>, b: nat, count: nat, n: int, e: Entry)
    requires count <= b <= |lines|
  {
    b - count < e.seqNo <= b && |OfStream(lines[e.seqNo..b], e.stream)| < n
  }

  function BacklogOf(snap: Snapshot, st: Stream): seq<Entry> {
    if st == Stdout then snap.outs else snap.errs
  }

  /** The backlog phase sends exactly the wanted lines still in the ring and among the last n. */
  lemma BacklogExact(lines: seq<Entry>, b: nat, count: nat, n: int, withStderr: bool, e: Entry)
    requires History(lines) && count <= b <= |lines| && e in lines && IsWanted(e.stream, withStderr)
    ensures e in BacklogOf(SnapshotOf(RingAt(lines, b, count), n, withStderr), e.stream) <==>
            InBacklog(lines, b, count, n, e)
  {
    if n > 0 {
      var view := RingAt(lines, b, count);
      WantedStderr(view, withStderr);
      StreamOfRing(lines, b, count, n, e);
    }
  }

  lemma StreamOfRing(lines: seq<Entry>, b: nat, count: nat, n: nat, e: Entry)
    requires History(lines) && count <= b <= |lines| && e in lines
    ensures e in LastN(OfStream(RingAt(lines, b, count), e.stream), n) <==> InBacklog(lines, b, count, n, e)
  {
    var view := RingAt(lines, b, count);
    PlaceInHistory(lines, e);
    HistoryIncreasing(lines, b - count, b);
    OfStreamIncreasing(view, e.stream);
    if b - count < e.seqNo <= b {
      RingAround(lines, b, count, e);
      StreamSplit(view, lines[b - count..e.seqNo - 1], e, lines[e.seqNo..b], n);
    } else {
      assert e !in view;
      LastNMembers(OfStream(view, e.stream), n);
    }
  }

  lemma PlaceInHistory(lines: seq<Entry>, e: Entry)
    requires History(lines) && e in lines
    ensures 1 <= e.seqNo <= |lines| && lines[e.seqNo - 1] == e
  {
  }

  lemma RingAround(lines: seq<Entry>, b: nat, count: nat, e: Entry)
    requires count <= b <= |lines| && b - count < e.seqNo <= b && lines[e.seqNo - 1] == e
    ensures RingAt(lines, b, count) == lines[b - count..e.seqNo - 1] + [e] + lines[e.seqNo..b]
  {
  }

  lemma LastNMembers(s: seq<Entry>, n: nat)
    ensures forall e :: e in LastN(s, n) ==> e in s
  {
  }

  lemma StreamSplit(view: seq<Entry>, x: seq<Entry>, e: Entry, y: seq<Entry>, n: nat)
    requires view == x + [e] + y && Increasing(OfStream(view, e.stream))
    ensures e in LastN(OfStream(view, e.stream), n) <==> |OfStream(y, e.stream)| < n
  {
    OfStreamConcat(x + [e], y, e.stream);
    LinesAppend(x, e);
    LastNOf(OfStream(x, e.stream), e, OfStream(y, e.stream), n);
  }

  lemma LastNIncreasing(s: seq<Entry>, n: nat)
    requires Increasing(s)
    ensures Increasing(LastN(s, n)) && forall e :: e in LastN(s, n) ==> e in s
  {
  }

  /** Nothing in the backlog is numbered above maxSeq. */
  lemma BacklogBelow(lines: seq<Entry>, b: nat, count: nat, n: int, withStderr: bool, st: Stream)
    requires History(lines) && count <= b <= |lines|
    ensures var snap := SnapshotOf(RingAt(lines, b, count), n, withStderr);
      && snap.maxSeq <= b
      && Increasing(BacklogOf(snap, st))
      && forall e :: e in BacklogOf(snap, st) ==> e.seqNo <= snap.maxSeq
  {
    if n > 0 {
      var view := RingAt(lines, b, count);
      var all := Wanted(view, withStderr);
      HistoryIncreasing(lines, b - count, b);
      WantedIncreasing(view, withStderr);
      OfStreamIncreasing(all, st);
      LastNIncreasing(OfStream(all, st), n);
      BelowLast(all);
      if all != [] {
        assert all[|all| - 1] in view;
      }
    }
  }

  lemma BelowLast(all: seq<Entry>)
    requires Increasing(all)
    ensures forall e :: e in all ==> e.seqNo <= LastSeq(all)
  {
    forall e | e in all ensures e.seqNo <= LastSeq(all) {
      var i :| 0 <= i < |all| && all[i] == e;
    }
  }

  /** No line twice, numbers rising: per stream, backlog and live lines form one increasing sequence. */
  lemma NoLineTwice(lines: seq<Entry>, a: nat, b: nat, count: nat, n: int, withStderr: bool, sub: SubState, st: Stream)
    requires Attached(lines, a, b, count, sub)
    ensures Increasing(ClientLines(SnapshotOf(RingAt(lines, b, count), n, withStderr), Sent(sub), st, withStderr))
  {
    var snap := SnapshotOf(RingAt(lines, b, count), n, withStderr);
    BacklogBelow(lines, b, count, n, withStderr, st);
    FollowedLines(Sent(sub), snap.maxSeq, withStderr);
    var live := DeliveredLines(Followed(Sent(sub), snap.maxSeq, withStderr));
    OfStreamIncreasing(live, st);
    var x, y := BacklogOf(snap, st), OfStream(live, st);
    assert ClientLines(snap, Sent(sub), st, withStderr) == x + y;
    forall i, j | 0 <= i < |x| && 0 <= j < |y| ensures x[i].seqNo < y[j].seqNo {
      assert x[i] in x && y[j] in y;
    }
  }

  /**
    Which wanted lines the client gets: above the snapshot, those that made it
    into the channel; at or below it, those in the ring and among the last n.
   */
  lemma ClientExact(lines: seq<Entry>, a: nat, b: nat, count: nat, n: int, withStderr: bool, sub: SubState, e: Entry)
    requires Attached(lines, a, b, count, sub)
    requires e in lines && IsWanted(e.stream, withStderr)
    ensures var snap := SnapshotOf(RingAt(lines, b, count), n, withStderr);
      e in ClientLines(snap, Sent(sub), e.stream, withStderr) <==>
        (if e.seqNo <= snap.maxSeq then InBacklog(lines, b, count, n, e) else e in DeliveredLines(Sent(sub)))
  {
    var snap := SnapshotOf(RingAt(lines, b, count), n, withStderr);
    BacklogBelow(lines, b, count, n, withStderr, e.stream);
    BacklogExact(lines, b, count, n, withStderr, e);
    FollowedLines(Sent(sub), snap.maxSeq, withStderr);
    var live := DeliveredLines(Followed(Sent(sub), snap.maxSeq, withStderr));
    OfStreamIncreasing(live, e.stream);
    if e.seqNo > snap.maxSeq {
      assert e !in BacklogOf(snap, e.stream);
    }
  }

  function SeqNos(lines: seq<Entry>): set<nat> {
    set e | e in lines :: e.seqNo
  }

  lemma SeqNosAppend(lines: seq<Entry>, e: Entry)
    ensures SeqNos(lines + [e]) == SeqNos(lines) + {e.seqNo}
  {
    assert forall x :: x in lines + [e] <==> x in lines || x == e;
    forall k: nat ensures k in SeqNos(lines + [e]) <==> k in SeqNos(lines) + {e.seqNo} {
      if k == e.seqNo {
        assert e in lines + [e];
      }
    }
  }

  lemma {:induction false} SeqNosCount(lines: seq<Entry>)
    requires Increasing(lines)
    ensures |SeqNos(lines)| == |lines|
  {
    if lines != [] {
      var front := lines[..|lines| - 1];
      var last := lines[|lines| - 1];
      LastIsHighest(lines);
      SeqNosCount(front);
      assert lines == front + [last];
      SeqNosAppend(front, last);
      assert last.seqNo !in SeqNos(front);
    }
  }

  /**
    Lines produced since the subscription that never reached the channel are as
    many as the markers the client sees announce plus those still pending.
   */
  lemma MissingIsAnnounced(lines: seq<Entry>, a: nat, b: nat, count: nat, n: int, withStderr: bool,
                           sub: SubState, st: Stream)
    requires Attached(lines, a, b, count, sub) && IsWanted(st, withStderr)
    ensures var snap := SnapshotOf(RingAt(lines, b, count), n, withStderr);
      var missing := SeqNos(OfStream(lines[a..], st)) - SeqNos(OfStream(DeliveredLines(Sent(sub)), st));
      |missing| == AnnouncedOf(Followed(Sent(sub), snap.maxSeq, withStderr), st) + Pending(sub, st)
  {
    var snap := SnapshotOf(RingAt(lines, b, count), n, withStderr);
    MarkersSurvive(Sent(sub), snap.maxSeq, withStderr, st);
    ExpandCounts(Sent(sub), st);
    var all, got := OfStream(lines[a..], st), OfStream(DeliveredLines(Sent(sub)), st);
    OfStreamIncreasing(lines[a..], st);
    OfStreamIncreasing(DeliveredLines(Sent(sub)), st);
    SeqNosCount(all);
    SeqNosCount(got);
    assert forall e :: e in got ==> e in all;
    assert SeqNos(got) <= SeqNos(all);
  }

  /**
    The attach claims each line exactly once, but a line captured between the
    subscription and the snapshot reaches the client if and only if it is still
    in the ring, among the last n of its stream, or above all the snapshot holds.
   */
  lemma AttachGap(lines: seq<Entry>, a: nat, b: nat, count: nat, n: int, withStderr: bool, sub: SubState, e: Entry)
    requires Attached(lines, a, b, count, sub)
    requires e in lines && a < e.seqNo <= b && IsWanted(e.stream, withStderr)
    requires e in DeliveredLines(Sent(sub))
    ensures var snap := SnapshotOf(RingAt(lines, b, count), n, withStderr);
      e in ClientLines(snap, Sent(sub), e.stream, withStderr) <==>
        InBacklog(lines, b, count, n, e) || snap.maxSeq < e.seqNo
  {
    var snap := SnapshotOf(RingAt(lines, b, count), n, withStderr);
    ClientExact(lines, a, b, count, n, withStderr, sub, e);
    BacklogExact(lines, b, count, n, withStderr, e);
    BacklogBelow(lines, b, count, n, withStderr, e.stream);
  }

  // ------------------------------------------------------------- whole runs

  /** What a route does, seen from its ring: capture a line, or clear. */
  datatype RouteStep = Capture(st: Stream, data: Bytes) | Wipe

  /** Every line ever captured, numbered from 1. */
  function HistoryOf(steps: seq<RouteStep>): seq<Entry> {
    if steps == [] then []
    else
      var front := HistoryOf(steps[..|steps| - 1]);
      match steps[|steps| - 1]
      case Capture(st, data) => front + [Entry(st, data, |front| + 1, 0)]
      case Wipe => front
  }

  /** What the ring holds after those steps. */
  function RingOf(steps: seq<RouteStep>, maxLines: nat, maxBytes: nat): seq<Entry> {
    if steps == [] then []
    else
      var front := steps[..|steps| - 1];
      match steps[|steps| - 1]
      case Capture(st, data) =>
        Push(RingOf(front, maxLines, maxBytes), Entry(st, data, |HistoryOf(front)| + 1, 0), maxLines, maxBytes)
      case Wipe => []
  }

  lemma {:induction false} RunHistory(steps: seq<RouteStep>)
    ensures History(HistoryOf(steps))
  {
    if steps != [] {
      RunHistory(steps[..|steps| - 1]);
    }
  }

  lemma {:induction false} HistoryGrows(x: seq<RouteStep>, y: seq<RouteStep>)
    ensures HistoryOf(x) <= HistoryOf(x + y)
  {
    if y == [] {
      assert x + y == x;
    } else {
      HistoryGrows(x, y[..|y| - 1]);
      assert (x + y)[..|x + y| - 1] == x + y[..|y| - 1];
    }
  }

  /** Over every run of captures and clears the ring is a suffix of the history. */
  lemma {:induction false} RingOfRun(steps: seq<RouteStep>, maxLines: nat, maxBytes: nat)
    requires maxLines > 0
    ensures var lines, view := HistoryOf(steps), RingOf(steps, maxLines, maxBytes);
      |view| <= |lines| && view == RingAt(lines, |lines|, |view|)
  {
    if steps != [] {
      var front := steps[..|steps| - 1];
      RingOfRun(front, maxLines, maxBytes);
      match steps[|steps| - 1] {
        case Capture(st, data) =>
          var lines := HistoryOf(front);
          var count := |RingOf(front, maxLines, maxBytes)|;
          RingHoldsSuffix(lines, count, Entry(st, data, |lines| + 1, 0), maxLines, maxBytes);
        case Wipe =>
      }
    }
  }

  /** A batch of lines as the route captures it. */
  function Captures(lines: seq<Bytes>, st: Stream, maxLine: nat): seq<RouteStep> {
    seq(|lines|, i requires 0 <= i < |lines| => Capture(st, RingData(lines[i], maxLine)))
  }

  lemma HistoryAppend(steps: seq<RouteStep>, st: Stream, data: Bytes)
    ensures HistoryOf(steps + [Capture(st, data)]) ==
      HistoryOf(steps) + [Entry(st, data, |HistoryOf(steps)| + 1, 0)]
  {
    assert (steps + [Capture(st, data)])[..|steps|] == steps;
  }

  lemma RingAppend(steps: seq<RouteStep>, st: Stream, data: Bytes, maxLines: nat, maxBytes: nat)
    ensures RingOf(steps + [Capture(st, data)], maxLines, maxBytes) ==
      Push(RingOf(steps, maxLines, maxBytes), Entry(st, data, |HistoryOf(steps)| + 1, 0), maxLines, maxBytes)
  {
    assert (steps + [Capture(st, data)])[..|steps|] == steps;
  }

  lemma NoCaptures(steps: seq<RouteStep>, st: Stream, first: nat, maxLine: nat)
    ensures steps + Captures([], st, maxLine) == steps && Captured([], st, first, maxLine) == []
  {
  }

  lemma CapturesAppend(steps: seq<RouteStep>, lines: seq<Bytes>, st: Stream, maxLine: nat)
    requires lines != []
    ensures var n := |lines| - 1;
      steps + Captures(lines, st, maxLine) ==
        (steps + Captures(lines[..n], st, maxLine)) + [Capture(st, RingData(lines[n], maxLine))]
  {
  }

  /** A batch adds its entries to the history, numbered on from there. */
  lemma {:induction false} BatchHistory(steps: seq<RouteStep>, lines: seq<Bytes>, st: Stream, maxLine: nat)
    ensures HistoryOf(steps + Captures(lines, st, maxLine)) ==
      HistoryOf(steps) + Captured(lines, st, |HistoryOf(steps)|, maxLine)
  {
    if lines == [] {
      NoCaptures(steps, st, |HistoryOf(steps)|, maxLine);
    } else {
      var n := |lines| - 1;
      BatchHistory(steps, lines[..n], st, maxLine);
      CapturesAppend(steps, lines, st, maxLine);
      HistoryAppend(steps + Captures(lines[..n], st, maxLine), st, RingData(lines[n], maxLine));
      CapturedAppend(lines, n, st, |HistoryOf(steps)|, maxLine);
      assert lines[..n + 1] == lines;
    }
  }

  /** And pushes them into the ring one by one. */
  lemma BatchRing(steps: seq<RouteStep>, lines: seq<Bytes>, st: Stream, maxLine: nat, maxLines: nat, maxBytes: nat)
    ensures RingOf(steps + Captures(lines, st, maxLine), maxLines, maxBytes) ==
      PushAll(RingOf(steps, maxLines, maxBytes), Captured(lines, st, |HistoryOf(steps)|, maxLine), maxLines, maxBytes)
  {
    var view, first := RingOf(steps, maxLines, maxBytes), |HistoryOf(steps)|;
    NoCaptures(steps, st, first, maxLine);
    forall k: nat | k < |lines|
      ensures RingOf(steps + Captures(lines[..k + 1], st, maxLine), maxLines, maxBytes) ==
        Push(RingOf(steps + Captures(lines[..k], st, maxLine), maxLines, maxBytes),
             Entry(st, RingData(lines[k], maxLine), first + k + 1, 0), maxLines, maxBytes)
    {
      assert lines[..k + 1][..k] == lines[..k];
      BatchRingNext(steps, lines[..k + 1], st, maxLine, maxLines, maxBytes);
    }
    var rings := seq(|lines| + 1, k requires 0 <= k <= |lines| =>
      RingOf(steps + Captures(lines[..k], st, maxLine), maxLines, maxBytes));
    assert lines[..0] == [] && lines[..|lines|] == lines;
    PushedBy(view, rings, lines, st, first, maxLine, maxLines, maxBytes);
  }

  /** Rings that grow by one pushed line each end where pushing all the lines ends. */
  lemma {:induction false} PushedBy(view: seq<Entry>, rings: seq<seq<Entry>>, lines: seq<Bytes>, st: Stream, first: nat,
                                    maxLine: nat, maxLines: nat, maxBytes: nat)
    requires |rings| == |lines| + 1 && rings[0] == view
    requires forall k :: 0 <= k < |lines| ==>
      rings[k + 1] == Push(rings[k], Entry(st, RingData(lines[k], maxLine), first + k + 1, 0), maxLines, maxBytes)
    ensures rings[|lines|] == PushAll(view, Captured(lines, st, first, maxLine), maxLines, maxBytes)
  {
    if lines != [] {
      var n := |lines| - 1;
      PushedBy(view, rings[..n + 1], lines[..n], st, first, maxLine, maxLines, maxBytes);
      PushedNext(view, rings[n], rings[n + 1], lines, st, first, maxLine, maxLines, maxBytes);
    }
  }

  lemma PushedNext(view: seq<Entry>, mid: seq<Entry>, end: seq<Entry>, lines: seq<Bytes>, st: Stream, first: nat,
                   maxLine: nat, maxLines: nat, maxBytes: nat)
    requires lines != []
    requires var n := |lines| - 1;
      && mid == PushAll(view, Captured(lines[..n], st, first, maxLine), maxLines, maxBytes)
      && end == Push(mid, Entry(st, RingData(lines[n], maxLine), first + n + 1, 0), maxLines, maxBytes)
    ensures end == PushAll(view, Captured(lines, st, first, maxLine), maxLines, maxBytes)
  {
    PushAllNext(view, lines, st, first, maxLine, maxLines, maxBytes);
  }

  lemma BatchRingNext(steps: seq<RouteStep>, lines: seq<Bytes>, st: Stream, maxLine: nat, maxLines: nat, maxBytes: nat)
    requires lines != []
    ensures var n := |lines| - 1;
      RingOf(steps + Captures(lines, st, maxLine), maxLines, maxBytes) ==
        Push(RingOf(steps + Captures(lines[..n], st, maxLine), maxLines, maxBytes),
             Entry(st, RingData(lines[n], maxLine), |HistoryOf(steps)| + n + 1, 0), maxLines, maxBytes)
  {
    var n := |lines| - 1;
    BatchHistory(steps, lines[..n], st, maxLine);
    CapturesAppend(steps, lines, st, maxLine);
    RingAppend(steps + Captures(lines[..n], st, maxLine), st, RingData(lines[n], maxLine), maxLines, maxBytes);
  }

  lemma PushAllNext(view: seq<Entry>, lines: seq<Bytes>, st: Stream, first: nat, maxLine: nat,
                    maxLines: nat, maxBytes: nat)
    requires lines != []
    ensures var n := |lines| - 1;
      PushAll(view, Captured(lines, st, first, maxLine), maxLines, maxBytes) ==
        Push(PushAll(view, Captured(lines[..n], st, first, maxLine), maxLines, maxBytes),
             Entry(st, RingData(lines[n], maxLine), first + n + 1, 0), maxLines, maxBytes)
  {
    var n := |lines| - 1;
    assert lines[..n + 1] == lines;
    CapturedAppend(lines, n, st, first, maxLine);
    PushAllAppend(view, Captured(lines[..n], st, first, maxLine),
                  Entry(st, RingData(lines[n], maxLine), first + 1 + n, 0), maxLines, maxBytes);
  }

  /** The route's ring and numbering are those of a run of captures and clears. */
  ghost predicate Mirrors(route: LogRoute, steps: seq<RouteStep>)
    reads route, route.ring, route.ring.slots
  {
    && route.seqNo == |HistoryOf(steps)|
    && route.ring.View() == RingOf(steps, route.ring.slots.Length, route.ring.maxBytes)
  }

  /** A route that has appended a batch mirrors the run with the batch's captures added. */
  lemma AppendMirrors(route: LogRoute, steps: seq<RouteStep>, view: seq<Entry>, lines: seq<Bytes>, st: Stream)
    requires view == RingOf(steps, route.ring.slots.Length, route.ring.maxBytes)
    requires route.Stored(view, lines, |lines|, st, |HistoryOf(steps)|)
    ensures Mirrors(route, steps + Captures(lines, st, route.maxLine))
  {
    BatchHistory(steps, lines, st, route.maxLine);
    BatchRing(steps, lines, st, route.maxLine, route.ring.slots.Length, route.ring.maxBytes);
    assert lines[..|lines|] == lines;
  }

  /** A route that has been cleared mirrors the run with a clear added, and a new one the empty run. */
  lemma ClearMirrors(route: LogRoute, steps: seq<RouteStep>)
    requires route.ring.View() == []
    ensures route.seqNo == |HistoryOf(steps)| ==> Mirrors(route, steps + [Wipe])
    ensures route.seqNo == 0 ==> Mirrors(route, [])
  {
    assert (steps + [Wipe])[..|steps|] == steps;
  }

  /**
    A client's visit: what the route did before the subscription, between it
    and the snapshot, and after; the ring's bounds; the channel's capacity; and
    when the client's consumer ran while each line since was fanned out.
   */
  datatype Visit = Visit(
    before: seq<RouteStep>, between: seq<RouteStep>, after: seq<RouteStep>,
    maxLines: nat, maxBytes: nat, capacity: nat, when: seq<Schedule>)

  function AllLines(v: Visit): seq<Entry> {
    HistoryOf(v.before + v.between + v.after)
  }

  function HeldAt(v: Visit): seq<Entry> {
    RingOf(v.before + v.between, v.maxLines, v.maxBytes)
  }

  /** How many lines there were at the subscription, and at the snapshot. */
  function SubscribedAt(v: Visit): nat {
    |HistoryOf(v.before)|
  }

  function SnapshotAt(v: Visit): nat {
    |HistoryOf(v.before + v.between)|
  }

  predicate Possible(v: Visit) {
    v.maxLines > 0 && v.capacity > 0 && |AllLines(v)| == SubscribedAt(v) + |v.when|
  }

  /** The client's side of the route in the end. */
  function Client(v: Visit): SubState
    requires Possible(v)
  {
    FanAll(Subscribed(v.capacity), AllLines(v)[SubscribedAt(v)..], v.when)
  }

  /** Every visit is an attachment, whatever the route did and whenever the consumer ran. */
  lemma VisitAttaches(v: Visit)
    requires Possible(v)
    ensures |HeldAt(v)| <= SnapshotAt(v) <= |AllLines(v)|
    ensures HeldAt(v) == RingAt(AllLines(v), SnapshotAt(v), |HeldAt(v)|)
    ensures Attached(AllLines(v), SubscribedAt(v), SnapshotAt(v), |HeldAt(v)|, Client(v))
  {
    VisitPrefixes(v);
    var lines := AllLines(v);
    RunHistory(v.before + v.between + v.after);
    RingOfRun(v.before + v.between, v.maxLines, v.maxBytes);
    SliceOfPrefix(HistoryOf(v.before + v.between), lines, |HeldAt(v)|);
    LaterProduced(lines, SubscribedAt(v));
    LossNeverSilent(v.capacity, lines[SubscribedAt(v)..], v.when);
  }

  lemma VisitPrefixes(v: Visit)
    ensures SubscribedAt(v) <= SnapshotAt(v) <= |AllLines(v)|
    ensures HistoryOf(v.before + v.between) <= AllLines(v)
  {
    HistoryGrows(v.before, v.between);
    HistoryGrows(v.before + v.between, v.after);
  }

  lemma LaterProduced(lines: seq<Entry>, a: nat)
    requires History(lines) && a <= |lines|
    ensures Produced(lines[a..])
  {
  }

  lemma SliceOfPrefix(prefix: seq<Entry>, lines: seq<Entry>, count: nat)
    requires prefix <= lines && count <= |prefix|
    ensures RingAt(prefix, |prefix|, count) == RingAt(lines, |prefix|, count)
  {
  }

  /**
    The attach boundary over all runs: per stream the client's lines carry
    strictly rising numbers; it gets a wanted line above the snapshot exactly
    when that line entered its channel, and one at or below exactly when the
    ring still held it among the last n; and the lines since the subscription
    that never entered the channel are all announced or pending.
   */
  lemma AttachBoundary(v: Visit, n: int, withStderr: bool, st: Stream)
    requires Possible(v) && IsWanted(st, withStderr)
    ensures |HeldAt(v)| <= SnapshotAt(v) <= |AllLines(v)| && SubscribedAt(v) <= |AllLines(v)|
    ensures var lines, sub := AllLines(v), Client(v);
      var snap := SnapshotOf(HeldAt(v), n, withStderr);
      var got := ClientLines(snap, Sent(sub), st, withStderr);
      && Increasing(got)
      && (forall e :: e in lines && e.stream == st ==>
            (e in got <==>
              if e.seqNo <= snap.maxSeq then InBacklog(lines, SnapshotAt(v), |HeldAt(v)|, n, e)
              else e in DeliveredLines(Sent(sub))))
      && |SeqNos(OfStream(lines[SubscribedAt(v)..], st)) - SeqNos(OfStream(DeliveredLines(Sent(sub)), st))|
           == AnnouncedOf(Followed(Sent(sub), snap.maxSeq, withStderr), st) + Pending(sub, st)
  {
    var lines, a, b, count, sub := AllLines(v), SubscribedAt(v), SnapshotAt(v), |HeldAt(v)|, Client(v);
    VisitAttaches(v);
    NoLineTwice(lines, a, b, count, n, withStderr, sub, st);
    MissingIsAnnounced(lines, a, b, count, n, withStderr, sub, st);
    forall e | e in lines && e.stream == st
      ensures var snap := SnapshotOf(HeldAt(v), n, withStderr);
        e in ClientLines(snap, Sent(sub), st, withStderr) <==>
          if e.seqNo <= snap.maxSeq then InBacklog(lines, b, count, n, e) else e in DeliveredLines(Sent(sub))
    {
      ClientExact(lines, a, b, count, n, withStderr, sub, e);
    }
  }

  // -------------------------------------------------------------- the gap

  /**
    Two lines in the window and a client that asked for the last one, or a ring
    that has lost the first: that line is queued, dropped as covered by the
    snapshot, and neither shown nor announced.
   */
  lemma AttachGapExample(x: Entry, y: Entry, capacity: nat, count: nat, n: nat)
    requires History([x, y]) && x.stream == y.stream == Stdout && capacity >= 2
    requires (count == 2 && n == 1) || (count == 1 && n >= 1)
    ensures var sub := Fan(Fan(Subscribed(capacity), x, Schedule(0, 0)), y, Schedule(0, 0));
      var snap := SnapshotOf(RingAt([x, y], 2, count), n, false);
      && Attached([x, y], 0, 2, count, sub)
      && x in DeliveredLines(Sent(sub)) && AnnouncedOf(Sent(sub), Stdout) == 0
      && x !in ClientLines(snap, Sent(sub), Stdout, false)
  {
    TwoQueued(x, y, capacity);
    TwoQueuedSound(x, y, capacity);
    assert [x, y][0..] == [x, y];
    CoveredAndGone(x, y, SubState(capacity, [], [x] + [y], map[], 0), count, n);
  }

  lemma TwoQueued(x: Entry, y: Entry, capacity: nat)
    requires capacity >= 2
    ensures Fan(Fan(Subscribed(capacity), x, Schedule(0, 0)), y, Schedule(0, 0)) ==
      SubState(capacity, [], [x] + [y], map[], 0)
  {
    OneQueued(Subscribed(capacity), x);
    OneQueued(SubState(capacity, [], [x], map[], 0), y);
  }

  lemma OneQueued(s: SubState, e: Entry)
    requires s.received == [] && s.pending == map[] && |s.channel| < s.capacity
    ensures Fan(s, e, Schedule(0, 0)) == s.(channel := s.channel + [e])
  {
    assert Receive(s, 0) == s;
  }

  lemma TwoQueuedSound(x: Entry, y: Entry, capacity: nat)
    requires History([x, y]) && capacity >= 2
    ensures Sound(SubState(capacity, [], [x] + [y], map[], 0), [x, y])
  {
    assert x == [x, y][0] && y == [x, y][1];
    assert [] + [x] == [x] && [x] + [y] == [x, y];
    EmptySound(capacity);
    QueuedSound(Subscribed(capacity), x, []);
    QueuedSound(SubState(capacity, [], [x], map[], 0), y, [x]);
  }

  lemma QueuedSound(s: SubState, e: Entry, lines: seq<Entry>)
    requires Sound(s, lines) && Produced(lines + [e])
    requires s.pending == map[] && |s.channel| < s.capacity
    ensures Sound(s.(channel := s.channel + [e]), lines + [e])
  {
    DeliverSound(s, e, lines);
  }

  lemma CoveredAndGone(x: Entry, y: Entry, sub: SubState, count: nat, n: nat)
    requires History([x, y]) && x.stream == y.stream == Stdout
    requires (count == 2 && n == 1) || (count == 1 && n >= 1)
    requires Sent(sub) == [x] + [y] && Attached([x, y], 0, 2, count, sub)
    ensures var snap := SnapshotOf(RingAt([x, y], 2, count), n, false);
      && x in DeliveredLines(Sent(sub)) && AnnouncedOf(Sent(sub), Stdout) == 0
      && x !in ClientLines(snap, Sent(sub), Stdout, false)
  {
    CoveredUpTo2(x, y, count, n);
    assert x == [x, y][0] && y == [x, y][1];
    SentAppend([x], y);
    SentAppend([], x);
    assert [] + [x] == [x];
    FirstLeftOut(x, y, count, n);
    ClientExact([x, y], 0, 2, count, n, false, sub, x);
  }

  lemma FirstLeftOut(x: Entry, y: Entry, count: nat, n: nat)
    requires History([x, y]) && x.stream == y.stream == Stdout
    requires (count == 2 && n == 1) || (count == 1 && n >= 1)
    ensures !InBacklog([x, y], 2, count, n, x)
  {
    assert x == [x, y][0];
    if count == 2 {
      assert [x, y][1..2] == [y];
      LinesAppend([], y);
      assert [] + [y] == [y];
    }
  }

  lemma CoveredUpTo2(x: Entry, y: Entry, count: nat, n: nat)
    requires History([x, y]) && x.stream == y.stream == Stdout
    requires 1 <= count <= 2 && n >= 1
    ensures SnapshotOf(RingAt([x, y], 2, count), n, false).maxSeq == 2
    ensures AnnouncedOf([x] + [y], Stdout) == 0
  {
    assert x == [x, y][0] && y == [x, y][1];
    var view := RingAt([x, y], 2, count);
    assert view[|view| - 1] == y;
    WantedLastSeq(view);
    NothingAnnounced(x, y);
  }

  lemma WantedLastSeq(view: seq<Entry>)
    requires view != [] && view[|view| - 1].stream == Stdout
    ensures LastSeq(Wanted(view, false)) == view[|view| - 1].seqNo
  {
  }

  lemma NothingAnnounced(x: Entry, y: Entry)
    requires x.dropped == y.dropped == 0
    ensures AnnouncedOf([x] + [y], Stdout) == 0
  {
    assert ([x] + [y])[..1] == [x] && [x][..0] == [];
    assert AnnouncedOf([x], Stdout) == 0;
  }
}
