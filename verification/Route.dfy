/**
  One app's log route: captured lines get a route-wide sequence number, go into
  the ring, and are fanned out to every subscriber.
*/
module Route {
  import opened Common
  import opened LogLines
  import opened LogRing
  import opened Subscriber

  /** The suffix put on a line cut to the ring's line limit: "...[truncated]". */
  const CUT_MARK: Bytes := [46, 46, 46, 91, 116, 114, 117, 110, 99, 97, 116, 101, 100, 93]

  function RingData(line: Bytes, maxLine: nat): Bytes {
    if |line| > maxLine then line[..maxLine] + CUT_MARK else line
  }

  function Ascii(text: string): Bytes {
    seq(|text|, i requires 0 <= i < |text| => if text[i] < 128 as char then text[i] as int as byte else 0)
  }

  /** The entry shows the line, whole if it is within the limit, else its head and a mark. */
  predicate Carries(e: Entry, line: Bytes, maxLine: nat) {
    if |line| <= maxLine then e.data == line else e.data == line[..maxLine] + Ascii("...[truncated]")
  }

  /** The entries of a batch: one per line, in order, numbered on, each showing its line. */
  ghost predicate IsBatch(es: seq<Entry>, lines: seq<Bytes>, st: Stream, first: nat, maxLine: nat) {
    && |es| == |lines|
    && forall k :: 0 <= k < |es| ==>
         es[k].stream == st && es[k].seqNo == first + 1 + k && es[k].dropped == 0 && Carries(es[k], lines[k], maxLine)
  }

  lemma RingDataCarries(e: Entry, line: Bytes, maxLine: nat)
    requires e.data == RingData(line, maxLine)
    ensures Carries(e, line, maxLine)
  {
    assert CUT_MARK == Ascii("...[truncated]");
  }

  lemma CapturedIsBatch(lines: seq<Bytes>, st: Stream, first: nat, maxLine: nat)
    ensures IsBatch(Captured(lines, st, first, maxLine), lines, st, first, maxLine)
  {
    var es := Captured(lines, st, first, maxLine);
    forall k | 0 <= k < |es|
      ensures Carries(es[k], lines[k], maxLine)
    {
      RingDataCarries(es[k], lines[k], maxLine);
    }
  }

  /** The entries a batch of lines becomes, numbered from seqNo + 1. */
  function Captured(lines: seq<Bytes>, st: Stream, seqNo: nat, maxLine: nat): (es: seq<Entry>)
    ensures |es| == |lines|
  {
    seq(|lines|, i requires 0 <= i < |lines| => Entry(st, RingData(lines[i], maxLine), seqNo + 1 + i, 0))
  }

  /** How many lines of a batch are cut. */
  function Overlong(lines: seq<Bytes>, maxLine: nat): nat {
    if lines == [] then 0
    else Overlong(lines[..|lines| - 1], maxLine) + if |lines[|lines| - 1]| > maxLine then 1 else 0
  }

  lemma OverlongNext(lines: seq<Bytes>, k: nat, maxLine: nat)
    requires k < |lines|
    ensures Overlong(lines[..k + 1], maxLine) == Overlong(lines[..k], maxLine) + if |lines[k]| > maxLine then 1 else 0
  {
    assert lines[..k + 1][..k] == lines[..k];
  }

  function PushAll(view: seq<Entry>, entries: seq<Entry>, maxLines: nat, maxBytes: nat): seq<Entry> {
    if entries == [] then view
    else
      var n := |entries| - 1;
      Push(PushAll(view, entries[..n], maxLines, maxBytes), entries[n], maxLines, maxBytes)
  }

  /** The contents of a ring that has lost only its oldest lines: the last |view| numbers up to seqNo. */
  predicate Consecutive(view: seq<Entry>, seqNo: nat) {
    |view| <= seqNo && forall i :: 0 <= i < |view| ==> view[i].seqNo == seqNo - |view| + 1 + i
  }

  lemma PushConsecutive(view: seq<Entry>, e: Entry, maxLines: nat, maxBytes: nat, seqNo: nat)
    requires maxLines > 0 && Consecutive(view, seqNo) && e.seqNo == seqNo + 1
    ensures Consecutive(Push(view, e, maxLines, maxBytes), seqNo + 1)
    ensures |Push(view, e, maxLines, maxBytes)| <= |view| + 1
  {
    PushKeepsLongestSuffix(view, e, maxLines, maxBytes);
  }

  /** Each batch yields produced lines, above everything numbered before it. */
  lemma CapturedProduced(lines: seq<Bytes>, st: Stream, seqNo: nat, maxLine: nat, earlier: seq<Entry>)
    requires Produced(earlier) && forall i :: 0 <= i < |earlier| ==> earlier[i].seqNo <= seqNo
    ensures Produced(earlier + Captured(lines, st, seqNo, maxLine))
  {
  }

  lemma CapturedAppend(lines: seq<Bytes>, k: nat, st: Stream, seqNo: nat, maxLine: nat)
    requires k < |lines|
    ensures Captured(lines[..k + 1], st, seqNo, maxLine) ==
      Captured(lines[..k], st, seqNo, maxLine) + [Entry(st, RingData(lines[k], maxLine), seqNo + 1 + k, 0)]
  {
  }

  lemma PushAllAppend(view: seq<Entry>, entries: seq<Entry>, e: Entry, maxLines: nat, maxBytes: nat)
    ensures PushAll(view, entries + [e], maxLines, maxBytes) ==
      Push(PushAll(view, entries, maxLines, maxBytes), e, maxLines, maxBytes)
  {
    assert (entries + [e])[..|entries|] == entries;
  }

  lemma FanAllAppend(s: SubState, entries: seq<Entry>, when: seq<Schedule>, e: Entry, w: Schedule)
    requires |when| == |entries|
    ensures FanAll(s, entries + [e], when + [w]) == Fan(FanAll(s, entries, when), e, w)
  {
    assert (entries + [e])[..|entries|] == entries && (when + [w])[..|when|] == when;
  }

  /** A subscriber's state after the first k lines of a batch. */
  function Through(s: SubState, lines: seq<Bytes>, k: nat, st: Stream, first: nat, maxLine: nat,
                   when: seq<Schedule>): SubState
    requires k <= |lines| == |when|
  {
    FanAll(s, Captured(lines[..k], st, first, maxLine), when[..k])
  }

  lemma ThroughNext(s: SubState, lines: seq<Bytes>, k: nat, st: Stream, first: nat, maxLine: nat, when: seq<Schedule>)
    requires k < |lines| == |when|
    ensures Through(s, lines, k + 1, st, first, maxLine, when) ==
      Fan(Through(s, lines, k, st, first, maxLine, when),
          Entry(st, RingData(lines[k], maxLine), first + 1 + k, 0), when[k])
  {
    CapturedAppend(lines, k, st, first, maxLine);
    assert when[..k + 1] == when[..k] + [when[k]];
    FanAllAppend(s, Captured(lines[..k], st, first, maxLine), when[..k],
                 Entry(st, RingData(lines[k], maxLine), first + 1 + k, 0), when[k]);
  }

  lemma ThroughStart(s: SubState, lines: seq<Bytes>, st: Stream, first: nat, maxLine: nat, when: seq<Schedule>)
    requires |lines| == |when|
    ensures Through(s, lines, 0, st, first, maxLine, when) == s
  {
  }

  /** One live consumer. */
  class Sub {
    const capacity: nat
    var received: seq<Entry>
    var channel: seq<Entry>
    var pending: map<Stream, nat>
    var drops: nat
    var open: bool

    constructor (capacity: nat)
      ensures this.capacity == capacity && State() == Subscribed(capacity) && open
    {
      this.capacity := capacity;
      received, channel, pending, drops, open := [], [], map[], 0, true;
    }

    function State(): SubState
      reads this
    {
      SubState(capacity, received, channel, pending, drops)
    }

    /** The consumer side: take up to k entries. */
    method Take(k: nat)
      modifies this`received, this`channel
      ensures State() == Receive(old(State()), k)
    {
      var n := Min(k, |channel|);
      received, channel := received + channel[..n], channel[n..];
    }

    /** The route side: marker first if one is due, then the line, neither ever blocking. */
    method Offer(e: Entry, when: Schedule)
      modifies this`received, this`channel, this`pending, this`drops
      ensures State() == Fan(old(State()), e, when)
    {
      Take(when.before);
      var n := if e.stream in pending then pending[e.stream] else 0;
      if n > 0 {
        if |channel| < capacity {
          channel := channel + [Marker(e.stream, n, e.seqNo)];
          pending := pending[e.stream := 0];
        }
      }
      Take(when.between);
      if |channel| < capacity {
        channel := channel + [e];
      } else {
        pending := pending[e.stream := (if e.stream in pending then pending[e.stream] else 0) + 1];
        drops := drops + 1;
      }
    }
  }

  /** When each subscriber's consumer runs while one line is fanned out. */
  type Schedules = map<Sub, Schedule>

  function ScheduleOf(sched: seq<Schedules>, s: Sub): seq<Schedule>
    requires forall i :: 0 <= i < |sched| ==> s in sched[i]
  {
    seq(|sched|, i requires 0 <= i < |sched| => sched[i][s])
  }

  class LogRoute {
    const maxLine: nat
    const subBuffer: nat
    const ring: Ring
    var seqNo: nat
    var truncated: nat
    var subs: set<Sub>
    var closed: bool
    ghost var cleared: nat

    ghost predicate Valid()
      reads this, ring, ring.slots
    {
      && ring.Valid()
      && Consecutive(ring.View(), seqNo)
      && seqNo == ring.evicted + cleared + ring.count
    }

    constructor (ringLines: nat, ringBytes: nat, maxLine: nat, subBuffer: nat)
      requires ringLines > 0 && subBuffer > 0
      ensures Valid() && fresh(ring) && fresh(ring.slots)
      ensures ring.View() == [] && seqNo == 0 && subs == {} && !closed
      ensures this.maxLine == maxLine && this.subBuffer == subBuffer
    {
      this.maxLine := maxLine;
      this.subBuffer := subBuffer;
      ring := new Ring(ringLines, ringBytes);
      seqNo, truncated, subs, closed, cleared := 0, 0, {}, false, 0;
    }

    /** A closed route still hands out a subscription, with its channel already closed. */
    method Subscribe() returns (s: Sub)
      modifies this`subs
      ensures fresh(s) && s.State() == Subscribed(subBuffer) && s.open == !closed
      ensures subs == if closed then old(subs) else old(subs) + {s}
    {
      s := new Sub(subBuffer);
      if closed {
        s.open := false;
        return;
      }
      subs := subs + {s};
    }

    /** Idempotent: a subscriber no longer registered is left alone. */
    method Unsubscribe(s: Sub)
      modifies this`subs, s`open
      ensures subs == old(subs) - {s}
      ensures s.open == (old(s.open) && s !in old(subs)) && s.State() == old(s.State())
    {
      if s !in subs {
        return;
      }
      subs := subs - {s};
      s.open := false;
    }

    /** Close every channel, once; what is queued stays readable. */
    method Close()
      modifies this`subs, this`closed, subs`open
      ensures closed && (old(closed) ==> subs == old(subs)) && (!old(closed) ==> subs == {})
      ensures forall s :: s in old(subs) ==>
        s.State() == old(s.State()) && s.open == (old(s.open) && old(closed))
    {
      if closed {
        return;
      }
      closed := true;
      var rest := subs;
      subs := {};
      while rest != {}
        invariant rest <= old(subs) && subs == {} && closed
        invariant forall s :: s in old(subs) - rest ==> !s.open
        invariant forall s :: s in old(subs) ==> s.State() == old(s.State())
      {
        var s :| s in rest;
        s.open := false;
        rest := rest - {s};
      }
    }

    method Clear()
      requires Valid()
      modifies this`cleared, ring
      ensures Valid() && ring.View() == [] && seqNo == old(seqNo)
      ensures cleared == old(cleared) + old(ring.count) && fresh(ring.slots)
    {
      cleared := cleared + ring.count;
      ring.Clear();
    }

    /** One line to every subscriber, each under its own schedule. */
    method Fanout(e: Entry, when: Schedules)
      requires forall s :: s in subs ==> s in when
      modifies subs
      ensures forall s :: s in subs ==> s.State() == Fan(old(s.State()), e, when[s])
    {
      var rest := subs;
      while rest != {}
        invariant rest <= subs
        invariant forall s :: s in rest ==> s.State() == old(s.State())
        invariant forall s :: s in subs - rest ==> s.State() == Fan(old(s.State()), e, when[s])
      {
        var s :| s in rest;
        s.Offer(e, when[s]);
        rest := rest - {s};
      }
    }

    /** Number one line and put it in the ring. */
    method Store(line: Bytes, st: Stream) returns (e: Entry)
      requires Valid()
      modifies this`seqNo, this`truncated, ring, ring.slots
      ensures Valid() && seqNo == old(seqNo) + 1 && ring.slots == old(ring.slots)
      ensures e == Entry(st, RingData(line, maxLine), seqNo, 0) && Carries(e, line, maxLine)
      ensures ring.View() == Push(old(ring.View()), e, ring.slots.Length, ring.maxBytes)
      ensures truncated == old(truncated) + if |line| > maxLine then 1 else 0
    {
      var data := line;
      if |data| > maxLine {
        data := data[..maxLine] + CUT_MARK;
        truncated := truncated + 1;
      }
      e := Entry(st, data, seqNo + 1, 0);
      RingDataCarries(e, line, maxLine);
      PushConsecutive(ring.View(), e, ring.slots.Length, ring.maxBytes, seqNo);
      seqNo := seqNo + 1;
      var gone := ring.PushRing(e);
    }

    /** The ring after the first k lines of a batch. */
    ghost predicate Stored(before: seq<Entry>, lines: seq<Bytes>, k: nat, st: Stream, first: nat)
      requires k <= |lines|
      reads this, ring, ring.slots
    {
      && seqNo == first + k
      && ring.View() == PushAll(before, Captured(lines[..k], st, first, maxLine), ring.slots.Length, ring.maxBytes)
    }

    lemma StoredNext(before: seq<Entry>, view: seq<Entry>, lines: seq<Bytes>, k: nat, st: Stream, first: nat)
      requires k < |lines|
      requires view == PushAll(before, Captured(lines[..k], st, first, maxLine), ring.slots.Length, ring.maxBytes)
      requires seqNo == first + k + 1
      requires ring.View() ==
        Push(view, Entry(st, RingData(lines[k], maxLine), seqNo, 0), ring.slots.Length, ring.maxBytes)
      ensures Stored(before, lines, k + 1, st, first)
    {
      CapturedAppend(lines, k, st, first, maxLine);
      PushAllAppend(before, Captured(lines[..k], st, first, maxLine),
                    Entry(st, RingData(lines[k], maxLine), seqNo, 0), ring.slots.Length, ring.maxBytes);
    }

    /** What every subscriber holds, as values. */
    ghost function SubStates(): map<Sub, SubState>
      reads this, subs
    {
      map s | s in subs :: s.State()
    }

    /** The subscribers after the first k lines of a batch. */
    ghost predicate Fanned(before: map<Sub, SubState>, now: map<Sub, SubState>, lines: seq<Bytes>, k: nat, st: Stream,
                           first: nat, sched: seq<Schedules>)
      requires k <= |lines| == |sched|
      requires forall i :: 0 <= i < |sched| ==> now.Keys <= sched[i].Keys
    {
      && before.Keys == now.Keys
      && forall s :: s in now ==> now[s] == Through(before[s], lines, k, st, first, maxLine, ScheduleOf(sched, s))
    }

    lemma FannedNext(before: map<Sub, SubState>, mid: map<Sub, SubState>, now: map<Sub, SubState>,
                     lines: seq<Bytes>, k: nat, st: Stream, first: nat, sched: seq<Schedules>)
      requires k < |lines| == |sched|
      requires forall i :: 0 <= i < |sched| ==> now.Keys <= sched[i].Keys
      requires mid.Keys == now.Keys && Fanned(before, mid, lines, k, st, first, sched)
      requires forall s :: s in now ==>
        now[s] == Fan(mid[s], Entry(st, RingData(lines[k], maxLine), first + 1 + k, 0), sched[k][s])
      ensures Fanned(before, now, lines, k + 1, st, first, sched)
    {
      forall s | s in now
        ensures now[s] == Through(before[s], lines, k + 1, st, first, maxLine, ScheduleOf(sched, s))
      {
        ThroughNext(before[s], lines, k, st, first, maxLine, ScheduleOf(sched, s));
      }
    }

    lemma FannedStart(before: map<Sub, SubState>, lines: seq<Bytes>, st: Stream, first: nat, sched: seq<Schedules>)
      requires |lines| == |sched|
      requires forall i :: 0 <= i < |sched| ==> before.Keys <= sched[i].Keys
      ensures Fanned(before, before, lines, 0, st, first, sched)
    {
      forall s | s in before
        ensures before[s] == Through(before[s], lines, 0, st, first, maxLine, ScheduleOf(sched, s))
      {
        ThroughStart(before[s], lines, st, first, maxLine, ScheduleOf(sched, s));
      }
    }

    /** One stored line of a batch reaches every subscriber. */
    method FanNext(e: Entry, ghost before: map<Sub, SubState>, lines: seq<Bytes>, k: nat, st: Stream,
                   ghost first: nat, sched: seq<Schedules>)
      requires k < |lines| == |sched|
      requires forall i :: 0 <= i < |sched| ==> subs <= sched[i].Keys
      requires Fanned(before, SubStates(), lines, k, st, first, sched)
      requires e == Entry(st, RingData(lines[k], maxLine), first + 1 + k, 0)
      modifies subs
      ensures Fanned(before, SubStates(), lines, k + 1, st, first, sched)
    {
      ghost var mid := SubStates();
      if subs != {} {
        Fanout(e, sched[k]);
      }
      FannedNext(before, mid, SubStates(), lines, k, st, first, sched);
    }

    /** Everything a batch has done after its first k lines. */
    ghost predicate Appended(view0: seq<Entry>, subs0: map<Sub, SubState>, lines: seq<Bytes>, k: nat, st: Stream,
                             first: nat, sched: seq<Schedules>)
      requires k <= |lines| == |sched|
      requires forall i :: 0 <= i < |sched| ==> subs <= sched[i].Keys
      reads this, ring, ring.slots, subs
    {
      Stored(view0, lines, k, st, first) && Fanned(subs0, SubStates(), lines, k, st, first, sched)
    }

    /** One line of a batch. */
    method AppendNext(ghost view0: seq<Entry>, ghost subs0: map<Sub, SubState>, lines: seq<Bytes>, k: nat, st: Stream,
                      ghost first: nat, sched: seq<Schedules>)
      requires Valid() && k < |lines| == |sched|
      requires forall i :: 0 <= i < |sched| ==> subs <= sched[i].Keys
      requires Appended(view0, subs0, lines, k, st, first, sched)
      modifies this`seqNo, this`truncated, ring, ring.slots, subs
      ensures Valid() && ring.slots == old(ring.slots)
      ensures Appended(view0, subs0, lines, k + 1, st, first, sched)
      ensures truncated == old(truncated) + if |lines[k]| > maxLine then 1 else 0
    {
      ghost var view, states := ring.View(), SubStates();
      var e := Store(lines[k], st);
      StoredNext(view0, view, lines, k, st, first);
      assert SubStates() == states;
      FanNext(e, subs0, lines, k, st, first, sched);
    }

    /** A batch of captured lines; a closed route ignores it. */
    method AppendLines(lines: seq<Bytes>, st: Stream, sched: seq<Schedules>)
      requires Valid() && |sched| == |lines|
      requires forall i :: 0 <= i < |sched| ==> subs <= sched[i].Keys
      modifies this`seqNo, this`truncated, ring, ring.slots, subs
      ensures Valid()
      ensures truncated == old(truncated) + if old(closed) then 0 else Overlong(lines, maxLine)
      ensures old(closed) ==> seqNo == old(seqNo) && ring.View() == old(ring.View()) && SubStates() == old(SubStates())
      ensures !old(closed) ==>
        Appended(old(ring.View()), old(SubStates()), lines, |lines|, st, old(seqNo), sched)
      ensures !old(closed) ==> seqNo == old(seqNo) + |lines|
      ensures !old(closed) ==>
        exists es :: IsBatch(es, lines, st, old(seqNo), maxLine)
          && ring.View() == PushAll(old(ring.View()), es, ring.slots.Length, ring.maxBytes)
          && forall s :: s in subs ==> s.State() == FanAll(old(s.State()), es, ScheduleOf(sched, s))
    {
      if closed {
        return;
      }
      FannedStart(SubStates(), lines, st, seqNo, sched);
      for i := 0 to |lines|
        invariant Valid() && ring.slots == old(ring.slots)
        invariant Appended(old(ring.View()), old(SubStates()), lines, i, st, old(seqNo), sched)
        invariant truncated == old(truncated) + Overlong(lines[..i], maxLine)
      {
        OverlongNext(lines, i, maxLine);
        AppendNext(old(ring.View()), old(SubStates()), lines, i, st, old(seqNo), sched);
      }
      assert lines[..|lines|] == lines;
      CapturedIsBatch(lines, st, old(seqNo), maxLine);
      AllFanned(old(SubStates()), SubStates(), lines, st, old(seqNo), sched);
    }

    /** After a whole batch every subscriber has been offered all its entries. */
    lemma AllFanned(before: map<Sub, SubState>, now: map<Sub, SubState>, lines: seq<Bytes>, st: Stream,
                    first: nat, sched: seq<Schedules>)
      requires |sched| == |lines| && forall i :: 0 <= i < |sched| ==> now.Keys <= sched[i].Keys
      requires Fanned(before, now, lines, |lines|, st, first, sched)
      ensures forall s :: s in now ==>
        s in before && now[s] == FanAll(before[s], Captured(lines, st, first, maxLine), ScheduleOf(sched, s))
    {
      assert lines[..|lines|] == lines;
      forall s | s in now
        ensures ScheduleOf(sched, s)[..|lines|] == ScheduleOf(sched, s)
      {
      }
    }
  }
}
