/**
  The exit hand-off between the waitpid loop and the callers waiting for a
  child: a registered waiter gets the exit, an unclaimed exit is cached for a
  later registration, and the cache forgets its oldest entries.

  Channels are numbered as they are made; `chans` holds what is buffered in each.
 */
module Reaper {
  import opened Common

  const CACHE_CAP: nat := 1024

  datatype Info = Info(pid: int, exitCode: int, signaled: bool, termSig: int)

  datatype State = State(
    waiting: map<int, nat>,
    cache: map<int, Info>,
    order: seq<int>,
    chans: seq<seq<Info>>)

  /** Without the first occurrence of pid. */
  function RemoveFirst(order: seq<int>, pid: int): seq<int> {
    if order == [] then []
    else if order[0] == pid then order[1..]
    else [order[0]] + RemoveFirst(order[1..], pid)
  }

  /** Forget the oldest entries until the order fits the cap. */
  function Trim(s: State): State
    decreases |s.order|
  {
    if |s.order| > CACHE_CAP then Trim(s.(order := s.order[1..], cache := s.cache - {s.order[0]})) else s
  }

  datatype Event = Register(pid: int) | Deregister(pid: int) | Deliver(pid: int, info: Info)

  /** Registering makes channel number |chans|. */
  function Apply(s: State, e: Event): State {
    match e
    case Register(pid) =>
      if pid in s.cache then
        s.(chans := s.chans + [[s.cache[pid]]],
           cache := s.cache - {pid},
           order := RemoveFirst(s.order, pid))
      else s.(chans := s.chans + [[]], waiting := s.waiting[pid := |s.chans|])
    case Deregister(pid) => s.(waiting := s.waiting - {pid})
    case Deliver(pid, info) =>
      if pid in s.waiting then
        if s.waiting[pid] < |s.chans| then
          s.(waiting := s.waiting - {pid},
             chans := s.chans[s.waiting[pid] := s.chans[s.waiting[pid]] + [info]])
        else s
      else Trim(s.(cache := s.cache[pid := info], order := s.order + [pid]))
  }

  // -------------------------------------------------------------- invariants

  /**
    A pid is waited for or cached, never both; what is cached is in order; the
    cache stays within its cap; and every channel still waited on is empty.
   */
  ghost predicate Inv(s: State) {
    && (forall p :: p in s.waiting ==> p !in s.cache)
    && (forall p :: p in s.cache ==> p in s.order)
    && |s.order| <= CACHE_CAP
    && (forall p :: p in s.waiting ==> s.waiting[p] < |s.chans| && s.chans[s.waiting[p]] == [])
    && (forall p, q :: p in s.waiting && q in s.waiting && p != q ==> s.waiting[p] != s.waiting[q])
    && (forall c :: 0 <= c < |s.chans| ==> |s.chans[c]| <= 1)
  }

  /** Order and cache name the same pids, each once. */
  ghost predicate Clean(s: State) {
    NoDup(s.order) && forall p :: p in s.order <==> p in s.cache
  }

  lemma {:induction false} RemoveFirstFacts(order: seq<int>, pid: int)
    ensures forall p :: p != pid ==> (p in RemoveFirst(order, pid) <==> p in order)
    ensures |RemoveFirst(order, pid)| <= |order|
    ensures NoDup(order) ==> NoDup(RemoveFirst(order, pid)) && pid !in RemoveFirst(order, pid)
  {
    if order != [] && order[0] != pid {
      RemoveFirstFacts(order[1..], pid);
      assert order == [order[0]] + order[1..];
      if NoDup(order) {
        assert order[0] !in order[1..];
        NoDupCons(order[0], RemoveFirst(order[1..], pid));
      }
    } else if order != [] {
      assert order == [order[0]] + order[1..];
    }
  }

  /** Where the removal of pid goes on: here, or past the entry at i. */
  lemma FirstOrLater(order: seq<int>, pid: int, i: nat)
    requires i < |order|
    ensures order[..i] + RemoveFirst(order[i..], pid) ==
      if order[i] == pid then order[..i] + order[i + 1..] else order[..i + 1] + RemoveFirst(order[i + 1..], pid)
  {
    assert order[i..][1..] == order[i + 1..];
    assert order[..i + 1] == order[..i] + [order[i]];
  }

  lemma NoDupCons(x: int, rest: seq<int>)
    requires NoDup(rest) && x !in rest
    ensures NoDup([x] + rest)
  {
  }

  lemma TrimOne(s: State)
    requires |s.order| <= CACHE_CAP + 1
    ensures Trim(s) == if |s.order| > CACHE_CAP then s.(order := s.order[1..], cache := s.cache - {s.order[0]}) else s
  {
  }

  lemma StepKeepsInv(s: State, e: Event)
    requires Inv(s)
    ensures Inv(Apply(s, e))
  {
    match e
    case Register(pid) =>
      RemoveFirstFacts(s.order, pid);
    case Deregister(pid) =>
    case Deliver(pid, info) =>
      if pid !in s.waiting {
        var full := s.(cache := s.cache[pid := info], order := s.order + [pid]);
        assert full.order[|s.order|] == pid;
        TrimOne(full);
        CachedInOrder(s, full);
      }
  }

  /** The cache itself is within its cap. */
  lemma CacheBounded(s: State)
    requires Inv(s)
    ensures |s.cache| <= 1024
  {
    ListedFew(s.order, s.cache);
    var items, listed := s.cache.Items, Listed(s.order, s.cache);
    forall x | x in items
      ensures x in listed
    {
      ItemListed(s, x);
    }
    assert items + (listed - items) == listed;
  }

  lemma ItemListed(s: State, x: (int, Info))
    requires Inv(s) && x in s.cache.Items
    ensures x in Listed(s.order, s.cache)
  {
    ListedIf(s, x.0);
  }

  lemma ListedIf(s: State, pid: int)
    requires Inv(s) && pid in s.cache
    ensures (pid, s.cache[pid]) in Listed(s.order, s.cache)
  {
    ListedFew(s.order, s.cache);
  }

  /** The cache entries of the pids in order. */
  function Listed(order: seq<int>, cache: map<int, Info>): set<(int, Info)> {
    if order == [] then {}
    else
      var pid := order[|order| - 1];
      Listed(order[..|order| - 1], cache) + (if pid in cache then {(pid, cache[pid])} else {})
  }

  lemma {:induction false} ListedFew(order: seq<int>, cache: map<int, Info>)
    ensures |Listed(order, cache)| <= |order|
    ensures forall p :: p in order && p in cache ==> (p, cache[p]) in Listed(order, cache)
  {
    if order != [] {
      ListedFew(order[..|order| - 1], cache);
    }
  }

  lemma CachedInOrder(s: State, full: State)
    requires Inv(s) && full.order != [] && |full.order| <= CACHE_CAP + 1
    requires forall p :: p in full.cache ==> p in full.order
    ensures forall p :: p in Trim(full).cache ==> p in Trim(full).order
  {
    TrimOne(full);
    if |full.order| > CACHE_CAP {
      assert full.order == [full.order[0]] + full.order[1..];
    }
  }

  /** Delivering never blocks: a channel that is waited on has room. */
  lemma DeliverNeverBlocks(s: State, pid: int)
    requires Inv(s) && pid in s.waiting
    ensures s.waiting[pid] < |s.chans| && |s.chans[s.waiting[pid]]| < 1
  {
  }

  /** Order and cache stay in step if and only if no exit is delivered for a pid whose exit is still cached. */
  lemma CleanIffNotRedelivered(s: State, e: Event)
    requires Inv(s) && Clean(s)
    ensures Clean(Apply(s, e)) <==> !(e.Deliver? && e.pid in s.cache)
  {
    match e
    case Register(pid) => RemoveFirstFacts(s.order, pid);
    case Deregister(pid) =>
    case Deliver(pid, info) =>
      if pid !in s.waiting {
        DeliverClean(s, pid, info);
      }
  }

  lemma DeliverClean(s: State, pid: int, info: Info)
    requires Inv(s) && Clean(s) && pid !in s.waiting
    ensures Clean(Apply(s, Deliver(pid, info))) <==> pid !in s.cache
  {
    var full := s.(cache := s.cache[pid := info], order := s.order + [pid]);
    var t := Apply(s, Deliver(pid, info));
    TrimOne(full);
    assert full.order[|s.order|] == pid;
    if pid in s.cache {
      var i :| 0 <= i < |s.order| && s.order[i] == pid;
      assert full.order[i] == pid;
      if |full.order| > CACHE_CAP {
        assert t.order[|s.order| - 1] == pid;
        if i > 0 {
          assert t.order[i - 1] == pid;
        }
      }
    } else {
      assert NoDup(full.order) by {
        assert pid !in s.order;
      }
      assert forall p :: p in full.order <==> p in s.order || p == pid;
      if |full.order| > CACHE_CAP {
        assert full.order == [full.order[0]] + full.order[1..];
        assert full.order[0] !in full.order[1..];
      }
    }
  }

  // ------------------------------------------------------------ race freedom

  /** The first entry of pid in the eviction order has `after` entries behind it. */
  predicate Behind(order: seq<int>, pid: int, after: nat) {
    after < |order| && order[|order| - 1 - after] == pid
    && forall i :: 0 <= i < |order| - 1 - after ==> order[i] != pid
  }

  /** The exit of pid is cached, with `after` entries behind the first that stands for pid. */
  ghost predicate CachedAt(s: State, pid: int, info: Info, after: nat) {
    pid in s.cache && s.cache[pid] == info && Behind(s.order, pid, after)
  }

  /** An exit nobody claims on the spot. */
  predicate Unclaimed(s: State, e: Event) {
    e.Deliver? && e.pid !in s.waiting
  }

  lemma {:induction false} HasPlace(order: seq<int>, pid: int) returns (after: nat)
    requires pid in order
    ensures Behind(order, pid, after)
  {
    if order[0] == pid {
      after := |order| - 1;
    } else {
      assert order == [order[0]] + order[1..];
      after := HasPlace(order[1..], pid);
      assert order[|order| - 1 - after] == order[1..][|order| - 2 - after];
      assert forall i :: 1 <= i < |order| - 1 - after ==> order[i] == order[1..][i - 1];
    }
  }

  lemma OnePlace(order: seq<int>, pid: int, x: nat, y: nat)
    requires Behind(order, pid, x) && Behind(order, pid, y)
    ensures x == y
  {
  }

  /** What caching one exit leaves. */
  lemma DeliverUnclaimed(s: State, pid: int, info: Info)
    requires Inv(s) && pid !in s.waiting
    ensures var t := Apply(s, Deliver(pid, info));
      var full := s.order + [pid];
      && t.waiting == s.waiting && t.chans == s.chans
      && if |s.order| == CACHE_CAP then t.order == full[1..] && t.cache == s.cache[pid := info] - {full[0]}
         else t.order == full && t.cache == s.cache[pid := info]
  {
    TrimOne(s.(cache := s.cache[pid := info], order := s.order + [pid]));
  }

  /** An unclaimed exit is cached unless the order is full and its oldest entry is a left-over of the same pid. */
  lemma CachedIff(s: State, pid: int, info: Info)
    requires Inv(s) && pid !in s.waiting
    ensures var t := Apply(s, Deliver(pid, info));
      && (pid in t.cache <==> !(|s.order| == CACHE_CAP && s.order[0] == pid))
      && (pid in t.cache ==> t.cache[pid] == info)
      && (pid !in s.order ==> CachedAt(t, pid, info, 0))
  {
    DeliverUnclaimed(s, pid, info);
    var t := Apply(s, Deliver(pid, info));
    if pid !in s.order {
      assert forall i :: 0 <= i < |t.order| - 1 ==> t.order[i] in s.order;
    }
  }

  /**
    An unclaimed exit of another pid, cached or not, evicts a cached exit if and
    only if the first entry of that one has CACHE_CAP - 1 entries behind it.
   */
  lemma EvictedIffOldest(s: State, pid: int, info: Info, after: nat, other: int, otherInfo: Info)
    requires Inv(s) && CachedAt(s, pid, info, after)
    requires other != pid && other !in s.waiting
    ensures var t := Apply(s, Deliver(other, otherInfo));
      && (pid in t.cache <==> after + 1 < CACHE_CAP)
      && (after + 1 < CACHE_CAP ==> CachedAt(t, pid, info, after + 1))
  {
    DeliverUnclaimed(s, other, otherInfo);
    var full := s.order + [other];
    assert full[|s.order| - 1 - after] == pid;
    assert forall i :: 0 <= i < |s.order| - 1 - after ==> full[i] != pid;
  }

  /** A claim by somebody else moves a cached exit no closer to eviction. */
  lemma {:induction false} RemoveKeepsPlace(order: seq<int>, pid: int, other: int, after: nat) returns (a: nat)
    requires other != pid && Behind(order, pid, after)
    ensures a <= after && Behind(RemoveFirst(order, other), pid, a)
  {
    var tail := order[1..];
    var rest := RemoveFirst(tail, other);
    assert forall i :: 0 <= i < |tail| ==> tail[i] == order[i + 1];
    if order[0] == other {
      a := after;
    } else if |order| - 1 - after == 0 {
      a := |rest|;
      RemoveFirstFacts(tail, other);
    } else {
      a := RemoveKeepsPlace(tail, pid, other, after);
      PlaceCons(order[0], rest, pid, a);
    }
  }

  lemma PlaceCons(x: int, rest: seq<int>, pid: int, after: nat)
    requires x != pid && Behind(rest, pid, after)
    ensures Behind([x] + rest, pid, after)
  {
    var order := [x] + rest;
    assert forall i :: 0 <= i < |rest| ==> order[i + 1] == rest[i];
    forall i | 0 <= i < |order| - 1 - after ensures order[i] != pid {
      assert i > 0 ==> order[i] == rest[i - 1];
    }
  }

  function Run(s: State, events: seq<Event>): State {
    if events == [] then s else Apply(Run(s, events[..|events| - 1]), events[|events| - 1])
  }

  /** No event of the run concerns pid; those of other pids may come in any order, and again. */
  predicate Elsewhere(pid: int, events: seq<Event>) {
    forall i :: 0 <= i < |events| ==> events[i].pid != pid
  }

  /** How many exits of the run nobody claimed on the spot. */
  function UnclaimedCount(s: State, events: seq<Event>): nat {
    if events == [] then 0
    else
      var n := |events| - 1;
      UnclaimedCount(s, events[..n]) + (if Unclaimed(Run(s, events[..n]), events[n]) then 1 else 0)
  }

  lemma {:induction false} RunKeeps(s: State, events: seq<Event>)
    requires Inv(s)
    ensures Inv(Run(s, events))
  {
    if events != [] {
      var n := |events| - 1;
      RunKeeps(s, events[..n]);
      StepKeepsInv(Run(s, events[..n]), events[n]);
    }
  }

  lemma StepKeepsCached(s: State, pid: int, info: Info, after: nat, e: Event) returns (a: nat)
    requires Inv(s) && CachedAt(s, pid, info, after) && e.pid != pid
    requires Unclaimed(s, e) ==> after + 1 < CACHE_CAP
    ensures a <= after + (if Unclaimed(s, e) then 1 else 0)
    ensures CachedAt(Apply(s, e), pid, info, a)
  {
    a := after;
    match e
    case Register(other) =>
      if other in s.cache {
        a := RemoveKeepsPlace(s.order, pid, other, after);
      }
    case Deregister(other) =>
    case Deliver(other, otherInfo) =>
      if other !in s.waiting {
        EvictedIffOldest(s, pid, info, after, other, otherInfo);
        a := after + 1;
      }
  }

  lemma {:induction false} RunKeepsCached(s: State, pid: int, info: Info, after: nat, events: seq<Event>)
    returns (a: nat)
    requires Inv(s) && CachedAt(s, pid, info, after)
    requires Elsewhere(pid, events) && after + UnclaimedCount(s, events) < CACHE_CAP
    ensures a <= after + UnclaimedCount(s, events) && CachedAt(Run(s, events), pid, info, a)
  {
    a := after;
    if events != [] {
      var n := |events| - 1;
      a := RunKeepsCached(s, pid, info, after, events[..n]);
      RunKeeps(s, events[..n]);
      a := StepKeepsCached(Run(s, events[..n]), pid, info, a, events[n]);
    }
  }

  /**
    Exit first, registration later: whatever other pids do in between, with
    fewer than CACHE_CAP other unclaimed exits, and with no left-over of the pid
    in the order, the registration's channel holds exactly that exit.
   */
  lemma ExitThenRegister(s: State, pid: int, info: Info, events: seq<Event>)
    requires Inv(s) && pid !in s.waiting && pid !in s.order
    requires Elsewhere(pid, events)
    requires UnclaimedCount(Apply(s, Deliver(pid, info)), events) < 1024
    ensures var before := Run(Apply(s, Deliver(pid, info)), events);
      var t := Apply(before, Register(pid));
      |t.chans| == |before.chans| + 1 && t.chans[|before.chans|] == [info] && pid !in t.cache && pid !in t.waiting
  {
    var s1 := Apply(s, Deliver(pid, info));
    StepKeepsInv(s, Deliver(pid, info));
    CachedIff(s, pid, info);
    RunKeeps(s1, events);
    var a := RunKeepsCached(s1, pid, info, 0, events);
  }

  /** At this event pid's first entry in the order is the oldest of a full order, and one more comes in. */
  predicate PushesOut(s: State, pid: int, e: Event) {
    Unclaimed(s, e) && Behind(s.order, pid, CACHE_CAP - 1)
  }

  /** No exit of the run comes in while pid is next to go. */
  predicate NeverPushedOut(s: State, pid: int, events: seq<Event>) {
    events == [] ||
    (var n := |events| - 1;
     NeverPushedOut(s, pid, events[..n]) && !PushesOut(Run(s, events[..n]), pid, events[n]))
  }

  /** A forgotten exit stays forgotten, and a kept one goes if and only if it is pushed out. */
  lemma StepKeptIff(s: State, pid: int, info: Info, e: Event)
    requires Inv(s) && e.pid != pid && (pid in s.cache ==> s.cache[pid] == info)
    ensures var t := Apply(s, e);
      && (pid in t.cache <==> pid in s.cache && !PushesOut(s, pid, e))
      && (pid in t.cache ==> t.cache[pid] == info)
      && (pid in t.waiting <==> pid in s.waiting)
  {
    if pid in s.cache && Unclaimed(s, e) {
      var after := HasPlace(s.order, pid);
      if Behind(s.order, pid, CACHE_CAP - 1) {
        OnePlace(s.order, pid, after, CACHE_CAP - 1);
      }
      EvictedIffOldest(s, pid, info, after, e.pid, e.info);
    }
    if Unclaimed(s, e) {
      DeliverUnclaimed(s, e.pid, e.info);
    }
  }

  lemma {:induction false} RunKeptIff(s: State, pid: int, info: Info, events: seq<Event>)
    requires Inv(s) && pid in s.cache && s.cache[pid] == info && pid !in s.waiting && Elsewhere(pid, events)
    ensures var t := Run(s, events);
      && Inv(t)
      && (pid in t.cache <==> NeverPushedOut(s, pid, events))
      && (pid in t.cache ==> t.cache[pid] == info)
      && pid !in t.waiting
  {
    if events != [] {
      var n := |events| - 1;
      RunKeptIff(s, pid, info, events[..n]);
      StepKeptIff(Run(s, events[..n]), pid, info, events[n]);
      StepKeepsInv(Run(s, events[..n]), events[n]);
    }
  }

  /**
    Exactly when a registration after the exit gets it: the exit was cached at
    all, and no other exit came in while the pid was next to go. Otherwise the
    channel stays empty and waits for an exit that has already happened.
   */
  lemma RegisterGetsIff(s: State, pid: int, info: Info, events: seq<Event>)
    requires Inv(s) && pid !in s.waiting && Elsewhere(pid, events)
    ensures var s1 := Apply(s, Deliver(pid, info));
      var before := Run(s1, events);
      var kept := !(|s.order| == CACHE_CAP && s.order[0] == pid) && NeverPushedOut(s1, pid, events);
      var t := Apply(before, Register(pid));
      && |t.chans| == |before.chans| + 1 && t.chans[|before.chans|] == (if kept then [info] else [])
      && (pid in t.waiting <==> !kept)
  {
    var s1 := Apply(s, Deliver(pid, info));
    StepKeepsInv(s, Deliver(pid, info));
    CachedIff(s, pid, info);
    DeliverUnclaimed(s, pid, info);
    if pid in s1.cache {
      RunKeptIff(s1, pid, info, events);
    } else {
      RunStaysGone(s1, pid, info, events);
    }
  }

  lemma {:induction false} RunStaysGone(s: State, pid: int, info: Info, events: seq<Event>)
    requires Inv(s) && pid !in s.cache && pid !in s.waiting && Elsewhere(pid, events)
    ensures Inv(Run(s, events)) && pid !in Run(s, events).cache && pid !in Run(s, events).waiting
  {
    if events != [] {
      var n := |events| - 1;
      RunStaysGone(s, pid, info, events[..n]);
      StepKeptIff(Run(s, events[..n]), pid, info, events[n]);
      StepKeepsInv(Run(s, events[..n]), events[n]);
    }
  }

  // ------------------------------------------------- an exit lost to a left-over

  /** Two exits of one pid and one claim leave an entry in the order that stands for nothing. */
  lemma StaleEntry(s: State, pid: int, info: Info, again: Info)
    requires Inv(s) && pid !in s.waiting && pid !in s.order
    ensures var t := Apply(Apply(Apply(s, Deliver(pid, info)), Deliver(pid, again)), Register(pid));
      Inv(t) && pid !in t.cache && pid !in t.waiting && pid in t.order
      && (s.order == [] ==> t.order == [pid])
  {
    var s1 := Apply(s, Deliver(pid, info));
    StepKeepsInv(s, Deliver(pid, info));
    DeliverUnclaimed(s, pid, info);
    assert s1.order[|s1.order| - 1] == pid;
    assert |s1.order| > 1 ==> s1.order[0] in s.order;
    StaleAgain(s1, pid, again);
  }

  lemma StaleAgain(s: State, pid: int, again: Info)
    requires Inv(s) && pid !in s.waiting && s.order != [] && s.order[|s.order| - 1] == pid
    requires |s.order| > 1 ==> s.order[0] != pid
    ensures var t := Apply(Apply(s, Deliver(pid, again)), Register(pid));
      Inv(t) && pid !in t.cache && pid !in t.waiting && pid in t.order
      && (s.order == [pid] ==> t.order == [pid])
  {
    var s2 := Apply(s, Deliver(pid, again));
    StepKeepsInv(s, Deliver(pid, again));
    DeliverUnclaimed(s, pid, again);
    assert s2.order[|s2.order| - 2] == s2.order[|s2.order| - 1] == pid;
    FirstOfTwo(s2.order, pid);
    assert pid in s2.cache;
    StepKeepsInv(s2, Register(pid));
    assert s.order == [pid] ==> s2.order == [pid, pid];
  }

  lemma {:induction false} FirstOfTwo(order: seq<int>, pid: int)
    requires |order| >= 2 && order[|order| - 2] == order[|order| - 1] == pid
    ensures pid in RemoveFirst(order, pid)
  {
    if order[0] == pid {
      assert order[1..][|order| - 2] == pid;
    } else {
      FirstOfTwo(order[1..], pid);
    }
  }

  /** With such an entry at the front of an order one short of full, a single other exit loses the pid's exit. */
  lemma OneOtherExitLosesIt(s: State, pid: int, info: Info, other: int, otherInfo: Info)
    requires Inv(s) && |s.order| == CACHE_CAP - 1 && s.order[0] == pid && pid !in s.waiting
    requires other != pid && other !in s.waiting
    ensures var s1 := Apply(s, Deliver(pid, info));
      pid in s1.cache && pid !in Apply(s1, Deliver(other, otherInfo)).cache
  {
    var s1 := Apply(s, Deliver(pid, info));
    StepKeepsInv(s, Deliver(pid, info));
    DeliverUnclaimed(s, pid, info);
    DeliverUnclaimed(s1, other, otherInfo);
    assert s1.order[0] == pid;
  }

  const EMPTY := State(map[], map[], [], [])

  function ExitOf(pid: int): Event {
    Deliver(pid, Info(pid, 0, false, 0))
  }

  /** Exits of the n pids after pid, none of them ever claimed. */
  function Orphans(pid: int, n: nat): seq<Event> {
    if n == 0 then [] else Orphans(pid, n - 1) + [ExitOf(pid + n)]
  }

  lemma {:induction false} OrphansQueueUp(s: State, pid: int, n: nat)
    requires Inv(s) && s.waiting == map[] && s.order == [pid] && pid !in s.cache && n < CACHE_CAP
    ensures var t := Run(s, Orphans(pid, n));
      Inv(t) && t.waiting == map[] && |t.order| == n + 1 && t.order[0] == pid && pid !in t.cache
  {
    if n > 0 {
      OrphansQueueUp(s, pid, n - 1);
      var r, e := Run(s, Orphans(pid, n - 1)), ExitOf(pid + n);
      assert Orphans(pid, n)[..|Orphans(pid, n)| - 1] == Orphans(pid, n - 1);
      StepKeepsInv(r, e);
      DeliverUnclaimed(r, e.pid, e.info);
    }
  }

  /**
    From start-up, for every child pid: it exits twice and is claimed once, the
    next 1022 pids exit as orphans, it exits again, and one more orphan pushes
    that exit out of the cache.
   */
  lemma ExitLostFromStart(pid: int)
    requires pid > 1
    ensures var stale := Apply(Apply(Apply(EMPTY, ExitOf(pid)), ExitOf(pid)), Register(pid));
      var s := Run(stale, Orphans(pid, 1022));
      var before := Apply(Apply(s, ExitOf(pid)), ExitOf(pid + 1024));
      var t := Apply(before, Register(pid));
      pid in Apply(s, ExitOf(pid)).cache && t.chans[|before.chans|] == []
  {
    var info := Info(pid, 0, false, 0);
    StaleEntry(EMPTY, pid, info, info);
    var stale := Apply(Apply(Apply(EMPTY, ExitOf(pid)), ExitOf(pid)), Register(pid));
    StaleNoWaiting(pid);
    OrphansQueueUp(stale, pid, 1022);
    var s := Run(stale, Orphans(pid, 1022));
    OneOtherExitLosesIt(s, pid, info, pid + 1024, Info(pid + 1024, 0, false, 0));
  }

  lemma StaleNoWaiting(pid: int)
    ensures Apply(Apply(Apply(EMPTY, ExitOf(pid)), ExitOf(pid)), Register(pid)).waiting == map[]
  {
    var s1 := Apply(EMPTY, ExitOf(pid));
    DeliverUnclaimed(EMPTY, pid, Info(pid, 0, false, 0));
    assert s1.order == [pid];
    DeliverUnclaimed(s1, pid, Info(pid, 0, false, 0));
  }

  lemma StepKeepsWaiting(s: State, pid: int, e: Event)
    requires Inv(s) && pid in s.waiting && e.pid != pid
    ensures var t := Apply(s, e);
      pid in t.waiting && t.waiting[pid] == s.waiting[pid]
  {
    if e.Deliver? && e.pid !in s.waiting {
      TrimOne(s.(cache := s.cache[e.pid := e.info], order := s.order + [e.pid]));
    }
  }

  lemma {:induction false} RunKeepsWaiting(s: State, pid: int, events: seq<Event>)
    requires Inv(s) && pid in s.waiting
    requires forall i :: 0 <= i < |events| ==> events[i].pid != pid
    ensures Inv(Run(s, events))
    ensures var t := Run(s, events);
      pid in t.waiting && t.waiting[pid] == s.waiting[pid]
  {
    if events != [] {
      var n := |events| - 1;
      RunKeepsWaiting(s, pid, events[..n]);
      StepKeepsInv(Run(s, events[..n]), events[n]);
      StepKeepsWaiting(Run(s, events[..n]), pid, events[n]);
    }
  }

  /** A channel nobody waits on any more is never written again: exactly one exit, once. */
  lemma {:induction false} FilledChannelIsLeftAlone(s: State, c: nat, events: seq<Event>)
    requires Inv(s) && c < |s.chans| && forall p :: p in s.waiting ==> s.waiting[p] != c
    ensures Inv(Run(s, events))
    ensures var t := Run(s, events);
      c < |t.chans| && t.chans[c] == s.chans[c] && forall p :: p in t.waiting ==> t.waiting[p] != c
  {
    if events != [] {
      var n := |events| - 1;
      FilledChannelIsLeftAlone(s, c, events[..n]);
      var r, e := Run(s, events[..n]), events[n];
      StepKeepsInv(r, e);
      if e.Deliver? && e.pid !in r.waiting {
        TrimOne(r.(cache := r.cache[e.pid := e.info], order := r.order + [e.pid]));
      }
    }
  }

  /**
    Registration first, exit later, anything of other pids in between: the
    channel gets exactly one exit, which is that one unless an earlier exit of
    the pid was still cached.
   */
  lemma RegisterThenExit(s: State, pid: int, info: Info, events: seq<Event>)
    requires Inv(s) && Elsewhere(pid, events)
    ensures var t := Apply(Run(Apply(s, Register(pid)), events), Deliver(pid, info));
      && |s.chans| < |t.chans|
      && t.chans[|s.chans|] == [if pid in s.cache then s.cache[pid] else info]
      && pid !in t.waiting
  {
    var s1, e := Apply(s, Register(pid)), Deliver(pid, info);
    StepKeepsInv(s, Register(pid));
    if pid in s.cache {
      FilledChannelIsLeftAlone(s1, |s.chans|, events);
      StaysUnwaited(s1, pid, events);
      var r := Run(s1, events);
      DeliverUnclaimed(r, pid, info);
    } else {
      RunKeepsWaiting(s1, pid, events);
    }
  }

  lemma {:induction false} StaysUnwaited(s: State, pid: int, events: seq<Event>)
    requires Inv(s) && pid !in s.waiting && Elsewhere(pid, events)
    ensures pid !in Run(s, events).waiting
  {
    if events != [] {
      var n := |events| - 1;
      StaysUnwaited(s, pid, events[..n]);
      RunKeeps(s, events[..n]);
      var r, e := Run(s, events[..n]), events[n];
      if Unclaimed(r, e) {
        DeliverUnclaimed(r, e.pid, e.info);
      }
    }
  }

  /** After a deregistration the exit goes to the cache like any other, and no channel hears of it. */
  lemma DeregisterThenExit(s: State, pid: int, info: Info)
    requires Inv(s)
    ensures var t := Apply(Apply(s, Deregister(pid)), Deliver(pid, info));
      && t.chans == s.chans && pid !in t.waiting
      && (pid !in s.order ==> pid in t.cache && t.cache[pid] == info)
      && (forall p :: p in s.waiting && p != pid ==> p in t.waiting && t.waiting[p] == s.waiting[p])
  {
    StepKeepsInv(s, Deregister(pid));
    DeliverUnclaimed(Apply(s, Deregister(pid)), pid, info);
    CachedIff(Apply(s, Deregister(pid)), pid, info);
  }

  /**
    A pid used again: the exit of an orphan nobody claimed is handed to the one
    who registers its living namesake, whose own exit then stays in the cache.
   */
  lemma NamesakeExit(pid: int, orphan: Info, child: Info)
    requires pid > 1
    ensures var t := Apply(Apply(Apply(EMPTY, Deliver(pid, orphan)), Register(pid)), Deliver(pid, child));
      t.chans == [[orphan]] && pid in t.cache && t.cache[pid] == child
  {
    DeliverUnclaimed(EMPTY, pid, orphan);
    var s1 := Apply(EMPTY, Deliver(pid, orphan));
    StepKeepsInv(EMPTY, Deliver(pid, orphan));
    StepKeepsInv(s1, Register(pid));
    assert s1.order == [pid];
    DeliverUnclaimed(Apply(s1, Register(pid)), pid, child);
  }

  // ------------------------------------------------------------ the reaper

  class ExitReaper {
    var waiting: map<int, nat>
    var cache: map<int, Info>
    var order: seq<int>
    var chans: seq<seq<Info>>

    constructor ()
      ensures View() == EMPTY && Inv(View()) && Clean(View())
    {
      waiting, cache, order, chans := map[], map[], [], [];
    }

    function View(): State
      reads this
    {
      State(waiting, cache, order, chans)
    }

    method RegisterPid(pid: int) returns (ch: nat)
      modifies this
      ensures View() == Apply(old(View()), Register(pid)) && ch == |old(chans)|
    {
      ch := |chans|;
      if pid in cache {
        chans := chans + [[cache[pid]]];
        cache := cache - {pid};
        RemoveOrder(pid);
        return;
      }
      chans := chans + [[]];
      waiting := waiting[pid := ch];
    }

    method DeregisterPid(pid: int)
      modifies this`waiting
      ensures View() == Apply(old(View()), Deregister(pid))
    {
      waiting := waiting - {pid};
    }

    method CachedExit(pid: int) returns (found: bool, info: Info)
      ensures found == (pid in cache) && (found ==> info == cache[pid])
    {
      found := pid in cache;
      info := if found then cache[pid] else Info(0, 0, false, 0);
    }

    method DeliverExit(pid: int, info: Info)
      requires Inv(View())
      modifies this
      ensures View() == Apply(old(View()), Deliver(pid, info))
    {
      if pid in waiting {
        var ch := waiting[pid];
        waiting := waiting - {pid};
        chans := chans[ch := chans[ch] + [info]];
        return;
      }
      cache := cache[pid := info];
      order := order + [pid];
      ghost var full := View();
      while |order| > CACHE_CAP
        invariant Trim(View()) == Trim(full)
        decreases |order|
      {
        var evict := order[0];
        order := order[1..];
        cache := cache - {evict};
      }
    }

    method RemoveOrder(pid: int)
      modifies this`order
      ensures order == RemoveFirst(old(order), pid)
    {
      var i := 0;
      while i < |order|
        invariant 0 <= i <= |order| && order == old(order)
        invariant RemoveFirst(order, pid) == order[..i] + RemoveFirst(order[i..], pid)
      {
        FirstOrLater(order, pid, i);
        if order[i] == pid {
          order := order[..i] + order[i + 1..];
          return;
        }
        i := i + 1;
      }
    }
  }
}
