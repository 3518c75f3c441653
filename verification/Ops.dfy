/**
  The ops layer: one runner per registered app that has a feature configured,
  reconciled from the registry's listing by a tick that is skipped while the
  registry version has not moved.
 */
module Ops {
  import opened Registry

  /** The configured features of an app. */
  datatype Features = Features(cron: bool, maxMemory: int, healthCmd: bool, watch: bool)

  predicate FeaturesActive(f: Features) {
    f.cron || f.maxMemory > 0 || f.healthCmd || f.watch
  }

  /** What the daemon hands the reconciler per app. */
  datatype AppView = AppView(id: int, serial: nat, features: Features)

  /** A runner goroutine: its handle, and the registration it was built for. */
  datatype Runner = Runner(handle: nat, serial: nat)

  /** `halted` lists the runners told to stop, in order. */
  datatype Recon = Recon(runners: map<int, Runner>, spawned: nat, halted: seq<nat>, stopped: bool)

  predicate DistinctIds(views: seq<AppView>) {
    forall i, j :: 0 <= i < j < |views| ==> views[i].id != views[j].id
  }

  function Ids(views: seq<AppView>): set<int> {
    set v | v in views :: v.id
  }

  /** The runner of this registration is already there. */
  predicate Current(r: Recon, v: AppView) {
    v.id in r.runners && r.runners[v.id].serial == v.serial
  }

  predicate Runs(r: Recon, h: nat) {
    exists i :: i in r.runners && r.runners[i].handle == h
  }

  /** Runners are told apart, each runs until it is halted, and none is halted twice or runs on. */
  ghost predicate Orderly(r: Recon) {
    && (forall h: nat :: h < r.spawned ==> h in r.halted || Runs(r, h))
    && (forall i :: i in r.runners ==> r.runners[i].handle < r.spawned && r.runners[i].handle !in r.halted)
    && (forall i, j :: i in r.runners && j in r.runners && i != j ==> r.runners[i].handle != r.runners[j].handle)
    && (forall h :: h in r.halted ==> h < r.spawned)
    && (forall i, j :: 0 <= i < j < |r.halted| ==> r.halted[i] != r.halted[j])
  }

  /** A runner belongs in the new set at id: kept if current, else fresh if a feature is on. */
  predicate Settled(before: Recon, v: AppView, after: Recon) {
    if Current(before, v) then v.id in after.runners && after.runners[v.id] == before.runners[v.id]
    else if FeaturesActive(v.features) then
      v.id in after.runners && after.runners[v.id].serial == v.serial && after.runners[v.id].handle >= before.spawned
    else v.id !in after.runners
  }

  /** The runner at id survives: same handle before and after. */
  predicate Survives(before: Recon, id: int, after: Recon) {
    id in before.runners && id in after.runners && after.runners[id] == before.runners[id]
  }

  /** What one sync does to the runner set. */
  ghost predicate Synced(before: Recon, views: seq<AppView>, after: Recon) {
    && (forall i :: 0 <= i < |views| ==> Settled(before, views[i], after))
    && (forall id :: id in after.runners ==> id in Ids(views))
    && |before.halted| <= |after.halted| && after.halted[..|before.halted|] == before.halted
    && (forall id :: id in before.runners ==>
          (before.runners[id].handle in after.halted <==> !Survives(before, id, after)))
    && after.stopped == before.stopped
  }

  /** The same id holds the same runner, or none, in both. */
  predicate SameAt(x: Recon, y: Recon, id: int) {
    (id in x.runners <==> id in y.runners) && (id in x.runners && id in y.runners ==> x.runners[id] == y.runners[id])
  }

  /** The effect of one view. */
  ghost predicate SyncedOne(before: Recon, v: AppView, after: Recon) {
    && (forall id :: id != v.id ==> SameAt(before, after, id))
    && Settled(before, v, after)
    && after.halted == before.halted +
         (if v.id in before.runners && !Survives(before, v.id, after) then [before.runners[v.id].handle] else [])
    && after.spawned >= before.spawned && after.stopped == before.stopped
  }

  /** The effect of the first k views. */
  ghost predicate SyncedUpTo(before: Recon, views: seq<AppView>, k: nat, after: Recon)
    requires k <= |views|
  {
    && (forall i :: 0 <= i < k ==> Settled(before, views[i], after))
    && (forall id :: id !in Ids(views[..k]) ==> SameAt(before, after, id))
    && |before.halted| <= |after.halted| && after.halted[..|before.halted|] == before.halted
    && (forall id :: id in before.runners ==>
          (before.runners[id].handle in after.halted <==> !Survives(before, id, after)))
    && after.spawned >= before.spawned && after.stopped == before.stopped
  }

  lemma SyncedNext(before: Recon, views: seq<AppView>, k: nat, mid: Recon, after: Recon)
    requires DistinctIds(views) && k < |views| && Orderly(before) && Orderly(mid) && Orderly(after)
    requires SyncedUpTo(before, views, k, mid) && SyncedOne(mid, views[k], after)
    ensures SyncedUpTo(before, views, k + 1, after)
  {
    var v := views[k];
    assert views[..k + 1] == views[..k] + [v];
    assert v.id !in Ids(views[..k]);
    assert SameAt(before, mid, v.id);
    forall i | 0 <= i < k + 1
      ensures Settled(before, views[i], after)
    {
      assert i < k ==> SameAt(mid, after, views[i].id);
    }
    forall id | id !in Ids(views[..k + 1])
      ensures SameAt(before, after, id)
    {
      assert v in views[..k + 1] && id != v.id;
      assert forall w :: w in views[..k] ==> w in views[..k + 1];
      assert SameAt(before, mid, id) && SameAt(mid, after, id);
    }
    forall id | id in before.runners
      ensures before.runners[id].handle in after.halted <==> !Survives(before, id, after)
    {
      HaltedNext(before, views, k, mid, after, id);
    }
  }

  lemma HaltedNext(before: Recon, views: seq<AppView>, k: nat, mid: Recon, after: Recon, id: int)
    requires k < |views| && Orderly(before) && Orderly(mid) && Orderly(after)
    requires SyncedUpTo(before, views, k, mid) && SyncedOne(mid, views[k], after)
    requires SameAt(before, mid, views[k].id)
    requires id in before.runners
    ensures before.runners[id].handle in after.halted <==> !Survives(before, id, after)
  {
    if id != views[k].id {
      assert SameAt(mid, after, id);
      if Survives(before, id, mid) {
        assert Survives(before, id, after);
      }
    }
  }

  /** Runners of unseen ids have been halted, except those still in rest. */
  ghost predicate Dropping(before: Recon, seen: set<int>, rest: set<(int, Runner)>, after: Recon) {
    && (forall p :: p in rest ==> p in before.runners.Items && p.0 !in seen)
    && (forall id :: id in after.runners ==> id in before.runners && after.runners[id] == before.runners[id])
    && (forall id :: id in before.runners ==>
          (id in after.runners <==> id in seen || (id, before.runners[id]) in rest))
    && |before.halted| <= |after.halted| && after.halted[..|before.halted|] == before.halted
    && (forall id :: id in before.runners ==> (before.runners[id].handle in after.halted <==> id !in after.runners))
    && after.spawned == before.spawned && after.stopped == before.stopped
  }

  lemma DroppingNext(before: Recon, seen: set<int>, rest: set<(int, Runner)>, id: int, rn: Runner,
                     mid: Recon, after: Recon)
    requires Orderly(before) && Dropping(before, seen, rest, mid) && (id, rn) in rest
    requires id in mid.runners && mid.runners[id] == rn
    requires after == mid.(runners := mid.runners - {id}, halted := mid.halted + [rn.handle])
    ensures Dropping(before, seen, rest - {(id, rn)}, after)
  {
    assert after.halted[|mid.halted|] == rn.handle;
    forall other | other in before.runners
      ensures before.runners[other].handle in after.halted <==> other !in after.runners
    {
      assert before.runners[other].handle in after.halted <==>
        before.runners[other].handle in mid.halted || before.runners[other].handle == rn.handle;
    }
  }

  /** The runner at id told to stop and forgotten. */
  function Without(r: Recon, id: int): Recon
    requires id in r.runners
  {
    r.(runners := r.runners - {id}, halted := r.halted + [r.runners[id].handle])
  }

  /** A runner started for a view. */
  function With(r: Recon, v: AppView): Recon {
    r.(runners := r.runners[v.id := Runner(r.spawned, v.serial)], spawned := r.spawned + 1)
  }

  lemma HaltKeeps(before: Recon, id: int)
    requires Orderly(before) && id in before.runners
    ensures Orderly(Without(before, id))
  {
    var after := Without(before, id);
    assert after.halted[|before.halted|] == before.runners[id].handle;
    forall h: nat | h < after.spawned
      ensures h in after.halted || Runs(after, h)
    {
      if h !in before.halted && h != before.runners[id].handle {
        var i :| i in before.runners && before.runners[i].handle == h;
        assert i in after.runners && after.runners[i].handle == h;
      }
    }
  }

  lemma SpawnKeeps(before: Recon, v: AppView)
    requires Orderly(before) && v.id !in before.runners
    ensures Orderly(With(before, v))
  {
    var after := With(before, v);
    assert v.id in after.runners && after.runners[v.id].handle == before.spawned;
    forall h: nat | h < before.spawned
      ensures h in after.halted || Runs(after, h)
    {
      if h !in before.halted {
        var i :| i in before.runners && before.runners[i].handle == h;
        assert i in after.runners && after.runners[i].handle == h;
      }
    }
  }

  /** A stale runner stopped and forgotten, then a fresh one if a feature is on: that syncs the view. */
  lemma RenewSyncs(before: Recon, v: AppView)
    requires Orderly(before) && !Current(before, v)
    ensures var cleared := if v.id in before.runners then Without(before, v.id) else before;
      SyncedOne(before, v, if FeaturesActive(v.features) then With(cleared, v) else cleared)
  {
  }

  class Reconciler {
    var runners: map<int, Runner>
    var spawned: nat
    var halted: seq<nat>
    var stopped: bool

    constructor ()
      ensures View() == Recon(map[], 0, [], false)
    {
      runners, spawned, halted, stopped := map[], 0, [], false;
    }

    function View(): Recon
      reads this
    {
      Recon(runners, spawned, halted, stopped)
    }

    method Halt(id: int)
      requires id in runners && Orderly(View())
      modifies this`runners, this`halted
      ensures Orderly(View()) && View() == Without(old(View()), id)
    {
      halted := halted + [runners[id].handle];
      runners := runners - {id};
      HaltKeeps(old(View()), id);
    }

    method Spawn(v: AppView)
      requires v.id !in runners && Orderly(View())
      modifies this`runners, this`spawned
      ensures Orderly(View()) && View() == With(old(View()), v)
    {
      runners := runners[v.id := Runner(spawned, v.serial)];
      spawned := spawned + 1;
      SpawnKeeps(old(View()), v);
    }

    /** One view: keep its runner, or retire a stale one and start a fresh one. */
    method SyncOne(v: AppView)
      requires Orderly(View())
      modifies this
      ensures Orderly(View()) && SyncedOne(old(View()), v, View())
    {
      if v.id in runners {
        if runners[v.id].serial == v.serial {
          return;
        }
        Halt(v.id);
      }
      if FeaturesActive(v.features) {
        Spawn(v);
      }
      RenewSyncs(old(View()), v);
    }

    /** The part of a sync that looks at the views. */
    method SyncViews(views: seq<AppView>)
      requires Orderly(View()) && DistinctIds(views)
      modifies this
      ensures Orderly(View()) && SyncedUpTo(old(View()), views, |views|, View())
    {
      for k := 0 to |views|
        invariant Orderly(View()) && SyncedUpTo(old(View()), views, k, View())
      {
        ghost var mid := View();
        SyncOne(views[k]);
        SyncedNext(old(View()), views, k, mid, View());
      }
    }

    /** And the part that drops runners whose app is gone. */
    method DropUnseen(seen: set<int>)
      requires Orderly(View())
      modifies this`runners, this`halted
      ensures Orderly(View()) && Dropping(old(View()), seen, {}, View())
    {
      var rest := set p | p in runners.Items && p.0 !in seen;
      while rest != {}
        invariant Orderly(View())
        invariant Dropping(old(View()), seen, rest, View())
      {
        var p :| p in rest;
        var (id, rn) := p;
        ghost var mid := View();
        Halt(id);
        DroppingNext(old(View()), seen, rest, id, rn, mid, View());
        rest := rest - {(id, rn)};
      }
    }

    method Sync(views: seq<AppView>)
      requires Orderly(View()) && DistinctIds(views)
      modifies this
      ensures Orderly(View())
      ensures if old(stopped) then View() == old(View()) else Synced(old(View()), views, View())
    {
      if stopped {
        return;
      }
      SyncViews(views);
      assert views[..|views|] == views;
      ghost var mid := View();
      DropUnseen(Ids(views));
      SyncedDone(old(View()), views, mid, View());
    }
  }

  /** Dropping the unseen ids finishes a sync. */
  lemma SyncedDone(before: Recon, views: seq<AppView>, mid: Recon, after: Recon)
    requires Orderly(before) && Orderly(mid) && Orderly(after)
    requires views[..|views|] == views && SyncedUpTo(before, views, |views|, mid)
    requires Dropping(mid, Ids(views), {}, after)
    ensures Synced(before, views, after)
  {
    forall i | 0 <= i < |views|
      ensures Settled(before, views[i], after)
    {
      assert views[i].id in Ids(views);
    }
    forall id | id in before.runners
      ensures before.runners[id].handle in after.halted <==> !Survives(before, id, after)
    {
      if id !in Ids(views) {
        assert SameAt(before, mid, id);
        assert mid.runners[id].handle in after.halted;
      } else if Survives(before, id, mid) {
        assert Survives(before, id, after);
      }
    }
    assert after.halted[..|before.halted|] == after.halted[..|mid.halted|][..|before.halted|];
  }

  // ------------------------------------------------------ what a sync reaches

  /** The runners there should be: each listed app with an active feature, by its registration. */
  function Target(views: seq<AppView>): map<int, nat> {
    if views == [] then map[]
    else
      var v := views[|views| - 1];
      var front := Target(views[..|views| - 1]);
      if FeaturesActive(v.features) then front[v.id := v.serial] else front
  }

  function Registrations(r: Recon): map<int, nat> {
    map id | id in r.runners :: r.runners[id].serial
  }

  /** Features belong to the registration: what runs has one active. */
  ghost predicate Coherent(r: Recon, features: nat -> Features) {
    forall id :: id in r.runners ==> FeaturesActive(features(r.runners[id].serial))
  }

  ghost predicate ViewsOf(views: seq<AppView>, features: nat -> Features) {
    forall i :: 0 <= i < |views| ==> views[i].features == features(views[i].serial)
  }

  lemma {:induction false} TargetAt(views: seq<AppView>, id: int)
    requires DistinctIds(views)
    ensures id in Target(views) <==>
      exists i :: 0 <= i < |views| && views[i].id == id && FeaturesActive(views[i].features)
    ensures forall i :: 0 <= i < |views| && views[i].id == id && id in Target(views) ==>
      Target(views)[id] == views[i].serial
  {
    if views != [] {
      var n := |views| - 1;
      TargetAt(views[..n], id);
      assert forall i :: 0 <= i < n ==> views[..n][i] == views[i];
    }
  }

  /** A sync leaves exactly the runners there should be, and they still fit their features. */
  lemma SyncReachesTarget(before: Recon, views: seq<AppView>, after: Recon, features: nat -> Features)
    requires DistinctIds(views) && ViewsOf(views, features) && Coherent(before, features)
    requires Synced(before, views, after)
    ensures Registrations(after) == Target(views)
    ensures Coherent(after, features)
  {
    forall id
      ensures id in Registrations(after) <==> id in Target(views)
      ensures id in Registrations(after) ==>
        Registrations(after)[id] == Target(views)[id] && FeaturesActive(features(after.runners[id].serial))
    {
      TargetAt(views, id);
      if i :| 0 <= i < |views| && views[i].id == id {
        assert Settled(before, views[i], after);
      } else {
        assert id !in Ids(views);
      }
    }
  }

  /** Syncing twice with the same views changes nothing: no runner is halted or restarted. */
  lemma SyncIdempotent(r0: Recon, views: seq<AppView>, r1: Recon, r2: Recon, features: nat -> Features)
    requires DistinctIds(views) && ViewsOf(views, features) && Coherent(r0, features)
    requires Synced(r0, views, r1) && Synced(r1, views, r2) && Orderly(r1) && Orderly(r2)
    ensures r2.runners == r1.runners
    ensures forall id :: id in r1.runners ==> r1.runners[id].handle !in r2.halted
  {
    SyncReachesTarget(r0, views, r1, features);
    SyncReachesTarget(r1, views, r2, features);
    assert Registrations(r1) == Registrations(r2);
    forall id | id in r1.runners
      ensures Survives(r1, id, r2)
    {
      TargetAt(views, id);
      assert id in Registrations(r1);
      var i :| 0 <= i < |views| && views[i].id == id && FeaturesActive(views[i].features);
      assert Registrations(r1)[id] == views[i].serial;
      assert Settled(r1, views[i], r2);
    }
    forall id | id in r2.runners
      ensures id in r1.runners
    {
      assert id in Registrations(r2);
    }
    forall id
      ensures id in r2.runners <==> id in r1.runners
      ensures id in r1.runners ==> r2.runners[id] == r1.runners[id]
    {
      assert id in r1.runners ==> Survives(r1, id, r2);
    }
  }

  // --------------------------------------------------------- the gated ticker

  /** The value the loop starts from; the version must stay below it (it is a 64-bit counter). */
  const NEVER: nat := 0xFFFF_FFFF_FFFF_FFFF

  /**
    Where a tick is: between ticks, between Version and List, or between List
    and Sync with the listing in hand.
   */
  datatype Tick = Between | Reading | Listed(views: seq<AppView>)

  /** The ops loop beside the registry. */
  datatype Loop = Loop(sys: Sys, last: nat, tick: Tick, recon: Recon)

  /** What List hands over: every public id once, with its serial and features. */
  ghost predicate Lists(views: seq<AppView>, s: State, features: nat -> Features) {
    && DistinctIds(views) && ViewsOf(views, features)
    && (forall i :: 0 <= i < |views| ==> views[i].id in Listing(s) && Listing(s)[views[i].id] == views[i].serial)
    && (forall id :: id in Listing(s) ==> id in Ids(views))
  }

  /** The runners the registry as it stands calls for. */
  function Due(s: State, features: nat -> Features): map<int, nat> {
    map id | id in Listing(s) && FeaturesActive(features(Listing(s)[id])) :: Listing(s)[id]
  }

  /** What is due: the listed apps with a schedule, a memory limit, a health command or a watch, by their serials. */
  lemma DueMeans(s: State, features: nat -> Features, id: int)
    ensures id in Due(s, features) <==>
      id >= 0 && id in s.serials
      && (var f := features(s.serials[id]);
          f.cron || f.maxMemory > 0 || f.healthCmd || f.watch)
    ensures id in Due(s, features) ==> Due(s, features)[id] == s.serials[id]
  {
  }

  lemma TargetIsDue(views: seq<AppView>, s: State, features: nat -> Features)
    requires Lists(views, s, features)
    ensures Target(views) == Due(s, features)
  {
    forall id
      ensures id in Target(views) <==> id in Due(s, features)
      ensures id in Target(views) ==> Target(views)[id] == Due(s, features)[id]
    {
      TargetAt(views, id);
      if id in Listing(s) {
        assert id in Ids(views);
      }
    }
  }

  datatype LoopStep = Mutate(e: Step) | ReadVersion | TakeListing(views: seq<AppView>) | RunSync(after: Recon)

  ghost predicate Enabled(l: Loop, e: LoopStep, features: nat -> Features) {
    match e
    case Mutate(m) => Legal(m)
    case ReadVersion => l.tick.Between?
    case TakeListing(views) => l.tick.Reading? && Lists(views, l.sys.reg, features)
    case RunSync(after) => l.tick.Listed? && Synced(l.recon, l.tick.views, after) && Orderly(after)
  }

  /** Registry steps may fall anywhere: between Version and List, and between List and Sync. */
  function LoopNext(l: Loop, e: LoopStep): Loop {
    match e
    case Mutate(m) => l.(sys := Next(l.sys, m))
    case ReadVersion =>
      if l.sys.reg.version == l.last then l else l.(last := l.sys.reg.version, tick := Reading)
    case TakeListing(views) => l.(tick := Listed(views))
    case RunSync(after) => l.(recon := after, tick := Between)
  }

  /** While the remembered version is current, so is the listing in hand, or what the last sync left. */
  ghost predicate Fresh(l: Loop, features: nat -> Features) {
    match l.tick
    case Between => Registrations(l.recon) == Due(l.sys.reg, features)
    case Reading => true
    case Listed(views) => Lists(views, l.sys.reg, features)
  }

  ghost predicate LoopInv(l: Loop, features: nat -> Features) {
    && Inv(l.sys)
    && Coherent(l.recon, features) && Orderly(l.recon) && !l.recon.stopped
    && (l.tick.Listed? ==> DistinctIds(l.tick.views) && ViewsOf(l.tick.views, features))
    && (l.last <= l.sys.reg.version || l.last == NEVER)
    && (l.last == l.sys.reg.version && l.last != NEVER ==> Fresh(l, features))
  }

  lemma LoopStepKeeps(l: Loop, e: LoopStep, features: nat -> Features)
    requires LoopInv(l, features) && Enabled(l, e, features)
    ensures LoopInv(LoopNext(l, e), features)
  {
    match e
    case Mutate(m) =>
      StepKeepsInv(l.sys, m);
      ListingChangeBumps(l.sys, m);
      if Listing(Next(l.sys, m).reg) == Listing(l.sys.reg) {
        SameListing(l, Next(l.sys, m), features);
      }
    case ReadVersion =>
    case TakeListing(views) =>
    case RunSync(after) =>
      SyncReachesTarget(l.recon, l.tick.views, after, features);
      if l.last == l.sys.reg.version && l.last != NEVER {
        TargetIsDue(l.tick.views, l.sys.reg, features);
      }
  }

  lemma SameListing(l: Loop, sys: Sys, features: nat -> Features)
    requires Listing(sys.reg) == Listing(l.sys.reg)
    ensures Fresh(l, features) ==> Fresh(l.(sys := sys), features)
  {
  }

  /** A tick looks further only when the version has moved, and after a whole tick the next one has nothing to do. */
  lemma QuietTickIsFree(l: Loop, views: seq<AppView>, after: Recon)
    requires l.tick.Between?
    ensures LoopNext(l, ReadVersion).tick == (if l.sys.reg.version == l.last then Between else Reading)
    ensures l.sys.reg.version == l.last ==> LoopNext(l, ReadVersion) == l
    ensures l.sys.reg.version != l.last ==>
      var done := LoopNext(LoopNext(LoopNext(l, ReadVersion), TakeListing(views)), RunSync(after));
      done.tick == Between && done.recon == after && done.sys == l.sys && LoopNext(done, ReadVersion) == done
  {
  }

  ghost predicate AllEnabled(l: Loop, steps: seq<LoopStep>, features: nat -> Features) {
    steps == [] ||
    (AllEnabled(l, steps[..|steps| - 1], features)
     && Enabled(LoopRun(l, steps[..|steps| - 1]), steps[|steps| - 1], features))
  }

  function LoopRun(l: Loop, steps: seq<LoopStep>): Loop {
    if steps == [] then l else LoopNext(LoopRun(l, steps[..|steps| - 1]), steps[|steps| - 1])
  }

  lemma {:induction false} LoopRunKeeps(l: Loop, steps: seq<LoopStep>, features: nat -> Features)
    requires LoopInv(l, features) && AllEnabled(l, steps, features)
    ensures LoopInv(LoopRun(l, steps), features)
  {
    if steps != [] {
      LoopRunKeeps(l, steps[..|steps| - 1], features);
      LoopStepKeeps(LoopRun(l, steps[..|steps| - 1]), steps[|steps| - 1], features);
    }
  }

  const START := Loop(Sys(EMPTY, Idle), NEVER, Between, Recon(map[], 0, [], false))

  /** Over every run each runner ever started runs or was told to stop, exactly one of the two, and told once. */
  lemma {:induction false} EachRunnerStoppedOnce(steps: seq<LoopStep>, features: nat -> Features, h: nat)
    requires AllEnabled(START, steps, features)
    ensures var r := LoopRun(START, steps).recon;
      && (h < r.spawned ==> (Runs(r, h) <==> h !in r.halted))
      && (forall i, j :: 0 <= i < j < |r.halted| ==> r.halted[i] != r.halted[j])
  {
    LoopRunKeeps(START, steps, features);
  }

  /**
    The version-gated tick agrees with one that lists and syncs every time:
    after any run, once the registry is quiet, one tick (which may do nothing)
    leaves exactly the runners the registry calls for, as an ungated sync would.
   */
  lemma GatedTickAgrees(steps: seq<LoopStep>, features: nat -> Features, views: seq<AppView>, lazy: Recon, eager: Recon)
    requires AllEnabled(START, steps, features)
    requires var l := LoopRun(START, steps);
      && l.tick.Between? && l.sys.reg.version < NEVER
      && Lists(views, l.sys.reg, features)
      && Synced(l.recon, views, eager)
      && (if l.sys.reg.version == l.last then lazy == l.recon else Synced(l.recon, views, lazy))
    ensures Registrations(lazy) == Registrations(eager) == Due(LoopRun(START, steps).sys.reg, features)
  {
    var l := LoopRun(START, steps);
    LoopRunKeeps(START, steps, features);
    TargetIsDue(views, l.sys.reg, features);
    SyncReachesTarget(l.recon, views, eager, features);
    if l.sys.reg.version != l.last {
      SyncReachesTarget(l.recon, views, lazy, features);
    }
  }
}
