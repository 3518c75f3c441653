/**
  The supervisor's registry and its rolling reload, as steps taken under the
  registry lock. User commands interleave freely with the phases of one roll.

  Actors are numbered in the order they are built; an actor is retired once its
  mailbox has been asked to delete. Identifiers are numeric.
 */
module Registry {
  import opened Common

  type Actor = nat

  datatype State = State(
    apps: map<int, Actor>,
    serials: map<int, nat>,
    nextID: int,
    nextSerial: nat,
    version: nat,
    owner: seq<int>,      // the pm_id each actor was built with
    retired: seq<Actor>)  // in the order they were retired

  const EMPTY := State(map[], map[], 0, 0, 0, [], [])

  /** The hidden slot of a parked incarnation. */
  function ParkKey(id: int): int {
    -id - 1
  }

  function AssignSerial(s: State, id: int): State {
    s.(nextSerial := s.nextSerial + 1, serials := s.serials[id := s.nextSerial + 1])
  }

  /** Build an actor and publish it at id with a fresh serial. */
  function AddApp(s: State, id: int): State {
    AssignSerial(s.(owner := s.owner + [id], apps := s.apps[id := |s.owner|]), id)
  }

  function RemoveKey(s: State, key: int): State {
    s.(apps := s.apps - {key}, serials := s.serials - {key})
  }

  function Bump(s: State): State {
    s.(version := s.version + 1)
  }

  // ------------------------------------------------------------ user commands

  /** builds[k] says whether the k-th actor of the batch could be built. */
  function AddBatch(s: State, base: int, builds: seq<bool>): State {
    if builds == [] then s
    else
      var n := |builds| - 1;
      var t := AddBatch(s, base, builds[..n]);
      if builds[n] then AddApp(t, base + n) else t
  }

  function StartApps(s: State, builds: seq<bool>): State {
    if builds == [] then s
    else Bump(AddBatch(s.(nextID := s.nextID + |builds|), s.nextID, builds))
  }

  function StartAt(s: State, id: int, built: bool): State {
    if id in s.apps || !built then s
    else
      var t := AddApp(s, id);
      Bump(if id >= t.nextID then t.(nextID := id + 1) else t)
  }

  function ResetIfEmpty(s: State): State {
    if s.apps == map[] then s.(nextID := 0) else s
  }

  /** The entry goes whether or not the kill path succeeds. */
  function Delete(s: State, id: int): State {
    if id < 0 || id !in s.apps || s.apps[id] >= |s.owner| then s
    else
      var app := s.apps[id];
      Bump(ResetIfEmpty(RemoveKey(s.(retired := s.retired + [app]), s.owner[app])))
  }

  // ------------------------------------------------------------------- a roll

  /**
    Gate: waiting for the replacement to prove stable. Failing: about to roll
    back. Retiring: about to stop the old actor. Stopped: old actor stopped,
    its slot not yet removed.
   */
  datatype Phase = Gate | Failing | Retiring | Stopped

  /**
    A roll in flight. `serial` is the old registration; `stable` and `touched`
    record that the replacement was seen online for min_uptime, and that a user
    deleted the slot.
   */
  datatype Roll = Idle | Rolling(
    id: int, prev: Actor, replacement: Actor, serial: nat, phase: Phase, stable: bool, touched: bool)

  datatype Sys = Sys(reg: State, roll: Roll)

  /** Park the old actor and publish the replacement, in one lock section. */
  function Begin(sys: Sys, id: int, built: bool, startOk: bool): Sys {
    var s := sys.reg;
    if sys.roll.Rolling? || id !in s.apps || id !in s.serials || !built then sys
    else
      var parked := s.(
        apps := s.apps[ParkKey(id) := s.apps[id]],
        serials := s.serials[ParkKey(id) := s.serials[id]]);
      Sys(Bump(AddApp(parked, id)),
          Rolling(id, s.apps[id], |s.owner|, s.serials[id], if startOk then Gate else Failing, false, false))
  }

  /** What the poller sees of the replacement once the lock is released. */
  datatype Seen = Stable | Died | TimedOut | NotYet

  function Poll(sys: Sys, seen: Seen): Sys {
    if !sys.roll.Rolling? || !sys.roll.phase.Gate? then sys
    else
      var r := sys.roll;
      if r.id !in sys.reg.apps || sys.reg.apps[r.id] != r.replacement then sys.(roll := r.(phase := Retiring))
      else match seen
        case Stable => sys.(roll := r.(phase := Retiring, stable := true))
        case Died => sys.(roll := r.(phase := Failing))
        case TimedOut => sys.(roll := r.(phase := Failing))
        case NotYet => sys
  }

  /** Delete the replacement and put the old actor back with its serial, unless a user changed the slot. */
  function Rollback(sys: Sys): Sys {
    if !sys.roll.Rolling? || !sys.roll.phase.Failing? then sys
    else
      var r := sys.roll;
      var s := sys.reg;
      if r.id !in s.apps || s.apps[r.id] != r.replacement then sys.(roll := r.(phase := Retiring))
      else if ParkKey(r.id) !in s.serials then sys
      else
        var restored := s.(
          retired := s.retired + [r.replacement],
          apps := s.apps[r.id := r.prev],
          serials := s.serials[r.id := s.serials[ParkKey(r.id)]]);
        Sys(Bump(RemoveKey(restored, ParkKey(r.id))), Idle)
  }

  /** Stop the parked actor; the lock is not held. */
  function StopParked(sys: Sys): Sys {
    if !sys.roll.Rolling? || !sys.roll.phase.Retiring? then sys
    else Sys(sys.reg.(retired := sys.reg.retired + [sys.roll.prev]), sys.roll.(phase := Stopped))
  }

  function RemoveParked(sys: Sys): Sys {
    if !sys.roll.Rolling? || !sys.roll.phase.Stopped? then sys
    else Sys(Bump(RemoveKey(sys.reg, ParkKey(sys.roll.id))), Idle)
  }

  // -------------------------------------------------------------------- steps

  datatype Step =
    | UStart(builds: seq<bool>)
    | UStartAt(id: int, built: bool)
    | UDelete(id: int)
    | UTouch(id: int)
    | RBegin(id: int, built: bool, startOk: bool)
    | RPoll(seen: Seen)
    | RRollback
    | RStopParked
    | RRemoveParked

  /** Ids restored from a dump are not negative. */
  predicate Legal(e: Step) {
    e.UStartAt? ==> e.id >= 0
  }

  /** A restart, stop or signal leaves the registry alone; a delete of the rolled slot is remembered. */
  function Next(sys: Sys, e: Step): Sys {
    match e
    case UStart(builds) => sys.(reg := StartApps(sys.reg, builds))
    case UStartAt(id, built) => sys.(reg := StartAt(sys.reg, id, built))
    case UDelete(id) =>
      Sys(Delete(sys.reg, id),
          if sys.roll.Rolling? && sys.roll.id == id then sys.roll.(touched := true) else sys.roll)
    case UTouch(id) => sys
    case RBegin(id, built, startOk) => Begin(sys, id, built, startOk)
    case RPoll(seen) => Poll(sys, seen)
    case RRollback => Rollback(sys)
    case RStopParked => StopParked(sys)
    case RRemoveParked => RemoveParked(sys)
  }

  // --------------------------------------------------------------- invariants

  /** Ids, actors and serials agree. */
  ghost predicate Consistent(s: State) {
    && s.nextID >= 0
    && s.serials.Keys == s.apps.Keys
    && (forall k :: k in s.apps ==> s.apps[k] < |s.owner|)
    && s.nextSerial == |s.owner|
    && (forall k :: k in s.apps && k in s.serials ==> s.serials[k] == s.apps[k] + 1)
    && (forall k, l :: k in s.serials && l in s.serials && k != l ==> s.serials[k] != s.serials[l])
    && NoDup(s.retired)
    && (forall a :: a in s.retired ==> a < |s.owner|)
  }

  /** Public slots hold live actors built for that very id, below the id counter. */
  ghost predicate PublicLive(s: State) {
    forall k :: k in s.apps && k >= 0 && s.apps[k] < |s.owner| ==>
      k < s.nextID && s.owner[s.apps[k]] == k && s.apps[k] !in s.retired
  }

  /** The only hidden slot is that of the roll in flight. */
  ghost predicate ParkedSlot(sys: Sys) {
    forall k :: k in sys.reg.apps && k < 0 ==> sys.roll.Rolling? && k == ParkKey(sys.roll.id)
  }

  ghost predicate RollHolds(sys: Sys) {
    sys.roll.Rolling? ==>
      var s, r := sys.reg, sys.roll;
      && 0 <= r.id < s.nextID
      && ParkKey(r.id) in s.apps && s.apps[ParkKey(r.id)] == r.prev
      && ParkKey(r.id) in s.serials && s.serials[ParkKey(r.id)] == r.serial
      && r.prev < |s.owner| && r.replacement < |s.owner| && r.prev != r.replacement
      && s.owner[r.prev] == r.id
      && (r.id in s.apps ==> s.apps[r.id] != r.prev)
      && (r.prev in s.retired <==> r.phase == Stopped)
      && (!r.touched ==> r.id in s.apps && s.apps[r.id] == r.replacement)
      && (r.phase == Retiring || r.phase == Stopped ==> r.stable || r.touched)
      && (r.stable ==> r.phase == Retiring || r.phase == Stopped)
  }

  ghost predicate Inv(sys: Sys) {
    Consistent(sys.reg) && PublicLive(sys.reg) && ParkedSlot(sys) && RollHolds(sys)
  }

  lemma AddAppKeeps(sys: Sys, id: int)
    requires Inv(sys) && 0 <= id < sys.reg.nextID && id !in sys.reg.apps
    ensures Inv(sys.(reg := AddApp(sys.reg, id)))
  {
  }

  /** A batch writes only at base, base + 1, ..., and exactly where the actor could be built. */
  lemma {:induction false} BatchWrites(s: State, base: int, builds: seq<bool>, k: int)
    ensures var t := AddBatch(s, base, builds);
      && t.nextID == s.nextID && t.version == s.version && t.retired == s.retired
      && (if base <= k < base + |builds| && builds[k - base] then k in t.apps && t.apps[k] >= |s.owner|
          else (k in t.apps <==> k in s.apps) && (k in s.apps ==> t.apps[k] == s.apps[k]))
      && |t.owner| >= |s.owner|
  {
    if builds != [] {
      BatchWrites(s, base, builds[..|builds| - 1], k);
    }
  }

  /**
    A batch is handed ids at and above the old counter, so the entries it
    writes without looking are always free.
   */
  lemma {:induction false} BatchKeeps(sys: Sys, base: int, builds: seq<bool>)
    requires Inv(sys) && 0 <= base && base + |builds| <= sys.reg.nextID
    requires forall k :: k in sys.reg.apps ==> k < base
    ensures Inv(sys.(reg := AddBatch(sys.reg, base, builds)))
    ensures AddBatch(sys.reg, base, builds).nextID == sys.reg.nextID
  {
    if builds != [] {
      var n := |builds| - 1;
      var front := AddBatch(sys.reg, base, builds[..n]);
      BatchKeeps(sys, base, builds[..n]);
      BatchWrites(sys.reg, base, builds[..n], base + n);
      AddOrSkip(sys.(reg := front), base + n, builds[n]);
      assert AddBatch(sys.reg, base, builds) == if builds[n] then AddApp(front, base + n) else front;
    } else {
      assert sys.(reg := AddBatch(sys.reg, base, builds)) == sys;
    }
  }

  /** A started batch overwrites nothing: every entry there was, parked ones too, is still the same. */
  lemma StartOverwritesNothing(sys: Sys, builds: seq<bool>, k: int)
    requires Inv(sys) && k in sys.reg.apps
    ensures var t := StartApps(sys.reg, builds);
      k in t.apps && t.apps[k] == sys.reg.apps[k]
  {
    if builds != [] {
      KeysBelow(sys);
      BatchWrites(sys.reg.(nextID := sys.reg.nextID + |builds|), sys.reg.nextID, builds, k);
    }
  }

  lemma AddOrSkip(sys: Sys, id: int, built: bool)
    requires Inv(sys) && 0 <= id < sys.reg.nextID && id !in sys.reg.apps
    ensures Inv(if built then sys.(reg := AddApp(sys.reg, id)) else sys)
  {
    AddAppKeeps(sys, id);
  }

  lemma RaiseCounter(sys: Sys, n: int)
    requires Inv(sys) && n >= sys.reg.nextID
    ensures Inv(sys.(reg := sys.reg.(nextID := n)))
  {
  }

  lemma BumpKeeps(sys: Sys)
    requires Inv(sys)
    ensures Inv(sys.(reg := Bump(sys.reg)))
  {
  }

  lemma KeysBelow(sys: Sys)
    requires Inv(sys)
    ensures forall k :: k in sys.reg.apps ==> k < sys.reg.nextID
  {
  }

  lemma BatchBumpKeeps(raised: Sys, base: int, builds: seq<bool>)
    requires Inv(raised) && 0 <= base && base + |builds| <= raised.reg.nextID
    requires forall k :: k in raised.reg.apps ==> k < base
    ensures Inv(raised.(reg := Bump(AddBatch(raised.reg, base, builds))))
  {
    BatchKeeps(raised, base, builds);
    BumpKeeps(raised.(reg := AddBatch(raised.reg, base, builds)));
  }

  lemma StartKeeps(sys: Sys, builds: seq<bool>)
    requires Inv(sys)
    ensures Inv(sys.(reg := StartApps(sys.reg, builds)))
  {
    StartIsBatch(sys, builds);
    if builds != [] {
      KeysBelow(sys);
      RaiseCounter(sys, sys.reg.nextID + |builds|);
      BatchBumpKeeps(Raised(sys, |builds|), sys.reg.nextID, builds);
    }
  }

  function Raised(sys: Sys, n: nat): Sys {
    sys.(reg := sys.reg.(nextID := sys.reg.nextID + n))
  }

  lemma StartIsBatch(sys: Sys, builds: seq<bool>)
    ensures sys.(reg := StartApps(sys.reg, builds)) ==
      if builds == [] then sys
      else Raised(sys, |builds|).(reg := Bump(AddBatch(Raised(sys, |builds|).reg, sys.reg.nextID, builds)))
  {
  }

  lemma StartAtKeeps(sys: Sys, id: int, built: bool)
    requires Inv(sys) && id >= 0
    ensures Inv(sys.(reg := StartAt(sys.reg, id, built)))
  {
    if id !in sys.reg.apps && built {
      var raised := sys.(reg := if id >= sys.reg.nextID then sys.reg.(nextID := id + 1) else sys.reg);
      AddAppKeeps(raised, id);
    }
  }

  lemma DeleteKeeps(sys: Sys, id: int)
    requires Inv(sys)
    ensures Inv(Next(sys, UDelete(id)))
  {
    var s := sys.reg;
    if id >= 0 && id in s.apps {
      var t := Delete(s, id);
      assert t.apps == s.apps - {id};
      assert t.retired == s.retired + [s.apps[id]];
      if sys.roll.Rolling? {
        assert ParkKey(sys.roll.id) in t.apps;
      }
    }
  }

  lemma BeginKeeps(sys: Sys, id: int, built: bool, startOk: bool)
    requires Inv(sys)
    ensures Inv(Begin(sys, id, built, startOk))
  {
  }

  lemma PollKeeps(sys: Sys, seen: Seen)
    requires Inv(sys)
    ensures Inv(Poll(sys, seen))
  {
  }

  lemma RollbackKeeps(sys: Sys)
    requires Inv(sys)
    ensures Inv(Rollback(sys))
  {
  }

  lemma StopParkedKeeps(sys: Sys)
    requires Inv(sys)
    ensures Inv(StopParked(sys))
  {
  }

  lemma RemoveParkedKeeps(sys: Sys)
    requires Inv(sys)
    ensures Inv(RemoveParked(sys))
  {
  }

  /** Every step keeps the invariant. */
  lemma StepKeepsInv(sys: Sys, e: Step)
    requires Inv(sys) && Legal(e)
    ensures Inv(Next(sys, e))
  {
    match e
    case UStart(builds) => StartKeeps(sys, builds);
    case UStartAt(id, built) => StartAtKeeps(sys, id, built);
    case UDelete(id) => DeleteKeeps(sys, id);
    case UTouch(id) =>
    case RBegin(id, built, startOk) => BeginKeeps(sys, id, built, startOk);
    case RPoll(seen) => PollKeeps(sys, seen);
    case RRollback => RollbackKeeps(sys);
    case RStopParked => StopParkedKeeps(sys);
    case RRemoveParked => RemoveParkedKeeps(sys);
  }

  // --------------------------------------------------------------------- runs

  function RunSteps(sys: Sys, steps: seq<Step>): Sys {
    if steps == [] then sys else Next(RunSteps(sys, steps[..|steps| - 1]), steps[|steps| - 1])
  }

  predicate AllLegal(steps: seq<Step>) {
    forall i :: 0 <= i < |steps| ==> Legal(steps[i])
  }

  lemma {:induction false} RunKeepsInv(sys: Sys, steps: seq<Step>)
    requires Inv(sys) && AllLegal(steps)
    ensures Inv(RunSteps(sys, steps))
  {
    if steps != [] {
      RunKeepsInv(sys, steps[..|steps| - 1]);
      StepKeepsInv(RunSteps(sys, steps[..|steps| - 1]), steps[|steps| - 1]);
    }
  }

  /**
    Reload safety over all interleavings with user commands: no public slot
    holds a retired actor, no actor is retired twice, there is at most one
    hidden slot and none between rolls; ids, slots and serials identify
    incarnations, and public ids stay below the id counter.
   */
  lemma ReloadSafety(steps: seq<Step>)
    requires AllLegal(steps)
    ensures var sys := RunSteps(Sys(EMPTY, Idle), steps);
      var s := sys.reg;
      && (forall k :: k in s.apps && k >= 0 ==> s.apps[k] !in s.retired && k < s.nextID)
      && NoDup(s.retired)
      && (forall k, l :: k in s.apps && l in s.apps && k < 0 && l < 0 ==> k == l)
      && (sys.roll.Idle? ==> forall k :: k in s.apps ==> k >= 0)
      && s.serials.Keys == s.apps.Keys
      && (forall k, l :: k in s.apps && l in s.apps && k != l ==>
            s.apps[k] != s.apps[l] && s.serials[k] != s.serials[l])
  {
    RunKeepsInv(Sys(EMPTY, Idle), steps);
  }

  /** Actors a step sends a command to. Sending to a retired actor would block for ever. */
  function Targets(sys: Sys, e: Step): set<Actor> {
    var s, r := sys.reg, sys.roll;
    match e
    case UDelete(id) => if id >= 0 && id in s.apps then {s.apps[id]} else {}
    case UTouch(id) => if id >= 0 && id in s.apps then {s.apps[id]} else {}
    case RBegin(id, built, _) => if r.Idle? && id in s.apps && built then {|s.owner|} else {}
    case RRollback =>
      if r.Rolling? && r.phase == Failing && r.id in s.apps && s.apps[r.id] == r.replacement
      then {r.replacement} else {}
    case RStopParked => if r.Rolling? && r.phase == Retiring then {r.prev} else {}
    case _ => {}
  }

  lemma CommandsReachLiveActors(sys: Sys, e: Step)
    requires Inv(sys)
    ensures forall a :: a in Targets(sys, e) ==> a !in sys.reg.retired
  {
  }

  /** While a roll lasts it is about the same actors and the same old registration. */
  lemma RollIdentity(sys: Sys, e: Step)
    requires sys.roll.Rolling? && Next(sys, e).roll.Rolling?
    ensures var r, t := sys.roll, Next(sys, e).roll;
      && t.id == r.id && t.prev == r.prev && t.replacement == r.replacement && t.serial == r.serial
      && (r.stable ==> t.stable) && (r.touched ==> t.touched)
  {
  }

  /** How a roll ends. */
  ghost predicate Ended(s: State, r: Roll)
    requires r.Rolling?
  {
    && (forall k :: k in s.apps ==> k >= 0)
    && (r.prev in s.retired ==> r.stable || r.touched)
    && (r.prev !in s.retired ==>
          && r.id in s.apps && s.apps[r.id] == r.prev
          && r.id in s.serials && s.serials[r.id] == r.serial
          && r.replacement in s.retired)
  }

  lemma RollEnds(sys: Sys, e: Step)
    requires Inv(sys) && sys.roll.Rolling? && Next(sys, e).roll.Idle?
    ensures Ended(Next(sys, e).reg, sys.roll)
  {
    var s, r := sys.reg, sys.roll;
    if e.RRollback? {
      var t := Next(sys, e).reg;
      assert t.retired[|s.retired|] == r.replacement;
    }
  }

  /**
    A failed reload never leaves the app down: at every point of a roll, unless
    the replacement has been seen stable or a user deleted the slot, the old
    actor is not retired and the slot holds the replacement.
   */
  lemma OldActorStays(sys: Sys)
    requires Inv(sys) && sys.roll.Rolling? && !sys.roll.stable && !sys.roll.touched
    ensures var s, r := sys.reg, sys.roll;
      && r.prev !in s.retired
      && ParkKey(r.id) in s.apps && s.apps[ParkKey(r.id)] == r.prev
      && r.id in s.apps && s.apps[r.id] == r.replacement && r.replacement !in s.retired
  {
  }

  /** And every failing path whose slot still holds the replacement restores that actor with that serial. */
  lemma RollbackRestores(sys: Sys)
    requires Inv(sys) && sys.roll.Rolling? && sys.roll.phase == Failing
    requires sys.roll.id in sys.reg.apps && sys.reg.apps[sys.roll.id] == sys.roll.replacement
    ensures var t, r := Next(sys, RRollback), sys.roll;
      && t.roll.Idle?
      && r.id in t.reg.apps && t.reg.apps[r.id] == r.prev && r.prev !in t.reg.retired
      && r.id in t.reg.serials && t.reg.serials[r.id] == r.serial
      && ParkKey(r.id) !in t.reg.apps
  {
  }

  /** The states after each of the steps are all inside the roll. */
  predicate StaysInRoll(sys: Sys, steps: seq<Step>) {
    RunSteps(sys, steps).roll.Rolling? && (steps == [] || StaysInRoll(sys, steps[..|steps| - 1]))
  }

  lemma {:induction false} RollRunIdentity(sys: Sys, steps: seq<Step>)
    requires sys.roll.Rolling? && StaysInRoll(sys, steps)
    ensures var r, t := sys.roll, RunSteps(sys, steps).roll;
      t.id == r.id && t.prev == r.prev && t.replacement == r.replacement && t.serial == r.serial
  {
    if steps != [] {
      RollRunIdentity(sys, steps[..|steps| - 1]);
      RollIdentity(RunSteps(sys, steps[..|steps| - 1]), steps[|steps| - 1]);
    }
  }

  /** A poll at the gate that finds the replacement, still in its slot, online for min_uptime. */
  predicate SeesStable(sys: Sys, e: Step) {
    && e == RPoll(Stable)
    && sys.roll.Rolling? && sys.roll.phase == Gate
    && sys.roll.id in sys.reg.apps && sys.reg.apps[sys.roll.id] == sys.roll.replacement
  }

  ghost predicate ProvedStable(sys: Sys, steps: seq<Step>) {
    exists i :: 0 <= i < |steps| && SeesStable(RunSteps(sys, steps[..i]), steps[i])
  }

  /** What a roll remembers did happen: such a poll, or a user's delete of the slot. */
  lemma {:induction false} RememberedHappened(sys: Sys, steps: seq<Step>)
    requires sys.roll.Rolling? && !sys.roll.stable && !sys.roll.touched && StaysInRoll(sys, steps)
    ensures RunSteps(sys, steps).roll.stable ==> ProvedStable(sys, steps)
    ensures RunSteps(sys, steps).roll.touched ==> UDelete(sys.roll.id) in steps
  {
    if steps != [] {
      var n := |steps| - 1;
      var front, e := steps[..n], steps[n];
      RememberedHappened(sys, front);
      RollRunIdentity(sys, front);
      if ProvedStable(sys, front) {
        var i :| 0 <= i < n && SeesStable(RunSteps(sys, front[..i]), front[i]);
        assert front[..i] == steps[..i] && front[i] == steps[i];
      }
      if SeesStable(RunSteps(sys, front), e) {
        assert steps[..n] == front;
      }
      OnlyStableOrDeleted(RunSteps(sys, front), e);
      assert e in steps && forall d :: d in front ==> d in steps;
    }
  }

  lemma OnlyStableOrDeleted(sys: Sys, e: Step)
    requires sys.roll.Rolling? && Next(sys, e).roll.Rolling?
    ensures Next(sys, e).roll.stable ==> sys.roll.stable || SeesStable(sys, e)
    ensures Next(sys, e).roll.touched ==> sys.roll.touched || e == UDelete(sys.roll.id)
  {
  }

  /**
    A whole roll, from the state before it to the state after it: either the
    actor the id had is back there with the serial it had, or it is retired and
    one of the steps saw the replacement stable or was a delete of that id.
   */
  lemma WholeRoll(sys: Sys, id: int, startOk: bool, steps: seq<Step>, last: Step)
    requires Inv(sys) && sys.roll.Idle? && id in sys.reg.apps
    requires AllLegal(steps) && Legal(last)
    requires StaysInRoll(Begin(sys, id, true, startOk), steps)
    requires Next(RunSteps(Begin(sys, id, true, startOk), steps), last).roll.Idle?
    ensures id in sys.reg.serials
    ensures var begun := Begin(sys, id, true, startOk);
      var end := Next(RunSteps(begun, steps), last).reg;
      && (forall k :: k in end.apps ==> k >= 0)
      && (if sys.reg.apps[id] in end.retired then ProvedStable(begun, steps) || UDelete(id) in steps
          else id in end.apps && end.apps[id] == sys.reg.apps[id]
               && id in end.serials && end.serials[id] == sys.reg.serials[id])
  {
    var begun := Begin(sys, id, true, startOk);
    BeginKeeps(sys, id, true, startOk);
    RunKeepsInv(begun, steps);
    RollRunIdentity(begun, steps);
    RememberedHappened(begun, steps);
    RollEnds(RunSteps(begun, steps), last);
  }

  /** A roll whose polls never say stable, and whose slot nobody deletes, ends as if it had not been. */
  lemma FailedRollRestores(sys: Sys, id: int, startOk: bool, steps: seq<Step>, last: Step)
    requires Inv(sys) && sys.roll.Idle? && id in sys.reg.apps && id in sys.reg.serials
    requires AllLegal(steps) && Legal(last)
    requires StaysInRoll(Begin(sys, id, true, startOk), steps)
    requires Next(RunSteps(Begin(sys, id, true, startOk), steps), last).roll.Idle?
    requires RPoll(Stable) !in steps && UDelete(id) !in steps
    ensures var end := Next(RunSteps(Begin(sys, id, true, startOk), steps), last).reg;
      && sys.reg.apps[id] !in end.retired
      && id in end.apps && end.apps[id] == sys.reg.apps[id]
      && id in end.serials && end.serials[id] == sys.reg.serials[id]
  {
    WholeRoll(sys, id, startOk, steps, last);
  }

  /** And at every point of it the old actor is parked and serving, and the slot holds the replacement. */
  lemma OldActorServes(sys: Sys, id: int, startOk: bool, steps: seq<Step>)
    requires Inv(sys) && sys.roll.Idle? && id in sys.reg.apps && AllLegal(steps)
    requires StaysInRoll(Begin(sys, id, true, startOk), steps)
    requires !ProvedStable(Begin(sys, id, true, startOk), steps) && UDelete(id) !in steps
    ensures var t := RunSteps(Begin(sys, id, true, startOk), steps);
      && sys.reg.apps[id] !in t.reg.retired
      && ParkKey(id) in t.reg.apps && t.reg.apps[ParkKey(id)] == sys.reg.apps[id]
      && id in t.reg.apps && t.reg.apps[id] == |sys.reg.owner| && |sys.reg.owner| !in t.reg.retired
  {
    var begun := Begin(sys, id, true, startOk);
    BeginKeeps(sys, id, true, startOk);
    RunKeepsInv(begun, steps);
    RollRunIdentity(begun, steps);
    RememberedHappened(begun, steps);
    OldActorStays(RunSteps(begun, steps));
  }

  // --------------------------------------------------- what each step is for

  /** Beginning a roll: a new actor under the id with a serial never used, the old one parked, nothing else. */
  lemma BeginPublishes(sys: Sys, id: int, startOk: bool)
    requires Inv(sys) && sys.roll.Idle? && id in sys.reg.apps
    ensures var s, t := sys.reg, Begin(sys, id, true, startOk).reg;
      && id in s.serials && ParkKey(id) in t.serials && t.serials[ParkKey(id)] == s.serials[id]
      && id in t.apps && t.apps[id] == |s.owner| && (forall k :: k in s.apps ==> s.apps[k] != t.apps[id])
      && id in t.serials && (forall k :: k in s.serials ==> s.serials[k] < t.serials[id])
      && ParkKey(id) in t.apps && t.apps[ParkKey(id)] == s.apps[id]
      && t.apps.Keys == s.apps.Keys + {ParkKey(id)} && t.retired == s.retired && t.nextID == s.nextID
      && (forall k :: k in s.apps && k != id ==>
            t.apps[k] == s.apps[k] && k in t.serials && t.serials[k] == s.serials[k])
      && (startOk <==> Begin(sys, id, true, startOk).roll.phase != Failing)
  {
    assert forall k :: k in sys.reg.apps ==> k >= 0;
  }

  /** A replacement seen dead or out of time: the next step puts the old actor back with its serial. */
  lemma FailedPollRestores(sys: Sys, seen: Seen)
    requires Inv(sys) && sys.roll.Rolling? && sys.roll.phase == Gate && (seen == Died || seen == TimedOut)
    requires sys.roll.id in sys.reg.apps && sys.reg.apps[sys.roll.id] == sys.roll.replacement
    ensures var t, r := Next(Next(sys, RPoll(seen)), RRollback), sys.roll;
      && t.roll.Idle? && t.reg.retired == sys.reg.retired + [r.replacement]
      && r.id in t.reg.apps && t.reg.apps[r.id] == r.prev
      && r.id in t.reg.serials && t.reg.serials[r.id] == r.serial
  {
    PollKeeps(sys, seen);
    RollbackRestores(Next(sys, RPoll(seen)));
  }

  /** One seen stable: it keeps the slot and its own serial, and the old actor is retired. */
  lemma StablePollRetires(sys: Sys)
    requires Inv(sys) && SeesStable(sys, RPoll(Stable))
    ensures var t, r := Next(Next(Next(sys, RPoll(Stable)), RStopParked), RRemoveParked), sys.roll;
      && t.roll.Idle? && t.reg.retired == sys.reg.retired + [r.prev]
      && t.reg.apps == sys.reg.apps - {ParkKey(r.id)} && t.reg.serials == sys.reg.serials - {ParkKey(r.id)}
      && r.id in t.reg.apps && t.reg.apps[r.id] == r.replacement
  {
    assert sys.roll.id in sys.reg.apps - {ParkKey(sys.roll.id)};
  }

  /** A slot that changed hands, whatever is seen: it is left as it is, and the old actor is retired. */
  lemma ChangedSlotRetires(sys: Sys, seen: Seen)
    requires Inv(sys) && sys.roll.Rolling? && sys.roll.phase == Gate
    requires !(sys.roll.id in sys.reg.apps && sys.reg.apps[sys.roll.id] == sys.roll.replacement)
    ensures var t, r := Next(Next(Next(sys, RPoll(seen)), RStopParked), RRemoveParked), sys.roll;
      && t.roll.Idle? && t.reg.retired == sys.reg.retired + [r.prev]
      && t.reg.apps == sys.reg.apps - {ParkKey(r.id)} && t.reg.serials == sys.reg.serials - {ParkKey(r.id)}
  {
  }

  /** And a poll that says nothing yet changes nothing. */
  lemma QuietPollWaits(sys: Sys)
    requires sys.roll.Rolling? && sys.roll.phase == Gate
    requires sys.roll.id in sys.reg.apps && sys.reg.apps[sys.roll.id] == sys.roll.replacement
    ensures Next(sys, RPoll(NotYet)) == sys
  {
  }

  /** A start at an id takes that id, if it is free and the actor can be built, with a serial never used. */
  lemma StartAtTakesId(sys: Sys, id: int, built: bool)
    requires Inv(sys) && id >= 0
    ensures var s, t := sys.reg, StartAt(sys.reg, id, built);
      if id in s.apps || !built then t == s
      else
        && t.apps == s.apps[id := |s.owner|] && id in t.serials
        && (forall k :: k in s.serials ==> s.serials[k] < t.serials[id])
        && t.nextID == (if id < s.nextID then s.nextID else id + 1) && t.retired == s.retired
  {
  }

  /** A delete retires the actor at the id and frees the id, whatever becomes of its tree, and nothing else. */
  lemma DeleteFreesId(sys: Sys, id: int)
    requires Inv(sys)
    ensures var s, t := sys.reg, Delete(sys.reg, id);
      if id >= 0 && id in s.apps then
        && t.apps == s.apps - {id} && t.serials == s.serials - {id}
        && t.retired == s.retired + [s.apps[id]] && t.nextSerial == s.nextSerial
      else t == s
  {
  }

  // ----------------------------------------------------- version and counter

  /** What List shows of the registry: public ids and their serials. */
  function Listing(s: State): map<int, nat> {
    map k | k in s.serials && k >= 0 :: s.serials[k]
  }

  /** Every change of the listing bumps the version, which never goes back. */
  lemma ListingChangeBumps(sys: Sys, e: Step)
    requires Inv(sys) && Legal(e)
    ensures Next(sys, e).reg.version >= sys.reg.version
    ensures Listing(Next(sys, e).reg) != Listing(sys.reg) ==> Next(sys, e).reg.version > sys.reg.version
  {
    if e.UStart? && e.builds != [] {
      BatchWrites(sys.reg.(nextID := sys.reg.nextID + |e.builds|), sys.reg.nextID, e.builds, 0);
    }
  }

  /**
    The id counter is rewound on an empty registry only; and after a step that
    leaves the registry empty it is 0 if and only if the last entry went by a
    user's delete in that step, or it was 0 and no batch took ids.
   */
  lemma EmptyRewindsIffDeleted(sys: Sys, e: Step)
    requires Inv(sys) && Legal(e)
    ensures var t := Next(sys, e).reg;
      && (t.nextID < sys.reg.nextID ==> t.apps == map[] && t.nextID == 0)
      && (t.apps == map[] ==>
            (t.nextID == 0 <==>
              if sys.reg.apps != map[] then e.UDelete? else sys.reg.nextID == 0 && !(e.UStart? && e.builds != [])))
  {
    if e.UStart? && e.builds != [] {
      var s := sys.reg.(nextID := sys.reg.nextID + |e.builds|);
      BatchWrites(s, sys.reg.nextID, e.builds, 0);
      if k :| k in sys.reg.apps {
        BatchWrites(s, sys.reg.nextID, e.builds, k);
        assert k in Next(sys, e).reg.apps;
      }
    }
  }

  /** A batch of one actor that cannot be built: the registry stays empty, and the next start gets id 1. */
  lemma UnbuiltBatchTakesIds()
    ensures var t := Next(Sys(EMPTY, Idle), UStart([false]));
      && t == Sys(EMPTY.(nextID := 1, version := 1), Idle)
      && Next(t, UStart([true])).reg.apps == map[1 := 0]
  {
    OneInBatch(EMPTY, false);
    OneInBatch(EMPTY.(nextID := 1, version := 1), true);
  }

  lemma OneInBatch(s: State, built: bool)
    ensures StartApps(s, [built]) ==
      (var t := s.(nextID := s.nextID + 1);
       Bump(if built then AddApp(t, s.nextID) else t))
  {
    var t := s.(nextID := s.nextID + 1);
    assert [built][..0] == [];
    assert AddBatch(t, s.nextID, []) == t;
    assert AddBatch(t, s.nextID, [built]) == if built then AddApp(t, s.nextID) else t;
  }

  /**
    A user deleting the only app while it is being rolled empties the registry
    without rewinding: the next start gets an id above 0.
   */
  lemma EmptyWithoutRewind(sys: Sys, id: int)
    requires Inv(sys) && sys.roll.Idle? && id >= 0 && sys.reg.apps.Keys == {id}
    ensures var begun := Begin(sys, id, true, true);
      var left := Poll(Next(begun, UDelete(id)), NotYet);
      var end := RemoveParked(StopParked(left));
      end.reg.apps == map[] && end.roll.Idle? && end.reg.nextID == sys.reg.nextID > 0
  {
    var begun := Begin(sys, id, true, true);
    BeginKeeps(sys, id, true, true);
    assert begun.reg.apps.Keys == {id, ParkKey(id)};
    var deleted := Next(begun, UDelete(id));
    DeleteKeeps(begun, id);
    DeletedSlot(begun, id);
    assert ParkKey(id) in deleted.reg.apps;
    EmptiedByRoll(deleted, id);
  }

  lemma DeletedSlot(sys: Sys, id: int)
    requires Inv(sys) && id >= 0 && id in sys.reg.apps && sys.roll.Rolling? && sys.roll.id == id
    ensures var t := Next(sys, UDelete(id));
      && t.reg.apps == sys.reg.apps - {id} && t.reg.nextID == sys.reg.nextID
      && t.roll == sys.roll.(touched := true)
  {
    assert ParkKey(id) in sys.reg.apps - {id};
  }

  lemma EmptiedByRoll(sys: Sys, id: int)
    requires sys.roll.Rolling? && sys.roll.id == id && sys.roll.phase == Gate
    requires sys.reg.apps.Keys == {ParkKey(id)} && id >= 0
    ensures var end := RemoveParked(StopParked(Poll(sys, NotYet)));
      end.reg.apps == map[] && end.roll.Idle? && end.reg.nextID == sys.reg.nextID
  {
  }
}
