/**
  The supervisor as the source has it: maps and counters updated in place, one
  method per lock section. Each is proved to be the registry step it stands for,
  and so keeps the registry invariant, roll in flight included.
 */
module Supervisor {
  import opened Registry

  /** What the reload's own variables say of the roll in flight: all but that a user deleted the slot. */
  predicate Tells(r: Roll, roll: Roll) {
    r == Known(roll, r)
  }

  /** The roll as it now is, with what is remembered of the slot. */
  function Known(next: Roll, before: Roll): Roll {
    if next.Rolling? && before.Rolling? then next.(touched := before.touched) else next
  }

  /** A rollback by what the reload knows is the rollback there is to do. */
  lemma RollbackTold(sys: Sys, r: Roll)
    requires Inv(sys) && Tells(r, sys.roll) && r.Rolling? && r.phase == Failing
    ensures ParkKey(r.id) in sys.reg.serials
    ensures var t := Rollback(Sys(sys.reg, r));
      && Sys(t.reg, Known(t.roll, sys.roll)) == Next(sys, RRollback)
      && Tells(t.roll, Known(t.roll, sys.roll))
      && Inv(Next(sys, RRollback))
  {
    StepKeepsInv(sys, RRollback);
  }

  /** The statuses the gate tells apart: online; errored or stopped; any other. */
  datatype Seat = Up | Down | Elsewhere

  const DEFAULT_MIN_UPTIME: int := 1_000_000_000
  const DEFAULT_LISTEN_TIMEOUT: int := 3_000_000_000

  class Registrar {
    var apps: map<int, Actor>
    var serials: map<int, nat>
    var nextID: int
    var nextSerial: nat
    var version: nat
    var owner: seq<int>
    var retired: seq<Actor>
    ghost var roll: Roll

    constructor ()
      ensures Valid() && Whole() == Sys(EMPTY, Idle)
    {
      apps, serials, nextID, nextSerial, version, owner, retired := map[], map[], 0, 0, 0, [], [];
      roll := Idle;
    }

    /** The registry and the roll in flight. */
    ghost function Whole(): Sys
      reads this
    {
      Sys(View(), roll)
    }

    ghost predicate Valid()
      reads this
    {
      Inv(Whole())
    }

    function View(): State
      reads this
    {
      State(apps, serials, nextID, nextSerial, version, owner, retired)
    }

    method AssignSerial(id: int) returns (serial: nat)
      modifies this`serials, this`nextSerial
      ensures View() == Registry.AssignSerial(old(View()), id) && serial == nextSerial
    {
      nextSerial := nextSerial + 1;
      serials := serials[id := nextSerial];
      serial := nextSerial;
    }

    /** A new actor for id; not yet in any slot. */
    method Build(id: int) returns (app: Actor)
      modifies this`owner
      ensures app == |old(owner)| && owner == old(owner) + [id]
    {
      app := |owner|;
      owner := owner + [id];
    }

    method BumpVersion()
      modifies this`version
      ensures version == old(version) + 1
    {
      version := version + 1;
    }

    /** A batch takes consecutive ids; one that cannot be built leaves its id unused and reports -1. */
    method StartApps(builds: seq<bool>) returns (ids: seq<int>)
      requires Valid()
      modifies this
      ensures Valid() && Whole() == Next(old(Whole()), UStart(builds))
      ensures |ids| == |builds|
      ensures forall k :: 0 <= k < |builds| ==> ids[k] == if builds[k] then old(nextID) + k else -1
    {
      StepKeepsInv(Whole(), UStart(builds));
      ids := StartBatch(builds);
    }

    method StartBatch(builds: seq<bool>) returns (ids: seq<int>)
      modifies this
      ensures View() == Registry.StartApps(old(View()), builds) && roll == old(roll)
      ensures |ids| == |builds|
      ensures forall k :: 0 <= k < |builds| ==> ids[k] == if builds[k] then old(nextID) + k else -1
    {
      ids := [];
      if |builds| == 0 {
        return;
      }
      var base := nextID;
      nextID := nextID + |builds|;
      ghost var start := View();
      for k := 0 to |builds|
        invariant View() == AddBatch(start, base, builds[..k]) && roll == old(roll)
        invariant |ids| == k
        invariant forall j :: 0 <= j < k ==> ids[j] == if builds[j] then base + j else -1
      {
        assert builds[..k + 1][..k] == builds[..k];
        if !builds[k] {
          ids := ids + [-1];
          continue;
        }
        var app := Build(base + k);
        apps := apps[base + k := app];
        var _ := AssignSerial(base + k);
        ids := ids + [base + k];
      }
      assert builds[..|builds|] == builds;
      BumpVersion();
    }

    /** A specific id: resurrect and adoption; refused when taken. */
    method StartReplacementAt(id: int, built: bool) returns (ok: bool)
      requires Valid() && id >= 0
      modifies this
      ensures Valid() && Whole() == Next(old(Whole()), UStartAt(id, built))
      ensures ok == (id !in old(apps) && built)
    {
      StepKeepsInv(Whole(), UStartAt(id, built));
      ok := PublishAt(id, built);
    }

    method PublishAt(id: int, built: bool) returns (ok: bool)
      modifies this
      ensures View() == StartAt(old(View()), id, built) && roll == old(roll)
      ensures ok == (id !in old(apps) && built)
    {
      if id in apps {
        return false;
      }
      if !built {
        return false;
      }
      var app := Build(id);
      apps := apps[id := app];
      var _ := AssignSerial(id);
      if id >= nextID {
        nextID := id + 1;
      }
      BumpVersion();
      return true;
    }

    /** Numeric identifiers resolve to public slots only. */
    method Resolve(id: int) returns (app: int)
      ensures app == if id >= 0 && id in apps then apps[id] else -1
    {
      if id < 0 || id !in apps {
        return -1;
      }
      return apps[id];
    }

    method ResetIDIfEmpty()
      modifies this`nextID
      ensures nextID == if apps == map[] then 0 else old(nextID)
    {
      if apps == map[] {
        nextID := 0;
      }
    }

    /** The entry is removed under the actor's own id. */
    method Delete(id: int) returns (found: bool)
      requires Valid()
      modifies this
      ensures Valid() && Whole() == Next(old(Whole()), UDelete(id))
      ensures found == (id >= 0 && id in old(apps))
    {
      StepKeepsInv(Whole(), UDelete(id));
      found := Remove(id);
      if roll.Rolling? && roll.id == id {
        roll := roll.(touched := true);
      }
    }

    method Remove(id: int) returns (found: bool)
      requires forall k :: k in apps ==> apps[k] < |owner|
      modifies this
      ensures View() == Registry.Delete(old(View()), id) && roll == old(roll)
      ensures found == (id >= 0 && id in old(apps))
    {
      var app := Resolve(id);
      if app < 0 {
        return false;
      }
      var key := owner[app];
      retired := retired + [app];
      apps := apps - {key};
      serials := serials - {key};
      ResetIDIfEmpty();
      BumpVersion();
      return true;
    }

    /** First lock section of a roll: park the old actor, publish and start the replacement. */
    method BeginReload(id: int, built: bool, startOk: bool) returns (r: Roll)
      requires Valid() && roll.Idle?
      modifies this
      ensures Valid() && Whole() == Next(old(Whole()), RBegin(id, built, startOk)) && r == roll
    {
      StepKeepsInv(Whole(), RBegin(id, built, startOk));
      r := ParkAndPublish(id, built, startOk);
      roll := r;
    }

    method ParkAndPublish(id: int, built: bool, startOk: bool) returns (r: Roll)
      requires serials.Keys == apps.Keys
      modifies this
      ensures Sys(View(), r) == Begin(Sys(old(View()), Idle), id, built, startOk)
    {
      if id !in apps {
        return Idle;
      }
      var prev := apps[id];
      var serial := serials[id];
      if !built {
        return Idle;
      }
      var replacement := Build(id);
      apps := apps[ParkKey(id) := prev];
      serials := serials[ParkKey(id) := serial];
      apps := apps[id := replacement];
      var _ := AssignSerial(id);
      BumpVersion();
      r := Rolling(id, prev, replacement, serial, if startOk then Gate else Failing, false, false);
    }

    /** What a poll makes of the replacement: its status, how long it has been up, and how long the gate has lasted. */
    static method Observe(status: Seat, upFor: int, lasted: int, minUptime: int, listenTimeout: int)
      returns (seen: Seen)
      ensures var need := if minUptime <= 0 then DEFAULT_MIN_UPTIME else minUptime;
        var limit := if listenTimeout <= 0 then DEFAULT_LISTEN_TIMEOUT else listenTimeout;
        && (seen == Stable <==> status == Up && upFor >= need)
        && (seen == Died <==> status == Down)
        && (seen == TimedOut <==> !(status == Up && upFor >= need) && status != Down && lasted > limit)
    {
      var need := minUptime;
      if need <= 0 {
        need := DEFAULT_MIN_UPTIME;
      }
      var limit := listenTimeout;
      if limit <= 0 {
        limit := DEFAULT_LISTEN_TIMEOUT;
      }
      match status {
        case Up =>
          if upFor >= need {
            return Stable;
          }
        case Down =>
          return Died;
        case Elsewhere =>
      }
      if lasted > limit {
        return TimedOut;
      }
      return NotYet;
    }

    /** One turn of the stability gate. */
    method PollReload(r: Roll, seen: Seen) returns (next: Roll)
      requires Valid() && Tells(r, roll) && r.Rolling? && r.phase == Gate
      modifies this`roll
      ensures Valid() && Whole() == Next(old(Whole()), RPoll(seen)) && Tells(next, roll)
    {
      StepKeepsInv(Whole(), RPoll(seen));
      if r.id !in apps || apps[r.id] != r.replacement {
        next := r.(phase := Retiring);
      } else {
        match seen {
          case Stable => next := r.(phase := Retiring, stable := true);
          case Died => next := r.(phase := Failing);
          case TimedOut => next := r.(phase := Failing);
          case NotYet => next := r;
        }
      }
      roll := Known(next, roll);
    }

    /** Delete the replacement and restore the parked actor and its serial. */
    method RollbackReload(r: Roll) returns (next: Roll)
      requires Valid() && Tells(r, roll) && r.Rolling? && r.phase == Failing
      modifies this
      ensures Valid() && Whole() == Next(old(Whole()), RRollback) && Tells(next, roll)
    {
      RollbackTold(Whole(), r);
      next := RestoreParked(r);
      roll := Known(next, roll);
    }

    method RestoreParked(r: Roll) returns (next: Roll)
      requires r.Rolling? && r.phase == Failing && ParkKey(r.id) in serials
      modifies this
      ensures Sys(View(), next) == Rollback(Sys(old(View()), r)) && roll == old(roll)
    {
      if r.id !in apps || apps[r.id] != r.replacement {
        return r.(phase := Retiring);
      }
      retired := retired + [r.replacement];
      apps := apps[r.id := r.prev];
      serials := serials[r.id := serials[ParkKey(r.id)]];
      apps := apps - {ParkKey(r.id)};
      serials := serials - {ParkKey(r.id)};
      BumpVersion();
      next := Idle;
    }

    /** First half of retiring the parked actor: its kill path, outside the lock. */
    method StopOld(r: Roll) returns (next: Roll)
      requires Valid() && Tells(r, roll) && r.Rolling? && r.phase == Retiring
      modifies this`retired, this`roll
      ensures Valid() && Whole() == Next(old(Whole()), RStopParked) && Tells(next, roll)
    {
      StepKeepsInv(Whole(), RStopParked);
      retired := retired + [r.prev];
      next := r.(phase := Stopped);
      roll := Known(next, roll);
    }

    /** Second half: its slot. */
    method DropOld(r: Roll) returns (next: Roll)
      requires Valid() && Tells(r, roll) && r.Rolling? && r.phase == Stopped
      modifies this
      ensures Valid() && Whole() == Next(old(Whole()), RRemoveParked) && Tells(next, roll)
    {
      StepKeepsInv(Whole(), RRemoveParked);
      next := FreeParked(r);
      roll := Idle;
    }

    method FreeParked(r: Roll) returns (next: Roll)
      requires r.Rolling? && r.phase == Stopped
      modifies this
      ensures Sys(View(), next) == RemoveParked(Sys(old(View()), r)) && next == Idle
    {
      apps := apps - {ParkKey(r.id)};
      serials := serials - {ParkKey(r.id)};
      BumpVersion();
      next := Idle;
    }
  }
}
