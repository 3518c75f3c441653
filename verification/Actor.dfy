/**
  The per-app actor: one handler runs at a time, so what holds between handlers
  holds at every turn of the loop. Launching and stopping a process tree are
  oracles that succeed or fail; `at` is the clock when a launch has succeeded.
 */
module Actor {
  import opened Common
  import opened Policy

  datatype Status = Launching | Online | Stopping | Stopped | Waiting | Errored

  /**
    `handle` is the held process tree, named by the launch that made it;
    `readyTimer` the launch a ready deadline was armed for; `park` the sleep of
    an armed restart timer; `leaked` counts launches made over a held handle.
   */
  datatype State = State(
    status: Status,
    handle: Option<nat>,
    launches: nat,
    restarts: nat,
    budget: Budget,
    uptime: int,
    exitCode: Option<int>,
    exitSig: int,
    prevBackoff: int,
    park: Option<int>,
    readyTimer: Option<nat>,
    leaked: nat)

  /** A registered app that was never started. */
  function Fresh(now: int, restarts: nat): State {
    State(Stopped, None, 0, restarts, Budget(0, None, now, false), 0, None, 0, 0, None, None, 0)
  }

  /** An adopted app: its tree is already running. */
  function Adopted(now: int, startedAt: int): State {
    Fresh(now, 0).(status := Online, handle := Some(1), launches := 1, uptime := startedAt)
  }

  // ------------------------------------------------------------------ handlers

  function ResetState(s: State, now: int): State {
    s.(budget := ResetBudget(s.budget, now), prevBackoff := 0)
  }

  function Launch(cfg: Config, s: State, ok: bool, at: int): State {
    var t := if s.handle.Some? then s.(leaked := s.leaked + 1) else s;
    if !ok then t.(status := Errored, handle := None)
    else
      t.(launches := s.launches + 1,
         handle := Some(s.launches + 1),
         uptime := at,
         exitCode := None,
         exitSig := 0,
         status := if cfg.waitReady then Launching else Online,
         readyTimer := if cfg.waitReady then Some(s.launches + 1) else s.readyTimer)
  }

  function Relaunch(cfg: Config, s: State, ok: bool, at: int): State {
    Launch(cfg, s.(restarts := s.restarts + 1), ok, at)
  }

  /** A process exit as reaped; a signal death carries exit code 0. */
  datatype Exit = Exit(exitCode: int, signaled: bool, termSig: int)

  function RecordExit(s: State, x: Exit): State {
    s.(exitCode := Some(if x.signaled then 0 else x.exitCode), exitSig := if x.signaled then x.termSig else 0)
  }

  /** The kill path; a surviving tree keeps its handle. x is the exit, if it has been reaped. */
  function StopTree(s: State, ok: bool, x: Option<Exit>): State {
    if s.handle.None? then s.(status := Stopped)
    else if !ok then s.(status := Errored)
    else
      var t := s.(handle := None, status := Stopped);
      if x.Some? then RecordExit(t, x.value) else t
  }

  function OnStart(cfg: Config, s: State, now: int, ok: bool, at: int): State {
    var t := s.(park := None);
    match s.status
    case Online => t
    case Launching => t
    case Stopping => t
    case Waiting => Relaunch(cfg, t, ok, at)
    case _ => Launch(cfg, ResetState(t, now), ok, at)
  }

  function OnStop(s: State, stopOk: bool, x: Option<Exit>): State {
    StopTree(s.(park := None), stopOk, x)
  }

  function OnRestart(cfg: Config, s: State, stopOk: bool, x: Option<Exit>, now: int, ok: bool, at: int): State {
    var t := StopTree(s.(park := None), stopOk, x);
    if s.handle.Some? && !stopOk then t
    else Relaunch(cfg, ResetState(t, now), ok, at)
  }

  function OnDelete(s: State, stopOk: bool, x: Option<Exit>): State {
    StopTree(s.(park := None), stopOk, x)
  }

  function OnReady(s: State): State {
    if s.status == Launching then s.(status := Online, readyTimer := None) else s
  }

  /** The restart timer fires. */
  function OnPark(cfg: Config, s: State, ok: bool, at: int): State {
    Relaunch(cfg, s.(park := None), ok, at)
  }

  predicate Intentional(cfg: Config, x: Exit) {
    !cfg.autorestart || (!x.signaled && x.exitCode in cfg.stopExitCodes)
  }

  /** The restart policy, once the dead tree is cleaned up. */
  function Decide(cfg: Config, s: State, x: Exit, now: int, ok: bool, at: int): State {
    var b := Account(cfg, s.budget, now, now - s.uptime, x.exitCode);
    if OverBudget(cfg, b) then s.(budget := Park(b), status := Errored)
    else
      var t := s.(budget := b);
      var d := NextRestartDelay(cfg, t.prevBackoff);
      var u := if d.isBackoff then t.(prevBackoff := d.sleep) else t;
      if d.sleep > 0 then u.(status := Waiting, park := Some(d.sleep)) else Relaunch(cfg, u, ok, at)
  }

  function OnExit(cfg: Config, s: State, x: Exit, now: int, cleanupOk: bool, ok: bool, at: int): State {
    if s.handle.None? || (s.status != Launching && s.status != Online) then s
    else
      var t := RecordExit(s.(status := Stopping, readyTimer := None), x);
      if !cleanupOk then t.(status := Errored)
      else
        var u := t.(handle := None);
        if Intentional(cfg, x) then u.(status := Stopped) else Decide(cfg, u, x, now, ok, at)
  }

  // -------------------------------------------------------------------- events

  datatype Event =
    | StartCmd(now: int, ok: bool, at: int)
    | StopCmd(stopOk: bool, x: Option<Exit>)
    | RestartCmd(stopOk: bool, x: Option<Exit>, now: int, ok: bool, at: int)
    | ExitEv(exit: Exit, now: int, cleanupOk: bool, ok: bool, at: int)
    | ReadyEv
    | ReadyTimeoutEv
    | ParkEv(ok: bool, at: int)

  /** What the loop's select can fire: nil channels never do. */
  predicate Enabled(s: State, e: Event) {
    match e
    case ExitEv(_, _, _, _, _) => s.handle.Some? && (s.status == Launching || s.status == Online)
    case ReadyEv => s.handle.Some? && s.status == Launching
    case ReadyTimeoutEv => s.handle.Some? && s.status == Launching && s.readyTimer.Some?
    case ParkEv(_, _) => s.park.Some?
    case _ => true
  }

  function Step(cfg: Config, s: State, e: Event): State {
    match e
    case StartCmd(now, ok, at) => OnStart(cfg, s, now, ok, at)
    case StopCmd(stopOk, x) => OnStop(s, stopOk, x)
    case RestartCmd(stopOk, x, now, ok, at) => OnRestart(cfg, s, stopOk, x, now, ok, at)
    case ExitEv(x, now, cleanupOk, ok, at) => OnExit(cfg, s, x, now, cleanupOk, ok, at)
    case ReadyEv => OnReady(s)
    case ReadyTimeoutEv => OnReady(s)
    case ParkEv(ok, at) => OnPark(cfg, s, ok, at)
  }

  /** What holds at every turn of the loop. */
  ghost predicate LoopInv(cfg: Config, s: State) {
    && s.status != Stopping
    && (s.status == Waiting <==> s.park.Some?)
    && (s.status == Launching || s.status == Online ==> s.handle.Some?)
    && (s.status == Stopped || s.status == Waiting ==> s.handle.None?)
    && (s.handle.Some? ==> s.handle == Some(s.launches))
    && (s.status == Launching ==> cfg.waitReady && s.readyTimer == Some(s.launches))
    && (s.budget.createdIsNull ==> (s.status == Errored || s.status == Stopped) && s.handle.None?)
    && (s.park.Some? ==> s.park.value > 0)
    && (cfg.maxRestarts >= 1 ==> 0 <= s.budget.unstable < cfg.maxRestarts)
  }

  lemma StartStates(cfg: Config, now: int, startedAt: int, restarts: nat)
    ensures LoopInv(cfg, Fresh(now, restarts)) && LoopInv(cfg, Adopted(now, startedAt))
  {
  }

  lemma StepKeepsInv(cfg: Config, s: State, e: Event)
    requires LoopInv(cfg, s) && Enabled(s, e)
    ensures LoopInv(cfg, Step(cfg, s, e))
  {
    match e
    case StartCmd(now, ok, at) =>
    case StopCmd(stopOk, x) =>
    case RestartCmd(stopOk, x, now, ok, at) =>
    case ExitEv(x, now, cleanupOk, ok, at) => ExitKeepsInv(cfg, s, x, now, cleanupOk, ok, at);
    case ReadyEv =>
    case ReadyTimeoutEv =>
    case ParkEv(ok, at) =>
  }

  lemma ExitKeepsInv(cfg: Config, s: State, x: Exit, now: int, cleanupOk: bool, ok: bool, at: int)
    requires LoopInv(cfg, s) && s.handle.Some? && (s.status == Launching || s.status == Online)
    ensures LoopInv(cfg, OnExit(cfg, s, x, now, cleanupOk, ok, at))
  {
  }

  function Run(cfg: Config, s: State, events: seq<Event>): State {
    if events == [] then s else Step(cfg, Run(cfg, s, events[..|events| - 1]), events[|events| - 1])
  }

  predicate AllEnabled(cfg: Config, s: State, events: seq<Event>) {
    events == [] ||
    (AllEnabled(cfg, s, events[..|events| - 1])
     && Enabled(Run(cfg, s, events[..|events| - 1]), events[|events| - 1]))
  }

  /** The invariant over every run, of a fresh or an adopted app. */
  lemma {:induction false} RunKeepsInv(cfg: Config, s: State, events: seq<Event>)
    requires LoopInv(cfg, s) && AllEnabled(cfg, s, events)
    ensures LoopInv(cfg, Run(cfg, s, events))
  {
    if events != [] {
      RunKeepsInv(cfg, s, events[..|events| - 1]);
      StepKeepsInv(cfg, Run(cfg, s, events[..|events| - 1]), events[|events| - 1]);
    }
  }

  /** The policy never runs with created_at null, so its zero window is never used. */
  lemma NullCreatedNeverCrashes(cfg: Config, s: State, e: Event)
    requires LoopInv(cfg, s) && Enabled(s, e) && e.ExitEv?
    ensures !s.budget.createdIsNull
  {
  }

  /**
    A launch over a held tree happens if and only if Start reaches an app left
    errored by a failed kill path.
   */
  lemma LeaksIff(cfg: Config, s: State, e: Event)
    requires LoopInv(cfg, s) && Enabled(s, e)
    ensures Step(cfg, s, e).leaked ==
      s.leaked + if e.StartCmd? && s.status == Errored && s.handle.Some? then 1 else 0
  {
  }

  /** Without Start no tree is lost, over every run. */
  lemma {:induction false} NoStartNoLeak(cfg: Config, s: State, events: seq<Event>)
    requires LoopInv(cfg, s) && AllEnabled(cfg, s, events)
    requires forall i :: 0 <= i < |events| ==> !events[i].StartCmd?
    ensures Run(cfg, s, events).leaked == s.leaked
  {
    if events != [] {
      var front := events[..|events| - 1];
      NoStartNoLeak(cfg, s, front);
      RunKeepsInv(cfg, s, front);
      LeaksIff(cfg, Run(cfg, s, front), events[|events| - 1]);
    }
  }

  /** The supervisor sends Start to a fresh actor, once, so no tree is ever lost. */
  lemma {:induction false} NoLeakUnderSupervisor(cfg: Config, now: int, restarts: nat, events: seq<Event>)
    requires AllEnabled(cfg, Fresh(now, restarts), events)
    requires forall i :: 0 < i < |events| ==> !events[i].StartCmd?
    ensures Run(cfg, Fresh(now, restarts), events).leaked == 0
  {
    if events != [] {
      var front := events[..|events| - 1];
      NoLeakUnderSupervisor(cfg, now, restarts, front);
      StartStates(cfg, now, 0, restarts);
      RunKeepsInv(cfg, Fresh(now, restarts), front);
      LeaksIff(cfg, Run(cfg, Fresh(now, restarts), front), events[|events| - 1]);
    }
  }

  /** And an adopted actor is never sent one. */
  lemma NoLeakWhenAdopted(cfg: Config, now: int, startedAt: int, events: seq<Event>)
    requires AllEnabled(cfg, Adopted(now, startedAt), events)
    requires forall i :: 0 <= i < |events| ==> !events[i].StartCmd?
    ensures Run(cfg, Adopted(now, startedAt), events).leaked == 0
  {
    StartStates(cfg, now, startedAt, 0);
    NoStartNoLeak(cfg, Adopted(now, startedAt), events);
  }

  /** Start, a stop whose kill path fails, Start again: the first tree is no longer held. */
  lemma LeakExample(cfg: Config, now: int)
    ensures var started := Step(cfg, Fresh(now, 0), StartCmd(now, true, now));
      var survived := Step(cfg, started, StopCmd(false, None));
      && survived.handle == Some(1)
      && Step(cfg, survived, StartCmd(now, true, now)).handle == Some(2)
      && Step(cfg, survived, StartCmd(now, true, now)).leaked == 1
  {
  }

  // ------------------------------------------------- what each event is for

  /** A process was started: the app is up, or behind its ready gate, with a tree of its own. */
  predicate Starts(cfg: Config, s: State, t: State, at: int) {
    && t.status == (if cfg.waitReady then Launching else Online)
    && t.launches == s.launches + 1 && t.handle == Some(t.launches)
    && t.uptime == at && t.exitCode == None && t.exitSig == 0 && t.park == None
    && (cfg.waitReady ==> t.readyTimer == Some(t.launches))
  }

  /** None could be: the app is errored, and holds no tree. */
  predicate FailsToStart(s: State, t: State) {
    t.status == Errored && t.handle == None && t.launches == s.launches && t.park == None
  }

  /** The crash epoch begins anew. */
  predicate FreshEpoch(t: State, now: int) {
    t.budget.unstable == 0 && t.budget.created == now && !t.budget.createdIsNull && t.prevBackoff == 0
  }

  /** Start leaves a running app alone; otherwise it starts a process, counted as a restart only when one was due. */
  lemma StartOutcome(cfg: Config, s: State, now: int, ok: bool, at: int)
    requires LoopInv(cfg, s)
    ensures var t := OnStart(cfg, s, now, ok, at);
      if s.status == Online || s.status == Launching then t == s
      else
        && (if ok then Starts(cfg, s, t, at) else FailsToStart(s, t))
        && t.restarts == s.restarts + (if s.status == Waiting then 1 else 0)
        && (if s.status == Waiting then t.budget == s.budget else FreshEpoch(t, now))
  {
  }

  /** Stop ends stopped without a tree, or errored with the surviving one; nothing is started. */
  lemma StopOutcome(s: State, stopOk: bool, x: Option<Exit>)
    ensures var t := OnStop(s, stopOk, x);
      && OnDelete(s, stopOk, x) == t
      && t.park == None && t.launches == s.launches && t.restarts == s.restarts && t.budget == s.budget
      && (if s.handle.Some? && !stopOk then t.status == Errored && t.handle == s.handle
          else t.status == Stopped && t.handle == None)
      && (s.handle.Some? && stopOk && x.Some? ==> Recorded(t, x.value))
  {
  }

  /** The exit as it is shown: the code, or 0 and the signal. */
  predicate Recorded(t: State, x: Exit) {
    if x.signaled then t.exitCode == Some(0) && t.exitSig == x.termSig
    else t.exitCode == Some(x.exitCode) && t.exitSig == 0
  }

  /** Restart, unless the kill path fails, counts one restart and starts a process in a fresh epoch. */
  lemma RestartOutcome(cfg: Config, s: State, stopOk: bool, x: Option<Exit>, now: int, ok: bool, at: int)
    ensures var t := OnRestart(cfg, s, stopOk, x, now, ok, at);
      if s.handle.Some? && !stopOk then t.status == Errored && t.handle == s.handle && t.restarts == s.restarts
      else
        && (if ok then Starts(cfg, s, t, at) else FailsToStart(s, t))
        && t.restarts == s.restarts + 1 && FreshEpoch(t, now)
  {
  }

  /** When the restart timer fires the process is started again, in the same epoch, and counted. */
  lemma ParkOutcome(cfg: Config, s: State, ok: bool, at: int)
    requires LoopInv(cfg, s) && s.park.Some?
    ensures var t := OnPark(cfg, s, ok, at);
      && (if ok then Starts(cfg, s, t, at) else FailsToStart(s, t))
      && t.restarts == s.restarts + 1 && t.budget == s.budget && t.prevBackoff == s.prevBackoff
  {
  }

  /** Ready, or its deadline, opens the gate and does nothing else. */
  lemma ReadyOutcome(s: State)
    ensures OnReady(s) == if s.status == Launching then s.(status := Online, readyTimer := None) else s
  {
  }

  /**
    An exit whose tree cannot be cleaned up ends errored with the tree; one of an
    app that is not to be restarted ends stopped; neither starts anything.
   */
  lemma ExitOutcome(cfg: Config, s: State, x: Exit, now: int, cleanupOk: bool, ok: bool, at: int)
    requires LoopInv(cfg, s) && s.status in {Launching, Online}
    ensures var t := OnExit(cfg, s, x, now, cleanupOk, ok, at);
      var meant := !cfg.autorestart || (!x.signaled && x.exitCode in cfg.stopExitCodes);
      && (!cleanupOk ==> t.status == Errored && t.handle == s.handle)
      && (cleanupOk && meant <==> t.status == Stopped)
      && (cleanupOk && meant ==> t.handle == None)
      && (!cleanupOk || meant ==>
            t.launches == s.launches && t.restarts == s.restarts && t.budget == s.budget && t.park == None)
      && (t.launches == s.launches ==> Recorded(t, x))
  {
  }

  /** An exit the policy does not park waits for its delay, or is followed by a start at once. */
  lemma ExitRestarts(cfg: Config, s: State, x: Exit, now: int, ok: bool, at: int)
    requires LoopInv(cfg, s) && s.status in {Launching, Online} && !Intentional(cfg, x)
    ensures var t := OnExit(cfg, s, x, now, true, ok, at);
      var d := NextRestartDelay(cfg, s.prevBackoff).sleep;
      if t.budget.createdIsNull then
        t.status == Errored && t.handle == None && t.launches == s.launches && t.budget.unstable == 0 && t.park == None
      else if d > 0 then
        t.status == Waiting && t.handle == None && t.launches == s.launches && t.park == Some(d)
        && t.restarts == s.restarts
      else (if ok then Starts(cfg, s, t, at) else FailsToStart(s, t)) && t.restarts == s.restarts + 1
  {
  }

  /** Without backoff the delay is the configured one, every time. */
  lemma FixedDelay(cfg: Config, s: State, x: Exit, now: int, ok: bool, at: int)
    requires LoopInv(cfg, s) && s.status in {Launching, Online} && !Intentional(cfg, x)
    requires cfg.expBackoff <= 0 && cfg.restartDelay > 0
    ensures var t := OnExit(cfg, s, x, now, true, ok, at);
      !t.budget.createdIsNull ==> t.status == Waiting && t.park == Some(cfg.restartDelay)
  {
    ExitRestarts(cfg, s, x, now, ok, at);
  }

  // ---------------------------------------------------- crash loops over runs

  /**
    The exits of the current crash epoch that went through the policy, with the
    latest instant seen so far, and when the last process was started: both as
    the events tell it.
   */
  datatype Traced = Traced(s: State, hist: seq<Crash>, clock: int, started: int)

  /** Instants of an event, in order, not before the clock. */
  predicate Timed(t: Traced, e: Event) {
    match e
    case StartCmd(now, _, at) => t.clock <= now <= at
    case RestartCmd(_, _, now, _, at) => t.clock <= now <= at
    case ExitEv(_, now, _, _, at) => t.clock <= now <= at
    case ParkEv(_, at) => t.clock <= at
    case _ => true
  }

  function ClockAfter(t: Traced, e: Event): int {
    match e
    case StartCmd(_, _, at) => at
    case RestartCmd(_, _, _, _, at) => at
    case ExitEv(_, _, _, _, at) => at
    case ParkEv(_, at) => at
    case _ => t.clock
  }

  /** The policy looks at this exit. */
  predicate Judged(cfg: Config, s: State, e: Event) {
    e.ExitEv? && Enabled(s, e) && e.cleanupOk && !Intentional(cfg, e.exit)
  }

  /** Start from a standstill, and restart, open a fresh epoch. */
  predicate Resets(s: State, e: Event) {
    (e.StartCmd? && (s.status == Stopped || s.status == Errored))
    || (e.RestartCmd? && !(s.handle.Some? && !e.stopOk))
  }

  /** The instant at which this event starts a process, if it does. */
  function StartedBy(cfg: Config, s: State, e: Event): Option<int> {
    match e
    case StartCmd(_, ok, at) => if ok && s.status !in {Launching, Online, Stopping} then Some(at) else None
    case RestartCmd(stopOk, _, _, ok, at) => if ok && (s.handle.None? || stopOk) then Some(at) else None
    case ParkEv(ok, at) => if ok then Some(at) else None
    case ExitEv(_, _, _, ok, at) => if ok && Step(cfg, s, e).status in {Launching, Online} then Some(at) else None
    case _ => None
  }

  /** An exit, judged by how long the process ran since it was started. */
  function CrashOf(cfg: Config, t: Traced, e: Event): Crash
    requires e.ExitEv?
  {
    Crash(e.now, IsUnstable(cfg, e.now - t.started, e.exit.exitCode))
  }

  function TracedStep(cfg: Config, t: Traced, e: Event): Traced {
    var start := StartedBy(cfg, t.s, e);
    Traced(
      Step(cfg, t.s, e),
      if Judged(cfg, t.s, e) then t.hist + [CrashOf(cfg, t, e)] else if Resets(t.s, e) then [] else t.hist,
      ClockAfter(t, e),
      if start.Some? then start.value else t.started)
  }

  /** The counters match the history of the epoch, until the app is parked by policy. */
  ghost predicate Faithful(cfg: Config, t: Traced) {
    && LoopInv(cfg, t.s)
    && (t.s.status in {Launching, Online} ==> t.s.uptime == t.started)
    && t.s.budget.created <= t.clock
    && (forall i :: 0 <= i < |t.hist| ==> t.hist[i].at <= t.clock)
    && (!t.s.budget.createdIsNull ==> Counts(cfg, t.s.budget, t.hist))
  }

  /** The policy parks the app at this step. */
  predicate ParksErrored(cfg: Config, t: Traced, e: Event) {
    Judged(cfg, t.s, e) && Step(cfg, t.s, e).budget.createdIsNull
  }

  /** The last maxRestarts exits are unstable, within one window of the first of them, which opened a series. */
  predicate EndsBurst(cfg: Config, all: seq<Crash>)
    requires cfg.maxRestarts >= 1
  {
    var k := |all| - cfg.maxRestarts;
    var window := OuterWindow(cfg, false);
    k >= 0 && OneBurst(all, k, window) && Opens(all, k, window)
  }

  lemma JudgedBudget(cfg: Config, t: Traced, e: Event)
    requires Judged(cfg, t.s, e) && LoopInv(cfg, t.s)
    ensures var b := Account(cfg, t.s.budget, e.now, e.now - t.s.uptime, e.exit.exitCode);
      && Step(cfg, t.s, e).budget == (if OverBudget(cfg, b) then Park(b) else b)
      && !b.createdIsNull
      && (OverBudget(cfg, b) ==> Step(cfg, t.s, e).status == Errored)
  {
  }

  lemma OtherBudget(cfg: Config, t: Traced, e: Event)
    requires !Judged(cfg, t.s, e) && LoopInv(cfg, t.s) && Enabled(t.s, e)
    ensures Step(cfg, t.s, e).budget == if Resets(t.s, e) then ResetBudget(t.s.budget, e.now) else t.s.budget
  {
  }

  lemma TracedStepFaithful(cfg: Config, t: Traced, e: Event)
    requires Sane(cfg) && Faithful(cfg, t) && Enabled(t.s, e) && Timed(t, e)
    ensures Faithful(cfg, TracedStep(cfg, t, e))
  {
    StepKeepsInv(cfg, t.s, e);
    StartedTold(cfg, t.s, e, t.started);
    StepCounts(cfg, t, e);
  }

  /** The start time the policy measures from is that of the last start. */
  lemma StartedTold(cfg: Config, s: State, e: Event, started: int)
    requires LoopInv(cfg, s) && Enabled(s, e)
    requires s.status in {Launching, Online} ==> s.uptime == started
    ensures var t, start := Step(cfg, s, e), StartedBy(cfg, s, e);
      t.status in {Launching, Online} ==> t.uptime == if start.Some? then start.value else started
  {
  }

  lemma StepCounts(cfg: Config, t: Traced, e: Event)
    requires Sane(cfg) && Faithful(cfg, t) && Enabled(t.s, e) && Timed(t, e)
    ensures var u := TracedStep(cfg, t, e);
      && u.s.budget.created <= u.clock
      && (forall i :: 0 <= i < |u.hist| ==> u.hist[i].at <= u.clock)
      && (!u.s.budget.createdIsNull ==> Counts(cfg, u.s.budget, u.hist))
  {
    if Judged(cfg, t.s, e) {
      JudgedBudget(cfg, t, e);
      AccountCounts(cfg, t.s.budget, t.hist, e.now, e.now - t.s.uptime, e.exit.exitCode);
    } else {
      OtherBudget(cfg, t, e);
    }
  }

  /**
    The crash-loop budget over whole runs: an exit parks the app errored if and
    only if the last maxRestarts exits of the epoch are unstable, fall within
    one window of the first of them, and that one opened a series.
   */
  lemma ParkedExactly(cfg: Config, t: Traced, e: Event)
    requires Sane(cfg) && Faithful(cfg, t) && Timed(t, e) && Judged(cfg, t.s, e)
    ensures ParksErrored(cfg, t, e) <==> EndsBurst(cfg, t.hist + [CrashOf(cfg, t, e)])
    ensures ParksErrored(cfg, t, e) ==> Step(cfg, t.s, e).status == Errored
  {
    JudgedBudget(cfg, t, e);
    OverBudgetExactly(cfg, t.s.budget, t.hist, e.now, e.now - t.s.uptime, e.exit.exitCode);
  }

  function TracedRun(cfg: Config, t: Traced, events: seq<Event>): Traced {
    if events == [] then t else TracedStep(cfg, TracedRun(cfg, t, events[..|events| - 1]), events[|events| - 1])
  }

  predicate AllTimed(cfg: Config, t: Traced, events: seq<Event>) {
    events == [] ||
    (var r := TracedRun(cfg, t, events[..|events| - 1]);
     var e := events[|events| - 1];
     AllTimed(cfg, t, events[..|events| - 1]) && Enabled(r.s, e) && Timed(r, e))
  }

  lemma {:induction false} TracedRunFaithful(cfg: Config, t: Traced, events: seq<Event>)
    requires Sane(cfg) && Faithful(cfg, t) && AllTimed(cfg, t, events)
    ensures Faithful(cfg, TracedRun(cfg, t, events))
  {
    if events != [] {
      TracedRunFaithful(cfg, t, events[..|events| - 1]);
      TracedStepFaithful(cfg, TracedRun(cfg, t, events[..|events| - 1]), events[|events| - 1]);
    }
  }

  /** The app was parked by policy, or its epoch's exits never used up the budget. */
  ghost predicate Unparked(cfg: Config, t: Traced) {
    t.s.budget.createdIsNull || NeverParked(t.hist, OuterWindow(cfg, false), cfg.maxRestarts)
  }

  lemma StepUnparked(cfg: Config, t: Traced, e: Event)
    requires Sane(cfg) && Faithful(cfg, t) && Enabled(t.s, e) && Timed(t, e) && Unparked(cfg, t)
    ensures Unparked(cfg, TracedStep(cfg, t, e))
  {
    if Judged(cfg, t.s, e) {
      JudgedUnparked(cfg, t, e);
    } else {
      OtherBudget(cfg, t, e);
    }
  }

  lemma JudgedUnparked(cfg: Config, t: Traced, e: Event)
    requires Sane(cfg) && Faithful(cfg, t) && Judged(cfg, t.s, e) && Timed(t, e) && Unparked(cfg, t)
    ensures Unparked(cfg, TracedStep(cfg, t, e))
  {
    JudgedBudget(cfg, t, e);
    NullCreatedNeverCrashes(cfg, t.s, e);
    AccountCounts(cfg, t.s.budget, t.hist, e.now, e.now - t.s.uptime, e.exit.exitCode);
    var b := Account(cfg, t.s.budget, e.now, e.now - t.s.uptime, e.exit.exitCode);
    if !OverBudget(cfg, b) {
      ExtendNeverParked(t.hist, CrashOf(cfg, t, e), OuterWindow(cfg, false), cfg.maxRestarts);
    }
  }

  /**
    Over whole runs the crash density bound applies: until the policy parks the
    app, no prefix of the epoch's exits used up the budget.
   */
  lemma {:induction false} UnparkedHistory(cfg: Config, t: Traced, events: seq<Event>)
    requires Sane(cfg) && Faithful(cfg, t) && Unparked(cfg, t) && AllTimed(cfg, t, events)
    ensures Unparked(cfg, TracedRun(cfg, t, events))
  {
    if events != [] {
      var front := events[..|events| - 1];
      UnparkedHistory(cfg, t, front);
      TracedRunFaithful(cfg, t, front);
      StepUnparked(cfg, TracedRun(cfg, t, front), events[|events| - 1]);
    }
  }

  function Built(now: int, restarts: nat): Traced {
    Traced(Fresh(now, restarts), [], now, now)
  }

  function TakenOver(now: int, startedAt: int): Traced {
    Traced(Adopted(now, startedAt), [], now, startedAt)
  }

  /** A fresh app starts out faithful, with an empty history. */
  lemma FreshFaithful(cfg: Config, now: int, restarts: nat)
    requires Sane(cfg)
    ensures Faithful(cfg, Built(now, restarts)) && Unparked(cfg, Built(now, restarts))
  {
    assert NeverParked([], OuterWindow(cfg, false), cfg.maxRestarts);
  }

  lemma ExtendNeverParked(hist: seq<Crash>, c: Crash, window: int, budget: int)
    requires NeverParked(hist, window, budget)
    requires |hist| + 1 - SeriesStart(hist + [c], window) < budget
    ensures NeverParked(hist + [c], window, budget)
  {
    var all := hist + [c];
    forall n | 0 <= n <= |all|
      ensures n - SeriesStart(all[..n], window) < budget
    {
      if n <= |hist| {
        assert all[..n] == hist[..n];
      } else {
        assert all[..n] == all;
      }
    }
  }

  lemma AdoptedFaithful(cfg: Config, now: int, startedAt: int)
    requires Sane(cfg)
    ensures Faithful(cfg, TakenOver(now, startedAt)) && Unparked(cfg, TakenOver(now, startedAt))
  {
    assert NeverParked([], OuterWindow(cfg, false), cfg.maxRestarts);
  }

  /** An actor as it enters its loop: built, or adopted with its tree running. */
  ghost predicate IsStart(t: Traced) {
    (exists now, n: nat :: t == Built(now, n)) || (exists now, at :: t == TakenOver(now, at))
  }

  lemma StartFaithful(cfg: Config, start: Traced)
    requires Sane(cfg) && IsStart(start)
    ensures Faithful(cfg, start) && Unparked(cfg, start)
  {
    if now, n: nat :| start == Built(now, n) {
      FreshFaithful(cfg, now, n);
    } else {
      var now, at :| start == TakenOver(now, at);
      AdoptedFaithful(cfg, now, at);
    }
  }

  /**
    The crash-loop budget from start-up: after any run, an exit parks the actor
    errored if and only if the last maxRestarts exits of the epoch are unstable,
    fall within one window of the first of them, and that one opened a series.
   */
  lemma ParkedOverRuns(cfg: Config, start: Traced, events: seq<Event>, e: Event)
    requires Sane(cfg) && IsStart(start) && AllTimed(cfg, start, events)
    requires var t := TracedRun(cfg, start, events);
      Timed(t, e) && Judged(cfg, t.s, e)
    ensures var t := TracedRun(cfg, start, events);
      ParksErrored(cfg, t, e) <==> EndsBurst(cfg, t.hist + [CrashOf(cfg, t, e)])
  {
    StartFaithful(cfg, start);
    TracedRunFaithful(cfg, start, events);
    ParkedExactly(cfg, TracedRun(cfg, start, events), e);
  }

  /**
    And how fast an actor can crash without being parked: after any run that has
    not parked it, in an unbroken stretch of unstable exits shorter than the
    window there are at most 2 * (maxRestarts - 1).
   */
  lemma DensityOverRuns(cfg: Config, start: Traced, events: seq<Event>, i: nat, j: nat)
    requires Sane(cfg) && IsStart(start) && AllTimed(cfg, start, events)
    requires var t := TracedRun(cfg, start, events);
      && !t.s.budget.createdIsNull
      && i <= j < |t.hist| && (forall m :: i <= m <= j ==> t.hist[m].unstable)
      && t.hist[j].at - t.hist[i].at < OuterWindow(cfg, false)
    ensures j - i + 1 <= 2 * (cfg.maxRestarts - 1)
  {
    StartFaithful(cfg, start);
    TracedRunFaithful(cfg, start, events);
    UnparkedHistory(cfg, start, events);
    WindowPositive(cfg);
    var t := TracedRun(cfg, start, events);
    CrashDensity(t.hist, OuterWindow(cfg, false), cfg.maxRestarts, i, j);
  }

  // ------------------------------------------------------------ restart delays

  /** Until the policy parks the app, the last delay is the curve's point for the epoch's last exit. */
  predicate OnCurve(cfg: Config, t: Traced) {
    t.s.budget.createdIsNull || t.s.prevBackoff == if t.hist == [] then 0 else Sleep(cfg, |t.hist| - 1)
  }

  lemma StepOnCurve(cfg: Config, t: Traced, e: Event)
    requires cfg.expBackoff > 0 && LoopInv(cfg, t.s) && Enabled(t.s, e) && OnCurve(cfg, t)
    ensures OnCurve(cfg, TracedStep(cfg, t, e))
  {
    if Judged(cfg, t.s, e) {
      BackoffStep(cfg, t, e);
    } else {
      OtherDelay(cfg, t, e);
    }
  }

  lemma OtherDelay(cfg: Config, t: Traced, e: Event)
    requires !Judged(cfg, t.s, e) && LoopInv(cfg, t.s) && Enabled(t.s, e)
    ensures Step(cfg, t.s, e).prevBackoff == if Resets(t.s, e) then 0 else t.s.prevBackoff
    ensures Step(cfg, t.s, e).budget.createdIsNull <==> !Resets(t.s, e) && t.s.budget.createdIsNull
  {
  }

  /** An exit that is not parked waits for the curve's next point. */
  lemma BackoffStep(cfg: Config, t: Traced, e: Event)
    requires cfg.expBackoff > 0 && LoopInv(cfg, t.s) && Judged(cfg, t.s, e) && OnCurve(cfg, t)
    ensures var u, d := Step(cfg, t.s, e), Sleep(cfg, |t.hist|);
      !u.budget.createdIsNull ==>
        u.prevBackoff == d && (d > 0 ==> u.status == Waiting && u.park == Some(d))
  {
    NullCreatedNeverCrashes(cfg, t.s, e);
    JudgedBudget(cfg, t, e);
  }

  lemma {:induction false} RunOnCurve(cfg: Config, t: Traced, events: seq<Event>)
    requires cfg.expBackoff > 0 && LoopInv(cfg, t.s) && OnCurve(cfg, t) && AllTimed(cfg, t, events)
    ensures LoopInv(cfg, TracedRun(cfg, t, events).s) && OnCurve(cfg, TracedRun(cfg, t, events))
  {
    if events != [] {
      var front, e := events[..|events| - 1], events[|events| - 1];
      RunOnCurve(cfg, t, front);
      StepKeepsInv(cfg, TracedRun(cfg, t, front).s, e);
      StepOnCurve(cfg, TracedRun(cfg, t, front), e);
    }
  }

  /**
    Restart delays over whole runs: whatever happened to the app before, the
    exit that is the k-th since the counters were last reset, counting from 0,
    waits for the k-th point of the curve unless the policy parks it.
   */
  lemma BackoffFollowsCurve(cfg: Config, start: Traced, events: seq<Event>, e: Event)
    requires cfg.expBackoff > 0 && IsStart(start)
    requires AllTimed(cfg, start, events)
    requires Judged(cfg, TracedRun(cfg, start, events).s, e)
    ensures var t := TracedRun(cfg, start, events);
      var u, d := Step(cfg, t.s, e), Sleep(cfg, |t.hist|);
      !u.budget.createdIsNull ==>
        u.prevBackoff == d && (d > 0 ==> u.status == Waiting && u.park == Some(d))
  {
    StartOnCurve(cfg, start);
    RunOnCurve(cfg, start, events);
    BackoffStep(cfg, TracedRun(cfg, start, events), e);
  }

  lemma StartOnCurve(cfg: Config, start: Traced)
    requires IsStart(start)
    ensures LoopInv(cfg, start.s) && OnCurve(cfg, start)
  {
    if now, n: nat :| start == Built(now, n) {
      StartStates(cfg, now, 0, n);
    } else {
      var now, at :| start == TakenOver(now, at);
      StartStates(cfg, now, at, 0);
    }
  }

  // ------------------------------------------------------------------ the actor

  class App {
    const cfg: Config
    var status: Status
    var handle: Option<nat>
    var launches: nat
    var restarts: nat
    var budget: Budget
    var uptime: int
    var exitCode: Option<int>
    var exitSig: int
    var prevBackoff: int
    var park: Option<int>
    var readyTimer: Option<nat>
    ghost var leaked: nat

    ghost function View(): State
      reads this
    {
      State(status, handle, launches, restarts, budget, uptime, exitCode, exitSig,
            prevBackoff, park, readyTimer, leaked)
    }

    constructor (cfg: Config, now: int, initialRestarts: nat)
      ensures this.cfg == cfg && View() == Fresh(now, initialRestarts)
    {
      this.cfg := cfg;
      status, handle, launches, restarts := Stopped, None, 0, initialRestarts;
      budget := Budget(0, None, now, false);
      uptime, exitCode, exitSig, prevBackoff := 0, None, 0, 0;
      park, readyTimer, leaked := None, None, 0;
    }

    constructor Adopt(cfg: Config, now: int, startedAt: int)
      ensures this.cfg == cfg && View() == Adopted(now, startedAt)
    {
      this.cfg := cfg;
      status, handle, launches, restarts := Online, Some(1), 1, 0;
      budget := Budget(0, None, now, false);
      uptime, exitCode, exitSig, prevBackoff := startedAt, None, 0, 0;
      park, readyTimer, leaked := None, None, 0;
    }

    method DoResetState(now: int)
      modifies this`budget, this`prevBackoff
      ensures View() == ResetState(old(View()), now)
    {
      budget := budget.(unstable := 0, created := now, createdIsNull := false);
      prevBackoff := 0;
    }

    method DoLaunch(ok: bool, at: int) returns (err: bool)
      modifies this
      ensures View() == Launch(cfg, old(View()), ok, at) && err == !ok
    {
      leaked := if handle.Some? then leaked + 1 else leaked;
      status := Launching;
      if !ok {
        status := Errored;
        handle := None;
        return true;
      }
      launches := launches + 1;
      handle := Some(launches);
      uptime := at;
      exitCode, exitSig := None, 0;
      if cfg.waitReady {
        status := Launching;
        readyTimer := Some(launches);
      } else {
        status := Online;
      }
      return false;
    }

    method DoRelaunch(ok: bool, at: int) returns (err: bool)
      modifies this
      ensures View() == Relaunch(cfg, old(View()), ok, at) && err == !ok
    {
      restarts := restarts + 1;
      err := DoLaunch(ok, at);
    }

    method DoStopTree(ok: bool, x: Option<Exit>) returns (err: bool)
      modifies this
      ensures View() == StopTree(old(View()), ok, x) && err == (old(handle).Some? && !ok)
    {
      if handle.None? {
        status := Stopped;
        return false;
      }
      status := Stopping;
      if !ok {
        status := Errored;
        return true;
      }
      handle := None;
      status := Stopped;
      if x.Some? {
        exitCode := Some(if x.value.signaled then 0 else x.value.exitCode);
        exitSig := if x.value.signaled then x.value.termSig else 0;
      }
      return false;
    }

    method HandleStart(now: int, ok: bool, at: int) returns (err: bool)
      modifies this
      ensures View() == OnStart(cfg, old(View()), now, ok, at)
    {
      park := None;
      match status {
        case Online => err := false;
        case Launching => err := false;
        case Stopping => err := false;
        case Waiting =>
          var _ := DoRelaunch(ok, at);
          err := false;
        case _ =>
          DoResetState(now);
          err := DoLaunch(ok, at);
      }
    }

    method HandleStop(stopOk: bool, x: Option<Exit>) returns (err: bool)
      modifies this
      ensures View() == OnStop(old(View()), stopOk, x)
    {
      park := None;
      err := DoStopTree(stopOk, x);
    }

    method HandleRestart(stopOk: bool, x: Option<Exit>, now: int, ok: bool, at: int) returns (err: bool)
      modifies this
      ensures View() == OnRestart(cfg, old(View()), stopOk, x, now, ok, at)
    {
      park := None;
      err := DoStopTree(stopOk, x);
      if err {
        return;
      }
      DoResetState(now);
      err := DoRelaunch(ok, at);
    }

    method HandleDelete(stopOk: bool, x: Option<Exit>) returns (err: bool)
      modifies this
      ensures View() == OnDelete(old(View()), stopOk, x)
    {
      park := None;
      err := DoStopTree(stopOk, x);
      if err {
        status := Errored;
      } else {
        status := Stopped;
      }
    }

    method HandleReady()
      modifies this
      ensures View() == OnReady(old(View()))
    {
      if status == Launching {
        status := Online;
        readyTimer := None;
      }
    }

    method HandlePark(ok: bool, at: int)
      modifies this
      ensures View() == OnPark(cfg, old(View()), ok, at)
    {
      park := None;
      var _ := DoRelaunch(ok, at);
    }

    /** Stability bookkeeping of one exit; reports whether the budget is used up. */
    method DoAccount(now: int, code: int) returns (over: bool)
      modifies this`budget
      ensures var b := Account(cfg, old(budget), now, now - uptime, code);
        over == OverBudget(cfg, b) && budget == if over then Policy.Park(b) else b
    {
      var ran := now - uptime;
      var window := cfg.minUptime * cfg.maxRestarts;
      if cfg.minUptime >= SECOND && window < 60 * SECOND {
        window := 60 * SECOND;
      }
      if budget.createdIsNull {
        window := 0;
      }
      var isUnstable := ran < cfg.minUptime;
      if cfg.minUptime >= SECOND && code != 0 && ran < 5 * SECOND {
        isUnstable := true;
      }
      if isUnstable {
        if budget.unstable == 0 || budget.series.None? {
          budget := budget.(series := Some(now));
        }
        var ref := budget.created;
        if budget.series.value > ref {
          ref := budget.series.value;
        }
        if window > 0 && now - ref < window {
          budget := budget.(unstable := budget.unstable + 1);
        } else {
          budget := budget.(series := Some(now), unstable := 1);
        }
      } else if ran >= cfg.minUptime {
        budget := budget.(unstable := 0, series := None);
      }
      over := budget.unstable >= cfg.maxRestarts;
      if over {
        budget := budget.(unstable := 0, createdIsNull := true, series := None);
      }
    }

    /** Whether the app asked to stay down by the code it exited with. */
    method IsStopExit(x: Exit) returns (stopExit: bool)
      ensures stopExit <==> !x.signaled && x.exitCode in cfg.stopExitCodes
    {
      stopExit := false;
      for i := 0 to |cfg.stopExitCodes|
        invariant stopExit == (!x.signaled && x.exitCode in cfg.stopExitCodes[..i])
      {
        if !x.signaled && x.exitCode == cfg.stopExitCodes[i] {
          stopExit := true;
        }
        assert cfg.stopExitCodes[..i + 1] == cfg.stopExitCodes[..i] + [cfg.stopExitCodes[i]];
      }
      assert cfg.stopExitCodes[..|cfg.stopExitCodes|] == cfg.stopExitCodes;
    }

    method HandleExit(x: Exit, now: int, cleanupOk: bool, ok: bool, at: int)
      modifies this
      ensures View() == OnExit(cfg, old(View()), x, now, cleanupOk, ok, at)
    {
      if handle.None? {
        return;
      }
      if status != Launching && status != Online {
        return;
      }
      status := Stopping;
      readyTimer := None;
      if cleanupOk {
        handle := None;
      }
      exitCode := Some(if x.signaled then 0 else x.exitCode);
      exitSig := if x.signaled then x.termSig else 0;
      if !cleanupOk {
        status := Errored;
        return;
      }
      var stopExit := IsStopExit(x);
      if !cfg.autorestart || stopExit {
        status := Stopped;
        return;
      }
      DoDecide(x, now, ok, at);
    }

    /** What becomes of an app whose exit was not intended: parked, waiting, or launched again. */
    method DoDecide(x: Exit, now: int, ok: bool, at: int)
      modifies this
      ensures View() == Decide(cfg, old(View()), x, now, ok, at)
    {
      var over := DoAccount(now, x.exitCode);
      if over {
        status := Errored;
        return;
      }
      var d := NextRestartDelay(cfg, prevBackoff);
      if d.isBackoff {
        prevBackoff := d.sleep;
      }
      if d.sleep > 0 {
        status := Waiting;
        park := Some(d.sleep);
        return;
      }
      var _ := DoRelaunch(ok, at);
    }
  }
}
