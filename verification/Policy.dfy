/**
  The restart policy of one app: the crash-loop budget over a window that starts
  anew with each series of crashes, and the delay before the next relaunch.
  Durations and instants are integers (nanoseconds).
 */
module Policy {
  import opened Common

  const SECOND: int := 1_000_000_000

  datatype Config = Config(
    waitReady: bool,
    autorestart: bool,
    stopExitCodes: seq<int>,
    minUptime: int,
    maxRestarts: int,
    restartDelay: int,
    expBackoff: int,
    expCap: int)

  /** The crash-loop counters of an app. */
  datatype Budget = Budget(unstable: int, series: Option<int>, created: int, createdIsNull: bool)

  function OuterWindow(cfg: Config, createdIsNull: bool): int {
    var base := cfg.minUptime * cfg.maxRestarts;
    if createdIsNull then 0
    else if cfg.minUptime >= SECOND && base < 60 * SECOND then 60 * SECOND
    else base
  }

  predicate IsUnstable(cfg: Config, ran: int, exitCode: int) {
    ran < cfg.minUptime || (cfg.minUptime >= SECOND && exitCode != 0 && ran < 5 * SECOND)
  }

  /** The counters after one exit, before the budget is looked at. */
  function Account(cfg: Config, b: Budget, now: int, ran: int, exitCode: int): Budget {
    if IsUnstable(cfg, ran, exitCode) then CountUnstable(b, OuterWindow(cfg, b.createdIsNull), now)
    else if ran >= cfg.minUptime then b.(unstable := 0, series := None)
    else b
  }

  /** An unstable exit joins the series it falls in, or begins the next one. */
  function CountUnstable(b: Budget, window: int, now: int): Budget {
    var series := if b.unstable == 0 || b.series.None? then now else b.series.value;
    var ref := if series > b.created then series else b.created;
    if window > 0 && now - ref < window then b.(unstable := b.unstable + 1, series := Some(series))
    else b.(unstable := 1, series := Some(now))
  }

  /**
    A run is too short below min_uptime, or below five seconds if that is more,
    it failed, and min_uptime is at least a second.
   */
  lemma UnstableIff(cfg: Config, ran: int, exitCode: int)
    ensures IsUnstable(cfg, ran, exitCode) <==>
      ran < if 1_000_000_000 <= cfg.minUptime < 5_000_000_000 && exitCode != 0 then 5_000_000_000 else cfg.minUptime
  {
  }

  /** The window is min_uptime for each restart allowed, and a minute at least if min_uptime is a second or more. */
  lemma WindowIs(cfg: Config)
    ensures var w, base := OuterWindow(cfg, false), cfg.minUptime * cfg.maxRestarts;
      && (w == base || (w == 60_000_000_000 && base < w))
      && (w >= 60_000_000_000 <==> cfg.minUptime >= 1_000_000_000 || base >= 60_000_000_000)
  {
  }

  predicate OverBudget(cfg: Config, b: Budget) {
    b.unstable >= cfg.maxRestarts
  }

  /** Parking errored clears the counter and nulls created_at. */
  function Park(b: Budget): Budget {
    b.(unstable := 0, createdIsNull := true, series := None)
  }

  /** A manual start or restart opens a fresh crash epoch; the series is left to expire. */
  function ResetBudget(b: Budget, now: int): Budget {
    b.(unstable := 0, created := now, createdIsNull := false)
  }

  // -------------------------------------------------- crash-loop detection

  /** One exit the policy looked at. */
  datatype Crash = Crash(at: int, unstable: bool)

  predicate Sane(cfg: Config) {
    cfg.minUptime > 0 && cfg.maxRestarts >= 1
  }

  lemma WindowPositive(cfg: Config)
    requires Sane(cfg)
    ensures OuterWindow(cfg, false) > 0
  {
    var n := cfg.maxRestarts;
    assert cfg.minUptime * n >= 1 by {
      assert cfg.minUptime * n == cfg.minUptime * (n - 1) + cfg.minUptime;
      assert cfg.minUptime * (n - 1) >= 0;
    }
  }

  /**
    Where the current series of crashes begins: |hist| when the last exit was
    stable; else the exits since that point are unstable and within one window
    of the first of them.
   */
  function SeriesStart(hist: seq<Crash>, window: int): (k: nat)
    ensures k <= |hist|
  {
    if hist == [] then 0
    else
      var n := |hist| - 1;
      var k := SeriesStart(hist[..n], window);
      if !hist[n].unstable then |hist|
      else if k < n && hist[n].at - hist[k].at < window then k
      else n
  }

  predicate Ordered(hist: seq<Crash>) {
    forall i, j :: 0 <= i < j < |hist| ==> hist[i].at <= hist[j].at
  }

  /** The k-th exit opened a series. */
  predicate Opens(hist: seq<Crash>, k: nat, window: int)
    requires k < |hist|
  {
    hist[k].unstable && SeriesStart(hist[..k + 1], window) == k
  }

  /** All exits from k on are unstable and fall within one window of the k-th. */
  predicate OneBurst(hist: seq<Crash>, k: nat, window: int)
    requires k < |hist|
  {
    (forall i :: k <= i < |hist| ==> hist[i].unstable) && hist[|hist| - 1].at - hist[k].at < window
  }

  /** What the series start means. */
  lemma {:induction false} SeriesMeaning(hist: seq<Crash>, window: int)
    requires window > 0 && Ordered(hist)
    ensures var k := SeriesStart(hist, window);
      k < |hist| ==> OneBurst(hist, k, window) && Opens(hist, k, window)
  {
    if hist != [] {
      var n := |hist| - 1;
      SeriesMeaning(hist[..n], window);
      var k := SeriesStart(hist, window);
      if k < n {
        assert hist[..n][..k + 1] == hist[..k + 1];
      } else if k == n {
        assert hist[..n + 1] == hist;
      }
    }
  }

  /** And nothing else is one: a burst from an opening exit is the current series. */
  lemma {:induction false} BurstIsSeries(hist: seq<Crash>, k: nat, window: int)
    requires window > 0 && Ordered(hist) && k < |hist|
    requires Opens(hist, k, window) && OneBurst(hist, k, window)
    ensures SeriesStart(hist, window) == k
  {
    var n := |hist| - 1;
    if k == n {
      assert hist[..k + 1] == hist;
    } else {
      var front := hist[..n];
      assert front[..k + 1] == hist[..k + 1];
      assert forall i :: k <= i < |front| ==> front[i] == hist[i];
      assert front[|front| - 1] == hist[n - 1];
      BurstIsSeries(front, k, window);
    }
  }

  /** The counters say how long the current series is and when it began. */
  ghost predicate CountsIn(b: Budget, hist: seq<Crash>, window: int) {
    var k := SeriesStart(hist, window);
    && Ordered(hist)
    && !b.createdIsNull
    && b.unstable == |hist| - k
    && (k < |hist| ==> b.series == Some(hist[k].at))
    && (forall i :: 0 <= i < |hist| ==> b.created <= hist[i].at)
  }

  ghost predicate Counts(cfg: Config, b: Budget, hist: seq<Crash>) {
    CountsIn(b, hist, OuterWindow(cfg, false))
  }

  lemma OrderedAppend(hist: seq<Crash>, c: Crash)
    requires Ordered(hist) && forall i :: 0 <= i < |hist| ==> hist[i].at <= c.at
    ensures Ordered(hist + [c])
  {
  }

  lemma SeriesAppend(hist: seq<Crash>, c: Crash, window: int)
    ensures var k := SeriesStart(hist, window);
      SeriesStart(hist + [c], window) ==
        if !c.unstable then |hist| + 1
        else if k < |hist| && c.at - hist[k].at < window then k
        else |hist|
  {
    assert (hist + [c])[..|hist|] == hist;
  }

  lemma CountUnstableIs(b: Budget, hist: seq<Crash>, window: int, now: int)
    requires window > 0 && CountsIn(b, hist, window) && b.created <= now
    ensures var k := SeriesStart(hist, window);
      CountUnstable(b, window, now) ==
        if k < |hist| && now - hist[k].at < window then b.(unstable := |hist| - k + 1, series := Some(hist[k].at))
        else b.(unstable := 1, series := Some(now))
  {
  }

  lemma UnstableCounts(b: Budget, hist: seq<Crash>, window: int, now: int)
    requires window > 0 && CountsIn(b, hist, window)
    requires b.created <= now && forall i :: 0 <= i < |hist| ==> hist[i].at <= now
    ensures CountsIn(CountUnstable(b, window, now), hist + [Crash(now, true)], window)
  {
    OrderedAppend(hist, Crash(now, true));
    SeriesAppend(hist, Crash(now, true), window);
    CountUnstableIs(b, hist, window, now);
  }

  lemma StableCounts(b: Budget, hist: seq<Crash>, window: int, now: int)
    requires CountsIn(b, hist, window)
    requires b.created <= now && forall i :: 0 <= i < |hist| ==> hist[i].at <= now
    ensures CountsIn(b.(unstable := 0, series := None), hist + [Crash(now, false)], window)
  {
    OrderedAppend(hist, Crash(now, false));
    SeriesAppend(hist, Crash(now, false), window);
    CreatedBefore(hist, Crash(now, false), b.created);
  }

  lemma CreatedBefore(hist: seq<Crash>, c: Crash, created: int)
    requires created <= c.at && forall i :: 0 <= i < |hist| ==> created <= hist[i].at
    ensures forall i :: 0 <= i < |hist + [c]| ==> created <= (hist + [c])[i].at
  {
  }

  /** One exit keeps the counters true. */
  lemma AccountCounts(cfg: Config, b: Budget, hist: seq<Crash>, now: int, ran: int, exitCode: int)
    requires Sane(cfg) && Counts(cfg, b, hist)
    requires b.created <= now && forall i :: 0 <= i < |hist| ==> hist[i].at <= now
    ensures Counts(cfg, Account(cfg, b, now, ran, exitCode), hist + [Crash(now, IsUnstable(cfg, ran, exitCode))])
  {
    WindowPositive(cfg);
    var window := OuterWindow(cfg, false);
    if IsUnstable(cfg, ran, exitCode) {
      UnstableCounts(b, hist, window, now);
    } else {
      StableCounts(b, hist, window, now);
    }
  }

  /**
    The crash-loop budget, exactly: an exit puts the app over budget if and only
    if the last maxRestarts exits are unstable, fall within one window of the
    first of them, and that one opened a series.
   */
  lemma OverBudgetExactly(cfg: Config, b: Budget, hist: seq<Crash>, now: int, ran: int, exitCode: int)
    requires Sane(cfg) && Counts(cfg, b, hist) && b.unstable < cfg.maxRestarts
    requires b.created <= now && forall i :: 0 <= i < |hist| ==> hist[i].at <= now
    ensures var all := hist + [Crash(now, IsUnstable(cfg, ran, exitCode))];
      var k := |all| - cfg.maxRestarts;
      var window := OuterWindow(cfg, false);
      OverBudget(cfg, Account(cfg, b, now, ran, exitCode)) <==>
        k >= 0 && OneBurst(all, k, window) && Opens(all, k, window)
  {
    var all := hist + [Crash(now, IsUnstable(cfg, ran, exitCode))];
    var window := OuterWindow(cfg, false);
    AccountCounts(cfg, b, hist, now, ran, exitCode);
    WindowPositive(cfg);
    AtMostOneMore(cfg, b, now, ran, exitCode);
    SpentIsBurst(Account(cfg, b, now, ran, exitCode), all, window, cfg.maxRestarts);
  }

  lemma AtMostOneMore(cfg: Config, b: Budget, now: int, ran: int, exitCode: int)
    requires 0 <= b.unstable < cfg.maxRestarts
    ensures Account(cfg, b, now, ran, exitCode).unstable <= cfg.maxRestarts
  {
  }

  lemma SpentIsBurst(b: Budget, all: seq<Crash>, window: int, budget: int)
    requires window > 0 && CountsIn(b, all, window) && b.unstable <= budget && budget >= 1
    ensures var k := |all| - budget;
      b.unstable >= budget <==> k >= 0 && OneBurst(all, k, window) && Opens(all, k, window)
  {
    var k := |all| - budget;
    SeriesMeaning(all, window);
    if k >= 0 && OneBurst(all, k, window) && Opens(all, k, window) {
      BurstIsSeries(all, k, window);
    }
  }

  /** No exit of the history was the one that used up the budget. */
  ghost predicate NeverParked(hist: seq<Crash>, window: int, budget: int) {
    forall n :: 0 <= n <= |hist| ==> n - SeriesStart(hist[..n], window) < budget
  }

  /**
    How fast an app may crash without being parked: in an unbroken run of
    unstable exits, any stretch shorter than the window holds at most
    2 * (maxRestarts - 1) of them.
   */
  lemma CrashDensity(hist: seq<Crash>, window: int, budget: int, i: nat, j: nat)
    requires window > 0 && Ordered(hist) && NeverParked(hist, window, budget)
    requires i <= j < |hist| && forall m :: i <= m <= j ==> hist[m].unstable
    requires hist[j].at - hist[i].at < window
    ensures j - i + 1 <= 2 * (budget - 1)
  {
    var start := SeriesStart(hist[..j + 1], window);
    assert j + 1 - start < budget;
    SeriesUpTo(hist, j, window);
    if i < start {
      var before := SeriesStart(hist[..start], window);
      SeriesUpTo(hist, start - 1, window);
      SeriesBroken(hist, start, window);
      assert start - before < budget;
      assert before <= i;
    }
  }

  /** The series current at an unstable exit began at or before it. */
  lemma SeriesUpTo(hist: seq<Crash>, j: nat, window: int)
    requires window > 0 && Ordered(hist) && j < |hist| && hist[j].unstable
    ensures var start := SeriesStart(hist[..j + 1], window);
      start <= j && Opens(hist, start, window)
  {
    var upTo := hist[..j + 1];
    LastUnstable(upTo, window);
    SeriesMeaning(upTo, window);
    var start := SeriesStart(upTo, window);
    assert upTo[..start + 1] == hist[..start + 1];
  }

  /** A series opens only a whole window after the start of the one before. */
  lemma SeriesBroken(hist: seq<Crash>, start: nat, window: int)
    requires 0 < start < |hist| && Opens(hist, start, window) && hist[start - 1].unstable
    ensures var before := SeriesStart(hist[..start], window);
      before < start && hist[start].at - hist[before].at >= window
  {
    assert hist[..start + 1][..start] == hist[..start];
    LastUnstable(hist[..start], window);
  }

  lemma LastUnstable(hist: seq<Crash>, window: int)
    requires hist != [] && hist[|hist| - 1].unstable
    ensures SeriesStart(hist, window) < |hist|
  {
  }

  // ------------------------------------------------------------ the delay

  datatype Delay = Delay(sleep: int, isBackoff: bool)

  function NextRestartDelay(cfg: Config, prev: int): Delay {
    if cfg.expBackoff > 0 then
      if prev <= 0 then Delay(cfg.expBackoff, true)
      else
        var next := prev * 3 / 2;
        Delay(if next > cfg.expCap then cfg.expCap else next, true)
    else Delay(cfg.restartDelay, false)
  }

  /** The k-th backoff sleep since the last reset. */
  function Sleep(cfg: Config, k: nat): int {
    if k == 0 then NextRestartDelay(cfg, 0).sleep
    else NextRestartDelay(cfg, Sleep(cfg, k - 1)).sleep
  }

  function Pow(b: nat, k: nat): nat {
    if k == 0 then 1 else b * Pow(b, k - 1)
  }

  /** A positive sleep is followed by a longer one if and only if it is at least 2 and below the cap. */
  lemma GrowsIff(cfg: Config, prev: int)
    requires cfg.expBackoff > 0 && prev > 0
    ensures NextRestartDelay(cfg, prev).sleep > prev <==> 2 <= prev < cfg.expCap
  {
  }

  /** The curve from a base of at least 2 up to the cap: at the cap for good, or strictly rising towards it. */
  lemma {:induction false} SleepCurve(cfg: Config, k: nat)
    requires 2 <= cfg.expBackoff <= cfg.expCap
    ensures 2 <= Sleep(cfg, k) <= cfg.expCap
    ensures Sleep(cfg, k) < cfg.expCap ==> Sleep(cfg, k + 1) > Sleep(cfg, k)
    ensures Sleep(cfg, k) == cfg.expCap ==> Sleep(cfg, k + 1) == cfg.expCap
  {
    if k > 0 {
      SleepCurve(cfg, k - 1);
    }
  }

  /** From the other bases: 1 never grows, and one above the cap is used once and then cut to the cap. */
  lemma {:induction false} SleepOtherwise(cfg: Config, k: nat)
    requires cfg.expBackoff > 0 && cfg.expCap > 0
    ensures cfg.expBackoff == 1 ==> Sleep(cfg, k) == 1
    ensures cfg.expBackoff > cfg.expCap ==> Sleep(cfg, k) == if k == 0 then cfg.expBackoff else cfg.expCap
  {
    if k > 0 {
      SleepOtherwise(cfg, k - 1);
    }
  }

  /**
    Each sleep is the one before and half of it again, rounded down, or the cap
    if that is less; the first is the base.
   */
  lemma HalfAgain(cfg: Config, k: nat)
    requires cfg.expBackoff > 0 && Sleep(cfg, k) > 0
    ensures Sleep(cfg, 0) == cfg.expBackoff
    ensures var d, e := Sleep(cfg, k), Sleep(cfg, k + 1);
      e <= cfg.expCap && (e < cfg.expCap ==> 2 * e <= 3 * d < 2 * e + 2) && 2 * e <= 3 * d
  {
  }

  /**
    Despite the rounding down, each sleep below the cap is at least 4/3 of the
    one before, so the number of crashes until the cap is logarithmic in cap / base.
   */
  lemma {:induction false} SleepGrowth(cfg: Config, k: nat)
    requires 2 <= cfg.expBackoff <= cfg.expCap && Sleep(cfg, k) < cfg.expCap
    ensures Pow(3, k) * Sleep(cfg, k) >= Pow(4, k) * cfg.expBackoff
    ensures Pow(4, k) * cfg.expBackoff < Pow(3, k) * cfg.expCap
  {
    if k > 0 {
      SleepCurve(cfg, k - 1);
      SleepGrowth(cfg, k - 1);
      GrowthStep(Pow(3, k - 1), Pow(4, k - 1), Sleep(cfg, k - 1), Sleep(cfg, k), cfg.expBackoff);
    }
    PowPositive(3, k);
    ScaleStrict(Pow(3, k), cfg.expCap, Sleep(cfg, k));
  }

  lemma GrowthStep(p: nat, q: nat, d: int, e: int, base: int)
    requires p * d >= q * base && 3 * e >= 4 * d
    ensures (3 * p) * e >= (4 * q) * base
  {
    Scale(p, 3 * e, 4 * d);
    assert p * (3 * e) == (3 * p) * e;
    assert p * (4 * d) == 4 * (p * d);
    assert (4 * q) * base == 4 * (q * base);
  }

  lemma {:induction false} PowPositive(b: nat, k: nat)
    requires b > 0
    ensures Pow(b, k) > 0
  {
    if k > 0 {
      PowPositive(b, k - 1);
      ScaleStrict(Pow(b, k - 1), b, 0);
    }
  }

  lemma Scale(p: nat, x: int, y: int)
    requires x >= y
    ensures p * x >= p * y
  {
    assert p * (x - y) == p * x - p * y;
  }

  lemma ScaleStrict(p: nat, x: int, y: int)
    requires p > 0 && x > y
    ensures p * x > p * y
  {
    assert p * (x - y) == p * x - p * y;
  }
}
