/** When eviction is lossless, exactly: the runs that show it where it is not. */
module Eviction {
  import opened GoTime
  import opened RateLimit

  // -- pieces of runs -----------------------------------------------------------

  lemma {:induction false} RunAppend(l: Limits, m: Buckets, xs: seq<Call>, ys: seq<Call>)
    requires l.rate > 0.0
    ensures var (ds, m') := Run(l, m, xs, true);
            var (es, m'') := Run(l, m', ys, true);
            Run(l, m, xs + ys, true) == (ds + es, m'') && |ds| == |xs|
    decreases xs
  {
    hide TakeSwept;
    if xs == [] {
      assert xs + ys == ys;
      var es := Run(l, m, ys, true).0;
      assert [] + es == es;
    } else {
      assert (xs + ys)[1..] == xs[1..] + ys;
      var (d, m1) := TakeSwept(l, m, xs[0].key, xs[0].now);
      RunAppend(l, m1, xs[1..], ys);
      var (ds, m') := Run(l, m1, xs[1..], true);
      assert [d] + (ds + Run(l, m', ys, true).0) == [d] + ds + Run(l, m', ys, true).0;
    }
  }

  lemma {:induction false} AllowedAppend(xs: seq<Call>, ds: seq<Decision>, ys: seq<Call>, es: seq<Decision>, key: string)
    requires |xs| == |ds| && |ys| == |es|
    ensures Allowed(xs + ys, ds + es, key) == Allowed(xs, ds, key) + Allowed(ys, es, key)
    decreases xs
  {
    if xs == [] {
      assert xs + ys == ys && ds + es == es;
    } else {
      assert (xs + ys)[1..] == xs[1..] + ys && (ds + es)[1..] == ds[1..] + es;
      AllowedAppend(xs[1..], ds[1..], ys, es, key);
    }
  }

  /** `n` takes of one key at one instant. */
  function Repeat(key: string, now: int, n: nat): seq<Call> {
    if n == 0 then [] else [Call(key, now)] + Repeat(key, now, n - 1)
  }

  ghost predicate NoneIdle(l: Limits, m: Buckets, now: int) { forall k :: k in m ==> !Idle(l, m[k], now) }

  lemma SweepKeepsAll(l: Limits, m: Buckets, now: int)
    requires NoneIdle(l, m, now)
    ensures Swept(l, m, now) == m
  {
  }

  lemma TakeNow(l: Limits, b: Bucket, now: int)
    requires l.rate > 0.0 && b.last == now && 1.0 <= b.tokens <= l.burst as real
    ensures TakeBucket(l, b, now).0.allowed && TakeBucket(l, b, now).1 == Bucket(b.tokens - 1.0, now)
  {
    hide Mint, RetryAfter;
    MintMonotone(l, 0, 0);
  }

  /** One call, then the rest. */
  lemma RunStep(l: Limits, m: Buckets, c: Call, rest: seq<Call>, key: string)
    requires l.rate > 0.0
    ensures var (d, m1) := TakeSwept(l, m, c.key, c.now);
            var (ds, m2) := Run(l, m1, rest, true);
            && Run(l, m, [c] + rest, true) == ([d] + ds, m2)
            && (|ds| == |rest| ==>
                  Allowed([c] + rest, [d] + ds, key)
                  == (if c.key == key && d.allowed then 1 else 0) + Allowed(rest, ds, key))
  {
    hide TakeSwept;
    assert ([c] + rest)[1..] == rest;
    var d, ds := TakeSwept(l, m, c.key, c.now).0, Run(l, TakeSwept(l, m, c.key, c.now).1, rest, true).0;
    assert ([d] + ds)[1..] == ds;
  }

  /** A bucket that holds them allows that many takes at its own instant. */
  lemma {:induction false} Drain(l: Limits, m: Buckets, key: string, now: int, n: nat)
    requires l.rate > 0.0 && l.idleTTL >= 0 && NoneIdle(l, m, now)
    requires key in m && m[key].last == now && n as real <= m[key].tokens <= l.burst as real
    ensures var (ds, m') := Run(l, m, Repeat(key, now, n), true);
            && |ds| == |Repeat(key, now, n)| == n && Allowed(Repeat(key, now, n), ds, key) == n
            && m' == m[key := Bucket(m[key].tokens - n as real, now)]
    decreases n
  {
    hide TakeBucket, Swept, Run, Allowed;
    if n > 0 {
      SweepKeepsAll(l, m, now);
      TakeNow(l, m[key], now);
      var m1 := m[key := Bucket(m[key].tokens - 1.0, now)];
      Drain(l, m1, key, now, n - 1);
      RunStep(l, m, Call(key, now), Repeat(key, now, n - 1), key);
    } else {
      NoCalls(l, m, key);
      assert m == m[key := Bucket(m[key].tokens - n as real, now)];
    }
  }

  lemma NoCalls(l: Limits, m: Buckets, key: string)
    requires l.rate > 0.0
    ensures Run(l, m, [], true) == ([], m) && Allowed([], [], key) == 0
  {
  }

  /** A key not held starts full: its first take and `n - 1` more are allowed. */
  lemma DrainFresh(l: Limits, m: Buckets, kept: Buckets, key: string, now: int, n: nat)
    requires l.burst >= 1 && l.rate > 0.0 && l.idleTTL >= 0 && 1 <= n <= l.burst
    requires kept == (if |m| >= SWEEP_THRESHOLD then Swept(l, m, now) else m) && key !in kept && NoneIdle(l, kept, now)
    ensures var (ds, m') := Run(l, m, Repeat(key, now, n), true);
            && |ds| == |Repeat(key, now, n)| == n && Allowed(Repeat(key, now, n), ds, key) == n
            && m' == kept[key := Bucket(l.burst as real - n as real, now)]
  {
    hide TakeBucket, Swept, Run, Allowed;
    var m1 := kept[key := Bucket(l.burst as real - 1.0, now)];
    Drain(l, m1, key, now, n - 1);
    RunStep(l, m, Call(key, now), Repeat(key, now, n - 1), key);
  }

  // -- filling the store up to the sweep threshold ------------------------------

  /** Distinct keys: runs of 'k' of different lengths. */
  function Name(i: nat): string { seq(i + 1, _ => 'k') }

  const CROWD := SWEEP_THRESHOLD - 1

  function Crowd(i: nat, now: int): seq<Call>
    decreases CROWD - i
  {
    if i >= CROWD then [] else [Call(Name(i), now)] + Crowd(i + 1, now)
  }

  /** The store holds "a" and the first `i` of the crowd, who all came at `now`. */
  ghost predicate Crowded(m: Buckets, b: Bucket, i: nat, now: int) {
    && |m| == i + 1 && "a" in m && m["a"] == b
    && (forall k :: k in m && k != "a" ==> |k| <= i && m[k].last == now)
  }

  lemma {:induction false} CrowdArrives(l: Limits, m: Buckets, b: Bucket, i: nat, now: int)
    requires l.burst >= 1 && l.rate > 0.0 && i <= CROWD && Crowded(m, b, i, now)
    ensures var (ds, m') := Run(l, m, Crowd(i, now), true);
            && |ds| == |Crowd(i, now)| && Allowed(Crowd(i, now), ds, "a") == 0 && Crowded(m', b, CROWD, now)
    decreases CROWD - i
  {
    if i < CROWD {
      var m1 := OneMore(l, m, b, i, now);
      hide Crowded, TakeSwept, Run, Allowed;
      CrowdArrives(l, m1, b, i + 1, now);
      RunStep(l, m, Call(Name(i), now), Crowd(i + 1, now), "a");
    }
  }

  lemma OneMore(l: Limits, m: Buckets, b: Bucket, i: nat, now: int) returns (m1: Buckets)
    requires l.rate > 0.0 && i < CROWD && Crowded(m, b, i, now)
    ensures Name(i) != "a" && TakeSwept(l, m, Name(i), now).1 == m1 && Crowded(m1, b, i + 1, now)
  {
    hide TakeBucket;
    var name := Name(i);
    assert name[0] == 'k' && |name| == i + 1;
    assert name !in m;
    m1 := m[name := FirstSight(l, now).1];
    assert m1.Keys == m.Keys + {name};
  }

  // -- the run that spends more than the budget ---------------------------------

  const PAST := MIN_IDLE_TTL + 1

  /** Spend the whole burst, let a crowd in two minutes later, and spend on. */
  function Overspend(config: Config): seq<Call>
    requires config.Enabled()
  {
    Repeat("a", 0, LimitsOf(config).burst) + (Crowd(0, PAST) + Repeat("a", PAST, 3 * config.requestsPerMinute))
  }

  lemma {:induction false} RepeatIs(key: string, now: int, n: nat)
    ensures |Repeat(key, now, n)| == n && forall i :: 0 <= i < n ==> Repeat(key, now, n)[i] == Call(key, now)
  {
    if n > 0 {
      RepeatIs(key, now, n - 1);
    }
  }

  lemma {:induction false} CrowdIs(i: nat, now: int)
    ensures forall k :: 0 <= k < |Crowd(i, now)| ==> Crowd(i, now)[k].now == now
    decreases CROWD - i
  {
    if i < CROWD {
      CrowdIs(i + 1, now);
    }
  }

  lemma OverspendIsOrdered(config: Config)
    requires config.Enabled()
    ensures NonDecreasing(Overspend(config))
    ensures forall i :: 0 <= i < |Overspend(config)| ==> Overspend(config)[i].now <= PAST
    ensures Overspend(config) != [] && Overspend(config)[0] == Call("a", 0)
  {
    hide LimitsOf, Repeat, Crowd;
    RepeatIs("a", 0, LimitsOf(config).burst);
    CrowdIs(0, PAST);
    RepeatIs("a", PAST, 3 * config.requestsPerMinute);
  }

  /** A window that does not fit is far longer than two minutes: the burst dwarfs the rate. */
  lemma UnfitBurstIsLarge(config: Config)
    requires config.Enabled() && !Fits(config)
    ensures 3 * config.requestsPerMinute <= config.Normalized().burst
  {
    hide RefillToFull;
    var q, rpm, burst := RefillToFull(config), config.requestsPerMinute, config.Normalized().burst;
    WindowBounds(config);
    Scale(3 * MINUTE, q, rpm);
    assert 3 * MINUTE * rpm == 3 * rpm * MINUTE;
  }

  lemma OverspendIsAllowed(config: Config)
    requires config.Enabled() && !Fits(config)
    ensures var l, calls := LimitsOf(config), Overspend(config);
            var ds := Run(l, map[], calls, true).0;
            |ds| == |calls| && Allowed(calls, ds, "a") == l.burst + 3 * config.requestsPerMinute
  {
    hide Run, Allowed, Repeat, Crowd, IdleTTL, RefillToFull, Fits;
    var l, rpm := LimitsOf(config), config.requestsPerMinute;
    TtlIs(config, MIN_DURATION);
    UnfitBurstIsLarge(config);
    var first, crowd, second := Repeat("a", 0, l.burst), Crowd(0, PAST), Repeat("a", PAST, 3 * rpm);
    DrainFresh(l, map[], map[], "a", 0, l.burst);
    var (ds1, m1) := Run(l, map[], first, true);
    CrowdArrives(l, m1, m1["a"], 0, PAST);
    var (ds2, m2) := Run(l, m1, crowd, true);
    var kept := AwayIsSwept(l, m2, m1["a"]);
    DrainFresh(l, m2, kept, "a", PAST, 3 * rpm);
    var (ds3, m3) := Run(l, m2, second, true);
    RunAppend(l, m1, crowd, second);
    RunAppend(l, map[], first, crowd + second);
    AllowedAppend(crowd, ds2, second, ds3, "a");
    AllowedAppend(first, ds1, crowd + second, ds2 + ds3, "a");
  }

  /** With the store at its threshold, the bucket that was away is swept and the crowd stays. */
  lemma AwayIsSwept(l: Limits, m: Buckets, b: Bucket) returns (kept: Buckets)
    requires Crowded(m, b, CROWD, PAST) && b.last == 0 && l.idleTTL == MIN_IDLE_TTL
    ensures |m| >= SWEEP_THRESHOLD && kept == Swept(l, m, PAST) && "a" !in kept && NoneIdle(l, kept, PAST)
  {
    kept := Swept(l, m, PAST);
  }

  lemma PastMintsLittle(config: Config)
    requires config.Enabled()
    ensures Mint(LimitsOf(config), PAST) < (3 * config.requestsPerMinute) as real
  {
    hide Mint, LimitsOf;
    var rpm := config.requestsPerMinute;
    MintIs(config, PAST);
    Scale(PAST, 3 * MINUTE - 1, rpm);
    assert (3 * MINUTE - 1) * rpm < 3 * rpm * MINUTE;
    assert (3 * rpm * MINUTE) as real == (3 * rpm) as real * MINUTE as real;
    if Mint(LimitsOf(config), PAST) >= (3 * rpm) as real {
      MulLe((3 * rpm) as real, Mint(LimitsOf(config), PAST), MINUTE as real);
    }
  }

  lemma InstantsBegin(calls: seq<Call>, key: string)
    requires calls != [] && calls[0].key == key
    ensures Instants(calls, key) != [] && Instants(calls, key)[0] == calls[0].now
  {
  }

  lemma {:induction false} InstantsAmong(calls: seq<Call>, key: string, hi: int)
    requires forall i :: 0 <= i < |calls| ==> calls[i].now <= hi
    ensures forall i :: 0 <= i < |Instants(calls, key)| ==> Instants(calls, key)[i] <= hi
    decreases calls
  {
    if calls != [] {
      InstantsAmong(calls[1..], key, hi);
    }
  }

  /** Where the window does not fit, that run is allowed more than the window's budget. */
  lemma OverspendBreaksTheBudget(config: Config)
    requires config.Enabled() && !Fits(config)
    ensures var l, calls := LimitsOf(config), Overspend(config);
            var ds, at := Run(l, map[], calls, true).0, Instants(calls, "a");
            && NonDecreasing(calls) && |ds| == |calls| && at != []
            && Allowed(calls, ds, "a") as real > WindowBudget(l, at)
  {
    hide Run, Allowed, Overspend, Mint, Instants, LimitsOf;
    var l, calls := LimitsOf(config), Overspend(config);
    OverspendIsOrdered(config);
    OverspendIsAllowed(config);
    InstantsBegin(calls, "a");
    InstantsAmong(calls, "a", PAST);
    var at := Instants(calls, "a");
    MintMonotone(l, Latest(at, at[0]) - at[0], PAST);
    PastMintsLittle(config);
  }

  // -- the exact condition ------------------------------------------------------

  /** On clocks that never step back, eviction changes no decision of any run if and only if the window fits. */
  lemma EvictionInvisibleExactly(config: Config)
    requires config.Enabled()
    ensures (forall calls :: NonDecreasing(calls) ==>
               Run(LimitsOf(config), map[], calls, true).0 == Run(LimitsOf(config), map[], calls, false).0)
            <==> Fits(config)
  {
    hide Run, LimitsOf, Overspend, Fits, Allowed, Mint, Instants;
    if Fits(config) {
      forall calls | NonDecreasing(calls)
        ensures Run(LimitsOf(config), map[], calls, true).0 == Run(LimitsOf(config), map[], calls, false).0
      {
        EvictionIsInvisible(config, calls);
      }
    } else {
      OverspendBreaksTheBudget(config);
      WindowBound(LimitsOf(config), Overspend(config), "a");
    }
  }

  ghost predicate WithinBudget(config: Config, calls: seq<Call>, key: string)
    requires config.Enabled()
  {
    var l := LimitsOf(config);
    var ds, at := Run(l, map[], calls, true).0, Instants(calls, key);
    |ds| == |calls| && (at != [] ==> Allowed(calls, ds, key) as real <= WindowBudget(l, at))
  }

  /** And so is the window budget of the evicting store. */
  lemma WindowBoundWithEvictionExactly(config: Config)
    requires config.Enabled()
    ensures (forall calls, key :: NonDecreasing(calls) ==> WithinBudget(config, calls, key)) <==> Fits(config)
  {
    hide Run, LimitsOf, Overspend, Fits, Allowed, Mint, Instants;
    if Fits(config) {
      forall calls, key | NonDecreasing(calls)
        ensures WithinBudget(config, calls, key)
      {
        EvictionIsInvisible(config, calls);
        WindowBound(LimitsOf(config), calls, key);
      }
    } else {
      OverspendBreaksTheBudget(config);
      assert !WithinBudget(config, Overspend(config), "a");
    }
  }

  /** The environment admits such a configuration: one request a minute, a burst of a hundred million. */
  lemma LargeBurstDoesNotFit()
    ensures var config := Config(1, 100_000_000);
            config.Enabled() && !Fits(config) && LimitsOf(config).idleTTL == MIN_IDLE_TTL
  {
    TtlIs(Config(1, 100_000_000), MIN_DURATION);
  }

  // -- a clock that steps back --------------------------------------------------

  /** One take, a crowd two minutes later, one take more to sweep, and back to second 1. */
  function StepBack(): seq<Call> {
    [Call("a", 0)] + (Crowd(0, PAST) + ([Call("z", PAST)] + ([Call("a", SECOND)] + [])))
  }

  /** The sweep has dropped "a", so its last take finds a full bucket. */
  lemma SweptAway(l: Limits, m: Buckets, b: Bucket)
    requires l.burst >= 1 && l.rate > 0.0 && Crowded(m, b, CROWD, PAST) && b.last == 0 && l.idleTTL == MIN_IDLE_TTL
    ensures var calls := [Call("z", PAST)] + ([Call("a", SECOND)] + []);
            var ds := Run(l, m, calls, true).0;
            |ds| == 2 && Allowed(calls, ds, "a") == 1
  {
    hide Run, Allowed, TakeBucket, Crowded;
    var kept := AwayIsSwept(l, m, b);
    var (d, m1) := TakeSwept(l, m, "z", PAST);
    assert "a" !in m1;
    var (e, m2) := TakeSwept(l, m1, "a", SECOND);
    assert e.allowed;
    NoCalls(l, m2, "a");
    RunStep(l, m1, Call("a", SECOND), [], "a");
    RunStep(l, m, Call("z", PAST), [Call("a", SECOND)] + [], "a");
  }

  lemma {:induction false} InstantsAppend(xs: seq<Call>, ys: seq<Call>, key: string)
    ensures Instants(xs + ys, key) == Instants(xs, key) + Instants(ys, key)
    decreases xs
  {
    if xs == [] {
      assert xs + ys == ys;
    } else {
      assert (xs + ys)[1..] == xs[1..] + ys;
      InstantsAppend(xs[1..], ys, key);
    }
  }

  lemma {:induction false} CrowdIsOthers(i: nat, now: int)
    ensures Instants(Crowd(i, now), "a") == []
    decreases CROWD - i
  {
    if i < CROWD {
      CrowdIsOthers(i + 1, now);
      assert Name(i)[0] == 'k';
      assert Crowd(i, now)[1..] == Crowd(i + 1, now);
    }
  }

  lemma StepBackInstants()
    ensures Instants(StepBack(), "a") == [0, SECOND]
  {
    hide Crowd;
    var crowd, last := Crowd(0, PAST), [Call("z", PAST)] + ([Call("a", SECOND)] + []);
    CrowdIsOthers(0, PAST);
    InstantsAppend(crowd, last, "a");
    InstantsAppend([Call("a", 0)], crowd + last, "a");
    InstantsAppend([Call("z", PAST)], [Call("a", SECOND)] + [], "a");
    assert [Call("a", SECOND)] + [] == [Call("a", SECOND)];
  }

  /** Both takes of "a" are allowed by the evicting store. */
  lemma StepBackIsAllowed()
    ensures var l := LimitsOf(Config(1, 1));
            var ds := Run(l, map[], StepBack(), true).0;
            |ds| == |StepBack()| && Allowed(StepBack(), ds, "a") == 2
  {
    hide Run, Crowd, Allowed, RefillToFull, IdleTTL;
    var l := LimitsOf(Config(1, 1));
    UnitConfig();
    var m1: Buckets := map["a" := Bucket(0.0, 0)];
    var crowd, last := Crowd(0, PAST), [Call("z", PAST)] + ([Call("a", SECOND)] + []);
    assert TakeSwept(l, map[], "a", 0) == (FirstSight(l, 0).0, m1);
    CrowdArrives(l, m1, m1["a"], 0, PAST);
    var (ds2, m2) := Run(l, m1, crowd, true);
    SweptAway(l, m2, m1["a"]);
    RunAppend(l, m1, crowd, last);
    AllowedAppend(crowd, ds2, last, Run(l, m2, last, true).0, "a");
    RunStep(l, map[], Call("a", 0), crowd + last, "a");
  }

  lemma UnitConfig()
    ensures var l := LimitsOf(Config(1, 1));
            l.burst == 1 && l.idleTTL == MIN_IDLE_TTL && Mint(l, SECOND) < 1.0
  {
    TtlIs(Config(1, 1), MIN_DURATION);
    MintIs(Config(1, 1), SECOND);
  }

  /** On a clock that steps back before the evicted bucket has refilled, the run gets other decisions. */
  lemma StepBackShows()
    ensures var l := LimitsOf(Config(1, 1));
            Run(l, map[], StepBack(), true).0 != Run(l, map[], StepBack(), false).0
  {
    hide Run, Allowed, StepBack, Mint, LimitsOf;
    StepBackIsAllowed();
    StepBackInstants();
    UnitConfig();
    WindowBound(LimitsOf(Config(1, 1)), StepBack(), "a");
    assert Latest([0, SECOND], 0) == SECOND;
  }
}
