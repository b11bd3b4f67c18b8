/** The token-bucket request limiter: its lossless eviction and the budget it enforces. */
module RateLimit {
  import opened GoTime

  const MIN_IDLE_TTL: int := 120 * SECOND
  const SWEEP_THRESHOLD: nat := 4096

  datatype Config = Config(requestsPerMinute: int, burst: int) {
    predicate Enabled() { requestsPerMinute > 0 }

    function Normalized(): (c: Config)
      ensures c.requestsPerMinute == requestsPerMinute
      ensures Enabled() ==> c.burst >= 1
    {
      if burst <= 0 then this.(burst := requestsPerMinute) else this
    }
  }

  datatype Decision = Decision(allowed: bool, limit: int, remaining: int, retryAfter: int)

  datatype Bucket = Bucket(tokens: real, last: int)

  /** What a store is built with; `rate` is tokens per nanosecond. */
  datatype Limits = Limits(burst: int, rate: real, idleTTL: int) {
    /** An idle age past `idleTTL` refills any bucket to capacity. */
    ghost predicate Valid() {
      burst >= 1 && rate > 0.0 && idleTTL >= 0 && Mint(this, idleTTL) >= burst as real
    }
  }

  /** The tokens minted in `elapsed` nanoseconds. */
  function Mint(l: Limits, elapsed: int): real {
    elapsed as real * l.rate
  }

  lemma MintMonotone(l: Limits, x: int, y: int)
    requires l.rate > 0.0 && x <= y
    ensures Mint(l, x) <= Mint(l, y)
    ensures Mint(l, 0) == 0.0
  {
    MulLe(x as real, y as real, l.rate);
  }

  lemma MintAdds(l: Limits, x: int, y: int)
    ensures Mint(l, y) == Mint(l, x) + Mint(l, y - x)
  {
    assert (y - x) as real == y as real - x as real;
  }

  type Buckets = map<string, Bucket>

  const MINUTE: int := 60 * SECOND

  /** The nanoseconds a drained bucket needs to fill up, truncated. */
  function RefillToFull(config: Config): nat
    requires config.Enabled()
  {
    Quotient(config.Normalized().burst, config.requestsPerMinute);
    config.Normalized().burst * MINUTE / config.requestsPerMinute
  }

  lemma Quotient(burst: int, rpm: int)
    requires burst >= 1 && rpm >= 1
    ensures 0 <= burst * MINUTE / rpm && burst * MINUTE / rpm * rpm <= burst * MINUTE
    ensures burst * MINUTE < (burst * MINUTE / rpm + 1) * rpm
  {
    assert burst * MINUTE >= 0;
  }

  /** A float converted to a duration; what does not fit becomes `spill`, which depends on the platform. */
  function ToDuration(x: int, spill: Int64): Int64 {
    if MIN_DURATION <= x <= MAX_DURATION then x else spill
  }

  /** Twice the refill window as a 64-bit duration, which wraps; at least two minutes. */
  function IdleTTL(config: Config, spill: Int64): Int64
    requires config.Enabled()
  {
    var doubled := Wrap64(2 * ToDuration(RefillToFull(config), spill));
    if doubled < MIN_IDLE_TTL then MIN_IDLE_TTL else doubled
  }

  /** The doubled refill window fits a 64-bit duration. */
  predicate Fits(config: Config)
    requires config.Enabled()
  {
    2 * RefillToFull(config) <= MAX_DURATION
  }

  /** Where the window does not fit, the age falls to its floor, whichever bound a platform converts to. */
  lemma TtlIs(config: Config, spill: Int64)
    requires config.Enabled() && (spill == MIN_DURATION || spill == MAX_DURATION)
    ensures IdleTTL(config, spill)
            == if Fits(config) && 2 * RefillToFull(config) >= MIN_IDLE_TTL then 2 * RefillToFull(config) else MIN_IDLE_TTL
  {
    hide RefillToFull;
    if !Fits(config) && RefillToFull(config) <= MAX_DURATION {
      assert Wrap64(2 * RefillToFull(config)) == 2 * RefillToFull(config) - 0x1_0000_0000_0000_0000;
    }
  }

  /** The limits derived from a configuration. */
  function LimitsOf(config: Config): (l: Limits)
    requires config.Enabled()
    ensures l.burst == (if config.burst >= 1 then config.burst else config.requestsPerMinute) >= 1
    ensures l.rate > 0.0 && l.idleTTL >= MIN_IDLE_TTL
  {
    Limits(config.Normalized().burst, config.requestsPerMinute as real / MINUTE as real, IdleTTL(config, MIN_DURATION))
  }

  lemma MintIs(config: Config, elapsed: int)
    requires config.Enabled()
    ensures Mint(LimitsOf(config), elapsed) * MINUTE as real == (elapsed * config.requestsPerMinute) as real
  {
    var rpm := config.requestsPerMinute as real;
    assert rpm / MINUTE as real * MINUTE as real == rpm;
    assert elapsed as real * (rpm / MINUTE as real) * MINUTE as real == elapsed as real * rpm;
    assert elapsed as real * rpm == (elapsed * config.requestsPerMinute) as real;
  }

  lemma Scale(a: int, b: int, c: int)
    requires a <= b && c >= 0
    ensures a * c <= b * c
  {
  }

  /** An eviction age that fits covers a full refill. */
  lemma FittingLimitsAreValid(config: Config)
    requires config.Enabled() && Fits(config)
    ensures LimitsOf(config).Valid()
  {
    hide Mint, RefillToFull, IdleTTL;
    var l, q, rpm := LimitsOf(config), RefillToFull(config), config.requestsPerMinute;
    WindowBounds(config);
    TtlIs(config, MIN_DURATION);
    Scale(q + 1, l.idleTTL, rpm);
    MintIs(config, l.idleTTL);
    assert (l.burst * MINUTE) as real == l.burst as real * MINUTE as real;
  }

  lemma WindowBounds(config: Config)
    requires config.Enabled()
    ensures var q, rpm, burst := RefillToFull(config), config.requestsPerMinute, config.Normalized().burst;
            q * rpm <= burst * MINUTE < (q + 1) * rpm
  {
    Quotient(config.Normalized().burst, config.requestsPerMinute);
  }

  lemma MulLe(a: real, b: real, c: real)
    requires a <= b && c >= 0.0
    ensures a * c <= b * c
  {
  }

  // -- one bucket ---------------------------------------------------------------

  /** The refill interval; a clock that steps back yields none. */
  function Elapsed(b: Bucket, now: int): (e: nat)
    ensures now <= b.last ==> e == 0
    ensures now >= b.last ==> e == Sub(now, b.last) <= now - b.last
  {
    if Sub(now, b.last) < 0 then 0 else Sub(now, b.last)
  }

  function Minted(l: Limits, b: Bucket, now: int): real {
    b.tokens + Mint(l, Elapsed(b, now))
  }

  function Refill(l: Limits, b: Bucket, now: int): Bucket {
    Bucket(if Minted(l, b, now) > l.burst as real then l.burst as real else Minted(l, b, now),
           if now > b.last then now else b.last)
  }

  /** `Retry-After` for a bucket short of one token: whole seconds, rounded up, at least one. */
  function RetryAfter(l: Limits, tokens: real): int
    requires l.rate > 0.0
  {
    var wait := -(-((1.0 - tokens) / l.rate / SECOND as real)).Floor * SECOND;
    if wait < SECOND then SECOND else wait
  }

  predicate Allows(l: Limits, b: Bucket, now: int) {
    Refill(l, b, now).tokens >= 1.0
  }

  function After(l: Limits, b: Bucket, now: int): Bucket {
    var r := Refill(l, b, now);
    if r.tokens >= 1.0 then Bucket(r.tokens - 1.0, r.last) else r
  }

  function TakeBucket(l: Limits, b: Bucket, now: int): (Decision, Bucket)
    requires l.rate > 0.0
  {
    var b' := After(l, b, now);
    (if Allows(l, b, now) then Decision(true, l.burst, b'.tokens.Floor, 0)
     else Decision(false, l.burst, 0, RetryAfter(l, b'.tokens)), b')
  }

  function FirstSight(l: Limits, now: int): (Decision, Bucket) {
    (Decision(true, l.burst, l.burst - 1, 0), Bucket(l.burst as real - 1.0, now))
  }

  predicate Full(l: Limits, b: Bucket, now: int)
    requires l.rate > 0.0
  {
    Refill(l, b, now).tokens == l.burst as real
  }

  // -- the store, on values -----------------------------------------------------

  /** A take that never evicts: the reference the limiter promises to match. */
  function TakeKept(l: Limits, m: Buckets, key: string, now: int): (Decision, Buckets)
    requires l.rate > 0.0
  {
    var (d, b) := if key in m then TakeBucket(l, m[key], now) else FirstSight(l, now);
    (d, m[key := b])
  }

  predicate Idle(l: Limits, b: Bucket, now: int) {
    Sub(now, b.last) > l.idleTTL
  }

  function Swept(l: Limits, m: Buckets, now: int): Buckets {
    map k | k in m && !Idle(l, m[k], now) :: m[k]
  }

  function TakeSwept(l: Limits, m: Buckets, key: string, now: int): (Decision, Buckets)
    requires l.rate > 0.0
  {
    TakeKept(l, if |m| >= SWEEP_THRESHOLD then Swept(l, m, now) else m, key, now)
  }

  // -- the mutex-guarded store --------------------------------------------------

  class InMemoryRateLimitStore {
    const limits: Limits
    var buckets: Buckets

    constructor (config: Config)
      requires config.Enabled()
      ensures limits == LimitsOf(config)
      ensures buckets == map[]
    {
      limits := LimitsOf(config);
      buckets := map[];
    }

    method Take(key: string, now: int) returns (d: Decision)
      requires limits.rate > 0.0
      modifies this
      ensures (d, buckets) == TakeSwept(limits, old(buckets), key, now)
    {
      hide Mint, RetryAfter;
      if |buckets| >= SWEEP_THRESHOLD {
        Sweep(now);
      }
      if key !in buckets {
        buckets := buckets[key := Bucket(limits.burst as real - 1.0, now)];
        return Decision(true, limits.burst, limits.burst - 1, 0);
      }
      var bucket := buckets[key];
      var elapsed := Sub(now, bucket.last);
      if elapsed < 0 {
        elapsed := 0;
      }
      bucket := bucket.(tokens := bucket.tokens + Mint(limits, elapsed));
      if bucket.tokens > limits.burst as real {
        bucket := bucket.(tokens := limits.burst as real);
      }
      if now > bucket.last {
        bucket := bucket.(last := now);
      }
      assert bucket == Refill(limits, buckets[key], now);
      if bucket.tokens >= 1.0 {
        bucket := bucket.(tokens := bucket.tokens - 1.0);
        buckets := buckets[key := bucket];
        return Decision(true, limits.burst, bucket.tokens.Floor, 0);
      }
      buckets := buckets[key := bucket];
      return Decision(false, limits.burst, 0, RetryAfter(limits, bucket.tokens));
    }

    /** Deletes the idle buckets, visiting the keys in no particular order. */
    method Sweep(now: int)
      modifies this
      ensures buckets == Swept(limits, old(buckets), now)
    {
      var keys := buckets.Keys;
      while keys != {}
        invariant keys <= old(buckets).Keys
        invariant forall k :: k in buckets <==>
            k in old(buckets) && (k in keys || !Idle(limits, old(buckets)[k], now))
        invariant forall k :: k in buckets ==> buckets[k] == old(buckets)[k]
        decreases |keys|
      {
        var k :| k in keys;
        if Idle(limits, buckets[k], now) {
          buckets := buckets - {k};
        }
        keys := keys - {k};
      }
    }
  }

  // -- runs ---------------------------------------------------------------------

  datatype Call = Call(key: string, now: int)

  /** The decisions and final buckets of a run of calls, with or without eviction. */
  function Run(l: Limits, m: Buckets, calls: seq<Call>, evicting: bool): (seq<Decision>, Buckets)
    requires l.rate > 0.0
    decreases calls
  {
    if calls == [] then ([], m)
    else
      var c := calls[0];
      var (d, m1) := if evicting then TakeSwept(l, m, c.key, c.now) else TakeKept(l, m, c.key, c.now);
      var (ds, m2) := Run(l, m1, calls[1..], evicting);
      ([d] + ds, m2)
  }

  predicate NonDecreasing(calls: seq<Call>) {
    forall i, j :: 0 <= i <= j < |calls| ==> calls[i].now <= calls[j].now
  }

  ghost predicate Sane(l: Limits, m: Buckets) {
    forall k :: k in m ==> 0.0 <= m[k].tokens <= l.burst as real
  }

  // -- eviction is invisible ----------------------------------------------------

  /** `small` is `big` with some buckets dropped, each of them full from instant `t` on. */
  ghost predicate Evicted(l: Limits, small: Buckets, big: Buckets, t: int)
    requires l.rate > 0.0
  {
    && (forall k :: k in small ==> k in big && small[k] == big[k])
    && (forall k :: k in big && k !in small ==> Full(l, big[k], t) && big[k].last <= t)
  }

  lemma FullStays(l: Limits, b: Bucket, t: int, t': int)
    requires l.rate > 0.0 && t <= t' && Full(l, b, t)
    ensures Full(l, b, t')
  {
    hide Mint;
    MintMonotone(l, Elapsed(b, t), Elapsed(b, t'));
  }

  lemma IdleIsFull(l: Limits, b: Bucket, now: int)
    requires l.Valid() && 0.0 <= b.tokens
    requires Idle(l, b, now)
    ensures Full(l, b, now) && b.last <= now
  {
    hide Mint;
    MintMonotone(l, l.idleTTL, Elapsed(b, now));
  }

  lemma SweepKeepsEvicted(l: Limits, small: Buckets, big: Buckets, t: int, now: int)
    requires l.Valid() && Sane(l, big) && Evicted(l, small, big, t) && t <= now
    ensures Evicted(l, small, big, now)
    ensures Evicted(l, Swept(l, small, now), big, now)
  {
    forall k | k in big && k !in small
      ensures Full(l, big[k], now) && big[k].last <= now
    {
      FullStays(l, big[k], t, now);
    }
    forall k | k in big && k !in Swept(l, small, now)
      ensures Full(l, big[k], now) && big[k].last <= now
    {
      if k in small {
        IdleIsFull(l, big[k], now);
      }
    }
  }

  lemma TakeKeepsEvicted(l: Limits, small: Buckets, big: Buckets, key: string, now: int)
    requires l.Valid() && Sane(l, big) && Evicted(l, small, big, now)
    ensures TakeKept(l, small, key, now).0 == TakeKept(l, big, key, now).0
    ensures Evicted(l, TakeKept(l, small, key, now).1, TakeKept(l, big, key, now).1, now)
  {
  }

  lemma TakeKeepsSane(l: Limits, m: Buckets, key: string, now: int)
    requires l.Valid() && Sane(l, m)
    ensures Sane(l, TakeKept(l, m, key, now).1)
  {
    hide Mint, RetryAfter;
    if key in m {
      MintMonotone(l, 0, Elapsed(m[key], now));
    }
  }

  lemma {:induction false} RunsAgree(l: Limits, small: Buckets, big: Buckets, t: int, calls: seq<Call>)
    requires l.Valid() && Sane(l, big) && Evicted(l, small, big, t)
    requires NonDecreasing(calls) && (calls != [] ==> t <= calls[0].now)
    ensures Run(l, small, calls, true).0 == Run(l, big, calls, false).0
    decreases calls
  {
    if calls != [] {
      var c := calls[0];
      SweepKeepsEvicted(l, small, big, t, c.now);
      var kept := if |small| >= SWEEP_THRESHOLD then Swept(l, small, c.now) else small;
      TakeKeepsEvicted(l, kept, big, c.key, c.now);
      TakeKeepsSane(l, big, c.key, c.now);
      RunsAgree(l, TakeKept(l, kept, c.key, c.now).1, TakeKept(l, big, c.key, c.now).1, c.now, calls[1..]);
    }
  }

  /** With a clock that never steps back and an age that covers a refill, no run can tell that buckets are evicted. */
  lemma EvictionIsInvisible(config: Config, calls: seq<Call>)
    requires config.Enabled() && Fits(config) && NonDecreasing(calls)
    ensures Run(LimitsOf(config), map[], calls, true).0 == Run(LimitsOf(config), map[], calls, false).0
  {
    FittingLimitsAreValid(config);
    if calls != [] {
      RunsAgree(LimitsOf(config), map[], map[], calls[0].now, calls);
    }
  }

  /**
   * Under any clock, one evicted bucket goes unnoticed exactly when it would have been back at
   * capacity at the instant of the next call: a step back before that instant shows.
   */
  lemma EvictionShowsExactlyBeforeRefill(l: Limits, b: Bucket, now: int)
    requires l.burst >= 1 && l.rate > 0.0 && 0.0 <= b.tokens <= l.burst as real
    ensures FirstSight(l, now).0 == TakeBucket(l, b, now).0 <==> Full(l, b, now)
  {
    var r := Refill(l, b, now);
    if r.tokens < l.burst as real && r.tokens >= 1.0 {
      assert (r.tokens - 1.0).Floor < l.burst - 1;
    }
  }

  // -- the budget ---------------------------------------------------------------

  /** How many calls for `key` a run allows. */
  function Allowed(calls: seq<Call>, ds: seq<Decision>, key: string): nat
    requires |calls| == |ds|
  {
    if calls == [] then 0
    else (if calls[0].key == key && ds[0].allowed then 1 else 0) + Allowed(calls[1..], ds[1..], key)
  }

  /** The instants at which `key` calls, in call order. */
  function Instants(calls: seq<Call>, key: string): seq<int> {
    if calls == [] then []
    else (if calls[0].key == key then [calls[0].now] else []) + Instants(calls[1..], key)
  }

  function Latest(instants: seq<int>, from: int): (t: int)
    ensures t >= from
    ensures forall i :: 0 <= i < |instants| ==> instants[i] <= t
    ensures t == from || t in instants
  {
    if instants == [] then from
    else Latest(instants[1..], if instants[0] > from then instants[0] else from)
  }

  /** The bucket's tokens less all that time has minted so far; refilling leaves it, spending lowers it. */
  ghost function Account(l: Limits, b: Bucket): real {
    b.tokens - Mint(l, b.last)
  }

  /** One take keeps tokens within the capacity and spends what the elapsed time can mint. */
  lemma TakeSpends(l: Limits, b: Bucket, now: int)
    requires l.burst >= 1 && l.rate > 0.0 && 0.0 <= b.tokens <= l.burst as real
    ensures var b' := After(l, b, now);
            && 0.0 <= b'.tokens <= l.burst as real
            && b'.last == (if now > b.last then now else b.last)
            && (if Allows(l, b, now) then 1.0 else 0.0) + Account(l, b') <= Account(l, b)
  {
    hide Mint;
    var last := if now > b.last then now else b.last;
    MintMonotone(l, 0, Elapsed(b, now));
    MintMonotone(l, Elapsed(b, now), last - b.last);
    MintAdds(l, b.last, last);
  }

  /** One key on its own: how many of the takes at `instants` its bucket allows, and where it ends. */
  function Spent(l: Limits, b: Bucket, instants: seq<int>): (nat, Bucket)
    decreases instants
  {
    if instants == [] then (0, b)
    else
      var (n, b') := Spent(l, After(l, b, instants[0]), instants[1..]);
      ((if Allows(l, b, instants[0]) then 1 else 0) + n, b')
  }

  /** Keys do not share budget: a key's calls fare in a run as they would alone. */
  lemma {:induction false} KeysAreIndependent(l: Limits, m: Buckets, calls: seq<Call>, key: string)
    requires l.rate > 0.0
    ensures var (ds, m') := Run(l, m, calls, false);
            var at := Instants(calls, key);
            && |ds| == |calls|
            && (key in m ==> key in m' && (Allowed(calls, ds, key), m'[key]) == Spent(l, m[key], at))
            && (key !in m && at == [] ==> key !in m' && Allowed(calls, ds, key) == 0)
            && (key !in m && at != [] ==>
                  && key in m'
                  && var (n, b) := Spent(l, FirstSight(l, at[0]).1, at[1..]);
                     (Allowed(calls, ds, key), m'[key]) == (1 + n, b))
    decreases calls
  {
    hide Mint, RetryAfter;
    if calls != [] {
      var c := calls[0];
      var (d, m1) := TakeKept(l, m, c.key, c.now);
      KeysAreIndependent(l, m1, calls[1..], key);
      var ds := Run(l, m, calls, false).0;
      assert ds[1..] == Run(l, m1, calls[1..], false).0;
      var at, rest := Instants(calls, key), Instants(calls[1..], key);
      if c.key == key {
        assert at[0] == c.now && at[1..] == rest;
      } else {
        assert at == rest;
      }
    }
  }

  lemma {:induction false} SpentWithinCredit(l: Limits, b: Bucket, instants: seq<int>)
    requires l.burst >= 1 && l.rate > 0.0 && 0.0 <= b.tokens <= l.burst as real
    ensures var (n, b') := Spent(l, b, instants);
            && 0.0 <= b'.tokens <= l.burst as real
            && b'.last == Latest(instants, b.last)
            && n as real + Account(l, b') <= Account(l, b)
    decreases instants
  {
    hide Mint;
    if instants != [] {
      var b1 := After(l, b, instants[0]);
      TakeSpends(l, b, instants[0]);
      SpentWithinCredit(l, b1, instants[1..]);
    }
  }

  /** The budget of the window from the first of `at` to its latest instant. */
  ghost function WindowBudget(l: Limits, at: seq<int>): real
    requires at != []
  {
    l.burst as real + Mint(l, Latest(at, at[0]) - at[0])
  }

  lemma FirstSightBudget(l: Limits, at: seq<int>)
    requires l.burst >= 1 && l.rate > 0.0 && at != []
    ensures var (n, b) := Spent(l, FirstSight(l, at[0]).1, at[1..]);
            (1 + n) as real <= WindowBudget(l, at) && 0.0 <= b.tokens <= l.burst as real
  {
    hide Mint, Spent;
    SpentWithinCredit(l, FirstSight(l, at[0]).1, at[1..]);
    MintAdds(l, at[0], Latest(at, at[0]));
  }

  /**
   * However the clock moves, a key is never allowed more than its burst plus what the rate refills
   * between its first and its latest instant, and its bucket stays between empty and capacity.
   */
  lemma WindowBound(l: Limits, calls: seq<Call>, key: string)
    requires l.burst >= 1 && l.rate > 0.0
    ensures var (ds, m') := Run(l, map[], calls, false);
            var at := Instants(calls, key);
            && |ds| == |calls|
            && (at == [] ==> Allowed(calls, ds, key) == 0)
            && (at != [] ==> Allowed(calls, ds, key) as real <= WindowBudget(l, at))
            && (key in m' ==> 0.0 <= m'[key].tokens <= l.burst as real)
  {
    hide Mint, Spent, Run, Allowed;
    KeysAreIndependent(l, map[], calls, key);
    var at := Instants(calls, key);
    if at != [] {
      FirstSightBudget(l, at);
    }
  }

  // -- the advertised wait ------------------------------------------------------

  /** The nanoseconds until a bucket short of one token has it. */
  function Need(l: Limits, tokens: real): int
    requires l.rate > 0.0
  {
    -(-((1.0 - tokens) / l.rate)).Floor
  }

  lemma NeedIs(l: Limits, tokens: real, elapsed: int)
    requires l.rate > 0.0
    ensures Mint(l, elapsed) >= 1.0 - tokens <==> elapsed >= Need(l, tokens)
  {
    var wait := (1.0 - tokens) / l.rate;
    assert wait * l.rate == 1.0 - tokens;
    assert elapsed as real >= wait <==> elapsed >= Need(l, tokens);
    if elapsed as real >= wait {
      MulLe(wait, elapsed as real, l.rate);
    } else {
      MulLt(elapsed as real, wait, l.rate);
    }
  }

  lemma MulLt(a: real, b: real, c: real)
    requires a < b && c > 0.0
    ensures a * c < b * c
  {
  }

  /** The advertised wait is the needed one, rounded up to whole seconds. */
  lemma WaitCoversNeed(l: Limits, tokens: real)
    requires l.rate > 0.0 && tokens < 1.0
    ensures Need(l, tokens) <= RetryAfter(l, tokens) && SECOND <= RetryAfter(l, tokens)
  {
    var wait := (1.0 - tokens) / l.rate;
    var seconds := -(-(wait / SECOND as real)).Floor;
    assert wait / SECOND as real <= seconds as real;
    assert wait <= (seconds * SECOND) as real;
  }

  /** The wait is one minute at most, since every rate is at least one token a minute. */
  lemma WaitIsAtMostAMinute(config: Config, tokens: real)
    requires config.Enabled() && 0.0 <= tokens < 1.0
    ensures SECOND <= RetryAfter(LimitsOf(config), tokens) <= MINUTE
  {
    hide Mint, IdleTTL;
    var l := LimitsOf(config);
    MintIs(config, MINUTE);
    Scale(1, config.requestsPerMinute, MINUTE);
    var wait := (1.0 - tokens) / l.rate;
    assert wait * l.rate == 1.0 - tokens <= 1.0 <= MINUTE as real * l.rate by { MintUnfolds(l, MINUTE); }
    MinuteBounds(wait, l.rate);
    assert -(-(wait / SECOND as real)).Floor <= 60;
  }

  lemma MintUnfolds(l: Limits, elapsed: int)
    ensures Mint(l, elapsed) == elapsed as real * l.rate
  {
  }

  lemma MinuteBounds(wait: real, rate: real)
    requires rate > 0.0 && wait * rate <= MINUTE as real * rate
    ensures wait <= MINUTE as real && wait / SECOND as real <= 60.0
  {
    if wait > MINUTE as real {
      MulLt(MINUTE as real, wait, rate);
    }
  }

  /**
   * A refused key that comes back after the advertised wait is allowed if and only if its bucket was no
   * further ahead of the clock than the wait exceeds the need; on a clock not behind the bucket, always.
   */
  lemma RetryAfterSufficesExactly(config: Config, b: Bucket, now: int)
    requires config.Enabled() && 0.0 <= b.tokens && !TakeBucket(LimitsOf(config), b, now).0.allowed
    ensures var l := LimitsOf(config);
            var (d, b') := TakeBucket(l, b, now);
            && Need(l, b'.tokens) <= d.retryAfter
            && (TakeBucket(l, b', now + d.retryAfter).0.allowed
                <==> b.last - now <= d.retryAfter - Need(l, b'.tokens))
  {
    hide Mint, RetryAfter, Need, LimitsOf;
    var l := LimitsOf(config);
    MintMonotone(l, 0, Elapsed(b, now));
    var (d, b') := TakeBucket(l, b, now);
    WaitCoversNeed(l, b'.tokens);
    WaitIsAtMostAMinute(config, b'.tokens);
    NeedIs(l, b'.tokens, Elapsed(b', now + d.retryAfter));
    NeedIs(l, b'.tokens, 0);
    MintMonotone(l, 0, 0);
  }

  /** On a stepped-back clock the advertised wait can end before any refill has started. */
  lemma RetryAfterFallsShortOnSteppedBackClock()
    ensures var l := LimitsOf(Config(1, 1));
            var b := FirstSight(l, 1000 * SECOND).1;
            var (d, b') := TakeBucket(l, b, 0);
            !d.allowed && !TakeBucket(l, b', d.retryAfter).0.allowed
  {
    hide Mint, RetryAfter, IdleTTL;
    var l := LimitsOf(Config(1, 1));
    MintMonotone(l, 0, 0);
    WaitIsAtMostAMinute(Config(1, 1), 0.0);
  }
}
