/**
 * Exactly-once scheduler effects. Every effect is claimed first-write-wins under an (org, scope, key) in
 * the transaction that appends its event, and a plan's default is guarded by the plan's own state. Any
 * number of schedulers interleave statement by statement; an uncommitted claim or plan row makes others wait.
 */
module Claims {
  import opened GoTime
  import opened Stamps

  type Interval = i: int | i > 0 witness 1

  /** What the claiming jobs do. */
  datatype Job =
    | SendStep(subject: string, step: string)
    | BlockStep(subject: string, step: string)
    | ChargeFee(receivable: string)
    | TakeSnapshot(interval: Interval)

  /** A job's effect for an org, at the instant its pass read: what is attempted, and the event it leaves. */
  datatype Effect = Effect(org: string, job: Job, at: int)

  datatype Scope = Dunning | LateFees | Aging

  datatype Claim = Claim(org: string, scope: Scope, key: string)

  function SendKey(subject: string, step: string): string { subject + ":" + step }
  function BlockedKey(subject: string, step: string): string { subject + ":blocked:" + step }

  function ClaimOf(e: Effect): Claim {
    match e.job
    case SendStep(subject, step) => Claim(e.org, Dunning, SendKey(subject, step))
    case BlockStep(subject, step) => Claim(e.org, Dunning, BlockedKey(subject, step))
    case ChargeFee(receivable) => Claim(e.org, LateFees, receivable + ":" + PeriodKey(e.at))
    case TakeSnapshot(interval) => Claim(e.org, Aging, e.org + ":" + WindowId(e.at, interval))
  }

  // -- keys ---------------------------------------------------------------------

  predicate Plain(id: string) { ':' !in id }

  function FirstColon(s: string): nat {
    if s == [] || s[0] == ':' then 0 else 1 + FirstColon(s[1..])
  }

  lemma {:induction false} ColonAfter(a: string, x: string)
    requires Plain(a)
    ensures FirstColon(a + ":" + x) == |a|
    decreases a
  {
    if a != [] {
      assert (a + ":" + x)[1..] == a[1..] + ":" + x;
      ColonAfter(a[1..], x);
    }
  }

  lemma SplitAtColon(a: string, x: string, b: string, y: string)
    requires Plain(a) && Plain(b) && a + ":" + x == b + ":" + y
    ensures a == b && x == y
  {
    ColonAfter(a, x);
    ColonAfter(b, y);
    SameTail(a, x, y);
  }

  lemma SameTail(a: string, x: string, y: string)
    ensures (a + ":" + x)[..|a|] == a && (a + ":" + x)[|a| + 1..] == x
    ensures a + ":" + x == a + ":" + y <==> x == y
  {
    assert (a + ":" + y)[|a| + 1..] == y;
  }

  /** Of ids without a colon, only `id` itself starts a key with `id:`. */
  lemma OtherKey(r: string, x: string, id: string)
    requires Plain(r) && Plain(id) && id + ":" <= r + ":" + x
    ensures r == id
  {
    var key := r + ":" + x;
    var rest := key[|id| + 1..];
    assert key == id + ":" + rest;
    SplitAtColon(r, x, id, rest);
  }

  lemma BlockedIsASend(subject: string, step: string)
    ensures BlockedKey(subject, step) == SendKey(subject, "blocked:" + step)
  {
  }

  predicate PlainEffect(e: Effect) {
    match e.job
    case SendStep(subject, _) => Plain(subject)
    case BlockStep(subject, _) => Plain(subject)
    case ChargeFee(receivable) => Plain(receivable)
    case TakeSnapshot(_) => true
  }

  /** The same send or block; a fee on one receivable in one month; snapshots whose windows start in one second. */
  predicate Same(a: Effect, b: Effect) {
    && a.org == b.org
    && match (a.job, b.job)
       case (SendStep(_, _), SendStep(_, _)) => a.job == b.job
       case (BlockStep(_, _), BlockStep(_, _)) => a.job == b.job
       case (ChargeFee(r), ChargeFee(r')) => r == r' && MonthAt(a.at) == MonthAt(b.at)
       case (TakeSnapshot(i), TakeSnapshot(j)) => WindowSecond(a.at, i) == WindowSecond(b.at, j)
       case _ => false
  }

  /** The one way two different effects share a claim: a send whose step is named after another's block. */
  predicate Twins(a: Effect, b: Effect) {
    && a.org == b.org && a.job.SendStep? && b.job.BlockStep?
    && a.job.subject == b.job.subject && a.job.step == "blocked:" + b.job.step
  }

  lemma SameShareClaim(a: Effect, b: Effect)
    requires Same(a, b)
    ensures ClaimOf(a) == ClaimOf(b)
  {
    hide MonthAt, WindowSecond, PeriodKey, WindowId;
    PeriodNamesMonth(a.at, b.at);
    if a.job.TakeSnapshot? {
      WindowIdNamesSecond(a.at, a.job.interval, b.at, b.job.interval);
    }
  }

  /** For ids without a colon, two effects share a claim exactly when they are the same or twins. */
  lemma SharedClaimExactly(a: Effect, b: Effect)
    requires PlainEffect(a) && PlainEffect(b)
    ensures ClaimOf(a) == ClaimOf(b) <==> Same(a, b) || Twins(a, b) || Twins(b, a)
  {
    hide SendKey, BlockedKey, MonthAt, WindowSecond, PeriodKey, WindowId;
    if ClaimOf(a) == ClaimOf(b) {
      match (a.job, b.job)
      case (SendStep(s, k), SendStep(s', k')) => SendsDiffer(s, k, s', k');
      case (SendStep(s, k), BlockStep(s', k')) => BlockedIsASend(s', k'); SendsDiffer(s, k, s', "blocked:" + k');
      case (BlockStep(s, k), SendStep(s', k')) => BlockedIsASend(s, k); SendsDiffer(s, "blocked:" + k, s', k');
      case (BlockStep(s, k), BlockStep(s', k')) =>
        BlockedIsASend(s, k);
        BlockedIsASend(s', k');
        SendsDiffer(s, "blocked:" + k, s', "blocked:" + k');
        assert ("blocked:" + k)[8..] == k && ("blocked:" + k')[8..] == k';
      case (ChargeFee(r), ChargeFee(r')) =>
        SplitAtColon(r, PeriodKey(a.at), r', PeriodKey(b.at));
        PeriodNamesMonth(a.at, b.at);
      case (TakeSnapshot(i), TakeSnapshot(j)) =>
        SameTail(a.org, WindowId(a.at, i), WindowId(b.at, j));
        WindowIdNamesSecond(a.at, i, b.at, j);
      case _ =>
    } else {
      if Same(a, b) {
        SameShareClaim(a, b);
      }
      if Twins(a, b) {
        BlockedIsASend(b.job.subject, b.job.step);
      }
      if Twins(b, a) {
        BlockedIsASend(a.job.subject, a.job.step);
      }
    }
  }

  lemma SendsDiffer(s: string, k: string, s': string, k': string)
    requires Plain(s) && Plain(s') && SendKey(s, k) == SendKey(s', k')
    ensures s == s' && k == k'
  {
    SplitAtColon(s, k, s', k');
  }

  // -- the machine --------------------------------------------------------------

  datatype PlanState = Active | Completed | Defaulted | Cancelled

  datatype PlanRef = PlanRef(org: string, id: string)

  datatype Work = Emitting(effect: Effect) | Defaulting(plan: PlanRef)

  /** An open transaction has passed its guard, or appended its event too; its writes are its own until it commits. */
  datatype Tx = Tx(
    work: Work, appended: bool, claims: set<Claim>, plans: set<PlanRef>, outbox: seq<Effect>, defaults: seq<PlanRef>)

  /** The committed claim registry, outbox, plans and plan-default events, and the open transactions. */
  datatype State = State(
    claims: set<Claim>, outbox: seq<Effect>, plans: map<PlanRef, PlanState>, defaults: seq<PlanRef>,
    txs: map<nat, Tx>)

  /** The statements of any number of schedulers, and of the lanes that own plans. A crash is an abort. */
  datatype Action =
    | Insert(tx: nat, effect: Effect)
    | Guard(tx: nat, plan: PlanRef)
    | Append(tx: nat)
    | Commit(tx: nat)
    | Abort(tx: nat)
    | StartPlan(plan: PlanRef)
    | ClosePlan(plan: PlanRef, to: PlanState)

  predicate Held(s: State, c: Claim) { exists t :: t in s.txs && c in s.txs[t].claims }

  predicate Locked(s: State, p: PlanRef) { exists t :: t in s.txs && p in s.txs[t].plans }

  /** An insert waits for an uncommitted holder of its key, an update for the holder of its row. */
  predicate Enabled(s: State, a: Action) {
    match a
    case Insert(t, e) => t !in s.txs && !Held(s, ClaimOf(e))
    case Guard(t, plan) => t !in s.txs && !Locked(s, plan)
    case Append(t) => t in s.txs && !s.txs[t].appended
    case Commit(t) => t in s.txs && s.txs[t].appended
    case Abort(t) => t in s.txs
    case StartPlan(plan) => plan !in s.plans
    case ClosePlan(plan, to) =>
      plan in s.plans && s.plans[plan] == Active && !Locked(s, plan) && (to == Completed || to == Cancelled)
  }

  function WithEvent(tx: Tx): Tx {
    match tx.work
    case Emitting(e) => tx.(appended := true, outbox := tx.outbox + [e])
    case Defaulting(plan) => tx.(appended := true, defaults := tx.defaults + [plan])
  }

  function Marked(plans: map<PlanRef, PlanState>, to: set<PlanRef>): map<PlanRef, PlanState> {
    map p | p in plans :: if p in to then Defaulted else plans[p]
  }

  function Merged(s: State, tx: Tx): State {
    s.(claims := s.claims + tx.claims, outbox := s.outbox + tx.outbox,
       plans := Marked(s.plans, tx.plans), defaults := s.defaults + tx.defaults)
  }

  /** A key already taken, or a plan no longer active, ends the transaction with nothing written. */
  function Apply(s: State, a: Action): State
    requires Enabled(s, a)
  {
    match a
    case Insert(t, e) =>
      if ClaimOf(e) in s.claims then s
      else s.(txs := s.txs[t := Tx(Emitting(e), false, {ClaimOf(e)}, {}, [], [])])
    case Guard(t, plan) =>
      if plan in s.plans && s.plans[plan] == Active
      then s.(txs := s.txs[t := Tx(Defaulting(plan), false, {}, {plan}, [], [])]) else s
    case Append(t) => s.(txs := s.txs[t := WithEvent(s.txs[t])])
    case Commit(t) => Merged(s, s.txs[t]).(txs := s.txs - {t})
    case Abort(t) => s.(txs := s.txs - {t})
    case StartPlan(plan) => s.(plans := s.plans[plan := Active])
    case ClosePlan(plan, to) => s.(plans := s.plans[plan := to])
  }

  const START := State({}, [], map[], [], map[])

  ghost predicate Runs(s: State, actions: seq<Action>)
    decreases actions
  {
    actions == [] || (Enabled(s, actions[0]) && Runs(Apply(s, actions[0]), actions[1..]))
  }

  ghost function Final(s: State, actions: seq<Action>): State
    requires Runs(s, actions)
    decreases actions
  {
    if actions == [] then s else Final(Apply(s, actions[0]), actions[1..])
  }

  // -- what every interleaving keeps --------------------------------------------

  /** Events under a claim. */
  function Under(outbox: seq<Effect>, c: Claim): nat {
    if outbox == [] then 0
    else Under(outbox[..|outbox| - 1], c) + (if ClaimOf(outbox[|outbox| - 1]) == c then 1 else 0)
  }

  function Times<T(==)>(items: seq<T>, x: T): nat {
    if items == [] then 0
    else Times(items[..|items| - 1], x) + (if items[|items| - 1] == x then 1 else 0)
  }

  /** What a transaction has written follows its statements. */
  predicate TxOk(tx: Tx) {
    match tx.work
    case Emitting(e) =>
      tx.claims == {ClaimOf(e)} && tx.plans == {} && tx.defaults == [] && tx.outbox == if tx.appended then [e] else []
    case Defaulting(plan) =>
      tx.claims == {} && tx.plans == {plan} && tx.outbox == [] && tx.defaults == if tx.appended then [plan] else []
  }

  ghost predicate TxsOk(s: State) { forall t :: t in s.txs ==> TxOk(s.txs[t]) }

  /** An uncommitted claim is one transaction's, and nobody's committed claim. */
  ghost predicate ClaimsApart(s: State) {
    && (forall t, c :: t in s.txs && c in s.txs[t].claims ==> c !in s.claims)
    && (forall t, u, c :: t in s.txs && u in s.txs && c in s.txs[t].claims && c in s.txs[u].claims ==> t == u)
  }

  /** A guarded plan row is one transaction's, and still active. */
  ghost predicate PlansApart(s: State) {
    && (forall t, p :: t in s.txs && p in s.txs[t].plans ==> p in s.plans && s.plans[p] == Active)
    && (forall t, u, p :: t in s.txs && u in s.txs && p in s.txs[t].plans && p in s.txs[u].plans ==> t == u)
  }

  ghost predicate ClaimsCounted(s: State) { forall c :: Under(s.outbox, c) == if c in s.claims then 1 else 0 }

  ghost predicate DefaultsCounted(s: State) {
    forall p :: Times(s.defaults, p) == if p in s.plans && s.plans[p] == Defaulted then 1 else 0
  }

  ghost predicate Inv(s: State) {
    TxsOk(s) && ClaimsApart(s) && PlansApart(s) && ClaimsCounted(s) && DefaultsCounted(s)
  }

  lemma UnderAppend(outbox: seq<Effect>, e: Effect, c: Claim)
    ensures Under(outbox + [e], c) == Under(outbox, c) + (if ClaimOf(e) == c then 1 else 0)
  {
    hide ClaimOf;
  }

  lemma TimesAppend<T>(items: seq<T>, x: T, y: T)
    ensures Times(items + [x], y) == Times(items, y) + (if x == y then 1 else 0)
  {
  }

  lemma StepKeepsTxsOk(s: State, a: Action)
    requires TxsOk(s) && Enabled(s, a)
    ensures TxsOk(Apply(s, a))
  {
    hide ClaimOf, Held, Locked, Merged;
    if a.Append? {
      assert TxOk(s.txs[a.tx]);
    }
  }

  lemma StepKeepsClaimsApart(s: State, a: Action)
    requires TxsOk(s) && ClaimsApart(s) && Enabled(s, a)
    ensures ClaimsApart(Apply(s, a))
  {
    hide ClaimOf, Locked, Marked, TxOk, TxsOk;
    var s' := Apply(s, a);
    forall t, c | t in s'.txs && c in s'.txs[t].claims
      ensures c !in s'.claims
    {
      assert c in Uncommitted(s, a, t);
    }
    forall t, u, c | t in s'.txs && u in s'.txs && c in s'.txs[t].claims && c in s'.txs[u].claims
      ensures t == u
    {
      assert c in Uncommitted(s, a, t) && c in Uncommitted(s, a, u);
    }
  }

  /** What a transaction has claimed after a step: what it had, or the key just inserted. */
  function Uncommitted(s: State, a: Action, t: nat): set<Claim> {
    if a.Insert? && a.tx == t then {ClaimOf(a.effect)} else if t in s.txs then s.txs[t].claims else {}
  }

  function Guarding(s: State, a: Action, t: nat): set<PlanRef> {
    if a.Guard? && a.tx == t then {a.plan} else if t in s.txs then s.txs[t].plans else {}
  }

  lemma StepKeepsPlansApart(s: State, a: Action)
    requires PlansApart(s) && Enabled(s, a)
    ensures PlansApart(Apply(s, a))
  {
    hide ClaimOf, Held;
    var s' := Apply(s, a);
    forall t, p | t in s'.txs && p in s'.txs[t].plans
      ensures p in s'.plans && s'.plans[p] == Active
    {
      assert p in Guarding(s, a, t);
    }
    forall t, u, p | t in s'.txs && u in s'.txs && p in s'.txs[t].plans && p in s'.txs[u].plans
      ensures t == u
    {
      assert p in Guarding(s, a, t) && p in Guarding(s, a, u);
    }
  }

  lemma CommitCounts(s: State, t: nat)
    requires Inv(s) && Enabled(s, Commit(t))
    ensures ClaimsCounted(Apply(s, Commit(t))) && DefaultsCounted(Apply(s, Commit(t)))
  {
    hide ClaimOf, Under, Times;
    var tx, s' := s.txs[t], Apply(s, Commit(t));
    assert TxOk(tx);
    match tx.work
    case Emitting(e) =>
      assert ClaimOf(e) in tx.claims;
      assert s'.plans == s.plans && s'.defaults == s.defaults;
      forall c
        ensures Under(s'.outbox, c) == if c in s'.claims then 1 else 0
      {
        UnderAppend(s.outbox, e, c);
      }
    case Defaulting(plan) =>
      assert plan in tx.plans;
      assert s'.claims == s.claims && s'.outbox == s.outbox;
      forall p
        ensures Times(s'.defaults, p) == if p in s'.plans && s'.plans[p] == Defaulted then 1 else 0
      {
        TimesAppend(s.defaults, plan, p);
      }
  }

  lemma StepKeeps(s: State, a: Action)
    requires Inv(s) && Enabled(s, a)
    ensures Inv(Apply(s, a)) && s.claims <= Apply(s, a).claims && s.outbox <= Apply(s, a).outbox
  {
    hide ClaimOf, Under, Times, TxsOk, ClaimsApart, PlansApart;
    StepKeepsTxsOk(s, a);
    StepKeepsClaimsApart(s, a);
    StepKeepsPlansApart(s, a);
    if a.Commit? {
      CommitCounts(s, a.tx);
    }
  }

  lemma {:induction false} RunKeeps(s: State, actions: seq<Action>)
    requires Inv(s) && Runs(s, actions)
    ensures var t := Final(s, actions); Inv(t) && s.claims <= t.claims && s.outbox <= t.outbox
    decreases actions
  {
    hide Inv, ClaimOf, Enabled, Apply;
    if actions != [] {
      StepKeeps(s, actions[0]);
      RunKeeps(Apply(s, actions[0]), actions[1..]);
    }
  }

  lemma StartIsFine()
    ensures Inv(START)
  {
  }

  lemma {:induction false} ClaimedIsUnder(outbox: seq<Effect>, i: nat)
    requires i < |outbox|
    ensures Under(outbox, ClaimOf(outbox[i])) >= 1
  {
    hide ClaimOf;
    if i < |outbox| - 1 {
      assert outbox[..|outbox| - 1][i] == outbox[i];
      ClaimedIsUnder(outbox[..|outbox| - 1], i);
    }
  }

  lemma {:induction false} TwiceUnder(outbox: seq<Effect>, i: nat, j: nat)
    requires i < j < |outbox| && ClaimOf(outbox[i]) == ClaimOf(outbox[j])
    ensures Under(outbox, ClaimOf(outbox[i])) >= 2
  {
    hide ClaimOf;
    var front := outbox[..|outbox| - 1];
    assert front[i] == outbox[i];
    if j < |front| {
      assert front[j] == outbox[j];
      TwiceUnder(front, i, j);
    } else {
      ClaimedIsUnder(front, i);
    }
  }

  lemma ClaimsDiffer(s: State, i: nat, j: nat)
    requires Inv(s) && i < j < |s.outbox|
    ensures ClaimOf(s.outbox[i]) != ClaimOf(s.outbox[j])
  {
    hide ClaimOf, Under, TxsOk, ClaimsApart, PlansApart, DefaultsCounted;
    if ClaimOf(s.outbox[i]) == ClaimOf(s.outbox[j]) {
      TwiceUnder(s.outbox, i, j);
    }
  }

  /**
   * Over any schedulers, ticks at any instants, interleavings and crashes: a claim exists exactly when its
   * single event does, no two events are the same effect, and a plan has one default event exactly when it
   * is defaulted.
   */
  lemma EffectsAtMostOnce(actions: seq<Action>)
    requires Runs(START, actions)
    ensures var s := Final(START, actions);
            && (forall c :: Under(s.outbox, c) == if c in s.claims then 1 else 0)
            && (forall i, j :: 0 <= i < j < |s.outbox| ==> !Same(s.outbox[i], s.outbox[j]))
            && (forall p :: Times(s.defaults, p) == if p in s.plans && s.plans[p] == Defaulted then 1 else 0)
  {
    hide ClaimOf, Under, Times, TxsOk, ClaimsApart, PlansApart, Same;
    StartIsFine();
    RunKeeps(START, actions);
    var s := Final(START, actions);
    forall i, j | 0 <= i < j < |s.outbox|
      ensures !Same(s.outbox[i], s.outbox[j])
    {
      ClaimsDiffer(s, i, j);
      if Same(s.outbox[i], s.outbox[j]) {
        SameShareClaim(s.outbox[i], s.outbox[j]);
      }
    }
  }

  /** A receivable is charged at most once in a calendar month, however often the fee job ticks in it. */
  lemma OneFeePerMonth(actions: seq<Action>, i: nat, j: nat)
    requires Runs(START, actions)
    requires i < j < |Final(START, actions).outbox|
    requires var s := Final(START, actions);
             s.outbox[i].job.ChargeFee? && s.outbox[j].job == s.outbox[i].job && s.outbox[j].org == s.outbox[i].org
    ensures var s := Final(START, actions); MonthAt(s.outbox[i].at) != MonthAt(s.outbox[j].at)
  {
    hide MonthAt;
    EffectsAtMostOnce(actions);
    assert !Same(Final(START, actions).outbox[i], Final(START, actions).outbox[j]);
  }

  /** An org is snapshotted at most once in a window, whatever the interval. */
  lemma OneSnapshotPerWindow(actions: seq<Action>, i: nat, j: nat)
    requires Runs(START, actions)
    requires i < j < |Final(START, actions).outbox|
    requires var s := Final(START, actions);
             s.outbox[i].job.TakeSnapshot? && s.outbox[j].job == s.outbox[i].job && s.outbox[j].org == s.outbox[i].org
    ensures var s := Final(START, actions);
            !InWindow(s.outbox[i].at, s.outbox[j].at, s.outbox[i].job.interval)
  {
    hide WindowOf, InWindow;
    EffectsAtMostOnce(actions);
    WindowOfNamesWindow(
      Final(START, actions).outbox[i].at, Final(START, actions).outbox[j].at, Final(START, actions).outbox[i].job.interval);
    assert !Same(Final(START, actions).outbox[i], Final(START, actions).outbox[j]);
  }

  // -- an effect and its claim --------------------------------------------------

  predicate PlainOutbox(outbox: seq<Effect>) { forall i :: 0 <= i < |outbox| ==> PlainEffect(outbox[i]) }

  lemma {:induction false} SomeUnder(outbox: seq<Effect>, c: Claim) returns (i: nat)
    requires Under(outbox, c) > 0
    ensures i < |outbox| && ClaimOf(outbox[i]) == c
  {
    hide ClaimOf;
    i := |outbox| - 1;
    if ClaimOf(outbox[i]) != c {
      i := SomeUnder(outbox[..i], c);
    }
  }

  lemma TakenExactly(s: State, c: Claim)
    requires Inv(s)
    ensures c in s.claims <==> exists i :: 0 <= i < |s.outbox| && ClaimOf(s.outbox[i]) == c
  {
    hide ClaimOf, Under, TxsOk, ClaimsApart, PlansApart, DefaultsCounted;
    assert Under(s.outbox, c) == if c in s.claims then 1 else 0;
    if c in s.claims {
      var i := SomeUnder(s.outbox, c);
    }
    if i :| 0 <= i < |s.outbox| && ClaimOf(s.outbox[i]) == c {
      ClaimedIsUnder(s.outbox, i);
    }
  }

  /**
   * In every run, an effect's claim is taken exactly when the same effect was emitted or a twin holds the
   * claim: for effects with no twin this is an equivalence.
   */
  lemma ClaimMeansEffectExactly(actions: seq<Action>, e: Effect)
    requires Runs(START, actions) && PlainEffect(e) && PlainOutbox(Final(START, actions).outbox)
    ensures var s := Final(START, actions);
            ClaimOf(e) in s.claims <==>
            exists i :: 0 <= i < |s.outbox| && (Same(e, s.outbox[i]) || Twins(e, s.outbox[i]) || Twins(s.outbox[i], e))
  {
    hide ClaimOf, Inv, Same, Twins, PlainEffect;
    StartIsFine();
    RunKeeps(START, actions);
    var s := Final(START, actions);
    TakenExactly(s, ClaimOf(e));
    forall i | 0 <= i < |s.outbox|
      ensures ClaimOf(e) == ClaimOf(s.outbox[i])
              <==> Same(e, s.outbox[i]) || Twins(e, s.outbox[i]) || Twins(s.outbox[i], e)
    {
      SharedClaimExactly(e, s.outbox[i]);
    }
  }

  /** Step keys that do not start with "blocked:" have no twins: each claim is its own effect's. */
  lemma NoTwinWithoutPrefix(e: Effect)
    requires e.job.SendStep? && !("blocked:" <= e.job.step)
    ensures forall b :: !Twins(e, b)
  {
    forall b
      ensures !Twins(e, b)
    {
      if b.job.BlockStep? {
        assert "blocked:" <= "blocked:" + b.job.step;
      }
    }
  }

  /**
   * Such a step name costs a send: once step `k` of a subject is reported blocked, no later run ever emits
   * the send of its step "blocked:" + k.
   */
  lemma TwinIsSwallowed(before: seq<Action>, after: seq<Action>, send: Effect, block: Effect)
    requires Runs(START, before) && Runs(Final(START, before), after)
    requires Twins(send, block) && block in Final(START, before).outbox
    ensures send !in Final(Final(START, before), after).outbox
  {
    hide ClaimOf, Inv;
    StartIsFine();
    RunKeeps(START, before);
    RunKeeps(Final(START, before), after);
    var s := Final(Final(START, before), after);
    assert ClaimOf(send) == ClaimOf(block) by { TwinsShareClaim(send, block); }
    var i :| 0 <= i < |s.outbox| && s.outbox[i] == block;
    forall j | 0 <= j < |s.outbox|
      ensures s.outbox[j] != send
    {
      if j < i {
        ClaimsDiffer(s, j, i);
      } else if i < j {
        ClaimsDiffer(s, i, j);
      }
    }
  }

  lemma TwinsShareClaim(send: Effect, block: Effect)
    requires Twins(send, block)
    ensures ClaimOf(send) == ClaimOf(block)
  {
    BlockedIsASend(block.job.subject, block.job.step);
  }

  // -- a settled attempt --------------------------------------------------------

  /** The attempt at an effect ends well: its transaction commits, or its insert finds the key taken. */
  ghost predicate Settles(s: State, a: Action, e: Effect) {
    || (a.Commit? && a.tx in s.txs && s.txs[a.tx].work == Emitting(e))
    || (a.Insert? && a.effect == e && ClaimOf(e) in s.claims)
  }

  lemma SettledIsClaimed(s: State, a: Action, e: Effect)
    requires Inv(s) && Enabled(s, a) && Settles(s, a, e)
    ensures ClaimOf(e) in Apply(s, a).claims
  {
    hide ClaimOf, ClaimsApart, PlansApart, ClaimsCounted, DefaultsCounted;
    if a.Commit? {
      assert TxOk(s.txs[a.tx]);
    }
  }

  lemma SettledStaysClaimed(before: seq<Action>, a: Action, after: seq<Action>, e: Effect)
    requires Runs(START, before) && Enabled(Final(START, before), a) && Settles(Final(START, before), a, e)
    requires Runs(Apply(Final(START, before), a), after)
    ensures Inv(Final(Apply(Final(START, before), a), after))
    ensures ClaimOf(e) in Final(Apply(Final(START, before), a), after).claims
  {
    hide ClaimOf, Inv, Settles, Apply, Enabled;
    StartIsFine();
    RunKeeps(START, before);
    SettledIsClaimed(Final(START, before), a, e);
    StepKeeps(Final(START, before), a);
    RunKeeps(Apply(Final(START, before), a), after);
  }

  /**
   * However often and by whomever it is attempted, an effect without a twin whose attempt once ends well
   * has exactly one event, then and after every later run.
   */
  lemma SettledEffectExactlyOnce(before: seq<Action>, a: Action, after: seq<Action>, e: Effect)
    requires Runs(START, before) && Enabled(Final(START, before), a) && Settles(Final(START, before), a, e)
    requires Runs(Apply(Final(START, before), a), after)
    requires PlainEffect(e) && PlainOutbox(Final(Apply(Final(START, before), a), after).outbox)
    requires forall b :: !Twins(e, b) && !Twins(b, e)
    ensures var s := Final(Apply(Final(START, before), a), after);
            && (exists i :: 0 <= i < |s.outbox| && Same(e, s.outbox[i]))
            && (forall i, j :: 0 <= i < j < |s.outbox| ==> !(Same(e, s.outbox[i]) && Same(e, s.outbox[j])))
  {
    hide ClaimOf, Inv, Settles, Apply, Enabled, Same, Twins, PlainEffect;
    SettledStaysClaimed(before, a, after, e);
    var s := Final(Apply(Final(START, before), a), after);
    TakenExactly(s, ClaimOf(e));
    var k :| 0 <= k < |s.outbox| && ClaimOf(s.outbox[k]) == ClaimOf(e);
    SharedClaimExactly(e, s.outbox[k]);
    forall i, j | 0 <= i < j < |s.outbox|
      ensures !(Same(e, s.outbox[i]) && Same(e, s.outbox[j]))
    {
      ClaimsDiffer(s, i, j);
      if Same(e, s.outbox[i]) && Same(e, s.outbox[j]) {
        SameShareClaim(e, s.outbox[i]);
        SameShareClaim(e, s.outbox[j]);
      }
    }
  }

  // -- one snapshot per window --------------------------------------------------

  /** Every snapshot taken is at one interval, as a deployment configures it. */
  ghost predicate OneInterval(outbox: seq<Effect>, interval: Interval) {
    forall i :: 0 <= i < |outbox| && outbox[i].job.TakeSnapshot? ==> outbox[i].job.interval == interval
  }

  /** The org has a snapshot taken in the window of an instant. */
  ghost predicate Snapshotted(outbox: seq<Effect>, org: string, interval: Interval, at: int) {
    exists i :: 0 <= i < |outbox| && outbox[i].org == org && outbox[i].job == TakeSnapshot(interval)
                && InWindow(at, outbox[i].at, interval)
  }

  /** An aging attempt that ends well leaves its own window snapshotted. */
  ghost predicate WindowCovered(before: seq<Action>, a: Action, e: Effect) {
    Runs(START, before) && Enabled(Final(START, before), a) && Settles(Final(START, before), a, e)
    && e.job.TakeSnapshot? && OneInterval(Apply(Final(START, before), a).outbox, e.job.interval)
    ==> Snapshotted(Apply(Final(START, before), a).outbox, e.org, e.job.interval, e.at)
  }

  lemma LongWindowsCovered(before: seq<Action>, a: Action, e: Effect)
    requires e.job.TakeSnapshot? && e.job.interval >= SECOND
    ensures WindowCovered(before, a, e)
  {
    hide ClaimOf, Inv, Settles, Apply, Enabled, WindowOf;
    if Runs(START, before) && Enabled(Final(START, before), a) && Settles(Final(START, before), a, e)
       && OneInterval(Apply(Final(START, before), a).outbox, e.job.interval)
    {
      var s := Apply(Final(START, before), a);
      SettledStaysClaimed(before, a, [], e);
      TakenExactly(s, ClaimOf(e));
      var i :| 0 <= i < |s.outbox| && ClaimOf(s.outbox[i]) == ClaimOf(e);
      SnapshotClaims(s.outbox[i], e);
      WindowsApart(e.job.interval, s.outbox[i].at, e.at);
      WindowOfNamesWindow(e.at, s.outbox[i].at, e.job.interval);
    }
  }

  lemma SnapshotClaims(x: Effect, e: Effect)
    requires ClaimOf(x) == ClaimOf(e) && e.job.TakeSnapshot?
    ensures x.org == e.org && x.job.TakeSnapshot?
    ensures WindowSecond(x.at, x.job.interval) == WindowSecond(e.at, e.job.interval)
  {
    hide SendKey, BlockedKey, PeriodKey, WindowId, WindowSecond;
    SameTail(x.org, WindowId(x.at, x.job.interval), WindowId(e.at, e.job.interval));
    WindowIdNamesSecond(x.at, x.job.interval, e.at, e.job.interval);
  }

  function FirstSnapshot(interval: Interval): Effect { Effect("o", TakeSnapshot(interval), ZERO_TIME) }
  function NextSnapshot(interval: Interval): Effect { Effect("o", TakeSnapshot(interval), ZERO_TIME + interval) }

  function Once(e: Effect): seq<Action> { [Insert(0, e), Append(0), Commit(0)] }

  /** A sub-second interval: the window after a snapshot finds its key taken and goes without one. */
  lemma SubSecondWindowMissed(interval: Interval)
    requires interval < SECOND
    ensures !WindowCovered(Once(FirstSnapshot(interval)), Insert(0, NextSnapshot(interval)), NextSnapshot(interval))
  {
    hide WindowSecond, WindowOf;
    var x, e := FirstSnapshot(interval), NextSnapshot(interval);
    SubSecondWindowsCollide(interval);
    SameShareClaim(x, e);
    OnceIs(START, x);
    hide ClaimOf;
    var s := Final(START, Once(x));
    assert s.outbox == [x] && ClaimOf(e) in s.claims;
    WindowOfNamesWindow(e.at, x.at, interval);
    assert !Snapshotted(s.outbox, "o", interval, e.at);
  }

  /** One whole transaction, alone. */
  function Claimed(s: State, e: Effect): State {
    if ClaimOf(e) in s.claims then s else s.(claims := s.claims + {ClaimOf(e)}, outbox := s.outbox + [e])
  }

  lemma RunStep(s: State, a: Action, rest: seq<Action>)
    requires Enabled(s, a) && Runs(Apply(s, a), rest)
    ensures Runs(s, [a] + rest) && Final(s, [a] + rest) == Final(Apply(s, a), rest)
  {
    hide Enabled, Apply;
    assert ([a] + rest)[1..] == rest;
  }

  lemma AloneSteps(s: State, e: Effect, tx: Tx)
    requires s.txs == map[] && ClaimOf(e) !in s.claims && tx == Tx(Emitting(e), false, {ClaimOf(e)}, {}, [], [])
    ensures var s1 := s.(txs := map[0 := tx]);
            var s2 := s.(txs := map[0 := tx.(appended := true, outbox := [e])]);
            && Enabled(s, Insert(0, e)) && Apply(s, Insert(0, e)) == s1
            && Enabled(s1, Append(0)) && Apply(s1, Append(0)) == s2
            && Enabled(s2, Commit(0)) && Apply(s2, Commit(0)) == Claimed(s, e)
  {
    hide ClaimOf;
    assert [] + [e] == [e];
    assert map[0 := tx][0 := WithEvent(tx)] == map[0 := WithEvent(tx)];
    assert Marked(s.plans, {}) == s.plans && s.defaults + [] == s.defaults;
  }

  lemma OnceIs(s: State, e: Effect)
    requires s.txs == map[] && ClaimOf(e) !in s.claims
    ensures Runs(s, Once(e)) && Final(s, Once(e)) == Claimed(s, e)
  {
    hide ClaimOf, Enabled, Apply, Claimed;
    var tx := Tx(Emitting(e), false, {ClaimOf(e)}, {}, [], []);
    AloneSteps(s, e, tx);
    var s1 := s.(txs := map[0 := tx]);
    RunStep(s.(txs := map[0 := tx.(appended := true, outbox := [e])]), Commit(0), []);
    RunStep(s1, Append(0), [Commit(0)] + []);
    RunStep(s, Insert(0, e), [Append(0)] + ([Commit(0)] + []));
    assert Once(e) == [Insert(0, e)] + ([Append(0)] + ([Commit(0)] + []));
  }

  lemma ClaimIsARun(s: State, e: Effect) returns (actions: seq<Action>)
    requires s.txs == map[]
    ensures Runs(s, actions) && Final(s, actions) == Claimed(s, e) && Claimed(s, e).txs == map[]
  {
    hide ClaimOf, Once;
    actions := [];
    if ClaimOf(e) !in s.claims {
      OnceIs(s, e);
      actions := Once(e);
    }
  }

  lemma {:induction false} RunConcat(s: State, a: seq<Action>, b: seq<Action>)
    requires Runs(s, a) && Runs(Final(s, a), b)
    ensures Runs(s, a + b) && Final(s, a + b) == Final(Final(s, a), b)
    decreases a
  {
    hide Enabled, Apply;
    if a == [] {
      assert a + b == b;
    } else {
      assert (a + b)[1..] == a[1..] + b;
      RunConcat(Apply(s, a[0]), a[1..], b);
    }
  }

  /** Every window an attempt ends well in is snapshotted exactly when the interval is at least a second. */
  lemma EveryWindowSnapshottedExactly(interval: Interval)
    ensures (forall before, a, e: Effect :: e.job == TakeSnapshot(interval) ==> WindowCovered(before, a, e))
            <==> interval >= SECOND
  {
    hide WindowCovered;
    if interval >= SECOND {
      forall before, a, e: Effect | e.job == TakeSnapshot(interval)
        ensures WindowCovered(before, a, e)
      {
        LongWindowsCovered(before, a, e);
      }
    } else {
      SubSecondWindowMissed(interval);
    }
  }
}
