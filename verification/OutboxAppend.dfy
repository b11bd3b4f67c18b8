/** Which appends a later run of the relay can turn into a message out of order: exactly the undercutting ones. */
module OutboxAppend {
  import opened Outbox
  import opened OutboxSafety
  import opened OutboxOrder
  import opened OutboxDrain

  // -- runs ---------------------------------------------------------------------

  lemma {:induction false} OrderedRunsRun(c: Config, s: State, actions: seq<Action>)
    requires c.Valid() && Safe(c, s) && OrderedRuns(c, s, actions)
    ensures Runs(c, s, actions) && Safe(c, Final(c, s, actions))
    decreases actions
  {
    hide Safe, KeepsOrder, Apply, Enabled;
    if actions != [] {
      StepKeepsSafe(c, s, actions[0]);
      OrderedRunsRun(c, Apply(c, s, actions[0]), actions[1..]);
    }
  }

  /** The relay takes `s` to `t` by steps that order allows. */
  ghost predicate Reaches(c: Config, s: State, actions: seq<Action>, t: State) {
    && c.Valid() && Safe(c, s) && OrderedRuns(c, s, actions)
    && Runs(c, s, actions) && Final(c, s, actions) == t && Safe(c, t)
  }

  lemma {:induction false} ReachesOn(
      c: Config, s: State, a: seq<Action>, t: State, b: seq<Action>, u: State)
    requires Reaches(c, s, a, t) && Reaches(c, t, b, u)
    ensures Reaches(c, s, a + b, u)
    decreases a
  {
    hide Safe, KeepsOrder, Apply, Enabled;
    if a == [] {
      assert a + b == b;
    } else {
      StepKeepsSafe(c, s, a[0]);
      OrderedRunsRun(c, Apply(c, s, a[0]), a[1..]);
      ReachesOn(c, Apply(c, s, a[0]), a[1..], t, b, u);
      assert (a + b)[1..] == a[1..] + b;
    }
  }

  lemma ReachesStep(c: Config, s: State, a: Action)
    requires c.Valid() && Safe(c, s) && Enabled(s, a) && KeepsOrder(s, a)
    ensures Reaches(c, s, [a], Apply(c, s, a))
  {
    hide Safe, KeepsOrder, Apply, Enabled;
    StepKeepsSafe(c, s, a);
    var t := Apply(c, s, a);
    assert [a][1..] == [];
    assert OrderedRuns(c, t, []) && Runs(c, t, []) && Final(c, t, []) == t;
    assert OrderedRuns(c, s, [a]);
    assert Runs(c, s, [a]);
  }

  // -- one batch, all acknowledged ----------------------------------------------

  /** The batch has gone on from `s` to its row `k`, everything acknowledged. */
  ghost predicate SentUpTo(s: State, t: State, org: string, k: nat)
    requires org in s.open && s.open[org].next <= k <= |s.open[org].batch|
  {
    && t.rows == s.rows && s.log <= t.log && org in t.open
    && t.open[org].batch == s.open[org].batch && t.open[org].next == k && !t.open[org].stopped
    && (forall j :: s.open[org].next <= j < k && s.open[org].batch[j] < |s.rows| && Publishable(s.rows[s.open[org].batch[j]])
          ==> InLog(t.log, s.open[org].batch[j]))
    && (forall i :: InLog(t.log, i) ==> InLog(s.log, i) || i in s.open[org].batch[s.open[org].next..k])
  }

  lemma DeliverOne(c: Config, s: State, org: string)
    requires c.Valid() && Safe(c, s) && org in s.open && !s.open[org].stopped && s.open[org].next < |s.open[org].batch|
    ensures Enabled(s, Deliver(org, Acked)) && SentUpTo(s, Apply(c, s, Deliver(org, Acked)), org, s.open[org].next + 1)
  {
    hide Publishable, InLog, KeyLess, RowOk, MarkOk, UniqueRows, LogFaithful, EnvelopeOf, MarkFor;
    var t := s.open[org];
    var h := t.batch[t.next];
    assert t.batch[t.next..t.next + 1] == [h];
    LogGrows(s.log, Message(h, EnvelopeOf(s.rows[h])));
  }

  lemma SentUpToOn(s: State, t: State, u: State, org: string, k: nat)
    requires org in s.open && s.open[org].next <= k < |s.open[org].batch|
    requires SentUpTo(s, t, org, k) && SentUpTo(t, u, org, k + 1)
    ensures SentUpTo(s, u, org, k + 1)
  {
    hide Publishable, InLog;
    var b, next := s.open[org].batch, s.open[org].next;
    assert b[next..k + 1] == b[next..k] + [b[k]] && b[k..k + 1] == [b[k]];
    assert forall i :: InLog(t.log, i) ==> InLog(u.log, i) by { LongerLog(t.log, u.log); }
  }

  lemma LongerLog(a: seq<Message>, b: seq<Message>)
    requires a <= b
    ensures forall i :: InLog(a, i) ==> InLog(b, i)
  {
    forall i | InLog(a, i)
      ensures InLog(b, i)
    {
      var k :| 0 <= k < |a| && a[k].row == i;
      assert b[k] == a[k];
    }
  }

  lemma {:induction false} DeliverUpTo(c: Config, s: State, org: string, k: nat) returns (actions: seq<Action>, t: State)
    requires c.Valid() && Safe(c, s) && org in s.open && !s.open[org].stopped
    requires s.open[org].next <= k <= |s.open[org].batch|
    ensures Reaches(c, s, actions, t) && SentUpTo(s, t, org, k)
    decreases k
  {
    hide Safe, Apply, Enabled, InLog;
    if k == s.open[org].next {
      actions, t := [], s;
    } else {
      actions, t := DeliverUpTo(c, s, org, k - 1);
      DeliverOne(c, t, org);
      var u := Apply(c, t, Deliver(org, Acked));
      ReachesStep(c, t, Deliver(org, Acked));
      ReachesOn(c, s, actions, t, [Deliver(org, Acked)], u);
      SentUpToOn(s, t, u, org, k - 1);
      actions, t := actions + [Deliver(org, Acked)], u;
    }
  }

  // -- an event below what was sent ---------------------------------------------

  /** A pending event the broker has not seen, below one its org has sent. */
  ghost predicate Undercut(s: State, n: nat)
    requires LogFaithful(s.rows, s.log)
  {
    && n < |s.rows| && s.rows[n].status == Pending && Publishable(s.rows[n]) && !InLog(s.log, n)
    && !AboveLog(s.rows, s.log, s.rows[n])
  }

  /** Sending such an event puts the log out of order. */
  lemma UndercutShows(rows: seq<Row>, log: seq<Message>, n: nat)
    requires LogFaithful(rows, log) && n < |rows| && !InLog(log, n) && !AboveLog(rows, log, rows[n])
    ensures var log' := log + [Message(n, EnvelopeOf(rows[n]))]; LogFaithful(rows, log') && !Ordered(rows, log')
  {
    hide Publishable, KeyLess;
    var m := Message(n, EnvelopeOf(rows[n]));
    var log' := log + [m];
    var k :| 0 <= k < |log| && SameOrg(log[k], rows[n].org) && !KeyLess(rows[log[k].row], rows[n]);
    assert log'[k] == log[k] && log'[|log|] == m && log'[..|log|] == log;
  }

  lemma AboveLongerLog(rows: seq<Row>, log: seq<Message>, log': seq<Message>, r: Row)
    requires LogFaithful(rows, log) && LogFaithful(rows, log') && log <= log' && AboveLog(rows, log', r)
    ensures AboveLog(rows, log, r)
  {
    hide KeyLess;
    forall k | 0 <= k < |log| && SameOrg(log[k], r.org)
      ensures KeyLess(rows[log[k].row], r)
    {
      assert log'[k] == log[k];
    }
  }

  /** A run ends with the log out of order. */
  ghost predicate EndsOutOfOrder(c: Config, s: State, actions: seq<Action>, t: State) {
    Reaches(c, s, actions, t) && LogFaithful(t.rows, t.log) && !Ordered(t.rows, t.log)
  }

  /** The batch reaches the event itself. */
  lemma UndercutInBatch(c: Config, s: State, n: nat, k: nat) returns (actions: seq<Action>, t: State)
    requires c.Valid() && Safe(c, s) && Undercut(s, n)
    requires var org := s.rows[n].org;
             org in s.open && !s.open[org].stopped && s.open[org].next <= k < |s.open[org].batch| && s.open[org].batch[k] == n
    ensures EndsOutOfOrder(c, s, actions, t)
  {
    hide Publishable, KeyLess, RowOk, MarkOk, UniqueRows, Ordered, AboveLog, InLog, EnvelopeOf, TxnOk, Runs, OrderedRuns;
    var org := s.rows[n].org;
    var sends, u := DeliverUpTo(c, s, org, k);
    assert n !in s.open[org].batch[s.open[org].next..k] by { BatchIsDistinct(c, s, org, k); }
    assert !AboveLog(u.rows, u.log, u.rows[n]) by {
      if AboveLog(u.rows, u.log, u.rows[n]) {
        AboveLongerLog(s.rows, s.log, u.log, s.rows[n]);
      }
    }
    UndercutShows(u.rows, u.log, n);
    ReachesStep(c, u, Deliver(org, Acked));
    t := Apply(c, u, Deliver(org, Acked));
    ReachesOn(c, s, sends, u, [Deliver(org, Acked)], t);
    actions := sends + [Deliver(org, Acked)];
  }

  lemma BatchIsDistinct(c: Config, s: State, org: string, k: nat)
    requires Safe(c, s) && org in s.open && k < |s.open[org].batch|
    ensures forall lo: nat :: lo <= k ==> s.open[org].batch[k] !in s.open[org].batch[lo..k]
  {
    hide RowOk, MarkOk, LogFaithful;
    var b := s.open[org].batch;
    forall j | 0 <= j < k
      ensures b[j] != b[k]
    {
      assert KeyLess(s.rows[b[j]], s.rows[b[k]]);
    }
  }

  /** The batch leaves the event out: once committed, the event is where it was and the backlog is smaller. */
  lemma UndercutAfterBatch(c: Config, s: State, n: nat) returns (actions: seq<Action>, t: State)
    requires c.Valid() && Safe(c, s) && Undercut(s, n)
    requires var org := s.rows[n].org;
             org in s.open && s.open[org].next == 0 && !s.open[org].stopped && s.open[org].batch != [] && n !in s.open[org].batch
    ensures Reaches(c, s, actions, t) && Undercut(t, n) && t.rows[n].org == s.rows[n].org && t.rows[n].org !in t.open
    ensures Backlog(c, t.rows[n].org, t.rows) < Backlog(c, t.rows[n].org, s.rows)
  {
    hide Publishable, KeyLess, RowOk, MarkOk, UniqueRows, Ordered, AboveLog, InLog, EnvelopeOf, Runs, OrderedRuns, Backlog;
    var org := s.rows[n].org;
    var b := s.open[org].batch;
    var sends, u := DeliverUpTo(c, s, org, |b|);
    assert b[0..|b|] == b;
    CommitDrains(c, u, org);
    ReachesStep(c, u, Commit(org));
    t := Apply(c, u, Commit(org));
    ReachesOn(c, s, sends, u, [Commit(org)], t);
    actions := sends + [Commit(org)];
    TxnKnowsRows(c, u, org);
    UndercutStays(s, t, n);
  }

  lemma AboveBefore(s: State, t: State, r: Row)
    requires LogFaithful(s.rows, s.log) && LogFaithful(t.rows, t.log) && s.log <= t.log && SameEvents(s.rows, t.rows)
    requires AboveLog(t.rows, t.log, r)
    ensures AboveLog(s.rows, s.log, r)
  {
    hide Publishable, InLog, EnvelopeOf;
    forall k | 0 <= k < |s.log| && SameOrg(s.log[k], r.org)
      ensures KeyLess(s.rows[s.log[k].row], r)
    {
      assert t.log[k] == s.log[k];
      assert SameEvent(s.rows[s.log[k].row], t.rows[s.log[k].row]);
    }
  }

  lemma UndercutStays(s: State, t: State, n: nat)
    requires LogFaithful(s.rows, s.log) && LogFaithful(t.rows, t.log) && Undercut(s, n)
    requires s.log <= t.log && !InLog(t.log, n) && SameEvents(s.rows, t.rows) && t.rows[n] == s.rows[n]
    ensures Undercut(t, n)
  {
    hide Publishable, InLog, AboveLog, LogFaithful;
    if AboveLog(t.rows, t.log, t.rows[n]) {
      AboveBefore(s, t, s.rows[n]);
    }
  }

  /** From wherever an event lies below what its org has sent, relays that only succeed put the log out of order. */
  lemma {:induction false} UndercutIsSent(c: Config, s: State, n: nat) returns (actions: seq<Action>, t: State)
    requires c.Valid() && Safe(c, s) && Undercut(s, n) && s.rows[n].org !in s.open
    ensures EndsOutOfOrder(c, s, actions, t)
    decreases Backlog(c, s.rows[n].org, s.rows) + 1
  {
    hide Publishable, KeyLess, RowOk, MarkOk, UniqueRows, Ordered, AboveLog, InLog, EnvelopeOf, Runs, OrderedRuns, Backlog;
    var org := s.rows[n].org;
    var s1 := Apply(c, s, Begin(org, {}));
    ReachesStep(c, s, Begin(org, {}));
    BatchIsTheOldestPending(s.rows, org, {}, c.batchSize);
    var b := s1.open[org].batch;
    assert Selectable(s.rows, org, {}, n);
    if n in b {
      var k :| 0 <= k < |b| && b[k] == n;
      var rest;
      rest, t := UndercutInBatch(c, s1, n, k);
      ReachesOn(c, s, [Begin(org, {})], s1, rest, t);
      actions := [Begin(org, {})] + rest;
    } else {
      var sends, u := UndercutAfterBatch(c, s1, n);
      var rest;
      BacklogIsNat(c, u, org);
      rest, t := UndercutIsSent(c, u, n);
      ReachesOn(c, s, [Begin(org, {})], s1, sends, u);
      ReachesOn(c, s, [Begin(org, {})] + sends, u, rest, t);
      actions := [Begin(org, {})] + sends + rest;
    }
  }

  lemma BacklogIsNat(c: Config, s: State, org: string)
    requires c.Valid() && Safe(c, s)
    ensures Backlog(c, org, s.rows) >= 0
  {
    assert forall i :: 0 <= i < |s.rows| ==> RowOk(c, s.log, i, s.rows[i]);
    BacklogCountsPending(c, org, s.rows);
  }

  // -- the append ---------------------------------------------------------------

  /** However the relay goes on, in steps order allows, the log stays ordered. */
  ghost predicate StaysOrdered(c: Config, s: State) {
    forall actions, t :: Reaches(c, s, actions, t) ==> LogFaithful(t.rows, t.log) && Ordered(t.rows, t.log)
  }

  lemma AllowedAppendStays(c: Config, s: State, r: Row)
    requires c.Valid() && InOrder(c, s) && AppendEnabled(s, r) && KeepsOrder(s, Append(r))
    ensures StaysOrdered(c, Apply(c, s, Append(r)))
  {
    hide Ordered, UnsentAbove, LogFaithful, KeepsOrder, OrderedRuns, TxnOrdered, TxnOk, RowOk, UniqueRows;
    var s' := Apply(c, s, Append(r));
    AppendKeepsOrder(c, s, r);
    forall actions, t | Reaches(c, s', actions, t)
      ensures LogFaithful(t.rows, t.log) && Ordered(t.rows, t.log)
    {
      RunKeepsOrder(c, s', actions);
    }
  }

  /** A row below what an open batch is still to send is below what is sent, once the batch gets that far. */
  lemma BatchOvertakes(c: Config, s: State, n: nat, k: nat) returns (actions: seq<Action>, t: State)
    requires c.Valid() && Safe(c, s) && n < |s.rows| && Publishable(s.rows[n]) && s.rows[n].status == Pending
    requires !InLog(s.log, n) && s.rows[n].org in s.open && !s.open[s.rows[n].org].stopped
    requires var tx := s.open[s.rows[n].org];
             && n !in tx.batch && tx.next <= k < |tx.batch| && tx.batch[k] < |s.rows|
             && Publishable(s.rows[tx.batch[k]]) && !KeyLess(s.rows[tx.batch[k]], s.rows[n])
    ensures Reaches(c, s, actions, t) && t.rows == s.rows && Undercut(t, n)
  {
    hide NameOk, Publishable, KeyLess, RowOk, MarkOk, UniqueRows, Ordered, EnvelopeOf, Runs, OrderedRuns, AboveLog, InLog;
    var org := s.rows[n].org;
    var b := s.open[org].batch[k];
    actions, t := DeliverUpTo(c, s, org, k + 1);
    TxnKnowsRows(c, s, org);
    assert InLog(t.log, b);
    SentIsAbove(t.rows, t.log, b, t.rows[n]);
  }

  lemma SentIsAbove(rows: seq<Row>, log: seq<Message>, b: nat, r: Row)
    requires LogFaithful(rows, log) && InLog(log, b) && b < |rows| && rows[b].org == r.org && !KeyLess(rows[b], r)
    ensures !AboveLog(rows, log, r)
  {
    hide Publishable, KeyLess;
    var i :| 0 <= i < |log| && log[i].row == b;
    SentIsOfItsOrg(rows, log, i);
  }

  lemma SentIsOfItsOrg(rows: seq<Row>, log: seq<Message>, i: nat)
    requires LogFaithful(rows, log) && i < |log|
    ensures log[i].row < |rows| && SameOrg(log[i], rows[log[i].row].org)
  {
  }

  /** Wherever an undercut event is, its org's relay can be made to send it. */
  lemma UndercutShowsUp(c: Config, s: State, n: nat) returns (actions: seq<Action>, t: State)
    requires c.Valid() && Safe(c, s) && Undercut(s, n)
    ensures EndsOutOfOrder(c, s, actions, t)
  {
    hide Publishable, Safe, Runs, OrderedRuns, Ordered, AboveLog, InLog;
    var org := s.rows[n].org;
    if org in s.open {
      ReachesStep(c, s, Crash(org));
      var u := Apply(c, s, Crash(org));
      var rest;
      rest, t := UndercutIsSent(c, u, n);
      ReachesOn(c, s, [Crash(org)], u, rest, t);
      actions := [Crash(org)] + rest;
    } else {
      actions, t := UndercutIsSent(c, s, n);
    }
  }

  /** The row is below what is sent, or an open batch will send something above it first. */
  lemma UndercuttingAppendShows(c: Config, s: State, r: Row) returns (actions: seq<Action>, t: State)
    requires c.Valid() && InOrder(c, s) && AppendEnabled(s, r) && !KeepsOrder(s, Append(r))
    ensures EndsOutOfOrder(c, Apply(c, s, Append(r)), actions, t)
  {
    hide NameOk, RowOk, MarkOk, UniqueRows, Ordered, UnsentAbove, EnvelopeOf, Runs, OrderedRuns, TxnOrdered, KeyLess;
    var n, s1 := |s.rows|, Apply(c, s, Append(r));
    AppendKeepsSafe(c, s, r);
    NewRowUnlogged(s);
    LogOfLongerTable(s.rows, s1.rows, s.log, r);
    if AboveLog(s.rows, s.log, r) {
      var tx := s.open[r.org];
      var k :| tx.next <= k < |tx.batch| && Publishable(s.rows[tx.batch[k]]) && !KeyLess(s.rows[tx.batch[k]], r);
      TxnKnowsRows(c, s, r.org);
      var sends, u := BatchOvertakes(c, s1, n, k);
      var rest;
      rest, t := UndercutShowsUp(c, u, n);
      ReachesOn(c, s1, sends, u, rest, t);
      actions := sends + rest;
    } else {
      actions, t := UndercutShowsUp(c, s1, n);
    }
  }

  /**
   * In every ordered state, for every event: whatever the relay does next in steps order allows, the log
   * stays ordered, exactly when the event lies above all its org has sent and all an open batch of it has
   * still to send (or can never be sent).
   */
  lemma AppendKeepsOrderExactly(c: Config, s: State, r: Row)
    requires c.Valid() && InOrder(c, s) && AppendEnabled(s, r)
    ensures StaysOrdered(c, Apply(c, s, Append(r))) <==> KeepsOrder(s, Append(r))
  {
    hide KeepsOrder, Ordered, Reaches, LogFaithful, RowOk, UniqueRows, UnsentAbove, TxnOrdered;
    if KeepsOrder(s, Append(r)) {
      AllowedAppendStays(c, s, r);
    } else {
      var actions, t := UndercuttingAppendShows(c, s, r);
    }
  }

  lemma NewRowUnlogged(s: State)
    requires LogFaithful(s.rows, s.log)
    ensures !InLog(s.log, |s.rows|)
  {
  }

  lemma LogOfLongerTable(rows: seq<Row>, rows': seq<Row>, log: seq<Message>, r: Row)
    requires LogFaithful(rows, log) && rows <= rows' && Ordered(rows, log)
    ensures LogFaithful(rows', log) && Ordered(rows', log)
    ensures AboveLog(rows', log, r) <==> AboveLog(rows, log, r)
  {
  }

  // -- from the empty table -----------------------------------------------------

  const EARLY := Row(1, "o", "e1", "pay.in", 1, "", 0, Pending, 0)
  const LATE := Row(2, "o", "e2", "pay.in", 1, "", 1, Pending, 0)

  lemma BothPublishable()
    ensures Publishable(EARLY) && Publishable(LATE) && !KeyLess(LATE, EARLY)
  {
    var name := "pay.in";
    assert name[3] == '.' && Lower(name[0]) && Lower(name[4]);
    assert AllAlnum(name[1..3]) && AllAlnum(name[5..]);
    assert NameOk(name);
  }

  lemma LateIsSent(c: Config, s: State)
    requires c.Valid() && s == Apply(c, START, Append(LATE)) && InOrder(c, s)
    ensures var s1 := Apply(c, s, Begin("o", {}));
            && InOrder(c, s1) && Enabled(s1, Deliver("o", Acked))
            && var t := Apply(c, s1, Deliver("o", Acked));
               t.rows == [LATE] && InOrder(c, t) && InLog(t.log, 0) && KeepsOrder(s, Begin("o", {}))
  {
    hide Publishable, Ordered, UnsentAbove, TxnOrdered, InLog, RowOk, MarkOk, KeyLess;
    var s1 := Apply(c, s, Begin("o", {}));
    BeginKeepsOrder(c, s, "o");
    BatchIsTheOldestPending(s.rows, "o", {}, c.batchSize);
    assert Selectable(s.rows, "o", {}, 0);
    var b := s1.open["o"].batch;
    assert b[0] in b && b[0] == 0;
    BothPublishable();
    DeliverOne(c, s1, "o");
    DeliverKeepsOrder(c, s1, "o", Acked);
  }

  lemma StartInOrder(c: Config)
    ensures InOrder(c, START)
  {
    StartIsSafe(c);
  }

  lemma LateRun(c: Config) returns (before: seq<Action>, s: State)
    requires c.Valid()
    ensures Reaches(c, START, before, s) && InOrder(c, s) && s.rows == [LATE] && InLog(s.log, 0)
  {
    hide Publishable, InOrder, Safe, InLog, KeyLess, OrderedRuns, Runs, KeepsOrder;
    StartInOrder(c);
    var s0 := Apply(c, START, Append(LATE));
    FirstAppendIsFine(c);
    LateIsSent(c, s0);
    var s1 := Apply(c, s0, Begin("o", {}));
    s := Apply(c, s1, Deliver("o", Acked));
    ReachesStep(c, START, Append(LATE));
    ReachesStep(c, s0, Begin("o", {}));
    ReachesDeliver(c, s1);
    ReachesOn(c, START, [Append(LATE)], s0, [Begin("o", {})], s1);
    ReachesOn(c, START, [Append(LATE)] + [Begin("o", {})], s1, [Deliver("o", Acked)], s);
    before := [Append(LATE)] + [Begin("o", {})] + [Deliver("o", Acked)];
  }

  lemma FirstAppendIsFine(c: Config)
    requires c.Valid()
    ensures Safe(c, START) && KeepsOrder(START, Append(LATE)) && InOrder(c, Apply(c, START, Append(LATE)))
  {
    hide Publishable;
    StartInOrder(c);
    AppendKeepsOrder(c, START, LATE);
  }

  lemma ReachesDeliver(c: Config, s: State)
    requires c.Valid() && InOrder(c, s) && Enabled(s, Deliver("o", Acked))
    ensures Reaches(c, s, [Deliver("o", Acked)], Apply(c, s, Deliver("o", Acked)))
  {
    hide Publishable, Ordered, UnsentAbove, TxnOrdered, OrderedRuns, Runs, Apply;
    ReachesStep(c, s, Deliver("o", Acked));
  }

  /** An event stamped before one already sent: from the empty table, the log ends out of order. */
  lemma LateAppendShows(c: Config) returns (before: seq<Action>, s: State, after: seq<Action>, t: State)
    requires c.Valid()
    ensures Reaches(c, START, before, s) && AppendEnabled(s, EARLY)
    ensures EndsOutOfOrder(c, Apply(c, s, Append(EARLY)), after, t)
  {
    hide Publishable, Ordered, UnsentAbove, TxnOrdered, InLog, RowOk, KeyLess, OrderedRuns, Runs, EndsOutOfOrder, AboveLog;
    before, s := LateRun(c);
    BothPublishable();
    SentIsAbove(s.rows, s.log, 0, EARLY);
    after, t := UndercuttingAppendShows(c, s, EARLY);
  }
}
