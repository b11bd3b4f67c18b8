/** Per-org order: what keeps it, what consumers see of it, and the one thing that breaks it. */
module OutboxOrder {
  import opened Outbox
  import opened OutboxSafety

  predicate SameOrg(m: Message, org: string) { m.envelope.org == org }

  /** Every first occurrence of an event comes, in key order, after all its org sent before. */
  ghost predicate Ordered(rows: seq<Row>, log: seq<Message>)
    requires LogFaithful(rows, log)
  {
    forall i, j :: 0 <= i < j < |log| && SameOrg(log[i], log[j].envelope.org) && !InLog(log[..j], log[j].row) ==>
      KeyLess(rows[log[i].row], rows[log[j].row])
  }

  ghost predicate AboveLog(rows: seq<Row>, log: seq<Message>, r: Row)
    requires LogFaithful(rows, log)
  {
    forall k :: 0 <= k < |log| && SameOrg(log[k], r.org) ==> KeyLess(rows[log[k].row], r)
  }

  /** Pending events the broker has never seen all lie above what their org has sent. */
  ghost predicate UnsentAbove(rows: seq<Row>, log: seq<Message>)
    requires LogFaithful(rows, log)
  {
    forall i :: 0 <= i < |rows| && rows[i].status == Pending && Publishable(rows[i]) && !InLog(log, i) ==>
      AboveLog(rows, log, rows[i])
  }

  /** The row lies above whatever an open batch has still to send. */
  ghost predicate AboveRest(rows: seq<Row>, t: Txn, r: Row)
    requires forall k :: 0 <= k < |t.batch| ==> t.batch[k] < |rows|
  {
    forall k :: t.next <= k < |t.batch| && Publishable(rows[t.batch[k]]) ==> KeyLess(rows[t.batch[k]], r)
  }

  /** While a batch goes on, what it has handled is sent, and what it left out comes after the rest of it. */
  ghost predicate TxnOrdered(rows: seq<Row>, log: seq<Message>, org: string, t: Txn)
    requires SortedByKey(rows, t.batch) && t.next <= |t.batch|
  {
    !t.stopped ==>
      && (forall k :: 0 <= k < t.next ==> !Publishable(rows[t.batch[k]]) || InLog(log, t.batch[k]))
      && (forall i ::
            0 <= i < |rows| && rows[i].status == Pending && rows[i].org == org && Publishable(rows[i]) && i !in t.batch
            ==> AboveRest(rows, t, rows[i]))
  }

  ghost predicate InOrder(c: Config, s: State) {
    && Safe(c, s) && Ordered(s.rows, s.log) && UnsentAbove(s.rows, s.log)
    && (forall org :: org in s.open ==> TxnOrdered(s.rows, s.log, org, s.open[org]))
  }

  /**
   * What order asks of the environment: no replay, no foreign row locks, and no publishable append that
   * lands below an event its org has already sent or an open batch is still to send.
   */
  ghost predicate KeepsOrder(s: State, a: Action)
    requires LogFaithful(s.rows, s.log)
    requires forall org, k :: org in s.open && 0 <= k < |s.open[org].batch| ==> s.open[org].batch[k] < |s.rows|
  {
    match a
    case Append(r) =>
      Publishable(r) ==>
        && AboveLog(s.rows, s.log, r)
        && (r.org in s.open && !s.open[r.org].stopped ==> AboveRest(s.rows, s.open[r.org], r))
    case Begin(org, locked) => locked == {}
    case Replay(targets) => false
    case _ => true
  }

  lemma AppendKeepsOrder(c: Config, s: State, r: Row)
    requires c.Valid() && InOrder(c, s) && AppendEnabled(s, r) && KeepsOrder(s, Append(r))
    ensures InOrder(c, Apply(c, s, Append(r)))
  {
    hide Publishable, EnvelopeOf;
    AppendKeepsSafe(c, s, r);
    var s' := Apply(c, s, Append(r));
    assert forall i :: 0 <= i < |s.rows| ==> s'.rows[i] == s.rows[i];
    forall org | org in s'.open
      ensures TxnOrdered(s'.rows, s'.log, org, s'.open[org])
    {
      assert TxnOrdered(s.rows, s.log, org, s.open[org]);
      TxnKnowsRows(c, s, org);
    }
  }

  lemma BeginKeepsOrder(c: Config, s: State, org: string)
    requires c.Valid() && InOrder(c, s) && org !in s.open
    ensures InOrder(c, Apply(c, s, Begin(org, {})))
  {
    hide Publishable, EnvelopeOf;
    BeginKeepsSafe(c, s, org, {});
    BatchIsTheOldestPending(s.rows, org, {}, c.batchSize);
    var s' := Apply(c, s, Begin(org, {}));
    var b := s'.open[org].batch;
    forall i | 0 <= i < |s.rows| && s.rows[i].status == Pending && s.rows[i].org == org && i !in b
      ensures AboveRest(s.rows, s'.open[org], s.rows[i])
    {
      assert Selectable(s.rows, org, {}, i);
    }
  }

  /** A message is in order exactly when it repeats an event or lies above all its org sent before. */
  lemma SendKeepsOrderExactly(rows: seq<Row>, log: seq<Message>, i: nat)
    requires LogFaithful(rows, log) && Ordered(rows, log) && i < |rows|
    ensures LogFaithful(rows, log + [Message(i, EnvelopeOf(rows[i]))])
    ensures Ordered(rows, log + [Message(i, EnvelopeOf(rows[i]))]) <==> InLog(log, i) || AboveLog(rows, log, rows[i])
  {
    hide Publishable;
    var m := Message(i, EnvelopeOf(rows[i]));
    var log' := log + [m];
    assert log'[..|log|] == log;
    assert forall j :: 0 <= j < |log| ==> log'[j] == log[j] && log'[..j] == log[..j];
    if Ordered(rows, log') && !InLog(log, i) {
      forall k | 0 <= k < |log| && SameOrg(log[k], rows[i].org)
        ensures KeyLess(rows[log[k].row], rows[i])
      {
        assert log'[k] == log[k] && log'[|log|] == m;
        assert SameOrg(log'[k], log'[|log|].envelope.org) && !InLog(log'[..|log|], log'[|log|].row);
      }
    }
  }

  /** Nothing pending and unsent lies below the row a batch is about to send. */
  lemma HeadIsLowest(c: Config, s: State, org: string, i: nat)
    requires InOrder(c, s) && org in s.open && !s.open[org].stopped && s.open[org].next < |s.open[org].batch|
    requires Publishable(s.rows[s.open[org].batch[s.open[org].next]])
    requires i < |s.rows| && s.rows[i].status == Pending && s.rows[i].org == org
    requires Publishable(s.rows[i]) && !InLog(s.log, i) && i != s.open[org].batch[s.open[org].next]
    ensures KeyLess(s.rows[s.open[org].batch[s.open[org].next]], s.rows[i])
  {
    hide Publishable, LogFaithful, UniqueRows, RowOk, MarkOk, InLog;
    var t := s.open[org];
    assert TxnOrdered(s.rows, s.log, org, t);
    if i in t.batch {
      var k :| 0 <= k < |t.batch| && t.batch[k] == i;
      assert k > t.next;
    } else {
      assert AboveRest(s.rows, t, s.rows[i]);
    }
  }

  lemma DeliverKeepsUnsentAbove(c: Config, s: State, org: string, ack: Ack)
    requires c.Valid() && InOrder(c, s) && Enabled(s, Deliver(org, ack))
    ensures var s' := Delivered(c, s, org, ack);
            LogFaithful(s'.rows, s'.log) && Ordered(s'.rows, s'.log) && UnsentAbove(s'.rows, s'.log)
  {
    hide Publishable, KeyLess, MarkFor, RowOk, MarkOk, UniqueRows;
    var t := s.open[org];
    var h := t.batch[t.next];
    var r := s.rows[h];
    var s' := Delivered(c, s, org, ack);
    TxnKnowsRows(c, s, org);
    assert h in t.batch;
    if Stores(r, ack) {
      LogGrows(s.log, Message(h, EnvelopeOf(r)));
      assert !InLog(s.log, h) ==> AboveLog(s.rows, s.log, r);
      SendKeepsOrderExactly(s.rows, s.log, h);
      forall i | 0 <= i < |s.rows| && s.rows[i].status == Pending && Publishable(s.rows[i]) && !InLog(s'.log, i)
        ensures AboveLog(s'.rows, s'.log, s.rows[i])
      {
        assert AboveLog(s.rows, s.log, s.rows[i]);
        if s.rows[i].org == org {
          HeadIsLowest(c, s, org, i);
        }
      }
    }
  }

  lemma LongerLogKeepsTxnOrdered(rows: seq<Row>, log: seq<Message>, log': seq<Message>, org: string, t: Txn)
    requires SortedByKey(rows, t.batch) && t.next <= |t.batch| && TxnOrdered(rows, log, org, t)
    requires forall i :: InLog(log, i) ==> InLog(log', i)
    ensures TxnOrdered(rows, log', org, t)
  {
  }

  lemma DeliverKeepsTxnOrdered(c: Config, s: State, org: string, ack: Ack)
    requires Safe(c, s) && Enabled(s, Deliver(org, ack)) && TxnOrdered(s.rows, s.log, org, s.open[org])
    ensures var s' := Delivered(c, s, org, ack);
            && SortedByKey(s'.rows, s'.open[org].batch) && s'.open[org].next <= |s'.open[org].batch|
            && TxnOrdered(s'.rows, s'.log, org, s'.open[org])
  {
    hide Publishable, KeyLess, MarkFor, UniqueRows, LogFaithful, InLog, EnvelopeOf, RowOk, MarkOk;
    var t := s.open[org];
    LogGrows(s.log, Message(t.batch[t.next], EnvelopeOf(s.rows[t.batch[t.next]])));
  }

  lemma DeliverKeepsOrder(c: Config, s: State, org: string, ack: Ack)
    requires c.Valid() && InOrder(c, s) && Enabled(s, Deliver(org, ack))
    ensures InOrder(c, Apply(c, s, Deliver(org, ack)))
  {
    hide Publishable, MarkFor, TxnOrdered, SortedByKey, UniqueRows, LogFaithful, InLog, EnvelopeOf, Ordered, UnsentAbove, RowOk;
    DeliverKeepsSafe(c, s, org, ack);
    DeliverKeepsUnsentAbove(c, s, org, ack);
    var t := s.open[org];
    var h := t.batch[t.next];
    var s' := Delivered(c, s, org, ack);
    LogGrows(s.log, Message(h, EnvelopeOf(s.rows[h])));
    DeliverKeepsTxnOrdered(c, s, org, ack);
    forall o | o in s'.open
      ensures TxnOrdered(s'.rows, s'.log, o, s'.open[o])
    {
      if o != org {
        LongerLogKeepsTxnOrdered(s.rows, s.log, s'.log, o, s.open[o]);
      }
    }
  }

  lemma CommitKeepsOrder(c: Config, s: State, org: string)
    requires c.Valid() && InOrder(c, s) && Enabled(s, Commit(org))
    ensures InOrder(c, Apply(c, s, Commit(org)))
  {
    hide Publishable, UniqueRows, LogFaithful, InLog, Ordered, UnsentAbove, TxnOrdered, RowOk, TxnOk;
    CommitKeepsSafe(c, s, org);
    var s' := Apply(c, s, Commit(org));
    TxnKnowsRows(c, s, org);
    FewerPendingKeepsOrder(c, s, s');
  }

  lemma FewerPendingKeepsOrder(c: Config, s: State, s': State)
    requires InOrder(c, s) && Safe(c, s') && s'.log == s.log && |s'.rows| == |s.rows|
    requires SameEvents(s.rows, s'.rows)
    requires forall i :: 0 <= i < |s.rows| && s'.rows[i].status == Pending ==> s.rows[i].status == Pending
    requires forall o :: o in s'.open ==> o in s.open && s'.open[o] == s.open[o]
    ensures InOrder(c, s')
  {
    hide NameOk, MarkFor, RowOk, MarkOk, UniqueRows, InLog, EnvelopeOf;
    forall i | 0 <= i < |s'.rows| && s'.rows[i].status == Pending && Publishable(s'.rows[i]) && !InLog(s'.log, i)
      ensures AboveLog(s'.rows, s'.log, s'.rows[i])
    {
      assert AboveLog(s.rows, s.log, s.rows[i]);
    }
    forall o | o in s'.open
      ensures TxnOrdered(s'.rows, s'.log, o, s'.open[o])
    {
      FewerPendingKeepsTxnOrdered(s.rows, s'.rows, s.log, o, s.open[o]);
    }
  }

  lemma FewerPendingKeepsTxnOrdered(rows: seq<Row>, rows': seq<Row>, log: seq<Message>, org: string, t: Txn)
    requires SortedByKey(rows, t.batch) && SortedByKey(rows', t.batch) && t.next <= |t.batch|
    requires TxnOrdered(rows, log, org, t) && |rows'| == |rows| && SameEvents(rows, rows')
    requires forall i :: 0 <= i < |rows| && rows'[i].status == Pending ==> rows[i].status == Pending
    ensures TxnOrdered(rows', log, org, t)
  {
  }

  lemma StepKeepsOrder(c: Config, s: State, a: Action)
    requires c.Valid() && InOrder(c, s) && Enabled(s, a) && KeepsOrder(s, a)
    ensures InOrder(c, Apply(c, s, a))
  {
    match a
    case Append(r) => AppendKeepsOrder(c, s, r);
    case Begin(org, locked) => BeginKeepsOrder(c, s, org);
    case Deliver(org, ack) => DeliverKeepsOrder(c, s, org, ack);
    case Commit(org) => CommitKeepsOrder(c, s, org);
    case Crash(org) =>
  }

  ghost predicate OrderedRuns(c: Config, s: State, actions: seq<Action>)
    requires Safe(c, s) && c.Valid()
    decreases actions
  {
    actions == [] ||
    (&& Enabled(s, actions[0]) && KeepsOrder(s, actions[0])
     && var s' := Apply(c, s, actions[0]);
        StepKeepsSafe(c, s, actions[0]);
        OrderedRuns(c, s', actions[1..]))
  }

  lemma {:induction false} RunKeepsOrder(c: Config, s: State, actions: seq<Action>)
    requires c.Valid() && InOrder(c, s) && OrderedRuns(c, s, actions)
    ensures Runs(c, s, actions) && InOrder(c, Final(c, s, actions))
    decreases actions
  {
    if actions != [] {
      StepKeepsOrder(c, s, actions[0]);
      RunKeepsOrder(c, Apply(c, s, actions[0]), actions[1..]);
    }
  }

  ghost predicate InKeyOrder(rows: seq<Row>, log: seq<Message>)
    requires LogFaithful(rows, log)
  {
    forall i, j :: 0 <= i < j < |log| && SameOrg(log[i], log[j].envelope.org) ==>
      KeyLess(rows[log[i].row], rows[log[j].row])
  }

  lemma OrderedPrefix(rows: seq<Row>, log: seq<Message>, n: nat)
    requires LogFaithful(rows, log) && Ordered(rows, log) && n <= |log|
    ensures LogFaithful(rows, log[..n]) && Ordered(rows, log[..n])
  {
    assert forall j :: 0 <= j < n ==> log[..n][j] == log[j] && log[..n][..j] == log[..j];
  }

  lemma FirstSeenIsAbove(rows: seq<Row>, log: seq<Message>, before: seq<Message>, m: Message)
    requires LogFaithful(rows, log + [m]) && Ordered(rows, log + [m]) && LogFaithful(rows, before)
    requires forall i :: InLog(log, i) <==> InLog(before, i)
    requires !Seen(before, m) && m.row < |rows| && m.envelope == EnvelopeOf(rows[m.row])
    ensures LogFaithful(rows, before + [m])
    ensures AboveLog(rows, before, rows[m.row])
  {
    var all := log + [m];
    assert all[|log|] == m && all[..|log|] == log;
    LoggedIsSeen(rows, before, m);
    forall i | 0 <= i < |before| && SameOrg(before[i], rows[m.row].org)
      ensures KeyLess(rows[before[i].row], rows[m.row])
    {
      assert InLog(before, before[i].row);
      var k :| 0 <= k < |log| && log[k].row == before[i].row;
      assert all[k] == log[k];
    }
  }

  /** In an ordered log the accepted stream of each org is strictly increasing in (created_at, id). */
  lemma {:induction false} AcceptedInOrder(rows: seq<Row>, log: seq<Message>)
    requires UniqueRows(rows) && LogFaithful(rows, log) && Ordered(rows, log)
    ensures LogFaithful(rows, Accepted(log)) && InKeyOrder(rows, Accepted(log))
  {
    AcceptedOnce(rows, log);
    if log != [] {
      hide KeyLess, Ordered, UniqueRows;
      var n := |log| - 1;
      var m := log[n];
      OrderedPrefix(rows, log, n);
      AcceptedInOrder(rows, log[..n]);
      AcceptedOnce(rows, log[..n]);
      assert log == log[..n] + [m];
      if !Seen(Accepted(log[..n]), m) {
        FirstSeenIsAbove(rows, log[..n], Accepted(log[..n]), m);
      }
    }
  }

  /** In every run without replay and without undercutting appends, consumers see each org in append order. */
  lemma RelayKeepsOrder(c: Config, actions: seq<Action>)
    requires c.Valid() && Safe(c, START) && OrderedRuns(c, START, actions)
    ensures Runs(c, START, actions)
    ensures var s := Final(c, START, actions);
            var accepted := Accepted(s.log);
            && LogFaithful(s.rows, s.log) && Ordered(s.rows, s.log)
            && LogFaithful(s.rows, accepted) && InKeyOrder(s.rows, accepted)
  {
    StartIsSafe(c);
    RunKeepsOrder(c, START, actions);
    var s := Final(c, START, actions);
    AcceptedInOrder(s.rows, s.log);
  }
}
