/** What every step of the relay keeps, and what a deduplicating consumer makes of the log. */
module OutboxSafety {
  import opened Outbox

  ghost predicate InLog(log: seq<Message>, i: nat) {
    exists k :: 0 <= k < |log| && log[k].row == i
  }

  /** The broker holds the six fields of rows: nothing re-encoded, nothing foreign. */
  ghost predicate LogFaithful(rows: seq<Row>, log: seq<Message>) {
    forall k :: 0 <= k < |log| ==> log[k].row < |rows| && Carries(log[k].envelope, rows[log[k].row])
  }

  ghost predicate RowOk(c: Config, log: seq<Message>, i: nat, r: Row) {
    && (r.status == Pending ==> r.attempts < c.maxAttempts)
    && (r.status == Published ==> InLog(log, i) && 1 <= r.attempts <= c.maxAttempts)
    && (if Publishable(r) then r.status == Poisoned ==> r.attempts == c.maxAttempts
        else r.attempts == 0 && r.status != Published)
  }

  ghost predicate MarkOk(c: Config, log: seq<Message>, i: nat, r: Row, m: Mark) {
    && (m == MarkFor(r, Acked, c.maxAttempts) || m == MarkFor(r, Refused, c.maxAttempts))
    && (m.status == Published ==> InLog(log, i))
  }

  ghost predicate TxnOk(c: Config, rows: seq<Row>, log: seq<Message>, org: string, t: Txn) {
    && SortedByKey(rows, t.batch) && t.next <= |t.batch| && (t.stopped ==> t.next >= 1)
    && (forall i :: i in t.batch ==> rows[i].status == Pending && rows[i].org == org)
    && (forall i :: i in t.marks <==> i in t.batch[..t.next])
    && (forall i :: i in t.marks ==> MarkOk(c, log, i, rows[i], t.marks[i]))
  }

  ghost predicate Safe(c: Config, s: State) {
    && UniqueRows(s.rows) && LogFaithful(s.rows, s.log)
    && (forall i :: 0 <= i < |s.rows| ==> RowOk(c, s.log, i, s.rows[i]))
    && (forall org :: org in s.open ==> TxnOk(c, s.rows, s.log, org, s.open[org]))
  }

  lemma AppendKeepsSafe(c: Config, s: State, r: Row)
    requires c.Valid() && Safe(c, s) && AppendEnabled(s, r)
    ensures Safe(c, Apply(c, s, Append(r)))
  {
  }

  lemma BeginKeepsSafe(c: Config, s: State, org: string, locked: set<nat>)
    requires c.Valid() && Safe(c, s) && org !in s.open
    ensures Safe(c, Apply(c, s, Begin(org, locked)))
  {
    BatchIsTheOldestPending(s.rows, org, locked, c.batchSize);
  }

  lemma LogGrows(log: seq<Message>, m: Message)
    ensures forall i :: InLog(log, i) ==> InLog(log + [m], i)
    ensures InLog(log + [m], m.row)
    ensures forall i :: InLog(log + [m], i) ==> i == m.row || InLog(log, i)
  {
    forall i | InLog(log, i)
      ensures InLog(log + [m], i)
    {
      var k :| 0 <= k < |log| && log[k].row == i;
      assert (log + [m])[k].row == i;
    }
    assert (log + [m])[|log|] == m;
  }

  /** Only `status` and `attempts` may differ. */
  ghost predicate SameEvent(r: Row, r': Row) {
    r.(status := r'.status, attempts := r'.attempts) == r'
  }

  ghost predicate SameEvents(rows: seq<Row>, rows': seq<Row>) {
    |rows| <= |rows'| && forall i :: 0 <= i < |rows| ==> SameEvent(rows[i], rows'[i])
  }

  lemma SameEventsKeepTable(rows: seq<Row>, rows': seq<Row>, log: seq<Message>)
    requires UniqueRows(rows) && LogFaithful(rows, log) && SameEvents(rows, rows') && |rows| == |rows'|
    ensures UniqueRows(rows') && LogFaithful(rows', log)
  {
  }

  /** A transaction does not notice changes to rows outside its batch, nor a longer log. */
  lemma TxnFrame(c: Config, rows: seq<Row>, rows': seq<Row>, log: seq<Message>, log': seq<Message>, org: string, t: Txn)
    requires TxnOk(c, rows, log, org, t)
    requires |rows| <= |rows'| && forall i :: i in t.batch ==> rows'[i] == rows[i]
    requires forall i :: InLog(log, i) ==> InLog(log', i)
    ensures TxnOk(c, rows', log', org, t)
  {
    hide Publishable;
    forall i | i in t.marks
      ensures MarkOk(c, log', i, rows'[i], t.marks[i])
    {
      assert i in t.batch[..t.next];
      assert i in t.batch;
    }
  }

  lemma DeliverKeepsTxn(c: Config, s: State, org: string, ack: Ack)
    requires Safe(c, s) && Enabled(s, Deliver(org, ack))
    ensures var s' := Delivered(c, s, org, ack);
            TxnOk(c, s'.rows, s'.log, org, s'.open[org])
  {
    hide Publishable, EnvelopeOf, UniqueRows, LogFaithful, RowOk, InLog;
    var t := s.open[org];
    var i := t.batch[t.next];
    var s' := Delivered(c, s, org, ack);
    var t' := s'.open[org];
    LogGrows(s.log, Message(i, EnvelopeOf(s.rows[i])));
    assert i in t.batch;
    assert t.batch[..t.next + 1] == t.batch[..t.next] + [i];
    forall j | j in t'.marks
      ensures MarkOk(c, s'.log, j, s'.rows[j], t'.marks[j])
    {
      if j != i {
        assert MarkOk(c, s.log, j, s.rows[j], t.marks[j]);
      }
    }
  }

  lemma DeliverKeepsSafe(c: Config, s: State, org: string, ack: Ack)
    requires Safe(c, s) && Enabled(s, Deliver(org, ack))
    ensures Safe(c, Apply(c, s, Deliver(org, ack)))
  {
    hide Publishable, MarkFor, TxnOk;
    var t := s.open[org];
    var i := t.batch[t.next];
    var s' := Delivered(c, s, org, ack);
    LogGrows(s.log, Message(i, EnvelopeOf(s.rows[i])));
    DeliverKeepsTxn(c, s, org, ack);
    forall o | o in s'.open
      ensures TxnOk(c, s'.rows, s'.log, o, s'.open[o])
    {
      if o != org {
        TxnKnowsRows(c, s, o);
        TxnFrame(c, s.rows, s'.rows, s.log, s'.log, o, s.open[o]);
      }
    }
  }

  lemma TxnKnowsRows(c: Config, s: State, org: string)
    requires Safe(c, s) && org in s.open
    ensures forall i :: i in s.open[org].batch ==>
              i < |s.rows| && s.rows[i].status == Pending && s.rows[i].org == org
    ensures forall i :: i in s.open[org].marks ==>
              i in s.open[org].batch && MarkOk(c, s.log, i, s.rows[i], s.open[org].marks[i])
  {
  }

  lemma MarkKeepsRow(c: Config, log: seq<Message>, i: nat, r: Row, m: Mark)
    requires RowOk(c, log, i, r) && r.status == Pending && MarkOk(c, log, i, r, m)
    ensures RowOk(c, log, i, r.(status := m.status, attempts := m.attempts))
  {
    hide NameOk, InLog;
  }

  lemma CommitKeepsRows(c: Config, s: State, org: string)
    requires Safe(c, s) && Enabled(s, Commit(org))
    ensures forall i :: 0 <= i < |s.rows| ==> RowOk(c, s.log, i, Marked(s.rows, s.open[org].marks)[i])
  {
    hide RowOk, MarkOk, UniqueRows, LogFaithful, TxnOk, SortedByKey;
    var t := s.open[org];
    TxnKnowsRows(c, s, org);
    forall i | 0 <= i < |s.rows|
      ensures RowOk(c, s.log, i, Marked(s.rows, t.marks)[i])
    {
      if i in t.marks {
        MarkKeepsRow(c, s.log, i, s.rows[i], t.marks[i]);
      }
    }
  }

  lemma CommitKeepsSafe(c: Config, s: State, org: string)
    requires Safe(c, s) && Enabled(s, Commit(org))
    ensures Safe(c, Apply(c, s, Commit(org)))
  {
    hide TxnOk, RowOk, UniqueRows, LogFaithful, InLog;
    var s' := Apply(c, s, Commit(org));
    SameEventsKeepTable(s.rows, s'.rows, s.log);
    CommitKeepsRows(c, s, org);
    TxnKnowsRows(c, s, org);
    forall o | o in s'.open
      ensures TxnOk(c, s'.rows, s'.log, o, s'.open[o])
    {
      TxnKnowsRows(c, s, o);
      TxnFrame(c, s.rows, s'.rows, s.log, s'.log, o, s.open[o]);
    }
  }

  lemma ReplayKeepsSafe(c: Config, s: State, targets: set<nat>)
    requires c.Valid() && Safe(c, s) && Enabled(s, Replay(targets))
    ensures Safe(c, Apply(c, s, Replay(targets)))
  {
    hide Publishable, TxnOk;
    var s' := Apply(c, s, Replay(targets));
    SameEventsKeepTable(s.rows, s'.rows, s.log);
    forall o | o in s'.open
      ensures TxnOk(c, s'.rows, s'.log, o, s'.open[o])
    {
      TxnKnowsRows(c, s, o);
      TxnFrame(c, s.rows, s'.rows, s.log, s'.log, o, s.open[o]);
    }
  }

  lemma StepKeepsSafe(c: Config, s: State, a: Action)
    requires c.Valid() && Safe(c, s) && Enabled(s, a)
    ensures Safe(c, Apply(c, s, a))
  {
    match a
    case Append(r) => AppendKeepsSafe(c, s, r);
    case Begin(org, locked) => BeginKeepsSafe(c, s, org, locked);
    case Deliver(org, ack) => DeliverKeepsSafe(c, s, org, ack);
    case Commit(org) => CommitKeepsSafe(c, s, org);
    case Crash(org) =>
    case Replay(targets) => ReplayKeepsSafe(c, s, targets);
  }

  lemma {:induction false} RunKeepsSafe(c: Config, s: State, actions: seq<Action>)
    requires c.Valid() && Safe(c, s) && Runs(c, s, actions)
    ensures Safe(c, Final(c, s, actions))
    decreases actions
  {
    if actions != [] {
      StepKeepsSafe(c, s, actions[0]);
      RunKeepsSafe(c, Apply(c, s, actions[0]), actions[1..]);
    }
  }

  // -- the consumer -------------------------------------------------------------

  predicate SameKey(m: Message, m': Message) {
    m.envelope.org == m'.envelope.org && m.envelope.eventId == m'.envelope.eventId
  }

  predicate Seen(accepted: seq<Message>, m: Message) {
    exists k :: 0 <= k < |accepted| && SameKey(accepted[k], m)
  }

  /** What a consumer that deduplicates on (org, eventId) accepts, in arrival order. */
  function Accepted(log: seq<Message>): seq<Message> {
    if log == [] then []
    else
      var before := Accepted(log[..|log| - 1]);
      var m := log[|log| - 1];
      if Seen(before, m) then before else before + [m]
  }

  lemma SameKeySameRow(rows: seq<Row>, log: seq<Message>, i: nat, j: nat)
    requires UniqueRows(rows) && LogFaithful(rows, log) && i < |log| && j < |log|
    ensures SameKey(log[i], log[j]) <==> log[i].row == log[j].row
  {
  }

  /** The consumer accepts exactly the events of the log, each once. */
  lemma {:induction false} AcceptedOnce(rows: seq<Row>, log: seq<Message>)
    requires UniqueRows(rows) && LogFaithful(rows, log)
    ensures LogFaithful(rows, Accepted(log))
    ensures forall i :: InLog(log, i) <==> InLog(Accepted(log), i)
    ensures forall i, j :: 0 <= i < j < |Accepted(log)| ==> !SameKey(Accepted(log)[i], Accepted(log)[j])
  {
    if log != [] {
      var n := |log| - 1;
      var m := log[n];
      var before := Accepted(log[..n]);
      AcceptedOnce(rows, log[..n]);
      assert log == log[..n] + [m];
      LogGrows(log[..n], m);
      LogGrows(before, m);
      var all := before + [m];
      assert LogFaithful(rows, all);
      if Seen(before, m) {
        var k :| 0 <= k < |before| && SameKey(before[k], m);
        assert all[k] == before[k] && all[|before|] == m;
        SameKeySameRow(rows, all, k, |before|);
      }
    }
  }

  lemma LoggedIsSeen(rows: seq<Row>, log: seq<Message>, m: Message)
    requires LogFaithful(rows, log) && m.row < |rows| && Carries(m.envelope, rows[m.row])
    ensures InLog(log, m.row) ==> Seen(log, m)
  {
  }

  lemma StartIsSafe(c: Config)
    ensures Safe(c, START)
  {
  }

  /** Some message has the row's event id, name, version, org, instant and payload. */
  ghost predicate Received(log: seq<Message>, r: Row) {
    exists k :: 0 <= k < |log| && Carries(log[k].envelope, r)
  }

  /**
   * Safety of every run, with appends, competing relays, broker failures, crashes and replays: a
   * published event is in the broker log with its own six fields and is accepted exactly once;
   * nothing else is in the log; a pending row has budget left; a poisoned row has spent exactly its
   * budget, or none of it if it has no subject.
   */
  lemma RelayIsSafe(c: Config, actions: seq<Action>)
    requires c.Valid() && Runs(c, START, actions)
    ensures var s := Final(c, START, actions);
            var accepted := Accepted(s.log);
            && LogFaithful(s.rows, s.log) && LogFaithful(s.rows, accepted)
            && (forall i :: 0 <= i < |s.rows| && s.rows[i].status == Published ==> Received(accepted, s.rows[i]))
            && (forall i, j :: 0 <= i < j < |accepted| ==> !SameKey(accepted[i], accepted[j]))
            && (forall i :: 0 <= i < |s.rows| && s.rows[i].status == Pending ==> s.rows[i].attempts < c.maxAttempts)
            && (forall i :: 0 <= i < |s.rows| && s.rows[i].status == Poisoned ==>
                  s.rows[i].attempts == if Publishable(s.rows[i]) then c.maxAttempts else 0)
  {
    StartIsSafe(c);
    RunKeepsSafe(c, START, actions);
    var s := Final(c, START, actions);
    AcceptedOnce(s.rows, s.log);
    forall i | 0 <= i < |s.rows| && s.rows[i].status == Published
      ensures Received(Accepted(s.log), s.rows[i])
    {
      assert RowOk(c, s.log, i, s.rows[i]);
      var k :| 0 <= k < |Accepted(s.log)| && Accepted(s.log)[k].row == i;
    }
    assert forall i :: 0 <= i < |s.rows| ==> RowOk(c, s.log, i, s.rows[i]);
  }

  /** Neither the relay nor a replay adds, drops or rewrites an event; only appends lengthen the table. */
  lemma {:induction false} RunKeepsEvents(c: Config, s: State, actions: seq<Action>)
    requires Runs(c, s, actions)
    ensures SameEvents(s.rows, Final(c, s, actions).rows)
    ensures (forall k :: 0 <= k < |actions| ==> !actions[k].Append?) ==> |Final(c, s, actions).rows| == |s.rows|
    decreases actions
  {
    if actions != [] {
      var s' := Apply(c, s, actions[0]);
      RunKeepsEvents(c, s', actions[1..]);
      assert SameEvents(s.rows, s'.rows);
    }
  }
}
