/** The relay's progress measure: publish attempts left on an org's pending rows. */
module OutboxDrain {
  import opened Outbox
  import opened OutboxSafety

  function Weight(c: Config, org: string, r: Row): int {
    if r.status == Pending && r.org == org then c.maxAttempts - r.attempts else 0
  }

  /** The publish attempts an org's pending rows have left. */
  function Backlog(c: Config, org: string, rows: seq<Row>): int {
    if rows == [] then 0 else Backlog(c, org, rows[..|rows| - 1]) + Weight(c, org, rows[|rows| - 1])
  }

  lemma {:induction false} BacklogShrinks(c: Config, org: string, rows: seq<Row>, rows': seq<Row>, spent: set<nat>)
    requires |rows'| == |rows|
    requires forall i :: 0 <= i < |rows| ==>
               Weight(c, org, rows'[i]) <= Weight(c, org, rows[i]) - (if i in spent then 1 else 0)
    ensures Backlog(c, org, rows') <= Backlog(c, org, rows)
    ensures (exists i :: 0 <= i < |rows| && i in spent) ==> Backlog(c, org, rows') < Backlog(c, org, rows)
  {
    if rows != [] {
      var n := |rows| - 1;
      assert forall i :: 0 <= i < n ==> rows[..n][i] == rows[i] && rows'[..n][i] == rows'[i];
      BacklogShrinks(c, org, rows[..n], rows'[..n], spent);
      if i :| 0 <= i < |rows| && i in spent {
        assert i == n || (i < |rows[..n]| && i in spent);
      }
    }
  }

  lemma {:induction false} BacklogCountsPending(c: Config, org: string, rows: seq<Row>)
    requires forall i :: 0 <= i < |rows| && rows[i].status == Pending ==> rows[i].attempts < c.maxAttempts
    ensures Backlog(c, org, rows) >= 0
    ensures Backlog(c, org, rows) == 0 <==> forall i :: 0 <= i < |rows| && rows[i].org == org ==> rows[i].status != Pending
  {
    if rows != [] {
      var n := |rows| - 1;
      assert forall i :: 0 <= i < n ==> rows[..n][i] == rows[i];
      BacklogCountsPending(c, org, rows[..n]);
    }
  }

  lemma MarkSpendsAttempt(c: Config, log: seq<Message>, i: nat, org: string, r: Row, m: Mark)
    requires RowOk(c, log, i, r) && MarkOk(c, log, i, r, m) && r.status == Pending && r.org == org
    ensures Weight(c, org, r.(status := m.status, attempts := m.attempts)) < Weight(c, org, r)
  {
    hide Publishable, InLog;
  }

  /** Whatever the broker answered, committing a batch that took any row strictly lowers the backlog. */
  lemma CommitDrains(c: Config, s: State, org: string)
    requires c.Valid() && Safe(c, s) && Enabled(s, Commit(org))
    ensures var s' := Apply(c, s, Commit(org));
            && Backlog(c, org, s'.rows) <= Backlog(c, org, s.rows)
            && (s.open[org].batch != [] ==> Backlog(c, org, s'.rows) < Backlog(c, org, s.rows))
  {
    hide RowOk, MarkOk, UniqueRows, LogFaithful, Weight, SortedByKey;
    var t := s.open[org];
    var s' := Apply(c, s, Commit(org));
    TxnKnowsRows(c, s, org);
    forall i | 0 <= i < |s.rows|
      ensures Weight(c, org, s'.rows[i]) <= Weight(c, org, s.rows[i]) - (if i in t.marks.Keys then 1 else 0)
    {
      if i in t.marks {
        MarkSpendsAttempt(c, s.log, i, org, s.rows[i], t.marks[i]);
      }
    }
    BacklogShrinks(c, org, s.rows, s'.rows, t.marks.Keys);
    if t.batch != [] {
      assert t.batch[..t.next][0] == t.batch[0];
      assert t.batch[0] in t.marks.Keys;
    }
  }

  lemma OtherCommitKeepsBacklog(c: Config, s: State, org: string, other: string)
    requires c.Valid() && Safe(c, s) && Enabled(s, Commit(other)) && other != org
    ensures Backlog(c, org, Apply(c, s, Commit(other)).rows) <= Backlog(c, org, s.rows)
  {
    TxnKnowsRows(c, s, other);
    BacklogShrinks(c, org, s.rows, Apply(c, s, Commit(other)).rows, {});
  }

  /** The batches of `org` that a run commits with at least one row in them. */
  ghost function Drained(c: Config, s: State, actions: seq<Action>, org: string): nat
    requires Runs(c, s, actions)
    decreases actions
  {
    if actions == [] then 0
    else (if actions[0] == Commit(org) && s.open[org].batch != [] then 1 else 0)
         + Drained(c, Apply(c, s, actions[0]), actions[1..], org)
  }

  /**
   * Without appends or replay an org can have at most as many non-empty batches committed as its
   * backlog counts; once that is spent nothing of it is pending, and until then a relay that takes
   * the org's lock finds work.
   */
  lemma {:induction false} BacklogEmpties(c: Config, s: State, actions: seq<Action>, org: string)
    requires c.Valid() && Safe(c, s) && Runs(c, s, actions)
    requires forall k :: 0 <= k < |actions| ==> !actions[k].Append? && !actions[k].Replay?
    ensures var s' := Final(c, s, actions);
            && 0 <= Backlog(c, org, s'.rows)
            && Drained(c, s, actions, org) + Backlog(c, org, s'.rows) <= Backlog(c, org, s.rows)
            && (Backlog(c, org, s'.rows) == 0 <==> Batch(s'.rows, org, {}, c.batchSize) == [])
    decreases actions
  {
    if actions == [] {
      assert forall i :: 0 <= i < |s.rows| ==> RowOk(c, s.log, i, s.rows[i]);
      BacklogCountsPending(c, org, s.rows);
      BatchIsTheOldestPending(s.rows, org, {}, c.batchSize);
      assert forall i :: 0 <= i < |s.rows| ==>
        (Selectable(s.rows, org, {}, i) <==> s.rows[i].org == org && s.rows[i].status == Pending);
    } else {
      var a := actions[0];
      StepKeepsSafe(c, s, a);
      assert Backlog(c, org, Apply(c, s, a).rows) + (if a == Commit(org) && s.open[org].batch != [] then 1 else 0)
          <= Backlog(c, org, s.rows) by {
        if a.Commit? {
          if a.org == org {
            CommitDrains(c, s, org);
          } else {
            OtherCommitKeepsBacklog(c, s, org, a.org);
          }
        }
      }
      BacklogEmpties(c, Apply(c, s, a), actions[1..], org);
    }
  }
}
