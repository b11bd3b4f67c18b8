/** One relay process and the replay commands, tied to the machine they take part in. */
module OutboxProcess {
  import opened Outbox

  /** The machine's deliveries for an open batch, one per broker answer, until the batch is done. */
  function AfterAcks(c: Config, s: State, org: string, acks: seq<Ack>): (s': State)
    requires org in s.open && forall i :: i in s.open[org].batch ==> i < |s.rows|
    ensures org in s'.open && s'.rows == s.rows && s'.open[org].batch == s.open[org].batch
    ensures s'.open - {org} == s.open - {org}
    decreases acks
  {
    if acks == [] || !Enabled(s, Deliver(org, acks[0])) then s
    else AfterAcks(c, Delivered(c, s, org, acks[0]), org, acks[1..])
  }

  function Opened(c: Config, s: State, org: string, locked: set<nat>): State
    requires org !in s.open
  {
    Apply(c, s, Begin(org, locked))
  }

  lemma BatchInBounds(rows: seq<Row>, org: string, locked: set<nat>, size: nat)
    ensures forall i :: i in Batch(rows, org, locked, size) ==> i < |rows|
  {
  }

  function Alone(rows: seq<Row>, log: seq<Message>, org: string, t: Txn): State {
    State(rows, log, map[org := t])
  }

  lemma NextAck(c: Config, rows: seq<Row>, log: seq<Message>, org: string, t: Txn, acks: seq<Ack>, k: nat)
    requires !t.Done() && t.next < |t.batch| && k < |acks| && t.batch[t.next] < |rows|
    requires forall i :: i in t.batch ==> i < |rows|
    ensures var i := t.batch[t.next];
            var log' := log + (if Stores(rows[i], acks[k]) then [Message(i, EnvelopeOf(rows[i]))] else []);
            var t' := Txn(t.batch, t.next + 1, t.marks[i := MarkFor(rows[i], acks[k], c.maxAttempts)],
                          StopsBatch(rows[i], acks[k]));
            AfterAcks(c, Alone(rows, log, org, t), org, acks[k..])
            == AfterAcks(c, Alone(rows, log', org, t'), org, acks[k + 1..])
  {
    hide Publishable, EnvelopeOf, MarkFor;
    assert acks[k..][0] == acks[k] && acks[k..][1..] == acks[k + 1..];
    assert t.batch[t.next] in t.batch;
    assert log + [] == log;
    var i := t.batch[t.next];
    var log' := log + (if Stores(rows[i], acks[k]) then [Message(i, EnvelopeOf(rows[i]))] else []);
    var t' := Txn(t.batch, t.next + 1, t.marks[i := MarkFor(rows[i], acks[k], c.maxAttempts)],
                  StopsBatch(rows[i], acks[k]));
    assert Delivered(c, Alone(rows, log, org, t), org, acks[k]) == Alone(rows, log', org, t');
  }

  lemma NoMoreAcks(c: Config, s: State, org: string, acks: seq<Ack>)
    requires org in s.open && forall i :: i in s.open[org].batch ==> i < |s.rows|
    requires acks == [] || s.open[org].Done()
    ensures AfterAcks(c, s, org, acks) == s
  {
  }

  class RelayProcess {
    const config: Config
    var rows: seq<Row>
    var log: seq<Message>

    constructor (config: Config, rows: seq<Row>, log: seq<Message>)
      ensures this.config == config && this.rows == rows && this.log == log
    {
      this.config := config;
      this.rows := rows;
      this.log := log;
    }

    /** One row of a batch: poison it, or publish it and note the outcome. */
    method HandleRow(i: nat, ack: Ack) returns (mark: Mark, failed: bool)
      requires i < |rows|
      modifies this`log
      ensures log == old(log) + (if Stores(rows[i], ack) then [Message(i, EnvelopeOf(rows[i]))] else [])
      ensures mark == MarkFor(rows[i], ack, config.maxAttempts)
      ensures failed == StopsBatch(rows[i], ack)
      ensures !Publishable(rows[i]) ==> log == old(log) && mark == Mark(Poisoned, rows[i].attempts) && !failed
      ensures Publishable(rows[i]) ==> mark.attempts == rows[i].attempts + 1 && (failed <==> ack != Acked)
      ensures Publishable(rows[i]) && ack == Refused ==> log == old(log)
      ensures Publishable(rows[i]) && ack != Refused ==>
                && |log| == |old(log)| + 1 && old(log) <= log
                && log[|old(log)|].row == i && Carries(log[|old(log)|].envelope, rows[i])
      ensures Publishable(rows[i]) ==>
                mark.status == if ack == Acked then Published
                               else if rows[i].attempts + 1 < config.maxAttempts then Pending else Poisoned
    {
      hide NameOk;
      var row := rows[i];
      if !Publishable(row) {
        return Mark(Poisoned, row.attempts), false;
      }
      if ack != Refused {
        log := log + [Message(i, EnvelopeOf(row))];
      }
      if ack == Acked {
        return Mark(Published, row.attempts + 1), false;
      }
      var poisoned := ExhaustsBudget(row.attempts + 1, config.maxAttempts);
      return Mark(if poisoned then Poisoned else Pending, row.attempts + 1), true;
    }

    /**
     * One org batch. `lockFree` is the advisory lock's answer, `locked` the rows other transactions
     * hold, `acks` the broker's answers; the process dies when they run out, and `commits` says
     * whether the final commit succeeds. Publishing is immediate, marking waits for the commit.
     */
    method DrainOrg(org: string, lockFree: bool, locked: set<nat>, acks: seq<Ack>, commits: bool)
      returns (committed: bool)
      modifies this
      ensures !lockFree ==> rows == old(rows) && log == old(log) && !committed
      ensures lockFree ==>
                && (forall i :: i in Batch(old(rows), org, locked, config.batchSize) ==> i < |old(rows)|)
                && var s := AfterAcks(config, Opened(config, State(old(rows), old(log), map[]), org, locked), org, acks);
                   && committed == (commits && s.open[org].Done())
                   && log == s.log
                   && rows == if committed then Apply(config, s, Commit(org)).rows else old(rows)
    {
      hide Batch, Stores, StopsBatch, MarkFor, EnvelopeOf, AfterAcks, Publishable, Carries;
      committed := false;
      if !lockFree {
        return;
      }
      BatchInBounds(rows, org, locked, config.batchSize);
      var batch := Batch(rows, org, locked, config.batchSize);
      var next: nat, marks: map<nat, Mark>, stopped := 0, map[], false;
      ghost var start := Alone(rows, log, org, Txn(batch, 0, map[], false));
      while next < |batch| && !stopped && next < |acks|
        invariant next <= |batch| && next <= |acks|
        invariant rows == old(rows)
        invariant AfterAcks(config, start, org, acks)
               == AfterAcks(config, Alone(rows, log, org, Txn(batch, next, marks, stopped)), org, acks[next..])
        decreases |batch| - next
      {
        assert batch[next] in batch;
        NextAck(config, rows, log, org, Txn(batch, next, marks, stopped), acks, next);
        var mark, failed := HandleRow(batch[next], acks[next]);
        marks, stopped, next := marks[batch[next] := mark], failed, next + 1;
      }
      NoMoreAcks(config, Alone(rows, log, org, Txn(batch, next, marks, stopped)), org, acks[next..]);
      if (stopped || next == |batch|) && commits {
        rows := Marked(rows, marks);
        committed := true;
      }
    }

    /** Requeues the whole dead-letter queue. */
    method ReplayPoisons() returns (requeued: nat)
      modifies this`rows
      ensures requeued == |set i | 0 <= i < |old(rows)| && old(rows)[i].status == Poisoned|
      ensures |rows| == |old(rows)|
      ensures forall i :: 0 <= i < |rows| ==>
                rows[i] == if old(rows)[i].status == Poisoned then old(rows)[i].(status := Pending, attempts := 0)
                           else old(rows)[i]
    {
      var targets := set i | 0 <= i < |rows| && rows[i].status == Poisoned;
      rows := Replayed(rows, targets);
      requeued := |targets|;
    }

    /** Requeues every row created in [from, to), whatever its status; an empty window is refused. */
    method ReplayRange(from: int, to: int) returns (refused: bool, requeued: nat)
      modifies this`rows
      ensures refused <==> to <= from
      ensures refused ==> rows == old(rows) && requeued == 0
      ensures requeued == |set i | 0 <= i < |old(rows)| && from <= old(rows)[i].createdAt < to|
      ensures |rows| == |old(rows)|
      ensures forall i :: 0 <= i < |rows| ==>
                rows[i] == if from <= old(rows)[i].createdAt < to then old(rows)[i].(status := Pending, attempts := 0)
                           else old(rows)[i]
    {
      var targets := set i | 0 <= i < |rows| && from <= rows[i].createdAt < to;
      if to <= from {
        assert targets == {};
        return true, 0;
      }
      rows := Replayed(rows, targets);
      refused, requeued := false, |targets|;
    }
  }

  /** A process's batch, cut short or committed, is a run of the machine: what the machine keeps, the code keeps. */
  lemma DrainIsARun(c: Config, s: State, org: string, locked: set<nat>, acks: seq<Ack>, commits: bool)
    returns (actions: seq<Action>)
    requires org !in s.open && forall i :: i in Batch(s.rows, org, locked, c.batchSize) ==> i < |s.rows|
    ensures Runs(c, s, actions)
    ensures var s' := AfterAcks(c, Opened(c, s, org, locked), org, acks);
            Final(c, s, actions)
            == State(if commits && s'.open[org].Done() then Apply(c, s', Commit(org)).rows else s.rows, s'.log, s.open)
  {
    var begun := Opened(c, s, org, locked);
    var s' := AfterAcks(c, begun, org, acks);
    var last := if commits && s'.open[org].Done() then Commit(org) else Crash(org);
    assert s'.open - {org} == s.open;
    var deliveries := AcksAreARun(c, begun, org, acks, last);
    actions := [Begin(org, locked)] + deliveries;
    assert actions[1..] == deliveries;
  }

  lemma {:induction false} AcksAreARun(c: Config, s: State, org: string, acks: seq<Ack>, last: Action)
    returns (actions: seq<Action>)
    requires org in s.open && forall i :: i in s.open[org].batch ==> i < |s.rows|
    requires Enabled(AfterAcks(c, s, org, acks), last)
    ensures Runs(c, s, actions)
    ensures Final(c, s, actions) == Apply(c, AfterAcks(c, s, org, acks), last)
    decreases acks
  {
    if acks == [] || !Enabled(s, Deliver(org, acks[0])) {
      actions := [last];
      assert Runs(c, Apply(c, s, last), actions[1..]);
    } else {
      var rest := AcksAreARun(c, Delivered(c, s, org, acks[0]), org, acks[1..], last);
      actions := [Deliver(org, acks[0])] + rest;
      assert actions[1..] == rest;
    }
  }
}
