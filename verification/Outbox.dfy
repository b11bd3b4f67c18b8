/**
 * The transactional-outbox relay as a state machine: every commit, crash, broker answer and replay
 * is one step, and relays for different orgs (or competing for one) interleave freely.
 */
module Outbox {

  datatype Status = Pending | Published | Poisoned

  /** One `outbox_events` row. `id` is the row's uuid read as a number, which is how uuids compare. */
  datatype Row = Row(
    id: nat, org: string, eventId: string, eventType: string, version: int, payload: string,
    createdAt: int, status: Status, attempts: nat)

  datatype Envelope = Envelope(
    eventId: string, name: string, version: int, org: string, createdAt: int, payload: string)

  function EnvelopeOf(r: Row): Envelope {
    Envelope(r.eventId, r.eventType, r.version, r.org, r.createdAt, r.payload)
  }

  /** The envelope is the row's, field by field: its event type as the name, its payload verbatim. */
  predicate Carries(e: Envelope, r: Row) {
    && e.eventId == r.eventId && e.name == r.eventType && e.version == r.version
    && e.org == r.org && e.createdAt == r.createdAt && e.payload == r.payload
  }

  /** A broker entry, with the table position it was published from. */
  datatype Message = Message(row: nat, envelope: Envelope)

  // -- subject grammar ----------------------------------------------------------

  predicate Lower(c: char) { 'a' <= c <= 'z' }
  predicate Alnum(c: char) { Lower(c) || 'A' <= c <= 'Z' || '0' <= c <= '9' }
  predicate AllAlnum(s: string) { forall i :: 0 <= i < |s| ==> Alnum(s[i]) }

  /** `<context>.<aggregate><PastTenseVerb>` in lower camel case, exactly one dot. */
  predicate NameOk(s: string) {
    exists i :: 1 <= i < |s| - 2 && s[i] == '.'
      && Lower(s[0]) && AllAlnum(s[1..i]) && Lower(s[i + 1]) && AllAlnum(s[i + 2..])
  }

  predicate Publishable(r: Row) {
    r.version >= 1 && NameOk(r.eventType)
  }

  /** A lower-case letter, then letters and digits. */
  ghost predicate Word(w: string) {
    && w != "" && 'a' <= w[0] <= 'z'
    && forall i :: 0 <= i < |w| ==> 'a' <= w[i] <= 'z' || 'A' <= w[i] <= 'Z' || '0' <= w[i] <= '9'
  }

  /** `a` and `b` are the context and the event a type names. */
  ghost predicate Names(s: string, a: string, b: string) { Word(a) && Word(b) && |b| >= 2 && s == a + "." + b }

  lemma NameSplits(s: string, i: nat)
    requires 1 <= i < |s| - 2 && s[i] == '.'
    requires Lower(s[0]) && AllAlnum(s[1..i]) && Lower(s[i + 1]) && AllAlnum(s[i + 2..])
    ensures Names(s, s[..i], s[i + 1..])
  {
    var a, b := s[..i], s[i + 1..];
    assert forall k :: 1 <= k < |a| ==> a[k] == s[1..i][k - 1];
    assert forall k :: 1 <= k < |b| ==> b[k] == s[i + 2..][k - 1];
    assert s == a + "." + b;
  }

  lemma NameJoins(s: string, a: string, b: string)
    requires Names(s, a, b)
    ensures NameOk(s)
  {
    var i := |a|;
    assert s[1..i] == a[1..] && s[i + 2..] == b[1..];
    assert s[i] == '.' && s[0] == a[0] && s[i + 1] == b[0];
  }

  /** A row can be published exactly when its version is positive and its type is two words around a dot. */
  lemma PublishableExactly(r: Row)
    ensures Publishable(r) <==> r.version >= 1 && exists a, b :: Names(r.eventType, a, b)
  {
    hide Names, Lower, AllAlnum;
    var s := r.eventType;
    if NameOk(s) {
      var i :| 1 <= i < |s| - 2 && s[i] == '.'
               && Lower(s[0]) && AllAlnum(s[1..i]) && Lower(s[i + 1]) && AllAlnum(s[i + 2..]);
      NameSplits(s, i);
    }
    forall a, b | Names(s, a, b)
      ensures NameOk(s)
    {
      NameJoins(s, a, b);
    }
  }

  // -- the table ----------------------------------------------------------------

  predicate KeyLess(a: Row, b: Row) {
    a.createdAt < b.createdAt || (a.createdAt == b.createdAt && a.id < b.id)
  }

  ghost predicate UniqueRows(rows: seq<Row>) {
    forall i, j :: 0 <= i < j < |rows| ==>
      && rows[i].id != rows[j].id
      && (rows[i].org != rows[j].org || rows[i].eventId != rows[j].eventId)
  }

  predicate Selectable(rows: seq<Row>, org: string, locked: set<nat>, i: nat)
    requires i < |rows|
  {
    rows[i].status == Pending && rows[i].org == org && i !in locked
  }

  function Insert(rows: seq<Row>, sorted: seq<nat>, i: nat): seq<nat>
    requires i < |rows| && forall k :: 0 <= k < |sorted| ==> sorted[k] < |rows|
  {
    if sorted == [] || KeyLess(rows[i], rows[sorted[0]]) then [i] + sorted
    else [sorted[0]] + Insert(rows, sorted[1..], i)
  }

  /** The org's pending, unlocked rows among the first `n`, in (created_at, id) order. */
  function PendingInOrder(rows: seq<Row>, org: string, locked: set<nat>, n: nat): (idx: seq<nat>)
    requires n <= |rows|
    ensures forall k :: 0 <= k < |idx| ==> idx[k] < |rows|
  {
    if n == 0 then []
    else
      var rest := PendingInOrder(rows, org, locked, n - 1);
      if Selectable(rows, org, locked, n - 1) then
        InsertInBounds(rows, rest, n - 1);
        Insert(rows, rest, n - 1)
      else rest
  }

  /** `SELECT … WHERE status = 'pending' AND org_id = $1 ORDER BY created_at, id LIMIT $2 FOR UPDATE SKIP LOCKED`. */
  function Batch(rows: seq<Row>, org: string, locked: set<nat>, size: nat): seq<nat> {
    var all := PendingInOrder(rows, org, locked, |rows|);
    if |all| <= size then all else all[..size]
  }

  ghost predicate SortedByKey(rows: seq<Row>, idx: seq<nat>) {
    && (forall k :: 0 <= k < |idx| ==> idx[k] < |rows|)
    && (forall j, k :: 0 <= j < k < |idx| ==> KeyLess(rows[idx[j]], rows[idx[k]]))
  }

  lemma {:induction false} InsertInBounds(rows: seq<Row>, sorted: seq<nat>, i: nat)
    requires i < |rows| && forall k :: 0 <= k < |sorted| ==> sorted[k] < |rows|
    ensures forall k :: 0 <= k < |Insert(rows, sorted, i)| ==> Insert(rows, sorted, i)[k] < |rows|
  {
    if sorted != [] && !KeyLess(rows[i], rows[sorted[0]]) {
      InsertInBounds(rows, sorted[1..], i);
    }
  }

  lemma {:induction false} InsertSorts(rows: seq<Row>, sorted: seq<nat>, i: nat)
    requires SortedByKey(rows, sorted) && i < |rows|
    requires forall k :: 0 <= k < |sorted| ==> rows[sorted[k]].id != rows[i].id
    ensures SortedByKey(rows, Insert(rows, sorted, i))
    ensures forall x :: x in Insert(rows, sorted, i) <==> x == i || x in sorted
  {
    if sorted == [] {
    } else if KeyLess(rows[i], rows[sorted[0]]) {
      assert forall k :: 0 <= k < |sorted| ==> k == 0 || KeyLess(rows[sorted[0]], rows[sorted[k]]);
    } else {
      var first, rest := sorted[0], Insert(rows, sorted[1..], i);
      InsertSorts(rows, sorted[1..], i);
      assert sorted == [first] + sorted[1..];
      forall k | 0 <= k < |rest|
        ensures KeyLess(rows[first], rows[rest[k]])
      {
        assert rest[k] in rest;
        if rest[k] != i {
          var j :| 0 <= j < |sorted[1..]| && sorted[1..][j] == rest[k];
          assert sorted[j + 1] == rest[k];
        }
      }
    }
  }

  lemma IdsDiffer(rows: seq<Row>, i: nat, j: nat)
    requires UniqueRows(rows) && i < j < |rows|
    ensures rows[i].id != rows[j].id
  {
  }

  lemma NothingSorted(rows: seq<Row>)
    ensures SortedByKey(rows, [])
  {
  }

  lemma {:induction false} PendingInOrderIsRight(rows: seq<Row>, org: string, locked: set<nat>, n: nat)
    requires UniqueRows(rows) && n <= |rows|
    ensures SortedByKey(rows, PendingInOrder(rows, org, locked, n))
    ensures forall x: nat :: x in PendingInOrder(rows, org, locked, n) <==> x < n && Selectable(rows, org, locked, x)
  {
    hide Insert, SortedByKey, KeyLess, UniqueRows;
    if n == 0 {
      NothingSorted(rows);
    } else {
      var rest := PendingInOrder(rows, org, locked, n - 1);
      PendingInOrderIsRight(rows, org, locked, n - 1);
      if Selectable(rows, org, locked, n - 1) {
        forall k | 0 <= k < |rest|
          ensures rest[k] < n - 1 && rows[rest[k]].id != rows[n - 1].id
        {
          assert rest[k] in rest;
          IdsDiffer(rows, rest[k], n - 1);
        }
        InsertSorts(rows, rest, n - 1);
      }
    }
  }

  /** A batch is sorted, holds only selectable rows, and every selectable row it leaves out comes after it. */
  lemma BatchIsTheOldestPending(rows: seq<Row>, org: string, locked: set<nat>, size: nat)
    requires UniqueRows(rows) && size >= 1
    ensures var b := Batch(rows, org, locked, size);
            && |b| <= size && SortedByKey(rows, b)
            && (forall x :: x in b ==> Selectable(rows, org, locked, x))
            && (forall x, y :: 0 <= x < |rows| && Selectable(rows, org, locked, x) && x !in b && y in b ==>
                  KeyLess(rows[y], rows[x]))
            && (b == [] <==> forall x :: 0 <= x < |rows| ==> !Selectable(rows, org, locked, x))
  {
    var all := PendingInOrder(rows, org, locked, |rows|);
    PendingInOrderIsRight(rows, org, locked, |rows|);
    var b := Batch(rows, org, locked, size);
    assert forall k :: 0 <= k < |b| ==> b[k] == all[k];
    forall x, y | 0 <= x < |rows| && Selectable(rows, org, locked, x) && x !in b && y in b
      ensures KeyLess(rows[y], rows[x])
    {
      assert x in all;
      var i :| 0 <= i < |all| && all[i] == x;
      var j :| 0 <= j < |b| && b[j] == y;
    }
    if b == [] {
      forall x | 0 <= x < |rows|
        ensures !Selectable(rows, org, locked, x)
      {
        assert x !in all;
      }
    } else {
      assert b[0] in b;
    }
  }

  // -- one row ------------------------------------------------------------------

  /** The broker's answer: stored and acked, stored with the ack lost, or not stored. */
  datatype Ack = Acked | AckLost | Refused

  datatype Mark = Mark(status: Status, attempts: nat)

  predicate ExhaustsBudget(attempts: nat, maxAttempts: nat) {
    attempts >= maxAttempts
  }

  /** What the batch transaction writes for a row. */
  function MarkFor(r: Row, ack: Ack, maxAttempts: nat): Mark {
    if !Publishable(r) then Mark(Poisoned, r.attempts)
    else if ack == Acked then Mark(Published, r.attempts + 1)
    else if ExhaustsBudget(r.attempts + 1, maxAttempts) then Mark(Poisoned, r.attempts + 1)
    else Mark(Pending, r.attempts + 1)
  }

  predicate Stores(r: Row, ack: Ack) { Publishable(r) && ack != Refused }

  /** A failed publish ends the org's batch, so that no successor overtakes it. */
  predicate StopsBatch(r: Row, ack: Ack) { Publishable(r) && ack != Acked }

  // -- the machine --------------------------------------------------------------

  datatype Config = Config(batchSize: nat, maxAttempts: nat) {
    ghost predicate Valid() { batchSize >= 1 && maxAttempts >= 1 }
  }

  /** An open batch transaction: rows selected, rows handled, and the marks not yet committed. */
  datatype Txn = Txn(batch: seq<nat>, next: nat, marks: map<nat, Mark>, stopped: bool) {
    predicate Done() { stopped || next == |batch| }
  }

  datatype State = State(rows: seq<Row>, log: seq<Message>, open: map<string, Txn>)

  datatype Action =
    | Append(row: Row)
    | Begin(org: string, locked: set<nat>)
    | Deliver(org: string, ack: Ack)
    | Commit(org: string)
    | Crash(org: string)
    | Replay(targets: set<nat>)

  /** A producer's insert: a fresh pending row, under the table's unique keys. */
  predicate AppendEnabled(s: State, r: Row) {
    && r.status == Pending && r.attempts == 0
    && (forall i :: 0 <= i < |s.rows| ==>
          s.rows[i].id != r.id && (s.rows[i].org != r.org || s.rows[i].eventId != r.eventId))
  }

  /** The per-org advisory lock is `org in open`; rows of an open batch are locked against replay. */
  predicate Enabled(s: State, a: Action) {
    match a
    case Append(r) => AppendEnabled(s, r)
    case Begin(org, locked) => org !in s.open
    case Deliver(org, ack) =>
      org in s.open && !s.open[org].Done() && s.open[org].next < |s.open[org].batch|
      && s.open[org].batch[s.open[org].next] < |s.rows|
    case Commit(org) => org in s.open && s.open[org].Done()
    case Crash(org) => org in s.open
    case Replay(targets) =>
      forall org, i :: org in s.open && i in targets ==> i !in s.open[org].batch
  }

  function Marked(rows: seq<Row>, marks: map<nat, Mark>): (r: seq<Row>)
    ensures |r| == |rows|
  {
    seq(|rows|, i requires 0 <= i < |rows| =>
      if i in marks then rows[i].(status := marks[i].status, attempts := marks[i].attempts) else rows[i])
  }

  function Replayed(rows: seq<Row>, targets: set<nat>): (r: seq<Row>)
    ensures |r| == |rows|
  {
    seq(|rows|, i requires 0 <= i < |rows| =>
      if i in targets then rows[i].(status := Pending, attempts := 0) else rows[i])
  }

  function Delivered(c: Config, s: State, org: string, ack: Ack): State
    requires Enabled(s, Deliver(org, ack))
  {
    var t := s.open[org];
    var i := t.batch[t.next];
    var r := s.rows[i];
    s.(log := if Stores(r, ack) then s.log + [Message(i, EnvelopeOf(r))] else s.log,
       open := s.open[org := Txn(t.batch, t.next + 1, t.marks[i := MarkFor(r, ack, c.maxAttempts)],
                                 StopsBatch(r, ack))])
  }

  function Apply(c: Config, s: State, a: Action): State
    requires Enabled(s, a)
  {
    match a
    case Append(r) => s.(rows := s.rows + [r])
    case Begin(org, locked) =>
      s.(open := s.open[org := Txn(Batch(s.rows, org, locked, c.batchSize), 0, map[], false)])
    case Deliver(org, ack) => Delivered(c, s, org, ack)
    case Commit(org) => s.(rows := Marked(s.rows, s.open[org].marks), open := s.open - {org})
    case Crash(org) => s.(open := s.open - {org})
    case Replay(targets) => s.(rows := Replayed(s.rows, targets))
  }

  const START := State([], [], map[])

  ghost predicate Runs(c: Config, s: State, actions: seq<Action>)
    decreases actions
  {
    actions == [] || (Enabled(s, actions[0]) && Runs(c, Apply(c, s, actions[0]), actions[1..]))
  }

  ghost function Final(c: Config, s: State, actions: seq<Action>): State
    requires Runs(c, s, actions)
    decreases actions
  {
    if actions == [] then s else Final(c, Apply(c, s, actions[0]), actions[1..])
  }
}
