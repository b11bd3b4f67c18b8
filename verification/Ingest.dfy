/**
 * The ingester: at-least-once batches, deduplicated and folded per org. What an org's state depends on
 * is the set of its events, not how they were delivered.
 */
module Ingest {
  import opened EventLog
  import opened Fold
  import opened Ordering
  import opened Projections
  import opened Emission

  /** A delivered message, parsed or not. */
  datatype Wire = Unreadable | Readable(ev: Event)

  /**
   * The logs and seen ids held in memory, the event ledger (redelivered rows collapse), and the rows of
   * each org's last complete emission.
   */
  datatype State = State(
    logs: map<string, seq<Event>>, seen: map<string, set<string>>, ledger: set<Event>, rows: map<string, seq<Row>>)

  function LogOf(s: State, org: string): seq<Event> { if org in s.logs then s.logs[org] else [] }
  function SeenOf(s: State, org: string): set<string> { if org in s.seen then s.seen[org] else {} }

  /** Handled events are pinned to version 1; one bad message refuses the batch. */
  predicate Acceptable(w: Wire) { w.Readable? && (!w.ev.body.LedgerOnly? ==> w.ev.version == 1) }

  predicate BatchOk(batch: seq<Wire>) { forall i :: 0 <= i < |batch| ==> Acceptable(batch[i]) }

  function Fresh(s: State, batch: seq<Wire>): seq<Event>
    requires BatchOk(batch)
  {
    if batch == [] then []
    else
      var ev := batch[|batch| - 1].ev;
      Fresh(s, batch[..|batch| - 1]) + (if ev.id in SeenOf(s, ev.org) then [] else [ev])
  }

  function OfOrg(events: seq<Event>, org: string): seq<Event> {
    if events == [] then []
    else OfOrg(events[..|events| - 1], org) + (if events[|events| - 1].org == org then [events[|events| - 1]] else [])
  }

  function Orgs(events: seq<Event>): set<string> { set e | e in events :: e.org }

  function Ids(events: seq<Event>): set<string> { set e | e in events :: e.id }

  function Elements(events: seq<Event>): set<Event> { set e | e in events }

  /** The rows of a log's emission. */
  ghost function Emitted(log: seq<Event>): seq<Row>
    requires Refold(log).Ok?
  {
    FoldIsListable(log);
    Rows(Refold(log).figures)
  }

  /** A pass completes, or stops at a driver call that fails or a fold that does not finish. */
  datatype Passed = Passed(state: State, done: bool, budget: nat)

  /** One org's pass, when the driver accepts `budget` more statements. */
  ghost function OrgPass(s: State, org: string, events: seq<Event>, budget: nat): Passed {
    var log := StableSort(LogOf(s, org) + events);
    var canonical := StableSort(events);
    var s1 := s.(logs := s.logs[org := log]);
    if budget < |canonical| then Passed(s1.(ledger := s1.ledger + Elements(canonical[..budget])), false, 0)
    else
      var s2 := s1.(ledger := s1.ledger + Elements(canonical));
      var left := budget - |canonical|;
      if !Refold(log).Ok? then Passed(s2, false, left)
      else
        var rows := Emitted(log);
        if left < |rows| then Passed(s2, false, 0)
        else
          var s3 := s2.(rows := s2.rows[org := rows], seen := s2.seen[org := SeenOf(s2, org) + Ids(events)]);
          Passed(s3, true, left - |rows|)
  }

  ghost function Passes(s: State, orgs: seq<string>, news: seq<Event>, budget: nat): Passed
    decreases orgs
  {
    if orgs == [] then Passed(s, true, budget)
    else
      var first := OrgPass(s, orgs[0], OfOrg(news, orgs[0]), budget);
      if first.done then Passes(first.state, orgs[1..], news, first.budget) else first
  }

  ghost function OrgList(events: seq<Event>): (orgs: seq<string>)
    ensures forall org :: org in orgs <==> org in Orgs(events)
    ensures forall i, j :: 0 <= i < j < |orgs| ==> orgs[i] != orgs[j]
  {
    StringLessIsTotal();
    var orgs := Listed(Orgs(events), StringLess);
    assert forall i, j :: 0 <= i < j < |orgs| ==> StringLess(orgs[i], orgs[j]);
    orgs
  }

  /** One delivered batch: refused whole, or passed org by org in sorted order. */
  ghost function Deliver(s: State, batch: seq<Wire>, budget: nat): Passed {
    if !BatchOk(batch) then Passed(s, false, budget)
    else Passes(s, OrgList(Fresh(s, batch)), Fresh(s, batch), budget)
  }

  // -- filters ------------------------------------------------------------------

  lemma {:induction false} OfOrgIs(events: seq<Event>, org: string)
    ensures forall e :: e in OfOrg(events, org) <==> e in events && e.org == org
  {
    if events != [] {
      OfOrgIs(events[..|events| - 1], org);
      assert events == events[..|events| - 1] + [events[|events| - 1]];
    }
  }

  lemma {:induction false} FreshIs(s: State, batch: seq<Wire>)
    requires BatchOk(batch)
    ensures forall e :: e in Fresh(s, batch) <==> Readable(e) in batch && e.id !in SeenOf(s, e.org)
  {
    hide Acceptable;
    if batch != [] {
      FreshIs(s, batch[..|batch| - 1]);
      assert batch == batch[..|batch| - 1] + [batch[|batch| - 1]];
      Readables(batch[|batch| - 1]);
    }
  }

  lemma Readables(w: Wire)
    requires Acceptable(w)
    ensures w == Readable(w.ev)
  {
  }

  // -- canonical logs, exactly --------------------------------------------------

  /** Within an org, an id names one event. */
  ghost predicate Consistent(events: set<Event>) {
    forall a, b :: a in events && b in events && a.org == b.org && a.id == b.id ==> a == b
  }

  ghost predicate Apart(log: seq<Event>, events: seq<Event>) {
    forall i, j :: 0 <= i < |log| && 0 <= j < |events| ==> log[i].id != events[j].id
  }

  lemma {:induction false} DistinctSurvives(a: seq<Event>, b: seq<Event>)
    requires multiset(a) == multiset(b) && DistinctIds(a)
    ensures DistinctIds(b)
  {
    forall i, j | 0 <= i < j < |b|
      ensures b[i].id != b[j].id
    {
      if b[i].id == b[j].id {
        assert b[i] in multiset(b) && b[j] in multiset(b);
        assert b[i] in a && b[j] in a;
        assert b[i] == b[j];
        TwiceCounted(b, i, j);
        OnceCounted(a, b[i]);
        assert false;
      }
    }
  }

  lemma TwiceCounted(b: seq<Event>, i: nat, j: nat)
    requires i < j < |b| && b[i] == b[j]
    ensures multiset(b)[b[i]] >= 2
  {
    assert b == b[..j] + [b[j]] + b[j + 1..];
    assert b[i] in b[..j];
  }

  lemma {:induction false} OnceCounted(a: seq<Event>, e: Event)
    requires DistinctIds(a)
    ensures multiset(a)[e] <= 1
  {
    if a != [] {
      var front, last := a[..|a| - 1], a[|a| - 1];
      assert a == front + [last];
      OnceCounted(front, e);
      assert forall i :: 0 <= i < |front| ==> a[i] == front[i] && front[i] != last;
    }
  }

  /**
   * Adding events keeps a canonical log canonical exactly when their ids are distinct and not in the
   * log already.
   */
  lemma UpsertCanonicalExactly(log: seq<Event>, events: seq<Event>)
    requires Canonical(log) && Consistent(Elements(log + events))
    requires forall e :: e in log + events ==> e.org == (log + events)[0].org
    ensures Canonical(StableSort(log + events)) <==> DistinctIds(events) && Apart(log, events)
  {
    hide CanonicalLess, StableSort;
    var all := log + events;
    var sorted := StableSort(all);
    SortIsRight(all);
    assert forall e :: e in sorted <==> e in multiset(sorted);
    assert forall e :: e in sorted ==> e in all;
    SortedCanonicalIffDistinct(sorted);
    CanonicalIffDistinct(log);
    if DistinctIds(sorted) {
      DistinctSurvives(sorted, all);
      SplitDistinct(log, events);
    }
    if DistinctIds(events) && Apart(log, events) {
      JoinDistinct(log, events);
      DistinctSurvives(all, sorted);
    }
  }

  lemma CanonicalIffDistinct(log: seq<Event>)
    requires Canonical(log) && Consistent(Elements(log)) && forall e :: e in log ==> e.org == log[0].org
    ensures DistinctIds(log)
  {
    hide CanonicalLess;
    CanonicalIsSorted(log);
    SortedCanonicalIffDistinct(log);
  }

  lemma CanonicalIsSorted(log: seq<Event>)
    requires Canonical(log)
    ensures Sorted(log)
  {
    hide CanonicalLess;
    forall i, j | 0 <= i < j < |log|
      ensures !CanonicalLess(log[j], log[i])
    {
      LessIsStrict(log[i], log[j]);
    }
  }

  lemma SplitDistinct(a: seq<Event>, b: seq<Event>)
    requires DistinctIds(a + b)
    ensures DistinctIds(b) && Apart(a, b)
  {
    forall i, j | 0 <= i < j < |b|
      ensures b[i].id != b[j].id
    {
      assert (a + b)[|a| + i] == b[i] && (a + b)[|a| + j] == b[j];
    }
    forall i, j | 0 <= i < |a| && 0 <= j < |b|
      ensures a[i].id != b[j].id
    {
      assert (a + b)[i] == a[i] && (a + b)[|a| + j] == b[j];
    }
  }

  lemma JoinDistinct(a: seq<Event>, b: seq<Event>)
    requires DistinctIds(a) && DistinctIds(b) && Apart(a, b)
    ensures DistinctIds(a + b)
  {
  }

  // -- a completed batch --------------------------------------------------------

  /** An org's share of the state. */
  datatype View = View(log: seq<Event>, seen: set<string>, rows: seq<Row>, known: bool)

  function ViewOf(s: State, org: string): View {
    View(LogOf(s, org), SeenOf(s, org), if org in s.rows then s.rows[org] else [], org in s.logs)
  }

  /** What a completed pass makes of an org. */
  ghost predicate Advanced(v: View, v': View, events: seq<Event>) {
    && v'.log == StableSort(v.log + events) && v'.seen == v.seen + Ids(events) && v'.known
    && Refold(v'.log).Ok? && v'.rows == Emitted(v'.log)
  }

  lemma OrgPassAdvances(s: State, org: string, events: seq<Event>, budget: nat)
    requires OrgPass(s, org, events, budget).done
    ensures var s' := OrgPass(s, org, events, budget).state;
            && Advanced(ViewOf(s, org), ViewOf(s', org), events)
            && (forall other :: other != org ==> ViewOf(s', other) == ViewOf(s, other))
            && s'.ledger == s.ledger + Elements(events)
  {
    hide StableSort, Refold, Emitted;
    SortIsRight(events);
    var canonical := StableSort(events);
    assert forall e :: e in canonical <==> e in multiset(canonical);
    assert Elements(canonical) == Elements(events);
  }

  ghost predicate Distinct(orgs: seq<string>) { forall i, j :: 0 <= i < j < |orgs| ==> orgs[i] != orgs[j] }

  /** Each org of the batch advances by its own events; the others stay. */
  lemma {:induction false} PassesAdvance(s: State, orgs: seq<string>, news: seq<Event>, budget: nat)
    requires Passes(s, orgs, news, budget).done && Distinct(orgs)
    ensures var s' := Passes(s, orgs, news, budget).state;
            && (forall org :: org in orgs ==> Advanced(ViewOf(s, org), ViewOf(s', org), OfOrg(news, org)))
            && (forall org :: org !in orgs ==> ViewOf(s', org) == ViewOf(s, org))
            && s'.ledger == s.ledger + set e | e in news && e.org in orgs
    decreases orgs
  {
    hide OrgPass, Advanced, ViewOf, OfOrg;
    if orgs != [] {
      var org, rest := orgs[0], orgs[1..];
      var first := OrgPass(s, org, OfOrg(news, org), budget);
      OrgPassAdvances(s, org, OfOrg(news, org), budget);
      OfOrgIs(news, org);
      PassesAdvance(first.state, rest, news, first.budget);
      assert orgs == [org] + rest;
      assert org !in rest;
      var s' := Passes(s, orgs, news, budget).state;
      assert s'.ledger == s.ledger + set e | e in news && e.org in orgs;
    }
  }

  // -- delivery independence ----------------------------------------------------

  /** An org holds exactly its events of `all`, in canonical order, and has seen them. */
  ghost predicate LogClean(v: View, org: string, all: set<Event>) {
    && Canonical(v.log) && (forall e :: e in v.log <==> e in all && e.org == org)
    && v.seen == Ids(v.log) && (v.known <==> v.log != [])
  }

  /** The rows last emitted are those of the log. */
  ghost predicate RowsRight(v: View) {
    if v.known then Refold(v.log).Ok? && v.rows == Emitted(v.log) else v.rows == []
  }

  ghost predicate OrgClean(v: View, org: string, all: set<Event>) { LogClean(v, org, all) && RowsRight(v) }

  ghost predicate Clean(s: State, all: set<Event>) {
    s.ledger == all && forall org :: OrgClean(ViewOf(s, org), org, all)
  }

  function Messages(batch: seq<Wire>): set<Event> { set w | w in batch && w.Readable? :: w.ev }

  /** No unseen event comes twice in one batch. */
  ghost predicate NoRepeats(news: seq<Event>) {
    forall i, j :: 0 <= i < j < |news| && news[i].org == news[j].org ==> news[i].id != news[j].id
  }

  lemma {:induction false} OfOrgDistinct(news: seq<Event>, org: string)
    requires NoRepeats(news)
    ensures DistinctIds(OfOrg(news, org))
  {
    if news != [] {
      var front, last := news[..|news| - 1], news[|news| - 1];
      OfOrgDistinct(front, org);
      OfOrgIs(front, org);
      var held := OfOrg(front, org);
      if last.org == org {
        forall i | 0 <= i < |held|
          ensures held[i].id != last.id
        {
          assert held[i] in held;
          var k :| 0 <= k < |front| && front[k] == held[i];
          assert news[k] == front[k];
        }
      }
    }
  }

  lemma SortHolds(log: seq<Event>, events: seq<Event>)
    ensures forall e :: e in StableSort(log + events) <==> e in log || e in events
  {
    hide StableSort;
    SortIsRight(log + events);
    var sorted := StableSort(log + events);
    assert forall e :: e in sorted <==> e in multiset(sorted);
  }

  lemma UnseenIsApart(v: View, org: string, all: set<Event>, events: seq<Event>)
    requires LogClean(v, org, all) && forall e :: e in events ==> e.id !in v.seen
    ensures Apart(v.log, events)
  {
    hide Canonical;
    forall i, j | 0 <= i < |v.log| && 0 <= j < |events|
      ensures v.log[i].id != events[j].id
    {
      assert v.log[i] in v.log && events[j] in events;
      assert v.log[i].id in v.seen;
    }
  }

  lemma AdvanceIsCanonical(v: View, org: string, all: set<Event>, events: seq<Event>)
    requires LogClean(v, org, all) && DistinctIds(events) && Consistent(all + Elements(events))
    requires forall e :: e in events ==> e.org == org && e.id !in v.seen
    ensures Canonical(StableSort(v.log + events))
  {
    hide StableSort, CanonicalLess, Canonical;
    UnseenIsApart(v, org, all, events);
    assert Elements(v.log + events) <= all + Elements(events);
    UpsertCanonicalExactly(v.log, events);
  }

  lemma AdvanceKeepsClean(v: View, v': View, org: string, all: set<Event>, news: seq<Event>)
    requires LogClean(v, org, all) && Advanced(v, v', OfOrg(news, org)) && NoRepeats(news)
    requires Consistent(all + Elements(news))
    requires forall e :: e in news && e.org == org ==> e.id !in v.seen
    requires exists e :: e in news && e.org == org
    ensures OrgClean(v', org, all + Elements(news))
  {
    hide StableSort, Refold, Emitted, Canonical, OfOrg, NoRepeats;
    var events := OfOrg(news, org);
    OfOrgIs(news, org);
    OfOrgDistinct(news, org);
    SortHolds(v.log, events);
    AdvanceIsCanonical(v, org, all, events);
    var e :| e in news && e.org == org;
    assert e in v'.log;
    assert v'.seen == Ids(v'.log);
  }

  /** A completed batch takes a clean state for some events to a clean state for those and its own. */
  lemma DeliverKeepsClean(s: State, all: set<Event>, batch: seq<Wire>, budget: nat)
    requires Clean(s, all) && BatchOk(batch) && Deliver(s, batch, budget).done
    requires NoRepeats(Fresh(s, batch)) && Consistent(all + Messages(batch))
    ensures Clean(Deliver(s, batch, budget).state, all + Messages(batch))
  {
    hide CanonicalLess, Canonical, Passes, Advanced, OfOrg, Fresh, LogClean, RowsRight;
    var news := Fresh(s, batch);
    var orgs := OrgList(news);
    var s' := Deliver(s, batch, budget).state;
    PassesAdvance(s, orgs, news, budget);
    FreshIs(s, batch);
    SeenAreKnown(s, all, batch);
    assert all + Messages(batch) == all + Elements(news);
    forall org
      ensures OrgClean(ViewOf(s', org), org, all + Elements(news))
    {
      assert OrgClean(ViewOf(s, org), org, all);
      if org in orgs {
        AdvanceKeepsClean(ViewOf(s, org), ViewOf(s', org), org, all, news);
      } else {
        CleanElsewhere(ViewOf(s, org), org, all, all + Elements(news));
      }
    }
  }

  lemma CleanElsewhere(v: View, org: string, all: set<Event>, more: set<Event>)
    requires OrgClean(v, org, all) && all <= more && forall e :: e in more && e !in all ==> e.org != org
    ensures OrgClean(v, org, more)
  {
    hide Refold, Emitted, CanonicalLess;
  }

  /** A message already seen is an event already held. */
  lemma SeenAreKnown(s: State, all: set<Event>, batch: seq<Wire>)
    requires Clean(s, all) && Consistent(all + Messages(batch))
    ensures forall e :: e in Messages(batch) && e.id in SeenOf(s, e.org) ==> e in all
  {
    hide Refold, Emitted, Canonical;
    forall e | e in Messages(batch) && e.id in SeenOf(s, e.org)
      ensures e in all
    {
      assert OrgClean(ViewOf(s, e.org), e.org, all);
      var held :| held in LogOf(s, e.org) && held.id == e.id;
      assert held in all;
    }
  }

  datatype Delivery = Delivery(batch: seq<Wire>, budget: nat)

  const START := State(map[], map[], {}, map[])

  /** Every batch of the schedule is readable, repeats no unseen event and completes. */
  ghost predicate Completes(s: State, schedule: seq<Delivery>)
    decreases schedule
  {
    schedule == [] ||
    (var d := schedule[0];
     && BatchOk(d.batch) && NoRepeats(Fresh(s, d.batch)) && Deliver(s, d.batch, d.budget).done
     && Completes(Deliver(s, d.batch, d.budget).state, schedule[1..]))
  }

  ghost function After(s: State, schedule: seq<Delivery>): State
    decreases schedule
  {
    if schedule == [] then s else After(Deliver(s, schedule[0].batch, schedule[0].budget).state, schedule[1..])
  }

  ghost function Delivered(schedule: seq<Delivery>): set<Event> {
    if schedule == [] then {} else Messages(schedule[0].batch) + Delivered(schedule[1..])
  }

  lemma {:induction false} RunIsClean(s: State, all: set<Event>, schedule: seq<Delivery>)
    requires Clean(s, all) && Completes(s, schedule) && Consistent(all + Delivered(schedule))
    ensures Clean(After(s, schedule), all + Delivered(schedule))
    decreases schedule
  {
    hide Clean, Deliver, BatchOk, NoRepeats, Fresh, Messages;
    if schedule == [] {
      assert all + Delivered(schedule) == all;
    } else {
      var d := schedule[0];
      DeliverKeepsClean(s, all, d.batch, d.budget);
      assert all + Delivered(schedule) == all + Messages(d.batch) + Delivered(schedule[1..]);
      RunIsClean(Deliver(s, d.batch, d.budget).state, all + Messages(d.batch), schedule[1..]);
    }
  }

  lemma CleanDetermines(s: State, t: State, all: set<Event>, org: string)
    requires Clean(s, all) && Clean(t, all)
    ensures ViewOf(s, org) == ViewOf(t, org)
  {
    hide Refold, Emitted, Canonical, ViewOf;
    var v, w := ViewOf(s, org), ViewOf(t, org);
    assert OrgClean(v, org, all) && OrgClean(w, org, all);
    CanonicalIsUnique(v.log, w.log);
  }

  lemma StartIsClean()
    ensures Clean(START, {})
  {
    hide Refold, Emitted;
  }

  /**
   * Two schedules that deliver the same events leave the same ledger and, for every org, the same log,
   * seen ids and last emitted rows, whatever the order, the batching and the redeliveries.
   */
  lemma DeliveryIndependence(a: seq<Delivery>, b: seq<Delivery>)
    requires Completes(START, a) && Completes(START, b)
    requires Delivered(a) == Delivered(b) && Consistent(Delivered(a))
    ensures After(START, a).ledger == After(START, b).ledger == Delivered(a)
    ensures forall org :: ViewOf(After(START, a), org) == ViewOf(After(START, b), org)
    ensures forall org :: Canonical(LogOf(After(START, a), org))
    ensures forall org, e :: e in LogOf(After(START, a), org) <==> e in Delivered(a) && e.org == org
  {
    hide Completes, After, Delivered, OrgClean, ViewOf, Consistent;
    StartIsClean();
    assert {} + Delivered(a) == Delivered(a);
    RunIsClean(START, {}, a);
    RunIsClean(START, {}, b);
    forall org
      ensures ViewOf(After(START, a), org) == ViewOf(After(START, b), org)
      ensures Canonical(LogOf(After(START, a), org))
      ensures forall e :: e in LogOf(After(START, a), org) <==> e in Delivered(a) && e.org == org
    {
      CleanDetermines(After(START, a), After(START, b), Delivered(a), org);
      CleanLog(After(START, a), Delivered(a), org);
    }
  }

  lemma CleanLog(s: State, all: set<Event>, org: string)
    requires Clean(s, all)
    ensures Canonical(LogOf(s, org)) && forall e :: e in LogOf(s, org) <==> e in all && e.org == org
  {
    hide Refold, Emitted, Canonical;
    assert OrgClean(ViewOf(s, org), org, all);
  }

  // -- rebuild ------------------------------------------------------------------

  /** The ledger query: every row once, in some order. */
  ghost predicate Reads(rows: seq<Event>, ledger: set<Event>) { multiset(rows) == multiset(ledger) }

  /** The log a rebuild gives an org. */
  function Rebuilt(rows: seq<Event>, org: string): seq<Event> { StableSort(OfOrg(rows, org)) }

  lemma {:induction false} OfOrgCounts(rows: seq<Event>, org: string, e: Event)
    ensures multiset(OfOrg(rows, org))[e] == if e.org == org then multiset(rows)[e] else 0
  {
    if rows != [] {
      OfOrgCounts(rows[..|rows| - 1], org, e);
      assert rows == rows[..|rows| - 1] + [rows[|rows| - 1]];
    }
  }

  lemma OnceMeansDistinct(events: seq<Event>)
    requires Consistent(Elements(events)) && forall e :: e in events ==> e.org == events[0].org
    requires forall e :: multiset(events)[e] <= 1
    ensures DistinctIds(events)
  {
    forall i, j | 0 <= i < j < |events|
      ensures events[i].id != events[j].id
    {
      assert events[i] in events && events[j] in events;
      if events[i] == events[j] {
        TwiceCounted(events, i, j);
      }
    }
  }

  /** A rebuild gives every org the canonical log of its ledger events, in whatever order they are read. */
  lemma RebuildIsCanonical(rows: seq<Event>, ledger: set<Event>, org: string)
    requires Reads(rows, ledger) && Consistent(ledger)
    ensures Canonical(Rebuilt(rows, org))
    ensures forall e :: e in Rebuilt(rows, org) <==> e in ledger && e.org == org
  {
    hide StableSort, CanonicalLess, Canonical;
    var events := OfOrg(rows, org);
    OfOrgIs(rows, org);
    forall e
      ensures multiset(events)[e] <= 1 && (e in rows <==> e in ledger)
    {
      OfOrgCounts(rows, org, e);
      assert e in rows <==> e in multiset(rows);
    }
    OnceMeansDistinct(events);
    SortHolds([], events);
    assert [] + events == events;
    UpsertCanonicalExactly([], events) by { EmptyIsCanonical(); }
  }

  lemma EmptyIsCanonical()
    ensures Canonical([])
  {
  }

  /**
   * After any completed schedule, a rebuild from the ledger reproduces every org's log, and a state it
   * leaves clean has every org's log, seen ids and emitted rows as the schedule left them.
   */
  lemma RebuildAgrees(schedule: seq<Delivery>, rows: seq<Event>, rebuilt: State, org: string)
    requires Completes(START, schedule) && Consistent(Delivered(schedule))
    requires Reads(rows, After(START, schedule).ledger) && Clean(rebuilt, After(START, schedule).ledger)
    ensures Rebuilt(rows, org) == LogOf(After(START, schedule), org)
    ensures ViewOf(rebuilt, org) == ViewOf(After(START, schedule), org)
  {
    hide Completes, After, Delivered, Canonical, Rebuilt, Reads, Consistent, Clean, ViewOf;
    DeliveryIndependence(schedule, schedule);
    RebuildIsCanonical(rows, After(START, schedule).ledger, org);
    CanonicalIsUnique(Rebuilt(rows, org), LogOf(After(START, schedule), org));
    StartIsClean();
    assert {} + Delivered(schedule) == Delivered(schedule);
    RunIsClean(START, {}, schedule);
    CleanDetermines(rebuilt, After(START, schedule), Delivered(schedule), org);
  }
}
