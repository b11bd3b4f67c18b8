/**
 * The rebuild from the ledger, complete or stopped on the way. It marks an org's events seen before it folds
 * and emits them, and starts from blank orgs.
 */
module Rebuild {
  import opened EventLog
  import opened Fold
  import opened Projections
  import opened Emission
  import opened Ingest
  import opened IngestFaults
  import Ordering

  /** One org of a rebuild: log and seen ids first, then fold and rows. */
  ghost function RebuildOrg(s: State, org: string, events: seq<Event>, budget: nat): Passed {
    var log := StableSort([] + events);
    var marked := s.(logs := s.logs[org := log], seen := s.seen[org := SeenOf(s, org) + Ids(events)]);
    if !Refold(log).Ok? then Passed(marked, false, budget)
    else
      var rows := Emitted(log);
      if budget < |rows| then Passed(marked, false, 0)
      else Passed(marked.(rows := marked.rows[org := rows]), true, budget - |rows|)
  }

  ghost function RebuildOrgs(s: State, orgs: seq<string>, read: seq<Event>, budget: nat): Passed
    decreases orgs
  {
    if orgs == [] then Passed(s, true, budget)
    else
      var first := RebuildOrg(s, orgs[0], OfOrg(read, orgs[0]), budget);
      if first.done then RebuildOrgs(first.state, orgs[1..], read, first.budget) else first
  }

  /** The process forgets logs and seen ids; the ledger and the rows emitted before stay. */
  ghost function Rebuild(s: State, read: seq<Event>, budget: nat): Passed {
    RebuildOrgs(s.(logs := map[], seen := map[]), OrgList(read), read, budget)
  }

  const BLANK := View([], {}, [], false)

  function RowsOf(s: State, org: string): seq<Row> { ViewOf(s, org).rows }

  // -- what it leaves -----------------------------------------------------------

  /** In memory the org is new. */
  ghost predicate Forgotten(s: State, org: string) { org !in s.logs && org !in s.seen }

  ghost predicate Marked(v: View, events: seq<Event>) {
    v.log == StableSort([] + events) && v.seen == Ids(events) && v.known
  }

  lemma RebuildOrgLeaves(s: State, org: string, events: seq<Event>, budget: nat)
    requires Forgotten(s, org)
    ensures var p := RebuildOrg(s, org, events, budget);
            && p.state.ledger == s.ledger && Marked(ViewOf(p.state, org), events)
            && (if p.done then Advanced(BLANK, ViewOf(p.state, org), events) else RowsOf(p.state, org) == RowsOf(s, org))
            && (forall other :: other != org ==>
                  ViewOf(p.state, other) == ViewOf(s, other) && (Forgotten(s, other) ==> Forgotten(p.state, other)))
  {
    hide StableSort, Refold, Emitted;
  }

  /** From `s` to `t`: the first `k` orgs rebuilt, the next one marked, the rest as they were. */
  ghost predicate RebuiltTo(s: State, t: State, orgs: seq<string>, k: nat, read: seq<Event>) {
    && k <= |orgs| && t.ledger == s.ledger
    && (forall i :: 0 <= i < k ==> Advanced(BLANK, ViewOf(t, orgs[i]), OfOrg(read, orgs[i])))
    && (k < |orgs| ==> Marked(ViewOf(t, orgs[k]), OfOrg(read, orgs[k])) && RowsOf(t, orgs[k]) == RowsOf(s, orgs[k]))
    && (forall i :: k < i < |orgs| ==> ViewOf(t, orgs[i]) == ViewOf(s, orgs[i]))
    && (forall org :: org !in orgs ==> ViewOf(t, org) == ViewOf(s, org))
  }

  lemma {:induction false} RebuildOrgsLeave(s: State, orgs: seq<string>, read: seq<Event>, budget: nat)
    returns (k: nat)
    requires Distinct(orgs) && forall i :: 0 <= i < |orgs| ==> Forgotten(s, orgs[i])
    ensures RebuiltTo(s, RebuildOrgs(s, orgs, read, budget).state, orgs, k, read)
    ensures RebuildOrgs(s, orgs, read, budget).done <==> k == |orgs|
    decreases orgs
  {
    hide RebuildOrg, Marked, Advanced, ViewOf, OfOrg, Forgotten;
    k := 0;
    if orgs != [] {
      var org, rest := orgs[0], orgs[1..];
      var first := RebuildOrg(s, org, OfOrg(read, org), budget);
      RebuildOrgLeaves(s, org, OfOrg(read, org), budget);
      assert forall i :: 0 <= i < |rest| ==> rest[i] == orgs[i + 1];
      assert orgs == [org] + rest;
      if first.done {
        var j := RebuildOrgsLeave(first.state, rest, read, first.budget);
        k := j + 1;
        RebuiltFurther(s, first.state, RebuildOrgs(s, orgs, read, budget).state, orgs, j, read);
      }
    }
  }

  lemma RebuiltFurther(s: State, s1: State, t: State, orgs: seq<string>, j: nat, read: seq<Event>)
    requires orgs != [] && Distinct(orgs) && RebuiltTo(s1, t, orgs[1..], j, read) && s1.ledger == s.ledger
    requires Advanced(BLANK, ViewOf(s1, orgs[0]), OfOrg(read, orgs[0]))
    requires forall other :: other != orgs[0] ==> ViewOf(s1, other) == ViewOf(s, other)
    ensures RebuiltTo(s, t, orgs, j + 1, read)
  {
    hide Marked, Advanced, ViewOf, OfOrg;
    var rest := orgs[1..];
    assert forall i :: 0 < i < |orgs| ==> orgs[i] == rest[i - 1];
    assert orgs[0] !in rest;
    assert forall org :: org !in orgs ==> org !in rest;
  }

  /** An org of which rows were ever emitted has events in the ledger. */
  ghost predicate RowsBacked(s: State) {
    forall org :: RowsOf(s, org) != [] ==> exists e :: e in s.ledger && e.org == org
  }

  lemma RebuiltIsClean(v: View, org: string, read: seq<Event>, ledger: set<Event>)
    requires Marked(v, OfOrg(read, org)) && Reads(read, ledger) && Consistent(ledger) && org in Orgs(read)
    ensures LogClean(v, org, ledger) && v.known
  {
    hide StableSort, Canonical, OfOrg, Reads, Consistent;
    var events := OfOrg(read, org);
    assert [] + events == events;
    RebuildIsCanonical(read, ledger, org);
    OfOrgIs(read, org);
    SortHolds([], events);
    var e :| e in read && e.org == org;
    assert e in v.log;
    assert v.seen == Ids(v.log);
  }

  lemma InLedger(read: seq<Event>, ledger: set<Event>, org: string)
    requires Reads(read, ledger)
    ensures org in Orgs(read) <==> exists e :: e in ledger && e.org == org
  {
    assert forall e :: e in read <==> e in multiset(read);
    assert forall e :: e in ledger <==> e in multiset(ledger);
  }

  lemma AbsentIsClean(s: State, t: State, read: seq<Event>, org: string)
    requires RowsBacked(s) && Reads(read, s.ledger) && org !in Orgs(read)
    requires ViewOf(t, org) == View([], {}, RowsOf(s, org), false)
    ensures OrgClean(ViewOf(t, org), org, s.ledger)
  {
    InLedger(read, s.ledger, org);
  }

  lemma ForgetAll(s: State)
    ensures var s0 := s.(logs := map[], seen := map[]);
            forall org :: Forgotten(s0, org) && ViewOf(s0, org) == View([], {}, RowsOf(s, org), false)
  {
  }

  lemma AdvancedIsMarked(v: View, events: seq<Event>)
    requires Advanced(BLANK, v, events)
    ensures Marked(v, events) && RowsRight(v)
  {
    hide StableSort, Refold, Emitted;
  }

  /** A rebuild that completes leaves the clean state of the ledger, whatever deliveries failed before it. */
  lemma CompletedRebuildIsClean(s: State, read: seq<Event>, budget: nat)
    requires Reads(read, s.ledger) && Consistent(s.ledger) && RowsBacked(s) && Rebuild(s, read, budget).done
    ensures Clean(Rebuild(s, read, budget).state, s.ledger)
  {
    hide RebuildOrgs, Marked, Advanced, OfOrg, Reads, Consistent, Orgs, RowsBacked, LogClean, RowsRight, ViewOf, Forgotten;
    var orgs, t := OrgList(read), Rebuild(s, read, budget).state;
    ForgetAll(s);
    var k := RebuildOrgsLeave(s.(logs := map[], seen := map[]), orgs, read, budget);
    forall org
      ensures OrgClean(ViewOf(t, org), org, s.ledger)
    {
      if org in orgs {
        var i :| 0 <= i < |orgs| && orgs[i] == org;
        AdvancedIsMarked(ViewOf(t, org), OfOrg(read, org));
        RebuiltIsClean(ViewOf(t, org), org, read, s.ledger);
      } else {
        AbsentIsClean(s, t, read, org);
      }
    }
  }

  /**
   * A rebuild stopped at `stuck`: that org has its log and has seen its events, whatever its rows; the orgs
   * in `lost` have events in the ledger and nothing in memory; every other org is clean.
   */
  ghost predicate StoppedAt(t: State, stuck: string, lost: set<string>) {
    && stuck !in lost && LogClean(ViewOf(t, stuck), stuck, t.ledger) && ViewOf(t, stuck).known
    && (forall org :: org in lost ==>
          && ViewOf(t, org) == View([], {}, RowsOf(t, org), false)
          && exists e :: e in t.ledger && e.org == org)
    && (forall org :: org != stuck && org !in lost ==> OrgClean(ViewOf(t, org), org, t.ledger))
  }

  /**
   * A rebuild that stops, at the driver or at a log that does not fold: the orgs that sort before the one
   * it stops at are clean, that one is marked seen with its old rows, all after it are lost with theirs.
   */
  lemma StoppedRebuildLeaves(s: State, read: seq<Event>, budget: nat) returns (stuck: string, lost: set<string>)
    requires Reads(read, s.ledger) && Consistent(s.ledger) && RowsBacked(s) && !Rebuild(s, read, budget).done
    ensures var t := Rebuild(s, read, budget).state;
            && StoppedAt(t, stuck, lost) && t.ledger == s.ledger && stuck in Orgs(read)
            && (forall org :: org in lost <==> org in Orgs(read) && StringLess(stuck, org))
            && (forall org :: org == stuck || org in lost ==> RowsOf(t, org) == RowsOf(s, org))
  {
    hide RebuildOrgs, Marked, Advanced, OfOrg, Reads, Consistent, Orgs, RowsBacked, LogClean, RowsRight, ViewOf, Forgotten;
    hide StringLess;
    var orgs, t := OrgList(read), Rebuild(s, read, budget).state;
    ForgetAll(s);
    var k := RebuildOrgsLeave(s.(logs := map[], seen := map[]), orgs, read, budget);
    stuck, lost := orgs[k], set i | k < i < |orgs| :: orgs[i];
    RebuiltIsClean(ViewOf(t, stuck), stuck, read, s.ledger);
    LostAreAfter(read, k);
    forall org | org in lost
      ensures ViewOf(t, org) == View([], {}, RowsOf(s, org), false) && exists e :: e in t.ledger && e.org == org
    {
      InLedger(read, s.ledger, org);
    }
    forall org | org != stuck && org !in lost
      ensures OrgClean(ViewOf(t, org), org, t.ledger)
    {
      if org in orgs {
        var i :| 0 <= i < |orgs| && orgs[i] == org;
        AdvancedIsMarked(ViewOf(t, org), OfOrg(read, org));
        RebuiltIsClean(ViewOf(t, org), org, read, s.ledger);
      } else {
        AbsentIsClean(s, t, read, org);
      }
    }
  }

  lemma LostAreAfter(read: seq<Event>, k: nat)
    requires k < |OrgList(read)|
    ensures var orgs := OrgList(read);
            forall org :: org in (set i | k < i < |orgs| :: orgs[i]) <==> org in Orgs(read) && StringLess(orgs[k], org)
  {
    hide Orgs, StringLess;
    var orgs := OrgList(read);
    StringLessIsTotal();
  }

  // -- the next delivery --------------------------------------------------------

  /** After a stopped rebuild a seen message is an event of the ledger; every other message is taken as new. */
  lemma SeenIsHeld(t: State, stuck: string, lost: set<string>, batch: seq<Wire>, e: Event)
    requires StoppedAt(t, stuck, lost) && Consistent(t.ledger + Messages(batch)) && e in Messages(batch)
    ensures e.id in SeenOf(t, e.org) ==> e in t.ledger
    ensures e in t.ledger && e.org !in lost ==> e.id in SeenOf(t, e.org)
  {
    hide Canonical, Refold, Emitted;
    var v := ViewOf(t, e.org);
    if e.org !in lost {
      assert LogClean(v, e.org, t.ledger);
      if e.id in v.seen {
        var held :| held in v.log && held.id == e.id;
        assert held in t.ledger && held.org == e.org;
      }
      if e in t.ledger {
        assert e in v.log;
      }
    }
  }

  /** What a redelivery after the stop adds: messages of lost orgs, and others the ledger does not hold. */
  lemma NewsIs(t: State, stuck: string, lost: set<string>, batch: seq<Wire>)
    requires StoppedAt(t, stuck, lost) && BatchOk(batch) && Consistent(t.ledger + Messages(batch))
    ensures forall e :: e in Ingest.Fresh(t, batch) <==> e in Messages(batch) && (e.org in lost || e !in t.ledger)
  {
    hide StoppedAt, Ingest.Fresh, Consistent, Acceptable;
    FreshIs(t, batch);
    forall e
      ensures e in Messages(batch) <==> Readable(e) in batch
    {
    }
    forall e | e in Messages(batch)
      ensures e.id !in SeenOf(t, e.org) <==> e.org in lost || e !in t.ledger
    {
      SeenIsHeld(t, stuck, lost, batch, e);
      LostIsUnseen(t, stuck, lost, e.org);
    }
  }

  lemma LostIsUnseen(t: State, stuck: string, lost: set<string>, org: string)
    requires StoppedAt(t, stuck, lost)
    ensures org in lost ==> SeenOf(t, org) == {} && LogClean(ViewOf(t, org), org, {})
  {
    hide Refold, Emitted;
    if org in lost {
      assert ViewOf(t, org) == View([], {}, RowsOf(t, org), false);
    }
  }

  predicate Brings(news: seq<Event>, org: string) { exists e :: e in news && e.org == org }

  /** What a completed delivery makes of an org. */
  ghost predicate Moved(v: View, v': View, org: string, news: seq<Event>) {
    if Brings(news, org) then Advanced(v, v', OfOrg(news, org)) else v' == v
  }

  lemma {:induction false} NothingOfOrg(news: seq<Event>, org: string)
    requires !Brings(news, org)
    ensures OfOrg(news, org) == []
  {
    if news != [] {
      assert news[|news| - 1] in news;
      assert forall e :: e in news[..|news| - 1] ==> e in news;
      NothingOfOrg(news[..|news| - 1], org);
    }
  }

  /** An org whose log is clean: new distinct events keep it so and renew its rows; without any, nothing does. */
  lemma HeldOrgAfter(v: View, v': View, org: string, all: set<Event>, news: seq<Event>)
    requires LogClean(v, org, all) && Moved(v, v', org, news) && Consistent(all + Elements(news))
    requires forall e :: e in news && e.org == org ==> e.id !in v.seen
    ensures NoRepeats(news) ==> (OrgClean(v', org, all + Elements(news)) <==> Brings(news, org) || RowsRight(v))
    ensures OrgClean(v', org, all + Elements(news)) ==> DistinctIds(OfOrg(news, org))
  {
    hide LogClean, RowsRight, Advanced, OfOrg, Consistent, NoRepeats, Canonical;
    if Brings(news, org) {
      if NoRepeats(news) {
        AdvanceKeepsClean(v, v', org, all, news);
      }
      if OrgClean(v', org, all + Elements(news)) {
        CleanIsCanonical(v', org, all + Elements(news));
        CleanAdvanceIsDistinct(v, v', org, all, news);
      }
    } else {
      LogCleanElsewhere(v, org, all, all + Elements(news));
      NothingOfOrg(news, org);
    }
  }

  lemma CleanIsCanonical(v: View, org: string, all: set<Event>)
    requires LogClean(v, org, all)
    ensures Canonical(v.log)
  {
  }

  lemma LogCleanElsewhere(v: View, org: string, all: set<Event>, more: set<Event>)
    requires LogClean(v, org, all) && all <= more && forall e :: e in more && e !in all ==> e.org != org
    ensures LogClean(v, org, more)
  {
    hide Canonical;
  }

  /** A lost org is clean again exactly when every event the ledger holds of it comes back, once. */
  lemma LostOrgAfter(v: View, v': View, org: string, ledger: set<Event>, news: seq<Event>)
    requires v == View([], {}, v.rows, false) && Moved(v, v', org, news) && Consistent(ledger + Elements(news))
    requires exists e :: e in ledger && e.org == org
    ensures NoRepeats(news) ==>
              (OrgClean(v', org, ledger + Elements(news)) <==> forall e :: e in ledger && e.org == org ==> e in news)
    ensures OrgClean(v', org, ledger + Elements(news)) ==> DistinctIds(OfOrg(news, org))
  {
    hide RowsRight, Advanced, OfOrg, Consistent, NoRepeats, Canonical;
    BlankIsClean(v, org);
    if Brings(news, org) {
      assert {} + Elements(news) == Elements(news);
      FewerAreConsistent(Elements(news), ledger + Elements(news));
      if NoRepeats(news) {
        AdvanceKeepsClean(v, v', org, {}, news);
      }
      if OrgClean(v', org, ledger + Elements(news)) {
        CleanAdvanceIsDistinct(v, v', org, {}, news);
      }
    } else {
      NothingOfOrg(news, org);
    }
  }

  lemma BlankIsClean(v: View, org: string)
    requires v == View([], {}, v.rows, false)
    ensures LogClean(v, org, {})
  {
  }

  lemma FewerAreConsistent(some: set<Event>, all: set<Event>)
    requires Consistent(all) && some <= all
    ensures Consistent(some)
  {
  }

  /**
   * The delivery repeats nothing unseen, brings back all that is lost and, unless the stuck org's rows are
   * right already, something new of that org.
   */
  ghost predicate Repairs(t: State, stuck: string, lost: set<string>, batch: seq<Wire>)
    requires BatchOk(batch)
  {
    && NoRepeats(Ingest.Fresh(t, batch))
    && (forall e :: e in t.ledger && e.org in lost ==> e in Messages(batch))
    && (RowsRight(ViewOf(t, stuck)) || exists e :: e in Messages(batch) && e !in t.ledger && e.org == stuck)
  }

  /** The completed delivery, org by org. */
  lemma DeliveryMoves(t: State, stuck: string, lost: set<string>, batch: seq<Wire>, budget: nat)
    requires StoppedAt(t, stuck, lost) && BatchOk(batch) && Deliver(t, batch, budget).done
    requires Consistent(t.ledger + Messages(batch))
    ensures var news, t' := Ingest.Fresh(t, batch), Deliver(t, batch, budget).state;
            && t.ledger + Messages(batch) == t.ledger + Elements(news) == t'.ledger
            && (forall org :: Moved(ViewOf(t, org), ViewOf(t', org), org, news))
  {
    hide StoppedAt, Passes, Advanced, ViewOf, OfOrg, Ingest.Fresh, Consistent;
    var news, t' := Ingest.Fresh(t, batch), Deliver(t, batch, budget).state;
    NewsIs(t, stuck, lost, batch);
    PassesAdvance(t, OrgList(news), news, budget);
    forall org
      ensures Moved(ViewOf(t, org), ViewOf(t', org), org, news)
    {
      assert org in Orgs(news) <==> Brings(news, org);
    }
  }

  /**
   * After a stopped rebuild, a completed delivery leaves the clean state of ledger and messages exactly when
   * it repairs it.
   */
  lemma CleanAgainExactly(t: State, stuck: string, lost: set<string>, batch: seq<Wire>, budget: nat)
    requires StoppedAt(t, stuck, lost) && BatchOk(batch) && Deliver(t, batch, budget).done
    requires Consistent(t.ledger + Messages(batch))
    ensures Clean(Deliver(t, batch, budget).state, t.ledger + Messages(batch)) <==> Repairs(t, stuck, lost, batch)
  {
    hide Deliver, LogClean, RowsRight, ViewOf, OfOrg, Ingest.Fresh, Consistent, NoRepeats, Moved;
    var news, t' := Ingest.Fresh(t, batch), Deliver(t, batch, budget).state;
    var all := t.ledger + Elements(news);
    DeliveryMoves(t, stuck, lost, batch, budget);
    NewsIs(t, stuck, lost, batch);
    forall org
      ensures OrgClean(ViewOf(t', org), org, all) ==> DistinctIds(OfOrg(news, org))
      ensures NoRepeats(news) ==> (OrgClean(ViewOf(t', org), org, all) <==> OrgRepaired(t, stuck, lost, batch, org))
    {
      OrgAgainExactly(t, t', stuck, lost, batch, news, org);
    }
    if forall org :: OrgClean(ViewOf(t', org), org, all) {
      FewerAreConsistent(Elements(news), all);
      DistinctMeansNoRepeats(news);
      assert OrgRepaired(t, stuck, lost, batch, stuck);
      forall e | e in t.ledger && e.org in lost
        ensures e in Messages(batch)
      {
        assert OrgRepaired(t, stuck, lost, batch, e.org);
      }
    }
  }

  ghost predicate OrgRepaired(t: State, stuck: string, lost: set<string>, batch: seq<Wire>, org: string) {
    if org in lost then forall e :: e in t.ledger && e.org == org ==> e in Messages(batch)
    else org == stuck ==> RowsRight(ViewOf(t, org)) || exists e :: e in Messages(batch) && e !in t.ledger && e.org == org
  }

  lemma OrgAgainExactly(
      t: State, t': State, stuck: string, lost: set<string>, batch: seq<Wire>, news: seq<Event>, org: string)
    requires StoppedAt(t, stuck, lost) && Moved(ViewOf(t, org), ViewOf(t', org), org, news)
    requires Consistent(t.ledger + Elements(news)) && Consistent(t.ledger + Messages(batch))
    requires forall e :: e in news <==> e in Messages(batch) && (e.org in lost || e !in t.ledger)
    ensures OrgClean(ViewOf(t', org), org, t.ledger + Elements(news)) ==> DistinctIds(OfOrg(news, org))
    ensures NoRepeats(news) ==>
              (OrgClean(ViewOf(t', org), org, t.ledger + Elements(news)) <==> OrgRepaired(t, stuck, lost, batch, org))
  {
    hide LogClean, RowsRight, OfOrg, Consistent, NoRepeats, Moved, Messages, SeenOf;
    var v, v' := ViewOf(t, org), ViewOf(t', org);
    if org in lost {
      LostOrgAfter(v, v', org, t.ledger, news);
    } else {
      assert LogClean(v, org, t.ledger);
      forall e | e in news && e.org == org
        ensures e.id !in v.seen
      {
        SeenIsHeld(t, stuck, lost, batch, e);
      }
      HeldOrgAfter(v, v', org, t.ledger, news);
    }
  }

  // -- any history --------------------------------------------------------------

  /** What the process does: batches and rebuilds, each completed or not. */
  datatype Cycle = Batch(delivery: Delivery) | Replay(read: seq<Event>, budget: nat)

  ghost function Did(s: State, c: Cycle): State {
    match c
    case Batch(d) => Deliver(s, d.batch, d.budget).state
    case Replay(read, budget) => Rebuild(s, read, budget).state
  }

  ghost function Ran(s: State, cycles: seq<Cycle>): State
    decreases cycles
  {
    if cycles == [] then s else Ran(Did(s, cycles[0]), cycles[1..])
  }

  /** Every rebuild reads the ledger as it stands. */
  ghost predicate ReadsLedger(s: State, cycles: seq<Cycle>)
    decreases cycles
  {
    cycles == [] ||
    ((cycles[0].Replay? ==> Reads(cycles[0].read, s.ledger)) && ReadsLedger(Did(s, cycles[0]), cycles[1..]))
  }

  lemma PassKeepsBacked(s: State, org: string, events: seq<Event>, budget: nat)
    requires RowsBacked(s) && events != [] && forall e :: e in events ==> e.org == org
    ensures RowsBacked(OrgPass(s, org, events, budget).state)
  {
    hide StableSort, Refold, Emitted;
    var p := OrgPass(s, org, events, budget);
    SortIsRight(events);
    assert s.ledger <= p.state.ledger;
    assert events[0] in multiset(StableSort(events));
    forall other | RowsOf(p.state, other) != []
      ensures exists e :: e in p.state.ledger && e.org == other
    {
      if other == org && p.done {
        assert events[0] in p.state.ledger && events[0].org == org;
      } else {
        assert RowsOf(s, other) != [];
      }
    }
  }

  lemma {:induction false} PassesKeepBacked(s: State, orgs: seq<string>, news: seq<Event>, budget: nat)
    requires RowsBacked(s) && forall i :: 0 <= i < |orgs| ==> orgs[i] in Orgs(news)
    ensures RowsBacked(Passes(s, orgs, news, budget).state)
    decreases orgs
  {
    hide RowsBacked, OrgPass, OfOrg;
    if orgs != [] {
      var first := OrgPass(s, orgs[0], OfOrg(news, orgs[0]), budget);
      OfOrgIs(news, orgs[0]);
      var e :| e in news && e.org == orgs[0];
      assert e in OfOrg(news, orgs[0]);
      PassKeepsBacked(s, orgs[0], OfOrg(news, orgs[0]), budget);
      PassesKeepBacked(first.state, orgs[1..], news, first.budget);
    }
  }

  lemma RebuildKeepsBacked(s: State, read: seq<Event>, budget: nat)
    requires RowsBacked(s) && Reads(read, s.ledger)
    ensures RowsBacked(Rebuild(s, read, budget).state)
  {
    hide RebuildOrgs, Marked, Advanced, OfOrg, Reads, Orgs, ViewOf, Forgotten;
    var orgs, t := OrgList(read), Rebuild(s, read, budget).state;
    ForgetAll(s);
    var k := RebuildOrgsLeave(s.(logs := map[], seen := map[]), orgs, read, budget);
    forall org | RowsOf(t, org) != []
      ensures exists e :: e in t.ledger && e.org == org
    {
      if org in orgs {
        InLedger(read, s.ledger, org);
      } else {
        assert RowsOf(t, org) == RowsOf(s, org);
      }
    }
  }

  lemma {:induction false} RunKeepsBacked(s: State, cycles: seq<Cycle>)
    requires RowsBacked(s) && ReadsLedger(s, cycles)
    ensures RowsBacked(Ran(s, cycles))
    decreases cycles
  {
    hide RowsBacked, Passes, Reads, Ingest.Fresh, OrgList, Rebuild, BatchOk;
    if cycles != [] {
      var c := cycles[0];
      if c.Replay? {
        RebuildKeepsBacked(s, c.read, c.budget);
      } else if BatchOk(c.delivery.batch) {
        var news := Ingest.Fresh(s, c.delivery.batch);
        ListedOrgs(news);
        PassesKeepBacked(s, OrgList(news), news, c.delivery.budget);
      }
      RunKeepsBacked(Did(s, c), cycles[1..]);
    }
  }

  lemma ListedOrgs(news: seq<Event>)
    ensures forall i :: 0 <= i < |OrgList(news)| ==> OrgList(news)[i] in Orgs(news)
  {
    hide OrgList;
    var orgs := OrgList(news);
    assert forall i :: 0 <= i < |orgs| ==> orgs[i] in orgs;
  }

  /**
   * Whatever batches and rebuilds came before, completed, failed or stopped: a rebuild that completes leaves
   * every org the clean state of its ledger events.
   */
  lemma AnyHistoryIsRepaired(cycles: seq<Cycle>, read: seq<Event>, budget: nat)
    requires ReadsLedger(Ingest.START, cycles)
    requires Reads(read, Ran(Ingest.START, cycles).ledger) && Consistent(Ran(Ingest.START, cycles).ledger)
    requires Rebuild(Ran(Ingest.START, cycles), read, budget).done
    ensures Clean(Rebuild(Ran(Ingest.START, cycles), read, budget).state, Ran(Ingest.START, cycles).ledger)
  {
    hide Ran, Rebuild, Reads, Consistent, ReadsLedger, Clean;
    assert RowsBacked(Ingest.START);
    RunKeepsBacked(Ingest.START, cycles);
    CompletedRebuildIsClean(Ran(Ingest.START, cycles), read, budget);
  }

  // -- from the empty state -----------------------------------------------------

  /** A handled event whose payload fails its checks: its ledger row is written, its fold fails. */
  const BAD := Event("x", "a", 0, 1, Malformed)

  /** Another promise of the org that `PROMISE` is of. */
  const LATER := Event("f", "o", 0, 1, PromiseBroken)

  const BOTH := [BAD, PROMISE]

  lemma OnePromise(e: Event)
    requires e.body == PromiseBroken && e.at == 0
    ensures StableSort([e]) == [e] && Refold([e]) == Ok(Counted(1)) && Emitted([e]) == []
  {
    hide Rows;
    assert [e][..0] == [] && StableSort([]) == [] && Refold([]) == Ok(Fold.EMPTY);
    NothingToEmit(1);
  }

  lemma PromisePass(s: State, e: Event)
    requires e.body == PromiseBroken && e.at == 0 && e.version == 1 && LogOf(s, e.org) == [] && SeenOf(s, e.org) == {}
    ensures var p := Deliver(s, [Readable(e)], 1);
            && p.done && LogOf(p.state, e.org) == [e] && p.state.ledger == s.ledger + {e}
            && (forall org :: org != e.org ==> ViewOf(p.state, org) == ViewOf(s, org))
  {
    hide Refold, Emitted, StableSort, Deliver;
    OneEventIsOnePass(s, e, 1);
    OnePromise(e);
    assert [] + [e] == [e] && [e][..1] == [e];
  }

  lemma BadPass(s: State)
    requires LogOf(s, "a") == [] && SeenOf(s, "a") == {}
    ensures var p := Deliver(s, [Readable(BAD)], 1); !p.done && p.state.ledger == s.ledger + {BAD}
  {
    hide Emitted, Deliver;
    OneEventIsOnePass(s, BAD, 1);
    BadFails();
    assert [] + [BAD] == [BAD] && [BAD][..1] == [BAD];
  }

  lemma BadFails()
    ensures StableSort([BAD]) == [BAD] && Refold([BAD]) == Error
  {
    assert [BAD][..0] == [] && StableSort([]) == [] && Refold([]) == Ok(Fold.EMPTY);
  }

  lemma BothOrgs()
    ensures OrgList(BOTH) == ["a", "o"] && OfOrg(BOTH, "a") == [BAD]
  {
    StringLessIsTotal();
    assert BOTH[0] in BOTH && BOTH[1] in BOTH;
    assert Orgs(BOTH) == {"a", "o"};
    assert StringLess("a", "o");
    assert Ordering.Ascending(["a", "o"], StringLess);
    Ordering.AscendingIsUnique(OrgList(BOTH), ["a", "o"], StringLess);
    assert BOTH[..1] == [BAD] && [BAD][..0] == [];
    assert OfOrg([BAD], "a") == [] + [BAD] == [BAD];
  }

  /** The rebuild stops at org "a": "o" is blank, and "a" has seen its event. */
  lemma BadStopsRebuild(s: State, budget: nat)
    ensures var p := Rebuild(s, BOTH, budget);
            && !p.done && p.state.ledger == s.ledger && LogOf(p.state, "o") == [] && SeenOf(p.state, "o") == {}
            && SeenOf(p.state, "a") == {"x"}
  {
    hide StableSort, Refold, Emitted, OrgList, OfOrg;
    BothOrgs();
    BadFails();
    assert [] + [BAD] == [BAD];
    assert Ids([BAD]) == {"x"};
  }

  /**
   * From the empty state: a promise of one org, a malformed event of another, and a rebuild, which stops
   * there whatever the driver does. A further promise completes with a log that lacks the first, which the
   * ledger holds; the malformed event, redelivered, is dropped as seen.
   */
  lemma StoppedRebuildLoses(budget: nat)
    ensures var cycles := [Batch(Delivery([Readable(PROMISE)], 1)), Batch(Delivery([Readable(BAD)], 1)),
                           Replay(BOTH, budget)];
            var t := Ran(Ingest.START, cycles);
            var next := Deliver(t, [Readable(LATER)], 1);
            && ReadsLedger(Ingest.START, cycles) && t.ledger == {PROMISE, BAD}
            && next.done && LogOf(next.state, "o") == [LATER] && PROMISE in next.state.ledger
            && !Clean(next.state, t.ledger + {LATER})
            && Deliver(t, [Readable(BAD)], budget) == Passed(t, true, budget)
  {
    hide Deliver, Rebuild, OrgList;
    var c1, c2, c3 := Batch(Delivery([Readable(PROMISE)], 1)), Batch(Delivery([Readable(BAD)], 1)), Replay(BOTH, budget);
    var s1 := Did(Ingest.START, c1);
    PromisePass(Ingest.START, PROMISE);
    assert ViewOf(s1, "a") == ViewOf(Ingest.START, "a");
    BadPass(s1);
    var s2 := Did(s1, c2);
    BadStopsRebuild(s2, budget);
    var t := Did(s2, c3);
    ThreeCycles(Ingest.START, c1, c2, c3);
    assert multiset(BOTH) == multiset{BAD, PROMISE} == multiset({PROMISE, BAD});
    assert s2.ledger == {PROMISE, BAD};
    PromisePass(t, LATER);
    LostPromise(Deliver(t, [Readable(LATER)], 1).state, t.ledger + {LATER});
    SeenIsDropped(t, BAD, budget);
  }

  lemma RanStep(s: State, c: Cycle, rest: seq<Cycle>)
    ensures Ran(s, [c] + rest) == Ran(Did(s, c), rest)
    ensures (c.Batch? || Reads(c.read, s.ledger)) && ReadsLedger(Did(s, c), rest) ==> ReadsLedger(s, [c] + rest)
  {
    hide Did, Reads;
    assert ([c] + rest)[1..] == rest;
  }

  lemma ThreeCycles(s: State, a: Cycle, b: Cycle, c: Cycle)
    ensures Ran(s, [a, b, c]) == Did(Did(Did(s, a), b), c)
    ensures a.Batch? && b.Batch? && c.Replay? && Reads(c.read, Did(Did(s, a), b).ledger) ==> ReadsLedger(s, [a, b, c])
  {
    hide Did, Reads;
    RanStep(s, a, [b] + ([c] + []));
    RanStep(Did(s, a), b, [c] + []);
    RanStep(Did(Did(s, a), b), c, []);
    assert [a, b, c] == [a] + ([b] + ([c] + []));
  }

  lemma LostPromise(s: State, all: set<Event>)
    requires LogOf(s, "o") == [LATER] && PROMISE in all
    ensures !Clean(s, all)
  {
    hide RowsRight, Canonical;
    assert PROMISE != LATER && PROMISE !in LogOf(s, "o");
    assert ViewOf(s, "o").log == LogOf(s, "o");
  }

  /** A message already seen changes nothing. */
  lemma SeenIsDropped(s: State, e: Event, budget: nat)
    requires Acceptable(Readable(e)) && e.id in SeenOf(s, e.org)
    ensures Deliver(s, [Readable(e)], budget) == Passed(s, true, budget)
  {
    hide Acceptable, SeenOf;
    var batch := [Readable(e)];
    assert batch[..0] == [] && Ingest.Fresh(s, []) == [];
    assert Ingest.Fresh(s, batch) == [] + [] == [];
    EmptyOrNot(OrgList([]));
  }
}
