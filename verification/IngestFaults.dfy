/** Where ingestion is not harmless: events repeated in one batch, and events left behind by a failed pass. */
module IngestFaults {
  import opened EventLog
  import opened Fold
  import opened Projections
  import opened Emission
  import opened Ingest

  // -- repeats in one batch -----------------------------------------------------

  lemma DistinctMeansNoRepeats(news: seq<Event>)
    requires Consistent(Elements(news)) && forall org :: DistinctIds(OfOrg(news, org))
    ensures NoRepeats(news)
  {
    hide OfOrg;
    forall i, j | 0 <= i < j < |news| && news[i].org == news[j].org
      ensures news[i].id != news[j].id
    {
      assert news[i] in news && news[j] in news;
      if news[i] == news[j] {
        var e := news[i];
        TwiceCounted(news, i, j);
        OfOrgCounts(news, e.org, e);
        OnceCounted(OfOrg(news, e.org), e);
      }
    }
  }

  lemma CleanAdvanceIsDistinct(v: View, v': View, org: string, all: set<Event>, news: seq<Event>)
    requires LogClean(v, org, all) && Advanced(v, v', OfOrg(news, org)) && Canonical(v'.log)
    requires Consistent(all + Elements(news))
    ensures DistinctIds(OfOrg(news, org))
  {
    hide StableSort, Refold, Emitted, CanonicalLess, Canonical, OfOrg;
    var events := OfOrg(news, org);
    OfOrgIs(news, org);
    assert Elements(v.log + events) <= all + Elements(news);
    UpsertCanonicalExactly(v.log, events);
  }

  /**
   * A completed batch leaves every org's log canonical, and its state clean, exactly when it repeats no
   * unseen event.
   */
  lemma CleanExactlyWithoutRepeats(s: State, all: set<Event>, batch: seq<Wire>, budget: nat)
    requires Clean(s, all) && BatchOk(batch) && Deliver(s, batch, budget).done
    requires Consistent(all + Messages(batch))
    ensures Clean(Deliver(s, batch, budget).state, all + Messages(batch)) <==> NoRepeats(Fresh(s, batch))
    ensures (forall org :: Canonical(LogOf(Deliver(s, batch, budget).state, org))) <==> NoRepeats(Fresh(s, batch))
  {
    hide Passes, Advanced, OfOrg, Fresh, LogClean, RowsRight, Canonical, ViewOf;
    var news := Fresh(s, batch);
    var s' := Deliver(s, batch, budget).state;
    FreshIs(s, batch);
    assert Elements(news) <= Messages(batch);
    if NoRepeats(news) {
      DeliverKeepsClean(s, all, batch, budget);
    }
    if Clean(s', all + Messages(batch)) {
      forall org
        ensures Canonical(LogOf(s', org))
      {
        CleanLog(s', all + Messages(batch), org);
      }
    }
    if forall org :: Canonical(LogOf(s', org)) {
      PassesAdvance(s, OrgList(news), news, budget);
      forall org
        ensures DistinctIds(OfOrg(news, org))
      {
        OfOrgIs(news, org);
        if org in OrgList(news) {
          LogInView(s', org);
          CleanAdvanceIsDistinct(ViewOf(s, org), ViewOf(s', org), org, all, news);
        }
      }
      DistinctMeansNoRepeats(news);
    }
  }

  lemma LogInView(s: State, org: string)
    ensures ViewOf(s, org).log == LogOf(s, org)
  {
  }

  // -- what a batch needs -------------------------------------------------------

  /** An org's log with its new events. */
  function Grown(s: State, org: string, news: seq<Event>): seq<Event> { StableSort(LogOf(s, org) + OfOrg(news, org)) }

  ghost predicate Folds(s: State, orgs: seq<string>, news: seq<Event>) {
    forall i :: 0 <= i < |orgs| ==> Refold(Grown(s, orgs[i], news)).Ok?
  }

  /** The statements a batch takes: a ledger row for each new event, and every row of each of its orgs. */
  ghost function Cost(s: State, orgs: seq<string>, news: seq<Event>): nat
    requires Folds(s, orgs, news)
    decreases orgs
  {
    if orgs == [] then 0
    else |OfOrg(news, orgs[0])| + |Emitted(Grown(s, orgs[0], news))| + Cost(s, orgs[1..], news)
  }

  lemma {:induction false} CostElsewhere(s: State, s': State, orgs: seq<string>, news: seq<Event>)
    requires forall i :: 0 <= i < |orgs| ==> LogOf(s', orgs[i]) == LogOf(s, orgs[i])
    ensures Folds(s', orgs, news) <==> Folds(s, orgs, news)
    ensures Folds(s, orgs, news) ==> Cost(s', orgs, news) == Cost(s, orgs, news)
    decreases orgs
  {
    hide StableSort, Refold, Emitted, OfOrg;
    assert forall i :: 0 <= i < |orgs| ==> Grown(s', orgs[i], news) == Grown(s, orgs[i], news);
    if orgs != [] && Folds(s, orgs, news) {
      CostElsewhere(s, s', orgs[1..], news);
    }
  }

  lemma PassNeeds(s: State, org: string, events: seq<Event>, budget: nat)
    ensures var p := OrgPass(s, org, events, budget);
            var log := StableSort(LogOf(s, org) + events);
            && (p.done <==> Refold(log).Ok? && |events| + |Emitted(log)| <= budget)
            && (p.done ==> p.budget == budget - |events| - |Emitted(log)|)
            && (forall other :: other != org ==> LogOf(p.state, other) == LogOf(s, other))
  {
    hide StableSort, Refold, Emitted;
    SortKeeps(events);
  }

  lemma {:induction false} PassesNeed(s: State, orgs: seq<string>, news: seq<Event>, budget: nat)
    requires Distinct(orgs)
    ensures var p := Passes(s, orgs, news, budget);
            && (p.done <==> Folds(s, orgs, news) && Cost(s, orgs, news) <= budget)
            && (p.done ==> p.budget == budget - Cost(s, orgs, news))
    decreases orgs
  {
    hide OrgPass, StableSort, Refold, Emitted, OfOrg, LogOf;
    if orgs != [] {
      var org, rest := orgs[0], orgs[1..];
      var first := OrgPass(s, org, OfOrg(news, org), budget);
      PassNeeds(s, org, OfOrg(news, org), budget);
      assert forall i :: 0 <= i < |rest| ==> rest[i] == orgs[i + 1] && rest[i] != org;
      CostElsewhere(s, first.state, rest, news);
      if first.done {
        PassesNeed(first.state, rest, news, first.budget);
      }
    }
  }

  /**
   * A batch completes exactly when every message reads, each handled one is of version 1, the log of each of
   * its orgs folds with the new events, and the driver takes all their statements: it uses that many. One bad
   * message, and nothing changes at all.
   */
  lemma CompletesExactly(s: State, batch: seq<Wire>, budget: nat)
    ensures var p := Deliver(s, batch, budget);
            var good := forall i :: 0 <= i < |batch| ==>
                          batch[i].Readable? && (batch[i].ev.version == 1 || batch[i].ev.body.LedgerOnly?);
            if !good then p == Passed(s, false, budget)
            else
              && BatchOk(batch)
              && var news := Fresh(s, batch);
                 && (p.done <==> Folds(s, OrgList(news), news) && Cost(s, OrgList(news), news) <= budget)
                 && (p.done ==> p.budget == budget - Cost(s, OrgList(news), news))
  {
    hide Passes, Fresh, OrgList, Folds, Cost;
    if BatchOk(batch) {
      PassesNeed(s, OrgList(Fresh(s, batch)), Fresh(s, batch), budget);
    }
  }

  // -- after a failed pass ------------------------------------------------------

  lemma SortKeeps(events: seq<Event>)
    ensures |StableSort(events)| == |events| && Elements(StableSort(events)) == Elements(events)
  {
    hide StableSort;
    SortIsRight(events);
    var canonical := StableSort(events);
    assert |canonical| == |multiset(canonical)| == |multiset(events)| == |events|;
    assert forall e :: e in canonical <==> e in multiset(canonical);
    assert forall e :: e in events <==> e in multiset(events);
  }

  /** A pass that stops leaves its events in the log, unseen, and no row changes. */
  lemma FailedPassLeavesEvents(s: State, org: string, events: seq<Event>, budget: nat)
    requires !OrgPass(s, org, events, budget).done
    ensures var s' := OrgPass(s, org, events, budget).state;
            && SeenOf(s', org) == SeenOf(s, org) && (forall e :: e in events ==> e in LogOf(s', org))
            && s'.rows == s.rows
  {
    hide StableSort, Refold, Emitted;
    SortHolds(LogOf(s, org), events);
  }

  /** Of its events the ledger gains all, or as many, in canonical order, as the driver took. */
  lemma FailedPassInserts(s: State, org: string, events: seq<Event>, budget: nat)
    requires !OrgPass(s, org, events, budget).done
    ensures |StableSort(events)| == |events|
    ensures OrgPass(s, org, events, budget).state.ledger
            == s.ledger + if budget < |events| then Elements(StableSort(events)[..budget]) else Elements(events)
  {
    hide StableSort, Refold, Emitted;
    SortKeeps(events);
  }

  lemma EntriesStay(f: Figures, ev: Event)
    requires Apply(f, ev).Ok?
    ensures f.book.entries.Keys <= Apply(f, ev).figures.book.entries.Keys
    ensures ev.body.Opened? ==> ev.body.receivable !in f.book.entries
    ensures ev.body.Opened? ==> ev.body.receivable in Apply(f, ev).figures.book.entries
  {
    hide DayKey, Bump, DaysOf, Issue, Void;
  }

  lemma {:induction false} OpenedIsInBook(log: seq<Event>, i: nat)
    requires i < |log| && log[i].body.Opened? && Refold(log).Ok?
    ensures log[i].body.receivable in Refold(log).figures.book.entries
    decreases |log|
  {
    hide Apply;
    var front, last := log[..|log| - 1], log[|log| - 1];
    EntriesStay(Refold(front).figures, last);
    if i < |front| {
      assert front[i] == log[i];
      OpenedIsInBook(front, i);
    }
  }

  /** A log that opens a receivable twice does not fold. */
  lemma {:induction false} OpenedTwiceFails(log: seq<Event>, i: nat, j: nat)
    requires i < j < |log| && log[i].body.Opened? && log[j].body.Opened?
    requires log[i].body.receivable == log[j].body.receivable
    ensures !Refold(log).Ok?
    decreases |log|
  {
    hide Apply;
    var front := log[..|log| - 1];
    if Refold(front).Ok? {
      if j < |front| {
        assert front[i] == log[i] && front[j] == log[j];
        OpenedTwiceFails(front, i, j);
      } else {
        assert front[i] == log[i];
        OpenedIsInBook(front, i);
        if Apply(Refold(front).figures, log[j]).Ok? {
          EntriesStay(Refold(front).figures, log[j]);
        }
      }
    }
  }

  lemma HeldTwice(log: seq<Event>, e: Event)
    requires multiset(log)[e] >= 2
    ensures exists i, j :: 0 <= i < j < |log| && log[i] == e && log[j] == e
  {
    assert e in multiset(log);
    var j := LastAt(log, e);
    var front := log[..j];
    assert log == front + [e] + log[j + 1..];
    assert e !in log[j + 1..];
    assert multiset(front)[e] >= 1;
    var i :| 0 <= i < |front| && front[i] == e;
    assert log[i] == e;
  }

  lemma {:induction false} LastAt(s: seq<Event>, e: Event) returns (k: nat)
    requires e in s
    ensures k < |s| && s[k] == e && e !in s[k + 1..]
  {
    k := |s| - 1;
    if s[k] != e {
      var front := s[..k];
      assert s == front + [s[k]];
      k := LastAt(front, e);
      assert s[k + 1..] == front[k + 1..] + [s[|s| - 1]];
    }
  }

  /** An org whose log holds one opening event twice. */
  ghost predicate Wedged(s: State, org: string, e: Event) {
    e.body.Opened? && multiset(LogOf(s, org))[e] >= 2
  }

  /** The org's seen ids and emitted rows are what they were. */
  ghost predicate Frozen(s: State, s': State, org: string) {
    SeenOf(s', org) == SeenOf(s, org) && ViewOf(s', org).rows == ViewOf(s, org).rows
  }

  /** A log that does not fold stops the pass, whatever the driver accepts. */
  lemma UnfoldableStops(s: State, org: string, events: seq<Event>, budget: nat)
    requires !Refold(StableSort(LogOf(s, org) + events)).Ok?
    ensures var p := OrgPass(s, org, events, budget);
            !p.done && LogOf(p.state, org) == StableSort(LogOf(s, org) + events) && Frozen(s, p.state, org)
  {
    hide StableSort, Refold, Emitted;
  }

  lemma TwiceStops(s: State, org: string, events: seq<Event>, e: Event, budget: nat)
    requires e.body.Opened? && multiset(LogOf(s, org) + events)[e] >= 2
    ensures var p := OrgPass(s, org, events, budget);
            !p.done && Wedged(p.state, org, e) && Frozen(s, p.state, org)
  {
    hide StableSort, Refold, OrgPass, LogOf, Frozen;
    var log := StableSort(LogOf(s, org) + events);
    SortIsRight(LogOf(s, org) + events);
    HeldTwice(log, e);
    var i, j :| 0 <= i < j < |log| && log[i] == e && log[j] == e;
    OpenedTwiceFails(log, i, j);
    UnfoldableStops(s, org, events, budget);
  }

  /**
   * Redelivery after a failure is not harmless: once a stopped pass has left an opening event behind, a
   * pass that delivers it again stops too, whatever the driver does, and leaves the org wedged.
   */
  lemma RedeliveredOpeningStops(
      s: State, org: string, events: seq<Event>, again: seq<Event>, e: Event, b1: nat, b2: nat)
    requires !OrgPass(s, org, events, b1).done && e.body.Opened? && e in events && e in again
    ensures var p := OrgPass(OrgPass(s, org, events, b1).state, org, again, b2);
            !p.done && Wedged(p.state, org, e)
  {
    hide OrgPass;
    FailedPassLeavesEvents(s, org, events, b1);
    var s' := OrgPass(s, org, events, b1).state;
    assert multiset(LogOf(s', org) + again) == multiset(LogOf(s', org)) + multiset(again);
    assert e in multiset(LogOf(s', org)) && e in multiset(again);
    TwiceStops(s', org, again, e, b2);
  }

  lemma OtherPassLeaves(s: State, other: string, events: seq<Event>, budget: nat, org: string)
    requires other != org
    ensures var s' := OrgPass(s, other, events, budget).state; LogOf(s', org) == LogOf(s, org) && Frozen(s, s', org)
  {
    hide StableSort, Refold, Emitted;
  }

  lemma {:induction false} WedgedPasses(
      s: State, orgs: seq<string>, news: seq<Event>, budget: nat, org: string, e: Event)
    requires Wedged(s, org, e)
    ensures var p := Passes(s, orgs, news, budget);
            Wedged(p.state, org, e) && Frozen(s, p.state, org) && (org in orgs ==> !p.done)
    decreases orgs
  {
    hide OrgPass, OfOrg;
    if orgs != [] {
      var events := OfOrg(news, orgs[0]);
      var first := OrgPass(s, orgs[0], events, budget);
      if orgs[0] == org {
        assert multiset(LogOf(s, org) + events) == multiset(LogOf(s, org)) + multiset(events);
        TwiceStops(s, org, events, e, budget);
      } else {
        OtherPassLeaves(s, orgs[0], events, budget, org);
        WedgedPasses(first.state, orgs[1..], news, first.budget, org, e);
        assert orgs == [orgs[0]] + orgs[1..];
      }
    }
  }

  /**
   * A wedged org stays so: whatever is delivered, in however many batches and however the driver behaves,
   * its seen ids and rows never change again, and every batch with an unseen event of it stops.
   */
  lemma {:induction false} WedgedForGood(s: State, schedule: seq<Delivery>, org: string, e: Event)
    requires Wedged(s, org, e)
    ensures Wedged(After(s, schedule), org, e) && Frozen(s, After(s, schedule), org)
    ensures forall batch, budget :: BatchOk(batch) && org in Orgs(Fresh(After(s, schedule), batch)) ==>
              !Deliver(After(s, schedule), batch, budget).done
    decreases schedule
  {
    hide Passes, Wedged, Frozen, Ingest.Fresh, OrgList, Orgs, BatchOk;
    if schedule == [] {
      StillFrozen(s, s, s, org);
      forall batch, budget | BatchOk(batch) && org in Orgs(Ingest.Fresh(s, batch))
        ensures !Deliver(s, batch, budget).done
      {
        WedgedPasses(s, OrgList(Ingest.Fresh(s, batch)), Ingest.Fresh(s, batch), budget, org, e);
      }
    } else {
      var d := schedule[0];
      var s' := Deliver(s, d.batch, d.budget).state;
      StillFrozen(s, s, s, org);
      if BatchOk(d.batch) {
        WedgedPasses(s, OrgList(Ingest.Fresh(s, d.batch)), Ingest.Fresh(s, d.batch), d.budget, org, e);
      }
      WedgedForGood(s', schedule[1..], org, e);
      StillFrozen(s, s', After(s', schedule[1..]), org);
    }
  }

  lemma StillFrozen(s: State, t: State, u: State, org: string)
    ensures Frozen(s, s, org) && (Frozen(s, t, org) && Frozen(t, u, org) ==> Frozen(s, u, org))
  {
  }

  /** A completed pass keeps the log canonical exactly when no failed pass left one of its events behind. */
  lemma LeftoversShowExactly(s: State, org: string, events: seq<Event>, budget: nat)
    requires OrgPass(s, org, events, budget).done && Canonical(LogOf(s, org)) && DistinctIds(events)
    requires Consistent(Elements(LogOf(s, org) + events))
    requires forall e :: e in LogOf(s, org) + events ==> e.org == org
    ensures Canonical(LogOf(OrgPass(s, org, events, budget).state, org)) <==> Apart(LogOf(s, org), events)
  {
    hide StableSort, Refold, Emitted, CanonicalLess, Canonical;
    UpsertCanonicalExactly(LogOf(s, org), events);
  }

  // -- from the empty state -----------------------------------------------------

  /** A broken promise: an event that only counts. */
  const PROMISE := Event("e", "o", 0, 1, PromiseBroken)

  function Counted(n: int): Figures { Fold.EMPTY.(promisesBroken := map[0 := n]) }

  lemma PassOfOne(s: State, org: string, news: seq<Event>, budget: nat)
    ensures Passes(s, [org], news, budget) == OrgPass(s, org, OfOrg(news, org), budget)
  {
    hide OrgPass, OfOrg;
    var first := OrgPass(s, org, OfOrg(news, org), budget);
    assert [org][1..] == [] && Passes(first.state, [], news, first.budget) == Passed(first.state, true, first.budget);
  }

  /** A batch of one unseen event is one pass of its org. */
  lemma OneEventIsOnePass(s: State, e: Event, budget: nat)
    requires Acceptable(Readable(e)) && e.id !in SeenOf(s, e.org)
    ensures BatchOk([Readable(e)]) && Ingest.Fresh(s, [Readable(e)]) == [e]
    ensures Deliver(s, [Readable(e)], budget) == OrgPass(s, e.org, [e], budget)
  {
    hide OrgPass, Acceptable, OrgList, Passes, SeenOf;
    var batch := [Readable(e)];
    assert batch[..0] == [] && Ingest.Fresh(s, []) == [];
    assert Ingest.Fresh(s, batch) == [] + [e] == [e];
    OneOrg([e], e);
    assert [e][..0] == [] && OfOrg([e], e.org) == [] + [e] == [e];
    PassOfOne(s, e.org, [e], budget);
  }

  /** The opening of a receivable. */
  const OPENING := Event("e", "o", 0, 1, Opened("r", "i", 100, 0))

  /**
   * From the empty state: an opening whose ledger insert fails, redelivered to a driver that accepts
   * anything, and then any deliveries at all. The org never emits a row and never sees the event.
   */
  lemma OpeningIsWedged(budget: nat, rest: seq<Delivery>)
    ensures var batch := [Readable(OPENING)];
            var s := After(After(Ingest.START, [Delivery(batch, 0), Delivery(batch, budget)]), rest);
            Wedged(s, "o", OPENING) && SeenOf(s, "o") == {} && ViewOf(s, "o").rows == []
  {
    hide OrgPass, Deliver, Wedged;
    var batch := [Readable(OPENING)];
    var failed := OrgPass(Ingest.START, "o", [OPENING], 0);
    OneEventIsOnePass(Ingest.START, OPENING, 0);
    FirstInsertFails();
    OneEventIsOnePass(failed.state, OPENING, budget);
    RedeliveredOpeningStops(Ingest.START, "o", [OPENING], [OPENING], OPENING, 0, budget);
    var wedged := OrgPass(failed.state, "o", [OPENING], budget).state;
    TwiceStops(failed.state, "o", [OPENING], OPENING, budget);
    var two := [Delivery(batch, 0), Delivery(batch, budget)];
    assert two[1..] == [Delivery(batch, budget)] && two[1..][1..] == [];
    assert After(Ingest.START, two) == After(failed.state, two[1..]) == After(wedged, []);
    WedgedForGood(wedged, rest, "o", OPENING);
  }

  lemma FirstInsertFails()
    ensures var failed := OrgPass(Ingest.START, "o", [OPENING], 0);
            && !failed.done && LogOf(failed.state, "o") == [OPENING] && Frozen(Ingest.START, failed.state, "o")
            && multiset(LogOf(failed.state, "o") + [OPENING])[OPENING] >= 2
  {
    hide Refold, Emitted;
    assert [OPENING][..0] == [] && StableSort([]) == [];
    assert StableSort([OPENING]) == [OPENING];
    assert LogOf(Ingest.START, "o") + [OPENING] == [OPENING];
    assert [OPENING] + [OPENING] == [OPENING, OPENING];
  }

  lemma SortTwice()
    ensures StableSort([PROMISE]) == [PROMISE] && StableSort([PROMISE, PROMISE]) == [PROMISE, PROMISE]
  {
    hide CanonicalLess;
    LessIsStrict(PROMISE, PROMISE);
    assert [PROMISE][..0] == [];
    assert StableSort([]) == [];
    assert StableSort([PROMISE]) == Place([], PROMISE) == [PROMISE];
    assert [PROMISE, PROMISE][..1] == [PROMISE];
    assert Place([PROMISE], PROMISE) == [PROMISE] + [PROMISE];
  }

  /** The same promise twice in a log is counted twice. */
  lemma PromiseTwice()
    ensures Refold([PROMISE]) == Ok(Counted(1)) && Refold([PROMISE, PROMISE]) == Ok(Counted(2))
    ensures !Canonical([PROMISE, PROMISE])
  {
    hide CanonicalLess;
    var one, two := [PROMISE], [PROMISE, PROMISE];
    assert one[..0] == [] && two[..1] == one;
    assert Refold([]) == Ok(Fold.EMPTY);
    assert Refold(one) == Apply(Fold.EMPTY, PROMISE) == Ok(Counted(1));
    assert Refold(two) == Apply(Counted(1), PROMISE);
    LessIsStrict(two[0], two[1]);
  }

  /** Figures without activity, currencies or receivables emit no rows. */
  lemma NothingToEmit(n: int)
    ensures Listable(Counted(n).book) && Rows(Counted(n)) == []
  {
    hide RowsOfDays, RowsOfCohorts;
    var f := Counted(n);
    assert DayList(f) == [] by { NoDays(f); }
    assert KeyList(f) == [] by { NoKeys(f); }
    NoRows(f);
  }

  lemma EmptyOrNot<T>(s: seq<T>)
    ensures s == [] || exists x :: x in s
  {
    if s != [] { assert s[0] in s; }
  }

  lemma NoDays(f: Figures)
    requires f.activity == {}
    ensures DayList(f) == []
  {
    EmptyOrNot(DayList(f));
  }

  lemma NoKeys(f: Figures)
    requires f.book.order == []
    ensures Listable(f.book) && KeyList(f) == []
  {
    EmptyOrNot(KeyList(f));
  }

  lemma NoRows(f: Figures)
    requires Listable(f.book)
    ensures RowsOfDays(f, CurrencyList(f), []) == [] && RowsOfCohorts(f, []) == []
  {
  }

  /** A batch that completes and repeats an unseen event: the log holds it twice and it is counted twice. */
  lemma RepeatedEventCountsTwice()
    ensures var batch := [Readable(PROMISE), Readable(PROMISE)];
            var passed := Deliver(Ingest.START, batch, 2);
            && BatchOk(batch) && passed.done && !NoRepeats(Fresh(Ingest.START, batch))
            && LogOf(passed.state, "o") == [PROMISE, PROMISE]
            && Refold(LogOf(passed.state, "o")) == Ok(Counted(2))
  {
    hide Refold, StableSort, Emitted, Rows;
    var batch := [Readable(PROMISE), Readable(PROMISE)];
    var news := [PROMISE, PROMISE];
    FreshTwice(batch, news);
    assert news[0].org == news[1].org && news[0].id == news[1].id;
    OneOrg(news, PROMISE);
    OfOrgTwice(news);
    PassTwice(Ingest.START, [], news, 2);
    assert ["o"][1..] == [];
  }

  lemma FreshTwice(batch: seq<Wire>, news: seq<Event>)
    requires batch == [Readable(PROMISE), Readable(PROMISE)] && news == [PROMISE, PROMISE]
    ensures BatchOk(batch) && Fresh(Ingest.START, batch) == news
  {
    var one := batch[..1];
    assert one == [Readable(PROMISE)] && one[..0] == [];
    assert Fresh(Ingest.START, one[..0]) == [];
    assert Fresh(Ingest.START, one) == [] + [PROMISE] == [PROMISE];
    assert Fresh(Ingest.START, batch) == [PROMISE] + [PROMISE];
    assert [PROMISE] + [PROMISE] == news;
  }

  lemma OneOrg(news: seq<Event>, x: Event)
    requires news != [] && forall e :: e in news ==> e == x
    ensures OrgList(news) == [x.org]
  {
    hide OrgList;
    var orgs := OrgList(news);
    var first := if |orgs| > 0 then orgs[0] else "";
    var second := if |orgs| > 1 then orgs[1] else "";
    assert news[0] in news;
    assert Orgs(news) == {x.org};
    assert x.org in orgs;
    assert |orgs| > 1 ==> first in orgs && second in orgs && first != second;
    assert |orgs| == 1;
    assert orgs[0] in orgs;
  }

  lemma OfOrgTwice(news: seq<Event>)
    requires news == [PROMISE, PROMISE]
    ensures OfOrg(news, "o") == news && OfOrg([PROMISE], "o") == [PROMISE]
  {
    var one := news[..1];
    assert one == [PROMISE] && one[..0] == [];
    assert OfOrg(one, "o") == [] + [PROMISE] == [PROMISE];
    assert OfOrg(news, "o") == OfOrg(one, "o") + [PROMISE];
    assert [PROMISE] + [PROMISE] == news;
  }

  /** A pass whose log comes to the promise twice completes once its statements are paid for. */
  lemma PassTwice(s: State, log: seq<Event>, events: seq<Event>, budget: nat)
    requires LogOf(s, "o") == log && log + events == [PROMISE, PROMISE] && budget == |events|
    requires events == [PROMISE] || events == [PROMISE, PROMISE]
    ensures OrgPass(s, "o", events, budget).done
    ensures LogOf(OrgPass(s, "o", events, budget).state, "o") == [PROMISE, PROMISE]
    ensures Refold([PROMISE, PROMISE]) == Ok(Counted(2))
  {
    hide Refold, StableSort, Rows;
    SortTwice();
    PromiseTwice();
    NothingToEmit(2);
  }

  /** A pass whose first statement fails, and its redelivery: the second completes with the event twice in the log. */
  lemma LeftoverIsDuplicated()
    ensures var failed := OrgPass(Ingest.START, "o", [PROMISE], 0);
            var again := OrgPass(failed.state, "o", [PROMISE], 1);
            && !failed.done && again.done && LogOf(again.state, "o") == [PROMISE, PROMISE]
            && !Canonical(LogOf(again.state, "o"))
  {
    hide Refold, StableSort, Emitted, Rows, Canonical;
    SortTwice();
    PromiseTwice();
    var failed := OrgPass(Ingest.START, "o", [PROMISE], 0);
    assert [] + [PROMISE] == [PROMISE];
    PassTwice(failed.state, [PROMISE], [PROMISE], 1);
  }
}
