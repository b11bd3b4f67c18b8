/** The ingester as it runs: batches parsed, deduplicated, grouped, folded and emitted in loops. */
module Ingester {
  import opened EventLog
  import opened Fold
  import opened Ordering
  import opened Projections
  import opened Emission
  import opened Ingest
  import Rebuild

  lemma FreshNext(s: State, batch: seq<Wire>, i: nat)
    requires i < |batch| && BatchOk(batch)
    ensures Fresh(s, batch[..i + 1])
            == Fresh(s, batch[..i]) + (if batch[i].ev.id in SeenOf(s, batch[i].ev.org) then [] else [batch[i].ev])
  {
    assert batch[..i + 1][..i] == batch[..i];
  }

  lemma OfOrgNext(news: seq<Event>, i: nat, org: string)
    requires i < |news|
    ensures OfOrg(news[..i + 1], org) == OfOrg(news[..i], org) + (if news[i].org == org then [news[i]] else [])
  {
    assert news[..i + 1][..i] == news[..i];
  }

  ghost predicate Grouping(byOrg: map<string, seq<Event>>, news: seq<Event>) {
    && byOrg.Keys == Orgs(news)
    && forall org :: (if org in byOrg then byOrg[org] else []) == OfOrg(news, org)
  }

  lemma GroupingNext(byOrg: map<string, seq<Event>>, news: seq<Event>, i: nat)
    requires i < |news| && Grouping(byOrg, news[..i])
    ensures var org := news[i].org;
            Grouping(byOrg[org := (if org in byOrg then byOrg[org] else []) + [news[i]]], news[..i + 1])
  {
    hide OfOrg;
    var org := news[i].org;
    var next := byOrg[org := (if org in byOrg then byOrg[org] else []) + [news[i]]];
    forall other
      ensures (if other in next then next[other] else []) == OfOrg(news[..i + 1], other)
    {
      OfOrgNext(news, i, other);
      assert (if other in byOrg then byOrg[other] else []) == OfOrg(news[..i], other);
    }
    assert news[..i + 1] == news[..i] + [news[i]];
    assert next.Keys == Orgs(news[..i + 1]);
  }

  /** Org ids sorted, as the ledger's statement order wants them. */
  method SortOrgs(keys: set<string>) returns (orgs: seq<string>)
    ensures StrictTotal(StringLess) && orgs == Listed(keys, StringLess)
    ensures forall org :: org in orgs <==> org in keys
    ensures Distinct(orgs)
  {
    hide StringLess, StrictTotal;
    StringLessIsTotal();
    orgs := List(keys, StringLess);
    DistinctList(orgs);
  }

  lemma DistinctList(orgs: seq<string>)
    requires Ascending(orgs, StringLess)
    ensures Distinct(orgs)
  {
    forall i, k | 0 <= k < i < |orgs|
      ensures orgs[k] != orgs[i]
    {
      assert StringLess(orgs[k], orgs[i]);
      StringLessIsStrict(orgs[k], orgs[i]);
    }
  }

  class IngesterState {
    var logs: map<string, seq<Event>>
    var seen: map<string, set<string>>
    var ledger: set<Event>
    var rows: map<string, seq<Row>>

    function Current(): State
      reads this
    {
      State(logs, seen, ledger, rows)
    }

    constructor ()
      ensures Current() == START
    {
      logs, seen, ledger, rows := map[], map[], {}, map[];
    }

    method Dedupe(batch: seq<Wire>) returns (news: seq<Event>)
      requires BatchOk(batch)
      ensures news == Ingest.Fresh(Current(), batch)
    {
      news := [];
      for i := 0 to |batch|
        invariant news == Ingest.Fresh(Current(), batch[..i])
      {
        FreshNext(Current(), batch, i);
        var ev := batch[i].ev;
        if ev.org in seen && ev.id in seen[ev.org] {
          continue;
        }
        news := news + [ev];
      }
      assert batch[..|batch|] == batch;
    }

    method Group(news: seq<Event>) returns (byOrg: map<string, seq<Event>>)
      ensures Grouping(byOrg, news)
    {
      byOrg := map[];
      assert Grouping(byOrg, news[..0]);
      for i := 0 to |news|
        invariant Grouping(byOrg, news[..i])
      {
        GroupingNext(byOrg, news, i);
        var org := news[i].org;
        byOrg := byOrg[org := (if org in byOrg then byOrg[org] else []) + [news[i]]];
      }
      assert news[..|news|] == news;
    }

    method MarkSeen(org: string, events: seq<Event>)
      modifies this`seen
      ensures seen == old(seen)[org := SeenOf(old(Current()), org) + Ids(events)]
    {
      var ids := SeenOf(Current(), org);
      for i := 0 to |events|
        invariant ids == SeenOf(Current(), org) + Ids(events[..i])
      {
        assert events[..i + 1] == events[..i] + [events[i]];
        ids := ids + {events[i].id};
      }
      assert events[..|events|] == events;
      seen := seen[org := ids];
    }

    /** One org: log, ledger, fold, rows, and only then the seen ids. */
    method PassOrg(org: string, events: seq<Event>, budget: nat) returns (done: bool, left: nat)
      modifies this
      ensures Passed(Current(), done, left) == OrgPass(old(Current()), org, events, budget)
    {
      hide StableSort, Refold, Rows, Sorted, Canonical, Listable, TransitionsInTime;
      var state := new OrgState();
      state.log := LogOf(Current(), org);
      state.UpsertLog(events);
      logs := logs[org := state.log];
      ghost var before := old(Current());
      var canonical := StableSort(events);
      left := budget;
      for i := 0 to |canonical|
        invariant fresh(state) && state.log == StableSort(LogOf(before, org) + events) && Sorted(state.log)
        invariant Current() == before.(logs := before.logs[org := state.log],
                                       ledger := before.ledger + Elements(canonical[..i]))
        invariant left == budget - i
      {
        if left == 0 {
          return false, 0;
        }
        assert canonical[..i + 1] == canonical[..i] + [canonical[i]];
        ledger := ledger + {canonical[i]};
        left := left - 1;
      }
      assert canonical[..|canonical|] == canonical;
      var status := state.RefoldLog();
      if status != Fine {
        return false, left;
      }
      RefoldIsEmittable(state.log);
      var emitted := Emit(state.Current());
      if left < |emitted| {
        return false, 0;
      }
      rows := rows[org := emitted];
      left := left - |emitted|;
      MarkSeen(org, events);
      return true, left;
    }

    /** The batch: refuse it whole, or pass its orgs in sorted order until one stops. */
    method IngestBatch(batch: seq<Wire>, budget: nat) returns (done: bool, left: nat)
      modifies this
      ensures Passed(Current(), done, left) == Deliver(old(Current()), batch, budget)
    {
      hide OrgPass, OfOrg, Acceptable;
      for i := 0 to |batch|
        invariant forall k :: 0 <= k < i ==> Acceptable(batch[k])
        invariant Current() == old(Current())
      {
        if !Acceptable(batch[i]) {
          return false, budget;
        }
      }
      var news := Dedupe(batch);
      var byOrg := Group(news);
      var orgs := SortOrgs(byOrg.Keys);
      done, left := PassAll(orgs, news, byOrg, budget);
    }

    method PassAll(orgs: seq<string>, news: seq<Event>, byOrg: map<string, seq<Event>>, budget: nat)
      returns (done: bool, left: nat)
      requires Grouping(byOrg, news) && forall i :: 0 <= i < |orgs| ==> orgs[i] in byOrg
      modifies this
      ensures Passed(Current(), done, left) == Passes(old(Current()), orgs, news, budget)
    {
      hide OrgPass, OfOrg;
      left := budget;
      for i := 0 to |orgs|
        invariant Passes(old(Current()), orgs, news, budget) == Passes(Current(), orgs[i..], news, left)
      {
        assert orgs[i..][1..] == orgs[i + 1..];
        assert byOrg[orgs[i]] == OfOrg(news, orgs[i]);
        done, left := PassOrg(orgs[i], byOrg[orgs[i]], left);
        if !done {
          return;
        }
      }
      return true, left;
    }

    /** One org of a rebuild: its ledger events sorted and marked seen, then folded and emitted. */
    method RebuildOrg(org: string, events: seq<Event>, budget: nat) returns (done: bool, left: nat)
      modifies this
      ensures Passed(Current(), done, left) == Rebuild.RebuildOrg(old(Current()), org, events, budget)
    {
      hide StableSort, Refold, Rows, Sorted, Listable, TransitionsInTime;
      var state := new OrgState();
      state.UpsertLog(events);
      logs := logs[org := state.log];
      MarkSeen(org, events);
      var status := state.RefoldLog();
      if status != Fine {
        return false, budget;
      }
      RefoldIsEmittable(state.log);
      var emitted := Emit(state.Current());
      if budget < |emitted| {
        return false, 0;
      }
      rows := rows[org := emitted];
      return true, budget - |emitted|;
    }

    /** A full replay of the ledger into fresh logs and seen ids, until it is done or one org stops it. */
    method RebuildFromLedger(read: seq<Event>, budget: nat) returns (done: bool, left: nat)
      modifies this
      ensures Passed(Current(), done, left) == Rebuild.Rebuild(old(Current()), read, budget)
    {
      hide OfOrg, Rebuild.RebuildOrg, StringLess, StrictTotal, Distinct;
      var byOrg := Group(read);
      logs, seen := map[], map[];
      var orgs := SortOrgs(byOrg.Keys);
      done, left := RebuildAll(orgs, read, byOrg, budget);
    }

    method RebuildAll(orgs: seq<string>, read: seq<Event>, byOrg: map<string, seq<Event>>, budget: nat)
      returns (done: bool, left: nat)
      requires Grouping(byOrg, read) && forall i :: 0 <= i < |orgs| ==> orgs[i] in byOrg
      modifies this
      ensures Passed(Current(), done, left) == Rebuild.RebuildOrgs(old(Current()), orgs, read, budget)
    {
      hide Rebuild.RebuildOrg, OfOrg;
      left := budget;
      for i := 0 to |orgs|
        invariant Rebuild.RebuildOrgs(old(Current()), orgs, read, budget)
                  == Rebuild.RebuildOrgs(Current(), orgs[i..], read, left)
      {
        assert orgs[i..][1..] == orgs[i + 1..];
        assert byOrg[orgs[i]] == OfOrg(read, orgs[i]);
        done, left := RebuildOrg(orgs[i], byOrg[orgs[i]], left);
        if !done {
          return;
        }
      }
      return true, left;
    }
  }
}
