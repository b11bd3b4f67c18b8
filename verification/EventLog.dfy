/** Domain events and the canonical (created_at, event id) order of an org's log. */
module EventLog {
  import opened GoTime

  /** A payload after decoding; `Malformed` is a handled event whose payload fails its shape checks. */
  datatype Body =
    | InvoiceIssued(invoice: string, total: nat, currency: string)
    | InvoiceVoided(invoice: string)
    | Opened(receivable: string, invoice: string, original: nat, due: int)
    | PartiallySettled(receivable: string, amount: nat, remaining: nat)
    | Settled(receivable: string)
    | Overdue(receivable: string)
    | WrittenOff(receivable: string)
    | Recovered(receivable: string, amount: nat)
    | PromiseBroken
    | Malformed
    | LedgerOnly(name: string)

  datatype Event = Event(id: string, org: string, at: int, version: int, body: Body)

  /** UTC epoch-day of an instant: whole seconds, then division that truncates toward zero. */
  function DayKey(at: int): int {
    var seconds := at / SECOND;
    if seconds >= 0 then seconds / DAY_SECONDS else -((-seconds) / DAY_SECONDS)
  }

  /** Truncation widens day 0 but never reorders days. */
  lemma DayKeyMonotone(a: int, b: int)
    requires a <= b
    ensures DayKey(a) <= DayKey(b)
  {
    assert a / SECOND <= b / SECOND;
  }

  // -- the order ----------------------------------------------------------------

  predicate StringLess(a: string, b: string)
    decreases a
  {
    b != [] && (a == [] || a[0] < b[0] || (a[0] == b[0] && StringLess(a[1..], b[1..])))
  }

  lemma {:induction false} StringLessIsStrict(a: string, b: string)
    ensures StringLess(a, b) ==> !StringLess(b, a) && a != b
    ensures StringLess(a, b) || a == b || StringLess(b, a)
    decreases a
  {
    if a != [] && b != [] && a[0] == b[0] {
      StringLessIsStrict(a[1..], b[1..]);
      assert a == [a[0]] + a[1..] && b == [b[0]] + b[1..];
    }
  }

  lemma {:induction false} StringLessTransitive(a: string, b: string, c: string)
    requires StringLess(a, b) && StringLess(b, c)
    ensures StringLess(a, c)
    decreases a
  {
    if a != [] && a[0] == b[0] == c[0] {
      StringLessTransitive(a[1..], b[1..], c[1..]);
    }
  }

  predicate CanonicalLess(a: Event, b: Event) {
    a.at < b.at || (a.at == b.at && StringLess(a.id, b.id))
  }

  lemma LessIsStrict(a: Event, b: Event)
    ensures CanonicalLess(a, b) ==> !CanonicalLess(b, a) && a != b
    ensures a.id != b.id ==> CanonicalLess(a, b) || CanonicalLess(b, a)
  {
    StringLessIsStrict(a.id, b.id);
  }

  lemma LessTransitive(a: Event, b: Event, c: Event)
    requires CanonicalLess(a, b) && CanonicalLess(b, c)
    ensures CanonicalLess(a, c)
  {
    if a.at == c.at {
      StringLessTransitive(a.id, b.id, c.id);
    }
  }

  /** `c` does not sort before `b`, nor `b` before `a`. */
  lemma NotLessTransitive(a: Event, b: Event, c: Event)
    requires !CanonicalLess(b, a) && !CanonicalLess(c, b)
    ensures !CanonicalLess(c, a)
  {
    if CanonicalLess(c, a) {
      StringLessIsStrict(a.id, b.id);
      StringLessIsStrict(b.id, c.id);
      if a.id == b.id || b.id == c.id {
      } else {
        LessTransitive(b, c, a);
      }
    }
  }

  // -- the stable sort ----------------------------------------------------------

  ghost predicate Sorted(log: seq<Event>) {
    forall i, j :: 0 <= i < j < |log| ==> !CanonicalLess(log[j], log[i])
  }

  /** Strictly increasing: sorted, and no (created_at, id) twice. */
  ghost predicate Canonical(log: seq<Event>) {
    forall i, j :: 0 <= i < j < |log| ==> CanonicalLess(log[i], log[j])
  }

  /** `e` placed after every event it does not sort before. */
  function Place(log: seq<Event>, e: Event): seq<Event> {
    if log == [] || !CanonicalLess(e, log[|log| - 1]) then log + [e]
    else Place(log[..|log| - 1], e) + [log[|log| - 1]]
  }

  function StableSort(events: seq<Event>): seq<Event> {
    if events == [] then [] else Place(StableSort(events[..|events| - 1]), events[|events| - 1])
  }

  lemma {:induction false} PlaceSorts(log: seq<Event>, e: Event)
    requires Sorted(log)
    ensures Sorted(Place(log, e)) && multiset(Place(log, e)) == multiset(log) + multiset{e}
  {
    hide CanonicalLess;
    if log != [] {
      var front, last := log[..|log| - 1], log[|log| - 1];
      assert log == front + [last];
      if CanonicalLess(e, last) {
        PlaceSorts(front, e);
        var placed := Place(front, e);
        forall i | 0 <= i < |placed|
          ensures !CanonicalLess(last, placed[i])
        {
          assert placed[i] in multiset(placed);
          LessIsStrict(e, last);
          if placed[i] != e {
            assert placed[i] in front;
          }
        }
      } else {
        forall i | 0 <= i < |log|
          ensures !CanonicalLess(e, log[i])
        {
          if i < |log| - 1 {
            NotLessTransitive(log[i], last, e);
          }
        }
      }
    }
  }

  /** The sort returns the same events, in order. */
  lemma {:induction false} SortIsRight(events: seq<Event>)
    ensures Sorted(StableSort(events)) && multiset(StableSort(events)) == multiset(events)
  {
    if events != [] {
      var front := events[..|events| - 1];
      assert events == front + [events[|events| - 1]];
      SortIsRight(front);
      PlaceSorts(StableSort(front), events[|events| - 1]);
    }
  }

  ghost predicate SameKey(a: Event, b: Event) { !CanonicalLess(a, b) && !CanonicalLess(b, a) }

  /** Events with the key of `e`, in the order they stand. */
  ghost function Ties(log: seq<Event>, e: Event): seq<Event> {
    if log == [] then []
    else Ties(log[..|log| - 1], e) + (if SameKey(log[|log| - 1], e) then [log[|log| - 1]] else [])
  }

  lemma TiesAppend(log: seq<Event>, x: Event, e: Event)
    ensures Ties(log + [x], e) == Ties(log, e) + (if SameKey(x, e) then [x] else [])
  {
  }

  lemma {:induction false} PlaceKeepsTies(log: seq<Event>, x: Event, e: Event)
    ensures Ties(Place(log, x), e) == Ties(log, e) + (if SameKey(x, e) then [x] else [])
  {
    hide CanonicalLess;
    if log == [] || !CanonicalLess(x, log[|log| - 1]) {
      TiesAppend(log, x, e);
    } else {
      var front, last := log[..|log| - 1], log[|log| - 1];
      PlaceKeepsTies(front, x, e);
      TiesAppend(Place(front, x), last, e);
      if SameKey(x, e) && SameKey(last, e) {
        NotLessTransitive(last, e, x);
        assert false;
      }
    }
  }

  /** The sort is stable: events with equal keys keep their order. */
  lemma {:induction false} SortIsStable(events: seq<Event>, e: Event)
    ensures Ties(StableSort(events), e) == Ties(events, e)
  {
    if events != [] {
      var front := events[..|events| - 1];
      SortIsStable(front, e);
      PlaceKeepsTies(StableSort(front), events[|events| - 1], e);
    }
  }

  // -- canonical logs are determined by their events ----------------------------

  ghost predicate DistinctIds(events: seq<Event>) {
    forall i, j :: 0 <= i < j < |events| ==> events[i].id != events[j].id
  }

  /** Two canonical logs of the same events are the same log. */
  lemma {:induction false} CanonicalIsUnique(a: seq<Event>, b: seq<Event>)
    requires Canonical(a) && Canonical(b) && forall e :: e in a <==> e in b
    ensures a == b
    decreases |a|
  {
    hide CanonicalLess;
    assert a == [] || a[0] in b;
    assert b == [] || b[0] in a;
    if a != [] && b != [] {
      FirstsAgree(a, b);
      forall e
        ensures e in a[1..] <==> e in b[1..]
      {
        RestWithout(a, e);
        RestWithout(b, e);
      }
      CanonicalIsUnique(a[1..], b[1..]);
      assert a == [a[0]] + a[1..] && b == [b[0]] + b[1..];
    }
  }

  lemma FirstsAgree(a: seq<Event>, b: seq<Event>)
    requires Canonical(a) && Canonical(b) && a != [] && b != [] && a[0] in b && b[0] in a
    ensures a[0] == b[0]
  {
    hide CanonicalLess;
    var j :| 0 <= j < |b| && b[j] == a[0];
    var i :| 0 <= i < |a| && a[i] == b[0];
    if i > 0 && j > 0 {
      LessIsStrict(a[0], a[i]);
    }
  }

  lemma RestWithout(log: seq<Event>, e: Event)
    requires Canonical(log) && log != []
    ensures e in log[1..] <==> e in log && e != log[0]
  {
    hide CanonicalLess;
    assert log == [log[0]] + log[1..];
    if e in log[1..] {
      var k :| 0 <= k < |log[1..]| && log[1..][k] == e;
      LessIsStrict(log[0], log[k + 1]);
    }
  }

  /** A sorted log is canonical exactly when no id occurs twice, if an id fixes its event. */
  lemma SortedCanonicalIffDistinct(log: seq<Event>)
    requires Sorted(log) && forall i, j :: 0 <= i < |log| && 0 <= j < |log| && log[i].id == log[j].id ==> log[i] == log[j]
    ensures Canonical(log) <==> DistinctIds(log)
  {
    hide CanonicalLess;
    if DistinctIds(log) {
      forall i, j | 0 <= i < j < |log|
        ensures CanonicalLess(log[i], log[j])
      {
        LessIsStrict(log[i], log[j]);
      }
    }
    if Canonical(log) {
      forall i, j | 0 <= i < j < |log|
        ensures log[i].id != log[j].id
      {
        LessIsStrict(log[i], log[j]);
      }
    }
  }
}
