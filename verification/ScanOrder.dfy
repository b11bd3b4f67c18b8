/** The order and limit of the scheduler's scans: the first `batch` rows by (due, id). */
module ScanOrder {
  import opened Ordering
  import EventLog

  datatype Slot = Slot(due: int, id: string)

  predicate Before(a: Slot, b: Slot) { a.due < b.due || (a.due == b.due && EventLog.StringLess(a.id, b.id)) }

  lemma BeforeIsTotal()
    ensures StrictTotal(Before)
  {
    hide EventLog.StringLess;
    forall a: Slot, b: Slot
      ensures Before(a, b) ==> !Before(b, a)
      ensures a != b ==> Before(a, b) || Before(b, a)
    {
      EventLog.StringLessIsStrict(a.id, b.id);
    }
    forall a: Slot, b: Slot, c: Slot | Before(a, b) && Before(b, c)
      ensures Before(a, c)
    {
      if a.due == c.due {
        EventLog.StringLessTransitive(a.id, b.id, c.id);
      }
    }
  }

  /** ORDER BY due_date, id LIMIT batch. */
  ghost function First(slots: set<Slot>, batch: nat): (r: seq<Slot>)
    ensures |r| <= batch && forall i :: 0 <= i < |r| ==> r[i] in slots
  {
    BeforeIsTotal();
    var all := Listed(slots, Before);
    assert forall i :: 0 <= i < |all| ==> all[i] in all;
    if |all| <= batch then all else all[..batch]
  }

  /** The query as a sort and a cut. */
  method Select(slots: set<Slot>, batch: nat) returns (r: seq<Slot>)
    ensures r == First(slots, batch)
  {
    hide Before, StrictTotal, Ascending;
    BeforeIsTotal();
    r := List(slots, Before);
    if |r| > batch {
      r := r[..batch];
    }
  }

  /** The rows that come before one. */
  function Preceding(slots: set<Slot>, slot: Slot): set<Slot> { set s | s in slots && Before(s, slot) }

  lemma {:induction false} PrefixSize<T>(s: seq<T>, n: nat)
    requires n <= |s| && forall i, j :: 0 <= i < j < |s| ==> s[i] != s[j]
    ensures |set i | 0 <= i < n :: s[i]| == n
  {
    if n > 0 {
      PrefixSize(s, n - 1);
      assert (set i | 0 <= i < n :: s[i]) == (set i | 0 <= i < n - 1 :: s[i]) + {s[n - 1]};
    }
  }

  /** A row's position in the sorted list is the number of rows before it. */
  lemma PositionIs(all: seq<Slot>, k: nat, before: set<Slot>)
    requires StrictTotal(Before) && Ascending(all, Before) && k < |all|
    requires forall s :: s in before <==> s in all && Before(s, all[k])
    ensures before == (set i | 0 <= i < k :: all[i]) && |before| == k
  {
    hide Before;
    assert forall i, j :: 0 <= i < j < |all| ==> Before(all[i], all[j]);
    PrefixSize(all, k);
    assert before == set i | 0 <= i < k :: all[i];
  }

  /** What precedes a selected row is what was selected before it. */
  lemma SelectedAfter(slots: set<Slot>, batch: nat, k: nat)
    requires k < |First(slots, batch)|
    ensures var r := First(slots, batch); Preceding(slots, r[k]) == (set i | 0 <= i < k :: r[i])
    ensures |Preceding(slots, First(slots, batch)[k])| == k
  {
    hide Before;
    BeforeIsTotal();
    var all := Listed(slots, Before);
    assert forall i :: 0 <= i <= k ==> all[i] == First(slots, batch)[i];
    PositionIs(all, k, Preceding(slots, all[k]));
  }

  /** A row is selected exactly when fewer than `batch` rows precede it. */
  lemma SelectedExactly(slots: set<Slot>, batch: nat, slot: Slot)
    requires slot in slots
    ensures slot in First(slots, batch) <==> |Preceding(slots, slot)| < batch
  {
    hide Before;
    BeforeIsTotal();
    var all := Listed(slots, Before);
    assert slot in all;
    var k :| 0 <= k < |all| && all[k] == slot;
    PositionIs(all, k, Preceding(slots, slot));
    assert forall j :: 0 <= j < |all| && j != k ==> Before(all[j], slot) || Before(slot, all[j]);
  }

  // -- a full queue -------------------------------------------------------------

  function Name(n: nat): string { seq(n, _ => 'r') }

  function Names(batch: nat): set<string> { set n: nat | n <= batch :: Name(n) }

  /** One row more than a batch holds, all due at the epoch. */
  function Crowd(batch: nat): set<Slot> { set n: nat | n <= batch :: Slot(0, Name(n)) }

  lemma {:induction false} ShorterFirst(m: nat, n: nat)
    requires m < n
    ensures EventLog.StringLess(Name(m), Name(n))
    decreases m
  {
    if m > 0 {
      ShorterFirst(m - 1, n - 1);
      assert Name(m)[1..] == Name(m - 1) && Name(n)[1..] == Name(n - 1);
    }
  }

  lemma CrowdOrder(m: nat, n: nat)
    ensures Before(Slot(0, Name(m)), Slot(0, Name(n))) <==> m < n
  {
    EventLog.StringLessIsStrict(Name(m), Name(n));
    if m < n {
      ShorterFirst(m, n);
    } else if n < m {
      ShorterFirst(n, m);
    }
  }

  lemma {:induction false} NamesCount(n: nat)
    ensures |set m: nat | m < n :: Slot(0, Name(m))| == n
  {
    if n > 0 {
      NamesCount(n - 1);
      var before := set m: nat | m < n - 1 :: Slot(0, Name(m));
      assert (set m: nat | m < n :: Slot(0, Name(m))) == before + {Slot(0, Name(n - 1))};
      assert forall m: nat :: m < n - 1 ==> |Name(m)| == m;
    }
  }

  /** In the crowd, as many rows precede the n-th as its number says. */
  lemma CrowdPrecedes(batch: nat, n: nat)
    requires n <= batch
    ensures Slot(0, Name(n)) in Crowd(batch) && |Preceding(Crowd(batch), Slot(0, Name(n)))| == n
  {
    hide Before, Name;
    forall m: nat
      ensures Before(Slot(0, Name(m)), Slot(0, Name(n))) <==> m < n
    {
      CrowdOrder(m, n);
    }
    NamesCount(n);
    assert Preceding(Crowd(batch), Slot(0, Name(n))) == set m: nat | m < n :: Slot(0, Name(m));
  }
}
