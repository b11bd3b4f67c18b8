/** The projection rows of one org: closing balances, aging buckets and cohort recovery curves. */
module Projections {
  import opened GoTime
  import opened EventLog
  import opened Fold
  import opened Ordering
  import opened NetBilling

  const DSO_WINDOW_DAYS := 30

  /** A receivable as a day closes. */
  datatype Snapshot = Snapshot(id: string, balance: nat, due: int)

  ghost predicate Listable(b: Book) { forall i :: 0 <= i < |b.order| ==> b.order[i] in b.entries }

  /** In the book's order, the live receivables of a currency as of a day. */
  function ReceivablesAt(f: Figures, n: nat, cur: string, day: int): seq<Snapshot>
    requires Listable(f.book) && n <= |f.book.order|
  {
    if n == 0 then []
    else
      var e := f.book.entries[f.book.order[n - 1]];
      ReceivablesAt(f, n - 1, cur, day)
      + (if e.currency == cur && e.openedDay <= day && e.invoice !in f.billing.voided
         then [Snapshot(e.receivable, BalanceAsOf(e.transitions, day), e.due)] else [])
  }

  ghost predicate TransitionsInTime(e: Entry) {
    forall i, j :: 0 <= i < j < |e.transitions| ==> e.transitions[i].day <= e.transitions[j].day
  }

  method CloseDay(f: Figures, cur: string, day: int) returns (out: seq<Snapshot>)
    requires Listable(f.book)
    requires forall r :: r in f.book.entries ==> TransitionsInTime(f.book.entries[r])
    ensures out == ReceivablesAt(f, |f.book.order|, cur, day)
  {
    out := [];
    for n := 0 to |f.book.order|
      invariant out == ReceivablesAt(f, n, cur, day)
    {
      var e := f.book.entries[f.book.order[n]];
      if e.currency != cur || e.openedDay > day {
        continue;
      }
      if e.invoice in f.billing.voided {
        continue;
      }
      var balance := BalanceAt(e.transitions, day);
      out := out + [Snapshot(e.receivable, balance, e.due)];
    }
  }

  // -- closing receivables ------------------------------------------------------

  function Receivable(s: seq<Snapshot>): nat {
    if s == [] then 0 else Receivable(s[..|s| - 1]) + s[|s| - 1].balance
  }

  function NonZero(s: seq<Snapshot>): (refs: seq<string>)
    ensures |refs| <= |s|
  {
    if s == [] then []
    else NonZero(s[..|s| - 1]) + (if s[|s| - 1].balance != 0 then [s[|s| - 1].id] else [])
  }

  /** The DSO row's loop: closing receivables, how many carry a balance, how many do not, and which. */
  method Close(s: seq<Snapshot>) returns (ar: nat, aged: nat, zero: nat, refs: seq<string>)
    ensures ar == Receivable(s) && refs == NonZero(s) && aged == |refs| && aged + zero == |s|
  {
    ar, aged, zero, refs := 0, 0, 0, [];
    for i := 0 to |s|
      invariant ar == Receivable(s[..i]) && refs == NonZero(s[..i]) && aged == |refs| && aged + zero == i
    {
      assert s[..i + 1][..i] == s[..i];
      if s[i].balance == 0 {
        zero := zero + 1;
        continue;
      }
      aged := aged + 1;
      ar := ar + s[i].balance;
      refs := refs + [s[i].id];
    }
    assert s[..|s|] == s;
  }

  // -- aging --------------------------------------------------------------------

  datatype Bucket = Current | UpTo30 | UpTo60 | UpTo90 | Over90

  /** Whole days past due: the quotient truncates, negatives clamp to 0. */
  function DaysOverdue(due: int, asOf: int): nat {
    var delta := asOf - due;
    var days := if delta >= 0 then delta / DAY else -((-delta) / DAY);
    if days < 0 then 0 else days
  }

  function BucketFor(days: int): Bucket {
    if days <= 0 then Current else if days <= 30 then UpTo30 else if days <= 60 then UpTo60
    else if days <= 90 then UpTo90 else Over90
  }

  /** Truncation and clamping together are the floor, clamped: a bucket is a span of whole late days. */
  lemma BucketSpans(due: int, asOf: int)
    ensures var late := asOf - due;
            match BucketFor(DaysOverdue(due, asOf))
            case Current => late < DAY
            case UpTo30 => DAY <= late < 31 * DAY
            case UpTo60 => 31 * DAY <= late < 61 * DAY
            case UpTo90 => 61 * DAY <= late < 91 * DAY
            case Over90 => 91 * DAY <= late
  {
    if asOf >= due {
      Quotient(asOf - due);
    }
  }

  lemma Quotient(x: int)
    requires x >= 0
    ensures DAY * (x / DAY) <= x < DAY * (x / DAY) + DAY
  {
  }

  function BucketOf(s: Snapshot, asOf: int): Bucket { BucketFor(DaysOverdue(s.due, asOf)) }

  /** The snapshots with a balance that fall in one bucket. */
  function InBucket(s: seq<Snapshot>, asOf: int, b: Bucket): seq<Snapshot> {
    if s == [] then []
    else
      InBucket(s[..|s| - 1], asOf, b)
      + (if s[|s| - 1].balance != 0 && BucketOf(s[|s| - 1], asOf) == b then [s[|s| - 1]] else [])
  }

  datatype Accumulator = Accumulator(amount: nat, refs: seq<string>)

  function Accumulated(s: seq<Snapshot>, asOf: int, b: Bucket): Accumulator {
    Accumulator(Receivable(InBucket(s, asOf, b)), NonZero(InBucket(s, asOf, b)))
  }

  lemma AccumulateNext(s: seq<Snapshot>, i: nat, asOf: int, b: Bucket)
    requires i < |s|
    ensures Accumulated(s[..i + 1], asOf, b)
            == var before := Accumulated(s[..i], asOf, b);
               if s[i].balance != 0 && BucketOf(s[i], asOf) == b
               then Accumulator(before.amount + s[i].balance, before.refs + [s[i].id]) else before
  {
    hide DaysOverdue, BucketFor;
    assert s[..i + 1][..i] == s[..i];
    var held := InBucket(s[..i], asOf, b);
    if s[i].balance != 0 && BucketOf(s[i], asOf) == b {
      assert InBucket(s[..i + 1], asOf, b) == held + [s[i]];
      assert (held + [s[i]])[..|held|] == held;
      assert Receivable(held + [s[i]]) == Receivable(held) + s[i].balance;
      assert NonZero(held + [s[i]]) == NonZero(held) + [s[i].id];
    } else {
      assert InBucket(s[..i + 1], asOf, b) == held;
    }
  }

  /** The aging loop: a map of the buckets met so far. */
  method DayCloseAging(asOf: int, s: seq<Snapshot>) returns (buckets: map<Bucket, Accumulator>, zero: nat)
    ensures forall b :: (if b in buckets then buckets[b] else Accumulator(0, [])) == Accumulated(s, asOf, b)
    ensures zero == |s| - |NonZero(s)|
  {
    hide DaysOverdue, BucketFor, Accumulated;
    buckets, zero := map[], 0;
    NothingAccumulates(asOf);
    for i := 0 to |s|
      invariant forall b :: (if b in buckets then buckets[b] else Accumulator(0, [])) == Accumulated(s[..i], asOf, b)
      invariant zero == i - |NonZero(s[..i])|
    {
      assert s[..i + 1][..i] == s[..i];
      forall b
        ensures Accumulated(s[..i + 1], asOf, b)
                == var before := Accumulated(s[..i], asOf, b);
                   if s[i].balance != 0 && BucketOf(s[i], asOf) == b
                   then Accumulator(before.amount + s[i].balance, before.refs + [s[i].id]) else before
      {
        AccumulateNext(s, i, asOf, b);
      }
      if s[i].balance == 0 {
        zero := zero + 1;
        continue;
      }
      var bucket := BucketOf(s[i], asOf);
      var acc := if bucket in buckets then buckets[bucket] else Accumulator(0, []);
      buckets := buckets[bucket := Accumulator(acc.amount + s[i].balance, acc.refs + [s[i].id])];
    }
    assert s[..|s|] == s;
  }

  /** The five buckets split the closing receivables: no balance lost, none counted twice. */
  lemma {:induction false} AgingConserves(s: seq<Snapshot>, asOf: int)
    ensures Receivable(s)
            == Accumulated(s, asOf, Current).amount + Accumulated(s, asOf, UpTo30).amount
               + Accumulated(s, asOf, UpTo60).amount + Accumulated(s, asOf, UpTo90).amount
               + Accumulated(s, asOf, Over90).amount
    ensures |NonZero(s)|
            == |Accumulated(s, asOf, Current).refs| + |Accumulated(s, asOf, UpTo30).refs|
               + |Accumulated(s, asOf, UpTo60).refs| + |Accumulated(s, asOf, UpTo90).refs|
               + |Accumulated(s, asOf, Over90).refs|
  {
    hide DaysOverdue, BucketFor, Accumulated;
    if s == [] {
      NothingAccumulates(asOf);
    } else {
      AgingConserves(s[..|s| - 1], asOf);
      assert s[..|s| - 1 + 1] == s;
      AccumulateNext(s, |s| - 1, asOf, Current);
      AccumulateNext(s, |s| - 1, asOf, UpTo30);
      AccumulateNext(s, |s| - 1, asOf, UpTo60);
      AccumulateNext(s, |s| - 1, asOf, UpTo90);
      AccumulateNext(s, |s| - 1, asOf, Over90);
    }
  }

  lemma NothingAccumulates(asOf: int)
    ensures forall b :: Accumulated([], asOf, b) == Accumulator(0, [])
  {
  }

  // -- what the fold provides ---------------------------------------------------

  lemma ApplyKeepsListable(f: Figures, ev: Event)
    requires Listable(f.book) && Apply(f, ev).Ok?
    ensures Listable(Apply(f, ev).figures.book)
  {
    hide Issue, Void, DayKey, Bump, DaysOf;
  }

  lemma {:induction false} FoldIsListable(log: seq<Event>)
    requires Refold(log).Ok?
    ensures Listable(Refold(log).figures.book)
  {
    hide Apply;
    if log != [] {
      FoldIsListable(log[..|log| - 1]);
      ApplyKeepsListable(Refold(log[..|log| - 1]).figures, log[|log| - 1]);
    }
  }

  /** Every snapshot of a past day carries the balance that refolding the log through that day gives. */
  lemma {:induction false} SnapshotsAreRefolded(log: seq<Event>, n: nat, cur: string, day: int, i: nat)
    requires Sorted(log) && Refold(log).Ok? && Listable(Refold(log).figures.book)
    requires n <= |Refold(log).figures.book.order| && i < |ReceivablesAt(Refold(log).figures, n, cur, day)|
    ensures var s := ReceivablesAt(Refold(log).figures, n, cur, day)[i];
            var past := Refold(log[..Through(log, day)]);
            past.Ok? && s.id in past.figures.book.entries && s.balance == past.figures.book.entries[s.id].balance
    decreases n
  {
    hide Refold, Through, BalanceAsOf, DayKey;
    var f := Refold(log).figures;
    if i < |ReceivablesAt(f, n - 1, cur, day)| {
      SnapshotsAreRefolded(log, n - 1, cur, day, i);
    } else {
      var r := f.book.order[n - 1];
      SortedIsInTime(log);
      EntriesNamed(log, r);
      HistoryIsRefolding(log, day, r);
    }
  }

  lemma EntriesNamed(log: seq<Event>, r: string)
    requires InTime(log) && Refold(log).Ok? && r in Refold(log).figures.book.entries
    ensures Refold(log).figures.book.entries[r].receivable == r
    ensures TransitionsInTime(Refold(log).figures.book.entries[r])
  {
    hide Refold, DayKey;
    var day := if log == [] then 0 else DayKey(log[|log| - 1].at);
    FoldKeepsBook(log, day);
    assert EntryOk(Refold(log).figures.book, r, day);
  }
}
