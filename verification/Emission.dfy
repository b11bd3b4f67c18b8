/** Full re-emission: every projection row of an org as a function of its figures. */
module Emission {
  import Calendar
  import opened GoTime
  import opened EventLog
  import opened Fold
  import opened Balances
  import opened Ordering
  import opened NetBilling
  import opened Projections
  import opened Cohorts

  datatype Row =
    | DsoRow(cur: string, day: int, ar: nat, aged: nat, zero: nat, billedTrailing: int, refs: seq<string>)
    | AgingRow(cur: string, day: int, bucket: Bucket, amount: nat, count: nat, refs: seq<string>)
    | EffectivenessRow(
        cur: string, from: int, to: int, collected: int, billed: int, promisesBroken: int, refs: seq<string>)
    | CohortRow(cur: string, month: int, point: Point)

  /** The instant a day's figures are measured at. */
  function EndOfDay(day: int): int { ((day + 1) * DAY_SECONDS - 1) * SECOND + 1_000_000 }

  // -- day rows -----------------------------------------------------------------

  function DsoOf(f: Figures, cur: string, day: int): Row
    requires Listable(f.book)
  {
    var s := ReceivablesAt(f, |f.book.order|, cur, day);
    DsoRow(cur, day, Receivable(s), |NonZero(s)|, |s| - |NonZero(s)|,
           Window(DaysOf(f.billing.billed, cur), day - DSO_WINDOW_DAYS + 1, day), NonZero(s))
  }

  function AgingOf(f: Figures, cur: string, day: int, b: Bucket): Row
    requires Listable(f.book)
  {
    var acc := Accumulated(ReceivablesAt(f, |f.book.order|, cur, day), EndOfDay(day), b);
    AgingRow(cur, day, b, acc.amount, |acc.refs|, acc.refs)
  }

  // -- effectiveness ------------------------------------------------------------

  predicate CountsFor(f: Figures, e: Entry, cur: string) { e.currency == cur && e.invoice !in f.billing.voided }

  /** What one receivable collected on the days `from` to `to`. */
  ghost function CollectedIn(f: Figures, r: string, from: int, to: int): int {
    var days := CollectedBy(f.book, r);
    Sum(days, Ordering.Between(days, from - 1, to))
  }

  ghost function CollectedTotal(f: Figures, n: nat, cur: string, from: int, to: int): int
    requires Listable(f.book) && n <= |f.book.order|
  {
    if n == 0 then 0
    else
      var r := f.book.order[n - 1];
      CollectedTotal(f, n - 1, cur, from, to)
      + (if CountsFor(f, f.book.entries[r], cur) then CollectedIn(f, r, from, to) else 0)
  }

  ghost function CollectedRefs(f: Figures, n: nat, cur: string, from: int, to: int): seq<string>
    requires Listable(f.book) && n <= |f.book.order|
  {
    if n == 0 then []
    else
      var r := f.book.order[n - 1];
      CollectedRefs(f, n - 1, cur, from, to)
      + (if CountsFor(f, f.book.entries[r], cur) && CollectedIn(f, r, from, to) > 0 then [r] else [])
  }

  function BilledRefs(order: seq<Invoice>, cur: string, from: int, to: int): seq<string> {
    if order == [] then []
    else
      var record := order[|order| - 1];
      BilledRefs(order[..|order| - 1], cur, from, to) + (if Counts(record, cur, from, to) then [record.id] else [])
  }

  ghost function EffectivenessOf(f: Figures, cur: string, day: int): Row
    requires Listable(f.book)
  {
    var from, n := day - DSO_WINDOW_DAYS + 1, |f.book.order|;
    EffectivenessRow(cur, from, day, CollectedTotal(f, n, cur, from, day),
                     Window(DaysOf(f.billing.billed, cur), from, day), Window(f.promisesBroken, from, day),
                     Dedupe(CollectedRefs(f, n, cur, from, day) + BilledRefs(f.billing.order, cur, from, day)))
  }

  /** The window's collections and who made them, each map read in whatever order it yields. */
  method CollectWindow(f: Figures, cur: string, from: int, to: int) returns (collected: int, refs: seq<string>)
    requires Listable(f.book)
    ensures collected == CollectedTotal(f, |f.book.order|, cur, from, to)
    ensures refs == CollectedRefs(f, |f.book.order|, cur, from, to)
  {
    hide Sum;
    collected, refs := 0, [];
    for n := 0 to |f.book.order|
      invariant collected == CollectedTotal(f, n, cur, from, to) && refs == CollectedRefs(f, n, cur, from, to)
    {
      var r := f.book.order[n];
      if !CountsFor(f, f.book.entries[r], cur) {
        continue;
      }
      var amount := SumWindow(CollectedBy(f.book, r), from - 1, to);
      collected := collected + amount;
      if amount > 0 {
        refs := refs + [r];
      }
    }
  }

  method ListBilled(order: seq<Invoice>, cur: string, from: int, to: int) returns (refs: seq<string>)
    ensures refs == BilledRefs(order, cur, from, to)
  {
    refs := [];
    for i := 0 to |order|
      invariant refs == BilledRefs(order[..i], cur, from, to)
    {
      assert order[..i + 1][..i] == order[..i];
      if Counts(order[i], cur, from, to) {
        refs := refs + [order[i].id];
      }
    }
    assert order[..|order|] == order;
  }

  method CountPromises(promises: Days, from: int, to: int) returns (broken: int)
    ensures broken == Window(promises, from, to)
  {
    broken := 0;
    var d := from;
    while d <= to
      invariant from <= d <= to + 1 || (d == from && from > to)
      invariant broken == Window(promises, from, d - 1)
    {
      broken := broken + At(promises, d);
      d := d + 1;
    }
  }

  method EmitEffectiveness(f: Figures, cur: string, day: int) returns (row: Row)
    requires Listable(f.book)
    ensures row == EffectivenessOf(f, cur, day)
  {
    hide CollectedTotal, CollectedRefs, BilledRefs, Window, Dedupe, DaysOf;
    var from := day - DSO_WINDOW_DAYS + 1;
    var collected, who := CollectWindow(f, cur, from, day);
    var billed := BilledTrailing(f.billing.billed, cur, day, DSO_WINDOW_DAYS);
    var invoices := ListBilled(f.billing.order, cur, from, day);
    var broken := CountPromises(f.promisesBroken, from, day);
    return EffectivenessRow(cur, from, day, collected, billed, broken, Dedupe(who + invoices));
  }

  // -- all rows of a day --------------------------------------------------------

  ghost function DayRows(f: Figures, cur: string, day: int): seq<Row>
    requires Listable(f.book)
  {
    [DsoOf(f, cur, day), AgingOf(f, cur, day, Current), AgingOf(f, cur, day, UpTo30), AgingOf(f, cur, day, UpTo60),
     AgingOf(f, cur, day, UpTo90), AgingOf(f, cur, day, Over90), EffectivenessOf(f, cur, day)]
  }

  ghost function RowsOfDay(f: Figures, curs: seq<string>, day: int): seq<Row>
    requires Listable(f.book)
  {
    if curs == [] then [] else RowsOfDay(f, curs[..|curs| - 1], day) + DayRows(f, curs[|curs| - 1], day)
  }

  ghost function RowsOfDays(f: Figures, curs: seq<string>, days: seq<int>): seq<Row>
    requires Listable(f.book)
  {
    if days == [] then [] else RowsOfDays(f, curs, days[..|days| - 1]) + RowsOfDay(f, curs, days[|days| - 1])
  }

  ghost predicate Emittable(f: Figures) {
    Listable(f.book) && forall r :: r in f.book.entries ==> TransitionsInTime(f.book.entries[r])
  }

  method EmitDay(f: Figures, cur: string, day: int) returns (rows: seq<Row>)
    requires Emittable(f)
    ensures rows == DayRows(f, cur, day)
  {
    hide ReceivablesAt, Accumulated, Window, EndOfDay, Receivable, NonZero, DaysOf, TransitionsInTime, EffectivenessOf;
    var s := CloseDay(f, cur, day);
    var ar, aged, zero, refs := Close(s);
    var trailing := BilledTrailing(f.billing.billed, cur, day, DSO_WINDOW_DAYS);
    rows := [DsoRow(cur, day, ar, aged, zero, trailing, refs)];
    var buckets, _ := DayCloseAging(EndOfDay(day), s);
    var order := [Current, UpTo30, UpTo60, UpTo90, Over90];
    for i := 0 to 5
      invariant |rows| == i + 1 && rows[0] == DsoOf(f, cur, day)
      invariant forall k :: 0 <= k < i ==> rows[k + 1] == AgingOf(f, cur, day, order[k])
    {
      var b := order[i];
      var acc := if b in buckets then buckets[b] else Accumulator(0, []);
      rows := rows + [AgingRow(cur, day, b, acc.amount, |acc.refs|, acc.refs)];
    }
    assert rows[1] == AgingOf(f, cur, day, order[0]) && rows[2] == AgingOf(f, cur, day, order[1]);
    assert rows[3] == AgingOf(f, cur, day, order[2]) && rows[4] == AgingOf(f, cur, day, order[3]);
    assert rows[5] == AgingOf(f, cur, day, order[4]);
    var effectiveness := EmitEffectiveness(f, cur, day);
    rows := rows + [effectiveness];
  }

  // -- cohort rows --------------------------------------------------------------

  datatype CohortKey = CohortKey(month: int, cur: string)

  predicate InCohorts(f: Figures, e: Entry) { e.currency != "" && e.invoice !in f.billing.voided }

  function KeyOf(e: Entry): CohortKey { CohortKey(Calendar.MonthStart(e.openedDay), e.currency) }

  function Members(f: Figures, n: nat, key: CohortKey): seq<string>
    requires Listable(f.book) && n <= |f.book.order|
  {
    if n == 0 then []
    else
      var e := f.book.entries[f.book.order[n - 1]];
      Members(f, n - 1, key) + (if InCohorts(f, e) && KeyOf(e) == key then [f.book.order[n - 1]] else [])
  }

  function CohortKeys(f: Figures, n: nat): set<CohortKey>
    requires Listable(f.book) && n <= |f.book.order|
  {
    if n == 0 then {}
    else
      var e := f.book.entries[f.book.order[n - 1]];
      CohortKeys(f, n - 1) + (if InCohorts(f, e) then {KeyOf(e)} else {})
  }

  predicate KeyBefore(a: CohortKey, b: CohortKey) {
    a.month < b.month || (a.month == b.month && StringLess(a.cur, b.cur))
  }

  lemma StringLessIsTotal()
    ensures StrictTotal(StringLess)
  {
    forall a: string, b: string
      ensures StringLess(a, b) ==> !StringLess(b, a)
      ensures a != b ==> StringLess(a, b) || StringLess(b, a)
    {
      StringLessIsStrict(a, b);
    }
    forall a: string, b: string, c: string | StringLess(a, b) && StringLess(b, c)
      ensures StringLess(a, c)
    {
      StringLessTransitive(a, b, c);
    }
  }

  lemma KeyBeforeIsTotal()
    ensures StrictTotal(KeyBefore)
  {
    hide StringLess;
    forall a: CohortKey, b: CohortKey
      ensures KeyBefore(a, b) ==> !KeyBefore(b, a)
      ensures a != b ==> KeyBefore(a, b) || KeyBefore(b, a)
    {
      StringLessIsStrict(a.cur, b.cur);
    }
    forall a: CohortKey, b: CohortKey, c: CohortKey | KeyBefore(a, b) && KeyBefore(b, c)
      ensures KeyBefore(a, c)
    {
      if a.month == c.month {
        StringLessTransitive(a.cur, b.cur, c.cur);
      }
    }
  }

  function Tagged(key: CohortKey, curve: seq<Point>): seq<Row> {
    seq(|curve|, i requires 0 <= i < |curve| => CohortRow(key.cur, key.month, curve[i]))
  }

  ghost function RowsOfCohorts(f: Figures, keys: seq<CohortKey>): seq<Row>
    requires Listable(f.book)
  {
    if keys == [] then []
    else
      var key := keys[|keys| - 1];
      RowsOfCohorts(f, keys[..|keys| - 1]) + Tagged(key, Curve(f.book, Members(f, |f.book.order|, key), key.month))
  }

  /** Members of a cohort opened in its month, so the cohort's curve is complete. */
  lemma {:induction false} MembersOpenedIn(f: Figures, n: nat, key: CohortKey)
    requires Listable(f.book) && n <= |f.book.order|
    ensures OpenedIn(f.book, Members(f, n, key), key.month)
  {
    hide Calendar.MonthStart;
    if n > 0 {
      MembersOpenedIn(f, n - 1, key);
    }
  }

  type Groups = map<CohortKey, seq<string>>

  function Join(groups: Groups, key: CohortKey, r: string): Groups {
    groups[key := (if key in groups then groups[key] else []) + [r]]
  }

  ghost predicate Grouped(f: Figures, n: nat, groups: Groups)
    requires Listable(f.book) && n <= |f.book.order|
  {
    && groups.Keys == CohortKeys(f, n)
    && forall key :: (if key in groups then groups[key] else []) == Members(f, n, key)
  }

  lemma MembersNext(f: Figures, n: nat, key: CohortKey)
    requires Listable(f.book) && n < |f.book.order|
    ensures var e := f.book.entries[f.book.order[n]];
            && Members(f, n + 1, key)
               == Members(f, n, key) + (if InCohorts(f, e) && KeyOf(e) == key then [f.book.order[n]] else [])
            && CohortKeys(f, n + 1) == CohortKeys(f, n) + (if InCohorts(f, e) then {KeyOf(e)} else {})
  {
  }

  lemma GroupNext(f: Figures, n: nat, groups: Groups)
    requires Listable(f.book) && n < |f.book.order| && Grouped(f, n, groups)
    ensures var e := f.book.entries[f.book.order[n]];
            Grouped(f, n + 1, if InCohorts(f, e) then Join(groups, KeyOf(e), f.book.order[n]) else groups)
  {
    hide KeyOf, InCohorts, Members, CohortKeys;
    var e := f.book.entries[f.book.order[n]];
    var next := if InCohorts(f, e) then Join(groups, KeyOf(e), f.book.order[n]) else groups;
    MembersNext(f, n, KeyOf(e));
    forall key
      ensures (if key in next then next[key] else []) == Members(f, n + 1, key)
    {
      MembersNext(f, n, key);
    }
  }

  lemma NoGroups(f: Figures)
    requires Listable(f.book)
    ensures Grouped(f, 0, map[])
  {
  }

  method GroupCohorts(f: Figures) returns (groups: Groups)
    requires Listable(f.book)
    ensures Grouped(f, |f.book.order|, groups)
  {
    hide Grouped, KeyOf, InCohorts;
    groups := map[];
    NoGroups(f);
    for n := 0 to |f.book.order|
      invariant Grouped(f, n, groups)
    {
      GroupNext(f, n, groups);
      var e := f.book.entries[f.book.order[n]];
      if !InCohorts(f, e) {
        continue;
      }
      groups := Join(groups, KeyOf(e), f.book.order[n]);
    }
  }

  /** Cohorts by month, then currency. */
  ghost function KeyList(f: Figures): (keys: seq<CohortKey>)
    requires Listable(f.book)
    ensures forall key :: key in keys <==> key in CohortKeys(f, |f.book.order|)
  {
    KeyBeforeIsTotal();
    Listed(CohortKeys(f, |f.book.order|), KeyBefore)
  }

  method ListKeys(f: Figures, found: set<CohortKey>) returns (keys: seq<CohortKey>)
    requires Listable(f.book) && found == CohortKeys(f, |f.book.order|)
    ensures keys == KeyList(f)
  {
    hide KeyBefore, StrictTotal, CohortKeys;
    KeyBeforeIsTotal();
    keys := List(found, KeyBefore);
  }

  method EmitCohorts(f: Figures) returns (rows: seq<Row>)
    requires Listable(f.book)
    ensures rows == RowsOfCohorts(f, KeyList(f))
  {
    hide Curve, Members, KeyList, Tagged, CohortKeys;
    var groups := GroupCohorts(f);
    var keys := ListKeys(f, groups.Keys);
    rows := [];
    for k := 0 to |keys|
      invariant rows == RowsOfCohorts(f, keys[..k])
    {
      assert keys[..k + 1][..k] == keys[..k];
      assert keys[k] in keys;
      var curve := EmitCohort(f.book, groups[keys[k]], keys[k].month);
      rows := rows + Tagged(keys[k], curve);
    }
    assert keys[..|keys|] == keys;
  }

  // -- all rows -----------------------------------------------------------------

  function Currencies(f: Figures, n: nat): set<string>
    requires Listable(f.book) && n <= |f.book.order|
  {
    if n == 0 then f.billing.billed.Keys
    else
      var e := f.book.entries[f.book.order[n - 1]];
      Currencies(f, n - 1) + (if e.currency != "" then {e.currency} else {})
  }

  ghost function CurrencyList(f: Figures): seq<string>
    requires Listable(f.book)
  {
    StringLessIsTotal();
    Listed(Currencies(f, |f.book.order|), StringLess)
  }

  ghost function DayList(f: Figures): seq<int> {
    IntLessIsTotal();
    Listed(f.activity, IntLess)
  }

  /** Days ascending, currencies sorted within a day, then the cohorts. */
  ghost function Rows(f: Figures): seq<Row>
    requires Listable(f.book)
  {
    RowsOfDays(f, CurrencyList(f), DayList(f)) + RowsOfCohorts(f, KeyList(f))
  }

  method ListCurrencies(f: Figures) returns (curs: seq<string>)
    requires Listable(f.book)
    ensures curs == CurrencyList(f)
  {
    hide StrictTotal, StringLess;
    var found := f.billing.billed.Keys;
    for n := 0 to |f.book.order|
      invariant found == Currencies(f, n)
    {
      var e := f.book.entries[f.book.order[n]];
      if e.currency != "" {
        found := found + {e.currency};
      }
    }
    StringLessIsTotal();
    curs := List(found, StringLess);
  }

  method ListDays(f: Figures) returns (days: seq<int>)
    ensures days == DayList(f)
  {
    hide StrictTotal;
    IntLessIsTotal();
    days := List(f.activity, IntLess);
  }

  /** The emission loops, over maps in any order, always produce the same rows. */
  method Emit(f: Figures) returns (rows: seq<Row>)
    requires Emittable(f)
    ensures rows == Rows(f)
  {
    hide DayRows, RowsOfCohorts, CurrencyList, DayList, KeyList, TransitionsInTime;
    rows := [];
    var days := ListDays(f);
    var curs := ListCurrencies(f);
    for i := 0 to |days|
      invariant rows == RowsOfDays(f, curs, days[..i])
    {
      assert days[..i + 1][..i] == days[..i];
      ghost var before := rows;
      for k := 0 to |curs|
        invariant rows == before + RowsOfDay(f, curs[..k], days[i])
      {
        assert curs[..k + 1][..k] == curs[..k];
        var more := EmitDay(f, curs[k], days[i]);
        rows := rows + more;
      }
      assert curs[..|curs|] == curs;
    }
    assert days[..|days|] == days;
    var cohorts := EmitCohorts(f);
    rows := rows + cohorts;
  }

  /** What a refold of a sorted log leaves can always be emitted. */
  lemma RefoldIsEmittable(log: seq<Event>)
    requires Sorted(log) && Refold(log).Ok?
    ensures Emittable(Refold(log).figures)
  {
    hide Refold, TransitionsInTime;
    FoldIsListable(log);
    SortedIsInTime(log);
    forall r | r in Refold(log).figures.book.entries
      ensures TransitionsInTime(Refold(log).figures.book.entries[r])
    {
      EntriesNamed(log, r);
    }
  }

  /** A day's aging rows split its DSO row: same money, same receivables. */
  lemma AgingRowsSplitDso(f: Figures, cur: string, day: int)
    requires Listable(f.book)
    ensures var rows := DayRows(f, cur, day);
            && rows[0].ar == rows[1].amount + rows[2].amount + rows[3].amount + rows[4].amount + rows[5].amount
            && rows[0].aged == rows[1].count + rows[2].count + rows[3].count + rows[4].count + rows[5].count
  {
    hide ReceivablesAt, Window, Accumulated, Receivable, NonZero, EffectivenessOf;
    AgingConserves(ReceivablesAt(f, |f.book.order|, cur, day), EndOfDay(day));
  }

  /** Every emitted cohort's curve is complete, monotone and ends with all its members collected. */
  lemma EmittedCurveIsComplete(log: seq<Event>, key: CohortKey)
    requires Sorted(log) && Refold(log).Ok? && Listable(Refold(log).figures.book)
    ensures var f := Refold(log).figures;
            var members := Members(f, |f.book.order|, key);
            var curve := Curve(f.book, members, key.month);
            && curve != []
            && (forall i :: 0 <= i < |curve| ==>
                  curve[i].cumulative == CollectedUpTo(f.book, members, key.month + curve[i].daysSinceOpen))
            && (forall i, j :: 0 <= i < j < |curve| ==> curve[i].cumulative <= curve[j].cumulative)
            && curve[|curve| - 1].cumulative == CollectedEver(f.book, members)
  {
    hide Refold, Members, Curve, CollectedUpTo, CollectedEver, OpenedIn;
    var f := Refold(log).figures;
    MembersOpenedIn(f, |f.book.order|, key);
    CohortCurve(log, Members(f, |f.book.order|, key), key.month);
  }

  // -- what a window collected --------------------------------------------------

  /** The money a receivable's events took on the days `from` to `to`. */
  function TakenBetween(log: seq<Event>, r: string, from: int, to: int): int
    decreases if from > to then 0 else to - from + 1
  {
    if from > to then 0 else TakenBetween(log, r, from, to - 1) + TakenOn(log, r, to)
  }

  lemma WindowGrows(days: Days, lo: int, to: int)
    requires lo < to
    ensures Sum(days, Ordering.Between(days, lo, to)) == Sum(days, Ordering.Between(days, lo, to - 1)) + At(days, to)
  {
    hide Sum;
    var before, after := Ordering.Between(days, lo, to - 1), Ordering.Between(days, lo, to);
    if to in days {
      SumTakes(days, after, to);
      assert after - {to} == before;
    } else {
      assert after == before;
    }
  }

  /** A receivable's figure for a window is exactly what its events took on those days. */
  lemma {:induction false} WindowIsWhatEventsTook(log: seq<Event>, r: string, from: int, to: int)
    requires Refold(log).Ok?
    ensures CollectedIn(Refold(log).figures, r, from, to) == TakenBetween(log, r, from, to)
    decreases if from > to then 0 else to - from + 1
  {
    hide Refold, Sum, TakenOn;
    var days := CollectedBy(Refold(log).figures.book, r);
    if from > to {
      assert Ordering.Between(days, from - 1, to) == {};
      NoneSum(days);
    } else {
      WindowIsWhatEventsTook(log, r, from, to - 1);
      WindowGrows(days, from - 1, to);
      FoldTellsTheLog(log, r);
    }
  }
}
