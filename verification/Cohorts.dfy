/** Cohort recovery curves: receivables grouped by opening month and currency, and what they recovered by when. */
module Cohorts {
  import Calendar
  import opened GoTime
  import opened EventLog
  import opened Fold
  import opened Ordering

  // -- collections never precede opening ----------------------------------------

  /** Every amount was collected on a day from its receivable's opening to `day`. */
  ghost predicate CollectionsOk(b: Book, day: int) {
    && (forall r :: r in b.collected ==> r in b.entries)
    && (forall r, d :: r in b.collected && d in b.collected[r] ==>
          b.entries[r].openedDay <= d <= day && b.collected[r][d] > 0)
  }

  lemma CollectKeeps(b: Book, b': Book, r: string, day: int, amount: nat)
    requires CollectionsOk(b, day) && r in b.entries && b.entries[r].openedDay <= day
    requires b'.collected == Collect(b.collected, r, day, amount)
    requires forall x :: x in b.entries ==> x in b'.entries && b'.entries[x].openedDay == b.entries[x].openedDay
    ensures CollectionsOk(b', day)
  {
  }

  lemma TouchKeeps(b: Book, day: int, body: Body)
    requires CollectionsOk(b, day) && BookOk(b, day) && Touches(body) && body.receivable in b.entries
    ensures CollectionsOk(Touch(b, day, body), day)
  {
    hide Collect, CollectionsOk;
    var b' := Touch(b, day, body);
    var r := body.receivable;
    assert EntryOk(b, r, day);
    match body
    case PartiallySettled(_, amount, _) => CollectKeeps(b, b', r, day, amount);
    case Settled(_) => CollectKeeps(b, b', r, day, b.entries[r].balance);
    case Recovered(_, amount) => CollectKeeps(b, b', r, day, amount);
    case WrittenOff(_) =>
      assert b'.collected == Collect(b.collected, r, day, 0) by { CollectNothing(b.collected, r, day); }
      CollectKeeps(b, b', r, day, 0);
  }

  lemma CollectNothing(collected: map<string, Days>, r: string, day: int)
    ensures Collect(collected, r, day, 0) == collected
  {
  }

  lemma CollectionsLater(b: Book, day: int, later: int)
    requires CollectionsOk(b, day) && day <= later
    ensures CollectionsOk(b, later)
  {
  }

  lemma ApplyKeepsCollections(f: Figures, ev: Event, day: int)
    requires CollectionsOk(f.book, day) && BookOk(f.book, day) && day <= DayKey(ev.at) && Apply(f, ev).Ok?
    ensures CollectionsOk(Apply(f, ev).figures.book, DayKey(ev.at))
  {
    hide Touch, Issue, Void, DayKey, CollectionsOk, Bump;
    CollectionsLater(f.book, day, DayKey(ev.at));
    BookLater(f.book, day, DayKey(ev.at));
    if ev.body.Opened? {
      OpenKeeps(f.book, NewEntry(f.billing, DayKey(ev.at), ev.body), DayKey(ev.at));
    } else if Touches(ev.body) && ev.body.receivable in f.book.entries {
      TouchKeeps(f.book, DayKey(ev.at), ev.body);
    }
  }

  lemma OpenKeeps(b: Book, e: Entry, day: int)
    requires CollectionsOk(b, day) && e.receivable !in b.entries
    ensures CollectionsOk(Open(b, e), day)
  {
  }

  lemma {:induction false} FoldKeepsCollections(log: seq<Event>, day: int)
    requires InTime(log) && Refold(log).Ok? && (log != [] ==> DayKey(log[|log| - 1].at) <= day)
    ensures CollectionsOk(Refold(log).figures.book, day)
    decreases |log|
  {
    hide Apply, DayKey;
    if log != [] {
      var front, last := log[..|log| - 1], log[|log| - 1];
      if front != [] {
        assert front[|front| - 1] == log[|log| - 2];
        DayKeyMonotone(front[|front| - 1].at, last.at);
      }
      FoldKeepsCollections(front, DayKey(last.at));
      FoldKeepsBook(front, DayKey(last.at));
      ApplyKeepsCollections(Refold(front).figures, last, DayKey(last.at));
      CollectionsLater(Refold(log).figures.book, DayKey(last.at), day);
    }
  }

  // -- the curve ----------------------------------------------------------------

  function CollectedBy(b: Book, r: string): Days { DaysOf(b.collected, r) }

  /** The days, counted from the month's start, on which the members collected; day 0 always. */
  function PointDays(b: Book, members: seq<string>, month: int): set<int> {
    if members == [] then {0}
    else
      var days := CollectedBy(b, members[|members| - 1]);
      PointDays(b, members[..|members| - 1], month) + (set d | d in days && d >= month :: d - month)
  }

  /** What the members collected on days above `lo`, through `hi`. */
  ghost function CollectedBetween(b: Book, members: seq<string>, lo: int, hi: int): int {
    if members == [] then 0
    else
      var days := CollectedBy(b, members[|members| - 1]);
      CollectedBetween(b, members[..|members| - 1], lo, hi) + Sum(days, Between(days, lo, hi))
  }

  ghost function CollectedUpTo(b: Book, members: seq<string>, hi: int): int {
    if members == [] then 0
    else
      var days := CollectedBy(b, members[|members| - 1]);
      CollectedUpTo(b, members[..|members| - 1], hi) + Sum(days, UpTo(days, hi))
  }

  /** Everything the members ever collected. */
  ghost function CollectedEver(b: Book, members: seq<string>): int {
    if members == [] then 0
    else
      var days := CollectedBy(b, members[|members| - 1]);
      CollectedEver(b, members[..|members| - 1]) + Sum(days, days.Keys)
  }

  function Original(b: Book, members: seq<string>): nat {
    if members == [] then 0
    else
      var r := members[|members| - 1];
      Original(b, members[..|members| - 1]) + (if r in b.entries then b.entries[r].original else 0)
  }

  function AppendUnique(refs: seq<string>, id: string): seq<string> {
    if id in refs then refs else refs + [id]
  }

  /** Members that collected in the span join the evidence, in member order. */
  function Contributors(refs: seq<string>, b: Book, members: seq<string>, lo: int, hi: int): seq<string> {
    if members == [] then refs
    else
      var r := members[|members| - 1];
      var before := Contributors(refs, b, members[..|members| - 1], lo, hi);
      if Between(CollectedBy(b, r), lo, hi) == {} then before else AppendUnique(before, r)
  }

  function RefsThrough(b: Book, members: seq<string>, month: int, points: seq<int>): seq<string> {
    if points == [] then []
    else
      var front := points[..|points| - 1];
      Contributors(RefsThrough(b, members, month, front), b, members,
                   month + (if front == [] then -1 else front[|front| - 1]), month + points[|points| - 1])
  }

  function DenominatorOnly(b: Book, members: seq<string>): seq<string> {
    if members == [] then []
    else
      var r := members[|members| - 1];
      DenominatorOnly(b, members[..|members| - 1]) + (if CollectedBy(b, r).Keys == {} then [r] else [])
  }

  function Dedupe(refs: seq<string>): seq<string> {
    if refs == [] then [] else AppendUnique(Dedupe(refs[..|refs| - 1]), refs[|refs| - 1])
  }

  datatype Point = Point(daysSinceOpen: int, cumulative: int, original: nat, refs: seq<string>)

  predicate IntLess(a: int, b: int) { a < b }

  lemma IntLessIsTotal()
    ensures StrictTotal(IntLess)
  {
  }

  /** The point a curve shows for its first `k + 1` days. */
  ghost function PointAt(b: Book, members: seq<string>, month: int, points: seq<int>, k: nat): Point
    requires k < |points|
  {
    Point(points[k], CollectedBetween(b, members, month - 1, month + points[k]), Original(b, members),
          Dedupe(RefsThrough(b, members, month, points[..k + 1]) + DenominatorOnly(b, members)))
  }

  /** The point days, ascending. */
  ghost function Points(b: Book, members: seq<string>, month: int): seq<int> {
    IntLessIsTotal();
    Listed(PointDays(b, members, month), IntLess)
  }

  ghost predicate Rising(points: seq<int>) { forall i, j :: 0 <= i < j < |points| ==> points[i] < points[j] }

  lemma PointsRise(b: Book, members: seq<string>, month: int)
    ensures Rising(Points(b, members, month))
    ensures forall p :: p in Points(b, members, month) <==> p in PointDays(b, members, month)
  {
  }

  ghost function Curve(b: Book, members: seq<string>, month: int): seq<Point> {
    var points := Points(b, members, month);
    seq(|points|, k requires 0 <= k < |points| => PointAt(b, members, month, points, k))
  }

  lemma {:induction false} SpansJoin(b: Book, members: seq<string>, lo: int, mid: int, hi: int)
    requires lo <= mid <= hi
    ensures CollectedBetween(b, members, lo, hi)
            == CollectedBetween(b, members, lo, mid) + CollectedBetween(b, members, mid, hi)
  {
    hide Sum;
    if members != [] {
      var days := CollectedBy(b, members[|members| - 1]);
      SpansJoin(b, members[..|members| - 1], lo, mid, hi);
      assert Between(days, lo, hi) == Between(days, lo, mid) + Between(days, mid, hi);
      SumUnion(days, Between(days, lo, mid), Between(days, mid, hi));
    }
  }

  lemma PointsAreNonNegative(b: Book, members: seq<string>, month: int)
    ensures forall p :: p in PointDays(b, members, month) ==> p >= 0
  {
  }

  /** The member-days of one cohort, gathered in whatever order the maps yield them. */
  method GatherPoints(b: Book, members: seq<string>, month: int) returns (points: seq<int>)
    ensures points == Points(b, members, month)
  {
    var found := {0};
    for i := 0 to |members|
      invariant found == PointDays(b, members[..i], month)
    {
      assert members[..i + 1][..i] == members[..i];
      var days := CollectedBy(b, members[i]);
      ghost var before := found;
      var rest := days.Keys;
      while rest != {}
        invariant rest <= days.Keys
        invariant found == before + (set d | d in days && d !in rest && d >= month :: d - month)
      {
        var d := Take(rest);
        if d >= month {
          found := found + {d - month};
        }
        rest := rest - {d};
      }
    }
    assert members[..|members|] == members;
    IntLessIsTotal();
    points := List(found, IntLess);
  }

  /** One member's money in a span, added in whatever order the map yields it. */
  method AddMember(days: Days, id: string, lo: int, hi: int, sum: int, refs: seq<string>)
    returns (sum': int, refs': seq<string>)
    ensures sum' == sum + Sum(days, Between(days, lo, hi))
    ensures refs' == if Between(days, lo, hi) == {} then refs else AppendUnique(refs, id)
  {
    hide Sum;
    sum', refs' := sum, refs;
    var rest := days.Keys;
    NoneSum(days);
    assert Between(days, lo, hi) - rest == {};
    while rest != {}
      invariant rest <= days.Keys
      invariant sum' == sum + Sum(days, Between(days, lo, hi) - rest)
      invariant refs' == if Between(days, lo, hi) - rest == {} then refs else AppendUnique(refs, id)
    {
      var d := Take(rest);
      var done := Between(days, lo, hi) - (rest - {d});
      if lo < d <= hi {
        sum' := sum' + days[d];
        refs' := AppendUnique(refs', id);
        SumTakes(days, done, d);
        assert done - {d} == Between(days, lo, hi) - rest;
        assert d in done;
      } else {
        assert done == Between(days, lo, hi) - rest;
      }
      rest := rest - {d};
    }
    assert Between(days, lo, hi) - rest == Between(days, lo, hi);
  }

  /** One step of the curve: the members' money since the previous point. */
  method AddPoint(b: Book, members: seq<string>, lo: int, hi: int, sum: int, refs: seq<string>)
    returns (sum': int, refs': seq<string>)
    ensures sum' == sum + CollectedBetween(b, members, lo, hi)
    ensures refs' == Contributors(refs, b, members, lo, hi)
  {
    sum', refs' := sum, refs;
    for i := 0 to |members|
      invariant sum' == sum + CollectedBetween(b, members[..i], lo, hi)
      invariant refs' == Contributors(refs, b, members[..i], lo, hi)
    {
      assert members[..i + 1][..i] == members[..i];
      sum', refs' := AddMember(CollectedBy(b, members[i]), members[i], lo, hi, sum', refs');
    }
    assert members[..|members|] == members;
  }

  method Totals(b: Book, members: seq<string>) returns (original: nat, denominatorOnly: seq<string>)
    ensures original == Original(b, members) && denominatorOnly == DenominatorOnly(b, members)
  {
    original, denominatorOnly := 0, [];
    for i := 0 to |members|
      invariant original == Original(b, members[..i]) && denominatorOnly == DenominatorOnly(b, members[..i])
    {
      assert members[..i + 1][..i] == members[..i];
      var r := members[i];
      if r in b.entries {
        original := original + b.entries[r].original;
      }
      if CollectedBy(b, r).Keys == {} {
        denominatorOnly := denominatorOnly + [r];
      }
    }
    assert members[..|members|] == members;
  }

  lemma RefsNext(b: Book, members: seq<string>, month: int, points: seq<int>, k: nat)
    requires k < |points|
    ensures RefsThrough(b, members, month, points[..k + 1])
            == Contributors(RefsThrough(b, members, month, points[..k]), b, members,
                            month + (if k == 0 then -1 else points[k - 1]), month + points[k])
  {
    hide Contributors;
    assert points[..k + 1][..k] == points[..k];
  }

  lemma CurveIs(b: Book, members: seq<string>, month: int, points: seq<int>, curve: seq<Point>)
    requires points == Points(b, members, month)
    requires |curve| == |points| && forall i :: 0 <= i < |curve| ==> curve[i] == PointAt(b, members, month, points, i)
    ensures curve == Curve(b, members, month)
  {
  }

  /** The emitted curve is a function of the book: map order never shows. */
  method EmitCohort(b: Book, members: seq<string>, month: int) returns (curve: seq<Point>)
    ensures curve == Curve(b, members, month)
  {
    hide PointDays, Contributors, Original, DenominatorOnly, Dedupe, RefsThrough, CollectedBetween, Curve, Points;
    var points := GatherPoints(b, members, month);
    PointsRise(b, members, month);
    var original, denominatorOnly := Totals(b, members);
    PointsAreNonNegative(b, members, month);
    curve := [];
    var cumulative, refs, prev := 0, [], -1;
    NothingBefore(b, members, month - 1);
    NoRefsYet(b, members, month);
    for k := 0 to |points|
      invariant |curve| == k
      invariant prev == if k == 0 then -1 else points[k - 1]
      invariant cumulative == CollectedBetween(b, members, month - 1, month + prev)
      invariant refs == RefsThrough(b, members, month, points[..k])
      invariant forall i :: 0 <= i < k ==> curve[i] == PointAt(b, members, month, points, i)
    {
      var p := points[k];
      assert p in points && (k == 0 || prev in points);
      RefsNext(b, members, month, points, k);
      SpansJoin(b, members, month - 1, month + prev, month + p);
      cumulative, refs := AddPoint(b, members, month + prev, month + p, cumulative, refs);
      prev := p;
      curve := curve + [Point(p, cumulative, original, Dedupe(refs + denominatorOnly))];
    }
    CurveIs(b, members, month, points, curve);
  }

  lemma NoRefsYet(b: Book, members: seq<string>, month: int)
    ensures RefsThrough(b, members, month, []) == []
  {
  }

  lemma {:induction false} NothingBefore(b: Book, members: seq<string>, lo: int)
    ensures CollectedBetween(b, members, lo, lo) == 0
  {
    if members != [] {
      NothingBefore(b, members[..|members| - 1], lo);
    }
  }

  // -- what the curve shows -----------------------------------------------------

  /** A cohort: receivables opened in the month that starts on `month`. */
  ghost predicate OpenedIn(b: Book, members: seq<string>, month: int) {
    forall i :: 0 <= i < |members| ==>
      members[i] in b.entries && Calendar.MonthStart(b.entries[members[i]].openedDay) == month
  }

  /** The pre-cohort filter drops nothing. */
  lemma {:induction false} NothingPrecedesTheCohort(b: Book, members: seq<string>, month: int, day: int, hi: int)
    requires CollectionsOk(b, day) && OpenedIn(b, members, month)
    ensures CollectedBetween(b, members, month - 1, hi) == CollectedUpTo(b, members, hi)
  {
    hide Sum, Calendar.MonthStart;
    if members != [] {
      var r := members[|members| - 1];
      var days := CollectedBy(b, r);
      NothingPrecedesTheCohort(b, members[..|members| - 1], month, day, hi);
      assert month <= b.entries[r].openedDay by { Calendar.MonthStartIs(b.entries[r].openedDay); }
      assert Between(days, month - 1, hi) == UpTo(days, hi);
    }
  }

  lemma {:induction false} UpToGrows(b: Book, members: seq<string>, day: int, lo: int, hi: int)
    requires CollectionsOk(b, day) && lo <= hi
    ensures CollectedUpTo(b, members, lo) <= CollectedUpTo(b, members, hi)
  {
    hide Sum;
    if members != [] {
      var days := CollectedBy(b, members[|members| - 1]);
      UpToGrows(b, members[..|members| - 1], day, lo, hi);
      SumSplits(days, lo, hi);
      SumNonNegative(days, Between(days, lo, hi));
    }
  }

  lemma {:induction false} UpToLastIsEver(b: Book, members: seq<string>, month: int, day: int, last: int)
    requires CollectionsOk(b, day) && OpenedIn(b, members, month)
    requires forall p :: p in PointDays(b, members, month) ==> p <= last
    ensures CollectedUpTo(b, members, month + last) == CollectedEver(b, members)
  {
    hide Sum, Calendar.MonthStart;
    if members != [] {
      var r := members[|members| - 1];
      var days := CollectedBy(b, r);
      assert PointDays(b, members[..|members| - 1], month) <= PointDays(b, members, month);
      UpToLastIsEver(b, members[..|members| - 1], month, day, last);
      assert month <= b.entries[r].openedDay by { Calendar.MonthStartIs(b.entries[r].openedDay); }
      forall d | d in days
        ensures d <= month + last
      {
        assert d - month in PointDays(b, members, month);
      }
      assert UpTo(days, month + last) == days.Keys;
    }
  }

  /**
   * Each point of a cohort's curve shows everything its members collected by then, the curve never
   * falls, and its last point shows all they ever collected.
   */
  lemma CohortCurve(log: seq<Event>, members: seq<string>, month: int)
    requires Sorted(log) && Refold(log).Ok? && OpenedIn(Refold(log).figures.book, members, month)
    ensures var b := Refold(log).figures.book;
            var curve := Curve(b, members, month);
            && curve != [] && curve[0].daysSinceOpen == 0
            && (forall i :: 0 <= i < |curve| ==>
                  curve[i].cumulative == CollectedUpTo(b, members, month + curve[i].daysSinceOpen))
            && (forall i, j :: 0 <= i < j < |curve| ==>
                  curve[i].daysSinceOpen < curve[j].daysSinceOpen && curve[i].cumulative <= curve[j].cumulative)
            && curve[|curve| - 1].cumulative == CollectedEver(b, members)
  {
    hide Calendar.MonthStart, Refold, Curve, DayKey, Points, PointDays, CollectedUpTo, CollectedEver, OpenedIn, CollectionsOk;
    var b := Refold(log).figures.book;
    var day := if log == [] then 0 else DayKey(log[|log| - 1].at);
    FoldKeepsCollections(log, day);
    PointsRise(b, members, month);
    ZeroIsFirst(b, members, month);
    var points := Points(b, members, month);
    var curve := Curve(b, members, month);
    CurveLength(b, members, month, points);
    forall i | 0 <= i < |curve|
      ensures curve[i].daysSinceOpen == points[i] && curve[i].cumulative == CollectedUpTo(b, members, month + points[i])
    {
      PointShows(b, members, month, points, i);
      NothingPrecedesTheCohort(b, members, month, day, month + points[i]);
    }
    forall i, j | 0 <= i < j < |curve|
      ensures curve[i].daysSinceOpen < curve[j].daysSinceOpen && curve[i].cumulative <= curve[j].cumulative
    {
      UpToGrows(b, members, day, month + points[i], month + points[j]);
    }
    LastIsLargest(points, PointDays(b, members, month));
    UpToLastIsEver(b, members, month, day, points[|points| - 1]);
  }

  lemma CurveLength(b: Book, members: seq<string>, month: int, points: seq<int>)
    requires points == Points(b, members, month)
    ensures |Curve(b, members, month)| == |points|
  {
  }

  lemma PointShows(b: Book, members: seq<string>, month: int, points: seq<int>, i: nat)
    requires points == Points(b, members, month) && i < |points|
    requires |Curve(b, members, month)| == |points|
    ensures Curve(b, members, month)[i].daysSinceOpen == points[i]
    ensures Curve(b, members, month)[i].cumulative == CollectedBetween(b, members, month - 1, month + points[i])
  {
  }

  lemma ZeroIsFirst(b: Book, members: seq<string>, month: int)
    ensures Points(b, members, month) != [] && Points(b, members, month)[0] == 0
  {
    hide PointDays, Points;
    PointsAreNonNegative(b, members, month);
    PointsRise(b, members, month);
    ZeroIsAPoint(b, members, month);
    var points := Points(b, members, month);
    var k :| 0 <= k < |points| && points[k] == 0;
    assert points[0] in points;
  }

  lemma {:induction false} ZeroIsAPoint(b: Book, members: seq<string>, month: int)
    ensures 0 in PointDays(b, members, month)
  {
    if members != [] {
      ZeroIsAPoint(b, members[..|members| - 1], month);
    }
  }

  lemma LastIsLargest(points: seq<int>, items: set<int>)
    requires points != [] && Rising(points) && forall x :: x in points <==> x in items
    ensures forall p :: p in items ==> p <= points[|points| - 1]
  {
  }
}
