/** The report a log asks for, told without the fold, and that the emitted rows are exactly it. */
module Report {
  import Calendar
  import opened GoTime
  import opened EventLog
  import opened Fold
  import opened Balances
  import opened Ordering
  import opened NetBilling
  import opened Projections
  import opened Cohorts
  import opened Emission
  import opened Register

  // -- closing balances and aging -----------------------------------------------

  /** The lateness a bucket stands for. */
  predicate LateIn(late: int, b: Bucket) {
    match b
    case Current => late < DAY
    case UpTo30 => DAY <= late < 31 * DAY
    case UpTo60 => 31 * DAY <= late < 61 * DAY
    case UpTo90 => 61 * DAY <= late < 91 * DAY
    case Over90 => 91 * DAY <= late
  }

  const EVERY: set<Bucket> := {Current, UpTo30, UpTo60, UpTo90, Over90}

  /** A receivable with a balance, late as one of the buckets says. */
  predicate Owes(s: Snapshot, asOf: int, buckets: set<Bucket>) {
    s.balance > 0 && exists b :: b in buckets && LateIn(asOf - s.due, b)
  }

  predicate ShownBy(log: seq<Event>, k: nat, cur: string, day: int)
    requires k < |log|
  {
    Stands(log, k, cur) && DayKey(log[k].at) <= day
  }

  /** Owed at the end of a day on the receivables the first `k` events open. */
  function Owed(log: seq<Event>, k: nat, cur: string, day: int, buckets: set<Bucket>): nat
    requires k <= |log|
  {
    if k == 0 then 0
    else
      Owed(log, k - 1, cur, day, buckets)
      + (if ShownBy(log, k - 1, cur, day) && Owes(Shot(log, k - 1, day), EndOfDay(day), buckets)
         then BalanceOn(log, log[k - 1].body.receivable, day) else 0)
  }

  function Owing(log: seq<Event>, k: nat, cur: string, day: int, buckets: set<Bucket>): seq<string>
    requires k <= |log|
  {
    if k == 0 then []
    else
      Owing(log, k - 1, cur, day, buckets)
      + (if ShownBy(log, k - 1, cur, day) && Owes(Shot(log, k - 1, day), EndOfDay(day), buckets)
         then [log[k - 1].body.receivable] else [])
  }

  /** Shown, but with nothing owed. */
  function Cleared(log: seq<Event>, k: nat, cur: string, day: int): nat
    requires k <= |log|
  {
    if k == 0 then 0
    else
      Cleared(log, k - 1, cur, day)
      + (if ShownBy(log, k - 1, cur, day) && BalanceOn(log, log[k - 1].body.receivable, day) == 0 then 1 else 0)
  }

  /** A day's figures are measured one millisecond into its last second. */
  lemma MeasuredAtTheEnd(day: int)
    ensures EndOfDay(day) / DAY == day && (day + 1) * DAY - EndOfDay(day) == SECOND - 1_000_000
  {
  }

  lemma EveryLateness(late: int)
    ensures exists b :: b in EVERY && LateIn(late, b)
  {
    var b := if late < DAY then Current else if late < 31 * DAY then UpTo30 else if late < 61 * DAY then UpTo60
             else if late < 91 * DAY then UpTo90 else Over90;
    assert b in EVERY && LateIn(late, b);
  }

  lemma BucketIs(s: Snapshot, asOf: int, b: Bucket)
    ensures BucketOf(s, asOf) == b <==> LateIn(asOf - s.due, b)
  {
    hide DaysOverdue, BucketFor;
    BucketSpans(s.due, asOf);
  }

  lemma SumsAppend(s: seq<Snapshot>, x: Snapshot, asOf: int, b: Bucket)
    ensures Receivable(s + [x]) == Receivable(s) + x.balance
    ensures NonZero(s + [x]) == NonZero(s) + (if x.balance != 0 then [x.id] else [])
    ensures InBucket(s + [x], asOf, b)
            == if x.balance != 0 && BucketOf(x, asOf) == b then InBucket(s, asOf, b) + [x] else InBucket(s, asOf, b)
  {
    assert (s + [x])[..|s|] == s;
  }

  lemma ShownNext(log: seq<Event>, k: nat, cur: string, day: int)
    requires k < |log|
    ensures Shown(log, k + 1, cur, day)
            == if ShownBy(log, k, cur, day) then Shown(log, k, cur, day) + [Shot(log, k, day)]
               else Shown(log, k, cur, day)
  {
    hide CurrencyOf, EverVoided, DayKey, BalanceOn;
  }

  lemma {:induction false} OwedThrough(log: seq<Event>, k: nat, cur: string, day: int)
    requires k <= |log|
    ensures var s := Shown(log, k, cur, day);
            && Receivable(s) == Owed(log, k, cur, day, EVERY) && NonZero(s) == Owing(log, k, cur, day, EVERY)
            && |s| - |NonZero(s)| == Cleared(log, k, cur, day)
  {
    hide Shown, Receivable, NonZero, CurrencyOf, EverVoided, DayKey, BalanceOn, EndOfDay, LateIn, InBucket;
    if k == 0 {
      NoneShown(log, cur, day);
    } else {
      OwedThrough(log, k - 1, cur, day);
      ShownNext(log, k - 1, cur, day);
      if ShownBy(log, k - 1, cur, day) {
        SumsAppend(Shown(log, k - 1, cur, day), Shot(log, k - 1, day), EndOfDay(day), Current);
        EveryLateness(EndOfDay(day) - log[k - 1].body.due);
      }
    }
  }

  lemma NoneShown(log: seq<Event>, cur: string, day: int)
    ensures Shown(log, 0, cur, day) == [] && Receivable([]) == 0 && NonZero([]) == []
    ensures forall asOf, b :: InBucket([], asOf, b) == []
  {
  }

  lemma {:induction false} AgedThrough(log: seq<Event>, k: nat, cur: string, day: int, b: Bucket)
    requires k <= |log|
    ensures Accumulated(Shown(log, k, cur, day), EndOfDay(day), b)
            == Accumulator(Owed(log, k, cur, day, {b}), Owing(log, k, cur, day, {b}))
  {
    hide Shown, Receivable, NonZero, CurrencyOf, EverVoided, DayKey, BalanceOn, EndOfDay, LateIn, InBucket, BucketOf;
    if k == 0 {
      NoneShown(log, cur, day);
    } else {
      AgedThrough(log, k - 1, cur, day, b);
      ShownNext(log, k - 1, cur, day);
      if ShownBy(log, k - 1, cur, day) {
        var s, x, asOf := Shown(log, k - 1, cur, day), Shot(log, k - 1, day), EndOfDay(day);
        SumsAppend(s, x, asOf, b);
        BucketIs(x, asOf, b);
        SumsAppend(InBucket(s, asOf, b), x, asOf, b);
        assert Owes(x, asOf, {b}) <==> x.balance > 0 && LateIn(asOf - x.due, b) by {
          assert b in {b};
        }
      }
    }
  }

  // -- effectiveness ------------------------------------------------------------

  /** Taken on the days `from` to `to` from the standing receivables of a currency, and from which of them. */
  function Taken(log: seq<Event>, k: nat, cur: string, from: int, to: int): int
    requires k <= |log|
  {
    if k == 0 then 0
    else
      Taken(log, k - 1, cur, from, to)
      + (if Stands(log, k - 1, cur) then TakenBetween(log, log[k - 1].body.receivable, from, to) else 0)
  }

  function Payers(log: seq<Event>, k: nat, cur: string, from: int, to: int): seq<string>
    requires k <= |log|
  {
    if k == 0 then []
    else
      Payers(log, k - 1, cur, from, to)
      + (if Stands(log, k - 1, cur) && TakenBetween(log, log[k - 1].body.receivable, from, to) > 0
         then [log[k - 1].body.receivable] else [])
  }

  /** The invoices first issued in a currency on those days, voided or not. */
  function BilledOn(log: seq<Event>, k: nat, cur: string, from: int, to: int): seq<string>
    requires k <= |log|
  {
    if k == 0 then []
    else
      var ev := log[k - 1];
      BilledOn(log, k - 1, cur, from, to)
      + (if && ev.body.InvoiceIssued? && FirstIssue(log, ev.body.invoice) == k - 1
            && ev.body.currency == cur && from <= DayKey(ev.at) <= to
         then [ev.body.invoice] else [])
  }

  function BrokenOn(log: seq<Event>, from: int, to: int): nat {
    if log == [] then 0
    else
      var ev := log[|log| - 1];
      BrokenOn(log[..|log| - 1], from, to) + (if ev.body.PromiseBroken? && from <= DayKey(ev.at) <= to then 1 else 0)
  }

  /** What occurs nowhere earlier. */
  function Firsts(refs: seq<string>): seq<string> {
    if refs == [] then []
    else
      var front, last := refs[..|refs| - 1], refs[|refs| - 1];
      Firsts(front) + (if last in front then [] else [last])
  }

  lemma {:induction false} DedupeIsFirsts(refs: seq<string>)
    ensures Dedupe(refs) == Firsts(refs)
    ensures forall x :: x in Firsts(refs) <==> x in refs
  {
    if refs != [] {
      DedupeIsFirsts(refs[..|refs| - 1]);
      assert refs == refs[..|refs| - 1] + [refs[|refs| - 1]];
    }
  }

  lemma {:induction false} TakenThrough(log: seq<Event>, k: nat, cur: string, from: int, to: int)
    requires Refold(log).Ok? && Listable(Refold(log).figures.book) && k <= |log|
    ensures Openings(log[..k]) <= |Refold(log).figures.book.order|
    ensures CollectedTotal(Refold(log).figures, Openings(log[..k]), cur, from, to) == Taken(log, k, cur, from, to)
    ensures CollectedRefs(Refold(log).figures, Openings(log[..k]), cur, from, to) == Payers(log, k, cur, from, to)
    decreases k
  {
    hide Refold, DayKey, EverVoided, CurrencyOf, Openings, TakenBetween, CollectedIn;
    if k == 0 {
      NoOpenings(log);
    } else {
      TakenThrough(log, k - 1, cur, from, to);
      ReadAlong(log, k - 1);
      if log[k - 1].body.Opened? {
        WindowIsWhatEventsTook(log, log[k - 1].body.receivable, from, to);
      }
    }
  }

  lemma {:induction false} HasIsIssued(log: seq<Event>, id: string)
    ensures Has(FirstIssued(log), id) <==> FirstIssue(log, id) < |log|
  {
    hide Has, DayKey;
    if log == [] {
      NoneIssued(id);
    } else {
      var front, ev := log[..|log| - 1], log[|log| - 1];
      HasIsIssued(front, id);
      HasAppend(FirstIssued(front), Invoice(if ev.body.InvoiceIssued? then ev.body.invoice else "",
                                            if ev.body.InvoiceIssued? then ev.body.currency else "", DayKey(ev.at),
                                            if ev.body.InvoiceIssued? then ev.body.total else 0), id);
    }
  }

  lemma NoneIssued(id: string)
    ensures !Has([], id)
  {
  }

  /** An event is the first issue of its invoice exactly when none came before. */
  lemma FirstHere(log: seq<Event>, k: nat, id: string)
    requires k < |log| && Issues(log[k], id)
    ensures FirstIssue(log, id) == k <==> FirstIssue(log[..k], id) == k
  {
    assert forall j :: 0 <= j < k ==> log[..k][j] == log[j];
  }

  lemma BilledAppend(order: seq<Invoice>, record: Invoice, cur: string, from: int, to: int)
    ensures BilledRefs(order + [record], cur, from, to)
            == BilledRefs(order, cur, from, to) + if Counts(record, cur, from, to) then [record.id] else []
  {
    assert (order + [record])[..|order|] == order;
  }

  lemma {:induction false} BilledThrough(log: seq<Event>, k: nat, cur: string, from: int, to: int)
    requires k <= |log|
    ensures BilledRefs(FirstIssued(log[..k]), cur, from, to) == BilledOn(log, k, cur, from, to)
    decreases k
  {
    hide DayKey, FirstIssued, FirstIssue, Has, BilledRefs;
    if k == 0 {
      NoneBilled(cur, from, to);
    } else {
      BilledThrough(log, k - 1, cur, from, to);
      var ev := log[k - 1];
      assert log[..k] == log[..k - 1] + [ev];
      LogStep(log[..k - 1], ev);
      if ev.body.InvoiceIssued? {
        FirstHere(log, k - 1, ev.body.invoice);
        HasIsIssued(log[..k - 1], ev.body.invoice);
        BilledAppend(FirstIssued(log[..k - 1]),
                     Invoice(ev.body.invoice, ev.body.currency, DayKey(ev.at), ev.body.total), cur, from, to);
      }
    }
  }

  lemma NoneBilled(cur: string, from: int, to: int)
    ensures BilledRefs(FirstIssued([]), cur, from, to) == []
  {
  }

  lemma {:induction false} WindowBumps(days: Days, day: int, from: int, to: int)
    ensures Window(Bump(days, day, 1), from, to) == Window(days, from, to) + if from <= day <= to then 1 else 0
    decreases if from > to then 0 else to - from + 1
  {
    if from <= to {
      WindowBumps(days, day, from, to - 1);
    }
  }

  lemma PromisesNext(f: Figures, ev: Event)
    requires Apply(f, ev).Ok?
    ensures Apply(f, ev).figures.promisesBroken
            == if ev.body.PromiseBroken? then Bump(f.promisesBroken, DayKey(ev.at), 1) else f.promisesBroken
  {
    hide DayKey, Issue, Void, Bump, Open, NewEntry, Touch;
  }

  lemma {:induction false} PromisesAreTheLogs(log: seq<Event>, from: int, to: int)
    requires Refold(log).Ok?
    ensures Window(Refold(log).figures.promisesBroken, from, to) == BrokenOn(log, from, to)
  {
    hide Apply, DayKey, Window, Bump;
    if log == [] {
      EmptyWindow(from, to);
    } else {
      var f := Refold(log[..|log| - 1]).figures;
      PromisesAreTheLogs(log[..|log| - 1], from, to);
      PromisesNext(f, log[|log| - 1]);
      WindowBumps(f.promisesBroken, DayKey(log[|log| - 1].at), from, to);
    }
  }

  // -- a day's rows -------------------------------------------------------------

  /** Net billing of the days `from` to `to`, less what repeated voids take off again. */
  function NetBilled(log: seq<Event>, cur: string, from: int, to: int): int {
    Total(Net, log, FirstIssued(log), cur, from, to) - Total(Excessive, log, FirstIssued(log), cur, from, to)
  }

  function AgingFor(log: seq<Event>, cur: string, day: int, b: Bucket): Row {
    AgingRow(cur, day, b, Owed(log, |log|, cur, day, {b}), |Owing(log, |log|, cur, day, {b})|,
             Owing(log, |log|, cur, day, {b}))
  }

  function EffectivenessFor(log: seq<Event>, cur: string, from: int, to: int): Row {
    EffectivenessRow(cur, from, to, Taken(log, |log|, cur, from, to), NetBilled(log, cur, from, to),
                     BrokenOn(log, from, to),
                     Firsts(Payers(log, |log|, cur, from, to) + BilledOn(log, |log|, cur, from, to)))
  }

  function DayReport(log: seq<Event>, cur: string, day: int): seq<Row> {
    [DsoRow(cur, day, Owed(log, |log|, cur, day, EVERY), |Owing(log, |log|, cur, day, EVERY)|,
            Cleared(log, |log|, cur, day), NetBilled(log, cur, day - 29, day), Owing(log, |log|, cur, day, EVERY)),
     AgingFor(log, cur, day, Current), AgingFor(log, cur, day, UpTo30), AgingFor(log, cur, day, UpTo60),
     AgingFor(log, cur, day, UpTo90), AgingFor(log, cur, day, Over90),
     EffectivenessFor(log, cur, day - 29, day)]
  }

  lemma EffectivenessTells(log: seq<Event>, cur: string, day: int)
    requires Refold(log).Ok? && Listable(Refold(log).figures.book)
    ensures EffectivenessOf(Refold(log).figures, cur, day) == EffectivenessFor(log, cur, day - 29, day)
  {
    hide Refold, CollectedTotal, CollectedRefs, BilledRefs, BilledOn, Taken, Payers, BrokenOn, Window, Total,
         FirstIssued, Dedupe, Firsts, DaysOf, Openings, RecordsOk, AmountsOk, CurrenciesOk;
    var from := day - 29;
    assert log[..|log|] == log;
    BookedInOrder(log);
    TakenThrough(log, |log|, cur, from, day);
    WindowIsTotal(log, cur, from, day);
    PromisesAreTheLogs(log, from, day);
    BilledThrough(log, |log|, cur, from, day);
    assert Refold(log).figures.billing.order == FirstIssued(log) by { IssuedInOrder(log); }
    DedupeIsFirsts(Payers(log, |log|, cur, from, day) + BilledOn(log, |log|, cur, from, day));
  }

  lemma IssuedInOrder(log: seq<Event>)
    requires Refold(log).Ok?
    ensures Refold(log).figures.billing.order == FirstIssued(log)
  {
    hide Refold, AmountsOk, CurrenciesOk, FirstIssued, Voids;
    FoldKeepsBilling(log);
  }

  /** Every row of a day and currency says what the log says. */
  lemma DayRowsTell(log: seq<Event>, cur: string, day: int)
    requires Sorted(log) && Refold(log).Ok?
    ensures Listable(Refold(log).figures.book)
    ensures DayRows(Refold(log).figures, cur, day) == DayReport(log, cur, day)
  {
    hide Refold, ReceivablesAt, Shown, Owed, Owing, Cleared, Receivable, NonZero, Accumulated, Window, Total,
         FirstIssued, EffectivenessOf, EffectivenessFor, DaysOf, EndOfDay;
    DayShowsTheLog(log, cur, day);
    OwedThrough(log, |log|, cur, day);
    WindowIsTotal(log, cur, day - 29, day);
    AgedThrough(log, |log|, cur, day, Current);
    AgedThrough(log, |log|, cur, day, UpTo30);
    AgedThrough(log, |log|, cur, day, UpTo60);
    AgedThrough(log, |log|, cur, day, UpTo90);
    AgedThrough(log, |log|, cur, day, Over90);
    EffectivenessTells(log, cur, day);
  }

  // -- which days, currencies and cohorts ---------------------------------------

  /** An event the figures heed: a first issue, a void, an opening, or a word on an open receivable. */
  predicate Heeded(log: seq<Event>, k: nat)
    requires k < |log|
  {
    match log[k].body
    case InvoiceIssued(id, _, _) => FirstIssue(log[..k], id) == k
    case InvoiceVoided(_) => true
    case Opened(_, _, _, _) => true
    case PartiallySettled(r, _, _) => IsOpen(log[..k], r)
    case Settled(r) => IsOpen(log[..k], r)
    case WrittenOff(r) => IsOpen(log[..k], r)
    case Recovered(r, _) => IsOpen(log[..k], r)
    case _ => false
  }

  function DaysHeeded(log: seq<Event>, k: nat): set<int>
    requires k <= |log|
  {
    set i | 0 <= i < k && Heeded(log, i) :: DayKey(log[i].at)
  }

  lemma ActivityNext(f: Figures, log: seq<Event>, k: nat)
    requires k < |log| && Refold(log[..k]) == Ok(f) && Apply(f, log[k]).Ok?
    ensures Apply(f, log[k]).figures.activity == f.activity + if Heeded(log, k) then {DayKey(log[k].at)} else {}
  {
    hide Refold, DayKey, FirstIssue, CurrencyOf, IsOpen, Issue, Void, Bump, Open, NewEntry, Touch, LastWord, TakenOn,
         EverVoided;
    match log[k].body
    case InvoiceIssued(id, _, _) => InvoicesAreTheLogs(log[..k], id);
    case PartiallySettled(r, _, _) => FoldTellsTheLog(log[..k], r);
    case Settled(r) => FoldTellsTheLog(log[..k], r);
    case WrittenOff(r) => FoldTellsTheLog(log[..k], r);
    case Recovered(r, _) => FoldTellsTheLog(log[..k], r);
    case _ =>
  }

  lemma PrefixFolds(log: seq<Event>, k: nat)
    requires Refold(log).Ok? && k <= |log|
    ensures Refold(log[..k]).Ok?
    ensures k < |log| ==> Refold(log[..k + 1]) == Apply(Refold(log[..k]).figures, log[k])
  {
    hide Apply;
    if !Refold(log[..k]).Ok? {
      FailureStays(log, k);
    } else if k < |log| {
      RefoldNext(log, k, Refold(log[..k]).figures);
    }
  }

  lemma {:induction false} DaysThrough(log: seq<Event>, k: nat)
    requires Refold(log).Ok? && k <= |log|
    ensures Refold(log[..k]).Ok? && Refold(log[..k]).figures.activity == DaysHeeded(log, k)
    decreases k
  {
    hide Apply, Heeded, DayKey;
    PrefixFolds(log, k);
    if k > 0 {
      DaysThrough(log, k - 1);
      PrefixFolds(log, k - 1);
      PrefixFolds(log, k);
      ActivityNext(Refold(log[..k - 1]).figures, log, k - 1);
    }
  }

  /** What the fold passes over: a second issue of an invoice, a word on a receivable not open. */
  function PassedOver(log: seq<Event>, k: nat): seq<Skip>
    requires k <= |log|
  {
    if k == 0 then []
    else
      var ev := log[k - 1];
      PassedOver(log, k - 1)
      + (if Heeded(log, k - 1) then []
         else if ev.body.InvoiceIssued? then [DuplicateBilling(ev.body.invoice, ev.id)]
         else if Touches(ev.body) then [UnknownReceivable(ev.body.receivable, ev.id)] else [])
  }

  lemma SkipsNext(f: Figures, log: seq<Event>, k: nat)
    requires k < |log| && Refold(log[..k]) == Ok(f) && Apply(f, log[k]).Ok? && f.skips == PassedOver(log, k)
    ensures Apply(f, log[k]).figures.skips == PassedOver(log, k + 1)
  {
    hide Refold, DayKey, FirstIssue, CurrencyOf, IsOpen, Issue, Void, Bump, Open, NewEntry, Touch, LastWord, TakenOn,
         EverVoided;
    match log[k].body
    case InvoiceIssued(id, _, _) => InvoicesAreTheLogs(log[..k], id);
    case PartiallySettled(r, _, _) => FoldTellsTheLog(log[..k], r);
    case Settled(r) => FoldTellsTheLog(log[..k], r);
    case WrittenOff(r) => FoldTellsTheLog(log[..k], r);
    case Recovered(r, _) => FoldTellsTheLog(log[..k], r);
    case _ =>
  }

  /** The counted skips are the log's: every event passed over, once, in order. */
  lemma {:induction false} SkipsThrough(log: seq<Event>, k: nat)
    requires Refold(log).Ok? && k <= |log|
    ensures Refold(log[..k]).Ok? && Refold(log[..k]).figures.skips == PassedOver(log, k)
    decreases k
  {
    hide Apply, Heeded, PassedOver;
    PrefixFolds(log, k);
    if k == 0 {
      NoSkips(log);
    } else {
      SkipsThrough(log, k - 1);
      PrefixFolds(log, k - 1);
      SkipsNext(Refold(log[..k - 1]).figures, log, k - 1);
    }
  }

  lemma NoSkips(log: seq<Event>)
    ensures PassedOver(log, 0) == []
  {
  }

  /** Event `k` first issues its invoice, which was not voided before. */
  predicate Bills(log: seq<Event>, k: nat)
    requires k < |log|
  {
    log[k].body.InvoiceIssued? && FirstIssue(log[..k], log[k].body.invoice) == k && !EverVoided(log[..k], log[k].body.invoice)
  }

  function CurrenciesBilled(log: seq<Event>, k: nat): set<string>
    requires k <= |log|
  {
    set i | 0 <= i < k && Bills(log, i) :: log[i].body.currency
  }

  lemma BilledKeysNext(f: Figures, log: seq<Event>, k: nat)
    requires k < |log| && Refold(log[..k]) == Ok(f) && Apply(f, log[k]).Ok?
    ensures Apply(f, log[k]).figures.billing.billed.Keys
            == f.billing.billed.Keys + if Bills(log, k) then {log[k].body.currency} else {}
  {
    hide Refold, DayKey, FirstIssue, CurrencyOf, EverVoided, Bump, DaysOf, Open, NewEntry, Touch;
    if log[k].body.InvoiceIssued? {
      InvoicesAreTheLogs(log[..k], log[k].body.invoice);
    }
  }

  lemma {:induction false} BilledKeysThrough(log: seq<Event>, k: nat)
    requires Refold(log).Ok? && k <= |log|
    ensures Refold(log[..k]).Ok? && Refold(log[..k]).figures.billing.billed.Keys == CurrenciesBilled(log, k)
    decreases k
  {
    hide Apply, Bills;
    PrefixFolds(log, k);
    if k > 0 {
      BilledKeysThrough(log, k - 1);
      PrefixFolds(log, k - 1);
      BilledKeysNext(Refold(log[..k - 1]).figures, log, k - 1);
    }
  }

  /** The currency a receivable is opened in; empty unless its invoice is known. */
  function OpenedIn(log: seq<Event>, k: nat): string
    requires k < |log| && log[k].body.Opened?
  {
    CurrencyOf(log[..k], log[k].body.invoice)
  }

  function CurrenciesOpened(log: seq<Event>, k: nat): set<string>
    requires k <= |log|
  {
    set i | 0 <= i < k && log[i].body.Opened? && OpenedIn(log, i) != "" :: OpenedIn(log, i)
  }

  predicate InSomeCohort(log: seq<Event>, k: nat)
    requires k < |log|
  {
    log[k].body.Opened? && OpenedIn(log, k) != "" && !EverVoided(log, log[k].body.invoice)
  }

  function CohortFor(log: seq<Event>, k: nat): CohortKey
    requires k < |log| && log[k].body.Opened?
  {
    CohortKey(Calendar.MonthStart(DayKey(log[k].at)), OpenedIn(log, k))
  }

  function CohortsOpened(log: seq<Event>, k: nat): set<CohortKey>
    requires k <= |log|
  {
    set i | 0 <= i < k && InSomeCohort(log, i) :: CohortFor(log, i)
  }

  lemma {:induction false} CurrenciesThrough(log: seq<Event>, k: nat)
    requires Refold(log).Ok? && Listable(Refold(log).figures.book) && k <= |log|
    ensures Openings(log[..k]) <= |Refold(log).figures.book.order|
    ensures Currencies(Refold(log).figures, Openings(log[..k]))
            == Refold(log).figures.billing.billed.Keys + CurrenciesOpened(log, k)
    decreases k
  {
    hide Refold, DayKey, EverVoided, CurrencyOf, Openings;
    if k == 0 {
      NoOpenings(log);
    } else {
      CurrenciesThrough(log, k - 1);
      ReadAlong(log, k - 1);
      assert CurrenciesOpened(log, k)
          == CurrenciesOpened(log, k - 1)
             + if log[k - 1].body.Opened? && OpenedIn(log, k - 1) != "" then {OpenedIn(log, k - 1)} else {};
    }
  }

  lemma CohortsNext(log: seq<Event>, k: nat)
    requires k < |log|
    ensures CohortsOpened(log, k + 1) == CohortsOpened(log, k) + if InSomeCohort(log, k) then {CohortFor(log, k)} else {}
  {
    hide DayKey, EverVoided, CurrencyOf, Calendar.MonthStart;
  }

  lemma {:induction false} KeysThrough(log: seq<Event>, k: nat)
    requires Refold(log).Ok? && Listable(Refold(log).figures.book) && k <= |log|
    ensures Openings(log[..k]) <= |Refold(log).figures.book.order|
    ensures CohortKeys(Refold(log).figures, Openings(log[..k])) == CohortsOpened(log, k)
    decreases k
  {
    hide Refold, DayKey, EverVoided, CurrencyOf, Openings, Calendar.MonthStart, CohortsOpened;
    if k == 0 {
      NoOpenings(log);
      NoCohorts(log);
    } else {
      KeysThrough(log, k - 1);
      ReadAlong(log, k - 1);
      CohortsNext(log, k - 1);
    }
  }

  lemma NoCohorts(log: seq<Event>)
    ensures CohortsOpened(log, 0) == {}
  {
  }

  // -- cohorts ------------------------------------------------------------------

  predicate Joins(log: seq<Event>, k: nat, key: CohortKey)
    requires k < |log|
  {
    InSomeCohort(log, k) && CohortFor(log, k) == key
  }

  /** A cohort's receivables among those the first `k` events open, and what they were opened for. */
  function Cohort(log: seq<Event>, k: nat, key: CohortKey): seq<string>
    requires k <= |log|
  {
    if k == 0 then []
    else Cohort(log, k - 1, key) + (if Joins(log, k - 1, key) then [log[k - 1].body.receivable] else [])
  }

  function OpenedFor(log: seq<Event>, k: nat, key: CohortKey): nat
    requires k <= |log|
  {
    if k == 0 then 0 else OpenedFor(log, k - 1, key) + (if Joins(log, k - 1, key) then log[k - 1].body.original else 0)
  }

  lemma OriginalAppend(b: Book, members: seq<string>, r: string)
    ensures Original(b, members + [r]) == Original(b, members) + if r in b.entries then b.entries[r].original else 0
  {
    assert (members + [r])[..|members|] == members;
  }

  lemma {:induction false} CohortThrough(log: seq<Event>, k: nat, key: CohortKey)
    requires Refold(log).Ok? && Listable(Refold(log).figures.book) && k <= |log|
    ensures Openings(log[..k]) <= |Refold(log).figures.book.order|
    ensures Members(Refold(log).figures, Openings(log[..k]), key) == Cohort(log, k, key)
    ensures Original(Refold(log).figures.book, Cohort(log, k, key)) == OpenedFor(log, k, key)
    decreases k
  {
    hide Refold, DayKey, EverVoided, CurrencyOf, Openings, Calendar.MonthStart, Original;
    if k == 0 {
      NoOpenings(log);
      NoOriginal(Refold(log).figures.book);
    } else {
      CohortThrough(log, k - 1, key);
      ReadAlong(log, k - 1);
      if Joins(log, k - 1, key) {
        OriginalAppend(Refold(log).figures.book, Cohort(log, k - 1, key), log[k - 1].body.receivable);
      } else {
        assert Cohort(log, k, key) == Cohort(log, k - 1, key);
      }
    }
  }

  lemma NoOriginal(b: Book)
    ensures Original(b, []) == 0
  {
  }

  function TakenFrom(log: seq<Event>, members: seq<string>, from: int, to: int): int {
    if members == [] then 0
    else
      TakenFrom(log, members[..|members| - 1], from, to) + TakenBetween(log, members[|members| - 1], from, to)
  }

  /** The days, from the month's start, on which the log takes money from a member; day 0 always. */
  function PayDays(log: seq<Event>, members: seq<string>, month: int): set<int> {
    {0} + set i | 0 <= i < |log| && DayKey(log[i].at) >= month && PaysOn(log, members, DayKey(log[i].at))
            :: DayKey(log[i].at) - month
  }

  predicate PaysOn(log: seq<Event>, members: seq<string>, day: int) {
    exists r :: r in members && TakenOn(log, r, day) > 0
  }

  /** Members who paid on those days and are not listed yet join the list. */
  function Joined(refs: seq<string>, log: seq<Event>, members: seq<string>, from: int, to: int): seq<string> {
    if members == [] then refs
    else
      var r := members[|members| - 1];
      var before := Joined(refs, log, members[..|members| - 1], from, to);
      if TakenBetween(log, r, from, to) > 0 && r !in before then before + [r] else before
  }

  /** Those who paid by the last of the points, in the order of the points. */
  function PaidThrough(log: seq<Event>, members: seq<string>, month: int, points: seq<int>): seq<string> {
    if points == [] then []
    else
      var front, last := points[..|points| - 1], points[|points| - 1];
      Joined(PaidThrough(log, members, month, front), log, members,
             month + (if front == [] then 0 else front[|front| - 1] + 1), month + last)
  }

  ghost predicate NeverPaid(log: seq<Event>, r: string) { forall day :: TakenOn(log, r, day) == 0 }

  ghost function Silent(log: seq<Event>, members: seq<string>): seq<string> {
    if members == [] then []
    else
      var r := members[|members| - 1];
      Silent(log, members[..|members| - 1]) + (if NeverPaid(log, r) then [r] else [])
  }

  ghost function CurveFor(log: seq<Event>, key: CohortKey): seq<Point> {
    IntLessIsTotal();
    var members := Cohort(log, |log|, key);
    var points := Listed(PayDays(log, members, key.month), IntLess);
    seq(|points|, k requires 0 <= k < |points| =>
      Point(points[k], TakenFrom(log, members, key.month, key.month + points[k]), OpenedFor(log, |log|, key),
            Firsts(PaidThrough(log, members, key.month, points[..k + 1]) + Silent(log, members))))
  }

  /** A receivable's collections, day for day, are what the log took from it, and none of them is empty. */
  lemma PaidDays(log: seq<Event>, r: string)
    requires Sorted(log) && Refold(log).Ok?
    ensures var days := CollectedBy(Refold(log).figures.book, r);
            && (forall d :: d in days <==> TakenOn(log, r, d) > 0) && (forall d :: d in days ==> days[d] > 0)
            && (forall d :: TakenOn(log, r, d) >= 0)
  {
    hide Refold, DayKey, LastWord, TakenOn, IsOpen;
    var day := if log == [] then 0 else DayKey(log[|log| - 1].at);
    SortedIsInTime(log);
    FoldKeepsCollections(log, day);
    FoldTellsTheLog(log, r);
    var days := CollectedBy(Refold(log).figures.book, r);
    forall d: int
      ensures d in days <==> TakenOn(log, r, d) > 0
      ensures TakenOn(log, r, d) >= 0
    {
      assert At(days, d) == TakenOn(log, r, d);
    }
  }

  lemma {:induction false} TakenSomewhere(log: seq<Event>, r: string, day: int)
    requires TakenOn(log, r, day) != 0
    ensures exists i :: 0 <= i < |log| && DayKey(log[i].at) == day
  {
    hide DayKey, Takes;
    if DayKey(log[|log| - 1].at) != day {
      var front := log[..|log| - 1];
      TakenSomewhere(front, r, day);
      var i :| 0 <= i < |front| && DayKey(front[i].at) == day;
      assert log[i] == front[i];
    }
  }

  lemma {:induction false} PointDaysExactly(b: Book, members: seq<string>, month: int, p: int)
    ensures p in PointDays(b, members, month)
            <==> p == 0 || (p >= 0 && exists r :: r in members && month + p in CollectedBy(b, r))
  {
    if members != [] {
      var front, last := members[..|members| - 1], members[|members| - 1];
      PointDaysExactly(b, front, month, p);
      assert members == front + [last];
      var days := CollectedBy(b, last);
      assert p in (set d | d in days && d >= month :: d - month) <==> p >= 0 && month + p in days by {
        if p >= 0 && month + p in days {
          assert (month + p) - month == p;
        }
      }
    }
  }

  lemma PointsAreTheLogs(log: seq<Event>, members: seq<string>, month: int)
    requires Sorted(log) && Refold(log).Ok?
    ensures PointDays(Refold(log).figures.book, members, month) == PayDays(log, members, month)
  {
    hide Refold, PointDays, DayKey, TakenOn, CollectedBy;
    var b := Refold(log).figures.book;
    forall p: int
      ensures p in PointDays(b, members, month) <==> p in PayDays(log, members, month)
    {
      PointDaysExactly(b, members, month, p);
      forall r | r in members
        ensures month + p in CollectedBy(b, r) <==> TakenOn(log, r, month + p) > 0
      {
        PaidDays(log, r);
      }
      if p >= 0 && PaysOn(log, members, month + p) {
        var r :| r in members && TakenOn(log, r, month + p) > 0;
        TakenSomewhere(log, r, month + p);
        var i :| 0 <= i < |log| && DayKey(log[i].at) == month + p;
        assert DayKey(log[i].at) - month == p;
      }
    }
  }

  lemma {:induction false} SpanIsTheLogs(log: seq<Event>, members: seq<string>, lo: int, hi: int)
    requires Refold(log).Ok?
    ensures CollectedBetween(Refold(log).figures.book, members, lo, hi) == TakenFrom(log, members, lo + 1, hi)
  {
    hide Refold, Sum, TakenBetween, CollectedBy, Ordering.Between;
    if members != [] {
      SpanIsTheLogs(log, members[..|members| - 1], lo, hi);
      WindowIsWhatEventsTook(log, members[|members| - 1], lo + 1, hi);
      assert lo + 1 - 1 == lo;
    }
  }

  /** A member collected in a span exactly when the log took something from it then. */
  lemma PaidInSpan(log: seq<Event>, r: string, lo: int, hi: int)
    requires Sorted(log) && Refold(log).Ok?
    ensures Ordering.Between(CollectedBy(Refold(log).figures.book, r), lo, hi) != {}
            <==> TakenBetween(log, r, lo + 1, hi) > 0
  {
    hide Refold, Sum, TakenBetween, TakenOn, CollectedBy;
    var days := CollectedBy(Refold(log).figures.book, r);
    var span := Ordering.Between(days, lo, hi);
    PaidDays(log, r);
    WindowIsWhatEventsTook(log, r, lo + 1, hi);
    assert Ordering.Between(days, lo + 1 - 1, hi) == span;
    if span == {} {
      NoneSum(days);
    } else {
      var d := Pick(span);
      SumTakes(days, span, d);
      SumNonNegative(days, span - {d});
    }
  }

  lemma {:induction false} JoinedAreContributors(refs: seq<string>, log: seq<Event>, members: seq<string>, lo: int, hi: int)
    requires Sorted(log) && Refold(log).Ok?
    ensures Contributors(refs, Refold(log).figures.book, members, lo, hi) == Joined(refs, log, members, lo + 1, hi)
  {
    hide Refold, TakenBetween, CollectedBy, Ordering.Between;
    if members != [] {
      JoinedAreContributors(refs, log, members[..|members| - 1], lo, hi);
      PaidInSpan(log, members[|members| - 1], lo, hi);
    }
  }

  lemma {:induction false} PaidAreRefs(log: seq<Event>, members: seq<string>, month: int, points: seq<int>)
    requires Sorted(log) && Refold(log).Ok?
    ensures RefsThrough(Refold(log).figures.book, members, month, points) == PaidThrough(log, members, month, points)
    decreases |points|
  {
    hide Refold, Contributors, Joined;
    if points != [] {
      var front, last := points[..|points| - 1], points[|points| - 1];
      PaidAreRefs(log, members, month, front);
      var lo := month + (if front == [] then -1 else front[|front| - 1]);
      JoinedAreContributors(PaidThrough(log, members, month, front), log, members, lo, month + last);
      assert lo + 1 == month + (if front == [] then 0 else front[|front| - 1] + 1);
    }
  }

  lemma {:induction false} SilentAreRefs(log: seq<Event>, members: seq<string>)
    requires Sorted(log) && Refold(log).Ok?
    ensures DenominatorOnly(Refold(log).figures.book, members) == Silent(log, members)
  {
    hide Refold, TakenOn, CollectedBy;
    if members != [] {
      SilentAreRefs(log, members[..|members| - 1]);
      var r := members[|members| - 1];
      PaidDays(log, r);
      var days := CollectedBy(Refold(log).figures.book, r);
      if days.Keys != {} {
        var d := Pick(days.Keys);
        assert TakenOn(log, r, d) > 0;
      }
    }
  }

  /** Every cohort's members, points, money and evidence are what the log says. */
  lemma CurveTells(log: seq<Event>, key: CohortKey)
    requires Sorted(log) && Refold(log).Ok?
    ensures Listable(Refold(log).figures.book)
    ensures var f := Refold(log).figures;
            Curve(f.book, Members(f, |f.book.order|, key), key.month) == CurveFor(log, key)
  {
    hide Refold, PointDays, PayDays, CollectedBetween, TakenFrom, Original, OpenedFor, Dedupe, Firsts, RefsThrough,
         PaidThrough, DenominatorOnly, Silent, Members, Cohort, Openings;
    FoldIsListable(log);
    var f := Refold(log).figures;
    BookedInOrder(log);
    assert log[..|log|] == log;
    CohortThrough(log, |log|, key);
    var members, month := Cohort(log, |log|, key), key.month;
    PointsAreTheLogs(log, members, month);
    SilentAreRefs(log, members);
    var points := Points(f.book, members, month);
    forall k | 0 <= k < |points|
      ensures PointAt(f.book, members, month, points, k)
              == Point(points[k], TakenFrom(log, members, month, month + points[k]), OpenedFor(log, |log|, key),
                       Firsts(PaidThrough(log, members, month, points[..k + 1]) + Silent(log, members)))
    {
      SpanIsTheLogs(log, members, month - 1, month + points[k]);
      PaidAreRefs(log, members, month, points[..k + 1]);
      DedupeIsFirsts(PaidThrough(log, members, month, points[..k + 1]) + Silent(log, members));
    }
  }

  // -- the whole report ---------------------------------------------------------

  function Flat(parts: seq<seq<Row>>): seq<Row> {
    if parts == [] then [] else Flat(parts[..|parts| - 1]) + parts[|parts| - 1]
  }

  ghost function ReportDays(log: seq<Event>): seq<int> {
    IntLessIsTotal();
    Listed(DaysHeeded(log, |log|), IntLess)
  }

  ghost function ReportCurrencies(log: seq<Event>): seq<string> {
    StringLessIsTotal();
    Listed(CurrenciesBilled(log, |log|) + CurrenciesOpened(log, |log|), StringLess)
  }

  ghost function ReportCohorts(log: seq<Event>): seq<CohortKey> {
    KeyBeforeIsTotal();
    Listed(CohortsOpened(log, |log|), KeyBefore)
  }

  /** A block per day ascending, in it one per currency ascending; then a curve per month and currency. */
  ghost function ReportOf(log: seq<Event>): seq<Row> {
    var days, curs, keys := ReportDays(log), ReportCurrencies(log), ReportCohorts(log);
    Flat(seq(|days|, i requires 0 <= i < |days| => DayBlock(log, curs, days[i])))
    + Flat(seq(|keys|, i requires 0 <= i < |keys| => Tagged(keys[i], CurveFor(log, keys[i]))))
  }

  ghost function DayBlock(log: seq<Event>, curs: seq<string>, day: int): seq<Row> {
    Flat(seq(|curs|, j requires 0 <= j < |curs| => DayReport(log, curs[j], day)))
  }

  lemma {:induction false} DayBlockIs(log: seq<Event>, curs: seq<string>, day: int)
    requires Sorted(log) && Refold(log).Ok? && Listable(Refold(log).figures.book)
    ensures RowsOfDay(Refold(log).figures, curs, day) == DayBlock(log, curs, day)
  {
    hide Refold, DayRows, DayReport;
    if curs != [] {
      var front := curs[..|curs| - 1];
      DayBlockIs(log, front, day);
      DayRowsTell(log, curs[|curs| - 1], day);
      var parts := seq(|curs|, j requires 0 <= j < |curs| => DayReport(log, curs[j], day));
      assert parts[..|front|] == seq(|front|, j requires 0 <= j < |front| => DayReport(log, front[j], day));
    }
  }

  lemma {:induction false} DayBlocksAre(log: seq<Event>, curs: seq<string>, days: seq<int>)
    requires Sorted(log) && Refold(log).Ok? && Listable(Refold(log).figures.book)
    ensures RowsOfDays(Refold(log).figures, curs, days)
            == Flat(seq(|days|, i requires 0 <= i < |days| => DayBlock(log, curs, days[i])))
    decreases |days|
  {
    hide Refold, RowsOfDay, DayBlock;
    if days != [] {
      var front := days[..|days| - 1];
      DayBlocksAre(log, curs, front);
      DayBlockIs(log, curs, days[|days| - 1]);
      var parts := seq(|days|, i requires 0 <= i < |days| => DayBlock(log, curs, days[i]));
      assert parts[..|front|] == seq(|front|, i requires 0 <= i < |front| => DayBlock(log, curs, front[i]));
    }
  }

  lemma {:induction false} CurvesAre(log: seq<Event>, keys: seq<CohortKey>)
    requires Sorted(log) && Refold(log).Ok? && Listable(Refold(log).figures.book)
    ensures RowsOfCohorts(Refold(log).figures, keys)
            == Flat(seq(|keys|, i requires 0 <= i < |keys| => Tagged(keys[i], CurveFor(log, keys[i]))))
  {
    hide Refold, Curve, CurveFor, Members, Tagged;
    if keys != [] {
      var front := keys[..|keys| - 1];
      CurvesAre(log, front);
      CurveTells(log, keys[|keys| - 1]);
      var parts := seq(|keys|, i requires 0 <= i < |keys| => Tagged(keys[i], CurveFor(log, keys[i])));
      assert parts[..|front|]
          == seq(|front|, i requires 0 <= i < |front| => Tagged(front[i], CurveFor(log, front[i])));
    }
  }

  lemma ListsAre(log: seq<Event>)
    requires Refold(log).Ok? && Listable(Refold(log).figures.book)
    ensures var f := Refold(log).figures;
            DayList(f) == ReportDays(log) && CurrencyList(f) == ReportCurrencies(log) && KeyList(f) == ReportCohorts(log)
  {
    hide Refold, DaysHeeded, CurrenciesBilled, CurrenciesOpened, CohortsOpened, Currencies, CohortKeys, Openings,
         StringLess, KeyBefore, StrictTotal;
    assert log[..|log|] == log;
    BookedInOrder(log);
    DaysThrough(log, |log|);
    BilledKeysThrough(log, |log|);
    CurrenciesThrough(log, |log|);
    KeysThrough(log, |log|);
  }

  /**
   * Everything emitted for a log, row for row, is the report of the log itself: which days, currencies and
   * cohorts have rows, in which order, and every figure and reference of every row.
   */
  lemma EmittedIsTheReport(log: seq<Event>)
    requires Sorted(log) && Refold(log).Ok?
    ensures Listable(Refold(log).figures.book) && Rows(Refold(log).figures) == ReportOf(log)
  {
    hide Refold, RowsOfDays, RowsOfCohorts, Flat, DayList, CurrencyList, KeyList, ReportDays, ReportCurrencies,
         ReportCohorts, DayBlock, CurveFor;
    FoldIsListable(log);
    ListsAre(log);
    DayBlocksAre(log, ReportCurrencies(log), ReportDays(log));
    CurvesAre(log, ReportCohorts(log));
  }
}
