/** What the fold's billing map means in terms of the log: invoices, their first issue and their voids. */
module NetBilling {
  import opened EventLog
  import opened Fold

  // -- the log's own account ----------------------------------------------------

  predicate Has(order: seq<Invoice>, id: string) { exists i :: 0 <= i < |order| && order[i].id == id }

  /** The invoices of a log, each as first issued, in log order. */
  function FirstIssued(log: seq<Event>): seq<Invoice> {
    if log == [] then []
    else
      var before, ev := FirstIssued(log[..|log| - 1]), log[|log| - 1];
      if ev.body.InvoiceIssued? && !Has(before, ev.body.invoice)
      then before + [Invoice(ev.body.invoice, ev.body.currency, DayKey(ev.at), ev.body.total)]
      else before
  }

  /** The voids of an invoice that come after (or before) its first issue. */
  function Voids(log: seq<Event>, id: string, after: bool): nat {
    if log == [] then 0
    else
      var front, ev := log[..|log| - 1], log[|log| - 1];
      Voids(front, id, after)
      + (if ev.body == InvoiceVoided(id) && Has(FirstIssued(front), id) == after then 1 else 0)
  }

  predicate NeverVoided(log: seq<Event>, id: string) { Voids(log, id, false) == 0 && Voids(log, id, true) == 0 }

  /** Voids that subtract again what is already gone, or what was never billed. */
  function Excess(log: seq<Event>, id: string): nat {
    var after := Voids(log, id, true);
    if Voids(log, id, false) > 0 || after == 0 then after else after - 1
  }

  /** How often an invoice's total counts: as the code books it, net of voids, and in excess. */
  datatype Measure = Booked | Net | Excessive

  function Weight(m: Measure, log: seq<Event>, id: string): int {
    match m
    case Booked => (if Voids(log, id, false) > 0 then 0 else 1) - Voids(log, id, true)
    case Net => if NeverVoided(log, id) then 1 else 0
    case Excessive => Excess(log, id)
  }

  predicate Counts(record: Invoice, cur: string, from: int, to: int) {
    record.currency == cur && from <= record.day <= to
  }

  /** A measure summed over the invoices of one currency billed on the days `from` to `to`. */
  function Total(m: Measure, log: seq<Event>, order: seq<Invoice>, cur: string, from: int, to: int): int {
    if order == [] then 0
    else
      var record := order[|order| - 1];
      Total(m, log, order[..|order| - 1], cur, from, to)
      + (if Counts(record, cur, from, to) then record.total * Weight(m, log, record.id) else 0)
  }

  lemma {:induction false} TotalAgrees(
      m: Measure, log: seq<Event>, log': seq<Event>, order: seq<Invoice>, cur: string, from: int, to: int)
    requires forall i :: 0 <= i < |order| ==> Weight(m, log', order[i].id) == Weight(m, log, order[i].id)
    ensures Total(m, log', order, cur, from, to) == Total(m, log, order, cur, from, to)
  {
    hide Weight;
    if order != [] {
      assert order[|order| - 1] == order[..|order|][|order| - 1];
      TotalAgrees(m, log, log', order[..|order| - 1], cur, from, to);
    }
  }

  ghost predicate DistinctInvoices(order: seq<Invoice>) {
    forall i, j :: 0 <= i < j < |order| ==> order[i].id != order[j].id
  }

  lemma LessOne(total: int, w: int)
    ensures total * (w - 1) == total * w - total
  {
  }

  /** One more void after issue takes the invoice's total off its day. */
  lemma {:induction false} TotalLosesOne(
      log: seq<Event>, log': seq<Event>, order: seq<Invoice>, k: nat, cur: string, from: int, to: int)
    requires DistinctInvoices(order) && k < |order|
    requires forall i :: 0 <= i < |order| && i != k ==> Weight(Booked, log', order[i].id) == Weight(Booked, log, order[i].id)
    requires Weight(Booked, log', order[k].id) == Weight(Booked, log, order[k].id) - 1
    ensures Total(Booked, log', order, cur, from, to)
            == Total(Booked, log, order, cur, from, to) - (if Counts(order[k], cur, from, to) then order[k].total else 0)
  {
    hide Weight;
    var front := order[..|order| - 1];
    LessOne(order[k].total, Weight(Booked, log, order[k].id));
    if k == |order| - 1 {
      TotalAgrees(Booked, log, log', front, cur, from, to);
    } else {
      TotalLosesOne(log, log', front, k, cur, from, to);
    }
  }

  // -- the fold keeps that account ----------------------------------------------

  ghost predicate RecordsOk(b: Billing, log: seq<Event>) {
    && b.order == FirstIssued(log) && DistinctInvoices(b.order)
    && (forall i :: 0 <= i < |b.order| ==> b.order[i].id in b.invoices && b.invoices[b.order[i].id] == b.order[i])
    && (forall id :: id in b.invoices <==> Has(b.order, id))
    && (forall id :: id in b.voided <==> !NeverVoided(log, id))
    && (forall id :: id !in b.invoices ==> Voids(log, id, true) == 0)
  }

  ghost predicate AmountsOk(b: Billing, log: seq<Event>) {
    forall cur, day :: At(DaysOf(b.billed, cur), day) == Total(Booked, log, b.order, cur, day, day)
  }

  ghost predicate EverBilled(order: seq<Invoice>, log: seq<Event>, cur: string) {
    exists i :: 0 <= i < |order| && order[i].currency == cur && Voids(log, order[i].id, false) == 0
  }

  /** A currency has a billing map once one of its invoices was issued unvoided. */
  ghost predicate CurrenciesOk(b: Billing, log: seq<Event>) {
    forall cur :: cur in b.billed <==> EverBilled(b.order, log, cur)
  }

  ghost predicate BillingOk(b: Billing, log: seq<Event>) {
    RecordsOk(b, log) && AmountsOk(b, log) && CurrenciesOk(b, log)
  }

  lemma LogStep(log: seq<Event>, ev: Event)
    ensures FirstIssued(log + [ev])
            == if ev.body.InvoiceIssued? && !Has(FirstIssued(log), ev.body.invoice)
               then FirstIssued(log) + [Invoice(ev.body.invoice, ev.body.currency, DayKey(ev.at), ev.body.total)]
               else FirstIssued(log)
    ensures forall id, after ::
              Voids(log + [ev], id, after)
              == Voids(log, id, after) + if ev.body == InvoiceVoided(id) && Has(FirstIssued(log), id) == after then 1 else 0
  {
  }

  /** An event that is neither an issue nor a void leaves every account alone. */
  lemma OtherStep(b: Billing, log: seq<Event>, ev: Event)
    requires BillingOk(b, log) && !ev.body.InvoiceVoided?
    requires ev.body.InvoiceIssued? ==> ev.body.invoice in b.invoices
    ensures BillingOk(b, log + [ev])
  {
    hide FirstIssued, Voids, Total, DayKey;
    LogStep(log, ev);
    forall cur, day
      ensures Total(Booked, log + [ev], b.order, cur, day, day) == Total(Booked, log, b.order, cur, day, day)
    {
      TotalAgrees(Booked, log, log + [ev], b.order, cur, day, day);
    }
  }

  lemma HasAppend(order: seq<Invoice>, record: Invoice, id: string)
    ensures Has(order + [record], id) <==> Has(order, id) || record.id == id
  {
    if Has(order, id) {
      var i :| 0 <= i < |order| && order[i].id == id;
      assert (order + [record])[i].id == id;
    }
    assert (order + [record])[|order|] == record;
  }

  lemma IssueRecords(b: Billing, log: seq<Event>, ev: Event, record: Invoice)
    requires BillingOk(b, log) && ev.body.InvoiceIssued? && ev.body.invoice !in b.invoices
    requires record == Invoice(ev.body.invoice, ev.body.currency, DayKey(ev.at), ev.body.total)
    ensures RecordsOk(Issue(b, record), log + [ev])
  {
    hide FirstIssued, Voids, Total, DayKey, Bump, DaysOf, AmountsOk, CurrenciesOk, Has;
    LogStep(log, ev);
    var b' := Issue(b, record);
    assert !Has(b.order, record.id);
    forall id
      ensures id in b'.invoices <==> Has(b'.order, id)
    {
      HasAppend(b.order, record, id);
    }
    forall i | 0 <= i < |b.order|
      ensures b.order[i].id != record.id
    {
      HasAt(b.order, i);
    }
  }

  lemma HasAt(order: seq<Invoice>, i: nat)
    requires i < |order|
    ensures Has(order, order[i].id)
  {
  }

  lemma TotalAppend(m: Measure, log: seq<Event>, order: seq<Invoice>, record: Invoice, cur: string, day: int)
    ensures Total(m, log, order + [record], cur, day, day)
            == Total(m, log, order, cur, day, day)
               + (if Counts(record, cur, day, day) then record.total * Weight(m, log, record.id) else 0)
  {
    hide Weight;
    assert (order + [record])[..|order|] == order;
  }

  /** Billing an invoice adds its total to its own currency and day, and to no other. */
  lemma BillAt(billed: map<string, Days>, record: Invoice, cur: string, day: int)
    ensures var after := billed[record.currency := Bump(DaysOf(billed, record.currency), record.day, record.total)];
            At(DaysOf(after, cur), day)
            == At(DaysOf(billed, cur), day) + (if Counts(record, cur, day, day) then record.total else 0)
  {
  }

  /** A newly issued invoice weighs 1, or 0 if its void came first. */
  lemma IssueWeight(b: Billing, log: seq<Event>, ev: Event)
    requires RecordsOk(b, log) && ev.body.InvoiceIssued? && ev.body.invoice !in b.invoices
    ensures Weight(Booked, log + [ev], ev.body.invoice) == if ev.body.invoice in b.voided then 0 else 1
  {
    hide FirstIssued, Voids, Has, DistinctInvoices;
    LogStep(log, ev);
  }

  lemma IssueKeepsWeights(log: seq<Event>, ev: Event, id: string)
    requires ev.body.InvoiceIssued?
    ensures Weight(Booked, log + [ev], id) == Weight(Booked, log, id)
  {
    hide FirstIssued, Voids, Has;
    LogStep(log, ev);
  }

  lemma IssueAmounts(b: Billing, log: seq<Event>, ev: Event, record: Invoice, cur: string, day: int)
    requires BillingOk(b, log) && ev.body.InvoiceIssued? && ev.body.invoice !in b.invoices
    requires record == Invoice(ev.body.invoice, ev.body.currency, DayKey(ev.at), ev.body.total)
    ensures At(DaysOf(Issue(b, record).billed, cur), day)
            == Total(Booked, log + [ev], Issue(b, record).order, cur, day, day)
  {
    hide Total, Weight, Bump, DaysOf, At, RecordsOk, CurrenciesOk, Counts, DayKey;
    forall i | 0 <= i < |b.order|
      ensures Weight(Booked, log + [ev], b.order[i].id) == Weight(Booked, log, b.order[i].id)
    {
      IssueKeepsWeights(log, ev, b.order[i].id);
    }
    TotalAgrees(Booked, log, log + [ev], b.order, cur, day, day);
    TotalAppend(Booked, log + [ev], b.order, record, cur, day);
    IssueWeight(b, log, ev);
    BillAt(b.billed, record, cur, day);
  }

  lemma IssueCurrencies(b: Billing, log: seq<Event>, ev: Event, record: Invoice)
    requires BillingOk(b, log) && ev.body.InvoiceIssued? && ev.body.invoice !in b.invoices
    requires record == Invoice(ev.body.invoice, ev.body.currency, DayKey(ev.at), ev.body.total)
    ensures CurrenciesOk(Issue(b, record), log + [ev])
  {
    hide FirstIssued, Voids, Total, DayKey, Bump, DaysOf, AmountsOk;
    LogStep(log, ev);
    var b' := Issue(b, record);
    forall cur
      ensures cur in b'.billed <==> EverBilled(b'.order, log + [ev], cur)
    {
      if cur in b.billed {
        var i :| 0 <= i < |b.order| && b.order[i].currency == cur && Voids(log, b.order[i].id, false) == 0;
        assert b'.order[i] == b.order[i];
      }
      assert b'.order[|b.order|] == record;
    }
  }

  lemma IssueStep(b: Billing, log: seq<Event>, ev: Event, record: Invoice)
    requires BillingOk(b, log) && ev.body.InvoiceIssued? && ev.body.invoice !in b.invoices
    requires record == Invoice(ev.body.invoice, ev.body.currency, DayKey(ev.at), ev.body.total)
    ensures BillingOk(Issue(b, record), log + [ev])
  {
    hide RecordsOk, CurrenciesOk, Issue, Total, DayKey;
    IssueRecords(b, log, ev, record);
    forall cur, day
      ensures At(DaysOf(Issue(b, record).billed, cur), day)
              == Total(Booked, log + [ev], Issue(b, record).order, cur, day, day)
    {
      IssueAmounts(b, log, ev, record, cur, day);
    }
    IssueCurrencies(b, log, ev, record);
  }

  lemma VoidAmounts(b: Billing, log: seq<Event>, ev: Event, id: string, cur: string, day: int)
    requires BillingOk(b, log) && ev.body == InvoiceVoided(id)
    requires id in b.invoices ==> b.invoices[id].currency in b.billed
    ensures At(DaysOf(Void(b, id).billed, cur), day) == Total(Booked, log + [ev], b.order, cur, day, day)
  {
    hide FirstIssued, Voids, DayKey, CurrenciesOk, Total;
    LogStep(log, ev);
    if id in b.invoices {
      var k :| 0 <= k < |b.order| && b.order[k].id == id;
      TotalLosesOne(log, log + [ev], b.order, k, cur, day, day);
    } else {
      forall i | 0 <= i < |b.order|
        ensures Weight(Booked, log + [ev], b.order[i].id) == Weight(Booked, log, b.order[i].id)
      {
        assert Has(b.order, b.order[i].id);
      }
      TotalAgrees(Booked, log, log + [ev], b.order, cur, day, day);
    }
  }

  lemma VoidCurrencies(b: Billing, log: seq<Event>, ev: Event, id: string)
    requires BillingOk(b, log) && ev.body == InvoiceVoided(id)
    requires id in b.invoices ==> b.invoices[id].currency in b.billed
    ensures CurrenciesOk(Void(b, id), log + [ev])
  {
    hide FirstIssued, Voids, DayKey, Total, Bump, AmountsOk;
    LogStep(log, ev);
    forall i | 0 <= i < |b.order|
      ensures Voids(log + [ev], b.order[i].id, false) == Voids(log, b.order[i].id, false)
    {
      assert Has(b.order, b.order[i].id);
    }
    assert Void(b, id).billed.Keys == b.billed.Keys;
  }

  lemma VoidStep(b: Billing, log: seq<Event>, ev: Event, id: string)
    requires BillingOk(b, log) && ev.body == InvoiceVoided(id)
    requires id in b.invoices ==> b.invoices[id].currency in b.billed
    ensures BillingOk(Void(b, id), log + [ev])
  {
    hide FirstIssued, Voids, DayKey, Total, Bump, DaysOf, CurrenciesOk;
    LogStep(log, ev);
    forall cur, day
      ensures At(DaysOf(Void(b, id).billed, cur), day) == Total(Booked, log + [ev], b.order, cur, day, day)
    {
      VoidAmounts(b, log, ev, id, cur, day);
    }
    VoidCurrencies(b, log, ev, id);
  }

  lemma ApplyKeepsBilling(f: Figures, log: seq<Event>, ev: Event)
    requires BillingOk(f.billing, log) && Apply(f, ev).Ok?
    ensures BillingOk(Apply(f, ev).figures.billing, log + [ev])
  {
    hide BillingOk, Issue, Void, DayKey, Touch, Open, NewEntry, Bump;
    match ev.body
    case InvoiceVoided(id) => VoidStep(f.billing, log, ev, id);
    case InvoiceIssued(id, total, currency) =>
      if id in f.billing.invoices {
        OtherStep(f.billing, log, ev);
      } else {
        IssueStep(f.billing, log, ev, Invoice(id, currency, DayKey(ev.at), total));
      }
    case _ => OtherStep(f.billing, log, ev);
  }

  lemma StartOk()
    ensures BillingOk(Fold.EMPTY.billing, [])
  {
  }

  lemma {:induction false} FoldKeepsBilling(log: seq<Event>)
    requires Refold(log).Ok?
    ensures BillingOk(Refold(log).figures.billing, log)
  {
    hide BillingOk, Apply;
    if log == [] {
      StartOk();
    } else {
      var front := log[..|log| - 1];
      assert log == front + [log[|log| - 1]];
      FoldKeepsBilling(front);
      ApplyKeepsBilling(Refold(front).figures, front, log[|log| - 1]);
    }
  }

  // -- net billing --------------------------------------------------------------

  lemma Spread(total: int, a: int, b: int)
    ensures total * (a - b) == total * a - total * b
  {
  }

  /** What is booked is the net amount less what excess voids take away again. */
  lemma {:induction false} BookedIsNetLessExcess(log: seq<Event>, order: seq<Invoice>, cur: string, from: int, to: int)
    ensures Total(Booked, log, order, cur, from, to)
            == Total(Net, log, order, cur, from, to) - Total(Excessive, log, order, cur, from, to)
  {
    if order != [] {
      var record := order[|order| - 1];
      BookedIsNetLessExcess(log, order[..|order| - 1], cur, from, to);
      assert Weight(Booked, log, record.id) == Weight(Net, log, record.id) - Weight(Excessive, log, record.id);
      Spread(record.total, Weight(Net, log, record.id), Weight(Excessive, log, record.id));
    }
  }

  lemma {:induction false} TotalNonNegative(
      m: Measure, log: seq<Event>, order: seq<Invoice>, cur: string, from: int, to: int)
    requires m != Booked
    ensures Total(m, log, order, cur, from, to) >= 0
  {
    hide Voids;
    if order != [] {
      TotalNonNegative(m, log, order[..|order| - 1], cur, from, to);
    }
  }

  /** The fold's billing, day by day: the exact value for every log, voids repeated or not. */
  lemma BilledIsExactly(log: seq<Event>, cur: string, day: int)
    requires Refold(log).Ok?
    ensures At(DaysOf(Refold(log).figures.billing.billed, cur), day)
            == Total(Net, log, FirstIssued(log), cur, day, day) - Total(Excessive, log, FirstIssued(log), cur, day, day)
  {
    hide Total, Refold;
    FoldKeepsBilling(log);
    BookedIsNetLessExcess(log, FirstIssued(log), cur, day, day);
  }

  ghost predicate BilledIsNet(log: seq<Event>, cur: string, day: int)
    requires Refold(log).Ok?
  {
    At(DaysOf(Refold(log).figures.billing.billed, cur), day) == Total(Net, log, FirstIssued(log), cur, day, day)
  }

  ghost predicate NoExcess(log: seq<Event>) {
    var order := FirstIssued(log);
    forall i :: 0 <= i < |order| && order[i].total > 0 ==> Excess(log, order[i].id) == 0
  }

  lemma {:induction false} NoExcessNoLoss(log: seq<Event>, order: seq<Invoice>, cur: string, from: int, to: int)
    requires forall i :: 0 <= i < |order| && order[i].total > 0 ==> Excess(log, order[i].id) == 0
    ensures Total(Excessive, log, order, cur, from, to) == 0
  {
    hide Excess;
    if order != [] {
      NoExcessNoLoss(log, order[..|order| - 1], cur, from, to);
    }
  }

  lemma {:induction false} ExcessIsLost(log: seq<Event>, order: seq<Invoice>, k: nat)
    requires k < |order| && order[k].total > 0 && Excess(log, order[k].id) > 0
    ensures Total(Excessive, log, order, order[k].currency, order[k].day, order[k].day) > 0
  {
    hide Excess;
    var front, record := order[..|order| - 1], order[|order| - 1];
    if k < |order| - 1 {
      ExcessIsLost(log, front, k);
    } else {
      TotalNonNegative(Excessive, log, front, record.currency, record.day, record.day);
      assert record.total * Excess(log, record.id) > 0;
    }
  }

  /**
   * Net billing holds of every currency and day exactly when no invoice is voided again: twice after
   * its issue, or after an issue that its void preceded.
   */
  lemma NetExactlyWithoutExcess(log: seq<Event>)
    requires Refold(log).Ok?
    ensures (forall cur, day :: BilledIsNet(log, cur, day)) <==> NoExcess(log)
  {
    hide Refold, FirstIssued, Total, Excess;
    var order := FirstIssued(log);
    if NoExcess(log) {
      forall cur, day
        ensures BilledIsNet(log, cur, day)
      {
        BilledIsExactly(log, cur, day);
        NoExcessNoLoss(log, order, cur, day, day);
      }
    } else {
      var k :| 0 <= k < |order| && order[k].total > 0 && Excess(log, order[k].id) != 0;
      ExcessIsLost(log, order, k);
      BilledIsExactly(log, order[k].currency, order[k].day);
      assert !BilledIsNet(log, order[k].currency, order[k].day);
    }
  }

  ghost predicate VoidedAtMostOnce(log: seq<Event>) {
    forall id :: Voids(log, id, false) + Voids(log, id, true) <= 1
  }

  // -- trailing windows ---------------------------------------------------------

  function Window(days: Days, from: int, to: int): int
    decreases if from > to then 0 else to - from + 1
  {
    if from > to then 0 else Window(days, from, to - 1) + At(days, to)
  }

  /** `billedTrailing`: the inclusive window of days that ends on `day`. */
  method BilledTrailing(billed: map<string, Days>, cur: string, day: int, window: int) returns (sum: int)
    ensures sum == Window(DaysOf(billed, cur), day - window + 1, day)
  {
    if cur !in billed {
      EmptyWindow(day - window + 1, day);
      return 0;
    }
    sum := 0;
    var d := day - window + 1;
    while d <= day
      invariant d <= day + 1 || window <= 0
      invariant window <= 0 ==> d == day - window + 1
      invariant sum == Window(billed[cur], day - window + 1, d - 1)
      decreases day - d
    {
      sum := sum + At(billed[cur], d);
      d := d + 1;
    }
  }

  lemma {:induction false} EmptyWindow(from: int, to: int)
    ensures Window(map[], from, to) == 0
    decreases if from > to then 0 else to - from + 1
  {
    if from <= to {
      EmptyWindow(from, to - 1);
    }
  }

  lemma {:induction false} TotalSplitsByDay(
      m: Measure, log: seq<Event>, order: seq<Invoice>, cur: string, from: int, to: int)
    requires from <= to
    ensures Total(m, log, order, cur, from, to)
            == Total(m, log, order, cur, from, to - 1) + Total(m, log, order, cur, to, to)
  {
    hide Weight;
    if order != [] {
      TotalSplitsByDay(m, log, order[..|order| - 1], cur, from, to);
    }
  }

  lemma {:induction false} NoDaysNoTotal(
      m: Measure, log: seq<Event>, order: seq<Invoice>, cur: string, from: int, to: int)
    requires from > to
    ensures Total(m, log, order, cur, from, to) == 0
  {
    hide Weight;
    if order != [] {
      NoDaysNoTotal(m, log, order[..|order| - 1], cur, from, to);
    }
  }

  /** Every window is the sum, over the invoices first issued in it, of what each still counts for. */
  lemma {:induction false} WindowIsTotal(log: seq<Event>, cur: string, from: int, to: int)
    requires Refold(log).Ok?
    ensures Window(DaysOf(Refold(log).figures.billing.billed, cur), from, to)
            == Total(Net, log, FirstIssued(log), cur, from, to) - Total(Excessive, log, FirstIssued(log), cur, from, to)
    decreases if from > to then 0 else to - from + 1
  {
    hide Total, Refold, FirstIssued;
    if from > to {
      NoDaysNoTotal(Net, log, FirstIssued(log), cur, from, to);
      NoDaysNoTotal(Excessive, log, FirstIssued(log), cur, from, to);
    } else {
      WindowIsTotal(log, cur, from, to - 1);
      BilledIsExactly(log, cur, to);
      TotalSplitsByDay(Net, log, FirstIssued(log), cur, from, to);
      TotalSplitsByDay(Excessive, log, FirstIssued(log), cur, from, to);
    }
  }

  /** With at most one void per invoice, every window is the net billing of its days and never negative. */
  lemma TrailingWindowIsNet(log: seq<Event>, cur: string, from: int, to: int)
    requires Refold(log).Ok? && VoidedAtMostOnce(log)
    ensures Window(DaysOf(Refold(log).figures.billing.billed, cur), from, to)
            == Total(Net, log, FirstIssued(log), cur, from, to)
    ensures Window(DaysOf(Refold(log).figures.billing.billed, cur), from, to) >= 0
  {
    hide Total, Refold, FirstIssued, Voids;
    WindowIsTotal(log, cur, from, to);
    NoExcessNoLoss(log, FirstIssued(log), cur, from, to);
    TotalNonNegative(Net, log, FirstIssued(log), cur, from, to);
  }

  /** Two voids after one issue leave the day negative. */
  lemma SecondVoidSubtractsAgain()
    ensures var log := [Event("a", "o", 0, 1, InvoiceIssued("i", 5, "KES")),
                        Event("b", "o", 0, 1, InvoiceVoided("i")),
                        Event("c", "o", 0, 1, InvoiceVoided("i"))];
            && Canonical(log) && Refold(log).Ok?
            && At(DaysOf(Refold(log).figures.billing.billed, "KES"), 0) == -5
  {
    var log := [Event("a", "o", 0, 1, InvoiceIssued("i", 5, "KES")),
                Event("b", "o", 0, 1, InvoiceVoided("i")),
                Event("c", "o", 0, 1, InvoiceVoided("i"))];
    assert log[..2][..1] == log[..1] && log[..1][..0] == [];
    assert Refold(log[..1]) == Apply(Fold.EMPTY, log[0]);
    assert Refold(log[..2]) == Apply(Refold(log[..1]).figures, log[1]);
    assert StringLess("a", "b") && StringLess("b", "c") && StringLess("a", "c");
  }

  // -- panics -------------------------------------------------------------------

  ghost predicate NeverBilled(log: seq<Event>, cur: string) {
    var order := FirstIssued(log);
    forall i :: 0 <= i < |order| && order[i].currency == cur ==> Voids(log, order[i].id, false) > 0
  }

  /** The voided invoice was issued, but it and every other invoice of its currency was voided beforehand. */
  ghost predicate VoidsUnbilledCurrency(log: seq<Event>, ev: Event) {
    && ev.body.InvoiceVoided?
    && var order := FirstIssued(log);
       exists k :: 0 <= k < |order| && order[k].id == ev.body.invoice && NeverBilled(log, order[k].currency)
  }

  /** The fold panics on an event exactly when it voids an issued invoice of a never-billed currency. */
  lemma PanicsExactly(log: seq<Event>, ev: Event)
    requires Refold(log).Ok?
    ensures Refold(log + [ev]) == Panic <==> VoidsUnbilledCurrency(log, ev)
  {
    hide FirstIssued, Voids, Total, Touch, Open, Issue, Void, NewEntry, DayKey;
    FoldKeepsBilling(log);
    assert (log + [ev])[..|log|] == log;
    var b := Refold(log).figures.billing;
    if ev.body.InvoiceVoided? && ev.body.invoice in b.invoices {
      var k :| 0 <= k < |b.order| && b.order[k].id == ev.body.invoice;
      assert b.invoices[ev.body.invoice] == b.order[k];
    }
  }

  /** Such a log: a void, the issue it preceded, and the void once more. */
  lemma VoidIssueVoidPanics()
    ensures Refold([Event("a", "o", 0, 1, InvoiceVoided("i")),
                    Event("b", "o", 0, 1, InvoiceIssued("i", 5, "KES")),
                    Event("c", "o", 0, 1, InvoiceVoided("i"))]) == Panic
  {
    var log := [Event("a", "o", 0, 1, InvoiceVoided("i")),
                Event("b", "o", 0, 1, InvoiceIssued("i", 5, "KES")),
                Event("c", "o", 0, 1, InvoiceVoided("i"))];
    assert log[..2][..1] == log[..1] && log[..1][..0] == [];
    assert Refold(log[..1]) == Apply(Fold.EMPTY, log[0]);
    assert Refold(log[..2]) == Apply(Refold(log[..1]).figures, log[1]);
  }

  lemma {:induction false} VoidsGrow(log: seq<Event>, k: nat, id: string, after: bool)
    requires k <= |log|
    ensures Voids(log[..k], id, after) <= Voids(log, id, after)
    decreases |log|
  {
    if k < |log| {
      VoidsGrow(log[..|log| - 1], k, id, after);
      assert log[..|log| - 1][..k] == log[..k];
    } else {
      assert log[..k] == log;
    }
  }

  lemma SingleVoidIsBilled(front: seq<Event>, ev: Event)
    requires VoidedAtMostOnce(front + [ev])
    ensures !VoidsUnbilledCurrency(front, ev)
  {
    hide FirstIssued, DayKey;
    LogStep(front, ev);
    var order := FirstIssued(front);
    forall k | ev.body.InvoiceVoided? && 0 <= k < |order| && order[k].id == ev.body.invoice
      ensures !NeverBilled(front, order[k].currency)
    {
      assert Has(order, order[k].id);
      assert Voids(front + [ev], order[k].id, true) >= 1;
    }
  }

  /** A log that voids each invoice at most once never panics. */
  lemma {:induction false} SingleVoidsNeverPanic(log: seq<Event>)
    requires VoidedAtMostOnce(log)
    ensures Refold(log) != Panic
  {
    hide Apply, FirstIssued;
    if log != [] {
      var front, ev := log[..|log| - 1], log[|log| - 1];
      forall id
        ensures Voids(front, id, false) + Voids(front, id, true) <= 1
      {
        VoidsGrow(log, |front|, id, false);
        VoidsGrow(log, |front|, id, true);
      }
      SingleVoidsNeverPanic(front);
      assert log == front + [ev];
      if Refold(front).Ok? {
        PanicsExactly(front, ev);
        SingleVoidIsBilled(front, ev);
      }
    }
  }
}
