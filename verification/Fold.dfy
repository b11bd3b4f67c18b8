/** The analytics fold of one org: its canonical log replayed into balances, billing and collections. */
module Fold {
  import opened EventLog

  /** A balance and the day it was reached. */
  datatype Transition = Transition(day: int, balance: nat)

  datatype Entry = Entry(
    receivable: string, invoice: string, currency: string, original: nat, balance: nat, due: int,
    openedDay: int, writtenOff: bool, settled: bool, transitions: seq<Transition>)

  datatype Invoice = Invoice(id: string, currency: string, day: int, total: nat)

  /** A counted refusal that does not stop the fold. */
  datatype Skip =
    | DuplicateBilling(invoice: string, event: string)
    | UnknownReceivable(receivable: string, event: string)

  type Days = map<int, int>

  /** Invoices by id and in canonical order, voided ids, and net billed amounts per currency and day. */
  datatype Billing = Billing(
    invoices: map<string, Invoice>, order: seq<Invoice>, voided: set<string>, billed: map<string, Days>)

  /** Receivables by id and in canonical order, and collected amounts per receivable and day. */
  datatype Book = Book(entries: map<string, Entry>, order: seq<string>, collected: map<string, Days>)

  datatype Figures = Figures(billing: Billing, book: Book, promisesBroken: Days, activity: set<int>, skips: seq<Skip>)

  /** `Error` is a hard refusal of the batch; `Panic` is a write to an absent billing map. */
  datatype Outcome = Ok(figures: Figures) | Error | Panic

  const EMPTY := Figures(Billing(map[], [], {}, map[]), Book(map[], [], map[]), map[], {}, [])

  function At(days: Days, day: int): int { if day in days then days[day] else 0 }

  function Bump(days: Days, day: int, amount: int): Days { days[day := At(days, day) + amount] }

  function DaysOf(byName: map<string, Days>, name: string): Days { if name in byName then byName[name] else map[] }

  function Collect(collected: map<string, Days>, r: string, day: int, amount: nat): map<string, Days> {
    if amount == 0 then collected else collected[r := Bump(DaysOf(collected, r), day, amount)]
  }

  /** First issue wins; an invoice voided before its issue is recorded but not billed. */
  function Issue(b: Billing, record: Invoice): Billing
    requires record.id !in b.invoices
  {
    Billing(b.invoices[record.id := record], b.order + [record], b.voided,
            if record.id in b.voided then b.billed
            else b.billed[record.currency := Bump(DaysOf(b.billed, record.currency), record.day, record.total)])
  }

  /** The voided total leaves the day it was billed, each time a void arrives. */
  function Void(b: Billing, invoice: string): Billing
    requires invoice in b.invoices ==> b.invoices[invoice].currency in b.billed
  {
    var billed :=
      if invoice !in b.invoices then b.billed
      else
        var record := b.invoices[invoice];
        b.billed[record.currency := Bump(b.billed[record.currency], record.day, 0 - record.total)];
    b.(voided := b.voided + {invoice}, billed := billed)
  }

  function Open(b: Book, e: Entry): Book {
    Book(b.entries[e.receivable := e], b.order + [e.receivable], b.collected)
  }

  function Reach(e: Entry, day: int, balance: nat): Entry {
    e.(balance := balance, transitions := e.transitions + [Transition(day, balance)])
  }

  predicate Touches(body: Body) { body.PartiallySettled? || body.Settled? || body.WrittenOff? || body.Recovered? }

  /** The events that touch one receivable of the book. */
  function Touch(b: Book, day: int, body: Body): Book
    requires Touches(body) && body.receivable in b.entries
  {
    var r := body.receivable;
    var e := b.entries[r];
    match body
    case PartiallySettled(_, amount, remaining) =>
      b.(entries := b.entries[r := Reach(e, day, remaining)], collected := Collect(b.collected, r, day, amount))
    case Settled(_) =>
      b.(entries := b.entries[r := Reach(e, day, 0).(settled := true)],
         collected := Collect(b.collected, r, day, e.balance))
    case WrittenOff(_) =>
      b.(entries := b.entries[r := Reach(e, day, 0).(writtenOff := true)])
    case Recovered(_, amount) =>
      b.(collected := Collect(b.collected, r, day, amount))
  }

  function NewEntry(b: Billing, day: int, body: Body): Entry
    requires body.Opened?
  {
    var currency := if body.invoice in b.invoices then b.invoices[body.invoice].currency else "";
    Entry(body.receivable, body.invoice, currency, body.original, body.original, body.due, day, false, false,
          [Transition(day, body.original)])
  }

  function Apply(f: Figures, ev: Event): Outcome {
    var day := DayKey(ev.at);
    var active := f.activity + {day};
    match ev.body
    case InvoiceIssued(invoice, total, currency) =>
      if invoice in f.billing.invoices then Ok(f.(skips := f.skips + [DuplicateBilling(invoice, ev.id)]))
      else Ok(f.(billing := Issue(f.billing, Invoice(invoice, currency, day, total)), activity := active))
    case InvoiceVoided(invoice) =>
      if invoice in f.billing.invoices && f.billing.invoices[invoice].currency !in f.billing.billed then Panic
      else Ok(f.(billing := Void(f.billing, invoice), activity := active))
    case Opened(receivable, _, _, _) =>
      if receivable in f.book.entries then Error
      else Ok(f.(book := Open(f.book, NewEntry(f.billing, day, ev.body)), activity := active))
    case PromiseBroken => Ok(f.(promisesBroken := Bump(f.promisesBroken, day, 1)))
    case Overdue(_) => Ok(f)
    case Malformed => Error
    case LedgerOnly(_) => Ok(f)
    case body =>
      if body.receivable in f.book.entries then Ok(f.(book := Touch(f.book, day, body), activity := active))
      else Ok(f.(skips := f.skips + [UnknownReceivable(body.receivable, ev.id)]))
  }

  function Refold(log: seq<Event>): Outcome {
    if log == [] then Ok(EMPTY)
    else
      var before := Refold(log[..|log| - 1]);
      if before.Ok? then Apply(before.figures, log[|log| - 1]) else before
  }

  // -- history ------------------------------------------------------------------

  /** Transition days never decrease: the log is in time order. */
  ghost predicate InTime(log: seq<Event>) {
    forall i, j :: 0 <= i < j < |log| ==> log[i].at <= log[j].at
  }

  lemma SortedIsInTime(log: seq<Event>)
    requires Sorted(log)
    ensures InTime(log)
  {
  }

  ghost predicate EntryOk(b: Book, r: string, day: int)
    requires r in b.entries
  {
    var e := b.entries[r];
    && e.receivable == r && e.transitions != [] && e.transitions[0] == Transition(e.openedDay, e.original)
    && (forall i, j :: 0 <= i < j < |e.transitions| ==> e.transitions[i].day <= e.transitions[j].day)
    && e.transitions[|e.transitions| - 1].balance == e.balance && e.transitions[|e.transitions| - 1].day <= day
  }

  ghost predicate BookOk(b: Book, day: int) { forall r :: r in b.entries ==> EntryOk(b, r, day) }

  /** `balanceAsOf`: the last transition before the first one past the day. */
  function BalanceAsOf(transitions: seq<Transition>, day: int): nat {
    if transitions == [] then 0
    else if transitions[|transitions| - 1].day > day then BalanceAsOf(transitions[..|transitions| - 1], day)
    else transitions[|transitions| - 1].balance
  }

  /** The reader's loop. */
  method BalanceAt(transitions: seq<Transition>, day: int) returns (balance: nat)
    requires forall i, j :: 0 <= i < j < |transitions| ==> transitions[i].day <= transitions[j].day
    ensures balance == BalanceAsOf(transitions, day)
  {
    balance := 0;
    for i := 0 to |transitions|
      invariant balance == BalanceAsOf(transitions[..i], day)
      invariant forall k :: 0 <= k < i ==> transitions[k].day <= day
    {
      assert transitions[..i + 1][..i] == transitions[..i];
      if transitions[i].day > day {
        PastDayIsIgnored(transitions, i, day);
        return;
      }
      balance := transitions[i].balance;
    }
    assert transitions[..|transitions|] == transitions;
  }

  lemma {:induction false} PastDayIsIgnored(transitions: seq<Transition>, k: nat, day: int)
    requires k <= |transitions| && forall i :: k <= i < |transitions| ==> transitions[i].day > day
    ensures BalanceAsOf(transitions, day) == BalanceAsOf(transitions[..k], day)
    decreases |transitions|
  {
    if k == |transitions| {
      assert transitions[..k] == transitions;
    } else {
      var front := transitions[..|transitions| - 1];
      PastDayIsIgnored(front, k, day);
      assert front[..k] == transitions[..k];
    }
  }

  /** What one event on `day` may do to one receivable. */
  ghost predicate EntryStep(b: Book, b': Book, r: string, day: int)
    requires r in b'.entries
  {
    var e := b'.entries[r];
    if r !in b.entries then
      && e.receivable == r && e.openedDay == day && e.balance == e.original
      && e.transitions == [Transition(day, e.original)]
    else
      var was := b.entries[r];
      && e.receivable == was.receivable && e.openedDay == was.openedDay && e.original == was.original
      && (|| (e.balance == was.balance && e.transitions == was.transitions)
          || e.transitions == was.transitions + [Transition(day, e.balance)])
  }

  lemma BookStep(f: Figures, ev: Event, r: string)
    requires Apply(f, ev).Ok? && r in Apply(f, ev).figures.book.entries
    ensures EntryStep(f.book, Apply(f, ev).figures.book, r, DayKey(ev.at))
  {
    hide DayKey, Bump, DaysOf, Issue, Void;
  }

  lemma ApplyKeepsBook(f: Figures, ev: Event, day: int)
    requires BookOk(f.book, day) && day <= DayKey(ev.at) && Apply(f, ev).Ok?
    ensures BookOk(Apply(f, ev).figures.book, DayKey(ev.at))
  {
    hide DayKey, Apply;
    var g := Apply(f, ev).figures;
    forall r | r in g.book.entries
      ensures EntryOk(g.book, r, DayKey(ev.at))
    {
      BookStep(f, ev, r);
      if r in f.book.entries {
        assert EntryOk(f.book, r, day);
      }
    }
  }

  lemma {:induction false} FoldKeepsBook(log: seq<Event>, day: int)
    requires InTime(log) && Refold(log).Ok? && (log != [] ==> DayKey(log[|log| - 1].at) <= day)
    ensures BookOk(Refold(log).figures.book, day)
    decreases |log|
  {
    hide Apply, DayKey;
    if log != [] {
      var front, last := log[..|log| - 1], log[|log| - 1];
      if front != [] {
        assert front[|front| - 1] == log[|log| - 2];
        DayKeyMonotone(front[|front| - 1].at, last.at);
      }
      FoldKeepsBook(front, DayKey(last.at));
      ApplyKeepsBook(Refold(front).figures, last, DayKey(last.at));
      BookLater(Refold(log).figures.book, DayKey(last.at), day);
    }
  }

  lemma BookLater(b: Book, day: int, later: int)
    requires BookOk(b, day) && day <= later
    ensures BookOk(b, later)
  {
  }

  /** An event after `day` moves no balance as of `day` and opens nothing by then. */
  lemma LaterEventKeepsHistory(f: Figures, ev: Event, day: int, r: string)
    requires Apply(f, ev).Ok? && DayKey(ev.at) > day && r in Apply(f, ev).figures.book.entries
    ensures var g := Apply(f, ev).figures;
            if r in f.book.entries
            then g.book.entries[r].openedDay == f.book.entries[r].openedDay
                 && BalanceAsOf(g.book.entries[r].transitions, day) == BalanceAsOf(f.book.entries[r].transitions, day)
            else g.book.entries[r].openedDay > day
  {
    hide DayKey, Apply;
    BookStep(f, ev, r);
    var g := Apply(f, ev).figures;
    if r in f.book.entries && g.book.entries[r].transitions != f.book.entries[r].transitions {
      var ts := f.book.entries[r].transitions;
      assert g.book.entries[r].transitions[..|ts|] == ts;
    }
  }

  /** The number of events up to a day: a prefix, as days follow the log. */
  function Through(log: seq<Event>, day: int): (k: nat)
    ensures k <= |log|
  {
    if log == [] || DayKey(log[|log| - 1].at) <= day then |log| else Through(log[..|log| - 1], day)
  }

  lemma {:induction false} ThroughIsRight(log: seq<Event>, day: int)
    requires InTime(log)
    ensures forall i :: 0 <= i < |log| ==> (i < Through(log, day) <==> DayKey(log[i].at) <= day)
    decreases |log|
  {
    hide DayKey;
    if log != [] {
      var front := log[..|log| - 1];
      ThroughIsRight(front, day);
      forall i | 0 <= i < |log| - 1
        ensures DayKey(log[i].at) <= DayKey(log[|log| - 1].at)
        ensures front[i] == log[i]
      {
        DayKeyMonotone(log[i].at, log[|log| - 1].at);
      }
    }
  }

  lemma {:induction false} HistoryFromPrefix(log: seq<Event>, k: nat, day: int, r: string)
    requires k <= |log| && Refold(log).Ok? && forall i :: k <= i < |log| ==> DayKey(log[i].at) > day
    requires r in Refold(log).figures.book.entries && Refold(log).figures.book.entries[r].openedDay <= day
    ensures Refold(log[..k]).Ok? && r in Refold(log[..k]).figures.book.entries
    ensures BalanceAsOf(Refold(log).figures.book.entries[r].transitions, day)
            == BalanceAsOf(Refold(log[..k]).figures.book.entries[r].transitions, day)
    decreases |log|
  {
    hide Apply, DayKey;
    if k == |log| {
      assert log[..k] == log;
    } else {
      var front, last := log[..|log| - 1], log[|log| - 1];
      LaterEventKeepsHistory(Refold(front).figures, last, day, r);
      HistoryFromPrefix(front, k, day, r);
      assert front[..k] == log[..k];
    }
  }

  /**
   * History agrees with refolding: a receivable opened by a day has, as of that day, the balance that
   * folding only the events through that day leaves it with.
   */
  lemma HistoryIsRefolding(log: seq<Event>, day: int, r: string)
    requires Sorted(log) && Refold(log).Ok?
    requires r in Refold(log).figures.book.entries && Refold(log).figures.book.entries[r].openedDay <= day
    ensures var past := log[..Through(log, day)];
            && (forall i :: 0 <= i < |log| ==> (i < |past| <==> DayKey(log[i].at) <= day))
            && Refold(past).Ok? && r in Refold(past).figures.book.entries
            && BalanceAsOf(Refold(log).figures.book.entries[r].transitions, day)
               == Refold(past).figures.book.entries[r].balance
  {
    hide Apply, DayKey;
    SortedIsInTime(log);
    ThroughIsRight(log, day);
    var k := Through(log, day);
    HistoryFromPrefix(log, k, day, r);
    var past := log[..k];
    FoldKeepsBook(past, day);
    assert EntryOk(Refold(past).figures.book, r, day);
  }

  // -- the state object ---------------------------------------------------------

  datatype Status = Fine | Refused | Panicked

  function StatusOf(o: Outcome): Status {
    match o
    case Ok(_) => Fine
    case Error => Refused
    case Panic => Panicked
  }

  /** One org's log and the figures derived from it. */
  class OrgState {
    var log: seq<Event>
    var invoices: map<string, Invoice>
    var invoiceOrder: seq<Invoice>
    var voided: set<string>
    var billed: map<string, Days>
    var entries: map<string, Entry>
    var bookOrder: seq<string>
    var collected: map<string, Days>
    var promisesBroken: Days
    var activity: set<int>
    var skips: seq<Skip>

    function Current(): Figures
      reads this
    {
      Figures(Billing(invoices, invoiceOrder, voided, billed), Book(entries, bookOrder, collected),
              promisesBroken, activity, skips)
    }

    constructor ()
      ensures log == [] && Current() == EMPTY
    {
      log, invoices, invoiceOrder, voided, billed := [], map[], [], {}, map[];
      entries, bookOrder, collected, promisesBroken, activity, skips := map[], [], map[], map[], {}, [];
    }

    /** New events join the log, which is sorted again. */
    method UpsertLog(batch: seq<Event>)
      modifies this`log
      ensures log == StableSort(old(log) + batch)
      ensures Sorted(log) && multiset(log) == multiset(old(log)) + multiset(batch)
    {
      SortIsRight(log + batch);
      log := StableSort(log + batch);
    }

    method RecordCollected(receivable: string, day: int, amount: nat)
      modifies this`collected
      ensures collected == Collect(old(collected), receivable, day, amount)
    {
      if amount == 0 {
        return;
      }
      if receivable !in collected {
        collected := collected[receivable := map[]];
      }
      var days := collected[receivable];
      collected := collected[receivable := days[day := At(days, day) + amount]];
    }

    /** An event on a receivable in the book. */
    method ApplyTouch(day: int, body: Body)
      requires Touches(body) && body.receivable in entries
      modifies this`entries, this`collected
      ensures Book(entries, bookOrder, collected) == Touch(old(Book(entries, bookOrder, collected)), day, body)
    {
      hide Collect;
      var r := body.receivable;
      var e := entries[r];
      match body {
        case PartiallySettled(_, amount, remaining) =>
          entries := entries[r := Reach(e, day, remaining)];
          RecordCollected(r, day, amount);
        case Settled(_) =>
          RecordCollected(r, day, e.balance);
          entries := entries[r := Reach(e, day, 0).(settled := true)];
        case WrittenOff(_) =>
          entries := entries[r := Reach(e, day, 0).(writtenOff := true)];
        case Recovered(_, amount) =>
          RecordCollected(r, day, amount);
      }
    }

    function Billings(): Billing
      reads this
    {
      Billing(invoices, invoiceOrder, voided, billed)
    }

    method ApplyIssued(record: Invoice)
      requires record.id !in invoices
      modifies this`invoices, this`invoiceOrder, this`billed
      ensures Billings() == Issue(old(Billings()), record)
    {
      hide Bump;
      invoices := invoices[record.id := record];
      invoiceOrder := invoiceOrder + [record];
      if record.id !in voided {
        var days := if record.currency in billed then billed[record.currency] else map[];
        billed := billed[record.currency := Bump(days, record.day, record.total)];
      }
    }

    method ApplyVoided(invoice: string) returns (status: Status)
      modifies this`voided, this`billed
      ensures status == if invoice in invoices && invoices[invoice].currency !in old(billed) then Panicked else Fine
      ensures status == Fine ==> Billings() == Void(old(Billings()), invoice)
    {
      voided := voided + {invoice};
      if invoice in invoices {
        var record := invoices[invoice];
        if record.currency !in billed {
          return Panicked;
        }
        billed := billed[record.currency := Bump(billed[record.currency], record.day, 0 - record.total)];
      }
      return Fine;
    }

    method ApplyOpened(entry: Entry)
      modifies this`entries, this`bookOrder
      ensures Book(entries, bookOrder, collected) == Open(old(Book(entries, bookOrder, collected)), entry)
    {
      entries := entries[entry.receivable := entry];
      bookOrder := bookOrder + [entry.receivable];
    }

    method ApplyEvent(ev: Event) returns (status: Status)
      modifies this
      ensures status == StatusOf(Apply(old(Current()), ev)) && log == old(log)
      ensures status == Fine ==> Ok(Current()) == Apply(old(Current()), ev)
    {
      hide DayKey, Issue, Void, Open, NewEntry, Touch, Bump;
      var day := DayKey(ev.at);
      status := Fine;
      match ev.body {
        case InvoiceIssued(invoice, total, currency) =>
          if invoice in invoices {
            skips := skips + [DuplicateBilling(invoice, ev.id)];
          } else {
            ApplyIssued(Invoice(invoice, currency, day, total));
            activity := activity + {day};
          }
        case InvoiceVoided(invoice) =>
          status := ApplyVoided(invoice);
          if status != Fine {
            return;
          }
          activity := activity + {day};
        case Opened(receivable, _, _, _) =>
          if receivable in entries {
            return Refused;
          }
          ApplyOpened(NewEntry(Billings(), day, ev.body));
          activity := activity + {day};
        case PromiseBroken => promisesBroken := Bump(promisesBroken, day, 1);
        case Overdue(_) =>
        case LedgerOnly(_) =>
        case Malformed => return Refused;
        case body =>
          if body.receivable in entries {
            ApplyTouch(day, body);
            activity := activity + {day};
          } else {
            skips := skips + [UnknownReceivable(body.receivable, ev.id)];
          }
      }
    }

    /** Resets every figure and replays the whole log. */
    method RefoldLog() returns (status: Status)
      modifies this
      ensures status == StatusOf(Refold(log)) && log == old(log)
      ensures status == Fine ==> Ok(Current()) == Refold(log)
    {
      hide Apply;
      invoices, invoiceOrder, voided, billed := map[], [], {}, map[];
      entries, bookOrder, collected, promisesBroken, activity, skips := map[], [], map[], map[], {}, [];
      var events := log;
      for i := 0 to |events|
        invariant log == events == old(log) && Refold(events[..i]) == Ok(Current())
      {
        RefoldNext(events, i, Current());
        status := ApplyEvent(events[i]);
        if status != Fine {
          FailureStays(events, i + 1);
          return;
        }
      }
      assert events[..|events|] == events;
      return Fine;
    }
  }

  lemma RefoldNext(log: seq<Event>, i: nat, f: Figures)
    requires i < |log| && Refold(log[..i]) == Ok(f)
    ensures Refold(log[..i + 1]) == Apply(f, log[i])
  {
    assert log[..i + 1][..i] == log[..i];
  }

  lemma {:induction false} FailureStays(log: seq<Event>, k: nat)
    requires k <= |log| && !Refold(log[..k]).Ok?
    ensures Refold(log) == Refold(log[..k])
    decreases |log|
  {
    hide Apply;
    if k == |log| {
      assert log[..k] == log;
    } else {
      assert log[..|log| - 1][..k] == log[..k];
      FailureStays(log[..|log| - 1], k);
    }
  }
}
