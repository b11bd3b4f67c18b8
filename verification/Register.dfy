/** What the fold's book shows of each receivable, told by the log alone: its invoice's currency, its voids and its day. */
module Register {
  import opened EventLog
  import opened Fold
  import opened Balances
  import opened Projections

  // -- the log's own account ----------------------------------------------------

  predicate Issues(ev: Event, id: string) { ev.body.InvoiceIssued? && ev.body.invoice == id }

  /** Where an invoice is first issued; the log's length if it never is. */
  function FirstIssue(log: seq<Event>, id: string): (k: nat)
    ensures k <= |log| && (k < |log| ==> Issues(log[k], id)) && forall j :: 0 <= j < k ==> !Issues(log[j], id)
  {
    if log == [] then 0
    else
      var k := FirstIssue(log[..|log| - 1], id);
      if k < |log| - 1 || Issues(log[|log| - 1], id) then k else |log|
  }

  /** The currency of an invoice's first issue; empty while it has none. */
  function CurrencyOf(log: seq<Event>, id: string): string {
    var k := FirstIssue(log, id);
    if k < |log| then log[k].body.currency else ""
  }

  predicate EverVoided(log: seq<Event>, id: string) { exists k :: 0 <= k < |log| && log[k].body == InvoiceVoided(id) }

  /** Event `k` opens a receivable whose invoice had `cur` for its currency by then and is nowhere voided. */
  predicate Stands(log: seq<Event>, k: nat, cur: string)
    requires k < |log|
  {
    && log[k].body.Opened?
    && CurrencyOf(log[..k], log[k].body.invoice) == cur && !EverVoided(log, log[k].body.invoice)
  }

  /** The balance last stated for a receivable by the end of a day. */
  function BalanceOn(log: seq<Event>, r: string, day: int): nat {
    var last := LastWord(log[..Through(log, day)], r);
    if last < 0 then 0 else last
  }

  /** The receivables that the first `k` events open and a day shows, in log order. */
  function Shown(log: seq<Event>, k: nat, cur: string, day: int): seq<Snapshot>
    requires k <= |log|
  {
    if k == 0 then []
    else
      var ev := log[k - 1];
      Shown(log, k - 1, cur, day)
      + (if Stands(log, k - 1, cur) && DayKey(ev.at) <= day
         then [Snapshot(ev.body.receivable, BalanceOn(log, ev.body.receivable, day), ev.body.due)] else [])
  }

  /** How many receivables a log opens. */
  function Openings(log: seq<Event>): nat {
    if log == [] then 0 else Openings(log[..|log| - 1]) + (if log[|log| - 1].body.Opened? then 1 else 0)
  }

  // -- invoices -----------------------------------------------------------------

  ghost predicate Knows(b: Billing, log: seq<Event>, id: string) {
    && (id in b.invoices <==> FirstIssue(log, id) < |log|)
    && (id in b.invoices ==> b.invoices[id].currency == CurrencyOf(log, id))
    && (id in b.voided <==> EverVoided(log, id))
  }

  lemma IssueNext(log: seq<Event>, ev: Event, id: string)
    ensures FirstIssue(log + [ev], id)
            == if FirstIssue(log, id) < |log| || Issues(ev, id) then FirstIssue(log, id) else |log| + 1
    ensures CurrencyOf(log + [ev], id)
            == if FirstIssue(log, id) == |log| && Issues(ev, id) then ev.body.currency else CurrencyOf(log, id)
  {
    assert (log + [ev])[..|log|] == log;
  }

  lemma VoidedNext(log: seq<Event>, ev: Event, id: string)
    ensures EverVoided(log + [ev], id) <==> EverVoided(log, id) || ev.body == InvoiceVoided(id)
  {
    if EverVoided(log, id) {
      var k :| 0 <= k < |log| && log[k].body == InvoiceVoided(id);
      assert (log + [ev])[k].body == InvoiceVoided(id);
    }
    assert (log + [ev])[|log|] == ev;
  }

  lemma ApplyKnows(f: Figures, log: seq<Event>, ev: Event, id: string)
    requires Knows(f.billing, log, id) && Apply(f, ev).Ok?
    ensures Knows(Apply(f, ev).figures.billing, log + [ev], id)
  {
    hide FirstIssue, CurrencyOf, EverVoided, DayKey, Touch, Open, NewEntry, Bump, DaysOf;
    IssueNext(log, ev, id);
    VoidedNext(log, ev, id);
  }

  lemma NothingKnown(id: string)
    ensures Knows(EMPTY.billing, [], id)
  {
  }

  /** The billing register: an invoice's currency is its first issue's, and it is voided once any void names it. */
  lemma {:induction false} InvoicesAreTheLogs(log: seq<Event>, id: string)
    requires Refold(log).Ok?
    ensures Knows(Refold(log).figures.billing, log, id)
  {
    hide Knows, Apply;
    if log == [] {
      NothingKnown(id);
    } else {
      var front := log[..|log| - 1];
      assert log == front + [log[|log| - 1]];
      InvoicesAreTheLogs(front, id);
      ApplyKnows(Refold(front).figures, front, log[|log| - 1], id);
    }
  }

  // -- entries ------------------------------------------------------------------

  /** What an entry carries of the event that opened it. */
  ghost predicate Carried(e: Entry, log: seq<Event>, k: nat)
    requires k < |log| && log[k].body.Opened?
  {
    && e.receivable == log[k].body.receivable && e.invoice == log[k].body.invoice && e.due == log[k].body.due
    && e.original == log[k].body.original && e.openedDay == DayKey(log[k].at)
    && e.currency == CurrencyOf(log[..k], log[k].body.invoice)
  }

  /** No event changes what an entry was opened with. */
  lemma OpeningStays(f: Figures, ev: Event, r: string)
    requires Apply(f, ev).Ok? && r in f.book.entries
    ensures var b := Apply(f, ev).figures.book;
            && r in b.entries
            && var was, e := f.book.entries[r], b.entries[r];
               && e.receivable == was.receivable && e.invoice == was.invoice && e.due == was.due
               && e.original == was.original && e.openedDay == was.openedDay && e.currency == was.currency
  {
    hide DayKey, Issue, Void, Bump, Collect;
  }

  lemma OpeningCarries(log: seq<Event>)
    requires log != [] && Refold(log).Ok? && log[|log| - 1].body.Opened?
    ensures var r := log[|log| - 1].body.receivable;
            && r in Refold(log).figures.book.entries
            && Carried(Refold(log).figures.book.entries[r], log, |log| - 1)
  {
    hide DayKey, FirstIssue;
    InvoicesAreTheLogs(log[..|log| - 1], log[|log| - 1].body.invoice);
  }

  lemma {:induction false} EntriesCarry(log: seq<Event>, k: nat)
    requires Refold(log).Ok? && k < |log| && log[k].body.Opened?
    ensures var r := log[k].body.receivable;
            r in Refold(log).figures.book.entries && Carried(Refold(log).figures.book.entries[r], log, k)
    decreases |log|
  {
    hide Apply, DayKey, CurrencyOf;
    if k == |log| - 1 {
      OpeningCarries(log);
    } else {
      var front := log[..|log| - 1];
      assert front[..k] == log[..k] && front[k] == log[k];
      EntriesCarry(front, k);
      OpeningStays(Refold(front).figures, log[|log| - 1], log[k].body.receivable);
    }
  }

  ghost predicate Happened(log: seq<Event>, body: Body, r: string) {
    exists i :: 0 <= i < |log| && log[i].body == body && IsOpen(log[..i], r)
  }

  lemma HappenedNext(log: seq<Event>, ev: Event, body: Body, r: string)
    ensures Happened(log + [ev], body, r) <==> Happened(log, body, r) || (ev.body == body && IsOpen(log, r))
  {
    hide IsOpen;
    var all := log + [ev];
    assert all[..|log|] == log && all[|log|] == ev;
    if Happened(log, body, r) {
      var i :| 0 <= i < |log| && log[i].body == body && IsOpen(log[..i], r);
      assert all[i] == log[i] && all[..i] == log[..i];
    }
    if Happened(all, body, r) {
      var i :| 0 <= i < |all| && all[i].body == body && IsOpen(all[..i], r);
      if i < |log| {
        assert all[i] == log[i] && all[..i] == log[..i];
      }
    }
  }

  ghost predicate Flagged(f: Figures, log: seq<Event>, r: string) {
    r in f.book.entries ==>
      && (f.book.entries[r].settled <==> Happened(log, Settled(r), r))
      && (f.book.entries[r].writtenOff <==> Happened(log, WrittenOff(r), r))
  }

  lemma ApplyFlags(f: Figures, log: seq<Event>, ev: Event, r: string)
    requires Flagged(f, log, r) && Tells(f, log, r) && Apply(f, ev).Ok?
    ensures Flagged(Apply(f, ev).figures, log + [ev], r)
  {
    hide DayKey, Happened, IsOpen, LastWord, TakenOn, Issue, Void, Bump, Collect;
    HappenedNext(log, ev, Settled(r), r);
    HappenedNext(log, ev, WrittenOff(r), r);
    if !IsOpen(log, r) {
      NothingHappened(log, Settled(r), r);
      NothingHappened(log, WrittenOff(r), r);
    }
  }

  lemma NothingHappened(log: seq<Event>, body: Body, r: string)
    requires !IsOpen(log, r)
    ensures !Happened(log, body, r)
  {
  }

  /** A receivable is marked settled, or written off, once such an event comes after its opening. */
  lemma {:induction false} FlagsAreTheLogs(log: seq<Event>, r: string)
    requires Refold(log).Ok?
    ensures Flagged(Refold(log).figures, log, r)
  {
    hide Apply, Flagged, Tells;
    if log == [] {
      NoFlags(r);
    } else {
      var front := log[..|log| - 1];
      assert log == front + [log[|log| - 1]];
      FlagsAreTheLogs(front, r);
      FoldTellsTheLog(front, r);
      ApplyFlags(Refold(front).figures, front, log[|log| - 1], r);
    }
  }

  lemma NoFlags(r: string)
    ensures Flagged(EMPTY, [], r)
  {
  }

  lemma OrderNext(f: Figures, ev: Event)
    requires Apply(f, ev).Ok?
    ensures Apply(f, ev).figures.book.order
            == f.book.order + if ev.body.Opened? then [ev.body.receivable] else []
  {
    hide DayKey, Issue, Void, Bump, Collect;
  }

  /** The book's order is the order of the openings. */
  lemma {:induction false} BookedInOrder(log: seq<Event>)
    requires Refold(log).Ok?
    ensures |Refold(log).figures.book.order| == Openings(log)
    ensures forall k {:trigger log[k]} :: 0 <= k < |log| && log[k].body.Opened? ==>
              Openings(log[..k]) < Openings(log)
              && Refold(log).figures.book.order[Openings(log[..k])] == log[k].body.receivable
  {
    hide Apply;
    if log != [] {
      var front := log[..|log| - 1];
      BookedInOrder(front);
      OrderNext(Refold(front).figures, log[|log| - 1]);
      forall k | 0 <= k < |log| && log[k].body.Opened?
        ensures Openings(log[..k]) < Openings(log)
        ensures Refold(log).figures.book.order[Openings(log[..k])] == log[k].body.receivable
      {
        if k < |front| {
          assert front[k] == log[k] && front[..k] == log[..k];
        }
      }
    }
  }

  /** Event `k` and the book, as the two are read side by side. */
  lemma ReadAlong(log: seq<Event>, k: nat)
    requires Refold(log).Ok? && k < |log|
    ensures var f := Refold(log).figures;
            var n := Openings(log[..k]);
            && n <= Openings(log[..k + 1]) <= |f.book.order|
            && Openings(log[..k + 1]) == (if log[k].body.Opened? then n + 1 else n)
            && (log[k].body.Opened? ==>
                  && f.book.order[n] == log[k].body.receivable && f.book.order[n] in f.book.entries
                  && Carried(f.book.entries[f.book.order[n]], log, k)
                  && (log[k].body.invoice in f.billing.voided <==> EverVoided(log, log[k].body.invoice)))
  {
    hide Refold, Carried, EverVoided, FirstIssue, CurrencyOf;
    assert log[..k + 1][..k] == log[..k];
    BookedInOrder(log);
    OpeningsGrow(log, k + 1);
    if log[k].body.Opened? {
      EntriesCarry(log, k);
      InvoicesAreTheLogs(log, log[k].body.invoice);
    }
  }

  lemma {:induction false} OpeningsGrow(log: seq<Event>, k: nat)
    requires k <= |log|
    ensures Openings(log[..k]) <= Openings(log)
    decreases |log|
  {
    if k == |log| {
      assert log[..k] == log;
    } else {
      assert log[..|log| - 1][..k] == log[..k];
      OpeningsGrow(log[..|log| - 1], k);
    }
  }

  // -- a day's receivables ------------------------------------------------------

  lemma BalanceIsTheLogs(log: seq<Event>, r: string, day: int)
    requires Sorted(log) && Refold(log).Ok?
    requires r in Refold(log).figures.book.entries && Refold(log).figures.book.entries[r].openedDay <= day
    ensures BalanceAsOf(Refold(log).figures.book.entries[r].transitions, day) == BalanceOn(log, r, day)
  {
    hide Refold, DayKey, BalanceAsOf, LastWord, TakenOn;
    HistoryIsRefolding(log, day, r);
    FoldTellsTheLog(log[..Through(log, day)], r);
  }

  lemma {:induction false} ShownThrough(log: seq<Event>, k: nat, cur: string, day: int)
    requires Sorted(log) && Refold(log).Ok? && Listable(Refold(log).figures.book) && k <= |log|
    ensures Openings(log[..k]) <= |Refold(log).figures.book.order|
    ensures ReceivablesAt(Refold(log).figures, Openings(log[..k]), cur, day) == Shown(log, k, cur, day)
    decreases k
  {
    hide Refold, DayKey, BalanceAsOf, BalanceOn, EverVoided, CurrencyOf, Openings;
    if k == 0 {
      NoOpenings(log);
    } else {
      ShownThrough(log, k - 1, cur, day);
      ReadAlong(log, k - 1);
      var r := log[k - 1].body;
      if Stands(log, k - 1, cur) && DayKey(log[k - 1].at) <= day {
        BalanceIsTheLogs(log, r.receivable, day);
      }
    }
  }

  lemma NoOpenings(log: seq<Event>)
    ensures Openings(log[..0]) == 0
  {
  }

  /** A day's receivables, as the fold's book lists them, are those the log shows. */
  lemma DayShowsTheLog(log: seq<Event>, cur: string, day: int)
    requires Sorted(log) && Refold(log).Ok?
    ensures Listable(Refold(log).figures.book)
    ensures ReceivablesAt(Refold(log).figures, |Refold(log).figures.book.order|, cur, day)
            == Shown(log, |log|, cur, day)
  {
    hide Refold, ReceivablesAt, Shown, Openings;
    FoldIsListable(log);
    BookedInOrder(log);
    ShownThrough(log, |log|, cur, day);
    assert log[..|log|] == log;
  }

  /** A log that folds opens a receivable once. */
  lemma OpenedOnce(log: seq<Event>, i: nat, j: nat)
    requires Refold(log).Ok? && i < j < |log| && log[i].body.Opened? && log[j].body.Opened?
    ensures log[i].body.receivable != log[j].body.receivable
    decreases |log|
  {
    hide DayKey, Issue, Void, Touch, Open, NewEntry;
    var front := log[..|log| - 1];
    assert forall k :: 0 <= k < |front| ==> front[k] == log[k];
    if j < |log| - 1 {
      OpenedOnce(front, i, j);
    } else {
      FoldTellsTheLog(front, log[j].body.receivable);
      assert Opens(log[i], log[i].body.receivable);
    }
  }

  function Shot(log: seq<Event>, k: nat, day: int): Snapshot
    requires k < |log| && log[k].body.Opened?
  {
    Snapshot(log[k].body.receivable, BalanceOn(log, log[k].body.receivable, day), log[k].body.due)
  }

  /** Each receivable shown has its opening, and each opening that stands is shown. */
  lemma {:induction false} ShownHasOpening(log: seq<Event>, k: nat, cur: string, day: int, i: nat) returns (j: nat)
    requires k <= |log| && i < |Shown(log, k, cur, day)|
    ensures j < k && Stands(log, j, cur) && DayKey(log[j].at) <= day && Shown(log, k, cur, day)[i] == Shot(log, j, day)
    decreases k
  {
    hide DayKey, Stands, BalanceOn;
    if i < |Shown(log, k - 1, cur, day)| {
      j := ShownHasOpening(log, k - 1, cur, day, i);
    } else {
      j := k - 1;
    }
  }

  lemma {:induction false} OpeningIsShown(log: seq<Event>, k: nat, cur: string, day: int, j: nat) returns (i: nat)
    requires j < k <= |log| && Stands(log, j, cur) && DayKey(log[j].at) <= day
    ensures i < |Shown(log, k, cur, day)| && Shown(log, k, cur, day)[i] == Shot(log, j, day)
    decreases k
  {
    hide DayKey, Stands, BalanceOn;
    if j < k - 1 {
      i := OpeningIsShown(log, k - 1, cur, day, j);
    } else {
      i := |Shown(log, k - 1, cur, day)|;
    }
  }

  lemma {:induction false} ShownOnce(log: seq<Event>, k: nat, cur: string, day: int, i: nat, j: nat)
    requires Refold(log).Ok? && k <= |log| && i < j < |Shown(log, k, cur, day)|
    ensures Shown(log, k, cur, day)[i].id != Shown(log, k, cur, day)[j].id
    decreases k
  {
    hide Refold, DayKey, EverVoided, CurrencyOf, BalanceOn;
    if j < |Shown(log, k - 1, cur, day)| {
      ShownOnce(log, k - 1, cur, day, i, j);
    } else {
      var earlier := ShownHasOpening(log, k - 1, cur, day, i);
      OpenedOnce(log, earlier, k - 1);
    }
  }

  /** `id` was first issued, before event `k`, in `cur`; or `cur` is empty and it was not issued by then. */
  ghost predicate Resolves(log: seq<Event>, k: nat, id: string, cur: string)
    requires k <= |log|
  {
    || (exists i :: 0 <= i < k && Issues(log[i], id) && log[i].body.currency == cur
                    && forall j :: 0 <= j < i ==> !Issues(log[j], id))
    || (cur == "" && forall i :: 0 <= i < k ==> !Issues(log[i], id))
  }

  /** Event `k` opens `r` by the end of `day`, for an invoice issued in `cur` before it and never voided. */
  ghost predicate OpensFor(log: seq<Event>, k: nat, r: string, cur: string, day: int)
    requires k < |log|
  {
    && log[k].body.Opened? && log[k].body.receivable == r && DayKey(log[k].at) <= day
    && Resolves(log, k, log[k].body.invoice, cur)
    && forall i :: 0 <= i < |log| ==> log[i].body != InvoiceVoided(log[k].body.invoice)
  }

  lemma ResolvesExactly(log: seq<Event>, k: nat, id: string, cur: string)
    requires k <= |log|
    ensures Resolves(log, k, id, cur) <==> CurrencyOf(log[..k], id) == cur
  {
    var first := FirstIssue(log[..k], id);
    assert forall j :: 0 <= j < k ==> log[..k][j] == log[j];
  }

  lemma OpensForExactly(log: seq<Event>, k: nat, r: string, cur: string, day: int)
    requires k < |log|
    ensures OpensFor(log, k, r, cur, day)
            <==> Stands(log, k, cur) && log[k].body.receivable == r && DayKey(log[k].at) <= day
  {
    hide DayKey, Resolves, CurrencyOf;
    if log[k].body.Opened? {
      ResolvesExactly(log, k, log[k].body.invoice, cur);
    }
  }

  ghost predicate Holds(s: seq<Snapshot>, r: string) { exists i :: 0 <= i < |s| && s[i].id == r }

  ghost predicate OpenedFor(log: seq<Event>, r: string, cur: string, day: int) {
    exists k :: 0 <= k < |log| && OpensFor(log, k, r, cur, day)
  }

  /** `s` holds the receivables of a currency that stand open at the end of a day, and each of them once. */
  ghost predicate ShowsTheDay(log: seq<Event>, s: seq<Snapshot>, cur: string, day: int) {
    && (forall i, j :: 0 <= i < j < |s| ==> s[i].id != s[j].id)
    && (forall r :: Holds(s, r) <==> OpenedFor(log, r, cur, day))
    && (forall i, k :: 0 <= i < |s| && 0 <= k < |log| && OpensFor(log, k, s[i].id, cur, day) ==>
          s[i].due == log[k].body.due && s[i].balance == BalanceOn(log, s[i].id, day))
  }

  lemma OpensForOnce(log: seq<Event>, j: nat, k: nat, r: string, cur: string, day: int)
    requires Refold(log).Ok? && j < |log| && k < |log|
    requires OpensFor(log, j, r, cur, day) && OpensFor(log, k, r, cur, day)
    ensures j == k
  {
    hide Refold, Resolves, DayKey;
    if j < k {
      OpenedOnce(log, j, k);
    } else if k < j {
      OpenedOnce(log, k, j);
    }
  }

  /**
   * A receivable is among a day's snapshots, once, exactly when the log opens it by that day, its invoice
   * having first been issued before in that currency, and no event voids the invoice; the snapshot has the
   * due date it was opened with and the balance last stated for it by then.
   */
  lemma SnapshotsAreTheLogs(log: seq<Event>, cur: string, day: int)
    requires Sorted(log) && Refold(log).Ok?
    ensures Listable(Refold(log).figures.book)
    ensures var f := Refold(log).figures;
            ShowsTheDay(log, ReceivablesAt(f, |f.book.order|, cur, day), cur, day)
  {
    hide Refold, ReceivablesAt, Shown, DayKey, OpensFor, BalanceOn;
    DayShowsTheLog(log, cur, day);
    var s := Shown(log, |log|, cur, day);
    forall i, j | 0 <= i < j < |s|
      ensures s[i].id != s[j].id
    {
      ShownOnce(log, |log|, cur, day, i, j);
    }
    forall i | 0 <= i < |s|
      ensures OpenedFor(log, s[i].id, cur, day)
      ensures forall k :: 0 <= k < |log| && OpensFor(log, k, s[i].id, cur, day) ==>
                log[k].body.Opened? && s[i].due == log[k].body.due && s[i].balance == BalanceOn(log, s[i].id, day)
    {
      var j := ShownHasOpening(log, |log|, cur, day, i);
      OpensForExactly(log, j, s[i].id, cur, day);
      forall k | 0 <= k < |log| && OpensFor(log, k, s[i].id, cur, day)
        ensures k == j
      {
        OpensForOnce(log, j, k, s[i].id, cur, day);
      }
    }
    forall k, r | 0 <= k < |log| && OpensFor(log, k, r, cur, day)
      ensures Holds(s, r)
    {
      OpensForExactly(log, k, r, cur, day);
      var i := OpeningIsShown(log, |log|, cur, day, k);
    }
  }
}
