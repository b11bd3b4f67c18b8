/** What the fold's book means in terms of the log: the last word on a balance, and the money taken each day. */
module Balances {
  import opened EventLog
  import opened Fold

  predicate Opens(ev: Event, r: string) { ev.body.Opened? && ev.body.receivable == r }

  predicate IsOpen(log: seq<Event>, r: string) { exists i :: 0 <= i < |log| && Opens(log[i], r) }

  /** The balance an event states for a receivable, if it states one. */
  function States(ev: Event, r: string): int {
    match ev.body
    case Opened(x, _, original, _) => if x == r then original else -1
    case PartiallySettled(x, _, remaining) => if x == r then remaining else -1
    case Settled(x) => if x == r then 0 else -1
    case WrittenOff(x) => if x == r then 0 else -1
    case _ => -1
  }

  /** The balance the last event to state one for `r` stated. */
  function LastWord(log: seq<Event>, r: string): int {
    if log == [] then -1
    else if States(log[|log| - 1], r) >= 0 then States(log[|log| - 1], r)
    else LastWord(log[..|log| - 1], r)
  }

  /** The money an event takes from a receivable, given the log before it. */
  function Takes(before: seq<Event>, ev: Event, r: string): int {
    if !IsOpen(before, r) then 0
    else
      match ev.body
      case PartiallySettled(x, amount, _) => if x == r then amount else 0
      case Settled(x) => if x == r then LastWord(before, r) else 0
      case Recovered(x, amount) => if x == r then amount else 0
      case _ => 0
  }

  function TakenOn(log: seq<Event>, r: string, day: int): int {
    if log == [] then 0
    else
      var front, ev := log[..|log| - 1], log[|log| - 1];
      TakenOn(front, r, day) + (if DayKey(ev.at) == day then Takes(front, ev, r) else 0)
  }

  ghost predicate Tells(f: Figures, log: seq<Event>, r: string) {
    && (r in f.book.entries <==> IsOpen(log, r))
    && (r in f.book.entries ==> f.book.entries[r].balance == LastWord(log, r))
    && (forall day :: At(DaysOf(f.book.collected, r), day) == TakenOn(log, r, day))
  }

  lemma OpenNext(log: seq<Event>, ev: Event, r: string)
    ensures IsOpen(log + [ev], r) <==> IsOpen(log, r) || Opens(ev, r)
  {
    if IsOpen(log, r) {
      var i :| 0 <= i < |log| && Opens(log[i], r);
      assert Opens((log + [ev])[i], r);
    }
    assert (log + [ev])[|log|] == ev;
  }

  lemma WordsNext(log: seq<Event>, ev: Event, r: string)
    ensures LastWord(log + [ev], r) == if States(ev, r) >= 0 then States(ev, r) else LastWord(log, r)
    ensures forall day ::
              TakenOn(log + [ev], r, day)
              == TakenOn(log, r, day) + if DayKey(ev.at) == day then Takes(log, ev, r) else 0
  {
  }

  lemma TouchTells(f: Figures, log: seq<Event>, ev: Event, r: string)
    requires Tells(f, log, r) && Touches(ev.body) && ev.body.receivable in f.book.entries
    ensures Tells(f.(book := Touch(f.book, DayKey(ev.at), ev.body)), log + [ev], r)
  {
    hide DayKey, LastWord, TakenOn, IsOpen;
    OpenNext(log, ev, r);
    WordsNext(log, ev, r);
  }

  lemma OtherTells(f: Figures, log: seq<Event>, ev: Event, r: string)
    requires Tells(f, log, r) && (Touches(ev.body) ==> ev.body.receivable !in f.book.entries)
    requires Opens(ev, r) ==> r !in f.book.entries
    ensures var entry := NewEntry(f.billing, DayKey(ev.at), if ev.body.Opened? then ev.body else Opened("", "", 0, 0));
            Tells(if ev.body.Opened? then f.(book := Open(f.book, entry)) else f, log + [ev], r)
  {
    hide DayKey, LastWord, TakenOn, IsOpen;
    OpenNext(log, ev, r);
    WordsNext(log, ev, r);
  }

  lemma ApplyTells(f: Figures, log: seq<Event>, ev: Event, r: string)
    requires Tells(f, log, r) && Apply(f, ev).Ok?
    ensures Tells(Apply(f, ev).figures, log + [ev], r)
  {
    hide DayKey, LastWord, TakenOn, IsOpen, Touch, Issue, Void;
    if Touches(ev.body) && ev.body.receivable in f.book.entries {
      TouchTells(f, log, ev, r);
    } else {
      OtherTells(f, log, ev, r);
    }
  }

  /**
   * For every log that folds: the book holds exactly the receivables opened, each with the balance last
   * stated for it, and on each day exactly the money its events took.
   */
  lemma {:induction false} FoldTellsTheLog(log: seq<Event>, r: string)
    requires Refold(log).Ok?
    ensures Tells(Refold(log).figures, log, r)
  {
    hide Apply, Tells, DayKey;
    if log == [] {
      NothingToTell(r);
    } else {
      var front := log[..|log| - 1];
      FoldTellsTheLog(front, r);
      ApplyTells(Refold(front).figures, front, log[|log| - 1], r);
      assert log == front + [log[|log| - 1]];
    }
  }

  lemma NothingToTell(r: string)
    ensures Tells(EMPTY, [], r)
  {
  }

  lemma {:induction false} Unspoken(log: seq<Event>, more: seq<Event>, r: string)
    requires forall i :: 0 <= i < |more| ==> States(more[i], r) < 0
    ensures LastWord(log + more, r) == LastWord(log, r) && (IsOpen(log, r) ==> IsOpen(log + more, r))
  {
    if more == [] {
      assert log + more == log;
    } else {
      var front, ev := more[..|more| - 1], more[|more| - 1];
      Unspoken(log, front, r);
      assert log + more == (log + front) + [ev];
      OpenNext(log + front, ev, r);
      WordsNext(log + front, ev, r);
    }
  }

  /**
   * However the log goes on, a receivable keeps its balance until an event states another one: what is
   * settled or written off is never revived by recoveries, promises, other receivables or anything else.
   */
  lemma BalanceStaysUntilStated(log: seq<Event>, more: seq<Event>, r: string)
    requires Refold(log).Ok? && Refold(log + more).Ok? && r in Refold(log).figures.book.entries
    requires forall i :: 0 <= i < |more| ==> States(more[i], r) < 0
    ensures r in Refold(log + more).figures.book.entries
    ensures Refold(log + more).figures.book.entries[r].balance == Refold(log).figures.book.entries[r].balance
  {
    hide Refold, DayKey;
    FoldTellsTheLog(log, r);
    FoldTellsTheLog(log + more, r);
    Unspoken(log, more, r);
  }
}
