/**
 * Confirming payments under concurrency. `Confirm` reads the payment without a lock and updates it
 * without a guard; what makes it exactly-once is the row lock its update takes and the unique
 * (journal_ref, line_no) key its ledger lines fall under.
 */
module Confirmation {
  import opened Payments

  /** The outbox fact `payment.confirmed`. */
  datatype Fact = Fact(paymentId: string, amount: int)

  datatype Phase = HasRead | HasUpdated | HasPosted

  /** An open confirming transaction; its writes stay private until it commits. */
  datatype Tx = Tx(org: string, paymentId: string, amount: int, currency: string, phase: Phase)

  datatype Db = Db(payments: map<string, Payment>, lines: map<LineKey, Line>, facts: seq<Fact>)

  datatype State = State(db: Db, txs: map<nat, Tx>)

  datatype Action =
    | Create(payment: Payment)
    | Await(paymentId: string)
    | Fail(paymentId: string)
    | Advance(paymentId: string, to: PaymentState)
    | Read(tx: nat, org: string, paymentId: string, amount: int, currency: string)
    | Update(tx: nat)
    | Post(tx: nat)
    | Commit(tx: nat)
    | Abort(tx: nat)

  function Find(db: Db, org: string, id: string): Option<Payment> {
    if id in db.payments && db.payments[id].org == org then Some(db.payments[id]) else None
  }

  function Decide(db: Db, org: string, id: string, amount: int, currency: string): Verdict {
    if amount <= 0 then Refuse(AmountMustBePositive)
    else match Find(db, org, id)
      case None => Refuse(PaymentNotFound)
      case Some(p) => ConfirmVerdict(p, amount, currency)
  }

  function DebitKey(org: string, id: string): LineKey { LineKey(org, JournalRef(id), 1) }
  function CreditKey(org: string, id: string): LineKey { LineKey(org, JournalRef(id), 2) }

  /** No other transaction has updated this payment row and not yet ended. */
  predicate RowFree(s: State, id: string, me: nat) {
    forall t :: t in s.txs && t != me && s.txs[t].paymentId == id ==> s.txs[t].phase == HasRead
  }

  predicate Unlocked(s: State, id: string) {
    forall t :: t in s.txs && s.txs[t].paymentId == id ==> s.txs[t].phase == HasRead
  }

  /** `Await`, `Fail` and `Advance` are the other lanes' updates of a payment: each waits for the row. */
  predicate Enabled(s: State, a: Action) {
    match a
    case Create(p) =>
      p.id !in s.db.payments && (p.state == Initiated || p.state == PendingConfirmation) && p.confirmed.None?
    case Await(id) => id in s.db.payments && Unlocked(s, id)
    case Fail(id) => id in s.db.payments && Unlocked(s, id)
    case Advance(id, to) =>
      id in s.db.payments && Unlocked(s, id) && s.db.payments[id].confirmed.Some? && Landed(to)
    case Read(t, org, id, amount, currency) => t !in s.txs
    case Update(t) => t in s.txs && s.txs[t].phase == HasRead && RowFree(s, s.txs[t].paymentId, t)
    case Post(t) => t in s.txs && s.txs[t].phase == HasUpdated
    case Commit(t) => t in s.txs && s.txs[t].phase == HasPosted
    case Abort(t) => t in s.txs
  }

  predicate Closed(s: PaymentState) { s == Failed || s == Reversed }

  function Ended(s: State, t: nat): State { s.(txs := s.txs - {t}) }

  /** The writes of a confirming transaction, applied at its commit. */
  function Confirmed'(db: Db, tx: Tx): Db {
    var id := tx.paymentId;
    var p := if id in db.payments
             then db.payments[id := db.payments[id].(state := Confirmed, confirmed := Some(tx.amount))]
             else db.payments;
    Db(p,
       db.lines[DebitKey(tx.org, tx.paymentId) := Line(Debit, tx.amount, tx.currency)]
               [CreditKey(tx.org, tx.paymentId) := Line(Credit, tx.amount, tx.currency)],
       db.facts + [Fact(tx.paymentId, tx.amount)])
  }

  function Restated(s: State, id: string, to: PaymentState): State
    requires id in s.db.payments
  {
    s.(db := s.db.(payments := s.db.payments[id := s.db.payments[id].(state := to)]))
  }

  /**
   * The update is unguarded, but a row that has failed or been reversed meanwhile breaks that state's
   * CHECK; the insert of a journal line that exists breaks the unique key. Either aborts the transaction.
   */
  function Apply(s: State, a: Action): State
    requires Enabled(s, a)
  {
    match a
    case Create(p) => s.(db := s.db.(payments := s.db.payments[p.id := p]))
    case Await(id) => if s.db.payments[id].state == Initiated then Restated(s, id, PendingConfirmation) else s
    case Fail(id) =>
      var p := s.db.payments[id];
      if p.state == Initiated || p.state == PendingConfirmation then Restated(s, id, Failed) else s
    case Advance(id, to) => Restated(s, id, to)
    case Read(t, org, id, amount, currency) =>
      if Decide(s.db, org, id, amount, currency) == Proceed
      then s.(txs := s.txs[t := Tx(org, id, amount, currency, HasRead)]) else s
    case Update(t) =>
      var tx := s.txs[t];
      if tx.paymentId in s.db.payments && Closed(s.db.payments[tx.paymentId].state) then Ended(s, t)
      else s.(txs := s.txs[t := tx.(phase := HasUpdated)])
    case Post(t) =>
      var tx := s.txs[t];
      if DebitKey(tx.org, tx.paymentId) in s.db.lines || CreditKey(tx.org, tx.paymentId) in s.db.lines then Ended(s, t)
      else s.(txs := s.txs[t := tx.(phase := HasPosted)])
    case Commit(t) => Ended(s.(db := Confirmed'(s.db, s.txs[t])), t)
    case Abort(t) => Ended(s, t)
  }

  ghost predicate Runs(s: State, actions: seq<Action>)
    decreases actions
  {
    actions == [] || (Enabled(s, actions[0]) && Runs(Apply(s, actions[0]), actions[1..]))
  }

  ghost function Final(s: State, actions: seq<Action>): State
    requires Runs(s, actions)
    decreases actions
  {
    if actions == [] then s else Final(Apply(s, actions[0]), actions[1..])
  }

  const START := State(Db(map[], map[], []), map[])

  // -- what every interleaving keeps --------------------------------------------

  /** The `payment.confirmed` facts of one payment. */
  function FactsOf(facts: seq<Fact>, id: string): seq<Fact> {
    if facts == [] then []
    else FactsOf(facts[..|facts| - 1], id)
         + (if facts[|facts| - 1].paymentId == id then [facts[|facts| - 1]] else [])
  }

  /** A payment is untouched, or confirmed once: one fact, one balanced entry, one amount. */
  ghost predicate Settled(db: Db, id: string)
    requires id in db.payments
  {
    var p := db.payments[id];
    match p.confirmed
    case None =>
      && !Landed(p.state) && FactsOf(db.facts, id) == []
      && DebitKey(p.org, id) !in db.lines && CreditKey(p.org, id) !in db.lines
    case Some(amount) =>
      && Landed(p.state) && amount > 0 && FactsOf(db.facts, id) == [Fact(id, amount)]
      && DebitKey(p.org, id) in db.lines && db.lines[DebitKey(p.org, id)] == Line(Debit, amount, p.currency)
      && CreditKey(p.org, id) in db.lines && db.lines[CreditKey(p.org, id)] == Line(Credit, amount, p.currency)
  }

  ghost predicate Owns(db: Db, id: string, k: LineKey) {
    id in db.payments && (k == DebitKey(db.payments[id].org, id) || k == CreditKey(db.payments[id].org, id))
  }

  /** Every journal line belongs to a payment's confirmation entry, every fact to a payment. */
  ghost predicate LinesOwned(db: Db) {
    forall k :: k in db.lines ==> exists id :: Owns(db, id, k)
  }

  ghost predicate FactsOwned(db: Db) {
    forall i :: 0 <= i < |db.facts| ==> db.facts[i].paymentId in db.payments
  }

  ghost predicate PaymentOk(db: Db, id: string)
    requires id in db.payments
  {
    Settled(db, id) && db.payments[id].id == id
  }

  ghost predicate DbInv(db: Db) {
    (forall id :: id in db.payments ==> PaymentOk(db, id)) && LinesOwned(db) && FactsOwned(db)
  }

  ghost predicate Live(tx: Tx, db: Db) {
    && tx.amount > 0 && tx.paymentId in db.payments
    && db.payments[tx.paymentId].org == tx.org && db.payments[tx.paymentId].currency == tx.currency
    && (tx.phase != HasRead ==> db.payments[tx.paymentId].state != Failed)
    && (tx.phase == HasPosted ==> db.payments[tx.paymentId].confirmed.None?)
  }

  ghost predicate TxInv(s: State) {
    && (forall t :: t in s.txs ==> Live(s.txs[t], s.db))
    && (forall t :: t in s.txs && s.txs[t].phase != HasRead ==> RowFree(s, s.txs[t].paymentId, t))
  }

  ghost predicate Inv(s: State) { DbInv(s.db) && TxInv(s) }

  lemma {:induction false} NoForeignFacts(facts: seq<Fact>, id: string)
    requires forall i :: 0 <= i < |facts| ==> facts[i].paymentId != id
    ensures FactsOf(facts, id) == []
  {
    if facts != [] {
      NoForeignFacts(facts[..|facts| - 1], id);
    }
  }

  lemma FactsOfAppend(facts: seq<Fact>, f: Fact, id: string)
    ensures FactsOf(facts + [f], id) == FactsOf(facts, id) + (if f.paymentId == id then [f] else [])
  {
  }

  lemma KeysDiffer(org: string, a: string, org': string, b: string)
    requires a != b
    ensures DebitKey(org, a) != DebitKey(org', b) && CreditKey(org, a) != CreditKey(org', b)
    ensures DebitKey(org, a) != CreditKey(org', b)
  {
    if JournalRef(a) == JournalRef(b) {
      JournalRefInjective(a, b);
    }
  }

  lemma NewPaymentIsUntouched(s: State, p: Payment)
    requires Inv(s) && Enabled(s, Create(p))
    ensures FactsOf(s.db.facts, p.id) == []
    ensures DebitKey(p.org, p.id) !in s.db.lines && CreditKey(p.org, p.id) !in s.db.lines
  {
    hide PaymentOk, JournalRef;
    NoForeignFacts(s.db.facts, p.id);
    forall k | k in s.db.lines
      ensures k != DebitKey(p.org, p.id) && k != CreditKey(p.org, p.id)
    {
      var id :| Owns(s.db, id, k);
      KeysDiffer(s.db.payments[id].org, id, p.org, p.id);
      KeysDiffer(p.org, p.id, s.db.payments[id].org, id);
    }
  }

  /** Payments never leave and never change org, so lines keep their owners. */
  lemma OwnersStay(db: Db, db': Db)
    requires LinesOwned(db)
    requires forall id :: id in db.payments ==> id in db'.payments && db'.payments[id].org == db.payments[id].org
    requires forall k :: k in db'.lines && k !in db.lines ==> exists id :: Owns(db', id, k)
    ensures LinesOwned(db')
  {
    hide JournalRef;
    forall k | k in db'.lines
      ensures exists id :: Owns(db', id, k)
    {
      if k in db.lines {
        var id :| Owns(db, id, k);
        assert Owns(db', id, k);
      }
    }
  }

  lemma SettledElsewhere(db: Db, db': Db, id: string)
    requires id in db.payments && id in db'.payments && db'.payments[id] == db.payments[id]
    requires db'.lines == db.lines && db'.facts == db.facts && PaymentOk(db, id)
    ensures PaymentOk(db', id)
  {
  }

  lemma CreatedIsOk(s: State, p: Payment)
    requires Inv(s) && Enabled(s, Create(p))
    ensures PaymentOk(Apply(s, Create(p)).db, p.id)
  {
    hide JournalRef, FactsOf, DbInv;
    NewPaymentIsUntouched(s, p);
  }

  lemma CreateKeeps(s: State, p: Payment)
    requires Inv(s) && Enabled(s, Create(p))
    ensures Inv(Apply(s, Create(p)))
  {
    hide PaymentOk, JournalRef, FactsOf, LinesOwned;
    var s' := Apply(s, Create(p));
    forall id | id in s'.db.payments
      ensures PaymentOk(s'.db, id)
    {
      if id == p.id {
        CreatedIsOk(s, p);
      } else {
        SettledElsewhere(s.db, s'.db, id);
      }
    }
    OwnersStay(s.db, s'.db);
  }

  lemma RestatedIsOk(s: State, id: string, to: PaymentState)
    requires id in s.db.payments && PaymentOk(s.db, id) && (Landed(to) <==> s.db.payments[id].confirmed.Some?)
    ensures PaymentOk(Restated(s, id, to).db, id)
  {
    hide JournalRef, FactsOf;
  }

  /** Another lane's update of an unlocked row keeps its settlement. */
  lemma RestatedKeeps(s: State, id: string, to: PaymentState)
    requires Inv(s) && id in s.db.payments && Unlocked(s, id) && (Landed(to) <==> s.db.payments[id].confirmed.Some?)
    ensures Inv(Restated(s, id, to))
  {
    hide PaymentOk, JournalRef, FactsOf, LinesOwned;
    var s' := Restated(s, id, to);
    RestatedIsOk(s, id, to);
    forall i | i in s'.db.payments
      ensures PaymentOk(s'.db, i)
    {
      if i != id {
        SettledElsewhere(s.db, s'.db, i);
      }
    }
    OwnersStay(s.db, s'.db);
  }

  lemma LaneStepKeeps(s: State, a: Action)
    requires Inv(s) && Enabled(s, a) && (a.Await? || a.Fail? || a.Advance?)
    ensures Inv(Apply(s, a))
  {
    hide JournalRef, FactsOf, TxInv, LinesOwned, FactsOwned;
    var p := s.db.payments[a.paymentId];
    assert PaymentOk(s.db, a.paymentId);
    if a.Await? && p.state == Initiated {
      RestatedKeeps(s, a.paymentId, PendingConfirmation);
    } else if a.Fail? && (p.state == Initiated || p.state == PendingConfirmation) {
      RestatedKeeps(s, a.paymentId, Failed);
    } else if a.Advance? {
      RestatedKeeps(s, a.paymentId, a.to);
    }
  }

  /** Every payment but the committing one keeps its settlement. */
  lemma CommitKeepsOthers(db: Db, tx: Tx, id: string)
    requires id in db.payments && PaymentOk(db, id) && id != tx.paymentId
    ensures id in Confirmed'(db, tx).payments && PaymentOk(Confirmed'(db, tx), id)
  {
    hide JournalRef, FactsOf;
    KeysDiffer(tx.org, tx.paymentId, db.payments[id].org, id);
    KeysDiffer(db.payments[id].org, id, tx.org, tx.paymentId);
    FactsOfAppend(db.facts, Fact(tx.paymentId, tx.amount), id);
  }

  lemma CommitSettles(db: Db, tx: Tx)
    requires Live(tx, db) && tx.phase == HasPosted && PaymentOk(db, tx.paymentId)
    ensures PaymentOk(Confirmed'(db, tx), tx.paymentId)
  {
    hide JournalRef, FactsOf;
    FactsOfAppend(db.facts, Fact(tx.paymentId, tx.amount), tx.paymentId);
  }

  lemma CommitKeeps(s: State, t: nat)
    requires Inv(s) && Enabled(s, Commit(t))
    ensures Inv(Apply(s, Commit(t)))
  {
    hide JournalRef, FactsOf, PaymentOk, LinesOwned;
    var tx := s.txs[t];
    var s' := Apply(s, Commit(t));
    forall id | id in s'.db.payments
      ensures PaymentOk(s'.db, id)
    {
      if id == tx.paymentId {
        CommitSettles(s.db, tx);
      } else {
        CommitKeepsOthers(s.db, tx, id);
      }
    }
    forall k | k in s'.db.lines && k !in s.db.lines
      ensures exists id :: Owns(s'.db, id, k)
    {
      assert Owns(s'.db, tx.paymentId, k);
    }
    OwnersStay(s.db, s'.db);
  }

  lemma PostSeesUnconfirmed(db: Db, tx: Tx)
    requires DbInv(db) && Live(tx, db) && DebitKey(tx.org, tx.paymentId) !in db.lines
    ensures db.payments[tx.paymentId].confirmed.None?
  {
  }

  lemma LocalStepKeeps(s: State, a: Action)
    requires Inv(s) && Enabled(s, a) && (a.Read? || a.Update? || a.Post? || a.Abort?)
    ensures Inv(Apply(s, a))
  {
    hide DbInv, JournalRef;
    if a.Post? {
      var tx := s.txs[a.tx];
      if DebitKey(tx.org, tx.paymentId) !in s.db.lines {
        PostSeesUnconfirmed(s.db, tx);
      }
    }
  }

  lemma StepKeeps(s: State, a: Action)
    requires Inv(s) && Enabled(s, a)
    ensures Inv(Apply(s, a))
  {
    match a
    case Create(p) => CreateKeeps(s, p);
    case Commit(t) => CommitKeeps(s, t);
    case _ => if a.Await? || a.Fail? || a.Advance? { LaneStepKeeps(s, a); } else { LocalStepKeeps(s, a); }
  }

  lemma {:induction false} RunKeeps(s: State, actions: seq<Action>)
    requires Inv(s) && Runs(s, actions)
    ensures Inv(Final(s, actions))
    decreases actions
  {
    if actions != [] {
      StepKeeps(s, actions[0]);
      RunKeeps(Apply(s, actions[0]), actions[1..]);
    }
  }

  // -- the promise --------------------------------------------------------------

  /** The confirmations a run commits for one payment. */
  ghost function Commits(s: State, actions: seq<Action>, id: string): nat
    requires Runs(s, actions)
    decreases actions
  {
    if actions == [] then 0
    else (if actions[0].Commit? && s.txs[actions[0].tx].paymentId == id then 1 else 0)
         + Commits(Apply(s, actions[0]), actions[1..], id)
  }

  lemma {:induction false} CommitsAreFacts(s: State, actions: seq<Action>, id: string)
    requires Runs(s, actions)
    ensures |FactsOf(Final(s, actions).db.facts, id)| == |FactsOf(s.db.facts, id)| + Commits(s, actions, id)
    decreases actions
  {
    hide JournalRef, FactsOf;
    if actions != [] {
      var a := actions[0];
      if a.Commit? {
        FactsOfAppend(s.db.facts, Fact(s.txs[a.tx].paymentId, s.txs[a.tx].amount), id);
      }
      CommitsAreFacts(Apply(s, a), actions[1..], id);
    }
  }

  /** Σ debit and Σ credit of a payment's journal entry. */
  function EntryTotals(db: Db, org: string, id: string): (int, int) {
    (if DebitKey(org, id) in db.lines then db.lines[DebitKey(org, id)].amount else 0,
     if CreditKey(org, id) in db.lines then db.lines[CreditKey(org, id)].amount else 0)
  }

  /**
   * However confirming transactions, the other lanes' updates and crashes interleave, a payment is
   * confirmed by at most one commit. Its money has landed exactly when that commit happened, and then it
   * carries one fact and one entry whose debit and credit are both the confirmed amount; any other
   * payment has neither.
   */
  lemma ConfirmedExactlyOnce(actions: seq<Action>, id: string)
    requires Runs(START, actions) && id in Final(START, actions).db.payments
    ensures var db := Final(START, actions).db;
            var p := db.payments[id];
            && Commits(START, actions, id) == (if p.confirmed.Some? then 1 else 0)
            && (Landed(p.state) <==> p.confirmed.Some?)
            && (p.confirmed.Some? ==>
                  && FactsOf(db.facts, id) == [Fact(id, p.confirmed.value)]
                  && EntryTotals(db, p.org, id) == (p.confirmed.value, p.confirmed.value))
            && (p.confirmed.None? ==> FactsOf(db.facts, id) == [] && EntryTotals(db, p.org, id) == (0, 0))
  {
    RunKeeps(START, actions);
    CommitsAreFacts(START, actions, id);
    var db := Final(START, actions).db;
    assert PaymentOk(db, id);
  }

  lemma StepKeepsConfirmed(s: State, a: Action, id: string)
    requires Inv(s) && Enabled(s, a) && id in s.db.payments && s.db.payments[id].confirmed.Some?
    ensures var db := Apply(s, a).db;
            id in db.payments && db.payments[id] == s.db.payments[id].(state := db.payments[id].state)
  {
    hide DbInv, JournalRef;
    assert a.Commit? ==> Live(s.txs[a.tx], s.db);
  }

  lemma {:induction false} RunKeepsConfirmed(s: State, actions: seq<Action>, id: string)
    requires Inv(s) && Runs(s, actions) && id in s.db.payments && s.db.payments[id].confirmed.Some?
    ensures var db := Final(s, actions).db;
            id in db.payments && db.payments[id] == s.db.payments[id].(state := db.payments[id].state)
    decreases actions
  {
    hide Inv, Apply, Enabled;
    if actions != [] {
      StepKeeps(s, actions[0]);
      StepKeepsConfirmed(s, actions[0], id);
      RunKeepsConfirmed(Apply(s, actions[0]), actions[1..], id);
    }
  }

  /** A confirmation is final: whatever becomes of the payment, its amount, fact and entry do not change. */
  lemma ConfirmedStays(s: State, actions: seq<Action>, id: string)
    requires Inv(s) && Runs(s, actions) && id in s.db.payments && s.db.payments[id].confirmed.Some?
    ensures var db := Final(s, actions).db;
            && id in db.payments && db.payments[id] == s.db.payments[id].(state := db.payments[id].state)
            && Landed(db.payments[id].state) && FactsOf(db.facts, id) == FactsOf(s.db.facts, id)
            && EntryTotals(db, db.payments[id].org, id) == EntryTotals(s.db, s.db.payments[id].org, id)
  {
    hide JournalRef, FactsOf, LinesOwned, FactsOwned, TxInv, Runs, Final;
    RunKeeps(s, actions);
    RunKeepsConfirmed(s, actions, id);
    assert PaymentOk(s.db, id) && PaymentOk(Final(s, actions).db, id);
  }

  // -- one confirmation at a time -----------------------------------------------

  datatype Answer = Answer(refused: Option<Refusal>, already: bool)

  /** The answer and the database after one undisturbed confirmation. */
  function Outcome(db: Db, org: string, id: string, amount: int, currency: string): (Answer, Db) {
    match Decide(db, org, id, amount, currency)
    case Refuse(why) => (Answer(Some(why), false), db)
    case AlreadyConfirmed => (Answer(None, true), db)
    case Proceed =>
      if DebitKey(org, id) in db.lines || CreditKey(org, id) in db.lines
      then (Answer(Some(UniqueViolation), false), db)
      else (Answer(None, false), Confirmed'(db, Tx(org, id, amount, currency, HasPosted)))
  }

  /** The payment moves to confirmed for the amount, with one new fact and one new balanced entry; nothing else moves. */
  ghost predicate Confirms(db: Db, db': Db, org: string, id: string, amount: int, currency: string) {
    var debit := LineKey(org, "payment_confirmed:" + id, 1);
    var credit := LineKey(org, "payment_confirmed:" + id, 2);
    && id in db.payments && db.payments[id].confirmed.None?
    && db'.payments.Keys == db.payments.Keys && (forall i :: i in db.payments && i != id ==> db'.payments[i] == db.payments[i])
    && db'.payments[id] == db.payments[id].(state := Confirmed, confirmed := Some(amount))
    && db'.facts == db.facts + [Fact(id, amount)]
    && debit !in db.lines && credit !in db.lines && db'.lines.Keys == db.lines.Keys + {debit, credit}
    && (forall k :: k in db.lines ==> db'.lines[k] == db.lines[k])
    && db'.lines[debit] == Line(Debit, amount, currency) && db'.lines[credit] == Line(Credit, amount, currency)
  }

  /** The org has the payment, in the currency, and the amount is one. */
  predicate Addresses(db: Db, org: string, id: string, amount: int, currency: string) {
    amount > 0 && id in db.payments && db.payments[id].org == org && db.payments[id].currency == currency
  }

  /**
   * What an answer means, in the tables before and after: when a confirmation is fresh, when it repeats,
   * and what each refusal says. Nothing changes but by a fresh one.
   */
  ghost predicate AnswerMeans(db: Db, db': Db, r: Answer, org: string, id: string, amount: int, currency: string) {
    var ours := Addresses(db, org, id, amount, currency);
    && (if r.refused.None? && !r.already then Confirms(db, db', org, id, amount, currency) else db' == db)
    && (r.refused.None? && !r.already <==>
          ours && (db.payments[id].state == Initiated || db.payments[id].state == PendingConfirmation))
    && (r.already <==> ours && db.payments[id].state == Confirmed && db.payments[id].confirmed == Some(amount))
    && (r.already ==> r.refused.None?)
    && (r.refused == Some(AmountMustBePositive) <==> amount <= 0)
    && (r.refused == Some(PaymentNotFound) <==> amount > 0 && !(id in db.payments && db.payments[id].org == org))
    && (r.refused == Some(CurrencyMismatch) <==>
          amount > 0 && id in db.payments && db.payments[id].org == org && db.payments[id].currency != currency)
    && (r.refused == Some(PaymentTerminal) <==> ours && db.payments[id].state in {Failed, Reversed, Refunded})
    && (r.refused == Some(ConfirmedAmountMismatch) <==>
          ours && db.payments[id].state == Confirmed && db.payments[id].confirmed != Some(amount))
    && (r.refused == Some(InvalidTransition) <==>
          ours && db.payments[id].state in {PartiallyAllocated, Allocated, Unapplied, PartiallyRefunded})
  }

  /** On tables that satisfy the invariant every confirmation has exactly one of those meanings. */
  lemma OutcomeMeans(db: Db, org: string, id: string, amount: int, currency: string)
    requires DbInv(db)
    ensures var (r, db') := Outcome(db, org, id, amount, currency); AnswerMeans(db, db', r, org, id, amount, currency)
  {
    hide FactsOf, LinesOwned, FactsOwned;
    if id in db.payments {
      assert PaymentOk(db, id);
    }
  }

  lemma RunPrepend(s: State, a: Action, rest: seq<Action>)
    requires Enabled(s, a) && Runs(Apply(s, a), rest)
    ensures Runs(s, [a] + rest) && Final(s, [a] + rest) == Final(Apply(s, a), rest)
  {
  }

  /** An undisturbed confirmation is a run of the machine. */
  lemma ConfirmIsARun(s: State, t: nat, org: string, id: string, amount: int, currency: string)
    returns (actions: seq<Action>)
    requires Inv(s) && t !in s.txs && RowFree(s, id, t)
    ensures Runs(s, actions) && Final(s, actions) == State(Outcome(s.db, org, id, amount, currency).1, s.txs)
  {
    hide JournalRef, Inv, Confirmed';
    var s1 := Apply(s, Read(t, org, id, amount, currency));
    if Decide(s.db, org, id, amount, currency) != Proceed {
      RunPrepend(s, Read(t, org, id, amount, currency), []);
      return [Read(t, org, id, amount, currency)];
    }
    var s2 := Apply(s1, Update(t));
    var s3 := Apply(s2, Post(t));
    assert s2.txs - {t} == s.txs;
    if t in s3.txs {
      var s4 := Apply(s3, Commit(t));
      assert s4.txs == s.txs;
      RunPrepend(s3, Commit(t), []);
      RunPrepend(s2, Post(t), [Commit(t)]);
      RunPrepend(s1, Update(t), [Post(t)] + [Commit(t)]);
      actions := [Read(t, org, id, amount, currency)] + ([Update(t)] + ([Post(t)] + [Commit(t)]));
      RunPrepend(s, Read(t, org, id, amount, currency), [Update(t)] + ([Post(t)] + [Commit(t)]));
    } else {
      RunPrepend(s2, Post(t), []);
      RunPrepend(s1, Update(t), [Post(t)]);
      actions := [Read(t, org, id, amount, currency)] + ([Update(t)] + [Post(t)]);
      RunPrepend(s, Read(t, org, id, amount, currency), [Update(t)] + [Post(t)]);
    }
  }

  /** The confirmation service over one database, as a single caller sees it. */
  class ConfirmService {
    var db: Db

    constructor (db: Db)
      ensures this.db == db
    {
      this.db := db;
    }

    /** The transaction body in statement order; the database changes only if every statement succeeds. */
    method Confirm(org: string, paymentId: string, amount: int, currency: string) returns (r: Answer)
      modifies this
      ensures (r, db) == Outcome(old(db), org, paymentId, amount, currency)
      ensures DbInv(old(db)) ==> AnswerMeans(old(db), db, r, org, paymentId, amount, currency)
    {
      hide JournalRef, DbInv, AnswerMeans;
      if DbInv(db) {
        OutcomeMeans(db, org, paymentId, amount, currency);
      }
      if amount <= 0 {
        return Answer(Some(AmountMustBePositive), false);
      }
      var found := Find(db, org, paymentId);
      if found.None? {
        return Answer(Some(PaymentNotFound), false);
      }
      var p := found.value;
      if p.currency != currency {
        return Answer(Some(CurrencyMismatch), false);
      }
      if Terminal(p.state) {
        return Answer(Some(PaymentTerminal), false);
      }
      if p.state == Confirmed {
        if p.confirmed.None? {
          return Answer(Some(Internal), false);
        }
        if p.confirmed.value != amount {
          return Answer(Some(ConfirmedAmountMismatch), false);
        }
        return Answer(None, true);
      }
      if p.state == Initiated {
        p := p.(state := PendingConfirmation);
      }
      if p.state != PendingConfirmation {
        return Answer(Some(InvalidTransition), false);
      }
      p := p.(state := Confirmed, confirmed := Some(amount));
      var facts := db.facts + [Fact(paymentId, amount)];
      if DebitKey(org, paymentId) in db.lines {
        return Answer(Some(UniqueViolation), false);
      }
      var lines := db.lines[DebitKey(org, paymentId) := Line(Debit, amount, currency)];
      if CreditKey(org, paymentId) in lines {
        return Answer(Some(UniqueViolation), false);
      }
      lines := lines[CreditKey(org, paymentId) := Line(Credit, amount, currency)];
      db := Db(db.payments[paymentId := p], lines, facts);
      return Answer(None, false);
    }
  }
}
