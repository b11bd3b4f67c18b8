/**
 * The C2B confirmation callback for one rail journey. Each delivery runs three separately committed
 * steps: claim the journey, take the payment in, confirm it. Deliveries repeat, overlap, carry altered
 * amounts and die anywhere.
 */
module Settlement {
  import opened Payments
  import C = Confirmation

  const KES := "KES"

  /** The journey under study: an org and the rail's transaction id. */
  datatype Journey = Journey(org: string, transId: string)

  datatype Progress =
    | Arrived
    | Claimed
    | Missing                 // intake probed and saw no payment
    | Raced                   // intake lost the insert to a concurrent delivery
    | HasPayment(id: string)
    | Confirming(id: string)
    | Done
    | Refused(why: Refusal)

  datatype Delivery = Delivery(amount: int, at: Progress)

  /** `journey` is the claimed amount, `keyRef` the durable idempotency key's outcome. */
  datatype State = State(journey: Option<int>, keyRef: Option<string>, core: C.State, deliveries: map<nat, Delivery>)

  datatype Action =
    | Arrive(d: nat, amount: int)
    | Claim(d: nat)
    | Probe(d: nat, prior: Option<string>)
    | Insert(d: nat, id: string)
    | Replay(d: nat, prior: Option<string>)
    | Read(d: nat)
    | Update(d: nat)
    | Post(d: nat)
    | Commit(d: nat)
    | Die(d: nat)

  function PaymentKey(j: Journey): string { "daraja:c2b:" + j.transId }

  function NewPayment(j: Journey, id: string, amount: int): Payment {
    Payment(id, j.org, C2B, j.transId, PaymentKey(j), Initiated, KES, amount, None)
  }

  /** A payment of the journey exists. */
  ghost predicate Taken(s: State) { exists id :: id in s.core.db.payments }

  /** A probe reports a committed payment of the journey, or none when there is none. */
  ghost predicate PriorOk(s: State, prior: Option<string>) {
    if prior.Some? then prior.value in s.core.db.payments else !Taken(s)
  }

  predicate At(s: State, d: nat, p: Progress) {
    d in s.deliveries && s.deliveries[d].at == p
  }

  ghost predicate Enabled(s: State, a: Action) {
    match a
    case Arrive(d, amount) => d !in s.deliveries && d !in s.core.txs
    case Claim(d) => At(s, d, Arrived)
    case Probe(d, prior) => At(s, d, Claimed) && PriorOk(s, prior)
    case Insert(d, id) => At(s, d, Missing) && id !in s.core.db.payments
    case Replay(d, prior) => At(s, d, Raced) && PriorOk(s, prior)
    case Read(d) => d in s.deliveries && s.deliveries[d].at.HasPayment? && d !in s.core.txs
    case Update(d) => d in s.deliveries && s.deliveries[d].at.Confirming? && C.Enabled(s.core, C.Update(d))
    case Post(d) => d in s.deliveries && s.deliveries[d].at.Confirming? && C.Enabled(s.core, C.Post(d))
    case Commit(d) => d in s.deliveries && s.deliveries[d].at.Confirming? && C.Enabled(s.core, C.Commit(d))
    case Die(d) => d in s.deliveries
  }

  ghost function Moved(s: State, d: nat, p: Progress): State
    requires d in s.deliveries
  {
    s.(deliveries := s.deliveries[d := s.deliveries[d].(at := p)])
  }

  /** The journey claim: first write wins; other money on a claimed journey is tampering. */
  ghost function Claiming(s: State, d: nat): State
    requires d in s.deliveries
  {
    var amount := s.deliveries[d].amount;
    if amount <= 0 then Moved(s, d, Refused(CheckViolation))
    else if s.journey.None? then Moved(s.(journey := Some(amount)), d, Claimed)
    else if s.journey.value == amount then Moved(s, d, Claimed)
    else Moved(s, d, Refused(DuplicateAmountMismatch))
  }

  /** Intake found a payment: replay it if the money agrees, and bind the key to it. */
  ghost function Replaying(s: State, d: nat, id: string): State
    requires d in s.deliveries && id in s.core.db.payments
  {
    var p := s.core.db.payments[id];
    if p.currency != KES then Moved(s, d, Refused(CurrencyMismatch))
    else if p.requested != s.deliveries[d].amount then Moved(s, d, Refused(DuplicateAmountMismatch))
    else Moved(s.(keyRef := if s.keyRef.Some? then s.keyRef else Some(id)), d, HasPayment(id))
  }

  /** First contact: the unique index on the payments table settles a race. */
  ghost function Inserting(j: Journey, s: State, d: nat, id: string): State
    requires Enabled(s, Insert(d, id))
  {
    if Taken(s) then Moved(s, d, Raced)
    else
      var core := C.Apply(s.core, C.Create(NewPayment(j, id, s.deliveries[d].amount)));
      Moved(s.(core := core, keyRef := if s.keyRef.Some? then s.keyRef else Some(id)), d, HasPayment(id))
  }

  ghost function Reading(j: Journey, s: State, d: nat): State
    requires Enabled(s, Read(d))
  {
    var id, amount := s.deliveries[d].at.id, s.deliveries[d].amount;
    var s' := s.(core := C.Apply(s.core, C.Read(d, j.org, id, amount, KES)));
    match C.Decide(s.core.db, j.org, id, amount, KES)
    case Refuse(why) => Moved(s', d, Refused(why))
    case AlreadyConfirmed => Moved(s', d, Done)
    case Proceed => Moved(s', d, Confirming(id))
  }

  /** A confirmation statement that fails ends the delivery with an error; the rail redelivers. */
  ghost function Writing(s: State, d: nat, a: C.Action, otherwise: Progress): State
    requires d in s.deliveries && C.Enabled(s.core, a)
  {
    var s' := s.(core := C.Apply(s.core, a));
    if d in s'.core.txs then s' else Moved(s', d, otherwise)
  }

  ghost function Apply(j: Journey, s: State, a: Action): State
    requires Enabled(s, a)
  {
    match a
    case Arrive(d, amount) => s.(deliveries := s.deliveries[d := Delivery(amount, Arrived)])
    case Claim(d) => Claiming(s, d)
    case Probe(d, prior) => if prior.None? then Moved(s, d, Missing) else Replaying(s, d, prior.value)
    case Insert(d, id) => Inserting(j, s, d, id)
    case Replay(d, prior) => if prior.None? then Moved(s, d, Refused(Internal)) else Replaying(s, d, prior.value)
    case Read(d) => Reading(j, s, d)
    case Update(d) => Writing(s, d, C.Update(d), Refused(CheckViolation))
    case Post(d) => Writing(s, d, C.Post(d), Refused(UniqueViolation))
    case Commit(d) => Writing(s, d, C.Commit(d), Done)
    case Die(d) =>
      var core := if d in s.core.txs then C.Apply(s.core, C.Abort(d)) else s.core;
      s.(core := core, deliveries := s.deliveries - {d})
  }

  ghost predicate Runs(j: Journey, s: State, actions: seq<Action>)
    decreases actions
  {
    actions == [] || (Enabled(s, actions[0]) && Runs(j, Apply(j, s, actions[0]), actions[1..]))
  }

  ghost function Final(j: Journey, s: State, actions: seq<Action>): State
    requires Runs(j, s, actions)
    decreases actions
  {
    if actions == [] then s else Final(j, Apply(j, s, actions[0]), actions[1..])
  }

  const START := State(None, None, C.START, map[])

  // -- what every interleaving keeps --------------------------------------------

  /** The payment names its journey: org, C2B, the rail's transaction id, and the key made of it. */
  ghost predicate RailPayment(j: Journey, p: Payment, id: string) {
    p.id == id && p.org == j.org && p.channel == C2B && p.externalRef == j.transId && p.key == "daraja:c2b:" + j.transId
  }

  ghost predicate PaymentsOk(j: Journey, s: State) {
    && (forall id, id' :: id in s.core.db.payments && id' in s.core.db.payments ==> id == id')
    && (forall id :: id in s.core.db.payments ==>
          var p := s.core.db.payments[id];
          && s.journey == Some(p.requested) && p.currency == KES && RailPayment(j, p, id)
          && (p.state == Initiated || p.state == Confirmed) && (p.confirmed.None? || p.confirmed == s.journey)
          && s.keyRef == Some(id))
    && (s.keyRef.Some? ==> s.keyRef.value in s.core.db.payments)
  }

  ghost predicate ConfirmedFor(s: State, amount: int) {
    exists id :: id in s.core.db.payments && s.core.db.payments[id].confirmed == Some(amount)
  }

  /** Why a delivery was refused: no money, other money, or money another delivery confirmed meanwhile. */
  ghost predicate RefusedFor(s: State, amount: int, why: Refusal) {
    match why
    case CheckViolation => amount <= 0
    case DuplicateAmountMismatch => amount > 0 && s.journey.Some? && s.journey != Some(amount)
    case UniqueViolation => s.journey == Some(amount) && ConfirmedFor(s, amount)
    case _ => false
  }

  ghost predicate DeliveryOk(j: Journey, s: State, d: nat)
    requires d in s.deliveries
  {
    var amount := s.deliveries[d].amount;
    match s.deliveries[d].at
    case Arrived => d !in s.core.txs
    case Refused(why) => d !in s.core.txs && RefusedFor(s, amount, why)
    case Claimed => d !in s.core.txs && s.journey == Some(amount)
    case Missing => d !in s.core.txs && s.journey == Some(amount)
    case Raced => d !in s.core.txs && s.journey == Some(amount) && Taken(s)
    case HasPayment(id) => d !in s.core.txs && s.journey == Some(amount) && id in s.core.db.payments
    case Confirming(id) =>
      && s.journey == Some(amount) && id in s.core.db.payments && d in s.core.txs
      && s.core.txs[d] == C.Tx(j.org, id, amount, KES, s.core.txs[d].phase)
    case Done => d !in s.core.txs && s.journey == Some(amount) && ConfirmedFor(s, amount)
  }

  ghost predicate Inv(j: Journey, s: State) {
    && C.Inv(s.core) && PaymentsOk(j, s)
    && (s.journey.Some? ==> s.journey.value > 0)
    && (forall d :: d in s.deliveries ==> DeliveryOk(j, s, d))
    && (forall d :: d in s.core.txs ==> d in s.deliveries && s.deliveries[d].at.Confirming?)
  }

  /** The durable part only grows: claims stay, payments stay, confirmed amounts stay. */
  ghost predicate Grows(s: State, s': State) {
    && (s.journey.Some? ==> s'.journey == s.journey) && (s.keyRef.Some? ==> s'.keyRef == s.keyRef)
    && (forall id :: id in s.core.db.payments ==>
          && id in s'.core.db.payments
          && (s.core.db.payments[id].confirmed.Some? ==>
                s'.core.db.payments[id].confirmed == s.core.db.payments[id].confirmed))
  }

  ghost predicate SameElsewhere(s: State, s': State, d: nat) {
    && (forall e :: e != d ==> (e in s'.deliveries <==> e in s.deliveries))
    && (forall e :: e != d && e in s.deliveries ==> s'.deliveries[e] == s.deliveries[e])
    && (forall e :: e != d ==> (e in s'.core.txs <==> e in s.core.txs))
    && (forall e :: e != d && e in s.core.txs ==> s'.core.txs[e] == s.core.txs[e])
  }

  lemma OthersKeep(j: Journey, s: State, s': State, d: nat, e: nat)
    requires Grows(s, s') && SameElsewhere(s, s', d) && e != d && e in s.deliveries && DeliveryOk(j, s, e)
    ensures DeliveryOk(j, s', e)
  {
  }

  /** A step of delivery `d` keeps the invariant once its own delivery and the payments are fine. */
  lemma StepFrame(j: Journey, s: State, s': State, d: nat)
    requires Inv(j, s) && Grows(s, s') && SameElsewhere(s, s', d)
    requires C.Inv(s'.core) && PaymentsOk(j, s') && (s'.journey.Some? ==> s'.journey.value > 0)
    requires d in s'.deliveries ==> DeliveryOk(j, s', d)
    requires d in s'.core.txs ==> d in s'.deliveries && s'.deliveries[d].at.Confirming?
    ensures Inv(j, s')
  {
    hide C.Inv, Grows, PaymentsOk, DeliveryOk;
    forall e | e in s'.deliveries
      ensures DeliveryOk(j, s', e)
    {
      if e != d {
        OthersKeep(j, s, s', d, e);
      }
    }
  }

  lemma ClaimKeeps(j: Journey, s: State, a: Action)
    requires Inv(j, s) && Enabled(s, a) && (a.Arrive? || a.Claim?)
    ensures Inv(j, Apply(j, s, a)) && Grows(s, Apply(j, s, a))
  {
    hide C.Inv, PriorOk, RailPayment;
    StepFrame(j, s, Apply(j, s, a), a.d);
  }

  lemma ProbeKeeps(j: Journey, s: State, a: Action)
    requires Inv(j, s) && Enabled(s, a) && (a.Probe? || a.Replay?)
    ensures Inv(j, Apply(j, s, a)) && Grows(s, Apply(j, s, a))
  {
    hide C.Inv;
    StepFrame(j, s, Apply(j, s, a), a.d);
  }

  lemma InsertKeeps(j: Journey, s: State, d: nat, id: string)
    requires Inv(j, s) && Enabled(s, Insert(d, id))
    ensures Inv(j, Apply(j, s, Insert(d, id))) && Grows(s, Apply(j, s, Insert(d, id)))
  {
    hide C.Inv;
    var s' := Apply(j, s, Insert(d, id));
    if !Taken(s) {
      C.StepKeeps(s.core, C.Create(NewPayment(j, id, s.deliveries[d].amount)));
    }
    StepFrame(j, s, s', d);
  }

  /** The database part of a core step, as the journey sees it. */
  lemma CoreStep(s: C.State, a: C.Action)
    requires C.Inv(s) && C.Enabled(s, a) && (a.Read? || a.Update? || a.Post? || a.Commit? || a.Abort?)
    ensures C.Inv(C.Apply(s, a))
    ensures forall e :: e != a.tx ==> (e in C.Apply(s, a).txs <==> e in s.txs)
    ensures forall e :: e != a.tx && e in s.txs ==> C.Apply(s, a).txs[e] == s.txs[e]
    ensures !a.Commit? ==> C.Apply(s, a).db == s.db
    ensures a.Commit? ==>
              var tx := s.txs[a.tx];
              && tx.paymentId in s.db.payments && s.db.payments[tx.paymentId].confirmed.None? && a.tx !in C.Apply(s, a).txs
              && C.Apply(s, a).db.payments
                 == s.db.payments[tx.paymentId := s.db.payments[tx.paymentId].(state := Confirmed, confirmed := Some(tx.amount))]
    ensures (a.Update? || a.Post?) && a.tx in C.Apply(s, a).txs ==>
              C.Apply(s, a).txs[a.tx] == s.txs[a.tx].(phase := C.Apply(s, a).txs[a.tx].phase)
    ensures a.Read? && C.Decide(s.db, a.org, a.paymentId, a.amount, a.currency) == Proceed ==>
              && C.Apply(s, a).txs == s.txs[a.tx := C.Tx(a.org, a.paymentId, a.amount, a.currency, C.HasRead)]
              && a.paymentId in s.db.payments
    ensures a.Read? && C.Decide(s.db, a.org, a.paymentId, a.amount, a.currency) != Proceed ==> C.Apply(s, a) == s
    ensures a.Read? && C.Decide(s.db, a.org, a.paymentId, a.amount, a.currency) == AlreadyConfirmed ==>
              a.paymentId in s.db.payments && s.db.payments[a.paymentId].confirmed == Some(a.amount)
    ensures a.Abort? ==> a.tx !in C.Apply(s, a).txs
  {
    hide C.DbInv, JournalRef;
    C.StepKeeps(s, a);
    assert a.Commit? ==> C.Live(s.txs[a.tx], s.db);
  }

  /** A delivery with the payment in hand is never refused by the read: it goes on, or finds its money confirmed. */
  lemma ReadVerdict(j: Journey, s: State, d: nat)
    requires Inv(j, s) && d in s.deliveries && s.deliveries[d].at.HasPayment?
    ensures var id, amount := s.deliveries[d].at.id, s.deliveries[d].amount;
            && id in s.core.db.payments
            && C.Decide(s.core.db, j.org, id, amount, KES)
               == if s.core.db.payments[id].confirmed.Some? then AlreadyConfirmed else Proceed
  {
    hide JournalRef, C.FactsOf, C.LinesOwned, C.FactsOwned, C.TxInv;
    assert DeliveryOk(j, s, d);
    assert C.PaymentOk(s.core.db, s.deliveries[d].at.id);
  }

  /** The update always succeeds; the posting fails exactly when the payment is confirmed meanwhile. */
  lemma StageVerdict(j: Journey, s: State, d: nat)
    requires Inv(j, s) && d in s.deliveries && s.deliveries[d].at.Confirming?
    ensures var id := s.deliveries[d].at.id;
            && id in s.core.db.payments && d in s.core.txs
            && (C.Enabled(s.core, C.Update(d)) ==> d in C.Apply(s.core, C.Update(d)).txs)
            && (C.Enabled(s.core, C.Post(d)) ==>
                  (d in C.Apply(s.core, C.Post(d)).txs <==> s.core.db.payments[id].confirmed.None?))
  {
    hide JournalRef, C.FactsOf, C.LinesOwned, C.FactsOwned, C.TxInv;
    assert DeliveryOk(j, s, d);
    assert C.PaymentOk(s.core.db, s.deliveries[d].at.id);
  }

  lemma ReadKeeps(j: Journey, s: State, d: nat)
    requires Inv(j, s) && Enabled(s, Read(d))
    ensures Inv(j, Apply(j, s, Read(d))) && Grows(s, Apply(j, s, Read(d)))
  {
    hide C.Inv, C.Apply, C.Decide, PriorOk;
    var id, amount := s.deliveries[d].at.id, s.deliveries[d].amount;
    var s' := Apply(j, s, Read(d));
    assert DeliveryOk(j, s, d);
    ReadVerdict(j, s, d);
    CoreStep(s.core, C.Read(d, j.org, id, amount, KES));
    StepFrame(j, s, s', d);
  }

  lemma StageKeeps(j: Journey, s: State, a: Action)
    requires Inv(j, s) && Enabled(s, a) && (a.Update? || a.Post?)
    ensures Inv(j, Apply(j, s, a)) && Grows(s, Apply(j, s, a))
  {
    hide C.Inv, C.Apply, PriorOk, C.Enabled;
    assert DeliveryOk(j, s, a.d);
    StageVerdict(j, s, a.d);
    CoreStep(s.core, if a.Update? then C.Update(a.d) else C.Post(a.d));
    StepFrame(j, s, Apply(j, s, a), a.d);
  }

  lemma CommitKeeps(j: Journey, s: State, d: nat)
    requires Inv(j, s) && Enabled(s, Commit(d))
    ensures Inv(j, Apply(j, s, Commit(d))) && Grows(s, Apply(j, s, Commit(d)))
  {
    hide C.Inv, C.Apply, PriorOk, C.Enabled;
    assert DeliveryOk(j, s, d);
    CoreStep(s.core, C.Commit(d));
    var id := s.deliveries[d].at.id;
    var s' := Apply(j, s, Commit(d));
    assert s'.core.db.payments[id].confirmed == Some(s.deliveries[d].amount);
    StepFrame(j, s, s', d);
  }

  lemma DieKeeps(j: Journey, s: State, d: nat)
    requires Inv(j, s) && Enabled(s, Die(d))
    ensures Inv(j, Apply(j, s, Die(d))) && Grows(s, Apply(j, s, Die(d)))
  {
    hide C.Inv, RailPayment;
    if d in s.core.txs {
      CoreStep(s.core, C.Abort(d));
    }
    StepFrame(j, s, Apply(j, s, Die(d)), d);
  }

  lemma StepKeeps(j: Journey, s: State, a: Action)
    requires Inv(j, s) && Enabled(s, a)
    ensures Inv(j, Apply(j, s, a)) && Grows(s, Apply(j, s, a))
  {
    hide Inv, Grows, Enabled, Apply;
    match a
    case Insert(d, id) => InsertKeeps(j, s, d, id);
    case Read(d) => ReadKeeps(j, s, d);
    case Die(d) => DieKeeps(j, s, d);
    case Update(_) => StageKeeps(j, s, a);
    case Post(_) => StageKeeps(j, s, a);
    case Commit(d) => CommitKeeps(j, s, d);
    case Probe(_, _) => ProbeKeeps(j, s, a);
    case Replay(_, _) => ProbeKeeps(j, s, a);
    case _ => ClaimKeeps(j, s, a);
  }

  lemma {:induction false} RunKeeps(j: Journey, s: State, actions: seq<Action>)
    requires Inv(j, s) && Runs(j, s, actions)
    ensures Inv(j, Final(j, s, actions)) && Grows(s, Final(j, s, actions))
    decreases actions
  {
    hide Inv, Enabled, Apply;
    if actions != [] {
      StepKeeps(j, s, actions[0]);
      RunKeeps(j, Apply(j, s, actions[0]), actions[1..]);
    }
  }

  // -- the promise --------------------------------------------------------------

  /** At most one payment; it is for the claimed amount, and the journal holds its entry or nothing. */
  ghost predicate SettledAtMostOnce(s: State) {
    forall id :: id in s.core.db.payments ==>
      var db, p := s.core.db, s.core.db.payments[id];
      && db.payments.Keys == {id} && s.journey == Some(p.requested)
      && (p.confirmed.None? ==> db.lines.Keys == {} && db.facts == [])
      && (p.confirmed.Some? ==>
            && p.confirmed == s.journey && db.lines.Keys == {C.DebitKey(p.org, id), C.CreditKey(p.org, id)}
            && C.EntryTotals(db, p.org, id) == (p.requested, p.requested)
            && db.facts == [C.Fact(id, p.requested)])
  }

  lemma OnlyItsLines(j: Journey, s: State, id: string)
    requires Inv(j, s) && id in s.core.db.payments
    ensures var db, p := s.core.db, s.core.db.payments[id];
            db.lines.Keys <= {C.DebitKey(p.org, id), C.CreditKey(p.org, id)}
  {
    hide JournalRef, C.PaymentOk, C.TxInv;
    var db := s.core.db;
    forall k | k in db.lines
      ensures k in {C.DebitKey(db.payments[id].org, id), C.CreditKey(db.payments[id].org, id)}
    {
      var owner :| C.Owns(db, owner, k);
      assert owner == id;
    }
  }

  lemma {:induction false} AllOwnFacts(facts: seq<C.Fact>, id: string)
    requires forall i :: 0 <= i < |facts| ==> facts[i].paymentId == id
    ensures C.FactsOf(facts, id) == facts
  {
    if facts != [] {
      AllOwnFacts(facts[..|facts| - 1], id);
    }
  }

  lemma InvSettles(j: Journey, s: State)
    requires Inv(j, s)
    ensures SettledAtMostOnce(s)
  {
    hide JournalRef, C.FactsOf;
    forall id | id in s.core.db.payments
      ensures s.core.db.payments.Keys == {id}
      ensures s.core.db.payments[id].confirmed.None? ==> s.core.db.lines.Keys == {} && s.core.db.facts == []
      ensures s.core.db.payments[id].confirmed.Some? ==>
                var db, p := s.core.db, s.core.db.payments[id];
                && db.lines.Keys == {C.DebitKey(p.org, id), C.CreditKey(p.org, id)}
                && C.EntryTotals(db, p.org, id) == (p.requested, p.requested)
                && db.facts == [C.Fact(id, p.requested)]
    {
      assert C.PaymentOk(s.core.db, id);
      OnlyItsLines(j, s, id);
      AllOwnFacts(s.core.db.facts, id);
    }
  }

  /**
   * Every interleaving of deliveries settles the journey at most once, for the first claimed amount; the
   * durable key names exactly its payment, a delivery that completed leaves the payment confirmed for the
   * amount it carried, and one that was refused carried no money, other money, or money confirmed meanwhile.
   */
  lemma C2BSettlesOnce(j: Journey, actions: seq<Action>)
    requires Runs(j, START, actions)
    ensures var s := Final(j, START, actions);
            && SettledAtMostOnce(s)
            && (forall id :: id in s.core.db.payments <==> s.keyRef == Some(id))
            && (forall id :: id in s.core.db.payments ==> RailPayment(j, s.core.db.payments[id], id))
            && forall d :: d in s.deliveries && s.deliveries[d].at.Done? ==>
                 s.journey == Some(s.deliveries[d].amount) && ConfirmedFor(s, s.deliveries[d].amount)
    ensures var s := Final(j, START, actions);
            forall d :: d in s.deliveries && s.deliveries[d].at.Refused? ==>
              RefusedFor(s, s.deliveries[d].amount, s.deliveries[d].at.why)
  {
    hide SettledAtMostOnce;
    RunKeeps(j, START, actions);
    var s := Final(j, START, actions);
    InvSettles(j, s);
    assert forall d :: d in s.deliveries ==> DeliveryOk(j, s, d);
    forall d | d in s.deliveries && s.deliveries[d].at.Done?
      ensures s.journey == Some(s.deliveries[d].amount) && ConfirmedFor(s, s.deliveries[d].amount)
    {
      assert DeliveryOk(j, s, d);
    }
  }

  /** What a run settles, a longer run leaves in place. */
  lemma SettlementStays(j: Journey, s: State, actions: seq<Action>, id: string)
    requires Inv(j, s) && Runs(j, s, actions) && id in s.core.db.payments && s.core.db.payments[id].confirmed.Some?
    ensures var s' := Final(j, s, actions);
            && s'.journey == s.journey && s'.keyRef == s.keyRef == Some(id) && id in s'.core.db.payments
            && s'.core.db.payments[id].confirmed == s.core.db.payments[id].confirmed
  {
    RunKeeps(j, s, actions);
  }

  // -- altered amounts ----------------------------------------------------------

  /** Deliveries in `altered` carry, now and whenever they arrive, money other than the claimed amount. */
  ghost predicate Alters(s: State, actions: seq<Action>, altered: set<nat>) {
    && s.journey.Some?
    && (forall d :: d in altered && d in s.deliveries ==> s.deliveries[d].amount != s.journey.value)
    && (forall i :: 0 <= i < |actions| && actions[i].Arrive? && actions[i].d in altered ==>
          actions[i].amount != s.journey.value)
  }

  function Without(actions: seq<Action>, altered: set<nat>): seq<Action> {
    if actions == [] then []
    else (if actions[0].d in altered then [] else [actions[0]]) + Without(actions[1..], altered)
  }

  ghost function Hidden(s: State, altered: set<nat>): State {
    s.(deliveries := s.deliveries - altered)
  }

  lemma AlteredStepIsInert(j: Journey, s: State, a: Action, altered: set<nat>)
    requires Inv(j, s) && Enabled(s, a) && Alters(s, [a], altered) && a.d in altered
    ensures Hidden(Apply(j, s, a), altered) == Hidden(s, altered)
  {
    hide C.Inv;
    assert [a][0] == a;
    if a.d in s.deliveries {
      assert DeliveryOk(j, s, a.d);
      assert s.deliveries[a.d].at.Arrived? || s.deliveries[a.d].at.Refused?;
    }
    var s' := Apply(j, s, a);
    assert s'.deliveries - altered == s.deliveries - altered;
  }

  ghost predicate TouchesCore(a: Action) { a.Insert? || a.Read? || a.Update? || a.Post? || a.Commit? || a.Die? }

  lemma OtherIntakeIsUnmoved(j: Journey, s: State, a: Action, altered: set<nat>)
    requires Enabled(s, a) && a.d !in altered && !TouchesCore(a)
    ensures Enabled(Hidden(s, altered), a)
    ensures Hidden(Apply(j, s, a), altered) == Apply(j, Hidden(s, altered), a)
  {
    var h := Hidden(s, altered);
    assert Taken(h) <==> Taken(s);
    assert Apply(j, s, a).deliveries - altered == Apply(j, h, a).deliveries;
  }

  lemma OtherConfirmIsUnmoved(j: Journey, s: State, a: Action, altered: set<nat>)
    requires Enabled(s, a) && a.d !in altered && TouchesCore(a)
    ensures Enabled(Hidden(s, altered), a)
    ensures Hidden(Apply(j, s, a), altered) == Apply(j, Hidden(s, altered), a)
  {
    hide C.Enabled, C.Apply, C.Decide;
    var h := Hidden(s, altered);
    assert Taken(h) <==> Taken(s);
    assert Apply(j, s, a).deliveries - altered == Apply(j, h, a).deliveries;
  }

  /** A step changes no delivery's amount, and starts none but by arrival. */
  lemma AmountsStay(j: Journey, s: State, a: Action, d: nat)
    requires Enabled(s, a) && d in Apply(j, s, a).deliveries
    ensures if a.Arrive? && a.d == d then Apply(j, s, a).deliveries[d].amount == a.amount
            else d in s.deliveries && Apply(j, s, a).deliveries[d].amount == s.deliveries[d].amount
  {
    hide C.Apply, C.Decide, C.Enabled, PriorOk;
  }

  lemma AltersShifts(j: Journey, s: State, actions: seq<Action>, altered: set<nat>)
    requires Inv(j, s) && actions != [] && Enabled(s, actions[0]) && Alters(s, actions, altered)
    ensures Alters(s, [actions[0]], altered) && Alters(Apply(j, s, actions[0]), actions[1..], altered)
  {
    hide Inv, Apply, Enabled;
    StepKeeps(j, s, actions[0]);
    forall d | d in altered && d in Apply(j, s, actions[0]).deliveries
      ensures Apply(j, s, actions[0]).deliveries[d].amount != s.journey.value
    {
      AmountsStay(j, s, actions[0], d);
    }
    forall i | 0 <= i < |actions[1..]| && actions[1..][i].Arrive? && actions[1..][i].d in altered
      ensures actions[1..][i].amount != s.journey.value
    {
      assert actions[1..][i] == actions[i + 1];
    }
  }

  /** Striking every altered delivery from a run changes nothing durable and no honest delivery. */
  lemma {:induction false} AlteredAmountsChangeNothing(j: Journey, s: State, actions: seq<Action>, altered: set<nat>)
    requires Inv(j, s) && Runs(j, s, actions) && Alters(s, actions, altered)
    ensures Runs(j, Hidden(s, altered), Without(actions, altered))
    ensures Final(j, Hidden(s, altered), Without(actions, altered)) == Hidden(Final(j, s, actions), altered)
    decreases actions
  {
    hide Inv, Enabled, Apply, Alters, Hidden;
    if actions != [] {
      var a, rest := actions[0], actions[1..];
      AltersShifts(j, s, actions, altered);
      StepKeeps(j, s, a);
      AlteredAmountsChangeNothing(j, Apply(j, s, a), rest, altered);
      if a.d in altered {
        AlteredStepIsInert(j, s, a, altered);
        assert Without(actions, altered) == Without(rest, altered);
      } else {
        if TouchesCore(a) {
          OtherConfirmIsUnmoved(j, s, a, altered);
        } else {
          OtherIntakeIsUnmoved(j, s, a, altered);
        }
        RunPrepend(j, Hidden(s, altered), a, Without(rest, altered));
      }
    }
  }

  lemma RunPrepend(j: Journey, s: State, a: Action, rest: seq<Action>)
    requires Enabled(s, a) && Runs(j, Apply(j, s, a), rest)
    ensures Runs(j, s, [a] + rest) && Final(j, s, [a] + rest) == Final(j, Apply(j, s, a), rest)
  {
    hide Enabled, Apply;
    assert ([a] + rest)[1..] == rest;
  }

  // -- recovery -----------------------------------------------------------------

  /** No other delivery holds a row lock: each holder committed, aborted or died. */
  ghost predicate RowsFreeFor(s: State, d: nat) {
    forall t :: t in s.core.txs && t != d ==> s.core.txs[t].phase == C.HasRead
  }

  /** Steps of one delivery, which lives to take them. */
  ghost predicate Only(actions: seq<Action>, d: nat) {
    forall i :: 0 <= i < |actions| ==> actions[i].d == d && !actions[i].Die?
  }

  /** Where an undisturbed delivery ends: `Done`, unless it carries no money, other money, or confirms too late. */
  ghost function Ending(s: State, d: nat): Progress
    requires d in s.deliveries
  {
    var amount := s.deliveries[d].amount;
    match s.deliveries[d].at
    case Arrived =>
      if amount <= 0 then Refused(CheckViolation)
      else if s.journey.Some? && s.journey != Some(amount) then Refused(DuplicateAmountMismatch) else Done
    case Confirming(id) =>
      if id in s.core.db.payments && s.core.db.payments[id].confirmed.Some? then Refused(UniqueViolation) else Done
    case Refused(why) => Refused(why)
    case _ => Done
  }

  ghost predicate Ends(j: Journey, s: State, d: nat, actions: seq<Action>, at: Progress)
    requires d in s.deliveries
  {
    && Runs(j, s, actions) && Only(actions, d)
    && d in Final(j, s, actions).deliveries && Final(j, s, actions).deliveries[d] == Delivery(s.deliveries[d].amount, at)
  }

  lemma EndsNow(j: Journey, s: State, d: nat)
    requires d in s.deliveries
    ensures Ends(j, s, d, [], s.deliveries[d].at)
  {
  }

  lemma EndsAfter(j: Journey, s: State, d: nat, a: Action, rest: seq<Action>, at: Progress)
    requires d in s.deliveries && Enabled(s, a) && a.d == d && !a.Arrive? && !a.Die? && d in Apply(j, s, a).deliveries
    requires Ends(j, Apply(j, s, a), d, rest, at)
    ensures Ends(j, s, d, [a] + rest, at)
  {
    hide Enabled, Apply;
    AmountsStay(j, s, a, d);
    RunPrepend(j, s, a, rest);
  }

  function NextWrite(tx: C.Tx, d: nat): Action {
    match tx.phase
    case HasRead => Update(d)
    case HasUpdated => Post(d)
    case HasPosted => Commit(d)
  }

  function WritesLeft(s: State, d: nat): nat {
    if d !in s.core.txs then 0
    else match s.core.txs[d].phase
      case HasRead => 3
      case HasUpdated => 2
      case HasPosted => 1
  }

  /** Each write is enabled, and moves the delivery on towards its ending. */
  lemma WriteMoves(j: Journey, s: State, d: nat)
    requires Inv(j, s) && RowsFreeFor(s, d) && d in s.deliveries && s.deliveries[d].at.Confirming?
    ensures d in s.core.txs && Enabled(s, NextWrite(s.core.txs[d], d))
    ensures var s' := Apply(j, s, NextWrite(s.core.txs[d], d));
            && d in s'.deliveries && RowsFreeFor(s', d)
            && (if s'.deliveries[d].at.Confirming? then Ending(s', d) == Ending(s, d) && WritesLeft(s', d) < WritesLeft(s, d)
                else s'.deliveries[d].at == Ending(s, d))
  {
    hide JournalRef, C.FactsOf, C.LinesOwned, C.FactsOwned, C.Confirmed', C.PaymentOk;
    assert DeliveryOk(j, s, d);
    StageVerdict(j, s, d);
    assert C.Live(s.core.txs[d], s.core.db);
  }

  /** From the update on: a posting that meets no journal line is followed by the commit. */
  lemma {:induction false} WritesEnd(j: Journey, s: State, d: nat) returns (actions: seq<Action>)
    requires Inv(j, s) && RowsFreeFor(s, d) && d in s.deliveries && s.deliveries[d].at.Confirming?
    ensures Ends(j, s, d, actions, Ending(s, d))
    decreases WritesLeft(s, d)
  {
    hide Inv, Apply, Enabled, Ends, Ending, RowsFreeFor, WritesLeft;
    WriteMoves(j, s, d);
    var a := NextWrite(s.core.txs[d], d);
    var s' := Apply(j, s, a);
    StepKeeps(j, s, a);
    if s'.deliveries[d].at.Confirming? {
      actions := WritesEnd(j, s', d);
    } else {
      actions := [];
      EndsNow(j, s', d);
    }
    EndsAfter(j, s, d, a, actions, Ending(s, d));
    actions := [a] + actions;
  }

  lemma ReadMoves(j: Journey, s: State, d: nat)
    requires Inv(j, s) && RowsFreeFor(s, d) && d in s.deliveries && s.deliveries[d].at.HasPayment?
    ensures Enabled(s, Read(d))
    ensures var s' := Apply(j, s, Read(d));
            && d in s'.deliveries && RowsFreeFor(s', d)
            && (if s'.deliveries[d].at.Confirming? then Ending(s', d) == Done else s'.deliveries[d].at == Done)
  {
    hide C.Inv, C.Decide, PaymentsOk;
    assert DeliveryOk(j, s, d);
    ReadVerdict(j, s, d);
  }

  /** With the payment in hand, an undisturbed delivery confirms it or finds it confirmed. */
  lemma ConfirmFinishes(j: Journey, s: State, d: nat) returns (actions: seq<Action>)
    requires Inv(j, s) && RowsFreeFor(s, d) && d in s.deliveries && s.deliveries[d].at.HasPayment?
    ensures Ends(j, s, d, actions, Done)
  {
    hide Inv, Apply, Enabled, Ends, Ending, RowsFreeFor;
    ReadMoves(j, s, d);
    var s' := Apply(j, s, Read(d));
    StepKeeps(j, s, Read(d));
    if s'.deliveries[d].at.Confirming? {
      actions := WritesEnd(j, s', d);
    } else {
      actions := [];
      EndsNow(j, s', d);
    }
    EndsAfter(j, s, d, Read(d), actions, Done);
    actions := [Read(d)] + actions;
  }

  /** The payment of the journey is replayed to a delivery of the claimed amount, by the first probe or after a lost race. */
  lemma ReplayMoves(j: Journey, s: State, d: nat, prior: string)
    requires Inv(j, s) && RowsFreeFor(s, d) && (At(s, d, Claimed) || At(s, d, Raced)) && prior in s.core.db.payments
    ensures var a := if At(s, d, Claimed) then Probe(d, Some(prior)) else Replay(d, Some(prior));
            && Enabled(s, a) && At(Apply(j, s, a), d, HasPayment(prior)) && RowsFreeFor(Apply(j, s, a), d)
  {
    hide C.Inv;
    assert DeliveryOk(j, s, d);
  }

  /** A delivery of the claimed amount gets the payment in hand: its own, or the one that won the race. */
  lemma IntakeFinishes(j: Journey, s: State, d: nat, id: string) returns (actions: seq<Action>)
    requires Inv(j, s) && RowsFreeFor(s, d) && id !in s.core.db.payments
    requires At(s, d, Claimed) || At(s, d, Missing) || At(s, d, Raced)
    ensures Ends(j, s, d, actions, Done)
    decreases if At(s, d, Claimed) then 2 else if At(s, d, Missing) then 1 else 0
  {
    hide Inv, Apply, Enabled, Ends, RowsFreeFor;
    var a := IntakeStep(j, s, d, id);
    var s' := Apply(j, s, a);
    StepKeeps(j, s, a);
    if s'.deliveries[d].at.HasPayment? {
      actions := ConfirmFinishes(j, s', d);
    } else {
      actions := IntakeFinishes(j, s', d, id);
    }
    EndsAfter(j, s, d, a, actions, Done);
    actions := [a] + actions;
  }

  /** The next intake step of a delivery, and how far it gets. */
  lemma IntakeStep(j: Journey, s: State, d: nat, id: string) returns (a: Action)
    requires Inv(j, s) && RowsFreeFor(s, d) && id !in s.core.db.payments
    requires At(s, d, Claimed) || At(s, d, Missing) || At(s, d, Raced)
    ensures a.d == d && !a.Arrive? && !a.Die? && Enabled(s, a)
    ensures var s' := Apply(j, s, a);
            && d in s'.deliveries && RowsFreeFor(s', d)
            && (|| s'.deliveries[d].at.HasPayment?
                || (At(s, d, Claimed) && At(s', d, Missing) && id !in s'.core.db.payments)
                || (At(s, d, Missing) && At(s', d, Raced) && id !in s'.core.db.payments))
  {
    hide C.Inv, PaymentsOk;
    assert DeliveryOk(j, s, d);
    if At(s, d, Missing) {
      a := Insert(d, id);
    } else if Taken(s) {
      var prior :| prior in s.core.db.payments;
      ReplayMoves(j, s, d, prior);
      a := if At(s, d, Claimed) then Probe(d, Some(prior)) else Replay(d, Some(prior));
    } else {
      a := Probe(d, None);
    }
  }

  lemma ClaimMoves(j: Journey, s: State, d: nat)
    requires Inv(j, s) && RowsFreeFor(s, d) && At(s, d, Arrived)
    ensures Enabled(s, Claim(d))
    ensures var s' := Apply(j, s, Claim(d));
            && d in s'.deliveries && RowsFreeFor(s', d) && s'.core == s.core
            && s'.deliveries[d].at == if Ending(s, d) == Done then Claimed else Ending(s, d)
  {
    hide C.Inv, PaymentsOk;
  }

  /**
   * Every delivery, wherever it stands, ends by its own steps once no other holds the row: completed and
   * confirmed for its amount, unless it carries no money or other money than the journey's, or read the
   * payment before another delivery confirmed it.
   */
  lemma UndisturbedEnds(j: Journey, s: State, d: nat, id: string) returns (actions: seq<Action>)
    requires Inv(j, s) && RowsFreeFor(s, d) && d in s.deliveries && id !in s.core.db.payments
    ensures Ends(j, s, d, actions, Ending(s, d))
    ensures Ending(s, d) == Done ==> ConfirmedFor(Final(j, s, actions), s.deliveries[d].amount)
  {
    hide Inv, Apply, Enabled, RowsFreeFor, ConfirmedFor, Ends, Ending;
    actions := EndOf(j, s, d, id);
    if Ending(s, d) == Done {
      EndIsConfirmed(j, s, d, actions);
    }
  }

  lemma EndOf(j: Journey, s: State, d: nat, id: string) returns (actions: seq<Action>)
    requires Inv(j, s) && RowsFreeFor(s, d) && d in s.deliveries && id !in s.core.db.payments
    ensures Ends(j, s, d, actions, Ending(s, d))
  {
    hide Inv, Apply, Enabled, Ends, RowsFreeFor;
    match s.deliveries[d].at
    case Arrived =>
      ClaimMoves(j, s, d);
      StepKeeps(j, s, Claim(d));
      var s' := Apply(j, s, Claim(d));
      if Ending(s, d) == Done {
        actions := IntakeFinishes(j, s', d, id);
      } else {
        actions := [];
        EndsNow(j, s', d);
      }
      EndsAfter(j, s, d, Claim(d), actions, Ending(s, d));
      actions := [Claim(d)] + actions;
    case Confirming(_) => actions := WritesEnd(j, s, d);
    case HasPayment(_) => actions := ConfirmFinishes(j, s, d);
    case Done => actions := []; EndsNow(j, s, d);
    case Refused(_) => actions := []; EndsNow(j, s, d);
    case _ => actions := IntakeFinishes(j, s, d, id);
  }

  lemma EndIsConfirmed(j: Journey, s: State, d: nat, actions: seq<Action>)
    requires Inv(j, s) && d in s.deliveries && Ends(j, s, d, actions, Done)
    ensures ConfirmedFor(Final(j, s, actions), s.deliveries[d].amount)
  {
    hide Apply, Enabled, C.Inv, PaymentsOk;
    RunKeeps(j, s, actions);
    assert DeliveryOk(j, Final(j, s, actions), d);
  }

  /**
   * Wherever earlier deliveries stopped, one more undisturbed delivery of the claimed amount settles
   * the journey.
   */
  lemma RedeliverySettles(j: Journey, s: State, d: nat, amount: int, id: string) returns (actions: seq<Action>)
    requires Inv(j, s) && RowsFreeFor(s, d) && d !in s.deliveries && id !in s.core.db.payments
    requires amount > 0 && (s.journey.None? || s.journey == Some(amount))
    ensures Runs(j, s, actions) && Only(actions, d)
    ensures At(Final(j, s, actions), d, Done) && ConfirmedFor(Final(j, s, actions), amount)
  {
    hide C.Inv, PaymentsOk, ConfirmedFor, Enabled;
    var arrive := Arrive(d, amount);
    ArriveMoves(j, s, d, amount);
    var s' := Apply(j, s, arrive);
    StepKeeps(j, s, arrive);
    actions := UndisturbedEnds(j, s', d, id);
    RunPrepend(j, s, arrive, actions);
    actions := [arrive] + actions;
  }

  lemma ArriveMoves(j: Journey, s: State, d: nat, amount: int)
    requires Inv(j, s) && RowsFreeFor(s, d) && d !in s.deliveries
    ensures Enabled(s, Arrive(d, amount))
    ensures var s' := Apply(j, s, Arrive(d, amount));
            s' == s.(deliveries := s'.deliveries) && At(s', d, Arrived) && s'.deliveries[d].amount == amount && RowsFreeFor(s', d)
  {
    hide C.Inv, PaymentsOk;
  }
}
