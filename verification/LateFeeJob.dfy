/** The late-fee job: which overdue receivables one pass charges, and which no pass ever does. */
module LateFeeJob {
  import opened GoTime
  import opened Payments
  import opened Text
  import EventLog
  import opened ScanOrder
  import opened Stamps
  import opened LateFee
  import opened Claims

  /** A receivable's lifecycle as the job sees it; closed stands for every state that is not live. */
  datatype DebtState = Open | PartiallyPaid | Closed

  /** A receivable's row. The table admits the supported currencies only, so reading a row never fails on its money. */
  datatype Debt = Debt(
    org: string, currency: string, due: int, overdue: bool, original: Cents, applied: Cents, state: DebtState)

  /** The receivables by id. */
  type Debts = map<string, Debt>

  function StateText(s: DebtState): string {
    match s
    case Open => "open"
    case PartiallyPaid => "partially_paid"
    case Closed => "closed"
  }

  function LikeOf(id: string, d: Debt): Receivable {
    Receivable(id, d.currency, d.due, d.overdue, Money(d.original, d.currency), Money(d.applied, d.currency),
               StateText(d.state))
  }

  /** The scan: live, with a balance, and overdue by flag or by date. */
  predicate Overdue(d: Debt, now: int) { d.state != Closed && d.original > d.applied && (d.overdue || d.due < now) }

  function SlotOf(debts: Debts, id: string): Slot
    requires id in debts
  {
    Slot(debts[id].due, id)
  }

  function Candidates(debts: Debts, now: int): set<Slot> {
    set id | id in debts && Overdue(debts[id], now) :: SlotOf(debts, id)
  }

  /** The accrual of one receivable: the month's key, and no fees carried along. */
  function Charge(debts: Debts, id: string, p: Policy, now: int): Accrual
    requires id in debts
  {
    Accrue(LikeOf(id, debts[id]), p, PeriodKey(now), now, [], [])
  }

  /** Refusals the job counts and passes over; any other ends the pass. */
  predicate Skippable(why: FeeRefusal) {
    why == NotOverdue || why == WithinGrace || why == ZeroBalance || why == NotLive
  }

  predicate Stops(a: Accrual) { a.Refused? && !Skippable(a.why) }

  function FeeEffect(debts: Debts, id: string, now: int): Effect
    requires id in debts
  {
    Effect(debts[id].org, ChargeFee(id), now)
  }

  predicate Listing(debts: Debts, slots: seq<Slot>) { forall i :: 0 <= i < |slots| ==> slots[i].id in debts }

  /** The rows of a pass before the first that ends it. */
  function Reached(debts: Debts, slots: seq<Slot>, p: Policy, now: int): (n: nat)
    requires Listing(debts, slots)
    ensures n <= |slots|
  {
    if slots == [] || Stops(Charge(debts, slots[0].id, p, now)) then 0 else 1 + Reached(debts, slots[1..], p, now)
  }

  lemma {:induction false} ReachedIs(debts: Debts, slots: seq<Slot>, p: Policy, now: int)
    requires Listing(debts, slots)
    ensures var n := Reached(debts, slots, p, now);
            && (forall i :: 0 <= i < n ==> !Stops(Charge(debts, slots[i].id, p, now)))
            && (n < |slots| ==> Stops(Charge(debts, slots[n].id, p, now)))
    decreases slots
  {
    hide Charge, Stops;
    if slots != [] && !Stops(Charge(debts, slots[0].id, p, now)) {
      ReachedIs(debts, slots[1..], p, now);
      assert forall i :: 0 < i < |slots| ==> slots[i] == slots[1..][i - 1];
    }
  }

  /** Why a pass over the rows ends before its last, if it does. */
  function StoppedBy(debts: Debts, slots: seq<Slot>, p: Policy, now: int): Option<FeeRefusal>
    requires Listing(debts, slots)
  {
    var n := Reached(debts, slots, p, now);
    if n < |slots| && Charge(debts, slots[n].id, p, now).Refused?
    then Some(Charge(debts, slots[n].id, p, now).why) else None
  }

  function Charged(s: State, debts: Debts, id: string, p: Policy, now: int): State
    requires id in debts
  {
    if Charge(debts, id, p, now).Accrued? then Claimed(s, FeeEffect(debts, id, now)) else s
  }

  function ChargeAll(s: State, debts: Debts, slots: seq<Slot>, p: Policy, now: int): State
    requires Listing(debts, slots)
  {
    if slots == [] then s
    else Charged(ChargeAll(s, debts, slots[..|slots| - 1], p, now), debts, slots[|slots| - 1].id, p, now)
  }

  ghost function Scan(debts: Debts, now: int, batch: nat): (slots: seq<Slot>)
    ensures Listing(debts, slots)
  {
    var slots := First(Candidates(debts, now), batch);
    assert forall i :: 0 <= i < |slots| ==> slots[i] in Candidates(debts, now);
    slots
  }

  /** One pass: the scan, charged in its order up to the first row that ends it. */
  ghost function FeePass(s: State, debts: Debts, now: int, p: Policy, batch: nat): State {
    var slots := Scan(debts, now, batch);
    ChargeAll(s, debts, slots[..Reached(debts, slots, p, now)], p, now)
  }

  datatype FeeOutcome = Done | Halted(why: FeeRefusal) | BatchInvalid

  class FeeStore {
    var debts: Debts
    var state: State

    constructor (debts: Debts)
      ensures this.debts == debts && state == START
    {
      this.debts := debts;
      state := START;
    }

    /** The claim and its event, unless the month is charged. */
    method ClaimFee(id: string, p: Policy, now: int) returns (refused: Option<FeeRefusal>, emitted: nat)
      requires id in debts
      modifies this`state
      ensures var a := Charge(debts, id, p, now); refused == if Stops(a) then Some(a.why) else None
      ensures state == Charged(old(state), debts, id, p, now) && |state.outbox| == |old(state).outbox| + emitted
    {
      hide Charge, ClaimOf;
      var a := Charge(debts, id, p, now);
      if Stops(a) {
        return Some(a.why), 0;
      }
      if !a.Accrued? {
        return None, 0;
      }
      var e := FeeEffect(debts, id, now);
      emitted := if ClaimOf(e) in state.claims then 0 else 1;
      state := Claimed(state, e);
      return None, emitted;
    }

    /** The rows in order, up to the first that ends the pass. */
    method ChargeRows(slots: seq<Slot>, p: Policy, now: int) returns (refused: Option<FeeRefusal>, emitted: nat)
      requires Listing(debts, slots)
      modifies this`state
      ensures state == ChargeAll(old(state), debts, slots[..Reached(debts, slots, p, now)], p, now)
      ensures refused == StoppedBy(debts, slots, p, now)
      ensures |state.outbox| == |old(state).outbox| + emitted
    {
      hide Charge, Charged, Reached;
      emitted := 0;
      ReachedIs(debts, slots, p, now);
      ghost var n := Reached(debts, slots, p, now);
      for i := 0 to |slots|
        invariant i <= n && state == ChargeAll(old(state), debts, slots[..i], p, now)
        invariant |state.outbox| == |old(state).outbox| + emitted
      {
        assert slots[..i + 1][..i] == slots[..i];
        StoppedAddsNothing(state, debts, slots[i].id, p, now);
        var why, more := ClaimFee(slots[i].id, p, now);
        emitted := emitted + more;
        if why.Some? {
          return why, emitted;
        }
      }
      return None, emitted;
    }

    /** The job: an invalid policy or batch is refused before anything is read. */
    method RunLateFee(now: int, p: Policy, batch: int) returns (outcome: FeeOutcome, emitted: nat)
      modifies this`state
      ensures PolicyRefusal(p).Some? ==> outcome == Halted(PolicyRefusal(p).value) && state == old(state)
      ensures PolicyRefusal(p).None? && batch < 1 ==> outcome == BatchInvalid && state == old(state)
      ensures PolicyRefusal(p).None? && batch >= 1 ==>
                && state == FeePass(old(state), debts, now, p, batch)
                && var why := StoppedBy(debts, Scan(debts, now, batch), p, now);
                   outcome == if why.Some? then Halted(why.value) else Done
      ensures |state.outbox| == |old(state).outbox| + emitted
    {
      hide StoppedBy, Reached, ChargeAll, Candidates;
      var invalid := PolicyRefusal(p);
      if invalid.Some? {
        return Halted(invalid.value), 0;
      }
      if batch < 1 {
        return BatchInvalid, 0;
      }
      var slots := Select(Candidates(debts, now), batch);
      assert slots == Scan(debts, now, batch);
      var why;
      why, emitted := ChargeRows(slots, p, now);
      return if why.Some? then Halted(why.value) else Done, emitted;
    }
  }

  lemma StoppedAddsNothing(s: State, debts: Debts, id: string, p: Policy, now: int)
    requires id in debts
    ensures Stops(Charge(debts, id, p, now)) ==> Charged(s, debts, id, p, now) == s
  {
    hide Charge;
  }

  lemma {:induction false} ChargesAreARun(s: State, debts: Debts, slots: seq<Slot>, p: Policy, now: int)
    returns (actions: seq<Action>)
    requires s.txs == map[] && Listing(debts, slots)
    ensures Runs(s, actions) && Final(s, actions) == ChargeAll(s, debts, slots, p, now)
    ensures ChargeAll(s, debts, slots, p, now).txs == map[]
  {
    hide Charge, Claimed;
    actions := [];
    if slots != [] {
      var front, last := slots[..|slots| - 1], slots[|slots| - 1];
      actions := ChargesAreARun(s, debts, front, p, now);
      if Charge(debts, last.id, p, now).Accrued? {
        var more := ClaimIsARun(ChargeAll(s, debts, front, p, now), FeeEffect(debts, last.id, now));
        RunConcat(s, actions, more);
        actions := actions + more;
      }
    }
  }

  /** A pass only runs whole claiming transactions, so every exactly-once result covers it. */
  lemma FeePassIsARun(s: State, debts: Debts, now: int, p: Policy, batch: nat) returns (actions: seq<Action>)
    requires s.txs == map[]
    ensures Runs(s, actions) && Final(s, actions) == FeePass(s, debts, now, p, batch)
  {
    hide ChargeAll, Scan, Reached;
    var slots := Scan(debts, now, batch);
    actions := ChargesAreARun(s, debts, slots[..Reached(debts, slots, p, now)], p, now);
  }

  // -- what a pass leaves alone -------------------------------------------------

  predicate FeeKeyOf(c: Claim, id: string) { c.scope == LateFees && id + ":" <= c.key }

  /** From `s` to `t` claims and events were added, no fee on the receivable among them. */
  ghost predicate NoFeeFor(s: State, t: State, id: string) {
    && s.claims <= t.claims && s.outbox <= t.outbox
    && (forall c :: c in t.claims && c !in s.claims ==> !FeeKeyOf(c, id))
    && (forall i :: |s.outbox| <= i < |t.outbox| ==> t.outbox[i].job != ChargeFee(id))
  }

  lemma NoFeeStill(s: State, t: State, u: State, id: string)
    requires NoFeeFor(s, t, id) && NoFeeFor(t, u, id)
    ensures NoFeeFor(s, u, id)
  {
    hide FeeKeyOf;
    forall i | |s.outbox| <= i < |u.outbox|
      ensures u.outbox[i].job != ChargeFee(id)
    {
      if i < |t.outbox| {
        assert u.outbox[i] == t.outbox[i];
      }
    }
  }

  /** Ids are UUIDs: none holds a colon. */
  ghost predicate PlainDebts(debts: Debts) { forall id :: id in debts ==> Plain(id) }

  lemma OtherFee(s: State, debts: Debts, r: string, p: Policy, now: int, id: string)
    requires r in debts && Plain(r) && Plain(id) && r != id
    ensures NoFeeFor(s, Charged(s, debts, r, p, now), id)
  {
    hide Charge, PeriodKey;
    if id + ":" <= r + ":" + PeriodKey(now) {
      OtherKey(r, PeriodKey(now), id);
    }
  }

  lemma {:induction false} OthersCharged(s: State, debts: Debts, slots: seq<Slot>, p: Policy, now: int, id: string)
    requires Listing(debts, slots) && PlainDebts(debts) && Plain(id)
    requires forall i :: 0 <= i < |slots| ==> slots[i].id != id
    ensures NoFeeFor(s, ChargeAll(s, debts, slots, p, now), id)
  {
    hide NoFeeFor, Charged;
    if slots == [] {
      NoFeeYet(s, id);
    } else {
      var front, last := slots[..|slots| - 1], slots[|slots| - 1];
      OthersCharged(s, debts, front, p, now, id);
      OtherFee(ChargeAll(s, debts, front, p, now), debts, last.id, p, now, id);
      NoFeeStill(s, ChargeAll(s, debts, front, p, now), ChargeAll(s, debts, slots, p, now), id);
    }
  }

  lemma NoFeeYet(s: State, id: string)
    ensures NoFeeFor(s, s, id)
  {
  }

  lemma {:induction false} AllCharged(s: State, debts: Debts, slots: seq<Slot>, p: Policy, now: int)
    requires Listing(debts, slots)
    ensures s.claims <= ChargeAll(s, debts, slots, p, now).claims
    ensures forall i :: 0 <= i < |slots| && Charge(debts, slots[i].id, p, now).Accrued? ==>
              ClaimOf(FeeEffect(debts, slots[i].id, now)) in ChargeAll(s, debts, slots, p, now).claims
  {
    hide Charge, ClaimOf;
    if slots != [] {
      var front := slots[..|slots| - 1];
      AllCharged(s, debts, front, p, now);
      assert forall i :: 0 <= i < |front| ==> front[i] == slots[i];
    }
  }

  // -- one pass, exactly --------------------------------------------------------

  /** The scan's predicate hides no charge. */
  lemma ScanHidesNoFee(debts: Debts, id: string, p: Policy, now: int)
    requires id in debts && Charge(debts, id, p, now).Accrued?
    ensures SlotOf(debts, id) in Candidates(debts, now)
  {
    hide Strip, PeriodKey, WholeDaysLate, FeeAmount, FeeRow;
    var d := debts[id];
    assert FreshCharge(LikeOf(id, d), p, Strip(PeriodKey(now), true), now).Accrued?;
    assert Eligible(LikeOf(id, d), p, now).Yes?;
    assert Overdue(d, now);
  }

  /** Some candidate ahead of the receivable ends the pass, or `batch` of them fill it. */
  ghost predicate Cut(debts: Debts, id: string, p: Policy, now: int, batch: nat)
    requires id in debts
  {
    var ahead := Preceding(Candidates(debts, now), SlotOf(debts, id));
    |ahead| >= batch || exists c :: c in ahead && c.id in debts && Stops(Charge(debts, c.id, p, now))
  }

  lemma SlotsHaveIds(debts: Debts, now: int, batch: nat, k: nat)
    requires k < |Scan(debts, now, batch)|
    ensures Scan(debts, now, batch)[k].id in debts
    ensures Scan(debts, now, batch)[k] == SlotOf(debts, Scan(debts, now, batch)[k].id)
  {
    hide First, Overdue;
    assert Scan(debts, now, batch)[k] in Candidates(debts, now);
  }

  /** Not cut off, the receivable is among the rows reached. */
  lemma UncutIsReached(debts: Debts, id: string, p: Policy, now: int, batch: nat) returns (k: nat)
    requires id in debts && Charge(debts, id, p, now).Accrued? && !Cut(debts, id, p, now, batch)
    ensures k < Reached(debts, Scan(debts, now, batch), p, now) && Scan(debts, now, batch)[k].id == id
  {
    hide First, Preceding, Charge, Overdue, Reached;
    ScanHidesNoFee(debts, id, p, now);
    var slots, slot := Scan(debts, now, batch), SlotOf(debts, id);
    SelectedExactly(Candidates(debts, now), batch, slot);
    k :| 0 <= k < |slots| && slots[k] == slot;
    SelectedAfter(Candidates(debts, now), batch, k);
    forall j | 0 <= j < k
      ensures !Stops(Charge(debts, slots[j].id, p, now))
    {
      assert slots[j] in Preceding(Candidates(debts, now), slot);
    }
    ReachedIs(debts, slots, p, now);
  }

  /** Cut off, it is not. */
  lemma CutIsNotReached(debts: Debts, id: string, p: Policy, now: int, batch: nat, i: nat)
    requires id in debts && Cut(debts, id, p, now, batch)
    requires i < Reached(debts, Scan(debts, now, batch), p, now)
    ensures Scan(debts, now, batch)[i].id != id
  {
    hide First, Preceding, Charge, Overdue, Reached;
    var slots := Scan(debts, now, batch);
    ReachedIs(debts, slots, p, now);
    SlotsHaveIds(debts, now, batch, i);
    SelectedAfter(Candidates(debts, now), batch, i);
    var before := set j | 0 <= j < i :: slots[j];
    assert forall c :: c in before ==> exists j :: 0 <= j < i && slots[j] == c;
  }

  /**
   * A pass charges a chargeable receivable not yet charged in the month exactly when fewer than `batch`
   * candidates precede it and none of those ends the pass.
   */
  lemma PassChargesExactly(s: State, debts: Debts, id: string, p: Policy, now: int, batch: nat)
    requires PlainDebts(debts) && id in debts && Charge(debts, id, p, now).Accrued?
    requires ClaimOf(FeeEffect(debts, id, now)) !in s.claims
    ensures ClaimOf(FeeEffect(debts, id, now)) in FeePass(s, debts, now, p, batch).claims
            <==> !Cut(debts, id, p, now, batch)
  {
    hide Scan, Charge, ChargeAll, ClaimOf, Cut, Reached;
    var slots := Scan(debts, now, batch);
    var n := Reached(debts, slots, p, now);
    if Cut(debts, id, p, now, batch) {
      PassSkips(s, debts, id, p, now, batch);
      OwnFeeKey(debts, id, now);
    } else {
      var k := UncutIsReached(debts, id, p, now, batch);
      AllCharged(s, debts, slots[..n], p, now);
      assert slots[..n][k] == slots[k];
    }
  }

  lemma OwnFeeKey(debts: Debts, id: string, now: int)
    requires id in debts
    ensures FeeKeyOf(ClaimOf(FeeEffect(debts, id, now)), id)
  {
    hide PeriodKey;
  }

  lemma PassSkips(s: State, debts: Debts, id: string, p: Policy, now: int, batch: nat)
    requires PlainDebts(debts) && id in debts && Cut(debts, id, p, now, batch)
    ensures NoFeeFor(s, FeePass(s, debts, now, p, batch), id)
  {
    hide Scan, Charge, ChargeAll, Cut, NoFeeFor, Reached;
    var slots := Scan(debts, now, batch);
    var n := Reached(debts, slots, p, now);
    forall i | 0 <= i < n
      ensures slots[..n][i].id != id
    {
      CutIsNotReached(debts, id, p, now, batch, i);
    }
    OthersCharged(s, debts, slots[..n], p, now, id);
  }

  // -- the same, in the table's own terms ---------------------------------------

  /** Live, with a balance, and overdue by flag or by date. */
  predicate Late(d: Debt, now: int) {
    (d.state == Open || d.state == PartiallyPaid) && d.original > d.applied && (d.overdue || d.due < now)
  }

  predicate AfterGrace(d: Debt, p: Policy, now: int) {
    now - d.due >= (p.grace + 1) * DAY && (p.grace + 1) * DAY <= MAX_DURATION
  }

  /** The fee on the balance, and the balance, can be booked. */
  predicate Bookable(d: Debt, p: Policy)
    requires PolicyRefusal(p).None? && d.original >= d.applied
  {
    && SupportedCurrency(d.currency) && d.original - d.applied <= MAX_SAFE
    && 0 <= FeeAmount(p, d.original - d.applied) <= MAX_SAFE
  }

  /** The late receivables due before one, or with it and of a smaller id. */
  function Queue(debts: Debts, id: string, now: int): set<string>
    requires id in debts
  {
    set x | x in debts && Late(debts[x], now)
            && (debts[x].due < debts[id].due || (debts[x].due == debts[id].due && EventLog.StringLess(x, id)))
  }

  /** A late receivable's charge: made, put off by the grace, or the end of the pass. */
  lemma LateCharge(debts: Debts, id: string, p: Policy, now: int)
    requires id in debts && PolicyRefusal(p).None?
    ensures var d, a := debts[id], Charge(debts, id, p, now);
            && (a.Accrued? <==> Late(d, now) && AfterGrace(d, p, now) && Bookable(d, p))
            && (Late(d, now) ==> (Stops(a) <==> AfterGrace(d, p, now) && !Bookable(d, p)))
  {
    hide Strip, PeriodKey, FeeAmount, FreshCharge;
    PeriodIsTight(now);
    var like := LikeOf(id, debts[id]);
    ChargedExactly(like, p, PeriodKey(now), now);
    if FreshCharge(like, p, PeriodKey(now), now).Refused? {
      RefusedForCause(like, p, PeriodKey(now), now);
    }
  }

  lemma {:induction false} SlotsOf(debts: Debts, ids: set<string>)
    requires forall x :: x in ids ==> x in debts
    ensures |set x | x in ids && x in debts :: SlotOf(debts, x)| == |ids|
    decreases |ids|
  {
    if ids != {} {
      var y :| y in ids;
      var rest := ids - {y};
      SlotsOf(debts, rest);
      assert (set x | x in ids && x in debts :: SlotOf(debts, x))
          == (set x | x in rest && x in debts :: SlotOf(debts, x)) + {SlotOf(debts, y)};
    }
  }

  lemma QueuePrecedes(debts: Debts, id: string, now: int)
    requires id in debts
    ensures var ahead := Preceding(Candidates(debts, now), SlotOf(debts, id));
            && ahead == (set x | x in Queue(debts, id, now) && x in debts :: SlotOf(debts, x))
            && |ahead| == |Queue(debts, id, now)|
  {
    hide EventLog.StringLess;
    var queue := Queue(debts, id, now);
    var ahead := Preceding(Candidates(debts, now), SlotOf(debts, id));
    SlotsOf(debts, queue);
    forall x | x in queue
      ensures SlotOf(debts, x) in ahead
    {
      assert SlotOf(debts, x) in Candidates(debts, now);
    }
    forall c | c in ahead
      ensures c.id in queue && c == SlotOf(debts, c.id)
    {
    }
  }

  lemma CutExactly(debts: Debts, id: string, p: Policy, now: int, batch: nat)
    requires id in debts && PolicyRefusal(p).None?
    ensures Cut(debts, id, p, now, batch) <==>
            || |Queue(debts, id, now)| >= batch
            || exists x :: x in Queue(debts, id, now) && AfterGrace(debts[x], p, now) && !Bookable(debts[x], p)
  {
    hide Preceding, Candidates, Charge, Stops, Bookable, AfterGrace, EventLog.StringLess;
    QueuePrecedes(debts, id, now);
    forall x | x in Queue(debts, id, now)
      ensures Stops(Charge(debts, x, p, now)) <==> AfterGrace(debts[x], p, now) && !Bookable(debts[x], p)
    {
      LateCharge(debts, x, p, now);
    }
    var ahead := Preceding(Candidates(debts, now), SlotOf(debts, id));
    if x :| x in Queue(debts, id, now) && AfterGrace(debts[x], p, now) && !Bookable(debts[x], p) {
      assert SlotOf(debts, x) in ahead && SlotOf(debts, x).id == x;
    }
  }

  function MonthClaim(debts: Debts, id: string, now: int): Claim
    requires id in debts
  {
    Claim(debts[id].org, LateFees, id + ":" + PeriodKey(now))
  }

  /** Only a charge makes a receivable's claim. */
  lemma {:induction false} ClaimedByCharge(s: State, debts: Debts, slots: seq<Slot>, p: Policy, now: int, id: string)
    requires Listing(debts, slots) && PlainDebts(debts) && id in debts
    requires MonthClaim(debts, id, now) !in s.claims && !Charge(debts, id, p, now).Accrued?
    ensures MonthClaim(debts, id, now) !in ChargeAll(s, debts, slots, p, now).claims
  {
    hide Charge, PeriodKey;
    if slots != [] {
      var front, r := slots[..|slots| - 1], slots[|slots| - 1].id;
      ClaimedByCharge(s, debts, front, p, now, id);
      if id + ":" + PeriodKey(now) == r + ":" + PeriodKey(now) {
        SplitAtColon(id, PeriodKey(now), r, PeriodKey(now));
      }
    }
  }

  /**
   * A pass charges a receivable for the month, under its own org, exactly when it is late and past the grace,
   * its fee can be booked, fewer than `batch` late ones come before it and none of those has a fee that is due
   * and cannot be booked.
   */
  lemma PassChargesPlainly(s: State, debts: Debts, id: string, p: Policy, now: int, batch: nat)
    requires PlainDebts(debts) && id in debts && PolicyRefusal(p).None? && MonthClaim(debts, id, now) !in s.claims
    ensures MonthClaim(debts, id, now) in FeePass(s, debts, now, p, batch).claims <==>
            && Late(debts[id], now) && AfterGrace(debts[id], p, now) && Bookable(debts[id], p)
            && |Queue(debts, id, now)| < batch
            && forall x :: x in Queue(debts, id, now) ==> !AfterGrace(debts[x], p, now) || Bookable(debts[x], p)
  {
    hide Scan, Charge, ChargeAll, Cut, Reached, PeriodKey, Queue, Late, AfterGrace, Bookable;
    LateCharge(debts, id, p, now);
    assert ClaimOf(FeeEffect(debts, id, now)) == MonthClaim(debts, id, now);
    if Charge(debts, id, p, now).Accrued? {
      PassChargesExactly(s, debts, id, p, now, batch);
      CutExactly(debts, id, p, now, batch);
    } else {
      var slots := Scan(debts, now, batch);
      ClaimedByCharge(s, debts, slots[..Reached(debts, slots, p, now)], p, now, id);
    }
  }

  // -- passes without end -------------------------------------------------------

  datatype Tick = Tick(debts: Debts, now: int)

  ghost function FeePasses(s: State, ticks: seq<Tick>, p: Policy, batch: nat): State
    decreases ticks
  {
    if ticks == [] then s else FeePasses(FeePass(s, ticks[0].debts, ticks[0].now, p, batch), ticks[1..], p, batch)
  }

  ghost predicate CutAt(tick: Tick, id: string, p: Policy, batch: nat) {
    PlainDebts(tick.debts) && id in tick.debts && Cut(tick.debts, id, p, tick.now, batch)
  }

  /** However many passes run, at whatever instants, they never charge a receivable each of them is cut off before. */
  lemma {:induction false} NeverCharged(s: State, ticks: seq<Tick>, id: string, p: Policy, batch: nat)
    requires forall i :: 0 <= i < |ticks| ==> CutAt(ticks[i], id, p, batch)
    ensures NoFeeFor(s, FeePasses(s, ticks, p, batch), id)
    decreases ticks
  {
    hide NoFeeFor, FeePass, Cut;
    if ticks == [] {
      NoFeeYet(s, id);
    } else {
      var t := FeePass(s, ticks[0].debts, ticks[0].now, p, batch);
      assert CutAt(ticks[0], id, p, batch);
      PassSkips(s, ticks[0].debts, id, p, ticks[0].now, batch);
      NeverCharged(t, ticks[1..], id, p, batch);
      NoFeeStill(s, t, FeePasses(s, ticks, p, batch), id);
    }
  }

  // -- two queues that never move -----------------------------------------------

  const ONE_CENT := Policy(Flat, Some(1), None, None, 0)

  /** Overdue since the epoch, at two days' distance or more: charged a cent, or beyond the safe range refused. */
  lemma OneCentCharge(id: string, balance: Cents, now: int)
    requires balance > 0 && now >= 2 * DAY
    ensures var d := Debt("o", "KES", 0, true, balance, 0, Open);
            var a := Accrue(LikeOf(id, d), ONE_CENT, PeriodKey(now), now, [], []);
            && Overdue(d, now) && (balance <= MAX_SAFE ==> a.Accrued?) && (balance > MAX_SAFE ==> Stops(a))
  {
    hide Strip, PeriodKey;
    PeriodIsTight(now);
    assert WholeDaysLate(0, now) >= 1 by { LateByNow(now); }
  }

  lemma LateByNow(now: int)
    requires now >= 2 * DAY
    ensures WholeDaysLate(0, now) >= 1
  {
    var d := Sub(now, 0);
    assert d >= 2 * DAY;
  }

  const UNSAFE_FIRST := map[
    "a" := Debt("o", "KES", 0, true, MAX_SAFE + 1, 0, Open),
    "b" := Debt("o", "KES", 0, true, 100, 0, Open)]

  lemma UnsafeFirstCuts(now: int, batch: nat)
    requires now >= 2 * DAY
    ensures CutAt(Tick(UNSAFE_FIRST, now), "b", ONE_CENT, batch) && Charge(UNSAFE_FIRST, "b", ONE_CENT, now).Accrued?
  {
    hide Accrue, PeriodKey;
    OneCentCharge("a", MAX_SAFE + 1, now);
    OneCentCharge("b", 100, now);
    var a, b := SlotOf(UNSAFE_FIRST, "a"), SlotOf(UNSAFE_FIRST, "b");
    assert "a"[0] < "b"[0];
    assert a in Candidates(UNSAFE_FIRST, now) && Before(a, b);
    assert a in Preceding(Candidates(UNSAFE_FIRST, now), b);
  }

  /** A receivable past the safe range ends every pass: the chargeable one behind it is never charged, whatever the batch. */
  lemma UnsafeDebtBlocksTheQueue(ticks: seq<Tick>, batch: nat)
    requires forall i :: 0 <= i < |ticks| ==> ticks[i].debts == UNSAFE_FIRST && ticks[i].now >= 2 * DAY
    ensures forall i :: 0 <= i < |ticks| ==> Charge(UNSAFE_FIRST, "b", ONE_CENT, ticks[i].now).Accrued?
    ensures var s := FeePasses(START, ticks, ONE_CENT, batch);
            forall i :: 0 <= i < |s.outbox| ==> s.outbox[i].job != ChargeFee("b")
  {
    hide FeePasses, Charge, CutAt;
    forall i | 0 <= i < |ticks|
      ensures CutAt(ticks[i], "b", ONE_CENT, batch) && Charge(UNSAFE_FIRST, "b", ONE_CENT, ticks[i].now).Accrued?
    {
      UnsafeFirstCuts(ticks[i].now, batch);
    }
    NeverCharged(START, ticks, "b", ONE_CENT, batch);
  }

  /** One more debt than a batch holds. */
  function CrowdDebts(batch: nat): Debts { map id | id in Names(batch) :: Debt("o", "KES", 0, true, 100, 0, Open) }

  lemma CrowdIsOverdue(batch: nat, now: int)
    requires now >= 2 * DAY
    ensures Candidates(CrowdDebts(batch), now) == Crowd(batch) && CrowdDebts(batch).Keys == Names(batch)
  {
    hide Name;
    var debts := CrowdDebts(batch);
    forall s | s in Candidates(debts, now)
      ensures s in Crowd(batch)
    {
      var n: nat :| n <= batch && Name(n) == s.id;
      assert s == Slot(0, Name(n));
    }
    forall s | s in Crowd(batch)
      ensures s in Candidates(debts, now)
    {
      assert s.id in debts && SlotOf(debts, s.id) == s;
    }
  }

  lemma CrowdCuts(now: int, batch: nat)
    requires now >= 2 * DAY
    ensures CutAt(Tick(CrowdDebts(batch), now), Name(batch), ONE_CENT, batch)
    ensures Charge(CrowdDebts(batch), Name(batch), ONE_CENT, now).Accrued?
  {
    hide Accrue, PeriodKey, Candidates, Crowd, Preceding;
    CrowdIsOverdue(batch, now);
    CrowdPrecedes(batch, batch);
    assert Name(batch) in Names(batch);
    OneCentCharge(Name(batch), 100, now);
  }

  /** A full batch of debts, charged or not, stays ahead: the chargeable one behind it is never charged. */
  lemma CrowdBlocksTheQueue(ticks: seq<Tick>, batch: nat)
    requires forall i :: 0 <= i < |ticks| ==> ticks[i].debts == CrowdDebts(batch) && ticks[i].now >= 2 * DAY
    ensures Name(batch) in CrowdDebts(batch)
    ensures forall i :: 0 <= i < |ticks| ==> Charge(CrowdDebts(batch), Name(batch), ONE_CENT, ticks[i].now).Accrued?
    ensures var s := FeePasses(START, ticks, ONE_CENT, batch);
            forall i :: 0 <= i < |s.outbox| ==> s.outbox[i].job != ChargeFee(Name(batch))
  {
    hide FeePasses, Charge, CutAt, CrowdDebts, Name;
    CrowdIsOverdue(batch, 2 * DAY);
    forall i | 0 <= i < |ticks|
      ensures CutAt(ticks[i], Name(batch), ONE_CENT, batch)
      ensures Charge(CrowdDebts(batch), Name(batch), ONE_CENT, ticks[i].now).Accrued?
    {
      CrowdCuts(ticks[i].now, batch);
    }
    NeverCharged(START, ticks, Name(batch), ONE_CENT, batch);
  }
}
