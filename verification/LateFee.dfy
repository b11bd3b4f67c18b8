/** Late-fee accrual: the fresh charge, the marker of an already charged period, and 64-bit fee arithmetic. */
module LateFee {
  import opened GoTime
  import opened Payments
  import opened Text

  const MAX_SAFE := 0x1F_FFFF_FFFF_FFFF

  type Cents = x: int | 0 <= x <= MAX_DURATION

  datatype Kind = Flat | Percent | OtherKind

  datatype Policy = Policy(kind: Kind, flat: Option<Int64>, bps: Option<Int64>, cap: Option<Int64>, grace: Int64)

  datatype FeeRefusal =
    | KindInvalid | FlatAndPercent | FlatRequired | PercentRequired | FlatInvalid | BpsInvalid | CapInvalid
    | GraceInvalid | PeriodKeyRequired | NotLive | NotOverdue | WithinGrace | ZeroBalance | MoneyNegative
    | CurrencyInvalid | MoneyCurrencyMismatch | Underflow | NotSafeInteger

  function PolicyRefusal(p: Policy): Option<FeeRefusal> {
    if p.kind == OtherKind then Some(KindInvalid)
    else if p.flat.Some? && p.bps.Some? then Some(FlatAndPercent)
    else if p.kind == Flat && p.flat.None? then Some(FlatRequired)
    else if p.kind == Flat && p.flat.value < 0 then Some(FlatInvalid)
    else if p.kind == Percent && p.bps.None? then Some(PercentRequired)
    else if p.kind == Percent && p.bps.value < 0 then Some(BpsInvalid)
    else if p.cap.Some? && p.cap.value < 0 then Some(CapInvalid)
    else if p.grace < 0 then Some(GraceInvalid)
    else None
  }

  datatype Money = Money(amount: Cents, currency: string)

  datatype Receivable = Receivable(
    id: string, currency: string, due: int, overdue: bool, original: Money, applied: Money, state: string)

  datatype Fee = Fee(receivable: string, period: string, amount: Cents, balance: Cents, daysLate: nat, accruedAt: int)

  datatype Accrual = Refused(why: FeeRefusal) | Accrued(fee: Fee) | AlreadyAccrued(fee: Fee)

  function WholeDaysLate(due: int, now: int): nat {
    var days := FloorDays(Sub(now, due));
    if days < 0 then 0 else days
  }

  /** The uncapped charge; the product wraps as 64-bit integers do. */
  function Uncapped(p: Policy, balance: Cents): int
    requires PolicyRefusal(p).None?
  {
    if p.kind == Flat then p.flat.value else Quo(Wrap64(balance * p.bps.value), 10_000)
  }

  function FeeAmount(p: Policy, balance: Cents): int
    requires PolicyRefusal(p).None?
  {
    if p.cap.Some? && Uncapped(p, balance) > p.cap.value then p.cap.value else Uncapped(p, balance)
  }

  /** The eligibility ladder of the fresh path, up to the balance it charges. */
  datatype Chargeable = No(why: FeeRefusal) | Yes(balance: Cents)

  function Eligible(r: Receivable, p: Policy, now: int): Chargeable {
    if r.state != "" && r.state != "open" && r.state != "partially_paid" then No(NotLive)
    else if !r.overdue && now <= r.due then No(NotOverdue)
    else if WholeDaysLate(r.due, now) <= p.grace then No(WithinGrace)
    else if r.original.currency != r.applied.currency then No(MoneyCurrencyMismatch)
    else if r.applied.amount > r.original.amount then No(Underflow)
    else if r.original.amount == r.applied.amount then No(ZeroBalance)
    else Yes(r.original.amount - r.applied.amount)
  }

  /** The marker's own reading of the ladder: 0 when nothing is chargeable. */
  function ChargeableBalance(r: Receivable, p: Policy, now: int): Cents {
    if r.state != "" && r.state != "open" && r.state != "partially_paid" then 0
    else if !r.overdue && now <= r.due then 0
    else if WholeDaysLate(r.due, now) <= p.grace then 0
    else if r.original.currency != r.applied.currency || r.applied.amount > r.original.amount then 0
    else r.original.amount - r.applied.amount
  }

  datatype RowResult = RowRefused(why: FeeRefusal) | Row(fee: Fee)

  function FeeRow(r: Receivable, period: string, amount: int, balance: Cents, daysLate: nat, now: int): RowResult
    requires amount <= MAX_DURATION
  {
    if amount < 0 then RowRefused(MoneyNegative)
    else if !SupportedCurrency(r.currency) then RowRefused(CurrencyInvalid)
    else Row(Fee(r.id, period, amount, balance, daysLate, now))
  }

  lemma AmountFits(p: Policy, balance: Cents)
    requires PolicyRefusal(p).None?
    ensures FeeAmount(p, balance) <= MAX_DURATION
  {
  }

  /** The charge of a period not yet charged. */
  function FreshCharge(r: Receivable, p: Policy, period: string, now: int): Accrual
    requires PolicyRefusal(p).None?
  {
    match Eligible(r, p, now)
    case No(why) => Refused(why)
    case Yes(balance) =>
      AmountFits(p, balance);
      match FeeRow(r, period, FeeAmount(p, balance), balance, WholeDaysLate(r.due, now), now)
      case RowRefused(why) => Refused(why)
      case Row(fee) => if fee.amount > MAX_SAFE || balance > MAX_SAFE then Refused(NotSafeInteger) else Accrued(fee)
  }

  /** The marker of a period charged before, when the original row is not at hand. */
  function Marker(r: Receivable, p: Policy, period: string, now: int): Accrual
    requires PolicyRefusal(p).None?
  {
    var balance := ChargeableBalance(r, p, now);
    AmountFits(p, balance);
    match FeeRow(r, period, if balance > 0 then FeeAmount(p, balance) else 0, balance, WholeDaysLate(r.due, now), now)
    case RowRefused(why) => Refused(why)
    case Row(fee) => AlreadyAccrued(fee)
  }

  /** The first earlier fee of the period, if any. */
  function Earlier(fees: seq<Fee>, period: string): Option<Fee> {
    if fees == [] then None else if fees[0].period == period then Some(fees[0]) else Earlier(fees[1..], period)
  }

  function Accrue(r: Receivable, p: Policy, periodKey: string, now: int, fees: seq<Fee>, keys: seq<string>): Accrual {
    if PolicyRefusal(p).Some? then Refused(PolicyRefusal(p).value)
    else
      var period := Strip(periodKey, true);
      if period == "" then Refused(PeriodKeyRequired)
      else if Earlier(fees, period).Some? then AlreadyAccrued(Earlier(fees, period).value)
      else if period in keys then Marker(r, p, period, now)
      else FreshCharge(r, p, period, now)
  }

  /** The accrual as written: two searches with a flag, then the marker or the ladder. */
  method AccrueLateFee(r: Receivable, p: Policy, periodKey: string, now: int, fees: seq<Fee>, keys: seq<string>)
    returns (a: Accrual)
    ensures a == Accrue(r, p, periodKey, now, fees, keys)
  {
    hide Strip, WholeDaysLate, Uncapped;
    var invalid := PolicyRefusal(p);
    if invalid.Some? {
      return Refused(invalid.value);
    }
    var period := Strip(periodKey, true);
    if period == "" {
      return Refused(PeriodKeyRequired);
    }
    for i := 0 to |fees|
      invariant Earlier(fees, period) == Earlier(fees[i..], period)
    {
      if fees[i].period == period {
        return AlreadyAccrued(fees[i]);
      }
    }
    var alreadyCharged := false;
    var i := 0;
    while i < |keys| && !alreadyCharged
      invariant 0 <= i <= |keys|
      invariant alreadyCharged <==> period in keys[..i]
    {
      assert keys[..i + 1] == keys[..i] + [keys[i]];
      alreadyCharged := keys[i] == period;
      i := i + 1;
    }
    assert keys == keys[..i] + keys[i..];
    if alreadyCharged {
      return Marker(r, p, period, now);
    }
    assert keys[..i] == keys;
    return FreshCharge(r, p, period, now);
  }

  // -- valid policies -----------------------------------------------------------

  /** A policy is valid exactly when it is of one kind, with that kind's amount alone and nothing negative. */
  lemma PolicyValidExactly(p: Policy)
    ensures PolicyRefusal(p).None? <==>
            && (p.kind == Flat ==> p.flat.Some? && p.flat.value >= 0 && p.bps.None?)
            && (p.kind == Percent ==> p.bps.Some? && p.bps.value >= 0 && p.flat.None?)
            && p.kind != OtherKind && (p.cap.Some? ==> p.cap.value >= 0) && p.grace >= 0
    ensures PolicyRefusal(p).Some? ==>
              match PolicyRefusal(p).value
              case KindInvalid => p.kind == OtherKind
              case FlatAndPercent => p.flat.Some? && p.bps.Some?
              case FlatRequired => p.kind == Flat && p.flat.None?
              case PercentRequired => p.kind == Percent && p.bps.None?
              case FlatInvalid => p.kind == Flat && p.flat.Some? && p.flat.value < 0
              case BpsInvalid => p.kind == Percent && p.bps.Some? && p.bps.value < 0
              case CapInvalid => p.cap.Some? && p.cap.value < 0
              case GraceInvalid => p.grace < 0
              case _ => false
  {
  }

  /** A key is asked for exactly when the given one is blank. */
  lemma BlankPeriodIsRefused(r: Receivable, p: Policy, periodKey: string, now: int, fees: seq<Fee>, keys: seq<string>)
    requires PolicyRefusal(p).None?
    ensures Accrue(r, p, periodKey, now, fees, keys) == Refused(PeriodKeyRequired) <==> AllWhite(periodKey, true)
  {
    hide Strip, Earlier, AllWhite, WholeDaysLate, FeeAmount;
    BlankExactly(periodKey, true);
  }

  // -- who is charged, and what -------------------------------------------------

  /** Live, past due, past the grace by the clock, and with money outstanding. */
  ghost predicate Owing(r: Receivable, p: Policy, now: int) {
    && (r.state == "" || r.state == "open" || r.state == "partially_paid") && (r.overdue || now > r.due)
    && PastGrace(r, p, now) && r.original.currency == r.applied.currency && r.original.amount > r.applied.amount
  }

  /** More whole days than the grace, within what a 64-bit span can tell. */
  ghost predicate PastGrace(r: Receivable, p: Policy, now: int) {
    now - r.due >= (p.grace + 1) * DAY && (p.grace + 1) * DAY <= MAX_DURATION
  }

  lemma DaysPastGrace(r: Receivable, p: Policy, now: int)
    requires p.grace >= 0
    ensures WholeDaysLate(r.due, now) > p.grace <==> PastGrace(r, p, now)
  {
    hide FloorDays;
    var span := Sub(now, r.due);
    var days := FloorDays(span);
    DaysReach(span, days, p.grace + 1);
  }

  lemma DaysReach(span: int, days: int, n: int)
    requires days * DAY <= span < (days + 1) * DAY
    ensures days >= n <==> span >= n * DAY
  {
  }

  /**
   * A period not yet charged is charged exactly when the receivable is owing, its currency is supported and
   * neither the fee nor the balance is out of range; the fee is on the whole outstanding balance, flat or
   * the rate's share of it, never above the cap.
   */
  lemma ChargedExactly(r: Receivable, p: Policy, period: string, now: int)
    requires PolicyRefusal(p).None?
    ensures var charge := FreshCharge(r, p, period, now);
            var balance := r.original.amount - r.applied.amount;
            && (charge.Accrued? || charge.Refused?)
            && (charge.Accrued? <==>
                  && Owing(r, p, now) && SupportedCurrency(r.currency) && balance <= MAX_SAFE
                  && 0 <= FeeAmount(p, balance) <= MAX_SAFE)
            && (charge.Accrued? ==>
                  && charge.fee.receivable == r.id && charge.fee.period == period && charge.fee.balance == balance
                  && charge.fee.accruedAt == now && charge.fee.daysLate > p.grace
                  && (p.cap.Some? ==> charge.fee.amount <= p.cap.value)
                  && (p.kind == Flat ==> charge.fee.amount <= p.flat.value)
                  && (p.kind == Percent && balance * p.bps.value < LIMIT ==>
                        charge.fee.amount <= balance * p.bps.value / 10_000)
                  && (p.cap.None? || charge.fee.amount < p.cap.value ==>
                        if p.kind == Flat then charge.fee.amount == p.flat.value
                        else balance * p.bps.value < LIMIT ==> charge.fee.amount == balance * p.bps.value / 10_000))
  {
    hide WholeDaysLate, PastGrace, Uncapped;
    DaysPastGrace(r, p, now);
    if r.original.amount > r.applied.amount {
      UncappedIs(p, r.original.amount - r.applied.amount);
    }
  }

  lemma UncappedIs(p: Policy, balance: Cents)
    requires PolicyRefusal(p).None?
    ensures p.kind == Flat ==> Uncapped(p, balance) == p.flat.value
    ensures p.kind == Percent && balance * p.bps.value < LIMIT ==>
              Uncapped(p, balance) == balance * p.bps.value / 10_000
  {
    if p.kind == Percent {
      Product(balance, p.bps.value);
    }
  }

  /** Why a fresh charge is refused: each reason is the case it names. */
  lemma RefusedForCause(r: Receivable, p: Policy, period: string, now: int)
    requires PolicyRefusal(p).None? && FreshCharge(r, p, period, now).Refused?
    ensures match FreshCharge(r, p, period, now).why
            case NotLive => r.state != "" && r.state != "open" && r.state != "partially_paid"
            case NotOverdue => !r.overdue && now <= r.due
            case WithinGrace => !PastGrace(r, p, now)
            case MoneyCurrencyMismatch => r.original.currency != r.applied.currency
            case Underflow => r.applied.amount > r.original.amount
            case ZeroBalance => r.applied.amount == r.original.amount
            case MoneyNegative => Owing(r, p, now) && FeeAmount(p, r.original.amount - r.applied.amount) < 0
            case CurrencyInvalid => Owing(r, p, now) && !SupportedCurrency(r.currency)
            case NotSafeInteger =>
              && Owing(r, p, now)
              && (|| r.original.amount - r.applied.amount > MAX_SAFE
                  || FeeAmount(p, r.original.amount - r.applied.amount) > MAX_SAFE)
            case _ => false
  {
    hide WholeDaysLate, PastGrace, Uncapped;
    DaysPastGrace(r, p, now);
  }

  // -- the two paths agree ------------------------------------------------------

  /** The marker repeats the fresh charge, and carries 0 where a fresh charge is refused. */
  ghost predicate Agree(charge: Accrual, marker: Accrual) {
    match charge
    case Accrued(fee) => marker == AlreadyAccrued(fee)
    case Refused(_) => marker.AlreadyAccrued? ==> marker.fee.amount == 0 && marker.fee.balance == 0
    case AlreadyAccrued(_) => false
  }

  /** A charge or a balance past 2^53 - 1 that would otherwise be charged. */
  ghost predicate Unsafe(r: Receivable, p: Policy, now: int)
    requires PolicyRefusal(p).None?
  {
    match Eligible(r, p, now)
    case No(_) => false
    case Yes(balance) =>
      && SupportedCurrency(r.currency) && FeeAmount(p, balance) >= 0
      && (FeeAmount(p, balance) > MAX_SAFE || balance > MAX_SAFE)
  }

  /** The two readings of the ladder pick the same balance. */
  lemma BalancesAgree(r: Receivable, p: Policy, now: int)
    ensures match Eligible(r, p, now)
            case No(_) => ChargeableBalance(r, p, now) == 0
            case Yes(balance) => balance > 0 && ChargeableBalance(r, p, now) == balance
  {
    hide WholeDaysLate;
  }

  /**
   * At any instant the marker and the fresh charge agree exactly when no amount leaves the safe-integer
   * range; there the fresh path refuses, while the marker still shows the charge.
   */
  lemma PathsAgreeExactly(r: Receivable, p: Policy, period: string, now: int)
    requires PolicyRefusal(p).None?
    ensures Agree(FreshCharge(r, p, period, now), Marker(r, p, period, now)) <==> !Unsafe(r, p, now)
  {
    hide WholeDaysLate, Eligible, ChargeableBalance, Uncapped;
    BalancesAgree(r, p, now);
  }

  /** Past the range: a balance of 2^53 cents is refused by the fresh path and shown by the marker. */
  lemma UnsafeChargeShows()
    ensures var r := Receivable("r", "KES", 0, true, Money(MAX_SAFE + 1, "KES"), Money(0, "KES"), "open");
            var p := Policy(Flat, Some(1), None, None, 0);
            && PolicyRefusal(p).None? && Unsafe(r, p, 2 * DAY)
            && FreshCharge(r, p, "2025-08", 2 * DAY) == Refused(NotSafeInteger)
            && Marker(r, p, "2025-08", 2 * DAY) == AlreadyAccrued(Fee("r", "2025-08", 1, MAX_SAFE + 1, 2, 2 * DAY))
  {
    assert Sub(2 * DAY, 0) == 2 * DAY;
    assert WholeDaysLate(0, 2 * DAY) == 2;
  }

  /** Within the range the marker shows 0 exactly where a fresh charge is refused or comes to 0. */
  lemma MarkerIsZeroExactly(r: Receivable, p: Policy, period: string, now: int)
    requires PolicyRefusal(p).None? && !Unsafe(r, p, now) && Marker(r, p, period, now).AlreadyAccrued?
    ensures Marker(r, p, period, now).fee.amount == 0 <==>
            var charge := FreshCharge(r, p, period, now); charge.Refused? || charge.fee.amount == 0
  {
    hide WholeDaysLate, Eligible, ChargeableBalance, Uncapped;
    BalancesAgree(r, p, now);
  }

  // -- one fee per period -------------------------------------------------------

  datatype Attempt = Attempt(receivable: Receivable, policy: Policy, periodKey: string, now: int)

  function Outcome(a: Attempt, fees: seq<Fee>, keys: seq<string>): Accrual {
    Accrue(a.receivable, a.policy, a.periodKey, a.now, fees, keys)
  }

  /** The fees a sequence of accruals charges, each given the fees charged before it. */
  function Charges(attempts: seq<Attempt>, keys: seq<string>): seq<Fee> {
    if attempts == [] then []
    else
      var fees := Charges(attempts[..|attempts| - 1], keys);
      var a := Outcome(attempts[|attempts| - 1], fees, keys);
      if a.Accrued? then fees + [a.fee] else fees
  }

  lemma {:induction false} EarlierIs(fees: seq<Fee>, period: string)
    ensures Earlier(fees, period).None? ==> forall i :: 0 <= i < |fees| ==> fees[i].period != period
    ensures Earlier(fees, period).Some? ==> Earlier(fees, period).value in fees && Earlier(fees, period).value.period == period
  {
    if fees != [] && fees[0].period != period {
      EarlierIs(fees[1..], period);
      assert fees == [fees[0]] + fees[1..];
    }
  }

  lemma AccruedIsNew(a: Attempt, fees: seq<Fee>, keys: seq<string>)
    requires Outcome(a, fees, keys).Accrued?
    ensures var period := Outcome(a, fees, keys).fee.period;
            period != "" && period !in keys && forall i :: 0 <= i < |fees| ==> fees[i].period != period
  {
    hide Strip, Eligible, FeeAmount, WholeDaysLate, Earlier;
    EarlierIs(fees, Strip(a.periodKey, true));
  }

  /** Whatever is attempted and however often, no period is charged twice, nor one known to be charged. */
  lemma {:induction false} OneFeePerPeriod(attempts: seq<Attempt>, keys: seq<string>)
    ensures forall i, j :: 0 <= i < j < |Charges(attempts, keys)| ==>
              Charges(attempts, keys)[i].period != Charges(attempts, keys)[j].period
    ensures forall i :: 0 <= i < |Charges(attempts, keys)| ==>
              Charges(attempts, keys)[i].period !in keys && Charges(attempts, keys)[i].period != ""
  {
    hide Outcome;
    if attempts != [] {
      var front, last := attempts[..|attempts| - 1], attempts[|attempts| - 1];
      OneFeePerPeriod(front, keys);
      if Outcome(last, Charges(front, keys), keys).Accrued? {
        AccruedIsNew(last, Charges(front, keys), keys);
      }
    }
  }

  /** An attempt at a charged period returns the fee charged for it, whatever the receivable has become. */
  lemma ChargedPeriodReturnsItsFee(attempts: seq<Attempt>, keys: seq<string>, i: nat, a: Attempt)
    requires i < |Charges(attempts, keys)| && PolicyRefusal(a.policy).None?
    requires Strip(a.periodKey, true) == Charges(attempts, keys)[i].period
    ensures Outcome(a, Charges(attempts, keys), keys) == AlreadyAccrued(Charges(attempts, keys)[i])
  {
    hide Strip, Charges, Marker, FreshCharge, Earlier;
    OneFeePerPeriod(attempts, keys);
    var fees := Charges(attempts, keys);
    EarlierIs(fees, fees[i].period);
  }

  // -- the fee ------------------------------------------------------------------

  const LIMIT := 0x8000_0000_0000_0000

  lemma WrapAbove(x: int)
    requires x >= LIMIT
    ensures Wrap64(x) <= x - 2 * LIMIT
  {
  }

  /** The wrapped product is the exact floor exactly when the product stays below 2^63. */
  lemma PercentExactBelowLimit(p: Policy, balance: Cents)
    requires PolicyRefusal(p).None? && p.kind == Percent
    ensures Uncapped(p, balance) == balance * p.bps.value / 10_000 <==> balance * p.bps.value < LIMIT
  {
    var product := balance * p.bps.value;
    Product(balance, p.bps.value);
    if product >= LIMIT {
      WrapAbove(product);
      FarApart(Wrap64(product), product);
    }
  }

  lemma Product(a: int, b: int)
    requires a >= 0 && b >= 0
    ensures a * b >= 0
  {
  }

  lemma FarApart(w: int, x: int)
    requires w <= x - 2 * LIMIT && x >= 0
    ensures Quo(w, 10_000) < x / 10_000
  {
  }

  lemma ProductBound(a: int, b: int, x: int, y: int)
    requires 0 <= a <= x && 0 <= b <= y
    ensures a * b <= x * y
  {
    assert a * b <= x * b;
  }

  /** For safe balances and at most 1024 basis points the fee is the exact floor, clamped to the cap. */
  lemma SafeFeeIsExact(p: Policy, balance: Cents)
    requires PolicyRefusal(p).None? && p.kind == Percent && p.bps.value <= 1024 && balance <= MAX_SAFE
    ensures balance * p.bps.value < LIMIT
    ensures FeeAmount(p, balance)
            == var fee := balance * p.bps.value / 10_000;
               if p.cap.Some? && fee > p.cap.value then p.cap.value else fee
  {
    hide Uncapped;
    ProductBound(balance, p.bps.value, MAX_SAFE, 1024);
    PercentExactBelowLimit(p, balance);
  }

  /** One basis point more on the largest safe balance wraps. */
  lemma LargerRateWraps(p: Policy)
    requires PolicyRefusal(p).None? && p.kind == Percent && p.bps == Some(1025)
    ensures Uncapped(p, MAX_SAFE) < 0 <= MAX_SAFE * 1025 / 10_000
  {
  }
}
