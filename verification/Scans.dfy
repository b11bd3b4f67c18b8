/** The scheduler's pure day arithmetic and the scan prefilters that must not hide work from it. */
module Scans {
  import opened GoTime
  import opened Text

  // -- the dunning ladder -------------------------------------------------------

  datatype Step = Step(key: string, offset: int, channel: string, requiresConsent: bool)

  ghost predicate LadderOk(ladder: seq<Step>) {
    && ladder != []
    && (forall i :: 0 <= i < |ladder| ==> Strip(ladder[i].key, true) != "")
    && (forall i, j :: 0 <= i < j < |ladder| ==> ladder[i].key != ladder[j].key && ladder[i].offset <= ladder[j].offset)
  }

  /** One pass over the ladder with the keys met so far. */
  method ValidateLadder(ladder: seq<Step>) returns (ok: bool)
    ensures ok <==> LadderOk(ladder)
  {
    hide Strip;
    if |ladder| == 0 {
      return false;
    }
    var keys: set<string> := {};
    var previous := 0;
    for i := 0 to |ladder|
      invariant keys == set k | 0 <= k < i :: ladder[k].key
      invariant i > 0 ==> previous == ladder[i - 1].offset
      invariant forall k :: 0 <= k < i ==> Strip(ladder[k].key, true) != ""
      invariant forall k, j :: 0 <= k < j < i ==> ladder[k].key != ladder[j].key && ladder[k].offset <= ladder[j].offset
    {
      var step := ladder[i];
      if Strip(step.key, true) == "" || step.key in keys {
        return false;
      }
      keys := keys + {step.key};
      if i > 0 && step.offset < previous {
        return false;
      }
      previous := step.offset;
    }
    return true;
  }

  predicate Due(step: Step, now: int, due: int, sent: set<string>) {
    step.key !in sent && UtcDay(now) - UtcDay(due) >= step.offset
  }

  function DueSteps(now: int, due: int, sent: set<string>, ladder: seq<Step>): seq<Step> {
    if ladder == [] then []
    else
      var last := ladder[|ladder| - 1];
      DueSteps(now, due, sent, ladder[..|ladder| - 1]) + (if Due(last, now, due, sent) then [last] else [])
  }

  method SelectDue(now: int, due: int, sent: set<string>, ladder: seq<Step>) returns (steps: seq<Step>)
    ensures steps == DueSteps(now, due, sent, ladder)
  {
    steps := [];
    for i := 0 to |ladder|
      invariant steps == DueSteps(now, due, sent, ladder[..i])
    {
      assert ladder[..i + 1][..i] == ladder[..i];
      if Due(ladder[i], now, due, sent) {
        steps := steps + [ladder[i]];
      }
    }
    assert ladder[..|ladder|] == ladder;
  }

  lemma {:induction false} DueStepsAre(now: int, due: int, sent: set<string>, ladder: seq<Step>)
    ensures forall s :: s in DueSteps(now, due, sent, ladder) <==> s in ladder && Due(s, now, due, sent)
  {
    hide Due;
    if ladder != [] {
      DueStepsAre(now, due, sent, ladder[..|ladder| - 1]);
      assert ladder == ladder[..|ladder| - 1] + [ladder[|ladder| - 1]];
    }
  }

  // -- the dunning horizon ------------------------------------------------------

  /** The most negative offset, or 0. */
  function Earliest(ladder: seq<Step>): (m: int)
    ensures m <= 0
  {
    if ladder == [] then 0
    else
      var m, offset := Earliest(ladder[..|ladder| - 1]), ladder[|ladder| - 1].offset;
      if offset < m then offset else m
  }

  lemma {:induction false} EarliestIs(ladder: seq<Step>)
    ensures forall i :: 0 <= i < |ladder| ==> Earliest(ladder) <= ladder[i].offset
    ensures Earliest(ladder) < 0 ==> exists i :: 0 <= i < |ladder| && ladder[i].offset == Earliest(ladder)
  {
    if ladder != [] {
      var front := ladder[..|ladder| - 1];
      EarliestIs(front);
      if Earliest(ladder) == Earliest(front) < 0 {
        var i :| 0 <= i < |front| && front[i].offset == Earliest(front);
        assert ladder[i] == front[i];
      }
      forall i | 0 <= i < |ladder|
        ensures Earliest(ladder) <= ladder[i].offset
      {
        if i < |front| {
          assert ladder[i] == front[i];
        }
      }
    }
  }

  /** The scan window as a 64-bit duration. */
  method Horizon(ladder: seq<Step>) returns (d: int)
    ensures d == Wrap64((1 - Earliest(ladder)) * DAY)
  {
    var mostNegative := 0;
    for i := 0 to |ladder|
      invariant mostNegative == Earliest(ladder[..i])
    {
      assert ladder[..i + 1][..i] == ladder[..i];
      if ladder[i].offset < mostNegative {
        mostNegative := ladder[i].offset;
      }
    }
    assert ladder[..|ladder|] == ladder;
    d := Wrap64((1 - mostNegative) * DAY);
  }

  /** A receivable due by the scan's horizon. */
  predicate Near(ladder: seq<Step>, now: int, due: int) { due <= now + Wrap64((1 - Earliest(ladder)) * DAY) }

  ghost predicate HasWork(ladder: seq<Step>, now: int, due: int, sent: set<string>) {
    DueSteps(now, due, sent, ladder) != []
  }

  lemma DayBounds(at: int)
    ensures UtcDay(at) * DAY <= at < (UtcDay(at) + 1) * DAY
  {
  }

  lemma WorkIsNear(ladder: seq<Step>, now: int, due: int, sent: set<string>)
    requires HasWork(ladder, now, due, sent)
    ensures due < now + (1 - Earliest(ladder)) * DAY
  {
    DueStepsAre(now, due, sent, ladder);
    var s := DueSteps(now, due, sent, ladder)[0];
    assert s in DueSteps(now, due, sent, ladder);
    var i :| 0 <= i < |ladder| && ladder[i] == s;
    EarliestIs(ladder);
    DayBounds(now);
    DayBounds(due);
    Scale(UtcDay(due), UtcDay(now) - Earliest(ladder));
  }

  lemma Scale(a: int, b: int)
    requires a <= b
    ensures a * DAY <= b * DAY
  {
  }

  /** Some receivable has work right up to a nanosecond before the window closes: the extra day is needed. */
  lemma HorizonIsTight(ladder: seq<Step>, now: int) returns (due: int)
    requires Earliest(ladder) < 0 && UtcDay(now) * DAY == now
    ensures HasWork(ladder, now, due, {}) && due == now + (1 - Earliest(ladder)) * DAY - 1
  {
    EarliestIs(ladder);
    var i :| 0 <= i < |ladder| && ladder[i].offset == Earliest(ladder);
    var day := UtcDay(now) - Earliest(ladder);
    due := now + (1 - Earliest(ladder)) * DAY - 1;
    assert due == day * DAY + (DAY - 1);
    EndOfDay(day);
    DueStepsAre(now, due, {}, ladder);
    assert Due(ladder[i], now, due, {});
    assert ladder[i] in DueSteps(now, due, {}, ladder);
  }

  lemma EndOfDay(day: int)
    ensures UtcDay(day * DAY + (DAY - 1)) == day
  {
  }

  const MAX_DAYS := 106_751

  /**
   * The horizon hides no work exactly when it fits a 64-bit duration: the ladder's earliest step is at
   * most 106 750 days before the due date.
   */
  lemma HorizonHidesNoWorkExactly(ladder: seq<Step>)
    ensures (forall now, due, sent :: HasWork(ladder, now, due, sent) ==> Near(ladder, now, due))
            <==> 1 - Earliest(ladder) <= MAX_DAYS
  {
    hide HasWork;
    if 1 - Earliest(ladder) <= MAX_DAYS {
      forall now, due, sent | HasWork(ladder, now, due, sent)
        ensures Near(ladder, now, due)
      {
        WorkIsNear(ladder, now, due, sent);
      }
    } else {
      var due := FarWork(ladder);
    }
  }

  lemma FarWork(ladder: seq<Step>) returns (due: int)
    requires 1 - Earliest(ladder) > MAX_DAYS
    ensures HasWork(ladder, 0, due, {}) && !Near(ladder, 0, due)
  {
    due := HorizonIsTight(ladder, 0);
  }

  // -- plan defaults ------------------------------------------------------------

  datatype InstallmentState = Scheduled | DueNow | Paid | OtherState

  /** `dueDay` is a DATE: its instant is midnight UTC. */
  datatype Installment = Installment(no: int, dueDay: int, amount: int, paid: int, state: InstallmentState)

  predicate Unpaid(i: Installment) { (i.state == Scheduled || i.state == DueNow) && i.paid < i.amount }

  /** The scan: an active plan with an unpaid installment due by today less the grace days. */
  ghost predicate SqlDefaultable(installments: seq<Installment>, grace: int, now: int) {
    exists k :: 0 <= k < |installments| && Unpaid(installments[k]) && installments[k].dueDay <= UtcDay(now) - grace
  }

  function DaysLate(i: Installment, now: int): nat {
    var days := FloorDays(Sub(now, i.dueDay * DAY));
    if days < 0 then 0 else days
  }

  datatype Trigger = PolicyInvalid | NotDefaultable | Default(no: int, daysOverdue: nat)

  /** The first unpaid installment at least `grace` days late. */
  function FindTrigger(installments: seq<Installment>, grace: int, now: int): Trigger {
    if grace < 0 then PolicyInvalid
    else if installments == [] then NotDefaultable
    else if Unpaid(installments[0]) && DaysLate(installments[0], now) >= grace
    then Default(installments[0].no, DaysLate(installments[0], now))
    else FindTrigger(installments[1..], grace, now)
  }

  function UnpaidOnly(installments: seq<Installment>): seq<Installment> {
    if installments == [] then []
    else (if Unpaid(installments[0]) then [installments[0]] else []) + UnpaidOnly(installments[1..])
  }

  /** The filter and the search, as two loops. */
  method SearchTrigger(installments: seq<Installment>, grace: int, now: int) returns (t: Trigger)
    ensures t == FindTrigger(installments, grace, now)
  {
    hide DaysLate, Unpaid;
    if grace < 0 {
      return PolicyInvalid;
    }
    var unpaid := [];
    for i := 0 to |installments|
      invariant UnpaidOnly(installments) == unpaid + UnpaidOnly(installments[i..])
    {
      if Unpaid(installments[i]) {
        unpaid := unpaid + [installments[i]];
      }
    }
    assert installments[|installments|..] == [] && unpaid == UnpaidOnly(installments);
    UnpaidSearch(installments, grace, now);
    for i := 0 to |unpaid|
      invariant FindTrigger(unpaid, grace, now) == FindTrigger(unpaid[i..], grace, now)
    {
      AllUnpaid(installments, i);
      var late := DaysLate(unpaid[i], now);
      if late >= grace {
        return Default(unpaid[i].no, late);
      }
    }
    return NotDefaultable;
  }

  lemma {:induction false} AllUnpaid(installments: seq<Installment>, i: nat)
    requires i < |UnpaidOnly(installments)|
    ensures Unpaid(UnpaidOnly(installments)[i])
    decreases installments
  {
    hide Unpaid;
    if Unpaid(installments[0]) {
      if i > 0 {
        AllUnpaid(installments[1..], i - 1);
      }
    } else {
      AllUnpaid(installments[1..], i);
    }
  }

  /** Paid installments never matter to the search. */
  lemma {:induction false} UnpaidSearch(installments: seq<Installment>, grace: int, now: int)
    ensures FindTrigger(UnpaidOnly(installments), grace, now) == FindTrigger(installments, grace, now)
    decreases installments
  {
    hide DaysLate, Unpaid;
    if installments != [] {
      UnpaidSearch(installments[1..], grace, now);
      if Unpaid(installments[0]) {
        assert UnpaidOnly(installments)[1..] == UnpaidOnly(installments[1..]);
      } else {
        assert UnpaidOnly(installments) == UnpaidOnly(installments[1..]);
      }
    }
  }

  lemma {:induction false} TriggerIffLate(installments: seq<Installment>, grace: int, now: int)
    requires grace >= 0
    ensures FindTrigger(installments, grace, now).Default? <==>
            exists k :: 0 <= k < |installments| && Unpaid(installments[k]) && DaysLate(installments[k], now) >= grace
    decreases installments
  {
    hide DaysLate, Unpaid;
    if installments != [] {
      TriggerIffLate(installments[1..], grace, now);
      if FindTrigger(installments[1..], grace, now).Default? {
        var rest := installments[1..];
        var k :| 0 <= k < |rest| && Unpaid(rest[k]) && DaysLate(rest[k], now) >= grace;
        assert installments[k + 1] == rest[k];
      }
      if k :| 0 < k < |installments| && Unpaid(installments[k]) && DaysLate(installments[k], now) >= grace {
        assert installments[1..][k - 1] == installments[k];
      }
    }
  }

  /** Scheduled or due, and not paid in full; at least `grace` whole days past its due date. */
  predicate Overripe(i: Installment, grace: int, now: int) {
    (i.state == Scheduled || i.state == DueNow) && i.paid < i.amount && DaysLate(i, now) >= grace
  }

  /** The search names the first installment that is unpaid and late, with its days; or there is none. */
  lemma {:induction false} TriggerIsTheFirst(installments: seq<Installment>, grace: int, now: int)
    ensures match FindTrigger(installments, grace, now)
            case PolicyInvalid => grace < 0
            case NotDefaultable =>
              grace >= 0 && forall k :: 0 <= k < |installments| ==> !Overripe(installments[k], grace, now)
            case Default(no, days) =>
              grace >= 0 && exists k :: 0 <= k < |installments| && Overripe(installments[k], grace, now)
                                        && no == installments[k].no && days == DaysLate(installments[k], now)
                                        && forall j :: 0 <= j < k ==> !Overripe(installments[j], grace, now)
    decreases installments
  {
    hide DaysLate;
    if grace >= 0 && installments != [] {
      var rest := installments[1..];
      TriggerIsTheFirst(rest, grace, now);
      assert forall k :: 0 < k < |installments| ==> installments[k] == rest[k - 1];
      if !Overripe(installments[0], grace, now) && FindTrigger(rest, grace, now).Default? {
        var t := FindTrigger(rest, grace, now);
        var k :| 0 <= k < |rest| && Overripe(rest[k], grace, now) && t.no == rest[k].no
                 && t.daysOverdue == DaysLate(rest[k], now) && forall j :: 0 <= j < k ==> !Overripe(rest[j], grace, now);
        assert installments[k + 1] == rest[k];
      }
    }
  }

  lemma DayDifference(now: int, day: int)
    ensures (now - day * DAY) / DAY == UtcDay(now) - day
  {
    DayBounds(now);
  }

  lemma Monotone(a: int, b: int)
    requires a <= b
    ensures a / DAY <= b / DAY
  {
  }

  /** Saturated or not, the day count passes a window of 1 to 106 751 days exactly when the dates do. */
  lemma LateIffDue(i: Installment, grace: int, now: int)
    requires 1 <= grace <= MAX_DAYS
    ensures DaysLate(i, now) >= grace <==> i.dueDay <= UtcDay(now) - grace
  {
    var span := now - i.dueDay * DAY;
    var d := Sub(now, i.dueDay * DAY);
    DayDifference(now, i.dueDay);
    if span < 0 {
      Monotone(d, 0);
      Monotone(span, 0);
      Monotone(span, -1);
    } else {
      Monotone(0, d);
      Monotone(d, span);
      if d != span {
        Monotone(MAX_DURATION, span);
      }
    }
  }

  /**
   * For every instant and every set of installments, the scan's predicate and the trigger search agree
   * exactly when the grace is 1 to 106 751 days.
   */
  lemma PrefilterAgreesExactly(grace: int)
    ensures (forall installments: seq<Installment>, now: int ::
               SqlDefaultable(installments, grace, now) <==> FindTrigger(installments, grace, now).Default?)
            <==> 1 <= grace <= MAX_DAYS
  {
    hide DaysLate, FindTrigger;
    if 1 <= grace <= MAX_DAYS {
      forall installments: seq<Installment>, now: int
        ensures SqlDefaultable(installments, grace, now) <==> FindTrigger(installments, grace, now).Default?
      {
        TriggerIffLate(installments, grace, now);
        forall k | 0 <= k < |installments|
          ensures DaysLate(installments[k], now) >= grace <==> installments[k].dueDay <= UtcDay(now) - grace
        {
          LateIffDue(installments[k], grace, now);
        }
      }
    } else {
      var i := DisagreementAt(grace);
      assert SqlDefaultable([i], grace, 0) != FindTrigger([i], grace, 0).Default?;
    }
  }

  /** Grace 0 also defaults what is due in the future; a negative grace is refused; a longer one never ends. */
  lemma DisagreementAt(grace: int) returns (i: Installment)
    requires !(1 <= grace <= MAX_DAYS)
    ensures SqlDefaultable([i], grace, 0) != FindTrigger([i], grace, 0).Default?
  {
    i := Installment(1, if grace == 0 then 1 else -grace, 1, 0, Scheduled);
    assert [i][0] == i;
    assert SqlDefaultable([i], grace, 0) <==> i.dueDay <= -grace;
    if grace > MAX_DAYS {
      Monotone(Sub(0, i.dueDay * DAY), MAX_DURATION);
    }
    assert FindTrigger([i][1..], grace, 0) == if grace < 0 then PolicyInvalid else NotDefaultable;
  }
}
