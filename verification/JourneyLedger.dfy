/** The callback gate: which deliveries of a rail journey are first sight, retries, or tampering. */
module JourneyLedger {
  import opened Payments

  datatype Kind = C2BValidation | C2BConfirmation | StkResult | B2CResult | OtherKind

  datatype Callback = Callback(kind: Kind, key: string, amount: int)

  datatype Outcome = Acknowledged | Observed | Accepted | Duplicate | Tampered | Unrecognized

  predicate Money(c: Callback) { (c.kind == C2BConfirmation || c.kind == StkResult) && c.key != "" }

  datatype Judged = Judged(journeys: map<string, int>, outcome: Outcome)

  /** The verdict on one callback, and the journeys after it: first write wins. */
  function Judge(journeys: map<string, int>, c: Callback): Judged {
    if c.kind == C2BValidation then Judged(journeys, Acknowledged)
    else if c.kind == B2CResult then Judged(journeys, Observed)
    else if !Money(c) then Judged(journeys, Unrecognized)
    else if c.key !in journeys then Judged(journeys[c.key := c.amount], Accepted)
    else if journeys[c.key] == c.amount then Judged(journeys, Duplicate)
    else Judged(journeys, Tampered)
  }

  class MemLedger {
    var journeys: map<string, int>

    constructor ()
      ensures journeys == map[]
    {
      journeys := map[];
    }

    method ClaimJourney(key: string, amount: int) returns (won: bool, prior: int)
      modifies this
      ensures won == (key !in old(journeys))
      ensures journeys == if won then old(journeys)[key := amount] else old(journeys)
      ensures !won ==> prior == journeys[key]
    {
      if key in journeys {
        return false, journeys[key];
      }
      journeys := journeys[key := amount];
      return true, 0;
    }

    method IntakeCallback(c: Callback) returns (outcome: Outcome)
      modifies this
      ensures Judged(journeys, outcome) == Judge(old(journeys), c)
    {
      match c.kind {
        case C2BValidation => return Acknowledged;
        case B2CResult => return Observed;
        case OtherKind => return Unrecognized;
        case _ =>
      }
      if c.key == "" {
        return Unrecognized;
      }
      var won, prior := ClaimJourney(c.key, c.amount);
      if !won {
        return if prior == c.amount then Duplicate else Tampered;
      }
      return Accepted;
    }
  }

  // -- over a whole history -----------------------------------------------------

  ghost function Journeys(history: seq<Callback>): map<string, int> {
    if history == [] then map[] else Judge(Journeys(history[..|history| - 1]), history[|history| - 1]).journeys
  }

  /** The first money callback of a journey. */
  ghost function First(history: seq<Callback>, key: string): Option<int> {
    if history == [] then None
    else
      var before, last := First(history[..|history| - 1], key), history[|history| - 1];
      if before.Some? then before else if Money(last) && last.key == key then Some(last.amount) else None
  }

  lemma {:induction false} JourneysHoldFirsts(history: seq<Callback>, key: string)
    ensures First(history, key) == if key in Journeys(history) then Some(Journeys(history)[key]) else None
  {
    if history != [] {
      JourneysHoldFirsts(history[..|history| - 1], key);
    }
  }

  /**
   * After any history, a validation is acknowledged, a payout result observed, and a confirmation or an STK
   * result with a journey is accepted exactly when the journey is new, a duplicate exactly when it repeats
   * the first amount, and tampering exactly when it carries other money. Anything else is unrecognized.
   */
  lemma FirstAmountDecides(history: seq<Callback>, c: Callback)
    ensures var first := First(history, c.key);
            var money := (c.kind == C2BConfirmation || c.kind == StkResult) && c.key != "";
            match Judge(Journeys(history), c).outcome
            case Accepted => money && first == None
            case Duplicate => money && first == Some(c.amount)
            case Tampered => money && first.Some? && first.value != c.amount
            case Acknowledged => c.kind == C2BValidation
            case Observed => c.kind == B2CResult
            case Unrecognized => c.kind == OtherKind || (c.key == "" && (c.kind == C2BConfirmation || c.kind == StkResult))
  {
    JourneysHoldFirsts(history, c.key);
  }
}
