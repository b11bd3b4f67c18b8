/** The payment row, the double-entry lines it posts, and the confirmation decision. */
module Payments {

  datatype Option<T> = None | Some(value: T)

  datatype PaymentState =
    | Initiated | PendingConfirmation | Confirmed | PartiallyAllocated | Allocated | Unapplied
    | Failed | Reversed | PartiallyRefunded | Refunded

  datatype Channel = C2B | STK

  datatype Payment = Payment(
    id: string, org: string, channel: Channel, externalRef: string, key: string,
    state: PaymentState, currency: string, requested: int, confirmed: Option<int>)

  predicate SupportedCurrency(c: string) {
    c == "KES" || c == "USD" || c == "GBP" || c == "EUR" || c == "TZS" || c == "UGX"
  }

  predicate Terminal(s: PaymentState) {
    s == Failed || s == Reversed || s == Refunded
  }

  /** States that imply the money has landed. */
  predicate Landed(s: PaymentState) { s != Initiated && s != PendingConfirmation && s != Failed }

  datatype Direction = Debit | Credit

  datatype LineKey = LineKey(org: string, journalRef: string, lineNo: nat)

  datatype Line = Line(direction: Direction, amount: int, currency: string)

  function JournalRef(paymentId: string): string {
    "payment_confirmed:" + paymentId
  }

  lemma JournalRefInjective(a: string, b: string)
    requires JournalRef(a) == JournalRef(b)
    ensures a == b
  {
    var prefix := "payment_confirmed:";
    assert JournalRef(a)[|prefix|..] == a;
    assert JournalRef(b)[|prefix|..] == b;
  }

  datatype Refusal =
    | AmountMustBePositive | PaymentNotFound | CurrencyMismatch | PaymentTerminal | Internal
    | ConfirmedAmountMismatch | InvalidTransition | DuplicateAmountMismatch | UniqueViolation | CheckViolation
    | ChannelInvalid | ExternalRefRequired | IdempotencyKeyRequired | DeclaredRefBlank | CommitFailed

  datatype Verdict = Refuse(why: Refusal) | AlreadyConfirmed | Proceed

  /** What `Confirm` decides from the payment row it read. */
  function ConfirmVerdict(p: Payment, amount: int, currency: string): Verdict {
    if p.currency != currency then Refuse(CurrencyMismatch)
    else if Terminal(p.state) then Refuse(PaymentTerminal)
    else if p.state == Confirmed then
      if p.confirmed.None? then Refuse(Internal)
      else if p.confirmed.value != amount then Refuse(ConfirmedAmountMismatch)
      else AlreadyConfirmed
    else if p.state == Initiated || p.state == PendingConfirmation then Proceed
    else Refuse(InvalidTransition)
  }
}
