# Verified model of the Fuatilia kernel

A Dafny model of the parts of the Fuatilia Go kernel that move money and evidence under at-least-once
delivery, crashes and concurrency, with proofs of what those parts promise. `dafny verify dfyconfig.toml`
checks all of it.

## What is modelled

**Money intake.** A C2B confirmation runs three separately committed steps: claim the journey, take the
payment in, confirm it. `Settlement` is a state machine of deliveries that overlap, repeat, carry altered
amounts and die anywhere. It embeds `Confirmation`, the machine of confirming transactions that read the
payment without a lock and update it without a guard, where the row lock of the update and the unique
(journal_ref, line_no) key decide. `Intake` is the serial intake funnel as a class over its tables and its
process cache. `JourneyLedger` is the callback gate.

**Outbox relay.** `Outbox` is the machine of appends, competing relays, broker answers, crashes, commits
and replays; `OutboxSafety`, `OutboxOrder` and `OutboxDrain` prove safety, order and progress over all its
runs, and `OutboxAppend` which appends break the order; `OutboxProcess` is the imperative batch loop, proved
to be a run of that machine.

**Analytics.** `EventLog` is the canonical order and the stable sort, `Fold` the per-org fold as functions
and as an object whose methods update its maps, `Balances` and `NetBilling` say what its book and billing
mean in terms of the log, `Projections`, `Cohorts` and `Emission` are the rows, with every loop over a Go
map taken in an arbitrary order. `Register` and `Report` tell the rows from the log alone and prove that
what is emitted is that report. `Ingest`, `IngestFaults`, `Rebuild` and `Ingester` are delivery, failure and
rebuild.

**Scheduler.** `Claims` is the machine of claiming and plan-defaulting transactions, statement by statement,
with keys derived from the instants of the ticks; `Calendar` and `Stamps` are the calendar and the texts the
keys are made of. `Scans` and `LateFee` are the pure day and fee arithmetic, `ScanOrder` and `DunningScan` the
ordered, limited queries, `DunningJob` and `LateFeeJob` the job loops over stored tables, and `DunningReach`
says whom passes reach and what consent lets them send.

**Rate limiter and wire money.** `RateLimit` and `Eviction` are the token bucket with eviction, over
real-valued tokens and 64-bit durations. `WireMoney` is the decimal parser and printer.

PostgreSQL and the broker appear as committed tables, atomic transactions, unique keys, row locks and an
append-only log; the scans order ids as text. Clocks, identifiers, acknowledgements, driver failures and
crashes are parameters or nondeterministic steps. Integers are unbounded except where the 64-bit width decides a result: saturating
durations, the eviction age, the late-fee product, the dunning window and the wire amounts.

## Where the code does less than its comments say

The lemmas named show each case; those that end in `Exactly` give the condition under which the promise holds.

- The intake comment says a duplicate is keyed by (channel, external ref); the unique index spans channels.
  A ref used on the other channel is refused as an internal error (`OtherChannelShows`,
  `RefOfOtherChannelIsRefused`, `CreatedExactly`).
- The replay cache strips more white space than intake does, so keys that differ by, say, a vertical tab
  share an entry (`VerticalTabCollides`, `CacheTransparentExactly`), and a key can be accepted for two
  payments (`OneKeyTwoPayments`, `KeysBindExactly`). It is also written before the commit, which
  `rememberReplay` says must not happen (`DeadEntryShows`, `DeadEntryShowsExactly`).
- `IngestBatch` says events of a failed org are re-ingested harmlessly. They stay in the log unseen, so
  redelivery duplicates them (`LeftoverIsDuplicated`, `LeftoversShowExactly`), and a duplicated opening stops
  the org for good (`OpeningIsWedged`, `WedgedForGood`) until a rebuild (`AnyHistoryIsRepaired`). An event
  repeated in one batch is duplicated too (`RepeatedEventCountsTwice`, `CleanExactlyWithoutRepeats`).
- A rebuild marks an org's events seen before it folds them and starts from blank orgs. One that stops leaves
  the orgs after it without their history, and redelivery does not restore the one it stopped at
  (`StoppedRebuildLoses`, `StoppedRebuildLeaves`, `CleanAgainExactly`).
- The relay keeps an org's events in (created_at, id) order only while producers append in that order
  (`LateAppendShows`, `AppendKeepsOrderExactly`).
- A second void subtracts again (`SecondVoidSubtractsAgain`, `NetExactlyWithoutExcess`), and a void on both
  sides of an issue can write to an absent map (`VoidIssueVoidPanics`, `PanicsExactly`).
- The plan-default scan and the trigger search differ for grace 0 and for a grace longer than a 64-bit
  duration (`PrefilterAgreesExactly`); a ladder that reaches further back than one wraps the dunning window
  (`HorizonHidesNoWorkExactly`).
- The dunning and late-fee scans are said to surface every subject. They take the first `batch` rows by due
  date whether or not those have anything left to do, so a full batch of earlier receivables starves the rest
  (`LastIsStarved`, `ScanHidesNoWorkExactly`, `PassSettlesExactly`; `CrowdBlocksTheQueue`), and a late-fee
  pass ends at the first refusal that is not business as usual (`UnsafeDebtBlocksTheQueue`,
  `PassChargesExactly`).
- The next aging window is said to snapshot again; a window shorter than a second may find its key taken
  (`SubSecondWindowMissed`, `EveryWindowSnapshottedExactly`).
- A dunning step named after another step's block shares its claim (`TwinIsSwallowed`,
  `SharedClaimExactly`).
- Past the safe-integer range the already-charged marker shows a fee the fresh path would refuse
  (`UnsafeChargeShows`, `PathsAgreeExactly`); the percent product wraps from 2^63 on (`LargerRateWraps`,
  `PercentExactBelowLimit`).
- Eviction is said to be lossless. Doubling the refill window can wrap (`LargeBurstDoesNotFit`); then buckets
  are dropped before they refill and a key gets more than its budget (`OverspendBreaksTheBudget`,
  `EvictionInvisibleExactly`, `WindowBoundWithEvictionExactly`). Eviction also shows on a clock that steps back
  before the bucket has refilled (`StepBackShows`, `EvictionShowsExactlyBeforeRefill`), and the advertised wait
  can fall short there (`RetryAfterFallsShortOnSteppedBackClock`, `RetryAfterSufficesExactly`).
- Printing the most negative 64-bit amount does not return (`NegationSticksExactly`).

## Model

| member | source | states |
|---|---|---|
| `Settlement.C2BSettlesOnce` | backend-go/internal/transport/callbacks.go:95-140 | Over every interleaving of C2B deliveries of one org and TransID (repeats, altered amounts, death after any step): at most one payment exists, for the first claimed amount and with the journey's org, channel, ref and key, and the durable key names exactly it; the journal is empty or holds exactly its debit and credit for that amount, with one `payment.confirmed` fact; every delivery that completed left the payment confirmed for the amount it carried; every refused one carried no money, other money than the claimed amount, or money confirmed meanwhile by another delivery |
| `Settlement.RunKeeps` | backend-go/internal/transport/callbacks.go:117-126 | From any state that satisfies the settlement invariant, every run keeps it, and claims, payments and confirmed amounts only grow |
| `Settlement.StepKeeps` | backend-go/internal/transport/callbacks.go:112-137 | Each step of a delivery (claim, probe, insert, replay after a race, read, update, post, commit, death) keeps the settlement invariant, in which a refusal has its cause and a replay goes on with the payment it found, while the other deliveries stay where they are |
| `Settlement.AlteredAmountsChangeNothing` | backend-go/internal/daraja/intake.go:134-148 | Striking every delivery that carries money other than the claimed amount from a run gives a run with the same durable state and the same honest deliveries |
| `Settlement.SettlementStays` | backend-go/internal/transport/callbacks.go:117-126 | A confirmed settlement, its claimed amount and the key that names its payment are never changed by any later run |
| `Settlement.RedeliverySettles` | backend-go/internal/transport/callbacks.go:119-137 | From any reachable state in which no other delivery holds the payment's row, one undisturbed delivery of the claimed amount completes and leaves the payment confirmed, wherever the earlier deliveries stopped |
| `Settlement.UndisturbedEnds` | backend-go/internal/transport/callbacks.go:95-140 | From every state that satisfies the invariant and for every delivery at any step, with no other delivery holding the row, its own steps alone end it: completed with the payment confirmed for its amount, unless it carries no money, other money than the claimed amount, or read the payment before another delivery confirmed it, and then refused for that |
| `Settlement.ConfirmFinishes` | backend-go/internal/application/payments.go:289-365 | With the payment in hand and its row free of other deliveries, a delivery confirms it or finds it confirmed, using its own steps only |
| `Settlement.IntakeFinishes` | backend-go/internal/application/payments.go:68-178 | With the journey claimed, the payment seen missing, or the insert lost to another delivery, an undisturbed delivery finds or creates the one payment and goes on to completion |
| `Settlement.OnlyItsLines` | backend-go/internal/repositories/ledger.go:50-75 | The only journal lines that ever exist are the two of the journey's payment |
| `JourneyLedger.MemLedger.ClaimJourney` | backend-go/internal/daraja/intake.go:170-178 | The first claim of a key records its amount and wins; later claims change nothing and read that amount |
| `JourneyLedger.MemLedger.IntakeCallback` | backend-go/internal/daraja/intake.go:96-153 | The verdict and the journeys after one callback, for every callback kind |
| `JourneyLedger.FirstAmountDecides` | backend-go/internal/daraja/intake.go:79-153 | After any history, for every callback kind: a validation is acknowledged and a payout result observed; a confirmation or STK result with a journey is accepted exactly when the journey is new, a duplicate exactly when it repeats the first amount, tampering exactly when it carries other money; anything else is unrecognized |
| `Confirmation.ConfirmedExactlyOnce` | backend-go/internal/application/payments.go:289-365 | However confirming transactions, the other lanes' updates (awaiting confirmation, failure, allocation, refund, reversal) and crashes interleave, a payment is confirmed by at most one commit; its money has landed exactly when that commit happened, with one `payment.confirmed` fact and debit = credit = confirmed amount, and any other payment has neither |
| `Confirmation.ConfirmedStays` | backend-go/internal/application/payments.go:289-365 | Once a payment is confirmed, no run of confirming transactions, allocations, refunds, reversals or failures changes its confirmed amount, its fact or its entry; only its state moves, within the states whose money has landed |
| `Confirmation.StepKeeps` | backend-go/internal/repositories/ledger.go:50-75 | Each step keeps the confirmation invariant; the unique (journal_ref, line_no) key is what stops the second posting |
| `Confirmation.CommitsAreFacts` | backend-go/internal/application/payments.go:339-346 | The number of `payment.confirmed` facts grows by exactly the confirmations committed |
| `Confirmation.ConfirmService.Confirm` | backend-go/internal/application/payments.go:289-365 | The statement-by-statement confirmation answers and leaves the database as the sequential specification says; in its own words: a fresh confirmation happens exactly for a positive amount in the currency of a payment of the org that is initiated or awaiting confirmation, which it leaves confirmed for that amount with one new fact and its two lines; `already` is answered exactly for a payment that is confirmed for that amount; every refusal has its cause; and only a fresh confirmation changes anything |
| `Confirmation.OutcomeMeans` | backend-go/internal/application/payments.go:289-365 | The same meaning of every answer, of the sequential specification over every database that satisfies the confirmation invariant |
| `Confirmation.ConfirmIsARun` | backend-go/internal/application/payments.go:289-365 | An undisturbed confirmation is a run of the concurrent machine with the sequential outcome |
| `Confirmation.CommitKeepsOthers` | backend-go/internal/repositories/payments.go:142-150 | Confirming one payment leaves the settlement of every other payment alone |
| `Intake.Trim` | backend-go/internal/application/payments.go:485-494 | The two trimming loops return the maximal substring without the four stripped characters at its ends |
| `Intake.IntakeService.Intake` | backend-go/internal/application/payments.go:68-178 | One intake call: validation in order, both probes, replay, rebinding or first contact, cache write before the commit, and a commit that may fail; reply, tables and cache as specified |
| `Intake.IntakeService.Attempt` | backend-go/internal/application/payments.go:68-178 | The transaction body: reply, tables and cache as if the commit succeeds |
| `Intake.IntakeService.Insert` | backend-go/internal/application/payments.go:131-170 | First contact claims, inserts and publishes together or changes nothing |
| `Intake.ServeKeeps` | backend-go/internal/application/payments.go:68-178 | For every registry answer, right or wrong: at most one payment per id, per (org, external ref) and per (org, key), and every claimed key names an existing payment of its org |
| `Intake.ServeAddsAtMostOne` | backend-go/internal/application/payments.go:68-178 | A call adds one payment exactly on first contact, with the command's channel, trimmed ref and key, amount and currency; a replay returns an existing payment of the same org, amount and currency and adds one tripwire fact; a refusal changes nothing |
| `Intake.WellFormedExactly` | backend-go/internal/application/payments.go:68-94 | A command is well formed exactly when its channel is known, its ref, key and declared refs are not all white space and its amount is positive; a refusal names the first of these that fails |
| `Intake.ReplayedExactlyWhenKnown` | backend-go/internal/application/payments.go:217-233 | A well-formed command is replayed or refused for its money exactly when its key, its (channel, external ref) or the registry already names a payment |
| `Intake.CreatedExactly` | backend-go/internal/application/payments.go:68-178 | For every command, tables and registry answer: a payment is created if and only if the command is well formed, nothing names its payment, its currency is supported, its id is new and its external ref is unused in the org on both channels; a well-formed unknown command that is not created is refused and changes nothing |
| `Intake.RefOfOtherChannelIsRefused` | db/migrations/0005_payments_matches.sql:74-76 | An external ref taken on the other channel is not found by the per-channel probe but breaks the per-org unique index: the command is refused as internal and nothing changes |
| `Intake.OtherChannelShows` | db/migrations/0005_payments_matches.sql:74-76 | From empty tables, an STK command and then a C2B command with one ref and two keys: the first is accepted, the second refused as internal, and one payment exists |
| `Intake.RunKeepsR9` | backend-go/internal/application/payments.go:68-178 | Over every run of the process, from any cache and with commits failing at will: the uniqueness invariant holds, payments and claims only grow, and the payments number exactly the first contacts |
| `Intake.RepeatIsAccepted` | backend-go/internal/application/payments.go:96-178 | A command once accepted is accepted after any further calls, failed commits included, as a duplicate with the payment it was first answered with |
| `Intake.KeysBindExactly` | backend-go/internal/application/services.go:64-80 | Over a set of keys, every accepted call of every run of the process whose commits succeed leaves its key bound to the payment it returned, if and only if the cache's stripping keeps those keys apart |
| `Intake.OneKeyTwoPayments` | backend-go/pkg/idempotency/registry.go:226-236 | From empty tables, two keys the cache confuses and one amount: the second key is accepted for the first key's payment and never claimed, and after a restart the same call is accepted for another payment |
| `Intake.CacheTransparentExactly` | backend-go/pkg/idempotency/registry.go:188-236 | Over a set of keys, every run answers as it would with the process cache emptied before each call if and only if the cache's stripping keeps those keys apart |
| `Intake.CollisionShows` | backend-go/pkg/idempotency/registry.go:226-236 | Two keys that intake keeps apart and the cache does not: the second command is refused as a tampered replay of the first |
| `Intake.VerticalTabCollides` | backend-go/internal/application/payments.go:485-494 | A leading vertical tab is kept by intake's trimming and stripped by the cache's |
| `Intake.DeadEntryShowsExactly` | backend-go/internal/application/payments.go:126-170 | A cache entry left by a failed commit changes the reply to a call exactly when the key table and the payments table name different payments, unless both refuse the money for the same reason |
| `Intake.DeadEntryShows` | backend-go/internal/application/payments.go:126-170 | From empty tables, four calls of which the first fails to commit are answered otherwise than by a process that loses its cache before each call |
| `Outbox.BatchIsTheOldestPending` | backend-go/internal/outbox/relay.go:339-371 | A batch holds the org's lowest pending, unlocked rows in (created_at, id) order; whatever it leaves out comes later; it is empty exactly when nothing is selectable |
| `Outbox.PublishableExactly` | backend-go/internal/outbox/subjects.go:43-75 | A row can be published if and only if its version is positive and its event type is two words of letters and digits around a dot, each starting lower-case, the second of at least two characters |
| `OutboxOrder.RelayKeepsOrder` | backend-go/internal/outbox/relay.go:329-421 | In every run of competing relays, failed and lost-ack publishes, poisoning, crashes and appends that do not undercut what is sent or being sent, without replay, the first occurrences of an org's events in the broker log strictly increase in (created_at, id) |
| `OutboxAppend.AppendKeepsOrderExactly` | backend-go/internal/outbox/relay.go:339-371 | From every ordered state and for every event: however the relay goes on without replay and further undercutting appends, the log stays ordered, if and only if the appended event has no subject or lies above all its org has sent and all an open batch has still to send |
| `OutboxAppend.UndercutIsSent` | backend-go/internal/outbox/relay.go:329-421 | From every state with a pending, unsent event below one its org has sent, relays whose publishes all succeed reach a log out of order |
| `OutboxAppend.LateAppendShows` | backend-go/internal/outbox/relay.go:339-371 | From the empty table, an event stamped before one already sent ends in a log out of order |
| `OutboxOrder.SendKeepsOrderExactly` | backend-go/internal/outbox/relay.go:434-439 | One more message keeps the log ordered if and only if it repeats an event or lies above all its org sent before |
| `OutboxOrder.StepKeepsOrder` | backend-go/internal/outbox/relay.go:329-421 | Every step but a replay and an undercutting append keeps the order invariant |
| `OutboxSafety.RelayIsSafe` | backend-go/internal/outbox/poison.go:33-93 | In every reachable state, with crashes and replay: a published row is in the broker log with its event id, event type as name, version, org, creation time and payload, everything in the log is so carried from a row, pending rows have attempts below the budget, poisoned rows have spent exactly the budget or none if they have no subject, and a consumer deduplicating on (org, event id) accepts each event exactly once |
| `OutboxSafety.RunKeepsEvents` | backend-go/internal/outbox/replay.go:39-72 | No run adds, drops or rewrites an event; only appends lengthen the table |
| `OutboxSafety.StepKeepsSafe` | backend-go/internal/outbox/relay.go:329-421 | Every step of the relay machine keeps the safety invariant |
| `OutboxSafety.AcceptedOnce` | backend-go/internal/outbox/relay.go:462-478 | Deduplicating a faithful log leaves no two messages with one (org, event id) |
| `OutboxDrain.CommitDrains` | backend-go/internal/outbox/relay.go:375-420 | Whatever the broker answered, a committed non-empty batch strictly lowers the sum of (MaxAttempts - attempts) over the org's pending rows |
| `OutboxDrain.BacklogEmpties` | backend-go/internal/outbox/relay.go:375-420 | Without appends and replay, committed non-empty batches plus the remaining measure never exceed the starting measure; the measure is 0 exactly when the org's next batch is empty |
| `OutboxDrain.MarkSpendsAttempt` | backend-go/internal/outbox/poison.go:62-93 | Every mark (published, retried, poisoned) lowers its row's weight |
| `OutboxProcess.RelayProcess.HandleRow` | backend-go/internal/outbox/relay.go:382-412 | One row of a batch: poisoned when it has no subject, else published, its six fields carried over one by one, and marked by the outcome; or the batch stops |
| `OutboxProcess.RelayProcess.DrainOrg` | backend-go/internal/outbox/relay.go:329-421 | The batch loop leaves the table and the broker log the specification gives for the acknowledgements received and the fate of the commit |
| `OutboxProcess.DrainIsARun` | backend-go/internal/outbox/relay.go:329-421 | A process's batch, committed or cut short, is a run of the relay machine |
| `OutboxProcess.RelayProcess.ReplayPoisons` | backend-go/internal/outbox/replay.go:39-45 | Exactly the poisoned rows return to pending with no attempts spent, and their number is reported |
| `OutboxProcess.RelayProcess.ReplayRange` | backend-go/internal/outbox/replay.go:57-72 | A window that does not advance is refused; otherwise exactly the rows created in the half-open window, whatever their status, return to pending with no attempts spent |
| `RateLimit.InMemoryRateLimitStore.constructor` | backend-go/internal/transport/ratelimit.go:119-135 | A store starts empty, with the burst, rate and eviction age derived from the configuration |
| `RateLimit.InMemoryRateLimitStore.Take` | backend-go/internal/transport/ratelimit.go:138-182 | One take on the mutable store, sweep included: decision and buckets as specified |
| `RateLimit.InMemoryRateLimitStore.Sweep` | backend-go/internal/transport/ratelimit.go:187-193 | Exactly the idle buckets go, in whatever order the keys come |
| `RateLimit.TtlIs` | backend-go/internal/transport/ratelimit.go:119-135 | The eviction age is twice the refill window, at least two minutes, if that fits a 64-bit duration; otherwise the doubling wraps and it is two minutes, whichever way a platform converts the float |
| `RateLimit.FittingLimitsAreValid` | backend-go/internal/transport/ratelimit.go:119-135 | If the doubled window fits, an idle age past the eviction age refills any bucket, rounding included |
| `RateLimit.EvictionIsInvisible` | backend-go/internal/transport/ratelimit.go:119-193 | If the doubled window fits and the clock never steps back, every run of every length gets the same decisions as one that never evicts |
| `Eviction.EvictionInvisibleExactly` | backend-go/internal/transport/ratelimit.go:119-193 | For every enabled configuration: eviction changes no decision of any run on a clock that never steps back, if and only if twice the refill window fits a 64-bit duration |
| `RateLimit.EvictionShowsExactlyBeforeRefill` | backend-go/internal/transport/ratelimit.go:187-193 | Under any clock, one evicted bucket goes unnoticed by the next take if and only if it would have been full at that instant |
| `Eviction.StepBackShows` | backend-go/internal/transport/ratelimit.go:138-193 | From an empty store, a run that evicts and then steps back gets decisions a store that never evicts would not give |
| `RateLimit.WindowBound` | backend-go/internal/transport/ratelimit.go:138-182 | For any clock sequence, backward steps included, the takes allowed for a key never exceed burst + rate × (latest − first instant), and its tokens stay within [0, burst] |
| `Eviction.WindowBoundWithEvictionExactly` | backend-go/internal/transport/ratelimit.go:138-193 | For every enabled configuration: the same budget holds of the evicting store for every run and key on a clock that never steps back, if and only if twice the refill window fits a 64-bit duration |
| `Eviction.OverspendBreaksTheBudget` | backend-go/internal/transport/ratelimit.go:119-193 | For every configuration whose doubled window does not fit, one run from an empty store is allowed more than the budget |
| `Eviction.LargeBurstDoesNotFit` | backend-go/internal/transport/securityheaders.go:96-111 | One request a minute with a burst of 100 000 000, which the environment admits, is such a configuration |
| `RateLimit.KeysAreIndependent` | backend-go/internal/transport/ratelimit.go:138-182 | What a run allows a key, and where its bucket ends, depends on that key's own takes only |
| `RateLimit.TakeSpends` | backend-go/internal/transport/ratelimit.go:148-181 | A take keeps tokens within capacity and spends at most what the elapsed time minted |
| `RateLimit.RetryAfterSufficesExactly` | backend-go/internal/transport/ratelimit.go:170-181 | A refused key that returns after the advertised wait is allowed if and only if its bucket was ahead of the clock by no more than the wait exceeds the time the missing tokens take; so always on a clock not behind the bucket |
| `RateLimit.RetryAfterFallsShortOnSteppedBackClock` | backend-go/internal/transport/ratelimit.go:150-181 | A key seen once, refused on a clock that stepped back, is refused again after the advertised wait |
| `RateLimit.WaitIsAtMostAMinute` | backend-go/internal/transport/ratelimit.go:174-181 | The advertised wait is 1 to 60 seconds and mints the missing part of a token |
| `EventLog.DayKeyMonotone` | backend-go/internal/analytics/state.go:107-110 | Day keys never decrease with time, although the division truncates toward zero before 1970 |
| `EventLog.SortIsRight` | backend-go/internal/analytics/state.go:98-104 | The stable sort returns the same events in canonical order |
| `EventLog.SortIsStable` | backend-go/internal/analytics/state.go:98-104 | Events with equal keys keep their order |
| `EventLog.CanonicalIsUnique` | backend-go/internal/analytics/envelope.go:103-112 | Two canonical logs of the same events are equal |
| `EventLog.SortedCanonicalIffDistinct` | backend-go/internal/analytics/envelope.go:103-112 | A sorted log is strictly increasing if and only if no event id occurs twice in it |
| `Fold.OrgState.UpsertLog` | backend-go/internal/analytics/state.go:98-104 | New events join the log, which is sorted and keeps every event |
| `Fold.OrgState.ApplyEvent` | backend-go/internal/analytics/fold.go:49-326 | One event moves every map and list of the state as specified, or refuses, or panics |
| `Fold.OrgState.ApplyTouch` | backend-go/internal/analytics/fold.go:171-302 | Partial settlement, settlement, write-off and recovery on the two maps they touch |
| `Fold.OrgState.RecordCollected` | backend-go/internal/analytics/fold.go:331-339 | Collected money joins the receivable's day; zero amounts leave no trace |
| `Fold.OrgState.RefoldLog` | backend-go/internal/analytics/fold.go:26-44 | Resetting and replaying the log gives the fold of the log, or its first failure |
| `Fold.BalanceAt` | backend-go/internal/analytics/state.go:191-200 | The reader's loop returns the last transition not after the day |
| `Fold.HistoryIsRefolding` | backend-go/internal/analytics/state.go:188-200 | For every log that folds and every day, the balance as of that day of each receivable opened by then equals its balance after folding only the events with day key at most that day, which form a prefix that folds |
| `Fold.FoldKeepsBook` | backend-go/internal/analytics/state.go:29-42 | Transitions start with the opening, never go back in time and end at the current balance |
| `Balances.FoldTellsTheLog` | backend-go/internal/analytics/fold.go:12-21 | For every log that folds, the book holds exactly the opened receivables, each with the balance last stated for it, and on each day exactly the money its events took |
| `Balances.BalanceStaysUntilStated` | backend-go/internal/analytics/fold.go:171-302 | However the log goes on, a receivable keeps its balance until an event states another one for it; recoveries never do |
| `NetBilling.BilledIsExactly` | backend-go/internal/analytics/fold.go:79-121 | For every log that folds, billed per currency and day is the sum over first-issued never-voided invoices, less each invoice's total once per excess void |
| `NetBilling.NetExactlyWithoutExcess` | backend-go/internal/analytics/fold.go:94-120 | Billed equals net billing for every currency and day if and only if no invoice of positive total is voided again after its void already counted |
| `NetBilling.WindowIsTotal` | backend-go/internal/analytics/state.go:149-163 | Every window of days is the same sum over the invoices first issued in it |
| `NetBilling.TrailingWindowIsNet` | backend-go/internal/analytics/state.go:149-163 | With at most one void per invoice, before or after its issue, every window is the net billing of its days and never negative |
| `NetBilling.BilledTrailing` | backend-go/internal/analytics/state.go:153-163 | The window loop adds exactly the inclusive trailing days |
| `NetBilling.SecondVoidSubtractsAgain` | backend-go/internal/analytics/fold.go:114-120 | Two voids after one issue leave the day negative |
| `NetBilling.PanicsExactly` | backend-go/internal/analytics/fold.go:100-119 | The fold panics on an event if and only if it voids an issued invoice of a currency none of whose invoices was ever billed |
| `NetBilling.VoidIssueVoidPanics` | backend-go/internal/analytics/fold.go:100-119 | A void, the issue it preceded and the void again panic |
| `NetBilling.SingleVoidsNeverPanic` | backend-go/internal/analytics/fold.go:100-119 | A log that voids each invoice at most once never panics |
| `Projections.CloseDay` | backend-go/internal/analytics/state.go:170-186 | The day's snapshots as the book gives them; by Register.SnapshotsAreTheLogs they are what the log gives |
| `Projections.SnapshotsAreRefolded` | backend-go/internal/analytics/state.go:165-186 | Each snapshot of a past day carries the balance that refolding the log through that day gives |
| `Register.SnapshotsAreTheLogs` | backend-go/internal/analytics/state.go:165-200 | From the log alone: for every sorted log that folds, currency and day, a receivable is among the day's snapshots, once, if and only if an opening of it lies at or before the day, the invoice it names was first issued before it in that currency (or not at all, for the empty currency) and no event voids that invoice; the snapshot has the opening's due date and the balance last stated by that day |
| `Register.InvoicesAreTheLogs` | backend-go/internal/analytics/fold.go:79-121 | An invoice is known once issued, in the currency of its first issue, and voided once any event voids it |
| `Register.EntriesCarry` | backend-go/internal/analytics/fold.go:139-169 | Every opened receivable keeps the invoice, due date, amount and day of its opening, and the currency its invoice had by then |
| `Register.FlagsAreTheLogs` | backend-go/internal/analytics/fold.go:216-275 | A receivable is marked settled, or written off, if and only if such an event comes after its opening |
| `Register.BookedInOrder` | backend-go/internal/analytics/fold.go:139-169 | The book's order is the order of the openings |
| `Projections.Close` | backend-go/internal/analytics/emit.go:66-81 | Closing receivables, the counts with and without balance, and the evidence |
| `Projections.BucketSpans` | backend-go/internal/analytics/aging.go:33-57 | Truncation and clamping together put a receivable in the bucket of its whole late days, at every boundary |
| `Report.MeasuredAtTheEnd` | backend-go/internal/analytics/effectiveness.go:138-144 | A day's figures are measured one millisecond into its last second |
| `Projections.DayCloseAging` | backend-go/internal/analytics/aging.go:72-89 | Each bucket of the map, or its absence, is the amount and evidence of the receivables that fall in it; zero balances are counted |
| `Projections.AgingConserves` | backend-go/internal/analytics/aging.go:66-89 | The five buckets split the closing receivables: same money, same number, none twice |
| `Cohorts.FoldKeepsCollections` | backend-go/internal/analytics/emit.go:241-250 | Every collected amount is positive and lies on or after its receivable's opening day |
| `Cohorts.NothingPrecedesTheCohort` | backend-go/internal/analytics/emit.go:245-248 | The filter on days before the cohort month drops no amount |
| `Cohorts.EmitCohort` | backend-go/internal/analytics/emit.go:241-313 | The emitted curve is a function of the book, in whatever order the maps are read |
| `Cohorts.CohortCurve` | backend-go/internal/analytics/emit.go:241-313 | Each point's cumulative equals everything the members collected through that day, the curve never falls, starts at day 0, and its last point equals all money collected |
| `Emission.EmittedCurveIsComplete` | backend-go/internal/analytics/emit.go:205-239 | Every cohort that is emitted has such a curve |
| `Emission.EmitCohorts` | backend-go/internal/analytics/emit.go:205-239 | Cohorts grouped by opening month and currency, emitted by month, then currency |
| `Emission.EmitEffectiveness` | backend-go/internal/analytics/emit.go:144-191 | The trailing-window collections, billing, broken promises and evidence, in whatever order the maps are read |
| `Emission.WindowIsWhatEventsTook` | backend-go/internal/analytics/state.go:209-221 | A receivable's collections in a window are exactly the money its events took on those days |
| `Emission.EmitDay` | backend-go/internal/analytics/emit.go:43-55 | A day and currency yield the DSO row, the five aging rows in order and the effectiveness row, which Report.DayRowsTell gives from the log |
| `Emission.Emit` | backend-go/internal/analytics/emit.go:40-61 | All rows, in canonical order, are a function of the figures |
| `Report.EmittedIsTheReport` | backend-go/internal/analytics/emit.go:40-61 | For every sorted log that folds, the emitted rows are, row for row, the report of the log told without the fold: which days, currencies and cohorts have rows, in which order, and every figure and reference |
| `Report.DayRowsTell` | backend-go/internal/analytics/emit.go:63-191 | A day's seven rows from the log: what its standing receivables of the currency owe by lateness, whom, how many owe nothing, net billing of the last 30 days, money taken in them from standing receivables, promises broken, and the evidence in order |
| `Report.CurveTells` | backend-go/internal/analytics/emit.go:205-313 | A cohort's curve from the log: its members, the days the log took money from them, all money taken by each, what they were opened for, and who had paid by then or never pays |
| `Report.DaysThrough` | backend-go/internal/analytics/fold.go:49-326 | The days that carry rows are those of first issues, voids, openings and events on open receivables |
| `Report.CurrenciesThrough` | backend-go/internal/analytics/state.go:117-137 | The currencies that carry rows: the billed ones and those receivables were opened in |
| `Report.SkipsThrough` | backend-go/internal/analytics/fold.go:341-344 | The counted skips are every repeated issue and every word on a receivable that is not open, once each and in log order |
| `Report.PromisesAreTheLogs` | backend-go/internal/analytics/emit.go:165-168 | Promises broken in a window are the events that say so on its days |
| `Report.DedupeIsFirsts` | backend-go/internal/analytics/effectiveness.go:52-69 | Evidence keeps the first occurrence of each reference and drops the others |
| `Emission.AgingRowsSplitDso` | backend-go/internal/analytics/emit.go:66-137 | A day's aging rows add up to its DSO row, in money and in receivables |
| `Calendar.DateOfIs` | backend-go/internal/analytics/state.go:112-116 | Day counts and the real dates of the proleptic Gregorian calendar are in one-to-one correspondence |
| `Calendar.MonthStartIs` | backend-go/internal/analytics/state.go:112-116 | The start of a day's month is the first of that month, at most 30 days before the day |
| `Calendar.MonthStartNamesMonth` | backend-go/internal/analytics/emit.go:205-239 | Two days have one month start if and only if they fall in one month of one year |
| `Ingest.DeliveryIndependence` | backend-go/internal/analytics/ingester.go:89-185 | Any two completed schedules that deliver the same events, in any order, batching and redelivery, leave the same ledger and for every org the same canonical log, seen ids and last emitted rows |
| `Ingest.DeliverKeepsClean` | backend-go/internal/analytics/ingester.go:89-185 | A completed batch takes the state of one set of events to the state of that set and the batch's events |
| `Ingest.UpsertCanonicalExactly` | backend-go/internal/analytics/state.go:95-104 | Adding events keeps a canonical log canonical if and only if their ids are distinct and not in it |
| `Ingest.RebuildAgrees` | backend-go/internal/analytics/ingester.go:187-266 | After any completed schedule, a rebuild from the ledger gives every org the same log, and every clean state of the ledger has the same log, seen ids and emitted rows per org |
| `Rebuild.AnyHistoryIsRepaired` | backend-go/internal/analytics/ingester.go:187-266 | Whatever batches and rebuilds came before, completed, failed or stopped, a rebuild that completes leaves every org the canonical log, seen ids and rows of its ledger events |
| `Rebuild.CompletedRebuildIsClean` | backend-go/internal/analytics/ingester.go:192-266 | From any state whose emitted rows belong to orgs of the ledger, a rebuild that completes leaves the clean state of the ledger |
| `Rebuild.StoppedRebuildLeaves` | backend-go/internal/analytics/ingester.go:238-257 | A rebuild that stops leaves the orgs sorted before the one it stops at clean, that one with its full log, all its events seen and its old rows, and every org sorted after it with no log and nothing seen while the ledger holds its events |
| `Rebuild.CleanAgainExactly` | backend-go/internal/analytics/ingester.go:89-185 | After a stopped rebuild, a completed delivery leaves the clean state of ledger and messages if and only if it repeats no unseen event, brings back every ledger event of the orgs not reached, and brings a new event of the org it stopped at or finds that org's rows right |
| `Rebuild.StoppedRebuildLoses` | backend-go/internal/analytics/ingester.go:238-257 | From the empty state, a promise, a malformed event of an org sorted before and a rebuild: the next promise completes with a log that lacks the first, which the ledger holds, and the malformed event redelivered is dropped as seen |
| `Ingest.RebuildIsCanonical` | backend-go/internal/analytics/ingester.go:192-266 | For any ledger contents a rebuild gives every org the canonical log of its ledger events, in whatever order they are read |
| `IngestFaults.CleanExactlyWithoutRepeats` | backend-go/internal/analytics/ingester.go:107-116 | A completed batch leaves canonical logs if and only if it repeats no unseen event |
| `IngestFaults.CompletesExactly` | backend-go/internal/analytics/ingester.go:89-173 | A batch completes if and only if every message reads, each handled event is of version 1, the log of each of its orgs folds with the new events and the driver takes one statement per new event and row, and it uses exactly that many; one bad message changes nothing at all |
| `IngestFaults.RepeatedEventCountsTwice` | backend-go/internal/analytics/ingester.go:107-116 | From the empty state, a batch that delivers one event twice completes with the event twice in the log and counted twice |
| `IngestFaults.LeftoversShowExactly` | backend-go/internal/analytics/ingester.go:132-173 | A completed pass leaves the org's log canonical if and only if none of its events was left there by a failed pass |
| `IngestFaults.LeftoverIsDuplicated` | backend-go/internal/analytics/ingester.go:132-173 | From the empty state, a pass that fails and its redelivery, which completes, leave the event twice in the log and counted twice |
| `IngestFaults.FailedPassLeavesEvents` | backend-go/internal/analytics/ingester.go:132-173 | A pass that stops leaves its events in the log and none of them seen, and changes no row |
| `IngestFaults.FailedPassInserts` | backend-go/internal/analytics/ingester.go:132-173 | Of the events of a pass that stops, the ledger gains all, or as many in canonical order as the driver took |
| `IngestFaults.RedeliveredOpeningStops` | backend-go/internal/analytics/ingester.go:86-88 | Once a stopped pass has left an opening event behind, a pass that delivers it again stops, whatever the driver does, with the event twice in the log |
| `IngestFaults.WedgedForGood` | backend-go/internal/analytics/ingester.go:130-173 | An org whose log holds one opening event twice keeps it twice over any sequence of deliveries, however the driver behaves; its seen ids and rows never change, and every batch with an unseen event of it stops |
| `IngestFaults.OpeningIsWedged` | backend-go/internal/analytics/ingester.go:86-88 | From the empty state, an opening whose ledger insert fails and its redelivery: over any further deliveries the org never emits a row and never sees the event |
| `IngestFaults.OpenedTwiceFails` | backend-go/internal/analytics/fold.go:139-142 | A log that opens a receivable twice does not fold |
| `Ingester.IngesterState.PassOrg` | backend-go/internal/analytics/ingester.go:130-174 | One org's pass: log, ledger, fold, rows, then seen ids, stopping where the driver or the fold fails |
| `Ingester.IngesterState.IngestBatch` | backend-go/internal/analytics/ingester.go:89-185 | A batch is refused whole or passed org by org in sorted order until one stops |
| `Ingester.IngesterState.RebuildOrg` | backend-go/internal/analytics/ingester.go:238-257 | One org of a rebuild: log and seen ids, then fold and rows, stopping where the fold or the driver fails |
| `Ingester.IngesterState.RebuildFromLedger` | backend-go/internal/analytics/ingester.go:192-266 | A rebuild forgets logs and seen ids and replays the ledger org by org in sorted order until it is done or one org stops it: state, verdict and driver budget as specified |
| `Ingester.IngesterState.Dedupe` | backend-go/internal/analytics/ingester.go:107-116 | The batch without the events already seen |
| `Ingester.IngesterState.MarkSeen` | backend-go/internal/analytics/ingester.go:310-319 | Exactly the org's event ids join its seen set |
| `Claims.EffectsAtMostOnce` | backend-go/internal/scheduler/store.go:383-514 | Over any schedulers, ticks at any instants, statement-by-statement interleavings and crashes: a claim is committed exactly when its single event is, no two events are the same send, block, month's fee or window's snapshot, and a plan has one default event exactly when it is defaulted |
| `Claims.StepKeeps` | backend-go/internal/scheduler/store.go:465-492 | Each statement (insert of the claim, guarded plan update, append, commit, abort) keeps the invariant that ties a transaction's writes to its statements, uncommitted keys and rows to one transaction, and claims to events; claims and events only grow |
| `Claims.OneFeePerMonth` | backend-go/internal/scheduler/jobs.go:175-232 | In every run, two fee events on one receivable of an org are of different calendar months |
| `Claims.OneSnapshotPerWindow` | backend-go/internal/scheduler/jobs.go:298-351 | In every run, of two snapshot events of an org at one interval neither was taken in the window the other truncates to, whatever the interval |
| `Claims.EveryWindowSnapshottedExactly` | backend-go/internal/scheduler/jobs.go:298-304 | A snapshot attempt that ends well leaves its own window snapshotted, in every run at one interval, if and only if the interval is at least a second |
| `Claims.SubSecondWindowMissed` | backend-go/internal/scheduler/jobs.go:302-304 | From empty tables, for every shorter interval, the window after a snapshot finds its key taken and goes without one |
| `Claims.SettledEffectExactlyOnce` | backend-go/internal/scheduler/store.go:465-492 | However often and by whomever it is attempted, an effect without a twin whose attempt once commits, or finds its key taken, has exactly one event of its send, block, month or window second, then and after every later run |
| `Claims.ClaimMeansEffectExactly` | backend-go/internal/scheduler/store.go:465-492 | In every run an effect's claim is taken if and only if the same effect, or a twin that shares its key, was emitted |
| `Claims.SharedClaimExactly` | backend-go/internal/scheduler/jobs.go:22-28 | For ids without a colon two effects share a claim if and only if they are the same (send, block, receivable and month, or window second) or one sends a step named "blocked:" + the step the other blocks |
| `Claims.NoTwinWithoutPrefix` | backend-go/internal/scheduler/jobs.go:18-28 | A step whose key does not start with "blocked:" has no twin |
| `Claims.TwinIsSwallowed` | backend-go/internal/scheduler/jobs.go:22-28 | Once a step is reported blocked, no later run ever emits the send of the step named after that block |
| `Claims.OnceIs` | backend-go/internal/scheduler/store.go:465-492 | An undisturbed claiming transaction is a run of the machine that adds the claim and its event together |
| `Stamps.PeriodNamesMonth` | backend-go/internal/scheduler/jobs.go:175-181 | Two instants have one period key if and only if they fall in one calendar month |
| `Stamps.StampsDiffer` | backend-go/internal/scheduler/jobs.go:302-304 | Two seconds with one RFC 3339 text are the same second |
| `Stamps.WindowIdNamesWindowExactly` | backend-go/internal/scheduler/jobs.go:298-304 | Two instants have one window id exactly when the one lies within an interval of where the other truncates to, if and only if the interval is at least a second |
| `DunningJob.Store.ClaimEffect` | backend-go/internal/scheduler/store.go:465-492 | The claim and its event are written together, or neither when the claim exists |
| `DunningJob.Store.SentSteps` | backend-go/internal/scheduler/jobs.go:95-106 | The steps whose send keys are claimed, recovered from the keys |
| `DunningJob.Store.DunningSubjects` | backend-go/internal/scheduler/store.go:143-170 | The subject query returns the first `limit` live receivables due by the horizon, by (due date, id) |
| `DunningJob.Store.RunDunning` | backend-go/internal/scheduler/jobs.go:78-173 | A pass over the scanned subjects of the stored table: invalid ladders and batches refused, due steps claimed as sends or refusals in the scan's order, and the events counted; what consent decides is DunningReach.ConsentGoverns |
| `DunningJob.RerunEmitsNothing` | backend-go/internal/scheduler/jobs.go:71-77 | A second pass at the same instant over the same subjects and grants claims and emits nothing |
| `DunningJob.PassIsARun` | backend-go/internal/scheduler/jobs.go:127-170 | A pass's claims are a run of the claim machine's transactions |
| `ScanOrder.SelectedExactly` | backend-go/internal/scheduler/store.go:146-152 | A row is among the first `batch` by (due date, id) if and only if fewer than `batch` rows precede it |
| `DunningScan.ScannedExactly` | backend-go/internal/scheduler/store.go:143-152 | A live receivable is scanned if and only if it is due by the horizon and fewer than `batch` live receivables precede it |
| `DunningScan.ScanHidesNoWorkExactly` | backend-go/internal/scheduler/jobs.go:30-43 | For every table, instant and receivable with due steps, being scanned is the same as having fewer than `batch` live receivables ahead, if and only if the ladder's window fits a 64-bit duration |
| `DunningReach.PassSettlesExactly` | backend-go/internal/scheduler/jobs.go:71-173 | With a window that fits, a pass claims every due step of a live receivable that has one outstanding, as a send or a refusal, if and only if fewer than `batch` live receivables precede it |
| `DunningReach.ConsentGoverns` | backend-go/internal/scheduler/jobs.go:107-170 | Every event a pass adds is for a live receivable, its org and a due, unsent step of the ladder: a send only if the step asks for no consent or a grant with a non-blank reference is live for that org, customer and channel, a block only if the step asks for consent and no such grant is live |
| `DunningReach.SettledAsConsented` | backend-go/internal/scheduler/jobs.go:107-170 | A due step of a settled receivable is sent, or needs consent that is missing and is reported blocked |
| `DunningReach.NeverReached` | backend-go/internal/scheduler/jobs.go:71-173 | However many passes run, at whatever instants and grants, nothing is claimed or emitted for a receivable that stays behind `batch` live ones, whether or not those have anything left to send |
| `DunningReach.LastIsStarved` | backend-go/internal/scheduler/store.go:146-152 | For every batch size, from empty tables: one pass sends the step of everyone ahead and a second emits nothing, yet no pass ever emits the due step of the last receivable |
| `Scans.ValidateLadder` | backend-go/internal/scheduler/dunning.go:102-123 | Accepted if and only if non-empty, keys non-blank and unique, offsets non-decreasing |
| `Scans.SelectDue` | backend-go/internal/scheduler/dunning.go:168-190 | The selection loop returns the due, unsent steps in ladder order |
| `Scans.DueStepsAre` | backend-go/internal/scheduler/dunning.go:168-190 | A step is selected if and only if it is in the ladder, unsent, and the subject is at least its offset in UTC days past due |
| `Scans.Horizon` | backend-go/internal/scheduler/jobs.go:35-43 | The scan window as the 64-bit duration the loop computes |
| `Scans.HorizonHidesNoWorkExactly` | backend-go/internal/scheduler/jobs.go:30-43 | Every subject with due steps is due by the scan's horizon, for every instant, due date and sent set, if and only if the window fits a 64-bit duration |
| `Scans.HorizonIsTight` | backend-go/internal/scheduler/jobs.go:30-43 | Some subject has work up to one nanosecond before the window closes |
| `Scans.SearchTrigger` | backend-go/internal/scheduler/plans.go:68-111 | The filter and search loops return the first unpaid installment late by at least the grace, or the refusal |
| `Scans.TriggerIsTheFirst` | backend-go/internal/scheduler/plans.go:68-111 | The search names the first installment that is scheduled or due, not paid in full and at least the grace late, with its number and days late; it finds none if and only if there is none, and refuses a negative grace |
| `Scans.PrefilterAgreesExactly` | backend-go/internal/scheduler/store.go:317-332 | For every instant and installments the SQL predicate holds exactly when the trigger search finds a trigger, if and only if the grace is 1 to 106 751 days |
| `Scans.LateIffDue` | backend-go/internal/scheduler/plans.go:53-59 | Saturated or not, whole days late reach the grace exactly when the due date is that many days past |
| `LateFee.AccrueLateFee` | backend-go/internal/scheduler/latefee.go:280-393 | The accrual with its two searches returns the verbatim row, the marker, the fresh charge or the refusal, in the code's order |
| `LateFee.ChargedExactly` | backend-go/internal/scheduler/latefee.go:335-393 | A period not yet charged is charged if and only if the receivable is live, overdue by flag or clock, past the grace by the clock, with money outstanding in one currency, and fee and balance are in range; the fee is the flat amount or the exact share of the whole balance, at most the cap |
| `LateFee.RefusedForCause` | backend-go/internal/scheduler/latefee.go:335-393 | Every refusal of a fresh charge is for the case it names |
| `LateFee.PolicyValidExactly` | backend-go/internal/scheduler/latefee.go:104-150 | A policy is valid if and only if it is of one kind, with that kind's amount alone and nothing negative; a refusal names what is wrong |
| `LateFee.BlankPeriodIsRefused` | backend-go/internal/scheduler/latefee.go:280-290 | A period key is asked for if and only if the given one is all white space |
| `LateFee.PathsAgreeExactly` | backend-go/internal/scheduler/latefee.go:299-418 | The already-charged marker carries the fresh charge, or 0 where it is refused, if and only if no amount that would be charged leaves the safe-integer range |
| `LateFee.UnsafeChargeShows` | backend-go/internal/scheduler/latefee.go:303-393 | A balance of 2^53 cents: the fresh path refuses, the marker shows the fee |
| `LateFee.MarkerIsZeroExactly` | backend-go/internal/scheduler/latefee.go:303-333 | Within the range the marker shows 0 exactly where a fresh charge is refused or comes to 0 |
| `LateFee.BalancesAgree` | backend-go/internal/scheduler/latefee.go:395-418 | The marker's reading of the eligibility ladder and the fresh path's pick the same balance |
| `LateFee.OneFeePerPeriod` | backend-go/internal/scheduler/latefee.go:291-333 | Over any sequence of accruals, each given the fees charged before it, no period is charged twice, nor one known to be charged |
| `LateFee.ChargedPeriodReturnsItsFee` | backend-go/internal/scheduler/latefee.go:291-316 | An accrual of a charged period returns the fee charged for it verbatim, whatever the receivable has become |
| `LateFeeJob.FeeStore.RunLateFee` | backend-go/internal/scheduler/jobs.go:191-232 | A pass over the scanned debts: invalid policies and batches refused, fees claimed in the scan's order, business refusals passed over, the first other refusal ending the pass with that error |
| `LateFeeJob.FeePassIsARun` | backend-go/internal/scheduler/jobs.go:191-232 | A whole pass is a run of the claim machine's transactions |
| `LateFeeJob.ScanHidesNoFee` | backend-go/internal/scheduler/store.go:225-238 | Every receivable the accrual would charge satisfies the scan's predicate |
| `LateFeeJob.PassChargesExactly` | backend-go/internal/scheduler/jobs.go:183-232 | A pass charges a chargeable receivable not yet charged in the month if and only if fewer than `batch` candidates precede it and none of those ends the pass |
| `LateFeeJob.PassChargesPlainly` | backend-go/internal/scheduler/jobs.go:183-232 | In the table's own terms: a pass charges a receivable for the month, under its own org, if and only if it is live, with a balance, overdue and past the grace, its fee can be booked, fewer than `batch` such overdue ones are due before it (ties by id) and none of those has a fee that is due and cannot be booked |
| `LateFeeJob.NeverCharged` | backend-go/internal/scheduler/jobs.go:183-232 | However many passes run, at whatever instants, a receivable each of them is cut off before is never charged |
| `LateFeeJob.UnsafeDebtBlocksTheQueue` | backend-go/internal/scheduler/scheduler.go:302-319 | From empty tables, one debt past the safe-integer range keeps a chargeable one behind it uncharged for ever, whatever the batch |
| `LateFeeJob.CrowdBlocksTheQueue` | backend-go/internal/scheduler/store.go:230-238 | From empty tables, for every batch size, a full batch of debts keeps a chargeable one behind it uncharged for ever |
| `LateFee.PercentExactBelowLimit` | backend-go/internal/scheduler/latefee.go:180-191 | The percent fee is the exact floor if and only if the product stays below 2^63 |
| `LateFee.SafeFeeIsExact` | backend-go/internal/scheduler/latefee.go:176-191 | For balances up to 2^53 − 1 and at most 1024 basis points the product never wraps and the fee is the exact floor, clamped to the cap |
| `LateFee.LargerRateWraps` | backend-go/internal/scheduler/latefee.go:180-191 | One basis point more on the largest safe balance wraps to a negative fee |
| `GoTime.FloorDays` | backend-go/internal/scheduler/latefee.go:155-161 | The corrected truncating quotient is the floor |
| `WireMoney.ParseWireAmountMinor` | backend-go/internal/daraja/money.go:22-56 | The digit loop with its overflow checks returns what the string is worth, every intermediate value within 64 bits |
| `WireMoney.ParseAcceptsExactly` | backend-go/internal/daraja/money.go:12-56 | A string parses to an amount if and only if, trimmed, it matches the wire pattern with a whole part of at most ⌊2^62/100⌋ and that is its exact cents |
| `WireMoney.ParsesExactlySpellings` | backend-go/internal/daraja/money.go:12-56 | A string parses to an amount if and only if, trimmed, it is the amount as printed, or that without its last zero, or without its fraction of zeros, and the whole part is at most 46,116,860,184,273,879 |
| `WireMoney.SubmatchIsPattern` | backend-go/internal/daraja/money.go:12-16 | A string has the pattern's parts at most one way, and they are the submatches |
| `WireMoney.FormatInt` | backend-go/internal/daraja/money.go:82-94 | Filling the 20-byte buffer from its end prints the decimal digits, without overrun for any 64-bit value |
| `WireMoney.FormatPadded` | backend-go/internal/daraja/money.go:96-102 | Two digits, zero-padded, below 100 |
| `WireMoney.MinorToDecimalString` | backend-go/internal/daraja/money.go:75-80 | Sign, whole part, point and two digits; on the most negative 64-bit value, and only there, the call does not return |
| `WireMoney.NegationSticksExactly` | backend-go/internal/daraja/money.go:75-78 | Negating a negative 64-bit value leaves it negative, and then unchanged, if and only if it is the most negative one |
| `WireMoney.RoundTrip` | backend-go/internal/daraja/money.go:22-102 | Parsing a printed amount gives it back, for every non-negative amount in the parser's range |
| `WireMoney.RoundTripRefusesTheRest` | backend-go/internal/daraja/money.go:22-102 | Printed negatives and printed amounts past the range are refused |
| `WireMoney.ShillingsNeverRound` | backend-go/internal/daraja/money.go:62-71 | An initiation amount is accepted if and only if it is the exact minor amount in whole shillings, and refused as negative if and only if it is |

## Left out

- STK initiation and settlement, B2C, refunds and allocations: gates and network calls around the steps modelled here.
- HTTP routing, authentication, JSON, regular expressions, UUID and timestamp parsing: payloads enter decoded; a handled event whose payload fails its checks is `Malformed`, an unreadable message `Unreadable`.
- The text of a message's subject: the envelope is modelled, and which rows have a subject.
- The relay's cycle loop (`Run`, `RunOnce`, lag and counters), the broker's own deduplication window, and NATS stream set-up: no state the properties depend on.
- Floating-point ratios (DSO, recovery rate, effectiveness ratio) and the limiter's float rounding: rows carry the integers the ratios are taken of; tokens and rates are reals.
- 64-bit wrap-around of analytics sums and of nanosecond differences in aging: amounts and instants there are unbounded integers.
- Stored projection tables: independence is stated of the fold, the log and the rows of the last complete emission, not of rows accumulated over earlier emissions; the constant columns, labels and timestamps of a row are not carried.
- The order of ledger inserts within a pass: the ledger is the set of its rows, as its collapsing read returns it.
- Plan and aging job loops and the advisory lock: their effects are the claim machine's steps; the dunning and late-fee loops are written out.
- ORDER BY and LIMIT of the plan and org scans: the ordered, limited query is modelled for the dunning and late-fee scans.
- Installment advancement (`scheduled` to `due`): one guarded update.
- The zero-time refusals of the dunning dates, and the event fields other than subject and step.
- Declared references of an intake command: blank ones are refused as in the source; the row does not carry them.
- Org ids with surrounding white space: the cache key uses the org id as given, as for UUIDs.
- Settlement.C2BSettlesOnce: covers one org and TransID whose payment only this endpoint touches; a journey key shared across orgs is not modelled.
- Settlement.RedeliverySettles: assumes no other delivery holds the payment's row lock, since a held lock makes the update wait; Settlement.UndisturbedEnds and Settlement.ConfirmFinishes do too.
- Claims.SettledEffectExactlyOnce: assumes ids without a colon, as UUIDs are; DunningReach.NeverReached, DunningReach.PassSettlesExactly, LateFeeJob.NeverCharged and LateFeeJob.PassChargesExactly do too.
- Settlement.SettlementStays: the journey's payment is not allocated, refunded or reversed by other lanes there; Confirmation.ConfirmedStays covers those steps.
- Ingest.DeliveryIndependence: assumes that an event id names one event within its org, and batches that complete and repeat no unseen event; the last is exact by IngestFaults.CleanExactlyWithoutRepeats.
- OutboxOrder.RelayKeepsOrder: assumes publishable appends above what the org has sent or an open batch has still to send, which OutboxAppend.AppendKeepsOrderExactly shows to be needed, no foreign row locks while a batch is selected, and no replay, which resends by design.
- Ingester.IngesterState.RebuildFromLedger: takes the rows its ledger query returned; a query that fails returns before anything is reset.
- Ingester.IngesterState.PassOrg: holds org states as values in a map, so aliasing between the map and a state under work is not captured; a panic stops the pass like an error.
