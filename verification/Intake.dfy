/**
 * Payment intake (R9): a command naming a known idempotency key or a known (channel, external ref)
 * replays the payment it names; any other command creates one, unless the tables refuse it. A
 * process-local cache answers the first probe before the durable key table does.
 */
module Intake {
  import opened Payments
  import opened Text

  // -- trimming -----------------------------------------------------------------

  /** Intake's own trimming loop. */
  method Trim(raw: string) returns (r: string)
    ensures r == Strip(raw, false)
    ensures Tight(r, false)
  {
    var start, end := 0, |raw|;
    while start < end && White(raw[start], false)
      invariant 0 <= start <= end == |raw|
      invariant AllWhite(raw[..start], false)
    {
      start := start + 1;
    }
    while end > start && White(raw[end - 1], false)
      invariant start <= end <= |raw|
      invariant AllWhite(raw[end..], false)
      invariant start < |raw| ==> start < end
    {
      end := end - 1;
    }
    assert raw == raw[..start] + raw[start..end] + raw[end..];
    StripUnwraps(raw[..start], raw[start..end], raw[end..], false);
    return raw[start..end];
  }

  // -- the tables ---------------------------------------------------------------

  datatype Fact = PaymentInitiated(paymentId: string, channel: Channel, requested: int)
                | DuplicateObserved(paymentId: string, externalRef: string)

  /** Payment rows in insertion order, the durable idempotency keys, the outbox. */
  datatype Db = Db(payments: seq<Payment>, keys: map<(string, string), string>, facts: seq<Fact>)

  datatype Probe =
    | ById(org: string, id: string)
    | ByRef(org: string, channel: Channel, externalRef: string)
    | ByKey(org: string, key: string)

  predicate Matches(p: Payment, probe: Probe) {
    match probe
    case ById(org, id) => p.org == org && p.id == id
    case ByRef(org, channel, ref) => p.org == org && p.channel == channel && p.externalRef == ref
    case ByKey(org, key) => p.org == org && p.key == key
  }

  function Find(payments: seq<Payment>, probe: Probe): Option<Payment> {
    if payments == [] then None
    else if Matches(payments[0], probe) then Some(payments[0])
    else Find(payments[1..], probe)
  }

  lemma {:induction false} FindIsRight(payments: seq<Payment>, probe: Probe)
    ensures Find(payments, probe).Some? ==>
              Matches(Find(payments, probe).value, probe) && Find(payments, probe).value in payments
    ensures Find(payments, probe).None? <==> forall i :: 0 <= i < |payments| ==> !Matches(payments[i], probe)
  {
    if payments != [] {
      FindIsRight(payments[1..], probe);
      assert payments == [payments[0]] + payments[1..];
    }
  }

  /** A row keeps being found however many rows are added. */
  lemma {:induction false} FindStays(payments: seq<Payment>, p: Payment, probe: Probe)
    ensures Find(payments + [p], probe)
            == if Find(payments, probe).Some? then Find(payments, probe)
               else if Matches(p, probe) then Some(p) else None
  {
    if payments != [] {
      assert (payments + [p])[1..] == payments[1..] + [p];
      FindStays(payments[1..], p, probe);
    }
  }

  // -- the command --------------------------------------------------------------

  datatype Command = Command(
    channel: string, externalRef: string, key: string, amount: int, currency: string, declaredRefs: seq<string>)

  datatype Reply = Refused(why: Refusal) | Accepted(payment: Payment, duplicate: bool)

  function Ref(cmd: Command): string { Strip(cmd.externalRef, false) }
  function Key(cmd: Command): string { Strip(cmd.key, false) }
  function ChannelOf(cmd: Command): Channel { if cmd.channel == "c2b" then C2B else STK }

  predicate HasBlank(refs: seq<string>) { exists i :: 0 <= i < |refs| && Strip(refs[i], false) == "" }

  function Invalid(cmd: Command): Option<Refusal> {
    if cmd.channel != "c2b" && cmd.channel != "stk" then Some(ChannelInvalid)
    else if Ref(cmd) == "" then Some(ExternalRefRequired)
    else if Key(cmd) == "" then Some(IdempotencyKeyRequired)
    else if cmd.amount <= 0 then Some(AmountMustBePositive)
    else if HasBlank(cmd.declaredRefs) then Some(DeclaredRefBlank)
    else None
  }

  /** A command is well formed exactly when no refusal has its cause, and a refusal names the first that does. */
  lemma WellFormedExactly(cmd: Command)
    ensures var channel := cmd.channel == "c2b" || cmd.channel == "stk";
            var ref, key := !AllWhite(cmd.externalRef, false), !AllWhite(cmd.key, false);
            var refs := forall i :: 0 <= i < |cmd.declaredRefs| ==> !AllWhite(cmd.declaredRefs[i], false);
            match Invalid(cmd)
            case None => channel && ref && key && cmd.amount > 0 && refs
            case Some(ChannelInvalid) => !channel
            case Some(ExternalRefRequired) => channel && !ref
            case Some(IdempotencyKeyRequired) => channel && ref && !key
            case Some(AmountMustBePositive) => channel && ref && key && cmd.amount <= 0
            case Some(DeclaredRefBlank) => channel && ref && key && cmd.amount > 0 && !refs
            case Some(_) => false
  {
    hide Strip, AllWhite;
    BlankExactly(cmd.externalRef, false);
    BlankExactly(cmd.key, false);
    forall i | 0 <= i < |cmd.declaredRefs|
      ensures Strip(cmd.declaredRefs[i], false) == "" <==> AllWhite(cmd.declaredRefs[i], false)
    {
      BlankExactly(cmd.declaredRefs[i], false);
    }
  }

  /** A replay must carry the money of the payment it replays. */
  function MoneyClash(prior: Payment, cmd: Command): Option<Refusal> {
    if prior.currency != cmd.currency then Some(CurrencyMismatch)
    else if prior.requested != cmd.amount then Some(DuplicateAmountMismatch)
    else None
  }

  function NewPayment(org: string, cmd: Command, id: string): Payment {
    Payment(id, org, ChannelOf(cmd), Ref(cmd), Key(cmd), Initiated, cmd.currency, cmd.amount, None)
  }

  /** The unique keys of the payments table: id, (org, external ref), (org, idempotency key). */
  predicate Clash(p: Payment, q: Payment) {
    p.id == q.id || (p.org == q.org && (p.externalRef == q.externalRef || p.key == q.key))
  }

  type Keys = map<(string, string), string>

  function Claim(keys: Keys, org: string, key: string, id: string): Keys {
    if (org, key) in keys then keys else keys[(org, key) := id]
  }

  /** The lane's own probe: by (channel, external ref), then by idempotency key. */
  function Prior(payments: seq<Payment>, org: string, cmd: Command): Option<Payment> {
    var byRef := Find(payments, ByRef(org, ChannelOf(cmd), Ref(cmd)));
    if byRef.Some? then byRef else Find(payments, ByKey(org, Key(cmd)))
  }

  /** What a call answers, leaves in the tables, and hands to the cache. */
  datatype Served = Served(reply: Reply, db: Db, remembered: Option<string>)

  function Observed(db: Db, prior: Payment): Db {
    db.(facts := db.facts + [DuplicateObserved(prior.id, prior.externalRef)])
  }

  /** The registry named the payment: replay it. */
  function Replay(db: Db, prior: Payment, cmd: Command): Served {
    match MoneyClash(prior, cmd)
    case Some(why) => Served(Refused(why), db, None)
    case None => Served(Accepted(prior, true), Observed(db, prior), None)
  }

  /** The payments table named it: replay it and bind the key to it. */
  function Rebind(db: Db, prior: Payment, org: string, cmd: Command): Served {
    match MoneyClash(prior, cmd)
    case Some(why) => Served(Refused(why), db, None)
    case None =>
      var bound := db.(keys := Claim(db.keys, org, Key(cmd), prior.id));
      Served(Accepted(prior, true), Observed(bound, prior), Some(prior.id))
  }

  /** Nothing named it: claim the key and insert, or roll back whole. */
  function FirstContact(db: Db, org: string, cmd: Command, newId: string): Served {
    var p := NewPayment(org, cmd, newId);
    if !SupportedCurrency(cmd.currency) then Served(Refused(CheckViolation), db, None)
    else if exists i :: 0 <= i < |db.payments| && Clash(db.payments[i], p) then Served(Refused(Internal), db, None)
    else Served(Accepted(p, false),
                Db(db.payments + [p], Claim(db.keys, org, Key(cmd), newId),
                   db.facts + [PaymentInitiated(newId, p.channel, cmd.amount)]),
                Some(newId))
  }

  /** One intake call, given what the registry lookup (cache, then key table) returned. */
  function Serve(db: Db, hint: string, org: string, cmd: Command, newId: string): Served {
    if Invalid(cmd).Some? then Served(Refused(Invalid(cmd).value), db, None)
    else
      var named := if hint == "" then None else Find(db.payments, ById(org, hint));
      if named.Some? then Replay(db, named.value, cmd)
      else match Prior(db.payments, org, cmd)
        case Some(prior) => Rebind(db, prior, org, cmd)
        case None => FirstContact(db, org, cmd, newId)
  }

  // -- R9, whatever the cache says ----------------------------------------------

  ghost predicate UniquePayments(payments: seq<Payment>) {
    forall i, j :: 0 <= i < j < |payments| ==> !Clash(payments[i], payments[j])
  }

  ghost predicate KeysNamePayments(db: Db) {
    forall k :: k in db.keys ==> Find(db.payments, ById(k.0, db.keys[k])).Some?
  }

  ghost predicate Inv(db: Db) { UniquePayments(db.payments) && KeysNamePayments(db) }

  lemma ClaimNames(db: Db, db': Db, org: string, key: string, id: string)
    requires KeysNamePayments(db) && db'.keys == Claim(db.keys, org, key, id)
    requires db'.payments == db.payments || exists p :: db'.payments == db.payments + [p]
    requires Find(db'.payments, ById(org, id)).Some?
    ensures KeysNamePayments(db')
  {
    forall k | k in db'.keys
      ensures Find(db'.payments, ById(k.0, db'.keys[k])).Some?
    {
      if k in db.keys && db'.payments != db.payments {
        var p :| db'.payments == db.payments + [p];
        FindStays(db.payments, p, ById(k.0, db.keys[k]));
      }
    }
  }

  lemma PriorIsFound(payments: seq<Payment>, org: string, cmd: Command)
    ensures Prior(payments, org, cmd).Some? ==>
              var p := Prior(payments, org, cmd).value;
              p in payments && p.org == org && Find(payments, ById(org, p.id)).Some?
  {
    hide Strip;
    var prior := Prior(payments, org, cmd);
    FindIsRight(payments, ByRef(org, ChannelOf(cmd), Ref(cmd)));
    FindIsRight(payments, ByKey(org, Key(cmd)));
    if prior.Some? {
      FindIsRight(payments, ById(org, prior.value.id));
      var i :| 0 <= i < |payments| && payments[i] == prior.value;
      assert Matches(payments[i], ById(org, prior.value.id));
    }
  }

  lemma FirstContactKeeps(db: Db, org: string, cmd: Command, newId: string)
    requires Inv(db)
    ensures Inv(FirstContact(db, org, cmd, newId).db)
  {
    hide Strip, Find, SupportedCurrency;
    var served := FirstContact(db, org, cmd, newId);
    if served.reply.Accepted? {
      var p := served.reply.payment;
      FindStays(db.payments, p, ById(org, newId));
      ClaimNames(db, served.db, org, Key(cmd), newId);
    }
  }

  /** R9 holds of every call for every registry answer: the cache cannot break it. */
  lemma ServeKeeps(db: Db, hint: string, org: string, cmd: Command, newId: string)
    requires Inv(db)
    ensures Inv(Serve(db, hint, org, cmd, newId).db)
  {
    hide Strip, Find, Invalid, UniquePayments, FirstContact, MoneyClash;
    var prior := Prior(db.payments, org, cmd);
    if prior.Some? {
      PriorIsFound(db.payments, org, cmd);
      var claimed := db.(keys := Claim(db.keys, org, Key(cmd), prior.value.id));
      ClaimNames(db, claimed, org, Key(cmd), prior.value.id);
    }
    FirstContactKeeps(db, org, cmd, newId);
  }

  /**
   * A call adds at most one payment, and exactly when it is the first contact; a replay or a refusal
   * leaves the payments as they were, a refusal everything.
   */
  lemma ServeAddsAtMostOne(db: Db, hint: string, org: string, cmd: Command, newId: string)
    ensures var served := Serve(db, hint, org, cmd, newId);
            match served.reply
            case Refused(_) => served.db == db
            case Accepted(p, true) =>
              && served.db.payments == db.payments && p in db.payments && p.org == org
              && p.requested == cmd.amount && p.currency == cmd.currency
              && served.db.facts == db.facts + [DuplicateObserved(p.id, p.externalRef)]
            case Accepted(p, false) =>
              && served.db.payments == db.payments + [p]
              && p.id == newId && p.org == org && (p.channel == C2B <==> cmd.channel == "c2b")
              && p.externalRef == Strip(cmd.externalRef, false) && p.key == Strip(cmd.key, false)
              && p.state == Initiated && p.currency == cmd.currency && p.requested == cmd.amount && p.confirmed == None
              && served.db.facts == db.facts + [PaymentInitiated(newId, p.channel, cmd.amount)]
  {
    hide Strip, Find, Invalid, Prior, SupportedCurrency;
    PriorIsFound(db.payments, org, cmd);
    FindIsRight(db.payments, ById(org, hint));
  }

  /** Something already names the payment this command is about. */
  ghost predicate Known(db: Db, hint: string, org: string, cmd: Command) {
    || (hint != "" && exists p :: p in db.payments && Matches(p, ById(org, hint)))
    || (exists p :: p in db.payments && Matches(p, ByRef(org, ChannelOf(cmd), Ref(cmd))))
    || (exists p :: p in db.payments && Matches(p, ByKey(org, Key(cmd))))
  }

  lemma FoundIffIn(payments: seq<Payment>, probe: Probe)
    ensures Find(payments, probe).Some? <==> exists p :: p in payments && Matches(p, probe)
  {
  }

  /** A well-formed command is replayed (or refused for its money) exactly when something names its payment. */
  lemma ReplayedExactlyWhenKnown(db: Db, hint: string, org: string, cmd: Command, newId: string)
    requires Invalid(cmd).None?
    ensures var reply := Serve(db, hint, org, cmd, newId).reply;
            Known(db, hint, org, cmd) <==>
            (reply.Accepted? && reply.duplicate)
            || reply == Refused(CurrencyMismatch) || reply == Refused(DuplicateAmountMismatch)
  {
    hide Strip, Find, Invalid, SupportedCurrency;
    FoundIffIn(db.payments, ById(org, hint));
    FoundIffIn(db.payments, ByRef(org, ChannelOf(cmd), Ref(cmd)));
    FoundIffIn(db.payments, ByKey(org, Key(cmd)));
  }

  /** The payments table has room for the command's payment: its currency, its id and its ref in the org. */
  ghost predicate Room(db: Db, org: string, cmd: Command, newId: string) {
    && SupportedCurrency(cmd.currency)
    && (forall p :: p in db.payments ==> p.id != newId)
    && (forall p :: p in db.payments && p.org == org ==> p.externalRef != Ref(cmd))
  }

  lemma RoomMeansNoClash(db: Db, org: string, cmd: Command, newId: string)
    requires forall p :: p in db.payments && p.org == org ==> p.key != Key(cmd)
    ensures FirstContact(db, org, cmd, newId).reply
            == if Room(db, org, cmd, newId) then Accepted(NewPayment(org, cmd, newId), false)
               else Refused(if SupportedCurrency(cmd.currency) then Internal else CheckViolation)
  {
    hide Strip, SupportedCurrency;
    var p := NewPayment(org, cmd, newId);
    if !Room(db, org, cmd, newId) && SupportedCurrency(cmd.currency) {
      var q :| q in db.payments && (q.id == newId || (q.org == org && q.externalRef == Ref(cmd)));
      assert Clash(q, p);
    }
  }

  /**
   * For every command, tables and registry answer: a new payment is created exactly when the command is
   * well formed, nothing names its payment and the table has room, its ref unused on both channels. A
   * well-formed unknown command that finds no room is refused and changes nothing.
   */
  lemma CreatedExactly(db: Db, hint: string, org: string, cmd: Command, newId: string)
    ensures Serve(db, hint, org, cmd, newId).reply == Accepted(NewPayment(org, cmd, newId), false)
            <==> Invalid(cmd).None? && !Known(db, hint, org, cmd) && Room(db, org, cmd, newId)
    ensures Invalid(cmd).None? && !Known(db, hint, org, cmd) && !Room(db, org, cmd, newId) ==>
              Serve(db, hint, org, cmd, newId)
              == Served(Refused(if SupportedCurrency(cmd.currency) then Internal else CheckViolation), db, None)
  {
    hide Strip, Find, Invalid, SupportedCurrency, Room, NewPayment;
    FoundIffIn(db.payments, ById(org, hint));
    FoundIffIn(db.payments, ByRef(org, ChannelOf(cmd), Ref(cmd)));
    FoundIffIn(db.payments, ByKey(org, Key(cmd)));
    if !Known(db, hint, org, cmd) {
      assert forall p :: p in db.payments && p.org == org && p.key == Key(cmd) ==> Matches(p, ByKey(org, Key(cmd)));
      RoomMeansNoClash(db, org, cmd, newId);
    }
  }

  /**
   * The lookup is per channel but the unique index is not: an external ref taken on the other channel
   * is refused with an internal error, and nothing changes.
   */
  lemma RefOfOtherChannelIsRefused(db: Db, hint: string, org: string, cmd: Command, newId: string, other: Payment)
    requires Invalid(cmd).None? && SupportedCurrency(cmd.currency) && !Known(db, hint, org, cmd)
    requires other in db.payments && other.org == org && other.externalRef == Ref(cmd)
    ensures Serve(db, hint, org, cmd, newId) == Served(Refused(Internal), db, None)
  {
    hide Strip, Invalid, SupportedCurrency, Known, Serve;
    CreatedExactly(db, hint, org, cmd, newId);
  }

  // -- the cache ----------------------------------------------------------------

  type Cache = map<(string, string), string>

  /** The cache strips keys more eagerly than intake does; a key that strips to nothing is never cached. */
  function CacheKey(org: string, key: string): (string, string) { (org, Strip(key, true)) }

  function Remember(cache: Cache, org: string, key: string, id: string): Cache {
    if CacheKey(org, key).1 == "" || CacheKey(org, key) in cache then cache else cache[CacheKey(org, key) := id]
  }

  function Durable(db: Db, org: string, key: string): string {
    if (org, key) in db.keys then db.keys[(org, key)] else ""
  }

  function Lookup(db: Db, cache: Cache, org: string, key: string): string {
    if CacheKey(org, key).1 != "" && CacheKey(org, key) in cache then cache[CacheKey(org, key)]
    else Durable(db, org, key)
  }

  /** A call, and whether the commit it comes to succeeds. */
  datatype Call = Call(org: string, cmd: Command, newId: string, commits: bool)

  datatype Proc = Proc(db: Db, cache: Cache)

  /** A failed commit leaves the tables as they were; what the closure told the cache stays told. */
  function Committed(db: Db, served: Served, commits: bool): Served {
    if commits || !served.reply.Accepted? then served else Served(Refused(CommitFailed), db, served.remembered)
  }

  function Cold(db: Db, c: Call): Served {
    Committed(db, Serve(db, Durable(db, c.org, Key(c.cmd)), c.org, c.cmd, c.newId), c.commits)
  }

  function Warm(s: Proc, c: Call): Served {
    Committed(s.db, Serve(s.db, Lookup(s.db, s.cache, c.org, Key(c.cmd)), c.org, c.cmd, c.newId), c.commits)
  }

  function After(s: Proc, c: Call): Proc {
    var served := Warm(s, c);
    Proc(served.db,
         if served.remembered.Some? then Remember(s.cache, c.org, Key(c.cmd), served.remembered.value) else s.cache)
  }

  ghost function Replies(s: Proc, calls: seq<Call>): seq<Reply>
    decreases calls
  {
    if calls == [] then [] else [Warm(s, calls[0]).reply] + Replies(After(s, calls[0]), calls[1..])
  }

  ghost function Final(s: Proc, calls: seq<Call>): Proc
    decreases calls
  {
    if calls == [] then s else Final(After(s, calls[0]), calls[1..])
  }

  /** The same calls with the cache emptied before each. */
  ghost function ColdReplies(db: Db, calls: seq<Call>): seq<Reply>
    decreases calls
  {
    if calls == [] then [] else [Cold(db, calls[0]).reply] + ColdReplies(Cold(db, calls[0]).db, calls[1..])
  }

  ghost function ColdFinal(db: Db, calls: seq<Call>): Db
    decreases calls
  {
    if calls == [] then db else ColdFinal(Cold(db, calls[0]).db, calls[1..])
  }

  ghost predicate RealIds(db: Db) { forall i :: 0 <= i < |db.payments| ==> db.payments[i].id != "" }

  /** Stripping tells the keys in use apart. */
  ghost predicate Separated(used: iset<(string, string)>) {
    forall a, b :: a in used && b in used && CacheKey(a.0, a.1) == CacheKey(b.0, b.1) && CacheKey(a.0, a.1).1 != "" ==>
                     a == b
  }

  /** Calls under the given keys, with real ids, whose commits succeed. */
  ghost predicate Within(calls: seq<Call>, used: iset<(string, string)>) {
    forall i :: 0 <= i < |calls| ==>
      calls[i].commits && calls[i].newId != "" && (Invalid(calls[i].cmd).None? ==> (calls[i].org, Key(calls[i].cmd)) in used)
  }

  ghost predicate CacheAgrees(s: Proc, used: iset<(string, string)>) {
    forall a :: a in used && CacheKey(a.0, a.1).1 != "" && CacheKey(a.0, a.1) in s.cache ==>
                  a in s.db.keys && s.db.keys[a] == s.cache[CacheKey(a.0, a.1)]
  }

  ghost predicate Sound(db: Db) { Inv(db) && RealIds(db) }

  lemma ClaimedKeysAreReal(db: Db, org: string, key: string)
    requires Sound(db)
    ensures (org, key) in db.keys ==>
              Durable(db, org, key) != "" && Find(db.payments, ById(org, Durable(db, org, key))).Some?
  {
    if (org, key) in db.keys {
      FindIsRight(db.payments, ById(org, db.keys[(org, key)]));
    }
  }

  /** An accepted call leaves its key bound to the payment it returned, for good. */
  lemma AcceptedBinds(db: Db, c: Call)
    requires Sound(db) && c.newId != "" && c.commits
    ensures Sound(Cold(db, c).db)
    ensures forall k :: k in db.keys ==> k in Cold(db, c).db.keys && Cold(db, c).db.keys[k] == db.keys[k]
    ensures Cold(db, c).reply.Accepted? ==>
              var key := (c.org, Key(c.cmd));
              key in Cold(db, c).db.keys && Cold(db, c).db.keys[key] == Cold(db, c).reply.payment.id
    ensures Cold(db, c).remembered.Some? ==>
              Cold(db, c).reply.Accepted? && Cold(db, c).remembered.value == Cold(db, c).reply.payment.id
  {
    hide Strip, Find, Invalid, SupportedCurrency, Prior, UniquePayments, KeysNamePayments;
    var hint := Durable(db, c.org, Key(c.cmd));
    ServeKeeps(db, hint, c.org, c.cmd, c.newId);
    ServeAddsAtMostOne(db, hint, c.org, c.cmd, c.newId);
    ClaimedKeysAreReal(db, c.org, Key(c.cmd));
    FindIsRight(db.payments, ById(c.org, hint));
  }

  /** A call leaves the tables sound, and what they hold in place, whether or not it commits. */
  lemma ColdKeeps(db: Db, c: Call)
    requires Sound(db) && c.newId != ""
    ensures var db' := Cold(db, c).db;
            && Sound(db') && (forall p :: p in db.payments ==> p in db'.payments)
            && forall k :: k in db.keys ==> k in db'.keys && db'.keys[k] == db.keys[k]
  {
    hide Strip, Find, Invalid, SupportedCurrency, Prior, UniquePayments, KeysNamePayments, Serve;
    var hint := Durable(db, c.org, Key(c.cmd));
    ServeKeeps(db, hint, c.org, c.cmd, c.newId);
    ServeAddsAtMostOne(db, hint, c.org, c.cmd, c.newId);
    ServeGrows(db, hint, c.org, c.cmd, c.newId);
  }

  lemma {:induction false} ColdRunKeeps(db: Db, calls: seq<Call>)
    requires Sound(db) && forall i :: 0 <= i < |calls| ==> calls[i].newId != ""
    ensures var db' := ColdFinal(db, calls);
            && Sound(db') && (forall p :: p in db.payments ==> p in db'.payments)
            && forall k :: k in db.keys ==> k in db'.keys && db'.keys[k] == db.keys[k]
    decreases calls
  {
    hide Cold, Sound;
    if calls != [] {
      ColdKeeps(db, calls[0]);
      ColdRunKeeps(Cold(db, calls[0]).db, calls[1..]);
    }
  }

  /** A payment is found by its id. */
  lemma FoundById(payments: seq<Payment>, p: Payment)
    requires UniquePayments(payments) && p in payments
    ensures Find(payments, ById(p.org, p.id)) == Some(p)
  {
    hide Find;
    FindIsRight(payments, ById(p.org, p.id));
    var i :| 0 <= i < |payments| && payments[i] == p;
    assert Matches(payments[i], ById(p.org, p.id));
  }

  /** A command once accepted is accepted ever after, as a duplicate, with the payment it was first answered with. */
  lemma {:induction false} RepeatIsAccepted(db: Db, c: Call, later: seq<Call>, again: Call)
    requires Sound(db) && c.newId != "" && c.commits && Cold(db, c).reply.Accepted?
    requires forall i :: 0 <= i < |later| ==> later[i].newId != ""
    requires again.org == c.org && again.cmd == c.cmd && again.commits
    ensures Cold(ColdFinal(Cold(db, c).db, later), again).reply == Accepted(Cold(db, c).reply.payment, true)
  {
    hide Strip, Find, ColdFinal, FirstContact, Rebind, Prior, UniquePayments, KeysNamePayments, RealIds;
    var first := Cold(db, c);
    var p := first.reply.payment;
    AcceptedBinds(db, c);
    assert first.reply == Serve(db, Durable(db, c.org, Key(c.cmd)), c.org, c.cmd, c.newId).reply;
    AcceptedPays(db, c);
    ColdRunKeeps(first.db, later);
    var db' := ColdFinal(first.db, later);
    FoundById(db'.payments, p);
    ClaimedKeysAreReal(db', c.org, Key(c.cmd));
  }

  /** What an accepted call answers with is in the tables, and for the command's money. */
  lemma AcceptedPays(db: Db, c: Call)
    requires c.commits && Cold(db, c).reply.Accepted?
    ensures var p := Cold(db, c).reply.payment;
            && Invalid(c.cmd).None? && p in Cold(db, c).db.payments && p.org == c.org
            && p.requested == c.cmd.amount && p.currency == c.cmd.currency
  {
    hide Strip, Find, FirstContact, Rebind, Prior, Replay, Invalid;
    ServeAddsAtMostOne(db, Durable(db, c.org, Key(c.cmd)), c.org, c.cmd, c.newId);
  }

  lemma AgreementStays(s: Proc, c: Call, used: iset<(string, string)>)
    requires Sound(s.db) && c.newId != "" && c.commits && CacheAgrees(s, used) && Separated(used)
    requires Invalid(c.cmd).None? ==> (c.org, Key(c.cmd)) in used
    ensures Warm(s, c) == Cold(s.db, c) && CacheAgrees(After(s, c), used)
  {
    hide Strip, Find, Invalid, FirstContact, Rebind, Replay, Sound;
    AcceptedBinds(s.db, c);
  }

  lemma {:induction false} CacheInvisible(s: Proc, calls: seq<Call>, used: iset<(string, string)>)
    requires Sound(s.db) && CacheAgrees(s, used) && Separated(used) && Within(calls, used)
    ensures Replies(s, calls) == ColdReplies(s.db, calls) && Final(s, calls).db == ColdFinal(s.db, calls)
    decreases calls
  {
    hide Warm, Cold, Sound, CacheAgrees, Separated;
    if calls != [] {
      AgreementStays(s, calls[0], used);
      AcceptedBinds(s.db, calls[0]);
      assert After(s, calls[0]).db == Warm(s, calls[0]).db;
      CacheInvisible(After(s, calls[0]), calls[1..], used);
    }
  }

  const EMPTY := Db([], map[], [])

  lemma TwoReplies(s: Proc, a: Call, b: Call)
    ensures Replies(s, [a, b]) == [Warm(s, a).reply, Warm(After(s, a), b).reply]
    ensures ColdReplies(s.db, [a, b]) == [Cold(s.db, a).reply, Cold(Cold(s.db, a).db, b).reply]
  {
    hide Warm, Cold, After;
    assert [a, b][1..] == [b];
    assert Replies(After(s, a), [b]) == [Warm(After(s, a), b).reply];
    assert ColdReplies(Cold(s.db, a).db, [b]) == [Cold(Cold(s.db, a).db, b).reply];
  }

  function Clean(org: string, ref: string, key: string, amount: int, newId: string): Call {
    Call(org, Command("c2b", ref, key, amount, "KES", []), newId, true)
  }

  /** On empty tables a clean command creates its payment and claims its key. */
  lemma FirstCallCreates(c: Call, ref: string, key: string)
    requires c == Clean(c.org, ref, key, c.cmd.amount, c.newId) && c.cmd.amount > 0
    requires ref != "" && Strip(ref, false) == ref && key != "" && Strip(key, false) == key
    ensures Cold(EMPTY, c) == Served(Accepted(NewPayment(c.org, c.cmd, c.newId), false),
                                     Db([NewPayment(c.org, c.cmd, c.newId)], map[(c.org, key) := c.newId],
                                        [PaymentInitiated(c.newId, C2B, c.cmd.amount)]),
                                     Some(c.newId))
    ensures Warm(Proc(EMPTY, map[]), c) == Cold(EMPTY, c)
  {
    hide Strip;
  }

  /** One ref under two keys, first over STK and then over C2B. */
  function OneRefTwice(org: string): seq<Call> {
    [Call(org, Command("stk", "A", "k", 1, "KES", []), "p1", true), Clean(org, "A", "m", 1, "p2")]
  }

  /** From empty tables: the ref's payment over the first channel stands, the command over the other is refused. */
  lemma OtherChannelShows(org: string)
    ensures var start := Proc(EMPTY, map[]);
            var first := Payment("p1", org, STK, "A", "k", Initiated, "KES", 1, None);
            && Replies(start, OneRefTwice(org)) == [Accepted(first, false), Refused(Internal)]
            && Final(start, OneRefTwice(org)).db.payments == [first]
  {
    hide Strip;
    StripUnwraps("", "A", "", false);
    StripUnwraps("", "k", "", false);
    StripUnwraps("", "m", "", false);
    StripUnwraps("", "k", "", true);
    StripUnwraps("", "m", "", true);
    assert "" + "A" + "" == "A" && "" + "k" + "" == "k" && "" + "m" + "" == "m";
    var start, calls := Proc(EMPTY, map[]), OneRefTwice(org);
    TwoReplies(start, calls[0], calls[1]);
    FirstOverStk(org);
    ThenOverC2B(org);
    assert calls[1..] == [calls[1]];
    assert Final(After(start, calls[0]), [calls[1]]) == After(After(start, calls[0]), calls[1]);
  }

  ghost predicate PlainNames() {
    && Strip("A", false) == "A" && Strip("k", false) == "k" && Strip("m", false) == "m"
    && Strip("k", true) == "k" && Strip("m", true) == "m"
  }

  function OverStk(org: string): Proc {
    Proc(Db([Payment("p1", org, STK, "A", "k", Initiated, "KES", 1, None)], map[(org, "k") := "p1"],
            [PaymentInitiated("p1", STK, 1)]),
         map[(org, "k") := "p1"])
  }

  lemma FirstOverStk(org: string)
    requires PlainNames()
    ensures var start, c := Proc(EMPTY, map[]), OneRefTwice(org)[0];
            Warm(start, c).reply == Accepted(OverStk(org).db.payments[0], false) && After(start, c) == OverStk(org)
  {
    hide Strip;
  }

  lemma ThenOverC2B(org: string)
    requires PlainNames()
    ensures var c := OneRefTwice(org)[1];
            Warm(OverStk(org), c).reply == Refused(Internal) && After(OverStk(org), c) == OverStk(org)
  {
    hide Strip, Find;
    var c, db := OneRefTwice(org)[1], OverStk(org).db;
    assert "k"[0] != "m"[0];
    FindIsRight(db.payments, ByRef(org, C2B, "A"));
    FindIsRight(db.payments, ByKey(org, "m"));
    assert Prior(db.payments, org, c.cmd) == None;
    assert Clash(db.payments[0], NewPayment(org, c.cmd, "p2"));
  }

  /** Two keys the cache cannot tell apart: the second command is taken for a tampered replay of the first. */
  lemma CollisionShows(org: string, a: string, b: string)
    requires a != b && a != "" && b != "" && Strip(a, false) == a && Strip(b, false) == b
    requires Strip(a, true) == Strip(b, true) != ""
    ensures var calls := [Clean(org, "A", a, 1, "p1"), Clean(org, "B", b, 2, "p2")];
            Replies(Proc(EMPTY, map[]), calls) != ColdReplies(EMPTY, calls)
  {
    var first, second := Clean(org, "A", a, 1, "p1"), Clean(org, "B", b, 2, "p2");
    var start := Proc(EMPTY, map[]);
    StripUnwraps("", "A", "", false);
    StripUnwraps("", "B", "", false);
    assert "" + "A" + "" == "A" && "" + "B" + "" == "B";
    TwoReplies(start, first, second);
    FirstCallCreates(first, "A", a);
    CollidingReply(org, a, b);
  }

  lemma CollidingReply(org: string, a: string, b: string)
    requires a != b && a != "" && b != "" && Strip(a, false) == a && Strip(b, false) == b
    requires Strip(a, true) == Strip(b, true) != "" && Strip("A", false) == "A" && Strip("B", false) == "B"
    ensures var first, second := Clean(org, "A", a, 1, "p1"), Clean(org, "B", b, 2, "p2");
            && Warm(After(Proc(EMPTY, map[]), first), second).reply.Refused?
            && Cold(Cold(EMPTY, first).db, second).reply.Accepted?
  {
    hide Strip;
    var first, second := Clean(org, "A", a, 1, "p1"), Clean(org, "B", b, 2, "p2");
    FirstCallCreates(first, "A", a);
    var db := Cold(EMPTY, first).db;
    assert Find(db.payments, ById(org, "p1")) == Some(db.payments[0]);
    assert Find(db.payments, ByRef(org, C2B, "B")) == None;
    assert Find(db.payments, ByKey(org, b)) == None;
    assert "p1" != "p2" && "A" != "B";
  }

  /**
   * The cache changes no answer of any run over a set of keys exactly when stripping tells those
   * keys apart.
   */
  lemma CacheTransparentExactly(used: iset<(string, string)>)
    requires forall k :: k in used ==> k.1 != "" && Strip(k.1, false) == k.1
    ensures (forall calls :: Within(calls, used) ==> Replies(Proc(EMPTY, map[]), calls) == ColdReplies(EMPTY, calls))
            <==> Separated(used)
  {
    hide Strip, Invalid, Replies, ColdReplies;
    if Separated(used) {
      forall calls | Within(calls, used)
        ensures Replies(Proc(EMPTY, map[]), calls) == ColdReplies(EMPTY, calls)
      {
        CacheInvisible(Proc(EMPTY, map[]), calls, used);
      }
    } else {
      var a, b :| a in used && b in used && CacheKey(a.0, a.1) == CacheKey(b.0, b.1) && CacheKey(a.0, a.1).1 != ""
                  && a != b;
      var calls := [Clean(a.0, "A", a.1, 1, "p1"), Clean(b.0, "B", b.1, 2, "p2")];
      CollisionShows(a.0, a.1, b.1);
      assert Within(calls, used);
    }
  }

  /** A vertical tab is such a difference: intake keeps it, the cache strips it. */
  lemma VerticalTabCollides()
    ensures Strip("\U{0B}k", false) == "\U{0B}k" && Strip("k", false) == "k"
    ensures Strip("\U{0B}k", true) == Strip("k", true) == "k"
  {
    StripUnwraps("", "\U{0B}k", "", false);
    StripUnwraps("", "k", "", false);
    StripUnwraps("\U{0B}", "k", "", true);
    StripUnwraps("", "k", "", true);
    assert "" + "\U{0B}k" + "" == "\U{0B}k" && "" + "k" + "" == "k" && "\U{0B}" + "k" + "" == "\U{0B}k";
  }

  // -- whole runs ---------------------------------------------------------------

  ghost function FirstContacts(replies: seq<Reply>): nat {
    if replies == [] then 0
    else (if replies[0].Accepted? && !replies[0].duplicate then 1 else 0) + FirstContacts(replies[1..])
  }

  lemma ServeGrows(db: Db, hint: string, org: string, cmd: Command, newId: string)
    ensures forall k :: k in db.keys ==>
              var db' := Serve(db, hint, org, cmd, newId).db; k in db'.keys && db'.keys[k] == db.keys[k]
  {
    hide Strip, Find, Invalid, SupportedCurrency, Prior, Clash;
  }

  /** One call of the running process, whatever its cache holds and whether or not its commit succeeds. */
  lemma CallKeepsR9(s: Proc, c: Call)
    requires Inv(s.db)
    ensures var served := Warm(s, c);
            && Inv(served.db)
            && served.db.payments == s.db.payments + (if served.reply.Accepted? && !served.reply.duplicate
                                                      then [served.reply.payment] else [])
            && forall k :: k in s.db.keys ==> k in served.db.keys && served.db.keys[k] == s.db.keys[k]
  {
    hide Serve, Inv;
    var hint := Lookup(s.db, s.cache, c.org, Key(c.cmd));
    ServeKeeps(s.db, hint, c.org, c.cmd, c.newId);
    ServeAddsAtMostOne(s.db, hint, c.org, c.cmd, c.newId);
    ServeGrows(s.db, hint, c.org, c.cmd, c.newId);
  }

  /**
   * In every run of the process, with its cache as it stands and commits failing at will: R9 uniqueness
   * holds of the tables, payments and claims only grow, and each payment comes from one first contact.
   */
  lemma {:induction false} RunKeepsR9(s: Proc, calls: seq<Call>)
    requires Inv(s.db)
    ensures var db := Final(s, calls).db;
            && Inv(db) && |Replies(s, calls)| == |calls|
            && |db.payments| == |s.db.payments| + FirstContacts(Replies(s, calls))
            && s.db.payments <= db.payments
            && forall k :: k in s.db.keys ==> k in db.keys && db.keys[k] == s.db.keys[k]
    decreases calls
  {
    hide Warm, Inv;
    if calls != [] {
      var c := calls[0];
      CallKeepsR9(s, c);
      RunKeepsR9(After(s, c), calls[1..]);
      var rest := Replies(After(s, c), calls[1..]);
      assert ([Warm(s, c).reply] + rest)[1..] == rest;
    }
  }

  /** With an empty cache before each call, an accepted call's key is bound to its payment at the end. */
  lemma {:induction false} ColdKeysBind(db: Db, calls: seq<Call>, used: iset<(string, string)>, i: nat)
    requires Sound(db) && Within(calls, used) && i < |calls|
    ensures |ColdReplies(db, calls)| == |calls|
    ensures forall k :: k in db.keys ==> k in ColdFinal(db, calls).keys && ColdFinal(db, calls).keys[k] == db.keys[k]
    ensures ColdReplies(db, calls)[i].Accepted? ==>
              var key := (calls[i].org, Key(calls[i].cmd));
              key in ColdFinal(db, calls).keys && ColdFinal(db, calls).keys[key] == ColdReplies(db, calls)[i].payment.id
    decreases calls
  {
    hide Cold, Sound, Key;
    var c, rest := calls[0], calls[1..];
    AcceptedBinds(db, c);
    assert ColdReplies(db, calls) == [Cold(db, c).reply] + ColdReplies(Cold(db, c).db, rest);
    if rest != [] {
      ColdKeysBind(Cold(db, c).db, rest, used, if i > 0 then i - 1 else 0);
    }
  }

  /** Every accepted call leaves its key bound, at the end of the run, to the payment it returned. */
  ghost predicate KeysBind(calls: seq<Call>) {
    var s := Proc(EMPTY, map[]);
    var replies, keys := Replies(s, calls), Final(s, calls).db.keys;
    forall i :: 0 <= i < |calls| && i < |replies| && replies[i].Accepted? ==>
      var key := (calls[i].org, Key(calls[i].cmd)); key in keys && keys[key] == replies[i].payment.id
  }

  lemma TwoFinal(s: Proc, a: Call, b: Call)
    ensures Final(s, [a, b]) == After(After(s, a), b)
  {
    hide After;
    assert [a, b][1..] == [b];
    assert Final(After(s, a), [b]) == After(After(s, a), b);
  }

  /**
   * Colliding keys and one amount: the second key is accepted for the first key's payment and never
   * claimed; after a restart, with the cache lost, the same call is accepted for another payment.
   */
  lemma OneKeyTwoPayments(org: string, a: string, b: string)
    requires a != b && a != "" && b != "" && Strip(a, false) == a && Strip(b, false) == b
    requires Strip(a, true) == Strip(b, true) != ""
    ensures var first, second := Clean(org, "A", a, 1, "p1"), Clean(org, "B", b, 1, "p2");
            var s := Proc(EMPTY, map[]);
            var replies, end := Replies(s, [first, second]), Final(s, [first, second]).db;
            && |replies| == 2 && replies[1].Accepted? && replies[1].payment.id == "p1" && (org, b) !in end.keys
            && Cold(end, second).reply.Accepted? && Cold(end, second).reply.payment.id == "p2"
  {
    var first, second := Clean(org, "A", a, 1, "p1"), Clean(org, "B", b, 1, "p2");
    var s := Proc(EMPTY, map[]);
    StripUnwraps("", "A", "", false);
    StripUnwraps("", "B", "", false);
    assert "" + "A" + "" == "A" && "" + "B" + "" == "B";
    TwoReplies(s, first, second);
    TwoFinal(s, first, second);
    FirstCallCreates(first, "A", a);
    SameMoneyCollision(org, a, b);
  }

  lemma SameMoneyCollision(org: string, a: string, b: string)
    requires a != b && a != "" && b != "" && Strip(a, false) == a && Strip(b, false) == b
    requires Strip(a, true) == Strip(b, true) != "" && Strip("A", false) == "A" && Strip("B", false) == "B"
    ensures var first, second := Clean(org, "A", a, 1, "p1"), Clean(org, "B", b, 1, "p2");
            var s := After(Proc(EMPTY, map[]), first);
            && Warm(s, second).reply.Accepted? && Warm(s, second).reply.payment.id == "p1"
            && (org, b) !in After(s, second).db.keys
            && Cold(After(s, second).db, second).reply.Accepted?
            && Cold(After(s, second).db, second).reply.payment.id == "p2"
  {
    hide Strip;
    var first, second := Clean(org, "A", a, 1, "p1"), Clean(org, "B", b, 1, "p2");
    FirstCallCreates(first, "A", a);
    var db := Cold(EMPTY, first).db;
    assert Find(db.payments, ById(org, "p1")) == Some(db.payments[0]);
    assert Find(db.payments, ByRef(org, C2B, "B")) == None;
    assert Find(db.payments, ByKey(org, b)) == None;
    assert "p1" != "p2" && "A" != "B";
  }

  /**
   * Over a set of keys, every accepted call of every run leaves its key bound to the payment it returned
   * if and only if the cache tells those keys apart.
   */
  lemma KeysBindExactly(used: iset<(string, string)>)
    requires forall k :: k in used ==> k.1 != "" && Strip(k.1, false) == k.1
    ensures (forall calls: seq<Call> :: Within(calls, used) ==> KeysBind(calls)) <==> Separated(used)
  {
    hide Strip, Invalid, Replies, ColdReplies, Final, ColdFinal;
    if Separated(used) {
      forall calls: seq<Call> | Within(calls, used)
        ensures KeysBind(calls)
      {
        CacheInvisible(Proc(EMPTY, map[]), calls, used);
        forall i | 0 <= i < |calls|
          ensures |ColdReplies(EMPTY, calls)| == |calls|
          ensures ColdReplies(EMPTY, calls)[i].Accepted? ==>
                    var key, keys := (calls[i].org, Key(calls[i].cmd)), ColdFinal(EMPTY, calls).keys;
                    key in keys && keys[key] == ColdReplies(EMPTY, calls)[i].payment.id
        {
          ColdKeysBind(EMPTY, calls, used, i);
        }
      }
    } else {
      var a, b :| a in used && b in used && CacheKey(a.0, a.1) == CacheKey(b.0, b.1) && CacheKey(a.0, a.1).1 != ""
                  && a != b;
      var calls := [Clean(a.0, "A", a.1, 1, "p1"), Clean(b.0, "B", b.1, 1, "p2")];
      OneKeyTwoPayments(a.0, a.1, b.1);
      assert Within(calls, used);
      assert !KeysBind(calls) by { assert Replies(Proc(EMPTY, map[]), calls)[1].Accepted?; }
    }
  }

  // -- a commit that fails ------------------------------------------------------

  /**
   * The cache is written before the commit; if that fails it names a payment that never was. The dead
   * entry hides the durable key from one probe. It shows exactly when the durable key and the payments
   * table disagree about the payment, unless both refuse the money alike.
   */
  lemma DeadEntryShowsExactly(db: Db, org: string, cmd: Command, newId: string, dead: string)
    requires Sound(db) && Invalid(cmd).None? && Find(db.payments, ById(org, dead)).None?
    ensures var named := Find(db.payments, ById(org, Durable(db, org, Key(cmd))));
            var prior := Prior(db.payments, org, cmd);
            Serve(db, dead, org, cmd, newId).reply == Serve(db, Durable(db, org, Key(cmd)), org, cmd, newId).reply
            <==> || (org, Key(cmd)) !in db.keys || prior == named
                 || (prior.Some? && MoneyClash(prior.value, cmd).Some?
                     && MoneyClash(prior.value, cmd) == MoneyClash(named.value, cmd))
  {
    hide Strip, Find, Invalid, SupportedCurrency, Prior, UniquePayments;
    ClaimedKeysAreReal(db, org, Key(cmd));
  }

  /** Such a run: the first commit fails, the retry and another payment succeed, and the key meets the other's ref. */
  function DeadRun(): seq<Call> {
    [Clean("o", "A", "k", 1, "x1").(commits := false), Clean("o", "A", "k", 1, "x2"),
     Clean("o", "B", "m", 1, "x3"), Clean("o", "B", "k", 1, "x4")]
  }

  function Row2(): Payment { NewPayment("o", Clean("o", "A", "k", 1, "x2").cmd, "x2") }
  function Row3(): Payment { NewPayment("o", Clean("o", "B", "m", 1, "x3").cmd, "x3") }

  function Tables(n: nat): Db {
    if n <= 1 then EMPTY
    else if n == 2 then Db([Row2()], map[("o", "k") := "x2"], [PaymentInitiated("x2", C2B, 1)])
    else Db([Row2(), Row3()], map[("o", "k") := "x2", ("o", "m") := "x3"],
            [PaymentInitiated("x2", C2B, 1), PaymentInitiated("x3", C2B, 1)])
  }

  function Cached(n: nat): Cache {
    if n == 0 then map[] else if n <= 2 then map[("o", "k") := "x1"] else map[("o", "k") := "x1", ("o", "m") := "x3"]
  }

  ghost predicate PlainLetters() {
    && Strip("A", false) == "A" && Strip("B", false) == "B" && Strip("k", false) == "k" && Strip("m", false) == "m"
    && Strip("k", true) == "k" && Strip("m", true) == "m"
  }

  lemma LettersArePlain()
    ensures PlainLetters()
  {
    StripUnwraps("", "A", "", false);
    StripUnwraps("", "B", "", false);
    StripUnwraps("", "k", "", false);
    StripUnwraps("", "m", "", false);
    StripUnwraps("", "k", "", true);
    StripUnwraps("", "m", "", true);
    assert "" + "A" + "" == "A" && "" + "B" + "" == "B" && "" + "k" + "" == "k" && "" + "m" + "" == "m";
  }

  lemma DeadStep(n: nat)
    requires n < 3 && PlainLetters()
    ensures After(Proc(Tables(n), Cached(n)), DeadRun()[n]) == Proc(Tables(n + 1), Cached(n + 1))
    ensures Cold(Tables(n), DeadRun()[n]).db == Tables(n + 1)
  {
    hide Strip;
    assert "k" != "m" && "A" != "B";
    var db := Tables(n);
    assert n == 1 ==> db.payments == [];
    assert n == 2 ==> db.payments == [Row2()];
    assert n == 2 ==> Find([Row2()], ByRef("o", C2B, "B")) == None && Find([Row2()], ByKey("o", "m")) == None;
  }

  lemma DeadLast()
    requires PlainLetters()
    ensures Warm(Proc(Tables(3), Cached(3)), DeadRun()[3]).reply == Accepted(Row3(), true)
    ensures Cold(Tables(3), DeadRun()[3]).reply == Accepted(Row2(), true)
  {
    hide Strip;
    var rows := [Row2(), Row3()];
    assert rows[1..] == [Row3()];
    assert "x1" != "x2" && "x1" != "x3" && "x2" != "x3" && "k" != "m" && "A" != "B";
    assert Find(rows, ById("o", "x1")) == None;
    assert Find(rows, ByRef("o", C2B, "B")) == Some(Row3());
    assert Find(rows, ById("o", "x2")) == Some(Row2());
  }

  /** From empty tables, a failed commit makes a later call under the same key return another payment. */
  lemma DeadEntryShows()
    ensures Replies(Proc(EMPTY, map[]), DeadRun()) != ColdReplies(EMPTY, DeadRun())
  {
    hide Warm, Cold, After, Tables, Cached, Strip;
    LettersArePlain();
    DeadStep(0);
    DeadStep(1);
    DeadStep(2);
    DeadLast();
    var run := DeadRun();
    var s := Proc(EMPTY, map[]);
    assert Proc(Tables(0), Cached(0)) == s by { TablesStart(); }
    assert run[1..][1..] == run[2..] && run[2..][1..] == run[3..];
    LastReply(s, run, Proc(Tables(1), Cached(1)), Proc(Tables(2), Cached(2)), Proc(Tables(3), Cached(3)));
    LastColdReply(EMPTY, run, Tables(1), Tables(2), Tables(3));
    assert Row2().id != Row3().id;
  }

  lemma TablesStart()
    ensures Tables(0) == EMPTY && Cached(0) == map[]
  {
  }

  lemma LastReply(s0: Proc, calls: seq<Call>, s1: Proc, s2: Proc, s3: Proc)
    requires |calls| == 4 && After(s0, calls[0]) == s1 && After(s1, calls[1]) == s2 && After(s2, calls[2]) == s3
    ensures |Replies(s0, calls)| == 4 && Replies(s0, calls)[3] == Warm(s3, calls[3]).reply
  {
    hide Warm, After;
    assert calls[1..][1..] == calls[2..] && calls[2..][1..] == calls[3..] && calls[3..] == [calls[3]];
    assert Replies(s3, calls[3..]) == [Warm(s3, calls[3]).reply];
    assert Replies(s2, calls[2..]) == [Warm(s2, calls[2]).reply] + Replies(s3, calls[3..]);
    assert Replies(s1, calls[1..]) == [Warm(s1, calls[1]).reply] + Replies(s2, calls[2..]);
  }

  lemma LastColdReply(db0: Db, calls: seq<Call>, db1: Db, db2: Db, db3: Db)
    requires |calls| == 4 && Cold(db0, calls[0]).db == db1 && Cold(db1, calls[1]).db == db2 && Cold(db2, calls[2]).db == db3
    ensures |ColdReplies(db0, calls)| == 4 && ColdReplies(db0, calls)[3] == Cold(db3, calls[3]).reply
  {
    hide Cold;
    assert calls[1..][1..] == calls[2..] && calls[2..][1..] == calls[3..] && calls[3..] == [calls[3]];
    assert ColdReplies(db3, calls[3..]) == [Cold(db3, calls[3]).reply];
    assert ColdReplies(db2, calls[2..]) == [Cold(db2, calls[2]).reply] + ColdReplies(db3, calls[3..]);
    assert ColdReplies(db1, calls[1..]) == [Cold(db1, calls[1]).reply] + ColdReplies(db2, calls[2..]);
  }

  // -- the service --------------------------------------------------------------

  class IntakeService {
    var db: Db
    var cache: Cache

    constructor ()
      ensures db == EMPTY && cache == map[]
    {
      db, cache := EMPTY, map[];
    }

    /** The call and its commit; a commit that fails rolls the tables back, not the cache. */
    method Intake(org: string, cmd: Command, newId: string, commits: bool) returns (reply: Reply)
      modifies this
      ensures reply == Warm(old(Proc(db, cache)), Call(org, cmd, newId, commits)).reply
      ensures Proc(db, cache) == After(old(Proc(db, cache)), Call(org, cmd, newId, commits))
    {
      hide Serve, Strip;
      var before := db;
      reply := Attempt(org, cmd, newId);
      if reply.Accepted? && !commits {
        db := before;
        reply := Refused(CommitFailed);
      }
    }

    /** The closure as written: validate, probe twice, replay or create, remember. */
    method Attempt(org: string, cmd: Command, newId: string) returns (reply: Reply)
      modifies this
      ensures var served := Serve(old(db), Lookup(old(db), old(cache), org, Key(cmd)), org, cmd, newId);
              && reply == served.reply && db == served.db
              && cache == if served.remembered.Some? then Remember(old(cache), org, Key(cmd), served.remembered.value)
                          else old(cache)
    {
      hide Strip, White;
      if cmd.channel != "c2b" && cmd.channel != "stk" {
        return Refused(ChannelInvalid);
      }
      var ref := Trim(cmd.externalRef);
      if ref == "" {
        return Refused(ExternalRefRequired);
      }
      var key := Trim(cmd.key);
      if key == "" {
        return Refused(IdempotencyKeyRequired);
      }
      if cmd.amount <= 0 {
        return Refused(AmountMustBePositive);
      }
      for i := 0 to |cmd.declaredRefs|
        invariant forall j :: 0 <= j < i ==> Strip(cmd.declaredRefs[j], false) != ""
        invariant db == old(db) && cache == old(cache)
      {
        var declared := Trim(cmd.declaredRefs[i]);
        if declared == "" {
          return Refused(DeclaredRefBlank);
        }
      }
      var hint := Lookup(db, cache, org, key);
      if hint != "" {
        var named := Find(db.payments, ById(org, hint));
        if named.Some? {
          var clash := MoneyClash(named.value, cmd);
          if clash.Some? {
            return Refused(clash.value);
          }
          db := db.(facts := db.facts + [DuplicateObserved(named.value.id, named.value.externalRef)]);
          return Accepted(named.value, true);
        }
      }
      var prior := Prior(db.payments, org, cmd);
      if prior.Some? {
        var clash := MoneyClash(prior.value, cmd);
        if clash.Some? {
          return Refused(clash.value);
        }
        db := db.(keys := Claim(db.keys, org, key, prior.value.id));
        db := db.(facts := db.facts + [DuplicateObserved(prior.value.id, prior.value.externalRef)]);
        cache := Remember(cache, org, key, prior.value.id);
        return Accepted(prior.value, true);
      }
      reply := Insert(org, cmd, newId, key);
    }

    /** First contact: claim, insert and publish together, or roll back and find nobody to replay. */
    method Insert(org: string, cmd: Command, newId: string, key: string) returns (reply: Reply)
      requires key == Key(cmd)
      modifies this
      ensures var served := FirstContact(old(db), org, cmd, newId);
              && reply == served.reply && db == served.db
              && cache == if served.remembered.Some? then Remember(old(cache), org, key, served.remembered.value)
                          else old(cache)
    {
      hide Strip;
      var p := NewPayment(org, cmd, newId);
      var keys := Claim(db.keys, org, key, newId);
      if !SupportedCurrency(cmd.currency) {
        return Refused(CheckViolation);
      }
      for i := 0 to |db.payments|
        invariant forall j :: 0 <= j < i ==> !Clash(db.payments[j], p)
        invariant db == old(db) && cache == old(cache)
      {
        if Clash(db.payments[i], p) {
          return Refused(Internal);
        }
      }
      db := Db(db.payments + [p], keys, db.facts + [PaymentInitiated(newId, p.channel, cmd.amount)]);
      cache := Remember(cache, org, key, newId);
      return Accepted(p, false);
    }
  }
}
