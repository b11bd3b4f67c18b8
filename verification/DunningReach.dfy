/** Which receivables a sequence of dunning passes reaches, and which it never does. */
module DunningReach {
  import opened GoTime
  import opened Text
  import opened Scans
  import opened ScanOrder
  import opened DunningScan
  import opened Claims
  import opened DunningJob

  // -- what a pass leaves alone -------------------------------------------------

  /** A key of the receivable: `id:…`. */
  predicate KeyOf(c: Claim, id: string) { c.scope == Dunning && id + ":" <= c.key }

  predicate About(e: Effect, id: string) {
    (e.job.SendStep? || e.job.BlockStep?) && e.job.subject == id
  }

  /** From `s` to `t` claims and events were added, none of them for the receivable. */
  ghost predicate NothingFor(s: State, t: State, id: string) {
    && s.claims <= t.claims && s.outbox <= t.outbox
    && (forall c :: c in t.claims && c !in s.claims ==> !KeyOf(c, id))
    && (forall i :: |s.outbox| <= i < |t.outbox| ==> !About(t.outbox[i], id))
  }

  lemma NothingStill(s: State, t: State, u: State, id: string)
    requires NothingFor(s, t, id) && NothingFor(t, u, id)
    ensures NothingFor(s, u, id)
  {
    hide KeyOf, About;
    forall i | |s.outbox| <= i < |u.outbox|
      ensures !About(u.outbox[i], id)
    {
      if i < |t.outbox| {
        assert u.outbox[i] == t.outbox[i];
      }
    }
  }

  lemma OtherClaim(e: Effect, r: string, id: string)
    requires About(e, r) && r != id && Plain(r) && Plain(id)
    ensures !KeyOf(ClaimOf(e), id)
  {
    if e.job.SendStep? {
      if id + ":" <= SendKey(r, e.job.step) {
        OtherKey(r, e.job.step, id);
      }
    } else {
      BlockedIsASend(r, e.job.step);
      if id + ":" <= SendKey(r, "blocked:" + e.job.step) {
        OtherKey(r, "blocked:" + e.job.step, id);
      }
    }
  }

  lemma {:induction false} ClaimsOfOthers(s: State, effects: seq<Effect>, r: string, id: string)
    requires r != id && Plain(r) && Plain(id) && forall i :: 0 <= i < |effects| ==> About(effects[i], r)
    ensures NothingFor(s, ClaimAll(s, effects), id)
  {
    hide ClaimOf, KeyOf;
    if effects != [] {
      var front, last := effects[..|effects| - 1], effects[|effects| - 1];
      ClaimsOfOthers(s, front, r, id);
      OtherClaim(last, r, id);
      NothingStill(s, ClaimAll(s, front), ClaimAll(s, effects), id);
    }
  }

  lemma {:induction false} AttemptsAbout(steps: seq<Step>, subject: Subject, now: int, grants: Grants)
    ensures forall i :: 0 <= i < |Attempts(steps, subject, now, grants)|
              ==> About(Attempts(steps, subject, now, grants)[i], subject.receivable)
  {
    if steps != [] {
      AttemptsAbout(steps[..|steps| - 1], subject, now, grants);
    }
  }

  lemma {:induction false} SubjectsOfOthers(
      s: State, subjects: seq<Subject>, now: int, ladder: seq<Step>, grants: Grants, id: string)
    requires Plain(id)
    requires forall i :: 0 <= i < |subjects| ==> subjects[i].receivable != id && Plain(subjects[i].receivable)
    ensures NothingFor(s, RunSubjects(s, subjects, now, ladder, grants), id)
  {
    hide NothingFor, DueSteps, Attempts, ClaimAll;
    if subjects == [] {
      NothingYet(s, id);
    } else {
      var front, last := subjects[..|subjects| - 1], subjects[|subjects| - 1];
      SubjectsOfOthers(s, front, now, ladder, grants, id);
      var t := RunSubjects(s, front, now, ladder, grants);
      AttemptsAbout(DueSteps(now, last.due, Sent(t, last, ladder), ladder), last, now, grants);
      ClaimsOfOthers(t, AttemptsFor(t, last, now, ladder, grants), last.receivable, id);
      NothingStill(s, t, RunSubjects(s, subjects, now, ladder, grants), id);
    }
  }

  lemma NothingYet(s: State, id: string)
    ensures NothingFor(s, s, id)
  {
  }

  // -- the queue ----------------------------------------------------------------

  /** Ids are UUIDs: none holds a colon. */
  ghost predicate PlainTable(table: Table) { forall id :: id in table ==> Plain(id) }

  /** At least `batch` live receivables precede it. */
  ghost predicate Behind(table: Table, id: string, batch: nat) {
    id in table && |Ahead(table, id)| >= batch
  }

  function HorizonAt(ladder: seq<Step>, now: int): int { now + Wrap64((1 - Earliest(ladder)) * DAY) }

  lemma ScanSubjectsAre(table: Table, horizon: int, batch: nat, i: nat)
    requires i < |ScanSubjects(table, horizon, batch)|
    ensures var r := ScanSubjects(table, horizon, batch)[i].receivable;
            && r in table && table[r].live && SlotOf(table, r) in Scan(table, horizon, batch)
            && ScanSubjects(table, horizon, batch)[i] == SubjectOf(table, r)
  {
    hide First;
    ScanLists(table, horizon, batch);
    assert Scan(table, horizon, batch)[i] in Window(table, horizon);
  }

  lemma ScannedIsSubject(table: Table, horizon: int, batch: nat, id: string) returns (i: nat)
    requires id in table && SlotOf(table, id) in Scan(table, horizon, batch)
    ensures i < |ScanSubjects(table, horizon, batch)|
    ensures ScanSubjects(table, horizon, batch)[i] == SubjectOf(table, id)
  {
    hide First;
    ScanLists(table, horizon, batch);
    var slots := Scan(table, horizon, batch);
    i :| 0 <= i < |slots| && slots[i] == SlotOf(table, id);
  }

  /** A pass does nothing for a receivable with `batch` live ones ahead of it. */
  lemma PassSkips(
      s: State, table: Table, now: int, ladder: seq<Step>, grants: Grants, batch: nat, id: string)
    requires PlainTable(table) && Behind(table, id, batch)
    ensures NothingFor(s, Pass(s, table, now, ladder, grants, batch), id)
  {
    hide ScanSubjects, NothingFor, RunSubjects, Ahead, Scan;
    var horizon := HorizonAt(ladder, now);
    var subjects := ScanSubjects(table, horizon, batch);
    forall i | 0 <= i < |subjects|
      ensures subjects[i].receivable != id && Plain(subjects[i].receivable)
    {
      ScanSubjectsAre(table, horizon, batch, i);
      ScannedExactly(table, horizon, batch, subjects[i].receivable);
    }
    SubjectsOfOthers(s, subjects, now, ladder, grants, id);
  }

  // -- one pass, exactly --------------------------------------------------------

  lemma SameSent(s: State, t: State, subject: Subject, ladder: seq<Step>)
    requires NothingFor(s, t, subject.receivable)
    ensures Sent(t, subject, ladder) == Sent(s, subject, ladder)
  {
    forall i | 0 <= i < |ladder|
      ensures SendClaim(subject, ladder[i].key) in t.claims <==> SendClaim(subject, ladder[i].key) in s.claims
    {
      assert KeyOf(SendClaim(subject, ladder[i].key), subject.receivable);
    }
  }

  lemma OwnKey(e: Effect, id: string)
    requires About(e, id)
    ensures KeyOf(ClaimOf(e), id)
  {
    if e.job.BlockStep? {
      BlockedIsASend(id, e.job.step);
    }
  }

  lemma SkippedIsUnsettled(
      s: State, t: State, subject: Subject, now: int, ladder: seq<Step>, grants: Grants)
    requires NothingFor(s, t, subject.receivable) && !Settled(s, subject, now, ladder, grants)
    ensures !Settled(t, subject, now, ladder, grants)
  {
    hide ClaimOf, Attempts, DueSteps, KeyOf, About, Sent;
    SameSent(s, t, subject, ladder);
    var effects := AttemptsFor(s, subject, now, ladder, grants);
    var e :| e in effects && ClaimOf(e) !in s.claims;
    AttemptsAbout(DueSteps(now, subject.due, Sent(s, subject, ladder), ladder), subject, now, grants);
    OwnKey(e, subject.receivable);
    assert e in AttemptsFor(t, subject, now, ladder, grants);
  }

  lemma UnsettledHasWork(s: State, subject: Subject, now: int, ladder: seq<Step>, grants: Grants)
    requires !Settled(s, subject, now, ladder, grants)
    ensures HasWork(ladder, now, subject.due, Sent(s, subject, ladder))
  {
    hide ClaimOf;
  }

  /**
   * With a horizon that fits, a pass settles a live receivable's unsettled steps exactly when fewer than
   * `batch` live receivables precede it.
   */
  lemma PassSettlesExactly(
      s: State, table: Table, now: int, ladder: seq<Step>, grants: Grants, batch: nat, id: string)
    requires PlainTable(table) && id in table && table[id].live && 1 - Earliest(ladder) <= MAX_DAYS
    requires !Settled(s, SubjectOf(table, id), now, ladder, grants)
    ensures Settled(Pass(s, table, now, ladder, grants, batch), SubjectOf(table, id), now, ladder, grants)
            <==> |Ahead(table, id)| < batch
  {
    hide Settled, ScanSubjects, NothingFor, RunSubjects, Ahead, Scan, HasWork, Earliest, Wrap64;
    var subject := SubjectOf(table, id);
    if |Ahead(table, id)| < batch {
      UnsettledHasWork(s, subject, now, ladder, grants);
      DueByHorizon(ladder, now, subject.due, Sent(s, subject, ladder));
      ScannedExactly(table, HorizonAt(ladder, now), batch, id);
      var i := ScannedIsSubject(table, HorizonAt(ladder, now), batch, id);
      AllSettled(s, ScanSubjects(table, HorizonAt(ladder, now), batch), now, ladder, grants);
    } else {
      PassSkips(s, table, now, ladder, grants, batch, id);
      SkippedIsUnsettled(s, Pass(s, table, now, ladder, grants, batch), subject, now, ladder, grants);
    }
  }

  lemma DueByHorizon(ladder: seq<Step>, now: int, due: int, sent: set<string>)
    requires HasWork(ladder, now, due, sent) && 1 - Earliest(ladder) <= MAX_DAYS
    ensures due <= HorizonAt(ladder, now)
  {
    hide HasWork;
    WorkIsNear(ladder, now, due, sent);
  }

  // -- consent ------------------------------------------------------------------

  /** The customer has a grant on the channel whose reference is not all white space. */
  predicate Consented(grants: Grants, org: string, customer: string, channel: string) {
    var c := Consent(org, customer, channel);
    c in grants && exists i :: 0 <= i < |grants[c]| && !White(grants[c][i], true)
  }

  /** The step is one of the ladder, its day has come for the receivable, and its send key was not claimed. */
  predicate Ripe(s: State, row: Row, id: string, step: Step, now: int) {
    && now / DAY - row.due / DAY >= step.offset
    && Claim(row.org, Dunning, id + ":" + step.key) !in s.claims
  }

  /** A send without consent where none is needed, or with it; a refusal only where it is needed and missing. */
  ghost predicate Warranted(s: State, e: Effect, table: Table, now: int, ladder: seq<Step>, grants: Grants) {
    exists id, k ::
      && id in table && table[id].live && 0 <= k < |ladder| && e.org == table[id].org && e.at == now
      && Ripe(s, table[id], id, ladder[k], now)
      && var consented := Consented(grants, table[id].org, table[id].customer, ladder[k].channel);
         || (e.job == SendStep(id, ladder[k].key) && (!ladder[k].requiresConsent || consented))
         || (e.job == BlockStep(id, ladder[k].key) && ladder[k].requiresConsent && !consented)
  }

  lemma AllowedExactly(step: Step, subject: Subject, grants: Grants)
    ensures Allowed(step, GrantFor(grants, subject, step.channel))
            <==> !step.requiresConsent || Consented(grants, subject.org, subject.customer, step.channel)
  {
    hide White, Strip;
    BlankExactly(GrantFor(grants, subject, step.channel), true);
  }

  lemma AttemptIsWarranted(
      s: State, e: Effect, table: Table, id: string, now: int, ladder: seq<Step>, grants: Grants)
    requires id in table && table[id].live && e in AttemptsFor(s, SubjectOf(table, id), now, ladder, grants)
    ensures Warranted(s, e, table, now, ladder, grants)
  {
    hide Allowed, Consented;
    var subject := SubjectOf(table, id);
    var sent := Sent(s, subject, ladder);
    var steps := DueSteps(now, subject.due, sent, ladder);
    AttemptsAre(steps, subject, now, grants);
    DueStepsAre(now, subject.due, sent, ladder);
    var step :| step in steps && e == Attempt(step, subject, now, grants);
    var k :| 0 <= k < |ladder| && ladder[k] == step;
    AllowedExactly(step, subject, grants);
    assert SendClaim(subject, step.key) !in s.claims;
  }

  lemma {:induction false} ClaimsAddEffects(s: State, effects: seq<Effect>)
    ensures var t := ClaimAll(s, effects);
            && s.outbox <= t.outbox && s.claims <= t.claims
            && forall i :: |s.outbox| <= i < |t.outbox| ==> t.outbox[i] in effects
  {
    hide ClaimOf;
    if effects != [] {
      ClaimsAddEffects(s, effects[..|effects| - 1]);
      assert effects == effects[..|effects| - 1] + [effects[|effects| - 1]];
    }
  }

  lemma FewerWarrants(s: State, t: State, e: Effect, table: Table, now: int, ladder: seq<Step>, grants: Grants)
    requires Warranted(t, e, table, now, ladder, grants) && s.claims <= t.claims
    ensures Warranted(s, e, table, now, ladder, grants)
  {
    hide Consented;
    var id, k :|
      && id in table && table[id].live && 0 <= k < |ladder| && e.org == table[id].org && e.at == now
      && Ripe(t, table[id], id, ladder[k], now)
      && var consented := Consented(grants, table[id].org, table[id].customer, ladder[k].channel);
         || (e.job == SendStep(id, ladder[k].key) && (!ladder[k].requiresConsent || consented))
         || (e.job == BlockStep(id, ladder[k].key) && ladder[k].requiresConsent && !consented);
    assert Ripe(s, table[id], id, ladder[k], now);
  }

  lemma {:induction false} SubjectsWarranted(
      s: State, subjects: seq<Subject>, table: Table, now: int, ladder: seq<Step>, grants: Grants)
    requires forall i :: 0 <= i < |subjects| ==>
               subjects[i].receivable in table && table[subjects[i].receivable].live
               && subjects[i] == SubjectOf(table, subjects[i].receivable)
    ensures var t := RunSubjects(s, subjects, now, ladder, grants);
            && s.outbox <= t.outbox && s.claims <= t.claims
            && forall i :: |s.outbox| <= i < |t.outbox| ==> Warranted(s, t.outbox[i], table, now, ladder, grants)
  {
    hide Warranted, AttemptsFor, ClaimAll, SubjectOf;
    if subjects != [] {
      var front, last := subjects[..|subjects| - 1], subjects[|subjects| - 1];
      SubjectsWarranted(s, front, table, now, ladder, grants);
      var mid, t := RunSubjects(s, front, now, ladder, grants), RunSubjects(s, subjects, now, ladder, grants);
      var effects := AttemptsFor(mid, last, now, ladder, grants);
      ClaimsAddEffects(mid, effects);
      forall i | |s.outbox| <= i < |t.outbox|
        ensures Warranted(s, t.outbox[i], table, now, ladder, grants)
      {
        if i < |mid.outbox| {
          assert t.outbox[i] == mid.outbox[i];
        } else {
          AttemptIsWarranted(mid, t.outbox[i], table, last.receivable, now, ladder, grants);
          FewerWarrants(s, mid, t.outbox[i], table, now, ladder, grants);
        }
      }
    }
  }

  /**
   * Everything a pass emits is warranted: it concerns a live receivable and a step of the ladder that is due
   * and unsent, it is a send only where the step needs no consent or the customer has granted it on the
   * channel, and a refusal only where consent is needed and missing.
   */
  lemma ConsentGoverns(s: State, table: Table, now: int, ladder: seq<Step>, grants: Grants, batch: nat)
    ensures var t := Pass(s, table, now, ladder, grants, batch);
            && s.outbox <= t.outbox
            && forall i :: |s.outbox| <= i < |t.outbox| ==> Warranted(s, t.outbox[i], table, now, ladder, grants)
  {
    hide ScanSubjects, RunSubjects, Warranted, Scan;
    var horizon := HorizonAt(ladder, now);
    var subjects := ScanSubjects(table, horizon, batch);
    forall i | 0 <= i < |subjects|
      ensures subjects[i].receivable in table && table[subjects[i].receivable].live
      ensures subjects[i] == SubjectOf(table, subjects[i].receivable)
    {
      ScanSubjectsAre(table, horizon, batch, i);
    }
    SubjectsWarranted(s, subjects, table, now, ladder, grants);
  }

  /** A settled receivable's due step is sent, or needs consent that is missing and is reported blocked. */
  lemma SettledAsConsented(t: State, subject: Subject, now: int, ladder: seq<Step>, grants: Grants, k: nat)
    requires Settled(t, subject, now, ladder, grants) && k < |ladder|
    requires now / DAY - subject.due / DAY >= ladder[k].offset
    ensures SendClaim(subject, ladder[k].key) in t.claims
            || (&& ladder[k].requiresConsent && !Consented(grants, subject.org, subject.customer, ladder[k].channel)
                && Claim(subject.org, Dunning, subject.receivable + ":blocked:" + ladder[k].key) in t.claims)
  {
    hide Allowed, Consented;
    if SendClaim(subject, ladder[k].key) !in t.claims {
      var sent := Sent(t, subject, ladder);
      var steps := DueSteps(now, subject.due, sent, ladder);
      DueStepsAre(now, subject.due, sent, ladder);
      AttemptsAre(steps, subject, now, grants);
      AllowedExactly(ladder[k], subject, grants);
      assert ladder[k] in steps;
      assert Attempt(ladder[k], subject, now, grants) in AttemptsFor(t, subject, now, ladder, grants);
    }
  }

  // -- passes without end -------------------------------------------------------

  /** A tick of the job: the receivables, the instant and the grants it meets. */
  datatype Tick = Tick(table: Table, now: int, grants: Grants)

  ghost function Passes(s: State, ticks: seq<Tick>, ladder: seq<Step>, batch: nat): State
    decreases ticks
  {
    if ticks == [] then s
    else Passes(Pass(s, ticks[0].table, ticks[0].now, ladder, ticks[0].grants, batch), ticks[1..], ladder, batch)
  }

  /** However many passes run, at whatever instants, they do nothing for a receivable that stays behind `batch` others. */
  lemma {:induction false} NeverReached(s: State, ticks: seq<Tick>, ladder: seq<Step>, batch: nat, id: string)
    requires forall i :: 0 <= i < |ticks| ==> PlainTable(ticks[i].table) && Behind(ticks[i].table, id, batch)
    ensures NothingFor(s, Passes(s, ticks, ladder, batch), id)
    decreases ticks
  {
    hide NothingFor, Pass, Behind, PlainTable;
    if ticks == [] {
      NothingYet(s, id);
    } else {
      var t := Pass(s, ticks[0].table, ticks[0].now, ladder, ticks[0].grants, batch);
      PassSkips(s, ticks[0].table, ticks[0].now, ladder, ticks[0].grants, batch, id);
      NeverReached(t, ticks[1..], ladder, batch, id);
      NothingStill(s, t, Passes(s, ticks, ladder, batch), id);
    }
  }

  // -- the queue's last place ---------------------------------------------------

  /** One more live receivable than a batch holds, all due at the epoch. */
  function CrowdTable(batch: nat): Table { map id | id in Names(batch) :: Row("o", "c", 0, true) }

  const LADDER := [Step("due", 0, "sms", false)]

  lemma CrowdIs(batch: nat)
    ensures CrowdTable(batch).Keys == Names(batch) && Live(CrowdTable(batch)) == Crowd(batch)
  {
    hide Name;
    var table := CrowdTable(batch);
    forall s | s in Live(table)
      ensures s in Crowd(batch)
    {
      var n: nat :| n <= batch && Name(n) == s.id;
      assert s == Slot(0, Name(n));
    }
    forall s | s in Crowd(batch)
      ensures s in Live(table)
    {
      assert s.id in table && SlotOf(table, s.id) == s;
    }
  }

  lemma CrowdIsAhead(batch: nat, n: nat)
    requires n <= batch
    ensures Name(n) in CrowdTable(batch) && |Ahead(CrowdTable(batch), Name(n))| == n
  {
    hide Preceding, Name, Crowd, Live;
    CrowdIs(batch);
    CrowdPrecedes(batch, n);
  }

  lemma CrowdIsPlain(batch: nat)
    ensures PlainTable(CrowdTable(batch)) && Behind(CrowdTable(batch), Name(batch), batch)
  {
    hide Ahead;
    CrowdIs(batch);
    CrowdIsAhead(batch, batch);
  }

  lemma StepIsDue(now: nat)
    ensures DueSteps(now, 0, {}, LADDER) == LADDER && LadderOk(LADDER) && Earliest(LADDER) == 0
  {
    assert LADDER[..0] == [];
    assert DueSteps(now, 0, {}, []) == [];
    assert UtcDay(0) == 0 && UtcDay(now) >= 0;
    assert [] + [LADDER[0]] == LADDER;
  }

  lemma DueIsAttempted(t: State, subject: Subject, now: nat, grants: Grants)
    requires subject.due == 0 && SendClaim(subject, "due") !in t.claims
    ensures Effect(subject.org, SendStep(subject.receivable, "due"), now)
            in AttemptsFor(t, subject, now, LADDER, grants)
  {
    hide DueSteps, LadderOk, Earliest;
    assert Sent(t, subject, LADDER) == {};
    StepIsDue(now);
    var e := Attempt(LADDER[0], subject, now, grants);
    assert LADDER[..0] == [] && Attempts([], subject, now, grants) == [];
    assert AttemptsFor(t, subject, now, LADDER, grants) == [] + [e];
    assert ([] + [e])[0] == e;
  }

  lemma SettledSends(t: State, subject: Subject, now: nat, grants: Grants)
    requires Settled(t, subject, now, LADDER, grants) && subject.due == 0
    ensures SendClaim(subject, "due") in t.claims
  {
    hide AttemptsFor;
    if SendClaim(subject, "due") !in t.claims {
      DueIsAttempted(t, subject, now, grants);
    }
  }

  lemma FrontIsSent(batch: nat, n: nat, now: nat)
    requires n < batch
    ensures Name(n) in CrowdTable(batch)
    ensures SendClaim(SubjectOf(CrowdTable(batch), Name(n)), "due")
            in Pass(START, CrowdTable(batch), now, LADDER, map[], batch).claims
  {
    hide Settled, ScanSubjects, RunSubjects, Ahead, Scan, Name, DueSteps, LadderOk;
    var table, horizon := CrowdTable(batch), HorizonAt(LADDER, now);
    CrowdIs(batch);
    CrowdIsAhead(batch, n);
    StepIsDue(now);
    ScannedExactly(table, horizon, batch, Name(n));
    var i := ScannedIsSubject(table, horizon, batch, Name(n));
    AllSettled(START, ScanSubjects(table, horizon, batch), now, LADDER, map[]);
    SettledSends(Pass(START, table, now, LADDER, map[], batch), SubjectOf(table, Name(n)), now, map[]);
  }

  lemma NothingEver(s: State, subject: Subject)
    requires NothingFor(START, s, subject.receivable)
    ensures forall i :: 0 <= i < |s.outbox| ==> !About(s.outbox[i], subject.receivable)
    ensures Sent(s, subject, LADDER) == {}
  {
    SameSent(START, s, subject, LADDER);
  }

  /**
   * For every batch size, from the empty registry: the first pass sends the step of everyone ahead and a
   * second one at its instant emits nothing, yet over any further passes nothing is ever emitted for the
   * last receivable, whose step is due throughout.
   */
  lemma LastIsStarved(batch: nat, ticks: seq<Tick>, now: nat)
    requires forall i :: 0 <= i < |ticks| ==> ticks[i].table == CrowdTable(batch)
    ensures LadderOk(LADDER) && Name(batch) in CrowdTable(batch)
    ensures var table := CrowdTable(batch);
            var first := Pass(START, table, now, LADDER, map[], batch);
            var s := Passes(first, ticks, LADDER, batch);
            && (forall n: nat :: n < batch ==>
                  Name(n) in table && SendClaim(SubjectOf(table, Name(n)), "due") in first.claims)
            && Pass(first, table, now, LADDER, map[], batch) == first
            && (forall i :: 0 <= i < |s.outbox| ==> !About(s.outbox[i], Name(batch)))
            && (forall later: nat :: HasWork(LADDER, later, 0, Sent(s, SubjectOf(table, Name(batch)), LADDER)))
  {
    hide RunSubjects, ScanSubjects, NothingFor, Behind, PlainTable, DueSteps, LadderOk, CrowdTable, Name, Sent;
    var table := CrowdTable(batch);
    var first := Pass(START, table, now, LADDER, map[], batch);
    StepIsDue(now);
    CrowdIsAhead(batch, batch);
    CrowdIsPlain(batch);
    forall n: nat | n < batch
      ensures Name(n) in table && SendClaim(SubjectOf(table, Name(n)), "due") in first.claims
    {
      FrontIsSent(batch, n, now);
    }
    RerunEmitsNothing(START, ScanSubjects(table, HorizonAt(LADDER, now), batch), now, LADDER, map[]);
    PassSkips(START, table, now, LADDER, map[], batch, Name(batch));
    NeverReached(first, ticks, LADDER, batch, Name(batch));
    NothingStill(START, first, Passes(first, ticks, LADDER, batch), Name(batch));
    NothingEver(Passes(first, ticks, LADDER, batch), SubjectOf(table, Name(batch)));
    forall later: nat
      ensures HasWork(LADDER, later, 0, {})
    {
      StepIsDue(later);
    }
  }
}
