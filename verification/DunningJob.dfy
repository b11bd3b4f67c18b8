/** The dunning job over the scanned table and the claim registry: what a pass settles, and whom it never reaches. */
module DunningJob {
  import opened GoTime
  import opened Text
  import opened Scans
  import opened ScanOrder
  import opened DunningScan
  import opened Claims

  datatype Subject = Subject(receivable: string, org: string, customer: string, due: int)

  datatype Consent = Consent(org: string, customer: string, channel: string)

  /** Consent grants live at the run's instant; a missing grant is a blank reference. */
  type Grants = map<Consent, string>

  function GrantFor(grants: Grants, subject: Subject, channel: string): string {
    var c := Consent(subject.org, subject.customer, channel);
    if c in grants then grants[c] else ""
  }

  predicate Allowed(step: Step, ref: string) { !step.requiresConsent || Strip(ref, true) != "" }

  /** What a due step asks for: a send, or the refusal as a fact. */
  function Attempt(step: Step, subject: Subject, now: int, grants: Grants): Effect {
    Effect(subject.org,
           if Allowed(step, GrantFor(grants, subject, step.channel)) then SendStep(subject.receivable, step.key)
           else BlockStep(subject.receivable, step.key),
           now)
  }

  function SendClaim(subject: Subject, step: string): Claim {
    Claim(subject.org, Dunning, SendKey(subject.receivable, step))
  }

  /** The ladder's steps whose send key is claimed. */
  function Sent(s: State, subject: Subject, ladder: seq<Step>): set<string> {
    set i | 0 <= i < |ladder| && SendClaim(subject, ladder[i].key) in s.claims :: ladder[i].key
  }

  function Attempts(steps: seq<Step>, subject: Subject, now: int, grants: Grants): seq<Effect> {
    if steps == [] then []
    else Attempts(steps[..|steps| - 1], subject, now, grants) + [Attempt(steps[|steps| - 1], subject, now, grants)]
  }

  function ClaimAll(s: State, effects: seq<Effect>): State {
    if effects == [] then s
    else Claimed(ClaimAll(s, effects[..|effects| - 1]), effects[|effects| - 1])
  }

  function AttemptsFor(s: State, subject: Subject, now: int, ladder: seq<Step>, grants: Grants): seq<Effect> {
    Attempts(DueSteps(now, subject.due, Sent(s, subject, ladder), ladder), subject, now, grants)
  }

  function RunSubject(s: State, subject: Subject, now: int, ladder: seq<Step>, grants: Grants): State {
    ClaimAll(s, AttemptsFor(s, subject, now, ladder, grants))
  }

  function RunSubjects(s: State, subjects: seq<Subject>, now: int, ladder: seq<Step>, grants: Grants): State {
    if subjects == [] then s
    else RunSubject(RunSubjects(s, subjects[..|subjects| - 1], now, ladder, grants),
                    subjects[|subjects| - 1], now, ladder, grants)
  }

  function SubjectOf(table: Table, id: string): Subject
    requires id in table
  {
    Subject(id, table[id].org, table[id].customer, table[id].due)
  }

  predicate Listing(table: Table, slots: seq<Slot>) { forall i :: 0 <= i < |slots| ==> slots[i].id in table }

  function SubjectsAt(table: Table, slots: seq<Slot>): seq<Subject>
    requires Listing(table, slots)
  {
    seq(|slots|, i requires 0 <= i < |slots| => SubjectOf(table, slots[i].id))
  }

  lemma ScanLists(table: Table, horizon: int, batch: nat)
    ensures Listing(table, Scan(table, horizon, batch))
  {
    hide First;
    var slots := Scan(table, horizon, batch);
    assert forall i :: 0 <= i < |slots| ==> slots[i] in Window(table, horizon);
  }

  ghost function ScanSubjects(table: Table, horizon: int, batch: nat): seq<Subject> {
    ScanLists(table, horizon, batch);
    SubjectsAt(table, Scan(table, horizon, batch))
  }

  /** One pass: the scan, then every subject in the scan's order. */
  ghost function Pass(s: State, table: Table, now: int, ladder: seq<Step>, grants: Grants, batch: nat): State {
    var horizon := now + Wrap64((1 - Earliest(ladder)) * DAY);
    RunSubjects(s, ScanSubjects(table, horizon, batch), now, ladder, grants)
  }

  /** Removing the subject's prefix from a send key gives its step back. */
  function TrimPrefix(s: string, prefix: string): string {
    if prefix <= s then s[|prefix|..] else s
  }

  lemma TrimGivesStep(subject: string, step: string)
    ensures TrimPrefix(SendKey(subject, step), subject + ":") == step
  {
  }

  lemma SentNext(s: State, subject: Subject, ladder: seq<Step>, i: nat)
    requires i < |ladder|
    ensures Sent(s, subject, ladder[..i + 1])
            == Sent(s, subject, ladder[..i])
               + if SendClaim(subject, ladder[i].key) in s.claims then {ladder[i].key} else {}
  {
  }

  class Store {
    var table: Table
    var state: State

    constructor (table: Table)
      ensures state == START && this.table == table
    {
      this.table := table;
      state := START;
    }

    /** The subject query. */
    method DunningSubjects(horizon: int, limit: nat) returns (subjects: seq<Subject>)
      ensures subjects == ScanSubjects(table, horizon, limit)
    {
      hide First, Live, Window, SubjectOf;
      var slots := Select(Window(table, horizon), limit);
      ScanLists(table, horizon, limit);
      subjects := [];
      for i := 0 to |slots|
        invariant subjects == SubjectsAt(table, slots)[..i]
      {
        subjects := subjects + [SubjectOf(table, slots[i].id)];
      }
    }

    /** Insert the claim unless it exists, and append the event only with it. */
    method ClaimEffect(e: Effect) returns (claimed: bool)
      modifies this`state
      ensures state == Claimed(old(state), e) && claimed == (ClaimOf(e) !in old(state).claims)
      ensures |state.outbox| == |old(state).outbox| + if claimed then 1 else 0
    {
      if ClaimOf(e) in state.claims {
        return false;
      }
      state := state.(claims := state.claims + {ClaimOf(e)}, outbox := state.outbox + [e]);
      return true;
    }

    /** The claimed send keys of a subject, with the subject's prefix trimmed off. */
    method SentSteps(subject: Subject, ladder: seq<Step>) returns (sent: set<string>)
      ensures sent == Sent(state, subject, ladder)
    {
      sent := {};
      for i := 0 to |ladder|
        invariant sent == Sent(state, subject, ladder[..i])
      {
        SentNext(state, subject, ladder, i);
        var key := SendKey(subject.receivable, ladder[i].key);
        if Claim(subject.org, Dunning, key) in state.claims {
          TrimGivesStep(subject.receivable, ladder[i].key);
          sent := sent + {TrimPrefix(key, subject.receivable + ":")};
        }
      }
      assert ladder[..|ladder|] == ladder;
    }

    /** Due steps in ladder order, each claimed as a send or as a refusal. */
    method RunOne(subject: Subject, now: int, ladder: seq<Step>, grants: Grants) returns (emitted: nat)
      modifies this`state
      ensures state == RunSubject(old(state), subject, now, ladder, grants)
      ensures |state.outbox| == |old(state).outbox| + emitted
    {
      hide Sent, DueSteps, ClaimOf, Claimed, Attempts, ClaimAll, Attempt;
      emitted := 0;
      NothingToClaim(state, subject, now, grants);
      var sent := SentSteps(subject, ladder);
      var due := SelectDue(now, subject.due, sent, ladder);
      for i := 0 to |due|
        invariant state == ClaimAll(old(state), Attempts(due[..i], subject, now, grants))
        invariant |state.outbox| == |old(state).outbox| + emitted
      {
        var e := Attempt(due[i], subject, now, grants);
        AttemptsNext(due, i, subject, now, grants);
        ClaimNext(old(state), Attempts(due[..i], subject, now, grants), e);
        var claimed := ClaimEffect(e);
        if claimed {
          emitted := emitted + 1;
        }
      }
      assert due[..|due|] == due;
    }

    /** The job: an invalid ladder or batch is refused before anything is read. */
    method RunDunning(now: int, ladder: seq<Step>, grants: Grants, batch: int) returns (ok: bool, emitted: nat)
      modifies this`state
      ensures ok <==> LadderOk(ladder) && batch >= 1
      ensures state == if ok then Pass(old(state), table, now, ladder, grants, batch) else old(state)
      ensures |state.outbox| == |old(state).outbox| + emitted
    {
      hide RunSubject, Scan, LadderOk;
      emitted := 0;
      ok := ValidateLadder(ladder);
      if !ok || batch < 1 {
        return false, 0;
      }
      var window := Horizon(ladder);
      var subjects := DunningSubjects(now + window, batch);
      for i := 0 to |subjects|
        invariant state == RunSubjects(old(state), subjects[..i], now, ladder, grants)
        invariant |state.outbox| == |old(state).outbox| + emitted
      {
        assert subjects[..i + 1][..i] == subjects[..i];
        var n := RunOne(subjects[i], now, ladder, grants);
        emitted := emitted + n;
      }
      assert subjects[..|subjects|] == subjects;
    }
  }

  lemma NothingToClaim(s: State, subject: Subject, now: int, grants: Grants)
    ensures ClaimAll(s, Attempts([], subject, now, grants)) == s
  {
  }

  lemma AttemptsNext(steps: seq<Step>, i: nat, subject: Subject, now: int, grants: Grants)
    requires i < |steps|
    ensures Attempts(steps[..i + 1], subject, now, grants)
            == Attempts(steps[..i], subject, now, grants) + [Attempt(steps[i], subject, now, grants)]
  {
    hide Attempt;
    assert steps[..i + 1][..i] == steps[..i];
  }

  lemma ClaimNext(s: State, effects: seq<Effect>, e: Effect)
    ensures ClaimAll(s, effects + [e]) == Claimed(ClaimAll(s, effects), e)
  {
  }

  // -- running it again ---------------------------------------------------------

  lemma {:induction false} ClaimsGrow(s: State, effects: seq<Effect>)
    ensures s.claims <= ClaimAll(s, effects).claims
    ensures forall i :: 0 <= i < |effects| ==> ClaimOf(effects[i]) in ClaimAll(s, effects).claims
  {
    hide ClaimOf;
    if effects != [] {
      ClaimsGrow(s, effects[..|effects| - 1]);
      forall i | 0 <= i < |effects| - 1
        ensures ClaimOf(effects[i]) in ClaimAll(s, effects).claims
      {
        assert effects[i] == effects[..|effects| - 1][i];
      }
    }
  }

  lemma {:induction false} ClaimedAlready(s: State, effects: seq<Effect>)
    requires forall i :: 0 <= i < |effects| ==> ClaimOf(effects[i]) in s.claims
    ensures ClaimAll(s, effects) == s
  {
    hide ClaimOf;
    if effects != [] {
      ClaimedAlready(s, effects[..|effects| - 1]);
      assert ClaimOf(effects[|effects| - 1]) in s.claims;
    }
  }

  lemma {:induction false} AttemptsAre(steps: seq<Step>, subject: Subject, now: int, grants: Grants)
    ensures forall e ::
              e in Attempts(steps, subject, now, grants) <==> exists s :: s in steps && e == Attempt(s, subject, now, grants)
  {
    hide Attempt;
    if steps != [] {
      AttemptsAre(steps[..|steps| - 1], subject, now, grants);
      assert steps == steps[..|steps| - 1] + [steps[|steps| - 1]];
    }
  }

  /** Every step of the ladder due on the day is claimed for a subject, as a send or as a refusal. */
  ghost predicate Settled(s: State, subject: Subject, now: int, ladder: seq<Step>, grants: Grants) {
    forall e :: e in AttemptsFor(s, subject, now, ladder, grants) ==> ClaimOf(e) in s.claims
  }

  /** With more claimed, fewer steps are due: what is attempted later was attempted or sent before. */
  lemma FewerAttempts(s: State, t: State, subject: Subject, now: int, ladder: seq<Step>, grants: Grants)
    requires s.claims <= t.claims
    ensures forall e ::
              e in AttemptsFor(t, subject, now, ladder, grants) ==> e in AttemptsFor(s, subject, now, ladder, grants)
  {
    hide Attempt, ClaimOf;
    var before, after := Sent(s, subject, ladder), Sent(t, subject, ladder);
    assert before <= after;
    DueStepsAre(now, subject.due, before, ladder);
    DueStepsAre(now, subject.due, after, ladder);
    AttemptsAre(DueSteps(now, subject.due, before, ladder), subject, now, grants);
    AttemptsAre(DueSteps(now, subject.due, after, ladder), subject, now, grants);
  }

  lemma SettledStays(s: State, t: State, subject: Subject, now: int, ladder: seq<Step>, grants: Grants)
    requires Settled(s, subject, now, ladder, grants) && s.claims <= t.claims
    ensures Settled(t, subject, now, ladder, grants)
  {
    hide AttemptsFor, ClaimOf;
    FewerAttempts(s, t, subject, now, ladder, grants);
  }

  lemma RunSettles(s: State, subject: Subject, now: int, ladder: seq<Step>, grants: Grants)
    ensures Settled(RunSubject(s, subject, now, ladder, grants), subject, now, ladder, grants)
    ensures s.claims <= RunSubject(s, subject, now, ladder, grants).claims
  {
    hide AttemptsFor, ClaimOf, ClaimAll;
    var t := RunSubject(s, subject, now, ladder, grants);
    var effects := AttemptsFor(s, subject, now, ladder, grants);
    ClaimsGrow(s, effects);
    FewerAttempts(s, t, subject, now, ladder, grants);
  }

  lemma {:induction false} AllSettled(s: State, subjects: seq<Subject>, now: int, ladder: seq<Step>, grants: Grants)
    ensures var t := RunSubjects(s, subjects, now, ladder, grants);
            s.claims <= t.claims && forall i :: 0 <= i < |subjects| ==> Settled(t, subjects[i], now, ladder, grants)
  {
    hide RunSubject, Settled;
    if subjects != [] {
      var front, last := subjects[..|subjects| - 1], subjects[|subjects| - 1];
      AllSettled(s, front, now, ladder, grants);
      var mid := RunSubjects(s, front, now, ladder, grants);
      RunSettles(mid, last, now, ladder, grants);
      var t := RunSubject(mid, last, now, ladder, grants);
      forall i | 0 <= i < |subjects|
        ensures Settled(t, subjects[i], now, ladder, grants)
      {
        if i < |front| {
          assert front[i] == subjects[i];
          SettledStays(mid, t, subjects[i], now, ladder, grants);
        }
      }
    }
  }

  lemma {:induction false} SettledRunsIdle(
      t: State, subjects: seq<Subject>, now: int, ladder: seq<Step>, grants: Grants)
    requires forall i :: 0 <= i < |subjects| ==> Settled(t, subjects[i], now, ladder, grants)
    ensures RunSubjects(t, subjects, now, ladder, grants) == t
  {
    hide AttemptsFor, ClaimOf;
    if subjects != [] {
      var last := subjects[|subjects| - 1];
      SettledRunsIdle(t, subjects[..|subjects| - 1], now, ladder, grants);
      assert Settled(t, last, now, ladder, grants);
      ClaimedAlready(t, AttemptsFor(t, last, now, ladder, grants));
    }
  }

  /** A second pass at the same instant, over the same subjects and grants, claims and emits nothing. */
  lemma RerunEmitsNothing(s: State, subjects: seq<Subject>, now: int, ladder: seq<Step>, grants: Grants)
    ensures var t := RunSubjects(s, subjects, now, ladder, grants);
            RunSubjects(t, subjects, now, ladder, grants) == t
  {
    hide RunSubjects, Settled;
    AllSettled(s, subjects, now, ladder, grants);
    SettledRunsIdle(RunSubjects(s, subjects, now, ladder, grants), subjects, now, ladder, grants);
  }

  // -- a pass is a run of the machine -------------------------------------------

  lemma {:induction false} ClaimsAreARun(s: State, effects: seq<Effect>) returns (actions: seq<Action>)
    requires s.txs == map[]
    ensures Runs(s, actions) && Final(s, actions) == ClaimAll(s, effects) && ClaimAll(s, effects).txs == map[]
  {
    hide Claimed;
    actions := [];
    if effects != [] {
      var front, last := effects[..|effects| - 1], effects[|effects| - 1];
      actions := ClaimsAreARun(s, front);
      var more := ClaimIsARun(ClaimAll(s, front), last);
      RunConcat(s, actions, more);
      actions := actions + more;
    }
  }

  lemma {:induction false} SubjectsAreARun(
      s: State, subjects: seq<Subject>, now: int, ladder: seq<Step>, grants: Grants) returns (actions: seq<Action>)
    requires s.txs == map[]
    ensures Runs(s, actions) && Final(s, actions) == RunSubjects(s, subjects, now, ladder, grants)
    ensures RunSubjects(s, subjects, now, ladder, grants).txs == map[]
  {
    hide ClaimAll, AttemptsFor;
    actions := [];
    if subjects != [] {
      var front, last := subjects[..|subjects| - 1], subjects[|subjects| - 1];
      actions := SubjectsAreARun(s, front, now, ladder, grants);
      var t := RunSubjects(s, front, now, ladder, grants);
      var more := ClaimsAreARun(t, AttemptsFor(t, last, now, ladder, grants));
      RunConcat(s, actions, more);
      actions := actions + more;
    }
  }

  /** A pass only runs whole claiming transactions, so every exactly-once result covers it. */
  lemma PassIsARun(s: State, table: Table, now: int, ladder: seq<Step>, grants: Grants, batch: nat)
    returns (actions: seq<Action>)
    requires s.txs == map[]
    ensures Runs(s, actions) && Final(s, actions) == Pass(s, table, now, ladder, grants, batch)
  {
    hide RunSubjects, ScanSubjects;
    actions := SubjectsAreARun(
      s, ScanSubjects(table, now + Wrap64((1 - Earliest(ladder)) * DAY), batch), now, ladder, grants);
  }
}
