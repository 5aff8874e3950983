/**
 Detection's tables and the scoring transaction: what one run of the engine writes,
 and what the database holds when its commit fails, succeeds, or succeeds without
 the caller learning of it.
 */
module Detection {
  import opened Basics
  import opened Features
  import opened Scoring
  import PolicyConfig
  import Rules

  datatype Status = Pending | Processed | Failed

  /** A row of `login_attempts`; its id is its position. */
  datatype Attempt = Attempt(
    event: nat, login: Login, status: Status,
    policy: Option<nat>, level: Option<Level>, decision: Option<Decision>, primaryAlert: Option<nat>)

  datatype Alert = Alert(attempt: nat, policy: nat, level: Level)

  /** The 1:1 row of `risk_assessments`. */
  datatype Stored = Stored(policy: nat, assessment: Assessment)

  datatype Stage = RuleEvaluation | MlCall | FinalScoring | ActionSent

  datatype Log = Log(attempt: nat, stage: Stage)

  datatype ActivePolicy = ActivePolicy(id: nat, policy: Policy)

  /**
   All Detection tables. Assessments are keyed by attempt, which is the unique
   constraint on `login_attempt_id`; `created` lists the alerts with a `created`
   timeline row, in order.
   */
  datatype Store = Store(
    attempts: seq<Attempt>, assessments: map<nat, Stored>,
    alerts: seq<Alert>, created: seq<nat>, logs: seq<Log>)

  /** The outcome of a database commit. */
  datatype Commit = Succeeds | FailsBefore | ReplyLost

  /** What the scoring transaction has read about the attempt's earlier rows. */
  datatype Snapshot = Snapshot(assessed: bool, alert: Option<nat>)

  datatype Verdict = NoPolicy | Judged(policy: nat, assessment: Assessment, notes: nat)

  datatype Response = Response(
    level: Level, decision: Decision, ruleScore: real, ml: MlOutcome, combined: real,
    hits: seq<Rules.Hit>, alert: Option<nat>)

  datatype Result = Returned(response: Response) | Raised

  function VerdictLevel(verdict: Verdict): Level {
    match verdict
    case NoPolicy => Low
    case Judged(_, assessment, _) => assessment.level
  }

  function Logins(attempts: seq<Attempt>): seq<Login> {
    seq(|attempts|, i requires 0 <= i < |attempts| => attempts[i].login)
  }

  /** The first alert row of the attempt, if any. */
  function AlertOf(alerts: seq<Alert>, a: nat): Option<nat> {
    if alerts == [] then None
    else
      var earlier := AlertOf(alerts[..|alerts| - 1], a);
      if earlier.Some? then earlier
      else if alerts[|alerts| - 1].attempt == a then Some(|alerts| - 1)
      else None
  }

  lemma {:induction false} AlertOfMeaning(alerts: seq<Alert>, a: nat)
    ensures AlertOf(alerts, a).Some? ==>
              AlertOf(alerts, a).value < |alerts| && alerts[AlertOf(alerts, a).value].attempt == a
    ensures AlertOf(alerts, a) == None <==> forall k :: 0 <= k < |alerts| ==> alerts[k].attempt != a
  {
    if alerts != [] {
      AlertOfMeaning(alerts[..|alerts| - 1], a);
    }
  }

  function Look(s: Store, a: nat): Snapshot {
    Snapshot(a in s.assessments, AlertOf(s.alerts, a))
  }

  // ---------------------------------------------------------------------------
  // One run of the engine
  // ---------------------------------------------------------------------------

  /**
   The verdict on a login against the stored history; None when resolving the policy's
   config, evaluating its rules or looking up a hit's feature value raises.
   */
  ghost function Judge(
    active: Option<ActivePolicy>, history: seq<Login>, login: Login, ml: MlOutcome): Option<Verdict>
  {
    match active
    case None => Some(NoPolicy)
    case Some(p) =>
      var v := Build(history, login);
      match Assess(p.policy, v, ml)
      case None => None
      case Some(assessment) =>
        var problems := match Rules.Evaluate(p.policy.rules, v) case Scored(_, _, found) => |found| case Raised => 0;
        Some(Judged(p.id, assessment, |PolicyConfig.Resolve(p.policy.config).problems| + |assessment.hits| + problems))
  }

  function NoteLogs(a: nat, notes: nat): seq<Log> {
    seq(notes, _ => Log(a, RuleEvaluation))
  }

  /**
   The store after the scoring transaction commits, given what it read. None is the
   integrity error of inserting a second assessment for the attempt.
   */
  function Persist(s: Store, a: nat, seen: Snapshot, verdict: Verdict): Option<Store>
    requires a < |s.attempts|
  {
    match verdict
    case NoPolicy =>
      Some(s.(
           attempts := s.attempts[a := s.attempts[a].(status := Processed, level := Some(Low),
                                                      decision := Some(Allow))],
           logs := s.logs + [Log(a, FinalScoring)]))
    case Judged(policy, assessment, notes) =>
      if !seen.assessed && a in s.assessments then None
      else
        var creates := seen.alert == None && RaisesAlert(assessment.level);
        var id := |s.alerts|;
        var primary := if seen.alert.Some? then seen.alert else if creates then Some(id)
          else s.attempts[a].primaryAlert;
        Some(Store(
               s.attempts[a := s.attempts[a].(
               status := Processed, policy := Some(policy), level := Some(assessment.level),
               decision := Some(assessment.decision), primaryAlert := primary)],
               s.assessments[a := Stored(policy, assessment)],
               if creates then s.alerts + [Alert(a, policy, assessment.level)] else s.alerts,
               if creates then s.created + [id] else s.created,
               s.logs + NoteLogs(a, notes) + [Log(a, MlCall), Log(a, FinalScoring), Log(a, ActionSent)]))
  }

  /** What the caller is told; `newId` is the id a new alert would get. */
  function Respond(verdict: Verdict, seen: Snapshot, newId: nat, persist: bool): Response {
    match verdict
    case NoPolicy => Response(Low, Allow, 0.0, MlUnavailable, 0.0, [], None)
    case Judged(_, x, _) =>
      Response(x.level, x.decision, x.ruleScore, x.ml, x.combined, x.hits,
               if seen.alert.Some? then seen.alert
               else if persist && RaisesAlert(x.level) then Some(newId)
               else None)
  }

  /** One persisted run with reads and commit back to back. */
  ghost function Process(s: Store, a: nat, active: Option<ActivePolicy>, ml: MlOutcome, commit: Commit): (Store, Result)
    requires a < |s.attempts|
  {
    match Judge(active, Logins(s.attempts), s.attempts[a].login, ml)
    case None => (s, Raised)
    case Some(verdict) =>
      match Persist(s, a, Look(s, a), verdict)
      case None => (s, Raised)
      case Some(after) =>
        match commit
        case FailsBefore => (s, Raised)
        case ReplyLost => (after, Raised)
        case Succeeds => (after, Returned(Respond(verdict, Look(s, a), |s.alerts|, true)))
  }

  /** The pre-token gate's run: `id` is None for its transient, unstored attempt. */
  ghost function DryRun(s: Store, id: Option<nat>, login: Login, active: Option<ActivePolicy>, ml: MlOutcome): Result {
    match Judge(active, Logins(s.attempts), login, ml)
    case None => Raised
    case Some(verdict) =>
      Returned(Respond(verdict, Snapshot(false, if id.Some? then AlertOf(s.alerts, id.value) else None), 0, false))
  }

  // ---------------------------------------------------------------------------
  // What a sound store looks like
  // ---------------------------------------------------------------------------

  ghost predicate UniqueEvents(attempts: seq<Attempt>) {
    forall i, j :: 0 <= i < j < |attempts| ==> attempts[i].event != attempts[j].event
  }

  ghost predicate OneAlertEach(alerts: seq<Alert>) {
    forall i, j :: 0 <= i < j < |alerts| ==> alerts[i].attempt != alerts[j].attempt
  }

  /** A processed attempt whose verdict was high or critical. */
  predicate Risky(row: Attempt) {
    row.status == Processed && row.level.Some? && RaisesAlert(row.level.value)
  }

  /** The attempt's primary alert is its alert, and a processed high or critical attempt has one. */
  ghost predicate AlertLinked(s: Store, a: nat)
    requires a < |s.attempts|
  {
    var row := s.attempts[a];
    && (row.primaryAlert.Some? ==> row.primaryAlert.value < |s.alerts| && s.alerts[row.primaryAlert.value].attempt == a)
    && (Risky(row) ==> row.primaryAlert.Some?)
    && (row.status == Processed ==> row.level.Some?)
    && (row.status == Pending ==> row.primaryAlert == None)
  }

  ghost predicate Sound(s: Store) {
    && UniqueEvents(s.attempts) && OneAlertEach(s.alerts)
    && (forall a :: a in s.assessments ==> a < |s.attempts|)
    && (forall k :: 0 <= k < |s.alerts| ==> s.alerts[k].attempt < |s.attempts| && s.alerts[k].attempt in s.assessments)
    && s.created == seq(|s.alerts|, k => k)
    && (forall a :: 0 <= a < |s.attempts| ==> AlertLinked(s, a))
  }

  /** The alerts grow by at most one, for an attempt that had none. */
  lemma PersistAlerts(s: Store, a: nat, verdict: Verdict)
    requires OneAlertEach(s.alerts) && a < |s.attempts|
    ensures Persist(s, a, Look(s, a), verdict).Some?
    ensures var after := Persist(s, a, Look(s, a), verdict).value;
            && s.alerts <= after.alerts && OneAlertEach(after.alerts)
            && (s.created == seq(|s.alerts|, k => k) ==> after.created == seq(|after.alerts|, k => k))
            && forall k :: |s.alerts| <= k < |after.alerts| ==> after.alerts[k].attempt == a && a in after.assessments
  {
    AlertOfMeaning(s.alerts, a);
    assert seq(|s.alerts|, k => k) + [|s.alerts|] == seq(|s.alerts| + 1, k => k);
  }

  lemma PersistLinks(s: Store, a: nat, verdict: Verdict)
    requires a < |s.attempts| && forall b :: 0 <= b < |s.attempts| ==> AlertLinked(s, b)
    ensures Persist(s, a, Look(s, a), verdict).Some?
    ensures var after := Persist(s, a, Look(s, a), verdict).value;
            |after.attempts| == |s.attempts| && forall b :: 0 <= b < |after.attempts| ==> AlertLinked(after, b)
  {
    var after := Persist(s, a, Look(s, a), verdict).value;
    AlertOfMeaning(s.alerts, a);
    forall b | 0 <= b < |after.attempts| ensures AlertLinked(after, b) {
      assert AlertLinked(s, b);
    }
  }

  /** With an accurate snapshot the transaction never violates a constraint and keeps the store sound. */
  lemma PersistKeepsSound(s: Store, a: nat, verdict: Verdict)
    requires Sound(s) && a < |s.attempts|
    ensures Persist(s, a, Look(s, a), verdict).Some?
    ensures Sound(Persist(s, a, Look(s, a), verdict).value)
  {
    PersistAlerts(s, a, verdict);
    PersistLinks(s, a, verdict);
    var after := Persist(s, a, Look(s, a), verdict).value;
    forall k | 0 <= k < |after.alerts|
      ensures after.alerts[k].attempt < |after.attempts| && after.alerts[k].attempt in after.assessments
    {
      if k < |s.alerts| {
        assert after.alerts[k] == s.alerts[k];
      }
    }
  }

  /**
   Scores, level, decision and hits do not depend on persistence: a dry run and a
   persisted run that returns agree on all of them, and differ on the alert id only
   when the persisted run has just opened the alert.
   */
  lemma DryRunAgrees(s: Store, a: nat, id: Option<nat>, active: Option<ActivePolicy>, ml: MlOutcome)
    requires a < |s.attempts| && (id == None || id == Some(a))
    requires Sound(s)
    ensures var dry := DryRun(s, id, s.attempts[a].login, active, ml);
            var wet := Process(s, a, active, ml, Succeeds).1;
            && dry.Raised? == wet.Raised?
            && (dry.Returned? ==> dry.response == wet.response.(alert := dry.response.alert))
            && (dry.Returned? ==> dry.response.alert == if active == None || id == None then None
                                                        else AlertOf(s.alerts, a))
            && (dry.Returned? && id == Some(a) && dry.response.alert != wet.response.alert ==>
                  AlertOf(s.alerts, a) == None && RaisesAlert(wet.response.level)
                  && wet.response.alert == Some(|s.alerts|))
  {
    match Judge(active, Logins(s.attempts), s.attempts[a].login, ml) {
      case None =>
      case Some(verdict) => PersistKeepsSound(s, a, verdict);
    }
  }

  /**
   What the caller is told is what the tables hold: a run that returns leaves the attempt
   processed at the level and decision it reports; with a policy the stored assessment
   carries the reported scores and hits under the policy's id, the reported alert is the
   attempt's primary one, and an alert opened by the run carries the same level and policy.
   Without a policy the login is allowed at low and no other table changes.
   */
  lemma ResponseMatchesTables(s: Store, a: nat, active: Option<ActivePolicy>, ml: MlOutcome)
    requires Sound(s) && a < |s.attempts| && Process(s, a, active, ml, Succeeds).1.Returned?
    ensures var (after, result) := Process(s, a, active, ml, Succeeds);
            var row, r := after.attempts[a], result.response;
            && row.status == Processed && row.level == Some(r.level) && row.decision == Some(r.decision)
            && (active == None ==>
                  && r.level == Low && r.decision == Allow && r.alert == None
                  && after == s.(attempts := s.attempts[a := row], logs := after.logs))
            && (active.Some? ==>
                  && row.policy == Some(active.value.id) && row.primaryAlert == r.alert
                  && a in after.assessments && after.assessments[a].policy == active.value.id
                  && var x := after.assessments[a].assessment;
                  && x.ruleScore == r.ruleScore && x.ml == r.ml && x.combined == r.combined && x.hits == r.hits
                  && x.level == r.level && x.decision == r.decision
                  && (|after.alerts| > |s.alerts| ==>
                        && r.alert == Some(|s.alerts|)
                        && after.alerts[|s.alerts|] == Alert(a, active.value.id, r.level)))
  {
    AlertOfMeaning(s.alerts, a);
    assert AlertLinked(s, a);
    match Judge(active, Logins(s.attempts), s.attempts[a].login, ml) {
      case None =>
      case Some(verdict) => PersistKeepsSound(s, a, verdict);
    }
  }

  /**
   What a run logs: each rule that fired, each problem of the rules and of the config, and
   one row for the ML call, the final score and the action; without a policy the final row
   alone; about other attempts nothing.
   */
  lemma StagesLogged(s: Store, a: nat, active: Option<ActivePolicy>, ml: MlOutcome, b: nat, stage: Stage)
    requires Sound(s) && a < |s.attempts| && Process(s, a, active, ml, Succeeds).1.Returned?
    ensures var (after, result) := Process(s, a, active, ml, Succeeds);
            multiset(after.logs)[Log(b, stage)] == multiset(s.logs)[Log(b, stage)] +
            if b != a then 0
            else if active == None then (if stage == FinalScoring then 1 else 0)
            else if stage != RuleEvaluation then 1
            else
              var e := Rules.Evaluate(active.value.policy.rules, Build(Logins(s.attempts), s.attempts[a].login));
              |result.response.hits| + |PolicyConfig.Resolve(active.value.policy.config).problems|
              + (if e.Scored? then |e.problems| else 0)
  {
    if active.Some? {
      var verdict := Judge(active, Logins(s.attempts), s.attempts[a].login, ml).value;
      NotesCounted(a, verdict.notes, b, stage);
    }
  }

  lemma {:induction false} NotesCounted(a: nat, notes: nat, b: nat, stage: Stage)
    ensures multiset(NoteLogs(a, notes))[Log(b, stage)] == if b == a && stage == RuleEvaluation then notes else 0
  {
    if notes > 0 {
      NotesCounted(a, notes - 1, b, stage);
      assert NoteLogs(a, notes) == NoteLogs(a, notes - 1) + [Log(a, RuleEvaluation)];
    }
  }

  /**
   A run returns exactly when its commit is confirmed and scoring does not raise; it is
   written when the commit reaches the tables, confirmed or not, and otherwise nothing is.
   */
  lemma ReturnsExactlyWhen(s: Store, a: nat, active: Option<ActivePolicy>, ml: MlOutcome, commit: Commit)
    requires Sound(s) && a < |s.attempts|
    ensures var (after, result) := Process(s, a, active, ml, commit);
            var v := Build(Logins(s.attempts), s.attempts[a].login);
            var scored := active == None || Assess(active.value.policy, v, ml).Some?;
            && (result.Returned? <==> scored && commit == Succeeds)
            && (after == s <==> !scored || commit == FailsBefore)
            && (scored && commit != FailsBefore ==> after == Process(s, a, active, ml, Succeeds).0)
  {
    match Judge(active, Logins(s.attempts), s.attempts[a].login, ml) {
      case None =>
      case Some(verdict) =>
        var after := Persist(s, a, Look(s, a), verdict);
        assert after.Some? ==> |after.value.logs| > |s.logs|;
    }
  }

  /** An alert is opened exactly for the first high or critical verdict on the attempt. */
  lemma OpensAlertExactlyWhen(s: Store, a: nat, active: Option<ActivePolicy>, ml: MlOutcome)
    requires Sound(s) && a < |s.attempts| && Process(s, a, active, ml, Succeeds).1.Returned?
    ensures var (after, result) := Process(s, a, active, ml, Succeeds);
            && s.alerts <= after.alerts
            && (|after.alerts| > |s.alerts| <==>
                && active.Some? && result.response.level in {High, Critical}
                && forall k :: 0 <= k < |s.alerts| ==> s.alerts[k].attempt != a)
            && (|after.alerts| > |s.alerts| ==> after.created == s.created + [|s.alerts|])
  {
    AlertOfMeaning(s.alerts, a);
    match Judge(active, Logins(s.attempts), s.attempts[a].login, ml) {
      case None =>
      case Some(verdict) => PersistAlerts(s, a, verdict);
    }
  }

  /** After an exception the attempt is parked for the recovery sweep. */
  function Park(s: Store, a: nat): Store
    requires a < |s.attempts|
  {
    s.(attempts := s.attempts[a := s.attempts[a].(status := Failed)], logs := s.logs + [Log(a, FinalScoring)])
  }

  lemma ParkKeepsSound(s: Store, a: nat)
    requires Sound(s) && a < |s.attempts|
    ensures Sound(Park(s, a))
  {
    forall b | 0 <= b < |s.attempts| ensures AlertLinked(Park(s, a), b) {
      assert AlertLinked(s, b);
    }
  }

  function NewAttempt(event: nat, login: Login): Attempt {
    Attempt(event, login, Pending, None, None, None, None)
  }

  /** The event id already has a row. */
  predicate Known(s: Store, event: nat) {
    exists a :: 0 <= a < |s.attempts| && s.attempts[a].event == event
  }

  function InsertRow(s: Store, event: nat, login: Login): Store {
    s.(attempts := s.attempts + [NewAttempt(event, login)])
  }

  lemma InsertKeepsSound(s: Store, event: nat, login: Login)
    requires Sound(s) && !Known(s, event)
    ensures Sound(InsertRow(s, event, login))
  {
    forall b | 0 <= b < |s.attempts| ensures AlertLinked(InsertRow(s, event, login), b) {
      assert AlertLinked(s, b);
    }
  }

  // ---------------------------------------------------------------------------
  // Enforcement
  // ---------------------------------------------------------------------------

  datatype ProtectiveAction = RequireMfa | RevokeSessions | LockUser | ForceLogout

  function ActionFor(level: Level): Option<ProtectiveAction> {
    match level
    case High => Some(RequireMfa)
    case Critical => Some(RevokeSessions)
    case _ => None
  }

  /** Whether the engine calls Core at all for this verdict. */
  predicate CallsCore(login: Login, level: Level) {
    ActionFor(level).Some? && login.user.Some?
  }

  /** The gate holds a token for exactly the verdicts that open an alert and that carry an automated action. */
  lemma GateAlertAndActionCoincide(level: Level)
    ensures RaisesAlert(level) <==> ActionFor(level).Some?
    ensures RaisesAlert(level) <==> DecisionOf(level) != Allow
  {}
}
