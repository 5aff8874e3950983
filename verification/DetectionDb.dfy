/** The Detection database as the request handlers update it, one handler at a time. */
module DetectionDb {
  import opened Basics
  import opened Features
  import opened Scoring
  import opened Detection
  import PolicyConfig
  import Rules

  /** Steps two to five, with the number of rule notes to log; None when evaluation or the lookup for the log raises. */
  method AssessRules(policy: Policy, config: PolicyConfig.Resolved, vector: Vector, ml: MlOutcome)
    returns (r: Option<(Assessment, nat)>)
    requires !PolicyConfig.ConfigRaises(policy.config) && config == PolicyConfig.Resolve(policy.config)
    ensures r.Some? <==> Assess(policy, vector, ml).Some?
    ensures r.Some? ==>
              && Assess(policy, vector, ml) == Some(r.value.0)
              && Rules.Evaluate(policy.rules, vector).Scored?
              && r.value.1 == |r.value.0.hits| + |Rules.Evaluate(policy.rules, vector).problems|
  {
    var evaluation := Rules.EvaluateRules(policy.rules, vector);
    match evaluation {
      case Raised =>
        return None;
      case Scored(ruleScore, hits, problems) =>
        var lost := LookUpValues(policy, hits);
        if lost {
          return None;
        }
        var combined := Combine(config.weights, ruleScore, ml);
        var level := LevelOf(combined, config.thresholds);
        return Some((Assessment(ruleScore, ml, combined, level, DecisionOf(level), hits), |hits| + |problems|));
    }
  }

  /** The feature value of each hit is looked up for its log row, in dry runs too. */
  method LookUpValues(policy: Policy, hits: seq<Rules.Hit>) returns (raised: bool)
    ensures raised <==> LookupRaises(policy, hits)
  {
    if !policy.rules.List? {
      return false;
    }
    for k := 0 to |hits|
      invariant forall i :: 0 <= i < k ==> !Rules.LookupFails(policy.rules.items,
                                                    Rules.NameText(policy.printed, hits[i].name))
    {
      var failed := Rules.MatchedValue(policy.rules.items, Rules.NameText(policy.printed, hits[k].name));
      if failed {
        return true;
      }
    }
    raised := false;
  }

  class Database {
    var attempts: seq<Attempt>
    var assessments: map<nat, Stored>
    var alerts: seq<Alert>
    var created: seq<nat>
    var logs: seq<Log>

    ghost function State(): Store
      reads this
    {
      Store(attempts, assessments, alerts, created, logs)
    }

    constructor ()
      ensures State() == Store([], map[], [], [], []) && Sound(State())
    {
      attempts, assessments, alerts, created, logs := [], map[], [], [], [];
    }

    /**
     Scores one attempt. Writes are collected first and reach the tables at the
     commit; a run with `persist` false writes nothing.
     */
    method ProcessAttempt(
      id: Option<nat>, login: Login, active: Option<ActivePolicy>, ml: MlOutcome, persist: bool, commit: Commit)
      returns (r: Result)
      requires id.Some? ==> id.value < |attempts| && attempts[id.value].login == login
      requires persist ==> id.Some?
      modifies this
      ensures persist ==> (State(), r) == Process(old(State()), id.value, active, ml, commit)
      ensures !persist ==> State() == old(State()) && r == DryRun(old(State()), id, login, active, ml)
    {
      var verdict := EvaluateLogin(login, active, ml);
      if verdict == None {
        return Raised;
      }
      if !persist {
        var existing := if id.Some? then AlertOf(alerts, id.value) else None;
        return Returned(Respond(verdict.value, Snapshot(false, existing), 0, false));
      }
      var a := id.value;
      if commit == FailsBefore {
        PersistPossible(State(), a, verdict.value);
        return Raised;
      }
      r := Returned(Respond(verdict.value, Snapshot(a in assessments, AlertOf(alerts, a)), |alerts|, true));
      WriteVerdict(a, verdict.value);
      if commit == ReplyLost {
        return Raised;
      }
    }

    /** The writes of one run: attempt, assessment, alert with its timeline row, and logs. */
    method WriteVerdict(a: nat, verdict: Verdict)
      requires a < |attempts|
      modifies this
      ensures Some(State()) == Persist(old(State()), a, Look(old(State()), a), verdict)
    {
      var seen := Snapshot(a in assessments, AlertOf(alerts, a));
      var row := attempts[a].(status := Processed);
      match verdict {
        case NoPolicy =>
          attempts := attempts[a := row.(level := Some(Low), decision := Some(Allow))];
          logs := logs + [Log(a, FinalScoring)];
        case Judged(policy, assessment, notes) =>
          if seen.alert.Some? {
            row := row.(primaryAlert := seen.alert);
          } else if RaisesAlert(assessment.level) {
            row := row.(primaryAlert := Some(|alerts|));
            created := created + [|alerts|];
            alerts := alerts + [Alert(a, policy, assessment.level)];
          }
          assessments := assessments[a := Stored(policy, assessment)];
          row := row.(policy := Some(policy), level := Some(assessment.level), decision := Some(assessment.decision));
          attempts := attempts[a := row];
          logs := logs + NoteLogs(a, notes) + [Log(a, MlCall), Log(a, FinalScoring), Log(a, ActionSent)];
      }
    }

    /** Steps one to five of scoring: policy, features, rules, blend and level. */
    method EvaluateLogin(login: Login, active: Option<ActivePolicy>, ml: MlOutcome) returns (verdict: Option<Verdict>)
      ensures verdict == Judge(active, Logins(attempts), login, ml)
    {
      if active == None {
        return Some(NoPolicy);
      }
      var policy := active.value.policy;
      var resolved := PolicyConfig.ResolveConfig(policy.config);
      if resolved == None {
        return None;
      }
      var vector := BuildFeatures(Logins(attempts), login);
      var assessed := AssessRules(policy, resolved.value, vector, ml);
      if assessed == None {
        return None;
      }
      verdict := Some(Judged(active.value.id, assessed.value.0, |resolved.value.problems| + assessed.value.1));
    }

    /** What the delivering service is told; None stands for a server error. */
    method ReceiveLoginEvent(
      event: nat, login: Login, active: Option<ActivePolicy>, ml: MlOutcome,
      insert: Commit, scoring: Commit, parking: Commit)
      returns (reply: Option<(nat, Status)>, called: bool)
      requires Sound(State())
      modifies this
      ensures Sound(State())
      ensures old(Known(State(), event)) ==>
                && State() == old(State()) && !called
                && reply.Some? && reply.value.0 < |attempts| && attempts[reply.value.0].event == event
      ensures !old(Known(State(), event)) ==>
                && (insert == FailsBefore ==> State() == old(State()))
                && (insert != FailsBefore ==>
                      && |attempts| == |old(attempts)| + 1 && attempts[..|old(attempts)|] == old(attempts)
                      && attempts[|old(attempts)|].event == event && attempts[|old(attempts)|].login == login)
                && (insert == ReplyLost ==> State() == InsertRow(old(State()), event, login))
                && var inserted := InsertRow(old(State()), event, login);
                var verdict := VerdictOn(inserted, |old(attempts)|, active, ml);
                && (insert == Succeeds ==>
                      State() == ScoredOrParked(inserted, |old(attempts)|, verdict, scoring, parking))
                && (reply.Some? <==> insert == Succeeds && (Confirms(verdict, scoring) || parking == Succeeds))
                && (reply.Some? ==> reply.value.0 == |old(attempts)| && reply.value.1 != Pending)
      ensures reply.Some? ==> reply.value.0 < |attempts| && attempts[reply.value.0].status == reply.value.1
      ensures called <==>
                && !old(Known(State(), event)) && reply.Some? && reply.value.1 == Processed
                && attempts[reply.value.0].level.Some? && CallsCore(login, attempts[reply.value.0].level.value)
    {
      called := false;
      var known := FindEvent(event);
      if known.Some? {
        return Some((known.value, attempts[known.value].status)), false;
      }
      if insert == FailsBefore {
        return None, false;
      }
      InsertKeepsSound(State(), event, login);
      var a := |attempts|;
      attempts := attempts + [NewAttempt(event, login)];
      if insert == ReplyLost {
        return None, false;
      }
      SettlesNewRow(State(), a, VerdictOn(State(), a, active, ml), scoring, parking);
      var answered;
      answered, called := ScoreOrPark(a, active, ml, scoring, parking);
      reply := if answered then Some((a, attempts[a].status)) else None;
    }

    method FindEvent(event: nat) returns (found: Option<nat>)
      ensures found.Some? ==> found.value < |attempts| && attempts[found.value].event == event
      ensures found.Some? <==> Known(State(), event)
    {
      var a := 0;
      while a < |attempts|
        invariant 0 <= a <= |attempts|
        invariant forall k :: 0 <= k < a ==> attempts[k].event != event
      {
        if attempts[a].event == event {
          return Some(a);
        }
        a := a + 1;
      }
      found := None;
    }

    /** The inserted row is scored, or parked as failed when scoring raises. */
    method ScoreOrPark(a: nat, active: Option<ActivePolicy>, ml: MlOutcome, scoring: Commit, parking: Commit)
      returns (answered: bool, called: bool)
      requires a < |attempts|
      modifies this
      ensures var verdict := old(VerdictOn(State(), a, active, ml));
              && State() == ScoredOrParked(old(State()), a, verdict, scoring, parking)
              && (answered <==> Confirms(verdict, scoring) || parking == Succeeds)
              && (called <==> Confirms(verdict, scoring)
                              && CallsCore(old(attempts)[a].login, VerdictLevel(verdict.value)))
    {
      var login := attempts[a].login;
      ProcessSettles(State(), a, active, ml, scoring);
      var result := ProcessAttempt(Some(a), login, active, ml, true, scoring);
      if result.Returned? {
        return true, CallsCore(login, result.response.level);
      }
      if parking == FailsBefore {
        return false, false;
      }
      attempts := attempts[a := attempts[a].(status := Failed)];
      logs := logs + [Log(a, FinalScoring)];
      return parking == Succeeds, false;
    }

    /** One failed row: score it again and, if that returns, decide whether Core is called. */
    method Rescore(a: nat, active: Option<ActivePolicy>, ml: MlOutcome, commit: Commit, ghost verdict: Option<Verdict>)
      returns (returned: bool, calls: bool)
      requires a < |attempts| && verdict == VerdictOn(State(), a, active, ml)
      modifies this
      ensures State() == Settle(old(State()), a, verdict, commit)
      ensures returned <==> Confirms(verdict, commit)
      ensures calls <==> Confirms(verdict, commit) && CallsCore(old(attempts)[a].login, VerdictLevel(verdict.value))
    {
      var login := attempts[a].login;
      ProcessSettles(State(), a, active, ml, commit);
      var result := ProcessAttempt(Some(a), login, active, ml, true, commit);
      returned := result.Returned?;
      calls := returned && CallsCore(login, result.response.level);
    }

    /** The sweep's next row, counted if its run returns and called for if its verdict demands it. */
    method RescoreNext(
      queue: seq<nat>, k: nat, active: Option<ActivePolicy>, answers: seq<(MlOutcome, Commit)>,
      recovered: nat, called: seq<nat>, ghost start: Store, ghost js: seq<Judgement>)
      returns (recoveredNow: nat, calledNow: seq<nat>)
      requires Rows(start, queue) && |answers| == |queue| && k < |queue|
      requires JudgedBy(start, queue, active, answers, js) && Swept(start, queue, js, k, State(), recovered, called)
      modifies this
      ensures Swept(start, queue, js, k + 1, State(), recoveredNow, calledNow)
    {
      VerdictStands(start, State(), queue, active, answers, js, k);
      SweepKeepsLogin(start, queue, js, k, queue[k]);
      var returned, calls := Rescore(queue[k], active, answers[k].0, answers[k].1, js[k].verdict);
      recoveredNow := if returned then recovered + 1 else recovered;
      calledNow := if calls then called + [queue[k]] else called;
    }

    /** The sweep's loop. A row whose run raises is left for the next sweep. */
    method RescoreRows(
      queue: seq<nat>, active: Option<ActivePolicy>, answers: seq<(MlOutcome, Commit)>, ghost js: seq<Judgement>)
      returns (recovered: nat, called: seq<nat>)
      requires Rows(State(), queue) && |answers| == |queue| && JudgedBy(State(), queue, active, answers, js)
      modifies this
      ensures Swept(old(State()), queue, js, |queue|, State(), recovered, called)
    {
      recovered, called := 0, [];
      ghost var start := State();
      var k := 0;
      while k < |queue|
        invariant 0 <= k <= |queue|
        invariant Swept(start, queue, js, k, State(), recovered, called)
      {
        recovered, called := RescoreNext(queue, k, active, answers, recovered, called, start, js);
        k := k + 1;
      }
    }

    /** The recovery sweep over the failed rows the query returned. */
    method RescoreFailed(
      queue: seq<nat>, active: Option<ActivePolicy>, answers: seq<(MlOutcome, Commit)>)
      returns (recovered: nat, called: seq<nat>)
      requires Rows(State(), queue) && |answers| == |queue|
      modifies this
      ensures var js := old(Judgements(State(), queue, active, answers));
              && State() == Rescored(old(State()), queue, js, |queue|)
              && recovered == |Recovered(queue, js, |queue|)|
              && called == Calling(old(State()), queue, js, |queue|)
    {
      recovered, called := RescoreRows(queue, active, answers, Judgements(State(), queue, active, answers));
    }
  }

  // ---------------------------------------------------------------------------
  // Scoring or parking a new row
  // ---------------------------------------------------------------------------

  /** The tables after a new row was scored or, when that raised, parked. */
  function ScoredOrParked(s: Store, a: nat, verdict: Option<Verdict>, scoring: Commit, parking: Commit): Store
    requires a < |s.attempts|
  {
    var scored := Settle(s, a, verdict, scoring);
    if Confirms(verdict, scoring) || parking == FailsBefore then scored else Park(scored, a)
  }

  /** A new row ends processed at its verdict's level, parked, or as it was when neither commit reached the tables. */
  lemma SettlesNewRow(s: Store, a: nat, verdict: Option<Verdict>, scoring: Commit, parking: Commit)
    requires Sound(s) && a < |s.attempts|
    ensures var after := ScoredOrParked(s, a, verdict, scoring, parking);
            && Sound(after) && |after.attempts| == |s.attempts|
            && (forall b :: 0 <= b < |s.attempts| && b != a ==> after.attempts[b] == s.attempts[b])
            && after.attempts[a].event == s.attempts[a].event && after.attempts[a].login == s.attempts[a].login
            && (Confirms(verdict, scoring) ==>
                  after.attempts[a].status == Processed && after.attempts[a].level == Some(VerdictLevel(verdict.value)))
            && (!Confirms(verdict, scoring) && parking != FailsBefore ==> after.attempts[a].status == Failed)
            && ((verdict == None || scoring == FailsBefore) && parking == FailsBefore ==> after == s)
  {
    SettleTouchesOnly(s, a, verdict, scoring);
    SettleKeepsSound(s, a, verdict, scoring);
    if !Confirms(verdict, scoring) {
      ParkKeepsSound(Settle(s, a, verdict, scoring), a);
    }
  }

  // ---------------------------------------------------------------------------
  // The recovery sweep
  // ---------------------------------------------------------------------------

  /** What the query returns: distinct failed rows. */
  ghost predicate SweepOver(s: Store, queue: seq<nat>) {
    && (forall k :: 0 <= k < |queue| ==> queue[k] < |s.attempts| && s.attempts[queue[k]].status == Failed)
    && (forall i, j :: 0 <= i < j < |queue| ==> queue[i] != queue[j])
  }

  ghost predicate Rows(s: Store, queue: seq<nat>) {
    forall k :: 0 <= k < |queue| ==> queue[k] < |s.attempts|
  }

  ghost function VerdictOn(s: Store, a: nat, active: Option<ActivePolicy>, ml: MlOutcome): Option<Verdict>
    requires a < |s.attempts|
  {
    Judge(active, Logins(s.attempts), s.attempts[a].login, ml)
  }

  /** The tables after a run with this verdict, None if scoring raised. */
  function Settle(s: Store, a: nat, verdict: Option<Verdict>, commit: Commit): (r: Store)
    requires a < |s.attempts|
    ensures |r.attempts| == |s.attempts|
  {
    if verdict == None || commit == FailsBefore then s
    else
      var written := Persist(s, a, Look(s, a), verdict.value);
      if written == None then s else written.value
  }

  /** The run returns: there is a verdict, and its commit is confirmed. */
  predicate Confirms(verdict: Option<Verdict>, commit: Commit) {
    verdict.Some? && commit == Succeeds
  }

  lemma ProcessSettles(s: Store, a: nat, active: Option<ActivePolicy>, ml: MlOutcome, commit: Commit)
    requires a < |s.attempts|
    ensures var (after, result), verdict := Process(s, a, active, ml, commit), VerdictOn(s, a, active, ml);
            && after == Settle(s, a, verdict, commit)
            && (result.Returned? <==> Confirms(verdict, commit))
            && (result.Returned? ==> result.response.level == VerdictLevel(verdict.value))
  {}

  /** What one row of the sweep meets: the engine's verdict on it, and the outcome of its commit. */
  datatype Judgement = Judgement(verdict: Option<Verdict>, commit: Commit)

  /** Every row of the queue judged against the tables as the sweep finds them at its start. */
  ghost predicate JudgedBy(
    s: Store, queue: seq<nat>, active: Option<ActivePolicy>, answers: seq<(MlOutcome, Commit)>, js: seq<Judgement>)
    requires Rows(s, queue) && |answers| == |queue|
  {
    && |js| == |queue|
    && forall k {:trigger VerdictOn(s, queue[k], active, answers[k].0)} :: 0 <= k < |queue| ==>
         js[k] == Judgement(VerdictOn(s, queue[k], active, answers[k].0), answers[k].1)
  }

  ghost function Judgements(
    s: Store, queue: seq<nat>, active: Option<ActivePolicy>, answers: seq<(MlOutcome, Commit)>): (r: seq<Judgement>)
    requires Rows(s, queue) && |answers| == |queue|
    ensures JudgedBy(s, queue, active, answers, r)
  {
    seq(|queue|, k requires 0 <= k < |queue| =>
      Judgement(VerdictOn(s, queue[k], active, answers[k].0), answers[k].1))
  }

  /** The tables after the first k rows. */
  ghost function Rescored(s: Store, queue: seq<nat>, js: seq<Judgement>, k: nat): (r: Store)
    requires Rows(s, queue) && |js| == |queue| && k <= |queue|
    ensures |r.attempts| == |s.attempts|
  {
    if k == 0 then s else Settle(Rescored(s, queue, js, k - 1), queue[k - 1], js[k - 1].verdict, js[k - 1].commit)
  }

  /** Those of them whose run returns. */
  function Recovered(queue: seq<nat>, js: seq<Judgement>, k: nat): seq<nat>
    requires |js| == |queue| && k <= |queue|
  {
    if k == 0 then []
    else
      Recovered(queue, js, k - 1) + (if Confirms(js[k - 1].verdict, js[k - 1].commit) then [queue[k - 1]] else [])
  }

  /** Those of them whose verdict also demands a call to Core. */
  ghost function Calling(s: Store, queue: seq<nat>, js: seq<Judgement>, k: nat): seq<nat>
    requires Rows(s, queue) && |js| == |queue| && k <= |queue|
  {
    if k == 0 then []
    else
      Calling(s, queue, js, k - 1)
      + (if Confirms(js[k - 1].verdict, js[k - 1].commit)
         && CallsCore(s.attempts[queue[k - 1]].login, VerdictLevel(js[k - 1].verdict.value))
         then [queue[k - 1]] else [])
  }

  /** Where the sweep stands after k rows. */
  ghost predicate Swept(
    s: Store, queue: seq<nat>, js: seq<Judgement>, k: nat, now: Store, recovered: nat, called: seq<nat>)
  {
    && Rows(s, queue) && |js| == |queue| && k <= |queue|
    && now == Rescored(s, queue, js, k)
    && recovered == |Recovered(queue, js, k)|
    && called == Calling(s, queue, js, k)
  }

  lemma SettleTouchesOnly(s: Store, a: nat, verdict: Option<Verdict>, commit: Commit)
    requires a < |s.attempts|
    ensures var after := Settle(s, a, verdict, commit);
            && (forall b :: 0 <= b < |s.attempts| && b != a ==> after.attempts[b] == s.attempts[b])
            && after.attempts[a].event == s.attempts[a].event && after.attempts[a].login == s.attempts[a].login
            && Settled(s.attempts[a], verdict, commit, after.attempts[a])
  {}

  lemma SettleKeepsSound(s: Store, a: nat, verdict: Option<Verdict>, commit: Commit)
    requires Sound(s) && a < |s.attempts|
    ensures Sound(Settle(s, a, verdict, commit))
  {
    if verdict.Some? {
      PersistKeepsSound(s, a, verdict.value);
    }
  }

  lemma {:induction false} SweepKeepsSound(s: Store, queue: seq<nat>, js: seq<Judgement>, k: nat)
    requires Sound(s) && Rows(s, queue) && |js| == |queue| && k <= |queue|
    ensures Sound(Rescored(s, queue, js, k))
  {
    if k > 0 {
      SweepKeepsSound(s, queue, js, k - 1);
      SettleKeepsSound(Rescored(s, queue, js, k - 1), queue[k - 1], js[k - 1].verdict, js[k - 1].commit);
    }
  }

  /** One more row of the sweep, seen from row a. */
  lemma SweepStep(s: Store, queue: seq<nat>, js: seq<Judgement>, k: nat, a: nat)
    requires Rows(s, queue) && |js| == |queue| && k < |queue| && a < |s.attempts|
    ensures var found, now := Rescored(s, queue, js, k).attempts[a], Rescored(s, queue, js, k + 1).attempts[a];
            && now.login == found.login
            && (a != queue[k] ==> now == found)
            && (a == queue[k] ==> Settled(found, js[k].verdict, js[k].commit, now))
  {
    SettleTouchesOnly(Rescored(s, queue, js, k), queue[k], js[k].verdict, js[k].commit);
  }

  lemma {:induction false} SweepKeepsLogin(s: Store, queue: seq<nat>, js: seq<Judgement>, k: nat, a: nat)
    requires Rows(s, queue) && |js| == |queue| && k <= |queue| && a < |s.attempts|
    ensures Rescored(s, queue, js, k).attempts[a].login == s.attempts[a].login
  {
    if k > 0 {
      SweepKeepsLogin(s, queue, js, k - 1, a);
      SweepStep(s, queue, js, k - 1, a);
    }
  }

  lemma SweepKeepsLogins(s: Store, queue: seq<nat>, js: seq<Judgement>, k: nat)
    requires Rows(s, queue) && |js| == |queue| && k <= |queue|
    ensures Logins(Rescored(s, queue, js, k).attempts) == Logins(s.attempts)
  {
    forall a | 0 <= a < |s.attempts| ensures Rescored(s, queue, js, k).attempts[a].login == s.attempts[a].login {
      SweepKeepsLogin(s, queue, js, k, a);
    }
  }

  /** A verdict depends on the logins alone, so it stands whatever rows were scored before. */
  lemma VerdictStands(
    s: Store, now: Store, queue: seq<nat>, active: Option<ActivePolicy>, answers: seq<(MlOutcome, Commit)>,
    js: seq<Judgement>, k: nat)
    requires Rows(s, queue) && |answers| == |queue| && k < |queue| && JudgedBy(s, queue, active, answers, js)
    requires now == Rescored(s, queue, js, k)
    ensures js[k] == Judgement(VerdictOn(now, queue[k], active, answers[k].0), answers[k].1)
  {
    SweepKeepsLogins(s, queue, js, k);
    SweepKeepsLogin(s, queue, js, k, queue[k]);
    assert js[k].verdict == VerdictOn(s, queue[k], active, answers[k].0);
  }

  /**
   With a verdict and a commit that reached the tables the row is processed at the verdict's
   level, and otherwise it is as the run found it.
   */
  predicate Settled(before: Attempt, verdict: Option<Verdict>, commit: Commit, row: Attempt) {
    if verdict.Some? && commit != FailsBefore
    then row.status == Processed && row.level == Some(VerdictLevel(verdict.value))
    else row == before
  }

  /** Core is called for a queued row exactly if its run returns high or critical and its login names a user. */
  lemma {:induction false} CalledExactlyWhen(s: Store, queue: seq<nat>, js: seq<Judgement>, k: nat, i: nat)
    requires SweepOver(s, queue) && |js| == |queue| && i < |queue| && k <= |queue|
    ensures queue[i] in Calling(s, queue, js, k) <==>
            && i < k && js[i].verdict.Some? && js[i].commit == Succeeds
            && VerdictLevel(js[i].verdict.value) in {High, Critical} && s.attempts[queue[i]].login.user.Some?
  {
    if k > 0 {
      CalledExactlyWhen(s, queue, js, k - 1, i);
      assert queue[i] == queue[k - 1] <==> i == k - 1;
    }
  }

  /** A sweep settles each row of its queue, whatever the row's place in it. */
  lemma {:induction false} SweptRow(s: Store, queue: seq<nat>, js: seq<Judgement>, k: nat, i: nat)
    requires SweepOver(s, queue) && |js| == |queue| && i < k <= |queue|
    ensures Settled(s.attempts[queue[i]], js[i].verdict, js[i].commit, Rescored(s, queue, js, k).attempts[queue[i]])
  {
    SweepStep(s, queue, js, k - 1, queue[i]);
    if i < k - 1 {
      SweptRow(s, queue, js, k - 1, i);
    } else {
      UnsweptRow(s, queue, js, k - 1, queue[i]);
    }
  }

  /** And it touches no other row. */
  lemma {:induction false} UnsweptRow(s: Store, queue: seq<nat>, js: seq<Judgement>, k: nat, a: nat)
    requires Rows(s, queue) && |js| == |queue| && k <= |queue| && a < |s.attempts|
    requires forall i :: 0 <= i < k ==> queue[i] != a
    ensures Rescored(s, queue, js, k).attempts[a] == s.attempts[a]
  {
    if k > 0 {
      UnsweptRow(s, queue, js, k - 1, a);
      SweepStep(s, queue, js, k - 1, a);
    }
  }

  /** A snapshot taken in the same transaction never leads to an integrity error. */
  lemma PersistPossible(s: Store, a: nat, verdict: Verdict)
    requires a < |s.attempts|
    ensures Persist(s, a, Look(s, a), verdict).Some?
  {}

  lemma ProcessKeepsSound(s: Store, a: nat, active: Option<ActivePolicy>, ml: MlOutcome, commit: Commit)
    requires Sound(s) && a < |s.attempts|
    ensures Sound(Process(s, a, active, ml, commit).0)
  {
    match Judge(active, Logins(s.attempts), s.attempts[a].login, ml) {
      case None =>
      case Some(verdict) => PersistKeepsSound(s, a, verdict);
    }
  }

  /** A scoring run changes its own row only, and a run that raises before its commit changes nothing. */
  lemma ProcessTouchesOnly(s: Store, a: nat, active: Option<ActivePolicy>, ml: MlOutcome, commit: Commit)
    requires Sound(s) && a < |s.attempts|
    ensures var (after, result) := Process(s, a, active, ml, commit);
            && |after.attempts| == |s.attempts|
            && (forall b :: 0 <= b < |s.attempts| && b != a ==> after.attempts[b] == s.attempts[b])
            && after.attempts[a].event == s.attempts[a].event && after.attempts[a].login == s.attempts[a].login
            && (commit == FailsBefore ==> after == s)
            && (result.Returned? ==>
                  after.attempts[a].status == Processed && after.attempts[a].level == Some(result.response.level))
  {
    match Judge(active, Logins(s.attempts), s.attempts[a].login, ml) {
      case None =>
      case Some(verdict) => PersistKeepsSound(s, a, verdict);
    }
  }
}
