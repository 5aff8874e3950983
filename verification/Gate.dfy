/** The pre-token gate: Core asks Detection for a verdict before it issues a token. */
module Gate {
  import opened Basics
  import opened Json
  import opened Features
  import opened Scoring
  import opened Detection
  import PolicyConfig
  import Rules
  import RuleScore

  /** What Core's request can come to. HttpError is a status of 400 or more, Body any JSON answer below it. */
  datatype Answer = Unreachable | HttpError(code: nat) | NotJson | Body(json: Value)

  /** What becomes of the login; when it breaks it ends as a server error that leaves no trace. */
  datatype Effect = Proceeds | Holds(level: Level) | Breaks

  function LevelName(level: Level): string {
    match level
    case Low => "low"
    case Medium => "medium"
    case High => "high"
    case Critical => "critical"
  }

  function DecisionName(decision: Decision): string {
    match decision
    case Allow => "allow"
    case Challenge => "challenge"
    case Block => "block"
  }

  function ReplyBody(level: string, decision: string, requireMfa: bool, degraded: bool, reason: string): Answer {
    Body(Obj(map["risk_level" := Str(level), "decision" := Str(decision), "require_mfa" := Bool(requireMfa),
                 "degraded" := Bool(degraded), "reason" := Str(reason)]))
  }

  /** Detection's side: a dry run, and a degraded answer if it raises. */
  function Reply(result: Result): Answer {
    match result
    case Raised => ReplyBody("unknown", "allow", false, true, "scoring_error")
    case Returned(r) =>
      ReplyBody(LevelName(r.level), DecisionName(r.decision), ActionFor(r.level).Some?, false, DecisionName(r.decision))
  }

  /** Core's side. Anything that is not an object has no `get`, and a list or dict is no member of a set. */
  function Judged(enabled: bool, answer: Answer): Effect {
    if !enabled || !answer.Body? then Proceeds
    else if !answer.json.Obj? then Breaks
    else if Truthy(Lookup(answer.json, "degraded")) || !Truthy(Lookup(answer.json, "require_mfa")) then Proceeds
    else
      var level := Lookup(answer.json, "risk_level");
      if !Hashable(level) then Breaks
      else if level == Str("high") then Holds(High)
      else if level == Str("critical") then Holds(Critical)
      else Proceeds
  }

  lemma ReplyFields(result: Result)
    ensures var json := Reply(result).json;
            && json.Obj?
            && (Truthy(Lookup(json, "degraded")) <==> result.Raised?)
            && (Truthy(Lookup(json, "require_mfa")) <==> result.Returned? && result.response.level in {High, Critical})
            && Lookup(json, "risk_level") == Str(if result.Raised? then "unknown" else LevelName(result.response.level))
            && Lookup(json, "decision") == Str(if result.Returned? && result.response.decision == Block then "block"
                                               else if result.Returned? && result.response.decision == Challenge
                                                    then "challenge"
                                                    else "allow")
            && Lookup(json, "reason") == if result.Raised? then Str("scoring_error") else Lookup(json, "decision")
  {}

  /**
   When Detection answers, the token is held exactly for a dry run that returned high or
   critical, at that level, and nothing Detection answers breaks the login. When the answer
   is a failure of the transport, an error status or no JSON, the login proceeds.
   */
  lemma HeldExactlyWhen(enabled: bool, result: Result, arrives: bool, failure: Answer)
    requires !failure.Body?
    ensures var outcome := Judged(enabled, if arrives then Reply(result) else failure);
            && !outcome.Breaks?
            && (outcome.Holds? <==> enabled && arrives && result.Returned? && result.response.level in {High, Critical})
            && (outcome.Holds? ==> outcome.level == result.response.level)
  {
    ReplyFields(result);
  }

  /**
   The gate is documented to fail open on any error. Exactly two kinds of answer break the
   login instead: JSON that is not an object, and an object that is not degraded, demands
   MFA and has a list or an object for its level.
   */
  lemma BreaksExactlyWhen(enabled: bool, answer: Answer)
    ensures Judged(enabled, answer) == Breaks <==>
            && enabled && answer.Body?
            && (answer.json.Obj? ==>
                  && !Truthy(Lookup(answer.json, "degraded")) && Truthy(Lookup(answer.json, "require_mfa"))
                  && (Lookup(answer.json, "risk_level").List? || Lookup(answer.json, "risk_level").Obj?))
  {}

  // ---------------------------------------------------------------------------
  // What the gate sees of a login
  // ---------------------------------------------------------------------------

  /**
   The transient attempt the gate scores: Core sends it user, address, agent and its own
   instant, but not the device fingerprint that the delivered event carries, and it
   counts as a success.
   */
  function View(login: Login, now: Time): Login {
    login.(fingerprint := None, outcome := Success, at := now)
  }

  /** The gate holds the token of this login, asked about at `now`. */
  ghost predicate Gated(s: Store, login: Login, now: Time, active: Option<ActivePolicy>, ml: MlOutcome) {
    Judged(true, Reply(DryRun(s, None, View(login, now), active, ml))).Holds?
  }

  /** The login's event, delivered to the same tables, is scored with an alert. */
  ghost predicate Alerted(s: Store, event: nat, login: Login, active: Option<ActivePolicy>, ml: MlOutcome) {
    var (after, result) := Process(InsertRow(s, event, login), |s.attempts|, active, ml, Succeeds);
    result.Returned? && RaisesAlert(result.response.level) && Risky(after.attempts[|s.attempts|])
    && after.attempts[|s.attempts|].primaryAlert.Some?
  }

  /** The vector the gate scores, and the one the delivered event is scored with. */
  function GateVector(s: Store, login: Login, now: Time): Vector {
    Build(Logins(s.attempts), View(login, now))
  }

  function EventVector(s: Store, login: Login): Vector {
    Build(Logins(s.attempts), login)
  }

  /** The event's own row is no part of its history. */
  lemma OwnRowIgnored(s: Store, event: nat, login: Login)
    ensures Build(Logins(InsertRow(s, event, login).attempts), login) == EventVector(s, login)
  {
    var rows := Logins(s.attempts);
    assert InsertRow(s, event, login).attempts[..|s.attempts|] == s.attempts;
    assert Logins(InsertRow(s, event, login).attempts) == rows + [login] + [];
    IrrelevantRowIgnored(rows, login, [], login);
    assert rows + [] == rows;
  }

  ghost predicate AssessedRisky(active: Option<ActivePolicy>, v: Vector, ml: MlOutcome) {
    active.Some? && Assess(active.value.policy, v, ml).Some?
    && RaisesAlert(Assess(active.value.policy, v, ml).value.level)
  }

  lemma GatedMeaning(s: Store, login: Login, now: Time, active: Option<ActivePolicy>, ml: MlOutcome)
    ensures Gated(s, login, now, active, ml) <==> AssessedRisky(active, GateVector(s, login, now), ml)
  {
    HeldExactlyWhen(true, DryRun(s, None, View(login, now), active, ml), true, NotJson);
  }

  lemma AlertedMeaning(s: Store, event: nat, login: Login, active: Option<ActivePolicy>, ml: MlOutcome)
    requires Sound(s) && !Known(s, event)
    ensures Alerted(s, event, login, active, ml) <==> AssessedRisky(active, EventVector(s, login), ml)
  {
    var next, a := InsertRow(s, event, login), |s.attempts|;
    InsertKeepsSound(s, event, login);
    OwnRowIgnored(s, event, login);
    match Judge(active, Logins(next.attempts), login, ml) {
      case None =>
      case Some(verdict) =>
        PersistKeepsSound(next, a, verdict);
        assert AlertLinked(Process(next, a, active, ml, Succeeds).0, a);
    }
  }

  // ---------------------------------------------------------------------------
  // When gate and scoring agree
  // ---------------------------------------------------------------------------

  function FieldName(field: Rules.Field): string {
    match field
    case HourOfDay => "hour_of_day"
    case FailCount24h => "fail_count_24h"
    case IpChangeRate7d => "ip_change_rate_7d"
    case NewDevice => "new_device"
    case AverageInterval => "average_login_interval_seconds"
    case Deviation => "deviation_score"
  }

  /** A policy of one rule that fires exactly on one value of one feature. */
  function Detector(field: Rules.Field, value: Value): Policy {
    Policy(Null, List([Obj(map["name" := Str("r"), "field" := Str(FieldName(field)), "operator" := Str("=="),
                               "value" := value, "weight" := Num(1.0), "score" := Num(1.0)])]), map[])
  }

  function DetectorRule(field: Rules.Field, value: Value): Rules.Rule {
    Rules.Rule(Str("r"), field, Rules.Eq, value, 1.0, 1.0, true, Null)
  }

  lemma NamesParse(field: Rules.Field)
    ensures Rules.ParseField(FieldName(field)) == Some(field) && Rules.ParseOperator("==") == Some(Rules.Eq)
  {}

  lemma DetectorValid(field: Rules.Field, value: Value)
    ensures Rules.Validate(Detector(field, value).rules.items[0]) == Rules.Usable(DetectorRule(field, value))
  {
    NamesParse(field);
  }

  /** One rule of full weight and score that has no description scores one when it fires and zero otherwise. */
  lemma OneRuleScore(raw: Value, rule: Rules.Rule, v: Vector)
    requires Rules.Validate(raw) == Rules.Usable(rule) && rule.enabled && rule.description == Null
    requires rule.weight == 1.0 && rule.score == 1.0
    ensures var e := Rules.Evaluate(List([raw]), v);
            e.Scored? && e.score == if Rules.Fires(rule, v) then 1.0 else 0.0
  {
    RuleScore.OneActive(raw, rule);
    OneRulePoints(rule, v);
    RuleScore.EvaluateFine(raw, rule, v);
  }

  lemma OneRulePoints(rule: Rules.Rule, v: Vector)
    requires rule.weight == 1.0 && rule.score == 1.0
    ensures Rules.Sum([rule], Rules.Contribution(v)) == if Rules.Fires(rule, v) then 1.0 else 0.0
  {
    RuleScore.SumOfOne(rule, Rules.Contribution(v));
    assert rule.score * rule.weight == 1.0;
  }

  lemma LookupsSucceed(raw: Value, name: string)
    requires Lookup(raw, "field").Str?
    ensures !Rules.LookupFails([raw], name)
  {
    var j := Rules.Namesake([raw], name);
    if j.Some? && j.value < 1 {
      assert [raw][j.value] == raw;
    }
  }

  lemma NoLookupRaises(policy: Policy, raw: Value, hits: seq<Rules.Hit>)
    requires policy.rules == List([raw]) && Lookup(raw, "field").Str?
    ensures !LookupRaises(policy, hits)
  {
    forall k | 0 <= k < |hits| ensures !Rules.LookupFails([raw], Rules.NameText(policy.printed, hits[k].name)) {
      LookupsSucceed(raw, Rules.NameText(policy.printed, hits[k].name));
    }
  }

  /** Without a config and an ML score the rule score alone decides the level. */
  lemma AssessedByRules(policy: Policy, v: Vector)
    requires policy.config == Null && Rules.Evaluate(policy.rules, v).Scored?
    requires !LookupRaises(policy, Rules.Evaluate(policy.rules, v).hits)
    ensures var a, score := Assess(policy, v, MlUnavailable), Rules.Evaluate(policy.rules, v).score;
            a.Some? && a.value.level == LevelOf(Clamp(score), PolicyConfig.Resolve(Null).thresholds)
  {
    PolicyConfig.ConfigRaisesExactlyWhen(Null);
  }

  lemma DetectorAssessed(field: Rules.Field, value: Value, v: Vector)
    ensures var a, score := Assess(Detector(field, value), v, MlUnavailable),
            if Rules.Fires(DetectorRule(field, value), v) then 1.0 else 0.0;
            a.Some? && a.value.level == LevelOf(score, PolicyConfig.Resolve(Null).thresholds)
  {
    var policy, raw := Detector(field, value), Detector(field, value).rules.items[0];
    DetectorValid(field, value);
    OneRuleScore(raw, DetectorRule(field, value), v);
    assert policy.rules == List([raw]);
    NoLookupRaises(policy, raw, Rules.Evaluate(policy.rules, v).hits);
    AssessedByRules(policy, v);
  }

  lemma DetectorFires(field: Rules.Field, value: Value, v: Vector)
    ensures AssessedRisky(Some(ActivePolicy(0, Detector(field, value))), v, MlUnavailable) <==>
            Rules.Compare(Rules.FeatureValue(v, field), Rules.Eq, value)
  {
    DetectorAssessed(field, value, v);
    DefaultLevels();
  }

  lemma DefaultLevels()
    ensures LevelOf(0.0, PolicyConfig.Resolve(Null).thresholds) == Low
    ensures LevelOf(1.0, PolicyConfig.Resolve(Null).thresholds) == Critical
  {
    FourBands(Null, 0.0);
    FourBands(Null, 1.0);
  }

  lemma SomeFieldDiffers(v: Vector, w: Vector) returns (field: Rules.Field)
    requires v != w
    ensures !Rules.Compare(Rules.FeatureValue(w, field), Rules.Eq, Rules.FeatureValue(v, field))
    ensures v.newDevice != w.newDevice && w == v.(newDevice := w.newDevice) ==> field == Rules.Field.NewDevice
  {
    field := if v.newDevice != w.newDevice then Rules.Field.NewDevice
             else if v.hourOfDay != w.hourOfDay then Rules.Field.HourOfDay
             else if v.failCount24h != w.failCount24h then Rules.Field.FailCount24h
             else if v.ipChangeRate7d != w.ipChangeRate7d then Rules.Field.IpChangeRate7d
             else if v.averageInterval != w.averageInterval then Rules.Field.AverageInterval
             else Rules.Field.Deviation;
  }

  /**
   Under every policy and ML outcome the gate holds the token exactly when the delivered
   event is scored with an alert - if and only if the gate's vector is the event's vector.
   */
  lemma GateAgreesExactlyWhen(s: Store, event: nat, login: Login, now: Time)
    requires Sound(s) && !Known(s, event)
    ensures (forall active, ml :: Gated(s, login, now, active, ml) <==> Alerted(s, event, login, active, ml)) <==>
            GateVector(s, login, now) == EventVector(s, login)
  {
    forall active, ml
      ensures Gated(s, login, now, active, ml) <==> AssessedRisky(active, GateVector(s, login, now), ml)
      ensures Alerted(s, event, login, active, ml) <==> AssessedRisky(active, EventVector(s, login), ml)
    {
      GatedMeaning(s, login, now, active, ml);
      AlertedMeaning(s, event, login, active, ml);
    }
    if GateVector(s, login, now) != EventVector(s, login) {
      var field := SomeFieldDiffers(GateVector(s, login, now), EventVector(s, login));
      var value := Rules.FeatureValue(GateVector(s, login, now), field);
      var active := Some(ActivePolicy(0, Detector(field, value)));
      DetectorFires(field, value, GateVector(s, login, now));
      DetectorFires(field, value, EventVector(s, login));
      assert Gated(s, login, now, active, MlUnavailable) != Alerted(s, event, login, active, MlUnavailable);
    }
  }

  lemma {:induction false} SameHistory(rows: seq<Login>, a: Login, b: Login)
    requires a.user == b.user && a.at == b.at
    ensures History(rows, a) == History(rows, b)
  {
    if rows != [] {
      SameHistory(rows[..|rows| - 1], a, b);
    }
  }

  /** Asked at the event's own instant, the gate can differ in the device feature alone. */
  lemma OnlyDeviceDiffers(s: Store, login: Login)
    ensures var v := GateVector(s, login, login.at); v == EventVector(s, login).(newDevice := v.newDevice)
  {
    var rows, view := Logins(s.attempts), View(login, login.at);
    SameHistory(rows, view, login);
    var history := History(rows, login);
    assert IpChangeRate(history, view) == IpChangeRate(history, login);
    assert Build(rows, view).deviation == Build(rows, login).deviation;
  }

  /** The row is among the user's last 30 days before the attempt. */
  predicate InWindow(row: Login, attempt: Login) {
    Relevant(row, attempt) && row.at >= attempt.at - DEVICE_WINDOW
  }

  ghost predicate FingerprintKnown(s: Store, login: Login) {
    exists row :: row in Logins(s.attempts) && InWindow(row, login) && row.fingerprint == login.fingerprint
  }

  /** A request without an agent leaves the gate nothing to judge by. */
  ghost predicate AgentKnown(s: Store, login: Login) {
    login.agent == None || exists row :: row in Logins(s.attempts) && InWindow(row, login) && row.agent == login.agent
  }

  /** The event's device is judged by its fingerprint, the gate's by its agent at the gate's instant. */
  lemma DeviceFeatures(s: Store, login: Login, now: Time)
    requires login.user.Some? && login.fingerprint.Some?
    ensures EventVector(s, login).newDevice <==> !FingerprintKnown(s, login)
    ensures GateVector(s, login, now).newDevice <==> !AgentKnown(s, login.(at := now))
  {
    NewDeviceMeaning(Logins(s.attempts), login);
    NewDeviceMeaning(Logins(s.attempts), View(login, now));
    assert forall row :: InWindow(row, View(login, now)) <==> InWindow(row, login.(at := now));
  }

  /** The five features that do not look at the device. */
  predicate SameBehaviour(v: Vector, w: Vector) {
    v == w.(newDevice := v.newDevice)
  }

  /**
   For an event with a fingerprint, as every event Core delivers, and a gate asked at any
   instant: they agree under every policy if and only if the other five features are the
   same at both instants, and the user has used the fingerprint in the 30 days before the
   event exactly when the agent is missing or was used in the 30 days before the gate.
   */
  lemma AgreesWhenDeviceAndAgentDo(s: Store, event: nat, login: Login, now: Time)
    requires Sound(s) && !Known(s, event)
    requires login.user.Some? && login.fingerprint.Some?
    ensures (forall active, ml :: Gated(s, login, now, active, ml) <==> Alerted(s, event, login, active, ml)) <==>
            && SameBehaviour(GateVector(s, login, now), EventVector(s, login))
            && (FingerprintKnown(s, login) <==> AgentKnown(s, login.(at := now)))
    ensures now == login.at ==> SameBehaviour(GateVector(s, login, now), EventVector(s, login))
  {
    GateAgreesExactlyWhen(s, event, login, now);
    OnlyDeviceDiffers(s, login);
    DeviceFeatures(s, login, now);
  }

  // ---------------------------------------------------------------------------
  // Which way they differ on the device
  // ---------------------------------------------------------------------------

  /** The policy that blocks new devices. */
  const NoNewDevices := Some(ActivePolicy(0, Detector(Rules.Field.NewDevice, Bool(true))))

  lemma BlocksNewDevices(v: Vector)
    ensures AssessedRisky(NoNewDevices, v, MlUnavailable) <==> v.newDevice
  {
    DetectorFires(Rules.Field.NewDevice, Bool(true), v);
  }

  /**
   A known agent with other language or encoding headers gives a new fingerprint. Under a
   policy that blocks new devices the gate lets the token go, whenever it is asked, and the
   event is scored with an alert.
   */
  lemma GateMissesNewDevice(s: Store, event: nat, login: Login, now: Time)
    requires Sound(s) && !Known(s, event)
    requires login.user.Some? && login.fingerprint.Some?
    requires AgentKnown(s, login.(at := now)) && !FingerprintKnown(s, login)
    ensures !Gated(s, login, now, NoNewDevices, MlUnavailable)
    ensures Alerted(s, event, login, NoNewDevices, MlUnavailable)
  {
    DeviceFeatures(s, login, now);
    GatedMeaning(s, login, now, NoNewDevices, MlUnavailable);
    AlertedMeaning(s, event, login, NoNewDevices, MlUnavailable);
    BlocksNewDevices(GateVector(s, login, now));
    BlocksNewDevices(EventVector(s, login));
  }

  /** The user's rows with this fingerprint have this agent, which is part of what the fingerprint is made of. */
  ghost predicate FingerprintTellsAgent(s: Store, login: Login) {
    forall row :: row in Logins(s.attempts) && row.user == login.user && row.fingerprint == login.fingerprint ==>
                    row.agent == login.agent
  }

  /** No row of the user carries an instant from `from` up to, but not including, `to`. */
  ghost predicate Quiet(s: Store, user: Option<nat>, from: Time, to: Time) {
    forall row :: row in Logins(s.attempts) && row.user == user ==> !(from <= row.at < to)
  }

  /**
   The other way they cannot differ: as fingerprints tell agents, a gate asked no later than
   the event, with nothing of the user's in between, never sees a new device where the
   event does not. On the device it errs on the lenient side only.
   */
  lemma GateNeverStricter(s: Store, login: Login, now: Time)
    requires login.user.Some? && login.fingerprint.Some? && FingerprintTellsAgent(s, login)
    requires now <= login.at && Quiet(s, login.user, now, login.at)
    ensures GateVector(s, login, now).newDevice ==> EventVector(s, login).newDevice
  {
    DeviceFeatures(s, login, now);
    if FingerprintKnown(s, login) {
      var row :| row in Logins(s.attempts) && InWindow(row, login) && row.fingerprint == login.fingerprint;
      assert InWindow(row, login.(at := now)) && row.agent == login.agent;
    }
  }

  const FirstLogin := Login(Some(1), 0, Success, None, Some(7), Some(5))
  const OtherLanguage := FirstLogin.(at := HOUR, fingerprint := Some(6))

  /** Such a login exists: one earlier login with the same agent and another fingerprint is enough. */
  lemma SampleMissed(first: nat, event: nat)
    requires event != first
    ensures var s := InsertRow(Store([], map[], [], [], []), first, FirstLogin);
            && !Gated(s, OtherLanguage, HOUR, NoNewDevices, MlUnavailable)
            && Alerted(s, event, OtherLanguage, NoNewDevices, MlUnavailable)
  {
    var empty := Store([], map[], [], [], []);
    var s := InsertRow(empty, first, FirstLogin);
    InsertKeepsSound(empty, first, FirstLogin);
    assert s.attempts[..0] == [] && Logins(s.attempts) == [FirstLogin];
    assert FirstLogin in Logins(s.attempts) && InWindow(FirstLogin, OtherLanguage);
    GateMissesNewDevice(s, event, OtherLanguage, HOUR);
  }

  // ---------------------------------------------------------------------------
  // What a fingerprint is made of
  // ---------------------------------------------------------------------------

  /** The request headers of a browser; a missing one counts as empty. */
  datatype Headers = Headers(agent: string, language: string, encoding: string)

  /** The text that is hashed. */
  function Material(h: Headers): string {
    h.agent + "|" + h.language + "|" + h.encoding
  }

  /** The last separator is where it looks to be when none follows. */
  lemma LastPart(a: string, b: string, c: string, d: string)
    requires a + "|" + b == c + "|" + d && '|' !in b && '|' !in d
    ensures a == c && b == d
  {
    var text := a + "|" + b;
    assert text[|a|] == '|' && text[|c|] == '|';
    assert forall k :: |a| < k < |text| ==> text[k] == b[k - |a| - 1];
    assert forall k :: |c| < k < |text| ==> text[k] == d[k - |c| - 1];
    assert |a| == |c|;
    assert a == text[..|a|] && c == (c + "|" + d)[..|c|];
    assert b == text[|a| + 1..] && d == (c + "|" + d)[|c| + 1..];
  }

  /** Without a separator in the language and encoding headers the text determines all three headers. */
  lemma MaterialDetermines(a: Headers, b: Headers)
    requires '|' !in a.language && '|' !in b.language && '|' !in a.encoding && '|' !in b.encoding
    ensures Material(a) == Material(b) <==> a == b
  {
    if Material(a) == Material(b) {
      LastPart(a.agent + "|" + a.language, a.encoding, b.agent + "|" + b.language, b.encoding);
      LastPart(a.agent, a.language, b.agent, b.language);
    }
  }

  /** With one it does not: the separator is not escaped. */
  lemma MaterialCollides(agent: string, part: string, encoding: string)
    ensures var a, b := Headers(agent + "|" + part, "", encoding), Headers(agent, part + "|", encoding);
            a != b && Material(a) == Material(b)
  {
    assert |agent + "|" + part| > |agent|;
    assert agent + "|" + part + "|" + "" + "|" + encoding == agent + "|" + (part + "|") + "|" + encoding;
  }
}
