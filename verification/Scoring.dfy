/** From rules and the ML score to a risk level: blending, thresholds and decisions. */
module Scoring {
  import opened Basics
  import opened Json
  import opened Features
  import Rules
  import RuleScore
  import opened PolicyConfig

  datatype Level = Low | Medium | High | Critical

  datatype Decision = Allow | Challenge | Block

  /** The ML service answers with a score in [0, 1], is unavailable, or is in error. */
  datatype MlOutcome = MlScore(score: real) | MlUnavailable | MlError
  {
    predicate Valid() {
      MlScore? ==> 0.0 <= score <= 1.0
    }
  }

  /**
   A policy row: raw JSON, edited by administrators. `printed` is what Python makes of rule
   names that are not text when it turns them into text.
   */
  datatype Policy = Policy(config: Value, rules: Value, printed: map<Value, string>)

  datatype Assessment = Assessment(
    ruleScore: real, ml: MlOutcome, combined: real, level: Level, decision: Decision, hits: seq<Rules.Hit>)

  function Rank(level: Level): nat {
    match level
    case Low => 0
    case Medium => 1
    case High => 2
    case Critical => 3
  }

  function LevelOf(score: real, t: Thresholds): Level {
    if score < t.low then Low
    else if score < t.medium then Medium
    else if score < t.high then High
    else Critical
  }

  function DecisionOf(level: Level): Decision {
    match level
    case Low => Allow
    case Medium => Allow
    case High => Challenge
    case Critical => Block
  }

  predicate RaisesAlert(level: Level) {
    level == High || level == Critical
  }

  /** Weighted blend when ML answered; otherwise the rule score alone. */
  function Blend(w: Weights, ruleScore: real, ml: MlOutcome): real {
    if ml.MlScore? then w.rule * ruleScore + w.ml * ml.score else ruleScore
  }

  function Combined(w: Weights, ruleScore: real, ml: MlOutcome): real {
    Clamp(Blend(w, ruleScore, ml))
  }

  /** A hit's feature value cannot be looked up for the log. */
  ghost predicate LookupRaises(policy: Policy, hits: seq<Rules.Hit>) {
    policy.rules.List? && Rules.SomeLookupFails(policy.rules.items, policy.printed, hits)
  }

  /**
   The verdict for one vector, or None when resolving the config, evaluating the rules or
   looking up a hit's feature value raises.
   */
  ghost function Assess(policy: Policy, v: Vector, ml: MlOutcome): Option<Assessment> {
    if ConfigRaises(policy.config) then None else
    match Rules.Evaluate(policy.rules, v)
    case Raised => None
    case Scored(ruleScore, hits, _) =>
      if LookupRaises(policy, hits) then None
      else
        var resolved := Resolve(policy.config);
        var combined := Combined(resolved.weights, ruleScore, ml);
        var level := LevelOf(combined, resolved.thresholds);
        Some(Assessment(ruleScore, ml, combined, level, DecisionOf(level), hits))
  }

  method Combine(w: Weights, ruleScore: real, ml: MlOutcome) returns (combined: real)
    ensures combined == Combined(w, ruleScore, ml)
  {
    combined := ruleScore;
    if ml.MlScore? {
      combined := w.rule * ruleScore + w.ml * ml.score;
    }
    if combined < 0.0 {
      combined := 0.0;
    } else if combined > 1.0 {
      combined := 1.0;
    }
  }

  // ---------------------------------------------------------------------------
  // When scoring raises
  // ---------------------------------------------------------------------------

  /** A rule of the list makes evaluation, or the lookup after it, raise. */
  ghost predicate RuleRaises(policy: Policy, raws: seq<Value>, i: nat, v: Vector) {
    && i < |raws|
    && (|| RuleScore.UnhashableRule(raws[i]) || RuleScore.OversizedRule(raws[i])
        || (Rules.Sum(Rules.ActiveRules(raws), Rules.Weight) > 0.0
            && (RuleScore.RefusedHit(raws[i], v) || RuleScore.LostHit(raws, policy.printed, i, v))))
  }

  /**
   The engine is documented to skip and log whatever is malformed. Scoring raises, with or
   without persistence, exactly when the config holds an integer too large for a float; or
   a rule is unhashable or oversized; or, with a positive total weight, a rule that fires
   has a description that is not text or the first rule object of its name, skipped or not,
   has a list or dict for a field.
   */
  lemma AssessRaisesExactlyWhen(policy: Policy, v: Vector, ml: MlOutcome)
    ensures Assess(policy, v, ml) == None <==>
            || ConfigRaises(policy.config)
            || (policy.rules.List?
                && exists i :: 0 <= i < |policy.rules.items| && RuleRaises(policy, policy.rules.items, i, v))
  {
    if policy.rules.List? {
      RulesRaiseExactlyWhen(policy, v);
    }
  }

  lemma RulesRaiseExactlyWhen(policy: Policy, v: Vector)
    requires policy.rules.List?
    ensures var e := Rules.Evaluate(policy.rules, v);
            e.Raised? || LookupRaises(policy, e.hits) <==>
            exists i :: 0 <= i < |policy.rules.items| && RuleRaises(policy, policy.rules.items, i, v)
  {
    var raws := policy.rules.items;
    assert policy.rules == List(raws);
    RuleScore.RaisesExactlyWhen(raws, v);
    var weight := Rules.Sum(Rules.ActiveRules(raws), Rules.Weight);
    if weight > 0.0 {
      RuleScore.LookupFailsExactlyWhen(raws, policy.printed, v, weight);
    }
    SomeRuleRaises(policy, raws, v);
  }

  lemma SomeRuleRaises(policy: Policy, raws: seq<Value>, v: Vector)
    ensures (exists i :: 0 <= i < |raws| && RuleRaises(policy, raws, i, v)) <==>
            || (exists i :: 0 <= i < |raws| && (RuleScore.UnhashableRule(raws[i]) || RuleScore.OversizedRule(raws[i])))
            || (Rules.Sum(Rules.ActiveRules(raws), Rules.Weight) > 0.0
                && (|| (exists i :: 0 <= i < |raws| && RuleScore.RefusedHit(raws[i], v))
                    || (exists i :: 0 <= i < |raws| && RuleScore.LostHit(raws, policy.printed, i, v))))
  {
    if i: nat :| i < |raws| && (RuleScore.UnhashableRule(raws[i]) || RuleScore.OversizedRule(raws[i])) {
      assert RuleRaises(policy, raws, i, v);
    }
    if Rules.Sum(Rules.ActiveRules(raws), Rules.Weight) > 0.0 {
      if i: nat :| i < |raws| && RuleScore.RefusedHit(raws[i], v) {
        assert RuleRaises(policy, raws, i, v);
      }
      if i: nat :| i < |raws| && RuleScore.LostHit(raws, policy.printed, i, v) {
        assert RuleRaises(policy, raws, i, v);
      }
    }
  }

  const Shadow := Obj(map["name" := Str("r"), "field" := List([])])

  lemma SecondRuleOnly(skipped: Value, raw: Value)
    requires !Rules.Active(skipped) && Rules.Active(raw)
    ensures Rules.ActiveRules([skipped, raw]) == [Rules.Validate(raw).rule]
    ensures Rules.Sum(Rules.ActiveRules([skipped, raw]), Rules.Weight) == Rules.Validate(raw).rule.weight
  {
    assert [skipped, raw][..1] == [skipped] && [skipped][..0] == [];
    assert Rules.ActiveRules([skipped]) == [];
    assert [Rules.Validate(raw).rule][..0] == [];
  }

  lemma FirstNamesake(raws: seq<Value>, name: string)
    requires raws != [] && Rules.Named(raws[0], name)
    ensures Rules.Namesake(raws, name) == Some(0)
  {
    Rules.NamesakeIsFirst(raws, name);
  }

  /** Any inactive object in front that shares the name and has such a field does it. */
  lemma ShadowRaises(policy: Policy, skipped: Value, raw: Value, name: string, v: Vector)
    requires !Rules.Active(skipped) && !Rules.Validate(skipped).Raises?
    requires Rules.Named(skipped, name) && !Hashable(Lookup(skipped, "field"))
    requires Rules.Active(raw) && Rules.Named(raw, name) && Rules.Validate(raw).rule.weight > 0.0
    requires Rules.Fires(Rules.Validate(raw).rule, v) && !Rules.BadDescription(Rules.Validate(raw).rule)
    ensures Rules.Evaluate(List([skipped, raw]), v).Scored? && RuleRaises(policy, [skipped, raw], 1, v)
  {
    var raws := [skipped, raw];
    SecondRuleOnly(skipped, raw);
    FirstNamesake(raws, name);
    assert RuleScore.LostHit(raws, policy.printed, 1, v);
    assert !Rules.SomeRaises(raws);
  }

  lemma Shadowed(v: Vector, printed: map<Value, string>, rule: Value)
    requires v.failCount24h >= 0 && rule == RuleScore.SampleRule(Str("fail_count_24h"), Num(1.0), Null)
    ensures Rules.Validate(Shadow).Invalid? && Rules.Evaluate(List([Shadow, rule]), v).Scored?
    ensures RuleRaises(Policy(Null, List([Shadow, rule]), printed), [Shadow, rule], 1, v)
  {
    RuleScore.SampleValid(Null);
    assert !Rules.HasRequired(Shadow.fields);
    ShadowRaises(Policy(Null, List([Shadow, rule]), printed), Shadow, rule, "r", v);
  }

  lemma Unshadowed(v: Vector, printed: map<Value, string>, rule: Value)
    requires rule == RuleScore.SampleRule(Str("fail_count_24h"), Num(1.0), Null)
    ensures !RuleRaises(Policy(Null, List([rule]), printed), [rule], 0, v)
  {
    RuleScore.SampleValid(Null);
    Rules.NamesakeIsFirst([rule], "r");
    assert Rules.NameText(printed, Lookup(rule, "name")) == "r";
  }

  /** A rule that is skipped for its missing parts still breaks the lookup of a valid rule of the same name. */
  lemma SkippedNamesakeRaises(v: Vector, ml: MlOutcome, printed: map<Value, string>)
    requires v.failCount24h >= 0
    ensures var rule := RuleScore.SampleRule(Str("fail_count_24h"), Num(1.0), Null);
            && Rules.Validate(Shadow).Invalid? && Rules.Evaluate(List([Shadow, rule]), v).Scored?
            && Assess(Policy(Null, List([Shadow, rule]), printed), v, ml) == None
            && Assess(Policy(Null, List([rule]), printed), v, ml).Some?
  {
    var rule := RuleScore.SampleRule(Str("fail_count_24h"), Num(1.0), Null);
    Shadowed(v, printed, rule);
    Unshadowed(v, printed, rule);
    AssessRaisesExactlyWhen(Policy(Null, List([Shadow, rule]), printed), v, ml);
    AssessRaisesExactlyWhen(Policy(Null, List([rule]), printed), v, ml);
  }

  // ---------------------------------------------------------------------------
  // Thresholds
  // ---------------------------------------------------------------------------

  /** Under any raw config the four levels are consecutive half-open bands of [0, 1]. */
  lemma FourBands(raw: Value, score: real)
    ensures var t := Resolve(raw).thresholds;
            && (LevelOf(score, t) == Low <==> score < t.low)
            && (LevelOf(score, t) == Medium <==> t.low <= score < t.medium)
            && (LevelOf(score, t) == High <==> t.medium <= score < t.high)
            && (LevelOf(score, t) == Critical <==> t.high <= score)
            && (score >= 1.0 ==> LevelOf(score, t) == Critical)
            && (score < 0.0 ==> LevelOf(score, t) == Low)
  {
    ResolvedIsUsable(raw);
  }

  lemma LevelMonotone(t: Thresholds, a: real, b: real)
    requires a <= b && t.low <= t.medium <= t.high
    ensures Rank(LevelOf(a, t)) <= Rank(LevelOf(b, t))
  {}

  // ---------------------------------------------------------------------------
  // Blending
  // ---------------------------------------------------------------------------

  lemma ScaleUp(k: real, a: real, b: real)
    requires k >= 0.0 && a <= b
    ensures k * a <= k * b
  {
    assert k * (b - a) >= 0.0;
  }

  lemma BlendMonotone(w: Weights, r1: real, r2: real, m1: real, m2: real)
    requires w.rule >= 0.0 && w.ml >= 0.0 && r1 <= r2 && m1 <= m2
    ensures Blend(w, r1, MlScore(m1)) <= Blend(w, r2, MlScore(m2))
  {
    var a, b := w.rule, w.ml;
    ScaleUp(a, r1, r2);
    ScaleUp(b, m1, m2);
  }

  lemma BlendRange(w: Weights, ruleScore: real, mlScore: real)
    requires w.rule >= 0.0 && w.ml >= 0.0 && 0.0 <= ruleScore <= 1.0 && 0.0 <= mlScore <= 1.0
    ensures 0.0 <= Blend(w, ruleScore, MlScore(mlScore)) <= w.rule + w.ml
  {
    BlendMonotone(w, 0.0, ruleScore, 0.0, mlScore);
    BlendMonotone(w, ruleScore, 1.0, mlScore, 1.0);
  }

  /** The clamp corrects only the tolerance on the weights: at most 1e-6, and never from below. */
  lemma ClampIsTiny(raw: Value, ruleScore: real, ml: MlOutcome)
    requires 0.0 <= ruleScore <= 1.0 && ml.Valid()
    ensures var w := Resolve(raw).weights;
            && Combined(w, ruleScore, ml) <= Blend(w, ruleScore, ml) <= Combined(w, ruleScore, ml) + TOLERANCE
            && 0.0 <= Combined(w, ruleScore, ml) <= 1.0
  {
    ResolvedIsUsable(raw);
    var w := Resolve(raw).weights;
    if ml.MlScore? {
      BlendRange(w, ruleScore, ml.score);
    }
  }

  /** Both outcomes are scores in order, or neither is a score. */
  predicate MlAtMost(low: MlOutcome, high: MlOutcome) {
    if low.MlScore? && high.MlScore? then low.score <= high.score else !low.MlScore? && !high.MlScore?
  }

  lemma CombinedMonotone(raw: Value, r1: real, r2: real, low: MlOutcome, high: MlOutcome)
    requires r1 <= r2 && MlAtMost(low, high)
    ensures Combined(Resolve(raw).weights, r1, low) <= Combined(Resolve(raw).weights, r2, high)
  {
    ResolvedIsUsable(raw);
    var w := Resolve(raw).weights;
    if low.MlScore? {
      BlendMonotone(w, r1, r2, low.score, high.score);
    }
  }

  /**
   End to end: under one policy, whatever its raw config, letting more rules fire and
   raising the ML score never lowers the combined score or the risk level.
   */
  lemma RiskMonotone(policy: Policy, v1: Vector, v2: Vector, low: MlOutcome, high: MlOutcome)
    requires RuleScore.FiresAtLeast(policy.rules, v1, v2) && MlAtMost(low, high)
    requires Assess(policy, v1, low).Some? && Assess(policy, v2, high).Some?
    ensures var a, b := Assess(policy, v1, low).value, Assess(policy, v2, high).value;
            a.ruleScore <= b.ruleScore && a.combined <= b.combined && Rank(a.level) <= Rank(b.level)
  {
    RuleScore.MoreHitsNeverLower(policy.rules, v1, v2);
    var a, b := Assess(policy, v1, low).value, Assess(policy, v2, high).value;
    CombinedMonotone(policy.config, a.ruleScore, b.ruleScore, low, high);
    ResolvedIsUsable(policy.config);
    LevelMonotone(Resolve(policy.config).thresholds, a.combined, b.combined);
  }

  /**
   Losing the ML answer moves the combined score in either direction: it falls exactly
   when the weighted ML score exceeds what the rule weight leaves of a rule score below 1,
   and rises exactly when it falls short of that. The weights are any that resolution can
   return, and more.
   */
  lemma LosingMl(w: Weights, ruleScore: real, mlScore: real, lost: MlOutcome)
    requires 0.0 <= ruleScore <= 1.0 && 0.0 <= mlScore && 0.0 <= w.rule && 0.0 <= w.ml && !lost.MlScore?
    ensures var with, without := Combined(w, ruleScore, MlScore(mlScore)), Combined(w, ruleScore, lost);
            && (without < with <==> ruleScore < 1.0 && w.ml * mlScore > (1.0 - w.rule) * ruleScore)
            && (without > with <==> w.ml * mlScore < (1.0 - w.rule) * ruleScore)
  {
    Displaced(w, ruleScore, mlScore);
    ScaleUp(w.rule, 0.0, ruleScore);
    ScaleUp(w.ml, 0.0, mlScore);
  }

  /**
   With weights that add up to exactly one: it falls exactly when ML scored above the
   rules, rises exactly when below.
   */
  lemma LosingMlExactWeights(w: Weights, ruleScore: real, mlScore: real, lost: MlOutcome)
    requires 0.0 <= ruleScore <= 1.0 && 0.0 <= mlScore <= 1.0 && !lost.MlScore?
    requires 0.0 <= w.rule && 0.0 < w.ml && w.rule + w.ml == 1.0
    ensures var with, without := Combined(w, ruleScore, MlScore(mlScore)), Combined(w, ruleScore, lost);
            (without < with <==> mlScore > ruleScore) && (without > with <==> mlScore < ruleScore)
  {
    LosingMl(w, ruleScore, mlScore, lost);
    Recentre(w.ml, 1.0 - w.rule, ruleScore, mlScore);
  }

  /**
   The tolerance on the weights matters: here ML agrees with the rules and losing it
   lowers the score all the same.
   */
  lemma LosingAgreeingMlLowers(lost: MlOutcome)
    requires !lost.MlScore?
    ensures var raw := Obj(map["weights" := Obj(map["rule" := Num(0.4), "ml" := Num(0.6000005)])]);
            var w := Resolve(raw).weights;
            Resolve(raw).problems == [] && Combined(w, 0.5, lost) < Combined(w, 0.5, MlScore(0.5))
  {
    var raw := Obj(map["weights" := Obj(map["rule" := Num(0.4), "ml" := Num(0.6000005)])]);
    assert ValidWeights(Lookup(raw, "weights"));
    NoProblemsExactlyWhen(raw);
  }

  lemma Displaced(w: Weights, ruleScore: real, mlScore: real)
    ensures Blend(w, ruleScore, MlScore(mlScore)) - ruleScore == w.ml * mlScore - (1.0 - w.rule) * ruleScore
  {
    var a := w.rule;
    assert (1.0 - a) * ruleScore == ruleScore - a * ruleScore;
  }

  lemma Recentre(k: real, a: real, x: real, y: real)
    requires a == k && k > 0.0
    ensures k * y - a * x > 0.0 <==> y > x
    ensures k * y - a * x < 0.0 <==> y < x
  {
    assert k * y - a * x == k * (y - x);
    Sign(k, y - x);
  }

  lemma Sign(k: real, d: real)
    requires k > 0.0
    ensures k * d > 0.0 <==> d > 0.0
    ensures k * d < 0.0 <==> d < 0.0
  {}

  lemma AssessParts(policy: Policy, v: Vector, ml: MlOutcome)
    requires Assess(policy, v, ml).Some?
    ensures var a, e, r := Assess(policy, v, ml).value, Rules.Evaluate(policy.rules, v), Resolve(policy.config);
            && e.Scored? && a.ruleScore == e.score && a.hits == e.hits && a.ml == ml
            && a.combined == Combined(r.weights, e.score, ml)
            && a.level == LevelOf(a.combined, r.thresholds) && a.decision == DecisionOf(a.level)
  {}

  /**
   From the scores to the verdict: a login is blocked from the high threshold on, challenged
   from the medium one on and allowed below, and an alert is raised exactly when it is not
   allowed.
   */
  lemma DecidedByScore(policy: Policy, v: Vector, ml: MlOutcome)
    requires Assess(policy, v, ml).Some?
    ensures var a, t := Assess(policy, v, ml).value, Resolve(policy.config).thresholds;
            && (a.decision == Block <==> t.high <= a.combined)
            && (a.decision == Challenge <==> t.medium <= a.combined < t.high)
            && (a.decision == Allow <==> a.combined < t.medium)
            && (RaisesAlert(a.level) <==> t.medium <= a.combined)
            && (a.level == Low <==> a.combined < t.low)
  {
    AssessParts(policy, v, ml);
    FourBands(policy.config, Assess(policy, v, ml).value.combined);
    ThresholdsOrdered(policy.config);
  }

  lemma ThresholdsOrdered(raw: Value)
    ensures var t := Resolve(raw).thresholds; t.low <= t.medium <= t.high
  {
    ResolvedIsUsable(raw);
  }

  /**
   The combined score: the weighted sum of the evaluated rule score and the ML score, cut
   off at one, or without an ML score the rule score as it is.
   */
  lemma CombinedByScores(policy: Policy, v: Vector, ml: MlOutcome)
    requires ml.Valid() && Assess(policy, v, ml).Some?
    ensures var a, e, w := Assess(policy, v, ml).value, Rules.Evaluate(policy.rules, v), Resolve(policy.config).weights;
            && e.Scored? && a.ruleScore == e.score && a.hits == e.hits && a.ml == ml
            && a.combined == SumOfScores(w, e.score, ml)
  {
    AssessParts(policy, v, ml);
    var e, w := Rules.Evaluate(policy.rules, v), Resolve(policy.config).weights;
    RuleScore.ScoreIsWeightedMean(policy.rules, v, 1.0);
    assert 0.0 <= w.rule && 0.0 <= w.ml by {
      ResolvedIsUsable(policy.config);
    }
    CombinedIsSum(w, e.score, ml);
  }

  function SumOfScores(w: Weights, ruleScore: real, ml: MlOutcome): real {
    match ml
    case MlScore(score) =>
      var sum := w.rule * ruleScore + w.ml * score;
      if sum <= 1.0 then sum else 1.0
    case _ => ruleScore
  }

  lemma CombinedIsSum(w: Weights, ruleScore: real, ml: MlOutcome)
    requires 0.0 <= ruleScore <= 1.0 && ml.Valid() && 0.0 <= w.rule && 0.0 <= w.ml
    ensures Combined(w, ruleScore, ml) == SumOfScores(w, ruleScore, ml)
  {
    if ml.MlScore? {
      NonNegativeProduct(w.rule, ruleScore);
      NonNegativeProduct(w.ml, ml.score);
    }
  }

  lemma NonNegativeProduct(a: real, b: real)
    requires a >= 0.0 && b >= 0.0
    ensures a * b >= 0.0
  {}

  /** Scoring is fit for the database's checks: scores in [0, 1] and a decision that follows from the level. */
  lemma AssessmentInRange(policy: Policy, v: Vector, ml: MlOutcome)
    requires ml.Valid() && Assess(policy, v, ml).Some?
    ensures var a := Assess(policy, v, ml).value;
            && 0.0 <= a.ruleScore <= 1.0 && 0.0 <= a.combined <= 1.0
            && (RaisesAlert(a.level) <==> a.decision != Allow)
  {
    RuleScore.ScoreIsWeightedMean(policy.rules, v, 1.0);
  }
}
