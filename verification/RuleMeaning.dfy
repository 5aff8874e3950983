/**
 What rule evaluation means for the raw JSON of a policy: which rule objects take part,
 when one fires, and the score, the hits and the reports, without parsed rules.
 */
module RuleMeaning {
  import opened Basics
  import opened Json
  import opened Features
  import opened Rules
  import RuleScore

  // ---------------------------------------------------------------------------
  // Reading a rule object
  // ---------------------------------------------------------------------------

  const FEATURES: set<string> :=
    {"hour_of_day", "fail_count_24h", "ip_change_rate_7d", "new_device",
     "average_login_interval_seconds", "deviation_score"}

  const COMPARISONS: set<string> := {"==", "!=", ">", ">=", "<", "<="}

  const RANGES: set<string> := {"between", "not_between"}

  /** The feature a rule names, as a number; a new device counts as one. */
  function Feature(v: Vector, name: string): real {
    if name == "hour_of_day" then v.hourOfDay as real
    else if name == "fail_count_24h" then v.failCount24h as real
    else if name == "ip_change_rate_7d" then v.ipChangeRate7d
    else if name == "new_device" then (if v.newDevice then 1.0 else 0.0)
    else if name == "average_login_interval_seconds" then v.averageInterval as real
    else v.deviation
  }

  /** The number an object holds under this name. */
  function NumberAt(raw: Value, name: string): real {
    if Number(Lookup(raw, name)) then Float(Lookup(raw, name)) else 0.0
  }

  /** The six names every rule object must hold. */
  predicate Complete(raw: Value) {
    raw.Obj? && {"name", "field", "operator", "value", "weight", "score"} <= raw.fields.Keys
  }

  predicate NamesFeature(raw: Value) {
    Lookup(raw, "field").Str? && Lookup(raw, "field").s in FEATURES
  }

  /** A known operator with a value it can work on. */
  predicate Comparable(operator: Value, value: Value) {
    && operator.Str?
    && (|| operator.s in COMPARISONS
        || (operator.s in RANGES && value.List? && |value.items| == 2)
        || (operator.s == "in" && value.List? && value.items != []))
  }

  predicate InUnitInterval(v: Value) {
    Number(v) && 0.0 <= Float(v) <= 1.0
  }

  /** `enabled` is missing, or is none of the values Python takes for false. */
  predicate Enabled(raw: Value)
    requires raw.Obj?
  {
    "enabled" !in raw.fields ||
    var e := raw.fields["enabled"];
    && e != Null && e != Bool(false) && e != Int(0) && e != Num(0.0)
    && e != Str("") && e != List([]) && e != Obj(map[])
  }

  lemma FieldsParse(name: string)
    ensures ParseField(name).Some? <==> name in FEATURES
    ensures ParseField(name).Some? ==>
              forall v :: AsNumber(FeatureValue(v, ParseField(name).value)) == Some(Feature(v, name))
  {}

  lemma OperatorsParse(symbol: string)
    ensures ParseOperator(symbol).Some? <==> symbol in COMPARISONS || symbol in RANGES || symbol == "in"
    ensures symbol in RANGES <==> ParseOperator(symbol) == Some(Between) || ParseOperator(symbol) == Some(NotBetween)
    ensures symbol == "in" <==> ParseOperator(symbol) == Some(In)
  {}

  lemma ShapesParse(operator: Value, value: Value)
    ensures Comparable(operator, value) <==>
            && operator.Str? && ParseOperator(operator.s).Some?
            && WellShaped(ParseOperator(operator.s).value, value)
  {
    if operator.Str? {
      OperatorsParse(operator.s);
    }
  }

  /** A rule object takes part exactly when it is complete, well formed and not disabled. */
  lemma ActiveExactlyWhen(raw: Value)
    ensures Active(raw) <==>
            && Complete(raw) && NamesFeature(raw) && Comparable(Lookup(raw, "operator"), Lookup(raw, "value"))
            && InUnitInterval(Lookup(raw, "weight")) && InUnitInterval(Lookup(raw, "score")) && Enabled(raw)
  {
    if Complete(raw) {
      ShapesParse(raw.fields["operator"], raw.fields["value"]);
      if raw.fields["field"].Str? {
        FieldsParse(raw.fields["field"].s);
      }
      if InUnitInterval(raw.fields["weight"]) {
        UnitNumbersConvert(raw.fields["weight"]);
      }
      if InUnitInterval(raw.fields["score"]) {
        UnitNumbersConvert(raw.fields["score"]);
      }
    }
  }

  /** A complete object whose field is hashable and names no feature. */
  predicate UnknownFeatureAt(raw: Value) {
    Complete(raw) && Hashable(Lookup(raw, "field")) && !NamesFeature(raw)
  }

  lemma UnknownExactlyWhen(raw: Value)
    ensures Validate(raw).UnknownFeature? <==> UnknownFeatureAt(raw)
  {
    if Complete(raw) && raw.fields["field"].Str? {
      FieldsParse(raw.fields["field"].s);
    }
  }

  /** A skipped rule object is reported by its position: as an unknown feature, or else as invalid. */
  lemma ReportedExactlyWhen(raws: seq<Value>, i: nat)
    ensures Problem(i, true) in Problems(raws) <==> i < |raws| && UnknownFeatureAt(raws[i])
    ensures Problem(i, false) in Problems(raws) <==>
            i < |raws| && !Validate(raws[i]).Usable? && !Validate(raws[i]).Raises? && !UnknownFeatureAt(raws[i])
  {
    ReportedPosition(raws, i);
    if i < |raws| {
      UnknownExactlyWhen(raws[i]);
    }
  }

  lemma {:induction false} ReportedPosition(raws: seq<Value>, i: nat)
    ensures Problem(i, true) in Problems(raws) <==> i < |raws| && Validate(raws[i]).UnknownFeature?
    ensures Problem(i, false) in Problems(raws) <==> i < |raws| && Validate(raws[i]).Invalid?
  {
    if raws != [] {
      ReportedPosition(raws[..|raws| - 1], i);
    }
  }

  // ---------------------------------------------------------------------------
  // When a rule fires
  // ---------------------------------------------------------------------------

  predicate RuleFires(raw: Value, v: Vector) {
    Active(raw) && Fires(Validate(raw).rule, v)
  }

  predicate Satisfies(x: real, symbol: string, y: real) {
    && (symbol == "==" ==> x == y) && (symbol == "!=" ==> x != y)
    && (symbol == ">" ==> x > y) && (symbol == ">=" ==> x >= y)
    && (symbol == "<" ==> x < y) && (symbol == "<=" ==> x <= y)
  }

  lemma RuleParts(raw: Value)
    requires Active(raw)
    ensures var r := Validate(raw).rule;
            && raw.Obj? && Complete(raw) && raw.fields["field"].Str? && raw.fields["operator"].Str?
            && ParseField(raw.fields["field"].s) == Some(r.field) && r.value == raw.fields["value"]
            && ParseOperator(raw.fields["operator"].s) == Some(r.operator)
            && r.weight == NumberAt(raw, "weight") && r.score == NumberAt(raw, "score") && r.name == raw.fields["name"]
            && InUnitInterval(raw.fields["weight"]) && InUnitInterval(raw.fields["score"])
  {}

  lemma ComparisonHolds(actual: Value, symbol: string, expected: Value)
    requires Scalar(actual) && AsNumber(actual).Some? && symbol in COMPARISONS && ParseOperator(symbol).Some?
    ensures Number(expected) ==>
              (Compare(actual, ParseOperator(symbol).value, expected) <==>
               Satisfies(AsNumber(actual).value, symbol, Float(expected)))
    ensures !Number(expected) && !expected.Bool? ==>
              (Compare(actual, ParseOperator(symbol).value, expected) <==> symbol == "!=")
  {}

  /** With a comparison: against a number as the symbol says, against text, null, a list or an object only for `!=`. */
  lemma FiresOnComparison(raw: Value, v: Vector)
    requires Active(raw) && raw.fields["operator"].s in COMPARISONS
    ensures var x, symbol, value := Feature(v, raw.fields["field"].s), raw.fields["operator"].s, raw.fields["value"];
            && (Number(value) ==> (RuleFires(raw, v) <==> Satisfies(x, symbol, Float(value))))
            && (!Number(value) && !value.Bool? ==> (RuleFires(raw, v) <==> symbol == "!="))
  {
    RuleParts(raw);
    FieldsParse(raw.fields["field"].s);
    OperatorsParse(raw.fields["operator"].s);
    ComparisonHolds(FeatureValue(v, Validate(raw).rule.field), raw.fields["operator"].s, raw.fields["value"]);
  }

  lemma RangeHolds(actual: Value, lo: Value, hi: Value)
    requires Scalar(actual) && AsNumber(actual).Some? && Number(lo) && Number(hi)
    ensures Compare(actual, Between, List([lo, hi])) <==> Float(lo) <= AsNumber(actual).value <= Float(hi)
    ensures Compare(actual, NotBetween, List([lo, hi])) <==>
            AsNumber(actual).value < Float(lo) || AsNumber(actual).value > Float(hi)
  {
    NotBetweenIsComplement(actual, lo, hi);
  }

  /** With a range of two numbers: inside its bounds, or outside them. */
  lemma FiresOnRange(raw: Value, v: Vector)
    requires Active(raw) && raw.fields["operator"].s in RANGES
    ensures var x, value := Feature(v, raw.fields["field"].s), raw.fields["value"];
            && value.List? && |value.items| == 2
            && (Number(value.items[0]) && Number(value.items[1]) ==>
                  (RuleFires(raw, v) <==>
                   if raw.fields["operator"].s == "between"
                   then Float(value.items[0]) <= x <= Float(value.items[1])
                   else x < Float(value.items[0]) || x > Float(value.items[1])))
  {
    RuleParts(raw);
    ActiveExactlyWhen(raw);
    FieldsParse(raw.fields["field"].s);
    var items := raw.fields["value"].items;
    if Number(items[0]) && Number(items[1]) {
      assert raw.fields["value"] == List([items[0], items[1]]);
      RangeHolds(FeatureValue(v, Validate(raw).rule.field), items[0], items[1]);
    }
  }

  /** With a list: some number in it is the feature's. */
  lemma FiresOnMembership(raw: Value, v: Vector)
    requires Active(raw) && raw.fields["operator"].s == "in"
    requires raw.fields["value"].List? ==>
               forall k :: 0 <= k < |raw.fields["value"].items| ==> Number(raw.fields["value"].items[k])
    ensures var x, value := Feature(v, raw.fields["field"].s), raw.fields["value"];
            && value.List?
            && (RuleFires(raw, v) <==> exists k :: 0 <= k < |value.items| && Float(value.items[k]) == x)
  {
    RuleParts(raw);
    ActiveExactlyWhen(raw);
    FieldsParse(raw.fields["field"].s);
    var actual, items := FeatureValue(v, Validate(raw).rule.field), raw.fields["value"].items;
    forall k | 0 <= k < |items| ensures ScalarEquals(actual, items[k]) <==> Float(items[k]) == AsNumber(actual).value {}
  }

  // ---------------------------------------------------------------------------
  // The score over the objects
  // ---------------------------------------------------------------------------

  function SumOver(raws: seq<Value>, value: Value -> real): real {
    if raws == [] then 0.0 else SumOver(raws[..|raws| - 1], value) + value(raws[|raws| - 1])
  }

  /** The weight of an object that takes part. */
  const Weights: Value -> real := raw => if Active(raw) then NumberAt(raw, "weight") else 0.0

  /** The score times weight of an object that fires. */
  function Points(v: Vector): Value -> real {
    raw => if RuleFires(raw, v) then WeightedScore(raw) else 0.0
  }

  function WeightedScore(raw: Value): real {
    NumberAt(raw, "score") * NumberAt(raw, "weight")
  }

  /** One hit for each object that fires, in the policy's order, with the object's own numbers. */
  function FiredHits(raws: seq<Value>, v: Vector, total: real): seq<Hit>
    requires total > 0.0
  {
    if raws == [] then []
    else
      var raw := raws[|raws| - 1];
      FiredHits(raws[..|raws| - 1], v, total) + (if RuleFires(raw, v) then [HitOfObject(raw, total)] else [])
  }

  function HitOfObject(raw: Value, total: real): Hit
    requires total > 0.0
  {
    Hit(Lookup(raw, "name"), NumberAt(raw, "score"), NumberAt(raw, "weight"), WeightedScore(raw) / total)
  }

  lemma SumSnoc(rules: seq<Rule>, r: Rule, m: Measure)
    ensures Sum(rules + [r], m) == Sum(rules, m) + m.Of(r)
  {
    assert (rules + [r])[..|rules|] == rules;
  }

  lemma HitsSnoc(rules: seq<Rule>, r: Rule, v: Vector, total: real)
    requires total > 0.0
    ensures Hits(rules + [r], v, total) == Hits(rules, v, total) + (if Fires(r, v) then [HitOf(r, total)] else [])
  {
    assert (rules + [r])[..|rules|] == rules;
  }

  /** What an object contributes, as a rule. */
  lemma ObjectWeighs(raw: Value)
    ensures Weights(raw) == if Active(raw) then Weight.Of(Validate(raw).rule) else 0.0
  {
    if Active(raw) {
      RuleParts(raw);
    }
  }

  lemma ObjectScores(raw: Value, v: Vector)
    ensures Points(v)(raw) == if Active(raw) then Contribution(v).Of(Validate(raw).rule) else 0.0
  {
    if Active(raw) {
      RuleParts(raw);
    }
  }

  lemma ObjectHit(raw: Value, total: real)
    requires Active(raw) && total > 0.0
    ensures HitOf(Validate(raw).rule, total) == HitOfObject(raw, total)
  {
    RuleParts(raw);
  }

  /** A sum over the parsed rules is the sum over the objects they come from. */
  lemma {:induction false} SumOfObjects(raws: seq<Value>, m: Measure, value: Value -> real)
    requires forall raw :: if Active(raw) then m.Of(Validate(raw).rule) == value(raw) else value(raw) == 0.0
    ensures Sum(ActiveRules(raws), m) == SumOver(raws, value)
  {
    if raws != [] {
      var n := |raws| - 1;
      var earlier := ActiveRules(raws[..n]);
      SumOfObjects(raws[..n], m, value);
      if Active(raws[n]) {
        SumSnoc(earlier, Validate(raws[n]).rule, m);
      } else {
        assert earlier + [] == earlier;
      }
    }
  }

  lemma SumsOfObjects(raws: seq<Value>, v: Vector)
    ensures Sum(ActiveRules(raws), Weight) == SumOver(raws, Weights)
    ensures Sum(ActiveRules(raws), Contribution(v)) == SumOver(raws, Points(v))
  {
    forall raw ensures if Active(raw) then Weight.Of(Validate(raw).rule) == Weights(raw) else Weights(raw) == 0.0 {
      ObjectWeighs(raw);
    }
    forall raw
      ensures if Active(raw) then Contribution(v).Of(Validate(raw).rule) == Points(v)(raw) else Points(v)(raw) == 0.0
    {
      ObjectScores(raw, v);
    }
    SumOfObjects(raws, Weight, Weights);
    SumOfObjects(raws, Contribution(v), Points(v));
  }

  lemma {:induction false} HitsOfObjects(raws: seq<Value>, v: Vector, total: real)
    requires total > 0.0
    ensures Hits(ActiveRules(raws), v, total) == FiredHits(raws, v, total)
  {
    if raws != [] {
      var n := |raws| - 1;
      var earlier := ActiveRules(raws[..n]);
      HitsOfObjects(raws[..n], v, total);
      if Active(raws[n]) {
        HitsSnoc(earlier, Validate(raws[n]).rule, v, total);
        ObjectHit(raws[n], total);
      } else {
        assert earlier + [] == earlier;
        assert Hits(earlier, v, total) + [] == Hits(earlier, v, total);
      }
    }
  }

  /**
   When evaluation returns, the score is the weighted mean over the JSON objects: the sum
   of score times weight over those that fire, divided by the sum of the weights of those
   that take part; and the hits are those that fire, with their own numbers. Without
   weight there is no score.
   */
  lemma ScoreOfObjects(raws: seq<Value>, v: Vector)
    requires Evaluate(List(raws), v).Scored?
    ensures var e, total := Evaluate(List(raws), v), SumOver(raws, Weights);
            if total <= 0.0 then e.score == 0.0 && e.hits == []
            else e.score == SumOver(raws, Points(v)) / total && e.hits == FiredHits(raws, v, total)
  {
    SumsOfObjects(raws, v);
    ScoreIsQuotient(raws, v);
    if SumOver(raws, Weights) > 0.0 {
      HitsOfObjects(raws, v, SumOver(raws, Weights));
    }
  }

  lemma ScoreIsQuotient(raws: seq<Value>, v: Vector)
    requires Evaluate(List(raws), v).Scored?
    ensures var e, total := Evaluate(List(raws), v), Sum(ActiveRules(raws), Weight);
            if total <= 0.0 then e.score == 0.0 && e.hits == []
            else e.score == Sum(ActiveRules(raws), Contribution(v)) / total
                 && e.hits == Hits(ActiveRules(raws), v, total)
  {
    RuleScore.ScoreIsWeightedMean(List(raws), v, 1.0);
  }

  lemma SumOfOne(raw: Value, value: Value -> real)
    ensures SumOver([raw], value) == value(raw)
  {
    assert [raw][..0] == [];
  }

  lemma OwnQuotient(raw: Value, v: Vector)
    requires RuleFires(raw, v) && NumberAt(raw, "weight") > 0.0
    ensures Points(v)(raw) / NumberAt(raw, "weight") == NumberAt(raw, "score")
  {
    OwnPoints(raw, v);
    OwnShare(raw);
  }

  lemma OwnPoints(raw: Value, v: Vector)
    requires RuleFires(raw, v)
    ensures Points(v)(raw) == WeightedScore(raw)
  {}

  lemma OwnShare(raw: Value)
    requires NumberAt(raw, "weight") > 0.0
    ensures WeightedScore(raw) / NumberAt(raw, "weight") == NumberAt(raw, "score")
  {
    var score, weight := NumberAt(raw, "score"), NumberAt(raw, "weight");
    assert WeightedScore(raw) == score * weight;
    CancelFactor(score, weight);
  }

  lemma OwnContribution(raw: Value)
    requires NumberAt(raw, "weight") > 0.0
    ensures HitOfObject(raw, NumberAt(raw, "weight")).contribution == NumberAt(raw, "score")
  {
    OwnShare(raw);
  }

  lemma OneHit(raw: Value, v: Vector, total: real)
    requires RuleFires(raw, v) && total > 0.0
    ensures FiredHits([raw], v, total) == [HitOfObject(raw, total)]
  {
    assert [raw][..0] == [];
  }

  lemma SingleObject(raw: Value, v: Vector)
    requires RuleFires(raw, v) && NumberAt(raw, "weight") > 0.0
    ensures SumOver([raw], Weights) == NumberAt(raw, "weight")
    ensures SumOver([raw], Points(v)) / SumOver([raw], Weights) == NumberAt(raw, "score")
  {
    SumOfOne(raw, Weights);
    SumOfOne(raw, Points(v));
    OwnQuotient(raw, v);
  }

  /** In particular one object that fires scores its own score, whatever its positive weight. */
  lemma OneFiringObject(raw: Value, v: Vector)
    requires RuleFires(raw, v) && NumberAt(raw, "weight") > 0.0 && Evaluate(List([raw]), v).Scored?
    ensures var e, score := Evaluate(List([raw]), v), NumberAt(raw, "score");
            && e.score == score && |e.hits| == 1
            && e.hits[0].name == Lookup(raw, "name") && e.hits[0].score == score
            && e.hits[0].weight == NumberAt(raw, "weight") && e.hits[0].contribution == score
  {
    ScoreOfObjects([raw], v);
    SingleObject(raw, v);
    OneHit(raw, v, NumberAt(raw, "weight"));
    OwnContribution(raw);
  }

  lemma CancelFactor(x: real, d: real)
    requires d > 0.0
    ensures x * d / d == x
  {}
}
