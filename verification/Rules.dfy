/**
 Policy rules: validation of raw JSON rules and the normalised rule score.
 */
module Rules {
  import opened Basics
  import opened Json
  import opened Features

  datatype Field = HourOfDay | FailCount24h | IpChangeRate7d | NewDevice | AverageInterval | Deviation

  datatype Operator = Eq | Ne | Gt | Ge | Lt | Le | In | Between | NotBetween

  function ParseField(name: string): Option<Field> {
    if name == "hour_of_day" then Some(Field.HourOfDay)
    else if name == "fail_count_24h" then Some(FailCount24h)
    else if name == "ip_change_rate_7d" then Some(IpChangeRate7d)
    else if name == "new_device" then Some(Field.NewDevice)
    else if name == "average_login_interval_seconds" then Some(AverageInterval)
    else if name == "deviation_score" then Some(Field.Deviation)
    else None
  }

  function ParseOperator(symbol: string): Option<Operator> {
    if symbol == "==" then Some(Eq)
    else if symbol == "!=" then Some(Ne)
    else if symbol == ">" then Some(Gt)
    else if symbol == ">=" then Some(Ge)
    else if symbol == "<" then Some(Lt)
    else if symbol == "<=" then Some(Le)
    else if symbol == "in" then Some(In)
    else if symbol == "between" then Some(Between)
    else if symbol == "not_between" then Some(NotBetween)
    else None
  }

  function FeatureValue(v: Vector, field: Field): (r: Value)
    ensures Scalar(r) && AsNumber(r).Some?
  {
    match field
    case HourOfDay => Int(v.hourOfDay)
    case FailCount24h => Int(v.failCount24h)
    case IpChangeRate7d => Num(v.ipChangeRate7d)
    case NewDevice => Bool(v.newDevice)
    case AverageInterval => Int(v.averageInterval)
    case Deviation => Num(v.deviation)
  }

  // ---------------------------------------------------------------------------
  // Comparison
  // ---------------------------------------------------------------------------

  /** `lo <= actual <= hi` over the elements of a list, short-circuiting as Python does. */
  function InRange(actual: Value, bounds: seq<Value>): Option<bool> {
    if |bounds| == 0 then None
    else match LessOrEqual(bounds[0], actual)
         case None => None
         case Some(false) => Some(false)
         case Some(true) => if |bounds| < 2 then None else LessOrEqual(actual, bounds[1])
  }

  /** One comparison; every TypeError, KeyError or IndexError reads as false. */
  predicate Compare(actual: Value, operator: Operator, expected: Value)
    requires Scalar(actual)
  {
    match operator
    case Eq => ScalarEquals(actual, expected)
    case Ne => !ScalarEquals(actual, expected)
    case In => expected.List? && exists i :: 0 <= i < |expected.items| && ScalarEquals(actual, expected.items[i])
    case Between => expected.List? && InRange(actual, expected.items) == Some(true)
    case NotBetween => expected.List? && InRange(actual, expected.items) == Some(false)
    case Le => LessOrEqual(actual, expected) == Some(true)
    case Ge => LessOrEqual(expected, actual) == Some(true)
    case Lt => LessOrEqual(expected, actual) == Some(false)
    case Gt => LessOrEqual(actual, expected) == Some(false)
  }

  /**
   On numeric bounds `not_between` is the complement of `between`. A bound of another
   type makes both false, unless the value already lies below a numeric lower bound.
   */
  lemma NotBetweenIsComplement(actual: Value, lo: Value, hi: Value)
    requires Scalar(actual) && AsNumber(actual).Some?
    ensures (Compare(actual, NotBetween, List([lo, hi])) == !Compare(actual, Between, List([lo, hi]))) <==>
            AsNumber(lo).Some? && (AsNumber(hi).Some? || AsNumber(actual).value < AsNumber(lo).value)
    ensures !(Compare(actual, NotBetween, List([lo, hi])) && Compare(actual, Between, List([lo, hi])))
    ensures AsNumber(lo).Some? && AsNumber(hi).Some? ==>
              (Compare(actual, Between, List([lo, hi])) <==>
               AsNumber(lo).value <= AsNumber(actual).value <= AsNumber(hi).value)
  {
    assert [lo, hi][0] == lo && [lo, hi][1] == hi;
  }

  // ---------------------------------------------------------------------------
  // Validation
  // ---------------------------------------------------------------------------

  datatype Rule = Rule(
    name: Value, field: Field, operator: Operator, value: Value,
    weight: real, score: real, enabled: bool, description: Value)

  predicate InUnit(r: Rule) {
    0.0 <= r.weight <= 1.0 && 0.0 <= r.score <= 1.0
  }

  /**
   Usable carries the parsed rule; Raises is the TypeError of a set lookup on a list or
   dict, or the OverflowError of converting a huge integer.
   */
  datatype Validation = Usable(rule: Rule) | UnknownFeature | Invalid | Raises

  predicate HasRequired(fields: map<string, Value>) {
    && "name" in fields && "field" in fields && "operator" in fields
    && "value" in fields && "weight" in fields && "score" in fields
  }

  /** What the operator demands of the rule's value. */
  predicate WellShaped(operator: Operator, value: Value) {
    match operator
    case Between => value.List? && |value.items| == 2
    case NotBetween => value.List? && |value.items| == 2
    case In => value.List? && |value.items| > 0
    case _ => true
  }

  function Validate(raw: Value): (r: Validation)
    ensures r.Usable? ==> InUnit(r.rule)
  {
    if !raw.Obj? || !HasRequired(raw.fields) then Invalid
    else
      var fields := raw.fields;
      if !Hashable(fields["field"]) then Raises
      else if !fields["field"].Str? || ParseField(fields["field"].s) == None then UnknownFeature
      else if !Hashable(fields["operator"]) then Raises
      else if !fields["operator"].Str? || ParseOperator(fields["operator"].s) == None then Invalid
      else
        var operator := ParseOperator(fields["operator"].s).value;
        if !WellShaped(operator, fields["value"]) then Invalid
        else if Overflows(fields["weight"]) then Raises
        else if !UnitNumber(fields["weight"]) then Invalid
        else if Overflows(fields["score"]) then Raises
        else if !UnitNumber(fields["score"]) then Invalid
        else
          Usable(Rule(
                   fields["name"], ParseField(fields["field"].s).value, operator, fields["value"],
                   Float(fields["weight"]), Float(fields["score"]),
                   "enabled" in fields ==> Truthy(fields["enabled"]),
                   Lookup(raw, "description")))
  }

  predicate Active(raw: Value) {
    Validate(raw).Usable? && Validate(raw).rule.enabled
  }

  /** The rules that take part in the score, in policy order. */
  function ActiveRules(raws: seq<Value>): seq<Rule> {
    if raws == [] then []
    else
      var n := |raws| - 1;
      ActiveRules(raws[..n]) + (if Active(raws[n]) then [Validate(raws[n]).rule] else [])
  }

  /** One entry per skipped rule: its index and whether the reason was an unknown feature. */
  datatype Problem = Problem(index: nat, unknownFeature: bool)

  function Problems(raws: seq<Value>): seq<Problem> {
    if raws == [] then []
    else
      var n := |raws| - 1;
      Problems(raws[..n]) +
      (match Validate(raws[n])
       case UnknownFeature => [Problem(n, true)]
       case Invalid => [Problem(n, false)]
       case _ => [])
  }

  // ---------------------------------------------------------------------------
  // The weighted score
  // ---------------------------------------------------------------------------

  predicate Fires(r: Rule, v: Vector) {
    Compare(FeatureValue(v, r.field), r.operator, r.value)
  }

  /** What is added up over the active rules: all weights, or score times weight of those that fire. */
  datatype Measure = Weight | Contribution(v: Vector)
  {
    function Of(r: Rule): real {
      match this
      case Weight => r.weight
      case Contribution(v) => if Fires(r, v) then r.score * r.weight else 0.0
    }
  }

  function Sum(rules: seq<Rule>, m: Measure): real {
    if rules == [] then 0.0 else Sum(rules[..|rules| - 1], m) + m.Of(rules[|rules| - 1])
  }

  datatype Hit = Hit(name: Value, score: real, weight: real, contribution: real)

  function HitOf(r: Rule, denominator: real): Hit
    requires denominator > 0.0
  {
    Hit(r.name, r.score, r.weight, r.score * r.weight / denominator)
  }

  function Hits(rules: seq<Rule>, v: Vector, denominator: real): seq<Hit>
    requires denominator > 0.0
  {
    if rules == [] then []
    else
      var r := rules[|rules| - 1];
      Hits(rules[..|rules| - 1], v, denominator) + (if Fires(r, v) then [HitOf(r, denominator)] else [])
  }

  /** A truthy description that is not text is refused by the hit record. */
  predicate BadDescription(r: Rule) {
    Truthy(r.description) && !r.description.Str?
  }

  datatype Evaluation = Raised | Scored(score: real, hits: seq<Hit>, problems: seq<Problem>)

  ghost predicate SomeRaises(raws: seq<Value>) {
    exists i :: 0 <= i < |raws| && Validate(raws[i]).Raises?
  }

  ghost predicate SomeBadHit(rules: seq<Rule>, v: Vector) {
    exists i :: 0 <= i < |rules| && Fires(rules[i], v) && BadDescription(rules[i])
  }

  ghost function Evaluate(raw: Value, v: Vector): Evaluation {
    if !raw.List? then Scored(0.0, [], [])
    else if SomeRaises(raw.items) then Raised
    else
      var rules, problems := ActiveRules(raw.items), Problems(raw.items);
      var denominator := Sum(rules, Weight);
      if denominator <= 0.0 then Scored(0.0, [], problems)
      else if SomeBadHit(rules, v) then Raised
      else
        var quotient := Sum(rules, Contribution(v)) / denominator;
        Scored(if quotient > 1.0 then 1.0 else quotient, Hits(rules, v, denominator), problems)
  }

  // ---------------------------------------------------------------------------
  // The value a hit is logged with
  // ---------------------------------------------------------------------------

  /** The name a hit carries: a text name as it is, any other value as Python prints it. */
  function NameText(printed: map<Value, string>, name: Value): string {
    if name.Str? then name.s else if name in printed then printed[name] else ""
  }

  predicate Named(raw: Value, name: string) {
    raw.Obj? && Lookup(raw, "name") == Str(name)
  }

  /** The first rule object of this name, usable or not. */
  function Namesake(raws: seq<Value>, name: string): Option<nat> {
    if raws == [] then None
    else
      var n := |raws| - 1;
      var earlier := Namesake(raws[..n], name);
      if earlier.Some? then earlier else if Named(raws[n], name) then Some(n) else None
  }

  lemma {:induction false} NamesakeIsFirst(raws: seq<Value>, name: string)
    ensures var j := Namesake(raws, name);
            j.Some? ==>
              && j.value < |raws| && Named(raws[j.value], name)
              && forall i :: 0 <= i < j.value ==> !Named(raws[i], name)
    ensures Namesake(raws, name) == None ==> forall i :: 0 <= i < |raws| ==> !Named(raws[i], name)
  {
    if raws != [] {
      var prefix := raws[..|raws| - 1];
      NamesakeIsFirst(prefix, name);
      assert forall i :: 0 <= i < |prefix| ==> prefix[i] == raws[i];
    }
  }

  /** Looking the feature up by the namesake's field raises: the field is a list or a dict. */
  predicate LookupFails(raws: seq<Value>, name: string) {
    var j := Namesake(raws, name);
    j.Some? && j.value < |raws| && !Hashable(Lookup(raws[j.value], "field"))
  }

  method MatchedValue(raws: seq<Value>, name: string) returns (raised: bool)
    ensures raised <==> LookupFails(raws, name)
  {
    NamesakeIsFirst(raws, name);
    for i := 0 to |raws|
      invariant forall k :: 0 <= k < i ==> !Named(raws[k], name)
    {
      if raws[i].Obj? && Lookup(raws[i], "name") == Str(name) {
        return !Hashable(Lookup(raws[i], "field"));
      }
    }
    raised := false;
  }

  ghost predicate SomeLookupFails(raws: seq<Value>, printed: map<Value, string>, hits: seq<Hit>) {
    exists k :: 0 <= k < |hits| && LookupFails(raws, NameText(printed, hits[k].name))
  }

  /** The engine's evaluation: one pass to validate, one to accumulate. */
  method EvaluateRules(raw: Value, v: Vector) returns (r: Evaluation)
    ensures r == Evaluate(raw, v)
  {
    if !raw.List? || raw.items == [] {
      return Scored(0.0, [], []);
    }
    var raised, usable, problems := CollectUsable(raw.items);
    if raised {
      return Raised;
    }
    var denominator := Total(usable);
    if denominator <= 0.0 {
      return Scored(0.0, [], problems);
    }
    var refused, numerator, hits := CollectHits(usable, v, denominator);
    if refused {
      return Raised;
    }
    var quotient := numerator / denominator;
    return Scored(if quotient > 1.0 then 1.0 else quotient, hits, problems);
  }

  lemma NextRule(raws: seq<Value>, i: nat)
    requires i < |raws|
    ensures ActiveRules(raws[..i + 1]) == ActiveRules(raws[..i])
            + (if Active(raws[i]) then [Validate(raws[i]).rule] else [])
    ensures Problems(raws[..i + 1]) == Problems(raws[..i]) +
              (match Validate(raws[i])
               case UnknownFeature => [Problem(i, true)]
               case Invalid => [Problem(i, false)]
               case _ => [])
  {
    assert raws[..i + 1][..i] == raws[..i] && raws[..i + 1][i] == raws[i];
  }

  method CollectUsable(raws: seq<Value>) returns (raised: bool, usable: seq<Rule>, problems: seq<Problem>)
    ensures raised <==> SomeRaises(raws)
    ensures !raised ==> usable == ActiveRules(raws) && problems == Problems(raws)
  {
    raised, usable, problems := false, [], [];
    for i := 0 to |raws|
      invariant usable == ActiveRules(raws[..i]) && problems == Problems(raws[..i])
      invariant forall k :: 0 <= k < i ==> !Validate(raws[k]).Raises?
    {
      NextRule(raws, i);
      match Validate(raws[i]) {
        case Raises => return true, usable, problems;
        case UnknownFeature => problems := problems + [Problem(i, true)];
        case Invalid => problems := problems + [Problem(i, false)];
        case Usable(rule) =>
          if rule.enabled {
            usable := usable + [rule];
          }
      }
    }
    assert raws[..|raws|] == raws;
  }

  method CollectHits(rules: seq<Rule>, v: Vector, denominator: real)
    returns (refused: bool, numerator: real, hits: seq<Hit>)
    requires denominator > 0.0
    ensures refused <==> SomeBadHit(rules, v)
    ensures !refused ==> numerator == Sum(rules, Contribution(v)) && hits == Hits(rules, v, denominator)
  {
    refused, numerator, hits := false, 0.0, [];
    for i := 0 to |rules|
      invariant numerator == Sum(rules[..i], Contribution(v)) && hits == Hits(rules[..i], v, denominator)
      invariant forall k :: 0 <= k < i ==> !(Fires(rules[k], v) && BadDescription(rules[k]))
    {
      assert rules[..i + 1][..i] == rules[..i];
      var rule := rules[i];
      if Fires(rule, v) {
        var contribution := rule.score * rule.weight;
        numerator := numerator + contribution;
        if BadDescription(rule) {
          return true, numerator, hits;
        }
        var hit := Hit(rule.name, rule.score, rule.weight, contribution / denominator);
        assert hit == HitOf(rule, denominator);
        hits := hits + [hit];
      }
    }
    assert rules[..|rules|] == rules;
  }

  method Total(rules: seq<Rule>) returns (total: real)
    ensures total == Sum(rules, Weight)
  {
    total := 0.0;
    for i := 0 to |rules|
      invariant total == Sum(rules[..i], Weight)
    {
      assert rules[..i + 1][..i] == rules[..i];
      total := total + rules[i].weight;
    }
    assert rules[..|rules|] == rules;
  }
}
