/** What the normalised rule score guarantees, for every policy and every feature vector. */
module RuleScore {
  import opened Basics
  import opened Json
  import opened Features
  import opened Rules

  // ---------------------------------------------------------------------------
  // Range and decomposition
  // ---------------------------------------------------------------------------

  function ContributionTotal(hits: seq<Hit>): real {
    if hits == [] then 0.0 else ContributionTotal(hits[..|hits| - 1]) + hits[|hits| - 1].contribution
  }

  ghost predicate AllInUnit(rules: seq<Rule>) {
    forall i :: 0 <= i < |rules| ==> InUnit(rules[i])
  }

  lemma {:induction false} ActiveRulesInUnit(raws: seq<Value>)
    ensures AllInUnit(ActiveRules(raws))
  {
    if raws != [] {
      ActiveRulesInUnit(raws[..|raws| - 1]);
    }
  }

  lemma Product(a: real, b: real, c: real)
    requires 0.0 <= a <= b && c >= 0.0
    ensures 0.0 <= a * c <= b * c
  {}

  lemma PartBound(r: Rule, v: Vector, top: real)
    requires InUnit(r) && top >= 0.0 && (Fires(r, v) ==> r.score <= top)
    ensures 0.0 <= Contribution(v).Of(r) <= top * Weight.Of(r)
  {
    Product(if Fires(r, v) then r.score else 0.0, top, r.weight);
  }

  lemma Distribute(k: real, a: real, b: real)
    ensures k * (a + b) == k * a + k * b
  {}

  /** The fired contributions are at most `top` times the total weight when no fired score exceeds `top`. */
  lemma {:induction false} SumBounds(rules: seq<Rule>, v: Vector, top: real)
    requires AllInUnit(rules) && top >= 0.0
    requires forall i :: 0 <= i < |rules| && Fires(rules[i], v) ==> rules[i].score <= top
    ensures 0.0 <= Sum(rules, Contribution(v)) <= top * Sum(rules, Weight)
  {
    if rules == [] {
      assert top * 0.0 == 0.0;
    } else {
      var prefix, r := rules[..|rules| - 1], rules[|rules| - 1];
      SumBounds(prefix, v, top);
      PartBound(r, v, top);
      Distribute(top, Sum(prefix, Weight), r.weight);
    }
  }

  lemma {:induction false} HitsDecompose(rules: seq<Rule>, v: Vector, denominator: real)
    requires denominator > 0.0
    ensures ContributionTotal(Hits(rules, v, denominator)) == Sum(rules, Contribution(v)) / denominator
  {
    if rules != [] {
      var prefix, r := rules[..|rules| - 1], rules[|rules| - 1];
      HitsDecompose(prefix, v, denominator);
      var earlier := Hits(prefix, v, denominator);
      var share := Contribution(v).Of(r);
      if Fires(r, v) {
        ContributionTotalSnoc(earlier, HitOf(r, denominator));
        HitShare(r, v, denominator);
        DivideSum(Sum(prefix, Contribution(v)), share, denominator);
      } else {
        assert Hits(rules, v, denominator) == earlier;
      }
    }
  }

  lemma ContributionTotalSnoc(hits: seq<Hit>, hit: Hit)
    ensures ContributionTotal(hits + [hit]) == ContributionTotal(hits) + hit.contribution
  {
    assert (hits + [hit])[..|hits|] == hits;
  }

  lemma HitShare(r: Rule, v: Vector, denominator: real)
    requires denominator > 0.0 && Fires(r, v)
    ensures HitOf(r, denominator).contribution == Contribution(v).Of(r) / denominator
  {}

  lemma DivideSum(a: real, b: real, d: real)
    requires d > 0.0
    ensures (a + b) / d == a / d + b / d
  {}

  lemma DivideBound(a: real, top: real, d: real)
    requires d > 0.0 && 0.0 <= a <= top * d
    ensures 0.0 <= a / d <= top
  {}

  lemma {:induction false} HitOfRule(rules: seq<Rule>, v: Vector, denominator: real, i: nat)
    requires denominator > 0.0 && i < |rules| && Fires(rules[i], v)
    ensures exists k :: 0 <= k < |Hits(rules, v, denominator)| && Hits(rules, v, denominator)[k].score == rules[i].score
  {
    var n := |rules| - 1;
    var earlier, hits := Hits(rules[..n], v, denominator), Hits(rules, v, denominator);
    if i < n {
      HitOfRule(rules[..n], v, denominator, i);
      var k :| 0 <= k < |earlier| && earlier[k].score == rules[i].score;
      assert hits[k] == earlier[k];
    } else {
      assert hits[|earlier|].score == rules[n].score;
    }
  }

  /**
   The contributions of the hits add up exactly to the score; the score lies in
   [0, 1], never needs the cap at 1.0, and is at most the largest score among the
   rules that fired.
   */
  lemma ScoreIsWeightedMean(raw: Value, v: Vector, top: real)
    requires Evaluate(raw, v).Scored? && top >= 0.0
    ensures var e := Evaluate(raw, v);
            && ContributionTotal(e.hits) == e.score
            && 0.0 <= e.score <= 1.0
            && ((forall k :: 0 <= k < |e.hits| ==> e.hits[k].score <= top) ==> e.score <= top)
    ensures raw.List? && Sum(ActiveRules(raw.items), Weight) > 0.0 ==>
              Evaluate(raw, v).score ==
              Sum(ActiveRules(raw.items), Contribution(v)) / Sum(ActiveRules(raw.items), Weight)
  {
    if raw.List? && Sum(ActiveRules(raw.items), Weight) > 0.0 {
      var rules, e := ActiveRules(raw.items), Evaluate(raw, v);
      var d := Sum(rules, Weight);
      ActiveRulesInUnit(raw.items);
      HitsDecompose(rules, v, d);
      MeanAtMost(rules, v, 1.0);
      if forall k :: 0 <= k < |e.hits| ==> e.hits[k].score <= top {
        forall i | 0 <= i < |rules| && Fires(rules[i], v) ensures rules[i].score <= top {
          HitOfRule(rules, v, d, i);
        }
        MeanAtMost(rules, v, top);
      }
    }
  }

  lemma MeanAtMost(rules: seq<Rule>, v: Vector, top: real)
    requires AllInUnit(rules) && top >= 0.0 && Sum(rules, Weight) > 0.0
    requires forall i :: 0 <= i < |rules| && Fires(rules[i], v) ==> rules[i].score <= top
    ensures 0.0 <= Sum(rules, Contribution(v)) / Sum(rules, Weight) <= top
  {
    SumBounds(rules, v, top);
    DivideBound(Sum(rules, Contribution(v)), top, Sum(rules, Weight));
  }

  // ---------------------------------------------------------------------------
  // Order and dead rules do not matter
  // ---------------------------------------------------------------------------

  lemma {:induction false} ActiveConcat(a: seq<Value>, b: seq<Value>)
    ensures ActiveRules(a + b) == ActiveRules(a) + ActiveRules(b)
  {
    if b == [] {
      assert a + b == a;
    } else {
      assert (a + b)[..|a + b| - 1] == a + b[..|b| - 1];
      ActiveConcat(a, b[..|b| - 1]);
    }
  }

  lemma {:induction false} SumConcat(a: seq<Rule>, b: seq<Rule>, m: Measure)
    ensures Sum(a + b, m) == Sum(a, m) + Sum(b, m)
  {
    if b == [] {
      assert a + b == a;
    } else {
      assert (a + b)[..|a + b| - 1] == a + b[..|b| - 1];
      SumConcat(a, b[..|b| - 1], m);
    }
  }

  lemma {:induction false} HitsConcat(a: seq<Rule>, b: seq<Rule>, v: Vector, d: real)
    requires d > 0.0
    ensures Hits(a + b, v, d) == Hits(a, v, d) + Hits(b, v, d)
  {
    if b == [] {
      assert a + b == a;
    } else {
      assert (a + b)[..|a + b| - 1] == a + b[..|b| - 1];
      HitsConcat(a, b[..|b| - 1], v, d);
      var last := b[|b| - 1];
      var tail := if Fires(last, v) then [HitOf(last, d)] else [];
      assert Hits(b, v, d) == Hits(b[..|b| - 1], v, d) + tail;
      assert Hits(a + b, v, d) == Hits(a, v, d) + Hits(b[..|b| - 1], v, d) + tail;
    }
  }

  lemma {:induction false} ActivePermutation(a: seq<Value>, b: seq<Value>)
    requires multiset(a) == multiset(b)
    ensures multiset(ActiveRules(a)) == multiset(ActiveRules(b))
    decreases |a|
  {
    if a == [] {
      assert |multiset(b)| == 0;
    } else {
      var k := SplitAt(a, b);
      var n := |a| - 1;
      ActivePermutation(a[..n], b[..k] + b[k + 1..]);
      assert a == a[..n] + [a[n]];
      ActiveConcat(a[..n], [a[n]]);
      ActiveConcat(b[..k], [b[k]]);
      ActiveConcat(b[..k] + [b[k]], b[k + 1..]);
      ActiveConcat(b[..k], b[k + 1..]);
    }
  }

  lemma {:induction false} SumPermutation(a: seq<Rule>, b: seq<Rule>, m: Measure)
    requires multiset(a) == multiset(b)
    ensures Sum(a, m) == Sum(b, m)
    decreases |a|
  {
    if a == [] {
      assert |multiset(b)| == 0;
    } else {
      var k := SplitAt(a, b);
      SumPermutation(a[..|a| - 1], b[..k] + b[k + 1..], m);
      SumConcat(b[..k], [b[k]], m);
      SumConcat(b[..k] + [b[k]], b[k + 1..], m);
      SumConcat(b[..k], b[k + 1..], m);
      assert [b[k]][..0] == [];
    }
  }

  lemma {:induction false} HitsPermutation(a: seq<Rule>, b: seq<Rule>, v: Vector, d: real)
    requires d > 0.0 && multiset(a) == multiset(b)
    ensures multiset(Hits(a, v, d)) == multiset(Hits(b, v, d))
    decreases |a|
  {
    if a == [] {
      assert |multiset(b)| == 0;
    } else {
      var k := SplitAt(a, b);
      var n := |a| - 1;
      HitsPermutation(a[..n], b[..k] + b[k + 1..], v, d);
      assert a == a[..n] + [a[n]];
      HitsConcat(a[..n], [a[n]], v, d);
      HitsConcat(b[..k], [b[k]], v, d);
      HitsConcat(b[..k] + [b[k]], b[k + 1..], v, d);
      HitsConcat(b[..k], b[k + 1..], v, d);
    }
  }

  /** The engine is indifferent to the order in which a policy lists its rules. */
  lemma RuleOrderIrrelevant(a: seq<Value>, b: seq<Value>, v: Vector)
    requires multiset(a) == multiset(b)
    ensures var x, y := Evaluate(List(a), v), Evaluate(List(b), v);
            x.Raised? == y.Raised? && (x.Scored? ==> x.score == y.score && multiset(x.hits) == multiset(y.hits))
  {
    var ra, rb := ActiveRules(a), ActiveRules(b);
    ActivePermutation(a, b);
    if SomeRaises(a) {
      RaisingKept(a, b);
    }
    if SomeRaises(b) {
      RaisingKept(b, a);
    }
    if SomeBadHit(ra, v) {
      BadHitKept(ra, rb, v);
    }
    if SomeBadHit(rb, v) {
      BadHitKept(rb, ra, v);
    }
    SumPermutation(ra, rb, Weight);
    SumPermutation(ra, rb, Contribution(v));
    if Sum(ra, Weight) > 0.0 {
      HitsPermutation(ra, rb, v, Sum(ra, Weight));
    }
  }

  lemma PositionIn<T>(a: seq<T>, b: seq<T>, i: nat) returns (j: nat)
    requires i < |a| && multiset(a) == multiset(b)
    ensures j < |b| && b[j] == a[i]
  {
    assert a[i] in multiset(b);
    j :| j < |b| && b[j] == a[i];
  }

  lemma RaisingKept(a: seq<Value>, b: seq<Value>)
    requires multiset(a) == multiset(b) && SomeRaises(a)
    ensures SomeRaises(b)
  {
    var i: nat :| i < |a| && Validate(a[i]).Raises?;
    var j := PositionIn(a, b, i);
    assert Validate(b[j]).Raises?;
  }

  lemma BadHitKept(a: seq<Rule>, b: seq<Rule>, v: Vector)
    requires multiset(a) == multiset(b) && SomeBadHit(a, v)
    ensures SomeBadHit(b, v)
  {
    var i: nat :| i < |a| && Fires(a[i], v) && BadDescription(a[i]);
    var j := PositionIn(a, b, i);
    assert Fires(b[j], v) && BadDescription(b[j]);
  }

  /** Deleting a rejected or disabled rule leaves the score and the hits as they were. */
  lemma DeadRuleIrrelevant(before: seq<Value>, dead: Value, after: seq<Value>, v: Vector)
    requires !Active(dead) && !Validate(dead).Raises?
    ensures var with, without := Evaluate(List(before + [dead] + after), v), Evaluate(List(before + after), v);
            && with.Raised? == without.Raised?
            && (with.Scored? ==> with.score == without.score && with.hits == without.hits)
  {
    var whole, rest := before + [dead] + after, before + after;
    DeadRuleInactive(before, dead, after);
    if SomeRaises(whole) {
      var i: nat :| i < |whole| && Validate(whole[i]).Raises?;
      assert rest[if i < |before| then i else i - 1] == whole[i];
    }
    if SomeRaises(rest) {
      var i: nat :| i < |rest| && Validate(rest[i]).Raises?;
      assert whole[if i < |before| then i else i + 1] == rest[i];
    }
    EvaluateAgrees(whole, rest, v);
  }

  lemma DeadRuleInactive(before: seq<Value>, dead: Value, after: seq<Value>)
    requires !Active(dead)
    ensures ActiveRules(before + [dead] + after) == ActiveRules(before + after)
  {
    ActiveConcat(before, [dead]);
    ActiveConcat(before + [dead], after);
    ActiveConcat(before, after);
    assert ActiveRules([dead]) == ActiveRules([dead][..0]) == [];
    assert ActiveRules(before) + [] == ActiveRules(before);
  }

  lemma EvaluateAgrees(a: seq<Value>, b: seq<Value>, v: Vector)
    requires ActiveRules(a) == ActiveRules(b)
    ensures SomeRaises(a) == SomeRaises(b) ==>
              var x, y := Evaluate(List(a), v), Evaluate(List(b), v);
              x.Raised? == y.Raised? && (x.Scored? ==> x.score == y.score && x.hits == y.hits)
  {}

  // ---------------------------------------------------------------------------
  // More rules firing never lowers the score
  // ---------------------------------------------------------------------------

  /** Every active rule that fires on `low` also fires on `high`. */
  ghost predicate FiresAtLeast(raw: Value, low: Vector, high: Vector) {
    raw.List? ==>
      forall i :: 0 <= i < |ActiveRules(raw.items)| && Fires(ActiveRules(raw.items)[i], low) ==>
                    Fires(ActiveRules(raw.items)[i], high)
  }

  lemma {:induction false} SumMonotone(rules: seq<Rule>, low: Vector, high: Vector)
    requires AllInUnit(rules)
    requires forall i :: 0 <= i < |rules| && Fires(rules[i], low) ==> Fires(rules[i], high)
    ensures Sum(rules, Contribution(low)) <= Sum(rules, Contribution(high))
  {
    if rules != [] {
      var r := rules[|rules| - 1];
      SumMonotone(rules[..|rules| - 1], low, high);
      PartBound(r, high, 1.0);
    }
  }

  lemma DivideMonotone(a: real, b: real, d: real)
    requires a <= b && d > 0.0
    ensures a / d <= b / d
  {}

  lemma MoreHitsNeverLower(raw: Value, low: Vector, high: Vector)
    requires FiresAtLeast(raw, low, high)
    requires Evaluate(raw, low).Scored? && Evaluate(raw, high).Scored?
    ensures Evaluate(raw, low).score <= Evaluate(raw, high).score
  {
    if raw.List? && Sum(ActiveRules(raw.items), Weight) > 0.0 {
      var rules := ActiveRules(raw.items);
      ActiveRulesInUnit(raw.items);
      SumMonotone(rules, low, high);
      DivideMonotone(Sum(rules, Contribution(low)), Sum(rules, Contribution(high)), Sum(rules, Weight));
    }
  }

  // ---------------------------------------------------------------------------
  // The promise that a malformed rule never raises
  // ---------------------------------------------------------------------------

  /** A complete rule object whose field is a list or dict, or whose operator is one and whose field is a feature. */
  predicate UnhashableRule(raw: Value) {
    && raw.Obj? && HasRequired(raw.fields)
    && (|| !Hashable(raw.fields["field"])
        || (&& raw.fields["field"].Str? && ParseField(raw.fields["field"].s).Some?
            && !Hashable(raw.fields["operator"])))
  }

  /**
   A rule in order up to its weight, and an integer there that does not convert to float;
   or in order up to its score, and the integer there.
   */
  predicate OversizedRule(raw: Value) {
    && raw.Obj? && HasRequired(raw.fields)
    && raw.fields["field"].Str? && ParseField(raw.fields["field"].s).Some?
    && raw.fields["operator"].Str? && ParseOperator(raw.fields["operator"].s).Some?
    && WellShaped(ParseOperator(raw.fields["operator"].s).value, raw.fields["value"])
    && (Overflows(raw.fields["weight"]) || (UnitNumber(raw.fields["weight"]) && Overflows(raw.fields["score"])))
  }

  /** An active rule that fires on the vector and carries a truthy description that is not text. */
  predicate RefusedHit(raw: Value, v: Vector) {
    && Active(raw) && Fires(Validate(raw).rule, v)
    && Truthy(Lookup(raw, "description")) && !Lookup(raw, "description").Str?
  }

  lemma {:induction false} ActiveOrigin(raws: seq<Value>, k: nat) returns (i: nat)
    requires k < |ActiveRules(raws)|
    ensures i < |raws| && Active(raws[i]) && Validate(raws[i]).rule == ActiveRules(raws)[k]
  {
    var n := |raws| - 1;
    if k < |ActiveRules(raws[..n])| {
      i := ActiveOrigin(raws[..n], k);
    } else {
      i := n;
    }
  }

  lemma {:induction false} ActivePosition(raws: seq<Value>, i: nat) returns (k: nat)
    requires i < |raws| && Active(raws[i])
    ensures k < |ActiveRules(raws)| && ActiveRules(raws)[k] == Validate(raws[i]).rule
  {
    var n := |raws| - 1;
    if i < n {
      k := ActivePosition(raws[..n], i);
    } else {
      k := |ActiveRules(raws[..n])|;
    }
  }

  /**
   The engine is documented never to raise on a malformed rule. It does raise, and
   exactly when the policy holds a rule with an unhashable field or operator or an
   oversized weight or score, or when, with a positive total weight, a rule that fires
   has a truthy description that is not text.
   */
  lemma RaisesExactlyWhen(raws: seq<Value>, v: Vector)
    ensures Evaluate(List(raws), v).Raised? <==>
            || (exists i :: 0 <= i < |raws| && (UnhashableRule(raws[i]) || OversizedRule(raws[i])))
            || (Sum(ActiveRules(raws), Weight) > 0.0 && exists i :: 0 <= i < |raws| && RefusedHit(raws[i], v))
  {
    assert SomeRaises(raws) <==> exists i :: 0 <= i < |raws| && (UnhashableRule(raws[i]) || OversizedRule(raws[i])) by {
      forall i | 0 <= i < |raws|
        ensures Validate(raws[i]).Raises? <==> UnhashableRule(raws[i]) || OversizedRule(raws[i])
      {
        ValidationRaises(raws[i]);
      }
    }
    BadHitExactlyWhen(raws, v);
  }

  lemma ValidationRaises(raw: Value)
    ensures Validate(raw).Raises? <==> UnhashableRule(raw) || OversizedRule(raw)
  {
    if raw.Obj? && HasRequired(raw.fields) && UnitNumber(raw.fields["weight"]) {
      UnitNumbersConvert(raw.fields["weight"]);
    }
  }

  lemma DescriptionKept(raw: Value)
    requires Validate(raw).Usable?
    ensures Validate(raw).rule.description == Lookup(raw, "description")
  {}

  lemma BadHitExactlyWhen(raws: seq<Value>, v: Vector)
    ensures SomeBadHit(ActiveRules(raws), v) <==> exists i :: 0 <= i < |raws| && RefusedHit(raws[i], v)
  {
    var rules := ActiveRules(raws);
    if SomeBadHit(rules, v) {
      var k :| 0 <= k < |rules| && Fires(rules[k], v) && BadDescription(rules[k]);
      var i := ActiveOrigin(raws, k);
      DescriptionKept(raws[i]);
      assert RefusedHit(raws[i], v);
    }
    if i :| 0 <= i < |raws| && RefusedHit(raws[i], v) {
      var k := ActivePosition(raws, i);
      DescriptionKept(raws[i]);
      assert Fires(rules[k], v) && BadDescription(rules[k]);
    }
  }

  // ---------------------------------------------------------------------------
  // The lookup for the log
  // ---------------------------------------------------------------------------

  /** An active rule that fires, and the first rule object of its printed name has a list or dict for a field. */
  predicate LostHit(raws: seq<Value>, printed: map<Value, string>, i: nat, v: Vector) {
    && i < |raws| && Active(raws[i]) && Fires(Validate(raws[i]).rule, v)
    && LookupFails(raws, NameText(printed, Lookup(raws[i], "name")))
  }

  lemma NameKept(raw: Value)
    requires Validate(raw).Usable?
    ensures Validate(raw).rule.name == Lookup(raw, "name")
  {}

  /** Hits are the rules that fire. */
  lemma {:induction false} HitOrigin(rules: seq<Rule>, v: Vector, denominator: real, k: nat) returns (i: nat)
    requires denominator > 0.0 && k < |Hits(rules, v, denominator)|
    ensures i < |rules| && Fires(rules[i], v) && Hits(rules, v, denominator)[k].name == rules[i].name
  {
    var n := |rules| - 1;
    if k < |Hits(rules[..n], v, denominator)| {
      i := HitOrigin(rules[..n], v, denominator, k);
    } else {
      i := n;
    }
  }

  lemma {:induction false} HitPosition(rules: seq<Rule>, v: Vector, denominator: real, i: nat) returns (k: nat)
    requires denominator > 0.0 && i < |rules| && Fires(rules[i], v)
    ensures k < |Hits(rules, v, denominator)| && Hits(rules, v, denominator)[k].name == rules[i].name
  {
    var n := |rules| - 1;
    if i < n {
      k := HitPosition(rules[..n], v, denominator, i);
    } else {
      k := |Hits(rules[..n], v, denominator)|;
    }
  }

  /** Some hit's lookup raises exactly when some active rule that fires has such a namesake. */
  lemma LookupFailsExactlyWhen(raws: seq<Value>, printed: map<Value, string>, v: Vector, denominator: real)
    requires denominator > 0.0
    ensures SomeLookupFails(raws, printed, Hits(ActiveRules(raws), v, denominator)) <==>
            exists i :: 0 <= i < |raws| && LostHit(raws, printed, i, v)
  {
    var rules, hits := ActiveRules(raws), Hits(ActiveRules(raws), v, denominator);
    if k: nat :| k < |hits| && LookupFails(raws, NameText(printed, hits[k].name)) {
      var r := HitOrigin(rules, v, denominator, k);
      var i := ActiveOrigin(raws, r);
      NameKept(raws[i]);
      assert LostHit(raws, printed, i, v);
    }
    if i: nat :| i < |raws| && LostHit(raws, printed, i, v) {
      var r := ActivePosition(raws, i);
      var k := HitPosition(rules, v, denominator, r);
      NameKept(raws[i]);
      assert LookupFails(raws, NameText(printed, hits[k].name));
    }
  }

  function SampleRule(field: Value, weight: Value, description: Value): Value {
    Obj(map["name" := Str("r"), "field" := field, "operator" := Str(">="), "value" := Num(0.0),
            "weight" := weight, "score" := Num(1.0), "description" := description])
  }

  lemma SampleValid(description: Value)
    ensures Validate(SampleRule(Str("fail_count_24h"), Num(1.0), description)) ==
            Usable(Rule(Str("r"), FailCount24h, Ge, Num(0.0), 1.0, 1.0, true, description))
  {}

  lemma SingleRule(raw: Value)
    requires Active(raw)
    ensures ActiveRules([raw]) == [Validate(raw).rule]
    ensures Sum(ActiveRules([raw]), Weight) == Validate(raw).rule.weight
  {
    assert ActiveRules([raw][..0]) == [];
    assert [Validate(raw).rule][..0] == [];
  }

  lemma SumOfOne(r: Rule, m: Measure)
    ensures Sum([r], m) == m.Of(r)
  {
    assert [r][..0] == [];
  }

  lemma NoBadHit(r: Rule, v: Vector)
    requires !BadDescription(r)
    ensures !SomeBadHit([r], v)
  {}

  lemma NoneRaises(raw: Value)
    requires !Validate(raw).Raises?
    ensures !SomeRaises([raw])
  {
    var raws := [raw];
    assert forall i :: 0 <= i < |raws| ==> raws[i] == raw;
  }

  /** What a policy of one active rule of weight one evaluates to. */
  lemma EvaluateOne(raw: Value, r: Rule, v: Vector)
    requires Validate(raw) == Usable(r) && ActiveRules([raw]) == [r] && r.weight == 1.0
    requires Sum([r], Contribution(v)) <= 1.0
    ensures Evaluate(List([raw]), v).Raised? <==> SomeBadHit([r], v)
    ensures var e := Evaluate(List([raw]), v); e.Scored? ==> e.score == Sum([r], Contribution(v))
  {
    NoneRaises(raw);
    SumOfOne(r, Weight);
    var numerator := Sum([r], Contribution(v));
    assert numerator / 1.0 == numerator;
  }

  lemma OneActive(raw: Value, r: Rule)
    requires Validate(raw) == Usable(r) && r.enabled
    ensures ActiveRules([raw]) == [r]
  {
    SingleRule(raw);
  }

  /** Without a description that is no text it does not raise. */
  lemma EvaluateFine(raw: Value, r: Rule, v: Vector)
    requires Validate(raw) == Usable(r) && ActiveRules([raw]) == [r] && r.weight == 1.0 && !BadDescription(r)
    requires Sum([r], Contribution(v)) <= 1.0
    ensures Evaluate(List([raw]), v).Scored? && Evaluate(List([raw]), v).score == Sum([r], Contribution(v))
  {
    NoBadHit(r, v);
    EvaluateOne(raw, r, v);
  }

  lemma UnhashableSampleRaises(v: Vector)
    ensures Evaluate(List([SampleRule(List([]), Num(1.0), Null)]), v).Raised?
  {
    UnhashableSample();
    RefusedRuleRaises(SampleRule(List([]), Num(1.0), Null), v);
  }

  lemma UnhashableSample()
    ensures UnhashableRule(SampleRule(List([]), Num(1.0), Null))
  {
    var raw := SampleRule(List([]), Num(1.0), Null);
    assert raw.fields["field"] == List([]) && !Hashable(List([]));
    assert HasRequired(raw.fields);
  }

  /** Two one-rule policies on which scoring raises, and the second with its description made text. */
  lemma ScoringCanRaise(v: Vector)
    requires v.failCount24h >= 0
    ensures Evaluate(List([SampleRule(List([]), Num(1.0), Null)]), v).Raised?
    ensures Evaluate(List([SampleRule(Str("fail_count_24h"), Num(1.0), Num(5.0))]), v).Raised?
    ensures Evaluate(List([SampleRule(Str("fail_count_24h"), Num(1.0), Str("text"))]), v).Scored?
  {
    UnhashableSampleRaises(v);
    SampleOutcome(Num(5.0), v);
    SampleOutcome(Str("text"), v);
  }

  /** A policy of one rule without a description raises exactly when validating the rule does. */
  lemma PlainRuleRaises(raw: Value, v: Vector)
    requires !Truthy(Lookup(raw, "description"))
    ensures Evaluate(List([raw]), v).Raised? <==> Validate(raw).Raises?
  {
    if Validate(raw).Raises? {
      assert Validate([raw][0]).Raises?;
    } else {
      NoneRaises(raw);
      PlainRuleFine(raw, v);
    }
  }

  lemma PlainRuleFine(raw: Value, v: Vector)
    requires !Truthy(Lookup(raw, "description"))
    ensures !SomeBadHit(ActiveRules([raw]), v)
  {
    BadHitExactlyWhen([raw], v);
    assert !RefusedHit(raw, v);
  }

  lemma SampleRaises(weight: Value)
    requires Number(weight)
    ensures Validate(SampleRule(Str("fail_count_24h"), weight, Null)).Raises? <==> Overflows(weight)
  {
    ValidationRaises(SampleRule(Str("fail_count_24h"), weight, Null));
  }

  /** An integer weight raises exactly beyond the range of floats, where a float of any size is only rejected. */
  lemma OversizedWeightRaises(weight: Value, v: Vector)
    requires Number(weight)
    ensures Evaluate(List([SampleRule(Str("fail_count_24h"), weight, Null)]), v).Raised? <==>
            weight.Int? && (weight.i >= FLOAT_LIMIT || weight.i <= -FLOAT_LIMIT)
  {
    SampleRaises(weight);
    PlainRuleRaises(SampleRule(Str("fail_count_24h"), weight, Null), v);
  }

  lemma RefusedRuleRaises(raw: Value, v: Vector)
    requires UnhashableRule(raw) || OversizedRule(raw)
    ensures Evaluate(List([raw]), v).Raised?
  {
    ValidationRaises(raw);
    assert Validate([raw][0]).Raises?;
  }

  lemma SampleFires(r: Rule, v: Vector)
    requires v.failCount24h >= 0 && r.field == FailCount24h && r.operator == Ge && r.value == Num(0.0)
    ensures Fires(r, v)
  {}

  lemma SampleOutcome(description: Value, v: Vector)
    requires v.failCount24h >= 0
    ensures Evaluate(List([SampleRule(Str("fail_count_24h"), Num(1.0), description)]), v).Raised? <==>
            Truthy(description) && !description.Str?
  {
    var raw := SampleRule(Str("fail_count_24h"), Num(1.0), description);
    SampleValid(description);
    SingleRule(raw);
    var r := Rule(Str("r"), FailCount24h, Ge, Num(0.0), 1.0, 1.0, true, description);
    SampleFires(r, v);
    SumOfOne(r, Contribution(v));
    EvaluateOne(raw, r, v);
    assert [r][0] == r;
  }
}
