/** Validation of `policies.config`: blending weights and risk thresholds, with the canonical fallbacks. */
module PolicyConfig {
  import opened Basics
  import opened Json

  datatype Weights = Weights(rule: real, ml: real)

  datatype Thresholds = Thresholds(low: real, medium: real, high: real)

  const DEFAULT_WEIGHTS := Weights(0.4, 0.6)
  const DEFAULT_THRESHOLDS := Thresholds(0.25, 0.50, 0.75)
  const WEIGHT_KEYS: seq<string> := ["rule", "ml"]
  const THRESHOLD_KEYS: seq<string> := ["low", "medium", "high"]
  const TOLERANCE: real := 0.000001

  datatype Problem =
    | NotNumber(key: string) | OutsideUnit(key: string)
    | WeightSum | WeightsIncomplete | WeightsNotObject
    | ThresholdOrder | ThresholdsIncomplete | ThresholdsNotObject

  datatype Resolved = Resolved(weights: Weights, thresholds: Thresholds, problems: seq<Problem>)

  // ---------------------------------------------------------------------------
  // What a section must look like
  // ---------------------------------------------------------------------------

  predicate ValidWeights(section: Value) {
    && section.Obj?
    && UnitNumber(Lookup(section, "rule")) && UnitNumber(Lookup(section, "ml"))
    && Float(section.fields["rule"]) > 0.0 && Float(section.fields["ml"]) > 0.0
    && -TOLERANCE <= Float(section.fields["rule"]) + Float(section.fields["ml"]) - 1.0 <= TOLERANCE
  }

  predicate ValidThresholds(section: Value) {
    && section.Obj?
    && UnitNumber(Lookup(section, "low")) && UnitNumber(Lookup(section, "medium"))
    && UnitNumber(Lookup(section, "high"))
    && Float(section.fields["low"]) <= Float(section.fields["medium"]) <= Float(section.fields["high"])
  }

  // ---------------------------------------------------------------------------
  // The engine's resolution
  // ---------------------------------------------------------------------------

  function KeyProblems(section: Value, keys: seq<string>): seq<Problem> {
    if keys == [] then []
    else
      var key := keys[|keys| - 1];
      KeyProblems(section, keys[..|keys| - 1]) +
      (if !Number(Lookup(section, key)) then [NotNumber(key)]
       else if !UnitNumber(Lookup(section, key)) then [OutsideUnit(key)]
       else [])
  }

  function Parsed(section: Value, keys: seq<string>): map<string, real> {
    map key | key in keys && UnitNumber(Lookup(section, key)) :: Float(Lookup(section, key))
  }

  /** A key of the section holds an integer that cannot be converted. */
  predicate Unconvertible(section: Value, keys: seq<string>) {
    section.Obj? && exists k :: 0 <= k < |keys| && Overflows(Lookup(section, keys[k]))
  }

  lemma NextKey(section: Value, keys: seq<string>, i: nat)
    requires i < |keys|
    ensures var value := Lookup(section, keys[i]);
            && KeyProblems(section, keys[..i + 1]) == KeyProblems(section, keys[..i]) +
                 (if !Number(value) then [NotNumber(keys[i])] else if !UnitNumber(value) then [OutsideUnit(keys[i])]
                  else [])
            && Parsed(section, keys[..i + 1]) ==
                 (if UnitNumber(value) then Parsed(section, keys[..i])[keys[i] := Float(value)]
                  else Parsed(section, keys[..i]))
  {
    assert keys[..i + 1][..i] == keys[..i] && keys[..i + 1][i] == keys[i];
    assert keys[..i + 1] == keys[..i] + [keys[i]];
  }

  method ParseKeys(section: Value, keys: seq<string>)
    returns (raised: bool, parsed: map<string, real>, problems: seq<Problem>)
    requires section.Obj?
    ensures raised <==> Unconvertible(section, keys)
    ensures !raised ==> parsed == Parsed(section, keys) && problems == KeyProblems(section, keys)
  {
    raised, parsed, problems := false, map[], [];
    for i := 0 to |keys|
      invariant forall k :: 0 <= k < i ==> !Overflows(Lookup(section, keys[k]))
      invariant parsed == Parsed(section, keys[..i])
      invariant problems == KeyProblems(section, keys[..i])
    {
      NextKey(section, keys, i);
      var value := Lookup(section, keys[i]);
      if !Number(value) {
        problems := problems + [NotNumber(keys[i])];
      } else if Overflows(value) {
        return true, parsed, problems;
      } else if !(0.0 <= Float(value) <= 1.0) {
        problems := problems + [OutsideUnit(keys[i])];
      } else {
        parsed := parsed[keys[i] := Float(value)];
      }
    }
    assert keys[..|keys|] == keys;
  }

  function SectionProblems(raw: Value): seq<Problem> {
    var weights, thresholds := Lookup(raw, "weights"), Lookup(raw, "thresholds");
    WeightProblems(weights) + ThresholdProblems(thresholds)
  }

  function WeightProblems(section: Value): seq<Problem> {
    if section.Null? then []
    else if !section.Obj? then [WeightsNotObject]
    else
      var parsed := Parsed(section, WEIGHT_KEYS);
      KeyProblems(section, WEIGHT_KEYS) +
      (if "rule" in parsed && "ml" in parsed && parsed["rule"] > 0.0 && parsed["ml"] > 0.0 then
         if ValidWeights(section) then [] else [WeightSum]
       else if parsed != map[] then [WeightsIncomplete]
       else [])
  }

  function ThresholdProblems(section: Value): seq<Problem> {
    if section.Null? then []
    else if !section.Obj? then [ThresholdsNotObject]
    else
      var parsed := Parsed(section, THRESHOLD_KEYS);
      KeyProblems(section, THRESHOLD_KEYS) +
      (if "low" in parsed && "medium" in parsed && "high" in parsed then
         if ValidThresholds(section) then [] else [ThresholdOrder]
       else if parsed != map[] then [ThresholdsIncomplete]
       else [])
  }

  function ResolvedWeights(section: Value): Weights {
    if ValidWeights(section) then Weights(Float(section.fields["rule"]), Float(section.fields["ml"]))
    else DEFAULT_WEIGHTS
  }

  function ResolvedThresholds(section: Value): Thresholds {
    if ValidThresholds(section) then
      Thresholds(Float(section.fields["low"]), Float(section.fields["medium"]), Float(section.fields["high"]))
    else DEFAULT_THRESHOLDS
  }

  /** What resolution returns, when it returns. */
  function Resolve(raw: Value): Resolved {
    Resolved(ResolvedWeights(Lookup(raw, "weights")), ResolvedThresholds(Lookup(raw, "thresholds")),
             SectionProblems(raw))
  }

  /** Resolution raises: some weight or threshold is an integer beyond the range of floats. */
  predicate ConfigRaises(raw: Value) {
    Unconvertible(Lookup(raw, "weights"), WEIGHT_KEYS) || Unconvertible(Lookup(raw, "thresholds"), THRESHOLD_KEYS)
  }

  /** None is the OverflowError. */
  method ResolveConfig(raw: Value) returns (r: Option<Resolved>)
    ensures r == if ConfigRaises(raw) then None else Some(Resolve(raw))
  {
    var weights := ResolveWeights(Lookup(raw, "weights"));
    if weights == None {
      return None;
    }
    var thresholds := ResolveThresholds(Lookup(raw, "thresholds"));
    if thresholds == None {
      return None;
    }
    r := Some(Resolved(weights.value.0, thresholds.value.0, weights.value.1 + thresholds.value.1));
  }

  method ResolveWeights(section: Value) returns (r: Option<(Weights, seq<Problem>)>)
    ensures r == if Unconvertible(section, WEIGHT_KEYS) then None
            else Some((ResolvedWeights(section), WeightProblems(section)))
  {
    var weights, problems := DEFAULT_WEIGHTS, [];
    if section.Obj? {
      var raised, parsed, issues := ParseKeys(section, WEIGHT_KEYS);
      if raised {
        return None;
      }
      problems := issues;
      assert "rule" in WEIGHT_KEYS && "ml" in WEIGHT_KEYS by {
        assert WEIGHT_KEYS[0] == "rule" && WEIGHT_KEYS[1] == "ml";
      }
      if "rule" in parsed && "ml" in parsed && parsed["rule"] > 0.0 && parsed["ml"] > 0.0 {
        var excess := parsed["rule"] + parsed["ml"] - 1.0;
        if excess > TOLERANCE || -excess > TOLERANCE {
          problems := problems + [WeightSum];
        } else {
          weights := Weights(parsed["rule"], parsed["ml"]);
        }
      } else if parsed != map[] {
        problems := problems + [WeightsIncomplete];
      }
    } else if !section.Null? {
      problems := [WeightsNotObject];
    }
    assert weights == ResolvedWeights(section) && problems == WeightProblems(section);
    r := Some((weights, problems));
  }

  method ResolveThresholds(section: Value) returns (r: Option<(Thresholds, seq<Problem>)>)
    ensures r == if Unconvertible(section, THRESHOLD_KEYS) then None
                 else Some((ResolvedThresholds(section), ThresholdProblems(section)))
  {
    var thresholds, problems := DEFAULT_THRESHOLDS, [];
    if section.Obj? {
      var raised, parsed, issues := ParseKeys(section, THRESHOLD_KEYS);
      if raised {
        return None;
      }
      problems := issues;
      assert "low" in THRESHOLD_KEYS && "medium" in THRESHOLD_KEYS && "high" in THRESHOLD_KEYS by {
        assert THRESHOLD_KEYS[0] == "low" && THRESHOLD_KEYS[1] == "medium" && THRESHOLD_KEYS[2] == "high";
      }
      if "low" in parsed && "medium" in parsed && "high" in parsed {
        if parsed["low"] <= parsed["medium"] <= parsed["high"] {
          thresholds := Thresholds(parsed["low"], parsed["medium"], parsed["high"]);
        } else {
          problems := problems + [ThresholdOrder];
        }
      } else if parsed != map[] {
        problems := problems + [ThresholdsIncomplete];
      }
    } else if !section.Null? {
      problems := [ThresholdsNotObject];
    }
    assert thresholds == ResolvedThresholds(section) && problems == ThresholdProblems(section);
    r := Some((thresholds, problems));
  }

  // ---------------------------------------------------------------------------
  // Guarantees
  // ---------------------------------------------------------------------------

  /**
   Whatever the raw document, the resolved weights are positive and sum to 1 within 1e-6,
   and the thresholds are ordered in [0, 1].
   */
  lemma ResolvedIsUsable(raw: Value)
    ensures var r := Resolve(raw);
            && 0.0 < r.weights.rule <= 1.0 && 0.0 < r.weights.ml <= 1.0
            && -TOLERANCE <= r.weights.rule + r.weights.ml - 1.0 <= TOLERANCE
            && 0.0 <= r.thresholds.low <= r.thresholds.medium <= r.thresholds.high <= 1.0
  {}

  lemma {:induction false} KeyProblemsNone(section: Value, keys: seq<string>)
    ensures KeyProblems(section, keys) == [] <==> forall k :: 0 <= k < |keys| ==> UnitNumber(Lookup(section, keys[k]))
  {
    if keys != [] {
      var n := |keys| - 1;
      KeyProblemsNone(section, keys[..n]);
      assert forall k :: 0 <= k < n ==> keys[..n][k] == keys[k];
    }
  }

  /**
   No problem is reported exactly when each section is absent, null or fully valid,
   and then resolution does not raise and nothing the document says about a present
   section is lost. A document that is not an object counts as having neither section.
   */
  lemma NoProblemsExactlyWhen(raw: Value)
    ensures Resolve(raw).problems == [] <==>
            && (Lookup(raw, "weights").Null? || ValidWeights(Lookup(raw, "weights")))
            && (Lookup(raw, "thresholds").Null? || ValidThresholds(Lookup(raw, "thresholds")))
    ensures Resolve(raw).problems == [] ==> !ConfigRaises(raw)
    ensures Resolve(raw).problems == [] && Lookup(raw, "weights").Obj? ==>
              && AsNumber(Lookup(Lookup(raw, "weights"), "rule")) == Some(Resolve(raw).weights.rule)
              && AsNumber(Lookup(Lookup(raw, "weights"), "ml")) == Some(Resolve(raw).weights.ml)
    ensures Resolve(raw).problems == [] && Lookup(raw, "thresholds").Obj? ==>
              && AsNumber(Lookup(Lookup(raw, "thresholds"), "low")) == Some(Resolve(raw).thresholds.low)
              && AsNumber(Lookup(Lookup(raw, "thresholds"), "medium")) == Some(Resolve(raw).thresholds.medium)
              && AsNumber(Lookup(Lookup(raw, "thresholds"), "high")) == Some(Resolve(raw).thresholds.high)
  {
    WeightsClean(Lookup(raw, "weights"));
    ThresholdsClean(Lookup(raw, "thresholds"));
    if ValidWeights(Lookup(raw, "weights")) {
      WeightsTaken(Lookup(raw, "weights"));
    }
    if ValidThresholds(Lookup(raw, "thresholds")) {
      ThresholdsTaken(Lookup(raw, "thresholds"));
    }
  }

  lemma WeightsTaken(section: Value)
    requires ValidWeights(section)
    ensures !Unconvertible(section, WEIGHT_KEYS)
    ensures AsNumber(Lookup(section, "rule")) == Some(ResolvedWeights(section).rule)
    ensures AsNumber(Lookup(section, "ml")) == Some(ResolvedWeights(section).ml)
  {
    assert WEIGHT_KEYS[0] == "rule" && WEIGHT_KEYS[1] == "ml";
    CleanConverts(section, WEIGHT_KEYS);
  }

  lemma ThresholdsTaken(section: Value)
    requires ValidThresholds(section)
    ensures !Unconvertible(section, THRESHOLD_KEYS)
    ensures AsNumber(Lookup(section, "low")) == Some(ResolvedThresholds(section).low)
    ensures AsNumber(Lookup(section, "medium")) == Some(ResolvedThresholds(section).medium)
    ensures AsNumber(Lookup(section, "high")) == Some(ResolvedThresholds(section).high)
  {
    assert THRESHOLD_KEYS[0] == "low" && THRESHOLD_KEYS[1] == "medium" && THRESHOLD_KEYS[2] == "high";
    CleanConverts(section, THRESHOLD_KEYS);
  }

  lemma CleanConverts(section: Value, keys: seq<string>)
    requires forall k :: 0 <= k < |keys| ==> UnitNumber(Lookup(section, keys[k]))
    ensures !Unconvertible(section, keys)
  {
    forall k | 0 <= k < |keys| ensures !Overflows(Lookup(section, keys[k])) {
      UnitNumbersConvert(Lookup(section, keys[k]));
    }
  }

  /**
   Resolution is documented never to raise. It raises on a section with an oversized
   integer, and exactly then; a float of any size, a bool or text in its place is
   reported instead.
   */
  lemma ConfigRaisesExactlyWhen(raw: Value)
    ensures ConfigRaises(raw) <==>
            || (Lookup(raw, "weights").Obj?
                && (Overflows(Lookup(Lookup(raw, "weights"), "rule"))
                    || Overflows(Lookup(Lookup(raw, "weights"), "ml"))))
            || (Lookup(raw, "thresholds").Obj?
                && (|| Overflows(Lookup(Lookup(raw, "thresholds"), "low"))
                    || Overflows(Lookup(Lookup(raw, "thresholds"), "medium"))
                    || Overflows(Lookup(Lookup(raw, "thresholds"), "high"))))
  {
    assert WEIGHT_KEYS[0] == "rule" && WEIGHT_KEYS[1] == "ml" && |WEIGHT_KEYS| == 2;
    assert THRESHOLD_KEYS[0] == "low" && THRESHOLD_KEYS[1] == "medium" && THRESHOLD_KEYS[2] == "high"
           && |THRESHOLD_KEYS| == 3;
    forall k, section | 0 <= k < 2 && Overflows(Lookup(section, WEIGHT_KEYS[k])) && section.Obj?
      ensures Overflows(Lookup(section, "rule")) || Overflows(Lookup(section, "ml")) {}
  }

  /** A section that is not fully valid is replaced as a whole by the documented defaults. */
  lemma DefaultsExactlyWhen(raw: Value)
    ensures var r, weights := Resolve(raw), Lookup(raw, "weights");
            if ValidWeights(weights)
            then r.weights.rule == Float(weights.fields["rule"]) && r.weights.ml == Float(weights.fields["ml"])
            else r.weights == Weights(0.4, 0.6)
    ensures var r, thresholds := Resolve(raw), Lookup(raw, "thresholds");
            if ValidThresholds(thresholds)
            then && r.thresholds.low == Float(thresholds.fields["low"])
                 && r.thresholds.medium == Float(thresholds.fields["medium"])
                 && r.thresholds.high == Float(thresholds.fields["high"])
            else r.thresholds == Thresholds(0.25, 0.50, 0.75)
  {}

  lemma {:induction false} KeyReported(section: Value, keys: seq<string>, key: string)
    ensures NotNumber(key) in KeyProblems(section, keys) <==> key in keys && !Number(Lookup(section, key))
    ensures OutsideUnit(key) in KeyProblems(section, keys) <==>
            key in keys && Number(Lookup(section, key)) && !UnitNumber(Lookup(section, key))
    ensures forall p :: p in KeyProblems(section, keys) ==> p.NotNumber? || p.OutsideUnit?
  {
    if keys != [] {
      KeyReported(section, keys[..|keys| - 1], key);
      assert keys == keys[..|keys| - 1] + [keys[|keys| - 1]];
    }
  }

  /** What is reported about the weights, problem by problem. */
  lemma WeightsReported(section: Value, key: string)
    ensures var problems := WeightProblems(section);
            var rule, ml := UnitNumber(Lookup(section, "rule")), UnitNumber(Lookup(section, "ml"));
            && (WeightsNotObject in problems <==> !section.Null? && !section.Obj?)
            && (NotNumber(key) in problems <==>
                section.Obj? && (key == "rule" || key == "ml") && !Number(Lookup(section, key)))
            && (OutsideUnit(key) in problems <==>
                && section.Obj? && (key == "rule" || key == "ml")
                && Number(Lookup(section, key)) && !(0.0 <= Float(Lookup(section, key)) <= 1.0))
            && (section.Obj? ==>
                  var positive :=
                    rule && ml && Float(Lookup(section, "rule")) > 0.0 && Float(Lookup(section, "ml")) > 0.0;
                  && (WeightSum in problems <==>
                      && positive
                      && !(0.999999 <= Float(Lookup(section, "rule")) + Float(Lookup(section, "ml")) <= 1.000001))
                  && (WeightsIncomplete in problems <==> !positive && (rule || ml)))
  {
    assert WEIGHT_KEYS[0] == "rule" && WEIGHT_KEYS[1] == "ml";
    KeyReported(section, WEIGHT_KEYS, key);
    if section.Obj? {
      ParsedKeys(section, WEIGHT_KEYS);
    }
  }

  /** What is reported about the thresholds. */
  lemma ThresholdsReported(section: Value, key: string)
    ensures var problems := ThresholdProblems(section);
            && (ThresholdsNotObject in problems <==> !section.Null? && !section.Obj?)
            && (NotNumber(key) in problems <==>
                section.Obj? && (key == "low" || key == "medium" || key == "high") && !Number(Lookup(section, key)))
            && (OutsideUnit(key) in problems <==>
                && section.Obj? && (key == "low" || key == "medium" || key == "high")
                && Number(Lookup(section, key)) && !(0.0 <= Float(Lookup(section, key)) <= 1.0))
  {
    assert THRESHOLD_KEYS[0] == "low" && THRESHOLD_KEYS[1] == "medium" && THRESHOLD_KEYS[2] == "high";
    KeyReported(section, THRESHOLD_KEYS, key);
  }

  /** Three numbers out of order are reported as such, and some but not all numbers as incomplete. */
  lemma ThresholdOrderReported(section: Value)
    requires section.Obj?
    ensures var low, medium := UnitNumber(Lookup(section, "low")), UnitNumber(Lookup(section, "medium"));
            var high := UnitNumber(Lookup(section, "high"));
            && (ThresholdOrder in ThresholdProblems(section) <==>
                && low && medium && high
                && !(Float(Lookup(section, "low")) <= Float(Lookup(section, "medium"))
                                                   <= Float(Lookup(section, "high"))))
            && (ThresholdsIncomplete in ThresholdProblems(section) <==>
                !(low && medium && high) && (low || medium || high))
  {
    assert THRESHOLD_KEYS[0] == "low" && THRESHOLD_KEYS[1] == "medium" && THRESHOLD_KEYS[2] == "high";
    KeyReported(section, THRESHOLD_KEYS, "");
    ParsedKeys(section, THRESHOLD_KEYS);
  }

  lemma ParsedKeys(section: Value, keys: seq<string>)
    ensures Parsed(section, keys) != map[] <==> exists k :: 0 <= k < |keys| && UnitNumber(Lookup(section, keys[k]))
  {
    if k :| 0 <= k < |keys| && UnitNumber(Lookup(section, keys[k])) {
      assert keys[k] in Parsed(section, keys);
    }
    if Parsed(section, keys) != map[] {
      var key :| key in Parsed(section, keys);
      var k :| 0 <= k < |keys| && keys[k] == key;
    }
  }

  lemma WeightsClean(section: Value)
    ensures WeightProblems(section) == [] <==> section.Null? || ValidWeights(section)
  {
    KeyProblemsNone(section, WEIGHT_KEYS);
    assert WEIGHT_KEYS[0] == "rule" && WEIGHT_KEYS[1] == "ml";
    if section.Obj? && KeyProblems(section, WEIGHT_KEYS) == [] {
      assert "rule" in Parsed(section, WEIGHT_KEYS);
    }
  }

  lemma ThresholdsClean(section: Value)
    ensures ThresholdProblems(section) == [] <==> section.Null? || ValidThresholds(section)
  {
    KeyProblemsNone(section, THRESHOLD_KEYS);
    assert THRESHOLD_KEYS[0] == "low" && THRESHOLD_KEYS[1] == "medium" && THRESHOLD_KEYS[2] == "high";
    if section.Obj? && KeyProblems(section, THRESHOLD_KEYS) == [] {
      assert "low" in Parsed(section, THRESHOLD_KEYS);
    }
  }
}
