/**
 JSON documents as the policy columns hold them, with the Python operations the
 engine applies to them: equality, ordering, truthiness, hashability and conversion
 to float. Numbers are exact, and integers are kept apart because only they can be
 too large to convert.
 */
module Json {
  import opened Basics

  datatype Value =
    | Null
    | Bool(b: bool)
    | Int(i: int)
    | Num(n: real)
    | Str(s: string)
    | List(items: seq<Value>)
    | Obj(fields: map<string, Value>)

  predicate Scalar(v: Value) {
    v.Null? || v.Bool? || Number(v)
  }

  /** An int or float that is not a bool. */
  predicate Number(v: Value) {
    v.Int? || v.Num?
  }

  /** A Python bool is an int, so it takes part in numeric comparisons. */
  function AsNumber(v: Value): Option<real> {
    match v
    case Bool(b) => Some(if b then 1.0 else 0.0)
    case Int(i) => Some(i as real)
    case Num(n) => Some(n)
    case _ => None
  }

  /** `x == y` when x is a feature value: null, bool or number. */
  predicate ScalarEquals(x: Value, y: Value)
    requires Scalar(x)
  {
    if AsNumber(x).Some? && AsNumber(y).Some? then AsNumber(x) == AsNumber(y) else x == y
  }

  /** `x <= y` when one side is a feature value; None stands for the TypeError. */
  function LessOrEqual(x: Value, y: Value): Option<bool> {
    if AsNumber(x).Some? && AsNumber(y).Some? then Some(AsNumber(x).value <= AsNumber(y).value) else None
  }

  predicate Truthy(v: Value) {
    match v
    case Null => false
    case Bool(b) => b
    case Int(i) => i != 0
    case Num(n) => n != 0.0
    case Str(s) => s != ""
    case List(items) => items != []
    case Obj(fields) => fields != map[]
  }

  /** Membership in a Python set raises TypeError for a list or a dict. */
  predicate Hashable(v: Value) {
    !v.List? && !v.Obj?
  }

  /**
   The smallest integer that `float` refuses, 2^1024 - 2^970: halfway between the largest
   double and 2^1024, from where rounding goes up. It is 2^54 - 1 times 2^970.
   */
  const FLOAT_LIMIT :=
    0x3FFFFFFFFFFFFF
    * 0x40000000000000000000000000000000000000000000000000000000000000000000000000000000000000000000000000
    * 0x40000000000000000000000000000000000000000000000000000000000000000000000000000000000000000000000000
    * 0x400000000000000000000000000000000000000000000000

  /** An integer that `float` refuses with an OverflowError. */
  predicate Overflows(v: Value) {
    v.Int? && !(-FLOAT_LIMIT < v.i < FLOAT_LIMIT)
  }

  /** A number in [0, 1] that is not a bool. */
  predicate UnitNumber(v: Value) {
    Number(v) && 0.0 <= Float(v) <= 1.0
  }

  function Float(v: Value): real
    requires Number(v)
  {
    if v.Int? then v.i as real else v.n
  }

  /** The numbers of the unit interval are far from the limit. */
  lemma UnitNumbersConvert(v: Value)
    requires UnitNumber(v)
    ensures !Overflows(v)
  {
    if v.Int? {
      assert 0 <= v.i <= 1;
    }
  }

  function Lookup(v: Value, key: string): Value {
    if v.Obj? && key in v.fields then v.fields[key] else Null
  }
}
