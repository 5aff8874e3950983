/** Small vocabulary shared by every module: optional values and the clock unit. */
module Basics {
  datatype Option<+T> = None | Some(value: T)

  /** Instants and durations are whole microseconds, the resolution of the source's datetimes. */
  type Time = int

  const SECOND := 1_000_000
  const MINUTE := 60 * SECOND
  const HOUR := 60 * MINUTE
  const DAY := 24 * HOUR

  /** Ceiling of a / b. */
  function CeilDiv(a: nat, b: nat): nat
    requires b > 0
  {
    (a + b - 1) / b
  }

  /** The quotient is the only number whose multiple fits under the dividend. */
  lemma QuotientUnique(a: int, d: int, q: int)
    requires d > 0 && q * d <= a < (q + 1) * d
    ensures a / d == q
  {
    var p := a / d;
    DivisionBounds(a, d);
    if p < q {
      ScaleInt(p + 1, q, d);
    } else if p > q {
      ScaleInt(q + 1, p, d);
    }
  }

  lemma DivisionBounds(a: int, d: int)
    requires d > 0
    ensures a / d * d <= a < (a / d + 1) * d
  {
    var p := a / d;
    assert a == p * d + a % d;
    assert (p + 1) * d == p * d + d;
  }

  lemma ScaleInt(x: int, y: int, d: int)
    requires x <= y && d > 0
    ensures x * d <= y * d
  {}
}
