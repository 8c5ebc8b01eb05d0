/** Decimal.quantize(..., ROUND_HALF_UP): to the nearest multiple, ties away from zero. */
module Rounding {
  import opened Prelude

  function Nearest(y: real): int {
    if y >= 0.0 then (y + 0.5).Floor else -((0.5 - y).Floor)
  }

  /** `q2`: two decimal places. */
  function Q2(x: real): real { Nearest(x * 100.0) as real / 100.0 }

  /** `_q4`: four decimal places. */
  function Q4(x: real): real { Nearest(x * 10000.0) as real / 10000.0 }

  lemma NearestIsOdd(y: real)
    ensures Nearest(-y) == -Nearest(y)
  {
  }

  lemma NearestIsMonotone(x: real, y: real)
    requires x <= y
    ensures Nearest(x) <= Nearest(y)
  {
  }

  /** The half-up threshold: the result reaches n > 0 exactly from n - 1/2 on. */
  lemma NearestReaches(y: real, n: int)
    requires n > 0
    ensures Nearest(y) >= n <==> y >= n as real - 0.5
    ensures Nearest(y) <= -n <==> y <= 0.5 - n as real
  {
  }

  lemma Q2IsOdd(x: real)
    ensures Q2(-x) == -Q2(x)
  {
    NearestIsOdd(x * 100.0);
    assert -x * 100.0 == -(x * 100.0);
  }

  lemma Q2IsMonotone(x: real, y: real)
    requires x <= y
    ensures Q2(x) <= Q2(y)
  {
    NearestIsMonotone(x * 100.0, y * 100.0);
  }

  lemma Q4IsMonotone(x: real, y: real)
    requires x <= y
    ensures Q4(x) <= Q4(y)
  {
    NearestIsMonotone(x * 10000.0, y * 10000.0);
  }

  lemma Q4Error(x: real)
    ensures Abs(Q4(x) - x) <= 0.00005
  {
  }
}
