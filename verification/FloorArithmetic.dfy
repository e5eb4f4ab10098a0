/** Python's integer arithmetic where it differs from Dafny's, and the few nonlinear facts the ledgers rest on. */
module FloorArithmetic {

  function Min(a: int, b: int): int {
    if a <= b then a else b
  }

  function Max(a: int, b: int): int {
    if a <= b then b else a
  }

  /** Python's `//`: the quotient is rounded towards minus infinity, for either sign of the divisor. */
  function FloorDiv(a: int, b: int): int
    requires b != 0
  {
    if b > 0 then a / b else (-a) / (-b)
  }

  lemma FloorDivBounds(a: int, b: int)
    requires b > 0
    ensures FloorDiv(a, b) * b <= a < FloorDiv(a, b) * b + b
  {
  }

  lemma FloorDivAtMost(a: int, b: int, c: int)
    requires b > 0
    requires a < (c + 1) * b
    ensures FloorDiv(a, b) <= c
  {
    if FloorDiv(a, b) >= c + 1 {
      MulMonotone(c + 1, FloorDiv(a, b), b);
    }
  }

  lemma MulMonotone(a: int, b: int, c: int)
    requires a <= b && c >= 0
    ensures a * c <= b * c
  {
  }

  lemma MulNonNegative(a: int, b: int)
    requires a >= 0 && b >= 0
    ensures a * b >= 0
  {
  }

  lemma CancelFactor(a: int, b: int, c: int)
    requires c > 0 && a * c <= b * c
    ensures a <= b
  {
    if a > b {
      MulMonotone(b + 1, a, c);
    }
  }

  /** Fractions over positive denominators, compared by cross-multiplication, form a transitive order. */
  lemma CrossTransitive(a: int, b: int, c: int, d: int, e: int, f: int)
    requires b > 0 && d > 0 && f > 0
    requires a * d <= c * b
    requires c * f <= e * d
    ensures a * f <= e * b
  {
    MulMonotone(a * d, c * b, f);
    MulMonotone(c * f, e * d, b);
    assert (a * f) * d <= (e * b) * d by {
      assert (a * d) * f == (a * f) * d;
      assert (c * b) * f == (c * f) * b;
      assert (e * d) * b == (e * b) * d;
    }
    CancelFactor(a * f, e * b, d);
  }
}
