/** The two pure numeric helpers of the design panel: clamping and the inclusive range test. */
module Geometry {

  /** Distance between two integers. */
  function Dist(a: int, b: int): nat
  {
    if a < b then b - a else a - b
  }

  /** True exactly when lo <= n <= hi, both ends included. Agrees with Clamp: a value is
      in range exactly when clamping leaves it alone. */
  predicate InRange(n: int, lo: int, hi: int): (b: bool)
    ensures b <==> lo <= n <= hi
    ensures b <==> Clamp(n, lo, hi) == n
  {
    if n >= lo && n <= hi then true else false
  }

  /** Constrains n to [lo, hi]. On a non-empty interval the result lies in it and is the
      point of the interval nearest to n; a value already in range comes back unchanged.
      On an empty interval (lo > hi) the lower limit wins for values below it. */
  function Clamp(n: int, lo: int, hi: int): (r: int)
    ensures lo <= hi ==> lo <= r <= hi
    ensures lo <= n <= hi ==> r == n
    ensures n < lo ==> r == lo
    ensures lo <= n && hi < n ==> r == hi
    ensures lo <= hi ==> forall m :: lo <= m <= hi ==> Dist(r, n) <= Dist(m, n)
  {
    if n < lo then lo
    else if n > hi then hi
    else n
  }

  /** Clamping twice is clamping once. */
  lemma ClampIdempotent(n: int, lo: int, hi: int)
    requires lo <= hi
    ensures Clamp(Clamp(n, lo, hi), lo, hi) == Clamp(n, lo, hi)
  {
  }

  /** On a non-empty interval clamping never reverses the order of two values. (On an empty
      one it can: values below lo go to lo, values above hi go to the smaller hi.) */
  lemma ClampMonotone(m: int, n: int, lo: int, hi: int)
    requires lo <= hi && m <= n
    ensures Clamp(m, lo, hi) <= Clamp(n, lo, hi)
  {
  }
}
