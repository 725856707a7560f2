/**
 * The random-integer helper of the dice logic. `Math.random()` is not modelled:
 * every call site passes the draw it would have produced, a real `u` in [0, 1).
 */
module Random {

  /** A value `Math.random()` can return. */
  predicate IsDraw(u: real)
  {
    0.0 <= u < 1.0
  }

  /** `Math.floor(Math.random() * (max - min + 1)) + min`, with the draw as `u`. */
  function RandomInt(lo: int, hi: int, u: real): (k: int)
    requires IsDraw(u)
    ensures lo <= hi ==> lo <= k <= hi
  {
    var n := (hi - lo + 1) as real;
    ScaledDrawBounds(u, n);
    (u * n).Floor + lo
  }

  /** A draw scaled by a positive `n` lies in [0, n). */
  lemma ScaledDrawBounds(u: real, n: real)
    ensures IsDraw(u) && n > 0.0 ==> 0.0 <= u * n < n
  {
    if IsDraw(u) && n > 0.0 {
      assert (1.0 - u) * n > 0.0;
    }
  }

  /**
   * Each of the `hi - lo + 1` results is reached from a sub-interval of [0, 1)
   * of the same width `1 / n`: result `lo + k` exactly for `u` in [k/n, (k+1)/n).
   */
  lemma RandomIntInterval(lo: int, hi: int, u: real, k: int)
    requires IsDraw(u) && lo <= hi && 0 <= k <= hi - lo
    ensures RandomInt(lo, hi, u) == lo + k <==>
              (k as real) / ((hi - lo + 1) as real) <= u < ((k + 1) as real) / ((hi - lo + 1) as real)
  {
    var n := (hi - lo + 1) as real;
    assert RandomInt(lo, hi, u) == lo + k <==> k as real <= u * n < (k + 1) as real;
    ScaleByPositive(k as real, u, n);
    ScaleByPositive((k + 1) as real, u, n);
  }

  /** `a <= u * n` exactly when `a / n <= u`, and likewise for `<`, when `n` is positive. */
  lemma ScaleByPositive(a: real, u: real, n: real)
    requires n > 0.0
    ensures a <= u * n <==> a / n <= u
    ensures u * n < a <==> u < a / n
  {
    assert (a / n) * n == a;
    if a <= u * n {
      assert u * n - (a / n) * n >= 0.0;
      assert (u - a / n) * n >= 0.0;
    }
    if a / n <= u {
      assert (u - a / n) * n >= 0.0;
    }
    if u * n < a {
      assert (a / n - u) * n > 0.0;
    }
    if u < a / n {
      assert (a / n - u) * n > 0.0;
    }
  }
}
