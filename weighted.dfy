/**
 * Cumulative-weight (inverse-transform) sampling, `weightedPick` in app.js.
 * The draw `r = Math.random() * sum` walks the weights in order; the first
 * value at which the running remainder drops to zero or below is returned,
 * and the last value is the fallback when the walk never stops.
 */
module Weighted {
  import opened Wrappers
  import opened Random

  /** The cumulative weight of the first `k` weights, accumulated left to right from 0. */
  function Prefix(w: seq<int>, k: nat): (p: int)
    requires k <= |w|
    ensures (forall i :: 0 <= i < k ==> w[i] >= 0) ==> p >= 0
  {
    if k == 0 then 0 else Prefix(w, k - 1) + w[k - 1]
  }

  /** `weights.reduce((a, b) => a + b, 0)`: the left fold of `+` from 0. */
  function Sum(s: seq<int>): (total: int)
    ensures (forall i :: 0 <= i < |s| ==> s[i] >= 0) ==> total >= 0
  {
    Prefix(s, |s|)
  }

  /** With no negative weight the cumulative weights never decrease. */
  lemma {:induction false} PrefixMonotone(w: seq<int>, j: nat, k: nat)
    requires forall i :: 0 <= i < |w| ==> w[i] >= 0
    requires j <= k <= |w|
    ensures Prefix(w, j) <= Prefix(w, k)
    decreases k - j
  {
    if j < k {
      PrefixMonotone(w, j, k - 1);
    }
  }

  /** The walk stops at index `i` when `r - (w[0] + ... + w[i]) <= 0`. */
  predicate Covers(w: seq<int>, r: real, i: nat)
    requires i < |w|
  {
    r <= Prefix(w, i + 1) as real
  }

  /** Where the walk stops when it starts at index `i`; None when it runs off the end. */
  function FirstCoveringFrom(w: seq<int>, r: real, i: nat): (res: Option<nat>)
    requires i <= |w|
    ensures res.Some? ==> i <= res.value < |w| && Covers(w, r, res.value)
    ensures res.Some? ==> forall j :: i <= j < res.value ==> !Covers(w, r, j)
    ensures res.None? ==> forall j :: i <= j < |w| ==> !Covers(w, r, j)
    decreases |w| - i
  {
    if i == |w| then None
    else if Covers(w, r, i) then Some(i)
    else FirstCoveringFrom(w, r, i + 1)
  }

  /**
   * Where the walk of `weightedPick` stops for the scaled draw `r`: the least
   * index whose cumulative weight reaches `r`, or None when there is none.
   */
  function FirstCovering(w: seq<int>, r: real): (res: Option<nat>)
    ensures res.Some? ==> res.value < |w| && Covers(w, r, res.value)
    ensures res.Some? ==> forall j :: 0 <= j < res.value ==> !Covers(w, r, j)
    ensures res.None? <==> forall j :: 0 <= j < |w| ==> !Covers(w, r, j)
  {
    FirstCoveringFrom(w, r, 0)
  }

  /** The value `weightedPick` returns for the scaled draw `r`, fallback included. */
  function Pick<T>(values: seq<T>, weights: seq<int>, r: real): (v: T)
    requires |values| > 0 && |weights| == |values|
    ensures v in values
  {
    match FirstCovering(weights, r)
    case Some(i) => values[i]
    case None => values[|values| - 1]
  }

  /** The scaled draw: `Math.random() * sum`, which lies in [0, sum) whenever sum > 0. */
  function Scaled(weights: seq<int>, u: real): (r: real)
    ensures IsDraw(u) && Sum(weights) > 0 ==> 0.0 <= r < Sum(weights) as real
  {
    var n := Sum(weights) as real;
    ScaledDrawBounds(u, n);
    u * n
  }

  /** `weightedPick(values, weights)` with the draw of `Math.random()` as `u`. */
  method WeightedPick<T>(values: seq<T>, weights: seq<int>, u: real) returns (v: T)
    requires |values| > 0 && |weights| == |values|
    requires IsDraw(u)
    ensures v == Pick(values, weights, Scaled(weights, u))
  {
    var sum := Sum(weights);
    var r := u * (sum as real);
    ghost var r0 := r;
    assert r0 == Scaled(weights, u);
    for i := 0 to |values|
      invariant r == r0 - Prefix(weights, i) as real
      invariant FirstCoveringFrom(weights, r0, i) == FirstCovering(weights, r0)
    {
      r := r - weights[i] as real;
      if r <= 0.0 {
        assert Covers(weights, r0, i);
        return values[i];
      }
    }
    return values[|values| - 1];
  }

  /** The fallback is unreachable whenever `r` is at most the total weight. */
  lemma FallbackUnreachable(w: seq<int>, r: real)
    requires |w| > 0 && r <= Sum(w) as real
    ensures FirstCovering(w, r).Some?
  {
    assert Covers(w, r, |w| - 1);
  }

  /** For a non-negative total weight, no draw of `Math.random()` reaches the fallback. */
  lemma DrawNeverFallsBack(w: seq<int>, u: real)
    requires |w| > 0 && Sum(w) >= 0 && IsDraw(u)
    ensures FirstCovering(w, Scaled(w, u)).Some?
  {
    var s := Sum(w) as real;
    assert u * s <= s by {
      assert (1.0 - u) * s >= 0.0;
    }
    FallbackUnreachable(w, Scaled(w, u));
  }

  /**
   * With non-negative weights, index `i` is chosen exactly for `r` in the
   * interval (Prefix(i), Prefix(i + 1)] (closed at 0 for the first index),
   * whose width is the weight `w[i]`.
   */
  lemma PickInterval(w: seq<int>, r: real, i: nat)
    requires forall j :: 0 <= j < |w| ==> w[j] >= 0
    requires i < |w|
    ensures FirstCovering(w, r) == Some(i) <==>
              (i == 0 || Prefix(w, i) as real < r) && r <= Prefix(w, i + 1) as real
    ensures Prefix(w, i + 1) - Prefix(w, i) == w[i]
  {
    if i > 0 && FirstCovering(w, r) == Some(i) {
      assert !Covers(w, r, i - 1);
    }
    if (i == 0 || Prefix(w, i) as real < r) && r <= Prefix(w, i + 1) as real {
      forall j | 0 <= j < i ensures !Covers(w, r, j) {
        PrefixMonotone(w, j + 1, i);
      }
      var res := FirstCovering(w, r);
      assert Covers(w, r, i);
      assert res.Some? && !(res.value < i) && !(res.value > i);
    }
  }
}
