/**
 * `pickDiceForTotal` in app.js: list every ordered pair of die faces that adds
 * up to the total, in the order of the two nested loops, and choose one with
 * `randomInt(0, pairs.length - 1)`; (1, 1) when the list is empty.
 */
module Pairs {
  import opened Random

  type Pair = (int, int)

  /** Both faces lie in [1, 6] and add up to `total`. */
  predicate IsDecomposition(total: int, p: Pair)
  {
    1 <= p.0 <= 6 && 1 <= p.1 <= 6 && p.0 + p.1 == total
  }

  /** What the inner loop has pushed for face `d1` after trying d2 = 1 .. k. */
  function Row(total: int, d1: int, k: nat): seq<Pair>
  {
    if k == 0 then [] else Row(total, d1, k - 1) + (if d1 + k == total then [(d1, k)] else [])
  }

  /** What the outer loop has pushed after the rows d1 = 1 .. m. */
  function Grid(total: int, m: nat): seq<Pair>
  {
    if m == 0 then [] else Grid(total, m - 1) + Row(total, m, 6)
  }

  /** The complete `pairs` array for `total`. */
  function Decompositions(total: int): seq<Pair>
  {
    Grid(total, 6)
  }

  /** Smallest first face of a decomposition of `total`. */
  function LowFace(total: int): int
  {
    if total - 6 > 1 then total - 6 else 1
  }

  /** How many of the rows 1 .. m contribute a pair: d1 in [LowFace(total), min(m, total - 1)]. */
  function SpanCount(total: int, m: nat): nat
  {
    var hi := if m < total - 1 then m else total - 1;
    if hi < LowFace(total) then 0 else hi - LowFace(total) + 1
  }

  /** The independent description: first faces LowFace, LowFace + 1, ... in increasing order. */
  function Span(total: int, m: nat): seq<Pair>
  {
    seq(SpanCount(total, m), i => (LowFace(total) + i, total - LowFace(total) - i))
  }

  /** Row d1 holds the single pair (d1, total - d1) when that second face was tried, else nothing. */
  lemma {:induction false} RowClosed(total: int, d1: int, k: nat)
    ensures Row(total, d1, k) == if 1 <= total - d1 <= k then [(d1, total - d1)] else []
  {
    if k > 0 {
      RowClosed(total, d1, k - 1);
    }
  }

  lemma {:induction false} GridClosed(total: int, m: nat)
    requires m <= 6
    ensures Grid(total, m) == Span(total, m)
  {
    if m > 0 {
      GridClosed(total, m - 1);
      RowClosed(total, m, 6);
      var lo := LowFace(total);
      if total - 6 <= m <= total - 1 {
        assert SpanCount(total, m) == SpanCount(total, m - 1) + 1;
        assert SpanCount(total, m - 1) == m - lo;
        assert Span(total, m) == Span(total, m - 1) + [(m, total - m)];
      } else {
        assert SpanCount(total, m) == SpanCount(total, m - 1);
        assert Span(total, m) == Span(total, m - 1);
      }
    }
  }

  /** The number of decompositions: 6 - |total - 7| on [2, 12], none elsewhere. */
  function PairCount(total: int): int
  {
    if 2 <= total <= 12 then 6 - (if total >= 7 then total - 7 else 7 - total) else 0
  }

  lemma SpanCountIsPairCount(total: int)
    ensures SpanCount(total, 6) == PairCount(total)
  {
  }

  /**
   * `pairs` holds every ordered decomposition and nothing else, ordered by
   * strictly increasing first face (so each one exactly once), and has
   * 6 - |total - 7| entries: total 2 yields only (1, 1).
   */
  lemma DecompositionsSpec(total: int)
    ensures |Decompositions(total)| == PairCount(total)
    ensures forall i :: 0 <= i < |Decompositions(total)| ==> IsDecomposition(total, Decompositions(total)[i])
    ensures forall p :: IsDecomposition(total, p) ==> p in Decompositions(total)
    ensures forall i, j :: 0 <= i < j < |Decompositions(total)| ==>
              Decompositions(total)[i].0 < Decompositions(total)[j].0
  {
    GridClosed(total, 6);
    var ps := Decompositions(total);
    var lo := LowFace(total);
    forall p | IsDecomposition(total, p) ensures p in ps {
      var i := p.0 - lo;
      assert 0 <= i < |ps| && ps[i] == p;
    }
  }

  /** Total 2 has the single decomposition (1, 1); total 12 has only (6, 6). */
  lemma ExtremeTotals()
    ensures Decompositions(2) == [(1, 1)]
    ensures Decompositions(12) == [(6, 6)]
  {
    GridClosed(2, 6);
    GridClosed(12, 6);
  }

  /**
   * The pair `pickDiceForTotal(total)` returns for the draw `u` of `randomInt`:
   * entry number `randomInt(0, n - 1)` of the closed form, (1, 1) when n is 0.
   * For a total in [2, 12] it is a genuine decomposition; outside that range
   * there is none and the fallback (1, 1) is returned.
   */
  function DiceForTotal(total: int, u: real): (p: Pair)
    requires IsDraw(u)
    ensures 2 <= total <= 12 ==> IsDecomposition(total, p)
    ensures !(2 <= total <= 12) ==> p == (1, 1)
  {
    var n := PairCount(total);
    if n == 0 then (1, 1)
    else
      var k := RandomInt(0, n - 1, u);
      (LowFace(total) + k, total - LowFace(total) - k)
  }

  /**
   * The pair chosen is the entry of `pairs` at the index `randomInt(0, n - 1)`
   * draws, and that index lies within the list.
   */
  lemma DiceForTotalIsListEntry(total: int, u: real)
    requires IsDraw(u) && |Decompositions(total)| > 0
    ensures 0 <= RandomInt(0, |Decompositions(total)| - 1, u) < |Decompositions(total)|
    ensures DiceForTotal(total, u) == Decompositions(total)[RandomInt(0, |Decompositions(total)| - 1, u)]
  {
    GridClosed(total, 6);
    SpanCountIsPairCount(total);
  }

  /**
   * Every decomposition is chosen from a sub-interval of draws of the same
   * width 1 / n: the k-th pair exactly for `u` in [k/n, (k+1)/n).
   */
  lemma DiceForTotalUniform(total: int, u: real, k: nat)
    requires IsDraw(u) && k < |Decompositions(total)|
    ensures var n := |Decompositions(total)| as real;
      DiceForTotal(total, u) == Decompositions(total)[k] <==>
        (k as real) / n <= u < ((k + 1) as real) / n
  {
    DecompositionsSpec(total);
    DiceForTotalIsListEntry(total, u);
    var ps := Decompositions(total);
    RandomIntInterval(0, |ps| - 1, u, k);
    var j := RandomInt(0, |ps| - 1, u);
    assert ps[j] == ps[k] ==> j == k by {
      if j < k { assert ps[j].0 < ps[k].0; }
      if k < j { assert ps[k].0 < ps[j].0; }
    }
  }

  /** The nested loops of `pickDiceForTotal`, then the choice of one pair. */
  method PickDiceForTotal(total: int, u: real) returns (d1: int, d2: int)
    requires IsDraw(u)
    ensures (d1, d2) == DiceForTotal(total, u)
    ensures 2 <= total <= 12 ==> IsDecomposition(total, (d1, d2))
    ensures !(2 <= total <= 12) ==> (d1, d2) == (1, 1)
  {
    var pairs: seq<Pair> := [];
    for a := 1 to 7
      invariant pairs == Grid(total, a - 1)
    {
      for b := 1 to 7
        invariant pairs == Grid(total, a - 1) + Row(total, a, b - 1)
      {
        if a + b == total {
          pairs := pairs + [(a, b)];
        }
      }
    }
    DecompositionsSpec(total);
    if |pairs| == 0 {
      return 1, 1;
    }
    DiceForTotalIsListEntry(total, u);
    var p := pairs[RandomInt(0, |pairs| - 1, u)];
    d1, d2 := p.0, p.1;
  }
}
