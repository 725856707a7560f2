/**
 * `pickLoadedTotal` in app.js: the anchor chooses one of two fixed weight
 * tables and `weightedPick` draws a total from it. Only the exact string
 * "low" selects the low table; every other anchor, not just "high", falls
 * through to the high table.
 */
module Loaded {
  import opened Random
  import opened Weighted

  /** Candidate totals and their weights, position by position. */
  datatype Table = Table(values: seq<int>, weights: seq<int>)

  const LowTable: Table := Table([2, 3, 4, 5], [1, 3, 3, 1])
  const HighTable: Table := Table([8, 9, 10], [2, 3, 2])

  /** The table the anchor selects; both are well formed. */
  function TableFor(anchor: string): (t: Table)
    ensures |t.values| == |t.weights| > 0
    ensures forall i :: 0 <= i < |t.weights| ==> t.weights[i] > 0
  {
    if anchor == "low" then LowTable else HighTable
  }

  /**
   * The total the draw `u` of `Math.random()` yields for the anchor, stated by
   * the cumulative-weight intervals of the two tables.
   */
  function LoadedTotal(anchor: string, u: real): (total: int)
    requires IsDraw(u)
    ensures anchor == "low" ==> total in {2, 3, 4, 5}
    ensures anchor != "low" ==> total in {8, 9, 10}
  {
    if anchor == "low" then
      var r := 8.0 * u;
      if r <= 1.0 then 2 else if r <= 4.0 then 3 else if r <= 7.0 then 4 else 5
    else
      var r := 7.0 * u;
      if r <= 2.0 then 8 else if r <= 5.0 then 9 else 10
  }

  /** `pickLoadedTotal(anchor)` with the draw of `weightedPick` as `u`. */
  method PickLoadedTotal(anchor: string, u: real) returns (total: int)
    requires IsDraw(u)
    ensures total == LoadedTotal(anchor, u)
  {
    if anchor == "low" {
      total := WeightedPick(LowTable.values, LowTable.weights, u);
      LowTotals(u);
    } else {
      total := WeightedPick(HighTable.values, HighTable.weights, u);
      HighTotals(anchor, u);
    }
  }

  /**
   * The low table splits the scaled draw r = 8u into [0, 1] -> 2, (1, 4] -> 3,
   * (4, 7] -> 4 and (7, 8) -> 5: the totals 3 and 4 get three times the room
   * of 2 and 5, and the fallback is never taken.
   */
  lemma LowTotals(u: real)
    requires IsDraw(u)
    ensures var t := TableFor("low");
      t == LowTable && Pick(t.values, t.weights, Scaled(t.weights, u)) == LoadedTotal("low", u)
    ensures FirstCovering(LowTable.weights, Scaled(LowTable.weights, u)).Some?
  {
    var w := LowTable.weights;
    assert Prefix(w, 1) == 1 && Prefix(w, 2) == 4 && Prefix(w, 3) == 7 && Prefix(w, 4) == 8;
    DrawNeverFallsBack(w, u);
  }

  /**
   * Any anchor other than "low" selects the high table, which splits the
   * scaled draw r = 7u into [0, 2] -> 8, (2, 5] -> 9 and (5, 7) -> 10; the
   * fallback is never taken.
   */
  lemma HighTotals(anchor: string, u: real)
    requires IsDraw(u) && anchor != "low"
    ensures var t := TableFor(anchor);
      t == HighTable && Pick(t.values, t.weights, Scaled(t.weights, u)) == LoadedTotal(anchor, u)
    ensures FirstCovering(HighTable.weights, Scaled(HighTable.weights, u)).Some?
  {
    var w := HighTable.weights;
    assert Prefix(w, 1) == 2 && Prefix(w, 2) == 5 && Prefix(w, 3) == 7;
    DrawNeverFallsBack(w, u);
  }
}
