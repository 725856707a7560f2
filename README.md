# Loaded dice of the anchor-and-adjust demo

This project models the loaded-dice outcome generator of the anchor-and-adjust
demo (`app.js`), a browser page that shows an estimation question and then
rolls two dice whose total is biased toward an anchor the user chose. The model
covers how a total is drawn from the anchor's weight table, how that total is
turned into two die faces, and the timed animation that ends in exactly one
shown and saved result.

Randomness is explicit. Every call of `Math.random()` is a parameter: a real
draw `u` with `0 <= u < 1` (`Random.IsDraw`). Arithmetic on those draws is exact
real arithmetic.

- `random.dfy` (module `Random`): `randomInt(min, max)`.
- `weighted.dfy` (module `Weighted`): `weightedPick`. The method keeps the
  source's loop, which subtracts each weight from the running remainder `r`.
  Its specification is `FirstCovering`: the least index whose cumulative weight
  reaches the scaled draw, or `None` when the walk would reach the fallback.
- `loaded.dfy` (module `Loaded`): `pickLoadedTotal`. The string `"low"` selects
  `[2,3,4,5]` with weights `[1,3,3,1]`. Every other string, not only `"high"`,
  selects `[8,9,10]` with weights `[2,3,2]`. `LoadedTotal` states the result by
  the cumulative-weight intervals of the chosen table. `LowTotals` and
  `HighTotals` prove that `weightedPick` on each table agrees with it.
- `pairs.dfy` (module `Pairs`): `pickDiceForTotal`. The method keeps the two
  nested loops that push pairs. `Row` and `Grid` describe what the loops have
  pushed so far. `Span` is an independent closed form of the finished list.
  `DiceForTotal` states the chosen pair through that closed form.
- `animation.dfy` (module `Animation`): the interval callback of
  `animateAndRoll` and the default anchor of the roll click handler. A `Roll`
  object moves Idle → Animating → Resolved. Each call of `Tick` is one firing of
  the 80 ms interval. `RunAnimation` drives a whole roll from a sequence of
  per-tick draws.
- `wrappers.dfy` (module `Wrappers`): an `Option` type.

Every anchor other than `"low"`, including unexpected strings, takes the high
table (`Loaded.HighTotals`).

## Model

| member | source | states |
|---|---|---|
| `Random.RandomInt` | app.js:101-103 | `floor(u * (max - min + 1)) + min` lies in `[min, max]` whenever `min <= max` |
| `Random.RandomIntInterval` | app.js:101-103 | result `min + k` is produced exactly by the draws in `[k/n, (k+1)/n)`, so every result gets an interval of the same width `1/n` |
| `Weighted.Prefix` | app.js:123 | the running total of the first `k` weights is non-negative when none of them is negative |
| `Weighted.Sum` | app.js:123 | the `reduce` from 0 over non-negative weights gives a non-negative total |
| `Weighted.Scaled` | app.js:124 | `r = Math.random() * sum` lies in `[0, sum)` whenever the total weight is positive |
| `Weighted.FirstCoveringFrom` | app.js:125-127 | the walk started at index `i` stops at the first index `j >= i` whose cumulative weight reaches `r`; `None` when no such index remains |
| `Weighted.FirstCovering` | app.js:124-127 | the walk stops at the least index whose cumulative weight reaches `r`; it yields `None` (the fallback) exactly when no index does |
| `Weighted.Pick` | app.js:122-129 | the value chosen for a scaled draw, fallback included, is always an element of `values` |
| `Weighted.WeightedPick` | app.js:122-129 | the loop that subtracts each weight from `r = u * sum` returns `Pick(values, weights, u * sum)` |
| `Weighted.FallbackUnreachable` | app.js:125-128 | when `r` is at most the total weight, the walk returns from inside the loop and the last-value fallback is never taken |
| `Weighted.DrawNeverFallsBack` | app.js:123-128 | for a non-negative total weight, no draw of `Math.random()` reaches the fallback |
| `Weighted.PrefixMonotone` | app.js:123-126 | with no negative weight, cumulative weights never decrease along the table |
| `Weighted.PickInterval` | app.js:124-127 | with non-negative weights, index `i` is chosen exactly for `r` in `(w[0]+…+w[i-1], w[0]+…+w[i]]` (closed at 0 for `i = 0`), an interval of width `w[i]` |
| `Loaded.TableFor` | app.js:108-119 | the table chosen for any anchor has equal-length, non-empty value and weight lists with positive weights |
| `Loaded.LoadedTotal` | app.js:108-119 | the total drawn for `"low"` is in `{2,3,4,5}`; for any other anchor, the silent else-branch included, it is in `{8,9,10}` |
| `Loaded.PickLoadedTotal` | app.js:108-120 | the branch on the anchor followed by `weightedPick` returns `LoadedTotal(anchor, u)` |
| `Loaded.LowTotals` | app.js:109-113 | `"low"` selects `[2,3,4,5]` with weights `[1,3,3,1]`, and `weightedPick` on it gives 2 for `r = 8u <= 1`, 3 for `r <= 4`, 4 for `r <= 7`, else 5, so 3 and 4 each get three times the room of 2 or 5 and the fallback is never taken |
| `Loaded.HighTotals` | app.js:114-119 | any anchor other than `"low"` selects `[8,9,10]` with weights `[2,3,2]`, and `weightedPick` on it gives 8 for `r = 7u <= 2`, 9 for `r <= 5`, else 10, and the fallback is never taken |
| `Pairs.RowClosed` | app.js:135-137 | the inner loop for face `d1` pushes only `(d1, total - d1)`, and only when that second face is in the tried range |
| `Pairs.GridClosed` | app.js:133-138 | after rows `1..m`, `pairs` is `(lo, total - lo), (lo + 1, total - lo - 1), …` with `lo = max(1, total - 6)`, up to first face `min(m, total - 1)` |
| `Pairs.SpanCountIsPairCount` | app.js:133-138 | the closed form has `6 - abs(total - 7)` entries on `[2, 12]` and none elsewhere |
| `Pairs.DecompositionsSpec` | app.js:133-138 | the finished list contains every ordered decomposition of `total` into faces 1..6 and nothing else, with strictly increasing first faces (so each one exactly once), and its length is `6 - abs(total - 7)` on `[2, 12]` and 0 elsewhere |
| `Pairs.ExtremeTotals` | app.js:133-138 | total 2 yields only `(1, 1)` and total 12 only `(6, 6)` |
| `Pairs.DiceForTotal` | app.js:131-140 | for a total in `[2, 12]` the chosen pair has both faces in `[1, 6]` and adds up to the total; outside `[2, 12]` it is `(1, 1)` |
| `Pairs.DiceForTotalIsListEntry` | app.js:139-140 | when the list is non-empty, the index drawn by `randomInt(0, n - 1)` lies within it, and the pair chosen is the list entry at that index |
| `Pairs.DiceForTotalUniform` | app.js:139-140 | the `k`-th decomposition is chosen exactly for draws in `[k/n, (k+1)/n)`, so each pair gets an interval of the same width |
| `Pairs.PickDiceForTotal` | app.js:132-141 | the nested loops and the choice return `DiceForTotal(total, u)`; a genuine decomposition for totals in `[2, 12]`, `(1, 1)` without failing otherwise |
| `Animation.RollOutcome` | app.js:182-183 | `pickLoadedTotal(anchor)` then `pickDiceForTotal(total)` computes `Outcome(anchor, d)` |
| `Animation.Outcome` | app.js:182-183 | the outcome has faces in `[1, 6]` that add up to its total, and the total is in the anchor's range |
| `Animation.ChosenAnchor` | app.js:234-235 | the anchor passed to `animateAndRoll` is the checked radio's value, or `"low"` when no radio is checked |
| `Animation.UncheckedAnchorRollsLow` | app.js:234-236 | a roll clicked with no anchor checked uses `"low"` and draws a total in `{2,3,4,5}` |
| `Animation.Roll.constructor` | app.js:148-152 | the dice section before a roll: faces show "-", no result, nothing saved, phase Idle |
| `Animation.Roll.Start` | app.js:167-175 | `animateAndRoll(anchor)` sets `elapsed` to 0 and starts the interval: Idle → Animating |
| `Animation.Roll.Tick` | app.js:175-195 | one tick adds 80 to `elapsed` and shows two faces drawn by `randomInt(1, 6)`; it resolves exactly when `elapsed >= 1200`, showing and saving the one outcome; once resolved, further ticks change nothing |
| `Animation.Roll.Advance` | app.js:176-177 | the frame of a tick: two faces from `randomInt(1, 6)` and `elapsed` grows by exactly 80 |
| `Animation.Roll.Resolve` | app.js:178-191 | the interval is cleared (phase Resolved) before the outcome is computed; the outcome is shown as the faces and the result line and saved exactly once |
| `Animation.RunAnimation` | app.js:167-196 | a roll resolves on tick 15, the first with `elapsed >= 1200`, using that tick's draws; the saved results are exactly that one outcome, with `d1 + d2 == total`, however many ticks follow |

## Left out

- DOM work (`show`, `hide`, `setDiceFaces`'s text, `clearDice`, the selection UI, the `rolling` and `showing-result` classes, the question list and display): UI glue. The model keeps only the shown faces and the result line as fields of `Roll`.
- `localStorage`, `save`, `load`, `restoreQuestionIfAny` and `init`: I/O. A save is modelled as an entry appended to `Roll.saves`.
- The timestamp `Date.now()` in the saved result: a clock.
- The real `setInterval` timer and its timing: ticks are calls of `Roll.Tick`, one per firing, not real time.
- Floating-point behaviour of `Math.random()` and `Math.floor`: draws are exact reals in `[0, 1)` and the arithmetic on them is exact. IEEE rounding is not modelled.
- Cancelling a roll mid-animation: the code has no way to do it, so neither does the model.
- Event wiring in `bindEvents`, except the default anchor of the roll handler. This includes the `anchorRadios.forEach` call in the hide-results handler, which calls `forEach` on a function.
- The hard-coded question catalogue: static data.
- Statistical frequencies: the model states the structural facts instead, namely the width of each value's draw interval and the count of pairs.
- Weighted.WeightedPick: requires non-empty `values` and a `weights` list of the same length. With other inputs the JavaScript reads `undefined` or computes `NaN`, which the model does not represent. Both callers pass fixed tables that meet this.
- Animation.Roll.Tick: requires that the roll has been started. The interval that calls it exists only after `animateAndRoll` runs.
