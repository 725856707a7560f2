/**
 * The roll of app.js: the click handler picks the anchor, `animateAndRoll`
 * starts an 80 ms interval whose callback shows two random faces and adds 80
 * to `elapsed`; on the tick where `elapsed` reaches 1200 it clears the
 * interval, computes the one loaded outcome, shows it and saves it.
 * The timer is modelled by calls of `Tick`; each call carries the draws that
 * tick would take from `Math.random()`.
 */
module Animation {
  import opened Wrappers
  import opened Random
  import opened Loaded
  import opened Pairs

  const ANIM_MS: int := 1200
  const TICK_MS: int := 80

  /** Idle before the roll button is clicked, Animating while the interval runs, then Resolved. */
  datatype Phase = Idle | Animating | Resolved

  /** The outcome shown as "Result: d1 + d2 = total". */
  datatype RollResult = RollResult(d1: int, d2: int, total: int)

  /** What the tick hands to `save`: the anchor and the result (the timestamp is not modelled). */
  datatype SavedRoll = SavedRoll(anchor: string, result: RollResult)

  /** The four draws of one tick: two animation faces, the weighted pick and the pair choice. */
  datatype TickDraws = TickDraws(face1: real, face2: real, total: real, pair: real)

  predicate IsTickDraws(d: TickDraws)
  {
    IsDraw(d.face1) && IsDraw(d.face2) && IsDraw(d.total) && IsDraw(d.pair)
  }

  /** The faces add up to the total, both lie in [1, 6], and the total is in the anchor's range. */
  predicate IsOutcomeFor(anchor: string, r: RollResult)
  {
    && r.d1 + r.d2 == r.total
    && 1 <= r.d1 <= 6 && 1 <= r.d2 <= 6
    && (anchor == "low" ==> r.total in {2, 3, 4, 5})
    && (anchor != "low" ==> r.total in {8, 9, 10})
  }

  /** `pickLoadedTotal(anchor)` followed by `pickDiceForTotal(total)`. */
  function Outcome(anchor: string, d: TickDraws): (r: RollResult)
    requires IsTickDraws(d)
    ensures IsOutcomeFor(anchor, r)
  {
    var total := LoadedTotal(anchor, d.total);
    var p := DiceForTotal(total, d.pair);
    RollResult(p.0, p.1, total)
  }

  /** The two calls that compute the loaded outcome once the interval is cleared. */
  method RollOutcome(anchor: string, d: TickDraws) returns (o: RollResult)
    requires IsTickDraws(d)
    ensures o == Outcome(anchor, d)
  {
    var total := PickLoadedTotal(anchor, d.total);
    var d1, d2 := PickDiceForTotal(total, d.pair);
    o := RollResult(d1, d2, total);
  }

  /** The anchor of the roll click handler: the checked radio's value, "low" when none is checked. */
  function ChosenAnchor(selected: Option<string>): (anchor: string)
    ensures selected.Some? ==> anchor == selected.value
    ensures selected.None? ==> anchor == "low"
  {
    match selected
    case Some(value) => value
    case None => "low"
  }

  /** A roll started with no anchor checked draws from the low table. */
  lemma UncheckedAnchorRollsLow(d: TickDraws)
    requires IsTickDraws(d)
    ensures Outcome(ChosenAnchor(None), d).total in {2, 3, 4, 5}
  {
  }

  /** One roll of the dice section. */
  class Roll {
    var anchor: string
    var phase: Phase
    var elapsed: int
    /** The faces on die1 and die2; None while they show "-". */
    var faces: Option<Pair>
    /** The result line; None while it is hidden. */
    var result: Option<RollResult>
    /** Every result handed to `save`, oldest first. */
    var saves: seq<SavedRoll>
    /** How many times the interval has fired. */
    ghost var ticks: nat

    ghost predicate Valid()
      reads this
    {
      && elapsed == ticks * TICK_MS
      && (phase == Idle ==> elapsed == 0 && faces == None && result == None && saves == [])
      && (phase == Animating ==> elapsed < ANIM_MS && result == None && saves == [])
      && (phase == Resolved ==>
            && elapsed == ANIM_MS
            && result.Some?
            && IsOutcomeFor(anchor, result.value)
            && faces == Some((result.value.d1, result.value.d2))
            && saves == [SavedRoll(anchor, result.value)])
    }

    /** The dice section after `clearDice`: faces "-", no result. */
    constructor ()
      ensures Valid() && phase == Idle
    {
      anchor := "low";
      phase := Idle;
      elapsed := 0;
      faces := None;
      result := None;
      saves := [];
      ticks := 0;
    }

    /** `animateAndRoll(anchor)`: `elapsed` starts at 0 and the interval is set. */
    method Start(a: string)
      requires Valid() && phase == Idle
      modifies this
      ensures Valid() && phase == Animating && anchor == a && elapsed == 0
      ensures faces == old(faces) && result == old(result) && saves == old(saves)
    {
      anchor := a;
      elapsed := 0;
      ticks := 0;
      phase := Animating;
    }

    /**
     * One firing of the interval callback. Once the interval is cleared the
     * callback no longer runs, so a tick after resolution changes nothing.
     */
    method Tick(d: TickDraws)
      requires Valid() && IsTickDraws(d) && phase != Idle
      modifies this
      ensures Valid() && anchor == old(anchor)
      ensures old(phase) == Resolved ==>
                phase == Resolved && elapsed == old(elapsed) && faces == old(faces)
                && result == old(result) && saves == old(saves)
      ensures old(phase) == Animating ==> elapsed == old(elapsed) + TICK_MS
      ensures old(phase) == Animating ==> (phase == Resolved <==> elapsed >= ANIM_MS)
      ensures old(phase) == Animating && phase == Animating ==>
                faces == Some((RandomInt(1, 6, d.face1), RandomInt(1, 6, d.face2)))
                && result == None && saves == []
      ensures old(phase) == Animating && phase == Resolved ==>
                var o := Outcome(anchor, d);
                faces == Some((o.d1, o.d2)) && result == Some(o) && saves == [SavedRoll(anchor, o)]
    {
      if phase != Animating {
        return;
      }
      Advance(d);
      if elapsed >= ANIM_MS {
        Resolve(d);
      }
    }

    /** The animation frame: two random faces, and 80 more milliseconds elapsed. */
    method Advance(d: TickDraws)
      requires Valid() && IsTickDraws(d) && phase == Animating
      modifies this
      ensures anchor == old(anchor) && phase == Animating && ticks == old(ticks) + 1
      ensures elapsed == old(elapsed) + TICK_MS && elapsed == ticks * TICK_MS
      ensures elapsed <= ANIM_MS
      ensures faces == Some((RandomInt(1, 6, d.face1), RandomInt(1, 6, d.face2)))
      ensures result == None && saves == []
    {
      faces := Some((RandomInt(1, 6, d.face1), RandomInt(1, 6, d.face2)));
      elapsed := elapsed + TICK_MS;
      ticks := ticks + 1;
    }

    /** The interval is cleared, then the one loaded outcome is shown and saved. */
    method Resolve(d: TickDraws)
      requires IsTickDraws(d) && phase == Animating && elapsed == ticks * TICK_MS == ANIM_MS
      requires result == None && saves == []
      modifies this
      ensures Valid() && anchor == old(anchor) && phase == Resolved && elapsed == old(elapsed)
      ensures var o := Outcome(anchor, d);
                faces == Some((o.d1, o.d2)) && result == Some(o) && saves == [SavedRoll(anchor, o)]
    {
      phase := Resolved;
      var o := RollOutcome(anchor, d);
      faces := Some((o.d1, o.d2));
      result := Some(o);
      saves := saves + [SavedRoll(anchor, o)];
    }
  }

  /**
   * A whole roll: start, then fire the interval once per element of `draws`.
   * The roll resolves on tick 15, the first tick at which `elapsed` reaches
   * 1200, with the draws of that tick; exactly one result is saved however
   * many ticks follow.
   */
  method RunAnimation(anchor: string, draws: seq<TickDraws>)
    returns (outcome: RollResult, resolvedOn: nat, saves: seq<SavedRoll>)
    requires |draws| >= 15
    requires forall i :: 0 <= i < |draws| ==> IsTickDraws(draws[i])
    ensures resolvedOn == 15
    ensures resolvedOn * TICK_MS >= ANIM_MS && (resolvedOn - 1) * TICK_MS < ANIM_MS
    ensures outcome == Outcome(anchor, draws[14])
    ensures IsOutcomeFor(anchor, outcome)
    ensures saves == [SavedRoll(anchor, outcome)]
  {
    var roll := new Roll();
    roll.Start(anchor);
    resolvedOn := 0;
    for k := 0 to |draws|
      invariant roll.Valid() && roll.anchor == anchor
      invariant k < 15 ==> roll.phase == Animating && roll.elapsed == k * TICK_MS && resolvedOn == 0
      invariant k >= 15 ==>
                  roll.phase == Resolved && resolvedOn == 15
                  && roll.result == Some(Outcome(anchor, draws[14]))
    {
      var before := roll.phase;
      roll.Tick(draws[k]);
      if before == Animating && roll.phase == Resolved {
        resolvedOn := k + 1;
      }
      if k < 14 {
        assert roll.elapsed == (k + 1) * TICK_MS < ANIM_MS;
      } else if k == 14 {
        assert roll.elapsed == ANIM_MS && roll.phase == Resolved;
      } else {
        assert before == Resolved && roll.phase == Resolved;
      }
    }
    outcome := roll.result.value;
    saves := roll.saves;
  }
}
