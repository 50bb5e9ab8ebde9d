/** The wheel: where it puts the Kitchen's tools, and how a frame moves them there. */
module Crank {
  const PERIOD := 6.0
  const PEEL_END := 0.8

  function Max(a: real, b: real): real { if a < b then b else a }

  function Min(a: real, b: real): real { if b < a then b else a }

  function Abs(x: real): real { if x < 0.0 then -x else x }

  function EaseStep(diff: real, dt: real): real { if Abs(diff) < 0.02 then diff else diff * Min(1.0, dt * 16.0) }

  /** Ease phase toward target, at most 0.45 of a period a frame. */
  function Ease(phase: real, target: real, period: real, dt: real): real {
    var diff := target - phase;
    if Abs(diff) <= 0.001 then phase
    else phase + Max(-(period * 0.45), Min(period * 0.45, EaseStep(diff, dt)))
  }

  predicate Moved(phase: real, target: real) { Abs(target - phase) > 0.001 }

  lemma NotMoved(phase: real, target: real, dt: real)
    ensures !Moved(phase, target) ==> Ease(phase, target, PERIOD, dt) == phase
  {
  }

  // ---- The wheel's side ----

  /** The strip a position lies in. */
  function Strip(p: real): int { (p / PERIOD).Floor }

  function Start(k: int): real { k as real * PERIOD }

  /** The end of strip k's stroke; the rest of the period lifts the peeler back. */
  function Bottom(k: int): real { Start(k) + PERIOD * PEEL_END }

  predicate Returning(target: real) { target >= Bottom(Strip(target)) - 0.001 }

  /** Wheel down (positive) drives the stroke, wheel up lifts the peeler through the return. */
  function PeelerTarget(target: real, notches: real): real {
    var bottom := Bottom(Strip(target));
    if notches >= 0.0 then
      if Returning(target) then Max(target - notches, bottom) else Min(target + notches, bottom)
    else if Returning(target) then Min(target - notches, Start(Strip(target)) + PERIOD)
    else Max(target + notches, Start(Strip(target)))
  }

  function KnifeTarget(target: real, notches: real, travel: real): real { Max(0.0, Min(target + notches, travel)) }

  /** The knife goes to the place p of its travel that is nearest to where the wheel wants it. */
  lemma KnifeOnTravel(target: real, notches: real, travel: real, p: real)
    requires 0.0 <= p <= travel
    ensures 0.0 <= KnifeTarget(target, notches, travel) <= travel
    ensures Abs(KnifeTarget(target, notches, travel) - (target + notches)) <= Abs(p - (target + notches))
  {
  }

  lemma StripBounds(p: real)
    ensures Start(Strip(p)) <= p < Start(Strip(p)) + PERIOD
    ensures forall k: int :: Start(k) <= p < Start(k) + PERIOD ==> k == Strip(p)
  {
  }

  /**
   The target never leaves its strip but by the top, where the next one starts; from the stroke it does not
   pass the bottom, from the return it does not come back over it; and it follows the wheel otherwise.
   */
  lemma TargetKeepsStrip(target: real, notches: real)
    ensures var t := PeelerTarget(target, notches);
            var k := Strip(target);
            Strip(target) <= Strip(t) && Start(k) <= t <= Start(k + 1) &&
            (Returning(target) ==> Min(target, Bottom(k)) <= t) &&
            (!Returning(target) ==> t <= Bottom(k)) &&
            (Start(k) < t < Start(k + 1) && t != Bottom(k) ==>
               t == if Returning(target) then target - notches else target + notches)
  {
    StripBounds(target);
    StripBounds(PeelerTarget(target, notches));
  }

  predicate Within(p: real, low: real, high: real) { low <= p <= high }

  /** Of two places at least as near to a third. */
  predicate AsNear(t: real, p: real, goal: real) { Abs(t - goal) <= Abs(p - goal) }

  /**
   On the stroke the target goes as near as it can, between start and bottom, to where the wheel pushes it; on the
   return the wheel pulls it the other way, up as near as it can to the top, or back as near as it can to the bottom.
   */
  lemma TargetIsNearest(target: real, notches: real, p: real)
    ensures var t, k := PeelerTarget(target, notches), Strip(target);
            var start, bottom, top := Start(k), Bottom(k), Start(k + 1);
            if !Returning(target) then
              Within(t, start, bottom) && (Within(p, start, bottom) ==> AsNear(t, p, target + notches))
            else if notches >= 0.0 then
              Within(t, bottom, top) && (Within(p, bottom, top) ==> AsNear(t, p, target - notches))
            else Within(t, target, top) && (Within(p, target, top) ==> AsNear(t, p, target - notches))
  {
    StripBounds(target);
  }

  lemma EaseBetween(phase: real, target: real, dt: real)
    requires dt >= 0.0
    ensures var p := Ease(phase, target, PERIOD, dt);
            (phase <= target ==> phase <= p <= target) && (target <= phase ==> target <= p <= phase) &&
            Abs(p - phase) <= PERIOD * 0.45
  {
    EaseStepBetween(target - phase, dt);
    hide EaseStep;
  }

  lemma EaseStepBetween(diff: real, dt: real)
    requires dt >= 0.0
    ensures if diff >= 0.0 then 0.0 <= EaseStep(diff, dt) <= diff else diff <= EaseStep(diff, dt) <= 0.0
  {
  }
}
