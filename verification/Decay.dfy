/**
 The reputation decay curve over real arithmetic; `round` is half away from zero.
 */
module Decay {

  function Clamp01(x: real): real {
    if x < 0.0 then 0.0 else if x > 1.0 then 1.0 else x
  }

  function AccuracyRatio(accurate: int, total: int): real {
    if total <= 0 then 0.0 else Clamp01(accurate as real / total as real)
  }

  function RoundHalfAway(x: real): int {
    if x >= 0.0 then (x + 0.5).Floor else -((-x + 0.5).Floor)
  }

  /** The accuracy-extended horizon: from one horizon at accuracy 0 to two at accuracy 1. */
  function Horizon(horizonDays: nat, accuracy: real): real {
    horizonDays as real * (1.0 + Clamp01(accuracy))
  }

  /** The elapsed share of a positive horizon. */
  function Elapsed(days: int, graceDays: nat, horizon: real): real
    requires horizon > 0.0
  {
    Clamp01((days - graceDays) as real / horizon)
  }

  function Remaining(earned: real, floor: real, share: real): real {
    earned - share * (earned - floor)
  }

  function Decayed(earned: int, floor: int, share: real): int {
    RoundHalfAway(Remaining(earned as real, floor as real, share))
  }

  function EffectiveScore(earned: int, days: int, accuracy: real, graceDays: nat, horizonDays: nat, floor: int): int {
    if earned <= floor then earned
    else if days <= graceDays then earned
    else
      var horizon := Horizon(horizonDays, accuracy);
      if horizon <= 0.0 then floor else Decayed(earned, floor, Elapsed(days, graceDays, horizon))
  }

  lemma RoundMonotone(x: real, y: real)
    requires x <= y
    ensures RoundHalfAway(x) <= RoundHalfAway(y)
  {
    if x < 0.0 <= y {
      assert (-x + 0.5).Floor >= 0 && (y + 0.5).Floor >= 0;
    }
  }

  lemma RoundOfInt(n: int)
    ensures RoundHalfAway(n as real) == n
  {
  }

  lemma ScaleMonotone(a: real, b: real, c: real)
    requires a <= b && 0.0 <= c
    ensures a * c <= b * c && c * a <= c * b
  {
  }

  /** Shrinking the numerator or stretching a positive denominator never raises a non-negative quotient. */
  lemma QuotientMonotone(a: real, b: real, p: real, q: real)
    requires 0.0 <= a <= b && 0.0 < q <= p
    ensures a / p <= b / q
  {
    var x := b / q;
    assert x * q == b;
    ScaleMonotone(q, p, x);
    assert a <= x * p;
    assert a / p <= (x * p) / p;
  }

  lemma RemainingAntitone(earned: real, floor: real, s: real, t: real)
    requires floor <= earned && s <= t
    ensures Remaining(earned, floor, t) <= Remaining(earned, floor, s)
  {
    ScaleMonotone(s, t, earned - floor);
  }

  /** A larger share leaves a lower score. */
  lemma DecayedAntitone(earned: int, floor: int, s: real, t: real)
    requires floor <= earned && s <= t
    ensures Decayed(earned, floor, t) <= Decayed(earned, floor, s)
  {
    hide Remaining, RoundHalfAway;
    RemainingAntitone(earned as real, floor as real, s, t);
    RoundMonotone(Remaining(earned as real, floor as real, t), Remaining(earned as real, floor as real, s));
  }

  lemma DecayedEnds(earned: int, floor: int)
    ensures Decayed(earned, floor, 0.0) == earned && Decayed(earned, floor, 1.0) == floor
  {
    RoundOfInt(earned);
    RoundOfInt(floor);
  }

  /** The horizon is zero exactly when configured so, and otherwise grows with accuracy. */
  lemma HorizonGrows(horizonDays: nat, a1: real, a2: real)
    requires a1 <= a2
    ensures Horizon(horizonDays, a1) <= Horizon(horizonDays, a2)
    ensures Horizon(horizonDays, a1) > 0.0 <==> Horizon(horizonDays, a2) > 0.0
    ensures Horizon(horizonDays, a1) > 0.0 <==> horizonDays > 0
  {
    var h, x1, x2 := horizonDays as real, 1.0 + Clamp01(a1), 1.0 + Clamp01(a2);
    ScaleMonotone(1.0, x1, h);
    ScaleMonotone(x1, x2, h);
    assert h <= h * x1 <= h * x2;
    assert horizonDays == 0 ==> h * x1 == 0.0 && h * x2 == 0.0;
  }

  /** Decay never leaves the band between the floor and what was earned, and never touches who is at or below the floor. */
  lemma EffectiveIsBounded(earned: int, days: int, accuracy: real, graceDays: nat, horizonDays: nat, floor: int)
    ensures var e := EffectiveScore(earned, days, accuracy, graceDays, horizonDays, floor);
            && e <= earned
            && (earned > floor ==> floor <= e)
            && (earned <= floor ==> e == earned)
  {
    hide Decayed, Horizon;
    var horizon := Horizon(horizonDays, accuracy);
    if earned > floor && days > graceDays && horizon > 0.0 {
      var share := Elapsed(days, graceDays, horizon);
      DecayedEnds(earned, floor);
      DecayedAntitone(earned, floor, 0.0, share);
      DecayedAntitone(earned, floor, share, 1.0);
    }
  }

  /** More days or a shorter horizon never lower the elapsed share. */
  lemma ElapsedMonotone(d1: int, d2: int, graceDays: nat, h1: real, h2: real)
    requires graceDays <= d1 <= d2 && 0.0 < h2 <= h1
    ensures Elapsed(d1, graceDays, h1) <= Elapsed(d2, graceDays, h2)
  {
    QuotientMonotone((d1 - graceDays) as real, (d2 - graceDays) as real, h1, h2);
  }

  /** Longer inactivity never raises the effective score, and higher accuracy never lowers it. */
  lemma EffectiveIsMonotone(earned: int, d1: int, d2: int, a1: real, a2: real, graceDays: nat, horizonDays: nat, floor: int)
    requires d1 <= d2 && a2 <= a1
    ensures EffectiveScore(earned, d2, a2, graceDays, horizonDays, floor)
            <= EffectiveScore(earned, d1, a1, graceDays, horizonDays, floor)
  {
    hide Decayed, Horizon, Elapsed;
    EffectiveIsBounded(earned, d1, a1, graceDays, horizonDays, floor);
    EffectiveIsBounded(earned, d2, a2, graceDays, horizonDays, floor);
    HorizonGrows(horizonDays, a2, a1);
    var h1, h2 := Horizon(horizonDays, a1), Horizon(horizonDays, a2);
    if earned > floor && d1 > graceDays && h1 > 0.0 {
      ElapsedMonotone(d1, d2, graceDays, h1, h2);
      DecayedAntitone(earned, floor, Elapsed(d1, graceDays, h1), Elapsed(d2, graceDays, h2));
    }
  }

  // ----- the curve, without naming its parts

  lemma QuotientBelowOne(a: real, h: real)
    requires 0.0 <= a && 0.0 < h
    ensures 0.0 <= a / h && (a <= h ==> a / h <= 1.0) && (a >= h ==> a / h >= 1.0)
  {
    QuotientMonotone(0.0, a, h, h);
    assert h / h == 1.0;
    if a <= h {
      QuotientMonotone(a, h, h, h);
    }
    if a >= h {
      QuotientMonotone(h, a, h, h);
    }
  }

  /** The curve is complete at its ends: untouched within grace, exactly the floor from the full extended horizon on. */
  lemma DecayReachesFloor(earned: int, days: int, accuracy: real, graceDays: nat, horizonDays: nat, floor: int)
    requires earned > floor && 0.0 <= accuracy <= 1.0
    ensures days <= graceDays ==> EffectiveScore(earned, days, accuracy, graceDays, horizonDays, floor) == earned
    ensures days > graceDays && (days - graceDays) as real >= horizonDays as real * (1.0 + accuracy) ==>
              EffectiveScore(earned, days, accuracy, graceDays, horizonDays, floor) == floor
  {
    hide Decayed;
    var h := Horizon(horizonDays, accuracy);
    if days > graceDays && h > 0.0 && (days - graceDays) as real >= h {
      QuotientBelowOne((days - graceDays) as real, h);
      DecayedEnds(earned, floor);
    }
  }

  /** `n` is `x` rounded to the nearest integer, a half going away from zero. */
  predicate IsRounded(n: int, x: real) {
    if x >= 0.0 then x - 0.5 < n as real <= x + 0.5 else x - 0.5 <= n as real < x + 0.5
  }

  lemma RoundIsNearest(x: real)
    ensures IsRounded(RoundHalfAway(x), x)
  {
  }

  lemma ProductOverQuotient(a: real, b: real, h: real)
    requires h > 0.0
    ensures a / h * b == b * a / h
  {
    assert a / h * h == a;
    assert (b * a / h) * h == b * a;
    assert (a / h * b) * h == b * a;
  }

  /** The straight line from `earned` at zero to `floor` at `h`. */
  function Line(earned: int, floor: int, over: real, h: real): real
    requires h > 0.0
  {
    earned as real - (earned - floor) as real * over / h
  }

  lemma RemainingIsLine(earned: int, floor: int, over: real, h: real)
    requires h > 0.0
    ensures Remaining(earned as real, floor as real, over / h) == Line(earned, floor, over, h)
  {
    ProductOverQuotient(over, (earned - floor) as real, h);
    assert earned as real - floor as real == (earned - floor) as real;
  }

  lemma WithinHorizon(earned: int, over: nat, accuracy: real, graceDays: nat, horizonDays: nat, floor: int, h: real)
    requires earned > floor && 0 < over && h == Horizon(horizonDays, accuracy) > 0.0 && over as real <= h
    ensures EffectiveScore(earned, graceDays + over, accuracy, graceDays, horizonDays, floor)
            == RoundHalfAway(Remaining(earned as real, floor as real, over as real / h))
  {
    hide Horizon, Remaining, RoundHalfAway;
    QuotientBelowOne(over as real, h);
  }

  /** Within the extended horizon the score is the straight line from earned to floor, rounded. */
  lemma DecayIsLinear(earned: int, over: nat, accuracy: real, graceDays: nat, horizonDays: nat, floor: int)
    requires earned > floor && 0.0 <= accuracy <= 1.0 && horizonDays > 0 && over > 0
    requires over as real <= horizonDays as real * (1.0 + accuracy)
    ensures horizonDays as real * (1.0 + accuracy) > 0.0
    ensures IsRounded(EffectiveScore(earned, graceDays + over, accuracy, graceDays, horizonDays, floor),
                      Line(earned, floor, over as real, horizonDays as real * (1.0 + accuracy)))
  {
    var h := horizonDays as real * (1.0 + accuracy);
    HorizonGrows(horizonDays, accuracy, accuracy);
    assert h == Horizon(horizonDays, accuracy);
    hide EffectiveScore, Horizon, Remaining, RoundHalfAway, IsRounded, Line;
    WithinHorizon(earned, over, accuracy, graceDays, horizonDays, floor, h);
    RemainingIsLine(earned, floor, over as real, h);
    RoundIsNearest(Line(earned, floor, over as real, h));
  }

  lemma DoubledQuotient(a: real, h: real)
    requires h > 0.0
    ensures 2.0 * a / (h * 2.0) == a / h
  {
    assert a / h * (h * 2.0) == 2.0 * a;
  }

  /** Full accuracy slows decay to half speed. */
  lemma AccuracyStretchesTime(earned: int, over: nat, graceDays: nat, horizonDays: nat, floor: int)
    requires horizonDays > 0
    ensures EffectiveScore(earned, graceDays + 2 * over, 1.0, graceDays, horizonDays, floor)
            == EffectiveScore(earned, graceDays + over, 0.0, graceDays, horizonDays, floor)
  {
    hide Decayed;
    DoubledQuotient(over as real, horizonDays as real);
    assert (2 * over) as real == 2.0 * over as real;
  }

  /** Accuracy outside the unit interval counts as its nearer end. */
  lemma AccuracyIsClamped(earned: int, days: int, accuracy: real, graceDays: nat, horizonDays: nat, floor: int)
    ensures accuracy < 0.0 ==> EffectiveScore(earned, days, accuracy, graceDays, horizonDays, floor)
                               == EffectiveScore(earned, days, 0.0, graceDays, horizonDays, floor)
    ensures accuracy > 1.0 ==> EffectiveScore(earned, days, accuracy, graceDays, horizonDays, floor)
                               == EffectiveScore(earned, days, 1.0, graceDays, horizonDays, floor)
  {
    hide Decayed, Elapsed;
    assert accuracy < 0.0 ==> Horizon(horizonDays, accuracy) == Horizon(horizonDays, 0.0);
    assert accuracy > 1.0 ==> Horizon(horizonDays, accuracy) == Horizon(horizonDays, 1.0);
    hide Horizon;
  }

  /** The accuracy is the share of accurate reports, and zero when there are none. */
  lemma AccuracyIsShare(accurate: int, total: int)
    ensures 0.0 <= AccuracyRatio(accurate, total) <= 1.0
    ensures 0 <= accurate <= total ==> AccuracyRatio(accurate, total) * total as real == accurate as real
    ensures total <= 0 ==> AccuracyRatio(accurate, total) == 0.0
  {
    if 0 <= accurate <= total && total > 0 {
      QuotientBelowOne(accurate as real, total as real);
      assert accurate as real / total as real * total as real == accurate as real;
    }
  }
}
