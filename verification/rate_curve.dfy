/**
 The kinked borrow-rate curve of `updateBorrowRate`, as a pure function of a
 market's totals, its curve parameters and the resolved scale factor.

 Utilization is `borrow * scale / supply`. Up to `optimalUtilization` the rate
 climbs linearly from `baseRate` to `rateAtOptimal`; above it, linearly from
 `rateAtOptimal` towards `scale`. Every division is `BigInt.div`, which
 truncates toward zero, and the three divisions by zero have fallbacks.
 */
module RateCurve {
  import opened BigIntMath

  /** The two derived fields `updateBorrowRate` writes. */
  datatype RateState = RateState(utilization: int, borrowRate: int)

  /** `borrow * scale / supply`, the utilization in units of `scale`. For
      non-negative totals and scale, truncation agrees with Euclidean
      division. */
  function Utilization(borrow: int, supply: int, scale: int): (u: int)
    requires supply != 0
    ensures borrow * scale >= 0 && supply > 0 ==> u == borrow * scale / supply
    ensures Abs(u * supply) <= Abs(borrow * scale) < Abs(u * supply) + Abs(supply)
  {
    var u := TDiv(borrow * scale, supply);
    if borrow * scale >= 0 && supply > 0 then TDivNonNegative(borrow * scale, supply); u else u
  }

  /** The borrow rate at utilization `u`, both regimes with their fallbacks. */
  function RateAt(u: int, scale: int, baseRate: int, optimal: int, rateAtOptimal: int): (rate: int)
    ensures u <= optimal && optimal == 0 ==> rate == baseRate
    ensures u > optimal && scale == optimal ==> rate == rateAtOptimal
  {
    if u <= optimal then
      if optimal == 0 then baseRate
      else baseRate + TDiv(u * (rateAtOptimal - baseRate), optimal)
    else
      var maxExcess := scale - optimal;
      if maxExcess == 0 then rateAtOptimal
      else rateAtOptimal + TDiv((u - optimal) * (scale - rateAtOptimal), maxExcess)
  }

  /** The whole computation: no supply or no borrow means zero utilization and
      the base rate, whatever the other parameters are. */
  function Kinked(borrow: int, supply: int, scale: int, baseRate: int, optimal: int, rateAtOptimal: int): (r: RateState)
    ensures supply == 0 || borrow == 0 ==> r == RateState(0, baseRate)
    ensures supply != 0 && borrow != 0 ==>
      && r.utilization == Utilization(borrow, supply, scale)
      && r.borrowRate == RateAt(r.utilization, scale, baseRate, optimal, rateAtOptimal)
  {
    if supply == 0 || borrow == 0 then RateState(0, baseRate)
    else
      var u := Utilization(borrow, supply, scale);
      RateState(u, RateAt(u, scale, baseRate, optimal, rateAtOptimal))
  }

  /** The parameter ordering under which the curve is a sensible rate curve:
      rates between zero and the scale, the kink at most at the scale. A kink
      exactly at the scale leaves no excess regime within `[0, scale]`, and
      above the scale the rate stays at `rateAtOptimal`. */
  predicate Ordered(scale: int, baseRate: int, optimal: int, rateAtOptimal: int) {
    0 <= baseRate <= rateAtOptimal <= scale && optimal <= scale
  }

  /** The curve passes through `baseRate` at zero utilization. */
  lemma RateAtZero(scale: int, baseRate: int, optimal: int, rateAtOptimal: int)
    requires optimal >= 0
    ensures RateAt(0, scale, baseRate, optimal, rateAtOptimal) == baseRate
  {
  }

  /** At the kink the normal segment yields exactly `rateAtOptimal`: the
      truncating division loses nothing there. */
  lemma {:induction false} RateAtKink(scale: int, baseRate: int, optimal: int, rateAtOptimal: int)
    requires optimal > 0
    ensures RateAt(optimal, scale, baseRate, optimal, rateAtOptimal) == rateAtOptimal
  {
    assert optimal * (rateAtOptimal - baseRate) == (rateAtOptimal - baseRate) * optimal;
    TDivExact(rateAtOptimal - baseRate, optimal);
  }

  /** At full utilization (`u == scale`) the excess segment reaches `scale`. */
  lemma {:induction false} RateAtFull(scale: int, baseRate: int, optimal: int, rateAtOptimal: int)
    requires optimal < scale
    ensures RateAt(scale, scale, baseRate, optimal, rateAtOptimal) == scale
  {
    assert (scale - optimal) * (scale - rateAtOptimal) == (scale - rateAtOptimal) * (scale - optimal);
    TDivExact(scale - rateAtOptimal, scale - optimal);
  }

  /** Under the ordering, the normal segment stays within
      `[baseRate, rateAtOptimal]` and truncation agrees with Euclidean
      division. */
  lemma {:induction false} NormalSegment(u: int, scale: int, baseRate: int, optimal: int, rateAtOptimal: int)
    requires Ordered(scale, baseRate, optimal, rateAtOptimal)
    requires 0 <= u <= optimal
    ensures var rate := RateAt(u, scale, baseRate, optimal, rateAtOptimal);
      baseRate <= rate <= rateAtOptimal &&
      (optimal != 0 ==> rate == baseRate + u * (rateAtOptimal - baseRate) / optimal)
  {
    if optimal != 0 {
      var slope := rateAtOptimal - baseRate;
      MulMonotone(0, u, slope);
      TDivNonNegative(u * slope, optimal);
      ScaledFractionBound(u, slope, optimal);
    }
  }

  /** Under the ordering, the excess segment is at least `rateAtOptimal`, at
      most `scale` up to full utilization, and truncation agrees with
      Euclidean division; a kink at the scale gives `rateAtOptimal`. */
  lemma {:induction false} ExcessSegment(u: int, scale: int, baseRate: int, optimal: int, rateAtOptimal: int)
    requires Ordered(scale, baseRate, optimal, rateAtOptimal)
    requires optimal < u
    ensures var rate := RateAt(u, scale, baseRate, optimal, rateAtOptimal);
      rateAtOptimal <= rate &&
      (u <= scale ==> rate <= scale) &&
      (optimal == scale ==> rate == rateAtOptimal) &&
      (optimal < scale ==> rate == rateAtOptimal + (u - optimal) * (scale - rateAtOptimal) / (scale - optimal))
  {
    if optimal < scale {
      ExcessBelowScale(u, scale, baseRate, optimal, rateAtOptimal);
    }
  }

  lemma {:induction false} ExcessBelowScale(u: int, scale: int, baseRate: int, optimal: int, rateAtOptimal: int)
    requires rateAtOptimal <= scale && optimal < scale
    requires optimal < u
    ensures var rate := RateAt(u, scale, baseRate, optimal, rateAtOptimal);
      rateAtOptimal <= rate &&
      (u <= scale ==> rate <= scale) &&
      rate == rateAtOptimal + (u - optimal) * (scale - rateAtOptimal) / (scale - optimal)
  {
    var headroom := scale - rateAtOptimal;
    MulMonotone(0, u - optimal, headroom);
    TDivNonNegative((u - optimal) * headroom, scale - optimal);
    if u <= scale {
      ScaledFractionBound(u - optimal, headroom, scale - optimal);
    }
  }

  /** For ordered parameters and `0 <= u <= scale`, the rate lies between the
      base rate and the scale. */
  lemma {:induction false} RateAtBounds(u: int, scale: int, baseRate: int, optimal: int, rateAtOptimal: int)
    requires Ordered(scale, baseRate, optimal, rateAtOptimal)
    requires 0 <= u <= scale
    ensures baseRate <= RateAt(u, scale, baseRate, optimal, rateAtOptimal) <= scale
  {
    if u <= optimal {
      NormalSegment(u, scale, baseRate, optimal, rateAtOptimal);
    } else {
      ExcessSegment(u, scale, baseRate, optimal, rateAtOptimal);
    }
  }

  /** On a non-falling normal segment the rate never decreases, starting at
      `baseRate` or above and ending at `rateAtOptimal` or below. */
  lemma {:induction false} NormalMonotone(u1: int, u2: int, scale: int, baseRate: int, optimal: int, rateAtOptimal: int)
    requires baseRate <= rateAtOptimal
    requires 0 <= u1 <= u2 <= optimal
    ensures baseRate <= RateAt(u1, scale, baseRate, optimal, rateAtOptimal)
    ensures RateAt(u1, scale, baseRate, optimal, rateAtOptimal) <= RateAt(u2, scale, baseRate, optimal, rateAtOptimal)
    ensures RateAt(u2, scale, baseRate, optimal, rateAtOptimal) <= rateAtOptimal
  {
    if optimal != 0 {
      var slope := rateAtOptimal - baseRate;
      MulMonotone(0, u1, slope);
      MulMonotone(u1, u2, slope);
      TDivNonNegative(u1 * slope, optimal);
      TDivNonNegative(u2 * slope, optimal);
      DivMonotone(u1 * slope, u2 * slope, optimal);
      ScaledFractionBound(u2, slope, optimal);
    }
  }

  /** With the kink below the scale and `rateAtOptimal <= scale`, the excess
      segment starts at `rateAtOptimal` or above and never decreases. */
  lemma {:induction false} ExcessMonotone(u1: int, u2: int, scale: int, baseRate: int, optimal: int, rateAtOptimal: int)
    requires rateAtOptimal <= scale && optimal < scale
    requires optimal < u1 <= u2
    ensures rateAtOptimal <= RateAt(u1, scale, baseRate, optimal, rateAtOptimal)
    ensures RateAt(u1, scale, baseRate, optimal, rateAtOptimal) <= RateAt(u2, scale, baseRate, optimal, rateAtOptimal)
  {
    var headroom := scale - rateAtOptimal;
    MulMonotone(0, u1 - optimal, headroom);
    MulMonotone(u1 - optimal, u2 - optimal, headroom);
    TDivNonNegative((u1 - optimal) * headroom, scale - optimal);
    TDivNonNegative((u2 - optimal) * headroom, scale - optimal);
    DivMonotone((u1 - optimal) * headroom, (u2 - optimal) * headroom, scale - optimal);
  }

  /** For ordered parameters the rate never decreases as utilization grows,
      across the kink too, and for every non-negative utilization. */
  lemma {:induction false} RateAtMonotone(u1: int, u2: int, scale: int, baseRate: int, optimal: int, rateAtOptimal: int)
    requires Ordered(scale, baseRate, optimal, rateAtOptimal)
    requires 0 <= u1 <= u2
    ensures RateAt(u1, scale, baseRate, optimal, rateAtOptimal) <= RateAt(u2, scale, baseRate, optimal, rateAtOptimal)
  {
    if u2 <= optimal {
      NormalMonotone(u1, u2, scale, baseRate, optimal, rateAtOptimal);
    } else if u1 <= optimal {
      NormalMonotone(u1, u1, scale, baseRate, optimal, rateAtOptimal);
      if optimal < scale {
        ExcessMonotone(u2, u2, scale, baseRate, optimal, rateAtOptimal);
      }
    } else if optimal < scale {
      ExcessMonotone(u1, u2, scale, baseRate, optimal, rateAtOptimal);
    }
  }

  /** On `[0, scale]` the rate never decreases once
      `baseRate <= rateAtOptimal <= scale`, wherever the kink lies: a kink at
      or above the scale leaves only the normal segment, one below zero only
      the excess segment. */
  lemma {:induction false} RateAtMonotoneOnScale(u1: int, u2: int, scale: int, baseRate: int, optimal: int, rateAtOptimal: int)
    requires baseRate <= rateAtOptimal <= scale
    requires 0 <= u1 <= u2 <= scale
    ensures RateAt(u1, scale, baseRate, optimal, rateAtOptimal) <= RateAt(u2, scale, baseRate, optimal, rateAtOptimal)
  {
    if u2 <= optimal {
      NormalMonotone(u1, u2, scale, baseRate, optimal, rateAtOptimal);
    } else if u1 <= optimal {
      NormalMonotone(u1, u1, scale, baseRate, optimal, rateAtOptimal);
      ExcessMonotone(u2, u2, scale, baseRate, optimal, rateAtOptimal);
    } else {
      ExcessMonotone(u1, u2, scale, baseRate, optimal, rateAtOptimal);
    }
  }

  /** Above the scale a kink past the scale makes the excess divisor negative,
      and the rate falls: 50 at utilization 200, 0 at 300. */
  lemma RateAboveScaleCanFall()
    ensures RateAt(200, 100, 0, 200, 50) == 50
    ensures RateAt(300, 100, 0, 200, 50) == 0
  {
  }

  /** With no more borrowed than supplied, utilization lies in `[0, scale]`. */
  lemma {:induction false} UtilizationBounds(borrow: int, supply: int, scale: int)
    requires 0 <= borrow <= supply && supply > 0 && scale >= 0
    ensures 0 <= Utilization(borrow, supply, scale) <= scale
  {
    assert borrow * scale == scale * borrow;
    MulMonotone(0, borrow, scale);
    TDivNonNegative(borrow * scale, supply);
    ScaledFractionBound(borrow, scale, supply);
  }

  /** Utilization never decreases as the borrowed total grows. */
  lemma {:induction false} UtilizationMonotone(b1: int, b2: int, supply: int, scale: int)
    requires 0 <= b1 <= b2 && supply > 0 && scale >= 0
    ensures 0 <= Utilization(b1, supply, scale) <= Utilization(b2, supply, scale)
  {
    MulMonotone(0, b1, scale);
    MulMonotone(b1, b2, scale);
    TDivNonNegative(b1 * scale, supply);
    TDivNonNegative(b2 * scale, supply);
    DivMonotone(0, b1 * scale, supply);
    DivMonotone(b1 * scale, b2 * scale, supply);
  }

  /** For ordered parameters and no more borrowed than supplied, the computed
      borrow rate lies between the base rate and the scale. */
  lemma {:induction false} KinkedBounds(borrow: int, supply: int, scale: int, baseRate: int, optimal: int, rateAtOptimal: int)
    requires Ordered(scale, baseRate, optimal, rateAtOptimal)
    requires 0 <= borrow <= supply
    ensures var r := Kinked(borrow, supply, scale, baseRate, optimal, rateAtOptimal);
      baseRate <= r.borrowRate <= scale && 0 <= r.utilization <= scale
  {
    if supply != 0 && borrow != 0 {
      UtilizationBounds(borrow, supply, scale);
      RateAtBounds(Utilization(borrow, supply, scale), scale, baseRate, optimal, rateAtOptimal);
    }
  }

  /** For ordered parameters and a fixed positive supply, the computed borrow
      rate never decreases as the borrowed total grows, across the zero-borrow
      fallback and the kink alike. */
  lemma {:induction false} KinkedMonotoneInBorrow(b1: int, b2: int, supply: int, scale: int, baseRate: int, optimal: int, rateAtOptimal: int)
    requires Ordered(scale, baseRate, optimal, rateAtOptimal)
    requires 0 <= b1 <= b2 && supply > 0
    ensures Kinked(b1, supply, scale, baseRate, optimal, rateAtOptimal).borrowRate
         <= Kinked(b2, supply, scale, baseRate, optimal, rateAtOptimal).borrowRate
  {
    if b1 == 0 {
      if b2 != 0 {
        UtilizationMonotone(0, b2, supply, scale);
        RateAtBounds(0, scale, baseRate, optimal, rateAtOptimal);
        RateAtMonotone(0, Utilization(b2, supply, scale), scale, baseRate, optimal, rateAtOptimal);
      }
    } else {
      UtilizationMonotone(b1, b2, supply, scale);
      RateAtMonotone(Utilization(b1, supply, scale), Utilization(b2, supply, scale), scale, baseRate, optimal, rateAtOptimal);
    }
  }

  /** On a falling curve (`rateAtOptimal` below `baseRate`) the slope term is
      negative and truncation rounds it up: from a base of 10 toward 0 at a
      kink of 3, utilization 1 gives 10 - 3 = 7, where Euclidean division
      would give 10 - 4 = 6. */
  lemma TruncationExample()
    ensures RateAt(1, 100, 10, 3, 0) == 7
    ensures 10 + 1 * (0 - 10) / 3 == 6
  {
  }

  /** The worked example of a market half borrowed: with a base rate of 0, 8%
      at an 80% kink and a 1.0 scale, 50 of 100 borrowed is 50% utilization
      and a 5% rate. */
  lemma NormalRegimeExample()
    ensures Kinked(50, 100, 1_000_000_000_000_000_000, 0, 800_000_000_000_000_000, 80_000_000_000_000_000)
         == RateState(500_000_000_000_000_000, 50_000_000_000_000_000)
  {
    assert Utilization(50, 100, 1_000_000_000_000_000_000) == 500_000_000_000_000_000;
  }

  /** The same market with 90 of 100 borrowed is past the kink: 90%
      utilization and a 54% rate. */
  lemma ExcessRegimeExample()
    ensures Kinked(90, 100, 1_000_000_000_000_000_000, 0, 800_000_000_000_000_000, 80_000_000_000_000_000)
         == RateState(900_000_000_000_000_000, 540_000_000_000_000_000)
  {
    assert Utilization(90, 100, 1_000_000_000_000_000_000) == 900_000_000_000_000_000;
  }
}
