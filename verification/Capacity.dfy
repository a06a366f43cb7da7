/**
 The off-chain estimate of how much more an agent can draw, against the bond test the pool
 itself applies to a draw.
 */
module Capacity {
  import opened Prelude
  import P = PoolRules
  import D = Draws

  datatype Evaluation = Evaluation(undrawnCapacity: int, floatRatioBps: int, collateralHeadroomBps: int)

  function Headroom(bond: nat, drawn: nat, ratio: nat): nat {
    var required := Quotient(drawn * ratio, 10_000);
    if required < bond then bond - required else 0
  }

  function EvaluateAgent(bond: nat, drawn: nat, ratio: nat): Evaluation {
    var headroom := Headroom(bond, drawn, ratio);
    var capacity := Quotient(headroom * 10_000, if ratio == 0 then 1 else ratio);
    Evaluation(capacity,
               if 0 < bond then Quotient(capacity * 10_000, bond) else 0,
               if 0 < bond then Quotient(headroom * 10_000, bond) else 0)
  }

  /** The bond the pool's ratio asks for an exposure, as whole units rounded down. */
  function RequiredBond(exposure: nat, ratio: nat): nat { Quotient(exposure * ratio, 10_000) }

  lemma RequiredAtMost(exposure: nat, ratio: nat, bond: nat)
    ensures RequiredBond(exposure, ratio) <= bond <==> exposure * ratio < (bond + 1) * 10_000
  {
  }

  /** Up to the capacity the bond covers the draw; two units beyond it, it does not. */
  lemma CapacityBrackets(bond: nat, drawn: nat, ratio: nat, amount: nat)
    requires 10_000 <= ratio <= 100_000 && RequiredBond(drawn, ratio) <= bond
    ensures var capacity := EvaluateAgent(bond, drawn, ratio).undrawnCapacity;
            && (amount <= capacity ==> RequiredBond(drawn + amount, ratio) <= bond)
            && (capacity + 2 <= amount ==> bond < RequiredBond(drawn + amount, ratio))
  {
    var headroom, capacity := Headroom(bond, drawn, ratio), EvaluateAgent(bond, drawn, ratio).undrawnCapacity;
    var scaled, more := drawn * ratio, amount * ratio;
    assert RequiredBond(drawn, ratio) * 10_000 <= scaled < (RequiredBond(drawn, ratio) + 1) * 10_000;
    assert capacity * ratio <= headroom * 10_000 < (capacity + 1) * ratio;
    Distributes(drawn, amount, ratio);
    Distributes(capacity, 2, ratio);
    Distributes(capacity, 1, ratio);
    RequiredAtMost(drawn + amount, ratio, bond);
    ScaleOrder(amount, capacity, ratio);
    ScaleOrder(capacity + 2, amount, ratio);
  }

  /** One unit beyond the capacity may go either way: with a bond of 1 the first unit passes, with a bond of 3 the third fails. */
  lemma OneBeyondGoesBothWays()
    ensures EvaluateAgent(1, 0, 15_000).undrawnCapacity == 0 && RequiredBond(1, 15_000) <= 1
    ensures EvaluateAgent(3, 0, 15_000).undrawnCapacity == 2 && 3 < RequiredBond(3, 15_000)
  {
    QuotientIs(10_000, 15_000, 0);
    QuotientIs(30_000, 15_000, 2);
  }

  /** A bond already short has capacity 0, and every draw fails. */
  lemma ShortBondHasNoCapacity(bond: nat, drawn: nat, ratio: nat, amount: nat)
    requires 10_000 <= ratio <= 100_000 && bond < RequiredBond(drawn, ratio)
    ensures EvaluateAgent(bond, drawn, ratio).undrawnCapacity == 0
    ensures bond < RequiredBond(drawn + amount, ratio)
  {
    RequiredAtMost(drawn, ratio, bond);
    RequiredAtMost(drawn + amount, ratio, bond);
    ScaleOrder(drawn, drawn + amount, ratio);
    QuotientIs(0, ratio, 0);
  }

  /**
   The estimate against the check on chain, at the pool's own ratio: a draw within the capacity
   is covered unless the product overflows, one of two units more or beyond never is, and with a
   short bond none is.
   */
  lemma CapacityMatchesPool(config: P.PoolConfig, bond: nat, drawn: nat, amount: nat)
    requires 10_000 <= config.collateralRatioBps <= 100_000 && 0 < amount
    ensures var ratio := config.collateralRatioBps;
            var capacity := EvaluateAgent(bond, drawn, ratio).undrawnCapacity;
            var covered := D.CoveredBy(config, drawn + amount, bond);
            if RequiredBond(drawn, ratio) <= bond then
              && (amount <= capacity ==> (covered <==> (drawn + amount) * ratio <= I128_MAX))
              && (capacity + 2 <= amount ==> !covered)
            else capacity == 0 && !covered
  {
    var ratio := config.collateralRatioBps;
    if RequiredBond(drawn, ratio) <= bond {
      CapacityBrackets(bond, drawn, ratio, amount);
    } else {
      ShortBondHasNoCapacity(bond, drawn, ratio, amount);
    }
  }

  /** The pool's check is that test. */
  lemma PoolAsksTheSame(config: P.PoolConfig, exposure: nat, bond: nat)
    ensures D.CoveredBy(config, exposure, bond)
        <==> P.BondRequirement(config, exposure).Ok? && P.BondRequirement(config, exposure).value <= bond
  {
    ScaleOrder(0, exposure, config.collateralRatioBps);
  }

  /** The bond an exposure asks, rounded down. */
  predicate Asks(drawn: nat, ratio: nat, required: nat) { required * 10_000 <= drawn * ratio < (required + 1) * 10_000 }

  lemma AskedIsRequired(drawn: nat, ratio: nat, required: nat)
    requires Asks(drawn, ratio, required)
    ensures Quotient(drawn * ratio, 10_000) == required
  {
    QuotientIs(drawn * ratio, 10_000, required);
  }

  /** How much of a whole a part is, in basis points rounded down: at most all of it. */
  lemma PartInBps(part: nat, whole: nat)
    requires 0 < whole && part <= whole
    ensures var bps := Quotient(part * 10_000, whole);
            && 0 <= bps <= 10_000 && bps * whole <= part * 10_000 < (bps + 1) * whole
            && (bps == 10_000 <==> part == whole)
  {
    P.ShareOfWhole(part, whole);
    if part == whole {
      QuotientIs(part * 10_000, whole, 10_000);
    } else if Quotient(part * 10_000, whole) == 10_000 {
      ScaleOrder(part + 1, whole, 10_000);
    }
  }

  /** The headroom over the bond asked, as a share of the bond: all of it exactly when nothing is asked, none when the bond is short. */
  lemma HeadroomIsShare(bond: nat, drawn: nat, ratio: nat, required: nat)
    requires 0 < bond && Asks(drawn, ratio, required)
    ensures var shown := EvaluateAgent(bond, drawn, ratio).collateralHeadroomBps;
            if bond <= required then shown == 0
            else
              && 0 <= shown <= 10_000 && (shown == 10_000 <==> required == 0)
              && shown * bond <= (bond - required) * 10_000 < (shown + 1) * bond
  {
    AskedIsRequired(drawn, ratio, required);
    PartInBps(if required < bond then bond - required else 0, bond);
    if bond <= required {
      QuotientIs(0, bond, 0);
    }
  }

  /** What can still be drawn is never more than the headroom, whatever valid ratio divides it. */
  lemma CapacityWithinHeadroom(bond: nat, drawn: nat, ratio: nat)
    requires 10_000 <= ratio
    ensures 0 <= EvaluateAgent(bond, drawn, ratio).undrawnCapacity <= Headroom(bond, drawn, ratio) <= bond
  {
    var headroom, capacity := Headroom(bond, drawn, ratio), EvaluateAgent(bond, drawn, ratio).undrawnCapacity;
    if headroom < capacity {
      ScaleOrder(headroom + 1, capacity, ratio);
      ScaleOrder(10_000, ratio, headroom + 1);
    }
  }

  /** The float ratio is what can still be drawn as a share of the bond, and never above the headroom shown beside it. */
  lemma FloatIsShare(bond: nat, drawn: nat, ratio: nat)
    requires 0 < bond && 10_000 <= ratio
    ensures var e := EvaluateAgent(bond, drawn, ratio);
            && 0 <= e.floatRatioBps <= e.collateralHeadroomBps <= 10_000
            && e.floatRatioBps * bond <= e.undrawnCapacity * 10_000 < (e.floatRatioBps + 1) * bond
  {
    var e := EvaluateAgent(bond, drawn, ratio);
    CapacityWithinHeadroom(bond, drawn, ratio);
    PartInBps(e.undrawnCapacity, bond);
    PartInBps(Headroom(bond, drawn, ratio), bond);
    QuotientOrder(e.undrawnCapacity * 10_000, Headroom(bond, drawn, ratio) * 10_000, bond);
  }

  /** Without a bond both figures are 0. */
  lemma NoBondNoFigures(drawn: nat, ratio: nat)
    ensures EvaluateAgent(0, drawn, ratio).floatRatioBps == EvaluateAgent(0, drawn, ratio).collateralHeadroomBps == 0
    ensures 0 < ratio ==> EvaluateAgent(0, drawn, ratio).undrawnCapacity == 0
  {
    if 0 < ratio {
      QuotientIs(0, ratio, 0);
    }
  }

  /** What an evaluation raises, if anything. */
  datatype Alert = CollateralTight | FloatLow | Quiet

  function ClassifyAlert(e: Evaluation, floatAlertBps: nat): Alert {
    if e.collateralHeadroomBps < 1_000 then CollateralTight
    else if e.floatRatioBps < floatAlertBps then FloatLow
    else Quiet
  }

  /** A position is reported tight exactly when less than a tenth of its bond is free of what its exposure asks. */
  lemma TightExactly(bond: nat, drawn: nat, ratio: nat, required: nat, floatAlertBps: nat)
    requires 0 < bond && Asks(drawn, ratio, required)
    ensures ClassifyAlert(EvaluateAgent(bond, drawn, ratio), floatAlertBps) == CollateralTight <==> 10 * (bond - required) < bond
  {
    HeadroomIsShare(bond, drawn, ratio, required);
    var shown := EvaluateAgent(bond, drawn, ratio).collateralHeadroomBps;
    ScaleOrder(shown + 1, 1_000, bond);
    ScaleOrder(1_000, shown, bond);
  }

  /** And reported low on float exactly when it is not tight and what can still be drawn is below the alert's share of its bond. */
  lemma FloatLowExactly(bond: nat, drawn: nat, ratio: nat, required: nat, floatAlertBps: nat)
    requires 0 < bond && 10_000 <= ratio && Asks(drawn, ratio, required)
    ensures var e := EvaluateAgent(bond, drawn, ratio);
            ClassifyAlert(e, floatAlertBps) == FloatLow
            <==> bond <= 10 * (bond - required) && e.undrawnCapacity * 10_000 < floatAlertBps * bond
  {
    TightExactly(bond, drawn, ratio, required, floatAlertBps);
    FloatIsShare(bond, drawn, ratio);
    var shown := EvaluateAgent(bond, drawn, ratio).floatRatioBps;
    ScaleOrder(shown + 1, floatAlertBps, bond);
    ScaleOrder(floatAlertBps, shown, bond);
  }

  const SWEEP_RATIO: nat := 15_000

  /** A draw the sweep reports room for passes the test at the pool's ratio. */
  predicate RoomIsReal(ratio: nat, bond: nat, drawn: nat, amount: nat) {
    0 < amount <= EvaluateAgent(bond, drawn, SWEEP_RATIO).undrawnCapacity ==> RequiredBond(drawn + amount, ratio) <= bond
  }

  /** A lower ratio never asks for more bond. */
  lemma RequiredBondFollowsRatio(exposure: nat, lower: nat, higher: nat)
    requires lower <= higher
    ensures RequiredBond(exposure, lower) <= RequiredBond(exposure, higher)
  {
    ScaleOrder(lower, higher, exposure);
    QuotientOrder(exposure * lower, exposure * higher, 10_000);
  }

  /** At or below the sweep's own ratio, all room it reports is real. */
  lemma SweepIsSafeBelow(ratio: nat, bond: nat, drawn: nat, amount: nat)
    requires 10_000 <= ratio <= 100_000 && ratio <= SWEEP_RATIO
    ensures RoomIsReal(ratio, bond, drawn, amount)
  {
    RequiredBondFollowsRatio(drawn + amount, ratio, SWEEP_RATIO);
    if RequiredBond(drawn, SWEEP_RATIO) <= bond {
      CapacityBrackets(bond, drawn, SWEEP_RATIO, amount);
    } else {
      ShortBondHasNoCapacity(bond, drawn, SWEEP_RATIO, amount);
    }
  }

  /** A bond of 15,000 has room for exactly 10,000 in the sweep's eyes, and that draw asks the ratio itself for a bond. */
  lemma SweepIsUnsafeAbove(ratio: nat)
    requires SWEEP_RATIO < ratio
    ensures !RoomIsReal(ratio, 15_000, 0, 10_000)
  {
    QuotientIs(0, 10_000, 0);
    QuotientIs(150_000_000, SWEEP_RATIO, 10_000);
    QuotientIs(10_000 * ratio, 10_000, ratio);
  }

  /**
   The sweep assumes 150% whatever the pool is set to: every draw it reports room for, for every
   bond and exposure, passes the pool's test exactly when the pool's ratio is at most that.
   */
  lemma SweepIsRightExactly(ratio: nat)
    requires 10_000 <= ratio <= 100_000
    ensures (forall bond: nat, drawn: nat, amount: nat :: RoomIsReal(ratio, bond, drawn, amount)) <==> ratio <= 15_000
  {
    if ratio <= SWEEP_RATIO {
      forall bond: nat, drawn: nat, amount: nat ensures RoomIsReal(ratio, bond, drawn, amount) {
        SweepIsSafeBelow(ratio, bond, drawn, amount);
      }
    } else {
      SweepIsUnsafeAbove(ratio);
    }
  }

  /** An instance: where the pool asks 200%, it reports room for draws the pool refuses. */
  lemma SweepCanOverstate()
    ensures EvaluateAgent(100, 0, SWEEP_RATIO).undrawnCapacity == 66
    ensures 100 < RequiredBond(66, 20_000)
  {
    QuotientIs(1_000_000, 15_000, 66);
  }
}
