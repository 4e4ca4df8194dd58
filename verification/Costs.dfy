/** Block billing: the leg cost of Finalize, the wastage cost of calculateCost, and how they relate. */
module Costs {
  import opened Numbers

  const A_BLOCK := 6
  const B_BLOCK := 60
  const PRE_DEDUCT_MINUTES := 30

  /** Finalize: whole blocks at a per-minute rate, nothing for a leg that did not last. */
  function LegCost(durationSec: int, ratePerMin: int, blockSec: int): int
    requires blockSec > 0
  {
    if durationSec > 0 then TruncDiv(CeilDiv(durationSec, blockSec) * blockSec * ratePerMin, 60) else 0
  }

  /** calculateCost. */
  function CalculateCost(durationSec: int, ratePerMin: int, blockSec: int): int
    requires blockSec > 0
  {
    if durationSec <= 0 || ratePerMin <= 0 then 0
    else TruncDiv(CeilDiv(durationSec, blockSec) * blockSec * ratePerMin, 60)
  }

  function CallCost(aSec: int, bSec: int, aRate: int, bRate: int): int {
    LegCost(aSec, aRate, A_BLOCK) + LegCost(bSec, bRate, B_BLOCK)
  }

  function PreDeductAmount(aRate: int, bRate: int): int { (aRate + bRate) * PRE_DEDUCT_MINUTES }

  /** CeilDiv of a positive duration is the least number of blocks that covers it. */
  lemma BlocksCover(a: int, b: int)
    requires b > 0 && a > 0
    ensures CeilDiv(a, b) >= 1
    ensures (CeilDiv(a, b) - 1) * b < a <= CeilDiv(a, b) * b
  {
    var q, r := (a + b - 1) / b, (a + b - 1) % b;
    assert a + b - 1 == b * q + r;
    if q <= 0 {
      MulMonotone(b, q, 0);
    }
  }

  /** Any number of blocks that covers the duration is at least CeilDiv. */
  lemma BlocksLeast(a: int, b: int, n: int)
    requires b > 0 && a > 0 && n * b >= a
    ensures n >= CeilDiv(a, b)
  {
    BlocksCover(a, b);
    if n < CeilDiv(a, b) {
      MulMonotone(b, n, CeilDiv(a, b) - 1);
    }
  }

  /** A leg costs its started blocks at the minute rate, rounded down; one that did not last costs nothing. */
  predicate BilledByBlock(cost: int, sec: int, rate: int, block: int)
    requires block > 0
  {
    && (sec <= 0 ==> cost == 0)
    && (sec > 0 && rate >= 0 ==>
          var blocks := (sec + block - 1) / block;
          60 * cost <= blocks * block * rate < 60 * cost + 60)
  }

  lemma LegCostByBlock(sec: int, rate: int, block: int)
    requires block > 0
    ensures BilledByBlock(LegCost(sec, rate, block), sec, rate, block)
  {
    if sec > 0 && rate >= 0 {
      BlocksCover(sec, block);
      ProductsMonotone(0, CeilDiv(sec, block) * block, rate);
    }
  }

  lemma BlocksMonotone(a: int, b: int, block: int)
    requires block > 0 && 0 < a <= b
    ensures CeilDiv(a, block) <= CeilDiv(b, block)
  {
    BlocksCover(b, block);
    BlocksLeast(a, block, CeilDiv(b, block));
  }

  /**
    The two formulas are one for every duration exactly when the rate is not negative:
    calculateCost clamps a negative rate to zero, Finalize bills it.
   */
  lemma FormulasAgree(rate: int, block: int)
    requires block > 0
    ensures rate >= 0 <==> forall d: int :: LegCost(d, rate, block) == CalculateCost(d, rate, block)
  {
    if rate < 0 {
      BlocksCover(60, block);
      var charged := CeilDiv(60, block) * block;
      MulMonotone(charged, rate, -1);
      assert LegCost(60, rate, block) != CalculateCost(60, rate, block);
    }
  }

  lemma ProductsMonotone(a: int, b: int, rate: int)
    requires rate >= 0 && a <= b
    ensures a * rate <= b * rate
  {
    MulMonotone(rate, a, b);
  }

  /** A longer call never costs less. */
  lemma CostMonotone(d: int, e: int, rate: int, block: int)
    requires block > 0 && rate >= 0 && d <= e
    ensures 0 <= LegCost(d, rate, block) <= LegCost(e, rate, block)
  {
    if e > 0 {
      BlocksCover(e, block);
      ProductsMonotone(0, CeilDiv(e, block) * block, rate);
      if d > 0 {
        BlocksCover(d, block);
        BlocksMonotone(d, e, block);
        ProductsMonotone(CeilDiv(d, block), CeilDiv(e, block), block);
        ProductsMonotone(0, CeilDiv(d, block) * block, rate);
        ProductsMonotone(CeilDiv(d, block) * block, CeilDiv(e, block) * block, rate);
      }
    }
  }

  /** Block billing never charges more than started minutes; blocks must tile a minute. */
  lemma CostWithinMinutes(d: int, rate: int, block: int)
    requires block == A_BLOCK || block == B_BLOCK
    requires rate >= 0 && d >= 0
    ensures LegCost(d, rate, block) <= CeilDiv(d, 60) * rate
  {
    if d > 0 {
      var minutes := CeilDiv(d, 60);
      BlocksCover(d, 60);
      BlocksLeast(d, block, minutes * (60 / block));
      BlocksCover(d, block);
      ProductsMonotone(CeilDiv(d, block) * block, minutes * 60, rate);
      ProductsMonotone(0, CeilDiv(d, block) * block, rate);
      MinuteQuotient(CeilDiv(d, block) * block * rate, minutes, rate);
    }
  }

  lemma MinuteQuotient(x: int, minutes: int, rate: int)
    requires 0 <= x <= minutes * 60 * rate
    ensures TruncDiv(x, 60) <= minutes * rate
  {
    assert minutes * 60 * rate == 60 * (minutes * rate);
  }

  /** The B-leg formula is whole minutes times the rate. */
  lemma BLegIsWholeMinutes(d: int, rate: int)
    requires d > 0
    ensures LegCost(d, rate, B_BLOCK) == CeilDiv(d, 60) * rate
  {
    var n := CeilDiv(d, 60);
    assert n * 60 * rate == 60 * (n * rate);
    if n * rate < 0 {
      assert -(60 * (n * rate)) == 60 * -(n * rate);
    }
  }

  /** How far a call's cost can exceed what was pre-deducted for it. */
  function Overrun(maxRate: int, maxSec: int): int {
    maxRate * Max(0, CeilDiv(maxSec, 60) - PRE_DEDUCT_MINUTES)
  }

  lemma CostOverHold(aSec: int, bSec: int, aRate: int, bRate: int, maxRate: int, maxSec: int)
    requires 0 <= aSec <= maxSec && 0 <= bSec <= maxSec
    requires aRate >= 0 && bRate >= 0 && aRate + bRate <= maxRate
    ensures CallCost(aSec, bSec, aRate, bRate) <= PreDeductAmount(aRate, bRate) + Overrun(maxRate, maxSec)
  {
    var minutes := CeilDiv(maxSec, 60);
    LegWithinMinutes(aSec, aRate, A_BLOCK, maxSec);
    LegWithinMinutes(bSec, bRate, B_BLOCK, maxSec);
    var over := Max(0, minutes - PRE_DEDUCT_MINUTES);
    MulMonotone(aRate + bRate, minutes, over + PRE_DEDUCT_MINUTES);
    ProductsMonotone(aRate + bRate, maxRate, over);
    assert minutes * aRate + minutes * bRate == (aRate + bRate) * minutes;
    assert (aRate + bRate) * (over + PRE_DEDUCT_MINUTES)
           == (aRate + bRate) * over + (aRate + bRate) * PRE_DEDUCT_MINUTES;
  }

  lemma LegWithinMinutes(d: int, rate: int, block: int, maxSec: int)
    requires block == A_BLOCK || block == B_BLOCK
    requires 0 <= d <= maxSec && rate >= 0
    ensures LegCost(d, rate, block) <= CeilDiv(maxSec, 60) * rate
  {
    CostWithinMinutes(d, rate, block);
    if d > 0 {
      BlocksMonotone(d, maxSec, 60);
    } else {
      assert CeilDiv(maxSec, 60) >= 0;
    }
    ProductsMonotone(CeilDiv(d, 60), CeilDiv(maxSec, 60), rate);
  }
}
