/** The fixed-width runner of kodiak_simulations_2023_07/runners/base.py
    (`UniswapV3LPFixedWidthRunner`), the base of the full, simple and optimized
    runners: its construction check and its tick-range calculation. */
module RunnersBase {
  import opened Errors
  import opened TickRange

  const BothZeroMessage: string := "both self.liquidity and self.amounts == 0"

  /** The validations in `__init__`: some liquidity or amount must be given, and
      half the width must be a multiple of the pool's tick spacing. */
  function CheckConfig(liquidity: int, amount0: int, amount1: int, tickWidth: int, spacing: int): (r: Outcome)
    requires spacing > 0
    ensures r.Pass? <==> !(liquidity == 0 && amount0 == 0 && amount1 == 0) && HalfWidthAligned(tickWidth, spacing)
    ensures liquidity == 0 && amount0 == 0 && amount1 == 0 ==> r == Fail(ValueError(BothZeroMessage))
    ensures r.Fail? ==> r.error.ValueError?
  {
    if liquidity == 0 && (amount0 == 0 && amount1 == 0) then Fail(ValueError(BothZeroMessage))
    else CheckHalfWidth(tickWidth, spacing)
  }

  /** The widening search ends when started from the centred guess. */
  ghost predicate WideningEnds(initialized: int -> bool, tick: int, tickWidth: int, spacing: int)
    requires spacing > 0
  {
    var guess := CenteredTicks(tick, tickWidth, spacing);
    EventuallyQualifies(initialized, NearestUsableTick(tick, spacing), guess.lower, guess.upper, spacing)
  }

  class FixedWidthRunner {
    var liquidity: int
    var amount0: int
    var amount1: int
    var tickWidth: int
    var blocksBetweenRebalance: int
    var compoundFeesAtRebalance: bool
    var tickSpacing: int
    var tokenId: int
    var lastNumberProcessed: nat
    var blockRebalanceLast: nat
    var fees0Cumulative: int
    var fees1Cumulative: int
    var tickLower: int
    var tickUpper: int

    /** The pool's tick spacing is positive. */
    predicate Valid()
      reads this
    {
      tickSpacing > 0
    }

    /** A runner whose configuration passed `CheckConfig`; the tick spacing is
        read from the pool. The tick pair is the backtesting library's initial
        value, which this source does not set. */
    constructor (liquidity: int, amount0: int, amount1: int, tickWidth: int,
                 blocksBetweenRebalance: int, compoundFeesAtRebalance: bool, poolTickSpacing: int,
                 tickLower: int, tickUpper: int)
      requires poolTickSpacing > 0
      requires CheckConfig(liquidity, amount0, amount1, tickWidth, poolTickSpacing) == Pass
      ensures Valid() && HalfWidthAligned(this.tickWidth, tickSpacing)
      ensures this.liquidity == liquidity && this.amount0 == amount0 && this.amount1 == amount1
      ensures this.tickWidth == tickWidth && this.blocksBetweenRebalance == blocksBetweenRebalance
      ensures this.compoundFeesAtRebalance == compoundFeesAtRebalance && tickSpacing == poolTickSpacing
      ensures tokenId == -1 && lastNumberProcessed == 0 && blockRebalanceLast == 0
      ensures fees0Cumulative == 0 && fees1Cumulative == 0
      ensures this.tickLower == tickLower && this.tickUpper == tickUpper
    {
      this.liquidity := liquidity;
      this.amount0 := amount0;
      this.amount1 := amount1;
      this.tickWidth := tickWidth;
      this.blocksBetweenRebalance := blocksBetweenRebalance;
      this.compoundFeesAtRebalance := compoundFeesAtRebalance;
      tickSpacing := poolTickSpacing;
      tokenId := -1;
      lastNumberProcessed := 0;
      blockRebalanceLast := 0;
      fees0Cumulative := 0;
      fees1Cumulative := 0;
      this.tickLower := tickLower;
      this.tickUpper := tickUpper;
    }

    /** `_calculate_lp_ticks`: the full range for a width of 0, otherwise the
        first pair of the widening search from the centred guess whose ends
        are both initialized. */
    method CalculateLpTicks(initialized: int -> bool, maxTick: int, tick: int) returns (t: Ticks)
      requires Valid()
      requires tickWidth != 0 ==> WideningEnds(initialized, tick, tickWidth, tickSpacing)
      ensures tickWidth == 0 ==> t == FullRange(maxTick, tickSpacing)
      ensures tickWidth != 0 ==> Qualifies(initialized, t)
      ensures tickWidth != 0 ==>
        var center, guess := NearestUsableTick(tick, tickSpacing), CenteredTicks(tick, tickWidth, tickSpacing);
        exists k: nat :: t == Candidate(center, guess.lower, guess.upper, tickSpacing, k)
                      && forall j: nat :: j < k ==> !Qualifies(initialized, Candidate(center, guess.lower, guess.upper, tickSpacing, j))
    {
      if tickWidth == 0 {
        t := FullRange(maxTick, tickSpacing);
        return;
      }
      var center := NearestUsableTick(tick, tickSpacing);
      var guess := Ticks(center - tickWidth / 2, center + tickWidth / 2);
      t := FindNearestLpTicks(initialized, center, guess.lower, guess.upper, tickSpacing);
    }
  }
}
