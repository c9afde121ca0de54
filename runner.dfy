/** The periodically rebalanced fixed-width runner of
    kodiak_simulations_2023_07/runner.py (`UniswapV3LPFixedWidthRunner`).
    Calls into the mock contracts are inputs: the backtester's token balances,
    its position count, and the liquidity the position manager reports after a
    mint. The square-root price of a tick is the parameter `sqrtRatioAtTick`. */
module Runner {
  import opened Errors
  import opened TickRange
  import opened LiquidityAmounts
  import opened Strategy

  /** The amounts backing `liquidity` over `t` at the current tick. */
  function AmountsAt(sqrtRatioAtTick: int -> int, tick: int, t: Ticks, liquidity: int): Result<Amounts>
  {
    AmountsForLiquidity(sqrtRatioAtTick(tick), sqrtRatioAtTick(t.lower), sqrtRatioAtTick(t.upper), liquidity)
  }

  class FixedWidthRunner {
    var liquidity: int
    var amount0: int
    var amount1: int
    var tickWidth: int
    var blocksBetweenRebalance: int
    var tokenId: int
    var blockRebalanceLast: nat
    var tickSpacing: int
    var tickLower: int
    var tickUpper: int

    /** The pool's tick spacing is positive. */
    predicate Valid()
      reads this
    {
      tickSpacing > 0
    }

    /** A runner whose width passed `CheckHalfWidth`. The tick pair is the
        backtesting library's initial value, which this source does not set. */
    constructor (liquidity: int, amount0: int, amount1: int, tickWidth: int,
                 blocksBetweenRebalance: int, poolTickSpacing: int, tickLower: int, tickUpper: int)
      requires poolTickSpacing > 0 && CheckHalfWidth(tickWidth, poolTickSpacing) == Pass
      ensures Valid() && HalfWidthAligned(this.tickWidth, tickSpacing)
      ensures this.liquidity == liquidity && this.amount0 == amount0 && this.amount1 == amount1
      ensures this.tickWidth == tickWidth && this.blocksBetweenRebalance == blocksBetweenRebalance
      ensures tickSpacing == poolTickSpacing && tokenId == 1 && blockRebalanceLast == 0
      ensures this.tickLower == tickLower && this.tickUpper == tickUpper
    {
      this.liquidity := liquidity;
      this.amount0 := amount0;
      this.amount1 := amount1;
      this.tickWidth := tickWidth;
      this.blocksBetweenRebalance := blocksBetweenRebalance;
      tickSpacing := poolTickSpacing;
      tokenId := 1;
      blockRebalanceLast := 0;
      this.tickLower := tickLower;
      this.tickUpper := tickUpper;
    }

    /** `init_mocks_state`: centre the range on the nearest usable tick, take
        the amounts backing the configured liquidity there, and store the
        liquidity actually minted. A failed amount assertion leaves the ticks
        set and everything else as it was. */
    method InitMocksState(sqrtRatioAtTick: int -> int, tick: int, mintedLiquidity: int) returns (res: Outcome)
      requires Valid()
      modifies this
      ensures Valid() && tickSpacing == old(tickSpacing) && tickWidth == old(tickWidth)
      ensures Ticks(tickLower, tickUpper) == CenteredTicks(tick, tickWidth, tickSpacing)
      ensures blockRebalanceLast == old(blockRebalanceLast) && tokenId == old(tokenId)
      ensures blocksBetweenRebalance == old(blocksBetweenRebalance)
      ensures match AmountsAt(sqrtRatioAtTick, tick, Ticks(tickLower, tickUpper), old(liquidity))
        case Ok(desired) =>
          res == Pass && amount0 == desired.amount0 && amount1 == desired.amount1 && liquidity == mintedLiquidity
        case Err(e) =>
          res == Fail(e) && amount0 == old(amount0) && amount1 == old(amount1) && liquidity == old(liquidity)
    {
      var t := CenteredTicks(tick, tickWidth, tickSpacing);
      tickLower, tickUpper := t.lower, t.upper;
      var desired := AmountsAt(sqrtRatioAtTick, tick, t, liquidity);
      if desired.Err? {
        return Fail(desired.error);
      }
      amount0, amount1 := desired.value.amount0, desired.value.amount1;
      liquidity := mintedLiquidity;
      res := Pass;
    }

    /** `update_strategy`: record the first block, hold until the period has
        passed, otherwise rebalance around the nearest usable tick with the
        pre-rebalance liquidity, mint or burn so the backtester holds the new
        amounts, and store the new position's id and liquidity. */
    method UpdateStrategy(sqrtRatioAtTick: int -> int, number: nat, tick: int,
                          balance0: int, balance1: int, positionCount: int, mintedLiquidity: int)
      returns (step: StepResult)
      requires Valid()
      modifies this
      ensures Valid() && tickSpacing == old(tickSpacing) && tickWidth == old(tickWidth)
      ensures blocksBetweenRebalance == old(blocksBetweenRebalance)
      ensures blockRebalanceLast == LastAfterGate(old(blockRebalanceLast), number, blocksBetweenRebalance)
      ensures RebalanceGate(old(blockRebalanceLast), number, blocksBetweenRebalance) != Rebalance ==>
        step == (if old(blockRebalanceLast) == 0 then Recorded else Held)
        && liquidity == old(liquidity) && amount0 == old(amount0) && amount1 == old(amount1)
        && tickLower == old(tickLower) && tickUpper == old(tickUpper) && tokenId == old(tokenId)
      ensures RebalanceGate(old(blockRebalanceLast), number, blocksBetweenRebalance) == Rebalance ==>
        Ticks(tickLower, tickUpper) == CenteredTicks(tick, tickWidth, tickSpacing)
        && match AmountsAt(sqrtRatioAtTick, tick, Ticks(tickLower, tickUpper), old(liquidity))
           case Ok(desired) =>
             step == Rebalanced(MintOrBurn(desired.amount0, balance0), MintOrBurn(desired.amount1, balance1))
             && BalanceAfter(balance0, step.action0) == amount0 == desired.amount0
             && BalanceAfter(balance1, step.action1) == amount1 == desired.amount1
             && tokenId == positionCount + 1 && liquidity == mintedLiquidity
           case Err(e) =>
             step == Failed(e) && liquidity == old(liquidity) && tokenId == old(tokenId)
             && amount0 == old(amount0) && amount1 == old(amount1)
    {
      if blockRebalanceLast == 0 {
        blockRebalanceLast := number;
        return Recorded;
      } else if number < blockRebalanceLast + blocksBetweenRebalance {
        return Held;
      }
      blockRebalanceLast := number;

      var t := CenteredTicks(tick, tickWidth, tickSpacing);
      tickLower, tickUpper := t.lower, t.upper;
      var desired := AmountsAt(sqrtRatioAtTick, tick, t, liquidity);
      if desired.Err? {
        return Failed(desired.error);
      }
      var action0 := MintOrBurn(desired.value.amount0, balance0);
      var action1 := MintOrBurn(desired.value.amount1, balance1);
      amount0, amount1 := desired.value.amount0, desired.value.amount1;
      tokenId := positionCount + 1;
      liquidity := mintedLiquidity;
      step := Rebalanced(action0, action1);
    }
  }
}
