/** The fixed-width base runner of kodiak_simulations_2023_07/base.py
    (`UniswapV3LPFixedWidthBaseRunner`), which keeps its amounts as a WETH
    amount and an other-token amount. Its ranges are centred on the raw
    current tick, without rounding to the tick spacing. Calls into the mock
    contracts are inputs: the symbol of token0 and the liquidity the position
    manager reports after a mint. */
module Base {
  import opened Errors
  import opened TickRange
  import opened LiquidityAmounts
  import opened Strategy

  /** `tickWidth // 2` on either side of the raw current tick. */
  function RawCenteredTicks(tick: int, tickWidth: int): (t: Ticks)
    ensures t.lower + t.upper == 2 * tick
    ensures t.upper - t.lower == 2 * (tickWidth / 2)
    ensures tickWidth >= 0 ==> t.lower <= tick <= t.upper
  {
    Ticks(tick - tickWidth / 2, tick + tickWidth / 2)
  }

  /** A position's amounts named by token: the WETH side and the other side. */
  datatype WethAmounts = WethAmounts(weth: int, token: int)

  /** The symbol test of the source: token0 is WETH. */
  predicate IsWeth(symbol: string)
  {
    symbol == "WETH"
  }

  /** `amount_weth` is amount0 when token0 is WETH and amount1 otherwise;
      `amount_token` is the other one. */
  function ToWethAmounts(token0Symbol: string, a: Amounts): (w: WethAmounts)
    ensures multiset{w.weth, w.token} == multiset{a.amount0, a.amount1}
    ensures IsWeth(token0Symbol) ==> w.weth == a.amount0
    ensures !IsWeth(token0Symbol) ==> w.weth == a.amount1
  {
    if IsWeth(token0Symbol) then WethAmounts(a.amount0, a.amount1) else WethAmounts(a.amount1, a.amount0)
  }

  /** Back from token names to token0 / token1 order. */
  function FromWethAmounts(token0Symbol: string, w: WethAmounts): Amounts
  {
    if IsWeth(token0Symbol) then Amounts(w.weth, w.token) else Amounts(w.token, w.weth)
  }

  /** The mapping loses nothing: it and its inverse undo each other. */
  lemma WethAmountsRoundTrip(token0Symbol: string, a: Amounts, w: WethAmounts)
    ensures FromWethAmounts(token0Symbol, ToWethAmounts(token0Symbol, a)) == a
    ensures ToWethAmounts(token0Symbol, FromWethAmounts(token0Symbol, w)) == w
  {
  }

  class FixedWidthBaseRunner {
    var liquidity: int
    var tickWidth: int
    var blocksBetweenRebalance: int
    var tokenId: int
    var blockRebalanceLast: nat
    var tickLower: int
    var tickUpper: int
    var amountWeth: int
    var amountToken: int

    /** A runner whose width passed `CheckHalfWidth`. The tick pair and the
        two amounts are the backtesting library's initial values, which this
        source does not set. */
    constructor (liquidity: int, tickWidth: int, blocksBetweenRebalance: int, poolTickSpacing: int,
                 tickLower: int, tickUpper: int, amountWeth: int, amountToken: int)
      requires poolTickSpacing > 0 && CheckHalfWidth(tickWidth, poolTickSpacing) == Pass
      ensures HalfWidthAligned(this.tickWidth, poolTickSpacing)
      ensures this.liquidity == liquidity && this.tickWidth == tickWidth
      ensures this.blocksBetweenRebalance == blocksBetweenRebalance
      ensures tokenId == 1 && blockRebalanceLast == 0
      ensures this.tickLower == tickLower && this.tickUpper == tickUpper
      ensures this.amountWeth == amountWeth && this.amountToken == amountToken
    {
      this.liquidity := liquidity;
      this.tickWidth := tickWidth;
      this.blocksBetweenRebalance := blocksBetweenRebalance;
      tokenId := 1;
      blockRebalanceLast := 0;
      this.tickLower, this.tickUpper := tickLower, tickUpper;
      this.amountWeth, this.amountToken := amountWeth, amountToken;
    }

    /** `init_mocks_state`: centre the range on the raw current tick, take the
        amounts backing the configured liquidity there, name them by token, and
        store the liquidity actually minted. */
    method InitMocksState(sqrtRatioAtTick: int -> int, tick: int, token0Symbol: string, mintedLiquidity: int)
      returns (res: Outcome)
      modifies this
      ensures tickWidth == old(tickWidth) && blocksBetweenRebalance == old(blocksBetweenRebalance)
      ensures blockRebalanceLast == old(blockRebalanceLast) && tokenId == old(tokenId)
      ensures Ticks(tickLower, tickUpper) == RawCenteredTicks(tick, tickWidth)
      ensures match AmountsForLiquidity(sqrtRatioAtTick(tick), sqrtRatioAtTick(tickLower), sqrtRatioAtTick(tickUpper), old(liquidity))
        case Ok(desired) =>
          res == Pass && WethAmounts(amountWeth, amountToken) == ToWethAmounts(token0Symbol, desired)
          && liquidity == mintedLiquidity
        case Err(e) =>
          res == Fail(e) && amountWeth == old(amountWeth) && amountToken == old(amountToken)
          && liquidity == old(liquidity)
    {
      var t := RawCenteredTicks(tick, tickWidth);
      tickLower, tickUpper := t.lower, t.upper;
      var desired := AmountsForLiquidity(sqrtRatioAtTick(tick), sqrtRatioAtTick(tickLower), sqrtRatioAtTick(tickUpper), liquidity);
      if desired.Err? {
        return Fail(desired.error);
      }
      var w := ToWethAmounts(token0Symbol, desired.value);
      amountWeth, amountToken := w.weth, w.token;
      liquidity := mintedLiquidity;
      res := Pass;
    }

    /** `update_strategy`: the same gate as the other runners; a rebalance
        records the block and recentres the same-width range on the raw tick,
        then the source fails: after the amount assertion, its assignment
        into the empty list `datas` raises IndexError, so amounts, liquidity
        and the position id stay as they were. */
    method UpdateStrategy(sqrtRatioAtTick: int -> int, number: nat, tick: int) returns (step: StepResult)
      modifies this
      ensures tickWidth == old(tickWidth) && blocksBetweenRebalance == old(blocksBetweenRebalance)
      ensures blockRebalanceLast == LastAfterGate(old(blockRebalanceLast), number, blocksBetweenRebalance)
      ensures liquidity == old(liquidity) && tokenId == old(tokenId)
      ensures amountWeth == old(amountWeth) && amountToken == old(amountToken)
      ensures RebalanceGate(old(blockRebalanceLast), number, blocksBetweenRebalance) != Rebalance ==>
        step == (if old(blockRebalanceLast) == 0 then Recorded else Held)
        && tickLower == old(tickLower) && tickUpper == old(tickUpper)
      ensures RebalanceGate(old(blockRebalanceLast), number, blocksBetweenRebalance) == Rebalance ==>
        Ticks(tickLower, tickUpper) == RawCenteredTicks(tick, tickWidth)
        && step == Failed(
             match AmountsForLiquidity(sqrtRatioAtTick(tick), sqrtRatioAtTick(tickLower), sqrtRatioAtTick(tickUpper), liquidity)
             case Ok(_) => IndexError
             case Err(e) => e)
    {
      if blockRebalanceLast == 0 {
        blockRebalanceLast := number;
        return Recorded;
      } else if number < blockRebalanceLast + blocksBetweenRebalance {
        return Held;
      }
      blockRebalanceLast := number;

      var t := RawCenteredTicks(tick, tickWidth);
      tickLower, tickUpper := t.lower, t.upper;
      var desired := AmountsForLiquidity(sqrtRatioAtTick(tick), sqrtRatioAtTick(tickLower), sqrtRatioAtTick(tickUpper), liquidity);
      if desired.Err? {
        return Failed(desired.error);
      }
      // `datas = []` then `datas[0] = ...`: the list is empty
      step := Failed(IndexError);
    }
  }
}
