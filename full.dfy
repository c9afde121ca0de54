/** The full runner of kodiak_simulations_2023_07/runners/full.py
    (`UniswapV3LPFullRunner`), a subclass of the fixed-width runner of
    runners/base.py: its methods here act on a `RunnersBase.FixedWidthRunner`.
    `get_liquidity_for_amount0` and `get_liquidity_for_amount1` are imported
    by the source but not defined in its utils module; they are the function
    parameters `liquidityForAmount0` and `liquidityForAmount1`. */
module Full {
  import opened Errors
  import opened TickRange
  import opened LiquidityAmounts
  import opened Strategy
  import RunnersBase

  /** The backtester is funded with this many times each position amount. */
  const FundingMultiple: int := 1000

  /** The liquidity and amounts a position is opened with. */
  datatype Position = Position(liquidity: int, amount0: int, amount1: int)

  /** The branch block of `init_mocks_state`: a nonzero liquidity wins and the
      amounts come from it; otherwise a single given amount fixes the liquidity
      and the other amount is derived from that liquidity; otherwise nothing is
      derived. Prices are square roots in Q64.96: the current one and those of
      the lower and upper tick. */
  function ResolvePosition(p: Position, sqrtPrice: int, sqrtLower: int, sqrtUpper: int,
                           liquidityForAmount0: (int, int, int) -> int,
                           liquidityForAmount1: (int, int, int) -> int): (r: Result<Position>)
    ensures r.Err? ==> r.error == AssertionError || r.error == ZeroDivisionError
    ensures r.Err? ==> !(sqrtLower <= sqrtPrice <= sqrtUpper) || sqrtPrice == 0 || sqrtUpper == 0
    ensures p.liquidity != 0 && r.Ok? ==>
      r.value.liquidity == p.liquidity
      && AmountsForLiquidity(sqrtPrice, sqrtLower, sqrtUpper, p.liquidity)
         == Ok(Amounts(r.value.amount0, r.value.amount1))
    ensures p.liquidity == 0 && p.amount0 != 0 && p.amount1 == 0 && r.Ok? ==>
      r.value.amount0 == p.amount0
      && r.value.liquidity == liquidityForAmount0(sqrtPrice, sqrtUpper, p.amount0)
      && AmountsForLiquidity(sqrtPrice, sqrtLower, sqrtUpper, r.value.liquidity).Ok?
      && r.value.amount1 == AmountsForLiquidity(sqrtPrice, sqrtLower, sqrtUpper, r.value.liquidity).value.amount1
    ensures p.liquidity == 0 && p.amount1 != 0 && p.amount0 == 0 && r.Ok? ==>
      r.value.amount1 == p.amount1
      && r.value.liquidity == liquidityForAmount1(sqrtLower, sqrtPrice, p.amount1)
      && AmountsForLiquidity(sqrtPrice, sqrtLower, sqrtUpper, r.value.liquidity).Ok?
      && r.value.amount0 == AmountsForLiquidity(sqrtPrice, sqrtLower, sqrtUpper, r.value.liquidity).value.amount0
    ensures p.liquidity == 0 && (p.amount0 == 0) == (p.amount1 == 0) ==> r == Ok(p)
  {
    if p.liquidity != 0 then
      match AmountsForLiquidity(sqrtPrice, sqrtLower, sqrtUpper, p.liquidity)
      case Ok(a) => Ok(Position(p.liquidity, a.amount0, a.amount1))
      case Err(e) => Err(e)
    else if p.amount0 != 0 && p.amount1 == 0 then
      var l := liquidityForAmount0(sqrtPrice, sqrtUpper, p.amount0);
      match AmountsForLiquidity(sqrtPrice, sqrtLower, sqrtUpper, l)
      case Ok(a) => Ok(Position(l, p.amount0, a.amount1))
      case Err(e) => Err(e)
    else if p.amount1 != 0 && p.amount0 == 0 then
      var l := liquidityForAmount1(sqrtLower, sqrtPrice, p.amount1);
      match AmountsForLiquidity(sqrtPrice, sqrtLower, sqrtUpper, l)
      case Ok(a) => Ok(Position(l, a.amount0, p.amount1))
      case Err(e) => Err(e)
    else Ok(p)
  }

  /** Inside a positive, ordered price range no branch fails. */
  lemma ResolveInRange(p: Position, sqrtPrice: int, sqrtLower: int, sqrtUpper: int,
                       liquidityForAmount0: (int, int, int) -> int,
                       liquidityForAmount1: (int, int, int) -> int)
    requires 0 < sqrtLower <= sqrtPrice <= sqrtUpper
    ensures ResolvePosition(p, sqrtPrice, sqrtLower, sqrtUpper, liquidityForAmount0, liquidityForAmount1).Ok?
  {
  }

  /** `init_mocks_state` as written: it calls `_calculate_lp_ticks(state)`
      with one argument while the method takes `(number, state)`, so it raises
      TypeError before anything is assigned. */
  method InitMocksState(r: RunnersBase.FixedWidthRunner, number: nat) returns (res: Outcome)
    ensures res == Fail(TypeError)
  {
    res := Fail(TypeError);
  }

  /** The branch block of `init_mocks_state` run on the runner's fields: on
      success the liquidity and the amounts become the resolved position; on
      an error nothing is assigned. */
  method ApplyPosition(r: RunnersBase.FixedWidthRunner, sqrtPrice: int, sqrtLower: int, sqrtUpper: int,
                       liquidityForAmount0: (int, int, int) -> int,
                       liquidityForAmount1: (int, int, int) -> int)
    returns (res: Outcome)
    modifies r`liquidity, r`amount0, r`amount1
    ensures match ResolvePosition(Position(old(r.liquidity), old(r.amount0), old(r.amount1)),
                                  sqrtPrice, sqrtLower, sqrtUpper, liquidityForAmount0, liquidityForAmount1)
      case Ok(p) => res == Pass && r.liquidity == p.liquidity && r.amount0 == p.amount0 && r.amount1 == p.amount1
      case Err(e) => res == Fail(e) && r.liquidity == old(r.liquidity)
                     && r.amount0 == old(r.amount0) && r.amount1 == old(r.amount1)
  {
    res := Pass;
    if r.liquidity != 0 {
      var desired := AmountsForLiquidity(sqrtPrice, sqrtLower, sqrtUpper, r.liquidity);
      if desired.Err? {
        return Fail(desired.error);
      }
      r.amount0 := desired.value.amount0;
      r.amount1 := desired.value.amount1;
    } else if r.amount0 != 0 && r.amount1 == 0 {
      var liquidity := liquidityForAmount0(sqrtPrice, sqrtUpper, r.amount0);
      var desired := AmountsForLiquidity(sqrtPrice, sqrtLower, sqrtUpper, liquidity);
      if desired.Err? {
        return Fail(desired.error);
      }
      r.liquidity := liquidity;
      r.amount1 := desired.value.amount1;
    } else if r.amount1 != 0 && r.amount0 == 0 {
      var liquidity := liquidityForAmount1(sqrtLower, sqrtPrice, r.amount1);
      var desired := AmountsForLiquidity(sqrtPrice, sqrtLower, sqrtUpper, liquidity);
      if desired.Err? {
        return Fail(desired.error);
      }
      r.liquidity := liquidity;
      r.amount0 := desired.value.amount0;
    }
  }

  /** The rest of `init_mocks_state`, from the given tick pair on: store the
      ticks, resolve liquidity and amounts, fund the backtester with 1000 times
      each amount, record the new position id, mark the block processed and
      store the liquidity actually minted. Returns the funding amounts. */
  method SetUpPosition(r: RunnersBase.FixedWidthRunner, number: nat, t: Ticks,
                       sqrtRatioAtTick: int -> int, sqrtPrice: int,
                       liquidityForAmount0: (int, int, int) -> int,
                       liquidityForAmount1: (int, int, int) -> int,
                       positionCount: int, mintedLiquidity: int)
    returns (funding: Result<Amounts>)
    modifies r`tickLower, r`tickUpper, r`liquidity, r`amount0, r`amount1, r`tokenId, r`lastNumberProcessed
    ensures r.tickWidth == old(r.tickWidth) && r.tickSpacing == old(r.tickSpacing)
    ensures r.blockRebalanceLast == old(r.blockRebalanceLast)
    ensures r.blocksBetweenRebalance == old(r.blocksBetweenRebalance)
    ensures r.tickLower == t.lower && r.tickUpper == t.upper
    ensures match ResolvePosition(Position(old(r.liquidity), old(r.amount0), old(r.amount1)),
                                  sqrtPrice, sqrtRatioAtTick(t.lower), sqrtRatioAtTick(t.upper),
                                  liquidityForAmount0, liquidityForAmount1)
      case Ok(p) =>
        && funding == Ok(Amounts(FundingMultiple * p.amount0, FundingMultiple * p.amount1))
        && r.amount0 == p.amount0 && r.amount1 == p.amount1
        && r.tokenId == positionCount + 1 && r.lastNumberProcessed == number
        && r.liquidity == mintedLiquidity
      case Err(e) =>
        && funding == Err(e)
        && r.liquidity == old(r.liquidity) && r.amount0 == old(r.amount0) && r.amount1 == old(r.amount1)
        && r.tokenId == old(r.tokenId) && r.lastNumberProcessed == old(r.lastNumberProcessed)
  {
    r.tickLower, r.tickUpper := t.lower, t.upper;
    var resolved := ApplyPosition(r, sqrtPrice, sqrtRatioAtTick(t.lower), sqrtRatioAtTick(t.upper),
                                  liquidityForAmount0, liquidityForAmount1);
    if resolved.Fail? {
      return Err(resolved.error);
    }
    funding := Ok(Amounts(r.amount0 * FundingMultiple, r.amount1 * FundingMultiple));
    r.tokenId := positionCount + 1;
    r.lastNumberProcessed := number;
    r.liquidity := mintedLiquidity;
  }

  /** `update_strategy`: mark the block processed, then the gate; the
      rebalance itself is not implemented in the source, so the last
      rebalanced block is set only on the first call and never advances. */
  method UpdateStrategy(r: RunnersBase.FixedWidthRunner, number: nat) returns (g: Gate)
    modifies r`lastNumberProcessed, r`blockRebalanceLast
    ensures g == RebalanceGate(old(r.blockRebalanceLast), number, r.blocksBetweenRebalance)
    ensures r.lastNumberProcessed == number
    ensures r.blockRebalanceLast == if old(r.blockRebalanceLast) == 0 then number else old(r.blockRebalanceLast)
    ensures r.liquidity == old(r.liquidity) && r.amount0 == old(r.amount0) && r.amount1 == old(r.amount1)
    ensures r.tickLower == old(r.tickLower) && r.tickUpper == old(r.tickUpper) && r.tokenId == old(r.tokenId)
    ensures r.tickWidth == old(r.tickWidth) && r.tickSpacing == old(r.tickSpacing)
    ensures r.blocksBetweenRebalance == old(r.blocksBetweenRebalance)
  {
    r.lastNumberProcessed := number;
    if r.blockRebalanceLast == 0 {
      r.blockRebalanceLast := number;
      return RecordFirst;
    } else if number < r.blockRebalanceLast + r.blocksBetweenRebalance {
      return Hold;
    }
    g := Rebalance;
  }
}
