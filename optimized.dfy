/** The optimized runner of kodiak_simulations_2023_07/runners/optimized.py
    (`UniswapV3LPOptimizedRunner`). It is a simple runner, which adds only the
    backtest contract's name to the fixed-width runner of runners/base.py, so
    its methods here act on a `RunnersBase.FixedWidthRunner`. Before each rebalance it replaces the tick
    width by an optimized one snapped to the tick spacing. The optimization
    itself is floating point; its integer outcome, or the error it raised, is
    the input `optimizedWidth`. */
module Optimized {
  import opened Errors
  import opened TickRange
  import opened Strategy
  import FloorArith
  import RunnersBase

  const AmountsZeroMessage: string := "self.amounts == 0"

  /** The validations in `__init__`: those of the fixed-width runner, then at least
      one of the two amounts must be nonzero, whatever the liquidity. */
  function CheckConfig(liquidity: int, amount0: int, amount1: int, tickWidth: int, spacing: int): (r: Outcome)
    requires spacing > 0
    ensures r.Pass? <==> (amount0 != 0 || amount1 != 0) && HalfWidthAligned(tickWidth, spacing)
    ensures r.Pass? ==> RunnersBase.CheckConfig(liquidity, amount0, amount1, tickWidth, spacing) == Pass
    ensures RunnersBase.CheckConfig(liquidity, amount0, amount1, tickWidth, spacing).Fail? ==>
      r == RunnersBase.CheckConfig(liquidity, amount0, amount1, tickWidth, spacing)
    ensures amount0 == 0 && amount1 == 0 ==> r.Fail? && r.error.ValueError?
  {
    var base := RunnersBase.CheckConfig(liquidity, amount0, amount1, tickWidth, spacing);
    if base.Fail? then base
    else if amount0 == 0 && amount1 == 0 then Fail(ValueError(AmountsZeroMessage))
    else Pass
  }

  /** Which amount the LP-per-external-liquidity ratio `el` is computed from. */
  datatype ElBasis = FromAmount1 | FromAmount0

  /** The branch choice for `el` in `_optimize_tick_width`: amount1 when it is
      nonzero, divided by pool liquidity times the square-root price; else
      amount0, divided by pool liquidity times 2^96. A zero divisor raises
      ZeroDivisionError; with both amounts 0 the source raises a string, which
      Python rejects with TypeError. */
  function ElChoice(amount0: int, amount1: int, poolLiquidity: int, sqrtPrice: int): (r: Result<ElBasis>)
    ensures r == Ok(FromAmount1) <==> amount1 != 0 && poolLiquidity != 0 && sqrtPrice != 0
    ensures r == Ok(FromAmount0) <==> amount1 == 0 && amount0 != 0 && poolLiquidity != 0
    ensures r == Err(TypeError) <==> amount0 == 0 && amount1 == 0
    ensures r.Err? ==> r.error == ZeroDivisionError || r.error == TypeError
  {
    if amount1 != 0 then
      if poolLiquidity * sqrtPrice == 0 then Err(ZeroDivisionError) else Ok(FromAmount1)
    else if amount0 != 0 then
      if poolLiquidity == 0 then Err(ZeroDivisionError) else Ok(FromAmount0)
    else Err(TypeError)
  }

  /** The snap of line 78: the width rounded down to a multiple of the tick
      spacing (Python's `//`, which for a positive spacing is Dafny's). */
  function SnapTickWidth(tickWidth: int, spacing: int): (snapped: int)
    requires spacing > 0
    ensures snapped % spacing == 0
    ensures snapped <= tickWidth < snapped + spacing
    ensures tickWidth >= 0 ==> 0 <= snapped
  {
    FloorArith.MultipleMod(spacing, tickWidth / spacing);
    spacing * (tickWidth / spacing)
  }

  /** A snapped width is 0, so the inherited tick calculation picks the full
      range, exactly when the non-negative optimized width is below one
      spacing. */
  lemma SnapZeroIffBelowSpacing(tickWidth: int, spacing: int)
    requires spacing > 0 && tickWidth >= 0
    ensures SnapTickWidth(tickWidth, spacing) == 0 <==> tickWidth < spacing
  {
  }

  /** The snap yields a multiple of the spacing, not of twice the spacing, so
      it re-establishes the half-width validation of `__init__` only for a spacing
      of 1 or an even number of spacings (60 with spacing 60 fails it). */
  lemma SnapHalfWidthAligned(tickWidth: int, spacing: int)
    requires spacing > 0
    ensures HalfWidthAligned(SnapTickWidth(tickWidth, spacing), spacing)
        <==> spacing == 1 || (tickWidth / spacing) % 2 == 0
  {
    var k := tickWidth / spacing;
    var snapped := SnapTickWidth(tickWidth, spacing);
    assert snapped == spacing * k;
    if k % 2 == 0 {
      var m := k / 2;
      assert snapped == 2 * (spacing * m);
      FloorArith.MultipleMod(2, spacing * m);
      FloorArith.MultipleMod(spacing, m);
    } else {
      var m := k / 2;
      assert k == 2 * m + 1;
      var h, e := spacing / 2, spacing % 2;
      assert snapped == 2 * (spacing * m + h) + e;
      FloorArith.DivModUnique(snapped, 2, spacing * m + h, e);
      if spacing == 1 {
        FloorArith.DivModUnique(spacing * m + h, spacing, spacing * m + h, 0);
      } else {
        FloorArith.DivModUnique(spacing * m + h, spacing, m, h);
      }
    }
  }

  /** In a pool that initializes only multiples of the spacing, a snapped
      width of an odd number of spacings (spacing above 1) leaves the widening
      search of the next tick calculation with no pair to stop at. */
  lemma OddSnapNeverQualifies(initialized: int -> bool, tick: int, tickWidth: int, spacing: int)
    requires spacing > 1 && (tickWidth / spacing) % 2 == 1
    requires forall t :: initialized(t) ==> t % spacing == 0
    ensures !RunnersBase.WideningEnds(initialized, tick, SnapTickWidth(tickWidth, spacing), spacing)
  {
    var snapped := SnapTickWidth(tickWidth, spacing);
    SnapHalfWidthAligned(tickWidth, spacing);
    var center := NearestUsableTick(tick, spacing);
    MisalignedNeverQualifies(initialized, center, snapped / 2, spacing);
  }

  /** The width `_optimize_tick_width` stores, or the error it raises first:
      the `el` branch, then the optimization, then the snap. */
  function OptimizedTickWidth(amount0: int, amount1: int, poolLiquidity: int, sqrtPrice: int,
                              optimizedWidth: Result<int>, spacing: int): (r: Result<int>)
    requires spacing > 0
    ensures ElChoice(amount0, amount1, poolLiquidity, sqrtPrice).Err? ==>
      r == Err(ElChoice(amount0, amount1, poolLiquidity, sqrtPrice).error)
    ensures ElChoice(amount0, amount1, poolLiquidity, sqrtPrice).Ok? && optimizedWidth.Err? ==>
      r == Err(optimizedWidth.error)
    ensures r.Ok? <==> ElChoice(amount0, amount1, poolLiquidity, sqrtPrice).Ok? && optimizedWidth.Ok?
    ensures r.Ok? ==> r.value % spacing == 0 && r.value <= optimizedWidth.value < r.value + spacing
  {
    match ElChoice(amount0, amount1, poolLiquidity, sqrtPrice)
    case Err(e) => Err(e)
    case Ok(_) =>
      match optimizedWidth
      case Err(e) => Err(e)
      case Ok(w) => Ok(SnapTickWidth(w, spacing))
  }

  /** The gate of `update_strategy` on re-optimizing: a block has been
      recorded and the rebalance period has passed since it. */
  function ShouldReoptimize(last: nat, number: nat, period: int): (b: bool)
    ensures b <==> RebalanceGate(last, number, period) == Rebalance
  {
    last > 0 && number >= last + period
  }

  /** `_optimize_tick_width`: choose the `el` basis, take the optimized width
      and store it snapped to the spacing. Only `tick_width` changes. */
  method OptimizeTickWidth(r: RunnersBase.FixedWidthRunner, poolLiquidity: int, sqrtPrice: int,
                           optimizedWidth: Result<int>)
    returns (res: Outcome)
    requires r.Valid()
    modifies r`tickWidth
    ensures match OptimizedTickWidth(r.amount0, r.amount1, poolLiquidity, sqrtPrice, optimizedWidth, r.tickSpacing)
      case Ok(w) => res == Pass && r.tickWidth == w
      case Err(e) => res == Fail(e) && r.tickWidth == old(r.tickWidth)
  {
    if r.amount1 != 0 {
      if poolLiquidity * sqrtPrice == 0 {
        return Fail(ZeroDivisionError);
      }
    } else if r.amount0 != 0 {
      if poolLiquidity == 0 {
        return Fail(ZeroDivisionError);
      }
    } else {
      return Fail(TypeError);
    }
    if optimizedWidth.Err? {
      return Fail(optimizedWidth.error);
    }
    r.tickWidth := SnapTickWidth(optimizedWidth.value, r.tickSpacing);
    res := Pass;
  }

  /** `init_mocks_state`: optimize the width first; the mock set-up inherited
      from the backtesting library follows and is not part of this model. */
  method InitMocksState(r: RunnersBase.FixedWidthRunner, poolLiquidity: int, sqrtPrice: int,
                        optimizedWidth: Result<int>)
    returns (res: Outcome)
    requires r.Valid()
    modifies r`tickWidth
    ensures match OptimizedTickWidth(r.amount0, r.amount1, poolLiquidity, sqrtPrice, optimizedWidth, r.tickSpacing)
      case Ok(w) => res == Pass && r.tickWidth == w
      case Err(e) => res == Fail(e) && r.tickWidth == old(r.tickWidth)
  {
    res := OptimizeTickWidth(r, poolLiquidity, sqrtPrice, optimizedWidth);
  }

  /** `update_strategy`: re-optimize the width only once the rebalance period
      has passed; the inherited strategy update follows and is not part of
      this model. */
  method UpdateStrategy(r: RunnersBase.FixedWidthRunner, number: nat, poolLiquidity: int, sqrtPrice: int,
                        optimizedWidth: Result<int>)
    returns (reoptimized: bool, res: Outcome)
    requires r.Valid()
    modifies r`tickWidth
    ensures reoptimized == ShouldReoptimize(r.blockRebalanceLast, number, r.blocksBetweenRebalance)
    ensures !reoptimized ==> res == Pass && r.tickWidth == old(r.tickWidth)
    ensures reoptimized ==>
      match OptimizedTickWidth(r.amount0, r.amount1, poolLiquidity, sqrtPrice, optimizedWidth, r.tickSpacing)
      case Ok(w) => res == Pass && r.tickWidth == w
      case Err(e) => res == Fail(e) && r.tickWidth == old(r.tickWidth)
  {
    reoptimized := r.blockRebalanceLast > 0 && number >= r.blockRebalanceLast + r.blocksBetweenRebalance;
    res := Pass;
    if reoptimized {
      res := OptimizeTickWidth(r, poolLiquidity, sqrtPrice, optimizedWidth);
    }
  }
}
