/** The Uniswap v3 formulas that split a liquidity value into the token0 and
    token1 amounts backing it, for square-root prices in Q64.96 fixed point
    (kodiak_simulations_2023_07/utils.py). The square-root price of a tick,
    `get_sqrt_ratio_at_tick`, is computed there in floating point; the callers
    in this model receive it as a function parameter. */
module LiquidityAmounts {
  import opened Errors
  import FloorArith

  /** 2^96, the scale of a Q64.96 square-root price (`1 << 96`). */
  const Q96: int := 0x1_0000_0000_0000_0000_0000_0000

  /** Python's `n // d`: the floor of n / d for either sign of d. */
  function FloorDiv(n: int, d: int): (q: int)
    requires d != 0
    ensures d > 0 ==> q * d <= n < q * d + d && q == n / d
    ensures d < 0 ==> q * d >= n > q * d + d
    ensures d > 0 && n >= 0 ==> q >= 0
    ensures n == 0 ==> q == 0
  {
    if d > 0 then n / d else (-n) / (-d)
  }

  /** `get_amount0_for_liquidity`: token0 backing `liquidity` between the
      square-root prices a and b, as two nested floor divisions. The source
      raises ZeroDivisionError when a or b is 0; callers must exclude it. */
  function Amount0ForLiquidity(a: int, b: int, liquidity: int): (amount0: int)
    requires a != 0 && b != 0
    ensures 0 < a <= b && liquidity >= 0 ==> amount0 >= 0
    ensures a == b || liquidity == 0 ==> amount0 == 0
  {
    ScaledProductSign(liquidity, b - a);
    FloorDiv(FloorDiv(liquidity * Q96 * (b - a), b), a)
  }

  /** Sign facts about the token0 dividend liquidity * 2^96 * (b - a). */
  lemma ScaledProductSign(l: int, k: int)
    ensures l >= 0 && k >= 0 ==> l * Q96 * k >= 0
    ensures l == 0 || k == 0 ==> l * Q96 * k == 0
  {
  }

  /** `get_amount1_for_liquidity`: token1 backing `liquidity` between a and b,
      the floor of liquidity * (b - a) / 2^96. */
  function Amount1ForLiquidity(a: int, b: int, liquidity: int): (amount1: int)
    ensures amount1 * Q96 <= liquidity * (b - a) < amount1 * Q96 + Q96
    ensures a <= b && liquidity >= 0 ==> amount1 >= 0
    ensures a == b || liquidity == 0 ==> amount1 == 0
  {
    (liquidity * (b - a)) / Q96
  }

  /** The pair of token amounts backing a liquidity value. */
  datatype Amounts = Amounts(amount0: int, amount1: int)

  /** `get_amounts_for_liquidity`: amounts backing `liquidity` at the current
      square-root price x within [a, b]. token0 is counted over (x, b) and
      token1 over (a, x). The assertion of the source fails outside [a, b];
      inside it, a zero price raises ZeroDivisionError. */
  function AmountsForLiquidity(x: int, a: int, b: int, liquidity: int): (r: Result<Amounts>)
    ensures r == Err(AssertionError) <==> !(a <= x <= b)
    ensures r.Ok? <==> a <= x <= b && x != 0 && b != 0
    ensures a <= x <= b && (x == 0 || b == 0) ==> r == Err(ZeroDivisionError)
    ensures r.Ok? ==> r.value.amount0 == Amount0ForLiquidity(x, b, liquidity)
    ensures r.Ok? ==> r.value.amount1 == Amount1ForLiquidity(a, x, liquidity)
    ensures r.Ok? && x == b ==> r.value.amount0 == 0
    ensures r.Ok? && x == a ==> r.value.amount1 == 0
    ensures r.Ok? && 0 < a && liquidity >= 0 ==> r.value.amount0 >= 0 && r.value.amount1 >= 0
  {
    if !(a <= x && x <= b) then Err(AssertionError)
    else if x == 0 || b == 0 then Err(ZeroDivisionError)
    else Ok(Amounts(Amount0ForLiquidity(x, b, liquidity), Amount1ForLiquidity(a, x, liquidity)))
  }

  /** For positive prices the two nested floors of the token0 formula equal one
      floor of liquidity * 2^96 * (b - a) / (a * b). */
  lemma Amount0SingleFloor(a: int, b: int, liquidity: int)
    requires a > 0 && b > 0
    ensures Amount0ForLiquidity(a, b, liquidity) == (liquidity * Q96 * (b - a)) / (a * b)
  {
    FloorArith.NestedDiv(liquidity * Q96 * (b - a), b, a);
  }

  /** More liquidity never backs less token0. */
  lemma Amount0MonotoneInLiquidity(a: int, b: int, l1: int, l2: int)
    requires 0 < a <= b && l1 <= l2
    ensures Amount0ForLiquidity(a, b, l1) <= Amount0ForLiquidity(a, b, l2)
  {
    var n1, n2 := l1 * Q96 * (b - a), l2 * Q96 * (b - a);
    assert n2 - n1 == (l2 - l1) * (Q96 * (b - a));
    assert n1 <= n2;
    FloorArith.DivMonotone(n1, n2, b);
    FloorArith.DivMonotone(n1 / b, n2 / b, a);
  }

  /** More liquidity never backs less token1. */
  lemma Amount1MonotoneInLiquidity(a: int, b: int, l1: int, l2: int)
    requires a <= b && l1 <= l2
    ensures Amount1ForLiquidity(a, b, l1) <= Amount1ForLiquidity(a, b, l2)
  {
    assert l2 * (b - a) - l1 * (b - a) == (l2 - l1) * (b - a);
    FloorArith.DivMonotone(l1 * (b - a), l2 * (b - a), Q96);
  }

  /** Distributing a non-negative factor over a sum of non-negative terms. */
  lemma MulSplit(t: int, p: int, q: int)
    requires t >= 0 && p >= 0 && q >= 0
    ensures 0 <= t * p <= t * (p + q)
  {
    assert t * (p + q) == t * p + t * q;
  }

  /** A higher current price x never backs more token0 over (x, b). */
  lemma Amount0AntitoneInPrice(x1: int, x2: int, b: int, liquidity: int)
    requires 0 < x1 <= x2 <= b && liquidity >= 0
    ensures Amount0ForLiquidity(x1, b, liquidity) >= Amount0ForLiquidity(x2, b, liquidity)
  {
    var t := liquidity * Q96;
    var n1, n2 := t * (b - x1), t * (b - x2);
    MulSplit(t, b - x2, x2 - x1);
    assert b - x2 + (x2 - x1) == b - x1;
    assert 0 <= n2 <= n1;
    FloorArith.NestedDivAntitone(n1, n2, b, x1, x2);
    assert Amount0ForLiquidity(x1, b, liquidity) == (n1 / b) / x1;
    assert Amount0ForLiquidity(x2, b, liquidity) == (n2 / b) / x2;
  }

  /** A higher current price x never backs less token1 over (a, x). */
  lemma Amount1MonotoneInPrice(a: int, x1: int, x2: int, liquidity: int)
    requires x1 <= x2 && liquidity >= 0
    ensures Amount1ForLiquidity(a, x1, liquidity) <= Amount1ForLiquidity(a, x2, liquidity)
  {
    assert liquidity * (x2 - a) - liquidity * (x1 - a) == liquidity * (x2 - x1);
    FloorArith.DivMonotone(liquidity * (x1 - a), liquidity * (x2 - a), Q96);
  }

  /** Within [a, b], a higher current price never backs more token0 and never
      backs less token1. */
  lemma AmountsMonotoneInPrice(x1: int, x2: int, a: int, b: int, liquidity: int)
    requires 0 < a <= x1 <= x2 <= b && liquidity >= 0
    ensures AmountsForLiquidity(x1, a, b, liquidity).Ok? && AmountsForLiquidity(x2, a, b, liquidity).Ok?
    ensures AmountsForLiquidity(x1, a, b, liquidity).value.amount0 >= AmountsForLiquidity(x2, a, b, liquidity).value.amount0
    ensures AmountsForLiquidity(x1, a, b, liquidity).value.amount1 <= AmountsForLiquidity(x2, a, b, liquidity).value.amount1
  {
    Amount0AntitoneInPrice(x1, x2, b, liquidity);
    Amount1MonotoneInPrice(a, x1, x2, liquidity);
  }
}
