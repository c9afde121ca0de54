# Kodiak LP backtest runners in Dafny

This is a Dafny model of the integer core of the Kodiak Uniswap v3 liquidity-provider backtests (`kodiak_simulations_2023_07`). It covers three parts:

- The Q64.96 fixed-point formulas that split a liquidity value into its token0 and token1 amounts (`utils.py`).
- The selection of a position's tick range: the full range, the usable tick nearest the current tick, a symmetric range around it, and the loop that widens the range until both ends are initialized ticks of the pool (`runners/base.py`, `runner.py`, `base.py`).
- The rebalancing bookkeeping of the runner classes (`runner.py`, `base.py`, `runners/full.py`, `runners/optimized.py`):
  - construction validation;
  - the gate on the last rebalanced block;
  - the field updates of a rebalance;
  - the choice between minting and burning tokens;
  - the WETH/token naming of amounts;
  - the derivation of amounts from liquidity, or of liquidity from one amount;
  - the snap of an optimized width to the tick spacing.

Modules:

- `Errors`: the Python exceptions the code can raise, carried in `Result` and `Outcome` values.
- `FloorArith`: facts about integer division.
- `LiquidityAmounts`: `utils.py`.
- `TickRange`: the tick arithmetic and the widening loop of `runners/base.py`.
- `Strategy`: the rebalance gate and the mint-or-burn choice. Every `update_strategy` repeats them.
- `RunnersBase`: the `UniswapV3LPFixedWidthRunner` class of `runners/base.py`.
- `Runner`: the class of `runner.py`.
- `Base`: the class of `base.py`.
- `Full`: `runners/full.py`.
- `Optimized`: `runners/optimized.py`.

The full, simple and optimized runners are subclasses of the `runners/base.py` class, and the simple runner adds only the class variable `_backtester_name = "UniswapV3LPSimpleBacktest"` (`runners/simple.py:9`), which picks the backtesting library's backtest contract. One Dafny class, `RunnersBase.FixedWidthRunner`, therefore stands for all of them. The subclass methods are module-level methods that take the runner and name the fields they change in `modifies`.

Everything outside the Python program is an input of the model:

- `sqrtRatioAtTick`: the square-root price of a tick.
- `initialized`: whether the pool has a tick initialized.
- `maxTick`: the `MAX_TICK` constant.
- `liquidityForAmount0` and `liquidityForAmount1`.
- For each contract call, the value it returns: token balances, the backtester's position count, the liquidity minted.
- For the optimized runner, the outcome of the floating-point optimization.

Python's floor `//` and `%` equal Dafny's operators for the positive divisors involved. The token0 formula divides by square-root prices, which could be nonpositive, so it uses `FloorDiv`, which is Python's floor division for either sign.

The model keeps the behaviour of the code as written, including its defects:

- `runners/full.py:44` calls `_calculate_lp_ticks(state)` with one argument, but the method takes two, so the full runner's `init_mocks_state` always raises TypeError.
- `base.py:138-139` assigns into an empty list, so every rebalance of the base runner whose amounts are computable raises IndexError before any token is moved.
- `runners/optimized.py:54` raises a string, which Python turns into a TypeError.
- The widening loop at `runners/base.py:96` has no iteration bound. The model requires that some pair of the widening sequence qualifies. `TickRange.MisalignedNeverQualifies` and `Optimized.OddSnapNeverQualifies` show that this can fail: in a pool that initializes only multiples of the spacing, a half-width that is not a multiple of the spacing never qualifies.
- With a tick spacing of 1, the nearest-tick rounding of `runners/base.py:65-70` always moves one tick up (`remainder < 1 // 2` is never true).

Three further points about the code that the model keeps:

- The widening loop stops only when both ends are initialized. Nothing caps the number of iterations, and no error is raised when none qualifies.
- `runners/optimized.py:78` rounds the optimized width down to a multiple of the spacing. It does not round to an even number of spacings, and it does not clamp a result of 0. For a spacing above 1, an odd number of spacings breaks the half-width validation, and 0 selects the full range.
- Every constructor validates half the width, `tick_width // 2`, against the spacing, not the width itself.

## Model

| member | source | states |
|---|---|---|
| LiquidityAmounts.FloorDiv | kodiak_simulations_2023_07/utils.py:12-13 | the quotient is the floor of n / d for a divisor of either sign: q*d <= n < q*d + d for d > 0, mirrored for d < 0; it is non-negative for non-negative n over positive d, and 0 for n = 0 |
| LiquidityAmounts.Amount0ForLiquidity | kodiak_simulations_2023_07/utils.py:6-13 | token0 for a liquidity between prices a and b is non-negative for 0 < a <= b and non-negative liquidity, and it is 0 when a = b or the liquidity is 0 |
| LiquidityAmounts.Amount1ForLiquidity | kodiak_simulations_2023_07/utils.py:16-21 | token1 is the floor of liquidity*(b - a)/2^96: amount1*2^96 <= liquidity*(b - a) < (amount1 + 1)*2^96; it is non-negative for a <= b and non-negative liquidity, and 0 when a = b or the liquidity is 0 |
| LiquidityAmounts.AmountsForLiquidity | kodiak_simulations_2023_07/utils.py:24-34 | the assertion fails exactly when the price x is outside [a, b]; a result exists exactly when a <= x <= b and neither x nor b is 0; inside [a, b] a zero x or b gives ZeroDivisionError; token0 is counted over (x, b) and token1 over (a, x), so x = b gives no token0 and x = a gives no token1 |
| LiquidityAmounts.Amount0SingleFloor | kodiak_simulations_2023_07/utils.py:11-13 | for positive prices the two nested floor divisions of the token0 formula equal the single floor of liquidity*2^96*(b - a)/(a*b) |
| LiquidityAmounts.Amount0MonotoneInLiquidity | kodiak_simulations_2023_07/utils.py:6-13 | for 0 < a <= b, more liquidity never backs less token0 |
| LiquidityAmounts.Amount1MonotoneInLiquidity | kodiak_simulations_2023_07/utils.py:16-21 | for a <= b, more liquidity never backs less token1 |
| LiquidityAmounts.Amount0AntitoneInPrice | kodiak_simulations_2023_07/utils.py:32 | for non-negative liquidity and 0 < x1 <= x2 <= b, the token0 amount over (x, b) at x2 is at most the one at x1 |
| LiquidityAmounts.Amount1MonotoneInPrice | kodiak_simulations_2023_07/utils.py:33 | for non-negative liquidity and x1 <= x2, the token1 amount over (a, x) at x2 is at least the one at x1 |
| LiquidityAmounts.AmountsMonotoneInPrice | kodiak_simulations_2023_07/utils.py:31-33 | on a positive range [a, b], both prices give results, and a higher current price never backs more token0 or less token1 |
| TickRange.FullRange | kodiak_simulations_2023_07/runners/base.py:58-61 | the upper tick is the largest multiple of the spacing not above MAX_TICK, and the lower tick is its negation |
| TickRange.NearestUsableTick | kodiak_simulations_2023_07/runners/base.py:65-70 | the centre is a multiple of the spacing; it rounds down exactly when the remainder is below spacing // 2; it lies within spacing - spacing // 2 of the tick; with spacing 1 it is always tick + 1 |
| TickRange.CenteredTicks | kodiak_simulations_2023_07/runners/base.py:65-74 | the pair is symmetric about the nearest usable tick, its width is 2*(tick_width // 2), both ends are usable ticks when the half-width is a multiple of the spacing, and a width of 0 gives lower = upper; runner.py:68-76 computes the same pair |
| TickRange.Candidate | kodiak_simulations_2023_07/runners/base.py:104-109 | the pair checked after k failed checks: the given pair for k = 0, and a pair symmetric about the centre for k > 0 |
| TickRange.CandidateStep | kodiak_simulations_2023_07/runners/base.py:106-109 | after the first widening, each further failed check moves each end outward by exactly one spacing |
| TickRange.SymmetricCandidates | kodiak_simulations_2023_07/runners/base.py:106-109 | from the guess centre +- h, the k-th pair is centre - h - k*spacing to centre + h + k*spacing |
| TickRange.FindNearestLpTicks | kodiak_simulations_2023_07/runners/base.py:81-111 | when some pair of the widening sequence qualifies, the loop returns a pair whose ends are both initialized; it is the first qualifying pair of the sequence, so no narrower pair of it qualifies; a given pair that qualifies is returned unchanged |
| TickRange.MisalignedCandidate | kodiak_simulations_2023_07/runners/base.py:106-109 | from a centre that is a usable tick and a half-width that is not a multiple of the spacing, no pair of the widening sequence has a usable lower tick |
| TickRange.MisalignedNeverQualifies | kodiak_simulations_2023_07/runners/base.py:96-111 | if the pool initializes only multiples of the spacing, a misaligned half-width makes the widening loop run forever: no pair of the sequence qualifies |
| RunnersBase.CheckConfig | kodiak_simulations_2023_07/runners/base.py:40-46 | construction passes exactly when some liquidity or amount is nonzero and tick_width // 2 is a multiple of the spacing; all-zero inputs fail first, with ValueError("both self.liquidity and self.amounts == 0"), and every failure is a ValueError |
| RunnersBase.FixedWidthRunner.constructor | kodiak_simulations_2023_07/runners/base.py:20-46 | a runner built from a valid configuration stores it and the pool's spacing, and starts with token id -1, its block counters and fee totals at 0, and the half-width validation holding; the tick pair is the backtesting library's initial value, passed in |
| RunnersBase.FixedWidthRunner.CalculateLpTicks | kodiak_simulations_2023_07/runners/base.py:48-79 | width 0 gives the full range; otherwise the first pair of the widening sequence from the centred guess whose ends are both initialized |
| TickRange.CheckHalfWidth | kodiak_simulations_2023_07/runner.py:30-33 | construction passes exactly when tick_width // 2 is a multiple of the pool's spacing, and a failure is ValueError with the source's message; base.py:27-30 and runners/base.py:44-46 perform the same validation |
| Runner.FixedWidthRunner.constructor | kodiak_simulations_2023_07/runner.py:14-33 | a runner built from a valid width stores its configuration and the pool's spacing, and starts with token id 1 and no rebalanced block; the tick pair is the backtesting library's initial value, passed in |
| Runner.FixedWidthRunner.InitMocksState | kodiak_simulations_2023_07/runner.py:78-103 | the ticks become the centred pair; if the amounts exist there, they are those backing the configured liquidity at the current tick, and the liquidity becomes the minted one; otherwise the outcome is the amount error and only the ticks changed |
| Runner.FixedWidthRunner.UpdateStrategy | kodiak_simulations_2023_07/runner.py:105-198 | the first call records the block and changes nothing else; a call before last + period changes nothing; a rebalance sets last := number, recentres the ticks, takes the amounts from get_amounts_for_liquidity with the pre-rebalance liquidity, mints or burns so each balance becomes the new amount, and stores the new token id and minted liquidity; a failing amount computation leaves amounts, liquidity and token id as they were |
| Strategy.RebalanceGate | kodiak_simulations_2023_07/runner.py:113-117 | the first call (last = 0) records the block; a call before last + period holds; a call at or after it rebalances; each case is an if-and-only-if |
| Strategy.RebalancesArePeriodApart | kodiak_simulations_2023_07/runner.py:113-119 | after a recorded or rebalanced block n1 > 0, the next rebalance happens no earlier than n1 + period |
| Strategy.MintOrBurn | kodiak_simulations_2023_07/runner.py:151-177 | mints exactly when the desired amount exceeds the balance, and mints a positive amount; never moves a negative amount; the resulting balance equals the desired amount; a burn never exceeds the balance when the desired amount is non-negative |
| Base.RawCenteredTicks | kodiak_simulations_2023_07/base.py:66-67 | the pair is symmetric about the raw current tick, with no rounding to the spacing, its width is 2*(tick_width // 2), and it contains the tick for a non-negative width |
| Base.ToWethAmounts | kodiak_simulations_2023_07/base.py:74-75 | the WETH amount is amount0 when token0's symbol is WETH and amount1 otherwise; the pair is a permutation of the two amounts |
| Base.WethAmountsRoundTrip | kodiak_simulations_2023_07/base.py:74-75 | naming amounts by token and going back to token order lose nothing, in both directions |
| Base.FixedWidthBaseRunner.constructor | kodiak_simulations_2023_07/base.py:12-30 | a runner built from a valid width stores it, with token id 1 and no rebalanced block; the tick pair and the WETH and token amounts are the backtesting library's initial values, passed in |
| Base.FixedWidthBaseRunner.InitMocksState | kodiak_simulations_2023_07/base.py:57-79 | the ticks become the raw tick +- tick_width // 2; if the amounts exist there, the WETH and token amounts are the named amounts backing the configured liquidity and the liquidity becomes the minted one; otherwise the outcome is the amount error |
| Base.FixedWidthBaseRunner.UpdateStrategy | kodiak_simulations_2023_07/base.py:81-139 | same gate as runner.py; a rebalance sets last := number and recentres the same-width range on the raw tick, then fails, either with the amount error or with the IndexError of the empty-list store; amounts, liquidity and token id never change |
| Full.ResolvePosition | kodiak_simulations_2023_07/runners/full.py:48-85 | a nonzero liquidity wins and the amounts are those backing it; with only amount0 given, amount0 is kept, the liquidity comes from get_liquidity_for_amount0(price, upper) and amount1 is derived from that liquidity; the amount1-only case mirrors it with get_liquidity_for_amount1(lower, price); with liquidity 0 and both amounts zero, or both nonzero, nothing changes; failures are only the assertion outside the range and the zero-price division |
| Full.ResolveInRange | kodiak_simulations_2023_07/runners/full.py:48-85 | inside a positive, ordered price range every branch yields a position |
| Full.ApplyPosition | kodiak_simulations_2023_07/runners/full.py:48-85 | the branch block runs on the runner's own fields: only liquidity, amount0 and amount1 may change; on success they become the position `ResolvePosition` gives for their old values, and on an error none of them changes |
| Full.InitMocksState | kodiak_simulations_2023_07/runners/full.py:44 | the call with the wrong number of arguments makes init_mocks_state raise TypeError |
| Full.SetUpPosition | kodiak_simulations_2023_07/runners/full.py:45-128 | the ticks are stored; if the position resolves, the amounts are the resolved ones, the backtester is funded with 1000 times each amount, the token id is count + 1, the block is marked processed and the liquidity becomes the minted one; otherwise the amounts, liquidity, token id and processed block stay; the frame lists exactly the fields written, so the fee totals, the fee-compounding flag, the width, the spacing and the rebalance fields never change |
| Full.UpdateStrategy | kodiak_simulations_2023_07/runners/full.py:130-147 | the block is always marked processed; the gate is that of the other runners; the last rebalanced block is set only on the first call and never advances; the frame allows only these two fields to change, so no position, fee or configuration field changes |
| Optimized.CheckConfig | kodiak_simulations_2023_07/runners/optimized.py:15-22 | construction passes exactly when some amount is nonzero and the half-width validation holds; a pass implies the fixed-width runner's validation passes, a failure of that validation is reported as is, and both amounts zero always fail with a ValueError |
| Optimized.ElChoice | kodiak_simulations_2023_07/runners/optimized.py:48-54 | el is computed from amount1 when it is nonzero and from amount0 otherwise; a zero divisor raises ZeroDivisionError; with both amounts zero the string raise gives TypeError; each case is an if-and-only-if |
| Optimized.SnapTickWidth | kodiak_simulations_2023_07/runners/optimized.py:78 | the snapped width is a multiple of the spacing, at most the width and within one spacing of it, and non-negative for a non-negative width |
| Optimized.SnapZeroIffBelowSpacing | kodiak_simulations_2023_07/runners/optimized.py:78 | a non-negative width snaps to 0, so the inherited tick calculation chooses the full range, exactly when it is below one spacing |
| Optimized.SnapHalfWidthAligned | kodiak_simulations_2023_07/runners/optimized.py:76-80 | the snapped width satisfies the half-width validation exactly when the spacing is 1 or the number of spacings is even |
| Optimized.OddSnapNeverQualifies | kodiak_simulations_2023_07/runners/optimized.py:78-80 | in a pool that initializes only multiples of a spacing above 1, an odd number of spacings leaves the next widening loop without a qualifying pair |
| Optimized.OptimizedTickWidth | kodiak_simulations_2023_07/runners/optimized.py:41-80 | the el error is raised first, then the optimization's error; otherwise the stored width is the optimized width rounded down to a multiple of the spacing |
| Optimized.ShouldReoptimize | kodiak_simulations_2023_07/runners/optimized.py:98 | re-optimizing happens exactly when the gate of the strategy update rebalances: last > 0 and number >= last + period |
| Optimized.OptimizeTickWidth | kodiak_simulations_2023_07/runners/optimized.py:41-80 | only tick_width may change; it becomes the optimized, snapped width, or stays on the error |
| Optimized.InitMocksState | kodiak_simulations_2023_07/runners/optimized.py:82-90 | the width is optimized before the inherited set-up, as in OptimizeTickWidth |
| Optimized.UpdateStrategy | kodiak_simulations_2023_07/runners/optimized.py:92-102 | the width is re-optimized exactly when the rebalance gate opens, and left unchanged otherwise |

## Left out

- `get_sqrt_ratio_at_tick` (floating point `1.0001 ** tick`) is the function parameter `sqrtRatioAtTick`.
- `get_liquidity_for_amount0` and `get_liquidity_for_amount1` are not defined in `utils.py`, so the import at `runners/full.py:7-12` fails as written. The model takes them as function parameters, as if the import had succeeded.
- `MAX_TICK` comes from a constants module that is not part of this model; it is the parameter `maxTick`.
- `pool.ticks(...)` is reduced to the predicate `initialized`.
- Every contract and chain call is an input or left out: deploying and setting mocks, reading mock state, reading position liquidity, minting and removing liquidity, `multicall`, `execute`, and the backtester's `count` and `push`.
- Token balances and mint liquidity are read from contracts, so they are inputs. The mint and burn transactions appear only as the `TokenAction` values they would transfer.
- `record` (CSV output), click logging, the scripts and the `__init__`/declaration-only modules are I/O or declarations.
- `math.py`, `optimize.py` and `_calculate_theta` are floating-point finance and historical-state lookups. So is the float conversion of the optimal delta into a width at `runners/optimized.py:77`. The model takes that integer width, or the error the optimization raised, as the input `optimizedWidth`.
- Optimized.ElChoice: models which amount `el` is computed from and when the division by zero or the TypeError happens, not the floating-point value of `el`. A large integer quotient can also raise OverflowError in Python's true division; that case is not modelled.
- Optimized.InitMocksState and Optimized.UpdateStrategy: the `super()` calls that follow the width optimization go to the backtesting library's `UniswapV3LPBaseRunner` (through the simple and fixed-width runners, which do not override them). That library is not part of this model.
- Runner.FixedWidthRunner.InitMocksState: the inherited library set-up called at `runner.py:100` is not part of this model; only its minted liquidity is an input.
- Base.FixedWidthBaseRunner.InitMocksState: assumes the minted liquidity is read successfully. `_get_position_liquidity` calls `manager.position(token_id)` at `base.py:40`, before `manager.positions(token_id)`. The Uniswap v3 position manager has no `position` method. If the mock manager, which is not part of this model, follows it, that call raises AttributeError, so `init_mocks_state` fails at `base.py:79` after the ticks and the WETH and token amounts are assigned. The model takes `mintedLiquidity` as an input and does not model that AttributeError.
- Base.FixedWidthBaseRunner.UpdateStrategy: the mint-or-burn choice at `base.py:134-160` is evaluated, but it is thrown away when the list store raises IndexError, so the model returns only the error. Removing liquidity first (`base.py:104-120`) is a contract call and is left out.
- Full.ResolvePosition: assumes that `get_liquidity_for_amount0` and `get_liquidity_for_amount1` exist and return an integer. As written they are missing from `utils.py` (the ImportError above). Its claim that failures are only the assertion and the zero-price division holds under that assumption.
- Optimized.ElChoice: takes the pool liquidity and the square-root price as given values. `runners/optimized.py:50,52` read them as `state["liquidity"]` and `state["sqrtPriceX96"]`. Every reader outside `runners/optimized.py` uses `state["slot0"].sqrtPriceX96` instead, and the state built at `runners/base.py:121-128` has no `sqrtPriceX96` key, so the lookup may raise KeyError before any division. The mapping handed to `update_strategy` comes from the backtesting library, which is not part of this model, so KeyError is not modelled. Its claim that errors are only ZeroDivisionError or TypeError holds only when the lookup succeeds.
- Full.SetUpPosition: `runners/full.py:44` always raises, so the rest of `init_mocks_state` is modelled from a given tick pair, as if the call had succeeded. The refetch of reference state and the mock, approve and mint calls in between are contract calls.
- LiquidityAmounts.Amount0ForLiquidity: requires both prices to be nonzero, whereas the source raises ZeroDivisionError. That error is modelled in `AmountsForLiquidity`, the only caller.
- TickRange.FindNearestLpTicks: the source loop has no bound. The model requires that some pair of the widening sequence qualifies, and does not model the non-terminating run.
- Fixed-width integers do not apply: Python integers are unbounded like Dafny's.
