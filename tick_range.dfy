/** Choosing the tick range of a fixed-width position: the full range for a
    width of 0, the usable tick nearest the current tick, a symmetric range of
    half-width `tickWidth // 2` around it, and the widening search that steps
    both ends outward until the pool has both of them initialized
    (kodiak_simulations_2023_07/runners/base.py, kodiak_simulations_2023_07/runner.py).
    The pool's tick table is the predicate `initialized`; the constant
    `MAX_TICK` is the parameter `maxTick`. */
module TickRange {
  import opened Errors
  import FloorArith

  /** A candidate (lower, upper) tick pair. */
  datatype Ticks = Ticks(lower: int, upper: int)

  /** The constructors' validation: `(tick_width // 2) % tick_spacing == 0`. */
  predicate HalfWidthAligned(tickWidth: int, spacing: int)
    requires spacing > 0
  {
    (tickWidth / 2) % spacing == 0
  }

  const HalfWidthMessage: string := "self.tick_width // 2 not a multiple of pool.tickSpacing"

  /** The half-width validation every runner's `__init__` performs: a
      ValueError unless half the width is a multiple of the pool's spacing. */
  function CheckHalfWidth(tickWidth: int, spacing: int): (r: Outcome)
    requires spacing > 0
    ensures r.Pass? <==> HalfWidthAligned(tickWidth, spacing)
    ensures r.Fail? ==> r == Fail(ValueError(HalfWidthMessage))
  {
    if (tickWidth / 2) % spacing != 0 then Fail(ValueError(HalfWidthMessage)) else Pass
  }

  /** Differences and sums of multiples of `s` are multiples of `s`. */
  lemma MultipleClosed(x: int, y: int, s: int)
    requires s > 0
    ensures x % s == 0 && y % s == 0 ==> (x - y) % s == 0 && (x + y) % s == 0
  {
    if x % s == 0 && y % s == 0 {
      assert x - y == s * (x / s - y / s);
      assert x + y == s * (x / s + y / s);
      FloorArith.MultipleMod(s, x / s - y / s);
      FloorArith.MultipleMod(s, x / s + y / s);
    }
  }

  /** The full range used when the width is 0: the largest multiple of the
      spacing not above `maxTick`, and its negation. */
  function FullRange(maxTick: int, spacing: int): (t: Ticks)
    requires spacing > 0
    ensures t.upper % spacing == 0
    ensures t.upper <= maxTick < t.upper + spacing
    ensures t.lower == -t.upper
  {
    var upper := maxTick - maxTick % spacing;
    FloorArith.MultipleMod(spacing, maxTick / spacing);
    Ticks(-upper, upper)
  }

  /** The usable tick the range is centred on: the current tick rounded to a
      multiple of the spacing, downward exactly when the remainder is below
      `spacing // 2`. With spacing 1 the remainder is never below 0, so the
      centre is always the tick above. */
  function NearestUsableTick(tick: int, spacing: int): (center: int)
    requires spacing > 0
    ensures center % spacing == 0
    ensures center <= tick <==> tick % spacing < spacing / 2
    ensures -(spacing - spacing / 2) <= center - tick <= spacing - spacing / 2
    ensures spacing == 1 ==> center == tick + 1
  {
    var remainder := tick % spacing;
    FloorArith.MultipleMod(spacing, tick / spacing);
    FloorArith.MultipleMod(spacing, tick / spacing + 1);
    assert tick + (spacing - remainder) == spacing * (tick / spacing + 1);
    if remainder < spacing / 2 then tick - remainder else tick + (spacing - remainder)
  }

  /** The initial guess: `tickWidth // 2` on either side of the nearest usable
      tick. When the constructors' check holds, both ends are usable ticks. */
  function CenteredTicks(tick: int, tickWidth: int, spacing: int): (t: Ticks)
    requires spacing > 0
    ensures t.lower + t.upper == 2 * NearestUsableTick(tick, spacing)
    ensures t.upper - t.lower == 2 * (tickWidth / 2)
    ensures HalfWidthAligned(tickWidth, spacing) ==> t.lower % spacing == 0 && t.upper % spacing == 0
    ensures tickWidth == 0 ==> t.lower == t.upper
  {
    var center := NearestUsableTick(tick, spacing);
    MultipleClosed(center, tickWidth / 2, spacing);
    Ticks(center - tickWidth / 2, center + tickWidth / 2)
  }

  /** Both ends of the pair are initialized in the pool. */
  predicate Qualifies(initialized: int -> bool, t: Ticks)
  {
    initialized(t.lower) && initialized(t.upper)
  }

  /** The pair the widening loop checks after k failed checks: the given pair
      first, then `center -/+ width // 2` for the width grown by `2 * spacing`
      per failed check. */
  function Candidate(center: int, lower0: int, upper0: int, spacing: int, k: nat): (t: Ticks)
    ensures k == 0 ==> t == Ticks(lower0, upper0)
    ensures k > 0 ==> center - t.lower == t.upper - center
  {
    if k == 0 then Ticks(lower0, upper0)
    else
      var tickWidth := upper0 - lower0 + 2 * spacing * k;
      Ticks(center - tickWidth / 2, center + tickWidth / 2)
  }

  /** After the first widening, every further widening moves each end outward
      by exactly one spacing. */
  lemma CandidateStep(center: int, lower0: int, upper0: int, spacing: int, k: nat)
    requires k >= 1
    ensures Candidate(center, lower0, upper0, spacing, k + 1).lower == Candidate(center, lower0, upper0, spacing, k).lower - spacing
    ensures Candidate(center, lower0, upper0, spacing, k + 1).upper == Candidate(center, lower0, upper0, spacing, k).upper + spacing
  {
    var w := upper0 - lower0 + 2 * spacing * k;
    assert upper0 - lower0 + 2 * spacing * (k + 1) == w + 2 * spacing;
  }

  /** For a pair symmetric about the centre, the k-th candidate is the pair
      moved outward by k spacings on each side. */
  lemma SymmetricCandidates(center: int, halfWidth: int, spacing: int, k: nat)
    ensures Candidate(center, center - halfWidth, center + halfWidth, spacing, k)
         == Ticks(center - halfWidth - spacing * k, center + halfWidth + spacing * k)
  {
    if k > 0 {
      var w := center + halfWidth - (center - halfWidth) + 2 * spacing * k;
      assert w == 2 * (halfWidth + spacing * k);
      assert w / 2 == halfWidth + spacing * k;
    }
  }

  /** Some candidate of the widening sequence qualifies, so the loop ends. */
  ghost predicate EventuallyQualifies(initialized: int -> bool, center: int, lower0: int, upper0: int, spacing: int)
  {
    exists k: nat :: Qualifies(initialized, Candidate(center, lower0, upper0, spacing, k))
  }

  /** `_find_nearest_lp_ticks`: check the pair and, while an end is
      uninitialized, widen by `2 * spacing`. The source loop has no bound; the
      precondition is that it ends. It returns the first qualifying candidate. */
  method FindNearestLpTicks(initialized: int -> bool, center: int, lower0: int, upper0: int, spacing: int)
    returns (t: Ticks)
    requires EventuallyQualifies(initialized, center, lower0, upper0, spacing)
    ensures Qualifies(initialized, t)
    ensures exists k: nat :: t == Candidate(center, lower0, upper0, spacing, k)
                          && forall j: nat :: j < k ==> !Qualifies(initialized, Candidate(center, lower0, upper0, spacing, j))
    ensures Qualifies(initialized, Ticks(lower0, upper0)) ==> t == Ticks(lower0, upper0)
  {
    ghost var bound: nat :| Qualifies(initialized, Candidate(center, lower0, upper0, spacing, bound));
    var tickWidth := upper0 - lower0;
    var tickLower, tickUpper := lower0, upper0;
    ghost var k: nat := 0;
    var found := false;
    while !found
      invariant k <= bound
      invariant Ticks(tickLower, tickUpper) == Candidate(center, lower0, upper0, spacing, k)
      invariant tickWidth == upper0 - lower0 + 2 * spacing * k
      invariant forall j: nat :: j < k ==> !Qualifies(initialized, Candidate(center, lower0, upper0, spacing, j))
      invariant found ==> Qualifies(initialized, Ticks(tickLower, tickUpper))
      decreases bound - k, !found
    {
      var lowerInitialized := initialized(tickLower);
      var upperInitialized := initialized(tickUpper);
      found := lowerInitialized && upperInitialized;
      if !found {
        FloorArith.MulDistributes(2 * spacing, k, 1);
        tickWidth := tickWidth + 2 * spacing;
        k := k + 1;
        tickLower := center - tickWidth / 2;
        tickUpper := center + tickWidth / 2;
      }
    }
    t := Ticks(tickLower, tickUpper);
    assert t == Candidate(center, lower0, upper0, spacing, k);
    assert Candidate(center, lower0, upper0, spacing, 0) == Ticks(lower0, upper0);
  }

  /** With a usable centre and a half-width that is not a multiple of the
      spacing, the lower end of every candidate is not a usable tick. */
  lemma MisalignedCandidate(center: int, halfWidth: int, spacing: int, k: nat)
    requires spacing > 0 && center % spacing == 0 && halfWidth % spacing != 0
    ensures Candidate(center, center - halfWidth, center + halfWidth, spacing, k).lower % spacing != 0
  {
    SymmetricCandidates(center, halfWidth, spacing, k);
    var lower := center - halfWidth - spacing * k;
    var shifted := center - spacing * k;
    FloorArith.MultipleMod(spacing, k);
    MultipleClosed(center, spacing * k, spacing);
    MultipleClosed(shifted, lower, spacing);
    assert shifted - lower == halfWidth;
  }

  /** When the centre is a usable tick but the half-width is not a multiple of
      the spacing, no candidate end is a usable tick; a pool that initializes
      only usable ticks then never satisfies the loop. */
  lemma MisalignedNeverQualifies(initialized: int -> bool, center: int, halfWidth: int, spacing: int)
    requires spacing > 0 && center % spacing == 0 && halfWidth % spacing != 0
    requires forall tick :: initialized(tick) ==> tick % spacing == 0
    ensures !EventuallyQualifies(initialized, center, center - halfWidth, center + halfWidth, spacing)
  {
    var lower0, upper0 := center - halfWidth, center + halfWidth;
    forall k: nat
      ensures !Qualifies(initialized, Candidate(center, lower0, upper0, spacing, k))
    {
      MisalignedCandidate(center, halfWidth, spacing, k);
    }
  }
}
