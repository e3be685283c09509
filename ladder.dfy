/** The ladder of starting equities `run` sweeps (decisiveml/montecarlo.py):
    `step_size = int(base_equity / 4)` and
    `range(base_equity, base_equity + step_size * steps, step_size)`. */
module Ladder {
  import opened Numeric

  /** Python's `range(start, stop, step)` for a non-zero step. */
  function Range(start: int, stop: int, step: int): seq<int>
    requires step != 0
    decreases if step > 0 then stop - start else start - stop
  {
    if step > 0 && start < stop then [start] + Range(start + step, stop, step)
    else if step < 0 && start > stop then [start] + Range(start + step, stop, step)
    else []
  }

  /** `int(base_equity / 4)`. */
  function StepSize(baseEquity: int): int
  {
    Trunc(baseEquity as real / 4.0)
  }

  /** The step is 0 exactly for a base equity between -3 and 3, and for a
      positive base it is the base divided by 4, rounded down. */
  lemma StepSizeMeaning(baseEquity: int)
    ensures StepSize(baseEquity) == 0 <==> -3 <= baseEquity <= 3
    ensures baseEquity >= 0 ==> StepSize(baseEquity) == baseEquity / 4
    ensures baseEquity < 0 ==> StepSize(baseEquity) == -((-baseEquity) / 4)
  {
    var q := StepSize(baseEquity);
    var x := baseEquity as real / 4.0;
    assert x * 4.0 == baseEquity as real;
    if baseEquity >= 0 {
      assert q as real <= x < q as real + 1.0;
      assert 4 * q <= baseEquity < 4 * q + 4;
    } else {
      assert q as real - 1.0 < x <= q as real;
      assert 4 * q - 4 < baseEquity <= 4 * q;
    }
  }

  /** The levels `range` yields: `base + i * step` for i in 0 .. steps - 1. */
  lemma {:induction false} RangeIsLadder(base: int, step: int, steps: int)
    requires step != 0
    ensures Range(base, base + step * steps, step) == Ladder(base, step, RangeLength(steps))
    decreases RangeLength(steps)
  {
    var stop := base + step * steps;
    StopSide(base, step, steps);
    if steps > 0 {
      assert stop == (base + step) + step * (steps - 1);
      RangeIsLadder(base + step, step, steps - 1);
      LadderCons(base, step, steps);
    }
  }

  /** The stop of a ladder lies beyond its base in the direction of the
      step exactly when there is at least one level. */
  lemma StopSide(base: int, step: int, steps: int)
    requires step != 0
    ensures steps > 0 ==> (step > 0 ==> base < base + step * steps) && (step < 0 ==> base > base + step * steps)
    ensures steps <= 0 ==> (step > 0 ==> base >= base + step * steps) && (step < 0 ==> base <= base + step * steps)
  {
    if steps > 0 {
      MulSign(steps, step);
    } else if steps < 0 {
      MulSign(-steps, step);
    }
  }

  /** A ladder of n > 0 levels is its base in front of the ladder one step up. */
  lemma LadderCons(base: int, step: int, n: nat)
    requires n > 0
    ensures Ladder(base, step, n) == [base] + Ladder(base + step, step, n - 1)
  {
    var l, r := Ladder(base, step, n), [base] + Ladder(base + step, step, n - 1);
    forall i | 0 < i < n
      ensures l[i] == r[i]
    {
      assert i * step == (i - 1) * step + step;
    }
  }

  /** `range(k)` has `RangeLength(k)` elements. */
  lemma RangeLengthIsLen(k: int)
    ensures |Range(0, k, 1)| == RangeLength(k)
  {
    RangeIsLadder(0, 1, k);
  }

  /** The ladder `run` builds from a base equity. */
  function Levels(baseEquity: int, steps: int): seq<int>
    requires StepSize(baseEquity) != 0
  {
    var step := StepSize(baseEquity);
    Range(baseEquity, baseEquity + step * steps, step)
  }

  /** `base + i * step` for i in 0 .. n - 1. */
  function Ladder(base: int, step: int, n: nat): (l: seq<int>)
  {
    seq(n, i requires 0 <= i < n => base + i * step)
  }

  lemma MulSign(a: int, b: int)
    requires a > 0
    ensures b > 0 ==> a * b > 0
    ensures b < 0 ==> a * b < 0
  {
  }

  /** A ladder with a positive step climbs, one with a negative step falls. */
  lemma LadderMonotone(base: int, step: int, n: nat)
    ensures step > 0 ==> forall i, j :: 0 <= i < j < n ==> Ladder(base, step, n)[i] < Ladder(base, step, n)[j]
    ensures step < 0 ==> forall i, j :: 0 <= i < j < n ==> Ladder(base, step, n)[i] > Ladder(base, step, n)[j]
  {
    var l := Ladder(base, step, n);
    forall i, j | 0 <= i < j < n
      ensures step > 0 ==> l[i] < l[j]
      ensures step < 0 ==> l[i] > l[j]
    {
      assert l[j] - l[i] == (j - i) * step;
      MulSign(j - i, step);
    }
  }

  /** From a base of at least 4 the ladder has `steps` levels (none for a
      non-positive count), starts at the base, climbs by the step size and
      is strictly increasing. */
  lemma LevelsAscend(baseEquity: int, steps: int)
    requires baseEquity >= 4
    ensures StepSize(baseEquity) == baseEquity / 4 > 0
    ensures Levels(baseEquity, steps) == Ladder(baseEquity, baseEquity / 4, RangeLength(steps))
    ensures forall i, j :: 0 <= i < j < |Levels(baseEquity, steps)| ==>
              Levels(baseEquity, steps)[i] < Levels(baseEquity, steps)[j]
  {
    StepSizeMeaning(baseEquity);
    RangeIsLadder(baseEquity, StepSize(baseEquity), steps);
    LadderMonotone(baseEquity, baseEquity / 4, RangeLength(steps));
  }

  /** From a base of at most -4 the step is negative and the ladder is
      strictly decreasing. */
  lemma LevelsDescend(baseEquity: int, steps: int)
    requires baseEquity <= -4
    ensures StepSize(baseEquity) < 0
    ensures Levels(baseEquity, steps) == Ladder(baseEquity, StepSize(baseEquity), RangeLength(steps))
    ensures forall i, j :: 0 <= i < j < |Levels(baseEquity, steps)| ==>
              Levels(baseEquity, steps)[i] > Levels(baseEquity, steps)[j]
  {
    StepSizeMeaning(baseEquity);
    RangeIsLadder(baseEquity, StepSize(baseEquity), steps);
    LadderMonotone(baseEquity, StepSize(baseEquity), RangeLength(steps));
  }

  /** A base equity of 1000 over 5 steps gives 1000, 1250, 1500, 1750, 2000. */
  lemma LadderOf1000()
    ensures Levels(1000, 5) == [1000, 1250, 1500, 1750, 2000]
  {
    LevelsAscend(1000, 5);
  }
}
