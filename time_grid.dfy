/**
 * The instants the sampling loop visits: `start`, `start + step`, ... up to
 * and including the last one not after `end`.
 */
module TimeGrid {

  /** The `k`-th instant of the sweep that begins at `start`. */
  function GridPoint(start: int, step: int, k: nat): int
  {
    start + k * step
  }

  predicate StrictlyAscending(s: seq<int>)
  {
    forall i, j :: 0 <= i < j < |s| ==> s[i] < s[j]
  }

  /** A positive multiple of a positive step is at least the step. */
  lemma {:induction false} MultipleAtLeastStep(d: int, step: int)
    requires d >= 1 && step > 0
    ensures d * step >= step
    decreases d
  {
    if d > 1 {
      MultipleAtLeastStep(d - 1, step);
      assert d * step == (d - 1) * step + step;
    }
  }

  /** Euclidean division is determined by quotient and remainder. */
  lemma DivUnique(x: int, step: int, q: int, r: int)
    requires step > 0 && 0 <= r < step && x == q * step + r
    ensures x / step == q
  {
    var q', r' := x / step, x % step;
    assert x == q' * step + r' && 0 <= r' < step;
    assert q * step - q' * step == r' - r;
    if q' < q {
      assert (q - q') * step == q * step - q' * step;
      MultipleAtLeastStep(q - q', step);
    } else if q' > q {
      assert (q' - q) * step == q' * step - q * step;
      MultipleAtLeastStep(q' - q, step);
    }
  }

  /** Removing one step from the numerator removes one from the quotient. */
  lemma DivMinusStep(x: int, step: int)
    requires step > 0 && x >= step
    ensures (x - step) / step == x / step - 1
  {
    var q, r := x / step, x % step;
    assert x - step == (q - 1) * step + r;
    DivUnique(x - step, step, q - 1, r);
  }

  /** The instants visited when sweeping from `start` to `end` by `step`.
      An empty sweep (`start > end`) needs no step; otherwise the step must be
      positive, as the sweep would never end. */
  function Grid(start: int, end: int, step: int): (g: seq<int>)
    requires step > 0 || start > end
    ensures start > end ==> g == []
    ensures start <= end ==> |g| == (end - start) / step + 1
    ensures forall i :: 0 <= i < |g| ==> g[i] == GridPoint(start, step, i)
    ensures forall i :: 0 <= i < |g| ==> start <= g[i] <= end
    ensures StrictlyAscending(g)
    decreases end - start
  {
    if start > end then []
    else
      var rest := Grid(start + step, end, step);
      assert |rest| + 1 == (end - start) / step + 1 by {
        if start + step <= end {
          DivMinusStep(end - start, step);
        } else {
          DivUnique(end - start, step, 0, end - start);
        }
      }
      assert forall i :: 0 < i < |rest| + 1 ==> rest[i - 1] == GridPoint(start, step, i) by {
        forall i | 0 < i < |rest| + 1 ensures rest[i - 1] == GridPoint(start, step, i) {
          GridPointShift(start, step, i - 1);
        }
      }
      [start] + rest
  }

  /** The sweep that starts one step later visits the same instants, one
      index earlier. */
  lemma GridPointShift(start: int, step: int, k: nat)
    ensures GridPoint(start + step, step, k) == GridPoint(start, step, k + 1)
  {
    assert (k + 1) * step == k * step + step;
  }

  /** Every grid point not after `end` is visited. */
  lemma {:induction false} GridContains(start: int, end: int, step: int, k: nat)
    requires step > 0
    requires GridPoint(start, step, k) <= end
    ensures GridPoint(start, step, k) in Grid(start, end, step)
    decreases k
  {
    if k > 0 {
      GridPointShift(start, step, k - 1);
      GridContains(start + step, end, step, k - 1);
      assert Grid(start, end, step) == [start] + Grid(start + step, end, step);
    } else {
      assert Grid(start, end, step)[0] == start;
    }
  }

  /** An instant is visited exactly when it is a grid point not after `end`. */
  lemma GridMembership(start: int, end: int, step: int, t: int)
    requires step > 0
    ensures t in Grid(start, end, step) <==>
              t <= end && exists k: nat :: GridPoint(start, step, k) == t
  {
    var g := Grid(start, end, step);
    if t in g {
      var i :| 0 <= i < |g| && g[i] == t;
      assert GridPoint(start, step, i) == t;
    }
    if t <= end && exists k: nat :: GridPoint(start, step, k) == t {
      var k: nat :| GridPoint(start, step, k) == t;
      GridContains(start, end, step, k);
    }
  }
}
