/** Nearest quantile lookup (chronosQuantileIndex in
    internal/forecast/onnx/chronos2_preprocess.go). */
module QuantileLevels {
  import opened Prelude

  const LEVELS: seq<real> := [
    0.01, 0.05, 0.1, 0.15, 0.2, 0.25, 0.3, 0.35, 0.4, 0.45,
    0.5, 0.55, 0.6, 0.65, 0.7, 0.75, 0.8, 0.85, 0.9, 0.95, 0.99]

  /** The largest finite float64: the search starts with this as its best distance. */
  const MAX_FLOAT64: real := 179769313486231570814527423731704356798070567525844996598917476803157260780028538760589558632766878171540458953514382464234321326889464182768467546703537516986049910576551282076245490090389328944075868508455133942304583236903222948165808559332123348274797826204144723168738177180919299881250404026184124858368.0

  function Distance(i: int, level: real): real
    requires 0 <= i < |LEVELS|
  {
    AbsReal(LEVELS[i] - level)
  }

  /** The search over the first n levels, with the distance to beat. */
  function Best(level: real, n: nat): (int, real)
    requires n <= |LEVELS|
  {
    if n == 0 then (0, MAX_FLOAT64) else
    var (idx, dist) := Best(level, n - 1);
    if Distance(n - 1, level) < dist then (n - 1, Distance(n - 1, level)) else (idx, dist)
  }

  function QuantileIndex(level: real): int {
    Best(level, |LEVELS|).0
  }

  method ChronosQuantileIndex(level: real) returns (bestIdx: int)
    ensures bestIdx == QuantileIndex(level)
  {
    bestIdx := 0;
    var bestDist := MAX_FLOAT64;
    for i := 0 to |LEVELS|
      invariant (bestIdx, bestDist) == Best(level, i)
    {
      var dist := AbsReal(LEVELS[i] - level);
      if dist < bestDist {
        bestDist := dist;
        bestIdx := i;
      }
    }
  }

  /** The lowest index among the nearest levels. */
  predicate LowestNearest(level: real, idx: int) {
    && 0 <= idx < |LEVELS|
    && (forall i :: 0 <= i < |LEVELS| ==> Distance(idx, level) <= Distance(i, level))
    && (forall i :: 0 <= i < idx ==> Distance(idx, level) < Distance(i, level))
  }

  /** What the search knows after n levels: it has the lowest nearest of them, or none of
      them was closer than the largest float. */
  lemma {:induction false} BestSoFar(level: real, n: nat)
    requires n <= |LEVELS|
    ensures var (idx, dist) := Best(level, n);
      && dist <= MAX_FLOAT64
      && (forall i :: 0 <= i < n ==> dist <= Distance(i, level))
      && (dist == MAX_FLOAT64 ==> idx == 0)
      && (dist < MAX_FLOAT64 ==>
            && 0 <= idx < n && dist == Distance(idx, level)
            && forall i :: 0 <= i < idx ==> dist < Distance(i, level))
  {
    if n > 0 {
      BestSoFar(level, n - 1);
    }
  }

  lemma LevelsIncrease(i: nat, j: nat)
    requires i < j < |LEVELS|
    ensures LEVELS[i] < LEVELS[j]
  {
  }

  /** The levels: every twentieth from 0.05 to 0.95, between 0.01 and 0.99. */
  lemma LevelGrid(i: nat)
    requires i < |LEVELS|
    ensures |LEVELS| == 21 && LEVELS[0] == 0.01 && LEVELS[20] == 0.99
    ensures 0 < i < 20 ==> LEVELS[i] == i as real / 20.0
  {
  }

  /** The lookup returns the lowest nearest level, for every level that is a finite float64:
      also where the distance to all of them is as large as the one the search starts with. */
  lemma LookupIsNearest(level: real)
    requires level <= MAX_FLOAT64
    ensures LowestNearest(level, QuantileIndex(level))
  {
    BestSoFar(level, |LEVELS|);
    if Best(level, |LEVELS|).1 == MAX_FLOAT64 {
      assert Distance(20, level) >= MAX_FLOAT64;
      forall i | 0 < i < |LEVELS|
        ensures Distance(0, level) < Distance(i, level)
      {
        LevelsIncrease(0, i);
      }
    }
  }

  lemma AboveMidpoint(level: real, j: nat, i: nat)
    requires j < i && LowestNearest(level, i)
    ensures 2.0 * level > LEVELS[j] + LEVELS[i]
  {
    LevelsIncrease(j, i);
    assert Distance(i, level) < Distance(j, level);
  }

  lemma BelowMidpoint(level: real, j: nat, i: nat)
    requires j < i < |LEVELS| && LowestNearest(level, j)
    ensures 2.0 * level <= LEVELS[j] + LEVELS[i]
  {
    LevelsIncrease(j, i);
    assert Distance(j, level) <= Distance(i, level);
  }

  /** A higher level never maps to a lower index. */
  lemma LookupMonotone(level: real, level': real)
    requires level <= level' <= MAX_FLOAT64
    ensures QuantileIndex(level) <= QuantileIndex(level')
  {
    LookupIsNearest(level);
    LookupIsNearest(level');
    var i, j := QuantileIndex(level), QuantileIndex(level');
    if j < i {
      AboveMidpoint(level, j, i);
      BelowMidpoint(level', j, i);
    }
  }
}
