/** How often one request can change while demand only grows: a geometric bound. */
module ResizeCount {
  import opened Prelude
  import opened ResizeApi
  import opened Sizing
  import opened Threshold

  /** A request over time. Each step proposes a target; the filtered target lands, or
      nothing happens (the pod was skipped, or the update was rejected). */
  predicate Trajectory(requests: seq<Quantity>, proposals: seq<Quantity>, thr: int) {
    && |requests| == |proposals| + 1
    && forall i :: 0 <= i < |proposals| ==>
         requests[i + 1] == requests[i] || requests[i + 1] == Decide(requests[i], proposals[i], thr)
  }

  predicate NonDecreasing(s: seq<int>) {
    forall i, j :: 0 <= i <= j < |s| ==> s[i] <= s[j]
  }

  function Changes(requests: seq<Quantity>): nat {
    if |requests| <= 1 then 0
    else Changes(requests[..|requests| - 1]) +
         (if requests[|requests| - 1] != requests[|requests| - 2] then 1 else 0)
  }

  /** An accepted increase multiplies the request by at least (100 + thr) / 100. */
  lemma AcceptedGrows(current: Quantity, proposal: Quantity, thr: int)
    requires 0 < current <= proposal && thr >= 0
    requires Decide(current, proposal, thr) != current
    ensures 100 * proposal >= (100 + thr) * current
  {
  }

  lemma GrowthStep(q: int, t: int, first: int, thr: int, k: nat)
    requires thr >= 0 && 100 * t >= (100 + thr) * q
    requires q * Pow(100, k) >= first * Pow(100 + thr, k)
    ensures t * Pow(100, k + 1) >= first * Pow(100 + thr, k + 1)
  {
    var p, g := Pow(100, k), Pow(100 + thr, k);
    PowPositive(100, k);
    TimesAtLeast(100 * t, (100 + thr) * q, p);
    TimesAtLeast(q * p, first * g, 100 + thr);
    assert t * (100 * p) == 100 * t * p;
    assert (100 + thr) * q * p == q * p * (100 + thr);
    assert first * g * (100 + thr) == first * ((100 + thr) * g);
  }

  lemma TimesAtLeast(x: int, y: int, p: int)
    requires x >= y && p >= 0
    ensures x * p >= y * p
  {
  }

  lemma {:induction false} PowPositive(base: int, k: nat)
    requires base > 0
    ensures Pow(base, k) > 0
  {
    if k > 0 {
      PowPositive(base, k - 1);
      assert base * Pow(base, k - 1) > 0;
    }
  }

  /** While proposals never fall and start at or above the request, k changes multiply the
      request by at least ((100 + thr) / 100)^k, and it never passes the latest proposal. */
  lemma {:induction false} GeometricGrowth(requests: seq<Quantity>, proposals: seq<Quantity>, thr: int)
    requires thr >= 0 && Trajectory(requests, proposals, thr) && NonDecreasing(proposals)
    requires requests[0] > 0 && (proposals != [] ==> requests[0] <= proposals[0])
    ensures requests[|proposals|] * Pow(100, Changes(requests)) >= requests[0] * Pow(100 + thr, Changes(requests))
    ensures requests[0] <= requests[|proposals|]
    ensures requests[|proposals|] <= if proposals == [] then requests[0] else proposals[|proposals| - 1]
    decreases |proposals|
  {
    var n := |proposals|;
    if n > 0 {
      var before := requests[..n];
      assert requests[..|requests| - 1] == before;
      GeometricGrowth(before, proposals[..n - 1], thr);
      var q, t := requests[n - 1], proposals[n - 1];
      assert q <= t;
      if requests[n] != q {
        AcceptedGrows(q, t, thr);
        GrowthStep(q, t, requests[0], thr, Changes(before));
      }
    }
  }

  /** Demand that only grows: positive peaks never fall and pods are never added. */
  predicate GrowingDemand(r: ResourceName, peaks: seq<Peaks>, pods: seq<int>) {
    && |peaks| == |pods|
    && (forall i :: 0 <= i < |peaks| ==> UsablePeak(peaks[i], r).Some?)
    && (forall i, j :: 0 <= i <= j < |peaks| ==> peaks[i][r] <= peaks[j][r] && Divisor(pods[j]) <= Divisor(pods[i]))
  }

  function Proposals(r: ResourceName, requests: seq<Quantity>, peaks: seq<Peaks>, pods: seq<int>,
                     bounds: ResourceBoundsSpec): (p: seq<Quantity>)
    requires |peaks| == |pods| && |requests| == |pods| + 1
    ensures |p| == |pods|
    ensures forall i :: 0 <= i < |p| ==> p[i] == TargetFor(r, requests[i], peaks[i], pods[i], bounds)
  {
    seq(|pods|, i requires 0 <= i < |pods| => TargetFor(r, requests[i], peaks[i], pods[i], bounds))
  }

  /** The bound on resizes. From a request T0 on that is at most the target of the first
      demand, as an accepted target is while demand only grows, k changes under a fixed spec
      force T0 * (100 + thr)^k <= max * 100^k. */
  lemma ResizesAreBounded(r: ResourceName, requests: seq<Quantity>, peaks: seq<Peaks>, pods: seq<int>,
                          bounds: ResourceBoundsSpec, thr: int)
    requires thr >= 0 && ValidBounds(bounds) && bounds.max.Parsed?
    requires GrowingDemand(r, peaks, pods) && |requests| == |pods| + 1 && pods != []
    requires Trajectory(requests, Proposals(r, requests, peaks, pods, bounds), thr)
    requires 0 < requests[0] <= TargetFor(r, requests[0], peaks[0], pods[0], bounds)
    ensures requests[0] * Pow(100 + thr, Changes(requests)) <= bounds.max.q * Pow(100, Changes(requests))
  {
    var proposals := Proposals(r, requests, peaks, pods, bounds);
    forall i, j | 0 <= i <= j < |proposals|
      ensures proposals[i] <= proposals[j]
    {
      TargetMonotone(r, requests[i], requests[j], peaks[i], peaks[j], pods[i], pods[j], bounds);
    }
    GeometricGrowth(requests, proposals, thr);
    var last := |pods| - 1;
    SettleStable(r, Desired(r, requests[last], peaks[last], pods[last]), bounds);
    PowPositive(100, Changes(requests));
    TimesAtLeast(bounds.max.q, requests[|pods|], Pow(100, Changes(requests)));
  }

  // ---- falling demand -----------------------------------------------------------------------

  /** An accepted decrease leaves at most (100 - thr) / 100 of the request. */
  lemma AcceptedShrinks(current: Quantity, proposal: Quantity, thr: int)
    requires 0 < proposal <= current && thr >= 0
    requires Decide(current, proposal, thr) != current
    ensures 100 * proposal <= (100 - thr) * current && thr < 100
  {
    ExceedsInWholeNumbers(current, proposal, thr);
    assert (100 - thr) * current == 100 * current - thr * current;
    assert thr >= 100 ==> (100 - thr) * current <= 0;
  }

  lemma DeclineStep(q: int, t: int, first: int, thr: int, k: nat)
    requires 0 <= thr < 100 && 100 * t <= (100 - thr) * q
    requires q * Pow(100, k) <= first * Pow(100 - thr, k)
    ensures t * Pow(100, k + 1) <= first * Pow(100 - thr, k + 1)
  {
    var p, g := Pow(100, k), Pow(100 - thr, k);
    PowPositive(100, k);
    TimesAtLeast((100 - thr) * q, 100 * t, p);
    TimesAtLeast(first * g, q * p, 100 - thr);
    assert t * (100 * p) == 100 * t * p;
    assert (100 - thr) * q * p == q * p * (100 - thr);
    assert first * g * (100 - thr) == first * ((100 - thr) * g);
  }

  predicate NonIncreasing(s: seq<int>) {
    forall i, j :: 0 <= i <= j < |s| ==> s[j] <= s[i]
  }

  /** While positive proposals never rise and start at or below the request, k changes leave at
      most ((100 - thr) / 100)^k of it, and it never passes below the latest proposal. */
  lemma {:induction false} GeometricDecline(requests: seq<Quantity>, proposals: seq<Quantity>, thr: int)
    requires thr >= 0 && Trajectory(requests, proposals, thr) && NonIncreasing(proposals)
    requires forall i :: 0 <= i < |proposals| ==> 0 < proposals[i] <= requests[0]
    ensures requests[|proposals|] * Pow(100, Changes(requests)) <= requests[0] * Pow(100 - thr, Changes(requests))
    ensures requests[|proposals|] <= requests[0]
    ensures proposals != [] ==> proposals[|proposals| - 1] <= requests[|proposals|]
    decreases |proposals|
  {
    var n := |proposals|;
    if n > 0 {
      var before := requests[..n];
      assert requests[..|requests| - 1] == before;
      GeometricDecline(before, proposals[..n - 1], thr);
      var q, t := requests[n - 1], proposals[n - 1];
      assert n > 1 ==> t <= proposals[n - 2] <= q;
      if requests[n] != q {
        AcceptedShrinks(q, t, thr);
        DeclineStep(q, t, requests[0], thr, Changes(before));
      }
    }
  }

  /** Demand that only falls: positive peaks never rise and pods are never taken away. */
  predicate FallingDemand(r: ResourceName, peaks: seq<Peaks>, pods: seq<int>) {
    && |peaks| == |pods|
    && (forall i :: 0 <= i < |peaks| ==> UsablePeak(peaks[i], r).Some?)
    && (forall i, j :: 0 <= i <= j < |peaks| ==> peaks[j][r] <= peaks[i][r] && Divisor(pods[i]) <= Divisor(pods[j]))
  }

  /** The dual bound: from a request T0 on that is at least the target of the first demand,
      while demand only falls and targets stay positive, k changes under a fixed spec force
      t * 100^k <= T0 * (100 - thr)^k for the last target t, which is at least the minimum. */
  lemma ResizesAreBoundedBelow(r: ResourceName, requests: seq<Quantity>, peaks: seq<Peaks>, pods: seq<int>,
                               bounds: ResourceBoundsSpec, thr: int)
    requires thr >= 0 && ValidBounds(bounds)
    requires FallingDemand(r, peaks, pods) && |requests| == |pods| + 1 && pods != []
    requires Trajectory(requests, Proposals(r, requests, peaks, pods, bounds), thr)
    requires TargetFor(r, requests[0], peaks[0], pods[0], bounds) <= requests[0]
    requires TargetFor(r, requests[|pods| - 1], peaks[|pods| - 1], pods[|pods| - 1], bounds) > 0
    ensures var k, t := Changes(requests),
      TargetFor(r, requests[|pods| - 1], peaks[|pods| - 1], pods[|pods| - 1], bounds);
      && t * Pow(100, k) <= requests[0] * Pow(100 - thr, k)
      && (bounds.min.Parsed? ==> bounds.min.q * Pow(100, k) <= requests[0] * Pow(100 - thr, k))
  {
    var proposals, last := Proposals(r, requests, peaks, pods, bounds), |pods| - 1;
    forall i, j | 0 <= i <= j < |proposals|
      ensures proposals[j] <= proposals[i]
    {
      TargetMonotone(r, requests[j], requests[i], peaks[j], peaks[i], pods[j], pods[i], bounds);
    }
    assert forall i :: 0 <= i < |proposals| ==> proposals[last] <= proposals[i] <= proposals[0];
    GeometricDecline(requests, proposals, thr);
    var k := Changes(requests);
    PowPositive(100, k);
    TimesAtLeast(requests[|pods|], proposals[last], Pow(100, k));
    SettleStable(r, Desired(r, requests[last], peaks[last], pods[last]), bounds);
    if bounds.min.Parsed? {
      TimesAtLeast(proposals[last], bounds.min.q, Pow(100, k));
    }
  }

  // ---- demand that fluctuates within the threshold -------------------------------------------

  /** A band the filter does not leave: one value, or values closer than thr percent. */
  predicate Narrow(low: Quantity, high: Quantity, thr: int) {
    low == high || (0 < low && 100 * (high - low) < thr * low)
  }

  predicate Within(s: seq<int>, low: int, high: int) {
    forall i :: 0 <= i < |s| ==> low <= s[i] <= high
  }

  lemma KeptInside(q: Quantity, proposal: Quantity, low: Quantity, high: Quantity, thr: int)
    requires thr >= 0 && Narrow(low, high, thr) && low <= q <= high && low <= proposal <= high
    ensures Decide(q, proposal, thr) == q
  {
    ExceedsInWholeNumbers(q, proposal, thr);
    if low != high {
      TimesAtLeast(q, low, thr);
      assert thr * q >= thr * low;
    }
  }

  /** The hysteresis: while all proposals lie in a narrow band, the request changes at most
      once, and if it does it ends in the band. */
  lemma {:induction false} NoiseIsAbsorbed(requests: seq<Quantity>, proposals: seq<Quantity>, thr: int,
                                           low: Quantity, high: Quantity)
    requires thr >= 0 && Trajectory(requests, proposals, thr) && Narrow(low, high, thr)
    requires Within(proposals, low, high)
    ensures Changes(requests) <= 1
    ensures Changes(requests) == 1 ==> low <= requests[|proposals|] <= high
    decreases |proposals|
  {
    var n := |proposals|;
    if n > 0 {
      assert requests[..|requests| - 1] == requests[..n];
      NoiseIsAbsorbed(requests[..n], proposals[..n - 1], thr, low, high);
      if Changes(requests[..n]) == 1 {
        KeptInside(requests[n - 1], proposals[n - 1], low, high, thr);
      }
    }
  }

  /** Every request under proposals between low and high changes at most once. */
  ghost predicate Absorbs(low: Quantity, high: Quantity, thr: int) {
    forall requests, proposals :: Trajectory(requests, proposals, thr) && Within(proposals, low, high) ==>
      Changes(requests) <= 1
  }

  /** The band is as wide as it can be: any wider one lets proposals move a request twice. */
  lemma AbsorbsIffNarrow(low: Quantity, high: Quantity, thr: int)
    requires thr >= 0 && 0 < low <= high
    ensures Absorbs(low, high, thr) <==> Narrow(low, high, thr)
  {
    if Narrow(low, high, thr) {
      forall requests, proposals | Trajectory(requests, proposals, thr) && Within(proposals, low, high)
        ensures Changes(requests) <= 1
      {
        NoiseIsAbsorbed(requests, proposals, thr, low, high);
      }
    } else {
      var requests, proposals := [0, low, high], [low, high];
      ExceedsInWholeNumbers(low, high, thr);
      assert Trajectory(requests, proposals, thr) && Within(proposals, low, high);
      assert requests[..2] == [0, low] && [0, low][..1] == [0];
      assert Changes([0, low]) == 1;
      assert Changes(requests) == 2;
    }
  }
}
