/** How far coverage of the peak reaches: the exact condition on the threshold and on the pods
    without a target container, over all clusters. */
module CoverageLimit {
  import opened Prelude
  import opened ResizeApi
  import opened Sizing
  import opened Threshold
  import opened Pods
  import opened Actuator
  import opened ApplyProps
  import opened Coverage

  /** One Apply and everything it depends on, and the resource that is looked at. */
  datatype Application = Application(pods: Cluster, unreachable: set<ObjectKey>, spec: ResizeSpec, peaks: Peaks,
                                     names: seq<string>, namespace: string, accepts: nat -> bool, first: nat,
                                     r: ResourceName)

  /** The Apply goes through under a threshold of thr percent for n eligible pods, of which m
      have a target container; no request is negative and no maximum cuts the demand. */
  predicate Measured(a: Application, thr: int, n: nat, m: nat) {
    && WellKeyed(a.pods)
    && Complete(a.pods, a.unreachable, a.spec, a.peaks, a.names, a.namespace, a.accepts, a.first)
    && a.r in a.spec.resources && ThresholdOf(a.spec, a.r) == thr && UsablePeak(a.peaks, a.r).Some?
    && var eligible := EligiblePods(a.pods, a.namespace, a.names);
       && |eligible| == n && Targeted(eligible, a.spec.containerName) == m
       && (forall e :: e in eligible ==> Sized(e, a.spec.containerName, a.r))
       && MaxNotBinding(a.r, a.peaks[a.r], n, a.spec.resources[a.r])
  }

  function RequestsAfter(a: Application): Quantity
    requires WellKeyed(a.pods)
  {
    TotalAfter(a.pods, a.spec, a.peaks, a.names, a.namespace, a.accepts, a.first, a.r)
  }

  /** The requests of the target containers carry the peak. */
  predicate CarriesPeak(a: Application)
    requires WellKeyed(a.pods) && a.r in a.peaks
  {
    Covers(RequestsAfter(a), a.r, a.peaks[a.r])
  }

  // ---- a fleet of n pods, of which the first m have the container ---------------------

  /** A name of i letters. */
  function NameOf(i: nat): (name: string)
    ensures |name| == i
  {
    seq(i, _ => 'x')
  }

  function FleetPod(i: nat, m: nat, q: Quantity): Pod {
    Pod("default", NameOf(i), [Container(if i < m then "app" else "side", map[CPU := q], map[])], false, [])
  }

  function FleetNames(n: nat): (names: seq<string>)
    ensures |names| == n && forall i :: 0 <= i < n ==> names[i] == NameOf(i)
  {
    seq(n, i requires 0 <= i < n => NameOf(i))
  }

  function FleetList(n: nat, m: nat, q: Quantity): (pods: seq<Pod>)
    ensures |pods| == n && forall i :: 0 <= i < n ==> pods[i] == FleetPod(i, m, q)
  {
    seq(n, i requires 0 <= i < n => FleetPod(i, m, q))
  }

  function Fleet(n: nat, m: nat, q: Quantity): Cluster {
    if n == 0 then map[] else Fleet(n - 1, m, q)[KeyOf(FleetPod(n - 1, m, q)) := FleetPod(n - 1, m, q)]
  }

  lemma {:induction false} FleetHolds(n: nat, m: nat, q: Quantity)
    ensures WellKeyed(Fleet(n, m, q))
    ensures forall i :: 0 <= i < n ==>
      && ObjectKey("default", NameOf(i)) in Fleet(n, m, q)
      && Fleet(n, m, q)[ObjectKey("default", NameOf(i))] == FleetPod(i, m, q)
    decreases n
  {
    if n > 0 {
      FleetHolds(n - 1, m, q);
      assert forall i :: 0 <= i < n - 1 ==> |NameOf(i)| != |NameOf(n - 1)|;
    }
  }

  lemma {:induction false} FleetEligible(n: nat, m: nat, q: Quantity, j: nat)
    requires j <= n
    ensures EligiblePods(Fleet(n, m, q), "default", FleetNames(n)[..j]) == FleetList(j, m, q)
    decreases j
  {
    FleetHolds(n, m, q);
    if j > 0 {
      FleetEligible(n, m, q, j - 1);
      assert FleetNames(n)[..j][..j - 1] == FleetNames(n)[..j - 1];
      assert FleetList(j, m, q) == FleetList(j - 1, m, q) + [FleetPod(j - 1, m, q)];
    }
  }

  lemma PodTarget(i: nat, m: nat, q: Quantity)
    ensures TargetIndexes(FleetPod(i, m, q), Some("app")) == if i < m then [0] else []
  {
    SelectedExactly(FleetPod(i, m, q), Some("app"), if i < m then [0] else []);
  }

  lemma {:induction false} TargetedFirst(pods: seq<Pod>, m: nat, containerName: Option<string>)
    requires forall i :: 0 <= i < |pods| ==> (HasTarget(pods[i], containerName) <==> i < m)
    ensures Targeted(pods, containerName) == Min(|pods|, m)
    decreases |pods|
  {
    if pods != [] {
      TargetedFirst(pods[..|pods| - 1], m, containerName);
    }
  }

  lemma FleetTargeted(n: nat, m: nat, q: Quantity)
    ensures Targeted(FleetList(n, m, q), Some("app")) == Min(n, m)
  {
    forall i | 0 <= i < n
      ensures HasTarget(FleetList(n, m, q)[i], Some("app")) <==> i < m
    {
      PodTarget(i, m, q);
    }
    TargetedFirst(FleetList(n, m, q), m, Some("app"));
  }

  function FleetSpec(thr: int): ResizeSpec {
    ResizeSpec(Some("app"), Some(thr), map[CPU := UNBOUNDED])
  }

  lemma FleetSpecIsValid(thr: int)
    requires 0 <= thr <= 100
    ensures ValidResize(FleetSpec(thr)) && ThresholdOf(FleetSpec(thr), CPU) == thr
  {
    assert "app"[0] in "app";
    assert CPU in FleetSpec(thr).resources;
  }

  /** The filter keeps the fleet's request. */
  predicate Keeps(q: Quantity, thr: int, peaks: Peaks, n: nat) {
    Decide(q, TargetFor(CPU, q, peaks, n, UNBOUNDED), thr) == q
  }

  lemma NoPlanForPod(i: nat, m: nat, q: Quantity, thr: int, peaks: Peaks, n: nat)
    requires 0 <= thr <= 100 && Keeps(q, thr, peaks, n)
    ensures PlanFor(FleetPod(i, m, q).containers[0], 0, FleetSpec(thr), peaks, n).None?
  {
    FleetSpecIsValid(thr);
    var c := FleetPod(i, m, q).containers[0];
    forall r | r in FleetSpec(thr).resources
      ensures Decided(c, FleetSpec(thr), peaks, n, r) == CurrentQuantity(c.requests, r)
    {
      assert r == CPU;
    }
    NoPlanKeepsAll(c, 0, FleetSpec(thr), peaks, n);
  }

  lemma PodIsLeft(i: nat, m: nat, q: Quantity, thr: int, peaks: Peaks, n: nat)
    requires 0 <= thr <= 100 && Keeps(q, thr, peaks, n)
    ensures ResizedPod(FleetPod(i, m, q), FleetSpec(thr), peaks, n).None?
  {
    var pod, indexes := FleetPod(i, m, q), TargetIndexes(FleetPod(i, m, q), Some("app"));
    PodTarget(i, m, q);
    NoPlanForPod(i, m, q, thr, peaks, n);
    NoPlans(pod, indexes, FleetSpec(thr), peaks, n);
  }

  lemma {:induction false} SumFleet(s: seq<int>, m: nat, q: int)
    requires forall i :: 0 <= i < |s| ==> s[i] == if i < m then q else 0
    ensures SumAll(s) == Min(|s|, m) * q
    decreases |s|
  {
    if s != [] {
      SumFleet(s[..|s| - 1], m, q);
      OneMoreShare(Min(|s| - 1, m), q);
    }
  }

  lemma PodRequests(i: nat, m: nat, q: Quantity)
    ensures PodTotal(FleetPod(i, m, q), Some("app"), CPU) == if i < m then q else 0
  {
    PodTarget(i, m, q);
    var requests := TargetRequests(FleetPod(i, m, q), Some("app"), CPU);
    if i < m {
      assert requests == [q] && requests[..|requests| - 1] == [];
      assert SumAll(requests) == q;
    } else {
      assert requests == [];
    }
  }

  function FleetApply(n: nat, m: nat, q: Quantity, thr: int, peak: real): Application {
    Application(Fleet(n, m, q), {}, FleetSpec(thr), map[CPU := peak], FleetNames(n), "default", _ => true, 0, CPU)
  }

  /** Nothing is sent to a fleet whose requests the filter keeps. */
  lemma FleetIsLeft(n: nat, m: nat, q: Quantity, thr: int, peaks: Peaks)
    requires 0 <= thr <= 100 && Keeps(q, thr, peaks, n)
    ensures Updates(FleetList(n, m, q), FleetSpec(thr), peaks, n) == []
  {
    var list := FleetList(n, m, q);
    forall i | 0 <= i < n
      ensures ResizedPod(list[i], FleetSpec(thr), peaks, n).None?
    {
      PodIsLeft(i, m, q, thr, peaks, n);
    }
    NoUpdates(list, FleetSpec(thr), peaks, n);
  }

  lemma FleetListed(n: nat, m: nat, q: Quantity)
    ensures WellKeyed(Fleet(n, m, q))
    ensures EligiblePods(Fleet(n, m, q), "default", FleetNames(n)) == FleetList(n, m, q)
  {
    FleetHolds(n, m, q);
    FleetEligible(n, m, q, n);
    assert FleetNames(n)[..n] == FleetNames(n);
  }

  lemma FleetIsMeasured(n: nat, m: nat, q: Quantity, thr: int, peak: real)
    requires 0 < n && m <= n && 0 <= q && 0 <= thr <= 100 && peak > 0.0
    requires Keeps(q, thr, map[CPU := peak], n)
    ensures Measured(FleetApply(n, m, q, thr, peak), thr, n, m)
  {
    FleetListed(n, m, q);
    FleetTargeted(n, m, q);
    FleetIsLeft(n, m, q, thr, map[CPU := peak]);
    FleetSpecIsValid(thr);
  }

  lemma FleetTotal(n: nat, m: nat, q: Quantity)
    requires m <= n
    ensures forall i :: 0 <= i < n ==> KeyOf(FleetList(n, m, q)[i]) in Fleet(n, m, q)
    ensures ClusterTotal(Fleet(n, m, q), FleetList(n, m, q), Some("app"), CPU) == m * q
  {
    FleetHolds(n, m, q);
    var totals := PodTotals(Fleet(n, m, q), FleetList(n, m, q), Some("app"), CPU);
    forall i | 0 <= i < n
      ensures totals[i] == if i < m then q else 0
    {
      PodRequests(i, m, q);
    }
    SumFleet(totals, m, q);
  }

  /** An Apply to a fleet whose requests the filter keeps leaves m requests in all. */
  lemma FleetRequests(n: nat, m: nat, q: Quantity, thr: int, peak: real)
    requires m <= n && 0 <= thr <= 100 && Keeps(q, thr, map[CPU := peak], n)
    ensures WellKeyed(Fleet(n, m, q))
    ensures RequestsAfter(FleetApply(n, m, q, thr, peak)) == m * q
  {
    FleetListed(n, m, q);
    FleetIsLeft(n, m, q, thr, map[CPU := peak]);
    FleetTotal(n, m, q);
  }

  // ---- the exact condition -----------------------------------------------------------------

  lemma NotAbove(thr: int, w: nat, target: int)
    requires 0 <= thr <= 100 && w > 0 && target == 2 * w * (100 + thr)
    ensures 0 < target && 0 <= Decide(200 * w + 1, target, thr) <= 200 * w + 1
  {
    var least, u := 200 * w + 1, 2 * w * thr;
    assert target == 200 * w + u && thr * least == 100 * u + thr;
    MoreShares(1, thr, 2 * w);
    ExceedsInWholeNumbers(least, target, thr);
  }

  /** A target of `target` per pod, and the request closest to it from below that the filter
      may keep: too little for n targets less their headroom. */
  lemma TooLittle(thr: int, n: nat, m: nat, target: int, q: int)
    requires 0 <= thr <= 100 && m <= n && !MakesUp(thr, m, n)
    requires target == 2 * (m + 1) * (100 + thr) && q == Decide(200 * (m + 1) + 1, target, thr)
    ensures 0 <= q && Decide(q, target, thr) == q
    ensures 6 * (m * q) < 5 * (n * target)
  {
    NotAbove(thr, m + 1, target);
    AtMostLeast(m, q);
    AtLeastShares(thr, n, m, target);
  }

  lemma AtMostLeast(m: nat, q: int)
    requires q <= 200 * (m + 1) + 1
    ensures 6 * (m * q) <= 1200 * (m * m) + 1206 * m
  {
    MoreShares(q, 200 * (m + 1) + 1, m);
  }

  lemma AtLeastShares(thr: int, n: nat, m: nat, target: int)
    requires 120 * m < (100 + thr) * n && target == 2 * (m + 1) * (100 + thr)
    ensures 5 * (n * target) >= 1200 * (m * m) + 1210 * m + 10
  {
    var y, k := (100 + thr) * n, 10 * (m + 1);
    assert 5 * (n * target) == y * k;
    MoreShares(120 * m + 1, y, k);
  }

  /** The peak that makes `target` the demand of each of n pods. */
  lemma PeakFor(n: nat, target: int, peak: real)
    requires n > 0 && target > 0 && peak == (n * target) as real / HEADROOM
    ensures peak > 0.0 && Demand(CPU, peak, n) == target
  {
    assert n * target > 0;
    assert peak * HEADROOM == (n * target) as real == n as real * target as real;
    assert peak * HEADROOM / (n as real) == target as real;
    CeilLeast(target as real, target);
    CeilLeast(target as real, target - 1);
  }

  /** Where the headroom does not make up for the filter and the pods without a target, some
      Apply leaves the requests below the peak. */
  lemma SomePeakIsMissed(thr: int, n: nat, m: nat) returns (a: Application)
    requires 0 <= thr <= 100 && 0 < n && m <= n && !MakesUp(thr, m, n)
    ensures Measured(a, thr, n, m) && !CarriesPeak(a)
  {
    var target := 2 * (m + 1) * (100 + thr);
    var q := Decide(200 * (m + 1) + 1, target, thr);
    var peak := (n * target) as real / HEADROOM;
    TooLittle(thr, n, m, target, q);
    PeakFor(n, target, peak);
    a := FleetApply(n, m, q, thr, peak);
    FleetIsMeasured(n, m, q, thr, peak);
    FleetRequests(n, m, q, thr, peak);
    Missed(m * q, n * target, peak);
  }

  lemma Missed(total: int, demand: int, peak: real)
    requires 6 * total < 5 * demand && peak == demand as real / HEADROOM
    ensures !Covers(total, CPU, peak)
  {
  }

  /** Over all clusters and every Apply that goes through for n eligible pods of which m have a
      target container, the requests carry the peak exactly when 120 * m >= (100 + thr) * n.
      With a target in every pod that is a threshold of at most 20 percent. */
  lemma CarriedIffMakesUp(thr: int, n: nat, m: nat)
    requires 0 <= thr <= 100 && 0 < n && m <= n
    ensures (forall a :: Measured(a, thr, n, m) ==> CarriesPeak(a)) <==> MakesUp(thr, m, n)
  {
    if MakesUp(thr, m, n) {
      forall a | Measured(a, thr, n, m)
        ensures CarriesPeak(a)
      {
        PeakCoverage(a.pods, a.unreachable, a.spec, a.peaks, a.names, a.namespace, a.accepts, a.first, a.r);
      }
    } else {
      var a := SomePeakIsMissed(thr, n, m);
    }
  }

  /** Two eligible pods, one of which lacks the named container: under a peak of 1000m and the
      default ten percent the other keeps 600m, and nothing is sent. */
  lemma SidePodTakesAShare()
    ensures var a := FleetApply(2, 1, 600, DEFAULT_MIN_CHANGE_PERCENT, 1000.0);
      && Measured(a, DEFAULT_MIN_CHANGE_PERCENT, 2, 1)
      && RequestsAfter(a) == 600 && !CarriesPeak(a)
  {
    CeilLeast(1000.0 * HEADROOM / 2.0, 600);
    assert TargetFor(CPU, 600, map[CPU := 1000.0], 2, UNBOUNDED) == 600;
    FleetIsMeasured(2, 1, 600, DEFAULT_MIN_CHANGE_PERCENT, 1000.0);
    FleetRequests(2, 1, 600, DEFAULT_MIN_CHANGE_PERCENT, 1000.0);
  }
}
