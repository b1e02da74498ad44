/** Coverage of demand: after a complete Apply the requests of the target containers carry
    the peak, up to the percentage the hysteresis filter may hold back. */
module Coverage {
  import opened Prelude
  import opened ResizeApi
  import opened MemoryRounding
  import opened Sizing
  import opened Threshold
  import opened Pods
  import opened Actuator
  import opened ApplyProps

  /** The demand, as far as the upper bound lets it through. */
  function Capped(q: Quantity, bounds: ResourceBoundsSpec): Quantity {
    if bounds.max.Parsed? then Min(q, bounds.max.q) else q
  }

  lemma TargetAtLeastCapped(r: ResourceName, current: Quantity, peaks: Peaks, podCount: int, bounds: ResourceBoundsSpec)
    requires ValidBounds(bounds) && UsablePeak(peaks, r).Some?
    ensures Capped(Demand(r, peaks[r], podCount), bounds) <= TargetFor(r, current, peaks, podCount, bounds)
  {
  }

  /** The filter holds back less than thr percent of the request it keeps. */
  lemma DecideCovers(current: Quantity, target: Quantity, thr: int)
    requires current >= 0 && target >= 0 && 0 <= thr <= 100
    ensures 0 <= Decide(current, target, thr)
    ensures 100 * target <= (100 + thr) * Decide(current, target, thr)
  {
  }

  function SumAll(s: seq<int>): int {
    if s == [] then 0 else SumAll(s[..|s| - 1]) + s[|s| - 1]
  }

  /** The requests of a pod's target containers. */
  function TargetRequests(pod: Pod, containerName: Option<string>, r: ResourceName): (s: seq<Quantity>)
    ensures |s| == |TargetIndexes(pod, containerName)|
    ensures forall j :: 0 <= j < |s| ==>
      s[j] == CurrentQuantity(pod.containers[TargetIndexes(pod, containerName)[j]].requests, r)
  {
    var indexes := TargetIndexes(pod, containerName);
    seq(|indexes|, j requires 0 <= j < |indexes| => CurrentQuantity(pod.containers[indexes[j]].requests, r))
  }

  function PodTotal(pod: Pod, containerName: Option<string>, r: ResourceName): Quantity {
    SumAll(TargetRequests(pod, containerName, r))
  }

  function PodTotals(pods: Cluster, listed: seq<Pod>, containerName: Option<string>,
                     r: ResourceName): (s: seq<Quantity>)
    requires forall i :: 0 <= i < |listed| ==> KeyOf(listed[i]) in pods
    ensures |s| == |listed|
    ensures forall i :: 0 <= i < |s| ==> s[i] == PodTotal(pods[KeyOf(listed[i])], containerName, r)
  {
    seq(|listed|, i requires 0 <= i < |listed| => PodTotal(pods[KeyOf(listed[i])], containerName, r))
  }

  /** The requests of the target containers of all the listed pods, as the cluster stores
      them now. A pod is counted as often as it is listed, as it is in the divisor. */
  function ClusterTotal(pods: Cluster, listed: seq<Pod>, containerName: Option<string>, r: ResourceName): Quantity
    requires forall i :: 0 <= i < |listed| ==> KeyOf(listed[i]) in pods
  {
    SumAll(PodTotals(pods, listed, containerName, r))
  }

  /** The name occurs twice. */
  predicate Repeated(names: seq<string>, name: string) {
    exists i, j :: 0 <= i < j < |names| && names[i] == name && names[j] == name
  }

  predicate NamesEligible(pods: Cluster, namespace: string, name: string) {
    ObjectKey(namespace, name) in pods && Eligible(pods[ObjectKey(namespace, name)])
  }

  /** Each eligible pod is listed, and so counted, once exactly when no eligible pod is named
      twice. */
  lemma {:induction false} ListedOnceEach(pods: Cluster, namespace: string, names: seq<string>)
    requires WellKeyed(pods)
    ensures NoDuplicates(EligiblePods(pods, namespace, names)) <==>
      forall name :: name in names && NamesEligible(pods, namespace, name) ==> !Repeated(names, name)
    decreases |names|
  {
    if names != [] {
      var init, last := names[..|names| - 1], names[|names| - 1];
      var before, after := EligiblePods(pods, namespace, init), EligiblePods(pods, namespace, names);
      ListedOnceEach(pods, namespace, init);
      EligibleAreListed(pods, namespace, init);
      assert names == init + [last];
      forall name
        ensures Repeated(names, name) <==> Repeated(init, name) || (name == last && last in init)
      {
        RepeatedOneMore(init, last, name);
      }
      if NamesEligible(pods, namespace, last) {
        assert after == before + [pods[ObjectKey(namespace, last)]];
        assert last in init <==> pods[ObjectKey(namespace, last)] in before;
        OneMoreDistinct(before, pods[ObjectKey(namespace, last)]);
        assert Repeated(init, last) ==> last in init;
      } else {
        assert after == before;
      }
    }
  }

  lemma RepeatedOneMore(init: seq<string>, last: string, name: string)
    ensures Repeated(init + [last], name) <==> Repeated(init, name) || (name == last && last in init)
  {
    var all := init + [last];
    if Repeated(init, name) {
      var i, j :| 0 <= i < j < |init| && init[i] == name && init[j] == name;
      assert all[i] == name && all[j] == name;
    }
    if name == last && last in init {
      var i :| 0 <= i < |init| && init[i] == last;
      assert all[i] == name && all[|init|] == name;
    }
  }

  lemma OneMoreDistinct(before: seq<Pod>, pod: Pod)
    ensures NoDuplicates(before + [pod]) <==> NoDuplicates(before) && pod !in before
  {
    var after := before + [pod];
    assert forall i :: 0 <= i < |before| ==> after[i] == before[i];
    assert after[|before|] == pod;
    if NoDuplicates(after) {
      forall i | 0 <= i < |before|
        ensures before[i] != pod
      {
        assert after[i] != after[|before|];
      }
      forall i, j | 0 <= i < j < |before|
        ensures before[i] != before[j]
      {
        assert after[i] != after[j];
      }
    } else {
      var i, j :| 0 <= i < j < |after| && after[i] == after[j];
      assert j < |before| ==> before[i] == before[j];
      assert j == |before| ==> before[i] == pod;
    }
  }

  /** Amounts that each carry a share carry all the shares together. */
  lemma {:induction false} SumCovers(s: seq<int>, k: int, share: int)
    requires forall i :: 0 <= i < |s| ==> share <= k * s[i]
    ensures |s| * share <= k * SumAll(s)
    decreases |s|
  {
    if s != [] {
      var init, last := s[..|s| - 1], s[|s| - 1];
      SumCovers(init, k, share);
      AddUp(|init|, share, k, SumAll(init), last);
    }
  }

  lemma AddUp(m: int, share: int, k: int, a: int, b: int)
    requires m * share <= k * a && share <= k * b
    ensures (m + 1) * share <= k * (a + b)
  {
  }

  lemma SeveralShares(n: int, share: int)
    requires n >= 1 && share >= 0
    ensures share <= n * share
  {
  }

  /** The pod has a container to resize. Pods without one count in the divisor all the same. */
  predicate HasTarget(pod: Pod, containerName: Option<string>) {
    TargetIndexes(pod, containerName) != []
  }

  /** How many of the pods have a target container. */
  function Targeted(pods: seq<Pod>, containerName: Option<string>): (m: nat)
    ensures m <= |pods|
  {
    if pods == [] then 0
    else Targeted(pods[..|pods| - 1], containerName) + (if HasTarget(pods[|pods| - 1], containerName) then 1 else 0)
  }

  lemma {:induction false} AllTargeted(pods: seq<Pod>, containerName: Option<string>)
    requires forall e :: e in pods ==> HasTarget(e, containerName)
    ensures Targeted(pods, containerName) == |pods|
    decreases |pods|
  {
    if pods != [] {
      AllTargeted(pods[..|pods| - 1], containerName);
    }
  }

  /** Requests of target containers are not negative, as the API server demands. */
  predicate Sized(pod: Pod, containerName: Option<string>, r: ResourceName) {
    forall i :: 0 <= i < |pod.containers| && Selected(pod, containerName, i) ==>
      CurrentQuantity(pod.containers[i].requests, r) >= 0
  }

  /** What a pod is to carry: its share, when it has a target container. */
  function ShareOf(pod: Pod, containerName: Option<string>, share: int): int {
    if HasTarget(pod, containerName) then share else 0
  }

  function SharesOf(pods: seq<Pod>, containerName: Option<string>, share: int): (s: seq<int>)
    ensures |s| == |pods|
    ensures forall i :: 0 <= i < |s| ==> s[i] == ShareOf(pods[i], containerName, share)
  {
    seq(|pods|, i requires 0 <= i < |pods| => ShareOf(pods[i], containerName, share))
  }

  lemma {:induction false} SharesAddUp(pods: seq<Pod>, containerName: Option<string>, share: int)
    ensures SumAll(SharesOf(pods, containerName, share)) == Targeted(pods, containerName) * share
    decreases |pods|
  {
    if pods != [] {
      var init, shares := pods[..|pods| - 1], SharesOf(pods, containerName, share);
      SharesAddUp(init, containerName, share);
      assert shares[..|shares| - 1] == SharesOf(init, containerName, share);
      OneMoreShare(Targeted(init, containerName), share);
    }
  }

  lemma OneMoreShare(m: int, share: int)
    ensures (m + 1) * share == m * share + share
  {
  }

  /** Amounts that each carry what they owe together carry all that is owed. */
  lemma {:induction false} SumAtLeast(owed: seq<int>, totals: seq<int>, k: int)
    requires |owed| == |totals|
    requires forall i :: 0 <= i < |owed| ==> owed[i] <= k * totals[i]
    ensures SumAll(owed) <= k * SumAll(totals)
    decreases |owed|
  {
    if owed != [] {
      var n := |owed| - 1;
      SumAtLeast(owed[..n], totals[..n], k);
      TimesSum(k, SumAll(totals[..n]), totals[n]);
    }
  }

  lemma TimesSum(k: int, a: int, b: int)
    ensures k * (a + b) == k * a + k * b
  {
  }

  /** After its resize a pod's target containers, when it has some, cover the pod's share. */
  lemma PodCovers(pod: Pod, spec: ResizeSpec, peaks: Peaks, podCount: int, r: ResourceName, share: Quantity)
    requires ValidResize(spec) && r in spec.resources && UsablePeak(peaks, r).Some?
    requires Eligible(pod) && Sized(pod, spec.containerName, r)
    requires 0 <= share == Capped(Demand(r, peaks[r], podCount), spec.resources[r])
    ensures ShareOf(pod, spec.containerName, 100 * share) <=
      (100 + ThresholdOf(spec, r)) * PodTotal(Settled(pod, spec, peaks, podCount), spec.containerName, r)
  {
    var out, thr := Settled(pod, spec, peaks, podCount), ThresholdOf(spec, r);
    SettledPointwise(pod, spec, peaks, podCount);
    forall i | 0 <= i < |pod.containers|
      ensures out.containers[i].name == pod.containers[i].name
      ensures Selected(pod, spec.containerName, i) ==>
        100 * share <= (100 + thr) * CurrentQuantity(out.containers[i].requests, r)
    {
      if Selected(pod, spec.containerName, i) {
        var q := CurrentQuantity(pod.containers[i].requests, r);
        ContainerAfterResources(pod, i, spec, peaks, podCount, r);
        TargetAtLeastCapped(r, q, peaks, podCount, spec.resources[r]);
        DecideCovers(q, TargetFor(r, q, peaks, podCount, spec.resources[r]), thr);
      }
    }
    SameSelection(pod, out, spec.containerName);
    var requests := TargetRequests(out, spec.containerName, r);
    forall j | 0 <= j < |requests|
      ensures 100 * share <= (100 + thr) * requests[j]
    {
      assert Selected(pod, spec.containerName, TargetIndexes(out, spec.containerName)[j]);
    }
    SumCovers(requests, 100 + thr, 100 * share);
    if requests != [] {
      SeveralShares(|requests|, 100 * share);
    }
  }

  /** Resizing does not change which containers are selected. */
  lemma SameSelection(pod: Pod, out: Pod, containerName: Option<string>)
    requires |out.containers| == |pod.containers|
    requires forall i :: 0 <= i < |pod.containers| ==> out.containers[i].name == pod.containers[i].name
    ensures TargetIndexes(out, containerName) == TargetIndexes(pod, containerName)
  {
    SelectedExactly(out, containerName, TargetIndexes(pod, containerName));
  }

  /** An Apply that went through: an accepted spec, readable pods, and no update refused. */
  predicate Complete(pods: Cluster, unreachable: set<ObjectKey>, spec: ResizeSpec, peaks: Peaks, names: seq<string>,
                     namespace: string, accepts: nat -> bool, first: nat) {
    && ValidResize(spec) && Reachable(unreachable, namespace, names)
    && var eligible := EligiblePods(pods, namespace, names);
       AllAccepted(accepts, first, |Updates(eligible, spec, peaks, |eligible|)|)
  }

  /** The requests of all target containers of the eligible pods, after the Apply. */
  function TotalAfter(pods: Cluster, spec: ResizeSpec, peaks: Peaks, names: seq<string>, namespace: string,
                      accepts: nat -> bool, first: nat, r: ResourceName): Quantity
    requires WellKeyed(pods)
  {
    var eligible := EligiblePods(pods, namespace, names);
    EligibleAreListed(pods, namespace, names);
    DeliverFramed(pods, eligible, spec, peaks, |eligible|, accepts, first);
    ClusterTotal(Deliver(pods, Updates(eligible, spec, peaks, |eligible|), accepts, first), eligible,
                 spec.containerName, r)
  }

  /** A total that carries m shares, less what a filter of thr percent may hold back. */
  predicate CapCarried(thr: int, total: Quantity, m: int, share: Quantity) {
    m * (100 * share) <= (100 + thr) * total
  }

  lemma EveryPodCovers(pods: Cluster, pods': Cluster, eligible: seq<Pod>, spec: ResizeSpec, peaks: Peaks,
                       r: ResourceName, share: Quantity)
    requires ValidResize(spec) && r in spec.resources && UsablePeak(peaks, r).Some?
    requires 0 <= share == Capped(Demand(r, peaks[r], |eligible|), spec.resources[r])
    requires Listed(pods, eligible) && Framed(pods, pods', eligible, spec, peaks, |eligible|, true)
    requires forall e :: e in eligible ==> Sized(e, spec.containerName, r)
    ensures CapCarried(ThresholdOf(spec, r), ClusterTotal(pods', eligible, spec.containerName, r),
                       Targeted(eligible, spec.containerName), share)
  {
    var k := 100 + ThresholdOf(spec, r);
    var totals := PodTotals(pods', eligible, spec.containerName, r);
    var owed := SharesOf(eligible, spec.containerName, 100 * share);
    forall i | 0 <= i < |eligible|
      ensures owed[i] <= k * totals[i]
    {
      assert eligible[i] in eligible;
      PodCovers(eligible[i], spec, peaks, |eligible|, r, share);
    }
    SumAtLeast(owed, totals, k);
    SharesAddUp(eligible, spec.containerName, 100 * share);
  }

  /** Coverage, over all clusters: of n eligible pods let m have a target container. With every
      update accepted, the requests of the target containers total at least 100 / (100 + thr)
      of m capped demands, each an n-th of the whole. */
  lemma CappedCoverage(pods: Cluster, unreachable: set<ObjectKey>, spec: ResizeSpec, peaks: Peaks, names: seq<string>,
                       namespace: string, accepts: nat -> bool, first: nat, r: ResourceName)
    requires WellKeyed(pods) && Complete(pods, unreachable, spec, peaks, names, namespace, accepts, first)
    requires r in spec.resources && UsablePeak(peaks, r).Some?
    requires forall e :: e in EligiblePods(pods, namespace, names) ==> Sized(e, spec.containerName, r)
    requires spec.resources[r].max.Parsed? ==> spec.resources[r].max.q >= 0
    ensures var eligible := EligiblePods(pods, namespace, names);
      CapCarried(ThresholdOf(spec, r), TotalAfter(pods, spec, peaks, names, namespace, accepts, first, r),
                 Targeted(eligible, spec.containerName), Capped(Demand(r, peaks[r], |eligible|), spec.resources[r]))
  {
    var eligible := EligiblePods(pods, namespace, names);
    var n := |eligible|;
    EligibleAreListed(pods, namespace, names);
    DeliverFramed(pods, eligible, spec, peaks, n, accepts, first);
    DemandMonotone(r, peaks[r], n, peaks[r], n);
    EveryPodCovers(pods, Deliver(pods, Updates(eligible, spec, peaks, n), accepts, first), eligible, spec, peaks, r,
                   Capped(Demand(r, peaks[r], n), spec.resources[r]));
  }

  /** The upper bound does not cut the demand of one pod. */
  predicate MaxNotBinding(r: ResourceName, peak: real, podCount: int, bounds: ResourceBoundsSpec) {
    bounds.max.Parsed? ==> Demand(r, peak, podCount) <= bounds.max.q
  }

  lemma NotBindingIsNotCut(r: ResourceName, peak: real, n: int, bounds: ResourceBoundsSpec)
    requires peak > 0.0 && MaxNotBinding(r, peak, n, bounds)
    ensures Capped(Demand(r, peak, n), bounds) == Demand(r, peak, n)
    ensures bounds.max.Parsed? ==> bounds.max.q >= 0
  {
  }

  /** The total is at least a value given in units of measurement. */
  predicate Covers(total: Quantity, r: ResourceName, v: real) {
    total as real >= v * (UnitOf(r) as real)
  }

  /** What coverage of a peak comes to when m of n pods have a target container:
      n * (100 + thr) * total >= m * 120 * P, and so the peak itself once m pods make up for
      the pods without a target and for the filter. */
  predicate PeakCarried(thr: int, total: Quantity, r: ResourceName, peak: real, m: nat, n: nat) {
    && (n * ((100 + thr) * total)) as real >= m as real * (120.0 * (peak * (UnitOf(r) as real)))
    && (MakesUp(thr, m, n) ==> Covers(total, r, peak))
  }

  /** The headroom of twenty percent makes up for the filter and the pods without a target. */
  predicate MakesUp(thr: int, m: nat, n: nat) {
    120 * m >= (100 + thr) * n
  }

  /** Coverage of the peak P itself, with its 20% headroom. */
  lemma PeakCoverage(pods: Cluster, unreachable: set<ObjectKey>, spec: ResizeSpec, peaks: Peaks, names: seq<string>,
                     namespace: string, accepts: nat -> bool, first: nat, r: ResourceName)
    requires WellKeyed(pods) && Complete(pods, unreachable, spec, peaks, names, namespace, accepts, first)
    requires r in spec.resources && UsablePeak(peaks, r).Some?
    requires EligiblePods(pods, namespace, names) != []
    requires forall e :: e in EligiblePods(pods, namespace, names) ==> Sized(e, spec.containerName, r)
    requires MaxNotBinding(r, peaks[r], |EligiblePods(pods, namespace, names)|, spec.resources[r])
    ensures var eligible := EligiblePods(pods, namespace, names);
      PeakCarried(ThresholdOf(spec, r), TotalAfter(pods, spec, peaks, names, namespace, accepts, first, r), r, peaks[r],
                  Targeted(eligible, spec.containerName), |eligible|)
  {
    var eligible := EligiblePods(pods, namespace, names);
    var n := |eligible|;
    NotBindingIsNotCut(r, peaks[r], n, spec.resources[r]);
    CappedCoverage(pods, unreachable, spec, peaks, names, namespace, accepts, first, r);
    Margin(ThresholdOf(spec, r), TotalAfter(pods, spec, peaks, names, namespace, accepts, first, r),
           Targeted(eligible, spec.containerName), n, r, peaks[r]);
  }

  /** The same when no pod is without a target. */
  predicate FullyCarried(thr: int, total: Quantity, r: ResourceName, peak: real) {
    && ((100 + thr) * total) as real >= 120.0 * (peak * (UnitOf(r) as real))
    && (thr <= 20 ==> Covers(total, r, peak))
  }

  /** When every eligible pod has a target container, (100 + thr) * requests >= 120 * P, and a
      threshold of at most 20 percent never leaves the requests below the peak. */
  lemma FullCoverage(pods: Cluster, unreachable: set<ObjectKey>, spec: ResizeSpec, peaks: Peaks, names: seq<string>,
                     namespace: string, accepts: nat -> bool, first: nat, r: ResourceName)
    requires WellKeyed(pods) && Complete(pods, unreachable, spec, peaks, names, namespace, accepts, first)
    requires r in spec.resources && UsablePeak(peaks, r).Some?
    requires EligiblePods(pods, namespace, names) != []
    requires forall e :: e in EligiblePods(pods, namespace, names) ==>
      Sized(e, spec.containerName, r) && HasTarget(e, spec.containerName)
    requires MaxNotBinding(r, peaks[r], |EligiblePods(pods, namespace, names)|, spec.resources[r])
    ensures FullyCarried(ThresholdOf(spec, r), TotalAfter(pods, spec, peaks, names, namespace, accepts, first, r), r,
                         peaks[r])
  {
    AllTargeted(EligiblePods(pods, namespace, names), spec.containerName);
    PeakCoverage(pods, unreachable, spec, peaks, names, namespace, accepts, first, r);
    AllShares(ThresholdOf(spec, r), TotalAfter(pods, spec, peaks, names, namespace, accepts, first, r), r, peaks[r],
              |EligiblePods(pods, namespace, names)|);
  }

  lemma AllShares(thr: int, total: Quantity, r: ResourceName, peak: real, n: nat)
    requires n > 0 && PeakCarried(thr, total, r, peak, n, n)
    ensures FullyCarried(thr, total, r, peak)
  {
    DivideOut(n, (100 + thr) * total, 120.0 * (peak * (UnitOf(r) as real)));
    MoreShares(100 + thr, 120, n);
  }

  lemma DivideOut(n: nat, x: int, y: real)
    requires n > 0 && (n * x) as real >= n as real * y
    ensures x as real >= y
  {
    assert (n * x) as real == n as real * x as real;
    if x as real < y {
      TimesOrder(x as real, y, n as real);
    }
  }

  lemma MoreShares(a: int, b: int, share: int)
    requires share >= 0
    ensures a <= b ==> a * share <= b * share
  {
  }

  /** m demands of n, and what they leave room for. */
  lemma Margin(thr: int, total: int, m: nat, n: nat, r: ResourceName, peak: real)
    requires thr >= 0 && n > 0 && peak > 0.0
    requires CapCarried(thr, total, m, Demand(r, peak, n))
    ensures PeakCarried(thr, total, r, peak, m, n)
  {
    var p, d := peak * (UnitOf(r) as real), Demand(r, peak, n);
    EnoughDemand(r, peak, n);
    Regroup(thr, total, m, n, d);
    SharesOfPeak(n * ((100 + thr) * total), m, n, d, p);
    if MakesUp(thr, m, n) {
      Holding(thr, total, m, n, p);
    }
  }

  lemma EnoughDemand(r: ResourceName, peak: real, n: nat)
    requires n > 0 && peak > 0.0
    ensures peak * (UnitOf(r) as real) > 0.0
    ensures 5.0 * (n * Demand(r, peak, n)) as real >= 6.0 * (peak * (UnitOf(r) as real))
  {
    DemandCovers(r, peak, n);
    assert UnitOf(r) == 1 || UnitOf(r) == 1000;
  }

  lemma Regroup(thr: int, total: int, m: nat, n: nat, d: int)
    requires m * (100 * d) <= (100 + thr) * total
    ensures 100 * (m * (n * d)) <= n * ((100 + thr) * total)
  {
    MoreShares(m * (100 * d), (100 + thr) * total, n);
    assert n * (m * (100 * d)) == 100 * (m * (n * d));
  }

  lemma SharesOfPeak(carried: int, m: nat, n: nat, d: int, p: real)
    requires 100 * (m * (n * d)) <= carried && 5.0 * (n * d) as real >= 6.0 * p
    ensures carried as real >= m as real * (120.0 * p)
  {
    var x := n * d;
    assert (m * x) as real == m as real * x as real;
    ScaleUp(m as real, 120.0 * p, 100.0 * x as real);
  }

  /** The total itself reaches p when the headroom makes up for what is missing. */
  lemma Holding(thr: int, total: int, m: nat, n: nat, p: real)
    requires thr >= 0 && n > 0 && p > 0.0 && MakesUp(thr, m, n)
    requires (n * ((100 + thr) * total)) as real >= m as real * (120.0 * p)
    ensures total as real >= p
  {
    var w := (100 + thr) * n;
    assert n * ((100 + thr) * total) == w * total;
    assert m as real * (120.0 * p) == (120 * m) as real * p;
    ScaleUp(p, w as real, (120 * m) as real);
    assert (w * total) as real >= w as real * p;
    assert w > 0;
    DivideOut(w, total, p);
  }

  lemma ScaleUp(w: real, x: real, y: real)
    requires w >= 0.0 && x <= y
    ensures w * x <= w * y
  {
  }

  // ---- the other side: how much the requests may exceed the demand ---------------------

  /** The filter keeps a request above its target by at most thr percent of that request. */
  lemma DecideStaysNear(current: Quantity, target: Quantity, thr: int)
    requires 0 <= thr <= 100
    ensures (100 - thr) * Decide(current, target, thr) <= 100 * Max(target, 0)
  {
    ExceedsInWholeNumbers(current, target, thr);
    var kept := Decide(current, target, thr);
    LessThanFull(kept, target, thr);
  }

  /** A share of a quantity that is not above the target, or above it by at most thr percent. */
  lemma LessThanFull(kept: Quantity, target: Quantity, thr: int)
    requires 0 <= thr <= 100
    requires kept <= 0 || kept == target || 100 * Abs(target - kept) <= thr * kept
    ensures (100 - thr) * kept <= 100 * Max(target, 0)
  {
    assert (100 - thr) * kept == 100 * kept - thr * kept;
    if kept <= 0 {
      assert (100 - thr) * kept <= 0;
    } else {
      assert thr * kept >= 0;
    }
  }

  /** What rounding can multiply a quantity by: memory less than doubles. */
  function Rounding(r: ResourceName): int {
    if r == MEMORY then 2 else 1
  }

  /** The lower bound does not lift the demand of one pod. */
  predicate MinNotBinding(r: ResourceName, peak: real, podCount: int, bounds: ResourceBoundsSpec) {
    bounds.min.Parsed? ==> bounds.min.q <= Demand(r, peak, podCount)
  }

  lemma TargetAtMostRounded(r: ResourceName, current: Quantity, peaks: Peaks, podCount: int, bounds: ResourceBoundsSpec)
    requires ValidBounds(bounds) && UsablePeak(peaks, r).Some? && MinNotBinding(r, peaks[r], podCount, bounds)
    ensures 0 < Demand(r, peaks[r], podCount)
    ensures TargetFor(r, current, peaks, podCount, bounds) <= Rounding(r) * Demand(r, peaks[r], podCount)
  {
    DemandMonotone(r, peaks[r], podCount, peaks[r], podCount);
    var clamped := ClampQuantity(Demand(r, peaks[r], podCount), bounds);
    if r == MEMORY && clamped >= 0 {
      AtMostTwice(clamped);
    }
  }

  /** After its resize a pod's target containers exceed their shares by no more than rounding
      and the filter allow. */
  lemma PodStaysNear(pod: Pod, spec: ResizeSpec, peaks: Peaks, podCount: int, r: ResourceName, share: Quantity)
    requires ValidResize(spec) && r in spec.resources && UsablePeak(peaks, r).Some? && Eligible(pod)
    requires MinNotBinding(r, peaks[r], podCount, spec.resources[r])
    requires share == Rounding(r) * Demand(r, peaks[r], podCount)
    ensures (100 - ThresholdOf(spec, r)) * PodTotal(Settled(pod, spec, peaks, podCount), spec.containerName, r)
            <= |TargetIndexes(pod, spec.containerName)| * (100 * share)
  {
    var out, thr := Settled(pod, spec, peaks, podCount), ThresholdOf(spec, r);
    SettledPointwise(pod, spec, peaks, podCount);
    forall i | 0 <= i < |pod.containers|
      ensures out.containers[i].name == pod.containers[i].name
      ensures Selected(pod, spec.containerName, i) ==>
        (100 - thr) * CurrentQuantity(out.containers[i].requests, r) <= 100 * share
    {
      if Selected(pod, spec.containerName, i) {
        var q := CurrentQuantity(pod.containers[i].requests, r);
        ContainerAfterResources(pod, i, spec, peaks, podCount, r);
        TargetAtMostRounded(r, q, peaks, podCount, spec.resources[r]);
        DecideStaysNear(q, TargetFor(r, q, peaks, podCount, spec.resources[r]), thr);
      }
    }
    SameSelection(pod, out, spec.containerName);
    var requests := TargetRequests(out, spec.containerName, r);
    forall j | 0 <= j < |requests|
      ensures (100 - thr) * requests[j] <= 100 * share
    {
      assert Selected(pod, spec.containerName, TargetIndexes(out, spec.containerName)[j]);
    }
    SumStays(requests, 100 - thr, 100 * share);
  }

  /** Amounts that each stay within a share stay within all the shares together. */
  lemma SumStays(s: seq<int>, k: int, share: int)
    requires forall i :: 0 <= i < |s| ==> k * s[i] <= share
    ensures k * SumAll(s) <= |s| * share
  {
    forall i | 0 <= i < |s|
      ensures -share <= -k * s[i]
    {
      Negate(k, s[i]);
    }
    SumCovers(s, -k, -share);
    Negate(k, SumAll(s));
    Negate(share, |s|);
  }

  lemma Negate(k: int, x: int)
    ensures -k * x == -(k * x) && x * -k == -(x * k)
  {
  }

  lemma {:induction false} AscendingFits(indexes: seq<int>, n: nat)
    requires Ascending(indexes, n)
    ensures |indexes| <= n
    decreases |indexes|
  {
    if indexes != [] {
      AscendingFits(indexes[..|indexes| - 1], indexes[|indexes| - 1]);
    }
  }

  /** A pod has at most one target container, unless every container is asked for. */
  lemma TargetCount(pod: Pod, containerName: Option<string>)
    ensures |TargetIndexes(pod, containerName)| <= if containerName == Some("*") then |pod.containers| else 1
  {
    var indexes := TargetIndexes(pod, containerName);
    AscendingFits(indexes, |pod.containers|);
    if |indexes| > 1 {
      assert Selected(pod, containerName, indexes[0]) && Selected(pod, containerName, indexes[1]);
    }
  }

  /** What over-provisioning comes to, for n pods of at most m target containers each. */
  predicate PeakBounded(thr: int, total: Quantity, r: ResourceName, peak: real, n: nat, m: nat) {
    ((100 - thr) * total) as real <=
      (m * Rounding(r)) as real * ((120.0 * peak + 100.0 * (n as real)) * (UnitOf(r) as real))
  }

  /** A total within n pods' worth of m shares, plus what a filter of thr percent may keep. */
  predicate StaysWithin(thr: int, total: Quantity, n: nat, m: nat, share: Quantity) {
    (100 - thr) * total <= n * (m * (100 * share))
  }

  lemma EveryPodStaysNear(pods: Cluster, pods': Cluster, eligible: seq<Pod>, spec: ResizeSpec, peaks: Peaks,
                          r: ResourceName, share: Quantity, m: nat)
    requires ValidResize(spec) && r in spec.resources && UsablePeak(peaks, r).Some?
    requires MinNotBinding(r, peaks[r], |eligible|, spec.resources[r])
    requires 0 <= share == Rounding(r) * Demand(r, peaks[r], |eligible|)
    requires Listed(pods, eligible) && Framed(pods, pods', eligible, spec, peaks, |eligible|, true)
    requires forall e :: e in eligible ==> |TargetIndexes(e, spec.containerName)| <= m
    ensures StaysWithin(ThresholdOf(spec, r), ClusterTotal(pods', eligible, spec.containerName, r), |eligible|, m,
                        share)
  {
    var k := 100 - ThresholdOf(spec, r);
    forall i | 0 <= i < |eligible|
      ensures k * PodTotal(pods'[KeyOf(eligible[i])], spec.containerName, r) <= m * (100 * share)
    {
      assert eligible[i] in eligible;
      PodStaysNear(eligible[i], spec, peaks, |eligible|, r, share);
      MoreShares(|TargetIndexes(eligible[i], spec.containerName)|, m, 100 * share);
    }
    SumStays(PodTotals(pods', eligible, spec.containerName, r), k, m * (100 * share));
  }

  lemma BoundedByDemand(thr: int, total: int, r: ResourceName, peak: real, n: nat, m: nat)
    requires n > 0 && StaysWithin(thr, total, n, m, Rounding(r) * Demand(r, peak, n))
    ensures PeakBounded(thr, total, r, peak, n, m)
  {
    DemandCovers(r, peak, n);
    WithinDemand(thr, total, r, peak, n, m, Demand(r, peak, n));
  }

  lemma WithinDemand(thr: int, total: int, r: ResourceName, peak: real, n: nat, m: nat, d: int)
    requires StaysWithin(thr, total, n, m, Rounding(r) * d)
    requires (n * d) as real <= peak * HEADROOM * (UnitOf(r) as real) + n as real * (UnitOf(r) as real)
    ensures PeakBounded(thr, total, r, peak, n, m)
  {
    var w, x := m * Rounding(r), n * d;
    assert n * (m * (100 * (Rounding(r) * d))) == w * (100 * x);
    var y := (120.0 * peak + 100.0 * (n as real)) * (UnitOf(r) as real);
    assert (100 * x) as real <= y;
    assert (w * (100 * x)) as real == w as real * (100 * x) as real;
    ScaleUp(w as real, (100 * x) as real, y);
  }

  /** The target containers of every pod: at most m each. Only "*" makes that more than one. */
  predicate AtMostTargets(eligible: seq<Pod>, containerName: Option<string>, m: nat) {
    m >= 1 && (containerName == Some("*") ==> forall e :: e in eligible ==> |e.containers| <= m)
  }

  lemma RoundedExcess(pods: Cluster, unreachable: set<ObjectKey>, spec: ResizeSpec, peaks: Peaks, names: seq<string>,
                      namespace: string, accepts: nat -> bool, first: nat, r: ResourceName, m: nat)
    requires WellKeyed(pods) && Complete(pods, unreachable, spec, peaks, names, namespace, accepts, first)
    requires r in spec.resources && UsablePeak(peaks, r).Some?
    requires AtMostTargets(EligiblePods(pods, namespace, names), spec.containerName, m)
    requires MinNotBinding(r, peaks[r], |EligiblePods(pods, namespace, names)|, spec.resources[r])
    ensures var n := |EligiblePods(pods, namespace, names)|;
      StaysWithin(ThresholdOf(spec, r), TotalAfter(pods, spec, peaks, names, namespace, accepts, first, r), n, m,
                  Rounding(r) * Demand(r, peaks[r], n))
  {
    var eligible := EligiblePods(pods, namespace, names);
    var n := |eligible|;
    EligibleAreListed(pods, namespace, names);
    DeliverFramed(pods, eligible, spec, peaks, n, accepts, first);
    DemandMonotone(r, peaks[r], n, peaks[r], n);
    forall e | e in eligible
      ensures |TargetIndexes(e, spec.containerName)| <= m
    {
      TargetCount(e, spec.containerName);
    }
    EveryPodStaysNear(pods, Deliver(pods, Updates(eligible, spec, peaks, n), accepts, first), eligible, spec, peaks, r,
                      Rounding(r) * Demand(r, peaks[r], n), m);
  }

  /** No waste beyond the headroom, the rounding and the filter: after a complete Apply with n
      eligible pods of at most m target containers each, (100 - thr) * requests stays within
      m * (120 * P + 100 * n), twice that for memory. Only "*" makes m more than one, and then
      every container gets a full share. */
  lemma PeakIsNotExceeded(pods: Cluster, unreachable: set<ObjectKey>, spec: ResizeSpec, peaks: Peaks,
                          names: seq<string>, namespace: string, accepts: nat -> bool, first: nat, r: ResourceName,
                          m: nat)
    requires WellKeyed(pods) && Complete(pods, unreachable, spec, peaks, names, namespace, accepts, first)
    requires r in spec.resources && UsablePeak(peaks, r).Some?
    requires EligiblePods(pods, namespace, names) != []
    requires AtMostTargets(EligiblePods(pods, namespace, names), spec.containerName, m)
    requires MinNotBinding(r, peaks[r], |EligiblePods(pods, namespace, names)|, spec.resources[r])
    ensures PeakBounded(ThresholdOf(spec, r), TotalAfter(pods, spec, peaks, names, namespace, accepts, first, r), r,
                        peaks[r], |EligiblePods(pods, namespace, names)|, m)
  {
    RoundedExcess(pods, unreachable, spec, peaks, names, namespace, accepts, first, r, m);
    BoundedByDemand(ThresholdOf(spec, r), TotalAfter(pods, spec, peaks, names, namespace, accepts, first, r), r,
                    peaks[r], |EligiblePods(pods, namespace, names)|, m);
  }

  // ---- the threshold of twenty percent is the best possible --------------------------

  const UNBOUNDED := ResourceBoundsSpec(Unset, Unset, None)

  /** One container of a single pod carries the peak after the filter has decided. */
  predicate Carries(thr: int, current: Quantity, peak: real) {
    Decide(current, TargetFor(CPU, current, map[CPU := peak], 1, UNBOUNDED), thr) as real >= peak
  }

  /** The peak is always carried exactly when the threshold is at most 20 percent: any
      larger one leaves a request of 992m in place under a peak of 1000m. */
  lemma CarriedIffAtMostTwenty(thr: int)
    requires 0 <= thr <= 100
    ensures (forall current, peak :: current >= 0 && peak > 0.0 ==> Carries(thr, current, peak)) <==> thr <= 20
  {
    if thr <= 20 {
      forall current, peak | current >= 0 && peak > 0.0
        ensures Carries(thr, current, peak)
      {
        var peaks := map[CPU := peak];
        DemandMonotone(CPU, peak, 1, peak, 1);
        TargetAtLeastCapped(CPU, current, peaks, 1, UNBOUNDED);
        var target := TargetFor(CPU, current, peaks, 1, UNBOUNDED);
        DecideCovers(current, target, thr);
        Margin(thr, Decide(current, target, thr), 1, 1, CPU, peak);
      }
    } else {
      CeilLeast(1000.0 * HEADROOM / 1.0, 1200);
      assert TargetFor(CPU, 992, map[CPU := 1000.0], 1, UNBOUNDED) == 1200;
      ExceedsInWholeNumbers(992, 1200, thr);
      assert !Carries(thr, 992, 1000.0);
    }
  }
}
