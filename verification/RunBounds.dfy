/** How often a pod is resized over whole runs. */
module RunBounds {
  import opened Prelude
  import opened ResizeApi
  import opened Sizing
  import opened Threshold
  import opened Pods
  import opened ApplyProps
  import opened ResizeCount
  import opened Runs

  // ---- number of resizes --------------------------------------------------------------

  /** One event of a run in which the demand on one pod is known: a tick that names the pod
      and sends updates does so under the spec, by these peaks and this many eligible pods, and
      nobody else replaces the pod. Ticks that name other pods only, ticks that send nothing,
      and status changes are unconstrained. */
  predicate DemandAt(s: System, capacity: int, e: Event, spec: ResizeSpec, peaks: Peaks, podCount: int, k: ObjectKey) {
    && Spares(e, k)
    && (Names(e, k) && EventUpdates(s, capacity, e) != [] ==>
          && UnderSpec(e, k, spec)
          && TickPeaks(s, capacity, e.tick) == peaks
          && |TickEligible(s, e.tick)| == podCount)
  }

  predicate HasContainer(s: System, k: ObjectKey, i: nat) {
    WellKeyed(s.pods) && k in s.pods && i < |s.pods[k].containers|
  }

  function RequestAt(s: System, k: ObjectKey, i: nat, r: ResourceName): Quantity {
    if k in s.pods && i < |s.pods[k].containers| then CurrentQuantity(s.pods[k].containers[i].requests, r) else 0
  }

  /** Any event leaves a request alone or makes it the filtered target. */
  lemma RequestStep(s: System, capacity: int, e: Event, spec: ResizeSpec, peaks: Peaks, podCount: int,
                    k: ObjectKey, i: nat, r: ResourceName)
    requires HasContainer(s, k, i) && ValidResize(spec) && r in spec.resources
    requires DemandAt(s, capacity, e, spec, peaks, podCount, k)
    ensures HasContainer(Next(s, capacity, e), k, i)
    ensures var q, q' := RequestAt(s, k, i, r), RequestAt(Next(s, capacity, e), k, i, r);
      q' == q || q' == Decide(q, TargetFor(r, q, peaks, podCount, spec.resources[r]), ThresholdOf(spec, r))
  {
    StepKeepsKeys(s, capacity, e);
    if e.Reconciled? {
      TickIsFramed(s, capacity, e, k);
      var pod, pod' := s.pods[k], NextPods(s, capacity, e)[k];
      if pod' != pod {
        SettledPointwise(pod, spec, peaks, podCount);
        if Selected(pod, spec.containerName, i) {
          ContainerAfterResources(pod, i, spec, peaks, podCount, r);
        }
      }
    }
  }

  predicate DemandKnown(s: System, capacity: int, events: seq<Event>, spec: ResizeSpec, peaks: seq<Peaks>,
                        pods: seq<int>, k: ObjectKey) {
    && |peaks| == |pods| == |events|
    && forall j :: 0 <= j < |events| ==>
         DemandAt(Exec(s, capacity, events[..j]), capacity, events[j], spec, peaks[j], pods[j], k)
  }

  /** The request after each prefix of the run. */
  function RequestsOver(s: System, capacity: int, events: seq<Event>, k: ObjectKey, i: nat,
                        r: ResourceName): (q: seq<Quantity>)
    ensures |q| == |events| + 1
    ensures forall j :: 0 <= j <= |events| ==> q[j] == RequestAt(Exec(s, capacity, events[..j]), k, i, r)
  {
    seq(|events| + 1, j requires 0 <= j <= |events| => RequestAt(Exec(s, capacity, events[..j]), k, i, r))
  }

  lemma ContainerPersists(s: System, capacity: int, events: seq<Event>, k: ObjectKey, i: nat, n: nat)
    requires HasContainer(s, k, i) && n <= |events|
    requires forall j :: 0 <= j < |events| ==> Spares(events[j], k)
    ensures HasContainer(Exec(s, capacity, events[..n]), k, i)
  {
    assert events[..0] == [];
    LimitsNeverFall(s, capacity, events, k, 0, n);
    RunKeepsKeys(s, capacity, events[..n]);
  }

  lemma RequestsFollow(s: System, capacity: int, events: seq<Event>, spec: ResizeSpec, peaks: seq<Peaks>,
                       pods: seq<int>, k: ObjectKey, i: nat, r: ResourceName)
    requires HasContainer(s, k, i) && ValidResize(spec) && r in spec.resources
    requires DemandKnown(s, capacity, events, spec, peaks, pods, k)
    ensures var requests := RequestsOver(s, capacity, events, k, i, r);
      Trajectory(requests, Proposals(r, requests, peaks, pods, spec.resources[r]), ThresholdOf(spec, r))
  {
    var requests := RequestsOver(s, capacity, events, k, i, r);
    forall j | 0 <= j < |events|
      ensures requests[j + 1] == requests[j] ||
        requests[j + 1] == Decide(requests[j], TargetFor(r, requests[j], peaks[j], pods[j], spec.resources[r]),
                                  ThresholdOf(spec, r))
    {
      ContainerPersists(s, capacity, events, k, i, j);
      ExecOneMore(s, capacity, events, j + 1);
      RequestStep(Exec(s, capacity, events[..j]), capacity, events[j], spec, peaks[j], pods[j], k, i, r);
    }
  }

  /** The bound on resizes, over runs of the whole system. Start where a container's request
      T0 is at most the target of the first known demand, as it is after its last resize. While
      the peaks of the ticks that name its pod do not fall and their eligible pods do not become
      more, whatever else happens - pods skipped or busy, updates refused, other autoscalers
      resizing other pods, pods coming and going - the request changes k times only if
      T0 * (100 + thr)^k <= max * 100^k. */
  lemma RunResizesAreBounded(s: System, capacity: int, events: seq<Event>, spec: ResizeSpec, peaks: seq<Peaks>,
                             pods: seq<int>, k: ObjectKey, i: nat, r: ResourceName)
    requires HasContainer(s, k, i) && ValidResize(spec) && r in spec.resources && spec.resources[r].max.Parsed?
    requires events != [] && DemandKnown(s, capacity, events, spec, peaks, pods, k)
    requires GrowingDemand(r, peaks, pods)
    requires 0 < RequestAt(s, k, i, r) <= TargetFor(r, RequestAt(s, k, i, r), peaks[0], pods[0], spec.resources[r])
    ensures var changes := Changes(RequestsOver(s, capacity, events, k, i, r));
      RequestAt(s, k, i, r) * Pow(100 + ThresholdOf(spec, r), changes) <= spec.resources[r].max.q * Pow(100, changes)
  {
    RequestsFollow(s, capacity, events, spec, peaks, pods, k, i, r);
    assert events[..0] == [];
    ResizesAreBounded(r, RequestsOver(s, capacity, events, k, i, r), peaks, pods, spec.resources[r],
                      ThresholdOf(spec, r));
  }

  /** The dual bound over runs: while demand on the pod only falls, from a request T0 of at least
      the first target, k changes force min * 100^k <= T0 * (100 - thr)^k. */
  lemma RunResizesAreBoundedBelow(s: System, capacity: int, events: seq<Event>, spec: ResizeSpec, peaks: seq<Peaks>,
                                  pods: seq<int>, k: ObjectKey, i: nat, r: ResourceName)
    requires HasContainer(s, k, i) && ValidResize(spec) && r in spec.resources && spec.resources[r].min.Parsed?
    requires events != [] && DemandKnown(s, capacity, events, spec, peaks, pods, k)
    requires FallingDemand(r, peaks, pods) && spec.resources[r].min.q > 0
    requires TargetFor(r, RequestAt(s, k, i, r), peaks[0], pods[0], spec.resources[r]) <= RequestAt(s, k, i, r)
    ensures var changes := Changes(RequestsOver(s, capacity, events, k, i, r));
      spec.resources[r].min.q * Pow(100, changes) <= RequestAt(s, k, i, r) * Pow(100 - ThresholdOf(spec, r), changes)
  {
    var requests, last := RequestsOver(s, capacity, events, k, i, r), |pods| - 1;
    RequestsFollow(s, capacity, events, spec, peaks, pods, k, i, r);
    assert events[..0] == [];
    SettleStable(r, Desired(r, requests[last], peaks[last], pods[last]), spec.resources[r]);
    ResizesAreBoundedBelow(r, requests, peaks, pods, spec.resources[r], ThresholdOf(spec, r));
  }

  // ---- noise, and demand that stays the same ----------------------------------------------

  /** Peaks between two values, for pod counts between two numbers. */
  predicate DemandBetween(r: ResourceName, peaks: seq<Peaks>, pods: seq<int>, low: real, high: real, few: int,
                          many: int)
  {
    && 0.0 < low <= high && |peaks| == |pods|
    && forall j :: 0 <= j < |peaks| ==>
         && r in peaks[j] && low <= peaks[j][r] <= high
         && Divisor(few) <= Divisor(pods[j]) <= Divisor(many)
  }

  /** Hysteresis over whole runs: while the peaks of the ticks that name the pod, and their pod
      counts, stay in ranges whose targets lie closer than thr percent, its requests change at
      most once. */
  lemma RunAbsorbsNoise(s: System, capacity: int, events: seq<Event>, spec: ResizeSpec, peaks: seq<Peaks>,
                        pods: seq<int>, k: ObjectKey, i: nat, r: ResourceName, low: real, high: real, few: int,
                        many: int)
    requires HasContainer(s, k, i) && ValidResize(spec) && r in spec.resources
    requires DemandKnown(s, capacity, events, spec, peaks, pods, k)
    requires DemandBetween(r, peaks, pods, low, high, few, many)
    requires Narrow(Settle(r, Demand(r, low, many), spec.resources[r]),
                    Settle(r, Demand(r, high, few), spec.resources[r]), ThresholdOf(spec, r))
    ensures Changes(RequestsOver(s, capacity, events, k, i, r)) <= 1
  {
    var requests, bounds := RequestsOver(s, capacity, events, k, i, r), spec.resources[r];
    var proposals := Proposals(r, requests, peaks, pods, bounds);
    RequestsFollow(s, capacity, events, spec, peaks, pods, k, i, r);
    forall j | 0 <= j < |proposals|
      ensures Settle(r, Demand(r, low, many), bounds) <= proposals[j] <= Settle(r, Demand(r, high, few), bounds)
    {
      TargetBetween(r, requests[j], peaks[j], pods[j], bounds, low, high, few, many);
    }
    NoiseIsAbsorbed(requests, proposals, ThresholdOf(spec, r), Settle(r, Demand(r, low, many), bounds),
                    Settle(r, Demand(r, high, few), bounds));
  }

  lemma TargetBetween(r: ResourceName, current: Quantity, peaks: Peaks, podCount: int, bounds: ResourceBoundsSpec,
                      low: real, high: real, few: int, many: int)
    requires ValidBounds(bounds) && r in peaks && 0.0 < low <= peaks[r] <= high
    requires Divisor(few) <= Divisor(podCount) <= Divisor(many)
    ensures Settle(r, Demand(r, low, many), bounds) <= TargetFor(r, current, peaks, podCount, bounds)
    ensures TargetFor(r, current, peaks, podCount, bounds) <= Settle(r, Demand(r, high, few), bounds)
  {
    TargetMonotone(r, current, current, map[r := low], peaks, many, podCount, bounds);
    TargetMonotone(r, current, current, peaks, map[r := high], podCount, few, bounds);
  }

  /** Requests that follow the same demand throughout, with or without a forecast. */
  predicate FollowsOne(requests: seq<Quantity>, r: ResourceName, peaks: Peaks, podCount: int,
                       bounds: ResourceBoundsSpec, thr: int) {
    forall j :: 0 < j < |requests| ==>
      || requests[j] == requests[j - 1]
      || requests[j] == Decide(requests[j - 1], TargetFor(r, requests[j - 1], peaks, podCount, bounds), thr)
  }

  lemma {:induction false} OneChange(requests: seq<Quantity>, r: ResourceName, peaks: Peaks, podCount: int,
                                     bounds: ResourceBoundsSpec, thr: int)
    requires requests != [] && ValidBounds(bounds) && thr >= 0
    requires FollowsOne(requests, r, peaks, podCount, bounds, thr)
    ensures Changes(requests) <= 1
    ensures var q := requests[|requests| - 1];
      Changes(requests) == 1 ==> Decide(q, TargetFor(r, q, peaks, podCount, bounds), thr) == q
    decreases |requests|
  {
    if |requests| > 1 {
      var before := requests[..|requests| - 1];
      OneChange(before, r, peaks, podCount, bounds, thr);
      DecideSettles(r, before[|before| - 1], peaks, podCount, bounds, thr);
    }
  }

  /** Quiescence over whole runs: under one demand a request changes at most once, whatever is
      refused, skipped or done to other pods in between, and also when there is no forecast. */
  lemma RunSettles(s: System, capacity: int, events: seq<Event>, spec: ResizeSpec, peaks: seq<Peaks>, pods: seq<int>,
                   k: ObjectKey, i: nat, r: ResourceName)
    requires HasContainer(s, k, i) && ValidResize(spec) && r in spec.resources
    requires DemandKnown(s, capacity, events, spec, peaks, pods, k)
    requires forall j :: 0 < j < |events| ==> peaks[j] == peaks[0] && pods[j] == pods[0]
    ensures Changes(RequestsOver(s, capacity, events, k, i, r)) <= 1
  {
    RequestsFollow(s, capacity, events, spec, peaks, pods, k, i, r);
    if events != [] {
      OneChange(RequestsOver(s, capacity, events, k, i, r), r, peaks[0], pods[0], spec.resources[r],
                ThresholdOf(spec, r));
    }
  }
}
