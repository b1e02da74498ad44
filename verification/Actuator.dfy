/** Applying forecasts to pods through the API server (internal/resize/actuator.go). */
module Actuator {
  import opened Prelude
  import opened ResizeApi
  import opened Sizing
  import opened Threshold
  import opened Pods

  datatype Response = Response(point: seq<real>, quantiles: seq<QuantileSeries>)
  type Forecasts = map<ResourceName, Response>
  type Histories = map<ResourceName, seq<real>>
  type Cluster = map<ObjectKey, Pod>

  /** The API server as the controller sees it. Which reads fail and which updates are
      accepted is up to the environment: `unreachable` and `accepts` are arbitrary. */
  class Client {
    var pods: Cluster
    var unreachable: set<ObjectKey>
    var sent: seq<Pod>              // every resize update sent so far, accepted or not
    const accepts: nat -> bool      // the answer to the n-th update

    constructor (pods: Cluster, unreachable: set<ObjectKey>, accepts: nat -> bool)
      ensures this.pods == pods && this.unreachable == unreachable && this.accepts == accepts && sent == []
    {
      this.pods, this.unreachable, this.accepts, this.sent := pods, unreachable, accepts, [];
    }

    method UpdateResize(pod: Pod) returns (ok: bool)
      modifies this`pods, this`sent
      ensures sent == old(sent) + [pod]
      ensures ok == accepts(|old(sent)|)
      ensures pods == if ok then old(pods)[KeyOf(pod) := pod] else old(pods)
    {
      ok := accepts(|sent|);
      sent := sent + [pod];
      if ok {
        pods := pods[KeyOf(pod) := pod];
      }
    }
  }

  /** The cluster after a series of updates, the first of them being update number `first`. */
  function Deliver(pods: Cluster, updates: seq<Pod>, accepts: nat -> bool, first: nat): Cluster {
    if updates == [] then pods else
    var last := |updates| - 1;
    var before := Deliver(pods, updates[..last], accepts, first);
    if accepts(first + last) then before[KeyOf(updates[last]) := updates[last]] else before
  }

  lemma DeliverOneMore(pods: Cluster, updates: seq<Pod>, update: Option<Pod>, accepts: nat -> bool, first: nat)
    ensures Deliver(pods, updates + Sent(update), accepts, first) ==
      var before := Deliver(pods, updates, accepts, first);
      if update.Some? && accepts(first + |updates|) then before[KeyOf(update.value) := update.value] else before
  {
    if update.Some? {
      assert (updates + [update.value])[..|updates|] == updates;
    } else {
      assert updates + [] == updates;
    }
  }

  /** The last accepted update of a pod, or -1. */
  function LastAccepted(updates: seq<Pod>, accepts: nat -> bool, first: nat, k: ObjectKey): (j: int)
    ensures -1 <= j < |updates|
    ensures j >= 0 ==> KeyOf(updates[j]) == k && accepts(first + j)
    ensures forall i :: j < i < |updates| && KeyOf(updates[i]) == k ==> !accepts(first + i)
  {
    if updates == [] then -1
    else if KeyOf(updates[|updates| - 1]) == k && accepts(first + |updates| - 1) then |updates| - 1
    else LastAccepted(updates[..|updates| - 1], accepts, first, k)
  }

  /** What a series of updates leaves: a pod none of whose updates was accepted is as it was, and
      any other pod is its last accepted update. */
  lemma {:induction false} LandedUpdates(pods: Cluster, updates: seq<Pod>, accepts: nat -> bool, first: nat,
                                         k: ObjectKey)
    ensures var after, j := Deliver(pods, updates, accepts, first), LastAccepted(updates, accepts, first, k);
      if j >= 0 then k in after && after[k] == updates[j]
      else (k in after <==> k in pods) && (k in pods ==> after[k] == pods[k])
    decreases |updates|
  {
    if updates != [] {
      LandedUpdates(pods, updates[..|updates| - 1], accepts, first, k);
    }
  }

  function Sent(update: Option<Pod>): seq<Pod> {
    if update.Some? then [update.value] else []
  }

  // ---- peaks -----------------------------------------------------------------------

  function PeakWithHistory(resp: Response, history: Option<seq<real>>): (peak: real)
    ensures peak >= 0.0
  {
    var peak := ForecastPeak(resp.point, resp.quantiles);
    if history.Some? then EffectivePeak(peak, PeakFrom(0.0, RecentWindow(history.value, DEFAULT_RECENT_PEAK_WINDOW)))
    else peak
  }

  function HistoryOf(recent: Histories, r: ResourceName): Option<seq<real>> {
    if r in recent then Some(recent[r]) else None
  }

  /** The peak used for each forecast resource: the forecast, floored by recent history. */
  function EffectivePeaks(forecasts: Forecasts, recent: Histories): Peaks {
    map r | r in forecasts :: PeakWithHistory(forecasts[r], HistoryOf(recent, r))
  }

  method CollectPeaks(forecasts: Forecasts, recent: Histories) returns (peaks: Peaks)
    ensures peaks == EffectivePeaks(forecasts, recent)
  {
    peaks := map[];
    var keys := forecasts.Keys;
    while keys != {}
      invariant keys <= forecasts.Keys
      invariant peaks.Keys == forecasts.Keys - keys
      invariant forall r :: r in peaks ==> peaks[r] == PeakWithHistory(forecasts[r], HistoryOf(recent, r))
      decreases keys
    {
      var r :| r in keys;
      var peak := ForecastPeaks(forecasts[r].point, forecasts[r].quantiles);
      if r in recent {
        var observed := RecentPeak(recent[r], DEFAULT_RECENT_PEAK_WINDOW);
        var raised := EffectivePeak(peak, observed);
        if raised > peak {
          peak := raised;
        }
      }
      peaks := peaks[r := peak];
      keys := keys - {r};
    }
  }

  /** A value the peak is to cover: forecast, in the point series or any quantile series, or
      among the last nine samples of the history. */
  predicate Seen(forecasts: Forecasts, recent: Histories, r: ResourceName, v: real)
    requires r in forecasts
  {
    || v in forecasts[r].point
    || (exists q :: q in forecasts[r].quantiles && v in q.values)
    || (r in recent && v in Last(recent[r], DEFAULT_RECENT_PEAK_WINDOW))
  }

  lemma PeakCovers(forecasts: Forecasts, recent: Histories, r: ResourceName, v: real)
    requires r in forecasts && Seen(forecasts, recent, r, v)
    ensures v <= EffectivePeaks(forecasts, recent)[r]
  {
    ForecastPeakIsMaximum(forecasts[r].point, forecasts[r].quantiles);
  }

  /** And it is no more than that: zero, or one of the values it is to cover. */
  lemma PeakAttained(forecasts: Forecasts, recent: Histories, r: ResourceName)
    requires r in forecasts
    ensures var peak := EffectivePeaks(forecasts, recent)[r];
      peak == 0.0 || Seen(forecasts, recent, r, peak)
  {
    ForecastPeakIsMaximum(forecasts[r].point, forecasts[r].quantiles);
  }

  // ---- eligible pods ---------------------------------------------------------------

  function EligiblePods(pods: Cluster, namespace: string, names: seq<string>): seq<Pod> {
    if names == [] then [] else
    var before := EligiblePods(pods, namespace, names[..|names| - 1]);
    var key := ObjectKey(namespace, names[|names| - 1]);
    if key in pods && Eligible(pods[key]) then before + [pods[key]] else before
  }

  predicate Reachable(unreachable: set<ObjectKey>, namespace: string, names: seq<string>) {
    forall i :: 0 <= i < |names| ==> ObjectKey(namespace, names[i]) !in unreachable
  }

  /** Pods are listed in the order of their names: a list of names lists what its parts do, one
      after the other, and one name lists its pod when that exists and is idle. */
  lemma {:induction false} EligibleInOrder(pods: Cluster, namespace: string, a: seq<string>, b: seq<string>,
                                           name: string)
    ensures EligiblePods(pods, namespace, a + b) == EligiblePods(pods, namespace, a) + EligiblePods(pods, namespace, b)
    ensures EligiblePods(pods, namespace, [name]) ==
      var k := ObjectKey(namespace, name);
      if k in pods && !pods[k].terminating && Condition(PodResizeInProgress, ConditionTrue) !in pods[k].conditions
      then [pods[k]] else []
    decreases |b|
  {
    assert [name][..0] == [];
    if b == [] {
      assert a + b == a;
    } else {
      EligibleInOrder(pods, namespace, a, b[..|b| - 1], name);
      assert (a + b)[..|a + b| - 1] == a + b[..|b| - 1];
    }
  }

  method ListEligiblePods(client: Client, namespace: string, names: seq<string>) returns (r: Result<seq<Pod>, string>)
    ensures r.Ok? <==> Reachable(client.unreachable, namespace, names)
    ensures r.Ok? ==> r.value == EligiblePods(client.pods, namespace, names)
  {
    var eligible: seq<Pod> := [];
    for i := 0 to |names|
      invariant Reachable(client.unreachable, namespace, names[..i])
      invariant eligible == EligiblePods(client.pods, namespace, names[..i])
    {
      assert names[..i + 1][..i] == names[..i];
      var key := ObjectKey(namespace, names[i]);
      if key in client.unreachable {
        return Err("get pod " + names[i]);
      }
      if key in client.pods {
        var pod := client.pods[key];
        var busy := ResizeInProgress(pod);
        if !pod.terminating && !busy {
          eligible := eligible + [pod];
        }
      }
    }
    assert names[..|names|] == names;
    return Ok(eligible);
  }

  // ---- resizing --------------------------------------------------------------------

  /** Plans one pod and sends the update when there is something to change. The answer of
      the API server is returned, where the original wraps it as an error. */
  method ResizePod(client: Client, pod: Pod, spec: ResizeSpec, peaks: Peaks, podCount: int) returns (ok: bool)
    modifies client`pods, client`sent
    ensures var update := ResizedPod(pod, spec, peaks, podCount);
      && client.sent == old(client.sent) + Sent(update)
      && (update.None? ==> ok && client.pods == old(client.pods))
      && (update.Some? ==>
            && ok == client.accepts(|old(client.sent)|)
            && client.pods == if ok then old(client.pods)[KeyOf(update.value) := update.value] else old(client.pods))
  {
    if pod.terminating {
      return true;
    }
    var busy := ResizeInProgress(pod);
    if busy {
      return true;
    }
    var indexes := TargetContainerIndexes(pod, spec.containerName);
    if |indexes| == 0 {
      return true;
    }
    var plans := BuildPlans(pod, indexes, spec, peaks, podCount);
    if |plans| == 0 {
      return true;
    }
    var resized := BuildResizePod(pod, plans, spec.resources);
    ok := client.UpdateResize(resized);
  }

  method BuildPlans(pod: Pod, indexes: seq<int>, spec: ResizeSpec, peaks: Peaks,
                    podCount: int) returns (plans: seq<Plan>)
    requires forall k :: 0 <= k < |indexes| ==> 0 <= indexes[k] < |pod.containers|
    ensures plans == PlansFor(pod, indexes, spec, peaks, podCount)
  {
    plans := [];
    for i := 0 to |indexes|
      invariant plans == PlansFor(pod, indexes[..i], spec, peaks, podCount)
    {
      assert indexes[..i + 1][..i] == indexes[..i];
      var current := pod.containers[indexes[i]].requests;
      var proposed := ComputeTargets(peaks, podCount, current, spec.resources);
      var targets, changed := ApplyMinChangeThreshold(current, proposed, spec.minChangePercent, spec.resources);
      if changed && TargetsChanged(current, targets) {
        plans := plans + [Plan(indexes[i], targets)];
      }
    }
    assert indexes[..|indexes|] == indexes;
  }

  /** The updates sent for a list of eligible pods, in order. */
  function Updates(eligible: seq<Pod>, spec: ResizeSpec, peaks: Peaks, podCount: int): seq<Pod> {
    if eligible == [] then [] else
    Updates(eligible[..|eligible| - 1], spec, peaks, podCount) +
    Sent(ResizedPod(eligible[|eligible| - 1], spec, peaks, podCount))
  }

  lemma UpdatesOneMore(eligible: seq<Pod>, pod: Pod, spec: ResizeSpec, peaks: Peaks, podCount: int)
    ensures Updates(eligible + [pod], spec, peaks, podCount) ==
      Updates(eligible, spec, peaks, podCount) + Sent(ResizedPod(pod, spec, peaks, podCount))
  {
  }

  /** Updates are sent in the order of the pods, one for each pod that has one. */
  lemma {:induction false} UpdatesInOrder(a: seq<Pod>, b: seq<Pod>, spec: ResizeSpec, peaks: Peaks, podCount: int)
    ensures Updates(a + b, spec, peaks, podCount) ==
      Updates(a, spec, peaks, podCount) + Updates(b, spec, peaks, podCount)
    decreases |b|
  {
    if b == [] {
      assert a + b == a;
    } else {
      var init := b[..|b| - 1];
      UpdatesInOrder(a, init, spec, peaks, podCount);
      UpdatesUpToLast(b, spec, peaks, podCount);
      UpdatesUpToLast(a + b, spec, peaks, podCount);
      assert (a + b)[..|a + b| - 1] == a + init;
      Regrouped(Updates(a, spec, peaks, podCount), Updates(init, spec, peaks, podCount),
                Sent(ResizedPod(b[|b| - 1], spec, peaks, podCount)));
    }
  }

  lemma UpdatesUpToLast(pods: seq<Pod>, spec: ResizeSpec, peaks: Peaks, podCount: int)
    requires pods != []
    ensures Updates(pods, spec, peaks, podCount) ==
      Updates(pods[..|pods| - 1], spec, peaks, podCount) + Sent(ResizedPod(pods[|pods| - 1], spec, peaks, podCount))
  {
  }

  lemma Regrouped<T>(x: seq<T>, y: seq<T>, z: seq<T>)
    ensures (x + y) + z == x + (y + z)
  {
  }

  lemma OneUpdate(pod: Pod, spec: ResizeSpec, peaks: Peaks, podCount: int)
    ensures Updates([pod], spec, peaks, podCount) ==
      var update := ResizedPod(pod, spec, peaks, podCount);
      if update.Some? then [update.value] else []
  {
    assert [] + [pod] == [pod];
    UpdatesOneMore([], pod, spec, peaks, podCount);
  }

  /** The updates one Apply sends. */
  function ApplyUpdates(pods: Cluster, unreachable: set<ObjectKey>, resize: Option<ResizeSpec>,
                        peaks: Peaks, names: seq<string>, namespace: string): seq<Pod> {
    if resize.None? || !ValidResize(resize.value) || !Reachable(unreachable, namespace, names) then [] else
    var eligible := EligiblePods(pods, namespace, names);
    Updates(eligible, resize.value, peaks, |eligible|)
  }

  predicate ApplyFails(unreachable: set<ObjectKey>, resize: Option<ResizeSpec>, names: seq<string>, namespace: string) {
    resize.Some? && (!ValidResize(resize.value) || !Reachable(unreachable, namespace, names))
  }

  /** When an Apply fails: for a spec that is not accepted, or when one of the named pods cannot
      be read; and then it has sent nothing. */
  lemma FailureSendsNothing(pods: Cluster, unreachable: set<ObjectKey>, resize: Option<ResizeSpec>, peaks: Peaks,
                            names: seq<string>, namespace: string)
    ensures ApplyFails(unreachable, resize, names, namespace) <==>
      resize.Some? &&
      (!ValidResize(resize.value) || exists name :: name in names && ObjectKey(namespace, name) in unreachable)
    ensures ApplyFails(unreachable, resize, names, namespace) || resize.None? ==>
      ApplyUpdates(pods, unreachable, resize, peaks, names, namespace) == []
  {
    if exists name :: name in names && ObjectKey(namespace, name) in unreachable {
      var name :| name in names && ObjectKey(namespace, name) in unreachable;
      var i :| 0 <= i < |names| && names[i] == name;
    }
  }

  /** Sends exactly the planned updates, in order, whatever the API server answers. */
  method Apply(client: Client, resize: Option<ResizeSpec>, forecasts: Forecasts, recent: Histories,
               names: seq<string>, namespace: string) returns (r: Result<(), string>)
    modifies client`pods, client`sent
    ensures r.Err? <==> ApplyFails(client.unreachable, resize, names, namespace)
    ensures var updates := ApplyUpdates(old(client.pods), client.unreachable, resize,
                                        EffectivePeaks(forecasts, recent), names, namespace);
      && client.sent == old(client.sent) + updates
      && client.pods == Deliver(old(client.pods), updates, client.accepts, |old(client.sent)|)
  {
    if resize.None? {
      return Ok(());
    }
    var spec := resize.value;
    var valid := ValidateResize(spec);
    if valid.Err? {
      return valid;
    }
    if |names| == 0 {
      return Ok(());
    }
    var peaks := CollectPeaks(forecasts, recent);
    var listed := ListEligiblePods(client, namespace, names);
    if listed.Err? {
      return Err(listed.error);
    }
    var eligible := listed.value;
    ResizeAll(client, eligible, spec, peaks, |eligible|);
    return Ok(());
  }

  /** The pods in `done` have been handled: `pods` and `sent` were the state before, `pods'`
      and `sent'` are the state after. */
  predicate Progress(pods: Cluster, sent: seq<Pod>, pods': Cluster, sent': seq<Pod>, accepts: nat -> bool,
                     done: seq<Pod>, spec: ResizeSpec, peaks: Peaks, podCount: int) {
    && sent' == sent + Updates(done, spec, peaks, podCount)
    && pods' == Deliver(pods, Updates(done, spec, peaks, podCount), accepts, |sent|)
  }

  lemma ProgressStep(pods: Cluster, sent: seq<Pod>, pods': Cluster, sent': seq<Pod>, accepts: nat -> bool,
                     done: seq<Pod>, pod: Pod, spec: ResizeSpec, peaks: Peaks, podCount: int)
    requires Progress(pods, sent, pods', sent', accepts, done, spec, peaks, podCount)
    ensures var update := ResizedPod(pod, spec, peaks, podCount);
      Progress(pods, sent,
               if update.Some? && accepts(|sent'|) then pods'[KeyOf(update.value) := update.value] else pods',
               sent' + Sent(update), accepts, done + [pod], spec, peaks, podCount)
  {
    UpdatesOneMore(done, pod, spec, peaks, podCount);
    DeliverOneMore(pods, Updates(done, spec, peaks, podCount), ResizedPod(pod, spec, peaks, podCount), accepts, |sent|);
  }

  method ResizeAll(client: Client, eligible: seq<Pod>, spec: ResizeSpec, peaks: Peaks, podCount: int)
    modifies client`pods, client`sent
    ensures var updates := Updates(eligible, spec, peaks, podCount);
      && client.sent == old(client.sent) + updates
      && client.pods == Deliver(old(client.pods), updates, client.accepts, |old(client.sent)|)
  {
    ghost var pods, sent := client.pods, client.sent;
    for i := 0 to |eligible|
      invariant Progress(pods, sent, client.pods, client.sent, client.accepts, eligible[..i], spec, peaks, podCount)
    {
      ProgressStep(pods, sent, client.pods, client.sent, client.accepts, eligible[..i], eligible[i], spec, peaks,
                   podCount);
      assert eligible[..i] + [eligible[i]] == eligible[..i + 1];
      var _ := ResizePod(client, eligible[i], spec, peaks, podCount);
    }
    assert eligible[..|eligible|] == eligible;
  }
}
