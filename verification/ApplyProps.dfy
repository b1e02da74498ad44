/** What one Apply does to a cluster, whatever the API server answers: framing,
    quiescence and coverage of demand. */
module ApplyProps {
  import opened Prelude
  import opened ResizeApi
  import opened Sizing
  import opened Threshold
  import opened Pods
  import opened Actuator

  /** Every pod is stored under its own key. */
  predicate WellKeyed(pods: Cluster) {
    forall k :: k in pods ==> KeyOf(pods[k]) == k
  }

  predicate AllAccepted(accepts: nat -> bool, first: nat, count: nat) {
    forall i: nat :: first <= i < first + count ==> accepts(i)
  }

  /** The listed pods are pods of the cluster, as they are stored there, and eligible. */
  predicate Listed(pods: Cluster, eligible: seq<Pod>) {
    forall i :: 0 <= i < |eligible| ==>
      KeyOf(eligible[i]) in pods && pods[KeyOf(eligible[i])] == eligible[i] && Eligible(eligible[i])
  }

  /** The eligible pods are exactly the pods of the cluster that are named, in the namespace,
      and neither terminating nor being resized. */
  lemma {:induction false} EligibleAreListed(pods: Cluster, namespace: string, names: seq<string>)
    requires WellKeyed(pods)
    ensures Listed(pods, EligiblePods(pods, namespace, names))
    ensures forall e :: e in EligiblePods(pods, namespace, names) <==>
      e.namespace == namespace && e.name in names && KeyOf(e) in pods && pods[KeyOf(e)] == e && Eligible(e)
    decreases |names|
  {
    if names != [] {
      var init, last := names[..|names| - 1], names[|names| - 1];
      EligibleAreListed(pods, namespace, init);
      assert names == init + [last];
    }
  }

  /** The same on the pod's own fields: no terminating pod and no pod with a resize in progress
      is listed, and every other named pod that exists is. */
  lemma ListedPodsAreIdle(pods: Cluster, namespace: string, names: seq<string>, e: Pod)
    requires WellKeyed(pods)
    ensures e in EligiblePods(pods, namespace, names) <==>
      && e.namespace == namespace && e.name in names
      && ObjectKey(namespace, e.name) in pods && pods[ObjectKey(namespace, e.name)] == e
      && !e.terminating
      && forall c :: c in e.conditions ==> !(c.kind == PodResizeInProgress && c.status == ConditionTrue)
  {
    EligibleAreListed(pods, namespace, names);
  }

  /** No update is planned for a terminating pod or one with a resize in progress. */
  lemma BusyPodsAreLeft(pod: Pod, spec: ResizeSpec, peaks: Peaks, podCount: int)
    requires pod.terminating ||
      exists c :: c in pod.conditions && c.kind == PodResizeInProgress && c.status == ConditionTrue
    ensures ResizedPod(pod, spec, peaks, podCount).None?
  {
  }

  lemma SettledKeepsIdentity(pod: Pod, spec: ResizeSpec, peaks: Peaks, podCount: int)
    ensures var out := Settled(pod, spec, peaks, podCount);
      && KeyOf(out) == KeyOf(pod) && Eligible(out) == Eligible(pod)
      && (ResizedPod(pod, spec, peaks, podCount).None? ==> out == pod)
  {
    SettledPointwise(pod, spec, peaks, podCount);
  }

  /** Framing of a whole Apply: pods are neither created nor lost; a pod that changes was
      listed and eligible and now is its own resized self; and when every update is
      accepted all listed pods are. */
  predicate Framed(pods: Cluster, pods': Cluster, eligible: seq<Pod>, spec: ResizeSpec, peaks: Peaks, podCount: int,
                   complete: bool) {
    && pods'.Keys == pods.Keys
    && (forall k :: k in pods ==>
          pods'[k] == pods[k] || (pods[k] in eligible && pods'[k] == Settled(pods[k], spec, peaks, podCount)))
    && (complete ==> forall i :: 0 <= i < |eligible| ==>
          KeyOf(eligible[i]) in pods' && pods'[KeyOf(eligible[i])] == Settled(eligible[i], spec, peaks, podCount))
  }

  lemma FramedStep(pods: Cluster, pods': Cluster, done: seq<Pod>, pod: Pod, spec: ResizeSpec, peaks: Peaks,
                   podCount: int, complete: bool, accepted: bool)
    requires WellKeyed(pods) && Listed(pods, done + [pod])
    requires forall k :: k in pods' ==> KeyOf(pods'[k]) == k
    requires Framed(pods, pods', done, spec, peaks, podCount, complete)
    ensures var update := ResizedPod(pod, spec, peaks, podCount);
      var pods'' := if update.Some? && accepted then pods'[KeyOf(update.value) := update.value] else pods';
      && Framed(pods, pods'', done + [pod], spec, peaks, podCount, complete && accepted)
      && WellKeyed(pods'')
  {
    SettledKeepsIdentity(pod, spec, peaks, podCount);
    assert (done + [pod])[|done|] == pod;
    assert forall i :: 0 <= i < |done| ==> (done + [pod])[i] == done[i];
    forall e
      ensures e in done + [pod] <==> e in done || e == pod
    {
    }
  }

  lemma {:induction false} DeliverFramed(pods: Cluster, eligible: seq<Pod>, spec: ResizeSpec, peaks: Peaks,
                                         podCount: int, accepts: nat -> bool, first: nat)
    requires WellKeyed(pods) && Listed(pods, eligible)
    ensures var updates := Updates(eligible, spec, peaks, podCount);
      var pods' := Deliver(pods, updates, accepts, first);
      Framed(pods, pods', eligible, spec, peaks, podCount, AllAccepted(accepts, first, |updates|)) && WellKeyed(pods')
    decreases |eligible|
  {
    if eligible != [] {
      var done, pod := eligible[..|eligible| - 1], eligible[|eligible| - 1];
      var before := Updates(done, spec, peaks, podCount);
      assert done + [pod] == eligible;
      DeliverFramed(pods, done, spec, peaks, podCount, accepts, first);
      UpdatesOneMore(done, pod, spec, peaks, podCount);
      var update := ResizedPod(pod, spec, peaks, podCount);
      DeliverOneMore(pods, before, update, accepts, first);
      FramedStep(pods, Deliver(pods, before, accepts, first), done, pod, spec, peaks, podCount,
                 AllAccepted(accepts, first, |before|), update.None? || accepts(first + |before|));
    }
  }

  // ---- quiescence ------------------------------------------------------------------

  /** Deciding again, from what was decided, changes nothing: also without a forecast, when
      the proposal depends on the current request. */
  lemma DecideSettles(r: ResourceName, q: Quantity, peaks: Peaks, podCount: int, bounds: ResourceBoundsSpec, thr: int)
    requires ValidBounds(bounds) && thr >= 0
    ensures var d := Decide(q, TargetFor(r, q, peaks, podCount, bounds), thr);
      Decide(d, TargetFor(r, d, peaks, podCount, bounds), thr) == d
  {
    SettleStable(r, Desired(r, q, peaks, podCount), bounds);
  }

  lemma SettledContainerIsStable(pod: Pod, i: int, spec: ResizeSpec, peaks: Peaks, podCount: int)
    requires ValidResize(spec) && 0 <= i < |pod.containers| && Selected(pod, spec.containerName, i)
    ensures PlanFor(ContainerAfter(pod, i, spec, peaks, podCount), i, spec, peaks, podCount).None?
  {
    var c' := ContainerAfter(pod, i, spec, peaks, podCount);
    forall r | r in spec.resources
      ensures Decided(c', spec, peaks, podCount, r) == CurrentQuantity(c'.requests, r)
    {
      ContainerAfterResources(pod, i, spec, peaks, podCount, r);
      DecideSettles(r, CurrentQuantity(pod.containers[i].requests, r), peaks, podCount,
                    spec.resources[r], ThresholdOf(spec, r));
    }
    NoPlanKeepsAll(c', i, spec, peaks, podCount);
  }

  lemma {:induction false} NoPlans(pod: Pod, indexes: seq<int>, spec: ResizeSpec, peaks: Peaks, podCount: int)
    requires forall k :: 0 <= k < |indexes| ==> 0 <= indexes[k] < |pod.containers|
    requires forall k :: 0 <= k < |indexes| ==>
      PlanFor(pod.containers[indexes[k]], indexes[k], spec, peaks, podCount).None?
    ensures PlansFor(pod, indexes, spec, peaks, podCount) == []
    decreases |indexes|
  {
    if indexes != [] {
      NoPlans(pod, indexes[..|indexes| - 1], spec, peaks, podCount);
    }
  }

  /** A pod whose resize landed is not resized again by the same peaks. */
  lemma SettledIsStable(pod: Pod, spec: ResizeSpec, peaks: Peaks, podCount: int)
    requires ValidResize(spec) && Eligible(pod)
    ensures ResizedPod(Settled(pod, spec, peaks, podCount), spec, peaks, podCount).None?
  {
    var out := Settled(pod, spec, peaks, podCount);
    SettledPointwise(pod, spec, peaks, podCount);
    forall i | 0 <= i < |pod.containers|
      ensures out.containers[i].name == pod.containers[i].name
      ensures Selected(pod, spec.containerName, i) ==> PlanFor(out.containers[i], i, spec, peaks, podCount).None?
    {
      if Selected(pod, spec.containerName, i) {
        SettledContainerIsStable(pod, i, spec, peaks, podCount);
        ContainerAfterResources(pod, i, spec, peaks, podCount, CPU);
      }
    }
    var indexes := TargetIndexes(out, spec.containerName);
    forall k | 0 <= k < |indexes|
      ensures PlanFor(out.containers[indexes[k]], indexes[k], spec, peaks, podCount).None?
    {
      assert Selected(pod, spec.containerName, indexes[k]);
    }
    NoPlans(out, indexes, spec, peaks, podCount);
  }

  function SettledAll(eligible: seq<Pod>, spec: ResizeSpec, peaks: Peaks, podCount: int): (r: seq<Pod>)
    ensures |r| == |eligible|
    ensures forall i :: 0 <= i < |r| ==> r[i] == Settled(eligible[i], spec, peaks, podCount)
  {
    seq(|eligible|, i requires 0 <= i < |eligible| => Settled(eligible[i], spec, peaks, podCount))
  }

  /** After a complete Apply the same names list the same pods, settled. */
  lemma {:induction false} EligibleAfter(pods: Cluster, pods': Cluster, namespace: string, names: seq<string>,
                                         all: seq<Pod>, spec: ResizeSpec, peaks: Peaks, podCount: int)
    requires WellKeyed(pods) && Listed(pods, all)
    requires Framed(pods, pods', all, spec, peaks, podCount, true)
    requires forall e :: e in EligiblePods(pods, namespace, names) ==> e in all
    ensures EligiblePods(pods', namespace, names) ==
      SettledAll(EligiblePods(pods, namespace, names), spec, peaks, podCount)
    decreases |names|
  {
    if names != [] {
      var init, key := names[..|names| - 1], ObjectKey(namespace, names[|names| - 1]);
      EligibleAfter(pods, pods', namespace, init, all, spec, peaks, podCount);
      if key in pods {
        SettledKeepsIdentity(pods[key], spec, peaks, podCount);
        if Eligible(pods[key]) {
          assert pods[key] in EligiblePods(pods, namespace, names);
          assert pods'[key] == Settled(pods[key], spec, peaks, podCount);
        }
      }
    }
  }

  lemma {:induction false} NoUpdates(eligible: seq<Pod>, spec: ResizeSpec, peaks: Peaks, podCount: int)
    requires forall i :: 0 <= i < |eligible| ==> ResizedPod(eligible[i], spec, peaks, podCount).None?
    ensures Updates(eligible, spec, peaks, podCount) == []
    decreases |eligible|
  {
    if eligible != [] {
      NoUpdates(eligible[..|eligible| - 1], spec, peaks, podCount);
    }
  }

  /** Quiescence: once every update of an Apply has been accepted, applying the same peaks
      to the same names under the same spec sends no update at all. */
  lemma Quiescence(pods: Cluster, unreachable: set<ObjectKey>, resize: Option<ResizeSpec>, peaks: Peaks,
                   names: seq<string>, namespace: string, accepts: nat -> bool, first: nat)
    requires WellKeyed(pods)
    requires AllAccepted(accepts, first, |ApplyUpdates(pods, unreachable, resize, peaks, names, namespace)|)
    ensures var updates := ApplyUpdates(pods, unreachable, resize, peaks, names, namespace);
      var pods' := Deliver(pods, updates, accepts, first);
      ApplyUpdates(pods', unreachable, resize, peaks, names, namespace) == []
  {
    if resize.Some? && ValidResize(resize.value) && Reachable(unreachable, namespace, names) {
      var spec, eligible := resize.value, EligiblePods(pods, namespace, names);
      var n := |eligible|;
      var pods' := Deliver(pods, Updates(eligible, spec, peaks, n), accepts, first);
      EligibleAreListed(pods, namespace, names);
      DeliverFramed(pods, eligible, spec, peaks, n, accepts, first);
      EligibleAfter(pods, pods', namespace, names, eligible, spec, peaks, n);
      forall i | 0 <= i < n
        ensures ResizedPod(SettledAll(eligible, spec, peaks, n)[i], spec, peaks, n).None?
      {
        SettledIsStable(eligible[i], spec, peaks, n);
      }
      NoUpdates(SettledAll(eligible, spec, peaks, n), spec, peaks, n);
    }
  }
}
