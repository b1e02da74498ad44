/** Whole runs: the controller's ticks interleaved with everything else that can happen to
    the cluster, and what every reachable state satisfies. */
module Runs {
  import opened Prelude
  import opened History
  import opened ResizeApi
  import opened Sizing
  import opened Pods
  import opened Actuator
  import opened ApplyProps
  import opened Controller

  /** The history, the cluster, and each pod as it was when it last appeared. */
  datatype System = System(log: Log, pods: Cluster, baseline: Cluster)

  datatype Event =
    | Reconciled(tick: Tick, unreachable: set<ObjectKey>, accepts: nat -> bool, first: nat)
    | PodAppears(pod: Pod)          // created, or edited by somebody else
    | PodVanishes(key: ObjectKey)
    | PodStatus(key: ObjectKey, terminating: bool, conditions: seq<Condition>)

  function EventUpdates(s: System, capacity: int, e: Event): seq<Pod>
    requires e.Reconciled?
  {
    TickUpdates(Some(s.log), capacity, e.tick, s.pods, e.unreachable)
  }

  function NextPods(s: System, capacity: int, e: Event): Cluster {
    match e
    case Reconciled(_, _, accepts, first) => Deliver(s.pods, EventUpdates(s, capacity, e), accepts, first)
    case PodAppears(pod) => s.pods[KeyOf(pod) := pod]
    case PodVanishes(key) => s.pods - {key}
    case PodStatus(key, terminating, conditions) =>
      if key in s.pods then s.pods[key := s.pods[key].(terminating := terminating, conditions := conditions)]
        else s.pods
  }

  function NextBaseline(s: System, e: Event): Cluster {
    match e
    case PodAppears(pod) => s.baseline[KeyOf(pod) := pod]
    case PodVanishes(key) => s.baseline - {key}
    case _ => s.baseline
  }

  function NextLog(s: System, capacity: int, e: Event): Log {
    if e.Reconciled? then
      var log := TickLog(Some(s.log), capacity, e.tick);
      log.GetOr(s.log)
    else s.log
  }

  function Next(s: System, capacity: int, e: Event): System {
    System(NextLog(s, capacity, e), NextPods(s, capacity, e), NextBaseline(s, e))
  }

  function Exec(s: System, capacity: int, events: seq<Event>): System {
    if events == [] then s
    else Next(Exec(s, capacity, events[..|events| - 1]), capacity, events[|events| - 1])
  }

  /** The eligible pods of a tick. */
  function TickEligible(s: System, tick: Tick): seq<Pod>
    requires Fetched(tick)
  {
    EligiblePods(s.pods, MetricsTargetNamespace(tick.found.value), tick.fetch.value.podNames)
  }

  /** The peaks a tick resizes by. */
  function TickPeaks(s: System, capacity: int, tick: Tick): Peaks
    requires Fetched(tick)
  {
    GatheredPeaks(TickGather(Some(s.log), capacity, tick), capacity, tick.found.value)
  }

  /** The tick gets as far as its pods, and the pod is one of them. */
  predicate Names(e: Event, k: ObjectKey) {
    && e.Reconciled? && Fetched(e.tick)
    && MetricsTargetNamespace(e.tick.found.value) == k.namespace
    && k.name in e.tick.fetch.value.podNames
  }

  /** A tick that names the pod resizes under this one spec, if at all. All other ticks, of
      any number of autoscalers, may have specs of their own. */
  predicate UnderSpec(e: Event, k: ObjectKey, spec: ResizeSpec) {
    Names(e, k) && e.tick.found.value.resize.Some? ==> e.tick.found.value.resize.value == spec
  }

  /** The event neither replaces nor removes the pod. */
  predicate Spares(e: Event, k: ObjectKey) {
    match e
    case PodAppears(pod) => KeyOf(pod) != k
    case PodVanishes(key) => key != k
    case _ => true
  }

  // ---- one event, at one pod ------------------------------------------------------------

  /** A tick touches a pod only if it names it, under its own spec and peaks, and then makes
      it its resized self. */
  lemma TickIsFramed(s: System, capacity: int, e: Event, k: ObjectKey)
    requires e.Reconciled? && WellKeyed(s.pods)
    ensures WellKeyed(NextPods(s, capacity, e))
    ensures NextPods(s, capacity, e).Keys == s.pods.Keys
    ensures k in s.pods && NextPods(s, capacity, e)[k] != s.pods[k] ==>
      && Names(e, k) && EventUpdates(s, capacity, e) != []
      && e.tick.found.value.resize.Some? && ValidResize(e.tick.found.value.resize.value) && Eligible(s.pods[k])
      && NextPods(s, capacity, e)[k] == Settled(s.pods[k], e.tick.found.value.resize.value,
                                                TickPeaks(s, capacity, e.tick), |TickEligible(s, e.tick)|)
  {
    if EventUpdates(s, capacity, e) != [] {
      var eligible := TickEligible(s, e.tick);
      EligibleAreListed(s.pods, MetricsTargetNamespace(e.tick.found.value), e.tick.fetch.value.podNames);
      DeliverFramed(s.pods, eligible, e.tick.found.value.resize.value, TickPeaks(s, capacity, e.tick), |eligible|,
                    e.accepts, e.first);
    }
  }

  /** On the pod's own fields: a tick changes only pods it names that are neither terminating nor
      have a resize in progress. */
  lemma TickLeavesBusyPods(s: System, capacity: int, e: Event, k: ObjectKey)
    requires e.Reconciled? && WellKeyed(s.pods) && k in s.pods
    ensures k in NextPods(s, capacity, e)
    ensures NextPods(s, capacity, e)[k] != s.pods[k] ==>
      && Names(e, k)
      && !s.pods[k].terminating
      && forall c :: c in s.pods[k].conditions ==> !(c.kind == PodResizeInProgress && c.status == ConditionTrue)
  {
    TickIsFramed(s, capacity, e, k);
  }

  lemma StepKeepsKeys(s: System, capacity: int, e: Event)
    requires WellKeyed(s.pods)
    ensures WellKeyed(NextPods(s, capacity, e))
  {
    if e.Reconciled? {
      TickIsFramed(s, capacity, e, ObjectKey("", ""));
    }
  }

  // ---- requests and limits, relative to where a pod started ---------------------------

  predicate ResourceWithin(c: Container, base: Container, spec: ResizeSpec, r: ResourceName) {
    && (r in c.limits <==> r in base.limits)
    && (r in base.limits ==> base.limits[r] <= c.limits[r])
    && if r in spec.resources then
         var q, q0, bounds := CurrentQuantity(c.requests, r), CurrentQuantity(base.requests, r), spec.resources[r];
         && (q == q0 || InBounds(q, bounds))
         && (r in base.limits ==>
               && (c.limits[r] == base.limits[r] || c.limits[r] == q0 || InBounds(c.limits[r], bounds))
               && (q0 <= base.limits[r] ==> q <= c.limits[r]))
       else
         && (r in c.requests <==> r in base.requests)
         && (r in base.requests ==> c.requests[r] == base.requests[r])
         && (r in base.limits ==> c.limits[r] == base.limits[r])
  }

  /** A container relative to its baseline: limits are never created, dropped or lowered,
      and each is the original limit, the original request, or in bounds; each controlled
      request is the original one or in bounds; request <= limit is kept; and resources
      that are not controlled are untouched. */
  ghost predicate ContainerWithin(c: Container, base: Container, spec: ResizeSpec) {
    c.name == base.name && forall r :: ResourceWithin(c, base, spec, r)
  }

  ghost predicate PodWithin(pod: Pod, base: Pod, spec: ResizeSpec) {
    && KeyOf(pod) == KeyOf(base)
    && |pod.containers| == |base.containers|
    && forall i :: 0 <= i < |pod.containers| ==> ContainerWithin(pod.containers[i], base.containers[i], spec)
  }

  ghost predicate Safe(s: System, k: ObjectKey, spec: ResizeSpec) {
    && WellKeyed(s.pods)
    && (k in s.baseline <==> k in s.pods)
    && (k in s.pods ==> PodWithin(s.pods[k], s.baseline[k], spec))
  }

  lemma DecidedOrigin(c: Container, spec: ResizeSpec, peaks: Peaks, podCount: int, r: ResourceName)
    requires ValidResize(spec) && r in spec.resources
    ensures var d := Decided(c, spec, peaks, podCount, r);
      d == CurrentQuantity(c.requests, r) || InBounds(d, spec.resources[r])
  {
  }

  lemma ResizeStaysWithin(pod: Pod, i: int, base: Container, spec: ResizeSpec, peaks: Peaks, podCount: int)
    requires ValidResize(spec) && 0 <= i < |pod.containers| && ContainerWithin(pod.containers[i], base, spec)
    ensures ContainerWithin(ContainerAfter(pod, i, spec, peaks, podCount), base, spec)
  {
    if Selected(pod, spec.containerName, i) {
      var c, c' := pod.containers[i], ContainerAfter(pod, i, spec, peaks, podCount);
      forall r
        ensures c'.name == c.name && ResourceWithin(c', base, spec, r)
      {
        assert ResourceWithin(c, base, spec, r);
        ContainerAfterResources(pod, i, spec, peaks, podCount, r);
        if r in spec.resources {
          DecidedOrigin(c, spec, peaks, podCount, r);
        }
      }
    }
  }

  lemma SettledStaysWithin(pod: Pod, base: Pod, spec: ResizeSpec, peaks: Peaks, podCount: int)
    requires ValidResize(spec) && PodWithin(pod, base, spec)
    ensures PodWithin(Settled(pod, spec, peaks, podCount), base, spec)
  {
    var out := Settled(pod, spec, peaks, podCount);
    SettledPointwise(pod, spec, peaks, podCount);
    forall i | 0 <= i < |pod.containers|
      ensures ContainerWithin(out.containers[i], base.containers[i], spec)
    {
      ResizeStaysWithin(pod, i, base.containers[i], spec, peaks, podCount);
    }
  }

  lemma StepIsSafe(s: System, capacity: int, e: Event, k: ObjectKey, spec: ResizeSpec)
    requires Safe(s, k, spec) && UnderSpec(e, k, spec)
    ensures Safe(Next(s, capacity, e), k, spec)
  {
    match e {
      case Reconciled(_, _, _, _) =>
        TickIsFramed(s, capacity, e, k);
        if k in s.pods && NextPods(s, capacity, e)[k] != s.pods[k] {
          SettledStaysWithin(s.pods[k], s.baseline[k], spec, TickPeaks(s, capacity, e.tick), |TickEligible(s, e.tick)|);
        }
      case PodAppears(pod) => assert PodWithin(pod, pod, spec);
      case PodVanishes(_) =>
      case PodStatus(_, _, _) =>
    }
  }

  /** Safety of whole runs, for each pod under the spec its own ticks carry, whatever the
      specs of ticks that do not name it: from any state that counts as its own baseline and
      over every sequence of events. */
  lemma {:induction false} RunsAreSafe(s: System, capacity: int, events: seq<Event>, k: ObjectKey, spec: ResizeSpec)
    requires WellKeyed(s.pods) && s.baseline == s.pods
    requires forall j :: 0 <= j < |events| ==> UnderSpec(events[j], k, spec)
    ensures Safe(Exec(s, capacity, events), k, spec)
    decreases |events|
  {
    if events == [] {
      assert k in s.pods ==> PodWithin(s.pods[k], s.baseline[k], spec);
    } else {
      RunsAreSafe(s, capacity, events[..|events| - 1], k, spec);
      StepIsSafe(Exec(s, capacity, events[..|events| - 1]), capacity, events[|events| - 1], k, spec);
    }
  }

  /** For a container that started with request <= limit: over any run its limit never drops
      below its request, and never exceeds the larger of the initial limit and the configured
      maximum. */
  lemma LimitsHaveACeiling(s: System, capacity: int, events: seq<Event>, spec: ResizeSpec, k: ObjectKey, i: nat,
                           r: ResourceName)
    requires WellKeyed(s.pods) && s.baseline == s.pods
    requires forall j :: 0 <= j < |events| ==> UnderSpec(events[j], k, spec)
    requires var end := Exec(s, capacity, events);
      && k in end.pods && k in end.baseline && i < |end.baseline[k].containers|
      && r in spec.resources && r in end.baseline[k].containers[i].limits
      && CurrentQuantity(end.baseline[k].containers[i].requests, r) <= end.baseline[k].containers[i].limits[r]
    ensures var end := Exec(s, capacity, events);
      var base := end.baseline[k].containers[i];
      && i < |end.pods[k].containers|
      && var c := end.pods[k].containers[i];
         && r in c.limits && base.limits[r] <= c.limits[r]
         && CurrentQuantity(c.requests, r) <= c.limits[r]
         && (spec.resources[r].max.Parsed? ==> c.limits[r] <= Max(base.limits[r], spec.resources[r].max.q))
  {
    RunsAreSafe(s, capacity, events, k, spec);
    var end := Exec(s, capacity, events);
    assert PodWithin(end.pods[k], end.baseline[k], spec);
    assert ResourceWithin(end.pods[k].containers[i], end.baseline[k].containers[i], spec, r);
  }

  // ---- limits between two moments of a run -------------------------------------------------

  predicate LimitKept(c: Container, c': Container, r: ResourceName) {
    (r in c'.limits <==> r in c.limits) && (r in c.limits ==> c.limits[r] <= c'.limits[r])
  }

  /** The pod's containers have the same limits, each as it was or raised. */
  ghost predicate LimitsKept(pod: Pod, pod': Pod) {
    && |pod'.containers| == |pod.containers|
    && forall i, r :: 0 <= i < |pod.containers| ==> LimitKept(pod.containers[i], pod'.containers[i], r)
  }

  lemma SettledKeepsLimits(pod: Pod, spec: ResizeSpec, peaks: Peaks, podCount: int)
    requires ValidResize(spec)
    ensures LimitsKept(pod, Settled(pod, spec, peaks, podCount))
  {
    var out := Settled(pod, spec, peaks, podCount);
    SettledPointwise(pod, spec, peaks, podCount);
    forall i, r | 0 <= i < |pod.containers|
      ensures LimitKept(pod.containers[i], out.containers[i], r)
    {
      if Eligible(pod) && Selected(pod, spec.containerName, i) {
        ContainerAfterResources(pod, i, spec, peaks, podCount, r);
      }
    }
  }

  /** No event lowers, adds or drops a limit of a pod it does not replace or remove, under
      whatever specs the ticks run. */
  lemma StepKeepsLimits(s: System, capacity: int, e: Event, k: ObjectKey)
    requires WellKeyed(s.pods) && k in s.pods && Spares(e, k)
    ensures k in NextPods(s, capacity, e) && LimitsKept(s.pods[k], NextPods(s, capacity, e)[k])
  {
    if e.Reconciled? {
      TickIsFramed(s, capacity, e, k);
      if NextPods(s, capacity, e)[k] != s.pods[k] {
        SettledKeepsLimits(s.pods[k], e.tick.found.value.resize.value, TickPeaks(s, capacity, e.tick),
                           |TickEligible(s, e.tick)|);
      }
    }
  }

  lemma LimitsKeptTwice(a: Pod, b: Pod, c: Pod)
    requires LimitsKept(a, b) && LimitsKept(b, c)
    ensures LimitsKept(a, c)
  {
    forall i, r | 0 <= i < |a.containers|
      ensures LimitKept(a.containers[i], c.containers[i], r)
    {
      assert LimitKept(a.containers[i], b.containers[i], r) && LimitKept(b.containers[i], c.containers[i], r);
    }
  }

  lemma LimitsOneMore(first: Pod, s: System, capacity: int, e: Event, k: ObjectKey)
    requires WellKeyed(s.pods) && k in s.pods && Spares(e, k) && LimitsKept(first, s.pods[k])
    ensures k in Next(s, capacity, e).pods && LimitsKept(first, Next(s, capacity, e).pods[k])
  {
    StepKeepsLimits(s, capacity, e, k);
    LimitsKeptTwice(first, s.pods[k], NextPods(s, capacity, e)[k]);
  }

  lemma ExecOneMore(s: System, capacity: int, events: seq<Event>, m: nat)
    requires 0 < m <= |events|
    ensures Exec(s, capacity, events[..m]) == Next(Exec(s, capacity, events[..m - 1]), capacity, events[m - 1])
  {
    assert events[..m][..m - 1] == events[..m - 1];
  }

  lemma {:induction false} RunKeepsKeys(s: System, capacity: int, events: seq<Event>)
    requires WellKeyed(s.pods)
    ensures WellKeyed(Exec(s, capacity, events).pods)
    decreases |events|
  {
    if events != [] {
      RunKeepsKeys(s, capacity, events[..|events| - 1]);
      StepKeepsKeys(Exec(s, capacity, events[..|events| - 1]), capacity, events[|events| - 1]);
    }
  }

  lemma LimitsKeptNext(first: Pod, s: System, capacity: int, events: seq<Event>, k: ObjectKey, m: nat)
    requires WellKeyed(s.pods) && m < |events| && Spares(events[m], k)
    requires k in Exec(s, capacity, events[..m]).pods && LimitsKept(first, Exec(s, capacity, events[..m]).pods[k])
    ensures k in Exec(s, capacity, events[..m + 1]).pods
    ensures LimitsKept(first, Exec(s, capacity, events[..m + 1]).pods[k])
  {
    RunKeepsKeys(s, capacity, events[..m]);
    ExecOneMore(s, capacity, events, m + 1);
    LimitsOneMore(first, Exec(s, capacity, events[..m]), capacity, events[m], k);
  }

  lemma {:induction false} LimitsKeptUpTo(first: Pod, s: System, capacity: int, events: seq<Event>, k: ObjectKey,
                                          n: nat, m: nat)
    requires WellKeyed(s.pods) && n <= m <= |events|
    requires k in Exec(s, capacity, events[..n]).pods && LimitsKept(first, Exec(s, capacity, events[..n]).pods[k])
    requires forall j :: n <= j < m ==> Spares(events[j], k)
    ensures k in Exec(s, capacity, events[..m]).pods
    ensures LimitsKept(first, Exec(s, capacity, events[..m]).pods[k])
    decreases m
  {
    if n < m {
      LimitsKeptUpTo(first, s, capacity, events, k, n, m - 1);
      LimitsKeptNext(first, s, capacity, events, k, m - 1);
    }
  }

  /** Between any two moments n <= m of a run in which the pod is not replaced or removed, no
      limit of any of its containers falls: any autoscalers, any specs, any refusals. */
  lemma LimitsNeverFall(s: System, capacity: int, events: seq<Event>, k: ObjectKey, n: nat, m: nat)
    requires WellKeyed(s.pods) && n <= m <= |events|
    requires k in Exec(s, capacity, events[..n]).pods
    requires forall j :: n <= j < m ==> Spares(events[j], k)
    ensures k in Exec(s, capacity, events[..m]).pods
    ensures LimitsKept(Exec(s, capacity, events[..n]).pods[k], Exec(s, capacity, events[..m]).pods[k])
  {
    LimitsKeptUpTo(Exec(s, capacity, events[..n]).pods[k], s, capacity, events, k, n, m);
  }
}
