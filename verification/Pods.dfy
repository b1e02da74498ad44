/** Pods, and the pod a resize sends to the API server (internal/resize/actuator.go). */
module Pods {
  import opened Prelude
  import opened ResizeApi
  import opened Sizing
  import opened Threshold

  /** A missing request or limit map behaves like an empty one. */
  datatype Container = Container(name: string, requests: ResourceList, limits: ResourceList)
  datatype ConditionType = PodResizeInProgress | OtherCondition(name: string)
  datatype ConditionStatus = ConditionTrue | ConditionFalse | ConditionUnknown
  datatype Condition = Condition(kind: ConditionType, status: ConditionStatus)
  datatype Pod = Pod(namespace: string, name: string, containers: seq<Container>,
                     terminating: bool, conditions: seq<Condition>)
  datatype ObjectKey = ObjectKey(namespace: string, name: string)

  datatype Plan = Plan(index: int, targets: TargetResult)

  function KeyOf(pod: Pod): ObjectKey {
    ObjectKey(pod.namespace, pod.name)
  }

  predicate InProgress(pod: Pod) {
    Condition(PodResizeInProgress, ConditionTrue) in pod.conditions
  }

  method ResizeInProgress(pod: Pod) returns (busy: bool)
    ensures busy == InProgress(pod)
  {
    for i := 0 to |pod.conditions|
      invariant Condition(PodResizeInProgress, ConditionTrue) !in pod.conditions[..i]
    {
      var cond := pod.conditions[i];
      if cond.kind == PodResizeInProgress && cond.status == ConditionTrue {
        return true;
      }
    }
    assert pod.conditions[..|pod.conditions|] == pod.conditions;
    return false;
  }

  predicate Eligible(pod: Pod) {
    !pod.terminating && !InProgress(pod)
  }

  // ---- which containers ------------------------------------------------------------

  /** An index list a plan may be built from: distinct, ascending and in range. */
  predicate Ascending(indexes: seq<int>, n: int) {
    && (forall i :: 0 <= i < |indexes| ==> 0 <= indexes[i] < n)
    && (forall i, j :: 0 <= i < j < |indexes| ==> indexes[i] < indexes[j])
  }

  /** What containerName selects: the first container when unset, all of them for "*", and
      otherwise the first container of that name. */
  predicate Selected(pod: Pod, containerName: Option<string>, i: int) {
    && 0 <= i < |pod.containers|
    && match containerName
       case None => i == 0
       case Some(name) =>
         name == "*" ||
         (pod.containers[i].name == name && forall j :: 0 <= j < i ==> pod.containers[j].name != name)
  }

  function TargetIndexes(pod: Pod, containerName: Option<string>): seq<int> {
    SelectedBelow(pod, containerName, |pod.containers|)
  }

  function SelectedBelow(pod: Pod, containerName: Option<string>, n: nat): (r: seq<int>)
    ensures Ascending(r, n)
    ensures forall k :: 0 <= k < |r| ==> Selected(pod, containerName, r[k])
    ensures forall i :: i < n && Selected(pod, containerName, i) ==> i in r
  {
    if n == 0 then []
    else
      var below := SelectedBelow(pod, containerName, n - 1);
      if Selected(pod, containerName, n - 1) then below + [n - 1] else below
  }

  /** Two ascending lists of the same indexes are the same list. */
  lemma {:induction false} AscendingUnique(a: seq<int>, b: seq<int>, n: int)
    requires Ascending(a, n) && Ascending(b, n)
    requires forall i :: i in a <==> i in b
    ensures a == b
    decreases |a|
  {
    if a == [] {
      assert forall k :: 0 <= k < |b| ==> b[k] in b;
    } else {
      assert a[0] in b && b[0] in a;
      assert a[0] == b[0];
      forall i
        ensures i in a[1..] <==> i in b[1..]
      {
        assert i in a[1..] <==> i in a && i != a[0];
        assert i in b[1..] <==> i in b && i != b[0];
      }
      AscendingUnique(a[1..], b[1..], n);
    }
  }

  /** The index list is the ascending list of exactly the selected containers. */
  lemma SelectedExactly(pod: Pod, containerName: Option<string>, indexes: seq<int>)
    requires Ascending(indexes, |pod.containers|)
    requires forall k :: 0 <= k < |indexes| ==> Selected(pod, containerName, indexes[k])
    requires forall i :: Selected(pod, containerName, i) ==> i in indexes
    ensures indexes == TargetIndexes(pod, containerName)
  {
    AscendingUnique(indexes, TargetIndexes(pod, containerName), |pod.containers|);
  }

  /** Which containers that is: without a name the first one, with "*" all of them, and with any
      other name the first container that has it, if one does. */
  lemma TargetsByName(pod: Pod, containerName: Option<string>)
    ensures containerName.None? ==> TargetIndexes(pod, containerName) == if pod.containers == [] then [] else [0]
    ensures containerName == Some("*") ==> |TargetIndexes(pod, containerName)| == |pod.containers|
    ensures containerName.Some? && containerName != Some("*") ==>
      if exists c :: c in pod.containers && c.name == containerName.value then
        && |TargetIndexes(pod, containerName)| == 1
        && var i := TargetIndexes(pod, containerName)[0];
           && pod.containers[i].name == containerName.value
           && forall c :: c in pod.containers[..i] ==> c.name != containerName.value
      else TargetIndexes(pod, containerName) == []
  {
    var n := |pod.containers|;
    if containerName.None? {
      SelectedExactly(pod, containerName, if n == 0 then [] else [0]);
    } else if containerName.value == "*" {
      var all := seq(n, i => i);
      forall i | 0 <= i < n
        ensures i in all
      {
        assert all[i] == i;
      }
      SelectedExactly(pod, containerName, all);
    } else if exists c :: c in pod.containers && c.name == containerName.value {
      var i := FirstNamed(pod.containers, containerName.value);
      SelectedExactly(pod, containerName, [i]);
    } else {
      SelectedExactly(pod, containerName, []);
    }
  }

  lemma {:induction false} FirstNamed(containers: seq<Container>, name: string) returns (i: nat)
    requires exists c :: c in containers && c.name == name
    ensures i < |containers| && containers[i].name == name
    ensures forall j :: 0 <= j < i ==> containers[j].name != name
    decreases |containers|
  {
    if containers[0].name == name {
      return 0;
    }
    var c :| c in containers && c.name == name;
    assert c in containers[1..];
    i := FirstNamed(containers[1..], name);
    i := i + 1;
    assert forall j :: 0 < j < i ==> containers[j] == containers[1..][j - 1];
  }

  method TargetContainerIndexes(pod: Pod, containerName: Option<string>) returns (indexes: seq<int>)
    ensures indexes == TargetIndexes(pod, containerName)
  {
    var n := |pod.containers|;
    if n == 0 {
      return [];
    }
    if containerName.Some? {
      var name := containerName.value;
      if name == "*" {
        indexes := seq(n, i => i);
        forall i | 0 <= i < n
          ensures i in indexes
        {
          assert indexes[i] == i;
        }
        SelectedExactly(pod, containerName, indexes);
        return;
      }
      for i := 0 to n
        invariant forall j :: 0 <= j < i ==> pod.containers[j].name != name
      {
        if pod.containers[i].name == name {
          SelectedExactly(pod, containerName, [i]);
          return [i];
        }
      }
      SelectedExactly(pod, containerName, []);
      return [];
    }
    SelectedExactly(pod, containerName, [0]);
    return [0];
  }

  // ---- the resized pod -------------------------------------------------------------

  /** One controlled resource of a container: the request is written, and a limit that
      exists is raised to it when it would otherwise be lower. */
  function WriteResource(c: Container, r: ResourceName, target: Option<Quantity>,
                         controlled: set<ResourceName>): Container
  {
    if r in controlled && target.Some? then
      Container(c.name, c.requests[r := target.value],
                if r in c.limits && c.limits[r] < target.value then c.limits[r := target.value] else c.limits)
    else c
  }

  function ResizeContainer(c: Container, targets: TargetResult, controlled: set<ResourceName>): Container {
    WriteResource(WriteResource(c, CPU, targets.cpu, controlled), MEMORY, targets.memory, controlled)
  }

  function WithPlan(pod: Pod, plan: Plan, controlled: set<ResourceName>): Pod {
    if 0 <= plan.index < |pod.containers| then
      pod.(containers := pod.containers[plan.index :=
             ResizeContainer(pod.containers[plan.index], plan.targets, controlled)])
    else pod
  }

  function WithPlans(pod: Pod, plans: seq<Plan>, controlled: set<ResourceName>): Pod {
    if plans == [] then pod
    else WithPlan(WithPlans(pod, plans[..|plans| - 1], controlled), plans[|plans| - 1], controlled)
  }

  /** A plan for a container the pod does not have changes nothing. */
  lemma BadIndexIsSkipped(pod: Pod, plan: Plan, controlled: set<ResourceName>)
    requires !(0 <= plan.index < |pod.containers|)
    ensures WithPlan(pod, plan, controlled) == pod
  {
  }

  method BuildResizePod(pod: Pod, plans: seq<Plan>, resources: map<ResourceName, ResourceBoundsSpec>) returns (out: Pod)
    ensures out == WithPlans(pod, plans, Controlled(resources))
  {
    var controlled := ControlledResourceSet(resources);
    out := pod;
    for i := 0 to |plans|
      invariant out == WithPlans(pod, plans[..i], controlled)
    {
      assert plans[..i + 1][..i] == plans[..i];
      var plan := plans[i];
      if 0 <= plan.index < |out.containers| {
        var c := out.containers[plan.index];
        var reqs, limits := c.requests, c.limits;
        if CPU in controlled && plan.targets.cpu.Some? {
          reqs := reqs[CPU := plan.targets.cpu.value];
          if CPU in limits && limits[CPU] < plan.targets.cpu.value {
            limits := limits[CPU := plan.targets.cpu.value];
          }
        }
        if MEMORY in controlled && plan.targets.memory.Some? {
          reqs := reqs[MEMORY := plan.targets.memory.value];
          if MEMORY in limits && limits[MEMORY] < plan.targets.memory.value {
            limits := limits[MEMORY := plan.targets.memory.value];
          }
        }
        out := out.(containers := out.containers[plan.index := Container(c.name, reqs, limits)]);
      }
    }
    assert plans[..|plans|] == plans;
  }

  /** The plan for one container, unless the change is below the threshold. */
  function PlanFor(c: Container, index: int, spec: ResizeSpec, peaks: Peaks, podCount: int): Option<Plan> {
    var (targets, changed) := Thresholded(c.requests, Targets(peaks, podCount, c.requests, spec.resources),
                                          spec.minChangePercent, spec.resources);
    if !changed || !TargetsChanged(c.requests, targets) then None else Some(Plan(index, targets))
  }

  function PlansFor(pod: Pod, indexes: seq<int>, spec: ResizeSpec, peaks: Peaks, podCount: int): seq<Plan>
    requires forall k :: 0 <= k < |indexes| ==> 0 <= indexes[k] < |pod.containers|
  {
    if indexes == [] then [] else
    var last := indexes[|indexes| - 1];
    var plan := PlanFor(pod.containers[last], last, spec, peaks, podCount);
    PlansFor(pod, indexes[..|indexes| - 1], spec, peaks, podCount) + (if plan.Some? then [plan.value] else [])
  }

  /** The pod sent to the resize subresource, when one is sent. */
  function ResizedPod(pod: Pod, spec: ResizeSpec, peaks: Peaks, podCount: int): Option<Pod> {
    if !Eligible(pod) then None else
    var plans := PlansFor(pod, TargetIndexes(pod, spec.containerName), spec, peaks, podCount);
    if plans == [] then None else Some(WithPlans(pod, plans, Controlled(spec.resources)))
  }

  /** A pod after its resize landed; the same pod when none is sent. */
  function Settled(pod: Pod, spec: ResizeSpec, peaks: Peaks, podCount: int): Pod {
    ResizedPod(pod, spec, peaks, podCount).GetOr(pod)
  }

  // ---- what a resize changes, container by container ---------------------------------

  function Planned(pod: Pod, i: int, spec: ResizeSpec, peaks: Peaks, podCount: int): Container
    requires 0 <= i < |pod.containers|
  {
    var plan := PlanFor(pod.containers[i], i, spec, peaks, podCount);
    if plan.Some? then ResizeContainer(pod.containers[i], plan.value.targets, Controlled(spec.resources))
    else pod.containers[i]
  }

  /** `out` is the pod with exactly the containers at `indexes` replaced by their plans. */
  predicate PlannedAt(pod: Pod, out: Pod, indexes: seq<int>, spec: ResizeSpec, peaks: Peaks, podCount: int) {
    && out == pod.(containers := out.containers)
    && |out.containers| == |pod.containers|
    && forall i :: 0 <= i < |pod.containers| ==>
         out.containers[i] == if i in indexes then Planned(pod, i, spec, peaks, podCount) else pod.containers[i]
  }

  lemma PlanOneMore(pod: Pod, out: Pod, init: seq<int>, last: int, spec: ResizeSpec, peaks: Peaks, podCount: int)
    requires PlannedAt(pod, out, init, spec, peaks, podCount)
    requires 0 <= last < |pod.containers| && last !in init
    ensures var plan := PlanFor(pod.containers[last], last, spec, peaks, podCount);
      PlannedAt(pod, if plan.Some? then WithPlan(out, plan.value, Controlled(spec.resources)) else out,
                init + [last], spec, peaks, podCount)
  {
  }

  lemma {:induction false} WithPlansPointwise(pod: Pod, indexes: seq<int>, spec: ResizeSpec, peaks: Peaks,
                                              podCount: int)
    requires Ascending(indexes, |pod.containers|)
    ensures PlannedAt(pod, WithPlans(pod, PlansFor(pod, indexes, spec, peaks, podCount), Controlled(spec.resources)),
                      indexes, spec, peaks, podCount)
    decreases |indexes|
  {
    if indexes != [] {
      var init, last := indexes[..|indexes| - 1], indexes[|indexes| - 1];
      var before, plans := PlansFor(pod, init, spec, peaks, podCount), PlansFor(pod, indexes, spec, peaks, podCount);
      WithPlansPointwise(pod, init, spec, peaks, podCount);
      PlanOneMore(pod, WithPlans(pod, before, Controlled(spec.resources)), init, last, spec, peaks, podCount);
      assert init + [last] == indexes;
      if PlanFor(pod.containers[last], last, spec, peaks, podCount).Some? {
        assert plans[..|plans| - 1] == before;
      } else {
        assert plans == before;
      }
    }
  }

  /** The container a resize leaves at an index: planned when selected. */
  function ContainerAfter(pod: Pod, i: int, spec: ResizeSpec, peaks: Peaks, podCount: int): Container
    requires 0 <= i < |pod.containers|
  {
    if Selected(pod, spec.containerName, i) then Planned(pod, i, spec, peaks, podCount) else pod.containers[i]
  }

  /** Framing: everything but the selected containers' requests and limits is untouched,
      and a pod that is terminating or being resized is not updated at all. */
  lemma SettledPointwise(pod: Pod, spec: ResizeSpec, peaks: Peaks, podCount: int)
    ensures var out := Settled(pod, spec, peaks, podCount);
      && (!Eligible(pod) ==> ResizedPod(pod, spec, peaks, podCount).None?)
      && out == pod.(containers := out.containers)
      && |out.containers| == |pod.containers|
      && forall i :: 0 <= i < |pod.containers| ==>
           out.containers[i] == if Eligible(pod) then ContainerAfter(pod, i, spec, peaks, podCount)
             else pod.containers[i]
  {
    if Eligible(pod) {
      var indexes := TargetIndexes(pod, spec.containerName);
      WithPlansPointwise(pod, indexes, spec, peaks, podCount);
      if PlansFor(pod, indexes, spec, peaks, podCount) == [] {
        assert WithPlans(pod, [], Controlled(spec.resources)) == pod;
      }
    }
  }

  /** The effect of writing targets into a container, one resource at a time. */
  lemma ResizeContainerAt(c: Container, targets: TargetResult, controlled: set<ResourceName>, r: ResourceName)
    requires controlled <= {CPU, MEMORY}
    ensures var c', t := ResizeContainer(c, targets, controlled), targets.Of(r);
      && c'.name == c.name
      && c'.limits.Keys == c.limits.Keys
      && if r in controlled && t.Some? then
           && r in c'.requests && c'.requests[r] == t.value
           && (r in c.limits ==> c'.limits[r] == Max(c.limits[r], t.value))
         else
           && (r in c'.requests <==> r in c.requests)
           && (r in c.requests ==> c'.requests[r] == c.requests[r])
           && (r in c.limits ==> c'.limits[r] == c.limits[r])
  {
  }

  /** A container is left alone exactly when the filter keeps every controlled resource. */
  lemma NoPlanKeepsAll(c: Container, i: int, spec: ResizeSpec, peaks: Peaks, podCount: int)
    requires ValidResize(spec)
    ensures PlanFor(c, i, spec, peaks, podCount).None? <==> forall r :: r in spec.resources ==>
      Decided(c, spec, peaks, podCount, r) == CurrentQuantity(c.requests, r)
  {
    GuardsCompared(c.requests, spec, peaks, podCount);
    var targets := Targets(peaks, podCount, c.requests, spec.resources);
    forall r | r in spec.resources
      ensures r == CPU || r == MEMORY
      ensures Accepted(c.requests, targets, spec.minChangePercent, spec.resources, r) <==>
        Decided(c, spec, peaks, podCount, r) != CurrentQuantity(c.requests, r)
    {
      TargetsInBounds(spec, peaks, podCount, c.requests, r);
    }
  }

  /** The request a controlled resource of a container is to have: the filtered target,
      with an absent request read as zero. */
  function Decided(c: Container, spec: ResizeSpec, peaks: Peaks, podCount: int, r: ResourceName): Quantity
    requires r in spec.resources
  {
    var q := CurrentQuantity(c.requests, r);
    Decide(q, TargetFor(r, q, peaks, podCount, spec.resources[r]), ThresholdOf(spec, r))
  }

  /** A selected container, resource by resource: a controlled request becomes the filtered
      target (absent counts as zero), its limit is only ever raised, and only to the
      request; limits are never created; uncontrolled resources are left alone. */
  lemma ContainerAfterResources(pod: Pod, i: int, spec: ResizeSpec, peaks: Peaks, podCount: int, r: ResourceName)
    requires ValidResize(spec) && 0 <= i < |pod.containers| && Selected(pod, spec.containerName, i)
    ensures var c, c' := pod.containers[i], ContainerAfter(pod, i, spec, peaks, podCount);
      && c'.name == c.name
      && c'.limits.Keys == c.limits.Keys
      && if r in spec.resources then
           var decided := Decided(c, spec, peaks, podCount, r);
           && CurrentQuantity(c'.requests, r) == decided
           && (r in c.limits ==> c'.limits[r] == if c' == c then c.limits[r] else Max(c.limits[r], decided))
         else
           && (r in c'.requests <==> r in c.requests)
           && (r in c.requests ==> c'.requests[r] == c.requests[r])
           && (r in c.limits ==> c'.limits[r] == c.limits[r])
  {
    var c := pod.containers[i];
    var plan := PlanFor(c, i, spec, peaks, podCount);
    NoPlanKeepsAll(c, i, spec, peaks, podCount);
    if plan.Some? {
      ResizeContainerAt(c, plan.value.targets, Controlled(spec.resources), r);
      if r in spec.resources {
        FilterIsSound(c.requests, spec, peaks, podCount, r);
      }
    }
  }
}
