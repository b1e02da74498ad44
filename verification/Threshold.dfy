/** The percentage hysteresis filter (internal/resize/threshold.go). */
module Threshold {
  import opened Prelude
  import opened ResizeApi
  import opened Sizing

  function QuantityMagnitude(q: Quantity): real {
    q as real
  }

  function QuantityPercentChange(current: Quantity, proposal: Quantity): real {
    var oldMag := QuantityMagnitude(current);
    if oldMag == 0.0 then 0.0
    else AbsReal(QuantityMagnitude(proposal) - oldMag) / oldMag * 100.0
  }

  predicate ExceedsMinChangeThreshold(current: Quantity, proposal: Quantity, thresholdPercent: int) {
    if current == 0 then proposal > 0
    else if proposal == current then false
    else QuantityPercentChange(current, proposal) >= thresholdPercent as real
  }

  /** The filter in whole numbers: what the percentage test means for each sign of the
      current request. A negative request is never changed. */
  lemma ExceedsInWholeNumbers(current: Quantity, proposal: Quantity, thr: int)
    requires thr >= 0
    ensures ExceedsMinChangeThreshold(current, proposal, thr) <==>
      if current == 0 then proposal > 0
      else current > 0 && proposal != current && 100 * Abs(proposal - current) >= thr * current
  {
    if current != 0 && proposal != current {
      var d, o := Abs(proposal - current) as real, current as real;
      assert AbsReal(QuantityMagnitude(proposal) - o) == d;
      var pct := d / o * 100.0;
      if current > 0 {
        assert (thr * current) as real == thr as real * o;
        PercentAtLeast(d, o, thr as real);
      } else {
        NegativeQuotient(d, o);
      }
    }
  }

  lemma PercentAtLeast(d: real, o: real, thr: real)
    requires o > 0.0
    ensures d / o * 100.0 >= thr <==> 100.0 * d >= thr * o
  {
    var q := d / o;
    assert q * o == d;
    var scaled := q * 100.0;
    TimesOrder(thr, scaled, o);
    TimesOrder(scaled, thr, o);
    assert scaled * o == 100.0 * d;
  }

  lemma NegativeQuotient(d: real, o: real)
    requires d > 0.0 && o < 0.0
    ensures d / o * 100.0 < 0.0
  {
    var q := d / o;
    assert q * o == d;
    assert q >= 0.0 ==> q * o <= 0.0;
  }

  /** What one resource ends up with: the proposal when it exceeds the threshold. */
  function Decide(current: Quantity, proposal: Quantity, thr: int): Quantity {
    if ExceedsMinChangeThreshold(current, proposal, thr) then proposal else current
  }

  /** Whether the filter leaves a request in bounds. The proposal always is; so it does exactly
      when the current request is, or when the step to the proposal is large enough for the
      filter to take it. */
  lemma DecidedInBounds(r: ResourceName, current: Quantity, peaks: Peaks, n: int, bounds: ResourceBoundsSpec, thr: int)
    requires ValidBounds(bounds) && thr >= 0
    ensures var t := TargetFor(r, current, peaks, n, bounds);
      InBounds(Decide(current, t, thr), bounds) <==>
        || InBounds(current, bounds)
        || (if current == 0 then t > 0 else current > 0 && 100 * Abs(t - current) >= thr * current)
  {
    SettleStable(r, Desired(r, current, peaks, n), bounds);
    ExceedsInWholeNumbers(current, TargetFor(r, current, peaks, n, bounds), thr);
  }

  /** A request of 1000m stays above a maximum of 950m under the default ten percent. */
  lemma KeptAboveMaximum(peaks: Peaks, n: int)
    requires UsablePeak(peaks, CPU).None?
    ensures var bounds := ResourceBoundsSpec(Unset, Parsed(950), None);
      && TargetFor(CPU, 1000, peaks, n, bounds) == 950
      && Decide(1000, 950, DEFAULT_MIN_CHANGE_PERCENT) == 1000
      && !InBounds(1000, bounds)
  {
    ExceedsInWholeNumbers(1000, 950, DEFAULT_MIN_CHANGE_PERCENT);
  }

  /** A resource's target is subject to the filter. */
  predicate Filtered(targets: TargetResult, resources: map<ResourceName, ResourceBoundsSpec>, r: ResourceName) {
    targets.Of(r).Some? && r in resources
  }

  /** The resource's proposal is accepted by the filter. */
  predicate Accepted(current: ResourceList, targets: TargetResult, globalMin: Option<int>,
                     resources: map<ResourceName, ResourceBoundsSpec>, r: ResourceName) {
    Filtered(targets, resources, r) &&
    ExceedsMinChangeThreshold(CurrentQuantity(current, r), targets.Of(r).value,
                              EffectiveMinChangePercent(globalMin, resources[r].minChangePercent))
  }

  function AfterThreshold(current: ResourceList, targets: TargetResult, globalMin: Option<int>,
                          resources: map<ResourceName, ResourceBoundsSpec>, r: ResourceName): Option<Quantity> {
    if Filtered(targets, resources, r) && !Accepted(current, targets, globalMin, resources, r)
    then Some(CurrentQuantity(current, r))
    else targets.Of(r)
  }

  /** The adjusted targets, and whether any resource was accepted. */
  function Thresholded(current: ResourceList, targets: TargetResult, globalMin: Option<int>,
                       resources: map<ResourceName, ResourceBoundsSpec>): (TargetResult, bool) {
    (TargetResult(AfterThreshold(current, targets, globalMin, resources, CPU),
                  AfterThreshold(current, targets, globalMin, resources, MEMORY)),
     Accepted(current, targets, globalMin, resources, CPU) || Accepted(current, targets, globalMin, resources, MEMORY))
  }

  method ApplyMinChangeThreshold(current: ResourceList, targets: TargetResult, globalMin: Option<int>,
                                 resources: map<ResourceName, ResourceBoundsSpec>)
    returns (out: TargetResult, anyChanged: bool)
    ensures (out, anyChanged) == Thresholded(current, targets, globalMin, resources)
  {
    out, anyChanged := targets, false;
    if targets.cpu.Some? && CPU in resources {
      var cur := CurrentQuantity(current, CPU);
      var threshold := EffectiveMinChangePercent(globalMin, resources[CPU].minChangePercent);
      if ExceedsMinChangeThreshold(cur, targets.cpu.value, threshold) {
        anyChanged := true;
      } else {
        out := out.(cpu := Some(cur));
      }
    }
    if targets.memory.Some? && MEMORY in resources {
      var cur := CurrentQuantity(current, MEMORY);
      var threshold := EffectiveMinChangePercent(globalMin, resources[MEMORY].minChangePercent);
      if ExceedsMinChangeThreshold(cur, targets.memory.value, threshold) {
        anyChanged := true;
      } else {
        out := out.(memory := Some(cur));
      }
    }
  }

  /** Whether the pod's stated requests differ from the targets; an absent request does. */
  predicate TargetsChanged(current: ResourceList, targets: TargetResult) {
    || (targets.cpu.Some? && !(CPU in current && current[CPU] == targets.cpu.value))
    || (targets.memory.Some? && !(MEMORY in current && current[MEMORY] == targets.memory.value))
  }

  /** After the filter each target is an accepted proposal or the current request. */
  lemma FilterIsSound(current: ResourceList, spec: ResizeSpec, peaks: Peaks, podCount: int, r: ResourceName)
    requires ValidResize(spec) && r in spec.resources
    ensures var proposal := TargetFor(r, CurrentQuantity(current, r), peaks, podCount, spec.resources[r]);
      var out := Thresholded(current, Targets(peaks, podCount, current, spec.resources), spec.minChangePercent,
                             spec.resources).0;
      out.Of(r) == Some(Decide(CurrentQuantity(current, r), proposal, ThresholdOf(spec, r)))
  {
  }

  /** A request that is absent is filled by any positive proposal; one that is there is the one
      the proposal is compared with. */
  lemma AbsentIsFilled(current: ResourceList, r: ResourceName, proposal: Quantity, thr: int)
    requires thr >= 0
    ensures r !in current && proposal > 0 ==> Decide(CurrentQuantity(current, r), proposal, thr) == proposal
    ensures r in current ==> CurrentQuantity(current, r) == current[r]
  {
  }

  /** The two guards in front of an update, related exactly: some resource was accepted,
      against some target differing from what the pod states. They only part ways when a
      controlled request is absent. */
  lemma GuardsCompared(current: ResourceList, spec: ResizeSpec, peaks: Peaks, podCount: int)
    requires ValidResize(spec)
    ensures var (out, changed) := Thresholded(current, Targets(peaks, podCount, current, spec.resources),
                                              spec.minChangePercent, spec.resources);
      TargetsChanged(current, out) <==> changed || exists r :: r in spec.resources && r !in current
  {
    var targets := Targets(peaks, podCount, current, spec.resources);
    forall r | r in spec.resources
      ensures r == CPU || r == MEMORY
      ensures Accepted(current, targets, spec.minChangePercent, spec.resources, r) ==>
        targets.Of(r).value != CurrentQuantity(current, r)
    {
    }
  }
}
