/** From forecast peaks to per-pod requests (internal/resize/target.go, internal/resize/peak.go). */
module Sizing {
  import opened Prelude
  import opened ResizeApi
  import opened MemoryRounding

  const HEADROOM := 1.2
  const DEFAULT_RECENT_PEAK_WINDOW := 9

  datatype QuantileSeries = QuantileSeries(level: real, values: seq<real>)

  /** Forecast or observed peak per resource, in millicores and bytes. */
  type Peaks = map<ResourceName, real>

  datatype TargetResult = TargetResult(cpu: Option<Quantity>, memory: Option<Quantity>) {
    function Of(r: ResourceName): Option<Quantity> {
      if r == CPU then cpu else if r == MEMORY then memory else None
    }
  }

  // ---- peaks -----------------------------------------------------------------------

  function AllValues(quantiles: seq<QuantileSeries>): seq<real> {
    if quantiles == [] then []
    else AllValues(quantiles[..|quantiles| - 1]) + quantiles[|quantiles| - 1].values
  }

  /** The loop every peak is computed with. */
  method RaisePeak(floor: real, values: seq<real>) returns (peak: real)
    ensures peak == PeakFrom(floor, values)
  {
    peak := floor;
    for i := 0 to |values|
      invariant peak == PeakFrom(floor, values[..i])
    {
      assert values[..i + 1][..i] == values[..i];
      if values[i] > peak {
        peak := values[i];
      }
    }
    assert values[..|values|] == values;
  }

  function ForecastPeak(points: seq<real>, quantiles: seq<QuantileSeries>): (peak: real)
    ensures peak >= 0.0
  {
    PeakFrom(PeakFrom(0.0, points), AllValues(quantiles))
  }

  /** The maximum over the forecast points and every quantile series, at least zero. */
  method ForecastPeaks(points: seq<real>, quantiles: seq<QuantileSeries>) returns (peak: real)
    ensures peak == ForecastPeak(points, quantiles)
  {
    peak := RaisePeak(0.0, points);
    ghost var floor := peak;
    for i := 0 to |quantiles|
      invariant peak == PeakFrom(floor, AllValues(quantiles[..i]))
    {
      PeakFromAppend(floor, AllValues(quantiles[..i]), quantiles[i].values);
      assert quantiles[..i + 1][..i] == quantiles[..i];
      peak := RaisePeak(peak, quantiles[i].values);
    }
    assert quantiles[..|quantiles|] == quantiles;
  }

  /** The forecast peak is zero or one of the forecast values, and none exceeds it. */
  lemma ForecastPeakIsMaximum(points: seq<real>, quantiles: seq<QuantileSeries>)
    ensures var peak := ForecastPeak(points, quantiles);
      && (forall v :: v in points ==> v <= peak)
      && (forall q, v :: q in quantiles && v in q.values ==> v <= peak)
      && (peak == 0.0 || peak in points || exists q :: q in quantiles && peak in q.values)
  {
    AllValuesMembers(quantiles);
    var peak, all := ForecastPeak(points, quantiles), AllValues(quantiles);
    assert forall v :: v in all ==> v <= peak;
    forall q, v | q in quantiles && v in q.values
      ensures v <= peak
    {
      assert v in all;
    }
  }

  lemma {:induction false} AllValuesMembers(quantiles: seq<QuantileSeries>)
    ensures forall v :: v in AllValues(quantiles) <==> exists q :: q in quantiles && v in q.values
  {
    if quantiles != [] {
      var init, last := quantiles[..|quantiles| - 1], quantiles[|quantiles| - 1];
      AllValuesMembers(init);
      assert quantiles == init + [last];
      forall v
        ensures v in AllValues(quantiles) <==> exists q :: q in quantiles && v in q.values
      {
        assert v in AllValues(quantiles) <==> v in AllValues(init) || v in last.values;
        if v in AllValues(init) {
          var q :| q in init && v in q.values;
          assert q in quantiles;
        }
        if v in last.values {
          assert last in quantiles;
        }
      }
    }
  }

  /** The window RecentPeak scans: the last `window` values, nine when unset. */
  function RecentWindow(values: seq<real>, window: int): seq<real> {
    Last(values, if window <= 0 then DEFAULT_RECENT_PEAK_WINDOW else window)
  }

  method RecentPeak(values: seq<real>, window: int) returns (peak: real)
    ensures peak == PeakFrom(0.0, RecentWindow(values, window))
    ensures var last := Last(values, if window <= 0 then 9 else window);
      0.0 <= peak && (forall v :: v in last ==> v <= peak) && (peak == 0.0 || peak in last)
  {
    if |values| == 0 {
      return 0.0;
    }
    var width := if window <= 0 then DEFAULT_RECENT_PEAK_WINDOW else window;
    var start := if |values| - width < 0 then 0 else |values| - width;
    assert values[start..] == RecentWindow(values, window);
    peak := RaisePeak(0.0, values[start..]);
  }

  function EffectivePeak(forecastPeak: real, observedPeak: real): real {
    if observedPeak > forecastPeak then observedPeak else forecastPeak
  }

  // ---- targets ---------------------------------------------------------------------

  /** Thousandths in the unit a peak is measured in: millicores, but whole bytes. */
  function UnitOf(r: ResourceName): int {
    if r == MEMORY then 1000 else 1
  }

  function Divisor(podCount: int): (n: int)
    ensures n > 0
  {
    if podCount <= 0 then 1 else podCount
  }

  /** The positive peak of a resource, when there is one. */
  function UsablePeak(peaks: Peaks, r: ResourceName): Option<real> {
    if r in peaks && peaks[r] > 0.0 then Some(peaks[r]) else None
  }

  /** Demand of one pod: peak with headroom, shared by the pods, rounded up. */
  function Demand(r: ResourceName, peak: real, podCount: int): Quantity {
    Ceil(peak * HEADROOM / (Divisor(podCount) as real)) * UnitOf(r)
  }

  /** How a desired quantity settles: clamped and, for memory, rounded and clamped again. */
  function Settle(r: ResourceName, q: Quantity, bounds: ResourceBoundsSpec): Quantity {
    var clamped := ClampQuantity(q, bounds);
    if r == MEMORY then ClampQuantity(NormalizeMemoryQuantity(clamped), bounds) else clamped
  }

  function Desired(r: ResourceName, current: Quantity, peaks: Peaks, podCount: int): Quantity {
    var peak := UsablePeak(peaks, r);
    if peak.Some? then Demand(r, peak.value, podCount) else current
  }

  function TargetFor(r: ResourceName, current: Quantity, peaks: Peaks, podCount: int,
                     bounds: ResourceBoundsSpec): Quantity {
    Settle(r, Desired(r, current, peaks, podCount), bounds)
  }

  function Targets(peaks: Peaks, podCount: int, current: ResourceList,
                   resources: map<ResourceName, ResourceBoundsSpec>): TargetResult {
    TargetResult(
      if CPU in resources
      then Some(TargetFor(CPU, CurrentQuantity(current, CPU), peaks, podCount, resources[CPU])) else None,
      if MEMORY in resources
      then Some(TargetFor(MEMORY, CurrentQuantity(current, MEMORY), peaks, podCount, resources[MEMORY])) else None)
  }

  method ComputeTargets(peaks: Peaks, podCount: int, current: ResourceList,
                        resources: map<ResourceName, ResourceBoundsSpec>) returns (out: TargetResult)
    ensures out == Targets(peaks, podCount, current, resources)
  {
    out := TargetResult(None, None);
    var pods := if podCount <= 0 then 1 else podCount;
    var keys := resources.Keys;
    while keys != {}
      invariant keys <= resources.Keys
      invariant out.cpu == if CPU in keys then None else Targets(peaks, podCount, current, resources).cpu
      invariant out.memory == if MEMORY in keys then None else Targets(peaks, podCount, current, resources).memory
      decreases keys
    {
      var key :| key in keys;
      var bounds := resources[key];
      if key == CPU {
        var desired := CurrentQuantity(current, CPU);
        if CPU in peaks && peaks[CPU] > 0.0 {
          desired := Ceil(peaks[CPU] * HEADROOM / (pods as real));
        }
        out := out.(cpu := Some(ClampQuantity(desired, bounds)));
      } else if key == MEMORY {
        var desired := CurrentQuantity(current, MEMORY);
        if MEMORY in peaks && peaks[MEMORY] > 0.0 {
          desired := Ceil(peaks[MEMORY] * HEADROOM / (pods as real)) * 1000;
        }
        var normalized := NormalizeMemoryQuantity(ClampQuantity(desired, bounds));
        out := out.(memory := Some(ClampQuantity(normalized, bounds)));
      }
      keys := keys - {key};
    }
  }

  // ---- what a target promises ------------------------------------------------------

  /** Settling under accepted bounds: inside the bounds, never below the clamped demand,
      and settled for good. */
  lemma SettleStable(r: ResourceName, q: Quantity, bounds: ResourceBoundsSpec)
    requires ValidBounds(bounds)
    ensures InBounds(Settle(r, q, bounds), bounds)
    ensures ClampQuantity(q, bounds) <= Settle(r, q, bounds)
    ensures Settle(r, Settle(r, q, bounds), bounds) == Settle(r, q, bounds)
  {
    var clamped := ClampQuantity(q, bounds);
    ClampIsProjection(q, bounds);
    if r == MEMORY {
      var rounded := NormalizeMemoryQuantity(clamped);
      var settled := ClampQuantity(rounded, bounds);
      NeverBelowInput(clamped);
      Idempotent(clamped);
      NeverBelowInput(settled);
      ClampIsProjection(settled, bounds);
      ClampIsProjection(rounded, bounds);
    }
  }

  lemma SettleMonotone(r: ResourceName, p: Quantity, q: Quantity, bounds: ResourceBoundsSpec)
    requires ValidBounds(bounds) && 0 <= p <= q
    ensures Settle(r, p, bounds) <= Settle(r, q, bounds)
  {
    var a, b := ClampQuantity(p, bounds), ClampQuantity(q, bounds);
    if r == MEMORY && a >= 0 {
      Monotone(a, b);
    }
  }

  lemma TimesOrder(a: real, b: real, n: real)
    requires n > 0.0
    ensures a < b ==> a * n < b * n
    ensures a <= b ==> a * n <= b * n
  {
  }

  lemma QuotientAtMost(x: real, n: real, c: real)
    requires n > 0.0
    ensures x <= c * n <==> x / n <= c
  {
  }

  /** Rounding a share up and giving it to all `n` pods overshoots by less than `n`. */
  lemma SharedOut(x: real, n: real, c: real)
    requires n > 0.0 && c - 1.0 < x / n <= c
    ensures x <= c * n < x + n
  {
    QuotientAtMost(x, n, c);
    QuotientAtMost(x, n, c - 1.0);
    assert (c - 1.0) * n == c * n - n;
  }

  /** The demand of all pods together covers the peak with its headroom, and exceeds it by
      less than one unit of measurement per pod. */
  lemma DemandCovers(r: ResourceName, peak: real, podCount: int)
    ensures var n, u := Divisor(podCount), if r == MEMORY then 1000.0 else 1.0;
      peak * HEADROOM * u <= (n * Demand(r, peak, podCount)) as real < peak * HEADROOM * u + n as real * u
  {
    var n := Divisor(podCount);
    var c := Ceil(peak * HEADROOM / (n as real));
    SharedOut(peak * HEADROOM, n as real, c as real);
    assert (n * c) as real == c as real * n as real;
    if r == MEMORY {
      assert n * (c * 1000) == 1000 * (n * c);
    }
  }

  lemma DemandMonotone(r: ResourceName, p: real, m: int, q: real, n: int)
    requires 0.0 < p <= q && Divisor(n) <= Divisor(m)
    ensures 0 < Demand(r, p, m) <= Demand(r, q, n)
  {
    var a, b := Divisor(m) as real, Divisor(n) as real;
    ShareMonotone(p * HEADROOM, a, q * HEADROOM, b);
    CeilMonotone(p * HEADROOM / a, q * HEADROOM / b);
    CeilLeast(p * HEADROOM / a, 0);
  }

  lemma ShareMonotone(x: real, a: real, y: real, b: real)
    requires 0.0 < x <= y && 0.0 < b <= a
    ensures 0.0 < x / a <= y / b
  {
  }

  /** A larger peak or fewer pods never lower a target. */
  lemma TargetMonotone(r: ResourceName, c: Quantity, d: Quantity, peaks: Peaks, peaks': Peaks, m: int, n: int,
                       bounds: ResourceBoundsSpec)
    requires ValidBounds(bounds)
    requires UsablePeak(peaks, r).Some? && UsablePeak(peaks', r).Some?
    requires peaks[r] <= peaks'[r] && Divisor(n) <= Divisor(m)
    ensures TargetFor(r, c, peaks, m, bounds) <= TargetFor(r, d, peaks', n, bounds)
  {
    DemandMonotone(r, peaks[r], m, peaks'[r], n);
    SettleMonotone(r, Demand(r, peaks[r], m), Demand(r, peaks'[r], n), bounds);
  }

  /** Every target of an accepted spec lies within its bounds. */
  lemma TargetsInBounds(spec: ResizeSpec, peaks: Peaks, podCount: int, current: ResourceList, r: ResourceName)
    requires ValidResize(spec) && r in spec.resources
    ensures var target := Targets(peaks, podCount, current, spec.resources).Of(r);
      && target.Some? && InBounds(target.value, spec.resources[r])
      && target.value == TargetFor(r, CurrentQuantity(current, r), peaks, podCount, spec.resources[r])
  {
  }

  /** Without a forecast a request is retained exactly when it lies inside the bounds and,
      for memory, is already whole or is the maximum itself, to which rounding is cut. */
  lemma RetainedWithoutForecast(r: ResourceName, current: Quantity, peaks: Peaks, n: int, bounds: ResourceBoundsSpec)
    requires ValidBounds(bounds) && UsablePeak(peaks, r).None?
    ensures TargetFor(r, current, peaks, n, bounds) == current <==>
      InBounds(current, bounds) &&
      (r == MEMORY ==> AlreadyWhole(current) || (bounds.max.Parsed? && bounds.max.q == current))
  {
    KeptIffWhole(current);
    NeverBelowInput(current);
    ClampIsProjection(current, bounds);
  }

  /** The memory request of 1536Mi is not retained: it becomes 2Gi. */
  lemma RoundedWithoutForecast(peaks: Peaks, n: int)
    requires UsablePeak(peaks, MEMORY).None?
    ensures TargetFor(MEMORY, 1536 * MI * 1000, peaks, n, ResourceBoundsSpec(Unset, Unset, None)) == 2 * GI * 1000
  {
    RoundedOrKept(1536 * MI * 1000);
  }
}
