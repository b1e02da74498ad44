/** What the requests come to after a tick, in terms of what the forecaster answered and what
    was fetched. */
module TickCoverage {
  import opened Prelude
  import opened History
  import opened ResizeApi
  import opened Pods
  import opened Actuator
  import opened ApplyProps
  import opened Controller
  import opened Coverage
  import opened Runs
  import opened Warmup

  /** A tick with a forecast for r, under `spec`, whose Apply goes through for some pod. */
  predicate GoesThrough(s: System, capacity: int, e: Event, spec: ResizeSpec, r: ResourceName) {
    && e.Reconciled? && Fetched(e.tick) && e.tick.found.value.resize == Some(spec) && WellKeyed(s.pods)
    && r in spec.resources
    && r in TickGather(Some(s.log), capacity, e.tick).forecasts
    && Complete(s.pods, e.unreachable, spec, TickPeaks(s, capacity, e.tick), e.tick.fetch.value.podNames,
                MetricsTargetNamespace(e.tick.found.value), e.accepts, e.first)
    && TickEligible(s, e.tick) != []
  }

  /** No request of a target container is negative, and the upper bound does not cut the demand
      of this peak. */
  predicate Uncut(s: System, e: Event, spec: ResizeSpec, r: ResourceName, peak: real)
    requires e.Reconciled? && Fetched(e.tick) && r in spec.resources
  {
    && (forall p :: p in TickEligible(s, e.tick) ==> Sized(p, spec.containerName, r))
    && MaxNotBinding(r, peak, |TickEligible(s, e.tick)|, spec.resources[r])
  }

  lemma TickIsApply(s: System, capacity: int, e: Event, spec: ResizeSpec, r: ResourceName)
    requires GoesThrough(s, capacity, e, spec, r)
    ensures var eligible, peaks := TickEligible(s, e.tick), TickPeaks(s, capacity, e.tick);
      && NextPods(s, capacity, e) == Deliver(s.pods, Updates(eligible, spec, peaks, |eligible|), e.accepts, e.first)
      && (forall i :: 0 <= i < |eligible| ==> KeyOf(eligible[i]) in NextPods(s, capacity, e))
      && ClusterTotal(NextPods(s, capacity, e), eligible, spec.containerName, r) ==
           TotalAfter(s.pods, spec, peaks, e.tick.fetch.value.podNames, MetricsTargetNamespace(e.tick.found.value),
                      e.accepts, e.first, r)
  {
    var eligible, peaks := TickEligible(s, e.tick), TickPeaks(s, capacity, e.tick);
    EligibleAreListed(s.pods, MetricsTargetNamespace(e.tick.found.value), e.tick.fetch.value.podNames);
    DeliverFramed(s.pods, eligible, spec, peaks, |eligible|, e.accepts, e.first);
  }

  /** The requests of the target containers of the tick's eligible pods, after the tick. */
  function TickTotal(s: System, capacity: int, e: Event, spec: ResizeSpec, r: ResourceName): Quantity
    requires GoesThrough(s, capacity, e, spec, r)
  {
    TickIsApply(s, capacity, e, spec, r);
    ClusterTotal(NextPods(s, capacity, e), TickEligible(s, e.tick), spec.containerName, r)
  }

  lemma TickCarriesPeak(s: System, capacity: int, e: Event, spec: ResizeSpec, r: ResourceName)
    requires GoesThrough(s, capacity, e, spec, r) && TickPeaks(s, capacity, e.tick)[r] > 0.0
    requires Uncut(s, e, spec, r, TickPeaks(s, capacity, e.tick)[r])
    ensures var eligible := TickEligible(s, e.tick);
      PeakCarried(ThresholdOf(spec, r), TickTotal(s, capacity, e, spec, r), r, TickPeaks(s, capacity, e.tick)[r],
                  Targeted(eligible, spec.containerName), |eligible|)
  {
    TickIsApply(s, capacity, e, spec, r);
    PeakCoverage(s.pods, e.unreachable, spec, TickPeaks(s, capacity, e.tick), e.tick.fetch.value.podNames,
                 MetricsTargetNamespace(e.tick.found.value), e.accepts, e.first, r);
  }

  lemma TickStaysNearPeak(s: System, capacity: int, e: Event, spec: ResizeSpec, r: ResourceName, m: nat)
    requires GoesThrough(s, capacity, e, spec, r) && TickPeaks(s, capacity, e.tick)[r] > 0.0
    requires AtMostTargets(TickEligible(s, e.tick), spec.containerName, m)
    requires MinNotBinding(r, TickPeaks(s, capacity, e.tick)[r], |TickEligible(s, e.tick)|, spec.resources[r])
    ensures PeakBounded(ThresholdOf(spec, r), TickTotal(s, capacity, e, spec, r), r, TickPeaks(s, capacity, e.tick)[r],
                        |TickEligible(s, e.tick)|, m)
  {
    TickIsApply(s, capacity, e, spec, r);
    PeakIsNotExceeded(s.pods, e.unreachable, spec, TickPeaks(s, capacity, e.tick), e.tick.fetch.value.podNames,
                      MetricsTargetNamespace(e.tick.found.value), e.accepts, e.first, r, m);
  }

  lemma PeakAndBelow(total: Quantity, r: ResourceName, peak: real, v: real)
    requires Covers(total, r, peak) && v <= peak
    ensures Covers(total, r, v)
  {
  }

  // ---- any tick: what it gathered -------------------------------------------------------------

  /** Any tick that goes through, of any autoscaler, leaves requests that carry every value it
      gathered, provided the headroom makes up for the threshold and for eligible pods without a
      target container. */
  lemma TickCoversWhatWasGathered(s: System, capacity: int, e: Event, spec: ResizeSpec, r: ResourceName, v: real)
    requires GoesThrough(s, capacity, e, spec, r) && Uncut(s, e, spec, r, TickPeaks(s, capacity, e.tick)[r])
    requires MakesUp(ThresholdOf(spec, r), Targeted(TickEligible(s, e.tick), spec.containerName),
                     |TickEligible(s, e.tick)|)
    requires var g := TickGather(Some(s.log), capacity, e.tick);
      Seen(g.forecasts, RecentHistory(g, capacity, e.tick.found.value), r, v) && v > 0.0
    ensures Covers(TickTotal(s, capacity, e, spec, r), r, v)
  {
    var na, g := e.tick.found.value, TickGather(Some(s.log), capacity, e.tick);
    PeakCovers(g.forecasts, RecentHistory(g, capacity, na), r, v);
    TickCarriesPeak(s, capacity, e, spec, r);
    PeakAndBelow(TickTotal(s, capacity, e, spec, r), r, TickPeaks(s, capacity, e.tick)[r], v);
  }

  /** Gathering keeps a log that is there, and every forecast is for a series it gathered. */
  lemma {:induction false} ForecastsHaveHistory(log: Log, capacity: int, na: Autoscaler, fetch: FetchResult,
                                                model: Option<Model>, resources: seq<ResourceName>)
    ensures var g := GatherAll(Some(log), capacity, na, fetch, model, resources);
      g.log.Some? && g.forecasts.Keys <= g.history.Keys
    decreases |resources|
  {
    if resources != [] {
      ForecastsHaveHistory(log, capacity, na, fetch, model, resources[..|resources| - 1]);
    }
  }

  /** The history floors the peak: after any tick that fetches, of either source, none of the
      last nine samples the store holds for a forecast resource exceeds the peak it resized by. */
  lemma HistoryFloorsPeak(s: System, capacity: int, e: Event, r: ResourceName, v: real)
    requires e.Reconciled? && Fetched(e.tick) && r in TickGather(Some(s.log), capacity, e.tick).forecasts
    requires v in Last(Values(Last(Recorded(NextLog(s, capacity, e), KeyFor(e.tick.found.value, r)), capacity)), 9)
    ensures v <= TickPeaks(s, capacity, e.tick)[r]
  {
    var na, g := e.tick.found.value, TickGather(Some(s.log), capacity, e.tick);
    ForecastsHaveHistory(s.log, capacity, na, e.tick.fetch.value, e.tick.model,
                         ResourcesToProcess(na, e.tick.fetch.value));
    PeakCovers(g.forecasts, RecentHistory(g, capacity, na), r, v);
  }

  // ---- a tick of one autoscaler, over a run: what was answered and fetched ---------------------

  /** A value a tick of the subject is to cover, after these events and the tick: in the
      forecaster's answer, point or any quantile, or among the last nine of the samples that the
      history keeps of those fetched since the last eviction. */
  predicate SeenBy(events: seq<Event>, capacity: int, a: Subject, tick: Tick, r: ResourceName, v: real)
    requires Fetched(tick) && r in tick.fetch.value.byResource
  {
    var fetched := FetchedSince(events, a, r);
    var answer := AnswerFor(fetched, capacity, a, tick, r);
    || (answer.Some? && v in answer.value.point)
    || (answer.Some? && exists q :: q in answer.value.quantiles && v in q.values)
    || v in Last(Values(Last(fetched, capacity)), 9)
  }

  /** A tick of the subject after a run from an empty store, as far as this module is concerned. */
  predicate RunThenTick(events: seq<Event>, capacity: int, a: Subject, e: Event, r: ResourceName) {
    && ValidSubject(a) && capacity > 0
    && (forall j :: 0 <= j < |events| ==> Steady(events[j], a))
    && Steady(e, a) && FetchesFor(e, a) && r in a.resources
    && r in e.tick.fetch.value.byResource
    && AnswerFor(FetchedSince(events + [e], a, r), capacity, a, e.tick, r).Some?
  }

  lemma TickGathersSeen(events: seq<Event>, capacity: int, a: Subject, e: Event, r: ResourceName)
    requires RunThenTick(events, capacity, a, e, r)
    ensures var g := TickGather(Some(Exec(EMPTY, capacity, events).log), capacity, e.tick);
      && r in g.forecasts && Some(g.forecasts[r]) == AnswerFor(FetchedSince(events + [e], a, r), capacity, a, e.tick, r)
      && var recent := RecentHistory(g, capacity, e.tick.found.value);
         r in recent && recent[r] == Values(Last(FetchedSince(events + [e], a, r), capacity))
  {
    var log := Exec(EMPTY, capacity, events).log;
    var i :| 0 <= i < |a.resources| && a.resources[i] == r;
    assert (events + [e])[..|events|] == events;
    ForecastsFromTheSixteenth(events, capacity, a, e);
    BuffersHoldFetched(events, capacity, a, r);
    OwnTickAtKey(log, capacity, a, e, r);
    assert ReadyAt(TickGather(Some(log), capacity, e.tick), FetchedSince(events + [e], a, a.resources[i]), capacity, a,
                   e.tick, a.resources[i]);
  }

  /** The peak a tick resizes by is exactly the largest value seen, or zero. */
  lemma TickPeakIsMaximum(events: seq<Event>, capacity: int, a: Subject, e: Event, r: ResourceName)
    requires RunThenTick(events, capacity, a, e, r)
    ensures var peaks := TickPeaks(Exec(EMPTY, capacity, events), capacity, e.tick);
      && r in peaks
      && (forall v :: SeenBy(events + [e], capacity, a, e.tick, r, v) ==> v <= peaks[r])
      && (peaks[r] == 0.0 || SeenBy(events + [e], capacity, a, e.tick, r, peaks[r]))
  {
    var s := Exec(EMPTY, capacity, events);
    var g := TickGather(Some(s.log), capacity, e.tick);
    var recent := RecentHistory(g, capacity, e.tick.found.value);
    TickGathersSeen(events, capacity, a, e, r);
    forall v
      ensures SeenBy(events + [e], capacity, a, e.tick, r, v) <==> Seen(g.forecasts, recent, r, v)
    {
    }
    forall v | Seen(g.forecasts, recent, r, v)
      ensures v <= TickPeaks(s, capacity, e.tick)[r]
    {
      PeakCovers(g.forecasts, recent, r, v);
    }
    PeakAttained(g.forecasts, recent, r);
  }

  /** The largest value a tick of the subject is to cover. */
  ghost predicate LargestSeen(events: seq<Event>, capacity: int, a: Subject, tick: Tick, r: ResourceName, top: real)
    requires Fetched(tick) && r in tick.fetch.value.byResource
  {
    SeenBy(events, capacity, a, tick, r, top) && forall v :: SeenBy(events, capacity, a, tick, r, v) ==> v <= top
  }

  /** End to end, from below: over every run, a tick that goes through leaves requests of
      n * (100 + thr) * total >= m * 120 * top for the largest value `top` of what the forecaster
      answered and the last nine samples fetched; and they carry each of those values, provided
      the headroom makes up for the threshold and for eligible pods without a target container. */
  lemma TickCoversWhatWasSeen(events: seq<Event>, capacity: int, a: Subject, e: Event, spec: ResizeSpec,
                              r: ResourceName, top: real)
    requires RunThenTick(events, capacity, a, e, r)
    requires LargestSeen(events + [e], capacity, a, e.tick, r, top) && top > 0.0
    requires GoesThrough(Exec(EMPTY, capacity, events), capacity, e, spec, r)
    requires Uncut(Exec(EMPTY, capacity, events), e, spec, r, top)
    ensures var s := Exec(EMPTY, capacity, events);
      var total, eligible := TickTotal(s, capacity, e, spec, r), TickEligible(s, e.tick);
      var m := Targeted(eligible, spec.containerName);
      && PeakCarried(ThresholdOf(spec, r), total, r, top, m, |eligible|)
      && (MakesUp(ThresholdOf(spec, r), m, |eligible|) ==>
            forall v :: SeenBy(events + [e], capacity, a, e.tick, r, v) ==> Covers(total, r, v))
  {
    var s := Exec(EMPTY, capacity, events);
    TickPeakIsMaximum(events, capacity, a, e, r);
    assert TickPeaks(s, capacity, e.tick)[r] == top;
    TickCarriesPeak(s, capacity, e, spec, r);
    forall v | SeenBy(events + [e], capacity, a, e.tick, r, v) && Covers(TickTotal(s, capacity, e, spec, r), r, top)
      ensures Covers(TickTotal(s, capacity, e, spec, r), r, v)
    {
      PeakAndBelow(TickTotal(s, capacity, e, spec, r), r, top, v);
    }
  }

  /** End to end, from above: (100 - thr) * total stays within m * (120 * top + 100 * n), twice
      that for memory, for n eligible pods of at most m target containers each. */
  lemma TickStaysNearWhatWasSeen(events: seq<Event>, capacity: int, a: Subject, e: Event, spec: ResizeSpec,
                                 r: ResourceName, top: real, m: nat)
    requires RunThenTick(events, capacity, a, e, r)
    requires LargestSeen(events + [e], capacity, a, e.tick, r, top) && top > 0.0
    requires GoesThrough(Exec(EMPTY, capacity, events), capacity, e, spec, r)
    requires AtMostTargets(TickEligible(Exec(EMPTY, capacity, events), e.tick), spec.containerName, m)
    requires MinNotBinding(r, top, |TickEligible(Exec(EMPTY, capacity, events), e.tick)|, spec.resources[r])
    ensures var s := Exec(EMPTY, capacity, events);
      PeakBounded(ThresholdOf(spec, r), TickTotal(s, capacity, e, spec, r), r, top, |TickEligible(s, e.tick)|, m)
  {
    TickPeakIsMaximum(events, capacity, a, e, r);
    assert TickPeaks(Exec(EMPTY, capacity, events), capacity, e.tick)[r] == top;
    TickStaysNearPeak(Exec(EMPTY, capacity, events), capacity, e, spec, r, m);
  }
}
