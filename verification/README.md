# Neural autoscaler: a verified model of the predict-and-resize loop

This Dafny project models the control loop of the neural autoscaler: the sample history it
keeps per workload, the arithmetic that turns forecasts into per-pod requests, the
percentage filter and the pod update, the transforms around the Chronos model, and one
reconcile tick that ties them together. On top of the tick stands a state machine whose
steps are ticks of any number of autoscalers, each with a spec of its own, and everything
else that can happen to the cluster. Results over its runs are stated for one pod or one
autoscaler at a time, and constrain only the ticks that name that pod or are that autoscaler's.

`dafny verify dfyconfig.toml` checks the whole project.

## How it is built

- Code that changes things step by step is a class or a method with loops (`RingBuffer`,
  `HistoryStore`, `Client`, `Reconciler`, the insertion sort, the fetch and merge loops).
  Each is proved against a function of its inputs or of the old state, and the results are
  lemmas about those functions.
- `Prelude`, `ResizeApi` (bounds, validation, clamping), `MemoryRounding`, `Sizing` (peaks and
  targets), `Threshold`, `Pods` (the resized pod), `Actuator` (Apply) follow the resize code;
  `History`, `HistoryKeys`, `StoreRuns`, `MetricsFetch`, `PrometheusSeries` the metrics code;
  `Median`, `Chronos`, `QuantileLevels` the model input and output; `Controller` the tick.
- `ApplyProps`, `Coverage`, `CoverageLimit`, `ResizeCount`, `Runs`, `Warmup`, `TickCoverage` and
  `RunBounds` hold the results that span functions.

The main results:

1. **Coverage.** The peak a tick resizes by is exactly the largest value of what the forecaster
   answered, point or quantile, and of the last nine samples fetched since the last eviction
   that the history still holds, or zero. Take a tick whose Apply goes through: an accepted
   spec, readable pods, no update refused, no negative request, and no maximum that cuts the
   demand. If m of its n eligible pods have a target container, then
   n * (100 + thr) * requests >= m * 120 * peak, and over all clusters the requests carry the
   peak, so every value seen, exactly when 120 * m >= (100 + thr) * n. With a target container
   in every pod that is a threshold of at most 20 percent. From above, where no minimum lifts
   the demand, (100 - thr) * requests is at most 120 * peak plus 100 units per pod, twice that
   for memory, times the target containers of a pod, which only `*` makes more than one.
2. **Quiescence.** Applying the same peaks again after an accepted Apply sends nothing.
3. **Bounded number of resizes**, over runs that do not replace the pod, whatever the ticks
   that do not name it do. While the demand on a pod only grows, k changes of a request that
   starts at T0, at most the first target, force T0 * (100 + thr)^k <= max * 100^k; while it
   only falls, from at least the first target, min * 100^k <= T0 * (100 - thr)^k. While
   targets stay in a band narrower than thr percent, or the demand stays the same, there is at
   most one change.
4. **Safety of whole runs.** Between any two moments in which a pod is not replaced, none of
   its limits falls, appears or disappears, under any specs. Under one spec for the pod,
   request <= limit is kept, and every controlled request is the original one or in bounds;
   the filter leaves a request in bounds exactly when it was there or its step is big enough.
   No tick changes a pod that it does not name, that is terminating, or that is being resized.
5. **History.** Under any schedule of goroutines a key holds the last samples since its last
   eviction, each goroutine's in program order; eviction hits exactly one autoscaler.
6. **Warm-up.** For an autoscaler of either metrics source that keeps its resources, and whose
   successful fetches bring samples of each, the history of a resource is exactly the latest
   sample of each fetch since the last eviction, so all buffers fill together. With the metrics
   server there is no forecast and no update before the 16th successful fetch since eviction,
   and from then on a forecast is the forecaster's own answer for the window of that history;
   with Prometheus it is the answer for the series just fetched, from the first tick on, asked
   for exactly when that has 16 samples.
7. **Scale equivariance** of the Chronos pipeline: k times the history gives k times every
   forecast, for all networks exactly when the window is not empty with a non-zero median, or
   k is 1.

Where a plain reading of the code's comments is not what the code does:

- "Current requests are retained when no forecast peak exists"
  (internal/resize/target.go:35-37) holds exactly for requests in bounds that, for memory, are
  left alone by rounding or are the maximum itself; 1536Mi of memory becomes 2Gi
  (`RetainedWithoutForecast`, `KeptIffWhole`, `RoundedWithoutForecast`).
- The filter can keep a request outside the bounds, 1000m above a maximum of 950m
  (`KeptAboveMaximum`); `DecidedInBounds` says exactly when it does not. It never changes a
  negative request.
- `targetsChanged` and the filter's own verdict differ exactly when a controlled request is
  absent and nothing was accepted (`GuardsCompared`).
- An eligible pod without the named container is skipped, but still counts in the divisor, so
  its share of the demand is carried by nobody: two pods of which one lacks the container keep
  600m in all under a peak of 1000m (`SidePodTakesAShare`; `CarriedIffMakesUp` is exact).
- Merging Prometheus streams keeps only the last run of equally long streams
  (`FoldSumsLastRun`, `EarlierStreamIsDropped`).
- Decoding reads the tensor with stride 64 whatever its width: a row of another width is read
  from its own cells only if it is the first and as long as the horizon (`StrideIsTheWidth`,
  `NarrowRowIsOverrun`).

## Assumptions

- float64 is modelled by exact reals and headroom is 6/5; timestamps are integers.
- A quantity is a whole number of thousandths; `Value()` rounds up to whole units and reduces
  to an int64, `MilliValue()` is exact. The quantity library is not part of this model.
- Resource names other than cpu and memory are `Other(name)`.
- A goroutine's store operation is atomic, because it holds the store's mutex.
- A tick is atomic with respect to other changes to the cluster; which reads and updates the
  API server refuses is arbitrary.
- Forecasting is an arbitrary function of the series that may fail; asinh and sinh are
  arbitrary functions, assumed inverse where a result needs it.
- The names of a target's pods are distinct, since they come from one list of a namespace
  (internal/metrics/workload_pods.go:28-79); a total over the listed pods then counts each pod
  once (`ListedOnceEach`).
- Namespaces and names contain no slash where a result says so, as Kubernetes requires.

## Model

| member | source | states |
|---|---|---|
| ResizeApi.ValidateResize | api/v1alpha1/resize_validation.go:12-79 | accepts a spec exactly when the container name is not blank, percentages are within 0 and 100, keys are cpu or memory, and every pair of bounds parses with min <= max |
| ResizeApi.BlankIsTrimmed | api/v1alpha1/resize_validation.go:17-19 | trimming leaves nothing of a container name exactly when it is all white space |
| ResizeApi.AcceptedSpecs | api/v1alpha1/resize_validation.go:12-79 | the accepted specs field by field: name, percentages, at least one resource, cpu or memory only, ordered bounds |
| ResizeApi.ControlledResourceSet | api/v1alpha1/resize_validation.go:93-104 | collects exactly the cpu and memory keys |
| ResizeApi.ThresholdPrecedence | api/v1alpha1/min_change_percent.go:3-13 | the resource's own percentage, else the spec's, else ten |
| ResizeApi.ClampIsProjection | api/v1alpha1/policy_clamp.go:9-22 | under accepted bounds a clamped quantity is in bounds, unmoved iff it was, and the closest quantity in bounds |
| MemoryRounding.RoundedOrKept | internal/resize/target.go:72-99 | for every non-negative quantity: rounded up to its unit where the int64 addition fits, the input itself where it wraps or is below 1Ki |
| MemoryRounding.NeverBelowInput | internal/resize/target.go:94-98 | rounding never returns less than its input, also when the addition wraps |
| MemoryRounding.LeastWholeUnit | internal/resize/target.go:78-94 | absent overflow, the least multiple of the unit at or above the input, and less than twice the input |
| MemoryRounding.Monotone | internal/resize/target.go:72-99 | rounding is monotone across units and across the overflow boundary |
| MemoryRounding.Idempotent | internal/resize/target.go:72-99 | rounding twice is rounding once, for all quantities |
| MemoryRounding.KeptIffWhole | internal/resize/target.go:72-99 | a quantity is left alone iff it is below 1Ki, too large for the rounding addition, or a whole number of its unit; a negative one iff the int64 it is converted to is below 1Ki |
| MemoryRounding.UnitByMagnitude | internal/resize/target.go:78-91 | Gi, Mi or Ki by magnitude in bytes |
| History.RingBuffer.constructor | internal/metrics/history.go:26-33 | an empty ring with the default capacity for non-positive requests |
| History.RingBuffer.Append | internal/metrics/history.go:36-54 | adds one sample to everything appended so far and keeps the ring's invariant, across lazy allocation and wrap-around |
| History.RingBuffer.Len | internal/metrics/history.go:57-59 | the number of samples in the window |
| History.RingBuffer.Series | internal/metrics/history.go:62-74 | exactly the last capacity samples ever appended, value and timestamp, in order |
| History.SpellsOverwrite | internal/metrics/history.go:51-53 | overwriting the oldest slot and advancing start drops the oldest sample and appends the new one |
| History.HistoryStore.constructor | internal/metrics/history.go:84-92 | an empty store with the default capacity for non-positive requests |
| History.HistoryStore.Append | internal/metrics/history.go:95-105 | extends the log of one key by one sample and no other key's |
| History.HistoryStore.Get | internal/metrics/history.go:108-117 | the window of the key's log, empty for an unknown key |
| History.HistoryStore.Len | internal/metrics/history.go:120-129 | the length of that window |
| History.HistoryStore.Delete | internal/metrics/history.go:132-136 | removes one key's log |
| History.HistoryStore.DeleteByPrefix | internal/metrics/history.go:160-168 | removes the logs of exactly the keys with the prefix |
| History.HistoryStore.AppendLatest | internal/metrics/history.go:139-145 | appends the last sample of a snapshot, nothing for an empty one |
| History.RecentPeakSamples | internal/metrics/history.go:150-157 | the stored window when there is one, otherwise the fetched values |
| History.StoredBeforeFetched | internal/metrics/history.go:150-157 | which samples floor a peak: the stored window whatever was fetched, and the fetched ones without a store or with nothing stored |
| StoreRuns.RunKeepsSurvivors | internal/metrics/history.go:95-168 | over every run a key's log is the samples appended since the last operation that evicted it |
| StoreRuns.Serve | internal/metrics/history.go:95-168 | a real store serving any run in lock order answers each Get with the window of what survived |
| StoreRuns.ProgramOrderSurvives | internal/metrics/history.go:76-168 | for any schedule of goroutines, each goroutine's surviving samples are the latest it appended, in program order |
| HistoryKeys.HistoryKeyInjective | internal/metrics/metrics_server.go:98-100 | keys are equal iff namespace, name and resource are, for slash-free namespaces and names |
| HistoryKeys.PrefixIsExact | internal/metrics/metrics_server.go:98-105 | a prefix matches a key iff both belong to the same autoscaler |
| HistoryKeys.ExactEviction | internal/controller/neuralautoscaler_controller.go:214-219 | eviction empties the autoscaler's own series and leaves every other series as it was |
| HistoryKeys.SlashesWouldCollide | internal/metrics/metrics_server.go:98-105 | with a slash in a name, eviction of one autoscaler removes another's series |
| Sizing.ForecastPeaks | internal/resize/target.go:110-124 | the nested loops compute the peak that ForecastPeakIsMaximum characterises |
| Sizing.ForecastPeakIsMaximum | internal/resize/target.go:110-124 | the peak is zero or attained, and no point or quantile value exceeds it |
| Sizing.RecentPeak | internal/resize/peak.go:9-27 | the maximum, from zero, of the last window values, nine by default |
| Sizing.ComputeTargets | internal/resize/target.go:38-68 | fills one target per controlled resource, in any order of the resource map |
| Sizing.SettleStable | internal/resize/target.go:52-63 | clamp, round, clamp lands in bounds, is never below the clamped demand, and is idempotent |
| Sizing.DemandCovers | internal/resize/target.go:49-58 | N demands cover 1.2 times the peak and exceed it by less than N units |
| Sizing.TargetMonotone | internal/resize/target.go:38-68 | targets never fall when the peak rises or the pod count falls |
| Sizing.TargetsInBounds | internal/resize/target.go:38-68 | every target of an accepted spec is present and within its bounds |
| Sizing.RetainedWithoutForecast | internal/resize/target.go:54-63 | without a forecast a request is retained iff it is in bounds and, for memory, left alone by rounding (below 1Ki, too large to round, or whole units) or the maximum itself |
| Sizing.RoundedWithoutForecast | internal/resize/target.go:54-63 | 1536Mi without a forecast becomes 2Gi |
| Threshold.ExceedsInWholeNumbers | internal/resize/threshold.go:53-80 | the percentage test in whole numbers for zero, positive and negative current requests |
| Threshold.ApplyMinChangeThreshold | internal/resize/threshold.go:15-51 | keeps or accepts each resource on its own and reports whether any was accepted |
| Threshold.FilterIsSound | internal/resize/threshold.go:24-50 | each controlled target ends as the accepted proposal or the current request under its effective percentage |
| Threshold.AbsentIsFilled | internal/resize/threshold.go:53-61 | an absent request is filled by any positive proposal |
| Threshold.DecidedInBounds | internal/resize/threshold.go:24-50 | the filter leaves a request in bounds iff it was in bounds, or is zero with a positive proposal, or is positive and the proposal is at least thr percent away |
| Threshold.KeptAboveMaximum | internal/resize/threshold.go:24-50 | a request of 1000m above a maximum of 950m is kept under the default threshold |
| Threshold.GuardsCompared | internal/resize/actuator.go:140-143 | the targets differ from the stated requests iff some resource was accepted or a controlled request is absent |
| ResizeCount.GeometricGrowth | internal/resize/threshold.go:53-69 | under non-falling proposals k changes multiply a request by at least ((100+thr)/100)^k and never pass the latest proposal |
| ResizeCount.ResizesAreBounded | internal/resize/threshold.go:53-69 | with growing demand, a maximum and a start T0 of at most the first target, T0 * (100+thr)^k <= max * 100^k |
| ResizeCount.GeometricDecline | internal/resize/threshold.go:53-69 | under non-rising positive proposals k changes leave at most ((100-thr)/100)^k of a request and never pass below the latest proposal |
| ResizeCount.ResizesAreBoundedBelow | internal/resize/threshold.go:53-69 | with falling demand and a start T0 of at least the first target, min * 100^k <= T0 * (100-thr)^k |
| ResizeCount.NoiseIsAbsorbed | internal/resize/threshold.go:53-69 | while proposals lie in one narrow band a request changes at most once and ends in the band |
| ResizeCount.AbsorbsIffNarrow | internal/resize/threshold.go:53-69 | proposals between low and high move every request at most once iff they are equal or less than thr percent of low apart |
| Pods.ResizeInProgress | internal/resize/actuator.go:255-262 | true iff some condition says a resize is in progress |
| Pods.TargetContainerIndexes | internal/resize/actuator.go:184-205 | the first container by default, all for a star, otherwise the first of that name, none if there is none |
| Pods.SelectedExactly | internal/resize/actuator.go:184-205 | that list is the only ascending, duplicate-free list of exactly the selected containers |
| Pods.TargetsByName | internal/resize/actuator.go:184-205 | the first container without a name, all for a star, otherwise the first that has the name, in terms of the pod and the name |
| Pods.BuildResizePod | internal/resize/actuator.go:207-239 | writes the plans one after the other, skipping indexes out of range |
| Pods.BadIndexIsSkipped | internal/resize/actuator.go:210-213 | a plan for a container the pod does not have changes nothing |
| Pods.ResizeContainerAt | internal/resize/actuator.go:223-234 | per resource: a written request, a limit raised to it only if it exists and is lower, everything else unchanged |
| Pods.NoPlanKeepsAll | internal/resize/actuator.go:131-150 | a container is left out of the plan iff every controlled resource keeps its current request |
| Pods.SettledPointwise | internal/resize/actuator.go:107-175 | a resize changes nothing but the containers' resources, only selected ones, and no terminating or busy pod |
| Pods.ContainerAfterResources | internal/resize/actuator.go:131-161 | a selected container's controlled request becomes the filtered target, its limits are only raised to it, uncontrolled resources stay |
| Actuator.Client.UpdateResize | internal/resize/actuator.go:171-173 | an update is recorded and lands exactly when the API server accepts it |
| Actuator.LandedUpdates | internal/resize/actuator.go:72-79 | a pod none of whose updates was accepted is as it was, any other is its last accepted update |
| Actuator.CollectPeaks | internal/resize/actuator.go:40-62 | the loops compute the peak that PeakCovers and PeakAttained characterise |
| Actuator.PeakCovers | internal/resize/actuator.go:40-62 | the peak is at least every forecast value and each of the last nine samples |
| Actuator.PeakAttained | internal/resize/actuator.go:40-62 | the peak is zero, or a forecast value, or one of the last nine samples |
| Actuator.ListEligiblePods | internal/resize/actuator.go:82-105 | fails iff some pod cannot be read, otherwise lists the existing pods that are neither terminating nor busy, in order |
| Actuator.EligibleInOrder | internal/resize/actuator.go:82-105 | pods are listed in the order of their names, and one name lists its pod when that exists, is not terminating and is not being resized |
| Actuator.BuildPlans | internal/resize/actuator.go:131-150 | plans exactly the containers with an accepted change |
| Actuator.ResizePod | internal/resize/actuator.go:107-175 | sends the planned pod or nothing, and changes the cluster only if the update is accepted |
| Actuator.UpdatesInOrder | internal/resize/actuator.go:72-79 | updates are sent in the order of the pods |
| Actuator.OneUpdate | internal/resize/actuator.go:107-175 | one pod is sent its resized self, or nothing when there is none |
| Actuator.Apply | internal/resize/actuator.go:25-80 | sends exactly the updates of the eligible pods, in order, and the cluster becomes what the accepted ones make it; errors for an invalid spec or an unreadable pod |
| Actuator.FailureSendsNothing | internal/resize/actuator.go:25-80 | an Apply fails exactly for a spec that is not accepted or an unreadable named pod, and then sends nothing |
| ApplyProps.EligibleAreListed | internal/resize/actuator.go:82-105 | the eligible pods are exactly the named pods of the namespace that exist and are neither terminating nor busy |
| ApplyProps.ListedPodsAreIdle | internal/resize/actuator.go:82-105 | on the fields of the pod: listed iff named, stored, not terminating and without a true resize condition |
| ApplyProps.BusyPodsAreLeft | internal/resize/actuator.go:107-114 | no update for a terminating pod or one with a true resize condition |
| ApplyProps.DeliverFramed | internal/resize/actuator.go:64-79 | whatever is refused, a pod changes only if it was listed and eligible, and then to its own resized self; all do when nothing is refused |
| ApplyProps.DecideSettles | internal/resize/threshold.go:24-50 | deciding again from a decided request changes nothing, with or without a forecast |
| ApplyProps.SettledIsStable | internal/resize/actuator.go:107-175 | a pod whose resize landed is not resized again by the same peaks |
| ApplyProps.Quiescence | internal/resize/actuator.go:25-80 | after an Apply whose updates are all accepted the same Apply sends nothing |
| Coverage.DecideCovers | internal/resize/threshold.go:53-61 | the filter holds back less than thr percent of the request it keeps |
| Coverage.PodCovers | internal/resize/actuator.go:107-175 | the target containers of a resized pod, when it has some, carry its share of the demand; requests are not negative |
| Coverage.CappedCoverage | internal/resize/actuator.go:64-131 | after a complete Apply, with no negative request, the target containers carry m capped demands, where m of the n eligible pods that share the demand have a target container |
| Coverage.PeakCoverage | internal/resize/actuator.go:64-131 | when the maximum does not cut, n * (100+thr) * requests >= m * 120 * peak, and the peak is covered once 120 * m >= (100+thr) * n |
| Coverage.FullCoverage | internal/resize/actuator.go:40-79 | when moreover every eligible pod has a target container, (100+thr) * requests >= 120 * peak, and thr <= 20 covers the peak |
| CoverageLimit.CarriedIffMakesUp | internal/resize/actuator.go:64-131 | over all clusters with n eligible pods of which m have a target container, every complete Apply whose maximum does not cut carries the peak iff 120 * m >= (100+thr) * n |
| CoverageLimit.SidePodTakesAShare | internal/resize/actuator.go:73-131 | two eligible pods, one without the named container: 600m are kept under a peak of 1000m and nothing is sent |
| Coverage.CarriedIffAtMostTwenty | internal/resize/threshold.go:53-61 | for one pod with one target container the peak is carried for all requests and peaks iff thr <= 20 |
| Coverage.DecideStaysNear | internal/resize/threshold.go:53-61 | the filter keeps at most thr percent of a request above its target |
| Coverage.PeakIsNotExceeded | internal/resize/actuator.go:40-79 | when the minimum does not lift the demand: after a complete Apply with n eligible pods of at most m target containers each, (100-thr) * requests <= m * (120 * peak + 100 * n), twice that for memory |
| Coverage.TargetCount | internal/resize/actuator.go:184-205 | a pod has at most one target container unless all are asked for |
| Coverage.ListedOnceEach | internal/resize/actuator.go:82-105 | each eligible pod is listed once iff no eligible pod is named twice |
| Controller.Reconciler.Record | internal/controller/neuralautoscaler_controller.go:199-212 | records the latest sample and yields the accumulated or the fetched series |
| Controller.WithoutStore | internal/controller/neuralautoscaler_controller.go:199-219 | without a store, or with nothing fetched, the fetched series is forecast from |
| Controller.Reconciler.GatherResources | internal/controller/neuralautoscaler_controller.go:133-171 | history, per-resource series and forecasts after all resources of a tick |
| Controller.Reconciler.CollectRecent | internal/controller/neuralautoscaler_controller.go:185-189 | the samples that floor each peak |
| Controller.Reconciler.Act | internal/controller/neuralautoscaler_controller.go:177-194 | resizes iff a spec is set and some forecast is ready |
| Controller.NamespacePrecedence | internal/controller/neuralautoscaler_controller.go:329-337 | the namespace of the metrics-server source, else of the Prometheus source, else the autoscaler's own |
| Controller.ResourcePrecedence | internal/controller/neuralautoscaler_controller.go:311-327 | the resources the metrics-server source lists, else those of the Prometheus source, else the fetched ones, cpu first |
| Controller.Reconciler.Reconcile | internal/controller/neuralautoscaler_controller.go:79-197 | one tick: the new history, the updates sent, the resulting cluster, and an error exactly for a failed read, scope, fetch or status patch |
| Controller.FailedTickDoesNothing | internal/controller/neuralautoscaler_controller.go:79-131 | a tick whose read, scope or fetch fails records, evicts and sends nothing; a deleting one sends nothing |
| Runs.TickIsFramed | internal/resize/actuator.go:25-80 | a tick changes a pod only if it names it, by the resize of its own spec, peaks and pod count |
| Runs.TickLeavesBusyPods | internal/resize/actuator.go:82-114 | a tick changes only pods it names that are neither terminating nor being resized, on their fields |
| Runs.StepIsSafe | internal/resize/actuator.go:207-239 | every event keeps the requests and limits of a pod within its baseline, under the spec of the ticks that name the pod |
| Runs.RunsAreSafe | internal/resize/actuator.go:207-239 | over every sequence of events, for each pod whose own ticks share a spec: limits never created, dropped or below the original, request <= limit kept, controlled requests original or in bounds |
| Runs.LimitsHaveACeiling | internal/resize/actuator.go:207-239 | over any run a limit never drops below its request and never exceeds the larger of the initial limit and the maximum |
| Runs.StepKeepsLimits | internal/resize/actuator.go:223-234 | no event lowers, adds or drops a limit of a pod it does not replace, whatever the specs |
| Runs.LimitsNeverFall | internal/resize/actuator.go:223-234 | the same between any two moments of any run |
| Warmup.GatherOwn | internal/controller/neuralautoscaler_controller.go:137-171 | a tick records exactly the latest sample of each resource, in both source modes, takes the accumulated or the fetched series, touches no other resource, and its forecast is the forecaster's answer for that series |
| Warmup.OtherAutoscaler | internal/controller/neuralautoscaler_controller.go:137-171 | a tick leaves every other autoscaler's series as it was |
| Warmup.MetricsServerIsSteady | internal/metrics/metrics_server.go:35-95 | whatever pods and records the fetch is given, a tick records for each resource the usage of the target pods |
| Warmup.BuffersHoldFetched | internal/controller/neuralautoscaler_controller.go:115-171 | over every run, for an autoscaler of either source that keeps its resources, the history of a resource is exactly the latest samples fetched since the last eviction, in order, so all resources hold t samples after t fetches, whatever other autoscalers do |
| Warmup.ForecastsFromTheSixteenth | internal/controller/neuralautoscaler_controller.go:154-170 | for an autoscaler that keeps its resources: the series is exactly the window of what was fetched since eviction (Prometheus: this fetch), the forecast is the forecaster's own answer, asked for from 16 samples on; with the metrics server none before the 16th fetch |
| Warmup.PrometheusForecastsAtOnce | internal/controller/neuralautoscaler_controller.go:137-170 | with Prometheus the forecast is the forecaster's answer for this tick's own series, if that has 16 samples, whatever the history |
| Warmup.NoUpdateBeforeWarm | internal/controller/neuralautoscaler_controller.go:177-194 | no pod is updated by a tick of a metrics-server autoscaler before its 16th fetch |
| RunBounds.RequestStep | internal/resize/actuator.go:107-175 | any event leaves a request alone or makes it the filtered target of the current demand on its pod |
| RunBounds.RunResizesAreBounded | internal/resize/actuator.go:40-79 | over whole runs with growing demand on a pod T0 * (100+thr)^k <= max * 100^k for the k changes of a request, whatever ticks that do not name the pod do |
| RunBounds.RunResizesAreBoundedBelow | internal/resize/actuator.go:40-79 | over whole runs with falling demand on a pod min * 100^k <= T0 * (100-thr)^k for the k changes of a request |
| RunBounds.RunAbsorbsNoise | internal/resize/actuator.go:40-79 | over whole runs, while peaks and pod counts stay in ranges whose targets are less than thr percent apart, a request changes at most once |
| RunBounds.RunSettles | internal/resize/actuator.go:25-80 | over whole runs under one demand a request changes at most once, with or without a forecast |
| TickCoverage.HistoryFloorsPeak | internal/controller/neuralautoscaler_controller.go:185-189 | after any tick that fetches, of either source, none of the last nine stored samples of a forecast resource exceeds its peak |
| TickCoverage.TickPeakIsMaximum | internal/controller/neuralautoscaler_controller.go:137-194 | over every run the peak of a tick is exactly the largest of the forecaster's answer and the last nine samples kept of those fetched since eviction, or zero |
| TickCoverage.TickCoversWhatWasSeen | internal/controller/neuralautoscaler_controller.go:137-194 | after a tick that goes through, with no negative request and no maximum that cuts, n * (100+thr) * requests >= m * 120 * the largest of those values, and each is carried once 120 * m >= (100+thr) * n for m of n eligible pods with a target container |
| TickCoverage.TickStaysNearWhatWasSeen | internal/controller/neuralautoscaler_controller.go:137-194 | from above, where the minimum does not lift the demand, (100-thr) * requests <= m * (120 * the largest value + 100 * n), twice that for memory |
| TickCoverage.TickCoversWhatWasGathered | internal/controller/neuralautoscaler_controller.go:177-194 | the same from below for a tick of any autoscaler, in terms of what it gathered |
| Median.InsertionSort | internal/forecast/onnx/chronos2_preprocess.go:69-77 | sorts the array in place |
| Median.SortedIsOrderedPermutation | internal/forecast/onnx/chronos2_preprocess.go:69-77 | the result is an ordered permutation of the input |
| Median.MedianAbsScale | internal/forecast/onnx/chronos2_preprocess.go:59-84 | computes the scale that MedianIsMidpoint characterises, 1 for an empty window |
| Median.MedianIsMedian | internal/forecast/onnx/chronos2_preprocess.go:79-83 | half of the absolute values are at most and half at least the result, which is not negative |
| Median.MediansBetween | internal/forecast/onnx/chronos2_preprocess.go:79-83 | the medians of a list are exactly what lies between its two middle elements |
| Median.MedianIsMidpoint | internal/forecast/onnx/chronos2_preprocess.go:79-83 | the result is the midpoint of all medians of the absolute values |
| Median.MedianIgnoresOrder | internal/forecast/onnx/chronos2_preprocess.go:59-84 | permuting the window does not change the result |
| Median.MedianScales | internal/forecast/onnx/chronos2_preprocess.go:59-84 | k times the window gives k times the median |
| Chronos.PrepareChronosInputs | internal/forecast/onnx/chronos2_preprocess.go:30-57 | the loop leaves the encoded window right-aligned in context and mask, and the median or 1 as scale |
| Chronos.ScaleCases | internal/forecast/onnx/chronos2_preprocess.go:36-39 | the scale is 1 for an empty window or a zero median, otherwise the median |
| Chronos.WindowRoundTrip | internal/forecast/onnx/chronos2_preprocess.go:41-56 | the mask is one exactly on the suffix of min(len, 512), where decoding gives the last samples back; the 64 future covariates are zero |
| Chronos.ChronosQuantileHorizon | internal/forecast/onnx/chronos2_preprocess.go:103-123 | decodes one row, nil for a bad index or horizon, zeros beyond the prediction |
| Chronos.DecodedLength | internal/forecast/onnx/chronos2_preprocess.go:103-123 | nothing for an index outside the 21 levels or without a horizon, otherwise up to 64 steps, zero past the prediction |
| Chronos.StrideIsTheWidth | internal/forecast/onnx/chronos2_preprocess.go:103-123 | a row decodes from its own cells over the whole horizon, for all tensors, iff the tensor is 64 wide, or it is the first row and at least as long as the horizon |
| Chronos.NarrowRowIsOverrun | internal/forecast/onnx/chronos2_preprocess.go:116-120 | with ten steps a row, step 10 of the first row is the first cell of the second |
| Chronos.DecodesEveryCell | internal/forecast/onnx/chronos2_preprocess.go:103-123 | at width 64 every decoded cell is the model output at that quantile and step |
| Chronos.ScaleEquivariance | internal/forecast/onnx/chronos2_preprocess.go:36-39 | k times the window has k times the scale iff the window is not empty with a non-zero median, or k is 1 |
| Chronos.ContextInvariant | internal/forecast/onnx/chronos2_preprocess.go:41-56 | then context and mask are unchanged |
| Chronos.ForecastScales | internal/forecast/onnx/chronos2_preprocess.go:103-123 | then every decoded forecast of a deterministic model is multiplied by k |
| Chronos.ForecastsScaleIff | internal/forecast/onnx/chronos2_preprocess.go:30-123 | k times the window gives k times every forecast of every network iff the window is not empty with a non-zero median, or k is 1 |
| QuantileLevels.ChronosQuantileIndex | internal/forecast/onnx/chronos2_preprocess.go:86-97 | the loop finds the level that LookupIsNearest characterises |
| QuantileLevels.LevelGrid | internal/forecast/onnx/chronos2_preprocess.go:17-21 | 21 levels: every twentieth between 0.01 and 0.99 |
| QuantileLevels.LookupIsNearest | internal/forecast/onnx/chronos2_preprocess.go:86-97 | the search returns the lowest of the nearest levels, for every finite float64 level |
| QuantileLevels.LookupMonotone | internal/forecast/onnx/chronos2_preprocess.go:86-97 | a higher level never maps to a lower index |
| MetricsFetch.ValidateResourceMetrics | api/v1alpha1/metrics_source_validation.go:104-118 | accepts exactly the lists of cpu and memory without duplicates |
| MetricsFetch.AddRecord | internal/metrics/metrics_server.go:64-73 | adds one record to every listed total, once per listing, and fails on an unsupported resource |
| MetricsFetch.UsageOfNamed | internal/metrics/metrics_server.go:59-75 | a record adds its cpu or memory usage exactly when its pod is named |
| MetricsFetch.Fetch | internal/metrics/metrics_server.go:35-95 | one sample per resource: its listings times the usage of the matched records; fails when the pods or the records cannot be listed, without pods, without a match, or on an unsupported resource |
| MetricsFetch.FetchFailsWhen | internal/metrics/metrics_server.go:35-81 | when a fetch fails, in terms of the pods, the records and the resources |
| MetricsFetch.TotalsExact | internal/metrics/metrics_server.go:54-75 | totals of a list without duplicates are exact; a total is exact iff the resource is listed once or its usage is zero |
| PrometheusSeries.MergeSeries | internal/metrics/prometheus.go:417-436 | merges two series: pointwise sum at equal length, otherwise the non-empty or the later one |
| PrometheusSeries.MatrixToSeries | internal/metrics/prometheus.go:392-403 | folds the merge over all streams |
| PrometheusSeries.FoldSumsLastRun | internal/metrics/prometheus.go:392-436 | for every matrix the fold is the pointwise sum of the last run of equally long non-empty streams |
| PrometheusSeries.AllSummedIffUniform | internal/metrics/prometheus.go:392-436 | the merged series is the sum of all non-empty streams iff they share one length |
| PrometheusSeries.EarlierStreamIsDropped | internal/metrics/prometheus.go:424-426 | of two streams of different lengths only the second survives |
| PrometheusSeries.MergeIgnoresOrder | internal/metrics/prometheus.go:392-436 | for such streams the merged values do not depend on stream order |

## Left out

- History.RingBuffer.Append: the two slices are sequence fields the method reassigns rather than arrays, so writing a slot in place, and the absence of sharing between the ring and the series it returns, are not captured.
- Pods.BuildResizePod: pods are values, so that the deep copy leaves the input pod unmodified holds by construction and is not a result here.
- Sizing.ComputeTargets: the conversion of a peak beyond int64 is not modelled; the demand is the mathematical ceiling.
- Actuator.Apply: error texts and log lines are not modelled; a refused update is logged by the original and its answer is dropped here as well.
- Controller.Reconciler.Reconcile: status fields and conditions, and what the status patch writes, are not modelled; only whether the patch fails.
- ONNX sessions, model discovery, configuration and the TimesFM transforms (internal/forecast/onnx/preprocess.go): foreign calls, and index loops that would only add easy members.
- The Kubernetes client, pod selector resolution, and conflicts between a tick and concurrent edits: the API server's answers are arbitrary.
- Prometheus queries, authentication, and the single-sample vector result: input and output, and one plain sum.
- Rounding, infinities and NaN of float64 and float32.
- Parsing of quantity and duration strings: a bound is unset, a number, or malformed.
- Presence checks of the metrics source validators other than the resource list.
