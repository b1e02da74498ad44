/** One reconcile tick (internal/controller/neuralautoscaler_controller.go): fetch, record,
    forecast, resize. Inference is an arbitrary function that may fail. */
module Controller {
  import opened Prelude
  import opened History
  import opened HistoryKeys
  import opened ResizeApi
  import opened Sizing
  import opened Pods
  import opened Actuator

  datatype MetricsSource = MetricsServer | Prometheus

  /** The two source blocks of a spec; either may be present whatever the type says. */
  datatype SourceBlock = SourceBlock(resources: seq<ResourceName>, namespace: string)
  datatype MetricsSpec = MetricsSpec(source: MetricsSource, server: Option<SourceBlock>,
                                     prometheus: Option<SourceBlock>)

  datatype Autoscaler = Autoscaler(namespace: string, name: string, deleting: bool, metrics: MetricsSpec,
                                   forecasting: bool, resize: Option<ResizeSpec>)

  datatype FetchResult = FetchResult(byResource: map<ResourceName, Series>, podNames: seq<string>)

  /** A forecaster: series id and history in, a response or a failure out. */
  type Model = (string, Series) -> Option<Response>

  function KeyFor(na: Autoscaler, r: ResourceName): string {
    HistoryKey(na.namespace, na.name, NameText(r))
  }

  /** A fetch yields cpu and memory only; sorted by name, cpu comes first. */
  function FetchedResources(fetch: FetchResult): seq<ResourceName> {
    (if CPU in fetch.byResource then [CPU] else []) + (if MEMORY in fetch.byResource then [MEMORY] else [])
  }

  function ResourcesToProcess(na: Autoscaler, fetch: FetchResult): seq<ResourceName> {
    if na.metrics.server.Some? then na.metrics.server.value.resources
    else if na.metrics.prometheus.Some? && na.metrics.prometheus.value.resources != []
    then na.metrics.prometheus.value.resources
    else FetchedResources(fetch)
  }

  function MetricsTargetNamespace(na: Autoscaler): string {
    if na.metrics.server.Some? && na.metrics.server.value.namespace != "" then na.metrics.server.value.namespace
    else if na.metrics.prometheus.Some? && na.metrics.prometheus.value.namespace != ""
    then na.metrics.prometheus.value.namespace
    else na.namespace
  }

  /** What a tick has gathered so far. The log is absent when no history store is configured. */
  datatype Gathered = Gathered(log: Option<Log>, history: map<ResourceName, Series>, forecasts: Forecasts)

  /** The series a resource is forecast from, after its latest sample has been recorded. */
  function ForecastSeries(na: Autoscaler, log: Option<Log>, capacity: int, key: string, series: Series): Series {
    if na.metrics.source.MetricsServer? && log.Some? && series != []
    then Last(Recorded(log.value, key), capacity)
    else series
  }

  function Forecast(na: Autoscaler, model: Option<Model>, key: string, series: Series): Option<Response> {
    if model.Some? && na.forecasting && |series| >= MIN_FORECAST_SAMPLES then model.value(key, series) else None
  }

  function Gather(g: Gathered, capacity: int, na: Autoscaler, fetch: FetchResult, model: Option<Model>,
                  r: ResourceName): Gathered {
    if r !in fetch.byResource then g else
    var key, series := KeyFor(na, r), fetch.byResource[r];
    var log := if g.log.Some? then Some(WithLatest(g.log.value, key, series)) else None;
    var forecastSeries := ForecastSeries(na, log, capacity, key, series);
    var response := Forecast(na, model, key, forecastSeries);
    Gathered(log, g.history[r := forecastSeries],
             if response.Some? then g.forecasts[r := response.value] else g.forecasts)
  }

  /** Gathering one fetched resource, step by step. */
  lemma GatherFetched(log: Option<Log>, log': Option<Log>, before: map<ResourceName, Series>, ready: Forecasts,
                      capacity: int, na: Autoscaler, fetch: FetchResult, model: Option<Model>, r: ResourceName,
                      series: Series)
    requires r in fetch.byResource
    requires log' == if log.Some? then Some(WithLatest(log.value, KeyFor(na, r), fetch.byResource[r])) else None
    requires series == ForecastSeries(na, log', capacity, KeyFor(na, r), fetch.byResource[r])
    ensures Gather(Gathered(log, before, ready), capacity, na, fetch, model, r) ==
      var response := Forecast(na, model, KeyFor(na, r), series);
      Gathered(log', before[r := series], if response.Some? then ready[r := response.value] else ready)
  {
  }

  function GatherAll(log: Option<Log>, capacity: int, na: Autoscaler, fetch: FetchResult, model: Option<Model>,
                     resources: seq<ResourceName>): Gathered {
    if resources == [] then Gathered(log, map[], map[])
    else Gather(GatherAll(log, capacity, na, fetch, model, resources[..|resources| - 1]), capacity, na, fetch, model,
                resources[|resources| - 1])
  }

  function RecentHistory(g: Gathered, capacity: int, na: Autoscaler): Histories {
    map r | r in g.history :: PeakSamples(g.log, capacity, KeyFor(na, r), g.history[r])
  }

  /** The answer to reading the autoscaler. */
  datatype Lookup = Found(value: Autoscaler) | NotFound | ReadFailed(error: string)

  /** Everything a tick depends on besides the controller's own state: the read, why the
      scope that patches the status could not be made and why the patch failed (if they did),
      the fetch, the forecaster. */
  datatype Tick = Tick(found: Lookup, scopeError: Option<string>, patchError: Option<string>,
                       fetch: Result<FetchResult, string>, model: Option<Model>)

  /** The tick has an autoscaler to work on. */
  predicate Live(tick: Tick) {
    tick.found.Found? && !tick.found.value.deleting
  }

  /** The tick gets as far as recording metrics. */
  predicate Fetched(tick: Tick) {
    Live(tick) && tick.scopeError.None? && tick.fetch.Ok?
  }

  function TickGather(log: Option<Log>, capacity: int, tick: Tick): Gathered
    requires Fetched(tick)
  {
    GatherAll(log, capacity, tick.found.value, tick.fetch.value, tick.model,
              ResourcesToProcess(tick.found.value, tick.fetch.value))
  }

  /** The history after a tick. A deleted autoscaler is evicted; an object that is not found
      evicts nothing. */
  function TickLog(log: Option<Log>, capacity: int, tick: Tick): Option<Log> {
    if !tick.found.Found? then log
    else if tick.found.value.deleting then
      if log.Some? then Some(WithoutPrefix(log.value, HistoryPrefix(tick.found.value.namespace, tick.found.value.name)))
      else None
    else if !Fetched(tick) then log
    else TickGather(log, capacity, tick).log
  }

  /** A tick that does not get as far as its metrics records nothing, evicts nothing and sends
      nothing; a tick of an autoscaler that is being deleted sends nothing either. */
  lemma FailedTickDoesNothing(log: Option<Log>, capacity: int, tick: Tick, pods: Cluster, unreachable: set<ObjectKey>)
    ensures tick.found.NotFound? || tick.found.ReadFailed?
            || (tick.found.Found? && !tick.found.value.deleting && (tick.scopeError.Some? || tick.fetch.Err?)) ==>
      TickLog(log, capacity, tick) == log && TickUpdates(log, capacity, tick, pods, unreachable) == []
    ensures tick.found.Found? && tick.found.value.deleting ==> TickUpdates(log, capacity, tick, pods, unreachable) == []
  {
  }

  /** Without a history store every resource is forecast from what was fetched, and so is one
      for which nothing was fetched. */
  lemma WithoutStore(log: Option<Log>, capacity: int, na: Autoscaler, key: string, series: Series)
    requires log.None? || series == []
    ensures ForecastSeries(na, log, capacity, key, series) == series
  {
  }

  /** Where the pods of an autoscaler are looked for: the namespace its metrics-server source
      names, else the one its Prometheus source names, else its own. */
  lemma NamespacePrecedence(na: Autoscaler)
    ensures var server, prometheus := na.metrics.server, na.metrics.prometheus;
      && (server.Some? && server.value.namespace != "" ==> MetricsTargetNamespace(na) == server.value.namespace)
      && (server.None? || server.value.namespace == "" ==>
            && (prometheus.Some? && prometheus.value.namespace != "" ==>
                  MetricsTargetNamespace(na) == prometheus.value.namespace)
            && (prometheus.None? || prometheus.value.namespace == "" ==> MetricsTargetNamespace(na) == na.namespace))
  {
  }

  /** Which resources a tick processes: those the metrics-server source lists, else those the
      Prometheus source lists, if any, else those the fetch has brought, cpu first. */
  lemma ResourcePrecedence(na: Autoscaler, fetch: FetchResult)
    ensures var server, prometheus := na.metrics.server, na.metrics.prometheus;
      && (server.Some? ==> ResourcesToProcess(na, fetch) == server.value.resources)
      && (server.None? && prometheus.Some? && prometheus.value.resources != [] ==>
            ResourcesToProcess(na, fetch) == prometheus.value.resources)
      && (server.None? && (prometheus.None? || prometheus.value.resources == []) ==>
            && (forall r :: r in {CPU, MEMORY} ==> (r in ResourcesToProcess(na, fetch) <==> r in fetch.byResource))
            && NoDuplicates(ResourcesToProcess(na, fetch))
            && (CPU in fetch.byResource ==> ResourcesToProcess(na, fetch)[0] == CPU))
  {
  }

  /** The peaks gathered data resizes by. */
  function GatheredPeaks(g: Gathered, capacity: int, na: Autoscaler): Peaks {
    EffectivePeaks(g.forecasts, RecentHistory(g, capacity, na))
  }

  function GatheredUpdates(g: Gathered, capacity: int, na: Autoscaler, fetch: FetchResult, pods: Cluster,
                           unreachable: set<ObjectKey>): seq<Pod> {
    if g.forecasts == map[] then []
    else ApplyUpdates(pods, unreachable, na.resize, GatheredPeaks(g, capacity, na), fetch.podNames,
                      MetricsTargetNamespace(na))
  }

  /** The resize updates a tick sends. */
  function TickUpdates(log: Option<Log>, capacity: int, tick: Tick, pods: Cluster,
                       unreachable: set<ObjectKey>): seq<Pod>
  {
    if !Fetched(tick) then []
    else GatheredUpdates(TickGather(log, capacity, tick), capacity, tick.found.value, tick.fetch.value, pods,
                         unreachable)
  }

  class Reconciler {
    var configured: bool            // whether there is a metrics factory
    var history: HistoryStore?      // its history store
    var client: Client

    constructor (configured: bool, history: HistoryStore?, client: Client)
      requires history != null ==> configured
      ensures this.configured == configured && this.history == history && this.client == client
    {
      this.configured, this.history, this.client := configured, history, client;
    }

    ghost predicate Valid()
      reads this, history, if history == null then {} else history.Repr
    {
      && (history != null ==> configured && history.Valid() && this !in history.Repr && client !in history.Repr)
    }

    ghost function View(): Option<Log>
      reads this, history
    {
      if history == null then None else Some(history.log)
    }

    ghost function Capacity(): int
      reads this, history
    {
      if history == null then 0 else history.capacity
    }

    /** Appends the latest sample of one resource and returns the series to forecast from:
        the accumulated one for the metrics server, the fetched one for Prometheus. */
    method Record(na: Autoscaler, key: string, series: Series) returns (forecastSeries: Series)
      requires Valid()
      modifies if history == null then {} else history.Repr
      ensures Valid() && history == old(history) && client == old(client) && configured == old(configured)
      ensures history != null ==> fresh(history.Repr - old(history.Repr)) && Capacity() == old(Capacity())
      ensures View() == if old(View()).Some? then Some(WithLatest(old(View()).value, key, series)) else None
      ensures forecastSeries == ForecastSeries(na, View(), Capacity(), key, series)
    {
      if history == null {
        return series;
      }
      if na.metrics.source.MetricsServer? {
        if |series| == 0 {
          return series;
        }
        history.AppendLatest(key, series);
        forecastSeries := history.Get(key);
      } else {
        history.AppendLatest(key, series);
        forecastSeries := series;
      }
    }

    /** Records and forecasts one resource. */
    method GatherOne(na: Autoscaler, fetch: FetchResult, model: Option<Model>, r: ResourceName,
                     before: map<ResourceName, Series>, ready: Forecasts)
      returns (perResource: map<ResourceName, Series>, forecasts: Forecasts)
      requires Valid()
      modifies if history == null then {} else history.Repr
      ensures Valid() && history == old(history) && client == old(client) && configured == old(configured)
      ensures history != null ==> fresh(history.Repr - old(history.Repr))
      ensures Capacity() == old(Capacity())
      ensures Gathered(View(), perResource, forecasts) ==
        Gather(Gathered(old(View()), before, ready), Capacity(), na, fetch, model, r)
    {
      perResource, forecasts := before, ready;
      if r !in fetch.byResource {
        return;
      }
      var key := KeyFor(na, r);
      ghost var log := View();
      var series := Record(na, key, fetch.byResource[r]);
      GatherFetched(log, View(), before, ready, Capacity(), na, fetch, model, r, series);
      perResource := perResource[r := series];
      if model.Some? && na.forecasting && |series| >= MIN_FORECAST_SAMPLES {
        var response := model.value(key, series);
        if response.Some? {
          forecasts := forecasts[r := response.value];
        }
      }
    }

    method GatherResources(na: Autoscaler, fetch: FetchResult, model: Option<Model>, resources: seq<ResourceName>)
      returns (perResource: map<ResourceName, Series>, forecasts: Forecasts)
      requires Valid()
      modifies if history == null then {} else history.Repr
      ensures Valid() && history == old(history) && client == old(client) && configured == old(configured)
      ensures Capacity() == old(Capacity())
      ensures Gathered(View(), perResource, forecasts) ==
        GatherAll(old(View()), Capacity(), na, fetch, model, resources)
    {
      perResource, forecasts := map[], map[];
      for i := 0 to |resources|
        invariant Valid() && history == old(history) && client == old(client) && configured == old(configured)
        invariant history != null ==> fresh(history.Repr - old(history.Repr))
        invariant Capacity() == old(Capacity())
        invariant Gathered(View(), perResource, forecasts) ==
          GatherAll(old(View()), Capacity(), na, fetch, model, resources[..i])
      {
        assert resources[..i + 1][..i] == resources[..i];
        perResource, forecasts := GatherOne(na, fetch, model, resources[i], perResource, forecasts);
      }
      assert resources[..|resources|] == resources;
    }

    method CollectRecent(na: Autoscaler, perResource: map<ResourceName, Series>) returns (recent: Histories)
      requires Valid()
      ensures recent == map r | r in perResource :: PeakSamples(View(), Capacity(), KeyFor(na, r), perResource[r])
    {
      recent := map[];
      ghost var view, capacity := View(), Capacity();
      var keys := perResource.Keys;
      while keys != {}
        invariant keys <= perResource.Keys
        invariant recent.Keys == perResource.Keys - keys
        invariant forall r :: r in recent ==> recent[r] == PeakSamples(view, capacity, KeyFor(na, r), perResource[r])
        decreases keys
      {
        var r :| r in keys;
        var samples := RecentPeakSamples(history, KeyFor(na, r), perResource[r]);
        recent := recent[r := samples];
        keys := keys - {r};
      }
    }

    /** One tick: the history becomes TickLog and the updates sent are exactly TickUpdates.
        When the tick ends, also by an error, the status is patched; a failed patch is reported
        unless there is an error already. */
    method Reconcile(tick: Tick) returns (r: Result<bool, string>)
      requires Valid()
      modifies if history == null then {} else history.Repr, client`pods, client`sent
      ensures Valid() && history == old(history) && client == old(client) && Capacity() == old(Capacity())
      ensures configured ==> View() == TickLog(old(View()), Capacity(), tick)
      ensures !configured ==> client.sent == old(client.sent) && client.pods == old(client.pods)
      ensures configured ==>
        var updates := TickUpdates(old(View()), Capacity(), tick, old(client.pods), client.unreachable);
        && client.sent == old(client.sent) + updates
        && client.pods == Deliver(old(client.pods), updates, client.accepts, |old(client.sent)|)
      ensures r.Ok? ==> (r.value <==> Live(tick))
      ensures r.Err? <==>
        || tick.found.ReadFailed?
        || (Live(tick) && (tick.scopeError.Some? || (configured && tick.fetch.Err?) || tick.patchError.Some?))
    {
      if tick.found.ReadFailed? {
        return Err(tick.found.error);
      }
      if tick.found.NotFound? {
        return Ok(false);
      }
      var na := tick.found.value;
      if na.deleting {
        if history != null {
          history.DeleteByPrefix(HistoryPrefix(na.namespace, na.name));
        }
        return Ok(false);
      }
      if tick.scopeError.Some? {
        return Err(tick.scopeError.value);
      }
      r := Work(tick);
      if r.Ok? && tick.patchError.Some? {
        return Err(tick.patchError.value);
      }
    }

    /** What a tick does between making the scope and patching the status. */
    method Work(tick: Tick) returns (r: Result<bool, string>)
      requires Valid() && Live(tick) && tick.scopeError.None?
      modifies if history == null then {} else history.Repr, client`pods, client`sent
      ensures Valid() && history == old(history) && client == old(client) && Capacity() == old(Capacity())
      ensures configured == old(configured)
      ensures configured ==> View() == TickLog(old(View()), Capacity(), tick)
      ensures !configured ==> client.sent == old(client.sent) && client.pods == old(client.pods)
      ensures configured ==>
        var updates := TickUpdates(old(View()), Capacity(), tick, old(client.pods), client.unreachable);
        && client.sent == old(client.sent) + updates
        && client.pods == Deliver(old(client.pods), updates, client.accepts, |old(client.sent)|)
      ensures r == if configured && tick.fetch.Err? then Err(tick.fetch.error) else Ok(true)
    {
      if !configured {
        return Ok(true);
      }
      if tick.fetch.Err? {
        return Err(tick.fetch.error);
      }
      var na, fetch := tick.found.value, tick.fetch.value;
      var perResource, forecasts := GatherResources(na, fetch, tick.model, ResourcesToProcess(na, fetch));
      Act(na, fetch, perResource, forecasts);
      return Ok(true);
    }

    /** The second half of a tick: resize when configured and some forecast is ready. */
    method Act(na: Autoscaler, fetch: FetchResult, perResource: map<ResourceName, Series>, forecasts: Forecasts)
      requires Valid()
      modifies client`pods, client`sent
      ensures Valid()
      ensures var g := Gathered(View(), perResource, forecasts);
        var updates := GatheredUpdates(g, Capacity(), na, fetch, old(client.pods), client.unreachable);
        && client.sent == old(client.sent) + updates
        && client.pods == Deliver(old(client.pods), updates, client.accepts, |old(client.sent)|)
    {
      if na.resize.Some? && forecasts != map[] {
        var recent := CollectRecent(na, perResource);
        var _ := Apply(client, na.resize, forecasts, recent, fetch.podNames, MetricsTargetNamespace(na));
      }
    }
  }
}
