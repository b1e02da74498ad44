/** Warm-up over runs: how full an autoscaler's buffers are, and what cannot happen before
    they hold enough samples. */
module Warmup {
  import opened Prelude
  import opened History
  import opened HistoryKeys
  import opened ResizeApi
  import opened Actuator
  import opened Controller
  import opened MetricsFetch
  import opened Runs

  /** An autoscaler, of either source, with validated resources. */
  datatype Subject = Subject(namespace: string, name: string, resources: seq<ResourceName>)

  predicate ValidSubject(a: Subject) {
    && SlashFree(a.namespace) && SlashFree(a.name)
    && NoDuplicates(a.resources)
    && forall i :: 0 <= i < |a.resources| ==> a.resources[i] in {CPU, MEMORY}
  }

  predicate IsTickOf(e: Event, a: Subject) {
    e.Reconciled? && e.tick.found.Found? && e.tick.found.value.namespace == a.namespace
    && e.tick.found.value.name == a.name
  }

  /** The subject keeps its resources, and a fetch that succeeds yields samples for each of
      them; its source may be either, and change. Every other autoscaler may do as it likes,
      but Kubernetes names contain no slash. */
  predicate Steady(e: Event, a: Subject) {
    && (e.Reconciled? && e.tick.found.Found? ==>
          SlashFree(e.tick.found.value.namespace) && SlashFree(e.tick.found.value.name))
    && (IsTickOf(e, a) && e.tick.fetch.Ok? ==>
          && ResourcesToProcess(e.tick.found.value, e.tick.fetch.value) == a.resources
          && forall i :: 0 <= i < |a.resources| ==>
               && a.resources[i] in e.tick.fetch.value.byResource
               && e.tick.fetch.value.byResource[a.resources[i]] != [])
  }

  /** Successful fetches of the subject since it was last evicted. */
  function TicksSinceEviction(events: seq<Event>, a: Subject): nat {
    if events == [] then 0 else
    var before, e := TicksSinceEviction(events[..|events| - 1], a), events[|events| - 1];
    if !IsTickOf(e, a) then before
    else if e.tick.found.value.deleting then 0
    else if Fetched(e.tick) then before + 1
    else before
  }

  function SubjectKey(a: Subject, r: ResourceName): string {
    HistoryKey(a.namespace, a.name, NameText(r))
  }

  // ---- one tick ---------------------------------------------------------------------

  /** Gathering touches only the keys of the resources it processes. */
  lemma {:induction false} GatherLeavesOthers(log: Log, capacity: int, na: Autoscaler, fetch: FetchResult,
                                              model: Option<Model>, resources: seq<ResourceName>, key: string)
    requires forall i :: 0 <= i < |resources| ==> KeyFor(na, resources[i]) != key
    ensures var g := GatherAll(Some(log), capacity, na, fetch, model, resources);
      g.log.Some? && Recorded(g.log.value, key) == Recorded(log, key)
    decreases |resources|
  {
    if resources != [] {
      GatherLeavesOthers(log, capacity, na, fetch, model, resources[..|resources| - 1], key);
    }
  }

  lemma DistinctKeys(na: Autoscaler, r: ResourceName, r': ResourceName)
    requires SlashFree(na.namespace) && SlashFree(na.name)
    requires r in {CPU, MEMORY} && r' in {CPU, MEMORY} && r != r'
    ensures KeyFor(na, r) != KeyFor(na, r')
  {
  }

  /** What gathering does for each of its own resources: the latest fetched sample, and only
      that, is recorded; the series is the accumulated window for the metrics server and the
      fetched one for Prometheus; and the forecast is the forecaster's answer for it, whenever it gives one. */
  predicate Gathers(g: Gathered, log: Log, capacity: int, na: Autoscaler, fetch: FetchResult, model: Option<Model>,
                    r: ResourceName)
    requires r in fetch.byResource && fetch.byResource[r] != []
  {
    var fetched := fetch.byResource[r];
    && g.log.Some?
    && Recorded(g.log.value, KeyFor(na, r)) == Recorded(log, KeyFor(na, r)) + [fetched[|fetched| - 1]]
    && r in g.history
    && g.history[r] == (if na.metrics.source.MetricsServer? then Last(Recorded(g.log.value, KeyFor(na, r)), capacity)
                        else fetched)
    && (r in g.forecasts <==>
          && model.Some? && na.forecasting && |g.history[r]| >= 16
          && model.value(KeyFor(na, r), g.history[r]).Some?)
    && (r in g.forecasts ==> model.Some? && model.value(KeyFor(na, r), g.history[r]) == Some(g.forecasts[r]))
  }

  lemma GatherOneMore(before: Gathered, log: Log, capacity: int, na: Autoscaler, fetch: FetchResult,
                      model: Option<Model>, r: ResourceName)
    requires r in fetch.byResource && fetch.byResource[r] != []
    requires before.log.Some? && Recorded(before.log.value, KeyFor(na, r)) == Recorded(log, KeyFor(na, r))
    requires r !in before.forecasts
    ensures Gathers(Gather(before, capacity, na, fetch, model, r), log, capacity, na, fetch, model, r)
  {
  }

  lemma GatherKeeps(before: Gathered, log: Log, capacity: int, na: Autoscaler, fetch: FetchResult, model: Option<Model>,
                    r: ResourceName, other: ResourceName)
    requires r != other && KeyFor(na, r) != KeyFor(na, other)
    requires other in fetch.byResource && fetch.byResource[other] != []
    requires Gathers(before, log, capacity, na, fetch, model, other)
    ensures Gathers(Gather(before, capacity, na, fetch, model, r), log, capacity, na, fetch, model, other)
  {
  }

  lemma {:induction false} GatherOwn(log: Log, capacity: int, na: Autoscaler, fetch: FetchResult, model: Option<Model>,
                                     resources: seq<ResourceName>)
    requires SlashFree(na.namespace) && SlashFree(na.name)
    requires NoDuplicates(resources)
    requires forall i :: 0 <= i < |resources| ==>
      resources[i] in {CPU, MEMORY} && resources[i] in fetch.byResource && fetch.byResource[resources[i]] != []
    ensures var g := GatherAll(Some(log), capacity, na, fetch, model, resources);
      && (forall i :: 0 <= i < |resources| ==> Gathers(g, log, capacity, na, fetch, model, resources[i]))
      && (forall r :: r in g.forecasts || r in g.history ==> r in resources)
    decreases |resources|
  {
    if resources != [] {
      var init, last := resources[..|resources| - 1], resources[|resources| - 1];
      GatherOwn(log, capacity, na, fetch, model, init);
      var before := GatherAll(Some(log), capacity, na, fetch, model, init);
      forall i | 0 <= i < |init|
        ensures KeyFor(na, init[i]) != KeyFor(na, last)
        ensures Gathers(Gather(before, capacity, na, fetch, model, last), log, capacity, na, fetch, model, init[i])
      {
        assert init[i] == resources[i] && resources[i] != resources[|init|];
        DistinctKeys(na, init[i], last);
        GatherKeeps(before, log, capacity, na, fetch, model, last, init[i]);
      }
      GatherLeavesOthers(log, capacity, na, fetch, model, init, KeyFor(na, last));
      assert last !in init;
      GatherOneMore(before, log, capacity, na, fetch, model, last);
    }
  }

  /** A tick of the subject that fetches. */
  predicate FetchesFor(e: Event, a: Subject) {
    IsTickOf(e, a) && Fetched(e.tick)
  }

  /** A tick of the subject gathers each of its resources, and nothing else. */
  lemma OwnTick(log: Log, capacity: int, a: Subject, e: Event)
    requires ValidSubject(a) && Steady(e, a) && FetchesFor(e, a)
    ensures var na, fetch, g := e.tick.found.value, e.tick.fetch.value, TickGather(Some(log), capacity, e.tick);
      && (forall i :: 0 <= i < |a.resources| ==> Gathers(g, log, capacity, na, fetch, e.tick.model, a.resources[i]))
      && (forall r :: r in g.forecasts || r in g.history ==> r in a.resources)
  {
    GatherOwn(log, capacity, e.tick.found.value, e.tick.fetch.value, e.tick.model, a.resources);
  }

  /** A tick of another autoscaler leaves the subject's series alone. */
  lemma OtherAutoscaler(log: Log, capacity: int, na: Autoscaler, fetch: FetchResult, model: Option<Model>,
                        resources: seq<ResourceName>, a: Subject, r: ResourceName)
    requires SlashFree(na.namespace) && SlashFree(na.name) && SlashFree(a.namespace) && SlashFree(a.name)
    requires na.namespace != a.namespace || na.name != a.name
    ensures var g := GatherAll(Some(log), capacity, na, fetch, model, resources);
      g.log.Some? && Recorded(g.log.value, SubjectKey(a, r)) == Recorded(log, SubjectKey(a, r))
  {
    forall i | 0 <= i < |resources|
      ensures KeyFor(na, resources[i]) != SubjectKey(a, r)
    {
      HistoryKeyInjective(na.namespace, na.name, NameText(resources[i]), a.namespace, a.name, NameText(r));
    }
    GatherLeavesOthers(log, capacity, na, fetch, model, resources, SubjectKey(a, r));
  }

  /** The samples of a resource of the subject that successful fetches have brought since it
      was last evicted: the latest one of each fetch. */
  function FetchedSince(events: seq<Event>, a: Subject, r: ResourceName): Series {
    if events == [] then [] else
    FetchedAfter(FetchedSince(events[..|events| - 1], a, r), events[|events| - 1], a, r)
  }

  function FetchedAfter(before: Series, e: Event, a: Subject, r: ResourceName): Series {
    if !IsTickOf(e, a) then before
    else if e.tick.found.value.deleting then []
    else if Fetched(e.tick) && r in e.tick.fetch.value.byResource && e.tick.fetch.value.byResource[r] != [] then
      var fetched := e.tick.fetch.value.byResource[r];
      before + [fetched[|fetched| - 1]]
    else before
  }

  /** The metrics-server fetch is what makes a tick steady: whatever pods and records it is
      given, it brings each of the subject's resources one sample, the usage of the target
      pods' records, and that is the sample recorded. */
  lemma MetricsServerIsSteady(before: Series, e: Event, a: Subject, answers: Answers, now: int, r: ResourceName)
    requires ValidSubject(a) && IsTickOf(e, a) && r in a.resources
    requires e.tick.found.value.metrics.source.MetricsServer? && e.tick.found.value.metrics.server.Some?
    requires e.tick.found.value.metrics.server.value.resources == a.resources
    requires FetchYields(answers, a.resources, now, e.tick.fetch)
    ensures Steady(e, a)
    ensures Fetched(e.tick) ==>
              FetchedAfter(before, e, a, r) ==
              before + [Sample(UsageSum(answers.listing.value, NameSet(answers.pods.value), r) as real, now)]
  {
    ListedOnce(a.resources, r);
  }

  /** A tick of the subject that fetches, at one of its keys. */
  lemma OwnTickAtKey(log: Log, capacity: int, a: Subject, e: Event, r: ResourceName)
    requires ValidSubject(a) && Steady(e, a) && FetchesFor(e, a) && r in a.resources
    ensures TickGather(Some(log), capacity, e.tick).log.Some?
    ensures Recorded(TickGather(Some(log), capacity, e.tick).log.value, SubjectKey(a, r))
      == FetchedAfter(Recorded(log, SubjectKey(a, r)), e, a, r)
  {
    OwnTick(log, capacity, a, e);
    var i :| 0 <= i < |a.resources| && a.resources[i] == r;
    assert Gathers(TickGather(Some(log), capacity, e.tick), log, capacity, e.tick.found.value, e.tick.fetch.value,
                   e.tick.model, a.resources[i]);
  }

  /** A tick of another autoscaler, at a key of the subject. */
  lemma OtherTickAtKey(log: Log, capacity: int, a: Subject, e: Event, r: ResourceName)
    requires ValidSubject(a) && Steady(e, a) && e.Reconciled? && Fetched(e.tick) && !IsTickOf(e, a)
    ensures TickGather(Some(log), capacity, e.tick).log.Some?
    ensures Recorded(TickGather(Some(log), capacity, e.tick).log.value, SubjectKey(a, r)) ==
      Recorded(log, SubjectKey(a, r))
  {
    var na, fetch := e.tick.found.value, e.tick.fetch.value;
    OtherAutoscaler(log, capacity, na, fetch, e.tick.model, ResourcesToProcess(na, fetch), a, r);
  }

  /** The log after any event, at a key of the subject. */
  lemma StepAtKey(s: System, capacity: int, e: Event, a: Subject, r: ResourceName)
    requires ValidSubject(a) && Steady(e, a) && r in a.resources
    ensures Recorded(Next(s, capacity, e).log, SubjectKey(a, r)) ==
      FetchedAfter(Recorded(s.log, SubjectKey(a, r)), e, a, r)
  {
    if e.Reconciled? && e.tick.found.Found? {
      var na := e.tick.found.value;
      if na.deleting {
        ExactEviction(s.log, na.namespace, na.name, a.namespace, a.name, NameText(r));
      } else if Fetched(e.tick) {
        if IsTickOf(e, a) {
          OwnTickAtKey(s.log, capacity, a, e, r);
        } else {
          OtherTickAtKey(s.log, capacity, a, e, r);
        }
      }
    }
  }

  const EMPTY := System(map[], map[], map[])

  /** Over every run from an empty store, whatever other autoscalers do: the history records
      for each of the subject's resources exactly the samples fetched since its last
      eviction, in order; so after t successful fetches every buffer holds min(t, capacity)
      samples, and all of them fill on the same tick. */
  lemma {:induction false} BuffersHoldFetched(events: seq<Event>, capacity: int, a: Subject, r: ResourceName)
    requires ValidSubject(a) && r in a.resources
    requires forall j :: 0 <= j < |events| ==> Steady(events[j], a)
    ensures Recorded(Exec(EMPTY, capacity, events).log, SubjectKey(a, r)) == FetchedSince(events, a, r)
    ensures |FetchedSince(events, a, r)| == TicksSinceEviction(events, a)
    decreases |events|
  {
    if events != [] {
      var init := events[..|events| - 1];
      BuffersHoldFetched(init, capacity, a, r);
      StepAtKey(Exec(EMPTY, capacity, init), capacity, events[|events| - 1], a, r);
    }
  }

  /** The series a tick forecasts a resource from: the window of the samples accumulated so far
      for the metrics server, those it has just fetched for Prometheus. */
  function Window(accumulated: Series, capacity: int, tick: Tick, r: ResourceName): Series
    requires Fetched(tick) && r in tick.fetch.value.byResource
  {
    if tick.found.value.metrics.source.MetricsServer? then Last(accumulated, capacity)
      else tick.fetch.value.byResource[r]
  }

  /** The forecaster's answer for that series, asked for when it has at least sixteen samples. */
  function AnswerFor(accumulated: Series, capacity: int, a: Subject, tick: Tick, r: ResourceName): Option<Response>
    requires Fetched(tick) && r in tick.fetch.value.byResource
  {
    var window := Window(accumulated, capacity, tick, r);
    if tick.model.None? || !tick.found.value.forecasting || |window| < 16 then None
    else tick.model.value(SubjectKey(a, r), window)
  }

  /** The tick, for one resource: it has that series, and its forecast is the answer, if any. */
  predicate ReadyAt(g: Gathered, accumulated: Series, capacity: int, a: Subject, tick: Tick, r: ResourceName)
    requires Fetched(tick) && r in tick.fetch.value.byResource
  {
    && r in g.history && g.history[r] == Window(accumulated, capacity, tick, r)
    && AnswerFor(accumulated, capacity, a, tick, r) == if r in g.forecasts then Some(g.forecasts[r]) else None
  }

  lemma ReadyWhenWarm(g: Gathered, log: Log, capacity: int, a: Subject, tick: Tick, r: ResourceName)
    requires Fetched(tick) && tick.found.value.namespace == a.namespace && tick.found.value.name == a.name
    requires r in tick.fetch.value.byResource && tick.fetch.value.byResource[r] != []
    requires Gathers(g, log, capacity, tick.found.value, tick.fetch.value, tick.model, r)
    ensures g.log.Some? && ReadyAt(g, Recorded(g.log.value, SubjectKey(a, r)), capacity, a, tick, r)
  {
  }

  /** What a tick of the subject forecasts. With the metrics server nothing before the 16th
      successful fetch since eviction; from then on, where the history has room, every resource
      at once, from exactly the window of what has been fetched. With Prometheus whenever the
      fetched series is long enough. The forecast is the forecaster's own answer. */
  lemma ForecastsFromTheSixteenth(events: seq<Event>, capacity: int, a: Subject, e: Event)
    requires ValidSubject(a) && capacity > 0
    requires forall j :: 0 <= j < |events| ==> Steady(events[j], a)
    requires Steady(e, a) && FetchesFor(e, a)
    ensures var t := TicksSinceEviction(events + [e], a);
      var g := TickGather(Some(Exec(EMPTY, capacity, events).log), capacity, e.tick);
      && (forall i :: 0 <= i < |a.resources| ==>
            && |FetchedSince(events + [e], a, a.resources[i])| == t
            && ReadyAt(g, FetchedSince(events + [e], a, a.resources[i]), capacity, a, e.tick, a.resources[i]))
      && (e.tick.found.value.metrics.source.MetricsServer? && t < 16 ==> g.forecasts == map[])
  {
    var log := Exec(EMPTY, capacity, events).log;
    var g := TickGather(Some(log), capacity, e.tick);
    assert (events + [e])[..|events|] == events;
    OwnTick(log, capacity, a, e);
    forall i | 0 <= i < |a.resources|
      ensures |FetchedSince(events + [e], a, a.resources[i])| == TicksSinceEviction(events + [e], a)
      ensures ReadyAt(g, FetchedSince(events + [e], a, a.resources[i]), capacity, a, e.tick, a.resources[i])
    {
      BuffersHoldFetched(events, capacity, a, a.resources[i]);
      OwnTickAtKey(log, capacity, a, e, a.resources[i]);
      ReadyWhenWarm(g, log, capacity, a, e.tick, a.resources[i]);
    }
    NoneReady(g, events, capacity, a, e);
  }

  lemma NoneReady(g: Gathered, events: seq<Event>, capacity: int, a: Subject, e: Event)
    requires Steady(e, a) && FetchesFor(e, a)
    requires forall i :: 0 <= i < |a.resources| ==>
      && |FetchedSince(events + [e], a, a.resources[i])| == TicksSinceEviction(events + [e], a)
      && ReadyAt(g, FetchedSince(events + [e], a, a.resources[i]), capacity, a, e.tick, a.resources[i])
    requires forall r :: r in g.forecasts || r in g.history ==> r in a.resources
    ensures e.tick.found.value.metrics.source.MetricsServer? && TicksSinceEviction(events + [e], a) < 16 ==>
      g.forecasts == map[]
  {
  }

  /** A Prometheus autoscaler needs no warm-up: whatever its history, its forecast for a resource
      is the forecaster's answer for this tick's series, if that has sixteen samples. */
  lemma PrometheusForecastsAtOnce(log: Log, capacity: int, a: Subject, e: Event, r: ResourceName)
    requires ValidSubject(a) && Steady(e, a) && FetchesFor(e, a) && r in a.resources
    requires e.tick.found.value.metrics.source.Prometheus?
    ensures r in e.tick.fetch.value.byResource
    ensures var fetched, forecasts := e.tick.fetch.value.byResource[r],
      TickGather(Some(log), capacity, e.tick).forecasts;
      && (r in forecasts <==>
            && |fetched| >= 16 && e.tick.model.Some? && e.tick.found.value.forecasting
            && e.tick.model.value(SubjectKey(a, r), fetched).Some?)
      && (r in forecasts ==> e.tick.model.value(SubjectKey(a, r), fetched) == Some(forecasts[r]))
  {
    OwnTick(log, capacity, a, e);
    var i :| 0 <= i < |a.resources| && a.resources[i] == r;
    assert Gathers(TickGather(Some(log), capacity, e.tick), log, capacity, e.tick.found.value, e.tick.fetch.value,
                   e.tick.model, a.resources[i]);
  }

  /** Hence a metrics-server autoscaler updates no pod before its 16th fetch. */
  lemma NoUpdateBeforeWarm(events: seq<Event>, capacity: int, a: Subject, e: Event)
    requires ValidSubject(a) && capacity > 0
    requires forall j :: 0 <= j < |events| ==> Steady(events[j], a)
    requires Steady(e, a) && IsTickOf(e, a) && e.tick.found.value.metrics.source.MetricsServer?
    requires TicksSinceEviction(events + [e], a) < 16
    ensures var s := Exec(EMPTY, capacity, events);
      EventUpdates(s, capacity, e) == [] && Next(s, capacity, e).pods == s.pods
  {
    if Fetched(e.tick) {
      ForecastsFromTheSixteenth(events, capacity, a, e);
    }
  }
}
