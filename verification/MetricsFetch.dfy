/** Aggregating metrics: the metrics-server fetch loop (internal/metrics/metrics_server.go)
    and the validation that makes its totals exact
    (api/v1alpha1/metrics_source_validation.go). */
module MetricsFetch {
  import opened Prelude
  import opened History
  import opened ResizeApi
  import opened Controller

  /** One pod metrics record, its containers already summed. */
  datatype PodMetric = PodMetric(name: string, cpuMillicores: int, memoryBytes: int)

  predicate Supported(r: ResourceName) {
    r == CPU || r == MEMORY
  }

  method ValidateResourceMetrics(resources: seq<ResourceName>) returns (r: Result<(), string>)
    ensures r.Ok? <==> NoDuplicates(resources) && forall x :: x in resources ==> x == CPU || x == MEMORY
  {
    var seen: set<ResourceName> := {};
    for i := 0 to |resources|
      invariant forall x :: x in seen <==> x in resources[..i]
      invariant NoDuplicates(resources[..i]) && forall x :: x in resources[..i] ==> x == CPU || x == MEMORY
    {
      var x := resources[i];
      assert x in resources;
      if x != CPU && x != MEMORY {
        return Err("unsupported resource " + NameText(x));
      }
      if x in seen {
        assert x in resources[..i];
        return Err("duplicate resource " + NameText(x));
      }
      seen := seen + {x};
    }
    assert resources[..|resources|] == resources;
    return Ok(());
  }

  function Usage(item: PodMetric, r: ResourceName): int {
    if r == CPU then item.cpuMillicores else if r == MEMORY then item.memoryBytes else 0
  }

  /** Total usage of a resource over the records of the target pods. */
  function UsageSum(items: seq<PodMetric>, names: set<string>, r: ResourceName): int {
    if items == [] then 0 else
    var last := items[|items| - 1];
    UsageSum(items[..|items| - 1], names, r) + (if last.name in names then Usage(last, r) else 0)
  }

  function Matched(items: seq<PodMetric>, names: set<string>): nat {
    if items == [] then 0
    else Matched(items[..|items| - 1], names) + (if items[|items| - 1].name in names then 1 else 0)
  }

  /** How often a resource is listed. */
  function Listings(resources: seq<ResourceName>, r: ResourceName): nat {
    if resources == [] then 0
    else Listings(resources[..|resources| - 1], r) + (if resources[|resources| - 1] == r then 1 else 0)
  }

  /** One record added to every listed total: a resource listed twice is added twice. */
  method AddRecord(totals: map<ResourceName, int>, item: PodMetric, resources: seq<ResourceName>)
    returns (r: Result<map<ResourceName, int>, string>)
    requires forall i :: 0 <= i < |resources| ==> resources[i] in totals
    ensures r.Ok? <==> forall i :: 0 <= i < |resources| ==> Supported(resources[i])
    ensures r.Ok? ==>
      && r.value.Keys == totals.Keys
      && forall x :: x in totals ==> r.value[x] == totals[x] + Listings(resources, x) * Usage(item, x)
  {
    var out := totals;
    for i := 0 to |resources|
      invariant out.Keys == totals.Keys
      invariant forall j :: 0 <= j < i ==> Supported(resources[j])
      invariant forall x :: x in totals ==> out[x] == totals[x] + Listings(resources[..i], x) * Usage(item, x)
    {
      assert resources[..i + 1][..i] == resources[..i];
      var metric := resources[i];
      if metric == CPU {
        OneMore(Listings(resources[..i], metric), item.cpuMillicores);
        out := out[metric := out[metric] + item.cpuMillicores];
      } else if metric == MEMORY {
        OneMore(Listings(resources[..i], metric), item.memoryBytes);
        out := out[metric := out[metric] + item.memoryBytes];
      } else {
        return Err("unsupported metric " + NameText(metric));
      }
    }
    assert resources[..|resources|] == resources;
    return Ok(out);
  }

  lemma OneMore(n: int, u: int)
    ensures (n + 1) * u == n * u + u
  {
  }

  function NameSet(podNames: seq<string>): set<string> {
    set n | n in podNames
  }

  /** The answers a fetch gets: the pods of the target, and the metrics records of the
      namespace. */
  datatype Answers = Answers(pods: Result<seq<string>, string>, listing: Result<seq<PodMetric>, string>)

  predicate FetchFails(answers: Answers, resources: seq<ResourceName>) {
    || answers.pods.Err? || answers.pods.value == []
    || answers.listing.Err? || Matched(answers.listing.value, NameSet(answers.pods.value)) == 0
    || exists i :: 0 <= i < |resources| && !Supported(resources[i])
  }

  /** A fetch result: one sample per listed resource, whose value is the usage of all matched
      records, counted once per listing; the records of other pods are ignored. */
  ghost predicate Totals(result: FetchResult, podNames: seq<string>, items: seq<PodMetric>,
                         resources: seq<ResourceName>, now: int) {
    && result.podNames == podNames
    && (forall x :: x in result.byResource <==> x in resources)
    && forall x :: x in resources ==>
         result.byResource[x] == [Sample((Listings(resources, x) * UsageSum(items, NameSet(podNames), x)) as real, now)]
  }

  ghost predicate FetchYields(answers: Answers, resources: seq<ResourceName>, now: int, r: Result<FetchResult, string>)
  {
    && (r.Err? <==> FetchFails(answers, resources))
    && (r.Ok? ==> Totals(r.value, answers.pods.value, answers.listing.value, resources, now))
  }

  method Fetch(answers: Answers, resources: seq<ResourceName>, now: int) returns (r: Result<FetchResult, string>)
    ensures FetchYields(answers, resources, now, r)
  {
    if answers.pods.Err? {
      return Err(answers.pods.error);
    }
    if |answers.pods.value| == 0 {
      return Err("no pods found");
    }
    if answers.listing.Err? {
      return Err("list pod metrics: " + answers.listing.error);
    }
    r := Aggregate(answers.pods.value, answers.listing.value, resources, now);
  }

  /** The loop over the records. */
  method Aggregate(podNames: seq<string>, items: seq<PodMetric>, resources: seq<ResourceName>, now: int)
    returns (r: Result<FetchResult, string>)
    requires podNames != []
    ensures FetchYields(Answers(Ok(podNames), Ok(items)), resources, now, r)
  {
    var names := NameSet(podNames);
    var totals: map<ResourceName, int> := map r | r in resources :: 0;
    var matched := 0;
    for i := 0 to |items|
      invariant totals.Keys == set x | x in resources
      invariant matched == Matched(items[..i], names)
      invariant matched > 0 ==> forall j :: 0 <= j < |resources| ==> Supported(resources[j])
      invariant forall x :: x in totals ==> totals[x] == Listings(resources, x) * UsageSum(items[..i], names, x)
    {
      assert items[..i + 1][..i] == items[..i];
      if items[i].name in names {
        var added := AddRecord(totals, items[i], resources);
        MatchedGrows(items, names, i);
        if added.Err? {
          return Err(added.error);
        }
        forall x | x in totals
          ensures added.value[x] == Listings(resources, x) * UsageSum(items[..i + 1], names, x)
        {
          Distribute(Listings(resources, x), UsageSum(items[..i], names, x), Usage(items[i], x));
        }
        totals := added.value;
        matched := matched + 1;
      }
    }
    assert items[..|items|] == items;
    if matched == 0 {
      return Err("metrics-server returned no pod metrics");
    }
    return Ok(FetchResult(map x | x in totals :: [Sample(totals[x] as real, now)], podNames));
  }

  lemma Distribute(n: int, a: int, b: int)
    ensures n * (a + b) == n * a + n * b
  {
  }

  lemma {:induction false} MatchedGrows(items: seq<PodMetric>, names: set<string>, i: nat)
    requires i < |items| && items[i].name in names
    ensures Matched(items, names) > 0
    decreases |items|
  {
    if i < |items| - 1 {
      MatchedGrows(items[..|items| - 1], names, i);
    }
  }

  /** A list without duplicates counts every record exactly once. */
  lemma {:induction false} ListedOnce(resources: seq<ResourceName>, r: ResourceName)
    requires NoDuplicates(resources)
    ensures Listings(resources, r) == if r in resources then 1 else 0
    decreases |resources|
  {
    if resources != [] {
      var init, last := resources[..|resources| - 1], resources[|resources| - 1];
      ListedOnce(init, r);
      assert resources == init + [last];
      assert r in resources <==> r in init || r == last;
      forall i | 0 <= i < |init|
        ensures init[i] != last
      {
        assert resources[i] != resources[|init|];
      }
    }
  }

  /** The totals of an accepted resource list are exact for every set of records; and only
      an accepted list is: a resource listed twice doubles a total that is not zero. */
  lemma TotalsExact(resources: seq<ResourceName>, items: seq<PodMetric>, names: set<string>, r: ResourceName)
    requires r in resources
    ensures NoDuplicates(resources) ==>
      Listings(resources, r) * UsageSum(items, names, r) == UsageSum(items, names, r)
    ensures Listings(resources, r) * UsageSum(items, names, r) == UsageSum(items, names, r) <==>
      Listings(resources, r) == 1 || UsageSum(items, names, r) == 0
  {
    if NoDuplicates(resources) {
      ListedOnce(resources, r);
    }
    var n, u := Listings(resources, r), UsageSum(items, names, r);
    Distribute(u, n, -1);
    if n != 1 && u != 0 {
      assert u * (n - 1) != 0;
    }
  }

  /** What a total is made of, one record after the other: the usage of the records that are
      named, and nothing of the others. */
  lemma UsageOfNamed(items: seq<PodMetric>, item: PodMetric, names: set<string>)
    ensures UsageSum([], names, CPU) == 0 && UsageSum([], names, MEMORY) == 0
    ensures UsageSum(items + [item], names, CPU) ==
      UsageSum(items, names, CPU) + if item.name in names then item.cpuMillicores else 0
    ensures UsageSum(items + [item], names, MEMORY) ==
      UsageSum(items, names, MEMORY) + if item.name in names then item.memoryBytes else 0
  {
    assert (items + [item])[..|items|] == items;
  }

  lemma {:induction false} MatchedIsNamed(items: seq<PodMetric>, names: set<string>)
    ensures Matched(items, names) == 0 <==> forall item :: item in items ==> item.name !in names
    decreases |items|
  {
    if items != [] {
      var init, last := items[..|items| - 1], items[|items| - 1];
      MatchedIsNamed(init, names);
      assert items == init + [last];
    }
  }

  /** When a fetch fails, in terms of the answers it gets. */
  lemma FetchFailsWhen(answers: Answers, resources: seq<ResourceName>)
    ensures FetchFails(answers, resources) <==>
      || answers.pods.Err? || answers.pods.value == []
      || answers.listing.Err? || (forall item :: item in answers.listing.value ==> item.name !in answers.pods.value)
      || exists x :: x in resources && x != CPU && x != MEMORY
  {
    if answers.pods.Ok? && answers.listing.Ok? {
      MatchedIsNamed(answers.listing.value, NameSet(answers.pods.value));
    }
    if exists x :: x in resources && x != CPU && x != MEMORY {
      var x :| x in resources && x != CPU && x != MEMORY;
      var i :| 0 <= i < |resources| && resources[i] == x;
      assert !Supported(resources[i]);
    } else {
      assert forall i :: 0 <= i < |resources| ==> resources[i] in resources && Supported(resources[i]);
    }
  }
}
