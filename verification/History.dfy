/** The sample history (internal/metrics/history.go): a lazily allocated ring per key,
    and the store that owns one ring for every autoscaler and resource. */
module History {
  import opened Prelude

  const DEFAULT_HISTORY_CAPACITY := 512
  const MIN_FORECAST_SAMPLES := 16

  datatype Sample = Sample(value: real, timestamp: int)
  type Series = seq<Sample>

  function Values(s: Series): (v: seq<real>)
    ensures |v| == |s|
    ensures forall i :: 0 <= i < |s| ==> v[i] == s[i].value
  {
    seq(|s|, i requires 0 <= i < |s| => s[i].value)
  }

  /** The slot `offset` places after `start`, walking round a ring of `capacity` slots. */
  function Slot(start: int, offset: int, capacity: int): int {
    if start + offset < capacity then start + offset else start + offset - capacity
  }

  /** The ring's index arithmetic. */
  method RingIndex(start: int, offset: int, capacity: int) returns (idx: int)
    requires 0 <= start < capacity && 0 <= offset <= capacity
    ensures idx == Slot(start, offset, capacity)
  {
    idx := (start + offset) % capacity;
    ModQuotient((start + offset) / capacity, idx, capacity);
  }

  lemma ModQuotient(k: int, m: int, c: int)
    requires c > 0 && 0 <= m < c && 0 <= k * c + m < 2 * c
    ensures k == if k * c + m < c then 0 else 1
  {
  }

  /** The two slices of a ring, read from `start`, spell `window`. */
  ghost predicate Spells(vs: seq<real>, ts: seq<int>, start: int, window: Series) {
    && |vs| == |ts|
    && 0 <= start < |vs|
    && |window| <= |vs|
    && forall i :: 0 <= i < |window| ==>
         window[i] == Sample(vs[Slot(start, i, |vs|)], ts[Slot(start, i, |vs|)])
  }

  lemma SpellsAppend(vs: seq<real>, ts: seq<int>, start: int, window: Series, x: Sample)
    requires Spells(vs, ts, start, window) && |window| < |vs|
    ensures var at := Slot(start, |window|, |vs|);
            Spells(vs[at := x.value], ts[at := x.timestamp], start, window + [x])
  {
  }

  lemma SpellsOverwrite(vs: seq<real>, ts: seq<int>, start: int, window: Series, x: Sample)
    requires Spells(vs, ts, start, window) && |window| == |vs|
    ensures Spells(vs[start := x.value], ts[start := x.timestamp], Slot(start, 1, |vs|), window[1..] + [x])
  {
  }

  class RingBuffer {
    var values: seq<real>
    var timestamps: seq<int>
    var capacity: int
    var start: int
    var count: int
    ghost var appended: Series      // every sample ever appended, oldest first
    ghost var window: Series        // the samples the ring still holds

    ghost predicate Valid()
      reads this
    {
      && window == Last(appended, capacity)
      && count == |window|
      && (capacity > 0 ==> 0 <= start < capacity)
      && (count < capacity ==> start == 0)
      && (count > 0 ==> |values| == capacity && Spells(values, timestamps, start, window))
    }

    constructor (capacity: int)
      ensures Valid()
      ensures this.capacity == (if capacity <= 0 then 512 else capacity)
      ensures appended == []
    {
      this.capacity := if capacity <= 0 then DEFAULT_HISTORY_CAPACITY else capacity;
      values, timestamps := [], [];
      start, count := 0, 0;
      appended, window := [], [];
    }

    /** Adds a sample; the two slices are only allocated by the first call. */
    method Append(value: real, ts: int)
      requires Valid()
      modifies this
      ensures Valid() && capacity == old(capacity)
      ensures appended == old(appended) + [Sample(value, ts)]
    {
      ghost var x := Sample(value, ts);
      appended := appended + [x];
      if capacity <= 0 {
        return;
      }
      LastSnoc(old(appended), x, capacity);
      if count < capacity {
        if count == 0 {
          values := seq(capacity, _ => 0.0);
          timestamps := seq(capacity, _ => 0);
        }
        SpellsAppend(values, timestamps, start, window, x);
        var idx := RingIndex(start, count, capacity);
        values := values[idx := value];
        timestamps := timestamps[idx := ts];
        window := window + [x];
        count := count + 1;
        return;
      }
      SpellsOverwrite(values, timestamps, start, window, x);
      values := values[start := value];
      timestamps := timestamps[start := ts];
      window := window[1..] + [x];
      start := RingIndex(start, 1, capacity);
    }

    method Len() returns (n: int)
      requires Valid()
      ensures n == |Last(appended, capacity)|
    {
      n := count;
    }

    /** Exactly the last `capacity` samples ever appended, in append order. */
    method Series() returns (series: Series)
      requires Valid()
      ensures series == Last(appended, capacity)
    {
      if count == 0 {
        return [];
      }
      series := [];
      for i := 0 to count
        invariant series == window[..i]
      {
        var idx := RingIndex(start, i, capacity);
        series := series + [Sample(values[idx], timestamps[idx])];
      }
    }
  }

  /** What the store means: for each live key, the samples since its last deletion. */
  type Log = map<string, Series>

  /** The store operations; each runs under the store's mutex, so a run of the program
      by any number of goroutines is a sequence of them. */
  datatype Op =
    | Append(key: string, sample: Sample)
    | Delete(key: string)
    | DeleteByPrefix(prefix: string)
    | Get(key: string)

  function Recorded(log: Log, key: string): Series {
    if key in log then log[key] else []
  }

  function WithSample(log: Log, key: string, sample: Sample): Log {
    log[key := Recorded(log, key) + [sample]]
  }

  function WithLatest(log: Log, key: string, snapshot: Series): Log {
    if snapshot == [] then log else WithSample(log, key, snapshot[|snapshot| - 1])
  }

  function WithoutPrefix(log: Log, prefix: string): Log {
    map key | key in log && !(prefix <= key) :: log[key]
  }

  function Started(log: Log, key: string): Log {
    if key in log then log else log[key := []]
  }

  lemma FirstSample(log: Log, key: string, sample: Sample)
    ensures WithSample(Started(log, key), key, sample) == WithSample(log, key, sample)
  {
  }

  /** Deletion by prefix with the keys in `pending` still to be looked at. */
  function Pruned(log: Log, prefix: string, pending: set<string>): Log {
    map key | key in log && (key in pending || !(prefix <= key)) :: log[key]
  }

  lemma PruneEnds(log: Log, prefix: string)
    ensures Pruned(log, prefix, log.Keys) == log
    ensures Pruned(log, prefix, {}) == WithoutPrefix(log, prefix)
  {
  }

  lemma PruneStep(log: Log, prefix: string, pending: set<string>, key: string)
    requires key in pending
    ensures Pruned(log, prefix, pending - {key}) ==
      if prefix <= key then Pruned(log, prefix, pending) - {key} else Pruned(log, prefix, pending)
  {
  }

  function Effect(log: Log, op: Op): Log {
    match op
    case Append(key, sample) => WithSample(log, key, sample)
    case Delete(key) => log - {key}
    case DeleteByPrefix(prefix) => WithoutPrefix(log, prefix)
    case Get(_) => log
  }

  class HistoryStore {
    var buffers: map<string, RingBuffer>
    var capacity: int
    ghost var log: Log
    ghost var Repr: set<object>

    ghost predicate Valid()
      reads this, Repr
      ensures Valid() ==> this in Repr && capacity > 0
    {
      && this in Repr
      && capacity > 0
      && buffers.Keys == log.Keys
      && (forall k :: k in buffers ==>
            && buffers[k] in Repr
            && buffers[k].Valid()
            && buffers[k].capacity == capacity
            && buffers[k].appended == log[k])
      && (forall j, k :: j in buffers && k in buffers && j != k ==> buffers[j] != buffers[k])
    }

    constructor (capacity: int)
      ensures Valid() && fresh(Repr)
      ensures this.capacity == (if capacity <= 0 then 512 else capacity)
      ensures log == map[]
    {
      this.capacity := if capacity <= 0 then DEFAULT_HISTORY_CAPACITY else capacity;
      buffers := map[];
      log := map[];
      Repr := {this};
    }

    method Append(key: string, value: real, ts: int)
      requires Valid()
      modifies Repr
      ensures Valid() && fresh(Repr - old(Repr)) && capacity == old(capacity)
      ensures log == WithSample(old(log), key, Sample(value, ts))
    {
      FirstSample(log, key, Sample(value, ts));
      var buf := Buffer(key);
      AppendTo(key, buf, value, ts);
    }

    /** The ring for the key, created on first use. */
    method Buffer(key: string) returns (buf: RingBuffer)
      requires Valid()
      modifies this
      ensures Valid() && fresh(Repr - old(Repr)) && capacity == old(capacity)
      ensures key in buffers && buffers[key] == buf
      ensures log == Started(old(log), key)
    {
      if key in buffers {
        return buffers[key];
      }
      buf := new RingBuffer(capacity);
      buffers, log, Repr := buffers[key := buf], log[key := []], Repr + {buf};
    }

    method AppendTo(key: string, buf: RingBuffer, value: real, ts: int)
      requires Valid() && key in buffers && buffers[key] == buf
      modifies this, buf
      ensures Valid() && Repr == old(Repr) && capacity == old(capacity)
      ensures log == WithSample(old(log), key, Sample(value, ts))
    {
      buf.Append(value, ts);
      log := WithSample(log, key, Sample(value, ts));
    }

    /** The last `capacity` samples recorded for the key since its last deletion. */
    method Get(key: string) returns (series: Series)
      requires Valid()
      ensures series == Last(Recorded(log, key), capacity)
    {
      if key !in buffers {
        return [];
      }
      series := buffers[key].Series();
    }

    method Len(key: string) returns (n: int)
      requires Valid()
      ensures n == |Last(Recorded(log, key), capacity)|
    {
      if key !in buffers {
        return 0;
      }
      n := buffers[key].Len();
    }

    method Delete(key: string)
      requires Valid()
      modifies this
      ensures Valid() && Repr == old(Repr) && capacity == old(capacity)
      ensures log == old(log) - {key}
    {
      buffers, log := buffers - {key}, log - {key};
    }

    method DeleteByPrefix(prefix: string)
      requires Valid()
      modifies this
      ensures Valid() && Repr == old(Repr) && capacity == old(capacity)
      ensures log == WithoutPrefix(old(log), prefix)
    {
      var keys := buffers.Keys;
      PruneEnds(log, prefix);
      while keys != {}
        invariant Valid() && Repr == old(Repr) && capacity == old(capacity)
        invariant log == Pruned(old(log), prefix, keys)
        decreases keys
      {
        var key :| key in keys;
        PruneStep(old(log), prefix, keys, key);
        if prefix <= key {
          Delete(key);
        }
        keys := keys - {key};
      }
    }

    method AppendLatest(key: string, snapshot: Series)
      requires Valid()
      modifies Repr
      ensures Valid() && fresh(Repr - old(Repr)) && capacity == old(capacity)
      ensures log == WithLatest(old(log), key, snapshot)
    {
      if |snapshot| == 0 {
        return;
      }
      var last := snapshot[|snapshot| - 1];
      Append(key, last.value, last.timestamp);
    }
  }

  /** The samples a resize floor looks at: the accumulated ones when there are any. */
  function PeakSamples(log: Option<Log>, capacity: int, key: string, fetched: Series): seq<real> {
    var kept := if log.Some? then Last(Recorded(log.value, key), capacity) else [];
    if kept == [] then Values(fetched) else Values(kept)
  }

  /** Which samples those are: without a store, or with nothing stored for the key, the fetched
      ones; otherwise the stored window, whatever was fetched. */
  lemma StoredBeforeFetched(log: Option<Log>, capacity: int, key: string, fetched: Series)
    requires capacity > 0
    ensures log.None? || key !in log.value || log.value[key] == [] ==>
      PeakSamples(log, capacity, key, fetched) == Values(fetched)
    ensures log.Some? && key in log.value && log.value[key] != [] ==>
      PeakSamples(log, capacity, key, fetched) == Values(Last(log.value[key], capacity))
  {
  }

  method RecentPeakSamples(store: HistoryStore?, key: string, fetched: Series) returns (samples: seq<real>)
    requires store != null ==> store.Valid()
    ensures samples == if store == null then Values(fetched)
                       else PeakSamples(Some(store.log), store.capacity, key, fetched)
  {
    if store != null {
      var s := store.Get(key);
      if |s| > 0 {
        return Values(s);
      }
    }
    return Values(fetched);
  }
}
