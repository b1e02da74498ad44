/** Runs of the history store: what any sequence of operations, and so any interleaving
    of goroutines under the store's mutex, leaves behind for a key. */
module StoreRuns {
  import opened Prelude
  import opened History

  /** The log after a run that starts with an empty store, in lock order. */
  function Run(ops: seq<Op>): Log {
    if ops == [] then map[] else Effect(Run(ops[..|ops| - 1]), ops[|ops| - 1])
  }

  predicate Evicts(op: Op, key: string) {
    match op
    case Delete(k) => k == key
    case DeleteByPrefix(prefix) => prefix <= key
    case _ => false
  }

  /** Every sample the operations append to the key, in order. */
  function Appended(ops: seq<Op>, key: string): Series {
    if ops == [] then [] else
    var last := ops[|ops| - 1];
    Appended(ops[..|ops| - 1], key) + (if last.Append? && last.key == key then [last.sample] else [])
  }

  /** The position just after the last operation that evicted the key. */
  function LiveFrom(ops: seq<Op>, key: string): (n: nat)
    ensures n <= |ops|
    ensures n > 0 ==> Evicts(ops[n - 1], key)
    ensures forall i :: n <= i < |ops| ==> !Evicts(ops[i], key)
  {
    if ops == [] then 0
    else if Evicts(ops[|ops| - 1], key) then |ops|
    else LiveFrom(ops[..|ops| - 1], key)
  }

  /** The specification of the store: the samples appended since the last eviction. */
  function Surviving(ops: seq<Op>, key: string): Series {
    Appended(ops[LiveFrom(ops, key)..], key)
  }

  lemma {:induction false} RunKeepsSurvivors(ops: seq<Op>, key: string)
    ensures Recorded(Run(ops), key) == Surviving(ops, key)
  {
    if ops != [] {
      var init, last, from := ops[..|ops| - 1], ops[|ops| - 1], LiveFrom(ops, key);
      RunKeepsSurvivors(init, key);
      if Evicts(last, key) {
        assert ops[from..] == [];
      } else {
        assert ops[from..][..|ops[from..]| - 1] == init[from..];
      }
    }
  }

  /** One operation on a real store. */
  method ServeOne(store: HistoryStore, op: Op) returns (reply: Series)
    requires store.Valid()
    modifies store.Repr
    ensures store.Valid() && fresh(store.Repr - old(store.Repr)) && store.capacity == old(store.capacity)
    ensures store.log == Effect(old(store.log), op)
    ensures op.Get? ==> reply == Last(Recorded(old(store.log), op.key), store.capacity)
  {
    reply := [];
    match op {
      case Append(key, sample) => store.Append(key, sample.value, sample.timestamp);
      case Delete(key) => store.Delete(key);
      case DeleteByPrefix(prefix) => store.DeleteByPrefix(prefix);
      case Get(key) => reply := store.Get(key);
    }
  }

  /** Every reply to a Get is the window of what survived up to that point. */
  predicate RepliesSurvivors(ops: seq<Op>, replies: seq<Series>, capacity: int) {
    && |replies| == |ops|
    && forall i :: 0 <= i < |ops| && ops[i].Get? ==>
         replies[i] == Last(Surviving(ops[..i], ops[i].key), capacity)
  }

  lemma RepliesExtend(ops: seq<Op>, op: Op, replies: seq<Series>, reply: Series, capacity: int)
    requires RepliesSurvivors(ops, replies, capacity)
    requires op.Get? ==> reply == Last(Surviving(ops, op.key), capacity)
    ensures RepliesSurvivors(ops + [op], replies + [reply], capacity)
    ensures Run(ops + [op]) == Effect(Run(ops), op)
  {
    assert (ops + [op])[..|ops|] == ops;
    forall i | 0 <= i < |ops|
      ensures (ops + [op])[..i] == ops[..i]
    {
    }
  }

  /** Serves a whole run, in lock order, on a real store that starts empty. */
  method Serve(store: HistoryStore, ops: seq<Op>) returns (replies: seq<Series>)
    requires store.Valid() && store.log == map[]
    modifies store.Repr
    ensures store.Valid() && store.log == Run(ops) && store.capacity == old(store.capacity)
    ensures RepliesSurvivors(ops, replies, store.capacity)
  {
    replies := [];
    for i := 0 to |ops|
      invariant store.Valid() && fresh(store.Repr - old(store.Repr))
      invariant store.capacity == old(store.capacity)
      invariant store.log == Run(ops[..i])
      invariant RepliesSurvivors(ops[..i], replies, store.capacity)
    {
      var reply := ServeOne(store, ops[i]);
      if ops[i].Get? {
        RunKeepsSurvivors(ops[..i], ops[i].key);
      }
      RepliesExtend(ops[..i], ops[i], replies, reply, store.capacity);
      assert ops[..i] + [ops[i]] == ops[..i + 1];
      replies := replies + [reply];
    }
    assert ops[..|ops|] == ops;
  }

  // ---- goroutines ------------------------------------------------------------------

  /** One operation and the goroutine whose turn it was. */
  datatype Turn = Turn(routine: nat, op: Op)

  function Ops(turns: seq<Turn>): (ops: seq<Op>)
    ensures |ops| == |turns|
    ensures forall i :: 0 <= i < |turns| ==> ops[i] == turns[i].op
  {
    seq(|turns|, i requires 0 <= i < |turns| => turns[i].op)
  }

  /** The operations of one goroutine, in the order they took effect. */
  function Project(turns: seq<Turn>, routine: nat): seq<Op> {
    if turns == [] then [] else
    var last := turns[|turns| - 1];
    Project(turns[..|turns| - 1], routine) + (if last.routine == routine then [last.op] else [])
  }

  /** `turns` is a schedule of the programs: each goroutine has executed, in order, a
      prefix of its own program. */
  predicate Schedules(turns: seq<Turn>, programs: seq<seq<Op>>) {
    && (forall t :: t in turns ==> t.routine < |programs|)
    && (forall g: nat :: g < |programs| ==> Project(turns, g) <= programs[g])
  }

  /** The samples of a key together with the goroutine that appended each of them. */
  function Attributed(turns: seq<Turn>, key: string): seq<(nat, Sample)> {
    if turns == [] then [] else
    var last := turns[|turns| - 1];
    Attributed(turns[..|turns| - 1], key) +
    (if last.op.Append? && last.op.key == key then [(last.routine, last.op.sample)] else [])
  }

  function Untagged(tagged: seq<(nat, Sample)>): Series {
    seq(|tagged|, i requires 0 <= i < |tagged| => tagged[i].1)
  }

  function OwnedBy(tagged: seq<(nat, Sample)>, routine: nat): Series {
    if tagged == [] then [] else
    var last := tagged[|tagged| - 1];
    OwnedBy(tagged[..|tagged| - 1], routine) + (if last.0 == routine then [last.1] else [])
  }

  lemma {:induction false} AttributedUntagged(turns: seq<Turn>, key: string)
    ensures Untagged(Attributed(turns, key)) == Appended(Ops(turns), key)
  {
    if turns != [] {
      AttributedUntagged(turns[..|turns| - 1], key);
      assert Ops(turns)[..|turns| - 1] == Ops(turns[..|turns| - 1]);
    }
  }

  lemma {:induction false} AttributedOwned(turns: seq<Turn>, key: string, routine: nat)
    ensures OwnedBy(Attributed(turns, key), routine) == Appended(Project(turns, routine), key)
  {
    if turns != [] {
      var init, last := turns[..|turns| - 1], turns[|turns| - 1];
      AttributedOwned(init, key, routine);
      var rest := Attributed(init, key);
      if last.op.Append? && last.op.key == key {
        assert Attributed(turns, key)[..|rest|] == rest;
      } else {
        assert Attributed(turns, key) == rest;
      }
      if last.routine == routine {
        assert Project(turns, routine)[..|Project(init, routine)|] == Project(init, routine);
      } else {
        assert Project(turns, routine) == Project(init, routine);
      }
    }
  }

  lemma {:induction false} ProjectConcat(a: seq<Turn>, b: seq<Turn>, routine: nat)
    ensures Project(a + b, routine) == Project(a, routine) + Project(b, routine)
  {
    if b == [] {
      assert a + b == a;
    } else {
      ProjectConcat(a, b[..|b| - 1], routine);
      assert (a + b)[..|a + b| - 1] == a + b[..|b| - 1];
    }
  }

  lemma {:induction false} AppendedConcat(a: seq<Op>, b: seq<Op>, key: string)
    ensures Appended(a + b, key) == Appended(a, key) + Appended(b, key)
  {
    if b == [] {
      assert a + b == a;
    } else {
      AppendedConcat(a, b[..|b| - 1], key);
      assert (a + b)[..|a + b| - 1] == a + b[..|b| - 1];
    }
  }

  /** A prefix of the turns, and what each goroutine did in it and after it. */
  lemma SplitAt(turns: seq<Turn>, from: nat, key: string, routine: nat)
    requires from <= |turns|
    ensures Appended(Project(turns, routine), key) ==
      Appended(Project(turns[..from], routine), key) + OwnedBy(Attributed(turns[from..], key), routine)
  {
    var dead, live := turns[..from], turns[from..];
    AttributedOwned(live, key, routine);
    ProjectConcat(dead, live, routine);
    assert turns == dead + live;
    AppendedConcat(Project(dead, routine), Project(live, routine), key);
  }

  /** Any schedule of any number of goroutines: what the store holds for a key consists,
      goroutine by goroutine, of the most recent samples that goroutine has appended to
      the key, in the order its program appends them. */
  lemma ProgramOrderSurvives(turns: seq<Turn>, programs: seq<seq<Op>>, key: string, routine: nat)
    requires Schedules(turns, programs) && routine < |programs|
    ensures var from := LiveFrom(Ops(turns), key);
            var done := |Project(turns, routine)|;
      && Recorded(Run(Ops(turns)), key) == Untagged(Attributed(turns[from..], key))
      && done <= |programs[routine]|
      && Appended(programs[routine][..done], key) ==
           Appended(Project(turns[..from], routine), key) + OwnedBy(Attributed(turns[from..], key), routine)
  {
    var from := LiveFrom(Ops(turns), key);
    RunKeepsSurvivors(Ops(turns), key);
    AttributedUntagged(turns[from..], key);
    assert Ops(turns[from..]) == Ops(turns)[from..];
    SplitAt(turns, from, key, routine);
    assert programs[routine][..|Project(turns, routine)|] == Project(turns, routine);
  }
}
