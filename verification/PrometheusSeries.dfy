/** Merging Prometheus streams into one series (internal/metrics/prometheus.go). */
module PrometheusSeries {
  import opened History

  /** Sums two series position by position; the timestamps are those of the first. */
  function AddSeries(base: Series, add: Series): (r: Series)
    requires |base| == |add|
    ensures |r| == |base|
  {
    seq(|base|, i requires 0 <= i < |base| => Sample(base[i].value + add[i].value, base[i].timestamp))
  }

  function Merged(base: Series, add: Series): Series {
    if base == [] then add
    else if add == [] then base
    else if |base| != |add| then add
    else AddSeries(base, add)
  }

  method MergeSeries(base: Series, add: Series) returns (out: Series)
    ensures out == Merged(base, add)
  {
    if |base| == 0 {
      return add;
    }
    if |add| == 0 {
      return base;
    }
    if |base| != |add| {
      return add;
    }
    out := [];
    for i := 0 to |base|
      invariant out == AddSeries(base, add)[..i]
    {
      out := out + [Sample(base[i].value + add[i].value, base[i].timestamp)];
    }
  }

  function MergedAll(matrix: seq<Series>): Series {
    if matrix == [] then [] else Merged(MergedAll(matrix[..|matrix| - 1]), matrix[|matrix| - 1])
  }

  method MatrixToSeries(matrix: seq<Series>) returns (merged: Series)
    ensures merged == MergedAll(matrix)
  {
    if |matrix| == 0 {
      return [];
    }
    merged := [];
    for i := 0 to |matrix|
      invariant merged == MergedAll(matrix[..i])
    {
      assert matrix[..i + 1][..i] == matrix[..i];
      merged := MergeSeries(merged, matrix[i]);
    }
    assert matrix[..|matrix|] == matrix;
  }

  // ---- what the fold computes ------------------------------------------------------------

  function NonEmpty(matrix: seq<Series>): (r: seq<Series>)
    ensures forall i :: 0 <= i < |r| ==> r[i] != []
  {
    if matrix == [] then []
    else NonEmpty(matrix[..|matrix| - 1]) + (if matrix[|matrix| - 1] == [] then [] else [matrix[|matrix| - 1]])
  }

  /** All streams of the list have this length. */
  predicate Uniform(streams: seq<Series>, n: nat) {
    forall i :: 0 <= i < |streams| ==> |streams[i]| == n
  }

  /** The longest run of equally long streams at the end of the list. */
  function LastRun(streams: seq<Series>): (r: seq<Series>)
    ensures streams != [] ==> r != [] && Uniform(r, |streams[|streams| - 1]|)
    ensures |r| <= |streams| && r == streams[|streams| - |r|..]
    ensures |r| < |streams| ==> |streams[|streams| - |r| - 1]| != |streams[|streams| - 1]|
  {
    if |streams| <= 1 then streams else
    var init, last := streams[..|streams| - 1], streams[|streams| - 1];
    if |init[|init| - 1]| == |last| then LastRun(init) + [last] else [last]
  }

  function ColumnSum(streams: seq<Series>, n: nat, i: nat): real
    requires Uniform(streams, n) && i < n
  {
    if streams == [] then 0.0
    else ColumnSum(streams[..|streams| - 1], n, i) + streams[|streams| - 1][i].value
  }

  /** The series is the pointwise sum of the streams, with the first one's timestamps. */
  predicate PointwiseSum(out: Series, streams: seq<Series>) {
    streams != [] && Uniform(streams, |out|) &&
    forall i :: 0 <= i < |out| ==> out[i] == Sample(ColumnSum(streams, |out|, i), streams[0][i].timestamp)
  }

  lemma AddColumn(out: Series, streams: seq<Series>, add: Series)
    requires PointwiseSum(out, streams) && |add| == |out|
    ensures PointwiseSum(AddSeries(out, add), streams + [add])
  {
  }

  /** One more stream: it joins the run when it is as long, and starts a new one otherwise. */
  lemma RunGrows(out: Series, streams: seq<Series>, add: Series)
    requires streams != [] && add != [] && out != [] && PointwiseSum(out, LastRun(streams))
    ensures Merged(out, add) != [] && PointwiseSum(Merged(out, add), LastRun(streams + [add]))
  {
    var all := streams + [add];
    assert all[..|all| - 1] == streams;
    var run := LastRun(streams);
    assert run[0] == streams[|streams| - |run|];
    assert |out| == |run[0]| == |streams[|streams| - 1]|;
    if |out| == |add| {
      AddColumn(out, run, add);
    } else {
      SingleColumn(add);
    }
  }

  /** The fold, for every matrix: it sums the last run of equally long non-empty streams and
      forgets everything before a change of length. */
  lemma {:induction false} FoldSumsLastRun(matrix: seq<Series>)
    ensures NonEmpty(matrix) == [] ==> MergedAll(matrix) == []
    ensures NonEmpty(matrix) != [] ==>
      MergedAll(matrix) != [] && PointwiseSum(MergedAll(matrix), LastRun(NonEmpty(matrix)))
    decreases |matrix|
  {
    if matrix != [] {
      var init, last := matrix[..|matrix| - 1], matrix[|matrix| - 1];
      FoldSumsLastRun(init);
      if last == [] {
        assert NonEmpty(matrix) == NonEmpty(init);
        assert MergedAll(matrix) == MergedAll(init);
      } else {
        assert NonEmpty(matrix) == NonEmpty(init) + [last];
        assert MergedAll(matrix) == Merged(MergedAll(init), last);
        if NonEmpty(init) == [] {
          assert NonEmpty(matrix) == [last] == LastRun([last]);
          SingleColumn(last);
        } else {
          RunGrows(MergedAll(init), NonEmpty(init), last);
        }
      }
    }
  }

  lemma SingleColumn(s: Series)
    ensures PointwiseSum(s, [s])
  {
  }

  /** A matrix whose non-empty streams share a length is summed as a whole. */
  lemma UniformIsSummed(matrix: seq<Series>, n: nat)
    requires NonEmpty(matrix) != [] && Uniform(NonEmpty(matrix), n)
    ensures |MergedAll(matrix)| == n && PointwiseSum(MergedAll(matrix), NonEmpty(matrix))
  {
    var streams := NonEmpty(matrix);
    FoldSumsLastRun(matrix);
    assert |streams[0]| == n;
  }

  /** Hence the merged series is the sum of all non-empty streams exactly when they share
      one length. */
  lemma AllSummedIffUniform(matrix: seq<Series>)
    requires NonEmpty(matrix) != []
    ensures PointwiseSum(MergedAll(matrix), NonEmpty(matrix)) <==>
      forall a, b :: a in NonEmpty(matrix) && b in NonEmpty(matrix) ==> |a| == |b|
  {
    var streams := NonEmpty(matrix);
    if forall a, b :: a in streams && b in streams ==> |a| == |b| {
      forall i | 0 <= i < |streams|
        ensures |streams[i]| == |streams[0]|
      {
        assert streams[i] in streams && streams[0] in streams;
      }
      UniformIsSummed(matrix, |streams[0]|);
    }
  }

  /** Two streams of different lengths: the first is dropped, values and all. */
  lemma EarlierStreamIsDropped(a: Series, b: Series)
    requires a != [] && b != [] && |a| != |b|
    ensures MergedAll([a, b]) == b && !PointwiseSum(MergedAll([a, b]), NonEmpty([a, b]))
  {
    assert [a, b][..1] == [a];
    assert NonEmpty([a, b]) == NonEmpty([a]) + [b] == [a, b];
    AllSummedIffUniform([a, b]);
  }

  function TakeOut(s: seq<Series>, i: nat): seq<Series>
    requires i < |s|
  {
    s[..i] + s[i + 1..]
  }

  lemma {:induction false} ColumnTakeOut(streams: seq<Series>, n: nat, col: nat, i: nat)
    requires Uniform(streams, n) && col < n && i < |streams|
    ensures Uniform(TakeOut(streams, i), n)
    ensures ColumnSum(streams, n, col) == ColumnSum(TakeOut(streams, i), n, col) + streams[i][col].value
    decreases |streams|
  {
    var init, last := streams[..|streams| - 1], streams[|streams| - 1];
    if i == |streams| - 1 {
      assert TakeOut(streams, i) == init;
    } else {
      ColumnTakeOut(init, n, col, i);
      var rest := TakeOut(streams, i);
      assert rest == TakeOut(init, i) + [last];
      assert rest[..|rest| - 1] == TakeOut(init, i);
    }
  }

  lemma TakeOutMultiset(s: seq<Series>, i: nat)
    requires i < |s|
    ensures multiset(TakeOut(s, i)) == multiset(s) - multiset{s[i]}
  {
    assert s == s[..i] + [s[i]] + s[i + 1..];
  }

  lemma Counterpart(a: seq<Series>, b: seq<Series>) returns (i: nat)
    requires multiset(a) == multiset(b) && a != []
    ensures i < |b| && b[i] == a[|a| - 1]
    ensures multiset(a[..|a| - 1]) == multiset(TakeOut(b, i))
  {
    assert a[|a| - 1] in multiset(b);
    i :| 0 <= i < |b| && b[i] == a[|a| - 1];
    TakeOutMultiset(b, i);
    TakeOutMultiset(a, |a| - 1);
    assert TakeOut(a, |a| - 1) == a[..|a| - 1];
  }

  /** The order of the streams does not change a sum. */
  lemma {:induction false} ColumnIgnoresOrder(a: seq<Series>, b: seq<Series>, n: nat, col: nat)
    requires multiset(a) == multiset(b) && Uniform(a, n) && Uniform(b, n) && col < n
    ensures ColumnSum(a, n, col) == ColumnSum(b, n, col)
    decreases |a|
  {
    if a == [] {
      assert |b| == |multiset(b)| == |multiset(a)| == 0;
    } else {
      var i := Counterpart(a, b);
      ColumnTakeOut(b, n, col, i);
      ColumnIgnoresOrder(a[..|a| - 1], TakeOut(b, i), n, col);
    }
  }

  /** For streams that are empty or share one length the merged values do not depend on the
      order in which the streams arrive. */
  lemma MergeIgnoresOrder(a: seq<Series>, b: seq<Series>, n: nat, col: nat)
    requires multiset(NonEmpty(a)) == multiset(NonEmpty(b)) && NonEmpty(a) != [] && NonEmpty(b) != []
    requires Uniform(NonEmpty(a), n) && Uniform(NonEmpty(b), n) && col < n
    ensures |MergedAll(a)| == |MergedAll(b)| == n && MergedAll(a)[col].value == MergedAll(b)[col].value
  {
    UniformIsSummed(a, n);
    UniformIsSummed(b, n);
    ColumnIgnoresOrder(NonEmpty(a), NonEmpty(b), n, col);
  }
}
