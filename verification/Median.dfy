/** medianAbsScale (internal/forecast/onnx/chronos2_preprocess.go): an in-place insertion
    sort of the absolute values, and the median read off it. */
module Median {
  import opened Prelude

  // ---- insertion sort ------------------------------------------------------------------

  /** Inserts from the right: larger elements move up by one. */
  function Insert(s: seq<real>, x: real): (r: seq<real>)
    ensures |r| == |s| + 1
  {
    if s == [] || s[|s| - 1] <= x then s + [x]
    else Insert(s[..|s| - 1], x) + [s[|s| - 1]]
  }

  function Sorted(s: seq<real>): (r: seq<real>)
    ensures |r| == |s|
  {
    if s == [] then [] else Insert(Sorted(s[..|s| - 1]), s[|s| - 1])
  }

  method InsertionSort(a: array<real>)
    modifies a
    ensures a[..] == Sorted(old(a[..]))
  {
    if a.Length == 0 {
      return;
    }
    assert a[..1][..0] == [] && Sorted(a[..1]) == a[..1];
    var i := 1;
    while i < a.Length
      invariant 1 <= i <= a.Length
      invariant a[..i] == Sorted(old(a[..i])) && a[i..] == old(a[i..])
    {
      SlideIn(a, i);
      assert old(a[..i + 1])[..i] == old(a[..i]);
      i := i + 1;
    }
    assert a[..i] == a[..];
    assert old(a[..i]) == old(a[..]);
  }

  /** Where insertion puts an element: behind the last one that is not larger. */
  lemma {:induction false} InsertAt(p: seq<real>, cut: nat, x: real)
    requires cut <= |p| && (cut > 0 ==> p[cut - 1] <= x)
    requires forall m :: cut <= m < |p| ==> p[m] > x
    ensures Insert(p, x) == p[..cut] + [x] + p[cut..]
    decreases |p|
  {
    if cut < |p| {
      var init := p[..|p| - 1];
      InsertAt(init, cut, x);
      assert p[..cut] == init[..cut] && p[cut..] == init[cut..] + [p[|p| - 1]];
    }
  }

  /** One round of the sort: element i slides down into the sorted prefix. */
  method SlideIn(a: array<real>, i: int)
    requires 1 <= i < a.Length
    modifies a
    ensures a[..i + 1] == Insert(old(a[..i]), old(a[i])) && a[i + 1..] == old(a[i + 1..])
  {
    ghost var p := a[..i];
    var key := a[i];
    var j := i - 1;
    while j >= 0 && a[j] > key
      invariant -1 <= j < i
      invariant forall m :: 0 <= m <= j ==> a[m] == p[m]
      invariant forall m :: j < m < i ==> p[m] > key
      invariant forall m :: j < m < i ==> a[m + 1] == p[m]
      invariant a[i + 1..] == old(a[i + 1..])
    {
      a[j + 1] := a[j];
      j := j - 1;
    }
    a[j + 1] := key;
    InsertAt(p, j + 1, key);
    Assemble(a[..], p, j + 1, key);
  }

  lemma Assemble(b: seq<real>, p: seq<real>, cut: nat, key: real)
    requires cut <= |p| < |b| && b[cut] == key
    requires forall m :: 0 <= m < cut ==> b[m] == p[m]
    requires forall m :: cut <= m < |p| ==> b[m + 1] == p[m]
    ensures b[..|p| + 1] == p[..cut] + [key] + p[cut..]
  {
  }

  ghost predicate Ordered(s: seq<real>) {
    forall i, j :: 0 <= i <= j < |s| ==> s[i] <= s[j]
  }

  lemma TakeLast(s: seq<real>)
    requires s != []
    ensures multiset(s) == multiset(s[..|s| - 1]) + multiset{s[|s| - 1]}
    ensures multiset(s[..|s| - 1]) == multiset(s) - multiset{s[|s| - 1]}
  {
    assert s == s[..|s| - 1] + [s[|s| - 1]];
  }

  lemma {:induction false} InsertPermutes(s: seq<real>, x: real)
    ensures multiset(Insert(s, x)) == multiset(s) + multiset{x}
    decreases |s|
  {
    if s != [] && s[|s| - 1] > x {
      InsertPermutes(s[..|s| - 1], x);
      TakeLast(s);
    }
  }

  /** Nothing in the result exceeds what bounds both the list and the new element. */
  lemma {:induction false} InsertBounded(s: seq<real>, x: real, top: real)
    requires x <= top && forall i :: 0 <= i < |s| ==> s[i] <= top
    ensures forall i :: 0 <= i <= |s| ==> Insert(s, x)[i] <= top
    decreases |s|
  {
    if s != [] && s[|s| - 1] > x {
      InsertBounded(s[..|s| - 1], x, top);
    }
  }

  lemma {:induction false} InsertSorted(s: seq<real>, x: real)
    requires Ordered(s)
    ensures Ordered(Insert(s, x))
    decreases |s|
  {
    if s != [] && s[|s| - 1] > x {
      InsertSorted(s[..|s| - 1], x);
      InsertBounded(s[..|s| - 1], x, s[|s| - 1]);
    }
  }

  /** The sort returns an ordered permutation of its input. */
  lemma {:induction false} SortedIsOrderedPermutation(s: seq<real>)
    ensures Ordered(Sorted(s)) && multiset(Sorted(s)) == multiset(s)
    decreases |s|
  {
    if s != [] {
      SortedIsOrderedPermutation(s[..|s| - 1]);
      InsertSorted(Sorted(s[..|s| - 1]), s[|s| - 1]);
      InsertPermutes(Sorted(s[..|s| - 1]), s[|s| - 1]);
      TakeLast(s);
    }
  }

  /** There is only one ordered arrangement of a multiset. */
  lemma {:induction false} OrderedUnique(a: seq<real>, b: seq<real>)
    requires Ordered(a) && Ordered(b) && multiset(a) == multiset(b)
    ensures a == b
    decreases |a|
  {
    assert |a| == |multiset(a)| == |multiset(b)| == |b|;
    if a != [] {
      var n := |a| - 1;
      assert a[n] in multiset(b) && b[n] in multiset(a);
      assert a[n] == b[n];
      TakeLast(a);
      TakeLast(b);
      OrderedUnique(a[..n], b[..n]);
    }
  }

  // ---- the median ----------------------------------------------------------------------

  function AbsAll(s: seq<real>): (r: seq<real>)
    ensures |r| == |s| && forall i :: 0 <= i < |s| ==> r[i] == AbsReal(s[i])
  {
    seq(|s|, i requires 0 <= i < |s| => AbsReal(s[i]))
  }

  function Middle(s: seq<real>): real
    requires s != []
  {
    var mid := |s| / 2;
    if |s| % 2 == 0 then (s[mid - 1] + s[mid]) / 2.0 else s[mid]
  }

  function MedianAbs(values: seq<real>): real {
    if values == [] then 1.0 else Middle(Sorted(AbsAll(values)))
  }

  method MedianAbsScale(values: seq<real>) returns (m: real)
    ensures m == MedianAbs(values)
  {
    if |values| == 0 {
      return 1.0;
    }
    var abs := new real[|values|];
    for i := 0 to |values|
      invariant abs[..i] == AbsAll(values)[..i]
    {
      abs[i] := AbsReal(values[i]);
    }
    assert abs[..] == AbsAll(values);
    InsertionSort(abs);
    var mid := abs.Length / 2;
    if abs.Length % 2 == 0 {
      return (abs[mid - 1] + abs[mid]) / 2.0;
    }
    return abs[mid];
  }

  function AtMost(s: seq<real>, m: real): nat {
    if s == [] then 0 else AtMost(s[..|s| - 1], m) + (if s[|s| - 1] <= m then 1 else 0)
  }

  function AtLeast(s: seq<real>, m: real): nat {
    if s == [] then 0 else AtLeast(s[..|s| - 1], m) + (if s[|s| - 1] >= m then 1 else 0)
  }

  /** Half of the values are at most m, and half are at least m. */
  predicate IsMedian(s: seq<real>, m: real) {
    2 * AtMost(s, m) >= |s| && 2 * AtLeast(s, m) >= |s|
  }

  lemma {:induction false} InsertCounts(s: seq<real>, x: real, m: real)
    ensures AtMost(Insert(s, x), m) == AtMost(s, m) + (if x <= m then 1 else 0)
    ensures AtLeast(Insert(s, x), m) == AtLeast(s, m) + (if x >= m then 1 else 0)
    decreases |s|
  {
    if s == [] || s[|s| - 1] <= x {
      assert (s + [x])[..|s|] == s;
    } else {
      var below := Insert(s[..|s| - 1], x);
      InsertCounts(s[..|s| - 1], x, m);
      assert (below + [s[|s| - 1]])[..|below|] == below;
    }
  }

  lemma {:induction false} SortedCounts(s: seq<real>, m: real)
    ensures AtMost(Sorted(s), m) == AtMost(s, m) && AtLeast(Sorted(s), m) == AtLeast(s, m)
    decreases |s|
  {
    if s != [] {
      SortedCounts(s[..|s| - 1], m);
      InsertCounts(Sorted(s[..|s| - 1]), s[|s| - 1], m);
    }
  }

  /** In an ordered list, the elements up to a position are at most anything not below it,
      and those from a position on are at least anything not above it. */
  lemma {:induction false} OrderedCounts(s: seq<real>, k: nat, m: real)
    requires Ordered(s) && k < |s|
    ensures s[k] <= m ==> AtMost(s, m) >= k + 1
    ensures m <= s[k] ==> AtLeast(s, m) >= |s| - k
    decreases |s|
  {
    var init := s[..|s| - 1];
    if k < |s| - 1 {
      OrderedCounts(init, k, m);
    } else if k > 0 {
      OrderedCounts(init, k - 1, m);
    }
  }

  /** In an ordered list few elements are at most something below a position, and few are at
      least something above it. */
  lemma {:induction false} OrderedCountsFew(s: seq<real>, k: nat, m: real)
    requires Ordered(s) && k < |s|
    ensures m < s[k] ==> AtMost(s, m) <= k
    ensures s[k] < m ==> AtLeast(s, m) < |s| - k
    decreases |s|
  {
    var init := s[..|s| - 1];
    if k < |s| - 1 {
      OrderedCountsFew(init, k, m);
    } else {
      CountsFit(init, m);
      if k > 0 {
        OrderedCountsFew(init, k - 1, m);
      }
    }
  }

  lemma {:induction false} CountsFit(s: seq<real>, m: real)
    ensures AtMost(s, m) <= |s| && AtLeast(s, m) <= |s|
    decreases |s|
  {
    if s != [] {
      CountsFit(s[..|s| - 1], m);
    }
  }

  /** The medians of a list are exactly what lies between its two middle elements, which are
      one and the same for odd lengths. */
  lemma MediansBetween(values: seq<real>, m: real)
    requires values != []
    ensures var s, n := Sorted(values), |values|;
      IsMedian(values, m) <==> s[(n - 1) / 2] <= m <= s[n / 2]
  {
    var s, n := Sorted(values), |values|;
    SortedIsOrderedPermutation(values);
    SortedCounts(values, m);
    OrderedCounts(s, (n - 1) / 2, m);
    OrderedCounts(s, n / 2, m);
    OrderedCountsFew(s, (n - 1) / 2, m);
    OrderedCountsFew(s, n / 2, m);
  }

  /** The scale is the midpoint of all medians of the absolute values: they lie symmetrically
      around it. */
  lemma MedianIsMidpoint(values: seq<real>, d: real)
    requires values != []
    ensures IsMedian(AbsAll(values), MedianAbs(values) - d) <==> IsMedian(AbsAll(values), MedianAbs(values) + d)
  {
    MediansBetween(AbsAll(values), MedianAbs(values) - d);
    MediansBetween(AbsAll(values), MedianAbs(values) + d);
  }

  /** The scale is the true median of the absolute values, for odd and even lengths, and it
      is not negative. */
  lemma MedianIsMedian(values: seq<real>)
    requires values != []
    ensures IsMedian(AbsAll(values), MedianAbs(values)) && MedianAbs(values) >= 0.0
  {
    var abs := AbsAll(values);
    var s, m, mid := Sorted(abs), MedianAbs(values), |values| / 2;
    SortedIsOrderedPermutation(abs);
    SortedCounts(abs, m);
    forall i | 0 <= i < |s|
      ensures s[i] >= 0.0
    {
      assert s[i] in multiset(abs);
    }
    OrderedCounts(s, mid, m);
    if |s| % 2 == 0 {
      OrderedCounts(s, mid - 1, m);
    }
  }

  lemma CountLast(s: seq<real>, y: real)
    requires s != []
    ensures multiset(s)[y] == multiset(s[..|s| - 1])[y] + (if s[|s| - 1] == y then 1 else 0)
  {
    TakeLast(s);
  }

  /** How often a value occurs among the absolute values. */
  lemma {:induction false} AbsAllCounts(s: seq<real>, y: real)
    ensures multiset(AbsAll(s))[y] ==
      if y < 0.0 then 0 else multiset(s)[y] + (if y > 0.0 then multiset(s)[-y] else 0)
    decreases |s|
  {
    if s != [] {
      AbsAllCounts(s[..|s| - 1], y);
      CountLast(s, y);
      CountLast(s, -y);
      CountLast(AbsAll(s), y);
      assert AbsAll(s)[..|s| - 1] == AbsAll(s[..|s| - 1]);
    }
  }

  lemma AbsAllPermutes(v: seq<real>, w: seq<real>)
    requires multiset(v) == multiset(w)
    ensures multiset(AbsAll(v)) == multiset(AbsAll(w))
  {
    forall y: real
      ensures multiset(AbsAll(v))[y] == multiset(AbsAll(w))[y]
    {
      AbsAllCounts(v, y);
      AbsAllCounts(w, y);
    }
  }

  /** The order of the window does not matter. */
  lemma MedianIgnoresOrder(v: seq<real>, w: seq<real>)
    requires multiset(v) == multiset(w)
    ensures MedianAbs(v) == MedianAbs(w)
  {
    assert |v| == |multiset(v)| == |multiset(w)| == |w|;
    AbsAllPermutes(v, w);
    SortedIsOrderedPermutation(AbsAll(v));
    SortedIsOrderedPermutation(AbsAll(w));
    OrderedUnique(Sorted(AbsAll(v)), Sorted(AbsAll(w)));
  }

  // ---- scaling -------------------------------------------------------------------------

  function Times(k: real, x: real): real {
    k * x
  }

  function ScaleAll(s: seq<real>, k: real): (r: seq<real>)
    ensures |r| == |s| && forall i :: 0 <= i < |s| ==> r[i] == Times(k, s[i])
  {
    seq(|s|, i requires 0 <= i < |s| => Times(k, s[i]))
  }

  lemma TimesKeepsOrder(x: real, y: real, k: real)
    requires k > 0.0
    ensures x <= y <==> Times(k, x) <= Times(k, y)
  {
  }

  lemma AbsTimes(x: real, k: real)
    requires k > 0.0
    ensures AbsReal(Times(k, x)) == Times(k, AbsReal(x))
  {
  }

  lemma {:induction false} InsertScales(s: seq<real>, x: real, k: real)
    requires k > 0.0
    ensures Insert(ScaleAll(s, k), Times(k, x)) == ScaleAll(Insert(s, x), k)
    decreases |s|
  {
    if s != [] {
      var init, last := s[..|s| - 1], s[|s| - 1];
      TimesKeepsOrder(last, x, k);
      assert ScaleAll(s, k)[..|s| - 1] == ScaleAll(init, k);
      if last > x {
        InsertScales(init, x, k);
      }
    }
  }

  lemma {:induction false} SortedScales(s: seq<real>, k: real)
    requires k > 0.0
    ensures Sorted(ScaleAll(s, k)) == ScaleAll(Sorted(s), k)
    decreases |s|
  {
    if s != [] {
      var init := s[..|s| - 1];
      assert ScaleAll(s, k)[..|s| - 1] == ScaleAll(init, k);
      SortedScales(init, k);
      InsertScales(Sorted(init), s[|s| - 1], k);
    }
  }

  lemma AbsAllScales(values: seq<real>, k: real)
    requires k > 0.0
    ensures AbsAll(ScaleAll(values, k)) == ScaleAll(AbsAll(values), k)
  {
    forall i | 0 <= i < |values|
      ensures AbsAll(ScaleAll(values, k))[i] == ScaleAll(AbsAll(values), k)[i]
    {
      AbsTimes(values[i], k);
    }
  }

  lemma MiddleScales(s: seq<real>, k: real)
    requires s != []
    ensures Middle(ScaleAll(s, k)) == Times(k, Middle(s))
  {
  }

  /** The median scales with the window, as long as there is one. */
  lemma MedianScales(values: seq<real>, k: real)
    requires k > 0.0 && values != []
    ensures MedianAbs(ScaleAll(values, k)) == Times(k, MedianAbs(values))
  {
    AbsAllScales(values, k);
    SortedScales(AbsAll(values), k);
    MiddleScales(Sorted(AbsAll(values)), k);
  }
}
