/** Small vocabulary shared by every module of the model. */
module Prelude {

  datatype Option<+T> = None | Some(value: T) {
    function GetOr(default: T): T {
      if None? then default else value
    }
  }

  datatype Result<+T, +E> = Ok(value: T) | Err(error: E)

  /** The last `n` elements of `s`, or all of them when there are fewer. */
  function Last<T>(s: seq<T>, n: int): (r: seq<T>)
    ensures |r| == if n <= 0 then 0 else if |s| < n then |s| else n
  {
    if n <= 0 then [] else if |s| <= n then s else s[|s| - n..]
  }

  /** A window is maintained by appending and, once it is full, dropping the oldest. */
  lemma LastSnoc<T>(s: seq<T>, x: T, n: int)
    requires n > 0
    ensures Last(s + [x], n) == if |s| < n then Last(s, n) + [x] else Last(s, n)[1..] + [x]
  {
  }

  /** math.Ceil on exact reals, as the integer it denotes. */
  function Ceil(x: real): (n: int)
    ensures (n as real) - 1.0 < x <= n as real
  {
    -(-x).Floor
  }

  lemma CeilLeast(x: real, n: int)
    ensures Ceil(x) <= n <==> x <= n as real
  {
  }

  lemma CeilMonotone(x: real, y: real)
    requires x <= y
    ensures Ceil(x) <= Ceil(y)
  {
  }

  function Abs(x: int): nat {
    if x < 0 then -x else x
  }

  function AbsReal(x: real): (r: real)
    ensures r >= 0.0
  {
    if x < 0.0 then -x else x
  }

  function Max(x: int, y: int): int {
    if x < y then y else x
  }

  function Min(x: int, y: int): int {
    if x < y then x else y
  }

  function MaxReal(x: real, y: real): real {
    if x < y then y else x
  }

  function Pow(base: int, exp: nat): int {
    if exp == 0 then 1 else base * Pow(base, exp - 1)
  }

  predicate NoDuplicates<T(==)>(s: seq<T>) {
    forall i, j :: 0 <= i < j < |s| ==> s[i] != s[j]
  }

  /** The greatest of `floor` and all elements of `s`: what every peak loop of the
      program computes, starting its accumulator at zero. */
  function PeakFrom(floor: real, s: seq<real>): (peak: real)
    ensures floor <= peak
    ensures forall i :: 0 <= i < |s| ==> s[i] <= peak
    ensures peak == floor || peak in s
  {
    if s == [] then floor
    else MaxReal(PeakFrom(floor, s[..|s| - 1]), s[|s| - 1])
  }

  lemma {:induction false} PeakFromAppend(floor: real, s: seq<real>, t: seq<real>)
    ensures PeakFrom(floor, s + t) == PeakFrom(PeakFrom(floor, s), t)
    decreases |t|
  {
    if t == [] {
      assert s + t == s;
    } else {
      var init := t[..|t| - 1];
      PeakFromAppend(floor, s, init);
      assert (s + t)[..|s + t| - 1] == s + init;
    }
  }
}
