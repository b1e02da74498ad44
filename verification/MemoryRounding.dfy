/** normalizeMemoryQuantity: rounding a memory quantity up to whole Ki, Mi or Gi,
    with the 64-bit wrap-around of the rounding addition made explicit. */
module MemoryRounding {
  import opened ResizeApi

  const KI := 1024
  const MI := 1024 * 1024
  const GI := 1024 * 1024 * 1024
  const TWO63 := 0x8000_0000_0000_0000
  const TWO64 := 0x1_0000_0000_0000_0000

  function WrapInt64(x: int): int {
    (x + TWO63) % TWO64 - TWO63
  }

  /** Go's integer division, which truncates toward zero. */
  function TruncDiv(a: int, b: int): int
    requires b > 0
  {
    if a >= 0 then a / b else -((-a) / b)
  }

  /** Quantity.Value: whole units, rounded up, as an int64. */
  function Value(q: Quantity): int {
    WrapInt64((q + 999) / 1000)
  }

  function UnitFor(bytes: int): (unit: int)
    ensures unit > 0
  {
    if bytes >= GI then GI else if bytes >= MI then MI else if bytes >= KI then KI else 1
  }

  /** The unit by magnitude: Gi from 1Gi, Mi from 1Mi, Ki from 1Ki, and single bytes below. */
  lemma UnitByMagnitude(bytes: int)
    ensures bytes >= 1073741824 ==> UnitFor(bytes) == 1073741824
    ensures 1048576 <= bytes < 1073741824 ==> UnitFor(bytes) == 1048576
    ensures 1024 <= bytes < 1048576 ==> UnitFor(bytes) == 1024
    ensures bytes < 1024 ==> UnitFor(bytes) == 1
  {
  }

  function NormalizeMemoryQuantity(q: Quantity): Quantity {
    var bytes := Value(q);
    if bytes <= 0 || bytes < KI then q else
    var unit := UnitFor(bytes);
    var whole := TruncDiv(WrapInt64(bytes + unit - 1), unit);
    var normalized := whole * unit * 1000;
    if normalized < q then q else normalized
  }

  /** Rounding up mathematically: the least multiple of `unit` that is at least `bytes`. */
  function RoundUp(bytes: int, unit: int): int
    requires unit > 0
  {
    (bytes + unit - 1) / unit * unit
  }

  lemma RoundUpIsLeast(bytes: int, unit: int)
    requires unit > 0
    ensures bytes <= RoundUp(bytes, unit) < bytes + unit
    ensures exists k :: RoundUp(bytes, unit) == k * unit
    ensures forall m: int :: bytes <= m * unit ==> RoundUp(bytes, unit) <= m * unit
  {
    var k := (bytes + unit - 1) / unit;
    assert k * unit <= bytes + unit - 1 < k * unit + unit;
    forall m: int
      ensures bytes <= m * unit ==> k * unit <= m * unit
    {
      if m < k {
        MulOrder(m, k - 1, unit);
      } else {
        MulOrder(k, m, unit);
      }
    }
  }

  lemma MulOrder(x: int, y: int, unit: int)
    requires x <= y && unit > 0
    ensures x * unit <= y * unit
  {
  }

  /** Truncated division, times its divisor, stays between zero and the dividend. */
  lemma TruncDivTimes(a: int, unit: int)
    requires unit > 0
    ensures a >= 0 ==> 0 <= TruncDiv(a, unit) * unit <= a
    ensures a <= 0 ==> a <= TruncDiv(a, unit) * unit <= 0
  {
  }

  /** The rounding addition stays inside an int64. */
  predicate NoOverflow(bytes: int) {
    bytes + UnitFor(bytes) - 1 < TWO63
  }

  /** Bytes in a non-negative quantity, before the conversion to int64. */
  function Bytes(q: Quantity): int {
    (q + 999) / 1000
  }

  /** What the code computes for every non-negative quantity, the wrap-around included:
      rounding where the addition fits an int64, and the input itself everywhere else,
      because the guard on the parsed result catches every wrapped value. */
  lemma RoundedOrKept(q: Quantity)
    requires q >= 0
    ensures NormalizeMemoryQuantity(q) ==
      if KI <= Bytes(q) && NoOverflow(Bytes(q)) then RoundUp(Bytes(q), UnitFor(Bytes(q))) * 1000 else q
  {
    var bytes := Value(q);
    if bytes >= KI {
      var unit := UnitFor(bytes);
      var sum := WrapInt64(bytes + unit - 1);
      TruncDivTimes(sum, unit);
      if Bytes(q) < TWO63 {
        ValueInRange(q);
        SumWraps(bytes, unit);
        RoundUpIsLeast(bytes, unit);
      } else {
        assert sum < TWO63;
      }
    }
  }

  lemma ValueInRange(q: Quantity)
    requires -TWO63 <= Bytes(q) < TWO63
    ensures Value(q) == Bytes(q)
  {
  }

  lemma SumWraps(bytes: int, unit: int)
    requires 0 <= bytes < TWO63 && 0 < unit <= GI
    ensures WrapInt64(bytes + unit - 1) ==
      if bytes + unit - 1 < TWO63 then bytes + unit - 1 else bytes + unit - 1 - TWO64
  {
  }

  /** Never less than the input, whatever the input: also when the addition wraps. */
  lemma NeverBelowInput(q: Quantity)
    ensures q <= NormalizeMemoryQuantity(q)
  {
  }

  /** Absent overflow the result is the least whole multiple of the chosen unit, and
      from 1Ki upwards it is less than twice the input. */
  lemma LeastWholeUnit(q: Quantity)
    requires q >= 0 && KI <= Bytes(q) && NoOverflow(Bytes(q))
    ensures exists k :: NormalizeMemoryQuantity(q) == k * UnitFor(Bytes(q)) * 1000
    ensures forall m: int :: q <= m * UnitFor(Bytes(q)) * 1000 ==>
      NormalizeMemoryQuantity(q) <= m * UnitFor(Bytes(q)) * 1000
    ensures NormalizeMemoryQuantity(q) < 2 * q
  {
    var bytes := Bytes(q);
    var unit := UnitFor(bytes);
    RoundedOrKept(q);
    RoundUpIsLeast(bytes, unit);
    forall m: int | q <= m * unit * 1000
      ensures NormalizeMemoryQuantity(q) <= m * unit * 1000
    {
      assert bytes <= m * unit;
    }
  }

  lemma AtMostTwice(q: Quantity)
    requires q >= 0
    ensures NormalizeMemoryQuantity(q) <= 2 * q
  {
    RoundedOrKept(q);
    if KI <= Bytes(q) && NoOverflow(Bytes(q)) {
      LeastWholeUnit(q);
    }
  }

  lemma Monotone(p: Quantity, q: Quantity)
    requires 0 <= p <= q
    ensures NormalizeMemoryQuantity(p) <= NormalizeMemoryQuantity(q)
  {
    RoundedOrKept(p);
    RoundedOrKept(q);
    var a, b := Bytes(p), Bytes(q);
    if KI <= a && NoOverflow(a) {
      var u, v := UnitFor(a), UnitFor(b);
      RoundUpIsLeast(a, u);
      RoundUpIsLeast(b, v);
      if u == v {
        var k :| RoundUp(b, v) == k * v;
      } else {
        UnitDivides(u, v);
        assert a <= v / u * u;
      }
      OverflowBoundary(a, u);
    }
  }

  /** A larger unit is a whole number of the smaller ones. */
  lemma UnitDivides(u: int, v: int)
    requires u in {1, KI, MI, GI} && v in {1, KI, MI, GI} && u <= v
    ensures v / u * u == v
  {
  }

  lemma OverflowBoundary(a: int, u: int)
    requires KI <= a && u == UnitFor(a) && a + u - 1 < TWO63
    ensures RoundUp(a, u) <= TWO63 - u
  {
  }

  /** A whole number of units is its own rounding, also where it reaches the next unit. */
  lemma RoundUpFixed(a: int, u: int)
    requires KI <= a && u == UnitFor(a)
    ensures UnitFor(RoundUp(a, u)) >= u
    ensures RoundUp(RoundUp(a, u), UnitFor(RoundUp(a, u))) == RoundUp(a, u)
  {
    RoundUpIsLeast(a, u);
    var w := RoundUp(a, u);
    var v := UnitFor(w);
    RoundUpIsLeast(w, v);
    if v != u {
      var next := if u == KI then MI else GI;
      assert a <= next / u * u == next;
      assert w == next == v;
      assert w <= 1 * v;
    } else {
      var k :| w == k * u;
      assert w <= k * v;
    }
  }

  /** Rounding twice is rounding once, over all quantities. */
  lemma Idempotent(q: Quantity)
    ensures NormalizeMemoryQuantity(NormalizeMemoryQuantity(q)) == NormalizeMemoryQuantity(q)
  {
    var n := NormalizeMemoryQuantity(q);
    if q >= 0 {
      RoundedOrKept(q);
      var a := Bytes(q);
      if n != q {
        RoundedWholeIsFixed(a);
      }
    } else if n != q {
      NegativeResult(q);
    }
  }

  /** Below zero only quantities outside int64 are changed at all; they, too, settle. */
  lemma NegativeResult(q: Quantity)
    requires q < 0 && NormalizeMemoryQuantity(q) != q
    ensures NormalizeMemoryQuantity(NormalizeMemoryQuantity(q)) == NormalizeMemoryQuantity(q)
  {
    var bytes, n := Value(q), NormalizeMemoryQuantity(q);
    var unit := UnitFor(bytes);
    var sum := WrapInt64(bytes + unit - 1);
    SumWraps(bytes, unit);
    assert bytes >= KI && n == TruncDiv(sum, unit) * unit * 1000;
    if NoOverflow(bytes) {
      assert n == RoundUp(bytes, unit) * 1000;
      RoundedWholeIsFixed(bytes);
    } else {
      TruncDivTimes(sum, unit);
      assert -TWO63 <= Bytes(n) <= 0;
      ValueInRange(n);
    }
  }

  lemma RoundedWholeIsFixed(a: int)
    requires KI <= a && NoOverflow(a)
    ensures NormalizeMemoryQuantity(RoundUp(a, UnitFor(a)) * 1000) == RoundUp(a, UnitFor(a)) * 1000
  {
    var w := RoundUp(a, UnitFor(a));
    RoundUpIsLeast(a, UnitFor(a));
    RoundUpFixed(a, UnitFor(a));
    OverflowBoundary(a, UnitFor(a));
    RoundedOrKept(w * 1000);
    assert Bytes(w * 1000) == w;
  }

  /** The quantities rounding leaves alone: whole numbers of their unit, anything below 1Ki,
      and anything so large that the rounding addition would wrap; below zero, everything
      but what the conversion to int64 wraps up to 1Ki and more. */
  predicate AlreadyWhole(q: Quantity) {
    if q < 0 then Value(q) < KI
    else Bytes(q) < KI || !NoOverflow(Bytes(q)) || q % (UnitFor(Bytes(q)) * 1000) == 0
  }

  lemma KeptIffWhole(q: Quantity)
    ensures NormalizeMemoryQuantity(q) == q <==> AlreadyWhole(q)
  {
    if q < 0 {
      NegativeIsRaised(q);
    } else if KI <= Bytes(q) && NoOverflow(Bytes(q)) {
      var unit := UnitFor(Bytes(q));
      LeastWholeUnit(q);
      var k :| NormalizeMemoryQuantity(q) == k * unit * 1000;
      WholeUnits(k, unit);
      WholeUnits(q / (unit * 1000), unit);
      NeverBelowInput(q);
    } else {
      RoundedOrKept(q);
    }
  }

  lemma WholeUnits(k: int, unit: int)
    requires unit in {KI, MI, GI}
    ensures k * unit * 1000 % (unit * 1000) == 0
    ensures k * unit * 1000 == k * (unit * 1000)
  {
  }

  lemma NegativeIsRaised(q: Quantity)
    requires q < 0
    ensures NormalizeMemoryQuantity(q) == q <==> Value(q) < KI
  {
    var bytes := Value(q);
    if bytes >= KI {
      var unit := UnitFor(bytes);
      TruncDivTimes(WrapInt64(bytes + unit - 1), unit);
      assert Bytes(q) < -TWO63;
    }
  }
}
