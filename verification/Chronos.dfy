/** Preparing a window for the Chronos model and decoding its predictions
    (internal/forecast/onnx/chronos2_preprocess.go). asinh and sinh are abstract functions,
    assumed to be inverse where a result needs it. */
module Chronos {
  import opened Prelude
  import opened Median

  const CONTEXT_LEN := 512
  const HORIZON_LEN := 64
  const FUTURE_COV_LEN := 64
  const QUANTILE_COUNT := 21

  datatype ChronosInputs = ChronosInputs(context: seq<real>, attentionMask: seq<real>,
                                         futureCovariates: seq<real>, scale: real)

  function Tail(values: seq<real>): seq<real> {
    Last(values, CONTEXT_LEN)
  }

  function ScaleOf(values: seq<real>): (scale: real) {
    var median := MedianAbs(Tail(values));
    if median == 0.0 then 1.0 else median
  }

  function Share(v: real, scale: real): real {
    if scale == 0.0 then 0.0 else v / scale
  }

  /** The window, right-aligned in a context of 512 and encoded; the rest is zero. */
  function ContextOf(tail: seq<real>, scale: real, asinh: real -> real): (r: seq<real>)
    requires |tail| <= CONTEXT_LEN
    ensures |r| == CONTEXT_LEN
  {
    var offset := CONTEXT_LEN - |tail|;
    seq(CONTEXT_LEN, i requires 0 <= i < CONTEXT_LEN =>
      if i < offset then 0.0 else asinh(Share(tail[i - offset], scale)))
  }

  function MaskOf(n: nat): (r: seq<real>)
    requires n <= CONTEXT_LEN
    ensures |r| == CONTEXT_LEN
  {
    seq(CONTEXT_LEN, i requires 0 <= i < CONTEXT_LEN => if i < CONTEXT_LEN - n then 0.0 else 1.0)
  }

  function Prepared(values: seq<real>, asinh: real -> real): ChronosInputs {
    ChronosInputs(ContextOf(Tail(values), ScaleOf(values), asinh), MaskOf(|Tail(values)|),
                  seq(FUTURE_COV_LEN, _ => 0.0), ScaleOf(values))
  }

  lemma ScalePositive(values: seq<real>)
    ensures ScaleOf(values) > 0.0
  {
    if Tail(values) != [] {
      MedianIsMedian(Tail(values));
    }
  }

  method PrepareChronosInputs(values: seq<real>, asinh: real -> real) returns (inputs: ChronosInputs)
    ensures inputs == Prepared(values, asinh)
  {
    var tail := values;
    if |tail| > CONTEXT_LEN {
      tail := tail[|tail| - CONTEXT_LEN..];
    }
    var scale := MedianAbsScale(tail);
    if scale == 0.0 {
      scale := 1.0;
    }
    ScalePositive(values);
    var context, mask := EncodeTail(tail, scale, asinh);
    var futureCov := new real[FUTURE_COV_LEN](_ => 0.0);
    assert futureCov[..] == seq(FUTURE_COV_LEN, _ => 0.0);
    inputs := ChronosInputs(context, mask, futureCov[..], scale);
  }

  /** The loop that fills context and mask from the right end. */
  method EncodeTail(tail: seq<real>, scale: real, asinh: real -> real) returns (context: seq<real>, mask: seq<real>)
    requires |tail| <= CONTEXT_LEN && scale > 0.0
    ensures context == ContextOf(tail, scale, asinh) && mask == MaskOf(|tail|)
  {
    var cells := new real[CONTEXT_LEN](_ => 0.0);
    var marks := new real[CONTEXT_LEN](_ => 0.0);
    var offset := CONTEXT_LEN - |tail|;
    for i := 0 to |tail|
      invariant forall j :: 0 <= j < CONTEXT_LEN && !(offset <= j < offset + i) ==> cells[j] == marks[j] == 0.0
      invariant forall j :: offset <= j < offset + i ==> cells[j] == ContextOf(tail, scale, asinh)[j] && marks[j] == 1.0
    {
      assert Share(tail[i], scale) == tail[i] / scale;
      cells[offset + i] := asinh(tail[i] / scale);
      marks[offset + i] := 1.0;
    }
    context, mask := cells[..], marks[..];
  }

  // ---- windowing -----------------------------------------------------------------------

  /** The scale: one for an empty window or a zero median, otherwise the median. */
  lemma ScaleCases(values: seq<real>)
    ensures values == [] ==> ScaleOf(values) == 1.0
    ensures MedianAbs(Tail(values)) == 0.0 ==> ScaleOf(values) == 1.0
    ensures values != [] && MedianAbs(Tail(values)) != 0.0 ==> ScaleOf(values) == MedianAbs(Tail(values))
  {
  }

  /** The mask is one exactly on the suffix that holds samples, and decoding an encoded
      sample gives the sample back: the last min(len, 512) of them, right-aligned. */
  lemma WindowRoundTrip(values: seq<real>, asinh: real -> real, sinh: real -> real, i: nat)
    requires forall x :: sinh(asinh(x)) == x
    requires i < 512
    ensures var prepared, n := Prepared(values, asinh), Min(|values|, 512);
      && |prepared.context| == |prepared.attentionMask| == 512
      && prepared.attentionMask[i] == (if i >= 512 - n then 1.0 else 0.0)
      && (if i >= 512 - n
          then Times(prepared.scale, sinh(prepared.context[i])) == values[|values| - (512 - i)]
          else prepared.context[i] == 0.0)
      && |prepared.futureCovariates| == 64 && (i < 64 ==> prepared.futureCovariates[i] == 0.0)
  {
    ScalePositive(values);
    var tail, offset := Tail(values), CONTEXT_LEN - |Tail(values)|;
    if i >= offset {
      ShareBack(tail[i - offset], ScaleOf(values));
    }
  }

  lemma ShareBack(v: real, scale: real)
    requires scale > 0.0
    ensures Times(scale, Share(v, scale)) == v
  {
  }

  // ---- decoding ------------------------------------------------------------------------

  /** One decoded quantile: row `quantileIdx` of the prediction, read with a stride of 64 and
      cut to the horizon; cells beyond the prediction stay zero. */
  function QuantileHorizon(preds: seq<real>, quantileIdx: int, scale: real, horizon: int, sinh: real -> real): seq<real>
  {
    if quantileIdx < 0 || quantileIdx >= QUANTILE_COUNT || horizon <= 0 then []
    else seq(Min(horizon, HORIZON_LEN), step requires 0 <= step < Min(horizon, HORIZON_LEN) =>
           var offset := quantileIdx * HORIZON_LEN + step;
           if offset < |preds| then Times(scale, sinh(preds[offset])) else 0.0)
  }

  method ChronosQuantileHorizon(preds: seq<real>, quantileIdx: int, scale: real, horizon: int, sinh: real -> real)
    returns (out: seq<real>)
    ensures out == QuantileHorizon(preds, quantileIdx, scale, horizon, sinh)
  {
    if quantileIdx < 0 || quantileIdx >= QUANTILE_COUNT {
      return [];
    }
    if horizon <= 0 {
      return [];
    }
    var n := if horizon > HORIZON_LEN then HORIZON_LEN else horizon;
    var cells := new real[n](_ => 0.0);
    var step := 0;
    while step < n
      invariant 0 <= step <= n
      invariant forall j :: 0 <= j < step ==>
        cells[j] == QuantileHorizon(preds, quantileIdx, scale, horizon, sinh)[j]
      invariant forall j :: step <= j < n ==> cells[j] == 0.0
    {
      var offset := quantileIdx * HORIZON_LEN + step;
      if offset >= |preds| {
        break;
      }
      cells[step] := sinh(preds[offset]) * scale;
      assert cells[step] == Times(scale, sinh(preds[offset]));
      step := step + 1;
    }
    out := cells[..];
    assert out == QuantileHorizon(preds, quantileIdx, scale, horizon, sinh);
  }

  /** How many steps are decoded: none for an index outside the 21 levels or without a horizon,
      otherwise the horizon, up to 64; and those past the end of the prediction are zero. */
  lemma DecodedLength(preds: seq<real>, quantileIdx: int, scale: real, horizon: int, sinh: real -> real)
    ensures var out := QuantileHorizon(preds, quantileIdx, scale, horizon, sinh);
      && |out| == (if 0 <= quantileIdx < 21 && horizon > 0 then Min(horizon, 64) else 0)
      && forall step :: 0 <= step < |out| && 64 * quantileIdx + step >= |preds| ==> out[step] == 0.0
  {
  }

  /** Entry (quantile, step) of a row-major prediction tensor of shape [1, 21, width]. */
  function Cell(preds: seq<real>, width: nat, quantile: nat, step: nat): real
    requires quantile < QUANTILE_COUNT && step < width && |preds| == QUANTILE_COUNT * width
  {
    CellInside(width, quantile, step);
    preds[quantile * width + step]
  }

  lemma CellInside(width: nat, quantile: nat, step: nat)
    requires quantile < QUANTILE_COUNT && step < width
    ensures quantile * width + step < QUANTILE_COUNT * width
  {
  }

  /** The step lies inside its row and decodes to the row's own cell, rescaled. */
  predicate StepDecodes(preds: seq<real>, width: nat, quantile: nat, scale: real, horizon: int, sinh: real -> real,
                        step: nat)
    requires quantile < QUANTILE_COUNT && |preds| == QUANTILE_COUNT * width && step < Min(horizon, HORIZON_LEN)
  {
    && step < width
    && QuantileHorizon(preds, quantile, scale, horizon, sinh)[step] ==
      Times(scale, sinh(Cell(preds, width, quantile, step)))
  }

  /** Row `quantile` decodes from its own cells, over the whole horizon. */
  predicate RowDecodes(preds: seq<real>, width: nat, quantile: nat, scale: real, horizon: int, sinh: real -> real)
    requires quantile < QUANTILE_COUNT && |preds| == QUANTILE_COUNT * width
  {
    forall step :: 0 <= step < Min(horizon, HORIZON_LEN) ==>
      StepDecodes(preds, width, quantile, scale, horizon, sinh, step)
  }

  /** The code reads with a stride of 64 whatever the width of the tensor. A row decodes from
      its own cells, for all tensors, exactly when the tensor is 64 steps wide, or the row is
      the first one and long enough for the horizon. */
  lemma StrideIsTheWidth(width: nat, quantile: nat, scale: real, horizon: int, sinh: real -> real, a: real, b: real)
    requires quantile < QUANTILE_COUNT && horizon > 0 && scale > 0.0
    requires sinh(a) != sinh(b) && sinh(a) != 0.0
    ensures (forall preds: seq<real> :: |preds| == QUANTILE_COUNT * width ==>
              RowDecodes(preds, width, quantile, scale, horizon, sinh))
            <==> width == HORIZON_LEN || (quantile == 0 && Min(horizon, HORIZON_LEN) <= width)
  {
    if width == HORIZON_LEN || (quantile == 0 && Min(horizon, HORIZON_LEN) <= width) {
      forall preds: seq<real> | |preds| == QUANTILE_COUNT * width
        ensures RowDecodes(preds, width, quantile, scale, horizon, sinh)
      {
        OwnRow(preds, width, quantile, scale, horizon, sinh);
      }
    } else {
      var preds := seq(QUANTILE_COUNT * width, i => if i == quantile * width then a else b);
      OtherRow(preds, width, quantile, scale, horizon, sinh, a, b);
    }
  }

  lemma OwnRow(preds: seq<real>, width: nat, quantile: nat, scale: real, horizon: int, sinh: real -> real)
    requires quantile < QUANTILE_COUNT && horizon > 0 && |preds| == QUANTILE_COUNT * width
    requires width == HORIZON_LEN || (quantile == 0 && Min(horizon, HORIZON_LEN) <= width)
    ensures RowDecodes(preds, width, quantile, scale, horizon, sinh)
  {
    forall step | 0 <= step < Min(horizon, HORIZON_LEN)
      ensures StepDecodes(preds, width, quantile, scale, horizon, sinh, step)
    {
      CellInside(width, quantile, step);
      assert quantile * width == quantile * HORIZON_LEN;
    }
  }

  /** A tensor whose row starts with a cell that occurs nowhere else. */
  lemma OtherRow(preds: seq<real>, width: nat, quantile: nat, scale: real, horizon: int, sinh: real -> real, a: real,
                 b: real)
    requires quantile < QUANTILE_COUNT && horizon > 0 && scale > 0.0
    requires sinh(a) != sinh(b) && sinh(a) != 0.0
    requires |preds| == QUANTILE_COUNT * width
    requires forall i :: 0 <= i < |preds| ==> preds[i] == if i == quantile * width then a else b
    requires width != HORIZON_LEN && (quantile == 0 ==> width < Min(horizon, HORIZON_LEN))
    ensures !RowDecodes(preds, width, quantile, scale, horizon, sinh)
  {
    var out, offset := QuantileHorizon(preds, quantile, scale, horizon, sinh), quantile * HORIZON_LEN;
    if quantile > 0 && width > 0 {
      CellInside(width, quantile, 0);
      FactorMatters(quantile, width, HORIZON_LEN);
      assert out[0] == if offset < |preds| then Times(scale, sinh(b)) else 0.0;
      TimesDiffers(scale, sinh(a), sinh(b));
      TimesDiffers(scale, sinh(a), 0.0);
    }
    assert !StepDecodes(preds, width, quantile, scale, horizon, sinh, if quantile == 0 then width else 0);
  }

  lemma FactorMatters(q: nat, x: nat, y: nat)
    ensures q * x == q * y <==> q == 0 || x == y
  {
  }

  lemma TimesDiffers(k: real, x: real, y: real)
    requires k != 0.0
    ensures Times(k, x) == Times(k, y) <==> x == y
    ensures Times(x, k) == Times(y, k) <==> x == y
  {
  }

  /** In a tensor ten steps wide, step 10 of the first row is read from the second row. */
  lemma NarrowRowIsOverrun(preds: seq<real>, scale: real, sinh: real -> real)
    requires |preds| == QUANTILE_COUNT * 10
    ensures QuantileHorizon(preds, 0, scale, 11, sinh)[10] == Times(scale, sinh(Cell(preds, 10, 1, 0)))
  {
  }

  /** With 64 steps every decoded cell is the model's own output, rescaled. */
  lemma DecodesEveryCell(preds: seq<real>, quantile: nat, step: nat, scale: real, horizon: int, sinh: real -> real)
    requires |preds| == QUANTILE_COUNT * HORIZON_LEN && quantile < QUANTILE_COUNT
    requires step < Min(horizon, HORIZON_LEN)
    ensures var out := QuantileHorizon(preds, quantile, scale, horizon, sinh);
      |out| == Min(horizon, HORIZON_LEN) && out[step] == Times(scale, sinh(Cell(preds, HORIZON_LEN, quantile, step)))
  {
  }

  // ---- scale equivariance --------------------------------------------------------------

  lemma ShareScales(v: real, scale: real, k: real)
    requires scale > 0.0 && k > 0.0
    ensures Share(Times(k, v), Times(k, scale)) == Share(v, scale)
  {
  }

  /** Multiplying a window by k > 0 multiplies its scale by k exactly when the window is not
      empty and its median is not zero (or k is one). */
  lemma ScaleEquivariance(values: seq<real>, k: real)
    requires k > 0.0
    ensures ScaleOf(ScaleAll(values, k)) == Times(k, ScaleOf(values)) <==>
      (values != [] && MedianAbs(Tail(values)) != 0.0) || k == 1.0
  {
    assert Tail(ScaleAll(values, k)) == ScaleAll(Tail(values), k);
    if values != [] {
      MedianScales(Tail(values), k);
      MedianIsMedian(Tail(values));
      TimesKeepsOrder(MedianAbs(Tail(values)), 0.0, k);
    }
  }

  /** Then the model sees the same context and mask. */
  lemma ContextInvariant(values: seq<real>, k: real, asinh: real -> real)
    requires k > 0.0 && values != [] && MedianAbs(Tail(values)) != 0.0
    ensures Prepared(ScaleAll(values, k), asinh) == Prepared(values, asinh).(scale := Times(k, ScaleOf(values)))
  {
    ScaleEquivariance(values, k);
    ScalePositive(values);
    var tail := Tail(values);
    assert Tail(ScaleAll(values, k)) == ScaleAll(tail, k);
    forall j | 0 <= j < |tail|
      ensures Share(ScaleAll(tail, k)[j], Times(k, ScaleOf(values))) == Share(tail[j], ScaleOf(values))
    {
      ShareScales(tail[j], ScaleOf(values), k);
    }
    assert Prepared(ScaleAll(values, k), asinh).context == Prepared(values, asinh).context;
  }

  /** A deterministic model: context, mask and covariates in, predictions out. */
  type Network = (seq<real>, seq<real>, seq<real>) -> seq<real>

  function Decoded(values: seq<real>, network: Network, quantileIdx: int, horizon: int,
                   asinh: real -> real, sinh: real -> real): seq<real> {
    var prepared := Prepared(values, asinh);
    QuantileHorizon(network(prepared.context, prepared.attentionMask, prepared.futureCovariates),
                    quantileIdx, prepared.scale, horizon, sinh)
  }

  lemma TimesAssociate(k: real, x: real, y: real)
    ensures Times(Times(k, x), y) == Times(k, Times(x, y))
  {
  }

  lemma HorizonScales(preds: seq<real>, quantileIdx: int, scale: real, k: real, horizon: int, sinh: real -> real)
    ensures QuantileHorizon(preds, quantileIdx, Times(k, scale), horizon, sinh) ==
      ScaleAll(QuantileHorizon(preds, quantileIdx, scale, horizon, sinh), k)
  {
    forall x: real
      ensures Times(Times(k, scale), x) == Times(k, Times(scale, x))
    {
      TimesAssociate(k, scale, x);
    }
  }

  /** Scale equivariance end to end: k times the history gives k times every forecast. */
  lemma ForecastScales(values: seq<real>, k: real, network: Network, quantileIdx: int, horizon: int,
                       asinh: real -> real, sinh: real -> real)
    requires k > 0.0 && values != [] && MedianAbs(Tail(values)) != 0.0
    ensures Decoded(ScaleAll(values, k), network, quantileIdx, horizon, asinh, sinh) ==
      ScaleAll(Decoded(values, network, quantileIdx, horizon, asinh, sinh), k)
  {
    ContextInvariant(values, k, asinh);
    var prepared := Prepared(values, asinh);
    HorizonScales(network(prepared.context, prepared.attentionMask, prepared.futureCovariates),
                  quantileIdx, prepared.scale, k, horizon, sinh);
  }

  /** The exact condition: over all networks, multiplying the history by k multiplies every
      forecast exactly when the scale follows. A network of constant output tells otherwise. */
  lemma ForecastsScaleIff(values: seq<real>, k: real, quantileIdx: int, horizon: int,
                          asinh: real -> real, sinh: real -> real, c: real)
    requires k > 0.0 && 0 <= quantileIdx < QUANTILE_COUNT && horizon > 0 && sinh(c) != 0.0
    ensures (forall network: Network :: Decoded(ScaleAll(values, k), network, quantileIdx, horizon, asinh, sinh) ==
              ScaleAll(Decoded(values, network, quantileIdx, horizon, asinh, sinh), k))
            <==> (values != [] && MedianAbs(Tail(values)) != 0.0) || k == 1.0
  {
    if values != [] && MedianAbs(Tail(values)) != 0.0 {
      forall network: Network
        ensures Decoded(ScaleAll(values, k), network, quantileIdx, horizon, asinh, sinh) ==
          ScaleAll(Decoded(values, network, quantileIdx, horizon, asinh, sinh), k)
      {
        ForecastScales(values, k, network, quantileIdx, horizon, asinh, sinh);
      }
    } else if k == 1.0 {
      forall s: seq<real>
        ensures ScaleAll(s, 1.0) == s
      {
        ScaledByOne(s);
      }
    } else {
      var constant: Network := (_, _, _) => seq(QUANTILE_COUNT * HORIZON_LEN, _ => c);
      ConstantForecast(values, constant, quantileIdx, horizon, asinh, sinh, c);
      ConstantForecast(ScaleAll(values, k), constant, quantileIdx, horizon, asinh, sinh, c);
      ScaleEquivariance(values, k);
      TimesDiffers(sinh(c), ScaleOf(ScaleAll(values, k)), Times(k, ScaleOf(values)));
      TimesAssociate(k, ScaleOf(values), sinh(c));
    }
  }

  lemma ScaledByOne(s: seq<real>)
    ensures ScaleAll(s, 1.0) == s
  {
    assert forall i :: 0 <= i < |s| ==> ScaleAll(s, 1.0)[i] == s[i];
  }

  /** The first step of a constant network's forecast is the scale times that constant. */
  lemma ConstantForecast(values: seq<real>, network: Network, quantileIdx: int, horizon: int,
                         asinh: real -> real, sinh: real -> real, c: real)
    requires 0 <= quantileIdx < QUANTILE_COUNT && horizon > 0
    requires forall x, y, z :: network(x, y, z) == seq(QUANTILE_COUNT * HORIZON_LEN, _ => c)
    ensures var out := Decoded(values, network, quantileIdx, horizon, asinh, sinh);
      |out| > 0 && out[0] == Times(ScaleOf(values), sinh(c))
  {
  }
}
