// The int8 codebook (orka/core/_format.py): one scale per column, the largest
// entry at +-127, and why writing an already quantised codebook loses nothing.
// The fp16 rounding of the scales is a parameter.

module Int8Codebook {
  import opened Basics

  type Codebook = seq<seq<real>>

  // ------------------------------------------------------------------ one number

  // np.round: to the nearest integer, ties to even.
  function RoundEven(x: real): (r: int)
    ensures -0.5 <= x - r as real <= 0.5
  {
    var f := x.Floor;
    var rest := x - f as real;
    if rest < 0.5 then f
    else if rest > 0.5 then f + 1
    else if f % 2 == 0 then f else f + 1
  }

  function Clip(v: int): (r: int)
    ensures -127 <= r <= 127
  {
    if v < -127 then -127 else if v > 127 then 127 else v
  }

  function Abs(x: real): (r: real)
    ensures r >= 0.0
  {
    if x < 0.0 then -x else x
  }

  function Ratio(x: real, s: real): real
    requires s > 0.0
  {
    x / s
  }

  // clip(round(x / scale), -127, 127)
  function Code(x: real, scale: real): (q: int)
    requires scale > 0.0
    ensures -127 <= q <= 127
  {
    Clip(RoundEven(Ratio(x, scale)))
  }

  // q * scale
  function Level(q: int, scale: real): real {
    Times(q as real, scale)
  }

  lemma RoundOfInteger(v: int)
    ensures RoundEven(v as real) == v
  {
  }

  lemma LevelRatio(q: int, scale: real)
    requires scale > 0.0
    ensures Ratio(Level(q, scale), scale) == q as real
  {
  }

  // A level on the grid is coded as itself.
  lemma CodeOfLevel(q: int, scale: real)
    requires scale > 0.0 && -127 <= q <= 127
    ensures Code(Level(q, scale), scale) == q
  {
    LevelRatio(q, scale);
    RoundOfInteger(q);
  }

  // ------------------------------------------------------- how near a code is

  // No integer is nearer, and an odd one is never taken when another is as near.
  lemma RoundNearest(t: real, k: int)
    ensures Abs(t - RoundEven(t) as real) <= 0.5
    ensures Abs(t - RoundEven(t) as real) <= Abs(t - k as real)
    ensures Abs(t - RoundEven(t) as real) == Abs(t - k as real) && k != RoundEven(t) ==> RoundEven(t) % 2 == 0
  {
    if k != RoundEven(t) {
      assert k <= RoundEven(t) - 1 || k >= RoundEven(t) + 1;
    }
  }

  // Distances from x in steps of the scale.
  lemma InSteps(x: real, t: real, scale: real, k: real)
    requires scale > 0.0 && x == Times(t, scale)
    ensures Abs(x - Times(k, scale)) == Times(Abs(t - k), scale)
  {
    assert x - k * scale == (t - k) * scale;
    ScaleOrder(t, k, scale);
  }

  lemma StepOrder(a: real, b: real, scale: real)
    requires scale > 0.0
    ensures Times(a, scale) < Times(b, scale) <==> a < b
    ensures 2.0 * Times(0.5, scale) == scale
  {
    ScaleOrder(a, b, scale);
  }

  lemma ScaleOrder(a: real, b: real, scale: real)
    requires scale > 0.0
    ensures a * scale < b * scale <==> a < b
  {
    if a < b {
      assert (b - a) * scale > 0.0;
    } else {
      assert (a - b) * scale >= 0.0;
    }
  }

  // What a code has to be for x at a scale: the nearest of -127 to 127, the even
  // one of two, and within half a step where the range reaches.
  ghost predicate NearestCode(x: real, scale: real, q: int) {
    && -127 <= q <= 127
    && (Abs(x) <= Times(127.0, scale) ==> 2.0 * Abs(x - Times(q as real, scale)) <= scale)
    && (x > Times(127.0, scale) ==> q == 127) && (x < Times(-127.0, scale) ==> q == -127)
    && (forall k: int :: -127 <= k <= 127 ==> NoNearer(x, scale, q, k))
  }

  ghost predicate NoNearer(x: real, scale: real, q: int, k: int) {
    && Abs(x - Times(q as real, scale)) <= Abs(x - Times(k as real, scale))
    && (Abs(x - Times(q as real, scale)) == Abs(x - Times(k as real, scale)) && k != q ==> q % 2 == 0)
  }

  lemma CodeRange(x: real, scale: real)
    requires scale > 0.0
    ensures Code(x, scale) == Clip(RoundEven(Ratio(x, scale))) && x == Times(Ratio(x, scale), scale)
    ensures x <= Times(127.0, scale) <==> Ratio(x, scale) <= 127.0
    ensures x >= Times(-127.0, scale) <==> Ratio(x, scale) >= -127.0
    ensures Times(-127.0, scale) == -Times(127.0, scale)
  {
    RatioTimes(x, scale);
    hide Times, Ratio;
    var t := Ratio(x, scale);
    StepOrder(127.0, t, scale);
    StepOrder(t, -127.0, scale);
  }

  lemma RatioTimes(x: real, scale: real)
    requires scale > 0.0
    ensures x == Times(Ratio(x, scale), scale)
    ensures Times(-127.0, scale) == -Times(127.0, scale)
  {
  }

  lemma ClippedNearest(t: real, k: int)
    requires -127 <= k <= 127
    ensures var q := Clip(RoundEven(t));
      && Abs(t - q as real) <= Abs(t - k as real)
      && (Abs(t - q as real) == Abs(t - k as real) && k != q ==> q % 2 == 0)
  {
    hide RoundEven;
    RoundNearest(t, k);
  }

  lemma NoNearerCode(x: real, t: real, scale: real, q: int, k: int)
    requires scale > 0.0 && x == Times(t, scale) && Abs(t - q as real) <= Abs(t - k as real)
    requires Abs(t - q as real) == Abs(t - k as real) && k != q ==> q % 2 == 0
    ensures NoNearer(x, scale, q, k)
  {
    hide Times, Abs;
    InSteps(x, t, scale, q as real);
    InSteps(x, t, scale, k as real);
    StepOrder(Abs(t - k as real), Abs(t - q as real), scale);
    StepOrder(Abs(t - q as real), Abs(t - k as real), scale);
  }

  lemma HalfStep(x: real, t: real, scale: real, q: int)
    requires scale > 0.0 && x == Times(t, scale) && Abs(t - q as real) <= 0.5
    ensures 2.0 * Abs(x - Times(q as real, scale)) <= scale
  {
    hide Times, Abs;
    InSteps(x, t, scale, q as real);
    StepOrder(0.5, Abs(t - q as real), scale);
  }

  // clip(round(x / scale)) is the nearest code.
  lemma CodeIsNearest(x: real, scale: real)
    requires scale > 0.0
    ensures NearestCode(x, scale, Code(x, scale))
  {
    hide Clip, RoundEven, Ratio, NoNearer, Times;
    var t, q := Ratio(x, scale), Code(x, scale);
    CodeRange(x, scale);
    WithinHalf(t);
    if Abs(x) <= Times(127.0, scale) {
      HalfStep(x, t, scale, q);
    }
    forall k: int | -127 <= k <= 127
      ensures NoNearer(x, scale, q, k)
    {
      ClippedNearest(t, k);
      NoNearerCode(x, t, scale, q, k);
    }
  }

  lemma WithinHalf(t: real)
    ensures var q := Clip(RoundEven(t));
      && -127 <= q <= 127 && (-127.0 <= t <= 127.0 ==> Abs(t - q as real) <= 0.5)
      && (t > 127.0 ==> q == 127) && (t < -127.0 ==> q == -127)
  {
  }

  // ------------------------------------------------------------------ one column

  // np.abs(column).max()
  function MaxAbs(col: seq<real>): (m: real)
    requires |col| > 0
    ensures forall i :: 0 <= i < |col| ==> Abs(col[i]) <= m
    ensures exists i :: 0 <= i < |col| && Abs(col[i]) == m
  {
    if |col| == 1 then Abs(col[0])
    else
      var m := MaxAbs(col[..|col| - 1]);
      var last := Abs(col[|col| - 1]);
      assert forall i :: 0 <= i < |col| - 1 ==> col[..|col| - 1][i] == col[i];
      if m < last then last else m
  }

  // where(col_max > 0, col_max / 127, 1), rounded to storage.
  function ScaleOf(col: seq<real>, half: real -> real): real
    requires |col| > 0
  {
    half(if MaxAbs(col) > 0.0 then MaxAbs(col) / 127.0 else 1.0)
  }

  // The scale is positive and the largest entry does not fall short of 126.5
  // steps of it.
  ghost predicate ReachesTop(col: seq<real>, half: real -> real)
    requires |col| > 0
  {
    ScaleOf(col, half) > 0.0 && (MaxAbs(col) > 0.0 ==> 126.5 * ScaleOf(col, half) < MaxAbs(col))
  }

  // Idempotent, exact at 1, with relative error below 1/254 on positive numbers.
  ghost predicate FineRounding(half: real -> real) {
    && (forall x: real {:trigger half(x)} :: half(half(x)) == half(x))
    && half(1.0) == 1.0
    && forall x: real {:trigger half(x)} :: x > 0.0 ==> -x < 254.0 * (half(x) - x) < x
  }

  lemma FineReachesTop(col: seq<real>, half: real -> real)
    requires |col| > 0 && FineRounding(half)
    ensures ReachesTop(col, half)
  {
    if MaxAbs(col) > 0.0 {
      var x := MaxAbs(col) / 127.0;
      assert x > 0.0 && MaxAbs(col) == 127.0 * x;
      assert -x < 254.0 * (half(x) - x) < x;
    }
  }

  function QuantizedColumn(col: seq<real>, scale: real): (r: seq<int>)
    requires scale > 0.0
    ensures |r| == |col| && forall i :: 0 <= i < |r| ==> -127 <= r[i] <= 127
  {
    seq(|col|, i requires 0 <= i < |col| => Code(col[i], scale))
  }

  function DequantizedColumn(q: seq<int>, scale: real): (r: seq<real>)
    ensures |r| == |q|
  {
    seq(|q|, i requires 0 <= i < |q| => Level(q[i], scale))
  }

  ghost predicate HitsTop(q: seq<int>) {
    exists i :: 0 <= i < |q| && (q[i] == 127 || q[i] == -127)
  }

  // An entry codes to +-127 exactly when it lies beyond 126.5 steps.
  lemma TopCode(x: real, scale: real)
    requires scale > 0.0
    ensures Code(x, scale) == 127 || Code(x, scale) == -127 <==> 126.5 * scale < Abs(x)
  {
    var t := Ratio(x, scale);
    assert x == t * scale;
    RatioBeyond(x, t, scale);
    assert RoundEven(126.5) == 126 && RoundEven(-126.5) == -126;
  }

  lemma RatioBeyond(x: real, t: real, scale: real)
    requires scale > 0.0 && x == t * scale
    ensures 126.5 * scale < x <==> 126.5 < t
    ensures 126.5 * scale < -x <==> t < -126.5
    ensures x < 0.0 <==> t < 0.0
  {
    ScaleOrder(126.5, t, scale);
    ScaleOrder(t, -126.5, scale);
    ScaleOrder(t, 0.0, scale);
  }

  // The largest entry of a non-zero column maps to +-127 exactly when it
  // reaches past 126.5 steps of the rounded scale.
  lemma LargestAtTop(col: seq<real>, half: real -> real)
    requires |col| > 0 && MaxAbs(col) > 0.0 && ScaleOf(col, half) > 0.0
    ensures HitsTop(QuantizedColumn(col, ScaleOf(col, half))) <==> ReachesTop(col, half)
  {
    var scale := ScaleOf(col, half);
    var q := QuantizedColumn(col, scale);
    forall i | 0 <= i < |col|
      ensures q[i] == 127 || q[i] == -127 <==> 126.5 * scale < Abs(col[i])
    {
      TopCode(col[i], scale);
    }
    var big :| 0 <= big < |col| && Abs(col[big]) == MaxAbs(col);
    assert ReachesTop(col, half) ==> q[big] == 127 || q[big] == -127;
  }

  lemma LevelBound(q: int, scale: real)
    requires scale > 0.0 && -127 <= q <= 127
    ensures Abs(Level(q, scale)) <= 127.0 * scale
    ensures q == 127 || q == -127 ==> Abs(Level(q, scale)) == 127.0 * scale
  {
    ScaleOrder(q as real, 127.0, scale);
    ScaleOrder(-127.0, q as real, scale);
  }

  lemma MaxAbsIs(col: seq<real>, m: real)
    requires |col| > 0 && (forall i :: 0 <= i < |col| ==> Abs(col[i]) <= m) && exists i :: 0 <= i < |col| && Abs(col[i]) == m
    ensures MaxAbs(col) == m
  {
  }

  // The levels of a column whose codes reach +-127 give the same scale back.
  lemma ScaleRecovered(q: seq<int>, scale: real, half: real -> real)
    requires |q| > 0 && scale > 0.0 && half(scale) == scale && HitsTop(q)
    requires forall i :: 0 <= i < |q| ==> -127 <= q[i] <= 127
    ensures ScaleOf(DequantizedColumn(q, scale), half) == scale
  {
    var col := DequantizedColumn(q, scale);
    forall i | 0 <= i < |q|
      ensures Abs(col[i]) <= 127.0 * scale
      ensures q[i] == 127 || q[i] == -127 ==> Abs(col[i]) == 127.0 * scale
    {
      LevelBound(q[i], scale);
    }
    MaxAbsIs(col, 127.0 * scale);
  }

  // Codes that are all zero come from, and give, a zero column.
  lemma ZeroColumn(col: seq<real>, half: real -> real)
    requires |col| > 0 && MaxAbs(col) <= 0.0 && half(1.0) == 1.0
    ensures ScaleOf(col, half) == 1.0
    ensures forall i :: 0 <= i < |col| ==> col[i] == 0.0 && QuantizedColumn(col, 1.0)[i] == 0
    ensures DequantizedColumn(QuantizedColumn(col, 1.0), 1.0) == col
  {
    forall i | 0 <= i < |col|
      ensures col[i] == 0.0 && QuantizedColumn(col, 1.0)[i] == 0
    {
      assert Abs(col[i]) <= MaxAbs(col);
      RoundOfInteger(0);
    }
  }

  // Quantising what was dequantised gives the same scale and the same codes.
  lemma ColumnProjection(col: seq<real>, half: real -> real)
    requires |col| > 0 && ReachesTop(col, half) && half(1.0) == 1.0
    requires half(ScaleOf(col, half)) == ScaleOf(col, half)
    ensures var scale := ScaleOf(col, half); var q := QuantizedColumn(col, scale);
      && ScaleOf(DequantizedColumn(q, scale), half) == scale
      && QuantizedColumn(DequantizedColumn(q, scale), scale) == q
  {
    hide MaxAbs;
    var scale := ScaleOf(col, half);
    var q := QuantizedColumn(col, scale);
    if MaxAbs(col) > 0.0 {
      LargestAtTop(col, half);
      ScaleRecovered(q, scale, half);
    } else {
      ZeroColumn(col, half);
    }
    forall i | 0 <= i < |q|
      ensures Code(DequantizedColumn(q, scale)[i], scale) == q[i]
    {
      CodeOfLevel(q[i], scale);
    }
  }

  // --------------------------------------------------------------- the codebook

  function Column(cb: Codebook, d: int): (col: seq<real>)
    ensures |col| == |cb|
  {
    seq(|cb|, i requires 0 <= i < |cb| => At(cb[i], d))
  }

  datatype Quantized = Quantized(codes: seq<seq<int>>, scales: seq<real>)

  function CodeOr(x: real, scale: real): int {
    if scale > 0.0 then Code(x, scale) else 0
  }

  // _quantize_codebook_int8
  function Quantize(cb: Codebook, group: nat, half: real -> real): Quantized
    requires |cb| > 0
  {
    var scales := seq(group, d requires 0 <= d < group => ScaleOf(Column(cb, d), half));
    Quantized(seq(|cb|, i requires 0 <= i < |cb| => seq(group, d requires 0 <= d < group => CodeOr(At(cb[i], d), scales[d]))), scales)
  }

  // What _cast_codebook_storage keeps in memory and _read_codebook returns.
  function Dequantize(q: Quantized): (cb: Codebook)
    ensures |cb| == |q.codes|
  {
    seq(|q.codes|, i requires 0 <= i < |q.codes| =>
      seq(|q.codes[i]|, d requires 0 <= d < |q.codes[i]| => Level(q.codes[i][d], At(q.scales, d))))
  }

  // Entry by entry: the code is the nearest to the entry at its column's scale,
  // and the stored codebook holds code times scale.
  lemma EntryNearest(cb: Codebook, group: nat, half: real -> real, i: nat, d: nat)
    requires |cb| > 0 && Rect(cb, group) && i < |cb| && d < group && Quantize(cb, group, half).scales[d] > 0.0
    ensures var q, back := Quantize(cb, group, half), Dequantize(Quantize(cb, group, half));
      && |q.codes[i]| == |back[i]| == group
      && NearestCode(cb[i][d], q.scales[d], q.codes[i][d]) && back[i][d] == Times(q.codes[i][d] as real, q.scales[d])
  {
    CodeIsNearest(cb[i][d], Quantize(cb, group, half).scales[d]);
    hide Code, ScaleOf, NearestCode;
    assert At(cb[i], d) == cb[i][d];
  }

  // Within the range of the codes the stored entry is off by half a step at most.
  lemma EntryWithinHalf(cb: Codebook, group: nat, half: real -> real, i: nat, d: nat)
    requires |cb| > 0 && Rect(cb, group) && i < |cb| && d < group && Quantize(cb, group, half).scales[d] > 0.0
    requires Abs(cb[i][d]) <= Times(127.0, Quantize(cb, group, half).scales[d])
    ensures var back := Dequantize(Quantize(cb, group, half));
      |back[i]| == group && 2.0 * Abs(cb[i][d] - back[i][d]) <= Quantize(cb, group, half).scales[d]
  {
    EntryNearest(cb, group, half, i, d);
    hide Quantize, Dequantize, NoNearer;
  }

  // The scale of a column is its largest magnitude over 127, rounded to storage,
  // and that of 1 for a column of zeros.
  lemma EntryScale(cb: Codebook, group: nat, half: real -> real, d: nat, i: nat)
    requires |cb| > 0 && Rect(cb, group) && i < |cb| && d < group
    requires forall l :: 0 <= l < |cb| ==> Abs(cb[l][d]) <= Abs(cb[i][d])
    ensures Quantize(cb, group, half).scales[d] == half(if cb[i][d] == 0.0 then 1.0 else Abs(cb[i][d]) / 127.0)
  {
    var col := Column(cb, d);
    forall l | 0 <= l < |cb|
      ensures col[l] == cb[l][d]
    {
    }
    MaxAbsIs(col, Abs(cb[i][d]));
  }

  ghost predicate AllReachTop(cb: Codebook, group: nat, half: real -> real)
    requires |cb| > 0
  {
    forall d {:trigger Column(cb, d)} :: 0 <= d < group ==> ReachesTop(Column(cb, d), half)
  }

  lemma DequantizedColumnOf(cb: Codebook, group: nat, half: real -> real, d: nat)
    requires |cb| > 0 && Rect(cb, group) && d < group && ScaleOf(Column(cb, d), half) > 0.0
    ensures var scale := ScaleOf(Column(cb, d), half);
      Column(Dequantize(Quantize(cb, group, half)), d) == DequantizedColumn(QuantizedColumn(Column(cb, d), scale), scale)
  {
    hide ScaleOf, Level, Code;
    var scale := ScaleOf(Column(cb, d), half);
    var q := Quantize(cb, group, half);
    forall i | 0 <= i < |cb|
      ensures Column(Dequantize(q), d)[i] == DequantizedColumn(QuantizedColumn(Column(cb, d), scale), scale)[i]
    {
      assert q.codes[i][d] == Code(cb[i][d], scale);
    }
  }

  lemma OneColumn(cb: Codebook, group: nat, half: real -> real, d: nat)
    requires |cb| > 0 && Rect(cb, group) && AllReachTop(cb, group, half) && d < group && half(1.0) == 1.0
    requires half(ScaleOf(Column(cb, d), half)) == ScaleOf(Column(cb, d), half)
    ensures var q := Quantize(cb, group, half); var cb' := Dequantize(q);
      && |cb'| == |cb| && ScaleOf(Column(cb', d), half) == q.scales[d] > 0.0
      && forall i :: 0 <= i < |cb| ==> Code(Column(cb', d)[i], q.scales[d]) == q.codes[i][d]
  {
    var col := Column(cb, d);
    assert ReachesTop(col, half);
    hide ScaleOf, Level, Code, ReachesTop, AllReachTop;
    var scale := ScaleOf(col, half);
    assert scale > 0.0 by { PositiveScale(col, half); }
    var q := Quantize(cb, group, half);
    DequantizedColumnOf(cb, group, half, d);
    ColumnProjection(col, half);
    var codes := QuantizedColumn(col, scale);
    assert QuantizedColumn(DequantizedColumn(codes, scale), scale) == codes;
    forall i | 0 <= i < |cb|
      ensures Code(Column(Dequantize(q), d)[i], q.scales[d]) == q.codes[i][d]
    {
      assert codes[i] == Code(cb[i][d], scale) == q.codes[i][d];
      assert QuantizedColumn(DequantizedColumn(codes, scale), scale)[i] == Code(DequantizedColumn(codes, scale)[i], scale);
    }
  }

  lemma PositiveScale(col: seq<real>, half: real -> real)
    requires |col| > 0 && ReachesTop(col, half)
    ensures ScaleOf(col, half) > 0.0
  {
  }

  // int8 quantisation is a projection: what is written after the in-memory cast
  // is exactly the cast, whatever the codebook.
  lemma QuantizeProjects(cb: Codebook, group: nat, half: real -> real)
    requires |cb| > 0 && Rect(cb, group) && AllReachTop(cb, group, half) && half(1.0) == 1.0
    requires forall x: real {:trigger half(x)} :: half(half(x)) == half(x)
    ensures Quantize(Dequantize(Quantize(cb, group, half)), group, half) == Quantize(cb, group, half)
  {
    var q := Quantize(cb, group, half);
    var cb' := Dequantize(q);
    var q' := Quantize(cb', group, half);
    forall d | 0 <= d < group
      ensures q'.scales[d] == q.scales[d]
      ensures forall i :: 0 <= i < |cb| ==> q'.codes[i][d] == q.codes[i][d]
    {
      Stored(Column(cb, d), half);
      OneColumn(cb, group, half, d);
      forall i | 0 <= i < |cb|
        ensures q'.codes[i][d] == q.codes[i][d]
      {
        assert Column(cb', d)[i] == At(cb'[i], d);
      }
    }
    forall i | 0 <= i < |cb|
      ensures q'.codes[i] == q.codes[i]
    {
    }
  }

  // A rounded scale is its own rounding.
  lemma Stored(col: seq<real>, half: real -> real)
    requires |col| > 0 && forall x: real {:trigger half(x)} :: half(half(x)) == half(x)
    ensures half(ScaleOf(col, half)) == ScaleOf(col, half)
  {
  }

  lemma FineProjects(cb: Codebook, group: nat, half: real -> real)
    requires |cb| > 0 && Rect(cb, group) && FineRounding(half)
    ensures Quantize(Dequantize(Quantize(cb, group, half)), group, half) == Quantize(cb, group, half)
    ensures forall d :: 0 <= d < group && MaxAbs(Column(cb, d)) > 0.0 ==>
      ScaleOf(Column(cb, d), half) > 0.0 && HitsTop(QuantizedColumn(Column(cb, d), ScaleOf(Column(cb, d), half)))
  {
    hide MaxAbs, ScaleOf, HitsTop, QuantizedColumn, Quantize, Dequantize;
    forall d | 0 <= d < group
      ensures ReachesTop(Column(cb, d), half)
    {
      FineReachesTop(Column(cb, d), half);
    }
    QuantizeProjects(cb, group, half);
    forall d | 0 <= d < group && MaxAbs(Column(cb, d)) > 0.0
      ensures ScaleOf(Column(cb, d), half) > 0.0 && HitsTop(QuantizedColumn(Column(cb, d), ScaleOf(Column(cb, d), half)))
    {
      PositiveScale(Column(cb, d), half);
      LargestAtTop(Column(cb, d), half);
    }
  }

  // -------------------------------------------------- when requantising is exact

  function Size(q: int): nat {
    if q < 0 then -q else q
  }

  // The largest magnitude among the codes of a column.
  function Top(q: seq<int>): (m: nat)
    ensures forall i :: 0 <= i < |q| ==> Size(q[i]) <= m
    ensures |q| > 0 ==> exists i :: 0 <= i < |q| && Size(q[i]) == m
  {
    if |q| == 0 then 0
    else
      var m, last := Top(q[..|q| - 1]), Size(q[|q| - 1]);
      assert forall i :: 0 <= i < |q| - 1 ==> q[..|q| - 1][i] == q[i];
      Max(m, last)
  }

  // The scale the levels of a column are given when quantised again.
  function NextScale(q: seq<int>, scale: real, half: real -> real): real {
    half(if Top(q) > 0 then Level(Top(q), scale) / 127.0 else 1.0)
  }

  // The largest level is the level of the largest code.
  lemma LargestLevel(q: seq<int>, scale: real)
    requires |q| > 0 && scale > 0.0
    ensures MaxAbs(DequantizedColumn(q, scale)) == Level(Top(q), scale)
  {
    var col, m := DequantizedColumn(q, scale), Top(q);
    hide Level, Abs;
    forall i | 0 <= i < |q|
      ensures Abs(col[i]) <= Level(m, scale)
      ensures Size(q[i]) == m ==> Abs(col[i]) == Level(m, scale)
    {
      LevelWithin(q[i], m, scale);
    }
    var i :| 0 <= i < |q| && Size(q[i]) == m;
    assert Abs(col[i]) == Level(m, scale);
    MaxAbsIs(col, Level(m, scale));
  }

  lemma LevelWithin(q: int, m: nat, scale: real)
    requires scale > 0.0 && Size(q) <= m
    ensures Abs(Level(q, scale)) <= Level(m, scale)
    ensures Size(q) == m ==> Abs(Level(q, scale)) == Level(m, scale)
  {
    ScaleOrder(Size(q) as real, m as real, scale);
    ScaleOrder(q as real, 0.0, scale);
    assert Abs(Level(q, scale)) == Level(Size(q), scale);
  }

  lemma ScaleAgain(q: seq<int>, scale: real, half: real -> real)
    requires |q| > 0 && scale > 0.0
    ensures ScaleOf(DequantizedColumn(q, scale), half) == NextScale(q, scale, half)
  {
    hide MaxAbs, Top;
    LargestLevel(q, scale);
    ScaleOrder(0.0, Top(q) as real, scale);
  }

  // A column is given back as it is exactly when its scale is.
  lemma ColumnGivenBackIff(q: seq<int>, scale: real, half: real -> real)
    requires |q| > 0 && scale > 0.0 && forall i :: 0 <= i < |q| ==> -127 <= q[i] <= 127
    ensures var col := DequantizedColumn(q, scale);
      (ScaleOf(col, half) == scale && QuantizedColumn(col, scale) == q) <==> NextScale(q, scale, half) == scale
  {
    hide ScaleOf, NextScale;
    ScaleAgain(q, scale, half);
    forall i | 0 <= i < |q|
      ensures Code(DequantizedColumn(q, scale)[i], scale) == q[i]
    {
      CodeOfLevel(q[i], scale);
    }
  }

  function CodeColumn(q: Quantized, d: int): (r: seq<int>)
    ensures |r| == |q.codes|
  {
    seq(|q.codes|, i requires 0 <= i < |q.codes| => IntAt(q.codes[i], d))
  }

  ghost predicate ScalesPositive(q: Quantized) {
    forall d :: 0 <= d < |q.scales| ==> q.scales[d] > 0.0
  }

  // What the quantiser writes: a code per element, a scale per column.
  ghost predicate CodesOk(q: Quantized, group: nat) {
    && |q.codes| > 0 && |q.scales| == group
    && forall i :: 0 <= i < |q.codes| ==> |q.codes[i]| == group && forall d :: 0 <= d < group ==> -127 <= q.codes[i][d] <= 127
  }

  lemma QuantizeOk(cb: Codebook, group: nat, half: real -> real)
    requires |cb| > 0
    ensures CodesOk(Quantize(cb, group, half), group)
  {
    hide ScaleOf;
  }

  lemma LevelColumn(q: Quantized, group: nat, d: nat)
    requires CodesOk(q, group) && d < group
    ensures Column(Dequantize(q), d) == DequantizedColumn(CodeColumn(q, d), q.scales[d])
  {
    hide Level;
    var cb := Dequantize(q);
    forall i | 0 <= i < |cb|
      ensures Column(cb, d)[i] == DequantizedColumn(CodeColumn(q, d), q.scales[d])[i]
    {
      assert cb[i][d] == Level(q.codes[i][d], At(q.scales, d));
    }
  }

  // One column of the codebook quantised again.
  lemma ColumnAgain(q: Quantized, group: nat, half: real -> real, d: nat)
    requires CodesOk(q, group) && d < group && q.scales[d] > 0.0
    ensures var q' := Quantize(Dequantize(q), group, half);
      && q'.scales[d] == NextScale(CodeColumn(q, d), q.scales[d], half)
      && (q'.scales[d] == q.scales[d] ==> forall i :: 0 <= i < |q.codes| ==> q'.codes[i][d] == q.codes[i][d])
  {
    hide ScaleOf, NextScale, Level, Code;
    var cb, col, scale := Dequantize(q), CodeColumn(q, d), q.scales[d];
    var q' := Quantize(cb, group, half);
    LevelColumn(q, group, d);
    ScaleAgain(col, scale, half);
    if q'.scales[d] == scale {
      forall i | 0 <= i < |q.codes|
        ensures q'.codes[i][d] == q.codes[i][d]
      {
        CodeOfLevel(q.codes[i][d], scale);
        assert Column(cb, d)[i] == DequantizedColumn(col, scale)[i];
      }
    }
  }

  // Writing a stored codebook again changes nothing exactly when every column's
  // scale is the rounding of its largest level over 127.
  lemma RequantizeIff(q: Quantized, group: nat, half: real -> real)
    requires CodesOk(q, group) && ScalesPositive(q)
    ensures Quantize(Dequantize(q), group, half) == q
      <==> forall d {:trigger CodeColumn(q, d)} :: 0 <= d < group ==> NextScale(CodeColumn(q, d), q.scales[d], half) == q.scales[d]
  {
    var q' := Quantize(Dequantize(q), group, half);
    hide NextScale, Quantize, Dequantize, CodeColumn;
    forall d | 0 <= d < group
      ensures q'.scales[d] == NextScale(CodeColumn(q, d), q.scales[d], half)
      ensures q'.scales[d] == q.scales[d] ==> forall i :: 0 <= i < |q.codes| ==> q'.codes[i][d] == q.codes[i][d]
    {
      ColumnAgain(q, group, half, d);
    }
    if forall d :: 0 <= d < group ==> q'.scales[d] == q.scales[d] {
      QuantizeShape(Dequantize(q), group, half);
      SameQuantized(q', q, group);
    }
  }

  lemma QuantizeShape(cb: Codebook, group: nat, half: real -> real)
    requires |cb| > 0
    ensures var q := Quantize(cb, group, half); CodesOk(q, group) && |q.codes| == |cb|
  {
    QuantizeOk(cb, group, half);
  }

  lemma SameQuantized(a: Quantized, b: Quantized, group: nat)
    requires CodesOk(a, group) && CodesOk(b, group) && |a.codes| == |b.codes|
    requires forall d :: 0 <= d < group ==> a.scales[d] == b.scales[d]
    requires forall d, i :: 0 <= d < group && 0 <= i < |a.codes| ==> a.codes[i][d] == b.codes[i][d]
    ensures a == b
  {
    forall i | 0 <= i < |a.codes|
      ensures a.codes[i] == b.codes[i]
    {
    }
  }

  // ------------------------------------------------------------------------ fp16

  const STEPS: real := 16777216.0

  // Below 2^-14 fp16 is a grid of step 2^-24, above it within one part in 2048.
  ghost predicate Subnormals(half: real -> real) {
    forall x: real {:trigger half(x)} :: 0.0 <= x < 1.0 / 16384.0 ==> half(x) == RoundEven(x * STEPS) as real / STEPS
  }

  ghost predicate Fp16(half: real -> real) {
    && Subnormals(half) && half(1.0) == 1.0
    && (forall x: real {:trigger half(x)} :: half(half(x)) == half(x))
    && forall x: real {:trigger half(x)} :: 1.0 / 16384.0 <= x <= 65504.0 ==> -x <= 2048.0 * (half(x) - x) <= x
  }

  // Past 126.5 grid steps the largest entry reaches the top.
  lemma Fp16ReachesTop(col: seq<real>, half: real -> real)
    requires |col| > 0 && Fp16(half)
    requires MaxAbs(col) == 0.0 || 126.5 < MaxAbs(col) / 127.0 * STEPS
    requires MaxAbs(col) / 127.0 <= 65504.0
    ensures ReachesTop(col, half)
  {
    hide MaxAbs;
    if MaxAbs(col) > 0.0 {
      var x := MaxAbs(col) / 127.0;
      assert MaxAbs(col) == 127.0 * x;
      if x < 1.0 / 16384.0 {
        var steps := RoundEven(x * STEPS) as real;
        assert half(x) == steps / STEPS && steps <= x * STEPS + 0.5;
        assert steps >= 126.0;
        assert 126.5 * steps < 127.0 * (x * STEPS);
      } else {
        assert -x <= 2048.0 * (half(x) - x) <= x;
      }
    }
  }

  ghost predicate AboveGrid(cb: Codebook, group: nat)
    requires |cb| > 0
  {
    forall d {:trigger Column(cb, d)} :: 0 <= d < group ==>
      var m := MaxAbs(Column(cb, d));
      (m == 0.0 || 126.5 < m / 127.0 * STEPS) && m / 127.0 <= 65504.0
  }

  // Stored in fp16, int8 quantisation is a projection on every codebook whose
  // columns keep clear of the grid.
  lemma Fp16Projects(cb: Codebook, group: nat, half: real -> real)
    requires |cb| > 0 && Rect(cb, group) && Fp16(half) && AboveGrid(cb, group)
    ensures Quantize(Dequantize(Quantize(cb, group, half)), group, half) == Quantize(cb, group, half)
  {
    forall d | 0 <= d < group
      ensures ReachesTop(Column(cb, d), half)
    {
      Fp16ReachesTop(Column(cb, d), half);
    }
    QuantizeProjects(cb, group, half);
  }

  // On the grid it fails: 190.627 steps are coded 95 at a scale of two steps,
  // and the level, 190 steps, is given a scale of one step.
  lemma SubnormalScaleFails(half: real -> real)
    requires Subnormals(half)
    ensures var col := [190.627 / STEPS];
      && ScaleOf(col, half) == 2.0 / STEPS && QuantizedColumn(col, 2.0 / STEPS) == [95]
      && ScaleOf(DequantizedColumn([95], 2.0 / STEPS), half) == 1.0 / STEPS
    ensures Quantize(Dequantize(Quantize([[190.627 / STEPS]], 1, half)), 1, half) != Quantize([[190.627 / STEPS]], 1, half)
  {
    var x := 190.627 / STEPS;
    var col, level := [x], 190.0 / STEPS;
    assert MaxAbs(col) == x;
    assert x / 127.0 * STEPS == 190.627 / 127.0 && RoundEven(190.627 / 127.0) == 2;
    assert ScaleOf(col, half) == 2.0 / STEPS;
    assert Ratio(x, 2.0 / STEPS) == 95.3135 && RoundEven(95.3135) == 95;
    assert DequantizedColumn([95], 2.0 / STEPS) == [level];
    assert MaxAbs([level]) == level;
    assert level / 127.0 * STEPS == 190.0 / 127.0 && RoundEven(190.0 / 127.0) == 1;
    var cb := [col];
    assert Column(cb, 0) == col;
    var q := Quantize(cb, 1, half);
    assert q.scales[0] == 2.0 / STEPS && q.codes[0][0] == 95;
    var cb' := Dequantize(q);
    assert Column(cb', 0) == [level];
    assert Quantize(cb', 1, half).scales[0] == 1.0 / STEPS;
  }
}
