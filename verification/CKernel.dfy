// kernel/orka_vq.c: the CPU kernel decodes in place, in C loops over one
// scratch buffer and one output buffer. A NULL pointer is None.

module CKernel {
  import opened Basics
  import opened Layout
  import opened Sums
  import opened Reference

  datatype CStage = CStage(groupSize: int, codebookSize: nat, codebook: Option<seq<real>>, indices: Option<seq<int>>)

  datatype CTensor = CTensor(
    packedValues: nat, paddedValues: nat, rows: nat, cols: nat,
    nStages: int, stages: Option<seq<CStage>>,
    blockScaleSize: int, scaleCount: int, scales: Option<seq<real>>,
    outlierCount: int, outlierPos: Option<seq<int>>, outlierVal: Option<seq<real>>,
    salientCount: int, salientIdx: Option<seq<int>>, salientVal: Option<seq<real>>,
    lowrankRank: int, lowrankA: Option<seq<real>>, lowrankB: Option<seq<real>>)

  // ------------------------------------------ the tensor a C struct stands for

  predicate StageUsable(st: CStage) {
    st.groupSize > 0 && st.codebook.Some? && st.indices.Some?
  }

  function ToStage(st: CStage): Stage
    requires StageUsable(st)
  {
    Stage(st.groupSize, st.codebookSize, st.codebook.value, st.indices.value)
  }

  predicate AllUsable(t: CTensor, n: nat)
    requires t.stages.Some? && n <= |t.stages.value|
  {
    forall s :: 0 <= s < n ==> StageUsable(t.stages.value[s])
  }

  function ToStages(t: CTensor, n: nat): (r: seq<Stage>)
    requires t.stages.Some? && n <= |t.stages.value| && AllUsable(t, n)
    ensures |r| == n
    ensures forall s :: 0 <= s < n ==> r[s] == ToStage(t.stages.value[s])
  {
    seq(n, s requires 0 <= s < n => ToStage(t.stages.value[s]))
  }

  function Pairs(count: int, pos: Option<seq<int>>, val: Option<seq<real>>): (r: Sidecar)
    ensures count > 0 && pos.Some? && val.Some? ==> |r| == count
  {
    if count > 0 && pos.Some? && val.Some?
    then seq(count, o => (IntAt(pos.value, o), At(val.value, o)))
    else []
  }

  function Block(t: CTensor): pos {
    if t.blockScaleSize > 0 then t.blockScaleSize else 32
  }

  function Scales(t: CTensor): Option<seq<real>> {
    if t.blockScaleSize > 0 && t.scales.Some? && 0 < t.scaleCount <= |t.scales.value|
    then Some(t.scales.value[..t.scaleCount]) else None
  }

  function LowrankOf(t: CTensor): Option<Lowrank> {
    if t.lowrankRank > 0 && t.lowrankA.Some? && t.lowrankB.Some? && t.rows * t.cols <= t.packedValues
    then Some(Lowrank(t.lowrankRank, t.lowrankA.value, t.lowrankB.value)) else None
  }

  // The kernel has no pillar input: pillars reach it merged into the outliers.
  function Abs(t: CTensor): Tensor
    requires Accepted(t)
  {
    Tensor(t.rows, t.cols, t.stages.value[0].groupSize, t.packedValues, t.paddedValues,
           ToStages(t, t.nStages),
           Pairs(t.outlierCount, t.outlierPos, t.outlierVal), [],
           Scales(t), Block(t),
           Pairs(t.salientCount, t.salientIdx, t.salientVal),
           LowrankOf(t))
  }

  // ------------------------------------------------------ structural checks

  predicate HasStages(t: CTensor) {
    t.nStages > 0 && t.stages.Some?
  }

  predicate Accepted(t: CTensor) {
    HasStages(t) && t.nStages <= |t.stages.value| && AllUsable(t, t.nStages)
  }

  // What orka_vq.h asks of the caller: buffers as long as their counts say, and
  // every stage decoding to the same padded element count.
  predicate StageBuffers(st: CStage, group: pos, padded: nat) {
    StageUsable(st) ==>
      && |st.indices.value| == CeilDiv(padded, st.groupSize)
      && |st.codebook.value| == st.codebookSize * st.groupSize
      && CeilDiv(padded, st.groupSize) * st.groupSize == CeilDiv(padded, group) * group
      && forall v :: 0 <= v < |st.indices.value| ==> 0 <= st.indices.value[v] < st.codebookSize
  }

  predicate Buffers(t: CTensor) {
    && t.packedValues <= t.paddedValues
    && (HasStages(t) ==>
          && t.nStages <= |t.stages.value|
          && (t.stages.value[0].groupSize > 0 ==>
                forall s :: 0 <= s < t.nStages ==> StageBuffers(t.stages.value[s], t.stages.value[0].groupSize, t.paddedValues)))
    && (t.outlierPos.Some? ==> |t.outlierPos.value| >= t.outlierCount)
    && (t.outlierVal.Some? ==> |t.outlierVal.value| >= t.outlierCount)
    && (t.salientIdx.Some? ==> |t.salientIdx.value| >= t.salientCount)
    && (t.salientVal.Some? ==> |t.salientVal.value| >= t.salientCount)
    && (t.scales.Some? ==> |t.scales.value| >= t.scaleCount)
    && (t.lowrankRank > 0 && t.lowrankA.Some? ==> |t.lowrankA.value| == t.rows * t.lowrankRank)
    && (t.lowrankRank > 0 && t.lowrankB.Some? ==> |t.lowrankB.value| == t.cols * t.lowrankRank)
  }

  // ------------------------------------------------------------ the C steps

  // Step 1, one stage: the two inner loops over acc.
  method AddStage(acc: array<real>, st: CStage, count: nat)
    requires StageUsable(st)
    requires |st.indices.value| == count && count * st.groupSize == acc.Length
    requires |st.codebook.value| == st.codebookSize * st.groupSize
    requires forall v :: 0 <= v < count ==> 0 <= st.indices.value[v] < st.codebookSize
    modifies acc
    ensures forall i :: 0 <= i < acc.Length ==> acc[i] == old(acc[i]) + Gather(ToStage(st), i)
  {
    var g: pos := st.groupSize;
    for v := 0 to count
      invariant forall i :: 0 <= i < v * g && i < acc.Length ==> acc[i] == old(acc[i]) + Gather(ToStage(st), i)
      invariant forall i :: v * g <= i < acc.Length ==> acc[i] == old(acc[i])
    {
      var idx := st.indices.value[v];
      assert v * g + g == (v + 1) * g <= count * g by { MulMono(v + 1, count, g); }
      for j := 0 to g
        invariant forall i :: 0 <= i < v * g + j && i < acc.Length ==> acc[i] == old(acc[i]) + Gather(ToStage(st), i)
        invariant forall i :: v * g + j <= i < acc.Length ==> acc[i] == old(acc[i])
      {
        FlatBound(idx, j, st.codebookSize, g);
        DivModOf(v, g, j);
        assert 0 <= v * g + j < acc.Length;
        acc[v * g + j] := acc[v * g + j] + st.codebook.value[idx * g + j];
      }
    }
  }

  // Steps 3 and 5: guarded writes of a scatter list.
  method Inject(out: array<real>, n: nat, side: Sidecar)
    requires n <= out.Length
    modifies out
    ensures forall i :: 0 <= i < n ==> out[i] == Overwrite(side, i, old(out[i]))
    ensures forall i :: n <= i < out.Length ==> out[i] == old(out[i])
  {
    for o := 0 to |side|
      invariant forall i :: 0 <= i < n ==> out[i] == LastWrite(side, o, i, old(out[i]))
      invariant forall i :: n <= i < out.Length ==> out[i] == old(out[i])
    {
      var p := side[o].0;
      if p >= 0 && p < n {
        out[p] := side[o].1;
      }
    }
  }

  // Step 4.
  method ScaleBlocks(t: CTensor, out: array<real>, n: nat)
    requires n <= out.Length && Buffers(t)
    modifies out
    ensures forall i :: 0 <= i < n ==> out[i] == Scaled(old(out[i]), Scales(t), Block(t), i)
    ensures forall i :: n <= i < out.Length ==> out[i] == old(out[i])
  {
    if t.blockScaleSize > 0 && t.scales.Some? && t.scaleCount > 0 {
      var bs: pos := t.blockScaleSize;
      hide Times;
      for i := 0 to n
        invariant forall k :: 0 <= k < i ==> out[k] == Scaled(old(out[k]), Scales(t), Block(t), k)
        invariant forall k :: i <= k < out.Length ==> out[k] == old(out[k])
      {
        var b := i / bs;
        var scale := if b < t.scaleCount then t.scales.value[b] else 1.0;
        out[i] := Times(out[i], scale);
      }
    }
  }

  ghost function DotTerm(a: seq<real>, b: seq<real>, rank: nat, i: nat, jc: nat): int -> real {
    (k: int) => At(a, i * rank + k) * At(b, jc * rank + k)
  }

  // Step 6, one element: row i of A against row jc of B.
  method DotElement(a: seq<real>, b: seq<real>, rank: nat, i: nat, jc: nat) returns (dot: real)
    ensures dot == Sum(DotTerm(a, b, rank, i, jc), rank)
  {
    dot := 0.0;
    for k := 0 to rank
      invariant dot == Sum(DotTerm(a, b, rank, i, jc), k)
    {
      dot := dot + At(a, i * rank + k) * At(b, jc * rank + k);
    }
  }

  // Step 6, one row: the inner loop over jc.
  method AddProducts(out: array<real>, start: nat, cols: nat, a: seq<real>, b: seq<real>, rank: nat, i: nat)
    requires start + cols <= out.Length
    modifies out
    ensures forall jc :: 0 <= jc < cols ==> out[start + jc] == old(out[start + jc]) + Sum(DotTerm(a, b, rank, i, jc), rank)
    ensures forall k :: 0 <= k < out.Length && !(start <= k < start + cols) ==> out[k] == old(out[k])
  {
    hide DotTerm;
    for jc := 0 to cols
      invariant forall j :: 0 <= j < jc ==> out[start + j] == old(out[start + j]) + Sum(DotTerm(a, b, rank, i, j), rank)
      invariant forall k :: 0 <= k < out.Length && !(start <= k < start + jc) ==> out[k] == old(out[k])
    {
      var dot := DotElement(a, b, rank, i, jc);
      out[start + jc] := out[start + jc] + dot;
    }
  }

  method AddLowrankRow(t: CTensor, out: array<real>, i: nat)
    requires Accepted(t) && LowrankOf(t).Some? && i < t.rows && t.packedValues <= out.Length
    modifies out
    ensures forall k :: Flat(i, t.cols, 0) <= k < Flat(i + 1, t.cols, 0) && k < out.Length ==> out[k] == old(out[k]) + LowrankAt(Abs(t), k)
    ensures forall k :: 0 <= k < out.Length && !(Flat(i, t.cols, 0) <= k < Flat(i + 1, t.cols, 0)) ==> out[k] == old(out[k])
  {
    var cols, start := t.cols, Flat(i, t.cols, 0);
    assert Flat(i + 1, cols, 0) == start + cols;
    assert start + cols <= out.Length by { MulMono(i + 1, t.rows, cols); }
    hide LowrankAt, Flat, DotTerm, Abs;
    AddProducts(out, start, cols, t.lowrankA.value, t.lowrankB.value, t.lowrankRank, i);
    forall k | start <= k < start + cols
      ensures out[k] == old(out[k]) + LowrankAt(Abs(t), k)
    {
      var jc := k - start;
      LowrankElement(t, i, jc);
      assert out[start + jc] == old(out[start + jc]) + LowrankAt(Abs(t), start + jc);
    }
  }

  lemma LowrankElement(t: CTensor, i: nat, jc: nat)
    requires Accepted(t) && LowrankOf(t).Some? && i < t.rows && jc < t.cols
    ensures LowrankAt(Abs(t), Flat(i, t.cols, 0) + jc)
         == Sum(DotTerm(t.lowrankA.value, t.lowrankB.value, t.lowrankRank, i, jc), t.lowrankRank)
  {
    DivModOf(i, t.cols, jc);
    FlatBound(i, jc, t.rows, t.cols);
    var lr := LowrankOf(t).value;
    SumCong(LowrankTerm(lr, i, jc), DotTerm(lr.a, lr.b, lr.rank, i, jc), lr.rank);
  }

  // Step 6: out += A @ B^T, row by row.
  method AddLowrankInPlace(t: CTensor, out: array<real>)
    requires Accepted(t) && t.packedValues <= out.Length
    modifies out
    ensures forall i :: 0 <= i < t.packedValues ==> out[i] == old(out[i]) + LowrankAt(Abs(t), i)
    ensures forall i :: t.packedValues <= i < out.Length ==> out[i] == old(out[i])
  {
    if t.lowrankRank > 0 && t.lowrankA.Some? && t.lowrankB.Some? {
      if t.rows * t.cols <= t.packedValues {
        for i := 0 to t.rows
          invariant 0 <= Flat(i, t.cols, 0) <= t.packedValues
          invariant forall k :: 0 <= k < Flat(i, t.cols, 0) ==> out[k] == old(out[k]) + LowrankAt(Abs(t), k)
          invariant forall k :: Flat(i, t.cols, 0) <= k < out.Length ==> out[k] == old(out[k])
        {
          MulMono(i + 1, t.rows, t.cols);
          AddLowrankRow(t, out, i);
        }
      }
    }
  }

  method SumStagesInPlace(t: CTensor, acc: array<real>) returns (ok: bool)
    requires HasStages(t) && Buffers(t) && t.stages.value[0].groupSize > 0
    requires acc.Length == CeilDiv(t.paddedValues, t.stages.value[0].groupSize) * t.stages.value[0].groupSize
    requires forall i :: 0 <= i < acc.Length ==> acc[i] == 0.0
    modifies acc
    ensures ok <==> Accepted(t)
    ensures ok ==> forall i :: 0 <= i < acc.Length ==> acc[i] == StageSum(Abs(t).stages, t.nStages, i)
  {
    for s := 0 to t.nStages
      invariant AllUsable(t, s)
      invariant forall i :: 0 <= i < acc.Length ==> acc[i] == StageSum(ToStages(t, s), s, i)
    {
      var st := t.stages.value[s];
      if st.groupSize <= 0 || st.codebook.None? || st.indices.None? {
        return false;
      }
      assert StageBuffers(st, t.stages.value[0].groupSize, t.paddedValues);
      AddStage(acc, st, CeilDiv(t.paddedValues, st.groupSize));
      forall i | 0 <= i < acc.Length
        ensures StageSum(ToStages(t, s + 1), s, i) == StageSum(ToStages(t, s), s, i)
      {
        StageSumPrefix(ToStages(t, s + 1), ToStages(t, s), s, i);
      }
    }
    ok := true;
  }

  lemma {:induction false} StageSumPrefix(a: seq<Stage>, b: seq<Stage>, n: nat, i: nat)
    requires n <= |a| && n <= |b| && forall s :: 0 <= s < n ==> a[s] == b[s]
    ensures StageSum(a, n, i) == StageSum(b, n, i)
  {
    if n > 0 {
      StageSumPrefix(a, b, n - 1, i);
    }
  }

  // ---------------------------------------------------------------- the kernel

  function ErrorCode(t: CTensor, gotMemory: bool): int {
    if !HasStages(t) || |t.stages.value| == 0 then -1
    else if t.stages.value[0].groupSize <= 0 then -2
    else if !gotMemory then -3
    else if !Accepted(t) then -4
    else 0
  }

  method Dequantize(t: CTensor, out: array<real>, gotMemory: bool) returns (code: int)
    requires Buffers(t) && t.packedValues <= out.Length
    modifies out
    ensures code == ErrorCode(t, gotMemory) && -4 <= code <= 0
    ensures code == -1 <==> t.nStages <= 0 || t.stages.None?
    ensures code == -2 <==> t.nStages > 0 && t.stages.Some? && t.stages.value[0].groupSize <= 0
    ensures code == -3 <==> t.nStages > 0 && t.stages.Some? && t.stages.value[0].groupSize > 0 && !gotMemory
    ensures code == -4 ==> exists s :: 0 <= s < t.nStages && !StageUsable(t.stages.value[s])
    ensures code == 0 ==> forall s :: 0 <= s < t.nStages ==> StageUsable(t.stages.value[s])
    ensures code == 0 ==> forall i :: 0 <= i < t.packedValues ==> out[i] == Weight(Abs(t), i)
    ensures forall i :: (code != 0 || t.packedValues <= i) && 0 <= i < out.Length ==> out[i] == old(out[i])
  {
    if t.nStages <= 0 || t.stages.None? {
      return -1;
    }
    if t.stages.value[0].groupSize <= 0 {
      return -2;
    }
    if !gotMemory {
      return -3;
    }
    var group: pos := t.stages.value[0].groupSize;
    var acc := new real[CeilDiv(t.paddedValues, group) * group](i => 0.0);
    var ok := SumStagesInPlace(t, acc);
    if !ok {
      return -4;
    }
    var n := t.packedValues;
    assert n <= acc.Length by { CeilDivCovers(t.paddedValues, group); }
    for i := 0 to n
      invariant forall k :: 0 <= k < i ==> out[k] == acc[k]
      invariant forall k :: i <= k < out.Length ==> out[k] == old(out[k])
      invariant forall k :: 0 <= k < acc.Length ==> acc[k] == StageSum(Abs(t).stages, t.nStages, k)
    {
      out[i] := acc[i];
    }
    Finish(t, out);
    code := 0;
  }

  // Steps 3 to 6, in the kernel's order.
  method Finish(t: CTensor, out: array<real>)
    requires Accepted(t) && Buffers(t) && t.packedValues <= out.Length
    requires forall i :: 0 <= i < t.packedValues ==> out[i] == StageSum(Abs(t).stages, t.nStages, i)
    modifies out
    ensures forall i :: 0 <= i < t.packedValues ==> out[i] == Weight(Abs(t), i)
    ensures forall i :: t.packedValues <= i < out.Length ==> out[i] == old(out[i])
  {
    var n := t.packedValues;
    ghost var a := Abs(t);
    Inject(out, n, Pairs(t.outlierCount, t.outlierPos, t.outlierVal));
    assert forall i :: 0 <= i < n ==> out[i] == Escaped(a, i);
    ScaleBlocks(t, out, n);
    assert forall i :: 0 <= i < n ==> out[i] == Scaled(Escaped(a, i), a.scales, a.block, i);
    Inject(out, n, SalientFlat(Pairs(t.salientCount, t.salientIdx, t.salientVal), Block(t)));
    assert forall i :: 0 <= i < n ==> out[i] == BaseWeight(a, i);
    AddLowrankInPlace(t, out);
  }

  // ------------------------------------------- the struct a loader fills in

  function FromStage(st: Stage): CStage {
    CStage(st.group, st.k, Some(st.codebook), Some(st.indices))
  }

  function FromTensor(t: Tensor): CTensor {
    CTensor(t.packed, t.padded, t.rows, t.cols,
            |t.stages|, Some(seq(|t.stages|, s requires 0 <= s < |t.stages| => FromStage(t.stages[s]))),
            if t.scales.Some? then t.block else 0,
            if t.scales.Some? then |t.scales.value| else 0, t.scales,
            |t.outliers|, Some(Firsts(t.outliers)), Some(Seconds(t.outliers)),
            |t.salient|, Some(Firsts(t.salient)), Some(Seconds(t.salient)),
            if t.lowrank.Some? then t.lowrank.value.rank else 0,
            if t.lowrank.Some? then Some(t.lowrank.value.a) else None,
            if t.lowrank.Some? then Some(t.lowrank.value.b) else None)
  }

  function Firsts(side: Sidecar): seq<int> {
    seq(|side|, o requires 0 <= o < |side| => side[o].0)
  }

  function Seconds(side: Sidecar): seq<real> {
    seq(|side|, o requires 0 <= o < |side| => side[o].1)
  }

  // Entries the loader can hand over: decodable, with pillars merged into
  // outliers, and the default block of 32 where no block scales are stored.
  predicate Loadable(t: Tensor) {
    && Padded(t) && Decodable(t)
    && |t.stages| > 0
    && t.pillars == []
    && (t.scales.None? ==> t.block == 32)
  }

  lemma LoadedBuffers(t: Tensor)
    requires Loadable(t)
    ensures Buffers(FromTensor(t)) && Accepted(FromTensor(t))
  {
    var c := FromTensor(t);
    forall s | 0 <= s < c.nStages
      ensures StageBuffers(c.stages.value[s], t.group, t.padded)
    {
      assert StageOk(t.stages[s], t.group, t.padded);
    }
  }

  lemma LoadedFields(t: Tensor)
    requires Loadable(t) && Accepted(FromTensor(t))
    ensures var a := Abs(FromTensor(t));
      && a.stages == t.stages && a.outliers == t.outliers && a.salient == t.salient && a.pillars == []
      && a.rows == t.rows && a.cols == t.cols && a.lowrank == t.lowrank
      && (t.packed > 0 ==> a.block == t.block && a.scales == t.scales)
  {
    var c := FromTensor(t);
    var a := Abs(c);
    assert a.stages == t.stages;
    assert a.outliers == t.outliers;
    assert a.salient == t.salient;
    if t.packed > 0 {
      CeilDivCovers(t.packed, t.block);
      assert t.scales.Some? ==> a.scales.value == t.scales.value;
    }
  }

  // The kernel accepts every loadable entry, and what it then computes is the
  // reference weight of that very entry.
  lemma KernelMatchesReference(t: Tensor)
    requires Loadable(t)
    ensures Buffers(FromTensor(t)) && ErrorCode(FromTensor(t), true) == 0
    ensures forall i :: 0 <= i < t.packed ==> Weight(Abs(FromTensor(t)), i) == Weight(t, i)
  {
    LoadedBuffers(t);
    LoadedFields(t);
    var a := Abs(FromTensor(t));
    forall i | 0 <= i < t.packed
      ensures Weight(a, i) == Weight(t, i)
    {
      assert Escaped(a, i) == Escaped(t, i);
      assert LowrankAt(a, i) == LowrankAt(t, i);
    }
  }
}
