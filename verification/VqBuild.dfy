// Building a VQLinear from a packed tensor (orka/inference/_vq_build.py): the
// overwrites of the reference decoder become one sparse delta, and the buffers
// change layout in place.

module VqBuild {
  import opened Basics
  import opened Layout
  import opened Sums
  import opened Reference
  import opened CsrMatrix
  import opened VqLayer
  import opened VqLinear

  // One group size, the whole matrix packed, codebooks an int32 can index.
  predicate Buildable(t: Tensor) {
    && Padded(t) && Decodable(t)
    && t.packed == t.rows * t.cols
    && t.padded == CeilDiv(t.packed, t.group) * t.group
    && forall s :: 0 <= s < |t.stages| ==> t.stages[s].group == t.group && t.stages[s].k <= 0x8000_0000
  }

  function Ks(t: Tensor): (r: seq<nat>)
    ensures |r| == |t.stages|
  {
    seq(|t.stages|, s requires 0 <= s < |t.stages| => t.stages[s].k)
  }

  ghost predicate SameShape(layer: VQLinear, t: Tensor) {
    layer.rows == t.rows && layer.cols == t.cols && layer.group == t.group && layer.block == t.block
  }

  // ------------------------------------------------------------ loading buffers

  function StoreOfStage(t: Tensor, s: nat): Store
    requires Buildable(t) && s < |t.stages|
  {
    assert StageOk(t.stages[s], t.group, t.padded);
    ToStore(t.stages[s].indices, t.stages[s].k)
  }

  // The payload a freshly loaded layer holds.
  function Loaded(t: Tensor): Layer
    requires Buildable(t)
  {
    Layer(t.rows, t.cols, t.group, t.block,
          seq(|t.stages|, s requires 0 <= s < |t.stages| => StoreOfStage(t, s)),
          seq(|t.stages|, s requires 0 <= s < |t.stages| => t.stages[s].codebook),
          LoadedScales(t), false)
  }

  function LoadedScales(t: Tensor): seq<real>
    requires Buildable(t)
  {
    var n := CeilDiv(t.packed, t.block);
    if t.scales.Some? then t.scales.value[..n] else Filled(n, 1.0)
  }

  lemma LoadedStage(t: Tensor, s: nat)
    requires Buildable(t) && s < |t.stages|
    ensures StoreOk(StoreOfStage(t, s), CeilDiv(t.packed, t.group))
    ensures forall q :: 0 <= q < CeilDiv(t.packed, t.group) ==> ReadStore(StoreOfStage(t, s), q) == IntAt(t.stages[s].indices, q)
  {
    StageCounts(t);
    assert StageOk(t.stages[s], t.group, t.padded);
    StoreRoundTrip(t.stages[s].indices, t.stages[s].k);
  }

  lemma LoadedHolds(t: Tensor)
    requires Buildable(t)
    ensures LayerOk(Loaded(t)) && Holds(Loaded(t), t)
  {
    forall s | 0 <= s < |t.stages|
      ensures StoreOk(StoreOfStage(t, s), CeilDiv(t.packed, t.group))
      ensures forall q :: 0 <= q < CeilDiv(t.packed, t.group) ==> ReadStore(StoreOfStage(t, s), q) == IntAt(t.stages[s].indices, q)
    {
      LoadedStage(t, s);
    }
  }

  method LoadStages(layer: VQLinear, t: Tensor)
    requires Buildable(t)
    requires |layer.stores| == |layer.codebooks| == |t.stages|
    modifies layer`stores, layer`codebooks
    ensures layer.stores == Loaded(t).stores && layer.codebooks == Loaded(t).codebooks
  {
    for s := 0 to |t.stages|
      invariant |layer.stores| == |layer.codebooks| == |t.stages|
      invariant forall s' :: 0 <= s' < s ==> layer.codebooks[s'] == t.stages[s'].codebook
      invariant forall s' :: 0 <= s' < s ==> layer.stores[s'] == StoreOfStage(t, s')
    {
      var st := t.stages[s];
      assert StageOk(st, t.group, t.padded);
      layer.stores := layer.stores[s := ToStore(st.indices, st.k)];
      layer.codebooks := layer.codebooks[s := st.codebook];
    }
  }

  method RegisterLayerBuffers(layer: VQLinear, t: Tensor)
    requires Buildable(t) && SameShape(layer, t)
    requires |layer.stores| == |layer.codebooks| == |t.stages| && !layer.groupMajor
    requires layer.scales == Filled(CeilDiv(t.packed, t.block), 1.0)
    modifies layer`stores, layer`codebooks, layer`scales
    ensures layer.Payload() == Loaded(t)
  {
    LoadStages(layer, t);
    if t.scales.Some? {
      layer.scales := t.scales.value[..CeilDiv(t.packed, t.block)];
    }
  }

  lemma StageCounts(t: Tensor)
    requires Buildable(t)
    ensures forall s :: 0 <= s < |t.stages| ==> |t.stages[s].indices| == CeilDiv(t.packed, t.group)
  {
    CeilDivExact(CeilDiv(t.packed, t.group), t.group);
    forall s | 0 <= s < |t.stages|
      ensures |t.stages[s].indices| == CeilDiv(t.packed, t.group)
    {
      assert StageOk(t.stages[s], t.group, t.padded);
    }
  }

  // --------------------------------------------- the dictionary of final values

  // An insertion-ordered dictionary: its keys in order, and its contents.
  datatype Dict = Dict(keys: seq<int>, vals: map<int, real>)

  ghost predicate DictOk(d: Dict) {
    && (forall a, b :: 0 <= a < b < |d.keys| ==> d.keys[a] != d.keys[b])
    && (forall p :: p in d.keys <==> p in d.vals)
  }

  predicate Mentions(side: Sidecar, n: nat, p: int)
    requires n <= |side|
  {
    exists j :: 0 <= j < n && side[j].0 == p
  }

  // final_vals.update(zip(positions, values))
  method Update(d: Dict, side: Sidecar) returns (r: Dict)
    requires DictOk(d)
    ensures DictOk(r)
    ensures forall p :: p in r.vals <==> p in d.vals || Mentions(side, |side|, p)
    ensures forall p :: p in r.vals ==> r.vals[p] == Overwrite(side, p, if p in d.vals then d.vals[p] else 0.0)
  {
    r := d;
    for j := 0 to |side|
      invariant DictOk(r)
      invariant forall p :: p in r.vals <==> p in d.vals || Mentions(side, j, p)
      invariant forall p :: p in r.vals ==> r.vals[p] == LastWrite(side, j, p, if p in d.vals then d.vals[p] else 0.0)
    {
      var (p, v) := side[j];
      if p !in r.vals {
        r := Dict(r.keys + [p], r.vals[p := v]);
      } else {
        r := r.(vals := r.vals[p := v]);
      }
      MentionsNext(side, j);
    }
  }

  lemma MentionsNext(side: Sidecar, j: nat)
    requires j < |side|
    ensures forall q :: Mentions(side, j + 1, q) <==> Mentions(side, j, q) || q == side[j].0
  {
    forall q
      ensures Mentions(side, j + 1, q) <==> Mentions(side, j, q) || q == side[j].0
    {
      if Mentions(side, j, q) {
        var i :| 0 <= i < j && side[i].0 == q;
        assert 0 <= i < j + 1 && side[i].0 == q;
      } else if q == side[j].0 {
        assert 0 <= j < j + 1 && side[j].0 == q;
      }
    }
  }

  lemma {:induction false} UnmentionedKeepsBase(side: Sidecar, n: nat, p: int, base: real)
    requires n <= |side| && !Mentions(side, n, p)
    ensures LastWrite(side, n, p, base) == base
  {
    if n > 0 {
      assert side[n - 1].0 != p;
      assert !Mentions(side, n - 1, p);
      UnmentionedKeepsBase(side, n - 1, p, base);
    }
  }

  lemma {:induction false} MentionedForgetsBase(side: Sidecar, n: nat, p: int, a: real, b: real)
    requires n <= |side| && Mentions(side, n, p)
    ensures LastWrite(side, n, p, a) == LastWrite(side, n, p, b)
  {
    if side[n - 1].0 != p {
      assert Mentions(side, n - 1, p);
      MentionedForgetsBase(side, n - 1, p, a, b);
    }
  }

  // values[mask] * scale at flat_pos[mask], with mask = flat_pos < total
  function ScaledOutliers(t: Tensor, total: nat): (r: Sidecar)
    requires InRange(t.outliers, total)
    ensures |r| == |t.outliers|
  {
    seq(|t.outliers|, j requires 0 <= j < |t.outliers| =>
      (t.outliers[j].0, Scaled(t.outliers[j].1, t.scales, t.block, t.outliers[j].0)))
  }

  lemma {:induction false} ScaledWrite(t: Tensor, n: nat, p: nat, base: real)
    requires InRange(t.outliers, t.packed) && n <= |t.outliers| && Mentions(t.outliers, n, p)
    ensures LastWrite(ScaledOutliers(t, t.packed), n, p, 0.0)
         == Scaled(LastWrite(t.outliers, n, p, base), t.scales, t.block, p)
  {
    if t.outliers[n - 1].0 != p {
      assert Mentions(t.outliers, n - 1, p);
      ScaledWrite(t, n - 1, p, base);
    }
  }

  // The first n_scale salients, flattened, positions past the end masked out.
  function KeptSalients(t: Tensor): Sidecar {
    var n := CeilDiv(t.packed, t.block);
    Masked(SalientFlat(if |t.salient| <= n then t.salient else t.salient[..n], t.block), t.packed)
  }

  function Masked(side: Sidecar, total: nat): (r: Sidecar)
    ensures forall j :: 0 <= j < |r| ==> r[j].0 < total
    ensures (forall j :: 0 <= j < |side| ==> 0 <= side[j].0) ==> InRange(r, total)
  {
    if |side| == 0 then []
    else
      var rest := Masked(side[..|side| - 1], total);
      if side[|side| - 1].0 < total then rest + [side[|side| - 1]] else rest
  }

  lemma {:induction false} MaskedWrite(side: Sidecar, total: nat, p: int, base: real)
    requires p < total
    ensures Overwrite(Masked(side, total), p, base) == Overwrite(side, p, base)
  {
    if |side| > 0 {
      var front := side[..|side| - 1];
      MaskedWrite(front, total, p, base);
      LastWritePrefix(side, front, |front|, p, base);
      var m := Masked(front, total);
      if side[|side| - 1].0 < total {
        LastWritePrefix(Masked(side, total), m, |m|, p, base);
      }
    }
  }

  lemma {:induction false} LateSalients(flat: Sidecar, keep: nat, n: nat, p: int, base: real)
    requires keep <= n <= |flat| && forall b :: keep <= b < n ==> flat[b].0 > p
    ensures LastWrite(flat, n, p, base) == LastWrite(flat, keep, p, base)
  {
    if n > keep {
      LateSalients(flat, keep, n - 1, p, base);
    }
  }

  // Dropping salients of blocks past the end changes no written value.
  lemma KeptSalientsWrite(t: Tensor, p: nat, base: real)
    requires SalientOk(t) && p < t.packed
    ensures Overwrite(KeptSalients(t), p, base) == Overwrite(SalientFlat(t.salient, t.block), p, base)
  {
    var n := CeilDiv(t.packed, t.block);
    var flat := SalientFlat(t.salient, t.block);
    if |t.salient| > n {
      CeilDivCovers(t.packed, t.block);
      forall b | n <= b < |flat|
        ensures flat[b].0 > p
      {
        MulMono(n, b, t.block);
      }
      LateSalients(flat, n, |flat|, p, base);
      LastWritePrefix(SalientFlat(t.salient[..n], t.block), flat, n, p, base);
    }
    MaskedWrite(SalientFlat(if |t.salient| <= n then t.salient else t.salient[..n], t.block), t.packed, p, base);
  }

  // The reference decode without the parts VQLinear does not read.
  function Served(t: Tensor): Tensor {
    t.(pillars := [], lowrank := None)
  }

  // The dictionary's value, or the scaled stage sum where it has none.
  function FinalAt(t: Tensor, d: Dict, p: nat): real {
    if p in d.vals then d.vals[p] else Scaled(StageSum(t.stages, |t.stages|, p), t.scales, t.block, p)
  }

  // Overwriting pre-scale and post-scale in turn, or looking up one dictionary
  // of final values, salient over outlier: the same element.
  method FinalValues(t: Tensor) returns (d: Dict)
    requires Buildable(t)
    ensures FinalDict(t, d)
    ensures d.keys != [] <==> Corrects(t)
  {
    var outl := ScaledOutliers(t, t.packed);
    var sal := KeptSalients(t);
    var d1 := Update(Dict([], map[]), outl);
    d := Update(d1, sal);
    assert forall p :: Mentions(outl, |outl|, p) <==> Mentions(t.outliers, |t.outliers|, p) by {
      assert forall j :: 0 <= j < |outl| ==> outl[j].0 == t.outliers[j].0;
    }
    SalientPositions(t);
    KeysNonEmpty(outl, sal, d);
    forall p: nat | p < t.packed
      ensures BaseWeight(Served(t), p) == FinalAt(t, d, p)
    {
      FinalValueAt(t, p, d1, d);
    }
  }

  lemma KeysNonEmpty(outl: Sidecar, sal: Sidecar, d: Dict)
    requires DictOk(d)
    requires forall p :: p in d.vals <==> Mentions(outl, |outl|, p) || Mentions(sal, |sal|, p)
    ensures d.keys != [] <==> |outl| > 0 || |sal| > 0
  {
    if d.keys != [] {
      var p := d.keys[0];
      assert p in d.keys;
      assert p in d.vals;
    }
    if |outl| > 0 {
      assert Mentions(outl, |outl|, outl[0].0);
    }
    if |sal| > 0 {
      assert Mentions(sal, |sal|, sal[0].0);
    }
  }

  lemma SalientPositions(t: Tensor)
    requires SalientOk(t)
    ensures InRange(KeptSalients(t), t.packed)
  {
    var n := CeilDiv(t.packed, t.block);
    var kept := if |t.salient| <= n then t.salient else t.salient[..n];
    forall b | 0 <= b < |kept|
      ensures 0 <= SalientFlat(kept, t.block)[b].0
    {
      assert 0 <= t.salient[b].0;
    }
  }

  lemma FinalValueAt(t: Tensor, p: nat, d1: Dict, d: Dict)
    requires Buildable(t) && p < t.packed
    requires p in d1.vals <==> Mentions(t.outliers, |t.outliers|, p)
    requires p in d1.vals ==> d1.vals[p] == Overwrite(ScaledOutliers(t, t.packed), p, 0.0)
    requires p in d.vals <==> p in d1.vals || Mentions(KeptSalients(t), |KeptSalients(t)|, p)
    requires p in d.vals ==> d.vals[p] == Overwrite(KeptSalients(t), p, if p in d1.vals then d1.vals[p] else 0.0)
    ensures BaseWeight(Served(t), p) == FinalAt(t, d, p)
  {
    var vq := StageSum(t.stages, |t.stages|, p);
    var sal := KeptSalients(t);
    var before := Scaled(Overwrite(t.outliers, p, vq), t.scales, t.block, p);
    KeptSalientsWrite(t, p, before);
    assert BaseWeight(Served(t), p) == Overwrite(sal, p, before) by {
      assert Escaped(Served(t), p) == Overwrite(t.outliers, p, vq);
    }
    if p in d1.vals {
      ScaledWrite(t, |t.outliers|, p, vq);
    } else {
      UnmentionedKeepsBase(t.outliers, |t.outliers|, p, vq);
      if p in d.vals {
        MentionedForgetsBase(sal, |sal|, p, 0.0, before);
      } else {
        UnmentionedKeepsBase(sal, |sal|, p, before);
      }
    }
  }

  // ----------------------------------------------------------------- the deltas

  // delta = final - W_vq at every key, in insertion order.
  function Deltas(d: Dict, l: Layer): (r: Sidecar)
    requires |l.stores| == |l.codebooks|
    requires forall j :: 0 <= j < |d.keys| ==> d.keys[j] in d.vals && d.keys[j] >= 0
    ensures |r| == |d.keys|
    ensures forall j :: 0 <= j < |r| ==> r[j].0 == d.keys[j] && r[j].1 == d.vals[d.keys[j]] - VqAt(l, d.keys[j])
  {
    seq(|d.keys|, j requires 0 <= j < |d.keys| => (d.keys[j], d.vals[d.keys[j]] - VqAt(l, d.keys[j])))
  }

  lemma DeltaAt(d: Dict, l: Layer, p: nat)
    requires |l.stores| == |l.codebooks| && DictOk(d)
    requires forall j :: 0 <= j < |d.keys| ==> d.keys[j] in d.vals && d.keys[j] >= 0
    ensures Added(Deltas(d, l), p) == if p in d.vals then d.vals[p] - VqAt(l, p) else 0.0
  {
    var side := Deltas(d, l);
    if p in d.vals {
      var j :| 0 <= j < |d.keys| && d.keys[j] == p;
      AddedOnce(side, |side|, j);
    } else {
      AddedAbsent(side, |side|, p);
    }
  }

  // Keys and values the dictionary of t may hold.
  ghost predicate FinalDict(t: Tensor, d: Dict) {
    && DictOk(d)
    && (forall p :: p in d.vals ==> 0 <= p < t.packed)
    && (forall p :: 0 <= p < t.packed ==> BaseWeight(Served(t), p) == FinalAt(t, d, p))
  }

  lemma KeysInRange(t: Tensor, d: Dict)
    requires FinalDict(t, d)
    ensures forall j :: 0 <= j < |d.keys| ==> d.keys[j] in d.vals && 0 <= d.keys[j] < t.packed
  {
    forall j | 0 <= j < |d.keys|
      ensures d.keys[j] in d.vals && 0 <= d.keys[j] < t.packed
    {
      var p := d.keys[j];
      assert p in d.keys;
      assert p in d.vals;
    }
  }

  // Gather plus delta is the final value, at every element.
  lemma CorrectedAt(t: Tensor, l: Layer, d: Dict, i: nat)
    requires Buildable(t) && Holds(l, t) && FinalDict(t, d) && i < t.packed
    requires forall j :: 0 <= j < |d.keys| ==> d.keys[j] in d.vals && d.keys[j] >= 0
    ensures VqAt(l, i) + Added(Deltas(d, l), i) == BaseWeight(Served(t), i)
  {
    HoldsAt(l, t, i);
    DeltaAt(d, l, i);
  }

  // Buffers and a correction that together serve t everywhere.
  ghost predicate Serves(l: Layer, csr: Option<Csr>, t: Tensor) {
    && |l.stores| == |l.codebooks| && l.rows == t.rows && l.cols == t.cols
    && (csr.Some? ==> Shaped(csr.value, l.rows, l.cols))
    && forall i :: 0 <= i < t.packed ==>
         VqAt(l, i) + (if csr.Some? then CsrAt(csr.value, l.rows, l.cols, i) else 0.0) == BaseWeight(Served(t), i)
  }

  lemma CsrOfDeltas(t: Tensor, l: Layer, d: Dict)
    requires Buildable(t) && Holds(l, t) && FinalDict(t, d) && t.cols > 0 && l.rows == t.rows && l.cols == t.cols
    requires forall j :: 0 <= j < |d.keys| ==> d.keys[j] in d.vals && 0 <= d.keys[j] < t.packed
    ensures Sparse(FromEntries(Deltas(d, l), t.rows, t.cols), t.rows, t.cols)
    ensures Serves(l, Some(FromEntries(Deltas(d, l), t.rows, t.cols)), t)
  {
    var side := Deltas(d, l);
    FromEntriesSparse(side, t.rows, t.cols);
    forall i | 0 <= i < t.packed
      ensures VqAt(l, i) + CsrAt(FromEntries(side, t.rows, t.cols), t.rows, t.cols, i) == BaseWeight(Served(t), i)
    {
      FromEntriesAt(side, t.rows, t.cols, i);
      CorrectedAt(t, l, d, i);
    }
  }

  lemma NoDeltas(t: Tensor, l: Layer, d: Dict)
    requires Buildable(t) && Holds(l, t) && FinalDict(t, d) && d.keys == [] && l.rows == t.rows && l.cols == t.cols
    ensures Serves(l, None, t)
  {
    forall i | 0 <= i < t.packed
      ensures VqAt(l, i) == BaseWeight(Served(t), i)
    {
      HoldsAt(l, t, i);
      assert i !in d.vals;
    }
  }

  // Some entry is kept out of the stages, at a position of the matrix.
  predicate Corrects(t: Tensor) {
    |t.outliers| > 0 || |KeptSalients(t)| > 0
  }

  method BuildCsrCorrection(layer: VQLinear, t: Tensor)
    requires Buildable(t) && SameShape(layer, t) && layer.Valid() && Holds(layer.Payload(), t)
    requires layer.CorrectionCsr().None? && layer.cudaCache.None? && layer.n1Ok.None?
    modifies layer`corrRowptr, layer`corrCol, layer`corrVal
    ensures layer.Valid() && layer.Payload() == old(layer.Payload())
    ensures layer.corrCol != [] <==> Corrects(t)
    ensures Serves(layer.Payload(), layer.CorrectionCsr(), t)
  {
    var d := FinalValues(t);
    KeysInRange(t, d);
    if |d.keys| > 0 {
      assert t.cols > 0 by { assert 0 <= d.keys[0] < t.rows * t.cols; }
      hide Serves;
      var csr := FromEntries(Deltas(d, layer.Payload()), t.rows, t.cols);
      CsrOfDeltas(t, layer.Payload(), d);
      layer.StoreCorrection(csr);
    } else {
      NoDeltas(t, layer.Payload(), d);
    }
  }

  // ----------------------------------------------------------- in-place layout

  predicate Transposable(l: Layer) {
    && LayerOk(l) && !l.groupMajor && Aligned(l)
    && (forall s :: 0 <= s < |l.stores| ==> l.stores[s].Narrow? && |l.stores[s].values| == l.rows * (l.cols / l.group))
    && |l.scales| == l.rows * (l.cols / l.block)
  }

  function TransposeStore(l: Layer, s: nat): Store
    requires Transposable(l) && s < |l.stores|
  {
    Narrow(Transpose(l.stores[s].values, l.rows, l.cols / l.group))
  }

  function GroupMajor(l: Layer): (r: Layer)
    requires Transposable(l)
    ensures LayerOk(r)
  {
    l.(stores := seq(|l.stores|, s requires 0 <= s < |l.stores| => TransposeStore(l, s)),
       scales := Transpose(l.scales, l.rows, l.cols / l.block),
       groupMajor := true)
  }

  lemma GroupMajorIndex(l: Layer, s: nat, q: nat)
    requires Transposable(l) && s < |l.stores| && q < CeilDiv(Total(l), l.group)
    ensures VqIndex(GroupMajor(l), s, q) == VqIndex(l, s, q)
  {
    PieceCount(l, l.group);
    TransposedSlot(GroupMajor(l), l.group, l.stores[s].values, q);
  }

  lemma GroupMajorScale(l: Layer, b: nat)
    requires Transposable(l) && b < CeilDiv(Total(l), l.block)
    ensures BlockScale(GroupMajor(l), b) == BlockScale(l, b)
  {
    PieceCount(l, l.block);
    TransposedSlot(GroupMajor(l), l.block, l.scales, b);
  }

  lemma {:induction false} GroupMajorSum(l: Layer, n: nat, i: nat)
    requires Transposable(l) && n <= |l.stores| && i < Total(l)
    ensures VqSum(GroupMajor(l), n, i) == VqSum(l, n, i)
  {
    if n > 0 {
      GroupMajorSum(l, n - 1, i);
      PieceInRange(l, l.group, i);
      GroupMajorIndex(l, n - 1, i / l.group);
    }
  }

  // The group-major buffers stand for the same dense weight.
  lemma GroupMajorSame(l: Layer, i: nat)
    requires Transposable(l) && i < Total(l)
    ensures VqAt(GroupMajor(l), i) == VqAt(l, i)
  {
    hide VqSum, BlockScale, Times, Transposable;
    GroupMajorSum(l, |l.stores|, i);
    PieceInRange(l, l.block, i);
    GroupMajorScale(l, i / l.block);
  }

  // Transposes index and scale buffers to group-major, unless some stage is
  // planed or a row is not a whole number of groups and blocks.
  method ToGroupMajor(layer: VQLinear)
    requires layer.Valid() && !layer.groupMajor && layer.cudaCache.None? && layer.denseBuf.None?
    modifies layer`stores, layer`scales, layer`groupMajor
    ensures layer.Valid()
    ensures layer.groupMajor <==> old(Transposable(layer.Payload()))
    ensures layer.Payload() == if layer.groupMajor then GroupMajor(old(layer.Payload())) else old(layer.Payload())
  {
    var l := layer.Payload();
    var planed := exists s :: 0 <= s < |l.stores| && l.stores[s].Planed?;
    if planed || l.cols % l.group != 0 || l.cols % l.block != 0 {
      return;
    }
    PieceCount(l, l.group);
    PieceCount(l, l.block);
    for s := 0 to |l.stores|
      invariant |layer.stores| == |l.stores| && !layer.groupMajor && layer.scales == l.scales
      invariant forall s' :: 0 <= s' < s ==> layer.stores[s'] == TransposeStore(l, s')
      invariant forall s' :: s <= s' < |l.stores| ==> layer.stores[s'] == l.stores[s']
    {
      layer.stores := layer.stores[s := Narrow(Transpose(layer.stores[s].values, l.rows, l.cols / l.group))];
    }
    layer.scales := Transpose(layer.scales, l.rows, l.cols / l.block);
    layer.groupMajor := true;
    assert layer.stores == GroupMajor(l).stores;
  }

  // ------------------------------------------------------------------ the build

  method LoadLayer(t: Tensor, bias: Option<seq<real>>) returns (layer: VQLinear)
    requires Buildable(t) && (bias.Some? ==> |bias.value| == t.rows)
    ensures fresh(layer) && layer.Valid() && SameShape(layer, t) && layer.bias == bias && layer.Payload() == Loaded(t)
    ensures layer.sparseCache.None? && layer.cudaCache.None? && layer.denseBuf.None? && layer.n1Ok.None?
    ensures layer.corrCol != [] <==> Corrects(t)
    ensures Serves(layer.Payload(), layer.CorrectionCsr(), t)
  {
    layer := new VQLinear(t.rows, t.cols, t.group, t.block, Ks(t), bias);
    RegisterLayerBuffers(layer, t);
    LoadedHolds(t);
    BuildCsrCorrection(layer, t);
    assert layer.Payload() == Loaded(t);
  }

  lemma SameEverywhere(l: Layer)
    requires Transposable(l)
    ensures forall i :: 0 <= i < Total(l) ==> VqAt(GroupMajor(l), i) == VqAt(l, i)
  {
    forall i | 0 <= i < Total(l)
      ensures VqAt(GroupMajor(l), i) == VqAt(l, i)
    {
      GroupMajorSame(l, i);
    }
  }

  lemma WeightFromServes(layer: VQLinear, t: Tensor)
    requires layer.Valid() && SameShape(layer, t) && Serves(layer.Payload(), layer.CorrectionCsr(), t)
    ensures forall i :: 0 <= i < t.packed ==> layer.WeightAt(i) == BaseWeight(Served(t), i)
  {
    hide BaseWeight, VqAt, CsrAt;
  }

  // The buffers a build can end with: as loaded, or transposed when it can be.
  function Laid(l: Layer): Layer {
    if Transposable(l) then GroupMajor(l) else l
  }

  lemma LaidServes(l: Layer, csr: Option<Csr>, t: Tensor)
    requires Serves(l, csr, t) && t.packed == t.rows * t.cols
    ensures Serves(Laid(l), csr, t)
  {
    hide BaseWeight, VqAt, CsrAt;
    if Transposable(l) {
      SameEverywhere(l);
    }
  }

  lemma LaidStores(t: Tensor)
    requires Buildable(t)
    ensures Tiers(Laid(Loaded(t)), t)
  {
    hide PlaneWidth, Transpose, Buildable;
    forall s | 0 <= s < |t.stages|
      ensures Laid(Loaded(t)).stores[s].Planed? <==> PlaneWidth(t.stages[s].k) > 0
      ensures Laid(Loaded(t)).stores[s].Planed? ==> Laid(Loaded(t)).stores[s].width == PlaneWidth(t.stages[s].k)
    {
      var st := Loaded(t).stores[s];
      assert st.Planed? <==> PlaneWidth(t.stages[s].k) > 0;
      assert st.Planed? ==> st.width == PlaneWidth(t.stages[s].k);
    }
  }

  // Transposing keeps what the buffers stand for.
  lemma LaidHolds(l: Layer, t: Tensor)
    requires Holds(l, t)
    ensures Holds(Laid(l), t)
  {
    if Transposable(l) {
      var g := GroupMajor(l);
      forall s, q | 0 <= s < |l.stores| && 0 <= q < CeilDiv(Total(l), l.group)
        ensures VqIndex(g, s, q) == VqIndex(l, s, q)
      {
        GroupMajorIndex(l, s, q);
      }
      forall b | 0 <= b < CeilDiv(Total(l), l.block)
        ensures BlockScale(g, b) == BlockScale(l, b)
      {
        GroupMajorScale(l, b);
      }
    }
  }

  // What a built layer is: the buffers stand for the entry's stages and scales,
  // in the tier each codebook size selects, and buffers and correction together
  // serve it. The correction is there exactly when the entry keeps something out
  // of the stages.
  ghost predicate Built(l: Layer, csr: Option<Csr>, t: Tensor) {
    Serves(l, csr, t) && Holds(l, t) && Tiers(l, t) && (csr.Some? <==> Corrects(t))
  }

  ghost predicate Tiers(l: Layer, t: Tensor) {
    && |l.stores| == |t.stages|
    && (forall s :: 0 <= s < |t.stages| ==> (l.stores[s].Planed? <==> PlaneWidth(t.stages[s].k) > 0))
    && (forall s :: 0 <= s < |t.stages| && l.stores[s].Planed? ==> l.stores[s].width == PlaneWidth(t.stages[s].k))
  }

  lemma LaidBuilt(t: Tensor, csr: Option<Csr>)
    requires Buildable(t) && Serves(Loaded(t), csr, t) && (csr.Some? <==> Corrects(t))
    ensures Built(Laid(Loaded(t)), csr, t)
  {
    assert t.packed == t.rows * t.cols;
    hide Buildable, Serves, Holds, Tiers, Transposable, GroupMajor;
    LaidServes(Loaded(t), csr, t);
    LoadedHolds(t);
    LaidHolds(Loaded(t), t);
    LaidStores(t);
  }

  // Building a layer and reading any element of it gives the reference decode,
  // low-rank and pillar sidecars apart.
  method BuildVqLinear(t: Tensor, bias: Option<seq<real>>) returns (layer: VQLinear)
    requires Buildable(t) && (bias.Some? ==> |bias.value| == t.rows)
    ensures fresh(layer) && layer.Valid() && SameShape(layer, t) && layer.bias == bias
    ensures layer.sparseCache.None? && layer.cudaCache.None? && layer.denseBuf.None? && layer.n1Ok.None?
    ensures Built(layer.Payload(), layer.CorrectionCsr(), t)
    ensures forall i :: 0 <= i < t.packed ==> layer.WeightAt(i) == BaseWeight(Served(t), i)
  {
    layer := LoadLayer(t, bias);
    assert t.packed == t.rows * t.cols && !layer.groupMajor;
    ghost var csr := layer.CorrectionCsr();
    LaidBuilt(t, csr);
    hide BaseWeight, VqAt, CsrAt, PlaneWidth, Loaded, GroupMajor, Transposable, Serves, Buildable, Holds, Tiers, Corrects;
    ToGroupMajor(layer);
    assert layer.Payload() == Laid(Loaded(t)) && layer.CorrectionCsr() == csr;
    WeightFromServes(layer, t);
  }

  // What an element is worth without the entry's outliers and salients.
  function StagesOnly(t: Tensor, i: nat): real {
    Scaled(StageSum(t.stages, |t.stages|, i), t.scales, t.block, i)
  }

  // 1024 codewords of zero, twice, and one outlier of 1.
  function PlanedOutlier(): Tensor {
    var st := Stage(1, 1024, Filled(1024, 0.0), [0]);
    Tensor(1, 1, 1, 1, 1, [st, st], [(0, 1.0)], [], None, 1, [], None)
  }

  lemma PlanedOutlierFacts()
    ensures var t := PlanedOutlier();
      Buildable(t) && PlaneWidth(1024) == 10 && BaseWeight(Served(t), 0) == 1.0 && StagesOnly(t, 0) == 0.0
  {
    var t := PlanedOutlier();
    CeilDivExact(1, 1);
    TimesZero(1.0);
    assert BitLength(1023) == 10;
    assert Gather(t.stages[0], 0) == 0.0;
    assert StageSum(t.stages, 2, 0) == 0.0;
    assert t.outliers[0].0 == 0;
  }

  // ------------------------------------------------------ what is not served

  predicate Salient(t: Tensor, i: nat) {
    Mentions(SalientFlat(t.salient, t.block), |t.salient|, i)
  }

  predicate Pillar(t: Tensor, i: nat) {
    Mentions(t.pillars, |t.pillars|, i)
  }

  // What the pillars add to an element: nothing under a salient weight, else
  // the difference between the pillar and the value it replaces.
  function PillarEffect(t: Tensor, i: nat): real {
    if Salient(t, i) || !Pillar(t, i) then 0.0
    else
      Scaled(Overwrite(t.pillars, i, 0.0), t.scales, t.block, i)
      - Scaled(Overwrite(t.outliers, i, StageSum(t.stages, |t.stages|, i)), t.scales, t.block, i)
  }

  // The reference element is the served one plus the two parts no layer reads,
  // so the two agree exactly where those parts cancel.
  lemma ServedIsReference(t: Tensor, i: nat)
    ensures BaseWeight(t, i) == BaseWeight(Served(t), i) + PillarEffect(t, i)
    ensures Weight(t, i) == BaseWeight(Served(t), i) + PillarEffect(t, i) + LowrankAt(t, i)
    ensures BaseWeight(Served(t), i) == BaseWeight(t, i) <==>
      || Salient(t, i) || !Pillar(t, i)
      || Scaled(Overwrite(t.pillars, i, 0.0), t.scales, t.block, i)
         == Scaled(Overwrite(t.outliers, i, StageSum(t.stages, |t.stages|, i)), t.scales, t.block, i)
    ensures BaseWeight(Served(t), i) == Weight(t, i) <==> PillarEffect(t, i) == -LowrankAt(t, i)
  {
    var flat := SalientFlat(t.salient, t.block);
    var under := Overwrite(t.outliers, i, StageSum(t.stages, |t.stages|, i));
    var served, whole := Scaled(under, t.scales, t.block, i), Scaled(Escaped(t, i), t.scales, t.block, i);
    assert Escaped(Served(t), i) == under;
    assert BaseWeight(Served(t), i) == Overwrite(flat, i, served);
    if Salient(t, i) {
      MentionedForgetsBase(flat, |flat|, i, served, whole);
    } else {
      UnmentionedKeepsBase(flat, |flat|, i, served);
      UnmentionedKeepsBase(flat, |flat|, i, whole);
      if Pillar(t, i) {
        MentionedForgetsBase(t.pillars, |t.pillars|, i, 0.0, under);
      } else {
        UnmentionedKeepsBase(t.pillars, |t.pillars|, i, under);
      }
    }
  }

  // One element of stage sum 0, with the sidecars given.
  function OneZero(pillars: Sidecar, lowrank: Option<Lowrank>): Tensor {
    Tensor(1, 1, 1, 1, 1, [Stage(1, 1, [0.0], [0])], [], pillars, None, 1, [], lowrank)
  }

  // Builds a layer and decodes it: what an entry is worth once served.
  method BuiltWeight(t: Tensor) returns (w: seq<real>)
    requires Buildable(t)
    ensures |w| == t.packed && forall i :: 0 <= i < |w| ==> w[i] == BaseWeight(Served(t), i)
  {
    var layer := BuildVqLinear(t, None);
    w := layer.ReconstructWeight();
    assert |w| == t.packed;
    hide BaseWeight, Built;
    forall i | 0 <= i < |w|
      ensures w[i] == BaseWeight(Served(t), i)
    {
      assert w[i] == layer.WeightAt(i);
    }
  }

  function OnePillar(): Tensor {
    OneZero([(0, 1.0)], None)
  }

  function OneLowrank(): Tensor {
    OneZero([], Some(Lowrank(1, [1.0], [1.0])))
  }

  lemma OneZeroBuildable()
    ensures Buildable(OnePillar()) && Buildable(OneLowrank())
  {
    CeilDivExact(1, 1);
  }

  lemma OneZeroServed(t: Tensor)
    requires t.stages == [Stage(1, 1, [0.0], [0])] && t.outliers == [] && t.salient == [] && t.scales == None
    ensures BaseWeight(Served(t), 0) == 0.0
  {
    assert StageSum(t.stages, 1, 0) == StageSum(t.stages, 0, 0) + Gather(t.stages[0], 0) == 0.0;
    TimesZero(1.0);
  }

  lemma OneZeroWeights()
    ensures Weight(OnePillar(), 0) == 1.0 && Weight(OneLowrank(), 0) == 1.0
  {
    var p, lr := OnePillar(), OneLowrank();
    assert p.pillars[0].0 == 0;
    TimesZero(1.0);
    OneZeroServed(lr);
    var term := LowrankTerm(lr.lowrank.value, 0, 0);
    assert Sum(term, 1) == Sum(term, 0) + term(0);
    assert At([1.0], 0 * 1 + 0) == 1.0;
    assert term(0) == 1.0 * 1.0;
  }

  method BuiltZero(t: Tensor) returns (w: seq<real>)
    requires Buildable(t) && t.packed == 1 && BaseWeight(Served(t), 0) == 0.0
    ensures w == [0.0]
  {
    w := BuiltWeight(t);
    assert w[0] == 0.0;
  }

  // A layer built from an entry with one pillar, and from one with a rank-1
  // term: each reads 0 where the reference decode gives 1.
  method UnservedSidecars() returns (pillar: seq<real>, lowrank: seq<real>)
    ensures Buildable(OnePillar()) && pillar == [0.0] && Weight(OnePillar(), 0) == 1.0
    ensures Buildable(OneLowrank()) && lowrank == [0.0] && Weight(OneLowrank(), 0) == 1.0
  {
    OneZeroBuildable();
    OneZeroServed(OnePillar());
    OneZeroServed(OneLowrank());
    OneZeroWeights();
    assert OnePillar().packed == 1 && OneLowrank().packed == 1;
    hide BaseWeight, Weight, Buildable, OnePillar, OneLowrank;
    pillar := BuiltZero(OnePillar());
    lowrank := BuiltZero(OneLowrank());
  }
}
