// The reference decoder (orka/pipeline/decode.py) and, beside it, the pointwise
// definition of one weight that every decoder in the repository must agree with.
//
// Scope: rotation "none"; normalization "none" or one of the block-scale modes.

module Reference {
  import opened Basics
  import opened Layout
  import opened Sums

  // One residual stage: a row-major [k, group] codebook and one index per group.
  datatype Stage = Stage(group: pos, k: nat, codebook: seq<real>, indices: seq<int>)

  // A scatter list: (position, value) pairs, written in order.
  type Sidecar = seq<(int, real)>

  datatype Lowrank = Lowrank(rank: nat, a: seq<real>, b: seq<real>)

  // A tensor entry of the manifest with its sidecars already read. An absent
  // sidecar is an empty one; `salient` holds one (local index, weight) per block.
  datatype Tensor = Tensor(
    rows: nat, cols: nat,
    group: pos, packed: nat, padded: nat,
    stages: seq<Stage>,
    outliers: Sidecar, pillars: Sidecar,
    scales: Option<seq<real>>, block: pos,
    salient: Sidecar,
    lowrank: Option<Lowrank>)

  // ---------------------------------------------------------------- one weight

  // codebook[indices[i / group]][i % group]
  function Gather(st: Stage, i: nat): real {
    CodeAt(st.codebook, IntAt(st.indices, i / st.group), st.group, i % st.group)
  }

  // Element j of row idx of a row-major codebook.
  function CodeAt(codebook: seq<real>, idx: int, group: pos, j: int): real {
    At(codebook, idx * group + j)
  }

  function StageSum(stages: seq<Stage>, n: nat, i: nat): real
    requires n <= |stages|
  {
    if n == 0 then 0.0 else StageSum(stages, n - 1, i) + Gather(stages[n - 1], i)
  }

  // The value at p after writing the first n pairs of a scatter list over base.
  function LastWrite(side: Sidecar, n: nat, p: int, base: real): real
    requires n <= |side|
  {
    if n == 0 then base
    else if side[n - 1].0 == p then side[n - 1].1
    else LastWrite(side, n - 1, p, base)
  }

  // Lists that agree on their first n pairs write the same.
  lemma {:induction false} LastWritePrefix(a: Sidecar, b: Sidecar, n: nat, p: int, base: real)
    requires n <= |a| && n <= |b| && forall j :: 0 <= j < n ==> a[j] == b[j]
    ensures LastWrite(a, n, p, base) == LastWrite(b, n, p, base)
  {
    if n > 0 {
      LastWritePrefix(a, b, n - 1, p, base);
    }
  }

  function Overwrite(side: Sidecar, p: int, base: real): real {
    LastWrite(side, |side|, p, base)
  }

  // Salient entry b addresses element salient[b].0 of block b.
  function SalientFlat(salient: Sidecar, block: pos): (flat: Sidecar)
    ensures |flat| == |salient|
  {
    seq(|salient|, b requires 0 <= b < |salient| => (b * block + salient[b].0, salient[b].1))
  }

  function ScaleAt(scales: Option<seq<real>>, block: pos, i: nat): real {
    if scales.Some? && i / block < |scales.value| then scales.value[i / block] else 1.0
  }

  function Scaled(x: real, scales: Option<seq<real>>, block: pos, i: nat): real {
    Times(x, ScaleAt(scales, block, i))
  }

  ghost function LowrankTerm(lr: Lowrank, row: nat, col: nat): int -> real {
    (k: int) => At(lr.a, row * lr.rank + k) * At(lr.b, col * lr.rank + k)
  }

  ghost function LowrankAt(t: Tensor, i: nat): real {
    if t.lowrank.Some? && t.cols > 0 && i < t.rows * t.cols
    then Sum(LowrankTerm(t.lowrank.value, i / t.cols, i % t.cols), t.lowrank.value.rank)
    else 0.0
  }

  // Stage sum, then outliers (and pillars), then the block scale, then salients.
  function Escaped(t: Tensor, i: nat): real {
    Overwrite(t.pillars, i, Overwrite(t.outliers, i, StageSum(t.stages, |t.stages|, i)))
  }

  function BaseWeight(t: Tensor, i: nat): real {
    Overwrite(SalientFlat(t.salient, t.block), i, Scaled(Escaped(t, i), t.scales, t.block, i))
  }

  ghost function Weight(t: Tensor, i: nat): real {
    BaseWeight(t, i) + LowrankAt(t, i)
  }

  // ------------------------------------------------------- what can be decoded

  // What the packer guarantees about the sizes it writes.
  predicate Padded(t: Tensor) {
    t.packed <= t.padded && t.padded % t.group == 0
  }

  predicate StageOk(st: Stage, group: pos, padded: nat) {
    && |st.indices| == CeilDiv(padded, st.group)
    && |st.codebook| == st.k * st.group
    && CeilDiv(padded, st.group) * st.group == CeilDiv(padded, group) * group
    && forall v :: 0 <= v < |st.indices| ==> 0 <= st.indices[v] < st.k
  }

  predicate InRange(side: Sidecar, n: nat) {
    forall j :: 0 <= j < |side| ==> 0 <= side[j].0 < n
  }

  predicate ScalesOk(t: Tensor) {
    t.scales.Some? ==> |t.scales.value| == CeilDiv(t.packed, t.block)
  }

  predicate SalientOk(t: Tensor) {
    forall b :: 0 <= b < |t.salient| ==> 0 <= t.salient[b].0
  }

  predicate LowrankOk(t: Tensor) {
    t.lowrank.Some? ==>
      && t.lowrank.value.rank > 0
      && |t.lowrank.value.a| == t.rows * t.lowrank.value.rank
      && |t.lowrank.value.b| == t.cols * t.lowrank.value.rank
      && t.rows * t.cols <= t.packed
  }

  // Exactly the entries the decoder does not raise on.
  predicate Decodable(t: Tensor) {
    && StagesOk(t)
    && InRange(t.outliers, t.packed)
    && InRange(t.pillars, t.packed)
    && ScalesOk(t)
    && SalientOk(t)
    && LowrankOk(t)
  }

  function DecodedLength(t: Tensor): nat {
    if t.lowrank.Some? then t.rows * t.cols else t.packed
  }

  // ------------------------------------------------------------- the decoder

  // decoded[positions] = values, positions outside the array masked away first.
  method Scatter(decoded: seq<real>, side: Sidecar) returns (r: seq<real>)
    ensures |r| == |decoded|
    ensures forall i :: 0 <= i < |r| ==> r[i] == Overwrite(side, i, decoded[i])
  {
    r := decoded;
    for j := 0 to |side|
      invariant |r| == |decoded|
      invariant forall i :: 0 <= i < |r| ==> r[i] == LastWrite(side, j, i, decoded[i])
    {
      if 0 <= side[j].0 < |r| {
        r := r[side[j].0 := side[j].1];
      }
    }
  }

  method DotRow(lr: Lowrank, row: nat, col: nat) returns (dot: real)
    ensures dot == Sum(LowrankTerm(lr, row, col), lr.rank)
  {
    dot := 0.0;
    for k := 0 to lr.rank
      invariant dot == Sum(LowrankTerm(lr, row, col), k)
    {
      dot := dot + At(lr.a, row * lr.rank + k) * At(lr.b, col * lr.rank + k);
    }
  }

  predicate StagesOk(t: Tensor) {
    forall s :: 0 <= s < |t.stages| ==> StageOk(t.stages[s], t.group, t.padded)
  }

  method SumStages(t: Tensor, total: nat) returns (r: Option<seq<real>>)
    ensures r.Some? <==> StagesOk(t)
    ensures r.Some? ==> |r.value| == total
    ensures r.Some? ==> forall i :: 0 <= i < total ==> r.value[i] == StageSum(t.stages, |t.stages|, i)
  {
    var acc := seq(total, i => 0.0);
    for s := 0 to |t.stages|
      invariant |acc| == total
      invariant forall s' :: 0 <= s' < s ==> StageOk(t.stages[s'], t.group, t.padded)
      invariant forall i :: 0 <= i < total ==> acc[i] == StageSum(t.stages, s, i)
    {
      var st := t.stages[s];
      if !StageOk(st, t.group, t.padded) {
        return None;
      }
      acc := seq(total, i requires 0 <= i < total => acc[i] + Gather(st, i));
    }
    r := Some(acc);
  }

  // Escapes and scales, in the order the format fixes.
  method FinishBase(t: Tensor, sums: seq<real>) returns (r: seq<real>)
    requires forall i :: 0 <= i < |sums| ==> sums[i] == StageSum(t.stages, |t.stages|, i)
    ensures |r| == |sums|
    ensures forall i :: 0 <= i < |r| ==> r[i] == BaseWeight(t, i)
  {
    var escaped := Scatter(sums, t.outliers);
    escaped := Scatter(escaped, t.pillars);
    var scaled := seq(|escaped|, i requires 0 <= i < |escaped| => Scaled(escaped[i], t.scales, t.block, i));
    r := Scatter(scaled, SalientFlat(t.salient, t.block));
    forall i | 0 <= i < |r|
      ensures r[i] == BaseWeight(t, i)
    {
      assert escaped[i] == Escaped(t, i);
    }
  }

  // Decodes one tensor entry; None where the reference implementation raises.
  method DecodeTensor(t: Tensor) returns (r: Option<seq<real>>)
    requires Padded(t)
    ensures r.Some? <==> Decodable(t)
    ensures r.Some? ==> |r.value| == DecodedLength(t)
    ensures r.Some? ==> forall i :: 0 <= i < |r.value| ==> r.value[i] == Weight(t, i)
  {
    var total := CeilDiv(t.padded, t.group) * t.group;
    assert t.packed <= total by { CeilDivCovers(t.padded, t.group); }
    var acc := SumStages(t, total);
    if acc.None? || !InRange(t.outliers, t.packed) || !InRange(t.pillars, t.packed) || !ScalesOk(t) || !SalientOk(t) {
      return None;
    }
    var decoded := FinishBase(t, acc.value[..t.packed]);
    if t.lowrank.None? {
      return Some(decoded);
    }
    if !LowrankOk(t) {
      return None;
    }
    decoded := AddLowrank(t, decoded);
    r := Some(decoded);
  }

  // (decoded[:rows*cols].reshape(rows, cols) + a @ b.T).reshape(-1)
  method AddLowrank(t: Tensor, decoded: seq<real>) returns (r: seq<real>)
    requires t.lowrank.Some? && t.rows * t.cols <= |decoded|
    ensures |r| == t.rows * t.cols
    ensures forall i :: 0 <= i < |r| ==> r[i] == decoded[i] + LowrankAt(t, i)
  {
    r := [];
    for i := 0 to t.rows * t.cols
      invariant |r| == i
      invariant forall i' :: 0 <= i' < i ==> r[i'] == decoded[i'] + LowrankAt(t, i')
    {
      assert t.cols > 0;
      var dot := DotRow(t.lowrank.value, i / t.cols, i % t.cols);
      r := r + [decoded[i] + dot];
    }
  }
}
