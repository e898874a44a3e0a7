// What one decoded element is, read off the arrays of the entry: which of the
// overwrites wins, what the stages add up to, and what the low-rank factors do.

module DecodeLaws {
  import opened Basics
  import opened Layout
  import opened Sums
  import opened Reference

  // ---------------------------------------------------------- what can be decoded

  // Every stage has an index per group, each a row of its codebook, and decodes
  // to the same length; every position lies in the tensor; one scale per block;
  // factors of the shape of the matrix, which fits.
  lemma DecodableIff(t: Tensor)
    ensures Decodable(t) <==>
      && (forall s :: 0 <= s < |t.stages| ==> StageFits(t, t.stages[s]))
      && (forall j :: 0 <= j < |t.outliers| ==> 0 <= t.outliers[j].0 < t.packed)
      && (forall j :: 0 <= j < |t.pillars| ==> 0 <= t.pillars[j].0 < t.packed)
      && (forall b :: 0 <= b < |t.salient| ==> t.salient[b].0 >= 0)
      && (t.scales.Some? ==> |t.scales.value| == (t.packed + t.block - 1) / t.block)
      && (t.lowrank.Some? ==> FactorsFit(t, t.lowrank.value))
  {
  }

  ghost predicate StageFits(t: Tensor, st: Stage) {
    var groups := (t.padded + st.group - 1) / st.group;
    && |st.indices| == groups && |st.codebook| == st.k * st.group
    && groups * st.group == (t.padded + t.group - 1) / t.group * t.group
    && forall v :: 0 <= v < |st.indices| ==> 0 <= st.indices[v] < st.k
  }

  ghost predicate FactorsFit(t: Tensor, lr: Lowrank) {
    lr.rank > 0 && |lr.a| == t.rows * lr.rank && |lr.b| == t.cols * lr.rank && t.rows * t.cols <= t.packed
  }

  // ------------------------------------------------------------ which write wins

  // Entry j is the last of the list at position p.
  ghost predicate Wins(side: Sidecar, j: nat, p: int) {
    j < |side| && side[j].0 == p && forall l :: j < l < |side| ==> side[l].0 != p
  }

  ghost predicate Silent(side: Sidecar, p: int) {
    forall l :: 0 <= l < |side| ==> side[l].0 != p
  }

  // The salient entry of block b addresses element salient[b].0 of that block.
  ghost predicate SalientWins(t: Tensor, b: nat, p: int) {
    && b < |t.salient| && b * t.block + t.salient[b].0 == p
    && forall l :: b < l < |t.salient| ==> l * t.block + t.salient[l].0 != p
  }

  ghost predicate NoSalient(t: Tensor, p: int) {
    forall l :: 0 <= l < |t.salient| ==> l * t.block + t.salient[l].0 != p
  }

  lemma {:induction false} LastWins(side: Sidecar, n: nat, j: nat, p: int, base: real)
    requires j < n <= |side| && side[j].0 == p && forall l :: j < l < n ==> side[l].0 != p
    ensures LastWrite(side, n, p, base) == side[j].1
  {
    if j < n - 1 {
      LastWins(side, n - 1, j, p, base);
    }
  }

  lemma {:induction false} SilentKeeps(side: Sidecar, n: nat, p: int, base: real)
    requires n <= |side| && forall l :: 0 <= l < n ==> side[l].0 != p
    ensures LastWrite(side, n, p, base) == base
  {
    if n > 0 {
      SilentKeeps(side, n - 1, p, base);
    }
  }

  // ------------------------------------------------------------- the four cases

  lemma {:induction false} StagesAddUp(stages: seq<Stage>, n: nat, i: nat, f: int -> real)
    requires n <= |stages|
    requires forall s :: 0 <= s < n ==>
      f(s) == At(stages[s].codebook, IntAt(stages[s].indices, i / stages[s].group) * stages[s].group + i % stages[s].group)
    ensures StageSum(stages, n, i) == Sum(f, n)
  {
    if n > 0 {
      StagesAddUp(stages, n - 1, i, f);
    }
  }

  // One element of block i / block, times that block's scale.
  ghost predicate ScaledBy(t: Tensor, i: nat, scale: real) {
    && (t.scales.Some? && i / t.block < |t.scales.value| ==> scale == t.scales.value[i / t.block])
    && (t.scales.None? || i / t.block >= |t.scales.value| ==> scale == 1.0)
  }

  // Untouched: the codebook rows the indices of element i's group select, added
  // over the stages at the element's place in its group, then the block scale.
  lemma PlainElement(t: Tensor, i: nat, f: int -> real, scale: real)
    requires Silent(t.outliers, i) && Silent(t.pillars, i) && NoSalient(t, i) && ScaledBy(t, i, scale)
    requires forall s :: 0 <= s < |t.stages| ==>
      f(s) == At(t.stages[s].codebook, IntAt(t.stages[s].indices, i / t.stages[s].group) * t.stages[s].group + i % t.stages[s].group)
    ensures BaseWeight(t, i) == Sum(f, |t.stages|) * scale
  {
    hide StageSum, LastWrite;
    StagesAddUp(t.stages, |t.stages|, i, f);
    SilentKeeps(t.outliers, |t.outliers|, i, Sum(f, |t.stages|));
    SilentKeeps(t.pillars, |t.pillars|, i, Sum(f, |t.stages|));
    SilentKeeps(SalientFlat(t.salient, t.block), |t.salient|, i, Scaled(Sum(f, |t.stages|), t.scales, t.block, i));
  }

  // The last outlier there, under the block scale.
  lemma OutlierElement(t: Tensor, i: nat, j: nat, scale: real)
    requires Wins(t.outliers, j, i) && Silent(t.pillars, i) && NoSalient(t, i) && ScaledBy(t, i, scale)
    ensures BaseWeight(t, i) == t.outliers[j].1 * scale
  {
    LastWins(t.outliers, |t.outliers|, j, i, StageSum(t.stages, |t.stages|, i));
    SilentKeeps(t.pillars, |t.pillars|, i, t.outliers[j].1);
    SilentKeeps(SalientFlat(t.salient, t.block), |t.salient|, i, Scaled(t.outliers[j].1, t.scales, t.block, i));
  }

  // The last pillar there, over any outlier and under the block scale.
  lemma PillarElement(t: Tensor, i: nat, j: nat, scale: real)
    requires Wins(t.pillars, j, i) && NoSalient(t, i) && ScaledBy(t, i, scale)
    ensures BaseWeight(t, i) == t.pillars[j].1 * scale
  {
    LastWins(t.pillars, |t.pillars|, j, i, Overwrite(t.outliers, i, StageSum(t.stages, |t.stages|, i)));
    SilentKeeps(SalientFlat(t.salient, t.block), |t.salient|, i, Scaled(t.pillars[j].1, t.scales, t.block, i));
  }

  // The last salient there, as stored, over everything else.
  lemma SalientElement(t: Tensor, i: nat, b: nat)
    requires SalientWins(t, b, i)
    ensures BaseWeight(t, i) == t.salient[b].1
  {
    LastWins(SalientFlat(t.salient, t.block), |t.salient|, b, i, Scaled(Escaped(t, i), t.scales, t.block, i));
  }

  // ------------------------------------------------------------ the low-rank term

  // The entry with the factors, less the entry without them.
  ghost function LowrankEffect(t: Tensor, rank: nat, a: seq<real>, b: seq<real>, i: nat): real {
    Weight(t.(lowrank := Some(Lowrank(rank, a, b))), i) - Weight(t.(lowrank := None), i)
  }

  // A rows x rank factor whose only entry is a 1 at (r, q).
  ghost predicate OnlyOneAt(f: seq<real>, rows: nat, rank: nat, r: nat, q: nat) {
    && |f| == rows * rank && r < rows && q < rank
    && forall k :: 0 <= k < |f| ==> f[k] == if k == r * rank + q then 1.0 else 0.0
  }

  lemma OnlyOneRead(f: seq<real>, rows: nat, rank: nat, r: nat, q: nat, row: nat, k: nat)
    requires OnlyOneAt(f, rows, rank, r, q) && row < rows && k < rank
    ensures At(f, row * rank + k) == if row == r && k == q then 1.0 else 0.0
  {
    FlatBound(row, k, rows, rank);
    SamePlace(row, k, r, q, rank);
  }

  lemma EffectIsTerm(t: Tensor, rank: nat, a: seq<real>, b: seq<real>, i: nat)
    requires i < t.rows * t.cols
    ensures t.cols > 0
    ensures LowrankEffect(t, rank, a, b, i) == Sum(LowrankTerm(Lowrank(rank, a, b), i / t.cols, i % t.cols), rank)
  {
    var with, without := t.(lowrank := Some(Lowrank(rank, a, b))), t.(lowrank := None);
    assert Escaped(with, i) == Escaped(without, i);
    assert BaseWeight(with, i) == BaseWeight(without, i);
  }

  // A 1 at (r, q) of `a` and a 1 at (c, q) of `b` add 1 at row r, column c, and
  // nothing anywhere else.
  lemma LowrankUnit(t: Tensor, rank: nat, a: seq<real>, b: seq<real>, r: nat, c: nat, q: nat, i: nat)
    requires OnlyOneAt(a, t.rows, rank, r, q) && OnlyOneAt(b, t.cols, rank, c, q) && i < t.rows * t.cols
    ensures LowrankEffect(t, rank, a, b, i) == if i == r * t.cols + c then 1.0 else 0.0
  {
    EffectIsTerm(t, rank, a, b, i);
    DivBound(i, t.rows, t.cols);
    var row, col := i / t.cols, i % t.cols;
    SamePlace(row, col, r, c, t.cols);
    var f := LowrankTerm(Lowrank(rank, a, b), row, col);
    forall k {:trigger f(k)} | 0 <= k < rank
      ensures f(k) == if row == r && col == c && k == q then 1.0 else 0.0
    {
      OnlyOneRead(a, t.rows, rank, r, q, row, k);
      OnlyOneRead(b, t.cols, rank, c, q, col, k);
    }
    if row == r && col == c {
      SumSingle(f, q, rank);
    } else {
      SumZero(f, rank);
    }
  }

  // z = s * x + y, entry by entry.
  ghost predicate Combines(s: real, x: seq<real>, y: seq<real>, z: seq<real>) {
    |x| == |y| == |z| && forall k :: 0 <= k < |z| ==> z[k] == Times(s, x[k]) + y[k]
  }

  lemma CombinedRead(s: real, x: seq<real>, y: seq<real>, z: seq<real>, k: int)
    requires Combines(s, x, y, z)
    ensures At(z, k) == Times(s, At(x, k)) + At(y, k)
  {
    TimesZero(s);
  }

  lemma CombinedProduct(s: real, x: real, y: real, z: real, v: real)
    requires z == Times(s, x) + y
    ensures Times(z, v) == Times(s, Times(x, v)) + Times(y, v)
    ensures Times(v, z) == Times(s, Times(v, x)) + Times(v, y)
  {
    assert z * v == s * (x * v) + y * v;
  }

  lemma TermAt(rank: nat, a: seq<real>, b: seq<real>, row: nat, col: nat, k: nat)
    ensures LowrankTerm(Lowrank(rank, a, b), row, col)(k) == Times(At(a, Flat(row, rank, k)), At(b, Flat(col, rank, k)))
  {
  }

  lemma CombinedSum(s: real, f: int -> real, f': int -> real, g: int -> real, n: nat)
    requires forall k :: 0 <= k < n ==> g(k) == Times(s, f(k)) + f'(k)
    ensures Sum(g, n) == Times(s, Sum(f, n)) + Sum(f', n)
  {
    hide Times;
    var h := (k: int) => Times(s, f(k));
    SumScale(s, f, h, n);
    SumAdd(h, f', g, n);
  }

  lemma TermsInA(rank: nat, s: real, a: seq<real>, a': seq<real>, sum: seq<real>, b: seq<real>, row: nat, col: nat)
    requires Combines(s, a, a', sum)
    ensures forall k :: 0 <= k < rank ==>
      LowrankTerm(Lowrank(rank, sum, b), row, col)(k)
      == Times(s, LowrankTerm(Lowrank(rank, a, b), row, col)(k)) + LowrankTerm(Lowrank(rank, a', b), row, col)(k)
  {
    hide Times, LowrankTerm, Flat;
    forall k | 0 <= k < rank
      ensures LowrankTerm(Lowrank(rank, sum, b), row, col)(k)
           == Times(s, LowrankTerm(Lowrank(rank, a, b), row, col)(k)) + LowrankTerm(Lowrank(rank, a', b), row, col)(k)
    {
      TermAt(rank, sum, b, row, col, k);
      TermAt(rank, a, b, row, col, k);
      TermAt(rank, a', b, row, col, k);
      var at := Flat(row, rank, k);
      CombinedRead(s, a, a', sum, at);
      CombinedProduct(s, At(a, at), At(a', at), At(sum, at), At(b, Flat(col, rank, k)));
    }
  }

  lemma TermsInB(rank: nat, s: real, a: seq<real>, b: seq<real>, b': seq<real>, sum: seq<real>, row: nat, col: nat)
    requires Combines(s, b, b', sum)
    ensures forall k :: 0 <= k < rank ==>
      LowrankTerm(Lowrank(rank, a, sum), row, col)(k)
      == Times(s, LowrankTerm(Lowrank(rank, a, b), row, col)(k)) + LowrankTerm(Lowrank(rank, a, b'), row, col)(k)
  {
    hide Times, LowrankTerm, Flat;
    forall k | 0 <= k < rank
      ensures LowrankTerm(Lowrank(rank, a, sum), row, col)(k)
           == Times(s, LowrankTerm(Lowrank(rank, a, b), row, col)(k)) + LowrankTerm(Lowrank(rank, a, b'), row, col)(k)
    {
      TermAt(rank, a, sum, row, col, k);
      TermAt(rank, a, b, row, col, k);
      TermAt(rank, a, b', row, col, k);
      var at := Flat(col, rank, k);
      CombinedRead(s, b, b', sum, at);
      CombinedProduct(s, At(b, at), At(b', at), At(sum, at), At(a, Flat(row, rank, k)));
    }
  }

  // The effect is linear in the first factor.
  lemma LowrankLinearInA(t: Tensor, rank: nat, s: real, a: seq<real>, a': seq<real>, sum: seq<real>, b: seq<real>, i: nat)
    requires Combines(s, a, a', sum) && i < t.rows * t.cols
    ensures LowrankEffect(t, rank, sum, b, i) == Times(s, LowrankEffect(t, rank, a, b, i)) + LowrankEffect(t, rank, a', b, i)
  {
    hide LowrankEffect, LowrankTerm, Times;
    EffectIsTerm(t, rank, sum, b, i);
    EffectIsTerm(t, rank, a, b, i);
    EffectIsTerm(t, rank, a', b, i);
    var row, col := i / t.cols, i % t.cols;
    TermsInA(rank, s, a, a', sum, b, row, col);
    CombinedSum(s, LowrankTerm(Lowrank(rank, a, b), row, col), LowrankTerm(Lowrank(rank, a', b), row, col),
      LowrankTerm(Lowrank(rank, sum, b), row, col), rank);
  }

  // And in the second.
  lemma LowrankLinearInB(t: Tensor, rank: nat, s: real, a: seq<real>, b: seq<real>, b': seq<real>, sum: seq<real>, i: nat)
    requires Combines(s, b, b', sum) && i < t.rows * t.cols
    ensures LowrankEffect(t, rank, a, sum, i) == Times(s, LowrankEffect(t, rank, a, b, i)) + LowrankEffect(t, rank, a, b', i)
  {
    hide LowrankEffect, LowrankTerm, Times;
    EffectIsTerm(t, rank, a, sum, i);
    EffectIsTerm(t, rank, a, b, i);
    EffectIsTerm(t, rank, a, b', i);
    var row, col := i / t.cols, i % t.cols;
    TermsInB(rank, s, a, b, b', sum, row, col);
    CombinedSum(s, LowrankTerm(Lowrank(rank, a, b), row, col), LowrankTerm(Lowrank(rank, a, b'), row, col),
      LowrankTerm(Lowrank(rank, a, sum), row, col), rank);
  }
}
