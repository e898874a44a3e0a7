// The objective of weighted k-means and why one Lloyd iteration cannot raise it.

module Lloyd {
  import opened Basics
  import opened Sums
  import opened Distances

  // Vectors, the roots of the dimension weights, and the sample weights.
  datatype Problem = Problem(rows: seq<Vec>, width: nat, roots: Roots, sample: Option<seq<real>>)

  function SampleWeight(p: Problem, i: int): real {
    if p.sample.Some? then At(p.sample.value, i) else 1.0
  }

  function RowAt(rows: seq<Vec>, i: int): Vec {
    if 0 <= i < |rows| then rows[i] else []
  }

  ghost predicate NonNegativeSamples(p: Problem) {
    forall i {:trigger SampleWeight(p, i)} :: 0 <= i < |p.rows| ==> SampleWeight(p, i) >= 0.0
  }

  // ------------------------------------------------------------- the objective

  ghost function CostTerm(p: Problem, codebook: seq<Vec>, indices: seq<int>): int -> real {
    (i: int) => Times(SampleWeight(p, i), WeightedDist(RowAt(p.rows, i), RowAt(codebook, IntAt(indices, i)), p.roots))
  }

  // sum_i sw_i sum_d W_d (x_id - c_a(i)d)^2
  ghost function Objective(p: Problem, codebook: seq<Vec>, indices: seq<int>): real {
    Sum(CostTerm(p, codebook, indices), |p.rows|)
  }

  ghost predicate Assigned(p: Problem, k: nat, indices: seq<int>) {
    |indices| == |p.rows| && forall i :: 0 <= i < |indices| ==> 0 <= indices[i] < k
  }

  ghost predicate AllNearest(p: Problem, codebook: seq<Vec>, indices: seq<int>) {
    |indices| == |p.rows| && forall i :: 0 <= i < |indices| ==> Nearest(p.rows[i], codebook, p.roots, indices[i])
  }

  // --------------------------------------------------------- moving a centroid

  function Key(indices: seq<int>): int -> int {
    (i: int) => IntAt(indices, i)
  }

  function MassTerm(p: Problem): int -> real {
    (i: int) => SampleWeight(p, i)
  }

  function PullTerm(p: Problem, d: int): int -> real {
    (i: int) => Times(SampleWeight(p, i), At(RowAt(p.rows, i), d))
  }

  // np.bincount(indices, weights=...)[j], for the counts and for one dimension.
  function Mass(p: Problem, indices: seq<int>, j: int): real {
    GroupSum(Key(indices), MassTerm(p), j, |p.rows|)
  }

  function Pull(p: Problem, indices: seq<int>, j: int, d: int): real {
    GroupSum(Key(indices), PullTerm(p, d), j, |p.rows|)
  }

  // The mean of what is assigned to j; a cluster without mass stays put.
  function NewCentroid(p: Problem, indices: seq<int>, j: int, old_: Vec): Vec {
    if Mass(p, indices, j) > 0.0
    then seq(p.width, d => Pull(p, indices, j, d) / Mass(p, indices, j))
    else old_
  }

  function Moved(p: Problem, codebook: seq<Vec>, indices: seq<int>): (r: seq<Vec>)
    ensures |r| == |codebook|
  {
    seq(|codebook|, j requires 0 <= j < |codebook| => NewCentroid(p, indices, j, codebook[j]))
  }

  lemma MovedRect(p: Problem, codebook: seq<Vec>, indices: seq<int>)
    requires Rect(codebook, p.width)
    ensures Rect(Moved(p, codebook, indices), p.width)
  {
  }

  // --------------------------------------------------- the gain of one cluster

  lemma SquareGain(x: real, c: real, c': real)
    ensures Sq(x - c) - Sq(x - c') == Times(2.0 * (c' - c), x) - (Sq(c') - Sq(c))
  {
  }

  lemma Exchange(a: real, b: real, x: real)
    ensures Times(a, Times(b, x)) == Times(b, Times(a, x)) && Times(a, b) == Times(b, a)
  {
  }

  lemma GainIdentity(sw: real, x: real, c: real, c': real)
    ensures Times(sw, Sq(x - c) - Sq(x - c')) == Times(2.0 * (c' - c), Times(sw, x)) - Times(Sq(c') - Sq(c), sw)
  {
    SquareGain(x, c, c');
    var k, q := 2.0 * (c' - c), Sq(c') - Sq(c);
    DistributeOver(sw, Times(k, x) - q, q);
    Exchange(sw, k, x);
    Exchange(sw, q, x);
  }

  // What row i gains in dimension d when c becomes c'.
  ghost function PairGain(p: Problem, i: int, d: int, c: real, c': real): real {
    Times(SampleWeight(p, i), Sq(At(RowAt(p.rows, i), d) - c) - Sq(At(RowAt(p.rows, i), d) - c'))
  }

  lemma {:induction false} GroupGain(p: Problem, indices: seq<int>, j: int, d: int, c: real, c': real, gain: int -> real, n: nat)
    requires forall i :: 0 <= i < n && IntAt(indices, i) == j ==> gain(i) == PairGain(p, i, d, c, c')
    ensures GroupSum(Key(indices), gain, j, n)
         == Times(2.0 * (c' - c), GroupSum(Key(indices), PullTerm(p, d), j, n))
          - Times(Sq(c') - Sq(c), GroupSum(Key(indices), MassTerm(p), j, n))
  {
    if n > 0 {
      GroupGain(p, indices, j, d, c, c', gain, n - 1);
      if IntAt(indices, n - 1) == j {
        var sw, x := SampleWeight(p, n - 1), At(RowAt(p.rows, n - 1), d);
        GainIdentity(sw, x, c, c');
        DistributeOver(2.0 * (c' - c), GroupSum(Key(indices), PullTerm(p, d), j, n - 1), Times(sw, x));
        DistributeOver(Sq(c') - Sq(c), GroupSum(Key(indices), MassTerm(p), j, n - 1), sw);
      }
    } else {
      TimesZero(2.0 * (c' - c));
      TimesZero(Sq(c') - Sq(c));
    }
  }

  lemma DistributeOver(f: real, a: real, b: real)
    ensures Times(f, a + b) == Times(f, a) + Times(f, b)
  {
  }

  // Moving to the weighted mean gains mass * (c' - c)^2.
  lemma MeanGain(c: real, pull: real, mass: real)
    requires mass > 0.0
    ensures Times(2.0 * (pull / mass - c), pull) - Times(Sq(pull / mass) - Sq(c), mass) == Times(mass, Sq(pull / mass - c))
  {
    var m := pull / mass;
    assert pull == m * mass;
    assert Times(2.0 * (m - c), pull) == 2.0 * (m - c) * (m * mass);
    assert Times(Sq(m) - Sq(c), mass) == (m * m - c * c) * mass;
    assert 2.0 * (m - c) * (m * mass) - (m * m - c * c) * mass == mass * ((m - c) * (m - c));
  }

  lemma ProductNonNegative(a: real, b: real)
    requires a >= 0.0 && b >= 0.0
    ensures Times(a, b) >= 0.0
  {
  }

  // Gain of row i in dimension d when one codebook is replaced by another.
  ghost function RowGain(p: Problem, from: seq<Vec>, to: seq<Vec>, indices: seq<int>, d: int): int -> real {
    (i: int) => PairGain(p, i, d, At(RowAt(from, IntAt(indices, i)), d), At(RowAt(to, IntAt(indices, i)), d))
  }

  ghost predicate ClusterGains(p: Problem, from: seq<Vec>, to: seq<Vec>, indices: seq<int>, j: int, d: int) {
    GroupSum(Key(indices), RowGain(p, from, to, indices, d), j, |p.rows|) >= 0.0
  }

  lemma ClusterGain(p: Problem, codebook: seq<Vec>, indices: seq<int>, j: nat, d: nat)
    requires j < |codebook| && d < p.width
    ensures ClusterGains(p, codebook, Moved(p, codebook, indices), indices, j, d)
  {
    var c, c' := At(codebook[j], d), At(Moved(p, codebook, indices)[j], d);
    GroupGain(p, indices, j, d, c, c', RowGain(p, codebook, Moved(p, codebook, indices), indices, d), |p.rows|);
    var mass, pull := Mass(p, indices, j), Pull(p, indices, j, d);
    if mass > 0.0 {
      assert c' == pull / mass;
      MeanGain(c, pull, mass);
      ProductNonNegative(mass, Sq(pull / mass - c));
    } else {
      assert c' == c;
      TimesZero(pull);
      TimesZero(mass);
    }
  }

  lemma DimensionGain(p: Problem, from: seq<Vec>, to: seq<Vec>, indices: seq<int>, d: nat)
    requires Assigned(p, |to|, indices) && d < p.width
    requires forall j :: 0 <= j < |to| ==> ClusterGains(p, from, to, indices, j, d)
    ensures Sum(RowGain(p, from, to, indices, d), |p.rows|) >= 0.0
  {
    var gain := RowGain(p, from, to, indices, d);
    var group := (j: int) => GroupSum(Key(indices), gain, j, |p.rows|);
    GroupTotal(Key(indices), gain, |p.rows|, |to|, group);
    forall j {:trigger group(j)} | 0 <= j < |to|
      ensures group(j) >= 0.0
    {
      assert ClusterGains(p, from, to, indices, j, d);
    }
    SumNonNegative(group, |to|);
  }

  // ------------------------------------------------------ the gain of all rows

  // A common factor taken out of the difference of two sums.
  lemma {:induction false} ScaledDrop(sw: real, f: int -> real, f': int -> real, gain: int -> real, n: nat)
    requires forall d :: 0 <= d < n ==> gain(d) == Times(sw, f(d)) - Times(sw, f'(d))
    ensures Times(sw, Sum(f, n)) - Times(sw, Sum(f', n)) == Sum(gain, n)
  {
    if n > 0 {
      ScaledDrop(sw, f, f', gain, n - 1);
      DistributeOver(sw, Sum(f, n - 1), f(n - 1));
      DistributeOver(sw, Sum(f', n - 1), f'(n - 1));
      assert gain(n - 1) == Times(sw, f(n - 1)) - Times(sw, f'(n - 1));
    }
  }

  lemma PullOut(sw: real, w: real, a: real, b: real)
    ensures Times(w, Times(sw, a - b)) == Times(sw, Times(w, a)) - Times(sw, Times(w, b))
  {
    DistributeOver(sw, a - b, b);
    DistributeOver(w, Times(sw, a - b), Times(sw, b));
    Exchange(sw, w, a);
    Exchange(sw, w, b);
  }

  // What row i and dimension d contribute, weighted, to the change.
  ghost function Gain(p: Problem, from: seq<Vec>, to: seq<Vec>, indices: seq<int>, i: int, d: int): real {
    Times(WeightOf(p.roots, d), RowGain(p, from, to, indices, d)(i))
  }

  lemma RowDrop(p: Problem, from: seq<Vec>, to: seq<Vec>, indices: seq<int>, i: nat, gain: int -> real)
    requires Rect(p.rows, p.width) && i < |p.rows|
    requires forall d :: 0 <= d < p.width ==> gain(d) == Gain(p, from, to, indices, i, d)
    ensures CostTerm(p, from, indices)(i) == CostTerm(p, to, indices)(i) + Sum(gain, p.width)
  {
    var x, j, sw := p.rows[i], IntAt(indices, i), SampleWeight(p, i);
    var c, c' := RowAt(from, j), RowAt(to, j);
    var f, f' := WeightedGap(x, c, p.roots), WeightedGap(x, c', p.roots);
    forall d {:trigger gain(d)} | 0 <= d < p.width
      ensures gain(d) == Times(sw, f(d)) - Times(sw, f'(d))
    {
      PullOut(sw, WeightOf(p.roots, d), Sq(At(x, d) - At(c, d)), Sq(At(x, d) - At(c', d)));
    }
    ScaledDrop(sw, f, f', gain, p.width);
  }

  lemma DimensionDrop(p: Problem, from: seq<Vec>, to: seq<Vec>, indices: seq<int>, d: nat, gain: int -> real)
    requires Assigned(p, |to|, indices) && d < p.width
    requires forall j :: 0 <= j < |to| ==> ClusterGains(p, from, to, indices, j, d)
    requires forall i :: 0 <= i < |p.rows| ==> gain(i) == Gain(p, from, to, indices, i, d)
    ensures Sum(gain, |p.rows|) >= 0.0
  {
    DimensionGain(p, from, to, indices, d);
    SumScale(WeightOf(p.roots, d), RowGain(p, from, to, indices, d), gain, |p.rows|);
    ProductNonNegative(WeightOf(p.roots, d), Sum(RowGain(p, from, to, indices, d), |p.rows|));
  }

  // A codebook that gains in every cluster and dimension costs no more.
  lemma GainsLower(p: Problem, from: seq<Vec>, to: seq<Vec>, indices: seq<int>)
    requires Rect(p.rows, p.width) && Assigned(p, |to|, indices)
    requires forall j, d :: 0 <= j < |to| && 0 <= d < p.width ==> ClusterGains(p, from, to, indices, j, d)
    ensures Objective(p, to, indices) <= Objective(p, from, indices)
  {
    hide ClusterGains;
    var n := |p.rows|;
    var gains := (i: int, d: int) => Gain(p, from, to, indices, i, d);
    var byRow := (i: int) => Sum((d: int) => gains(i, d), p.width);
    var byDim := (d: int) => Sum((i: int) => gains(i, d), n);
    assert Sum(byRow, n) >= 0.0 by {
      SumSwap(gains, n, p.width, byRow, byDim);
      forall d {:trigger byDim(d)} | 0 <= d < p.width
        ensures byDim(d) >= 0.0
      {
        DimensionDrop(p, from, to, indices, d, (i: int) => gains(i, d));
      }
      SumNonNegative(byDim, p.width);
    }
    var before, after := CostTerm(p, from, indices), CostTerm(p, to, indices);
    forall i {:trigger before(i)} | 0 <= i < n
      ensures before(i) == after(i) + byRow(i)
    {
      RowDrop(p, from, to, indices, i, (d: int) => gains(i, d));
    }
    SumAdd(after, byRow, before, n);
  }

  // With the assignment kept, replacing every centroid by the mean of its
  // cluster does not raise the objective, whatever the sample weights.
  lemma MoveLowers(p: Problem, codebook: seq<Vec>, indices: seq<int>)
    requires Rect(p.rows, p.width) && Assigned(p, |codebook|, indices)
    ensures Objective(p, Moved(p, codebook, indices), indices) <= Objective(p, codebook, indices)
  {
    var to := Moved(p, codebook, indices);
    hide Moved, ClusterGains;
    forall j, d | 0 <= j < |to| && 0 <= d < p.width
      ensures ClusterGains(p, codebook, to, indices, j, d)
    {
      ClusterGain(p, codebook, indices, j, d);
    }
    GainsLower(p, codebook, to, indices);
  }

  // ---------------------------------------------------- what moving comes down to

  // sum over the rows assigned to j of their weights
  ghost function WeightIn(rows: seq<Vec>, weights: seq<real>, indices: seq<int>, j: int): real {
    Sum((i: int) => if IntAt(indices, i) == j then At(weights, i) else 0.0, |rows|)
  }

  // sum over the rows assigned to j of weight * (x_d - c)
  ghost function Residual(rows: seq<Vec>, weights: seq<real>, indices: seq<int>, j: int, d: int, c: real): real {
    Sum((i: int) => if IntAt(indices, i) == j then At(weights, i) * (At(RowAt(rows, i), d) - c) else 0.0, |rows|)
  }

  // Every cluster of positive weight is balanced around its new centroid in
  // every dimension; the other centroids are the old ones.
  ghost predicate Recentred(rows: seq<Vec>, weights: seq<real>, width: nat, was: seq<Vec>, indices: seq<int>, now: seq<Vec>) {
    && |now| == |was|
    && forall j :: 0 <= j < |was| ==>
         if WeightIn(rows, weights, indices, j) > 0.0
         then |now[j]| == width && forall d :: 0 <= d < width ==> Residual(rows, weights, indices, j, d, now[j][d]) == 0.0
         else now[j] == was[j]
  }

  // The weights are the samples' own, and 1 when none are given.
  ghost predicate RecentredBy(p: Problem, was: seq<Vec>, indices: seq<int>, now: seq<Vec>) {
    && (p.sample.Some? ==> Recentred(p.rows, p.sample.value, p.width, was, indices, now))
    && (p.sample.None? ==> Recentred(p.rows, Filled(|p.rows|, 1.0), p.width, was, indices, now))
  }

  ghost function Weights(p: Problem): seq<real> {
    if p.sample.Some? then p.sample.value else Filled(|p.rows|, 1.0)
  }

  lemma WeightInIsMass(p: Problem, indices: seq<int>, j: int)
    ensures WeightIn(p.rows, Weights(p), indices, j) == Mass(p, indices, j)
  {
    var g := (i: int) => if IntAt(indices, i) == j then At(Weights(p), i) else 0.0;
    GroupSumIsSum(Key(indices), MassTerm(p), j, |p.rows|, g);
    SumCong(g, (i: int) => if IntAt(indices, i) == j then At(Weights(p), i) else 0.0, |p.rows|);
  }

  ghost function ResidualTerm(p: Problem, indices: seq<int>, j: int, d: int, c: real): int -> real {
    (i: int) => if IntAt(indices, i) == j then At(Weights(p), i) * (At(RowAt(p.rows, i), d) - c) else 0.0
  }

  lemma ResidualOfRow(p: Problem, indices: seq<int>, j: int, d: int, c: real, i: nat)
    requires i < |p.rows|
    ensures ResidualTerm(p, indices, j, d, c)(i)
         == if Key(indices)(i) == j then PullTerm(p, d)(i) - Times(c, MassTerm(p)(i)) else 0.0
  {
    var sw, x := SampleWeight(p, i), At(RowAt(p.rows, i), d);
    assert At(Weights(p), i) == sw;
    assert sw * (x - c) == sw * x - c * sw;
  }

  lemma {:induction false} ResidualTo(p: Problem, indices: seq<int>, j: int, d: int, c: real, n: nat)
    requires n <= |p.rows|
    ensures Sum(ResidualTerm(p, indices, j, d, c), n)
         == GroupSum(Key(indices), PullTerm(p, d), j, n) - Times(c, GroupSum(Key(indices), MassTerm(p), j, n))
  {
    hide Times, ResidualTerm, PullTerm, MassTerm, Key;
    if n > 0 {
      ResidualTo(p, indices, j, d, c, n - 1);
      DistributeOver(c, GroupSum(Key(indices), MassTerm(p), j, n - 1), MassTerm(p)(n - 1));
      ResidualOfRow(p, indices, j, d, c, n - 1);
    } else {
      TimesZero(c);
    }
  }

  // The weighted rows balance around c exactly when the pull is mass times c.
  lemma ResidualIs(p: Problem, indices: seq<int>, j: int, d: int, c: real)
    ensures Residual(p.rows, Weights(p), indices, j, d, c) == Pull(p, indices, j, d) - Times(c, Mass(p, indices, j))
  {
    ResidualTo(p, indices, j, d, c, |p.rows|);
    SumCong(ResidualTerm(p, indices, j, d, c),
            (i: int) => if IntAt(indices, i) == j then At(Weights(p), i) * (At(RowAt(p.rows, i), d) - c) else 0.0, |p.rows|);
  }

  lemma MeanBalances(pull: real, mass: real)
    requires mass > 0.0
    ensures Times(pull / mass, mass) == pull
  {
  }

  // Moving balances every cluster of positive weight and touches no other.
  lemma MovedRecentres(p: Problem, codebook: seq<Vec>, indices: seq<int>)
    ensures RecentredBy(p, codebook, indices, Moved(p, codebook, indices))
  {
    hide WeightIn, Residual, Mass, Pull;
    var now := Moved(p, codebook, indices);
    forall j | 0 <= j < |codebook|
      ensures if WeightIn(p.rows, Weights(p), indices, j) > 0.0
        then |now[j]| == p.width && forall d :: 0 <= d < p.width ==> Residual(p.rows, Weights(p), indices, j, d, now[j][d]) == 0.0
        else now[j] == codebook[j]
    {
      WeightInIsMass(p, indices, j);
      if Mass(p, indices, j) > 0.0 {
        forall d | 0 <= d < p.width
          ensures Residual(p.rows, Weights(p), indices, j, d, now[j][d]) == 0.0
        {
          ResidualIs(p, indices, j, d, now[j][d]);
          MeanBalances(Pull(p, indices, j, d), Mass(p, indices, j));
        }
      }
    }
  }

  // Rows without weight in a cluster of no weight.
  lemma {:induction false} NoWeightNoGain(p: Problem, indices: seq<int>, j: int, gain: int -> real, d: int, c: real, c': real, n: nat)
    requires n <= |p.rows| && NonNegativeSamples(p)
    requires forall i :: 0 <= i < n && IntAt(indices, i) == j ==> gain(i) == PairGain(p, i, d, c, c')
    ensures GroupSum(Key(indices), MassTerm(p), j, n) >= 0.0
    ensures GroupSum(Key(indices), MassTerm(p), j, n) <= 0.0 ==> GroupSum(Key(indices), gain, j, n) == 0.0
  {
    if n > 0 {
      NoWeightNoGain(p, indices, j, gain, d, c, c', n - 1);
      var sw := SampleWeight(p, n - 1);
      TimesZero(Sq(At(RowAt(p.rows, n - 1), d) - c) - Sq(At(RowAt(p.rows, n - 1), d) - c'));
    }
  }

  lemma MeanOfBalance(c: real, pull: real, mass: real)
    requires mass > 0.0 && pull - Times(c, mass) == 0.0
    ensures c == pull / mass
  {
  }

  lemma RecentredGain(p: Problem, was: seq<Vec>, indices: seq<int>, now: seq<Vec>, other: seq<Vec>, j: nat, d: nat)
    requires NonNegativeSamples(p) && RecentredBy(p, was, indices, now) && j < |now| == |other| && d < p.width
    ensures ClusterGains(p, other, now, indices, j, d)
  {
    var c, c' := At(other[j], d), At(now[j], d);
    var mass, pull, gain := Mass(p, indices, j), Pull(p, indices, j, d), RowGain(p, other, now, indices, d);
    WeightInIsMass(p, indices, j);
    if mass > 0.0 {
      assert Recentred(p.rows, Weights(p), p.width, was, indices, now);
      ResidualIs(p, indices, j, d, c');
      MeanOfBalance(c', pull, mass);
      GroupGain(p, indices, j, d, c, c', gain, |p.rows|);
      MeanGain(c, pull, mass);
      ProductNonNegative(mass, Sq(pull / mass - c));
    } else {
      NoWeightNoGain(p, indices, j, gain, d, c, c', |p.rows|);
    }
  }

  // With non-negative samples no codebook of that size costs less under the
  // same assignment.
  lemma RecentredCheapest(p: Problem, was: seq<Vec>, indices: seq<int>, now: seq<Vec>, other: seq<Vec>)
    requires Rect(p.rows, p.width) && NonNegativeSamples(p)
    requires RecentredBy(p, was, indices, now) && |other| == |now| && Assigned(p, |now|, indices)
    ensures Objective(p, now, indices) <= Objective(p, other, indices)
  {
    hide ClusterGains, RecentredBy;
    forall j, d | 0 <= j < |now| && 0 <= d < p.width
      ensures ClusterGains(p, other, now, indices, j, d)
    {
      RecentredGain(p, was, indices, now, other, j, d);
    }
    GainsLower(p, other, now, indices);
  }

  // Two rows at 0 and 2 in one cluster move its centroid from 0 to 1, and to
  // 3/2 when the second counts three times.
  lemma TwoRowsMeet()
    ensures Moved(Problem([[0.0], [2.0]], 1, None, None), [[0.0]], [0, 0]) == [[1.0]]
    ensures Moved(Problem([[0.0], [2.0]], 1, None, Some([1.0, 3.0])), [[0.0]], [0, 0]) == [[1.5]]
  {
    TwoRows(Problem([[0.0], [2.0]], 1, None, None), 1.0, 1.0);
    TwoRows(Problem([[0.0], [2.0]], 1, None, Some([1.0, 3.0])), 1.0, 3.0);
  }

  lemma TwoRows(p: Problem, a: real, b: real)
    requires p.rows == [[0.0], [2.0]] && p.width == 1 && SampleWeight(p, 0) == a && SampleWeight(p, 1) == b && a + b > 0.0
    ensures Moved(p, [[0.0]], [0, 0]) == [[2.0 * b / (a + b)]]
  {
    var key, mass, pull := Key([0, 0]), MassTerm(p), PullTerm(p, 0);
    assert GroupSum(key, mass, 0, 2) == GroupSum(key, mass, 0, 1) + mass(1) == GroupSum(key, mass, 0, 0) + mass(0) + mass(1);
    assert GroupSum(key, pull, 0, 2) == GroupSum(key, pull, 0, 1) + pull(1) == GroupSum(key, pull, 0, 0) + pull(0) + pull(1);
    assert pull(0) == 0.0 && pull(1) == 2.0 * b;
    assert Moved(p, [[0.0]], [0, 0])[0] == [Pull(p, [0, 0], 0, 0) / Mass(p, [0, 0], 0)];
  }

  // With the centroids kept, a nearest assignment costs no more than any other.
  lemma ReassignLowers(p: Problem, codebook: seq<Vec>, indices: seq<int>, nearest: seq<int>)
    requires NonNegativeSamples(p) && Assigned(p, |codebook|, indices) && AllNearest(p, codebook, nearest)
    ensures Objective(p, codebook, nearest) <= Objective(p, codebook, indices)
  {
    var f, g := CostTerm(p, codebook, nearest), CostTerm(p, codebook, indices);
    forall i {:trigger f(i)} | 0 <= i < |p.rows|
      ensures f(i) <= g(i)
    {
      assert Nearest(p.rows[i], codebook, p.roots, nearest[i]);
      assert SampleWeight(p, i) >= 0.0;
      TimesMono(SampleWeight(p, i), WeightedDist(p.rows[i], codebook[nearest[i]], p.roots), WeightedDist(p.rows[i], codebook[indices[i]], p.roots));
    }
    SumMono(f, g, |p.rows|);
  }

  lemma TimesMono(f: real, a: real, b: real)
    requires f >= 0.0 && a <= b
    ensures Times(f, a) <= Times(f, b)
  {
    ProductNonNegative(f, b - a);
    DistributeOver(f, a, b - a);
  }

  // One iteration: assign to the nearest, move, and assign again.
  lemma LloydDescends(p: Problem, codebook: seq<Vec>, indices: seq<int>, next: seq<int>)
    requires Rect(p.rows, p.width) && NonNegativeSamples(p)
    requires AllNearest(p, codebook, indices) && AllNearest(p, Moved(p, codebook, indices), next)
    ensures Objective(p, Moved(p, codebook, indices), next) <= Objective(p, codebook, indices)
  {
    MoveLowers(p, codebook, indices);
    ReassignLowers(p, Moved(p, codebook, indices), indices, next);
  }

  // What the t-th iteration starts from: a codebook and its assignment.
  datatype State = State(codebook: seq<Vec>, indices: seq<int>)

  ghost function Cost(p: Problem, s: State): real {
    Objective(p, s.codebook, s.indices)
  }

  ghost predicate Settled(p: Problem, s: State) {
    AllNearest(p, s.codebook, s.indices)
  }

  ghost predicate Follows(p: Problem, before: State, after: seq<Vec>) {
    after == Moved(p, before.codebook, before.indices)
  }

  ghost predicate Step(p: Problem, run: seq<State>, t: int) {
    0 < t < |run| ==> Follows(p, run[t - 1], run[t].codebook)
  }

  ghost predicate Iterates(p: Problem, run: seq<State>) {
    && (forall t :: 0 <= t < |run| ==> Settled(p, run[t]))
    && (forall t :: 0 < t < |run| ==> Step(p, run, t))
  }

  lemma StepDescends(p: Problem, before: State, after: State)
    requires Rect(p.rows, p.width) && NonNegativeSamples(p)
    requires Settled(p, before) && Settled(p, after) && Follows(p, before, after.codebook)
    ensures Cost(p, after) <= Cost(p, before)
  {
    LloydDescends(p, before.codebook, before.indices, after.indices);
  }

  // Over any number of iterations the objective never rises.
  lemma {:induction false} RunDescends(p: Problem, run: seq<State>, a: nat, b: nat)
    requires Rect(p.rows, p.width) && NonNegativeSamples(p) && Iterates(p, run)
    requires a <= b < |run|
    ensures Cost(p, run[b]) <= Cost(p, run[a])
  {
    if a < b {
      RunDescends(p, run, a, b - 1);
      assert Step(p, run, b);
      StepDescends(p, run[b - 1], run[b]);
    }
  }

  // Every codebook of a run but the first balances the clusters of the state
  // before it.
  ghost predicate RunRecentres(p: Problem, run: seq<State>) {
    forall t :: 0 < t < |run| ==> RecentredBy(p, run[t - 1].codebook, run[t - 1].indices, run[t].codebook)
  }

  lemma IteratesRecentres(p: Problem, run: seq<State>)
    requires Iterates(p, run)
    ensures RunRecentres(p, run)
  {
    hide RecentredBy, Moved;
    forall t | 0 < t < |run|
      ensures RecentredBy(p, run[t - 1].codebook, run[t - 1].indices, run[t].codebook)
    {
      assert Step(p, run, t);
      MovedRecentres(p, run[t - 1].codebook, run[t - 1].indices);
    }
  }
}
