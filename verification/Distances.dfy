// Squared distances between vectors and centroids, and what "the nearest
// centroid" means: the definition every assignment routine is proved against.

module Distances {
  import opened Basics
  import opened Sums

  type Vec = seq<real>

  function Sq(x: real): (r: real)
    ensures r >= 0.0
  {
    x * x
  }

  function NormTerm(v: Vec): int -> real {
    (d: int) => Sq(At(v, d))
  }

  function DotTerm(v: Vec, c: Vec): int -> real {
    (d: int) => Times(At(v, d), At(c, d))
  }

  function GapTerm(v: Vec, c: Vec): int -> real {
    (d: int) => Sq(At(v, d) - At(c, d))
  }

  // np.sum(v * v), np.dot(v, c), np.sum((v - c) ** 2)
  function SquaredNorm(v: Vec): real {
    Sum(NormTerm(v), |v|)
  }

  function Dot(v: Vec, c: Vec): real {
    Sum(DotTerm(v, c), |v|)
  }

  function Dist(v: Vec, c: Vec): real {
    Sum(GapTerm(v, c), |v|)
  }

  lemma SquareOfDifference(a: real, b: real)
    ensures Sq(a - b) == Sq(a) + Sq(b) - 2.0 * Times(a, b)
  {
  }

  // |v - c|^2 == |v|^2 + |c|^2 - 2 v.c
  lemma Expand(v: Vec, c: Vec)
    requires |v| == |c|
    ensures Dist(v, c) == SquaredNorm(v) + SquaredNorm(c) - 2.0 * Dot(v, c)
  {
    ExpandTo(v, c, |v|);
  }

  lemma {:induction false} ExpandTo(v: Vec, c: Vec, n: nat)
    ensures Sum(GapTerm(v, c), n) == Sum(NormTerm(v), n) + Sum(NormTerm(c), n) - 2.0 * Sum(DotTerm(v, c), n)
  {
    if n > 0 {
      ExpandTo(v, c, n - 1);
      SquareOfDifference(At(v, n - 1), At(c, n - 1));
    }
  }

  // ------------------------------------------------------------ weighted form

  // Dimension weights are given by their square roots; a non-negative weight
  // always has one.
  type Roots = Option<Vec>

  function WeightOf(roots: Roots, d: int): (w: real)
    ensures w >= 0.0
  {
    if roots.Some? then Sq(At(roots.value, d)) else 1.0
  }

  // rows * sqrt_W
  function Weigh(v: Vec, roots: Roots): (r: Vec)
    ensures |r| == |v|
  {
    if roots.Some? then seq(|v|, d requires 0 <= d < |v| => Times(v[d], At(roots.value, d))) else v
  }

  function WeightedGap(v: Vec, c: Vec, roots: Roots): int -> real {
    (d: int) => Times(WeightOf(roots, d), Sq(At(v, d) - At(c, d)))
  }

  // sum_d W_d (v_d - c_d)^2
  function WeightedDist(v: Vec, c: Vec, roots: Roots): real {
    Sum(WeightedGap(v, c, roots), |v|)
  }

  lemma SquareOfScaled(a: real, b: real, u: real)
    ensures Sq(Times(a, u) - Times(b, u)) == Times(Sq(u), Sq(a - b))
  {
    assert Times(a, u) - Times(b, u) == Times(a - b, u);
  }

  // Plain distance on scaled vectors is weighted distance.
  lemma WeighedDistance(v: Vec, c: Vec, roots: Roots)
    requires |v| == |c|
    ensures Dist(Weigh(v, roots), Weigh(c, roots)) == WeightedDist(v, c, roots)
  {
    var f, g := GapTerm(Weigh(v, roots), Weigh(c, roots)), WeightedGap(v, c, roots);
    forall d {:trigger f(d)} | 0 <= d < |v|
      ensures f(d) == g(d)
    {
      if roots.Some? {
        SquareOfScaled(v[d], c[d], At(roots.value, d));
      }
    }
    SumCong(f, g, |v|);
  }

  // Dimension by dimension: the last one adds its weight times the squared gap.
  lemma DistanceByDimension(v: Vec, c: Vec, roots: Roots)
    requires |v| == |c| > 0 && (roots.Some? ==> |roots.value| == |v|)
    ensures var n := |v| - 1; var gap := v[n] - c[n]; var root := if roots.Some? then roots.value[n] else 1.0;
      WeightedDist(v, c, roots) == WeightedDist(v[..n], c[..n], roots) + root * root * (gap * gap)
    ensures WeightedDist([], [], roots) == 0.0
  {
    var n := |v| - 1;
    SumCong(WeightedGap(v, c, roots), WeightedGap(v[..n], c[..n], roots), n);
    var gap, root := v[n] - c[n], if roots.Some? then roots.value[n] else 1.0;
    assert WeightedGap(v, c, roots)(n) == Times(root * root, gap * gap);
  }

  // ----------------------------------------------------------------- the argmin

  // The lowest index of a smallest element.
  ghost predicate FirstMin(s: seq<real>, j: nat) {
    && j < |s|
    && (forall i :: 0 <= i < |s| ==> s[j] <= s[i])
    && (forall i :: 0 <= i < j ==> s[j] < s[i])
  }

  // np.argmin
  function ArgMin(s: seq<real>): (j: nat)
    requires |s| > 0
    ensures FirstMin(s, j)
  {
    if |s| == 1 then 0
    else
      var before := ArgMin(s[..|s| - 1]);
      assert forall i :: 0 <= i < |s| - 1 ==> s[..|s| - 1][i] == s[i];
      if s[|s| - 1] < s[before] then |s| - 1 else before
  }

  // Centroid j is nearest to v, the lowest of the nearest.
  ghost predicate Nearest(v: Vec, codebook: seq<Vec>, roots: Roots, j: int) {
    && 0 <= j < |codebook|
    && (forall i :: 0 <= i < |codebook| ==> WeightedDist(v, codebook[j], roots) <= WeightedDist(v, codebook[i], roots))
    && (forall i :: 0 <= i < j ==> WeightedDist(v, codebook[j], roots) < WeightedDist(v, codebook[i], roots))
  }

  // Scores that differ from the distances by one constant rank the centroids
  // as the distances do.
  lemma ShiftedScores(v: Vec, codebook: seq<Vec>, roots: Roots, scores: seq<real>, shift: real, j: nat)
    requires |scores| == |codebook| && FirstMin(scores, j)
    requires forall i :: 0 <= i < |codebook| ==> scores[i] == WeightedDist(v, codebook[i], roots) + shift
    ensures Nearest(v, codebook, roots, j)
  {
  }

  // |x|^2 stands for any base here: the argmin does not depend on it.
  lemma ReducedScore(v: Vec, c: Vec, roots: Roots, base: real)
    requires |v| == |c|
    ensures var wv, wc := Weigh(v, roots), Weigh(c, roots);
      base + SquaredNorm(wc) - 2.0 * Dot(wv, wc) == WeightedDist(v, c, roots) + (base - SquaredNorm(wv))
  {
    Expand(Weigh(v, roots), Weigh(c, roots));
    WeighedDistance(v, c, roots);
  }
}
