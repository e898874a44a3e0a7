// The numpy k-means backend (orka/codebook/_kmeans_numpy.py): k-means|| seeding,
// chunked assignment, centroid sums by bincount, and the Lloyd loop.

module KMeans {
  import opened Basics
  import opened Sums
  import opened Distances
  import opened Lloyd

  datatype Error =
    | EmptyRows | BadSize | BadIterations
    | LengthMismatch | OutOfBounds | NoCentroids | ZeroWidth | CodebookTooSmall

  datatype Result<+T> = Ok(value: T) | Err(error: Error)

  // -------------------------------------------------------------- _numpy_assign

  // One assignment: rows, centroids, roots of the weights, optional row norms.
  datatype Search = Search(rows: seq<Vec>, codebook: seq<Vec>, roots: Roots, norms: Option<seq<real>>)

  // The row norm that enters the distances: the caller's, unless weights force
  // a fresh one.
  function NormUsed(q: Search, i: int): real {
    if q.roots.None? && q.norms.Some? then At(q.norms.value, i) else SquaredNorm(Weigh(RowAt(q.rows, i), q.roots))
  }

  // One row of the distance matrix.
  function Scores(q: Search, i: int): (r: seq<real>)
    ensures |r| == |q.codebook|
  {
    var v := Weigh(RowAt(q.rows, i), q.roots);
    seq(|q.codebook|, j requires 0 <= j < |q.codebook| =>
      NormUsed(q, i) + SquaredNorm(Weigh(q.codebook[j], q.roots)) - 2.0 * Dot(v, Weigh(q.codebook[j], q.roots)))
  }

  function Chosen(q: Search, i: int): nat {
    if |q.codebook| > 0 then ArgMin(Scores(q, i)) else 0
  }

  function ChosenScore(q: Search): int -> real {
    (i: int) => At(Scores(q, i), Chosen(q, i))
  }

  lemma ChosenIsNearest(q: Search, width: nat, i: nat)
    requires Rect(q.rows, width) && Rect(q.codebook, width) && |q.codebook| > 0 && i < |q.rows|
    ensures Nearest(q.rows[i], q.codebook, q.roots, Chosen(q, i))
    ensures ChosenScore(q)(i) == WeightedDist(q.rows[i], q.codebook[Chosen(q, i)], q.roots)
                               + (NormUsed(q, i) - SquaredNorm(Weigh(q.rows[i], q.roots)))
  {
    var v, s := q.rows[i], Scores(q, i);
    var shift := NormUsed(q, i) - SquaredNorm(Weigh(v, q.roots));
    forall j | 0 <= j < |q.codebook|
      ensures s[j] == WeightedDist(v, q.codebook[j], q.roots) + shift
    {
      ReducedScore(v, q.codebook[j], q.roots, NormUsed(q, i));
    }
    ShiftedScores(v, q.codebook, q.roots, s, shift, ArgMin(s));
  }

  ghost predicate ChosenFrom(q: Search, lo: nat, hi: nat, indices: seq<int>) {
    hi <= |indices| && forall i :: lo <= i < hi ==> indices[i] == Chosen(q, i)
  }

  // Row i: its distances, its choice and what that costs.
  method AssignRow(q: Search, i: nat, indices: array<int>) returns (cost: real)
    requires i < |q.rows| == indices.Length && |q.codebook| > 0
    requires ChosenFrom(q, 0, i, indices[..])
    modifies indices
    ensures ChosenFrom(q, 0, i + 1, indices[..])
    ensures cost == ChosenScore(q)(i)
  {
    var scores := Scores(q, i);
    var chosen := ArgMin(scores);
    indices[i] := chosen;
    cost := scores[chosen];
  }

  // Rows start to stop: their choices and their total.
  method AssignChunk(q: Search, start: nat, stop: nat, indices: array<int>) returns (total: real)
    requires start <= stop <= |q.rows| == indices.Length && |q.codebook| > 0
    requires ChosenFrom(q, 0, start, indices[..])
    modifies indices
    ensures ChosenFrom(q, 0, stop, indices[..])
    ensures total == Sum(ChosenScore(q), stop) - Sum(ChosenScore(q), start)
  {
    hide Chosen, ChosenScore;
    total := 0.0;
    for i := start to stop
      invariant ChosenFrom(q, 0, i, indices[..])
      invariant total == Sum(ChosenScore(q), i) - Sum(ChosenScore(q), start)
    {
      var cost := AssignRow(q, i, indices);
      total := total + cost;
    }
  }

  // All rows, a chunk at a time.
  method AssignAll(q: Search, effective: pos) returns (indices: seq<int>, total: real)
    requires |q.codebook| > 0
    ensures |indices| == |q.rows| && forall i :: 0 <= i < |indices| ==> indices[i] == Chosen(q, i)
    ensures total == Sum(ChosenScore(q), |q.rows|)
  {
    hide Chosen, ChosenScore;
    var out := new int[|q.rows|];
    var start := 0;
    total := 0.0;
    while start < |q.rows|
      invariant ChosenFrom(q, 0, Min(start, |q.rows|), out[..])
      invariant total == Sum(ChosenScore(q), Min(start, |q.rows|))
      decreases |q.rows| as int - start
    {
      var part := AssignChunk(q, start, Min(start + effective, |q.rows|), out);
      total := total + part;
      start := start + effective;
    }
    indices := out[..];
  }

  ghost function ErrorTerm(rows: seq<Vec>, codebook: seq<Vec>, roots: Roots, indices: seq<int>): int -> real {
    (i: int) => WeightedDist(RowAt(rows, i), RowAt(codebook, IntAt(indices, i)), roots)
  }

  // sum_i sum_d W_d (x_id - c_a(i)d)^2
  ghost function SquaredError(rows: seq<Vec>, codebook: seq<Vec>, roots: Roots, indices: seq<int>): real {
    Sum(ErrorTerm(rows, codebook, roots, indices), |rows|)
  }

  ghost predicate NormsTrue(q: Search) {
    forall i {:trigger NormUsed(q, i)} :: 0 <= i < |q.rows| ==> NormUsed(q, i) == SquaredNorm(Weigh(q.rows[i], q.roots))
  }

  lemma TrueNormsError(q: Search, width: nat, indices: seq<int>)
    requires Rect(q.rows, width) && Rect(q.codebook, width) && |q.codebook| > 0 && NormsTrue(q)
    requires |indices| == |q.rows| && forall i :: 0 <= i < |indices| ==> indices[i] == Chosen(q, i)
    ensures Sum(ChosenScore(q), |q.rows|) == SquaredError(q.rows, q.codebook, q.roots, indices)
  {
    var f, g := ChosenScore(q), ErrorTerm(q.rows, q.codebook, q.roots, indices);
    forall i {:trigger f(i)} | 0 <= i < |q.rows|
      ensures f(i) == g(i)
    {
      ChosenIsNearest(q, width, i);
      assert NormUsed(q, i) == SquaredNorm(Weigh(q.rows[i], q.roots));
    }
    SumCong(f, g, |q.rows|);
  }

  datatype Assignment = Assignment(indices: seq<int>, mse: real)

  // What stops an assignment.
  ghost function AssignError(q: Search, computeMse: bool, width: nat): Option<Error> {
    if q.roots.None? && q.norms.Some? && |q.norms.value| != |q.rows| then Some(LengthMismatch)
    else if |q.rows| > 0 && |q.codebook| == 0 then Some(NoCentroids)
    else if computeMse && (|q.rows| == 0 || width == 0) then Some(ZeroWidth)
    else None
  }

  // One norm per row if used, a centroid if there are rows, entries if averaged.
  lemma AssignErrorIff(q: Search, computeMse: bool, width: nat)
    ensures AssignError(q, computeMse, width).None? <==>
      && (q.roots.None? && q.norms.Some? ==> |q.norms.value| == |q.rows|)
      && (|q.rows| > 0 ==> |q.codebook| > 0) && (computeMse ==> |q.rows| > 0 && width > 0)
    ensures AssignError(q, computeMse, width) == Some(NoCentroids) ==> |q.rows| > 0 && |q.codebook| == 0
  {
  }

  // total / (n * width)
  ghost predicate IsMean(mse: real, total: real, n: nat, width: nat) {
    mse * (n * width) as real == total
  }

  method Mean(total: real, n: pos, width: pos) returns (mse: real)
    ensures IsMean(mse, total, n, width)
  {
    assert n * width > 0;
    mse := total / (n * width) as real;
  }

  // Nearest centroids for any chunk size and any row norms; the mean squared
  // error when the norms are the rows' own.
  method NumpyAssign(q: Search, chunkSize: nat, computeMse: bool, width: nat) returns (r: Result<Assignment>)
    requires Rect(q.rows, width) && Rect(q.codebook, width)
    ensures var e := AssignError(q, computeMse, width); if e.Some? then r == Err(e.value) else r.Ok?
    ensures r.Ok? ==> |r.value.indices| == |q.rows|
    ensures r.Ok? ==> forall i :: 0 <= i < |q.rows| ==> Nearest(q.rows[i], q.codebook, q.roots, r.value.indices[i])
    ensures r.Ok? && computeMse && NormsTrue(q) ==>
      IsMean(r.value.mse, SquaredError(q.rows, q.codebook, q.roots, r.value.indices), |q.rows|, width)
  {
    if q.roots.None? && q.norms.Some? && |q.norms.value| != |q.rows| {
      return Err(LengthMismatch);
    }
    var effective := Max(64, Min(chunkSize, 0x400_0000 / Max(|q.codebook|, 1)));
    var indices, total := [], 0.0;
    if |q.rows| > 0 {
      if |q.codebook| == 0 {
        return Err(NoCentroids);
      }
      indices, total := AssignAll(q, effective);
      forall i | 0 <= i < |q.rows|
        ensures Nearest(q.rows[i], q.codebook, q.roots, indices[i])
      {
        ChosenIsNearest(q, width, i);
      }
    }
    if !computeMse {
      return Ok(Assignment(indices, 0.0));
    }
    if |q.rows| == 0 || width == 0 {
      return Err(ZeroWidth);
    }
    if NormsTrue(q) {
      TrueNormsError(q, width, indices);
    }
    var mse := Mean(total, |q.rows|, width);
    r := Ok(Assignment(indices, mse));
  }

  // ------------------------------------------------------- _numpy_centroid_sums

  ghost function SumsError(p: Problem, indices: seq<int>, k: nat): Option<Error> {
    if |indices| != |p.rows| then Some(LengthMismatch)
    else if exists i :: 0 <= i < |indices| && !(0 <= indices[i] < k) then Some(OutOfBounds)
    else if p.sample.Some? && |p.sample.value| != |p.rows| then Some(LengthMismatch)
    else None
  }

  // One index per row, each a centroid, and one weight per row if any.
  lemma SumsErrorIff(p: Problem, indices: seq<int>, k: nat)
    ensures SumsError(p, indices, k).None? <==>
      && |indices| == |p.rows| && (forall i :: 0 <= i < |indices| ==> 0 <= indices[i] < k)
      && (p.sample.Some? ==> |p.sample.value| == |p.rows|)
    ensures SumsError(p, indices, k) == Some(OutOfBounds) <==>
      |indices| == |p.rows| && exists i :: 0 <= i < |indices| && !(0 <= indices[i] < k)
  {
  }

  // Sums by bincount, one dimension at a time.
  method CentroidSums(p: Problem, indices: seq<int>, k: nat) returns (r: Result<seq<Vec>>)
    ensures var e := SumsError(p, indices, k); if e.Some? then r == Err(e.value) else r.Ok?
    ensures r.Ok? ==> |r.value| == k && Rect(r.value, p.width)
    ensures r.Ok? ==> forall j, d :: 0 <= j < k && 0 <= d < p.width ==> r.value[j][d] == Pull(p, indices, j, d)
  {
    if |indices| != |p.rows| {
      return Err(LengthMismatch);
    }
    if exists i :: 0 <= i < |indices| && !(0 <= indices[i] < k) {
      return Err(OutOfBounds);
    }
    if p.sample.Some? && |p.sample.value| != |p.rows| {
      return Err(LengthMismatch);
    }
    var sums := Filled(k, Filled(p.width, 0.0));
    for dim := 0 to p.width
      invariant |sums| == k && Rect(sums, p.width)
      invariant forall j, d :: 0 <= j < k && 0 <= d < dim ==> sums[j][d] == Pull(p, indices, j, d)
    {
      sums := seq(k, j requires 0 <= j < k => sums[j][dim := Pull(p, indices, j, dim)]);
    }
    r := Ok(sums);
  }

  // np.bincount(indices), weighted or not, then the means.
  method MoveCentroids(p: Problem, indices: seq<int>, codebook: array<Vec>, sums: seq<Vec>)
    requires |sums| == codebook.Length && Rect(sums, p.width)
    requires forall j, d :: 0 <= j < |sums| && 0 <= d < p.width ==> sums[j][d] == Pull(p, indices, j, d)
    modifies codebook
    ensures codebook[..] == Moved(p, old(codebook[..]), indices)
  {
    var counts := seq(codebook.Length, j requires 0 <= j < codebook.Length => Mass(p, indices, j));
    WriteMeans(p, indices, codebook, sums, counts);
  }

  // codebook[nonzero] = sums[nonzero] / counts[nonzero], in place.
  method WriteMeans(p: Problem, indices: seq<int>, codebook: array<Vec>, sums: seq<Vec>, counts: seq<real>)
    requires |sums| == |counts| == codebook.Length && Rect(sums, p.width)
    requires forall j, d :: 0 <= j < |sums| && 0 <= d < p.width ==> sums[j][d] == Pull(p, indices, j, d)
    requires forall j :: 0 <= j < |counts| ==> counts[j] == Mass(p, indices, j)
    modifies codebook
    ensures codebook[..] == Moved(p, old(codebook[..]), indices)
  {
    hide Mass, Pull;
    ghost var was := codebook[..];
    for j := 0 to codebook.Length
      invariant forall j' :: 0 <= j' < j ==> codebook[j'] == NewCentroid(p, indices, j', was[j'])
      invariant forall j' :: j <= j' < codebook.Length ==> codebook[j'] == was[j']
    {
      if counts[j] > 0.0 {
        codebook[j] := seq(p.width, d requires 0 <= d < p.width => sums[j][d] / counts[j]);
      }
    }
  }

  // -------------------------------------------------------- k-means|| seeding

  // The least squared distance from v to the first n of the candidates.
  ghost predicate IsMinDist(v: Vec, candidates: seq<Vec>, m: real) {
    && (forall c :: 0 <= c < |candidates| ==> m <= Dist(v, candidates[c]))
    && (exists c :: 0 <= c < |candidates| && m == Dist(v, candidates[c]))
  }

  ghost predicate FromRows(rows: seq<Vec>, picked: seq<Vec>) {
    forall c :: 0 <= c < |picked| ==> picked[c] in rows
  }

  // min(min_d2[i], smallest distance to the new centres), by the expanded form.
  function Lowered(v: Vec, m: real, centers: seq<Vec>): real {
    if |centers| == 0 then m
    else
      var rest := Lowered(v, m, centers[..|centers| - 1]);
      var c := centers[|centers| - 1];
      var d := SquaredNorm(v) + SquaredNorm(c) - 2.0 * Dot(v, c);
      if d < rest then d else rest
  }

  lemma {:induction false} LoweredIsMin(v: Vec, m: real, candidates: seq<Vec>, centers: seq<Vec>)
    requires IsMinDist(v, candidates, m) && Rect(centers, |v|)
    ensures IsMinDist(v, candidates + centers, Lowered(v, m, centers))
  {
    if |centers| == 0 {
      assert candidates + centers == candidates;
    } else {
      var front, c := centers[..|centers| - 1], centers[|centers| - 1];
      LoweredIsMin(v, m, candidates, front);
      Expand(v, c);
      MinOfMore(v, candidates + front, c, Lowered(v, m, front));
      assert candidates + centers == candidates + front + [c];
    }
  }

  lemma MinOfMore(v: Vec, candidates: seq<Vec>, c: Vec, m: real)
    requires IsMinDist(v, candidates, m)
    ensures IsMinDist(v, candidates + [c], if Dist(v, c) < m then Dist(v, c) else m)
  {
    var more := candidates + [c];
    assert more[|candidates|] == c;
    var k :| 0 <= k < |candidates| && m == Dist(v, candidates[k]);
    assert more[k] == candidates[k];
  }

  ghost predicate MinDists(rows: seq<Vec>, candidates: seq<Vec>, minD2: seq<real>) {
    |minD2| == |rows| && forall i :: 0 <= i < |rows| ==> IsMinDist(rows[i], candidates, minD2[i])
  }

  // np.minimum over one round's new centres, in chunks of rows, in place.
  method LowerMinDists(rows: seq<Vec>, width: nat, candidates: seq<Vec>, centers: seq<Vec>, minD2: array<real>)
    requires Rect(rows, width) && Rect(centers, width) && MinDists(rows, candidates, minD2[..])
    modifies minD2
    ensures MinDists(rows, candidates + centers, minD2[..])
  {
    var chunkSize := Max(64, Min(65536, 0x400_0000 / (4 * Max(|centers|, 1))));
    ghost var was := minD2[..];
    var start := 0;
    while start < |rows|
      invariant forall i :: 0 <= i < Min(start, |rows|) ==> IsMinDist(rows[i], candidates + centers, minD2[i])
      invariant forall i :: start <= i < |rows| ==> minD2[i] == was[i]
      decreases |rows| as int - start
    {
      var end := Min(start + chunkSize, |rows|);
      for i := start to end
        invariant forall i' :: 0 <= i' < i ==> IsMinDist(rows[i'], candidates + centers, minD2[i'])
        invariant forall i' :: i <= i' < |rows| ==> minD2[i'] == was[i']
      {
        LoweredIsMin(rows[i], was[i], candidates, centers);
        minD2[i] := Lowered(rows[i], minD2[i], centers);
      }
      start := start + chunkSize;
    }
  }

  // Up to perRound rows drawn with positive probability, in ascending order.
  method DrawCenters(rows: seq<Vec>, minD2: seq<real>, perRound: nat) returns (centers: seq<Vec>)
    requires |minD2| == |rows|
    ensures |centers| <= perRound && FromRows(rows, centers)
  {
    centers := [];
    for i := 0 to |rows|
      invariant |centers| <= perRound && FromRows(rows, centers)
    {
      var drawn: bool := *;
      if drawn && 0.0 < minD2[i] && |centers| < perRound {
        centers := centers + [rows[i]];
      }
    }
  }

  method SeedDistances(rows: seq<Vec>, seed: Vec) returns (least: array<real>)
    ensures fresh(least) && least.Length == |rows| && MinDists(rows, [seed], least[..])
  {
    hide Dist;
    least := new real[|rows|](i requires 0 <= i < |rows| => Dist(rows[i], seed));
    forall i | 0 <= i < |rows|
      ensures IsMinDist(rows[i], [seed], least[i])
    {
      assert [seed][0] == seed;
    }
  }

  // The oversampling rounds; min_d2 stays the distance to the nearest candidate.
  method Oversample(rows: seq<Vec>, width: nat, k: nat) returns (candidates: seq<Vec>, minD2: seq<real>)
    requires Rect(rows, width) && 0 < k < |rows|
    ensures 0 < |candidates| && FromRows(rows, candidates) && MinDists(rows, candidates, minD2)
  {
    hide MinDists;
    var first: nat :| first < |rows|;
    candidates := [rows[first]];
    var least := SeedDistances(rows, rows[first]);
    var perRound := Max(1, Min(2 * k, |rows| / 5));
    var round := 0;
    while round < 5 && |candidates| < 5 * k
      invariant 0 < |candidates| && FromRows(rows, candidates) && MinDists(rows, candidates, least[..])
      decreases 5 - round
    {
      var centers := DrawCenters(rows, least[..], perRound);
      if |centers| == 0 {
        break;
      }
      LowerMinDists(rows, width, candidates, centers, least);
      candidates := candidates + centers;
      round := round + 1;
    }
    minD2 := least[..];
  }

  ghost predicate Apart(order: seq<nat>, n: nat) {
    && (forall i :: 0 <= i < |order| ==> order[i] < n)
    && forall i, j :: 0 <= i < j < |order| ==> order[i] != order[j]
  }

  ghost predicate Reads(rows: seq<Vec>, order: seq<nat>, picked: seq<Vec>) {
    && |order| == |picked| && (forall i :: 0 <= i < |order| ==> order[i] < |rows|)
    && forall i :: 0 <= i < |order| ==> picked[i] == rows[order[i]]
  }

  // The picks are the rows at pairwise distinct indices.
  ghost predicate Drawn(rows: seq<Vec>, picked: seq<Vec>) {
    exists order: seq<nat> {:trigger Apart(order, |rows|)} :: Apart(order, |rows|) && Reads(rows, order, picked)
  }

  // rng.choice(n, size=count, replace=False): the front of a shuffle.
  method DrawApart(rows: seq<Vec>, count: nat) returns (picked: seq<Vec>)
    requires count <= |rows|
    ensures |picked| == count && Drawn(rows, picked)
  {
    var order: seq<nat> := seq(|rows|, i requires 0 <= i < |rows| => i);
    for j := 0 to count
      invariant |order| == |rows| && Apart(order, |rows|)
    {
      var p: nat :| j <= p < |rows|;
      order := order[j := order[p]][p := order[j]];
    }
    var front := order[..count];
    picked := seq(count, j requires 0 <= j < count => rows[front[j]]);
    assert Apart(front, |rows|) && Reads(rows, front, picked);
  }

  lemma DrawnFromRows(rows: seq<Vec>, picked: seq<Vec>)
    requires Drawn(rows, picked)
    ensures FromRows(rows, picked)
  {
    var order: seq<nat> :| Apart(order, |rows|) && Reads(rows, order, picked);
  }

  // Seeds: exactly k of them, every one a row of the data, and different rows
  // where k is above the limit of the oversampling or takes them all.
  method ParallelInit(rows: seq<Vec>, width: nat, k: nat, maxPlusPlus: nat) returns (seeds: seq<Vec>)
    requires Rect(rows, width) && 0 < k <= |rows|
    ensures |seeds| == k && FromRows(rows, seeds)
    ensures k > maxPlusPlus || k == |rows| ==> Drawn(rows, seeds)
  {
    if k >= |rows| {
      ghost var order: seq<nat> := seq(|rows|, i requires 0 <= i < |rows| => i);
      assert Apart(order, |rows|) && Reads(rows, order, rows);
      return rows;
    }
    if k > maxPlusPlus {
      seeds := DrawApart(rows, k);
      DrawnFromRows(rows, seeds);
      return;
    }
    var minD2;
    seeds, minD2 := Oversample(rows, width, k);
    if |seeds| > k {
      var kept := DrawRows(seeds, k);
      seeds := kept;
    }
    if |seeds| < k {
      var extra := DrawRows(rows, k - |seeds|);
      seeds := seeds + extra;
    }
    seeds := seeds[..k];
  }

  method DrawRows(rows: seq<Vec>, count: nat) returns (drawn: seq<Vec>)
    requires |rows| > 0
    ensures |drawn| == count && FromRows(rows, drawn)
  {
    drawn := [];
    for j := 0 to count
      invariant |drawn| == j && FromRows(rows, drawn)
    {
      var i: nat :| i < |rows|;
      drawn := drawn + [rows[i]];
    }
  }

  // ------------------------------------------------------- _learn_codebook_numpy

  datatype Learned = Learned(codebook: seq<Vec>, indices: seq<int>, mse: real)

  // Three passes are enough when there are nearly as many centroids as rows.
  function EffectiveIterations(n: nat, k: nat, iterations: nat): nat {
    if k >= n * 9 / 10 then Min(iterations, 3) else iterations
  }

  // All passes asked for, unless there are more than three and the codebook has
  // at least nine tenths of the rows, rounded down.
  lemma PassesIff(n: nat, k: nat, iterations: nat)
    ensures iterations <= 3 || 10 * k <= 9 * n - 10 ==> EffectiveIterations(n, k, iterations) == iterations
    ensures iterations > 3 && 10 * k > 9 * n - 10 ==> EffectiveIterations(n, k, iterations) == 3
  {
  }

  // The first failure of a call, in the order the checks and the first
  // iteration meet it.
  ghost function LearnError(p: Problem, size: int, iterations: int, initial: Option<seq<Vec>>): Option<Error> {
    if |p.rows| == 0 then Some(EmptyRows)
    else if size <= 0 then Some(BadSize)
    else if iterations <= 0 then Some(BadIterations)
    else if initial.Some? && |initial.value| == 0 then Some(NoCentroids)
    else if p.width == 0 then Some(ZeroWidth)
    else if p.sample.Some? && |p.sample.value| != |p.rows| then Some(LengthMismatch)
    else if initial.Some? && |initial.value| < Min(size, |p.rows|) then Some(CodebookTooSmall)
    else None
  }

  // A codebook is learned exactly from some rows of some width, for a positive
  // size and number of iterations, one weight per row if any, and an initial
  // codebook, if any, that fills all rows asked for.
  lemma LearnErrorIff(p: Problem, size: int, iterations: int, initial: Option<seq<Vec>>)
    ensures LearnError(p, size, iterations, initial).None? <==>
      && |p.rows| > 0 && size > 0 && iterations > 0 && p.width > 0
      && (p.sample.Some? ==> |p.sample.value| == |p.rows|)
      && (initial.Some? ==> size <= |initial.value| || |p.rows| <= |initial.value|)
  {
  }

  method InitialCodebook(p: Problem, k: nat, initial: Option<seq<Vec>>, maxPlusPlus: nat) returns (codebook: seq<Vec>)
    requires Rect(p.rows, p.width) && 0 < k <= |p.rows|
    requires initial.Some? ==> Rect(initial.value, p.width)
    ensures Rect(codebook, p.width)
    ensures initial.Some? ==> codebook == initial.value[..Min(k, |initial.value|)]
    ensures initial.None? ==> |codebook| == k && FromRows(p.rows, codebook)
    ensures initial.None? && k == 1 ==> codebook == [p.rows[|p.rows| / 2]]
    ensures initial.None? && k > Max(1, maxPlusPlus) ==> Drawn(p.rows, codebook)
  {
    if initial.Some? {
      codebook := initial.value[..Min(k, |initial.value|)];
    } else if k == 1 {
      codebook := [p.rows[|p.rows| / 2]];
    } else {
      codebook := ParallelInit(p.rows, p.width, k, maxPlusPlus);
    }
  }

  // What stops one pass.
  ghost function PassError(p: Problem, held: nat, k: nat): Option<Error> {
    if held == 0 then Some(NoCentroids)
    else if p.width == 0 then Some(ZeroWidth)
    else if p.sample.Some? && |p.sample.value| != |p.rows| then Some(LengthMismatch)
    else if held < k then Some(CodebookTooSmall)
    else None
  }

  // One pass of the loop: assign, sum, move. A codebook of fewer than k rows
  // does not match the k counts.
  method Iterate(p: Problem, norms: Option<seq<real>>, codebook: array<Vec>, k: nat) returns (r: Result<seq<int>>)
    requires Rect(p.rows, p.width) && Rect(codebook[..], p.width) && |p.rows| > 0 && codebook.Length <= k
    requires norms.Some? ==> |norms.value| == |p.rows|
    modifies codebook
    ensures var e := PassError(p, codebook.Length, k); if e.Some? then r == Err(e.value) else r.Ok?
    ensures r.Ok? ==> AllNearest(p, old(codebook[..]), r.value) && codebook[..] == Moved(p, old(codebook[..]), r.value)
  {
    hide Moved, NormsTrue;
    var found := NumpyAssign(Search(p.rows, codebook[..], p.roots, norms), 65536, true, p.width);
    if found.Err? {
      return Err(found.error);
    }
    var sums := CentroidSums(p, found.value.indices, k);
    if sums.Err? {
      return Err(sums.error);
    }
    if codebook.Length < k {
      return Err(CodebookTooSmall);
    }
    MoveCentroids(p, found.value.indices, codebook, sums.value);
    r := Ok(found.value.indices);
  }

  // The loop: `run` is the course of the iterations, the codebook of each and
  // the assignment it was given.
  method RunPasses(p: Problem, norms: Option<seq<real>>, start: seq<Vec>, k: nat, passes: pos)
    returns (r: Result<seq<Vec>>, ghost run: seq<State>)
    requires Rect(p.rows, p.width) && Rect(start, p.width) && |p.rows| > 0 && |start| <= k
    requires norms.Some? ==> |norms.value| == |p.rows|
    ensures var e := PassError(p, |start|, k); if e.Some? then r == Err(e.value) else r.Ok?
    ensures r.Ok? ==> |r.value| == |start| && Rect(r.value, p.width)
    ensures r.Ok? ==> |run| == passes && Iterates(p, run) && run[0].codebook == start && Follows(p, run[passes - 1], r.value)
  {
    hide Moved, Nearest, Follows;
    run := [];
    var codebook := new Vec[|start|](j requires 0 <= j < |start| => start[j]);
    assert codebook[..] == start;
    for pass := 0 to passes
      invariant Rect(codebook[..], p.width) && |run| == pass && Iterates(p, run)
      invariant codebook.Length == |start| && (pass > 0 ==> PassError(p, |start|, k).None?)
      invariant pass > 0 ==> run[0].codebook == start && Follows(p, run[pass - 1], codebook[..])
      invariant pass == 0 ==> codebook[..] == start
    {
      ghost var was := codebook[..];
      var step := Iterate(p, norms, codebook, k);
      if step.Err? {
        return Err(step.error), run;
      }
      run := Extended(p, run, State(was, step.value));
      Advance(p, was, step.value, codebook[..]);
    }
    r := Ok(codebook[..]);
  }

  // Learns a codebook of min(size, n) centroids. `run` is the course of the
  // iterations: every state in it is a nearest assignment, every codebook the
  // means of the state before, and the last state is what is returned.
  method LearnCodebook(p: Problem, size: int, iterations: int, initial: Option<seq<Vec>>, maxPlusPlus: nat)
    returns (r: Result<Learned>, ghost run: seq<State>)
    requires Rect(p.rows, p.width)
    requires initial.Some? ==> Rect(initial.value, p.width)
    ensures var e := LearnError(p, size, iterations, initial); if e.Some? then r == Err(e.value) else r.Ok?
    ensures r.Ok? ==> |r.value.codebook| == Min(size, |p.rows|) && AllNearest(p, r.value.codebook, r.value.indices)
    ensures r.Ok? ==> Iterates(p, run) && RunRecentres(p, run)
    ensures r.Ok? ==> |run| == 1 + if iterations > 3 && 10 * Min(size, |p.rows|) > 9 * |p.rows| - 10 then 3 else iterations
    ensures r.Ok? ==> run[|run| - 1] == State(r.value.codebook, r.value.indices)
    ensures r.Ok? && initial.Some? ==> run[0].codebook == initial.value[..Min(size, |p.rows|)]
    ensures r.Ok? && initial.None? ==> FromRows(p.rows, run[0].codebook)
    ensures r.Ok? ==> IsMean(r.value.mse, SquaredError(p.rows, r.value.codebook, p.roots, r.value.indices), |p.rows|, p.width)
  {
    hide Moved, Nearest, Follows, SquaredError, IsMean, NormsTrue, RunRecentres, EffectiveIterations, FromRows, Drawn;
    run := [];
    if |p.rows| == 0 {
      return Err(EmptyRows), run;
    } else if size <= 0 {
      return Err(BadSize), run;
    } else if iterations <= 0 {
      return Err(BadIterations), run;
    }
    var k := Min(size, |p.rows|);
    PassesIff(|p.rows|, k, iterations);
    var passes := EffectiveIterations(|p.rows|, k, iterations);
    var start := InitialCodebook(p, k, initial, maxPlusPlus);
    var norms := if p.roots.None? then Some(RowNorms(p.rows)) else None;
    var moved;
    moved, run := RunPasses(p, norms, start, k, passes);
    if moved.Err? {
      return Err(moved.error), run;
    }
    var found := NumpyAssign(Search(p.rows, moved.value, p.roots, norms), 65536, true, p.width);
    assert found.Ok?;
    RowNormsTrue(Search(p.rows, moved.value, p.roots, norms));
    run := Extended(p, run, State(moved.value, found.value.indices));
    IteratesRecentres(p, run);
    r := Ok(Learned(moved.value, found.value.indices, found.value.mse));
  }

  // np.sum(rows * rows, axis=1)
  function RowNorms(rows: seq<Vec>): (r: seq<real>)
    ensures |r| == |rows| && forall i :: 0 <= i < |r| ==> r[i] == SquaredNorm(rows[i])
  {
    seq(|rows|, i requires 0 <= i < |rows| => SquaredNorm(rows[i]))
  }

  lemma RowNormsTrue(q: Search)
    requires q.norms == if q.roots.None? then Some(RowNorms(q.rows)) else None
    ensures NormsTrue(q)
  {
  }

  lemma Advance(p: Problem, was: seq<Vec>, indices: seq<int>, now: seq<Vec>)
    requires Rect(was, p.width) && now == Moved(p, was, indices)
    ensures Follows(p, State(was, indices), now) && Rect(now, p.width)
  {
    MovedRect(p, was, indices);
  }

  // A run extended by the state its last codebook moved to.
  ghost function Extended(p: Problem, run: seq<State>, s: State): (r: seq<State>)
    requires Iterates(p, run) && Settled(p, s)
    requires |run| > 0 ==> Follows(p, run[|run| - 1], s.codebook)
    ensures r == run + [s] && Iterates(p, r)
  {
    var r := run + [s];
    assert Iterates(p, r) by {
      forall t | 0 < t < |r|
        ensures Step(p, r, t)
      {
        assert t < |run| ==> Step(p, run, t);
      }
    }
    r
  }

  // What learning is for: the returned codebook and assignment cost no more
  // than the initial codebook under any assignment at all, and no pass of the
  // run raises the objective.
  lemma LearningImproves(p: Problem, run: seq<State>, indices: seq<int>, t: nat)
    requires Rect(p.rows, p.width) && NonNegativeSamples(p)
    requires |run| > 0 && Iterates(p, run) && Assigned(p, |run[0].codebook|, indices) && t < |run|
    ensures Cost(p, run[|run| - 1]) <= Cost(p, run[t]) <= Objective(p, run[0].codebook, indices)
  {
    hide Objective;
    RunDescends(p, run, t, |run| - 1);
    RunDescends(p, run, 0, t);
    assert Settled(p, run[0]);
    ReassignLowers(p, run[0].codebook, indices, run[0].indices);
  }
}
