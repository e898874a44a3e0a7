// The torch k-means backend (orka/codebook/_kmeans_torch.py): assignment with a
// chunked path for giant matrices, deterministic centroid sums, and the Lloyd
// loop with its early stop.

module KMeansTorch {
  import opened Basics
  import opened Sums
  import opened Sorting
  import opened Distances
  import opened Lloyd
  import opened AssignKernel
  import opened SegmentSum
  import KMeans

  // Limits read from the environment and the configuration.
  datatype Config = Config(triton: bool, fusedSums: bool, largeRows: nat, chunkBytes: nat, maxPlusPlus: nat)

  const CHUNK_ROWS: nat := 65536
  const GIANT_WIDTH_REF: nat := 8

  function IsGiant(cfg: Config, rows: nat, width: nat): bool {
    rows * width > cfg.largeRows * GIANT_WIDTH_REF
  }

  function WeighAll(rows: seq<Vec>, roots: Roots): (r: seq<Vec>)
    ensures |r| == |rows| && forall i :: 0 <= i < |r| ==> r[i] == Weigh(rows[i], roots)
  {
    seq(|rows|, i requires 0 <= i < |rows| => Weigh(rows[i], roots))
  }

  // Plain nearest among scaled vectors is weighted nearest.
  lemma NearestOfWeighed(v: Vec, codebook: seq<Vec>, roots: Roots, j: int)
    requires Rect(codebook, |v|) && Nearest(Weigh(v, roots), WeighAll(codebook, roots), None, j)
    ensures Nearest(v, codebook, roots, j)
  {
    forall i | 0 <= i < |codebook|
      ensures WeightedDist(Weigh(v, roots), Weigh(codebook[i], roots), None) == WeightedDist(v, codebook[i], roots)
    {
      WeighedDistance(v, codebook[i], roots);
      PlainIsUnweighted(Weigh(v, roots), Weigh(codebook[i], roots));
    }
  }

  lemma PlainIsUnweighted(v: Vec, c: Vec)
    ensures WeightedDist(v, c, None) == Dist(v, c)
  {
    SumCong(WeightedGap(v, c, None), GapTerm(v, c), |v|);
  }

  // ---------------------------------------------------------------- _torch_assign

  // ((row - centroid) ** 2).sum() of one row, on the scaled vectors.
  function PickedGap(rows: seq<Vec>, codebook: seq<Vec>, roots: Roots, indices: seq<int>, i: int): real {
    Dist(Weigh(RowAt(rows, i), roots), Weigh(RowAt(codebook, IntAt(indices, i)), roots))
  }

  function PickedGaps(rows: seq<Vec>, codebook: seq<Vec>, roots: Roots, indices: seq<int>): int -> real {
    (i: int) => PickedGap(rows, codebook, roots, indices, i)
  }

  lemma GapsAreError(rows: seq<Vec>, codebook: seq<Vec>, roots: Roots, indices: seq<int>, width: nat)
    requires Rect(rows, width) && Rect(codebook, width) && |indices| == |rows|
    requires forall i :: 0 <= i < |indices| ==> 0 <= indices[i] < |codebook|
    ensures Sum(PickedGaps(rows, codebook, roots, indices), |rows|) == KMeans.SquaredError(rows, codebook, roots, indices)
  {
    var f, g := PickedGaps(rows, codebook, roots, indices), KMeans.ErrorTerm(rows, codebook, roots, indices);
    forall i {:trigger f(i)} | 0 <= i < |rows|
      ensures f(i) == g(i)
    {
      WeighedDistance(rows[i], codebook[indices[i]], roots);
    }
    SumCong(f, g, |rows|);
  }

  // The nearest centroids of a slice of rows.
  method AssignRows(rows: seq<Vec>, codebook: seq<Vec>, roots: Roots, cfg: Config, width: nat) returns (out: seq<int>)
    requires Rect(rows, width) && Rect(codebook, width) && |codebook| > 0
    ensures |out| == |rows| && forall i :: 0 <= i < |out| ==> Nearest(rows[i], codebook, roots, out[i])
  {
    hide Nearest;
    out := Assign(WeighAll(rows, roots), WeighAll(codebook, roots), width, cfg.triton);
    forall i | 0 <= i < |out|
      ensures Nearest(rows[i], codebook, roots, out[i])
    {
      NearestOfWeighed(rows[i], codebook, roots, out[i]);
    }
  }

  // The giant path: a slice of rows at a time.
  method AssignGiant(rows: seq<Vec>, codebook: seq<Vec>, roots: Roots, cfg: Config, width: nat) returns (out: seq<int>)
    requires Rect(rows, width) && Rect(codebook, width) && |codebook| > 0
    ensures |out| == |rows| && forall i :: 0 <= i < |out| ==> Nearest(rows[i], codebook, roots, out[i])
  {
    hide Nearest;
    var perChunk := RowsPerChunk(cfg, width);
    out := [];
    while |out| < |rows|
      invariant |out| <= |rows|
      invariant forall i :: 0 <= i < |out| ==> Nearest(rows[i], codebook, roots, out[i])
      decreases |rows| - |out|
    {
      var part := AssignSlice(rows, |out|, Min(|out| + perChunk, |rows|), codebook, roots, cfg, width);
      out := out + part;
    }
  }

  // Rows by byte budget, never fewer than the fixed row count.
  function RowsPerChunk(cfg: Config, width: nat): (r: pos)
    ensures r >= CHUNK_ROWS
  {
    Max(CHUNK_ROWS, FloorDiv(cfg.chunkBytes, if width > 0 then 4 * width else 1))
  }

  function FloorDiv(a: nat, b: pos): nat {
    a / b
  }

  method AssignSlice(rows: seq<Vec>, start: nat, stop: nat, codebook: seq<Vec>, roots: Roots, cfg: Config, width: nat) returns (part: seq<int>)
    requires Rect(rows, width) && Rect(codebook, width) && |codebook| > 0 && start <= stop <= |rows|
    ensures |part| == stop - start
    ensures forall i :: start <= i < stop ==> Nearest(rows[i], codebook, roots, part[i - start])
  {
    hide Nearest;
    part := AssignRows(rows[start..stop], codebook, roots, cfg, width);
    forall i | start <= i < stop
      ensures Nearest(rows[i], codebook, roots, part[i - start])
    {
      assert rows[start..stop][i - start] == rows[i];
    }
  }

  // Indices and mean squared error; the two paths give the same answer. The
  // mean over an empty matrix is 0 / 0, here None.
  method TorchAssign(rows: seq<Vec>, codebook: seq<Vec>, roots: Roots, cfg: Config, computeMse: bool, width: nat)
    returns (indices: seq<int>, mse: Option<real>)
    requires Rect(rows, width) && Rect(codebook, width) && |codebook| > 0
    ensures |indices| == |rows| && forall i :: 0 <= i < |rows| ==> Nearest(rows[i], codebook, roots, indices[i])
    ensures mse.None? <==> computeMse && (|rows| == 0 || width == 0)
    ensures computeMse && mse.Some? ==> KMeans.IsMean(mse.value, KMeans.SquaredError(rows, codebook, roots, indices), |rows|, width)
    ensures !computeMse ==> mse == Some(0.0)
  {
    hide KMeans.IsMean, KMeans.SquaredError, PickedGaps, WeightedDist;
    if IsGiant(cfg, |rows|, width) {
      indices := AssignGiant(rows, codebook, roots, cfg, width);
    } else {
      indices := AssignRows(rows, codebook, roots, cfg, width);
    }
    assert forall i :: 0 <= i < |indices| ==> 0 <= indices[i] < |codebook|;
    if !computeMse {
      return indices, Some(0.0);
    }
    if |rows| == 0 || width == 0 {
      return indices, None;
    }
    GapsAreError(rows, codebook, roots, indices, width);
    var sse := Sum(PickedGaps(rows, codebook, roots, indices), |rows|);
    var mean := KMeans.Mean(sse, |rows|, width);
    mse := Some(mean);
  }

  // ------------------------------------------------------------- one Lloyd pass

  // rows, or rows * sample weight.
  function SampleRows(p: Problem): (r: seq<Vec>)
    ensures |r| == |p.rows|
  {
    if p.sample.None? then p.rows
    else seq(|p.rows|, i requires 0 <= i < |p.rows| => Scaled(SampleWeight(p, i), p.rows[i]))
  }

  function Scaled(w: real, v: Vec): (r: Vec)
    ensures |r| == |v|
  {
    seq(|v|, d requires 0 <= d < |v| => Times(w, v[d]))
  }

  lemma SampleRowsPull(p: Problem, indices: seq<int>, j: nat, d: nat)
    requires Rect(p.rows, p.width) && d < p.width && |indices| == |p.rows|
    ensures Grouped(indices, SampleRows(p), j, d) == Pull(p, indices, j, d)
  {
    var f, g := Column(SampleRows(p), d), PullTerm(p, d);
    forall i {:trigger f(i)} | 0 <= i < |p.rows|
      ensures f(i) == g(i)
    {
      TimesZero(At(p.rows[i], d));
    }
    GroupCong(Key(indices), f, g, j, |p.rows|);
  }

  // The sample weights as one column of values.
  function SampleColumn(p: Problem): (r: seq<Vec>)
    ensures |r| == |p.rows| && Rect(r, 1)
  {
    seq(|p.rows|, i requires 0 <= i < |p.rows| => [SampleWeight(p, i)])
  }

  method ClusterCounts(p: Problem, indices: seq<int>, k: nat, lengths: seq<nat>, fused: bool) returns (counts: seq<real>)
    requires KeysOk(indices, k) && |indices| == |p.rows| && |lengths| == k
    requires forall j :: 0 <= j < k ==> lengths[j] == Count(indices, |indices|, j)
    ensures |counts| == k && forall j :: 0 <= j < k ==> counts[j] == Mass(p, indices, j)
  {
    hide Count;
    if p.sample.None? {
      counts := seq(k, j requires 0 <= j < k => lengths[j] as real);
      forall j | 0 <= j < k
        ensures counts[j] == Mass(p, indices, j)
      {
        CountIsMass(indices, MassTerm(p), j, |indices|);
      }
    } else {
      var sums, sizes := DetSegmentSum(indices, SampleColumn(p), k, 1, fused, 512);
      counts := seq(k, j requires 0 <= j < k => sums[j][0]);
      forall j | 0 <= j < k
        ensures counts[j] == Mass(p, indices, j)
      {
        assert sums[j][0] == Grouped(indices, SampleColumn(p), j, 0);
        GroupCong(Key(indices), Column(SampleColumn(p), 0), MassTerm(p), j, |indices|);
      }
    }
  }

  // codebook[nonzero] = sums[nonzero] / counts[nonzero]
  method MoveCentroids(p: Problem, indices: seq<int>, codebook: array<Vec>, fused: bool)
    requires Rect(p.rows, p.width) && |indices| == |p.rows| && KeysOk(indices, codebook.Length)
    modifies codebook
    ensures codebook[..] == Moved(p, old(codebook[..]), indices)
  {
    var k := codebook.Length;
    var sums, lengths := DetSegmentSum(indices, SampleRows(p), k, p.width, fused, 512);
    var counts := ClusterCounts(p, indices, k, lengths, fused);
    forall j, d | 0 <= j < k && 0 <= d < p.width
      ensures sums[j][d] == Pull(p, indices, j, d)
    {
      SampleRowsPull(p, indices, j, d);
    }
    KMeans.WriteMeans(p, indices, codebook, sums, counts);
  }

  // ------------------------------------------------------- _learn_codebook_torch

  const TOLERANCE: real := 0.00001

  // Whether every entry moved by less than the tolerance.
  predicate Still(before: seq<Vec>, after: seq<Vec>) {
    forall j, d {:trigger At(after[j], d)} :: 0 <= j < |after| && j < |before| && 0 <= d < |after[j]| ==>
      -TOLERANCE < At(after[j], d) - At(before[j], d) < TOLERANCE
  }

  // The first failure of a call: an empty codebook at the first assignment, a
  // zero width where the second pass takes the largest of no differences.
  ghost function LearnError(p: Problem, size: int, iterations: int, initial: Option<seq<Vec>>): Option<KMeans.Error> {
    if |p.rows| == 0 then Some(KMeans.EmptyRows)
    else if size <= 0 then Some(KMeans.BadSize)
    else if iterations <= 0 then Some(KMeans.BadIterations)
    else if p.sample.Some? && |p.sample.value| != |p.rows| then Some(KMeans.LengthMismatch)
    else if initial.Some? && |initial.value| == 0 then Some(KMeans.NoCentroids)
    else if p.width == 0 && KMeans.EffectiveIterations(|p.rows|, Min(size, |p.rows|), iterations) > 1 then Some(KMeans.ZeroWidth)
    else None
  }

  // Here a short initial codebook will do, and so will rows of no width for a
  // single pass.
  lemma LearnErrorIff(p: Problem, size: int, iterations: int, initial: Option<seq<Vec>>)
    ensures LearnError(p, size, iterations, initial).None? <==>
      && |p.rows| > 0 && size > 0 && iterations > 0
      && (p.sample.Some? ==> |p.sample.value| == |p.rows|)
      && (initial.Some? ==> |initial.value| > 0) && (p.width > 0 || iterations == 1)
  {
    if |p.rows| > 0 && size > 0 && iterations > 0 {
      KMeans.PassesIff(|p.rows|, Min(size, |p.rows|), iterations);
    }
  }

  // The loop stops early after the first pass but the very first that moved
  // nothing, and only then.
  ghost predicate StoppedWell(run: seq<State>, passes: nat) {
    && 2 <= |run| <= passes + 1
    && (|run| < passes + 1 ==> |run| > 2 && StillAt(run, |run| - 1))
    && NeverStill(run, |run| - 1)
  }

  ghost predicate StillAt(run: seq<State>, t: nat)
    requires 0 < t < |run|
  {
    Still(run[t - 1].codebook, run[t].codebook)
  }

  // Of the first n states, none but the second stood still.
  ghost predicate NeverStill(run: seq<State>, n: nat)
    requires n <= |run|
  {
    forall t :: 1 < t < n ==> !StillAt(run, t)
  }

  // One pass: the assignment it made.
  method Iterate(p: Problem, cfg: Config, codebook: array<Vec>) returns (indices: seq<int>)
    requires Rect(p.rows, p.width) && Rect(codebook[..], p.width) && codebook.Length > 0
    modifies codebook
    ensures AllNearest(p, old(codebook[..]), indices) && codebook[..] == Moved(p, old(codebook[..]), indices)
  {
    hide Moved, Rect, WeightedDist;
    ghost var was := codebook[..];
    var mse;
    indices, mse := TorchAssign(p.rows, codebook[..], p.roots, cfg, false, p.width);
    assert AllNearest(p, was, indices);
    MoveCentroids(p, indices, codebook, cfg.fusedSums);
  }

  datatype Learned = Learned(codebook: seq<Vec>, indices: seq<int>, mse: Option<real>)

  // Where the loop starts: the rows given, or k rows of the data.
  ghost predicate StartsWell(p: Problem, k: nat, initial: Option<seq<Vec>>, start: seq<Vec>) {
    && (initial.Some? ==> start == initial.value[..Min(k, |initial.value|)])
    && (initial.None? ==> |start| == k && KMeans.FromRows(p.rows, start))
  }

  // The loop; None where the second pass has no differences to compare.
  method RunPasses(p: Problem, cfg: Config, start: seq<Vec>, passes: pos) returns (r: Option<seq<Vec>>, ghost run: seq<State>)
    requires Rect(p.rows, p.width) && Rect(start, p.width) && |start| > 0
    ensures r.None? <==> p.width == 0 && passes > 1
    ensures r.Some? ==> |r.value| == |start| && Rect(r.value, p.width)
    ensures r.Some? ==> 0 < |run| <= passes && Iterates(p, run) && run[0].codebook == start
    ensures r.Some? ==> Follows(p, run[|run| - 1], r.value) && NeverStill(run, |run|)
    ensures r.Some? && |run| < passes ==> |run| > 1
    ensures r.Some? && |run| > 1 ==> (Still(run[|run| - 1].codebook, r.value) || |run| == passes)
  {
    hide Moved, Nearest, Follows, Still, Recentred;
    run := [];
    var codebook := new Vec[|start|](j requires 0 <= j < |start| => start[j]);
    assert codebook[..] == start;
    var pass, stopped := 0, false;
    while pass < passes && !stopped
      invariant pass <= passes && (pass <= 1 ==> !stopped) && codebook.Length == |start|
      invariant Rect(codebook[..], p.width) && |run| == pass && Iterates(p, run) && NeverStill(run, pass)
      invariant pass > 0 ==> run[0].codebook == start && Follows(p, run[pass - 1], codebook[..])
      invariant pass == 0 ==> codebook[..] == start
      invariant pass > 1 ==> (stopped <==> Still(run[pass - 1].codebook, codebook[..]))
      invariant pass > 1 ==> p.width > 0
      decreases passes - pass, !stopped
    {
      var was := codebook[..];
      var indices := Iterate(p, cfg, codebook);
      ghost var before := run;
      run := KMeans.Extended(p, run, State(was, indices));
      StaysUnstill(before, run, pass);
      KMeans.Advance(p, was, indices, codebook[..]);
      if pass > 0 && p.width == 0 {
        return None, run;
      }
      stopped := pass > 0 && Still(was, codebook[..]);
      pass := pass + 1;
    }
    r := Some(codebook[..]);
  }

  lemma StaysUnstill(before: seq<State>, run: seq<State>, n: nat)
    requires |before| == n && |run| == n + 1 && run[..n] == before && NeverStill(before, n)
    requires n > 1 ==> !Still(before[n - 1].codebook, run[n].codebook)
    ensures NeverStill(run, n + 1)
  {
    hide Still;
    forall t | 1 < t < n + 1
      ensures !StillAt(run, t)
    {
      assert run[t - 1] == before[t - 1];
      if t < n {
        assert run[t] == before[t];
        assert !StillAt(before, t);
      }
    }
  }

  // Like the numpy loop, with an early stop and without a demand that an
  // initial codebook fill all k rows.
  method LearnCodebook(p: Problem, size: int, iterations: int, initial: Option<seq<Vec>>, cfg: Config)
    returns (r: KMeans.Result<Learned>, ghost run: seq<State>)
    requires Rect(p.rows, p.width)
    requires initial.Some? ==> Rect(initial.value, p.width)
    ensures var e := LearnError(p, size, iterations, initial); if e.Some? then r == KMeans.Err(e.value) else r.Ok?
    ensures r.Ok? ==> Iterates(p, run) && RunRecentres(p, run) && AllNearest(p, r.value.codebook, r.value.indices)
    ensures r.Ok? ==> StoppedWell(run, if iterations > 3 && 10 * Min(size, |p.rows|) > 9 * |p.rows| - 10 then 3 else iterations)
    ensures r.Ok? ==> run[|run| - 1] == State(r.value.codebook, r.value.indices)
    ensures r.Ok? ==> StartsWell(p, Min(size, |p.rows|), initial, run[0].codebook)
    ensures r.Ok? ==> (r.value.mse.None? <==> p.width == 0)
    ensures r.Ok? && p.width > 0 ==>
      KMeans.IsMean(r.value.mse.value, KMeans.SquaredError(p.rows, r.value.codebook, p.roots, r.value.indices), |p.rows|, p.width)
  {
    hide Moved, Nearest, Follows, KMeans.SquaredError, KMeans.IsMean, Still, KMeans.FromRows, KMeans.Drawn, RunRecentres, KMeans.EffectiveIterations;
    run := [];
    if |p.rows| == 0 {
      return KMeans.Err(KMeans.EmptyRows), run;
    } else if size <= 0 {
      return KMeans.Err(KMeans.BadSize), run;
    } else if iterations <= 0 {
      return KMeans.Err(KMeans.BadIterations), run;
    } else if p.sample.Some? && |p.sample.value| != |p.rows| {
      return KMeans.Err(KMeans.LengthMismatch), run;
    }
    var k := Min(size, |p.rows|);
    KMeans.PassesIff(|p.rows|, k, iterations);
    var passes := KMeans.EffectiveIterations(|p.rows|, k, iterations);
    var start := KMeans.InitialCodebook(p, k, initial, cfg.maxPlusPlus);
    if |start| == 0 {
      return KMeans.Err(KMeans.NoCentroids), run;
    }
    var moved;
    moved, run := RunPasses(p, cfg, start, passes);
    if moved.None? {
      return KMeans.Err(KMeans.ZeroWidth), run;
    }
    var found, mse := TorchAssign(p.rows, moved.value, p.roots, cfg, true, p.width);
    ghost var before := run;
    run := KMeans.Extended(p, run, State(moved.value, found));
    StillToTheEnd(before, run, passes);
    IteratesRecentres(p, run);
    r := KMeans.Ok(Learned(moved.value, found, mse));
  }

  lemma StillToTheEnd(before: seq<State>, run: seq<State>, passes: nat)
    requires 0 < |before| <= passes && |run| == |before| + 1 && run[..|before|] == before
    requires NeverStill(before, |before|) && (|before| < passes ==> |before| > 1)
    requires |before| > 1 ==> (Still(before[|before| - 1].codebook, run[|before|].codebook) || |before| == passes)
    ensures StoppedWell(run, passes)
  {
    hide Still;
    forall t | 1 < t < |before|
      ensures !StillAt(run, t)
    {
      assert run[t] == before[t] && run[t - 1] == before[t - 1];
      assert !StillAt(before, t);
    }
    assert run[|before| - 1] == before[|before| - 1];
  }
}
