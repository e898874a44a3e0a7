// The fused nearest-centroid kernel (orka/inference/_assign_kernel.py): a
// running minimum over tiles of ||c||^2 - 2 v.c, on zero-padded vectors, for
// any tile sizes. Infinity is the score of a masked lane.

module AssignKernel {
  import opened Basics
  import opened Sums
  import opened Distances
  import Layout

  datatype Score = Finite(value: real) | Infinity

  predicate Below(a: Score, b: Score) {
    a.Finite? && (b.Infinity? || a.value < b.value)
  }

  // ------------------------------------------------------------------- padding

  // torch.nn.functional.pad(v, (0, D - d))
  function Pad(v: Vec, to: nat): (r: Vec)
    requires |v| <= to
    ensures |r| == to
  {
    v + Filled(to - |v|, 0.0)
  }

  // Padding both operands leaves every product and every norm alone.
  lemma PadKeepsDot(v: Vec, c: Vec, to: nat)
    requires |v| == |c| <= to
    ensures Dot(Pad(v, to), Pad(c, to)) == Dot(v, c)
  {
    var f, g := DotTerm(Pad(v, to), Pad(c, to)), DotTerm(v, c);
    var tail := (i: int) => f(|v| + i);
    forall i {:trigger tail(i)} | 0 <= i < to - |v|
      ensures tail(i) == 0.0
    {
      TimesZero(At(Pad(c, to), |v| + i));
    }
    SumSplit(f, |v|, to - |v|, tail);
    SumZero(tail, to - |v|);
    SumCong(f, g, |v|);
  }

  function PaddedWidth(d: nat): (r: nat)
    ensures d <= r && r % 16 == 0
  {
    (d + 15) / 16 * 16
  }

  // --------------------------------------------------------------- one program

  // ||c||^2 - 2 v.c; the missing ||v||^2 is the same for every centroid.
  function Reduced(v: Vec, codebook: seq<Vec>): (r: seq<real>)
    ensures |r| == |codebook|
  {
    seq(|codebook|, j requires 0 <= j < |codebook| => SquaredNorm(codebook[j]) - 2.0 * Dot(v, codebook[j]))
  }

  lemma ReducedIsNearest(v: Vec, codebook: seq<Vec>, j: nat)
    requires Rect(codebook, |v|) && FirstMin(Reduced(v, codebook), j)
    ensures Nearest(v, codebook, None, j)
  {
    var s := Reduced(v, codebook);
    forall i | 0 <= i < |codebook|
      ensures s[i] == WeightedDist(v, codebook[i], None) + -SquaredNorm(v)
    {
      ReducedScore(v, codebook[i], None, 0.0);
    }
    ShiftedScores(v, codebook, None, s, -SquaredNorm(v), j);
  }

  lemma NearestUnique(v: Vec, codebook: seq<Vec>, roots: Roots, i: int, j: int)
    requires Nearest(v, codebook, roots, i) && Nearest(v, codebook, roots, j)
    ensures i == j
  {
    hide WeightedDist;
    var a, b := WeightedDist(v, codebook[i], roots), WeightedDist(v, codebook[j], roots);
    assert a <= b && b <= a;
    assert i < j ==> b < a;
    assert j < i ==> a < b;
  }

  // Whichever kernel, tile size or chunk size produced them, two assignments
  // of the same rows are the same.
  lemma AssignmentsAgree(rows: seq<Vec>, codebook: seq<Vec>, roots: Roots, a: seq<int>, b: seq<int>)
    requires |a| == |b| == |rows|
    requires forall i :: 0 <= i < |rows| ==> Nearest(rows[i], codebook, roots, a[i]) && Nearest(rows[i], codebook, roots, b[i])
    ensures a == b
  {
    hide Nearest;
    forall i | 0 <= i < |rows|
      ensures a[i] == b[i]
    {
      NearestUnique(rows[i], codebook, roots, a[i], b[i]);
    }
  }

  // One tile of scores for one row: lanes past the last centroid are masked.
  function Tile(csq: seq<real>, products: seq<real>, k0: nat, width: pos): (r: seq<Score>)
    requires |products| == |csq|
    ensures |r| == width
  {
    seq(width, lane requires 0 <= lane < width =>
      if k0 + lane < |csq| then Finite(csq[k0 + lane] - 2.0 * products[k0 + lane]) else Infinity)
  }

  // The first of the least scores of a tile.
  ghost predicate TileLeast(tile: seq<Score>, j: nat) {
    && j < |tile|
    && (forall i :: 0 <= i < |tile| ==> !Below(tile[i], tile[j]))
    && (forall i :: 0 <= i < j ==> Below(tile[j], tile[i]))
  }

  lemma TileLeastOfMore(tile: seq<Score>, before: nat)
    requires |tile| > 1 && TileLeast(tile[..|tile| - 1], before)
    ensures TileLeast(tile, if Below(tile[|tile| - 1], tile[before]) then |tile| - 1 else before)
  {
    var front := tile[..|tile| - 1];
    forall i | 0 <= i < |front|
      ensures front[i] == tile[i] && !Below(tile[i], tile[before]) && (i < before ==> Below(tile[before], tile[i]))
    {
      assert !Below(front[i], front[before]);
    }
  }

  // tl.min and tl.argmin over a tile
  function TileArg(tile: seq<Score>): (j: nat)
    requires |tile| > 0
    ensures TileLeast(tile, j)
  {
    if |tile| == 1 then 0
    else
      var before := TileArg(tile[..|tile| - 1]);
      TileLeastOfMore(tile, before);
      if Below(tile[|tile| - 1], tile[before]) then |tile| - 1 else before
  }

  // Lane by lane, a tile is the scores from k0 on, then infinity.
  ghost predicate IsTile(scores: seq<real>, tile: seq<Score>, k0: nat) {
    && |tile| > 0 && k0 < |scores|
    && (forall lane {:trigger tile[lane]} :: 0 <= lane < |tile| && k0 + lane < |scores| ==> tile[lane] == Finite(scores[k0 + lane]))
    && (forall lane {:trigger tile[lane]} :: 0 <= lane < |tile| && k0 + lane >= |scores| ==> tile[lane] == Infinity)
  }

  // The first of the least of the scores from lo to hi.
  ghost predicate LeastIn(scores: seq<real>, lo: nat, hi: nat, at: nat) {
    && lo <= at < hi <= |scores|
    && (forall i :: lo <= i < hi ==> scores[at] <= scores[i])
    && (forall i :: lo <= i < at ==> scores[at] < scores[i])
  }

  // The running best over the first n scores.
  ghost predicate Best(scores: seq<real>, n: nat, best: Score, at: nat) {
    if n == 0 then best == Infinity && at == 0
    else LeastIn(scores, 0, n, at) && best == Finite(scores[at])
  }

  function TileEnd(k0: nat, width: nat, k: nat): nat {
    if k0 + width < k then k0 + width else k
  }

  lemma TileIsRange(scores: seq<real>, tile: seq<Score>, k0: nat, j: nat)
    requires IsTile(scores, tile, k0) && TileLeast(tile, j)
    ensures LeastIn(scores, k0, TileEnd(k0, |tile|, |scores|), k0 + j) && tile[j] == Finite(scores[k0 + j])
  {
    assert !Below(tile[0], tile[j]);
    assert k0 + j < |scores|;
    forall i | k0 <= i < TileEnd(k0, |tile|, |scores|)
      ensures scores[k0 + j] <= scores[i] && (i < k0 + j ==> scores[k0 + j] < scores[i])
    {
      assert !Below(tile[i - k0], tile[j]);
      assert i < k0 + j ==> Below(tile[j], tile[i - k0]);
    }
  }

  lemma BestOfTwo(scores: seq<real>, k0: nat, n: nat, best: Score, at: nat, at': nat)
    requires Best(scores, k0, best, at) && LeastIn(scores, k0, n, at')
    ensures var tileMin := Finite(scores[at']);
      if Below(tileMin, best) then Best(scores, n, tileMin, at') else Best(scores, n, best, at)
  {
  }

  function AllScores(csq: seq<real>, products: seq<real>): (r: seq<real>)
    requires |products| == |csq|
    ensures |r| == |csq| && forall j :: 0 <= j < |r| ==> r[j] == csq[j] - 2.0 * products[j]
  {
    seq(|csq|, j requires 0 <= j < |csq| => csq[j] - 2.0 * products[j])
  }

  // The K loop of the kernel on one row.
  method RowArgmin(csq: seq<real>, products: seq<real>, blockK: pos) returns (bestIndex: nat)
    requires |products| == |csq|
    ensures |csq| == 0 ==> bestIndex == 0
    ensures |csq| > 0 ==> FirstMin(AllScores(csq, products), bestIndex)
  {
    hide TileArg, LeastIn, TileLeast;
    ghost var scores := AllScores(csq, products);
    var best := Infinity;
    bestIndex := 0;
    var k0 := 0;
    while k0 < |csq|
      invariant Best(scores, if k0 < |csq| then k0 else |csq|, best, bestIndex)
      decreases |csq| as int - k0
    {
      var tile := Tile(csq, products, k0, blockK);
      var arg := TileArg(tile);
      TileIsRange(scores, tile, k0, arg);
      BestOfTwo(scores, k0, TileEnd(k0, blockK, |csq|), best, bestIndex, k0 + arg);
      if Below(tile[arg], best) {
        best, bestIndex := tile[arg], arg + k0;
      }
      k0 := k0 + blockK;
    }
    LeastOfAll(scores, best, bestIndex);
  }

  lemma LeastOfAll(scores: seq<real>, best: Score, at: nat)
    requires Best(scores, |scores|, best, at)
    ensures |scores| > 0 ==> FirstMin(scores, at)
    ensures |scores| == 0 ==> at == 0
  {
  }

  // ------------------------------------------------------------- triton_assign

  // One row of the grid, on padded data.
  method AssignRow(v: Vec, codebook: seq<Vec>, csq: seq<real>, to: nat, blockK: pos) returns (j: nat)
    requires Rect(codebook, |v|) && |v| <= to && |codebook| > 0
    requires csq == seq(|codebook|, c requires 0 <= c < |codebook| => SquaredNorm(codebook[c]))
    ensures Nearest(v, codebook, None, j)
  {
    hide Nearest;
    var padded := Pad(v, to);
    var products := seq(|codebook|, c requires 0 <= c < |codebook| => Dot(padded, Pad(codebook[c], to)));
    j := RowArgmin(csq, products, blockK);
    forall c | 0 <= c < |codebook|
      ensures csq[c] - 2.0 * products[c] == Reduced(v, codebook)[c]
    {
      PadKeepsDot(v, codebook[c], to);
    }
    assert AllScores(csq, products) == Reduced(v, codebook);
    ReducedIsNearest(v, codebook, j);
  }

  // The grid of row blocks, for any block sizes.
  method TritonAssign(vectors: seq<Vec>, codebook: seq<Vec>, width: nat, blockN: pos, blockK: pos) returns (out: seq<int>)
    requires Rect(vectors, width) && Rect(codebook, width) && |codebook| > 0
    ensures |out| == |vectors| && forall i :: 0 <= i < |out| ==> Nearest(vectors[i], codebook, None, out[i])
  {
    hide Nearest;
    var csq := seq(|codebook|, c requires 0 <= c < |codebook| => SquaredNorm(codebook[c]));
    var to := PaddedWidth(width);
    out := Filled(|vectors|, 0);
    for pid := 0 to CeilDiv(|vectors|, blockN)
      invariant |out| == |vectors|
      invariant forall i :: 0 <= i < |out| && i < pid * blockN ==> Nearest(vectors[i], codebook, None, out[i])
    {
      for lane := 0 to blockN
        invariant |out| == |vectors|
        invariant forall i :: 0 <= i < |out| && i < pid * blockN + lane ==> Nearest(vectors[i], codebook, None, out[i])
      {
        var row := pid * blockN + lane;
        if row < |vectors| {
          var j := AssignRow(vectors[row], codebook, csq, to, blockK);
          out := out[row := j];
        }
      }
      assert (pid + 1) * blockN == pid * blockN + blockN;
    }
    assert CeilDiv(|vectors|, blockN) * blockN >= |vectors| by { Layout.CeilDivCovers(|vectors|, blockN); }
  }

  // The torch fallback: the whole row of scores, then one argmin.
  method AddmmAssign(vectors: seq<Vec>, codebook: seq<Vec>, width: nat) returns (out: seq<int>)
    requires Rect(vectors, width) && Rect(codebook, width) && |codebook| > 0
    ensures |out| == |vectors| && forall i :: 0 <= i < |out| ==> Nearest(vectors[i], codebook, None, out[i])
  {
    hide Nearest;
    out := seq(|vectors|, i requires 0 <= i < |vectors| => ArgMin(Reduced(vectors[i], codebook)) as int);
    forall i | 0 <= i < |out|
      ensures Nearest(vectors[i], codebook, None, out[i])
    {
      ReducedIsNearest(vectors[i], codebook, out[i]);
    }
  }

  // Nearest centroids, fused on a GPU for narrow vectors.
  method Assign(vectors: seq<Vec>, codebook: seq<Vec>, width: nat, triton: bool) returns (out: seq<int>)
    requires Rect(vectors, width) && Rect(codebook, width) && |codebook| > 0
    ensures |out| == |vectors| && forall i :: 0 <= i < |out| ==> Nearest(vectors[i], codebook, None, out[i])
  {
    if triton && width <= 16 {
      out := TritonAssign(vectors, codebook, width, 128, 64);
    } else {
      out := AddmmAssign(vectors, codebook, width);
    }
  }
}
