// The kernels that walk tiles (orka/inference/triton_kernels.py, ddense of
// cuda_decode.py): decode, GEMM with a masked K tail, and the dense expansion.

module Tiles {
  import opened Basics
  import opened Layout
  import opened Sums
  import opened VqLayer
  import opened KernelLayout

  // codeword . x_g one element at a time, as the Triton kernels take it.
  method WordDot(l: Layer, x: seq<real>, m: nat, g: nat) returns (dot: real)
    requires |l.stores| == |l.codebooks|
    ensures dot == Sum(WordTerm(l, x, m, g), l.group)
  {
    dot := 0.0;
    for j := 0 to l.group
      invariant dot == Sum(WordTerm(l, x, m, g), j)
    {
      dot := dot + Times(WordSum(l, |l.stores|, m, g, j), At(x, Flat(g, l.group, j)));
    }
  }

  method TritonRow(l: Layer, x: seq<real>, m: nat) returns (acc: real)
    requires |l.stores| == |l.codebooks| && Gpb(l) > 0
    ensures acc == DecodeDot(l, x, m)
  {
    acc := 0.0;
    for g := 0 to Gpr(l)
      invariant acc == Sum(GroupPart(l, x, m), g)
    {
      var dot := WordDot(l, x, m, g);
      acc := acc + Times(KScale(l, m, g), dot);
    }
  }

  // _vq_decode_kernel / _vq_decode_planes_kernel: rows in lockstep over groups,
  // in whichever layout the layer is in. A block smaller than a group leaves the
  // kernel a division by zero.
  method TritonDecode(l: Layer, x: seq<real>) returns (y: seq<real>)
    requires |l.stores| == |l.codebooks| && Gpb(l) > 0
    ensures |y| == l.rows
    ensures forall m :: 0 <= m < l.rows ==> y[m] == DecodeDot(KernelArgs(l), x, m)
  {
    var k := KernelArgs(l);
    hide DecodeDot, KernelArgs;
    y := [];
    for m := 0 to l.rows
      invariant |y| == m
      invariant forall m' :: 0 <= m' < m ==> y[m'] == DecodeDot(k, x, m')
    {
      var acc := TritonRow(k, x, m);
      y := y + [acc];
    }
  }

  // ------------------------------------------------------- how many stages count

  // The kernels serve every element of every layer of n stages.
  ghost predicate EveryStageServed(n: nat) {
    forall l: Layer :: Tiled(l) && |l.stores| == n ==> forall i: nat :: i < Total(l) ==> VqAt(KernelArgs(l), i) == VqAt(l, i)
  }

  // One element, n stages, every codeword 1.
  function Ones(n: nat): (l: Layer)
    ensures Tiled(l) && |l.stores| == n
  {
    CeilDivExact(1, 1);
    Layer(1, 1, 1, 1, seq(n, s => Narrow([0])), seq(n, s => [1.0]), [1.0], false)
  }

  lemma {:induction false} OnesSum(l: Layer, n: nat)
    requires n <= |l.stores| == |l.codebooks| && l.group == 1 && !l.groupMajor
    requires forall s :: 0 <= s < |l.stores| ==> l.stores[s] == Narrow([0]) && l.codebooks[s] == [1.0]
    ensures VqSum(l, n, 0) == n as real
  {
    if n > 0 {
      OnesSum(l, n - 1);
    }
  }

  // Exactly up to three stages: with more, an element of ones reads as 3.
  lemma EveryStageServedIff(n: nat)
    ensures EveryStageServed(n) <==> n <= 3
  {
    if n > 3 {
      var l := Ones(n);
      OnesSum(l, n);
      OnesSum(KernelArgs(l), 3);
      assert 0 < Total(l);
      assert VqAt(l, 0) == n as real && VqAt(KernelArgs(l), 0) == 3.0;
    }
  }

  // --------------------------------------------------------------- dense tiles

  // One tile of the GEMM on one output: columns k to stop.
  method GemmTile(l: Layer, x: seq<real>, m: nat, k: nat, stop: nat) returns (acc: real)
    requires |l.stores| == |l.codebooks| && k <= stop
    ensures acc == Sum(TileTerm(l, x, m), stop) - Sum(TileTerm(l, x, m), k)
  {
    hide TileWeight;
    acc := 0.0;
    for c := k to stop
      invariant acc == Sum(TileTerm(l, x, m), c) - Sum(TileTerm(l, x, m), k)
    {
      acc := acc + Times(TileWeight(l, m, c), At(x, c));
    }
  }

  // One output of the tiled GEMM: K in steps of blockK, columns past K masked.
  method GemmCell(l: Layer, x: seq<real>, m: nat, blockK: pos) returns (acc: real)
    requires |l.stores| == |l.codebooks|
    ensures acc == GemmDot(l, x, m)
  {
    hide TileTerm;
    acc := 0.0;
    var k := 0;
    while k < l.cols
      invariant acc == Sum(TileTerm(l, x, m), Min(k, l.cols))
      decreases l.cols as int - k
    {
      var part := GemmTile(l, x, m, k, Min(k + blockK, l.cols));
      acc := acc + part;
      k := k + blockK;
    }
  }

  // _vq_gemm_kernel on one token.
  method GemmToken(l: Layer, x: seq<real>, blockK: pos) returns (y: seq<real>)
    requires |l.stores| == |l.codebooks|
    ensures |y| == l.rows
    ensures forall m :: 0 <= m < l.rows ==> y[m] == GemmDot(KernelArgs(l), x, m)
  {
    var k := KernelArgs(l);
    hide GemmDot, KernelArgs;
    y := [];
    for m := 0 to l.rows
      invariant |y| == m
      invariant forall m' :: 0 <= m' < m ==> y[m'] == GemmDot(k, x, m')
    {
      var acc := GemmCell(k, x, m, blockK);
      y := y + [acc];
    }
  }

  // The thread that writes dense element i: group-major over (g, m).
  function Owner(l: Layer, i: nat): nat
    requires l.cols > 0 && l.rows > 0
  {
    Flat(i % l.cols / l.group, l.rows, i / l.cols)
  }

  lemma OwnerOf(l: Layer, i: nat)
    requires Tiled(l) && i < Total(l)
    ensures l.cols > 0 && l.rows > 0
    ensures Owner(l, i) < Flat(Gpr(l), l.rows, 0)
    ensures Owner(l, i) / l.rows == i % l.cols / l.group && Owner(l, i) % l.rows == i / l.cols
    ensures i == Flat(i / l.cols, l.cols, Flat(i % l.cols / l.group, l.group, i % l.cols % l.group))
  {
    DivBound(i, l.rows, l.cols);
    var m, c := i / l.cols, i % l.cols;
    ExactDiv(l.cols, l.group);
    DivBound(c, Gpr(l), l.group);
    DivModOf(c / l.group, l.rows, m);
    FlatBound(c / l.group, m, Gpr(l), l.rows);
  }

  // ddense: thread gm of the grid writes the codeword of group gm / M, row gm % M.
  method DDenseThread(l: Layer, w: array<real>, gm: nat)
    requires Tiled(l) && l.groupMajor && w.Length == Total(l) && gm < Flat(Gpr(l), l.rows, 0)
    modifies w
    ensures l.cols > 0 && l.rows > 0
    ensures forall i :: 0 <= i < w.Length && Owner(l, i) == gm ==> w[i] == VqAt(l, i)
    ensures forall i :: 0 <= i < w.Length && Owner(l, i) != gm ==> w[i] == old(w[i])
  {
    DivBound(gm, Gpr(l), l.rows);
    var g, m := gm / l.rows, gm % l.rows;
    ExactDiv(l.cols, l.group);
    MulMono(1, Gpr(l), l.group);
    ghost var was := w[..];
    for j := 0 to l.group
      invariant forall i :: 0 <= i < w.Length && Owner(l, i) != gm ==> w[i] == was[i]
      invariant forall i :: 0 <= i < w.Length && Owner(l, i) == gm && i % l.cols % l.group < j ==> w[i] == VqAt(l, i)
    {
      var c := Flat(g, l.group, j);
      DDenseElement(l, m, g, j);
      TileWeightIsWeight(l, m, c);
      w[Flat(m, l.cols, c)] := TileWeight(l, m, c);
      forall i | 0 <= i < w.Length && Owner(l, i) == gm && i % l.cols % l.group == j
        ensures i == Flat(m, l.cols, c)
      {
        OwnerOf(l, i);
      }
    }
    forall i | 0 <= i < w.Length
      ensures i % l.cols % l.group < l.group
    {
    }
  }

  lemma DDenseElement(l: Layer, m: nat, g: nat, j: nat)
    requires Tiled(l) && m < l.rows && g < Gpr(l) && j < l.group && l.cols > 0
    ensures 0 <= Flat(g, l.group, j) < l.cols
    ensures 0 <= Flat(m, l.cols, Flat(g, l.group, j)) < Total(l)
    ensures Owner(l, Flat(m, l.cols, Flat(g, l.group, j))) == Flat(g, l.rows, m)
    ensures Flat(m, l.cols, Flat(g, l.group, j)) % l.cols % l.group == j
  {
    var c := Flat(g, l.group, j);
    ExactDiv(l.cols, l.group);
    FlatBound(g, j, Gpr(l), l.group);
    FlatBound(m, c, l.rows, l.cols);
    DivModOf(m, l.cols, c);
    DivModOf(g, l.group, j);
  }

  method DDense(l: Layer) returns (w: seq<real>)
    requires Tiled(l) && l.groupMajor && |l.stores| == 2
    ensures |w| == Total(l)
    ensures forall i :: 0 <= i < |w| ==> w[i] == VqAt(l, i)
  {
    var dense := new real[Total(l)](i => 0.0);
    if Total(l) > 0 {
      OwnerOf(l, 0);
      for gm := 0 to Flat(Gpr(l), l.rows, 0)
        invariant forall i :: 0 <= i < dense.Length && Owner(l, i) < gm ==> dense[i] == VqAt(l, i)
      {
        DDenseThread(l, dense, gm);
      }
      forall i | 0 <= i < dense.Length
        ensures Owner(l, i) < Flat(Gpr(l), l.rows, 0)
      {
        OwnerOf(l, i);
      }
    }
    w := dense[..];
  }
}
