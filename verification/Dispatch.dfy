// Forward dispatch over runs (orka/inference/dispatch.py and the planed path of
// _vq_core.py): which backend serves a call, what it does to the layer's caches,
// and what the caller gets back.

module Dispatch {
  import opened Basics
  import opened Layout
  import opened Sums
  import opened Reference
  import opened CsrMatrix
  import opened VqLayer
  import opened VqLinear
  import opened VqBuild
  import opened KernelLayout
  import opened SplitK
  import opened Tiles
  import opened Warp

  // Everything a call depends on that the layer does not decide: whether the
  // CUDA module imports and compiles, where it may fail, the tuned split, the
  // prefill threshold, and whether the custom kernels complete.
  datatype Env = Env(
    importOk: bool, moduleOk: bool, onCuda: bool, int16: bool,
    n1ReachesCache: bool, n1Completes: bool, prefillReachesCache: bool, prefillCompletes: bool,
    tritonPlanesComplete: bool,
    ksplit: pos, blockK: pos, minPrefill: nat)

  type Tokens = seq<seq<real>>

  // ------------------------------------------------------- what a call must give

  ghost function BiasAt(bias: Option<seq<real>>, m: nat): real {
    if bias.Some? then At(bias.value, m) else 0.0
  }

  ghost function Corrected(csr: Option<Csr>, rows: nat, cols: nat, x: seq<real>, m: nat): real
    requires csr.Some? ==> Shaped(csr.value, rows, cols)
  {
    if csr.Some? then CorrectionDot(csr.value, rows, cols, x, m) else 0.0
  }

  // x . (gathered row m) + x . (correction row m) + bias, the correction once.
  ghost function Output(l: Layer, csr: Option<Csr>, bias: Option<seq<real>>, x: seq<real>, m: nat): real
    requires |l.stores| == |l.codebooks| && (csr.Some? ==> Shaped(csr.value, l.rows, l.cols))
  {
    RowDot(l, x, m) + Corrected(csr, l.rows, l.cols, x, m) + BiasAt(bias, m)
  }

  ghost predicate IsOutput(l: Layer, csr: Option<Csr>, bias: Option<seq<real>>, x: seq<real>, y: seq<real>)
    requires |l.stores| == |l.codebooks| && (csr.Some? ==> Shaped(csr.value, l.rows, l.cols))
  {
    |y| == l.rows && forall m :: 0 <= m < l.rows ==> y[m] == Output(l, csr, bias, x, m)
  }

  ghost predicate AreOutputs(l: Layer, csr: Option<Csr>, bias: Option<seq<real>>, xs: Tokens, ys: Tokens)
    requires |l.stores| == |l.codebooks| && (csr.Some? ==> Shaped(csr.value, l.rows, l.cols))
  {
    |ys| == |xs| && forall n :: 0 <= n < |xs| ==> IsOutput(l, csr, bias, xs[n], ys[n])
  }

  // What the kernels give for one token, on any layer: the same sum with their
  // own row product.
  ghost predicate IsKernelOutput(l: Layer, csr: Option<Csr>, bias: Option<seq<real>>, x: seq<real>, single: bool, y: seq<real>)
    requires |l.stores| == |l.codebooks| && (csr.Some? ==> Shaped(csr.value, l.rows, l.cols))
    requires single ==> Gpb(l) > 0
  {
    && |y| == l.rows
    && forall m :: 0 <= m < l.rows ==>
         y[m] == KernelDot(l, x, m, single) + Corrected(csr, l.rows, l.cols, x, m) + BiasAt(bias, m)
  }

  // A block smaller than a group leaves the one-token kernels a zero divisor.
  predicate CanDecode(l: Layer, xs: Tokens) {
    |xs| == 1 ==> Gpb(l) > 0
  }

  ghost predicate KernelOutputs(l: Layer, csr: Option<Csr>, bias: Option<seq<real>>, xs: Tokens, ys: Tokens)
    requires |l.stores| == |l.codebooks| && (csr.Some? ==> Shaped(csr.value, l.rows, l.cols))
    requires CanDecode(l, xs)
  {
    |ys| == |xs| && forall n :: 0 <= n < |xs| ==> IsKernelOutput(l, csr, bias, xs[n], |xs| == 1, ys[n])
  }

  // The layers and calls on which the kernels' row product is the row product.
  predicate Exact(l: Layer, xs: Tokens) {
    Whole(l) && (|xs| == 1 ==> l.block % l.group == 0)
  }

  lemma KernelOutputIsOutput(l: Layer, csr: Option<Csr>, bias: Option<seq<real>>, x: seq<real>, single: bool, y: seq<real>)
    requires Whole(l) && (single ==> l.block % l.group == 0 && Gpb(l) > 0)
    requires csr.Some? ==> Shaped(csr.value, l.rows, l.cols)
    ensures IsKernelOutput(l, csr, bias, x, single, y) <==> IsOutput(l, csr, bias, x, y)
  {
    assert |l.stores| == |l.codebooks|;
    hide KernelDot, RowDot, Corrected, Shaped, BiasAt;
    forall m: nat | m < l.rows
      ensures KernelDot(l, x, m, single) == RowDot(l, x, m)
    {
      KernelMakesRow(l, x, m, single);
    }
  }

  lemma KernelOutputsAreOutputs(l: Layer, csr: Option<Csr>, bias: Option<seq<real>>, xs: Tokens, ys: Tokens)
    requires Exact(l, xs) && CanDecode(l, xs) && (csr.Some? ==> Shaped(csr.value, l.rows, l.cols))
    ensures KernelOutputs(l, csr, bias, xs, ys) <==> AreOutputs(l, csr, bias, xs, ys)
  {
    hide IsKernelOutput, IsOutput, Shaped;
    if |ys| == |xs| {
      forall n | 0 <= n < |xs|
        ensures IsKernelOutput(l, csr, bias, xs[n], |xs| == 1, ys[n]) <==> IsOutput(l, csr, bias, xs[n], ys[n])
      {
        KernelOutputIsOutput(l, csr, bias, xs[n], |xs| == 1, ys[n]);
      }
    }
  }

  // ------------------------------------------------------------ what a bias does

  ghost predicate ZeroToken(x: seq<real>) {
    forall c :: 0 <= c < |x| ==> x[c] == 0.0
  }

  // A zero token comes out as the bias itself, and as zeros without one.
  ghost predicate BiasAlone(bias: Option<seq<real>>, rows: nat, xs: Tokens, ys: Tokens) {
    && |ys| == |xs|
    && forall n :: 0 <= n < |xs| && ZeroToken(xs[n]) ==> IsBias(bias, rows, ys[n])
  }

  ghost predicate IsBias(bias: Option<seq<real>>, rows: nat, y: seq<real>) {
    && (bias.Some? ==> y == bias.value)
    && (bias.None? ==> |y| == rows && forall m :: 0 <= m < rows ==> y[m] == 0.0)
  }

  lemma ZeroRow(l: Layer, x: seq<real>, m: nat)
    requires |l.stores| == |l.codebooks| && ZeroToken(x)
    ensures RowDot(l, x, m) == 0.0 && GemmDot(l, x, m) == 0.0
  {
    var f, g := RowTerm(l, x, m), TileTerm(l, x, m);
    hide VqAt, TileWeight;
    forall c {:trigger f(c)} {:trigger g(c)} | 0 <= c < l.cols
      ensures f(c) == 0.0 && g(c) == 0.0
    {
      assert At(x, c) == 0.0;
      TimesZero(VqAt(l, Flat(m, l.cols, c)));
      TimesZero(TileWeight(l, m, c));
    }
    SumZero(f, l.cols);
    SumZero(g, l.cols);
  }

  lemma ZeroGroup(l: Layer, x: seq<real>, m: nat, g: nat)
    requires |l.stores| == |l.codebooks| && ZeroToken(x)
    ensures Sum(WordTerm(l, x, m, g), l.group) == 0.0
  {
    var f := WordTerm(l, x, m, g);
    hide WordSum;
    forall j {:trigger f(j)} | 0 <= j < l.group
      ensures f(j) == 0.0
    {
      assert At(x, Flat(g, l.group, j)) == 0.0;
      TimesZero(WordSum(l, |l.stores|, m, g, j));
    }
    SumZero(f, l.group);
  }

  lemma ZeroKernel(l: Layer, x: seq<real>, m: nat, single: bool)
    requires |l.stores| == |l.codebooks| && (single ==> Gpb(l) > 0) && ZeroToken(x)
    ensures KernelDot(l, x, m, single) == 0.0
  {
    ZeroRow(l, x, m);
    if single {
      var f := GroupPart(l, x, m);
      hide KScale, WordTerm;
      forall g {:trigger f(g)} | 0 <= g < Gpr(l)
        ensures f(g) == 0.0
      {
        ZeroGroup(l, x, m, g);
        TimesZero(KScale(l, m, g));
      }
      SumZero(f, Gpr(l));
    }
  }

  lemma ZeroCorrection(csr: Option<Csr>, rows: nat, cols: nat, x: seq<real>, m: nat)
    requires (csr.Some? ==> Shaped(csr.value, rows, cols)) && ZeroToken(x)
    ensures Corrected(csr, rows, cols, x, m) == 0.0
  {
    if csr.Some? {
      var f := MatrixTerm(csr.value, rows, cols, Input(x), m);
      hide CsrAt;
      forall c {:trigger f(c)} | 0 <= c < cols
        ensures f(c) == 0.0
      {
        assert At(x, c) == 0.0;
        TimesZero(CsrAt(csr.value, rows, cols, Flat(m, cols, c)));
      }
      SumZero(f, cols);
    }
  }

  lemma ZeroKernelOutput(l: Layer, csr: Option<Csr>, bias: Option<seq<real>>, x: seq<real>, single: bool, y: seq<real>)
    requires |l.stores| == |l.codebooks| && (csr.Some? ==> Shaped(csr.value, l.rows, l.cols)) && (single ==> Gpb(l) > 0)
    requires IsKernelOutput(l, csr, bias, x, single, y) && ZeroToken(x) && (bias.Some? ==> |bias.value| == l.rows)
    ensures IsBias(bias, l.rows, y)
  {
    hide KernelDot, Corrected, ZeroToken;
    forall m: nat | m < l.rows
      ensures y[m] == if bias.Some? then bias.value[m] else 0.0
    {
      ZeroKernel(l, x, m, single);
      ZeroCorrection(csr, l.rows, l.cols, x, m);
    }
  }

  lemma ZeroOutput(l: Layer, csr: Option<Csr>, bias: Option<seq<real>>, x: seq<real>, y: seq<real>)
    requires |l.stores| == |l.codebooks| && (csr.Some? ==> Shaped(csr.value, l.rows, l.cols))
    requires IsOutput(l, csr, bias, x, y) && ZeroToken(x) && (bias.Some? ==> |bias.value| == l.rows)
    ensures IsBias(bias, l.rows, y)
  {
    hide RowDot, Corrected, ZeroToken;
    forall m: nat | m < l.rows
      ensures y[m] == if bias.Some? then bias.value[m] else 0.0
    {
      ZeroRow(l, x, m);
      ZeroCorrection(csr, l.rows, l.cols, x, m);
    }
  }

  // Whatever path produced them, and whether or not it was exact.
  lemma OutputsShowBias(l: Layer, csr: Option<Csr>, bias: Option<seq<real>>, xs: Tokens, ys: Tokens)
    requires |l.stores| == |l.codebooks| && (csr.Some? ==> Shaped(csr.value, l.rows, l.cols)) && CanDecode(l, xs)
    requires KernelOutputs(l, csr, bias, xs, ys) || AreOutputs(l, csr, bias, xs, ys)
    requires bias.Some? ==> |bias.value| == l.rows
    ensures BiasAlone(bias, l.rows, xs, ys)
  {
    hide IsKernelOutput, IsOutput, IsBias, Shaped, ZeroToken;
    forall n | 0 <= n < |xs| && ZeroToken(xs[n])
      ensures IsBias(bias, l.rows, ys[n])
    {
      if KernelOutputs(l, csr, bias, xs, ys) {
        ZeroKernelOutput(l, csr, bias, xs[n], |xs| == 1, ys[n]);
      } else {
        ZeroOutput(l, csr, bias, xs[n], ys[n]);
      }
    }
  }

  // The outputs of two layers that differ in their bias alone differ by the
  // biases, on every token and every path.
  lemma BiasDifference(l: Layer, csr: Option<Csr>, a: seq<real>, b: seq<real>, xs: Tokens, ys: Tokens, zs: Tokens, n: nat, m: nat)
    requires |l.stores| == |l.codebooks| && (csr.Some? ==> Shaped(csr.value, l.rows, l.cols)) && CanDecode(l, xs)
    requires |a| == |b| == l.rows && n < |xs| && m < l.rows
    requires (KernelOutputs(l, csr, Some(a), xs, ys) && KernelOutputs(l, csr, Some(b), xs, zs))
          || (AreOutputs(l, csr, Some(a), xs, ys) && AreOutputs(l, csr, Some(b), xs, zs))
    ensures |ys| == |zs| == |xs| && |ys[n]| == |zs[n]| == l.rows
    ensures ys[n][m] - zs[n][m] == a[m] - b[m]
  {
    hide KernelDot, RowDot, Corrected, Shaped;
    if KernelOutputs(l, csr, Some(a), xs, ys) && KernelOutputs(l, csr, Some(b), xs, zs) {
      assert IsKernelOutput(l, csr, Some(a), xs[n], |xs| == 1, ys[n]) && IsKernelOutput(l, csr, Some(b), xs[n], |xs| == 1, zs[n]);
    } else {
      assert IsOutput(l, csr, Some(a), xs[n], ys[n]) && IsOutput(l, csr, Some(b), xs[n], zs[n]);
    }
  }

  // ----------------------------------------------------------------- the pieces

  method AddBias(y: seq<real>, bias: Option<seq<real>>) returns (r: seq<real>)
    ensures |r| == |y| && forall m :: 0 <= m < |y| ==> r[m] == y[m] + BiasAt(bias, m)
  {
    r := if bias.Some? then seq(|y|, m requires 0 <= m < |y| => y[m] + At(bias.value, m)) else y;
  }

  method SparseRow(c: Csr, x: seq<real>, s: nat, e: nat) returns (acc: real)
    requires s <= e
    ensures acc == Sum(SliceTerm(c, Input(x), s), e - s)
  {
    acc := 0.0;
    for j := s to e
      invariant acc == Sum(SliceTerm(c, Input(x), s), j - s)
    {
      acc := acc + Times(At(c.val, j), At(x, IntAt(c.col, j)));
    }
  }

  // torch.sparse.mm(sp, x.T).T added to y.
  method AddSparse(sp: Option<Csr>, rows: nat, cols: nat, x: seq<real>, y: seq<real>) returns (r: seq<real>)
    requires |y| == rows && (sp.Some? ==> Shaped(sp.value, rows, cols))
    ensures |r| == rows
    ensures forall m :: 0 <= m < rows ==> r[m] == y[m] + Corrected(sp, rows, cols, x, m)
  {
    if sp.None? {
      return y;
    }
    hide MatrixTerm, SliceTerm;
    var c := sp.value;
    r := [];
    for m := 0 to rows
      invariant |r| == m
      invariant forall m' :: 0 <= m' < m ==> r[m'] == y[m'] + Corrected(sp, rows, cols, x, m')
    {
      RowProduct(c, rows, cols, Input(x), m);
      var acc := SparseRow(c, x, c.rowptr[m], c.rowptr[m + 1]);
      r := r + [y[m] + acc];
    }
  }

  // -------------------------------------------------------------- CUDA backends

  function CudaShape(layer: VQLinear, env: Env): bool
    reads layer
  {
    && |layer.stores| == 2 && layer.group == 8 && layer.block == 32
    && layer.groupMajor && env.int16 && env.onCuda
    && (layer.corrCol != [] || layer.sparseCache.None?)
    && env.moduleOk
  }

  function Supported(layer: VQLinear, tokens: nat, env: Env): bool
    reads layer
  {
    tokens == 1 && layer.cols % 32 == 0 && CudaShape(layer, env)
  }

  function SupportedPrefill(layer: VQLinear, tokens: nat, env: Env): bool
    reads layer
  {
    tokens >= env.minPrefill && CudaShape(layer, env)
  }

  // The caches a call may fill; nothing else of the layer changes.
  twostate predicate SameServing(layer: VQLinear)
    reads layer
  {
    layer.Payload() == old(layer.Payload()) && layer.CorrectionCsr() == old(layer.CorrectionCsr())
  }

  // _build_buffers: references to the payload and to the correction, kept.
  method BuildBuffers(layer: VQLinear) returns (bufs: CudaBuffers)
    requires layer.Valid() && (layer.corrCol != [] || layer.sparseCache.None?)
    modifies layer`cudaCache
    ensures layer.Valid() && SameServing(layer)
    ensures bufs == CudaBuffers(layer.Payload(), layer.CorrectionCsr())
  {
    if layer.cudaCache.None? {
      var csr := if layer.corrCol != [] then Some(layer.RawCsr()) else None;
      layer.cudaCache := Some(CudaBuffers(layer.Payload(), csr));
    }
    bufs := layer.cudaCache.value;
  }

  // decode, correct and bias on the kept buffers.
  method RunN1(bufs: CudaBuffers, bias: Option<seq<real>>, x: seq<real>, ksplit: pos) returns (y: seq<real>)
    requires Tiled(bufs.payload) && bufs.payload.group % 2 == 0 && bufs.payload.groupMajor && |bufs.payload.stores| == 2
    requires bufs.csr.Some? ==> Shaped(bufs.csr.value, bufs.payload.rows, bufs.payload.cols)
    ensures IsOutput(bufs.payload, bufs.csr, bias, x, y)
  {
    y := GemvF4(bufs.payload, x, ksplit);
    if bufs.csr.Some? {
      y := SpmvWarp(bufs.csr.value, bufs.payload.rows, bufs.payload.cols, x, y);
    }
    y := AddBias(y, bias);
  }

  // forward_n1: None when the launch fails, before or after the buffers are
  // cached.
  method ForwardN1(layer: VQLinear, x: seq<real>, env: Env) returns (y: Option<seq<real>>)
    requires layer.Valid() && Tiled(layer.Payload()) && Supported(layer, 1, env)
    modifies layer`cudaCache
    ensures layer.Valid() && SameServing(layer)
    ensures y.Some? ==> IsOutput(layer.Payload(), layer.CorrectionCsr(), layer.bias, x, y.value)
  {
    if !env.n1ReachesCache {
      return None;
    }
    var bufs := BuildBuffers(layer);
    if !env.n1Completes {
      return None;
    }
    var out := RunN1(bufs, layer.bias, x, env.ksplit);
    y := Some(out);
  }

  ghost function DenseTerm(w: seq<real>, cols: nat, x: seq<real>, m: nat): int -> real {
    (c: int) => Times(At(w, Flat(m, cols, c)), At(x, c))
  }

  // F.linear on one token.
  method DenseRow(w: seq<real>, cols: nat, x: seq<real>, m: nat) returns (dot: real)
    ensures dot == Sum(DenseTerm(w, cols, x, m), cols)
  {
    dot := 0.0;
    for c := 0 to cols
      invariant dot == Sum(DenseTerm(w, cols, x, m), c)
    {
      dot := dot + Times(At(w, Flat(m, cols, c)), At(x, c));
    }
  }

  ghost predicate IsDense(w: seq<real>, l: Layer, csr: Option<Csr>)
    requires |l.stores| == |l.codebooks| && (csr.Some? ==> Shaped(csr.value, l.rows, l.cols))
  {
    && |w| == Total(l)
    && forall i :: 0 <= i < |w| ==> w[i] == VqAt(l, i) + (if csr.Some? then CsrAt(csr.value, l.rows, l.cols, i) else 0.0)
  }

  ghost function CorrectionTerm(csr: Option<Csr>, rows: nat, cols: nat, x: seq<real>, m: nat): int -> real
    requires csr.Some? ==> Shaped(csr.value, rows, cols)
  {
    if csr.Some? then MatrixTerm(csr.value, rows, cols, Input(x), m) else (c: int) => 0.0
  }

  lemma CorrectionTermSum(csr: Option<Csr>, rows: nat, cols: nat, x: seq<real>, m: nat)
    requires csr.Some? ==> Shaped(csr.value, rows, cols)
    ensures Sum(CorrectionTerm(csr, rows, cols, x, m), cols) == Corrected(csr, rows, cols, x, m)
  {
    if csr.None? {
      SumZero(CorrectionTerm(csr, rows, cols, x, m), cols);
    }
  }

  lemma DenseElementSplits(w: seq<real>, l: Layer, csr: Option<Csr>, x: seq<real>, m: nat, c: nat)
    requires |l.stores| == |l.codebooks| && (csr.Some? ==> Shaped(csr.value, l.rows, l.cols))
    requires IsDense(w, l, csr) && m < l.rows && c < l.cols
    ensures DenseTerm(w, l.cols, x, m)(c) == RowTerm(l, x, m)(c) + CorrectionTerm(csr, l.rows, l.cols, x, m)(c)
  {
    FlatBound(m, c, l.rows, l.cols);
    var i := Flat(m, l.cols, c);
    var vq := VqAt(l, i);
    var corr := if csr.Some? then CsrAt(csr.value, l.rows, l.cols, i) else 0.0;
    assert At(w, i) == vq + corr;
    Distribute(vq, corr, At(x, c));
    TimesZero(At(x, c));
  }

  // A dense row of the corrected weight gives gather term plus correction term.
  lemma DenseRowSplits(w: seq<real>, l: Layer, csr: Option<Csr>, x: seq<real>, m: nat)
    requires |l.stores| == |l.codebooks| && (csr.Some? ==> Shaped(csr.value, l.rows, l.cols))
    requires IsDense(w, l, csr) && m < l.rows
    ensures Sum(DenseTerm(w, l.cols, x, m), l.cols) == RowDot(l, x, m) + Corrected(csr, l.rows, l.cols, x, m)
  {
    var whole, vq, corr := DenseTerm(w, l.cols, x, m), RowTerm(l, x, m), CorrectionTerm(csr, l.rows, l.cols, x, m);
    forall c {:trigger whole(c)} | 0 <= c < l.cols
      ensures whole(c) == vq(c) + corr(c)
    {
      DenseElementSplits(w, l, csr, x, m, c);
    }
    SumAdd(vq, corr, whole, l.cols);
    CorrectionTermSum(csr, l.rows, l.cols, x, m);
  }

  method LinearTokens(w: seq<real>, l: Layer, csr: Option<Csr>, bias: Option<seq<real>>, xs: Tokens) returns (ys: Tokens)
    requires |l.stores| == |l.codebooks| && (csr.Some? ==> Shaped(csr.value, l.rows, l.cols))
    requires IsDense(w, l, csr)
    ensures AreOutputs(l, csr, bias, xs, ys)
  {
    hide IsOutput, IsDense, Shaped;
    ys := [];
    for n := 0 to |xs|
      invariant |ys| == n
      invariant forall n' :: 0 <= n' < n ==> IsOutput(l, csr, bias, xs[n'], ys[n'])
    {
      var y := LinearToken(w, l, csr, bias, xs[n]);
      ys := ys + [y];
    }
  }

  // F.linear of one token.
  method LinearToken(w: seq<real>, l: Layer, csr: Option<Csr>, bias: Option<seq<real>>, x: seq<real>) returns (y: seq<real>)
    requires |l.stores| == |l.codebooks| && (csr.Some? ==> Shaped(csr.value, l.rows, l.cols))
    requires IsDense(w, l, csr)
    ensures IsOutput(l, csr, bias, x, y)
  {
    hide RowDot, Corrected, IsDense, Shaped;
    y := [];
    for m := 0 to l.rows
      invariant |y| == m
      invariant forall m' :: 0 <= m' < m ==> y[m'] == RowDot(l, x, m') + Corrected(csr, l.rows, l.cols, x, m')
    {
      var dot := DenseRow(w, l.cols, x, m);
      DenseRowSplits(w, l, csr, x, m);
      y := y + [dot];
    }
    y := AddBias(y, bias);
  }

  // forward_prefill: decode to dense once, add the sparse delta, one linear.
  method ForwardPrefill(layer: VQLinear, xs: Tokens, env: Env) returns (ys: Option<Tokens>)
    requires layer.Valid() && Tiled(layer.Payload()) && SupportedPrefill(layer, |xs|, env)
    modifies layer`denseBuf
    ensures layer.Valid() && SameServing(layer)
    ensures ys.Some? ==> AreOutputs(layer.Payload(), layer.CorrectionCsr(), layer.bias, xs, ys.value)
    ensures ys.Some? ==> BiasAlone(layer.bias, layer.rows, xs, ys.value)
  {
    if !env.prefillReachesCache {
      return None;
    }
    if layer.denseBuf.None? {
      layer.denseBuf := Some(layer.Payload());
    }
    if !env.prefillCompletes {
      return None;
    }
    var csr := if layer.corrCol != [] then Some(layer.RawCsr()) else None;
    hide AreOutputs, BiasAlone;
    var out := DenseTokens(layer.denseBuf.value, csr, layer.bias, xs);
    OutputsShowBias(layer.Payload(), csr, layer.bias, xs, out);
    ys := Some(out);
  }

  // ddense, index_add_ of the delta, F.linear.
  method DenseTokens(l: Layer, csr: Option<Csr>, bias: Option<seq<real>>, xs: Tokens) returns (ys: Tokens)
    requires Tiled(l) && l.groupMajor && |l.stores| == 2 && (csr.Some? ==> Sparse(csr.value, l.rows, l.cols))
    ensures AreOutputs(l, csr, bias, xs, ys)
  {
    hide VqAt, CsrAt;
    var w := DDense(l);
    if csr.Some? {
      w := AddEntries(w, Entries(csr.value, l.rows, l.cols));
    }
    AddedIsCsr(csr, l.rows, l.cols);
    assert IsDense(w, l, csr);
    hide IsDense, AreOutputs;
    ys := LinearTokens(w, l, csr, bias, xs);
  }

  lemma AddedIsCsr(csr: Option<Csr>, rows: nat, cols: nat)
    requires csr.Some? ==> Shaped(csr.value, rows, cols)
    ensures csr.Some? ==> forall i {:trigger CsrAt(csr.value, rows, cols, i)} ::
      CsrAt(csr.value, rows, cols, i) == Added(Entries(csr.value, rows, cols), i)
  {
  }

  // ---------------------------------------------------------------- the dispatch

  // One token through the Triton kernels, sparse term and bias.
  method TritonToken(l: Layer, sp: Option<Csr>, bias: Option<seq<real>>, x: seq<real>, single: bool, blockK: pos)
    returns (y: seq<real>)
    requires |l.stores| == |l.codebooks| && (single ==> Gpb(l) > 0)
    requires sp.Some? ==> Shaped(sp.value, l.rows, l.cols)
    ensures IsKernelOutput(KernelArgs(l), sp, bias, x, single, y)
  {
    hide DecodeDot, GemmDot, Corrected, Shaped;
    if single {
      y := TritonDecode(l, x);
    } else {
      y := GemmToken(l, x, blockK);
    }
    y := AddSparse(sp, l.rows, l.cols, x, y);
    y := AddBias(y, bias);
  }

  method TritonBatch(l: Layer, sp: Option<Csr>, bias: Option<seq<real>>, xs: Tokens, blockK: pos) returns (ys: Tokens)
    requires |l.stores| == |l.codebooks| && CanDecode(l, xs)
    requires sp.Some? ==> Shaped(sp.value, l.rows, l.cols)
    ensures KernelOutputs(KernelArgs(l), sp, bias, xs, ys)
  {
    hide IsKernelOutput, Shaped;
    ys := [];
    for n := 0 to |xs|
      invariant |ys| == n
      invariant forall n' :: 0 <= n' < n ==> IsKernelOutput(KernelArgs(l), sp, bias, xs[n'], |xs| == 1, ys[n'])
    {
      var y := TritonToken(l, sp, bias, xs[n], |xs| == 1, blockK);
      ys := ys + [y];
    }
  }

  // The Triton path: the sparse tensor is built on first use, then reused.
  method TritonTokens(layer: VQLinear, xs: Tokens, env: Env) returns (ys: Tokens)
    requires layer.Valid() && CanDecode(layer.Payload(), xs)
    modifies layer
    ensures layer.Valid() && SameServing(layer)
    ensures KernelOutputs(KernelArgs(layer.Payload()), layer.CorrectionCsr(), layer.bias, xs, ys)
  {
    var sp := layer.CorrectionSparse();
    ys := TritonBatch(layer.Payload(), sp, layer.bias, xs, env.blockK);
  }

  predicate NoPlanes(l: Layer) {
    forall s :: 0 <= s < |l.stores| ==> l.stores[s].Narrow?
  }

  // What a call on a layer without planes gives: always the kernels' own sums
  // over the stages they are passed, and the row products wherever those are
  // the same.
  ghost predicate KernelServes(l: Layer, csr: Option<Csr>, bias: Option<seq<real>>, xs: Tokens, ys: Tokens)
    requires |l.stores| == |l.codebooks| && (csr.Some? ==> Shaped(csr.value, l.rows, l.cols)) && CanDecode(l, xs)
  {
    && KernelOutputs(l, csr, bias, xs, ys)
    && (Exact(l, xs) ==> AreOutputs(l, csr, bias, xs, ys))
  }

  // The CUDA backends, which gate themselves to group 8 and block 32.
  method CudaTokens(layer: VQLinear, xs: Tokens, env: Env) returns (ys: Option<Tokens>)
    requires layer.Valid()
    modifies layer`cudaCache, layer`denseBuf
    ensures layer.Valid() && SameServing(layer)
    ensures ys.Some? ==> Tiled(layer.Payload()) && |layer.stores| == 2
    ensures ys.Some? ==> AreOutputs(layer.Payload(), layer.CorrectionCsr(), layer.bias, xs, ys.value)
  {
    ys := None;
    if |xs| == 1 {
      if env.importOk && Supported(layer, 1, env) {
        var out := ForwardN1(layer, xs[0], env);
        if out.Some? {
          return Some([out.value]);
        }
      }
    } else if env.importOk && SupportedPrefill(layer, |xs|, env) {
      ys := ForwardPrefill(layer, xs, env);
    }
  }

  // vq_linear_forward, which VQLinear.forward reaches on a layer without planes.
  // The CUDA backends take two stages only; the Triton kernels, the first three.
  method VqLinearForward(layer: VQLinear, xs: Tokens, env: Env) returns (ys: Tokens)
    requires layer.Valid() && Whole(layer.Payload()) && NoPlanes(layer.Payload()) && CanDecode(layer.Payload(), xs)
    modifies layer
    ensures layer.Valid() && SameServing(layer)
    ensures KernelServes(KernelArgs(layer.Payload()), layer.CorrectionCsr(), layer.bias, xs, ys)
    ensures BiasAlone(layer.bias, layer.rows, xs, ys)
  {
    hide KernelOutputs, AreOutputs, Whole, BiasAlone;
    var out := CudaTokens(layer, xs, env);
    if out.Some? {
      ys := out.value;
    } else {
      ys := TritonTokens(layer, xs, env);
    }
    if Exact(layer.Payload(), xs) {
      KernelOutputsAreOutputs(KernelArgs(layer.Payload()), layer.CorrectionCsr(), layer.bias, xs, ys);
    }
    OutputsShowBias(KernelArgs(layer.Payload()), layer.CorrectionCsr(), layer.bias, xs, ys);
  }

  datatype Call = Call(xs: Tokens, env: Env)

  // One forward, then a state dict.
  method CallAndSave(layer: VQLinear, call: Call) returns (ys: Tokens, dict: Csr)
    requires layer.Valid() && Whole(layer.Payload()) && NoPlanes(layer.Payload()) && CanDecode(layer.Payload(), call.xs)
    modifies layer
    ensures layer.Valid() && SameServing(layer)
    ensures KernelServes(KernelArgs(layer.Payload()), layer.CorrectionCsr(), layer.bias, call.xs, ys)
    ensures layer.CorrectionCsr().Some? ==> dict == layer.CorrectionCsr().value
  {
    hide KernelServes, Whole, NoPlanes, KernelArgs;
    ys := VqLinearForward(layer, call.xs, call.env);
    dict := layer.SaveStateDict();
  }

  predicate CanDecodeAll(l: Layer, calls: seq<Call>) {
    forall t :: 0 <= t < |calls| ==> CanDecode(l, calls[t].xs)
  }

  ghost predicate AllServed(l: Layer, csr: Option<Csr>, bias: Option<seq<real>>, calls: seq<Call>, outputs: seq<Tokens>)
    requires |l.stores| == |l.codebooks| && (csr.Some? ==> Shaped(csr.value, l.rows, l.cols)) && CanDecodeAll(l, calls)
  {
    && |outputs| == |calls|
    && forall t :: 0 <= t < |calls| ==> KernelServes(l, csr, bias, calls[t].xs, outputs[t])
  }

  lemma AllServedNext(l: Layer, csr: Option<Csr>, bias: Option<seq<real>>, calls: seq<Call>, t: nat, outputs: seq<Tokens>, ys: Tokens)
    requires |l.stores| == |l.codebooks| && (csr.Some? ==> Shaped(csr.value, l.rows, l.cols))
    requires t < |calls| && CanDecodeAll(l, calls) && AllServed(l, csr, bias, calls[..t], outputs)
    requires KernelServes(l, csr, bias, calls[t].xs, ys)
    ensures AllServed(l, csr, bias, calls[..t + 1], outputs + [ys])
  {
    hide KernelServes, Shaped;
  }

  // Any run of forwards, with a state dict taken after every call: each output
  // carries the correction of the layer as it was built exactly once, and each
  // state dict carries that same correction.
  method Run(layer: VQLinear, calls: seq<Call>) returns (outputs: seq<Tokens>, saved: seq<Csr>)
    requires layer.Valid() && Whole(layer.Payload()) && NoPlanes(layer.Payload()) && CanDecodeAll(layer.Payload(), calls)
    modifies layer
    ensures layer.Valid() && SameServing(layer)
    ensures AllServed(KernelArgs(layer.Payload()), layer.CorrectionCsr(), layer.bias, calls, outputs)
    ensures |saved| == |outputs| == |calls|
    ensures forall t :: 0 <= t < |calls| ==> BiasAlone(layer.bias, layer.rows, calls[t].xs, outputs[t])
    ensures old(layer.CorrectionCsr()).Some? ==>
      forall t :: 0 <= t < |calls| ==> saved[t] == old(layer.CorrectionCsr()).value
  {
    ghost var l, k, csr := layer.Payload(), KernelArgs(layer.Payload()), layer.CorrectionCsr();
    assert csr.Some? ==> Shaped(csr.value, k.rows, k.cols);
    hide KernelServes, Whole, NoPlanes, KernelArgs, LayerOk, Sparse, Shaped;
    assert CanDecodeAll(k, calls);
    outputs, saved := [], [];
    for t := 0 to |calls|
      invariant layer.Valid() && layer.Payload() == l && layer.CorrectionCsr() == csr
      invariant AllServed(k, csr, layer.bias, calls[..t], outputs)
      invariant |saved| == t
      invariant csr.Some? ==> forall t' :: 0 <= t' < t ==> saved[t'] == csr.value
    {
      var ys, dict := CallAndSave(layer, calls[t]);
      AllServedNext(k, csr, layer.bias, calls, t, outputs, ys);
      outputs := outputs + [ys];
      saved := saved + [dict];
    }
    assert calls[..|calls|] == calls;
    AllShowBias(k, csr, layer.bias, calls, outputs);
  }

  lemma AllShowBias(l: Layer, csr: Option<Csr>, bias: Option<seq<real>>, calls: seq<Call>, outputs: seq<Tokens>)
    requires |l.stores| == |l.codebooks| && (csr.Some? ==> Shaped(csr.value, l.rows, l.cols)) && CanDecodeAll(l, calls)
    requires AllServed(l, csr, bias, calls, outputs) && (bias.Some? ==> |bias.value| == l.rows)
    ensures |outputs| == |calls| && forall t :: 0 <= t < |calls| ==> BiasAlone(bias, l.rows, calls[t].xs, outputs[t])
  {
    hide KernelOutputs, AreOutputs, BiasAlone, Shaped;
    forall t | 0 <= t < |calls|
      ensures BiasAlone(bias, l.rows, calls[t].xs, outputs[t])
    {
      assert KernelServes(l, csr, bias, calls[t].xs, outputs[t]);
      OutputsShowBias(l, csr, bias, calls[t].xs, outputs[t]);
    }
  }

  // ------------------------------------------------------------- planed layers

  function UniformPlanes(l: Layer): bool {
    && |l.stores| > 0 && l.stores[0].Planed?
    && (l.stores[0].width == 10 || l.stores[0].width == 12)
    && forall s :: 0 <= s < |l.stores| ==> l.stores[s].Planed? && l.stores[s].width == l.stores[0].width
  }

  // cuda_planes.supported
  function PlaneGemvSupported(layer: VQLinear, env: Env): bool
    reads layer
  {
    && UniformPlanes(layer.Payload()) && |layer.stores| <= 3
    && layer.group % 2 == 0 && !layer.groupMajor && layer.corrCol == []
    && env.onCuda && env.moduleOk
  }

  // The eligibility probe of the N=1 hot path is cached on first use.
  function N1Eligible(layer: VQLinear, env: Env): bool
    reads layer
  {
    if layer.n1Ok.Some? then layer.n1Ok.value else PlaneGemvSupported(layer, env)
  }

  // The kernels that read the planes directly, in the order they are tried.
  function Accelerated(layer: VQLinear, tokens: nat, env: Env): bool
    reads layer
  {
    env.onCuda
    && (|| (tokens == 1 && N1Eligible(layer, env) && env.n1Completes)
        || (UniformPlanes(layer.Payload()) && |layer.stores| == 2 && (layer.corrCol == [] || env.tritonPlanesComplete)))
  }

  // When a forward on a planed layer carries the layer's correction.
  function AppliesCorrection(layer: VQLinear, tokens: nat, env: Env): bool
    reads layer
  {
    layer.CorrectionCsr().None? || layer.corrCol != [] || !Accelerated(layer, tokens, env)
  }

  ghost predicate PlanedReady(layer: VQLinear)
    reads layer
  {
    && layer.Valid() && !layer.groupMajor
    && (layer.n1Ok.Some? && layer.n1Ok.value ==> layer.group % 2 == 0 && |layer.stores| <= 3)
  }

  method PythonTokens(layer: VQLinear, xs: Tokens) returns (ys: Tokens)
    requires layer.Valid()
    ensures AreOutputs(layer.Payload(), layer.CorrectionCsr(), layer.bias, xs, ys)
  {
    var w := layer.ReconstructWeight();
    ys := LinearTokens(w, layer.Payload(), layer.CorrectionCsr(), layer.bias, xs);
  }

  // The N=1 hot path: the warp-per-row plane GEMV, when eligible.
  method HotToken(layer: VQLinear, xs: Tokens, env: Env) returns (y: Option<seq<real>>)
    requires PlanedReady(layer) && CanDecode(layer.Payload(), xs)
    modifies layer`n1Ok
    ensures PlanedReady(layer)
    ensures y.Some? <==> |xs| == 1 && env.onCuda && old(N1Eligible(layer, env)) && env.n1Completes
    ensures y.Some? ==> layer.corrCol == [] && IsKernelOutput(layer.Payload(), None, layer.bias, xs[0], true, y.value)
  {
    if |xs| != 1 || !env.onCuda {
      return None;
    }
    if layer.n1Ok.None? {
      var ok := PlaneGemvSupported(layer, env);
      assert ok ==> layer.group % 2 == 0 && |layer.stores| <= 3 && layer.corrCol == [];
      layer.n1Ok := Some(ok);
    }
    if !layer.n1Ok.value || !env.n1Completes {
      return None;
    }
    var out := GemvPlanes(layer.Payload(), xs[0]);
    out := AddBias(out, layer.bias);
    y := Some(out);
  }

  // The Triton plane GEMM serves the call, and moves the raw buffers.
  predicate FreesCorrection(layer: VQLinear, xs: Tokens, env: Env)
    reads layer
  {
    |xs| > 1 && env.onCuda && env.tritonPlanesComplete && UniformPlanes(layer.Payload()) && |layer.stores| == 2
  }

  // The correction a forward on a planed layer adds.
  function Applied(layer: VQLinear, tokens: nat, env: Env): Option<Csr>
    reads layer
  {
    if AppliesCorrection(layer, tokens, env) then layer.CorrectionCsr() else None
  }

  // _forward_planed. A call carries the correction exactly when there is none,
  // or the raw buffers still hold it, or no plane kernel serves the call: once
  // the buffers have moved into the sparse cache, the plane kernels drop it. The
  // dense fallback is right on any layer, the kernels on the exact ones.
  method ForwardPlaned(layer: VQLinear, xs: Tokens, env: Env) returns (ys: Tokens)
    requires PlanedReady(layer) && CanDecode(layer.Payload(), xs)
    modifies layer
    ensures PlanedReady(layer) && SameServing(layer)
    ensures old(Accelerated(layer, |xs|, env)) ==>
      KernelOutputs(layer.Payload(), old(Applied(layer, |xs|, env)), layer.bias, xs, ys)
    ensures !old(Accelerated(layer, |xs|, env)) || Exact(layer.Payload(), xs) ==>
      AreOutputs(layer.Payload(), old(Applied(layer, |xs|, env)), layer.bias, xs, ys)
    ensures BiasAlone(layer.bias, layer.rows, xs, ys)
    ensures FreesCorrection(layer, xs, env) ==> layer.corrCol == []
  {
    hide IsKernelOutput, IsOutput, BiasAlone;
    ghost var l, fast, csr := layer.Payload(), Accelerated(layer, |xs|, env), Applied(layer, |xs|, env);
    ys := PlanedTokens(layer, xs, env);
    if fast && Exact(l, xs) {
      KernelOutputsAreOutputs(l, csr, layer.bias, xs, ys);
    }
    OutputsShowBias(l, csr, layer.bias, xs, ys);
  }

  method PlanedTokens(layer: VQLinear, xs: Tokens, env: Env) returns (ys: Tokens)
    requires PlanedReady(layer) && CanDecode(layer.Payload(), xs)
    modifies layer
    ensures PlanedReady(layer) && SameServing(layer)
    ensures if old(Accelerated(layer, |xs|, env))
      then KernelOutputs(layer.Payload(), old(Applied(layer, |xs|, env)), layer.bias, xs, ys)
      else AreOutputs(layer.Payload(), old(Applied(layer, |xs|, env)), layer.bias, xs, ys)
    ensures FreesCorrection(layer, xs, env) ==> layer.corrCol == []
  {
    hide IsKernelOutput, IsOutput;
    var hot := HotToken(layer, xs, env);
    if hot.Some? {
      return [hot.value];
    }
    var l := layer.Payload();
    var uniform := UniformPlanes(l) && |l.stores| == 2;
    if env.onCuda && uniform && layer.corrCol == [] {
      ys := TritonBatch(l, None, layer.bias, xs, env.blockK);
      return;
    }
    if env.onCuda && uniform && env.tritonPlanesComplete {
      var sp := layer.CorrectionSparse();
      ys := TritonBatch(l, sp, layer.bias, xs, env.blockK);
      return;
    }
    ys := PythonTokens(layer, xs);
  }

  // Two identical multi-token calls on a freshly built two-stage planed layer
  // with a correction: the first carries it, the second does not.
  method SecondPlanedCallDropsCorrection(layer: VQLinear, xs: Tokens, env: Env) returns (first: Tokens, second: Tokens)
    requires PlanedReady(layer) && layer.corrCol != [] && FreesCorrection(layer, xs, env)
    modifies layer
    ensures layer.Valid() && SameServing(layer)
    ensures KernelOutputs(layer.Payload(), layer.CorrectionCsr(), layer.bias, xs, first)
    ensures KernelOutputs(layer.Payload(), None, layer.bias, xs, second)
  {
    hide KernelOutputs, AreOutputs;
    first := ForwardPlaned(layer, xs, env);
    second := ForwardPlaned(layer, xs, env);
  }

  lemma UnitTerm(csr: Csr, rows: nat, cols: nat, j: nat, i: nat)
    requires Sparse(csr, rows, cols) && j < |csr.col| && i < cols
    ensures MatrixTerm(csr, rows, cols, Input(Unit(cols, csr.col[j])), ExpandRows(csr.rowptr, rows)[j])(i)
         == if i == csr.col[j] then csr.val[j] else 0.0
  {
    var m, c := ExpandRows(csr.rowptr, rows)[j], csr.col[j];
    var side := Entries(csr, rows, cols);
    assert At(Unit(cols, c), i) == if i == c then 1.0 else 0.0;
    TimesZero(CsrAt(csr, rows, cols, Flat(m, cols, i)));
    if i == c {
      assert side[j] == (Flat(m, cols, i), csr.val[j]);
      AddedOnce(side, |side|, j);
      assert CsrAt(csr, rows, cols, Flat(m, cols, i)) == csr.val[j];
    }
  }

  // Dropping a correction is visible: a non-zero entry changes an output.
  lemma CorrectionVisible(csr: Csr, rows: nat, cols: nat, j: nat)
    requires Sparse(csr, rows, cols) && j < |csr.col| && csr.val[j] != 0.0
    ensures exists m :: 0 <= m < rows && CorrectionDot(csr, rows, cols, Unit(cols, csr.col[j]), m) != 0.0
  {
    var m, c := ExpandRows(csr.rowptr, rows)[j], csr.col[j];
    var term := MatrixTerm(csr, rows, cols, Input(Unit(cols, c)), m);
    forall i {:trigger term(i)} | 0 <= i < cols
      ensures term(i) == if i == c then csr.val[j] else 0.0
    {
      UnitTerm(csr, rows, cols, j, i);
    }
    SumSingle(term, c, cols);
    assert CorrectionDot(csr, rows, cols, Unit(cols, c), m) == csr.val[j];
  }

  // ------------------------------------------------------------ from the artifact

  ghost function ServedTerm(t: Tensor, x: seq<real>, m: nat): int -> real {
    (c: int) => if c >= 0 then Times(BaseWeight(Served(t), Flat(m, t.cols, c)), At(x, c)) else 0.0
  }

  lemma OutputIsServed(l: Layer, csr: Option<Csr>, t: Tensor, x: seq<real>, m: nat)
    requires Serves(l, csr, t) && t.packed == t.rows * t.cols && m < t.rows
    ensures RowDot(l, x, m) + Corrected(csr, l.rows, l.cols, x, m) == Sum(ServedTerm(t, x, m), t.cols)
  {
    var w := seq(Total(l), i requires 0 <= i < Total(l) => BaseWeight(Served(t), i));
    assert IsDense(w, l, csr);
    DenseRowSplits(w, l, csr, x, m);
    var f, g := ServedTerm(t, x, m), DenseTerm(w, l.cols, x, m);
    forall c {:trigger f(c)} | 0 <= c < l.cols
      ensures f(c) == g(c)
    {
      FlatBound(m, c, l.rows, l.cols);
    }
    SumCong(f, g, l.cols);
  }

  // x . W^T + bias at every token and output, W the reference base weight.
  ghost predicate ReferenceOutputs(t: Tensor, bias: Option<seq<real>>, xs: Tokens, ys: Tokens) {
    && |ys| == |xs|
    && forall n :: 0 <= n < |xs| ==> ReferenceOutput(t, bias, xs[n], ys[n])
  }

  ghost predicate ReferenceOutput(t: Tensor, bias: Option<seq<real>>, x: seq<real>, y: seq<real>) {
    && |y| == t.rows
    && forall m :: 0 <= m < t.rows ==> y[m] == Sum(ServedTerm(t, x, m), t.cols) + BiasAt(bias, m)
  }

  lemma OutputIsReference(l: Layer, csr: Option<Csr>, t: Tensor, bias: Option<seq<real>>, x: seq<real>, y: seq<real>)
    requires Serves(l, csr, t) && t.packed == t.rows * t.cols && IsOutput(l, csr, bias, x, y)
    ensures ReferenceOutput(t, bias, x, y)
  {
    forall m: nat | m < t.rows
      ensures RowDot(l, x, m) + Corrected(csr, l.rows, l.cols, x, m) == Sum(ServedTerm(t, x, m), t.cols)
    {
      OutputIsServed(l, csr, t, x, m);
    }
  }

  lemma OutputsAreReference(l: Layer, csr: Option<Csr>, t: Tensor, bias: Option<seq<real>>, xs: Tokens, ys: Tokens)
    requires Serves(l, csr, t) && t.packed == t.rows * t.cols && AreOutputs(l, csr, bias, xs, ys)
    ensures ReferenceOutputs(t, bias, xs, ys)
  {
    forall n | 0 <= n < |xs|
      ensures ReferenceOutput(t, bias, xs[n], ys[n])
    {
      OutputIsReference(l, csr, t, bias, xs[n], ys[n]);
    }
  }

  // On a unit token the outputs are one column of W plus the bias.
  lemma ReferenceReadsColumn(t: Tensor, bias: Option<seq<real>>, c: nat, m: nat, y: seq<real>)
    requires c < t.cols && m < t.rows && ReferenceOutput(t, bias, Unit(t.cols, c), y)
    requires bias.Some? ==> |bias.value| == t.rows
    ensures Flat(m, t.cols, c) >= 0 && |y| == t.rows
    ensures y[m] == BaseWeight(Served(t), Flat(m, t.cols, c)) + if bias.Some? then bias.value[m] else 0.0
  {
    var f := ServedTerm(t, Unit(t.cols, c), m);
    forall i {:trigger f(i)} | 0 <= i < t.cols
      ensures f(i) == if i == c then BaseWeight(Served(t), Flat(m, t.cols, c)) else 0.0
    {
      TimesZero(BaseWeight(Served(t), Flat(m, t.cols, i)));
      assert At(Unit(t.cols, c), i) == if i == c then 1.0 else 0.0;
    }
    SumSingle(f, c, t.cols);
  }

  // Scaling and adding tokens scales and adds the outputs, bias aside.
  lemma ReferenceLinear(t: Tensor, a: real, x: seq<real>, x': seq<real>, z: seq<real>, m: nat, y: seq<real>, y': seq<real>, w: seq<real>)
    requires |x| == |x'| == |z| == t.cols && forall c :: 0 <= c < t.cols ==> z[c] == Times(a, x[c]) + x'[c]
    requires ReferenceOutput(t, None, x, y) && ReferenceOutput(t, None, x', y') && ReferenceOutput(t, None, z, w) && m < t.rows
    ensures |w| == |y| == |y'| == t.rows && w[m] == Times(a, y[m]) + y'[m]
  {
    hide Times, BaseWeight;
    var f, f', g := ServedTerm(t, x, m), ServedTerm(t, x', m), ServedTerm(t, z, m);
    var h := (c: int) => Times(a, f(c));
    SumScale(a, f, h, t.cols);
    forall c {:trigger g(c)} | 0 <= c < t.cols
      ensures g(c) == h(c) + f'(c)
    {
      LinearTerm(BaseWeight(Served(t), Flat(m, t.cols, c)), a, x[c], x'[c]);
    }
    SumAdd(h, f', g, t.cols);
  }

  lemma LinearTerm(w: real, a: real, x: real, x': real)
    ensures Times(w, Times(a, x) + x') == Times(a, Times(w, x)) + Times(w, x')
  {
    assert w * (a * x + x') == a * (w * x) + w * x';
  }

  // Two biases on the same tensor and token.
  lemma ReferenceBiasDifference(t: Tensor, a: seq<real>, b: seq<real>, x: seq<real>, m: nat, y: seq<real>, z: seq<real>)
    requires |a| == |b| == t.rows && m < t.rows
    requires ReferenceOutput(t, Some(a), x, y) && ReferenceOutput(t, Some(b), x, z)
    ensures |y| == |z| == t.rows && y[m] - z[m] == a[m] - b[m]
  {
  }

  // What a layer built from an entry without planes has for the dispatcher.
  lemma BuiltPlain(l: Layer, csr: Option<Csr>, t: Tensor, calls: seq<Call>)
    requires Buildable(t) && Built(l, csr, t) && LayerOk(l) && t.cols % t.group == 0 && t.cols % t.block == 0
    requires forall k :: 0 <= k < |calls| && |calls[k].xs| == 1 ==> t.group <= t.block
    requires forall s :: 0 <= s < |t.stages| ==> PlaneWidth(t.stages[s].k) == 0
    ensures Whole(l) && NoPlanes(l) && CanDecodeAll(l, calls) && |l.stores| == |t.stages|
    ensures Serves(l, csr, t) && t.packed == t.rows * t.cols
    ensures forall k :: 0 <= k < |calls| && (|calls[k].xs| == 1 ==> t.block % t.group == 0) ==> Exact(l, calls[k].xs)
  {
    assert l.group == t.group && l.block == t.block && l.cols == t.cols;
    hide PlaneWidth, Serves, Holds, LayerOk, Corrects, Buildable;
    if t.group <= t.block {
      MulMono(1, t.block / t.group, t.group);
    }
  }

  lemma RunIsReference(l: Layer, csr: Option<Csr>, t: Tensor, bias: Option<seq<real>>, calls: seq<Call>, outputs: seq<Tokens>, k: nat)
    requires Serves(l, csr, t) && t.packed == t.rows * t.cols && CanDecodeAll(l, calls) && k < |calls|
    requires AllServed(l, csr, bias, calls, outputs) && Exact(l, calls[k].xs)
    ensures |outputs| == |calls| && ReferenceOutputs(t, bias, calls[k].xs, outputs[k])
  {
    assert CanDecode(l, calls[k].xs);
    assert KernelServes(l, csr, bias, calls[k].xs, outputs[k]);
    OutputsAreReference(l, csr, t, bias, calls[k].xs, outputs[k]);
  }

  // Building a layer of up to three stages from a packed tensor and running any
  // calls through it gives x . W^T + bias with W the reference decode, whatever
  // backends served. A single token needs blocks of whole groups besides.
  method ServeTensor(t: Tensor, bias: Option<seq<real>>, calls: seq<Call>) returns (outputs: seq<Tokens>)
    requires Buildable(t) && (bias.Some? ==> |bias.value| == t.rows)
    requires t.cols % t.group == 0 && t.cols % t.block == 0
    requires forall k :: 0 <= k < |calls| && |calls[k].xs| == 1 ==> t.group <= t.block
    requires forall s :: 0 <= s < |t.stages| ==> PlaneWidth(t.stages[s].k) == 0
    ensures |outputs| == |calls|
    ensures |t.stages| <= 3 ==> forall k :: 0 <= k < |calls| && (|calls[k].xs| == 1 ==> t.block % t.group == 0) ==>
      ReferenceOutputs(t, bias, calls[k].xs, outputs[k])
    ensures forall k :: 0 <= k < |calls| ==> BiasAlone(bias, t.rows, calls[k].xs, outputs[k])
  {
    var layer := BuildVqLinear(t, bias);
    ghost var l, csr := layer.Payload(), layer.CorrectionCsr();
    BuiltPlain(l, csr, t, calls);
    var saved: seq<Csr>;
    hide BaseWeight, Buildable, Built, Serves, AllServed, ReferenceOutputs, LayerOk, Sparse, Shaped, PlaneWidth, Aligned, NoPlanes, CanDecode, CanDecodeAll, Whole, Exact, BiasAlone;
    outputs, saved := Run(layer, calls);
    forall k | |t.stages| <= 3 && 0 <= k < |calls| && (|calls[k].xs| == 1 ==> t.block % t.group == 0)
      ensures ReferenceOutputs(t, bias, calls[k].xs, outputs[k])
    {
      RunIsReference(l, csr, t, bias, calls, outputs, k);
    }
  }

  // ------------------------------------------- the dropped correction, from an entry

  // A unit input reads one element of the gathered weight.
  lemma UnitRow(l: Layer, m: nat, c: nat)
    requires |l.stores| == |l.codebooks| && c < l.cols
    ensures RowDot(l, Unit(l.cols, c), m) == VqAt(l, Flat(m, l.cols, c))
  {
    var x := Unit(l.cols, c);
    var f := RowTerm(l, x, m);
    forall i {:trigger f(i)} | 0 <= i < l.cols
      ensures f(i) == if i == c then VqAt(l, Flat(m, l.cols, c)) else 0.0
    {
      TimesZero(VqAt(l, Flat(m, l.cols, i)));
      assert At(x, i) == if i == c then 1.0 else 0.0;
    }
    SumSingle(f, c, l.cols);
  }

  // And one element of the correction.
  lemma UnitCorrection(csr: Csr, rows: nat, cols: nat, m: nat, c: nat)
    requires Shaped(csr, rows, cols) && c < cols
    ensures CorrectionDot(csr, rows, cols, Unit(cols, c), m) == CsrAt(csr, rows, cols, Flat(m, cols, c))
  {
    var x := Unit(cols, c);
    var f := MatrixTerm(csr, rows, cols, Input(x), m);
    forall i {:trigger f(i)} | 0 <= i < cols
      ensures f(i) == if i == c then CsrAt(csr, rows, cols, Flat(m, cols, c)) else 0.0
    {
      TimesZero(CsrAt(csr, rows, cols, Flat(m, cols, i)));
      assert At(x, i) == if i == c then 1.0 else 0.0;
    }
    SumSingle(f, c, cols);
  }

  // On a unit input the first call reads the served element, and a call that
  // drops the correction reads the bare stages.
  lemma UnitOutputs(l: Layer, csr: Option<Csr>, t: Tensor, bias: Option<seq<real>>, m: nat, c: nat, with: seq<real>, without: seq<real>)
    requires Built(l, csr, t) && Buildable(t) && m < t.rows && c < t.cols
    requires IsOutput(l, csr, bias, Unit(t.cols, c), with) && IsOutput(l, None, bias, Unit(t.cols, c), without)
    ensures 0 <= Flat(m, t.cols, c) < t.packed
    ensures with[m] == BaseWeight(Served(t), Flat(m, t.cols, c)) + BiasAt(bias, m)
    ensures without[m] == StagesOnly(t, Flat(m, t.cols, c)) + BiasAt(bias, m)
  {
    FlatBound(m, c, t.rows, t.cols);
    UnitRow(l, m, c);
    if csr.Some? {
      UnitCorrection(csr.value, l.rows, l.cols, m, c);
    }
    HoldsAt(l, t, Flat(m, t.cols, c));
  }

  // Any entry of two stages in equal planes, any overwritten element (m, c) of
  // it: the same two-token call made twice on the built layer reads the element
  // as served, and then as the stages alone.
  method PlanedCallTwice(t: Tensor, bias: Option<seq<real>>, env: Env, m: nat, c: nat) returns (first: real, second: real)
    requires Buildable(t) && (bias.Some? ==> |bias.value| == t.rows) && m < t.rows && c < t.cols
    requires |t.stages| == 2 && PlaneWidth(t.stages[0].k) == PlaneWidth(t.stages[1].k) > 0
    requires t.cols % t.group == 0 && t.cols % t.block == 0 && Corrects(t)
    requires env.onCuda && env.tritonPlanesComplete
    ensures 0 <= Flat(m, t.cols, c) < t.packed
    ensures first == BaseWeight(Served(t), Flat(m, t.cols, c)) + if bias.Some? then bias.value[m] else 0.0
    ensures second == StagesOnly(t, Flat(m, t.cols, c)) + if bias.Some? then bias.value[m] else 0.0
  {
    var layer := BuildVqLinear(t, bias);
    ghost var l, csr := layer.Payload(), layer.CorrectionCsr();
    var xs := [Unit(t.cols, c), Unit(t.cols, c)];
    BuiltPlanes(l, csr, t);
    hide BaseWeight, Buildable, Built, IsOutput, UniformPlanes;
    var ys, zs := SecondPlanedCallDropsCorrection(layer, xs, env);
    KernelOutputsAreOutputs(l, csr, bias, xs, ys);
    KernelOutputsAreOutputs(l, None, bias, xs, zs);
    UnitOutputs(l, csr, t, bias, m, c, ys[0], zs[0]);
    first, second := ys[0][m], zs[0][m];
  }

  lemma BuiltPlanes(l: Layer, csr: Option<Csr>, t: Tensor)
    requires Built(l, csr, t) && LayerOk(l)
    requires |t.stages| == 2 && PlaneWidth(t.stages[0].k) == PlaneWidth(t.stages[1].k) > 0
    requires t.cols % t.group == 0 && t.cols % t.block == 0
    ensures Whole(l) && !l.groupMajor && UniformPlanes(l) && (csr.Some? <==> Corrects(t))
  {
    assert l.stores[0].Planed? && l.stores[1].Planed?;
  }

  // The layer of PlanedOutlier gives 1 on the first call and 0 on the second.
  method DropsOutlier(env: Env) returns (first: real, second: real)
    requires env.onCuda && env.tritonPlanesComplete
    ensures first == 1.0 && second == 0.0
  {
    PlanedOutlierFacts();
    hide BaseWeight, StagesOnly, Buildable, PlaneWidth;
    first, second := PlanedCallTwice(PlanedOutlier(), None, env, 0, 0);
  }
}
