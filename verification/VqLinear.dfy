// VQLinear (orka/inference/_vq_core.py): the layer object, its correction
// buffers, the cache they move into, and the dense reconstruction.

module VqLinear {
  import opened Basics
  import opened Layout
  import opened Reference
  import opened CsrMatrix
  import opened VqLayer

  // What cuda_decode._build_buffers keeps: the payload buffers and the CSR.
  datatype CudaBuffers = CudaBuffers(payload: Layer, csr: Option<Csr>)

  class VQLinear {
    const rows: nat
    const cols: nat
    const group: pos
    const block: pos
    const bias: Option<seq<real>>

    var stores: seq<Store>
    var codebooks: seq<seq<real>>
    var scales: seq<real>
    var groupMajor: bool

    var corrRowptr: seq<int>
    var corrCol: seq<int>
    var corrVal: seq<real>
    var sparseCache: Option<Csr>

    var cudaCache: Option<CudaBuffers>
    var denseBuf: Option<Layer>
    var n1Ok: Option<bool>

    function Payload(): Layer
      reads this
    {
      Layer(rows, cols, group, block, stores, codebooks, scales, groupMajor)
    }

    function RawCsr(): Csr
      reads this
    {
      Csr(corrRowptr, corrCol, corrVal)
    }

    // _correction_csr: the live correction, wherever it is.
    function CorrectionCsr(): Option<Csr>
      reads this
    {
      if corrCol != [] then Some(RawCsr()) else sparseCache
    }

    ghost predicate CorrectionOk()
      reads this
    {
      && (sparseCache.None? ==> Sparse(RawCsr(), rows, cols))
      && (sparseCache.Some? ==> RawCsr() == Csr([], [], []))
      && (sparseCache.Some? ==> sparseCache.value.col != [] && Sparse(sparseCache.value, rows, cols))
    }

    ghost predicate Valid()
      reads this
    {
      && LayerOk(Payload()) && CorrectionOk()
      && (bias.Some? ==> |bias.value| == rows)
      && (cudaCache.Some? ==> cudaCache.value == CudaBuffers(Payload(), CorrectionCsr()))
      && (denseBuf.Some? ==> denseBuf.value == Payload())
      && (n1Ok.Some? && n1Ok.value ==> corrCol == [])
    }

    // The correction at a flat position.
    function CorrectionAt(i: nat): real
      requires CorrectionCsr().Some? ==> Shaped(CorrectionCsr().value, rows, cols)
      reads this
    {
      if CorrectionCsr().Some? then CsrAt(CorrectionCsr().value, rows, cols, i) else 0.0
    }

    // The weight this layer serves.
    function WeightAt(i: nat): real
      requires LayerOk(Payload())
      requires CorrectionCsr().Some? ==> Shaped(CorrectionCsr().value, rows, cols)
      reads this
    {
      VqAt(Payload(), i) + CorrectionAt(i)
    }

    // Registers zeroed buffers of the tier each codebook size selects.
    constructor (rows: nat, cols: nat, group: pos, block: pos, ks: seq<nat>, bias: Option<seq<real>>)
      requires bias.Some? ==> |bias.value| == rows
      ensures Valid()
      ensures this.rows == rows && this.cols == cols && this.group == group && this.block == block && this.bias == bias
      ensures |stores| == |ks| && !groupMajor && CorrectionCsr().None?
      ensures scales == Filled(CeilDiv(rows * cols, block), 1.0)
      ensures |codebooks| == |ks|
      ensures sparseCache.None? && cudaCache.None? && denseBuf.None? && n1Ok.None?
    {
      var nGroups := CeilDiv(rows * cols, group);
      var zeros: seq<nat> := Filled(nGroups, 0);
      this.rows, this.cols, this.group, this.block, this.bias := rows, cols, group, block, bias;
      stores := seq(|ks|, s requires 0 <= s < |ks| => ToStore(zeros, ks[s]));
      codebooks := seq(|ks|, s requires 0 <= s < |ks| => Filled(ks[s] * group, 0.0));
      scales := Filled(CeilDiv(rows * cols, block), 1.0);
      groupMajor := false;
      corrRowptr, corrCol, corrVal := Filled(rows + 1, 0), [], [];
      sparseCache, cudaCache, denseBuf, n1Ok := None, None, None, None;
      new;
      forall s | 0 <= s < |ks|
        ensures StoreOk(stores[s], nGroups)
      {
        BlankStore(zeros, ks[s]);
      }
    }

    // corr_rowptr.copy_, corr_col.resize_().copy_, corr_val.resize_().copy_
    method StoreCorrection(csr: Csr)
      requires Valid() && CorrectionCsr().None? && cudaCache.None? && n1Ok.None?
      requires Sparse(csr, rows, cols) && csr.col != []
      modifies this`corrRowptr, this`corrCol, this`corrVal
      ensures Valid() && CorrectionCsr() == Some(csr) && Payload() == old(Payload())
    {
      corrRowptr := csr.rowptr;
      corrCol := csr.col;
      corrVal := csr.val;
      assert RawCsr() == csr;
    }

    // Wraps the raw buffers as the cached sparse matrix and frees them.
    method CorrectionSparse() returns (sp: Option<Csr>)
      requires Valid()
      modifies this
      ensures Valid()
      ensures sp == old(CorrectionCsr())
      ensures CorrectionCsr() == old(CorrectionCsr()) && Payload() == old(Payload())
      ensures sp.Some? ==> sparseCache == sp && RawCsr() == Csr([], [], [])
      ensures sp.None? ==> RawCsr() == old(RawCsr()) && sparseCache.None?
      ensures n1Ok == old(n1Ok)
    {
      if sparseCache.Some? {
        return sparseCache;
      }
      if corrCol == [] {
        return None;
      }
      sp := Some(Csr(corrRowptr, corrCol, corrVal));
      sparseCache := sp;
      corrCol := [];
      corrVal := [];
      corrRowptr := [];
    }

    // The three correction entries of state_dict(): the registered buffers,
    // overridden from the cache once they have been freed.
    method SaveStateDict() returns (saved: Csr)
      requires Valid()
      ensures Sparse(saved, rows, cols)
      ensures CorrectionCsr().Some? ==> saved == CorrectionCsr().value
      ensures CorrectionCsr().None? ==> saved == RawCsr() && saved.col == []
    {
      saved := RawCsr();
      if corrCol != [] {
        return;
      }
      var csr := CorrectionCsr();
      if csr.Some? {
        saved := csr.value;
      }
    }

    // Decodes the full weight, from either layout and either home of the
    // correction.
    method ReconstructWeight() returns (w: seq<real>)
      requires Valid()
      ensures |w| == rows * cols
      ensures forall i :: 0 <= i < |w| ==> w[i] == WeightAt(i)
    {
      w := DecodeDense(Payload());
      var csr := CorrectionCsr();
      if csr.Some? {
        w := AddEntries(w, Entries(csr.value, rows, cols));
      }
    }
  }

  // cb[idxs].reshape(-1)[i]
  function GatheredAt(idxs: seq<int>, cb: seq<real>, group: pos, i: nat): real {
    CodeAt(cb, IntAt(idxs, i / group), group, i % group)
  }

  lemma GatheredIsTerm(l: Layer, s: nat, idxs: seq<int>, i: nat)
    requires LayerOk(l) && s < |l.stores| && i < Total(l)
    requires |idxs| == CeilDiv(Total(l), l.group) && forall q :: 0 <= q < |idxs| ==> idxs[q] == VqIndex(l, s, q)
    ensures GatheredAt(idxs, l.codebooks[s], l.group, i) == VqTerm(l, s, i)
  {
    PieceInRange(l, l.group, i);
  }

  // decoded.add_(cb[idxs].reshape(-1)) for one stage.
  method AddStage(l: Layer, s: nat, acc: seq<real>) returns (decoded: seq<real>)
    requires LayerOk(l) && s < |l.stores| && |acc| == Total(l)
    ensures |decoded| == |acc|
    ensures forall i :: 0 <= i < |acc| ==> decoded[i] == acc[i] + VqTerm(l, s, i)
  {
    var idxs := RowMajorIndices(l, s);
    var cb := l.codebooks[s];
    decoded := seq(|acc|, i requires 0 <= i < |acc| => acc[i] + GatheredAt(idxs, cb, l.group, i));
    forall i | 0 <= i < |acc|
      ensures decoded[i] == acc[i] + VqTerm(l, s, i)
    {
      GatheredIsTerm(l, s, idxs, i);
    }
  }

  // The stage gathers, in row-major order.
  method SumStages(l: Layer) returns (decoded: seq<real>)
    requires LayerOk(l)
    ensures |decoded| == Total(l)
    ensures forall i :: 0 <= i < |decoded| ==> decoded[i] == VqSum(l, |l.stores|, i)
  {
    decoded := Filled(Total(l), 0.0);
    for s := 0 to |l.stores|
      invariant |decoded| == Total(l)
      invariant forall i :: 0 <= i < |decoded| ==> decoded[i] == VqSum(l, s, i)
    {
      decoded := AddStage(l, s, decoded);
    }
  }

  // The stage sum times the block scales.
  method DecodeDense(l: Layer) returns (w: seq<real>)
    requires LayerOk(l)
    ensures |w| == Total(l)
    ensures forall i :: 0 <= i < |w| ==> w[i] == VqAt(l, i)
  {
    var decoded := SumStages(l);
    var sc := RowMajorScales(l);
    w := seq(|decoded|, i requires 0 <= i < |decoded| => ScaledAt(decoded, sc, l.block, i));
    hide ScaledAt, VqSum, VqAt, LayerOk, BlockScale;
    forall i | 0 <= i < |w|
      ensures w[i] == VqAt(l, i)
    {
      ScaledIsVq(l, decoded, sc, i);
    }
  }

  // (decoded.view(-1, block) * scales[:, None]).view(-1)[i]
  function ScaledAt(decoded: seq<real>, sc: seq<real>, block: pos, i: nat): real {
    Times(At(decoded, i), At(sc, i / block))
  }

  lemma ScaledIsVq(l: Layer, decoded: seq<real>, sc: seq<real>, i: nat)
    requires |l.stores| == |l.codebooks| && i < Total(l)
    requires |decoded| == Total(l) && decoded[i] == VqSum(l, |l.stores|, i)
    requires |sc| == CeilDiv(Total(l), l.block) && forall b :: 0 <= b < |sc| ==> sc[b] == BlockScale(l, b)
    ensures ScaledAt(decoded, sc, l.block, i) == VqAt(l, i)
  {
    hide VqSum, BlockScale, Times;
    PieceInRange(l, l.block, i);
  }

  lemma BlankStore(zeros: seq<nat>, k: nat)
    requires forall q :: 0 <= q < |zeros| ==> zeros[q] == 0
    ensures StoreOk(ToStore(zeros, k), |zeros|)
  {
    if PlaneWidth(k) > 0 {
      EmptyOrPlaned(zeros, PlaneWidth(k));
    }
  }

  // Stage indices in row-major order: transposed back when group-major.
  method RowMajorIndices(l: Layer, s: nat) returns (r: seq<int>)
    requires LayerOk(l) && s < |l.stores|
    ensures |r| == CeilDiv(Total(l), l.group)
    ensures forall q :: 0 <= q < |r| ==> r[q] == VqIndex(l, s, q)
  {
    var n := CeilDiv(Total(l), l.group);
    var idxs := seq(n, q requires 0 <= q < n => ReadStore(l.stores[s], q));
    r := idxs;
    if l.groupMajor && n == Total(l) / l.group && l.rows > 0 {
      PieceCount(l, l.group);
      var gpr := n / l.rows;
      DivModOf(l.cols / l.group, l.rows, 0);
      r := Untranspose(l, l.group, idxs);
    } else if l.groupMajor {
      GroupMajorCounts(l, l.group);
    }
  }

  method RowMajorScales(l: Layer) returns (r: seq<real>)
    requires LayerOk(l)
    ensures |r| == CeilDiv(Total(l), l.block)
    ensures forall b :: 0 <= b < |r| ==> r[b] == BlockScale(l, b)
  {
    var n := CeilDiv(Total(l), l.block);
    r := l.scales;
    if l.groupMajor && |l.scales| == n && l.rows > 0 {
      PieceCount(l, l.block);
      r := Untranspose(l, l.block, l.scales);
    } else if l.groupMajor {
      GroupMajorCounts(l, l.block);
    }
  }

  // buf.view(pieces, rows).t().reshape(-1)
  method Untranspose<T>(l: Layer, piece: pos, buf: seq<T>) returns (r: seq<T>)
    requires l.groupMajor && l.cols % piece == 0 && |buf| == l.rows * (l.cols / piece)
    ensures |r| == |buf|
    ensures forall q :: 0 <= q < |r| ==> Slot(l, piece, q) < |buf| && r[q] == buf[Slot(l, piece, q)]
  {
    var n := l.cols / piece;
    assert |buf| == n * l.rows;
    r := Transpose(buf, n, l.rows);
    forall q | 0 <= q < |r|
      ensures Slot(l, piece, q) < |buf| && r[q] == buf[Slot(l, piece, q)]
    {
      DivBound(q, l.rows, n);
      FlatBound(q % n, q / n, n, l.rows);
    }
  }

  lemma GroupMajorCounts(l: Layer, piece: pos)
    requires l.groupMajor && l.cols % piece == 0
    ensures l.rows == 0 || (CeilDiv(Total(l), piece) == Total(l) / piece)
    ensures l.rows == 0 ==> CeilDiv(Total(l), piece) == 0
  {
    PieceCount(l, piece);
    var n := l.cols / piece;
    assert Total(l) == l.rows * n * piece by { assert l.cols == n * piece; }
    DivModOf(l.rows * n, piece, 0);
  }

  // decoded[flat] += val: gather, add, put back. Places are distinct.
  method AddEntries(decoded: seq<real>, side: Sidecar) returns (r: seq<real>)
    requires Distinct(side, |side|)
    ensures |r| == |decoded|
    ensures forall i :: 0 <= i < |r| ==> r[i] == decoded[i] + Added(side, i)
  {
    r := decoded;
    for j := 0 to |side|
      invariant |r| == |decoded|
      invariant forall i :: 0 <= i < |r| ==> r[i] == decoded[i] + AddedUpTo(side, j, i)
    {
      var p := side[j].0;
      AddedAbsent(side, j, p);
      if 0 <= p < |r| {
        r := r[p := decoded[p] + side[j].1];
      }
    }
  }
}
