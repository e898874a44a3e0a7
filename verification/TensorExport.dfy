// Exporting a packed tensor: the side payload against the reference decode, and
// the plain exporter's dense reference, which leaves the correction out.

module TensorExport {
  import opened Basics
  import opened Layout
  import opened Bits
  import opened Planes
  import opened Reference
  import opened CsrMatrix
  import opened VqLayer
  import opened VqLinear
  import opened VqBuild
  import opened Exporter

  // ------------------------------------------------- from the entry to the payload

  // Codebook sizes whose rounded width loses no index.
  ghost predicate KeepsAll(t: Tensor, ws: seq<nat>) {
    && |ws| == |t.stages|
    && forall s :: 0 <= s < |ws| ==>
         t.stages[s].k > 0 && RoundedLog(t.stages[s].k, ws[s]) && (t.stages[s].k <= 256 || t.stages[s].k <= Pow2(ws[s]))
  }

  function Widths(ws: seq<nat>): (r: seq<nat>)
    ensures |r| == |ws|
  {
    seq(|ws|, s requires 0 <= s < |ws| => ExportWidth(ws[s]))
  }

  lemma BuiltFits(l: Layer, t: Tensor)
    requires Buildable(t) && Holds(l, t) && Aligned(l)
    ensures IndicesFit(l, Ks(t))
  {
    PieceCount(l, l.group);
    StageCounts(t);
    forall s, q: nat | 0 <= s < |l.stores| && q < l.rows * (l.cols / l.group)
      ensures 0 <= VqIndex(l, s, q) < Ks(t)[s]
    {
      assert VqIndex(l, s, q) == IntAt(t.stages[s].indices, q);
      assert StageOk(t.stages[s], t.group, t.padded);
    }
  }

  lemma RoundedWidthsKeep(t: Tensor, ws: seq<nat>)
    requires KeepsAll(t, ws)
    ensures WidthsKeep(Ks(t), Widths(ws))
  {
    forall s | 0 <= s < |ws|
      ensures Ks(t)[s] <= Pow2(KeptBits(Widths(ws)[s]))
    {
      KeptAtLeast(t.stages[s].k, ws[s]);
    }
  }

  // Packing a tensor, exporting it with its rows permuted and reading the
  // payload back gives the permuted reference weight.
  method ExportTensor(t: Tensor, ws: seq<nat>, perm: Option<seq<nat>>) returns (p: Payload)
    requires Buildable(t) && t.cols % t.group == 0 && t.cols % t.block == 0
    requires KeepsAll(t, ws) && PermutesRows(perm, t.rows)
    ensures forall m, c: nat :: 0 <= m < t.rows && c < t.cols ==>
      Flat(Source(perm, m), t.cols, c) >= 0 && PayloadAt(p, m, c) == BaseWeight(Served(t), Flat(Source(perm, m), t.cols, c))
  {
    var layer := BuildVqLinear(t, None);
    ghost var l, csr := layer.Payload(), layer.CorrectionCsr();
    BuiltFits(l, t);
    RoundedWidthsKeep(t, ws);
    assert csr.Some? ==> csr == Some(layer.RawCsr());
    p := SidePayload(layer.Payload(), Ks(t), layer.RawCsr(), Widths(ws), perm);
    forall m, c: nat | 0 <= m < t.rows && c < t.cols
      ensures Flat(Source(perm, m), t.cols, c) >= 0
      ensures PayloadAt(p, m, c) == BaseWeight(Served(t), Flat(Source(perm, m), t.cols, c))
    {
      ServedAt(l, csr, layer.RawCsr(), t, perm, m, c);
    }
  }

  lemma ServedAt(l: Layer, csr: Option<Csr>, raw: Csr, t: Tensor, perm: Option<seq<nat>>, m: nat, c: nat)
    requires Serves(l, csr, t) && t.packed == t.rows * t.cols
    requires csr == if raw.col != [] then Some(raw) else None
    requires PermutesRows(perm, t.rows) && m < t.rows && c < t.cols
    ensures 0 <= Flat(Source(perm, m), t.cols, c) < t.packed
    ensures Exporter.Corrected(l, raw, Flat(Source(perm, m), t.cols, c)) == BaseWeight(Served(t), Flat(Source(perm, m), t.cols, c))
  {
    SourceInRange(perm, t.rows, m);
    FlatBound(Source(perm, m), c, t.rows, t.cols);
  }

  // -------------------------------------------------- the plain exporter's reference

  // Row m, and all rows, of the matrix whose flat element i is f(i).
  ghost predicate IsRow(row: seq<real>, m: nat, cols: nat, f: int -> real) {
    |row| == cols && forall c :: 0 <= c < cols ==> row[c] == f(Flat(m, cols, c))
  }

  ghost predicate IsMatrix(w: seq<seq<real>>, rows: nat, cols: nat, f: int -> real) {
    |w| == rows && forall m :: 0 <= m < rows ==> IsRow(w[m], m, cols, f)
  }

  ghost function Bare(l: Layer): int -> real
    requires |l.stores| == |l.codebooks|
  {
    (i: int) => if i >= 0 then VqAt(l, i) else 0.0
  }

  ghost function Dense(w: seq<real>): int -> real {
    (i: int) => At(w, i)
  }

  ghost function StagesOf(t: Tensor): int -> real {
    (i: int) => if i >= 0 then StagesOnly(t, i) else 0.0
  }

  ghost function ServedOf(t: Tensor): int -> real {
    (i: int) => if i >= 0 then BaseWeight(Served(t), i) else 0.0
  }

  // Two descriptions of one matrix agree exactly when they agree at every place.
  lemma MatrixIff(w: seq<seq<real>>, rows: nat, cols: nat, f: int -> real, g: int -> real)
    requires IsMatrix(w, rows, cols, f)
    ensures IsMatrix(w, rows, cols, g) <==> forall i :: 0 <= i < rows * cols ==> f(i) == g(i)
  {
    if IsMatrix(w, rows, cols, g) {
      forall i | 0 <= i < rows * cols
        ensures f(i) == g(i)
      {
        DivBound(i, rows, cols);
        var m, c: nat := i / cols, i % cols;
        assert IsRow(w[m], m, cols, f) && IsRow(w[m], m, cols, g);
        assert w[m][c] == f(Flat(m, cols, c)) == g(Flat(m, cols, c));
        assert Flat(m, cols, c) == i;
      }
    }
    if forall i :: 0 <= i < rows * cols ==> f(i) == g(i) {
      forall m: nat, c: nat | m < rows && c < cols
        ensures w[m][c] == g(Flat(m, cols, c))
      {
        assert IsRow(w[m], m, cols, f);
        FlatBound(m, c, rows, cols);
      }
      assert forall m :: 0 <= m < rows ==> IsRow(w[m], m, cols, f);
    }
  }

  // dequant_linear as a matrix of flat elements.
  method DequantMatrix(l: Layer) returns (w: seq<seq<real>>)
    requires Aligned(l) && LayerOk(l)
    ensures IsMatrix(w, l.rows, l.cols, Bare(l))
  {
    w := DequantLinear(l);
    hide VqAt;
    forall m | 0 <= m < l.rows
      ensures IsRow(w[m], m, l.cols, Bare(l))
    {
    }
  }

  // dequant_linear on a layer's buffers is what reconstruct_weight gives exactly
  // when the layer's correction is zero everywhere.
  method DequantLayer(layer: VQLinear) returns (w: seq<seq<real>>, dense: seq<real>)
    requires layer.Valid() && Aligned(layer.Payload())
    ensures |dense| == layer.rows * layer.cols && forall i :: 0 <= i < |dense| ==> dense[i] == layer.WeightAt(i)
    ensures IsMatrix(w, layer.rows, layer.cols, Bare(layer.Payload()))
    ensures IsMatrix(w, layer.rows, layer.cols, Dense(dense))
       <==> forall i :: 0 <= i < layer.rows * layer.cols ==> layer.CorrectionAt(i) == 0.0
  {
    w := DequantMatrix(layer.Payload());
    dense := layer.ReconstructWeight();
    hide IsMatrix, VqAt, CsrAt;
    MatrixIff(w, layer.rows, layer.cols, Bare(layer.Payload()), Dense(dense));
    forall i | 0 <= i < layer.rows * layer.cols
      ensures Bare(layer.Payload())(i) == Dense(dense)(i) <==> layer.CorrectionAt(i) == 0.0
    {
      assert dense[i] == layer.WeightAt(i);
    }
  }

  // From an entry: the export holds the stages alone, which is the reference
  // weight when the entry keeps nothing out of them.
  method DequantTensor(t: Tensor) returns (w: seq<seq<real>>)
    requires Buildable(t) && t.cols % t.group == 0 && t.cols % t.block == 0
    ensures IsMatrix(w, t.rows, t.cols, StagesOf(t))
    ensures IsMatrix(w, t.rows, t.cols, ServedOf(t)) <==> forall i :: 0 <= i < t.rows * t.cols ==> StagesOnly(t, i) == BaseWeight(Served(t), i)
    ensures !Corrects(t) ==> IsMatrix(w, t.rows, t.cols, ServedOf(t))
  {
    var layer := BuildVqLinear(t, None);
    ghost var l, csr := layer.Payload(), layer.CorrectionCsr();
    w := DequantMatrix(layer.Payload());
    BareElements(l, csr, t);
    hide IsMatrix, StagesOnly, BaseWeight, VqAt, Built, Buildable;
    MatrixIff(w, t.rows, t.cols, Bare(l), StagesOf(t));
    MatrixIff(w, t.rows, t.cols, StagesOf(t), ServedOf(t));
    assert forall i :: 0 <= i < t.rows * t.cols ==>
      (StagesOnly(t, i) == BaseWeight(Served(t), i) <==> StagesOf(t)(i) == ServedOf(t)(i));
  }

  lemma BareElements(l: Layer, csr: Option<Csr>, t: Tensor)
    requires Built(l, csr, t) && Buildable(t)
    ensures forall i :: 0 <= i < t.rows * t.cols ==> Bare(l)(i) == StagesOf(t)(i)
    ensures !Corrects(t) ==> forall i :: 0 <= i < t.rows * t.cols ==> StagesOnly(t, i) == BaseWeight(Served(t), i)
  {
    assert t.packed == t.rows * t.cols;
    forall i | 0 <= i < t.rows * t.cols
      ensures Bare(l)(i) == StagesOf(t)(i)
      ensures !Corrects(t) ==> StagesOnly(t, i) == BaseWeight(Served(t), i)
    {
      HoldsAt(l, t, i);
    }
  }

  // One outlier of 1 over stages of 0: exported as 0.
  method DequantDropsOutlier() returns (w: seq<seq<real>>)
    ensures Buildable(PlanedOutlier()) && Weight(PlanedOutlier(), 0) == 1.0
    ensures w == [[0.0]]
  {
    OutlierShape();
    hide StagesOnly, Buildable, Weight, PlanedOutlier, IsMatrix;
    w := DequantTensor(PlanedOutlier());
    ZeroMatrix(w, StagesOf(PlanedOutlier()));
  }

  lemma OutlierShape()
    ensures var t := PlanedOutlier();
      Buildable(t) && t.rows == t.cols == t.group == t.block == 1 && Weight(t, 0) == 1.0 && StagesOnly(t, 0) == 0.0
  {
    PlanedOutlierFacts();
    ServedIsReference(PlanedOutlier(), 0);
  }

  lemma ZeroMatrix(w: seq<seq<real>>, f: int -> real)
    requires IsMatrix(w, 1, 1, f) && f(0) == 0.0
    ensures w == [[0.0]]
  {
    assert IsRow(w[0], 0, 1, f);
    assert w == [w[0]];
    hide IsMatrix;
    ZeroRow(w[0], f);
  }

  lemma ZeroRow(row: seq<real>, f: int -> real)
    requires IsRow(row, 0, 1, f) && f(0) == 0.0
    ensures row == [0.0]
  {
    assert row[0] == f(Flat(0, 1, 0));
    assert row == [row[0]];
  }

  // --------------------------------------------------- the plain exporter's indices

  // cb[i] where the exported index i is a signed 16-bit number: a negative one
  // counts from the end.
  function RowRead(k: int, i: int): Option<int> {
    if 0 <= i < k then Some(i) else if 0 <= k + i < k then Some(k + i) else None
  }

  ghost predicate EveryRowRead(k: nat) {
    forall v: nat :: v < k ==> RowRead(k, Cast(v, Int16)) == Some(v)
  }

  // Every row of a codebook is read back through a 16-bit index exactly for up
  // to 32768 rows, and for 65536, where counting from the end comes out right.
  lemma EveryRowReadIff(k: nat)
    ensures EveryRowRead(k) <==> k <= 0x8000 || k == 0x1_0000
  {
    if k > 0x8000 && k != 0x1_0000 {
      assert Cast(0x8000, Int16) == -0x8000;
      assert RowRead(k, Cast(0x8000, Int16)) != Some(0x8000);
    } else {
      forall v: nat | v < k
        ensures RowRead(k, Cast(v, Int16)) == Some(v)
      {
        assert v % 0x1_0000 == v;
      }
    }
  }
}
