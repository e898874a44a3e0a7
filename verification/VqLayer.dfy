// The resident form of a packed layer (orka/inference/_vq_core.py): index
// storage tiers, row-major and group-major layouts, and the element the buffers
// stand for.

module VqLayer {
  import opened Basics
  import opened Layout
  import opened Bits
  import opened IndexCodec
  import opened PlaneReads
  import opened Planes
  import opened Reference

  // ------------------------------------------------------------ storage tiers

  function BitLength(n: nat): nat {
    if n == 0 then 0 else 1 + BitLength(n / 2)
  }

  // Width of the lo/hi planes, 0 for a plain index buffer.
  function PlaneWidth(k: nat): nat {
    var width := if k <= 2 then 1 else BitLength(k - 1);
    if 8 < width <= 12 && (width - 8 == 2 || width - 8 == 4) then width else 0
  }

  datatype Dtype = UInt8 | Int16 | Int32

  function NarrowType(k: nat): Dtype {
    if k <= 256 then UInt8 else if k <= 32768 then Int16 else Int32
  }

  // Tensor.to(dtype): wrap into the width, then reinterpret the sign bit.
  function Cast(v: nat, d: Dtype): int {
    match d
    case UInt8 => v % 0x100
    case Int16 => var u := v % 0x1_0000; if u < 0x8000 then u else u - 0x1_0000
    case Int32 => var u := v % 0x1_0000_0000; if u < 0x8000_0000 then u else u - 0x1_0000_0000
  }

  datatype Store = Narrow(values: seq<int>) | Planed(planes: Planes, width: nat)

  predicate StoreOk(st: Store, n: nat) {
    match st
    case Narrow(values) => |values| == n
    case Planed(p, width) => PlanedStage(p, width) && |p.lo| == n
  }

  // VQLinear._stage_indices_int, one entry.
  function ReadStore(st: Store, q: nat): int {
    match st
    case Narrow(values) => IntAt(values, q)
    case Planed(p, width) => if PlanedStage(p, width) && q < |p.lo| then PlanedIndex(p, width, q) else 0
  }

  function ToStore(indices: seq<nat>, k: nat): Store {
    if PlaneWidth(k) > 0 then Planed(PackIndexPlanes(indices, PlaneWidth(k)), PlaneWidth(k))
    else Narrow(seq(|indices|, q requires 0 <= q < |indices| => Cast(indices[q], NarrowType(k))))
  }

  lemma {:induction false} BitLengthBound(n: nat)
    ensures n < Pow2(BitLength(n))
  {
    if n > 0 {
      BitLengthBound(n / 2);
    }
  }

  lemma {:induction false} BitLengthIff(n: nat, w: pos)
    ensures BitLength(n) == w <==> Pow2(w - 1) <= n < Pow2(w)
  {
    if n > 0 {
      if w > 1 {
        BitLengthIff(n / 2, w - 1);
        assert Pow2(w) == 2 * Pow2(w - 1) && Pow2(w - 1) == 2 * Pow2(w - 2);
      } else {
        BitLengthBound(n / 2);
        assert Pow2(1) == 2 && Pow2(0) == 1;
      }
    }
  }

  // Which codebooks go to planes, and the narrowest type of the others.
  lemma TierIff(k: nat)
    ensures PlaneWidth(k) == 10 <==> 512 < k <= 1024
    ensures PlaneWidth(k) == 12 <==> 2048 < k <= 4096
    ensures PlaneWidth(k) > 0 ==> PlaneWidth(k) == 10 || PlaneWidth(k) == 12
    ensures NarrowType(k) == UInt8 <==> k <= 256
    ensures NarrowType(k) == Int16 <==> 256 < k <= 32768
  {
    if k > 2 {
      BitLengthIff(k - 1, 10);
      BitLengthIff(k - 1, 12);
      Pow2Eight();
      assert Pow2(9) == 512 && Pow2(10) == 1024 && Pow2(11) == 2048 && Pow2(12) == 4096;
    }
  }

  // No tier loses an index, up to the 2^31 entries an int32 buffer can address.
  lemma StoreRoundTrip(indices: seq<nat>, k: nat)
    requires k <= 0x8000_0000 && forall q :: 0 <= q < |indices| ==> indices[q] < k
    ensures StoreOk(ToStore(indices, k), |indices|)
    ensures forall q :: 0 <= q < |indices| ==> ReadStore(ToStore(indices, k), q) == indices[q]
  {
    var width := PlaneWidth(k);
    if width > 0 {
      BitLengthBound(k - 1);
      var p := PackIndexPlanes(indices, width);
      EmptyOrPlaned(indices, width);
      forall q | 0 <= q < |indices|
        ensures ReadStore(Planed(p, width), q) == indices[q]
      {
        PlanedRoundTrip(indices, width, q);
      }
    }
  }

  lemma EmptyOrPlaned(indices: seq<nat>, width: nat)
    requires width > 8 && ByteDivisor(width - 8)
    ensures PlanedStage(PackIndexPlanes(indices, width), width)
  {
    WholeLength(HighPart(indices), width - 8);
  }

  // ------------------------------------------------------------------- layouts

  datatype Layer = Layer(
    rows: nat, cols: nat, group: pos, block: pos,
    stores: seq<Store>, codebooks: seq<seq<real>>, scales: seq<real>,
    groupMajor: bool)

  function Total(l: Layer): nat {
    l.rows * l.cols
  }

  // Buffer position of row-major piece q, for pieces of `piece` columns.
  function Slot(l: Layer, piece: pos, q: nat): nat {
    if l.groupMajor && l.cols / piece > 0
    then Flat(q % (l.cols / piece), l.rows, q / (l.cols / piece)) else q
  }

  function VqIndex(l: Layer, s: nat, q: nat): int
    requires s < |l.stores|
  {
    ReadStore(l.stores[s], Slot(l, l.group, q))
  }

  function VqTerm(l: Layer, s: nat, i: nat): real
    requires s < |l.stores| == |l.codebooks|
  {
    CodeAt(l.codebooks[s], VqIndex(l, s, i / l.group), l.group, i % l.group)
  }

  function VqSum(l: Layer, n: nat, i: nat): real
    requires n <= |l.stores| == |l.codebooks|
  {
    if n == 0 then 0.0 else VqSum(l, n - 1, i) + VqTerm(l, n - 1, i)
  }

  function BlockScale(l: Layer, b: nat): real {
    At(l.scales, Slot(l, l.block, b))
  }

  // The dense element i before correction.
  function VqAt(l: Layer, i: nat): real
    requires |l.stores| == |l.codebooks|
  {
    Times(VqSum(l, |l.stores|, i), BlockScale(l, i / l.block))
  }

  predicate Aligned(l: Layer) {
    l.cols % l.group == 0 && l.cols % l.block == 0
  }

  predicate LayerOk(l: Layer) {
    && |l.stores| == |l.codebooks|
    && (forall s :: 0 <= s < |l.stores| ==> StoreOk(l.stores[s], CeilDiv(Total(l), l.group)))
    && |l.scales| == CeilDiv(Total(l), l.block)
    && (l.groupMajor ==> Aligned(l) && forall s :: 0 <= s < |l.stores| ==> l.stores[s].Narrow?)
  }

  // What the buffers must hold to stand for t's stages and scales.
  ghost predicate Holds(l: Layer, t: Tensor) {
    && l.rows * l.cols == t.packed && l.group == t.group && l.block == t.block
    && |l.stores| == |l.codebooks| == |t.stages|
    && (forall s :: 0 <= s < |l.stores| ==> l.codebooks[s] == t.stages[s].codebook)
    && (forall s, q :: 0 <= s < |l.stores| && 0 <= q < CeilDiv(Total(l), l.group) ==> VqIndex(l, s, q) == IntAt(t.stages[s].indices, q))
    && (forall b :: 0 <= b < CeilDiv(Total(l), l.block) ==> BlockScale(l, b) == ScaleOfBlock(t, b))
  }

  function ScaleOfBlock(t: Tensor, b: nat): real {
    if t.scales.Some? && b < |t.scales.value| then t.scales.value[b] else 1.0
  }

  lemma PieceInRange(l: Layer, piece: pos, i: nat)
    requires i < Total(l)
    ensures i / piece < CeilDiv(Total(l), piece)
  {
    CeilDivCovers(Total(l), piece);
    DivBound(i, CeilDiv(Total(l), piece), piece);
  }

  lemma TermAgrees(l: Layer, t: Tensor, s: nat, i: nat)
    requires Holds(l, t) && s < |l.stores| && i < Total(l) && t.stages[s].group == t.group
    ensures VqTerm(l, s, i) == Gather(t.stages[s], i)
  {
    PieceInRange(l, l.group, i);
    assert VqIndex(l, s, i / l.group) == IntAt(t.stages[s].indices, i / l.group);
  }

  lemma {:induction false} SumsAgree(l: Layer, stages: seq<Stage>, n: nat, i: nat)
    requires n <= |l.stores| == |l.codebooks| == |stages|
    requires forall s :: 0 <= s < n ==> VqTerm(l, s, i) == Gather(stages[s], i)
    ensures VqSum(l, n, i) == StageSum(stages, n, i)
  {
    if n > 0 {
      SumsAgree(l, stages, n - 1, i);
    }
  }

  lemma StagesAgree(l: Layer, t: Tensor, i: nat)
    requires Holds(l, t) && i < Total(l)
    requires forall s :: 0 <= s < |t.stages| ==> t.stages[s].group == t.group
    ensures VqSum(l, |l.stores|, i) == StageSum(t.stages, |t.stages|, i)
  {
    forall s | 0 <= s < |l.stores|
      ensures VqTerm(l, s, i) == Gather(t.stages[s], i)
    {
      TermAgrees(l, t, s, i);
    }
    SumsAgree(l, t.stages, |l.stores|, i);
  }

  lemma ScalesAgree(l: Layer, t: Tensor, i: nat)
    requires Holds(l, t) && i < Total(l)
    ensures BlockScale(l, i / l.block) == ScaleAt(t.scales, t.block, i)
  {
    PieceInRange(l, l.block, i);
    assert BlockScale(l, i / l.block) == ScaleOfBlock(t, i / l.block);
  }

  lemma HoldsAt(l: Layer, t: Tensor, i: nat)
    requires Holds(l, t) && i < Total(l)
    requires forall s :: 0 <= s < |t.stages| ==> t.stages[s].group == t.group
    ensures VqAt(l, i) == Scaled(StageSum(t.stages, |t.stages|, i), t.scales, t.block, i)
  {
    StagesAgree(l, t, i);
    ScalesAgree(l, t, i);
    var sum, scale := VqSum(l, |l.stores|, i), BlockScale(l, i / l.block);
    assert VqAt(l, i) == Times(sum, scale);
    assert Scaled(sum, t.scales, t.block, i) == Times(sum, scale);
  }

  // ------------------------------------------------------------ transposition

  // s.view(rows, cols).t().reshape(-1)
  function Transpose<T>(s: seq<T>, rows: nat, cols: nat): (r: seq<T>)
    requires |s| == rows * cols
    ensures |r| == |s|
  {
    seq(|s|, q requires 0 <= q < |s| => s[TransposedFrom(q, rows, cols)])
  }

  function TransposedFrom(q: nat, rows: nat, cols: nat): (p: nat)
    requires q < rows * cols
    ensures p < rows * cols
  {
    DivBound(q, cols, rows);
    FlatBound(q % rows, q / rows, rows, cols);
    Flat(q % rows, cols, q / rows)
  }

  // Element (r, c) moves to column-major place (c, r).
  lemma TransposeAt<T>(s: seq<T>, rows: nat, cols: nat, r: nat, c: nat)
    requires |s| == rows * cols && r < rows && c < cols
    ensures 0 <= Flat(c, rows, r) < |s| && 0 <= Flat(r, cols, c) < |s|
    ensures Transpose(s, rows, cols)[Flat(c, rows, r)] == s[Flat(r, cols, c)]
  {
    FlatBound(c, r, cols, rows);
    FlatBound(r, c, rows, cols);
    DivModOf(c, rows, r);
  }

  lemma PieceCount(l: Layer, piece: pos)
    requires l.cols % piece == 0
    ensures CeilDiv(Total(l), piece) == l.rows * (l.cols / piece)
  {
    var n := l.cols / piece;
    assert l.cols == n * piece;
    assert l.rows * (n * piece) == l.rows * n * piece;
    CeilDivExact(l.rows * n, piece);
  }

  // Reading a transposed buffer at the group-major slot is reading the
  // row-major buffer at the row-major slot.
  lemma TransposedSlot<T>(l: Layer, piece: pos, s: seq<T>, q: nat)
    requires l.cols % piece == 0 && l.groupMajor
    requires |s| == l.rows * (l.cols / piece) && q < |s|
    ensures Slot(l, piece, q) < |s|
    ensures Transpose(s, l.rows, l.cols / piece)[Slot(l, piece, q)] == s[q]
  {
    var n := l.cols / piece;
    DivBound(q, l.rows, n);
    TransposeAt(s, l.rows, n, q / n, q % n);
  }
}
