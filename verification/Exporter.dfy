// The GGUF exporters (scripts/export_gguf_orka.py, orka/artifact/export_gguf.py):
// the side payload of a layer with its rows permuted, the index width it is
// packed at, and the dense reference of the export.

module Exporter {
  import opened Basics
  import opened Layout
  import opened Sums
  import opened Bits
  import opened Planes
  import opened Reference
  import opened CsrMatrix
  import opened VqLayer
  import opened RowPermutation
  import Sorting

  // ------------------------------------------------------------ the index width

  // w == round(log2(k)): 2^(w - 1/2) <= k < 2^(w + 1/2).
  ghost predicate RoundedLog(k: pos, w: nat) {
    Pow2(2 * w) <= 2 * (k * k) < 4 * Pow2(2 * w)
  }

  function ExportWidth(w: nat): nat {
    if w < 1 then 1 else w
  }

  ghost predicate Below(indices: seq<nat>, k: nat) {
    forall i :: 0 <= i < |indices| ==> indices[i] < k
  }

  ghost predicate AllSurvive(indices: seq<nat>, width: nat) {
    forall i :: 0 <= i < |indices| ==> Survives(indices, width, i)
  }

  // Every index stream of a codebook of k rows survives the export exactly
  // when the bits the planes keep can count to k.
  lemma WidthLosslessIff(k: pos, w: nat)
    requires RoundedLog(k, w)
    ensures (forall indices {:trigger Below(indices, k)} :: Below(indices, k) ==> AllSurvive(indices, ExportWidth(w)))
       <==> k <= 256 || k <= Pow2(w)
  {
    var width := ExportWidth(w);
    Pow2Eight();
    KeptAtLeast(k, w);
    forall indices | Below(indices, k) && k <= Pow2(KeptBits(width))
      ensures AllSurvive(indices, width)
    {
      PlanesLosslessIff(indices, width);
    }
    if k > Pow2(KeptBits(width)) {
      var last: seq<nat> := [k - 1];
      assert Below(last, k);
      PlanesLosslessIff(last, width);
      assert last[0] >= Pow2(KeptBits(width));
    }
  }

  lemma KeptAtLeast(k: pos, w: nat)
    requires RoundedLog(k, w)
    ensures k <= Pow2(KeptBits(ExportWidth(w))) <==> k <= 256 || k <= Pow2(w)
  {
    Pow2Eight();
    if w <= 8 {
      Pow2Mono(w, 8);
    } else {
      Pow2Mono(8, w);
    }
  }

  // A power of two rounds to its own exponent, and all its indices survive.
  lemma PowerOfTwoLossless(w: nat, indices: seq<nat>)
    requires Below(indices, Pow2(w))
    ensures RoundedLog(Pow2(w), w) && AllSurvive(indices, ExportWidth(w))
  {
    Pow2Add(w, w);
    WidthLosslessIff(Pow2(w), w);
  }

  // 320 rows round down to 8 bits: row 319 is read back as row 63.
  lemma RoundedDownLosesIndices()
    ensures RoundedLog(320, 8) && SequentialIndex(PackIndexPlanes([319], ExportWidth(8)), ExportWidth(8), 0) == 63
  {
    Pow2Eight();
    Pow2Add(8, 8);
    PlaneOfPack([319], 8, 0);
  }

  // ------------------------------------------------------------ the side payload

  datatype PayloadStage = PayloadStage(planes: Planes, width: nat, codebook: seq<real>)

  datatype Payload = Payload(
    rows: nat, cols: nat, group: pos, block: pos,
    stages: seq<PayloadStage>, scales: seq<real>, correction: Option<Csr>)

  // What a reader of the export takes element (m, c) to be.
  function StageElement(p: Payload, st: PayloadStage, m: nat, c: nat): real {
    var at := Flat(m, p.cols / p.group, c / p.group);
    var idx := if at < |st.planes.lo| && (st.width > 8 ==> CoversAt(st.planes.hi, st.width - 8, at))
               then SequentialIndex(st.planes, st.width, at) else 0;
    CodeAt(st.codebook, idx, p.group, c % p.group)
  }

  function StageElements(p: Payload, n: nat, m: nat, c: nat): real
    requires n <= |p.stages|
  {
    if n == 0 then 0.0 else StageElements(p, n - 1, m, c) + StageElement(p, p.stages[n - 1], m, c)
  }

  function CorrectionElement(p: Payload, m: nat, c: nat): real {
    if p.correction.Some? && Shaped(p.correction.value, p.rows, p.cols)
    then CsrAt(p.correction.value, p.rows, p.cols, Flat(m, p.cols, c)) else 0.0
  }

  function PayloadAt(p: Payload, m: nat, c: nat): real {
    Times(StageElements(p, |p.stages|, m, c), At(p.scales, Flat(m, p.cols / p.block, c / p.block)))
    + CorrectionElement(p, m, c)
  }

  // Row m of the permuted layer; no permutation stands for the identity.
  function Source(perm: Option<seq<nat>>, m: nat): nat {
    if perm.Some? && m < |perm.value| then perm.value[m] else m
  }

  // reshape to [M, n] (through the transpose for a group-major buffer), then
  // take the permuted rows: entry q of the flattened result.
  function PlaceOf(l: Layer, piece: pos, perm: Option<seq<nat>>, q: nat): nat {
    var n := l.cols / piece;
    if n == 0 then q
    else
      var r := Source(perm, q / n);
      if l.groupMajor then Flat(q % n, l.rows, r) else Flat(r, n, q % n)
  }

  lemma PlaceIsSlot(l: Layer, piece: pos, perm: Option<seq<nat>>, m: nat, g: nat)
    requires g < l.cols / piece
    ensures PlaceOf(l, piece, perm, Flat(m, l.cols / piece, g)) == Slot(l, piece, Flat(Source(perm, m), l.cols / piece, g))
  {
    DivModOf(m, l.cols / piece, g);
    DivModOf(Source(perm, m), l.cols / piece, g);
  }

  function Natural(v: int): nat {
    if v >= 0 then v else 0
  }

  function PermutedIndices(l: Layer, s: nat, perm: Option<seq<nat>>): (r: seq<nat>)
    requires s < |l.stores|
    ensures |r| == l.rows * (l.cols / l.group)
  {
    seq(l.rows * (l.cols / l.group), q requires 0 <= q < l.rows * (l.cols / l.group) =>
      Natural(ReadStore(l.stores[s], PlaceOf(l, l.group, perm, q))))
  }

  function PermutedScales(l: Layer, perm: Option<seq<nat>>): seq<real> {
    seq(l.rows * (l.cols / l.block), q requires 0 <= q < l.rows * (l.cols / l.block) =>
      At(l.scales, PlaceOf(l, l.block, perm, q)))
  }

  // The layer's indices address codebooks of ks[s] rows.
  ghost predicate IndicesFit(l: Layer, ks: seq<nat>) {
    && |ks| == |l.stores|
    && forall s, q: nat {:trigger VqIndex(l, s, q)} :: 0 <= s < |l.stores| && q < l.rows * (l.cols / l.group) ==> 0 <= VqIndex(l, s, q) < ks[s]
  }

  // Widths at which no index of ks[s] rows is lost.
  ghost predicate WidthsKeep(ks: seq<nat>, widths: seq<nat>) {
    |widths| == |ks| && forall s :: 0 <= s < |ks| ==> ks[s] <= Pow2(KeptBits(widths[s]))
  }

  ghost predicate PermutesRows(perm: Option<seq<nat>>, n: nat) {
    perm.Some? ==> IsPermutation(perm.value, n)
  }

  lemma SourceInRange(perm: Option<seq<nat>>, n: nat, m: nat)
    requires PermutesRows(perm, n) && m < n
    ensures Source(perm, m) < n
  {
  }

  // ------------------------------------------- permuting keeps what is decoded

  lemma StageCommutes(l: Layer, ks: seq<nat>, p: Payload, s: nat, width: nat, perm: Option<seq<nat>>, m: nat, c: nat)
    requires Aligned(l) && |l.stores| == |l.codebooks| && IndicesFit(l, ks) && PermutesRows(perm, l.rows)
    requires s < |l.stores| && m < l.rows && c < l.cols && ks[s] <= Pow2(KeptBits(width))
    requires p.cols == l.cols && p.group == l.group
    ensures Flat(Source(perm, m), l.cols, c) >= 0
    ensures StageElement(p, PayloadStage(PackIndexPlanes(PermutedIndices(l, s, perm), width), width, l.codebooks[s]), m, c)
         == VqTerm(l, s, Flat(Source(perm, m), l.cols, c))
  {
    hide CodeAt, PackIndexPlanes, SequentialIndex;
    var n, g, r := l.cols / l.group, c / l.group, Source(perm, m);
    SourceInRange(perm, l.rows, m);
    ExactDiv(l.cols, l.group);
    DivBound(c, n, l.group);
    RowPiece(r, c, l.cols, l.group);
    FlatBound(m, g, l.rows, n);
    FlatBound(r, g, l.rows, n);
    PlaceIsSlot(l, l.group, perm, m, g);
    var idx := PermutedIndices(l, s, perm);
    var at := Flat(m, n, g);
    assert idx[at] == VqIndex(l, s, Flat(r, n, g));
    PlaneOfPack(idx, width, at);
    BelowModulus(idx[at], Pow2(KeptBits(width)));
  }

  lemma ScaleCommutes(l: Layer, perm: Option<seq<nat>>, m: nat, c: nat)
    requires Aligned(l) && PermutesRows(perm, l.rows) && m < l.rows && c < l.cols
    ensures Flat(Source(perm, m), l.cols, c) >= 0
    ensures At(PermutedScales(l, perm), Flat(m, l.cols / l.block, c / l.block))
         == BlockScale(l, Flat(Source(perm, m), l.cols, c) / l.block)
  {
    var n, b, r := l.cols / l.block, c / l.block, Source(perm, m);
    SourceInRange(perm, l.rows, m);
    ExactDiv(l.cols, l.block);
    DivBound(c, n, l.block);
    RowPiece(r, c, l.cols, l.block);
    FlatBound(m, b, l.rows, n);
    PlaceIsSlot(l, l.block, perm, m, b);
  }

  // ------------------------------------------------------- permuting the CSR rows

  // The values a row stores for column c.
  function RowAdded(cols: seq<int>, vals: seq<real>, c: int): real
    requires |cols| == |vals|
  {
    if |cols| == 0 then 0.0
    else
      RowAdded(cols[..|cols| - 1], vals[..|vals| - 1], c)
      + (if cols[|cols| - 1] == c then vals[|vals| - 1] else 0.0)
  }

  lemma RowAddedNext(cols: seq<int>, vals: seq<real>, lo: nat, hi: nat, c: int)
    requires lo < hi <= |cols| == |vals|
    ensures RowAdded(cols[lo..hi], vals[lo..hi], c)
         == RowAdded(cols[lo..hi - 1], vals[lo..hi - 1], c) + (if cols[hi - 1] == c then vals[hi - 1] else 0.0)
  {
    assert cols[lo..hi][..hi - lo - 1] == cols[lo..hi - 1];
    assert vals[lo..hi][..hi - lo - 1] == vals[lo..hi - 1];
  }

  lemma EntryPlace(x: Csr, m: nat, k: nat, row: nat, c: nat, j: nat)
    requires Shaped(x, m, k) && row < m && c < k && j < |x.col|
    ensures Entries(x, m, k)[j].1 == x.val[j]
    ensures Entries(x, m, k)[j].0 == Flat(row, k, c) <==> x.rowptr[row] <= j < x.rowptr[row + 1] && x.col[j] == c
  {
    var rows := ExpandRows(x.rowptr, m);
    assert x.rowptr[row] <= x.rowptr[row + 1] <= x.rowptr[m];
    SamePlace(rows[j], x.col[j], row, c, k);
  }

  lemma {:induction false} EntriesUpTo(x: Csr, m: nat, k: nat, row: nat, c: nat, lo: nat, hi: nat, n: nat)
    requires Shaped(x, m, k) && row < m && c < k && n <= |x.col|
    requires lo == x.rowptr[row] && hi == x.rowptr[row + 1] && lo <= hi <= |x.col|
    ensures AddedUpTo(Entries(x, m, k), n, Flat(row, k, c))
         == if n <= lo then 0.0
            else if n <= hi then RowAdded(x.col[lo..n], x.val[lo..n], c)
            else RowAdded(x.col[lo..hi], x.val[lo..hi], c)
  {
    hide Entries, Shaped;
    if n > 0 {
      EntriesUpTo(x, m, k, row, c, lo, hi, n - 1);
      EntryPlace(x, m, k, row, c, n - 1);
      SameLengths(x, m, k);
      if lo < n <= hi {
        RowAddedNext(x.col, x.val, lo, n, c);
      }
    }
  }

  lemma SameLengths(x: Csr, m: nat, k: nat)
    requires Shaped(x, m, k)
    ensures |x.col| == |x.val|
  {
  }

  // An element of the sparse matrix is read off its row's slice.
  lemma CsrRow(x: Csr, m: nat, k: nat, row: nat, c: nat)
    requires Shaped(x, m, k) && row < m && c < k
    ensures 0 <= x.rowptr[row] <= x.rowptr[row + 1] <= |x.col|
    ensures CsrAt(x, m, k, Flat(row, k, c))
         == RowAdded(x.col[x.rowptr[row]..x.rowptr[row + 1]], x.val[x.rowptr[row]..x.rowptr[row + 1]], c)
  {
    hide Entries, RowAdded;
    RowBounds(x, m, k, row);
    EntriesUpTo(x, m, k, row, c, x.rowptr[row], x.rowptr[row + 1], |x.col|);
    EmptyRow(c);
    if x.rowptr[row] == |x.col| {
      assert x.col[x.rowptr[row]..x.rowptr[row + 1]] == [] && x.val[x.rowptr[row]..x.rowptr[row + 1]] == [];
    }
  }

  lemma EmptyRow(c: int)
    ensures RowAdded([], [], c) == 0.0
  {
  }

  // ------------------------------------------------ a sum over permuted indices

  function PermKey(perm: seq<nat>): int -> int {
    (i: int) => if 0 <= i < |perm| then perm[i] as int else -1
  }

  function ThroughPerm(perm: seq<nat>, f: int -> real): int -> real {
    (i: int) => f(PermKey(perm)(i))
  }

  lemma {:induction false} AbsentGroup(perm: seq<nat>, g: int -> real, r: nat, n: nat)
    requires n <= |perm| && forall i :: 0 <= i < n ==> perm[i] != r
    ensures GroupSum(PermKey(perm), g, r, n) == 0.0
  {
    if n > 0 {
      AbsentGroup(perm, g, r, n - 1);
    }
  }

  lemma {:induction false} OnceInGroup(perm: seq<nat>, g: int -> real, at: nat, n: nat)
    requires at < n <= |perm| && RowPermutation.Distinct(perm)
    ensures GroupSum(PermKey(perm), g, perm[at], n) == g(at)
  {
    if at == n - 1 {
      AbsentGroup(perm, g, perm[at], n - 1);
    } else {
      OnceInGroup(perm, g, at, n - 1);
      assert perm[at] != perm[n - 1];
    }
  }

  // Summing in permuted order is summing.
  lemma PermutedSum(perm: seq<nat>, f: int -> real, n: nat)
    requires IsPermutation(perm, n)
    ensures Sum(ThroughPerm(perm, f), n) == Sum(f, n)
  {
    hide GroupSum;
    var g := ThroughPerm(perm, f);
    var group := (r: int) => GroupSum(PermKey(perm), g, r, n);
    GroupTotal(PermKey(perm), g, n, n, group);
    forall r {:trigger group(r)} | 0 <= r < n
      ensures group(r) == f(r)
    {
      var row: nat := r;
      assert row in perm;
      var at :| 0 <= at < n && perm[at] == row;
      OnceInGroup(perm, g, at, n);
    }
    SumCong(group, f, n);
  }

  // ------------------------------------------------------------ the rebuilt CSR

  ghost predicate Rising(ptr: seq<int>) {
    forall a, b :: 0 <= a <= b < |ptr| ==> ptr[a] <= ptr[b]
  }

  // Old row pointers and a reordering of their rows.
  ghost predicate Reorders(ptr: seq<int>, perm: seq<nat>) {
    |ptr| == |perm| + 1 && Rising(ptr) && forall i :: 0 <= i < |perm| ==> perm[i] < |perm|
  }

  // np.diff(ptr)[perm]
  function RowCounts(ptr: seq<int>, perm: seq<nat>): (r: seq<nat>)
    requires |ptr| == |perm| + 1 && forall i :: 0 <= i < |perm| ==> perm[i] < |perm|
    ensures |r| == |perm|
  {
    seq(|perm|, i requires 0 <= i < |perm| => RowLength(ptr, perm[i]))
  }

  // One entry of np.diff(ptr), which does not fall.
  function RowLength(ptr: seq<int>, r: nat): nat {
    var n := IntAt(ptr, r + 1) - IntAt(ptr, r);
    if n >= 0 then n else 0
  }

  function Gap(ptr: seq<int>): int -> real {
    (r: int) => (IntAt(ptr, r + 1) - IntAt(ptr, r)) as real
  }

  function Edge(ptr: seq<int>): int -> real {
    (r: int) => IntAt(ptr, r) as real
  }

  lemma {:induction false} CumSumIsSum(lengths: seq<nat>, n: nat, f: int -> real)
    requires n <= |lengths| && forall i :: 0 <= i < n ==> f(i) == lengths[i] as real
    ensures Sorting.CumSum(lengths, n) as real == Sum(f, n)
  {
    if n > 0 {
      CumSumIsSum(lengths, n - 1, f);
    }
  }

  lemma CountIsGap(ptr: seq<int>, perm: seq<nat>, i: nat)
    requires Reorders(ptr, perm) && i < |perm|
    ensures ThroughPerm(perm, Gap(ptr))(i) == RowCounts(ptr, perm)[i] as real
  {
    assert PermKey(perm)(i) == perm[i];
  }

  // The rebuilt row pointers end where the old ones did.
  lemma RebuiltTotal(ptr: seq<int>, perm: seq<nat>)
    requires Reorders(ptr, perm) && IsPermutation(perm, |perm|) && ptr[0] == 0
    ensures Sorting.CumSum(RowCounts(ptr, perm), |perm|) == ptr[|perm|]
  {
    hide RowCounts, ThroughPerm, Sum;
    var n, f := |perm|, Gap(ptr);
    forall i {:trigger ThroughPerm(perm, f)(i)} | 0 <= i < n
      ensures ThroughPerm(perm, f)(i) == RowCounts(ptr, perm)[i] as real
    {
      CountIsGap(ptr, perm, i);
    }
    CumSumIsSum(RowCounts(ptr, perm), n, ThroughPerm(perm, f));
    PermutedSum(perm, f, n);
    SumTelescope(Edge(ptr), f, n);
  }

  // Row i of the rebuilt arrays is row perm[i] of the old ones.
  ghost predicate RowCopied(x: Csr, r: nat, ptr: seq<int>, i: nat, col: seq<int>, val: seq<real>) {
    && i + 1 < |ptr| && r + 1 < |x.rowptr|
    && 0 <= ptr[i] <= ptr[i + 1] <= |col| == |val|
    && 0 <= x.rowptr[r] <= x.rowptr[r + 1] <= |x.col| == |x.val|
    && col[ptr[i]..ptr[i + 1]] == x.col[x.rowptr[r]..x.rowptr[r + 1]]
    && val[ptr[i]..ptr[i + 1]] == x.val[x.rowptr[r]..x.rowptr[r + 1]]
  }

  // One slice assignment of the rebuild, on the columns or on the values.
  method CopySlice<T>(to: array<T>, at: nat, from: seq<T>, lo: nat, hi: nat)
    requires lo <= hi <= |from| && at + (hi - lo) <= to.Length
    modifies to
    ensures to[at..at + (hi - lo)] == from[lo..hi]
    ensures to[..at] == old(to[..at])
  {
    forall j | at <= j < at + (hi - lo) {
      to[j] := from[lo + (j - at)];
    }
  }

  lemma SliceOfPrefix<T>(a: seq<T>, b: seq<T>, lo: nat, hi: nat, n: nat)
    requires lo <= hi <= n <= |a| == |b| && a[..n] == b[..n]
    ensures a[lo..hi] == b[lo..hi]
  {
    assert a[lo..hi] == a[..n][lo..hi];
    assert b[lo..hi] == b[..n][lo..hi];
  }

  // A slice copied earlier survives later copies behind it.
  lemma CopyKept(x: Csr, r: nat, ptr: seq<int>, i: nat, col: seq<int>, val: seq<real>, col': seq<int>, val': seq<real>, n: nat)
    requires RowCopied(x, r, ptr, i, col, val) && ptr[i + 1] <= n <= |col|
    requires |col'| == |col| && |val'| == |val| && col'[..n] == col[..n] && val'[..n] == val[..n]
    ensures RowCopied(x, r, ptr, i, col', val')
  {
    SliceOfPrefix(col', col, ptr[i], ptr[i + 1], n);
    SliceOfPrefix(val', val, ptr[i], ptr[i + 1], n);
  }

  // Row i of the new pointers is as long as row perm[i] of the old ones.
  ghost predicate SameLength(x: Csr, r: int, ptr: seq<int>, i: nat) {
    && 0 <= r && r + 1 < |x.rowptr| && i + 1 < |ptr|
    && 0 <= x.rowptr[r] <= x.rowptr[r + 1] <= |x.col|
    && 0 <= ptr[i] <= ptr[i + 1]
    && ptr[i + 1] - ptr[i] == x.rowptr[r + 1] - x.rowptr[r]
  }

  ghost predicate Pointers(x: Csr, perm: seq<nat>, ptr: seq<int>) {
    && |ptr| == |perm| + 1 == |x.rowptr| && ptr[0] == 0 && ptr[|perm|] == |x.col| == |x.val|
    && Rising(ptr) && forall i :: 0 <= i < |perm| ==> SameLength(x, perm[i], ptr, i)
  }

  lemma CumSumNext(lengths: seq<nat>, i: nat)
    requires i < |lengths|
    ensures Sorting.CumSum(lengths, i + 1) == Sorting.CumSum(lengths, i) + lengths[i]
  {
  }

  lemma ShapedReorders(x: Csr, k: nat, perm: seq<nat>)
    requires Shaped(x, |perm|, k) && IsPermutation(perm, |perm|)
    ensures Reorders(x.rowptr, perm)
  {
  }

  lemma OffsetsRise(lengths: seq<nat>)
    ensures Rising(Sorting.Offsets(lengths)) && Sorting.Offsets(lengths)[0] == 0
  {
    CumSumStart(lengths);
    forall a, b | 0 <= a <= b <= |lengths|
      ensures Sorting.CumSum(lengths, a) <= Sorting.CumSum(lengths, b)
    {
      Sorting.CumSumMono(lengths, a, b);
    }
  }

  lemma NewRow(x: Csr, k: nat, perm: seq<nat>, i: nat)
    requires Shaped(x, |perm|, k) && Reorders(x.rowptr, perm) && i < |perm|
    ensures SameLength(x, perm[i], Sorting.Offsets(RowCounts(x.rowptr, perm)), i)
  {
    hide Sorting.CumSum;
    var lengths := RowCounts(x.rowptr, perm);
    CumSumNext(lengths, i);
    RowBounds(x, |perm|, k, perm[i]);
    assert lengths[i] == RowLength(x.rowptr, perm[i]);
  }

  lemma NewPointers(x: Csr, k: nat, perm: seq<nat>)
    requires Shaped(x, |perm|, k) && IsPermutation(perm, |perm|)
    ensures Reorders(x.rowptr, perm) && Pointers(x, perm, Sorting.Offsets(RowCounts(x.rowptr, perm)))
  {
    ShapedReorders(x, k, perm);
    RebuiltTotal(x.rowptr, perm);
    OffsetsRise(RowCounts(x.rowptr, perm));
    forall i | 0 <= i < |perm|
      ensures SameLength(x, perm[i], Sorting.Offsets(RowCounts(x.rowptr, perm)), i)
    {
      NewRow(x, k, perm, i);
    }
  }

  lemma CumSumStart(lengths: seq<nat>)
    ensures Sorting.CumSum(lengths, 0) == 0
  {
  }

  lemma RisesTo(ptr: seq<int>, a: nat, b: nat)
    requires Rising(ptr) && a <= b < |ptr|
    ensures ptr[a] <= ptr[b]
  {
  }

  // The first n rows are in place.
  ghost predicate Copied(x: Csr, perm: seq<nat>, ptr: seq<int>, n: nat, col: seq<int>, val: seq<real>) {
    n <= |perm| && forall i :: 0 <= i < n ==> RowCopied(x, perm[i], ptr, i, col, val)
  }

  // One row of the copy loop.
  method CopyRow(x: Csr, perm: seq<nat>, ptr: seq<int>, i: nat, col: array<int>, val: array<real>)
    requires Pointers(x, perm, ptr) && i < |perm| && col.Length == val.Length == |x.col|
    modifies col, val
    ensures 0 <= ptr[i] <= |x.col| && RowCopied(x, perm[i], ptr, i, col[..], val[..])
    ensures col[..][..ptr[i]] == old(col[..])[..ptr[i]] && val[..][..ptr[i]] == old(val[..])[..ptr[i]]
  {
    var r := perm[i];
    assert SameLength(x, r, ptr, i);
    RisesTo(ptr, i + 1, |perm|);
    CopySlice(col, ptr[i], x.col, x.rowptr[r], x.rowptr[r + 1]);
    CopySlice(val, ptr[i], x.val, x.rowptr[r], x.rowptr[r + 1]);
  }

  lemma CopiedNext(x: Csr, perm: seq<nat>, ptr: seq<int>, i: nat, col: seq<int>, val: seq<real>, col': seq<int>, val': seq<real>)
    requires Rising(ptr) && i < |perm| < |ptr| && 0 <= ptr[i] <= |col| == |val| == |col'| == |val'|
    requires Copied(x, perm, ptr, i, col, val) && RowCopied(x, perm[i], ptr, i, col', val')
    requires col'[..ptr[i]] == col[..ptr[i]] && val'[..ptr[i]] == val[..ptr[i]]
    ensures Copied(x, perm, ptr, i + 1, col', val')
  {
    hide RowCopied, Rising;
    forall j | 0 <= j < i
      ensures RowCopied(x, perm[j], ptr, j, col', val')
    {
      RisesTo(ptr, j + 1, i);
      CopyKept(x, perm[j], ptr, j, col, val, col', val', ptr[i]);
    }
  }

  // count, cumsum, copy.
  method PermuteCsr(x: Csr, k: nat, perm: seq<nat>) returns (y: Csr)
    requires Shaped(x, |perm|, k) && IsPermutation(perm, |perm|)
    ensures Pointers(x, perm, y.rowptr) && |y.col| == |y.val| == |x.col|
    ensures Copied(x, perm, y.rowptr, |perm|, y.col, y.val)
  {
    NewPointers(x, k, perm);
    var ptr: seq<int> := Sorting.Offsets(RowCounts(x.rowptr, perm));
    hide Shaped, IsPermutation, RowCopied, SameLength, Sorting.Offsets, RowCounts, Rising;
    var col, val := new int[|x.col|](i => 0), new real[|x.val|](i => 0.0);
    for i := 0 to |perm|
      invariant Copied(x, perm, ptr, i, col[..], val[..])
    {
      ghost var wasCol, wasVal := col[..], val[..];
      CopyRow(x, perm, ptr, i, col, val);
      CopiedNext(x, perm, ptr, i, wasCol, wasVal, col[..], val[..]);
    }
    y := Csr(ptr, col[..], val[..]);
  }

  // Which row a position of the rebuilt arrays lies in.
  lemma {:induction false} RowOfPosition(ptr: seq<int>, n: nat, j: int) returns (i: nat)
    requires n < |ptr| && ptr[0] == 0 && 0 <= j < ptr[n]
    ensures i < n && ptr[i] <= j < ptr[i + 1]
  {
    if n > 0 && ptr[n - 1] <= j {
      i := n - 1;
    } else {
      i := RowOfPosition(ptr, n - 1, j);
    }
  }

  // The rebuilt CSR is the old matrix with its rows permuted.
  lemma RebuiltMatrix(x: Csr, k: nat, perm: seq<nat>, y: Csr)
    requires Shaped(x, |perm|, k) && IsPermutation(perm, |perm|)
    requires Pointers(x, perm, y.rowptr) && |y.col| == |y.val| == |x.col|
    requires Copied(x, perm, y.rowptr, |perm|, y.col, y.val)
    ensures Shaped(y, |perm|, k)
    ensures forall i, c: nat :: 0 <= i < |perm| && c < k ==>
      CsrAt(y, |perm|, k, Flat(i, k, c)) == CsrAt(x, |perm|, k, Flat(perm[i], k, c))
  {
    forall j | 0 <= j < |y.col|
      ensures 0 <= y.col[j] < k
    {
      var i := RowOfPosition(y.rowptr, |perm|, j);
      assert RowCopied(x, perm[i], y.rowptr, i, y.col, y.val);
      assert y.col[j] == y.col[y.rowptr[i]..y.rowptr[i + 1]][j - y.rowptr[i]];
    }
    forall i, c: nat | 0 <= i < |perm| && c < k
      ensures CsrAt(y, |perm|, k, Flat(i, k, c)) == CsrAt(x, |perm|, k, Flat(perm[i], k, c))
    {
      RebuiltRow(x, k, perm, y, i, c);
    }
  }

  lemma RebuiltRow(x: Csr, k: nat, perm: seq<nat>, y: Csr, i: nat, c: nat)
    requires Shaped(x, |perm|, k) && Shaped(y, |perm|, k) && i < |perm| && perm[i] < |perm| && c < k
    requires RowCopied(x, perm[i], y.rowptr, i, y.col, y.val)
    ensures CsrAt(y, |perm|, k, Flat(i, k, c)) == CsrAt(x, |perm|, k, Flat(perm[i], k, c))
  {
    hide CsrAt, RowAdded;
    CsrRow(y, |perm|, k, i, c);
    CsrRow(x, |perm|, k, perm[i], c);
  }

  // ---------------------------------------------------------------- side_payload

  ghost predicate Exportable(l: Layer, ks: seq<nat>, correction: Csr, widths: seq<nat>, perm: Option<seq<nat>>) {
    && Aligned(l) && LayerOk(l) && IndicesFit(l, ks) && WidthsKeep(ks, widths)
    && (correction.col != [] ==> Shaped(correction, l.rows, l.cols))
    && PermutesRows(perm, l.rows)
  }

  // Element i of the layer with its correction.
  function Corrected(l: Layer, correction: Csr, i: nat): real
    requires |l.stores| == |l.codebooks|
  {
    VqAt(l, i) + (if correction.col != [] && Shaped(correction, l.rows, l.cols) then CsrAt(correction, l.rows, l.cols, i) else 0.0)
  }

  method ExportedCorrection(l: Layer, correction: Csr, perm: Option<seq<nat>>) returns (r: Option<Csr>)
    requires correction.col != [] ==> Shaped(correction, l.rows, l.cols)
    requires PermutesRows(perm, l.rows)
    ensures r.Some? <==> correction.col != []
    ensures r.Some? ==> Shaped(r.value, l.rows, l.cols)
    ensures r.Some? ==> forall m, c: nat :: 0 <= m < l.rows && c < l.cols ==>
      CsrAt(r.value, l.rows, l.cols, Flat(m, l.cols, c)) == CsrAt(correction, l.rows, l.cols, Flat(Source(perm, m), l.cols, c))
  {
    hide CsrAt, IsPermutation, Pointers, RowCopied;
    if correction.col == [] {
      return None;
    }
    if perm.None? {
      return Some(correction);
    }
    assert |perm.value| == l.rows by { PermLength(perm.value, l.rows); }
    var y := PermuteCsr(correction, l.cols, perm.value);
    RebuiltMatrix(correction, l.cols, perm.value, y);
    r := Some(y);
  }

  lemma PermLength(perm: seq<nat>, n: nat)
    requires IsPermutation(perm, n)
    ensures |perm| == n
  {
  }

  function ExportStage(l: Layer, s: nat, perm: Option<seq<nat>>, width: nat): PayloadStage
    requires s < |l.stores| == |l.codebooks|
  {
    PayloadStage(PackIndexPlanes(PermutedIndices(l, s, perm), width), width, l.codebooks[s])
  }

  // Where the payload keeps things: codebooks as they are; the low byte of group
  // g of row m, and the scale of its block b, at the row-major places.
  ghost predicate LaidOut(p: Payload, l: Layer, perm: Option<seq<nat>>) {
    && |p.stages| == |l.stores| == |l.codebooks|
    && (forall s :: 0 <= s < |p.stages| ==> p.stages[s].codebook == l.codebooks[s] && LowLaid(p, l, perm, s))
    && ScalesLaid(p, l, perm)
  }

  ghost predicate LowLaid(p: Payload, l: Layer, perm: Option<seq<nat>>, s: nat)
    requires s < |p.stages| == |l.stores|
  {
    && |p.stages[s].planes.lo| == l.rows * (l.cols / l.group)
    && forall m: nat, g: nat {:trigger LowByteAt(p, l, perm, s, m, g)} :: m < l.rows && g < l.cols / l.group ==> LowByteAt(p, l, perm, s, m, g)
  }

  ghost predicate ScalesLaid(p: Payload, l: Layer, perm: Option<seq<nat>>) {
    && |p.scales| == l.rows * (l.cols / l.block)
    && forall m: nat, b: nat {:trigger ScaleLaid(p, l, perm, m, b)} :: m < l.rows && b < l.cols / l.block ==> ScaleLaid(p, l, perm, m, b)
  }

  ghost predicate LowByteAt(p: Payload, l: Layer, perm: Option<seq<nat>>, s: nat, m: nat, g: nat)
    requires s < |p.stages| == |l.stores|
  {
    var gpr, lo := l.cols / l.group, p.stages[s].planes.lo;
    && 0 <= m * gpr + g < |lo| && Flat(Source(perm, m), gpr, g) >= 0
    && lo[m * gpr + g] == VqIndex(l, s, Flat(Source(perm, m), gpr, g)) % 256
  }

  ghost predicate ScaleLaid(p: Payload, l: Layer, perm: Option<seq<nat>>, m: nat, b: nat)
  {
    var bpr := l.cols / l.block;
    && 0 <= m * bpr + b < |p.scales| && Flat(Source(perm, m), bpr, b) >= 0
    && p.scales[m * bpr + b] == BlockScale(l, Flat(Source(perm, m), bpr, b))
  }

  lemma LowByteLaid(l: Layer, ks: seq<nat>, p: Payload, perm: Option<seq<nat>>, width: nat, s: nat, m: nat, g: nat)
    requires |l.stores| == |l.codebooks| == |p.stages| && s < |l.stores| && IndicesFit(l, ks) && PermutesRows(perm, l.rows)
    requires p.stages[s] == ExportStage(l, s, perm, width) && m < l.rows && g < l.cols / l.group
    ensures LowByteAt(p, l, perm, s, m, g)
  {
    var gpr := l.cols / l.group;
    SourceInRange(perm, l.rows, m);
    FlatBound(m, g, l.rows, gpr);
    FlatBound(Source(perm, m), g, l.rows, gpr);
    PlaceIsSlot(l, l.group, perm, m, g);
    var idx := PermutedIndices(l, s, perm);
    assert idx[Flat(m, gpr, g)] == VqIndex(l, s, Flat(Source(perm, m), gpr, g));
    PlanesHold(idx, width);
  }

  lemma ScaleIsLaid(l: Layer, p: Payload, perm: Option<seq<nat>>, m: nat, b: nat)
    requires PermutesRows(perm, l.rows) && p.scales == PermutedScales(l, perm) && m < l.rows && b < l.cols / l.block
    ensures ScaleLaid(p, l, perm, m, b)
  {
    var bpr := l.cols / l.block;
    FlatBound(m, b, l.rows, bpr);
    PlaceIsSlot(l, l.block, perm, m, b);
    assert p.scales[Flat(m, bpr, b)] == At(l.scales, PlaceOf(l, l.block, perm, Flat(m, bpr, b)));
  }

  lemma StageLaid(l: Layer, ks: seq<nat>, p: Payload, perm: Option<seq<nat>>, width: nat, s: nat)
    requires |l.stores| == |l.codebooks| == |p.stages| && s < |l.stores| && IndicesFit(l, ks) && PermutesRows(perm, l.rows)
    requires p.stages[s] == ExportStage(l, s, perm, width)
    ensures p.stages[s].codebook == l.codebooks[s] && LowLaid(p, l, perm, s)
  {
    hide LowByteAt, IndicesFit, PermutesRows;
    forall m: nat, g: nat | m < l.rows && g < l.cols / l.group
      ensures LowByteAt(p, l, perm, s, m, g)
    {
      LowByteLaid(l, ks, p, perm, width, s, m, g);
    }
  }

  lemma PayloadLaid(l: Layer, ks: seq<nat>, p: Payload, perm: Option<seq<nat>>, widths: seq<nat>)
    requires |l.stores| == |l.codebooks| == |p.stages| == |widths| && IndicesFit(l, ks) && PermutesRows(perm, l.rows)
    requires forall s :: 0 <= s < |l.stores| ==> p.stages[s] == ExportStage(l, s, perm, widths[s])
    requires p.scales == PermutedScales(l, perm)
    ensures LaidOut(p, l, perm)
  {
    assert ScalesLaid(p, l, perm) by {
      hide ScaleLaid, PermutesRows;
      forall m: nat, b: nat | m < l.rows && b < l.cols / l.block
        ensures ScaleLaid(p, l, perm, m, b)
      {
        ScaleIsLaid(l, p, perm, m, b);
      }
    }
    hide LowLaid, ScalesLaid, IndicesFit, PermutesRows, ExportStage, PermutedScales;
    forall s | 0 <= s < |p.stages|
      ensures p.stages[s].codebook == l.codebooks[s] && LowLaid(p, l, perm, s)
    {
      StageLaid(l, ks, p, perm, widths[s], s);
    }
  }

  // The payload of a layer, rows permuted.
  method SidePayload(l: Layer, ks: seq<nat>, correction: Csr, widths: seq<nat>, perm: Option<seq<nat>>) returns (p: Payload)
    requires Exportable(l, ks, correction, widths, perm)
    ensures forall m, c: nat :: 0 <= m < l.rows && c < l.cols ==>
      Flat(Source(perm, m), l.cols, c) >= 0 && PayloadAt(p, m, c) == Corrected(l, correction, Flat(Source(perm, m), l.cols, c))
    ensures LaidOut(p, l, perm)
    ensures p.correction.Some? <==> correction.col != []
    ensures p.correction.Some? ==> Shaped(p.correction.value, l.rows, l.cols)
    ensures p.correction.Some? ==> forall m, c: nat :: 0 <= m < l.rows && c < l.cols ==>
      CsrAt(p.correction.value, l.rows, l.cols, Flat(m, l.cols, c)) == CsrAt(correction, l.rows, l.cols, Flat(Source(perm, m), l.cols, c))
  {
    assert |l.stores| == |l.codebooks| == |widths|;
    hide LaidOut, PayloadAt, Corrected, CsrAt, ExportStage, PermutesRows, IndicesFit, LayerOk;
    var stages := seq(|l.stores|, s requires 0 <= s < |l.stores| => ExportStage(l, s, perm, widths[s]));
    var corr := ExportedCorrection(l, correction, perm);
    p := Payload(l.rows, l.cols, l.group, l.block, stages, PermutedScales(l, perm), corr);
    PayloadLaid(l, ks, p, perm, widths);
    forall m, c: nat | 0 <= m < l.rows && c < l.cols
      ensures Flat(Source(perm, m), l.cols, c) >= 0 && PayloadAt(p, m, c) == Corrected(l, correction, Flat(Source(perm, m), l.cols, c))
    {
      ExportCommutes(l, ks, correction, widths, perm, p, m, c);
    }
  }

  lemma NextStageCommutes(l: Layer, ks: seq<nat>, widths: seq<nat>, perm: Option<seq<nat>>, p: Payload, s: nat, m: nat, c: nat)
    requires Aligned(l) && |l.stores| == |l.codebooks| && IndicesFit(l, ks) && WidthsKeep(ks, widths) && PermutesRows(perm, l.rows)
    requires p.cols == l.cols && p.group == l.group && |p.stages| == |l.stores| && s < |l.stores|
    requires p.stages[s] == ExportStage(l, s, perm, widths[s])
    requires m < l.rows && c < l.cols
    ensures Flat(Source(perm, m), l.cols, c) >= 0
    ensures StageElement(p, p.stages[s], m, c) == VqTerm(l, s, Flat(Source(perm, m), l.cols, c))
  {
    hide StageElement, VqTerm, PermutedIndices, PackIndexPlanes;
    StageCommutes(l, ks, p, s, widths[s], perm, m, c);
  }

  lemma {:induction false} StagesCommute(l: Layer, ks: seq<nat>, widths: seq<nat>, perm: Option<seq<nat>>, p: Payload, n: nat, m: nat, c: nat)
    requires Aligned(l) && |l.stores| == |l.codebooks| && IndicesFit(l, ks) && WidthsKeep(ks, widths) && PermutesRows(perm, l.rows)
    requires p.cols == l.cols && p.group == l.group && |p.stages| == |l.stores|
    requires |widths| == |l.stores| && forall s :: 0 <= s < |l.stores| ==> p.stages[s] == ExportStage(l, s, perm, widths[s])
    requires n <= |l.stores| && m < l.rows && c < l.cols
    ensures Flat(Source(perm, m), l.cols, c) >= 0
    ensures StageElements(p, n, m, c) == VqSum(l, n, Flat(Source(perm, m), l.cols, c))
  {
    hide StageElement, VqTerm, PermutesRows, IndicesFit, WidthsKeep, ExportStage, Aligned;
    if n > 0 {
      StagesCommute(l, ks, widths, perm, p, n - 1, m, c);
      NextStageCommutes(l, ks, widths, perm, p, n - 1, m, c);
    } else {
      SourceFlat(perm, m, l.cols, c);
    }
  }

  lemma SourceFlat(perm: Option<seq<nat>>, m: nat, cols: nat, c: nat)
    ensures Flat(Source(perm, m), cols, c) >= 0
  {
  }

  // Decoding the permuted payload is permuting the decoded layer.
  lemma ExportCommutes(l: Layer, ks: seq<nat>, correction: Csr, widths: seq<nat>, perm: Option<seq<nat>>, p: Payload, m: nat, c: nat)
    requires Exportable(l, ks, correction, widths, perm) && m < l.rows && c < l.cols
    requires p.rows == l.rows && p.cols == l.cols && p.group == l.group && p.block == l.block && |p.stages| == |l.stores|
    requires forall s :: 0 <= s < |l.stores| ==> p.stages[s] == ExportStage(l, s, perm, widths[s])
    requires p.scales == PermutedScales(l, perm)
    requires p.correction.Some? <==> correction.col != []
    requires p.correction.Some? ==> Shaped(p.correction.value, l.rows, l.cols)
    requires p.correction.Some? ==> CsrAt(p.correction.value, l.rows, l.cols, Flat(m, l.cols, c)) == CsrAt(correction, l.rows, l.cols, Flat(Source(perm, m), l.cols, c))
    ensures Flat(Source(perm, m), l.cols, c) >= 0
    ensures PayloadAt(p, m, c) == Corrected(l, correction, Flat(Source(perm, m), l.cols, c))
  {
    assert |widths| == |l.stores|;
    hide StageElements, VqSum, CsrAt, Shaped, PermutedScales, ExportStage, IndicesFit, PermutesRows, BlockScale, WidthsKeep;
    StagesCommute(l, ks, widths, perm, p, |l.stores|, m, c);
    ScaleCommutes(l, perm, m, c);
  }

  // -------------------------------------------------------------- dequant_linear

  // A dense matrix from stored stages, row-major or group-major.
  method DequantLinear(l: Layer) returns (w: seq<seq<real>>)
    requires Aligned(l) && LayerOk(l)
    ensures |w| == l.rows && forall m :: 0 <= m < l.rows ==> |w[m]| == l.cols
    ensures forall m, c :: 0 <= m < l.rows && 0 <= c < l.cols ==> Flat(m, l.cols, c) >= 0 && w[m][c] == VqAt(l, Flat(m, l.cols, c))
  {
    assert |l.stores| == |l.codebooks|;
    hide LayerOk, VqAt, DenseTerm, DenseScale;
    w := Filled(l.rows, Filled(l.cols, 0.0));
    for s := 0 to |l.stores|
      invariant |w| == l.rows && forall m :: 0 <= m < l.rows ==> |w[m]| == l.cols
      invariant forall m, c :: 0 <= m < l.rows && 0 <= c < l.cols ==> w[m][c] == DenseSum(l, s, m, c)
    {
      w := seq(l.rows, m requires 0 <= m < l.rows =>
        seq(l.cols, c requires 0 <= c < l.cols => w[m][c] + DenseTerm(l, s, m, c)));
    }
    w := seq(l.rows, m requires 0 <= m < l.rows =>
      seq(l.cols, c requires 0 <= c < l.cols => Times(w[m][c], DenseScale(l, m, c))));
    forall m, c | 0 <= m < l.rows && 0 <= c < l.cols
      ensures Flat(m, l.cols, c) >= 0 && w[m][c] == VqAt(l, Flat(m, l.cols, c))
    {
      DenseIsVq(l, m, c);
    }
  }

  // cb[i] with i = idx.reshape(GPR, M).T or idx.reshape(M, GPR)
  function DenseTerm(l: Layer, s: nat, m: nat, c: nat): real
    requires s < |l.stores| == |l.codebooks|
  {
    var g := c / l.group;
    CodeAt(l.codebooks[s], ReadStore(l.stores[s], if l.groupMajor then Flat(g, l.rows, m) else Flat(m, l.cols / l.group, g)),
      l.group, c % l.group)
  }

  function DenseSum(l: Layer, n: nat, m: nat, c: nat): real
    requires n <= |l.stores| == |l.codebooks|
  {
    if n == 0 then 0.0 else DenseSum(l, n - 1, m, c) + DenseTerm(l, n - 1, m, c)
  }

  function DenseScale(l: Layer, m: nat, c: nat): real {
    var b := c / l.block;
    At(l.scales, if l.groupMajor then Flat(b, l.rows, m) else Flat(m, l.cols / l.block, b))
  }

  lemma DenseTermIsVq(l: Layer, s: nat, m: nat, c: nat)
    requires Aligned(l) && s < |l.stores| == |l.codebooks| && m < l.rows && c < l.cols
    ensures Flat(m, l.cols, c) >= 0 && DenseTerm(l, s, m, c) == VqTerm(l, s, Flat(m, l.cols, c))
  {
    hide CodeAt, ReadStore;
    ExactDiv(l.cols, l.group);
    DivBound(c, l.cols / l.group, l.group);
    RowPiece(m, c, l.cols, l.group);
    PlaceIsSlot(l, l.group, None, m, c / l.group);
    DivModOf(m, l.cols / l.group, c / l.group);
  }

  lemma {:induction false} DenseSumIsVq(l: Layer, n: nat, m: nat, c: nat)
    requires Aligned(l) && n <= |l.stores| == |l.codebooks| && m < l.rows && c < l.cols
    ensures Flat(m, l.cols, c) >= 0 && DenseSum(l, n, m, c) == VqSum(l, n, Flat(m, l.cols, c))
  {
    hide DenseTerm, VqTerm;
    if n > 0 {
      DenseSumIsVq(l, n - 1, m, c);
      DenseTermIsVq(l, n - 1, m, c);
    }
  }

  lemma DenseScaleIsVq(l: Layer, m: nat, c: nat)
    requires Aligned(l) && m < l.rows && c < l.cols
    ensures Flat(m, l.cols, c) >= 0 && DenseScale(l, m, c) == BlockScale(l, Flat(m, l.cols, c) / l.block)
  {
    ExactDiv(l.cols, l.block);
    DivBound(c, l.cols / l.block, l.block);
    RowPiece(m, c, l.cols, l.block);
    DivModOf(m, l.cols / l.block, c / l.block);
  }

  lemma DenseIsVq(l: Layer, m: nat, c: nat)
    requires Aligned(l) && |l.stores| == |l.codebooks| && m < l.rows && c < l.cols
    ensures Flat(m, l.cols, c) >= 0
    ensures Times(DenseSum(l, |l.stores|, m, c), DenseScale(l, m, c)) == VqAt(l, Flat(m, l.cols, c))
  {
    hide DenseSum, DenseScale, VqSum, BlockScale;
    DenseSumIsVq(l, |l.stores|, m, c);
    DenseScaleIsVq(l, m, c);
  }
}
