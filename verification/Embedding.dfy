// The row-lazy embedding (orka/inference/vq_embedding.py): which tensors it can
// serve, and why decoding each distinct row once and scattering is the lookup
// into the dense decode.

module Embedding {
  import opened Basics
  import opened Layout
  import opened Sums
  import opened Reference
  import VqLayer

  // --------------------------------------------------------------- eligibility

  datatype Refusal = NotATable | GroupStraddles | BlockStraddles | NeedsScatter | MixedGroups

  // can_serve: None when eligible. The table's shape is t.rows x t.cols.
  function Refused(t: Tensor, dims: nat): Option<Refusal> {
    if dims != 2 then Some(NotATable)
    else if t.cols % t.group != 0 then Some(GroupStraddles)
    else if t.cols % t.block != 0 then Some(BlockStraddles)
    else if t.outliers != [] || t.salient != [] || t.lowrank.Some? || t.pillars != [] then Some(NeedsScatter)
    else if exists s :: 0 <= s < |t.stages| && t.stages[s].group != t.group then Some(MixedGroups)
    else None
  }

  // Refused exactly for cause: rows that are not whole groups or blocks, a
  // sidecar, or stages of another group size.
  lemma RefusedIff(t: Tensor, dims: nat)
    ensures Refused(t, dims).None? <==>
      && dims == 2 && t.cols % t.group == 0 && t.cols % t.block == 0
      && t.outliers == [] && t.salient == [] && t.pillars == [] && t.lowrank.None?
      && forall s :: 0 <= s < |t.stages| ==> t.stages[s].group == t.group
    ensures Refused(t, dims) == Some(NotATable) <==> dims != 2
    ensures Refused(t, 2) == Some(GroupStraddles) <==> t.cols % t.group != 0
    ensures Refused(t, 2) == Some(BlockStraddles) <==> t.cols % t.group == 0 && t.cols % t.block != 0
    ensures Refused(t, dims) == Some(NeedsScatter) ==> t.outliers != [] || t.salient != [] || t.pillars != [] || t.lowrank.Some?
    ensures Refused(t, dims) == Some(MixedGroups) ==> exists s :: 0 <= s < |t.stages| && t.stages[s].group != t.group
  {
  }

  // Elements i - 1 and i lie in different rows and in one piece.
  ghost predicate Straddles(cols: pos, piece: pos, i: int) {
    (i - 1) / cols != i / cols && (i - 1) / piece == i / piece
  }

  // Why the straddling tables are refused: some group, or block, of a table of
  // two rows or more holds elements of two rows exactly when it does not divide
  // the row.
  lemma StraddlesIff(rows: nat, cols: pos, piece: pos)
    requires rows >= 2
    ensures cols % piece != 0 <==> exists i :: 0 < i < rows * cols && Straddles(cols, piece, i)
  {
    if cols % piece != 0 {
      MulMono(2, rows, cols);
      DivModUnique(cols - 1, cols, 0, cols - 1);
      DivModUnique(cols, cols, 1, 0);
      DivModUnique(cols - 1, piece, cols / piece, cols % piece - 1);
      assert Straddles(cols, piece, cols);
    } else {
      forall i | 0 < i < rows * cols
        ensures !Straddles(cols, piece, i)
      {
        WholePieces(cols, piece, i);
      }
    }
  }

  lemma WholePieces(cols: pos, piece: pos, i: pos)
    requires cols % piece == 0
    ensures !Straddles(cols, piece, i)
  {
    var k := cols / piece;
    ExactDiv(cols, piece);
    DivDiv(i, piece, k);
    DivDiv(i - 1, piece, k);
    assert piece * k == cols;
  }

  // ------------------------------------------------------------------ the module

  datatype Table = Table(
    vocab: nat, dim: nat, group: pos, block: pos,
    codebooks: seq<seq<real>>, indices: seq<seq<int>>, scales: Option<seq<real>>)

  // Indices in the narrowest dtype that addresses the codebook.
  function Resident(st: Stage, n: nat): seq<int> {
    seq(n, q requires 0 <= q < n =>
      var v := IntAt(st.indices, q); if v >= 0 then VqLayer.Cast(v, VqLayer.NarrowType(st.k)) else v)
  }

  // from_artifact, past the eligibility test.
  function Load(t: Tensor): Table {
    var n := CeilDiv(t.rows * t.cols, t.group);
    Table(t.rows, t.cols, t.group, t.block,
      seq(|t.stages|, s requires 0 <= s < |t.stages| => t.stages[s].codebook),
      seq(|t.stages|, s requires 0 <= s < |t.stages| => Resident(t.stages[s], n)),
      t.scales)
  }

  predicate TableOk(e: Table) {
    && |e.codebooks| == |e.indices| > 0
    && e.dim % e.group == 0 && e.dim % e.block == 0
    && (forall s :: 0 <= s < |e.indices| ==> |e.indices[s]| == Flat(e.vocab, Gpr(e), 0))
    && (e.scales.Some? ==> |e.scales.value| == Flat(e.vocab, Bpr(e), 0))
  }

  // The row an id stands for: a negative one counts from the end.
  function RowOf(e: Table, id: int): (row: Option<nat>)
    ensures row.Some? ==> row.value < e.vocab
  {
    if 0 <= id < e.vocab then Some(id)
    else if 0 <= e.vocab + id < e.vocab then Some(e.vocab + id)
    else None
  }

  // Where an index of either sign lands in a buffer of n entries.
  function Wrapped(n: nat, i: int): int {
    if i < 0 then i + n else i
  }

  // No entry of the row's pieces is read outside a buffer.
  predicate InBuffer(e: Table, id: int) {
    forall g :: 0 <= g < Gpr(e) ==> 0 <= Wrapped(Flat(e.vocab, Gpr(e), 0), Flat(id, Gpr(e), g)) < Flat(e.vocab, Gpr(e), 0)
  }

  // Piece g of an id is piece g of the row it stands for.
  lemma WrappedPiece(e: Table, id: int, n: nat, g: nat)
    requires RowOf(e, id).Some? && g < n
    ensures Wrapped(Flat(e.vocab, n, 0), Flat(id, n, g)) == Flat(RowOf(e, id).value, n, g)
    ensures 0 <= Flat(RowOf(e, id).value, n, g) < Flat(e.vocab, n, 0)
  {
    FlatBound(RowOf(e, id).value, g, e.vocab, n);
    if id < 0 {
      MulMono(id, -1, n);
      assert (e.vocab + id) * n == e.vocab * n + id * n;
    }
  }

  // The lookup raises exactly on ids that stand for no row.
  lemma InBufferIff(e: Table, id: int)
    ensures InBuffer(e, id) <==> Gpr(e) == 0 || RowOf(e, id).Some?
  {
    var n := Gpr(e);
    if RowOf(e, id).Some? {
      forall g | 0 <= g < n
        ensures 0 <= Wrapped(Flat(e.vocab, n, 0), Flat(id, n, g)) < Flat(e.vocab, n, 0)
      {
        WrappedPiece(e, id, n, g);
      }
    } else if n > 0 {
      if id >= e.vocab {
        MulMono(e.vocab, id, n);
      } else {
        MulMono(id, -1, n);
        MulMono(e.vocab + id, -1, n);
        assert (e.vocab + id) * n == e.vocab * n + id * n;
      }
      assert !(0 <= Wrapped(Flat(e.vocab, n, 0), Flat(id, n, 0)) < Flat(e.vocab, n, 0));
    }
  }

  function Gpr(e: Table): nat {
    e.dim / e.group
  }

  function Bpr(e: Table): nat {
    e.dim / e.block
  }

  // ------------------------------------------------------------- one decoded row

  function StagePart(e: Table, s: nat, row: nat, c: nat): real
    requires s < |e.indices| == |e.codebooks|
  {
    CodeAt(e.codebooks[s], IntAt(e.indices[s], Flat(row, Gpr(e), c / e.group)), e.group, c % e.group)
  }

  function PartSum(e: Table, n: nat, row: nat, c: nat): real
    requires n <= |e.indices| == |e.codebooks|
  {
    if n == 0 then 0.0 else PartSum(e, n - 1, row, c) + StagePart(e, n - 1, row, c)
  }

  function RowScale(e: Table, row: nat, c: nat): real {
    if e.scales.Some? then At(e.scales.value, Flat(row, Bpr(e), c / e.block)) else 1.0
  }

  // Element c of row `row` of the table.
  function EmbeddingAt(e: Table, row: nat, c: nat): real
    requires |e.indices| == |e.codebooks|
  {
    Times(PartSum(e, |e.indices|, row, c), RowScale(e, row, c))
  }

  // One gather of the stage loop, at an id of either sign.
  function StageRead(e: Table, s: nat, id: int, c: nat): real
    requires s < |e.indices| == |e.codebooks|
  {
    var i := Wrapped(Flat(e.vocab, Gpr(e), 0), Flat(id, Gpr(e), c / e.group));
    CodeAt(e.codebooks[s], IntAt(e.indices[s], i), e.group, c % e.group)
  }

  function ScaleRead(e: Table, id: int, c: nat): real {
    if e.scales.Some? then At(e.scales.value, Wrapped(Flat(e.vocab, Bpr(e), 0), Flat(id, Bpr(e), c / e.block))) else 1.0
  }

  function ReadSum(e: Table, n: nat, id: int, c: nat): real
    requires n <= |e.indices| == |e.codebooks|
  {
    if n == 0 then 0.0 else ReadSum(e, n - 1, id, c) + StageRead(e, n - 1, id, c)
  }

  lemma PieceReads(e: Table, id: int, c: nat)
    requires TableOk(e) && RowOf(e, id).Some? && c < e.dim
    ensures forall s :: 0 <= s < |e.indices| ==> StageRead(e, s, id, c) == StagePart(e, s, RowOf(e, id).value, c)
    ensures ScaleRead(e, id, c) == RowScale(e, RowOf(e, id).value, c)
  {
    ExactDiv(e.dim, e.group);
    ExactDiv(e.dim, e.block);
    DivBound(c, Gpr(e), e.group);
    DivBound(c, Bpr(e), e.block);
    WrappedPiece(e, id, Gpr(e), c / e.group);
    WrappedPiece(e, id, Bpr(e), c / e.block);
  }

  lemma {:induction false} ReadSumIsPart(e: Table, n: nat, id: int, c: nat)
    requires TableOk(e) && RowOf(e, id).Some? && c < e.dim && n <= |e.indices|
    ensures ReadSum(e, n, id, c) == PartSum(e, n, RowOf(e, id).value, c)
  {
    hide StageRead, StagePart;
    if n > 0 {
      ReadSumIsPart(e, n - 1, id, c);
      PieceReads(e, id, c);
    }
  }

  // The stage loop on one id: the first part is taken, later ones added.
  method DecodeReads(e: Table, id: int) returns (out: seq<real>)
    requires TableOk(e)
    ensures |out| == e.dim && forall c :: 0 <= c < e.dim ==> out[c] == Times(ReadSum(e, |e.indices|, id, c), ScaleRead(e, id, c))
  {
    hide StageRead;
    out := seq(e.dim, c requires 0 <= c < e.dim => StageRead(e, 0, id, c));
    for s := 1 to |e.indices|
      invariant |out| == e.dim && forall c :: 0 <= c < e.dim ==> out[c] == ReadSum(e, s, id, c)
    {
      out := seq(e.dim, c requires 0 <= c < e.dim => out[c] + StageRead(e, s, id, c));
    }
    if e.scales.Some? {
      out := seq(e.dim, c requires 0 <= c < e.dim => Times(out[c], ScaleRead(e, id, c)));
    } else {
      forall c | 0 <= c < e.dim
        ensures out[c] == Times(ReadSum(e, |e.indices|, id, c), ScaleRead(e, id, c))
      {
        TimesZero(out[c]);
      }
    }
  }

  // The table's row for an id.
  ghost predicate IsRow(e: Table, id: int, row: seq<real>)
    requires TableOk(e)
  {
    && |row| == e.dim
    && forall c :: 0 <= c < e.dim ==> RowOf(e, id).Some? && row[c] == EmbeddingAt(e, RowOf(e, id).value, c)
  }

  method DecodeRow(e: Table, id: int) returns (out: seq<real>)
    requires TableOk(e) && (e.dim > 0 ==> RowOf(e, id).Some?)
    ensures IsRow(e, id, out)
  {
    out := DecodeReads(e, id);
    forall c: nat | c < e.dim
      ensures out[c] == EmbeddingAt(e, RowOf(e, id).value, c)
    {
      ReadSumIsPart(e, |e.indices|, id, c);
      PieceReads(e, id, c);
    }
  }

  // -------------------------------------------------------------- torch.unique

  ghost predicate Ascending(s: seq<int>) {
    forall a, b :: 0 <= a < b < |s| ==> s[a] < s[b]
  }

  function Merge(s: seq<int>, id: int): seq<int> {
    if |s| == 0 || s[|s| - 1] < id then s + [id]
    else if s[|s| - 1] == id then s
    else Merge(s[..|s| - 1], id) + [s[|s| - 1]]
  }

  lemma {:induction false} MergeKeeps(s: seq<int>, id: int)
    requires Ascending(s)
    ensures Ascending(Merge(s, id))
    ensures forall x :: x in Merge(s, id) <==> x in s || x == id
  {
    if |s| == 0 || s[|s| - 1] <= id {
    } else {
      var front, last := s[..|s| - 1], s[|s| - 1];
      MergeKeeps(front, id);
      assert s == front + [last];
      forall a | 0 <= a < |Merge(front, id)|
        ensures Merge(front, id)[a] < last
      {
        assert Merge(front, id)[a] in Merge(front, id);
        if Merge(front, id)[a] != id {
          var b :| 0 <= b < |front| && front[b] == Merge(front, id)[a];
          assert s[b] == front[b];
        }
      }
    }
  }

  // The distinct ids, ascending.
  function Unique(ids: seq<int>): seq<int> {
    if |ids| == 0 then [] else Merge(Unique(ids[..|ids| - 1]), ids[|ids| - 1])
  }

  lemma {:induction false} UniqueIds(ids: seq<int>)
    ensures Ascending(Unique(ids)) && forall x :: x in Unique(ids) <==> x in ids
  {
    if |ids| > 0 {
      UniqueIds(ids[..|ids| - 1]);
      MergeKeeps(Unique(ids[..|ids| - 1]), ids[|ids| - 1]);
      assert ids == ids[..|ids| - 1] + [ids[|ids| - 1]];
    }
  }

  function Position(flat: seq<int>, id: int): (at: nat)
    requires id in flat
    ensures at < |flat| && flat[at] == id
  {
    if flat[0] == id then 0 else 1 + Position(flat[1..], id)
  }

  // return_inverse: where each id stands among the distinct ones.
  method Inverse(flat: seq<int>, ids: seq<int>) returns (inverse: seq<nat>)
    requires forall i :: 0 <= i < |ids| ==> ids[i] in flat
    ensures |inverse| == |ids| && forall i :: 0 <= i < |ids| ==> inverse[i] < |flat| && flat[inverse[i]] == ids[i]
  {
    inverse := [];
    for i := 0 to |ids|
      invariant |inverse| == i
      invariant forall j :: 0 <= j < i ==> inverse[j] < |flat| && flat[inverse[j]] == ids[j]
    {
      inverse := inverse + [Position(flat, ids[i])];
    }
  }

  // ------------------------------------------------------------------- forward

  // Whether some id of the list stands for no row.
  predicate Strays(e: Table, ids: seq<int>) {
    e.dim > 0 && exists i :: 0 <= i < |ids| && RowOf(e, ids[i]).None?
  }

  // The rows of a list of ids, None where one is read outside a buffer.
  method DecodeEach(e: Table, ids: seq<int>) returns (out: Option<seq<seq<real>>>)
    requires TableOk(e)
    ensures out.None? <==> Strays(e, ids)
    ensures out.Some? ==> |out.value| == |ids| && forall i :: 0 <= i < |ids| ==> IsRow(e, ids[i], out.value[i])
  {
    hide IsRow, InBuffer, RowOf;
    WholeRows(e);
    var rows := [];
    for r := 0 to |ids|
      invariant |rows| == r && forall i :: 0 <= i < r ==> IsRow(e, ids[i], rows[i])
      invariant e.dim > 0 ==> forall i :: 0 <= i < r ==> RowOf(e, ids[i]).Some?
    {
      InBufferIff(e, ids[r]);
      if !InBuffer(e, ids[r]) {
        return None;
      }
      var row := DecodeRow(e, ids[r]);
      rows := rows + [row];
    }
    out := Some(rows);
  }

  // Decodes every distinct id once, then scatters to the positions; None where
  // an id is out of range.
  method Forward(e: Table, ids: seq<int>) returns (y: Option<seq<seq<real>>>, decoded: seq<int>)
    requires TableOk(e)
    ensures y.None? <==> Strays(e, ids)
    ensures y.Some? ==> |y.value| == |ids| && forall i :: 0 <= i < |ids| ==> IsRow(e, ids[i], y.value[i])
    ensures Ascending(decoded) && forall x :: x in decoded <==> x in ids
  {
    hide IsRow, RowOf;
    UniqueIds(ids);
    decoded := Unique(ids);
    SameIds(e, ids, decoded);
    var inverse := Inverse(decoded, ids);
    var out := DecodeEach(e, decoded);
    if out.None? {
      return None, decoded;
    }
    y := Some(seq(|ids|, i requires 0 <= i < |ids| => out.value[inverse[i]]));
  }

  lemma SameIds(e: Table, ids: seq<int>, decoded: seq<int>)
    requires forall x :: x in decoded <==> x in ids
    ensures forall i :: 0 <= i < |ids| ==> ids[i] in decoded
    ensures Strays(e, decoded) <==> Strays(e, ids)
  {
    hide RowOf;
    forall i | 0 <= i < |ids|
      ensures ids[i] in decoded
    {
      var x := ids[i];
      assert x in ids;
    }
    if Strays(e, ids) {
      var i :| 0 <= i < |ids| && RowOf(e, ids[i]).None?;
      var j :| 0 <= j < |decoded| && decoded[j] == ids[i];
    }
    if Strays(e, decoded) {
      var j :| 0 <= j < |decoded| && RowOf(e, decoded[j]).None?;
      var x := decoded[j];
      assert x in decoded;
      var i :| 0 <= i < |ids| && ids[i] == x;
    }
  }

  lemma WholeRows(e: Table)
    requires TableOk(e)
    ensures Gpr(e) == 0 <==> e.dim == 0
  {
    ExactDiv(e.dim, e.group);
  }

  // ------------------------------------------------------- against the reference

  // A decodable table whose values are all packed, with an int32 index range.
  predicate Servable(t: Tensor) {
    && Refused(t, 2).None? && Padded(t) && Decodable(t) && t.packed == t.rows * t.cols && |t.stages| > 0
    && forall s :: 0 <= s < |t.stages| ==> t.stages[s].k <= 0x8000_0000
  }

  lemma RowPieces(t: Tensor, piece: pos, row: nat, c: nat)
    requires t.cols % piece == 0 && row < t.rows && c < t.cols
    ensures 0 <= Flat(row, t.cols, c) < t.rows * t.cols
    ensures Flat(row, t.cols, c) / piece == Flat(row, t.cols / piece, c / piece)
    ensures Flat(row, t.cols, c) % piece == c % piece
    ensures Flat(row, t.cols, c) / piece < CeilDiv(t.rows * t.cols, piece)
  {
    RowPiece(row, c, t.cols, piece);
    FlatBound(row, c, t.rows, t.cols);
    CeilDivCovers(t.rows * t.cols, piece);
    DivBound(Flat(row, t.cols, c), CeilDiv(t.rows * t.cols, piece), piece);
  }

  lemma PaddedExactly(t: Tensor)
    requires Servable(t)
    ensures CeilDiv(t.rows * t.cols, t.group) <= CeilDiv(t.padded, t.group)
  {
    CeilDivCovers(t.rows * t.cols, t.group);
    CeilDivCovers(t.padded, t.group);
    var a, b := CeilDiv(t.rows * t.cols, t.group), CeilDiv(t.padded, t.group);
    if a > b {
      MulMono(b + 1, a, t.group);
    }
  }

  // No dtype loses an index of a codebook it addresses.
  lemma ResidentExact(st: Stage, n: nat, q: nat)
    requires q < n && q < |st.indices| && 0 <= st.indices[q] < st.k <= 0x8000_0000
    ensures IntAt(Resident(st, n), q) == st.indices[q]
  {
  }

  // A stage of the resident table gathers what the decoder gathers.
  lemma PartIsGather(t: Tensor, s: nat, row: nat, c: nat)
    requires Servable(t) && s < |t.stages| && row < t.rows && c < t.cols
    ensures Flat(row, t.cols, c) >= 0
    ensures StagePart(Load(t), s, row, c) == Gather(t.stages[s], Flat(row, t.cols, c))
  {
    hide Resident, CodeAt;
    var st, q := t.stages[s], Flat(row, t.cols, c) / t.group;
    RowPieces(t, t.group, row, c);
    PaddedExactly(t);
    assert StageOk(st, t.group, t.padded) && st.group == t.group;
    ResidentExact(st, CeilDiv(t.rows * t.cols, t.group), q);
  }

  lemma {:induction false} PartsAreStages(t: Tensor, n: nat, row: nat, c: nat)
    requires Servable(t) && n <= |t.stages| && row < t.rows && c < t.cols
    ensures Flat(row, t.cols, c) >= 0
    ensures PartSum(Load(t), n, row, c) == StageSum(t.stages, n, Flat(row, t.cols, c))
  {
    hide StagePart, Gather, Servable, Flat;
    if n > 0 {
      PartsAreStages(t, n - 1, row, c);
      PartIsGather(t, n - 1, row, c);
    }
  }

  lemma RowScaleIsScale(t: Tensor, row: nat, c: nat)
    requires Servable(t) && row < t.rows && c < t.cols
    ensures Flat(row, t.cols, c) >= 0
    ensures RowScale(Load(t), row, c) == ScaleAt(t.scales, t.block, Flat(row, t.cols, c))
  {
    RowPieces(t, t.block, row, c);
  }

  // A served row is the row of the dense decode.
  lemma ServedRowIsReference(t: Tensor, row: nat, c: nat)
    requires Servable(t) && row < t.rows && c < t.cols
    ensures Flat(row, t.cols, c) >= 0
    ensures EmbeddingAt(Load(t), row, c) == Weight(t, Flat(row, t.cols, c))
  {
    hide PartSum, RowScale, StageSum;
    PartsAreStages(t, |t.stages|, row, c);
    RowScaleIsScale(t, row, c);
  }

  lemma LoadedTable(t: Tensor)
    requires Servable(t)
    ensures TableOk(Load(t))
  {
    ExactDiv(t.cols, t.group);
    ExactDiv(t.cols, t.block);
    var g, b := t.cols / t.group, t.cols / t.block;
    assert t.rows * t.cols == t.rows * (g * t.group) == t.rows * g * t.group;
    assert t.rows * t.cols == t.rows * (b * t.block) == t.rows * b * t.block;
    CeilDivExact(t.rows * g, t.group);
    CeilDivExact(t.rows * b, t.block);
  }

  datatype LookupError = CannotServe(why: Refusal) | OutOfRange

  datatype LookupResult = Rows(rows: seq<seq<real>>) | Raises(error: LookupError)

  // The lookup, from the artifact to the rows: it raises on a table it cannot
  // serve, and on an id outside [-vocab, vocab).
  method Lookup(t: Tensor, dims: nat, ids: seq<int>) returns (y: LookupResult)
    requires Refused(t, dims).None? ==> Servable(t)
    ensures Refused(t, dims).Some? ==> y == Raises(CannotServe(Refused(t, dims).value))
    ensures Refused(t, dims).None? ==> if Strays(Load(t), ids) then y == Raises(OutOfRange) else y.Rows?
    ensures y.Rows? ==> |y.rows| == |ids| && forall i :: 0 <= i < |ids| ==> IsReferenceRow(t, RowOf(Load(t), ids[i]), y.rows[i])
  {
    if Refused(t, dims).Some? {
      return Raises(CannotServe(Refused(t, dims).value));
    }
    LoadedTable(t);
    hide Strays, IsRow, IsReferenceRow, RowOf, Load, Servable, Refused, TableOk;
    var found, decoded := Forward(Load(t), ids);
    if found.None? {
      return Raises(OutOfRange);
    }
    forall i | 0 <= i < |ids|
      ensures IsReferenceRow(t, RowOf(Load(t), ids[i]), found.value[i])
    {
      RowIsReference(t, ids[i], found.value[i]);
    }
    y := Rows(found.value);
  }

  // Row `row` of the dense decode.
  ghost predicate IsReferenceRow(t: Tensor, row: Option<nat>, y: seq<real>) {
    |y| == t.cols && forall c :: 0 <= c < t.cols ==> IsReferenceElement(t, row, c, y[c])
  }

  ghost predicate IsReferenceElement(t: Tensor, row: Option<nat>, c: nat, v: real) {
    row.Some? && v == Weight(t, Flat(row.value, t.cols, c))
  }

  lemma RowIsReference(t: Tensor, id: int, y: seq<real>)
    requires Servable(t) && TableOk(Load(t)) && IsRow(Load(t), id, y)
    ensures IsReferenceRow(t, RowOf(Load(t), id), y)
  {
    var row := RowOf(Load(t), id);
    forall c | 0 <= c < t.cols
      ensures IsReferenceElement(t, row, c, y[c])
    {
      var got := y[c];
      assert row.Some? && got == EmbeddingAt(Load(t), row.value, c);
      ServedRowIsReference(t, row.value, c);
    }
  }
}
