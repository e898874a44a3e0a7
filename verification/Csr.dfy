// The sparse correction: CSR as a list of (flat position, delta) entries, its
// construction by a stable row sort, and its product with a vector.

module CsrMatrix {
  import opened Basics
  import opened Layout
  import opened Sums
  import opened Reference
  import opened Sorting

  datatype Csr = Csr(rowptr: seq<int>, col: seq<int>, val: seq<real>)

  // An M x K matrix in CSR form.
  predicate Shaped(c: Csr, m: nat, k: nat) {
    && |c.rowptr| == m + 1 && |c.val| == |c.col|
    && c.rowptr[0] == 0 && c.rowptr[m] == |c.col|
    && (forall a, b :: 0 <= a <= b <= m ==> c.rowptr[a] <= c.rowptr[b])
    && (forall j :: 0 <= j < |c.col| ==> 0 <= c.col[j] < k)
  }

  function Repeated(row: nat, n: nat): (r: seq<int>)
    ensures |r| == n && forall j :: 0 <= j < n ==> r[j] == row
  {
    seq(n, j => row)
  }

  // repeat_interleave(arange(m), rowptr[1:] - rowptr[:-1])
  function ExpandRows(rowptr: seq<int>, m: nat): (r: seq<int>)
    requires m < |rowptr| && rowptr[0] == 0
    requires forall a, b :: 0 <= a <= b <= m ==> rowptr[a] <= rowptr[b]
    ensures |r| == rowptr[m]
    ensures forall j :: 0 <= j < |r| ==> 0 <= r[j] < m
    ensures forall i, j :: 0 <= i < m && rowptr[i] <= j < rowptr[m] ==> (r[j] == i <==> j < rowptr[i + 1])
    ensures forall i, j :: 0 <= i < m && 0 <= j < rowptr[i] ==> r[j] < i
  {
    if m == 0 then []
    else
      assert rowptr[m - 1] <= rowptr[m];
      ExpandRows(rowptr, m - 1) + Repeated(m - 1, rowptr[m] - rowptr[m - 1])
  }

  // The entries in storage order, as (row * K + col, val).
  function Entries(c: Csr, m: nat, k: nat): (r: Sidecar)
    requires Shaped(c, m, k)
    ensures |r| == |c.col|
  {
    var rows := ExpandRows(c.rowptr, m);
    seq(|c.col|, j requires 0 <= j < |c.col| => (Flat(rows[j], k, c.col[j]), c.val[j]))
  }

  // The sum of the first n values stored for position p.
  function AddedUpTo(side: Sidecar, n: nat, p: int): real
    requires n <= |side|
  {
    if n == 0 then 0.0
    else AddedUpTo(side, n - 1, p) + (if side[n - 1].0 == p then side[n - 1].1 else 0.0)
  }

  function Added(side: Sidecar, p: int): real {
    AddedUpTo(side, |side|, p)
  }

  // The element the matrix holds at flat position p.
  function CsrAt(c: Csr, m: nat, k: nat, p: int): real
    requires Shaped(c, m, k)
  {
    Added(Entries(c, m, k), p)
  }

  // ---------------------------------------------- sparse lists without repeats

  predicate Distinct(side: Sidecar, n: nat)
    requires n <= |side|
  {
    forall a, b :: 0 <= a < b < n ==> side[a].0 != side[b].0
  }

  // A matrix in CSR form that stores no place twice.
  predicate Sparse(c: Csr, m: nat, k: nat) {
    Shaped(c, m, k) && Distinct(Entries(c, m, k), |c.col|)
  }

  lemma {:induction false} AddedAbsent(side: Sidecar, n: nat, p: int)
    requires n <= |side| && forall j :: 0 <= j < n ==> side[j].0 != p
    ensures AddedUpTo(side, n, p) == 0.0
  {
    if n > 0 {
      AddedAbsent(side, n - 1, p);
    }
  }

  lemma {:induction false} AddedOnce(side: Sidecar, n: nat, j: nat)
    requires j < n <= |side| && Distinct(side, n)
    ensures AddedUpTo(side, n, side[j].0) == side[j].1
  {
    if j == n - 1 {
      AddedAbsent(side, n - 1, side[j].0);
    } else {
      AddedOnce(side, n - 1, j);
    }
  }

  lemma {:induction false} AddedPrefix(a: Sidecar, b: Sidecar, n: nat, p: int)
    requires n <= |a| && n <= |b| && forall j :: 0 <= j < n ==> a[j] == b[j]
    ensures AddedUpTo(a, n, p) == AddedUpTo(b, n, p)
  {
    if n > 0 {
      AddedPrefix(a, b, n - 1, p);
    }
  }

  // ------------------------------------------------------- building by row sort

  lemma {:induction false} AddedInserted(side: Sidecar, keys: seq<int>, order: seq<nat>, x: nat, p: int)
    requires |keys| == |side| && x < |side| && forall j :: 0 <= j < |order| ==> order[j] < x
    ensures forall j :: 0 <= j < |Insert(keys, order, x)| ==> Insert(keys, order, x)[j] < |side|
    ensures Added(Reorder(side, Insert(keys, order, x)), p)
         == Added(Reorder(side, order), p) + (if side[x].0 == p then side[x].1 else 0.0)
  {
    InsertShape(keys, order, x);
    var ins := Insert(keys, order, x);
    var n := |order|;
    if n == 0 || keys[order[n - 1]] <= keys[x] {
      AddedPrefix(Reorder(side, ins), Reorder(side, order), n, p);
    } else {
      var rest := order[..n - 1];
      InsertShape(keys, rest, x);
      AddedInserted(side, keys, rest, x, p);
      AddedPrefix(Reorder(side, ins), Reorder(side, Insert(keys, rest, x)), n, p);
      AddedPrefix(Reorder(side, order), Reorder(side, rest), n - 1, p);
    }
  }

  lemma {:induction false} AddedSorted(side: Sidecar, keys: seq<int>, n: nat, p: int)
    requires |keys| == |side| && n <= |side|
    ensures Added(Reorder(side, ArgsortUpTo(keys, n)), p) == AddedUpTo(side, n, p)
  {
    if n > 0 {
      AddedSorted(side, keys, n - 1, p);
      AddedInserted(side, keys, ArgsortUpTo(keys, n - 1), n - 1, p);
    }
  }

  function RowKeys(side: Sidecar, k: pos): (r: seq<int>)
    requires forall j :: 0 <= j < |side| ==> 0 <= side[j].0
    ensures |r| == |side| && forall j :: 0 <= j < |r| ==> r[j] == side[j].0 / k
  {
    seq(|side|, j requires 0 <= j < |side| => side[j].0 / k)
  }

  // Sort by row, cumulate the row counts, store columns and values.
  function FromEntries(side: Sidecar, m: nat, k: pos): Csr
    requires forall j :: 0 <= j < |side| ==> 0 <= side[j].0 < m * k
  {
    var keys := RowKeys(side, k);
    var order := StableArgsort(keys);
    Csr(Offsets(Bincount(keys, m)),
        seq(|side|, j requires 0 <= j < |side| => side[order[j]].0 % k),
        seq(|side|, j requires 0 <= j < |side| => side[order[j]].1))
  }

  lemma RowsInRange(side: Sidecar, m: nat, k: pos)
    requires forall j :: 0 <= j < |side| ==> 0 <= side[j].0 < m * k
    ensures forall j :: 0 <= j < |side| ==> 0 <= RowKeys(side, k)[j] < m
  {
    forall j | 0 <= j < |side|
      ensures 0 <= RowKeys(side, k)[j] < m
    {
      DivBound(side[j].0, m, k);
    }
  }

  lemma FromEntriesShaped(side: Sidecar, m: nat, k: pos)
    requires forall j :: 0 <= j < |side| ==> 0 <= side[j].0 < m * k
    ensures Shaped(FromEntries(side, m, k), m, k)
  {
    RowsInRange(side, m, k);
    OffsetsShape(RowKeys(side, k), m);
  }

  lemma EntryOf(side: Sidecar, m: nat, k: pos, j: nat)
    requires forall j :: 0 <= j < |side| ==> 0 <= side[j].0 < m * k
    requires Shaped(FromEntries(side, m, k), m, k) && j < |side|
    ensures ExpandRows(FromEntries(side, m, k).rowptr, m)[j] == RowKeys(side, k)[StableArgsort(RowKeys(side, k))[j]]
  {
    RowsInRange(side, m, k);
    var keys := RowKeys(side, k);
    var r := keys[StableArgsort(keys)[j]];
    Segments(keys, m, r, j);
  }

  // The CSR lists the same entries, in row order.
  lemma FromEntriesEntries(side: Sidecar, m: nat, k: pos)
    requires forall j :: 0 <= j < |side| ==> 0 <= side[j].0 < m * k
    ensures Shaped(FromEntries(side, m, k), m, k)
    ensures Entries(FromEntries(side, m, k), m, k) == Reorder(side, StableArgsort(RowKeys(side, k)))
  {
    FromEntriesShaped(side, m, k);
    var order := StableArgsort(RowKeys(side, k));
    var c := FromEntries(side, m, k);
    forall j | 0 <= j < |side|
      ensures Entries(c, m, k)[j] == side[order[j]]
    {
      EntryOf(side, m, k, j);
      DivBound(side[order[j]].0, m, k);
    }
  }

  lemma FromEntriesSparse(side: Sidecar, m: nat, k: pos)
    requires forall j :: 0 <= j < |side| ==> 0 <= side[j].0 < m * k
    requires Distinct(side, |side|)
    ensures Sparse(FromEntries(side, m, k), m, k)
  {
    FromEntriesEntries(side, m, k);
    var keys := RowKeys(side, k);
    var order := StableArgsort(keys);
    ArgsortCorrect(keys, |keys|);
    forall a, b | 0 <= a < b < |side|
      ensures side[order[a]].0 != side[order[b]].0
    {
      assert order[a] != order[b];
      assert order[a] < order[b] || order[b] < order[a];
    }
  }

  // Building the CSR keeps every element of the sparse matrix.
  lemma FromEntriesAt(side: Sidecar, m: nat, k: pos, p: int)
    requires forall j :: 0 <= j < |side| ==> 0 <= side[j].0 < m * k
    ensures Shaped(FromEntries(side, m, k), m, k)
    ensures CsrAt(FromEntries(side, m, k), m, k, p) == Added(side, p)
  {
    FromEntriesEntries(side, m, k);
    AddedSorted(side, RowKeys(side, k), |side|, p);
  }

  // ------------------------------------------------------------- matrix-vector

  ghost function DenseTerm(side: Sidecar, n: nat, x: int -> real, row: nat, k: nat): int -> real
    requires n <= |side|
  {
    (c: int) => Times(AddedUpTo(side, n, Flat(row, k, c)), x(c))
  }

  ghost function EntryTerm(c: Csr, x: int -> real, row: nat, rows: seq<int>): int -> real {
    (j: int) => if 0 <= j < |rows| && rows[j] == row then Times(At(c.val, j), x(IntAt(c.col, j))) else 0.0
  }

  // What the kernels accumulate for one row: a walk over its slice.
  ghost function SliceTerm(c: Csr, x: int -> real, start: nat): int -> real {
    (j: int) => Times(At(c.val, start + j), x(IntAt(c.col, start + j)))
  }

  // One more entry (r, cc, v) adds v * x(cc) to row r and nothing elsewhere.
  lemma DenseStep(side: Sidecar, n: nat, x: int -> real, row: nat, k: nat, r: nat, cc: nat)
    requires n < |side| && side[n].0 == Flat(r, k, cc) && cc < k
    ensures Sum(DenseTerm(side, n + 1, x, row, k), k)
         == Sum(DenseTerm(side, n, x, row, k), k) + (if r == row then Times(side[n].1, x(cc)) else 0.0)
  {
    var before, after := DenseTerm(side, n, x, row, k), DenseTerm(side, n + 1, x, row, k);
    forall c' {:trigger after(c')} | 0 <= c' < k
      ensures r != row || c' != cc ==> after(c') == before(c')
    {
      SamePlace(r, cc, row, c', k);
      if r != row || c' != cc {
        var p := Flat(row, k, c');
        assert side[n].0 != p;
        assert AddedUpTo(side, n + 1, p) == AddedUpTo(side, n, p);
      }
    }
    if r == row {
      Distribute(AddedUpTo(side, n, Flat(row, k, cc)), side[n].1, x(cc));
      SumUpdate(before, after, cc, k);
    } else {
      SumCong(before, after, k);
    }
  }

  lemma {:induction false} DenseIsEntries(side: Sidecar, c: Csr, rows: seq<int>, k: nat, x: int -> real, row: nat, n: nat)
    requires n <= |c.col| == |c.val| == |side| == |rows|
    requires forall j :: 0 <= j < n ==> 0 <= rows[j] && 0 <= c.col[j] < k && side[j] == (Flat(rows[j], k, c.col[j]), c.val[j])
    ensures Sum(DenseTerm(side, n, x, row, k), k) == Sum(EntryTerm(c, x, row, rows), n)
  {
    if n == 0 {
      var zero := DenseTerm(side, n, x, row, k);
      forall i {:trigger zero(i)} | 0 <= i < k
        ensures zero(i) == 0.0
      {
        TimesZero(x(i));
      }
      SumZero(zero, k);
    } else {
      DenseIsEntries(side, c, rows, k, x, row, n - 1);
      assert side[n - 1].1 == At(c.val, n - 1) && IntAt(c.col, n - 1) == c.col[n - 1];
      DenseStep(side, n - 1, x, row, k, rows[n - 1], c.col[n - 1]);
    }
  }

  // Entry j counts for the row exactly when it lies in the row's slice.
  lemma EntryInSlice(c: Csr, m: nat, k: nat, x: int -> real, row: nat, j: nat)
    requires Shaped(c, m, k) && row < m && j < |c.col|
    ensures EntryTerm(c, x, row, ExpandRows(c.rowptr, m))(j)
         == if c.rowptr[row] <= j < c.rowptr[row + 1] then SliceTerm(c, x, 0)(j) else 0.0
  {
    var rows := ExpandRows(c.rowptr, m);
    assert c.rowptr[row] <= c.rowptr[row + 1] <= c.rowptr[m];
  }

  lemma RowBounds(c: Csr, m: nat, k: nat, row: nat)
    requires Shaped(c, m, k) && row < m
    ensures row + 1 < |c.rowptr| && 0 <= c.rowptr[row] <= c.rowptr[row + 1] <= |c.col|
  {
    assert c.rowptr[0] <= c.rowptr[row] <= c.rowptr[row + 1] <= c.rowptr[m];
  }

  lemma EntriesInWindow(c: Csr, m: nat, k: nat, x: int -> real, row: nat)
    requires Shaped(c, m, k) && row < m
    ensures forall j :: 0 <= j < |c.col| ==>
      EntryTerm(c, x, row, ExpandRows(c.rowptr, m))(j)
      == if c.rowptr[row] <= j < c.rowptr[row + 1] then SliceTerm(c, x, 0)(j) else 0.0
  {
    hide EntryTerm, SliceTerm;
    forall j | 0 <= j < |c.col|
      ensures EntryTerm(c, x, row, ExpandRows(c.rowptr, m))(j)
           == if c.rowptr[row] <= j < c.rowptr[row + 1] then SliceTerm(c, x, 0)(j) else 0.0
    {
      EntryInSlice(c, m, k, x, row, j);
    }
  }

  lemma SliceFrom(c: Csr, x: int -> real, lo: nat, n: nat)
    ensures forall i :: 0 <= i < n ==> SliceTerm(c, x, lo)(i) == SliceTerm(c, x, 0)(lo + i)
  {
  }

  // Entries outside the row's slice contribute nothing to it.
  lemma EntriesInSlice(c: Csr, m: nat, k: nat, x: int -> real, row: nat)
    requires Shaped(c, m, k) && row < m
    ensures 0 <= c.rowptr[row] <= c.rowptr[row + 1] <= |c.col|
    ensures Sum(EntryTerm(c, x, row, ExpandRows(c.rowptr, m)), |c.col|)
         == Sum(SliceTerm(c, x, c.rowptr[row]), c.rowptr[row + 1] - c.rowptr[row])
  {
    RowBounds(c, m, k, row);
    EntriesInWindow(c, m, k, x, row);
    var lo, hi := c.rowptr[row], c.rowptr[row + 1];
    SliceFrom(c, x, lo, hi - lo);
    hide EntryTerm, SliceTerm, Shaped;
    WindowSlice(EntryTerm(c, x, row, ExpandRows(c.rowptr, m)), SliceTerm(c, x, 0), SliceTerm(c, x, lo), lo, hi, |c.col|);
  }

  ghost function MatrixTerm(c: Csr, m: nat, k: nat, x: int -> real, row: nat): int -> real
    requires Shaped(c, m, k)
  {
    (j: int) => Times(CsrAt(c, m, k, Flat(row, k, j)), x(j))
  }

  // Row `row` of the sparse matrix times x is the walk over its CSR slice.
  lemma RowProduct(c: Csr, m: nat, k: nat, x: int -> real, row: nat)
    requires Shaped(c, m, k) && row < m
    ensures 0 <= c.rowptr[row] <= c.rowptr[row + 1] <= |c.col|
    ensures Sum(MatrixTerm(c, m, k, x, row), k)
         == Sum(SliceTerm(c, x, c.rowptr[row]), c.rowptr[row + 1] - c.rowptr[row])
  {
    var side := Entries(c, m, k);
    EntriesInSlice(c, m, k, x, row);
    DenseIsEntries(side, c, ExpandRows(c.rowptr, m), k, x, row, |side|);
    var f, g := MatrixTerm(c, m, k, x, row), DenseTerm(side, |side|, x, row, k);
    forall j {:trigger f(j)} | 0 <= j < k
      ensures f(j) == g(j)
    {
      assert CsrAt(c, m, k, Flat(row, k, j)) == AddedUpTo(side, |side|, Flat(row, k, j));
    }
    SumCong(f, g, k);
  }
}
