// Row permutations of the exporters: detecting one (scripts/export_gguf_orka.py),
// building the rope permutation (scripts/export_gguf_llama.py), and when either
// is a bijection.

module RowPermutation {
  import opened Basics
  import opened Layout

  type Row = seq<real>

  ghost predicate Distinct<T>(s: seq<T>) {
    forall a, b :: 0 <= a < b < |s| ==> s[a] != s[b]
  }

  ghost predicate Covering(perm: seq<nat>) {
    forall r: nat :: r < |perm| ==> r in perm
  }

  // Every row exactly once.
  ghost predicate IsPermutation(perm: seq<nat>, n: nat) {
    && |perm| == n && (forall i :: 0 <= i < n ==> perm[i] < n)
    && Distinct(perm) && Covering(perm)
  }

  ghost function Values(perm: seq<nat>): set<nat> {
    set i | 0 <= i < |perm| :: perm[i]
  }

  lemma {:induction false} DistinctCount(perm: seq<nat>)
    requires Distinct(perm)
    ensures |Values(perm)| == |perm|
  {
    if |perm| > 0 {
      var front := perm[..|perm| - 1];
      assert forall i :: 0 <= i < |front| ==> front[i] == perm[i];
      DistinctCount(front);
      assert Values(perm) == Values(front) + {perm[|perm| - 1]};
    }
  }

  ghost function UpTo(n: nat): (s: set<nat>)
    ensures |s| == n && forall r: nat :: r in s <==> r < n
  {
    if n == 0 then {} else UpTo(n - 1) + {n - 1}
  }

  lemma SubsetOfSameSize(a: set<nat>, b: set<nat>)
    requires a <= b && |a| == |b|
    ensures a == b
  {
    if a != b {
      var x :| x in b && x !in a;
      assert a <= b - {x};
      SubsetSize(a, b - {x});
    }
  }

  lemma {:induction false} SubsetSize(a: set<nat>, b: set<nat>)
    requires a <= b
    ensures |a| <= |b|
  {
    if a != {} {
      var x :| x in a;
      SubsetSize(a - {x}, b - {x});
    }
  }

  // n distinct values below n are all of them.
  lemma DistinctCovers(perm: seq<nat>)
    requires Distinct(perm) && forall i :: 0 <= i < |perm| ==> perm[i] < |perm|
    ensures Covering(perm)
  {
    var n := |perm|;
    DistinctCount(perm);
    SubsetOfSameSize(Values(perm), UpTo(n));
    forall r: nat | r < n
      ensures r in perm
    {
      assert r in Values(perm);
    }
  }

  // ------------------------------------------------------------- row_permutation

  // Row contents stand for their hashes.
  ghost predicate Finds(src: seq<Row>, dst: seq<Row>, perm: seq<nat>) {
    |perm| == |dst| && forall i :: 0 <= i < |dst| ==> perm[i] < |src| && dst[i] == src[perm[i]]
  }

  method RowPermutation(src: seq<Row>, dst: seq<Row>) returns (r: Option<seq<nat>>)
    ensures r.Some? <==> |src| == |dst| && Distinct(src) && forall i :: 0 <= i < |dst| ==> dst[i] in src
    ensures r.Some? ==> Finds(src, dst, r.value)
  {
    if |src| != |dst| {
      return None;
    }
    var pos: map<Row, nat> := map[];
    for i := 0 to |src|
      invariant forall h :: h in pos ==> pos[h] < i && src[pos[h]] == h
      invariant forall j :: 0 <= j < i ==> src[j] in pos
      invariant forall a, b :: 0 <= a < b < i ==> src[a] != src[b]
    {
      if src[i] in pos {
        assert src[pos[src[i]]] == src[i];
        return None;
      }
      pos := pos[src[i] := i];
    }
    var perm: seq<nat> := [];
    for i := 0 to |dst|
      invariant |perm| == i
      invariant forall j :: 0 <= j < i ==> perm[j] < |src| && dst[j] == src[perm[j]]
    {
      if dst[i] !in pos {
        return None;
      }
      perm := perm + [pos[dst[i]]];
    }
    r := Some(perm);
  }

  // What is found is a permutation exactly when the target repeats no row.
  lemma FoundIsPermutation(src: seq<Row>, dst: seq<Row>, perm: seq<nat>)
    requires |src| == |dst| && Distinct(src) && Finds(src, dst, perm)
    ensures IsPermutation(perm, |src|) <==> Distinct(dst)
  {
    if Distinct(dst) {
      forall a, b | 0 <= a < b < |perm|
        ensures perm[a] != perm[b]
      {
        assert dst[a] != dst[b];
      }
      DistinctCovers(perm);
    }
    if IsPermutation(perm, |src|) {
      forall a, b | 0 <= a < b < |dst|
        ensures dst[a] != dst[b]
      {
        assert perm[a] != perm[b];
        assert perm[a] < perm[b] || perm[b] < perm[a];
      }
    }
  }

  // A target with a repeated row gets an answer that is not a permutation.
  lemma RepeatedTargetRow()
    ensures var a, b := [0.0], [1.0];
      && Distinct([a, b]) && Finds([a, b], [a, a], [0, 0]) && !IsPermutation([0, 0], 2)
  {
    var a, b := [0.0], [1.0];
    assert a[0] != b[0];
    assert 1 !in [0, 0];
  }

  // ------------------------------------------------------------------ perm_rows

  // Which place of a head lands at place r: pairs (j, j + half) are brought
  // together.
  function Paired(half: nat, r: nat): nat {
    Flat(Rem(r, 2), half, Quot(r, 2))
  }

  function Unpaired(half: pos, r: nat): nat {
    Flat(Rem(r, half), 2, Quot(r, half))
  }

  // Which old row lands at row `new`, head by head.
  function OldRow(headDim: pos, new_: nat): nat {
    Flat(Quot(new_, headDim), headDim, Paired(headDim / 2, Rem(new_, headDim)))
  }

  function NewRow(headDim: nat, old_: nat): nat
    requires headDim >= 2
  {
    Flat(Quot(old_, headDim), headDim, Unpaired(headDim / 2, Rem(old_, headDim)))
  }

  // Pairing and unpairing undo each other within a head.
  lemma PairedInverse(half: pos, r: nat)
    requires r < 2 * half
    ensures Paired(half, r) < 2 * half && Unpaired(half, r) < 2 * half
    ensures Unpaired(half, Paired(half, r)) == r
    ensures Paired(half, Unpaired(half, r)) == r
  {
    assert Quot(r, 2) < half;
    QuotBound(r, 2, half);
    FlatBound(Rem(r, 2), Quot(r, 2), 2, half);
    FlatBound(Rem(r, half), Quot(r, half), half, 2);
    FlatQuotRem(r, 2);
    FlatQuotRem(r, half);
    QuotRemOfFlat(Rem(r, 2), half, Quot(r, 2));
    QuotRemOfFlat(Rem(r, half), 2, Quot(r, half));
    hide Quot, Rem;
  }

  // The two maps undo each other, for every head count and even head size.
  lemma RopeRoundTrip(headDim: nat, heads: nat, row: nat)
    requires headDim >= 2 && headDim % 2 == 0 && row < heads * headDim
    ensures OldRow(headDim, row) < heads * headDim && NewRow(headDim, row) < heads * headDim
    ensures NewRow(headDim, OldRow(headDim, row)) == row
    ensures OldRow(headDim, NewRow(headDim, row)) == row
  {
    hide Paired, Unpaired, Quot, Rem;
    var half, h, r := headDim / 2, Quot(row, headDim), Rem(row, headDim);
    QuotBound(row, heads, headDim);
    FlatQuotRem(row, headDim);
    PairedInverse(half, r);
    var r', r'' := Paired(half, r), Unpaired(half, r);
    QuotRemOfFlat(h, headDim, r');
    QuotRemOfFlat(h, headDim, r'');
    FlatBound(h, r', heads, headDim);
    FlatBound(h, r'', heads, headDim);
  }

  // What position base + k of a head receives.
  function HalfRow(base: nat, half: nat, k: nat): nat {
    base + (k % 2 * half + k / 2)
  }

  lemma HalfRowIsOld(headDim: pos, h: nat, n: nat)
    requires n / headDim == h && n % headDim < 2 * (headDim / 2)
    ensures h * headDim >= 0 && n - h * headDim == n % headDim
    ensures HalfRow(h * headDim, headDim / 2, n % headDim) == OldRow(headDim, n)
  {
  }

  lemma PairPlace(base: nat, half: nat, from: nat, j: nat, s: nat)
    requires s < 2 && from == Flat(s, half, base)
    ensures (2 * j + s) % 2 == s && HalfRow(base, half, 2 * j + s) == from + j
  {
    assert (2 * j + s) / 2 == j;
  }

  // One head's rows.
  method PermHead(p: array<nat>, base: nat, half: nat)
    requires base + 2 * half <= p.Length
    modifies p
    ensures forall n :: 0 <= n < p.Length && !(base <= n < base + 2 * half) ==> p[n] == old(p[n])
    ensures forall n :: base <= n < base + 2 * half ==> p[n] == HalfRow(base, half, n - base)
  {
    hide HalfRow, Flat;
    for s := 0 to 2
      invariant forall n :: 0 <= n < p.Length && !(base <= n < base + 2 * half) ==> p[n] == old(p[n])
      invariant forall n :: base <= n < base + 2 * half && (n - base) % 2 < s ==> p[n] == HalfRow(base, half, n - base)
    {
      var from: nat := Flat(s, half, base);
      for j := 0 to half
        invariant forall n :: 0 <= n < p.Length && !(base <= n < base + 2 * half) ==> p[n] == old(p[n])
        invariant forall n :: base <= n < base + 2 * half && (n - base) % 2 < s ==> p[n] == HalfRow(base, half, n - base)
        invariant forall n :: base <= n < base + 2 * j && (n - base) % 2 == s ==> p[n] == HalfRow(base, half, n - base)
      {
        PairPlace(base, half, from, j, s);
        p[base + j * 2 + s] := from + j;
      }
    }
  }

  // The permutation as a table. An odd head size leaves the last row of each
  // head unset.
  method PermRows(heads: nat, headDim: pos) returns (p: array<nat>)
    ensures p.Length == heads * headDim
    ensures forall n :: 0 <= n < p.Length && n % headDim < 2 * (headDim / 2) ==> p[n] == OldRow(headDim, n)
  {
    hide OldRow, HalfRow;
    p := new nat[heads * headDim];
    for h := 0 to heads
      invariant forall n :: 0 <= n < p.Length && n / headDim < h && n % headDim < 2 * (headDim / 2) ==> p[n] == OldRow(headDim, n)
    {
      MulMono(h + 1, heads, headDim);
      assert (h + 1) * headDim == h * headDim + headDim;
      PermHead(p, h * headDim, headDim / 2);
      HeadDone(p, headDim, h);
    }
    forall n | 0 <= n < p.Length
      ensures n / headDim < heads
    {
      DivBound(n, heads, headDim);
    }
  }

  // Row 2 * j + s of a head is its old row s * half + j.
  lemma OldRowOf(headDim: nat, h: nat, j: nat, s: nat)
    requires s < 2 && j < headDim / 2
    ensures OldRow(headDim, h * headDim + 2 * j + s) == h * headDim + s * (headDim / 2) + j
  {
    var half, r := headDim / 2, 2 * j + s;
    QuotRemOfFlat(h, headDim, r);
    QuotRemOfFlat(j, 2, s);
    assert Flat(h, headDim, r) == h * headDim + 2 * j + s && Flat(j, 2, s) == r;
    hide Quot, Rem;
    assert OldRow(headDim, Flat(h, headDim, r)) == Flat(h, headDim, Paired(half, r));
    assert Paired(half, r) == Flat(s, half, j);
  }

  lemma HeadDone(p: array<nat>, headDim: pos, h: nat)
    requires 0 <= h * headDim && (h + 1) * headDim <= p.Length
    requires forall n :: h * headDim <= n < h * headDim + 2 * (headDim / 2) ==> p[n] == HalfRow(h * headDim, headDim / 2, n - h * headDim)
    ensures forall n :: 0 <= n < p.Length && n / headDim == h && n % headDim < 2 * (headDim / 2) ==> p[n] == OldRow(headDim, n)
    ensures forall n :: 0 <= n < p.Length && n / headDim < h ==> n < h * headDim
  {
    forall n | 0 <= n < p.Length && n / headDim == h && n % headDim < 2 * (headDim / 2)
      ensures p[n] == OldRow(headDim, n)
    {
      HalfRowIsOld(headDim, h, n);
    }
    forall n | 0 <= n < p.Length && n / headDim < h
      ensures n < h * headDim
    {
      MulMono(n / headDim + 1, h, headDim);
      assert n == n / headDim * headDim + n % headDim;
    }
  }

  // For an even head size the table is a permutation of all rows.
  lemma RopeIsPermutation(p: seq<nat>, heads: nat, headDim: nat)
    requires headDim >= 2 && headDim % 2 == 0 && |p| == heads * headDim
    requires forall n :: 0 <= n < |p| ==> p[n] == OldRow(headDim, n)
    ensures IsPermutation(p, |p|)
  {
    forall n | 0 <= n < |p|
      ensures p[n] < |p| && NewRow(headDim, p[n]) == n
    {
      RopeRoundTrip(headDim, heads, n);
    }
    forall r: nat | r < |p|
      ensures r in p
    {
      RopeRoundTrip(headDim, heads, r);
      assert p[NewRow(headDim, r)] == r;
    }
  }
}
