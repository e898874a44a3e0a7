// The split-K matrix-vector kernel gemv_f4 (orka/inference/cuda_decode.py).
// Atomic adds are unordered sums.

module SplitK {
  import opened Basics
  import opened Layout
  import opened Sums
  import opened VqLayer
  import opened KernelLayout

  // -------------------------------------------------------------------- split-K

  // The part of a running sum between two bounds; nothing when they cross.
  ghost function Between(f: int -> real, lo: nat, hi: nat): real {
    if lo <= hi then Sum(f, hi) - Sum(f, lo) else 0.0
  }

  // Thread (pk, m) of gemv_f4: the groups of its K slice.
  method GemvThread(l: Layer, x: seq<real>, m: nat, lo: nat, hi: nat) returns (acc: real)
    requires |l.stores| == |l.codebooks| && l.group % 2 == 0 && Gpb(l) > 0
    ensures acc == Between(GroupPart(l, x, m), lo, hi)
  {
    acc := 0.0;
    var g := lo;
    while g < hi
      invariant lo <= g && (g <= hi || g == lo)
      invariant acc == Between(GroupPart(l, x, m), lo, g)
    {
      var term := GroupDot(l, x, m, g);
      SumNext(GroupPart(l, x, m), g);
      acc := acc + term;
      g := g + 1;
    }
  }

  // Where slice pk of size gps starts, clamped to the n groups there are.
  function SliceStart(pk: nat, gps: nat, n: nat): nat {
    Min(pk * gps, n)
  }

  // What lies before slice pk.
  ghost function Before(f: int -> real, gps: nat, n: nat, pk: nat): real {
    Sum(f, SliceStart(pk, gps, n))
  }

  // The part of a sum that slice pk covers.
  ghost function SliceSum(f: int -> real, gps: nat, n: nat): int -> real {
    (pk: int) => if pk >= 0 then Before(f, gps, n, pk + 1) - Before(f, gps, n, pk) else 0.0
  }

  lemma NothingBefore(f: int -> real, gps: nat, n: nat)
    ensures Before(f, gps, n, 0) == 0.0
  {
  }

  // The slices cover every group exactly once, whatever the split.
  lemma {:induction false} SlicesCover(f: int -> real, gps: nat, n: nat, ksplit: nat)
    ensures Sum(SliceSum(f, gps, n), ksplit) == Before(f, gps, n, ksplit)
  {
    hide Before;
    if ksplit == 0 {
      NothingBefore(f, gps, n);
    } else {
      SlicesCover(f, gps, n, ksplit - 1);
      SumNext(SliceSum(f, gps, n), ksplit - 1);
    }
  }

  lemma SliceIsThread(f: int -> real, gps: nat, n: nat, pk: nat)
    ensures var lo, hi := pk * gps, Min((pk + 1) * gps, n);
      SliceSum(f, gps, n)(pk) == Between(f, lo, hi)
  {
    assert (pk + 1) * gps == pk * gps + gps;
  }

  // What row m has received once all threads outside `pending` have added.
  ghost function Received(part: int -> real, pending: set<(nat, nat)>, m: nat, ksplit: nat): real {
    Sum(DoneTerm(part, pending, m), ksplit)
  }

  ghost function DoneTerm(part: int -> real, pending: set<(nat, nat)>, m: nat): int -> real {
    (pk: int) => if pk >= 0 && (pk, m) !in pending then part(pk) else 0.0
  }

  lemma ReceivedMore(part: int -> real, pending: set<(nat, nat)>, t: (nat, nat), m: nat, ksplit: nat)
    requires t in pending && t.0 < ksplit
    ensures Received(part, pending - {t}, m, ksplit) == Received(part, pending, m, ksplit) + (if t.1 == m then part(t.0) else 0.0)
  {
    var before, after := DoneTerm(part, pending, m), DoneTerm(part, pending - {t}, m);
    if t.1 == m {
      SumUpdate(before, after, t.0, ksplit);
    } else {
      SumCong(after, before, ksplit);
    }
  }

  lemma ReceivedAll(part: int -> real, m: nat, ksplit: nat)
    ensures Received(part, {}, m, ksplit) == Sum(part, ksplit)
  {
    SumCong(DoneTerm(part, {}, m), part, ksplit);
  }

  lemma ReceivedNone(part: int -> real, pending: set<(nat, nat)>, m: nat, ksplit: nat)
    requires forall pk: nat :: pk < ksplit ==> (pk, m) in pending
    ensures Received(part, pending, m, ksplit) == 0.0
  {
    SumZero(DoneTerm(part, pending, m), ksplit);
  }

  ghost function Slices(l: Layer, x: seq<real>, m: nat, gps: nat): int -> real
    requires |l.stores| == |l.codebooks| && Gpb(l) > 0
  {
    SliceSum(GroupPart(l, x, m), gps, Gpr(l))
  }

  lemma SlicesMakeRow(l: Layer, x: seq<real>, m: nat, ksplit: pos)
    requires Tiled(l) && m < l.rows && Gpb(l) > 0
    ensures Sum(Slices(l, x, m, CeilDiv(Gpr(l), ksplit)), ksplit) == RowDot(l, x, m)
  {
    var groups := Gpr(l);
    var gps := CeilDiv(groups, ksplit);
    SlicesCover(GroupPart(l, x, m), gps, groups, ksplit);
    CeilDivCovers(groups, ksplit);
    assert SliceStart(ksplit, gps, groups) == groups by { assert ksplit * gps == gps * ksplit; }
    GroupsMakeRow(l, x, m);
  }

  lemma ReceivedByAll(l: Layer, x: seq<real>, gps: nat, pending: set<(nat, nat)>, t: (nat, nat), ksplit: nat)
    requires |l.stores| == |l.codebooks| && Gpb(l) > 0
    requires t in pending && t.0 < ksplit
    ensures forall m: nat :: Received(Slices(l, x, m, gps), pending - {t}, m, ksplit)
             == Received(Slices(l, x, m, gps), pending, m, ksplit) + (if t.1 == m then Slices(l, x, m, gps)(t.0) else 0.0)
  {
    forall m: nat
      ensures Received(Slices(l, x, m, gps), pending - {t}, m, ksplit)
           == Received(Slices(l, x, m, gps), pending, m, ksplit) + (if t.1 == m then Slices(l, x, m, gps)(t.0) else 0.0)
    {
      ReceivedMore(Slices(l, x, m, gps), pending, t, m, ksplit);
    }
  }

  // The bounds thread (pk, m) computes from its block index.
  method GemvSlice(l: Layer, x: seq<real>, ksplit: pos, gps: nat, pk: nat, m: nat) returns (acc: real)
    requires |l.stores| == |l.codebooks| && l.group % 2 == 0 && Gpb(l) > 0
    ensures acc == Slices(l, x, m, gps)(pk)
  {
    acc := GemvThread(l, x, m, pk * gps, Min((pk + 1) * gps, Gpr(l)));
    SliceIsThread(GroupPart(l, x, m), gps, Gpr(l), pk);
  }

  // gemv_f4 over its whole grid, threads adding to y in any order.
  method GemvF4(l: Layer, x: seq<real>, ksplit: pos) returns (y: seq<real>)
    requires Tiled(l) && l.group % 2 == 0 && l.groupMajor && |l.stores| == 2
    ensures |y| == l.rows
    ensures forall m :: 0 <= m < l.rows ==> y[m] == RowDot(l, x, m)
  {
    var gps := CeilDiv(Gpr(l), ksplit);
    GroupsPerBlock(l);
    y := Filled(l.rows, 0.0);
    var pending: set<(nat, nat)> := set pk: nat, m: nat | pk < ksplit && m < l.rows :: (pk, m);
    forall m | 0 <= m < l.rows
      ensures Received(Slices(l, x, m, gps), pending, m, ksplit) == 0.0
    {
      ReceivedNone(Slices(l, x, m, gps), pending, m, ksplit);
    }
    while pending != {}
      invariant |y| == l.rows
      invariant forall t :: t in pending ==> t.0 < ksplit && t.1 < l.rows
      invariant forall m :: 0 <= m < l.rows ==> y[m] == Received(Slices(l, x, m, gps), pending, m, ksplit)
      decreases pending
    {
      var t :| t in pending;
      var acc := GemvSlice(l, x, ksplit, gps, t.0, t.1);
      ReceivedByAll(l, x, gps, pending, t, ksplit);
      y := y[t.1 := y[t.1] + acc];
      pending := pending - {t};
    }
    forall m | 0 <= m < l.rows
      ensures y[m] == RowDot(l, x, m)
    {
      ReceivedAll(Slices(l, x, m, gps), m, ksplit);
      SlicesMakeRow(l, x, m, ksplit);
    }
  }
}
