// Deterministic grouped sums (orka/codebook/_kmeans_torch.py, _segsum_kernel.py):
// a stable sort by key, contiguous segments, and one tile-by-tile sum per segment.

module SegmentSum {
  import opened Basics
  import opened Sums
  import opened Sorting
  import opened Distances
  import opened Lloyd

  ghost predicate KeysOk(keys: seq<int>, k: nat) {
    forall i :: 0 <= i < |keys| ==> 0 <= keys[i] < k
  }

  // One dimension of the values.
  function Column(values: seq<Vec>, d: int): int -> real {
    (i: int) => At(RowAt(values, i), d)
  }

  // What the group-by of one dimension is.
  function Grouped(keys: seq<int>, values: seq<Vec>, j: int, d: int): real {
    GroupSum(Key(keys), Column(values, d), j, |keys|)
  }

  // Position p of the sorted order, read through the order.
  function Gathered(order: seq<nat>, f: int -> real): int -> real {
    (p: int) => if 0 <= p < |order| then f(order[p]) else 0.0
  }

  // ---------------------------------------------------- segments are the groups

  function InGroup(keys: seq<int>, f: int -> real, j: int): int -> real {
    (i: int) => if IntAt(keys, i) == j then f(i) else 0.0
  }

  // Position p of the sorted order holds a member of group j exactly inside
  // segment j.
  lemma TermInSegment(keys: seq<int>, k: nat, f: int -> real, j: nat, p: nat)
    requires KeysOk(keys, k) && j < k && p < |keys|
    ensures var o, order := Offsets(Bincount(keys, k)), StableArgsort(keys);
      Gathered(order, InGroup(keys, f, j))(p) == if o[j] <= p < o[j + 1] then Gathered(order, f)(p) else 0.0
  {
    Segments(keys, k, j, p);
    var order, o := StableArgsort(keys), Offsets(Bincount(keys, k));
    assert o[j] <= p < o[j + 1] <==> keys[order[p]] == j;
    assert InGroup(keys, f, j)(order[p]) == if keys[order[p]] == j then f(order[p]) else 0.0;
    assert Gathered(order, InGroup(keys, f, j))(p) == InGroup(keys, f, j)(order[p]);
    assert Gathered(order, f)(p) == f(order[p]);
  }

  // The group, read in sorted order.
  lemma GroupInOrder(keys: seq<int>, f: int -> real, j: nat)
    ensures GroupSum(Key(keys), f, j, |keys|) == Sum(Gathered(StableArgsort(keys), InGroup(keys, f, j)), |keys|)
  {
    hide ArgsortUpTo;
    var order, g := StableArgsort(keys), InGroup(keys, f, j);
    GroupSumIsSum(Key(keys), f, j, |keys|, g);
    ArgsortSum(g, keys, |keys|);
    SumOverIsSum(g, order, Gathered(order, g));
  }

  // The slice of the sorted order between two offsets sums to the group.
  lemma SegmentIsGroup(keys: seq<int>, k: nat, f: int -> real, j: nat)
    requires KeysOk(keys, k) && j < k
    ensures var o := Offsets(Bincount(keys, k)); var h := Gathered(StableArgsort(keys), f);
      o[j] <= o[j + 1] <= |keys| && Sum(h, o[j + 1]) - Sum(h, o[j]) == GroupSum(Key(keys), f, j, |keys|)
  {
    hide Offsets, Bincount, Gathered, InGroup, StableArgsort;
    var o, n := Offsets(Bincount(keys, k)), |keys|;
    OffsetsShape(keys, k);
    GroupInOrder(keys, f, j);
    var h := Gathered(StableArgsort(keys), InGroup(keys, f, j));
    forall p {:trigger h(p)} | 0 <= p < n
      ensures h(p) == if o[j] <= p < o[j + 1] then Gathered(StableArgsort(keys), f)(p) else 0.0
    {
      TermInSegment(keys, k, f, j, p);
    }
    SumWindow(h, Gathered(StableArgsort(keys), f), o[j], o[j + 1], n);
  }

  // ------------------------------------------------------------------ the kernel

  // One tile of one dimension: blockR lanes, those past the end masked to 0.
  method TileSum(values: seq<Vec>, order: seq<nat>, r0: nat, end: nat, blockR: pos, d: nat) returns (sum: real)
    requires r0 < end <= |order|
    ensures var stop := if r0 + blockR < end then r0 + blockR else end;
      sum == Sum(Gathered(order, Column(values, d)), stop) - Sum(Gathered(order, Column(values, d)), r0)
  {
    sum := 0.0;
    for lane := 0 to blockR
      invariant var stop := if r0 + lane < end then r0 + lane else end;
        sum == Sum(Gathered(order, Column(values, d)), stop) - Sum(Gathered(order, Column(values, d)), r0)
    {
      var rr := r0 + lane;
      var loaded := if rr < end then At(RowAt(values, order[rr]), d) else 0.0;
      sum := sum + loaded;
    }
  }

  // One program: the tiles of a segment, in order.
  method SegmentProgram(values: seq<Vec>, order: seq<nat>, start: nat, end: nat, blockR: pos, d: nat) returns (acc: real)
    requires start <= end <= |order|
    ensures acc == Sum(Gathered(order, Column(values, d)), end) - Sum(Gathered(order, Column(values, d)), start)
  {
    hide Gathered, Column;
    acc := 0.0;
    var r0 := start;
    while r0 < end
      invariant start <= r0
      invariant var stop := if r0 < end then r0 else end;
        acc == Sum(Gathered(order, Column(values, d)), stop) - Sum(Gathered(order, Column(values, d)), start)
      decreases end as int - r0
    {
      var tile := TileSum(values, order, r0, end, blockR, d);
      acc := acc + tile;
      r0 := r0 + blockR;
    }
  }

  // The row of sums of one segment.
  method SegmentRow(keys: seq<int>, values: seq<Vec>, order: seq<nat>, o: seq<nat>, k: nat, j: nat, width: nat, blockR: pos)
    returns (row: Vec)
    requires KeysOk(keys, k) && j < k && order == StableArgsort(keys) && o == Offsets(Bincount(keys, k))
    ensures |row| == width && forall d :: 0 <= d < width ==> row[d] == Grouped(keys, values, j, d)
  {
    hide StableArgsort, Offsets, Gathered, Column;
    row := [];
    for d := 0 to width
      invariant |row| == d
      invariant forall d' :: 0 <= d' < d ==> row[d'] == Grouped(keys, values, j, d')
    {
      SegmentIsGroup(keys, k, Column(values, d), j);
      var acc := SegmentProgram(values, order, o[j], o[j + 1], blockR, d);
      row := row + [acc];
    }
  }

  // values.index_select(0, order)
  function Selected(values: seq<Vec>, order: seq<nat>): (r: seq<Vec>)
    ensures |r| == |order| && forall p :: 0 <= p < |r| ==> r[p] == RowAt(values, order[p])
  {
    seq(|order|, p requires 0 <= p < |order| => RowAt(values, order[p]))
  }

  // torch.segment_reduce, one segment of one dimension: rows start to end of
  // the gathered values.
  method ReduceSegment(values: seq<Vec>, order: seq<nat>, gathered: seq<Vec>, start: nat, end: nat, d: nat) returns (acc: real)
    requires start <= end <= |order| && gathered == Selected(values, order)
    ensures acc == Sum(Gathered(order, Column(values, d)), end) - Sum(Gathered(order, Column(values, d)), start)
  {
    acc := 0.0;
    for p := start to end
      invariant acc == Sum(Gathered(order, Column(values, d)), p) - Sum(Gathered(order, Column(values, d)), start)
    {
      acc := acc + At(gathered[p], d);
    }
  }

  method ReduceRow(keys: seq<int>, values: seq<Vec>, order: seq<nat>, gathered: seq<Vec>, o: seq<nat>, k: nat, j: nat, width: nat)
    returns (row: Vec)
    requires KeysOk(keys, k) && j < k && order == StableArgsort(keys) && o == Offsets(Bincount(keys, k))
    requires gathered == Selected(values, order)
    ensures |row| == width && forall d :: 0 <= d < width ==> row[d] == Grouped(keys, values, j, d)
  {
    hide StableArgsort, Offsets, Gathered, Column, Selected;
    row := [];
    for d := 0 to width
      invariant |row| == d
      invariant forall d' :: 0 <= d' < d ==> row[d'] == Grouped(keys, values, j, d')
    {
      SegmentIsGroup(keys, k, Column(values, d), j);
      var acc := ReduceSegment(values, order, gathered, o[j], o[j + 1], d);
      row := row + [acc];
    }
  }

  // _det_segment_sum: the grouped sums and the group sizes, by the fused kernel
  // or by gathering and the library's segment reduction.
  method DetSegmentSum(keys: seq<int>, values: seq<Vec>, k: nat, width: nat, fused: bool, blockR: pos)
    returns (sums: seq<Vec>, lengths: seq<nat>)
    requires KeysOk(keys, k) && |values| == |keys| && Rect(values, width)
    ensures |sums| == k && Rect(sums, width)
    ensures forall j, d :: 0 <= j < k && 0 <= d < width ==> sums[j][d] == Grouped(keys, values, j, d)
    ensures |lengths| == k && forall j :: 0 <= j < k ==> lengths[j] == Count(keys, |keys|, j)
  {
    if |keys| == 0 {
      return Filled(k, Filled(width, 0.0)), Filled(k, 0);
    }
    var order := StableArgsort(keys);
    lengths := Bincount(keys, k);
    var o := Offsets(lengths);
    var gathered := if fused then [] else Selected(values, order);
    sums := [];
    for j := 0 to k
      invariant |sums| == j && Rect(sums, width)
      invariant forall j', d :: 0 <= j' < j && 0 <= d < width ==> sums[j'][d] == Grouped(keys, values, j', d)
    {
      var row;
      if fused {
        row := SegmentRow(keys, values, order, o, k, j, width, blockR);
      } else {
        row := ReduceRow(keys, values, order, gathered, o, k, j, width);
      }
      sums := sums + [row];
    }
  }

  // Whatever the keys, the grouped sums add up to the sum of all values, and
  // the group sizes to the number of rows.
  lemma TotalsConserved(keys: seq<int>, values: seq<Vec>, k: nat, d: nat, sums: int -> real)
    requires KeysOk(keys, k) && |values| == |keys|
    requires forall j :: 0 <= j < k ==> sums(j) == Grouped(keys, values, j, d)
    ensures Sum(sums, k) == Sum(Column(values, d), |keys|)
    ensures CumSum(Bincount(keys, k), k) == |keys|
  {
    GroupTotal(Key(keys), Column(values, d), |keys|, k, sums);
    OffsetsShape(keys, k);
  }

  // A count is a grouped sum of ones.
  lemma {:induction false} CountIsMass(keys: seq<int>, f: int -> real, j: int, n: nat)
    requires n <= |keys| && forall i :: 0 <= i < n ==> f(i) == 1.0
    ensures Count(keys, n, j) as real == GroupSum(Key(keys), f, j, n)
  {
    if n > 0 {
      CountIsMass(keys, f, j, n - 1);
    }
  }

  // Equal terms give equal group sums.
  lemma {:induction false} GroupCong(key: int -> int, f: int -> real, g: int -> real, j: int, n: nat)
    requires forall i :: 0 <= i < n ==> f(i) == g(i)
    ensures GroupSum(key, f, j, n) == GroupSum(key, g, j, n)
  {
    if n > 0 {
      GroupCong(key, f, g, j, n - 1);
      assert f(n - 1) == g(n - 1);
    }
  }
}
