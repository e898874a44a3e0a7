// One warp per row (orka/inference/cuda_planes.py, cuda_decode.py): lanes
// striding by 32, the halving shuffle, the planed matrix-vector kernel and the
// sparse product.

module Warp {
  import opened Basics
  import opened Layout
  import opened Sums
  import opened CsrMatrix
  import opened VqLayer
  import opened KernelLayout

  // ---------------------------------------------------------- warp reductions

  const WARP: nat := 32

  ghost function LaneOf(): int -> int {
    (g: int) => g % 32
  }

  lemma {:induction false} StrideGap(f: int -> real, lane: nat, a: nat, b: nat)
    requires a <= b && forall i :: a <= i < b ==> i % 32 != lane
    ensures GroupSum(LaneOf(), f, lane, b) == GroupSum(LaneOf(), f, lane, a)
  {
    if a < b {
      assert (b - 1) % 32 != lane;
      StrideGap(f, lane, a, b - 1);
    }
  }

  // A stretch of one warp width right after an element of the lane holds no
  // further one.
  lemma NoneBefore(lane: nat, g: nat, b: nat)
    requires lane < 32 && g % 32 == lane && g < b <= g + 32
    ensures forall i :: g < i < b ==> i % 32 != lane
  {
    forall i | g < i < b
      ensures i % 32 != lane
    {
      var d := i - g;
      assert 0 < d < 32;
      DivModUnique(i, 32, if lane + d < 32 then g / 32 else g / 32 + 1, if lane + d < 32 then lane + d else lane + d - 32);
    }
  }

  lemma StrideStep(f: int -> real, lane: nat, g: nat, b: nat)
    requires lane < 32 && g % 32 == lane && g < b <= g + 32
    ensures GroupSum(LaneOf(), f, lane, b) == GroupSum(LaneOf(), f, lane, g) + f(g)
  {
    NoneBefore(lane, g, b);
    StrideGap(f, lane, g + 1, b);
  }

  // The lane's r-th element is lane + 32 r; its sum after r of them.
  ghost function LaneSum(f: int -> real, lane: nat, r: nat, n: nat): real {
    GroupSum(LaneOf(), f, lane, Min(lane + 32 * r, n))
  }

  lemma LaneNext(f: int -> real, lane: nat, r: nat, n: nat)
    requires lane < 32 && lane + 32 * r < n
    ensures LaneSum(f, lane, r + 1, n) == LaneSum(f, lane, r, n) + f(lane + 32 * r)
  {
    DivModUnique(lane + 32 * r, 32, r, lane);
    StrideStep(f, lane, lane + 32 * r, Min(lane + 32 * (r + 1), n));
  }

  lemma LaneDone(f: int -> real, lane: nat, r: nat, n: nat)
    requires lane + 32 * r >= n
    ensures LaneSum(f, lane, r, n) == GroupSum(LaneOf(), f, lane, n)
  {
  }

  lemma LaneStart(f: int -> real, lane: nat, n: nat)
    requires lane < 32
    ensures LaneSum(f, lane, 0, n) == 0.0
  {
    forall i | 0 <= i < Min(lane, n)
      ensures i % 32 != lane
    {
      DivModUnique(i, 32, 0, i);
    }
    StrideGap(f, lane, 0, Min(lane, n));
  }

  // One step of acc += __shfl_down_sync(acc, o) on all lanes: a lane past the
  // end of the warp reads its own value.
  function ShuffleDown(v: seq<real>, o: nat): (r: seq<real>)
    ensures |r| == |v|
  {
    seq(|v|, lane requires 0 <= lane < |v| => v[lane] + (if lane + o < |v| then v[lane + o] else v[lane]))
  }

  lemma ShuffleHalves(v: seq<real>, o: nat)
    requires 2 * o <= |v|
    ensures Sum(Input(ShuffleDown(v, o)), o) == Sum(Input(v), 2 * o)
  {
    var upper := (i: int) => At(v, o + i);
    SumSplit(Input(v), o, o, upper);
    SumAdd(Input(v), upper, Input(ShuffleDown(v, o)), o);
  }

  // How many lanes still hold the sum before the step of distance o.
  function LiveLanes(o: nat): nat {
    if o == 0 then 1 else 2 * o
  }

  predicate HalvingDistance(o: nat) {
    o == 16 || o == 8 || o == 4 || o == 2 || o == 1
  }

  lemma HalvingStep(v: seq<real>, o: nat)
    requires HalvingDistance(o) && |v| == WARP
    ensures o / 2 == 0 || HalvingDistance(o / 2)
    ensures Sum(Input(ShuffleDown(v, o)), LiveLanes(o / 2)) == Sum(Input(v), LiveLanes(o))
  {
    ShuffleHalves(v, o);
  }

  // The halving shuffle leaves the sum of all 32 lanes in lane 0.
  method WarpReduce(lanes: seq<real>) returns (lane0: real)
    requires |lanes| == WARP
    ensures lane0 == Sum(Input(lanes), WARP)
  {
    var acc := lanes;
    var o: nat := 16;
    while o > 0
      invariant |acc| == WARP
      invariant o == 0 || HalvingDistance(o)
      invariant Sum(Input(acc), LiveLanes(o)) == Sum(Input(lanes), WARP)
    {
      HalvingStep(acc, o);
      acc := ShuffleDown(acc, o);
      o := o / 2;
    }
    FirstOfSum(Input(acc));
    lane0 := acc[0];
  }

  lemma FirstOfSum(f: int -> real)
    ensures Sum(f, 1) == f(0)
  {
    assert Sum(f, 1) == Sum(f, 0) + f(0);
  }

  // Summing by lane and then over lanes is summing.
  lemma LanesTotal(f: int -> real, n: nat, lanes: seq<real>)
    requires |lanes| == WARP && forall lane :: 0 <= lane < WARP ==> lanes[lane] == GroupSum(LaneOf(), f, lane, n)
    ensures Sum(Input(lanes), WARP) == Sum(f, n)
  {
    GroupTotal(LaneOf(), f, n, WARP, Input(lanes));
  }

  // ------------------------------------------------------------- planed matvec

  // Lane `lane` of the warp on row m.
  method PlaneLane(l: Layer, x: seq<real>, m: nat, lane: nat) returns (acc: real)
    requires |l.stores| == |l.codebooks| && l.group % 2 == 0 && Gpb(l) > 0 && lane < WARP
    ensures acc == GroupSum(LaneOf(), GroupPart(l, x, m), lane, Gpr(l))
  {
    hide GroupPart, Times;
    var gpr := Gpr(l);
    ghost var f := GroupPart(l, x, m);
    acc := 0.0;
    var g := lane;
    ghost var r := 0;
    LaneStart(f, lane, gpr);
    while g < gpr
      invariant g == lane + 32 * r
      invariant acc == LaneSum(f, lane, r, gpr)
      decreases gpr as int - g
    {
      var term := GroupDot(l, x, m, g);
      acc := acc + term;
      LaneNext(f, lane, r, gpr);
      g, r := g + 32, r + 1;
    }
    LaneDone(f, lane, r, gpr);
  }

  method PlaneRow(l: Layer, x: seq<real>, m: nat) returns (lane0: real)
    requires |l.stores| == |l.codebooks| && l.group % 2 == 0 && Gpb(l) > 0
    ensures lane0 == DecodeDot(l, x, m)
  {
    ghost var f := GroupPart(l, x, m);
    var lanes := [];
    for lane := 0 to WARP
      invariant |lanes| == lane
      invariant forall i :: 0 <= i < lane ==> lanes[i] == GroupSum(LaneOf(), f, i, Gpr(l))
    {
      var acc := PlaneLane(l, x, m, lane);
      lanes := lanes + [acc];
    }
    LanesTotal(f, Gpr(l), lanes);
    lane0 := WarpReduce(lanes);
  }

  // gemv_planes: one warp per row.
  method GemvPlanes(l: Layer, x: seq<real>) returns (y: seq<real>)
    requires |l.stores| == |l.codebooks| <= 3 && l.group % 2 == 0 && !l.groupMajor && Gpb(l) > 0
    ensures |y| == l.rows
    ensures forall m :: 0 <= m < l.rows ==> y[m] == DecodeDot(l, x, m)
  {
    hide DecodeDot;
    y := [];
    for m := 0 to l.rows
      invariant |y| == m
      invariant forall m' :: 0 <= m' < m ==> y[m'] == DecodeDot(l, x, m')
    {
      var row := PlaneRow(l, x, m);
      y := y + [row];
    }
  }

  // ----------------------------------------------------------- the sparse term

  ghost function CorrectionDot(c: Csr, rows: nat, cols: nat, x: seq<real>, m: nat): real
    requires Shaped(c, rows, cols)
  {
    Sum(MatrixTerm(c, rows, cols, Input(x), m), cols)
  }

  method SpmvLane(c: Csr, x: seq<real>, s: nat, e: nat, lane: nat) returns (acc: real)
    requires s <= e <= |c.col| == |c.val| && lane < WARP
    ensures acc == GroupSum(LaneOf(), SliceTerm(c, Input(x), s), lane, e - s)
  {
    acc := 0.0;
    var j := s + lane;
    ghost var n, f, r := e - s, SliceTerm(c, Input(x), s), 0;
    LaneStart(f, lane, n);
    while j < e
      invariant j == s + (lane + 32 * r)
      invariant acc == LaneSum(f, lane, r, n)
      decreases e - j
    {
      var term := Times(At(c.val, j), At(x, IntAt(c.col, j)));
      assert term == f(lane + 32 * r);
      LaneNext(f, lane, r, n);
      acc := acc + term;
      j, r := j + 32, r + 1;
    }
    LaneDone(f, lane, r, n);
  }

  method SpmvRow(c: Csr, x: seq<real>, s: nat, e: nat) returns (acc: real)
    requires s <= e <= |c.col| == |c.val|
    ensures acc == Sum(SliceTerm(c, Input(x), s), e - s)
  {
    ghost var f := SliceTerm(c, Input(x), s);
    var lanes := [];
    for lane := 0 to WARP
      invariant |lanes| == lane
      invariant forall i :: 0 <= i < lane ==> lanes[i] == GroupSum(LaneOf(), f, i, e - s)
    {
      var part := SpmvLane(c, x, s, e, lane);
      lanes := lanes + [part];
    }
    LanesTotal(f, e - s, lanes);
    acc := WarpReduce(lanes);
  }

  // spmv_warp: y[m] += (row m of the correction) . x, one warp per row.
  method SpmvWarp(c: Csr, rows: nat, cols: nat, x: seq<real>, y: seq<real>) returns (r: seq<real>)
    requires Shaped(c, rows, cols) && |y| == rows
    ensures |r| == rows
    ensures forall m :: 0 <= m < rows ==> r[m] == y[m] + CorrectionDot(c, rows, cols, x, m)
  {
    r := [];
    for m := 0 to rows
      invariant |r| == m
      invariant forall m' :: 0 <= m' < m ==> r[m'] == y[m'] + CorrectionDot(c, rows, cols, x, m')
    {
      RowProduct(c, rows, cols, Input(x), m);
      var acc := SpmvRow(c, x, c.rowptr[m], c.rowptr[m + 1]);
      r := r + [y[m] + acc];
    }
  }
}
