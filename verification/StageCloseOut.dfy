// Closing one RVQ stage of a candidate (orka/pipeline/pack_pipeline.py): add
// the stage's gather into decoded_sum and recompute the residual, in row blocks
// and in place, although orig and residual begin as one array.

module StageCloseOut {
  import opened Basics
  import opened Layout
  import opened Reference

  type Matrix = seq<seq<real>>

  ghost predicate Shape(m: Matrix, n: nat, d: nat) {
    |m| == n && forall i :: 0 <= i < n ==> |m[i]| == d
  }

  ghost function Rows(a: array2<real>): (m: Matrix)
    reads a
    ensures Shape(m, a.Length0, a.Length1)
    ensures forall i, k :: 0 <= i < a.Length0 && 0 <= k < a.Length1 ==> m[i][k] == a[i, k]
  {
    seq(a.Length0, i requires 0 <= i < a.Length0 reads a =>
      seq(a.Length1, k requires 0 <= k < a.Length1 reads a => a[i, k]))
  }

  lemma SameMatrix(a: Matrix, b: Matrix, n: nat, d: nat)
    requires Shape(a, n, d) && Shape(b, n, d)
    requires forall i, k :: 0 <= i < n && 0 <= k < d ==> a[i][k] == b[i][k]
    ensures a == b
  {
    forall i | 0 <= i < n
      ensures a[i] == b[i]
    {
    }
  }

  // ------------------------------------------------------------- what a stage adds

  // A scalar stage views the matrix as [n*d, 1]; a vector stage as [n, d].
  predicate Fits(st: Stage, d: nat, scalar: bool) {
    st.group == if scalar then 1 else d
  }

  // dblk[i][k]: the codebook gather, reshaped for a scalar stage.
  function Decoded(st: Stage, d: nat, scalar: bool, i: nat, k: nat): real {
    if scalar then CodeAt(st.codebook, IntAt(st.indices, Flat(i, d, k)), 1, 0)
    else CodeAt(st.codebook, IntAt(st.indices, i), st.group, k)
  }

  // Both views are the decoder's gather at the flat position.
  lemma DecodedIsGather(st: Stage, d: nat, scalar: bool, i: nat, k: nat)
    requires k < d && Fits(st, d, scalar)
    ensures Flat(i, d, k) >= 0 && Decoded(st, d, scalar, i, k) == Gather(st, Flat(i, d, k))
  {
    DivModOf(i, d, k);
  }

  ghost function Added(base: Matrix, st: Stage, scalar: bool, n: nat, d: nat): (m: Matrix)
    requires Shape(base, n, d)
    ensures Shape(m, n, d)
  {
    seq(n, i requires 0 <= i < n => seq(d, k requires 0 <= k < d => base[i][k] + Decoded(st, d, scalar, i, k)))
  }

  ghost function Minus(a: Matrix, b: Matrix, n: nat, d: nat): (m: Matrix)
    requires Shape(a, n, d) && Shape(b, n, d)
    ensures Shape(m, n, d)
  {
    seq(n, i requires 0 <= i < n => seq(d, k requires 0 <= k < d => a[i][k] - b[i][k]))
  }

  ghost function Zero(n: nat, d: nat): (m: Matrix)
    ensures Shape(m, n, d)
  {
    Filled(n, Filled(d, 0.0))
  }

  // ---------------------------------------------------------------- the candidate

  class Candidate {
    var vectorsOrig: array2<real>
    var decodedSum: array2?<real>
    var vectorsResidual: array2?<real>

    // The set-up of a candidate: residual and orig are the same array.
    constructor (vectors: array2<real>)
      ensures vectorsOrig == vectors && vectorsResidual == vectors && decodedSum == null
    {
      vectorsOrig, vectorsResidual, decodedSum := vectors, vectors, null;
    }

    // The decoded sum never shares storage with orig; the residual may share
    // storage with either.
    ghost predicate Valid()
      reads this
    {
      && (decodedSum != null ==>
        && decodedSum != vectorsOrig
        && decodedSum.Length0 == vectorsOrig.Length0 && decodedSum.Length1 == vectorsOrig.Length1)
    }

    ghost function N(): nat
      reads this
    {
      vectorsOrig.Length0
    }

    ghost function D(): nat
      reads this
    {
      vectorsOrig.Length1
    }

    ghost function Orig(): (m: Matrix)
      reads this, vectorsOrig
      ensures Shape(m, N(), D())
    {
      Rows(vectorsOrig)
    }

    // No decoded sum yet stands for zero.
    ghost function Sum(): (m: Matrix)
      requires Valid()
      reads this, decodedSum
      ensures Shape(m, N(), D())
    {
      if decodedSum == null then Zero(N(), D()) else Rows(decodedSum)
    }

    // The arrays a stage may write: never orig.
    ghost function Writable(): set<object>
      reads this
    {
      {this} + (if decodedSum == null then {} else {decodedSum})
             + (if vectorsResidual == null || vectorsResidual == vectorsOrig then {} else {vectorsResidual})
    }

    // residual == orig - decoded_sum, in storage of its own.
    ghost predicate Closed()
      requires Valid()
      reads this, vectorsOrig, decodedSum, vectorsResidual
    {
      && decodedSum != null && vectorsResidual != null
      && vectorsResidual != vectorsOrig && vectorsResidual != decodedSum
      && Rows(vectorsResidual) == Minus(Orig(), Sum(), N(), D())
    }

    // _stage_decode_accumulate_blocked, for any block size.
    method CloseBlocked(st: Stage, scalar: bool, chunkRows: pos)
      requires Valid() && Fits(st, D(), scalar)
      modifies Writable()
      ensures Valid() && Closed()
      ensures vectorsOrig == old(vectorsOrig) && Orig() == old(Orig())
      ensures Sum() == Added(old(Sum()), st, scalar, N(), D())
      ensures fresh(Writable() - old(Writable()))
    {
      var vo := vectorsOrig;
      var n, d := vo.Length0, vo.Length1;
      var ds := decodedSum;
      if ds == null {
        ds := new real[n, d]((i, k) => 0.0);
        decodedSum := ds;
        SameMatrix(Rows(ds), Zero(n, d), n, d);
      }
      var res := vectorsResidual;
      if !(res != null && res.Length0 == n && res.Length1 == d && res != vo && res != ds) {
        res := new real[n, d];
      }
      assert Rows(ds) == old(Sum());
      CloseRows(vo, ds, res, st, scalar, chunkRows);
      vectorsResidual := res;
    }

    // The ordinary path: a whole gather, a new sum and a new residual.
    method CloseWhole(st: Stage, scalar: bool)
      requires Valid() && Fits(st, D(), scalar)
      modifies this
      ensures Valid() && Closed()
      ensures vectorsOrig == old(vectorsOrig) && Orig() == old(Orig())
      ensures Sum() == Added(old(Sum()), st, scalar, N(), D())
      ensures fresh({decodedSum, vectorsResidual})
    {
      var ds := NewSum(decodedSum, st, scalar, vectorsOrig.Length0, vectorsOrig.Length1);
      var res := NewResidual(vectorsOrig, ds);
      decodedSum, vectorsResidual := ds, res;
    }

    // The stages of a candidate, on either path.
    method CloseAll(stages: seq<Stage>, scalar: seq<bool>, giant: bool, chunkRows: pos)
      requires Valid() && decodedSum == null && |scalar| == |stages|
      requires forall s :: 0 <= s < |stages| ==> Fits(stages[s], D(), scalar[s])
      modifies Writable()
      ensures Valid() && vectorsOrig == old(vectorsOrig) && Orig() == old(Orig())
      ensures Sum() == AllAdded(stages, scalar, |stages|, N(), D())
      ensures |stages| > 0 ==> Closed()
    {
      hide Added, Minus;
      for s := 0 to |stages|
        invariant Valid() && vectorsOrig == old(vectorsOrig) && Orig() == old(Orig())
        invariant Sum() == AllAdded(stages, scalar, s, N(), D())
        invariant s > 0 ==> Closed()
        invariant fresh(Writable() - old(Writable()))
      {
        if giant {
          CloseBlocked(stages[s], scalar[s], chunkRows);
        } else {
          CloseWhole(stages[s], scalar[s]);
        }
      }
    }
  }

  // decoded, or decoded_sum + decoded
  method NewSum(was: array2?<real>, st: Stage, scalar: bool, n: nat, d: nat) returns (ds: array2<real>)
    requires was != null ==> was.Length0 == n && was.Length1 == d
    ensures fresh(ds) && ds.Length0 == n && ds.Length1 == d
    ensures Rows(ds) == Added(if was == null then Zero(n, d) else Rows(was), st, scalar, n, d)
  {
    hide Decoded;
    ghost var base := if was == null then Zero(n, d) else Rows(was);
    if was == null {
      ds := new real[n, d]((i, k) requires 0 <= i < n && 0 <= k < d => 0.0 + Decoded(st, d, scalar, i, k));
    } else {
      ds := new real[n, d]((i, k) requires 0 <= i < n && 0 <= k < d reads was => was[i, k] + Decoded(st, d, scalar, i, k));
    }
    SameMatrix(Rows(ds), Added(base, st, scalar, n, d), n, d);
  }

  // _vectors_subtract
  method NewResidual(vo: array2<real>, ds: array2<real>) returns (res: array2<real>)
    requires vo.Length0 == ds.Length0 && vo.Length1 == ds.Length1
    ensures fresh(res) && res.Length0 == vo.Length0 && res.Length1 == vo.Length1
    ensures Rows(res) == Minus(Rows(vo), Rows(ds), vo.Length0, vo.Length1)
  {
    var n, d := vo.Length0, vo.Length1;
    res := new real[n, d]((i, k) requires 0 <= i < n && 0 <= k < d reads vo, ds => vo[i, k] - ds[i, k]);
    SameMatrix(Rows(res), Minus(Rows(vo), Rows(ds), n, d), n, d);
  }

  // ds[i:j] += dblk
  method AddBlock(ds: array2<real>, st: Stage, scalar: bool, lo: nat, hi: nat)
    requires lo <= hi <= ds.Length0
    modifies ds
    ensures forall i, k :: 0 <= i < ds.Length0 && 0 <= k < ds.Length1 ==>
      ds[i, k] == if lo <= i < hi then old(ds[i, k]) + Decoded(st, ds.Length1, scalar, i, k) else old(ds[i, k])
  {
    hide Decoded;
    forall i, k | lo <= i < hi && 0 <= k < ds.Length1 {
      ds[i, k] := ds[i, k] + Decoded(st, ds.Length1, scalar, i, k);
    }
  }

  // res[i:j] = vo[i:j] - ds[i:j]
  method SubtractBlock(vo: array2<real>, ds: array2<real>, res: array2<real>, lo: nat, hi: nat)
    requires lo <= hi <= vo.Length0 && vo.Length0 == ds.Length0 == res.Length0 && vo.Length1 == ds.Length1 == res.Length1
    requires res != vo && res != ds
    modifies res
    ensures forall i, k :: 0 <= i < res.Length0 && 0 <= k < res.Length1 ==>
      res[i, k] == if lo <= i < hi then vo[i, k] - ds[i, k] else old(res[i, k])
  {
    forall i, k | lo <= i < hi && 0 <= k < res.Length1 {
      res[i, k] := vo[i, k] - ds[i, k];
    }
  }

  // The block loop.
  method CloseRows(vo: array2<real>, ds: array2<real>, res: array2<real>, st: Stage, scalar: bool, chunkRows: pos)
    requires vo.Length0 == ds.Length0 == res.Length0 && vo.Length1 == ds.Length1 == res.Length1
    requires res != vo && res != ds && ds != vo
    modifies ds, res
    ensures Rows(ds) == Added(old(Rows(ds)), st, scalar, vo.Length0, vo.Length1)
    ensures Rows(res) == Minus(Rows(vo), Rows(ds), vo.Length0, vo.Length1)
  {
    hide Decoded;
    var n, d := vo.Length0, vo.Length1;
    ghost var was := Rows(ds);
    var i := 0;
    while i < n
      invariant forall r, k :: 0 <= r < n && r < i && 0 <= k < d ==>
        ds[r, k] == was[r][k] + Decoded(st, d, scalar, r, k) && res[r, k] == vo[r, k] - ds[r, k]
      invariant forall r, k :: i <= r < n && 0 <= k < d ==> ds[r, k] == was[r][k]
      decreases n - i
    {
      var j := if i + chunkRows < n then i + chunkRows else n;
      AddBlock(ds, st, scalar, i, j);
      SubtractBlock(vo, ds, res, i, j);
      i := i + chunkRows;
    }
    SameMatrix(Rows(ds), Added(was, st, scalar, n, d), n, d);
    SameMatrix(Rows(res), Minus(Rows(vo), Rows(ds), n, d), n, d);
  }

  // --------------------------------------------------------------- over all stages

  ghost function AllAdded(stages: seq<Stage>, scalar: seq<bool>, s: nat, n: nat, d: nat): (m: Matrix)
    requires s <= |stages| == |scalar|
    ensures Shape(m, n, d)
  {
    if s == 0 then Zero(n, d) else Added(AllAdded(stages, scalar, s - 1, n, d), stages[s - 1], scalar[s - 1], n, d)
  }

  // The packer's decoded sum is what the decoder's stage loop gives at the
  // same flat position.
  lemma {:induction false} SumIsStageSum(stages: seq<Stage>, scalar: seq<bool>, s: nat, n: nat, d: nat, i: nat, k: nat)
    requires s <= |stages| == |scalar| && i < n && k < d
    requires forall t :: 0 <= t < |stages| ==> Fits(stages[t], d, scalar[t])
    ensures Flat(i, d, k) >= 0
    ensures AllAdded(stages, scalar, s, n, d)[i][k] == StageSum(stages, s, Flat(i, d, k))
  {
    if s > 0 {
      SumIsStageSum(stages, scalar, s - 1, n, d, i, k);
      DecodedIsGather(stages[s - 1], d, scalar[s - 1], i, k);
    }
  }
}
