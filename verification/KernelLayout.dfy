// What every inference kernel computes for one row, group by group: addresses
// in both layouts, the summed codeword of a group, and the row product the
// groups add up to. Arithmetic is exact.

module KernelLayout {
  import opened Basics
  import opened Layout
  import opened Sums
  import opened PlaneReads
  import opened Planes
  import opened Reference
  import opened CsrMatrix
  import opened VqLayer

  // ------------------------------------------------------------------ the spec

  ghost function Input(x: seq<real>): int -> real {
    (c: int) => At(x, c)
  }

  ghost function RowTerm(l: Layer, x: seq<real>, m: nat): int -> real
    requires |l.stores| == |l.codebooks|
  {
    (c: int) => if c >= 0 then Times(VqAt(l, Flat(m, l.cols, c)), At(x, c)) else 0.0
  }

  // Row m of the uncorrected weight times x.
  ghost function RowDot(l: Layer, x: seq<real>, m: nat): real
    requires |l.stores| == |l.codebooks|
  {
    Sum(RowTerm(l, x, m), l.cols)
  }

  // Groups per row, scale blocks per row, groups per block.
  function Gpr(l: Layer): nat {
    l.cols / l.group
  }

  function Bpr(l: Layer): nat {
    l.cols / l.block
  }

  function Gpb(l: Layer): nat {
    l.block / l.group
  }

  // The block, within its row, of group g.
  function BlockOf(l: Layer, g: nat): nat
    requires Gpb(l) > 0
  {
    g / Gpb(l)
  }

  // Rows of whole groups and whole blocks: what the dispatcher asserts.
  predicate Whole(l: Layer) {
    LayerOk(l) && Aligned(l)
  }

  // And blocks of whole groups: what the one-token kernels assume besides.
  predicate Tiled(l: Layer) {
    Whole(l) && l.block % l.group == 0
  }

  // The Triton launches pass the buffers of stages 0, 1 and 2; a fourth stage
  // has no kernel argument.
  function KernelArgs(l: Layer): (k: Layer)
    requires |l.stores| == |l.codebooks|
    ensures |k.stores| == |k.codebooks| && k.rows == l.rows && k.cols == l.cols && k.group == l.group && k.block == l.block
    ensures |l.stores| <= 3 ==> k == l
    ensures Whole(l) ==> Whole(k)
  {
    if |l.stores| <= 3 then l else l.(stores := l.stores[..3], codebooks := l.codebooks[..3])
  }

  // ----------------------------------------------------------- kernel addresses

  // Stage s, row m, group g: plane read, group-major read or row-major read.
  function KIndex(l: Layer, s: nat, m: nat, g: nat): int
    requires s < |l.stores|
  {
    match l.stores[s]
    case Narrow(values) =>
      IntAt(values, if l.groupMajor then Flat(g, l.rows, m) else Flat(m, Gpr(l), g))
    case Planed(p, width) =>
      var at := Flat(m, Gpr(l), g);
      if PlanedStage(p, width) && at < |p.lo| then KernelIndex(p, width, at) else 0
  }

  function KScale(l: Layer, m: nat, g: nat): real
    requires Gpb(l) > 0
  {
    At(l.scales, if l.groupMajor then Flat(BlockOf(l, g), l.rows, m) else Flat(m, Bpr(l), BlockOf(l, g)))
  }

  lemma SlotOf(l: Layer, piece: pos, m: nat, g: nat)
    requires g < l.cols / piece
    ensures Slot(l, piece, Flat(m, l.cols / piece, g)) == if l.groupMajor then Flat(g, l.rows, m) else Flat(m, l.cols / piece, g)
  {
    DivModOf(m, l.cols / piece, g);
  }

  lemma KIndexIsIndex(l: Layer, s: nat, m: nat, g: nat)
    requires Whole(l) && s < |l.stores| && m < l.rows && g < Gpr(l)
    ensures KIndex(l, s, m, g) == VqIndex(l, s, Flat(m, Gpr(l), g))
  {
    SlotOf(l, l.group, m, g);
    PieceCount(l, l.group);
    FlatBound(m, g, l.rows, Gpr(l));
    if l.stores[s].Planed? {
      var p, width := l.stores[s].planes, l.stores[s].width;
      var at := Flat(m, Gpr(l), g);
      CoversEach(p.hi, width - 8, |p.lo|, at);
      FastReadsAreSequential(p.hi, width - 8, at);
    }
  }

  // Element j of group g in row m lies in group m*GPR+g.
  lemma ElementGroup(l: Layer, m: nat, g: nat, j: nat)
    requires Whole(l) && g < Gpr(l) && j < l.group
    ensures l.cols > 0 && 0 <= Flat(g, l.group, j) < l.cols
    ensures Flat(m, l.cols, Flat(g, l.group, j)) / l.group == Flat(m, Gpr(l), g)
    ensures Flat(m, l.cols, Flat(g, l.group, j)) % l.group == j
  {
    ExactDiv(l.cols, l.group);
    FlatBound(g, j, Gpr(l), l.group);
    DivModOf(g, l.group, j);
    RowPiece(m, Flat(g, l.group, j), l.cols, l.group);
  }

  // And, where blocks are whole groups, in block m*BPR+g/GPB.
  lemma ElementBlock(l: Layer, m: nat, g: nat, j: nat)
    requires Tiled(l) && g < Gpr(l) && j < l.group
    ensures Gpb(l) > 0 && Flat(g, l.group, j) >= 0
    ensures Flat(m, l.cols, Flat(g, l.group, j)) / l.block == Flat(m, Bpr(l), BlockOf(l, g))
    ensures BlockOf(l, g) < Bpr(l)
  {
    var c := Flat(g, l.group, j);
    ElementGroup(l, m, g, j);
    ExactDiv(l.block, l.group);
    ExactDiv(l.cols, l.block);
    DivModOf(g, l.group, j);
    RowPiece(m, c, l.cols, l.block);
    var gpb := Gpb(l);
    DivDiv(c, l.group, gpb);
    assert l.group * gpb == l.block;
    DivBound(c, Bpr(l), l.block);
  }

  lemma KScaleIsScale(l: Layer, m: nat, g: nat)
    requires Tiled(l) && m < l.rows && g < Gpr(l)
    ensures Gpb(l) > 0
    ensures KScale(l, m, g) == BlockScale(l, Flat(m, Bpr(l), BlockOf(l, g)))
  {
    ElementBlock(l, m, g, 0);
    SlotOf(l, l.block, m, BlockOf(l, g));
  }

  // --------------------------------------------------------------- one codeword

  // Element j of the summed codeword of group g in row m, as the kernels load it.
  function WordSum(l: Layer, n: nat, m: nat, g: nat, j: nat): real
    requires n <= |l.stores| == |l.codebooks|
  {
    if n == 0 then 0.0
    else WordSum(l, n - 1, m, g, j) + CodeAt(l.codebooks[n - 1], KIndex(l, n - 1, m, g), l.group, j)
  }

  lemma {:induction false} WordIsSum(l: Layer, n: nat, m: nat, g: nat, j: nat)
    requires Whole(l) && n <= |l.stores| && m < l.rows && g < Gpr(l) && j < l.group
    ensures WordSum(l, n, m, g, j) == VqSum(l, n, Flat(m, l.cols, Flat(g, l.group, j)))
  {
    if n > 0 {
      WordIsSum(l, n - 1, m, g, j);
      KIndexIsIndex(l, n - 1, m, g);
      ElementGroup(l, m, g, j);
    }
  }

  ghost function WordTerm(l: Layer, x: seq<real>, m: nat, g: nat): int -> real
    requires |l.stores| == |l.codebooks|
  {
    (j: int) => if j >= 0 then Times(WordSum(l, |l.stores|, m, g, j), At(x, Flat(g, l.group, j))) else 0.0
  }

  // What group g adds to row m: scale * (codeword . x_g).
  ghost function GroupPart(l: Layer, x: seq<real>, m: nat): int -> real
    requires |l.stores| == |l.codebooks| && Gpb(l) > 0
  {
    (g: int) => if g >= 0 then Times(KScale(l, m, g), Sum(WordTerm(l, x, m, g), l.group)) else 0.0
  }

  lemma TimesOrder(w: real, s: real, v: real)
    ensures Times(Times(w, s), v) == Times(s, Times(w, v))
  {
  }

  lemma SliceElement(l: Layer, x: seq<real>, m: nat, g: nat, j: nat)
    requires Tiled(l) && m < l.rows && g < Gpr(l) && j < l.group
    ensures Gpb(l) > 0 && Flat(g, l.group, j) >= 0
    ensures RowTerm(l, x, m)(Flat(g, l.group, j)) == Times(KScale(l, m, g), WordTerm(l, x, m, g)(j))
  {
    KScaleIsScale(l, m, g);
    ElementBlock(l, m, g, j);
    WordIsSum(l, |l.stores|, m, g, j);
    var i := Flat(m, l.cols, Flat(g, l.group, j));
    var w, s, v := WordSum(l, |l.stores|, m, g, j), KScale(l, m, g), At(x, Flat(g, l.group, j));
    assert VqAt(l, i) == Times(w, s);
    assert RowTerm(l, x, m)(Flat(g, l.group, j)) == Times(Times(w, s), v);
    assert WordTerm(l, x, m, g)(j) == Times(w, v);
    TimesOrder(w, s, v);
  }

  // The scaled codeword dot is the group's slice of the dense row.
  lemma GroupPartIsSlice(l: Layer, x: seq<real>, m: nat, g: nat, slice: int -> real)
    requires Tiled(l) && m < l.rows && g < Gpr(l)
    requires forall j :: 0 <= j < l.group ==> slice(j) == RowTerm(l, x, m)(Flat(g, l.group, j))
    ensures Gpb(l) > 0
    ensures GroupPart(l, x, m)(g) == Sum(slice, l.group)
  {
    GroupsPerBlock(l);
    var s := KScale(l, m, g);
    var word := WordTerm(l, x, m, g);
    forall j {:trigger slice(j)} | 0 <= j < l.group
      ensures slice(j) == Times(s, word(j))
    {
      SliceElement(l, x, m, g, j);
    }
    SumScale(s, word, slice, l.group);
  }

  // What the one-token kernels compute for row m, on any layer.
  ghost function DecodeDot(l: Layer, x: seq<real>, m: nat): real
    requires |l.stores| == |l.codebooks| && Gpb(l) > 0
  {
    Sum(GroupPart(l, x, m), Gpr(l))
  }

  // The groups of a row add up to the dense row product.
  lemma GroupsMakeRow(l: Layer, x: seq<real>, m: nat)
    requires Tiled(l) && m < l.rows && Gpb(l) > 0
    ensures DecodeDot(l, x, m) == RowDot(l, x, m)
  {
    var n := Gpr(l);
    var f, part := RowTerm(l, x, m), GroupPart(l, x, m);
    forall g {:trigger part(g)} | 0 <= g < n
      ensures part(g) == Sum((j: int) => f(g * l.group + j), l.group)
    {
      GroupPartIsSlice(l, x, m, g, (j: int) => f(g * l.group + j));
    }
    SumRows(f, n, l.group, part);
    ExactDiv(l.cols, l.group);
  }

  // One entry of the tile the GEMM kernels gather: column c of row m.
  function TileWeight(l: Layer, m: nat, c: nat): real
    requires |l.stores| == |l.codebooks|
  {
    var b := c / l.block;
    Times(WordSum(l, |l.stores|, m, c / l.group, c % l.group),
          At(l.scales, if l.groupMajor then Flat(b, l.rows, m) else Flat(m, Bpr(l), b)))
  }

  ghost function TileTerm(l: Layer, x: seq<real>, m: nat): int -> real
    requires |l.stores| == |l.codebooks|
  {
    (c: int) => if c >= 0 then Times(TileWeight(l, m, c), At(x, c)) else 0.0
  }

  // What the GEMM kernels compute for row m, on any layer.
  ghost function GemmDot(l: Layer, x: seq<real>, m: nat): real
    requires |l.stores| == |l.codebooks|
  {
    Sum(TileTerm(l, x, m), l.cols)
  }

  lemma TileWeightIsWeight(l: Layer, m: nat, c: nat)
    requires Whole(l) && m < l.rows && c < l.cols
    ensures TileWeight(l, m, c) == VqAt(l, Flat(m, l.cols, c))
  {
    var g, j := c / l.group, c % l.group;
    ExactDiv(l.cols, l.group);
    DivBound(c, Gpr(l), l.group);
    assert Flat(g, l.group, j) == c;
    WordIsSum(l, |l.stores|, m, g, j);
    ExactDiv(l.cols, l.block);
    DivBound(c, Bpr(l), l.block);
    RowPiece(m, c, l.cols, l.block);
    SlotOf(l, l.block, m, c / l.block);
  }

  // The tiles of a row add up to the dense row product.
  lemma TilesMakeRow(l: Layer, x: seq<real>, m: nat)
    requires Whole(l) && m < l.rows
    ensures GemmDot(l, x, m) == RowDot(l, x, m)
  {
    hide TileWeight, VqAt;
    var f, g := TileTerm(l, x, m), RowTerm(l, x, m);
    forall c {:trigger f(c)} | 0 <= c < l.cols
      ensures f(c) == g(c)
    {
      TileWeightIsWeight(l, m, c);
    }
    SumCong(f, g, l.cols);
  }

  // One token goes through a decode kernel, several through a GEMM.
  ghost function KernelDot(l: Layer, x: seq<real>, m: nat, single: bool): real
    requires |l.stores| == |l.codebooks| && (single ==> Gpb(l) > 0)
  {
    if single then DecodeDot(l, x, m) else GemmDot(l, x, m)
  }

  lemma KernelMakesRow(l: Layer, x: seq<real>, m: nat, single: bool)
    requires Whole(l) && m < l.rows && (single ==> l.block % l.group == 0)
    ensures (single ==> Gpb(l) > 0) && KernelDot(l, x, m, single) == RowDot(l, x, m)
  {
    hide DecodeDot, GemmDot, RowDot;
    if single {
      GroupsPerBlock(l);
      GroupsMakeRow(l, x, m);
    } else {
      TilesMakeRow(l, x, m);
    }
  }

  // codeword . x_g by pairs of halves.
  method CodewordDot(l: Layer, x: seq<real>, m: nat, g: nat) returns (dot: real)
    requires |l.stores| == |l.codebooks| && l.group % 2 == 0
    ensures dot == Sum(WordTerm(l, x, m, g), l.group)
  {
    dot := 0.0;
    for e := 0 to l.group / 2
      invariant dot == Sum(WordTerm(l, x, m, g), 2 * e)
    {
      var lo := WordSum(l, |l.stores|, m, g, 2 * e);
      var hi := WordSum(l, |l.stores|, m, g, 2 * e + 1);
      var term := Times(lo, At(x, Flat(g, l.group, 2 * e))) + Times(hi, At(x, Flat(g, l.group, 2 * e + 1)));
      dot := dot + term;
    }
  }

  // One group's contribution: scale * (codeword . x_g).
  method GroupDot(l: Layer, x: seq<real>, m: nat, g: nat) returns (term: real)
    requires |l.stores| == |l.codebooks| && l.group % 2 == 0 && Gpb(l) > 0
    ensures term == GroupPart(l, x, m)(g)
  {
    var dot := CodewordDot(l, x, m, g);
    term := Times(KScale(l, m, g), dot);
  }

  lemma GroupsPerBlock(l: Layer)
    requires Tiled(l)
    ensures Gpb(l) > 0
  {
    ExactDiv(l.block, l.group);
  }

  // ------------------------------------------- which block sizes decode serves

  function Unit(n: nat, c: nat): seq<real> {
    seq(n, i => if i == c then 1.0 else 0.0)
  }

  // The one-token kernels compute every row of every layer of these sizes.
  ghost predicate EveryBlockServed(group: pos, block: pos)
    requires group <= block
  {
    forall l: Layer, x: seq<real>, m: nat {:trigger RowDot(l, x, m)} :: Whole(l) && l.group == group && l.block == block && m < l.rows ==>
      DecodeDot(l, x, m) == RowDot(l, x, m)
  }

  // One row of ones whose first block has scale 1 and the others scale 2.
  function Skew(group: pos, block: pos): Layer {
    Layer(1, group * block, group, block, [Narrow(Filled(block, 0))], [Filled(group, 1.0)],
          seq(group, b => if b == 0 then 1.0 else 2.0), false)
  }

  lemma SkewWhole(group: pos, block: pos)
    ensures var l := Skew(group, block); Whole(l) && Gpr(l) == block && Bpr(l) == group
  {
    assert group * block == block * group;
    CeilDivExact(block, group);
    CeilDivExact(group, block);
    DivModOf(block, group, 0);
    DivModOf(group, block, 0);
  }

  // Every codeword entry of the row is 1.
  lemma SkewWord(group: pos, block: pos, g: nat, j: nat)
    requires g < block && j < group
    ensures var l := Skew(group, block);
      Flat(0, Gpr(l), g) == g && WordSum(l, 1, 0, g, j) == 1.0
  {
    SkewWhole(group, block);
    var l := Skew(group, block);
    assert KIndex(l, 0, 0, g) == 0;
    assert WordSum(l, 0, 0, g, j) == 0.0;
  }

  // Column c of the row: its own block's scale.
  lemma SkewRow(group: pos, block: pos, c: nat)
    requires c < group * block && 1 <= group
    ensures var l := Skew(group, block);
      RowDot(l, Unit(l.cols, c), 0) == if c / block == 0 then 1.0 else 2.0
  {
    SkewWhole(group, block);
    var l := Skew(group, block);
    var x := Unit(l.cols, c);
    var f := RowTerm(l, x, 0);
    forall i {:trigger f(i)} | 0 <= i < l.cols && i != c
      ensures f(i) == 0.0
    {
      TimesZero(VqAt(l, Flat(0, l.cols, i)));
    }
    SumSingle(f, c, l.cols);
    TileWeightIsWeight(l, 0, c);
    DivBound(c, block, group);
    SkewWord(group, block, c / group, c % group);
    DivBound(c, group, block);
    assert VqAt(l, c) == Times(1.0, At(l.scales, Flat(0, Bpr(l), c / block)));
  }

  // The decode kernel gives it the scale of the block its group starts from.
  lemma SkewDecode(group: pos, block: pos, g: nat)
    requires group <= block && g < block && Gpb(Skew(group, block)) > 0
    requires BlockOf(Skew(group, block), g) < group
    ensures var l := Skew(group, block);
      Flat(g, group, 0) >= 0
      && DecodeDot(l, Unit(l.cols, Flat(g, group, 0)), 0) == if BlockOf(l, g) == 0 then 1.0 else 2.0
  {
    SkewWhole(group, block);
    var l := Skew(group, block);
    FlatBound(g, 0, block, group);
    var x := Unit(l.cols, Flat(g, group, 0));
    var part := GroupPart(l, x, 0);
    forall h {:trigger part(h)} | 0 <= h < block
      ensures Sum(WordTerm(l, x, 0, h), group) == if h == g then 1.0 else 0.0
    {
      SkewGroup(group, block, g, h);
    }
    forall h {:trigger part(h)} | 0 <= h < block && h != g
      ensures part(h) == 0.0
    {
      TimesZero(KScale(l, 0, h));
    }
    SumSingle(part, g, block);
    assert part(g) == Times(KScale(l, 0, g), 1.0);
  }

  lemma SkewGroup(group: pos, block: pos, g: nat, h: nat)
    requires g < block && h < block
    ensures var l := Skew(group, block);
      Flat(g, group, 0) >= 0
      && Sum(WordTerm(l, Unit(l.cols, Flat(g, group, 0)), 0, h), group) == if h == g then 1.0 else 0.0
  {
    var l := Skew(group, block);
    var x := Unit(l.cols, Flat(g, group, 0));
    var f := WordTerm(l, x, 0, h);
    forall j {:trigger f(j)} | 0 <= j < group
      ensures f(j) == if h == g && j == 0 then 1.0 else 0.0
    {
      SkewWord(group, block, h, j);
      SamePlace(h, j, g, 0, group);
      FlatBound(h, j, block, group);
      assert l.cols == block * group;
    }
    if h == g {
      SumSingle(f, 0, group);
    } else {
      SumZero(f, group);
    }
  }

  // The one-token kernels are right for every layer of these sizes exactly when
  // the group divides the block.
  lemma EveryBlockServedIff(group: pos, block: pos)
    requires group <= block
    ensures EveryBlockServed(group, block) <==> block % group == 0
  {
    if block % group == 0 {
      forall l: Layer, x: seq<real>, m: nat | Whole(l) && l.group == group && l.block == block && m < l.rows
        ensures DecodeDot(l, x, m) == RowDot(l, x, m)
      {
        GroupsMakeRow(l, x, m);
      }
    } else {
      StraddlingGroup(group, block);
    }
  }

  // Group block / group starts in the first block.
  lemma StartsInFirst(group: pos, block: pos)
    requires group <= block && block % group != 0
    ensures var g := block / group; 1 < group && 0 < g < block && 0 <= Flat(g, group, 0) < block
  {
    var g := block / group;
    assert block == g * group + block % group;
    MulMono(1, g, group);
    MulAway(g, group);
    if g >= block {
      MulMono(block, g, group);
      MulMono(2, group, block);
    }
  }

  lemma SmallQuotient(c: nat, block: pos, group: pos)
    requires c < block && 1 < group
    ensures c / block == 0 && c < group * block && block / block == 1
  {
    MulMono(2, group, block);
  }

  // Its first column is in block 0, but the kernel scales it as block 1.
  lemma StraddlingGroup(group: pos, block: pos)
    requires group <= block && block % group != 0
    ensures !EveryBlockServed(group, block)
  {
    hide DecodeDot, RowDot;
    var g, l := block / group, Skew(group, block);
    StartsInFirst(group, block);
    var c := Flat(g, group, 0);
    SmallQuotient(c, block, group);
    SmallQuotient(0, g, group);
    SkewWhole(group, block);
    SkewRow(group, block, c);
    SkewDecode(group, block, g);
    var x := Unit(l.cols, c);
    assert DecodeDot(l, x, 0) == 2.0 && RowDot(l, x, 0) == 1.0;
  }
}
