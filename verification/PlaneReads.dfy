// Reading one index of a bit plane in constant time: the vectorised unpack of
// VQLinear and the byte, shift and mask of the kernels.

module PlaneReads {
  import opened Basics
  import opened Layout
  import opened Bits
  import opened IndexCodec
  import opened Planes

  // ---------------------------------------------------------- constant-time read

  // The high widths whose fields never straddle a byte.
  predicate ByteDivisor(h: nat) {
    h == 1 || h == 2 || h == 4 || h == 8
  }

  // One byte load, one shift, one mask.
  function KernelHigh(hi: seq<byte>, h: pos, p: nat): nat
    requires ByteDivisor(h) && p * h / 8 < |hi|
  {
    var shift := 8 - (p % (8 / h) + 1) * h;
    assert (p % (8 / h) + 1) * h <= 8;
    ShiftMask(hi[p * h / 8], shift, h)
  }

  // Entry p of ((hi[:, None] >> shifts[None, :]) & mask).reshape(-1)
  function VectorHigh(hi: seq<byte>, h: pos, p: nat): nat
    requires ByteDivisor(h) && p / (8 / h) < |hi|
  {
    var slot := p % (8 / h);
    assert (slot + 1) * h <= 8;
    ShiftMask(hi[p / (8 / h)], 8 - (slot + 1) * h, h)
  }

  lemma SlotArithmetic(h: pos, p: nat)
    requires ByteDivisor(h)
    ensures p / (8 / h) == p * h / 8
    ensures p * h == 8 * (p * h / 8) + p % (8 / h) * h
    ensures (p % (8 / h) + 1) * h <= 8
  {
    if h == 1 {
    } else if h == 2 {
    } else if h == 4 {
    } else {
      assert h == 8;
    }
  }

  lemma FieldInByte(stream: seq<bool>, v: nat, at: nat, off: nat, h: nat, shift: nat)
    requires at + 8 <= |stream| && off + h + shift == 8
    requires Value(stream[at..at + 8]) == v
    ensures ShiftMask(v, shift, h) == Value(stream[at + off..at + off + h])
  {
    var oneByte := stream[at..at + 8];
    FieldByShift(oneByte, h, shift);
    var field, same := oneByte[8 - shift - h..8 - shift], stream[at + off..at + off + h];
    assert forall k :: 0 <= k < 8 ==> oneByte[k] == stream[at + k];
    assert |field| == |same| && forall k :: 0 <= k < h ==> field[k] == oneByte[off + k] == same[k];
    assert field == same;
  }

  lemma ReadField(hi: seq<byte>, q: nat, off: nat, h: nat, shift: nat)
    requires q < |hi| && off + h + shift == 8
    ensures ShiftMask(hi[q], shift, h) == StreamField(hi, 8 * q + off, h)
  {
    ByteOfStream(hi, q);
    FieldInByte(UnpackBits(hi), hi[q], 8 * q, off, h, shift);
  }

  // Both fast reads are the p-th field of the sequential stream, for every
  // stream length.
  lemma FastReadsAreSequential(hi: seq<byte>, h: pos, p: nat)
    requires ByteDivisor(h) && CoversAt(hi, h, p)
    ensures p * h / 8 < |hi| && p / (8 / h) < |hi|
    ensures KernelHigh(hi, h, p) == HighField(hi, h, p)
    ensures VectorHigh(hi, h, p) == HighField(hi, h, p)
  {
    SlotArithmetic(h, p);
    var q, slot := p * h / 8, p % (8 / h);
    var off := slot * h;
    assert (slot + 1) * h == off + h;
    assert p * h == 8 * q + off;
    hide ShiftMask;
    assert ShiftMask(hi[q], 8 - off - h, h) == HighField(hi, h, p) by { ReadField(hi, q, off, h, 8 - off - h); }
  }

  // A stage stored in planes: the shapes VQLinear registers.
  predicate PlanedStage(p: Planes, width: nat) {
    width > 8 && ByteDivisor(width - 8) && Covers(p.hi, width - 8, |p.lo|)
  }

  // Entry i of VQLinear._stage_indices_int on a planed stage.
  function PlanedIndex(p: Planes, width: nat, i: nat): nat
    requires PlanedStage(p, width) && i < |p.lo|
  {
    CoversEach(p.hi, width - 8, |p.lo|, i);
    FastReadsAreSequential(p.hi, width - 8, i);
    p.lo[i] + 256 * VectorHigh(p.hi, width - 8, i)
  }

  // The index a plane kernel gathers with, at position i.
  function KernelIndex(p: Planes, width: nat, i: nat): nat
    requires PlanedStage(p, width) && i < |p.lo|
  {
    CoversEach(p.hi, width - 8, |p.lo|, i);
    FastReadsAreSequential(p.hi, width - 8, i);
    p.lo[i] + 256 * KernelHigh(p.hi, width - 8, i)
  }

  // Storing in planes and reading by either fast path is the identity on
  // indices of the stored width.
  lemma PlanedRoundTrip(indices: seq<nat>, width: nat, i: nat)
    requires width > 8 && ByteDivisor(width - 8) && i < |indices|
    requires indices[i] < Pow2(width)
    ensures PlanedStage(PackIndexPlanes(indices, width), width)
    ensures PlanedIndex(PackIndexPlanes(indices, width), width, i) == indices[i]
    ensures KernelIndex(PackIndexPlanes(indices, width), width, i) == indices[i]
  {
    PlaneOfPack(indices, width, i);
    BelowModulus(indices[i], Pow2(width));
    FastReadsAreSequential(PackIndexPlanes(indices, width).hi, width - 8, i);
  }
}
