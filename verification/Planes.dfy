// Bit-plane index storage: a byte plane for the low 8 bits and a packed plane
// for the rest (orka/core/_format.py), with the three ways it is read back: the
// sequential unpack, the vectorised unpack of VQLinear, and the kernels'
// constant-time read of one index. `lo | hi << 8` is written lo + 256 * hi: the
// two operands share no bit.

module Planes {
  import opened Basics
  import opened Layout
  import opened Bits
  import opened IndexCodec

  datatype Planes = Planes(lo: seq<byte>, hi: seq<byte>)

  function HighPart(indices: seq<nat>): (r: seq<nat>)
    ensures |r| == |indices|
  {
    seq(|indices|, i requires 0 <= i < |indices| => indices[i] / 256)
  }

  function PackIndexPlanes(indices: seq<nat>, width: nat): (r: Planes)
    ensures |r.lo| == |indices|
  {
    var lo := seq(|indices|, i requires 0 <= i < |indices| => indices[i] % 256);
    if width <= 8 then Planes(lo, []) else Planes(lo, PackWhole(HighPart(indices), width - 8))
  }

  // The bits an index keeps: a byte always, more when the high plane exists.
  function KeptBits(width: nat): nat {
    if width <= 8 then 8 else width
  }

  method UnpackIndexPlanes(p: Planes, width: nat, count: nat) returns (r: Option<seq<int>>)
    requires width <= 64 && count <= |p.lo|
    ensures r.None? <==> width > 8 && !Covers(p.hi, width - 8, count)
    ensures r.Some? ==> |r.value| == count
    ensures r.Some? ==> forall i :: 0 <= i < count ==> ReadsBack(p, width, i, r.value[i])
  {
    if width <= 8 {
      return Some(seq(count, i requires 0 <= i < count => AsInt64(p.lo[i])));
    }
    var hi := UnpackIndices(p.hi, width - 8, count, 0x40_0000);
    if hi.None? {
      return None;
    }
    FieldsInRange(p.hi, width - 8, count);
    r := Some(seq(count, i requires 0 <= i < count => AsInt64(p.lo[i] + 256 * hi.value[i])));
  }

  // The high plane holds `count` fields of h bits / a field number i.
  predicate Covers(hi: seq<byte>, h: nat, count: nat) {
    count * h <= 8 * |hi|
  }

  predicate CoversAt(hi: seq<byte>, h: int, i: nat) {
    h >= 0 && i * h + h <= 8 * |hi|
  }

  lemma CoversEach(hi: seq<byte>, h: nat, count: nat, i: nat)
    requires Covers(hi, h, count) && i < count
    ensures CoversAt(hi, h, i)
  {
    MulMono(i + 1, count, h);
  }

  // The field a sequential reader of the high plane finds for index i.
  function HighField(hi: seq<byte>, h: nat, i: nat): nat
    requires CoversAt(hi, h, i)
  {
    StreamField(hi, i * h, h)
  }

  function StreamField(hi: seq<byte>, at: nat, h: nat): nat
    requires at + h <= 8 * |hi|
  {
    Value(UnpackBits(hi)[at..at + h])
  }

  function SequentialIndex(p: Planes, width: nat, i: nat): nat
    requires i < |p.lo|
    requires width > 8 ==> CoversAt(p.hi, width - 8, i)
  {
    if width <= 8 then p.lo[i] else p.lo[i] + 256 * HighField(p.hi, width - 8, i)
  }

  predicate ReadsBack(p: Planes, width: nat, i: nat, v: int)
    requires i < |p.lo|
  {
    (width > 8 ==> CoversAt(p.hi, width - 8, i)) && v == AsInt64(SequentialIndex(p, width, i))
  }

  lemma FieldsInRange(hi: seq<byte>, h: nat, count: nat)
    requires h <= 56 && Covers(hi, h, count)
    ensures forall i :: 0 <= i < count ==> CoversAt(hi, h, i) && UnpackWhole(hi, h, count)[i] == HighField(hi, h, i)
  {
    forall i | 0 <= i < count
      ensures CoversAt(hi, h, i) && UnpackWhole(hi, h, count)[i] == HighField(hi, h, i)
    {
      CoversEach(hi, h, count, i);
      ValueBound(UnpackBits(hi)[i * h..i * h + h]);
      Pow2Mono(h, 63);
      Int64Top();
    }
  }

  // ------------------------------------------------------- what planes preserve

  lemma HighPlane(high: seq<nat>, h: nat, i: nat)
    requires i < |high|
    ensures Covers(PackWhole(high, h), h, |high|) && CoversAt(PackWhole(high, h), h, i)
    ensures HighField(PackWhole(high, h), h, i) == high[i] % Pow2(h)
  {
    WholeLength(high, h);
    CoversEach(PackWhole(high, h), h, |high|, i);
    UnpackPack(Flatten(high, h));
    FieldValue(high, h, i, UnpackBits(PackWhole(high, h)));
  }

  lemma LowAndHigh(v: nat, h: nat)
    ensures v % 256 + 256 * (v / 256 % Pow2(h)) == v % Pow2(8 + h)
  {
    Pow2Eight();
    Pow2Add(8, h);
    var q, r := v / 256 / Pow2(h), v / 256 % Pow2(h);
    assert v / 256 == q * Pow2(h) + r;
    assert 256 * (q * Pow2(h)) == q * Pow2(8 + h);
    DivModUnique(v, Pow2(8 + h), q, 256 * r + v % 256);
  }

  lemma PlaneOfPack(indices: seq<nat>, width: nat, i: nat)
    requires i < |indices|
    ensures var p := PackIndexPlanes(indices, width);
      && (width > 8 ==> Covers(p.hi, width - 8, |indices|) && CoversAt(p.hi, width - 8, i))
      && SequentialIndex(p, width, i) == indices[i] % Pow2(KeptBits(width))
  {
    Pow2Eight();
    if width > 8 {
      HighPlane(HighPart(indices), width - 8, i);
      LowAndHigh(indices[i], width - 8);
    }
  }

  // Byte i of the low plane is index i modulo 256; the rest of the index is the
  // i-th of the fields the high plane spells, highest bit first.
  lemma PlanesHold(indices: seq<nat>, width: nat)
    ensures forall i :: 0 <= i < |indices| ==> PackIndexPlanes(indices, width).lo[i] == indices[i] % 256
    ensures width <= 8 ==> PackIndexPlanes(indices, width).hi == []
    ensures width > 8 ==>
      HoldsBits(PackIndexPlanes(indices, width).hi, seq(|indices|, i requires 0 <= i < |indices| => indices[i] / 256), width - 8)
  {
    if width > 8 {
      hide HoldsBits;
      assert HighPart(indices) == seq(|indices|, i requires 0 <= i < |indices| => indices[i] / 256);
      PackedHolds(HighPart(indices), width - 8);
    }
  }

  // And the reader's index is the low byte plus 256 times that field.
  lemma SequentialIs(p: Planes, width: nat, i: nat)
    requires i < |p.lo| && (width > 8 ==> CoversAt(p.hi, width - 8, i))
    ensures SequentialIndex(p, width, i) == p.lo[i] + if width > 8 then 256 * MsbSum(p.hi, i * (width - 8), width - 8) else 0
  {
    if width > 8 {
      ValueIsMsbSum(p.hi, i * (width - 8), width - 8);
    }
  }

  // Planes of `width` bits lose nothing exactly when every index fits in the
  // bits they keep.
  lemma PlanesLosslessIff(indices: seq<nat>, width: nat)
    ensures (forall i :: 0 <= i < |indices| ==> Survives(indices, width, i))
       <==> (forall i :: 0 <= i < |indices| ==> indices[i] < Pow2(KeptBits(width)))
  {
    forall i | 0 <= i < |indices|
      ensures Survives(indices, width, i) <==> indices[i] < Pow2(KeptBits(width))
    {
      PlaneOfPack(indices, width, i);
      BelowModulus(indices[i], Pow2(KeptBits(width)));
    }
  }

  lemma BelowModulus(v: nat, m: pos)
    ensures v % m == v <==> v < m
  {
  }

  // The sequential reader gives index i back.
  ghost predicate Survives(indices: seq<nat>, width: nat, i: nat)
    requires i < |indices|
  {
    PlaneOfPack(indices, width, i);
    SequentialIndex(PackIndexPlanes(indices, width), width, i) == indices[i]
  }
}
