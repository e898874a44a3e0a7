// Outlier sidecars (orka/core/_format.py): sorted, delta-coded positions in the
// narrowest unsigned dtype, values reordered to match, and what scattering the
// file back does. Values are exact; a sidecar blob is a codec byte and a payload.

module Outliers {
  import opened Basics
  import opened Layout
  import opened Bits
  import opened ByteOrder
  import opened IndexCodec
  import opened Reference
  import opened Sorting

  // ---------------------------------------------------------- sidecar blobs

  function WriteBlob(z: Zlib, raw: seq<byte>): seq<byte> {
    if |z.compress(raw)| < |raw| then [1] + z.compress(raw) else [0] + raw
  }

  // None for an unknown codec byte.
  function ReadBlob(z: Zlib, data: seq<byte>): Option<seq<byte>> {
    if |data| == 0 then Some([])
    else if data[0] == 1 then Some(z.decompress(data[1..]))
    else if data[0] == 0 then Some(data[1..])
    else None
  }

  lemma BlobRoundTrip(z: Zlib, raw: seq<byte>)
    requires Inverse(z)
    ensures ReadBlob(z, WriteBlob(z, raw)) == Some(raw)
  {
    assert WriteBlob(z, raw)[1..] == if |z.compress(raw)| < |raw| then z.compress(raw) else raw;
  }

  // ------------------------------------------------------------ delta coding

  // Bytes of the smallest unsigned dtype holding a value.
  function SmallestUnsigned(max: nat): pos {
    if max <= 255 then 1
    else if max <= 65535 then 2
    else if max <= 4294967295 then 4
    else 8
  }

  // np.diff(pos, prepend=0)
  function Delta(pos: seq<int>): (r: seq<int>)
    ensures |r| == |pos|
  {
    seq(|pos|, i requires 0 <= i < |pos| => if i == 0 then pos[0] else pos[i] - pos[i - 1])
  }

  function PrefixSum(delta: seq<int>, n: nat): int
    requires n <= |delta|
  {
    if n == 0 then 0 else PrefixSum(delta, n - 1) + delta[n - 1]
  }

  function Wrap64(x: int): (r: int)
    ensures 0 <= r < 2 * INT64_TOP
    ensures 0 <= x < 2 * INT64_TOP ==> r == x
  {
    x % (2 * INT64_TOP)
  }

  // np.cumsum(delta.astype(np.uint64)), which wraps.
  function Cumulative(delta: seq<int>): (r: seq<int>)
    ensures |r| == |delta|
    ensures forall i :: 0 <= i < |r| ==> r[i] == Wrap64(PrefixSum(delta, i + 1))
  {
    seq(|delta|, i requires 0 <= i < |delta| => Wrap64(PrefixSum(delta, i + 1)))
  }

  lemma {:induction false} PrefixSumOfDelta(pos: seq<int>, n: nat)
    requires n <= |pos|
    ensures PrefixSum(Delta(pos), n) == if n == 0 then 0 else pos[n - 1]
  {
    if n > 0 {
      PrefixSumOfDelta(pos, n - 1);
    }
  }

  function Largest(s: seq<nat>): (m: nat)
    ensures forall i :: 0 <= i < |s| ==> s[i] <= m
    ensures m == 0 || m in s
  {
    if |s| == 0 then 0
    else if s[|s| - 1] > Largest(s[..|s| - 1]) then s[|s| - 1] else Largest(s[..|s| - 1])
  }

  // ---------------------------------------------------------- write and read

  function Positions(side: Sidecar): (r: seq<int>)
    ensures |r| == |side| && forall i :: 0 <= i < |r| ==> r[i] == side[i].0
  {
    seq(|side|, i requires 0 <= i < |side| => side[i].0)
  }

  // The list as stored: by position, ties in writing order.
  function Stored(side: Sidecar): (r: Sidecar)
    ensures |r| == |side|
  {
    Reorder(side, StableArgsort(Positions(side)))
  }

  datatype OutlierFile = OutlierFile(indexBlob: seq<byte>, word: pos, values: seq<real>)

  predicate Storable(side: Sidecar) {
    forall i :: 0 <= i < |side| ==> 0 <= side[i].0 < 2 * INT64_TOP
  }

  lemma StoredIsSorted(side: Sidecar)
    ensures forall a, b :: 0 <= a < b < |side| ==> Stored(side)[a].0 <= Stored(side)[b].0
    ensures Storable(side) ==> Storable(Stored(side))
  {
    ArgsortCorrect(Positions(side), |side|);
  }

  lemma DeltasFit(pos: seq<int>)
    requires forall a, b :: 0 <= a < b < |pos| ==> pos[a] <= pos[b]
    requires forall a :: 0 <= a < |pos| ==> 0 <= pos[a] < 2 * INT64_TOP
    ensures forall i :: 0 <= i < |pos| ==> 0 <= Delta(pos)[i] < 2 * INT64_TOP
  {
  }

  // The gaps between stored positions.
  function Gaps(side: Sidecar): (r: seq<int>)
    ensures |r| == |side|
  {
    Delta(Positions(Stored(side)))
  }

  lemma GapsAre(side: Sidecar)
    ensures forall i :: 0 <= i < |side| ==> Gaps(side)[i] == Stored(side)[i].0 - if i == 0 then 0 else Stored(side)[i - 1].0
  {
    hide Stored;
    var pos := Positions(Stored(side));
    forall i | 0 <= i < |side|
      ensures Gaps(side)[i] == Stored(side)[i].0 - if i == 0 then 0 else Stored(side)[i - 1].0
    {
      assert pos[i] == Stored(side)[i].0;
      assert i > 0 ==> pos[i - 1] == Stored(side)[i - 1].0;
    }
  }

  // The numbers as little-endian words, behind a codec byte: 1 and compressed
  // where that is shorter, else 0 and plain.
  ghost predicate HoldsGaps(z: Zlib, blob: seq<byte>, gaps: seq<int>, word: nat) {
    && (forall i :: 0 <= i < |gaps| ==> gaps[i] >= 0)
    && exists raw: seq<byte> {:trigger z.compress(raw)} ::
         && HoldsWords(raw, gaps, word)
         && blob == if |z.compress(raw)| < |raw| then [1] + z.compress(raw) else [0] + raw
  }

  // Sorts, delta-codes and narrows. The word holds every gap, and no narrower
  // one would; reading back gives the sorted list.
  method WriteOutliers(z: Zlib, side: Sidecar) returns (f: OutlierFile)
    requires Storable(side)
    ensures f == WriteSpec(z, side)
    ensures |f.values| == |side| && forall i :: 0 <= i < |side| ==> f.values[i] == Stored(side)[i].1
    ensures forall i :: 0 <= i < |side| ==> Gaps(side)[i] == Stored(side)[i].0 - if i == 0 then 0 else Stored(side)[i - 1].0
    ensures forall i :: 0 <= i < |side| ==> 0 <= Gaps(side)[i] < Pow2(8 * f.word)
    ensures f.word == 1 || exists i :: 0 <= i < |side| && Gaps(side)[i] >= Pow2(4 * f.word)
    ensures HoldsGaps(z, f.indexBlob, Gaps(side), f.word)
    ensures Inverse(z) ==> ReadSpec(z, f) == Some(Stored(side))
  {
    var order := StableArgsort(Positions(side));
    var sorted := Reorder(side, order);
    StoredIsSorted(side);
    var pos := Positions(sorted);
    DeltasFit(pos);
    var delta: seq<nat> := Delta(pos);
    var word := SmallestUnsigned(Largest(delta));
    f := OutlierFile(WriteBlob(z, Words(delta, word)), word,
                     seq(|sorted|, i requires 0 <= i < |sorted| => sorted[i].1));
    assert f == WriteSpec(z, side);
    WrittenFile(z, side);
  }

  // What the written file holds.
  lemma WrittenFile(z: Zlib, side: Sidecar)
    requires Storable(side)
    ensures var f := WriteSpec(z, side);
      && |f.values| == |side| && (forall i :: 0 <= i < |side| ==> f.values[i] == Stored(side)[i].1)
      && (forall i :: 0 <= i < |side| ==> Gaps(side)[i] == Stored(side)[i].0 - if i == 0 then 0 else Stored(side)[i - 1].0)
      && (forall i :: 0 <= i < |side| ==> 0 <= Gaps(side)[i] < Pow2(8 * f.word))
      && (f.word == 1 || exists i :: 0 <= i < |side| && Gaps(side)[i] >= Pow2(4 * f.word))
      && HoldsGaps(z, f.indexBlob, Gaps(side), f.word)
      && (Inverse(z) ==> ReadSpec(z, f) == Some(Stored(side)))
  {
    hide HoldsGaps, Stored, Delta, Words, WriteBlob, SmallestUnsigned, Largest, Pow2, Inverse, ReadSpec, StableArgsort, Gaps, WriteSpec, HoldsWords;
    FileParts(z, side);
    GapsAre(side);
    var delta: seq<nat>, f := Gaps(side), WriteSpec(z, side);
    WordsHold(delta, f.word);
    BlobHolds(z, Words(delta, f.word), delta, f.word);
    NarrowWordFits(delta);
    if Inverse(z) {
      ReadInvertsWriteOutliers(z, side);
    }
  }

  lemma BlobHolds(z: Zlib, raw: seq<byte>, gaps: seq<nat>, word: nat)
    requires HoldsWords(raw, gaps, word)
    ensures HoldsGaps(z, WriteBlob(z, raw), gaps, word)
  {
    hide HoldsWords;
    var packed := z.compress(raw);
  }

  function WriteSpec(z: Zlib, side: Sidecar): OutlierFile
    requires Storable(side)
  {
    StoredIsSorted(side);
    DeltasFit(Positions(Stored(side)));
    var delta: seq<nat> := Delta(Positions(Stored(side)));
    var word := SmallestUnsigned(Largest(delta));
    OutlierFile(WriteBlob(z, Words(delta, word)), word,
                seq(|side|, i requires 0 <= i < |side| => Stored(side)[i].1))
  }

  // The bytes under the codec byte.
  function Body(z: Zlib, blob: seq<byte>): seq<byte> {
    if |blob| == 0 then [] else if blob[0] == 1 then z.decompress(blob[1..]) else blob[1..]
  }

  // Codec byte 0 or 1, and one word per value.
  predicate Readable(z: Zlib, f: OutlierFile) {
    && (|f.indexBlob| > 0 ==> f.indexBlob[0] <= 1)
    && |Body(z, f.indexBlob)| == |f.values| * f.word
  }

  // Gap i as the file holds it: bytes i * word to (i + 1) * word, the lowest first.
  function WordAt(z: Zlib, f: OutlierFile, i: nat): nat {
    LittleSum(Body(z, f.indexBlob), Flat(i, f.word, 0), f.word)
  }

  function WordSum(z: Zlib, f: OutlierFile, n: nat): nat {
    if n == 0 then 0 else WordSum(z, f, n - 1) + WordAt(z, f, n - 1)
  }

  // None where the reader raises: unknown codec, ragged stream, count mismatch.
  // Otherwise the running sums of the words, in 64 bits, beside the values.
  method ReadOutliers(z: Zlib, f: OutlierFile) returns (r: Option<Sidecar>)
    ensures r == ReadSpec(z, f)
    ensures r.Some? <==> Readable(z, f)
    ensures r.Some? ==> |r.value| == |f.values|
    ensures r.Some? ==> forall i :: 0 <= i < |r.value| ==>
      r.value[i].1 == f.values[i] && r.value[i].0 == Wrap64(WordSum(z, f, i + 1))
    ensures r.Some? && WordSum(z, f, |f.values|) < 2 * INT64_TOP ==>
      forall i, j :: 0 <= i < j < |r.value| ==> r.value[i].0 <= r.value[j].0
  {
    var blob := ReadBlob(z, f.indexBlob);
    BodyWords(z, f);
    if blob.None? {
      return None;
    }
    var delta := FromWords(blob.value, f.word);
    if delta.None? || |delta.value| != |f.values| {
      return None;
    }
    var pos := Cumulative(delta.value);
    r := Some(seq(|pos|, i requires 0 <= i < |pos| => (pos[i], f.values[i])));
    hide ReadBlob, Body, FromWords, WordAt, WordSum;
    RunningSums(z, f, delta.value);
  }

  lemma RunningSums(z: Zlib, f: OutlierFile, delta: seq<int>)
    requires forall i :: 0 <= i < |delta| ==> delta[i] == WordAt(z, f, i)
    ensures forall i :: 0 <= i < |delta| ==> Cumulative(delta)[i] == Wrap64(WordSum(z, f, i + 1))
    ensures WordSum(z, f, |delta|) < 2 * INT64_TOP ==>
      forall i, j :: 0 <= i < j < |delta| ==> Cumulative(delta)[i] <= Cumulative(delta)[j]
  {
    hide WordAt, Wrap64;
    forall i | 0 <= i < |delta|
      ensures Cumulative(delta)[i] == Wrap64(WordSum(z, f, i + 1))
      ensures WordSum(z, f, i + 1) <= WordSum(z, f, |delta|)
    {
      SumsAgree(z, f, delta, i + 1);
      WordSumGrows(z, f, i + 1, |delta|);
    }
    forall i, j | 0 <= i < j < |delta| && WordSum(z, f, |delta|) < 2 * INT64_TOP
      ensures Cumulative(delta)[i] <= Cumulative(delta)[j]
    {
      WordSumGrows(z, f, i + 1, j + 1);
    }
  }

  function ReadSpec(z: Zlib, f: OutlierFile): Option<Sidecar> {
    var blob := ReadBlob(z, f.indexBlob);
    if blob.None? then None
    else
      var delta := FromWords(blob.value, f.word);
      if delta.None? || |delta.value| != |f.values| then None
      else
        var pos := Cumulative(delta.value);
        Some(seq(|pos|, i requires 0 <= i < |pos| => (pos[i], f.values[i])))
  }

  lemma BodyWords(z: Zlib, f: OutlierFile)
    ensures ReadBlob(z, f.indexBlob).Some? ==> ReadBlob(z, f.indexBlob).value == Body(z, f.indexBlob)
    ensures Readable(z, f) <==>
      && ReadBlob(z, f.indexBlob).Some?
      && var delta := FromWords(Body(z, f.indexBlob), f.word); delta.Some? && |delta.value| == |f.values|
    ensures Readable(z, f) ==> forall i :: 0 <= i < |f.values| ==>
      FromWords(Body(z, f.indexBlob), f.word).value[i] == WordAt(z, f, i)
  {
    WordsOf(Body(z, f.indexBlob), f.word, |f.values|);
  }

  lemma {:induction false} SumsAgree(z: Zlib, f: OutlierFile, delta: seq<int>, n: nat)
    requires n <= |delta| && forall i :: 0 <= i < |delta| ==> delta[i] == WordAt(z, f, i)
    ensures PrefixSum(delta, n) == WordSum(z, f, n)
  {
    if n > 0 {
      SumsAgree(z, f, delta, n - 1);
    }
  }

  lemma {:induction false} WordSumGrows(z: Zlib, f: OutlierFile, a: nat, b: nat)
    requires a <= b
    ensures WordSum(z, f, a) <= WordSum(z, f, b)
  {
    if a < b {
      WordSumGrows(z, f, a, b - 1);
    }
  }

  lemma WordRanges()
    ensures Pow2(4) == 16 && Pow2(8) == 256 && Pow2(16) == 65536 && Pow2(32) == 4294967296 && Pow2(64) == 2 * INT64_TOP
  {
    Pow2Eight();
    Pow2Add(8, 8);
    Pow2Add(16, 16);
    Int64Top();
    assert Pow2(4) == 2 * Pow2(3) == 4 * Pow2(2) == 8 * Pow2(1) == 16 * Pow2(0);
  }

  lemma NarrowWordFits(delta: seq<nat>)
    requires forall i :: 0 <= i < |delta| ==> delta[i] < 2 * INT64_TOP
    ensures var word := SmallestUnsigned(Largest(delta));
      && (forall i :: 0 <= i < |delta| ==> delta[i] < Pow2(8 * word))
      && (word == 1 || exists i :: 0 <= i < |delta| && delta[i] >= Pow2(4 * word))
  {
    WordRanges();
    hide Pow2;
    var most := Largest(delta);
    if most > 0 {
      var i :| 0 <= i < |delta| && delta[i] == most;
    }
  }

  lemma CumulativeOfDelta(pos: seq<int>)
    requires forall i :: 0 <= i < |pos| ==> 0 <= pos[i] < 2 * INT64_TOP
    ensures Cumulative(Delta(pos)) == pos
  {
    forall i | 0 <= i < |pos|
      ensures Cumulative(Delta(pos))[i] == pos[i]
    {
      PrefixSumOfDelta(pos, i + 1);
    }
  }

  // What the writer puts in the file.
  lemma FileParts(z: Zlib, side: Sidecar)
    requires Storable(side)
    ensures forall i :: 0 <= i < |side| ==> 0 <= Gaps(side)[i] < 2 * INT64_TOP
    ensures var f, delta: seq<nat> := WriteSpec(z, side), Gaps(side);
      && f.word == SmallestUnsigned(Largest(delta)) && f.indexBlob == WriteBlob(z, Words(delta, f.word))
      && |f.values| == |side| && forall i :: 0 <= i < |side| ==> f.values[i] == Stored(side)[i].1
  {
    StoredIsSorted(side);
    DeltasFit(Positions(Stored(side)));
    hide SmallestUnsigned, Largest, Words, WriteBlob, Stored, Delta;
  }

  // What the reader makes of a file whose blob and words are known.
  lemma ReadFrom(z: Zlib, f: OutlierFile, raw: seq<byte>, delta: seq<int>, side: Sidecar)
    requires ReadBlob(z, f.indexBlob) == Some(raw) && FromWords(raw, f.word) == Some(delta)
    requires |delta| == |f.values| == |side| && Cumulative(delta) == Positions(side)
    requires forall i :: 0 <= i < |side| ==> f.values[i] == side[i].1
    ensures ReadSpec(z, f) == Some(side)
  {
    hide ReadBlob, FromWords, Cumulative;
    var pos := Cumulative(delta);
    var r := seq(|pos|, i requires 0 <= i < |pos| => (pos[i], f.values[i]));
    assert ReadSpec(z, f) == Some(r);
    forall i | 0 <= i < |side|
      ensures r[i] == side[i]
    {
      assert pos[i] == side[i].0;
    }
    assert r == side;
  }

  // The file gives back the stored list.
  lemma ReadInvertsWriteOutliers(z: Zlib, side: Sidecar)
    requires Inverse(z) && Storable(side)
    ensures ReadSpec(z, WriteSpec(z, side)) == Some(Stored(side))
  {
    FileParts(z, side);
    StoredIsSorted(side);
    CumulativeOfDelta(Positions(Stored(side)));
    hide Stored, Words, FromWords, WriteBlob, ReadBlob, SmallestUnsigned, Largest, Pow2, Inverse, Cumulative, WriteSpec, ReadSpec;
    var delta: seq<nat>, f := Gaps(side), WriteSpec(z, side);
    BlobRoundTrip(z, Words(delta, f.word));
    NarrowWordFits(delta);
    WordsRoundTrip(delta, f.word);
    ReadFrom(z, f, Words(delta, f.word), delta, Stored(side));
  }

  // ----------------------------------------------------- scattering is the same

  // Inserting the newest pair keeps it the last write at its own position.
  lemma {:induction false} InsertedWrite(side: Sidecar, order: seq<nat>, x: nat, p: int, base: real)
    requires x < |side| && forall j :: 0 <= j < |order| ==> order[j] < x
    ensures forall j :: 0 <= j < |Insert(Positions(side), order, x)| ==> Insert(Positions(side), order, x)[j] < |side|
    ensures Overwrite(Reorder(side, Insert(Positions(side), order, x)), p, base)
         == if side[x].0 == p then side[x].1 else Overwrite(Reorder(side, order), p, base)
  {
    var keys := Positions(side);
    InsertShape(keys, order, x);
    var ins := Insert(keys, order, x);
    var n := |order|;
    if n == 0 || keys[order[n - 1]] <= keys[x] {
      LastWritePrefix(Reorder(side, ins), Reorder(side, order), n, p, base);
    } else {
      var rest := order[..n - 1];
      InsertShape(keys, rest, x);
      InsertedWrite(side, rest, x, p, base);
      LastWritePrefix(Reorder(side, ins), Reorder(side, Insert(keys, rest, x)), n, p, base);
      LastWritePrefix(Reorder(side, order), Reorder(side, rest), n - 1, p, base);
    }
  }

  lemma {:induction false} SortedWrite(side: Sidecar, n: nat, p: int, base: real)
    requires n <= |side|
    ensures Overwrite(Reorder(side, ArgsortUpTo(Positions(side), n)), p, base) == LastWrite(side, n, p, base)
  {
    if n > 0 {
      SortedWrite(side, n - 1, p, base);
      InsertedWrite(side, ArgsortUpTo(Positions(side), n - 1), n - 1, p, base);
    }
  }

  // Scattering what was read back writes the same array as scattering the
  // original list in order, duplicates included.
  lemma ScatterSurvivesStorage(z: Zlib, side: Sidecar, p: int, base: real)
    requires Inverse(z) && Storable(side)
    ensures ReadSpec(z, WriteSpec(z, side)).Some?
    ensures Overwrite(ReadSpec(z, WriteSpec(z, side)).value, p, base) == Overwrite(side, p, base)
  {
    ReadInvertsWriteOutliers(z, side);
    SortedWrite(side, |side|, p, base);
  }
}
