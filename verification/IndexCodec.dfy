// Index streams on disk (orka/core/_format.py): chunked exact-width bit packing,
// and the writer/reader pair around it.

module IndexCodec {
  import opened Basics
  import opened Layout
  import opened Bits
  import opened ByteOrder

  // One pass over the whole stream: what chunking must not change.
  function PackWhole(indices: seq<nat>, bits: nat): seq<byte> {
    PackBits(Flatten(indices, bits))
  }

  // numpy's uint64 -> int64 cast.
  function AsInt64(u: nat): int {
    if u < INT64_TOP then u else u - 2 * INT64_TOP
  }

  const INT64_TOP: nat := 0x8000_0000_0000_0000

  // `count` consecutive fields of `bits` bits.
  function Fields(stream: seq<bool>, bits: nat, count: nat): (r: seq<int>)
    requires count * bits <= |stream|
    ensures |r| == count
  {
    seq(count, i requires 0 <= i < count => FieldOf(stream, bits, count, i))
  }

  function FieldOf(stream: seq<bool>, bits: nat, count: nat, i: nat): int
    requires count * bits <= |stream| && i < count
  {
    MulMono(i + 1, count, bits);
    AsInt64(Value(stream[i * bits..i * bits + bits]))
  }

  function UnpackWhole(packed: seq<byte>, bits: nat, count: nat): (r: seq<int>)
    requires count * bits <= 8 * |packed|
    ensures |r| == count
  {
    Fields(UnpackBits(packed), bits, count)
  }

  lemma AlignedMul(i: nat, bits: nat)
    requires i % 8 == 0
    ensures i * bits % 8 == 0
  {
    var q := i / 8;
    assert i * bits == 8 * (q * bits);
  }

  lemma AlignedAdd(i: nat, chunk: nat)
    requires i % 8 == 0 && chunk % 8 == 0
    ensures (i + chunk) % 8 == 0
  {
  }

  lemma ChunkStep(arr: seq<nat>, bits: nat, i: nat, j: nat)
    requires i <= j <= |arr| && i % 8 == 0
    ensures PackWhole(arr[..j], bits) == PackWhole(arr[..i], bits) + PackWhole(arr[i..j], bits)
    ensures |PackWhole(arr[..j], bits)| <= |PackWhole(arr, bits)|
  {
    assert arr == arr[..j] + arr[j..];
    FlattenConcat(arr[..j], arr[j..], bits);
    PackLength(Flatten(arr, bits));
    assert arr[..j] == arr[..i] + arr[i..j];
    FlattenConcat(arr[..i], arr[i..j], bits);
    FlattenLength(arr[..i], bits);
    FlattenLength(arr[..j], bits);
    AlignedMul(i, bits);
    PackConcat(Flatten(arr[..i], bits), Flatten(arr[i..j], bits));
    PackLength(Flatten(arr[..j], bits));
  }

  lemma WholeLength(arr: seq<nat>, bits: nat)
    ensures |PackWhole(arr, bits)| == (|arr| * bits + 7) / 8
  {
    FlattenLength(arr, bits);
    PackLength(Flatten(arr, bits));
  }

  // out[at : at + packed.size] = packed
  method CopyInto(out: array<byte>, at: nat, packed: seq<byte>)
    requires at + |packed| <= out.Length
    modifies out
    ensures out[..at + |packed|] == old(out[..at]) + packed
  {
    forall k | 0 <= k < |packed| {
      out[at + k] := packed[k];
    }
  }

  // Chunks of a multiple of 8 indices give the bytes of a single-shot pack.
  method PackIndices(indices: seq<nat>, bits: nat, chunkRows: pos) returns (r: seq<byte>)
    requires chunkRows % 8 == 0
    ensures r == PackWhole(indices, bits) && HoldsBits(r, indices, bits)
  {
    PackedHolds(indices, bits);
    hide HoldsBits;
    var n := |indices|;
    if n == 0 {
      return [];
    }
    var out := new byte[(n * bits + 7) / 8];
    WholeLength(indices, bits);
    var at, i := 0, 0;
    assert indices[..0] == [];
    while i < n
      invariant i % 8 == 0
      invariant 0 <= at <= out.Length
      invariant out[..at] == PackWhole(indices[..if i < n then i else n], bits)
      decreases n - i
    {
      var j := if i + chunkRows < n then i + chunkRows else n;
      var packed := PackBits(Flatten(indices[i..j], bits));
      ChunkStep(indices, bits, i, j);
      CopyInto(out, at, packed);
      at := at + |packed|;
      AlignedAdd(i, chunkRows);
      i := i + chunkRows;
    }
    assert indices[..n] == indices;
    assert out[..at] == out[..];
    r := out[..];
  }

  lemma SliceOfSlice<T>(s: seq<T>, lo: nat, hi: nat, x: nat, y: nat)
    requires lo <= hi <= |s| && x <= y <= hi - lo
    ensures s[lo..hi][x..y] == s[lo + x..lo + y]
  {
    var part := s[lo..hi];
    assert forall k :: 0 <= k < |part| ==> part[k] == s[lo + k];
    var a, b := part[x..y], s[lo + x..lo + y];
    assert forall k :: 0 <= k < |a| ==> a[k] == part[x + k];
    assert forall k :: 0 <= k < |a| ==> a[k] == b[k];
  }

  lemma FieldOfSlice(stream: seq<bool>, bits: nat, count: nat, i: nat, j: nat, hi: nat, v: nat)
    requires count * bits <= |stream| && i <= j <= count && v < j - i
    requires i * bits <= j * bits <= hi <= |stream|
    ensures (j - i) * bits <= hi - i * bits
    ensures FieldOf(stream[i * bits..hi], bits, j - i, v) == FieldOf(stream, bits, count, i + v)
  {
    assert (j - i) * bits == j * bits - i * bits;
    assert (i + v) * bits == i * bits + v * bits;
    MulMono(v + 1, j - i, bits);
    assert (v + 1) * bits == v * bits + bits;
    SliceOfSlice(stream, i * bits, hi, v * bits, v * bits + bits);
  }

  // Fields i..j of a stream, read from a byte-aligned slice that covers them.
  lemma FieldsOfSlice(stream: seq<bool>, bits: nat, count: nat, i: nat, j: nat, hi: nat)
    requires count * bits <= |stream| && i <= j <= count
    requires i * bits <= j * bits <= hi <= |stream|
    ensures (j - i) * bits <= hi - i * bits
    ensures Fields(stream[i * bits..hi], bits, j - i) == Fields(stream, bits, count)[i..j]
  {
    assert (j - i) * bits == j * bits - i * bits;
    var part := Fields(stream[i * bits..hi], bits, j - i);
    var whole := Fields(stream, bits, count)[i..j];
    forall v {:trigger part[v]} | 0 <= v < j - i
      ensures part[v] == whole[v]
    {
      FieldOfSlice(stream, bits, count, i, j, hi, v);
    }
  }

  // Chunk [i, j) of the unpack loop; None where the slice comes up short.
  method UnpackChunk(packed: seq<byte>, bits: nat, i: nat, j: nat) returns (r: Option<seq<int>>)
    requires i < j && i % 8 == 0
    ensures r.None? <==> 8 * |packed| < j * bits
    ensures r.Some? ==> forall count :: j <= count && count * bits <= 8 * |packed| ==> r.value == UnpackWhole(packed, bits, count)[i..j]
    ensures r.Some? ==> |r.value| == j - i
  {
    AlignedMul(i, bits);
    MulMono(i, j, bits);
    var byteLo := i * bits / 8;
    var byteHi := (j * bits + 7) / 8;
    if byteHi > |packed| {
      return None;
    }
    var bitsChunk := UnpackBits(packed[byteLo..byteHi]);
    UnpackSlice(packed, byteLo, byteHi);
    assert (j - i) * bits == j * bits - i * bits;
    r := Some(Fields(bitsChunk, bits, j - i));
    forall count | j <= count && count * bits <= 8 * |packed|
      ensures r.value == UnpackWhole(packed, bits, count)[i..j]
    {
      FieldsOfSlice(UnpackBits(packed), bits, count, i, j, 8 * byteHi);
    }
  }

  // Field i is the number its bits spell, highest first, as an int64.
  ghost predicate ReadsBits(raw: seq<byte>, bits: nat, r: seq<int>) {
    forall i: nat :: i < |r| ==> r[i] == AsInt64(MsbSum(raw, Flat(i, bits, 0), bits))
  }

  lemma UnpackedReads(raw: seq<byte>, bits: nat, count: nat)
    requires count * bits <= 8 * |raw|
    ensures ReadsBits(raw, bits, UnpackWhole(raw, bits, count))
  {
    hide AsInt64;
    forall i: nat | i < count
      ensures UnpackWhole(raw, bits, count)[i] == AsInt64(MsbSum(raw, Flat(i, bits, 0), bits))
    {
      MulMono(i + 1, count, bits);
      assert Flat(i, bits, 0) + bits == (i + 1) * bits;
      ValueIsMsbSum(raw, Flat(i, bits, 0), bits);
    }
  }

  // Recovers `count` fields; None where numpy's reshape raises on short data.
  method UnpackIndices(packed: seq<byte>, bits: nat, count: nat, chunkRows: pos) returns (r: Option<seq<int>>)
    requires chunkRows % 8 == 0
    ensures r.None? <==> 8 * |packed| < count * bits
    ensures r.Some? ==> r.value == UnpackWhole(packed, bits, count) && ReadsBits(packed, bits, r.value)
  {
    if count * bits <= 8 * |packed| {
      UnpackedReads(packed, bits, count);
    }
    hide ReadsBits;
    if count == 0 {
      return Some([]);
    }
    var out := new int[count];
    var i := 0;
    while i < count
      invariant i % 8 == 0
      invariant i >= count ==> count * bits <= 8 * |packed|
      invariant count * bits <= 8 * |packed| ==>
                  forall v :: 0 <= v < i && v < count ==> out[v] == UnpackWhole(packed, bits, count)[v]
      decreases count - i
    {
      var j := if i + chunkRows < count then i + chunkRows else count;
      MulMono(j, count, bits);
      var part := UnpackChunk(packed, bits, i, j);
      if part.None? {
        return None;
      }
      forall v | i <= v < j {
        out[v] := part.value[v - i];
      }
      if count * bits <= 8 * |packed| {
        assert part.value == UnpackWhole(packed, bits, count)[i..j];
      }
      AlignedAdd(i, chunkRows);
      i := i + chunkRows;
    }
    assert out[..] == UnpackWhole(packed, bits, count);
    r := Some(out[..]);
  }

  // Unpacking returns each index modulo 2^bits, read back as an int64.
  lemma UnpackOfPack(indices: seq<nat>, bits: nat, i: nat)
    requires i < |indices|
    ensures |indices| * bits <= 8 * |PackWhole(indices, bits)|
    ensures UnpackWhole(PackWhole(indices, bits), bits, |indices|)[i] == AsInt64(indices[i] % Pow2(bits))
  {
    FlattenLength(indices, bits);
    UnpackPack(Flatten(indices, bits));
    FieldValue(indices, bits, i, UnpackBits(PackWhole(indices, bits)));
  }

  // The round trip is the identity exactly on the indices that fit in `bits`
  // bits and, at 64 bits, in the sign-free half of an int64.
  lemma RoundTripExactly(indices: seq<nat>, bits: nat)
    requires bits <= 64
    requires |indices| * bits <= 8 * |PackWhole(indices, bits)|
    ensures UnpackWhole(PackWhole(indices, bits), bits, |indices|) == indices
        <==> forall i :: 0 <= i < |indices| ==> indices[i] < Pow2(bits) && indices[i] < INT64_TOP
  {
    var back := UnpackWhole(PackWhole(indices, bits), bits, |indices|);
    forall i | 0 <= i < |indices|
      ensures back[i] == indices[i] <==> indices[i] < Pow2(bits) && indices[i] < INT64_TOP
    {
      UnpackOfPack(indices, bits, i);
      SignedField(indices[i], bits);
    }
    assert back == indices <==> forall i :: 0 <= i < |indices| ==> back[i] == indices[i];
  }

  lemma Int64Top()
    ensures Pow2(63) == INT64_TOP && Pow2(64) == 2 * INT64_TOP
  {
    Pow2Eight();
    Pow2Add(8, 8);
    assert Pow2(16) == 0x1_0000;
    Pow2Add(16, 16);
    assert Pow2(32) == 0x1_0000_0000;
    Pow2Add(32, 32);
    Pow2Add(63, 1);
  }

  lemma SignedRange(v: nat, range: pos)
    requires range <= 2 * INT64_TOP
    ensures AsInt64(v % range) == v <==> v < range && v < INT64_TOP
  {
  }

  lemma SignedField(v: nat, bits: nat)
    requires bits <= 64
    ensures AsInt64(v % Pow2(bits)) == v <==> v < Pow2(bits) && v < INT64_TOP
  {
    Int64Top();
    Pow2Mono(bits, 64);
    SignedRange(v, Pow2(bits));
  }

  // ------------------------------------------------------ writer and reader

  // zlib as an abstract inverse pair.
  datatype Zlib = Zlib(compress: seq<byte> -> seq<byte>, decompress: seq<byte> -> seq<byte>)

  ghost predicate Inverse(z: Zlib) {
    forall b: seq<byte> :: z.decompress(z.compress(b)) == b
  }

  datatype Encoding = Raw | ZlibStream | Unknown

  datatype Error = UnknownEncoding | WidthTooLarge | CountMismatch | ShortStream

  datatype Result<T> = Ok(value: T) | Err(error: Error)

  datatype Written = Written(payload: seq<byte>, packed: bool, encoding: Encoding)

  // Bytes per index of the narrowest dtype for a byte-aligned width.
  function WordBytes(bits: nat): (r: Option<pos>)
    ensures r.Some? <==> bits <= 64
    ensures r.Some? ==> r.value == 1 || r.value == 2 || r.value == 4 || r.value == 8
    ensures r.Some? ==> bits <= 8 * r.value && (r.value == 1 || 4 * r.value < bits)
  {
    if bits <= 8 then Some(1)
    else if bits <= 16 then Some(2)
    else if bits <= 32 then Some(4)
    else if bits <= 64 then Some(8)
    else None
  }

  function Stream(indices: seq<nat>, bits: nat): Result<seq<byte>> {
    if bits % 8 != 0 then Ok(PackWhole(indices, bits))
    else
      var word := WordBytes(bits);
      if word.None? then Err(WidthTooLarge) else Ok(Words(indices, word.value))
  }

  // zlib only when it actually shrinks the stream.
  function Choice(z: Zlib, raw: seq<byte>): Encoding {
    if |z.compress(raw)| < |raw| then ZlibStream else Raw
  }

  // The bytes of a stream before compression: bit fields at odd widths, else
  // little-endian words of the narrowest of 1, 2, 4 and 8 bytes.
  ghost predicate HoldsStream(raw: seq<byte>, indices: seq<nat>, bits: nat) {
    if bits % 8 != 0 then HoldsBits(raw, indices, bits)
    else if bits <= 8 then HoldsWords(raw, indices, 1)
    else if bits <= 16 then HoldsWords(raw, indices, 2)
    else if bits <= 32 then HoldsWords(raw, indices, 4)
    else bits <= 64 && HoldsWords(raw, indices, 8)
  }

  lemma StreamHolds(indices: seq<nat>, bits: nat)
    requires Stream(indices, bits).Ok?
    ensures HoldsStream(Stream(indices, bits).value, indices, bits)
  {
    hide HoldsBits, HoldsWords;
    if bits % 8 != 0 {
      PackedHolds(indices, bits);
    } else {
      WordsHold(indices, WordBytes(bits).value);
    }
  }

  // `requested` is the recorded encoding of an earlier write, None to choose;
  // left to choose, the shorter of the two is written.
  method WriteIndices(z: Zlib, indices: seq<nat>, bits: nat, requested: Option<Encoding>) returns (r: Result<Written>)
    ensures r.Err? <==> (bits % 8 == 0 && bits > 64) || requested == Some(Unknown)
    ensures r.Ok? ==> Stream(indices, bits).Ok? && r.value.packed == (bits % 8 != 0)
    ensures r.Ok? ==> HoldsStream(Stream(indices, bits).value, indices, bits)
    ensures r.Ok? && r.value.encoding == Raw ==> HoldsStream(r.value.payload, indices, bits)
    ensures r.Ok? && requested.Some? ==> r.value.encoding == requested.value
    ensures r.Ok? && requested.None? ==>
      (r.value.encoding == ZlibStream <==> |z.compress(Stream(indices, bits).value)| < |Stream(indices, bits).value|)
    ensures r.Ok? ==> Payload(z, Stream(indices, bits).value, r.value)
  {
    var raw: seq<byte>;
    if bits % 8 != 0 {
      raw := PackIndices(indices, bits, 0x40_0000);
    } else {
      var word := WordBytes(bits);
      if word.None? {
        return Err(WidthTooLarge);
      }
      raw := Words(indices, word.value);
    }
    StreamHolds(indices, bits);
    hide HoldsStream;
    match requested
    case None =>
      var encoding := Choice(z, raw);
      r := Ok(Written(if encoding == ZlibStream then z.compress(raw) else raw, bits % 8 != 0, encoding));
    case Some(ZlibStream) =>
      r := Ok(Written(z.compress(raw), bits % 8 != 0, ZlibStream));
    case Some(Raw) =>
      r := Ok(Written(raw, bits % 8 != 0, Raw));
    case Some(Unknown) =>
      r := Err(UnknownEncoding);
  }

  predicate Payload(z: Zlib, raw: seq<byte>, w: Written) {
    match w.encoding
    case Raw => w.payload == raw
    case ZlibStream => w.payload == z.compress(raw)
    case Unknown => false
  }

  function ReadSpec(z: Zlib, data: seq<byte>, bits: nat, count: nat, packed: bool, encoding: Encoding): Result<seq<int>> {
    if encoding == Unknown then Err(UnknownEncoding)
    else
      var raw := if encoding == ZlibStream then z.decompress(data) else data;
      if packed then
        if 8 * |raw| < count * bits then Err(ShortStream) else Ok(UnpackWhole(raw, bits, count))
      else
        var word := WordBytes(bits);
        if word.None? then Err(WidthTooLarge)
        else
          var arr := FromWords(raw, word.value);
          if arr.None? then Err(ShortStream)
          else if |arr.value| != count then Err(CountMismatch)
          else Ok(arr.value)
  }

  // Word i is the sum of its bytes times powers of 256, the lowest byte first.
  ghost predicate ReadsWords(raw: seq<byte>, word: nat, r: seq<int>) {
    |raw| == |r| * word && forall i: nat :: i < |r| ==> r[i] == LittleSum(raw, Flat(i, word, 0), word)
  }

  // Every stream that is read is the numbers it spells.
  ghost predicate ReadsStream(raw: seq<byte>, bits: nat, packed: bool, r: seq<int>) {
    if packed then |r| * bits <= 8 * |raw| && ReadsBits(raw, bits, r)
    else if bits <= 8 then ReadsWords(raw, 1, r)
    else if bits <= 16 then ReadsWords(raw, 2, r)
    else if bits <= 32 then ReadsWords(raw, 4, r)
    else bits <= 64 && ReadsWords(raw, 8, r)
  }

  method ReadIndices(z: Zlib, data: seq<byte>, bits: nat, count: nat, packed: bool, encoding: Encoding)
    returns (r: Result<seq<int>>)
    ensures r == ReadSpec(z, data, bits, count, packed, encoding)
    ensures encoding == Unknown ==> r == Err(UnknownEncoding)
    ensures encoding != Unknown && packed ==>
      (r.Ok? <==> count * bits <= 8 * |if encoding == ZlibStream then z.decompress(data) else data|)
    ensures encoding != Unknown && !packed ==>
      (r.Ok? <==> bits <= 64 && |if encoding == ZlibStream then z.decompress(data) else data| == count * WordBytes(bits).value)
    ensures r.Ok? ==> |r.value| == count
    ensures r.Ok? ==> ReadsStream(if encoding == ZlibStream then z.decompress(data) else data, bits, packed, r.value)
  {
    var raw := data;
    if encoding == ZlibStream {
      raw := z.decompress(data);
    } else if encoding != Raw {
      return Err(UnknownEncoding);
    }
    hide ReadsWords, ReadsBits;
    if packed {
      var u := UnpackIndices(raw, bits, count, 0x40_0000);
      return if u.None? then Err(ShortStream) else Ok(u.value);
    }
    var word := WordBytes(bits);
    if word.None? {
      return Err(WidthTooLarge);
    }
    FrombufferReads(raw, word.value, count);
    var arr := FromWords(raw, word.value);
    if arr.None? {
      return Err(ShortStream);
    }
    r := if |arr.value| != count then Err(CountMismatch) else Ok(arr.value);
  }

  lemma FrombufferReads(raw: seq<byte>, word: pos, count: nat)
    ensures FromWords(raw, word).Some? && |FromWords(raw, word).value| == count <==> |raw| == count * word
    ensures |raw| == count * word ==> ReadsWords(raw, word, FromWords(raw, word).value)
  {
    WordsOf(raw, word, count);
  }

  lemma ReadInvertsPacked(indices: seq<nat>, bits: nat)
    requires 1 <= bits <= 63
    requires forall i :: 0 <= i < |indices| ==> indices[i] < Pow2(bits)
    ensures |indices| * bits <= 8 * |PackWhole(indices, bits)|
    ensures UnpackWhole(PackWhole(indices, bits), bits, |indices|) == indices
  {
    FlattenLength(indices, bits);
    PackLength(Flatten(indices, bits));
    Int64Top();
    Pow2Mono(bits, 63);
    RoundTripExactly(indices, bits);
  }

  lemma ReadInvertsWords(indices: seq<nat>, bits: nat)
    requires 1 <= bits <= 64
    requires forall i :: 0 <= i < |indices| ==> indices[i] < Pow2(bits)
    ensures FromWords(Words(indices, WordBytes(bits).value), WordBytes(bits).value) == Some(indices)
  {
    var word := WordBytes(bits).value;
    forall i | 0 <= i < |indices|
      ensures indices[i] < Pow2(8 * word)
    {
      Pow2Mono(bits, 8 * word);
    }
    WordsRoundTrip(indices, word);
  }

  // The reader inverts the writer at every width from 1 to 64 bits, under the
  // encoding the write recorded, whichever way that encoding was chosen.
  lemma ReadInvertsWrite(z: Zlib, indices: seq<nat>, bits: nat, w: Written)
    requires Inverse(z) && 1 <= bits <= 64
    requires forall i :: 0 <= i < |indices| ==> indices[i] < Pow2(bits)
    requires Payload(z, Stream(indices, bits).value, w)
    requires w.packed == (bits % 8 != 0)
    ensures ReadSpec(z, w.payload, bits, |indices|, w.packed, w.encoding) == Ok(indices)
  {
    var raw := Stream(indices, bits).value;
    assert (if w.encoding == ZlibStream then z.decompress(w.payload) else w.payload) == raw;
    assert w.encoding != Unknown;
    hide Inverse, Payload, Words, FromWords, PackWhole, UnpackWhole, Pow2;
    if w.packed {
      ReadInvertsPacked(indices, bits);
    } else {
      ReadInvertsWords(indices, bits);
    }
  }
}
