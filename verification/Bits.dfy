// MSB-first bit strings, and numpy's packbits / unpackbits on them.

module Bits {
  import opened Basics
  import opened Layout

  type byte = x: int | 0 <= x < 256

  function Pow2(n: nat): pos {
    if n == 0 then 1 else 2 * Pow2(n - 1)
  }

  lemma {:induction false} Pow2Add(a: nat, b: nat)
    ensures Pow2(a + b) == Pow2(a) * Pow2(b)
  {
    if b > 0 {
      Pow2Add(a, b - 1);
      assert Pow2(a + b) == 2 * Pow2(a + (b - 1));
    }
  }

  lemma {:induction false} Pow2Mono(a: nat, b: nat)
    requires a <= b
    ensures Pow2(a) <= Pow2(b)
  {
    if a < b {
      Pow2Mono(a, b - 1);
    }
  }

  lemma Pow2Eight()
    ensures Pow2(8) == 256
  {
    Pow2Add(4, 4);
  }

  function Bit(b: bool): nat {
    if b then 1 else 0
  }

  // The low w bits of v, most significant first.
  function BitsOf(v: nat, w: nat): (r: seq<bool>)
    ensures |r| == w
  {
    if w == 0 then [] else BitsOf(v / 2, w - 1) + [v % 2 == 1]
  }

  function Value(b: seq<bool>): nat {
    if |b| == 0 then 0 else 2 * Value(b[..|b| - 1]) + Bit(b[|b| - 1])
  }

  lemma {:induction false} ValueBound(b: seq<bool>)
    ensures Value(b) < Pow2(|b|)
  {
    if |b| > 0 {
      ValueBound(b[..|b| - 1]);
    }
  }

  lemma {:induction false} ValueConcat(a: seq<bool>, b: seq<bool>)
    ensures Value(a + b) == Value(a) * Pow2(|b|) + Value(b)
  {
    if |b| == 0 {
      assert a + b == a;
    } else {
      var b' := b[..|b| - 1];
      ValueConcat(a, b');
      assert (a + b)[..|a + b| - 1] == a + b';
      assert Value(a) * Pow2(|b|) == 2 * (Value(a) * Pow2(|b'|));
    }
  }

  lemma HalveModulus(v: nat, m: pos)
    ensures v % (2 * m) == 2 * (v / 2 % m) + v % 2
  {
    var q, r := v / 2 / m, v / 2 % m;
    assert v / 2 == q * m + r;
    assert 2 * (q * m) == q * (2 * m);
    DivModUnique(v, 2 * m, q, 2 * r + v % 2);
  }

  lemma {:induction false} ValueOfBits(v: nat, w: nat)
    ensures Value(BitsOf(v, w)) == v % Pow2(w)
  {
    if w > 0 {
      var b := BitsOf(v, w);
      assert b[..w - 1] == BitsOf(v / 2, w - 1);
      assert Value(b) == 2 * Value(BitsOf(v / 2, w - 1)) + v % 2;
      ValueOfBits(v / 2, w - 1);
      HalveModulus(v, Pow2(w - 1));
    }
  }

  lemma {:induction false} BitsOfValue(b: seq<bool>)
    ensures BitsOf(Value(b), |b|) == b
  {
    if |b| > 0 {
      BitsOfValue(b[..|b| - 1]);
    }
  }

  // Shifting right drops the low bits, masking keeps them.
  lemma SplitValue(x: seq<bool>, d: nat)
    requires d <= |x|
    ensures Value(x) / Pow2(d) == Value(x[..|x| - d])
    ensures Value(x) % Pow2(d) == Value(x[|x| - d..])
  {
    var hi, lo := x[..|x| - d], x[|x| - d..];
    assert x == hi + lo;
    ValueConcat(hi, lo);
    ValueBound(lo);
    DivModUnique(Value(x), Pow2(d), Value(hi), Value(lo));
  }

  // (v >> d) & ((1 << h) - 1)
  function ShiftMask(v: nat, d: nat, h: nat): nat {
    v / Pow2(d) % Pow2(h)
  }

  // A field of h bits ending d bits before the end, read by shift and mask.
  lemma FieldByShift(x: seq<bool>, h: nat, d: nat)
    requires h + d <= |x|
    ensures Value(x[|x| - d - h..|x| - d]) == ShiftMask(Value(x), d, h)
  {
    SplitValue(x, d);
    var y := x[..|x| - d];
    SplitValue(y, h);
    assert y[|y| - h..] == x[|x| - d - h..|x| - d];
  }

  // ------------------------------------------------------- packbits / unpackbits

  function Zeros(n: nat): (r: seq<bool>)
    ensures |r| == n
  {
    seq(n, i => false)
  }

  function ByteOf(b: seq<bool>): byte
    requires |b| == 8
  {
    ValueBound(b);
    Pow2Eight();
    Value(b)
  }

  function PackBits(b: seq<bool>): seq<byte> {
    if |b| == 0 then []
    else if |b| < 8 then [ByteOf(b + Zeros(8 - |b|))]
    else [ByteOf(b[..8])] + PackBits(b[8..])
  }

  function UnpackBits(s: seq<byte>): (r: seq<bool>)
    ensures |r| == 8 * |s|
  {
    if |s| == 0 then [] else BitsOf(s[0], 8) + UnpackBits(s[1..])
  }

  lemma {:induction false} PackLength(b: seq<bool>)
    ensures |PackBits(b)| == (|b| + 7) / 8
  {
    if |b| >= 8 {
      PackLength(b[8..]);
    }
  }

  lemma {:induction false} PackConcat(a: seq<bool>, b: seq<bool>)
    requires |a| % 8 == 0
    ensures PackBits(a + b) == PackBits(a) + PackBits(b)
  {
    if |a| == 0 {
      assert a + b == b;
    } else {
      hide ByteOf, Zeros;
      PackConcat(a[8..], b);
      assert (a + b)[..8] == a[..8];
      assert (a + b)[8..] == a[8..] + b;
      assert PackBits(a + b) == [ByteOf(a[..8])] + PackBits(a[8..] + b);
    }
  }

  lemma {:induction false} UnpackPack(b: seq<bool>)
    ensures |UnpackBits(PackBits(b))| >= |b| && UnpackBits(PackBits(b))[..|b|] == b
  {
    PackLength(b);
    var u := UnpackBits(PackBits(b));
    if |b| == 0 {
    } else if |b| < 8 {
      BitsOfValue(b + Zeros(8 - |b|));
      assert u == b + Zeros(8 - |b|);
    } else {
      BitsOfValue(b[..8]);
      UnpackPack(b[8..]);
      var rest := UnpackBits(PackBits(b[8..]));
      assert u == b[..8] + rest;
      assert u[..|b|] == b[..8] + rest[..|b| - 8];
    }
  }

  lemma {:induction false} UnpackConcat(s: seq<byte>, t: seq<byte>)
    ensures UnpackBits(s + t) == UnpackBits(s) + UnpackBits(t)
  {
    if |s| == 0 {
      assert s + t == t;
    } else {
      UnpackConcat(s[1..], t);
      assert (s + t)[1..] == s[1..] + t;
    }
  }

  lemma UnpackSplit(s: seq<byte>, k: nat)
    requires k <= |s|
    ensures UnpackBits(s[..k]) == UnpackBits(s)[..8 * k]
    ensures UnpackBits(s[k..]) == UnpackBits(s)[8 * k..]
  {
    assert s == s[..k] + s[k..];
    UnpackConcat(s[..k], s[k..]);
  }

  lemma UnpackSlice(s: seq<byte>, lo: nat, hi: nat)
    requires lo <= hi <= |s|
    ensures UnpackBits(s[lo..hi]) == UnpackBits(s)[8 * lo..8 * hi]
  {
    UnpackSplit(s, hi);
    UnpackSplit(s[..hi], lo);
    assert s[..hi][lo..] == s[lo..hi];
  }

  lemma OneByte(v: byte)
    ensures Value(UnpackBits([v])) == v
  {
    assert UnpackBits([v]) == BitsOf(v, 8) + UnpackBits([]) == BitsOf(v, 8);
    ValueOfBits(v, 8);
    Pow2Eight();
  }

  lemma ByteOfStream(s: seq<byte>, q: nat)
    requires q < |s|
    ensures Value(UnpackBits(s)[8 * q..8 * q + 8]) == s[q]
  {
    UnpackSlice(s, q, q + 1);
    assert s[q..q + 1] == [s[q]];
    OneByte(s[q]);
  }

  // ------------------------------------------------------- bits by their place

  // Bit q of the bytes, counted from the top of each byte.
  ghost predicate IsBit(s: seq<byte>, q: int, v: int) {
    0 <= q < 8 * |s| && s[q / 8] / Pow2(7 - q % 8) % 2 == v
  }

  // Place b from the top of a field of w bits.
  lemma {:induction false} BitsOfBit(v: nat, w: nat, b: nat)
    requires b < w
    ensures Bit(BitsOf(v, w)[b]) == v / Pow2(w - 1 - b) % 2
  {
    if b < w - 1 {
      BitsOfBit(v / 2, w - 1, b);
      DivDiv(v, 2, Pow2(w - 2 - b));
      assert Pow2(w - 1 - b) == 2 * Pow2(w - 2 - b);
    }
  }

  lemma {:induction false} UnpackBitsBit(s: seq<byte>, q: nat)
    requires q < 8 * |s|
    ensures IsBit(s, q, Bit(UnpackBits(s)[q]))
  {
    if q < 8 {
      BitsOfBit(s[0], 8, q);
    } else {
      hide BitsOf, Pow2;
      UnpackBitsBit(s[1..], q - 8);
      assert s[1..][(q - 8) / 8] == s[q / 8];
    }
  }

  // Packing pads the last byte with zeros.
  lemma {:induction false} PaddedZero(b: seq<bool>, q: nat)
    requires |b| <= q < 8 * |PackBits(b)|
    ensures !UnpackBits(PackBits(b))[q]
  {
    PackLength(b);
    if |b| >= 8 {
      PaddedZero(b[8..], q - 8);
    } else {
      BitsOfValue(b + Zeros(8 - |b|));
      assert UnpackBits(PackBits(b)) == b + Zeros(8 - |b|);
    }
  }

  // Bit q of the packed bytes is bit q of the string.
  lemma PackBitsBit(b: seq<bool>, q: nat)
    requires q < 8 * |PackBits(b)|
    ensures IsBit(PackBits(b), q, if q < |b| then Bit(b[q]) else 0)
  {
    UnpackBitsBit(PackBits(b), q);
    if q < |b| {
      UnpackPack(b);
      assert UnpackBits(PackBits(b))[..|b|][q] == b[q];
    } else {
      PaddedZero(b, q);
    }
  }

  // --------------------------------------------------- fixed-width bit streams

  // The w-bit fields of arr, one after the other.
  function Flatten(arr: seq<nat>, w: nat): seq<bool> {
    if |arr| == 0 then [] else Flatten(arr[..|arr| - 1], w) + BitsOf(arr[|arr| - 1], w)
  }

  lemma {:induction false} FlattenLength(arr: seq<nat>, w: nat)
    ensures |Flatten(arr, w)| == |arr| * w
  {
    if |arr| > 0 {
      FlattenLength(arr[..|arr| - 1], w);
      assert |arr| * w == (|arr| - 1) * w + w;
    }
  }

  lemma FlattenNext(arr: seq<nat>, v: nat, w: nat)
    ensures Flatten(arr + [v], w) == Flatten(arr, w) + BitsOf(v, w)
  {
    hide BitsOf;
    assert (arr + [v])[..|arr|] == arr;
  }

  lemma {:induction false} FlattenConcat(a: seq<nat>, b: seq<nat>, w: nat)
    ensures Flatten(a + b, w) == Flatten(a, w) + Flatten(b, w)
  {
    hide BitsOf;
    if |b| == 0 {
      assert a + b == a;
      assert Flatten(a, w) + Flatten(b, w) == Flatten(a, w);
    } else {
      var front, last := b[..|b| - 1], b[|b| - 1];
      FlattenConcat(a, front, w);
      hide Flatten;
      assert a + b == (a + front) + [last] && b == front + [last];
      FlattenNext(a + front, last, w);
      FlattenNext(front, last, w);
      assert Flatten(a, w) + Flatten(front, w) + BitsOf(last, w) == Flatten(a, w) + (Flatten(front, w) + BitsOf(last, w));
    }
  }

  lemma FieldAt(arr: seq<nat>, w: nat, i: nat)
    requires i < |arr|
    ensures 0 <= i * w <= i * w + w <= |Flatten(arr, w)|
    ensures Flatten(arr, w)[i * w..i * w + w] == BitsOf(arr[i], w)
  {
    var a, b := arr[..i + 1], arr[i + 1..];
    assert arr == a + b;
    assert a[..|a| - 1] == arr[..i];
    FlattenConcat(a, b, w);
    FlattenLength(arr[..i], w);
  }

  // Field i of a stream that starts with Flatten(arr, w).
  lemma FieldValue(arr: seq<nat>, w: nat, i: nat, stream: seq<bool>)
    requires i < |arr| && Flatten(arr, w) <= stream
    ensures 0 <= i * w <= i * w + w <= |stream|
    ensures Value(stream[i * w..i * w + w]) == arr[i] % Pow2(w)
  {
    FieldAt(arr, w, i);
    assert stream[i * w..i * w + w] == Flatten(arr, w)[i * w..i * w + w];
    ValueOfBits(arr[i], w);
  }

  lemma FlattenBit(arr: seq<nat>, w: nat, i: nat, b: nat)
    requires i < |arr| && b < w
    ensures 0 <= i * w + b < |Flatten(arr, w)|
    ensures Bit(Flatten(arr, w)[i * w + b]) == arr[i] / Pow2(w - 1 - b) % 2
  {
    FieldAt(arr, w, i);
    BitsOfBit(arr[i], w, b);
    assert Flatten(arr, w)[i * w..i * w + w][b] == BitsOf(arr[i], w)[b];
  }

  // Every bit of every number in its place, the highest first, and zeros to the
  // end of the last byte.
  ghost predicate HoldsBits(raw: seq<byte>, numbers: seq<nat>, w: nat) {
    && |raw| == (|numbers| * w + 7) / 8
    && (forall i: nat, b: nat {:trigger IsFieldBit(raw, numbers, w, i, b)} :: i < |numbers| && b < w ==> IsFieldBit(raw, numbers, w, i, b))
    && (forall q: nat {:trigger IsBit(raw, q, 0)} :: |numbers| * w <= q < 8 * |raw| ==> IsBit(raw, q, 0))
  }

  ghost predicate IsFieldBit(raw: seq<byte>, numbers: seq<nat>, w: nat, i: nat, b: nat)
    requires i < |numbers| && b < w
  {
    IsBit(raw, i * w + b, numbers[i] / Pow2(w - 1 - b) % 2)
  }

  lemma PackedBit(numbers: seq<nat>, w: nat, i: nat, b: nat)
    requires i < |numbers| && b < w
    ensures IsFieldBit(PackBits(Flatten(numbers, w)), numbers, w, i, b)
  {
    var f := Flatten(numbers, w);
    FlattenBit(numbers, w, i, b);
    PackLength(f);
    hide PackBits, Flatten;
    PackBitsBit(f, i * w + b);
  }

  lemma PackedHolds(numbers: seq<nat>, w: nat)
    ensures HoldsBits(PackBits(Flatten(numbers, w)), numbers, w)
  {
    var f := Flatten(numbers, w);
    FlattenLength(numbers, w);
    PackLength(f);
    hide PackBits, Flatten, IsBit, IsFieldBit;
    forall i: nat, b: nat | i < |numbers| && b < w
      ensures IsFieldBit(PackBits(f), numbers, w, i, b)
    {
      PackedBit(numbers, w, i, b);
    }
    forall q: nat | |numbers| * w <= q < 8 * |PackBits(f)|
      ensures IsBit(PackBits(f), q, 0)
    {
      PackBitsBit(f, q);
    }
  }

  function ByteAt(s: seq<byte>, i: nat): nat {
    if i < |s| then s[i] else 0
  }

  // The number whose bits, highest first, are n bits of the bytes from bit `at`.
  function MsbSum(s: seq<byte>, at: nat, n: nat): nat {
    if n == 0 then 0
    else
      var q := at + (n - 1);
      2 * MsbSum(s, at, n - 1) + ByteAt(s, q / 8) / Pow2(7 - q % 8) % 2
  }

  lemma ValueNext(b: seq<bool>)
    requires |b| > 0
    ensures Value(b) == 2 * Value(b[..|b| - 1]) + Bit(b[|b| - 1])
  {
  }

  lemma {:induction false} ValueIsMsbSum(s: seq<byte>, at: nat, n: nat)
    requires at + n <= 8 * |s|
    ensures Value(UnpackBits(s)[at..at + n]) == MsbSum(s, at, n)
  {
    if n > 0 {
      hide UnpackBits, Pow2, Value, Bit;
      ValueIsMsbSum(s, at, n - 1);
      var u, q := UnpackBits(s), at + (n - 1);
      ValueNext(u[at..at + n]);
      assert u[at..at + n][..n - 1] == u[at..q];
      UnpackBitsBit(s, q);
    }
  }
}
