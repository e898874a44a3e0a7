// Little-endian words: numpy's <u1, <u2, <u4 and <u8 arrays as bytes.

module ByteOrder {
  import opened Basics
  import opened Layout
  import opened Bits

  function LittleEndian(v: nat, n: nat): (r: seq<byte>)
    ensures |r| == n
  {
    if n == 0 then [] else [v % 256] + LittleEndian(v / 256, n - 1)
  }

  function FromLittleEndian(s: seq<byte>): nat {
    if |s| == 0 then 0 else s[0] + 256 * FromLittleEndian(s[1..])
  }

  function Words(indices: seq<nat>, n: nat): seq<byte> {
    if |indices| == 0 then [] else LittleEndian(indices[0], n) + Words(indices[1..], n)
  }

  // numpy.frombuffer: None unless the length is a multiple of the word.
  function FromWords(s: seq<byte>, n: pos): Option<seq<int>>
    decreases |s|
  {
    if |s| == 0 then Some([])
    else if |s| < n then None
    else
      var rest := FromWords(s[n..], n);
      if rest.None? then None else Some([FromLittleEndian(s[..n])] + rest.value)
  }

  lemma {:induction false} LittleEndianRoundTrip(v: nat, n: nat)
    requires v < Pow2(8 * n)
    ensures FromLittleEndian(LittleEndian(v, n)) == v
  {
    if n > 0 {
      Pow2Add(8, 8 * (n - 1));
      Pow2Eight();
      assert v / 256 < Pow2(8 * (n - 1));
      LittleEndianRoundTrip(v / 256, n - 1);
    }
  }

  lemma {:induction false} WordsRoundTrip(indices: seq<nat>, n: pos)
    requires forall i :: 0 <= i < |indices| ==> indices[i] < Pow2(8 * n)
    ensures FromWords(Words(indices, n), n) == Some(indices)
  {
    if |indices| > 0 {
      WordsRoundTrip(indices[1..], n);
      LittleEndianRoundTrip(indices[0], n);
      var w := Words(indices, n);
      assert |w| >= n;
      assert w[..n] == LittleEndian(indices[0], n);
      assert w[n..] == Words(indices[1..], n);
      assert [indices[0]] + indices[1..] == indices;
    }
  }

  // ---------------------------------------------------------- bytes by their place

  // Byte b of word i is digit b of number i in base 256, the lowest first.
  ghost predicate IsDigit(raw: seq<byte>, numbers: seq<nat>, word: nat, i: nat, b: nat)
    requires i < |numbers|
  {
    0 <= i * word + b < |raw| && raw[i * word + b] == numbers[i] / Pow2(8 * b) % 256
  }

  ghost predicate HoldsWords(raw: seq<byte>, numbers: seq<nat>, word: nat) {
    && |raw| == |numbers| * word
    && forall i: nat, b: nat {:trigger IsDigit(raw, numbers, word, i, b)} :: i < |numbers| && b < word ==> IsDigit(raw, numbers, word, i, b)
  }

  lemma {:induction false} LittleEndianDigit(v: nat, n: nat, b: nat)
    requires b < n
    ensures LittleEndian(v, n)[b] == v / Pow2(8 * b) % 256
  {
    if b > 0 {
      LittleEndianDigit(v / 256, n - 1, b - 1);
      Pow2Add(8, 8 * (b - 1));
      Pow2Eight();
      DivDiv(v, 256, Pow2(8 * (b - 1)));
    }
  }

  lemma {:induction false} WordsLength(numbers: seq<nat>, n: nat)
    ensures |Words(numbers, n)| == |numbers| * n
  {
    if |numbers| > 0 {
      WordsLength(numbers[1..], n);
      assert |numbers| * n == n + (|numbers| - 1) * n;
    }
  }

  lemma {:induction false} WordsDigit(numbers: seq<nat>, n: nat, i: nat, b: nat)
    requires i < |numbers| && b < n
    ensures IsDigit(Words(numbers, n), numbers, n, i, b)
  {
    WordsLength(numbers, n);
    FlatBound(i, b, |numbers|, n);
    if i == 0 {
      LittleEndianDigit(numbers[0], n, b);
    } else {
      hide LittleEndian, Pow2;
      WordsDigit(numbers[1..], n, i - 1, b);
      assert i * n + b == n + ((i - 1) * n + b);
    }
  }

  lemma WordsHold(numbers: seq<nat>, n: nat)
    ensures HoldsWords(Words(numbers, n), numbers, n)
  {
    hide IsDigit;
    WordsLength(numbers, n);
    forall i: nat, b: nat | i < |numbers| && b < n
      ensures IsDigit(Words(numbers, n), numbers, n, i, b)
    {
      WordsDigit(numbers, n, i, b);
    }
  }

  // The sum over b < n of byte at + b times 256^b.
  function LittleSum(s: seq<byte>, at: nat, n: nat): nat {
    if n == 0 then 0 else LittleSum(s, at, n - 1) + ByteAt(s, at + (n - 1)) * Pow2(8 * (n - 1))
  }

  lemma {:induction false} LittleSumShift(s: seq<byte>, at: nat, n: nat)
    requires 0 < n
    ensures LittleSum(s, at, n) == ByteAt(s, at) + 256 * LittleSum(s, at + 1, n - 1)
  {
    if n > 1 {
      hide ByteAt, Pow2;
      LittleSumShift(s, at, n - 1);
      NextDigit(ByteAt(s, at + (n - 1)), n - 1);
      assert LittleSum(s, at + 1, n - 1) == LittleSum(s, at + 1, n - 2) + ByteAt(s, at + (n - 1)) * Pow2(8 * (n - 2));
    }
  }

  lemma Regroup(x: nat, p: nat)
    ensures x * (256 * p) == 256 * (x * p)
  {
  }

  lemma NextDigit(x: nat, n: pos)
    ensures x * Pow2(8 * n) == 256 * (x * Pow2(8 * (n - 1)))
  {
    Pow2Add(8, 8 * (n - 1));
    Pow2Eight();
    hide Pow2;
    Regroup(x, Pow2(8 * (n - 1)));
  }

  lemma {:induction false} LittleSumSlice(s: seq<byte>, at: nat, n: nat, to: nat)
    requires at + n <= to <= |s|
    ensures LittleSum(s[at..to], 0, n) == LittleSum(s, at, n)
  {
    if n > 0 {
      LittleSumSlice(s, at, n - 1, to);
    }
  }

  lemma {:induction false} FromLittleEndianIsSum(s: seq<byte>)
    ensures FromLittleEndian(s) == LittleSum(s, 0, |s|)
  {
    if |s| > 0 {
      FromLittleEndianIsSum(s[1..]);
      LittleSumShift(s, 0, |s|);
      LittleSumSlice(s, 1, |s| - 1, |s|);
      assert s[1..|s|] == s[1..];
    }
  }

  // A byte string splits into n words exactly when it is n words long, and each
  // is the sum of its bytes.
  lemma {:induction false} WordsOf(s: seq<byte>, word: pos, n: nat)
    ensures FromWords(s, word).Some? && |FromWords(s, word).value| == n <==> |s| == n * word
    ensures |s| == n * word ==> forall i: nat :: i < n ==> FromWords(s, word).value[i] == LittleSum(s, Flat(i, word, 0), word)
    decreases n, |s|
  {
    hide FromLittleEndian, LittleSum;
    if n > 0 && |s| < word {
      MulMono(1, n, word);
    } else if n > 0 {
      WordsOf(s[word..], word, n - 1);
      assert n * word == (n - 1) * word + word;
      if |s| == n * word {
        forall i: nat | i < n
          ensures FromWords(s, word).value[i] == LittleSum(s, Flat(i, word, 0), word)
        {
          WordShift(s, word, n, i);
        }
      }
    }
  }

  lemma FirstWord(s: seq<byte>, word: pos)
    requires |s| >= word
    ensures LittleSum(s, 0, word) == FromLittleEndian(s[..word])
  {
    FromLittleEndianIsSum(s[..word]);
    LittleSumSlice(s, 0, word, word);
    assert s[0..word] == s[..word];
  }

  lemma LaterWord(s: seq<byte>, word: pos, at: nat)
    requires word + at + word <= |s|
    ensures LittleSum(s, word + at, word) == LittleSum(s[word..], at, word)
  {
    LittleSumSlice(s, word + at, word, |s|);
    LittleSumSlice(s[word..], at, word, |s| - word);
    assert s[word..][at..|s| - word] == s[word + at..|s|];
  }

  lemma WordPlace(word: pos, n: pos, i: nat)
    requires i < n
    ensures n * word >= word
    ensures i == 0 ==> Flat(i, word, 0) == 0
    ensures i > 0 ==> Flat(i - 1, word, 0) >= 0 && Flat(i, word, 0) == word + Flat(i - 1, word, 0) && Flat(i, word, 0) + word <= n * word
  {
    MulMono(1, n, word);
    MulMono(i + 1, n, word);
    assert Flat(i, word, 0) + word == (i + 1) * word;
    assert Flat(i, word, 0) == word + Flat(i - 1, word, 0);
  }

  lemma WordShift(s: seq<byte>, word: pos, n: pos, i: nat)
    requires |s| == n * word && i < n
    ensures |s| >= word
    ensures i == 0 ==> LittleSum(s, Flat(i, word, 0), word) == FromLittleEndian(s[..word])
    ensures i > 0 ==> LittleSum(s, Flat(i, word, 0), word) == LittleSum(s[word..], Flat(i - 1, word, 0), word)
  {
    hide FromLittleEndian, LittleSum, Flat;
    WordPlace(word, n, i);
    if i == 0 {
      FirstWord(s, word);
    } else {
      LaterWord(s, word, Flat(i - 1, word, 0));
    }
  }
}
