// Finite sums, with the laws that let a sum be split, regrouped and reordered.

module Sums {
  import opened Basics

  // f(0) + ... + f(n-1)
  function Sum(f: int -> real, n: nat): real {
    if n == 0 then 0.0 else Sum(f, n - 1) + f(n - 1)
  }

  lemma SumNext(f: int -> real, n: nat)
    ensures Sum(f, n + 1) == Sum(f, n) + f(n)
  {
  }

  lemma {:induction false} SumCong(f: int -> real, g: int -> real, n: nat)
    requires forall i :: 0 <= i < n ==> f(i) == g(i)
    ensures Sum(f, n) == Sum(g, n)
  {
    if n > 0 {
      SumCong(f, g, n - 1);
      assert f(n - 1) == g(n - 1);
    }
  }

  lemma {:induction false} SumZero(f: int -> real, n: nat)
    requires forall i :: 0 <= i < n ==> f(i) == 0.0
    ensures Sum(f, n) == 0.0
  {
    if n > 0 {
      SumZero(f, n - 1);
    }
  }

  lemma {:induction false} SumAdd(f: int -> real, g: int -> real, h: int -> real, n: nat)
    requires forall i :: 0 <= i < n ==> h(i) == f(i) + g(i)
    ensures Sum(h, n) == Sum(f, n) + Sum(g, n)
  {
    if n > 0 {
      SumAdd(f, g, h, n - 1);
    }
  }

  lemma {:induction false} SumScale(c: real, f: int -> real, h: int -> real, n: nat)
    requires forall i :: 0 <= i < n ==> h(i) == Times(c, f(i))
    ensures Sum(h, n) == Times(c, Sum(f, n))
  {
    if n > 0 {
      SumScale(c, f, h, n - 1);
      assert h(n - 1) == Times(c, f(n - 1));
    }
  }

  // A telescoping sum.
  lemma {:induction false} SumTelescope(edge: int -> real, part: int -> real, n: nat)
    requires forall i :: 0 <= i < n ==> part(i) == edge(i + 1) - edge(i)
    ensures Sum(part, n) == edge(n) - edge(0)
  {
    if n > 0 {
      SumTelescope(edge, part, n - 1);
      assert part(n - 1) == edge(n - 1 + 1) - edge(n - 1);
    }
  }

  lemma {:induction false} SumNonNegative(f: int -> real, n: nat)
    requires forall i :: 0 <= i < n ==> f(i) >= 0.0
    ensures Sum(f, n) >= 0.0
  {
    if n > 0 {
      SumNonNegative(f, n - 1);
    }
  }

  lemma {:induction false} SumMono(f: int -> real, g: int -> real, n: nat)
    requires forall i :: 0 <= i < n ==> f(i) <= g(i)
    ensures Sum(f, n) <= Sum(g, n)
  {
    if n > 0 {
      SumMono(f, g, n - 1);
    }
  }

  // Exactly one position differs between f and h.
  lemma {:induction false} SumUpdate(f: int -> real, h: int -> real, p: nat, n: nat)
    requires p < n
    requires forall i :: 0 <= i < n && i != p ==> h(i) == f(i)
    ensures Sum(h, n) == Sum(f, n) + (h(p) - f(p))
  {
    if p == n - 1 {
      SumCong(f, h, n - 1);
    } else {
      SumUpdate(f, h, p, n - 1);
    }
  }

  // One term alone.
  lemma SumSingle(f: int -> real, p: nat, n: nat)
    requires p < n && forall i :: 0 <= i < n && i != p ==> f(i) == 0.0
    ensures Sum(f, n) == f(p)
  {
    var zero := (i: int) => 0.0;
    SumZero(zero, n);
    SumUpdate(zero, f, p, n);
  }

  // A sum whose terms vanish outside a window.
  lemma {:induction false} SumWindow(h: int -> real, f: int -> real, lo: nat, hi: nat, n: nat)
    requires lo <= hi && forall p :: 0 <= p < n ==> h(p) == if lo <= p < hi then f(p) else 0.0
    ensures Sum(h, n) == if n <= lo then 0.0 else Sum(f, if n < hi then n else hi) - Sum(f, lo)
  {
    if n > 0 {
      SumWindow(h, f, lo, hi, n - 1);
      assert h(n - 1) == if lo <= n - 1 < hi then f(n - 1) else 0.0;
    }
  }

  // A sum split at a.
  lemma {:induction false} SumSplit(f: int -> real, a: nat, b: nat, tail: int -> real)
    requires forall i :: 0 <= i < b ==> tail(i) == f(a + i)
    ensures Sum(f, a + b) == Sum(f, a) + Sum(tail, b)
  {
    if b > 0 {
      SumSplit(f, a, b - 1, tail);
      assert tail(b - 1) == f(a + (b - 1));
    }
  }

  // A sum whose terms vanish outside [lo, hi), taken over the window alone.
  lemma WindowSlice(h: int -> real, f: int -> real, slice: int -> real, lo: nat, hi: nat, n: nat)
    requires lo <= hi <= n && forall p :: 0 <= p < n ==> h(p) == if lo <= p < hi then f(p) else 0.0
    requires forall i :: 0 <= i < hi - lo ==> slice(i) == f(lo + i)
    ensures Sum(h, n) == Sum(slice, hi - lo)
  {
    SumWindow(h, f, lo, hi, n);
    SumSplit(f, lo, hi - lo, slice);
  }

  // A flat sum over n rows of m equals the sum of the row sums.
  lemma {:induction false} SumRows(f: int -> real, n: nat, m: nat, row: int -> real)
    requires forall i :: 0 <= i < n ==> row(i) == Sum((j: int) => f(i * m + j), m)
    ensures n * m >= 0 && Sum(f, n * m) == Sum(row, n)
  {
    if n > 0 {
      SumRows(f, n - 1, m, row);
      assert n * m == (n - 1) * m + m;
      SumSplit(f, (n - 1) * m, m, (j: int) => f((n - 1) * m + j));
    }
  }

  // Exchanging the order of a double sum.
  lemma {:induction false} SumSwap(f: (int, int) -> real, n: nat, m: nat, byRow: int -> real, byCol: int -> real)
    requires forall i :: 0 <= i < n ==> byRow(i) == Sum((j: int) => f(i, j), m)
    requires forall j :: 0 <= j < m ==> byCol(j) == Sum((i: int) => f(i, j), n)
    ensures Sum(byRow, n) == Sum(byCol, m)
  {
    if n == 0 {
      SumZero(byCol, m);
    } else {
      var byCol' := (j: int) => Sum((i: int) => f(i, j), n - 1);
      SumSwap(f, n - 1, m, byRow, byCol');
      var last := (j: int) => f(n - 1, j);
      forall j | 0 <= j < m
        ensures byCol(j) == byCol'(j) + last(j)
      {
        assert Sum((i: int) => f(i, j), n) == Sum((i: int) => f(i, j), n - 1) + f(n - 1, j);
      }
      SumAdd(byCol', last, byCol, m);
      SumCong(last, (j: int) => f(n - 1, j), m);
    }
  }

  // The part of a sum whose key is j: what a histogram or a segment sum collects.
  function GroupSum(key: int -> int, f: int -> real, j: int, n: nat): real {
    if n == 0 then 0.0
    else GroupSum(key, f, j, n - 1) + (if key(n - 1) == j then f(n - 1) else 0.0)
  }

  lemma {:induction false} GroupSumIsSum(key: int -> int, f: int -> real, j: int, n: nat, g: int -> real)
    requires forall i :: 0 <= i < n ==> g(i) == if key(i) == j then f(i) else 0.0
    ensures GroupSum(key, f, j, n) == Sum(g, n)
  {
    if n > 0 {
      GroupSumIsSum(key, f, j, n - 1, g);
    }
  }

  // Grouping conserves the total, whatever the keys in [0, k) are.
  lemma {:induction false} GroupTotal(key: int -> int, f: int -> real, n: nat, k: nat, group: int -> real)
    requires forall i :: 0 <= i < n ==> 0 <= key(i) < k
    requires forall j :: 0 <= j < k ==> group(j) == GroupSum(key, f, j, n)
    ensures Sum(group, k) == Sum(f, n)
  {
    if n == 0 {
      SumZero(group, k);
    } else {
      var before := (j: int) => GroupSum(key, f, j, n - 1);
      GroupTotal(key, f, n - 1, k, before);
      SumUpdate(before, group, key(n - 1), k);
    }
  }
}
