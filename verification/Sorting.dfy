// numpy's stable argsort, bincount and cumsum: the idiom behind the CSR
// correction, the delta-coded outliers and the deterministic segment sums.

module Sorting {
  import opened Basics
  import opened Sums

  // a[order]
  function Reorder<T>(s: seq<T>, order: seq<nat>): (r: seq<T>)
    requires forall j :: 0 <= j < |order| ==> order[j] < |s|
    ensures |r| == |order| && forall j :: 0 <= j < |r| ==> r[j] == s[order[j]]
  {
    seq(|order|, j requires 0 <= j < |order| => s[order[j]])
  }

  function Insert(keys: seq<int>, order: seq<nat>, x: nat): seq<nat>
    requires x < |keys| && forall j :: 0 <= j < |order| ==> order[j] < |keys|
  {
    if |order| == 0 || keys[order[|order| - 1]] <= keys[x] then order + [x]
    else Insert(keys, order[..|order| - 1], x) + [order[|order| - 1]]
  }

  function ArgsortUpTo(keys: seq<int>, n: nat): (order: seq<nat>)
    requires n <= |keys|
    ensures |order| == n && forall j :: 0 <= j < n ==> order[j] < n
  {
    if n == 0 then []
    else
      InsertShape(keys, ArgsortUpTo(keys, n - 1), n - 1);
      Insert(keys, ArgsortUpTo(keys, n - 1), n - 1)
  }

  // np.argsort(keys, kind="stable")
  function StableArgsort(keys: seq<int>): (order: seq<nat>)
    ensures |order| == |keys| && forall j :: 0 <= j < |order| ==> order[j] < |keys|
  {
    ArgsortUpTo(keys, |keys|)
  }

  // Sorted by key, equal keys in their original order.
  ghost predicate StableSorted(keys: seq<int>, order: seq<nat>)
    requires forall j :: 0 <= j < |order| ==> order[j] < |keys|
  {
    forall a, b :: 0 <= a < b < |order| ==>
      keys[order[a]] < keys[order[b]] || (keys[order[a]] == keys[order[b]] && order[a] < order[b])
  }

  lemma {:induction false} InsertShape(keys: seq<int>, order: seq<nat>, x: nat)
    requires x < |keys| && forall j :: 0 <= j < |order| ==> order[j] < x
    ensures |Insert(keys, order, x)| == |order| + 1
    ensures forall j :: 0 <= j <= |order| ==> Insert(keys, order, x)[j] <= x
    ensures forall y :: y in Insert(keys, order, x) <==> y in order || y == x
  {
    if |order| == 0 || keys[order[|order| - 1]] <= keys[x] {
    } else {
      var rest := order[..|order| - 1];
      InsertShape(keys, rest, x);
      assert order == rest + [order[|order| - 1]];
    }
  }

  lemma {:induction false} InsertSorted(keys: seq<int>, order: seq<nat>, x: nat)
    requires x < |keys| && forall j :: 0 <= j < |order| ==> order[j] < x
    requires StableSorted(keys, order)
    ensures forall j :: 0 <= j < |Insert(keys, order, x)| ==> Insert(keys, order, x)[j] < |keys|
    ensures StableSorted(keys, Insert(keys, order, x))
  {
    InsertShape(keys, order, x);
    if |order| == 0 || keys[order[|order| - 1]] <= keys[x] {
    } else {
      var last := order[|order| - 1];
      var rest := order[..|order| - 1];
      InsertShape(keys, rest, x);
      InsertSorted(keys, rest, x);
      var front := Insert(keys, rest, x);
      forall a | 0 <= a < |front|
        ensures keys[front[a]] < keys[last] || (keys[front[a]] == keys[last] && front[a] < last)
      {
        assert front[a] in front;
        if front[a] != x {
          var b :| 0 <= b < |rest| && rest[b] == front[a];
          assert order[b] == rest[b];
        }
      }
    }
  }

  lemma {:induction false} ArgsortCorrect(keys: seq<int>, n: nat)
    requires n <= |keys|
    ensures StableSorted(keys, ArgsortUpTo(keys, n))
    ensures forall i: nat :: i < n ==> i in ArgsortUpTo(keys, n)
  {
    if n > 0 {
      ArgsortCorrect(keys, n - 1);
      InsertShape(keys, ArgsortUpTo(keys, n - 1), n - 1);
      InsertSorted(keys, ArgsortUpTo(keys, n - 1), n - 1);
    }
  }

  // ------------------------------------------- sums are blind to the reordering

  ghost function SumOver(f: int -> real, s: seq<nat>): real {
    if |s| == 0 then 0.0 else SumOver(f, s[..|s| - 1]) + f(s[|s| - 1])
  }

  lemma {:induction false} InsertSum(f: int -> real, keys: seq<int>, order: seq<nat>, x: nat)
    requires x < |keys| && forall j :: 0 <= j < |order| ==> order[j] < |keys|
    ensures SumOver(f, Insert(keys, order, x)) == SumOver(f, order) + f(x)
  {
    var ins := Insert(keys, order, x);
    if |order| == 0 || keys[order[|order| - 1]] <= keys[x] {
      assert ins[..|ins| - 1] == order;
    } else {
      InsertSum(f, keys, order[..|order| - 1], x);
      assert ins[..|ins| - 1] == Insert(keys, order[..|order| - 1], x);
    }
  }

  lemma {:induction false} ArgsortSum(f: int -> real, keys: seq<int>, n: nat)
    requires n <= |keys|
    ensures SumOver(f, ArgsortUpTo(keys, n)) == Sum(f, n)
  {
    if n > 0 {
      ArgsortSum(f, keys, n - 1);
      InsertSum(f, keys, ArgsortUpTo(keys, n - 1), n - 1);
    }
  }

  lemma {:induction false} SumOverIsSum(f: int -> real, s: seq<nat>, g: int -> real)
    requires forall j :: 0 <= j < |s| ==> g(j) == f(s[j])
    ensures SumOver(f, s) == Sum(g, |s|)
  {
    if |s| > 0 {
      SumOverIsSum(f, s[..|s| - 1], g);
    }
  }

  // --------------------------------------------------------- bincount and cumsum

  function Count(keys: seq<int>, n: nat, r: int): nat
    requires n <= |keys|
  {
    if n == 0 then 0 else Count(keys, n - 1, r) + (if keys[n - 1] == r then 1 else 0)
  }

  // np.bincount(keys, minlength=k)[:k]
  function Bincount(keys: seq<int>, k: nat): (r: seq<nat>)
    ensures |r| == k && forall j :: 0 <= j < k ==> r[j] == Count(keys, |keys|, j)
  {
    seq(k, j requires 0 <= j < k => Count(keys, |keys|, j))
  }

  function CumSum(s: seq<nat>, n: nat): nat
    requires n <= |s|
  {
    if n == 0 then 0 else CumSum(s, n - 1) + s[n - 1]
  }

  // offs[0] = 0; offs[1:] = cumsum(lengths)
  function Offsets(lengths: seq<nat>): (r: seq<nat>)
    ensures |r| == |lengths| + 1
    ensures forall j :: 0 <= j <= |lengths| ==> r[j] == CumSum(lengths, j)
  {
    seq(|lengths| + 1, j requires 0 <= j <= |lengths| => CumSum(lengths, j))
  }

  function CountBelow(keys: seq<int>, n: nat, r: int): nat
    requires n <= |keys|
  {
    if n == 0 then 0 else CountBelow(keys, n - 1, r) + (if keys[n - 1] < r then 1 else 0)
  }

  lemma {:induction false} CountBelowNext(keys: seq<int>, n: nat, r: int)
    requires n <= |keys|
    ensures CountBelow(keys, n, r + 1) == CountBelow(keys, n, r) + Count(keys, n, r)
  {
    if n > 0 {
      CountBelowNext(keys, n - 1, r);
    }
  }

  lemma {:induction false} CountBelowEnds(keys: seq<int>, n: nat, lo: int, hi: int)
    requires n <= |keys| && forall i :: 0 <= i < n ==> lo <= keys[i] < hi
    ensures CountBelow(keys, n, lo) == 0 && CountBelow(keys, n, hi) == n
  {
    if n > 0 {
      CountBelowEnds(keys, n - 1, lo, hi);
    }
  }

  lemma {:induction false} CumSumIsCountBelow(keys: seq<int>, k: nat, r: nat)
    requires r <= k && forall i :: 0 <= i < |keys| ==> 0 <= keys[i] < k
    ensures CumSum(Bincount(keys, k), r) == CountBelow(keys, |keys|, r)
  {
    if r == 0 {
      CountBelowEnds(keys, |keys|, 0, k);
    } else {
      CumSumIsCountBelow(keys, k, r - 1);
      CountBelowNext(keys, |keys|, r - 1);
    }
  }

  ghost function BelowAfter(keys: seq<int>, order: seq<nat>, r: int): nat
    requires forall j :: 0 <= j < |order| ==> order[j] < |keys|
  {
    CountBelow(Reorder(keys, order), |order|, r)
  }

  lemma {:induction false} CountBelowPrefix(a: seq<int>, b: seq<int>, n: nat, r: int)
    requires n <= |a| && n <= |b| && forall i :: 0 <= i < n ==> a[i] == b[i]
    ensures CountBelow(a, n, r) == CountBelow(b, n, r)
  {
    if n > 0 {
      CountBelowPrefix(a, b, n - 1, r);
    }
  }

  lemma {:induction false} InsertBelow(keys: seq<int>, order: seq<nat>, x: nat, r: int)
    requires x < |keys| && forall j :: 0 <= j < |order| ==> order[j] < x
    ensures forall j :: 0 <= j < |Insert(keys, order, x)| ==> Insert(keys, order, x)[j] < |keys|
    ensures BelowAfter(keys, Insert(keys, order, x), r) == BelowAfter(keys, order, r) + (if keys[x] < r then 1 else 0)
  {
    InsertShape(keys, order, x);
    var ins := Insert(keys, order, x);
    var n := |order|;
    if n == 0 || keys[order[n - 1]] <= keys[x] {
      CountBelowPrefix(Reorder(keys, ins), Reorder(keys, order), n, r);
    } else {
      var rest := order[..n - 1];
      InsertShape(keys, rest, x);
      InsertBelow(keys, rest, x, r);
      CountBelowPrefix(Reorder(keys, ins), Reorder(keys, Insert(keys, rest, x)), n, r);
      CountBelowPrefix(Reorder(keys, order), Reorder(keys, rest), n - 1, r);
    }
  }

  lemma {:induction false} ArgsortBelow(keys: seq<int>, n: nat, r: int)
    requires n <= |keys|
    ensures BelowAfter(keys, ArgsortUpTo(keys, n), r) == CountBelow(keys, n, r)
  {
    if n > 0 {
      ArgsortBelow(keys, n - 1, r);
      InsertBelow(keys, ArgsortUpTo(keys, n - 1), n - 1, r);
    }
  }

  lemma {:induction false} SortedCount(s: seq<int>, n: nat, r: int)
    requires n <= |s| && forall a, b :: 0 <= a < b < n ==> s[a] <= s[b]
    ensures CountBelow(s, n, r) <= n
    ensures forall j :: 0 <= j < n ==> (j < CountBelow(s, n, r) <==> s[j] < r)
  {
    if n > 0 {
      SortedCount(s, n - 1, r);
    }
  }

  // Position j of the sorted order lies in segment r exactly when its key is r.
  lemma Segments(keys: seq<int>, k: nat, r: nat, j: nat)
    requires r < k && j < |keys| && forall i :: 0 <= i < |keys| ==> 0 <= keys[i] < k
    ensures var offs := Offsets(Bincount(keys, k));
      offs[r] <= j < offs[r + 1] <==> keys[StableArgsort(keys)[j]] == r
  {
    var order := StableArgsort(keys);
    ArgsortCorrect(keys, |keys|);
    ArgsortBelow(keys, |keys|, r);
    ArgsortBelow(keys, |keys|, r + 1);
    CumSumIsCountBelow(keys, k, r);
    CumSumIsCountBelow(keys, k, r + 1);
    SortedCount(Reorder(keys, order), |keys|, r);
    SortedCount(Reorder(keys, order), |keys|, r + 1);
  }

  lemma {:induction false} CumSumMono(s: seq<nat>, a: nat, b: nat)
    requires a <= b <= |s|
    ensures CumSum(s, a) <= CumSum(s, b)
  {
    if a < b {
      CumSumMono(s, a, b - 1);
    }
  }

  // The offsets run from 0 to n without decreasing.
  lemma OffsetsShape(keys: seq<int>, k: nat)
    requires forall i :: 0 <= i < |keys| ==> 0 <= keys[i] < k
    ensures var offs := Offsets(Bincount(keys, k));
      && offs[0] == 0 && offs[k] == |keys|
      && forall a, b :: 0 <= a <= b <= k ==> offs[a] <= offs[b]
  {
    var lengths := Bincount(keys, k);
    CumSumIsCountBelow(keys, k, k);
    CountBelowEnds(keys, |keys|, 0, k);
    forall a, b | 0 <= a <= b <= k
      ensures Offsets(lengths)[a] <= Offsets(lengths)[b]
    {
      CumSumMono(lengths, a, b);
    }
  }
}
