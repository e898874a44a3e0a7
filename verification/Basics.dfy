// Shared vocabulary: an option type and total readers for flat buffers.

module Basics {
  type pos = x: int | 0 < x witness 1

  datatype Option<+T> = None | Some(value: T)

  // Total readers: the callers' well-formedness predicates keep them in range.
  function At(s: seq<real>, i: int): real {
    if 0 <= i < |s| then s[i] else 0.0
  }

  function IntAt(s: seq<int>, i: int): int {
    if 0 <= i < |s| then s[i] else 0
  }

  // Multiplication behind a name, so that equal factors give equal products
  // without nonlinear reasoning.
  function Times(a: real, b: real): real {
    a * b
  }

  lemma TimesZero(x: real)
    ensures Times(0.0, x) == 0.0 && Times(x, 0.0) == 0.0 && Times(x, 1.0) == x
  {
  }

  lemma Distribute(a: real, b: real, x: real)
    ensures Times(a + b, x) == Times(a, x) + Times(b, x)
  {
  }

  // Rows of one width.
  ghost predicate Rect(rows: seq<seq<real>>, width: nat) {
    forall i :: 0 <= i < |rows| ==> |rows[i]| == width
  }

  function Filled<T>(n: nat, v: T): (r: seq<T>)
    ensures |r| == n && forall i :: 0 <= i < n ==> r[i] == v
  {
    seq(n, i => v)
  }

  function CeilDiv(a: nat, b: pos): nat {
    (a + b - 1) / b
  }

  function Min(a: nat, b: nat): nat {
    if a < b then a else b
  }

  function Max(a: nat, b: nat): nat {
    if a < b then b else a
  }
}
