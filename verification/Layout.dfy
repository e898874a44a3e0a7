// Row-major address arithmetic. Everything nonlinear is proved here once.
module Layout {
  import opened Basics

  lemma MulAway(a: int, d: pos)
    ensures a >= 1 ==> a * d >= d
    ensures a <= -1 ==> a * d + d <= 0
  {
  }

  lemma DivModOf(q: int, d: pos, r: int)
    requires 0 <= r < d
    ensures (q * d + r) / d == q && (q * d + r) % d == r
  {
    var q' := (q * d + r) / d;
    var r' := (q * d + r) % d;
    assert (q - q') * d == r' - r;
    MulAway(q - q', d);
  }

  lemma DivModUnique(x: int, d: pos, q: int, r: int)
    requires 0 <= r < d && x == q * d + r
    ensures x / d == q && x % d == r
  {
    DivModOf(q, d, r);
  }

  // Row-major address of element c in row r of rows of k.
  function Flat(r: int, k: int, c: int): (f: int)
    ensures r >= 0 && k >= 0 && c >= 0 ==> f >= 0
  {
    r * k + c
  }

  // Quotient and remainder of a flat address, by name.
  function Quot(x: nat, d: pos): (q: nat) {
    x / d
  }

  function Rem(x: nat, d: pos): (r: nat)
    ensures r < d
  {
    x % d
  }

  lemma FlatQuotRem(x: nat, d: pos)
    ensures Flat(Quot(x, d), d, Rem(x, d)) == x
  {
  }

  lemma QuotBound(x: nat, m: nat, d: pos)
    requires x < m * d
    ensures Quot(x, d) < m
  {
    DivBound(x, m, d);
  }

  lemma QuotRemOfFlat(q: nat, d: pos, r: nat)
    requires r < d
    ensures Flat(q, d, r) >= 0
    ensures Quot(Flat(q, d, r), d) == q && Rem(Flat(q, d, r), d) == r
  {
    DivModOf(q, d, r);
  }

  lemma SamePlace(r: nat, c: nat, r': nat, c': nat, k: nat)
    requires c < k && c' < k
    ensures Flat(r, k, c) == Flat(r', k, c') <==> r == r' && c == c'
  {
    DivModOf(r, k, c);
    DivModOf(r', k, c');
  }

  lemma FlatBound(i: int, j: int, m: int, n: int)
    requires 0 <= i < m && 0 <= j < n
    ensures 0 <= i * n + j < m * n
  {
    assert i * n + j < (i + 1) * n;
    assert (i + 1) * n <= m * n;
  }

  lemma DivBound(x: int, m: int, n: pos)
    requires 0 <= x < m * n
    ensures 0 <= x / n < m && 0 <= x % n < n && x == x / n * n + x % n
  {
    MulMono(m, x / n, n);
  }

  lemma MulMono(a: int, b: int, c: nat)
    ensures a <= b ==> a * c <= b * c
  {
  }

  // A multiple of d is its quotient times d.
  lemma ExactDiv(x: int, d: pos)
    requires x % d == 0
    ensures x == x / d * d
  {
  }

  lemma CeilDivExact(q: nat, d: pos)
    ensures CeilDiv(q * d, d) == q
  {
    DivModOf(q, d, d - 1);
  }

  lemma CeilDivCovers(x: nat, d: pos)
    ensures x <= CeilDiv(x, d) * d < x + d
  {
    var y := x + d - 1;
    assert y == y / d * d + y % d;
  }

  // Dividing in two steps is dividing once, and the scale block of an element
  // is the scale block of its group.
  lemma DivDiv(x: nat, a: pos, b: pos)
    ensures a * b > 0 && x / a / b == x / (a * b)
  {
    var q, r := x / a, x % a;
    var q', r' := q / b, q % b;
    assert a * b > 0;
    assert x == q' * (a * b) + (r' * a + r) by {
      assert q == q' * b + r';
      assert q * a == (q' * b + r') * a == q' * b * a + r' * a;
      assert q' * b * a == q' * (a * b);
    }
    assert r' * a + r < a * b by { FlatBound(r', r, b, a); assert b * a == a * b; }
    DivModUnique(x, a * b, q', r' * a + r);
  }

  // Element c of row m, in a row of `n` columns cut into pieces of size d.
  lemma RowPiece(m: nat, c: nat, n: pos, d: pos)
    requires n % d == 0 && c < n
    ensures (m * n + c) / d == m * (n / d) + c / d
    ensures (m * n + c) % d == c % d
  {
    var k := n / d;
    assert n == k * d;
    assert m * n == m * k * d;
    assert m * n + c == (m * k + c / d) * d + c % d;
    DivModUnique(m * n + c, d, m * k + c / d, c % d);
  }
}
