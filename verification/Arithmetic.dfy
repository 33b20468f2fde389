/** Products, quotients and remainders, one fact at a time. */
module Arithmetic {
  function CeilDiv(a: int, b: int): int
    requires b > 0
  {
    (a + b - 1) / b
  }

  function Min(a: nat, b: nat): nat {
    if a <= b then a else b
  }

  lemma Monotone(a: int, b: int, n: int)
    requires a <= b && n >= 0
    ensures a * n <= b * n
  {
    assert (b - a) * n >= 0;
  }

  lemma CeilDivBounds(a: int, b: int, q: int)
    requires b > 0 && q == CeilDiv(a, b)
    ensures a <= q * b && (q - 1) * b < a
  {
    var r := (a + b - 1) % b;
    assert a + b - 1 == q * b + r && 0 <= r < b;
  }

  lemma CeilDivIs(a: int, b: int, m: int)
    requires b > 0
    ensures m >= CeilDiv(a, b) <==> m * b >= a
  {
    var q := CeilDiv(a, b);
    CeilDivBounds(a, b, q);
    if m >= q {
      Monotone(q, m, b);
    } else {
      Monotone(m, q - 1, b);
    }
  }

  lemma CeilDivExact(q: nat, b: int)
    requires b > 0
    ensures CeilDiv(q * b, b) == q
  {
    CeilDivIs(q * b, b, q);
    CeilDivIs(q * b, b, q - 1);
  }

  lemma DivExact(q: nat, d: nat)
    requires d > 0
    ensures (q * d) / d == q && (q * d) % d == 0
  {
    DivUnique(q, q * d / d, q * d % d, d);
  }

  lemma DivUnique(q: int, e: int, r: int, d: int)
    requires d > 0 && q * d == e * d + r && 0 <= r < d
    ensures q == e && r == 0
  {
    assert (q - e) * d == r;
    if q > e {
      Monotone(1, q - e, d);
    } else if q < e {
      Monotone(q - e, -1, d);
    }
  }

  lemma ModOf(q: nat, n: nat, r: nat)
    requires r < n
    ensures (q * n + r) % n == r && (q * n + r) / n == q
  {
    var x := q * n + r;
    var e, s := x / n, x % n;
    assert (q - e) * n == s - r;
    if q > e {
      Monotone(1, q - e, n);
    } else if q < e {
      Monotone(q - e, -1, n);
    }
  }

  lemma FlatLength(n: int, size: int)
    ensures size + n * size == (n + 1) * size
  {
  }

  lemma DivMod(k: nat, d: nat, q: nat, r: nat)
    requires d > 0 && q == k / d && r == k % d
    ensures k == q * d + r && r < d
  {
  }

  lemma Distribute(a: int, b: int, c: int)
    ensures (a + b) * c == a * c + b * c
  {
  }

  lemma Positive(x: int, y: int)
    requires x > 0 && y > 0
    ensures x * y > 0
  {
  }
}
