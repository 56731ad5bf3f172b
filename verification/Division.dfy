/** Facts about quotients and remainders by a divisor that is not a constant. */
module Division {

  lemma Distributes(a: int, b: int, c: int)
    ensures (a + b) * c == a * c + b * c
  {
  }

  lemma Associates(a: int, b: int, c: int)
    ensures (a * b) * c == a * (b * c)
  {
  }

  lemma Monotone(a: int, b: int, c: nat)
    requires a <= b
    ensures a * c <= b * c
  {
    Distributes(a, b - a, c);
  }

  /** A nonzero multiple of the divisor is at least as large as the divisor. */
  lemma MultipleIsLarge(d: int, m: nat)
    ensures d == 0 || d * m >= m || d * m <= 0 - m
  {
    if d > 0 {
      assert d * m == (d - 1) * m + m;
    } else if d < 0 {
      assert -(d * m) == (-d - 1) * m + m;
    }
  }

  /** Quotient and remainder are unique. */
  lemma Unique(x: int, m: nat, q: int, r: int)
    requires 0 <= r < m && x == q * m + r
    ensures x / m == q && x % m == r
  {
    assert x == (x / m) * m + x % m;
    assert (x / m - q) * m == r - x % m;
    MultipleIsLarge(x / m - q, m);
  }

  lemma RemainderIsSmall(x: nat, m: nat)
    requires m > 0
    ensures x % m <= x
  {
    if x < m {
      Unique(x, m, 0, x);
    }
  }

  /** The remainder of the next number. */
  lemma NextModulo(x: nat, m: nat)
    requires m > 0
    ensures (x + 1) % m == if x % m + 1 == m then 0 else x % m + 1
  {
    if x % m + 1 == m {
      Unique(x + 1, m, x / m + 1, 0);
    } else {
      Unique(x + 1, m, x / m, x % m + 1);
    }
  }

  /** A remainder does not change when multiples of the divisor are added. */
  lemma MultiplesVanish(q: int, r: int, m: nat)
    requires m > 0
    ensures (q * m + r) % m == r % m
  {
    assert q * m + r == (q + r / m) * m + r % m;
    Unique(q * m + r, m, q + r / m, r % m);
  }

  /** Repeated addition modulo `m`: one more step. */
  lemma StepModulo(a: int, b: int, n: nat, m: nat)
    requires m > 0 && n > 0
    ensures ((a + (n - 1) * b) % m + b) % m == (a + n * b) % m
  {
    AddModulo(a + (n - 1) * b, b, m);
    assert a + (n - 1) * b + b == a + n * b;
  }

  lemma AddModulo(a: int, b: int, m: nat)
    requires m > 0
    ensures (a % m + b) % m == (a + b) % m
  {
    assert a + b == (a / m) * m + (a % m + b);
    MultiplesVanish(a / m, a % m + b, m);
  }

  /** The quotient of the next number. */
  lemma NextQuotient(x: nat, m: nat)
    requires m > 0
    ensures (x + 1) / m == x / m + if (x + 1) % m == 0 then 1 else 0
  {
    NextModulo(x, m);
    if x % m + 1 == m {
      Unique(x + 1, m, x / m + 1, 0);
    } else {
      Unique(x + 1, m, x / m, x % m + 1);
    }
  }

  /** Quotient and remainder of a sum, from those of its first part. */
  lemma SumSplits(x: nat, y: nat, m: nat)
    requires m > 0
    ensures (x + y) / m == x / m + (x % m + y) / m && (x + y) % m == (x % m + y) % m
    ensures x == x / m * m + x % m
  {
    var n, k := x / m, (x % m + y) / m;
    Distributes(n, k, m);
    Unique(x + y, m, n + k, (x % m + y) % m);
  }

  /** The distance to a multiple of the divisor: it is crossed then, and not before. */
  lemma MultipleCrossed(x: nat, m: nat, n: nat, c: nat)
    requires x < m && n > 0
    ensures var distance := n * m - x;
            distance > 0 && (c < distance <==> (x + c) / m < n) && (x + distance) / m == n && (x + distance) % m == 0
  {
    var q, r := (x + c) / m, (x + c) % m;
    Monotone(1, n, m);
    Unique(n * m, m, n, 0);
    assert x + c == q * m + r;
    if q < n {
      Monotone(q + 1, n, m);
      Distributes(q, 1, m);
    } else {
      Monotone(n, q, m);
    }
  }
}
