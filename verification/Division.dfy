/** Quotients and remainders of natural numbers. */
module Division {
  lemma Distribute(a: int, x: int, y: int)
    ensures a * (x - y) == a * x - a * y
  {
  }

  lemma AtLeastOnce(a: int, d: int)
    requires a >= 0
    ensures d >= 1 ==> a * d >= a
    ensures d <= -1 ==> a * d <= -a
  {
  }

  /** Quotient and remainder are unique. */
  lemma Unique(align: nat, q: int, rest: nat, m: int, r: nat)
    requires align * q + rest == align * m + r && rest < align && r < align
    ensures q == m && rest == r
  {
    Distribute(align, q, m);
    AtLeastOnce(align, q - m);
  }

  lemma Euclid(x: nat, m: nat, r: nat, align: nat)
    requires r < align && x == align * m + r
    ensures x / align == m && x % align == r
  {
    assert x == align * (x / align) + x % align;
    Unique(align, x / align, x % align, m, r);
  }

  /** A step of less than a whole round changes the remainder; a whole round does not. */
  lemma ModStep(a: nat, d: nat, m: nat)
    requires m > 0
    ensures 0 < d < m ==> a % m != (a + d) % m
    ensures (a + m) % m == a % m
  {
    var q, r := a / m, a % m;
    Distribute(m, q, -1);
    Euclid(a + m, q + 1, r, m);
    if r + d < m { Euclid(a + d, q, r + d, m); } else if d < m { Euclid(a + d, q + 1, r + d - m, m); }
  }

  /** One of the next `m` steps reaches any given remainder. */
  lemma ModHits(a: nat, p: nat, m: nat) returns (d: nat)
    requires p < m
    ensures d < m && (a + d) % m == p
  {
    var q, r := a / m, a % m;
    Distribute(m, q, -1);
    if p >= r {
      d := p - r;
      Euclid(a + d, q, p, m);
    } else {
      d := p + m - r;
      Euclid(a + d, q + 1, p, m);
    }
  }
}
