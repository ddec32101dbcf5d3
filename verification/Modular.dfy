/** Arithmetic modulo 2^64, as C does it on unsigned 64-bit integers. */
module Modular {

  const TWO_64 := 0x1_0000_0000_0000_0000

  lemma ModTimes(a: nat, b: nat, m: nat)
    requires m > 0
    ensures (a % m) * b % m == a * b % m
  {
    var q := a / m;
    assert a * b == (a % m) * b + m * (q * b) by {
      assert a == m * q + a % m;
    }
    ModOfSum((a % m) * b, q * b, m);
  }

  lemma ModOfSum(x: nat, q: nat, m: nat)
    requires m > 0
    ensures (x + m * q) % m == x % m
  {
    var d := x / m;
    assert x + m * q == m * (d + q) + x % m;
    DivModUnique(x + m * q, m, d + q, x % m);
  }

  lemma DivModUnique(x: nat, m: nat, q: nat, r: nat)
    requires r < m && x == m * q + r
    ensures x / m == q && x % m == r
  {
    var q' := x / m;
    assert x == m * q' + x % m;
    if q > q' {
      AtLeastOneMultiple(m, q, q');
    } else if q < q' {
      AtLeastOneMultiple(m, q', q);
    }
  }

  lemma AtLeastOneMultiple(m: nat, a: nat, b: nat)
    requires a > b
    ensures m * a >= m * b + m
  {
    assert m * a == m * b + m * (a - b);
    assert m * (a - b) == m + m * (a - b - 1);
  }

  lemma AddToResidue(x: nat, y: nat, m: nat)
    requires m > 0
    ensures (x % m + y) % m == (x + y) % m
  {
    assert x % m + y + m * (x / m) == x + y;
    ModOfSum(x % m + y, x / m, m);
  }

  lemma QuotientBounds(x: nat, m: nat)
    requires m > 0
    ensures (x / m) * m <= x < (x / m) * m + m
  {
    assert (x / m) * m + x % m == x;
  }

  lemma Distributes(a: nat, b: nat, c: nat)
    ensures (a + b) * c == a * c + b * c
  {
  }

  lemma TimesMonotone(a: nat, b: nat, c: nat)
    requires a <= b
    ensures a * c <= b * c
  {
  }

  lemma Commutes(a: nat, b: nat)
    ensures a * b == b * a
  {
  }

  /** A multiple that is too small to be one is zero. */
  lemma SmallMultiple(d: int, m: nat, v: nat)
    requires d * m == v < m
    ensures d == 0
  {
    FarFromZero(d, m);
  }

  lemma FarFromZero(d: int, m: nat)
    ensures d >= 1 ==> d * m >= m
    ensures d <= -1 ==> d * m <= 0 - m
  {
  }
}
