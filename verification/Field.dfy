// Congruence modulo p, and the identities behind the differential ladder of a
// Montgomery curve with coefficient 486662 (section 5 of RFC 7748).

module Field {
  import opened Bits

  lemma ModIs(a: int, p: int, q: int, r: int)
    requires p > 0 && a == q * p + r && 0 <= r < p
    ensures a % p == r
  {
    var (q', r') := (a / p, a % p);
    var x := q - q';
    assert x * p == q * p - q' * p == r' - r;
    SmallMultiple(x, p);
  }

  predicate Cong(a: int, b: int, p: int)
    requires p > 0
  {
    a % p == b % p
  }

  lemma CongBy(a: int, b: int, k: int, p: int)
    requires p > 0 && a == b + k * p
    ensures Cong(a, b, p)
  {
    var (q, r) := (b / p, b % p);
    assert (q + k) * p == q * p + k * p;
    ModIs(a, p, q + k, r);
  }

  lemma Quotient(a: int, b: int, p: int) returns (k: int)
    requires p > 0 && Cong(a, b, p)
    ensures a == b + k * p
  {
    k := a / p - b / p;
    assert k * p == (a / p) * p - (b / p) * p;
  }

  lemma CongReduced(a: int, p: int)
    requires p > 0
    ensures Cong(a % p, a, p) && Cong((a + p) % p, a, p)
  {
    CongBy(a % p, a, -(a / p), p);
    CongBy((a + p) % p, a, 1 - (a + p) / p, p);
  }

  lemma CongAdd(a: int, b: int, c: int, d: int, p: int)
    requires p > 0 && Cong(a, b, p) && Cong(c, d, p)
    ensures Cong(a + c, b + d, p) && Cong(a - c, b - d, p)
  {
    var k := Quotient(a, b, p);
    var j := Quotient(c, d, p);
    assert (k + j) * p == k * p + j * p && (k - j) * p == k * p - j * p;
    CongBy(a + c, b + d, k + j, p);
    CongBy(a - c, b - d, k - j, p);
  }

  lemma CongScale(a: int, b: int, c: int, p: int)
    requires p > 0 && Cong(a, b, p)
    ensures Cong(a * c, b * c, p) && Cong(c * a, c * b, p)
  {
    var k := Quotient(a, b, p);
    assert (b + k * p) * c == b * c + (k * c) * p;
    assert a * c == c * a && b * c == c * b;
    CongBy(a * c, b * c, k * c, p);
  }

  lemma CongMul(a: int, b: int, c: int, d: int, p: int)
    requires p > 0 && Cong(a, b, p) && Cong(c, d, p)
    ensures Cong(a * c, b * d, p)
  {
    CongScale(a, b, c, p);
    CongScale(c, d, b, p);
  }

  function Sq(x: int): int { x * x }

  // Twice a point, from the sum and the difference of its coordinates.
  lemma Doubling(x: int, z: int)
    ensures Sq(x + z) * Sq(x - z) == Sq(Sq(x) - Sq(z))
    ensures Sq(x + z) - Sq(x - z) == 4 * (x * z)
    ensures Sq(x + z) + 121665 * (4 * (x * z)) == Sq(x) + 486662 * (x * z) + Sq(z)
  {
    var (a, b) := (x + z, x - z);
    assert Sq(a) == Sq(x) + 2 * (x * z) + Sq(z);
    assert Sq(b) == Sq(x) - 2 * (x * z) + Sq(z);
    assert a * b == Sq(x) - Sq(z);
    assert (a * a) * (b * b) == (a * b) * (a * b);
  }

  // The sum of two points whose difference is known.
  lemma Addition(x2: int, z2: int, x3: int, z3: int)
    ensures (x3 - z3) * (x2 + z2) + (x3 + z3) * (x2 - z2) == 2 * (x2 * x3 - z2 * z3)
    ensures (x3 - z3) * (x2 + z2) - (x3 + z3) * (x2 - z2) == 2 * (x3 * z2 - x2 * z3)
  {
  }

  lemma SqTwice(x: int)
    ensures Sq(2 * x) == 4 * Sq(x)
  {
  }

  lemma CongSq(a: int, b: int, p: int)
    requires p > 0 && Cong(a, b, p)
    ensures Cong(Sq(a), Sq(b), p)
  {
    CongMul(a, b, a, b, p);
  }
}
