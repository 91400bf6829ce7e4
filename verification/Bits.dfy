// Bitwise operators on unbounded integers, bit by bit, and the arithmetic
// they amount to.

module Bits {
  function Pow2(k: nat): (p: nat)
    ensures p > 0
  {
    if k == 0 then 1 else 2 * Pow2(k - 1)
  }

  // a & m. m may be negative: -1 is all ones.
  function And(a: nat, m: int): nat
    decreases a
  {
    if a == 0 then 0 else (a % 2) * (m % 2) + 2 * And(a / 2, m / 2)
  }

  function Xor(a: nat, b: nat): nat
    decreases a + b
  {
    if a == 0 && b == 0 then 0 else (if a % 2 == b % 2 then 0 else 1) + 2 * Xor(a / 2, b / 2)
  }

  function Or(a: nat, b: nat): nat
    decreases a + b
  {
    if a == 0 && b == 0 then 0 else (if a % 2 == 1 || b % 2 == 1 then 1 else 0) + 2 * Or(a / 2, b / 2)
  }

  lemma {:induction false} Pow2Add(a: nat, b: nat)
    ensures Pow2(a + b) == Pow2(a) * Pow2(b)
    decreases a
  {
    if a > 0 {
      Pow2Add(a - 1, b);
      assert 2 * (Pow2(a - 1) * Pow2(b)) == (2 * Pow2(a - 1)) * Pow2(b);
    }
  }

  lemma {:induction false} AndAllOnes(a: nat)
    ensures And(a, -1) == a
    decreases a
  {
    if a > 0 { AndAllOnes(a / 2); }
  }

  lemma {:induction false} AndZero(a: nat)
    ensures And(a, 0) == 0
    decreases a
  {
    if a > 0 { AndZero(a / 2); }
  }

  // Masking with k ones keeps the remainder.
  lemma {:induction false} AndLow(a: nat, k: nat)
    ensures And(a, Pow2(k) - 1) == a % Pow2(k)
    decreases k
  {
    if k == 0 {
      AndZero(a);
    } else {
      AndLow(a / 2, k - 1);
      AndOdd(a, Pow2(k - 1));
      HalfMod(a, Pow2(k - 1));
    }
  }

  lemma AndOdd(a: nat, p: nat)
    requires p > 0
    ensures And(a, 2 * p - 1) == a % 2 + 2 * And(a / 2, p - 1)
  {
    var m := 2 * p - 1;
    assert m % 2 == 1 && m / 2 == p - 1;
    if a == 0 { assert And(a, m) == 0; } else { assert (a % 2) * (m % 2) == a % 2; }
  }

  lemma AndEven(a: nat, m: nat)
    ensures And(a, 2 * m) == 2 * And(a / 2, m)
  {
    assert (2 * m) % 2 == 0 && (2 * m) / 2 == m;
    if a > 0 { assert (a % 2) * ((2 * m) % 2) == 0; } else { assert And(0, m) == 0; }
  }

  lemma HalfMod(a: nat, p: nat)
    requires p > 0
    ensures a % (2 * p) == a % 2 + 2 * ((a / 2) % p)
  {
    var (q, r) := ((a / 2) / p, (a / 2) % p);
    assert a == 2 * (q * p + r) + a % 2;
    assert 2 * (q * p + r) == q * (2 * p) + 2 * r;
    ModUnique(a, 2 * p, q, 2 * r + a % 2);
  }

  lemma SmallMultiple(x: int, m: int)
    requires m > 0 && -m < x * m < m
    ensures x == 0
  {
    if x >= 1 { NotNegative(x - 1, m); }
    if x <= -1 { NotNegative(-x - 1, m); }
  }

  lemma NotNegative(a: int, b: int)
    requires a >= 0 && b >= 0
    ensures a * b >= 0
  {
  }

  lemma ModUnique(a: nat, m: nat, q: nat, r: nat)
    requires a == q * m + r && r < m
    ensures a % m == r && a / m == q
  {
    var (q', r') := (a / m, a % m);
    var x := q - q';
    assert x * m == q * m - q' * m == r' - r;
    SmallMultiple(x, m);
  }

  lemma {:induction false} XorSelf(a: nat, b: nat)
    ensures Xor(a, Xor(a, b)) == b
    decreases a + b
  {
    if a != 0 || b != 0 {
      XorSelf(a / 2, b / 2);
      var x := Xor(a, b);
      assert x % 2 == (if a % 2 == b % 2 then 0 else 1) && x / 2 == Xor(a / 2, b / 2);
      if a == 0 && x == 0 { XorNothing(b); }
    }
  }

  lemma {:induction false} XorNothing(b: nat)
    ensures Xor(0, b) == b
    decreases b
  {
    if b > 0 { XorNothing(b / 2); }
  }

  lemma {:induction false} XorComm(a: nat, b: nat)
    ensures Xor(a, b) == Xor(b, a)
    decreases a + b
  {
    if a != 0 || b != 0 { XorComm(a / 2, b / 2); }
  }

  // Bits that do not overlap add up.
  lemma {:induction false} OrIsSum(a: nat, b: nat, k: nat)
    requires a < Pow2(k)
    ensures Or(a, b * Pow2(k)) == a + b * Pow2(k)
    decreases k
  {
    if k == 0 {
      OrNothing(b);
    } else {
      var p := Pow2(k - 1);
      assert b * Pow2(k) == 2 * (b * p);
      OrIsSum(a / 2, b, k - 1);
    }
  }

  lemma {:induction false} OrNothing(b: nat)
    ensures Or(0, b) == b
    decreases b
  {
    if b > 0 { OrNothing(b / 2); }
  }
}
