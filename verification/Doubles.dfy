// Which integers a double holds, and which one a reader gets for any other:
// what JavaScript's Number(v) does with an integer beyond 2 to the 53rd
// (shared/codec.ts).

module Doubles {
  import opened Bits
  import opened Codec

  predicate IsScaled(v: nat, m: nat, k: nat) { m < 0x20_0000_0000_0000 && v == m * Pow2(k) }

  // At most 53 significant bits.
  ghost predicate Significant(v: nat) { exists m: nat, k: nat :: IsScaled(v, m, k) }

  lemma {:induction false} UlpIsPower(v: nat) returns (k: nat)
    ensures Ulp(v) == Pow2(k) && v / Ulp(v) < EXACT
    decreases v
  {
    if v < EXACT {
      k := 0;
      assert v / 1 == v;
    } else {
      k := UlpIsPower(v / 2);
      k := k + 1;
      Halved(v, Ulp(v / 2));
    }
  }

  lemma {:induction false} ScaledDouble(m: nat, k: nat)
    requires m < EXACT
    ensures IsDouble(m * Pow2(k))
    decreases k
  {
    if k == 0 {
      ToNumberExactly(m);
    } else {
      ScaledDouble(m, k - 1);
      Twofold(m, Pow2(k - 1));
    }
  }

  lemma DoubleExactly(v: nat)
    ensures IsDouble(v) <==> Significant(v)
  {
    if IsDouble(v) {
      var k := UlpIsPower(v);
      assert IsScaled(v, v / Ulp(v), k);
    }
    if m: nat, k: nat :| IsScaled(v, m, k) { ScaledDouble(m, k); }
  }

  function Apart(a: nat, b: nat): nat { if a <= b then b - a else a - b }

  lemma SumTimes(q: nat, u: nat)
    ensures (q + 1) * u == q * u + u
  {
  }

  // v rounded down to a multiple of u, and the rest.
  lemma Split(v: nat, u: nat) returns (lo: nat, r: nat)
    requires u > 0
    ensures lo == v / u * u && r == v % u < u && v == lo + r
  {
    lo, r := v / u * u, v % u;
  }

  // v is rounded to one of its two neighbours, lo and lo + u: the nearer one.
  lemma Rounded(v: nat) returns (lo: nat, r: nat)
    ensures lo == v / Ulp(v) * Ulp(v) && r < Ulp(v) && v == lo + r
    ensures 2 * r < Ulp(v) ==> ToNumber(v) == lo
    ensures 2 * r > Ulp(v) ==> ToNumber(v) == lo + Ulp(v)
    ensures ToNumber(v) == lo || ToNumber(v) == lo + Ulp(v)
  {
    lo, r := Split(v, Ulp(v));
    SumTimes(v / Ulp(v), Ulp(v));
  }

  // Half way it is the one that is an even multiple.
  lemma TieIsEven(v: nat) returns (k: nat)
    requires 2 * (v % Ulp(v)) == Ulp(v)
    ensures k % 2 == 0 && ToNumber(v) == k * Ulp(v)
  {
    k := v / Ulp(v);
    if k % 2 == 1 { k := k + 1; }
  }

  lemma HalfDouble(d: nat)
    requires d >= EXACT && IsDouble(d)
    ensures d % 2 == 0 && IsDouble(d / 2)
  {
    var h := Ulp(d / 2);
    var k := d / (2 * h);
    assert d == k * (2 * h) == 2 * (k * h);
    ModUnique(d / 2, h, k, 0);
  }

  lemma TwiceTimes(q: nat, h: nat)
    ensures q * (2 * h) == 2 * (q * h)
  {
  }

  // No double lies strictly between v rounded down and v rounded up.
  lemma {:induction false} NoneBetween(v: nat, d: nat)
    requires IsDouble(d)
    ensures var lo := v / Ulp(v) * Ulp(v); (d <= lo || d >= lo + Ulp(v)) && (v >= EXACT ==> lo >= EXACT)
    decreases v
  {
    if v < EXACT {
      assert v / 1 * 1 == v;
    } else {
      var h := Ulp(v / 2);
      var q := v / 2 / h;
      Halved(v, h);
      TwiceTimes(q, h);
      if d >= EXACT {
        HalfDouble(d);
        NoneBetween(v / 2, d / 2);
      } else {
        NoneBetween(v / 2, 0);
      }
      if v / 2 < EXACT { assert q * h == v / 2; }
    }
  }

  lemma Nearer(v: nat, d: nat, u: nat, lo: nat, r: nat, n: nat)
    requires v == lo + r && r < u && (d <= lo || d >= lo + u)
    requires (n == lo && 2 * r <= u) || (n == lo + u && 2 * r >= u)
    ensures Apart(n, v) <= Apart(d, v)
  {
  }

  // The number read is a double, and no double is nearer.
  lemma NearestDouble(v: nat, d: nat)
    requires IsDouble(d)
    ensures IsDouble(ToNumber(v)) && Apart(ToNumber(v), v) <= Apart(d, v)
  {
    var lo, r := Rounded(v);
    ReadsDouble(v);
    NoneBetween(v, d);
    Nearer(v, d, Ulp(v), lo, r, ToNumber(v));
  }
}
