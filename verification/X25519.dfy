// X25519 (shared/crypto/x25519.ts), section 5 of RFC 7748: the Montgomery
// ladder with deferred swaps, field inversion by exponentiation, and the
// little-endian form of field elements.

module X25519 {
  import opened Basics
  import opened Bits
  import opened Field

  const P: nat := 0x7fffffff_ffffffff_ffffffff_ffffffff_ffffffff_ffffffff_ffffffff_ffffffed
  const A24: nat := 121665

  /* ---- Little-endian bytes ---- */

  function LeToN(b: seq<byte>): nat { if b == [] then 0 else b[0] + 256 * LeToN(b[1..]) }

  // The lowest n bytes of x.
  function LeBytes(x: nat, n: nat): (b: seq<byte>)
    ensures |b| == n
  {
    if n == 0 then [] else [x % 256] + LeBytes(x / 256, n - 1)
  }

  function Pow256(n: nat): nat { if n == 0 then 1 else 256 * Pow256(n - 1) }

  lemma {:induction false} LeBelow(b: seq<byte>)
    ensures LeToN(b) < Pow256(|b|)
    decreases |b|
  {
    if b != [] { LeBelow(b[1..]); }
  }

  lemma {:induction false} LeOfBytes(x: nat, n: nat)
    requires x < Pow256(n)
    ensures LeToN(LeBytes(x, n)) == x
    decreases n
  {
    if n > 0 { LeOfBytes(x / 256, n - 1); }
  }

  lemma {:induction false} BytesOfLe(b: seq<byte>)
    ensures LeBytes(LeToN(b), |b|) == b
    decreases |b|
  {
    if b != [] { BytesOfLe(b[1..]); }
  }

  // leToN: from the highest byte down.
  method LeToNumber(b: seq<byte>) returns (n: nat)
    ensures n == LeToN(b)
  {
    n := 0;
    var i := |b|;
    while i > 0
      invariant 0 <= i <= |b| && n == LeToN(b[i..])
    {
      i := i - 1;
      assert b[i..][1..] == b[i + 1..];
      n := n * 256 + b[i];
    }
    assert b[0..] == b;
  }

  function NToLe(n: nat): seq<byte> { LeBytes(n % P, 32) }

  method NumberToLe(n: nat) returns (out: array<byte>)
    ensures fresh(out) && out[..] == NToLe(n)
  {
    out := new byte[32];
    var x: nat := (n % P + P) % P;
    ReducedTwice(n);
    ghost var x0 := x;
    for i := 0 to 32
      invariant out[..i] + LeBytes(x, 32 - i) == LeBytes(x0, 32)
    {
      ghost var (done, was) := (out[..i], x);
      out[i] := x % 256;
      x := x / 256;
      assert out[..i + 1] == done + [was % 256];
      assert done + LeBytes(was, 32 - i) == out[..i + 1] + LeBytes(x, 32 - (i + 1));
    }
    assert out[..32] + [] == out[..];
  }

  lemma ReducedTwice(n: nat)
    ensures (n % P + P) % P == n % P
  {
    ModUnique(n % P + P, P, 1, n % P);
  }

  lemma PowerOf32()
    ensures Pow256(32) == 0x1_00000000_00000000_00000000_00000000_00000000_00000000_00000000_00000000
  {
    assert Pow256(8) == 0x1_0000_0000_0000_0000;
    assert Pow256(16) == 0x1_0000_0000_0000_0000_0000_0000_0000_0000;
    assert Pow256(24) == 0x1_0000_0000_0000_0000_0000_0000_0000_0000_0000_0000_0000_0000;
  }

  // The two forms of a field element undo each other: every number below P
  // reads back, and a 32-byte string reads back exactly when it stands for
  // such a number.
  lemma FieldBytes(n: nat, b: seq<byte>)
    ensures LeToN(NToLe(n)) == n % P
    ensures |b| == 32 ==> (NToLe(LeToN(b)) == b <==> LeToN(b) < P)
  {
    Reads(n);
    if |b| == 32 {
      BytesOfLe(b);
      Reads(LeToN(b));
      if LeToN(b) < P { ModUnique(LeToN(b), P, 0, LeToN(b)); }
    }
  }

  lemma Reads(n: nat)
    ensures n % P < P && LeToN(NToLe(n)) == n % P
  {
    PowerOf32();
    LeOfBytes(n % P, 32);
  }

  /* ---- Inversion ---- */

  function Pow(b: nat, e: nat): nat { if e == 0 then 1 else b * Pow(b, e - 1) }

  lemma {:induction false} PowSquare(b: nat, e: nat)
    ensures Pow(b * b, e) == Pow(b, 2 * e)
    decreases e
  {
    if e > 0 {
      PowSquare(b, e - 1);
      var x := Pow(b, 2 * (e - 1));
      assert Pow(b, 2 * e) == b * (b * x) == (b * b) * x;
    }
  }

  // Halving the exponent: the loop's step.
  lemma PowHalf(b: nat, e: nat)
    requires e > 0
    ensures Pow(b, e) == if e % 2 == 1 then b * Pow(b * b, e / 2) else Pow(b * b, e / 2)
  {
    PowSquare(b, e / 2);
  }

  lemma Spread(q: nat, p: nat, r: nat, b: nat)
    ensures (q * p + r) * b == (q * b) * p + r * b
  {
    assert (q * p) * b == (q * b) * p;
  }

  lemma MulMod(a: nat, b: nat, p: nat)
    requires p > 0
    ensures (a % p) * b % p == a * b % p
  {
    var (q, r) := (a / p, a % p);
    Spread(q, p, r, b);
    var (x, y) := (r * b, q * b);
    var (s, t) := (x / p, x % p);
    assert (s + y) * p == s * p + y * p;
    ModUnique(a * b, p, s + y, t);
  }

  lemma {:induction false} PowMod(b: nat, e: nat, p: nat)
    requires p > 0
    ensures Pow(b % p, e) % p == Pow(b, e) % p
    decreases e
  {
    if e > 0 {
      PowMod(b, e - 1, p);
      var (c, x, y) := (b % p, Pow(b % p, e - 1), Pow(b, e - 1));
      calc {
        c * x % p;
      == { assert c * x == x * c; MulMod(x, c, p); }
        (x % p) * c % p;
      ==
        (y % p) * c % p;
      == { MulMod(y, c, p); assert y * c == c * y; }
        c * y % p;
      == { MulMod(b, y, p); }
        b * y % p;
      }
    }
  }

  lemma MulModBoth(a: nat, b: nat, c: nat, p: nat)
    requires p > 0 && b % p == c % p
    ensures a * b % p == a * c % p
  {
    assert a * b == b * a && a * c == c * a;
    MulMod(b, a, p);
    MulMod(c, a, p);
  }

  // What the loop still has to multiply out.
  function Left(r: nat, b: nat, e: nat, p: nat): nat
    requires p > 0
  {
    r * Pow(b, e) % p
  }

  // One turn of the loop keeps r times b to the e.
  lemma PowStep(r: nat, b: nat, e: nat, p: nat)
    requires p > 0 && e > 0
    ensures Left(if e % 2 == 1 then r * b % p else r, b * b % p, e / 2, p) == Left(r, b, e, p)
  {
    var x := Pow(b * b, e / 2);
    PowHalf(b, e);
    PowMod(b * b, e / 2, p);
    if e % 2 == 1 {
      MulModBoth(r * b % p, Pow(b * b % p, e / 2), x, p);
      MulMod(r * b, x, p);
      assert (r * b) * x == r * (b * x);
    } else {
      MulModBoth(r, Pow(b * b % p, e / 2), x, p);
    }
  }

  lemma Reduced(z: nat, p: nat)
    requires p > 0
    ensures z % p < p && (z % p + p) % p == z % p
  {
    var r := z % p;
    ModUnique(r + p, p, 1, r);
  }

  lemma LeftStart(b: nat, z: nat, e: nat, p: nat)
    requires p > 0 && b == z % p
    ensures Left(1, b, e, p) == Pow(z, e) % p
  {
    PowMod(z, e, p);
    assert 1 * Pow(b, e) == Pow(b, e);
  }

  lemma LeftEnd(r: nat, b: nat, p: nat)
    requires r < p
    ensures Left(r, b, 0, p) == r
  {
    ModUnique(r, p, 0, r);
  }

  // Square and multiply, for any modulus above 1.
  method PowerMod(z: nat, e0: nat, p: nat) returns (r: nat)
    requires p > 1
    ensures r < p && r == Pow(z, e0) % p
  {
    Reduced(z, p);
    var e: nat := e0;
    var b: nat := (z % p + p) % p;
    LeftStart(b, z, e, p);
    r := 1;
    while e > 0
      invariant r < p && Left(r, b, e, p) == Pow(z, e0) % p
    {
      PowStep(r, b, e, p);
      LowBit(e);
      r, b, e := Turn(r, b, e, p);
    }
    LeftEnd(r, b, p);
  }

  method Turn(r0: nat, b0: nat, e0: nat, p: nat) returns (r: nat, b: nat, e: nat)
    requires p > 1 && r0 < p && e0 > 0
    ensures r < p && e == e0 / 2
    ensures r == (if And(e0, 1) == 1 then r0 * b0 % p else r0) && b == b0 * b0 % p
  {
    r, b, e := r0, b0, e0;
    if And(e, 1) == 1 { r := r * b % p; }
    b := b * b % p;
    e := e / 2;
  }

  lemma LowBit(e: nat)
    ensures And(e, 1) == e % 2
  {
    assert Pow2(1) == 2;
    AndLow(e, 1);
  }

  // modInv: z to the P - 2.
  method ModInv(z: nat) returns (r: nat)
    ensures r < P && r == Pow(z, P - 2) % P
  {
    r := PowerMod(z, P - 2, P);
  }

  /* ---- The ladder ---- */

  // Two points in projective form.
  datatype Pair = Pair(x2: nat, z2: nat, x3: nat, z3: nat)

  function Flip(s: Pair): Pair { Pair(s.x3, s.z3, s.x2, s.z2) }

  function FlipIf(c: bool, s: Pair): Pair { if c then Flip(s) else s }

  predicate InField(s: Pair) { s.x2 < P && s.z2 < P && s.x3 < P && s.z3 < P }

  // In range for a step: the base coordinate may still be unreduced.
  predicate NearField(s: Pair) { s.z2 < P && s.z3 < P }

  // Doubling of the first point and addition of the two, whose difference has
  // coordinate x1, on the curve with coefficient 486662.
  function Step(x1: nat, s: Pair): (r: Pair)
    ensures InField(r)
  {
    var (x2, z2, x3, z3) := (s.x2, s.z2, s.x3, s.z3);
    Pair(
      Sq(Sq(x2) - Sq(z2)) % P,
      4 * (x2 * z2) * (Sq(x2) + 486662 * (x2 * z2) + Sq(z2)) % P,
      4 * Sq(x2 * x3 - z2 * z3) % P,
      x1 * (4 * Sq(x3 * z2 - x2 * z3)) % P)
  }

  // Bit t of the scalar.
  function BitAt(k: nat, t: nat): nat { k / Pow2(t) % 2 }

  // The plain ladder over so many bits, after the highest n of them: a one bit
  // swaps, steps, swaps back.
  function Ladder(x1: nat, k: nat, bits: nat, n: nat): (s: Pair)
    requires n <= bits
    ensures NearField(s) && (n > 0 ==> InField(s))
  {
    if n == 0 then Pair(1, 0, x1, 1)
    else
      var s := Ladder(x1, k, bits, n - 1);
      if BitAt(k, bits - n) == 1 then Flip(Step(x1, Flip(s))) else Step(x1, s)
  }

  // R relates multiples of the point x1 to their coordinates: it holds of
  // nought and one, and a step doubles one of two neighbours and adds them.
  ghost predicate Multiples(R: (nat, nat, nat) -> bool, x1: nat) {
    && R(0, 1, 0) && R(1, x1, 1)
    && forall n: nat, m: nat, s: Pair :: DoublesAndAdds(R, x1, n, m, s)
  }

  // If the points of s are the multiples by two neighbours n and m, a step
  // gives those by 2 n and n + m.
  ghost predicate DoublesAndAdds(R: (nat, nat, nat) -> bool, x1: nat, n: nat, m: nat, s: Pair) {
    R(n, s.x2, s.z2) && R(m, s.x3, s.z3) && (m == n + 1 || n == m + 1) ==>
      R(2 * n, Step(x1, s).x2, Step(x1, s).z2) && R(n + m, Step(x1, s).x3, Step(x1, s).z3)
  }

  // The number without its lowest t bits.
  function HighBits(k: nat, t: nat): nat { if t == 0 then k else HighBits(k, t - 1) / 2 }

  lemma Distribute(h: nat, b: nat, p: nat)
    ensures (2 * h + b) * p == h * (2 * p) + b * p
  {
  }

  lemma HalfOf(k: nat, p: nat, h: nat, b: nat, r: nat)
    requires k == (2 * h + b) * p + r && r < p && b <= 1
    ensures k / (2 * p) == h
  {
    Distribute(h, b, p);
    ModUnique(k, 2 * p, h, if b == 0 then r else p + r);
  }

  lemma HalfDiv(k: nat, p: nat)
    requires p > 0
    ensures k / p / 2 == k / (2 * p)
  {
    var (q, r) := (k / p, k % p);
    assert q == 2 * (q / 2) + q % 2;
    HalfOf(k, p, q / 2, q % 2, r);
  }

  lemma {:induction false} HighIsDiv(k: nat, t: nat)
    ensures HighBits(k, t) == k / Pow2(t)
    decreases t
  {
    if t > 0 {
      HighIsDiv(k, t - 1);
      HalfDiv(k, Pow2(t - 1));
    }
  }

  // The bits above bit t, and one more.
  lemma OneMoreBit(k: nat, t: nat)
    ensures BitAt(k, t) <= 1 && HighBits(k, t) == 2 * HighBits(k, t + 1) + BitAt(k, t)
  {
    HighIsDiv(k, t);
  }

  lemma NoHighBits(k: nat, t: nat)
    requires k < Pow2(t)
    ensures HighBits(k, t) == 0
  {
    HighIsDiv(k, t);
    ModUnique(k, Pow2(t), 0, k);
  }

  // The pair is the multiples by m and by one more.
  ghost predicate Neighbours(R: (nat, nat, nat) -> bool, m: nat, s: Pair) {
    R(m, s.x2, s.z2) && R(m + 1, s.x3, s.z3)
  }

  // What one bit does to the pair.
  function Turned(x1: nat, b: nat, s: Pair): Pair {
    if b == 1 then Flip(Step(x1, Flip(s))) else Step(x1, s)
  }

  lemma LadderNext(x1: nat, k: nat, bits: nat, n: nat)
    requires n < bits
    ensures Ladder(x1, k, bits, n + 1) == Turned(x1, BitAt(k, bits - (n + 1)), Ladder(x1, k, bits, n))
  {
  }

  // It takes the multiples by m and m + 1 on to those by 2 m + b and one more.
  lemma BitMultiplies(R: (nat, nat, nat) -> bool, x1: nat, m: nat, s: Pair, b: nat)
    requires Multiples(R, x1) && b <= 1 && Neighbours(R, m, s)
    ensures Neighbours(R, 2 * m + b, Turned(x1, b, s))
  {
    var n := m + 1;
    assert DoublesAndAdds(R, x1, m, n, s) && DoublesAndAdds(R, x1, n, m, Flip(s));
    assert m + n == 2 * m + 1 && n + m == 2 * m + 1 && 2 * n == 2 * m + 2;
  }

  // After n bits the pair is the multiples by these bits, and by one more.
  lemma {:induction false} LadderMultiplies(R: (nat, nat, nat) -> bool, x1: nat, k: nat, bits: nat, n: nat)
    requires Multiples(R, x1) && HighBits(k, bits) == 0 && n <= bits
    ensures Neighbours(R, HighBits(k, bits - n), Ladder(x1, k, bits, n))
    decreases n
  {
    if n > 0 {
      var (t, s) := (bits - n, Ladder(x1, k, bits, n - 1));
      LadderMultiplies(R, x1, k, bits, n - 1);
      assert bits - (n - 1) == t + 1;
      OneMoreBit(k, t);
      BitMultiplies(R, x1, HighBits(k, t + 1), s, BitAt(k, t));
      LadderNext(x1, k, bits, n - 1);
    }
  }

  lemma {:induction false} Pow2Of256(n: nat)
    ensures Pow2(8 * n) == Pow256(n)
    decreases n
  {
    if n > 0 {
      Pow2Of256(n - 1);
      Pow2Add(8, 8 * (n - 1));
      assert Pow2(8) == 256;
    }
  }

  lemma TopPower(t: nat)
    requires t == 255
    ensures Pow2(t) == TOP_BIT
  {
    Pow2Of256(31);
    Pow2Add(7, 8 * 31);
    assert Pow2(7) == 128;
    Power31();
  }

  // All bits of a scalar below 2 to the 255th: its multiple.
  lemma ScalarMultiple(R: (nat, nat, nat) -> bool, x1: nat, k: nat, bits: nat)
    requires Multiples(R, x1) && k < TOP_BIT && bits == 255
    ensures R(k, Ladder(x1, k, bits, bits).x2, Ladder(x1, k, bits, bits).z2)
  {
    TopPower(bits);
    NoHighBits(k, bits);
    LadderMultiplies(R, x1, k, bits, bits);
  }

  // Two bits of swapping in a row are one bit of their difference.
  lemma FlipTwice(c: bool, d: bool, s: Pair)
    ensures FlipIf(c, FlipIf(d, s)) == FlipIf(c != d, s)
  {
  }

  // cswap with mask and xor: swaps for one, leaves for zero.
  function CSwap(swap: nat, a: nat, b: nat): (nat, nat) {
    var d := And(Xor(a, b), 0 - swap);
    (Xor(a, d), Xor(b, d))
  }

  lemma CSwapSwaps(swap: nat, a: nat, b: nat)
    requires swap <= 1
    ensures CSwap(swap, a, b) == if swap == 1 then (b, a) else (a, b)
  {
    var x := Xor(a, b);
    if swap == 1 {
      AndAllOnes(x);
      XorSelf(a, b);
      XorComm(a, b);
      XorSelf(b, a);
    } else {
      AndZero(x);
      XorNothing(a);
      XorNothing(b);
      XorComm(a, 0);
      XorComm(b, 0);
    }
  }

  lemma XorBits(a: nat, b: nat)
    requires a <= 1 && b <= 1
    ensures Xor(a, b) == if a == b then 0 else 1
  {
    assert Xor(0, 0) == 0;
  }

  // Both conditional swaps of a pair.
  method SwapBoth(swap: nat, s: Pair) returns (r: Pair)
    requires swap <= 1
    ensures r == FlipIf(swap == 1, s)
  {
    CSwapSwaps(swap, s.x2, s.x3);
    CSwapSwaps(swap, s.z2, s.z3);
    var xs := CSwap(swap, s.x2, s.x3);
    var zs := CSwap(swap, s.z2, s.z3);
    r := Pair(xs.0, zs.0, xs.1, zs.1);
  }

  // One turn on a key bit: undo the swap left over from the last turn and do
  // this one's at once, then step. The swap back is left to the next turn.
  method OneTurn(x1: nat, kt: nat, swap0: nat, s: Pair) returns (swap: nat, r: Pair)
    requires kt <= 1 && swap0 <= 1 && NearField(s)
    ensures swap == kt && InField(r)
    ensures r == Step(x1, FlipIf(kt == 1, FlipIf(swap0 == 1, s)))
  {
    XorBits(swap0, kt);
    swap := Xor(swap0, kt);
    FlipTwice(kt == 1, swap0 == 1, s);
    r := SwapBoth(swap, s);
    var x2, z2, x3, z3 := StepValues(x1, r.x2, r.z2, r.x3, r.z3);
    r := Pair(x2, z2, x3, z3);
    swap := kt;
  }

  // The deferred-swap loop is the plain ladder.
  method RunLadder(x1: nat, k: nat) returns (x2: nat, z2: nat)
    ensures x2 < P && z2 < P
    ensures x2 == Ladder(x1, k, 255, 255).x2 && z2 == Ladder(x1, k, 255, 255).z2
    ensures forall R: (nat, nat, nat) -> bool :: Multiples(R, x1) && k < TOP_BIT ==> R(k, x2, z2)
  {
    var s, swap := Pair(1, 0, x1, 1), 0;
    var t: int := 254;
    while t >= 0
      invariant -1 <= t <= 254 && swap <= 1
      invariant NearField(s) && (t < 254 ==> InField(s))
      invariant FlipIf(swap == 1, s) == Ladder(x1, k, 255, 254 - t)
    {
      swap, s := OneTurn(x1, BitAt(k, t), swap, s);
      t := t - 1;
    }
    s := SwapBoth(swap, s);
    x2, z2 := s.x2, s.z2;
    forall R: (nat, nat, nat) -> bool | Multiples(R, x1) && k < TOP_BIT
      ensures R(k, x2, z2)
    {
      ScalarMultiple(R, x1, k, 255);
    }
  }

  // A difference taken modulo p: the dividend is not negative, so that the
  // remainder is the residue also where the operator truncates.
  function Minus(a: nat, b: nat, p: nat): nat
    requires p > 0 && b <= p
  {
    (a - b + p) % p
  }

  lemma MinusCong(a: nat, b: nat, c: int, d: int, p: nat)
    requires p > 0 && b <= p && Cong(a, c, p) && Cong(b, d, p)
    ensures Cong(Minus(a, b, p), c - d, p)
  {
    CongReduced(a - b, p);
    CongAdd(a, c, b, d, p);
  }

  lemma TimesCong(a: nat, b: nat, c: int, d: int, p: nat)
    requires p > 0 && Cong(a, c, p) && Cong(b, d, p)
    ensures Cong(a * b % p, c * d, p)
  {
    CongReduced(a * b, p);
    CongMul(a, c, b, d, p);
  }

  lemma PlusCong(a: nat, b: nat, c: int, d: int, p: nat)
    requires p > 0 && Cong(a, c, p) && Cong(b, d, p)
    ensures Cong((a + b) % p, c + d, p)
  {
    CongReduced(a + b, p);
    CongAdd(a, c, b, d, p);
  }

  lemma DoubleCong(aa: nat, bb: nat, e: nat, x: int, z: int, p: nat)
    requires p > 0 && bb <= p && Cong(aa, Sq(x + z), p) && Cong(bb, Sq(x - z), p) && e == Minus(aa, bb, p)
    ensures aa * bb % p == Sq(Sq(x) - Sq(z)) % p
    ensures e * (aa + A24 * e) % p == 4 * (x * z) * (Sq(x) + 486662 * (x * z) + Sq(z)) % p
  {
    Doubling(x, z);
    CongMul(aa, Sq(x + z), bb, Sq(x - z), p);
    MinusCong(aa, bb, Sq(x + z), Sq(x - z), p);
    CongScale(e, 4 * (x * z), A24, p);
    CongAdd(aa, Sq(x + z), A24 * e, A24 * (4 * (x * z)), p);
    CongMul(e, 4 * (x * z), aa + A24 * e, Sq(x) + 486662 * (x * z) + Sq(z), p);
  }

  lemma AddCong(da: nat, cb: nat, x1: nat, x2: int, z2: int, x3: int, z3: int, p: nat)
    requires p > 0 && cb <= p && Cong(da, (x3 - z3) * (x2 + z2), p) && Cong(cb, (x3 + z3) * (x2 - z2), p)
    ensures var (dacb, dacbm) := ((da + cb) % p, Minus(da, cb, p));
            && dacb * dacb % p == 4 * Sq(x2 * x3 - z2 * z3) % p
            && x1 * dacbm * dacbm % p == x1 * (4 * Sq(x3 * z2 - x2 * z3)) % p
  {
    var (dacb, dacbm) := ((da + cb) % p, Minus(da, cb, p));
    Addition(x2, z2, x3, z3);
    PlusCong(da, cb, (x3 - z3) * (x2 + z2), (x3 + z3) * (x2 - z2), p);
    CongSq(dacb, 2 * (x2 * x3 - z2 * z3), p);
    SqTwice(x2 * x3 - z2 * z3);
    MinusCong(da, cb, (x3 - z3) * (x2 + z2), (x3 + z3) * (x2 - z2), p);
    CongSq(dacbm, 2 * (x3 * z2 - x2 * z3), p);
    SqTwice(x3 * z2 - x2 * z3);
    CongScale(Sq(dacbm), 4 * Sq(x3 * z2 - x2 * z3), x1, p);
    assert x1 * dacbm * dacbm == x1 * Sq(dacbm);
  }

  // The sum and the difference of one point's coordinates.
  lemma EndsCong(x: nat, z: nat, p: nat)
    requires p > 0 && z <= p
    ensures Cong((x + z) % p, x + z, p) && Cong(Minus(x, z, p), x - z, p)
  {
    CongReduced(x + z, p);
    MinusCong(x, z, x, z, p);
  }

  // The field arithmetic of one turn.
  method StepValues(x1: nat, x2: nat, z2: nat, x3: nat, z3: nat) returns (rx2: nat, rz2: nat, rx3: nat, rz3: nat)
    requires z2 < P && z3 < P
    ensures Pair(rx2, rz2, rx3, rz3) == Step(x1, Pair(x2, z2, x3, z3))
  {
    EndsCong(x2, z2, P);
    EndsCong(x3, z3, P);
    var a := (x2 + z2) % P;
    var aa := a * a % P;
    var b := Minus(x2, z2, P);
    var bb := b * b % P;
    var e := Minus(aa, bb, P);
    var c := (x3 + z3) % P;
    var d := Minus(x3, z3, P);
    var da := d * a % P;
    var cb := c * b % P;
    var dacb := (da + cb) % P;
    var dacbm := Minus(da, cb, P);
    rx3 := dacb * dacb % P;
    rz3 := x1 * dacbm * dacbm % P;
    rx2 := aa * bb % P;
    rz2 := e * (aa + A24 * e) % P;
    TimesCong(a, a, x2 + z2, x2 + z2, P);
    TimesCong(b, b, x2 - z2, x2 - z2, P);
    DoubleCong(aa, bb, e, x2, z2, P);
    TimesCong(d, a, x3 - z3, x2 + z2, P);
    TimesCong(c, b, x3 + z3, x2 - z2, P);
    AddCong(da, cb, x1, x2, z2, x3, z3, P);
  }

  /* ---- Scalars and coordinates ---- */

  const TOP_BIT: nat := 0x80000000_00000000_00000000_00000000_00000000_00000000_00000000_00000000

  // Clears the high bit.
  function UOf(u: seq<byte>): nat { LeToN(u) % TOP_BIT }

  method DecodeU(u: seq<byte>) returns (n: nat)
    requires |u| == 32
    ensures n == UOf(u)
  {
    var top := u[31] % 128;
    n := LeToNumber(u[31 := top]);
    TopCleared(u);
  }

  lemma TopCleared(u: seq<byte>)
    requires |u| == 32
    ensures LeToN(u[31 := u[31] % 128]) == UOf(u)
  {
    HighByte(u);
    HighByte(u[31 := u[31] % 128]);
    assert u[..31] == u[31 := u[31] % 128][..31];
    LeBelow(u[..31]);
    TopByte(LeToN(u[..31]), u[31]);
  }

  lemma Power31()
    ensures 128 * Pow256(31) == TOP_BIT
  {
    PowerOf32();
    assert Pow256(32) == 256 * Pow256(31);
  }

  lemma TopByte(low: nat, b: nat)
    requires low < Pow256(31) && b < 256
    ensures (low + b * Pow256(31)) % TOP_BIT == low + (b % 128) * Pow256(31)
  {
    Power31();
    var p := Pow256(31);
    var (q, r) := (b / 128, b % 128);
    assert b * p == q * (128 * p) + r * p;
    assert r * p <= 127 * p;
    ModUnique(low + b * p, TOP_BIT, q, low + r * p);
  }

  lemma HighByte(b: seq<byte>)
    requires |b| == 32
    ensures LeToN(b) == LeToN(b[..31]) + b[31] * Pow256(31)
  {
    LeSplit(b, 31);
    assert b[31..] == [b[31]];
    assert [b[31]][1..] == [];
  }

  lemma {:induction false} LeSplit(b: seq<byte>, n: nat)
    requires n <= |b|
    ensures LeToN(b) == LeToN(b[..n]) + LeToN(b[n..]) * Pow256(n)
    decreases n
  {
    if n > 0 {
      LeSplit(b[1..], n - 1);
      assert b[1..][..n - 1] == b[..n][1..] && b[1..][n - 1..] == b[n..];
      Carry(b[0], LeToN(b[..n][1..]), LeToN(b[n..]), Pow256(n - 1));
    } else {
      assert b[0..] == b && b[..0] == [];
    }
  }

  lemma Carry(d: nat, low: nat, x: nat, p: nat)
    ensures d + 256 * (low + x * p) == (d + 256 * low) + x * (256 * p)
  {
  }

  // Low three bits off, top bit off, the bit below it on.
  function Clamped(sk: seq<byte>): (s: seq<byte>)
    requires |sk| == 32
    ensures |s| == 32
  {
    sk[0 := sk[0] - sk[0] % 8][31 := sk[31] % 64 + 64]
  }

  // b & 248.
  method ClearLow(b: byte) returns (r: byte)
    ensures r == b - b % 8
  {
    MaskLow(b);
    r := And(b, 248);
  }

  // b & 127.
  method ClearHigh(b: byte) returns (r: byte)
    ensures r == b % 128
  {
    MaskTop(b);
    r := And(b, 127);
  }

  // b | 64, for a byte whose high bit is clear.
  method SetSecond(b: byte) returns (r: byte)
    requires b < 128
    ensures r == b % 64 + 64
  {
    assert Pow2(6) == 64;
    SetBit(b, 64, 6);
    r := Or(b, 64);
  }

  method Clamp(sk: seq<byte>) returns (s: array<byte>)
    requires |sk| == 32
    ensures fresh(s) && s[..] == Clamped(sk)
  {
    s := new byte[32](i requires 0 <= i < 32 => sk[i]);
    s[0] := ClearLow(s[0]);
    s[31] := ClearHigh(s[31]);
    s[31] := SetSecond(s[31]);
    assert sk[31] % 128 % 64 == sk[31] % 64;
  }

  lemma MaskLow(b: byte)
    ensures And(b, 248) == b - b % 8
  {
    AndEven(b, 124);
    AndEven(b / 2, 62);
    AndEven(b / 2 / 2, 31);
    assert b / 2 / 2 / 2 == b / 8;
    LowFive(b / 8);
  }

  lemma LowFive(c: nat)
    requires c < 32
    ensures And(c, 31) == c
  {
    assert Pow2(5) == 32;
    AndLow(c, 5);
  }

  lemma MaskTop(b: byte)
    ensures And(b, 127) == b % 128
  {
    assert Pow2(7) == 128;
    AndLow(b, 7);
  }

  lemma SetBit(x: nat, p: nat, k: nat)
    requires p == Pow2(k) && x < 2 * p
    ensures Or(x, p) == x % p + p
  {
    if x < p {
      OrIsSum(x, 1, k);
      ModUnique(x, p, 0, x);
    } else {
      OrKeeps(x - p, k);
      ModUnique(x, p, 1, x - p);
    }
  }

  // A bit that is set already stays set.
  lemma {:induction false} OrKeeps(x: nat, k: nat)
    requires x < Pow2(k)
    ensures Or(x + Pow2(k), Pow2(k)) == x + Pow2(k)
    decreases k
  {
    if k == 0 {
      assert Or(0, 0) == 0;
    } else {
      OrKeeps(x / 2, k - 1);
    }
  }

  // A clamped scalar is a multiple of 8 between 2 to the 254th and the 255th,
  // with all other bits as given.
  lemma ClampMeans(sk: seq<byte>)
    requires |sk| == 32
    ensures var s := Clamped(sk);
            && s[1..31] == sk[1..31] && s[0] / 8 == sk[0] / 8 && s[31] % 64 == sk[31] % 64
            && LeToN(s) % 8 == 0 && TOP_BIT <= 2 * LeToN(s) && LeToN(s) < TOP_BIT
  {
    var s := Clamped(sk);
    HighByte(s);
    LeBelow(s[..31]);
    Power31();
    TopBounds(LeToN(s[..31]), s[31], Pow256(31));
    Multiple8(s[0] / 8, LeToN(s[1..]));
  }

  lemma Multiple8(a: nat, n: nat)
    ensures (8 * a + 256 * n) % 8 == 0
  {
    ModUnique(8 * a + 256 * n, 8, a + 32 * n, 0);
  }

  lemma TopBounds(low: nat, b: nat, p: nat)
    requires low < p && 64 <= b <= 127
    ensures 128 * p <= 2 * (low + b * p) && low + b * p < 128 * p
  {
    assert 64 * p <= b * p <= 127 * p;
  }

  function X25519Of(sk: seq<byte>, u: seq<byte>): seq<byte>
    requires |sk| == 32 == |u|
  {
    var s := Ladder(UOf(u), LeToN(Clamped(sk)), 255, 255);
    NToLe(s.x2 * (Pow(s.z2, P - 2) % P))
  }

  // out is the affine coordinate of the k-th multiple, as R tells them.
  ghost predicate IsMultiple(R: (nat, nat, nat) -> bool, k: nat, out: seq<byte>) {
    exists x: nat, z: nat :: R(k, x, z) && out == NToLe(x * (Pow(z, P - 2) % P))
  }

  lemma MultipleOf(R: (nat, nat, nat) -> bool, sk: seq<byte>, u: seq<byte>)
    requires |sk| == 32 == |u| && Multiples(R, UOf(u))
    ensures IsMultiple(R, LeToN(Clamped(sk)), X25519Of(sk, u))
  {
    ClampMeans(sk);
    ScalarMultiple(R, UOf(u), LeToN(Clamped(sk)), 255);
  }

  method ComputeX25519(sk: seq<byte>, u: seq<byte>) returns (out: array<byte>)
    requires |sk| == 32 == |u|
    ensures out[..] == X25519Of(sk, u)
    ensures forall R: (nat, nat, nat) -> bool :: Multiples(R, UOf(u)) ==> IsMultiple(R, LeToN(Clamped(sk)), out[..])
  {
    forall R: (nat, nat, nat) -> bool | Multiples(R, UOf(u))
      ensures IsMultiple(R, LeToN(Clamped(sk)), X25519Of(sk, u))
    {
      MultipleOf(R, sk, u);
    }
    var s := Clamp(sk);
    var x1 := DecodeU(u);
    var k := LeToNumber(s[..]);
    var x2, z2 := RunLadder(x1, k);
    var inv := ModInv(z2);
    NotNegative(x2, inv);
    var n: nat := x2 * inv;
    SameField(n);
    out := NumberToLe(n % P);
  }

  lemma SameField(n: nat)
    ensures n % P >= 0 && NToLe(n % P) == NToLe(n)
  {
    ModUnique(n % P, P, 0, n % P);
  }

  const BASE: seq<byte> := [9] + seq(31, _ => 0)

  lemma {:induction false} LeZeros(n: nat)
    ensures LeToN(seq(n, _ => 0 as byte)) == 0
    decreases n
  {
    if n > 0 {
      assert seq(n, _ => 0 as byte)[1..] == seq(n - 1, _ => 0 as byte);
      LeZeros(n - 1);
    }
  }

  lemma BaseIsNine()
    ensures UOf(BASE) == 9
  {
    LeZeros(31);
    assert BASE[1..] == seq(31, _ => 0 as byte);
  }

  method PublicKey(sk: seq<byte>) returns (out: array<byte>)
    requires |sk| == 32
    ensures out[..] == X25519Of(sk, BASE)
    ensures forall R: (nat, nat, nat) -> bool :: Multiples(R, 9) ==> IsMultiple(R, LeToN(Clamped(sk)), out[..])
  {
    BaseIsNine();
    out := ComputeX25519(sk, BASE);
  }
}
