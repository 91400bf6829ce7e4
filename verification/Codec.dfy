// Binary encoding (shared/codec.ts): variable-length integers, and the encoder
// and decoder that every wire and file format is written with. Strings are
// taken as their bytes.

module Codec {
  import opened Basics
  import Bits

  type bytes = seq<byte>

  // What a parser does with its input: a value and the bytes after it, or the
  // status it fails with.
  datatype Read<+T> = Got(value: T, rest: bytes) | Fail(status: Failure)
  {
    predicate IsFailure() { Fail? }

    function PropagateFailure<U>(): Read<U>
      requires Fail?
    {
      Fail(status)
    }

    function Extract(): (T, bytes)
      requires Got?
    {
      (value, rest)
    }
  }

  /* ---- Integers, seven bits at a time ---- */

  const MAX_BYTES := 8
  const LIMIT := 0x100_0000_0000_0000 // 128 to the 8th

  // Low seven bits first; the high bit says that more follow.
  function Leb(n: nat): (bs: bytes)
    ensures |bs| >= 1
  {
    if n < 128 then [n] else [n % 128 + 128] + Leb(n / 128)
  }

  function PutVarInt(n: int): Result<bytes> {
    if n < 0 then Err(InvalidParam)
    else if |Leb(n)| > MAX_BYTES then Err(VarLimitExceeded)
    else Ok(Leb(n))
  }

  // k bytes were read before.
  function Dec(s: bytes, k: nat): Read<nat> {
    if s == [] then Fail(InvalidMessage)
    else if s[0] < 128 then Got(s[0], s[1..])
    else if k + 1 >= MAX_BYTES then Fail(VarLimitExceeded)
    else
      match Dec(s[1..], k + 1)
      case Got(v, rest) => Got(s[0] - 128 + 128 * v, rest)
      case Fail(st) => Fail(st)
  }

  lemma LebStep(n: nat)
    ensures n < 128 ==> Leb(n) == [n % 128] && n / 128 == 0
    ensures n >= 128 ==> Leb(n) == [n % 128 + 128] + Leb(n / 128) && n / 128 > 0
  {
  }

  method EncodeVarInt(n0: int) returns (r: Result<bytes>)
    ensures r == PutVarInt(n0)
  {
    if n0 < 0 { return Err(InvalidParam); }
    var n: nat := n0;
    var bs: bytes := [];
    while n > 0
      invariant n > 0 ==> bs + Leb(n) == Leb(n0)
      invariant n == 0 ==> bs == if n0 > 0 then Leb(n0) else []
    {
      LebStep(n);
      var b := n % 128;
      n := n / 128;
      bs := bs + [if n > 0 then b + 128 else b];
    }
    if |bs| == 0 { return Ok([0]); }
    if |bs| > MAX_BYTES { return Err(VarLimitExceeded); }
    r := Ok(bs);
  }

  // What the loop makes of the rest of the input.
  function Scaled(d: Read<nat>, result: nat, unit: nat): Read<nat> {
    match d
    case Fail(st) => Fail(st)
    case Got(v, rest) => Got(result + unit * v, rest)
  }

  lemma ScaleOnce(d: Read<nat>, low: nat, result: nat, unit: nat)
    ensures Scaled(match d case Fail(st) => Fail(st) case Got(v, rest) => Got(low + 128 * v, rest), result, unit) ==
            Scaled(d, result + unit * low, unit * 128)
  {
    if d.Got? {
      var v := d.value;
      assert unit * (low + 128 * v) == unit * low + unit * 128 * v;
    }
  }

  // The decoding loop. It gives up before a ninth byte, so the source's second
  // length check never fires. The bits of each byte are new to result, so
  // adding them is what the source's bitwise or does.
  method DecodeVarInt(s: bytes, offset: nat) returns (r: Result<(nat, nat)>)
    requires offset <= |s|
    ensures match Dec(s[offset..], 0)
            case Fail(st) => r == Err(st)
            case Got(v, rest) => r.Ok? && r.value.0 == v && offset + r.value.1 <= |s| && rest == s[offset + r.value.1..]
  {
    var result: nat, unit: nat, i := 0, 1, offset;
    while true
      invariant offset <= i <= |s| && i - offset < MAX_BYTES
      invariant Dec(s[offset..], 0) == Scaled(Dec(s[i..], i - offset), result, unit)
      decreases |s| - i
    {
      if i >= |s| { return Err(InvalidMessage); }
      var b := s[i];
      ghost var tail := Dec(s[i + 1..], i + 1 - offset);
      assert s[i..][1..] == s[i + 1..];
      ghost var low: nat := if b < 128 then b else b - 128;
      assert b % 128 == low;
      ScaleOnce(tail, low, result, unit);
      i := i + 1;
      result := result + unit * (b % 128);
      if b < 128 {
        return Ok((result, i - offset));
      }
      unit := unit * 128;
      if i - offset >= MAX_BYTES { return Err(VarLimitExceeded); }
    }
  }

  // Decoding gives back what was encoded, and stops where it ended.
  lemma {:induction false} DecLeb(n: nat, k: nat, t: bytes)
    requires |Leb(n)| + k <= MAX_BYTES
    ensures Dec(Leb(n) + t, k) == Got(n, t)
    decreases n
  {
    if n >= 128 {
      DecLeb(n / 128, k + 1, t);
      assert (Leb(n) + t)[1..] == Leb(n / 128) + t;
    } else {
      assert (Leb(n) + t)[1..] == t;
    }
  }

  // The number without its lowest i groups of seven bits.
  function Without(n: nat, i: nat): nat { if i == 0 then n else Without(n / 128, i - 1) }

  // Byte i holds the i-th lowest group of seven bits, with the high bit set on
  // every byte but the last; nothing is left after it, and no byte is idle.
  lemma {:induction false} LebMeans(n: nat, i: nat)
    requires i < |Leb(n)|
    ensures Leb(n)[i] % 128 == Without(n, i) % 128 && (Leb(n)[i] >= 128 <==> i < |Leb(n)| - 1)
    ensures Without(n, |Leb(n)|) == 0 && (|Leb(n)| > 1 ==> Without(n, |Leb(n)| - 1) > 0)
    decreases n
  {
    if n >= 128 { LebMeans(n / 128, if i == 0 then 0 else i - 1); }
  }

  // The first n bytes are one integer: all but the last have the high bit, and
  // byte i holds the i-th lowest group of seven bits.
  ghost predicate Spells(s: bytes, n: nat, v: nat) {
    && 0 < n <= |s| && s[n - 1] < 128 && (forall i :: 0 <= i < n - 1 ==> s[i] >= 128)
    && Without(v, n) == 0 && forall i :: 0 <= i < n ==> Without(v, i) % 128 == s[i] % 128
  }

  predicate AllHigh(s: bytes, n: nat) { n <= |s| && forall i :: 0 <= i < n ==> s[i] >= 128 }

  // Reading stops at the first byte without the high bit. It fails with
  // InvalidMessage if the input ends before, and with VarLimitExceeded if eight
  // bytes in all do not have such a one.
  lemma {:induction false} DecMeans(s: bytes, k: nat)
    requires k < MAX_BYTES
    ensures match Dec(s, k)
            case Got(v, rest) =>
              |rest| < |s| <= |rest| + MAX_BYTES - k && rest == s[|s| - |rest|..] && Spells(s, |s| - |rest|, v)
            case Fail(InvalidMessage) => |s| < MAX_BYTES - k && AllHigh(s, |s|)
            case Fail(st) => st == VarLimitExceeded && AllHigh(s, MAX_BYTES - k)
    decreases |s|
  {
    if s != [] && s[0] >= 128 && k + 1 < MAX_BYTES {
      var t := s[1..];
      DecMeans(t, k + 1);
      assert s == [s[0]] + t;
      if Dec(t, k + 1).Got? {
        var (v, rest) := (Dec(t, k + 1).value, Dec(t, k + 1).rest);
        SpellsMore(s[0], t, |t| - |rest|, v);
      }
    } else if s != [] && s[0] < 128 {
      assert Without(s[0], 1) == Without(s[0] / 128, 0) == 0;
    }
  }

  lemma SpellsMore(b: byte, s: bytes, n: nat, v: nat)
    requires Spells(s, n, v) && b >= 128
    ensures Spells([b] + s, n + 1, b - 128 + 128 * v)
  {
    var w := b - 128 + 128 * v;
    assert w / 128 == v && w % 128 == b - 128;
    forall i | 0 <= i < n + 1
      ensures Without(w, i) % 128 == ([b] + s)[i] % 128
    {
      if i > 0 { assert Without(w, i) == Without(v, i - 1); }
    }
  }

  function Pow128(k: nat): nat { if k == 0 then 1 else 128 * Pow128(k - 1) }

  lemma {:induction false} LebLength(n: nat, k: nat)
    requires k > 0
    ensures |Leb(n)| <= k <==> n < Pow128(k)
    decreases k
  {
    if k > 1 {
      if n >= 128 {
        LebLength(n / 128, k - 1);
      } else {
        Pow128Grows(k - 1);
      }
    }
  }

  lemma {:induction false} Pow128Grows(k: nat)
    ensures Pow128(k) >= 1
  {
    if k > 0 { Pow128Grows(k - 1); }
  }

  // An integer is encodable exactly when it is natural and below 2 to the 56th.
  lemma PutVarIntExactly(n: int)
    ensures PutVarInt(n).Ok? <==> 0 <= n < LIMIT
  {
    if n >= 0 { LebLength(n, 8); }
    assert Pow128(8) == LIMIT by {
      assert Pow128(4) == 128 * 128 * 128 * 128;
      assert Pow128(8) == 128 * (128 * (128 * (128 * Pow128(4))));
    }
  }

  // No encoding is a proper prefix of another's.
  lemma {:induction false} LebPrefixFree(a: nat, b: nat, s: bytes, t: bytes)
    requires Leb(a) + s == Leb(b) + t
    ensures a == b && s == t
    decreases a
  {
    assert (Leb(a) + s)[0] == (Leb(b) + t)[0];
    if a >= 128 && b >= 128 {
      assert (Leb(a) + s)[1..] == Leb(a / 128) + s;
      assert (Leb(b) + t)[1..] == Leb(b / 128) + t;
      LebPrefixFree(a / 128, b / 128, s, t);
    } else {
      assert (Leb(a) + s)[1..] == s && (Leb(b) + t)[1..] == t;
    }
  }

  /* ---- Double precision ---- */

  const EXACT := 0x20_0000_0000_0000 // 2 to the 53rd

  // Distance between neighbouring doubles at v.
  function Ulp(v: nat): (u: nat)
    ensures u > 0
    decreases v
  {
    if v < EXACT then 1 else 2 * Ulp(v / 2)
  }

  // Integers that a double holds.
  predicate IsDouble(v: nat) { v % Ulp(v) == 0 }

  // Number(v): the nearest double, ties to the even one.
  function ToNumber(v: nat): nat {
    var u := Ulp(v);
    var (q, r) := (v / u, v % u);
    if 2 * r < u || (2 * r == u && q % 2 == 0) then q * u else (q + 1) * u
  }

  lemma ToNumberExactly(v: nat)
    ensures ToNumber(v) == v <==> IsDouble(v)
    ensures v < EXACT ==> IsDouble(v)
  {
    var u := Ulp(v);
    var (q, r) := (v / u, v % u);
    assert v == q * u + r;
    assert (q + 1) * u == q * u + u;
  }

  // readVarInt.
  function GetVarInt(s: bytes): Read<nat> {
    var (v, rest) :- Dec(s, 0);
    Got(ToNumber(v), rest)
  }

  lemma TwiceDouble(v: nat)
    requires IsDouble(v)
    ensures IsDouble(2 * v)
  {
    var u := Ulp(v);
    var k := v / u;
    assert 2 * v == k * (2 * u);
    assert 2 * v / 2 == v;
    if 2 * v >= EXACT { Bits.ModUnique(2 * v, 2 * u, k, 0); }
  }

  // The doubles next to v, below and above, are doubles.
  lemma {:induction false} NextDouble(v: nat, k: nat, u: nat)
    requires u == Ulp(v) && (k == v / u || k == v / u + 1)
    ensures IsDouble(k * u)
    decreases v
  {
    if v < EXACT {
      SmallDouble(k);
    } else {
      Halved(v, Ulp(v / 2));
      NextDouble(v / 2, k, Ulp(v / 2));
      Twofold(k, Ulp(v / 2));
    }
  }

  lemma Twofold(k: nat, u: nat)
    requires IsDouble(k * u)
    ensures IsDouble(k * (2 * u))
  {
    TwiceDouble(k * u);
    assert k * (2 * u) == 2 * (k * u);
  }

  lemma SmallDouble(k: nat)
    requires k <= EXACT
    ensures IsDouble(k)
  {
    if k == EXACT { TwiceDouble(EXACT / 2); }
  }

  lemma Halved(v: nat, u: nat)
    requires u > 0
    ensures v / (2 * u) == v / 2 / u
  {
    var (q, r) := (v / 2 / u, v / 2 % u);
    assert v == q * (2 * u) + (2 * r + v % 2);
    Bits.ModUnique(v, 2 * u, q, 2 * r + v % 2);
  }

  // What a read gives is a double.
  lemma ReadsDouble(v: nat)
    ensures IsDouble(ToNumber(v))
  {
    NextDouble(v, v / Ulp(v), Ulp(v));
    NextDouble(v, v / Ulp(v) + 1, Ulp(v));
  }

  // A number reads back as itself exactly when it was one: every integer that
  // a double holds survives, beyond 2 to the 53rd too.
  lemma VarIntRoundTrip(n: nat, t: bytes)
    requires PutVarInt(n).Ok?
    ensures GetVarInt(PutVarInt(n).value + t) == Got(n, t) <==> IsDouble(n)
  {
    DecLeb(n, 0, t);
    ToNumberExactly(n);
  }

  /* ---- Byte strings ---- */

  function GetBytes(s: bytes, n: int): Read<bytes> {
    if n < 0 then Fail(InvalidParam) else if n > |s| then Fail(OutOfBounds) else Got(s[..n], s[n..])
  }

  function PutVarBytes(b: bytes): Result<bytes> {
    var len :- PutVarInt(|b|);
    Ok(len + b)
  }

  function GetVarBytes(s: bytes): Read<bytes> {
    var (len, s1) :- GetVarInt(s);
    GetBytes(s1, len)
  }

  // No buffer is longer than the largest exact integer.
  predicate Fits(b: bytes) { |b| < EXACT }

  lemma VarBytesRoundTrip(b: bytes, t: bytes)
    requires Fits(b)
    ensures PutVarBytes(b).Ok? && GetVarBytes(PutVarBytes(b).value + t) == Got(b, t)
  {
    PutVarIntExactly(|b|);
    VarIntRoundTrip(|b|, b + t);
    ToNumberExactly(|b|);
    assert PutVarBytes(b).value + t == Leb(|b|) + (b + t);
    assert (b + t)[..|b|] == b && (b + t)[|b|..] == t;
  }

  function PutAll(strs: seq<bytes>): Result<bytes> {
    if strs == [] then Ok([])
    else
      var first :- PutVarBytes(strs[0]);
      var rest :- PutAll(strs[1..]);
      Ok(first + rest)
  }

  function PutVarStrings(strs: seq<bytes>): Result<bytes> {
    var n :- PutVarInt(|strs|);
    var all :- PutAll(strs);
    Ok(n + all)
  }

  function GetAll(s: bytes, n: nat): Read<seq<bytes>>
    decreases n
  {
    if n == 0 then Got([], s)
    else
      var (first, s1) :- GetVarBytes(s);
      var (more, s2) :- GetAll(s1, n - 1);
      Got([first] + more, s2)
  }

  // Each string takes a byte at least, so a larger count is invalid.
  function GetVarStrings(s: bytes): Read<seq<bytes>> {
    var (n, s1) :- GetVarInt(s);
    if n > |s1| then Fail(InvalidMessage) else GetAll(s1, n)
  }

  lemma Regroup(a: bytes, b: bytes, t: bytes)
    ensures (a + b) + t == a + (b + t)
  {
  }

  // One string in front of a list that reads back.
  lemma OneMoreRoundTrip(first: bytes, strs: seq<bytes>, rest: bytes, t: bytes)
    requires Fits(first) && PutAll(strs) == Ok(rest) && GetAll(rest + t, |strs|) == Got(strs, t)
    ensures PutVarBytes(first).Ok? && |PutVarBytes(first).value| >= 1
    ensures GetAll(PutVarBytes(first).value + rest + t, |strs| + 1) == Got([first] + strs, t)
  {
    VarBytesRoundTrip(first, rest + t);
    Regroup(PutVarBytes(first).value, rest, t);
  }

  lemma {:induction false} AllRoundTrip(strs: seq<bytes>, t: bytes)
    requires forall x :: x in strs ==> Fits(x)
    ensures PutAll(strs).Ok? && |PutAll(strs).value| >= |strs|
    ensures GetAll(PutAll(strs).value + t, |strs|) == Got(strs, t)
    decreases |strs|
  {
    if strs == [] {
      assert [] + t == t;
    } else {
      AllRoundTrip(strs[1..], t);
      OneMoreRoundTrip(strs[0], strs[1..], PutAll(strs[1..]).value, t);
      assert strs == [strs[0]] + strs[1..];
    }
  }

  lemma VarStringsRoundTrip(strs: seq<bytes>, t: bytes)
    requires |strs| < EXACT && forall x :: x in strs ==> Fits(x)
    ensures PutVarStrings(strs).Ok? && GetVarStrings(PutVarStrings(strs).value + t) == Got(strs, t)
  {
    PutVarIntExactly(|strs|);
    AllRoundTrip(strs, t);
    var all := PutAll(strs).value;
    VarIntRoundTrip(|strs|, all + t);
    ToNumberExactly(|strs|);
    Regroup(Leb(|strs|), all, t);
  }
}
