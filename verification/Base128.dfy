// Bytes as seven-bit symbols and back, through a bit buffer
// (shared/binary.ts). The specification is the stream of bits, lowest first.

module Base128 {
  import opened Basics
  import opened Bits

  type bits = seq<bool>

  function Bit(b: bool): nat { if b then 1 else 0 }

  // The number that some bits stand for.
  function Num(b: bits): nat { if b == [] then 0 else Bit(b[0]) + 2 * Num(b[1..]) }

  // The lowest w bits of a number.
  function BitsOf(x: nat, w: nat): (b: bits)
    ensures |b| == w
  {
    if w == 0 then [] else [x % 2 == 1] + BitsOf(x / 2, w - 1)
  }

  // w bits of each number, one after the other.
  function Stream(xs: seq<nat>, w: nat): (b: bits)
    ensures |b| == w * |xs|
  {
    if xs == [] then [] else Stream(xs[..|xs| - 1], w) + BitsOf(xs[|xs| - 1], w)
  }

  // Pieces of w bits; a shorter one at the end counts too.
  function Pieces(b: bits, w: nat): seq<nat>
    requires w > 0
  {
    if b == [] then [] else if |b| < w then [Num(b)] else [Num(b[..w])] + Pieces(b[w..], w)
  }

  // Whole pieces only.
  function WholePieces(b: bits, w: nat): seq<nat>
    requires w > 0
  {
    if |b| < w then [] else [Num(b[..w])] + WholePieces(b[w..], w)
  }

  function Wide(bs: seq<byte>): seq<nat> { seq(|bs|, i requires 0 <= i < |bs| => bs[i] as nat) }

  function Encode(bs: seq<byte>): seq<nat> { Pieces(Stream(Wide(bs), 8), 7) }

  function Decode(codes: seq<nat>): Result<seq<nat>> {
    if exists c :: c in codes && c > 127 then Err(InvalidParam) else Ok(WholePieces(Stream(codes, 7), 8))
  }

  /* ---- Bits and numbers ---- */

  lemma {:induction false} NumBelow(b: bits)
    ensures Num(b) < Pow2(|b|)
    decreases |b|
  {
    if b != [] { NumBelow(b[1..]); }
  }

  lemma TwiceOf(x: nat, k: nat)
    ensures 2 * (x * Pow2(k)) == x * Pow2(k + 1)
  {
    assert Pow2(k + 1) == 2 * Pow2(k);
  }

  lemma {:induction false} NumConcat(a: bits, b: bits)
    ensures Num(a + b) == Num(a) + Num(b) * Pow2(|a|)
    decreases |a|
  {
    if a == [] {
      assert a + b == b;
    } else {
      NumConcat(a[1..], b);
      assert (a + b)[1..] == a[1..] + b;
      TwiceOf(Num(b), |a| - 1);
    }
  }

  lemma {:induction false} NumOfBits(x: nat, w: nat)
    requires x < Pow2(w)
    ensures Num(BitsOf(x, w)) == x
    decreases w
  {
    if w > 0 { NumOfBits(x / 2, w - 1); }
  }

  lemma {:induction false} BitsOfNum(b: bits)
    ensures BitsOf(Num(b), |b|) == b
    decreases |b|
  {
    if b != [] { BitsOfNum(b[1..]); }
  }

  // Too few bits read as if zeros followed.
  lemma {:induction false} BitsOfShort(b: bits, w: nat)
    requires |b| <= w
    ensures BitsOf(Num(b), w) == b + seq(w - |b|, _ => false)
    decreases w
  {
    if b == [] {
      ZeroBits(w);
    } else {
      BitsOfShort(b[1..], w - 1);
    }
  }

  lemma {:induction false} ZeroBits(w: nat)
    ensures BitsOf(0, w) == seq(w, _ => false)
  {
    if w > 0 { ZeroBits(w - 1); }
  }

  /* ---- Streams and pieces ---- */

  lemma Join(a: bits, b: bits, c: bits)
    ensures (a + b) + c == a + (b + c)
  {
  }

  lemma {:induction false} StreamConcat(xs: seq<nat>, ys: seq<nat>, w: nat)
    ensures Stream(xs + ys, w) == Stream(xs, w) + Stream(ys, w)
    decreases |ys|
  {
    if ys == [] {
      assert xs + ys == xs;
    } else {
      assert (xs + ys)[..|xs + ys| - 1] == xs + ys[..|ys| - 1];
      StreamConcat(xs, ys[..|ys| - 1], w);
      Join(Stream(xs, w), Stream(ys[..|ys| - 1], w), BitsOf(ys[|ys| - 1], w));
    }
  }

  lemma StreamOne(x: nat, w: nat)
    ensures Stream([x], w) == BitsOf(x, w)
  {
    assert [x][..0] == [];
  }

  predicate Below(xs: seq<nat>, w: nat) { forall i :: 0 <= i < |xs| ==> xs[i] < Pow2(w) }

  function Zeros(n: nat): bits { seq(n, _ => false) }

  // Zeros that fill the last piece.
  function Pad(b: bits, w: nat): nat
    requires w > 0
  {
    if b == [] then 0 else if |b| < w then w - |b| else Pad(b[w..], w)
  }

  lemma {:induction false} PadBelow(b: bits, w: nat)
    requires w > 0
    ensures Pad(b, w) < w
    decreases |b|
  {
    if |b| >= w { PadBelow(b[w..], w); }
  }

  lemma {:induction false} PiecesBelow(b: bits, w: nat)
    requires w > 0
    ensures Below(Pieces(b, w), w)
    decreases |b|
  {
    if 0 < |b| < w {
      NumShort(b, w);
    } else if b != [] {
      NumBelow(b[..w]);
      PiecesBelow(b[w..], w);
    }
  }

  lemma AtLeastOnce(a: nat, k: nat)
    requires k >= 1
    ensures a <= a * k
  {
    NotNegative(a, k - 1);
    assert a * k == a * (k - 1) + a;
  }

  lemma NumShort(b: bits, w: nat)
    requires |b| <= w
    ensures Num(b) < Pow2(w)
  {
    NumBelow(b);
    Pow2Add(|b|, w - |b|);
    AtLeastOnce(Pow2(|b|), Pow2(w - |b|));
  }

  lemma StreamCons(x: nat, more: seq<nat>, w: nat)
    ensures Stream([x] + more, w) == BitsOf(x, w) + Stream(more, w)
  {
    StreamConcat([x], more, w);
    StreamOne(x, w);
  }

  // Pieces hold their bits, and zeros up to a whole last piece.
  lemma {:induction false} StreamOfPieces(b: bits, w: nat)
    requires w > 0
    ensures Stream(Pieces(b, w), w) == b + Zeros(Pad(b, w))
    decreases |b|
  {
    if b == [] {
    } else if |b| < w {
      StreamOne(Num(b), w);
      BitsOfShort(b, w);
    } else {
      var (head, tail) := (b[..w], b[w..]);
      StreamOfPieces(tail, w);
      StreamCons(Num(head), Pieces(tail, w), w);
      BitsOfNum(head);
      Join(head, tail, Zeros(Pad(tail, w)));
      assert b == head + tail;
    }
  }

  lemma CutFirst(x: nat, rest: bits, w: nat)
    requires x < Pow2(w)
    ensures var s := BitsOf(x, w) + rest; s[..w] == BitsOf(x, w) && s[w..] == rest && Num(s[..w]) == x
  {
    NumOfBits(x, w);
    assert (BitsOf(x, w) + rest)[..w] == BitsOf(x, w);
  }

  // Reading whole pieces of a stream gives its numbers, whatever short tail
  // follows.
  lemma {:induction false} PiecesOfStream(xs: seq<nat>, w: nat, t: bits)
    requires w > 0 && |t| < w && Below(xs, w)
    ensures WholePieces(Stream(xs, w) + t, w) == xs
    decreases |xs|
  {
    if xs == [] {
      assert Stream(xs, w) + t == t;
    } else {
      var (x, more) := (xs[0], xs[1..]);
      assert xs == [x] + more;
      StreamCons(x, more, w);
      Join(BitsOf(x, w), Stream(more, w), t);
      CutFirst(x, Stream(more, w) + t, w);
      PiecesOfStream(more, w, t);
    }
  }

  lemma {:induction false} PieceCount(b: bits, w: nat)
    requires w > 0
    ensures w * |Pieces(b, w)| >= |b| && (b != [] ==> w * (|Pieces(b, w)| - 1) < |b|)
    decreases |b|
  {
    if |b| >= w { PieceCount(b[w..], w); }
  }

  // The number with these digits, the lowest first.
  function Value(digits: seq<nat>, radix: nat): nat {
    if digits == [] then 0 else digits[0] + radix * Value(digits[1..], radix)
  }

  lemma ValueCons(x: nat, more: seq<nat>, radix: nat)
    ensures Value([x] + more, radix) == x + radix * Value(more, radix)
  {
    assert ([x] + more)[1..] == more;
  }

  lemma NumCons(x: nat, w: nat, rest: bits)
    requires x < Pow2(w)
    ensures Num(BitsOf(x, w) + rest) == x + Pow2(w) * Num(rest)
  {
    NumOfBits(x, w);
    NumConcat(BitsOf(x, w), rest);
  }

  lemma {:induction false} StreamValue(xs: seq<nat>, w: nat)
    requires Below(xs, w)
    ensures Num(Stream(xs, w)) == Value(xs, Pow2(w))
    decreases |xs|
  {
    if xs != [] {
      var (x, more) := (xs[0], xs[1..]);
      assert xs == [x] + more;
      StreamCons(x, more, w);
      NumCons(x, w, Stream(more, w));
      ValueCons(x, more, Pow2(w));
      StreamValue(more, w);
    }
  }

  lemma {:induction false} NumZeros(n: nat)
    ensures Num(Zeros(n)) == 0
    decreases n
  {
    if n > 0 {
      assert Zeros(n)[1..] == Zeros(n - 1);
      NumZeros(n - 1);
    }
  }

  // Bytes and symbols are the digits of one number, the lowest first.
  lemma SameNumber(bs: seq<byte>)
    ensures Value(Encode(bs), 128) == Value(Wide(bs), 256)
  {
    var b := Stream(Wide(bs), 8);
    assert Pow2(7) == 128 && Pow2(8) == 256;
    PiecesBelow(b, 7);
    StreamValue(Encode(bs), 7);
    StreamValue(Wide(bs), 8);
    StreamOfPieces(b, 7);
    NumConcat(b, Zeros(Pad(b, 7)));
    NumZeros(Pad(b, 7));
  }

  // Decoding an encoding gives the bytes back; each symbol is below 128, and
  // there are 8n/7 of them, rounded up.
  lemma RoundTrip(bs: seq<byte>)
    ensures Decode(Encode(bs)) == Ok(Wide(bs))
    ensures forall c :: c in Encode(bs) ==> c < 128
    ensures |Encode(bs)| == (8 * |bs| + 6) / 7
  {
    var b := Stream(Wide(bs), 8);
    assert Pow2(7) == 128 && Pow2(8) == 256;
    StreamOfPieces(b, 7);
    PiecesBelow(b, 7);
    PadBelow(b, 7);
    PiecesOfStream(Wide(bs), 8, Zeros(Pad(b, 7)));
    PieceCount(b, 7);
  }

  /* ---- The loops ---- */

  // The buffer holds, as a number, the bits that are not given out yet.
  ghost predicate Buffered(all: bits, out: seq<nat>, w: nat, buffer: bits, bits_: nat, bitCount: nat) {
    all == Stream(out, w) + buffer && bits_ == Num(buffer) && bitCount == |buffer|
  }

  lemma TakeIn(buffer: bits, d: nat, w: nat)
    requires d < Pow2(w)
    ensures Or(Num(buffer), d * Pow2(|buffer|)) == Num(buffer + BitsOf(d, w))
  {
    NumBelow(buffer);
    OrIsSum(Num(buffer), d, |buffer|);
    NumOfBits(d, w);
    NumConcat(buffer, BitsOf(d, w));
  }

  lemma GiveOut(buffer: bits, w: nat)
    requires |buffer| >= w
    ensures And(Num(buffer), Pow2(w) - 1) == Num(buffer[..w]) && Num(buffer) / Pow2(w) == Num(buffer[w..])
    ensures BitsOf(Num(buffer[..w]), w) == buffer[..w]
  {
    var (low, high) := (buffer[..w], buffer[w..]);
    assert buffer == low + high;
    NumConcat(low, high);
    NumBelow(low);
    AndLow(Num(buffer), w);
    ModUnique(Num(buffer), Pow2(w), Num(high), Num(low));
    BitsOfNum(low);
  }

  // Giving out one more number of the stream.
  lemma Given(all: bits, out: seq<nat>, w: nat, buffer: bits)
    requires all == Stream(out, w) + buffer && |buffer| >= w
    ensures all == Stream(out + [Num(buffer[..w])], w) + buffer[w..]
  {
    StreamConcat(out, [Num(buffer[..w])], w);
    StreamOne(Num(buffer[..w]), w);
    BitsOfNum(buffer[..w]);
    assert buffer == buffer[..w] + buffer[w..];
  }

  // The inner loop: as many whole numbers as the buffer holds.
  method Drain(ghost all: bits, out0: seq<nat>, w: nat, ghost buffer0: bits, bits0: nat, bitCount0: nat)
    returns (out: seq<nat>, ghost buffer: bits, bits_: nat, bitCount: nat)
    requires w > 0 && Buffered(all, out0, w, buffer0, bits0, bitCount0) && bitCount0 < 15 && Below(out0, w)
    ensures Buffered(all, out, w, buffer, bits_, bitCount) && bitCount < w && Below(out, w)
  {
    out, buffer, bits_, bitCount := out0, buffer0, bits0, bitCount0;
    while bitCount >= w
      invariant Buffered(all, out, w, buffer, bits_, bitCount) && bitCount < 15 && Below(out, w)
    {
      GiveOut(buffer, w);
      Given(all, out, w, buffer);
      NumBelow(buffer[..w]);
      out := out + [And(bits_, Pow2(w) - 1)];
      bits_ := bits_ / Pow2(w);
      bitCount := bitCount - w;
      buffer := buffer[w..];
    }
  }

  lemma Taken(xs: seq<nat>, x: nat, wIn: nat, out: seq<nat>, w: nat, buffer: bits, bits_: nat, bitCount: nat)
    requires x < Pow2(wIn) && Buffered(Stream(xs, wIn), out, w, buffer, bits_, bitCount)
    ensures Buffered(Stream(xs + [x], wIn), out, w, buffer + BitsOf(x, wIn), Or(bits_, x * Pow2(bitCount)), bitCount + wIn)
  {
    StreamConcat(xs, [x], wIn);
    StreamOne(x, wIn);
    TakeIn(buffer, x, wIn);
    Join(Stream(out, w), buffer, BitsOf(x, wIn));
  }

  // One turn of either loop: a number of wIn bits in, numbers of w bits out.
  // The buffer never reaches fifteen bits.
  method Push(ghost xs: seq<nat>, x: nat, wIn: nat, out0: seq<nat>, w: nat, ghost buffer0: bits, bits0: nat, bitCount0: nat)
    returns (out: seq<nat>, ghost buffer: bits, bits_: nat, bitCount: nat)
    requires 7 <= w <= 8 && 7 <= wIn <= 8 && w + wIn == 15 && x < Pow2(wIn)
    requires Buffered(Stream(xs, wIn), out0, w, buffer0, bits0, bitCount0) && bitCount0 < w && Below(out0, w)
    ensures Buffered(Stream(xs + [x], wIn), out, w, buffer, bits_, bitCount) && bitCount < w && Below(out, w)
  {
    Taken(xs, x, wIn, out0, w, buffer0, bits0, bitCount0);
    NotNegative(x, Pow2(bitCount0));
    bits_ := Or(bits0, x * Pow2(bitCount0));
    bitCount := bitCount0 + wIn;
    out, buffer, bits_, bitCount := Drain(Stream(xs + [x], wIn), out0, w, buffer0 + BitsOf(x, wIn), bits_, bitCount);
  }

  method Btob128(bs: seq<byte>) returns (codes: seq<nat>)
    ensures codes == Encode(bs)
  {
    codes := [];
    var bits_, bitCount := 0, 0;
    ghost var buffer: bits := [];
    assert Pow2(8) == 256;
    for i := 0 to |bs|
      invariant Buffered(Stream(Wide(bs[..i]), 8), codes, 7, buffer, bits_, bitCount) && bitCount < 7 && Below(codes, 7)
    {
      assert Wide(bs[..i + 1]) == Wide(bs[..i]) + [bs[i] as nat];
      codes, buffer, bits_, bitCount := Push(Wide(bs[..i]), bs[i], 8, codes, 7, buffer, bits_, bitCount);
    }
    assert bs[..|bs|] == bs;
    PiecesEnd(codes, buffer, 7);
    if bitCount > 0 {
      LowWhole(buffer);
      codes := codes + [And(bits_, 0x7F)];
    }
  }

  lemma LowWhole(buffer: bits)
    requires |buffer| < 7
    ensures And(Num(buffer), 0x7F) == Num(buffer)
  {
    NumShort(buffer, 7);
    AndLow(Num(buffer), 7);
    ModUnique(Num(buffer), Pow2(7), 0, Num(buffer));
  }

  // The numbers given out, and the short rest, are the pieces.
  lemma {:induction false} PiecesEnd(out: seq<nat>, buffer: bits, w: nat)
    requires |buffer| < w && Below(out, w)
    ensures Pieces(Stream(out, w) + buffer, w) == out + (if buffer == [] then [] else [Num(buffer)])
    decreases |out|
  {
    if out == [] {
      assert Stream(out, w) + buffer == buffer;
    } else {
      var (x, more) := (out[0], out[1..]);
      assert out == [x] + more;
      StreamCons(x, more, w);
      Join(BitsOf(x, w), Stream(more, w), buffer);
      CutFirst(x, Stream(more, w) + buffer, w);
      PiecesEnd(more, buffer, w);
    }
  }

  lemma OneMore(codes: seq<nat>, i: nat)
    requires i < |codes|
    ensures codes[..i + 1] == codes[..i] + [codes[i]]
  {
  }

  lemma SevenBits(c: nat)
    ensures c <= 127 <==> c < Pow2(7)
  {
    assert Pow2(7) == 128;
  }

  method B128tob(codes: seq<nat>) returns (r: Result<seq<nat>>)
    ensures r == Decode(codes)
  {
    var out: seq<nat> := [];
    var bits_, bitCount := 0, 0;
    ghost var buffer: bits := [];
    for i := 0 to |codes|
      invariant Buffered(Stream(codes[..i], 7), out, 8, buffer, bits_, bitCount) && bitCount < 8 && Below(out, 8)
      invariant forall c :: c in codes[..i] ==> c <= 127
    {
      var c := codes[i];
      OneMore(codes, i);
      if c > 127 {
        assert c in codes;
        return Err(InvalidParam);
      }
      SevenBits(c);
      out, buffer, bits_, bitCount := Push(codes[..i], c, 7, out, 8, buffer, bits_, bitCount);
    }
    assert codes[..|codes|] == codes;
    PiecesOfStream(out, 8, buffer);
    r := Ok(out);
  }
}
