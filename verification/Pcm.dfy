/** The byte stream: little-endian float32 samples, cut at arbitrary places. */
module Pcm {

  type Byte = i: int | 0 <= i < 256

  const SAMPLE_BYTES := 4

  function Word(b: seq<Byte>): nat
    requires |b| == SAMPLE_BYTES
  {
    b[0] as int + 0x100 * (b[1] as int) + 0x1_0000 * (b[2] as int) + 0x100_0000 * (b[3] as int)
  }

  /** `m * 2^e`. */
  function Scaled(m: real, e: int): real
    decreases if e < 0 then -e else e
  {
    if e == 0 then m else if e > 0 then Scaled(m * 2.0, e - 1) else Scaled(m / 2.0, e + 1)
  }

  /** The binary32 number of four bytes; NaN and the infinities (exponent 255) count as silence. */
  function Decode(b: seq<Byte>): real
    requires |b| == SAMPLE_BYTES
  {
    var w := Word(b);
    var exponent, fraction := w / 0x80_0000 % 256, w % 0x80_0000;
    var magnitude :=
      if exponent == 255 then 0.0
      else if exponent == 0 then Scaled(fraction as real, -149)
      else Scaled((0x80_0000 + fraction) as real, exponent - 150);
    if w < 0x8000_0000 then magnitude else -magnitude
  }

  /** The samples of the whole groups of four bytes. */
  function Samples(b: seq<Byte>): (s: seq<real>)
    ensures |s| == |b| / SAMPLE_BYTES
  {
    if |b| < SAMPLE_BYTES then [] else [Decode(b[..SAMPLE_BYTES])] + Samples(b[SAMPLE_BYTES..])
  }

  /** The bytes after the last whole group. */
  function Rest(b: seq<Byte>): (r: seq<Byte>)
    ensures |r| == |b| % SAMPLE_BYTES
  {
    if |b| < SAMPLE_BYTES then b else Rest(b[SAMPLE_BYTES..])
  }

  lemma FirstSample(b: seq<Byte>)
    requires |b| >= SAMPLE_BYTES
    ensures Samples(b) == [Decode(b[..SAMPLE_BYTES])] + Samples(b[SAMPLE_BYTES..]) && Rest(b) == Rest(b[SAMPLE_BYTES..])
  {}

  lemma NoSample(b: seq<Byte>)
    requires |b| < SAMPLE_BYTES
    ensures Samples(b) == [] && Rest(b) == b
  {}

  /** What one write does to the bytes held back and the samples heard. */
  datatype Stream = Stream(rest: seq<Byte>, heard: seq<real>) {
    function Write(p: seq<Byte>): Stream { Stream(Rest(rest + p), heard + Samples(rest + p)) }
  }

  function WriteAll(s: Stream, chunks: seq<seq<Byte>>): Stream
    decreases |chunks|
  {
    if chunks == [] then s else WriteAll(s.Write(chunks[0]), chunks[1..])
  }

  function Joined(chunks: seq<seq<Byte>>): seq<Byte> {
    if chunks == [] then [] else chunks[0] + Joined(chunks[1..])
  }

  /** Every way of cutting a stream leaves the analyzer with the same bytes held back and the same samples. */
  lemma {:induction false} ChunkingIsIrrelevant(s: Stream, chunks: seq<seq<Byte>>)
    requires |s.rest| < SAMPLE_BYTES
    ensures WriteAll(s, chunks) == s.Write(Joined(chunks))
    decreases |chunks|
  {
    if chunks == [] {
      assert s.rest + [] == s.rest;
      assert s.heard + [] == s.heard;
    } else {
      ChunkingIsIrrelevant(s.Write(chunks[0]), chunks[1..]);
      TwoWrites(s, chunks[0], Joined(chunks[1..]));
    }
  }

  lemma TwoWrites(s: Stream, p: seq<Byte>, q: seq<Byte>)
    ensures s.Write(p).Write(q) == s.Write(p + q)
  {
    SplitAnywhere(s.rest + p, q);
    hide Samples, Rest;
    assert s.rest + (p + q) == s.rest + p + q;
    assert s.heard + Samples(s.rest + p) + Samples(Rest(s.rest + p) + q) == s.heard + (Samples(s.rest + p) + Samples(Rest(s.rest + p) + q));
  }

  lemma {:induction false} SplitAnywhere(a: seq<Byte>, b: seq<Byte>)
    ensures Samples(a + b) == Samples(a) + Samples(Rest(a) + b)
    ensures Rest(a + b) == Rest(Rest(a) + b)
  {
    hide Samples, Rest, Decode;
    if |a| < SAMPLE_BYTES {
      NoSample(a);
    } else {
      var first, rest := a[..SAMPLE_BYTES], a[SAMPLE_BYTES..];
      assert (a + b)[..SAMPLE_BYTES] == first && (a + b)[SAMPLE_BYTES..] == rest + b;
      FirstSample(a);
      FirstSample(a + b);
      SplitAnywhere(rest, b);
      assert [Decode(first)] + (Samples(rest) + Samples(Rest(a) + b)) == [Decode(first)] + Samples(rest) + Samples(Rest(a) + b);
    }
  }

  // ---- what the bytes stand for ----------------------------------------

  /** The fields of a binary32 number (section 3.4 of IEEE 754): sign, biased exponent and fraction. */
  datatype Float = Float(negative: bool, exponent: nat, fraction: nat)

  ghost predicate IsFloat(f: Float) { f.exponent < 256 && f.fraction < 0x80_0000 }

  /** Sign, exponent and fraction from the highest bit to the lowest, least significant byte first. */
  function Encode(f: Float): (b: seq<Byte>)
    requires IsFloat(f)
    ensures |b| == SAMPLE_BYTES
  {
    [f.fraction % 256, f.fraction / 0x100 % 256, f.fraction / 0x1_0000 + f.exponent % 2 * 128, f.exponent / 2 + if f.negative then 128 else 0]
  }

  /** The number: `1.fraction * 2^(exponent - 127)`, without the leading 1 for exponent 0, where it is `2^-126`.
      Infinities and NaN are heard as silence. */
  function Value(f: Float): real {
    var part := f.fraction as real / 8388608.0;
    var magnitude :=
      if f.exponent == 255 then 0.0 else if f.exponent == 0 then Scaled(part, -126) else Scaled(1.0 + part, f.exponent - 127);
    if f.negative then -magnitude else magnitude
  }

  lemma {:induction false} ScaledShift(m: real, e: int)
    ensures Scaled(m * 2.0, e - 1) == Scaled(m, e)
    decreases if e < 0 then -e else e
  {
    if e <= 0 {
      assert Scaled(m * 2.0, e - 1) == Scaled(m * 2.0 / 2.0, e);
    }
  }

  function Doubled(m: real, n: nat): real
    decreases n
  {
    if n == 0 then m else Doubled(m * 2.0, n - 1)
  }

  lemma {:induction false} ScaledShifts(m: real, e: int, n: nat)
    ensures Scaled(Doubled(m, n), e - n) == Scaled(m, e)
    decreases n
  {
    if n > 0 {
      ScaledShifts(m * 2.0, e - 1, n - 1);
      ScaledShift(m, e);
    }
  }

  lemma {:induction false} DoubledIs(m: real, n: nat)
    ensures Doubled(m, n) == m * Doubled(1.0, n)
    decreases n
  {
    if n > 0 {
      DoubledIs(m * 2.0, n - 1);
      DoubledIs(2.0, n - 1);
    }
  }

  lemma Doubled23(m: real)
    ensures Doubled(m, 23) == m * 8388608.0
  {
    DoubledIs(m, 23);
    DoubledSum(1, 1);
    DoubledSum(2, 2);
    DoubledSum(4, 1);
    DoubledSum(5, 5);
    DoubledSum(10, 10);
    DoubledSum(2, 1);
    DoubledSum(20, 3);
  }

  lemma {:induction false} DoubledSum(a: nat, b: nat)
    ensures Doubled(1.0, a + b) == Doubled(1.0, a) * Doubled(1.0, b)
    ensures Doubled(1.0, 1) == 2.0
  {
    if b > 0 {
      DoubledSum(a, b - 1);
      DoubledIs(2.0, b - 1);
      DoubledIs(2.0, a + b - 1);
    }
  }

  /** Decoding the bytes of a number gives the number. */
  lemma DecodeOfEncode(f: Float)
    requires IsFloat(f)
    ensures Decode(Encode(f)) == Value(f)
  {
    WordOfEncode(f);
    var part := f.fraction as real / 8388608.0;
    Doubled23(part);
    Doubled23(1.0 + part);
    assert (1.0 + part) * 8388608.0 == (0x80_0000 + f.fraction) as real;
    ScaledShifts(part, -126, 23);
    ScaledShifts(1.0 + part, f.exponent - 127, 23);
    hide Scaled, Doubled, Encode, Word;
  }

  lemma WordOfEncode(f: Float)
    requires IsFloat(f)
    ensures var w := Word(Encode(f));
      w / 0x80_0000 % 256 == f.exponent && w % 0x80_0000 == f.fraction && (w < 0x8000_0000 <==> !f.negative)
  {
    BytesOfFraction(f.fraction);
    var q := f.exponent + if f.negative then 256 else 0;
    assert Word(Encode(f)) == f.fraction + 0x80_0000 * q;
    hide Word, Encode;
    WholeAndRest(f.fraction, q);
  }

  lemma BytesOfFraction(f: nat)
    ensures f == f % 256 + 0x100 * (f / 0x100 % 256) + 0x1_0000 * (f / 0x1_0000)
  {}

  lemma WholeAndRest(f: nat, q: nat)
    requires f < 0x80_0000
    ensures (f + 0x80_0000 * q) / 0x80_0000 == q && (f + 0x80_0000 * q) % 0x80_0000 == f
  {}

  /** Every four bytes are those of some number. */
  lemma EveryWordIsEncoded(b: seq<Byte>) returns (f: Float)
    requires |b| == SAMPLE_BYTES
    ensures IsFloat(f) && Encode(f) == b
  {
    var top, low := b[2] as int / 128, b[2] as int % 128;
    f := Float(b[3] as int >= 128, b[3] as int % 128 * 2 + top, low * 0x1_0000 + b[1] as int * 0x100 + b[0] as int);
    FractionBytes(b[0], b[1], low);
    ExponentBits(b[3] as int % 128, top);
    assert low + top * 128 == b[2] as int;
    assert b[3] as int % 128 + (if f.negative then 128 else 0) == b[3] as int;
  }

  lemma FractionBytes(a: Byte, b: Byte, low: nat)
    ensures var f := low * 0x1_0000 + b as int * 0x100 + a as int;
      f % 256 == a as int && f / 0x100 % 256 == b as int && f / 0x1_0000 == low
  {
    var f := low * 0x1_0000 + b as int * 0x100 + a as int;
    assert f == 256 * (low * 256 + b as int) + a as int;
    assert f / 256 == low * 256 + b as int;
  }

  lemma ExponentBits(x: nat, bit: nat)
    requires bit < 2
    ensures (x * 2 + bit) / 2 == x && (x * 2 + bit) % 2 == bit
  {}

  function EncodeAll(fs: seq<Float>): seq<Byte>
    requires forall f :: f in fs ==> IsFloat(f)
  {
    if fs == [] then [] else Encode(fs[0]) + EncodeAll(fs[1..])
  }

  /** What was encoded is heard, number by number, with nothing held back. */
  lemma {:induction false} StreamRoundTrip(fs: seq<Float>)
    requires forall f :: f in fs ==> IsFloat(f)
    ensures var b := EncodeAll(fs);
      Rest(b) == [] && |Samples(b)| == |fs| && forall i :: 0 <= i < |fs| ==> Samples(b)[i] == Value(fs[i])
  {
    if fs != [] {
      hide Decode, Value, Encode;
      StreamRoundTrip(fs[1..]);
      DecodeOfEncode(fs[0]);
      var b := EncodeAll(fs);
      assert b[..SAMPLE_BYTES] == Encode(fs[0]) && b[SAMPLE_BYTES..] == EncodeAll(fs[1..]);
      FirstSample(b);
    }
  }
}
