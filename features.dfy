/** Bytes and their lower-case hexadecimal rendering (Node's `buffer.toString('hex')`). */
module Bytes {
  newtype Byte = x: int | 0 <= x < 256

  function HexDigit(d: int): char
    requires 0 <= d < 16
  {
    if d < 10 then ('0' as int + d) as char else ('a' as int + d - 10) as char
  }

  function HexValue(c: char): (v: int)
    ensures IsHexChar(c) <==> 0 <= v < 16
    ensures 0 <= v < 16 ==> HexDigit(v) == c
  {
    if '0' <= c <= '9' then c as int - '0' as int
    else if 'a' <= c <= 'f' then c as int - 'a' as int + 10
    else -1
  }

  predicate IsHexChar(c: char)
  {
    '0' <= c <= '9' || 'a' <= c <= 'f'
  }

  function HexEncode(bs: seq<Byte>): (s: string)
    ensures |s| == 2 * |bs|
    ensures forall i :: 0 <= i < |s| ==> IsHexChar(s[i])
  {
    if bs == [] then []
    else [HexDigit(bs[0] as int / 16), HexDigit(bs[0] as int % 16)] + HexEncode(bs[1..])
  }

  function HexDecode(s: string): seq<Byte>
    requires |s| % 2 == 0 && forall i :: 0 <= i < |s| ==> IsHexChar(s[i])
  {
    if s == [] then []
    else [(16 * HexValue(s[0]) + HexValue(s[1])) as Byte] + HexDecode(s[2..])
  }

  /** Hex encoding loses nothing: decoding gives the bytes back. */
  lemma {:induction false} HexRoundTrip(bs: seq<Byte>)
    ensures HexDecode(HexEncode(bs)) == bs
  {
    if bs != [] {
      var s := HexEncode(bs);
      assert s[2..] == HexEncode(bs[1..]);
      HexRoundTrip(bs[1..]);
    }
  }

  /** Different byte strings have different renderings. */
  lemma HexInjective(a: seq<Byte>, b: seq<Byte>)
    requires HexEncode(a) == HexEncode(b)
    ensures a == b
  {
    HexRoundTrip(a);
    HexRoundTrip(b);
  }
}

/** The feature record both TypeScript matchers derive from a sha256 digest of the raw capture. */
module BiometricFeatures {
  import opened Wrappers
  import opened Bytes

  datatype MinutiaKind = RidgeEnding | Bifurcation

  datatype Minutia = Minutia(x: int, y: int, angle: real, kind: MinutiaKind)

  datatype RidgeType = Loop | Whorl | Arch

  datatype RidgePattern = RidgePattern(kind: RidgeType, density: real, flow: string)

  /** `quality` is `None` where the source computes NaN (the variance of an empty buffer). */
  datatype Features = Features(minutiae: seq<Minutia>, ridge: RidgePattern, quality: Option<real>)

  const DigestLength: nat := 32

  function KindOf(b: Byte): MinutiaKind
  {
    if b % 2 == 0 then RidgeEnding else Bifurcation
  }

  /** `extractRidgePattern`, shared verbatim by both matchers. */
  function RidgeOf(hash: seq<Byte>): (r: RidgePattern)
    requires |hash| == DigestLength
    ensures 0.0 <= r.density <= 1.0
    ensures |r.flow| == 16
  {
    var kinds := [Loop, Whorl, Arch];
    RidgePattern(kinds[hash[0] as int % 3], hash[1] as real / 255.0, HexEncode(hash[2..10]))
  }

  /** Population variance of a byte buffer: NaN (None) when it is empty. */
  function Variance(data: seq<Byte>): (v: Option<real>)
    ensures data != [] <==> v.Some?
    ensures v.Some? ==> v.value >= 0.0
  {
    if data == [] then None
    else
      var n := |data| as real;
      var mean := SumBytes(data) / n;
      SquaresNonneg(data, mean);
      Some(SumSquares(data, mean) / n)
  }

  function SumBytes(data: seq<Byte>): real
  {
    if data == [] then 0.0 else data[0] as real + SumBytes(data[1..])
  }

  function SumSquares(data: seq<Byte>, mean: real): real
  {
    if data == [] then 0.0 else (data[0] as real - mean) * (data[0] as real - mean) + SumSquares(data[1..], mean)
  }

  lemma {:induction false} SquaresNonneg(data: seq<Byte>, mean: real)
    ensures SumSquares(data, mean) >= 0.0
  {
    if data != [] {
      SquaresNonneg(data[1..], mean);
      var d := data[0] as real - mean;
      assert d * d >= 0.0 by {
        if d < 0.0 { assert d * d == (-d) * (-d); }
      }
    }
  }

  lemma RatioInUnit(a: nat, b: nat)
    requires 0 < b && a <= b
    ensures 0.0 <= a as real / b as real <= 1.0
  {
    assert a as real / b as real * b as real == a as real;
  }

  lemma DivSelf(n: real)
    requires n > 0.0
    ensures n / n == 1.0
  {
  }

  /** The `Math.min(1, variance / 1000)` both matchers use. */
  function VarianceQuality(v: real): (q: real)
    requires v >= 0.0
    ensures 0.0 <= q <= 1.0
    ensures v >= 1000.0 <==> q == 1.0
  {
    if 1.0 <= v / 1000.0 then 1.0 else v / 1000.0
  }
}
