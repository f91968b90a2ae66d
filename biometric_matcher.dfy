/**
 * The matcher of the second biometric service: features from a sha256 digest, a quality
 * gate, a tolerant minutiae comparison and a ridge comparison that also looks at the flow.
 */
module BiometricMatcher {
  import opened Wrappers
  import opened Bytes
  import opened BiometricFeatures

  const MatchThreshold: real := 0.85

  /** `isMatch`: the score reaches 0.85 (inclusive). */
  function IsMatch(score: real): (b: bool)
    ensures b <==> score >= MatchThreshold
  {
    score >= MatchThreshold
  }

  /** The number of points `extractMinutiae` produces: min(20, floor(len / 3)). */
  function MinutiaeCount(len: nat): (n: nat)
    ensures n <= 20 && 3 * n <= len
    ensures n == 20 || n == len / 3
  {
    if 20 <= len / 3 then 20 else len / 3
  }

  /** The point built from bytes 3i, 3i+1, 3i+2. */
  function MinutiaAt(hash: seq<Byte>, i: nat): Minutia
    requires 3 * i + 2 < |hash|
  {
    Minutia(hash[3 * i] as int * 2, hash[3 * i + 1] as int * 2, (hash[3 * i + 2] as real * 360.0) / 255.0,
            KindOf(hash[3 * i]))
  }

  /** `extractMinutiae`. */
  method ExtractMinutiae(hash: seq<Byte>) returns (pts: seq<Minutia>)
    ensures |pts| == MinutiaeCount(|hash|)
    ensures forall i :: 0 <= i < |pts| ==> pts[i] == MinutiaAt(hash, i)
  {
    pts := [];
    var count := if 20 <= |hash| / 3 then 20 else |hash| / 3;
    var i := 0;
    while i < count
      invariant 0 <= i <= count && |pts| == i
      invariant forall k :: 0 <= k < i ==> pts[k] == MinutiaAt(hash, k)
    {
      var offset := i * 3;
      pts := pts + [Minutia(hash[offset] as int * 2, hash[offset + 1] as int * 2,
                            (hash[offset + 2] as real * 360.0) / 255.0, KindOf(hash[offset]))];
      i := i + 1;
    }
  }

  function MinutiaeOf(hash: seq<Byte>): (pts: seq<Minutia>)
    ensures |pts| == MinutiaeCount(|hash|)
  {
    seq(MinutiaeCount(|hash|), i requires 0 <= i < MinutiaeCount(|hash|) => MinutiaAt(hash, i))
  }

  /** A 32-byte digest yields 10 points, with even coordinates below 512 and angles in [0, 360]. */
  lemma DigestMinutiae(hash: seq<Byte>)
    requires |hash| == DigestLength
    ensures |MinutiaeOf(hash)| == 10
    ensures forall i :: 0 <= i < 10 ==> var m := MinutiaeOf(hash)[i];
      0 <= m.x < 512 && m.x % 2 == 0 && 0 <= m.y < 512 && 0.0 <= m.angle <= 360.0
  {
  }

  /** `assessQuality`: 0.3 under 1000 bytes, 0.9 over 100000, otherwise the variance score of the first 1000 bytes. */
  function AssessQuality(raw: seq<Byte>): (q: real)
    ensures |raw| < 1000 ==> q == 0.3
    ensures |raw| > 100000 ==> q == 0.9
    ensures 0.0 <= q <= 1.0
  {
    if |raw| < 1000 then 0.3
    else if |raw| > 100000 then 0.9
    else VarianceQuality(Variance(raw[..1000]).value)
  }

  /** `extractFeatures`, given the digest of the capture. */
  function ExtractFeatures(raw: seq<Byte>, digest: seq<Byte>): (f: Features)
    requires |digest| == DigestLength
    ensures |f.minutiae| == 10 && 0.0 <= f.ridge.density <= 1.0
    ensures f.quality.Some? && 0.0 <= f.quality.value <= 1.0
  {
    DigestMinutiae(digest);
    Features(MinutiaeOf(digest), RidgeOf(digest), Some(AssessQuality(raw)))
  }

  /** Points match within 15 pixels (squared distance under 225), 30 degrees, and of the same type. */
  predicate Near(p: Minutia, q: Minutia)
  {
    (p.x - q.x) * (p.x - q.x) + (p.y - q.y) * (p.y - q.y) < 225
    && (if p.angle >= q.angle then p.angle - q.angle else q.angle - p.angle) < 30.0
    && p.kind == q.kind
  }

  predicate HasPartner(p: Minutia, m2: seq<Minutia>)
  {
    exists j :: 0 <= j < |m2| && Near(p, m2[j])
  }

  function Matched(m1: seq<Minutia>, m2: seq<Minutia>): (n: nat)
    ensures n <= |m1|
  {
    if m1 == [] then 0
    else Matched(m1[..|m1| - 1], m2) + (if HasPartner(m1[|m1| - 1], m2) then 1 else 0)
  }

  function MinutiaeScore(m1: seq<Minutia>, m2: seq<Minutia>): (s: real)
    ensures 0.0 <= s <= 1.0
    ensures m1 == [] || m2 == [] ==> s == 0.0
  {
    if m1 == [] || m2 == [] then 0.0
    else
      var longest := if |m1| >= |m2| then |m1| else |m2|;
      RatioInUnit(Matched(m1, m2), longest);
      Matched(m1, m2) as real / longest as real
  }

  /** `compareMinutiae`: 0 when either list is empty, else matched points over the longer list. */
  method CompareMinutiae(m1: seq<Minutia>, m2: seq<Minutia>) returns (score: real)
    ensures score == MinutiaeScore(m1, m2)
  {
    if |m1| == 0 || |m2| == 0 {
      return 0.0;
    }
    var matches := 0;
    var i := 0;
    while i < |m1|
      invariant 0 <= i <= |m1|
      invariant matches == Matched(m1[..i], m2)
    {
      var p := m1[i];
      var found := false;
      var j := 0;
      while j < |m2|
        invariant 0 <= j <= |m2|
        invariant found ==> HasPartner(p, m2)
        invariant !found ==> forall k :: 0 <= k < j ==> !Near(p, m2[k])
      {
        if Near(p, m2[j]) {
          found := true;
          break;
        }
        j := j + 1;
      }
      assert m1[..i + 1][..i] == m1[..i];
      if found {
        matches := matches + 1;
      }
      i := i + 1;
    }
    assert m1[..i] == m1;
    var longest := if |m1| >= |m2| then |m1| else |m2|;
    score := matches as real / longest as real;
  }

  lemma {:induction false} MatchedSelf(m: seq<Minutia>, all: seq<Minutia>)
    requires forall k :: 0 <= k < |m| ==> m[k] in all
    ensures Matched(m, all) == |m|
  {
    if m != [] {
      var p := m[|m| - 1];
      var j :| 0 <= j < |all| && all[j] == p;
      assert Near(p, all[j]);
      MatchedSelf(m[..|m| - 1], all);
    }
  }

  /** `compareRidgePattern`: 0 across types, else 60% density agreement and 40% flow (1 if equal, 0.5 if not). */
  function RidgeScore(r1: RidgePattern, r2: RidgePattern): (s: real)
    ensures r1.kind != r2.kind ==> s == 0.0
    ensures r1.kind == r2.kind && r1.density == r2.density ==> (s == 1.0 <==> r1.flow == r2.flow)
    ensures r1.kind == r2.kind && r1.density == r2.density && r1.flow != r2.flow ==> s == 0.8
    ensures s <= 1.0
    ensures 0.0 <= r1.density <= 1.0 && 0.0 <= r2.density <= 1.0 ==> 0.0 <= s
  {
    if r1.kind != r2.kind then 0.0
    else
      var densityScore := 1.0 - (if r1.density >= r2.density then r1.density - r2.density else r2.density - r1.density);
      var flowScore := if r1.flow == r2.flow then 1.0 else 0.5;
      densityScore * 0.6 + flowScore * 0.4
  }

  /** A quality below 0.5 on either side; NaN compares false, so it does not reject. */
  predicate PoorQuality(q: Option<real>)
  {
    q.Some? && q.value < 0.5
  }

  /** `compareTemplates`: 0 for poor quality on either side, else 70% minutiae and 30% ridge. */
  function CompareTemplates(t1: Features, t2: Features): (s: real)
    ensures PoorQuality(t1.quality) || PoorQuality(t2.quality) ==> s == 0.0
    ensures s <= 1.0
    ensures 0.0 <= t1.ridge.density <= 1.0 && 0.0 <= t2.ridge.density <= 1.0 ==> 0.0 <= s
  {
    if PoorQuality(t1.quality) || PoorQuality(t2.quality) then 0.0
    else MinutiaeScore(t1.minutiae, t2.minutiae) * 0.7 + RidgeScore(t1.ridge, t2.ridge) * 0.3
  }

  /** Good-quality features with some minutiae match themselves with score 1. */
  lemma CompareTemplatesSelf(f: Features)
    requires f.minutiae != [] && !PoorQuality(f.quality)
    ensures CompareTemplates(f, f) == 1.0 && IsMatch(CompareTemplates(f, f))
  {
    MinutiaeSelf(f.minutiae);
    assert RidgeScore(f.ridge, f.ridge) == 1.0;
  }

  /** A non-empty minutiae list matches itself point for point. */
  lemma MinutiaeSelf(m: seq<Minutia>)
    requires m != []
    ensures MinutiaeScore(m, m) == 1.0
  {
    MatchedSelf(m, m);
    var n := |m| as real;
    assert MinutiaeScore(m, m) == n / n;
    DivSelf(n);
  }

  /** Captures under 1000 bytes always score 0.3 and are rejected by the quality gate. */
  lemma SmallCaptureRejected(raw: seq<Byte>, digest: seq<Byte>, other: Features)
    requires |digest| == DigestLength && |raw| < 1000
    ensures CompareTemplates(ExtractFeatures(raw, digest), other) == 0.0
  {
  }
}
