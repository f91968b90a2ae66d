/**
 * The biometric payment service: features derived from a sha256 digest of the capture,
 * a minutiae/ridge score between two feature records, and payment authorisation by the
 * best-scoring enrolled template.
 *
 * JavaScript NaN is `None`: the minutiae score of two empty lists is 0/0, and NaN makes
 * every comparison false. The digest, the cipher and `JSON.parse` are parameters.
 */
module BiometricPayment {
  import opened Wrappers
  import opened Bytes
  import opened BiometricFeatures

  const MatchThreshold: real := 0.85

  // ---------------------------------------------------------------------------
  // Feature extraction
  // ---------------------------------------------------------------------------

  /** The point `extractMinutiae` builds from bytes i and i+1. */
  function MinutiaAt(hash: seq<Byte>, i: nat): Minutia
    requires i + 1 < |hash|
  {
    Minutia(hash[i] as int, hash[i + 1] as int, ((hash[i] as int + hash[i + 1] as int) % 360) as real, KindOf(hash[i]))
  }

  /** `extractMinutiae`: one point per byte pair among the first 20 bytes of the digest. */
  method ExtractMinutiae(hash: seq<Byte>) returns (pts: seq<Minutia>)
    requires |hash| == DigestLength
    ensures |pts| == 10
    ensures forall k :: 0 <= k < 10 ==> pts[k] == MinutiaAt(hash, 2 * k)
  {
    pts := [];
    var limit := if 20 <= |hash| then 20 else |hash|;
    var i := 0;
    while i < limit
      invariant 0 <= i <= limit && i % 2 == 0
      invariant |pts| == i / 2
      invariant forall k :: 0 <= k < |pts| ==> pts[k] == MinutiaAt(hash, 2 * k)
    {
      pts := pts + [Minutia(hash[i] as int, hash[i + 1] as int,
                            ((hash[i] as int + hash[i + 1] as int) % 360) as real, KindOf(hash[i]))];
      i := i + 2;
    }
  }

  function MinutiaeOf(hash: seq<Byte>): (pts: seq<Minutia>)
    requires |hash| == DigestLength
    ensures |pts| == 10
  {
    seq(10, k requires 0 <= k < 10 => MinutiaAt(hash, 2 * k))
  }

  /** Every extracted point has coordinates in 0..255 and an angle in 0..359. */
  lemma MinutiaeInRange(hash: seq<Byte>, k: nat)
    requires |hash| == DigestLength && k < 10
    ensures var m := MinutiaeOf(hash)[k]; 0 <= m.x < 256 && 0 <= m.y < 256 && 0.0 <= m.angle < 360.0
  {
  }

  /** `assessQuality`: min(1, variance / 1000), NaN for an empty capture. */
  function AssessQuality(raw: seq<Byte>): (q: Option<real>)
    ensures q.Some? <==> raw != []
    ensures q.Some? ==> 0.0 <= q.value <= 1.0
  {
    match Variance(raw)
    case None => None
    case Some(v) => Some(VarianceQuality(v))
  }

  /** `extractBiometricFeatures`, given the digest of the capture. */
  function ExtractFeatures(raw: seq<Byte>, digest: seq<Byte>): (f: Features)
    requires |digest| == DigestLength
    ensures |f.minutiae| == 10 && 0.0 <= f.ridge.density <= 1.0
  {
    Features(MinutiaeOf(digest), RidgeOf(digest), AssessQuality(raw))
  }

  // ---------------------------------------------------------------------------
  // Comparison
  // ---------------------------------------------------------------------------

  /** Two points match when they are less than 10 apart (squared distance under 100) and of the same type. */
  predicate Near(p: Minutia, q: Minutia)
  {
    (p.x - q.x) * (p.x - q.x) + (p.y - q.y) * (p.y - q.y) < 100 && p.kind == q.kind
  }

  predicate HasPartner(p: Minutia, m2: seq<Minutia>)
  {
    exists j :: 0 <= j < |m2| && Near(p, m2[j])
  }

  /** The number of points of `m1` that have a partner in `m2`. */
  function Matched(m1: seq<Minutia>, m2: seq<Minutia>): (n: nat)
    ensures n <= |m1|
  {
    if m1 == [] then 0
    else Matched(m1[..|m1| - 1], m2) + (if HasPartner(m1[|m1| - 1], m2) then 1 else 0)
  }

  /** `compareMinutiae`: matched points over the longer list; NaN (None) when both are empty. */
  method CompareMinutiae(m1: seq<Minutia>, m2: seq<Minutia>) returns (score: Option<real>)
    ensures score == MinutiaeScore(m1, m2)
  {
    var matches := 0;
    var i := 0;
    while i < |m1|
      invariant 0 <= i <= |m1|
      invariant matches == Matched(m1[..i], m2)
    {
      var p := m1[i];
      var found := false;
      var j := 0;
      while j < |m2|
        invariant 0 <= j <= |m2|
        invariant found ==> HasPartner(p, m2)
        invariant !found ==> forall k :: 0 <= k < j ==> !Near(p, m2[k])
      {
        if Near(p, m2[j]) {
          found := true;
          break;
        }
        j := j + 1;
      }
      assert m1[..i + 1][..i] == m1[..i];
      if found {
        matches := matches + 1;
      }
      i := i + 1;
    }
    assert m1[..i] == m1;
    var longest := if |m1| >= |m2| then |m1| else |m2|;
    if longest == 0 {
      score := None;
    } else {
      score := Some(matches as real / longest as real);
    }
  }

  /** A nonempty point list matches itself completely. */
  lemma {:induction false} MatchedSelf(m: seq<Minutia>, all: seq<Minutia>)
    requires forall k :: 0 <= k < |m| ==> m[k] in all
    ensures Matched(m, all) == |m|
  {
    if m != [] {
      var p := m[|m| - 1];
      var j :| 0 <= j < |all| && all[j] == p;
      assert Near(p, all[j]);
      MatchedSelf(m[..|m| - 1], all);
    }
  }

  /** The score as `compareMinutiae` computes it, for use in the functions below. */
  function MinutiaeScore(m1: seq<Minutia>, m2: seq<Minutia>): (s: Option<real>)
    ensures s.None? <==> m1 == [] && m2 == []
    ensures s.Some? ==> 0.0 <= s.value <= 1.0
  {
    var longest := if |m1| >= |m2| then |m1| else |m2|;
    if longest == 0 then None else Some(Matched(m1, m2) as real / longest as real)
  }

  /** `compareRidgePattern`: 0 across pattern types, otherwise 1 - |density difference|. */
  function RidgeScore(r1: RidgePattern, r2: RidgePattern): (s: real)
    ensures r1.kind != r2.kind ==> s == 0.0
    ensures r1.kind == r2.kind ==> s <= 1.0 && (s == 1.0 <==> r1.density == r2.density)
    ensures 0.0 <= r1.density <= 1.0 && 0.0 <= r2.density <= 1.0 ==> 0.0 <= s <= 1.0
  {
    if r1.kind != r2.kind then 0.0
    else 1.0 - (if r1.density >= r2.density then r1.density - r2.density else r2.density - r1.density)
  }

  /** `compareBiometrics`: 70% minutiae, 30% ridge; NaN when the minutiae score is NaN. */
  function CompareBiometrics(f1: Features, f2: Features): (s: Option<real>)
    ensures s.None? <==> f1.minutiae == [] && f2.minutiae == []
    ensures s.Some? ==> s.value <= 1.0
    ensures s.Some? && 0.0 <= f1.ridge.density <= 1.0 && 0.0 <= f2.ridge.density <= 1.0 ==> 0.0 <= s.value
  {
    match MinutiaeScore(f1.minutiae, f2.minutiae)
    case None => None
    case Some(m) => Some(m * 0.7 + RidgeScore(f1.ridge, f2.ridge) * 0.3)
  }

  /** Features with some minutiae compared with themselves score 1. */
  lemma CompareBiometricsSelf(f: Features)
    requires f.minutiae != []
    ensures CompareBiometrics(f, f) == Some(1.0)
  {
    MinutiaeScoreSelf(f.minutiae);
    assert RidgeScore(f.ridge, f.ridge) == 1.0;
  }

  lemma MinutiaeScoreSelf(m: seq<Minutia>)
    requires m != []
    ensures MinutiaeScore(m, m) == Some(1.0)
  {
    var n := |m| as real;
    assert MinutiaeScore(m, m) == Some(Matched(m, m) as real / n);
    MatchedSelf(m, m);
    DivSelf(n);
  }

  // ---------------------------------------------------------------------------
  // authorizePayment
  // ---------------------------------------------------------------------------

  datatype Template = Template(userId: string, templateData: string)

  datatype Authorization = Authorization(transactionId: string, userId: string, amount: real,
                                         currency: string, merchantId: string,
                                         biometricMatch: bool, matchScore: real)

  /** The running best of the loop after scoring each template in order: (bestMatch, matchedUserId). */
  function Best(scored: seq<(string, Option<real>)>): (r: (real, Option<string>))
    ensures r.0 >= 0.0
  {
    if scored == [] then (0.0, None)
    else
      var prev := Best(scored[..|scored| - 1]);
      var last := scored[|scored| - 1];
      if last.1.Some? && last.1.value > prev.0 then (last.1.value, Some(last.0)) else prev
  }

  /** No score exceeds the best. */
  lemma {:induction false} BestIsUpperBound(scored: seq<(string, Option<real>)>, k: nat)
    requires k < |scored| && scored[k].1.Some?
    ensures scored[k].1.value <= Best(scored).0
  {
    var n := |scored|;
    if k < n - 1 {
      assert scored[..n - 1][k] == scored[k];
      BestIsUpperBound(scored[..n - 1], k);
    }
  }

  /**
   * A matched user is the user of the first template that reaches the best score, and
   * that score is above 0; with no matched user no template scored above 0.
   */
  lemma {:induction false} BestIsFirstMaximum(scored: seq<(string, Option<real>)>)
    ensures Best(scored).1.None? ==>
      (Best(scored).0 == 0.0 && forall k :: 0 <= k < |scored| && scored[k].1.Some? ==> scored[k].1.value <= 0.0)
    ensures Best(scored).1.Some? ==>
      (Best(scored).0 > 0.0 &&
       exists k :: (0 <= k < |scored| && scored[k].1 == Some(Best(scored).0) && scored[k].0 == Best(scored).1.value
                    && forall j :: 0 <= j < k && scored[j].1.Some? ==> scored[j].1.value < Best(scored).0))
  {
    if scored != [] {
      var n := |scored|;
      var init := scored[..n - 1];
      BestIsFirstMaximum(init);
      forall k | 0 <= k < n - 1 ensures init[k] == scored[k] { }
      var prev := Best(init);
      var last := scored[n - 1];
      if last.1.Some? && last.1.value > prev.0 {
        forall j | 0 <= j < n - 1 && scored[j].1.Some? ensures scored[j].1.value < last.1.value {
          BestIsUpperBound(init, j);
        }
      }
    }
  }

  /**
   * `authorizePayment`: decrypt and parse every enrolled template in order, keep the first
   * strictly highest score, and authorise when it reaches 0.85 for some user. A template
   * that fails to decrypt or parse makes the whole call throw.
   */
  method AuthorizePayment(transactionId: string, amount: real, currency: string, merchantId: string,
                          captured: Features, enrolled: seq<Template>,
                          open: string -> Option<Features>) returns (r: Result<Authorization>)
    ensures r.Err? <==> exists k :: 0 <= k < |enrolled| && open(enrolled[k].templateData).None?
    ensures r.Ok? ==> var scored := seq(|enrolled|, k requires 0 <= k < |enrolled| =>
                          (enrolled[k].userId, CompareBiometrics(captured, open(enrolled[k].templateData).value)));
      var best := Best(scored);
      && r.value.matchScore == best.0
      && r.value.biometricMatch == (best.0 >= MatchThreshold && best.1.Some?)
      && r.value.userId == (if best.1.Some? then best.1.value else "")
      && r.value.transactionId == transactionId && r.value.amount == amount
      && r.value.currency == currency && r.value.merchantId == merchantId
  {
    var bestMatch := 0.0;
    var matchedUserId: Option<string> := None;
    ghost var scored: seq<(string, Option<real>)> := [];
    var i := 0;
    while i < |enrolled|
      invariant 0 <= i <= |enrolled| && |scored| == i
      invariant forall k :: 0 <= k < i ==> open(enrolled[k].templateData).Some?
      invariant forall k :: 0 <= k < i ==>
        scored[k] == (enrolled[k].userId, CompareBiometrics(captured, open(enrolled[k].templateData).value))
      invariant (bestMatch, matchedUserId) == Best(scored)
    {
      var template := enrolled[i];
      var decoded := open(template.templateData);
      if decoded.None? {
        return Err("Unexpected token in JSON");
      }
      var matchScore := CompareBiometrics(captured, decoded.value);
      assert (scored + [(template.userId, matchScore)])[..i] == scored;
      scored := scored + [(template.userId, matchScore)];
      if matchScore.Some? && matchScore.value > bestMatch {
        bestMatch := matchScore.value;
        matchedUserId := Some(template.userId);
      }
      i := i + 1;
    }
    assert scored == seq(|enrolled|, k requires 0 <= k < |enrolled| =>
                           (enrolled[k].userId, CompareBiometrics(captured, open(enrolled[k].templateData).value)));
    var authorized := bestMatch >= MatchThreshold && matchedUserId.Some?;
    r := Ok(Authorization(transactionId, if matchedUserId.Some? then matchedUserId.value else "",
                          amount, currency, merchantId, authorized, bestMatch));
  }
}
