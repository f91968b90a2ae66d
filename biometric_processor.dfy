/**
 * The biometric processor of the Python biometric service: minutiae extraction and the
 * fixed 40-slot fingerprint template, histogram face features, the quality scores, and
 * the cosine / correlation comparisons of stored templates.
 *
 * OpenCV is not modelled: what it computes from an image (contours and their moments,
 * the Laplacian variance, the histogram, the number of detected faces) arrives as
 * data. The base64 codec of templates is a pair of parameters, and the square root is
 * a parameter constrained by `IsSqrt`. float32 and float64 values are exact reals.
 */
module BiometricProcessor {
  import opened Wrappers

  // ---------------------------------------------------------------------------
  // Python exceptions raised across the processor and the HTTP layer
  // ---------------------------------------------------------------------------

  datatype Exc =
    | RuntimeExc(msg: string)
    | ValueExc(msg: string)
    | HttpExc(status: int, detail: string)

  /** A value, or the exception a call raised. */
  datatype Outcome<+T> = Done(value: T) | Raised(exc: Exc)

  /** What `process_fingerprint` / `process_face` return on success. */
  datatype Processed = Processed(template: string, quality: real)

  /** The processor's capabilities, fixed when it is constructed. */
  datatype Config = Config(opencvAvailable: bool, cascadeAvailable: bool)

  // ---------------------------------------------------------------------------
  // Arithmetic helpers
  // ---------------------------------------------------------------------------

  function Max(a: real, b: real): real { if a >= b then a else b }
  function Min(a: real, b: real): real { if a <= b then a else b }
  function Abs(x: real): real { if x < 0.0 then -x else x }

  /** Python `int(x)` on a float: truncation toward zero. */
  function Trunc(x: real): (r: int)
    ensures x >= 0.0 ==> 0 <= r && r as real <= x < r as real + 1.0
    ensures x < 0.0 ==> r <= 0 && r as real - 1.0 < x <= r as real
  {
    if x >= 0.0 then x.Floor else -((-x).Floor)
  }

  /** The square root the numeric library provides, constrained by its defining property. */
  ghost predicate IsSqrt(sqrt: real -> real)
  {
    forall x: real {:trigger sqrt(x)} :: 0.0 <= x ==> 0.0 <= sqrt(x) && sqrt(x) * sqrt(x) == x
  }

  lemma SqrtOf(sqrt: real -> real, x: real)
    requires IsSqrt(sqrt) && 0.0 <= x
    ensures 0.0 <= sqrt(x) && sqrt(x) * sqrt(x) == x
  {
  }

  function Dot(a: seq<real>, b: seq<real>): real
    requires |a| == |b|
  {
    if a == [] then 0.0 else a[0] * b[0] + Dot(a[1..], b[1..])
  }

  function Sum(a: seq<real>): real
  {
    if a == [] then 0.0 else a[0] + Sum(a[1..])
  }

  // ---------------------------------------------------------------------------
  // Cauchy–Schwarz, which bounds both similarity scores
  // ---------------------------------------------------------------------------

  lemma {:induction false} DotSelfNonneg(a: seq<real>)
    ensures Dot(a, a) >= 0.0
  {
    if a != [] {
      DotSelfNonneg(a[1..]);
      assert a[0] * a[0] >= 0.0 by {
        if a[0] < 0.0 { assert a[0] * a[0] == (-a[0]) * (-a[0]); }
      }
    }
  }

  lemma {:induction false} DotSymmetric(a: seq<real>, b: seq<real>)
    requires |a| == |b|
    ensures Dot(a, b) == Dot(b, a)
  {
    if a != [] { DotSymmetric(a[1..], b[1..]); }
  }

  /** A square that is not positive is the square of zero. */
  lemma PosMul(x: real, y: real)
    requires x > 0.0 && y > 0.0
    ensures x * y > 0.0
  {
  }

  lemma MulMono(k: real, u: real, v: real)
    requires k >= 0.0 && u <= v
    ensures k * u <= k * v
  {
    assert k * v - k * u == k * (v - u);
  }

  /** Squares order nonnegative numbers: `t² <= s²` with `s >= 0` gives `t <= s`. */
  lemma RootBound(s: real, t: real)
    requires s >= 0.0 && t * t <= s * s
    ensures t <= s
  {
    if t > s {
      assert (t - s) * (t + s) == t * t - s * s;
      PosMul(t - s, t + s);
    }
  }

  /**
   * The cross term of the inductive step: `2xyD <= x²B + y²A` whenever `D² <= AB`, since
   * `(x²B + y²A)² = (x²B - y²A)² + 4x²y²AB >= (2xyD)²`.
   */
  lemma CrossTerm(x: real, y: real, A: real, B: real, D: real)
    requires A >= 0.0 && B >= 0.0 && D * D <= A * B
    ensures 2.0 * (x * y) * D <= (x * x) * B + (y * y) * A
  {
    var X, Y, P := x * x, y * y, x * y;
    var S, T := X * B + Y * A, 2.0 * P * D;
    assert X >= 0.0 && Y >= 0.0;
    MulMono(X, 0.0, B);
    MulMono(Y, 0.0, A);
    var W := X * B - Y * A;
    assert S * S == W * W + 4.0 * ((X * Y) * (A * B));
    assert W * W >= 0.0;
    assert X * Y == P * P;
    MulMono(X * Y, D * D, A * B);
    assert T * T == 4.0 * ((P * P) * (D * D));
    RootBound(S, T);
  }

  /** One step of the induction: adding a pair of heads to both vectors keeps the inequality. */
  /** `D² <= AB`: the Cauchy–Schwarz bound for squared norms `A`, `B` and dot product `D`. */
  predicate Bounded(A: real, B: real, D: real)
  {
    D * D <= A * B
  }

  lemma CauchyStep(x: real, y: real, A: real, B: real, D: real, A': real, B': real, D': real)
    requires A >= 0.0 && B >= 0.0 && Bounded(A, B, D)
    requires A' == x * x + A && B' == y * y + B && D' == x * y + D
    ensures Bounded(A', B', D')
  {
    CrossTerm(x, y, A, B, D);
    var P, X, Y := x * y, x * x, y * y;
    assert P * P == X * Y;
    assert (P + D) * (P + D) == P * P + 2.0 * P * D + D * D;
    assert (X + A) * (Y + B) == X * Y + X * B + Y * A + A * B;
  }

  lemma {:induction false} CauchySchwarz(a: seq<real>, b: seq<real>)
    requires |a| == |b|
    ensures Bounded(Dot(a, a), Dot(b, b), Dot(a, b))
  {
    if a != [] {
      CauchySchwarz(a[1..], b[1..]);
      DotSelfNonneg(a[1..]);
      DotSelfNonneg(b[1..]);
      CauchyStep(a[0], b[0], Dot(a[1..], a[1..]), Dot(b[1..], b[1..]), Dot(a[1..], b[1..]),
                 Dot(a, a), Dot(b, b), Dot(a, b));
    }
  }

  lemma SquareBound(x: real, y: real)
    requires y > 0.0 && x * x <= y * y
    ensures -y <= x <= y
  {
    assert (y - x) * (y + x) == y * y - x * x;
  }

  // ---------------------------------------------------------------------------
  // _cosine_similarity, compare_fingerprint_templates
  // ---------------------------------------------------------------------------

  /** `_cosine_similarity`: 0 when either vector has norm 0, otherwise dot / (|a| |b|). */
  function Cosine(a: seq<real>, b: seq<real>, sqrt: real -> real): (r: real)
    requires |a| == |b| && IsSqrt(sqrt)
    ensures -1.0 <= r <= 1.0
    ensures sqrt(Dot(a, a)) == 0.0 || sqrt(Dot(b, b)) == 0.0 ==> r == 0.0
  {
    DotSelfNonneg(a);
    DotSelfNonneg(b);
    SqrtOf(sqrt, Dot(a, a));
    SqrtOf(sqrt, Dot(b, b));
    var na, nb := sqrt(Dot(a, a)), sqrt(Dot(b, b));
    if na == 0.0 || nb == 0.0 then 0.0
    else
      CosineBound(a, b, na, nb);
      Dot(a, b) / (na * nb)
  }

  lemma CosineBound(a: seq<real>, b: seq<real>, na: real, nb: real)
    requires |a| == |b| && na > 0.0 && nb > 0.0
    requires na * na == Dot(a, a) && nb * nb == Dot(b, b)
    ensures -1.0 <= Dot(a, b) / (na * nb) <= 1.0
  {
    var D, n := Dot(a, b), na * nb;
    CauchySchwarz(a, b);
    assert n * n == (na * na) * (nb * nb) by {
      assert (na * nb) * (na * nb) == (na * na) * (nb * nb);
    }
    SquareBound(D, n);
    DivBound(D, n);
  }

  lemma DivBound(x: real, y: real)
    requires y > 0.0 && -y <= x <= y
    ensures -1.0 <= x / y <= 1.0
  {
    var q := x / y;
    assert q * y == x;
    assert (1.0 - q) * y == y - x >= 0.0;
    assert (q + 1.0) * y == x + y >= 0.0;
  }

  lemma CosineSymmetric(a: seq<real>, b: seq<real>, sqrt: real -> real)
    requires |a| == |b| && IsSqrt(sqrt)
    ensures Cosine(a, b, sqrt) == Cosine(b, a, sqrt)
  {
    DotSymmetric(a, b);
    var na, nb := sqrt(Dot(a, a)), sqrt(Dot(b, b));
    assert na * nb == nb * na;
  }

  /** A vector with a nonzero norm is perfectly similar to itself. */
  lemma CosineSelf(a: seq<real>, sqrt: real -> real)
    requires IsSqrt(sqrt) && Dot(a, a) != 0.0
    ensures Cosine(a, a, sqrt) == 1.0
  {
    DotSelfNonneg(a);
    var d := Dot(a, a);
    SqrtOf(sqrt, d);
    var n := sqrt(d);
    var nn := n * n;
    assert nn == d;
    assert d / nn == 1.0;
    assert Cosine(a, a, sqrt) == d / nn;
  }

  /** `compare_fingerprint_templates` after decoding: cosine of the common prefix, floored at 0. */
  function PrefixSimilarity(a1: seq<real>, a2: seq<real>, sqrt: real -> real): (r: real)
    requires IsSqrt(sqrt)
    ensures 0.0 <= r <= 1.0
  {
    var n := if |a1| <= |a2| then |a1| else |a2|;
    Max(0.0, Cosine(a1[..n], a2[..n], sqrt))
  }

  /**
   * `compare_fingerprint_templates`: a template that does not decode (the `except` at
   * the end) scores 0.0.
   */
  function CompareFingerprint(t1: string, t2: string, decode: string -> Option<seq<real>>,
                              sqrt: real -> real): (r: real)
    requires IsSqrt(sqrt)
    ensures 0.0 <= r <= 1.0
    ensures decode(t1).None? || decode(t2).None? ==> r == 0.0
  {
    match (decode(t1), decode(t2))
    case (Some(a1), Some(a2)) => PrefixSimilarity(a1, a2, sqrt)
    case _ => 0.0
  }

  lemma CompareFingerprintSymmetric(t1: string, t2: string, decode: string -> Option<seq<real>>,
                                    sqrt: real -> real)
    requires IsSqrt(sqrt)
    ensures CompareFingerprint(t1, t2, decode, sqrt) == CompareFingerprint(t2, t1, decode, sqrt)
  {
    if decode(t1).Some? && decode(t2).Some? {
      var a1, a2 := decode(t1).value, decode(t2).value;
      var n := if |a1| <= |a2| then |a1| else |a2|;
      CosineSymmetric(a1[..n], a2[..n], sqrt);
    }
  }

  /** A template compared with itself scores 1 unless it is all zeros. */
  lemma CompareFingerprintSelf(t: string, decode: string -> Option<seq<real>>, sqrt: real -> real)
    requires IsSqrt(sqrt) && decode(t).Some? && Dot(decode(t).value, decode(t).value) != 0.0
    ensures CompareFingerprint(t, t, decode, sqrt) == 1.0
  {
    var a := decode(t).value;
    assert a[..|a|] == a;
    CosineSelf(a, sqrt);
  }

  /** Only the common prefix is compared: extra trailing values never change the score. */
  lemma PrefixSimilarityTruncates(a1: seq<real>, a2: seq<real>, extra: seq<real>, sqrt: real -> real)
    requires IsSqrt(sqrt) && |a1| <= |a2|
    ensures PrefixSimilarity(a1, a2 + extra, sqrt) == PrefixSimilarity(a1, a2, sqrt)
  {
    assert (a2 + extra)[..|a1|] == a2[..|a1|];
  }

  // ---------------------------------------------------------------------------
  // compare_face_templates: Pearson correlation as np.corrcoef computes it
  // ---------------------------------------------------------------------------

  function Mean(a: seq<real>): real
    requires |a| > 0
  {
    Sum(a) / (|a| as real)
  }

  function Centered(a: seq<real>): (r: seq<real>)
    ensures |r| == |a|
  {
    if a == [] then [] else seq(|a|, i requires 0 <= i < |a| => a[i] - Mean(a))
  }

  /**
   * `np.corrcoef(a1, a2)[0, 1]` for equal lengths; `None` stands for NaN, which numpy
   * produces when either series has zero variance (including series of length 0 or 1).
   */
  function Correlation(a1: seq<real>, a2: seq<real>, sqrt: real -> real): (r: Option<real>)
    requires |a1| == |a2| && IsSqrt(sqrt)
    ensures r.Some? ==> -1.0 <= r.value <= 1.0
    ensures r.None? <==> Dot(Centered(a1), Centered(a1)) == 0.0 || Dot(Centered(a2), Centered(a2)) == 0.0
  {
    var c1, c2 := Centered(a1), Centered(a2);
    if Dot(c1, c1) == 0.0 || Dot(c2, c2) == 0.0 then None
    else
      DotSelfNonneg(c1);
      DotSelfNonneg(c2);
      assert sqrt(Dot(c1, c1)) != 0.0 && sqrt(Dot(c2, c2)) != 0.0;
      Some(Cosine(c1, c2, sqrt))
  }

  /**
   * `compare_face_templates`: undecodable templates or unequal lengths (numpy raises)
   * score 0.0, a NaN correlation scores 0.0, otherwise max(0, (r + 1) / 2).
   */
  function CompareFace(t1: string, t2: string, decode: string -> Option<seq<real>>,
                       sqrt: real -> real): (r: real)
    requires IsSqrt(sqrt)
    ensures 0.0 <= r <= 1.0
    ensures decode(t1).None? || decode(t2).None? ==> r == 0.0
    ensures decode(t1).Some? && decode(t2).Some? && |decode(t1).value| != |decode(t2).value| ==> r == 0.0
  {
    match (decode(t1), decode(t2))
    case (Some(a1), Some(a2)) =>
      if |a1| != |a2| then 0.0
      else
        (match Correlation(a1, a2, sqrt)
         case None => 0.0
         case Some(c) => Max(0.0, (c + 1.0) / 2.0))
    case _ => 0.0
  }

  /** A face template that is not constant scores 1 against itself. */
  lemma CompareFaceSelf(t: string, decode: string -> Option<seq<real>>, sqrt: real -> real)
    requires IsSqrt(sqrt) && decode(t).Some?
    requires Dot(Centered(decode(t).value), Centered(decode(t).value)) != 0.0
    ensures CompareFace(t, t, decode, sqrt) == 1.0
  {
    CosineSelf(Centered(decode(t).value), sqrt);
  }

  /** A constant face template (zero variance) scores 0 against anything of its length. */
  lemma CompareFaceConstant(t1: string, t2: string, decode: string -> Option<seq<real>>,
                            sqrt: real -> real)
    requires IsSqrt(sqrt) && decode(t1).Some? && decode(t2).Some?
    requires Dot(Centered(decode(t1).value), Centered(decode(t1).value)) == 0.0
    ensures CompareFace(t1, t2, decode, sqrt) == 0.0
  {
  }

  // ---------------------------------------------------------------------------
  // _extract_minutiae and _create_fingerprint_template
  // ---------------------------------------------------------------------------

  /** A contour OpenCV found, with its area and the raw moments the centroid needs. */
  datatype Contour = Contour(area: real, m00: real, m10: real, m01: real)

  type Point = (int, int)

  predicate Qualifies(c: Contour) { c.area > 50.0 && c.m00 != 0.0 }

  function Centroid(c: Contour): Point
    requires c.m00 != 0.0
  {
    (Trunc(c.m10 / c.m00), Trunc(c.m01 / c.m00))
  }

  /** The centroids of the qualifying contours, in detection order (before the cap). */
  function Kept(cs: seq<Contour>): (r: seq<Point>)
    ensures |r| <= |cs|
  {
    if cs == [] then []
    else (if Qualifies(cs[0]) then [Centroid(cs[0])] else []) + Kept(cs[1..])
  }

  /** Filtering distributes over concatenation, so order of detection is kept. */
  lemma {:induction false} KeptAppend(a: seq<Contour>, b: seq<Contour>)
    ensures Kept(a + b) == Kept(a) + Kept(b)
  {
    if a == [] {
      assert a + b == b;
    } else {
      var head := if Qualifies(a[0]) then [Centroid(a[0])] else [];
      assert (a + b)[0] == a[0];
      assert (a + b)[1..] == a[1..] + b;
      KeptAppend(a[1..], b);
      calc {
        Kept(a + b);
        head + Kept(a[1..] + b);
        head + (Kept(a[1..]) + Kept(b));
        (head + Kept(a[1..])) + Kept(b);
        Kept(a) + Kept(b);
      }
    }
  }

  lemma KeptSingle(c: Contour)
    ensures Kept([c]) == if Qualifies(c) then [Centroid(c)] else []
  {
    assert [c][1..] == [];
  }

  /** `_extract_minutiae`: keep the centroid of each large contour with nonzero m00, then the first 20. */
  method ExtractMinutiae(contours: seq<Contour>) returns (pts: seq<Point>)
    ensures |pts| == if |Kept(contours)| <= 20 then |Kept(contours)| else 20
    ensures pts == Kept(contours)[..|pts|]
  {
    var found: seq<Point> := [];
    var i := 0;
    while i < |contours|
      invariant 0 <= i <= |contours|
      invariant found == Kept(contours[..i])
    {
      var c := contours[i];
      KeptAppend(contours[..i], [c]);
      KeptSingle(c);
      assert contours[..i + 1] == contours[..i] + [c];
      if c.area > 50.0 {
        if c.m00 != 0.0 {
          var cx := Trunc(c.m10 / c.m00);
          var cy := Trunc(c.m01 / c.m00);
          found := found + [(cx, cy)];
        }
      }
      i := i + 1;
    }
    assert contours[..i] == contours;
    pts := if |found| <= 20 then found else found[..20];
  }

  const TemplateSize: nat := 40

  /** What slot `k` of the template holds: point k/2's x (even k) or y (odd k), or 0. */
  function TemplateSlot(minutiae: seq<Point>, k: nat): real
  {
    if k / 2 < |minutiae| && k < TemplateSize then
      (if k % 2 == 0 then minutiae[k / 2].0 else minutiae[k / 2].1) as real
    else 0.0
  }

  /** `_create_fingerprint_template`: a zeroed 40-slot buffer that receives point i in slots 2i and 2i+1. */
  method CreateFingerprintTemplate(minutiae: seq<Point>) returns (t: seq<real>)
    ensures |t| == TemplateSize
    ensures forall k :: 0 <= k < TemplateSize ==> t[k] == TemplateSlot(minutiae, k)
  {
    var buf := new real[TemplateSize](_ => 0.0);
    var i := 0;
    while i < |minutiae|
      invariant 0 <= i <= |minutiae|
      invariant forall k :: 0 <= k < TemplateSize ==>
        buf[k] == (if k / 2 < i then TemplateSlot(minutiae, k) else 0.0)
    {
      if i * 2 + 1 < TemplateSize {
        buf[i * 2] := minutiae[i].0 as real;
        buf[i * 2 + 1] := minutiae[i].1 as real;
      }
      i := i + 1;
    }
    t := buf[..];
  }

  /** Point i lands in slots 2i and 2i+1; slots past the last point stay 0; points past 19 are dropped. */
  lemma TemplateHoldsPoints(minutiae: seq<Point>, i: nat)
    requires i < TemplateSize / 2
    ensures i < |minutiae| ==> (TemplateSlot(minutiae, 2 * i) == minutiae[i].0 as real
                             && TemplateSlot(minutiae, 2 * i + 1) == minutiae[i].1 as real)
    ensures i >= |minutiae| ==> TemplateSlot(minutiae, 2 * i) == 0.0 && TemplateSlot(minutiae, 2 * i + 1) == 0.0
  {
    assert (2 * i) / 2 == i && (2 * i + 1) / 2 == i;
    assert (2 * i) % 2 == 0 && (2 * i + 1) % 2 == 1;
  }

  lemma TemplateIgnoresExtraPoints(minutiae: seq<Point>, extra: seq<Point>, k: nat)
    requires |minutiae| >= TemplateSize / 2
    ensures TemplateSlot(minutiae + extra, k) == TemplateSlot(minutiae, k)
  {
  }

  // ---------------------------------------------------------------------------
  // _extract_face_features and the quality scores
  // ---------------------------------------------------------------------------

  const HistogramEpsilon: real := 0.0000001

  predicate AllNonneg(h: seq<real>)
  {
    forall i :: 0 <= i < |h| ==> h[i] >= 0.0
  }

  lemma {:induction false} SumNonneg(h: seq<real>)
    requires AllNonneg(h)
    ensures Sum(h) >= 0.0
  {
    if h != [] { SumNonneg(h[1..]); }
  }

  lemma {:induction false} SumBoundsEach(h: seq<real>, i: nat)
    requires AllNonneg(h) && i < |h|
    ensures h[i] <= Sum(h)
  {
    SumNonneg(h[1..]);
    if i > 0 { SumBoundsEach(h[1..], i - 1); }
  }

  /** `_extract_face_features`: the histogram divided by its total plus 1e-7. */
  function NormalizeHistogram(h: seq<real>): (r: seq<real>)
    requires AllNonneg(h)
    ensures |r| == |h|
    ensures forall i :: 0 <= i < |h| ==> 0.0 <= r[i] < 1.0
    ensures forall i :: 0 <= i < |h| ==> r[i] * (Sum(h) + HistogramEpsilon) == h[i]
  {
    SumNonneg(h);
    var d := Sum(h) + HistogramEpsilon;
    assert forall i :: 0 <= i < |h| ==> h[i] / d < 1.0 by {
      forall i | 0 <= i < |h| ensures h[i] / d < 1.0 {
        SumBoundsEach(h, i);
      }
    }
    seq(|h|, i requires 0 <= i < |h| => h[i] / d)
  }

  lemma {:induction false} SumScaled(h: seq<real>, d: real)
    requires d > 0.0
    ensures Sum(seq(|h|, i requires 0 <= i < |h| => h[i] / d)) == Sum(h) / d
  {
    var s := seq(|h|, i requires 0 <= i < |h| => h[i] / d);
    if h != [] {
      assert s[1..] == seq(|h[1..]|, i requires 0 <= i < |h[1..]| => h[1..][i] / d);
      SumScaled(h[1..], d);
    }
  }

  /** The normalised histogram sums to less than 1. */
  lemma NormalizedSumBelowOne(h: seq<real>)
    requires AllNonneg(h)
    ensures Sum(NormalizeHistogram(h)) < 1.0
  {
    SumNonneg(h);
    var d := Sum(h) + HistogramEpsilon;
    SumScaled(h, d);
    assert Sum(h) / d < 1.0;
  }

  /** `_assess_fingerprint_quality`: Laplacian variance over 100, clamped to [0, 1]. */
  function FingerprintQuality(laplacianVar: real): (q: real)
    ensures 0.0 <= q <= 1.0
    ensures laplacianVar >= 100.0 ==> q == 1.0
    ensures laplacianVar <= 0.0 ==> q == 0.0
  {
    Max(0.0, Min(laplacianVar / 100.0, 1.0))
  }

  lemma FingerprintQualityMonotone(v1: real, v2: real)
    requires v1 <= v2
    ensures FingerprintQuality(v1) <= FingerprintQuality(v2)
  {
  }

  /** `_assess_face_quality`: mean of a sharpness and a brightness score, clamped to [0, 1]. */
  function FaceQuality(laplacianVar: real, brightness: real): (q: real)
    ensures 0.0 <= q <= 1.0
  {
    var sharpness := Min(laplacianVar / 200.0, 1.0);
    var light := Max(0.0, 1.0 - Abs(brightness - 140.0) / 140.0);
    Max(0.0, Min(1.0, (sharpness + light) / 2.0))
  }

  /** Sharp enough at the ideal brightness of 140 gives the full score; the score peaks there. */
  lemma FaceQualityPeak(laplacianVar: real, brightness: real)
    ensures laplacianVar >= 200.0 ==> FaceQuality(laplacianVar, 140.0) == 1.0
    ensures FaceQuality(laplacianVar, brightness) <= FaceQuality(laplacianVar, 140.0)
  {
  }

  // ---------------------------------------------------------------------------
  // process_fingerprint / process_face
  // ---------------------------------------------------------------------------

  /** What OpenCV yields for a decoded fingerprint image after enhancement. */
  datatype FingerprintImage = FingerprintImage(contours: seq<Contour>, laplacianVar: real)

  /** What OpenCV yields for a decoded colour image: the detected faces and the measures of the only one. */
  datatype FaceImage = FaceImage(faceCount: nat, histogram: seq<real>, laplacianVar: real, brightness: real)

  function OpenCvMissing(operation: string): Exc
  {
    RuntimeExc(operation + " requires OpenCV.")
  }

  /** The `except Exception` of both processing methods: every failure becomes a ValueError. */
  function WrapFailure(prefix: string, e: Exc): Exc
    requires !e.HttpExc?
  {
    ValueExc(prefix + e.msg)
  }

  /** The processor's minutiae, as `ExtractMinutiae` computes them. */
  function Minutiae(contours: seq<Contour>): (m: seq<Point>)
    ensures |m| <= 20
  {
    var k := Kept(contours);
    if |k| <= 20 then k else k[..20]
  }

  function FingerprintTemplate(minutiae: seq<Point>): (t: seq<real>)
    ensures |t| == TemplateSize
  {
    seq(TemplateSize, k requires 0 <= k < TemplateSize => TemplateSlot(minutiae, k))
  }

  /** `process_fingerprint` as written: a missing OpenCV is re-raised as a ValueError too. */
  function ProcessFingerprintAsWritten(cfg: Config, image: Option<FingerprintImage>,
                                       encode: seq<real> -> string): (r: Outcome<Processed>)
    ensures !cfg.opencvAvailable ==> r.Raised? && r.exc.ValueExc?
  {
    var prefix := "Fingerprint processing failed: ";
    if !cfg.opencvAvailable then Raised(WrapFailure(prefix, OpenCvMissing("Fingerprint processing")))
    else if image.None? then Raised(WrapFailure(prefix, ValueExc("Invalid image data")))
    else
      var m := Minutiae(image.value.contours);
      Done(Processed(encode(FingerprintTemplate(m)), FingerprintQuality(image.value.laplacianVar)))
  }

  /**
   * `process_fingerprint` with the capability error kept as a RuntimeError, so that the
   * HTTP layer can answer 503 as its `except RuntimeError` clauses intend.
   */
  function ProcessFingerprint(cfg: Config, image: Option<FingerprintImage>,
                              encode: seq<real> -> string): (r: Outcome<Processed>)
    ensures !cfg.opencvAvailable <==> r.Raised? && r.exc.RuntimeExc?
    ensures r.Raised? <==> !cfg.opencvAvailable || image.None?
    ensures r.Done? ==> 0.0 <= r.value.quality <= 1.0
  {
    var prefix := "Fingerprint processing failed: ";
    if !cfg.opencvAvailable then Raised(OpenCvMissing("Fingerprint processing"))
    else if image.None? then Raised(WrapFailure(prefix, ValueExc("Invalid image data")))
    else
      var m := Minutiae(image.value.contours);
      Done(Processed(encode(FingerprintTemplate(m)), FingerprintQuality(image.value.laplacianVar)))
  }

  /** With OpenCV present the two versions agree. */
  lemma ProcessFingerprintAgrees(cfg: Config, image: Option<FingerprintImage>, encode: seq<real> -> string)
    ensures cfg.opencvAvailable ==>
      ProcessFingerprint(cfg, image, encode) == ProcessFingerprintAsWritten(cfg, image, encode)
    ensures !cfg.opencvAvailable ==> (ProcessFingerprintAsWritten(cfg, image, encode).exc.ValueExc?
                                   && ProcessFingerprint(cfg, image, encode).exc.RuntimeExc?)
  {
  }

  function FaceFeatures(img: FaceImage): seq<real>
  {
    if AllNonneg(img.histogram) then NormalizeHistogram(img.histogram) else img.histogram
  }

  function FaceFailure(img: Option<FaceImage>, cfg: Config): Option<Exc>
  {
    if img.None? then Some(ValueExc("Invalid image data"))
    else if !cfg.cascadeAvailable then Some(RuntimeExc("OpenCV face cascade is not available."))
    else if img.value.faceCount == 0 then Some(ValueExc("No face detected in image"))
    else if img.value.faceCount > 1 then Some(ValueExc("Multiple faces detected - please use image with single face"))
    else None
  }

  /** `process_face` as written: every failure, the missing cascade included, becomes a ValueError. */
  function ProcessFaceAsWritten(cfg: Config, image: Option<FaceImage>,
                                encode: seq<real> -> string): (r: Outcome<Processed>)
    ensures r.Raised? ==> r.exc.ValueExc?
  {
    var prefix := "Face processing failed: ";
    if !cfg.opencvAvailable then Raised(WrapFailure(prefix, OpenCvMissing("Face processing")))
    else match FaceFailure(image, cfg)
      case Some(e) => Raised(WrapFailure(prefix, e))
      case None =>
        var img := image.value;
        Done(Processed(encode(FaceFeatures(img)), FaceQuality(img.laplacianVar, img.brightness)))
  }

  /** `process_face` with capability errors kept as RuntimeErrors. */
  function ProcessFace(cfg: Config, image: Option<FaceImage>,
                       encode: seq<real> -> string): (r: Outcome<Processed>)
    ensures r.Done? <==> cfg.opencvAvailable && cfg.cascadeAvailable && image.Some? && image.value.faceCount == 1
    ensures !cfg.opencvAvailable ==> r.Raised? && r.exc.RuntimeExc?
    ensures r.Raised? && r.exc.RuntimeExc? ==> !cfg.opencvAvailable || !cfg.cascadeAvailable
    ensures r.Done? ==> 0.0 <= r.value.quality <= 1.0
  {
    var prefix := "Face processing failed: ";
    if !cfg.opencvAvailable then Raised(OpenCvMissing("Face processing"))
    else match FaceFailure(image, cfg)
      case Some(e) => if e.RuntimeExc? then Raised(e) else Raised(WrapFailure(prefix, e))
      case None =>
        var img := image.value;
        Done(Processed(encode(FaceFeatures(img)), FaceQuality(img.laplacianVar, img.brightness)))
  }
}
