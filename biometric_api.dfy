/**
 * The HTTP handlers of the Python biometric service: enrolment stores the processed
 * template, verification compares a fresh capture with the enrolled one and applies the
 * modality's threshold. Exceptions raised along the way become HTTP errors.
 *
 * The upload's bytes reach the handlers already processed (the `Outcome` of
 * `BiometricProcessor.ProcessFingerprint` or `ProcessFace`); the cipher that wraps
 * stored templates is a pair of parameters that may raise.
 */
module BiometricApi {
  import opened Wrappers
  import opened BiometricProcessor
  import TemplateStore
  import JsText

  datatype Modality = Fingerprint | Face

  datatype Response =
    | Enrolled(templateId: string, quality: real)
    | Verification(verified: bool, confidence: real, quality: real)
    | HttpError(status: int, detail: string)

  function Kind(m: Modality): string
  {
    match m
    case Fingerprint => "FINGERPRINT"
    case Face => "FACE"
  }

  /** The verification thresholds: 0.7 for fingerprints, 0.75 for faces. */
  function Threshold(m: Modality): real
  {
    match m
    case Fingerprint => 0.7
    case Face => 0.75
  }

  function NotEnrolledDetail(m: Modality): string
  {
    match m
    case Fingerprint => "No enrolled fingerprint found"
    case Face => "No enrolled face found"
  }

  predicate IsImage(contentType: string)
  {
    "image/" <= contentType
  }

  /** Python's `str()` of an exception: an HTTPException renders as "status: detail". */
  function Message(e: Exc): string
  {
    match e
    case RuntimeExc(msg) => msg
    case ValueExc(msg) => msg
    case HttpExc(status, detail) => StatusText(status) + ": " + detail
  }

  function StatusText(status: int): string
  {
    if status >= 0 then JsText.NatToString(status) else "-" + JsText.NatToString(-status)
  }

  /**
   * The two `except` clauses as written: RuntimeError becomes 503 and every other
   * exception, an HTTPException raised inside the `try` included, becomes 500.
   */
  function ErrorResponseAsWritten(e: Exc): (r: Response)
    ensures r.HttpError? && (r.status == 503 <==> e.RuntimeExc?)
    ensures !e.RuntimeExc? ==> r.status == 500
  {
    if e.RuntimeExc? then HttpError(503, e.msg) else HttpError(500, Message(e))
  }

  /** The mapping the handlers intend: an HTTPException passes through, RuntimeError is 503, the rest 500. */
  function ErrorResponse(e: Exc): (r: Response)
    ensures r.HttpError?
    ensures e.HttpExc? ==> r == HttpError(e.status, e.detail)
    ensures e.RuntimeExc? ==> r.status == 503
    ensures e.ValueExc? ==> r.status == 500
  {
    match e
    case HttpExc(status, detail) => HttpError(status, detail)
    case RuntimeExc(msg) => HttpError(503, msg)
    case ValueExc(msg) => HttpError(500, msg)
  }

  /** The 400 a non-image upload is meant to get comes back as a 500 through the handler as written. */
  lemma NonImageAsWrittenIs500()
    ensures ErrorResponseAsWritten(HttpExc(400, "File must be an image"))
         == HttpError(500, "400: " + "File must be an image")
  {
    StatusText400();
    assert "400" + ": " == "400: ";
  }

  lemma StatusText400()
    ensures StatusText(400) == "400"
  {
    assert JsText.NatToString(4) == "4";
    assert JsText.NatToString(40) == "40" by {
      assert JsText.NatToString(40) == JsText.NatToString(4) + ['0'];
    }
    assert JsText.NatToString(400) == JsText.NatToString(40) + ['0'];
  }

  /** The 404 for a user with no template comes back as a 500 through the handler as written. */
  lemma NotEnrolledAsWrittenIs500(m: Modality)
    ensures ErrorResponseAsWritten(HttpExc(404, NotEnrolledDetail(m))).status == 500
  {
  }

  /** With the processor as written, a missing OpenCV reaches the handler as a ValueError: 500, never 503. */
  lemma OpenCvMissingAsWrittenIs500(image: Option<FingerprintImage>, encode: seq<real> -> string)
    ensures var p := ProcessFingerprintAsWritten(Config(false, false), image, encode);
      p.Raised? && ErrorResponse(p.exc).status == 500 && ErrorResponseAsWritten(p.exc).status == 500
  {
  }

  lemma OpenCvMissingIs503(cfg: Config, image: Option<FingerprintImage>, encode: seq<real> -> string)
    requires !cfg.opencvAvailable
    ensures var p := ProcessFingerprint(cfg, image, encode); p.Raised? && ErrorResponse(p.exc).status == 503
  {
  }

  // ---------------------------------------------------------------------------
  // round(similarity, 3)
  // ---------------------------------------------------------------------------

  /** Round half to even to an integer, as Python's `round`. */
  function RoundHalfEven(y: real): (n: int)
    ensures -0.5 <= n as real - y <= 0.5
  {
    var f := y.Floor;
    var frac := y - f as real;
    if frac < 0.5 then f
    else if frac > 0.5 then f + 1
    else if f % 2 == 0 then f else f + 1
  }

  /** `round(x, 3)`. */
  function Round3(x: real): (r: real)
    ensures -0.0005 <= r - x <= 0.0005
  {
    RoundHalfEven(x * 1000.0) as real / 1000.0
  }

  lemma Round3Unit(x: real)
    requires 0.0 <= x <= 1.0
    ensures 0.0 <= Round3(x) <= 1.0
  {
    var y := x * 1000.0;
    var n := RoundHalfEven(y);
    assert 0.0 <= y <= 1000.0;
    assert (0.0).Floor == 0 && (1000.0).Floor == 1000;
    assert 0 <= n <= 1000;
  }

  /** A value with at most three decimals is its own rounding. */
  lemma Round3OnGrid(k: int)
    ensures Round3(k as real / 1000.0) == k as real / 1000.0
  {
    assert k as real / 1000.0 * 1000.0 == k as real;
    assert (k as real).Floor == k;
  }

  // ---------------------------------------------------------------------------
  // The handlers
  // ---------------------------------------------------------------------------

  function Similarity(m: Modality, enrolled: string, candidate: string,
                      decode: string -> Option<seq<real>>, sqrt: real -> real): (s: real)
    requires IsSqrt(sqrt)
    ensures 0.0 <= s <= 1.0
  {
    match m
    case Fingerprint => CompareFingerprint(enrolled, candidate, decode, sqrt)
    case Face => CompareFace(enrolled, candidate, decode, sqrt)
  }

  /**
   * `verify_fingerprint` / `verify_face`: process the capture, fetch the active template
   * (404 when there is none), decrypt it, compare, and decide against the threshold.
   */
  function Verify(m: Modality, db: TemplateStore.Store, userId: string, processed: Outcome<Processed>,
                  decrypt: string -> Outcome<string>, decode: string -> Option<seq<real>>,
                  sqrt: real -> real): (r: Response)
    requires IsSqrt(sqrt)
    reads db
    ensures processed.Raised? ==> r == ErrorResponse(processed.exc)
    ensures processed.Done? && db.Get(userId, Kind(m)).None? ==> r == HttpError(404, NotEnrolledDetail(m))
    ensures r.Verification? ==> (processed.Done? && db.Get(userId, Kind(m)).Some?
      && decrypt(db.Get(userId, Kind(m)).value.data).Done?
      && -0.0005 <= r.confidence - Similarity(m, decrypt(db.Get(userId, Kind(m)).value.data).value,
                                             processed.value.template, decode, sqrt) <= 0.0005
      && (r.verified <==> Similarity(m, decrypt(db.Get(userId, Kind(m)).value.data).value,
                                     processed.value.template, decode, sqrt) > Threshold(m))
      && r.quality == processed.value.quality)
    ensures processed.Done? && db.Get(userId, Kind(m)).Some? ==>
      var plain := decrypt(db.Get(userId, Kind(m)).value.data);
      && (plain.Raised? ==> r == ErrorResponse(plain.exc))
      && (plain.Done? ==> r.Verification? && r.confidence == Round3(Similarity(m, plain.value, processed.value.template, decode, sqrt)))
  {
    if processed.Raised? then ErrorResponse(processed.exc)
    else
      match db.Get(userId, Kind(m))
      case None => ErrorResponse(HttpExc(404, NotEnrolledDetail(m)))
      case Some(row) =>
        match decrypt(row.data)
        case Raised(e) => ErrorResponse(e)
        case Done(plain) =>
          var s := Similarity(m, plain, processed.value.template, decode, sqrt);
          Verification(s > Threshold(m), Round3(s), processed.value.quality)
  }

  /** A verification response always carries a confidence in [0, 1]. */
  lemma VerifyConfidenceInUnit(m: Modality, db: TemplateStore.Store, userId: string,
                               processed: Outcome<Processed>, decrypt: string -> Outcome<string>,
                               decode: string -> Option<seq<real>>, sqrt: real -> real)
    requires IsSqrt(sqrt)
    ensures var r := Verify(m, db, userId, processed, decrypt, decode, sqrt);
      r.Verification? ==> 0.0 <= r.confidence <= 1.0
  {
    var r := Verify(m, db, userId, processed, decrypt, decode, sqrt);
    if r.Verification? {
      var plain := decrypt(db.Get(userId, Kind(m)).value.data).value;
      Round3Unit(Similarity(m, plain, processed.value.template, decode, sqrt));
    }
  }

  /** Verification is strict: a similarity exactly at the threshold is rejected. */
  lemma ThresholdIsStrict(m: Modality, db: TemplateStore.Store, userId: string,
                          processed: Outcome<Processed>, decrypt: string -> Outcome<string>,
                          decode: string -> Option<seq<real>>, sqrt: real -> real)
    requires IsSqrt(sqrt)
    requires var r := Verify(m, db, userId, processed, decrypt, decode, sqrt);
      r.Verification? && Similarity(m, decrypt(db.Get(userId, Kind(m)).value.data).value,
                                    processed.value.template, decode, sqrt) == Threshold(m)
    ensures !Verify(m, db, userId, processed, decrypt, decode, sqrt).verified
  {
  }

  /**
   * Enrolment followed by verification with the same capture: when the stored row holds
   * the encrypted template, as `Enroll`'s success leaves it, and the cipher round-trips,
   * the capture verifies with confidence 1.
   */
  lemma VerifyAfterEnroll(m: Modality, db: TemplateStore.Store, userId: string, p: Processed,
                          encrypt: string -> Outcome<string>, decrypt: string -> Outcome<string>,
                          decode: string -> Option<seq<real>>, sqrt: real -> real)
    requires IsSqrt(sqrt)
    requires encrypt(p.template).Done? && decrypt(encrypt(p.template).value) == Done(p.template)
    requires db.Get(userId, Kind(m)).Some? && db.Get(userId, Kind(m)).value.data == encrypt(p.template).value
    requires decode(p.template).Some?
    requires m == Fingerprint ==> Dot(decode(p.template).value, decode(p.template).value) != 0.0
    requires m == Face ==> Dot(Centered(decode(p.template).value), Centered(decode(p.template).value)) != 0.0
    ensures Verify(m, db, userId, Done(p), decrypt, decode, sqrt) == Verification(true, 1.0, p.quality)
  {
    Round3OnGrid(1000);
    match m
    case Fingerprint => CompareFingerprintSelf(p.template, decode, sqrt);
    case Face => CompareFaceSelf(p.template, decode, sqrt);
  }

  /**
   * `enroll_fingerprint` / `enroll_face`: reject non-images with 400, otherwise process,
   * encrypt and upsert the template, answering with the stored template id.
   */
  method Enroll(m: Modality, db: TemplateStore.Store, userId: string, contentType: string,
                processed: Outcome<Processed>, encrypt: string -> Outcome<string>,
                freshId: string, now: int) returns (r: Response)
    requires db.Valid() && !db.IdInUse(freshId)
    modifies db
    ensures db.Valid()
    ensures !IsImage(contentType) ==> r == HttpError(400, "File must be an image") && db.rows == old(db.rows)
    ensures IsImage(contentType) && processed.Raised? ==> r == ErrorResponse(processed.exc) && db.rows == old(db.rows)
    ensures IsImage(contentType) && processed.Done? && encrypt(processed.value.template).Raised? ==>
      r == ErrorResponse(encrypt(processed.value.template).exc) && db.rows == old(db.rows)
    ensures (IsImage(contentType) && processed.Done? && encrypt(processed.value.template).Done?
             && TemplateStore.StoredQuality(processed.value.quality).None?) ==>
      r == HttpError(500, "numeric field overflow") && db.rows == old(db.rows)
    ensures (IsImage(contentType) && processed.Done? && encrypt(processed.value.template).Done?
             && TemplateStore.StoredQuality(processed.value.quality).Some?) ==> r.Enrolled?
    ensures r.Enrolled? ==> (processed.Done? && encrypt(processed.value.template).Done?
      && db.Get(userId, Kind(m)).Some?
      && db.Get(userId, Kind(m)).value.templateId == r.templateId
      && db.Get(userId, Kind(m)).value.data == encrypt(processed.value.template).value
      && db.Get(userId, Kind(m)).value.quality == TemplateStore.StoredQuality(processed.value.quality).value
      && r.quality == processed.value.quality)
    ensures db.rows.Keys <= old(db.rows.Keys) + {TemplateStore.Key(userId, Kind(m))}
    ensures forall k :: k in old(db.rows) && k != TemplateStore.Key(userId, Kind(m)) ==>
      k in db.rows && db.rows[k] == old(db.rows)[k]
  {
    if !IsImage(contentType) {
      return ErrorResponse(HttpExc(400, "File must be an image"));
    }
    if processed.Raised? {
      return ErrorResponse(processed.exc);
    }
    var sealed := encrypt(processed.value.template);
    if sealed.Raised? {
      return ErrorResponse(sealed.exc);
    }
    var stored := db.StoreTemplate(userId, Kind(m), sealed.value, processed.value.quality, freshId, now);
    if stored.Err? {
      return ErrorResponse(ValueExc(stored.error));
    }
    r := Enrolled(stored.value, processed.value.quality);
  }
}
