/**
 * The AI/ML service's rule-based credit risk scorer: a score that starts at 50 and moves
 * with six factors, clamped to [0, 100], a risk level read off the score and a credit limit
 * from the level, the transaction count and KYC.
 *
 * Each feature is a key of a Python dict: missing (`get` then gives the source's default),
 * present with None, or present with a value. A None among the compared numbers makes `>`
 * raise TypeError. Scores and limits are exact reals; every step of the source adds or
 * multiplies small integers and the halves and fifths below, so no rounding is involved
 * except in `credit_limit`'s 1.2.
 */
module RiskScoring {
  import opened Wrappers
  import opened JsText

  /** One key of the features dict. */
  datatype Feature<T> = Missing | Null | Given(value: T)

  datatype Features = Features(kycVerified: Feature<bool>, accountAgeDays: Feature<real>,
                               totalTransactions: Feature<real>, averageTransactionAmount: Feature<real>,
                               failedTransactions: Feature<real>, disputes: Feature<int>)

  datatype Level = Low | Medium | High | Critical

  /** The reasons `predict` reports; `Text` is the message each carries. */
  datatype Reason =
    | KycVerified | KycNotVerified
    | EstablishedAccount | MatureAccount | VeryNewAccount
    | StrongHistory | GoodHistory | LimitedHistory
    | HighAverageAmount | LowAverageAmount
    | MultipleFailures
    | Disputes(count: nat)

  function Text(r: Reason): string
  {
    match r
    case KycVerified => "KYC verified"
    case KycNotVerified => "KYC not verified"
    case EstablishedAccount => "Established account (>1 year)"
    case MatureAccount => "Mature account (>3 months)"
    case VeryNewAccount => "Very new account (<7 days)"
    case StrongHistory => "Strong transaction history (>100 txns)"
    case GoodHistory => "Good transaction history (>20 txns)"
    case LimitedHistory => "Limited transaction history (<5 txns)"
    case HighAverageAmount => "High average transaction amount"
    case LowAverageAmount => "Low average transaction amount"
    case MultipleFailures => "Multiple failed transactions"
    case Disputes(n) => "Transaction disputes (" + NatToString(n) + ")"
  }

  datatype Assessment = Assessment(riskScore: real, riskLevel: Level, creditLimit: real, reasons: seq<Reason>)

  /** What `predict` ends in: an assessment, or the TypeError of comparing None with a number. */
  datatype Outcome = Scored(assessment: Assessment) | TypeError

  /** `features.get(key, False)` used as a condition: None is falsy. */
  function GetBool(o: Feature<bool>): bool { o.Given? && o.value }
  /** `features.get(key, 0)` where it is compared; a None never gets this far. */
  function GetReal(o: Feature<real>): real { if o.Given? then o.value else 0.0 }
  function GetInt(o: Feature<int>): int { if o.Given? then o.value else 0 }

  /** None of the five numbers `predict` compares is None. */
  predicate Comparable(f: Features)
  {
    !f.accountAgeDays.Null? && !f.totalTransactions.Null? && !f.averageTransactionAmount.Null?
    && !f.failedTransactions.Null? && !f.disputes.Null?
  }

  /** The base credit limit of each level, in KES. */
  function BaseLimit(level: Level): real
  {
    match level
    case Low => 100000.0
    case Medium => 50000.0
    case High => 20000.0
    case Critical => 5000.0
  }

  // Each factor's contribution to the score, as an independent table of cases.

  function KycDelta(f: Features): real { if GetBool(f.kycVerified) then -15.0 else 20.0 }

  function AgeDelta(f: Features): real
  {
    var age := GetReal(f.accountAgeDays);
    if age > 365.0 then -10.0 else if age > 90.0 then -5.0 else if age < 7.0 then 15.0 else 0.0
  }

  function HistoryDelta(f: Features): real
  {
    var n := GetReal(f.totalTransactions);
    if n > 100.0 then -10.0 else if n > 20.0 then -5.0 else if n < 5.0 then 10.0 else 0.0
  }

  function AmountDelta(f: Features): real
  {
    var a := GetReal(f.averageTransactionAmount);
    if a > 10000.0 then -5.0 else if a < 500.0 then 5.0 else 0.0
  }

  function FailedDelta(f: Features): real { if GetReal(f.failedTransactions) > 5.0 then 15.0 else 0.0 }

  function DisputeDelta(f: Features): real
  {
    var d := GetInt(f.disputes);
    if d > 0 then 10.0 * d as real else 0.0
  }

  /** The unclamped score: 50 plus the six contributions. */
  function RawScore(f: Features): real
  {
    50.0 + KycDelta(f) + AgeDelta(f) + HistoryDelta(f) + AmountDelta(f) + FailedDelta(f) + DisputeDelta(f)
  }

  function Clamp(x: real): (r: real)
    ensures 0.0 <= r <= 100.0
    ensures 0.0 <= x <= 100.0 ==> r == x
  {
    if x > 100.0 then 100.0 else if x < 0.0 then 0.0 else x
  }

  function LevelOf(score: real): Level
  {
    if score >= 75.0 then Critical else if score >= 60.0 then High else if score >= 40.0 then Medium else Low
  }

  function Rank(level: Level): nat
  {
    match level
    case Low => 0
    case Medium => 1
    case High => 2
    case Critical => 3
  }

  /** A higher score never gives a lower level. */
  lemma LevelMonotone(a: real, b: real)
    requires a <= b
    ensures Rank(LevelOf(a)) <= Rank(LevelOf(b))
  {
  }

  function LimitOf(level: Level, f: Features): real
  {
    var n := GetReal(f.totalTransactions);
    var limit := if n > 100.0 then BaseLimit(level) * 1.5 else if n > 50.0 then BaseLimit(level) * 1.2 else BaseLimit(level);
    if GetBool(f.kycVerified) then limit else limit * 0.5
  }

  function KycReasons(f: Features): seq<Reason>
  {
    if GetBool(f.kycVerified) then [KycVerified] else [KycNotVerified]
  }

  function AgeReasons(f: Features): seq<Reason>
  {
    var age := GetReal(f.accountAgeDays);
    if age > 365.0 then [EstablishedAccount] else if age > 90.0 then [MatureAccount]
    else if age < 7.0 then [VeryNewAccount] else []
  }

  function HistoryReasons(f: Features): seq<Reason>
  {
    var n := GetReal(f.totalTransactions);
    if n > 100.0 then [StrongHistory] else if n > 20.0 then [GoodHistory]
    else if n < 5.0 then [LimitedHistory] else []
  }

  function AmountReasons(f: Features): seq<Reason>
  {
    var a := GetReal(f.averageTransactionAmount);
    if a > 10000.0 then [HighAverageAmount] else if a < 500.0 then [LowAverageAmount] else []
  }

  function FailedReasons(f: Features): seq<Reason>
  {
    if GetReal(f.failedTransactions) > 5.0 then [MultipleFailures] else []
  }

  function DisputeReasons(f: Features): seq<Reason>
  {
    var d := GetInt(f.disputes);
    if d > 0 then [Disputes(d)] else []
  }

  /** The explanation, one entry per factor that fired, in the order the factors are checked. */
  function Reasons(f: Features): seq<Reason>
  {
    KycReasons(f) + AgeReasons(f) + HistoryReasons(f) + AmountReasons(f) + FailedReasons(f) + DisputeReasons(f)
  }

  /** What `predict` returns, factor by factor, when it does not raise. */
  function Assess(f: Features): Assessment
  {
    var score := Clamp(RawScore(f));
    Assessment(score, LevelOf(score), LimitOf(LevelOf(score), f), Reasons(f))
  }

  /** `predict` as a whole: TypeError exactly when a compared number is None. */
  function PredictOutcome(f: Features): Outcome
  {
    if Comparable(f) then Scored(Assess(f)) else TypeError
  }

  /**
   * The first half of `predict`: the score moved rule by rule from 50, with a reason per rule
   * that fired; `ok` is false when a comparison raised.
   */
  method ApplyFactors(f: Features) returns (ok: bool, riskScore: real, reasons: seq<Reason>)
    ensures ok <==> Comparable(f)
    ensures ok ==> riskScore == RawScore(f) && reasons == Reasons(f)
  {
    ok, riskScore, reasons := ApplyAccountFactors(f, 50.0, []);
    if !ok {
      return;
    }
    assert [] + KycReasons(f) == KycReasons(f);
    ok, riskScore, reasons := ApplyActivityFactors(f, riskScore, reasons);
  }

  /** The KYC, account-age and history rules, in that order; a None age or count raises. */
  method ApplyAccountFactors(f: Features, score: real, before: seq<Reason>) returns (ok: bool, riskScore: real, reasons: seq<Reason>)
    ensures ok <==> !f.accountAgeDays.Null? && !f.totalTransactions.Null?
    ensures ok ==> riskScore == score + KycDelta(f) + AgeDelta(f) + HistoryDelta(f)
    ensures ok ==> reasons == before + KycReasons(f) + AgeReasons(f) + HistoryReasons(f)
  {
    ok, riskScore, reasons := true, score, before;
    if GetBool(f.kycVerified) {
      riskScore := riskScore - 15.0;
      reasons := reasons + [KycVerified];
    } else {
      riskScore := riskScore + 20.0;
      reasons := reasons + [KycNotVerified];
    }
    assert riskScore == score + KycDelta(f) && reasons == before + KycReasons(f);
    if f.accountAgeDays.Null? {
      ok := false;
      return;
    }
    var accountAge := GetReal(f.accountAgeDays);
    if accountAge > 365.0 {
      riskScore := riskScore - 10.0;
      reasons := reasons + [EstablishedAccount];
    } else if accountAge > 90.0 {
      riskScore := riskScore - 5.0;
      reasons := reasons + [MatureAccount];
    } else if accountAge < 7.0 {
      riskScore := riskScore + 15.0;
      reasons := reasons + [VeryNewAccount];
    }
    assert riskScore == score + KycDelta(f) + AgeDelta(f) && reasons == before + KycReasons(f) + AgeReasons(f);
    if f.totalTransactions.Null? {
      ok := false;
      return;
    }
    var totalTxns := GetReal(f.totalTransactions);
    if totalTxns > 100.0 {
      riskScore := riskScore - 10.0;
      reasons := reasons + [StrongHistory];
    } else if totalTxns > 20.0 {
      riskScore := riskScore - 5.0;
      reasons := reasons + [GoodHistory];
    } else if totalTxns < 5.0 {
      riskScore := riskScore + 10.0;
      reasons := reasons + [LimitedHistory];
    }
  }

  /** The average-amount, failed-transaction and dispute rules, in that order; a None among them raises. */
  method ApplyActivityFactors(f: Features, score: real, before: seq<Reason>) returns (ok: bool, riskScore: real, reasons: seq<Reason>)
    ensures ok <==> !f.averageTransactionAmount.Null? && !f.failedTransactions.Null? && !f.disputes.Null?
    ensures ok ==> riskScore == score + AmountDelta(f) + FailedDelta(f) + DisputeDelta(f)
    ensures ok ==> reasons == before + AmountReasons(f) + FailedReasons(f) + DisputeReasons(f)
  {
    ok, riskScore, reasons := true, score, before;
    if f.averageTransactionAmount.Null? {
      ok := false;
      return;
    }
    var avgAmount := GetReal(f.averageTransactionAmount);
    if avgAmount > 10000.0 {
      riskScore := riskScore - 5.0;
      reasons := reasons + [HighAverageAmount];
    } else if avgAmount < 500.0 {
      riskScore := riskScore + 5.0;
      reasons := reasons + [LowAverageAmount];
    }
    assert riskScore == score + AmountDelta(f) && reasons == before + AmountReasons(f);
    if f.failedTransactions.Null? {
      ok := false;
      return;
    }
    if GetReal(f.failedTransactions) > 5.0 {
      riskScore := riskScore + 15.0;
      reasons := reasons + [MultipleFailures];
    }
    assert riskScore == score + AmountDelta(f) + FailedDelta(f);
    assert reasons == before + AmountReasons(f) + FailedReasons(f);
    if f.disputes.Null? {
      ok := false;
      return;
    }
    var disputes := GetInt(f.disputes);
    if disputes > 0 {
      riskScore := riskScore + 10.0 * disputes as real;
      reasons := reasons + [Disputes(disputes)];
    }
  }

  /** `predict`: the factors applied, then the score clamped, classified and turned into a limit. */
  method Predict(f: Features) returns (r: Outcome)
    ensures r == PredictOutcome(f)
    ensures r.Scored? <==> Comparable(f)
    ensures r.Scored? ==> 0.0 <= r.assessment.riskScore <= 100.0 && |r.assessment.reasons| >= 1
    ensures r.Scored? ==> r.assessment.riskLevel == LevelOf(r.assessment.riskScore)
  {
    var ok, riskScore, reasons := ApplyFactors(f);
    if !ok {
      return TypeError;
    }
    var totalTxns := GetReal(f.totalTransactions);
    riskScore := if 100.0 < riskScore then 100.0 else riskScore;
    riskScore := if 0.0 > riskScore then 0.0 else riskScore;
    var riskLevel: Level;
    if riskScore >= 75.0 {
      riskLevel := Critical;
    } else if riskScore >= 60.0 {
      riskLevel := High;
    } else if riskScore >= 40.0 {
      riskLevel := Medium;
    } else {
      riskLevel := Low;
    }
    var baseLimit := BaseLimit(riskLevel);
    var creditLimit: real;
    if totalTxns > 100.0 {
      creditLimit := baseLimit * 1.5;
    } else if totalTxns > 50.0 {
      creditLimit := baseLimit * 1.2;
    } else {
      creditLimit := baseLimit;
    }
    if !GetBool(f.kycVerified) {
      creditLimit := creditLimit * 0.5;
    }
    r := Scored(Assessment(riskScore, riskLevel, creditLimit, reasons));
  }

  /** Each dispute adds 10 to the unclamped score. */
  lemma EachDisputeAddsTen(f: Features, d: nat)
    ensures RawScore(f.(disputes := Given(d + 1))) == RawScore(f.(disputes := Given(d))) + 10.0
  {
  }

  /** Without KYC the score is at least 45, so the level is never LOW and the limit at most 37 500 KES. */
  lemma UnverifiedLimit(f: Features)
    requires !GetBool(f.kycVerified)
    ensures Assess(f).riskScore >= 45.0
    ensures Assess(f).riskLevel != Low
    ensures Assess(f).creditLimit <= 37500.0
  {
  }

  /** The limit lies between 2 500 KES (critical, unverified) and 150 000 KES (low, verified, >100 transactions). */
  lemma LimitRange(f: Features)
    ensures 2500.0 <= Assess(f).creditLimit <= 150000.0
  {
  }

  /** A verified, established, active, high-value customer with no failures or disputes scores 10: LOW. */
  lemma BestCustomer(f: Features)
    requires GetBool(f.kycVerified) && GetReal(f.accountAgeDays) > 365.0 && GetReal(f.totalTransactions) > 100.0
    requires GetReal(f.averageTransactionAmount) > 10000.0 && GetReal(f.failedTransactions) <= 5.0 && GetInt(f.disputes) <= 0
    ensures Assess(f).riskScore == 10.0 && Assess(f).riskLevel == Low && Assess(f).creditLimit == 150000.0
  {
  }

  /** More disputes never lower the score or the level. */
  lemma DisputesMonotone(f: Features, d1: int, d2: int)
    requires d1 <= d2
    ensures Assess(f.(disputes := Given(d1))).riskScore <= Assess(f.(disputes := Given(d2))).riskScore
    ensures Rank(Assess(f.(disputes := Given(d1))).riskLevel) <= Rank(Assess(f.(disputes := Given(d2))).riskLevel)
  {
    var f1 := f.(disputes := Given(d1));
    var f2 := f.(disputes := Given(d2));
    assert DisputeDelta(f1) <= DisputeDelta(f2) by {
      if d1 > 0 {
        assert 10.0 * d1 as real <= 10.0 * d2 as real;
      }
    }
    assert RawScore(f1) <= RawScore(f2);
    LevelMonotone(Assess(f1).riskScore, Assess(f2).riskScore);
  }

  // ---------------------------------------------------------------------------
  // The /api/risk/assess endpoint
  // ---------------------------------------------------------------------------

  /** `RiskAssessmentRequest`'s scored fields; the three optional ones default to None. */
  datatype RiskRequest = RiskRequest(accountAgeDays: Option<int>, kycVerified: bool,
                                     totalTransactions: Option<int>, averageTransactionAmount: Option<real>)

  function AsReal(o: Option<int>): Option<real>
  {
    if o.Some? then Some(o.value as real) else None
  }

  /** One optional field of the request as a dict key: None is kept as a key unless `exclude_none`. */
  function Dumped(o: Option<real>, excludeNone: bool): (r: Feature<real>)
    ensures o.Some? ==> r == Given(o.value)
    ensures o.None? ==> (r.Null? <==> !excludeNone) && (r.Missing? <==> excludeNone)
  {
    if o.Some? then Given(o.value) else if excludeNone then Missing else Null
  }

  /** `request.dict()`: the request's fields as keys; the failure and dispute counts are not among them. */
  function RequestDict(req: RiskRequest, excludeNone: bool): Features
  {
    Features(Given(req.kycVerified), Dumped(AsReal(req.accountAgeDays), excludeNone),
             Dumped(AsReal(req.totalTransactions), excludeNone), Dumped(req.averageTransactionAmount, excludeNone),
             Missing, Missing)
  }

  /** `dict.setdefault`: fills in a missing key and leaves a present one, None included, alone. */
  function SetDefault<T>(o: Feature<T>, default: T): (r: Feature<T>)
    ensures o.Missing? ==> r == Given(default)
    ensures !o.Missing? ==> r == o
  {
    if o.Missing? then Given(default) else o
  }

  /** `engineer_user_features`: the six defaults, for missing keys only. */
  function EngineerUserFeatures(f: Features): (r: Features)
    ensures Comparable(r) <==> Comparable(f)
    ensures !r.accountAgeDays.Missing? && !r.totalTransactions.Missing? && !r.averageTransactionAmount.Missing?
  {
    Features(SetDefault(f.kycVerified, false), SetDefault(f.accountAgeDays, 0.0), SetDefault(f.totalTransactions, 0.0),
             SetDefault(f.averageTransactionAmount, 0.0), SetDefault(f.failedTransactions, 0.0), SetDefault(f.disputes, 0))
  }

  /** `assess_risk` as written: `predict` on `engineer_user_features(request.dict())`; a TypeError is answered 500. */
  function AssessRiskAsWritten(req: RiskRequest): Outcome
  {
    PredictOutcome(EngineerUserFeatures(RequestDict(req, false)))
  }

  /** `assess_risk` corrected: the dict is dumped with `exclude_none`, so an omitted field takes its default. */
  function AssessRisk(req: RiskRequest): Outcome
  {
    PredictOutcome(EngineerUserFeatures(RequestDict(req, true)))
  }

  /** The discrepancy: as written, a request that omits any optional field fails with TypeError (HTTP 500). */
  lemma AssessRiskAsWrittenRaises(req: RiskRequest)
    ensures AssessRiskAsWritten(req) == TypeError <==>
      req.accountAgeDays.None? || req.totalTransactions.None? || req.averageTransactionAmount.None?
  {
  }

  /** The request that gives only a user id and KYC is answered 500. */
  lemma MinimalRequestAsWrittenFails()
    ensures AssessRiskAsWritten(RiskRequest(None, true, None, None)) == TypeError
  {
    AssessRiskAsWrittenRaises(RiskRequest(None, true, None, None));
  }

  /** Corrected, every request is scored, and an omitted field scores as its default 0. */
  lemma AssessRiskAlwaysScores(req: RiskRequest)
    ensures AssessRisk(req).Scored?
    ensures AssessRisk(req) == AssessRisk(RiskRequest(Some(GetInt0(req.accountAgeDays)), req.kycVerified,
      Some(GetInt0(req.totalTransactions)), Some(GetReal0(req.averageTransactionAmount))))
  {
  }

  function GetInt0(o: Option<int>): int { if o.Some? then o.value else 0 }
  function GetReal0(o: Option<real>): real { if o.Some? then o.value else 0.0 }

  /** When the client sends all three optional fields, the corrected endpoint answers as the source does. */
  lemma AssessRiskAgrees(req: RiskRequest)
    requires req.accountAgeDays.Some? && req.totalTransactions.Some? && req.averageTransactionAmount.Some?
    ensures AssessRisk(req) == AssessRiskAsWritten(req)
  {
  }
}
