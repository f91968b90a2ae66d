/**
 * The AI/ML service's rule-based fraud detector: eight indicators each add a weight to a
 * risk that is capped at 1, read off as a level and a fraud flag.
 *
 * Risk is counted in hundredths (0.3 is 30), so the sums are exact; a missing feature is
 * `None` and takes the source's default.
 */
module FraudDetection {
  import opened Wrappers

  datatype Features = Features(amount: Option<real>, isUnusualTime: Option<bool>, transactionVelocity: Option<real>,
                               accountAgeDays: Option<real>, isRoundAmount: Option<bool>, locationChange: Option<bool>,
                               newDevice: Option<bool>, amountRatio: Option<real>)

  const HighAmountThreshold: real := 50000.0
  const VelocityThreshold: real := 5.0

  datatype Indicator =
    | HighAmount | UnusualTime | HighVelocity | NewAccount | RoundAmount | LocationChange | NewDevice | AmountAboveAverage
    | NoIndicators

  datatype Level = Low | Medium | High | Critical

  /** `fraud_probability` in hundredths; `risk_score` (0-100) is the same number. */
  datatype Verdict = Verdict(isFraud: bool, probability: nat, riskLevel: Level, reasons: seq<Indicator>)

  function Flag(o: Option<bool>): bool { if o.Some? then o.value else false }
  function Num(o: Option<real>, default: real): real { if o.Some? then o.value else default }

  /** The weight of each indicator, in hundredths. */
  function Weight(i: Indicator): nat
  {
    match i
    case HighAmount => 30
    case UnusualTime => 20
    case HighVelocity => 25
    case NewAccount => 15
    case RoundAmount => 10
    case LocationChange => 20
    case NewDevice => 15
    case AmountAboveAverage => 25
    case NoIndicators => 0
  }

  /** Whether an indicator's rule fires on the features. */
  predicate Fires(i: Indicator, f: Features)
  {
    match i
    case HighAmount => Num(f.amount, 0.0) > HighAmountThreshold
    case UnusualTime => Flag(f.isUnusualTime)
    case HighVelocity => Num(f.transactionVelocity, 0.0) > VelocityThreshold
    case NewAccount => Num(f.accountAgeDays, 365.0) < 7.0
    case RoundAmount => Flag(f.isRoundAmount)
    case LocationChange => Flag(f.locationChange)
    case NewDevice => Flag(f.newDevice)
    case AmountAboveAverage => Num(f.amountRatio, 1.0) > 5.0
    case NoIndicators => false
  }

  /** The rules in the order they are checked. */
  const Rules: seq<Indicator> :=
    [HighAmount, UnusualTime, HighVelocity, NewAccount, RoundAmount, LocationChange, NewDevice, AmountAboveAverage]

  /** The indicators among `rules` that fire, in order. */
  function Fired(rules: seq<Indicator>, f: Features): (r: seq<Indicator>)
    ensures |r| <= |rules|
  {
    if rules == [] then []
    else Fired(rules[..|rules| - 1], f) + (if Fires(rules[|rules| - 1], f) then [rules[|rules| - 1]] else [])
  }

  /** An indicator is reported exactly when it is one of the rules and fires. */
  lemma {:induction false} FiredMembers(rules: seq<Indicator>, f: Features)
    ensures forall i :: i in Fired(rules, f) <==> i in rules && Fires(i, f)
    decreases |rules|
  {
    if rules != [] {
      FiredMembers(rules[..|rules| - 1], f);
      assert rules == rules[..|rules| - 1] + [rules[|rules| - 1]];
    }
  }

  function TotalWeight(s: seq<Indicator>): nat
  {
    if s == [] then 0 else TotalWeight(s[..|s| - 1]) + Weight(s[|s| - 1])
  }

  function Cap(x: nat): (r: nat)
    ensures r <= 100 && (x <= 100 ==> r == x)
  {
    if x < 100 then x else 100
  }

  function LevelOf(p: nat): Level
  {
    if p >= 80 then Critical else if p >= 60 then High else if p >= 40 then Medium else Low
  }

  /** What `predict` returns. */
  function Judge(f: Features): Verdict
  {
    var fired := Fired(Rules, f);
    var p := Cap(TotalWeight(fired));
    Verdict(p >= 70, p, LevelOf(p), if fired == [] then [NoIndicators] else fired)
  }

  /** `predict`: each rule that fires adds its weight and its reason; then cap, classify, flag. */
  method Predict(f: Features) returns (v: Verdict)
    ensures v == Judge(f)
    ensures v.probability <= 100
    ensures v.isFraud <==> v.probability >= 70
    ensures v.reasons != []
  {
    var riskScore, reasons := ScoreRules(f);
    riskScore := if riskScore < 100 then riskScore else 100;
    var riskLevel: Level;
    if riskScore >= 80 {
      riskLevel := Critical;
    } else if riskScore >= 60 {
      riskLevel := High;
    } else if riskScore >= 40 {
      riskLevel := Medium;
    } else {
      riskLevel := Low;
    }
    var isFraud := riskScore >= 70;
    v := Verdict(isFraud, riskScore, riskLevel, if reasons != [] then reasons else [NoIndicators]);
  }

  /** The loop of `predict`: each rule that fires, in order, adds its weight and its reason. */
  method ScoreRules(f: Features) returns (riskScore: nat, reasons: seq<Indicator>)
    ensures reasons == Fired(Rules, f) && riskScore == TotalWeight(reasons)
  {
    reasons := [];
    riskScore := 0;
    var k := 0;
    while k < |Rules|
      invariant 0 <= k <= |Rules|
      invariant reasons == Fired(Rules[..k], f)
      invariant riskScore == TotalWeight(reasons)
    {
      var rule := Rules[k];
      FiredStep(Rules, k, f);
      if Fires(rule, f) {
        assert TotalWeight(reasons + [rule]) == TotalWeight(reasons) + Weight(rule) by {
          assert (reasons + [rule])[..|reasons|] == reasons;
        }
        riskScore := riskScore + Weight(rule);
        reasons := reasons + [rule];
      }
      k := k + 1;
    }
    assert Rules[..k] == Rules;
  }

  /** One more rule checked: its indicator is added when it fires. */
  lemma FiredStep(rules: seq<Indicator>, k: nat, f: Features)
    requires k < |rules|
    ensures Fired(rules[..k + 1], f) == Fired(rules[..k], f) + (if Fires(rules[k], f) then [rules[k]] else [])
  {
    assert rules[..k + 1][..k] == rules[..k];
  }

  lemma {:induction false} TotalWeightAppend(a: seq<Indicator>, b: seq<Indicator>)
    ensures TotalWeight(a + b) == TotalWeight(a) + TotalWeight(b)
    decreases |b|
  {
    if b != [] {
      TotalWeightAppend(a, b[..|b| - 1]);
      assert (a + b)[..|a + b| - 1] == a + b[..|b| - 1];
      assert (a + b)[|a + b| - 1] == b[|b| - 1];
    } else {
      assert a + b == a;
    }
  }

  /** No single weight exceeds 30, so the total is at most 30 per indicator fired. */
  lemma {:induction false} TotalWeightBound(s: seq<Indicator>)
    ensures TotalWeight(s) <= 30 * |s|
    decreases |s|
  {
    if s != [] {
      TotalWeightBound(s[..|s| - 1]);
    }
  }

  /** A fraud flag needs at least three indicators: no two weights reach 0.7. */
  lemma FraudNeedsThreeIndicators(f: Features)
    requires Judge(f).isFraud
    ensures |Fired(Rules, f)| >= 3
  {
    TotalWeightBound(Fired(Rules, f));
  }

  /** Flagged transactions are at least HIGH risk. */
  lemma FraudIsHighRisk(f: Features)
    ensures Judge(f).isFraud ==> Judge(f).riskLevel == High || Judge(f).riskLevel == Critical
  {
  }

  /** With no indicator the risk is 0, the level LOW, nothing is flagged and the reason says so. */
  lemma Clean(f: Features)
    requires forall i :: i in Rules ==> !Fires(i, f)
    ensures Judge(f) == Verdict(false, 0, Low, [NoIndicators])
  {
    NoneFired(Rules, f);
  }

  lemma {:induction false} NoneFired(rules: seq<Indicator>, f: Features)
    requires forall i :: i in rules ==> !Fires(i, f)
    ensures Fired(rules, f) == []
    decreases |rules|
  {
    if rules != [] {
      assert rules[|rules| - 1] in rules;
      NoneFired(rules[..|rules| - 1], f);
    }
  }

  /** Large amount, unusual time and high velocity together are flagged (0.3 + 0.2 + 0.25 = 0.75). */
  lemma ThreeStrongIndicators(f: Features)
    requires Fires(HighAmount, f) && Fires(UnusualTime, f) && Fires(HighVelocity, f)
    ensures Judge(f).isFraud
  {
    var r3 := [HighAmount, UnusualTime, HighVelocity];
    assert Rules == r3 + Rules[3..];
    FiredFirstThree(f);
    FiredAppend(r3, Rules[3..], f);
    TotalWeightAppend(Fired(r3, f), Fired(Rules[3..], f));
  }

  lemma FiredFirstThree(f: Features)
    requires Fires(HighAmount, f) && Fires(UnusualTime, f) && Fires(HighVelocity, f)
    ensures Fired([HighAmount, UnusualTime, HighVelocity], f) == [HighAmount, UnusualTime, HighVelocity]
    ensures TotalWeight([HighAmount, UnusualTime, HighVelocity]) == 75
  {
    var r3 := [HighAmount, UnusualTime, HighVelocity];
    assert r3[..2] == [HighAmount, UnusualTime];
    assert r3[..2][..1] == [HighAmount];
    assert r3[..2][..1][..0] == [];
    assert Fired(r3[..2][..1], f) == [HighAmount];
    assert Fired(r3[..2], f) == [HighAmount, UnusualTime];
    assert TotalWeight([HighAmount]) == 30 by { assert [HighAmount][..0] == []; }
    assert TotalWeight([HighAmount, UnusualTime]) == 50 by { assert [HighAmount, UnusualTime][..1] == [HighAmount]; }
  }

  lemma {:induction false} FiredAppend(a: seq<Indicator>, b: seq<Indicator>, f: Features)
    ensures Fired(a + b, f) == Fired(a, f) + Fired(b, f)
    decreases |b|
  {
    if b != [] {
      FiredAppend(a, b[..|b| - 1], f);
      assert (a + b)[..|a + b| - 1] == a + b[..|b| - 1];
      assert (a + b)[|a + b| - 1] == b[|b| - 1];
    } else {
      assert a + b == a;
    }
  }

  /** `_is_unusual_time`: at or after 22:00 or at or before 06:00 (time of day in microseconds); unparsable is False. */
  function IsUnusualTime(timeOfDay: Option<nat>): bool
  {
    match timeOfDay
    case None => false
    case Some(t) => 22 * 3600 * 1000000 <= t || t <= 6 * 3600 * 1000000
  }

  /** Both bounds are inclusive: 22:00:00 and 06:00:00 exactly are unusual, 06:00:00.000001 is not. */
  lemma UnusualTimeBounds()
    ensures IsUnusualTime(Some(22 * 3600 * 1000000)) && IsUnusualTime(Some(6 * 3600 * 1000000))
    ensures !IsUnusualTime(Some(6 * 3600 * 1000000 + 1)) && !IsUnusualTime(Some(22 * 3600 * 1000000 - 1))
    ensures !IsUnusualTime(None)
  {
  }
}
