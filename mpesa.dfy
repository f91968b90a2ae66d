/**
 * The M-Pesa (Safaricom Daraja) helpers of the two payment services: MSISDN formatting
 * and validation, the STK timestamp and password, the query result mapping and the
 * rounding of the STK amount.
 *
 * Both services format phone numbers with the same code, modelled once in `MpesaService`;
 * they differ in validation, which the integration service applies to the raw input.
 */
module MpesaService {
  import opened JsText

  /** The characters of /[\s\-+]/g. */
  predicate IsStripped(c: char) { IsSpace(c) || c == '-' || c == '+' }

  predicate StartsWith254(s: string) { |s| >= 3 && s[..3] == "254" }

  /** `formatPhoneNumber`: strip blanks, dashes and '+', turn a leading 0 into 254, add 254 when missing. */
  function FormatPhoneNumber(phone: string): (r: string)
    ensures StartsWith254(r)
    ensures forall i :: 0 <= i < |r| ==> !IsStripped(r[i])
  {
    var f := RemoveAll(phone, IsStripped);
    var g := if |f| > 0 && f[0] == '0' then "254" + f[1..] else f;
    if StartsWith254(g) then g else "254" + g
  }

  /** A number written with a leading 0, with 254 or with +254 formats to the same MSISDN. */
  lemma PrefixesAgree(local: string)
    requires forall i :: 0 <= i < |local| ==> !IsStripped(local[i])
    ensures FormatPhoneNumber("0" + local) == "254" + local
    ensures FormatPhoneNumber("254" + local) == "254" + local
    ensures FormatPhoneNumber("+254" + local) == "254" + local
  {
    LeadingZero(local);
    Already254(local);
    PlusPrefix(local);
  }

  lemma LeadingZero(local: string)
    requires forall i :: 0 <= i < |local| ==> !IsStripped(local[i])
    ensures FormatPhoneNumber("0" + local) == "254" + local
  {
    var p := "0" + local;
    RemoveAllKeeps(p, IsStripped);
    assert p[1..] == local;
    assert ("254" + local)[..3] == "254";
  }

  lemma Already254(local: string)
    requires forall i :: 0 <= i < |local| ==> !IsStripped(local[i])
    ensures FormatPhoneNumber("254" + local) == "254" + local
  {
    var p := "254" + local;
    RemoveAllKeeps(p, IsStripped);
    assert p[0] == '2';
    assert p[..3] == "254";
  }

  lemma PlusPrefix(local: string)
    requires forall i :: 0 <= i < |local| ==> !IsStripped(local[i])
    ensures FormatPhoneNumber("+254" + local) == "254" + local
  {
    var p := "254" + local;
    RemoveAllKeeps(p, IsStripped);
    RemoveAllAppend("+", p, IsStripped);
    assert "+254" + local == "+" + p;
    assert RemoveAll("+", IsStripped) == [] by {
      assert "+"[1..] == [];
    }
    assert RemoveAll("+254" + local, IsStripped) == p;
    Already254(local);
  }

  /** Formatting a formatted number changes nothing. */
  lemma FormatIdempotent(phone: string)
    ensures FormatPhoneNumber(FormatPhoneNumber(phone)) == FormatPhoneNumber(phone)
  {
    var r := FormatPhoneNumber(phone);
    RemoveAllKeeps(r, IsStripped);
    assert r[0] == '2';
  }

  /** /^254[17]\d{8}$/: 254, then 1 or 7, then eight digits. */
  predicate IsKenyanMsisdn(s: string)
  {
    |s| == 12 && s[..3] == "254" && (s[3] == '1' || s[3] == '7') && forall i :: 4 <= i < 12 ==> IsDigit(s[i])
  }

  /** `validatePhoneNumber`: the formatted number must be a Kenyan MSISDN. */
  predicate ValidatePhoneNumber(phone: string)
  {
    IsKenyanMsisdn(FormatPhoneNumber(phone))
  }

  /** The nine-digit subscriber part: exactly the numbers that validate in each written form. */
  lemma {:induction false} SubscriberForms(sub: string)
    requires forall i :: 0 <= i < |sub| ==> !IsStripped(sub[i])
    ensures ValidatePhoneNumber("0" + sub) <==> IsKenyanMsisdn("254" + sub)
    ensures ValidatePhoneNumber("+254" + sub) <==> IsKenyanMsisdn("254" + sub)
    ensures IsKenyanMsisdn("254" + sub) <==>
              |sub| == 9 && (sub[0] == '1' || sub[0] == '7') && forall i :: 1 <= i < 9 ==> IsDigit(sub[i])
  {
    PrefixesAgree(sub);
    var m := "254" + sub;
    assert m[..3] == "254";
    assert forall i :: 3 <= i < |m| ==> m[i] == sub[i - 3];
  }

  /** `generateTimestamp` from the clock's local fields (`getMonth` counts from 0). */
  function Timestamp(year: nat, month0: nat, day: nat, hours: nat, minutes: nat, seconds: nat): (r: string)
    ensures AllChars(r, IsDigit)
  {
    NatToString(year) + Pad2(month0 + 1) + Pad2(day) + Pad2(hours) + Pad2(minutes) + Pad2(seconds)
  }

  lemma FourDigits(n: nat)
    requires 1000 <= n < 10000
    ensures |NatToString(n)| == 4
  {
    assert NatToString(n) == NatToString(n / 10) + [DigitChar(n % 10)];
    assert NatToString(n / 10) == NatToString(n / 100) + [DigitChar(n / 10 % 10)];
    assert NatToString(n / 100) == NatToString(n / 1000) + [DigitChar(n / 100 % 10)];
  }

  /** For a four-digit year and clock fields in range the stamp is YYYYMMDDHHmmss, every field readable back. */
  lemma TimestampFields(year: nat, month0: nat, day: nat, hours: nat, minutes: nat, seconds: nat)
    requires 1000 <= year < 10000 && month0 < 12 && 1 <= day <= 31 && hours < 24 && minutes < 60 && seconds < 60
    ensures var r := Timestamp(year, month0, day, hours, minutes, seconds);
      && |r| == 14
      && DigitsToNat(r[..4]) == year
      && DigitsToNat(r[4..6]) == month0 + 1
      && DigitsToNat(r[6..8]) == day
      && DigitsToNat(r[8..10]) == hours
      && DigitsToNat(r[10..12]) == minutes
      && DigitsToNat(r[12..]) == seconds
  {
    var r := Timestamp(year, month0, day, hours, minutes, seconds);
    FourDigits(year);
    DigitsToNatOfNatToString(year);
    Pad2Value(month0 + 1);
    Pad2Value(day);
    Pad2Value(hours);
    Pad2Value(minutes);
    Pad2Value(seconds);
    assert r[..4] == NatToString(year);
    assert r[4..6] == Pad2(month0 + 1);
    assert r[6..8] == Pad2(day);
    assert r[8..10] == Pad2(hours);
    assert r[10..12] == Pad2(minutes);
    assert r[12..] == Pad2(seconds);
  }

  /** `generatePassword`: the encoding (`base64`) of shortcode, passkey and timestamp in that order. */
  function Password(shortcode: string, passkey: string, timestamp: string, base64: string -> string): string
  {
    base64(shortcode + passkey + timestamp)
  }

  /** Whoever can decode the password reads the timestamp off its end. */
  lemma PasswordCarriesTimestamp(shortcode: string, passkey: string, timestamp: string,
                                 base64: string -> string, decode: string -> string)
    requires forall s :: decode(base64(s)) == s
    ensures var plain := decode(Password(shortcode, passkey, timestamp, base64));
      && |plain| >= |timestamp|
      && plain[|plain| - |timestamp|..] == timestamp
      && plain[..|shortcode|] == shortcode
  {
    var plain := decode(Password(shortcode, passkey, timestamp, base64));
    assert plain == shortcode + passkey + timestamp;
  }
}

module MpesaIntegration {
  import opened Wrappers
  import opened JsText
  import MpesaService

  /** `validatePhoneNumber` of the integration service: the raw input, not formatted first. */
  predicate ValidatePhoneNumber(phone: string)
  {
    MpesaService.IsKenyanMsisdn(phone)
  }

  /** A number this service accepts is already formatted, and the other service accepts it too. */
  lemma {:induction false} RawValidImpliesFormatted(phone: string)
    requires ValidatePhoneNumber(phone)
    ensures MpesaService.FormatPhoneNumber(phone) == phone
    ensures MpesaService.ValidatePhoneNumber(phone)
  {
    forall i | 0 <= i < |phone|
      ensures !MpesaService.IsStripped(phone[i])
    {
      if i >= 4 {
        assert IsDigit(phone[i]);
      } else {
        assert phone[..4][i] == phone[i];
      }
    }
    RemoveAllKeeps(phone, MpesaService.IsStripped);
  }

  /** The local form is rejected here although the formatting service accepts it. */
  lemma LocalFormRejected(sub: string)
    requires forall i :: 0 <= i < |sub| ==> !MpesaService.IsStripped(sub[i])
    ensures !ValidatePhoneNumber("0" + sub)
  {
    assert ("0" + sub)[0] == '0';
  }

  datatype Status = Completed | Failed | Pending

  datatype QueryResult = QueryResult(success: bool, status: Status)

  /**
   * The STK query result: the response's ResultCode, or None when the query POST failed.
   * A failed token request happens before the `try` and rejects the promise instead.
   */
  function QueryTransaction(resultCode: Option<string>): (q: QueryResult)
    ensures q.success <==> resultCode == Some("0")
    ensures q.success <==> q.status == Completed
    ensures q.status == Failed <==> resultCode == None || resultCode == Some("1032")
    ensures q.status == Pending <==> resultCode.Some? && resultCode.value != "0" && resultCode.value != "1032"
  {
    match resultCode
    case None => QueryResult(false, Failed)
    case Some(code) =>
      QueryResult(code == "0", if code == "0" then Completed else if code == "1032" then Failed else Pending)
  }

  /** `Math.round`: the nearest integer, halves rounded up. */
  function Round(x: real): (r: int)
    ensures x - 0.5 < r as real <= x + 0.5
  {
    (x + 0.5).Floor
  }

  /** Whole amounts are sent unchanged and a half is rounded towards +infinity. */
  lemma RoundProperties(n: int)
    ensures Round(n as real) == n
    ensures Round(n as real + 0.5) == n + 1
    ensures Round(n as real - 0.5) == n
  {
  }
}
