/**
 * The Luhn check digit both card services compute, over strings of decimal digits.
 * A digit is weighted by its offset from the right end of the number: when the number
 * is to receive a check digit, offsets 0, 2, 4, ... are doubled (and 9 subtracted from
 * a doubled value above 9); when the number already ends in its check digit, offsets
 * 1, 3, 5, ... are.
 */
module Luhn {
  import opened JsText

  predicate IsDigitString(s: string)
  {
    forall i :: 0 <= i < |s| ==> IsDigit(s[i])
  }

  /** The contribution of one digit: itself, or its double folded back below 10. */
  function Weighted(d: nat, doubled: bool): (w: nat)
    requires d < 10
    ensures w < 10
  {
    if !doubled then d else if 2 * d > 9 then 2 * d - 9 else 2 * d
  }

  /**
   * The weighted sum of `s`; `doubleLast` says whether the rightmost digit is doubled.
   * The digit at offset k from the right is doubled iff (k is even) == doubleLast.
   */
  function LuhnSum(s: string, doubleLast: bool): nat
    requires IsDigitString(s)
  {
    if s == [] then 0
    else Weighted(DigitValue(s[0]), (|s| % 2 == 1) == doubleLast) + LuhnSum(s[1..], doubleLast)
  }

  /** The check digit `calculateLuhnCheckDigit` is meant to return. */
  function CheckDigit(s: string): (d: nat)
    requires IsDigitString(s)
    ensures d < 10
  {
    (10 - LuhnSum(s, true) % 10) % 10
  }

  /** A complete number (check digit included) passes the Luhn test. */
  predicate Valid(s: string)
    requires IsDigitString(s)
  {
    LuhnSum(s, false) % 10 == 0
  }

  /**
   * `calculateLuhnCheckDigit`: walk from the last digit to the first, doubling every
   * other digit starting with the last one.
   */
  method CalculateCheckDigit(number: string) returns (d: nat)
    requires IsDigitString(number)
    ensures d == CheckDigit(number)
  {
    var sum := 0;
    var isEven := true;
    var i := |number|;
    while i > 0
      invariant 0 <= i <= |number|
      invariant sum == LuhnSum(number[i..], true)
      invariant isEven <==> (|number| - i) % 2 == 0
    {
      i := i - 1;
      var digit := DigitValue(number[i]);
      if isEven {
        digit := digit * 2;
        if digit > 9 {
          digit := digit - 9;
        }
      }
      assert number[i..][1..] == number[i + 1..];
      sum := sum + digit;
      isEven := !isEven;
    }
    d := (10 - sum % 10) % 10;
  }

  /** Splitting a number: the left part's parity shifts by the length of the right part. */
  lemma {:induction false} LuhnSumAppend(a: string, t: string, doubleLast: bool)
    requires IsDigitString(a) && IsDigitString(t)
    ensures IsDigitString(a + t)
    ensures LuhnSum(a + t, doubleLast) == LuhnSum(a, (|t| % 2 == 0) == doubleLast) + LuhnSum(t, doubleLast)
  {
    assert forall i :: 0 <= i < |a + t| ==> (a + t)[i] == if i < |a| then a[i] else t[i - |a|];
    var q := (|t| % 2 == 0) == doubleLast;
    if a == [] {
      assert a + t == t;
    } else {
      assert (a + t)[0] == a[0];
      assert (a + t)[1..] == a[1..] + t;
      assert ((|a + t| % 2 == 1) == doubleLast) == ((|a| % 2 == 1) == q);
      LuhnSumAppend(a[1..], t, doubleLast);
    }
  }

  /** Two digits that both bring `n` to a multiple of ten are the same digit. */
  lemma SameResidue(n: nat, u: nat, v: nat)
    requires u < 10 && v < 10
    requires (n + u) % 10 == 0 && (n + v) % 10 == 0
    ensures u == v
  {
    assert u == (10 - n % 10) % 10;
    assert v == (10 - n % 10) % 10;
  }

  /** Appending the check digit yields a number that passes the Luhn test. */
  lemma AppendCheckDigitValid(s: string)
    requires IsDigitString(s)
    ensures IsDigitString(s + [DigitChar(CheckDigit(s))])
    ensures Valid(s + [DigitChar(CheckDigit(s))])
  {
    var d := CheckDigit(s);
    var c := [DigitChar(d)];
    LuhnSumAppend(s, c, false);
    LuhnSumSingle(DigitChar(d), false);
    assert DigitValue(DigitChar(d)) == d;
    CompletesToTen(LuhnSum(s, true));
  }

  /** Adding `(10 - n % 10) % 10` brings `n` to a multiple of ten. */
  lemma CompletesToTen(n: nat)
    ensures (n + (10 - n % 10) % 10) % 10 == 0
  {
  }

  /** The check digit is the only digit that completes `s` to a valid number. */
  lemma CheckDigitUnique(s: string, d: nat)
    requires IsDigitString(s) && d < 10
    requires IsDigitString(s + [DigitChar(d)]) && Valid(s + [DigitChar(d)])
    ensures d == CheckDigit(s)
  {
    var c := [DigitChar(d)];
    LuhnSumAppend(s, c, false);
    assert c[1..] == [];
    assert LuhnSum(c, false) == d;
    AppendCheckDigitValid(s);
    var e := [DigitChar(CheckDigit(s))];
    LuhnSumAppend(s, e, false);
    assert e[1..] == [];
    assert LuhnSum(e, false) == CheckDigit(s);
    SameResidue(LuhnSum(s, true), d, CheckDigit(s));
  }

  /** Weighting is a bijection on the digits, doubled or not. */
  lemma WeightedInjective(x: nat, y: nat, doubled: bool)
    requires x < 10 && y < 10 && x != y
    ensures Weighted(x, doubled) != Weighted(y, doubled)
  {
  }

  lemma LuhnSumSingle(x: char, doubleLast: bool)
    requires IsDigit(x)
    ensures IsDigitString([x])
    ensures LuhnSum([x], doubleLast) == Weighted(DigitValue(x), doubleLast)
  {
    assert [x][1..] == [];
  }

  lemma SuccessorParity(n: nat)
    ensures ((n + 1) % 2 == 0) == (n % 2 == 1)
  {
  }

  /** The sum of `a + [x] + b` in three parts: `a`'s, the weighted `x`, and `b`'s. */
  lemma LuhnSumAround(a: string, x: char, b: string)
    requires IsDigitString(a) && IsDigitString(b) && IsDigit(x)
    ensures IsDigitString(a + [x] + b)
    ensures LuhnSum(a + [x] + b, false)
         == LuhnSum(a, (|b| % 2 == 1) == false) + Weighted(DigitValue(x), (|b| % 2 == 0) == false) + LuhnSum(b, false)
  {
    var xb := [x] + b;
    assert a + [x] + b == a + xb;
    var p := (|b| % 2 == 0) == false;
    LuhnSumSingle(x, p);
    LuhnSumAppend([x], b, false);
    assert LuhnSum(xb, false) == Weighted(DigitValue(x), p) + LuhnSum(b, false);
    assert |xb| == |b| + 1;
    SuccessorParity(|b|);
    LuhnSumAppend(a, xb, false);
  }

  /** The Luhn test catches every single-digit substitution. */
  lemma SingleSubstitutionDetected(a: string, x: char, y: char, b: string)
    requires IsDigitString(a) && IsDigitString(b) && IsDigit(x) && IsDigit(y) && x != y
    ensures IsDigitString(a + [x] + b) && IsDigitString(a + [y] + b)
    ensures Valid(a + [x] + b) ==> !Valid(a + [y] + b)
  {
    var p := (|b| % 2 == 0) == false;
    LuhnSumAround(a, x, b);
    LuhnSumAround(a, y, b);
    WeightedInjective(DigitValue(x), DigitValue(y), p);
    if Valid(a + [x] + b) && Valid(a + [y] + b) {
      var n := LuhnSum(a, (|b| % 2 == 1) == false) + LuhnSum(b, false);
      SameResidue(n, Weighted(DigitValue(x), p), Weighted(DigitValue(y), p));
    }
  }
}

/** The fixed exchange-rate table shared, verbatim, by both card services. */
module Currency {
  import opened Wrappers

  /** `rates[from]?.[to]`. */
  function TableRate(from: string, to: string): Option<real>
  {
    if from == "KES" then
      (if to == "USD" then Some(0.0077) else if to == "EUR" then Some(0.0071)
       else if to == "GBP" then Some(0.0061) else None)
    else if from == "USD" then
      (if to == "KES" then Some(130.0) else if to == "EUR" then Some(0.92)
       else if to == "GBP" then Some(0.79) else None)
    else if from == "EUR" then
      (if to == "KES" then Some(141.0) else if to == "USD" then Some(1.09)
       else if to == "GBP" then Some(0.86) else None)
    else if from == "GBP" then
      (if to == "KES" then Some(164.0) else if to == "USD" then Some(1.27)
       else if to == "EUR" then Some(1.16) else None)
    else None
  }

  datatype Conversion = Conversion(amount: real, rate: real)

  /**
   * `convertCurrency`: the same currency converts at rate 1; otherwise the table's rate,
   * falling back to 1 (`|| 1`) for a pair the table does not list.
   */
  function Convert(amount: real, from: string, to: string): (c: Conversion)
    ensures c.amount == amount * c.rate && c.rate > 0.0
    ensures from == to ==> c == Conversion(amount, 1.0)
    ensures from != to && TableRate(from, to).Some? ==> c.rate == TableRate(from, to).value
    ensures TableRate(from, to).None? ==> c == Conversion(amount, 1.0)
  {
    if from == to then Conversion(amount, 1.0)
    else
      var r := TableRate(from, to);
      var rate := if r.Some? && r.value != 0.0 then r.value else 1.0;
      Conversion(amount * rate, rate)
  }

  /** Every listed rate is positive and the table never lists a currency against itself. */
  lemma TableRatesPositive(from: string, to: string)
    ensures TableRate(from, to).Some? ==> TableRate(from, to).value > 0.0 && from != to
  {
  }

  /** Conversion keeps the sign of the amount: a non-negative amount stays non-negative. */
  lemma ConvertKeepsSign(amount: real, from: string, to: string)
    ensures amount >= 0.0 <==> Convert(amount, from, to).amount >= 0.0
  {
    var c := Convert(amount, from, to);
    if amount < 0.0 {
      assert c.amount == amount * c.rate < 0.0;
    }
  }

  /**
   * The table is not self-consistent: KES to USD and back multiplies by 1.001, and
   * USD to EUR and back by 1.0028.
   */
  lemma RoundTripDrift()
    ensures Convert(Convert(1000.0, "KES", "USD").amount, "USD", "KES").amount == 1001.0
    ensures Convert(Convert(1000.0, "USD", "EUR").amount, "EUR", "USD").amount == 1002.8
  {
  }
}

/**
 * The card and transaction tables of the second card service (`VirtualCardModel`):
 * top-ups and card transactions, each one database transaction that either commits
 * completely or, on an exception, rolls back and changes nothing.
 *
 * Row identifiers and timestamps generated by the database are parameters, and so is
 * the random authorisation code.
 */
module VirtualCard {
  import opened Wrappers
  import opened JsText
  import Luhn
  import Currency

  datatype CardStatus = Active | Frozen | Expired | Cancelled

  datatype CardType = Mastercard | Visa

  datatype Card = Card(userId: string, cardType: CardType, balance: real, currency: string,
                       status: CardStatus, lastUsedAt: Option<int>, updatedAt: int)

  datatype TxStatus = Pending | Approved | Declined | Reversed

  datatype CardTransaction = CardTransaction(
    cardId: string, userId: string, merchantName: string, merchantId: string, merchantCategory: string,
    amount: real, currency: string,
    originalAmount: Option<real>, originalCurrency: Option<string>, exchangeRate: Option<real>,
    status: TxStatus, declineReason: Option<string>, authorizationCode: Option<string>)

  /** A row of `card_topups`. */
  datatype TopUp = TopUp(cardId: string, amount: real, sourceCurrency: string, targetCurrency: string,
                         exchangeRate: real, balanceAfter: real)

  /** The merchant fields a payment carries through unchanged. */
  datatype Merchant = Merchant(name: string, id: string, category: string)

  /** `createTransaction`: an authorisation code is drawn only for an approved transaction. */
  function MakeTransaction(cardId: string, userId: string, m: Merchant, amount: real, currency: string,
                           status: TxStatus, declineReason: Option<string>, originalAmount: Option<real>,
                           originalCurrency: Option<string>, exchangeRate: Option<real>,
                           authCode: string): (t: CardTransaction)
    ensures t.authorizationCode.Some? <==> status == Approved
    ensures t.amount == amount && t.currency == currency && t.status == status
    ensures t.declineReason == declineReason && t.cardId == cardId && t.userId == userId
  {
    CardTransaction(cardId, userId, m.name, m.id, m.category, amount, currency,
                    originalAmount, originalCurrency, exchangeRate, status, declineReason,
                    if status == Approved then Some(authCode) else None)
  }

  /** The BIN a generated number starts with: 5399 for Mastercard, 4111 for Visa. */
  function Bin(t: CardType): (b: string)
    ensures |b| == 4 && Luhn.IsDigitString(b)
  {
    match t
    case Mastercard => "5399"
    case Visa => "4111"
  }

  /**
   * `generateCardNumber`: the BIN, eleven random digits (given here as `random`) and the
   * Luhn check digit.
   */
  method GenerateCardNumber(t: CardType, random: seq<nat>) returns (number: string)
    requires |random| == 11 && forall i :: 0 <= i < 11 ==> random[i] < 10
    ensures |number| == 16 && Luhn.IsDigitString(number)
    ensures number[..4] == Bin(t)
    ensures forall i :: 0 <= i < 11 ==> number[4 + i] == DigitChar(random[i])
    ensures Luhn.Valid(number)
  {
    number := Bin(t);
    for i := 0 to 11
      invariant |number| == 4 + i && Luhn.IsDigitString(number)
      invariant number[..4] == Bin(t)
      invariant forall k :: 0 <= k < i ==> number[4 + k] == DigitChar(random[k])
    {
      number := number + [DigitChar(random[i])];
    }
    var check := Luhn.CalculateCheckDigit(number);
    Luhn.AppendCheckDigitValid(number);
    number := number + [DigitChar(check)];
  }

  class CardStore {
    var cards: map<string, Card>
    var transactions: seq<CardTransaction>
    var topups: seq<TopUp>

    /** No card has a negative balance. */
    ghost predicate Valid()
      reads this
    {
      forall id :: id in cards ==> cards[id].balance >= 0.0
    }

    constructor ()
      ensures Valid() && cards == map[] && transactions == [] && topups == []
    {
      cards := map[];
      transactions := [];
      topups := [];
    }

    /**
     * `topUp`: credit `amount * exchangeRate` and log the top-up; a missing card throws
     * 'Card not found' and nothing changes. The method itself accepts any amount; the
     * balances stay non-negative whenever the credit is, as for the positive amounts and
     * table rates its HTTP caller passes.
     */
    method TopUpCard(cardId: string, amount: real, sourceCurrency: string, exchangeRate: real, now: int)
      returns (error: Option<string>)
      requires Valid()
      modifies this
      ensures amount * exchangeRate >= 0.0 ==> Valid()
      ensures transactions == old(transactions)
      ensures cardId !in old(cards) ==> error == Some("Card not found") && cards == old(cards) && topups == old(topups)
      ensures cardId in old(cards) ==> (error == None
        && cards == old(cards)[cardId := old(cards)[cardId].(balance := old(cards)[cardId].balance + amount * exchangeRate,
                                                             updatedAt := now)]
        && topups == old(topups) + [TopUp(cardId, amount, sourceCurrency, old(cards)[cardId].currency, exchangeRate,
                                          old(cards)[cardId].balance + amount * exchangeRate)])
    {
      if cardId !in cards {
        return Some("Card not found");
      }
      var card := cards[cardId];
      var newBalance := card.balance + amount * exchangeRate;
      cards := cards[cardId := card.(balance := newBalance, updatedAt := now)];
      topups := topups + [TopUp(cardId, amount, sourceCurrency, card.currency, exchangeRate, newBalance)];
      error := None;
    }

    /**
     * `processTransaction`: a card that is not active is declined; otherwise the amount is
     * converted to the card's currency and declined if it exceeds the balance; otherwise the
     * card is debited. Every outcome but a missing card records a transaction.
     */
    method ProcessTransaction(cardId: string, m: Merchant, amount: real, currency: string,
                              authCode: string, now: int) returns (r: Result<CardTransaction>)
      requires Valid()
      modifies this
      ensures Valid() && topups == old(topups)
      ensures cardId !in old(cards) <==> r == Err("Card not found")
      ensures r.Err? ==> cards == old(cards) && transactions == old(transactions)
      ensures r.Ok? ==> transactions == old(transactions) + [r.value]
      ensures r.Ok? && r.value.status == Declined ==> cards == old(cards)
      ensures r.Ok? ==> var card := old(cards)[cardId];
        var conv := Currency.Convert(amount, currency, card.currency);
        var finalAmount := if currency != card.currency then conv.amount else amount;
        && (card.status != Active <==> r.value.declineReason == Some("Card not active"))
        && (card.status == Active && finalAmount > card.balance
            <==> r.value.declineReason == Some("Insufficient balance"))
        && (r.value.status == Approved <==> card.status == Active && finalAmount <= card.balance)
        && (r.value.status == Approved || r.value.status == Declined)
        && (r.value.authorizationCode.Some? <==> r.value.status == Approved)
        && (r.value.status == Approved ==>
              && cards == old(cards)[cardId := card.(balance := card.balance - finalAmount,
                                                     lastUsedAt := Some(now), updatedAt := now)]
              && r.value.amount == finalAmount && r.value.currency == card.currency
              && r.value.originalAmount == Some(amount) && r.value.originalCurrency == Some(currency))
    {
      if cardId !in cards {
        return Err("Card not found");
      }
      var card := cards[cardId];
      if card.status != Active {
        var txn := MakeTransaction(cardId, card.userId, m, amount, currency, Declined,
                                   Some("Card not active"), None, None, None, authCode);
        transactions := transactions + [txn];
        return Ok(txn);
      }
      var finalAmount := amount;
      var exchangeRate: Option<real> := None;
      if currency != card.currency {
        var conversion := Currency.Convert(amount, currency, card.currency);
        finalAmount := conversion.amount;
        exchangeRate := Some(conversion.rate);
      }
      if finalAmount > card.balance {
        var txn := MakeTransaction(cardId, card.userId, m, finalAmount, card.currency, Declined,
                                   Some("Insufficient balance"), Some(amount), Some(currency), exchangeRate, authCode);
        transactions := transactions + [txn];
        return Ok(txn);
      }
      cards := cards[cardId := card.(balance := card.balance - finalAmount, lastUsedAt := Some(now), updatedAt := now)];
      var txn := MakeTransaction(cardId, card.userId, m, finalAmount, card.currency, Approved,
                                 None, Some(amount), Some(currency), exchangeRate, authCode);
      transactions := transactions + [txn];
      r := Ok(txn);
    }
  }
}

/**
 * The first card service (`VirtualCardService`): payments are decided on a card record
 * passed in, with no stored state, and card numbers are masked for display.
 */
module VirtualCardService {
  import opened Wrappers
  import opened JsText
  import Currency

  datatype CardStatus = Active | Suspended | Expired

  datatype Card = Card(id: string, userId: string, balance: real, currency: string, status: CardStatus)

  datatype TxStatus = Pending | Approved | Declined

  datatype CardTransaction = CardTransaction(
    id: string, cardId: string, userId: string, merchantName: string, merchantId: string,
    amount: real, currency: string,
    originalAmount: Option<real>, originalCurrency: Option<string>, exchangeRate: Option<real>,
    status: TxStatus, timestamp: int)

  /**
   * `processPayment`: decline an inactive card in the payment's own terms; otherwise
   * convert to the card's currency and decline when that exceeds the balance; otherwise
   * approve. The card itself is never debited here.
   */
  function ProcessPayment(card: Card, merchantName: string, merchantId: string, amount: real, currency: string,
                          txId: string, now: int): (t: CardTransaction)
    ensures t.id == txId && t.cardId == card.id && t.userId == card.userId && t.status != Pending
    ensures card.status != Active ==> t.status == Declined && t.amount == amount && t.currency == currency
                                      && t.originalAmount == None && t.exchangeRate == None
    ensures card.status == Active ==>
      var finalAmount := if currency != card.currency then Currency.Convert(amount, currency, card.currency).amount
                         else amount;
      && t.amount == finalAmount && t.currency == card.currency
      && t.originalAmount == Some(amount) && t.originalCurrency == Some(currency)
      && (t.status == Approved <==> finalAmount <= card.balance)
      && (t.exchangeRate.Some? <==> currency != card.currency)
  {
    if card.status != Active then
      CardTransaction(txId, card.id, card.userId, merchantName, merchantId, amount, currency,
                      None, None, None, Declined, now)
    else
      var conv := Currency.Convert(amount, currency, card.currency);
      var finalAmount := if currency != card.currency then conv.amount else amount;
      var rate := if currency != card.currency then Some(conv.rate) else None;
      CardTransaction(txId, card.id, card.userId, merchantName, merchantId, finalAmount, card.currency,
                      Some(amount), Some(currency), rate,
                      if finalAmount > card.balance then Declined else Approved, now)
  }

  /** A payment in the card's own currency is approved exactly when it fits the balance. */
  lemma SameCurrencyApproval(card: Card, merchantName: string, merchantId: string, amount: real, txId: string, now: int)
    ensures var t := ProcessPayment(card, merchantName, merchantId, amount, card.currency, txId, now);
      t.status == Approved <==> card.status == Active && amount <= card.balance
  {
  }

  /** `topUpCard`: the amount converted to USD, always reported as a success. */
  function TopUpCard(amount: real, sourceCurrency: string): (c: Currency.Conversion)
    ensures sourceCurrency == "USD" ==> c == Currency.Conversion(amount, 1.0)
    ensures c.amount == amount * c.rate
  {
    Currency.Convert(amount, sourceCurrency, "USD")
  }

  /** `maskCardNumber`: the first four characters, three masked groups, the last four. */
  function MaskCardNumber(number: string): (r: string)
    ensures |number| >= 4 ==> |r| == 19 && r[..4] == number[..4] && r[15..] == number[|number| - 4..]
    ensures |number| < 4 ==> r == number + " **** **** " + number
  {
    Prefix(number, 4) + " **** **** " + SliceFrom(number, -4)
  }

  /** For a 16-digit number the mask shows exactly the first and last four digits. */
  lemma MaskRevealsOnlyEnds(a: string, b: string)
    requires |a| == 16 && |b| == 16
    ensures MaskCardNumber(a) == MaskCardNumber(b) <==> a[..4] == b[..4] && a[12..] == b[12..]
  {
    var ma, mb := MaskCardNumber(a), MaskCardNumber(b);
    if ma == mb {
      assert ma[..4] == a[..4] && mb[..4] == b[..4];
      assert ma[15..] == a[12..] && mb[15..] == b[12..];
    }
  }
}
