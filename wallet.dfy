/**
 * The wallet table of the wallet service and its transaction log. A credit or a debit
 * locks the user's wallet, moves the balance and appends one log row, all in one
 * database transaction: an exception rolls the whole operation back.
 *
 * Amounts are integers in the currency's minor unit.
 */
module Wallet {
  import opened Wrappers

  datatype WalletRow = WalletRow(id: string, balance: int, currency: string)

  datatype TxType = Credit | Debit

  datatype Transaction = Transaction(walletId: string, userId: string, txType: TxType, category: string,
                                     amount: int, currency: string, balanceBefore: int, balanceAfter: int,
                                     reference: string)

  /** The signed effect of one log row on its user's balance. */
  function Signed(t: Transaction): int
  {
    if t.txType == Credit then t.amount else -t.amount
  }

  /** The net movement the log records for `userId`. */
  function NetFlow(log: seq<Transaction>, userId: string): int
  {
    if log == [] then 0
    else NetFlow(log[..|log| - 1], userId) + (if log[|log| - 1].userId == userId then Signed(log[|log| - 1]) else 0)
  }

  /** Every log row records its own arithmetic: after = before + amount, or before - amount. */
  predicate Consistent(t: Transaction)
  {
    t.balanceAfter == t.balanceBefore + Signed(t)
  }

  class Ledger {
    /** Keyed by user id: one wallet per user. */
    var wallets: map<string, WalletRow>
    var log: seq<Transaction>
    /** The balances before the first logged movement. */
    ghost var opening: map<string, int>

    /** Each balance is its opening balance plus what the log records; every row is consistent. */
    ghost predicate Valid()
      reads this
    {
      && wallets.Keys == opening.Keys
      && (forall u :: u in wallets ==> wallets[u].balance == opening[u] + NetFlow(log, u))
      && (forall i :: 0 <= i < |log| ==> Consistent(log[i]))
    }

    constructor (initial: map<string, WalletRow>)
      ensures Valid() && wallets == initial && log == []
    {
      wallets := initial;
      log := [];
      opening := map u | u in initial :: initial[u].balance;
    }

    /** `getBalance`: the wallet's balance, or 0 when the user has no wallet. */
    function GetBalance(userId: string): (b: int)
      reads this
      ensures userId in wallets ==> b == wallets[userId].balance
      ensures userId !in wallets ==> b == 0
    {
      if userId in wallets && wallets[userId].balance != 0 then wallets[userId].balance else 0
    }

    /** `credit`: add `amount` and log the movement with the balances before and after. */
    method CreditWallet(userId: string, amount: int, category: string, reference: string)
      returns (r: Result<Transaction>)
      requires Valid()
      modifies this
      ensures Valid()
      ensures userId !in old(wallets) <==> r == Err("Wallet not found")
      ensures r.Err? ==> wallets == old(wallets) && log == old(log)
      ensures r.Ok? ==> var w := old(wallets)[userId];
        && wallets == old(wallets)[userId := w.(balance := w.balance + amount)]
        && log == old(log) + [r.value]
        && r.value == Transaction(w.id, userId, Credit, category, amount, w.currency,
                                  w.balance, w.balance + amount, reference)
    {
      if userId !in wallets {
        return Err("Wallet not found");
      }
      var w := wallets[userId];
      var before := w.balance;
      var after := before + amount;
      wallets := wallets[userId := w.(balance := after)];
      var t := Transaction(w.id, userId, Credit, category, amount, w.currency, before, after, reference);
      log := log + [t];
      LogAppend(old(log), t);
      r := Ok(t);
    }

    /**
     * `debit`: subtract `amount`, throwing 'Insufficient balance' (and changing nothing)
     * when the result would be negative.
     */
    method DebitWallet(userId: string, amount: int, category: string, reference: string)
      returns (r: Result<Transaction>)
      requires Valid()
      modifies this
      ensures Valid()
      ensures userId !in old(wallets) <==> r == Err("Wallet not found")
      ensures userId in old(wallets) ==>
        (r == Err("Insufficient balance") <==> old(wallets)[userId].balance - amount < 0)
      ensures r.Err? ==> wallets == old(wallets) && log == old(log)
      ensures r.Ok? ==> var w := old(wallets)[userId];
        && w.balance - amount >= 0
        && wallets == old(wallets)[userId := w.(balance := w.balance - amount)]
        && log == old(log) + [r.value]
        && r.value == Transaction(w.id, userId, Debit, category, amount, w.currency,
                                  w.balance, w.balance - amount, reference)
    {
      if userId !in wallets {
        return Err("Wallet not found");
      }
      var w := wallets[userId];
      var before := w.balance;
      var after := before - amount;
      if after < 0 {
        return Err("Insufficient balance");
      }
      wallets := wallets[userId := w.(balance := after)];
      var t := Transaction(w.id, userId, Debit, category, amount, w.currency, before, after, reference);
      log := log + [t];
      LogAppend(old(log), t);
      r := Ok(t);
    }
  }

  /** Appending a row moves only its own user's net flow, by the row's signed amount. */
  lemma LogAppend(log: seq<Transaction>, t: Transaction)
    ensures forall u :: NetFlow(log + [t], u) == NetFlow(log, u) + (if t.userId == u then Signed(t) else 0)
  {
    assert (log + [t])[..|log|] == log;
  }

  /** The net flow is additive over a concatenation of logs. */
  lemma {:induction false} NetFlowConcat(a: seq<Transaction>, b: seq<Transaction>, userId: string)
    ensures NetFlow(a + b, userId) == NetFlow(a, userId) + NetFlow(b, userId)
  {
    if b == [] {
      assert a + b == a;
    } else {
      assert (a + b)[..|a + b| - 1] == a + b[..|b| - 1];
      NetFlowConcat(a, b[..|b| - 1], userId);
    }
  }

  /**
   * A credit followed by a debit of the same amount logs a zero net movement: the
   * balance comes back to where it was.
   */
  lemma CreditThenDebitCancels(log: seq<Transaction>, c: Transaction, d: Transaction, userId: string)
    requires c.userId == userId && d.userId == userId
    requires c.txType == Credit && d.txType == Debit && c.amount == d.amount
    ensures NetFlow(log + [c, d], userId) == NetFlow(log, userId)
  {
    NetFlowConcat(log, [c, d], userId);
    assert [c, d][..1] == [c];
    assert [c][..0] == [];
    assert NetFlow([c], userId) == c.amount;
    assert NetFlow([c, d], userId) == c.amount - d.amount;
  }
}
