/**
 * The float (working cash balance) of an agent in the second agent service, its
 * transaction log, and the per-agent activity statistics. Credits and debits run in one
 * database transaction each; an exception rolls everything back.
 *
 * Amounts are integers in the currency's minor unit; the database clock is a parameter.
 * A float row is created with a zero balance.
 */
module AgentFloat {
  import opened Wrappers

  datatype Float = Float(agentId: string, balance: int, currency: string, lastTopupAt: Option<int>)

  datatype TxType = Credit | Debit

  datatype FloatTx = FloatTx(agentId: string, txType: TxType, category: string, amount: int,
                             balanceBefore: int, balanceAfter: int, reference: string)

  datatype ActivityType = Registration | CashIn | CashOut | Verification

  datatype Stats = Stats(customersRegistered: nat, cashInCount: nat, cashOutCount: nat,
                         totalVolume: int, todayVolume: int, thisWeekVolume: int, thisMonthVolume: int,
                         lastActivityAt: Option<int>)

  /** No counter or volume of an agent's statistics is negative. */
  predicate StatsNonneg(s: Stats)
  {
    s.totalVolume >= 0 && s.todayVolume >= 0 && s.thisWeekVolume >= 0 && s.thisMonthVolume >= 0
  }

  class AgentBook {
    var floats: map<string, Float>
    var log: seq<FloatTx>
    var stats: map<string, Stats>

    ghost predicate Valid()
      reads this
    {
      BookValid(floats, log)
    }

    constructor ()
      ensures Valid() && floats == map[] && log == [] && stats == map[]
    {
      floats := map[];
      log := [];
      stats := map[];
    }

    /**
     * `initializeFloat`: INSERT ... ON CONFLICT (agent_id) DO NOTHING, then return the
     * row, new or existing. A second call changes nothing and returns the same row.
     */
    method InitializeFloat(agentId: string, currency: string) returns (f: Float)
      requires Valid()
      modifies this
      ensures Valid() && log == old(log) && stats == old(stats)
      ensures agentId in old(floats) ==> floats == old(floats) && f == old(floats)[agentId]
      ensures agentId !in old(floats) ==> (f == Float(agentId, 0, currency, None)
                                           && floats == old(floats)[agentId := f])
      ensures agentId in floats && floats[agentId] == f
    {
      if agentId in floats {
        return floats[agentId];
      }
      f := Float(agentId, 0, currency, None);
      NewFloatKeepsValid(floats, log, f);
      floats := floats[agentId := f];
    }

    /** `creditFloat`: add `amount`, stamp the top-up time and log before and after. */
    method CreditFloat(agentId: string, amount: int, category: string, reference: string, now: int)
      returns (error: Option<string>)
      modifies this
      ensures stats == old(stats)
      ensures old(Valid()) && amount >= 0 ==> Valid()
      ensures agentId !in old(floats) <==> error == Some("Agent float not found")
      ensures error.Some? ==> floats == old(floats) && log == old(log)
      ensures error.None? ==> var fl := old(floats)[agentId];
        && floats == old(floats)[agentId := fl.(balance := fl.balance + amount, lastTopupAt := Some(now))]
        && log == old(log) + [LoggedRow(agentId, Credit, category, amount, fl.balance, reference)]
    {
      if agentId !in floats {
        return Some("Agent float not found");
      }
      ghost var wasValid := Valid();
      var fl := floats[agentId];
      var before := fl.balance;
      var after := before + amount;
      var fl' := fl.(balance := after, lastTopupAt := Some(now));
      if wasValid && amount >= 0 {
        LoggedRowKeepsValid(floats, log, Credit, category, amount, reference, fl');
      }
      floats := floats[agentId := fl'];
      log := log + [LoggedRow(agentId, Credit, category, amount, before, reference)];
      error := None;
    }

    /** `debitFloat`: subtract `amount`, refusing (and changing nothing) if the float would go negative. */
    method DebitFloat(agentId: string, amount: int, category: string, reference: string)
      returns (error: Option<string>)
      requires Valid()
      modifies this
      ensures Valid() && stats == old(stats)
      ensures agentId !in old(floats) <==> error == Some("Agent float not found")
      ensures agentId in old(floats) ==>
        (error == Some("Insufficient agent float balance") <==> old(floats)[agentId].balance - amount < 0)
      ensures error.Some? ==> floats == old(floats) && log == old(log)
      ensures error.None? ==> var fl := old(floats)[agentId];
        && floats == old(floats)[agentId := fl.(balance := fl.balance - amount)]
        && log == old(log) + [LoggedRow(agentId, Debit, category, amount, fl.balance, reference)]
    {
      if agentId !in floats {
        return Some("Agent float not found");
      }
      var fl := floats[agentId];
      var before := fl.balance;
      var after := before - amount;
      if after < 0 {
        return Some("Insufficient agent float balance");
      }
      var fl' := fl.(balance := after);
      LoggedRowKeepsValid(floats, log, Debit, category, amount, reference, fl');
      floats := floats[agentId := fl'];
      log := log + [LoggedRow(agentId, Debit, category, amount, before, reference)];
      error := None;
    }

    /**
     * `updateStatistics` (run by `logActivity` with `amount || 0`): a registration counts a
     * customer; a cash-in or cash-out counts itself and adds the amount to all four volumes;
     * every activity stamps the time. The UPDATE finds no row for an agent without
     * statistics and then changes nothing.
     */
    method UpdateStatistics(agentId: string, activity: ActivityType, amount: int, now: int)
      modifies this
      ensures floats == old(floats) && log == old(log)
      ensures stats.Keys == old(stats.Keys)
      ensures forall a :: a in stats && a != agentId ==> stats[a] == old(stats)[a]
      ensures agentId in stats ==> var s, s' := old(stats)[agentId], stats[agentId];
        && s'.lastActivityAt == Some(now)
        && s'.customersRegistered == s.customersRegistered + (if activity == Registration then 1 else 0)
        && s'.cashInCount == s.cashInCount + (if activity == CashIn then 1 else 0)
        && s'.cashOutCount == s.cashOutCount + (if activity == CashOut then 1 else 0)
        && var moved := if activity == CashIn || activity == CashOut then amount else 0;
        && s'.totalVolume == s.totalVolume + moved && s'.todayVolume == s.todayVolume + moved
        && s'.thisWeekVolume == s.thisWeekVolume + moved && s'.thisMonthVolume == s.thisMonthVolume + moved
      ensures amount >= 0 && agentId in stats && StatsNonneg(old(stats)[agentId]) ==> StatsNonneg(stats[agentId])
    {
      if agentId !in stats {
        return;
      }
      var s := stats[agentId];
      if activity == Registration {
        s := s.(customersRegistered := s.customersRegistered + 1);
      } else if activity == CashIn {
        s := s.(cashInCount := s.cashInCount + 1, totalVolume := s.totalVolume + amount,
                todayVolume := s.todayVolume + amount, thisWeekVolume := s.thisWeekVolume + amount,
                thisMonthVolume := s.thisMonthVolume + amount);
      } else if activity == CashOut {
        s := s.(cashOutCount := s.cashOutCount + 1, totalVolume := s.totalVolume + amount,
                todayVolume := s.todayVolume + amount, thisWeekVolume := s.thisWeekVolume + amount,
                thisMonthVolume := s.thisMonthVolume + amount);
      }
      s := s.(lastActivityAt := Some(now));
      stats := stats[agentId := s];
    }
  }

  /** The rows of one agent, in log order. */
  function RowsOf(log: seq<FloatTx>, agentId: string): (r: seq<FloatTx>)
    ensures |r| <= |log|
  {
    if log == [] then []
    else RowsOf(log[..|log| - 1], agentId)
         + (if log[|log| - 1].agentId == agentId then [log[|log| - 1]] else [])
  }

  /**
   * The book's invariant: floats are keyed by their own agent id and none is negative;
   * every logged row belongs to an agent with a float, and each agent's rows form a chain
   * from the zero balance its float starts with to its current balance.
   */
  ghost predicate BookValid(floats: map<string, Float>, log: seq<FloatTx>)
  {
    && (forall a :: a in floats ==> floats[a].agentId == a && floats[a].balance >= 0)
    && (forall i :: 0 <= i < |log| ==> log[i].agentId in floats)
    && (forall a :: a in floats ==> ChainedTo(RowsOf(log, a), floats[a].balance))
  }

  /** A new float with a zero balance for an agent without one keeps the book valid. */
  lemma NewFloatKeepsValid(floats: map<string, Float>, log: seq<FloatTx>, f: Float)
    requires BookValid(floats, log) && f.agentId !in floats && f.balance == 0
    ensures BookValid(floats[f.agentId := f], log)
  {
    var floats' := floats[f.agentId := f];
    RowsOfAbsent(log, f.agentId);
    forall a | a in floats'
      ensures floats'[a].agentId == a && floats'[a].balance >= 0
      ensures ChainedTo(RowsOf(log, a), floats'[a].balance)
    {
      if a != f.agentId {
        assert floats'[a] == floats[a];
      }
    }
    forall i | 0 <= i < |log|
      ensures log[i].agentId in floats'
    {
      assert log[i].agentId in floats;
    }
  }

  /**
   * Logging the row of a credit or debit and moving the agent's float to the row's closing
   * balance, when that is not negative, keeps the book valid.
   */
  lemma LoggedRowKeepsValid(floats: map<string, Float>, log: seq<FloatTx>, t: TxType, category: string,
                            amount: int, reference: string, f': Float)
    requires BookValid(floats, log) && f'.agentId in floats
    requires f'.balance == LoggedRow(f'.agentId, t, category, amount, floats[f'.agentId].balance, reference).balanceAfter
    requires f'.balance >= 0
    ensures BookValid(floats[f'.agentId := f'],
                      log + [LoggedRow(f'.agentId, t, category, amount, floats[f'.agentId].balance, reference)])
  {
    var agentId := f'.agentId;
    var row := LoggedRow(agentId, t, category, amount, floats[agentId].balance, reference);
    var log' := log + [row];
    var floats' := floats[agentId := f'];
    forall a | a in floats'
      ensures floats'[a].agentId == a && floats'[a].balance >= 0
    {
      if a != agentId {
        assert floats'[a] == floats[a];
      }
    }
    forall i | 0 <= i < |log'|
      ensures log'[i].agentId in floats'
    {
      if i < |log| {
        assert log'[i] == log[i];
      }
    }
    forall a | a in floats'
      ensures ChainedTo(RowsOf(log', a), floats'[a].balance)
    {
      LoggedRowKeepsChain(floats, log, t, category, amount, reference, f', a);
    }
  }

  /** The same step seen from one agent: its rows stay chained to its float. */
  lemma LoggedRowKeepsChain(floats: map<string, Float>, log: seq<FloatTx>, t: TxType, category: string,
                            amount: int, reference: string, f': Float, a: string)
    requires f'.agentId in floats && a in floats
    requires ChainedTo(RowsOf(log, a), floats[a].balance)
    requires f'.balance == LoggedRow(f'.agentId, t, category, amount, floats[f'.agentId].balance, reference).balanceAfter
    ensures ChainedTo(RowsOf(log + [LoggedRow(f'.agentId, t, category, amount, floats[f'.agentId].balance, reference)], a),
                      floats[f'.agentId := f'][a].balance)
  {
    var row := LoggedRow(f'.agentId, t, category, amount, floats[f'.agentId].balance, reference);
    RowsOfAppend(log, row, a);
    if a == f'.agentId {
      ChainedToAppend(RowsOf(log, a), floats[a].balance, a, t, category, amount, reference);
    } else {
      assert floats[f'.agentId := f'][a] == floats[a];
    }
  }

  /** A logged row extends rows chained to the float's balance to rows chained to the new balance. */
  lemma ChainedToAppend(rows: seq<FloatTx>, balance: int, agentId: string, t: TxType, category: string,
                        amount: int, reference: string)
    requires ChainedTo(rows, balance)
    ensures var row := LoggedRow(agentId, t, category, amount, balance, reference);
      ChainedTo(rows + [row], row.balanceAfter)
  {
    AppendLoggedRow(0, rows, agentId, t, category, amount, balance, reference);
  }

  lemma RowsOfAppend(log: seq<FloatTx>, row: FloatTx, agentId: string)
    ensures RowsOf(log + [row], agentId) == RowsOf(log, agentId) + (if row.agentId == agentId then [row] else [])
  {
    assert (log + [row])[..|log|] == log;
  }

  /** A log with no row of the agent projects to nothing. */
  lemma {:induction false} RowsOfAbsent(log: seq<FloatTx>, agentId: string)
    requires forall i :: 0 <= i < |log| ==> log[i].agentId != agentId
    ensures RowsOf(log, agentId) == []
  {
    if log != [] {
      RowsOfAbsent(log[..|log| - 1], agentId);
    }
  }

  /** Rows chained from a zero opening balance that end at `balance`. */
  predicate ChainedTo(rows: seq<FloatTx>, balance: int)
  {
    Chained(0, rows) && (if rows == [] then balance == 0 else rows[|rows| - 1].balanceAfter == balance)
  }

  /** The balance a sequence of float movements leaves, starting from `start`. */
  function Replay(start: int, txs: seq<FloatTx>): int
  {
    if txs == [] then start
    else Replay(start, txs[..|txs| - 1]) + (if txs[|txs| - 1].txType == Credit then txs[|txs| - 1].amount
                                            else -txs[|txs| - 1].amount)
  }

  /** A log whose rows chain (each row starts where the previous ended) and record their own arithmetic. */
  predicate Chained(start: int, txs: seq<FloatTx>)
  {
    && (forall i :: 0 <= i < |txs| ==>
          txs[i].balanceAfter == txs[i].balanceBefore + (if txs[i].txType == Credit then txs[i].amount else -txs[i].amount))
    && (|txs| > 0 ==> txs[0].balanceBefore == start)
    && (forall i :: 0 < i < |txs| ==> txs[i].balanceBefore == txs[i - 1].balanceAfter)
  }

  /** In a chained log the last row's closing balance is the replayed balance. */
  lemma {:induction false} ChainedReplay(start: int, txs: seq<FloatTx>)
    requires Chained(start, txs) && txs != []
    ensures txs[|txs| - 1].balanceAfter == Replay(start, txs)
  {
    var init := txs[..|txs| - 1];
    if init != [] {
      assert Chained(start, init);
      ChainedReplay(start, init);
    }
  }

  /** The row `CreditFloat` or `DebitFloat` logs for a float `balance`. */
  function LoggedRow(agentId: string, t: TxType, category: string, amount: int, balance: int,
                     reference: string): FloatTx
  {
    FloatTx(agentId, t, category, amount, balance,
            if t == Credit then balance + amount else balance - amount, reference)
  }

  /**
   * Appending the row a credit or debit logs to a chained log whose last closing balance
   * is the float keeps the log chained, and its replay is the float's new balance.
   */
  lemma AppendLoggedRow(start: int, txs: seq<FloatTx>, agentId: string, t: TxType, category: string,
                        amount: int, balance: int, reference: string)
    requires Chained(start, txs)
    requires if txs == [] then balance == start else txs[|txs| - 1].balanceAfter == balance
    ensures var row := LoggedRow(agentId, t, category, amount, balance, reference);
      Chained(start, txs + [row]) && Replay(start, txs + [row]) == row.balanceAfter
  {
    var row := LoggedRow(agentId, t, category, amount, balance, reference);
    var txs' := txs + [row];
    assert txs'[..|txs'| - 1] == txs;
    assert Chained(start, txs');
    ChainedReplay(start, txs');
  }
}
