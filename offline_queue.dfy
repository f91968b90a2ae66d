/**
 * The mobile app's offline queue: transactions made while offline wait in a FIFO queue and
 * are posted in order when the app syncs; a failed post is retried on a later sync, and
 * dropped once it has failed three times.
 *
 * The outcome of posting is the parameter `delivered`: the `k`-th post of one sync run
 * succeeds exactly when `delivered(k)`. The clock and the random id suffix are parameters;
 * persisting the queue to device storage is not part of this model.
 */
module OfflineQueue {
  import opened Wrappers
  import opened JsText

  const MaxRetries: nat := 3

  datatype TxType = Send | Request

  datatype QueuedTransaction = QueuedTransaction(id: string, txType: TxType, data: string, timestamp: int, retries: nat)

  /** Every waiting transaction has failed fewer than `MaxRetries` times. */
  predicate RetriesBelowMax(q: seq<QueuedTransaction>)
  {
    forall i :: 0 <= i < |q| ==> q[i].retries < MaxRetries
  }

  /** The head after one more failed post. */
  function Bumped(t: QueuedTransaction): QueuedTransaction
  {
    t.(retries := t.retries + 1)
  }

  /**
   * The queue a sync run leaves, posting from attempt `k` on: a delivered head is removed;
   * a failed head counts a retry and is removed at `MaxRetries`, otherwise the run stops.
   */
  function Sync(q: seq<QueuedTransaction>, delivered: nat -> bool, k: nat): seq<QueuedTransaction>
    decreases |q|
  {
    if q == [] then []
    else if delivered(k) then Sync(q[1..], delivered, k + 1)
    else if q[0].retries + 1 >= MaxRetries then Sync(q[1..], delivered, k + 1)
    else [Bumped(q[0])] + q[1..]
  }

  /**
   * Syncing is FIFO: what is left is a suffix of the queue, whose head has one more
   * retry counted. Nothing behind the first failure is posted or lost.
   */
  lemma {:induction false} SyncDropsPrefix(q: seq<QueuedTransaction>, delivered: nat -> bool, k: nat) returns (j: nat)
    ensures Sync(q, delivered, k) == [] || (j < |q| && Sync(q, delivered, k) == [Bumped(q[j])] + q[j + 1..])
    decreases |q|
  {
    j := 0;
    if q != [] && (delivered(k) || q[0].retries + 1 >= MaxRetries) {
      var i := SyncDropsPrefix(q[1..], delivered, k + 1);
      j := i + 1;
      if Sync(q, delivered, k) != [] {
        assert q[1..][i + 1..] == q[j + 1..];
      }
    }
  }

  /** When every post goes through, the queue empties. */
  lemma {:induction false} SyncAllDelivered(q: seq<QueuedTransaction>, delivered: nat -> bool, k: nat)
    requires forall i :: i >= k ==> delivered(i)
    ensures Sync(q, delivered, k) == []
    decreases |q|
  {
    if q != [] {
      SyncAllDelivered(q[1..], delivered, k + 1);
    }
  }

  /** A failed post of a transaction with retries to spare loses nothing: the queue only counts the retry. */
  lemma FailureKeepsQueue(q: seq<QueuedTransaction>, delivered: nat -> bool, k: nat)
    requires q != [] && !delivered(k) && RetriesBelowMax(q)
    ensures |Sync(q, delivered, k)| == |q| || q[0].retries == MaxRetries - 1
    ensures q[0].retries < MaxRetries - 1 ==> Sync(q, delivered, k)[0].retries == q[0].retries + 1
  {
  }

  /** Syncing keeps every waiting transaction below the retry limit. */
  lemma {:induction false} SyncKeepsRetriesBelowMax(q: seq<QueuedTransaction>, delivered: nat -> bool, k: nat)
    requires RetriesBelowMax(q)
    ensures RetriesBelowMax(Sync(q, delivered, k))
    decreases |q|
  {
    if q != [] && (delivered(k) || q[0].retries + 1 >= MaxRetries) {
      SyncKeepsRetriesBelowMax(q[1..], delivered, k + 1);
    }
  }

  /**
   * The id `addToQueue` gives: the time, `_`, and at most nine random base-36 characters
   * (`substr(2, 9)` of a shorter random string gives fewer).
   */
  function TransactionId(now: nat, suffix: string): (id: string)
    ensures |id| == |NatToString(now)| + 1 + |suffix|
    ensures id[..|NatToString(now)|] == NatToString(now) && id[|NatToString(now)|] == '_'
    ensures id[|NatToString(now)| + 1..] == suffix
  {
    NatToString(now) + "_" + suffix
  }

  class OfflineService {
    var queue: seq<QueuedTransaction>
    var isOnline: bool
    var isSyncing: bool

    predicate Valid()
      reads this
    {
      RetriesBelowMax(queue)
    }

    /** A new service is online with an empty queue; loading the stored queue is left out. */
    constructor()
      ensures queue == [] && isOnline && !isSyncing && Valid()
    {
      queue := [];
      isOnline := true;
      isSyncing := false;
    }

    /**
     * `addToQueue`: the transaction goes to the back with no retries; when online a sync
     * run starts, unless one is already under way.
     */
    method AddToQueue(txType: TxType, data: string, now: nat, suffix: string, delivered: nat -> bool)
      returns (id: string)
      requires Valid()
      modifies this
      ensures Valid()
      ensures id == TransactionId(now, suffix)
      ensures isOnline == old(isOnline)
      ensures !old(isOnline) || old(isSyncing) ==>
        queue == old(queue) + [QueuedTransaction(id, txType, data, now, 0)] && isSyncing == old(isSyncing)
      ensures old(isOnline) && !old(isSyncing) ==>
        queue == Sync(old(queue) + [QueuedTransaction(id, txType, data, now, 0)], delivered, 0) && !isSyncing
    {
      var transaction := QueuedTransaction(TransactionId(now, suffix), txType, data, now, 0);
      queue := queue + [transaction];
      if isOnline {
        SyncQueue(delivered);
      }
      id := transaction.id;
    }

    /**
     * `syncQueue`: nothing happens while another run is syncing, offline or with an empty
     * queue; otherwise the queue becomes `Sync` of it and the run clears `isSyncing`.
     */
    method SyncQueue(delivered: nat -> bool)
      requires Valid()
      modifies this
      ensures Valid()
      ensures isOnline == old(isOnline)
      ensures old(isSyncing) || !isOnline ==> queue == old(queue) && isSyncing == old(isSyncing)
      ensures !old(isSyncing) ==> !isSyncing
      ensures !old(isSyncing) && isOnline ==> queue == Sync(old(queue), delivered, 0)
    {
      if isSyncing || !isOnline || |queue| == 0 {
        return;
      }
      isSyncing := true;
      var k: nat := 0;
      while |queue| > 0 && isOnline
        invariant Sync(queue, delivered, k) == Sync(old(queue), delivered, 0)
        invariant RetriesBelowMax(queue) && isOnline == old(isOnline)
        decreases |queue|
      {
        var transaction := queue[0];
        if delivered(k) {
          queue := queue[1..];
          k := k + 1;
        } else {
          transaction := transaction.(retries := transaction.retries + 1);
          queue := [transaction] + queue[1..];
          if transaction.retries >= MaxRetries {
            queue := queue[1..];
            k := k + 1;
          } else {
            break;
          }
        }
      }
      isSyncing := false;
    }

    /** `getQueue`: a copy of the waiting transactions. */
    function GetQueue(): (r: seq<QueuedTransaction>)
      reads this
      ensures r == queue
    {
      queue
    }

    /** `clearQueue`. */
    method ClearQueue()
      modifies this
      ensures queue == [] && Valid()
      ensures isOnline == old(isOnline) && isSyncing == old(isSyncing)
    {
      queue := [];
    }

    /** The network listener: `isConnected ?? false`; coming back online starts a sync. */
    method NetworkChanged(isConnected: Option<bool>, delivered: nat -> bool)
      requires Valid()
      modifies this
      ensures Valid()
      ensures isOnline == (isConnected == Some(true))
      ensures !old(isOnline) && isOnline && !old(isSyncing) ==> queue == Sync(old(queue), delivered, 0) && !isSyncing
      ensures !(!old(isOnline) && isOnline) ==> queue == old(queue) && isSyncing == old(isSyncing)
    {
      var wasOffline := !isOnline;
      isOnline := if isConnected.Some? then isConnected.value else false;
      if wasOffline && isOnline {
        SyncQueue(delivered);
      }
    }
  }
}
