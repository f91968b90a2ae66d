/**
 * The ledger-integrity service: it checks that a batch of ledger entries is hash-chained,
 * computes the batch's Merkle root, keeps the latest root for anchoring, and accepts
 * anchor requests only for roots of 64 hexadecimal characters.
 *
 * sha256 (rendered as hex) is the parameter `hash`; an entry's payload is given already
 * serialised (the source applies JSON.stringify to non-string data).
 */
module LedgerIntegrity {
  import opened Wrappers
  import opened JsText

  /** An entry as posted; an empty `hash` stands for an absent (or empty, hence falsy) one. */
  datatype Entry = Entry(id: string, prevHash: string, payload: string, hash: string)

  // ---------------------------------------------------------------------------
  // Merkle root
  // ---------------------------------------------------------------------------

  /** The pair at position i of the next level: the right element defaults to the left. */
  function PairHash(level: seq<string>, i: nat, hash: string -> string): string
    requires 2 * i < |level|
  {
    hash(level[2 * i] + (if 2 * i + 1 < |level| then level[2 * i + 1] else level[2 * i]))
  }

  /** One round of `merkleRoot`: ceil(n / 2) hashes of adjacent pairs. */
  function NextLevel(level: seq<string>, hash: string -> string): (next: seq<string>)
    ensures |next| == (|level| + 1) / 2
    ensures forall i :: 0 <= i < |next| ==> next[i] == PairHash(level, i, hash)
  {
    seq((|level| + 1) / 2, i requires 0 <= i < (|level| + 1) / 2 => PairHash(level, i, hash))
  }

  /** The root of a non-empty level: reduce until one hash is left. */
  function RootOf(level: seq<string>, hash: string -> string): string
    requires |level| >= 1
    decreases |level|
  {
    if |level| == 1 then level[0] else RootOf(NextLevel(level, hash), hash)
  }

  /** `merkleRoot` as a specification: the empty batch has the empty root. */
  function Root(hashes: seq<string>, hash: string -> string): (r: string)
    ensures hashes == [] ==> r == ""
    ensures |hashes| == 1 ==> r == hashes[0]
  {
    if hashes == [] then "" else RootOf(hashes, hash)
  }

  /** `merkleRoot`: rebuild the level in a loop until a single hash remains. */
  method MerkleRoot(hashes: seq<string>, hash: string -> string) returns (root: string)
    ensures root == Root(hashes, hash)
  {
    if |hashes| == 0 {
      return "";
    }
    var level := hashes;
    while |level| > 1
      invariant |level| >= 1
      invariant RootOf(level, hash) == RootOf(hashes, hash)
      decreases |level|
    {
      var next: seq<string> := [];
      var i := 0;
      while i < |level|
        invariant 0 <= i <= |level| + 1 && i % 2 == 0
        invariant |next| == i / 2
        invariant forall k :: 0 <= k < |next| ==> next[k] == PairHash(level, k, hash)
      {
        var left := level[i];
        var right := if i + 1 < |level| then level[i + 1] else left;
        next := next + [hash(left + right)];
        i := i + 2;
      }
      assert next == NextLevel(level, hash);
      level := next;
    }
    root := level[0];
  }

  /** Two hashes combine into one: the root of a pair is the hash of their concatenation. */
  lemma RootOfPair(a: string, b: string, hash: string -> string)
    ensures Root([a, b], hash) == hash(a + b)
  {
    var next := NextLevel([a, b], hash);
    assert next[0] == PairHash([a, b], 0, hash) == hash(a + b);
    assert RootOf([a, b], hash) == RootOf(next, hash) == next[0];
  }

  /**
   * Duplicating the last hash of an odd batch of three or more leaves the root unchanged:
   * two different batches share a root, so a root alone does not fix the batch's length.
   */
  lemma OddBatchPaddingCollision(hashes: seq<string>, hash: string -> string)
    requires |hashes| >= 3 && |hashes| % 2 == 1
    ensures Root(hashes + [hashes[|hashes| - 1]], hash) == Root(hashes, hash)
  {
    var padded := hashes + [hashes[|hashes| - 1]];
    var a, b := NextLevel(padded, hash), NextLevel(hashes, hash);
    assert |a| == |b|;
    forall i | 0 <= i < |a|
      ensures a[i] == b[i]
    {
      assert padded[2 * i] == hashes[2 * i];
    }
    assert a == b;
  }

  /** Whatever the batch, a non-empty batch's root is one of its hashes or an output of `hash`. */
  lemma {:induction false} RootIsHashOutput(level: seq<string>, hash: string -> string)
    requires |level| >= 1
    ensures RootOf(level, hash) in level || exists s :: RootOf(level, hash) == hash(s)
    decreases |level|
  {
    if |level| > 1 {
      var next := NextLevel(level, hash);
      RootIsHashOutput(next, hash);
      if RootOf(next, hash) in next {
        var k :| 0 <= k < |next| && next[k] == RootOf(next, hash);
        assert next[k] == PairHash(level, k, hash);
      }
    }
  }

  // ---------------------------------------------------------------------------
  // Chain verification
  // ---------------------------------------------------------------------------

  /** The hash the service recomputes for an entry: sha256(prevHash + payload). */
  function EntryHash(e: Entry, hash: string -> string): string
  {
    hash(e.prevHash + e.payload)
  }

  function ComputedHashes(entries: seq<Entry>, hash: string -> string): (c: seq<string>)
    ensures |c| == |entries|
    ensures forall i :: 0 <= i < |c| ==> c[i] == EntryHash(entries[i], hash)
  {
    seq(|entries|, i requires 0 <= i < |entries| => EntryHash(entries[i], hash))
  }

  /** Entry i is consistent: a supplied hash matches, and a non-empty prevHash links to entry i-1. */
  predicate LinkOk(entries: seq<Entry>, i: nat, hash: string -> string)
    requires i < |entries|
  {
    && (entries[i].hash != "" ==> entries[i].hash == EntryHash(entries[i], hash))
    && (i > 0 && entries[i].prevHash != "" ==> entries[i].prevHash == EntryHash(entries[i - 1], hash))
  }

  predicate ChainValid(entries: seq<Entry>, hash: string -> string)
  {
    forall i :: 0 <= i < |entries| ==> LinkOk(entries, i, hash)
  }

  datatype VerifyResponse =
    | BadRequest(error: string)
    | Verified(validChain: bool, merkleRoot: string, lastHash: string)

  /** The anchor schema: `string().hex().length(64)`, hex digits of either case. */
  predicate IsAnchorRoot(s: string)
  {
    |s| == 64 && forall i :: 0 <= i < |s| ==> ('0' <= s[i] <= '9' || 'a' <= s[i] <= 'f' || 'A' <= s[i] <= 'F')
  }

  class IntegrityService {
    /** The root of the last verified batch, which the hourly job anchors. */
    var latestMerkleRoot: Option<string>

    constructor ()
      ensures latestMerkleRoot == None
    {
      latestMerkleRoot := None;
    }

    /**
     * POST /integrity/verify: recompute every entry's hash, clear `validChain` on any
     * mismatch, and answer with the batch's Merkle root and last hash. An empty batch is
     * refused with 400 and leaves the stored root alone.
     */
    method VerifyBatch(entries: seq<Entry>, hash: string -> string) returns (r: VerifyResponse)
      modifies this
      ensures entries == [] ==> r == BadRequest("entries array required") && latestMerkleRoot == old(latestMerkleRoot)
      ensures entries != [] ==> (r.Verified?
        && (r.validChain <==> ChainValid(entries, hash))
        && r.merkleRoot == Root(ComputedHashes(entries, hash), hash)
        && r.lastHash == EntryHash(entries[|entries| - 1], hash)
        && latestMerkleRoot == Some(r.merkleRoot))
    {
      if |entries| == 0 {
        return BadRequest("entries array required");
      }
      var computed: seq<string> := [];
      var validChain := true;
      for i := 0 to |entries|
        invariant |computed| == i
        invariant forall k :: 0 <= k < i ==> computed[k] == EntryHash(entries[k], hash)
        invariant validChain <==> forall k :: 0 <= k < i ==> LinkOk(entries, k, hash)
      {
        ghost var before := validChain;
        var e := entries[i];
        var c := hash(e.prevHash + e.payload);
        computed := computed + [c];
        if e.hash != "" && e.hash != c {
          validChain := false;
        }
        if i > 0 {
          var prevComputed := computed[i - 1];
          if e.prevHash != "" && e.prevHash != prevComputed {
            validChain := false;
          }
        }
        assert validChain <==> before && LinkOk(entries, i, hash);
      }
      assert computed == ComputedHashes(entries, hash);
      var root := MerkleRoot(computed, hash);
      latestMerkleRoot := Some(root);
      r := Verified(validChain, root, computed[|computed| - 1]);
    }
  }

  /** A batch built by chaining each entry to the hash of the one before is valid. */
  predicate WellChained(entries: seq<Entry>, hash: string -> string)
  {
    forall i :: 0 <= i < |entries| ==>
      && entries[i].hash == EntryHash(entries[i], hash)
      && (i > 0 ==> entries[i].prevHash == EntryHash(entries[i - 1], hash))
  }

  lemma WellChainedIsValid(entries: seq<Entry>, hash: string -> string)
    requires WellChained(entries, hash)
    ensures ChainValid(entries, hash)
  {
  }

  /**
   * With a collision-free hash, changing the payload of an entry that carries its hash
   * breaks the chain.
   */
  lemma TamperedPayloadDetected(entries: seq<Entry>, i: nat, payload: string, hash: string -> string)
    requires forall s, t :: hash(s) == hash(t) ==> s == t
    requires i < |entries| && entries[i].hash != "" && ChainValid(entries, hash)
    requires payload != entries[i].payload
    ensures !ChainValid(entries[i := entries[i].(payload := payload)], hash)
  {
    var e := entries[i];
    var tampered := entries[i := e.(payload := payload)];
    assert (e.prevHash + payload)[|e.prevHash|..] == payload;
    assert (e.prevHash + e.payload)[|e.prevHash|..] == e.payload;
    assert LinkOk(entries, i, hash);
    assert tampered[i] == e.(payload := payload);
    assert !LinkOk(tampered, i, hash);
  }

  /**
   * Given a hash that always renders as 64 hex digits, the root of any non-empty batch of
   * recomputed entry hashes passes the anchor schema.
   */
  lemma VerifiedRootIsAnchorable(entries: seq<Entry>, hash: string -> string)
    requires forall s :: IsAnchorRoot(hash(s))
    requires entries != []
    ensures IsAnchorRoot(Root(ComputedHashes(entries, hash), hash))
  {
    var c := ComputedHashes(entries, hash);
    RootIsHashOutput(c, hash);
    if RootOf(c, hash) in c {
      var k :| 0 <= k < |c| && c[k] == RootOf(c, hash);
    }
  }
}
