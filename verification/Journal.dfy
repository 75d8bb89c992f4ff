/** The transaction journal: its data model and the structural invariant that
    every loaded, planned and saved snapshot is checked against. Hex strings and
    identifiers are held case-folded, so equality is the source's
    case-insensitive comparison. */
module Journal {

  datatype Option<+T> = None | Some(value: T) {
    predicate IsFailure() {
      None?
    }

    function PropagateFailure<U>(): Option<U>
      requires None?
    {
      None
    }

    function Extract(): T
      requires Some?
    {
      value
    }
  }

  datatype Hash = Hash(hex: string)
  datatype Address = Address(hex: string)
  datatype Uuid = Uuid(text: string)
  datatype WorkId = WorkId(text: string)
  datatype Timestamp = Timestamp(iso: string)

  datatype Identity = Identity(chainId: nat, signer: Address)

  datatype Anchor = Anchor(number: nat, hash: Hash)

  /** The signer's transaction count at an explicit block. */
  datatype Observation = Observation(anchor: Anchor, nonce: nat)

  /** Preserved lower bound and last fully searched block, inclusive. */
  datatype Search = Search(lowerBound: Observation, through: Option<Anchor>)

  datatype SignedTx = SignedTx(hash: Hash, raw: string)

  datatype Outcome =
    | Success(hash: Hash)
    | Reverted(hash: Hash)
    | Replaced(hash: Hash, nonceAtAnchor: nat)

  datatype Inclusion = Inclusion(block: Anchor, observedAt: Anchor, outcome: Outcome)

  datatype Phase = Signed | MayBeBroadcast | Included(inclusion: Inclusion)

  datatype Attempt = Attempt(
    id: Uuid, workId: WorkId, nonce: nat, createdAt: Timestamp,
    txs: seq<SignedTx>, phase: Phase, search: Option<Search>)

  datatype Repair = Repair(
    at: Timestamp, previousNextNonce: nat, nextNonce: nat, observation: Observation)

  datatype Snapshot = Snapshot(
    identity: Identity, baseline: Observation, lastObservation: Observation,
    nextNonce: nat, durableNextNonce: nat,
    repairs: seq<Repair>, attempts: seq<Attempt>)

  const UINT256_LIMIT: nat := 0x1_0000_0000_0000_0000_0000_0000_0000_0000_0000_0000_0000_0000_0000_0000_0000_0000

  const MAX_SAFE_INTEGER: nat := 0x1F_FFFF_FFFF_FFFF

  const MAX_RETAINED_NONCE_REPAIRS: nat := 8

  predicate ValidIdentity(i: Identity) {
    0 < i.chainId <= MAX_SAFE_INTEGER
  }

  predicate ValidAnchor(a: Anchor) {
    a.number < UINT256_LIMIT
  }

  predicate ValidObservation(o: Observation) {
    ValidAnchor(o.anchor) && o.nonce < UINT256_LIMIT
  }

  predicate ContainsHash(txs: seq<SignedTx>, hash: Hash) {
    exists k :: 0 <= k < |txs| && txs[k].hash == hash
  }

  /** A block at or below an anchor; at equal height it must be the anchor. */
  predicate NotAbove(block: Anchor, anchor: Anchor) {
    block.number <= anchor.number && (block.number == anchor.number ==> block == anchor)
  }

  predicate ValidInclusion(i: Inclusion, nonce: nat, txs: seq<SignedTx>) {
    && ValidAnchor(i.block) && ValidAnchor(i.observedAt)
    && NotAbove(i.block, i.observedAt)
    && match i.outcome
       case Success(hash) => ContainsHash(txs, hash)
       case Reverted(hash) => ContainsHash(txs, hash)
       case Replaced(hash, count) =>
         !ContainsHash(txs, hash) && nonce < count < UINT256_LIMIT
  }

  predicate ValidSearch(search: Search, nonce: nat) {
    && ValidObservation(search.lowerBound)
    && search.lowerBound.nonce <= nonce
    && (search.through.Some? ==>
          && ValidAnchor(search.through.value)
          && search.through.value.number > search.lowerBound.anchor.number)
  }

  predicate ValidAttempt(a: Attempt) {
    && a.nonce < UINT256_LIMIT
    && |a.txs| > 0
    && (a.search.Some? ==> ValidSearch(a.search.value, a.nonce))
    && (a.phase.Included? ==> ValidInclusion(a.phase.inclusion, a.nonce, a.txs))
  }

  predicate ValidRepair(r: Repair) {
    && ValidObservation(r.observation)
    && r.previousNextNonce < r.nextNonce < UINT256_LIMIT
    && r.observation.nonce == r.nextNonce
  }

  predicate ValidRepairs(repairs: seq<Repair>, durableNextNonce: nat) {
    && |repairs| <= MAX_RETAINED_NONCE_REPAIRS
    && (forall k :: 0 <= k < |repairs| ==> ValidRepair(repairs[k]))
    && (forall k :: 0 < k < |repairs| ==>
          repairs[k].previousNextNonce >= repairs[k - 1].nextNonce)
    && (|repairs| > 0 ==> repairs[|repairs| - 1].nextNonce <= durableNextNonce)
  }

  predicate DistinctIds(attempts: seq<Attempt>) {
    forall i, j :: 0 <= i < j < |attempts| ==>
      attempts[i].id != attempts[j].id && attempts[i].workId != attempts[j].workId
  }

  predicate DistinctHashesWithin(a: Attempt) {
    forall k, l :: 0 <= k < l < |a.txs| ==> a.txs[k].hash != a.txs[l].hash
  }

  predicate DisjointHashes(a: Attempt, b: Attempt) {
    forall k :: 0 <= k < |a.txs| ==> !ContainsHash(b.txs, a.txs[k].hash)
  }

  predicate DistinctHashes(attempts: seq<Attempt>) {
    && (forall i :: 0 <= i < |attempts| ==> DistinctHashesWithin(attempts[i]))
    && (forall i, j :: 0 <= i < j < |attempts| ==> DisjointHashes(attempts[i], attempts[j]))
  }

  /** Retained attempts are consecutive in nonce, starting at `first`. */
  predicate Consecutive(attempts: seq<Attempt>, first: nat) {
    forall i :: 0 <= i < |attempts| ==> attempts[i].nonce == first + i
  }

  predicate ValidQueue(attempts: seq<Attempt>, first: nat) {
    && (forall i :: 0 <= i < |attempts| ==> ValidAttempt(attempts[i]))
    && Consecutive(attempts, first)
    && DistinctIds(attempts)
    && DistinctHashes(attempts)
  }

  predicate ValidCounters(s: Snapshot) {
    && ValidIdentity(s.identity)
    && ValidObservation(s.baseline)
    && ValidObservation(s.lastObservation)
    && s.baseline.nonce <= s.durableNextNonce <= s.nextNonce < UINT256_LIMIT
    && |s.attempts| == s.nextNonce - s.durableNextNonce
  }

  predicate Valid(s: Snapshot) {
    && ValidCounters(s)
    && ValidRepairs(s.repairs, s.durableNextNonce)
    && ValidQueue(s.attempts, s.durableNextNonce)
  }

  /** Position of the oldest attempt that is not included, or the queue length. */
  function OldestUnresolved(attempts: seq<Attempt>): (k: nat)
    ensures k <= |attempts|
    ensures forall i :: 0 <= i < k ==> attempts[i].phase.Included?
    ensures k < |attempts| ==> !attempts[k].phase.Included?
  {
    if attempts == [] || !attempts[0].phase.Included? then 0
    else 1 + OldestUnresolved(attempts[1..])
  }

  predicate AllIncluded(attempts: seq<Attempt>) {
    forall i :: 0 <= i < |attempts| ==> attempts[i].phase.Included?
  }

  /** Records an attempt's transaction hashes, refusing one already seen. */
  method CollectHashes(txs: seq<SignedTx>, seen: set<Hash>) returns (ok: bool, seen': set<Hash>)
    ensures ok <==>
      && (forall k, l :: 0 <= k < l < |txs| ==> txs[k].hash != txs[l].hash)
      && (forall k :: 0 <= k < |txs| ==> txs[k].hash !in seen)
    ensures ok ==> forall h :: h in seen' <==> h in seen || ContainsHash(txs, h)
  {
    seen' := seen;
    for k := 0 to |txs|
      invariant forall h :: h in seen' <==> h in seen || exists m :: 0 <= m < k && txs[m].hash == h
      invariant forall m, l :: 0 <= m < l < k ==> txs[m].hash != txs[l].hash
      invariant forall m :: 0 <= m < k ==> txs[m].hash !in seen
    {
      if txs[k].hash in seen' { return false, seen'; }
      seen' := seen' + {txs[k].hash};
    }
    return true, seen';
  }

  /** What the sets of used identities hold after a valid prefix of the queue. */
  ghost predicate Collected(prefix: seq<Attempt>, ids: set<Uuid>, workIds: set<WorkId>, hashes: set<Hash>) {
    && (forall id :: id in ids <==> exists m :: 0 <= m < |prefix| && prefix[m].id == id)
    && (forall w :: w in workIds <==> exists m :: 0 <= m < |prefix| && prefix[m].workId == w)
    && (forall h :: h in hashes <==> exists m :: 0 <= m < |prefix| && ContainsHash(prefix[m].txs, h))
  }

  /** One more attempt keeps a valid queue valid exactly when it is valid itself,
      takes the next nonce and collides with nothing before it. */
  lemma ExtendQueue(prefix: seq<Attempt>, a: Attempt, first: nat, ids: set<Uuid>, workIds: set<WorkId>, hashes: set<Hash>)
    requires ValidQueue(prefix, first) && Collected(prefix, ids, workIds, hashes)
    ensures ValidQueue(prefix + [a], first) <==>
      && ValidAttempt(a) && a.nonce == first + |prefix|
      && a.id !in ids && a.workId !in workIds && DistinctHashesWithin(a)
      && forall k :: 0 <= k < |a.txs| ==> a.txs[k].hash !in hashes
  {
    var all := prefix + [a];
    assert all[|prefix|] == a && forall i :: 0 <= i < |prefix| ==> all[i] == prefix[i];
    if ValidQueue(all, first) {
      forall k | 0 <= k < |a.txs| ensures a.txs[k].hash !in hashes {
        forall m | 0 <= m < |prefix| ensures !ContainsHash(prefix[m].txs, a.txs[k].hash) {
          assert DisjointHashes(all[m], all[|prefix|]);
          assert ContainsHash(a.txs, a.txs[k].hash);
        }
      }
    }
    if forall k :: 0 <= k < |a.txs| ==> a.txs[k].hash !in hashes {
      forall m, k | 0 <= m < |prefix| && 0 <= k < |prefix[m].txs|
        ensures !ContainsHash(a.txs, prefix[m].txs[k].hash)
      {
        assert ContainsHash(prefix[m].txs, prefix[m].txs[k].hash);
      }
    }
  }

  lemma ExtendCollected(prefix: seq<Attempt>, a: Attempt, ids: set<Uuid>, workIds: set<WorkId>, hashes: set<Hash>, hashes': set<Hash>)
    requires Collected(prefix, ids, workIds, hashes)
    requires forall h :: h in hashes' <==> h in hashes || ContainsHash(a.txs, h)
    ensures Collected(prefix + [a], ids + {a.id}, workIds + {a.workId}, hashes')
  {
    var all := prefix + [a];
    assert all[|prefix|] == a && forall i :: 0 <= i < |prefix| ==> all[i] == prefix[i];
    forall h ensures h in hashes' <==> exists m :: 0 <= m < |all| && ContainsHash(all[m].txs, h) {
      if ContainsHash(a.txs, h) { assert ContainsHash(all[|prefix|].txs, h); }
      if h in hashes {
        var m :| 0 <= m < |prefix| && ContainsHash(prefix[m].txs, h);
        assert ContainsHash(all[m].txs, h);
      }
    }
  }

  method ValidateRepairs(repairs: seq<Repair>, durableNextNonce: nat) returns (ok: bool)
    ensures ok <==> ValidRepairs(repairs, durableNextNonce)
  {
    if |repairs| > MAX_RETAINED_NONCE_REPAIRS { return false; }
    for k := 0 to |repairs|
      invariant forall m :: 0 <= m < k ==> ValidRepair(repairs[m])
    {
      if !ValidRepair(repairs[k]) { return false; }
    }
    var next := 1;
    while next < |repairs|
      invariant 1 <= next
      invariant forall m :: 0 < m < next && m < |repairs| ==>
        repairs[m].previousNextNonce >= repairs[m - 1].nextNonce
    {
      if repairs[next].previousNextNonce < repairs[next - 1].nextNonce { return false; }
      next := next + 1;
    }
    return |repairs| == 0 || repairs[|repairs| - 1].nextNonce <= durableNextNonce;
  }

  /** The source's single pass over the queue with three growing sets decides
      exactly the pairwise invariant. */
  method ValidateQueue(attempts: seq<Attempt>, first: nat) returns (ok: bool)
    ensures ok <==> ValidQueue(attempts, first)
  {
    var ids: set<Uuid>, workIds: set<WorkId>, hashes: set<Hash> := {}, {}, {};
    for i := 0 to |attempts|
      invariant ValidQueue(attempts[..i], first)
      invariant Collected(attempts[..i], ids, workIds, hashes)
    {
      var a := attempts[i];
      assert attempts[..i + 1] == attempts[..i] + [a];
      ExtendQueue(attempts[..i], a, first, ids, workIds, hashes);
      if !ValidAttempt(a) || a.nonce != first + i || a.id in ids || a.workId in workIds {
        PrefixInvalid(attempts, first, i + 1);
        return false;
      }
      var unseen, hashes' := CollectHashes(a.txs, hashes);
      if !unseen {
        PrefixInvalid(attempts, first, i + 1);
        return false;
      }
      ExtendCollected(attempts[..i], a, ids, workIds, hashes, hashes');
      ids, workIds, hashes := ids + {a.id}, workIds + {a.workId}, hashes';
    }
    assert attempts[..|attempts|] == attempts;
    return true;
  }

  method ValidateStructure(s: Snapshot, expected: Identity) returns (ok: bool)
    ensures ok <==> s.identity == expected && Valid(s)
  {
    if s.identity != expected || !ValidCounters(s) { return false; }
    ok := ValidateRepairs(s.repairs, s.durableNextNonce);
    if ok { ok := ValidateQueue(s.attempts, s.durableNextNonce); }
  }

  lemma PrefixInvalid(attempts: seq<Attempt>, first: nat, k: nat)
    requires k <= |attempts| && !ValidQueue(attempts[..k], first)
    ensures !ValidQueue(attempts, first)
  {
    var prefix := attempts[..k];
    assert forall i :: 0 <= i < k ==> prefix[i] == attempts[i];
  }
}
