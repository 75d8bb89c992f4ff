/** Bracketed replies about one attempt: its receipts, a saved inclusion, and the
    signer's transaction count at an explicit block. */
module Receipts {
  import opened Journal
  import opened Blocks

  datatype ReceiptResult =
    | Verified(outcome: Outcome, block: Anchor)
    | ReceiptNotFound
    | ReceiptAnchorChanged(observed: Anchor)
    | IncludedNotDurable(hash: Hash, block: Anchor)
    | ForkServedReceipt(block: Anchor, canonical: Anchor)
    | ReceiptThrew

  datatype NonceResult =
    | NonceVerified(observation: Observation)
    | NonceAnchorChanged(observed: Anchor)
    | NonceThrew

  datatype RecheckResult =
    | VerifiedUnchanged
    | InclusionBlockChanged(canonical: Anchor)
    | ReceiptUnavailable
    | HeadBehindInclusion
    | RecheckThrew

  predicate IsInclusion(r: ReceiptResult) {
    r.Verified? || r.IncludedNotDurable?
  }

  /** What one lookup of `hash` may report under `anchor`. */
  predicate ReceiptOf(hash: Hash, anchor: Anchor, r: ReceiptResult) {
    match r
    case Verified(outcome, block) =>
      (outcome == Success(hash) || outcome == Reverted(hash)) && ValidAnchor(anchor) && NotAbove(block, anchor)
    case IncludedNotDurable(h, block) => h == hash && block.number > anchor.number
    case ForkServedReceipt(block, canonical) => block.number == canonical.number && block != canonical
    case ReceiptNotFound => true
    case ReceiptThrew => true
    case ReceiptAnchorChanged(_) => false
  }

  /** From `since` on the node gave this receipt, and then showed this block at the
      receipt's number. */
  ghost predicate ServedThenShown(rpc: Rpc, since: nat, hash: Hash, block: Anchor, succeeded: bool, canonical: Anchor) {
    block.number == canonical.number
    && exists at: nat, later: nat ::
         since <= at <= later && rpc.receipts(hash, at) == Receipt(hash, block, succeeded) && rpc.ShownAt(canonical, later)
  }

  /** An outcome that a receipt in a block then seen canonical bears out. */
  ghost predicate Witnessed(rpc: Rpc, since: nat, outcome: Outcome, block: Anchor) {
    !outcome.Replaced? && ServedThenShown(rpc, since, outcome.hash, block, outcome.Success?, block)
  }

  /** From `since` on the node had no receipt for the hash. */
  ghost predicate NoReceipt(rpc: Rpc, since: nat, hash: Hash) {
    exists at :: at >= since && rpc.receipts(hash, at) == ReceiptMissing
  }

  /** The replies of the node, from `since` on, that an answer about `hash` rests on. */
  ghost predicate Reported(rpc: Rpc, since: nat, hash: Hash, r: ReceiptResult) {
    match r
    case Verified(outcome, block) => outcome.hash == hash && Witnessed(rpc, since, outcome, block)
    case IncludedNotDurable(_, block) => exists ok :: ServedThenShown(rpc, since, hash, block, ok, block)
    case ForkServedReceipt(block, canonical) => exists ok :: ServedThenShown(rpc, since, hash, block, ok, canonical)
    case ReceiptNotFound => NoReceipt(rpc, since, hash)
    case _ => true
  }

  /** What was said later was also said since an earlier moment. */
  lemma ServedSince(rpc: Rpc, since: nat, later: nat, hash: Hash, block: Anchor, succeeded: bool, canonical: Anchor)
    requires since <= later && ServedThenShown(rpc, later, hash, block, succeeded, canonical)
    ensures ServedThenShown(rpc, since, hash, block, succeeded, canonical)
  {
  }

  lemma ReportedSince(rpc: Rpc, since: nat, later: nat, hash: Hash, r: ReceiptResult)
    requires since <= later && Reported(rpc, later, hash, r)
    ensures Reported(rpc, since, hash, r)
  {
    match r {
      case Verified(outcome, block) => ServedSince(rpc, since, later, hash, block, outcome.Success?, block);
      case IncludedNotDurable(_, block) =>
        var ok :| ServedThenShown(rpc, later, hash, block, ok, block);
        ServedSince(rpc, since, later, hash, block, ok, block);
      case ForkServedReceipt(block, canonical) =>
        var ok :| ServedThenShown(rpc, later, hash, block, ok, canonical);
        ServedSince(rpc, since, later, hash, block, ok, canonical);
      case _ =>
    }
  }

  /** The answer for every recorded hash, given each hash's own answer. */
  predicate Summarizes(replies: seq<ReceiptResult>, r: ReceiptResult) {
    match r
    case Verified(_, _) => OnlyInclusion(replies, r)
    case IncludedNotDurable(_, _) => OnlyInclusion(replies, r)
    case ForkServedReceipt(_, _) =>
      && (forall k :: 0 <= k < |replies| ==> !IsInclusion(replies[k]))
      && exists k :: 0 <= k < |replies| && replies[k] == r
           && forall l :: 0 <= l < k ==> replies[l].ReceiptNotFound?
    case ReceiptNotFound => forall k :: 0 <= k < |replies| ==> replies[k].ReceiptNotFound?
    case _ => true
  }

  predicate OnlyInclusion(replies: seq<ReceiptResult>, r: ReceiptResult) {
    exists k :: 0 <= k < |replies| && replies[k] == r
      && forall l :: 0 <= l < |replies| && IsInclusion(replies[l]) ==> l == k
  }

  /** Evidence is made only at an anchor whose number fits 256 bits. */
  method ReadReceipt(rpc: Rpc, hash: Hash, anchor: Anchor, since: nat) returns (r: ReceiptResult, now: nat)
    ensures now >= since && ReceiptOf(hash, anchor, r) && Reported(rpc, since, hash, r) && !r.ReceiptAnchorChanged?
  {
    var reply;
    reply, now := rpc.GetReceipt(hash, since);
    if reply.ReceiptMissing? { return ReceiptNotFound, now; }
    if reply.ReceiptError? || reply.hash != hash { return ReceiptThrew, now; }
    ghost var at := now;
    var canonical;
    canonical, now := rpc.GetAnchor(reply.block.number, now);
    if canonical.None? { return ReceiptThrew, now; }
    assert since <= at <= now && rpc.receipts(hash, at) == Receipt(hash, reply.block, reply.succeeded);
    assert ServedThenShown(rpc, since, hash, reply.block, reply.succeeded, canonical.value);
    if canonical.value != reply.block { return ForkServedReceipt(reply.block, canonical.value), now; }
    if reply.block.number > anchor.number { return IncludedNotDurable(hash, reply.block), now; }
    if !ValidAnchor(anchor) || !NotAbove(reply.block, anchor) { return ReceiptThrew, now; }
    return Verified(if reply.succeeded then Success(hash) else Reverted(hash), reply.block), now;
  }

  lemma VerifiedMeans(rpc: Rpc, since: nat, hash: Hash, anchor: Anchor, r: ReceiptResult)
    requires r.Verified? && ReceiptOf(hash, anchor, r) && Reported(rpc, since, hash, r)
    ensures r.outcome.hash == hash && Witnessed(rpc, since, r.outcome, r.block) && ValidAnchor(anchor) && NotAbove(r.block, anchor)
  {
  }

  /** Checks every recorded hash; a missing or fork-served receipt does not stop
      the later lookups, and two inclusions for one nonce are refused. */
  method ReconcileAttemptReceipt(rpc: Rpc, txs: seq<SignedTx>, anchor: Anchor, since: nat)
    returns (r: ReceiptResult, now: nat, ghost replies: seq<ReceiptResult>)
    ensures now >= since
    ensures !r.ReceiptThrew? && !r.ReceiptAnchorChanged? ==> |replies| == |txs| && Summarizes(replies, r)
    ensures forall k :: 0 <= k < |replies| && k < |txs| ==>
      ReceiptOf(txs[k].hash, anchor, replies[k]) && Reported(rpc, since, txs[k].hash, replies[k])
    ensures r.Verified? ==> Witnessed(rpc, since, r.outcome, r.block) && ValidAnchor(anchor) && NotAbove(r.block, anchor)
    ensures r.Verified? ==> rpc.ShownSince(anchor, since) && ContainsHash(txs, r.outcome.hash)
    ensures r.ReceiptAnchorChanged? ==> rpc.ShownSince(r.observed, since)
    ensures |txs| == 0 ==> r.ReceiptThrew?
  {
    hide ReceiptOf;
    hide Reported;
    hide Witnessed;
    hide NotAbove;
    hide ValidAnchor;
    replies, now := [], since;
    if |txs| == 0 { return ReceiptThrew, now, replies; }
    var unique: set<Hash> := {};
    for k := 0 to |txs| {
      if txs[k].hash in unique { return ReceiptThrew, now, replies; }
      unique := unique + {txs[k].hash};
    }
    var before;
    before, now := rpc.CheckAnchor(anchor, since);
    if before.Changed? { return ReceiptAnchorChanged(before.observed), now, replies; }
    if before.Unreadable? { return ReceiptThrew, now, replies; }

    var included: Option<ReceiptResult>, fork: Option<ReceiptResult> := None, None;
    var conflicting := false;
    for k := 0 to |txs|
      invariant |replies| == k && now >= since
      invariant forall l :: 0 <= l < k ==> ReceiptOf(txs[l].hash, anchor, replies[l]) && Reported(rpc, since, txs[l].hash, replies[l])
      invariant forall l :: 0 <= l < k ==> !replies[l].ReceiptThrew? && !replies[l].ReceiptAnchorChanged?
      invariant included.Some? && included.value.Verified? ==>
        Witnessed(rpc, since, included.value.outcome, included.value.block) && ValidAnchor(anchor)
        && NotAbove(included.value.block, anchor) && ContainsHash(txs, included.value.outcome.hash)
      invariant included.None? ==> !conflicting && forall l :: 0 <= l < k ==> !IsInclusion(replies[l])
      invariant included.Some? ==> IsInclusion(included.value)
      invariant included.Some? && !conflicting ==> OnlyInclusion(replies, included.value)
      invariant fork.None? ==> forall l :: 0 <= l < k ==> !replies[l].ForkServedReceipt?
      invariant fork.Some? ==> fork.value.ForkServedReceipt?
      invariant fork.Some? ==> exists l :: 0 <= l < k && replies[l] == fork.value && forall m :: 0 <= m < l ==> !replies[m].ForkServedReceipt?
    {
      ghost var asked := now;
      var result;
      result, now := ReadReceipt(rpc, txs[k].hash, anchor, now);
      ReportedSince(rpc, since, asked, txs[k].hash, result);
      if result.ReceiptThrew? { return ReceiptThrew, now, replies; }
      ghost var earlier := replies;
      replies := replies + [result];
      assert replies[k] == result && forall l :: 0 <= l < k ==> replies[l] == earlier[l];
      if result.Verified? { VerifiedMeans(rpc, since, txs[k].hash, anchor, result); }
      if IsInclusion(result) {
        if included.Some? { conflicting := true; } else { included := Some(result); }
      } else if result.ForkServedReceipt? && fork.None? {
        fork := Some(result);
      }
    }
    var after;
    after, now := rpc.CheckAnchor(anchor, now);
    if after.Changed? { return ReceiptAnchorChanged(after.observed), now, replies; }
    if after.Unreadable? || conflicting { return ReceiptThrew, now, replies; }
    if included.Some? { return included.value, now, replies; }
    if fork.Some? { return fork.value, now, replies; }
    return ReceiptNotFound, now, replies;
  }

  /** Saved evidence that can be rechecked at all. */
  predicate Recheckable(saved: Inclusion) {
    && ValidAnchor(saved.observedAt) && NotAbove(saved.block, saved.observedAt)
    && (saved.outcome.Replaced? ==> saved.outcome.nonceAtAnchor < UINT256_LIMIT)
  }

  /** From `since` on the node showed the saved block, and then gave the saved receipt. */
  ghost predicate Reconfirmed(rpc: Rpc, since: nat, saved: Inclusion) {
    exists at: nat, later: nat, ok :: since <= at <= later && rpc.ShownAt(saved.block, at)
      && rpc.receipts(saved.outcome.hash, later) == Receipt(saved.outcome.hash, saved.block, ok)
      && (saved.outcome.Success? ==> ok) && (saved.outcome.Reverted? ==> !ok)
  }

  /** Only a changed canonical block contradicts a saved inclusion. */
  method InspectInclusionEvidence(rpc: Rpc, saved: Inclusion, head: Anchor, since: nat) returns (r: RecheckResult, now: nat)
    ensures now >= since && (!Recheckable(saved) ==> r.RecheckThrew?)
    ensures Recheckable(saved) ==> (r.HeadBehindInclusion? <==> head.number < saved.block.number)
    ensures r.InclusionBlockChanged? ==>
      r.canonical.number == saved.block.number && r.canonical != saved.block && rpc.ShownSince(r.canonical, since)
    ensures r.VerifiedUnchanged? ==> Reconfirmed(rpc, since, saved)
    ensures r.ReceiptUnavailable? ==> rpc.ShownSince(saved.block, since) && NoReceipt(rpc, since, saved.outcome.hash)
  {
    now := since;
    if !Recheckable(saved) { return RecheckThrew, now; }
    if head.number < saved.block.number { return HeadBehindInclusion, now; }
    var canonical;
    canonical, now := rpc.GetAnchor(saved.block.number, since);
    if canonical.None? { return RecheckThrew, now; }
    if canonical.value != saved.block { return InclusionBlockChanged(canonical.value), now; }
    ghost var at := now;
    var reply;
    reply, now := rpc.GetReceipt(saved.outcome.hash, now);
    if reply.ReceiptMissing? { return ReceiptUnavailable, now; }
    if reply.ReceiptError? || reply.hash != saved.outcome.hash || reply.block != saved.block
       || (saved.outcome.Success? && !reply.succeeded) || (saved.outcome.Reverted? && reply.succeeded)
    {
      return RecheckThrew, now;
    }
    assert rpc.ShownAt(saved.block, at) && rpc.receipts(saved.outcome.hash, now) == Receipt(saved.outcome.hash, saved.block, reply.succeeded);
    return VerifiedUnchanged, now;
  }

  /** From `since` on the node gave this count for the anchor's number between two looks
      at the anchor. */
  ghost predicate Counted(rpc: Rpc, since: nat, o: Observation) {
    exists before: nat, at: nat, after: nat :: since <= before <= at <= after
      && rpc.ShownAt(o.anchor, before) && rpc.counts(o.anchor.number, at) == Some(o.nonce) && rpc.ShownAt(o.anchor, after)
  }

  method ReadAnchoredNonce(rpc: Rpc, anchor: Anchor, since: nat) returns (r: NonceResult, now: nat)
    ensures now >= since
    ensures r.NonceVerified? ==> r.observation.anchor == anchor && r.observation.nonce <= MAX_SAFE_INTEGER
    ensures r.NonceVerified? ==> Counted(rpc, since, r.observation)
    ensures r.NonceAnchorChanged? ==> r.observed.number == anchor.number && r.observed != anchor && rpc.ShownSince(r.observed, since)
  {
    var opening, before := rpc.CheckAnchor(anchor, since);
    if opening.Changed? { return NonceAnchorChanged(opening.observed), before; }
    if opening.Unreadable? { return NonceThrew, before; }
    var count, at := rpc.GetTransactionCount(anchor.number, before);
    if count.None? || count.value > MAX_SAFE_INTEGER { return NonceThrew, at; }
    var closing;
    closing, now := rpc.CheckAnchor(anchor, at);
    if closing.Changed? { return NonceAnchorChanged(closing.observed), now; }
    if closing.Unreadable? { return NonceThrew, now; }
    return NonceVerified(Observation(anchor, count.value)), now;
  }
}
