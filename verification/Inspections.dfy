/** What one pass over the chain may tell the coordinator: the decision for the
    oldest attempt at a durable block, and the sweep over all retained attempts
    at the current head. */
module Inspections {
  import opened Journal
  import opened JournalHistory
  import opened Blocks
  import opened ReplacementSearch
  import opened Receipts

  datatype RecoveryInspection =
    | RecoveryAnchorChanged(observed: Anchor)
    | NonceBehindJournal(observation: Observation)
    | NoAttempt(observation: Observation)
    | InconsistentObservations(observation: Observation)
    | ResolutionAvailable(observation: Observation, evidence: Evidence)
    | Unresolved(observation: Observation, receipt: ReceiptResult, search: Option<SearchResult>)
    | RecoveryDeferred(observation: Observation, latest: nat, pending: nat)
    | RecoveryThrew

  datatype InclusionInspection =
    | HeadChanged(observed: Anchor)
    | HeadNonceBehind(observation: Observation)
    | HeadInconsistent(observation: Observation)
    | Inspected(observation: Observation, attempts: seq<Attempt>, complete: bool, eligible: Option<Uuid>)
    | InclusionThrew

  /** Where a replacement search for `a` may start. */
  function ResolveSearch(a: Attempt, last: Observation): Option<Search> {
    if a.search.Some? then a.search
    else if last.nonce <= a.nonce then Some(Search(last, None))
    else None
  }

  /** The search runs only for a consumed nonce without a canonical receipt. */
  predicate NeedsSearch(s: Snapshot, receipt: ReceiptResult, nonce: NonceResult) {
    && |s.attempts| > 0 && nonce.NonceVerified?
    && nonce.observation.nonce > s.attempts[0].nonce
    && (receipt.ReceiptNotFound? || receipt.ForkServedReceipt?)
  }

  function DecideRecovery(s: Snapshot, receipt: ReceiptResult, nonce: NonceResult, search: SearchResult): (r: RecoveryInspection)
  {
    if |s.attempts| > 0 && receipt.ReceiptAnchorChanged? then RecoveryAnchorChanged(receipt.observed)
    else if |s.attempts| > 0 && receipt.ReceiptThrew? then RecoveryThrew
    else match nonce
      case NonceAnchorChanged(observed) => RecoveryAnchorChanged(observed)
      case NonceThrew => RecoveryThrew
      case NonceVerified(o) =>
        if o.nonce < s.durableNextNonce then NonceBehindJournal(o)
        else if |s.attempts| == 0 then NoAttempt(o)
        else
          var consumed := o.nonce > s.attempts[0].nonce;
          if receipt.Verified? then
            if consumed then ResolutionAvailable(o, Evidence(o.anchor, receipt.block, receipt.outcome))
            else InconsistentObservations(o)
          else if receipt.IncludedNotDurable? && consumed then InconsistentObservations(o)
          else if !consumed then Unresolved(o, receipt, None)
          else match search
            case SearchAnchorChanged(observed) => RecoveryAnchorChanged(observed)
            case SearchThrew => RecoveryThrew
            case ReplacementFound(block, hash, count) =>
              ResolutionAvailable(o, Evidence(o.anchor, block, Replaced(hash, count)))
            case _ => Unresolved(o, receipt, Some(search))
  }

  /** What a recovery answer establishes about the snapshot it was made for. A resolution
      or a searched block never comes from an anchor beyond 256 bits, and only a journal
      that is not there yet is deferred. */
  ghost predicate RecoveryAnswers(chain: Chain, s: Snapshot, anchor: Anchor, range: nat, r: RecoveryInspection) {
    match r
    case RecoveryAnchorChanged(_) => true
    case RecoveryThrew => true
    case RecoveryDeferred(_, _, _) => false
    case NonceBehindJournal(o) => o.anchor == anchor && o.nonce < s.durableNextNonce
    case NoAttempt(o) => o.anchor == anchor && s.attempts == [] && s.durableNextNonce <= o.nonce <= MAX_SAFE_INTEGER
    case InconsistentObservations(o) => o.anchor == anchor && |s.attempts| > 0
    case ResolutionAvailable(o, e) =>
      && o.anchor == anchor == e.anchor && ValidAnchor(anchor) && |s.attempts| > 0
      && s.attempts[0].nonce < o.nonce <= MAX_SAFE_INTEGER
      && NotAbove(e.block, anchor) && ResolutionMatches(s.attempts[0], e.outcome)
      && (e.outcome.Replaced? ==> e.outcome.nonceAtAnchor == o.nonce)
      && Backed(chain, s.identity.signer, s.attempts[0].nonce, e.block, e.outcome)
    case Unresolved(o, receipt, search) =>
      && o.anchor == anchor && |s.attempts| > 0 && s.durableNextNonce <= o.nonce <= MAX_SAFE_INTEGER
      && !receipt.Verified?
      && (search.None? ==> o.nonce == s.attempts[0].nonce)
      && (search.Some? ==>
            && o.nonce > s.attempts[0].nonce && ValidAnchor(anchor)
            && !search.value.SearchThrew? && !search.value.SearchAnchorChanged? && !search.value.ReplacementFound?
            && Answers(chain, s.identity.signer, s.attempts[0].txs, s.attempts[0].nonce,
                       ResolveSearch(s.attempts[0], s.lastObservation), o, range, search.value))
  }

  /** A replacement is backed when its block holds exactly that transaction of
      the signer at that nonce. */
  ghost predicate Backed(chain: Chain, signer: Address, nonce: nat, block: Anchor, outcome: Outcome) {
    outcome.Replaced? ==> chain(block.hash).number == block.number && OnlySpend(chain(block.hash), signer, nonce, outcome.hash)
  }

  /** What the node said, from `since` on, behind a recovery answer: the count was given
      between two looks at the anchor, and a success or revert by a receipt in a block
      seen canonical. */
  ghost predicate RecoveryWitnessed(rpc: Rpc, since: nat, r: RecoveryInspection) {
    match r
    case RecoveryAnchorChanged(observed) => rpc.ShownSince(observed, since)
    case RecoveryThrew => true
    case ResolutionAvailable(o, e) => Counted(rpc, since, o) && (e.outcome.Replaced? || Witnessed(rpc, since, e.outcome, e.block))
    case _ => Counted(rpc, since, r.observation)
  }

  lemma CountedSince(rpc: Rpc, since: nat, later: nat, o: Observation)
    requires since <= later && Counted(rpc, later, o)
    ensures Counted(rpc, since, o)
  {
  }

  /** Reads the oldest attempt's receipts, then the anchored count, then searches
      for a replacement when both leave the consuming transaction unknown. */
  method InspectSignerRecovery(rpc: Rpc, s: Snapshot, anchor: Anchor, range: nat, since: nat)
    returns (r: RecoveryInspection, ghost receipt: ReceiptResult, ghost nonce: NonceResult, ghost search: SearchResult)
    requires Valid(s)
    ensures if 0 < range < UINT256_LIMIT then r == DecideRecovery(s, receipt, nonce, search) else r.RecoveryThrew?
    ensures RecoveryAnswers(rpc.chain, s, anchor, range, r) && RecoveryWitnessed(rpc, since, r)
  {
    hide Counted;
    hide Witnessed;
    hide OnlySpend;
    receipt, nonce, search := ReceiptNotFound, NonceThrew, SearchThrew;
    if range == 0 || range >= UINT256_LIMIT { return RecoveryThrew, receipt, nonce, search; }
    var now := since;
    var receiptRead := ReceiptNotFound;
    if |s.attempts| > 0 {
      ghost var replies;
      receiptRead, now, replies := ReconcileAttemptReceipt(rpc, s.attempts[0].txs, anchor, since);
      receipt := receiptRead;
      if receiptRead.ReceiptAnchorChanged? || receiptRead.ReceiptThrew? {
        return DecideRecovery(s, receiptRead, NonceThrew, SearchThrew), receipt, nonce, search;
      }
      ReceiptSummary(s.attempts[0], anchor, replies, receiptRead);
    }
    ghost var asked := now;
    var nonceRead;
    nonceRead, now := ReadAnchoredNonce(rpc, anchor, now);
    nonce := nonceRead;
    if nonce.NonceVerified? { CountedSince(rpc, since, asked, nonce.observation); }
    var searchRead := SearchThrew;
    if NeedsSearch(s, receiptRead, nonceRead) && nonceRead.observation.nonce >= s.durableNextNonce {
      searchRead, now := SearchAttemptReplacement(rpc, s.identity.signer, s.attempts[0].txs, s.attempts[0].nonce,
        ResolveSearch(s.attempts[0], s.lastObservation), nonceRead.observation, range, now);
      search := searchRead;
    }
    r := DecideRecovery(s, receiptRead, nonceRead, searchRead);
  }

  lemma ReceiptSummary(a: Attempt, anchor: Anchor, replies: seq<ReceiptResult>, r: ReceiptResult)
    requires |replies| == |a.txs| && Summarizes(replies, r)
    requires forall k :: 0 <= k < |replies| ==> ReceiptOf(a.txs[k].hash, anchor, replies[k])
    ensures r.Verified? ==> NotAbove(r.block, anchor) && !r.outcome.Replaced? && ResolutionMatches(a, r.outcome)
  {
  }

  /** What the sweep may do to one attempt. */
  ghost predicate Swept(chain: Chain, signer: Address, head: Anchor, seen: Observation, a: Attempt, b: Attempt) {
    || b == a
    || (a.phase.Included? && b == a.(phase := Included(a.phase.inclusion.(observedAt := head))))
    || (a.phase.Included? && b == a.(phase := MayBeBroadcast, search := Restarted(a.search)))
    || (!a.phase.Included? && b.phase.Included? && b == a.(phase := b.phase) && b.phase.inclusion.observedAt == head
        && Backed(chain, signer, a.nonce, b.phase.inclusion.block, b.phase.inclusion.outcome))
  }

  /** Search progress from an abandoned fork must not skip blocks. */
  function Restarted(search: Option<Search>): Option<Search> {
    if search.None? then None else Some(Search(search.value.lowerBound, None))
  }

  ghost predicate VerifiedNow(head: Anchor, seen: Observation, b: Attempt) {
    b.phase.Included? && b.phase.inclusion.observedAt == head && b.nonce < seen.nonce
  }

  ghost predicate InclusionAnswers(chain: Chain, s: Snapshot, head: Anchor, r: InclusionInspection) {
    match r
    case Inspected(seen, attempts, complete, eligible) =>
      && seen.anchor == head && s.durableNextNonce <= seen.nonce
      && Valid(s.(lastObservation := seen, attempts := attempts))
      && |attempts| == |s.attempts|
      && (forall i :: 0 <= i < |attempts| ==> Swept(chain, s.identity.signer, head, seen, s.attempts[i], attempts[i]))
      && (complete ==> forall i :: 0 <= i < |attempts| ==> VerifiedNow(head, seen, attempts[i]))
      && (eligible.Some? ==>
            var k := OldestUnresolved(attempts);
            && k < |attempts| && attempts[k].id == eligible.value && attempts[k].nonce == seen.nonce
            && forall i :: 0 <= i < k ==> VerifiedNow(head, seen, attempts[i]))
    case HeadNonceBehind(seen) => seen.anchor == head && seen.nonce < s.durableNextNonce
    case HeadInconsistent(seen) => seen.anchor == head
    case _ => true
  }

  /** What the first loop learns about one attempt. */
  datatype LookReply = Rechecked(recheck: RecheckResult) | Looked(receipt: ReceiptResult)

  /** A saved inclusion is rechecked; any other attempt has its receipts read. */
  predicate Asks(a: Attempt, reply: LookReply) {
    && (a.phase.Included? <==> reply.Rechecked?)
    && (reply.Looked? && reply.receipt.Verified? ==> !reply.receipt.outcome.Replaced?)
  }

  /** What the node said, from `since` on, behind each reply: an inclusion counts only
      with a receipt in a block seen canonical at or below the head, for a transaction of
      this very attempt, and is given up only for another block seen at its number. */
  ghost predicate Supported(rpc: Rpc, since: nat, a: Attempt, head: Anchor, reply: LookReply) {
    match reply
    case Rechecked(VerifiedUnchanged) =>
      a.phase.Included? && Reconfirmed(rpc, since, a.phase.inclusion) && a.phase.inclusion.block.number <= head.number
    case Rechecked(InclusionBlockChanged(canonical)) =>
      && a.phase.Included? && canonical.number == a.phase.inclusion.block.number && canonical != a.phase.inclusion.block
      && rpc.ShownSince(canonical, since)
    case Rechecked(HeadBehindInclusion) => a.phase.Included? && head.number < a.phase.inclusion.block.number
    case Looked(Verified(outcome, block)) => Witnessed(rpc, since, outcome, block) && NotAbove(block, head) && ContainsHash(a.txs, outcome.hash)
    case Looked(ReceiptNotFound) => AllMissing(rpc, since, a.txs)
    case _ => true
  }

  /** The node knew no receipt of any of the transactions. */
  ghost predicate AllMissing(rpc: Rpc, since: nat, txs: seq<SignedTx>) {
    forall k :: 0 <= k < |txs| ==> NoReceipt(rpc, since, txs[k].hash)
  }

  lemma SupportedSince(rpc: Rpc, since: nat, later: nat, a: Attempt, head: Anchor, reply: LookReply)
    requires since <= later && Supported(rpc, later, a, head, reply)
    ensures Supported(rpc, since, a, head, reply)
  {
    match reply {
      case Looked(Verified(outcome, block)) => ServedSince(rpc, since, later, outcome.hash, block, outcome.Success?, block);
      case Looked(ReceiptNotFound) =>
        forall k | 0 <= k < |a.txs| ensures NoReceipt(rpc, since, a.txs[k].hash) {
          assert NoReceipt(rpc, later, a.txs[k].hash);
        }
      case _ =>
    }
  }

  function AfterLook(a: Attempt, head: Anchor, reply: LookReply): Attempt
    requires Asks(a, reply)
  {
    match reply
    case Rechecked(VerifiedUnchanged) => a.(phase := Included(a.phase.inclusion.(observedAt := head)))
    case Rechecked(InclusionBlockChanged(_)) => a.(phase := MayBeBroadcast, search := Restarted(a.search))
    case Looked(Verified(outcome, block)) => a.(phase := Included(Inclusion(block, head, outcome)))
    case _ => a
  }

  predicate Confirms(reply: LookReply) {
    (reply.Rechecked? && reply.recheck.VerifiedUnchanged?) || (reply.Looked? && reply.receipt.Verified?)
  }

  predicate Pends(reply: LookReply) {
    reply.Looked? && (reply.receipt.ReceiptNotFound? || reply.receipt.ForkServedReceipt?)
  }

  /** The effect of a replacement search on an attempt without a receipt. */
  function AfterSearch(a: Attempt, head: Anchor, found: Option<SearchResult>): Attempt {
    if Replaces(found) then
      a.(phase := Included(Inclusion(found.value.block, head, Replaced(found.value.hash, found.value.nonceAtAnchor))))
    else a
  }

  predicate Replaces(found: Option<SearchResult>) { found.Some? && found.value.ReplacementFound? }

  ghost predicate Ascending(indices: seq<nat>, bound: nat) {
    && (forall i :: 0 <= i < |indices| ==> indices[i] < bound)
    && (forall i, j :: 0 <= i < j < |indices| ==> indices[i] < indices[j])
  }

  lemma {:induction false} FullCardinality(indices: set<nat>, n: nat)
    requires forall i :: i in indices ==> i < n
    ensures |indices| <= n
    ensures |indices| == n <==> forall i :: 0 <= i < n ==> i in indices
    decreases n
  {
    if n > 0 {
      var rest := indices - {n - 1};
      FullCardinality(rest, n - 1);
      assert |rest| == if n - 1 in indices then |indices| - 1 else |indices| by {
        if n - 1 !in indices { assert rest == indices; }
      }
      if |indices| == n {
        assert n - 1 in indices;
        forall i | 0 <= i < n ensures i in indices {
          assert i == n - 1 || i in rest;
        }
      }
    } else {
      assert indices == {};
    }
  }

  /** The first `|attempts|` attempts were looked at, with these replies. */
  ghost predicate LookedAt(s: Snapshot, head: Anchor, replies: seq<LookReply>, attempts: seq<Attempt>,
                           verified: set<nat>, nonces: seq<nat>, candidates: seq<nat>)
  {
    && |replies| == |attempts| <= |s.attempts|
    && (forall m :: 0 <= m < |attempts| ==> Asks(s.attempts[m], replies[m]) && attempts[m] == AfterLook(s.attempts[m], head, replies[m]))
    && (forall m: nat :: m in verified <==> m < |replies| && Confirms(replies[m]))
    && (forall m :: m in verified ==> attempts[m].nonce in nonces)
    && Ascending(candidates, |attempts|)
    && (forall m: nat :: m in candidates <==> m < |replies| && Pends(replies[m]))
  }

  ghost predicate AllSupported(rpc: Rpc, since: nat, s: Snapshot, head: Anchor, replies: seq<LookReply>) {
    |replies| <= |s.attempts| && forall m :: 0 <= m < |replies| ==> Supported(rpc, since, s.attempts[m], head, replies[m])
  }

  datatype Look = LookThrew | LookChanged(observed: Anchor) | LookDone

  /** Looks at one attempt: rechecks a saved inclusion or reads every receipt. */
  method LookAt(rpc: Rpc, a: Attempt, head: Anchor, since: nat)
    returns (look: Look, b: Attempt, confirmed: bool, pending: bool, now: nat, ghost reply: LookReply)
    ensures now >= since
    ensures look.LookDone? ==> Asks(a, reply) && Supported(rpc, since, a, head, reply) && b == AfterLook(a, head, reply)
    ensures look.LookDone? ==> confirmed == Confirms(reply) && pending == Pends(reply)
  {
    b, confirmed, pending, now, reply := a, false, false, since, Rechecked(RecheckThrew);
    if a.phase.Included? {
      var result;
      result, now := InspectInclusionEvidence(rpc, a.phase.inclusion, head, since);
      reply := Rechecked(result);
      if result.RecheckThrew? { return LookThrew, b, confirmed, pending, now, reply; }
      if result.VerifiedUnchanged? {
        b, confirmed := a.(phase := Included(a.phase.inclusion.(observedAt := head))), true;
      } else if result.InclusionBlockChanged? {
        b := a.(phase := MayBeBroadcast, search := Restarted(a.search));
      }
    } else {
      var receipt;
      ghost var replies;
      receipt, now, replies := ReconcileAttemptReceipt(rpc, a.txs, head, since);
      reply := Looked(receipt);
      if receipt.ReceiptAnchorChanged? { return LookChanged(receipt.observed), b, confirmed, pending, now, reply; }
      if receipt.ReceiptThrew? { return LookThrew, b, confirmed, pending, now, reply; }
      if receipt.Verified? {
        b, confirmed := a.(phase := Included(Inclusion(receipt.block, head, receipt.outcome))), true;
      } else {
        pending := receipt.ReceiptNotFound? || receipt.ForkServedReceipt?;
      }
    }
    return LookDone, b, confirmed, pending, now, reply;
  }

  method LookAtAttempts(rpc: Rpc, s: Snapshot, head: Anchor, since: nat)
    returns (look: Look, attempts: seq<Attempt>, verified: set<nat>, nonces: seq<nat>, candidates: seq<nat>,
             now: nat, ghost replies: seq<LookReply>)
    ensures now >= since
    ensures look.LookDone? ==> |attempts| == |s.attempts| && LookedAt(s, head, replies, attempts, verified, nonces, candidates)
    ensures look.LookDone? ==> AllSupported(rpc, since, s, head, replies)
  {
    hide Supported;
    hide Asks;
    hide AfterLook;
    hide Confirms;
    hide Pends;
    look, attempts, verified, nonces, candidates, now, replies := LookDone, [], {}, [], [], since, [];
    for i := 0 to |s.attempts|
      invariant |attempts| == i && look.LookDone? && now >= since
      invariant LookedAt(s, head, replies, attempts, verified, nonces, candidates)
      invariant AllSupported(rpc, since, s, head, replies)
    {
      var b: Attempt, confirmed: bool, pending: bool;
      ghost var reply: LookReply;
      ghost var asked := now;
      look, b, confirmed, pending, now, reply := LookAt(rpc, s.attempts[i], head, now);
      if !look.LookDone? { return; }
      SupportedSince(rpc, since, asked, s.attempts[i], head, reply);
      attempts, replies := attempts + [b], replies + [reply];
      if confirmed { verified, nonces := verified + {i}, nonces + [b.nonce]; }
      if pending { candidates := candidates + [i]; }
    }
  }

  /** Which pending attempts were searched, and what came of it. */
  ghost predicate Searched(looked: seq<Attempt>, head: Anchor, seen: Observation, candidates: seq<nat>, done: nat,
                           searches: seq<Option<SearchResult>>, attempts: seq<Attempt>, verified: set<nat>, verified': set<nat>)
  {
    && done <= |candidates| && |searches| == |attempts| == |looked|
    && (forall m :: 0 <= m < |looked| ==> attempts[m] == AfterSearch(looked[m], head, searches[m]))
    && (forall m :: 0 <= m < |looked| ==> (searches[m].Some? <==> m in candidates[..done] && seen.nonce > looked[m].nonce))
    && (forall m: nat :: m in verified' <==> m in verified || (m < |looked| && Replaces(searches[m])))
  }

  ghost predicate SearchesAnswer(chain: Chain, s: Snapshot, looked: seq<Attempt>, seen: Observation,
                                 range: nat, searches: seq<Option<SearchResult>>)
  {
    && |searches| == |looked|
    && forall m :: 0 <= m < |searches| && searches[m].Some? ==>
         Answers(chain, s.identity.signer, looked[m].txs, looked[m].nonce, ResolveSearch(looked[m], s.lastObservation), seen, range, searches[m].value)
  }

  lemma SearchedNext(looked: seq<Attempt>, head: Anchor, seen: Observation, candidates: seq<nat>, done: nat,
                     searches: seq<Option<SearchResult>>, attempts: seq<Attempt>, verified: set<nat>, verified': set<nat>, found: Option<SearchResult>)
    requires Searched(looked, head, seen, candidates, done, searches, attempts, verified, verified')
    requires done < |candidates| && Ascending(candidates, |looked|)
    requires found.Some? <==> seen.nonce > looked[candidates[done]].nonce
    ensures var index := candidates[done];
      Searched(looked, head, seen, candidates, done + 1, searches[index := found],
               attempts[index := AfterSearch(looked[index], head, found)], verified,
               if Replaces(found) then verified' + {index} else verified')
  {
    var index := candidates[done];
    assert candidates[..done + 1] == candidates[..done] + [index];
    assert index !in candidates[..done];
  }

  /** Searches for what consumed the nonce of each attempt without a receipt. */
  method SearchReplacements(rpc: Rpc, s: Snapshot, head: Anchor, seen: Observation, range: nat,
                            looked: seq<Attempt>, verified: set<nat>, candidates: seq<nat>, since: nat)
    returns (look: Look, attempts: seq<Attempt>, verified': set<nat>, now: nat, ghost searches: seq<Option<SearchResult>>)
    requires Ascending(candidates, |looked|)
    ensures now >= since
    ensures look.LookDone? ==> Searched(looked, head, seen, candidates, |candidates|, searches, attempts, verified, verified')
    ensures look.LookDone? ==> SearchesAnswer(rpc.chain, s, looked, seen, range, searches)
  {
    look, attempts, verified', now := LookDone, looked, verified, since;
    searches := seq(|looked|, _ => None);
    for c := 0 to |candidates|
      invariant look.LookDone? && now >= since
      invariant Searched(looked, head, seen, candidates, c, searches, attempts, verified, verified')
      invariant SearchesAnswer(rpc.chain, s, looked, seen, range, searches)
    {
      var index := candidates[c];
      assert attempts[index] == looked[index] by { Untouched(looked, head, seen, candidates, c, searches, attempts, verified, verified'); }
      var a := attempts[index];
      ghost var found: Option<SearchResult> := None;
      if seen.nonce > a.nonce {
        var search;
        search, now := SearchAttemptReplacement(rpc, s.identity.signer, a.txs, a.nonce,
          ResolveSearch(a, s.lastObservation), seen, range, now);
        if search.SearchAnchorChanged? { return LookChanged(search.observed), attempts, verified', now, searches; }
        if search.SearchThrew? { return LookThrew, attempts, verified', now, searches; }
        found := Some(search);
        SearchedNext(looked, head, seen, candidates, c, searches, attempts, verified, verified', found);
        if search.ReplacementFound? {
          var replaced := Replaced(search.hash, search.nonceAtAnchor);
          attempts := attempts[index := a.(phase := Included(Inclusion(search.block, head, replaced)))];
          verified' := verified' + {index};
        }
        searches := searches[index := found];
      } else {
        SearchedNext(looked, head, seen, candidates, c, searches, attempts, verified, verified', found);
        assert searches[index := None] == searches && attempts[index := a] == attempts;
      }
      assert attempts[index := attempts[index]] == attempts;
    }
  }

  lemma Untouched(looked: seq<Attempt>, head: Anchor, seen: Observation, candidates: seq<nat>, c: nat,
                  searches: seq<Option<SearchResult>>, attempts: seq<Attempt>, verified: set<nat>, verified': set<nat>)
    requires Searched(looked, head, seen, candidates, c, searches, attempts, verified, verified')
    requires c < |candidates| && Ascending(candidates, |looked|)
    ensures searches[candidates[c]].None? && attempts[candidates[c]] == looked[candidates[c]]
  {
    assert candidates[c] !in candidates[..c];
  }

  /** The whole pass as a function of what was read: every attempt's new state, the
      completeness flag, and the one attempt that may be sent again. */
  ghost predicate PassResult(s: Snapshot, head: Anchor, range: Option<nat>, r: InclusionInspection,
                             replies: seq<LookReply>, searches: seq<Option<SearchResult>>)
    requires r.Inspected?
  {
    var k := OldestUnresolved(r.attempts);
    && |replies| == |searches| == |r.attempts| == |s.attempts|
    && (forall m :: 0 <= m < |replies| ==> Asks(s.attempts[m], replies[m]))
    && (forall m :: 0 <= m < |replies| ==> r.attempts[m] == AfterSearch(AfterLook(s.attempts[m], head, replies[m]), head, searches[m]))
    && (forall m :: 0 <= m < |searches| ==>
          (searches[m].Some? <==> range.Some? && Pends(replies[m]) && r.observation.nonce > s.attempts[m].nonce))
    && (r.complete <==> forall m :: 0 <= m < |replies| ==> Confirms(replies[m]) || Replaces(searches[m]))
    && (r.eligible == if k < |r.attempts| && MayResend(r, k, replies, searches) then Some(r.attempts[k].id) else None)
  }

  ghost predicate MayResend(r: InclusionInspection, k: nat, replies: seq<LookReply>, searches: seq<Option<SearchResult>>)
    requires r.Inspected? && k < |r.attempts| == |replies| == |searches|
  {
    && Pends(replies[k]) && r.observation.nonce == r.attempts[k].nonce
    && forall m :: 0 <= m < k ==> Confirms(replies[m]) || Replaces(searches[m])
  }

  /** A head, and a search range if given, that the pass accepts. */
  predicate Inspectable(head: Anchor, range: Option<nat>) {
    ValidAnchor(head) && (range.Some? ==> 0 < range.value < UINT256_LIMIT)
  }

  method InspectSignerInclusions(rpc: Rpc, s: Snapshot, head: Anchor, range: Option<nat>, checkOuterHead: bool, since: nat)
    returns (r: InclusionInspection, now: nat, ghost replies: seq<LookReply>, ghost searches: seq<Option<SearchResult>>)
    requires Valid(s)
    ensures now >= since
    ensures InclusionAnswers(rpc.chain, s, head, r)
    ensures r.Inspected? ==> PassResult(s, head, range, r, replies, searches)
    ensures r.Inspected? ==> AllSupported(rpc, since, s, head, replies)
    ensures r.Inspected? || r.HeadNonceBehind? || r.HeadInconsistent? ==> Counted(rpc, since, r.observation)
    ensures r.Inspected? && range.Some? ==> SearchesAnswer(rpc.chain, s, s.attempts, r.observation, range.value, searches)
    ensures !Inspectable(head, range) ==> r.InclusionThrew?
  {
    now, replies, searches := since, [], [];
    if !Inspectable(head, range) { return InclusionThrew, now, replies, searches; }
    if checkOuterHead && |s.attempts| > 0 {
      var opening;
      opening, now := rpc.CheckAnchor(head, now);
      if opening.Changed? { return HeadChanged(opening.observed), now, replies, searches; }
      if opening.Unreadable? { return InclusionThrew, now, replies, searches; }
    }
    var look, looked, confirmed, nonces, candidates, counting, seenReplies := LookAtAttempts(rpc, s, head, now);
    RepliesSince(rpc, since, now, s, head, look, seenReplies);
    now, replies := counting, seenReplies;
    if look.LookChanged? { return HeadChanged(look.observed), now, replies, searches; }
    if look.LookThrew? { return InclusionThrew, now, replies, searches; }

    // The anchored count comes before any search for a consuming transaction.
    var nonce;
    nonce, now := ReadAnchoredNonce(rpc, head, now);
    if nonce.NonceAnchorChanged? { return HeadChanged(nonce.observed), now, replies, searches; }
    if nonce.NonceThrew? { return InclusionThrew, now, replies, searches; }
    var seen := nonce.observation;
    CountedSince(rpc, since, counting, seen);
    if seen.nonce < s.durableNextNonce { return HeadNonceBehind(seen), now, replies, searches; }
    if exists v :: v in nonces && seen.nonce <= v { return HeadInconsistent(seen), now, replies, searches; }

    var attempts, verified := looked, confirmed;
    searches := seq(|looked|, _ => None);
    if range.Some? {
      look, attempts, verified, now, searches := SearchReplacements(rpc, s, head, seen, range.value, looked, confirmed, candidates, now);
      if look.LookChanged? { return HeadChanged(look.observed), now, replies, searches; }
      if look.LookThrew? { return InclusionThrew, now, replies, searches; }
    }
    if checkOuterHead && |s.attempts| > 0 {
      var closing;
      closing, now := rpc.CheckAnchor(head, now);
      if closing.Changed? { return HeadChanged(closing.observed), now, replies, searches; }
      if closing.Unreadable? { return InclusionThrew, now, replies, searches; }
    }

    assert SearchesAnswer(rpc.chain, s, looked, seen, if range.Some? then range.value else 1, searches);
    SearchedAll(looked, head, seen, candidates, searches, attempts, confirmed, verified, range);
    SearchesOfJournal(rpc.chain, s, head, seen, range, looked, confirmed, nonces, candidates, replies, searches, attempts, verified);
    r := Conclude(rpc.chain, s, head, seen, range, looked, attempts, confirmed, verified, nonces, candidates, replies, searches);
  }

  lemma RepliesSince(rpc: Rpc, since: nat, later: nat, s: Snapshot, head: Anchor, look: Look, replies: seq<LookReply>)
    requires since <= later && (look.LookDone? ==> AllSupported(rpc, later, s, head, replies))
    ensures look.LookDone? ==> AllSupported(rpc, since, s, head, replies)
  {
    if look.LookDone? {
      forall m | 0 <= m < |replies| ensures Supported(rpc, since, s.attempts[m], head, replies[m]) {
        SupportedSince(rpc, since, later, s.attempts[m], head, replies[m]);
      }
    }
  }

  /** Only attempts the first loop left as they were are searched. */
  lemma SearchesOfJournal(chain: Chain, s: Snapshot, head: Anchor, seen: Observation, range: Option<nat>, looked: seq<Attempt>,
                          confirmed: set<nat>, nonces: seq<nat>, candidates: seq<nat>, replies: seq<LookReply>,
                          searches: seq<Option<SearchResult>>, attempts: seq<Attempt>, verified: set<nat>)
    requires |looked| == |s.attempts| && LookedAt(s, head, replies, looked, confirmed, nonces, candidates)
    requires AfterSearches(looked, head, seen, range, candidates, searches, attempts, confirmed, verified)
    requires range.Some? ==> SearchesAnswer(chain, s, looked, seen, range.value, searches)
    ensures range.Some? ==> SearchesAnswer(chain, s, s.attempts, seen, range.value, searches)
  {
    if range.Some? {
      forall m | 0 <= m < |searches| && searches[m].Some?
        ensures Answers(chain, s.identity.signer, s.attempts[m].txs, s.attempts[m].nonce,
                        ResolveSearch(s.attempts[m], s.lastObservation), seen, range.value, searches[m].value)
      {
        assert m in candidates && looked[m] == AfterLook(s.attempts[m], head, replies[m]);
      }
    }
  }

  /** What searching leaves, also when it was not enabled. */
  ghost predicate AfterSearches(looked: seq<Attempt>, head: Anchor, seen: Observation, range: Option<nat>, candidates: seq<nat>,
                                searches: seq<Option<SearchResult>>, attempts: seq<Attempt>, confirmed: set<nat>, verified: set<nat>)
  {
    && |searches| == |attempts| == |looked|
    && (forall m :: 0 <= m < |looked| ==> attempts[m] == AfterSearch(looked[m], head, searches[m]))
    && (forall m :: 0 <= m < |looked| ==> (searches[m].Some? <==> range.Some? && m in candidates && seen.nonce > looked[m].nonce))
    && (forall m: nat :: m in verified <==> m in confirmed || (m < |looked| && Replaces(searches[m])))
  }

  lemma SearchedAll(looked: seq<Attempt>, head: Anchor, seen: Observation, candidates: seq<nat>, searches: seq<Option<SearchResult>>,
                    attempts: seq<Attempt>, confirmed: set<nat>, verified: set<nat>, range: Option<nat>)
    requires if range.Some? then Searched(looked, head, seen, candidates, |candidates|, searches, attempts, confirmed, verified)
             else attempts == looked && verified == confirmed && searches == seq(|looked|, _ => None)
    ensures AfterSearches(looked, head, seen, range, candidates, searches, attempts, confirmed, verified)
  {
    assert candidates[..|candidates|] == candidates;
  }

  /** Which attempt may be sent again, and the final structural check. */
  method Conclude(ghost chain: Chain, s: Snapshot, head: Anchor, seen: Observation, ghost range: Option<nat>, ghost looked: seq<Attempt>,
                  attempts: seq<Attempt>, ghost confirmed: set<nat>, verified: set<nat>, ghost nonces: seq<nat>, candidates: seq<nat>,
                  ghost replies: seq<LookReply>, ghost searches: seq<Option<SearchResult>>)
    returns (r: InclusionInspection)
    requires seen.anchor == head && s.durableNextNonce <= seen.nonce
    requires |looked| == |s.attempts| && LookedAt(s, head, replies, looked, confirmed, nonces, candidates)
    requires forall v :: v in nonces ==> v < seen.nonce
    requires AfterSearches(looked, head, seen, range, candidates, searches, attempts, confirmed, verified)
    requires SearchesAnswer(chain, s, looked, seen, if range.Some? then range.value else 1, searches)
    ensures InclusionAnswers(chain, s, head, r)
    ensures r.Inspected? ==> PassResult(s, head, range, r, replies, searches) && r.observation == seen
    ensures r.Inspected? || r.InclusionThrew?
  {
    EachSwept(chain, s, head, seen, range, looked, attempts, confirmed, verified, nonces, candidates, replies, searches);
    FullCardinality(verified, |attempts|);
    EachResult(s, head, seen, range, looked, attempts, confirmed, verified, nonces, candidates, replies, searches);
    hide *;
    var complete := |verified| == |attempts|;
    var eligible: Option<Uuid> := None;
    var k := OldestUnresolved(attempts);
    if k < |attempts| && k in candidates && seen.nonce == attempts[k].nonce && forall i :: 0 <= i < k ==> i in verified {
      eligible := Some(attempts[k].id);
    }
    var ok := ValidateStructure(s.(lastObservation := seen, attempts := attempts), s.identity);
    if !ok { return InclusionThrew; }
    r := Inspected(seen, attempts, complete, eligible);
    ConcludeAnswers(chain, s, head, r, verified);
    ConcludeResult(s, head, range, r, verified, candidates, replies, searches);
  }

  lemma ConcludeAnswers(chain: Chain, s: Snapshot, head: Anchor, r: InclusionInspection, verified: set<nat>)
    requires r.Inspected? && r.observation.anchor == head && s.durableNextNonce <= r.observation.nonce
    requires Valid(s.(lastObservation := r.observation, attempts := r.attempts)) && |r.attempts| == |s.attempts|
    requires forall m :: 0 <= m < |r.attempts| ==> Swept(chain, s.identity.signer, head, r.observation, s.attempts[m], r.attempts[m])
    requires forall m :: m in verified ==> m < |r.attempts| && VerifiedNow(head, r.observation, r.attempts[m])
    requires r.complete <==> forall i :: 0 <= i < |r.attempts| ==> i in verified
    requires r.eligible.Some? ==>
      var k := OldestUnresolved(r.attempts);
      k < |r.attempts| && r.attempts[k].id == r.eligible.value && r.attempts[k].nonce == r.observation.nonce
      && forall i :: 0 <= i < k ==> i in verified
    ensures InclusionAnswers(chain, s, head, r)
  {
    hide Valid;
    hide Swept;
    hide VerifiedNow;
  }

  lemma EachResult(s: Snapshot, head: Anchor, seen: Observation, range: Option<nat>, looked: seq<Attempt>,
                   attempts: seq<Attempt>, confirmed: set<nat>, verified: set<nat>, nonces: seq<nat>, candidates: seq<nat>,
                   replies: seq<LookReply>, searches: seq<Option<SearchResult>>)
    requires |looked| == |s.attempts| && LookedAt(s, head, replies, looked, confirmed, nonces, candidates)
    requires AfterSearches(looked, head, seen, range, candidates, searches, attempts, confirmed, verified)
    ensures |replies| == |searches| == |attempts| == |s.attempts|
    ensures forall m :: 0 <= m < |replies| ==> Asks(s.attempts[m], replies[m])
    ensures forall m :: 0 <= m < |replies| ==> attempts[m] == AfterSearch(AfterLook(s.attempts[m], head, replies[m]), head, searches[m])
    ensures forall m :: 0 <= m < |searches| ==>
      (searches[m].Some? <==> range.Some? && Pends(replies[m]) && seen.nonce > s.attempts[m].nonce)
    ensures forall m: nat :: m in verified <==> m < |replies| && (Confirms(replies[m]) || Replaces(searches[m]))
    ensures forall m: nat :: m in candidates <==> m < |replies| && Pends(replies[m])
  {
  }

  lemma ConcludeResult(s: Snapshot, head: Anchor, range: Option<nat>, r: InclusionInspection, verified: set<nat>, candidates: seq<nat>,
                       replies: seq<LookReply>, searches: seq<Option<SearchResult>>)
    requires r.Inspected? && |replies| == |searches| == |r.attempts| == |s.attempts|
    requires forall m :: 0 <= m < |replies| ==> Asks(s.attempts[m], replies[m])
    requires forall m :: 0 <= m < |replies| ==> r.attempts[m] == AfterSearch(AfterLook(s.attempts[m], head, replies[m]), head, searches[m])
    requires forall m :: 0 <= m < |searches| ==>
      (searches[m].Some? <==> range.Some? && Pends(replies[m]) && r.observation.nonce > s.attempts[m].nonce)
    requires forall m: nat :: m in verified <==> m < |replies| && (Confirms(replies[m]) || Replaces(searches[m]))
    requires forall m: nat :: m in candidates <==> m < |replies| && Pends(replies[m])
    requires r.complete <==> forall i :: 0 <= i < |r.attempts| ==> i in verified
    requires var k := OldestUnresolved(r.attempts);
      r.eligible ==
        if k < |r.attempts| && k in candidates && r.observation.nonce == r.attempts[k].nonce && (forall i :: 0 <= i < k ==> i in verified)
                    then Some(r.attempts[k].id) else None
    ensures PassResult(s, head, range, r, replies, searches)
  {
    hide AfterLook;
    hide AfterSearch;
    hide Asks;
    hide Confirms;
    hide Pends;
    hide Replaces;
  }

  /** Every attempt was handled as the pass promises, and each verified position now
      holds an inclusion observed at this head below the count. */
  lemma EachSwept(chain: Chain, s: Snapshot, head: Anchor, seen: Observation, range: Option<nat>, looked: seq<Attempt>,
                  attempts: seq<Attempt>, confirmed: set<nat>, verified: set<nat>, nonces: seq<nat>, candidates: seq<nat>,
                  replies: seq<LookReply>, searches: seq<Option<SearchResult>>)
    requires |looked| == |s.attempts| && LookedAt(s, head, replies, looked, confirmed, nonces, candidates)
    requires forall v :: v in nonces ==> v < seen.nonce
    requires AfterSearches(looked, head, seen, range, candidates, searches, attempts, confirmed, verified)
    requires SearchesAnswer(chain, s, looked, seen, if range.Some? then range.value else 1, searches)
    ensures forall m :: 0 <= m < |attempts| ==> Swept(chain, s.identity.signer, head, seen, s.attempts[m], attempts[m])
    ensures forall m :: m in verified ==> m < |attempts| && VerifiedNow(head, seen, attempts[m])
  {
    forall m | 0 <= m < |attempts|
      ensures Swept(chain, s.identity.signer, head, seen, s.attempts[m], attempts[m])
      ensures m in verified ==> VerifiedNow(head, seen, attempts[m])
    {
      assert looked[m] == AfterLook(s.attempts[m], head, replies[m]);
      assert attempts[m] == AfterSearch(looked[m], head, searches[m]);
      if Replaces(searches[m]) { assert m in candidates && Pends(replies[m]); }
    }
  }

  /** The sweep never changes an allocation or signed bytes, never returns an
      attempt to the signed phase, and never resumes a search past its bound. */
  lemma SweepKeeps(chain: Chain, s: Snapshot, head: Anchor, r: InclusionInspection)
    requires r.Inspected? && InclusionAnswers(chain, s, head, r)
    ensures SameQueue(s.attempts, r.attempts)
    ensures forall i :: 0 <= i < |r.attempts| ==>
      r.attempts[i].search == s.attempts[i].search || r.attempts[i].search == Restarted(s.attempts[i].search)
  {
    forall i | 0 <= i < |r.attempts|
      ensures Kept(s.attempts[i], r.attempts[i])
      ensures r.attempts[i].search == s.attempts[i].search || r.attempts[i].search == Restarted(s.attempts[i].search)
    {
      assert Swept(chain, s.identity.signer, head, r.observation, s.attempts[i], r.attempts[i]);
    }
  }

  /** A complete sweep has seen every allocated nonce consumed. */
  lemma CompleteSweepCounts(chain: Chain, s: Snapshot, head: Anchor, r: InclusionInspection)
    requires Valid(s) && r.Inspected? && r.complete && InclusionAnswers(chain, s, head, r)
    ensures AllIncluded(r.attempts) && r.observation.nonce >= s.nextNonce
  {
    if |s.attempts| > 0 {
      var last := |s.attempts| - 1;
      assert VerifiedNow(head, r.observation, r.attempts[last]);
      assert Swept(chain, s.identity.signer, head, r.observation, s.attempts[last], r.attempts[last]);
    }
  }
}
