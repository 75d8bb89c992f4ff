/** The journal writes the coordinator and the repair command plan, as functions of
    the committed journal and what was read, with the proof that each is a write
    the journal's history admits. */
module Transitions {
  import opened Journal
  import opened JournalHistory
  import opened Blocks
  import opened ReplacementSearch
  import opened Receipts
  import opened Inspections
  import opened SignerGate

  /** What a pending write will do to the coordinator once acknowledged. */
  datatype PendingWrite =
    | PBootstrap | PResolution(evidence: Evidence) | PObservation | PSearchProgress(exhausted: bool) | PPrepared | PBroadcast

  datatype Plan = Report | Store(next: Snapshot, kind: PendingWrite) | InternalError

  function WriteOf(kind: PendingWrite): Write {
    match kind
    case PBootstrap => Bootstrapped
    case PResolution(evidence) => Resolved(evidence)
    case PObservation => Observed
    case PSearchProgress(_) => Observed
    case PPrepared => Prepared
    case PBroadcast => Marked
  }

  function Bootstrap(identity: Identity, o: Observation): Snapshot {
    Snapshot(identity, o, o, o.nonce, o.nonce, [], [])
  }

  /** Recorded unattributed activity above a newly observed count is not erased. */
  function Retained(s: Snapshot, latched: set<Blocker>, seen: Observation): Observation {
    if UnattributedActivity in latched && s.lastObservation.nonce > seen.nonce then s.lastObservation else seen
  }

  function LowerBoundFor(oldest: Attempt, previous: Observation, last: Observation): Option<Search> {
    if oldest.search.Some? then oldest.search
    else if last.nonce <= oldest.nonce then Some(Search(last, None))
    else if previous.nonce <= oldest.nonce then Some(Search(previous, None))
    else None
  }

  predicate Progressed(r: RecoveryInspection) {
    r.Unresolved? && r.search.Some? && r.search.value.NotFound? && r.search.value.scanned > 0
  }

  predicate ReportsOnly(s: Snapshot, latched: set<Blocker>, r: RecoveryInspection) {
    || r.RecoveryAnchorChanged? || r.NonceBehindJournal? || r.InconsistentObservations? || r.RecoveryThrew? || r.RecoveryDeferred?
    || (r.Unresolved? && r.search.Some? && (r.search.value.BoundaryChanged? || r.search.value.AnchorBehindSearch?))
    || (UnattributedActivity in latched && s.lastObservation.nonce > r.observation.nonce && !r.ResolutionAvailable?)
  }

  function PlanRecovery(s: Snapshot, latched: set<Blocker>, r: RecoveryInspection): (plan: Plan)
    ensures plan.Store? ==> plan.next.identity == s.identity
  {
    if ReportsOnly(s, latched, r) then Report
    else
      var last := Retained(s, latched, r.observation);
      if r.ResolutionAvailable? then
        if s.attempts == [] || !Resolves(s.attempts[0], r.evidence) then InternalError
        else
          Store(s.(lastObservation := last, durableNextNonce := s.attempts[0].nonce + 1, attempts := s.attempts[1..]),
                PResolution(r.evidence))
      else if s.attempts == [] then Store(s.(lastObservation := last), PObservation)
      else
        var oldest := s.attempts[0];
        var search := LowerBoundFor(oldest, s.lastObservation, last);
        if Progressed(r) && search.None? then InternalError
        else
          var saved := if Progressed(r) then Some(search.value.(through := Some(r.search.value.through))) else search;
          Store(s.(lastObservation := last, attempts := s.attempts[0 := oldest.(search := saved)]),
                if Progressed(r) then PSearchProgress(r.search.value.remaining == 0) else PObservation)
  }

  function PlanInclusions(s: Snapshot, latched: set<Blocker>, r: InclusionInspection): Snapshot
    requires r.Inspected?
  {
    s.(lastObservation := Retained(s, latched, r.observation), attempts := r.attempts)
  }

  function NewAttempt(s: Snapshot, id: Uuid, workId: WorkId, createdAt: Timestamp, tx: SignedTx): Attempt {
    Attempt(id, workId, s.nextNonce, createdAt, [tx], Signed, Some(Search(s.lastObservation, None)))
  }

  function PlanPrepare(s: Snapshot, id: Uuid, workId: WorkId, createdAt: Timestamp, tx: SignedTx): (next: Snapshot)
    ensures next.identity == s.identity
  {
    s.(nextNonce := s.nextNonce + 1, attempts := s.attempts + [NewAttempt(s, id, workId, createdAt, tx)])
  }

  function PlanMark(s: Snapshot): Snapshot
    requires OldestUnresolved(s.attempts) < |s.attempts|
  {
    var k := OldestUnresolved(s.attempts);
    s.(attempts := s.attempts[k := s.attempts[k].(phase := MayBeBroadcast)])
  }

  predicate UsesHash(attempts: seq<Attempt>, hash: Hash) {
    exists k :: 0 <= k < |attempts| && ContainsHash(attempts[k].txs, hash)
  }

  predicate UsesWork(attempts: seq<Attempt>, workId: WorkId) {
    exists k :: 0 <= k < |attempts| && attempts[k].workId == workId
  }

  predicate UsesId(attempts: seq<Attempt>, id: Uuid) {
    exists k :: 0 <= k < |attempts| && attempts[k].id == id
  }

  lemma OneFieldQueue(attempts: seq<Attempt>, first: nat, k: nat, a: Attempt)
    requires ValidQueue(attempts, first) && k < |attempts| && ValidAttempt(a)
    requires a.id == attempts[k].id && a.workId == attempts[k].workId && a.nonce == attempts[k].nonce && a.txs == attempts[k].txs
    ensures ValidQueue(attempts[k := a], first)
  {
    var after := attempts[k := a];
    forall i, j | 0 <= i < j < |after| ensures DisjointHashes(after[i], after[j]) {
      assert DisjointHashes(attempts[i], attempts[j]);
    }
    forall i | 0 <= i < |after| ensures DistinctHashesWithin(after[i]) {
      assert DistinctHashesWithin(attempts[i]);
    }
  }

  lemma TailQueue(attempts: seq<Attempt>, first: nat)
    requires ValidQueue(attempts, first) && |attempts| > 0
    ensures ValidQueue(attempts[1..], first + 1)
  {
    var rest := attempts[1..];
    forall i, j | 0 <= i < j < |rest| ensures DisjointHashes(rest[i], rest[j]) {
      assert DisjointHashes(attempts[i + 1], attempts[j + 1]);
    }
    forall i | 0 <= i < |rest| ensures DistinctHashesWithin(rest[i]) && ValidAttempt(rest[i]) {
      assert DistinctHashesWithin(attempts[i + 1]);
    }
  }

  /** The search that was run and the search that is saved share a lower bound. */
  lemma SavedBoundIsSearched(s: Snapshot, latched: set<Blocker>, r: RecoveryInspection)
    requires |s.attempts| > 0 && Progressed(r) && !ReportsOnly(s, latched, r)
    requires r.observation.nonce > s.attempts[0].nonce
    ensures LowerBoundFor(s.attempts[0], s.lastObservation, Retained(s, latched, r.observation))
      == ResolveSearch(s.attempts[0], s.lastObservation)
  {
  }

  lemma SavedSearchValid(chain: Chain, s: Snapshot, latched: set<Blocker>, anchor: Anchor, range: nat, r: RecoveryInspection)
    requires Sound(s) && ValidAnchor(anchor) && |s.attempts| > 0 && Progressed(r) && !ReportsOnly(s, latched, r)
    requires RecoveryAnswers(chain, s, anchor, range, r)
    ensures var search := LowerBoundFor(s.attempts[0], s.lastObservation, Retained(s, latched, r.observation));
      search.Some? && ValidSearch(search.value.(through := Some(r.search.value.through)), s.attempts[0].nonce)
  {
    SavedBoundIsSearched(s, latched, r);
    assert ValidAttempt(s.attempts[0]);
  }

  /** Every plan a recovery pass makes is a change the history admits, none of its
      internal errors can happen, and the plan passes the structural check exactly when
      the anchor's number fits 256 bits. */
  lemma RecoveryFollows(chain: Chain, s: Snapshot, latched: set<Blocker>, anchor: Anchor, range: nat, r: RecoveryInspection)
    requires Sound(s) && RecoveryAnswers(chain, s, anchor, range, r)
    requires UnattributedActivity in latched <==> Unattributed(s)
    ensures var plan := PlanRecovery(s, latched, r);
      && !plan.InternalError?
      && (plan.Store? ==> Changes(s, Entry(WriteOf(plan.kind), plan.next)) && plan.next.durableNextNonce <= plan.next.lastObservation.nonce)
      && (plan.Store? ==> (Valid(plan.next) <==> ValidAnchor(anchor)))
  {
    if !ReportsOnly(s, latched, r) {
      hide PlanRecovery;
      hide RecoveryAnswers;
      hide Changes;
      hide Valid;
      if r.ResolutionAvailable? {
        ResolutionFollows(chain, s, latched, anchor, range, r);
      } else if s.attempts == [] {
        CountFollows(chain, s, latched, anchor, range, r);
      } else {
        SearchFollows(chain, s, latched, anchor, range, r);
      }
    }
  }

  lemma ResolutionFollows(chain: Chain, s: Snapshot, latched: set<Blocker>, anchor: Anchor, range: nat, r: RecoveryInspection)
    requires Sound(s) && RecoveryAnswers(chain, s, anchor, range, r) && r.ResolutionAvailable?
    requires UnattributedActivity in latched <==> Unattributed(s)
    ensures var plan := PlanRecovery(s, latched, r);
      && plan.Store? && Changes(s, Entry(WriteOf(plan.kind), plan.next)) && plan.next.durableNextNonce <= plan.next.lastObservation.nonce
      && (Valid(plan.next) <==> ValidAnchor(anchor))
  {
    TailQueue(s.attempts, s.durableNextNonce);
    assert s.attempts[0].nonce == s.durableNextNonce;
  }

  lemma CountFollows(chain: Chain, s: Snapshot, latched: set<Blocker>, anchor: Anchor, range: nat, r: RecoveryInspection)
    requires Sound(s) && RecoveryAnswers(chain, s, anchor, range, r) && !ReportsOnly(s, latched, r) && !r.ResolutionAvailable? && s.attempts == []
    requires UnattributedActivity in latched <==> Unattributed(s)
    ensures var plan := PlanRecovery(s, latched, r);
      && plan.Store? && Changes(s, Entry(WriteOf(plan.kind), plan.next)) && plan.next.durableNextNonce <= plan.next.lastObservation.nonce
      && (Valid(plan.next) <==> ValidAnchor(anchor))
  {
  }

  lemma SearchFollows(chain: Chain, s: Snapshot, latched: set<Blocker>, anchor: Anchor, range: nat, r: RecoveryInspection)
    requires Sound(s) && RecoveryAnswers(chain, s, anchor, range, r) && !ReportsOnly(s, latched, r) && !r.ResolutionAvailable? && |s.attempts| > 0
    requires UnattributedActivity in latched <==> Unattributed(s)
    ensures var plan := PlanRecovery(s, latched, r);
      && plan.Store? && Changes(s, Entry(WriteOf(plan.kind), plan.next)) && plan.next.durableNextNonce <= plan.next.lastObservation.nonce
      && (Valid(plan.next) <==> ValidAnchor(anchor))
  {
    var plan, oldest := PlanRecovery(s, latched, r), s.attempts[0];
    assert ValidAttempt(oldest);
    if Progressed(r) { SavedBoundIsSearched(s, latched, r); }
    if ValidAnchor(anchor) {
      if Progressed(r) { SavedSearchValid(chain, s, latched, anchor, range, r); }
      OneFieldQueue(s.attempts, s.durableNextNonce, 0, plan.next.attempts[0]);
    }
  }

  /** An empty journal observed again at block 2^256: the plan is to store that, and the
      structural check refuses it. */
  lemma UnboundedAnchorIsRefused(chain: Chain, identity: Identity, hash: Hash)
    requires ValidIdentity(identity)
    ensures var s := Bootstrap(identity, Observation(Anchor(0, hash), 0));
      var anchor := Anchor(UINT256_LIMIT, hash);
      var r := NoAttempt(Observation(anchor, 0));
      var plan := PlanRecovery(s, {}, r);
      Sound(s) && RecoveryAnswers(chain, s, anchor, 1, r) && plan.Store? && !Valid(plan.next)
  {
    var s := Bootstrap(identity, Observation(Anchor(0, hash), 0));
    assert Valid(s);
  }

  lemma InclusionsFollow(chain: Chain, s: Snapshot, latched: set<Blocker>, head: Anchor, r: InclusionInspection)
    requires Sound(s) && r.Inspected? && InclusionAnswers(chain, s, head, r)
    requires UnattributedActivity in latched <==> Unattributed(s)
    ensures Follows(s, Entry(Observed, PlanInclusions(s, latched, r)))
  {
    SweepKeeps(chain, s, head, r);
  }

  /** Preparing is a valid write exactly when identifiers, work and hash are new. */
  lemma PrepareFollows(s: Snapshot, id: Uuid, workId: WorkId, createdAt: Timestamp, tx: SignedTx)
    requires Sound(s) && s.lastObservation.nonce == s.nextNonce <= MAX_SAFE_INTEGER && AllIncluded(s.attempts)
    ensures var next := PlanPrepare(s, id, workId, createdAt, tx);
      && (Valid(next) <==> !UsesId(s.attempts, id) && !UsesWork(s.attempts, workId) && !UsesHash(s.attempts, tx.hash))
      && (Valid(next) ==> Follows(s, Entry(Prepared, next)))
  {
    var a := NewAttempt(s, id, workId, createdAt, tx);
    var ids := set k | 0 <= k < |s.attempts| :: s.attempts[k].id;
    var workIds := set k | 0 <= k < |s.attempts| :: s.attempts[k].workId;
    var hashes := set k, l | 0 <= k < |s.attempts| && 0 <= l < |s.attempts[k].txs| :: s.attempts[k].txs[l].hash;
    ExtendQueue(s.attempts, a, s.durableNextNonce, ids, workIds, hashes);
    assert a.txs[0] == tx;
  }

  lemma MarkFollows(s: Snapshot)
    requires Sound(s)
    requires var k := OldestUnresolved(s.attempts);
      k < |s.attempts| && s.attempts[k].phase == Signed && s.attempts[k].nonce == s.lastObservation.nonce
    ensures Follows(s, Entry(Marked, PlanMark(s)))
  {
    var k := OldestUnresolved(s.attempts);
    assert ValidAttempt(s.attempts[k]);
    OneFieldQueue(s.attempts, s.durableNextNonce, k, s.attempts[k].(phase := MayBeBroadcast));
  }

  /** What the stored searches and replacements claim about content-addressed blocks. */
  ghost predicate Truthful(chain: Chain, s: Snapshot) {
    forall k :: 0 <= k < |s.attempts| ==> TruthfulAttempt(chain, s.identity.signer, s.attempts[k])
  }

  ghost predicate TruthfulAttempt(chain: Chain, signer: Address, a: Attempt) {
    && (a.search.Some? ==> SearchSound(chain, signer, a.nonce, a.search.value))
    && (a.phase.Included? ==> Backed(chain, signer, a.nonce, a.phase.inclusion.block, a.phase.inclusion.outcome))
  }

  lemma RecoveryStaysTruthful(chain: Chain, s: Snapshot, latched: set<Blocker>, anchor: Anchor, range: nat, r: RecoveryInspection)
    requires Truthful(chain, s) && RecoveryAnswers(chain, s, anchor, range, r)
    requires PlanRecovery(s, latched, r).Store?
    ensures Truthful(chain, PlanRecovery(s, latched, r).next)
  {
    var next := PlanRecovery(s, latched, r).next;
    if r.ResolutionAvailable? {
      forall k | 0 <= k < |next.attempts| ensures TruthfulAttempt(chain, next.identity.signer, next.attempts[k]) {
        assert TruthfulAttempt(chain, s.identity.signer, s.attempts[k + 1]);
      }
    } else if |s.attempts| > 0 {
      var oldest := s.attempts[0];
      assert TruthfulAttempt(chain, s.identity.signer, oldest);
      if Progressed(r) {
        SavedBoundIsSearched(s, latched, r);
        var used := ResolveSearch(oldest, s.lastObservation).value;
        ResumeSound(chain, s.identity.signer, oldest.txs, oldest.nonce, used, r.observation, range, r.search.value);
      }
      forall k | 0 <= k < |next.attempts| ensures TruthfulAttempt(chain, next.identity.signer, next.attempts[k]) {
        assert TruthfulAttempt(chain, s.identity.signer, s.attempts[k]);
      }
    }
  }

  lemma InclusionsStayTruthful(chain: Chain, s: Snapshot, latched: set<Blocker>, head: Anchor, r: InclusionInspection)
    requires Truthful(chain, s) && r.Inspected? && InclusionAnswers(chain, s, head, r)
    ensures Truthful(chain, PlanInclusions(s, latched, r))
  {
    forall k | 0 <= k < |r.attempts| ensures TruthfulAttempt(chain, s.identity.signer, r.attempts[k]) {
      assert TruthfulAttempt(chain, s.identity.signer, s.attempts[k]);
      assert Swept(chain, s.identity.signer, head, r.observation, s.attempts[k], r.attempts[k]);
    }
  }

  /** A recovery pass whose search missed the consuming transaction. */
  ghost predicate Missed(chain: Chain, s: Snapshot, latched: set<Blocker>, seen: Observation, range: nat, r: RecoveryInspection) {
    && |s.attempts| > 0 && r.Unresolved? && r.observation == seen && r.search.Some? && r.search.value.NotFound?
    && RecoveryAnswers(chain, s, seen.anchor, range, r) && !ReportsOnly(s, latched, r)
  }

  /** What is saved is the search that was run, advanced by what it covered. */
  lemma SavedSearchAdvances(chain: Chain, s: Snapshot, latched: set<Blocker>, seen: Observation, range: nat, r: RecoveryInspection)
    requires Missed(chain, s, latched, seen, range, r)
    ensures ResolveSearch(s.attempts[0], s.lastObservation).Some? && PlanRecovery(s, latched, r).Store?
    ensures var next := PlanRecovery(s, latched, r).next;
      && |next.attempts| == |s.attempts| && next.identity == s.identity
      && next.attempts[0] == s.attempts[0].(search := next.attempts[0].search)
      && next.attempts[0].search == Some(SearchedOn(ResolveSearch(s.attempts[0], s.lastObservation).value, r.search.value))
  {
  }

  /** One recovery pass: the blockers latched when it planned, and what it read. */
  datatype RecoveryPass = RecoveryPass(latched: set<Blocker>, result: RecoveryInspection)

  /** Successive recovery passes at one observation, each saving before the next, with
      whatever was latched at the time. */
  ghost predicate KeepMissing(chain: Chain, s: Snapshot, seen: Observation, range: nat, passes: seq<RecoveryPass>)
    decreases |passes|
  {
    passes == [] || (
      && Missed(chain, s, passes[0].latched, seen, range, passes[0].result) && PlanRecovery(s, passes[0].latched, passes[0].result).Store?
      && KeepMissing(chain, PlanRecovery(s, passes[0].latched, passes[0].result).next, seen, range, passes[1..]))
  }

  function SearchAnswers(passes: seq<RecoveryPass>): (r: seq<SearchResult>)
    requires forall k :: 0 <= k < |passes| ==> passes[k].result.Unresolved? && passes[k].result.search.Some?
    ensures |r| == |passes|
  {
    if passes == [] then [] else [passes[0].result.search.value] + SearchAnswers(passes[1..])
  }

  lemma {:induction false} PassesAreSearches(chain: Chain, s: Snapshot, seen: Observation, range: nat, passes: seq<RecoveryPass>)
    requires passes != [] && KeepMissing(chain, s, seen, range, passes)
    ensures forall k :: 0 <= k < |passes| ==> passes[k].result.Unresolved? && passes[k].result.search.Some?
    ensures |s.attempts| > 0 && ResolveSearch(s.attempts[0], s.lastObservation).Some?
    ensures KeepsMissing(chain, s.identity.signer, s.attempts[0].txs, s.attempts[0].nonce,
                         ResolveSearch(s.attempts[0], s.lastObservation).value, seen, range, SearchAnswers(passes))
    decreases |passes|
  {
    var next := PlanRecovery(s, passes[0].latched, passes[0].result).next;
    SavedSearchAdvances(chain, s, passes[0].latched, seen, range, passes[0].result);
    hide PlanRecovery;
    hide ReportsOnly;
    if |passes| > 1 {
      PassesAreSearches(chain, next, seen, range, passes[1..]);
      assert forall k :: 1 <= k < |passes| ==> passes[k] == passes[1..][k - 1];
      assert SearchAnswers(passes)[1..] == SearchAnswers(passes[1..]);
    } else {
      assert SearchAnswers(passes)[1..] == [];
    }
  }

  /** With truthful counts, fewer than gap / range passes at one anchor can miss the
      consuming transaction, across everything the coordinator saves in between. */
  lemma RecoveryFindsSpend(chain: Chain, count: Hash -> nat, s: Snapshot, seen: Observation, range: nat, passes: seq<RecoveryPass>)
    requires NonceRule(chain, s.identity.signer, count) && Truthful(chain, s) && range > 0
    requires passes != [] && KeepMissing(chain, s, seen, range, passes)
    requires var search := ResolveSearch(s.attempts[0], s.lastObservation);
      search.Some? && count(search.value.lowerBound.anchor.hash) <= s.attempts[0].nonce < count(seen.anchor.hash)
      && Boundary(search.value).number < seen.anchor.number
    ensures |passes| * range < seen.anchor.number - Boundary(ResolveSearch(s.attempts[0], s.lastObservation).value).number
  {
    PassesAreSearches(chain, s, seen, range, passes);
    assert TruthfulAttempt(chain, s.identity.signer, s.attempts[0]);
    SearchFinds(chain, s.identity.signer, count, s.attempts[0].txs, s.attempts[0].nonce,
                ResolveSearch(s.attempts[0], s.lastObservation).value, seen, range, SearchAnswers(passes));
  }

  /** With truthful counts no pass ever exhausts its search, so the blocker for an
      exhausted search stands for a node that lied or a rule that was broken. */
  lemma TruthfulCountsNeverExhaust(chain: Chain, count: Hash -> nat, s: Snapshot, latched: set<Blocker>,
                                   seen: Observation, range: nat, r: RecoveryInspection)
    requires NonceRule(chain, s.identity.signer, count) && Truthful(chain, s) && Missed(chain, s, latched, seen, range, r)
    requires var search := ResolveSearch(s.attempts[0], s.lastObservation);
      search.Some? ==> count(search.value.lowerBound.anchor.hash) <= s.attempts[0].nonce < count(seen.anchor.hash)
    ensures PlanRecovery(s, latched, r).kind != PSearchProgress(true)
  {
    SavedSearchAdvances(chain, s, latched, seen, range, r);
    if Progressed(r) && r.search.value.remaining == 0 {
      var search := ResolveSearch(s.attempts[0], s.lastObservation).value;
      assert TruthfulAttempt(chain, s.identity.signer, s.attempts[0]);
      ResumeSound(chain, s.identity.signer, s.attempts[0].txs, s.attempts[0].nonce, search, seen, range, r.search.value);
      ClearKeepsCount(chain, s.identity.signer, count, s.attempts[0].nonce, search.lowerBound.anchor, seen.anchor);
    }
  }
}
