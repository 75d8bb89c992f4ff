/** Runs in which every count the node reports is the account's true one: in none of
    them is a replacement search ever exhausted, so that blocker, wherever it shows,
    stands for a node that lied or a chain that broke the account rule. */
module TruthfulRuns {
  import opened Journal
  import opened JournalHistory
  import opened JournalStore
  import opened Blocks
  import opened ReplacementSearch
  import opened Receipts
  import opened Inspections
  import opened SignerGate
  import opened Transitions
  import opened NonceSync
  import opened CoordinatorState
  import opened World
  import opened RunInvariant
  import opened SubmissionRecording

  ghost predicate Accurate(count: Hash -> nat, o: Observation) { o.nonce == count(o.anchor.hash) }

  /** The observations a journal keeps: its last one and every search's lower bound. */
  ghost predicate AccurateJournal(count: Hash -> nat, s: Snapshot) {
    && Accurate(count, s.lastObservation)
    && forall k :: 0 <= k < |s.attempts| && s.attempts[k].search.Some? ==> Accurate(count, s.attempts[k].search.value.lowerBound)
  }

  predicate HasCount(r: RecoveryInspection) { !r.RecoveryAnchorChanged? && !r.RecoveryThrew? }

  ghost predicate AccurateReply(count: Hash -> nat, e: Event) {
    match e
    case BootstrapReply(Ready(o)) => Accurate(count, o)
    case RecoveryReply(r) => HasCount(r) ==> Accurate(count, r.observation)
    case InclusionsReply(Inspected(o, _, _, _), _) => Accurate(count, o)
    case RepairOffline(o, _, _, _, _, _) => Accurate(count, o)
    case _ => true
  }

  // Every planned write keeps the journal's observations accurate

  lemma RecoveryStaysAccurate(count: Hash -> nat, s: Snapshot, latched: set<Blocker>, r: RecoveryInspection)
    requires AccurateJournal(count, s) && PlanRecovery(s, latched, r).Store? && Accurate(count, r.observation)
    ensures AccurateJournal(count, PlanRecovery(s, latched, r).next)
  {
  }

  lemma InclusionsStayAccurate(chain: Chain, count: Hash -> nat, s: Snapshot, latched: set<Blocker>, head: Anchor, r: InclusionInspection)
    requires AccurateJournal(count, s) && r.Inspected? && InclusionAnswers(chain, s, head, r) && Accurate(count, r.observation)
    ensures AccurateJournal(count, PlanInclusions(s, latched, r))
  {
    forall k | 0 <= k < |r.attempts| && r.attempts[k].search.Some? ensures Accurate(count, r.attempts[k].search.value.lowerBound) {
      assert Swept(chain, s.identity.signer, head, r.observation, s.attempts[k], r.attempts[k]);
    }
  }

  lemma PreparedStaysAccurate(count: Hash -> nat, s: Snapshot, id: Uuid, workId: WorkId, createdAt: Timestamp, tx: SignedTx)
    requires AccurateJournal(count, s)
    ensures AccurateJournal(count, PlanPrepare(s, id, workId, createdAt, tx))
  {
  }

  // No search is exhausted

  /** A search that reached the last observation has met every count in between. */
  lemma NeverReached(chain: Chain, count: Hash -> nat, s: Snapshot)
    requires NonceRule(chain, s.identity.signer, count) && Valid(s) && Truthful(chain, s) && AccurateJournal(count, s)
    ensures !SearchReachedObservation(s)
  {
    var k := OldestUnresolved(s.attempts);
    if SearchReachedObservation(s) {
      var a := s.attempts[k];
      assert ValidAttempt(a) && TruthfulAttempt(chain, s.identity.signer, a);
      ClearKeepsCount(chain, s.identity.signer, count, a.nonce, a.search.value.lowerBound.anchor, s.lastObservation.anchor);
      assert false;
    }
  }

  lemma NeverExhausts(chain: Chain, count: Hash -> nat, s: Snapshot, latched: set<Blocker>, anchor: Anchor, range: nat, r: RecoveryInspection)
    requires NonceRule(chain, s.identity.signer, count) && Valid(s) && Truthful(chain, s) && AccurateJournal(count, s)
    requires RecoveryAnswers(chain, s, anchor, range, r) && PlanRecovery(s, latched, r).Store? && Accurate(count, r.observation)
    ensures PlanRecovery(s, latched, r).kind != PSearchProgress(true)
  {
    if Progressed(r) {
      assert ValidAttempt(s.attempts[0]);
      TruthfulCountsNeverExhaust(chain, count, s, latched, r.observation, range, r);
    }
  }

  lemma LatchesNothing(c: State)
    requires SearchExhausted !in c.latched && (c.persistence.current.Some? ==> !SearchReachedObservation(c.persistence.current.value))
    ensures SearchExhausted !in Latch(c).latched && Latch(c).pendingWrite == c.pendingWrite && Latch(c).task == c.task
  {
    hide SearchReachedObservation;
  }

  predicate Silent(c: State) { SearchExhausted !in c.latched && c.pendingWrite != Some(PSearchProgress(true)) }

  /** Ending an operation touches no latch and no pending write. */
  lemma SettleIsSilent()
    ensures forall c: State, threw: bool {:trigger Settle(c, threw)} ::
      Settle(c, threw).latched == c.latched && Settle(c, threw).pendingWrite == c.pendingWrite
  {
  }

  lemma FinishLatchesNothing(c: State)
    requires Silent(c) && c.pendingWrite.Some? && (c.persistence.current.Some? ==> !SearchReachedObservation(c.persistence.current.value))
    ensures Silent(FinishWrite(c)) && FinishWrite(c).pendingWrite.None?
  {
    LatchesNothing(c.(latched := LatchedAfter(c.latched, c.pendingWrite.value), pendingWrite := None, busy := false));
    hide LatchSearch;
    hide LatchActivity;
  }

  /** A process about to settle: only its owner, permit and flags may still change. */
  lemma SettledLatchesNothing(c: State, threw: bool)
    requires Silent(c)
    ensures Silent(Settle(c, threw)) && Settle(c, threw).task == Resting
  {
  }

  lemma CheckedLatchesNothing(stored: State, s: Snapshot, r: InclusionInspection)
    requires Silent(stored) && stored.pendingWrite.Some? && stored.persistence.current == Some(s) && !SearchReachedObservation(s)
    ensures Silent(Completed(stored, None, s, AfterInclusions(r))) && !Completed(stored, None, s, AfterInclusions(r)).task.Saving?
  {
    hide FinishWrite;
    hide SearchReachedObservation;
    hide InclusionsPermit;
    FinishLatchesNothing(stored.(inclusionChecksComplete := r.Inspected? && r.complete));
  }

  lemma CompletedLatchesNothing(stored: State, before: Option<Snapshot>, s: Snapshot, k: Continuation)
    requires Silent(stored) && stored.pendingWrite.Some? && stored.persistence.current == Some(s) && !SearchReachedObservation(s)
    ensures Silent(Completed(stored, before, s, k)) && !Completed(stored, before, s, k).task.Saving?
  {
    if k.AfterInclusions? {
      CheckedLatchesNothing(stored, s, k.inspection);
      assert Completed(stored, before, s, k) == Completed(stored, None, s, k);
    } else {
      hide FinishWrite;
      hide Settle;
      hide SearchReachedObservation;
      hide RecoveryPermits;
      FinishLatchesNothing(stored);
      FinishLatchesNothing(stored.(recoveryComplete := true));
      var done, plain := FinishWrite(stored.(recoveryComplete := true)), FinishWrite(stored);
      SettledLatchesNothing(done, false);
      if before.Some? && |before.value.attempts| > 0 { SettledLatchesNothing(done.(permit := Some(before.value.attempts[0].id)), false); }
      if k.AfterPrepare? { SettledLatchesNothing(plain.(permit := Some(k.id)), false); }
    }
  }

  /** Committing a journal whose search reached nothing. */
  lemma CommitLatchesNothing(c: State)
    requires AwaitsStore(c) && c.pendingWrite.Some? && Silent(c) && !SearchReachedObservation(c.persistence.pending.value)
    ensures Silent(SaveCommitted(c)) && !SaveCommitted(c).task.Saving?
  {
    hide FinishWrite;
    SettleIsSilent();
    hide Settle;
    hide SearchReachedObservation;
    hide Completed;
    var s := c.persistence.pending.value;
    var stored := c.(persistence := Persistence(Idle, Some(s), None));
    FinishLatchesNothing(stored);
    if c.task.Saving? { CompletedLatchesNothing(stored, c.persistence.current, s, c.task.continuation); }
  }

  // Runs

  /** No search is latched or about to be latched as exhausted, and every journal the
      process holds or is about to write is accurate. */
  ghost predicate Unexhausted(count: Hash -> nat, c: State) {
    && Silent(c) && (c.persistence.current.Some? ==> AccurateJournal(count, c.persistence.current.value))
    && (c.persistence.pending.Some? ==> AccurateJournal(count, c.persistence.pending.value))
    && (c.task.Saving? ==> AccurateJournal(count, c.task.next))
  }

  lemma PlannedUnexhausted(chain: Chain, count: Hash -> nat, o: Outside, c: State, r: RecoveryInspection)
    requires DiskInv(chain, o) && PersistInv(o, c) && NonceRule(chain, o.identity.signer, count) && Unexhausted(count, c)
    requires Possible(chain, c, RecoveryReply(r)) && AccurateReply(count, RecoveryReply(r))
    ensures var plan := PlanRecovery(c.persistence.current.value, c.latched, r);
      plan.Store? && !r.RecoveryThrew? ==> AccurateJournal(count, plan.next) && plan.kind != PSearchProgress(true)
  {
    var s := c.persistence.current.value;
    LastIsSound(o.history);
    assert Truthful(chain, s) && Valid(s) && s.identity == o.identity;
    hide DiskInv;
    hide PersistInv;
    hide Truthful;
    hide Valid;
    hide RecoveryAnswers;
    hide AccurateJournal;
    hide NonceRule;
    if PlanRecovery(s, c.latched, r).Store? && !r.RecoveryThrew? {
      assert HasCount(r);
      hide PlanRecovery;
      RecoveryStaysAccurate(count, s, c.latched, r);
      NeverExhausts(chain, count, s, c.latched, c.task.anchor, c.task.range, r);
    }
  }

  lemma RecoveryReadUnexhausted(chain: Chain, count: Hash -> nat, o: Outside, c: State, r: RecoveryInspection)
    requires DiskInv(chain, o) && PersistInv(o, c) && NonceRule(chain, o.identity.signer, count) && Unexhausted(count, c)
    requires Possible(chain, c, RecoveryReply(r)) && AccurateReply(count, RecoveryReply(r))
    ensures Unexhausted(count, RecoveryRead(c, r))
  {
    hide DiskInv;
    hide PersistInv;
    hide Possible;
    hide NonceRule;
    hide PlanRecovery;
    hide AccurateJournal;
    hide AccurateReply;
    SettleIsSilent();
    hide Settle;
    hide Valid;
    if c.task.Recovering? && c.persistence.current.Some? { PlannedUnexhausted(chain, count, o, c, r); }
  }

  lemma InclusionsReadUnexhausted(chain: Chain, count: Hash -> nat, c: State, r: InclusionInspection, closing: AnchorCheck)
    requires Unexhausted(count, c) && Possible(chain, c, InclusionsReply(r, closing)) && AccurateReply(count, InclusionsReply(r, closing))
    ensures Unexhausted(count, InclusionsRead(c, r, closing))
  {
    hide PlanInclusions;
    hide AccurateJournal;
    hide InclusionAnswers;
    SettleIsSilent();
    hide Settle;
    hide Valid;
    hide FailBracket;
    assert FailBracket(c).persistence == c.persistence && FailBracket(c).latched == c.latched && FailBracket(c).pendingWrite == c.pendingWrite by {
      BracketFails(c);
    }
    if r.Inspected? { InclusionsStayAccurate(chain, count, c.persistence.current.value, c.latched, c.task.head, r); }
  }

  lemma BracketFails(c: State)
    ensures FailBracket(c).persistence == c.persistence && FailBracket(c).latched == c.latched && FailBracket(c).pendingWrite == c.pendingWrite
  {
  }

  lemma SignsUnexhausted(count: Hash -> nat, c: State, id: Uuid, createdAt: Timestamp, tx: SignedTx)
    requires Unexhausted(count, c)
    ensures Unexhausted(count, AttemptSigned(c, id, createdAt, tx))
  {
    if c.persistence.current.Some? && c.task.Signing? {
      PreparedStaysAccurate(count, c.persistence.current.value, id, c.task.workId, createdAt, tx);
    }
    hide PlanPrepare;
    hide AccurateJournal;
    SettleIsSilent();
    hide Settle;
    hide Valid;
  }

  lemma BaselineIsAccurate(count: Hash -> nat, identity: Identity, o: Observation)
    requires Accurate(count, o)
    ensures AccurateJournal(count, Bootstrap(identity, o))
  {
  }

  lemma BootstrapUnexhausted(count: Hash -> nat, c: State, r: BootstrapRead)
    requires Unexhausted(count, c) && (r.Ready? ==> Accurate(count, r.observation))
    ensures Unexhausted(count, BootstrapObserved(c, r))
  {
    hide AccurateJournal;
    SettleIsSilent();
    hide Settle;
    if r.Ready? { BaselineIsAccurate(count, c.identity, r.observation); }
    hide Bootstrap;
  }

  predicate Handling(e: Event) { e.Begin? || e.Call? || e.Start? || e.HeadReply? || e.Finish? || e.Abandon? || e.AbandonmentSettles? }

  lemma HandlingUnexhausted(count: Hash -> nat, c: State, e: Event)
    requires Unexhausted(count, c) && Handling(e)
    ensures Unexhausted(count, Local(c, e))
  {
    hide AccurateJournal;
    hide ValidAnchor;
    hide State.Gate;
    SettleIsSilent();
    hide Settle;
    hide Unattributed;
    hide Valid;
  }

  predicate Ending(e: Event) { e.VerificationFailed? || e.StoreFailed? || e.Retry? || e.Prepare? || e.SigningFails? || e.SendReply? }

  lemma EndingUnexhausted(count: Hash -> nat, c: State, e: Event)
    requires Unexhausted(count, c) && Ending(e)
    ensures Unexhausted(count, Local(c, e))
  {
    hide AccurateJournal;
    SettleIsSilent();
    hide Settle;
    hide UsesWork;
  }

  lemma MarkStaysAccurate(count: Hash -> nat, s: Snapshot)
    requires AccurateJournal(count, s) && OldestUnresolved(s.attempts) < |s.attempts|
    ensures AccurateJournal(count, PlanMark(s))
  {
  }

  lemma BroadcastUnexhausted(count: Hash -> nat, c: State, id: Uuid)
    requires Unexhausted(count, c)
    ensures Unexhausted(count, BroadcastAttempt(c, id))
  {
    hide AccurateJournal;
    if c.CanBroadcast() { MarkStaysAccurate(count, c.persistence.current.value); }
    hide PlanMark;
  }

  // The journals outside the process

  ghost predicate AccurateDisk(count: Hash -> nat, o: Outside) {
    && (o.history != [] ==> AccurateJournal(count, o.history[|o.history| - 1].journal))
    && (o.tentative.Some? ==> AccurateJournal(count, o.tentative.value.journal))
  }

  ghost predicate AccurateWorld(count: Hash -> nat, w: World) {
    AccurateDisk(count, w.out) && (w.proc.Some? ==> Unexhausted(count, w.proc.value))
  }

  lemma LocalUnexhausted(chain: Chain, count: Hash -> nat, o: Outside, c: State, e: Event)
    requires DiskInv(chain, o) && PersistInv(o, c) && NonceRule(chain, o.identity.signer, count) && Unexhausted(count, c)
    requires Possible(chain, c, e) && AccurateReply(count, e)
    ensures Unexhausted(count, Local(c, e))
  {
    hide DiskInv;
    hide PersistInv;
    hide Possible;
    hide NonceRule;
    hide Unexhausted;
    hide BootstrapObserved;
    hide RecoveryRead;
    hide InclusionsRead;
    hide AttemptSigned;
    match e {
      case BootstrapReply(r) => BootstrapUnexhausted(count, c, r);
      case RecoveryReply(r) => RecoveryReadUnexhausted(chain, count, o, c, r);
      case InclusionsReply(r, closing) => InclusionsReadUnexhausted(chain, count, c, r, closing);
      case Signs(id, createdAt, tx) => SignsUnexhausted(count, c, id, createdAt, tx);
      case _ =>
        if Handling(e) { HandlingUnexhausted(count, c, e); }
        if Ending(e) { EndingUnexhausted(count, c, e); }
    }
  }

  /** The committed journal has nothing a search could have reached. */
  lemma PendingReachedNothing(chain: Chain, count: Hash -> nat, o: Outside, c: State)
    requires DiskInv(chain, o) && PersistInv(o, c) && NonceRule(chain, o.identity.signer, count) && AwaitsStore(c) && Unexhausted(count, c)
    ensures !SearchReachedObservation(c.persistence.pending.value)
  {
    var e := o.tentative.value;
    assert PendingIs(o, c) && Writable(chain, o, e);
    NeverReached(chain, count, e.journal);
  }

  lemma SavedUnexhausted(chain: Chain, count: Hash -> nat, o: Outside, c: State)
    requires DiskInv(chain, o) && PersistInv(o, c) && NonceRule(chain, o.identity.signer, count) && Unexhausted(count, c)
    requires AwaitsStore(c) && c.pendingWrite.Some?
    ensures Unexhausted(count, SaveCommitted(c))
  {
    hide DiskInv;
    hide PersistInv;
    hide NonceRule;
    hide SearchReachedObservation;
    hide SaveCommitted;
    hide AccurateJournal;
    PendingReachedNothing(chain, count, o, c);
    CommitLatchesNothing(c);
    SavedSources(c);
  }

  lemma OutwardAccurate(chain: Chain, count: Hash -> nat, o: Outside, c: State, e: Event)
    requires DiskInv(chain, o) && PersistInv(o, c) && NonceRule(chain, o.identity.signer, count)
    requires AccurateWorld(count, World(o, Some(c))) && Possible(chain, c, e) && AccurateReply(count, e)
    ensures AccurateWorld(count, Outward(o, c, e))
  {
    hide DiskInv;
    hide PersistInv;
    hide Possible;
    hide NonceRule;
    hide AccurateJournal;
    hide SaveCommitted;
    hide BroadcastAttempt;
    hide Local;
    hide NextSend;
    match e {
      case VerificationPassed =>
      case FileRenamed =>
      case StoreSaved => if AwaitsStore(c) && c.pendingWrite.Some? { SavedUnexhausted(chain, count, o, c); }
      case Broadcast(id) => BroadcastUnexhausted(count, c, id);
      case _ => LocalUnexhausted(chain, count, o, c, e);
    }
  }

  /** A new process finds nothing reached in the journal it opens. */
  lemma BootAccurate(chain: Chain, count: Hash -> nat, o: Outside, capacity: nat)
    requires DiskInv(chain, o) && NonceRule(chain, o.identity.signer, count) && AccurateDisk(count, o)
    ensures AccurateWorld(count, World(Adopt(o), Some(Create(o.identity, capacity, o.visible))))
  {
    hide SearchReachedObservation;
    hide AccurateJournal;
    hide DiskInv;
    hide NonceRule;
    hide Unattributed;
    hide DurableRecoveryRevision;
    if o.visible.Some? { VisibleReachedNothing(chain, count, o); }
  }

  lemma VisibleReachedNothing(chain: Chain, count: Hash -> nat, o: Outside)
    requires DiskInv(chain, o) && NonceRule(chain, o.identity.signer, count) && AccurateDisk(count, o) && o.visible.Some?
    ensures AccurateJournal(count, o.visible.value) && !SearchReachedObservation(o.visible.value)
  {
    assert InSurviving(o, o.visible);
    if o.visible == LastOf(o.history) {
      LastIsSound(o.history);
    } else {
      assert Writable(chain, o, o.tentative.value);
    }
    NeverReached(chain, count, o.visible.value);
  }

  lemma RepairAccurate(chain: Chain, count: Hash -> nat, o: Outside, e: Event)
    requires DiskInv(chain, o) && AccurateDisk(count, o) && e.RepairOffline? && AccurateReply(count, e)
    ensures AccurateDisk(count, SyncOffline(o, e))
  {
    assert InSurviving(o, o.visible);
    hide DiskInv;
    hide ValidObservation;
  }

  lemma StepAccurate(chain: Chain, count: Hash -> nat, w: World, e: Event)
    requires Inv(chain, w) && NonceRule(chain, w.out.identity.signer, count) && AccurateWorld(count, w) && AccurateReply(count, e)
    ensures AccurateWorld(count, Step(chain, w, e))
  {
    hide DiskInv;
    hide SendsInv;
    hide PersistInv;
    hide FactsInv;
    hide TaskInv;
    hide NonceRule;
    hide Unexhausted;
    hide AccurateDisk;
    hide AccurateReply;
    hide Outward;
    hide SyncOffline;
    hide Adopt;
    hide Create;
    match e {
      case Boot(capacity) => if w.proc.None? && capacity > 0 { BootAccurate(chain, count, w.out, capacity); }
      case ProcessExit =>
      case PowerLoss(left) => SameDisk(count, w.out, left);
      case RepairOffline(_, _, _, _, _, _) => if w.proc.None? { RepairAccurate(chain, count, w.out, e); }
      case _ => if w.proc.Some? && Possible(chain, w.proc.value, e) { OutwardAccurate(chain, count, w.out, w.proc.value, e); }
    }
  }

  lemma SameDisk(count: Hash -> nat, o: Outside, left: Option<Snapshot>)
    ensures AccurateDisk(count, o.(visible := left, surviving := {left})) == AccurateDisk(count, o)
  {
  }

  /** In every run whose counts are all true no search is ever latched as exhausted. */
  lemma {:induction false} TruthfulRunsNeverExhaust(chain: Chain, count: Hash -> nat, identity: Identity, events: seq<Event>)
    requires ValidIdentity(identity) && NonceRule(chain, identity.signer, count)
    requires forall k :: 0 <= k < |events| ==> AccurateReply(count, events[k])
    ensures var w := Run(chain, Initial(identity), events);
      && AccurateWorld(count, w) && Inv(chain, w) && w.out.identity == identity
      && (w.proc.Some? ==> SearchExhausted !in w.proc.value.latched)
  {
    hide Step;
    hide AccurateReply;
    hide NonceRule;
    if events == [] {
      RunKeeps(chain, Initial(identity), events);
    } else {
      var before := events[..|events| - 1];
      TruthfulRunsNeverExhaust(chain, count, identity, before);
      var w, e := Run(chain, Initial(identity), before), events[|events| - 1];
      StepAccurate(chain, count, w, e);
      RunKeeps(chain, Initial(identity), events);
      SameIdentity(chain, w, e);
    }
  }

  lemma SameIdentity(chain: Chain, w: World, e: Event)
    ensures Step(chain, w, e).out.identity == w.out.identity
  {
    hide Local;
    hide Possible;
    hide PlanNonceSync;
    hide SaveCommitted;
    hide BroadcastAttempt;
    hide NextSend;
  }
}
