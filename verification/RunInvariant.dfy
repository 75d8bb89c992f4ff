/** What holds in every reachable state, and the proof that every event keeps it. */
module RunInvariant {
  import opened Journal
  import opened JournalHistory
  import opened JournalStore
  import opened Blocks
  import opened ReplacementSearch
  import opened Receipts
  import opened Inspections
  import opened SignerGate
  import opened Transitions
  import opened NonceSync
  import opened CoordinatorState
  import opened World

  // The disk

  predicate InSurviving(o: Outside, left: Option<Snapshot>) {
    left == LastOf(o.history) || (o.tentative.Some? && left == Some(o.tentative.value.journal))
  }

  /** An entry that may be written next, whose searches tell the truth. */
  ghost predicate Writable(chain: Chain, o: Outside, e: Entry) {
    Extends(o.history, e) && e.journal.identity == o.identity && Truthful(chain, e.journal)
  }

  ghost predicate DiskInv(chain: Chain, o: Outside) {
    && ValidIdentity(o.identity)
    && History(o.history)
    && (forall i :: 0 <= i < |o.history| ==> Truthful(chain, o.history[i].journal) && o.history[i].journal.identity == o.identity)
    && o.visible in o.surviving
    && (forall left :: left in o.surviving ==> InSurviving(o, left))
    && (o.tentative.Some? ==> Writable(chain, o, o.tentative.value))
  }

  // The sends

  ghost predicate SentFrom(h: seq<Entry>, s: Send) {
    && s.at < |h| && Retains(h[s.at].journal, s.nonce)
    && SentAttempt(At(h[s.at].journal, s.nonce), s)
    && h[s.at].journal.lastObservation.nonce == s.nonce
    && forall n :: h[s.at].journal.durableNextNonce <= n < s.nonce ==> At(h[s.at].journal, n).phase.Included?
  }

  predicate SentAttempt(a: Attempt, s: Send) {
    a.id == s.id && a.phase == MayBeBroadcast && |a.txs| > 0 && a.txs[|a.txs| - 1].raw == s.raw
  }

  ghost predicate SendsInv(o: Outside) {
    && (forall i :: 0 <= i < |o.sends| ==> SentFrom(o.history, o.sends[i]) && o.sends[i].passes <= o.passes)
    && (forall i, j :: 0 <= i < j < |o.sends| ==> o.sends[i].passes < o.sends[j].passes && o.sends[i].at <= o.sends[j].at)
  }

  predicate AllSendsBefore(o: Outside, passes: nat) {
    forall i :: 0 <= i < |o.sends| ==> o.sends[i].passes < passes
  }

  // The process

  ghost predicate PersistInv(o: Outside, c: State) {
    && c.identity == o.identity
    && c.persistence.current == LastOf(o.history)
    && (c.pendingWrite.None? <==> c.persistence.state.Idle?)
    && (c.persistence.pending.None? ==> o.tentative.None? && o.visible == LastOf(o.history) && o.surviving == {o.visible})
    && (c.persistence.pending.Some? ==> PendingIs(o, c))
    && (c.persistence.state.Broken? ==> c.persistence.pending.Some?)
  }

  predicate PendingIs(o: Outside, c: State) {
    && c.persistence.pending.Some? && o.tentative.Some? && c.persistence.pending == Some(o.tentative.value.journal)
    && c.pendingWrite.Some? && o.tentative.value.write == WriteOf(c.pendingWrite.value)
  }

  predicate CheckedFacts(s: Snapshot) {
    AllIncluded(s.attempts) && s.lastObservation.nonce >= s.nextNonce
  }

  predicate SendableFacts(s: Snapshot, id: Uuid) {
    var k := OldestUnresolved(s.attempts);
    k < |s.attempts| && s.attempts[k].id == id && s.attempts[k].nonce == s.lastObservation.nonce
  }

  predicate ActivityLatched(c: State) {
    && c.latched <= {UnattributedActivity, SearchExhausted}
    && (UnattributedActivity in c.latched <==> c.persistence.current.Some? && Unattributed(c.persistence.current.value))
    && (c.persistence.current.None? ==> c.latched == {})
  }

  predicate RecoveredFacts(o: Outside, c: State) {
    && c.persistence.current.Some? && AllSendsBefore(o, o.passes)
    && c.revision == DurableRecoveryRevision(c.persistence.current, c.latched)
  }

  predicate PermitFacts(c: State) {
    && c.recoveryComplete && c.latched == {} && c.WriteIdle() && c.persistence.current.Some?
    && (c.task.Resting? || c.task.Queued? || c.task.OpeningHead?)
    && c.permit.Some? && SendableFacts(c.persistence.current.value, c.permit.value)
  }

  ghost predicate FactsInv(o: Outside, c: State) {
    && c.capacity > 0
    && ActivityLatched(c)
    && (c.inclusionChecksComplete ==>
          c.persistence.state.Idle? && c.persistence.current.Some? && CheckedFacts(c.persistence.current.value))
    && (c.recoveryComplete ==> RecoveredFacts(o, c))
    && (c.permit.Some? ==> PermitFacts(c))
    && (c.owner.Some? ==> c.owner.value.generation == c.generation)
    && (c.owner.Some? && Untrusted(c.owner.value) ==> c.permit.None? && !c.inclusionChecksComplete)
  }

  /** An inspection that did no work yet, or whose head bracket failed. */
  predicate Untrusted(owner: Owner) { !owner.hasRun || owner.bracket.FailedBracket? }

  predicate Matching(kind: PendingWrite, k: Continuation) {
    match k
    case AfterBootstrap => kind.PBootstrap?
    case AfterRecovery(_) => kind.PResolution? || kind.PObservation? || kind.PSearchProgress?
    case AfterInclusions(_) => kind.PObservation?
    case AfterPrepare(_, _) => kind.PPrepared?
    case AfterMark(_) => kind.PBroadcast?
  }

  /** What the suspended operation remembers about the committed journal. */
  predicate Remembers(o: Outside, c: State, next: Snapshot, kind: PendingWrite, k: Continuation) {
    match k
    case AfterBootstrap => c.persistence.current.None? && c.latched == {} && !c.recoveryComplete
    case AfterRecovery(r) =>
      && c.persistence.current.Some? && !c.recoveryComplete
      && PlanRecovery(c.persistence.current.value, c.latched, r) == Store(next, kind)
    case AfterInclusions(r) =>
      && c.persistence.current.Some? && r.Inspected? && (r.complete ==> CheckedFacts(next))
    case AfterPrepare(id, checkedBefore) =>
      && c.persistence.current.Some? && c.recoveryComplete && c.latched == {}
      && (checkedBefore ==> CheckedFacts(c.persistence.current.value))
      && SendableFacts(next, id)
    case AfterMark(id) =>
      && c.persistence.current.Some? && !c.recoveryComplete && c.latched == {} && AllSendsBefore(o, o.passes)
      && SendableFacts(next, id) && next.attempts[OldestUnresolved(next.attempts)].phase == MayBeBroadcast
  }

  predicate ActiveOwner(c: State) { c.owner.Some? && c.owner.value.active }

  predicate WorkingOwner(c: State) { ActiveOwner(c) && !Untrusted(c.owner.value) }

  ghost predicate SavingInv(chain: Chain, o: Outside, c: State, next: Snapshot, k: Continuation) {
    && c.persistence.state.Writing? && c.pendingWrite.Some? && !c.inclusionChecksComplete
    && (if k.AfterPrepare? || k.AfterMark? then c.owner.None? else WorkingOwner(c))
    && (Valid(next) ==> Writable(chain, o, Entry(WriteOf(c.pendingWrite.value), next)))
    && (!Valid(next) ==> k.AfterBootstrap? && !ValidAnchor(next.baseline.anchor) && next.attempts == [])
    && Matching(c.pendingWrite.value, k) && Remembers(o, c, next, c.pendingWrite.value, k)
    && (c.persistence.pending.Some? ==> c.persistence.pending.value == next)
  }

  ghost predicate TaskInv(chain: Chain, o: Outside, c: State) {
    var idle := c.persistence.state.Idle?;
    c.busy == !(c.task.Resting? || c.task.Queued? || c.task.OpeningHead?) &&
    match c.task
    case Resting => !c.persistence.state.Writing? && !ActiveOwner(c)
    case Queued(_) => !c.persistence.state.Writing? && ActiveOwner(c)
    case OpeningHead(_) => !c.persistence.state.Writing? && ActiveOwner(c)
    case Bootstrapping(_) =>
      idle && WorkingOwner(c) && c.persistence.current.None? && !c.recoveryComplete && !c.inclusionChecksComplete
    case Recovering(_, _) =>
      idle && WorkingOwner(c) && c.persistence.current.Some? && !c.recoveryComplete && !c.inclusionChecksComplete
    case Inspecting(_) => idle && WorkingOwner(c) && c.persistence.current.Some? && !c.inclusionChecksComplete
    case Signing(workId) =>
      && idle && c.owner.None? && c.persistence.current.Some? && c.recoveryComplete && c.latched == {}
      && c.inclusionChecksComplete && !UsesWork(c.persistence.current.value.attempts, workId)
    case Saving(next, k) => SavingInv(chain, o, c, next, k)
    case Retrying => c.persistence.state.Writing? && c.owner.None? && c.persistence.pending.Some? && !c.inclusionChecksComplete
    case Sending(id) =>
      && idle && c.owner.None? && !c.recoveryComplete && !c.inclusionChecksComplete
      && c.persistence.current.Some? && SendableFacts(c.persistence.current.value, id)
  }

  ghost predicate ProcInv(chain: Chain, o: Outside, c: State) {
    PersistInv(o, c) && FactsInv(o, c) && TaskInv(chain, o, c)
  }

  ghost predicate Inv(chain: Chain, w: World) {
    && DiskInv(chain, w.out) && SendsInv(w.out)
    && (w.proc.Some? ==> ProcInv(chain, w.out, w.proc.value))
  }

  // Events inside the process

  lemma BeginKeeps(chain: Chain, o: Outside, c: State)
    requires ProcInv(chain, o, c)
    ensures ProcInv(chain, o, BeginInspection(c))
  {
  }

  lemma CallKeeps(chain: Chain, o: Outside, c: State, g: nat, request: Request)
    requires ProcInv(chain, o, c)
    ensures ProcInv(chain, o, CallOperation(c, g, request))
  {
  }

  lemma HeadKeeps(chain: Chain, o: Outside, c: State, check: AnchorCheck)
    requires ProcInv(chain, o, c)
    ensures ProcInv(chain, o, HeadOpened(c, check))
  {
  }

  lemma FinishKeeps(chain: Chain, o: Outside, c: State, g: nat)
    requires ProcInv(chain, o, c)
    ensures ProcInv(chain, o, FinishInspection(c, g))
  {
  }

  lemma AbandonKeeps(chain: Chain, o: Outside, c: State, g: nat)
    requires ProcInv(chain, o, c)
    ensures ProcInv(chain, o, AbandonInspection(c, g))
  {
  }

  lemma SettlementKeeps(chain: Chain, o: Outside, c: State)
    requires ProcInv(chain, o, c)
    ensures ProcInv(chain, o, CompleteAbandonment(c))
  {
  }

  /** Any operation may end in a state whose write is not running. */
  lemma Settles(chain: Chain, o: Outside, c: State, threw: bool)
    requires PersistInv(o, c) && FactsInv(o, c.(task := Resting)) && !c.persistence.state.Writing?
    ensures ProcInv(chain, o, Settle(c, threw))
  {
  }

  lemma StartKeeps(chain: Chain, o: Outside, c: State)
    requires ProcInv(chain, o, c)
    ensures ProcInv(chain, o, StartOperation(c))
  {
    if c.task.Queued? && c.owner.Some? {
      Settles(chain, o, c, true);
      if c.WorkAllowed(c.owner.value.generation) {
        match c.task.request
        case OpenHead(_) => if !c.owner.value.hasRun { Settles(chain, o, WithBracket(c, FailedBracket), true); }
        case Recover(_, _) => StartRecoveryKeeps(chain, o, c);
        case CheckInclusions(_, _) => StartInclusionsKeeps(chain, o, c);
      }
    }
  }

  lemma StartRecoveryKeeps(chain: Chain, o: Outside, c: State)
    requires ProcInv(chain, o, c) && c.task.Queued? && c.task.request.Recover?
    requires c.owner.Some? && c.WorkAllowed(c.owner.value.generation)
    ensures ProcInv(chain, o, StartOperation(c))
  {
    var ran := c.(owner := Some(c.owner.value.(hasRun := true)));
    Settles(chain, o, ran, true);
    Settles(chain, o, ran.(permit := None, busy := true, recoveryComplete := false, inclusionChecksComplete := false), true);
  }

  lemma StartInclusionsKeeps(chain: Chain, o: Outside, c: State)
    requires ProcInv(chain, o, c) && c.task.Queued? && c.task.request.CheckInclusions?
    requires c.owner.Some? && c.WorkAllowed(c.owner.value.generation)
    ensures ProcInv(chain, o, StartOperation(c))
  {
    var ran := c.(owner := Some(c.owner.value.(hasRun := true)));
    Settles(chain, o, ran, true);
    Settles(chain, o, ran.(permit := None, inclusionChecksComplete := false, busy := true), true);
  }

  lemma RejectionKeeps(chain: Chain, o: Outside, c: State)
    requires ProcInv(chain, o, c)
    ensures ProcInv(chain, o, SaveRejected(c))
  {
    hide Valid;
    hide Writable;
    hide SendableFacts;
    hide CheckedFacts;
    hide PlanRecovery;
  }

  lemma FailureKeeps(chain: Chain, o: Outside, c: State)
    requires ProcInv(chain, o, c)
    ensures ProcInv(chain, o, SaveFailed(c))
  {
    if AwaitsStore(c) {
      var broken := c.(persistence := c.persistence.(state := Broken));
      assert PersistInv(o, broken);
      Settles(chain, o, broken, true);
      Settles(chain, o, broken.(recoveryComplete := false), true);
      Settles(chain, o, broken.(recoveryComplete := false, inclusionChecksComplete := false), true);
    }
  }

  lemma RetryKeeps(chain: Chain, o: Outside, c: State)
    requires ProcInv(chain, o, c)
    ensures ProcInv(chain, o, RetryPersistence(c))
  {
  }

  lemma SettledKeeps(chain: Chain, o: Outside, c: State)
    requires ProcInv(chain, o, c)
    ensures ProcInv(chain, o, SigningFailed(c)) && ProcInv(chain, o, SendSettled(c))
  {
  }

  /** A save may start for a plan the history admits, remembered by its operation. */
  lemma SaveKeeps(chain: Chain, o: Outside, c: State, next: Snapshot, kind: PendingWrite, k: Continuation)
    requires PersistInv(o, c) && FactsInv(o, c) && c.WriteIdle() && c.busy && !c.inclusionChecksComplete && c.permit.None?
    requires if k.AfterPrepare? || k.AfterMark? then c.owner.None? else WorkingOwner(c)
    requires Valid(next) ==> Writable(chain, o, Entry(WriteOf(kind), next))
    requires !Valid(next) ==> k.AfterBootstrap? && !ValidAnchor(next.baseline.anchor) && next.attempts == []
    requires Matching(kind, k) && Remembers(o, c, next, kind, k)
    ensures ProcInv(chain, o, StartSave(c, next, kind, k))
  {
    hide Writable;
    hide Valid;
    hide PlanRecovery;
    hide SendableFacts;
    hide CheckedFacts;
  }

  lemma BootstrapKeeps(chain: Chain, o: Outside, c: State, r: BootstrapRead)
    requires DiskInv(chain, o) && ProcInv(chain, o, c) && Possible(chain, c, BootstrapReply(r))
    ensures ProcInv(chain, o, BootstrapObserved(c, r))
  {
  }

  lemma RecoveryKeeps(chain: Chain, o: Outside, c: State, r: RecoveryInspection)
    requires DiskInv(chain, o) && ProcInv(chain, o, c) && Possible(chain, c, RecoveryReply(r))
    ensures ProcInv(chain, o, RecoveryRead(c, r))
  {
    RecoveryWritable(chain, o, c, r);
    var plan := PlanRecovery(c.persistence.current.value, c.latched, r);
    hide PlanRecovery;
    hide DiskInv;
    hide Possible;
    if plan.Store? && Valid(plan.next) {
      SaveKeeps(chain, o, c, plan.next, plan.kind, AfterRecovery(r));
    } else {
      Settles(chain, o, c, false);
      Settles(chain, o, c, true);
    }
    if r.RecoveryThrew? { Settles(chain, o, c.(recoveryComplete := false), true); }
  }

  lemma RecoveryWritable(chain: Chain, o: Outside, c: State, r: RecoveryInspection)
    requires DiskInv(chain, o) && PersistInv(o, c) && ActivityLatched(c) && Possible(chain, c, RecoveryReply(r))
    ensures var plan := PlanRecovery(c.persistence.current.value, c.latched, r);
      plan.Store? ==> Matching(plan.kind, AfterRecovery(r)) && (Valid(plan.next) ==> Writable(chain, o, Entry(WriteOf(plan.kind), plan.next)))
  {
    var s := c.persistence.current.value;
    LastIsSound(o.history);
    RecoveryFollows(chain, s, c.latched, c.task.anchor, c.task.range, r);
    if PlanRecovery(s, c.latched, r).Store? {
      RecoveryStaysTruthful(chain, s, c.latched, c.task.anchor, c.task.range, r);
    }
    hide RecoveryAnswers;
    hide Changes;
  }

  lemma LastIsSound(h: seq<Entry>)
    requires History(h) && h != []
    ensures Sound(h[|h| - 1].journal)
  {
    HistoryStep(h, |h| - 1);
  }

  lemma InclusionsKeep(chain: Chain, o: Outside, c: State, r: InclusionInspection, closing: AnchorCheck)
    requires DiskInv(chain, o) && ProcInv(chain, o, c) && Possible(chain, c, InclusionsReply(r, closing))
    ensures ProcInv(chain, o, InclusionsRead(c, r, closing))
  {
    if r.Inspected? {
      InspectedKeeps(chain, o, c, r, closing);
    } else {
      hide DiskInv;
      hide Possible;
      if r.InclusionThrew? { Settles(chain, o, c, true); }
      else if r.HeadChanged? { Settles(chain, o, FailBracket(c), false); }
      else { Settles(chain, o, FailBracket(c).(recoveryComplete := false), false); }
    }
  }

  lemma InspectedKeeps(chain: Chain, o: Outside, c: State, r: InclusionInspection, closing: AnchorCheck)
    requires DiskInv(chain, o) && ProcInv(chain, o, c) && Possible(chain, c, InclusionsReply(r, closing)) && r.Inspected?
    ensures ProcInv(chain, o, InclusionsRead(c, r, closing))
  {
    InclusionsWritable(chain, o, c, r);
    var next := PlanInclusions(c.persistence.current.value, c.latched, r);
    hide DiskInv;
    hide Possible;
    hide PlanInclusions;
    hide Writable;
    if BracketOpen(c) && closing.Changed? { Settles(chain, o, FailBracket(c), false); }
    else if (BracketOpen(c) && closing.Unreadable?) || !Valid(next) { Settles(chain, o, c, true); }
    else { SaveKeeps(chain, o, c, next, PObservation, AfterInclusions(r)); }
  }

  lemma InclusionsWritable(chain: Chain, o: Outside, c: State, r: InclusionInspection)
    requires DiskInv(chain, o) && PersistInv(o, c) && ActivityLatched(c) && r.Inspected?
    requires c.persistence.current.Some? && c.task.Inspecting?
    requires InclusionAnswers(chain, c.persistence.current.value, c.task.head, r)
    ensures var next := PlanInclusions(c.persistence.current.value, c.latched, r);
      Writable(chain, o, Entry(Observed, next)) && (r.complete ==> CheckedFacts(next))
  {
    var s := c.persistence.current.value;
    LastIsSound(o.history);
    InclusionsFollow(chain, s, c.latched, c.task.head, r);
    InclusionsStayTruthful(chain, s, c.latched, c.task.head, r);
    if r.complete { CompleteSweepCounts(chain, s, c.task.head, r); }
  }

  lemma PrepareKeeps(chain: Chain, o: Outside, c: State, workId: WorkId)
    requires ProcInv(chain, o, c)
    ensures ProcInv(chain, o, PrepareAttempt(c, workId))
  {
    GateMeaning(c.persistence.state, c.persistence.current, c.recoveryComplete, c.inclusionChecksComplete, c.capacity, c.latched);
  }

  lemma SignKeeps(chain: Chain, o: Outside, c: State, id: Uuid, createdAt: Timestamp, tx: SignedTx)
    requires DiskInv(chain, o) && ProcInv(chain, o, c)
    ensures ProcInv(chain, o, AttemptSigned(c, id, createdAt, tx))
  {
    if c.task.Signing? && c.persistence.current.value.nextNonce <= MAX_SAFE_INTEGER {
      var s := c.persistence.current.value;
      LastIsSound(o.history);
      PrepareFollows(s, id, c.task.workId, createdAt, tx);
      var next := PlanPrepare(s, id, c.task.workId, createdAt, tx);
      if Valid(next) {
        NewestIsOldestUnresolved(s.attempts, next.attempts[|s.attempts|]);
        PreparedStaysTruthful(chain, s, next);
      }
    }
  }

  lemma PreparedStaysTruthful(chain: Chain, s: Snapshot, next: Snapshot)
    requires Truthful(chain, s) && PreparedFrom(s, next)
    ensures Truthful(chain, next)
  {
    forall k | 0 <= k < |next.attempts| ensures TruthfulAttempt(chain, next.identity.signer, next.attempts[k]) {
      if k < |s.attempts| { assert TruthfulAttempt(chain, s.identity.signer, s.attempts[k]); }
    }
  }

  lemma {:induction false} NewestIsOldestUnresolved(attempts: seq<Attempt>, a: Attempt)
    requires AllIncluded(attempts) && !a.phase.Included?
    ensures OldestUnresolved(attempts + [a]) == |attempts|
  {
    var all := attempts + [a];
    assert all[|attempts|] == a;
    forall i | 0 <= i < |attempts| ensures all[i].phase.Included? {
      assert all[i] == attempts[i];
    }
  }

  // Events that reach the disk or the network

  lemma SurvivesAppend(h: seq<Entry>, e: Entry, s: Send)
    requires SentFrom(h, s)
    ensures SentFrom(h + [e], s)
  {
    assert (h + [e])[s.at] == h[s.at];
  }

  lemma CommitKeepsDisk(chain: Chain, o: Outside)
    requires DiskInv(chain, o) && SendsInv(o) && o.tentative.Some?
    ensures DiskInv(chain, Commit(o)) && SendsInv(Commit(o))
  {
    HistoryGrows(o.history, o.tentative.value);
    forall i | 0 <= i < |o.sends| ensures SentFrom(Commit(o).history, o.sends[i]) {
      SurvivesAppend(o.history, o.tentative.value, o.sends[i]);
    }
  }

  lemma AdoptKeepsDisk(chain: Chain, o: Outside)
    requires DiskInv(chain, o) && SendsInv(o)
    ensures DiskInv(chain, Adopt(o)) && SendsInv(Adopt(o)) && Adopt(o).visible == o.visible
    ensures o.visible == LastOf(Adopt(o).history)
  {
    if o.tentative.Some? { CommitKeepsDisk(chain, o); }
  }

  lemma BootKeeps(chain: Chain, o: Outside, capacity: nat)
    requires DiskInv(chain, o) && SendsInv(o) && capacity > 0
    ensures Inv(chain, World(Adopt(o), Some(Create(o.identity, capacity, o.visible))))
  {
    AdoptKeepsDisk(chain, o);
  }

  lemma WriteKeepsDisk(chain: Chain, o: Outside, e: Entry)
    requires DiskInv(chain, o) && SendsInv(o) && o.visible == LastOf(o.history) && o.tentative.None?
    requires Writable(chain, o, e)
    ensures var planned := o.(tentative := Some(e));
      && DiskInv(chain, planned.(visible := Some(e.journal), surviving := o.surviving + {Some(e.journal)})) && SendsInv(planned)
      && DiskInv(chain, Commit(planned)) && SendsInv(Commit(planned))
  {
    CommitKeepsDisk(chain, o.(tentative := Some(e)));
  }

  lemma RepairWritable(chain: Chain, o: Outside, e: Event)
    requires DiskInv(chain, o) && SendsInv(o) && o.tentative.None? && o.visible == LastOf(o.history) && o.visible.Some?
    requires e.RepairOffline? && ValidObservation(e.observation)
    ensures var plan := PlanNonceSync(o.visible.value, e.observation, e.latest, e.pending, e.at);
      plan.RepairAvailable? ==> Writable(chain, o, Entry(Repaired, plan.next))
  {
    hide SendsInv;
    var plan := PlanNonceSync(o.visible.value, e.observation, e.latest, e.pending, e.at);
    if plan.RepairAvailable? {
      LastIsSound(o.history);
      RepairFollows(o.visible.value, e.observation, e.latest, e.pending, e.at);
      hide Valid;
      hide Changes;
      hide History;
    }
  }

  lemma AdoptedRest(o: Outside)
    ensures Adopt(o).tentative.None? && Adopt(o).visible == o.visible
  {
  }

  lemma RepairKeeps(chain: Chain, o: Outside, e: Event)
    requires DiskInv(chain, o) && SendsInv(o) && e.RepairOffline?
    ensures DiskInv(chain, SyncOffline(o, e)) && SendsInv(SyncOffline(o, e))
  {
    hide DiskInv;
    hide SendsInv;
    hide Adopt;
    hide PlanNonceSync;
    hide Writable;
    hide Commit;
    if o.visible.Some? && ValidObservation(e.observation) {
      AdoptKeepsDisk(chain, o);
      AdoptedRest(o);
      RepairWritable(chain, Adopt(o), e);
      var plan := PlanNonceSync(o.visible.value, e.observation, e.latest, e.pending, e.at);
      if plan.RepairAvailable? {
        WriteKeepsDisk(chain, Adopt(o), Entry(Repaired, plan.next));
        RepairOutcomes(chain, Adopt(o), plan.next);
      }
    }
  }

  /** The two ways a repair's save can leave the disk, in the words of SyncOffline. */
  lemma RepairOutcomes(chain: Chain, o: Outside, next: Snapshot)
    requires var planned := o.(tentative := Some(Entry(Repaired, next)));
      && DiskInv(chain, planned.(visible := Some(next), surviving := o.surviving + {Some(next)})) && SendsInv(planned)
      && DiskInv(chain, Commit(planned)) && SendsInv(Commit(planned))
    requires o.tentative.None?
    ensures var saved := o.(history := o.history + [Entry(Repaired, next)], visible := Some(next), surviving := {Some(next)});
      DiskInv(chain, saved) && SendsInv(saved)
    ensures var renamed := o.(tentative := Some(Entry(Repaired, next)), visible := Some(next), surviving := o.surviving + {Some(next)});
      DiskInv(chain, renamed) && SendsInv(renamed)
  {
    hide DiskInv;
    assert Commit(o.(tentative := Some(Entry(Repaired, next))))
      == o.(history := o.history + [Entry(Repaired, next)], visible := Some(next), surviving := {Some(next)});
  }

  lemma VerificationKeeps(chain: Chain, o: Outside, c: State)
    requires DiskInv(chain, o) && SendsInv(o) && ProcInv(chain, o, c) && AwaitsVerification(c)
    requires Possible(chain, c, VerificationPassed)
    ensures Inv(chain, Outward(o, c, VerificationPassed))
  {
  }

  lemma RenameKeeps(chain: Chain, o: Outside, c: State)
    requires DiskInv(chain, o) && SendsInv(o) && ProcInv(chain, o, c)
    ensures Inv(chain, Outward(o, c, FileRenamed))
  {
    hide Valid;
    hide SentFrom;
    hide Truthful;
    hide Extends;
  }

  /** The acknowledged state before its latches are recomputed. */
  function Stored(c: State, s: Snapshot): State { c.(persistence := Persistence(Idle, Some(s), None)) }

  lemma NextActivity(h: seq<Entry>, kind: PendingWrite, s: Snapshot)
    requires Extends(h, Entry(WriteOf(kind), s))
    ensures h != [] && Unattributed(h[|h| - 1].journal) ==> Unattributed(s)
    ensures h == [] ==> !Unattributed(s)
  {
    if h != [] && Unattributed(h[|h| - 1].journal) {
      ActivityStep(h[|h| - 1].journal, Entry(WriteOf(kind), s));
    }
  }

  /** Acknowledging a write latches unattributed activity exactly when the stored
      journal shows it. */
  lemma LatchesMatch(o: Outside, c: State, s: Snapshot)
    requires PersistInv(o, c) && ActivityLatched(c) && c.pendingWrite.Some?
    requires Extends(o.history, Entry(WriteOf(c.pendingWrite.value), s))
    ensures ActivityLatched(FinishWrite(Stored(c, s)))
  {
    NextActivity(o.history, c.pendingWrite.value, s);
    hide Extends;
    hide DurableRecoveryRevision;
    hide SearchReachedObservation;
  }

  lemma FinishedKeeps(chain: Chain, o: Outside, c: State, recovered: bool, rechecked: bool, passes: nat)
    requires DiskInv(chain, o) && ProcInv(chain, o, c) && AwaitsStore(c)
    requires o.tentative.Some? && passes >= o.passes
    requires recovered ==> AllSendsBefore(o, passes)
    requires rechecked ==> CheckedFacts(o.tentative.value.journal) && (c.owner.Some? ==> !Untrusted(c.owner.value))
    ensures var done := FinishWrite(Stored(c, o.tentative.value.journal).(recoveryComplete := recovered, inclusionChecksComplete := rechecked));
      ProcInv(chain, Commit(o).(passes := passes), Settle(done, false))
  {
    var s := o.tentative.value.journal;
    var c' := c.(recoveryComplete := recovered, inclusionChecksComplete := rechecked);
    LatchesMatch(o, c', s);
    assert c.permit.None?;
    var o', done := Commit(o).(passes := passes), FinishWrite(Stored(c', s));
    FinishedFacts(o', c', s);
    hide *;
    Settles(chain, o', done, false);
  }

  lemma FinishedFacts(o: Outside, c: State, s: Snapshot)
    requires c.pendingWrite.Some? && c.permit.None? && c.capacity > 0 && c.identity == o.identity
    requires c.owner.Some? ==> c.owner.value.generation == c.generation
    requires c.owner.Some? && Untrusted(c.owner.value) ==> !c.inclusionChecksComplete
    requires ActivityLatched(FinishWrite(Stored(c, s)))
    requires LastOf(o.history) == Some(s) == o.visible && o.surviving == {o.visible} && o.tentative.None?
    requires c.recoveryComplete ==> AllSendsBefore(o, o.passes)
    requires c.inclusionChecksComplete ==> CheckedFacts(s)
    ensures var done := FinishWrite(Stored(c, s));
      PersistInv(o, done) && FactsInv(o, done.(task := Resting)) && !done.persistence.state.Writing?
  {
    hide ActivityLatched;
    hide SearchReachedObservation;
    hide DurableRecoveryRevision;
    var done := FinishWrite(Stored(c, s));
    assert ActivityLatched(done.(task := Resting)) by { SameLatches(done, done.(task := Resting)); }
  }

  lemma SameLatches(c: State, c': State)
    requires ActivityLatched(c) && c'.latched == c.latched && c'.persistence == c.persistence
    ensures ActivityLatched(c')
  {
  }

  /** A permit may be granted in a settled state that offers exactly that attempt. */
  lemma Grants(chain: Chain, o: Outside, c: State, id: Uuid)
    requires ProcInv(chain, o, c) && c.task.Resting? && c.recoveryComplete && c.latched == {} && c.WriteIdle()
    requires c.persistence.current.Some? && SendableFacts(c.persistence.current.value, id)
    requires c.owner.Some? ==> !Untrusted(c.owner.value)
    ensures ProcInv(chain, o, c.(permit := Some(id)))
  {
  }

  lemma RecoveryOffers(s: Snapshot, latched: set<Blocker>, r: RecoveryInspection)
    requires PlanRecovery(s, latched, r).Store? && RecoveryPermits(s, r)
    requires LatchedAfter(latched, PlanRecovery(s, latched, r).kind) == {}
    ensures SendableFacts(PlanRecovery(s, latched, r).next, s.attempts[0].id)
  {
  }

  lemma RetriedKeeps(chain: Chain, o: Outside, c: State)
    requires DiskInv(chain, o) && SendsInv(o) && ProcInv(chain, o, c) && AwaitsStore(c) && c.task.Retrying?
    ensures ProcInv(chain, Acknowledge(o, c).out, SaveCommitted(c))
  {
    FinishedKeeps(chain, o, c, c.recoveryComplete, c.inclusionChecksComplete, o.passes);
  }

  lemma BootstrappedKeeps(chain: Chain, o: Outside, c: State)
    requires DiskInv(chain, o) && SendsInv(o) && ProcInv(chain, o, c) && AwaitsStore(c)
    requires c.task.Saving? && c.task.continuation.AfterBootstrap?
    ensures ProcInv(chain, Acknowledge(o, c).out, SaveCommitted(c))
  {
    FinishedKeeps(chain, o, c, true, c.inclusionChecksComplete, o.passes + 1);
  }

  lemma RecoveredOffers(chain: Chain, o: Outside, c: State)
    requires ProcInv(chain, o, c) && AwaitsStore(c) && c.task.Saving? && c.task.continuation.AfterRecovery?
    requires FinishWrite(Stored(c, c.persistence.pending.value)).latched == {}
    requires RecoveryPermits(c.persistence.current.value, c.task.continuation.result)
    ensures SendableFacts(c.persistence.pending.value, c.persistence.current.value.attempts[0].id)
  {
    RecoveryOffers(c.persistence.current.value, c.latched, c.task.continuation.result);
  }

  lemma RecoveredKeeps(chain: Chain, o: Outside, c: State)
    requires DiskInv(chain, o) && SendsInv(o) && ProcInv(chain, o, c) && AwaitsStore(c)
    requires c.task.Saving? && c.task.continuation.AfterRecovery?
    ensures ProcInv(chain, Acknowledge(o, c).out, SaveCommitted(c))
  {
    FinishedKeeps(chain, o, c, true, c.inclusionChecksComplete, o.passes + 1);
    assert Acknowledge(o, c).out == Commit(o).(passes := o.passes + 1);
    var s, r := c.persistence.current.value, c.task.continuation.result;
    var done := FinishWrite(Stored(c, c.persistence.pending.value).(recoveryComplete := true, inclusionChecksComplete := c.inclusionChecksComplete));
    var permitted := RecoveryPermits(s, r) && done.latched == {};
    if permitted {
      RecoveredOffers(chain, o, c);
      Grants(chain, Commit(o).(passes := o.passes + 1), Settle(done, false), s.attempts[0].id);
    }
    RecoveredState(c);
    hide *;
  }

  /** Settling and granting commute, so the permit is the last thing that changes. */
  lemma RecoveredState(c: State)
    requires AwaitsStore(c) && c.pendingWrite.Some? && c.persistence.current.Some?
    requires c.task.Saving? && c.task.continuation.AfterRecovery?
    ensures var s, r := c.persistence.current.value, c.task.continuation.result;
      var done := FinishWrite(Stored(c, c.persistence.pending.value).(recoveryComplete := true, inclusionChecksComplete := c.inclusionChecksComplete));
      SaveCommitted(c) == if RecoveryPermits(s, r) && done.latched == {}
        then Settle(done, false).(permit := Some(s.attempts[0].id))
        else Settle(done, false)
  {
  }

  lemma SweptKeeps(chain: Chain, o: Outside, c: State)
    requires DiskInv(chain, o) && SendsInv(o) && ProcInv(chain, o, c) && AwaitsStore(c)
    requires c.task.Saving? && c.task.continuation.AfterInclusions?
    ensures ProcInv(chain, Acknowledge(o, c).out, SaveCommitted(c))
  {
    SweptFacts(chain, o, c);
    hide ProcInv;
    hide DiskInv;
    hide SendsInv;
    hide FinishWrite;
    hide SaveCommitted;
    hide CheckedFacts;
    hide SendableFacts;
    hide RecoveryPermits;
    var s, r := c.persistence.pending.value, c.task.continuation.inspection;
    FinishedKeeps(chain, o, c, c.recoveryComplete, r.Inspected? && r.complete, o.passes);
    var done := FinishWrite(Stored(c, s).(recoveryComplete := c.recoveryComplete, inclusionChecksComplete := r.Inspected? && r.complete));
    CloseKeeps(chain, Commit(o), Settle(done, false));
    SweptState(c);
    if done.recoveryComplete && done.latched == {} && InclusionsPermit(s, r) {
      Grants(chain, Commit(o), Closed(Settle(done, false)), s.attempts[OldestUnresolved(s.attempts)].id);
    }
  }

  /** What the invariant says of an inclusion pass that is being saved. */
  lemma SweptFacts(chain: Chain, o: Outside, c: State)
    requires DiskInv(chain, o) && ProcInv(chain, o, c) && AwaitsStore(c) && c.task.Saving? && c.task.continuation.AfterInclusions?
    ensures c.pendingWrite.Some? && o.tentative.Some? && c.persistence.pending == Some(o.tentative.value.journal)
    ensures WorkingOwner(c) && (c.recoveryComplete ==> AllSendsBefore(o, o.passes))
    ensures var r := c.task.continuation.inspection;
      r.Inspected? && r.complete ==> CheckedFacts(o.tentative.value.journal)
    ensures Acknowledge(o, c).out == Commit(o)
  {
    hide Writable;
    hide Truthful;
    hide SaveCommitted;
  }

  function Closed(c: State): State { if BracketOpen(c) then WithBracket(c, ClosedBracket) else c }

  lemma SweptState(c: State)
    requires AwaitsStore(c) && c.pendingWrite.Some? && c.task.Saving? && c.task.continuation.AfterInclusions?
    ensures var s, r := c.persistence.pending.value, c.task.continuation.inspection;
      var done := FinishWrite(Stored(c, s).(recoveryComplete := c.recoveryComplete, inclusionChecksComplete := r.Inspected? && r.complete));
      var closed := Closed(Settle(done, false));
      SaveCommitted(c) == if done.recoveryComplete && done.latched == {} && InclusionsPermit(s, r)
                          then closed.(permit := Some(s.attempts[OldestUnresolved(s.attempts)].id)) else closed
  {
  }

  lemma CloseKeeps(chain: Chain, o: Outside, c: State)
    requires ProcInv(chain, o, c) && c.task.Resting?
    ensures ProcInv(chain, o, Closed(c))
  {
  }

  lemma PreparedKeeps(chain: Chain, o: Outside, c: State)
    requires DiskInv(chain, o) && SendsInv(o) && ProcInv(chain, o, c) && AwaitsStore(c)
    requires c.task.Saving? && c.task.continuation.AfterPrepare?
    ensures ProcInv(chain, Acknowledge(o, c).out, SaveCommitted(c))
  {
    FinishedKeeps(chain, o, c, c.recoveryComplete, c.inclusionChecksComplete, o.passes);
    var s := c.persistence.pending.value;
    var done := FinishWrite(Stored(c, s));
    assert !Unattributed(s) && !SearchReachedObservation(s);
    assert done.latched == {};
    Grants(chain, Acknowledge(o, c).out, Settle(done, false), c.task.continuation.id);
  }

  /** The attempt handed to the network is in the journal that was just stored. */
  lemma NextSendIsRetained(h: seq<Entry>, o: Outside)
    requires o.history == h && h != [] && Valid(h[|h| - 1].journal)
    requires var s := h[|h| - 1].journal;
      var k := OldestUnresolved(s.attempts);
      k < |s.attempts| && s.attempts[k].phase == MayBeBroadcast && s.attempts[k].nonce == s.lastObservation.nonce
    ensures |NextSend(o)| == 1 && SentFrom(h, NextSend(o)[0])
  {
    var s := h[|h| - 1].journal;
    var k := OldestUnresolved(s.attempts);
    assert ValidAttempt(s.attempts[k]) && s.attempts[k].nonce == s.durableNextNonce + k;
    var send := NextSend(o)[0];
    assert At(s, send.nonce) == s.attempts[k];
    forall n | s.durableNextNonce <= n < send.nonce ensures At(s, n).phase.Included? {
      assert s.attempts[n - s.durableNextNonce].phase.Included?;
    }
  }

  lemma SendExtends(o: Outside)
    requires SendsInv(o) && AllSendsBefore(o, o.passes) && o.history != [] && |NextSend(o)| == 1
    requires SentFrom(o.history, NextSend(o)[0])
    ensures SendsInv(o.(sends := o.sends + NextSend(o)))
  {
  }

  lemma MarkedDisk(chain: Chain, o: Outside, c: State)
    requires DiskInv(chain, o) && SendsInv(o) && ProcInv(chain, o, c) && AwaitsStore(c)
    requires c.task.Saving? && c.task.continuation.AfterMark?
    ensures DiskInv(chain, Acknowledge(o, c).out) && SendsInv(Acknowledge(o, c).out)
  {
    CommitKeepsDisk(chain, o);
    var o' := Commit(o);
    LastIsSound(o'.history);
    assert AllSendsBefore(o', o'.passes);
    NextSendIsRetained(o'.history, o');
    hide Valid;
    SendExtends(o');
    hide SentFrom;
    hide NextSend;
  }

  lemma MarkedKeeps(chain: Chain, o: Outside, c: State)
    requires DiskInv(chain, o) && SendsInv(o) && ProcInv(chain, o, c) && AwaitsStore(c)
    requires c.task.Saving? && c.task.continuation.AfterMark?
    ensures Inv(chain, Acknowledge(o, c))
  {
    MarkedDisk(chain, o, c);
    hide DiskInv;
    hide SendsInv;
    hide Valid;
    hide NextSend;
    assert !Unattributed(c.persistence.pending.value);
  }

  /** A save awaiting its acknowledgement belongs to an operation or a retry. */
  lemma AwaitedSave(chain: Chain, o: Outside, c: State)
    requires ProcInv(chain, o, c) && AwaitsStore(c)
    ensures c.pendingWrite.Some? && o.tentative.Some? && (c.task.Retrying? || c.task.Saving?)
  {
    hide FactsInv;
    hide Writable;
    hide Valid;
  }

  lemma AcknowledgeKeeps(chain: Chain, o: Outside, c: State)
    requires DiskInv(chain, o) && SendsInv(o) && ProcInv(chain, o, c) && AwaitsStore(c)
    ensures Inv(chain, Acknowledge(o, c))
  {
    hide ProcInv;
    hide DiskInv;
    hide SendsInv;
    hide SaveCommitted;
    hide NextSend;
    hide AwaitsStore;
    AwaitedSave(chain, o, c);
    if c.task.Saving? && c.task.continuation.AfterMark? {
      MarkedKeeps(chain, o, c);
    } else {
      CommitKeepsDisk(chain, o);
      PassKeepsDisk(chain, Commit(o));
      if c.task.Retrying? { RetriedKeeps(chain, o, c); } else {
        match c.task.continuation
        case AfterBootstrap => BootstrappedKeeps(chain, o, c);
        case AfterRecovery(_) => RecoveredKeeps(chain, o, c);
        case AfterInclusions(_) => SweptKeeps(chain, o, c);
        case AfterPrepare(_, _) => PreparedKeeps(chain, o, c);
      }
    }
  }

  /** Counting a completed pass changes nothing on disk. */
  lemma PassKeepsDisk(chain: Chain, o: Outside)
    requires DiskInv(chain, o) && SendsInv(o)
    ensures DiskInv(chain, o.(passes := o.passes + 1)) && SendsInv(o.(passes := o.passes + 1))
  {
    hide Truthful;
    hide SentFrom;
  }

  lemma BroadcastKeeps(chain: Chain, o: Outside, c: State, id: Uuid)
    requires DiskInv(chain, o) && SendsInv(o) && ProcInv(chain, o, c)
    ensures Inv(chain, Transmit(o, c, id))
  {
    hide DiskInv;
    hide SendsInv;
    hide ProcInv;
    if c.CanBroadcast() && c.permit == Some(id) {
      var s := c.persistence.current.value;
      if s.attempts[OldestUnresolved(s.attempts)].phase.Signed? { MarkStarts(chain, o, c, id); } else { ResendStarts(chain, o, c, id); }
    } else {
      hide NextSend;
      assert BroadcastAttempt(c, id) == c;
    }
  }

  lemma MarkStarts(chain: Chain, o: Outside, c: State, id: Uuid)
    requires DiskInv(chain, o) && SendsInv(o) && ProcInv(chain, o, c) && c.CanBroadcast() && c.permit == Some(id)
    requires c.persistence.current.value.attempts[OldestUnresolved(c.persistence.current.value.attempts)].phase.Signed?
    ensures Inv(chain, Transmit(o, c, id))
  {
    MarkWritable(chain, o, c);
    var s := c.persistence.current.value;
    var started := c.(permit := None, recoveryComplete := false, inclusionChecksComplete := false, busy := true);
    hide DiskInv;
    hide SendsInv;
    hide Writable;
    hide NextSend;
    SaveKeeps(chain, o, started, PlanMark(s), PBroadcast, AfterMark(id));
  }

  lemma ResendStarts(chain: Chain, o: Outside, c: State, id: Uuid)
    requires DiskInv(chain, o) && SendsInv(o) && ProcInv(chain, o, c) && c.CanBroadcast() && c.permit == Some(id)
    requires !c.persistence.current.value.attempts[OldestUnresolved(c.persistence.current.value.attempts)].phase.Signed?
    ensures Inv(chain, Transmit(o, c, id))
  {
    LastIsSound(o.history);
    NextSendIsRetained(o.history, o);
    SendExtends(o);
  }

  lemma MarkWritable(chain: Chain, o: Outside, c: State)
    requires DiskInv(chain, o) && PersistInv(o, c) && c.CanBroadcast()
    requires var s := c.persistence.current.value;
      s.attempts[OldestUnresolved(s.attempts)].phase.Signed?
    ensures var s := c.persistence.current.value;
      && Valid(PlanMark(s)) && Writable(chain, o, Entry(Marked, PlanMark(s)))
      && OldestUnresolved(PlanMark(s).attempts) == OldestUnresolved(s.attempts)
  {
    var s := c.persistence.current.value;
    LastIsSound(o.history);
    MarkFollows(s);
    MarkedStaysTruthful(chain, s);
  }

  lemma MarkedStaysTruthful(chain: Chain, s: Snapshot)
    requires Truthful(chain, s) && OldestUnresolved(s.attempts) < |s.attempts|
    ensures Truthful(chain, PlanMark(s))
    ensures OldestUnresolved(PlanMark(s).attempts) == OldestUnresolved(s.attempts)
  {
    var next, k := PlanMark(s), OldestUnresolved(s.attempts);
    forall i | 0 <= i < |next.attempts| ensures TruthfulAttempt(chain, next.identity.signer, next.attempts[i]) {
      assert TruthfulAttempt(chain, s.identity.signer, s.attempts[i]);
    }
    forall i | 0 <= i < k ensures next.attempts[i].phase.Included? {
      assert next.attempts[i] == s.attempts[i];
    }
    assert !next.attempts[k].phase.Included?;
  }

  lemma LocalKeeps(chain: Chain, o: Outside, c: State, e: Event)
    requires DiskInv(chain, o) && SendsInv(o) && ProcInv(chain, o, c) && Possible(chain, c, e)
    ensures ProcInv(chain, o, Local(c, e))
  {
    hide DiskInv;
    hide SendsInv;
    hide ProcInv;
    hide Possible;
    hide BeginInspection;
    hide CallOperation;
    hide StartOperation;
    hide HeadOpened;
    hide BootstrapObserved;
    hide RecoveryRead;
    hide InclusionsRead;
    hide SaveRejected;
    hide SaveFailed;
    hide RetryPersistence;
    hide PrepareAttempt;
    hide SigningFailed;
    hide AttemptSigned;
    hide SendSettled;
    hide FinishInspection;
    hide AbandonInspection;
    hide CompleteAbandonment;
    match e {
      case Begin => BeginKeeps(chain, o, c);
      case Call(g, request) => CallKeeps(chain, o, c, g, request);
      case Start => StartKeeps(chain, o, c);
      case HeadReply(check) => HeadKeeps(chain, o, c, check);
      case BootstrapReply(r) => BootstrapKeeps(chain, o, c, r);
      case RecoveryReply(r) => RecoveryKeeps(chain, o, c, r);
      case InclusionsReply(r, closing) => InclusionsKeep(chain, o, c, r, closing);
      case VerificationFailed => RejectionKeeps(chain, o, c);
      case StoreFailed => FailureKeeps(chain, o, c);
      case Retry => RetryKeeps(chain, o, c);
      case Prepare(workId) => PrepareKeeps(chain, o, c, workId);
      case SigningFails => SettledKeeps(chain, o, c);
      case Signs(id, createdAt, tx) => SignKeeps(chain, o, c, id, createdAt, tx);
      case SendReply => SettledKeeps(chain, o, c);
      case Finish(g) => FinishKeeps(chain, o, c, g);
      case Abandon(g) => AbandonKeeps(chain, o, c, g);
      case AbandonmentSettles => SettlementKeeps(chain, o, c);
      case _ =>
    }
  }

  lemma OutwardKeeps(chain: Chain, o: Outside, c: State, e: Event)
    requires DiskInv(chain, o) && SendsInv(o) && ProcInv(chain, o, c) && Possible(chain, c, e)
    ensures Inv(chain, Outward(o, c, e))
  {
    hide DiskInv;
    hide SendsInv;
    hide ProcInv;
    hide Local;
    match e {
      case VerificationPassed => if AwaitsVerification(c) { VerificationKeeps(chain, o, c); }
      case FileRenamed => RenameKeeps(chain, o, c);
      case StoreSaved => if AwaitsStore(c) { AcknowledgeKeeps(chain, o, c); }
      case Broadcast(id) => BroadcastKeeps(chain, o, c, id);
      case _ => LocalKeeps(chain, o, c, e);
    }
  }

  /** A power loss leaves one of the images and touches nothing else. */
  lemma LossKeeps(chain: Chain, o: Outside, left: Option<Snapshot>)
    requires DiskInv(chain, o) && SendsInv(o) && left in o.surviving
    ensures DiskInv(chain, o.(visible := left, surviving := {left})) && SendsInv(o.(visible := left, surviving := {left}))
  {
    hide Truthful;
    hide SentFrom;
    hide History;
  }

  /** Every event keeps the invariant. */
  lemma StepKeeps(chain: Chain, w: World, e: Event)
    requires Inv(chain, w)
    ensures Inv(chain, Step(chain, w, e))
  {
    hide ProcInv;
    hide SendsInv;
    hide Possible;
    hide Outward;
    hide Adopt;
    hide SyncOffline;
    hide Create;
    hide Writable;
    hide Truthful;
    hide History;
    match e {
      case Boot(capacity) => if w.proc.None? && capacity > 0 { BootKeeps(chain, w.out, capacity); }
      case ProcessExit =>
      case PowerLoss(left) => if left in w.out.surviving { LossKeeps(chain, w.out, left); }
      case RepairOffline(_, _, _, _, _, _) => if w.proc.None? { RepairKeeps(chain, w.out, e); }
      case _ => if w.proc.Some? && Possible(chain, w.proc.value, e) { OutwardKeeps(chain, w.out, w.proc.value, e); }
    }
  }

  /** Events that end the process or begin a new one. */
  predicate Restarts(e: Event) { e.Boot? || e.ProcessExit? || e.PowerLoss? }

  lemma PossibleStep(chain: Chain, w: World, e: Event)
    requires w.proc.Some? && PersistInv(w.out, w.proc.value)
    requires !Restarts(e) && !e.RepairOffline? && Possible(chain, w.proc.value, e)
    ensures Step(chain, w, e).proc == Some(Advance(w.proc.value, e))
  {
    assert e.FileRenamed? ==> Local(w.proc.value, e) == w.proc.value;
    hide Possible;
    hide Local;
    hide SaveCommitted;
    hide BroadcastAttempt;
  }

  /** Within one process an event either does nothing or advances the process. */
  lemma ProcessStep(chain: Chain, w: World, e: Event)
    requires Inv(chain, w) && w.proc.Some? && !Restarts(e)
    ensures Step(chain, w, e).proc.Some?
    ensures Step(chain, w, e).proc == w.proc || Step(chain, w, e).proc == Some(Advance(w.proc.value, e))
    ensures AwaitsStore(w.proc.value) ==> w.proc.value.pendingWrite.Some?
  {
    if !e.RepairOffline? && Possible(chain, w.proc.value, e) { PossibleStep(chain, w, e); }
    hide Possible;
    hide Outward;
    hide DiskInv;
    hide SendsInv;
    hide FactsInv;
    hide TaskInv;
  }

  lemma {:induction false} RunKeeps(chain: Chain, w: World, events: seq<Event>)
    requires Inv(chain, w)
    ensures Inv(chain, Run(chain, w, events))
  {
    if events != [] {
      RunKeeps(chain, w, events[..|events| - 1]);
      StepKeeps(chain, Run(chain, w, events[..|events| - 1]), events[|events| - 1]);
    }
  }

  ghost predicate Reachable(chain: Chain, identity: Identity, w: World) {
    exists events :: Run(chain, Initial(identity), events) == w
  }

  /** The invariant holds in every state any run reaches. */
  lemma ReachableInv(chain: Chain, identity: Identity, w: World)
    requires ValidIdentity(identity) && Reachable(chain, identity, w)
    ensures Inv(chain, w)
  {
    var events :| Run(chain, Initial(identity), events) == w;
    RunKeeps(chain, Initial(identity), events);
  }

  lemma ReachableStep(chain: Chain, identity: Identity, w: World, e: Event)
    requires Reachable(chain, identity, w)
    ensures Reachable(chain, identity, Step(chain, w, e))
  {
    var events :| Run(chain, Initial(identity), events) == w;
    assert (events + [e])[..|events|] == events;
    assert Run(chain, Initial(identity), events + [e]) == Step(chain, w, e);
  }
}
