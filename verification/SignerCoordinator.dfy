/** The signer coordinator in its own form: an object over its persistence, whose
    operations update fields step by step. Each operation is tied to the events of
    the state machine it performs, so what holds of every run holds of it. */
module SignerCoordinators {
  import opened Journal
  import opened JournalHistory
  import opened JournalStore
  import opened Blocks
  import opened Receipts
  import opened Inspections
  import opened SignerGate
  import opened Transitions
  import opened CoordinatorState
  import opened SubmissionRecording
  import opened World
  import opened RunInvariant
  import DurableFiles
  import Serialization
  import SignerSafety

  /** An asynchronous operation returns, throws, or its process dies inside it. */
  datatype Completion<+T> = Returned(value: T) | Threw | Killed

  datatype PrepareResult = NewAttempt(id: Uuid, hash: Hash, nonce: nat) | AlreadyRetained(id: Uuid)

  datatype BroadcastResult = Acknowledged(id: Uuid) | NotAcknowledged(id: Uuid)

  /** The journal gained exactly one signed attempt, at the next nonce. */
  predicate Appends(before: Snapshot, after: Snapshot, workId: WorkId, made: PrepareResult)
    requires made.NewAttempt?
  {
    && |after.attempts| == |before.attempts| + 1
    && var a := after.attempts[|before.attempts|];
       && a.id == made.id && a.workId == workId && a.nonce == made.nonce == before.nextNonce && a.phase == Signed
       && |a.txs| == 1 && a.txs[0].hash == made.hash && a.search == Some(Search(before.lastObservation, None))
       && after == before.(nextNonce := before.nextNonce + 1, attempts := before.attempts + [a])
  }

  lemma PreparedAppends(s: Snapshot, id: Uuid, workId: WorkId, createdAt: Timestamp, tx: SignedTx)
    ensures Appends(s, PlanPrepare(s, id, workId, createdAt, tx), workId, NewAttempt(id, tx.hash, s.nextNonce))
  {
  }

  // The events an operation performs

  function AdvanceAll(c: State, events: seq<Event>): State {
    if events == [] then c else Advance(AdvanceAll(c, events[..|events| - 1]), events[|events| - 1])
  }

  ghost predicate AllPossible(chain: Chain, c: State, events: seq<Event>) {
    events == [] || (
      && AllPossible(chain, c, events[..|events| - 1])
      && Possible(chain, AdvanceAll(c, events[..|events| - 1]), events[|events| - 1])
      && InProcess(events[|events| - 1]))
  }

  predicate InProcess(e: Event) {
    !e.Boot? && !e.ProcessExit? && !e.PowerLoss? && !e.RepairOffline? && !e.FileRenamed?
  }

  /** The machine can go from `c` to `c'` by these events. */
  ghost predicate Performs(chain: Chain, c: State, events: seq<Event>, c': State) {
    AllPossible(chain, c, events) && AdvanceAll(c, events) == c'
  }

  lemma PerformsOne(chain: Chain, c: State, events: seq<Event>, c1: State, e: Event)
    requires Performs(chain, c, events, c1) && Possible(chain, c1, e) && InProcess(e)
    ensures Performs(chain, c, events + [e], Advance(c1, e))
  {
    assert (events + [e])[..|events|] == events;
  }

  lemma PerformsNone(chain: Chain, c: State)
    ensures Performs(chain, c, [], c) && AllQuiet([])
  {
  }

  lemma PerformsSaved(chain: Chain, c: State, events: seq<Event>, c1: State)
    requires Performs(chain, c, events, c1)
    ensures Performs(chain, c, events + [StoreSaved], Advance(c1, StoreSaved))
    ensures AllQuiet(events) ==> AllQuiet(events + [StoreSaved])
  {
    PerformsOne(chain, c, events, c1, StoreSaved);
  }

  lemma QuietMore(events: seq<Event>, e: Event)
    requires Quiet(e)
    ensures AllQuiet(events) ==> AllQuiet(events + [e])
  {
  }

  predicate Unconditional(e: Event) {
    InProcess(e) && !e.BootstrapReply? && !e.RecoveryReply? && !e.InclusionsReply? && !e.VerificationPassed?
  }

  /** Events that are possible in every state. */
  lemma PerformsFree(chain: Chain, c: State, events: seq<Event>, c1: State, e: Event)
    requires Performs(chain, c, events, c1) && Unconditional(e)
    ensures Performs(chain, c, events + [e], Advance(c1, e))
    ensures AllQuiet(events) && Quiet(e) ==> AllQuiet(events + [e])
  {
    PerformsOne(chain, c, events, c1, e);
  }

  lemma PerformsBootstrap(chain: Chain, c: State, events: seq<Event>, c1: State, r: BootstrapRead)
    requires Performs(chain, c, events, c1) && c1.task.Bootstrapping?
    requires r.Ready? ==> PossibleCount(r.observation, c1.task.anchor)
    ensures Performs(chain, c, events + [BootstrapReply(r)], Advance(c1, BootstrapReply(r)))
  {
    PerformsOne(chain, c, events, c1, BootstrapReply(r));
  }

  lemma PerformsFailure(chain: Chain, c: State, events: seq<Event>, c1: State, e: Event)
    requires Performs(chain, c, events, c1) && (e.VerificationFailed? || e.StoreFailed?)
    ensures Performs(chain, c, events + [e], Advance(c1, e))
  {
    PerformsOne(chain, c, events, c1, e);
  }

  lemma SameLength(chain: Chain, s: Snapshot, head: Anchor, r: InclusionInspection)
    requires r.Inspected? && InclusionAnswers(chain, s, head, r)
    ensures |r.attempts| == |s.attempts|
  {
  }

  lemma PerformsInclusions(chain: Chain, c: State, events: seq<Event>, c1: State, r: InclusionInspection, closing: AnchorCheck)
    requires Performs(chain, c, events, c1) && c1.task.Inspecting? && c1.persistence.current.Some?
    requires InclusionAnswers(chain, c1.persistence.current.value, c1.task.head, r)
    ensures Performs(chain, c, events + [InclusionsReply(r, closing)], Advance(c1, InclusionsReply(r, closing)))
  {
    PerformsOne(chain, c, events, c1, InclusionsReply(r, closing));
  }

  lemma AdvanceIsStep(chain: Chain, w: World, e: Event)
    requires Inv(chain, w) && w.proc.Some? && Possible(chain, w.proc.value, e) && InProcess(e)
    ensures Step(chain, w, e).proc == Some(Advance(w.proc.value, e))
  {
    PossibleStep(chain, w, e);
  }

  /** What an operation performs is a stretch of a run, so every invariant of runs
      holds of the object whenever it held before the operation. */
  lemma {:induction false} OperationIsRun(chain: Chain, w: World, events: seq<Event>, c': State)
    requires Inv(chain, w) && w.proc.Some? && Performs(chain, w.proc.value, events, c')
    ensures Run(chain, w, events).proc == Some(c') && Inv(chain, Run(chain, w, events))
  {
    RunKeeps(chain, w, events);
    if events != [] {
      var before := events[..|events| - 1];
      OperationIsRun(chain, w, before, AdvanceAll(w.proc.value, before));
      AdvanceIsStep(chain, Run(chain, w, before), events[|events| - 1]);
    }
  }

  /** The state is one the machine reaches, so all that holds of every run holds. */
  ghost predicate Lives(chain: Chain, w: World, c: State) {
    Inv(chain, w) && w.proc == Some(c)
  }

  lemma LivesInv(chain: Chain, w: World, c: State)
    requires Lives(chain, w, c)
    ensures Inv(chain, w)
  {
    hide Inv;
  }

  lemma LivesOn(chain: Chain, w: World, c: State, events: seq<Event>, c': State) returns (w': World)
    requires Lives(chain, w, c) && Performs(chain, c, events, c')
    ensures Lives(chain, w', c') && w' == Run(chain, w, events)
    ensures AllQuiet(events) ==> BringsNoWork(c, c')
  {
    OperationIsRun(chain, w, events, c');
    w' := Run(chain, w, events);
    hide *;
    if AllQuiet(events) { QuietRun(chain, w, events, c, c'); }
  }

  lemma QuietRun(chain: Chain, w: World, events: seq<Event>, c: State, c': State)
    requires Inv(chain, w) && w.proc == Some(c) && AllQuiet(events) && Run(chain, w, events).proc == Some(c')
    ensures BringsNoWork(c, c')
  {
    hide *;
    RunBringsNoWork(chain, w, events);
  }

  lemma LivesOnHandle(chain: Chain, w: World, c: State, e: Event) returns (w': World)
    requires Lives(chain, w, c) && (e.Begin? || e.Finish? || e.Abandon?)
    ensures Lives(chain, w', Local(c, e)) && w' == Step(chain, w, e)
    ensures BringsNoWork(c, Local(c, e))
  {
    StepKeeps(chain, w, e);
    StepBringsNoWork(chain, w, e);
    PossibleStep(chain, w, e);
    hide HoldsAny;
    hide Inv;
    w' := Step(chain, w, e);
  }

  // What single events do, unfolded once

  lemma StartedRecovery(c: State)
    requires c.task.Queued? && c.task.request.Recover? && c.owner.Some? && c.WorkAllowed(c.owner.value.generation)
    ensures var anchor, range := c.task.request.anchor, c.task.request.range;
      var ran := c.(owner := Some(c.owner.value.(hasRun := true)));
      var started := ran.(permit := None, busy := true, recoveryComplete := false, inclusionChecksComplete := false);
      Advance(c, Start) ==
        if range == 0 || range >= UINT256_LIMIT || !c.WriteIdle() then Settle(ran, true)
        else if c.persistence.current.Some? then started.(task := Recovering(anchor, range))
        else if c.latched != {} then Settle(started, true)
        else started.(task := Bootstrapping(anchor))
  {
  }

  lemma StartedHead(c: State)
    requires c.task.Queued? && c.task.request.OpenHead? && c.owner.Some? && c.WorkAllowed(c.owner.value.generation)
    ensures var failed := WithBracket(c, FailedBracket);
      Advance(c, Start) ==
        if c.owner.value.hasRun || !c.owner.value.bracket.NoBracket? then Settle(c, true)
        else if !ValidAnchor(c.task.request.head) then Settle(failed, true)
        else failed.(task := OpeningHead(c.task.request.head))
  {
  }

  lemma RepliedHead(c: State, check: AnchorCheck)
    requires c.task.OpeningHead?
    ensures Advance(c, HeadReply(check)) ==
      if check.Same? then Settle(WithBracket(c, OpenBracket(c.task.opening)), false) else Settle(c, check.Unreadable?)
  {
  }

  lemma Called(c: State, g: nat, request: Request)
    ensures Advance(c, Call(g, request)) == CallOperation(c, g, request)
  {
  }

  lemma StartedInclusions(c: State)
    requires c.task.Queued? && c.task.request.CheckInclusions? && c.owner.Some? && c.WorkAllowed(c.owner.value.generation)
    ensures var head := c.task.request.head;
      var ran := c.(owner := Some(c.owner.value.(hasRun := true)));
      var started := ran.(permit := None, inclusionChecksComplete := false, busy := true);
      Advance(c, Start) ==
        if !c.WriteIdle() || c.persistence.current.None? then Settle(ran, true)
        else if BracketOpen(c) && c.owner.value.bracket.head != head then Settle(started, true)
        else started.(task := Inspecting(head))
  {
  }

  /** An operation's own authorization is already withdrawn while it saves. */
  predicate Withdrawn(c: State) {
    c.task.Saving? && match c.task.continuation
    case AfterBootstrap => !c.recoveryComplete
    case AfterRecovery(_) => !c.recoveryComplete
    case AfterInclusions(_) => !c.inclusionChecksComplete
    case AfterPrepare(_, _) => false
    case AfterMark(_) => true
  }

  lemma RejectedSave(c: State)
    requires AwaitsVerification(c) && Withdrawn(c)
    ensures Advance(c, VerificationFailed) == Settle(c.(persistence := c.persistence.(state := Idle), pendingWrite := None), true)
  {
  }

  lemma UnconfirmedSave(c: State)
    requires AwaitsStore(c) && Withdrawn(c)
    ensures Advance(c, StoreFailed) == Settle(c.(persistence := c.persistence.(state := Broken)), true)
  {
  }

  lemma BootstrapSaved(c: State)
    requires AwaitsStore(c) && c.pendingWrite.Some? && c.task.Saving? && c.task.continuation.AfterBootstrap?
    ensures Advance(c, StoreSaved) == Settle(FinishWrite(Stored(c, c.persistence.pending.value).(recoveryComplete := true)), false)
  {
  }

  lemma RecoverySaved(c: State)
    requires AwaitsStore(c) && c.pendingWrite.Some? && c.task.Saving? && c.task.continuation.AfterRecovery?
    requires c.persistence.current.Some?
    ensures var s, r := c.persistence.current.value, c.task.continuation.result;
      var done := FinishWrite(Stored(c, c.persistence.pending.value).(recoveryComplete := true));
      Advance(c, StoreSaved) ==
        Settle(if RecoveryPermits(s, r) && done.latched == {} then done.(permit := Some(s.attempts[0].id)) else done, false)
  {
  }

  /** A reported resolution always removed exactly the oldest attempt; any other
      result leaves the queue's length as it was. */
  lemma PlannedQueue(s: Snapshot, latched: set<Blocker>, r: RecoveryInspection)
    ensures var plan := PlanRecovery(s, latched, r);
      && (r.ResolutionAvailable? ==> !plan.Report?)
      && (r.ResolutionAvailable? && plan.Store? ==> |s.attempts| > 0 && plan.next.attempts == s.attempts[1..])
      && (!r.ResolutionAvailable? && plan.Store? ==> |plan.next.attempts| == |s.attempts|)
  {
  }

  /** What a returned recovery result leaves: exactly the planned journal, with
      recovery complete, or the old one when there is nothing to save. */
  predicate RecoveredTo(before: Option<Snapshot>, latched: set<Blocker>, r: RecoveryInspection, after: Option<Snapshot>, complete: bool) {
    if before.None? then
      if r.NoAttempt? then complete && after.Some? && after == Some(Bootstrap(after.value.identity, r.observation))
      else !complete && after.None? && (r.RecoveryAnchorChanged? || r.RecoveryDeferred?)
    else match PlanRecovery(before.value, latched, r)
      case Report => !complete && after == before
      case Store(next, _) => complete && after == Some(next)
      case InternalError => false
  }

  /** What a returned recovery result says about the queue. */
  predicate QueueAfter(r: RecoveryInspection, before: Option<Snapshot>, after: Option<Snapshot>) {
    if r.ResolutionAvailable? then before.Some? && after.Some? && |before.value.attempts| > 0
                                   && after.value.attempts == before.value.attempts[1..]
    else |AttemptsOf(after)| == |AttemptsOf(before)|
  }

  lemma RepliedRecovery(c: State, r: RecoveryInspection)
    requires c.task.Recovering? && c.persistence.current.Some? && !c.recoveryComplete
    ensures var plan := if r.RecoveryThrew? then InternalError else PlanRecovery(c.persistence.current.value, c.latched, r);
      Advance(c, RecoveryReply(r)) ==
        if plan.Report? then Settle(c, false)
        else if plan.Store? && Journal.Valid(plan.next) then StartSave(c, plan.next, plan.kind, AfterRecovery(r))
        else Settle(c, true)
  {
  }

  lemma RepliedBootstrap(c: State, r: BootstrapRead)
    requires c.task.Bootstrapping? && !c.recoveryComplete
    ensures Advance(c, BootstrapReply(r)) ==
      if r.Ready? then StartSave(c, Bootstrap(c.identity, r.observation), PBootstrap, AfterBootstrap) else Settle(c, r.BootstrapThrew?)
  {
  }

  lemma RepliedInclusions(c: State, r: InclusionInspection, closing: AnchorCheck)
    requires c.task.Inspecting? && c.persistence.current.Some? && !c.inclusionChecksComplete
    ensures Advance(c, InclusionsReply(r, closing)) ==
      if r.InclusionThrew? then Settle(c, true)
      else if !r.Inspected? then
        Settle(if r.HeadChanged? then FailBracket(c) else FailBracket(c).(recoveryComplete := false), false)
      else if BracketOpen(c) && closing.Changed? then Settle(FailBracket(c), false)
      else if BracketOpen(c) && closing.Unreadable? then Settle(c, true)
      else if !Journal.Valid(PlanInclusions(c.persistence.current.value, c.latched, r)) then Settle(c, true)
      else StartSave(c, PlanInclusions(c.persistence.current.value, c.latched, r), PObservation, AfterInclusions(r))
  {
  }

  lemma InclusionsSaved(c: State)
    requires AwaitsStore(c) && c.pendingWrite.Some? && c.task.Saving? && c.task.continuation.AfterInclusions?
    ensures var s, r := c.persistence.pending.value, c.task.continuation.inspection;
      var done := FinishWrite(Stored(c, s).(inclusionChecksComplete := r.Inspected? && r.complete));
      var permitted := done.recoveryComplete && done.latched == {} && InclusionsPermit(s, r);
      Advance(c, StoreSaved) ==
        Settle(Closed(if permitted then done.(permit := Some(s.attempts[OldestUnresolved(s.attempts)].id)) else done), false)
  {
  }

  lemma RetrySaved(c: State)
    requires AwaitsStore(c) && c.pendingWrite.Some? && c.task.Retrying?
    ensures Advance(c, StoreSaved) == Settle(FinishWrite(Stored(c, c.persistence.pending.value)), false)
    ensures Advance(c, StoreFailed) == Settle(c.(persistence := c.persistence.(state := Broken)), true)
  {
    hide FinishWrite;
    hide Settle;
  }

  lemma SigningDone(c: State, id: Uuid, createdAt: Timestamp, tx: SignedTx)
    requires c.task.Signing? && c.persistence.current.Some?
    ensures var s := c.persistence.current.value;
      var next := PlanPrepare(s, id, c.task.workId, createdAt, tx);
      && Advance(c, SigningFails) == Settle(c, true)
      && Advance(c, Signs(id, createdAt, tx)) ==
           if s.nextNonce > MAX_SAFE_INTEGER || !Journal.Valid(next) then Settle(c, true)
           else StartSave(c.(inclusionChecksComplete := false), next, PPrepared, AfterPrepare(id, c.inclusionChecksComplete))
  {
  }

  lemma PreparationSaved(c: State)
    requires AwaitsStore(c) && c.pendingWrite.Some? && c.task.Saving? && c.task.continuation.AfterPrepare?
    ensures Advance(c, StoreSaved) ==
      Settle(FinishWrite(Stored(c, c.persistence.pending.value)).(permit := Some(c.task.continuation.id)), false)
  {
    hide FinishWrite;
    hide Settle;
  }

  lemma PreparationUnconfirmed(c: State)
    requires AwaitsStore(c) && c.task.Saving? && c.task.continuation.AfterPrepare?
    ensures Advance(c, StoreFailed) ==
      Settle(c.(persistence := c.persistence.(state := Broken), recoveryComplete := false, inclusionChecksComplete := false), true)
  {
  }

  lemma PreparationRejected(c: State)
    requires AwaitsVerification(c) && c.task.continuation.AfterPrepare?
    ensures Advance(c, VerificationFailed) ==
      Settle(c.(persistence := c.persistence.(state := Idle), pendingWrite := None,
                inclusionChecksComplete := c.task.continuation.checkedBefore), true)
  {
  }

  lemma MarkSaved(c: State)
    requires AwaitsStore(c) && c.pendingWrite.Some? && c.task.Saving? && c.task.continuation.AfterMark?
    ensures Advance(c, StoreSaved) ==
      Stored(c, c.persistence.pending.value).(pendingWrite := None, task := Sending(c.task.continuation.id))
  {
  }

  lemma BroadcastStarted(c: State, id: Uuid)
    requires c.CanBroadcast() && c.permit == Some(id)
    ensures var s := c.persistence.current.value;
      var started := c.(permit := None, recoveryComplete := false, inclusionChecksComplete := false, busy := true);
      Advance(c, Broadcast(id)) ==
        if s.attempts[OldestUnresolved(s.attempts)].phase.Signed?
        then StartSave(started, PlanMark(s), PBroadcast, AfterMark(id)) else started.(task := Sending(id))
  {
  }

  lemma PerformsBroadcast(chain: Chain, c: State, events: seq<Event>, c1: State, id: Uuid)
    requires Performs(chain, c, events, c1)
    ensures Performs(chain, c, events + [Broadcast(id)], Advance(c1, Broadcast(id)))
  {
    PerformsOne(chain, c, events, c1, Broadcast(id));
  }

  lemma SendReplied(c: State)
    requires c.task.Sending?
    ensures Advance(c, SendReply) == Settle(c, false)
  {
  }

  lemma PrepareStarted(c: State, workId: WorkId)
    ensures Advance(c, Prepare(workId)) == PrepareAttempt(c, workId)
    ensures Advance(c, Retry) == RetryPersistence(c)
  {
  }

  lemma OnlyMissingIsDeferred(chain: Chain, s: Snapshot, anchor: Anchor, range: nat, r: RecoveryInspection)
    requires RecoveryAnswers(chain, s, anchor, range, r)
    ensures !r.RecoveryDeferred?
  {
  }

  class SignerCoordinator {
    const identity: Identity
    const capacity: nat
    const persistence: JournalPersistence
    var recoveryComplete: bool
    var inclusionChecksComplete: bool
    var busy: bool
    var permit: Option<Uuid>
    var generation: nat
    var owner: Option<Owner>
    var pendingWrite: Option<PendingWrite>
    var latched: set<Blocker>
    var revision: Revision
    /** The locals of the operation that is suspended, if any. */
    ghost var task: Task

    ghost function View(): State
      reads this, persistence
    {
      State(identity, capacity, recoveryComplete, inclusionChecksComplete, busy, permit, generation, owner,
            pendingWrite, latched, revision, Persistence(persistence.state, persistence.current, persistence.pending), task)
    }

    /** Between operations. */
    ghost predicate Valid()
      reads this, persistence, persistence.store.directory
    {
      && persistence.Valid() && persistence.store.identity == identity
      && !persistence.state.Writing? && !busy && task == Resting
      && (pendingWrite.None? <==> persistence.state.Idle?)
      && (owner.Some? ==> !owner.value.active && !owner.value.abandoning && owner.value.generation == generation)
    }

    constructor (persistence: JournalPersistence, capacity: nat)
      requires persistence.Valid() && persistence.state.Idle? && capacity > 0
      ensures Valid() && this.persistence == persistence
      ensures View() == Create(persistence.store.identity, capacity, persistence.current)
    {
      this.persistence, this.identity, this.capacity := persistence, persistence.store.identity, capacity;
      recoveryComplete, inclusionChecksComplete, busy := false, false, false;
      permit, generation, owner, pendingWrite := None, 0, None, None;
      latched, revision, task := {}, NeverComputed, Resting;
      new;
      LatchUnattributedActivity();
      LatchExhaustedSearch();
      revision := DurableRecoveryRevision(persistence.current, latched);
    }

    method LatchUnattributedActivity()
      modifies this`latched
      ensures View() == LatchActivity(old(View()))
    {
      if persistence.current.Some? && Unattributed(persistence.current.value) {
        latched := latched + {UnattributedActivity};
      }
    }

    method LatchExhaustedSearch()
      modifies this`latched
      ensures View() == LatchSearch(old(View()))
    {
      if persistence.current.Some? && SearchReachedObservation(persistence.current.value) {
        latched := latched + {SearchExhausted};
      }
    }

    method CompleteWrite()
      requires pendingWrite.Some?
      modifies this`latched, this`pendingWrite, this`busy, this`revision
      ensures View() == FinishWrite(old(View())) && pendingWrite.None?
    {
      hide LatchActivity;
      hide LatchSearch;
      hide DurableRecoveryRevision;
      match pendingWrite.value {
        case PResolution(_) => latched := latched - {SearchExhausted};
        case PSearchProgress(exhausted) =>
          latched := if exhausted then latched + {SearchExhausted} else latched - {SearchExhausted};
        case _ =>
      }
      pendingWrite := None;
      busy := false;
      LatchUnattributedActivity();
      LatchExhaustedSearch();
      revision := DurableRecoveryRevision(persistence.current, latched);
    }

    /** The last blocks to run when an operation of an inspection, or a direct one,
        returns or throws. */
    method Conclude(threw: bool)
      modifies this`busy, this`task, this`owner, this`permit, this`inclusionChecksComplete
      ensures View() == Settle(old(View()), threw)
      ensures !busy && task == Resting && owner.Some? == old(owner).Some?
      ensures owner.Some? ==> !owner.value.active && owner.value.generation == old(owner).value.generation
      ensures owner.Some? ==> owner.value.abandoning == old(owner).value.abandoning
      ensures owner.Some? && !threw ==> owner.value.bracket == old(owner).value.bracket
      ensures owner.None? || !threw ==> permit == old(permit) && inclusionChecksComplete == old(inclusionChecksComplete)
    {
      busy := false;
      task := Resting;
      if owner.Some? {
        if threw && owner.value.bracket.OpenBracket? {
          owner := Some(owner.value.(bracket := FailedBracket));
          permit, inclusionChecksComplete := None, false;
        }
        owner := Some(owner.value.(active := false));
      }
    }

    method BeginInspection() returns (handle: Option<nat>)
      requires Valid()
      modifies this
      ensures Valid() && View() == CoordinatorState.BeginInspection(old(View()))
      ensures handle.Some? <==> old(owner.None? && pendingWrite.None?)
      ensures handle.Some? ==> handle.value == generation == old(generation) + 1 && View().Owns(generation)
      ensures handle.None? ==> View() == old(View())
    {
      if owner.Some? || busy || pendingWrite.Some? || !persistence.state.Idle? { return None; }
      generation := generation + 1;
      owner := Some(Owner(generation, false, false, false, NoBracket));
      permit, inclusionChecksComplete := None, false;
      return Some(generation);
    }

    method FinishInspection(g: nat) returns (ok: bool)
      requires Valid()
      modifies this`owner
      ensures Valid() && View() == CoordinatorState.FinishInspection(old(View()), g)
      ensures ok <==> old(View()) != View()
      ensures ok ==> owner.None? && persistence.state.Idle?
    {
      if owner.None? || owner.value.generation != g || g != generation || owner.value.abandoning { return false; }
      if owner.value.bracket.OpenBracket? || owner.value.bracket.FailedBracket? || pendingWrite.Some? { return false; }
      owner := None;
      return true;
    }

    /** With no operation running abandonment releases ownership at once. */
    method AbandonInspection(g: nat) returns (ok: bool)
      requires Valid()
      modifies this`owner, this`permit, this`inclusionChecksComplete
      ensures Valid() && View() == CoordinatorState.AbandonInspection(old(View()), g)
      ensures ok ==> owner.None? && permit.None? && !inclusionChecksComplete
    {
      if owner.None? || owner.value.generation != g || g != generation { return false; }
      permit, inclusionChecksComplete := None, false;
      owner := None;
      return true;
    }

    /** The guards every operation of a handle meets first, and its start. */
    method EnterOperation(g: nat, request: Request) returns (ok: bool)
      requires Valid()
      modifies this`owner, this`task
      ensures ok <==> old(View()).WorkAllowed(g)
      ensures View() == CallOperation(old(View()), g, request)
      ensures ok ==> Queueing(g, request)
      ensures !ok ==> Valid()
    {
      ok := owner.Some? && owner.value.generation == g && g == generation && !owner.value.abandoning && !busy
        && !owner.value.bracket.FailedBracket? && !owner.value.bracket.ClosedBracket?;
      if ok {
        owner := Some(owner.value.(active := true));
        task := Queued(request);
      }
    }

    method OpenHead(rpc: Rpc, g: nat, head: Anchor) returns (r: Completion<AnchorCheck>, ghost events: seq<Event>)
      requires Valid()
      modifies this`owner, this`task, this`busy, this`permit, this`inclusionChecksComplete
      ensures Valid() && Performs(rpc.chain, old(View()), events, View())
      ensures r.Returned? && r.value.Same? ==> owner.Some? && owner.value.bracket == OpenBracket(head)
      ensures r.Returned? && !r.value.Same? ==> owner.Some? && owner.value.bracket.FailedBracket?
      ensures |events| > 0 && events[0] == Call(g, Request.OpenHead(head))
      ensures AllQuiet(events)
    {
      hide AllQuiet;
      hide Possible;
      hide Performs;
      var request := Request.OpenHead(head);
      ghost var c := View();
      PerformsNone(rpc.chain, c);
      events := [];
      Called(c, g, request);
      PerformsFree(rpc.chain, c, events, c, Call(g, request));
      events := events + [Call(g, request)];
      var ok := EnterOperation(g, request);
      if !ok { return Threw, events; }
      r, events := OpenHeadOwned(rpc, g, head, c, events);
    }

    method OpenHeadOwned(rpc: Rpc, g: nat, head: Anchor, ghost c: State, ghost before: seq<Event>)
      returns (r: Completion<AnchorCheck>, ghost events: seq<Event>)
      requires Queueing(g, Request.OpenHead(head)) && Performs(rpc.chain, c, before, View())
      modifies this`owner, this`task, this`busy, this`permit, this`inclusionChecksComplete
      ensures Valid() && Performs(rpc.chain, c, events, View())
      ensures r.Returned? && r.value.Same? ==> owner.Some? && owner.value.bracket == OpenBracket(head)
      ensures r.Returned? && !r.value.Same? ==> owner.Some? && owner.value.bracket.FailedBracket?
      ensures before <= events
      ensures AllQuiet(before) ==> AllQuiet(events)
    {
      hide AllQuiet;
      hide Possible;
      hide Performs;
      hide Shows;
      hide Journal.Valid;
      hide Advance;
      hide Settle;
      StartedHead(View());
      PerformsFree(rpc.chain, c, before, View(), Start);
      events := before + [Start];
      if owner.value.hasRun || !owner.value.bracket.NoBracket? {
        Conclude(true);
        return Threw, events;
      }
      owner := Some(owner.value.(bracket := FailedBracket));
      if !ValidAnchor(head) {
        Conclude(true);
        return Threw, events;
      }
      task := OpeningHead(head);
      r, events := ReadHead(rpc, head, c, events);
    }

    /** The bracket stays failed unless the node shows the head. */
    method ReadHead(rpc: Rpc, head: Anchor, ghost c: State, ghost before: seq<Event>)
      returns (r: Completion<AnchorCheck>, ghost events: seq<Event>)
      requires persistence.Valid() && persistence.store.identity == identity && !persistence.state.Writing?
      requires pendingWrite.None? <==> persistence.state.Idle?
      requires task == OpeningHead(head) && Performs(rpc.chain, c, before, View())
      requires owner.Some? && owner.value.active && owner.value.bracket.FailedBracket?
      requires owner.value.generation == generation && !owner.value.abandoning && !busy
      modifies this`owner, this`task, this`busy, this`permit, this`inclusionChecksComplete
      ensures Valid() && Performs(rpc.chain, c, events, View())
      ensures r.Returned? && r.value.Same? ==> owner.Some? && owner.value.bracket == OpenBracket(head)
      ensures r.Returned? && !r.value.Same? ==> owner.Some? && owner.value.bracket.FailedBracket?
      ensures before <= events && (AllQuiet(before) ==> AllQuiet(events))
    {
      hide AllQuiet;
      hide Possible;
      hide Performs;
      hide Shows;
      hide Journal.Valid;
      hide Advance;
      hide Settle;
      var check, _ := rpc.CheckAnchor(head, 0);
      RepliedHead(View(), check);
      PerformsFree(rpc.chain, c, before, View(), HeadReply(check));
      events := before + [HeadReply(check)];
      if check.Same? { owner := Some(owner.value.(bracket := OpenBracket(head))); }
      Conclude(check.Unreadable?);
      r := if check.Unreadable? then Threw else Returned(check);
    }

    /** Inside an operation of the handle `g` that was just queued. */
    ghost predicate Queueing(g: nat, request: Request)
      reads this, persistence, persistence.store.directory
    {
      && persistence.Valid() && persistence.store.identity == identity && !persistence.state.Writing?
      && (pendingWrite.None? <==> persistence.state.Idle?)
      && task == Queued(request) && View().WorkAllowed(g) && owner.value.active
    }

    // Saving

    /** The state the machine is in while the last save is under way. */
    ghost function InFlight(next: Snapshot, before: Option<Snapshot>, verified: bool): State
      reads this, persistence
    {
      View().(persistence := Persistence(Writing, before, if verified then Some(next) else None))
    }

    /** Marks the write pending and saves it; what follows is up to the operation. */
    method Persist(ghost chain: Chain, next: Snapshot, kind: PendingWrite, ghost k: Continuation, ghost c: State, ghost before: seq<Event>)
      returns (r: Persisting, ghost events: seq<Event>)
      requires persistence.Valid() && persistence.store.identity == identity && persistence.state.Idle?
      requires Performs(chain, c, before, StartSave(View(), next, kind, k))
      modifies this`pendingWrite, this`task, persistence, persistence.store.directory
      ensures pendingWrite == Some(kind) && task == Saving(next, k)
      ensures !r.Crashed? ==> persistence.Valid()
      ensures r.Committed? ==> persistence.state.Idle? && persistence.current == Some(next)
      ensures r.Rejected? ==> persistence.state.Idle? && persistence.current == old(persistence.current)
      ensures r.NotConfirmed? ==> persistence.state.Broken? && persistence.current == old(persistence.current) && persistence.pending == Some(next)
      ensures r.Committed? || r.NotConfirmed? ==> events == before + [VerificationPassed]
      ensures r.Rejected? ==> events == before
      ensures !r.Crashed? ==> Performs(chain, c, events, InFlight(next, old(persistence.current), !r.Rejected?))
      ensures AllQuiet(before) ==> AllQuiet(events)
    {
      hide Journal.Valid;
      hide Performs;
      hide Shows;
      pendingWrite := Some(kind);
      task := Saving(next, k);
      ghost var started := InFlight(next, persistence.current, false);
      r := persistence.Save(next);
      events := before;
      if r.Committed? || r.NotConfirmed? {
        PerformsOne(chain, c, before, started, VerificationPassed);
        events := before + [VerificationPassed];
      }
    }

    // Recovery

    /** From `since` on the node gave the anchored count, and then these counts at its head
        without and with pending transactions. */
    ghost predicate CountedLive(rpc: Rpc, since: nat, o: Observation, latest: nat, pending: nat) {
      Counted(rpc, since, o) && exists first: nat, second: nat ::
        since <= first <= second && rpc.live(false, first) == Some(latest) && rpc.live(true, second) == Some(pending)
    }

    /** What the node said behind a decision about the first baseline: it is ready exactly
        when the anchored count and both live counts agree. */
    ghost predicate BootstrapWitnessed(rpc: Rpc, since: nat, anchor: Anchor, r: BootstrapRead) {
      match r
      case Ready(o) => o.anchor == anchor && CountedLive(rpc, since, o, o.nonce, o.nonce)
      case BootstrapDeferred(o, latest, pending) =>
        o.anchor == anchor && CountedLive(rpc, since, o, latest, pending) && (latest != o.nonce || pending != o.nonce)
      case BootstrapAnchorChanged(observed) => observed.number == anchor.number && observed != anchor && rpc.ShownSince(observed, since)
      case BootstrapThrew => true
    }

    /** The signer's baseline: a durable count that the live counts agree with. */
    method InspectSignerBootstrap(rpc: Rpc, anchor: Anchor, since: nat) returns (r: BootstrapRead)
      ensures r.Ready? ==> PossibleCount(r.observation, anchor)
      ensures BootstrapWitnessed(rpc, since, anchor, r)
    {
      var nonce, now := ReadAnchoredNonce(rpc, anchor, since);
      if nonce.NonceAnchorChanged? { return BootstrapAnchorChanged(nonce.observed); }
      if nonce.NonceThrew? { return BootstrapThrew; }
      var latest, first := rpc.GetLiveCount(false, now);
      if latest.None? || latest.value > MAX_SAFE_INTEGER { return BootstrapThrew; }
      var pending, second := rpc.GetLiveCount(true, first);
      if pending.None? || pending.value > MAX_SAFE_INTEGER { return BootstrapThrew; }
      var closing, _ := rpc.CheckAnchor(anchor, second);
      if closing.Changed? { return BootstrapAnchorChanged(closing.observed); }
      if closing.Unreadable? { return BootstrapThrew; }
      assert CountedLive(rpc, since, nonce.observation, latest.value, pending.value);
      if latest.value != nonce.observation.nonce || pending.value != nonce.observation.nonce {
        return BootstrapDeferred(nonce.observation, latest.value, pending.value);
      }
      return Ready(nonce.observation);
    }

    /** A deferral is of a missing journal, on counts that disagree. */
    ghost predicate DeferredOnCounts(rpc: Rpc, anchor: Anchor, before: Option<Snapshot>, r: RecoveryInspection) {
      r.RecoveryDeferred? ==>
        before.None? && BootstrapWitnessed(rpc, 0, anchor, BootstrapDeferred(r.observation, r.latest, r.pending))
    }

    /** The catch and finally blocks of an operation that was saving. */
    method FailSave(ghost chain: Chain, ghost next: Snapshot, r: Persisting, ghost c: State, ghost before: seq<Event>)
      returns (ghost events: seq<Event>)
      requires r.Rejected? || r.NotConfirmed?
      requires persistence.Valid() && persistence.store.identity == identity && !persistence.state.Writing?
      requires pendingWrite.Some? && (persistence.state.Idle? <==> r.Rejected?)
      requires r.NotConfirmed? ==> persistence.pending == Some(next)
      requires owner.Some? ==> owner.value.generation == generation && !owner.value.abandoning
      requires Withdrawn(InFlight(next, persistence.current, !r.Rejected?))
      requires Performs(chain, c, before, InFlight(next, persistence.current, !r.Rejected?))
      modifies this`pendingWrite, this`busy, this`task, this`owner, this`permit, this`inclusionChecksComplete
      ensures Valid() && Performs(chain, c, events, View())
      ensures owner.Some? == old(owner).Some?
      ensures |events| == |before| + 1 && before <= events
      ensures AllQuiet(before) ==> AllQuiet(events)
    {
      hide Performs;
      hide Advance;
      hide Settle;
      hide Possible;
      hide Shows;
      hide Journal.Valid;
      ghost var saving := InFlight(next, persistence.current, !r.Rejected?);
      if r.Rejected? { RejectedSave(saving); } else { UnconfirmedSave(saving); }
      ghost var e := if r.Rejected? then VerificationFailed else StoreFailed;
      PerformsFailure(chain, c, before, saving, e);
      events := before + [e];
      if persistence.state.Idle? { pendingWrite := None; }
      Conclude(true);
    }

    predicate Sane(range: nat) { 0 < range < UINT256_LIMIT }

    method Recover(rpc: Rpc, g: nat, anchor: Anchor, range: nat)
      returns (r: Completion<RecoveryInspection>, ghost events: seq<Event>)
      requires Valid()
      modifies this, persistence, persistence.store.directory
      ensures !r.Killed? ==> Valid() && Performs(rpc.chain, old(View()), events, View())
      ensures r.Returned? ==> old(View()).WorkAllowed(g) && Sane(range)
      ensures r.Returned? ==> QueueAfter(r.value, old(persistence.current), persistence.current)
      ensures !r.Killed? ==> |events| > 0 && events[0] == Call(g, Request.Recover(anchor, range))
      ensures r.Returned? ==> RecoveredTo(old(persistence.current), old(latched), r.value, persistence.current, recoveryComplete)
      ensures r.Returned? ==> DeferredOnCounts(rpc, anchor, old(persistence.current), r.value)
      ensures AllQuiet(events)
    {
      hide RecoveredTo;
      hide DeferredOnCounts;
      hide Possible;
      hide Performs;
      hide Advance;
      var request := Request.Recover(anchor, range);
      ghost var c := View();
      PerformsNone(rpc.chain, c);
      events := [];
      Called(c, g, request);
      PerformsFree(rpc.chain, c, events, c, Call(g, request));
      events := events + [Call(g, request)];
      var ok := EnterOperation(g, request);
      if !ok { return Threw, events; }
      r, events := RecoverOwned(rpc, g, anchor, range, c, events);
    }

    method RecoverOwned(rpc: Rpc, g: nat, anchor: Anchor, range: nat, ghost c: State, ghost before: seq<Event>)
      returns (r: Completion<RecoveryInspection>, ghost events: seq<Event>)
      requires Queueing(g, Request.Recover(anchor, range)) && Performs(rpc.chain, c, before, View())
      modifies this, persistence, persistence.store.directory
      ensures !r.Killed? ==> Valid() && Performs(rpc.chain, c, events, View())
      ensures r.Returned? ==> Sane(range)
      ensures r.Returned? ==> QueueAfter(r.value, old(persistence.current), persistence.current)
      ensures !r.Killed? ==> before <= events
      ensures r.Returned? ==> RecoveredTo(old(persistence.current), old(latched), r.value, persistence.current, recoveryComplete)
      ensures r.Returned? ==> DeferredOnCounts(rpc, anchor, old(persistence.current), r.value)
      ensures AllQuiet(before) ==> AllQuiet(events)
    {
      hide RecoveredTo;
      hide DeferredOnCounts;
      hide QueueAfter;
      hide Possible;
      hide Performs;
      hide Shows;
      hide Journal.Valid;
      hide Advance;
      PerformsFree(rpc.chain, c, before, View(), Start);
      events := before + [Start];
      var started := StartRecovery(g, anchor, range);
      if !started { return Threw, events; }
      if persistence.current.None? {
        r, events := RecoverMissing(rpc, anchor, c, events);
      } else {
        r, events := RecoverPresent(rpc, anchor, range, c, events);
      }
    }

    /** The guards of a recovery and the authorizations it takes back. */
    method StartRecovery(g: nat, anchor: Anchor, range: nat) returns (started: bool)
      requires Queueing(g, Request.Recover(anchor, range))
      modifies this`owner, this`permit, this`busy, this`recoveryComplete, this`inclusionChecksComplete, this`task
      ensures View() == Advance(old(View()), Start)
      ensures !started ==> Valid()
      ensures started ==> Sane(range) && Working() && busy && !recoveryComplete && !inclusionChecksComplete
      ensures started ==> task == if persistence.current.None? then Bootstrapping(anchor) else Recovering(anchor, range)
    {
      hide Shows;
      hide Journal.Valid;
      hide Advance;
      hide Settle;
      StartedRecovery(View());
      owner := Some(owner.value.(hasRun := true));
      if !Sane(range) || pendingWrite.Some? || !persistence.state.Idle? {
        Conclude(true);
        return false;
      }
      permit, busy, recoveryComplete, inclusionChecksComplete := None, true, false, false;
      if persistence.current.Some? {
        task := Recovering(anchor, range);
      } else if latched == {} {
        task := Bootstrapping(anchor);
      } else {
        Conclude(true);
        return false;
      }
      return true;
    }

    /** Inside an operation of a handle that passed its guards. */
    ghost predicate Working()
      reads this, persistence, persistence.store.directory
    {
      && persistence.Valid() && persistence.store.identity == identity && persistence.state.Idle? && pendingWrite.None?
      && owner.Some? && owner.value.active && !owner.value.abandoning && owner.value.generation == generation
    }

    method RecoverMissing(rpc: Rpc, anchor: Anchor, ghost c: State, ghost before: seq<Event>)
      returns (r: Completion<RecoveryInspection>, ghost events: seq<Event>)
      requires Working() && task == Bootstrapping(anchor) && persistence.current.None? && busy && !recoveryComplete
      requires Performs(rpc.chain, c, before, View())
      modifies this, persistence, persistence.store.directory
      ensures !r.Killed? ==> Valid() && Performs(rpc.chain, c, events, View())
      ensures r.Returned? ==> QueueAfter(r.value, old(persistence.current), persistence.current)
      ensures !r.Killed? ==> before <= events
      ensures r.Returned? ==> RecoveredTo(old(persistence.current), old(latched), r.value, persistence.current, recoveryComplete)
      ensures r.Returned? ==> DeferredOnCounts(rpc, anchor, old(persistence.current), r.value)
      ensures AllQuiet(before) ==> AllQuiet(events)
    {
      hide Possible;
      hide Shows;
      hide Journal.Valid;
      hide Performs;
      hide Advance;
      hide Settle;
      hide FinishWrite;
      var result := InspectSignerBootstrap(rpc, anchor, 0);
      RepliedBootstrap(View(), result);
      PerformsBootstrap(rpc.chain, c, before, View(), result);
      events := before + [BootstrapReply(result)];
      hide BootstrapWitnessed;
      if result.Ready? {
        r, events := SaveBaseline(rpc.chain, result.observation, c, events);
      } else {
        r := LeaveMissing(result);
      }
    }

    /** Without a baseline the pass ends with the decision itself and writes nothing. */
    method LeaveMissing(result: BootstrapRead) returns (r: Completion<RecoveryInspection>)
      requires Working() && !result.Ready?
      modifies this
      ensures Valid() && View() == Settle(old(View()).(recoveryComplete := false), result.BootstrapThrew?) && !recoveryComplete
      ensures r == match result
                   case BootstrapDeferred(o, latest, pending) => Returned(RecoveryDeferred(o, latest, pending))
                   case BootstrapAnchorChanged(observed) => Returned(RecoveryAnchorChanged(observed))
                   case _ => Threw
    {
      hide Shows;
      hide Journal.Valid;
      hide Settle;
      recoveryComplete := false;
      Conclude(result.BootstrapThrew?);
      match result {
        case BootstrapDeferred(o, latest, pending) => r := Returned(RecoveryDeferred(o, latest, pending));
        case BootstrapAnchorChanged(observed) => r := Returned(RecoveryAnchorChanged(observed));
        case _ => r := Threw;
      }
    }

    /** The first journal, at the baseline. */
    method SaveBaseline(ghost chain: Chain, o: Observation, ghost c: State, ghost before: seq<Event>)
      returns (r: Completion<RecoveryInspection>, ghost events: seq<Event>)
      requires Working() && persistence.current.None? && busy && !recoveryComplete
      requires Performs(chain, c, before, StartSave(View(), Bootstrap(identity, o), PBootstrap, AfterBootstrap))
      modifies this, persistence, persistence.store.directory
      ensures !r.Killed? ==> Valid() && Performs(chain, c, events, View()) && before <= events
      ensures r.Returned? ==> r.value == NoAttempt(o) && persistence.current == Some(Bootstrap(identity, o)) && recoveryComplete
      ensures AllQuiet(before) ==> AllQuiet(events)
    {
      hide Performs;
      hide Shows;
      hide Advance;
      hide Settle;
      hide FinishWrite;
      hide Journal.Valid;
      var next := Bootstrap(identity, o);
      var saved: Persisting;
      saved, events := Persist(chain, next, PBootstrap, AfterBootstrap, c, before);
      if saved.Crashed? { return Killed, events; }
      if !saved.Committed? {
        recoveryComplete := false;
        events := FailSave(chain, next, saved, c, events);
        return Threw, events;
      }
      events := CompleteBootstrap(chain, next, c, events);
      return Returned(NoAttempt(o)), events;
    }

    method CompleteBootstrap(ghost chain: Chain, ghost next: Snapshot, ghost c: State, ghost before: seq<Event>)
      returns (ghost events: seq<Event>)
      requires Acknowledging(next) && task.continuation.AfterBootstrap? && owner.Some?
      requires Performs(chain, c, before, InFlight(next, None, true))
      modifies this
      ensures Valid() && Performs(chain, c, events, View())
      ensures recoveryComplete && events == before + [StoreSaved]
      ensures AllQuiet(before) ==> AllQuiet(events)
    {
      hide Shows;
      hide Journal.Valid;
      hide Possible;
      hide LatchSearch;
      hide Performs;
      hide Advance;
      hide Settle;
      hide FinishWrite;
      ghost var saving := InFlight(next, None, true);
      BootstrapSaved(saving);
      PerformsSaved(chain, c, before, saving);
      events := before + [StoreSaved];
      recoveryComplete := true;
      assert View() == Stored(saving, next).(recoveryComplete := true);
      CompleteWrite();
      Conclude(false);
    }

    /** A save was acknowledged and its operation has not run on yet. */
    ghost predicate Acknowledging(next: Snapshot)
      reads this, persistence, persistence.store.directory
    {
      && persistence.Valid() && persistence.store.identity == identity
      && persistence.state.Idle? && persistence.current == Some(next)
      && pendingWrite.Some? && task.Saving? && task.next == next
      && (owner.Some? ==> !owner.value.abandoning && owner.value.generation == generation)
    }

    /** Inspects the oldest attempt and plans what to write. */
    method PlanFrom(rpc: Rpc, s: Snapshot, anchor: Anchor, range: nat) returns (result: RecoveryInspection, plan: Plan, ok: bool)
      requires Journal.Valid(s) && s.identity == identity
      ensures RecoveryAnswers(rpc.chain, s, anchor, range, result) && !result.RecoveryDeferred?
      ensures plan == if result.RecoveryThrew? then InternalError else PlanRecovery(s, latched, result)
      ensures ok <==> plan.Store? && Journal.Valid(plan.next)
    {
      hide Journal.Valid;
      hide PlanRecovery;
      hide RecoveryAnswers;
      var looked, _, _, _ := InspectSignerRecovery(rpc, s, anchor, range, 0);
      result := looked;
      OnlyMissingIsDeferred(rpc.chain, s, anchor, range, result);
      plan := if result.RecoveryThrew? then InternalError else PlanRecovery(s, latched, result);
      ok := false;
      if plan.Store? { ok := ValidateStructure(plan.next, identity); }
    }

    method RecoverPresent(rpc: Rpc, anchor: Anchor, range: nat, ghost c: State, ghost before: seq<Event>)
      returns (r: Completion<RecoveryInspection>, ghost events: seq<Event>)
      requires Working() && task == Recovering(anchor, range) && persistence.current.Some? && busy && !recoveryComplete
      requires Performs(rpc.chain, c, before, View())
      modifies this, persistence, persistence.store.directory
      ensures !r.Killed? ==> Valid() && Performs(rpc.chain, c, events, View())
      ensures r.Returned? ==> QueueAfter(r.value, old(persistence.current), persistence.current)
      ensures !r.Killed? ==> before <= events
      ensures r.Returned? ==> RecoveredTo(old(persistence.current), old(latched), r.value, persistence.current, recoveryComplete)
      ensures r.Returned? ==> DeferredOnCounts(rpc, anchor, old(persistence.current), r.value)
      ensures AllQuiet(before) ==> AllQuiet(events)
    {
      hide Journal.Valid;
      hide Performs;
      hide Shows;
      hide RecoveryAnswers;
      hide Advance;
      hide Settle;
      hide FinishWrite;
      hide PlanRecovery;
      var s := persistence.current.value;
      var result, plan, ok := PlanFrom(rpc, s, anchor, range);
      PlannedQueue(s, latched, result);
      RepliedRecovery(View(), result);
      PerformsOne(rpc.chain, c, before, View(), RecoveryReply(result));
      events := before + [RecoveryReply(result)];
      if plan.Report? {
        Conclude(false);
        return Returned(result), events;
      }
      if !ok {
        recoveryComplete := false;
        Conclude(true);
        return Threw, events;
      }
      r, events := SaveRecovery(rpc.chain, s, plan, result, c, events);
    }

    method SaveRecovery(ghost chain: Chain, s: Snapshot, plan: Plan, result: RecoveryInspection, ghost c: State, ghost before: seq<Event>)
      returns (r: Completion<RecoveryInspection>, ghost events: seq<Event>)
      requires Working() && persistence.current == Some(s) && busy && !recoveryComplete && plan.Store?
      requires Performs(chain, c, before, StartSave(View(), plan.next, plan.kind, AfterRecovery(result)))
      modifies this, persistence, persistence.store.directory
      ensures !r.Killed? ==> Valid() && Performs(chain, c, events, View()) && before <= events
      ensures r.Returned? ==> r.value == result && persistence.current == Some(plan.next) && recoveryComplete
      ensures AllQuiet(before) ==> AllQuiet(events)
    {
      hide Performs;
      hide Shows;
      hide Advance;
      hide Settle;
      hide FinishWrite;
      var saved: Persisting;
      saved, events := Persist(chain, plan.next, plan.kind, AfterRecovery(result), c, before);
      if saved.Crashed? { return Killed, events; }
      if !saved.Committed? {
        recoveryComplete := false;
        events := FailSave(chain, plan.next, saved, c, events);
        return Threw, events;
      }
      events := CompleteRecovery(chain, s, plan.next, result, c, events);
      return Returned(result), events;
    }

    method CompleteRecovery(ghost chain: Chain, s: Snapshot, ghost next: Snapshot, r: RecoveryInspection, ghost c: State, ghost before: seq<Event>)
      returns (ghost events: seq<Event>)
      requires Acknowledging(next) && task.continuation == AfterRecovery(r) && owner.Some?
      requires Performs(chain, c, before, InFlight(next, Some(s), true))
      modifies this
      ensures Valid() && Performs(chain, c, events, View())
      ensures recoveryComplete && events == before + [StoreSaved]
      ensures AllQuiet(before) ==> AllQuiet(events)
    {
      hide Shows;
      hide Journal.Valid;
      hide Possible;
      hide LatchSearch;
      hide Performs;
      hide Advance;
      hide Settle;
      hide FinishWrite;
      ghost var saving := InFlight(next, Some(s), true);
      RecoverySaved(saving);
      PerformsSaved(chain, c, before, saving);
      events := before + [StoreSaved];
      recoveryComplete := true;
      assert View() == Stored(saving, next).(recoveryComplete := true);
      CompleteWrite();
      if RecoveryPermits(s, r) && latched == {} { permit := Some(s.attempts[0].id); }
      Conclude(false);
    }

    // Inclusion checks

    method FailOpenBracket()
      modifies this`owner, this`permit, this`inclusionChecksComplete
      ensures View() == FailBracket(old(View()))
    {
      if owner.Some? && owner.value.bracket.OpenBracket? {
        owner := Some(owner.value.(bracket := FailedBracket));
        permit, inclusionChecksComplete := None, false;
      }
    }

    method CheckInclusions(rpc: Rpc, g: nat, head: Anchor, range: Option<nat>)
      returns (r: Completion<InclusionInspection>, ghost events: seq<Event>)
      requires Valid()
      modifies this, persistence, persistence.store.directory
      ensures !r.Killed? ==> Valid() && Performs(rpc.chain, old(View()), events, View())
      ensures r.Returned? ==> old(View()).WorkAllowed(g)
      ensures !r.Killed? ==> |AttemptsOf(persistence.current)| == |AttemptsOf(old(persistence.current))|
      ensures !r.Killed? ==> |events| > 0 && events[0] == Call(g, Request.CheckInclusions(head, range))
      ensures r.Returned? && r.value.Inspected? ==>
          inclusionChecksComplete == r.value.complete && persistence.current.Some? && persistence.current.value.attempts == r.value.attempts
      ensures r.Returned? && !r.value.Inspected? ==> !inclusionChecksComplete && persistence.current == old(persistence.current)
      ensures AllQuiet(events)
    {
      hide Possible;
      hide Performs;
      hide Advance;
      var request := Request.CheckInclusions(head, range);
      ghost var c := View();
      PerformsNone(rpc.chain, c);
      events := [];
      Called(c, g, request);
      PerformsFree(rpc.chain, c, events, c, Call(g, request));
      events := events + [Call(g, request)];
      var ok := EnterOperation(g, request);
      if !ok { return Threw, events; }
      r, events := CheckInclusionsOwned(rpc, g, head, range, c, events);
    }

    method CheckInclusionsOwned(rpc: Rpc, g: nat, head: Anchor, range: Option<nat>, ghost c: State, ghost before: seq<Event>)
      returns (r: Completion<InclusionInspection>, ghost events: seq<Event>)
      requires Queueing(g, Request.CheckInclusions(head, range)) && Performs(rpc.chain, c, before, View())
      modifies this, persistence, persistence.store.directory
      ensures !r.Killed? ==> Valid() && Performs(rpc.chain, c, events, View())
      ensures !r.Killed? ==> |AttemptsOf(persistence.current)| == |AttemptsOf(old(persistence.current))|
      ensures !r.Killed? ==> before <= events
      ensures r.Returned? && r.value.Inspected? ==>
          inclusionChecksComplete == r.value.complete && persistence.current.Some? && persistence.current.value.attempts == r.value.attempts
      ensures r.Returned? && !r.value.Inspected? ==> !inclusionChecksComplete && persistence.current == old(persistence.current)
      ensures AllQuiet(before) ==> AllQuiet(events)
    {
      hide JournalPersistence.Valid;
      hide Possible;
      hide Performs;
      hide Shows;
      hide Journal.Valid;
      hide Advance;
      hide Settle;
      PerformsFree(rpc.chain, c, before, View(), Start);
      events := before + [Start];
      var started := StartChecking(g, head, range);
      if !started { return Threw, events; }
      r, events := InspectInclusions(rpc, head, range, c, events);
    }

    /** Takes back the authorization and starts, unless a write is pending or the open
        bracket is of another head. */
    method StartChecking(g: nat, head: Anchor, range: Option<nat>) returns (started: bool)
      requires Queueing(g, Request.CheckInclusions(head, range))
      modifies this`owner, this`task, this`busy, this`permit, this`inclusionChecksComplete
      ensures View() == Advance(old(View()), Start)
      ensures started ==> Working() && task == Inspecting(head) && persistence.current.Some? && busy && !inclusionChecksComplete
      ensures !started ==> Valid()
    {
      hide Shows;
      hide Journal.Valid;
      hide JournalPersistence.Valid;
      hide Advance;
      hide Settle;
      StartedInclusions(View());
      owner := Some(owner.value.(hasRun := true));
      if pendingWrite.Some? || !persistence.state.Idle? || persistence.current.None? {
        Conclude(true);
        return false;
      }
      permit, inclusionChecksComplete, busy := None, false, true;
      var bracket := owner.value.bracket;
      if bracket.OpenBracket? && bracket.head != head {
        Conclude(true);
        return false;
      }
      task := Inspecting(head);
      return true;
    }

    method InspectInclusions(rpc: Rpc, head: Anchor, range: Option<nat>, ghost c: State, ghost before: seq<Event>)
      returns (r: Completion<InclusionInspection>, ghost events: seq<Event>)
      requires Working() && task == Inspecting(head) && persistence.current.Some? && busy && !inclusionChecksComplete
      requires Performs(rpc.chain, c, before, View())
      modifies this, persistence, persistence.store.directory
      ensures !r.Killed? ==> Valid() && Performs(rpc.chain, c, events, View())
      ensures !r.Killed? ==> |AttemptsOf(persistence.current)| == |AttemptsOf(old(persistence.current))|
      ensures !r.Killed? ==> before <= events
      ensures r.Returned? && r.value.Inspected? ==>
          inclusionChecksComplete == r.value.complete && persistence.current.Some? && persistence.current.value.attempts == r.value.attempts
      ensures r.Returned? && !r.value.Inspected? ==> !inclusionChecksComplete && persistence.current == old(persistence.current)
      ensures AllQuiet(before) ==> AllQuiet(events)
    {
      hide Journal.Valid;
      hide Performs;
      hide Advance;
      hide Settle;
      hide InclusionAnswers;
      hide PassResult;
      hide AllSupported;
      hide SearchesAnswer;
      hide Counted;
      hide AllQuiet;
      hide Possible;
      hide Shows;
      var s := persistence.current.value;
      var bracketed := owner.value.bracket.OpenBracket?;
      var result, read, _, _ := InspectSignerInclusions(rpc, s, head, range, !bracketed, 0);
      var closing := Same;
      if bracketed && result.Inspected? {
        var again, _ := rpc.CheckAnchor(head, read);
        closing := again;
      }
      if result.Inspected? { SameLength(rpc.chain, s, head, result); }
      PerformsInclusions(rpc.chain, c, before, View(), result, closing);
      events := before + [InclusionsReply(result, closing)];
      QuietMore(before, InclusionsReply(result, closing));
      if result.InclusionThrew? || (result.Inspected? && bracketed && closing.Unreadable?) {
        AbortInclusions(result, closing);
        return Threw, events;
      }
      if !result.Inspected? || (bracketed && closing.Changed?) {
        RejectInclusions(result, closing);
        return Returned(if result.Inspected? then HeadChanged(closing.observed) else result), events;
      }
      r, events := SaveInclusions(rpc.chain, s, result, closing, c, events);
    }

    /** The pass or the closing read of the head failed. */
    method AbortInclusions(result: InclusionInspection, closing: AnchorCheck)
      requires Working() && task.Inspecting? && persistence.current.Some? && !inclusionChecksComplete
      requires result.InclusionThrew? || (result.Inspected? && BracketOpen(View()) && closing.Unreadable?)
      modifies this`owner, this`permit, this`inclusionChecksComplete, this`busy, this`task
      ensures Valid() && View() == Advance(old(View()), InclusionsReply(result, closing))
    {
      hide Advance;
      hide Settle;
      RepliedInclusions(View(), result, closing);
      inclusionChecksComplete := false;
      Conclude(true);
    }

    /** The head or the counts contradict the pass: nothing is saved. */
    method RejectInclusions(result: InclusionInspection, closing: AnchorCheck)
      requires Working() && task.Inspecting? && persistence.current.Some? && !inclusionChecksComplete
      requires !result.InclusionThrew? && (result.Inspected? ==> BracketOpen(View()) && closing.Changed?)
      modifies this`owner, this`permit, this`inclusionChecksComplete, this`recoveryComplete, this`busy, this`task
      ensures Valid() && View() == Advance(old(View()), InclusionsReply(result, closing))
      ensures !inclusionChecksComplete
    {
      hide Advance;
      hide Settle;
      RepliedInclusions(View(), result, closing);
      FailOpenBracket();
      if result.HeadNonceBehind? || result.HeadInconsistent? { recoveryComplete := false; }
      Conclude(false);
    }

    method SaveInclusions(ghost chain: Chain, s: Snapshot, result: InclusionInspection, ghost closing: AnchorCheck,
                          ghost c: State, ghost before: seq<Event>)
      returns (r: Completion<InclusionInspection>, ghost events: seq<Event>)
      requires Working() && task.Inspecting? && persistence.current == Some(s) && !inclusionChecksComplete
      requires result.Inspected? && |result.attempts| == |s.attempts| && (owner.value.bracket.OpenBracket? ==> closing.Same?)
      requires Performs(chain, c, before, Advance(View(), InclusionsReply(result, closing)))
      modifies this, persistence, persistence.store.directory
      ensures !r.Killed? ==> Valid() && Performs(chain, c, events, View())
      ensures !r.Killed? ==> |AttemptsOf(persistence.current)| == |AttemptsOf(old(persistence.current))|
      ensures !r.Killed? ==> before <= events
      ensures r.Returned? && r.value.Inspected? ==>
          inclusionChecksComplete == r.value.complete && persistence.current.Some? && persistence.current.value.attempts == r.value.attempts
      ensures r.Returned? && !r.value.Inspected? ==> !inclusionChecksComplete && persistence.current == old(persistence.current)
      ensures AllQuiet(before) ==> AllQuiet(events)
    {
      hide AllQuiet;
      hide Performs;
      hide Shows;
      hide Advance;
      hide Settle;
      hide Journal.Valid;
      RepliedInclusions(View(), result, closing);
      var next := PlanInclusions(s, latched, result);
      assert next.attempts == result.attempts;
      hide PlanInclusions;
      var ok := ValidateStructure(next, identity);
      if !ok {
        inclusionChecksComplete := false;
        Conclude(true);
        return Threw, before;
      }
      r, events := StoreInclusions(chain, s, next, result, c, before);
    }

    method StoreInclusions(ghost chain: Chain, ghost s: Snapshot, next: Snapshot,
                           result: InclusionInspection, ghost c: State, ghost before: seq<Event>)
      returns (r: Completion<InclusionInspection>, ghost events: seq<Event>)
      requires Working() && persistence.current == Some(s) && !inclusionChecksComplete && result.Inspected? && |next.attempts| == |s.attempts|
      requires Performs(chain, c, before, StartSave(View(), next, PObservation, AfterInclusions(result)))
      modifies this, persistence, persistence.store.directory
      ensures !r.Killed? ==> Valid() && Performs(chain, c, events, View()) && before <= events
      ensures !r.Killed? ==> |AttemptsOf(persistence.current)| == |s.attempts|
      ensures r.Returned? ==> r.value == result && inclusionChecksComplete == result.complete && persistence.current == Some(next)
      ensures AllQuiet(before) ==> AllQuiet(events)
    {
      hide AllQuiet;
      hide Performs;
      hide Shows;
      hide Advance;
      hide Settle;
      hide Journal.Valid;
      var saved: Persisting;
      saved, events := Persist(chain, next, PObservation, AfterInclusions(result), c, before);
      if saved.Crashed? { return Killed, events; }
      if !saved.Committed? {
        inclusionChecksComplete := false;
        events := FailSave(chain, next, saved, c, events);
        return Threw, events;
      }
      events := CompleteInclusions(chain, s, next, result, c, events);
      return Returned(result), events;
    }

    method CompleteInclusions(ghost chain: Chain, ghost s: Snapshot, next: Snapshot, result: InclusionInspection,
                              ghost c: State, ghost before: seq<Event>)
      returns (ghost events: seq<Event>)
      requires Acknowledging(next) && task.continuation == AfterInclusions(result) && owner.Some? && result.Inspected?
      requires Performs(chain, c, before, InFlight(next, Some(s), true))
      modifies this
      ensures Valid() && Performs(chain, c, events, View())
      ensures inclusionChecksComplete == result.complete && before <= events
      ensures AllQuiet(before) ==> AllQuiet(events)
    {
      hide *;
      ghost var saving := InFlight(next, Some(s), true);
      PerformsSaved(chain, c, before, saving);
      events := before + [StoreSaved];
      ApplyInclusions(s, next, result);
    }

    /** What a stored pass sets: its own completeness, the permit it offers, and the
        closed bracket. */
    method ApplyInclusions(ghost s: Snapshot, next: Snapshot, result: InclusionInspection)
      requires Acknowledging(next) && task.continuation == AfterInclusions(result) && owner.Some? && result.Inspected?
      modifies this
      ensures Valid() && View() == Advance(old(InFlight(next, Some(s), true)), StoreSaved)
      ensures inclusionChecksComplete == result.complete
    {
      hide DurableFiles.Directory.Valid;
      hide Shows;
      hide Journal.Valid;
      hide LatchSearch;
      hide Advance;
      hide Settle;
      hide FinishWrite;
      ghost var saving := InFlight(next, Some(s), true);
      InclusionsSaved(saving);
      inclusionChecksComplete := result.complete;
      assert View() == Stored(saving, next).(inclusionChecksComplete := result.complete);
      CompleteWrite();
      OfferPermit(next, result);
      CloseBracket();
      Conclude(false);
    }

    method CloseBracket()
      modifies this`owner
      ensures View() == Closed(old(View()))
    {
      if owner.Some? && owner.value.bracket.OpenBracket? { owner := Some(owner.value.(bracket := ClosedBracket)); }
    }

    /** The permit a stored pass offers, when nothing else stands in the way. */
    method OfferPermit(next: Snapshot, result: InclusionInspection)
      modifies this`permit
      ensures var offered := recoveryComplete && latched == {} && InclusionsPermit(next, result);
        View() == if offered then old(View()).(permit := Some(next.attempts[OldestUnresolved(next.attempts)].id)) else old(View())
    {
      if recoveryComplete && latched == {} && InclusionsPermit(next, result) {
        permit := Some(next.attempts[OldestUnresolved(next.attempts)].id);
      }
    }

    method RetryPersistence(ghost chain: Chain) returns (r: Completion<()>, ghost events: seq<Event>)
      requires Valid()
      modifies this, persistence, persistence.store.directory
      ensures !r.Killed? ==> Valid() && Performs(chain, old(View()), events, View())
      ensures r.Returned? ==> old(pendingWrite).Some? && persistence.state.Idle? && persistence.current == old(persistence.pending)
      ensures !r.Killed? ==> inclusionChecksComplete == old(inclusionChecksComplete)
      ensures !r.Killed? ==> (events == [] <==> !(old(owner).None? && old(pendingWrite).Some? && old(persistence.state).Broken?))
      ensures AllQuiet(events)
    {
      hide DurableFiles.Directory.Valid;
      hide AllQuiet;
      hide Possible;
      hide Performs;
      hide Advance;
      hide Settle;
      hide FinishWrite;
      hide Shows;
      hide Journal.Valid;
      ghost var c := View();
      PerformsNone(chain, c);
      events := [];
      if owner.Some? || pendingWrite.None? || !persistence.state.Broken? { return Threw, events; }
      PrepareStarted(c, WorkId(""));
      PerformsFree(chain, c, events, c, Event.Retry);
      events := events + [Event.Retry];
      busy, task := true, Retrying;
      ghost var retrying := View().(persistence := Persistence(Writing, persistence.current, persistence.pending));
      RetrySaved(retrying);
      var saved := persistence.Retry();
      if saved.Crashed? { return Killed, events; }
      events := SettleRetry(chain, saved, retrying, c, events);
      return if saved.Committed? then Returned(()) else Threw, events;
    }

    /** The retried write is committed, or fails again. */
    method SettleRetry(ghost chain: Chain, saved: Persisting, ghost retrying: State, ghost c: State, ghost before: seq<Event>)
      returns (ghost events: seq<Event>)
      requires persistence.Valid() && persistence.store.identity == identity && owner.None? && task.Retrying? && pendingWrite.Some?
      requires saved.Committed? || saved.NotConfirmed?
      requires saved.Committed? ==> persistence.state.Idle? && persistence.current == retrying.persistence.pending
      requires saved.NotConfirmed? ==> persistence.state.Broken? && persistence.current == retrying.persistence.current
      requires saved.NotConfirmed? ==> persistence.pending == retrying.persistence.pending
      requires retrying == View().(persistence := retrying.persistence) && AwaitsStore(retrying)
      requires Performs(chain, c, before, retrying)
      modifies this
      ensures Valid() && Performs(chain, c, events, View()) && events != []
      ensures inclusionChecksComplete == old(inclusionChecksComplete)
      ensures AllQuiet(before) ==> AllQuiet(events)
    {
      hide AllQuiet;
      hide Performs;
      hide Advance;
      hide Settle;
      hide FinishWrite;
      hide Shows;
      hide Journal.Valid;
      RetrySaved(retrying);
      if saved.Committed? {
        PerformsSaved(chain, c, before, retrying);
        events := before + [StoreSaved];
        CompleteWrite();
        Conclude(false);
      } else {
        PerformsFree(chain, c, before, retrying, StoreFailed);
        events := before + [StoreFailed];
        Conclude(true);
      }
    }

    /** Every file a power loss could really leave shows a journal image of the run the
        object stands for. */
    lemma FilesAreImages(chain: Chain, w: World, f: DurableFiles.File<Serialization.Json>) returns (left: Option<Snapshot>)
      requires Valid() && Lives(chain, w, View()) && f in persistence.store.directory.surviving
      ensures InSurviving(w.out, left) && Shows(f, identity, persistence.store.checks, left)
    {
      hide Shows;
      hide Journal.Valid;
      hide DiskInv;
      hide SendsInv;
      hide FactsInv;
      hide TaskInv;
      left := if Shows(f, identity, persistence.store.checks, persistence.current) then persistence.current else persistence.pending;
    }

    /** So each of them still remembers every transaction that was sent. */
    lemma FilesRememberSends(chain: Chain, w: World, f: DurableFiles.File<Serialization.Json>, i: nat) returns (s: Snapshot)
      requires Valid() && Lives(chain, w, View()) && f in persistence.store.directory.surviving && i < |w.out.sends|
      ensures Shows(f, identity, persistence.store.checks, Some(s)) && SignerSafety.RemembersSend(s, w.out.sends[i])
    {
      hide *;
      var left := FilesAreImages(chain, w, f);
      LivesInv(chain, w, View());
      SignerSafety.ImagesRemember(chain, w, i, left);
      s := left.value;
    }

    // Preparing and broadcasting

    predicate GateOpen()
      reads this, persistence
      ensures GateOpen() == View().GateOpen()
    {
      EvaluateSignerGate(persistence.state, persistence.current, recoveryComplete, inclusionChecksComplete, capacity, latched).open
      && !busy && owner.None?
    }

    /** Whether the oldest unresolved attempt has a one-use broadcast permit. */
    predicate CanBroadcast()
      reads this, persistence
      ensures CanBroadcast() == View().CanBroadcast()
    {
      if busy || owner.Some? || pendingWrite.Some? || !persistence.state.Idle? || persistence.current.None? then false
      else
        var s := persistence.current.value;
        var k := OldestUnresolved(s.attempts);
        k < |s.attempts| && recoveryComplete && permit == Some(s.attempts[k].id) && latched == {}
        && s.lastObservation.nonce == s.attempts[k].nonce
    }

    method PrepareAttempt(ghost chain: Chain, workId: WorkId) returns (r: Completion<PrepareResult>, ghost events: seq<Event>)
      requires Valid()
      modifies this, persistence, persistence.store.directory
      ensures !r.Killed? ==> Valid() && Performs(chain, old(View()), events, View())
      ensures r.Returned? ==> old(GateOpen()) && old(persistence.current).Some?
      ensures r.Returned? && r.value.AlreadyRetained? ==> View() == old(View())
      ensures r.Returned? ==> (r.value.AlreadyRetained? <==> UsesWork(old(persistence.current).value.attempts, workId))
      ensures !r.Killed? && events != [] ==> events[0] == Prepare(workId)
      ensures !r.Killed? && events == [] ==> !old(GateOpen()) || UsesWork(AttemptsOf(old(persistence.current)), workId)
      ensures r.Returned? && r.value.NewAttempt? ==>
          permit == Some(r.value.id) && persistence.current.Some?
          && Appends(old(persistence.current).value, persistence.current.value, workId, r.value)
    {
      hide Appends;
      hide Journal.Valid;
      hide Shows;
      hide AllQuiet;
      hide JournalPersistence.Valid;
      hide Possible;
      hide Performs;
      hide Advance;
      hide Settle;
      hide FindWork;
      ghost var c := View();
      PerformsNone(chain, c);
      events := [];
      if owner.Some? || busy || pendingWrite.Some? || !persistence.state.Idle? { return Threw, events; }
      GateMeaning(persistence.state, persistence.current, recoveryComplete, inclusionChecksComplete, capacity, latched);
      if !GateOpen() || persistence.current.None? { return Threw, events; }
      var s := persistence.current.value;
      var retained := FindWork(s.attempts, workId);
      if retained.Some? { return Returned(AlreadyRetained(retained.value)), events; }
      PrepareStarted(c, workId);
      PerformsFree(chain, c, events, c, Prepare(workId));
      events := events + [Prepare(workId)];
      permit, busy, task := None, true, Signing(workId);
      r, events := SignAttempt(chain, s, workId, c, events);
    }

    method SignAttempt(ghost chain: Chain, s: Snapshot, workId: WorkId, ghost c: State, ghost before: seq<Event>)
      returns (r: Completion<PrepareResult>, ghost events: seq<Event>)
      requires Direct() && persistence.current == Some(s) && task == Signing(workId) && Performs(chain, c, before, View())
      modifies this, persistence, persistence.store.directory
      ensures !r.Killed? ==> Valid() && Performs(chain, c, events, View())
      ensures r.Returned? ==> r.value.NewAttempt?
      ensures !r.Killed? ==> before <= events && |events| > |before|
      ensures r.Returned? ==> permit == Some(r.value.id) && persistence.current.Some? && Appends(s, persistence.current.value, workId, r.value)
    {
      hide Performs;
      hide Shows;
      hide PlanPrepare;
      hide Appends;
      hide Advance;
      hide Settle;
      var id: Uuid, createdAt: Timestamp, signed: Option<SignedTx> := *, *, *;
      if signed.None? || s.nextNonce > MAX_SAFE_INTEGER {
        SigningDone(View(), id, createdAt, SignedTx(Hash(""), ""));
        PerformsOne(chain, c, before, View(), SigningFails);
        events := before + [SigningFails];
        Conclude(true);
        return Threw, events;
      }
      var next := PlanPrepare(s, id, workId, createdAt, signed.value);
      PreparedAppends(s, id, workId, createdAt, signed.value);
      SigningDone(View(), id, createdAt, signed.value);
      PerformsOne(chain, c, before, View(), Signs(id, createdAt, signed.value));
      events := before + [Signs(id, createdAt, signed.value)];
      var ok := ValidateStructure(next, identity);
      if !ok {
        Conclude(true);
        return Threw, events;
      }
      var saved: Completion<()>;
      saved, events := SaveAttempt(chain, s, next, id, c, events);
      if saved.Killed? { return Killed, events; }
      if saved.Threw? { return Threw, events; }
      return Returned(NewAttempt(id, signed.value.hash, s.nextNonce)), events;
    }

    method SaveAttempt(ghost chain: Chain, ghost s: Snapshot, next: Snapshot, id: Uuid, ghost c: State, ghost before: seq<Event>)
      returns (r: Completion<()>, ghost events: seq<Event>)
      requires Direct() && persistence.current == Some(s)
      requires Performs(chain, c, before,
        StartSave(View().(inclusionChecksComplete := false), next, PPrepared, AfterPrepare(id, inclusionChecksComplete)))
      modifies this, persistence, persistence.store.directory
      ensures !r.Killed? ==> Valid() && Performs(chain, c, events, View()) && before <= events
      ensures r.Returned? ==> permit == Some(id) && persistence.current == Some(next)
    {
      hide Performs;
      hide Shows;
      hide Advance;
      hide Settle;
      ghost var checkedBefore := inclusionChecksComplete;
      var previous := inclusionChecksComplete;
      inclusionChecksComplete := false;
      var saved: Persisting;
      saved, events := Persist(chain, next, PPrepared, AfterPrepare(id, checkedBefore), c, before);
      if saved.Crashed? { return Killed, events; }
      if saved.Committed? {
        events := CompletePreparation(chain, s, next, id, c, events);
        return Returned(()), events;
      }
      events := FailPreparation(chain, next, previous, saved, c, events);
      return Threw, events;
    }

    /** Inside an operation that is not part of an inspection. */
    ghost predicate Direct()
      reads this, persistence, persistence.store.directory
    {
      && persistence.Valid() && persistence.store.identity == identity && persistence.state.Idle? && pendingWrite.None?
      && owner.None? && busy
    }

    method CompletePreparation(ghost chain: Chain, ghost s: Snapshot, ghost next: Snapshot, id: Uuid, ghost c: State, ghost before: seq<Event>)
      returns (ghost events: seq<Event>)
      requires Acknowledging(next) && task.continuation.AfterPrepare? && task.continuation.id == id && owner.None?
      requires Performs(chain, c, before, InFlight(next, Some(s), true))
      modifies this
      ensures Valid() && Performs(chain, c, events, View()) && permit == Some(id)
      ensures |events| == |before| + 1 && before <= events
    {
      hide Shows;
      hide Journal.Valid;
      hide Possible;
      hide LatchSearch;
      hide Performs;
      hide Advance;
      hide FinishWrite;
      ghost var saving := InFlight(next, Some(s), true);
      PreparationSaved(saving);
      PerformsSaved(chain, c, before, saving);
      events := before + [StoreSaved];
      assert View() == Stored(saving, next);
      CompleteWrite();
      permit := Some(id);
      Conclude(false);
    }

    /** A refused snapshot restores the inclusion check; an unconfirmed one closes
        the gate until it is retried and both passes run again. */
    method FailPreparation(ghost chain: Chain, ghost next: Snapshot, previous: bool, r: Persisting, ghost c: State, ghost before: seq<Event>)
      returns (ghost events: seq<Event>)
      requires r.Rejected? || r.NotConfirmed?
      requires persistence.Valid() && persistence.store.identity == identity && !persistence.state.Writing?
      requires pendingWrite.Some? && owner.None? && (persistence.state.Idle? <==> r.Rejected?)
      requires r.NotConfirmed? ==> persistence.pending == Some(next)
      requires task.Saving? && task.continuation.AfterPrepare? && task.continuation.checkedBefore == previous
      requires Performs(chain, c, before, InFlight(next, persistence.current, !r.Rejected?))
      modifies this
      ensures Valid() && Performs(chain, c, events, View())
      ensures |events| == |before| + 1 && before <= events
    {
      hide Shows;
      hide Journal.Valid;
      hide Performs;
      hide Advance;
      hide Possible;
      ghost var saving := InFlight(next, persistence.current, !r.Rejected?);
      if r.Rejected? { PreparationRejected(saving); } else { PreparationUnconfirmed(saving); }
      ghost var e := if r.Rejected? then VerificationFailed else StoreFailed;
      PerformsFailure(chain, c, before, saving, e);
      events := before + [e];
      if persistence.state.Idle? {
        pendingWrite := None;
        inclusionChecksComplete := previous;
      } else {
        recoveryComplete := false;
        inclusionChecksComplete := false;
      }
      Conclude(true);
    }

    /** Uses the permit, marks the attempt durably when it was only signed, and
        only then hands its latest signed bytes to the network. */
    method BroadcastAttempt(rpc: Rpc, id: Uuid) returns (r: Completion<BroadcastResult>, ghost events: seq<Event>)
      requires Valid()
      modifies this, persistence, persistence.store.directory
      ensures !r.Killed? ==> Valid() && Performs(rpc.chain, old(View()), events, View())
      ensures r.Returned? ==> old(CanBroadcast()) && old(permit) == Some(id) && permit.None? && !recoveryComplete
      ensures r.Returned? ==> r.value.id == id && persistence.current.Some? && UsesId(persistence.current.value.attempts, id)
      ensures !r.Killed? ==> |AttemptsOf(persistence.current)| == |AttemptsOf(old(persistence.current))|
      ensures !r.Killed? ==> owner.Some? == old(owner).Some?
      ensures !r.Killed? ==> (events == [] <==> !(old(CanBroadcast()) && old(permit) == Some(id)))
      ensures !r.Killed? && events != [] ==> events[0] == Broadcast(id)
      ensures AllQuiet(events)
    {
      hide Performs;
      hide Advance;
      hide Settle;
      hide Shows;
      hide Possible;
      hide Journal.Valid;
      hide State.CanBroadcast;
      ghost var c := View();
      PerformsNone(rpc.chain, c);
      events := [];
      if owner.Some? || busy || pendingWrite.Some? || !persistence.state.Idle? || persistence.current.None? { return Threw, events; }
      var s := persistence.current.value;
      var k := OldestUnresolved(s.attempts);
      if k == |s.attempts| || s.attempts[k].id != id || !CanBroadcast() { return Threw, events; }
      BroadcastStarted(c, id);
      PerformsBroadcast(rpc.chain, c, events, c, id);
      events := events + [Broadcast(id)];
      permit, recoveryComplete, inclusionChecksComplete, busy := None, false, false, true;
      r, events := TransmitAttempt(rpc.chain, s, id, c, events);
    }

    /** Marks a merely signed attempt first, then sends it. */
    method TransmitAttempt(ghost chain: Chain, s: Snapshot, id: Uuid, ghost c: State, ghost before: seq<Event>)
      returns (r: Completion<BroadcastResult>, ghost events: seq<Event>)
      requires Direct() && persistence.current == Some(s) && permit.None? && !recoveryComplete && !inclusionChecksComplete
      requires OldestUnresolved(s.attempts) < |s.attempts| && s.attempts[OldestUnresolved(s.attempts)].id == id
      requires var started := if s.attempts[OldestUnresolved(s.attempts)].phase.Signed?
                              then StartSave(View(), PlanMark(s), PBroadcast, AfterMark(id)) else View().(task := Sending(id));
        Performs(chain, c, before, started)
      modifies this, persistence, persistence.store.directory
      ensures !r.Killed? ==> Valid() && Performs(chain, c, events, View()) && before <= events
      ensures r.Returned? ==> r.value.id == id && permit.None? && !recoveryComplete
      ensures r.Returned? ==> persistence.current.Some? && UsesId(persistence.current.value.attempts, id)
      ensures !r.Killed? ==> |AttemptsOf(persistence.current)| == |s.attempts| && owner.None?
      ensures AllQuiet(before) ==> AllQuiet(events)
    {
      hide AllQuiet;
      hide Performs;
      hide Advance;
      hide Settle;
      hide Shows;
      hide Journal.Valid;
      hide JournalPersistence.Valid;
      events := before;
      if s.attempts[OldestUnresolved(s.attempts)].phase.Signed? {
        var marked: Completion<()>;
        marked, events := MarkBroadcast(chain, s, id, c, before);
        if marked.Killed? { return Killed, events; }
        if marked.Threw? { return Threw, events; }
      }
      task := Sending(id);
      assert UsesId(s.attempts, id);
      r, events := SendRawTransaction(chain, id, c, events);
    }

    /** Ownership is kept through the request: the pending write is released without
        applying what finishing a write does. */
    method MarkBroadcast(ghost chain: Chain, s: Snapshot, id: Uuid, ghost c: State, ghost before: seq<Event>)
      returns (r: Completion<()>, ghost events: seq<Event>)
      requires Direct() && persistence.current == Some(s) && permit.None? && !recoveryComplete && !inclusionChecksComplete
      requires OldestUnresolved(s.attempts) < |s.attempts| && s.attempts[OldestUnresolved(s.attempts)].id == id
      requires Performs(chain, c, before, StartSave(View(), PlanMark(s), PBroadcast, AfterMark(id)))
      modifies this, persistence, persistence.store.directory
      ensures r.Threw? ==> Valid() && Performs(chain, c, events, View()) && persistence.current == Some(s)
      ensures r.Returned? ==> Direct() && task == Sending(id) && Performs(chain, c, events, View())
      ensures r.Returned? ==> persistence.current == Some(PlanMark(s)) && permit.None? && !recoveryComplete
      ensures UsesId(PlanMark(s).attempts, id)
      ensures !r.Killed? ==> owner.None?
      ensures !r.Killed? ==> before <= events
      ensures AllQuiet(before) ==> AllQuiet(events)
    {
      hide AllQuiet;
      hide Journal.Valid;
      hide Performs;
      hide Shows;
      hide Advance;
      hide Settle;
      var next := PlanMark(s);
      assert next.attempts[OldestUnresolved(s.attempts)].id == id;
      var saved: Persisting;
      saved, events := Persist(chain, next, PBroadcast, AfterMark(id), c, before);
      if saved.Crashed? { return Killed, events; }
      if !saved.Committed? {
        events := FailSave(chain, next, saved, c, events);
        return Threw, events;
      }
      ghost var saving := InFlight(next, Some(s), true);
      MarkSaved(saving);
      PerformsSaved(chain, c, events, saving);
      events := events + [StoreSaved];
      pendingWrite := None;
      task := Sending(id);
      return Returned(()), events;
    }

    method SendRawTransaction(ghost chain: Chain, id: Uuid, ghost c: State, ghost before: seq<Event>)
      returns (r: Completion<BroadcastResult>, ghost events: seq<Event>)
      requires Direct() && task == Sending(id) && Performs(chain, c, before, View())
      modifies this`busy, this`task, this`owner, this`permit, this`inclusionChecksComplete
      ensures Valid() && Performs(chain, c, events, View()) && r.Returned? && r.value.id == id && permit == old(permit)
      ensures owner.Some? == old(owner).Some?
      ensures events == before + [SendReply]
      ensures AllQuiet(before) ==> AllQuiet(events)
    {
      hide Performs;
      hide Advance;
      var acknowledged: bool := *;
      SendReplied(View());
      PerformsOne(chain, c, before, View(), SendReply);
      events := before + [SendReply];
      Conclude(false);
      return Returned(if acknowledged then Acknowledged(id) else NotAcknowledged(id)), events;
    }

    /** What is known of one piece of work: the acknowledged journal first, then the
        attempt of a preparation whose write failed. */
    method CaptureRecording(workId: WorkId) returns (r: Recording)
      ensures r == CaptureSubmissionRecording(View(), workId)
    {
      if persistence.current.Some? {
        var retained := FindWork(persistence.current.value.attempts, workId);
        if retained.Some? { return Retained(retained.value); }
      }
      if pendingWrite == Some(PPrepared) && persistence.state.Broken? && persistence.pending.Some? {
        var failed := FindWork(persistence.pending.value.attempts, workId);
        if failed.Some? { return Uncertain(failed.value); }
      }
      return NotRecorded;
    }
  }
}
