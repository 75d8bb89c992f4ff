/** Submitting one piece of work: recover first, prepare and broadcast through the
    coordinator, and tell a failed caller truthfully what was recorded. */
module TransactionManagers {
  import opened Journal
  import opened JournalStore
  import opened Serialization
  import opened DurableFiles
  import opened Blocks
  import opened SignerGate
  import opened Transitions
  import opened CoordinatorState
  import opened SubmissionRecording
  import opened World
  import opened RunInvariant
  import opened SignerCoordinators
  import opened RetrySchedules
  import opened RecoveryCycle

  datatype SubmitResult =
    | Deferred(primary: Blocker, reasons: seq<Blocker>)
    | Retained(id: Uuid)
    | Submitted(broadcast: BroadcastResult)
    | SubmissionFailed(recording: Recording)
    | InProgress
    | ManagerDied

  datatype ReconciliationReport = Reported(cycle: CycleResult, workId: Option<WorkId>) | ReconciliationFailed | ReportDied

  /** No file that a power loss could leave holds an attempt for the work. */
  ghost predicate NowhereOnDisk(store: FileTransactionJournalStore, workId: WorkId)
    reads store.directory
  {
    forall f, s :: f in store.directory.surviving && Shows(f, store.identity, store.checks, Some(s)) ==> !UsesWork(s.attempts, workId)
  }

  function WorkOf(attempts: seq<Attempt>, id: Uuid): (r: Option<WorkId>)
    ensures r.Some? <==> UsesId(attempts, id)
  {
    if attempts == [] then None
    else if attempts[0].id == id then Some(attempts[0].workId)
    else
      assert UsesId(attempts[1..], id) ==> UsesId(attempts, id) by {
        if UsesId(attempts[1..], id) {
          var k :| 0 <= k < |attempts[1..]| && attempts[1..][k].id == id;
          assert attempts[k + 1].id == id;
        }
      }
      WorkOf(attempts[1..], id)
  }

  class TransactionManager {
    const recovery: SignerRecoveryCycle
    const range: nat
    var busy: bool

    constructor (recovery: SignerRecoveryCycle, range: nat)
      ensures this.recovery == recovery && this.range == range && !busy
    {
      this.recovery, this.range, busy := recovery, range, false;
    }

    /** The report of a cycle that broadcast always names retained work. */
    method Reconcile(rpc: Rpc, head: Anchor, durable: Anchor, ghost w: World) returns (r: ReconciliationReport, ghost w': World)
      requires recovery.Valid() && Lives(rpc.chain, w, recovery.coordinator.View()) && !busy
      modifies this, recovery, recovery.durableSchedule, recovery.schedule
      modifies recovery.coordinator, recovery.coordinator.persistence, recovery.coordinator.persistence.store.directory
      ensures !busy
      ensures !r.ReportDied? ==> recovery.Valid() && Lives(rpc.chain, w', recovery.coordinator.View())
      ensures r.Reported? ==> (r.workId.Some? <==> r.cycle.broadcast.Some?)
      ensures r.Reported? && r.cycle.broadcast.Some? ==> WorkOf(recovery.Attempts(), r.cycle.broadcast.value.id) == r.workId
    {
      hide Lives;
      hide SignerCoordinator.Valid;
      hide SignerCoordinator.View;
      busy := true;
      var cycle: Completion<CycleResult>;
      cycle, w' := recovery.Run(rpc, durable, Some(head), range, w);
      busy := false;
      if cycle.Killed? { return ReportDied, w'; }
      if cycle.Threw? { return ReconciliationFailed, w'; }
      if cycle.value.broadcast.None? { return Reported(cycle.value, None), w'; }
      var workId := WorkOf(recovery.Attempts(), cycle.value.broadcast.value.id);
      if workId.None? {
        assert false;                             // the broadcast attempt is always retained
        return ReconciliationFailed, w';
      }
      return Reported(cycle.value, workId), w';
    }

    method PrepareOnce(ghost chain: Chain, workId: WorkId, ghost w: World) returns (r: Completion<PrepareResult>, ghost w': World)
      requires recovery.coordinator.Valid() && Lives(chain, w, recovery.coordinator.View())
      modifies recovery.coordinator, recovery.coordinator.persistence, recovery.coordinator.persistence.store.directory
      ensures !r.Killed? ==> recovery.coordinator.Valid() && Lives(chain, w', recovery.coordinator.View())
    {
      hide Lives;
      hide SignerCoordinator.Valid;
      hide SignerCoordinator.View;
      hide Performs;
      ghost var c, events := recovery.coordinator.View(), [];
      r, events := recovery.coordinator.PrepareAttempt(chain, workId);
      w' := w;
      if !r.Killed? { w' := LivesOn(chain, w, c, events, recovery.coordinator.View()); }
    }

    /** Prepares fees, records the signed transaction, then broadcasts; cancellation
        between the steps leaves a recorded attempt in the journal. */
    method SubmitTransaction(rpc: Rpc, workId: WorkId, ghost w: World) returns (r: Completion<SubmitResult>, ghost w': World)
      requires recovery.coordinator.Valid() && Lives(rpc.chain, w, recovery.coordinator.View())
      modifies recovery.coordinator, recovery.coordinator.persistence, recovery.coordinator.persistence.store.directory
      ensures !r.Killed? ==> recovery.coordinator.Valid() && Lives(rpc.chain, w', recovery.coordinator.View())
      ensures r.Returned? ==> r.value.Retained? || (r.value.Submitted? && UsesId(recovery.Attempts(), r.value.broadcast.id))
    {
      hide Lives;
      hide SignerCoordinator.Valid;
      hide SignerCoordinator.View;
      w' := w;
      var cancelled: bool := *;
      if cancelled || !recovery.coordinator.GateOpen() { return Threw, w'; }
      var feesPrepared: bool := *;
      cancelled := *;
      if !feesPrepared || cancelled { return Threw, w'; }
      var prepared: Completion<PrepareResult>;
      prepared, w' := PrepareOnce(rpc.chain, workId, w');
      if prepared.Killed? { return Killed, w'; }
      cancelled := *;
      if prepared.Threw? || cancelled { return Threw, w'; }
      if prepared.value.AlreadyRetained? { return Returned(SubmitResult.Retained(prepared.value.id)), w'; }
      var sent: Completion<BroadcastResult>;
      sent, w' := recovery.SendOnce(rpc, prepared.value.id, w');
      if sent.Killed? { return Killed, w'; }
      if sent.Threw? { return Threw, w'; }
      return Returned(Submitted(sent.value)), w';
    }

    /** A failure reports what the journal says about this work once preparation had
        started, and nothing before. A recording is then true of the journal. Work
        reported as unrecorded is in no file any power loss could leave, when preparation
        had started or the caller saw no trace of the work before it submitted. */
    method Submit(rpc: Rpc, workId: WorkId, head: Anchor, durable: Anchor, ghost w: World)
      returns (r: SubmitResult, ghost w': World, ghost preparationStarted: bool)
      requires recovery.Valid() && Lives(rpc.chain, w, recovery.coordinator.View())
      modifies this, recovery, recovery.durableSchedule, recovery.schedule
      modifies recovery.coordinator, recovery.coordinator.persistence, recovery.coordinator.persistence.store.directory
      ensures r.InProgress? <==> old(busy)
      ensures old(busy) ==> busy && recovery.coordinator.View() == old(recovery.coordinator.View())
      ensures !old(busy) ==> !busy
      ensures !r.ManagerDied? ==> recovery.Valid() && Lives(rpc.chain, w', recovery.coordinator.View())
      ensures r.Deferred? ==> !recovery.coordinator.GateOpen()
      ensures r.Submitted? ==> UsesId(recovery.Attempts(), r.broadcast.id)
      ensures r.SubmissionFailed? ==>
        r.recording == SubmissionErrorRecording(preparationStarted, recovery.coordinator.View(), workId)
      ensures r.SubmissionFailed? && preparationStarted ==>
        TrueRecording(r.recording, recovery.coordinator.persistence.state, recovery.coordinator.persistence.current,
                      recovery.coordinator.persistence.pending, workId)
      ensures r.SubmissionFailed? && !preparationStarted ==> BringsNoWork(old(recovery.coordinator.View()), recovery.coordinator.View())
      ensures r == SubmissionFailed(NotRecorded) && (preparationStarted || !old(HoldsAny(recovery.coordinator.View(), workId))) ==>
        NowhereOnDisk(recovery.coordinator.persistence.store, workId)
    {
      hide Lives;
      hide SignerCoordinator.Valid;
      hide TrueRecording;
      hide NowhereOnDisk;
      hide CaptureSubmissionRecording;
      hide BringsNoWork;
      hide HoldsAny;
      w', preparationStarted := w, false;
      ghost var c := recovery.coordinator.View();
      NoWorkYet(c);
      if busy { return InProgress, w', false; }
      busy := true;
      var cycle: Completion<CycleResult> := Threw;
      var cancelled: bool := *;
      if !cancelled { cycle, w' := recovery.Run(rpc, durable, Some(head), range, w'); }
      busy := false;
      if cycle.Killed? { return ManagerDied, w', false; }
      cancelled := *;
      if cycle.Threw? || cancelled {
        StillUnseen(rpc.chain, workId, w', c);
        return SubmissionFailed(NotRecorded), w', false;
      }
      if !recovery.coordinator.GateOpen() {
        var deferred := DeferWork(rpc.chain, w');
        return deferred, w', false;
      }
      var retained := FindWork(recovery.Attempts(), workId);
      if retained.Some? { return SubmitResult.Retained(retained.value), w', false; }
      preparationStarted := true;
      r, w' := SubmitPrepared(rpc, workId, w');
    }

    /** From preparation on a failure's recording is read off the journal. */
    method SubmitPrepared(rpc: Rpc, workId: WorkId, ghost w: World) returns (r: SubmitResult, ghost w': World)
      requires recovery.coordinator.Valid() && Lives(rpc.chain, w, recovery.coordinator.View())
      modifies recovery.coordinator, recovery.coordinator.persistence, recovery.coordinator.persistence.store.directory
      ensures !r.InProgress? && !r.Deferred?
      ensures !r.ManagerDied? ==> recovery.coordinator.Valid() && Lives(rpc.chain, w', recovery.coordinator.View())
      ensures r.Submitted? ==> UsesId(recovery.Attempts(), r.broadcast.id)
      ensures r.SubmissionFailed? ==> r.recording == CaptureSubmissionRecording(recovery.coordinator.View(), workId)
      ensures r.SubmissionFailed? ==>
        TrueRecording(r.recording, recovery.coordinator.persistence.state, recovery.coordinator.persistence.current,
                      recovery.coordinator.persistence.pending, workId)
      ensures r == SubmissionFailed(NotRecorded) ==> NowhereOnDisk(recovery.coordinator.persistence.store, workId)
    {
      hide *;
      var submitted: Completion<SubmitResult>;
      submitted, w' := SubmitTransaction(rpc, workId, w);
      if submitted.Killed? { return ManagerDied, w'; }
      if submitted.Returned? { return submitted.value, w'; }
      var recording := RecordFailure(rpc.chain, workId, w');
      return SubmissionFailed(recording), w';
    }

    /** What was seen nowhere before, and nothing brought, is nowhere now. */
    lemma StillUnseen(chain: Chain, workId: WorkId, w: World, c: State)
      requires recovery.coordinator.Valid() && Lives(chain, w, recovery.coordinator.View())
      requires BringsNoWork(c, recovery.coordinator.View())
      ensures !HoldsAny(c, workId) ==> NowhereOnDisk(recovery.coordinator.persistence.store, workId)
    {
      hide NowhereOnDisk;
      hide Lives;
      if !HoldsAny(c, workId) {
        assert !HoldsAny(recovery.coordinator.View(), workId);
        AbsentFromDisk(workId);
      }
    }

    /** A released coordinator with a closed gate always has a reason to report. */
    method DeferWork(ghost chain: Chain, ghost w: World) returns (r: SubmitResult)
      requires recovery.coordinator.Valid() && Lives(chain, w, recovery.coordinator.View())
      requires !recovery.coordinator.GateOpen() && recovery.coordinator.owner.None?
      ensures r.Deferred? && r.reasons != [] && r.primary == r.reasons[0]
    {
      var c := recovery.coordinator;
      var gate := EvaluateSignerGate(c.persistence.state, c.persistence.current, c.recoveryComplete,
                                     c.inclusionChecksComplete, c.capacity, c.latched);
      GateMeaning(c.persistence.state, c.persistence.current, c.recoveryComplete, c.inclusionChecksComplete, c.capacity, c.latched);
      return Deferred(gate.primary.value, gate.blockers);
    }

    method RecordFailure(ghost chain: Chain, workId: WorkId, ghost w: World) returns (r: Recording)
      requires recovery.coordinator.Valid() && Lives(chain, w, recovery.coordinator.View())
      ensures r == CaptureSubmissionRecording(recovery.coordinator.View(), workId)
      ensures var p := recovery.coordinator.persistence;
        TrueRecording(r, p.state, p.current, p.pending, workId)
      ensures r.NotRecorded? ==> NowhereOnDisk(recovery.coordinator.persistence.store, workId)
    {
      r := recovery.coordinator.CaptureRecording(workId);
      RecordingHolds(chain, w, workId);
      if r.NotRecorded? { AbsentFromDisk(workId); }
    }

    /** Work in neither journal of the process is in no file. */
    lemma AbsentFromDisk(workId: WorkId)
      requires recovery.coordinator.Valid()
      requires !UsesWork(AttemptsOf(recovery.coordinator.persistence.current), workId)
      requires !UsesWork(AttemptsOf(recovery.coordinator.persistence.pending), workId)
      ensures NowhereOnDisk(recovery.coordinator.persistence.store, workId)
    {
      var p := recovery.coordinator.persistence;
      forall f, s | f in p.store.directory.surviving && Shows(f, p.store.identity, p.store.checks, Some(s)) ensures !UsesWork(s.attempts, workId) {
        assert Shows(f, p.store.identity, p.store.checks, p.current) || (p.pending.Some? && Shows(f, p.store.identity, p.store.checks, p.pending));
      }
    }
  }
}
