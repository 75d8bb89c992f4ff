/** One recovery cycle of a signer: retry a failed write, repeat durable passes or
    reuse the last one, check inclusions, and send once when due. */
module RecoveryCycle {
  import opened Journal
  import opened JournalStore
  import opened Blocks
  import opened Receipts
  import opened Inspections
  import opened SignerGate
  import opened Transitions
  import opened CoordinatorState
  import opened SubmissionRecording
  import opened World
  import opened RunInvariant
  import opened SignerCoordinators
  import opened RetrySchedules

  datatype CycleInspection = Skipped | Ran(result: RecoveryInspection)

  datatype CycleResult = CycleResult(
    inspection: CycleInspection, inclusions: Option<InclusionInspection>,
    broadcast: Option<BroadcastResult>, retryDelayMs: Option<nat>)

  function IsDurableRecoveryComplete(r: RecoveryInspection, recovered: bool, state: PersistenceState, attempts: seq<Attempt>): bool {
    recovered && state.Idle? &&
    match r
    case NoAttempt(_) => |attempts| == 0
    case ResolutionAvailable(_, _) => |attempts| == 0
    case Unresolved(o, receipt, search) =>
      |attempts| > 0 && o.nonce <= attempts[0].nonce && search.None? && !receipt.ForkServedReceipt?
    case _ => false
  }

  /** A completed pass leaves nothing to do at its anchor: the queue is empty, or the
      oldest nonce is unconsumed there and no served fork was seen. For the result
      of a pass over these attempts the converse holds too. */
  lemma CompletionMeaning(chain: Chain, s: Snapshot, anchor: Anchor, range: nat, r: RecoveryInspection, attempts: seq<Attempt>)
    requires Valid(s) && RecoveryAnswers(chain, s, anchor, range, r)
    requires if r.ResolutionAvailable? then attempts == s.attempts[1..]
             else |attempts| == |s.attempts| && (|attempts| > 0 ==> attempts[0].nonce == s.attempts[0].nonce)
    ensures IsDurableRecoveryComplete(r, true, Idle, attempts) <==>
      (r.NoAttempt? || r.ResolutionAvailable? || r.Unresolved?)
      && (attempts == [] || (r.Unresolved? && r.observation.nonce == attempts[0].nonce && !r.receipt.ForkServedReceipt?))
  {
  }

  /** Everything a reused durable pass depends on: counters, latches, and of every
      attempt its identity, bytes, search position and phase, but not the head at
      which an inclusion was last confirmed. */
  predicate SameDurableContent(c: Option<Snapshot>, latched: set<Blocker>, d: Option<Snapshot>, latched': set<Blocker>) {
    && latched == latched' && c.Some? == d.Some?
    && (c.Some? ==>
          && c.value.nextNonce == d.value.nextNonce && c.value.durableNextNonce == d.value.durableNextNonce
          && |c.value.attempts| == |d.value.attempts|
          && forall k :: 0 <= k < |c.value.attempts| ==> SameAttempt(c.value.attempts[k], d.value.attempts[k]))
  }

  predicate SameAttempt(a: Attempt, b: Attempt) {
    && a.id == b.id && a.nonce == b.nonce && a.search == b.search && HashesOf(a.txs) == HashesOf(b.txs)
    && ProjectPhase(a.phase) == ProjectPhase(b.phase)
  }

  /** Equal revisions mean equal durable content, and conversely. */
  lemma RevisionDecides(c: Option<Snapshot>, latched: set<Blocker>, d: Option<Snapshot>, latched': set<Blocker>)
    ensures DurableRecoveryRevision(c, latched) == DurableRecoveryRevision(d, latched')
      <==> SameDurableContent(c, latched, d, latched')
  {
    var r, r' := DurableRecoveryRevision(c, latched), DurableRecoveryRevision(d, latched');
    if c.Some? && d.Some? {
      var a, b := c.value.attempts, d.value.attempts;
      assert |r.attempts| == |a| && |r'.attempts| == |b|;
      assert forall k :: 0 <= k < |a| ==> r.attempts[k] == Project(a[k]);
      assert forall k :: 0 <= k < |b| ==> r'.attempts[k] == Project(b[k]);
      if r == r' {
        forall k | 0 <= k < |a| ensures SameAttempt(a[k], b[k]) {
          assert Project(a[k]) == Project(b[k]);
        }
      }
      if SameDurableContent(c, latched, d, latched') {
        forall k | 0 <= k < |a| ensures r.attempts[k] == r'.attempts[k] {
          assert SameAttempt(a[k], b[k]);
        }
        assert r.attempts == r'.attempts;
      }
    }
  }

  /** Taking, releasing and abandoning ownership are events of the machine. */
  lemma HandleEvents(c: State)
    ensures Local(c, Begin) == BeginInspection(c)
    ensures forall g :: Local(c, Finish(g)) == FinishInspection(c, g) && Local(c, Abandon(g)) == AbandonInspection(c, g)
  {
    hide BeginInspection;
    hide FinishInspection;
    hide AbandonInspection;
  }

  lemma NoWorkThrough(a: State, b: State, c: State)
    requires BringsNoWork(a, b) && BringsNoWork(b, c)
    ensures BringsNoWork(a, c)
  {
    hide HoldsAny;
  }

  lemma NoWorkYet(a: State)
    ensures BringsNoWork(a, a)
  {
    hide HoldsAny;
  }

  /** A failed write leaves no inclusion check standing. */
  lemma BrokenIsUnchecked(chain: Chain, w: World, c: State)
    requires Lives(chain, w, c) && c.persistence.state.Broken?
    ensures !c.inclusionChecksComplete
  {
  }

  /** A head the cycle refuses: beyond 256 bits, below the anchor, or another block at
      its height. */
  predicate BadHead(anchor: Anchor, head: Option<Anchor>) {
    head.Some? && (
      || !ValidAnchor(head.value) || head.value.number < anchor.number
      || (head.value.number == anchor.number && head.value != anchor))
  }

  /** A cycle with a head never meets the refusal of an anchor beyond 256 bits: whatever
      the node replies to its durable passes, what they plan passes the structural check. */
  lemma HeadedPassIsStored(chain: Chain, w: World, c: State, anchor: Anchor, head: Anchor, range: nat, e: Event)
    requires Lives(chain, w, c) && !BadHead(anchor, Some(head)) && Possible(chain, c, e)
    requires c.task == Recovering(anchor, range) || c.task == Bootstrapping(anchor)
    ensures match e
      case RecoveryReply(r) =>
        !r.RecoveryThrew? ==>
          var plan := PlanRecovery(c.persistence.current.value, c.latched, r);
          plan.Report? || (plan.Store? && Journal.Valid(plan.next))
      case BootstrapReply(r) => r.Ready? ==> Journal.Valid(Bootstrap(c.identity, r.observation))
      case _ => true
  {
    if e.RecoveryReply? {
      LastIsSound(w.out.history);
      hide Journal.Valid;
      RecoveryFollows(chain, c.persistence.current.value, c.latched, anchor, range, e.recovery);
    }
  }

  class SignerRecoveryCycle {
    const coordinator: SignerCoordinator
    const schedule: BroadcastRetrySchedule
    const durableSchedule: DurableRecoverySchedule?
    var busy: bool
    var completedRevision: Option<Revision>
    /** The journal and latches at the last completed durable pass. */
    ghost var completedJournal: Option<Snapshot>
    ghost var completedLatches: set<Blocker>

    ghost predicate Valid()
      reads this, coordinator, coordinator.persistence, coordinator.persistence.store.directory, schedule
    {
      && coordinator.Valid() && schedule.Valid() && !busy
      && (completedRevision.Some? ==> completedRevision.value == DurableRecoveryRevision(completedJournal, completedLatches))
    }

    constructor (coordinator: SignerCoordinator, schedule: BroadcastRetrySchedule, durableSchedule: DurableRecoverySchedule?)
      requires coordinator.Valid() && schedule.Valid()
      ensures Valid() && this.coordinator == coordinator && this.schedule == schedule
    {
      this.coordinator, this.schedule, this.durableSchedule := coordinator, schedule, durableSchedule;
      busy, completedRevision := false, None;
    }

    function Attempts(): seq<Attempt>
      reads coordinator.persistence
    {
      AttemptsOf(coordinator.persistence.current)
    }

    /** Included records stay retained but are not candidates for sending. */
    function RetryAttempt(): Option<(Uuid, bool)>
      reads coordinator.persistence
    {
      var k := OldestUnresolved(Attempts());
      if k < |Attempts()| then Some((Attempts()[k].id, !Attempts()[k].phase.Signed?)) else None
    }

    method InvalidateDurableRecovery()
      modifies this`completedRevision, durableSchedule
      ensures completedRevision.None?
      ensures durableSchedule != null ==> durableSchedule.completed.None?
    {
      completedRevision := None;
      if durableSchedule != null { durableSchedule.Invalidate(); }
    }

    method RecoverOnce(rpc: Rpc, g: nat, anchor: Anchor, range: nat, ghost w: World)
      returns (r: Completion<RecoveryInspection>, ghost w': World)
      requires coordinator.Valid() && Lives(rpc.chain, w, coordinator.View())
      modifies coordinator, coordinator.persistence, coordinator.persistence.store.directory
      ensures !r.Killed? ==> coordinator.Valid() && Lives(rpc.chain, w', coordinator.View())
      ensures r.Returned? ==> QueueAfter(r.value, old(coordinator.persistence.current), coordinator.persistence.current)
      ensures !r.Killed? ==> BringsNoWork(old(coordinator.View()), coordinator.View())
    {
      hide BringsNoWork;
      hide AllQuiet;
      hide Lives;
      hide SignerCoordinator.Valid;
      hide SignerCoordinator.View;
      hide Performs;
      hide QueueAfter;
      ghost var c, events := coordinator.View(), [];
      r, events := coordinator.Recover(rpc, g, anchor, range);
      w' := w;
      if !r.Killed? { w' := LivesOn(rpc.chain, w, c, events, coordinator.View()); }
    }

    /** Bounded by the queue it starts with, the pass loop ends with a result that is
        not a resolution or with an empty queue. */
    method RecoverUntilSettled(rpc: Rpc, g: nat, anchor: Anchor, range: nat, ghost w: World)
      returns (r: Completion<RecoveryInspection>, ghost w': World)
      requires coordinator.Valid() && Lives(rpc.chain, w, coordinator.View())
      modifies coordinator, coordinator.persistence, coordinator.persistence.store.directory
      ensures !r.Killed? ==> coordinator.Valid() && Lives(rpc.chain, w', coordinator.View())
      ensures r.Returned? && r.value.ResolutionAvailable? ==> Attempts() == []
      ensures !r.Killed? ==> BringsNoWork(old(coordinator.View()), coordinator.View())
    {
      hide BringsNoWork;
      hide Lives;
      hide SignerCoordinator.Valid;
      hide SignerCoordinator.View;
      var maxPasses := if |Attempts()| > 1 then |Attempts()| else 1;
      ghost var c := coordinator.View();
      r, w' := RecoverOnce(rpc, g, anchor, range, w);
      var pass := 1;
      while pass < maxPasses && r.Returned? && r.value.ResolutionAvailable? && |Attempts()| > 0
        invariant pass <= maxPasses
        invariant !r.Killed? ==> coordinator.Valid() && Lives(rpc.chain, w', coordinator.View())
        invariant !r.Killed? ==> BringsNoWork(c, coordinator.View())
        invariant r.Returned? && r.value.ResolutionAvailable? ==> |Attempts()| <= maxPasses - pass
      {
        var cancelled: bool := *;
        if cancelled { return Threw, w'; }
        ghost var between := coordinator.View();
        r, w' := RecoverOnce(rpc, g, anchor, range, w');
        if !r.Killed? { NoWorkThrough(c, between, coordinator.View()); }
        pass := pass + 1;
      }
    }

    method CheckOnce(rpc: Rpc, g: nat, head: Anchor, range: Option<nat>, ghost w: World)
      returns (r: Completion<InclusionInspection>, ghost w': World)
      requires coordinator.Valid() && Lives(rpc.chain, w, coordinator.View())
      modifies coordinator, coordinator.persistence, coordinator.persistence.store.directory
      ensures !r.Killed? ==> coordinator.Valid() && Lives(rpc.chain, w', coordinator.View())
      ensures !r.Killed? ==> |Attempts()| == |old(Attempts())|
      ensures !r.Killed? ==> BringsNoWork(old(coordinator.View()), coordinator.View())
    {
      hide BringsNoWork;
      hide AllQuiet;
      hide Lives;
      hide SignerCoordinator.Valid;
      hide SignerCoordinator.View;
      hide Performs;
      ghost var c, events := coordinator.View(), [];
      r, events := coordinator.CheckInclusions(rpc, g, head, range);
      w' := w;
      if !r.Killed? { w' := LivesOn(rpc.chain, w, c, events, coordinator.View()); }
    }

    ghost predicate Consistent()
      reads this
    {
      completedRevision.Some? ==> completedRevision.value == DurableRecoveryRevision(completedJournal, completedLatches)
    }

    predicate CompletedBy(result: RecoveryInspection)
      reads coordinator, coordinator.persistence
    {
      IsDurableRecoveryComplete(result, coordinator.recoveryComplete, coordinator.persistence.state, Attempts())
    }

    /** Records a completed durable pass with the content it was completed on. */
    method RecordPass(ghost chain: Chain, result: RecoveryInspection, anchor: Anchor, ghost w: World)
      requires coordinator.Valid() && Lives(chain, w, coordinator.View()) && completedRevision.None?
      modifies this`completedRevision, this`completedJournal, this`completedLatches, durableSchedule
      ensures Consistent()
      ensures completedRevision.Some? <==> durableSchedule != null && CompletedBy(result)
      ensures completedRevision.Some? ==>
        durableSchedule.completed == var now := durableSchedule.readings(old(durableSchedule.ticks));
          if now.Some? then Some((anchor, now.value)) else None
      ensures completedRevision.Some? ==> completedJournal == coordinator.persistence.current && completedLatches == coordinator.latched
    {
      if durableSchedule != null && CompletedBy(result) {
        assert RecoveredFacts(w.out, coordinator.View());
        durableSchedule.RecordCompleted(anchor);
        completedRevision := Some(coordinator.revision);
        completedJournal, completedLatches := coordinator.persistence.current, coordinator.latched;
      }
    }

    predicate Complete(inclusions: Option<InclusionInspection>) {
      inclusions.Some? && inclusions.value.Inspected? && inclusions.value.complete
    }

    /** Everything between taking and releasing ownership of the coordinator. */
    method InspectOwned(rpc: Rpc, g: nat, anchor: Anchor, head: Option<Anchor>, range: nat, reuse: bool, ghost w: World)
      returns (r: Completion<(CycleInspection, Option<InclusionInspection>)>, ghost w': World)
      requires coordinator.Valid() && Lives(rpc.chain, w, coordinator.View()) && Consistent()
      modifies this`completedRevision, this`completedJournal, this`completedLatches, durableSchedule
      modifies coordinator, coordinator.persistence, coordinator.persistence.store.directory
      ensures !r.Killed? ==> coordinator.Valid() && Lives(rpc.chain, w', coordinator.View()) && Consistent()
      ensures r.Returned? ==> (r.value.0.Skipped? <==> reuse) && coordinator.owner.None?
      ensures r.Returned? && r.value.0.Ran? && r.value.0.result.ResolutionAvailable? ==> Attempts() == []
      ensures r.Returned? && completedRevision.Some? ==> Complete(r.value.1)
      ensures !r.Killed? ==> BringsNoWork(old(coordinator.View()), coordinator.View())
    {
      hide BringsNoWork;
      hide Lives;
      hide SignerCoordinator.Valid;
      hide SignerCoordinator.View;
      hide DurableRecoveryRevision;
      ghost var c := coordinator.View();
      NoWorkYet(c);
      var inspection := Skipped;
      w' := w;
      if !reuse {
        InvalidateDurableRecovery();
        var result: Completion<RecoveryInspection>;
        result, w' := RecoverUntilSettled(rpc, g, anchor, range, w);
        if result.Killed? { return Killed, w'; }
        if result.Threw? { return Threw, w'; }
        inspection := Ran(result.value);
        RecordPass(rpc.chain, result.value, anchor, w');
      }
      var cancelled: bool := *;
      if cancelled { return Threw, w'; }
      var inclusions: Option<InclusionInspection> := None;
      if coordinator.recoveryComplete && (head.Some? || |Attempts()| == 0) {
        var check: Completion<InclusionInspection>;
        var at := if head.Some? then head.value else anchor;
        ghost var between := coordinator.View();
        check, w' := CheckOnce(rpc, g, at, if head.Some? then Some(range) else None, w');
        if check.Killed? { return Killed, w'; }
        NoWorkThrough(c, between, coordinator.View());
        if check.Threw? { return Threw, w'; }
        inclusions := Some(check.value);
      }
      if !Complete(inclusions) { InvalidateDurableRecovery(); }
      cancelled := *;
      if cancelled { return Threw, w'; }
      var finished: bool;
      ghost var last := coordinator.View();
      finished, w' := FinishOwned(rpc.chain, g, w');
      NoWorkThrough(c, last, coordinator.View());
      return if finished then Returned((inspection, inclusions)) else Threw, w';
    }

    method FinishOwned(ghost chain: Chain, g: nat, ghost w: World) returns (ok: bool, ghost w': World)
      requires coordinator.Valid() && Lives(chain, w, coordinator.View())
      modifies coordinator`owner
      ensures coordinator.Valid() && Lives(chain, w', coordinator.View()) && (ok ==> coordinator.owner.None?)
      ensures BringsNoWork(old(coordinator.View()), coordinator.View())
    {
      hide BringsNoWork;
      hide Lives;
      hide SignerCoordinator.Valid;
      hide SignerCoordinator.View;
      HandleEvents(coordinator.View());
      hide Local;
      ghost var c := coordinator.View();
      ok := coordinator.FinishInspection(g);
      w' := LivesOnHandle(chain, w, c, Finish(g));
    }

    method AbandonOwned(ghost chain: Chain, g: nat, ghost w: World) returns (ghost w': World)
      requires coordinator.Valid() && Lives(chain, w, coordinator.View())
      modifies coordinator`owner, coordinator`permit, coordinator`inclusionChecksComplete
      ensures coordinator.Valid() && Lives(chain, w', coordinator.View())
      ensures BringsNoWork(old(coordinator.View()), coordinator.View())
    {
      hide BringsNoWork;
      hide Lives;
      hide SignerCoordinator.Valid;
      hide SignerCoordinator.View;
      HandleEvents(coordinator.View());
      hide Local;
      ghost var c := coordinator.View();
      var _ := coordinator.AbandonInspection(g);
      w' := LivesOnHandle(chain, w, c, Abandon(g));
    }

    method BeginOwned(ghost chain: Chain, ghost w: World) returns (handle: Option<nat>, ghost w': World)
      requires coordinator.Valid() && Lives(chain, w, coordinator.View())
      modifies coordinator
      ensures coordinator.Valid() && Lives(chain, w', coordinator.View())
      ensures BringsNoWork(old(coordinator.View()), coordinator.View())
    {
      hide BringsNoWork;
      hide Lives;
      hide SignerCoordinator.Valid;
      hide SignerCoordinator.View;
      HandleEvents(coordinator.View());
      hide Local;
      ghost var c := coordinator.View();
      handle := coordinator.BeginInspection();
      w' := LivesOnHandle(chain, w, c, Begin);
    }

    predicate Unconflicted()
      reads coordinator, coordinator.persistence
    {
      && coordinator.recoveryComplete && coordinator.inclusionChecksComplete && coordinator.persistence.state.Idle?
      && UnattributedActivity !in coordinator.latched && SearchExhausted !in coordinator.latched
    }

    /** Nothing the last completed pass depended on has changed. */
    ghost predicate Unchanged()
      reads this`completedRevision, this`completedJournal, this`completedLatches, coordinator, coordinator.persistence
    {
      completedRevision.Some?
      && SameDurableContent(coordinator.persistence.current, coordinator.latched, completedJournal, completedLatches)
    }

    /** The last completed pass was at this anchor, less than an interval before the next
        reading of the clock, and leaves nothing new to do. */
    ghost predicate Reusable(anchor: Anchor)
      reads this`completedRevision, this`completedJournal, this`completedLatches
      reads coordinator, coordinator.persistence, durableSchedule
    {
      && Unconflicted() && Unchanged()
      && durableSchedule != null && durableSchedule.Lately(anchor)
    }

    /** While recovery is complete the cached revision tells whether anything changed. */
    ghost predicate RevisionTells()
      reads this`completedRevision, this`completedJournal, this`completedLatches
      reads coordinator, coordinator.persistence
    {
      coordinator.recoveryComplete ==> (completedRevision == Some(coordinator.revision) <==> Unchanged())
    }

    lemma RevisionIsTelling(chain: Chain, w: World)
      requires coordinator.Valid() && Lives(chain, w, coordinator.View()) && Consistent()
      ensures RevisionTells()
    {
      if coordinator.recoveryComplete {
        assert RecoveredFacts(w.out, coordinator.View());
        hide Lives;
        RevisionDecides(coordinator.persistence.current, coordinator.latched, completedJournal, completedLatches);
      }
    }

    /** A durable pass is reused exactly if the last one completed at this very anchor,
        less than the refresh interval ago, and everything it depended on is
        unchanged. */
    method CanReuse(ghost chain: Chain, anchor: Anchor, head: Option<Anchor>, ghost w: World) returns (reuse: bool)
      requires coordinator.Valid() && Lives(chain, w, coordinator.View()) && Consistent()
      modifies durableSchedule
      ensures durableSchedule != null ==> durableSchedule.completed == old(durableSchedule.completed)
      ensures reuse <==> head.Some? && old(Reusable(anchor))
    {
      reuse := false;
      RevisionIsTelling(chain, w);
      hide Lives;
      hide SignerCoordinator.Valid;
      hide SignerCoordinator.View;
      hide Unchanged;
      hide Consistent;
      if durableSchedule != null && head.Some? && Unconflicted() && completedRevision == Some(coordinator.revision) {
        var due: bool;
        due := durableSchedule.IsDue(anchor);
        reuse := !due;
      }
    }

    method RetryOnce(ghost chain: Chain, ghost w: World) returns (r: Completion<()>, ghost w': World)
      requires coordinator.Valid() && Lives(chain, w, coordinator.View())
      modifies coordinator, coordinator.persistence, coordinator.persistence.store.directory
      ensures !r.Killed? ==> coordinator.Valid() && Lives(chain, w', coordinator.View())
      ensures !r.Killed? ==> coordinator.inclusionChecksComplete == old(coordinator.inclusionChecksComplete)
      ensures !r.Killed? ==> BringsNoWork(old(coordinator.View()), coordinator.View())
      ensures !r.Killed? && old(coordinator.persistence.state).Broken? ==> !coordinator.inclusionChecksComplete
    {
      if coordinator.persistence.state.Broken? { BrokenIsUnchecked(chain, w, coordinator.View()); }
      hide BringsNoWork;
      hide AllQuiet;
      hide Lives;
      hide SignerCoordinator.Valid;
      hide SignerCoordinator.View;
      hide Performs;
      ghost var c, events := coordinator.View(), [];
      r, events := coordinator.RetryPersistence(chain);
      w' := w;
      if !r.Killed? { w' := LivesOn(chain, w, c, events, coordinator.View()); }
    }

    method SendOnce(rpc: Rpc, id: Uuid, ghost w: World) returns (r: Completion<BroadcastResult>, ghost w': World)
      requires coordinator.Valid() && Lives(rpc.chain, w, coordinator.View())
      modifies coordinator, coordinator.persistence, coordinator.persistence.store.directory
      ensures !r.Killed? ==> coordinator.Valid() && Lives(rpc.chain, w', coordinator.View())
      ensures !r.Killed? ==> |Attempts()| == |old(Attempts())|
      ensures r.Returned? ==> r.value.id == id && UsesId(Attempts(), id) && !coordinator.CanBroadcast()
      ensures !r.Killed? ==> coordinator.owner.Some? == old(coordinator.owner).Some?
      ensures !r.Killed? ==> BringsNoWork(old(coordinator.View()), coordinator.View())
    {
      hide BringsNoWork;
      hide AllQuiet;
      hide Lives;
      hide SignerCoordinator.Valid;
      hide SignerCoordinator.View;
      hide Performs;
      ghost var c, events := coordinator.View(), [];
      r, events := coordinator.BroadcastAttempt(rpc, id);
      w' := w;
      if !r.Killed? { w' := LivesOn(rpc.chain, w, c, events, coordinator.View()); }
    }

    /** When the attempt to send is due: as scheduled when it is already tracked, otherwise
        no earlier than from now, and after the initial delay if it may have been sent. */
    ghost function DueFrom(): real
      reads coordinator.persistence, schedule
    {
      var attempt := RetryAttempt();
      if attempt.None? then schedule.lastNow
      else if schedule.attemptId == Some(attempt.value.0) then schedule.dueAt
      else schedule.lastNow + if attempt.value.1 then schedule.initialDelayMs as real else 0.0
    }

    /** Sends the oldest unresolved attempt when the coordinator allows it and the
        schedule grants the claim; a claim is spent even if sending fails. */
    method SendWhenDue(rpc: Rpc, ghost w: World) returns (r: Completion<Option<BroadcastResult>>, ghost w': World)
      requires coordinator.Valid() && Lives(rpc.chain, w, coordinator.View()) && schedule.Valid()
      modifies coordinator, coordinator.persistence, coordinator.persistence.store.directory, schedule
      ensures schedule.Valid()
      ensures !r.Killed? ==> coordinator.Valid() && Lives(rpc.chain, w', coordinator.View())
      ensures !r.Killed? ==> |Attempts()| == |old(Attempts())|
      ensures r.Returned? && r.value.Some? ==> UsesId(Attempts(), r.value.value.id) && schedule.claims != []
      ensures r.Returned? && r.value.Some? ==> old(RetryAttempt()).Some? && r.value.value.id == old(RetryAttempt()).value.0
      ensures r.Returned? && r.value.Some? ==> old(coordinator.CanBroadcast())
      ensures r.Returned? && r.value.Some? ==> schedule.claims[|schedule.claims| - 1] >= old(DueFrom())
      ensures r.Returned? && r.value.None? ==> old(RetryAttempt()).None? || !old(coordinator.CanBroadcast()) || schedule.lastNow < schedule.dueAt
      ensures !r.Killed? ==> coordinator.owner.Some? == old(coordinator.owner).Some?
      ensures !r.Killed? ==> BringsNoWork(old(coordinator.View()), coordinator.View())
    {
      hide BringsNoWork;
      hide Lives;
      hide SignerCoordinator.Valid;
      hide SignerCoordinator.View;
      hide BroadcastRetrySchedule.Valid;
      w' := w;
      NoWorkYet(coordinator.View());
      var attempt := RetryAttempt();
      var tracked := schedule.Track(attempt);
      if !tracked { return Threw, w'; }
      var cancelled: bool := *;
      if cancelled { return Threw, w'; }
      if attempt.None? || !coordinator.CanBroadcast() { return Returned(None), w'; }
      var ok, claimed := schedule.Claim(attempt.value.0);
      if !ok { return Threw, w'; }
      if !claimed { return Returned(None), w'; }
      var sent: Completion<BroadcastResult>;
      sent, w' := SendOnce(rpc, attempt.value.0, w);
      if sent.Killed? { return Killed, w'; }
      if sent.Threw? { return Threw, w'; }
      return Returned(Some(sent.value)), w';
    }

    /** Ownership is released however the inspection ends. */
    method InspectOrAbandon(rpc: Rpc, anchor: Anchor, head: Option<Anchor>, range: nat, reuse: bool, ghost w: World)
      returns (r: Completion<(CycleInspection, Option<InclusionInspection>)>, ghost w': World)
      requires coordinator.Valid() && Lives(rpc.chain, w, coordinator.View()) && Consistent()
      modifies this`completedRevision, this`completedJournal, this`completedLatches, durableSchedule
      modifies coordinator, coordinator.persistence, coordinator.persistence.store.directory
      ensures !r.Killed? ==> coordinator.Valid() && Lives(rpc.chain, w', coordinator.View()) && Consistent()
      ensures r.Returned? ==> (r.value.0.Skipped? <==> reuse) && coordinator.owner.None?
      ensures r.Returned? && r.value.0.Ran? && r.value.0.result.ResolutionAvailable? ==> Attempts() == []
      ensures r.Returned? && completedRevision.Some? ==> Complete(r.value.1)
      ensures !r.Killed? ==> BringsNoWork(old(coordinator.View()), coordinator.View())
    {
      hide BringsNoWork;
      hide Lives;
      hide SignerCoordinator.Valid;
      hide SignerCoordinator.View;
      hide DurableRecoveryRevision;
      ghost var c := coordinator.View();
      var handle: Option<nat>;
      handle, w' := BeginOwned(rpc.chain, w);
      if handle.None? { return Threw, w'; }
      ghost var begun := coordinator.View();
      r, w' := InspectOwned(rpc, handle.value, anchor, head, range, reuse, w');
      if r.Killed? { return; }
      ghost var settled := coordinator.View();
      NoWorkThrough(c, begun, settled);
      if r.Threw? {
        w' := AbandonOwned(rpc.chain, handle.value, w');
        NoWorkThrough(c, settled, coordinator.View());
      }
    }

    /** What a returned cycle says: its head was admissible and ownership is released; the
        durable pass was skipped exactly when it could be; a resolution is never the last
        word while attempts remain; a broadcast names a retained attempt; and completion
        is remembered only with a complete inclusion check. */
    ghost predicate Ended(r: Completion<CycleResult>, anchor: Anchor, head: Option<Anchor>, reusable: bool)
      reads this`completedRevision, coordinator, coordinator.persistence
    {
      r.Returned? ==> (
        && !BadHead(anchor, head) && coordinator.owner.None?
        && (r.value.inspection.Skipped? <==> reusable)
        && (r.value.inspection.Ran? && r.value.inspection.result.ResolutionAvailable? ==> Attempts() == [])
        && (r.value.broadcast.Some? ==> UsesId(Attempts(), r.value.broadcast.value.id))
        && (completedRevision.Some? ==> Complete(r.value.inclusions)))
    }

    method RunOnce(rpc: Rpc, anchor: Anchor, head: Option<Anchor>, range: nat, ghost w: World)
      returns (r: Completion<CycleResult>, ghost w': World)
      requires coordinator.Valid() && schedule.Valid() && Lives(rpc.chain, w, coordinator.View()) && Consistent()
      modifies this`completedRevision, this`completedJournal, this`completedLatches, durableSchedule, schedule
      modifies coordinator, coordinator.persistence, coordinator.persistence.store.directory
      ensures schedule.Valid()
      ensures !r.Killed? ==> coordinator.Valid() && Lives(rpc.chain, w', coordinator.View()) && Consistent()
      ensures Ended(r, anchor, head, head.Some? && old(Reusable(anchor)))
      ensures !r.Killed? ==> BringsNoWork(old(coordinator.View()), coordinator.View())
    {
      hide BringsNoWork;
      hide Lives;
      hide SignerCoordinator.Valid;
      hide SignerCoordinator.View;
      hide BroadcastRetrySchedule.Valid;
      hide DurableRecoveryRevision;
      hide SameDurableContent;
      w' := w;
      ghost var c := coordinator.View();
      NoWorkYet(c);
      if BadHead(anchor, head) { return Threw, w'; }
      var cancelled: bool := *;
      if cancelled { return Threw, w'; }
      var tracked := schedule.Track(RetryAttempt());
      if !tracked { return Threw, w'; }
      if coordinator.persistence.state.Broken? {
        var retried: Completion<()>;
        retried, w' := RetryOnce(rpc.chain, w');
        if retried.Killed? { return Killed, w'; }
        if retried.Threw? { return Threw, w'; }
        assert !Unconflicted();
        tracked := schedule.Track(RetryAttempt());
        if !tracked { return Threw, w'; }
      }
      cancelled := *;
      if cancelled { return Threw, w'; }
      var reuse: bool;
      reuse := CanReuse(rpc.chain, anchor, head, w');
      ghost var before := coordinator.View();
      r, w' := InspectAndSend(rpc, anchor, head, range, reuse, w');
      if !r.Killed? { NoWorkThrough(c, before, coordinator.View()); }
    }

    /** The inspection, and then at most one send. */
    method InspectAndSend(rpc: Rpc, anchor: Anchor, head: Option<Anchor>, range: nat, reuse: bool, ghost w: World)
      returns (r: Completion<CycleResult>, ghost w': World)
      requires coordinator.Valid() && schedule.Valid() && Lives(rpc.chain, w, coordinator.View()) && Consistent() && !BadHead(anchor, head)
      modifies this`completedRevision, this`completedJournal, this`completedLatches, durableSchedule, schedule
      modifies coordinator, coordinator.persistence, coordinator.persistence.store.directory
      ensures schedule.Valid()
      ensures !r.Killed? ==> coordinator.Valid() && Lives(rpc.chain, w', coordinator.View()) && Consistent()
      ensures Ended(r, anchor, head, reuse)
      ensures !r.Killed? ==> BringsNoWork(old(coordinator.View()), coordinator.View())
    {
      hide BringsNoWork;
      hide Lives;
      hide SignerCoordinator.Valid;
      hide SignerCoordinator.View;
      hide BroadcastRetrySchedule.Valid;
      hide DurableRecoveryRevision;
      hide BadHead;
      ghost var c := coordinator.View();
      var inspected: Completion<(CycleInspection, Option<InclusionInspection>)>;
      inspected, w' := InspectOrAbandon(rpc, anchor, head, range, reuse, w);
      if inspected.Killed? { return Killed, w'; }
      if inspected.Threw? { return Threw, w'; }
      ghost var seen := coordinator.View();
      var sent: Completion<Option<BroadcastResult>>;
      sent, w' := SendWhenDue(rpc, w');
      if sent.Killed? { return Killed, w'; }
      NoWorkThrough(c, seen, coordinator.View());
      if sent.Threw? { return Threw, w'; }
      var ok, delay := schedule.DelayMs();
      if !ok { return Threw, w'; }
      return Returned(CycleResult(inspected.value.0, inspected.value.1, sent.value, delay)), w';
    }

    /** A durable pass is skipped exactly when the last one completed lately at this very
        anchor and nothing it depended on has changed since; never after a retried write.
        A failed cycle forgets any earlier completion, and ownership is always released. */
    method Run(rpc: Rpc, anchor: Anchor, head: Option<Anchor>, range: nat, ghost w: World)
      returns (r: Completion<CycleResult>, ghost w': World)
      requires Valid() && Lives(rpc.chain, w, coordinator.View())
      modifies this, durableSchedule, schedule
      modifies coordinator, coordinator.persistence, coordinator.persistence.store.directory
      ensures r.Threw? ==> completedRevision.None? && (durableSchedule != null ==> durableSchedule.completed.None?)
      ensures !r.Killed? ==> Valid() && Lives(rpc.chain, w', coordinator.View())
      ensures Ended(r, anchor, head, head.Some? && old(Reusable(anchor)))
      ensures !r.Killed? ==> BringsNoWork(old(coordinator.View()), coordinator.View())
    {
      hide Reusable;
      hide Complete;
      hide BadHead;
      hide UsesId;
      hide BringsNoWork;
      hide Lives;
      hide SignerCoordinator.Valid;
      hide SignerCoordinator.View;
      hide BroadcastRetrySchedule.Valid;
      hide DurableRecoveryRevision;
      busy := true;
      r, w' := RunOnce(rpc, anchor, head, range, w);
      if r.Threw? { InvalidateDurableRecovery(); }
      busy := false;
    }
  }
}
