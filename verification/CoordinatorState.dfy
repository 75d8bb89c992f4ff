/** The signer coordinator as a value: its fields plus the locals of the one
    operation that may be suspended. Each function is one segment of code
    between two awaits; a guard that throws leaves the state as it was. */
module CoordinatorState {
  import opened Journal
  import opened JournalHistory
  import opened JournalStore
  import opened Blocks
  import opened ReplacementSearch
  import opened Receipts
  import opened Inspections
  import opened SignerGate
  import opened Transitions

  datatype Persistence = Persistence(state: PersistenceState, current: Option<Snapshot>, pending: Option<Snapshot>)

  datatype Bracket = NoBracket | OpenBracket(head: Anchor) | ClosedBracket | FailedBracket

  /** Exclusive ownership of the coordinator by one inspection handle. */
  datatype Owner = Owner(generation: nat, active: bool, abandoning: bool, hasRun: bool, bracket: Bracket)

  datatype Request =
    | OpenHead(head: Anchor)
    | Recover(anchor: Anchor, range: nat)
    | CheckInclusions(head: Anchor, searchRange: Option<nat>)

  datatype BootstrapRead =
    | Ready(observation: Observation)
    | BootstrapDeferred(observation: Observation, latest: nat, pending: nat)
    | BootstrapAnchorChanged(observed: Anchor)
    | BootstrapThrew

  /** What runs once a save is acknowledged or fails. */
  datatype Continuation =
    | AfterBootstrap
    | AfterRecovery(result: RecoveryInspection)
    | AfterInclusions(inspection: InclusionInspection)
    | AfterPrepare(id: Uuid, checkedBefore: bool)
    | AfterMark(id: Uuid)

  datatype Task =
    | Resting
    | Queued(request: Request)
    | OpeningHead(opening: Anchor)
    | Bootstrapping(anchor: Anchor)
    | Recovering(anchor: Anchor, range: nat)
    | Inspecting(head: Anchor)
    | Signing(workId: WorkId)
    | Saving(next: Snapshot, continuation: Continuation)
    | Retrying
    | Sending(id: Uuid)

  datatype Projection = Projection(
    id: Uuid, nonce: nat, phase: Phase, hashes: seq<Hash>, search: Option<Search>)

  /** The committed content that decides whether a durable pass may be reused. */
  datatype Revision = NeverComputed | Revision(
    present: bool, nextNonce: nat, durableNextNonce: nat, attempts: seq<Projection>, latched: set<Blocker>)

  function HashesOf(txs: seq<SignedTx>): seq<Hash> {
    seq(|txs|, k requires 0 <= k < |txs| => txs[k].hash)
  }

  /** An inclusion without the head at which it was last confirmed. */
  function ProjectPhase(p: Phase): Phase {
    if p.Included? then Included(p.inclusion.(observedAt := p.inclusion.block)) else p
  }

  function Project(a: Attempt): Projection {
    Projection(a.id, a.nonce, ProjectPhase(a.phase), HashesOf(a.txs), a.search)
  }

  function DurableRecoveryRevision(current: Option<Snapshot>, latched: set<Blocker>): Revision {
    match current
    case None => Revision(false, 0, 0, [], latched)
    case Some(s) =>
      Revision(true, s.nextNonce, s.durableNextNonce,
               seq(|s.attempts|, k requires 0 <= k < |s.attempts| => Project(s.attempts[k])), latched)
  }

  datatype State = State(
    identity: Identity,
    capacity: nat,
    recoveryComplete: bool,
    inclusionChecksComplete: bool,
    busy: bool,
    permit: Option<Uuid>,
    generation: nat,
    owner: Option<Owner>,
    pendingWrite: Option<PendingWrite>,
    latched: set<Blocker>,
    revision: Revision,
    persistence: Persistence,
    task: Task)
  {
    predicate Available() { owner.None? && !busy }

    predicate Owns(g: nat) { owner.Some? && owner.value.generation == g == generation }

    predicate WorkAllowed(g: nat) {
      && Owns(g) && !owner.value.abandoning && !busy
      && !owner.value.bracket.FailedBracket? && !owner.value.bracket.ClosedBracket?
    }

    predicate WriteIdle() { pendingWrite.None? && persistence.state.Idle? }

    function Gate(): Decision {
      EvaluateSignerGate(persistence.state, persistence.current, recoveryComplete, inclusionChecksComplete, capacity, latched)
    }

    /** The reported gate: also closed while busy or while an inspection is owned. */
    predicate GateOpen() { Gate().open && !busy && owner.None? }

    predicate CanBroadcast() {
      && Available() && WriteIdle() && persistence.current.Some?
      && var s := persistence.current.value;
         var k := OldestUnresolved(s.attempts);
         && k < |s.attempts| && recoveryComplete && permit == Some(s.attempts[k].id)
         && latched == {} && s.lastObservation.nonce == s.attempts[k].nonce
    }
  }

  /** The same inspection, if any, with the same abandonment. */
  predicate SameHandle(c: State, c': State) {
    && c'.generation == c.generation && c'.owner.Some? == c.owner.Some?
    && (c.owner.Some? ==> c'.owner.value.generation == c.owner.value.generation)
    && (c.owner.Some? ==> c'.owner.value.abandoning == c.owner.value.abandoning)
  }

  function Create(identity: Identity, capacity: nat, loaded: Option<Snapshot>): State {
    var c := State(identity, capacity, false, false, false, None, 0, None, None, {}, NeverComputed,
                   Persistence(Idle, loaded, None), Resting);
    Recompute(Latch(c))
  }

  function LatchActivity(c: State): State {
    if c.persistence.current.Some? && Unattributed(c.persistence.current.value)
    then c.(latched := c.latched + {UnattributedActivity}) else c
  }

  predicate SearchReachedObservation(s: Snapshot) {
    var k := OldestUnresolved(s.attempts);
    && k < |s.attempts| && s.attempts[k].search.Some?
    && s.lastObservation.nonce > s.attempts[k].nonce
    && s.attempts[k].search.value.through == Some(s.lastObservation.anchor)
  }

  function LatchSearch(c: State): State {
    if c.persistence.current.Some? && SearchReachedObservation(c.persistence.current.value)
    then c.(latched := c.latched + {SearchExhausted}) else c
  }

  function Latch(c: State): State { LatchSearch(LatchActivity(c)) }

  function Recompute(c: State): State {
    c.(revision := DurableRecoveryRevision(c.persistence.current, c.latched))
  }

  function LatchedAfter(latched: set<Blocker>, kind: PendingWrite): set<Blocker> {
    match kind
    case PResolution(_) => latched - {SearchExhausted}
    case PSearchProgress(exhausted) =>
      if exhausted then latched + {SearchExhausted} else latched - {SearchExhausted}
    case _ => latched
  }

  function FinishWrite(c: State): (r: State)
    requires c.pendingWrite.Some?
    ensures SameHandle(c, r) && r.persistence == c.persistence
  {
    var released := c.(latched := LatchedAfter(c.latched, c.pendingWrite.value), pendingWrite := None, busy := false);
    Recompute(Latch(released))
  }

  function Revoke(c: State): State { c.(permit := None, inclusionChecksComplete := false) }

  // Inspection ownership

  function BeginInspection(c: State): State {
    if c.Available() && c.WriteIdle() then
      Revoke(c.(generation := c.generation + 1, owner := Some(Owner(c.generation + 1, false, false, false, NoBracket))))
    else c
  }

  function CallOperation(c: State, g: nat, request: Request): State {
    if c.WorkAllowed(g) && !c.owner.value.active then
      c.(owner := Some(c.owner.value.(active := true)), task := Queued(request))
    else c
  }

  /** The end of an owned operation; a failure inside an open bracket spoils it. */
  function Settle(c: State, threw: bool): (r: State)
    ensures SameHandle(c, r) && r.persistence == c.persistence && r.task == Resting
  {
    if c.owner.None? then c.(busy := false, task := Resting)
    else
      var o := c.owner.value;
      var c' := if threw && o.bracket.OpenBracket? then Revoke(c) else c;
      c'.(busy := false, task := Resting,
          owner := Some(o.(active := false, bracket := if threw && o.bracket.OpenBracket? then FailedBracket else o.bracket)))
  }

  function WithBracket(c: State, b: Bracket): State {
    if c.owner.None? then c else c.(owner := Some(c.owner.value.(bracket := b)))
  }

  predicate BracketOpen(c: State) { c.owner.Some? && c.owner.value.bracket.OpenBracket? }

  /** Spoils an open bracket and takes back every authorization. */
  function FailBracket(c: State): State {
    if BracketOpen(c) then Revoke(WithBracket(c, FailedBracket)) else c
  }

  /** The queued operation's first microtask: guards again, then starts. */
  function StartOperation(c: State): State {
    if !c.task.Queued? || c.owner.None? then c
    else if !c.WorkAllowed(c.owner.value.generation) then Settle(c, true)
    else
      match c.task.request
      case OpenHead(head) =>
        if c.owner.value.hasRun || !c.owner.value.bracket.NoBracket? then Settle(c, true)
        else
          var failed := WithBracket(c, FailedBracket);
          if !ValidAnchor(head) then Settle(failed, true) else failed.(task := OpeningHead(head))
      case Recover(anchor, range) =>
        var ran := c.(owner := Some(c.owner.value.(hasRun := true)));
        if range == 0 || range >= UINT256_LIMIT || !c.WriteIdle() then Settle(ran, true)
        else
          var started := ran.(permit := None, busy := true, recoveryComplete := false, inclusionChecksComplete := false);
          if c.persistence.current.Some? then started.(task := Recovering(anchor, range))
          else if c.latched != {} then Settle(started, true)
          else started.(task := Bootstrapping(anchor))
      case CheckInclusions(head, range) =>
        var ran := c.(owner := Some(c.owner.value.(hasRun := true)));
        if !c.WriteIdle() || c.persistence.current.None? then Settle(ran, true)
        else
          var started := ran.(permit := None, inclusionChecksComplete := false, busy := true);
          if BracketOpen(c) && c.owner.value.bracket.head != head then Settle(started, true)
          else started.(task := Inspecting(head))
  }

  function HeadOpened(c: State, check: AnchorCheck): State {
    if !c.task.OpeningHead? then c
    else match check
      case Same => Settle(WithBracket(c, OpenBracket(c.task.opening)), false)
      case Changed(_) => Settle(c, false)
      case Unreadable => Settle(c, true)
  }

  function FinishInspection(c: State, g: nat): State {
    if c.Owns(g) && !c.owner.value.abandoning && !c.owner.value.active && !c.busy
       && !BracketOpen(c) && !c.owner.value.bracket.FailedBracket? && c.WriteIdle()
    then c.(owner := None) else c
  }

  /** Releases at once when nothing is running, otherwise when it settles. */
  function AbandonInspection(c: State, g: nat): State {
    if !c.Owns(g) || c.owner.value.abandoning then c
    else if c.owner.value.active then Revoke(c.(owner := Some(c.owner.value.(abandoning := true))))
    else Revoke(c).(owner := None)
  }

  function CompleteAbandonment(c: State): State {
    if c.owner.Some? && c.owner.value.abandoning && !c.owner.value.active then Revoke(c).(owner := None) else c
  }

  // Persistence

  function StartSave(c: State, next: Snapshot, kind: PendingWrite, continuation: Continuation): State {
    c.(pendingWrite := Some(kind), persistence := c.persistence.(state := Writing), task := Saving(next, continuation))
  }

  predicate AwaitsVerification(c: State) { c.task.Saving? && c.persistence.state.Writing? && c.persistence.pending.None? }

  predicate AwaitsStore(c: State) { c.persistence.state.Writing? && c.persistence.pending.Some? }

  function SaveVerified(c: State): State {
    if AwaitsVerification(c) then c.(persistence := c.persistence.(pending := Some(c.task.next))) else c
  }

  /** The catch clause of the operation whose save did not complete. */
  function FailOperation(c: State): State {
    var idle := c.persistence.state.Idle?;
    var c' := if idle then c.(pendingWrite := None) else c;
    if !c.task.Saving? then Settle(c', true)
    else match c.task.continuation
      case AfterBootstrap => Settle(c'.(recoveryComplete := false), true)
      case AfterRecovery(_) => Settle(c'.(recoveryComplete := false), true)
      case AfterInclusions(_) => Settle(c'.(inclusionChecksComplete := false), true)
      case AfterPrepare(_, checkedBefore) =>
        Settle(if idle then c'.(inclusionChecksComplete := checkedBefore)
               else c'.(recoveryComplete := false, inclusionChecksComplete := false), true)
      case AfterMark(_) => Settle(c', true)
  }

  function SaveRejected(c: State): State {
    if AwaitsVerification(c) then FailOperation(c.(persistence := c.persistence.(state := Idle))) else c
  }

  function SaveFailed(c: State): State {
    if !AwaitsStore(c) then c
    else
      var broken := c.(persistence := c.persistence.(state := Broken));
      if c.task.Retrying? then Settle(broken, true) else FailOperation(broken)
  }

  /** A resend is offered only for the attempt the pass inspected. */
  predicate RecoveryPermits(s: Snapshot, r: RecoveryInspection) {
    && |s.attempts| > 0 && r.Unresolved? && r.search.None?
    && !s.attempts[0].phase.Included? && r.observation.nonce == s.attempts[0].nonce
    && (r.receipt.ReceiptNotFound? || r.receipt.ForkServedReceipt?)
  }

  predicate InclusionsPermit(s: Snapshot, r: InclusionInspection) {
    var k := OldestUnresolved(s.attempts);
    r.Inspected? && k < |s.attempts| && r.eligible == Some(s.attempts[k].id) && s.lastObservation.nonce == s.attempts[k].nonce
  }

  /** What each operation does with its acknowledged write; `before` is the journal it
      started from, and `s` the one it wrote. */
  function Completed(stored: State, before: Option<Snapshot>, s: Snapshot, k: Continuation): State
    requires stored.pendingWrite.Some?
  {
    match k
    case AfterBootstrap => Settle(FinishWrite(stored.(recoveryComplete := true)), false)
    case AfterRecovery(r) =>
      var done := FinishWrite(stored.(recoveryComplete := true));
      var permitted := before.Some? && RecoveryPermits(before.value, r) && done.latched == {};
      Settle(if permitted then done.(permit := Some(before.value.attempts[0].id)) else done, false)
    case AfterInclusions(r) =>
      var done := FinishWrite(stored.(inclusionChecksComplete := r.Inspected? && r.complete));
      var permitted := done.recoveryComplete && done.latched == {} && InclusionsPermit(s, r);
      var granted := if permitted then done.(permit := Some(s.attempts[OldestUnresolved(s.attempts)].id)) else done;
      Settle(if BracketOpen(granted) then WithBracket(granted, ClosedBracket) else granted, false)
    case AfterPrepare(id, _) => Settle(FinishWrite(stored).(permit := Some(id)), false)
    case AfterMark(id) => stored.(pendingWrite := None, task := Sending(id))
  }

  function SaveCommitted(c: State): State
    requires AwaitsStore(c) ==> c.pendingWrite.Some?
  {
    if !AwaitsStore(c) then c
    else
      var s := c.persistence.pending.value;
      var stored := c.(persistence := Persistence(Idle, Some(s), None));
      match c.task
      case Retrying => Settle(FinishWrite(stored), false)
      case Saving(_, continuation) => Completed(stored, c.persistence.current, s, continuation)
      case _ => stored
  }

  function RetryPersistence(c: State): State {
    if c.Available() && c.pendingWrite.Some? && c.persistence.state.Broken? then
      c.(busy := true, task := Retrying, persistence := c.persistence.(state := Writing))
    else c
  }

  // Recovery and inclusion checks

  function BootstrapObserved(c: State, r: BootstrapRead): State {
    if !c.task.Bootstrapping? then c
    else match r
      case Ready(o) => StartSave(c, Bootstrap(c.identity, o), PBootstrap, AfterBootstrap)
      case BootstrapThrew => Settle(c.(recoveryComplete := false), true)
      case _ => Settle(c, false)
  }

  function RecoveryRead(c: State, r: RecoveryInspection): State {
    if !c.task.Recovering? || c.persistence.current.None? then c
    else if r.RecoveryThrew? then Settle(c.(recoveryComplete := false), true)
    else match PlanRecovery(c.persistence.current.value, c.latched, r)
      case Report => Settle(c, false)
      case InternalError => Settle(c.(recoveryComplete := false), true)
      case Store(next, kind) =>
        if Valid(next) then StartSave(c, next, kind, AfterRecovery(r))
        else Settle(c.(recoveryComplete := false), true)
  }

  /** `closing` is the second head check of an open bracket. */
  function InclusionsRead(c: State, r: InclusionInspection, closing: AnchorCheck): State {
    if !c.task.Inspecting? || c.persistence.current.None? then c
    else match r
      case InclusionThrew => Settle(c.(inclusionChecksComplete := false), true)
      case HeadChanged(_) => Settle(FailBracket(c), false)
      case HeadNonceBehind(_) => Settle(FailBracket(c).(recoveryComplete := false), false)
      case HeadInconsistent(_) => Settle(FailBracket(c).(recoveryComplete := false), false)
      case Inspected(_, _, _, _) =>
        if BracketOpen(c) && closing.Changed? then Settle(FailBracket(c), false)
        else if BracketOpen(c) && closing.Unreadable? then Settle(c.(inclusionChecksComplete := false), true)
        else
          var next := PlanInclusions(c.persistence.current.value, c.latched, r);
          if Valid(next) then StartSave(c, next, PObservation, AfterInclusions(r))
          else Settle(c.(inclusionChecksComplete := false), true)
  }

  // Preparing and broadcasting

  function PrepareAttempt(c: State, workId: WorkId): State {
    if c.Available() && c.WriteIdle() && c.GateOpen() && c.persistence.current.Some?
       && !UsesWork(c.persistence.current.value.attempts, workId)
    then c.(permit := None, busy := true, task := Signing(workId)) else c
  }

  function SigningFailed(c: State): State {
    if c.task.Signing? then Settle(c, true) else c
  }

  /** Signing refuses a nonce outside the safe integers. */
  function AttemptSigned(c: State, id: Uuid, createdAt: Timestamp, tx: SignedTx): State {
    if !c.task.Signing? || c.persistence.current.None? then c
    else
      var s := c.persistence.current.value;
      var next := PlanPrepare(s, id, c.task.workId, createdAt, tx);
      if s.nextNonce > MAX_SAFE_INTEGER || !Valid(next) then Settle(c, true)
      else
        StartSave(c.(inclusionChecksComplete := false), next, PPrepared, AfterPrepare(id, c.inclusionChecksComplete))
  }

  function BroadcastAttempt(c: State, id: Uuid): State {
    if !c.CanBroadcast() then c
    else
      var s := c.persistence.current.value;
      var k := OldestUnresolved(s.attempts);
      if s.attempts[k].id != id then c
      else
        var started := c.(permit := None, recoveryComplete := false, inclusionChecksComplete := false, busy := true);
        if s.attempts[k].phase.Signed? then StartSave(started, PlanMark(s), PBroadcast, AfterMark(id))
        else started.(task := Sending(id))
  }

  function SendSettled(c: State): State {
    if c.task.Sending? then Settle(c, false) else c
  }
}
