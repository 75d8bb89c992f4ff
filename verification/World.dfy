/** Every run of the signer: one process at a time over one disk, with its
    operations interleaved, its reads answered arbitrarily, and crashes, failed
    writes, power losses and offline nonce repairs at any moment. */
module World {
  import opened Journal
  import opened JournalHistory
  import opened JournalStore
  import opened Blocks
  import opened ReplacementSearch
  import opened Receipts
  import opened Inspections
  import opened SignerGate
  import opened Transitions
  import opened NonceSync
  import opened CoordinatorState

  /** A raw transaction handed to the network, with the position in the journal's
      history and the number of completed recovery passes at that moment. */
  datatype Send = Send(id: Uuid, nonce: nat, raw: string, at: nat, passes: nat)

  /** Everything outside the process: the journal file, what a power loss may leave
      of it, the writes committed so far, and the one still uncertain. */
  datatype Outside = Outside(
    identity: Identity,
    visible: Option<Snapshot>,
    surviving: set<Option<Snapshot>>,
    history: seq<Entry>,
    tentative: Option<Entry>,
    sends: seq<Send>,
    passes: nat)

  datatype World = World(out: Outside, proc: Option<State>)

  datatype Event =
    | Boot(capacity: nat)
    | ProcessExit
    | PowerLoss(left: Option<Snapshot>)
    | RepairOffline(observation: Observation, latest: nat, pending: nat, at: Timestamp, renamed: bool, saved: bool)
    | Begin
    | Call(generation: nat, request: Request)
    | Start
    | HeadReply(check: AnchorCheck)
    | BootstrapReply(bootstrap: BootstrapRead)
    | RecoveryReply(recovery: RecoveryInspection)
    | InclusionsReply(inclusions: InclusionInspection, closing: AnchorCheck)
    | VerificationPassed
    | VerificationFailed
    | FileRenamed
    | StoreFailed
    | StoreSaved
    | Retry
    | Prepare(workId: WorkId)
    | SigningFails
    | Signs(id: Uuid, createdAt: Timestamp, tx: SignedTx)
    | Broadcast(id: Uuid)
    | SendReply
    | Finish(generation: nat)
    | Abandon(generation: nat)
    | AbandonmentSettles

  function LastOf(h: seq<Entry>): Option<Snapshot> {
    if h == [] then None else Some(h[|h| - 1].journal)
  }

  function Initial(identity: Identity): World {
    World(Outside(identity, None, {None}, [], None, [], 0), None)
  }

  /** A process that opened the journal has made what it read durable. */
  function Adopt(o: Outside): Outside {
    if o.tentative.Some? && o.visible == Some(o.tentative.value.journal)
    then o.(history := o.history + [o.tentative.value], tentative := None, surviving := {o.visible})
    else o.(tentative := None, surviving := {o.visible})
  }

  /** The repair command opens the journal, plans, and saves; its save may fail
      before or after the rename. */
  function SyncOffline(o: Outside, e: Event): Outside
    requires e.RepairOffline?
  {
    if o.visible.None? || !ValidObservation(e.observation) then o
    else
      var plan := PlanNonceSync(o.visible.value, e.observation, e.latest, e.pending, e.at);
      var o' := Adopt(o);
      if !plan.RepairAvailable? then o'
      else if e.saved then
        o'.(history := o'.history + [Entry(Repaired, plan.next)], visible := Some(plan.next), surviving := {Some(plan.next)})
      else if e.renamed then
        o'.(tentative := Some(Entry(Repaired, plan.next)), visible := Some(plan.next),
            surviving := o'.surviving + {Some(plan.next)})
      else o'
  }

  /** The send of the oldest unresolved attempt of the committed journal. */
  function NextSend(o: Outside): seq<Send> {
    if o.history == [] then []
    else
      var s := o.history[|o.history| - 1].journal;
      var k := OldestUnresolved(s.attempts);
      if k < |s.attempts| && |s.attempts[k].txs| > 0 then
        [Send(s.attempts[k].id, s.attempts[k].nonce, s.attempts[k].txs[|s.attempts[k].txs| - 1].raw, |o.history| - 1, o.passes)]
      else []
  }

  /** The committed side of an acknowledged save. */
  function Commit(o: Outside): Outside
    requires o.tentative.Some?
  {
    var left := Some(o.tentative.value.journal);
    o.(visible := left, surviving := {left}, history := o.history + [o.tentative.value], tentative := None)
  }

  predicate CompletesPass(c: State) {
    c.task.Saving? && (c.task.continuation.AfterRecovery? || c.task.continuation.AfterBootstrap?)
  }

  predicate StartsSend(c: State) { c.task.Saving? && c.task.continuation.AfterMark? }

  function Acknowledge(o: Outside, c: State): World
    requires AwaitsStore(c) && c.pendingWrite.Some? && o.tentative.Some?
  {
    var o' := Commit(o);
    World(if CompletesPass(c) then o'.(passes := o'.passes + 1)
          else if StartsSend(c) then o'.(sends := o'.sends + NextSend(o'))
          else o',
          Some(SaveCommitted(c)))
  }

  function Transmit(o: Outside, c: State, id: Uuid): World {
    var c' := BroadcastAttempt(c, id);
    World(if c'.task.Sending? && !c.task.Sending? then o.(sends := o.sends + NextSend(o)) else o, Some(c'))
  }

  /** Replies the read operations can actually give for the committed journal; a
      snapshot passes verification only when it is structurally valid. */
  ghost predicate Possible(chain: Chain, c: State, e: Event) {
    match e
    case BootstrapReply(r) => c.task.Bootstrapping? && (r.Ready? ==> PossibleCount(r.observation, c.task.anchor))
    case RecoveryReply(r) =>
      c.task.Recovering? && c.persistence.current.Some?
      && RecoveryAnswers(chain, c.persistence.current.value, c.task.anchor, c.task.range, r)
    case InclusionsReply(r, _) =>
      c.task.Inspecting? && c.persistence.current.Some?
      && InclusionAnswers(chain, c.persistence.current.value, c.task.head, r)
    case VerificationPassed => c.task.Saving? && c.task.next.identity == c.identity && Valid(c.task.next)
    case _ => true
  }

  predicate PossibleCount(o: Observation, anchor: Anchor) {
    o.anchor == anchor && o.nonce <= MAX_SAFE_INTEGER
  }

  /** The events that only touch the process. */
  function Local(c: State, e: Event): State {
    match e
    case Begin => BeginInspection(c)
    case Call(g, request) => CallOperation(c, g, request)
    case Start => StartOperation(c)
    case HeadReply(check) => HeadOpened(c, check)
    case BootstrapReply(r) => BootstrapObserved(c, r)
    case RecoveryReply(r) => RecoveryRead(c, r)
    case InclusionsReply(r, closing) => InclusionsRead(c, r, closing)
    case VerificationFailed => SaveRejected(c)
    case StoreFailed => SaveFailed(c)
    case Retry => RetryPersistence(c)
    case Prepare(workId) => PrepareAttempt(c, workId)
    case SigningFails => SigningFailed(c)
    case Signs(id, createdAt, tx) => AttemptSigned(c, id, createdAt, tx)
    case SendReply => SendSettled(c)
    case Finish(g) => FinishInspection(c, g)
    case Abandon(g) => AbandonInspection(c, g)
    case AbandonmentSettles => CompleteAbandonment(c)
    case _ => c
  }

  /** What one event of the machine does to the process alone. */
  function Advance(c: State, e: Event): State {
    match e
    case VerificationPassed => if AwaitsVerification(c) && c.pendingWrite.Some? then SaveVerified(c) else c
    case StoreSaved => if AwaitsStore(c) && c.pendingWrite.Some? then SaveCommitted(c) else c
    case Broadcast(id) => BroadcastAttempt(c, id)
    case _ => Local(c, e)
  }

  /** The events that also touch the disk or the network. */
  function Outward(o: Outside, c: State, e: Event): World {
    match e
    case VerificationPassed =>
      if AwaitsVerification(c) && c.pendingWrite.Some? then
        World(o.(tentative := Some(Entry(WriteOf(c.pendingWrite.value), c.task.next))), Some(SaveVerified(c)))
      else World(o, Some(c))
    case FileRenamed =>
      World(if AwaitsStore(c) then o.(visible := c.persistence.pending, surviving := o.surviving + {c.persistence.pending}) else o,
            Some(c))
    case StoreSaved =>
      if AwaitsStore(c) && c.pendingWrite.Some? && o.tentative.Some? then Acknowledge(o, c) else World(o, Some(c))
    case Broadcast(id) => Transmit(o, c, id)
    case _ => World(o, Some(Local(c, e)))
  }

  ghost function Step(chain: Chain, w: World, e: Event): World {
    match e
    case Boot(capacity) =>
      if w.proc.Some? || capacity == 0 then w
      else World(Adopt(w.out), Some(Create(w.out.identity, capacity, w.out.visible)))
    case ProcessExit => w.(proc := None)
    case PowerLoss(left) =>
      if left in w.out.surviving then World(w.out.(visible := left, surviving := {left}), None) else w
    case RepairOffline(_, _, _, _, _, _) => if w.proc.Some? then w else World(SyncOffline(w.out, e), None)
    case _ =>
      if w.proc.None? || !Possible(chain, w.proc.value, e) then w else Outward(w.out, w.proc.value, e)
  }

  ghost function Run(chain: Chain, w: World, events: seq<Event>): World {
    if events == [] then w else Step(chain, Run(chain, w, events[..|events| - 1]), events[|events| - 1])
  }
}
