/** What a failed submission is told about the work it tried to record. */
module SubmissionRecording {
  import opened Journal
  import opened JournalHistory
  import opened JournalStore
  import opened Blocks
  import opened Transitions
  import opened CoordinatorState
  import opened World
  import opened RunInvariant

  datatype Recording = Retained(id: Uuid) | Uncertain(id: Uuid) | NotRecorded

  function FindWork(attempts: seq<Attempt>, workId: WorkId): (r: Option<Uuid>)
    ensures r.None? <==> !UsesWork(attempts, workId)
    ensures r.Some? ==> exists k :: 0 <= k < |attempts| && attempts[k].workId == workId && attempts[k].id == r.value
  {
    if attempts == [] then None
    else if attempts[0].workId == workId then Some(attempts[0].id)
    else
      var rest := attempts[1..];
      assert UsesWork(rest, workId) ==> UsesWork(attempts, workId) by {
        if UsesWork(rest, workId) {
          var k :| 0 <= k < |rest| && rest[k].workId == workId;
          assert attempts[k + 1].workId == workId;
        }
      }
      FindWork(rest, workId)
  }

  function AttemptsOf(s: Option<Snapshot>): seq<Attempt> {
    if s.Some? then s.value.attempts else []
  }

  /** The acknowledged journal first: a failed broadcast marker does not undo an
      acknowledged preparation. */
  function CaptureSubmissionRecording(c: State, workId: WorkId): Recording {
    var retained := FindWork(AttemptsOf(c.persistence.current), workId);
    if retained.Some? then Retained(retained.value)
    else
      var failed := if c.pendingWrite == Some(PPrepared) && c.persistence.state.Broken?
                    then FindWork(AttemptsOf(c.persistence.pending), workId) else None;
      if failed.Some? then Uncertain(failed.value) else NotRecorded
  }

  predicate HoldsWork(attempts: seq<Attempt>, workId: WorkId, id: Uuid) {
    exists k :: 0 <= k < |attempts| && attempts[k].workId == workId && attempts[k].id == id
  }

  /** Only a preparation brings new work into the journal. */
  lemma WorkOnlyFromPreparing(c: Snapshot, e: Entry, workId: WorkId)
    requires Changes(c, e) && e.write != Prepared && UsesWork(e.journal.attempts, workId)
    ensures UsesWork(c.attempts, workId)
  {
    var k :| 0 <= k < |e.journal.attempts| && e.journal.attempts[k].workId == workId;
    match e.write {
      case Observed => assert Kept(c.attempts[k], e.journal.attempts[k]);
      case Marked => assert c.attempts[k].workId == workId;
      case Resolved(_) => assert c.attempts[k + 1].workId == workId;
      case _ =>
    }
  }

  /** The journal an uncertain submission would leave: the acknowledged one and
      exactly the named attempt after it. */
  predicate OneMore(c: Snapshot, p: Snapshot, workId: WorkId, id: Uuid) {
    && |p.attempts| == |c.attempts| + 1 && p.attempts[..|c.attempts|] == c.attempts
    && p.attempts[|c.attempts|].workId == workId && p.attempts[|c.attempts|].id == id
  }

  /** What a recording claims about the acknowledged and the failed write. */
  predicate TrueRecording(r: Recording, state: PersistenceState, current: Option<Snapshot>, pending: Option<Snapshot>, workId: WorkId) {
    match r
    case Retained(id) => HoldsWork(AttemptsOf(current), workId, id)
    case Uncertain(id) =>
      && state.Broken? && current.Some? && pending.Some? && OneMore(current.value, pending.value, workId, id)
      && !UsesWork(current.value.attempts, workId)
    case NotRecorded => !UsesWork(AttemptsOf(current), workId) && !UsesWork(AttemptsOf(pending), workId)
  }

  lemma RecordingHolds(chain: Chain, w: World, workId: WorkId)
    requires Inv(chain, w) && w.proc.Some? && !w.proc.value.persistence.state.Writing?
    ensures var p := w.proc.value.persistence;
      TrueRecording(CaptureSubmissionRecording(w.proc.value, workId), p.state, p.current, p.pending, workId)
  {
    var c, o := w.proc.value, w.out;
    var p := c.persistence;
    if p.pending.Some? {
      assert PendingIs(o, c);
      var e := o.tentative.value;
      assert Extends(o.history, e);
      if p.current.Some? && e.write != Prepared && UsesWork(e.journal.attempts, workId) {
        WorkOnlyFromPreparing(p.current.value, e, workId);
      }
      if p.current.Some? && e.write == Prepared {
        var s := p.current.value;
        assert PreparedFrom(s, e.journal);
        if UsesWork(e.journal.attempts, workId) && !UsesWork(s.attempts, workId) {
          var k :| 0 <= k < |e.journal.attempts| && e.journal.attempts[k].workId == workId;
          assert k == |s.attempts|;
        }
      }
    }
  }

  /** The recording tells the truth once the failed operation settled: retained work
      is in the acknowledged journal; uncertain work is exactly the attempt of the
      failed write; and work reported as unrecorded is in no image that any power
      loss could leave. */
  lemma RecordingIsTrue(chain: Chain, identity: Identity, w: World, workId: WorkId)
    requires ValidIdentity(identity) && Reachable(chain, identity, w)
    requires w.proc.Some? && !w.proc.value.persistence.state.Writing?
    ensures var r, p := CaptureSubmissionRecording(w.proc.value, workId), w.proc.value.persistence;
      && TrueRecording(r, p.state, p.current, p.pending, workId)
      && (r.NotRecorded? ==> forall left :: left in w.out.surviving ==> !UsesWork(AttemptsOf(left), workId))
  {
    ReachableInv(chain, identity, w);
    RecordingHolds(chain, w, workId);
    var p := w.proc.value.persistence;
    forall left | left in w.out.surviving ensures left == p.current || (left.Some? && left == p.pending) {
      assert InSurviving(w.out, left);
    }
  }

  /** What the manager attaches to a failed submission. A failure before preparation
      is attributed to older journal work and always reported as unrecorded. */
  function SubmissionErrorRecording(preparationStarted: bool, c: State, workId: WorkId): Recording {
    if preparationStarted then CaptureSubmissionRecording(c, workId) else NotRecorded
  }

  // When an unrecorded report is the truth

  /** The work is in the acknowledged journal, in a write that is running or failed, or
      in a snapshot about to be written. A caller can see this before it submits. */
  predicate HoldsAny(c: State, workId: WorkId) {
    || UsesWork(AttemptsOf(c.persistence.current), workId) || UsesWork(AttemptsOf(c.persistence.pending), workId)
    || (c.task.Saving? && UsesWork(c.task.next.attempts, workId))
  }

  ghost predicate BringsNoWork(c: State, c': State) {
    forall workId :: HoldsAny(c', workId) ==> HoldsAny(c, workId)
  }

  /** Events of one process other than the signing of a new attempt. */
  predicate Quiet(e: Event) { !Restarts(e) && !e.RepairOffline? && !e.Signs? }

  /** Where the journals of the next state come from. */
  predicate SameSources(c: State, c': State) {
    && (c'.persistence.current == c.persistence.current || c'.persistence.current == c.persistence.pending)
    && (c'.persistence.pending == c.persistence.pending || c'.persistence.pending.None?
        || (c.task.Saving? && c'.persistence.pending == Some(c.task.next)))
    && (c'.task.Saving? ==> c'.task == c.task || (!c'.task.continuation.AfterPrepare? && c'.persistence.current == c.persistence.current))
  }

  lemma LocalSources(c: State, e: Event)
    requires Quiet(e) && !e.StoreFailed? && !e.VerificationFailed?
    ensures SameSources(c, Local(c, e))
  {
    hide Settle;
    hide PlanRecovery;
    hide PlanInclusions;
    hide Valid;
  }

  lemma FailureSources(c: State, e: Event)
    requires e.StoreFailed? || e.VerificationFailed?
    ensures SameSources(c, Local(c, e))
  {
    hide Settle;
  }

  lemma SavedSources(c: State)
    requires AwaitsStore(c) && c.pendingWrite.Some?
    ensures SameSources(c, SaveCommitted(c))
  {
    hide Settle;
    hide FinishWrite;
    hide RecoveryPermits;
    hide InclusionsPermit;
  }

  lemma AdvanceSources(c: State, e: Event)
    requires Quiet(e) && (AwaitsStore(c) ==> c.pendingWrite.Some?)
    ensures SameSources(c, Advance(c, e))
  {
    hide Local;
    hide SaveCommitted;
    hide PlanMark;
    match e {
      case StoreSaved => if AwaitsStore(c) { SavedSources(c); }
      case VerificationPassed =>
      case Broadcast(_) =>
      case StoreFailed => FailureSources(c, e);
      case VerificationFailed => FailureSources(c, e);
      case _ => LocalSources(c, e);
    }
  }

  /** A new snapshot to save brings no work unless it prepares an attempt. */
  lemma SavingBringsNoWork(chain: Chain, o: Outside, c: State, workId: WorkId)
    requires DiskInv(chain, o) && ProcInv(chain, o, c) && c.task.Saving? && !c.task.continuation.AfterPrepare?
    requires UsesWork(c.task.next.attempts, workId)
    ensures UsesWork(AttemptsOf(c.persistence.current), workId)
  {
    if Valid(c.task.next) {
      assert Extends(o.history, Entry(WriteOf(c.pendingWrite.value), c.task.next));
      if o.history != [] { WorkOnlyFromPreparing(o.history[|o.history| - 1].journal, Entry(WriteOf(c.pendingWrite.value), c.task.next), workId); }
    }
  }

  /** Nothing but a signing brings work into a process's journals. */
  lemma StepBringsNoWork(chain: Chain, w: World, e: Event)
    requires Inv(chain, w) && w.proc.Some? && Quiet(e)
    ensures Step(chain, w, e).proc.Some? && BringsNoWork(w.proc.value, Step(chain, w, e).proc.value)
  {
    hide Advance;
    hide Step;
    hide Inv;
    StepKeeps(chain, w, e);
    ProcessStep(chain, w, e);
    var c, w' := w.proc.value, Step(chain, w, e);
    AdvanceSources(c, e);
    if w'.proc.value != c { SourcesBringNoWork(chain, w', c, w'.proc.value); }
  }

  lemma SourcesBringNoWork(chain: Chain, w': World, c: State, c': State)
    requires Inv(chain, w') && w'.proc == Some(c') && SameSources(c, c')
    ensures BringsNoWork(c, c')
  {
    forall workId | HoldsAny(c', workId) ensures HoldsAny(c, workId) {
      if c'.task.Saving? && c'.task != c.task && UsesWork(c'.task.next.attempts, workId) {
        SavingBringsNoWork(chain, w'.out, c', workId);
      }
    }
  }

  ghost predicate AllQuiet(events: seq<Event>) {
    forall k :: 0 <= k < |events| ==> Quiet(events[k])
  }

  lemma {:induction false} RunBringsNoWork(chain: Chain, w: World, events: seq<Event>)
    requires Inv(chain, w) && w.proc.Some? && AllQuiet(events)
    ensures Run(chain, w, events).proc.Some? && BringsNoWork(w.proc.value, Run(chain, w, events).proc.value)
    ensures Inv(chain, Run(chain, w, events))
  {
    hide Inv;
    hide HoldsAny;
    hide Step;
    if events != [] {
      var before := events[..|events| - 1];
      RunBringsNoWork(chain, w, before);
      StepBringsNoWork(chain, Run(chain, w, before), events[|events| - 1]);
      StepKeeps(chain, Run(chain, w, before), events[|events| - 1]);
    }
  }

  /** Once no write is running, the coordinator's own recording shows what a caller needs
      to know beforehand. */
  lemma SeenIsRecorded(chain: Chain, w: World, workId: WorkId)
    requires Inv(chain, w) && w.proc.Some? && !w.proc.value.persistence.state.Writing?
    ensures HoldsAny(w.proc.value, workId) <==> CaptureSubmissionRecording(w.proc.value, workId) != NotRecorded
  {
    RecordingHolds(chain, w, workId);
    var c := w.proc.value;
    var r := CaptureSubmissionRecording(c, workId);
    if r.Uncertain? {
      var s, p := c.persistence.current.value, c.persistence.pending.value;
      assert p.attempts[|s.attempts|].workId == workId;
    }
  }

  /** A submission that fails before it prepares anything reports no recording. When the
      caller saw no trace of the work before it submitted, that is the truth in every
      image a power loss could leave, whatever the recovery before it did. With no failed
      write left it is the truth exactly when the acknowledged journal lacks the work. */
  lemma UnrecordedMeansAbsent(chain: Chain, identity: Identity, w: World, events: seq<Event>, workId: WorkId)
    requires ValidIdentity(identity) && Reachable(chain, identity, w) && w.proc.Some? && AllQuiet(events)
    ensures var w' := Run(chain, w, events);
      w'.proc.Some? && SubmissionErrorRecording(false, w'.proc.value, workId) == NotRecorded
      && (!HoldsAny(w.proc.value, workId) ==> forall left :: left in w'.out.surviving ==> !UsesWork(AttemptsOf(left), workId))
    ensures var w' := Run(chain, w, events);
      w'.proc.Some? && w'.proc.value.persistence.state.Idle? ==> (
        (forall left :: left in w'.out.surviving ==> !UsesWork(AttemptsOf(left), workId))
        <==> !UsesWork(AttemptsOf(w'.proc.value.persistence.current), workId))
    ensures !w.proc.value.persistence.state.Writing? ==>
      (HoldsAny(w.proc.value, workId) <==> CaptureSubmissionRecording(w.proc.value, workId) != NotRecorded)
  {
    ReachableInv(chain, identity, w);
    RunBringsNoWork(chain, w, events);
    var w' := Run(chain, w, events);
    forall left | left in w'.out.surviving && UsesWork(AttemptsOf(left), workId) ensures HoldsAny(w.proc.value, workId) {
      assert InSurviving(w'.out, left);
      assert HoldsAny(w'.proc.value, workId);
    }
    if !w.proc.value.persistence.state.Writing? { SeenIsRecorded(chain, w, workId); }
  }

  // That condition is exact

  /** The committed journal is always among the images while a process lives. */
  ghost predicate KeepsCommitted(w: World) {
    w.proc.Some? ==> LastOf(w.out.history) in w.out.surviving
  }

  lemma StepKeepsCommitted(chain: Chain, w: World, e: Event)
    requires Inv(chain, w) && KeepsCommitted(w)
    ensures KeepsCommitted(Step(chain, w, e))
  {
    if e.Boot? {
      AdoptKeepsDisk(chain, w.out);
    } else if w.proc.Some? {
      OutwardKeepsCommitted(w.out, w.proc.value, e);
    }
    hide Inv;
    hide Possible;
    hide Outward;
    hide Create;
  }

  lemma OutwardKeepsCommitted(o: Outside, c: State, e: Event)
    requires LastOf(o.history) in o.surviving
    ensures LastOf(Outward(o, c, e).out.history) in Outward(o, c, e).out.surviving
  {
    hide Local;
    hide NextSend;
    hide SaveCommitted;
    hide BroadcastAttempt;
  }

  lemma {:induction false} RunKeepsCommitted(chain: Chain, w: World, events: seq<Event>)
    requires Inv(chain, w) && KeepsCommitted(w)
    ensures KeepsCommitted(Run(chain, w, events))
  {
    hide Inv;
    hide Step;
    hide KeepsCommitted;
    if events != [] {
      var before := events[..|events| - 1];
      RunKeepsCommitted(chain, w, before);
      RunKeeps(chain, w, before);
      StepKeepsCommitted(chain, Run(chain, w, before), events[|events| - 1]);
    }
  }

  lemma {:induction false} StepThenRun(chain: Chain, w: World, e: Event, events: seq<Event>)
    ensures Run(chain, w, [e] + events) == Run(chain, Step(chain, w, e), events)
  {
    hide Step;
    var all := [e] + events;
    if events == [] {
      assert all == [e] && all[..0] == [];
    } else {
      assert all[..|all| - 1] == [e] + events[..|events| - 1];
      StepThenRun(chain, w, e, events[..|events| - 1]);
    }
  }

  /** Released by every inspection and idle again, as a coordinator is whenever a
      submission starts or its failure is reported. */
  predicate Released(w: World) { w.proc.Some? && w.proc.value.Available() }

  /** Some quiet run leaves the work in an image a power loss could reveal, at a moment
      when the process is released if `released`. */
  ghost predicate CanSurface(chain: Chain, w: World, workId: WorkId, released: bool) {
    exists events, left :: AllQuiet(events) && left in Run(chain, w, events).out.surviving
      && (released ==> Released(Run(chain, w, events))) && UsesWork(AttemptsOf(left), workId)
  }

  lemma SurfacesNow(chain: Chain, w: World, left: Option<Snapshot>, workId: WorkId, released: bool)
    requires left in w.out.surviving && UsesWork(AttemptsOf(left), workId) && (released ==> Released(w))
    ensures CanSurface(chain, w, workId, released)
  {
    assert Run(chain, w, []) == w && AllQuiet([]);
  }

  lemma SurfacesLater(chain: Chain, w: World, e: Event, workId: WorkId, released: bool)
    requires Quiet(e) && CanSurface(chain, Step(chain, w, e), workId, released)
    ensures CanSurface(chain, w, workId, released)
  {
    hide Step;
    hide Released;
    hide UsesWork;
    var events, left :| AllQuiet(events) && left in Run(chain, Step(chain, w, e), events).out.surviving
      && (released ==> Released(Run(chain, Step(chain, w, e), events))) && UsesWork(AttemptsOf(left), workId);
    StepThenRun(chain, w, e, events);
    assert AllQuiet([e] + events);
  }

  /** A write under way may have been renamed into place before it fails. */
  lemma WrittenSurfaces(chain: Chain, w: World, workId: WorkId, released: bool)
    requires w.proc.Some? && AwaitsStore(w.proc.value) && UsesWork(AttemptsOf(w.proc.value.persistence.pending), workId)
    requires released ==> w.proc.value.task.Retrying? && w.proc.value.owner.None?
    ensures CanSurface(chain, w, workId, released)
  {
    var pending := w.proc.value.persistence.pending;
    var renamed := Step(chain, w, FileRenamed);
    var failed := Step(chain, renamed, StoreFailed);
    assert pending in failed.out.surviving;
    hide Step;
    hide UsesWork;
    if released {
      SurfacesNow(chain, failed, pending, workId, true);
      SurfacesLater(chain, renamed, StoreFailed, workId, true);
    } else {
      SurfacesNow(chain, renamed, pending, workId, false);
    }
    SurfacesLater(chain, w, FileRenamed, workId, released);
  }

  /** What a process whose write failed may still be doing. */
  lemma FailedFacts(chain: Chain, w: World)
    requires Inv(chain, w) && w.proc.Some? && w.proc.value.persistence.state.Broken?
    ensures var c := w.proc.value;
      && !c.busy && c.pendingWrite.Some? && c.persistence.pending.Some? && (c.owner.Some? ==> c.owner.value.generation == c.generation)
      && if ActiveOwner(c) then c.task.Queued? || c.task.OpeningHead? else c.task.Resting?
  {
    hide DiskInv;
    hide SendsInv;
    hide Valid;
  }

  predicate OfHandle(e: Event) { e.Abandon? || e.AbandonmentSettles? || e.Start? || e.HeadReply? || e.Retry? }

  lemma HandleStep(chain: Chain, w: World, e: Event)
    requires w.proc.Some? && OfHandle(e)
    ensures Step(chain, w, e) == World(w.out, Some(Local(w.proc.value, e)))
  {
    hide Local;
  }

  /** A failed write of a released process is tried again. */
  lemma RetriedSurfaces(chain: Chain, w: World, workId: WorkId, released: bool)
    requires Inv(chain, w) && Released(w) && w.proc.value.persistence.state.Broken?
    requires UsesWork(AttemptsOf(w.proc.value.persistence.pending), workId)
    ensures CanSurface(chain, w, workId, released)
  {
    hide Inv;
    hide Step;
    hide UsesWork;
    hide CanSurface;
    hide AwaitsVerification;
    hide DurableRecoveryRevision;
    FailedFacts(chain, w);
    HandleStep(chain, w, Event.Retry);
    var retrying := Step(chain, w, Event.Retry);
    assert retrying.proc.Some? && retrying.proc.value.task.Retrying? && AwaitsStore(retrying.proc.value);
    WrittenSurfaces(chain, retrying, workId, released);
    SurfacesLater(chain, w, Event.Retry, workId, released);
  }

  /** An inspection at rest can be abandoned, and one already abandoned settles. */
  lemma RestingSurfaces(chain: Chain, w: World, workId: WorkId)
    requires Inv(chain, w) && w.proc.Some? && w.proc.value.persistence.state.Broken? && !ActiveOwner(w.proc.value)
    requires UsesWork(AttemptsOf(w.proc.value.persistence.pending), workId)
    ensures CanSurface(chain, w, workId, false)
  {
    hide Inv;
    hide Step;
    hide UsesWork;
    hide CanSurface;
    hide AwaitsVerification;
    hide DurableRecoveryRevision;
    var c := w.proc.value;
    FailedFacts(chain, w);
    if c.owner.None? {
      RetriedSurfaces(chain, w, workId, false);
    } else {
      var e := if c.owner.value.abandoning then AbandonmentSettles else Abandon(c.generation);
      var left := Step(chain, w, e);
      HandleStep(chain, w, e);
      assert Released(left) && left.proc.value.persistence == c.persistence;
      StepKeeps(chain, w, e);
      RetriedSurfaces(chain, left, workId, false);
      SurfacesLater(chain, w, e, workId, false);
    }
  }

  /** An abandoned operation that has not read anything yet ends at once. */
  lemma AbandonedSurfaces(chain: Chain, w: World, workId: WorkId)
    requires Inv(chain, w) && w.proc.Some? && w.proc.value.persistence.state.Broken? && ActiveOwner(w.proc.value)
    requires w.proc.value.owner.value.abandoning && UsesWork(AttemptsOf(w.proc.value.persistence.pending), workId)
    ensures CanSurface(chain, w, workId, false)
  {
    hide Inv;
    hide Step;
    hide UsesWork;
    hide CanSurface;
    hide AwaitsVerification;
    hide DurableRecoveryRevision;
    var c := w.proc.value;
    FailedFacts(chain, w);
    var e := if c.task.Queued? then Start else HeadReply(Unreadable);
    var ended := Step(chain, w, e);
    HandleStep(chain, w, e);
    assert ended.proc.Some? && ended.proc.value.persistence == c.persistence && !ActiveOwner(ended.proc.value);
    StepKeeps(chain, w, e);
    RestingSurfaces(chain, ended, workId);
    SurfacesLater(chain, w, e, workId, false);
  }

  lemma BrokenSurfaces(chain: Chain, w: World, workId: WorkId)
    requires Inv(chain, w) && w.proc.Some? && w.proc.value.persistence.state.Broken?
    requires UsesWork(AttemptsOf(w.proc.value.persistence.pending), workId)
    ensures CanSurface(chain, w, workId, false)
  {
    hide Inv;
    hide Step;
    hide UsesWork;
    hide CanSurface;
    hide AwaitsVerification;
    hide DurableRecoveryRevision;
    var c := w.proc.value;
    FailedFacts(chain, w);
    if !ActiveOwner(c) {
      RestingSurfaces(chain, w, workId);
    } else if c.owner.value.abandoning {
      AbandonedSurfaces(chain, w, workId);
    } else {
      var e := Abandon(c.generation);
      var left := Step(chain, w, e);
      HandleStep(chain, w, e);
      assert left.proc.Some? && left.proc.value.persistence == c.persistence;
      assert ActiveOwner(left.proc.value) && left.proc.value.owner.value.abandoning;
      StepKeeps(chain, w, e);
      AbandonedSurfaces(chain, left, workId);
      SurfacesLater(chain, w, e, workId, false);
    }
  }

  /** A snapshot about to be written that holds work passes its check. */
  lemma SavingSurfaces(chain: Chain, w: World, workId: WorkId)
    requires Inv(chain, w) && w.proc.Some? && AwaitsVerification(w.proc.value) && UsesWork(w.proc.value.task.next.attempts, workId)
    ensures CanSurface(chain, w, workId, false)
  {
    var next := w.proc.value.task.next;
    assert Valid(next) && next.identity == w.proc.value.identity;
    var verified := Step(chain, w, VerificationPassed);
    assert verified.proc.Some? && AwaitsStore(verified.proc.value) && verified.proc.value.persistence.pending == Some(next);
    hide Step;
    hide Valid;
    WrittenSurfaces(chain, verified, workId, false);
    SurfacesLater(chain, w, VerificationPassed, workId, false);
  }

  /** Wherever the process still holds the work, some quiet run puts it on disk. */
  lemma HeldSurfaces(chain: Chain, w: World, workId: WorkId)
    requires Inv(chain, w) && KeepsCommitted(w) && w.proc.Some? && HoldsAny(w.proc.value, workId)
    ensures CanSurface(chain, w, workId, false)
  {
    var c := w.proc.value;
    if UsesWork(AttemptsOf(c.persistence.current), workId) {
      SurfacesNow(chain, w, c.persistence.current, workId, false);
    } else if AwaitsStore(c) {
      assert c.task.Saving? ==> c.persistence.pending.value == c.task.next;
      WrittenSurfaces(chain, w, workId, false);
    } else if c.persistence.pending.Some? {
      BrokenSurfaces(chain, w, workId);
    } else {
      SavingSurfaces(chain, w, workId);
    }
  }

  /** So does a released one, and is released again when it has. */
  lemma ReleasedSurfaces(chain: Chain, w: World, workId: WorkId)
    requires Inv(chain, w) && KeepsCommitted(w) && Released(w) && HoldsAny(w.proc.value, workId)
    ensures CanSurface(chain, w, workId, true)
  {
    var c := w.proc.value;
    if UsesWork(AttemptsOf(c.persistence.current), workId) {
      SurfacesNow(chain, w, c.persistence.current, workId, true);
    } else {
      RetriedSurfaces(chain, w, workId, true);
    }
  }

  /** `none` is the truth about a submission that fails before it prepares anything,
      however the recovery before it goes, exactly when the process holds no trace of
      the work at the call. For a released process it is so even if only moments at
      which it is released again count. */
  lemma UnrecordedIsExact(chain: Chain, identity: Identity, w: World, workId: WorkId)
    requires ValidIdentity(identity) && Reachable(chain, identity, w) && w.proc.Some?
    ensures !HoldsAny(w.proc.value, workId) <==>
      forall events, left :: AllQuiet(events) && left in Run(chain, w, events).out.surviving ==> !UsesWork(AttemptsOf(left), workId)
    ensures w.proc.value.Available() ==> (!HoldsAny(w.proc.value, workId) <==>
      forall events, left :: AllQuiet(events) && left in Run(chain, w, events).out.surviving && Released(Run(chain, w, events))
        ==> !UsesWork(AttemptsOf(left), workId))
  {
    hide HoldsAny;
    hide UsesWork;
    hide Run;
    hide Reachable;
    hide AllQuiet;
    if HoldsAny(w.proc.value, workId) {
      TraceSurfaces(chain, identity, w, workId);
    } else {
      AbsentThroughout(chain, identity, w, workId);
    }
  }

  lemma TraceSurfaces(chain: Chain, identity: Identity, w: World, workId: WorkId)
    requires ValidIdentity(identity) && Reachable(chain, identity, w) && w.proc.Some? && HoldsAny(w.proc.value, workId)
    ensures CanSurface(chain, w, workId, false) && (Released(w) ==> CanSurface(chain, w, workId, true))
  {
    hide *;
    CommittedIsKept(chain, identity, w);
    HeldSurfaces(chain, w, workId);
    if Released(w) { ReleasedSurfaces(chain, w, workId); }
  }

  lemma AbsentThroughout(chain: Chain, identity: Identity, w: World, workId: WorkId)
    requires ValidIdentity(identity) && Reachable(chain, identity, w) && w.proc.Some? && !HoldsAny(w.proc.value, workId)
    ensures forall events, left :: AllQuiet(events) && left in Run(chain, w, events).out.surviving ==> !UsesWork(AttemptsOf(left), workId)
  {
    hide *;
    forall events, left | AllQuiet(events) && left in Run(chain, w, events).out.surviving
      ensures !UsesWork(AttemptsOf(left), workId)
    {
      UnrecordedMeansAbsent(chain, identity, w, events, workId);
    }
  }

  lemma CommittedIsKept(chain: Chain, identity: Identity, w: World)
    requires ValidIdentity(identity) && Reachable(chain, identity, w)
    ensures Inv(chain, w) && KeepsCommitted(w)
  {
    ReachableInv(chain, identity, w);
    var events :| Run(chain, Initial(identity), events) == w;
    InitialIsSound(chain, identity);
    hide *;
    RunKeepsCommitted(chain, Initial(identity), events);
  }

  lemma InitialIsSound(chain: Chain, identity: Identity)
    requires ValidIdentity(identity)
    ensures Inv(chain, Initial(identity)) && KeepsCommitted(Initial(identity))
  {
  }
}
