/** Exclusive inspection ownership under every interleaving of a handle's calls,
    its finish, its abandonment, and everything else the signer may be asked. */
module InspectionOwnership {
  import opened Journal
  import opened JournalStore
  import opened Blocks
  import opened Inspections
  import opened SignerGate
  import opened Transitions
  import opened NonceSync
  import opened CoordinatorState
  import opened World
  import opened RunInvariant

  predicate Authorized(c: State) { c.permit.Some? || c.inclusionChecksComplete }

  /** While an inspection is owned, nothing is prepared or sent and a new inspection
      cannot begin, whoever asks. */
  lemma OwnedSignerIsClosed(chain: Chain, identity: Identity, w: World, e: Event)
    requires ValidIdentity(identity) && Reachable(chain, identity, w)
    requires w.proc.Some? && w.proc.value.owner.Some?
    ensures !w.proc.value.GateOpen() && !w.proc.value.CanBroadcast()
    ensures e.Begin? || e.Prepare? || e.Broadcast? || e.Retry? ==> Step(chain, w, e) == w
    ensures Step(chain, w, e).out.sends == w.out.sends
  {
    hide *;
    OutsideWorkIsInert(chain, w, e);
    if e.StoreSaved? {
      ReachableInv(chain, identity, w);
      OwnedSaveIsNoSend(chain, w);
      SaveWithoutSend(chain, w);
    } else if !e.Broadcast? {
      SendsNeedBroadcast(chain, w, e);
    }
  }

  lemma OutsideWorkIsInert(chain: Chain, w: World, e: Event)
    requires w.proc.Some? && w.proc.value.owner.Some?
    ensures !w.proc.value.GateOpen() && !w.proc.value.CanBroadcast()
    ensures e.Begin? || e.Prepare? || e.Broadcast? || e.Retry? ==> Step(chain, w, e) == w
  {
    hide State.Gate;
    hide Possible;
    hide NextSend;
    hide SaveCommitted;
    hide UsesWork;
  }

  lemma SaveWithoutSend(chain: Chain, w: World)
    requires w.proc.Some? && (AwaitsStore(w.proc.value) ==> !StartsSend(w.proc.value))
    ensures Step(chain, w, StoreSaved).out.sends == w.out.sends
  {
    hide NextSend;
    hide SaveCommitted;
  }

  lemma OwnedSaveIsNoSend(chain: Chain, w: World)
    requires Inv(chain, w) && w.proc.Some? && w.proc.value.owner.Some?
    ensures AwaitsStore(w.proc.value) ==> !StartsSend(w.proc.value)
  {
    hide DiskInv;
    hide SendsInv;
    hide PersistInv;
    hide FactsInv;
  }

  lemma SendsNeedBroadcast(chain: Chain, w: World, e: Event)
    requires !e.Broadcast? && !e.StoreSaved?
    ensures Step(chain, w, e).out.sends == w.out.sends
  {
    hide Local;
    hide Possible;
    hide PlanNonceSync;
  }

  /** An inspection that was not used, or whose head bracket failed, leaves no
      authorization behind. */
  lemma UntrustedInspectionGrantsNothing(chain: Chain, identity: Identity, w: World)
    requires ValidIdentity(identity) && Reachable(chain, identity, w)
    requires w.proc.Some? && w.proc.value.owner.Some? && Untrusted(w.proc.value.owner.value)
    ensures !Authorized(w.proc.value)
  {
    ReachableInv(chain, identity, w);
  }

  predicate Abandoning(c: State) { c.owner.Some? && c.owner.value.abandoning }

  /** After an event: still abandoning the same inspection, or released with no
      authorization at all. */
  predicate AbandonedOrReleased(c: State, c': State)
    requires c.owner.Some?
  {
    && c'.generation == c.generation
    && (c'.owner.Some? ==> Abandoning(c') && c'.owner.value.generation == c.owner.value.generation)
    && (c'.owner.None? ==> !Authorized(c') && !c'.GateOpen() && !c'.CanBroadcast())
  }

  lemma GateNeedsChecks(c: State)
    requires !c.inclusionChecksComplete
    ensures !c.GateOpen()
  {
    GateMeaning(c.persistence.state, c.persistence.current, c.recoveryComplete, c.inclusionChecksComplete, c.capacity, c.latched);
  }

  lemma CommitKeepsHandle(c: State)
    requires AwaitsStore(c) ==> c.pendingWrite.Some?
    ensures SameHandle(c, SaveCommitted(c))
  {
    hide FinishWrite;
    hide Settle;
    hide RecoveryPermits;
    hide InclusionsPermit;
    if c.task.Saving? {
      match c.task.continuation
      case AfterBootstrap =>
      case AfterRecovery(_) =>
      case AfterInclusions(_) =>
      case AfterPrepare(_, _) =>
      case AfterMark(_) =>
    }
  }

  lemma StartKeepsHandle(c: State)
    ensures SameHandle(c, StartOperation(c))
  {
    hide Settle;
  }

  lemma RepliesKeepHandle(c: State, e: Event)
    requires e.HeadReply? || e.BootstrapReply? || e.RecoveryReply? || e.InclusionsReply?
    ensures SameHandle(c, Local(c, e))
  {
    hide InclusionsRead;
    hide RecoveryRead;
    hide Settle;
    hide Bootstrap;
    hide Valid;
    if e.RecoveryReply? { RecoveryKeepsHandle(c, e.recovery); }
    if e.InclusionsReply? { SweepKeepsHandle(c, e.inclusions, e.closing); }
  }

  lemma RecoveryKeepsHandle(c: State, r: RecoveryInspection)
    ensures SameHandle(c, RecoveryRead(c, r))
  {
    hide Settle;
    hide PlanRecovery;
    hide Valid;
  }

  lemma SweepKeepsHandle(c: State, r: InclusionInspection, closing: AnchorCheck)
    ensures SameHandle(c, InclusionsRead(c, r, closing))
  {
    hide Settle;
    hide PlanInclusions;
    hide Valid;
  }

  lemma FailuresKeepHandle(c: State, e: Event)
    requires e.VerificationFailed? || e.StoreFailed?
    ensures SameHandle(c, Local(c, e))
  {
    hide Settle;
    hide StartOperation;
  }

  /** Only four events begin or end ownership. */
  lemma HandleSteps(c: State, e: Event)
    requires !e.Begin? && !e.Finish? && !e.Abandon? && !e.AbandonmentSettles?
    ensures SameHandle(c, Local(c, e))
  {
    hide State.Gate;
    hide Settle;
    hide StartOperation;
    hide BootstrapObserved;
    hide RecoveryRead;
    hide InclusionsRead;
    hide HeadOpened;
    hide SaveRejected;
    hide SaveFailed;
    hide PlanPrepare;
    hide Valid;
    hide UsesWork;
    if e.Start? {
      StartKeepsHandle(c);
    } else if e.HeadReply? || e.BootstrapReply? || e.RecoveryReply? || e.InclusionsReply? {
      RepliesKeepHandle(c, e);
    } else if e.VerificationFailed? || e.StoreFailed? {
      FailuresKeepHandle(c, e);
    }
  }

  /** Advancing keeps the handle unless the event is one of the four. */
  lemma HandleAdvances(c: State, e: Event)
    requires AwaitsStore(c) ==> c.pendingWrite.Some?
    requires !e.Begin? && !e.Finish? && !e.Abandon? && !e.AbandonmentSettles? && !e.Broadcast?
    ensures SameHandle(c, Advance(c, e))
  {
    hide Local;
    hide SaveCommitted;
    if e.StoreSaved? { CommitKeepsHandle(c); }
    else if !e.VerificationPassed? { HandleSteps(c, e); }
  }

  lemma AbandonmentStep(c: State, e: Event)
    requires Abandoning(c) && (AwaitsStore(c) ==> c.pendingWrite.Some?)
    ensures AbandonedOrReleased(c, Advance(c, e))
  {
    hide State.Gate;
    if e.Begin? || e.Finish? || e.Abandon? || e.AbandonmentSettles? {
      if Local(c, e).owner.None? { GateNeedsChecks(Local(c, e)); }
    } else if e.Broadcast? {
      assert BroadcastAttempt(c, e.id) == c;
    } else {
      HandleAdvances(c, e);
      hide Advance;
    }
  }

  /** Abandonment under any interleaving: the inspection stays owned until it settles,
      and whatever its operation granted meanwhile, the moment it is released the
      signer holds no permit and no inclusion authorization. */
  lemma AbandonmentRevokes(chain: Chain, identity: Identity, w: World, e: Event)
    requires ValidIdentity(identity) && Reachable(chain, identity, w)
    requires w.proc.Some? && Abandoning(w.proc.value) && !Restarts(e)
    ensures Step(chain, w, e).proc.Some?
    ensures AbandonedOrReleased(w.proc.value, Step(chain, w, e).proc.value)
  {
    ReachableInv(chain, identity, w);
    ProcessStep(chain, w, e);
    hide *;
    AbandonmentStays(w.proc.value);
    AbandonmentStep(w.proc.value, e);
  }

  lemma AbandonmentStays(c: State)
    requires Abandoning(c)
    ensures AbandonedOrReleased(c, c)
  {
  }

  /** The handle of generation `g` no longer owns the coordinator. */
  predicate Released(w: World, g: nat) {
    w.proc.Some? && Past(w.proc.value, g)
  }

  /** The handle cannot be the owner of this state, or of any later one. */
  predicate Past(c: State, g: nat) { g <= c.generation && !c.Owns(g) }

  lemma PastStays(c: State, e: Event, g: nat)
    requires Past(c, g) && (AwaitsStore(c) ==> c.pendingWrite.Some?)
    ensures Past(Advance(c, e), g)
  {
    if !e.Begin? && !e.Finish? && !e.Abandon? && !e.AbandonmentSettles? && !e.Broadcast? {
      HandleAdvances(c, e);
      hide Advance;
    }
  }

  lemma ReleasedStep(chain: Chain, w: World, e: Event, g: nat)
    requires Inv(chain, w) && Released(w, g) && !Restarts(e)
    ensures Released(Step(chain, w, e), g)
  {
    ProcessStep(chain, w, e);
    PastStays(w.proc.value, e, g);
    hide Inv;
    hide Step;
    hide Past;
    hide Advance;
  }

  lemma {:induction false} ReleasedForever(chain: Chain, w: World, events: seq<Event>, g: nat)
    requires Inv(chain, w) && Released(w, g)
    requires forall k :: 0 <= k < |events| ==> !Restarts(events[k])
    ensures Released(Run(chain, w, events), g)
  {
    if events != [] {
      var before := events[..|events| - 1];
      ReleasedForever(chain, w, before, g);
      RunKeeps(chain, w, before);
      ReleasedStep(chain, Run(chain, w, before), events[|events| - 1], g);
    }
  }

  /** Once finished or abandoned a handle never acts again: whatever the process did
      since, its calls, its finish and its abandonment change nothing. */
  lemma StaleHandleIsInert(chain: Chain, identity: Identity, w: World, events: seq<Event>, g: nat, e: Event)
    requires ValidIdentity(identity) && Reachable(chain, identity, w) && Released(w, g)
    requires forall k :: 0 <= k < |events| ==> !Restarts(events[k])
    requires (e.Call? || e.Finish? || e.Abandon?) && e.generation == g
    ensures var w' := Run(chain, w, events);
      Step(chain, w', e) == w'
  {
    hide *;
    ReachableInv(chain, identity, w);
    ReleasedForever(chain, w, events, g);
    PastHandle(chain, Run(chain, w, events), g, e);
  }

  lemma PastHandle(chain: Chain, w: World, g: nat, e: Event)
    requires Released(w, g) && (e.Call? || e.Finish? || e.Abandon?) && e.generation == g
    ensures Step(chain, w, e) == w
  {
  }

  /** Outside an owned inspection authorization only comes from preparing: a permit
      for the attempt just stored, or the earlier inclusion check put back when
      that attempt was refused. */
  predicate NoNewAuthority(c: State, c': State) {
    && (c'.permit.Some? && c'.permit != c.permit ==>
          c.task.Saving? && c.task.continuation.AfterPrepare? && c'.permit == Some(c.task.continuation.id))
    && (c'.inclusionChecksComplete && !c.inclusionChecksComplete ==>
          c.task.Saving? && c.task.continuation.AfterPrepare? && c.task.continuation.checkedBefore)
  }

  lemma UnownedCommit(chain: Chain, o: Outside, c: State)
    requires ProcInv(chain, o, c) && c.owner.None? && AwaitsStore(c)
    ensures NoNewAuthority(c, SaveCommitted(c))
  {
    hide DurableRecoveryRevision;
    hide SearchReachedObservation;
  }

  lemma UnownedLocal(chain: Chain, o: Outside, c: State, e: Event)
    requires ProcInv(chain, o, c) && c.owner.None? && !e.Begin?
    ensures NoNewAuthority(c, Local(c, e))
  {
    hide State.Gate;
    hide PlanRecovery;
    hide PlanInclusions;
    hide PlanPrepare;
    hide Valid;
    hide UsesWork;
    hide DiskInv;
  }

  lemma AuthorityNeedsInspection(chain: Chain, identity: Identity, w: World, e: Event)
    requires ValidIdentity(identity) && Reachable(chain, identity, w)
    requires w.proc.Some? && w.proc.value.owner.None? && !Restarts(e)
    ensures Step(chain, w, e).proc.Some?
    ensures NoNewAuthority(w.proc.value, Step(chain, w, e).proc.value)
  {
    ReachableInv(chain, identity, w);
    ProcessStep(chain, w, e);
    UnownedAdvance(chain, w.out, w.proc.value, e);
    hide *;
    NoChangeIsNoAuthority(w.proc.value);
  }

  lemma NoChangeIsNoAuthority(c: State)
    ensures NoNewAuthority(c, c)
  {
  }

  lemma UnownedAdvance(chain: Chain, o: Outside, c: State, e: Event)
    requires ProcInv(chain, o, c) && c.owner.None?
    ensures NoNewAuthority(c, Advance(c, e))
  {
    if e.StoreSaved? {
      if AwaitsStore(c) { UnownedCommit(chain, o, c); }
    } else if !e.Begin? && !e.Broadcast? && !e.VerificationPassed? {
      UnownedLocal(chain, o, c, e);
      hide Local;
    }
    hide ProcInv;
    hide SaveCommitted;
  }
}
