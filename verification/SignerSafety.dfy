/** What the signer guarantees in every run, through crashes, failed writes, power
    losses, restarts, reorganizations and any interleaving of its operations. */
module SignerSafety {
  import opened Journal
  import opened JournalHistory
  import opened JournalStore
  import opened Blocks
  import opened ReplacementSearch
  import opened Receipts
  import opened Inspections
  import opened SignerGate
  import opened Transitions
  import opened NonceSync
  import opened CoordinatorState
  import opened World
  import opened RunInvariant

  // Sends

  /** Any two transactions ever sent at one nonce are the same signed bytes of the
      same attempt. */
  lemma OneAttemptPerNonce(chain: Chain, identity: Identity, w: World, i: nat, j: nat)
    requires ValidIdentity(identity) && Reachable(chain, identity, w)
    requires i < j < |w.out.sends| && w.out.sends[i].nonce == w.out.sends[j].nonce
    ensures w.out.sends[i].id == w.out.sends[j].id && w.out.sends[i].raw == w.out.sends[j].raw
  {
    ReachableInv(chain, identity, w);
    var a, b, h := w.out.sends[i], w.out.sends[j], w.out.history;
    assert SentFrom(h, a) && SentFrom(h, b);
    AttemptPersists(h, a.at, b.at, a.nonce);
  }

  /** A journal image that has not forgotten a sent transaction: it still holds the
      attempt with the same bytes, not as merely signed, or has resolved its nonce. */
  ghost predicate RemembersSend(s: Snapshot, send: Send) {
    s.durableNextNonce > send.nonce || (
      && Retains(s, send.nonce)
      && var a := At(s, send.nonce);
         a.id == send.id && !a.phase.Signed? && |a.txs| > 0 && a.txs[|a.txs| - 1].raw == send.raw)
  }

  /** Whatever the next power loss leaves on disk still remembers every send: so does
      every image the disk could hold at all, the committed or the unconfirmed one. */
  lemma EverySendIsRemembered(chain: Chain, identity: Identity, w: World, i: nat, left: Option<Snapshot>)
    requires ValidIdentity(identity) && Reachable(chain, identity, w)
    requires i < |w.out.sends| && (left in w.out.surviving || InSurviving(w.out, left))
    ensures left.Some? && RemembersSend(left.value, w.out.sends[i])
  {
    ReachableInv(chain, identity, w);
    ImagesRemember(chain, w, i, left);
  }

  lemma ImagesRemember(chain: Chain, w: World, i: nat, left: Option<Snapshot>)
    requires Inv(chain, w) && i < |w.out.sends| && (left in w.out.surviving || InSurviving(w.out, left))
    ensures left.Some? && RemembersSend(left.value, w.out.sends[i])
  {
    var send, h := w.out.sends[i], w.out.history;
    assert SentFrom(h, send) && InSurviving(w.out, left);
    if left == LastOf(h) {
      AttemptPersists(h, send.at, |h| - 1, send.nonce);
    } else {
      var h' := h + [w.out.tentative.value];
      HistoryGrows(h, w.out.tentative.value);
      assert h'[send.at] == h[send.at];
      AttemptPersists(h', send.at, |h|, send.nonce);
    }
  }

  predicate OldestSent(s: Snapshot, send: Send) {
    var k := OldestUnresolved(s.attempts);
    && k < |s.attempts| && SentAttempt(s.attempts[k], send)
    && s.attempts[k].nonce == send.nonce == s.lastObservation.nonce
  }

  predicate HoldsNothing(c: State, id: Uuid) {
    c.task == Sending(id) && c.permit.None? && !c.recoveryComplete && !c.inclusionChecksComplete && c.owner.None?
  }

  /** What is true at the moment of a send. */
  predicate SendIsDurable(w: World, w': World) {
    && |w'.out.sends| == |w.out.sends| + 1 && w'.out.sends[..|w.out.sends|] == w.out.sends
    && w'.out.visible.Some? && w'.out.surviving == {w'.out.visible}
    && OldestSent(w'.out.visible.value, w'.out.sends[|w.out.sends|])
    && w'.proc.Some? && HoldsNothing(w'.proc.value, w'.out.sends[|w.out.sends|].id)
  }

  lemma ResendIsDurable(chain: Chain, o: Outside, c: State, id: Uuid)
    requires DiskInv(chain, o) && ProcInv(chain, o, c) && Transmit(o, c, id).out.sends != o.sends
    ensures SendIsDurable(World(o, Some(c)), Transmit(o, c, id))
  {
    assert c.CanBroadcast();
    LastIsSound(o.history);
    var s := c.persistence.current.value;
    assert ValidAttempt(s.attempts[OldestUnresolved(s.attempts)]);
    assert |NextSend(o)| == 1;
  }

  lemma MarkedSendIsDurable(chain: Chain, o: Outside, c: State)
    requires DiskInv(chain, o) && SendsInv(o) && ProcInv(chain, o, c) && AwaitsStore(c) && StartsSend(c)
    ensures SendIsDurable(World(o, Some(c)), Acknowledge(o, c))
  {
    var o' := Commit(o);
    CommitKeepsDisk(chain, o);
    LastIsSound(o'.history);
    var s := c.persistence.pending.value;
    assert ValidAttempt(s.attempts[OldestUnresolved(s.attempts)]);
    assert |NextSend(o')| == 1;
  }

  lemma QuietEvent(chain: Chain, w: World, e: Event)
    requires !e.Broadcast? && !e.StoreSaved?
    ensures Step(chain, w, e).out.sends == w.out.sends
  {
    hide Local;
    hide Possible;
    hide PlanNonceSync;
  }

  /** A send happens only once every image a power loss could leave is the journal
      that marks the sent attempt, which is the oldest one not included, at the
      committed observed nonce; the process holds no further authorization. */
  lemma SendDiscipline(chain: Chain, identity: Identity, w: World, e: Event)
    requires ValidIdentity(identity) && Reachable(chain, identity, w)
    requires Step(chain, w, e).out.sends != w.out.sends
    ensures SendIsDurable(w, Step(chain, w, e))
  {
    hide SendIsDurable;
    hide Inv;
    hide DiskInv;
    hide SendsInv;
    hide ProcInv;
    hide NextSend;
    hide SaveCommitted;
    hide BroadcastAttempt;
    hide Possible;
    ReachableInv(chain, identity, w);
    InvParts(chain, w);
    if e.Broadcast? {
      ResendIsDurable(chain, w.out, w.proc.value, e.id);
    } else if e.StoreSaved? {
      MarkedSendIsDurable(chain, w.out, w.proc.value);
    } else {
      QuietEvent(chain, w, e);
    }
  }

  lemma InvParts(chain: Chain, w: World)
    requires Inv(chain, w)
    ensures DiskInv(chain, w.out) && SendsInv(w.out) && (w.proc.Some? ==> ProcInv(chain, w.out, w.proc.value))
  {
    hide DiskInv;
    hide SendsInv;
    hide ProcInv;
  }

  /** Between any two sends at least one recovery pass was persisted. */
  lemma PassBetweenSends(chain: Chain, identity: Identity, w: World, i: nat, j: nat)
    requires ValidIdentity(identity) && Reachable(chain, identity, w) && i < j < |w.out.sends|
    ensures w.out.sends[i].passes < w.out.sends[j].passes <= w.out.passes
  {
    ReachableInv(chain, identity, w);
  }

  /** At each send every older retained attempt was included. */
  lemma PredecessorsIncluded(chain: Chain, identity: Identity, w: World, i: nat, nonce: nat)
    requires ValidIdentity(identity) && Reachable(chain, identity, w) && i < |w.out.sends|
    requires var send := w.out.sends[i];
      send.at < |w.out.history| && Retains(w.out.history[send.at].journal, nonce) && nonce < send.nonce
    ensures At(w.out.history[w.out.sends[i].at].journal, nonce).phase.Included?
    ensures w.out.history[w.out.sends[i].at].journal.lastObservation.nonce == w.out.sends[i].nonce
  {
    ReachableInv(chain, identity, w);
    assert SentFrom(w.out.history, w.out.sends[i]);
  }

  /** Only the holder of the permit for the oldest unresolved attempt starts a
      broadcast, and starting one uses the permit up. */
  lemma BroadcastConsumesPermit(c: State, id: Uuid)
    requires BroadcastAttempt(c, id) != c
    ensures c.CanBroadcast() && c.permit == Some(id)
    ensures BroadcastAttempt(c, id).permit.None? && !BroadcastAttempt(c, id).CanBroadcast()
    ensures forall other :: BroadcastAttempt(BroadcastAttempt(c, id), other) == BroadcastAttempt(c, id)
  {
  }

  /** In a reachable state the permit alone decides: a released, idle signer may
      broadcast exactly when it holds one. */
  lemma PermitMeansBroadcast(chain: Chain, identity: Identity, w: World)
    requires ValidIdentity(identity) && Reachable(chain, identity, w) && w.proc.Some?
    ensures var c := w.proc.value;
      && (c.CanBroadcast() <==> c.permit.Some? && c.owner.None?)
      && (c.permit.Some? ==> c.persistence.current.Some? && SendableFacts(c.persistence.current.value, c.permit.value))
  {
    ReachableInv(chain, identity, w);
  }

  // The gate

  /** An open gate means the chain has counted exactly the allocated nonces, every
      retained attempt is included below that count, and there is room. */
  lemma OpenGateMeaning(chain: Chain, identity: Identity, w: World)
    requires ValidIdentity(identity) && Reachable(chain, identity, w)
    requires w.proc.Some? && w.proc.value.GateOpen()
    ensures w.proc.value.persistence.current.Some? && w.out.surviving == {w.proc.value.persistence.current}
    ensures var s := w.proc.value.persistence.current.value;
      && s.lastObservation.nonce == s.nextNonce && |s.attempts| < w.proc.value.capacity
      && forall k :: 0 <= k < |s.attempts| ==> s.attempts[k].phase.Included? && s.attempts[k].nonce < s.lastObservation.nonce
  {
    hide *;
    ReachableInv(chain, identity, w);
    GateFacts(chain, w);
    CurrentIsSound(chain, w);
    IncludedBelowCount(w.proc.value.persistence.current.value);
  }

  /** What the gate itself and the invariant give. */
  lemma GateFacts(chain: Chain, w: World)
    requires Inv(chain, w) && w.proc.Some? && w.proc.value.GateOpen()
    ensures var c := w.proc.value;
      && c.persistence.current.Some? && c.persistence.state.Idle? && CheckedFacts(c.persistence.current.value)
      && |c.persistence.current.value.attempts| < c.capacity && !Unattributed(c.persistence.current.value)
    ensures w.out.surviving == {w.proc.value.persistence.current}
  {
    hide TaskInv;
    hide SendsInv;
    hide DiskInv;
    var c := w.proc.value;
    GateMeaning(c.persistence.state, c.persistence.current, c.recoveryComplete, c.inclusionChecksComplete, c.capacity, c.latched);
  }

  lemma CurrentIsSound(chain: Chain, w: World)
    requires Inv(chain, w) && w.proc.Some? && w.proc.value.persistence.current.Some?
    ensures Valid(w.proc.value.persistence.current.value)
  {
    hide TaskInv;
    hide FactsInv;
    hide SendsInv;
    hide Valid;
    LastIsSound(w.out.history);
  }

  /** A complete check without unattributed activity: the count is the next nonce. */
  lemma IncludedBelowCount(s: Snapshot)
    requires Valid(s) && CheckedFacts(s) && !Unattributed(s)
    ensures s.lastObservation.nonce == s.nextNonce
    ensures forall k :: 0 <= k < |s.attempts| ==> s.attempts[k].phase.Included? && s.attempts[k].nonce < s.lastObservation.nonce
  {
  }

  /** A released signer that is not busy always names a reason for a closed gate. */
  lemma ClosedGateHasReason(chain: Chain, identity: Identity, w: World)
    requires ValidIdentity(identity) && Reachable(chain, identity, w) && w.proc.Some?
    requires w.proc.value.Available() && !w.proc.value.GateOpen()
    ensures w.proc.value.Gate().primary.Some?
  {
    ReachableInv(chain, identity, w);
    var c := w.proc.value;
    GateMeaning(c.persistence.state, c.persistence.current, c.recoveryComplete, c.inclusionChecksComplete, c.capacity, c.latched);
  }

  /** Recorded unattributed activity keeps the gate closed, through restarts and
      lower counts, until a nonce repair is committed. */
  lemma ActivityClosesGate(chain: Chain, identity: Identity, w: World, i: nat)
    requires ValidIdentity(identity) && Reachable(chain, identity, w) && w.proc.Some?
    requires i < |w.out.history| && Unattributed(w.out.history[i].journal)
    requires forall m :: i < m < |w.out.history| ==> w.out.history[m].write != Repaired
    ensures UnattributedActivity in w.proc.value.latched && !w.proc.value.GateOpen() && !w.proc.value.CanBroadcast()
    ensures w.proc.value.persistence.current.Some?
    ensures w.proc.value.persistence.current.value.lastObservation.nonce >= w.out.history[i].journal.lastObservation.nonce
  {
    hide *;
    ReachableInv(chain, identity, w);
    CurrentIsLast(chain, w);
    ActivityPersists(w.out.history, i, |w.out.history| - 1);
    ActivityCloses(chain, w);
  }

  lemma CurrentIsLast(chain: Chain, w: World)
    requires Inv(chain, w) && w.proc.Some?
    ensures History(w.out.history) && w.proc.value.persistence.current == LastOf(w.out.history)
    ensures w.out.history != [] ==> LastOf(w.out.history) == Some(w.out.history[|w.out.history| - 1].journal)
    ensures ActivityLatched(w.proc.value)
  {
    hide TaskInv;
    hide SendsInv;
  }

  lemma ActivityCloses(chain: Chain, w: World)
    requires Inv(chain, w) && w.proc.Some? && w.proc.value.persistence.current.Some? && Unattributed(w.proc.value.persistence.current.value)
    ensures UnattributedActivity in w.proc.value.latched && !w.proc.value.GateOpen() && !w.proc.value.CanBroadcast()
  {
    hide TaskInv;
    hide SendsInv;
    hide DiskInv;
    hide PersistInv;
    var c := w.proc.value;
    assert UnattributedActivity in c.latched;
    hide FactsInv;
    GateMeaning(c.persistence.state, c.persistence.current, c.recoveryComplete, c.inclusionChecksComplete, c.capacity, c.latched);
  }

  // Accounting

  /** Nonces are conserved over every run: allocation since the baseline equals
      resolved plus repaired over plus retained, and no counter passes the count. */
  lemma RunConservesNonces(chain: Chain, identity: Identity, w: World)
    requires ValidIdentity(identity) && Reachable(chain, identity, w) && w.out.history != []
    ensures var h := w.out.history;
      var s := h[|h| - 1].journal;
      && Conserved(s, Resolutions(h), RepairLog(h)) && s.baseline == h[0].journal.baseline
      && s.durableNextNonce <= s.lastObservation.nonce && Valid(s)
  {
    ReachableInv(chain, identity, w);
    NoncesConserved(w.out.history);
    LastIsSound(w.out.history);
  }

  /** Neither counter ever moves back between two committed journals. */
  lemma RunCountersGrow(chain: Chain, identity: Identity, w: World, i: nat, j: nat)
    requires ValidIdentity(identity) && Reachable(chain, identity, w) && i <= j < |w.out.history|
    ensures w.out.history[i].journal.nextNonce <= w.out.history[j].journal.nextNonce
    ensures w.out.history[i].journal.durableNextNonce <= w.out.history[j].journal.durableNextNonce
  {
    ReachableInv(chain, identity, w);
    CountersGrow(w.out.history, i, j);
  }

  /** While persistence is idle the disk holds exactly the current journal; while a
      write is uncertain it holds that or the exact pending snapshot. */
  lemma DiskMatchesProcess(chain: Chain, identity: Identity, w: World)
    requires ValidIdentity(identity) && Reachable(chain, identity, w) && w.proc.Some?
    ensures var p := w.proc.value.persistence;
      && (p.state.Idle? ==> w.out.visible == p.current && w.out.surviving == {p.current})
      && (p.state.Broken? ==> p.pending.Some?)
      && forall left :: left in w.out.surviving ==> left == p.current || (left.Some? && left == p.pending)
  {
    ReachableInv(chain, identity, w);
    forall left | left in w.out.surviving
      ensures left == w.proc.value.persistence.current || (left.Some? && left == w.proc.value.persistence.pending)
    {
      assert InSurviving(w.out, left);
    }
  }

  /** No stored search ever claims to cover a block that spends the nonce, and every
      stored replacement names the transaction that does. */
  lemma StoredEvidenceIsTrue(chain: Chain, identity: Identity, w: World, i: nat, k: nat)
    requires ValidIdentity(identity) && Reachable(chain, identity, w)
    requires i < |w.out.history| && k < |w.out.history[i].journal.attempts|
    ensures TruthfulAttempt(chain, w.out.history[i].journal.identity.signer, w.out.history[i].journal.attempts[k])
  {
    ReachableInv(chain, identity, w);
    assert Truthful(chain, w.out.history[i].journal);
  }

  /** The errors a recovery pass reserves for itself cannot happen: its plan is
      never internally contradictory, and passes the structural check exactly when
      the anchor's block number fits 256 bits. */
  lemma RecoveryNeverFailsInternally(chain: Chain, identity: Identity, w: World, r: RecoveryInspection)
    requires ValidIdentity(identity) && Reachable(chain, identity, w) && w.proc.Some?
    requires w.proc.value.task.Recovering? && Possible(chain, w.proc.value, RecoveryReply(r))
    ensures var c := w.proc.value;
      var plan := PlanRecovery(c.persistence.current.value, c.latched, r);
      !plan.InternalError?
      && (plan.Store? ==> (Valid(plan.next) <==> ValidAnchor(c.task.anchor)))
  {
    ReachableInv(chain, identity, w);
    LastIsSound(w.out.history);
    var c := w.proc.value;
    RecoveryFollows(chain, c.persistence.current.value, c.latched, c.task.anchor, c.task.range, r);
  }

  /** Whatever is being saved passes the check that persistence makes first; only a
      first observation at a block number beyond 256 bits is refused. */
  lemma SavesAreValid(chain: Chain, identity: Identity, w: World)
    requires ValidIdentity(identity) && Reachable(chain, identity, w) && w.proc.Some? && w.proc.value.task.Saving?
    ensures var task := w.proc.value.task;
      && (Valid(task.next) <==> (task.continuation.AfterBootstrap? ==> ValidAnchor(task.next.baseline.anchor)))
      && (Valid(task.next) ==> Sound(task.next) && task.next.identity == identity)
  {
    ReachableInv(chain, identity, w);
    IdentityNeverChanges(chain, identity, w);
  }

  lemma IdentityNeverChanges(chain: Chain, identity: Identity, w: World)
    requires Reachable(chain, identity, w)
    ensures w.out.identity == identity
  {
    var events :| Run(chain, Initial(identity), events) == w;
    RunKeepsIdentity(chain, identity, events);
  }

  lemma {:induction false} RunKeepsIdentity(chain: Chain, identity: Identity, events: seq<Event>)
    ensures Run(chain, Initial(identity), events).out.identity == identity
  {
    if events != [] { RunKeepsIdentity(chain, identity, events[..|events| - 1]); }
  }

  /** The revision that lets a durable pass be skipped is never stale while recovery
      counts as complete, although marking a broadcast does not refresh it. */
  lemma RevisionIsCurrent(chain: Chain, identity: Identity, w: World)
    requires ValidIdentity(identity) && Reachable(chain, identity, w) && w.proc.Some? && w.proc.value.recoveryComplete
    ensures w.proc.value.revision == DurableRecoveryRevision(w.proc.value.persistence.current, w.proc.value.latched)
  {
    ReachableInv(chain, identity, w);
  }
}
