/** An attempt leaves the journal on evidence only: whatever a run did, and whatever a
    power loss leaves, the write that dropped it names an outcome of that very attempt
    in a block at or below a durable anchor. */
module Retirement {
  import opened Journal
  import opened JournalHistory
  import opened JournalStore
  import opened Blocks
  import opened Inspections
  import opened Transitions
  import opened NonceSync
  import opened CoordinatorState
  import opened World
  import opened RunInvariant
  import SignerGate

  /** Evidence that a replacement took the resolved nonce is true of the block it names. */
  ghost predicate TrueEvidence(chain: Chain, e: Entry) {
    e.write.Resolved? ==>
      e.journal.durableNextNonce > 0
      && Backed(chain, e.journal.identity.signer, e.journal.durableNextNonce - 1, e.write.evidence.block, e.write.evidence.outcome)
  }

  ghost predicate AllTrue(chain: Chain, h: seq<Entry>) {
    forall i :: 0 <= i < |h| ==> TrueEvidence(chain, h[i])
  }

  // One history

  /** Write `e` dropped exactly the attempt `a` of `s`, and on which evidence. */
  ghost predicate Retired(chain: Chain, s: Snapshot, e: Entry, a: Attempt) {
    && e.write.Resolved? && |s.attempts| > 0 && Kept(a, s.attempts[0]) && e.journal.attempts == s.attempts[1..]
    && Resolves(s.attempts[0], e.write.evidence)
    && Backed(chain, e.journal.identity.signer, a.nonce, e.write.evidence.block, e.write.evidence.outcome)
    && e.journal.lastObservation.nonce > a.nonce
    && (e.journal.lastObservation.anchor == e.write.evidence.anchor
        || (Unattributed(s) && e.journal.lastObservation == s.lastObservation))
  }

  /** Nothing but a resolution drops a retained attempt, and it drops the oldest. */
  lemma OnlyResolvingDrops(chain: Chain, c: Snapshot, e: Entry, nonce: nat)
    requires Sound(c) && Follows(c, e) && TrueEvidence(chain, e)
    requires Retains(c, nonce) && !Retains(e.journal, nonce)
    ensures nonce == c.durableNextNonce && Retired(chain, c, e, At(c, nonce))
  {
  }

  lemma KeptIsRetired(chain: Chain, s: Snapshot, e: Entry, a: Attempt, b: Attempt)
    requires Kept(a, b) && Retired(chain, s, e, b)
    ensures Retired(chain, s, e, a)
  {
  }

  lemma {:induction false} HistoryRetires(chain: Chain, h: seq<Entry>, i: nat, j: nat, nonce: nat)
    requires History(h) && AllTrue(chain, h) && i <= j < |h|
    requires Retains(h[i].journal, nonce) && !Retains(h[j].journal, nonce)
    ensures exists k :: i < k <= j && Retired(chain, h[k - 1].journal, h[k], At(h[i].journal, nonce))
    decreases j
  {
    if !Retains(h[j - 1].journal, nonce) {
      HistoryRetires(chain, h, i, j - 1, nonce);
    } else {
      HistoryStep(h, j);
      HistoryStep(h, j - 1);
      AttemptPersists(h, i, j - 1, nonce);
      OnlyResolvingDrops(chain, h[j - 1].journal, h[j], nonce);
      KeptIsRetired(chain, h[j - 1].journal, h[j], At(h[i].journal, nonce), At(h[j - 1].journal, nonce));
    }
  }

  // Every run

  ghost predicate TrueSaving(chain: Chain, c: State) {
    c.task.Saving? && c.pendingWrite.Some? ==> TrueEvidence(chain, Entry(WriteOf(c.pendingWrite.value), c.task.next))
  }

  ghost predicate EvidenceInv(chain: Chain, w: World) {
    && AllTrue(chain, w.out.history)
    && (w.out.tentative.Some? ==> TrueEvidence(chain, w.out.tentative.value))
    && (w.proc.Some? ==> TrueSaving(chain, w.proc.value))
  }

  lemma PlannedEvidence(chain: Chain, s: Snapshot, latched: set<SignerGate.Blocker>, anchor: Anchor, range: nat, r: RecoveryInspection)
    requires RecoveryAnswers(chain, s, anchor, range, r) && PlanRecovery(s, latched, r).Store?
    ensures var plan := PlanRecovery(s, latched, r);
      TrueEvidence(chain, Entry(WriteOf(plan.kind), plan.next))
  {
  }

  lemma RecoveryKeepsEvidence(chain: Chain, c: State, r: RecoveryInspection)
    requires TrueSaving(chain, c) && Possible(chain, c, RecoveryReply(r))
    ensures TrueSaving(chain, RecoveryRead(c, r))
  {
    var s := c.persistence.current.value;
    if PlanRecovery(s, c.latched, r).Store? { PlannedEvidence(chain, s, c.latched, c.task.anchor, c.task.range, r); }
    hide PlanRecovery;
    hide Possible;
    hide Valid;
    hide Settle;
  }

  lemma LocalKeepsEvidence(chain: Chain, c: State, e: Event)
    requires TrueSaving(chain, c) && Possible(chain, c, e)
    ensures TrueSaving(chain, Local(c, e))
  {
    if e.RecoveryReply? {
      RecoveryKeepsEvidence(chain, c, e.recovery);
    } else {
      hide Possible;
      hide Settle;
      hide PlanInclusions;
      hide PlanPrepare;
      hide Valid;
      hide Backed;
      hide UsesWork;
    }
  }

  lemma CommittedIsNotSaving(c: State)
    requires AwaitsStore(c) && c.pendingWrite.Some? && (c.task.Saving? || c.task.Retrying?)
    ensures !SaveCommitted(c).task.Saving?
  {
    hide Settle;
    hide FinishWrite;
    hide RecoveryPermits;
    hide InclusionsPermit;
  }

  lemma OutwardKeepsEvidence(chain: Chain, o: Outside, c: State, e: Event)
    requires EvidenceInv(chain, World(o, Some(c))) && ProcInv(chain, o, c) && Possible(chain, c, e)
    ensures EvidenceInv(chain, Outward(o, c, e))
  {
    hide ProcInv;
    hide Possible;
    hide Local;
    hide SaveCommitted;
    hide BroadcastAttempt;
    hide NextSend;
    hide TrueEvidence;
    hide DurableRecoveryRevision;
    match e {
      case VerificationPassed =>
      case FileRenamed =>
      case StoreSaved => if AwaitsStore(c) { AcknowledgedKeepsEvidence(chain, o, c); }
      case Broadcast(id) => BroadcastKeepsEvidence(chain, c, id);
      case _ => LocalKeepsEvidence(chain, c, e);
    }
  }

  lemma AcknowledgedKeepsEvidence(chain: Chain, o: Outside, c: State)
    requires EvidenceInv(chain, World(o, Some(c))) && ProcInv(chain, o, c) && AwaitsStore(c)
    ensures c.pendingWrite.Some? && o.tentative.Some? && EvidenceInv(chain, Acknowledge(o, c))
  {
    hide ProcInv;
    hide SaveCommitted;
    hide NextSend;
    hide TrueEvidence;
    AwaitedSave(chain, o, c);
    CommittedIsNotSaving(c);
  }

  lemma BroadcastKeepsEvidence(chain: Chain, c: State, id: Uuid)
    requires TrueSaving(chain, c)
    ensures TrueSaving(chain, BroadcastAttempt(c, id))
  {
    hide PlanMark;
  }

  lemma RepairsNeedNoEvidence(chain: Chain)
    ensures forall s {:trigger Entry(Repaired, s)} :: TrueEvidence(chain, Entry(Repaired, s))
  {
  }

  lemma StepKeepsEvidence(chain: Chain, w: World, e: Event)
    requires Inv(chain, w) && EvidenceInv(chain, w)
    ensures EvidenceInv(chain, Step(chain, w, e))
  {
    hide ProcInv;
    hide DiskInv;
    hide SendsInv;
    hide Possible;
    hide Outward;
    hide PlanNonceSync;
    hide TrueEvidence;
    if e.RepairOffline? { RepairsNeedNoEvidence(chain); }
    if w.proc.Some? && Possible(chain, w.proc.value, e) { OutwardKeepsEvidence(chain, w.out, w.proc.value, e); }
  }

  lemma {:induction false} RunKeepsEvidence(chain: Chain, w: World, events: seq<Event>)
    requires Inv(chain, w) && EvidenceInv(chain, w)
    ensures EvidenceInv(chain, Run(chain, w, events))
  {
    hide Inv;
    hide Step;
    hide EvidenceInv;
    if events != [] {
      var before := events[..|events| - 1];
      RunKeepsEvidence(chain, w, before);
      RunKeeps(chain, w, before);
      StepKeepsEvidence(chain, Run(chain, w, before), events[|events| - 1]);
    }
  }

  /** The committed writes, and the one that is still uncertain: every image a power loss
      could leave is the journal of the last one or of the uncertain one. */
  function Writes(o: Outside): seq<Entry> {
    if o.tentative.Some? then o.history + [o.tentative.value] else o.history
  }

  /** In every run an attempt that one journal retains and a later one does not was
      dropped in between by a resolution of that very attempt, on evidence about its own
      signed bytes or a replacement that its block holds, at or below a durable anchor,
      with its nonce counted as consumed. */
  lemma RetiredOnEvidence(chain: Chain, identity: Identity, w: World, i: nat, j: nat, nonce: nat)
    requires ValidIdentity(identity) && Reachable(chain, identity, w) && i <= j < |Writes(w.out)|
    requires var h := Writes(w.out);
      Retains(h[i].journal, nonce) && !Retains(h[j].journal, nonce)
    ensures var h := Writes(w.out);
      exists k :: i < k <= j && Retired(chain, h[k - 1].journal, h[k], At(h[i].journal, nonce))
  {
    WritesAreTrue(chain, identity, w);
    hide *;
    HistoryRetires(chain, Writes(w.out), i, j, nonce);
  }

  lemma WritesAreTrue(chain: Chain, identity: Identity, w: World)
    requires ValidIdentity(identity) && Reachable(chain, identity, w)
    ensures History(Writes(w.out)) && AllTrue(chain, Writes(w.out))
    ensures forall left :: left in w.out.surviving ==> left == LastOf(w.out.history) || left == LastOf(Writes(w.out))
  {
    ReachableInv(chain, identity, w);
    var events :| Run(chain, Initial(identity), events) == w;
    assert EvidenceInv(chain, Initial(identity)) && Inv(chain, Initial(identity));
    RunKeepsEvidence(chain, Initial(identity), events);
    hide Run;
    if w.out.tentative.Some? { HistoryGrows(w.out.history, w.out.tentative.value); }
    forall left | left in w.out.surviving ensures InSurviving(w.out, left) {
    }
  }
}
