/** A run at whose end a submission is reported as unrecorded although its work may be
    on disk: the write of an earlier preparation failed, and its retry fails again
    before the new submission prepares anything. */
module FailedSubmissions {
  import opened Journal
  import opened JournalHistory
  import opened JournalStore
  import opened Blocks
  import opened Inspections
  import opened SignerGate
  import opened Transitions
  import opened CoordinatorState
  import opened World
  import opened RunInvariant
  import opened SubmissionRecording

  /** What the run signs, and for whom. */
  datatype Work = Work(id: Uuid, workId: WorkId, createdAt: Timestamp, tx: SignedTx)

  // The journals of the run: its first baseline at nonce 0, then one prepared attempt.

  function Start0(h: Hash): Observation { Observation(Anchor(0, h), 0) }

  function Empty(identity: Identity, h: Hash): Snapshot { Bootstrap(identity, Start0(h)) }

  function OneAttempt(identity: Identity, h: Hash, k: Work): Snapshot {
    PlanPrepare(Empty(identity, h), k.id, k.workId, k.createdAt, k.tx)
  }

  function Handle(active: bool, hasRun: bool): Option<Owner> { Some(Owner(1, active, false, hasRun, NoBracket)) }

  /** The process with nothing latched; its revision is that of the given journal. */
  function Process(identity: Identity, recovered: bool, checked: bool, busy: bool, generation: nat, owner: Option<Owner>,
                   kind: Option<PendingWrite>, seen: Option<Snapshot>, p: Persistence, task: Task): State
  {
    State(identity, 1, recovered, checked, busy, None, generation, owner, kind, {}, DurableRecoveryRevision(seen, {}), p, task)
  }

  function Disk(identity: Identity, visible: Option<Snapshot>, surviving: set<Option<Snapshot>>, history: seq<Entry>,
                tentative: Option<Entry>, passes: nat): Outside
  {
    Outside(identity, visible, surviving, history, tentative, [], passes)
  }

  // Recovery writes the baseline

  function Booted(identity: Identity): World {
    World(Disk(identity, None, {None}, [], None, 0),
          Some(Process(identity, false, false, false, 0, None, None, None, Persistence(Idle, None, None), Resting)))
  }

  function Bootstrapping(identity: Identity, h: Hash): World {
    World(Disk(identity, None, {None}, [], None, 0),
          Some(Process(identity, false, false, true, 1, Handle(true, true), None, None, Persistence(Idle, None, None),
                       Task.Bootstrapping(Anchor(0, h)))))
  }

  function Storing(identity: Identity, h: Hash): World {
    var s := Empty(identity, h);
    World(Disk(identity, None, {None}, [], Some(Entry(Bootstrapped, s)), 0),
          Some(Process(identity, false, false, true, 1, Handle(true, true), Some(PBootstrap), None,
                       Persistence(Writing, None, Some(s)), Saving(s, AfterBootstrap))))
  }

  function Recovered(identity: Identity, h: Hash): World {
    var s := Empty(identity, h);
    World(Disk(identity, Some(s), {Some(s)}, [Entry(Bootstrapped, s)], None, 1),
          Some(Process(identity, true, false, false, 1, Handle(false, true), None, Some(s), Persistence(Idle, Some(s), None), Resting)))
  }

  lemma Boots(chain: Chain, identity: Identity)
    ensures Step(chain, Initial(identity), Boot(1)) == Booted(identity)
  {
  }

  lemma StartsRecovery(chain: Chain, identity: Identity, h: Hash)
    ensures var w := Step(chain, Booted(identity), Begin);
      var called := Step(chain, w, Call(1, Recover(Anchor(0, h), 1)));
      Step(chain, called, Start) == Bootstrapping(identity, h)
  {
    hide DurableRecoveryRevision;
  }

  lemma StoresBaseline(chain: Chain, identity: Identity, h: Hash)
    requires ValidIdentity(identity)
    ensures Step(chain, Step(chain, Bootstrapping(identity, h), BootstrapReply(Ready(Start0(h)))), VerificationPassed) == Storing(identity, h)
  {
    hide DurableRecoveryRevision;
  }

  lemma Recovers(chain: Chain, identity: Identity, h: Hash)
    ensures Step(chain, Storing(identity, h), StoreSaved) == Recovered(identity, h)
  {
  }

  // The inclusion check authorizes the next preparation

  function Nothing(h: Hash): InclusionInspection { Inspected(Start0(h), [], true, None) }

  function Inspecting(identity: Identity, h: Hash): World {
    var s := Empty(identity, h);
    World(Disk(identity, Some(s), {Some(s)}, [Entry(Bootstrapped, s)], None, 1),
          Some(Process(identity, true, false, true, 1, Handle(true, true), None, Some(s), Persistence(Idle, Some(s), None),
                       Task.Inspecting(Anchor(0, h)))))
  }

  function StoringCheck(identity: Identity, h: Hash): World {
    var s := Empty(identity, h);
    World(Disk(identity, Some(s), {Some(s)}, [Entry(Bootstrapped, s)], Some(Entry(Observed, s)), 1),
          Some(Process(identity, true, false, true, 1, Handle(true, true), Some(PObservation), Some(s),
                       Persistence(Writing, Some(s), Some(s)), Saving(s, AfterInclusions(Nothing(h))))))
  }

  function Checked(identity: Identity, h: Hash, owner: Option<Owner>): World {
    var s := Empty(identity, h);
    World(Disk(identity, Some(s), {Some(s)}, [Entry(Bootstrapped, s), Entry(Observed, s)], None, 1),
          Some(Process(identity, true, true, false, 1, owner, None, Some(s), Persistence(Idle, Some(s), None), Resting)))
  }

  lemma StartsCheck(chain: Chain, identity: Identity, h: Hash)
    ensures Step(chain, Step(chain, Recovered(identity, h), Call(1, CheckInclusions(Anchor(0, h), None))), Start) == Inspecting(identity, h)
  {
    hide DurableRecoveryRevision;
  }

  lemma StoresCheck(chain: Chain, identity: Identity, h: Hash)
    requires ValidIdentity(identity)
    ensures Step(chain, Step(chain, Inspecting(identity, h), InclusionsReply(Nothing(h), Same)), VerificationPassed) == StoringCheck(identity, h)
  {
    hide DurableRecoveryRevision;
    var s := Empty(identity, h);
    assert s.(lastObservation := Start0(h), attempts := []) == s;
  }

  lemma Checks(chain: Chain, identity: Identity, h: Hash)
    ensures Step(chain, StoringCheck(identity, h), StoreSaved) == Checked(identity, h, Handle(false, true))
  {
  }

  lemma Releases(chain: Chain, identity: Identity, h: Hash)
    ensures Step(chain, Checked(identity, h, Handle(false, true)), Finish(1)) == Checked(identity, h, None)
  {
    hide DurableRecoveryRevision;
  }

  // The prepared attempt is renamed into place, and then the write fails

  function StoringAttempt(identity: Identity, h: Hash, k: Work): World {
    var s, next := Empty(identity, h), OneAttempt(identity, h, k);
    World(Disk(identity, Some(s), {Some(s)}, [Entry(Bootstrapped, s), Entry(Observed, s)], Some(Entry(Prepared, next)), 1),
          Some(Process(identity, true, false, true, 1, None, Some(PPrepared), Some(s),
                       Persistence(Writing, Some(s), Some(next)), Saving(next, AfterPrepare(k.id, true)))))
  }

  function Unconfirmed(identity: Identity, h: Hash, k: Work): World {
    var s, next := Empty(identity, h), OneAttempt(identity, h, k);
    World(Disk(identity, Some(next), {Some(s), Some(next)}, [Entry(Bootstrapped, s), Entry(Observed, s)], Some(Entry(Prepared, next)), 1),
          Some(Process(identity, false, false, false, 1, None, Some(PPrepared), Some(s),
                       Persistence(Broken, Some(s), Some(next)), Resting)))
  }

  function Signing(identity: Identity, h: Hash, k: Work): World {
    var s := Empty(identity, h);
    World(Disk(identity, Some(s), {Some(s)}, [Entry(Bootstrapped, s), Entry(Observed, s)], None, 1),
          Some(Process(identity, true, true, true, 1, None, None, Some(s), Persistence(Idle, Some(s), None), Task.Signing(k.workId))))
  }

  lemma StartsPreparing(chain: Chain, identity: Identity, h: Hash, k: Work)
    ensures Step(chain, Checked(identity, h, None), Prepare(k.workId)) == Signing(identity, h, k)
  {
    hide DurableRecoveryRevision;
    hide EvaluateSignerGate;
    GateMeaning(Idle, Some(Empty(identity, h)), true, true, 1, {});
  }

  function Signed(identity: Identity, h: Hash, k: Work): World {
    var s, next := Empty(identity, h), OneAttempt(identity, h, k);
    World(Disk(identity, Some(s), {Some(s)}, [Entry(Bootstrapped, s), Entry(Observed, s)], None, 1),
          Some(Process(identity, true, false, true, 1, None, Some(PPrepared), Some(s),
                       Persistence(Writing, Some(s), None), Saving(next, AfterPrepare(k.id, true)))))
  }

  lemma AttemptIsValid(identity: Identity, h: Hash, k: Work)
    requires ValidIdentity(identity)
    ensures Valid(OneAttempt(identity, h, k)) && OneAttempt(identity, h, k).identity == identity
  {
    assert Valid(Empty(identity, h));
    PrepareFollows(Empty(identity, h), k.id, k.workId, k.createdAt, k.tx);
  }

  lemma SignsAttempt(chain: Chain, identity: Identity, h: Hash, k: Work)
    requires ValidIdentity(identity)
    ensures Step(chain, Signing(identity, h, k), Signs(k.id, k.createdAt, k.tx)) == Signed(identity, h, k)
  {
    hide Valid;
    hide DurableRecoveryRevision;
    AttemptIsValid(identity, h, k);
    hide PlanPrepare;
  }

  lemma VerifiesAttempt(chain: Chain, identity: Identity, h: Hash, k: Work)
    requires ValidIdentity(identity)
    ensures Step(chain, Signed(identity, h, k), VerificationPassed) == StoringAttempt(identity, h, k)
  {
    hide Valid;
    hide DurableRecoveryRevision;
    AttemptIsValid(identity, h, k);
    hide PlanPrepare;
  }

  lemma FailsToConfirm(chain: Chain, identity: Identity, h: Hash, k: Work)
    ensures Step(chain, Step(chain, StoringAttempt(identity, h, k), FileRenamed), StoreFailed) == Unconfirmed(identity, h, k)
  {
    hide DurableRecoveryRevision;
  }

  /** The retry before the next submission fails too and changes nothing. */
  lemma FailsAgain(chain: Chain, identity: Identity, h: Hash, k: Work)
    ensures Step(chain, Step(chain, Unconfirmed(identity, h, k), Event.Retry), StoreFailed) == Unconfirmed(identity, h, k)
  {
    hide DurableRecoveryRevision;
  }

  // The run

  lemma RecoveredIsReachable(chain: Chain, identity: Identity, h: Hash)
    requires ValidIdentity(identity)
    ensures Reachable(chain, identity, Recovered(identity, h))
  {
    Boots(chain, identity);
    StartsRecovery(chain, identity, h);
    StoresBaseline(chain, identity, h);
    Recovers(chain, identity, h);
    assert Run(chain, Initial(identity), []) == Initial(identity);
    hide *;
    ReachableStep(chain, identity, Initial(identity), Boot(1));
    var begun := Step(chain, Booted(identity), Begin);
    ReachableStep(chain, identity, Booted(identity), Begin);
    ReachableStep(chain, identity, begun, Call(1, Recover(Anchor(0, h), 1)));
    ReachableStep(chain, identity, Step(chain, begun, Call(1, Recover(Anchor(0, h), 1))), Start);
    ReachableStep(chain, identity, Bootstrapping(identity, h), BootstrapReply(Ready(Start0(h))));
    ReachableStep(chain, identity, Step(chain, Bootstrapping(identity, h), BootstrapReply(Ready(Start0(h)))), VerificationPassed);
    ReachableStep(chain, identity, Storing(identity, h), StoreSaved);
  }

  lemma CheckedIsReachable(chain: Chain, identity: Identity, h: Hash)
    requires ValidIdentity(identity)
    ensures Reachable(chain, identity, Checked(identity, h, None))
  {
    hide *;
    RecoveredIsReachable(chain, identity, h);
    StartsCheck(chain, identity, h);
    StoresCheck(chain, identity, h);
    Checks(chain, identity, h);
    Releases(chain, identity, h);
    var call := Call(1, CheckInclusions(Anchor(0, h), None));
    ReachableStep(chain, identity, Recovered(identity, h), call);
    ReachableStep(chain, identity, Step(chain, Recovered(identity, h), call), Start);
    var reply := InclusionsReply(Nothing(h), Same);
    ReachableStep(chain, identity, Inspecting(identity, h), reply);
    ReachableStep(chain, identity, Step(chain, Inspecting(identity, h), reply), VerificationPassed);
    ReachableStep(chain, identity, StoringCheck(identity, h), StoreSaved);
    ReachableStep(chain, identity, Checked(identity, h, Handle(false, true)), Finish(1));
  }

  lemma UnconfirmedIsReachable(chain: Chain, identity: Identity, h: Hash, k: Work)
    requires ValidIdentity(identity)
    ensures Reachable(chain, identity, Unconfirmed(identity, h, k))
  {
    hide *;
    CheckedIsReachable(chain, identity, h);
    StartsPreparing(chain, identity, h, k);
    SignsAttempt(chain, identity, h, k);
    VerifiesAttempt(chain, identity, h, k);
    FailsToConfirm(chain, identity, h, k);
    var signs := Signs(k.id, k.createdAt, k.tx);
    ReachableStep(chain, identity, Checked(identity, h, None), Prepare(k.workId));
    ReachableStep(chain, identity, Signing(identity, h, k), signs);
    ReachableStep(chain, identity, Signed(identity, h, k), VerificationPassed);
    ReachableStep(chain, identity, StoringAttempt(identity, h, k), FileRenamed);
    ReachableStep(chain, identity, Step(chain, StoringAttempt(identity, h, k), FileRenamed), StoreFailed);
  }

  /** From this reachable state a new submission of the same work retries the failed
      write, fails before it prepares anything, and is reported as unrecorded; yet a
      power loss can leave an image that holds the work. */
  lemma UnrecordedCanBeUncertain(chain: Chain, identity: Identity, h: Hash, k: Work)
    requires ValidIdentity(identity)
    ensures var w := Unconfirmed(identity, h, k);
      var after := Run(chain, w, [Event.Retry, StoreFailed]);
      && Reachable(chain, identity, w) && AllQuiet([Event.Retry, StoreFailed]) && after.proc.Some?
      && HoldsAny(w.proc.value, k.workId)
      && SubmissionErrorRecording(false, after.proc.value, k.workId) == NotRecorded
      && CaptureSubmissionRecording(after.proc.value, k.workId) == Recording.Uncertain(k.id)
      && exists left :: left in after.out.surviving && UsesWork(AttemptsOf(left), k.workId)
  {
    UnconfirmedIsReachable(chain, identity, h, k);
    FailsAgain(chain, identity, h, k);
    TwoSteps(chain, Unconfirmed(identity, h, k), Event.Retry, StoreFailed);
    hide Step;
    hide Run;
    hide Reachable;
    hide DurableRecoveryRevision;
    var s, next := Empty(identity, h), OneAttempt(identity, h, k);
    assert next.attempts[0].workId == k.workId;
    assert UsesWork(next.attempts, k.workId);
    assert FindWork(next.attempts, k.workId) == Some(k.id);
    assert Some(next) in Unconfirmed(identity, h, k).out.surviving;
  }

  lemma TwoSteps(chain: Chain, w: World, a: Event, b: Event)
    ensures Run(chain, w, [a, b]) == Step(chain, Step(chain, w, a), b)
  {
    assert [a, b][..1] == [a] && [a][..0] == [];
    hide Step;
    assert Run(chain, w, [a]) == Step(chain, Run(chain, w, []), a);
  }
}
