/** The daemon's iteration over one consumer, and the checkpoint file it moves. */
module Daemons {
  import opened Journal
  import opened DurableFiles
  import opened Requests

  type Checkpoints = map<Address, nat>

  function ContentsOf(f: File<Checkpoints>): Checkpoints {
    if f.Whole? then f.contents else map[]
  }

  /** Where scanning resumes for a consumer when this file is found on disk. */
  function ResumeAt(f: File<Checkpoints>, consumer: Address, start: nat): nat {
    if consumer in ContentsOf(f) then ContentsOf(f)[consumer] else start
  }

  datatype Opening = Ready(checkpoints: Checkpoints) | OpenThrew | OpenKilled

  datatype SaveOutcome = CheckpointSaved | MovedBackwards | SaveThrew | SaveKilled

  class FileCheckpointStore {
    const directory: Directory<Checkpoints>
    var state: Option<Checkpoints>

    /** A published snapshot is what the disk holds after any power loss. */
    ghost predicate Valid()
      reads this, directory
    {
      && directory.Valid()
      && (state.Some? ==> directory.visible == Whole(state.value) && directory.surviving == {Whole(state.value)})
    }

    constructor (directory: Directory<Checkpoints>)
      requires directory.Valid()
      ensures Valid() && this.directory == directory && state.None?
    {
      this.directory, state := directory, None;
    }

    /** Reads what the disk shows and writes it back durably, once. */
    method InitializeState() returns (r: Opening)
      requires Valid()
      modifies this, directory
      ensures Valid()
      ensures r.Ready? ==> r.checkpoints == ContentsOf(old(directory.visible)) && state == Some(r.checkpoints)
      ensures ContentsOf(directory.visible) == ContentsOf(old(directory.visible))
      ensures forall f :: f in directory.surviving ==> f in old(directory.surviving) || f == Whole(ContentsOf(old(directory.visible)))
    {
      if state.Some? { return Ready(state.value); }
      var readable, cleaned: bool := *, *;
      if !readable || !cleaned { return OpenThrew; }
      var checkpoints := ContentsOf(directory.visible);
      var saved := DurableReplace(directory, checkpoints);
      match saved {
        case ProcessDied => return OpenKilled;
        case Uncertain => return OpenThrew;
        case Acknowledged =>
          state := Some(checkpoints);
          return Ready(checkpoints);
      }
    }

    method Load(consumer: Address) returns (r: Opening, checkpoint: Option<nat>)
      requires Valid()
      modifies this, directory
      ensures Valid()
      ensures r.Ready? ==> state.Some? && state.value == ContentsOf(old(directory.visible))
      ensures r.Ready? ==> checkpoint == if consumer in state.value then Some(state.value[consumer]) else None
      ensures ContentsOf(directory.visible) == ContentsOf(old(directory.visible))
      ensures forall f :: f in directory.surviving ==> f in old(directory.surviving) || f == Whole(ContentsOf(old(directory.visible)))
    {
      r := InitializeState();
      checkpoint := if r.Ready? && consumer in r.checkpoints then Some(r.checkpoints[consumer]) else None;
    }

    /** A failed write forgets the cached snapshot, because the file may or may not
        have been replaced; the next access reads the disk again. */
    method Save(consumer: Address, nextBlock: nat) returns (r: SaveOutcome)
      requires Valid()
      modifies this, directory
      ensures Valid()
      ensures var was := ContentsOf(old(directory.visible));
        && (r.MovedBackwards? ==> consumer in was && nextBlock < was[consumer])
        && (r.CheckpointSaved? ==> Advanced(directory.visible, was, consumer, nextBlock) && state.Some?)
        && (forall f :: f in directory.surviving ==> f in old(directory.surviving) || f == Whole(was) || Advanced(f, was, consumer, nextBlock))
    {
      var opening := InitializeState();
      if opening.OpenKilled? { return SaveKilled; }
      if opening.OpenThrew? { return SaveThrew; }
      var current := opening.checkpoints;
      if consumer in current && nextBlock < current[consumer] { return MovedBackwards; }
      var next := current[consumer := nextBlock];
      var saved := DurableReplace(directory, next);
      match saved {
        case ProcessDied =>
          state := None;
          return SaveKilled;
        case Uncertain =>
          state := None;
          return SaveThrew;
        case Acknowledged =>
          state := Some(next);
          return CheckpointSaved;
      }
    }
  }

  predicate Advanced(f: File<Checkpoints>, was: Checkpoints, consumer: Address, nextBlock: nat) {
    f == Whole(was[consumer := nextBlock]) && (consumer in was ==> was[consumer] <= nextBlock)
  }

  /** First block to scan for requests that are not durable yet. */
  function GetSoftNextBlock(softCursor: Option<nat>, durableNextBlock: nat, durableBlock: nat): (r: nat)
    ensures r >= durableNextBlock && r > durableBlock && (softCursor.Some? ==> r >= softCursor.value)
    ensures r == durableNextBlock || r == durableBlock + 1 || softCursor == Some(r)
  {
    var minimum := if durableBlock + 1 > durableNextBlock then durableBlock + 1 else durableNextBlock;
    if softCursor.None? || softCursor.value < minimum then minimum else softCursor.value
  }

  // Other consumers of the same file

  ghost predicate SameBut(a: Checkpoints, b: Checkpoints, consumer: Address) {
    forall other :: other != consumer ==> (other in a <==> other in b) && (other in a ==> a[other] == b[other])
  }

  /** Whatever a power loss leaves now, it could have left before, or the consumer's own
      checkpoint has moved forward in it. */
  ghost predicate OnlyForward(before: set<File<Checkpoints>>, after: set<File<Checkpoints>>, consumer: Address, start: nat) {
    forall f :: f in after ==> exists g :: g in before && ForwardOf(g, f, consumer, start)
  }

  ghost predicate ForwardOf(g: File<Checkpoints>, f: File<Checkpoints>, consumer: Address, start: nat) {
    ResumeAt(g, consumer, start) <= ResumeAt(f, consumer, start) && SameBut(ContentsOf(f), ContentsOf(g), consumer)
  }

  lemma ForwardTwice(a: set<File<Checkpoints>>, b: set<File<Checkpoints>>, c: set<File<Checkpoints>>, consumer: Address, start: nat)
    requires OnlyForward(a, b, consumer, start) && OnlyForward(b, c, consumer, start)
    ensures OnlyForward(a, c, consumer, start)
  {
    forall f | f in c ensures exists e :: e in a && ForwardOf(e, f, consumer, start) {
      var g :| g in b && ForwardOf(g, f, consumer, start);
      var e :| e in a && ForwardOf(e, g, consumer, start);
      assert ForwardOf(e, f, consumer, start);
    }
  }

  lemma ForwardNow(a: set<File<Checkpoints>>, consumer: Address, start: nat)
    ensures OnlyForward(a, a, consumer, start)
  {
    forall f | f in a ensures exists g :: g in a && ForwardOf(g, f, consumer, start) {
      assert ForwardOf(f, f, consumer, start);
    }
  }

  // What a daemon did so far

  /** One durable scan: where it started, the head it ran to, the node calls it spans,
      what it found, and whether a checkpoint it called for was acknowledged. */
  datatype Pass = Pass(from: nat, durable: nat, call: nat, closed: nat, reconciled: Reconciled, saved: bool)

  /** The checkpoint a pass calls for: the verified one, or the one before. */
  function Reached(p: Pass): nat {
    if p.reconciled.Scanned? && p.reconciled.decision.Verified? then p.reconciled.decision.nextBlock else p.from
  }

  ghost predicate Logged(node: RegistryNode, consumer: Address, range: nat, p: Pass) {
    && range > 0 && p.from <= p.durable
    && Observed(node, p.call, p.closed, consumer, p.from, p.durable, range, p.reconciled)
  }

  /** The pass saw one anchor, at or above the block, before and after its reads, and
      at that anchor all that the consumer requested in the block is stored. */
  ghost predicate StoredAt(node: RegistryNode, consumer: Address, p: Pass, b: nat) {
    && p.reconciled.Scanned? && p.from <= b < Reached(p) && b <= p.durable == p.reconciled.anchor.number && p.call < p.closed
    && node.AnchorAt(p.call, p.durable) == node.AnchorAt(p.closed - 1, p.durable) == Some(p.reconciled.anchor)
    && node.ledger.requested(p.reconciled.anchor.hash, consumer, b) <= node.ledger.stored(p.reconciled.anchor.hash)
  }

  ghost predicate BlockFulfilled(node: RegistryNode, consumer: Address, passes: seq<Pass>, b: nat) {
    exists i :: 0 <= i < |passes| && StoredAt(node, consumer, passes[i], b)
  }

  /** Every block from the start up to `until` was fulfilled at some verified anchor. */
  ghost predicate Covered(node: RegistryNode, consumer: Address, passes: seq<Pass>, start: nat, until: nat) {
    forall b :: start <= b < until ==> BlockFulfilled(node, consumer, passes, b)
  }

  /** A pass starts where an acknowledged one before it ended. */
  ghost predicate Linked(passes: seq<Pass>) {
    forall i, j :: 0 <= i && j == i + 1 && j < |passes| && passes[i].saved ==> passes[j].from == Reached(passes[i])
  }

  /** This file resumes where the passes account for everything before, and right after
      the last pass when its end was acknowledged. */
  ghost predicate Fits(node: RegistryNode, consumer: Address, start: nat, passes: seq<Pass>, f: File<Checkpoints>) {
    && Covered(node, consumer, passes, start, ResumeAt(f, consumer, start))
    && (passes != [] && passes[|passes| - 1].saved ==> ResumeAt(f, consumer, start) == Reached(passes[|passes| - 1]))
  }

  /** A verified pass adds exactly the blocks it covered. */
  lemma CoverageExtends(node: RegistryNode, consumer: Address, range: nat, passes: seq<Pass>, p: Pass, start: nat)
    requires node.Honest() && Logged(node, consumer, range, p) && Covered(node, consumer, passes, start, p.from)
    ensures Covered(node, consumer, passes + [p], start, Reached(p))
  {
    var after := passes + [p];
    CoverageKept(node, consumer, passes, p, start, p.from);
    if Reached(p) > p.from {
      VerifiedIsFulfilled(node, p.call, p.closed, consumer, p.from, p.durable, range, p.reconciled);
      hide Summarized;
      hide ReadFrom;
      hide LowestMissing;
      forall b | p.from <= b < Reached(p) ensures BlockFulfilled(node, consumer, after, b) {
        assert StoredAt(node, consumer, after[|passes|], b);
      }
    }
  }

  lemma CoverageKept(node: RegistryNode, consumer: Address, passes: seq<Pass>, p: Pass, start: nat, until: nat)
    requires Covered(node, consumer, passes, start, until)
    ensures Covered(node, consumer, passes + [p], start, until)
  {
    hide StoredAt;
    forall b | start <= b < until ensures BlockFulfilled(node, consumer, passes + [p], b) {
      assert BlockFulfilled(node, consumer, passes, b);
      var i :| 0 <= i < |passes| && StoredAt(node, consumer, passes[i], b);
      assert (passes + [p])[i] == passes[i];
    }
  }

  lemma NeverBack(node: RegistryNode, consumer: Address, range: nat, p: Pass)
    requires node.Honest() && Logged(node, consumer, range, p)
    ensures Reached(p) >= p.from
  {
    if p.reconciled.Scanned? && p.reconciled.decision.Verified? {
      VerifiedIsFulfilled(node, p.call, p.closed, consumer, p.from, p.durable, range, p.reconciled);
    }
  }

  /** After a pass every file is right that was right before it, or that holds its end. */
  lemma FitsAfter(node: RegistryNode, consumer: Address, range: nat, start: nat, passes: seq<Pass>,
                  p: Pass, was: File<Checkpoints>, f: File<Checkpoints>)
    requires node.Honest() && Logged(node, consumer, range, p)
    requires Fits(node, consumer, start, passes, was) && ResumeAt(was, consumer, start) == p.from
    requires ResumeAt(f, consumer, start) == Reached(p) || (!p.saved && ResumeAt(f, consumer, start) == p.from)
    ensures Fits(node, consumer, start, passes + [p], f)
  {
    CoverageExtends(node, consumer, range, passes, p, start);
    CoverageKept(node, consumer, passes, p, start, p.from);
    hide Covered;
  }

  lemma LinkedMore(node: RegistryNode, consumer: Address, start: nat, passes: seq<Pass>, p: Pass, was: File<Checkpoints>)
    requires Linked(passes) && Fits(node, consumer, start, passes, was) && ResumeAt(was, consumer, start) == p.from
    ensures Linked(passes + [p])
  {
    var after := passes + [p];
    forall i, j | 0 <= i && j == i + 1 && j < |after| && after[i].saved ensures after[j].from == Reached(after[i]) {
      if j < |passes| { assert passes[j].from == Reached(passes[i]); }
    }
  }

  lemma AbortSeen(node: RegistryNode, consumer: Address, range: nat, p: Pass)
    requires Logged(node, consumer, range, p)
    ensures p.reconciled == ReconcileThrew(Cancelled) ==> node.AbortedBetween(p.call, p.closed)
  {
  }

  /** A pass whose node was settled covers its whole range. */
  lemma SettledPassIsFull(node: RegistryNode, consumer: Address, range: nat, p: Pass)
    requires Logged(node, consumer, range, p) && p.reconciled != ReconcileThrew(ImportsCancelled)
    requires Settled(node, p.call, p.closed, consumer, p.from, p.durable, range)
    ensures Reached(p) == ScanEnd(p.from, p.durable, range)
  {
    SettledScansAll(node, p.call, p.closed, consumer, p.from, p.durable, range, p.reconciled);
  }

  /** Full passes to one durable head leave no gap and arrive right after it in exactly
      ceil(blocks / range) of them. */
  lemma {:induction false} PassesArrive(passes: seq<Pass>, range: nat, durable: nat, first: nat, k: nat)
    requires range > 0 && Linked(passes) && 0 < k && first + k <= |passes|
    requires forall i :: first <= i < first + k ==>
      passes[i].saved && passes[i].durable == durable && passes[i].from <= durable && Reached(passes[i]) == ScanEnd(passes[i].from, durable, range)
    ensures Reached(passes[first + k - 1]) == ScanTimes(passes[first].from, durable, range, k)
    ensures (k - 1) * range < durable + 1 - passes[first].from
    ensures Reached(passes[first + k - 1]) == durable + 1 <==> k * range >= durable + 1 - passes[first].from
    decreases k
  {
    var from := passes[first].from;
    ScansArrive(from, durable, range, k);
    if k == 1 {
      assert ScanTimes(from, durable, range, 1) == ScanTimes(ScanEnd(from, durable, range), durable, range, 0);
    } else {
      PassesArrive(passes, range, durable, first + 1, k - 1);
      assert passes[first + 1].from == ScanEnd(from, durable, range);
      assert (k - 1) * range == (k - 2) * range + range;
      assert k * range == (k - 1) * range + range;
    }
  }

  datatype IterationStatus = UpToDate | Processed | Postponed

  datatype Cause = CheckpointUnread | Aborted | HeadsUnread | LogsRefused | SaveFailed | ImportError | ImportStopped | SoftUnread | RecoveryFailed

  datatype Iteration =
    | Iterated(status: IterationStatus, durableNextBlock: nat, softCursor: nat)
    | IterationThrew(cause: Cause)
    | IterationKilled

  predicate HasFailedImport(r: Reconciled) {
    r.Scanned? && exists k :: 0 <= k < |r.imports| && r.imports[k].status.Failed?
  }

  /** Exactly one pass was run, from this checkpoint to this head, at these calls. */
  ghost predicate OnePass(before: seq<Pass>, after: seq<Pass>, from: nat, durable: nat, call: nat) {
    && |after| == |before| + 1 && after == before + [after[|before|]]
    && after[|before|].from == from && after[|before|].durable == durable && after[|before|].call == call
  }

  /** How an error of an iteration relates to the pass it ran. */
  predicate Explains(cause: Cause, p: Pass) {
    match cause
    case LogsRefused => p.reconciled == ReconcileThrew(LogsUnread) || p.reconciled == ReconcileThrew(LogsOutside)
    case SaveFailed => !p.saved && Reached(p) > p.from
    case ImportError => p.saved
    case ImportStopped => p.saved
    case SoftUnread => p.saved
    case Aborted => p.saved
    case _ => false
  }

  /** One pass that ended well, with its checkpoint on disk. */
  ghost predicate GoodPass(before: seq<Pass>, after: seq<Pass>, from: nat, durable: nat, call: nat, next: nat) {
    && OnePass(before, after, from, durable, call)
    && var p := after[|before|];
       p.saved && !p.reconciled.ReconcileThrew? && !HasFailedImport(p.reconciled) && next == Reached(p)
  }

  function ResultStatus(soft: nat, next: nat, heads: Heads, scanned: bool): IterationStatus {
    if soft <= heads.latest || scanned then Processed else if next <= heads.durable then Postponed else UpToDate
  }

  /** The soft scan advances its cursor by exactly one scan. */
  ghost predicate SoftReport(range: nat, softCursor: Option<nat>, heads: Heads, scanned: bool, r: Iteration)
    requires r.Iterated? && range > 0
  {
    var soft := GetSoftNextBlock(softCursor, r.durableNextBlock, heads.durable);
    && r.softCursor == (if soft > heads.latest then soft else ScanEnd(soft, heads.latest, range))
    && r.status == ResultStatus(soft, r.durableNextBlock, heads, scanned)
  }

  /** What an iteration that returned found, did and reports. */
  ghost predicate Reports(node: RegistryNode, call: nat, range: nat, softCursor: Option<nat>, from: nat,
                          before: seq<Pass>, after: seq<Pass>, r: Iteration)
    requires r.Iterated? && range > 0
  {
    node.HeadsAt(call).Some? && (
      var heads := node.HeadsAt(call).value;
      && (from > heads.durable ==> after == before && r.durableNextBlock == from)
      && (from <= heads.durable ==> GoodPass(before, after, from, heads.durable, call + 1, r.durableNextBlock))
      && SoftReport(range, softCursor, heads, from <= heads.durable && after[|before|].reconciled.Scanned?, r))
  }

  lemma ReportsIdle(node: RegistryNode, call: nat, range: nat, softCursor: Option<nat>, from: nat, passes: seq<Pass>, r: Iteration)
    requires range > 0 && r.Iterated? && r.durableNextBlock == from && node.HeadsAt(call).Some? && from > node.HeadsAt(call).value.durable
    requires SoftReport(range, softCursor, node.HeadsAt(call).value, false, r)
    ensures Reports(node, call, range, softCursor, from, passes, passes, r)
  {
  }

  lemma ReportsPass(node: RegistryNode, call: nat, range: nat, softCursor: Option<nat>, from: nat, before: seq<Pass>, after: seq<Pass>, r: Iteration)
    requires range > 0 && r.Iterated? && node.HeadsAt(call).Some? && from <= node.HeadsAt(call).value.durable
    requires GoodPass(before, after, from, node.HeadsAt(call).value.durable, call + 1, r.durableNextBlock)
    requires SoftReport(range, softCursor, node.HeadsAt(call).value, after[|before|].reconciled.Scanned?, r)
    ensures Reports(node, call, range, softCursor, from, before, after, r)
  {
  }

  lemma GoodExplains(cause: Cause, before: seq<Pass>, after: seq<Pass>, from: nat, durable: nat, call: nat, next: nat)
    requires GoodPass(before, after, from, durable, call, next)
    requires cause.Aborted? || cause.ImportError? || cause.ImportStopped? || cause.SoftUnread?
    ensures OnePass(before, after, from, durable, call) && Explains(cause, after[|before|])
  {
  }

  class Daemon {
    const node: RegistryNode
    const store: FileCheckpointStore
    const consumer: Address
    const startBlock: nat
    const range: nat
    ghost var passes: seq<Pass>

    /** Whatever a power loss leaves, scanning resumes at a block before which nothing
        is unfulfilled, and right after the last pass when its end was acknowledged. */
    ghost predicate Safe()
      reads this, node, store, store.directory
    {
      store.Valid() && SafeWith(node.calls, store.directory.surviving)
    }

    ghost predicate SafeWith(calls: nat, images: set<File<Checkpoints>>)
      reads this
    {
      && node.Honest() && range > 0 && Linked(passes)
      && (forall p :: p in passes ==> Logged(node, consumer, range, p) && p.closed <= calls)
      && forall f :: f in images ==> Fits(node, consumer, startBlock, passes, f)
    }

    /** A daemon takes over a file from the daemons before it, whose passes account for
        the checkpoint it holds; a file without one needs none. */
    constructor (node: RegistryNode, store: FileCheckpointStore, consumer: Address, startBlock: nat, range: nat, ghost passes: seq<Pass>)
      requires store.Valid() && node.Honest() && range > 0
      requires forall p :: p in passes ==> Logged(node, consumer, range, p) && p.closed <= node.calls
      requires Linked(passes) && forall f :: f in store.directory.surviving ==> Fits(node, consumer, startBlock, passes, f)
      ensures Safe() && this.node == node && this.store == store && this.consumer == consumer && this.range == range
      ensures this.startBlock == startBlock && this.passes == passes
    {
      this.node, this.store, this.consumer := node, store, consumer;
      this.startBlock, this.range, this.passes := startBlock, range, passes;
    }

    function ResumesAt(f: File<Checkpoints>): nat { ResumeAt(f, consumer, startBlock) }

    /** The machine loses power, and the next process opens what is left. */
    method Restart()
      requires Safe()
      modifies store, store.directory
      ensures Safe() && OnlyForward(old(store.directory.surviving), store.directory.surviving, consumer, startBlock)
      ensures store.directory.surviving == {store.directory.visible} && store.directory.visible in old(store.directory.surviving)
    {
      hide Fits;
      hide Linked;
      hide Logged;
      store.directory.PowerLoss();
      store.state := None;
    }

    /** Moves the checkpoint to the end of a verified pass. The store's refusal to move
        backwards never happens here. */
    method SaveCheckpoint(ghost p: Pass, nextBlock: nat) returns (r: SaveOutcome)
      requires Safe() && store.state.Some? && Logged(node, consumer, range, p) && p.closed <= node.calls
      requires p.from == ResumesAt(store.directory.visible) < Reached(p) == nextBlock
      modifies this`passes, store, store.directory
      ensures Safe() && !r.MovedBackwards? && passes == old(passes) + [p.(saved := r.CheckpointSaved?)]
      ensures OnlyForward(old(store.directory.surviving), store.directory.surviving, consumer, startBlock)
      ensures r.CheckpointSaved? ==> store.state.Some? && ResumesAt(store.directory.visible) == nextBlock
    {
      ghost var was := store.directory.visible;
      assert was in store.directory.surviving;
      r := store.Save(consumer, nextBlock);
      ghost var logged := p.(saved := r.CheckpointSaved?);
      Log(logged, was);
    }

    /** Adds a pass to the log, with the files it left. */
    ghost method Log(p: Pass, was: File<Checkpoints>)
      requires store.Valid() && node.Honest() && range > 0 && Linked(passes)
      requires forall q :: q in passes ==> Logged(node, consumer, range, q) && q.closed <= node.calls
      requires Fits(node, consumer, startBlock, passes, was) && ResumesAt(was) == p.from
      requires Logged(node, consumer, range, p) && p.closed <= node.calls
      requires forall f :: f in store.directory.surviving ==> ResumesAt(f) == Reached(p) || (!p.saved && ResumesAt(f) == p.from)
      modifies this`passes
      ensures Safe() && passes == old(passes) + [p]
    {
      LinkedMore(node, consumer, startBlock, passes, p, was);
      forall f | f in store.directory.surviving ensures Fits(node, consumer, startBlock, passes + [p], f) {
        FitsAfter(node, consumer, range, startBlock, passes, p, was, f);
      }
      hide Fits;
      hide Linked;
      hide Logged;
      passes := passes + [p];
    }

    /** One pass: reconcile, then move the checkpoint exactly when a block beyond the
        loaded one was verified. */
    method RunPass(from: nat, durable: nat) returns (result: Reconciled, saved: SaveOutcome)
      requires Safe() && store.state.Some? && from <= durable && from == ResumesAt(store.directory.visible)
      modifies this`passes, node, store, store.directory
      ensures Safe() && node.calls >= old(node.calls) && !saved.MovedBackwards?
      ensures OnePass(old(passes), passes, from, durable, old(node.calls))
      ensures OnlyForward(old(store.directory.surviving), store.directory.surviving, consumer, startBlock)
      ensures passes[|old(passes)|].reconciled == result && (passes[|old(passes)|].saved <==> saved.CheckpointSaved?)
      ensures !saved.CheckpointSaved? ==> Reached(passes[|old(passes)|]) > from
      ensures saved.CheckpointSaved? ==> store.directory.surviving == {store.directory.visible}
      ensures saved.CheckpointSaved? ==> ResumesAt(store.directory.visible) == Reached(passes[|old(passes)|])
      ensures result == ReconcileThrew(Cancelled) ==> node.AbortedBetween(old(node.calls), node.calls)
    {
      hide Fits;
      hide Linked;
      hide Observed;
      hide RegistryNode.Honest;
      hide OnlyForward;
      ForwardNow(store.directory.surviving, consumer, startBlock);
      ghost var call, was := node.calls, store.directory.visible;
      result := ReconcileDurableRequests(node, consumer, from, durable, range);
      ghost var p := Pass(from, durable, call, node.calls, result, true);
      assert Logged(node, consumer, range, p);
      AbortSeen(node, consumer, range, p);
      if result.Scanned? && result.decision.Verified? && result.decision.nextBlock > from {
        saved := SaveCheckpoint(p, result.decision.nextBlock);
      } else {
        NeverBack(node, consumer, range, p);
        Log(p, was);
        saved := CheckpointSaved;
      }
    }

    /** The durable half of an iteration. The first import failure is thrown only after
        the checkpoint was saved. */
    method ScanDurable(durableNextBlock: nat, durable: nat) returns (r: Iteration, scanned: bool)
      requires Safe() && store.state.Some? && durableNextBlock <= durable
      requires durableNextBlock == ResumesAt(store.directory.visible)
      modifies this`passes, node, store, store.directory
      ensures Safe() && node.calls >= old(node.calls)
      ensures OnePass(old(passes), passes, durableNextBlock, durable, old(node.calls))
      ensures OnlyForward(old(store.directory.surviving), store.directory.surviving, consumer, startBlock)
      ensures r.IterationThrew? ==> Explains(r.cause, passes[|old(passes)|])
      ensures passes != old(passes)
      ensures r.IterationThrew? ==> !r.cause.HeadsUnread? && !r.cause.SoftUnread?
      ensures r == IterationThrew(ImportError) ==> HasFailedImport(passes[|old(passes)|].reconciled)
      ensures r == IterationThrew(Aborted) ==> node.AbortedBetween(old(node.calls), node.calls)
      ensures r.Iterated? ==> GoodPass(old(passes), passes, durableNextBlock, durable, old(node.calls), r.durableNextBlock)
      ensures r.Iterated? ==> scanned == passes[|old(passes)|].reconciled.Scanned?
      ensures r.Iterated? ==> store.directory.surviving == {store.directory.visible} && r.durableNextBlock == ResumesAt(store.directory.visible)
    {
      hide Safe;
      hide OnlyForward;
      var result, saved := RunPass(durableNextBlock, durable);
      scanned := result.Scanned?;
      var verified := result.Scanned? && result.decision.Verified?;
      var next := if verified then result.decision.nextBlock else durableNextBlock;
      if saved.SaveKilled? { return IterationKilled, scanned; }
      if saved.SaveThrew? { return IterationThrew(SaveFailed), scanned; }
      if result.ReconcileThrew? {
        match result.cause {
          case Cancelled => return IterationThrew(Aborted), scanned;
          case ImportsCancelled => return IterationThrew(ImportStopped), scanned;
          case _ => return IterationThrew(LogsRefused), scanned;
        }
      }
      if result.Scanned? && exists k :: 0 <= k < |result.imports| && result.imports[k].status.Failed? {
        return IterationThrew(ImportError), scanned;
      }
      return Iterated(Processed, next, 0), scanned;
    }

    /** Loading may rewrite the file, but with what it shows. */
    method LoadCheckpoint() returns (r: Opening, durableNextBlock: nat)
      requires Safe()
      modifies store, store.directory
      ensures Safe() && OnlyForward(old(store.directory.surviving), store.directory.surviving, consumer, startBlock)
      ensures r.Ready? ==> store.state.Some? && store.directory.surviving == {store.directory.visible}
      ensures r.Ready? ==> durableNextBlock == ResumesAt(store.directory.visible) == old(ResumesAt(store.directory.visible))
    {
      hide Linked;
      hide Logged;
      hide RegistryNode.Honest;
      ghost var was := store.directory.visible;
      assert was in store.directory.surviving;
      assert Fits(node, consumer, startBlock, passes, Whole(ContentsOf(was)));
      hide Fits;
      var opening, checkpoint := store.Load(consumer);
      return opening, if checkpoint.Some? then checkpoint.value else startBlock;
    }

    /** Every iteration, however it ends, keeps the checkpoint safe, never moves it back
        and leaves other consumers alone. It runs exactly one pass when there are
        durable blocks to scan, and the soft scan follows it and touches no checkpoint. */
    method RunDaemonIteration(softCursor: Option<nat>) returns (r: Iteration)
      requires Safe()
      modifies this`passes, node, store, store.directory
      ensures Safe() && node.calls >= old(node.calls)
      ensures OnlyForward(old(store.directory.surviving), store.directory.surviving, consumer, startBlock)
      ensures passes == old(passes) || (
        node.HeadsAt(old(node.calls)).Some?
        && OnePass(old(passes), passes, old(ResumesAt(store.directory.visible)), node.HeadsAt(old(node.calls)).value.durable, old(node.calls) + 1))
      ensures r.Iterated? ==>
        Reports(node, old(node.calls), range, softCursor, old(ResumesAt(store.directory.visible)), old(passes), passes, r)
      ensures r.Iterated? ==> store.directory.surviving == {store.directory.visible} && r.durableNextBlock == ResumesAt(store.directory.visible)
      ensures r == IterationThrew(HeadsUnread) ==> node.HeadsAt(old(node.calls)).None?
      ensures r == IterationThrew(Aborted) ==> node.AbortedBetween(old(node.calls), node.calls)
      ensures r.IterationThrew? && passes != old(passes) ==> Explains(r.cause, passes[|old(passes)|])
      ensures r.IterationThrew? && (r.cause.LogsRefused? || r.cause.SaveFailed?) ==> passes != old(passes)
    {
      hide OnlyForward;
      hide Reports;
      hide OnePass;
      hide Explains;
      hide Fits;
      hide Linked;
      hide Logged;
      hide RegistryNode.Honest;
      hide RegistryNode.HeadsAt;
      ghost var before := store.directory.surviving;
      var loaded, durableNextBlock := LoadCheckpoint();
      if loaded.OpenKilled? { return IterationKilled; }
      if loaded.OpenThrew? { return IterationThrew(CheckpointUnread); }
      if node.aborted(node.calls) { return IterationThrew(Aborted); }
      ghost var between := store.directory.surviving;
      r := Iterate(softCursor, durableNextBlock);
      ForwardTwice(before, between, store.directory.surviving, consumer, startBlock);
    }

    method Iterate(softCursor: Option<nat>, loaded: nat) returns (r: Iteration)
      requires Safe() && store.state.Some? && store.directory.surviving == {store.directory.visible} && loaded == ResumesAt(store.directory.visible)
      modifies this`passes, node, store, store.directory
      ensures Safe() && node.calls >= old(node.calls)
      ensures OnlyForward(old(store.directory.surviving), store.directory.surviving, consumer, startBlock)
      ensures passes == old(passes) || (
        node.HeadsAt(old(node.calls)).Some?
        && OnePass(old(passes), passes, loaded, node.HeadsAt(old(node.calls)).value.durable, old(node.calls) + 1))
      ensures r.Iterated? ==> Reports(node, old(node.calls), range, softCursor, loaded, old(passes), passes, r)
      ensures r.Iterated? ==> store.directory.surviving == {store.directory.visible} && r.durableNextBlock == ResumesAt(store.directory.visible)
      ensures r == IterationThrew(HeadsUnread) ==> node.HeadsAt(old(node.calls)).None?
      ensures r == IterationThrew(Aborted) ==> node.AbortedBetween(old(node.calls), node.calls)
      ensures r.IterationThrew? && passes != old(passes) ==> Explains(r.cause, passes[|old(passes)|])
      ensures r.IterationThrew? && (r.cause.LogsRefused? || r.cause.SaveFailed?) ==> passes != old(passes)
    {
      hide *;
      ForwardNow(store.directory.surviving, consumer, startBlock);
      var read := ReadHeads();
      if read.None? { return IterationThrew(HeadsUnread); }
      if node.aborted(node.calls) {
        node.AbortWidens(old(node.calls), node.calls, node.calls);
        return IterationThrew(Aborted);
      }
      if loaded > read.value.durable {
        ghost var c := node.calls;
        r := ScanSoft(softCursor, loaded, read.value, false);
        if r == IterationThrew(Aborted) { node.AbortWidens(old(node.calls), c, node.calls); }
        if r.Iterated? { ReportsIdle(node, old(node.calls), range, softCursor, loaded, passes, r); }
      } else {
        var durable, scanned := ScanDurable(loaded, read.value.durable);
        if !durable.Iterated? {
          if durable == IterationThrew(Aborted) { node.AbortWidens(old(node.calls), old(node.calls) + 1, node.calls); }
          return durable;
        }
        ghost var c := node.calls;
        r := ScanSoft(softCursor, durable.durableNextBlock, read.value, scanned);
        if r == IterationThrew(Aborted) { node.AbortWidens(old(node.calls), c, node.calls); }
        if r.Iterated? { ReportsPass(node, old(node.calls), range, softCursor, loaded, old(passes), passes, r); }
        else { GoodExplains(r.cause, old(passes), passes, loaded, read.value.durable, old(node.calls) + 1, durable.durableNextBlock); }
      }
    }

    method ReadHeads() returns (r: Option<Heads>)
      requires Safe()
      modifies node
      ensures Safe() && node.calls == old(node.calls) + 1 && r == node.HeadsAt(old(node.calls))
      ensures range > 0 && (r.Some? ==> r.value.durable <= r.value.latest)
    {
      hide Fits;
      hide Linked;
      hide Logged;
      r := node.GetChainHeads();
    }

    method ScanSoft(softCursor: Option<nat>, durableNextBlock: nat, heads: Heads, scanned: bool) returns (r: Iteration)
      requires Safe() && heads.durable <= heads.latest
      modifies node
      ensures Safe() && node.calls >= old(node.calls)
      ensures r.Iterated? ==> r.durableNextBlock == durableNextBlock
      ensures r.Iterated? ==> SoftReport(range, softCursor, heads, scanned, r)
      ensures !r.Iterated? ==> r.IterationThrew? && (r.cause.SoftUnread? || r.cause.ImportStopped? || r.cause.ImportError? || r.cause.Aborted?)
      ensures r == IterationThrew(Aborted) ==> node.AbortedBetween(old(node.calls), node.calls)
    {
      hide Fits;
      hide Linked;
      hide Observed;
      hide RegistryNode.Honest;
      var softNext := GetSoftNextBlock(softCursor, durableNextBlock, heads.durable);
      if node.aborted(node.calls) { return IterationThrew(Aborted); }
      if softNext > heads.latest { return Iterated(ResultStatus(softNext, durableNextBlock, heads, scanned), durableNextBlock, softNext); }
      var end := ScanEnd(softNext, heads.latest, range);
      var reply := node.GetRequests(consumer, softNext, end - 1, heads.latest);
      if reply.None? { return IterationThrew(SoftUnread); }
      if node.aborted(node.calls) { return IterationThrew(Aborted); }
      var imports := ProcessQuicknetRequests(reply.value);
      if imports.ImportAborted? { return IterationThrew(ImportStopped); }
      if imports.ImportFailed? { return IterationThrew(ImportError); }
      return Iterated(ResultStatus(softNext, durableNextBlock, heads, scanned), durableNextBlock, end);
    }

    /** While the node is settled, each acknowledged pass covers its whole range, and the
        checkpoint arrives right after the durable head in exactly ceil(blocks / range)
        of them. */
    lemma SettledPassesArrive(durable: nat, first: nat, k: nat)
      requires Safe() && 0 < k && first + k <= |passes|
      requires forall i :: first <= i < first + k ==> SettledPass(passes[i]) && passes[i].durable == durable
      ensures Reached(passes[first + k - 1]) == ScanTimes(passes[first].from, durable, range, k)
      ensures (k - 1) * range < durable + 1 - passes[first].from
      ensures Reached(passes[first + k - 1]) == durable + 1 <==> k * range >= durable + 1 - passes[first].from
    {
      forall i | first <= i < first + k
        ensures passes[i].from <= durable && Reached(passes[i]) == ScanEnd(passes[i].from, durable, range)
      {
        assert passes[i] in passes;
        SettledPassIsFull(node, consumer, range, passes[i]);
      }
      PassesArrive(passes, range, durable, first, k);
    }

    /** A pass over a settled node whose imports were not cancelled and whose checkpoint
        was acknowledged. */
    ghost predicate SettledPass(p: Pass)
      requires range > 0
    {
      && p.saved && p.from <= p.durable && p.reconciled != ReconcileThrew(ImportsCancelled)
      && Settled(node, p.call, p.closed, consumer, p.from, p.durable, range)
    }
  }

  // One cycle over all consumers

  datatype Cycle = CycleDone(results: seq<Iteration>) | CycleThrew | CycleKilled

  /** Daemons of different consumers on one node and one checkpoint file. */
  ghost predicate Together(daemons: seq<Daemon>, node: RegistryNode, store: FileCheckpointStore) {
    && (forall i :: 0 <= i < |daemons| ==> daemons[i].node == node && daemons[i].store == store)
    && forall i, j :: 0 <= i < j < |daemons| ==> daemons[i] != daemons[j] && daemons[i].consumer != daemons[j].consumer
  }

  /** A power loss can make this daemon resume only where it could have before. */
  ghost predicate SameResumes(before: set<File<Checkpoints>>, after: set<File<Checkpoints>>, d: Daemon) {
    forall f :: f in after ==> exists g :: g in before && d.ResumesAt(f) == d.ResumesAt(g)
  }

  /** The iteration of one consumer leaves every other daemon's promise standing, with
      the resume points it had. */
  lemma OtherStaysSafe(d: Daemon, calls: nat, later: nat, before: set<File<Checkpoints>>,
                       after: set<File<Checkpoints>>, consumer: Address, start: nat)
    requires d.SafeWith(calls, before) && calls <= later
    requires consumer != d.consumer && OnlyForward(before, after, consumer, start)
    ensures d.SafeWith(later, after) && SameResumes(before, after, d)
  {
    hide Logged;
    hide Linked;
    forall f | f in after
      ensures Fits(d.node, d.consumer, d.startBlock, d.passes, f)
      ensures exists g :: g in before && d.ResumesAt(f) == d.ResumesAt(g)
    {
      var g :| g in before && ForwardOf(g, f, consumer, start);
      assert Fits(d.node, d.consumer, d.startBlock, d.passes, g);
    }
  }

  /** Every image a power loss could leave resumes this daemon no earlier than one
      before could have. */
  ghost predicate NoneBack(before: set<File<Checkpoints>>, after: set<File<Checkpoints>>, d: Daemon) {
    forall f :: f in after ==> exists g :: g in before && d.ResumesAt(g) <= d.ResumesAt(f)
  }

  lemma NoneBackTwice(a: set<File<Checkpoints>>, b: set<File<Checkpoints>>, c: set<File<Checkpoints>>, d: Daemon)
    requires NoneBack(a, b, d) && NoneBack(b, c, d)
    ensures NoneBack(a, c, d)
  {
    forall f | f in c ensures exists e :: e in a && d.ResumesAt(e) <= d.ResumesAt(f) {
      var g :| g in b && d.ResumesAt(g) <= d.ResumesAt(f);
      var e :| e in a && d.ResumesAt(e) <= d.ResumesAt(g);
    }
  }

  /** Whatever is on disk, this daemon would resume at the block. */
  ghost predicate ResumesOnlyAt(d: Daemon, images: set<File<Checkpoints>>, block: nat) {
    forall f :: f in images ==> d.ResumesAt(f) == block
  }

  lemma ResumesKept(before: set<File<Checkpoints>>, after: set<File<Checkpoints>>, d: Daemon, block: nat)
    requires ResumesOnlyAt(d, before, block) && SameResumes(before, after, d)
    ensures ResumesOnlyAt(d, after, block)
  {
  }

  lemma OwnForward(d: Daemon, before: set<File<Checkpoints>>, after: set<File<Checkpoints>>)
    requires OnlyForward(before, after, d.consumer, d.startBlock)
    ensures NoneBack(before, after, d)
  {
    forall f | f in after ensures exists g :: g in before && d.ResumesAt(g) <= d.ResumesAt(f) {
      var g :| g in before && ForwardOf(g, f, d.consumer, d.startBlock);
    }
  }

  /** One consumer's turn, seen by all. */
  method RunTurn(daemons: seq<Daemon>, node: RegistryNode, store: FileCheckpointStore, i: nat, softCursor: Option<nat>) returns (r: Iteration)
    requires i < |daemons| && Together(daemons, node, store) && forall d :: d in daemons ==> d.Safe()
    modifies daemons[i], node, store, store.directory
    ensures forall d :: d in daemons ==> d.Safe()
    ensures forall d :: d in daemons ==> NoneBack(old(store.directory.surviving), store.directory.surviving, d)
    ensures r.Iterated? ==> ResumesOnlyAt(daemons[i], store.directory.surviving, r.durableNextBlock)
    ensures forall j :: 0 <= j < |daemons| && j != i ==> SameResumes(old(store.directory.surviving), store.directory.surviving, daemons[j])
  {
    hide Daemon.SafeWith;
    hide Reports;
    hide Explains;
    hide OnePass;
    hide OnlyForward;
    hide RegistryNode.Honest;
    assert daemons[i] in daemons;
    ghost var calls, before := node.calls, store.directory.surviving;
    assert forall j: nat :: j < |daemons| ==> daemons[j] in daemons && daemons[j].SafeWith(calls, before);
    r := daemons[i].RunDaemonIteration(softCursor);
    forall j: nat | j < |daemons|
      ensures daemons[j].Safe() && NoneBack(before, store.directory.surviving, daemons[j])
      ensures j != i ==> SameResumes(before, store.directory.surviving, daemons[j])
    {
      if j == i {
        OwnForward(daemons[i], before, store.directory.surviving);
      } else {
        assert daemons[j] != daemons[i];
        OtherStaysSafe(daemons[j], calls, node.calls, before, store.directory.surviving, daemons[i].consumer, daemons[i].startBlock);
      }
    }
  }

  /** One cycle gives every consumer its turn on the shared file. However it ends, every
      consumer's checkpoint stays safe and none moves back; and what an iteration
      reported is still on disk when the cycle is over. */
  method RunDaemonCycle(daemons: seq<Daemon>, node: RegistryNode, store: FileCheckpointStore, cursors: map<Address, nat>)
    returns (r: Cycle, next: map<Address, nat>)
    requires Together(daemons, node, store) && forall d :: d in daemons ==> d.Safe()
    modifies daemons, node, store, store.directory
    ensures forall d :: d in daemons ==> d.Safe()
    ensures forall d :: d in daemons ==> NoneBack(old(store.directory.surviving), store.directory.surviving, d)
    ensures r.CycleDone? ==> |r.results| <= |daemons|
    ensures r.CycleDone? ==> forall k :: 0 <= k < |r.results| && r.results[k].Iterated? ==>
      && ResumesOnlyAt(daemons[k], store.directory.surviving, r.results[k].durableNextBlock)
      && daemons[k].consumer in next && next[daemons[k].consumer] == r.results[k].softCursor
  {
    next := cursors;
    var recovered: bool := *;
    if !recovered {
      return CycleDone(seq(|daemons|, _ => IterationThrew(RecoveryFailed))), next;
    }
    var results: seq<Iteration> := [];
    ghost var images := store.directory.surviving;
    for i := 0 to |daemons|
      invariant |results| == i
      invariant forall d :: d in daemons ==> d.Safe() && NoneBack(images, store.directory.surviving, d)
      invariant forall k :: 0 <= k < i && results[k].Iterated? ==>
        && ResumesOnlyAt(daemons[k], store.directory.surviving, results[k].durableNextBlock)
        && daemons[k].consumer in next && next[daemons[k].consumer] == results[k].softCursor
    {
      hide Daemon.Safe;
      hide NoneBack;
      hide ResumesOnlyAt;
      if node.aborted(node.calls) { return CycleDone(results), next; }
      ghost var before := store.directory.surviving;
      var consumer := daemons[i].consumer;
      var result := RunTurn(daemons, node, store, i, if consumer in next then Some(next[consumer]) else None);
      forall d | d in daemons ensures NoneBack(images, store.directory.surviving, d) {
        NoneBackTwice(images, before, store.directory.surviving, d);
      }
      forall k | 0 <= k < i && results[k].Iterated?
        ensures ResumesOnlyAt(daemons[k], store.directory.surviving, results[k].durableNextBlock)
      {
        ResumesKept(before, store.directory.surviving, daemons[k], results[k].durableNextBlock);
      }
      if result.IterationKilled? { return CycleKilled, next; }
      if result.IterationThrew? && (result.cause.Aborted? || result.cause.ImportStopped?) { return CycleThrew, next; }
      results := results + [result];
      if result.Iterated? { next := next[consumer := result.softCursor]; }
    }
    return CycleDone(results), next;
  }
}
