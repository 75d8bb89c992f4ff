/** Requests for randomness: grouping them by round, importing the rounds in order,
    and deciding how far a durable scan may move its checkpoint. */
module Requests {
  import opened Journal

  datatype Request = Request(block: nat, consumer: Address, round: nat)

  datatype ImportResult = Imported | ImportPending | SignerUnavailable | WorkRetained | ImportThrew | ImportCancelled

  datatype RoundStatus = Completed | Pending | Failed | AfterFailure | NoSigner | AlreadyKept

  datatype Outcome = Outcome(round: nat, firstBlock: nat, status: RoundStatus)

  // Grouping

  predicate Mentions(requests: seq<Request>, round: nat) {
    exists k :: 0 <= k < |requests| && requests[k].round == round
  }

  /** Distinct rounds in the order of their first appearance. */
  function Rounds(requests: seq<Request>): (r: seq<nat>)
    ensures forall x :: x in r <==> Mentions(requests, x)
    ensures forall i, j :: 0 <= i < j < |r| ==> r[i] != r[j]
  {
    if requests == [] then []
    else
      var last := requests[|requests| - 1];
      var before := requests[..|requests| - 1];
      var rounds := Rounds(before);
      assert requests == before + [last];
      assert forall x :: Mentions(requests, x) <==> Mentions(before, x) || x == last.round by {
        forall x | Mentions(before, x) ensures Mentions(requests, x) {
          var k :| 0 <= k < |before| && before[k].round == x;
          assert requests[k].round == x;
        }
        assert requests[|before|].round == last.round;
      }
      if last.round in rounds then rounds else rounds + [last.round]
  }

  /** `block` is the lowest block in which the round was requested. */
  predicate IsFirstBlock(requests: seq<Request>, round: nat, block: nat) {
    && (exists k :: 0 <= k < |requests| && requests[k].round == round && requests[k].block == block)
    && forall k :: 0 <= k < |requests| && requests[k].round == round ==> requests[k].block >= block
  }

  /** One more request only moves the first block of its own round. */
  lemma FirstBlockGrows(before: seq<Request>, request: Request, round: nat, block: nat)
    requires IsFirstBlock(before, round, block)
    ensures IsFirstBlock(before + [request], round, if request.round == round && request.block < block then request.block else block)
  {
    var after := before + [request];
    var k :| 0 <= k < |before| && before[k].round == round && before[k].block == block;
    assert after[k] == before[k] && after[|before|] == request;
  }

  lemma FirstBlockStarts(before: seq<Request>, request: Request)
    requires !Mentions(before, request.round)
    ensures IsFirstBlock(before + [request], request.round, request.block)
  {
    var after := before + [request];
    assert after[|before|] == request;
    assert forall k :: 0 <= k < |before| ==> before[k].round != request.round;
  }

  lemma RoundsGrow(before: seq<Request>, request: Request)
    ensures Rounds(before + [request]) == if request.round in Rounds(before) then Rounds(before) else Rounds(before) + [request.round]
  {
    assert (before + [request])[..|before|] == before;
  }

  /** The map of first blocks after a prefix of the requests. */
  ghost predicate Tracks(requests: seq<Request>, order: seq<nat>, blocks: map<nat, nat>) {
    && order == Rounds(requests)
    && (forall x :: x in blocks <==> x in order)
    && forall x :: x in blocks ==> IsFirstBlock(requests, x, blocks[x])
  }

  lemma TracksGrow(before: seq<Request>, request: Request, order: seq<nat>, blocks: map<nat, nat>)
    requires Tracks(before, order, blocks)
    ensures Tracks(before + [request],
      if request.round in blocks then order else order + [request.round],
      if request.round !in blocks || request.block < blocks[request.round] then blocks[request.round := request.block] else blocks)
  {
    RoundsGrow(before, request);
    hide Rounds;
    if request.round !in blocks { FirstBlockStarts(before, request); }
    forall x | x in blocks
      ensures IsFirstBlock(before + [request], x, if request.round == x && request.block < blocks[x] then request.block else blocks[x])
    {
      FirstBlockGrows(before, request, x, blocks[x]);
    }
    hide IsFirstBlock;
  }

  /** The insertion-ordered map of first request blocks. */
  method FirstBlocks(requests: seq<Request>) returns (order: seq<nat>, blocks: map<nat, nat>)
    ensures order == Rounds(requests)
    ensures forall x :: x in blocks <==> x in order
    ensures forall x :: x in blocks ==> IsFirstBlock(requests, x, blocks[x])
  {
    order, blocks := [], map[];
    for i := 0 to |requests|
      invariant Tracks(requests[..i], order, blocks)
    {
      var request := requests[i];
      assert requests[..i + 1] == requests[..i] + [request];
      TracksGrow(requests[..i], request, order, blocks);
      hide Tracks;
      if request.round !in blocks { order := order + [request.round]; }
      if request.round !in blocks || request.block < blocks[request.round] {
        blocks := blocks[request.round := request.block];
      }
    }
    assert requests[..|requests|] == requests;
  }

  // Importing

  predicate Stops(status: RoundStatus) { status.Failed? || status.NoSigner? }

  predicate Called(status: RoundStatus) { !status.AfterFailure? }

  /** Imports were tried on a prefix of the rounds that ends at the first failure or
      unavailable signer; every later round carries the reason it was not tried. */
  ghost predicate Sequential(outcomes: seq<Outcome>, calls: seq<nat>) {
    && |calls| <= |outcomes|
    && (forall k :: 0 <= k < |calls| ==> calls[k] == outcomes[k].round && Called(outcomes[k].status))
    && (forall k :: 0 <= k < |calls| - 1 ==> !Stops(outcomes[k].status))
    && (|calls| < |outcomes| ==> |calls| > 0 && Stops(outcomes[|calls| - 1].status))
    && forall k :: |calls| <= k < |outcomes| ==>
         outcomes[k].status == if outcomes[|calls| - 1].status.Failed? then AfterFailure else NoSigner
  }

  method ImportRound(round: nat) returns (r: ImportResult) {
    r := *;
  }

  function StatusOf(r: ImportResult): RoundStatus
    requires !r.ImportCancelled?
  {
    match r
    case Imported => Completed
    case ImportPending => Pending
    case SignerUnavailable => NoSigner
    case WorkRetained => AlreadyKept
    case ImportThrew => Failed
  }

  /** One outcome per distinct round, in first-appearance order, with its lowest
      request block. Only a cancellation leaves without outcomes. */
  method ProcessQuicknetRequestsWithOutcomes(requests: seq<Request>)
    returns (cancelled: bool, outcomes: seq<Outcome>, ghost calls: seq<nat>)
    ensures !cancelled ==> |outcomes| == |Rounds(requests)| && Sequential(outcomes, calls)
    ensures !cancelled ==> forall k :: 0 <= k < |outcomes| ==>
      outcomes[k].round == Rounds(requests)[k] && IsFirstBlock(requests, outcomes[k].round, outcomes[k].firstBlock)
  {
    hide IsFirstBlock;
    hide Rounds;
    outcomes, calls := [], [];
    cancelled := *;
    if cancelled { return; }
    var order, blocks := FirstBlocks(requests);
    var failed, signerUnavailable := false, false;
    for i := 0 to |order|
      invariant |outcomes| == i && Sequential(outcomes, calls)
      invariant forall k :: 0 <= k < i ==> outcomes[k].round == order[k] && outcomes[k].firstBlock == blocks[order[k]]
      invariant !failed && !signerUnavailable ==> |calls| == i && (i > 0 ==> !Stops(outcomes[i - 1].status))
      invariant failed ==> |calls| > 0 && outcomes[|calls| - 1].status.Failed?
      invariant signerUnavailable && !failed ==> |calls| > 0 && outcomes[|calls| - 1].status.NoSigner?
    {
      var round := order[i];
      if failed {
        outcomes := outcomes + [Outcome(round, blocks[round], AfterFailure)];
      } else if signerUnavailable {
        outcomes := outcomes + [Outcome(round, blocks[round], NoSigner)];
      } else {
        var result := ImportRound(round);
        if result.ImportCancelled? { return true, outcomes, calls; }
        calls := calls + [round];
        outcomes := outcomes + [Outcome(round, blocks[round], StatusOf(result))];
        failed := result.ImportThrew?;
        signerUnavailable := result.SignerUnavailable?;
      }
    }
    return false, outcomes, calls;
  }

  datatype Imports = ImportedAll(rounds: seq<nat>) | ImportFailed | ImportAborted

  /** The plain form throws the first failure and otherwise lists the imported rounds. */
  method ProcessQuicknetRequests(requests: seq<Request>) returns (r: Imports)
    ensures r.ImportedAll? ==> forall x :: x in r.rounds ==> x in Rounds(requests)
  {
    var imported := [];
    var cancelled, outcomes, calls := ProcessQuicknetRequestsWithOutcomes(requests);
    if cancelled { return ImportAborted; }
    for i := 0 to |outcomes|
      invariant forall x :: x in imported ==> x in Rounds(requests)
    {
      if outcomes[i].status.Failed? { return ImportFailed; }
      if outcomes[i].status.Completed? { imported := imported + [outcomes[i].round]; }
    }
    return ImportedAll(imported);
  }

  // The chain as the registry shows it

  /** What the block with a given hash commits to: the rounds a consumer requested in
      each block of its ancestry, and the rounds the registry has stored. */
  datatype Ledger = Ledger(requested: (Hash, Address, nat) -> set<nat>, stored: Hash -> set<nat>)

  /** The hash a node shows at a block number, over time. */
  type Timeline = (nat, nat) -> Hash

  /** A node that left a block does not come back to it: equal answers before and
      after a read mean the read was of that chain. */
  ghost predicate NeverReturns(t: Timeline) {
    forall n, i, j, k :: i <= j <= k && t(i, n) == t(k, n) ==> t(j, n) == t(i, n)
  }

  datatype Heads = Heads(durable: nat, latest: nat)

  /** A node and its whole future: when its k-th call is answered, whether it is, the
      heads it reports, the foreign logs it adds, and whether the caller's abort signal
      is raised after k calls. Nothing of this is known to a caller beforehand. */
  class RegistryNode {
    const ledger: Ledger
    const timeline: Timeline
    const moments: nat -> nat
    const answers: nat -> bool
    const heads: nat -> Heads
    const strays: nat -> seq<Request>
    const aborted: nat -> bool
    var calls: nat

    constructor (ledger: Ledger, timeline: Timeline, moments: nat -> nat, answers: nat -> bool, heads: nat -> Heads,
                 strays: nat -> seq<Request>, aborted: nat -> bool)
      ensures this.ledger == ledger && this.timeline == timeline && this.moments == moments
      ensures this.answers == answers && this.heads == heads && this.strays == strays && this.aborted == aborted && calls == 0
    {
      this.ledger, this.timeline, this.moments, this.answers := ledger, timeline, moments, answers;
      this.heads, this.strays, this.aborted, calls := heads, strays, aborted, 0;
    }

    /** Later calls are answered later, on a timeline without returns. */
    ghost predicate Honest() {
      NeverReturns(timeline) && forall i, j :: i <= j ==> moments(i) <= moments(j)
    }

    ghost predicate AbortedBetween(first: nat, last: nat) {
      exists k :: first <= k <= last && aborted(k)
    }

    lemma AbortWidens(first: nat, inner: nat, last: nat)
      requires first <= inner <= last && (aborted(last) || AbortedBetween(inner, last))
      ensures AbortedBetween(first, last)
    {
    }

    /** The block shown at a number to the k-th call. */
    function At(k: nat, number: nat): Hash { timeline(moments(k), number) }

    function AnchorAt(k: nat, number: nat): Option<Anchor> {
      if answers(k) then Some(Anchor(number, At(k, number))) else None
    }

    function HeadsAt(k: nat): Option<Heads> {
      if answers(k) && heads(k).durable <= heads(k).latest then Some(heads(k)) else None
    }

    method GetChainHeads() returns (r: Option<Heads>)
      modifies this
      ensures calls == old(calls) + 1 && r == HeadsAt(old(calls))
    {
      r := HeadsAt(calls);
      calls := calls + 1;
    }

    method GetAnchor(number: nat) returns (r: Option<Anchor>)
      modifies this
      ensures calls == old(calls) + 1 && r == AnchorAt(old(calls), number)
    {
      r := AnchorAt(calls, number);
      calls := calls + 1;
    }

    method IsStored(round: nat, number: nat) returns (r: Option<bool>)
      modifies this
      ensures calls == old(calls) + 1
      ensures r == if answers(old(calls)) then Some(round in ledger.stored(At(old(calls), number))) else None
    {
      r := if answers(calls) then Some(round in ledger.stored(At(calls, number))) else None;
      calls := calls + 1;
    }

    /** A request of the scanned range, on the chain that ends in `tip` at the k-th call. */
    predicate Genuine(k: nat, consumer: Address, from: nat, through: nat, tip: nat, q: Request) {
      q.consumer == consumer && from <= q.block <= through && q.round in ledger.requested(At(k, tip), consumer, q.block)
    }

    /** Every request of the range, and the foreign logs of this call. */
    method GetRequests(consumer: Address, from: nat, through: nat, tip: nat) returns (r: Option<seq<Request>>)
      requires from <= through <= tip
      modifies this
      ensures calls == old(calls) + 1 && (r.Some? <==> answers(old(calls)))
      ensures r.Some? ==> Replies(this, old(calls), consumer, from, through, tip, r.value)
    {
      var k := calls;
      calls := calls + 1;
      if !answers(k) { return None; }
      var reply: seq<Request> := [];
      var hash := At(k, tip);
      for b := from to through + 1
        invariant forall q :: q in reply <==> q.block < b && Genuine(k, consumer, from, through, tip, q)
      {
        var left := ledger.requested(hash, consumer, b);
        while left != {}
          invariant left <= ledger.requested(hash, consumer, b)
          invariant forall q :: q in reply <==>
            Genuine(k, consumer, from, through, tip, q) && (q.block < b || (q.block == b && q.round !in left))
        {
          var x :| x in left;
          reply, left := reply + [Request(b, consumer, x)], left - {x};
        }
      }
      return Some(reply + strays(k));
    }
  }

  ghost predicate Replies(node: RegistryNode, k: nat, consumer: Address, from: nat, through: nat, tip: nat, requests: seq<Request>) {
    forall q :: q in requests <==> node.Genuine(k, consumer, from, through, tip, q) || q in node.strays(k)
  }

  // Scanning

  /** The block after a bounded scan of [next, through]. */
  function ScanEnd(next: nat, through: nat, range: nat): nat
    requires range > 0 && next <= through
  {
    if next + range - 1 < through then next + range else through + 1
  }

  function ScanTimes(next: nat, through: nat, range: nat, k: nat): nat
    requires range > 0
    decreases k
  {
    if k == 0 || next > through then next else ScanTimes(ScanEnd(next, through, range), through, range, k - 1)
  }

  /** Repeated scans leave no gap and arrive right after the durable head in exactly
      ceil(blocks / range) steps. */
  lemma {:induction false} ScansArrive(next: nat, through: nat, range: nat, k: nat)
    requires range > 0 && next <= through
    ensures var blocks := through + 1 - next;
      ScanTimes(next, through, range, k) == (if k * range >= blocks then through + 1 else next + k * range)
    decreases k
  {
    if k > 0 {
      assert k * range == (k - 1) * range + range;
      var end := ScanEnd(next, through, range);
      if end <= through {
        ScansArrive(end, through, range, k - 1);
      } else {
        assert (k - 1) * range >= 0;
      }
    } else {
      assert k * range == 0;
    }
  }

  datatype Fulfillment = Stored | NotStored | Unavailable

  datatype Decision = Verified(nextBlock: nat) | AnchorMoved(observed: Anchor) | AnchorUnavailable

  datatype Refusal = Cancelled | ImportsCancelled | LogsUnread | LogsOutside

  datatype Reconciled =
    | CaughtUp(decision: Decision)
    | NoAnchor
    | Scanned(anchor: Anchor, imports: seq<Outcome>, fulfillment: seq<Fulfillment>, decision: Decision)
    | ReconcileThrew(cause: Refusal)

  /** All that the consumer requested in these blocks is stored at the anchor. */
  ghost predicate Fulfilled(ledger: Ledger, hash: Hash, consumer: Address, from: nat, until: nat) {
    forall b :: from <= b < until ==> ledger.requested(hash, consumer, b) <= ledger.stored(hash)
  }

  /** The checkpoint is the lowest first block among rounds not known to be stored,
      and the end of the scan when there is none. */
  predicate LowestMissing(imports: seq<Outcome>, fulfillment: seq<Fulfillment>, limit: nat, next: nat) {
    && |imports| == |fulfillment| && next <= limit
    && (forall k :: 0 <= k < |imports| && !fulfillment[k].Stored? ==> next <= imports[k].firstBlock)
    && (next < limit ==> exists k :: 0 <= k < |imports| && !fulfillment[k].Stored? && imports[k].firstBlock == next)
  }

  /** What the k-th call says about a round at a block. */
  function FulfillmentAt(node: RegistryNode, k: nat, round: nat, durable: nat): Fulfillment {
    if !node.answers(k) then Unavailable else if round in node.ledger.stored(node.At(k, durable)) then Stored else NotStored
  }

  /** Each round was asked for once, in order, from the k-th call on. */
  ghost predicate ReadFrom(node: RegistryNode, durable: nat, k: nat, outcomes: seq<Outcome>, fulfillment: seq<Fulfillment>) {
    && |fulfillment| <= |outcomes|
    && forall i :: 0 <= i < |fulfillment| ==> fulfillment[i] == FulfillmentAt(node, k + i, outcomes[i].round, durable)
  }

  /** One more answer keeps the checkpoint at the lowest missing round. */
  lemma MissingNext(outcomes: seq<Outcome>, i: nat, before: seq<Fulfillment>, state: Fulfillment, limit: nat, was: nat)
    requires i < |outcomes| && LowestMissing(outcomes[..i], before, limit, was)
    ensures LowestMissing(outcomes[..i + 1], before + [state], limit,
      if !state.Stored? && outcomes[i].firstBlock < was then outcomes[i].firstBlock else was)
  {
    var done, after := outcomes[..i + 1], before + [state];
    var next := if !state.Stored? && outcomes[i].firstBlock < was then outcomes[i].firstBlock else was;
    assert done == outcomes[..i] + [outcomes[i]];
    if next < limit {
      if next == was {
        var k :| 0 <= k < i && !before[k].Stored? && outcomes[..i][k].firstBlock == was;
        assert !after[k].Stored? && done[k].firstBlock == next;
      } else {
        assert !after[i].Stored? && done[i].firstBlock == next;
      }
    }
  }

  method ReadFulfillment(node: RegistryNode, outcomes: seq<Outcome>, durable: nat, limit: nat)
    returns (ok: bool, fulfillment: seq<Fulfillment>, next: nat)
    modifies node
    ensures node.calls >= old(node.calls)
    ensures ok ==> |fulfillment| == |outcomes| && LowestMissing(outcomes, fulfillment, limit, next)
    ensures ok ==> ReadFrom(node, durable, old(node.calls), outcomes, fulfillment) && node.calls == old(node.calls) + |outcomes|
    ensures !ok ==> node.AbortedBetween(old(node.calls), node.calls)
  {
    fulfillment, next := [], limit;
    assert LowestMissing(outcomes[..0], fulfillment, limit, next);
    hide LowestMissing;
    for i := 0 to |outcomes|
      invariant |fulfillment| == i && node.calls == old(node.calls) + i
      invariant LowestMissing(outcomes[..i], fulfillment, limit, next)
      invariant ReadFrom(node, durable, old(node.calls), outcomes, fulfillment)
    {
      var stored := node.IsStored(outcomes[i].round, durable);
      if node.aborted(node.calls) { return false, fulfillment, next; }
      var state := if stored.None? then Unavailable else if stored.value then Stored else NotStored;
      MissingNext(outcomes, i, fulfillment, state, limit, next);
      fulfillment := fulfillment + [state];
      if !state.Stored? && outcomes[i].firstBlock < next { next := outcomes[i].firstBlock; }
    }
    assert outcomes[..|outcomes|] == outcomes;
    return true, fulfillment, next;
  }

  predicate Outside(q: Request, consumer: Address, from: nat, through: nat) {
    q.consumer != consumer || q.block < from || q.block > through
  }

  ghost predicate HasOutside(requests: seq<Request>, consumer: Address, from: nat, through: nat) {
    exists q :: q in requests && Outside(q, consumer, from, through)
  }

  method AnyOutside(requests: seq<Request>, consumer: Address, from: nat, through: nat) returns (r: bool)
    ensures r <==> HasOutside(requests, consumer, from, through)
  {
    for i := 0 to |requests|
      invariant forall k :: 0 <= k < i ==> !Outside(requests[k], consumer, from, through)
    {
      if Outside(requests[i], consumer, from, through) {
        assert requests[i] in requests;
        return true;
      }
    }
    return false;
  }

  /** One outcome per distinct round of the requests, in order, with its lowest block. */
  ghost predicate Summary(requests: seq<Request>, outcomes: seq<Outcome>) {
    && |outcomes| == |Rounds(requests)|
    && (exists calls :: Sequential(outcomes, calls))
    && forall k :: 0 <= k < |outcomes| ==>
         outcomes[k].round == Rounds(requests)[k] && IsFirstBlock(requests, outcomes[k].round, outcomes[k].firstBlock)
  }

  /** Below the checkpoint every requested round was read as stored. */
  lemma BelowCheckpoint(requests: seq<Request>, outcomes: seq<Outcome>, fulfillment: seq<Fulfillment>, limit: nat, next: nat, q: Request)
    requires Summary(requests, outcomes) && LowestMissing(outcomes, fulfillment, limit, next)
    requires q in requests && q.block < next
    ensures exists k :: 0 <= k < |outcomes| && outcomes[k].round == q.round && fulfillment[k].Stored?
  {
    hide Sequential;
    var i :| 0 <= i < |requests| && requests[i] == q;
    assert Mentions(requests, q.round);
    var k :| 0 <= k < |Rounds(requests)| && Rounds(requests)[k] == q.round;
    assert IsFirstBlock(requests, outcomes[k].round, outcomes[k].firstBlock);
    assert outcomes[k].firstBlock <= q.block;
  }

  /** The outcomes are those of a reply without foreign logs. */
  ghost predicate Summarized(node: RegistryNode, k: nat, consumer: Address, from: nat, through: nat, tip: nat, imports: seq<Outcome>) {
    exists requests :: Replies(node, k, consumer, from, through, tip, requests) && Summary(requests, imports)
      && forall q :: q in requests ==> !Outside(q, consumer, from, through)
  }

  /** How the second look at the anchor decides. */
  predicate Decides(anchor: Anchor, after: Option<Anchor>, imports: seq<Outcome>, fulfillment: seq<Fulfillment>, limit: nat, d: Decision) {
    match d
    case Verified(next) => after == Some(anchor) && LowestMissing(imports, fulfillment, limit, next)
    case AnchorMoved(observed) => after == Some(observed) && observed != anchor
    case AnchorUnavailable => after.None?
  }

  /** A reconciliation is exactly what the node said from the `call`-th call up to
      the `closed`-th. Only a cancelled import does not depend on the node. */
  ghost predicate Observed(node: RegistryNode, call: nat, closed: nat, consumer: Address, from: nat, durable: nat, range: nat, r: Reconciled)
    requires range > 0
  {
    match r
    case CaughtUp(d) => from > durable && d == Verified(from) && closed == call
    case NoAnchor => from <= durable && !node.answers(call) && closed == call + 1
    case ReconcileThrew(cause) =>
      && closed >= call && (cause.Cancelled? ==> node.AbortedBetween(call, closed))
      && (cause.LogsUnread? ==> from <= durable && !node.answers(call + 1))
      && (cause.LogsOutside? ==> from <= durable && HasOutside(node.strays(call + 1), consumer, from, ScanEnd(from, durable, range) - 1))
    case Scanned(anchor, imports, fulfillment, d) =>
      && from <= durable && closed == call + 3 + |imports| && |fulfillment| == |imports|
      && node.AnchorAt(call, durable) == Some(anchor) && node.answers(call + 1)
      && Summarized(node, call + 1, consumer, from, ScanEnd(from, durable, range) - 1, durable, imports)
      && ReadFrom(node, durable, call + 2, imports, fulfillment)
      && Decides(anchor, node.AnchorAt(closed - 1, durable), imports, fulfillment, ScanEnd(from, durable, range), d)
  }

  /** Reads the scanned range, imports what it can, and then checks every round at
      the anchor whatever the imports did. */
  method ReconcileDurableRequests(node: RegistryNode, consumer: Address, nextBlock: nat, durable: nat, range: nat)
    returns (r: Reconciled)
    requires node.Honest() && range > 0
    modifies node
    ensures Observed(node, old(node.calls), node.calls, consumer, nextBlock, durable, range, r) && node.calls >= old(node.calls)
    ensures r.Scanned? && r.decision.Verified? ==>
      Fulfilled(node.ledger, r.anchor.hash, consumer, nextBlock, r.decision.nextBlock)
    ensures r.Scanned? && r.decision.Verified? ==> nextBlock <= r.decision.nextBlock <= ScanEnd(nextBlock, durable, range)
  {
    hide RegistryNode.Honest;
    hide Fulfilled;
    if node.aborted(node.calls) { return ReconcileThrew(Cancelled); }
    if nextBlock > durable { return CaughtUp(Verified(nextBlock)); }
    var anchor := node.GetAnchor(durable);
    if node.aborted(node.calls) { return ReconcileThrew(Cancelled); }
    if anchor.None? { return NoAnchor; }
    var end := ScanEnd(nextBlock, durable, range);
    var reply := node.GetRequests(consumer, nextBlock, end - 1, durable);
    if reply.None? { return ReconcileThrew(LogsUnread); }
    var outside := AnyOutside(reply.value, consumer, nextBlock, end - 1);
    if outside { return ReconcileThrew(LogsOutside); }
    r := ReconcileRounds(node, consumer, nextBlock, durable, range, anchor.value, reply.value, old(node.calls));
    hide *;
    if r.Scanned? && r.decision.Verified? { VerifiedIsFulfilled(node, old(node.calls), node.calls, consumer, nextBlock, durable, range, r); }
  }

  /** The rounds of a scan: imported, then each asked for at the anchor, then the anchor
      looked at again. */
  method ReconcileRounds(node: RegistryNode, consumer: Address, from: nat, durable: nat, range: nat,
                         anchor: Anchor, requests: seq<Request>, ghost call: nat)
    returns (r: Reconciled)
    requires range > 0 && from <= durable && node.calls == call + 2 && node.AnchorAt(call, durable) == Some(anchor) && node.answers(call + 1)
    requires Replies(node, call + 1, consumer, from, ScanEnd(from, durable, range) - 1, durable, requests)
    requires forall q :: q in requests ==> !Outside(q, consumer, from, ScanEnd(from, durable, range) - 1)
    modifies node
    ensures Observed(node, call, node.calls, consumer, from, durable, range, r) && node.calls >= call
  {
    hide ReadFrom;
    hide LowestMissing;
    hide IsFirstBlock;
    hide Rounds;
    hide Sequential;
    var stopped, outcomes, calls := ProcessQuicknetRequestsWithOutcomes(requests);
    if stopped { return ReconcileThrew(ImportsCancelled); }
    if node.aborted(node.calls) { return ReconcileThrew(Cancelled); }
    assert Summary(requests, outcomes);
    hide Summary;
    assert Summarized(node, call + 1, consumer, from, ScanEnd(from, durable, range) - 1, durable, outcomes);
    hide Replies;
    hide Summarized;
    var ok, fulfillment, next := ReadFulfillment(node, outcomes, durable, ScanEnd(from, durable, range));
    if !ok { return ReconcileThrew(Cancelled); }
    var after := node.GetAnchor(durable);
    if node.aborted(node.calls) { return ReconcileThrew(Cancelled); }
    var decision :=
      if after.None? then AnchorUnavailable else if after.value != anchor then AnchorMoved(after.value) else Verified(next);
    r := Scanned(anchor, outcomes, fulfillment, decision);
  }

  /** Equal anchors around the reads make every stored answer true of that anchor:
      a verified pass leaves no unfulfilled request behind, never moves back, and
      stops exactly at the first block whose round is not known to be stored. */
  lemma VerifiedIsFulfilled(node: RegistryNode, call: nat, closed: nat, consumer: Address, from: nat, durable: nat, range: nat, r: Reconciled)
    requires node.Honest() && range > 0 && Observed(node, call, closed, consumer, from, durable, range, r)
    requires r.Scanned? && r.decision.Verified?
    ensures Fulfilled(node.ledger, r.anchor.hash, consumer, from, r.decision.nextBlock)
    ensures from <= r.decision.nextBlock <= ScanEnd(from, durable, range)
    ensures LowestMissing(r.imports, r.fulfillment, ScanEnd(from, durable, range), r.decision.nextBlock)
  {
    hide IsFirstBlock;
    hide Rounds;
    hide Sequential;
    var hash, next, end := r.anchor.hash, r.decision.nextBlock, ScanEnd(from, durable, range);
    var requests: seq<Request> :| Replies(node, call + 1, consumer, from, end - 1, durable, requests) && Summary(requests, r.imports)
      && forall q :: q in requests ==> !Outside(q, consumer, from, end - 1);
    forall b, x | from <= b < next && x in node.ledger.requested(hash, consumer, b) ensures x in node.ledger.stored(hash) {
      SameBlock(node, call, call + 1, closed - 1, durable);
      var q := Request(b, consumer, x);
      assert node.Genuine(call + 1, consumer, from, end - 1, durable, q);
      BelowCheckpoint(requests, r.imports, r.fulfillment, end, next, q);
      var k :| 0 <= k < |r.imports| && r.imports[k].round == x && r.fulfillment[k].Stored?;
      assert r.fulfillment[k] == FulfillmentAt(node, call + 2 + k, r.imports[k].round, durable);
      SameBlock(node, call, call + 2 + k, closed - 1, durable);
    }
    NeverBehind(requests, r.imports, r.fulfillment, end, next, from, consumer);
  }

  lemma SameBlock(node: RegistryNode, first: nat, middle: nat, last: nat, number: nat)
    requires node.Honest() && first <= middle <= last && node.At(first, number) == node.At(last, number)
    ensures node.At(middle, number) == node.At(first, number)
  {
    assert node.moments(first) <= node.moments(middle) <= node.moments(last);
  }

  lemma NeverBehind(requests: seq<Request>, outcomes: seq<Outcome>, fulfillment: seq<Fulfillment>,
                    limit: nat, next: nat, from: nat, consumer: Address)
    requires LowestMissing(outcomes, fulfillment, limit, next) && from < limit && Summary(requests, outcomes)
    requires forall q :: q in requests ==> !Outside(q, consumer, from, limit - 1)
    ensures from <= next <= limit
  {
    hide Sequential;
    if next < limit {
      var k :| 0 <= k < |outcomes| && !fulfillment[k].Stored? && outcomes[k].firstBlock == next;
      assert IsFirstBlock(requests, outcomes[k].round, outcomes[k].firstBlock);
      var i :| 0 <= i < |requests| && requests[i].round == outcomes[k].round && requests[i].block == next;
      assert requests[i] in requests;
    }
  }

  /** The node answers every call of a pass from one chain, on which all that was
      requested in the scanned range is stored. */
  ghost predicate Settled(node: RegistryNode, call: nat, closed: nat, consumer: Address, from: nat, durable: nat, range: nat)
    requires range > 0 && from <= durable
  {
    && (forall k :: call <= k < closed || k == call || k == call + 1 ==> node.answers(k) && node.At(k, durable) == node.At(call, durable))
    && node.strays(call + 1) == [] && !node.AbortedBetween(call, closed)
    && Fulfilled(node.ledger, node.At(call, durable), consumer, from, ScanEnd(from, durable, range))
  }

  /** Every round of a reply is one of a request in it. */
  lemma RoundIsRequested(requests: seq<Request>, imports: seq<Outcome>, k: nat) returns (q: Request)
    requires Summary(requests, imports) && k < |imports|
    ensures q in requests && q.round == imports[k].round
  {
    hide Sequential;
    hide IsFirstBlock;
    assert Mentions(requests, Rounds(requests)[k]);
    hide Rounds;
    var i :| 0 <= i < |requests| && requests[i].round == imports[k].round;
    q := requests[i];
  }

  /** Then the pass verifies its whole range, whatever its imports did. */
  lemma SettledScansAll(node: RegistryNode, call: nat, closed: nat, consumer: Address, from: nat, durable: nat, range: nat, r: Reconciled)
    requires range > 0 && from <= durable && Observed(node, call, closed, consumer, from, durable, range, r)
    requires Settled(node, call, closed, consumer, from, durable, range) && r != ReconcileThrew(ImportsCancelled)
    ensures r.Scanned? && r.decision == Verified(ScanEnd(from, durable, range))
  {
    hide Summary;
    var end := ScanEnd(from, durable, range);
    assert node.answers(call) && node.answers(call + 1);
    assert r.Scanned?;
    var requests: seq<Request> :| Replies(node, call + 1, consumer, from, end - 1, durable, requests) && Summary(requests, r.imports)
      && forall q :: q in requests ==> !Outside(q, consumer, from, end - 1);
    hide Summarized;
    forall k: nat | k < |r.fulfillment| ensures r.fulfillment[k].Stored? {
      var q := RoundIsRequested(requests, r.imports, k);
      assert node.Genuine(call + 1, consumer, from, end - 1, durable, q);
      assert r.fulfillment[k] == FulfillmentAt(node, call + 2 + k, r.imports[k].round, durable);
    }
    hide ReadFrom;
    hide Replies;
    assert node.AnchorAt(closed - 1, durable) == Some(r.anchor);
    StoredRoundsFinishScan(r.imports, r.fulfillment, end, r.decision.nextBlock);
  }

  /** When the anchor held and every requested round is stored, a scan covers its
      whole range. */
  lemma StoredRoundsFinishScan(imports: seq<Outcome>, fulfillment: seq<Fulfillment>, limit: nat, next: nat)
    requires LowestMissing(imports, fulfillment, limit, next)
    ensures (forall k :: 0 <= k < |fulfillment| ==> fulfillment[k].Stored?) ==> next == limit
    ensures next == limit && (forall k :: 0 <= k < |imports| ==> imports[k].firstBlock < limit) ==>
      forall k :: 0 <= k < |fulfillment| ==> fulfillment[k].Stored?
  {
    if next < limit {
      var k :| 0 <= k < |imports| && !fulfillment[k].Stored? && imports[k].firstBlock == next;
    }
  }
}
