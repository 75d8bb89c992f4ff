/** The bounded, resumable search for the transaction that consumed a nonce. */
module ReplacementSearch {
  import opened Journal
  import opened Blocks

  datatype SearchResult =
    | MissingLowerBound
    | AnchorBehindSearch
    | SearchAnchorChanged(observed: Anchor)
    | BoundaryChanged(observed: Anchor)
    | RecordedFound(hash: Hash, block: Anchor)
    | ReplacementFound(block: Anchor, hash: Hash, nonceAtAnchor: nat)
    | NotFound(through: Anchor, scanned: nat, remaining: nat)
    | SearchThrew

  /** Last block already covered: the saved position or the lower bound. */
  function Boundary(search: Search): Anchor {
    if search.through.Some? then search.through.value else search.lowerBound.anchor
  }

  predicate AnchorBehind(search: Search, seen: Observation) {
    search.lowerBound.anchor.number >= seen.anchor.number || Boundary(search).number > seen.anchor.number
  }

  function Min(a: nat, b: nat): nat { if a < b then a else b }

  /** What each answer establishes, whatever forks the node served meanwhile. */
  ghost predicate Answers(chain: Chain, signer: Address, txs: seq<SignedTx>, nonce: nat,
                          search: Option<Search>, seen: Observation, range: nat, r: SearchResult)
  {
    match r
    case MissingLowerBound => search.None?
    case AnchorBehindSearch =>
      search.Some? && AnchorBehind(search.value, seen)
    case RecordedFound(hash, block) =>
      && search.Some? && ContainsHash(txs, hash) && NotAbove(block, seen.anchor)
      && block.number <= Boundary(search.value).number + range
      && FirstSpend(chain, signer, nonce, Boundary(search.value), block, hash)
    case ReplacementFound(block, hash, nonceAtAnchor) =>
      && search.Some? && !ContainsHash(txs, hash) && NotAbove(block, seen.anchor)
      && block.number <= Boundary(search.value).number + range
      && nonceAtAnchor == seen.nonce > nonce
      && FirstSpend(chain, signer, nonce, Boundary(search.value), block, hash)
    case NotFound(through, scanned, remaining) =>
      && search.Some? && search.value.lowerBound.anchor.number < seen.anchor.number
      && Boundary(search.value).number + scanned + remaining == seen.anchor.number
      && scanned == Min(range, seen.anchor.number - Boundary(search.value).number)
      && through.number == Boundary(search.value).number + scanned
      && Clear(chain, signer, nonce, Boundary(search.value), through)
      && (remaining == 0 && scanned > 0 ==> through == seen.anchor)
    case _ => true
  }

  /** A saved position whose numbers fit 256 bits, in order, from a count at or below
      the nonce. */
  predicate Resumable(search: Search, nonce: nat) {
    && ValidAnchor(search.lowerBound.anchor) && search.lowerBound.nonce <= nonce
    && (search.through.Some? ==>
          ValidAnchor(search.through.value) && search.through.value.number > search.lowerBound.anchor.number)
  }

  /** Inputs the search refuses before reading anything: among them numbers beyond 256
      bits anywhere. */
  predicate Refused(txs: seq<SignedTx>, nonce: nat, search: Option<Search>, seen: Observation, range: nat) {
    || |txs| == 0 || !(0 < range < UINT256_LIMIT) || seen.nonce <= nonce || !ValidObservation(seen)
    || (exists k, l :: 0 <= k < l < |txs| && txs[k].hash == txs[l].hash)
    || (search.Some? && !Resumable(search.value, nonce))
  }

  method FindSpend(block: Block, signer: Address, nonce: nat) returns (ok: bool, found: Option<Hash>)
    ensures ok && found.None? ==> !Spends(block, signer, nonce)
    ensures ok && found.Some? ==> OnlySpend(block, signer, nonce, found.value)
    ensures !ok ==> exists k, l :: 0 <= k < l < |block.txs| && Matches(block.txs[k], signer, nonce) && Matches(block.txs[l], signer, nonce)
  {
    found := None;
    ghost var at := 0;
    for k := 0 to |block.txs|
      invariant found.None? ==> forall l :: 0 <= l < k ==> !Matches(block.txs[l], signer, nonce)
      invariant found.Some? ==> at < k && block.txs[at] == Tx(found.value, signer, nonce)
      invariant found.Some? ==> forall l :: 0 <= l < k && Matches(block.txs[l], signer, nonce) ==> l == at
    {
      if Matches(block.txs[k], signer, nonce) {
        if found.Some? {
          assert Matches(block.txs[at], signer, nonce);
          return false, found;
        }
        found := Some(block.txs[k].hash);
        at := k;
      }
    }
    return true, found;
  }

  /** One more parent-linked block either stays clear or is the first to spend. */
  lemma LinkedBlock(chain: Chain, signer: Address, nonce: nat, base: Anchor, previous: Anchor, next: Anchor)
    requires Clear(chain, signer, nonce, base, previous) && base.number <= previous.number
    requires next.number == previous.number + 1 && chain(next.hash).number == next.number && chain(next.hash).parent == previous.hash
    ensures !Spends(chain(next.hash), signer, nonce) ==> Clear(chain, signer, nonce, base, next)
    ensures forall hash :: OnlySpend(chain(next.hash), signer, nonce, hash) ==> FirstSpend(chain, signer, nonce, base, next, hash)
  {
    assert ParentOf(chain, next) == previous;
  }

  /** The checks before anything is read, and the recorded hashes. */
  method CheckInputs(txs: seq<SignedTx>, nonce: nat, search: Option<Search>, seen: Observation, range: nat)
    returns (early: Option<SearchResult>, recorded: set<Hash>)
    ensures early == Some(SearchThrew) <==> Refused(txs, nonce, search, seen, range)
    ensures early == Some(MissingLowerBound) <==> !Refused(txs, nonce, search, seen, range) && search.None?
    ensures early == Some(AnchorBehindSearch) <==>
      !Refused(txs, nonce, search, seen, range) && search.Some? && AnchorBehind(search.value, seen)
    ensures early.Some? ==> early.value in {SearchThrew, MissingLowerBound, AnchorBehindSearch}
    ensures early.None? ==> forall h :: h in recorded <==> ContainsHash(txs, h)
  {
    recorded := {};
    if |txs| == 0 { return Some(SearchThrew), recorded; }
    for k := 0 to |txs|
      invariant forall h :: h in recorded <==> exists m :: 0 <= m < k && txs[m].hash == h
      invariant forall m, l :: 0 <= m < l < k ==> txs[m].hash != txs[l].hash
    {
      if txs[k].hash in recorded { return Some(SearchThrew), recorded; }
      recorded := recorded + {txs[k].hash};
    }
    if !ValidObservation(seen) || seen.nonce <= nonce || range == 0 || range >= UINT256_LIMIT { return Some(SearchThrew), recorded; }
    if search.None? { return Some(MissingLowerBound), recorded; }
    var lower := search.value.lowerBound.anchor;
    if !ValidAnchor(lower) { return Some(SearchThrew), recorded; }
    if search.value.through.Some? {
      if !ValidAnchor(search.value.through.value) || search.value.through.value.number <= lower.number {
        return Some(SearchThrew), recorded;
      }
    }
    if search.value.lowerBound.nonce > nonce { return Some(SearchThrew), recorded; }
    return if AnchorBehind(search.value, seen) then Some(AnchorBehindSearch) else None, recorded;
  }

  method SearchAttemptReplacement(rpc: Rpc, signer: Address, txs: seq<SignedTx>, nonce: nat,
                                  search: Option<Search>, seen: Observation, range: nat, since: nat)
    returns (r: SearchResult, now: nat)
    ensures now >= since && Answers(rpc.chain, signer, txs, nonce, search, seen, range, r)
    ensures r.SearchAnchorChanged? ==> rpc.ShownSince(r.observed, since)
    ensures r.BoundaryChanged? || r.RecordedFound? || r.ReplacementFound? || r.NotFound? ==> rpc.ShownSince(seen.anchor, since)
    ensures Refused(txs, nonce, search, seen, range) ==> r.SearchThrew?
    ensures !Refused(txs, nonce, search, seen, range) && search.None? ==> r.MissingLowerBound?
  {
    assert search.Some? ==> Clear(rpc.chain, signer, nonce, Boundary(search.value), Boundary(search.value));
    hide Clear;
    hide FirstSpend;
    hide OnlySpend;
    hide Spends;
    now := since;
    var early, recorded := CheckInputs(txs, nonce, search, seen, range);
    if early.Some? { return early.value, now; }
    var anchor, lower, boundary := seen.anchor, search.value.lowerBound.anchor, Boundary(search.value);
    assert seen.nonce > nonce && 0 < range && lower.number < anchor.number && boundary.number <= anchor.number;
    hide Refused;
    hide AnchorBehind;
    hide ContainsHash;

    var before;
    before, now := rpc.CheckAnchor(anchor, now);
    if before.Changed? { return SearchAnchorChanged(before.observed), now; }
    if before.Unreadable? { return SearchThrew, now; }
    assert rpc.ShownSince(anchor, since);
    var observedLower;
    observedLower, now := rpc.GetAnchor(lower.number, now);
    if observedLower.None? { return SearchThrew, now; }
    if observedLower.value != lower { return BoundaryChanged(observedLower.value), now; }
    if boundary != lower {
      var observed;
      observed, now := rpc.GetAnchor(boundary.number, now);
      if observed.None? { return SearchThrew, now; }
      if observed.value != boundary { return BoundaryChanged(observed.value), now; }
    }

    var through := boundary.number + range;
    if through > anchor.number { through := anchor.number; }

    var previous := boundary;
    var scanned := 0;
    var found: Option<(Hash, Anchor)> := None;
    var number := boundary.number + 1;
    while number <= through && found.None?
      invariant now >= since && boundary.number <= previous.number <= through
      invariant previous.number == boundary.number + scanned
      invariant number == previous.number + 1
      invariant previous.number == anchor.number && scanned > 0 ==> previous == anchor
      invariant found.None? ==> Clear(rpc.chain, signer, nonce, boundary, previous)
      invariant found.Some? ==> previous == found.value.1
      invariant found.Some? ==> FirstSpend(rpc.chain, signer, nonce, boundary, previous, found.value.0)
      decreases through - number, found.None?
    {
      var served;
      served, now := rpc.GetBlock(number, now);
      if served.Unavailable? || served.block.number != number || served.block.parent != previous.hash {
        return SearchThrew, now;
      }
      var inclusion := Anchor(number, served.hash);
      assert rpc.ShownAt(inclusion, now);
      LinkedBlock(rpc.chain, signer, nonce, boundary, previous, inclusion);
      if number == anchor.number && inclusion != anchor { return SearchAnchorChanged(inclusion), now; }
      var ok, spend := FindSpend(served.block, signer, nonce);
      if !ok { return SearchThrew, now; }
      if spend.Some? { found := Some((spend.value, inclusion)); }
      previous := inclusion;
      scanned := scanned + 1;
      number := number + 1;
    }

    var after;
    after, now := rpc.CheckAnchor(anchor, now);
    if after.Changed? { return SearchAnchorChanged(after.observed), now; }
    if after.Unreadable? { return SearchThrew, now; }
    if found.Some? {
      var (hash, block) := found.value;
      if hash in recorded { return RecordedFound(hash, block), now; }
      return ReplacementFound(block, hash, seen.nonce), now;
    }
    return NotFound(previous, scanned, anchor.number - previous.number), now;
  }

  /** The position saved after an answer. */
  function SearchedOn(search: Search, r: SearchResult): Search {
    if r.NotFound? && r.scanned > 0 then search.(through := Some(r.through)) else search
  }

  /** Every block the saved position claims to cover is clear. */
  ghost predicate SearchSound(chain: Chain, signer: Address, nonce: nat, search: Search) {
    Clear(chain, signer, nonce, search.lowerBound.anchor, Boundary(search))
  }

  /** Resuming keeps the claim of the saved position, over any reorganization. */
  lemma ResumeSound(chain: Chain, signer: Address, txs: seq<SignedTx>, nonce: nat, search: Search,
                    seen: Observation, range: nat, r: SearchResult)
    requires SearchSound(chain, signer, nonce, search)
    requires Answers(chain, signer, txs, nonce, Some(search), seen, range, r)
    ensures SearchSound(chain, signer, nonce, SearchedOn(search, r))
  {
    if r.NotFound? && r.scanned > 0 {
      ClearJoins(chain, signer, nonce, search.lowerBound.anchor, Boundary(search), r.through);
    }
  }

  /** Successive calls at one observation, each resuming where the last stopped,
      none of which found the consuming transaction. */
  ghost predicate KeepsMissing(chain: Chain, signer: Address, txs: seq<SignedTx>, nonce: nat, search: Search,
                               seen: Observation, range: nat, answers: seq<SearchResult>)
    decreases |answers|
  {
    answers == [] || (
      && answers[0].NotFound?
      && Answers(chain, signer, txs, nonce, Some(search), seen, range, answers[0])
      && KeepsMissing(chain, signer, txs, nonce, SearchedOn(search, answers[0]), seen, range, answers[1..]))
  }

  /** With truthful counts the search cannot run dry: fewer than gap / range calls,
      rounded up, end without the consuming transaction. */
  lemma {:induction false} SearchFinds(chain: Chain, signer: Address, count: Hash -> nat, txs: seq<SignedTx>, nonce: nat,
                                       search: Search, seen: Observation, range: nat, answers: seq<SearchResult>)
    requires NonceRule(chain, signer, count)
    requires count(search.lowerBound.anchor.hash) <= nonce < count(seen.anchor.hash)
    requires SearchSound(chain, signer, nonce, search) && range > 0
    requires KeepsMissing(chain, signer, txs, nonce, search, seen, range, answers)
    requires Boundary(search).number < seen.anchor.number
    ensures |answers| * range < seen.anchor.number - Boundary(search).number
    decreases |answers|
  {
    if answers != [] {
      var r := answers[0];
      var next := SearchedOn(search, r);
      ResumeSound(chain, signer, txs, nonce, search, seen, range, r);
      if r.remaining == 0 {
        ClearKeepsCount(chain, signer, count, nonce, search.lowerBound.anchor, seen.anchor);
        assert false;
      }
      SearchFinds(chain, signer, count, txs, nonce, next, seen, range, answers[1..]);
      assert |answers| * range == |answers[1..]| * range + range;
    }
  }
}
