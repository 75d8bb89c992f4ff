/** What any committed journal write may do to the journal it replaces, and what
    follows for every finite history of such writes. */
module JournalHistory {
  import opened Journal

  /** What a nonce was resolved on: the outcome in a block, and the durable anchor above. */
  datatype Evidence = Evidence(anchor: Anchor, block: Anchor, outcome: Outcome)

  datatype Write = Bootstrapped | Prepared | Marked | Observed | Resolved(evidence: Evidence) | Repaired

  /** One journal write: why it was made and the complete snapshot it stored. */
  datatype Entry = Entry(write: Write, journal: Snapshot)

  /** The chain has counted more transactions than the journal allocated. */
  predicate Unattributed(s: Snapshot) {
    s.lastObservation.nonce > s.nextNonce
  }

  /** The structural invariant plus the bound that no validator checks. */
  ghost predicate Sound(s: Snapshot) {
    Valid(s) && s.durableNextNonce <= s.lastObservation.nonce
  }

  /** Same allocation and same signed bytes; a phase that left Signed stays out. */
  predicate Kept(a: Attempt, b: Attempt) {
    && b.id == a.id && b.workId == a.workId && b.nonce == a.nonce
    && b.createdAt == a.createdAt && b.txs == a.txs
    && (!a.phase.Signed? ==> !b.phase.Signed?)
  }

  predicate SameQueue(before: seq<Attempt>, after: seq<Attempt>) {
    |after| == |before| && forall i :: 0 <= i < |before| ==> Kept(before[i], after[i])
  }

  /** A lower count never hides recorded unattributed activity. */
  predicate KeepsActivity(c: Snapshot, p: Snapshot) {
    Unattributed(c) ==> p.lastObservation.nonce >= c.lastObservation.nonce
  }

  function LastRepairs(repairs: seq<Repair>): seq<Repair> {
    if |repairs| <= MAX_RETAINED_NONCE_REPAIRS then repairs
    else repairs[|repairs| - MAX_RETAINED_NONCE_REPAIRS..]
  }

  ghost predicate Starts(e: Entry) {
    && e.write == Bootstrapped && Sound(e.journal)
    && e.journal.attempts == [] && e.journal.repairs == []
    && e.journal.lastObservation == e.journal.baseline
    && e.journal.nextNonce == e.journal.baseline.nonce
  }

  ghost predicate PreparedFrom(c: Snapshot, p: Snapshot) {
    && c.lastObservation.nonce == c.nextNonce && AllIncluded(c.attempts)
    && |p.attempts| == |c.attempts| + 1
    && var a := p.attempts[|c.attempts|];
       && p == c.(nextNonce := c.nextNonce + 1, attempts := c.attempts + [a])
       && a.phase == Signed && a.search == Some(Search(c.lastObservation, None))
  }

  ghost predicate MarkedFrom(c: Snapshot, p: Snapshot) {
    var k := OldestUnresolved(c.attempts);
    && k < |c.attempts| && c.attempts[k].phase == Signed
    && c.lastObservation.nonce == c.attempts[k].nonce
    && p == c.(attempts := c.attempts[k := c.attempts[k].(phase := MayBeBroadcast)])
  }

  ghost predicate ObservedFrom(c: Snapshot, p: Snapshot) {
    && p == c.(lastObservation := p.lastObservation, attempts := p.attempts)
    && SameQueue(c.attempts, p.attempts) && KeepsActivity(c, p)
  }

  /** Matches an outcome against every signed transaction kept for the nonce. */
  predicate ResolutionMatches(a: Attempt, outcome: Outcome) {
    match outcome
    case Success(hash) => ContainsHash(a.txs, hash)
    case Reverted(hash) => ContainsHash(a.txs, hash)
    case Replaced(hash, count) => !ContainsHash(a.txs, hash) && count > a.nonce
  }

  /** Evidence about exactly this attempt, at or below a durable anchor. */
  predicate Resolves(a: Attempt, ev: Evidence) {
    ResolutionMatches(a, ev.outcome) && ValidAnchor(ev.anchor) && NotAbove(ev.block, ev.anchor)
  }

  /** The oldest attempt leaves only once its nonce is seen consumed, on evidence about
      that very attempt; the count is that of the evidence's anchor, or an older one
      kept for the activity it shows. */
  ghost predicate ResolvedFrom(c: Snapshot, p: Snapshot, ev: Evidence) {
    && |c.attempts| > 0 && p.lastObservation.nonce > c.attempts[0].nonce && Resolves(c.attempts[0], ev)
    && (p.lastObservation.anchor == ev.anchor || (Unattributed(c) && p.lastObservation == c.lastObservation))
    && p == c.(lastObservation := p.lastObservation,
               durableNextNonce := c.durableNextNonce + 1, attempts := c.attempts[1..])
    && KeepsActivity(c, p)
  }

  ghost predicate RepairedFrom(c: Snapshot, p: Snapshot) {
    && c.attempts == [] && |p.repairs| > 0
    && var r := p.repairs[|p.repairs| - 1];
       && r.previousNextNonce == c.nextNonce < r.nextNonce
       && r.nextNonce >= c.lastObservation.nonce
       && r.observation.anchor.number >= c.lastObservation.anchor.number
       && p == c.(lastObservation := r.observation, nextNonce := r.nextNonce,
                  durableNextNonce := r.nextNonce, repairs := LastRepairs(c.repairs + [r]))
  }

  ghost predicate Changes(c: Snapshot, e: Entry) {
    match e.write
    case Bootstrapped => false
    case Prepared => PreparedFrom(c, e.journal)
    case Marked => MarkedFrom(c, e.journal)
    case Observed => ObservedFrom(c, e.journal)
    case Resolved(ev) => ResolvedFrom(c, e.journal, ev)
    case Repaired => RepairedFrom(c, e.journal)
  }

  ghost predicate Follows(c: Snapshot, e: Entry) {
    Sound(e.journal) && Changes(c, e)
  }

  /** `e` may be the next write after `h`. */
  ghost predicate Extends(h: seq<Entry>, e: Entry) {
    if h == [] then Starts(e) else Follows(h[|h| - 1].journal, e)
  }

  ghost predicate History(h: seq<Entry>) {
    forall i {:trigger Extends(h[..i], h[i])} :: 0 <= i < |h| ==> Extends(h[..i], h[i])
  }

  lemma HistoryStep(h: seq<Entry>, i: nat)
    requires History(h) && i < |h|
    ensures i == 0 ==> Starts(h[0])
    ensures i > 0 ==> Follows(h[i - 1].journal, h[i])
  {
    assert Extends(h[..i], h[i]);
  }

  lemma HistoryChange(h: seq<Entry>, i: nat)
    requires History(h) && 0 < i < |h|
    ensures Changes(h[i - 1].journal, h[i])
  {
    HistoryStep(h, i);
  }

  lemma HistoryGrows(h: seq<Entry>, e: Entry)
    requires History(h) && Extends(h, e)
    ensures History(h + [e])
  {
    var all := h + [e];
    forall i | 0 <= i < |all| ensures Extends(all[..i], all[i]) {
      if i < |h| { assert all[..i] == h[..i]; } else { assert all[..i] == h; }
    }
  }

  ghost function RepairOf(e: Entry): seq<Repair> {
    if e.write == Repaired && |e.journal.repairs| > 0 then [e.journal.repairs[|e.journal.repairs| - 1]] else []
  }

  /** Every repair ever applied, in order. */
  ghost function RepairLog(h: seq<Entry>): seq<Repair> {
    if h == [] then []
    else
      var e := h[|h| - 1];
      RepairLog(h[..|h| - 1]) + RepairOf(e)
  }

  ghost function Widths(repairs: seq<Repair>): int {
    if repairs == [] then 0
    else Widths(repairs[..|repairs| - 1]) + repairs[|repairs| - 1].nextNonce - repairs[|repairs| - 1].previousNextNonce
  }

  ghost function Resolutions(h: seq<Entry>): nat {
    if h == [] then 0
    else Resolutions(h[..|h| - 1]) + if h[|h| - 1].write.Resolved? then 1 else 0
  }

  lemma WidthsAppend(repairs: seq<Repair>, r: Repair)
    ensures Widths(repairs + [r]) == Widths(repairs) + r.nextNonce - r.previousNextNonce
  {
    assert (repairs + [r])[..|repairs|] == repairs;
  }

  lemma LastRepairsAppend(repairs: seq<Repair>, r: Repair)
    ensures LastRepairs(LastRepairs(repairs) + [r]) == LastRepairs(repairs + [r])
  {
  }

  ghost predicate Conserved(s: Snapshot, resolved: nat, log: seq<Repair>) {
    && s.durableNextNonce - s.baseline.nonce == resolved + Widths(log)
    && s.nextNonce - s.baseline.nonce == resolved + Widths(log) + |s.attempts|
    && s.repairs == LastRepairs(log)
  }

  lemma ConservedStep(c: Snapshot, e: Entry, resolved: nat, log: seq<Repair>)
    requires Changes(c, e) && Conserved(c, resolved, log)
    ensures e.journal.baseline == c.baseline
    ensures Conserved(e.journal, if e.write.Resolved? then resolved + 1 else resolved, log + RepairOf(e))
  {
    if e.write == Repaired {
      RepairConserves(c, e.journal, resolved, log);
    } else {
      assert RepairOf(e) == [] && log + [] == log;
      hide Widths;
      hide LastRepairs;
      hide ResolutionMatches;
      hide NotAbove;
    }
  }

  lemma RepairConserves(c: Snapshot, p: Snapshot, resolved: nat, log: seq<Repair>)
    requires RepairedFrom(c, p) && Conserved(c, resolved, log)
    ensures p.baseline == c.baseline && Conserved(p, resolved, log + [p.repairs[|p.repairs| - 1]])
  {
    hide Widths;
    hide LastRepairs;
    var r := p.repairs[|p.repairs| - 1];
    WidthsAppend(log, r);
    LastRepairsAppend(log, r);
  }

  lemma HistoryPrefix(h: seq<Entry>, k: nat)
    requires History(h) && k <= |h|
    ensures History(h[..k])
  {
    forall i | 0 <= i < k ensures Extends(h[..k][..i], h[..k][i]) {
      assert h[..k][..i] == h[..i];
      assert Extends(h[..i], h[i]);
    }
  }

  /** Nonces are conserved: what was allocated or adopted since the baseline is
      exactly what was resolved, repaired over, or is still retained, and the
      stored repairs are the last eight ever applied. */
  lemma {:induction false} NoncesConserved(h: seq<Entry>)
    requires History(h) && |h| > 0
    ensures h[|h| - 1].journal.baseline == h[0].journal.baseline
    ensures Conserved(h[|h| - 1].journal, Resolutions(h), RepairLog(h))
  {
    var e, before := h[|h| - 1], h[..|h| - 1];
    HistoryStep(h, |h| - 1);
    hide Changes;
    hide Sound;
    if |h| == 1 {
      assert before == [] && RepairLog(before) == [] && Resolutions(before) == 0;
    } else {
      hide Conserved;
      HistoryPrefix(h, |h| - 1);
      NoncesConserved(before);
      assert before[|before| - 1] == h[|h| - 2];
      ConservedStep(h[|h| - 2].journal, e, Resolutions(before), RepairLog(before));
    }
  }

  /** Both counters only grow, and neither the observation nor the retained range
      ever falls behind the durable counter. */
  lemma {:induction false} CountersGrow(h: seq<Entry>, i: nat, j: nat)
    requires History(h) && i <= j < |h|
    ensures h[i].journal.nextNonce <= h[j].journal.nextNonce
    ensures h[i].journal.durableNextNonce <= h[j].journal.durableNextNonce <= h[j].journal.lastObservation.nonce
    decreases j - i
  {
    HistoryStep(h, j);
    if i < j {
      CountersGrow(h, i, j - 1);
    }
  }

  /** The attempt of `s` at `nonce`, when one is retained. */
  predicate Retains(s: Snapshot, nonce: nat) {
    && s.durableNextNonce <= nonce < s.durableNextNonce + |s.attempts|
  }

  function At(s: Snapshot, nonce: nat): Attempt
    requires Retains(s, nonce)
  {
    s.attempts[nonce - s.durableNextNonce]
  }

  lemma {:induction false} AttemptStep(c: Snapshot, e: Entry, nonce: nat)
    requires Sound(c) && Follows(c, e) && Retains(c, nonce)
    ensures e.journal.durableNextNonce > nonce || (Retains(e.journal, nonce) && Kept(At(c, nonce), At(e.journal, nonce)))
  {
    hide Sound;
    hide Resolves;
    hide KeepsActivity;
    hide LastRepairs;
    var k := nonce - c.durableNextNonce;
    if e.write == Observed {
      assert Kept(c.attempts[k], e.journal.attempts[k]);
    }
  }

  /** An allocated nonce belongs to one attempt: whatever later write the journal
      takes, the attempt is still retained with the same signed bytes and has
      not returned to the signed phase, or its nonce was durably resolved. */
  lemma {:induction false} AttemptPersists(h: seq<Entry>, i: nat, j: nat, nonce: nat)
    requires History(h) && i <= j < |h| && Retains(h[i].journal, nonce)
    ensures h[j].journal.durableNextNonce > nonce
      || (Retains(h[j].journal, nonce) && Kept(At(h[i].journal, nonce), At(h[j].journal, nonce)))
    decreases j - i
  {
    HistoryStep(h, j);
    if i < j {
      AttemptPersists(h, i, j - 1, nonce);
      HistoryStep(h, j - 1);
      if h[j - 1].journal.durableNextNonce > nonce {
        CountersGrow(h, j - 1, j);
      } else {
        AttemptStep(h[j - 1].journal, h[j], nonce);
      }
    }
  }

  lemma ActivityStep(c: Snapshot, e: Entry)
    requires Changes(c, e) && Unattributed(c) && e.write != Repaired
    ensures e.journal.lastObservation.nonce >= c.lastObservation.nonce
    ensures e.journal.nextNonce == c.nextNonce
  {
  }

  /** Recorded unattributed activity outlives every write but a nonce repair. */
  lemma {:induction false} ActivityPersists(h: seq<Entry>, i: nat, j: nat)
    requires History(h) && i <= j < |h| && Unattributed(h[i].journal)
    requires forall m :: i < m <= j ==> h[m].write != Repaired
    ensures Unattributed(h[j].journal)
    ensures h[j].journal.lastObservation.nonce >= h[i].journal.lastObservation.nonce
    decreases j - i
  {
    if i < j {
      ActivityPersists(h, i, j - 1);
      HistoryChange(h, j);
      ActivityStep(h[j - 1].journal, h[j]);
    }
  }
}
