/** The operator's forward nonce adoption for a present, empty journal. */
module NonceSync {
  import opened Journal
  import opened JournalHistory

  datatype Refusal = RetainedAttempts | NonceRegression | AnchorRegression | AnchorConflict

  datatype NonceSyncPlan =
    | AlreadySynchronized
    | CountsDisagree
    | Refused(reason: Refusal)
    | RepairAvailable(repair: Repair, next: Snapshot)

  function PlanNonceSync(s: Snapshot, o: Observation, latest: nat, pending: nat, at: Timestamp): NonceSyncPlan {
    var previous := s.lastObservation;
    if |s.attempts| != 0 then Refused(RetainedAttempts)
    else if o.anchor.number < previous.anchor.number then Refused(AnchorRegression)
    else if o.anchor.number == previous.anchor.number && o.anchor != previous.anchor then Refused(AnchorConflict)
    else if o.nonce < s.nextNonce || o.nonce < previous.nonce then Refused(NonceRegression)
    else if o.nonce != latest || o.nonce != pending then CountsDisagree
    else if o.nonce == s.nextNonce then AlreadySynchronized
    else
      var repair := Repair(at, s.nextNonce, o.nonce, o);
      RepairAvailable(repair, s.(lastObservation := o, nextNonce := o.nonce, durableNextNonce := o.nonce,
                                 repairs := LastRepairs(s.repairs + [repair])))
  }

  lemma LastRepairsValid(repairs: seq<Repair>, r: Repair, durable: nat)
    requires ValidRepairs(repairs, durable) && ValidRepair(r) && r.previousNextNonce >= durable
    ensures ValidRepairs(LastRepairs(repairs + [r]), r.nextNonce)
  {
  }

  /** A planned repair is a valid journal write that leaves no unattributed activity,
      and repairing again at the same observation changes nothing. */
  lemma RepairFollows(s: Snapshot, o: Observation, latest: nat, pending: nat, at: Timestamp)
    requires Sound(s) && ValidObservation(o) && PlanNonceSync(s, o, latest, pending, at).RepairAvailable?
    ensures var plan := PlanNonceSync(s, o, latest, pending, at);
      && Follows(s, Entry(Repaired, plan.next)) && !Unattributed(plan.next)
      && plan.next.repairs[|plan.next.repairs| - 1] == plan.repair
      && PlanNonceSync(plan.next, o, latest, pending, at) == AlreadySynchronized
  {
    var plan := PlanNonceSync(s, o, latest, pending, at);
    LastRepairsValid(s.repairs, plan.repair, s.durableNextNonce);
    assert s.nextNonce == s.durableNextNonce;
  }
}
