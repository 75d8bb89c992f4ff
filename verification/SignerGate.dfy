/** Whether the signer may prepare another transaction, and why not. */
module SignerGate {
  import opened Journal
  import opened JournalStore

  datatype Blocker =
    | PersistenceFailure
    | UnattributedActivity
    | SearchExhausted
    | UnresolvedAttempt
    | RetentionCapacity
    | RecoveryIncomplete

  const PRECEDENCE: seq<Blocker> := [
    PersistenceFailure, UnattributedActivity, SearchExhausted,
    UnresolvedAttempt, RetentionCapacity, RecoveryIncomplete]

  datatype Decision = Decision(open: bool, blockers: seq<Blocker>, primary: Option<Blocker>)

  function Select(order: seq<Blocker>, chosen: set<Blocker>): seq<Blocker> {
    if order == [] then []
    else (if order[0] in chosen then [order[0]] else []) + Select(order[1..], chosen)
  }

  function Blockers(state: PersistenceState, current: Option<Snapshot>, recovered: bool, rechecked: bool,
                    capacity: nat, latched: set<Blocker>): set<Blocker>
  {
    latched
    + (if state.Broken? then {PersistenceFailure} else {})
    + (if !recovered || !rechecked || current.None? then {RecoveryIncomplete} else {})
    + (if current.Some? && !AllIncluded(current.value.attempts) then {UnresolvedAttempt} else {})
    + (if current.Some? && |current.value.attempts| >= capacity then {RetentionCapacity} else {})
  }

  function EvaluateSignerGate(state: PersistenceState, current: Option<Snapshot>, recovered: bool, rechecked: bool,
                              capacity: nat, latched: set<Blocker>): Decision
  {
    var ordered := Select(PRECEDENCE, Blockers(state, current, recovered, rechecked, capacity, latched));
    Decision(state.Idle? && ordered == [], ordered, if ordered == [] then None else Some(ordered[0]))
  }

  predicate HasRoom(current: Option<Snapshot>, capacity: nat) {
    current.Some? && AllIncluded(current.value.attempts) && |current.value.attempts| < capacity
  }

  lemma {:induction false} SelectExact(order: seq<Blocker>, chosen: set<Blocker>)
    ensures forall b :: b in Select(order, chosen) <==> b in order && b in chosen
    ensures |Select(order, chosen)| > 0 ==>
      exists k :: 0 <= k < |order| && order[k] == Select(order, chosen)[0]
        && forall j :: 0 <= j < k ==> order[j] !in chosen
  {
    if order != [] {
      var rest := Select(order[1..], chosen);
      SelectExact(order[1..], chosen);
      assert order == [order[0]] + order[1..];
      if order[0] !in chosen && |rest| > 0 {
        var k :| 0 <= k < |order[1..]| && order[1..][k] == rest[0] && forall j :: 0 <= j < k ==> order[1..][j] !in chosen;
        assert order[k + 1] == rest[0];
        forall j | 0 <= j < k + 1 ensures order[j] !in chosen {
          if j > 0 { assert order[j] == order[1..][j - 1]; }
        }
      }
    }
  }

  /** The gate is open exactly when persistence is idle, both passes completed, every
      attempt is included with room for one more, and nothing is latched; a closed
      gate names its highest-precedence reason unless a write is still running. */
  lemma GateMeaning(state: PersistenceState, current: Option<Snapshot>, recovered: bool, rechecked: bool,
                    capacity: nat, latched: set<Blocker>)
    ensures var d := EvaluateSignerGate(state, current, recovered, rechecked, capacity, latched);
      && (d.open <==> state.Idle? && recovered && rechecked && latched == {} && HasRoom(current, capacity))
      && (!d.open && !state.Writing? ==> d.primary.Some?)
      && (d.primary.Some? ==>
            && d.primary.value in Blockers(state, current, recovered, rechecked, capacity, latched)
            && (state.Broken? ==> d.primary.value == PersistenceFailure))
  {
    var chosen := Blockers(state, current, recovered, rechecked, capacity, latched);
    SelectExact(PRECEDENCE, chosen);
    forall b | b in chosen ensures b in PRECEDENCE {
      match b
      case PersistenceFailure => assert PRECEDENCE[0] == b;
      case UnattributedActivity => assert PRECEDENCE[1] == b;
      case SearchExhausted => assert PRECEDENCE[2] == b;
      case UnresolvedAttempt => assert PRECEDENCE[3] == b;
      case RetentionCapacity => assert PRECEDENCE[4] == b;
      case RecoveryIncomplete => assert PRECEDENCE[5] == b;
    }
    var ordered := Select(PRECEDENCE, chosen);
    if ordered == [] {
      forall b ensures b !in chosen {
        assert b !in ordered;
      }
      assert chosen == {};
    } else {
      assert ordered[0] in chosen;
    }
    if latched != {} {
      var b :| b in latched;
      assert b in chosen && b in ordered;
    }
  }
}
