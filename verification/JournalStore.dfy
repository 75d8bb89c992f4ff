/** The journal file of one signer and the coordinator's persistence state. */
module JournalStore {
  import opened Journal
  import opened Serialization
  import opened DurableFiles

  datatype Bounds = Bounds(maxRetainedAttempts: nat, maxSignedTransactionsPerAttempt: nat)

  datatype Loaded = Missing | Present(journal: Snapshot) | LoadFailed

  predicate WithinBounds(s: Snapshot, bounds: Option<Bounds>) {
    bounds.Some? ==>
      && |s.attempts| <= bounds.value.maxRetainedAttempts
      && forall k :: 0 <= k < |s.attempts| ==> |s.attempts[k].txs| <= bounds.value.maxSignedTransactionsPerAttempt
  }

  /** A file that shows this journal state to a process of this signer. */
  predicate Shows(f: File<Json>, identity: Identity, checks: Checks, current: Option<Snapshot>) {
    match current
    case None => f.Absent?
    case Some(s) => f.Whole? && DecodeJournal(f.contents, identity, checks) == Some(s)
  }

  class FileTransactionJournalStore {
    const directory: Directory<Json>
    const identity: Identity
    const checks: Checks
    const bounds: Option<Bounds>

    constructor (directory: Directory<Json>, identity: Identity, checks: Checks, bounds: Option<Bounds>)
      ensures this.directory == directory && this.identity == identity && this.checks == checks && this.bounds == bounds
    {
      this.directory, this.identity, this.checks, this.bounds := directory, identity, checks, bounds;
    }

    method Load() returns (r: Loaded)
      ensures r.Missing? ==> directory.visible.Absent?
      ensures r.Present? ==> Shows(directory.visible, identity, checks, Some(r.journal)) && WithinBounds(r.journal, bounds)
    {
      var failed: bool := *;
      if failed { return LoadFailed; }
      match directory.visible {
        case Absent => return Missing;
        case Torn => return LoadFailed;
        case Whole(contents) =>
          var decoded := DecodeJournal(contents, identity, checks);
          if decoded.None? || !WithinBounds(decoded.value, bounds) { return LoadFailed; }
          return Present(decoded.value);
      }
    }

    method Save(s: Snapshot) returns (r: Saved)
      requires directory.Valid()
      modifies directory
      ensures directory.Valid()
      ensures directory.visible == old(directory.visible) || Shows(directory.visible, identity, checks, Some(s))
      ensures forall f :: f in directory.surviving ==> f in old(directory.surviving) || Shows(f, identity, checks, Some(s))
      ensures r.Acknowledged? ==> Shows(directory.visible, identity, checks, Some(s)) && directory.surviving == {directory.visible}
      ensures r.Acknowledged? ==> identity == s.identity && Valid(s) && checks.verifies(s)
    {
      var contents := EncodeJournal(s, identity, checks);
      if contents.None? { return Uncertain; }
      r := DurableReplace(directory, contents.value);
    }

    /** Loads, removes orphaned temporary files and rewrites what was loaded, so
        that a rename the last process never synchronized cannot come undone. */
    method Open() returns (ok: bool, loaded: Loaded)
      requires directory.Valid()
      modifies directory
      ensures directory.Valid()
      ensures forall f :: f in directory.surviving ==>
        f in old(directory.surviving) || (loaded.Present? && Shows(f, identity, checks, Some(loaded.journal)))
      ensures loaded.Present? ==> Shows(old(directory.visible), identity, checks, Some(loaded.journal))
      ensures loaded.Present? ==> Shows(directory.visible, identity, checks, Some(loaded.journal))
      ensures ok ==> !loaded.LoadFailed? && directory.surviving == {directory.visible}
      ensures loaded.Missing? ==> old(directory.visible).Absent? && directory.visible.Absent?
    {
      loaded := Load();
      if loaded.LoadFailed? { return false, loaded; }
      var cleaned: bool := *;
      if !cleaned { return false, loaded; }
      if loaded.Present? {
        var saved := Save(loaded.journal);
        return saved.Acknowledged?, loaded;
      }
      return true, loaded;
    }
  }

  /** A process that opened the journal is not contradicted by any later power
      loss: the next process loads the same journal or nothing at all. */
  method RestartAfterOpen(store: FileTransactionJournalStore) returns (first: Loaded, second: Loaded)
    requires store.directory.Valid()
    modifies store.directory
    ensures !first.LoadFailed? && !second.LoadFailed? ==> first == second
  {
    hide DecodeJournal;
    var ok;
    ok, first := store.Open();
    if !ok { return LoadFailed, LoadFailed; }
    store.directory.PowerLoss();
    ok, second := store.Open();
  }

  datatype PersistenceState = Idle | Writing | Broken

  datatype Persisting = Committed | Rejected | NotConfirmed | Crashed

  /** Keeps the last committed snapshot, and after a failure the exact snapshot
      that must be retried. */
  class JournalPersistence {
    const store: FileTransactionJournalStore
    var state: PersistenceState
    var current: Option<Snapshot>
    var pending: Option<Snapshot>

    /** While idle the disk holds exactly `current`, through any power loss; after
        a failure it holds `current` or the pending snapshot, and nothing else. */
    ghost predicate Valid()
      reads this, store.directory
    {
      && store.directory.Valid()
      && (state.Idle? ==> pending.None?)
      && (!state.Idle? ==> pending.Some?)
      && (current.Some? ==> Journal.Valid(current.value) && current.value.identity == store.identity)
      && (pending.Some? ==> Journal.Valid(pending.value) && pending.value.identity == store.identity)
      && forall f :: f in store.directory.surviving ==>
           Shows(f, store.identity, store.checks, current) || (pending.Some? && Shows(f, store.identity, store.checks, pending))
    }

    constructor (store: FileTransactionJournalStore, initial: Loaded)
      requires store.directory.Valid() && store.directory.surviving == {store.directory.visible}
      requires initial.Missing? ==> store.directory.visible.Absent?
      requires initial.Present? ==> Shows(store.directory.visible, store.identity, store.checks, Some(initial.journal))
      requires !initial.LoadFailed?
      ensures Valid() && state == Idle && this.store == store
      ensures current == if initial.Present? then Some(initial.journal) else None
    {
      this.store := store;
      state, pending := Idle, None;
      current := if initial.Present? then Some(initial.journal) else None;
    }

    method Save(next: Snapshot) returns (r: Persisting)
      requires Valid()
      modifies this, store.directory
      ensures !r.Crashed? ==> Valid()
      ensures old(state) != Idle ==> r == Rejected
      ensures r.Rejected? ==> state == old(state) && current == old(current) && pending == old(pending)
      ensures r.Rejected? && old(state) == Idle ==> !(next.identity == store.identity && Journal.Valid(next) && store.checks.verifies(next))
      ensures r.Committed? ==> state == Idle && current == Some(next)
      ensures r.NotConfirmed? ==> state == Broken && current == old(current) && pending == Some(next)
      ensures r.Crashed? ==> store.directory.Valid() && forall f :: f in store.directory.surviving ==>
        Shows(f, store.identity, store.checks, old(current)) || Shows(f, store.identity, store.checks, Some(next))
    {
      if state != Idle { return Rejected; }
      state := Writing;
      var ok := ValidateStructure(next, store.identity);
      if !ok || !store.checks.verifies(next) {
        state := Idle;
        return Rejected;
      }
      pending := Some(next);
      assert Valid();
      r := PersistPending(next);
    }

    method Retry() returns (r: Persisting)
      requires Valid()
      modifies this, store.directory
      ensures !r.Crashed? ==> Valid()
      ensures r.Rejected? <==> old(state) != Broken
      ensures r.Rejected? ==> state == old(state) && current == old(current) && pending == old(pending)
      ensures r.Committed? ==> state == Idle && current == old(pending)
      ensures r.NotConfirmed? ==> state == Broken && current == old(current) && pending == old(pending)
    {
      if state != Broken { return Rejected; }
      state := Writing;
      r := PersistPending(pending.value);
    }

    method PersistPending(s: Snapshot) returns (r: Persisting)
      requires Valid() && state == Writing && pending == Some(s)
      modifies this, store.directory
      ensures !r.Rejected?
      ensures !r.Crashed? ==> Valid()
      ensures r.Committed? ==> state == Idle && current == Some(s)
      ensures r.NotConfirmed? ==> state == Broken && current == old(current) && pending == Some(s)
      ensures r.Crashed? ==> store.directory.Valid() && forall f :: f in store.directory.surviving ==>
        Shows(f, store.identity, store.checks, old(current)) || Shows(f, store.identity, store.checks, Some(s))
    {
      var saved := store.Save(s);
      match saved {
        case ProcessDied => return Crashed;
        case Uncertain =>
          state := Broken;
          return NotConfirmed;
        case Acknowledged =>
          current, pending, state := Some(s), None, Idle;
          return Committed;
      }
    }
  }
}
