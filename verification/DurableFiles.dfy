/** One file replaced through a temporary file, on a disk where a rename becomes
    durable only with a directory synchronization. */
module DurableFiles {

  datatype File<+T> = Absent | Torn | Whole(contents: T)

  datatype Temp<+T> = NoTemp | Partial | Written(contents: T) | Synced(contents: T)

  /** An operation succeeds, fails, or the process dies somewhere inside it. */
  datatype Step = Done | Failed | Died

  datatype Saved = Acknowledged | Uncertain | ProcessDied

  /** The state directory as a process sees it, with every content that a power
      loss at this moment could leave behind. */
  class Directory<T(==,!new)> {
    var visible: File<T>
    var temp: Temp<T>
    var surviving: set<File<T>>

    ghost predicate Valid()
      reads this
    {
      && visible in surviving && Torn !in surviving
      && (visible.Absent? ==> surviving == {Absent})
    }

    constructor (initial: File<T>)
      requires !initial.Torn?
      ensures Valid() && visible == initial && surviving == {initial}
    {
      visible, temp, surviving := initial, NoTemp, {initial};
    }

    method CreateTemp() returns (step: Step)
      modifies this`temp
      ensures step.Done? ==> temp == Partial
    {
      step := *;
      temp := Partial;
    }

    method WriteTemp(contents: T) returns (step: Step)
      modifies this`temp
      ensures temp == if step.Done? then Written(contents) else Partial
    {
      step := *;
      temp := if step.Done? then Written(contents) else Partial;
    }

    method SyncTemp() returns (step: Step)
      modifies this`temp
      ensures temp == if step.Done? && old(temp).Written? then Synced(old(temp).contents) else old(temp)
    {
      step := *;
      if step.Done? && temp.Written? { temp := Synced(temp.contents); }
    }

    /** The destination shows the temporary file; only a synchronized one is sure
        to be whole after a power loss. */
    twostate predicate Replaced()
      reads this
    {
      && visible == (match old(temp) case Written(c) => Whole(c) case Synced(c) => Whole(c) case _ => Torn)
      && surviving == old(surviving) + {visible} + if old(temp).Synced? then {} else {Torn}
    }

    /** An error does not say that the rename did not happen. */
    method Rename() returns (step: Step)
      modifies this`visible, this`surviving
      ensures Replaced() || (!step.Done? && visible == old(visible) && surviving == old(surviving))
    {
      step := *;
      var happened: bool := *;
      if step.Done? || happened {
        visible := match temp case Written(c) => Whole(c) case Synced(c) => Whole(c) case _ => Torn;
        surviving := surviving + {visible} + if temp.Synced? then {} else {Torn};
      }
    }

    method SyncDirectory() returns (step: Step)
      modifies this`surviving
      ensures surviving == {visible} || (!step.Done? && surviving == old(surviving))
    {
      step := *;
      var happened: bool := *;
      if step.Done? || happened { surviving := {visible}; }
    }

    method Unlink()
      modifies this`temp
    {
      temp := *;
    }

    /** The machine loses power and starts again from one surviving content. */
    method PowerLoss()
      requires Valid()
      modifies this
      ensures Valid() && visible in old(surviving) && surviving == {visible}
    {
      var left :| left in surviving;
      visible, temp, surviving := left, NoTemp, {left};
    }
  }

  /** Writes a synchronized temporary file, renames it over the destination and
      synchronizes the directory. Whatever fails, and wherever the process dies,
      the file stays whole and shows only the old or the requested contents. */
  method DurableReplace<T(!new)>(d: Directory<T>, contents: T) returns (r: Saved)
    requires d.Valid()
    modifies d
    ensures d.Valid()
    ensures d.visible == old(d.visible) || d.visible == Whole(contents)
    ensures d.surviving <= old(d.surviving) + {Whole(contents)}
    ensures r.Acknowledged? ==> d.visible == Whole(contents) && d.surviving == {Whole(contents)}
  {
    var ownsTemp := false;
    var directoryOpen: Step := *;
    if !directoryOpen.Done? { return if directoryOpen.Died? then ProcessDied else Uncertain; }
    var step := d.CreateTemp();
    if step.Done? {
      ownsTemp := true;
      step := d.WriteTemp(contents);
    }
    if step.Done? { step := d.SyncTemp(); }
    if step.Done? { step := *; }                    // close the file, then the optional hook
    if step.Done? { step := d.Rename(); ownsTemp := !step.Done?; }
    if step.Done? { step := *; }                    // optional hook between rename and sync
    if step.Done? { step := d.SyncDirectory(); }
    if step.Died? { return ProcessDied; }
    if step.Done? { return Acknowledged; }          // a failing close no longer matters
    if ownsTemp { d.Unlink(); }
    return Uncertain;
  }
}
