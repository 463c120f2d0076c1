/**
 The lock file and the builder as objects (core/crates/ployz-build/src/builder.rs), and the search for a
 free slot (core/crates/ployz-build/src/execution.rs).
 */
module BuilderObject {
  import opened Common
  import opened BuildErrors

  const MARKER := "termination unconfirmed\n"

  /** How writing the lock file goes: a failed write may leave part of the marker behind. */
  datatype Disk = Works | WriteFails(written: nat) | SyncFails

  function LockError(): BuildError
  {
    Prerequisite("access the build lock")
  }

  class LockFile {
    var length: nat

    predicate Marked()
      reads this
    {
      length != 0
    }

    method Clear(disk: Disk) returns (r: Outcome<()>)
      modifies this
      ensures r.Ok? <==> disk.Works?
      ensures r.Err? ==> r.error == LockError()
      ensures if disk.WriteFails? then length == old(length) else !Marked()
    {
      if disk.WriteFails? {
        return Err(LockError());
      }
      length := 0;
      r := if disk.SyncFails? then Err(LockError()) else Ok(());
    }

    /** Only ever appends, so a marker once written stays. */
    method Quarantine(disk: Disk) returns (r: Outcome<()>)
      modifies this
      ensures r.Ok? <==> disk.Works?
      ensures r.Err? ==> r.error == LockError()
      ensures !disk.WriteFails? ==> Marked()
      ensures old(Marked()) ==> Marked()
    {
      if disk.WriteFails? {
        length := length + if disk.written < |MARKER| then disk.written else |MARKER|;
        return Err(LockError());
      }
      length := length + |MARKER|;
      r := if disk.SyncFails? then Err(LockError()) else Ok(());
    }
  }

  class Builder {
    const file: LockFile
    var held: bool

    constructor (file: LockFile)
      ensures this.file == file && held
    {
      this.file := file;
      held := true;
    }

    /**
     The handle is given up in every case. The marker goes only if the builder's removal was confirmed and
     the result is known, and then the returned outcome is known too.
     */
    method Finish<T>(result: Outcome<T>, cleanup: Outcome<()>, disk: Disk, cancelled: bool) returns (r: Outcome<T>)
      requires held && file.Marked()
      modifies this, file
      ensures !held
      ensures r == Finished(result, cleanup, if disk.Works? then Ok(()) else Err(LockError()), cancelled)
      ensures Unknown(r) ==> file.length == old(file.length)
      ensures r.Ok? ==> !file.Marked()
      ensures file.Marked() <==> Unknown(r) || disk.WriteFails?
    {
      hide Show;
      var stage := if result.Err? then StageOf(result.error) else Cleanup;
      var cleared := Ok(());
      ghost var written: Outcome<()> := if disk.Works? then Ok(()) else Err(LockError());
      FinishKeeps(result, cleanup, written, cancelled);
      if cleanup.Ok? && !Unknown(result) {
        cleared := file.Clear(disk);
      }
      held := false;
      if cleared.Err? {
        return Err(AtStage(stage,
          if result.Ok? then cleared.error
          else BadResult(Show(result.error) + "; cleanup failed: " + Show(cleared.error))));
      }
      match cleanup {
        case Ok(_) =>
          r := if result.Ok? && cancelled then Err(Cancelled) else result;
        case Err(error) =>
          r := Err(AtStage(stage, UncertainTermination(
            (if result.Ok? then "output handling completed" else Show(result.error)) + "; cleanup failed: " + Show(error))));
      }
    }
  }

  /** A slot that is passed over: busy or quarantined. */
  predicate Passed<T>(slot: Outcome<T>)
  {
    slot.Err? && (slot.error.Busy? || IsUnknown(slot.error))
  }

  predicate FirstUnknown<T>(slots: seq<Outcome<T>>, k: int)
  {
    0 <= k < |slots| && Unknown(slots[k]) && forall j :: 0 <= j < k ==> !Unknown(slots[j])
  }

  /**
   `try_acquire_within`: the first slot that is neither busy nor quarantined decides. If there is none, the
   first quarantined slot is reported, and `Busy` only when no slot is quarantined.
   */
  method TryAcquireWithin<T(==)>(slots: seq<Outcome<T>>) returns (r: Outcome<T>)
    ensures forall i :: 0 <= i < |slots| && !Passed(slots[i]) && (forall j :: 0 <= j < i ==> Passed(slots[j])) ==> r == slots[i]
    ensures (forall j :: 0 <= j < |slots| ==> Passed(slots[j])) ==> forall i :: FirstUnknown(slots, i) ==> r == slots[i]
    ensures (forall j :: 0 <= j < |slots| ==> Passed(slots[j]) && !Unknown(slots[j])) ==> r == Err(Busy)
  {
    var quarantined: Option<BuildError> := None;
    for i := 0 to |slots|
      invariant forall j :: 0 <= j < i ==> Passed(slots[j])
      invariant quarantined.None? ==> forall j :: 0 <= j < i ==> !Unknown(slots[j])
      invariant quarantined.Some? ==> exists k :: k < i && FirstUnknown(slots, k) && slots[k].error == quarantined.value
    {
      if slots[i].Ok? {
        return slots[i];
      }
      if !slots[i].error.Busy? {
        if !IsUnknown(slots[i].error) {
          return slots[i];
        }
        if quarantined.None? {
          assert FirstUnknown(slots, i);
          quarantined := Some(slots[i].error);
        }
      }
    }
    r := Err(if quarantined.Some? then quarantined.value else Busy);
  }
}
