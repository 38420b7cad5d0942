/**
  Leftovers that a restore does not report, and that keep the next one from
  starting. `Restore.Materialize` says exactly when they are left; here is a
  run for each, from any disk a restore accepts.
*/
module Leftovers {
  import opened Volume
  import opened RestoreState
  import opened Chronicles
  import opened Kernels
  import opened RestoreFrames
  import opened Schedules
  import opened Restore

  /** The first update's write fails, and so does its discard: the failed restore reports nothing. */
  method LostUpdate(start: Disk, slot: map<RelPath, Bytes>, manifest: Manifest, owners: bool, tag: string)
    returns (out: Outcome, after: Disk, again: Outcome)
    requires WF(start) && ValidManifest(manifest) && forall l :: l in start.tree ==> l.name.Live?
    ensures out == Failed([], false) && NextLoc(tag) in after.tree && again.Refused?
  {
    hide ValidManifest, WF, Chronicle, ValidJob, Succeeded, Untouched, GoesThrough, Obstructed, Accounted;
    var faults := (n: nat) => n == 1 || n == 2;
    var warned;
    ghost var run, unsynced;
    out, after, warned, run, unsynced := Materialize(start, slot, manifest, manifest, owners, tag, faults);
    ghost var g := JobOf(tag, manifest, owners, start);
    assert LosesAt(faults, 0, 1) && UpdateBegins(g, slot, faults, 0);
    LastIsWF(g, run, unsynced);
    var end;
    again, end, warned, run, unsynced := Materialize(after, slot, manifest, manifest, owners, tag, n => false);
  }

  lemma LastIsWF(g: Job, run: seq<Disk>, unsynced: bool)
    requires Chronicle(g, run, RollingBack, unsynced)
    ensures WF(run[|run| - 1])
  {
  }

  /** Dropping one set-aside original fails: the restore succeeds. */
  method KeptOriginal(
      start: Disk, slot: map<RelPath, Bytes>, manifest: Manifest, owners: bool, tag: string, i: nat)
    returns (out: Outcome, after: Disk, again: Outcome)
    requires WF(start) && ValidManifest(manifest) && forall l :: l in start.tree ==> l.name.Live?
    requires i < |manifest.files| && Home(manifest.files[i].path) in start.tree
    requires !Obstructed(JobOf(tag, manifest, owners, start), slot)
    ensures out.Done? && PrevOf(manifest.files[i].path, tag) in after.tree && again.Refused?
  {
    hide ValidManifest, WF, Chronicle, ValidJob, Succeeded, Untouched, Obstructed, Accounted, LeavesUpdate;
    hide DisposeAt;
    var g := JobOf(tag, manifest, owners, start);
    var last := DisposeAt(g, i);
    LinksInTurn(g, i);
    var faults := (n: nat) => n == last;
    var warned;
    ghost var run, unsynced;
    out, after, warned, run, unsynced := Materialize(start, slot, manifest, manifest, owners, tag, faults);
    LastIsWF(g, run, unsynced);
    var end;
    again, end, warned, run, unsynced := Materialize(after, slot, manifest, manifest, owners, tag, n => false);
  }

  lemma LinksInTurn(g: Job, i: nat)
    requires i < |g.manifest.files| && !IsMissing(g, g.manifest.files[i].path)
    ensures DisposeAt(g, 0) <= DisposeAt(g, i) < DisposeAt(g, |g.manifest.files|)
  {
    OriginalsGrow(g, 0, i);
    OriginalsGrow(g, i + 1, |g.manifest.files|);
  }
}
