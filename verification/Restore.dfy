/**
  `materialize_with` and its `Work`: the restore, step by step, with every call
  free to fail.
*/
module Restore {
  import opened Wrappers
  import opened Volume
  import opened RestoreState
  import opened RestoreSteps
  import opened Chronicles
  import opened DepthSort
  import opened Kernels
  import opened RestoreFrames
  import opened Schedules

  class Work {
    const tag: string
    const manifest: Manifest
    const owners: bool
    const kernel: Kernel
    ghost const job: Job

    var disk: Disk
    var phase: Phase
    /** What `PhaseOf(disk, tag)` was after the last marker update that landed. */
    var recorded: Phase
    var created: seq<RelPath>
    var staged: seq<StagedFile>
    var marker: bool
    var failures: seq<Problem>
    var stranded: bool
    /** Files a failed clean-up was only logged for. */
    var warned: seq<Loc>

    ghost var history: seq<Disk>
    /** The record of `Swapping` reached the disk but its fsync failed. */
    ghost var unsynced: bool

    /** The disk is the last one of a sound history. */
    ghost predicate Running()
      reads this
    {
      && ValidJob(job) && job.tag == tag && job.manifest == manifest && job.owners == owners
      && Chronicle(job, history, recorded, unsynced)
      && disk == history[|history| - 1]
      && (marker ==> At(disk, MarkerLoc(tag)).Some?)
      && (PhaseOf(disk, tag).Some? ==> PhaseOf(disk, tag).value == recorded)
      && (forall p :: p in job.items ==> At(disk, InstallOf(p, tag)).None?)
    }

    /** `Running`, and a marker update is left behind exactly when that was logged. */
    ghost predicate Tidy()
      reads this
    {
      && Running()
      && (NextLoc(tag) in warned <==> At(disk, NextLoc(tag)).Some?)
      && (kernel.Reliable() ==> warned == [] && !unsynced)
    }

    /** A call: it fails when the kernel refuses it or `faults` says so, changing nothing. */
    method Try(c: Call) returns (ok: bool)
      modifies this`disk, this`history, kernel
      ensures ok ==> Do(old(disk), c) == Some(disk)
      ensures !ok ==> disk == old(disk)
      ensures kernel.calls == old(kernel.calls) + 1
      ensures ok <==> Do(old(disk), c).Some? && !kernel.faults(old(kernel.calls))
      ensures history == old(history) + [disk]
    {
      var after := Do(disk, c);
      var fault := kernel.Fault();
      ok := after.Some? && !fault;
      if ok {
        disk := after.value;
      }
      history := history + [disk];
    }

    /** `fsync`, or any other call that changes nothing and may fail. */
    method Sync() returns (ok: bool)
      modifies kernel
      ensures kernel.Ran(old(kernel.calls), 1, ok)
    {
      var fault := kernel.Fault();
      ok := !fault;
    }

    function Record(): SwapMarker
      reads this
    {
      SwapMarker(phase, Marks(staged), created, owners, manifest)
    }

    /** `write_all` then `sync_all` into a file just created: a failure may leave any bytes in it. */
    method Fill(l: Loc, blob: Blob) returns (ok: bool)
      requires Running() && Fillable(job, disk, l)
      requires At(disk, l).Some? && IsNew(job, At(disk, l)) && SoleName(disk, l, At(disk, l).value.ino)
      modifies this`disk, this`history, kernel
      ensures Running() && Fillable(job, disk, l) && OnlyAt(old(disk), disk, l) && At(disk, l) == old(At(disk, l))
      ensures SoleName(disk, l, At(disk, l).value.ino)
      ensures MarkerOf(disk, tag) == old(MarkerOf(disk, tag)) &&
        At(disk, MarkerLoc(tag)) == old(At(disk, MarkerLoc(tag)))
      ensures old(FinishReady(job, disk)) && old(PhaseOf(disk, tag)) == Some(Swapping) ==> FinishReady(job, disk)
      ensures ok ==> InodeAt(disk, l).Some? && InodeAt(disk, l).value.blob == blob
      ensures kernel.Ran(old(kernel.calls), 3, ok)
    {
      hide ValidJob, Body, WF, Fillable;
      var torn: Bytes := *;
      ok := WriteInode(Write(l, Raw(torn)));
      if ok {
        ok := WriteInode(Write(l, blob));
      }
      if ok {
        ok := Sync();
      }
    }

    method WriteInode(c: Call) returns (ok: bool)
      requires (c.Write? || c.SetMeta?) && Running() && Fillable(job, disk, c.at)
      requires IsNew(job, At(disk, c.at)) && SoleName(disk, c.at, At(disk, c.at).value.ino)
      modifies this`disk, this`history, kernel
      ensures Running() && Fillable(job, disk, c.at) && OnlyAt(old(disk), disk, c.at) &&
        At(disk, c.at) == old(At(disk, c.at))
      ensures SoleName(disk, c.at, At(disk, c.at).value.ino)
      ensures MarkerOf(disk, tag) == old(MarkerOf(disk, tag)) &&
        At(disk, MarkerLoc(tag)) == old(At(disk, MarkerLoc(tag)))
      ensures old(FinishReady(job, disk)) && old(PhaseOf(disk, tag)) == Some(Swapping) ==> FinishReady(job, disk)
      ensures ok ==> Do(old(disk), c) == Some(disk)
      ensures !ok ==> disk == old(disk)
      ensures kernel.Ran(old(kernel.calls), 1, ok)
    {
      hide Chronicle, Good, FinishReady, Marked, Fillable, Sound, ValidJob;
      ghost var a := disk;
      GoodBody(job, history, recorded, unsynced);
      ok := Try(c);
      if ok {
        WriteCall(job, a, c);
        FillStep(job, a, disk, c.at);
        Append(job, old(history), recorded, unsynced, disk, recorded);
      } else {
        Idle(job, old(history), recorded, unsynced);
      }
    }

    /** The update replaces the marker. */
    method Land(m: SwapMarker) returns (ok: bool)
      requires Running() && Fits(job, disk, m) && m.phase == phase
      requires IsNew(job, At(disk, NextLoc(tag))) && InodeAt(disk, NextLoc(tag)).Some? &&
        InodeAt(disk, NextLoc(tag)).value.blob == Volume.Record(m)
      requires At(disk, NextLoc(tag)) != At(disk, MarkerLoc(tag))
      requires PhaseMove(PhaseOf(disk, tag), Some(phase)) && Rank(recorded) <= Rank(phase) &&
        (phase == Swapping ==> FinishReady(job, disk))
      modifies this`disk, this`history, kernel, this`recorded, this`marker
      ensures Running()
      ensures ok ==> marker && recorded == phase && MarkerOf(disk, tag) == Some(m) && At(disk, NextLoc(tag)).None?
      ensures ok ==> forall l :: l != NextLoc(tag) && l != MarkerLoc(tag) ==>
        At(disk, l) == old(At(disk, l)) && InodeAt(disk, l) == old(InodeAt(disk, l))
      ensures !ok ==> disk == old(disk) && recorded == old(recorded) && marker == old(marker)
      ensures kernel.Ran(old(kernel.calls), 1, ok)
    {
      hide Chronicle, Good, FinishReady, Marked, Fits, Body, ValidJob, WF;
      ghost var a := disk;
      GoodBody(job, history, recorded, unsynced);
      UpdateLands(job, a);
      ok := Try(Rename(Root, Next(tag), Marker(tag)));
      if ok {
        MarkerStep(job, a, disk, m);
        MarkedHasMarker(job, disk);
        recorded := phase;
        marker := true;
        Append(job, old(history), old(recorded), unsynced, disk, phase);
      } else {
        Idle(job, old(history), recorded, unsynced);
      }
    }

    /** A failed update is discarded; failing even that is only logged. */
    method DropUpdate()
      requires Running() && At(disk, NextLoc(tag)).Some? && NextLoc(tag) !in warned
      requires !kernel.Reliable()
      modifies this`disk, this`history, kernel, this`warned
      ensures Tidy() && OnlyAt(old(disk), disk, NextLoc(tag))
      ensures MarkerOf(disk, tag) == old(MarkerOf(disk, tag)) &&
        At(disk, MarkerLoc(tag)) == old(At(disk, MarkerLoc(tag)))
      ensures warned == if kernel.faults(old(kernel.calls)) then old(warned) + [NextLoc(tag)] else old(warned)
      ensures kernel.calls == old(kernel.calls) + 1
    {
      hide Chronicle, Good, FinishReady, Marked, Body, ValidJob, Sound, Disciplined;
      ghost var a := disk;
      GoodBody(job, history, recorded, unsynced);
      UpdateGoes(job, a);
      var dropped := Try(Discard(NextLoc(tag)));
      if dropped {
        EntryCall(job, a, Discard(NextLoc(tag)));
        ScratchApart(job, NextLoc(tag));
        PhaseIsMarked(job, a);
        ScratchStep(job, a, disk, NextLoc(tag));
        QuietStep(job, a, disk, NextLoc(tag));
        Append(job, old(history), recorded, unsynced, disk, recorded);
      } else {
        Idle(job, old(history), recorded, unsynced);
        warned := warned + [NextLoc(tag)];
      }
    }

    /** Create the update's file exclusively. */
    method StartUpdate() returns (ok: bool)
      requires Tidy() && warned == []
      modifies this`disk, this`history, kernel
      ensures Running() && OnlyAt(old(disk), disk, NextLoc(tag))
      ensures MarkerOf(disk, tag) == old(MarkerOf(disk, tag)) &&
        At(disk, MarkerLoc(tag)) == old(At(disk, MarkerLoc(tag)))
      ensures ok ==>
        IsNew(job, At(disk, NextLoc(tag))) && SoleName(disk, NextLoc(tag), At(disk, NextLoc(tag)).value.ino)
      ensures !ok ==> disk == old(disk)
      ensures kernel.Ran(old(kernel.calls), 1, ok)
    {
      hide Chronicle, Good, FinishReady, Marked, Fits, Body, Sound, Disciplined, ValidJob;
      ghost var a := disk;
      GoodBody(job, history, recorded, unsynced);
      var next := NextLoc(tag);
      ok := Try(Create(next));
      if ok {
        FreshIsNew(job, a);
        EntryCall(job, a, Create(next));
        PhaseIsMarked(job, a);
        ScratchStep(job, a, disk, next);
        ScratchApart(job, next);
        QuietStep(job, a, disk, next);
        Append(job, old(history), recorded, unsynced, disk, recorded);
      } else {
        Idle(job, old(history), recorded, unsynced);
      }
    }

    /** Write the update and move it over the marker; the move can land before its fsync fails. */
    method FillAndLand() returns (landed: bool, ok: bool)
      requires Running() && Fits(job, disk, Record()) && PhaseMove(PhaseOf(disk, tag), Some(phase))
      requires IsNew(job, At(disk, NextLoc(tag))) && SoleName(disk, NextLoc(tag), At(disk, NextLoc(tag)).value.ino)
      requires Rank(recorded) <= Rank(phase) && (phase == Swapping ==> FinishReady(job, disk))
      modifies this`disk, this`history, kernel, this`recorded, this`marker, this`unsynced
      ensures Running() && (ok ==> landed)
      ensures landed ==>
        marker && recorded == phase && MarkerOf(disk, tag) == Some(Record()) && At(disk, NextLoc(tag)).None?
      ensures !landed ==>
        marker == old(marker) && recorded == old(recorded) && MarkerOf(disk, tag) == old(MarkerOf(disk, tag))
                          && At(disk, MarkerLoc(tag)) == old(At(disk, MarkerLoc(tag))) && At(disk, NextLoc(tag)).Some?
      ensures forall l :: l != NextLoc(tag) && l != MarkerLoc(tag) ==>
        At(disk, l) == old(At(disk, l)) && InodeAt(disk, l) == old(InodeAt(disk, l))
      ensures unsynced ==> old(unsynced) || (phase == Swapping && !ok && landed)
      ensures !ok && landed && phase == Swapping ==> unsynced
      ensures kernel.Ran(old(kernel.calls), 5, ok) && (landed <==> kernel.calls == old(kernel.calls) + 5)
    {
      hide Chronicle, Good, FinishReady, Marked, Fits, Body;
      ghost var a := disk;
      var next := NextLoc(tag);
      landed := false;
      ok := Fill(next, Volume.Record(Record()));
      ScratchFits(job, a, disk, next, Record());
      if ok {
        landed := Land(Record());
        ok := landed;
      }
      if ok {
        ok := Sync();
        if !ok && phase == Swapping {
          unsynced := true;
          Weaken(job, history, recorded);
        }
      }
    }

    /**
      The marker becomes `Record()`, or stays what it was; a failure can have
      either outcome, and every disk on the way holds one of the two.
    */
    method WriteMarker() returns (ok: bool)
      requires Tidy() && Fits(job, disk, Record()) && PhaseMove(PhaseOf(disk, tag), Some(phase)) && warned == []
      requires Rank(recorded) <= Rank(phase) && (phase == Swapping ==> FinishReady(job, disk))
      modifies this`disk, this`history, kernel, this`recorded, this`marker, this`warned, this`unsynced
      ensures Tidy()
      ensures ok <==> Quiet(kernel.faults, old(kernel.calls), old(kernel.calls) + UPDATE_CALLS)
      ensures if ok then kernel.calls == old(kernel.calls) + UPDATE_CALLS
        else !Quiet(kernel.faults, old(kernel.calls), kernel.calls)
      ensures kernel.calls >= old(kernel.calls)
      ensures NextLoc(tag) in warned <==> Loses(kernel.faults, old(kernel.calls))
      ensures forall m: nat :: LosesAt(kernel.faults, old(kernel.calls), m) ==>
        kernel.calls == m + 2 && marker == old(marker)
      ensures ok ==> marker && recorded == phase && MarkerOf(disk, tag) == Some(Record())
      ensures !ok ==>
        || (&& marker == old(marker) && recorded == old(recorded) && MarkerOf(disk, tag) == old(MarkerOf(disk, tag))
            && At(disk, MarkerLoc(tag)) == old(At(disk, MarkerLoc(tag))))
        || (marker && recorded == phase && MarkerOf(disk, tag) == Some(Record()))
      ensures forall l :: l != NextLoc(tag) && l != MarkerLoc(tag) ==>
        At(disk, l) == old(At(disk, l)) && InodeAt(disk, l) == old(InodeAt(disk, l))
      ensures unsynced ==> old(unsynced) || (phase == Swapping && !ok && recorded == Swapping)
      ensures !ok && recorded == Swapping && old(recorded) != Swapping ==> unsynced
      ensures ok ==> warned == []
    {
      hide Chronicle, Good, FinishReady, Marked, Fits, Body, Loses, LosesAt, ValidJob, SoleName, MarkerOf, InodeAt;
      hide At, NextLoc, MarkerLoc, IsNew, Marks;
      ghost var a, first := disk, kernel.calls;
      ok := StartUpdate();
      if !ok {
        UpdateStops(kernel.faults, first, first);
        return;
      }
      ScratchFits(job, a, disk, NextLoc(tag), Record());
      var landed;
      landed, ok := FillAndLand();
      if ok {
        NotLost(kernel.faults, first, kernel.calls);
      } else {
        UpdateStops(kernel.faults, first, kernel.calls - 1);
      }
      if !landed {
        DropUpdate();
      }
    }

    /** What `Undo` needs to clean up after an error; `failed` when something was already reported. */
    ghost predicate Undoing(failed: bool)
      reads this
    {
      && Tidy() && !stranded
      && (if At(disk, MarkerLoc(tag)).Some? then marker else staged == [] && created == [])
      && (PhaseOf(disk, tag) == Some(Swapping) ==> unsynced)
      && Cleanable(job, disk, created, staged, failed)
    }

    ghost predicate UndoReady()
      reads this
    {
      Undoing(failures != [])
    }

    ghost predicate Early()
      reads this
    {
      && Tidy() && marker && phase == Staging && recorded == Staging && !stranded && !unsynced && failures == []
      && warned == []
    }

    /** Directories are being made: no file has been touched. */
    ghost predicate Making()
      reads this
    {
      && Early() && staged == [] && MarkerOf(disk, tag) == Some(Record())
      && (forall p :: p in job.items ==> CleanFile(job, disk, p))
    }

    /** What was made is reached through directories that are there. */
    ghost predicate Sturdy()
      reads this
    {
      && (forall c :: c in created ==> IsDir(disk, c.parent))
      && (forall s :: s in staged ==> IsDir(disk, s.path.parent))
    }

    /** And nothing is out of place or reported yet, so an undo fails only if one of its calls does. */
    ghost predicate Whole()
      reads this
    {
      Sturdy() && failures == [] && !stranded && forall s :: s in staged ==> !s.displaced
    }

    lemma MakingFits()
      requires Making()
      ensures Marked(job, disk) && Fits(job, disk, Record()) && DirsFit(job, disk, created) && UndoReady()
    {
      GoodBody(job, history, recorded, unsynced);
    }

    /** Record the directory, then make it; `apply_meta` on it is the last call. */
    method MakeDir(c: RelPath) returns (ok: bool)
      requires Making() && Whole() && c in job.dirs && IsDir(disk, c.parent)
      requires c !in created && (forall x :: x in created ==> x.parent != c)
      modifies this`disk, this`history, kernel, this`recorded, this`marker, this`warned, this`unsynced, this`created
      ensures ok ==> Making() && At(disk, Home(c)) == Some(Dir)
      ensures ok ==> created == old(created) || created == old(created) + [c]
      ensures ok ==> forall x :: x in job.dirs && x != c ==> At(disk, Home(x)) == old(At(disk, Home(x)))
      ensures !ok ==> UndoReady()
      ensures Whole()
      ensures ok <==>
        if IsMissing(job, c) then Quiet(kernel.faults, old(kernel.calls), old(kernel.calls) + DIR_CALLS)
        else !NotADir(job, c)
      ensures ok ==> kernel.calls == old(kernel.calls) + if IsMissing(job, c) then DIR_CALLS else 0
      ensures !ok && IsMissing(job, c) ==> !Quiet(kernel.faults, old(kernel.calls), kernel.calls)
      ensures NextLoc(tag) in warned <==> IsMissing(job, c) && Loses(kernel.faults, old(kernel.calls))
    {
      hide Chronicle, Good, FinishReady, Fits, Marked, Body;
      MakingFits();
      var e := At(disk, Home(c));
      if e.Some? {
        return e.value.Dir?;
      }
      ok := RecordDir(c);
      if ok {
        ok := EnterDir(c);
      }
    }

    method RecordDir(c: RelPath) returns (ok: bool)
      requires Making() && Whole() && c in job.dirs && At(disk, Home(c)).None? && IsDir(disk, c.parent)
      requires c !in created && (forall x :: x in created ==> x.parent != c)
      modifies this`disk, this`history, kernel, this`recorded, this`marker, this`warned, this`unsynced, this`created
      ensures ok ==> Making() && created == old(created) + [c]
      ensures forall x: RelPath :: At(disk, Home(x)) == old(At(disk, Home(x)))
      ensures UndoReady() && Whole()
      ensures ok <==> Quiet(kernel.faults, old(kernel.calls), old(kernel.calls) + UPDATE_CALLS)
      ensures if ok then kernel.calls == old(kernel.calls) + UPDATE_CALLS
        else !Quiet(kernel.faults, old(kernel.calls), kernel.calls)
      ensures NextLoc(tag) in warned <==> Loses(kernel.faults, old(kernel.calls))
    {
      hide Chronicle, Good, FinishReady, Fits, Marked, Body, DirsFit, CleanFile, ValidJob, StagedFits, Clean, IsStaged;
      hide Loses, LosesAt, Quiet;
      MakingFits();
      created := created + [c];
      RecordMore(job, disk, old(Record()), c);
      ghost var a := disk;
      ok := WriteMarker();
      CleanElsewhere(job, a, disk);
      FitsDirs(job, a, Record());
      DirsElsewhere(job, a, disk, created);
    }

    method EnterDir(c: RelPath) returns (ok: bool)
      requires Making() && Whole() && c in created && At(disk, Home(c)).None? && IsDir(disk, c.parent)
      modifies this`disk, this`history, kernel
      ensures ok ==> Making() && At(disk, Home(c)) == Some(Dir) && OnlyAt(old(disk), disk, Home(c))
      ensures UndoReady() && Whole() && kernel.Ran(old(kernel.calls), 2, ok)
    {
      hide Chronicle, Good, FinishReady, Fits, Marked, Body, ValidJob, Sound, Disciplined, CleanFile;
      MakingFits();
      ghost var a := disk;
      GoodBody(job, history, recorded, unsynced);
      ok := Try(Mkdir(c));
      if ok {
        EntryCall(job, a, Mkdir(c));
        DirStep(job, a, disk, c);
        Append(job, old(history), recorded, unsynced, disk, recorded);
        CleanApart(job, a, disk, c);
        MakingFits();
        ok := Sync();
      } else {
        Idle(job, old(history), recorded, unsynced);
      }
    }

    /** The first `i` directories are there, and nothing but those was created. */
    ghost predicate MadeUpTo(sorted: seq<RelPath>, i: nat)
      requires i <= |sorted|
      reads this
    {
      && Making() && Whole()
      && (forall j :: 0 <= j < i ==> At(disk, Home(sorted[j])) == Some(Dir))
      && (forall x :: x in created ==> x in sorted[..i])
    }

    /** Each directory finds its parent there, already made or there before. */
    method MakeDirs() returns (ok: bool)
      requires Making() && Whole() && created == [] && kernel.Smooth(DirAt(job, 0))
      modifies this`disk, this`history, kernel, this`recorded, this`marker, this`warned, this`unsynced, this`created
      ensures ok ==> Making() && forall c :: c in job.dirs ==> At(disk, Home(c)) == Some(Dir)
      ensures ok ==> kernel.Smooth(FileAt(job, 0))
      ensures Whole() && (!ok ==> UndoReady() && exists i :: StoppedAtDir(i))
    {
      hide Chronicle, Good, FinishReady, Fits, Marked, Body, DirsFit, CleanFile, ByDepth, UndoReady, Undoing, Whole;
      hide NotADir, Missing, Quiet;
      var sorted := ByDepth(manifest.dirs);
      for i := 0 to |sorted|
        invariant MadeUpTo(sorted, i) && kernel.Smooth(DirAt(job, i))
        invariant forall j :: 0 <= j < i ==> !NotADir(job, sorted[j])
      {
        ok := MakeNext(sorted, i);
        if !ok {
          assert StoppedAtDir(i);
          return;
        }
      }
      ok := true;
      ParentsFirst(manifest.dirs);
      DirsAreSorted(job, sorted);
    }

    /** The `i`th directory is as far as the restore got, and that alone tells if an update was left. */
    ghost predicate StoppedAtDir(i: nat)
      reads this, kernel
    {
      && StopsAtDir(job, kernel.faults, i)
      && (NextLoc(tag) in warned <==> IsMissing(job, Dirs(job)[i]) && Loses(kernel.faults, DirAt(job, i)))
      && (IsMissing(job, Dirs(job)[i]) ==> !Quiet(kernel.faults, 0, kernel.calls))
    }

    method MakeNext(sorted: seq<RelPath>, i: nat) returns (ok: bool)
      requires sorted == ByDepth(manifest.dirs) && i < |sorted| && MadeUpTo(sorted, i)
      requires kernel.Smooth(DirAt(job, i)) && forall j :: 0 <= j < i ==> !NotADir(job, sorted[j])
      modifies this`disk, this`history, kernel, this`recorded, this`marker, this`warned, this`unsynced, this`created
      ensures ok ==> MadeUpTo(sorted, i + 1) && kernel.Smooth(DirAt(job, i + 1)) && !NotADir(job, sorted[i])
      ensures !ok ==> UndoReady() && Whole() && StoppedAtDir(i)
    {
      hide Chronicle, Good, FinishReady, Fits, Marked, Body, DirsFit, CleanFile, ByDepth, UndoReady, Undoing, Whole;
      hide DirAt;
      NextDir(job, i);
      ParentIsThere(job, disk, sorted, i);
      SortedApart(manifest.dirs, sorted, i);
      ok := MakeDir(sorted[i]);
      assert sorted[..i + 1] == sorted[..i] + [sorted[i]];
    }

    /** The first `k` files are staged in full; every original is in place. */
    ghost predicate StagingAt(k: nat)
      reads this
    {
      && Early() && k == |staged| <= |manifest.files| && staged == Fresh(manifest.files[..k])
      && PartStaged(job, disk, created, k) && Unstaged(job, disk, k)
    }

    /** File `k` has an empty or partly written temp file, already listed so that an error removes it. */
    ghost predicate TempOpen(k: nat)
      reads this
    {
      && Early() && k < |manifest.files| && staged == Fresh(manifest.files[..k + 1])
      && PartStaged(job, disk, created, k) && Unstaged(job, disk, k + 1)
      && IsNew(job, At(disk, TempOf(manifest.files[k].path, tag)))
      && SoleName(disk, TempOf(manifest.files[k].path, tag), At(disk, TempOf(manifest.files[k].path, tag)).value.ino)
    }

    lemma StagingUndoReady(k: nat)
      requires StagingAt(k) || TempOpen(k)
      ensures UndoReady() && Marked(job, disk) && job.manifest == manifest
      ensures TempOpen(k) ==> Fillable(job, disk, TempOf(manifest.files[k].path, tag))
    {
      hide Chronicle, Good, FinishReady, Fits, Body, PartStaged, Unstaged;
      assert PartStaged(job, disk, created, k);
      StagedOrClean(job, disk, created, k, if StagingAt(k) then k else k + 1);
      if TempOpen(k) {
        StagedIsOriginal(job, disk, created, k, k);
      }
    }

    lemma StagingWhole(k: nat)
      requires StagingAt(k) || TempOpen(k)
      ensures Whole()
    {
      hide Chronicle, Good, FinishReady, Fits, Body, PartStaged, Unstaged, DirsFit;
      assert PartStaged(job, disk, created, k);
      StagedOrClean(job, disk, created, k, if StagingAt(k) then k else k + 1);
      Housed(job, disk, created, staged);
    }

    /** Copy the slot's files beside the live ones, each checked against the manifest. */
    method Stage(slot: map<RelPath, Bytes>) returns (ok: bool)
      requires StagingAt(0) && kernel.Smooth(FileAt(job, 0))
      modifies this`disk, this`history, kernel, this`staged
      ensures ok ==> StagingAt(|manifest.files|) && forall f :: f in manifest.files ==> InSlot(slot, f)
      ensures UndoReady() && Whole() && (ok ==> kernel.Smooth(LinkAt(job, 0)))
      ensures !ok ==> (exists f :: f in manifest.files && !InSlot(slot, f)) || !Quiet(kernel.faults, 0, LinkAt(job, 0))
      ensures !ok ==> (exists f :: f in manifest.files && !InSlot(slot, f)) || !Quiet(kernel.faults, 0, kernel.calls)
    {
      hide Chronicle, Good, FinishReady, Fits, Marked, Body, DirsFit, PartStaged, Unstaged, InSlot, StagingAt;
      hide UndoReady, Whole, FileAt, LinkAt;
      StagingUndoReady(0);
      StagingWhole(0);
      for i := 0 to |manifest.files|
        invariant StagingAt(i) && kernel.Smooth(FileAt(job, i))
        invariant forall f :: f in manifest.files[..i] ==> InSlot(slot, f)
      {
        assert manifest.files[..i + 1] == manifest.files[..i] + [manifest.files[i]];
        NextFile(job, i);
        ok := StageFile(i, slot);
        if !ok {
          assert manifest.files[i] in manifest.files;
          return;
        }
      }
      StagingUndoReady(|manifest.files|);
      StagingWhole(|manifest.files|);
      assert manifest.files[..|manifest.files|] == manifest.files;
      NextFile(job, |manifest.files|);
      ok := Sync();
    }

    method StageFile(k: nat, slot: map<RelPath, Bytes>) returns (ok: bool)
      requires StagingAt(k) && k < |manifest.files|
      modifies this`disk, this`history, kernel, this`staged
      ensures ok ==> StagingAt(k + 1) && InSlot(slot, manifest.files[k])
      ensures !ok ==> UndoReady() && Whole()
      ensures InSlot(slot, manifest.files[k]) ==> kernel.Ran(old(kernel.calls), FILE_CALLS, ok)
    {
      hide Chronicle, Good, FinishReady, Fits, Marked, Body, DirsFit;
      StagingUndoReady(k);
      StagingWhole(k);
      var f := manifest.files[k];
      ok := InSlot(slot, f);
      if !ok {
        return;
      }
      ok := CreateTemp(k);
      if !ok {
        return;
      }
      ok := FillTemp(k, slot[f.path]);
    }

    method CreateTemp(k: nat) returns (ok: bool)
      requires StagingAt(k) && k < |manifest.files|
      modifies this`disk, this`history, kernel, this`staged
      ensures ok ==> TempOpen(k)
      ensures !ok ==> UndoReady() && Whole()
      ensures kernel.Ran(old(kernel.calls), 1, ok)
    {
      hide Chronicle, Good, FinishReady, Fits, Marked, Body, DirsFit, PartStaged, Unstaged, StagedFits, IsStaged, Do;
      hide ValidJob;
      StagingUndoReady(k);
      StagingWhole(k);
      ok := MakeTemp(k);
      if ok {
        assert manifest.files[..k + 1] == manifest.files[..k] + [manifest.files[k]];
        staged := staged + [StagedFile(manifest.files[k].path, false, false)];
      }
    }

    method MakeTemp(k: nat) returns (ok: bool)
      requires Early() && k < |manifest.files| && PartStaged(job, disk, created, k) && Unstaged(job, disk, k)
      modifies this`disk, this`history, kernel
      ensures Early() && (!ok ==> disk == old(disk))
      ensures ok ==> PartStaged(job, disk, created, k) && Unstaged(job, disk, k + 1)
      ensures ok ==> IsNew(job, At(disk, TempOf(manifest.files[k].path, tag)))
      ensures ok ==> SoleName(disk, TempOf(manifest.files[k].path, tag),
        At(disk, TempOf(manifest.files[k].path, tag)).value.ino)
      ensures kernel.Ran(old(kernel.calls), 1, ok)
    {
      hide Chronicle, Good, FinishReady, Fits, Marked, Body, DirsFit, PartStaged, Unstaged, ValidJob;
      ghost var a := disk;
      GoodBody(job, history, recorded, unsynced);
      var p := manifest.files[k].path;
      TempFits(job, a, created, k);
      ok := Try(Create(TempOf(p, tag)));
      if ok {
        FreshIsNew(job, a);
        EntryCall(job, a, Create(TempOf(p, tag)));
        StagedIsOriginal(job, a, created, k, k);
        TempStep(job, a, disk, p);
        Append(job, old(history), recorded, unsynced, disk, recorded);
        TempChanged(job, a, disk, created, k);
      } else {
        Idle(job, old(history), recorded, unsynced);
      }
    }

    method FillTemp(k: nat, bytes: Bytes) returns (ok: bool)
      requires TempOpen(k) && Sha256(bytes) == manifest.files[k].digest
      modifies this`disk, this`history, kernel
      ensures ok ==> StagingAt(k + 1)
      ensures !ok ==> UndoReady() && Whole()
      ensures kernel.Ran(old(kernel.calls), 5, ok)
    {
      hide Chronicle, Good, FinishReady, Fits, Marked, Body, DirsFit, PartStaged, Unstaged, Cleanable, Do, SoleName;
      hide UndoReady;
      StagingUndoReady(k);
      ok := PourTemp(k, bytes);
      StagingUndoReady(k);
      StagingWhole(k);
      if ok {
        ghost var b := disk;
        ok := DressTemp(k);
        StagingUndoReady(k);
        StagingWhole(k);
        if ok {
          MetaSet(b, disk, TempOf(manifest.files[k].path, tag), manifest.files[k], owners);
          StagedOneMore(job, disk, created, k);
          StagingUndoReady(k);
          ok := Sync();
        }
      }
    }

    method DressTemp(k: nat) returns (ok: bool)
      requires TempOpen(k)
      modifies this`disk, this`history, kernel
      ensures TempOpen(k) && kernel.Ran(old(kernel.calls), 1, ok)
      ensures ok ==> Do(old(disk), MetaOf(TempOf(manifest.files[k].path, tag), manifest.files[k], owners)) == Some(disk)
    {
      hide Chronicle, Good, FinishReady, Fits, Marked, Body, DirsFit, PartStaged, Unstaged, Fillable, Do, At, Home;
      hide TempOf, Cleanable, UndoReady;
      ghost var a := disk;
      StagingUndoReady(k);
      ok := WriteInode(MetaOf(TempOf(manifest.files[k].path, tag), manifest.files[k], owners));
      GoodBody(job, history, recorded, unsynced);
      TempChanged(job, a, disk, created, k);
    }

    method PourTemp(k: nat, bytes: Bytes) returns (ok: bool)
      requires TempOpen(k)
      modifies this`disk, this`history, kernel
      ensures TempOpen(k) && kernel.Ran(old(kernel.calls), 3, ok)
      ensures ok ==> InodeAt(disk, TempOf(manifest.files[k].path, tag)).Some?
      ensures ok ==> InodeAt(disk, TempOf(manifest.files[k].path, tag)).value.blob == Raw(bytes)
    {
      hide Chronicle, Good, FinishReady, Fits, Marked, Body, DirsFit, PartStaged, Unstaged, Fillable, ValidJob;
      hide Cleanable, UndoReady;
      ghost var a := disk;
      StagingUndoReady(k);
      ok := Fill(TempOf(manifest.files[k].path, tag), Raw(bytes));
      GoodBody(job, history, recorded, unsynced);
      TempChanged(job, a, disk, created, k);
    }

    /** Link each original aside, so that it outlives the rename over it. */
    method SetAside() returns (ok: bool)
      requires Early() && AsideAt(job, disk, created, staged, 0) && kernel.Smooth(LinkAt(job, 0))
      modifies this`disk, this`history, kernel, this`staged
      ensures ok ==> AsideAt(job, disk, created, staged, |staged|) && kernel.Smooth(TurnAt(job))
      ensures Early() && UndoReady() && Whole()
      ensures !ok ==> (exists p :: p in job.items && NotAFile(job, p)) || !Quiet(kernel.faults, 0, TurnAt(job))
      ensures !ok ==> (exists p :: p in job.items && NotAFile(job, p)) || !Quiet(kernel.faults, 0, kernel.calls)
    {
      hide AsideAt, UndoReady, Whole, LinkAt, Undoing, Chronicle, ValidJob;
      AsideUndoReady(0);
      for i := 0 to |staged|
        invariant |staged| == |manifest.files| && Early() && AsideAt(job, disk, created, staged, i)
        invariant kernel.Smooth(LinkAt(job, i))
      {
        NextLink(job, i);
        ok := SetAsideFile(i);
        if !ok {
          AsideUndoReady(i);
          return;
        }
      }
      AsideUndoReady(|staged|);
      ok := Sync();
    }

    lemma AsideUndoReady(k: nat)
      requires Early() && AsideAt(job, disk, created, staged, k)
      ensures UndoReady() && Whole() && |staged| == |manifest.files|
    {
      hide Chronicle, Good, FinishReady, Body, AsideAt, DirsFit, StagedFits, CleanFile, Fits, IsStaged;
      AsideIsCleanable(job, disk, created, staged, k);
      Housed(job, disk, created, staged);
    }

    method SetAsideFile(k: nat) returns (ok: bool)
      requires Early() && k < |staged| == |manifest.files| && AsideAt(job, disk, created, staged, k)
      requires kernel.Smooth(LinkAt(job, k))
      modifies this`disk, this`history, kernel, this`staged
      ensures Early() && |staged| == |old(staged)|
      ensures AsideAt(job, disk, created, staged, if ok then k + 1 else k)
      ensures ok ==> kernel.Smooth(LinkAt(job, k + 1))
      ensures !ok ==> (exists p :: p in job.items && NotAFile(job, p)) || !Quiet(kernel.faults, 0, LinkAt(job, k + 1))
      ensures !ok ==> (exists p :: p in job.items && NotAFile(job, p)) || !Quiet(kernel.faults, 0, kernel.calls)
    {
      hide Chronicle, Good, FinishReady, Fits, Marked, Body, DirsFit, AsideAt, ValidJob, KeepsOriginals, Original, WF;
      hide Disciplined, LinkAt;
      ghost var a := disk;
      NextLink(job, k);
      GoodBody(job, history, recorded, unsynced);
      AsideCase(job, a, created, staged, k);
      var p := staged[k].path;
      var e := At(disk, Home(p));
      if e.None? {
        SetAsideDone(job, a, a, created, staged, k);
        assert staged[k := staged[k].(aside := false)] == staged;
        return true;
      }
      if !e.value.File? {
        assert NotAFile(job, p);
        return false;
      }
      ok := Try(Link(p.parent, Live(p.name), Prev(p.name, tag)));
      if ok {
        EntryCall(job, a, Link(p.parent, Live(p.name), Prev(p.name, tag)));
        PrevStep(job, a, disk, p);
        Append(job, old(history), recorded, unsynced, disk, recorded);
        SetAsideDone(job, a, disk, created, staged, k);
        staged := staged[k := staged[k].(aside := true)];
      } else {
        Idle(job, old(history), recorded, unsynced);
      }
    }

    /** The swap: file by file, each staged file over the live one. */
    ghost predicate SwapAt(k: nat)
      reads this
    {
      && Tidy() && marker && phase == Swapping && recorded == Swapping && !stranded && !unsynced && failures == []
      && warned == [] && SwappedUpTo(job, disk, created, staged, k)
    }

    /**
      Either every file is replaced, or what `Undo` can clean up is left, or,
      stranded, a disk that `Recovery` can still finish.
    */
    method Swap() returns (ok: bool)
      requires SwapAt(0) && kernel.Smooth(RenameAt(job, 0))
      modifies this`disk, this`history, kernel, this`staged, this`phase, this`recorded, this`marker, this`warned
      modifies this`unsynced, this`stranded, this`failures
      ensures ok ==> SwapAt(|staged|) && kernel.Smooth(CloseAt(job))
      ensures !unsynced && (!ok ==> exists i :: StoppedInSwap(i))
      ensures !ok ==> Sturdy() && (!stranded ==> UndoReady())
      ensures !ok && stranded ==> Tidy() && marker && FinishReady(job, disk) && phase == recorded && recorded != Staging
      ensures !ok && stranded ==> forall s :: s in staged ==> StagedFits(job, disk, true, s)
    {
      hide UndoReady, StagedFits, Running, RenameAt, FinishReady, Loses, SwappedUpTo, Tidy, Sturdy, Whole, Original;
      SwapListed(0);
      for i := 0 to |staged|
        invariant SwapAt(i) && kernel.Smooth(RenameAt(job, i)) && |staged| == |job.manifest.files|
      {
        NextRename(job, i);
        ok := SwapFile(i);
        if !ok {
          RollBack(i);
          BackIfCalm(i);
          assert StoppedInSwap(i);
          return;
        }
      }
      ok := true;
    }

    /** The `i`th rename failed, and the update to `RollingBack` is left if it was lost. */
    ghost predicate StoppedInSwap(i: nat)
      reads this, kernel
    {
      && i < |job.manifest.files| && Quiet(kernel.faults, 0, RenameAt(job, i)) && kernel.faults(RenameAt(job, i))
      && (NextLoc(tag) in warned <==> Loses(kernel.faults, RenameAt(job, i) + 1))
      && (CalmFrom(kernel.faults, RenameAt(job, i) + 1) ==> Whole()) && RenameAt(job, i) < kernel.calls
    }

    method SwapFile(k: nat) returns (ok: bool)
      requires k < |staged| && SwapAt(k)
      modifies this`disk, this`history, kernel, this`staged
      ensures |staged| == |old(staged)| && SwapAt(if ok then k + 1 else k)
      ensures kernel.Ran(old(kernel.calls), 1, ok)
    {
      hide Chronicle, Good, FinishReady, Fits, Marked, Body, SwappedUpTo, Replaced;
      ghost var a := disk;
      SwapCase(job, a, created, staged, k);
      ok := RenameTemp(staged[k].path);
      if ok {
        SwapDone(job, a, disk, created, staged, k);
        staged := staged[k := staged[k].(displaced := true)];
      }
    }

    method RenameTemp(p: RelPath) returns (ok: bool)
      requires Tidy() && marker && recorded == Swapping && Marked(job, disk) && p in job.items && FinishReady(job, disk)
      requires MarkerOf(disk, tag).value.phase == Swapping && At(disk, PrevOf(p, tag)) == At(job.orig, Home(p))
      modifies this`disk, this`history, kernel
      ensures Tidy() && Marked(job, disk) && FinishReady(job, disk) && (!ok ==> disk == old(disk))
      ensures MarkerOf(disk, tag) == old(MarkerOf(disk, tag))
      ensures ok ==> Replaced(job, disk, p) && OnlyFile(job, old(disk), disk, p)
      ensures At(old(disk), TempOf(p, tag)).Some? ==> kernel.Ran(old(kernel.calls), 1, ok)
    {
      hide Chronicle, Good, FinishReady, Fits, Body, DirsFit, OnlyFile, Replaced, Do, At, InodeAt, ValidJob, Marked;
      hide Sound, Disciplined, SoleName;
      ghost var a := disk;
      StagedLands(job, a, p);
      ok := Try(Rename(p.parent, Temp(p.name, tag), Live(p.name)));
      if ok {
        SwapStep(job, a, disk, p);
        Append(job, old(history), recorded, unsynced, disk, recorded);
      } else {
        Idle(job, old(history), recorded, unsynced);
      }
    }

    /** If nothing fails after the rename, every file is back. */
    lemma BackIfCalm(k: nat)
      requires stranded <==> !Quiet(kernel.faults, RenameAt(job, k) + 1, RenameAt(job, k) + 1 + UPDATE_CALLS)
      requires !stranded ==> kernel.calls == RenameAt(job, k) + 1 + UPDATE_CALLS + k
      requires !stranded ==> forall i :: 0 <= i < |staged| ==>
        (staged[i].displaced <==> i < k && kernel.faults(kernel.calls - 1 - i))
      requires !stranded ==> (failures == [] <==> forall s :: s in staged ==> !s.displaced)
      requires Sturdy()
      ensures CalmFrom(kernel.faults, RenameAt(job, k) + 1) ==> Whole()
    {
      hide RenameAt, Sturdy;
      if CalmFrom(kernel.faults, RenameAt(job, k) + 1) {
        forall s | s in staged ensures !s.displaced {
          var i :| 0 <= i < |staged| && staged[i] == s;
        }
      }
    }

    lemma SwapListed(k: nat)
      requires SwapAt(k)
      ensures |staged| == |job.manifest.files|
    {
    }

    /**
      Once the record is made each file before `k` goes back, the last one
      first, unless its own call fails; that alone is what is reported.
    */
    method RollBack(k: nat)
      requires k < |staged| && SwapAt(k)
      modifies this`disk, this`history, kernel, this`staged, this`phase, this`recorded, this`marker, this`warned
      modifies this`unsynced, this`stranded, this`failures
      ensures !unsynced && (!stranded ==> UndoReady())
      ensures stranded ==> Tidy() && FinishReady(job, disk) && phase == recorded && recorded != Staging && marker
      ensures stranded ==> forall s :: s in staged ==> StagedFits(job, disk, true, s)
      ensures NextLoc(tag) in warned <==> Loses(kernel.faults, old(kernel.calls))
      ensures stranded <==> !Quiet(kernel.faults, old(kernel.calls), old(kernel.calls) + UPDATE_CALLS)
      ensures !stranded ==> kernel.calls == old(kernel.calls) + UPDATE_CALLS + k
      ensures !stranded ==> |staged| == |old(staged)| && forall i :: 0 <= i < |staged| ==>
        && (staged[i].displaced <==> i < k && kernel.faults(kernel.calls - 1 - i))
        && (!staged[i].displaced ==> Original(job, disk, staged[i].path))
      ensures !stranded ==> (failures == [] <==> forall s :: s in staged ==> !s.displaced)
      ensures Sturdy() && kernel.calls >= old(kernel.calls)
    {
      hide BackAt, Tidy, UndoReady, FinishReady, Loses, Original, SwapAt, StagedFits, Sturdy, Quiet;
      var ok := RecordRollback(k);
      if ok {
        PutAllBack(k);
        BackIsUndoReady();
      }
    }

    method PutAllBack(k: nat)
      requires k <= |staged| && BackAt(k) && failures == [] && InPlaceFrom(staged, k)
      modifies this`disk, this`history, kernel, this`staged, this`failures
      ensures |staged| == |old(staged)| && BackAt(0) && kernel.calls == old(kernel.calls) + k
      ensures forall i :: 0 <= i < |staged| ==>
        (staged[i].displaced <==> i < k && kernel.faults(kernel.calls - 1 - i))
      ensures failures == [] <==> forall s :: s in staged ==> !s.displaced
    {
      hide BackAt;
      var j: nat := k;
      ghost var last := kernel.calls + k - 1;
      while j > 0
        invariant j <= k <= |staged| == |old(staged)| && BackAt(j) && kernel.calls == last + 1 - j
        invariant forall i :: j <= i < k ==> (staged[i].displaced <==> kernel.faults(last - i))
        invariant InPlaceFrom(staged, k) && (failures == [] <==> InPlaceFrom(staged, j))
      {
        j := j - 1;
        ghost var before := staged;
        PutBack(j);
        OneMoreInPlace(before, staged, j);
      }
      AllInPlace(staged);
    }

    /** The marker turns to `RollingBack`, or the restore is stranded where it is. */
    method RecordRollback(k: nat) returns (ok: bool)
      requires k < |staged| && SwapAt(k)
      modifies this`disk, this`history, kernel, this`phase, this`recorded, this`marker, this`warned, this`unsynced
      modifies this`stranded
      ensures !unsynced && (ok ==> BackAt(k) && !stranded)
      ensures !ok ==> stranded && Tidy() && FinishReady(job, disk) && phase == recorded && recorded != Staging && marker
      ensures !ok ==> forall s :: s in staged ==> StagedFits(job, disk, true, s)
      ensures NextLoc(tag) in warned <==> Loses(kernel.faults, old(kernel.calls))
      ensures ok <==> Quiet(kernel.faults, old(kernel.calls), old(kernel.calls) + UPDATE_CALLS)
      ensures ok ==> kernel.calls == old(kernel.calls) + UPDATE_CALLS
      ensures Sturdy() && failures == [] && InPlaceFrom(staged, k) && kernel.calls >= old(kernel.calls)
    {
      hide Chronicle, Good, FinishReady, Fits, Marked, Body, DirsFit, Original, Replaced, BackUpTo, ValidJob;
      hide StagedFits, Loses, Quiet, LosesAt, SwappedUpTo, InodeAt;
      SwapFits(job, disk, created, staged, k);
      ghost var a := disk;
      phase := RollingBack;
      ok := WriteMarker();
      SwapKept(job, a, disk, created, staged, k);
      ReadyIsSturdy(k);
      if !ok {
        phase := recorded;
        stranded := true;
        StrandedFits(job, disk, staged, k);
        return;
      }
      GoodBody(job, history, recorded, unsynced);
      PhaseIsMarked(job, disk);
    }

    lemma ReadyIsSturdy(k: nat)
      requires ValidJob(job) && FinishReady(job, disk) && DirsFit(job, disk, created)
      requires BackUpTo(job, disk, staged, false, k)
      ensures Sturdy() && InPlaceFrom(staged, k)
    {
      hide DirsFit, Finishable;
      AllStaged(job, staged);
      Housed(job, disk, created, staged);
    }

    lemma BackIsUndoReady()
      requires BackAt(0)
      ensures UndoReady() && Sturdy()
      ensures forall i :: 0 <= i < |staged| && !staged[i].displaced ==> Original(job, disk, staged[i].path)
    {
      hide Chronicle, FinishReady, Marked, DirsFit, Original, Replaced;
      AllStaged(job, staged);
      MarkedHasMarker(job, disk);
    }

    ghost predicate BackAt(j: nat)
      reads this
    {
      && Tidy() && marker && recorded == RollingBack && !stranded && Marked(job, disk) && DirsFit(job, disk, created)
      && BackUpTo(job, disk, staged, failures != [], j) && Sturdy()
    }

    method PutBack(j: nat)
      requires j < |staged| && BackAt(j + 1)
      modifies this`disk, this`history, kernel, this`staged, this`failures
      ensures |staged| == |old(staged)| && BackAt(j) && kernel.calls == old(kernel.calls) + 1
      ensures staged == old(staged)[j := old(staged)[j].(displaced := kernel.faults(old(kernel.calls)))]
      ensures failures ==
        old(failures) + if kernel.faults(old(kernel.calls)) then [NotPutBack(old(staged)[j].path)] else []
    {
      hide Chronicle, Good, FinishReady, Fits, Marked, Body, DirsFit, Original, Replaced, BackUpTo, OnlyFile, ValidJob;
      ghost var a := disk;
      BackCase(job, a, staged, failures != [], j);
      var ok := PutBackFile(staged[j]);
      if ok {
        StillSturdy(a, staged[j].path);
        OnlyFileDirs(job, a, disk, staged[j].path, created);
        BackDone(job, a, disk, staged, failures != [], j);
        staged := staged[j := staged[j].(displaced := false)];
      } else {
        BackFailed(job, a, staged, failures != [], j);
        failures := failures + [NotPutBack(staged[j].path)];
      }
    }

    lemma StillSturdy(a: Disk, p: RelPath)
      requires ValidJob(job) && OnlyFile(job, a, disk, p) && DirsFit(job, a, created)
      requires (forall c :: c in created ==> IsDir(a, c.parent)) && forall s :: s in staged ==>
        IsDir(a, s.path.parent) && s.path in job.items
      ensures Sturdy()
    {
      hide Steady;
      forall c | c in created ensures IsDir(disk, c.parent) {
        assert c in job.dirs && c in job.manifest.dirs;
      }
      forall s | s in staged ensures IsDir(disk, s.path.parent) {
        assert job.items[s.path] in job.manifest.files;
      }
    }

    method PutBackFile(s: StagedFile) returns (ok: bool)
      requires Tidy() && marker && recorded == RollingBack && Marked(job, disk)
      requires s.path in job.items && Replaced(job, disk, s.path) && s.aside == At(job.orig, Home(s.path)).Some?
      modifies this`disk, this`history, kernel
      ensures Tidy() && Marked(job, disk) && (!ok ==> disk == old(disk))
      ensures ok ==> OnlyFile(job, old(disk), disk, s.path)
      ensures ok ==> Original(job, disk, s.path) && At(disk, PrevOf(s.path, tag)).None?
      ensures kernel.Ran(old(kernel.calls), 1, ok)
    {
      hide Chronicle, Good, FinishReady, Fits, Body, DirsFit, OnlyFile, ValidJob, WF, Disciplined, Replaced, Steady;
      hide IsNew, LiveMove;
      ghost var a := disk;
      var p := s.path;
      PutBackGoes(job, a, p);
      if s.aside {
        ok := Try(Rename(p.parent, Prev(p.name, tag), Live(p.name)));
        if ok {
          PutBackStep(job, a, disk, p);
        }
      } else {
        ok := Try(Unlink(Home(p)));
        if ok {
          RemoveNewStep(job, a, disk, p);
        }
      }
      if ok {
        MarkedHasMarker(job, disk);
        Append(job, old(history), recorded, unsynced, disk, recorded);
      } else {
        Idle(job, old(history), recorded, unsynced);
      }
    }

    /** Whatever fails here, the configuration is the restored one. */
    method Finish() returns (ok: bool)
      requires SwapAt(|staged|) && kernel.Smooth(CloseAt(job))
      modifies this`disk, this`history, kernel, this`marker, this`warned
      ensures Tidy() && Restored(job, disk)
      ensures ok ==> Unmarked(job, disk) && Restored(job, disk) && At(disk, MarkerLoc(tag)).None?
      ensures ok <==> GoesThrough(job, kernel.faults)
      ensures NextLoc(tag) !in warned && (ok ==> AllDisposed())
    {
      hide Chronicle, Good, FinishReady, Fits, Marked, Body, Restored, Unmarked, DisposedUpTo, AllDisposed, DisposeAt;
      hide SwapAt, Running, CloseAt;
      CloseFirst(job);
      ok := Close();
      if ok {
        DisposeAll();
        ok := Sync();
      }
    }

    /** The marker goes, durably. */
    method Close() returns (ok: bool)
      requires SwapAt(|staged|) && kernel.Smooth(CloseAt(job))
      modifies this`disk, this`history, kernel, this`marker
      ensures Tidy() && Restored(job, disk) && warned == []
      ensures ok ==> DisposedUpTo(0)
      ensures kernel.Ran(old(kernel.calls), CLOSE_CALLS, ok)
    {
      hide Chronicle, Good, FinishReady, Fits, Marked, Body, Replaced, Original, Restored, Unmarked, SwappedUpTo;
      hide ValidJob, CloseAt;
      CloseFirst(job);
      SwapIsRestored(job, disk, created, staged);
      ok := Sync();
      if !ok {
        return;
      }
      ok := DropMarker();
      if !ok {
        return;
      }
      ok := Sync();
    }

    method DropMarker() returns (ok: bool)
      requires Tidy() && marker && Marked(job, disk) && Restored(job, disk)
      modifies this`disk, this`history, kernel, this`marker
      ensures Tidy() && kernel.Ran(old(kernel.calls), 1, ok) && (!ok ==> disk == old(disk))
      ensures ok ==> Unmarked(job, disk) && Restored(job, disk) && At(disk, MarkerLoc(tag)).None?
      ensures ok ==> OnlyAt(old(disk), disk, MarkerLoc(tag))
    {
      hide Chronicle, Good, FinishReady, Fits, Marked, Body, Restored, Clean;
      ghost var a := disk;
      MarkedHasMarker(job, disk);
      MarkerGoes(job, disk);
      marker := false;
      ok := Try(Unlink(MarkerLoc(tag)));
      if ok {
        DropMarkerStep(job, a, disk, Unlink(MarkerLoc(tag)));
        UnmarkedHasNone(job, disk);
        Append(job, old(history), recorded, unsynced, disk, recorded);
      } else {
        Idle(job, old(history), recorded, unsynced);
      }
    }

    /** What is left of the originals set aside: the links whose discard failed, each of them logged. */
    ghost predicate AllDisposed()
      reads this
    {
      && (forall i :: 0 <= i < |job.manifest.files| ==> DisposedAs(i))
      && (forall l :: l in warned ==> l in disk.tree && l.name.Prev?)
    }

    ghost predicate DisposedAs(i: nat)
      requires i < |job.manifest.files|
      reads this
    {
      var p := job.manifest.files[i].path;
      && (At(disk, PrevOf(p, tag)).Some? <==> LeavesOriginal(job, kernel.faults, i))
      && (At(disk, PrevOf(p, tag)).Some? ==> PrevOf(p, tag) in warned)
    }

    /** Originals whose turn has not come are still set aside. */
    ghost predicate DisposedUpTo(i: nat)
      reads this, kernel
    {
      && Tidy() && Unmarked(job, disk) && Restored(job, disk) && At(disk, MarkerLoc(tag)).None?
      && |staged| == |job.manifest.files| && i <= |staged| && kernel.calls == DisposeAt(job, i)
      && (forall j :: 0 <= j < |staged| ==>
            && staged[j].path == job.manifest.files[j].path
            && staged[j].aside == !IsMissing(job, staged[j].path))
      && (forall j :: 0 <= j < i ==> DisposedAs(j))
      && (forall j :: i <= j < |staged| ==>
            At(disk, PrevOf(staged[j].path, tag)) == At(job.orig, Home(staged[j].path)))
      && (forall l :: l in warned ==> l in disk.tree && exists j :: 0 <= j < i && l == PrevOf(staged[j].path, tag))
    }

    method DisposeAll()
      requires DisposedUpTo(0)
      modifies this`disk, this`history, kernel, this`warned
      ensures Tidy() && Unmarked(job, disk) && Restored(job, disk) && At(disk, MarkerLoc(tag)).None?
      ensures kernel.calls == DisposeAt(job, |job.manifest.files|)
      ensures NextLoc(tag) !in warned && AllDisposed()
    {
      hide DisposedUpTo, DisposedAs;
      for i := 0 to |staged|
        invariant DisposedUpTo(i)
      {
        Dispose(i);
      }
      AllAreDisposed();
    }

    lemma AllAreDisposed()
      requires DisposedUpTo(|staged|)
      ensures Tidy() && Unmarked(job, disk) && Restored(job, disk) && At(disk, MarkerLoc(tag)).None?
      ensures kernel.calls == DisposeAt(job, |job.manifest.files|)
      ensures NextLoc(tag) !in warned && AllDisposed()
    {
      hide Tidy, Unmarked, Restored, DisposedAs;
    }

    method Dispose(i: nat)
      requires i < |staged| && DisposedUpTo(i)
      modifies this`disk, this`history, kernel, this`warned
      ensures DisposedUpTo(i + 1)
    {
      hide Tidy, Unmarked, Restored, DisposeAt, OnlyAt, ValidJob;
      var p := staged[i].path;
      NextDispose(job, i);
      DisposeFits();
      LinksApart(job, i);
      if staged[i].aside {
        ghost var a, logged := disk, warned;
        DropLink(p);
        forall j | 0 <= j < |staged| && j != i
          ensures At(disk, PrevOf(staged[j].path, tag)) == At(a, PrevOf(staged[j].path, tag))
        {
          LinkStays(a, disk, PrevOf(p, tag), PrevOf(staged[j].path, tag));
        }
        forall j | 0 <= j < i ensures DisposedAs(j) {
          assert old(DisposedAs(j)) && staged[j].path == job.manifest.files[j].path;
        }
        forall l | l in warned
          ensures l in disk.tree && exists j :: 0 <= j < i + 1 && l == PrevOf(staged[j].path, tag)
        {
          if l in logged {
            LinkStays(a, disk, PrevOf(p, tag), l);
          }
        }
      }
    }

    lemma DisposeFits()
      requires Tidy()
      ensures ValidJob(job) && job.tag == tag
    {
    }

    lemma LinkStays(a: Disk, b: Disk, at: Loc, l: Loc)
      requires OnlyAt(a, b, at) && l != at
      ensures At(b, l) == At(a, l) && (l in b.tree <==> l in a.tree)
    {
    }

    /** Only logged when it fails. */
    method DropLink(p: RelPath)
      requires Tidy() && Unmarked(job, disk) && Restored(job, disk) && At(disk, MarkerLoc(tag)).None? && p in job.items
      requires At(disk, PrevOf(p, tag)).Some?
      modifies this`disk, this`history, kernel, this`warned
      ensures Tidy() && Unmarked(job, disk) && Restored(job, disk) && At(disk, MarkerLoc(tag)).None?
      ensures OnlyAt(old(disk), disk, PrevOf(p, tag)) && kernel.calls == old(kernel.calls) + 1
      ensures At(disk, PrevOf(p, tag)).Some? <==> kernel.faults(old(kernel.calls))
      ensures warned == old(warned) + if kernel.faults(old(kernel.calls)) then [PrevOf(p, tag)] else []
    {
      hide Chronicle, Good, FinishReady, Unmarked, Restored, Sound, Disciplined, ValidJob;
      ghost var a := disk;
      PrevGoes(job, a, p);
      var gone := Try(Discard(PrevOf(p, tag)));
      if gone {
        DisposeStep(job, a, disk, p);
        Append(job, old(history), recorded, unsynced, disk, recorded);
      } else {
        Idle(job, old(history), recorded, unsynced);
        warned := warned + [PrevOf(p, tag)];
      }
    }

    /** Whatever is not cleaned up yet is on record. */
    lemma UndoingIsAccounted(failed: bool)
      requires Undoing(failed)
      ensures Accounted(job, disk)
    {
      hide Chronicle, Good, FinishReady, Fits, Marked, Body, ValidJob, Clean, CleanFile, Unmarked;
      GoodBody(job, history, recorded, unsynced);
      if At(disk, MarkerLoc(tag)).Some? {
        GoodIsMarked(job, disk);
      } else {
        CleanableIn(job, disk, created, staged, failed);
        AllClean(job, disk, created);
        GoodIsUnmarked(job, disk);
      }
    }

    /** An empty result means the disk is as it was before the restore. */
    method Undo() returns (left: seq<Problem>)
      requires stranded || UndoReady()
      requires stranded ==> Tidy()
      requires Sturdy()
      modifies this`disk, this`history, kernel, this`marker, this`failures
      ensures Tidy()
      ensures stranded ==> left == [] && disk == old(disk)
      ensures !stranded && left == [] ==> Unmarked(job, disk) && Clean(job, disk)
      ensures !stranded ==> Accounted(job, disk)
      ensures old(Whole()) && CalmFrom(kernel.faults, old(kernel.calls)) ==> left == []
      ensures !stranded && old(failures) == [] && staged == [] && created == [] && !old(marker) ==>
        left == if kernel.faults(old(kernel.calls)) then [NotDurable] else []
    {
      hide Sturdy, Running, CleanFile, Accounted, Unmarked, Clean, Cleanable;
      if stranded {
        return [];
      }
      NoneReported();
      left := UndoFiles();
      left := UndoDirs(left);
      UndoingIsAccounted(left != []);
      var durable := Sync();
      if !durable {
        left := left + [NotDurable];
      }
      if left == [] {
        left := UndoMarker();
      }
    }

    lemma NoneReported()
      ensures Whole() && CalmFrom(kernel.faults, kernel.calls) ==>
        Reports(staged, |staged|, tag, kernel.faults, kernel.calls) == []
    {
      if Whole() && CalmFrom(kernel.faults, kernel.calls) {
        NothingToReport(staged, |staged|, tag, kernel.faults, kernel.calls);
      }
    }

    method UndoFiles() returns (left: seq<Problem>)
      requires UndoReady() && Sturdy()
      modifies this`disk, this`history, kernel, this`failures
      ensures Undoing(left != []) && Sturdy() && kernel.calls == old(kernel.calls) + UndoCalls(staged, |staged|)
      ensures left == old(failures) + Reports(staged, |staged|, tag, kernel.faults, old(kernel.calls))
      ensures left == [] ==> forall p :: p in job.items ==> CleanFile(job, disk, p)
      ensures failures == []
    {
      hide Chronicle, Good, Cleanable, CleanFile, ValidJob, FinishReady, Marked, Reports, UndoCalls;
      left := failures;
      failures := [];
      left := UndoEach(left);
    }

    method UndoEach(found: seq<Problem>) returns (left: seq<Problem>)
      requires Undoing(found != []) && Sturdy()
      modifies this`disk, this`history, kernel
      ensures Undoing(left != []) && Sturdy() && kernel.calls == old(kernel.calls) + UndoCalls(staged, |staged|)
      ensures left == found + Reports(staged, |staged|, tag, kernel.faults, old(kernel.calls))
      ensures left == [] ==> forall p :: p in job.items ==> CleanFile(job, disk, p)
    {
      hide Undoing, CleanFile, Reports, UndoCalls, Report, CallsFor, Sturdy;
      left := found;
      NoReports(staged, tag, kernel.faults, kernel.calls);
      for i := 0 to |staged|
        invariant Undoing(left != []) && Sturdy() && kernel.calls == old(kernel.calls) + UndoCalls(staged, i)
        invariant left == found + Reports(staged, i, tag, kernel.faults, old(kernel.calls))
        invariant left == [] ==> forall s :: s in staged[..i] ==> CleanFile(job, disk, s.path)
      {
        StagedAreItems(left != []);
        OneMoreReport(staged, i, tag, kernel.faults, old(kernel.calls));
        assert forall s :: s in staged[..i] ==> s in staged;
        var more := UndoFile(staged[i], left);
        assert staged[..i + 1] == staged[..i] + [staged[i]];
        left := left + more;
      }
      assert staged[..|staged|] == staged;
      StagedAreItems(left != []);
    }

    lemma StagedAreItems(failed: bool)
      requires Undoing(failed)
      ensures forall s :: s in staged ==> s.path in job.items
      ensures (forall s :: s in staged ==> CleanFile(job, disk, s.path)) ==>
        forall p :: p in job.items ==> CleanFile(job, disk, p)
    {
      hide Running, Cleanable, CleanFile;
      CleanableIn(job, disk, created, staged, failed);
    }

    method UndoFile(s: StagedFile, ghost left: seq<Problem>) returns (more: seq<Problem>)
      requires Undoing(left != []) && Sturdy() && s in staged
      modifies this`disk, this`history, kernel
      ensures Undoing(left + more != []) && Sturdy() && kernel.calls == old(kernel.calls) + CallsFor(s)
      ensures more == Report(s, tag, kernel.faults, old(kernel.calls))
      ensures left + more == [] ==> CleanFile(job, disk, s.path)
      ensures forall p :: p in job.items && old(CleanFile(job, disk, p)) ==> CleanFile(job, disk, p)
    {
      hide Chronicle, Good, FinishReady, Fits, Marked, Body, CleanFile, Cleanable;
      more := [];
      var tmp := DropHidden(s, TempOf(s.path, tag), left);
      if !tmp {
        more := [NotRemoved(TempOf(s.path, tag))];
      }
      if s.aside {
        if s.displaced {
          more := more + [OriginalKept(s.path)];
        } else {
          var prev := DropHidden(s, PrevOf(s.path, tag), left);
          if !prev {
            more := more + [NotRemoved(PrevOf(s.path, tag))];
          }
        }
      }
      Reported(job, disk, created, staged, left != []);
      if left + more == [] {
        CleanWhenDropped(job, disk, created, staged, s);
      }
    }

    /** Discard a temp file, or the link to an original that is in place. */
    method DropHidden(s: StagedFile, l: Loc, ghost left: seq<Problem>) returns (ok: bool)
      requires Undoing(left != []) && Sturdy() && s in staged
      requires l == TempOf(s.path, tag) || (l == PrevOf(s.path, tag) && !s.displaced)
      modifies this`disk, this`history, kernel
      ensures Sturdy() && kernel.Ran(old(kernel.calls), 1, ok)
      ensures Undoing(left != []) && OnlyAt(old(disk), disk, l)
      ensures ok ==> At(disk, l).None?
      ensures forall p :: p in job.items && old(CleanFile(job, disk, p)) ==> CleanFile(job, disk, p)
    {
      hide Chronicle, Good, FinishReady, Fits, Marked, Body, CleanFile, Cleanable, ValidJob, Sound, Disciplined;
      ghost var a := disk;
      GoodBody(job, history, recorded, unsynced);
      HiddenGoes(job, a, created, left != [], staged, s);
      ok := Try(Discard(l));
      if ok {
        DropHiddenStep(job, a, disk, created, left != [], staged, s, l);
        Append(job, old(history), recorded, unsynced, disk, recorded);
      } else {
        Idle(job, old(history), recorded, unsynced);
      }
    }

    /** The directories made from the `i`th on are gone, and the way to the others is still there. */
    ghost predicate DirsGone(i: nat, left: seq<Problem>)
      requires i <= |created|
      reads this
    {
      && (left == [] ==> forall p :: p in job.items ==> CleanFile(job, disk, p))
      && (left == [] ==> forall c :: c in created[i..] ==> At(disk, Home(c)).None?)
      && (forall c :: c in created[..i] ==> IsDir(disk, c.parent))
    }

    /** Created directories go again, children first; one recorded but never made is no error. */
    method UndoDirs(found: seq<Problem>) returns (left: seq<Problem>)
      requires Undoing(found != []) && Sturdy()
      requires found == [] ==> forall p :: p in job.items ==> CleanFile(job, disk, p)
      modifies this`disk, this`history, kernel
      ensures Undoing(left != []) && (left == [] ==> found == []) && kernel.calls >= old(kernel.calls)
      ensures found == [] && CalmFrom(kernel.faults, old(kernel.calls)) ==> left == []
      ensures left == [] ==> forall c :: c in created ==> At(disk, Home(c)).None?
      ensures left == [] ==> forall p :: p in job.items ==> CleanFile(job, disk, p)
      ensures created == [] ==> left == found && kernel.calls == old(kernel.calls)
    {
      hide Undoing, CleanFile;
      left := found;
      var i: nat := |created|;
      while i > 0
        invariant i <= |created| && Undoing(left != []) && DirsGone(i, left) && (left == [] ==> found == [])
        invariant found == [] && CalmFrom(kernel.faults, old(kernel.calls)) ==> left == []
        invariant kernel.calls >= old(kernel.calls)
        invariant i == |created| ==> left == found && kernel.calls == old(kernel.calls)
      {
        i := i - 1;
        left := UndoDirAt(i, left);
      }
    }

    method UndoDirAt(i: nat, found: seq<Problem>) returns (left: seq<Problem>)
      requires i < |created| && Undoing(found != []) && DirsGone(i + 1, found)
      modifies this`disk, this`history, kernel
      ensures Undoing(left != []) && DirsGone(i, left) && (left == [] ==> found == [])
      ensures found == [] && Quiet(kernel.faults, old(kernel.calls), old(kernel.calls) + 2) ==> left == []
      ensures kernel.calls >= old(kernel.calls)
    {
      hide Chronicle, Good, Cleanable, CleanFile, Do, Marked, FinishReady, ValidJob, DirsFit, StagedFits, IsStaged;
      hide Running;
      left := found;
      assert created[i..] == [created[i]] + created[i + 1..];
      assert created[..i + 1] == created[..i] + [created[i]];
      CleanableDirs(job, disk, created, staged, left != []);
      assert created[i] in created[..i + 1];
      if found == [] {
        CreatedGoes(i);
      }
      WayStays(i);
      var ok := UndoDir(created[i], left);
      if !ok {
        Reported(job, disk, created, staged, left != []);
        left := left + [DirNotRemoved(created[i])];
      }
    }

    /** Taking a directory away does not take an earlier one's parent. */
    lemma WayStays(i: nat)
      requires i < |created| && DirsFit(job, disk, created)
      ensures forall c :: c in created[..i] ==> c.parent != created[i]
    {
      hide *;
      ParentsEarlier(job, disk, created);
      forall c | c in created[..i] ensures c.parent != created[i] {
        var j :| 0 <= j < i && created[j] == c;
      }
    }

    lemma CreatedGoes(i: nat)
      requires Undoing(false) && i < |created| && IsDir(disk, created[i].parent)
      requires (forall p :: p in job.items ==> CleanFile(job, disk, p)) &&
        forall c :: c in created[i + 1..] ==> At(disk, Home(c)).None?
      ensures Do(disk, Rmdir(created[i])).Some?
    {
      hide Chronicle, Good, Cleanable, CleanFile, Body, DirsFit, Do;
      GoodBody(job, history, recorded, unsynced);
      CleanableDirs(job, disk, created, staged, false);
      ChildrenGone(job, disk, created, i);
    }

    method UndoDir(c: RelPath, ghost left: seq<Problem>) returns (ok: bool)
      requires Undoing(left != []) && c in created
      modifies this`disk, this`history, kernel
      ensures Undoing(left != []) && OnlyAt(old(disk), disk, Home(c))
      ensures At(disk, Home(c)) == old(At(disk, Home(c))) || At(disk, Home(c)).None?
      ensures ok ==> At(disk, Home(c)).None?
      ensures kernel.calls > old(kernel.calls)
      ensures ok <==>
        old(Do(disk, Rmdir(c)).Some?) && Quiet(kernel.faults, old(kernel.calls), old(kernel.calls) + 2)
      ensures forall p :: p in job.items && old(CleanFile(job, disk, p)) ==> CleanFile(job, disk, p)
    {
      hide Chronicle, Good, FinishReady, Fits, Marked, Body, CleanFile, Cleanable;
      ghost var a := disk;
      GoodBody(job, history, recorded, unsynced);
      ok := Try(Rmdir(c));
      if ok {
        UndoDirStep(job, a, disk, created, left != [], staged, c);
        Append(job, old(history), recorded, unsynced, disk, recorded);
        ok := Sync();
      } else {
        Idle(job, old(history), recorded, unsynced);
      }
    }

    /** The last step of a clean-up that found nothing to report. */
    method UndoMarker() returns (left: seq<Problem>)
      requires Undoing(false) && (forall p :: p in job.items ==> CleanFile(job, disk, p)) &&
        (forall c :: c in created ==> At(disk, Home(c)).None?)
      modifies this`disk, this`history, kernel, this`marker
      ensures Tidy()
      ensures left == [] ==> Unmarked(job, disk) && Clean(job, disk)
      ensures Accounted(job, disk)
      ensures left == [] <==> !old(marker) || Quiet(kernel.faults, old(kernel.calls), old(kernel.calls) + 2)
    {
      hide Chronicle, Good, FinishReady, Fits, Marked, Body, ValidJob, Clean, Restored, CleanFile, Unmarked;
      ghost var a := disk;
      GoodBody(job, history, recorded, unsynced);
      AllClean(job, disk, created);
      left := [];
      if marker {
        GoodIsMarked(job, a);
        MarkerGoes(job, a);
        marker := false;
        var ok := Try(Discard(MarkerLoc(tag)));
        if ok {
          DropMarkerStep(job, a, disk, Discard(MarkerLoc(tag)));
          UnmarkedHasNone(job, disk);
          Append(job, old(history), recorded, unsynced, disk, recorded);
          ok := Sync();
        } else {
          Idle(job, old(history), recorded, unsynced);
        }
        if !ok {
          left := [NotRemoved(MarkerLoc(tag))];
        }
      } else {
        GoodIsUnmarked(job, disk);
      }
    }

    /** `materialize_with` once the slot is verified and nothing is in the way. */
    method Restore(slot: map<RelPath, Bytes>) returns (out: Outcome)
      requires Tidy() && UndoReady() && phase == Staging && recorded == Staging && !unsynced && failures == [] &&
        !stranded
      requires staged == [] && created == [] && Clean(job, disk) && Fits(job, disk, Record()) &&
        MarkerOf(disk, tag).None?
      requires warned == [] && !marker && kernel.Smooth(0)
      modifies this, kernel
      ensures Tidy() && !out.Refused? && (unsynced ==> out.Failed? && !out.stranded)
      ensures out.Unfinished? ==> Restored(job, disk)
      ensures out.Done? <==> !Obstructed(job, slot) && GoesThrough(job, kernel.faults)
      ensures out.Failed? <==> Obstructed(job, slot) || !Quiet(kernel.faults, 0, CloseAt(job))
      ensures NextLoc(tag) in warned <==> LeavesUpdate(job, slot, kernel.faults)
      ensures out.Done? ==> AllDisposed()
      ensures forall m: nat :: LosesAt(kernel.faults, 0, m) ==>
        out == Failed(if kernel.faults(m + 2) then [NotDurable] else [], false)
      ensures out.Failed? && CalmAfterFirst(kernel.faults) && !Obstructed(job, slot) ==> out == Failed([], false)
      ensures kernel.Reliable() ==> out == if Obstructed(job, slot) then Failed([], false) else Done(created)
      ensures out.Done? ==> Succeeded(job, disk, warned)
      ensures out.Failed? && out.left == [] && !out.stranded ==> Untouched(job, disk, warned)
      ensures out.Failed? && out.stranded ==> Marked(job, disk) && FinishReady(job, disk)
      ensures out.Failed? ==> Accounted(job, disk)
    {
      hide Chronicle, Good, FinishReady, Fits, Marked, Body, DirsFit, CleanFile, SwappedUpTo, Cleanable, Restored;
      hide Clean, Unmarked, Succeeded, Untouched, Loses, LosesAt, LeavesUpdate, Obstructed, Dirs, Missing, Originals;
      hide SwapAt, Running, Undoing, FileAt, LinkAt, RenameAt, DisposedAs, Accounted;
      LastCalls(job);
      var ok := Replace(slot);
      if !ok {
        out := CleanUp();
        return;
      }
      ok := Finish();
      if ok {
        Finished();
        return Done(created);
      }
      return Unfinished;
    }

    lemma Finished()
      requires Tidy() && Unmarked(job, disk) && Restored(job, disk) && AllDisposed()
      ensures Succeeded(job, disk, warned)
    {
      hide Chronicle, Good, FinishReady, Marked, Body, Restored, Unmarked, Clean, Succeeded, LeavesOriginal;
      forall p | p in job.items && At(disk, PrevOf(p, tag)).Some? ensures PrevOf(p, tag) in warned {
        var i :| 0 <= i < |job.manifest.files| && job.manifest.files[i] == job.items[p];
        assert DisposedAs(i);
      }
      RestoredIsSuccess(job, disk, warned);
    }

    /** Everything up to the last rename. */
    method Replace(slot: map<RelPath, Bytes>) returns (ok: bool)
      requires Tidy() && UndoReady() && phase == Staging && recorded == Staging && !unsynced && failures == [] &&
        !stranded
      requires staged == [] && created == [] && Clean(job, disk) && Fits(job, disk, Record()) &&
        MarkerOf(disk, tag).None?
      requires warned == [] && kernel.Smooth(0)
      modifies this`disk, this`history, kernel, this`staged, this`phase, this`recorded, this`marker, this`warned
      modifies this`unsynced, this`created, this`stranded, this`failures
      ensures ok ==> SwapAt(|staged|) && kernel.Smooth(CloseAt(job)) && !Obstructed(job, slot)
      ensures !ok ==> (if stranded then Tidy() && FinishReady(job, disk) && marker else UndoReady()) && Sturdy()
      ensures !ok ==> (Obstructed(job, slot) && Whole()) || StopsAfterFault()
      ensures !ok ==> Obstructed(job, slot) || !Quiet(kernel.faults, 0, CloseAt(job))
      ensures unsynced ==> !ok && !stranded
      ensures if ok then !LeavesUpdate(job, slot, kernel.faults)
        else NextLoc(tag) in warned <==> LeavesUpdate(job, slot, kernel.faults)
      ensures forall m: nat :: LosesAt(kernel.faults, 0, m) ==>
        && !ok && kernel.calls == m + 2 && marker == old(marker) && staged == [] && created == [] && failures == []
        && !stranded
    {
      hide Chronicle, Good, FinishReady, Fits, Marked, Body, DirsFit, CleanFile, SwappedUpTo, Cleanable, Restored;
      hide Clean, Unmarked, Loses, LosesAt, LeavesUpdate, Obstructed, Dirs, Missing, Originals, Running, ValidJob;
      hide Whole, Sturdy, StopsAfterFault, StoppedInSwap, SwapAt;
      ok := Prepare(slot);
      if !ok {
        PreparedStops(slot);
      } else {
        ok := Swap();
        if ok {
          SwappedLosesNone(job, slot, kernel.faults);
        } else {
          ghost var i :| StoppedInSwap(i);
          SwapStops(slot, i);
        }
      }
    }

    lemma SwapStops(slot: map<RelPath, Bytes>, i: nat)
      requires StoppedInSwap(i) && !Obstructed(job, slot)
      ensures StopsAfterFault() && !Quiet(kernel.faults, 0, CloseAt(job))
      ensures NextLoc(tag) in warned <==> LeavesUpdate(job, slot, kernel.faults)
      ensures forall m :: !LosesAt(kernel.faults, 0, m)
    {
      hide Obstructed, Whole, LeavesUpdate, Loses, LosesAt, RenameAt, CloseAt;
      RenamesComeLate(job, i);
      NotLost(kernel.faults, 0, RenameAt(job, i));
      BackDecides(job, slot, kernel.faults, i);
      assert kernel.faults(RenameAt(job, i));
    }

    lemma PreparedStops(slot: map<RelPath, Bytes>)
      requires Whole() && (Obstructed(job, slot) || !Quiet(kernel.faults, 0, kernel.calls))
      ensures Sturdy() && ((Obstructed(job, slot) && Whole()) || StopsAfterFault())
    {
      hide Obstructed, Sturdy;
      if !Quiet(kernel.faults, 0, kernel.calls) {
        var n := FirstFault(kernel.faults, kernel.calls);
      }
    }

    /** A call has failed; and if none does after that one, there is nothing to report. */
    ghost predicate StopsAfterFault()
      reads this, kernel
    {
      exists n: nat ::
        n < kernel.calls && Quiet(kernel.faults, 0, n) && kernel.faults(n) &&
        (CalmFrom(kernel.faults, n + 1) ==> Whole())
    }

    /** Every error ends here. */
    method CleanUp() returns (out: Outcome)
      requires (if stranded then Tidy() && FinishReady(job, disk) && marker else UndoReady()) && Sturdy()
      modifies this`disk, this`history, kernel, this`marker, this`failures
      ensures Tidy() && out.Failed? && out.stranded == stranded
      ensures out.left == [] && !stranded ==> Untouched(job, disk, warned)
      ensures stranded ==> Marked(job, disk) && FinishReady(job, disk)
      ensures Accounted(job, disk)
      ensures old(Whole()) && CalmFrom(kernel.faults, old(kernel.calls)) ==> out == Failed([], false)
      ensures !stranded && old(failures) == [] && staged == [] && created == [] && !old(marker) ==>
        out.left == if kernel.faults(old(kernel.calls)) then [NotDurable] else []
    {
      hide Chronicle, Good, FinishReady, Fits, Marked, Body, DirsFit, CleanFile, Cleanable, Restored;
      hide Clean, Unmarked, Untouched, ValidJob;
      var left := Undo();
      if !stranded && left == [] {
        CleanIsUntouched(job, disk, warned);
      }
      if stranded {
        GoodBody(job, history, recorded, unsynced);
        GoodIsMarked(job, disk);
      }
      out := Failed(left, stranded);
    }

    constructor (tag: string, manifest: Manifest, owners: bool, start: Disk, kernel: Kernel)
      requires WF(start) && ValidManifest(manifest) && forall l :: l in start.tree ==> l.name.Live?
      ensures job == JobOf(tag, manifest, owners, start) && history == [start] && disk == start && this.kernel == kernel
      ensures Tidy() && UndoReady() && phase == Staging && recorded == Staging && !unsynced && failures == [] &&
        warned == [] && !marker
      ensures staged == [] && created == [] && Clean(job, disk) && Fits(job, disk, Record()) &&
        MarkerOf(disk, this.tag).None?
    {
      this.tag, this.manifest, this.owners, this.kernel := tag, manifest, owners, kernel;
      job := JobOf(tag, manifest, owners, start);
      disk, history, unsynced := start, [start], false;
      phase, recorded, created, staged := Staging, Staging, [], [];
      marker, failures, stranded, warned := false, [], false, [];
      new;
      JobIsValid(tag, manifest, owners, start);
      StartIsClean(job);
    }

    /** Everything up to the swap; an error leaves it to `Undo`. */
    method Prepare(slot: map<RelPath, Bytes>) returns (ok: bool)
      requires Tidy() && UndoReady() && phase == Staging && recorded == Staging && !unsynced && failures == []
      requires staged == [] && created == [] && Clean(job, disk) && Fits(job, disk, Record()) &&
        MarkerOf(disk, tag).None?
      requires warned == [] && kernel.Smooth(0)
      modifies this`disk, this`history, kernel, this`staged, this`phase, this`recorded, this`marker, this`warned
      modifies this`unsynced, this`created
      ensures ok ==> SwapAt(0) && !Obstructed(job, slot) && kernel.Smooth(RenameAt(job, 0))
      ensures !ok ==> UndoReady() && Whole()
      ensures !ok ==> Obstructed(job, slot) || !Quiet(kernel.faults, 0, RenameAt(job, 0))
      ensures !ok ==> Obstructed(job, slot) || !Quiet(kernel.faults, 0, kernel.calls)
      ensures !ok ==> (NextLoc(tag) in warned <==> LeavesUpdate(job, slot, kernel.faults))
      ensures forall m: nat :: LosesAt(kernel.faults, 0, m) ==>
        !ok && kernel.calls == m + 2 && marker == old(marker) && staged == [] && created == []
    {
      hide Chronicle, Good, FinishReady, Fits, Marked, Body, DirsFit, CleanFile, SwappedUpTo, PartStaged, Unstaged;
      hide Loses, LosesAt, Missing, Originals, LeavesUpdate, Dirs, ValidJob;
      ok := Open();
      if !ok {
        FirstDecides(job, slot, kernel.faults);
        return;
      }
      ok := MakeDirs();
      if !ok {
        ghost var i :| StoppedAtDir(i);
        DirDecides(job, slot, kernel.faults, i);
        return;
      }
      MadeIsStaged();
      ok := PrepareFiles(slot);
    }

    /** Everything between making the directories and the first rename. */
    method PrepareFiles(slot: map<RelPath, Bytes>) returns (ok: bool)
      requires StagingAt(0) && kernel.Smooth(FileAt(job, 0))
      modifies this`disk, this`history, kernel, this`staged, this`phase, this`recorded, this`marker, this`warned
      modifies this`unsynced
      ensures ok ==> SwapAt(0) && !Obstructed(job, slot) && kernel.Smooth(RenameAt(job, 0))
      ensures !ok ==> UndoReady() && Whole()
      ensures !ok ==> Obstructed(job, slot) || !Quiet(kernel.faults, 0, RenameAt(job, 0))
      ensures !ok ==> Obstructed(job, slot) || !Quiet(kernel.faults, 0, kernel.calls)
      ensures !ok ==> (NextLoc(tag) in warned <==> LeavesUpdate(job, slot, kernel.faults))
    {
      hide Chronicle, Good, FinishReady, Fits, Marked, Body, DirsFit, CleanFile, SwappedUpTo, PartStaged, Unstaged;
      hide Loses, LosesAt, Missing, Originals, LeavesUpdate, Dirs, ValidJob, AsideAt;
      NextFile(job, 0);
      LinksInOrder(job);
      ok := Stage(slot);
      if ok {
        StagedIsAside(job, disk, created, staged);
        ok := SetAside();
      }
      if !ok {
        NoneLost(job, slot, kernel.faults);
        return;
      }
      NothingInTheWay(job, disk, created, staged);
      ok := StartSwap();
      if !ok {
        SwapDecides(job, slot, kernel.faults);
      }
    }

    /** The first marker goes down before anything else. */
    method Open() returns (ok: bool)
      requires Tidy() && UndoReady() && phase == Staging && recorded == Staging && !unsynced && failures == []
      requires staged == [] && created == [] && Clean(job, disk) && Fits(job, disk, Record()) &&
        MarkerOf(disk, tag).None?
      requires warned == [] && kernel.Smooth(0)
      modifies this`disk, this`history, kernel, this`recorded, this`marker, this`warned, this`unsynced
      ensures ok ==> Making() && kernel.Smooth(DirAt(job, 0))
      ensures !ok ==> UndoReady() && !Quiet(kernel.faults, 0, UPDATE_CALLS) && !Quiet(kernel.faults, 0, kernel.calls)
      ensures Whole() && (NextLoc(tag) in warned <==> Loses(kernel.faults, 0))
      ensures forall m: nat :: LosesAt(kernel.faults, 0, m) ==> kernel.calls == m + 2 && !ok && marker == old(marker)
    {
      hide Chronicle, Good, FinishReady, Fits, Marked, Body, DirsFit;
      ghost var a := disk;
      FitsDirs(job, a, Record());
      ok := WriteMarker();
      CleanElsewhere(job, a, disk);
      DirsElsewhere(job, a, disk, created);
    }

    lemma MadeIsStaged()
      requires Making() && forall c :: c in job.dirs ==> At(disk, Home(c)) == Some(Dir)
      ensures StagingAt(0)
    {
      hide Chronicle, Good, FinishReady, Fits, Body, DirsFit;
      MakingFits();
      AllCleanTemps(job, disk);
    }

    /** From here on the marker says that files are being replaced. */
    method StartSwap() returns (ok: bool)
      requires Early() && UndoReady() && AsideAt(job, disk, created, staged, |staged|) && kernel.Smooth(TurnAt(job))
      requires Whole()
      modifies this`disk, this`history, kernel, this`phase, this`recorded, this`marker, this`warned, this`unsynced
      ensures ok ==> SwapAt(0) && kernel.Smooth(RenameAt(job, 0))
      ensures !ok ==> UndoReady() && Whole() && !Quiet(kernel.faults, 0, RenameAt(job, 0))
      ensures !ok ==> !Quiet(kernel.faults, 0, kernel.calls)
      ensures NextLoc(tag) in warned <==> Loses(kernel.faults, TurnAt(job))
    {
      hide Chronicle, Good, FinishReady, Fits, Marked, Body, AsideAt, Cleanable, SwappedUpTo;
      hide Loses, LosesAt, TurnAt, RenameAt, ValidJob;
      TurnThenRename(job);
      AsideFits(job, disk, created, staged);
      MarkedHasMarker(job, disk);
      ghost var a := disk;
      phase := Swapping;
      ok := WriteMarker();
      CleanableKept(job, a, disk, created, staged);
      if ok {
        GoodBody(job, history, recorded, unsynced);
        SwapStarts(job, a, disk, created, staged);
      }
    }
  }

  method Materialize(
      start: Disk, slot: map<RelPath, Bytes>, slotted: Manifest, manifest: Manifest, owners: bool, tag: string,
      faults: nat -> bool)
    returns (out: Outcome, after: Disk, warned: seq<Loc>, ghost run: seq<Disk>, ghost unsynced: bool)
    requires WF(start) && ValidManifest(manifest)
    ensures |run| > 0 && run[0] == start && run[|run| - 1] == after
    ensures out.Refused? <==> (exists l :: l in start.tree && !l.name.Live?) || slotted != manifest
    ensures out.Refused? ==> after == start
    ensures !out.Refused? ==>
      ValidJob(JobOf(tag, manifest, owners, start)) &&
      Chronicle(JobOf(tag, manifest, owners, start), run, RollingBack, unsynced)
    ensures out.Unfinished? ==> Restored(JobOf(tag, manifest, owners, start), after)
    ensures unsynced ==> out.Failed? && !out.stranded
    ensures out.Done? ==> Succeeded(JobOf(tag, manifest, owners, start), after, warned)
    ensures out.Done? ==> forall i :: 0 <= i < |manifest.files| ==>
      (PrevOf(manifest.files[i].path, tag) in after.tree <==>
        LeavesOriginal(JobOf(tag, manifest, owners, start), faults, i))
    ensures !out.Refused? ==> var g := JobOf(tag, manifest, owners, start);
      && (out.Done? <==> !Obstructed(g, slot) && GoesThrough(g, faults))
      && (out.Failed? <==> Obstructed(g, slot) || !Quiet(faults, 0, CloseAt(g)))
      && (out.Failed? && CalmAfterFirst(faults) && !Obstructed(g, slot) ==> out == Failed([], false))
      && (NextLoc(tag) in after.tree <==> LeavesUpdate(g, slot, faults))
      && forall m: nat :: LosesAt(faults, 0, m) ==> out == Failed(if faults(m + 2) then [NotDurable] else [], false)
    ensures (forall n :: !faults(n)) && !out.Refused? ==>
      && !unsynced && warned == []
      && (if Obstructed(JobOf(tag, manifest, owners, start), slot) then out == Failed([], false) else out.Done?)
    ensures out.Failed? && out.left == [] && !out.stranded ==>
      Untouched(JobOf(tag, manifest, owners, start), after, warned)
    ensures out.Failed? && out.stranded ==>
      Marked(JobOf(tag, manifest, owners, start), after) && FinishReady(JobOf(tag, manifest, owners, start), after)
    ensures out.Failed? ==> Accounted(JobOf(tag, manifest, owners, start), after)
  {
    hide Chronicle, Good, Marked, FinishReady, Fits, Succeeded, Untouched, Clean, ValidManifest, WF, ValidJob;
    hide Obstructed, GoesThrough, LeavesUpdate, LeavesOriginal, LosesAt, CloseAt, Restored, Accounted, CalmAfterFirst;
    if (exists l :: l in start.tree && !l.name.Live?) || slotted != manifest {
      return Refused, start, [], [start], false;
    }
    var kernel := new Kernel(faults);
    var w := new Work(tag, manifest, owners, start, kernel);
    out := w.Restore(slot);
    after, warned, run, unsynced := w.disk, w.warned, w.history, w.unsynced;
    RunEnds(w.job, run, w.recorded, unsynced);
    forall i | out.Done? && 0 <= i < |manifest.files|
      ensures PrevOf(manifest.files[i].path, tag) in after.tree <==> LeavesOriginal(w.job, faults, i)
    {
      assert w.DisposedAs(i);
    }
  }
}
