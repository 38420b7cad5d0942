/** Finishes that are refused, and finishes that crash. */
module FinishCrashes {
  import opened Wrappers
  import opened Volume
  import opened RestoreState
  import opened RestoreSteps
  import opened Chronicles
  import opened RecoveryPlan
  import opened Runs
  import opened Rollback
  import opened RollbackTheorem
  import opened Afterwards
  import opened FinishRecovery
  import opened FinishTheorem
  import opened Crashes

  /** The installs among `ops` are exactly those of the staged files in `fs`. */
  ghost predicate InstallsStaged(g: Job, d: Disk, fs: seq<MarkedFile>, ops: seq<Op>) {
    && (forall op :: op in ops && op.Install? ==>
          op.path in g.items && op == Install(op.path, g.tag, g.items[op.path], g.owners) &&
            At(d, TempOf(op.path, g.tag)).Some?)
    && (forall f :: f in fs && f.path in g.items && At(d, TempOf(f.path, g.tag)).Some? ==>
          Install(f.path, g.tag, g.items[f.path], g.owners) in ops)
  }

  lemma {:induction false} FilesInstalls(g: Job, d: Disk, left: seq<Left>, fs: seq<MarkedFile>, m: SwapMarker)
    requires ValidJob(g) && Lists(d, left) && (forall f :: f in fs ==> f.path in g.items) && m.manifest == g.manifest &&
      m.owners == g.owners
    ensures FilesOps(d, left, g.tag, fs, Some(m)).Ok? &&
      InstallsStaged(g, d, fs, FilesOps(d, left, g.tag, fs, Some(m)).value)
    decreases |fs|
  {
    hide ValidJob, Lists, FileOps;
    if fs != [] {
      assert fs[0] in fs;
      assert forall f :: f in fs[1..] ==> f in fs;
      PlannedFinish(g, d, left, d, fs[0], m);
      FilesInstalls(g, d, left, fs[1..], m);
      assert forall f :: f in fs ==> f == fs[0] || f in fs[1..];
    }
  }

  lemma {:induction false} OrphansRemove(left: seq<Left>, tags: set<string>)
    ensures forall op :: op in Orphans(left, tags) ==> op.Remove?
  {
    if left != [] {
      OrphansRemove(left[1..], tags);
    }
  }

  /**
    What is checked before a finish changes anything: its plan is verified
    exactly when every file that is still staged hashes to the backup.
  */
  lemma FinishIsChecked(g: Job, d: Disk, left: seq<Left>)
    requires ValidJob(g) && MidSwap(g, d) && OwnFilesOnly(g, d) && Lists(d, left)
    ensures Plan(d, left, true, Some(g.manifest)).Ok?
    ensures (forall op :: op in Plan(d, left, true, Some(g.manifest)).value ==> Verified(d, op)) <==>
      (forall p :: p in g.items ==> StagedMatches(g, d, p))
  {
    hide *;
    MidSwapMarks(g, d);
    var m := MarkerOf(d, g.tag).value;
    var files, ops := FinishPlanIs(g, d, left);
    CheckedExactly(g, d, m.files, files, ops);
  }

  /** The plan of a finish, checked or not. */
  lemma FinishPlanIs(g: Job, d: Disk, left: seq<Left>) returns (files: seq<Op>, ops: seq<Op>)
    requires ValidJob(g) && MidSwap(g, d) && OwnFilesOnly(g, d) && Lists(d, left) && MarkerOf(d, g.tag).Some?
    ensures Plan(d, left, true, Some(g.manifest)) == Ok(ops) &&
      InstallsStaged(g, d, MarkerOf(d, g.tag).value.files, files)
    ensures forall op :: op in files ==> op in ops
    ensures forall op :: op in ops && op.Install? ==> op in files
  {
    hide ValidJob, MidSwap, Lists, FilesOps, Orphans, Plan, Strays, OwnFilesOnly, InstallsStaged, MarkerOf;
    MidSwapMarks(g, d);
    var m := MarkerOf(d, g.tag).value;
    PlanIsTheMarkers(g, d, left, m, true, Some(g.manifest));
    FilesInstalls(g, d, left, m.files, m);
    NoneStray(g, d, left, m.files);
    files := FilesOps(d, left, g.tag, m.files, Some(m)).value;
    assert files + [] == files && files + [] + [] == files;
    ops := files + [Remove(MarkerLoc(g.tag))] + Orphans(left, {g.tag});
    OrphansRemove(left, {g.tag});
  }

  lemma CheckedExactly(g: Job, d: Disk, fs: seq<MarkedFile>, files: seq<Op>, ops: seq<Op>)
    requires InstallsStaged(g, d, fs, files) && (forall op :: op in files ==> op in ops)
    requires (forall op :: op in ops && op.Install? ==> op in files) && forall p :: p in g.items ==> Listed(fs, p)
    ensures (forall op :: op in ops ==> Verified(d, op)) <==> (forall p :: p in g.items ==> StagedMatches(g, d, p))
  {
    if forall op :: op in ops ==> Verified(d, op) {
      forall p | p in g.items ensures StagedMatches(g, d, p) {
        var f :| f in fs && f.path == p;
        if At(d, TempOf(p, g.tag)).Some? {
          assert Verified(d, Install(p, g.tag, g.items[p], g.owners));
        }
      }
    }
    if forall p :: p in g.items ==> StagedMatches(g, d, p) {
      forall op | op in ops ensures Verified(d, op) {
        if op.Install? {
          assert op in files && StagedMatches(g, d, op.path);
        }
      }
    }
  }

  lemma MidSwapMarks(g: Job, d: Disk)
    requires ValidJob(g) && MidSwap(g, d)
    ensures MarkerLoc(g.tag) in d.tree && MarkerOf(d, g.tag).Some? && MarkerOf(d, g.tag).value.phase == Swapping
    ensures var m := MarkerOf(d, g.tag).value;
      && m.manifest == g.manifest && m.owners == g.owners && (forall f :: f in m.files ==> f.path in g.items)
      && (forall p :: p in g.items ==> Listed(m.files, p))
  {
    hide Body;
    var fs := MarkerOf(d, g.tag).value.files;
    forall i | 0 <= i < |fs| ensures fs[i].path in g.items {
      assert g.manifest.files[i] in g.manifest.files;
    }
    forall p | p in g.items ensures Listed(fs, p) {
      var i :| 0 <= i < |g.manifest.files| && g.manifest.files[i] == g.items[p];
      assert fs[i] in fs && fs[i].path == p;
    }
  }

  /** Only the manifest the marker recorded can be finished from. */
  lemma OnlyItsBackup(g: Job, d: Disk, left: seq<Left>, slot: Option<Manifest>)
    requires ValidJob(g) && MidSwap(g, d) && OwnFilesOnly(g, d) && Lists(d, left)
    ensures slot != Some(g.manifest) ==> Plan(d, left, true, slot) == Err(OnlyRollback)
  {
    hide ValidJob, MidSwap, Lists, Plan;
    MidSwapMarks(g, d);
    PlanIsTheMarkers(g, d, left, MarkerOf(d, g.tag).value, true, slot);
  }

  lemma CutFinish(g: Job, held: set<RelPath>, d: Disk, a: Attempt)
    requires ValidJob(g) && Completing(g, held, d) && CutShort(d, a, true)
    ensures Completing(g, held, a.after)
  {
    hide Underway, Over, Lists, Plan, AllCalls, ValidJob, MidSwap, OwnFilesOnly;
    var ops: seq<Op>;
    var end: Disk;
    if Underway(g, held, d) {
      OwnLeftovers(g, held, d);
      UnderwayBody(g, held, d);
      OnlyItsBackup(g, d, a.left, a.slot);
      ops, end := FinishCompletes(g, held, d, a.left, a.torn);
    } else {
      ops, end := OverAfterwards(g, held, d, a.left, true, a.slot, a.torn);
      OverIsCompleting(g, held, d, AllCalls(ops, a.torn));
    }
    KeepsPrefix(CompletingBy(g, held), d, AllCalls(ops, a.torn), a.made);
  }

  lemma {:induction false} CrashedFinishes(g: Job, held: set<RelPath>, d: Disk, tries: seq<Attempt>)
    requires ValidJob(g) && Completing(g, held, d) && InTurn(d, tries, true)
    ensures Completing(g, held, Last(d, tries))
    decreases |tries|
  {
    hide Completing, CutShort, ValidJob;
    if tries != [] {
      CutFinish(g, held, d, tries[0]);
      CrashedFinishes(g, held, tries[0].after, tries[1..]);
      assert Last(tries[0].after, tries[1..]) == Last(d, tries);
    }
  }

  /** Every manifest path holds exactly what the manifest says, nothing else differs, no leftover remains. */
  ghost predicate Completed(g: Job, end: Disk) {
    && (forall p :: p in g.items ==> Holds(end, Home(p), g.items[p], g.owners))
    && (forall c :: c in g.dirs ==> At(end, Home(c)) == Some(Dir))
    && ElsewhereAsBefore(g, end)
    && Tidied(end)
  }

  /**
    A restore that crashed while its marker said `Swapping`, then any number of
    finishes that crashed as well, then one that runs: its check passes, none
    of its calls is refused, and the restore is complete.
  */
  lemma FinishedInTheEnd(
    g: Job, run: seq<Disk>, r: Phase, crash: nat, tries: seq<Attempt>, left: seq<Left>, torn: Bytes)
    returns (ops: seq<Op>, end: Disk)
    requires ValidJob(g) && Chronicle(g, run, r, false) && crash < |run| && PhaseOf(run[crash], g.tag) == Some(Swapping)
    requires InTurn(run[crash], tries, true) && Lists(Last(run[crash], tries), left)
    ensures Plan(Last(run[crash], tries), left, true, Some(g.manifest)) == Ok(ops)
    ensures forall op :: op in ops ==> Verified(Last(run[crash], tries), op)
    ensures Run(Last(run[crash], tries), AllCalls(ops, torn)) == Some(end) && Completed(g, end)
  {
    SwapPhase(g, run[crash]);
    hide *;
    ops, end := FinishedFrom(g, run[crash], tries, left, torn);
  }

  /** The same from any disk in the swap window, whether or not a run passed through it. */
  lemma FinishedFrom(g: Job, d: Disk, tries: seq<Attempt>, left: seq<Left>, torn: Bytes)
    returns (ops: seq<Op>, end: Disk)
    requires ValidJob(g) && Marked(g, d) && PhaseOf(d, g.tag) == Some(Swapping) && FinishReady(g, d)
    requires InTurn(d, tries, true) && Lists(Last(d, tries), left)
    ensures Plan(Last(d, tries), left, true, Some(g.manifest)) == Ok(ops)
    ensures forall op :: op in ops ==> Verified(Last(d, tries), op)
    ensures Run(Last(d, tries), AllCalls(ops, torn)) == Some(end) && Completed(g, end)
  {
    hide *;
    SwapWindow(g, d);
    CompletingStarts(g, g.items.Keys, d);
    CrashedFinishes(g, g.items.Keys, d, tries);
    var e := Last(d, tries);
    if Underway(g, g.items.Keys, e) {
      ops, end := FinishCompletes(g, g.items.Keys, e, left, torn);
      AllMatch(g, g.items.Keys, e);
      OwnLeftovers(g, g.items.Keys, e);
      FinishIsChecked(g, e, left);
    } else {
      NotUnderway(g, g.items.Keys, e);
      ops, end := OverAfterwards(g, g.items.Keys, e, left, true, Some(g.manifest), torn);
      OverLeftovers(g, g.items.Keys, e);
      OverNeedsNoCheck(g, e, left, ops);
    }
    OverEnds(g, end);
  }

  lemma SwapPhase(g: Job, d: Disk)
    requires Good(g, d) && PhaseOf(d, g.tag) == Some(Swapping)
    ensures Marked(g, d)
  {
  }

  lemma CompletingStarts(g: Job, held: set<RelPath>, d: Disk)
    requires Underway(g, held, d)
    ensures Completing(g, held, d)
  {
  }

  lemma NotUnderway(g: Job, held: set<RelPath>, d: Disk)
    requires Completing(g, held, d) && !Underway(g, held, d)
    ensures Over(g, held, d) && At(d, MarkerLoc(g.tag)).None?
  {
  }

  lemma AllMatch(g: Job, held: set<RelPath>, d: Disk)
    requires Underway(g, held, d)
    ensures MidSwap(g, d) && forall p :: p in g.items ==> StagedMatches(g, d, p)
  {
    hide MidSwap;
    forall p | p in g.items ensures StagedMatches(g, d, p) {
      assert Installable(g, d, p);
    }
  }

  lemma OverNeedsNoCheck(g: Job, d: Disk, left: seq<Left>, ops: seq<Op>)
    requires OwnFilesOnly(g, d) && Lists(d, left) && At(d, MarkerLoc(g.tag)).None? &&
      Plan(d, left, true, Some(g.manifest)) == Ok(ops)
    ensures forall op :: op in ops ==> Verified(d, op)
  {
    OnlyOrphans(g, d, left, true, Some(g.manifest));
    OrphansRemove(left, {});
  }

  lemma OverEnds(g: Job, d: Disk)
    requires Over(g, g.items.Keys, d) && Tidied(d)
    ensures Completed(g, d)
  {
    forall l: Loc | l.name.Live? && Sub(l.dir, l.name.base) !in g.items && Sub(l.dir, l.name.base) !in g.dirs
      ensures At(d, l) == At(g.orig, l)
    {
      assert !Touched(g, l);
    }
  }
}
