/**
  Rollbacks that never come to their end: which disks are stuck for good, and
  how a restore and its rollbacks get there.
*/
module StuckRollbacks {
  import opened Wrappers
  import opened Volume
  import opened RestoreState
  import opened RestoreSteps
  import opened Chronicles
  import opened RecoveryPlan
  import opened Runs
  import opened Rollback
  import opened RollbackDirs
  import opened RollbackTheorem
  import opened Crashes
  import opened Recover
  import opened RestoreFrames
  import opened Restore
  import opened Settling

  /** The marker is there, and the directories it records cannot be cleared. */
  ghost predicate Stuck(g: Job, d: Disk) {
    Marked(g, d) && !Clearable(g, d, MarkerOf(d, g.tag).value.created)
  }

  /** The calls a rollback makes before it drops its marker. */
  predicate EarlyCall(tag: string, created: seq<RelPath>, c: Call) {
    match c
    case Discard(l) => (l.name.Temp? || l.name.Prev?) && l.name.tag == tag
    case Rename(_, from, to) => from.Prev? && from.tag == tag && to.Live?
    case Rmdir(p) => p in created
    case _ => false
  }

  predicate EarlyCalls(tag: string, created: seq<RelPath>, calls: seq<Call>) {
    forall c :: c in calls ==> EarlyCall(tag, created, c)
  }

  /** None of them makes room in a directory that is in the way, nor brings a lost one back. */
  lemma StillBlocked(g: Job, d: Disk, created: seq<RelPath>, c: Call, e: Disk)
    requires EarlyCall(g.tag, created, c) && Do(d, c) == Some(e) && !Clearable(g, d, created)
    ensures !Clearable(g, e, created) && MarkerOf(e, g.tag) == MarkerOf(d, g.tag)
    ensures At(e, MarkerLoc(g.tag)) == At(d, MarkerLoc(g.tag))
  {
    if x :| x in created && !IsDir(d, x.parent) {
      assert !IsDir(e, x.parent);
    } else {
      var l :| l in d.tree && l.dir.Sub? && l.dir in created &&
        !((l.name.Live? && Sub(l.dir, l.name.base) in created) || HidesFile(g, l));
      assert l in e.tree;
    }
  }

  lemma {:induction false} RunStillBlocked(g: Job, d: Disk, created: seq<RelPath>, calls: seq<Call>, e: Disk)
    requires EarlyCalls(g.tag, created, calls) && Run(d, calls) == Some(e) && !Clearable(g, d, created)
    ensures !Clearable(g, e, created) && MarkerOf(e, g.tag) == MarkerOf(d, g.tag)
    ensures At(e, MarkerLoc(g.tag)) == At(d, MarkerLoc(g.tag))
    decreases |calls|
  {
    hide Clearable, EarlyCall, Do, MarkerOf;
    if calls != [] {
      assert calls[0] in calls;
      var m := Do(d, calls[0]).value;
      StillBlocked(g, d, created, calls[0], m);
      assert forall c :: c in calls[1..] ==> c in calls;
      RunStillBlocked(g, m, created, calls[1..], e);
    }
  }

  lemma {:induction false} FilesAreEarly(
    d: Disk, left: seq<Left>, tag: string, fs: seq<MarkedFile>, created: seq<RelPath>, torn: Bytes)
    requires FilesOps(d, left, tag, fs, None).Ok?
    ensures EarlyCalls(tag, created, AllCalls(FilesOps(d, left, tag, fs, None).value, torn))
  {
    if fs != [] {
      var first, rest := FileOps(d, left, tag, fs[0], None).value, FilesOps(d, left, tag, fs[1..], None).value;
      FileIsEarly(d, left, tag, fs[0], created, torn);
      FilesAreEarly(d, left, tag, fs[1..], created, torn);
      hide FileOps, EarlyCall, Calls, AllCalls;
      CallsConcat(first, rest, torn);
    }
  }

  lemma FileIsEarly(d: Disk, left: seq<Left>, tag: string, f: MarkedFile, created: seq<RelPath>, torn: Bytes)
    requires FileOps(d, left, tag, f, None).Ok?
    ensures EarlyCalls(tag, created, AllCalls(FileOps(d, left, tag, f, None).value, torn))
  {
    var ops := FileOps(d, left, tag, f, None).value;
    forall op | op in ops ensures EarlyCalls(tag, created, Calls(op, torn)) {
    }
    OpsAreEarly(ops, tag, created, torn);
  }

  lemma {:induction false} OpsAreEarly(ops: seq<Op>, tag: string, created: seq<RelPath>, torn: Bytes)
    requires forall op :: op in ops ==> EarlyCalls(tag, created, Calls(op, torn))
    ensures EarlyCalls(tag, created, AllCalls(ops, torn))
  {
    hide EarlyCall, Calls;
    if ops != [] {
      assert ops[0] in ops;
      assert forall op :: op in ops[1..] ==> op in ops;
      OpsAreEarly(ops[1..], tag, created, torn);
    }
  }

  lemma {:induction false} StraysAreEarly(
    left: seq<Left>, tag: string, fs: seq<MarkedFile>, created: seq<RelPath>, torn: Bytes)
    ensures EarlyCalls(tag, created, AllCalls(Strays(left, tag, fs), torn))
  {
    if left != [] {
      StraysAreEarly(left[1..], tag, fs, created, torn);
      if IsStray(left[0], tag, fs) {
        CallsConcat([Remove(left[0].at)], Strays(left[1..], tag, fs), torn);
        OneOp(Remove(left[0].at), torn);
      } else {
        assert [] + Strays(left[1..], tag, fs) == Strays(left[1..], tag, fs);
      }
    }
  }

  lemma {:induction false} DirsAreEarly(dirs: seq<RelPath>, tag: string, created: seq<RelPath>, torn: Bytes)
    requires forall c :: c in dirs ==> c in created
    ensures EarlyCalls(tag, created, AllCalls(RemoveDirs(dirs), torn))
  {
    if dirs != [] {
      assert forall c :: c in dirs[1..] ==> c in dirs;
      assert dirs[0] in dirs;
      DirsAreEarly(dirs[1..], tag, created, torn);
      CallsConcat(RemoveDirs(dirs[1..]), [RemoveDir(dirs[0])], torn);
      OneOp(RemoveDir(dirs[0]), torn);
    }
  }

  /** The calls of a rollback up to the marker's, and whether they go through. */
  lemma EarlyPart(g: Job, d: Disk, left: seq<Left>, slot: Option<Manifest>, torn: Bytes)
    returns (ops: seq<Op>, early: seq<Call>, files: seq<Op>, back: Disk)
    requires ValidJob(g) && Marked(g, d) && Lists(d, left)
    ensures Plan(d, left, false, slot) == Ok(ops) && early < AllCalls(ops, torn)
    ensures var created := MarkerOf(d, g.tag).value.created;
      && EarlyCalls(g.tag, created, early) && (Run(d, early).Some? <==> Clearable(g, d, created))
      && (Run(d, early).Some? ==>
            var r := Run(d, early).value;
            Marked(g, r) && MarkerOf(r, g.tag) == MarkerOf(d, g.tag) && WithoutDirs(back, r, created))
  {
    hide *;
    files, back := RollbackPlan(g, d, left, slot, torn);
    MarkedThere(g, d);
    var m := MarkerOf(d, g.tag).value;
    var dirs := RemoveDirs(m.created);
    ops := files + dirs + [Remove(MarkerLoc(g.tag))] + Orphans(left, {g.tag});
    early := AllCalls(files, torn) + AllCalls(dirs, torn);
    AllInOrder(g, files, m.created, left, torn);
    assert early < AllCalls(ops, torn);
    EarlyIsEarly(d, left, g.tag, m, files, torn);
    SettledSpan(g, d, back, files, torn);
    BackRemovable(g, d, back, files, torn);
    DirsGo(g, back, m.created, torn);
    ClearIff(g, d, back, files, torn);
    RunConcat(d, AllCalls(files, torn), AllCalls(dirs, torn));
  }

  lemma EarlyIsEarly(d: Disk, left: seq<Left>, tag: string, m: SwapMarker, files: seq<Op>, torn: Bytes)
    requires FilesOps(d, left, tag, m.files, None).Ok?
    requires files == FilesOps(d, left, tag, m.files, None).value + Strays(left, tag, m.files)
    ensures EarlyCalls(tag, m.created, AllCalls(files, torn) + AllCalls(RemoveDirs(m.created), torn))
  {
    hide FilesOps, Strays, RemoveDirs, EarlyCall, AllCalls, Calls;
    FilesAreEarly(d, left, tag, m.files, m.created, torn);
    StraysAreEarly(left, tag, m.files, m.created, torn);
    DirsAreEarly(m.created, tag, m.created, torn);
    CallsConcat(FilesOps(d, left, tag, m.files, None).value, Strays(left, tag, m.files), torn);
  }

  /** A rollback of a stuck disk, cut anywhere, leaves a stuck disk. */
  lemma CutStaysStuck(g: Job, d: Disk, a: Attempt)
    requires ValidJob(g) && Stuck(g, d) && CutShort(d, a, false)
    ensures Stuck(g, a.after) && MarkerOf(a.after, g.tag) == MarkerOf(d, g.tag)
  {
    hide Marked, Clearable, Plan, AllCalls, ValidJob, RolledBack, EarlyCall, MarkerOf;
    MarkedThere(g, d);
    var ops, early, files, back := EarlyPart(g, d, a.left, a.slot, a.torn);
    var all := AllCalls(ops, a.torn);
    if a.made >= |early| {
      assert all[..a.made] == early + all[|early|..a.made];
      RunConcat(d, early, all[|early|..a.made]);
      assert false;
    }
    assert all[..a.made] == early[..a.made];
    assert forall c :: c in early[..a.made] ==> c in early;
    RunStillBlocked(g, d, MarkerOf(d, g.tag).value.created, early[..a.made], a.after);
    MarkedIsRescuable(g, d);
    CutRollback(g, d, a);
    MarkerStays(g, d, a.after);
  }

  lemma MarkerStays(g: Job, d: Disk, e: Disk)
    requires MarkerLoc(g.tag) in d.tree && Rescuable(g, e) && At(e, MarkerLoc(g.tag)) == At(d, MarkerLoc(g.tag))
    ensures Marked(g, e)
  {
  }

  /** Once stuck, no number of rollbacks helps: none of them goes through, whether or not calls fail. */
  lemma {:induction false} StuckForGood(
    g: Job, d: Disk, tries: seq<Attempt>, left: seq<Left>, slot: Option<Manifest>, torn: Bytes)
    requires ValidJob(g) && Stuck(g, d) && InTurn(d, tries, false) && Lists(Last(d, tries), left)
    ensures Stuck(g, Last(d, tries)) && !Settles(Last(d, tries), left, false, slot, torn)
    decreases |tries|
  {
    hide Stuck, CutShort, ValidJob, Settles, Lists;
    if tries == [] {
      StuckNow(g, d, left, slot, torn);
    } else {
      CutStaysStuck(g, d, tries[0]);
      assert Last(tries[0].after, tries[1..]) == Last(d, tries);
      StuckForGood(g, tries[0].after, tries[1..], left, slot, torn);
    }
  }

  lemma StuckNow(g: Job, d: Disk, left: seq<Left>, slot: Option<Manifest>, torn: Bytes)
    requires ValidJob(g) && Stuck(g, d) && Lists(d, left)
    ensures !Settles(d, left, false, slot, torn)
  {
    hide Marked, Clearable, Settles, ValidJob, Lists;
    var files, back := RollbackSettles(g, d, left, slot, torn);
  }

  /**
    A rollback that crashes between removing nested directories and removing
    its marker: the step for the inner one will not find its parent again.
  */
  lemma NestedSticks(g: Job, d: Disk, left: seq<Left>, slot: Option<Manifest>, torn: Bytes, c: RelPath)
    returns (a: Attempt)
    requires ValidJob(g) && Marked(g, d) && Lists(d, left)
    requires var created := MarkerOf(d, g.tag).value.created;
      Clearable(g, d, created) && c in created && c.parent in created
    ensures CutShort(d, a, false) && !IsDir(a.after, c.parent) && Stuck(g, a.after)
  {
    hide Marked, Clearable, Plan, AllCalls, ValidJob, EarlyCall, Lists;
    MarkedThere(g, d);
    var ops, early, files, back := EarlyPart(g, d, left, slot, torn);
    a := Attempt(left, slot, torn, |early|, Run(d, early).value);
    assert AllCalls(ops, torn)[..|early|] == early;
    LostParent(g, a.after, c, MarkerOf(d, g.tag).value.created);
  }

  lemma LostParent(g: Job, d: Disk, c: RelPath, created: seq<RelPath>)
    requires c in created && c.parent.Sub? && At(d, Home(c.parent)).None?
    ensures !IsDir(d, c.parent) && !Clearable(g, d, created)
  {
  }

  /**
    A restore that adds a file to a directory it makes: a crash right after the
    file's rename leaves a disk no rollback ever settles.
  */
  lemma AddedFileSticks(g: Job, run: seq<Disk>, r: Phase, unsynced: bool, p: RelPath) returns (crash: nat)
    requires ValidJob(g) && Chronicle(g, run, r, unsynced) && p in g.items && p.parent.Sub?
    requires At(g.orig, Home(p.parent)).None? && At(run[|run| - 1], Home(p)).Some?
    ensures crash < |run| && Stuck(g, run[crash])
  {
    NothingInside(g, p);
    crash := Appears(g, run, p, |run| - 1);
    Moved(g, run, r, unsynced, p, crash);
  }

  /** So every restore that succeeds in adding one passes through such a disk. */
  method StuckOnTheWay(
      start: Disk, slot: map<RelPath, Bytes>, manifest: Manifest, owners: bool, tag: string, p: RelPath)
    returns (out: Outcome, ghost run: seq<Disk>, ghost crash: nat)
    requires WF(start) && ValidManifest(manifest) && forall l :: l in start.tree ==> l.name.Live?
    requires var g := JobOf(tag, manifest, owners, start);
      !Obstructed(g, slot) && p in g.items && p.parent.Sub? && Home(p.parent) !in start.tree
    ensures out.Done? && |run| > 0 && run[0] == start && crash < |run|
    ensures Stuck(JobOf(tag, manifest, owners, start), run[crash])
  {
    hide Chronicle, Obstructed, Untouched, Stuck, Accounted, WF, ValidManifest, Restored;
    var after, warned;
    ghost var unsynced;
    out, after, warned, run, unsynced := Materialize(start, slot, manifest, manifest, owners, tag, n => false);
    ghost var g := JobOf(tag, manifest, owners, start);
    assert g.items[p] in manifest.files;
    crash := AddedFileSticks(g, run, RollingBack, unsynced, p);
  }

  lemma NothingInside(g: Job, p: RelPath)
    requires ValidJob(g) && p.parent.Sub? && At(g.orig, Home(p.parent)).None?
    ensures At(g.orig, Home(p)).None?
  {
    assert Home(p) in g.orig.tree ==> IsDir(g.orig, p.parent);
  }

  lemma {:induction false} Appears(g: Job, run: seq<Disk>, p: RelPath, i: nat) returns (crash: nat)
    requires i < |run| && At(run[0], Home(p)).None? && At(run[i], Home(p)).Some?
    ensures 0 < crash < |run| && At(run[crash - 1], Home(p)).None? && At(run[crash], Home(p)).Some?
  {
    if At(run[i - 1], Home(p)).None? {
      crash := i;
    } else {
      crash := Appears(g, run, p, i - 1);
    }
  }

  lemma Moved(g: Job, run: seq<Disk>, r: Phase, unsynced: bool, p: RelPath, crash: nat)
    requires ValidJob(g) && Chronicle(g, run, r, unsynced) && p in g.items && p.parent.Sub?
    requires At(g.orig, Home(p.parent)).None? && At(g.orig, Home(p)).None?
    requires 0 < crash < |run| && At(run[crash - 1], Home(p)).None? && At(run[crash], Home(p)).Some?
    ensures Stuck(g, run[crash])
  {
    hide Good, FinishReady, ValidJob;
    assert StepAt(g, run, crash - 1) && LiveMove(g, run[crash - 1], run[crash], p);
    assert Good(g, run[crash]) && PhaseOf(run[crash], g.tag) == Some(Swapping);
    SwappingIsMarked(g, run[crash]);
    AddedInTheWay(g, run[crash], p);
  }

  lemma SwappingIsMarked(g: Job, d: Disk)
    requires Good(g, d) && PhaseOf(d, g.tag).Some?
    ensures Marked(g, d)
  {
  }

  lemma AddedInTheWay(g: Job, d: Disk, p: RelPath)
    requires ValidJob(g) && Marked(g, d) && p in g.items && p.parent.Sub?
    requires At(g.orig, Home(p.parent)).None? && At(d, Home(p)).Some?
    ensures !Clearable(g, d, MarkerOf(d, g.tag).value.created)
  {
    var q: RelPath := p.parent;
    var created := MarkerOf(d, g.tag).value.created;
    assert g.items[p] in g.manifest.files && q in g.dirs;
    assert Home(p) in d.tree && IsDir(d, q) && At(d, Home(q)) == Some(Dir);
    assert q in created;
    CreatedAreDirs(g, d);
    assert p !in created;
  }

  /** Such a disk: a restore of two nested directories and no files, stopped once both were made. */
  lemma NestedInput() returns (g: Job, d: Disk, c: RelPath)
    ensures ValidJob(g) && Marked(g, d)
    ensures var created := MarkerOf(d, g.tag).value.created;
      Clearable(g, d, created) && c in created && c.parent in created
  {
    var q: RelPath := Sub(Root, "a");
    c := Sub(q, "b");
    g := JobOf("t", Manifest([q, c], []), false, Disk(map[], map[], 0));
    d := TwoMade(q, c, g.manifest);
    TwoMadeBody(g, q, c);
    TwoMadeFits(g, q, c);
  }

  function TwoMade(q: RelPath, c: RelPath, m: Manifest): Disk {
    Disk(
      map[MarkerLoc("t") := File(0), Home(q) := Dir, Home(c) := Dir],
      map[0 := Inode(Record(SwapMarker(Staging, [], [q, c], false, m)), 0, 0, 0)], 1)
  }

  ghost predicate TwoDirs(g: Job, q: RelPath, c: RelPath) {
    && q.parent.Root? && c.parent == q && g.tag == "t" && g.manifest == Manifest([q, c], []) && !g.owners
    && g.items == map[] && g.dirs == {q, c} && g.orig == Disk(map[], map[], 0)
  }

  lemma TwoMadeBody(g: Job, q: RelPath, c: RelPath)
    requires TwoDirs(g, q, c)
    ensures Body(g, TwoMade(q, c, g.manifest))
  {
    var d := TwoMade(q, c, g.manifest);
    forall l | !Touched(g, l) ensures At(d, l) == At(g.orig, l) {
      assert l.name.Live? ==> Sub(l.dir, l.name.base) != q && Sub(l.dir, l.name.base) != c;
    }
  }

  lemma TwoMadeFits(g: Job, q: RelPath, c: RelPath)
    requires TwoDirs(g, q, c) && Body(g, TwoMade(q, c, g.manifest))
    ensures Marked(g, TwoMade(q, c, g.manifest))
    ensures var d := TwoMade(q, c, g.manifest);
      MarkerOf(d, g.tag).value.created == [q, c] && Clearable(g, d, [q, c])
  {
    hide Body;
    assert DirsFit(g, TwoMade(q, c, g.manifest), [q, c]);
  }
}
