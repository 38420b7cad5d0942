/** When no call fails of itself, a recovery goes through, but for one kind of rollback. */
module Settling {
  import opened Wrappers
  import opened Volume
  import opened RestoreState
  import opened RecoveryPlan
  import opened Runs
  import opened Rollback
  import opened RollbackDirs
  import opened RollbackTheorem
  import opened Afterwards
  import opened FinishRecovery
  import opened FinishTheorem
  import opened FinishCrashes
  import opened Crashes
  import opened Recover

  lemma {:induction false} NoInstalls(d: Disk, ops: seq<Op>, torn: Bytes)
    requires forall op :: op in ops ==> !op.Install?
    ensures VerifiedAlong(d, ops, torn)
    decreases |ops|
  {
    hide Calls, Run;
    if ops != [] && Run(d, Calls(ops[0], torn)).Some? {
      NoInstalls(Run(d, Calls(ops[0], torn)).value, ops[1..], torn);
    }
  }

  lemma {:induction false} AlongConcat(d: Disk, a: seq<Op>, b: seq<Op>, torn: Bytes)
    requires VerifiedAlong(d, a, torn)
    requires Run(d, AllCalls(a, torn)).Some? ==> VerifiedAlong(Run(d, AllCalls(a, torn)).value, b, torn)
    ensures VerifiedAlong(d, a + b, torn)
    decreases |a|
  {
    hide Calls, Verified;
    if a == [] {
      assert a + b == b;
    } else {
      assert (a + b)[1..] == a[1..] + b;
      RunConcat(d, Calls(a[0], torn), AllCalls(a[1..], torn));
      if Run(d, Calls(a[0], torn)).Some? {
        AlongConcat(Run(d, Calls(a[0], torn)).value, a[1..], b, torn);
      }
    }
  }

  /** A staged file is verified again when its turn comes. */
  lemma FileVerified(g: Job, held: set<RelPath>, d: Disk, p: RelPath, torn: Bytes)
    requires Underway(g, held, d) && p in g.items
    ensures VerifiedAlong(d, FinishOps(g, d, p), torn)
  {
    assert Installable(g, d, p);
    hide Underway, Calls, Run;
    var b := RemoveIf(At(d, PrevOf(p, g.tag)), PrevOf(p, g.tag));
    if At(d, TempOf(p, g.tag)).Some? {
      var a := Install(p, g.tag, g.items[p], g.owners);
      assert Verified(d, a);
      assert ([a] + b)[1..] == b;
      if Run(d, Calls(a, torn)).Some? {
        NoInstalls(Run(d, Calls(a, torn)).value, b, torn);
      }
    } else {
      assert [] + b == b;
      NoInstalls(d, b, torn);
    }
  }

  lemma {:induction false} FilesVerified(
    g: Job, held: set<RelPath>, d0: Disk, left: seq<Left>, d: Disk, fs: seq<MarkedFile>, m: SwapMarker, torn: Bytes)
    requires ValidJob(g) && Underway(g, held, d) && Lists(d0, left) && MarksFit(g, fs) && m.manifest == g.manifest &&
      m.owners == g.owners
    requires forall f :: f in fs ==> AsPlanned(g, d0, d, f.path)
    ensures FilesOps(d0, left, g.tag, fs, Some(m)).Ok?
    ensures VerifiedAlong(d, FilesOps(d0, left, g.tag, fs, Some(m)).value, torn)
    decreases |fs|
  {
    hide Underway, Lists, Stretch, FileOps, FileOver, ValidJob, FinishOps, AsPlanned, Run, Calls, AllCalls;
    if fs != [] {
      assert fs[0] in fs;
      var first := FinishOps(g, d, fs[0].path);
      PlannedFinish(g, d0, left, d, fs[0], m);
      FileVerified(g, held, d, fs[0].path, torn);
      var k := FileFinish(g, held, d, fs[0].path, torn);
      AfterFirst(g, held, d0, d, k, fs, AllCalls(first, torn));
      RanTo(g, held, d, k, fs[0].path, AllCalls(first, torn));
      hide Finished, VerifiedAlong;
      FilesVerified(g, held, d0, left, k, fs[1..], m, torn);
      AlongConcat(d, first, FilesOps(d0, left, g.tag, fs[1..], Some(m)).value, torn);
    }
  }

  lemma RanTo(g: Job, held: set<RelPath>, d: Disk, e: Disk, p: RelPath, calls: seq<Call>)
    requires p in g.items && Finished(g, held, d, e, p, calls)
    ensures Run(d, calls) == Some(e)
  {
  }

  /** The marker a recovery settles is the restore's own. */
  lemma {:induction false} PendingIsIt(d: Disk, left: seq<Left>, tag: string)
    requires forall x :: x in left && MarkerTag(x).Some? ==> MarkerTag(x) == Some(tag)
    ensures Pending(d, left) == if exists x :: x in left && MarkerTag(x).Some? then MarkerOf(d, tag) else None
  {
    hide MarkerTag, MarkerOf;
    if left != [] {
      PendingIsIt(d, left[1..], tag);
      assert left == [left[0]] + left[1..];
    }
  }

  lemma OwnPending(g: Job, d: Disk, left: seq<Left>)
    requires OwnFilesOnly(g, d) && Lists(d, left)
    ensures Pending(d, left) == MarkerOf(d, g.tag)
  {
    forall x | x in left && MarkerTag(x).Some? ensures MarkerTag(x) == Some(g.tag) && x.at == MarkerLoc(g.tag) {
      assert Touched(g, x.at);
    }
    PendingIsIt(d, left, g.tag);
    if At(d, MarkerLoc(g.tag)).Some? {
      assert Left(MarkerLoc(g.tag), d.tree[MarkerLoc(g.tag)]) in left;
    }
  }

  /** The check that a finish makes at its end passes. */
  lemma EndsInPlace(g: Job, end: Disk)
    requires ValidJob(g) && Completed(g, end)
    ensures AllInPlace(end, g.manifest.files, g.owners)
  {
    forall f | f in g.manifest.files
      ensures InodeAt(end, Home(f.path)).Some? && Matches(InodeAt(end, Home(f.path)).value, f)
      ensures g.owners ==> MetaMatches(InodeAt(end, Home(f.path)).value, f, g.owners)
    {
      assert Holds(end, Home(f.path), g.items[f.path], g.owners);
    }
  }

  /** No finish is stuck: when no call fails of itself it goes through, wherever an earlier one crashed. */
  lemma FinishSettles(g: Job, d: Disk, left: seq<Left>, torn: Bytes)
    requires ValidJob(g) && Completing(g, g.items.Keys, d) && Lists(d, left)
    ensures Settles(d, left, true, Some(g.manifest), torn)
  {
    hide *;
    if Underway(g, g.items.Keys, d) {
      UnderwaySettles(g, d, left, torn);
    } else {
      NotUnderway(g, g.items.Keys, d);
      var ops, end := OverAfterwards(g, g.items.Keys, d, left, true, Some(g.manifest), torn);
      OverLeftovers(g, g.items.Keys, d);
      OverNeedsNoCheck(g, d, left, ops);
      OnlyOrphans(g, d, left, true, Some(g.manifest));
      OrphansRemove(left, {});
      NoInstalls(d, ops, torn);
      OwnPending(g, d, left);
      NoMarker(d, g.tag);
      OverSettles(d, left, Some(g.manifest), ops, end, torn);
    }
  }

  lemma NoMarker(d: Disk, tag: string)
    requires At(d, MarkerLoc(tag)).None?
    ensures MarkerOf(d, tag).None?
  {
  }

  lemma OverSettles(d: Disk, left: seq<Left>, slot: Option<Manifest>, ops: seq<Op>, end: Disk, torn: Bytes)
    requires Plan(d, left, true, slot) == Ok(ops) && (forall op :: op in ops ==> Verified(d, op)) &&
      VerifiedAlong(d, ops, torn)
    requires Run(d, AllCalls(ops, torn)) == Some(end) && Pending(d, left).None?
    ensures Settles(d, left, true, slot, torn)
  {
    hide Plan, Verified, VerifiedAlong, Run, AllCalls, Pending;
  }

  lemma UnderwaySettles(g: Job, d: Disk, left: seq<Left>, torn: Bytes)
    requires ValidJob(g) && Underway(g, g.items.Keys, d) && Lists(d, left)
    ensures Settles(d, left, true, Some(g.manifest), torn)
  {
    hide *;
    var held := g.items.Keys;
    var ops, end := FinishCompletes(g, held, d, left, torn);
    AllMatch(g, held, d);
    OwnLeftovers(g, held, d);
    FinishIsChecked(g, d, left);
    OwnPending(g, d, left);
    MarkerThere(g, held, d);
    OverEnds(g, end);
    EndsInPlace(g, end);
    PlanVerified(g, held, d, left, ops, torn);
    IsSettled(g, d, left, ops, end, torn);
  }

  lemma IsSettled(g: Job, d: Disk, left: seq<Left>, ops: seq<Op>, end: Disk, torn: Bytes)
    requires Plan(d, left, true, Some(g.manifest)) == Ok(ops) && (forall op :: op in ops ==> Verified(d, op)) &&
      VerifiedAlong(d, ops, torn)
    requires Run(d, AllCalls(ops, torn)) == Some(end) && AllInPlace(end, g.manifest.files, g.owners)
    requires Pending(d, left).Some? && Pending(d, left).value.manifest == g.manifest &&
      Pending(d, left).value.owners == g.owners
    ensures Settles(d, left, true, Some(g.manifest), torn)
  {
    hide Plan, Verified, VerifiedAlong, Run, AllCalls, Pending, AllInPlace;
  }

  lemma PlanVerified(g: Job, held: set<RelPath>, d: Disk, left: seq<Left>, ops: seq<Op>, torn: Bytes)
    requires ValidJob(g) && Underway(g, held, d) && Lists(d, left) && Plan(d, left, true, Some(g.manifest)) == Ok(ops)
    ensures VerifiedAlong(d, ops, torn)
  {
    hide *;
    MarkerThere(g, held, d);
    AllListed(g, held, d);
    var m := MarkerOf(d, g.tag).value;
    var files, e := FinishPlan(g, held, d, left, torn);
    AsNow(g, d, m.files);
    FilesVerified(g, held, d, left, d, m.files, m, torn);
    var tail := [Remove(MarkerLoc(g.tag))] + Orphans(left, {g.tag});
    OrphansRemove(left, {g.tag});
    assert ops == files + tail;
    if Run(d, AllCalls(files, torn)).Some? {
      NoInstalls(Run(d, AllCalls(files, torn)).value, tail, torn);
    }
    AlongConcat(d, files, tail, torn);
  }

  lemma AsNow(g: Job, d: Disk, fs: seq<MarkedFile>)
    ensures forall f :: f in fs ==> AsPlanned(g, d, d, f.path)
  {
  }

  /**
    A rollback is stuck in one case only: when no call fails of itself it goes
    through exactly if the directories the restore made can be cleared.
  */
  lemma RollbackSettles(g: Job, d: Disk, left: seq<Left>, slot: Option<Manifest>, torn: Bytes)
    returns (files: seq<Op>, back: Disk)
    requires ValidJob(g) && Marked(g, d) && Lists(d, left)
    ensures Plan(d, left, false, slot).Ok? && files <= Plan(d, left, false, slot).value
    ensures Run(d, AllCalls(files, torn)) == Some(back) && Rescued(g, d, files, back)
    ensures Settles(d, left, false, slot, torn) <==> Clearable(g, d, MarkerOf(d, g.tag).value.created)
  {
    hide *;
    MarkedIsRescuable(g, d);
    var ops;
    files, ops, back := RollbackRestores(g, d, left, slot, torn);
    PartWay(g, d, files, ops, torn, back);
    OthersAsBefore(g, back);
    IsRescued(g, d, files, back);
    RollbackInstallsNothing(d, left, slot);
    NoInstalls(d, ops, torn);
    SettlesIfRuns(d, left, slot, ops, torn);
  }

  lemma SettlesIfRuns(d: Disk, left: seq<Left>, slot: Option<Manifest>, ops: seq<Op>, torn: Bytes)
    requires Plan(d, left, false, slot) == Ok(ops) && (forall op :: op in ops ==> !op.Install?) &&
      VerifiedAlong(d, ops, torn)
    ensures Settles(d, left, false, slot, torn) <==> Run(d, AllCalls(ops, torn)).Some?
  {
    hide Plan, VerifiedAlong, Run, AllCalls;
  }

  /** One that had already dropped its marker is never stuck. */
  lemma RollbackSettlesAfterwards(g: Job, d: Disk, left: seq<Left>, slot: Option<Manifest>, torn: Bytes)
    requires ValidJob(g) && RolledBack(g, d) && Lists(d, left)
    ensures Settles(d, left, false, slot, torn)
  {
    hide *;
    var ops, end := RollbackAfterwards(g, d, left, slot, torn);
    RollbackInstallsNothing(d, left, slot);
    NoInstalls(d, ops, torn);
    SettlesIfRuns(d, left, slot, ops, torn);
  }
}
