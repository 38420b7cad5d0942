/**
  Recoveries that crash: any number of rollbacks, each cut after any number of
  calls, still leave a disk the next one can settle.
*/
module Crashes {
  import opened Wrappers
  import opened Volume
  import opened RestoreState
  import opened RestoreSteps
  import opened Chronicles
  import opened RecoveryPlan
  import opened Runs
  import opened Rollback
  import opened RollbackDirs
  import opened RollbackTheorem
  import opened Afterwards

  /** A recovery that made the first `made` of its calls and left `after`. */
  datatype Attempt = Attempt(left: seq<Left>, slot: Option<Manifest>, torn: Bytes, made: nat, after: Disk)

  ghost predicate CutShort(d: Disk, a: Attempt, finish: bool) {
    && Lists(d, a.left)
    && Plan(d, a.left, finish, a.slot).Ok?
    && var calls := AllCalls(Plan(d, a.left, finish, a.slot).value, a.torn);
      a.made <= |calls| && Run(d, calls[..a.made]) == Some(a.after)
  }

  /** Recoveries of one kind, each starting where the last one stopped. */
  ghost predicate InTurn(d: Disk, tries: seq<Attempt>, finish: bool)
    decreases |tries|
  {
    tries != [] ==> CutShort(d, tries[0], finish) && InTurn(tries[0].after, tries[1..], finish)
  }

  function Last(d: Disk, tries: seq<Attempt>): Disk {
    if tries == [] then d else tries[|tries| - 1].after
  }

  /** A rollback that is run again after its marker went only clears what is left over. */
  lemma RollbackAfterwards(g: Job, d: Disk, left: seq<Left>, slot: Option<Manifest>, torn: Bytes)
    returns (ops: seq<Op>, end: Disk)
    requires ValidJob(g) && RolledBack(g, d) && Lists(d, left)
    ensures Plan(d, left, false, slot) == Ok(ops) && Run(d, AllCalls(ops, torn)) == Some(end)
    ensures Keeps(RescuableBy(g), d, AllCalls(ops, torn)) && RolledBack(g, end) && Tidied(end)
    ensures forall l: Loc :: l.name.Live? ==> At(end, l) == At(d, l)
  {
    LeftoversAreFiles(g, d);
    OnlyOrphans(g, d, left, false, slot);
    LeftIsScratch(g, d);
    ops := Orphans(left, {});
    RolledBackWF(g, d);
    hide RolledBack, Orphans, AllCalls, ValidJob, OwnFilesOnly, Scratch, Plan, WF;
    forall x | x in left ensures Scratch(g, x.at) && IsDir(d, x.at.dir) {
    }
    end := OrphansGo(g, d, left, {}, torn);
    forall l: Loc | !l.name.Live? ensures At(end, l).None? {
      if At(d, l).Some? {
        assert Left(l, d.tree[l]) in left;
      }
    }
  }

  lemma RolledBackWF(g: Job, d: Disk)
    requires RolledBack(g, d)
    ensures WF(d) && At(d, MarkerLoc(g.tag)).None? && forall l :: l in d.tree ==> IsDir(d, l.dir)
  {
  }

  /** One rollback, cut anywhere, leaves a disk that can be rolled back. */
  lemma CutRollback(g: Job, d: Disk, a: Attempt)
    requires ValidJob(g) && Rescuable(g, d) && CutShort(d, a, false)
    ensures Rescuable(g, a.after)
  {
    hide Marked, RolledBack, Lists, Plan, AllCalls, ValidJob;
    var ops: seq<Op>;
    if Marked(g, d) {
      var files, back;
      files, ops, back := RollbackRestores(g, d, a.left, a.slot, a.torn);
    } else {
      var end;
      ops, end := RollbackAfterwards(g, d, a.left, a.slot, a.torn);
    }
    KeepsPrefix(RescuableBy(g), d, AllCalls(ops, a.torn), a.made);
  }

  lemma {:induction false} CrashedRollbacks(g: Job, d: Disk, tries: seq<Attempt>)
    requires ValidJob(g) && Rescuable(g, d) && InTurn(d, tries, false)
    ensures Rescuable(g, Last(d, tries))
    decreases |tries|
  {
    hide Rescuable, CutShort, ValidJob;
    if tries != [] {
      CutRollback(g, d, tries[0]);
      CrashedRollbacks(g, tries[0].after, tries[1..]);
      assert Last(tries[0].after, tries[1..]) == Last(d, tries);
    }
  }

  /** Nothing outside the manifest differs, and no original inode was written or lost. */
  ghost predicate ElsewhereAsBefore(g: Job, d: Disk) {
    && (forall l: Loc :: l.name.Live? && Sub(l.dir, l.name.base) !in g.items && Sub(l.dir, l.name.base) !in g.dirs ==>
          At(d, l) == At(g.orig, l))
    && (forall i :: i in g.orig.inodes ==> i in d.inodes && d.inodes[i] == g.orig.inodes[i])
  }

  /**
    `back` is where the file steps `files` of a rollback of `d` lead: every path
    that held a file holds its original inode, no temp file or set-aside link
    is left, and a path that held nothing holds at most the file the restore
    added, named by a `Keep` while the marker is there.
  */
  ghost predicate Rescued(g: Job, d: Disk, files: seq<Op>, back: Disk) {
    && (forall p :: p in g.items ==>
          && At(back, TempOf(p, g.tag)).None? && At(back, PrevOf(p, g.tag)).None?
          && (At(g.orig, Home(p)).Some? ==> At(back, Home(p)) == At(g.orig, Home(p)))
          && (At(g.orig, Home(p)).None? && At(back, Home(p)).Some? ==>
                IsNew(g, At(back, Home(p))) && (At(d, MarkerLoc(g.tag)).Some? ==> Keep(Home(p)) in files)))
    && ElsewhereAsBefore(g, back)
  }

  /**
    A restore that crashed with its marker on disk, then any number of rollbacks
    that crashed as well, then one that makes its file steps: everything is back.
  */
  lemma RescuedInTheEnd(
    g: Job, run: seq<Disk>, r: Phase, unsynced: bool, crash: nat,
    tries: seq<Attempt>, left: seq<Left>, slot: Option<Manifest>, torn: Bytes)
    returns (files: seq<Op>, ops: seq<Op>, back: Disk)
    requires ValidJob(g) && Chronicle(g, run, r, unsynced) && crash < |run| && At(run[crash], MarkerLoc(g.tag)).Some?
    requires InTurn(run[crash], tries, false) && Lists(Last(run[crash], tries), left)
    ensures Plan(Last(run[crash], tries), left, false, slot) == Ok(ops) && files <= ops
    ensures Run(Last(run[crash], tries), AllCalls(files, torn)) == Some(back)
    ensures Rescued(g, Last(run[crash], tries), files, back)
  {
    MarkerIsMarked(g, run[crash]);
    hide *;
    files, ops, back := RescuedFrom(g, run[crash], tries, left, slot, torn);
  }

  /** The same from any disk a true marker describes, whether or not a run passed through it. */
  lemma RescuedFrom(g: Job, d: Disk, tries: seq<Attempt>, left: seq<Left>, slot: Option<Manifest>, torn: Bytes)
    returns (files: seq<Op>, ops: seq<Op>, back: Disk)
    requires ValidJob(g) && Marked(g, d) && InTurn(d, tries, false) && Lists(Last(d, tries), left)
    ensures Plan(Last(d, tries), left, false, slot) == Ok(ops) && files <= ops
    ensures Run(Last(d, tries), AllCalls(files, torn)) == Some(back) && Rescued(g, Last(d, tries), files, back)
  {
    hide *;
    MarkedIsRescuable(g, d);
    CrashedRollbacks(g, d, tries);
    var e := Last(d, tries);
    if Marked(g, e) {
      files, ops, back := RollbackRestores(g, e, left, slot, torn);
      assert files <= ops && Run(e, AllCalls(files, torn)) == Some(back);
      PartWay(g, e, files, ops, torn, back);
    } else {
      RescuableUnmarked(g, e);
      var end;
      ops, end := RollbackAfterwards(g, e, left, slot, torn);
      files, back := ops, end;
      BackFiles(g, end);
    }
    OthersAsBefore(g, back);
    IsRescued(g, e, files, back);
  }

  lemma IsRescued(g: Job, d: Disk, files: seq<Op>, back: Disk)
    requires forall p :: p in g.items ==>
      && At(back, TempOf(p, g.tag)).None? && At(back, PrevOf(p, g.tag)).None?
      && (At(g.orig, Home(p)).Some? ==> At(back, Home(p)) == At(g.orig, Home(p)))
      && (At(g.orig, Home(p)).None? && At(back, Home(p)).Some? ==>
            IsNew(g, At(back, Home(p))) && (At(d, MarkerLoc(g.tag)).Some? ==> Keep(Home(p)) in files))
    requires ElsewhereAsBefore(g, back)
    ensures Rescued(g, d, files, back)
  {
  }

  lemma MarkerIsMarked(g: Job, d: Disk)
    requires Good(g, d) && At(d, MarkerLoc(g.tag)).Some?
    ensures Marked(g, d)
  {
  }

  lemma MarkedIsRescuable(g: Job, d: Disk)
    requires Marked(g, d)
    ensures Rescuable(g, d)
  {
  }

  lemma RescuableUnmarked(g: Job, d: Disk)
    requires Rescuable(g, d) && !Marked(g, d)
    ensures RolledBack(g, d) && At(d, MarkerLoc(g.tag)).None?
  {
  }

  /** The disk after a plan's first steps is one of those a crash may leave. */
  lemma PartWay(g: Job, d: Disk, files: seq<Op>, ops: seq<Op>, torn: Bytes, back: Disk)
    requires files <= ops && Run(d, AllCalls(files, torn)) == Some(back) &&
      Keeps(RescuableBy(g), d, AllCalls(ops, torn))
    ensures Rescuable(g, back)
  {
    hide Marked, RolledBack;
    var made, all := AllCalls(files, torn), AllCalls(ops, torn);
    assert ops == files + ops[|files|..];
    CallsConcat(files, ops[|files|..], torn);
    assert all[..|made|] == made;
    KeepsPrefix(RescuableBy(g), d, all, |made|);
  }

  lemma BackFiles(g: Job, d: Disk)
    requires RolledBack(g, d)
    ensures forall p :: p in g.items ==>
      && At(d, TempOf(p, g.tag)).None? && At(d, PrevOf(p, g.tag)).None?
      && (At(d, Home(p)) == At(g.orig, Home(p)) || (At(g.orig, Home(p)).None? && IsNew(g, At(d, Home(p)))))
  {
    forall p | p in g.items ensures BackFile(g, d, p) {
    }
  }

  lemma OthersAsBefore(g: Job, d: Disk)
    requires Rescuable(g, d)
    ensures ElsewhereAsBefore(g, d)
  {
    forall l: Loc | l.name.Live? && Sub(l.dir, l.name.base) !in g.items && Sub(l.dir, l.name.base) !in g.dirs
      ensures At(d, l) == At(g.orig, l)
    {
      assert !Touched(g, l);
    }
  }

  /**
    Whatever a restore, or any number of crashed rollbacks after it, left on
    disk: a rollback that goes through leaves no leftover, and is refused by
    none of them.
  */
  lemma RecoveryTidies(g: Job, d: Disk, tries: seq<Attempt>, left: seq<Left>, slot: Option<Manifest>, torn: Bytes)
    requires ValidJob(g) && Good(g, d) && InTurn(d, tries, false) && Lists(Last(d, tries), left)
    ensures Plan(Last(d, tries), left, false, slot).Ok?
    ensures var end := Run(Last(d, tries), AllCalls(Plan(Last(d, tries), left, false, slot).value, torn));
      end.Some? ==> Tidied(end.value)
  {
    hide *;
    RescuableOrOver(g, d);
    if Rescuable(g, d) {
      CrashedRollbacks(g, d, tries);
      TidiedFromRescuable(g, Last(d, tries), left, slot, torn);
    } else {
      OverStays(g, d, tries, false);
      var ops, end := OverAfterwards(g, g.items.Keys, Last(d, tries), left, false, slot, torn);
    }
  }

  lemma TidiedFromRescuable(g: Job, d: Disk, left: seq<Left>, slot: Option<Manifest>, torn: Bytes)
    requires ValidJob(g) && Rescuable(g, d) && Lists(d, left)
    ensures Plan(d, left, false, slot).Ok?
    ensures var end := Run(d, AllCalls(Plan(d, left, false, slot).value, torn));
      end.Some? ==> Tidied(end.value)
  {
    hide Marked, RolledBack, Plan, AllCalls, ValidJob, Lists, Clearable, Tidied;
    if Marked(g, d) {
      var files, ops, back := RollbackRestores(g, d, left, slot, torn);
    } else {
      var ops, end := RollbackAfterwards(g, d, left, slot, torn);
    }
  }

  lemma RescuableOrOver(g: Job, d: Disk)
    requires Good(g, d)
    ensures Rescuable(g, d) || Over(g, g.items.Keys, d)
  {
    if Unmarked(g, d) && Clean(g, d) {
      forall p | p in g.items ensures BackFile(g, d, p) {
      }
    }
  }

  lemma {:induction false} OverStays(g: Job, d: Disk, tries: seq<Attempt>, finish: bool)
    requires ValidJob(g) && Over(g, g.items.Keys, d) && InTurn(d, tries, finish)
    ensures Over(g, g.items.Keys, Last(d, tries))
    decreases |tries|
  {
    hide Over, ValidJob, AllCalls, Plan, Lists;
    if tries != [] {
      var a := tries[0];
      var ops, end := OverAfterwards(g, g.items.Keys, d, a.left, finish, a.slot, a.torn);
      KeepsPrefix(OverBy(g, g.items.Keys), d, AllCalls(ops, a.torn), a.made);
      OverStays(g, a.after, tries[1..], finish);
      assert Last(a.after, tries[1..]) == Last(d, tries);
    }
  }
}
