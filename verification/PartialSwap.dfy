/**
  A crash may keep some of a restore's renames and lose others, since only an
  fsync orders them. Whatever it keeps, rolling back and finishing still work.
*/
module PartialSwap {
  import opened Wrappers
  import opened Volume
  import opened RestoreState
  import opened RestoreSteps
  import opened RestoreFrames
  import opened Chronicles
  import opened RecoveryPlan
  import opened Crashes
  import opened FinishCrashes

  function Renames(s: seq<RelPath>, tag: string): seq<Call> {
    seq(|s|, i requires 0 <= i < |s| => Rename(s[i].parent, Temp(s[i].name, tag), Live(s[i].name)))
  }

  /** The files in `s` are distinct and still staged. */
  ghost predicate StillStaged(g: Job, d: Disk, s: seq<RelPath>) {
    && (forall i, j :: 0 <= i < j < |s| ==> s[i] != s[j])
    && (forall p :: p in s ==> p in g.items && At(d, TempOf(p, g.tag)).Some?)
  }

  /** The swap is under way, and none of the files in `s` has been renamed yet. */
  ghost predicate Swappable(g: Job, d: Disk, s: seq<RelPath>) {
    Marked(g, d) && MarkerOf(d, g.tag).value.phase == Swapping && FinishReady(g, d) && StillStaged(g, d, s)
  }

  lemma StagedRenames(g: Job, d: Disk, s: seq<RelPath>)
    requires ValidJob(g) && Swappable(g, d, s) && s != []
    ensures Do(d, Renames(s, g.tag)[0]).Some?
    ensures var e := Do(d, Renames(s, g.tag)[0]).value;
      Swappable(g, e, s[1..]) && Replaced(g, e, s[0]) && forall l :: !IsHomeOf(l, s[0], g.tag) ==> At(e, l) == At(d, l)
  {
    hide Marked, FinishReady, Replaced, Do, Sound, OnlyFile, ValidJob;
    var p := s[0];
    assert p in s;
    StagedLands(g, d, p);
    AsideOfStaged(g, d, p);
    var e := Do(d, Renames(s, g.tag)[0]).value;
    SwapStep(g, d, e, p);
    forall q | q in s[1..] ensures q in s && q != p {
    }
    forall q | q in s[1..] ensures At(e, TempOf(q, g.tag)).Some? {
      assert !IsHomeOf(TempOf(q, g.tag), p, g.tag);
    }
  }

  /** A file that is still staged has its original linked aside. */
  lemma AsideOfStaged(g: Job, d: Disk, p: RelPath)
    requires FinishReady(g, d) && p in g.items && At(d, TempOf(p, g.tag)).Some?
    ensures At(d, PrevOf(p, g.tag)) == At(g.orig, Home(p))
  {
    assert Finishable(g, d, p);
  }

  /** Exactly the files in `s` have been renamed between `d` and `e`. */
  ghost predicate Swapped(g: Job, d: Disk, e: Disk, s: seq<RelPath>) {
    && Marked(g, e) && FinishReady(g, e) && MarkerOf(e, g.tag).value.phase == Swapping
    && (forall p :: p in s ==> Replaced(g, e, p))
    && (forall l :: NotIn(g, s, l) ==> At(e, l) == At(d, l))
  }

  ghost predicate NotIn(g: Job, s: seq<RelPath>, l: Loc) {
    forall p :: p in s ==> !IsHomeOf(l, p, g.tag)
  }

  /** None of the renames is refused, in whatever order they are listed. */
  lemma {:induction false} AnySubsetPersists(g: Job, d: Disk, s: seq<RelPath>) returns (e: Disk)
    requires ValidJob(g) && Swappable(g, d, s)
    ensures Run(d, Renames(s, g.tag)) == Some(e) && Swapped(g, d, e, s)
    decreases |s|
  {
    hide Swappable, Replaced, Swapped, ValidJob, Do, NotIn;
    if s == [] {
      NoneSwapped(g, d);
      return d;
    }
    StagedRenames(g, d, s);
    var m := Do(d, Renames(s, g.tag)[0]).value;
    assert Renames(s, g.tag)[1..] == Renames(s[1..], g.tag);
    e := AnySubsetPersists(g, m, s[1..]);
    AreDistinct(g, d, s);
    FirstReplaced(g, d, m, e, s);
  }

  lemma NoneSwapped(g: Job, d: Disk)
    requires Swappable(g, d, [])
    ensures Swapped(g, d, d, [])
  {
    hide Marked, FinishReady;
  }

  lemma AreDistinct(g: Job, d: Disk, s: seq<RelPath>)
    requires Swappable(g, d, s)
    ensures forall i, j :: 0 <= i < j < |s| ==> s[i] != s[j]
  {
  }

  lemma FirstReplaced(g: Job, d: Disk, m: Disk, e: Disk, s: seq<RelPath>)
    requires s != [] && Replaced(g, m, s[0]) && (forall i, j :: 0 <= i < j < |s| ==> s[i] != s[j]) &&
      Swapped(g, m, e, s[1..])
    requires forall l :: !IsHomeOf(l, s[0], g.tag) ==> At(m, l) == At(d, l)
    ensures Swapped(g, d, e, s)
  {
    hide Marked, FinishReady;
    forall p | p in s[1..] ensures p != s[0] && p in s {
    }
    assert forall l :: IsHomeOf(l, s[0], g.tag) ==> NotIn(g, s[1..], l);
    assert s == [s[0]] + s[1..];
    forall l | NotIn(g, s, l) ensures At(e, l) == At(d, l) {
      assert NotIn(g, s[1..], l) && s[0] in s;
    }
  }

  /** Every disk in the swap window of a run can have any of its remaining renames. */
  lemma WindowIsSwappable(g: Job, run: seq<Disk>, r: Phase, crash: nat, s: seq<RelPath>)
    requires Chronicle(g, run, r, false) && crash < |run| && PhaseOf(run[crash], g.tag) == Some(Swapping)
    requires StillStaged(g, run[crash], s)
    ensures Swappable(g, run[crash], s)
  {
    hide FinishReady, StillStaged;
    PhaseIsMarked(g, run[crash]);
  }

  /**
    A run crashed in its swap window and any of the renames still to come, in
    any order, had reached the disk: none of them is refused, and whatever
    rollbacks crashed since, the next one's file steps put everything back.
  */
  lemma SubsetRescued(
    g: Job, run: seq<Disk>, r: Phase, crash: nat, s: seq<RelPath>, e: Disk,
    tries: seq<Attempt>, left: seq<Left>, slot: Option<Manifest>, torn: Bytes)
    returns (files: seq<Op>, ops: seq<Op>, back: Disk)
    requires ValidJob(g) && Chronicle(g, run, r, false) && crash < |run| && PhaseOf(run[crash], g.tag) == Some(Swapping)
    requires StillStaged(g, run[crash], s) &&
      (Run(run[crash], Renames(s, g.tag)).Some? ==> e == Run(run[crash], Renames(s, g.tag)).value)
    requires InTurn(e, tries, false) && Lists(Last(e, tries), left)
    ensures Run(run[crash], Renames(s, g.tag)) == Some(e)
    ensures Plan(Last(e, tries), left, false, slot) == Ok(ops) && files <= ops
    ensures Run(Last(e, tries), AllCalls(files, torn)) == Some(back) && Rescued(g, Last(e, tries), files, back)
  {
    hide *;
    WindowIsSwappable(g, run, r, crash, s);
    var persisted := AnySubsetPersists(g, run[crash], s);
    SwappedIsWindow(g, run[crash], e, s);
    files, ops, back := RescuedFrom(g, e, tries, left, slot, torn);
  }

  /** And whatever finishes crashed since, the next one completes the restore. */
  lemma SubsetFinished(
    g: Job, run: seq<Disk>, r: Phase, crash: nat, s: seq<RelPath>, e: Disk,
    tries: seq<Attempt>, left: seq<Left>, torn: Bytes)
    returns (ops: seq<Op>, end: Disk)
    requires ValidJob(g) && Chronicle(g, run, r, false) && crash < |run| && PhaseOf(run[crash], g.tag) == Some(Swapping)
    requires StillStaged(g, run[crash], s) &&
      (Run(run[crash], Renames(s, g.tag)).Some? ==> e == Run(run[crash], Renames(s, g.tag)).value)
    requires InTurn(e, tries, true) && Lists(Last(e, tries), left)
    ensures Run(run[crash], Renames(s, g.tag)) == Some(e)
    ensures Plan(Last(e, tries), left, true, Some(g.manifest)) == Ok(ops)
    ensures forall op :: op in ops ==> Verified(Last(e, tries), op)
    ensures Run(Last(e, tries), AllCalls(ops, torn)) == Some(end) && Completed(g, end)
  {
    hide *;
    WindowIsSwappable(g, run, r, crash, s);
    var persisted := AnySubsetPersists(g, run[crash], s);
    SwappedIsWindow(g, run[crash], e, s);
    ops, end := FinishedFrom(g, e, tries, left, torn);
  }

  lemma SwappedIsWindow(g: Job, d: Disk, e: Disk, s: seq<RelPath>)
    requires Swapped(g, d, e, s)
    ensures Marked(g, e) && PhaseOf(e, g.tag) == Some(Swapping) && FinishReady(g, e)
  {
  }

  /**
    Between its `i`th and `j`th disk a run was cut, and each manifest file
    reached the disk up to a moment of its own; the rest is as on the `j`th.
  */
  ghost predicate Scattered(g: Job, run: seq<Disk>, i: nat, j: nat, e: Disk)
    requires i <= j < |run|
  {
    && WF(e) && e.inodes == run[j].inodes && e.next == run[j].next
    && (forall l :: (forall p :: p in g.items ==> !IsHomeOf(l, p, g.tag)) ==> At(e, l) == At(run[j], l))
    && (forall p :: p in g.items ==> exists k :: i <= k <= j && Steady(g, run[k], e, p))
  }

  /** Every disk from the `i`th to the `j`th has its marker. */
  ghost predicate MarkedThroughout(g: Job, run: seq<Disk>, i: nat, j: nat)
    requires i <= j < |run|
  {
    forall k :: i <= k <= j ==> At(run[k], MarkerLoc(g.tag)).Some?
  }

  lemma ScatteredBody(g: Job, run: seq<Disk>, i: nat, j: nat, e: Disk)
    requires ValidJob(g) && i <= j < |run| && Scattered(g, run, i, j, e) &&
      (forall k :: i <= k <= j ==> Body(g, run[k]))
    ensures Body(g, e)
  {
    hide Body, Steady, ValidJob, NoneOrNew, TempOf, InstallOf;
    ScatteredElsewhere(g, run, i, j, e);
    forall p | p in g.items ensures NoneOrNew(g, At(e, TempOf(p, g.tag))) {
      var k :| i <= k <= j && Steady(g, run[k], e, p);
      TempStaysNew(g, run[k], e, p);
    }
    BodyAgain(g, run[j], e);
  }

  lemma TempStaysNew(g: Job, a: Disk, e: Disk, p: RelPath)
    requires Body(g, a) && p in g.items && Steady(g, a, e, p)
    ensures NoneOrNew(g, At(e, TempOf(p, g.tag)))
  {
  }

  lemma BodyAgain(g: Job, a: Disk, e: Disk)
    requires Body(g, a) && WF(e) && e.inodes == a.inodes && e.next == a.next
    requires (forall l :: !Touched(g, l) ==> At(e, l) == At(a, l)) && At(e, NextLoc(g.tag)) == At(a, NextLoc(g.tag))
    requires forall p :: p in g.items ==> At(e, InstallOf(p, g.tag)) == At(a, InstallOf(p, g.tag))
    requires forall p :: p in g.items ==> NoneOrNew(g, At(e, TempOf(p, g.tag)))
    ensures Body(g, e)
  {
    hide WF, Touched;
  }

  /** Nothing but the files' own names is scattered. */
  lemma ScatteredElsewhere(g: Job, run: seq<Disk>, i: nat, j: nat, e: Disk)
    requires i <= j < |run| && Scattered(g, run, i, j, e)
    ensures forall l :: !Touched(g, l) ==> At(e, l) == At(run[j], l)
    ensures At(e, NextLoc(g.tag)) == At(run[j], NextLoc(g.tag)) &&
      At(e, MarkerLoc(g.tag)) == At(run[j], MarkerLoc(g.tag))
    ensures forall p :: p in g.items ==> At(e, InstallOf(p, g.tag)) == At(run[j], InstallOf(p, g.tag))
  {
    hide Steady;
    assert |InstallTag(g.tag)| > |g.tag|;
    forall l | !Touched(g, l) ensures At(e, l) == At(run[j], l) {
      assert forall p :: p in g.items ==> !IsHomeOf(l, p, g.tag);
    }
    forall p | p in g.items ensures At(e, InstallOf(p, g.tag)) == At(run[j], InstallOf(p, g.tag)) {
      assert forall q :: q in g.items ==> !IsHomeOf(InstallOf(p, g.tag), q, g.tag);
    }
  }

  /** What a run says of the disks between two points at which its marker is there. */
  lemma Throughout(g: Job, run: seq<Disk>, r: Phase, unsynced: bool, i: nat, j: nat)
    requires Chronicle(g, run, r, unsynced) && i <= j < |run| && MarkedThroughout(g, run, i, j)
    ensures forall k :: i <= k <= j ==> Marked(g, run[k]) && Body(g, run[k])
    ensures forall k :: i <= k <= j && PhaseOf(run[j], g.tag) == Some(Staging) ==>
      PhaseOf(run[k], g.tag) == Some(Staging)
    ensures !unsynced ==>
      forall k :: i <= k <= j && PhaseOf(run[k], g.tag) == Some(Swapping) ==> FinishReady(g, run[k])
  {
    hide Body, Fits, FinishReady, Clean, Restored, Disciplined;
    forall k | i <= k <= j ensures Marked(g, run[k]) && Body(g, run[k]) {
      MarkerIsMarked(g, run[k]);
    }
    forall k | i <= k <= j && PhaseOf(run[j], g.tag) == Some(Staging) ensures PhaseOf(run[k], g.tag) == Some(Staging) {
      assert k < j ==> Ordered(g.tag, run[k], run[j]);
    }
  }

  /** The renames are per file, so the marker still tells the truth. */
  lemma ScatteredIsMarked(g: Job, run: seq<Disk>, r: Phase, unsynced: bool, i: nat, j: nat, e: Disk)
    requires ValidJob(g) && Chronicle(g, run, r, unsynced) && i <= j < |run| && MarkedThroughout(g, run, i, j)
    requires Scattered(g, run, i, j, e)
    ensures Marked(g, e) && MarkerOf(e, g.tag) == MarkerOf(run[j], g.tag)
    ensures !unsynced && (forall k :: i <= k <= j ==> PhaseOf(run[k], g.tag) == Some(Swapping)) ==> FinishReady(g, e)
  {
    hide *;
    Throughout(g, run, r, unsynced, i, j);
    ScatteredBody(g, run, i, j, e);
    ScatteredElsewhere(g, run, i, j, e);
    ScatteredFits(g, run, i, j, e);
    ScatteredMarker(g, run, i, j, e);
    if !unsynced && (forall k :: i <= k <= j ==> PhaseOf(run[k], g.tag) == Some(Swapping)) {
      ScatteredReady(g, run, i, j, e);
    }
  }

  lemma ScatteredMarker(g: Job, run: seq<Disk>, i: nat, j: nat, e: Disk)
    requires i <= j < |run| && Scattered(g, run, i, j, e) && At(e, MarkerLoc(g.tag)) == At(run[j], MarkerLoc(g.tag))
    requires Marked(g, run[j]) && Body(g, e) && Fits(g, e, MarkerOf(run[j], g.tag).value)
    ensures Marked(g, e) && MarkerOf(e, g.tag) == MarkerOf(run[j], g.tag)
  {
    hide Body, Fits, Steady;
  }

  lemma ScatteredFits(g: Job, run: seq<Disk>, i: nat, j: nat, e: Disk)
    requires ValidJob(g) && i <= j < |run| && Scattered(g, run, i, j, e) &&
      forall k :: i <= k <= j ==> Marked(g, run[k])
    requires forall k :: i <= k <= j && PhaseOf(run[j], g.tag) == Some(Staging) ==>
      PhaseOf(run[k], g.tag) == Some(Staging)
    ensures MarkerOf(run[j], g.tag).Some? && Fits(g, e, MarkerOf(run[j], g.tag).value)
  {
    hide Body, Original, Replaced, Steady;
    assert Marked(g, run[j]);
    var m := MarkerOf(run[j], g.tag).value;
    forall p | p in g.items ensures Undoable(g, e, p) && (m.phase == Staging ==> Original(g, e, p)) {
      var k :| i <= k <= j && Steady(g, run[k], e, p);
      FileUnmoved(g, run[k], e, p);
      assert Marked(g, run[k]);
    }
    ScatteredDirs(g, run, i, j, e);
    DirsElsewhere(g, run[j], e, m.created);
  }

  lemma ScatteredDirs(g: Job, run: seq<Disk>, i: nat, j: nat, e: Disk)
    requires ValidJob(g) && i <= j < |run| && Scattered(g, run, i, j, e)
    ensures forall c :: c in g.dirs ==> At(e, Home(c)) == At(run[j], Home(c))
  {
    hide ValidJob, Steady, IsHomeOf, WF;
    forall c | c in g.dirs ensures At(e, Home(c)) == At(run[j], Home(c)) {
      DirIsNoFile(g, c);
    }
  }

  lemma DirIsNoFile(g: Job, c: RelPath)
    requires ValidJob(g) && c in g.dirs
    ensures forall p :: p in g.items ==> !IsHomeOf(Home(c), p, g.tag)
  {
  }

  lemma ScatteredReady(g: Job, run: seq<Disk>, i: nat, j: nat, e: Disk)
    requires ValidJob(g) && i <= j < |run| && Scattered(g, run, i, j, e) &&
      forall k :: i <= k <= j ==> FinishReady(g, run[k])
    ensures FinishReady(g, e)
  {
    hide Steady, Finishable;
    forall p | p in g.items ensures Finishable(g, e, p) {
      var k :| i <= k <= j && Steady(g, run[k], e, p);
      FileUnmoved(g, run[k], e, p);
      assert FinishReady(g, run[k]);
    }
    ScatteredDirs(g, run, i, j, e);
  }

  /**
    A crash that kept each file's renames up to a moment of its own, while the
    swap ran, while originals were put back or while an undo was cleaning up.
  */
  lemma ScatteredRescued(
    g: Job, run: seq<Disk>, r: Phase, unsynced: bool, i: nat, j: nat, e: Disk,
    tries: seq<Attempt>, left: seq<Left>, slot: Option<Manifest>, torn: Bytes)
    returns (files: seq<Op>, ops: seq<Op>, back: Disk)
    requires ValidJob(g) && Chronicle(g, run, r, unsynced) && i <= j < |run| && MarkedThroughout(g, run, i, j) &&
      Scattered(g, run, i, j, e)
    requires InTurn(e, tries, false) && Lists(Last(e, tries), left)
    ensures Plan(Last(e, tries), left, false, slot) == Ok(ops) && files <= ops
    ensures Run(Last(e, tries), AllCalls(files, torn)) == Some(back) && Rescued(g, Last(e, tries), files, back)
  {
    hide *;
    ScatteredIsMarked(g, run, r, unsynced, i, j, e);
    files, ops, back := RescuedFrom(g, e, tries, left, slot, torn);
  }

  lemma ScatteredFinished(
    g: Job, run: seq<Disk>, r: Phase, i: nat, j: nat, e: Disk, tries: seq<Attempt>, left: seq<Left>, torn: Bytes)
    returns (ops: seq<Op>, end: Disk)
    requires ValidJob(g) && Chronicle(g, run, r, false) && i <= j < |run| && Scattered(g, run, i, j, e)
    requires forall k :: i <= k <= j ==> PhaseOf(run[k], g.tag) == Some(Swapping)
    requires InTurn(e, tries, true) && Lists(Last(e, tries), left)
    ensures Plan(Last(e, tries), left, true, Some(g.manifest)) == Ok(ops)
    ensures forall op :: op in ops ==> Verified(Last(e, tries), op)
    ensures Run(Last(e, tries), AllCalls(ops, torn)) == Some(end) && Completed(g, end)
  {
    SwappingIsMarked(g, run, i, j);
    hide *;
    ScatteredIsMarked(g, run, r, false, i, j, e);
    SamePhase(g, e, run[j]);
    ops, end := FinishedFrom(g, e, tries, left, torn);
  }

  lemma SwappingIsMarked(g: Job, run: seq<Disk>, i: nat, j: nat)
    requires i <= j < |run| && forall k :: i <= k <= j ==> PhaseOf(run[k], g.tag) == Some(Swapping)
    ensures MarkedThroughout(g, run, i, j)
  {
  }

  lemma SamePhase(g: Job, a: Disk, b: Disk)
    requires MarkerOf(a, g.tag) == MarkerOf(b, g.tag)
    ensures PhaseOf(a, g.tag) == PhaseOf(b, g.tag)
  {
  }
}
