/**
  What recovery does not promise: rolling back after a finish that crashed, and
  finishing a restore whose `Swapping` record landed although its fsync failed.
*/
module Switching {
  import opened Wrappers
  import opened Volume
  import opened RestoreState
  import opened RestoreSteps
  import opened RestoreFrames
  import opened Chronicles
  import opened RecoveryPlan
  import opened Runs
  import opened Rollback
  import opened RollbackDirs
  import opened RollbackTheorem
  import opened Afterwards
  import opened FinishRecovery
  import opened FinishTheorem
  import opened FinishCrashes
  import opened Crashes

  /**
    `p`'s original can still be put back: nothing has taken its place while its
    staged file is there, and it is still linked once that has gone.
  */
  ghost predicate CanGoBack(g: Job, d: Disk, p: RelPath) {
    var o := At(g.orig, Home(p));
    if At(d, TempOf(p, g.tag)).Some? then At(d, Home(p)) == o
    else At(d, Home(p)) == o || At(d, PrevOf(p, g.tag)) == o
  }

  /** The steps a rollback plans for one file whose finish may have begun. */
  lemma SwitchedOps(g: Job, held: set<RelPath>, d: Disk, left: seq<Left>, f: MarkedFile)
    requires ValidJob(g) && Underway(g, held, d) && Lists(d, left) && f.path in g.items
    requires f.hadPrev == At(g.orig, Home(f.path)).Some?
    ensures var p := f.path;
      var t, v := TempOf(p, g.tag), PrevOf(p, g.tag);
      FileOps(d, left, g.tag, f, None) == Ok(
        if At(d, t).Some? then [Remove(t)] + RemoveIf(At(d, v), v)
        else if At(d, v).None? then
          if !f.hadPrev && IsDir(d, p.parent) && At(d, Home(p)).Some? then [Keep(Home(p))] else []
        else if At(d, v) == At(d, Home(p)) then [Remove(v)]
        else [Move(p.parent, Prev(p.name, g.tag), Live(p.name))])
  {
    hide Lists, ValidJob, KindOf, Body;
    KindOfListed(d, left, TempOf(f.path, g.tag));
    KindOfListed(d, left, PrevOf(f.path, g.tag));
    assert Installable(g, d, f.path);
  }

  /** What those steps make of the file, as it was on `d0` when they were planned. */
  ghost predicate SwitchedBack(g: Job, d0: Disk, e: Disk, p: RelPath) {
    && At(e, TempOf(p, g.tag)).None? && At(e, PrevOf(p, g.tag)).None?
    && (At(g.orig, Home(p)).Some? ==> (At(e, Home(p)) == At(g.orig, Home(p)) <==> CanGoBack(g, d0, p)))
    && (At(g.orig, Home(p)).None? ==> At(e, Home(p)) == At(d0, Home(p)))
  }

  /** They all succeed, and touch nothing but the file's own names. */
  lemma SwitchedFile(g: Job, held: set<RelPath>, d0: Disk, left: seq<Left>, d: Disk, f: MarkedFile, torn: Bytes)
    returns (ops: seq<Op>, e: Disk)
    requires ValidJob(g) && Underway(g, held, d0) && Lists(d0, left) && f.path in g.items
    requires f.hadPrev == At(g.orig, Home(f.path)).Some?
    requires AsPlanned(g, d0, d, f.path) && IsDir(d, f.path.parent)
    ensures FileOps(d0, left, g.tag, f, None) == Ok(ops) && Run(d, AllCalls(ops, torn)) == Some(e)
    ensures SwitchedBack(g, d0, e, f.path) && forall l :: !IsHomeOf(l, f.path, g.tag) ==> At(e, l) == At(d, l)
  {
    hide Underway, ValidJob, Lists, FileOps, IsDir, Do, Run, AllCalls, Calls;
    var p := f.path;
    var t, v := TempOf(p, g.tag), PrevOf(p, g.tag);
    SwitchedOps(g, held, d0, left, f);
    UnderwayFile(g, held, d0, p);
    if At(d, t).Some? {
      var m := OneGoes(d, t, torn);
      var b := RemoveIf(At(d, v), v);
      ops, e := [Remove(t)] + b, m;
      ParentKept(g, d, m, p, t);
      if At(d, v).Some? {
        e := OneGoes(m, v, torn);
      } else {
        NoOps(m, torn);
      }
      CallsConcat([Remove(t)], b, torn);
      RunConcat(d, AllCalls([Remove(t)], torn), AllCalls(b, torn));
    } else if At(d, v).None? {
      ops, e := if !f.hadPrev && IsDir(d0, p.parent) && At(d, Home(p)).Some? then [Keep(Home(p))] else [], d;
      NoOps(d, torn);
      OneOp(Keep(Home(p)), torn);
      KeepCalls(d, Home(p), torn);
    } else if At(d, v) == At(d, Home(p)) {
      ops := [Remove(v)];
      e := OneGoes(d, v, torn);
    } else {
      ops := [Move(p.parent, Prev(p.name, g.tag), Live(p.name))];
      e := OneMoves(d, p, g.tag, torn);
    }
  }

  lemma KeepCalls(d: Disk, l: Loc, torn: Bytes)
    ensures Run(d, Calls(Keep(l), torn)) == Some(d)
  {
  }

  /** The same of several files. */
  ghost predicate AllSwitched(g: Job, d0: Disk, d: Disk, e: Disk, fs: seq<MarkedFile>) {
    && (forall f :: f in fs ==> SwitchedBack(g, d0, e, f.path))
    && (forall l :: OfNone(g, fs, l) ==> At(e, l) == At(d, l))
  }

  /** The files' directories are there. */
  ghost predicate Housing(g: Job, d: Disk) {
    forall p :: p in g.items ==> IsDir(d, p.parent)
  }

  lemma {:induction false} SwitchedFiles(
    g: Job, held: set<RelPath>, d0: Disk, left: seq<Left>, d: Disk, fs: seq<MarkedFile>, torn: Bytes)
    returns (ops: seq<Op>, e: Disk)
    requires ValidJob(g) && Underway(g, held, d0) && Lists(d0, left) && MarksFit(g, fs) && Housing(g, d)
    requires forall f :: f in fs ==> AsPlanned(g, d0, d, f.path)
    ensures FilesOps(d0, left, g.tag, fs, None) == Ok(ops) && Run(d, AllCalls(ops, torn)) == Some(e)
    ensures AllSwitched(g, d0, d, e, fs)
    decreases |fs|
  {
    hide Underway, ValidJob, Lists, FileOps, Calls, SwitchedBack;
    if fs == [] {
      return [], d;
    }
    assert fs[0] in fs;
    var first, m := SwitchedFile(g, held, d0, left, d, fs[0], torn);
    FileAlone(g, d0, d, m, fs);
    hide AsPlanned, MarksFit, AllSwitched, Housing, OfNone;
    var rest;
    rest, e := SwitchedFiles(g, held, d0, left, m, fs[1..], torn);
    ops := first + rest;
    CallsConcat(first, rest, torn);
    RunConcat(d, AllCalls(first, torn), AllCalls(rest, torn));
    FirstToo(g, d0, d, m, e, fs);
  }

  lemma FileAlone(g: Job, d0: Disk, d: Disk, m: Disk, fs: seq<MarkedFile>)
    requires ValidJob(g) && fs != [] && MarksFit(g, fs) && Housing(g, d)
    requires forall l :: !IsHomeOf(l, fs[0].path, g.tag) ==> At(m, l) == At(d, l)
    requires forall f :: f in fs ==> AsPlanned(g, d0, d, f.path)
    ensures MarksFit(g, fs[1..]) && Housing(g, m) && forall f :: f in fs[1..] ==> AsPlanned(g, d0, m, f.path)
  {
    hide WF;
    forall f | f in fs[1..] ensures f.path != fs[0].path && f in fs {
    }
    forall p | p in g.items ensures IsDir(m, p.parent) {
      if p.parent.Sub? {
        var q: RelPath := p.parent;
        assert g.items[p] in g.manifest.files && q in g.dirs && fs[0].path in g.items;
        assert g.items[fs[0].path] in g.manifest.files && q != fs[0].path;
      }
    }
  }

  lemma FirstToo(g: Job, d0: Disk, d: Disk, m: Disk, e: Disk, fs: seq<MarkedFile>)
    requires fs != [] && MarksFit(g, fs) && SwitchedBack(g, d0, m, fs[0].path) && AllSwitched(g, d0, m, e, fs[1..])
    requires forall l :: !IsHomeOf(l, fs[0].path, g.tag) ==> At(m, l) == At(d, l)
    ensures AllSwitched(g, d0, d, e, fs)
  {
    var p := fs[0].path;
    forall f | f in fs[1..] ensures f.path != p && f in fs {
    }
    forall l | IsHomeOf(l, p, g.tag) ensures At(e, l) == At(m, l) {
      assert OfNone(g, fs[1..], l);
    }
    forall l | OfNone(g, fs, l) ensures At(e, l) == At(d, l) {
      assert fs[0] in fs && OfNone(g, fs[1..], l);
    }
    forall f | f in fs ensures SwitchedBack(g, d0, e, f.path) {
      assert f == fs[0] || f in fs[1..];
    }
  }

  /**
    A rollback from any point of a finish. Its file steps all go through, and
    the files that get their original back are exactly those that could still
    go back; of the others no name is left. Where there was no file, what the
    finish made stays.
  */
  lemma SwitchExactly(
    g: Job, held: set<RelPath>, d: Disk, left: seq<Left>, slot: Option<Manifest>, torn: Bytes)
    returns (files: seq<Op>, ops: seq<Op>, back: Disk)
    requires ValidJob(g) && Underway(g, held, d) && Lists(d, left)
    ensures Plan(d, left, false, slot) == Ok(ops) && files <= ops && Run(d, AllCalls(files, torn)) == Some(back)
    ensures forall p :: p in g.items ==> SwitchedBack(g, d, back, p)
    ensures forall l: Loc :: l.name.Live? && Sub(l.dir, l.name.base) !in g.items ==> At(back, l) == At(d, l)
  {
    hide *;
    MarkerThere(g, held, d);
    OwnLeftovers(g, held, d);
    AllListed(g, held, d);
    var m := MarkerOf(d, g.tag).value;
    PlanIsTheMarkers(g, d, left, m, false, slot);
    SwitchHouses(g, held, d, m.files);
    files, back := SwitchedFiles(g, held, d, left, d, m.files, torn);
    NoneStray(g, d, left, m.files);
    ops := files + RemoveDirs(m.created) + [Remove(MarkerLoc(g.tag))] + Orphans(left, {g.tag});
    SwitchedPlan(d, left, g.tag, m, slot, files);
    SwitchedAll(g, d, back, m.files);
  }

  lemma SwitchHouses(g: Job, held: set<RelPath>, d: Disk, fs: seq<MarkedFile>)
    requires ValidJob(g) && Underway(g, held, d)
    ensures Housing(g, d) && forall f :: f in fs ==> AsPlanned(g, d, d, f.path)
  {
    hide MidSwap, Installable;
    forall p | p in g.items ensures IsDir(d, p.parent) {
      assert g.items[p] in g.manifest.files;
    }
  }

  lemma SwitchedPlan(d: Disk, left: seq<Left>, tag: string, m: SwapMarker, slot: Option<Manifest>, files: seq<Op>)
    requires FilesOps(d, left, tag, m.files, None) == Ok(files) && Strays(left, tag, m.files) == []
    ensures Finishing(m, false, slot, false) == Ok(None)
    ensures MarkerOps(d, left, tag, m, None) == Ok(files + RemoveDirs(m.created) + [Remove(MarkerLoc(tag))])
  {
    hide FilesOps, Strays, RemoveDirs;
    assert files + [] == files;
  }

  lemma SwitchedAll(g: Job, d: Disk, back: Disk, fs: seq<MarkedFile>)
    requires AllSwitched(g, d, d, back, fs) && MarksFit(g, fs) && forall p :: p in g.items ==> Listed(fs, p)
    ensures forall p :: p in g.items ==> SwitchedBack(g, d, back, p)
    ensures forall l: Loc :: l.name.Live? && Sub(l.dir, l.name.base) !in g.items ==> At(back, l) == At(d, l)
  {
    hide SwitchedBack;
    forall l: Loc | l.name.Live? && Sub(l.dir, l.name.base) !in g.items ensures At(back, l) == At(d, l) {
      assert OfNone(g, fs, l);
    }
  }

  /** After a crash in the swap window and any number of crashed finishes: the same, unless a finish was over. */
  lemma SwitchedInTheEnd(
    g: Job, run: seq<Disk>, r: Phase, crash: nat, tries: seq<Attempt>, left: seq<Left>, slot: Option<Manifest>,
    torn: Bytes)
    returns (files: seq<Op>, ops: seq<Op>, back: Disk)
    requires ValidJob(g) && Chronicle(g, run, r, false) && crash < |run| && PhaseOf(run[crash], g.tag) == Some(Swapping)
    requires InTurn(run[crash], tries, true) && Lists(Last(run[crash], tries), left)
    requires At(Last(run[crash], tries), MarkerLoc(g.tag)).Some?
    ensures var d := Last(run[crash], tries);
      && Plan(d, left, false, slot) == Ok(ops) && files <= ops && Run(d, AllCalls(files, torn)) == Some(back)
      && forall p :: p in g.items ==> SwitchedBack(g, d, back, p)
  {
    SwapPhase(g, run[crash]);
    hide *;
    var held := g.items.Keys;
    SwapWindow(g, run[crash]);
    CompletingStarts(g, held, run[crash]);
    CrashedFinishes(g, held, run[crash], tries);
    var d := Last(run[crash], tries);
    if !Underway(g, held, d) {
      NotUnderway(g, held, d);
    }
    files, ops, back := SwitchExactly(g, held, d, left, slot, torn);
  }

  lemma OneGoes(d: Disk, l: Loc, torn: Bytes) returns (e: Disk)
    requires IsDir(d, l.dir) && At(d, l).Some? && At(d, l).value.File?
    ensures Run(d, AllCalls([Remove(l)], torn)) == Some(e) && OnlyAt(d, e, l) && At(e, l).None?
  {
    e := Drop(d, l);
    OneOp(Remove(l), torn);
    OneCall(d, Discard(l));
  }

  lemma OneMoves(d: Disk, p: RelPath, tag: string, torn: Bytes) returns (e: Disk)
    requires At(d, PrevOf(p, tag)).Some? && At(d, PrevOf(p, tag)).value.File? && At(d, PrevOf(p, tag)) != At(d, Home(p))
    requires At(d, Home(p)).Some? ==> At(d, Home(p)).value.File?
    ensures Run(d, AllCalls([Move(p.parent, Prev(p.name, tag), Live(p.name))], torn)) == Some(e)
    ensures At(e, Home(p)) == At(d, PrevOf(p, tag)) && At(e, PrevOf(p, tag)).None?
    ensures forall l :: l != Home(p) && l != PrevOf(p, tag) ==> At(e, l) == At(d, l)
  {
    var c := Rename(p.parent, Prev(p.name, tag), Live(p.name));
    OneOp(Move(p.parent, Prev(p.name, tag), Live(p.name)), torn);
    OneCall(d, c);
    e := Do(d, c).value;
  }

  lemma UnderwayFile(g: Job, held: set<RelPath>, d: Disk, p: RelPath)
    requires Underway(g, held, d) && p in g.items
    ensures At(d, TempOf(p, g.tag)).Some? ==> At(d, TempOf(p, g.tag)).value.File?
    ensures At(d, PrevOf(p, g.tag)).Some? ==>
      At(d, PrevOf(p, g.tag)).value.File? && At(d, PrevOf(p, g.tag)) == At(g.orig, Home(p))
    ensures At(d, Home(p)).Some? ==> At(d, Home(p)).value.File?
    ensures At(d, TempOf(p, g.tag)).Some? || At(d, PrevOf(p, g.tag)).Some? ==> IsDir(d, p.parent)
  {
    assert Installable(g, d, p);
    InThere(g, held, d, p);
  }

  /**
    A finish that crashed once its first install had been renamed into place:
    the rollback after it takes the staged file for proof that the original is
    still there, and removes the last name of it.
  */
  lemma SwitchLoses(g: Job, d: Disk, left: seq<Left>, torn: Bytes) returns (crashed: Attempt)
    requires ValidJob(g) && Marked(g, d) && PhaseOf(d, g.tag) == Some(Swapping) && FinishReady(g, d) && Lists(d, left)
    requires var fs := MarkerOf(d, g.tag).value.files;
      fs != [] && At(g.orig, Home(fs[0].path)).Some? && At(d, TempOf(fs[0].path, g.tag)).Some?
    ensures CutShort(d, crashed, true) && Underway(g, g.items.Keys, crashed.after)
    ensures var p := MarkerOf(d, g.tag).value.files[0].path;
      p in g.items && !CanGoBack(g, crashed.after, p) && IsLost(g, crashed.after, p)
  {
    var held := g.items.Keys;
    var fs := MarkerOf(d, g.tag).value.files;
    var f := fs[0];
    var p := f.path;
    SwapWindow(g, d);
    AllListed(g, held, d);
    assert f in fs;
    UnderwayFile(g, held, d, p);
    hide *;
    var e2 := InstallCut(g, held, d, p, torn);
    var ops := FirstInstalls(g, held, d, left, torn);
    var made := StageCalls(p, g.tag, g.items[p], g.owners, torn) +
      [Rename(p.parent, InstallOf(p, g.tag).name, Live(p.name))];
    crashed := Attempt(left, Some(g.manifest), torn, |made|, e2);
    CutThere(d, crashed, ops, made);
    CannotGoBack(g, held, e2, p);
  }

  /** A rollback's file steps go through and leave `p` without its original, and no name of it. */
  ghost predicate LosesWith(g: Job, d: Disk, p: RelPath, left: seq<Left>, slot: Option<Manifest>, torn: Bytes) {
    exists files: seq<Op>, back: Disk ::
      && Plan(d, left, false, slot).Ok? && files <= Plan(d, left, false, slot).value
      && Run(d, AllCalls(files, torn)) == Some(back) && At(back, Home(p)) != At(g.orig, Home(p))
      && At(back, TempOf(p, g.tag)).None? && At(back, PrevOf(p, g.tag)).None?
  }

  ghost predicate IsLost(g: Job, d: Disk, p: RelPath) {
    forall left, slot, torn :: Lists(d, left) ==> LosesWith(g, d, p, left, slot, torn)
  }

  lemma CannotGoBack(g: Job, held: set<RelPath>, d: Disk, p: RelPath)
    requires ValidJob(g) && Underway(g, held, d) && p in g.items && At(g.orig, Home(p)).Some? && !CanGoBack(g, d, p)
    ensures IsLost(g, d, p)
  {
    hide Underway, ValidJob, Lists, Plan, Run, AllCalls, CanGoBack;
    forall left, slot, torn | Lists(d, left) ensures LosesWith(g, d, p, left, slot, torn) {
      var files, ops, back := SwitchExactly(g, held, d, left, slot, torn);
      assert SwitchedBack(g, d, back, p);
    }
  }

  lemma CutThere(d: Disk, a: Attempt, ops: seq<Op>, made: seq<Call>)
    requires Lists(d, a.left) && Plan(d, a.left, true, a.slot) == Ok(ops) && made <= AllCalls(ops, a.torn)
    requires a.made == |made| && Run(d, made) == Some(a.after)
    ensures CutShort(d, a, true)
  {
    assert AllCalls(ops, a.torn)[..|made|] == made;
  }

  /** The finish up to and including the rename of `p`'s install. */
  lemma InstallCut(g: Job, held: set<RelPath>, d: Disk, p: RelPath, torn: Bytes) returns (e: Disk)
    requires ValidJob(g) && Underway(g, held, d) && p in g.items && IsDir(d, p.parent) &&
      At(d, TempOf(p, g.tag)).Some? && At(g.orig, Home(p)).Some?
    ensures Run(d, StageCalls(p, g.tag, g.items[p], g.owners, torn) +
      [Rename(p.parent, InstallOf(p, g.tag).name, Live(p.name))]) == Some(e)
    ensures Underway(g, held, e) && At(e, TempOf(p, g.tag)).Some? && At(e, Home(p)) != At(g.orig, Home(p)) &&
      !CanGoBack(g, e, p)
  {
    hide Underway, Holds, Run, StageCalls;
    var own := InstallOf(p, g.tag);
    var a, c := StageCalls(p, g.tag, g.items[p], g.owners, torn), Rename(p.parent, own.name, Live(p.name));
    InstallApart(g, p);
    var m := StageInstall(g, held, d, p, torn);
    StretchEnds(g, held, d, m, a);
    e := RenameOwn(g, held, m, p);
    StretchEnds(g, held, m, e, [c]);
    RunConcat(d, a, [c]);
    assert SameAt(m, e, TempOf(p, g.tag));
    OwnIsNotOriginal(g, m, e, p);
  }

  lemma OwnIsNotOriginal(g: Job, m: Disk, e: Disk, p: RelPath)
    requires ValidJob(g) && Own(g, m, p) && Do(m, Rename(p.parent, InstallOf(p, g.tag).name, Live(p.name))) == Some(e)
    ensures At(e, Home(p)) != At(g.orig, Home(p))
  {
  }

  /** The plan of a finish begins with the install of the first file, if it is staged. */
  lemma FirstInstalls(g: Job, held: set<RelPath>, d: Disk, left: seq<Left>, torn: Bytes) returns (ops: seq<Op>)
    requires ValidJob(g) && Underway(g, held, d) && Lists(d, left)
    requires var fs := MarkerOf(d, g.tag).value.files;
      && fs != [] && fs[0].path in g.items
      && At(d, TempOf(fs[0].path, g.tag)).Some?
    ensures Plan(d, left, true, Some(g.manifest)) == Ok(ops)
    ensures var p := MarkerOf(d, g.tag).value.files[0].path;
      StageCalls(p, g.tag, g.items[p], g.owners, torn) +
        [Rename(p.parent, InstallOf(p, g.tag).name, Live(p.name))] <= AllCalls(ops, torn)
  {
    hide *;
    MarkerThere(g, held, d);
    var m := MarkerOf(d, g.tag).value;
    var files, e := FinishPlan(g, held, d, left, torn);
    ops := files + [Remove(MarkerLoc(g.tag))] + Orphans(left, {g.tag});
    PlannedNow(g, d, m.files[0]);
    PlannedFinish(g, d, left, d, m.files[0], m);
    FirstOp(g, d, left, m, files);
    InstallFirst(g, m.files[0].path, ops, torn);
  }

  lemma InstallFirst(g: Job, p: RelPath, ops: seq<Op>, torn: Bytes)
    requires p in g.items && ops != [] && ops[0] == Install(p, g.tag, g.items[p], g.owners)
    ensures StageCalls(p, g.tag, g.items[p], g.owners, torn) +
      [Rename(p.parent, InstallOf(p, g.tag).name, Live(p.name))] <= AllCalls(ops, torn)
  {
    hide StageCalls, Calls, AllCalls;
    var op := ops[0];
    assert ops == [op] + ops[1..];
    CallsConcat([op], ops[1..], torn);
    OneOp(op, torn);
    InstallIsThese(p, g.tag, g.items[p], g.owners, torn);
  }

  lemma PlannedNow(g: Job, d: Disk, f: MarkedFile)
    ensures AsPlanned(g, d, d, f.path)
  {
  }

  lemma FirstOp(g: Job, d: Disk, left: seq<Left>, m: SwapMarker, files: seq<Op>)
    requires m.files != [] && m.files[0].path in g.items && At(d, TempOf(m.files[0].path, g.tag)).Some?
    requires FilesOps(d, left, g.tag, m.files, Some(m)) == Ok(files)
    requires FileOps(d, left, g.tag, m.files[0], Some(m)) == Ok(FinishOps(g, d, m.files[0].path))
    ensures files != [] && files[0] == Install(m.files[0].path, g.tag, g.items[m.files[0].path], g.owners)
  {
    hide FileOps;
  }

  /**
    A restore whose `Swapping` record landed but whose fsync of it failed cleans
    up under that record. Once a staged file is discarded the restore cannot be
    finished: a finish still runs, and leaves the file as it was.
  */
  lemma UnsyncedLoses(g: Job, run: seq<Disk>, p: RelPath, left: seq<Left>, torn: Bytes)
    returns (e: Disk, ops: seq<Op>, end: Disk)
    requires ValidJob(g) && Chronicle(g, run, Swapping, false) && p in g.items
    requires var d := run[|run| - 1];
      && PhaseOf(d, g.tag) == Some(Swapping) && At(d, TempOf(p, g.tag)).Some? &&
        !Holds(d, Home(p), g.items[p], g.owners)
      && forall e :: Do(d, Discard(TempOf(p, g.tag))) == Some(e) ==> Lists(e, left)
    ensures Do(run[|run| - 1], Discard(TempOf(p, g.tag))) == Some(e)
    ensures Chronicle(g, run + [e], Swapping, true) && !Chronicle(g, run + [e], Swapping, false)
    ensures Plan(e, left, true, Some(g.manifest)) == Ok(ops) && Run(e, AllCalls(ops, torn)) == Some(end)
    ensures !Holds(end, Home(p), g.items[p], g.owners) && At(end, Home(p)) == At(run[|run| - 1], Home(p))
  {
    var d := run[|run| - 1];
    PhaseIsMarked(g, d);
    SwapWindow(g, d);
    hide *;
    e := StagedGoes(g, d, p);
    Weaken(g, run, Swapping);
    LostChronicle(g, run, e, p);
    ops, end := FinishCompletes(g, {}, e, left, torn);
    LostEnds(g, d, e, end, p);
  }

  lemma StagedGoes(g: Job, d: Disk, p: RelPath) returns (e: Disk)
    requires ValidJob(g) && Underway(g, g.items.Keys, d) && p in g.items && At(d, TempOf(p, g.tag)).Some?
    ensures Do(d, Discard(TempOf(p, g.tag))) == Some(e) && OnlyAt(d, e, TempOf(p, g.tag)) &&
      At(e, TempOf(p, g.tag)).None?
    ensures WF(e) && KeepsOriginals(g, d, e) && Underway(g, {}, e)
  {
    hide Underway, Body, MidSwap;
    UnderwayBody(g, g.items.Keys, d);
    StagedIsFile(g, d, p);
    e := Do(d, Discard(TempOf(p, g.tag))).value;
    NoneHeld(g, g.items.Keys, d);
    EntryCall(g, d, Discard(TempOf(p, g.tag)));
    BodyStep(g, d, e, TempOf(p, g.tag));
    HomesApart(g, p);
    GoneIsUnderway(g, d, e, p);
  }

  lemma StagedIsFile(g: Job, d: Disk, p: RelPath)
    requires Body(g, d) && p in g.items && At(d, TempOf(p, g.tag)).Some?
    ensures Do(d, Discard(TempOf(p, g.tag))).Some?
  {
    assert TempOf(p, g.tag) in d.tree;
  }

  lemma NoneHeld(g: Job, held: set<RelPath>, d: Disk)
    requires Underway(g, held, d)
    ensures Underway(g, {}, d)
  {
    hide MidSwap, Installable;
  }

  lemma GoneIsUnderway(g: Job, d: Disk, e: Disk, p: RelPath)
    requires ValidJob(g) && Underway(g, {}, d) && Body(g, e) && p in g.items && OnlyAt(d, e, TempOf(p, g.tag)) &&
      At(e, TempOf(p, g.tag)).None?
    ensures Underway(g, {}, e)
  {
    hide Underway, Body, ValidJob, Installable;
    UnderwayFileIs(g, {}, d, p);
    OthersSteady(g, d, e, p, TempOf(p, g.tag));
    StillInstallable(g, d, e, p, TempOf(p, g.tag));
    OneFileUnderway(g, {}, d, e, p);
  }

  lemma LostChronicle(g: Job, run: seq<Disk>, e: Disk, p: RelPath)
    requires ValidJob(g) && Chronicle(g, run, Swapping, true) && p in g.items
    requires var d := run[|run| - 1];
      && Marked(g, d) && PhaseOf(d, g.tag) == Some(Swapping) && !Holds(d, Home(p), g.items[p], g.owners)
      && OnlyAt(d, e, TempOf(p, g.tag)) && At(e, TempOf(p, g.tag)).None? && KeepsOriginals(g, d, e) && WF(e)
    ensures Chronicle(g, run + [e], Swapping, true) && !Chronicle(g, run + [e], Swapping, false)
  {
    hide FinishReady, Good, Marked, Body, WF, KeepsOriginals;
    var d, longer := run[|run| - 1], run + [e];
    NotReady(g, d, e, p);
    TempStep(g, d, e, p);
    Append(g, run, Swapping, true, e, Swapping);
    assert longer[|run|] == e && PhaseOf(e, g.tag) == Some(Swapping);
  }

  lemma NotReady(g: Job, d: Disk, e: Disk, p: RelPath)
    requires p in g.items && OnlyAt(d, e, TempOf(p, g.tag)) && At(e, TempOf(p, g.tag)).None? &&
      !Holds(d, Home(p), g.items[p], g.owners)
    ensures !FinishReady(g, e)
  {
    assert !Finishable(g, e, p);
  }

  lemma LostEnds(g: Job, d: Disk, e: Disk, end: Disk, p: RelPath)
    requires p in g.items && OnlyAt(d, e, TempOf(p, g.tag)) && At(e, TempOf(p, g.tag)).None? && AllOver(g, e, end)
    requires !Holds(d, Home(p), g.items[p], g.owners)
    ensures !Holds(end, Home(p), g.items[p], g.owners) && At(end, Home(p)) == At(d, Home(p))
  {
    assert SameAt(e, end, Home(p));
  }
}
