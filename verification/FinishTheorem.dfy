/**
  The guarantee of a finish: started from any crash in the swap window, cut by
  another crash any number of times, it leaves every file as the manifest says.
*/
module FinishTheorem {
  import opened Wrappers
  import opened Volume
  import opened RestoreState
  import opened RestoreSteps
  import opened RecoveryPlan
  import opened Runs
  import opened Rollback
  import opened RollbackDirs
  import opened RollbackTheorem
  import opened Afterwards
  import opened FinishRecovery

  /** Only `p`'s names and recovery's own file for it changed. */
  ghost predicate OthersSame(g: Job, d: Disk, e: Disk, p: RelPath) {
    forall l :: !IsHomeOf(l, p, g.tag) && l != InstallOf(p, g.tag) ==> SameAt(d, e, l)
  }

  /** The seven calls of one install, none of which is refused. */
  lemma InstallGoes(g: Job, held: set<RelPath>, d: Disk, p: RelPath, torn: Bytes) returns (e: Disk)
    requires ValidJob(g) && Underway(g, held, d) && p in g.items && IsDir(d, p.parent)
    ensures Stretch(g, held, d, e, Calls(Install(p, g.tag, g.items[p], g.owners), torn))
    ensures Holds(e, Home(p), g.items[p], g.owners) && At(e, TempOf(p, g.tag)).None? && At(e, InstallOf(p, g.tag)).None?
    ensures SameAt(d, e, PrevOf(p, g.tag)) && OthersSame(g, d, e, p)
  {
    hide Underway, ValidJob, Stretch, Own, Do, Holds, IsDir;
    var own := InstallOf(p, g.tag);
    var a, c, z := StageCalls(p, g.tag, g.items[p], g.owners, torn), Rename(p.parent, own.name, Live(p.name)),
      Discard(TempOf(p, g.tag));
    InstallApart(g, p);
    var e1 := StageInstall(g, held, d, p, torn);
    StretchEnds(g, held, d, e1, a);
    var e2 := RenameOwn(g, held, e1, p);
    StretchEnds(g, held, e1, e2, [c]);
    StretchThen(g, held, d, e1, e2, a, [c]);
    FolderKept(d, e1, e2, p, own);
    e := HiddenDropped(g, held, e2, p, TempOf(p, g.tag));
    StretchThen(g, held, d, e2, e, a + [c], [z]);
    HeldElsewhere(e2, e, p, TempOf(p, g.tag), g.items[p], g.owners);
    InstallIsThese(p, g.tag, g.items[p], g.owners, torn);
    InstallSame(g, d, e1, e2, e, p);
  }

  lemma InstallSame(g: Job, d: Disk, e1: Disk, e2: Disk, e: Disk, p: RelPath)
    requires OnlyAt(d, e1, InstallOf(p, g.tag)) &&
      (forall l :: l != Home(p) && l != InstallOf(p, g.tag) ==> SameAt(e1, e2, l))
    requires OnlyAt(e2, e, TempOf(p, g.tag)) && InstallOf(p, g.tag) != PrevOf(p, g.tag)
    ensures SameAt(d, e, PrevOf(p, g.tag)) && OthersSame(g, d, e, p)
  {
    forall l | l != Home(p) && l != InstallOf(p, g.tag) && l != TempOf(p, g.tag) ensures SameAt(d, e, l) {
      assert SameAt(e1, e2, l);
    }
  }

  lemma FolderKept(d: Disk, e1: Disk, e2: Disk, p: RelPath, l: Loc)
    requires IsDir(d, p.parent) && OnlyAt(d, e1, l) && !l.name.Live? &&
      forall x :: x != Home(p) && x != l ==> SameAt(e1, e2, x)
    ensures IsDir(e2, p.parent)
  {
    if p.parent.Sub? {
      var q: RelPath := p.parent;
      assert SameAt(e1, e2, Home(q));
    }
  }

  lemma HeldElsewhere(d: Disk, e: Disk, p: RelPath, l: Loc, f: Item, owners: bool)
    requires OnlyAt(d, e, l) && l != Home(p) && Holds(d, Home(p), f, owners)
    ensures Holds(e, Home(p), f, owners)
  {
  }

  lemma InstallIsThese(p: RelPath, tag: string, file: Item, owners: bool, torn: Bytes)
    ensures Calls(Install(p, tag, file, owners), torn) ==
      StageCalls(p, tag, file, owners, torn) + [Rename(p.parent, InstallOf(p, tag).name, Live(p.name))] +
        [Discard(TempOf(p, tag))]
  {
  }

  /** Between `d` and `e` a staged file took its place; one already in place stayed. */
  ghost predicate FileOver(g: Job, d: Disk, e: Disk, p: RelPath)
    requires p in g.items
  {
    && At(e, TempOf(p, g.tag)).None? && At(e, PrevOf(p, g.tag)).None?
    && (At(e, InstallOf(p, g.tag)).None? || At(e, InstallOf(p, g.tag)) == At(d, InstallOf(p, g.tag)))
    && if At(d, TempOf(p, g.tag)).Some? then Holds(e, Home(p), g.items[p], g.owners) else SameAt(d, e, Home(p))
  }

  /** What finishing one file comes to. */
  ghost predicate Finished(g: Job, held: set<RelPath>, d: Disk, e: Disk, p: RelPath, calls: seq<Call>)
    requires p in g.items
  {
    Stretch(g, held, d, e, calls) && FileOver(g, d, e, p) && OthersSame(g, d, e, p)
  }

  lemma {:induction false} FindItem(files: seq<Item>, f: Item)
    requires f in files && forall i, j :: 0 <= i < j < |files| ==> files[i].path != files[j].path
    ensures Find(files, f.path) == Some(f)
  {
    if files[0] != f {
      var i :| 0 <= i < |files| && files[i] == f;
      assert files[1..][i - 1] == f;
      FindItem(files[1..], f);
    }
  }

  lemma BackupHas(g: Job, p: RelPath)
    requires ValidJob(g) && p in g.items
    ensures Find(g.manifest.files, p) == Some(g.items[p])
  {
    FindItem(g.manifest.files, g.items[p]);
  }

  /** The steps a finish plans for one file. */
  function FinishOps(g: Job, d: Disk, p: RelPath): seq<Op>
    requires p in g.items
  {
    (if At(d, TempOf(p, g.tag)).Some? then [Install(p, g.tag, g.items[p], g.owners)] else []) +
      RemoveIf(At(d, PrevOf(p, g.tag)), PrevOf(p, g.tag))
  }

  lemma PlannedFinish(g: Job, d0: Disk, left: seq<Left>, d: Disk, f: MarkedFile, m: SwapMarker)
    requires ValidJob(g) && Lists(d0, left) && f.path in g.items && m.manifest == g.manifest && m.owners == g.owners &&
      AsPlanned(g, d0, d, f.path)
    ensures FileOps(d0, left, g.tag, f, Some(m)) == Ok(FinishOps(g, d, f.path))
  {
    hide Lists, ValidJob, KindOf, Find;
    KindOfListed(d0, left, TempOf(f.path, g.tag));
    KindOfListed(d0, left, PrevOf(f.path, g.tag));
    BackupHas(g, f.path);
    var v := RemoveIf(At(d, PrevOf(f.path, g.tag)), PrevOf(f.path, g.tag));
    assert [] + v == v;
  }

  lemma FileFinish(g: Job, held: set<RelPath>, d: Disk, p: RelPath, torn: Bytes) returns (e: Disk)
    requires ValidJob(g) && Underway(g, held, d) && p in g.items
    ensures Finished(g, held, d, e, p, AllCalls(FinishOps(g, d, p), torn))
  {
    hide Underway, ValidJob, Stretch, Holds, Calls, IsDir;
    var t, v := TempOf(p, g.tag), PrevOf(p, g.tag);
    InThere(g, held, d, p);
    var m, a := d, [];
    StretchNone(g, held, d);
    if At(d, t).Some? {
      a := [Install(p, g.tag, g.items[p], g.owners)];
      m := InstallGoes(g, held, d, p, torn);
      OneOp(a[0], torn);
    }
    StretchEnds(g, held, d, m, AllCalls(a, torn));
    var b := RemoveIf(At(d, v), v);
    e := m;
    if At(d, v).Some? {
      InThere(g, held, m, p);
      assert SameAt(d, m, v);
      e := HiddenDropped(g, held, m, p, v);
      assert Calls(Remove(v), torn) == [Discard(v)] by {
        CallsOfRemove(v, torn);
      }
      OneOp(Remove(v), torn);
      if At(d, t).Some? {
        HeldElsewhere(m, e, p, v, g.items[p], g.owners);
      }
    } else {
      StretchNone(g, held, m);
    }
    StretchThen(g, held, d, m, e, AllCalls(a, torn), AllCalls(b, torn));
    CallsConcat(a, b, torn);
  }

  lemma CallsOfRemove(l: Loc, torn: Bytes)
    ensures Calls(Remove(l), torn) == [Discard(l)]
  {
  }

  lemma InThere(g: Job, held: set<RelPath>, d: Disk, p: RelPath)
    requires Underway(g, held, d) && p in g.items
    ensures At(d, TempOf(p, g.tag)).Some? || At(d, PrevOf(p, g.tag)).Some? ==> IsDir(d, p.parent)
  {
    assert At(d, TempOf(p, g.tag)).Some? ==> TempOf(p, g.tag) in d.tree;
    assert At(d, PrevOf(p, g.tag)).Some? ==> PrevOf(p, g.tag) in d.tree;
  }

  ghost predicate NoneOf(g: Job, fs: seq<MarkedFile>, l: Loc) {
    forall f :: f in fs ==> !IsHomeOf(l, f.path, g.tag) && l != InstallOf(f.path, g.tag)
  }

  /** What finishing several files comes to. */
  ghost predicate AllFinished(g: Job, held: set<RelPath>, d: Disk, e: Disk, fs: seq<MarkedFile>, calls: seq<Call>) {
    && Stretch(g, held, d, e, calls)
    && (forall f :: f in fs ==> f.path in g.items && FileOver(g, d, e, f.path))
    && (forall l :: NoneOf(g, fs, l) ==> SameAt(d, e, l))
  }

  lemma {:induction false} FilesFinish(
    g: Job, held: set<RelPath>, d0: Disk, left: seq<Left>, d: Disk, fs: seq<MarkedFile>, m: SwapMarker, torn: Bytes)
    returns (e: Disk, ops: seq<Op>)
    requires ValidJob(g) && Underway(g, held, d) && Lists(d0, left) && MarksFit(g, fs) && m.manifest == g.manifest &&
      m.owners == g.owners
    requires forall f :: f in fs ==> AsPlanned(g, d0, d, f.path)
    ensures FilesOps(d0, left, g.tag, fs, Some(m)) == Ok(ops) && AllFinished(g, held, d, e, fs, AllCalls(ops, torn))
    decreases |fs|
  {
    hide Underway, Lists, Stretch, Finished, FileOps, FileOver, ValidJob, FinishOps, AsPlanned;
    if fs == [] {
      StretchNone(g, held, d);
      NothingFinished(g, held, d);
      return d, [];
    }
    assert fs[0] in fs;
    var first := FinishOps(g, d, fs[0].path);
    PlannedFinish(g, d0, left, d, fs[0], m);
    var k := FileFinish(g, held, d, fs[0].path, torn);
    AfterFirst(g, held, d0, d, k, fs, AllCalls(first, torn));
    hide AllFinished;
    var rest;
    e, rest := FilesFinish(g, held, d0, left, k, fs[1..], m, torn);
    ops := first + rest;
    CallsConcat(first, rest, torn);
    FirstToo(g, held, d, k, e, fs, AllCalls(first, torn), AllCalls(rest, torn));
  }

  lemma NothingFinished(g: Job, held: set<RelPath>, d: Disk)
    requires Stretch(g, held, d, d, [])
    ensures AllFinished(g, held, d, d, [], [])
  {
    hide Stretch;
  }

  lemma AfterFirst(g: Job, held: set<RelPath>, d0: Disk, d: Disk, k: Disk, fs: seq<MarkedFile>, calls: seq<Call>)
    requires fs != [] && MarksFit(g, fs) && fs[0].path in g.items && Finished(g, held, d, k, fs[0].path, calls)
    requires forall f :: f in fs ==> AsPlanned(g, d0, d, f.path)
    ensures Underway(g, held, k) && MarksFit(g, fs[1..]) && forall f :: f in fs[1..] ==> AsPlanned(g, d0, k, f.path)
  {
    hide Underway, Stretch, FileOver;
    StretchEnds(g, held, d, k, calls);
    forall f | f in fs[1..] ensures f in fs && f.path != fs[0].path {
    }
    forall f | f in fs[1..] ensures AsPlanned(g, d0, k, f.path) {
      InstallApart(g, fs[0].path);
      assert SameAt(d, k, Home(f.path)) && SameAt(d, k, TempOf(f.path, g.tag)) && SameAt(d, k, PrevOf(f.path, g.tag));
      assert AsPlanned(g, d0, d, f.path);
    }
  }

  lemma FirstToo(g: Job, held: set<RelPath>, d: Disk, k: Disk, e: Disk, fs: seq<MarkedFile>, a: seq<Call>, b: seq<Call>)
    requires fs != [] && MarksFit(g, fs) && fs[0].path in g.items && Finished(g, held, d, k, fs[0].path, a)
    requires AllFinished(g, held, k, e, fs[1..], b)
    ensures AllFinished(g, held, d, e, fs, a + b)
  {
    hide Stretch, FileOver, MarksFit;
    StretchThen(g, held, d, k, e, a, b);
    forall f | f in fs ensures f.path in g.items && FileOver(g, d, e, f.path) {
      if f in fs[1..] {
        RestOver(g, held, d, k, e, fs, a, b, f);
      } else {
        FirstOver(g, held, d, k, e, fs, a, b);
      }
    }
    forall l | NoneOf(g, fs, l) ensures SameAt(d, e, l) {
      assert fs[0] in fs && NoneOf(g, fs[1..], l);
      assert SameAt(d, k, l) && SameAt(k, e, l);
    }
  }

  lemma RestOver(
      g: Job, held: set<RelPath>, d: Disk, k: Disk, e: Disk, fs: seq<MarkedFile>, a: seq<Call>, b: seq<Call>,
      f: MarkedFile)
    requires fs != [] && MarksFit(g, fs) && fs[0].path in g.items && Finished(g, held, d, k, fs[0].path, a)
    requires AllFinished(g, held, k, e, fs[1..], b) && f in fs[1..]
    ensures f.path in g.items && FileOver(g, d, e, f.path)
  {
    hide Stretch;
    assert f in fs && f.path != fs[0].path && FileOver(g, k, e, f.path);
    InstallApart(g, f.path);
    InstallApart(g, fs[0].path);
    hide AllFinished, MarksFit;
    assert SameAt(d, k, Home(f.path)) && SameAt(d, k, TempOf(f.path, g.tag)) && SameAt(d, k, InstallOf(f.path, g.tag));
  }

  lemma FirstOver(
      g: Job, held: set<RelPath>, d: Disk, k: Disk, e: Disk, fs: seq<MarkedFile>, a: seq<Call>, b: seq<Call>)
    requires fs != [] && MarksFit(g, fs) && fs[0].path in g.items && Finished(g, held, d, k, fs[0].path, a)
    requires AllFinished(g, held, k, e, fs[1..], b)
    ensures FileOver(g, d, e, fs[0].path)
  {
    hide Stretch;
    var p := fs[0].path;
    FirstApart(g, fs);
    hide MarksFit, NoneOf;
    assert SameAt(k, e, Home(p)) && SameAt(k, e, TempOf(p, g.tag)) && SameAt(k, e, PrevOf(p, g.tag)) &&
      SameAt(k, e, InstallOf(p, g.tag));
  }

  lemma FirstApart(g: Job, fs: seq<MarkedFile>)
    requires fs != [] && MarksFit(g, fs)
    ensures forall l :: IsHomeOf(l, fs[0].path, g.tag) || l == InstallOf(fs[0].path, g.tag) ==> NoneOf(g, fs[1..], l)
  {
    forall f | f in fs[1..] ensures f.path != fs[0].path && f.path in g.items {
      assert f in fs;
    }
    assert |InstallTag(g.tag)| > |g.tag|;
  }

  /** Mid-swap, everything a restore left is its own file. */
  lemma OwnLeftovers(g: Job, held: set<RelPath>, d: Disk)
    requires ValidJob(g) && Underway(g, held, d)
    ensures OwnFilesOnly(g, d)
  {
    forall l | l in d.tree && !l.name.Live? ensures d.tree[l].File? && Touched(g, l) {
      assert At(g.orig, l).None? && At(d, l).Some?;
      assert l.name.Temp? ==> l == TempOf(Sub(l.dir, l.name.base), l.name.tag);
      assert l.name.Prev? ==> l == PrevOf(Sub(l.dir, l.name.base), g.tag) && Installable(g, d, Sub(l.dir, l.name.base));
    }
  }

  /** The marker lists every file, so there are no strays. */
  lemma AllListed(g: Job, held: set<RelPath>, d: Disk)
    requires ValidJob(g) && Underway(g, held, d)
    ensures MarksFit(g, MarkerOf(d, g.tag).value.files) &&
      forall p :: p in g.items ==> Listed(MarkerOf(d, g.tag).value.files, p)
  {
    hide Body, Installable;
    var fs := MarkerOf(d, g.tag).value.files;
    forall i | 0 <= i < |fs| ensures fs[i].path in g.items {
      assert g.manifest.files[i] in g.manifest.files;
    }
    forall p | p in g.items ensures Listed(fs, p) {
      var i :| 0 <= i < |g.manifest.files| && g.manifest.files[i] == g.items[p];
      assert fs[i] in fs && fs[i].path == p;
    }
  }

  lemma {:induction false} NoStrays(left: seq<Left>, tag: string, fs: seq<MarkedFile>)
    requires forall x :: x in left ==> !IsStray(x, tag, fs)
    ensures Strays(left, tag, fs) == []
  {
    if left != [] {
      NoStrays(left[1..], tag, fs);
    }
  }

  /** The plan of a finish: its file steps, the marker, and what no marker owns. */
  lemma FinishPlan(g: Job, held: set<RelPath>, d: Disk, left: seq<Left>, torn: Bytes) returns (files: seq<Op>, e: Disk)
    requires ValidJob(g) && Underway(g, held, d) && Lists(d, left)
    ensures Plan(d, left, true, Some(g.manifest)) == Ok(files + [Remove(MarkerLoc(g.tag))] + Orphans(left, {g.tag}))
    ensures FilesOps(d, left, g.tag, MarkerOf(d, g.tag).value.files, MarkerOf(d, g.tag)) == Ok(files)
    ensures AllFinished(g, held, d, e, MarkerOf(d, g.tag).value.files, AllCalls(files, torn))
  {
    var m := MarkerOf(d, g.tag).value;
    MarkerThere(g, held, d);
    OwnLeftovers(g, held, d);
    PlanIsTheMarkers(g, d, left, m, true, Some(g.manifest));
    AllListed(g, held, d);
    hide Underway, ValidJob, AllFinished, FilesOps, Orphans, Lists, Strays, Plan, Touched, MarksFit;
    e, files := FilesFinish(g, held, d, left, d, m.files, m, torn);
    NoneStray(g, d, left, m.files);
    assert files + [] == files && files + [] + [] == files;
  }

  lemma NoneStray(g: Job, d: Disk, left: seq<Left>, fs: seq<MarkedFile>)
    requires OwnFilesOnly(g, d) && Lists(d, left) && forall p :: p in g.items ==> Listed(fs, p)
    ensures Strays(left, g.tag, fs) == []
  {
    forall x | x in left ensures !IsStray(x, g.tag, fs) {
      assert Touched(g, x.at);
    }
    NoStrays(left, g.tag, fs);
  }

  lemma MarkerThere(g: Job, held: set<RelPath>, d: Disk)
    requires Underway(g, held, d)
    ensures MarkerLoc(g.tag) in d.tree && MarkerOf(d, g.tag).Some?
    ensures var m := MarkerOf(d, g.tag).value; m.phase == Swapping && m.manifest == g.manifest && m.owners == g.owners
  {
  }

  /** Once every file is in place the marker goes. */
  lemma MarkerDone(g: Job, held: set<RelPath>, d: Disk, e: Disk, calls: seq<Call>) returns (after: Disk)
    requires ValidJob(g) && Underway(g, held, d) && AllFinished(g, held, d, e, MarkerOf(d, g.tag).value.files, calls)
    ensures Do(e, Discard(MarkerLoc(g.tag))) == Some(after) && Over(g, held, after) &&
      OnlyAt(e, after, MarkerLoc(g.tag))
  {
    hide Stretch, Body, ValidJob, MidSwap, Installable, MarksFit;
    AllListed(g, held, d);
    StretchEnds(g, held, d, e, calls);
    UnderwayBody(g, held, e);
    MarkerThere(g, held, e);
    var fs := MarkerOf(d, g.tag).value.files;
    forall p | p in g.items ensures At(e, TempOf(p, g.tag)).None? && At(e, PrevOf(p, g.tag)).None? {
      var f :| f in fs && f.path == p;
      assert FileOver(g, d, e, p);
    }
    hide FileOver, AllFinished, Underway;
    after := MarkerDiscarded(g, held, e);
  }

  lemma MarkerDiscarded(g: Job, held: set<RelPath>, d: Disk) returns (e: Disk)
    requires ValidJob(g) && Underway(g, held, d)
    requires forall p :: p in g.items ==> At(d, TempOf(p, g.tag)).None? && At(d, PrevOf(p, g.tag)).None?
    ensures Do(d, Discard(MarkerLoc(g.tag))) == Some(e) && Over(g, held, e) && OnlyAt(d, e, MarkerLoc(g.tag))
  {
    hide Body, Installable, MarkerShape;
    UnderwayBody(g, held, d);
    e := Do(d, Discard(MarkerLoc(g.tag))).value;
    EntryCall(g, d, Discard(MarkerLoc(g.tag)));
    BodyStep(g, d, e, MarkerLoc(g.tag));
  }

  /** After the marker only scratch files are left, all of them found before. */
  lemma FinishedTidy(
      g: Job, held: set<RelPath>, d: Disk, e: Disk, after: Disk, end: Disk, left: seq<Left>, calls: seq<Call>)
    requires ValidJob(g) && Underway(g, held, d) && Lists(d, left) &&
      AllFinished(g, held, d, e, MarkerOf(d, g.tag).value.files, calls)
    requires OnlyAt(e, after, MarkerLoc(g.tag)) && Over(g, held, end)
    requires forall x :: x in left && !Owned(x, {g.tag}) ==> At(end, x.at).None?
    requires forall l :: At(end, l) == At(after, l) || At(end, l).None?
    ensures Tidied(end)
  {
    AllListed(g, held, d);
    OverLeftovers(g, held, end);
    hide Underway, Stretch, Over, ValidJob, Touched, OwnFilesOnly, AllFinished, Spent, Scratch, Owned, OnlyAt, Listed;
    forall l | Spent(g, l) ensures At(end, l).None? {
      SpentKept(g, held, d, e, MarkerOf(d, g.tag).value.files, calls, l);
      MarkerApart(g, e, after, l);
      if At(e, l).Some? {
        var x := Left(l, d.tree[l]);
        assert x in left && !Owned(x, {g.tag});
      }
    }
  }

  lemma MarkerApart(g: Job, e: Disk, after: Disk, l: Loc)
    requires OnlyAt(e, after, MarkerLoc(g.tag)) && l != MarkerLoc(g.tag)
    ensures At(after, l) == At(e, l)
  {
  }

  lemma SpentKept(g: Job, held: set<RelPath>, d: Disk, e: Disk, fs: seq<MarkedFile>, calls: seq<Call>, l: Loc)
    requires ValidJob(g) && AllFinished(g, held, d, e, fs, calls) && Spent(g, l) &&
      forall p :: p in g.items ==> Listed(fs, p)
    ensures l != MarkerLoc(g.tag) && (At(e, l).Some? ==> Scratch(g, l) && l in d.tree)
    ensures Scratch(g, l) && l in d.tree ==> !Owned(Left(l, d.tree[l]), {g.tag})
  {
    hide Stretch, ValidJob;
    assert |InstallTag(g.tag)| > |g.tag|;
    if l == NextLoc(g.tag) {
      assert NoneOf(g, fs, l);
      assert SameAt(d, e, l);
    } else {
      var p := Sub(l.dir, l.name.base);
      assert l == InstallOf(p, g.tag) || l == PrevOf(p, g.tag);
      var f :| f in fs && f.path == p;
      assert FileOver(g, d, e, p);
    }
  }

  /** What `held` promises, once nothing is staged any more. */
  lemma {:induction false} LastCalls(
      g: Job, held: set<RelPath>, d: Disk, e: Disk, files: seq<Op>, left: seq<Left>, torn: Bytes)
    returns (end: Disk)
    requires ValidJob(g) && Underway(g, held, d) && Lists(d, left)
    requires AllFinished(g, held, d, e, MarkerOf(d, g.tag).value.files, AllCalls(files, torn))
    ensures var calls := [Discard(MarkerLoc(g.tag))] + AllCalls(Orphans(left, {g.tag}), torn);
      Run(e, calls) == Some(end) && Keeps(CompletingBy(g, held), e, calls)
    ensures Over(g, held, end) && Tidied(end) && LiveSame(e, end)
  {
    hide Underway, Over, AllFinished, Stretch, ValidJob, Lists, Orphans, AllCalls, Spent, Tidied, Owned;
    var calls := AllCalls(files, torn);
    var last, rest := [Discard(MarkerLoc(g.tag))], AllCalls(Orphans(left, {g.tag}), torn);
    var after := MarkerDone(g, held, d, e, calls);
    OrphansAreSpent(g, held, d, e, after, left, calls);
    end := OrphansSpent(g, held, after, left, {g.tag}, torn);
    FinishedTidy(g, held, d, e, after, end, left, calls);
    OneCall(e, last[0]);
    RunConcat(e, last, rest);
    FinishedEnds(g, held, d, e, calls);
    assert CompletingBy(g, held)(e) && CompletingBy(g, held)(after);
    assert last[1..] == [];
    assert Keeps(CompletingBy(g, held), after, last[1..]);
    OverIsCompleting(g, held, after, rest);
    KeepsConcat(CompletingBy(g, held), e, last, rest);
    LiveAfter(g, held, e, after, end);
  }

  lemma FinishedEnds(g: Job, held: set<RelPath>, d: Disk, e: Disk, calls: seq<Call>)
    requires Underway(g, held, d) && AllFinished(g, held, d, e, MarkerOf(d, g.tag).value.files, calls)
    ensures Underway(g, held, e) && Run(d, calls) == Some(e) && Keeps(CompletingBy(g, held), d, calls)
  {
    hide Underway;
  }

  lemma LiveAfter(g: Job, held: set<RelPath>, e: Disk, after: Disk, end: Disk)
    requires OnlyAt(e, after, MarkerLoc(g.tag)) && LiveSame(after, end)
    ensures LiveSame(e, end)
  {
  }

  lemma {:induction false} OverIsCompleting(g: Job, held: set<RelPath>, d: Disk, calls: seq<Call>)
    requires Keeps(OverBy(g, held), d, calls)
    ensures Keeps(CompletingBy(g, held), d, calls)
    decreases |calls|
  {
    hide Over, Underway;
    assert OverBy(g, held)(d);
    assert CompletingBy(g, held)(d);
    if calls != [] && Do(d, calls[0]).Some? {
      OverIsCompleting(g, held, Do(d, calls[0]).value, calls[1..]);
    }
  }

  lemma OrphansAreSpent(g: Job, held: set<RelPath>, d: Disk, e: Disk, after: Disk, left: seq<Left>, calls: seq<Call>)
    requires ValidJob(g) && Underway(g, held, d) && Lists(d, left) &&
      AllFinished(g, held, d, e, MarkerOf(d, g.tag).value.files, calls)
    requires OnlyAt(e, after, MarkerLoc(g.tag)) && Over(g, held, after)
    ensures forall x :: x in left && !Owned(x, {g.tag}) ==> Spent(g, x.at) && IsDir(after, x.at.dir)
  {
    hide Underway, Stretch, Over, AllFinished, ValidJob, Body;
    OwnLeftovers(g, held, d);
    DirsStay(g, held, d, e, after, calls);
    UnderwayBody(g, held, d);
    forall x | x in left && !Owned(x, {g.tag}) ensures Spent(g, x.at) && IsDir(after, x.at.dir) {
      assert Touched(g, x.at) && x.at in d.tree;
      BodyIn(g, d, x.at);
    }
  }

  lemma BodyIn(g: Job, d: Disk, l: Loc)
    requires Body(g, d) && l in d.tree
    ensures IsDir(d, l.dir)
  {
  }

  /** A finish moves no directory. */
  lemma DirsStay(g: Job, held: set<RelPath>, d: Disk, e: Disk, after: Disk, calls: seq<Call>)
    requires ValidJob(g) && Underway(g, held, d) && AllFinished(g, held, d, e, MarkerOf(d, g.tag).value.files, calls)
    requires OnlyAt(e, after, MarkerLoc(g.tag))
    ensures forall p :: IsDir(d, p) ==> IsDir(after, p)
  {
    hide *;
    forall p | IsDir(d, p) ensures IsDir(after, p) {
      DirStays(g, held, d, e, after, calls, p);
    }
  }

  lemma DirStays(g: Job, held: set<RelPath>, d: Disk, e: Disk, after: Disk, calls: seq<Call>, p: Path)
    requires ValidJob(g) && Underway(g, held, d) && AllFinished(g, held, d, e, MarkerOf(d, g.tag).value.files, calls)
    requires OnlyAt(e, after, MarkerLoc(g.tag)) && IsDir(d, p)
    ensures IsDir(after, p)
  {
    hide Underway, AllFinished, ValidJob;
    if p.Sub? {
      HomeIsNoDir(g, held, d, p);
      OthersStay(g, held, d, e, calls, Home(p));
    }
  }

  lemma HomeIsNoDir(g: Job, held: set<RelPath>, d: Disk, p: RelPath)
    requires Underway(g, held, d)
    ensures p in g.items ==> At(d, Home(p)) != Some(Dir)
  {
    if p in g.items {
      assert Installable(g, d, p);
    }
  }

  /** The file steps move no live name outside the manifest. */
  lemma OthersStay(g: Job, held: set<RelPath>, d: Disk, e: Disk, calls: seq<Call>, l: Loc)
    requires ValidJob(g) && Underway(g, held, d) && AllFinished(g, held, d, e, MarkerOf(d, g.tag).value.files, calls)
    requires l.name.Live? && Sub(l.dir, l.name.base) !in g.items
    ensures SameAt(d, e, l)
  {
    hide Underway, Stretch, FileOver, ValidJob;
    MarkerThere(g, held, d);
    AllListed(g, held, d);
    NotListed(g, MarkerOf(d, g.tag).value.files, l);
  }

  lemma NotListed(g: Job, fs: seq<MarkedFile>, l: Loc)
    requires MarksFit(g, fs) && l.name.Live? && Sub(l.dir, l.name.base) !in g.items
    ensures NoneOf(g, fs, l)
  {
  }

  lemma EachOver(g: Job, held: set<RelPath>, d: Disk, e: Disk, calls: seq<Call>, p: RelPath)
    requires ValidJob(g) && Underway(g, held, d) && AllFinished(g, held, d, e, MarkerOf(d, g.tag).value.files, calls) &&
      p in g.items
    ensures FileOver(g, d, e, p)
  {
    AllListed(g, held, d);
    hide Underway, Stretch, FileOver, ValidJob;
    var f :| f in MarkerOf(d, g.tag).value.files && f.path == p;
  }

  /** What every file comes to between the start of a finish and its end. */
  ghost predicate AllOver(g: Job, d: Disk, end: Disk) {
    forall p :: p in g.items ==>
      if At(d, TempOf(p, g.tag)).Some? then Holds(end, Home(p), g.items[p], g.owners) else SameAt(d, end, Home(p))
  }

  lemma AllAreOver(g: Job, held: set<RelPath>, d: Disk, e: Disk, end: Disk, calls: seq<Call>)
    requires ValidJob(g) && Underway(g, held, d) && AllFinished(g, held, d, e, MarkerOf(d, g.tag).value.files, calls) &&
      LiveSame(e, end)
    ensures AllOver(g, d, end)
    ensures forall l: Loc :: l.name.Live? && Sub(l.dir, l.name.base) !in g.items ==> SameAt(d, end, l)
  {
    hide Underway, AllFinished, ValidJob;
    forall p | p in g.items
      ensures if At(d, TempOf(p, g.tag)).Some? then Holds(end, Home(p), g.items[p], g.owners)
        else SameAt(d, end, Home(p))
    {
      EachOver(g, held, d, e, calls, p);
    }
    forall l: Loc | l.name.Live? && Sub(l.dir, l.name.base) !in g.items ensures SameAt(d, end, l) {
      OthersStay(g, held, d, e, calls, l);
    }
  }

  /**
    Finishing, from any crash in the swap window or of an earlier finish. No
    call is refused, and whenever a crash cuts the run the disk is one this
    theorem applies to again. At the end every staged file is in place with
    the manifest's bytes, mode and owner, files already in place are the same
    inodes, nothing else live has moved, and no leftover remains. So every file
    is as the manifest says exactly when those that were no longer staged
    already were.
  */
  lemma FinishCompletes(g: Job, held: set<RelPath>, d: Disk, left: seq<Left>, torn: Bytes)
    returns (ops: seq<Op>, end: Disk)
    requires ValidJob(g) && Underway(g, held, d) && Lists(d, left)
    ensures Plan(d, left, true, Some(g.manifest)) == Ok(ops)
    ensures Run(d, AllCalls(ops, torn)) == Some(end) && Keeps(CompletingBy(g, held), d, AllCalls(ops, torn))
    ensures Over(g, held, end) && Tidied(end)
    ensures forall l: Loc :: l.name.Live? && Sub(l.dir, l.name.base) !in g.items ==> SameAt(d, end, l)
    ensures AllOver(g, d, end)
    ensures (forall p :: p in g.items ==> Holds(end, Home(p), g.items[p], g.owners)) <==>
      (forall p :: p in g.items && At(d, TempOf(p, g.tag)).None? ==> Holds(d, Home(p), g.items[p], g.owners))
  {
    hide *;
    var files, e := FinishPlan(g, held, d, left, torn);
    end := LastCalls(g, held, d, e, files, left, torn);
    FinishedEnds(g, held, d, e, AllCalls(files, torn));
    AllAreOver(g, held, d, e, end, AllCalls(files, torn));
    HeldExactly(g, d, end);
    var last, rest := [Remove(MarkerLoc(g.tag))], Orphans(left, {g.tag});
    ops := files + last + rest;
    CallsConcat(files + last, rest, torn);
    CallsConcat(files, last, torn);
    OneOp(last[0], torn);
    CallsOfRemove(MarkerLoc(g.tag), torn);
    var tail := [Discard(MarkerLoc(g.tag))] + AllCalls(rest, torn);
    assert AllCalls(ops, torn) == AllCalls(files, torn) + tail;
    RunConcat(d, AllCalls(files, torn), tail);
    KeepsConcat(CompletingBy(g, held), d, AllCalls(files, torn), tail);
  }

  lemma HeldExactly(g: Job, d: Disk, end: Disk)
    requires AllOver(g, d, end)
    ensures (forall p :: p in g.items ==> Holds(end, Home(p), g.items[p], g.owners)) <==>
      (forall p :: p in g.items && At(d, TempOf(p, g.tag)).None? ==> Holds(d, Home(p), g.items[p], g.owners))
  {
    assert forall p :: p in g.items && SameAt(d, end, Home(p)) ==>
      Holds(end, Home(p), g.items[p], g.owners) == Holds(d, Home(p), g.items[p], g.owners);
    if forall p :: p in g.items ==> Holds(end, Home(p), g.items[p], g.owners) {
      forall p | p in g.items && At(d, TempOf(p, g.tag)).None? ensures Holds(d, Home(p), g.items[p], g.owners) {
        assert Holds(end, Home(p), g.items[p], g.owners);
      }
    }
  }
}
