/**
  What the restore's own bookkeeping means on disk, step by step, and that each
  step keeps it: the case each staged file is in while it is staged, set aside,
  swapped, put back and cleaned up.
*/
module RestoreFrames {
  import opened Wrappers
  import opened Volume
  import opened RestoreState
  import opened RestoreSteps
  import opened Chronicles
  import opened DepthSort

  /** A staged file; `aside` when its original is linked aside, `displaced` when only that link holds it. */
  datatype StagedFile = StagedFile(path: RelPath, aside: bool, displaced: bool)

  datatype Problem =
    | NotPutBack(path: RelPath)
    | NotRemoved(at: Loc)
    | OriginalKept(path: RelPath)
    | DirNotRemoved(path: RelPath)
    | NotDurable

  function Marks(staged: seq<StagedFile>): seq<MarkedFile> {
    seq(|staged|, i requires 0 <= i < |staged| => MarkedFile(staged[i].path, staged[i].aside))
  }

  /** Where file contents are written: a marker update, or a temp file that is still being staged. */
  ghost predicate Fillable(g: Job, d: Disk, l: Loc) {
    || Scratch(g, l)
    || (l.name.Temp? && l.name.tag == g.tag && Sub(l.dir, l.name.base) in g.items
        && Marked(g, d) && MarkerOf(d, g.tag).value.phase == Staging)
  }

  lemma FillStep(g: Job, a: Disk, b: Disk, l: Loc)
    requires ValidJob(g) && Good(g, a) && Fillable(g, a, l) && WF(b) && OnlyAt(a, b, l) && KeepsOriginals(g, a, b)
    requires IsNew(g, At(b, l))
    ensures Sound(g, a, b) && Fillable(g, b, l)
    ensures MarkerOf(b, g.tag) == MarkerOf(a, g.tag) && At(b, MarkerLoc(g.tag)) == At(a, MarkerLoc(g.tag))
    ensures PhaseOf(a, g.tag) == Some(Swapping) && FinishReady(g, a) ==> FinishReady(g, b)
  {
    if Scratch(g, l) {
      ScratchApart(g, l);
      ScratchStep(g, a, b, l);
    } else {
      TempStep(g, a, b, Sub(l.dir, l.name.base));
    }
  }

  lemma ParentIsThere(g: Job, d: Disk, sorted: seq<RelPath>, i: nat)
    requires ValidJob(g) && sorted == ByDepth(g.manifest.dirs) && i < |sorted|
    requires forall j :: 0 <= j < i ==> At(d, Home(sorted[j])) == Some(Dir)
    ensures IsDir(d, sorted[i].parent) && sorted[i] in g.dirs && sorted[i] !in sorted[..i]
    ensures forall x :: x in sorted[..i] ==> x.parent != sorted[i]
  {
    ParentsFirst(g.manifest.dirs);
    var c := sorted[i];
    assert c in sorted && c in g.manifest.dirs;
    if c.parent.Sub? {
      var q: RelPath := c.parent;
      assert q in sorted;
      var j :| 0 <= j < |sorted| && sorted[j] == q;
    }
  }

  lemma SortedApart(dirs: seq<RelPath>, sorted: seq<RelPath>, i: nat)
    requires sorted == ByDepth(dirs) && i < |sorted| && forall a, b :: 0 <= a < b < |dirs| ==> dirs[a] != dirs[b]
    ensures (forall x :: x in sorted ==> x in dirs) && forall j :: 0 <= j < i ==> sorted[j] != sorted[i]
  {
    ParentsFirst(dirs);
  }

  lemma DirsAreSorted(g: Job, sorted: seq<RelPath>)
    requires ValidJob(g) && forall x :: x in sorted <==> x in g.manifest.dirs
    ensures forall c :: c in g.dirs ==> exists j :: 0 <= j < |sorted| && sorted[j] == c
  {
  }

  lemma OnlyFileDirs(g: Job, a: Disk, b: Disk, p: RelPath, created: seq<RelPath>)
    requires OnlyFile(g, a, b, p) && DirsFit(g, a, created)
    ensures DirsFit(g, b, created)
  {
    hide Steady;
    DirsElsewhere(g, a, b, created);
  }

  lemma DirsElsewhere(g: Job, a: Disk, b: Disk, created: seq<RelPath>)
    requires DirsFit(g, a, created) && forall c :: c in g.dirs ==> At(b, Home(c)) == At(a, Home(c))
    ensures DirsFit(g, b, created)
  {
  }

  ghost predicate IsStaged(staged: seq<StagedFile>, p: RelPath) {
    exists s :: s in staged && s.path == p
  }

  lemma RecordMore(g: Job, d: Disk, m: SwapMarker, c: RelPath)
    requires ValidJob(g) && Fits(g, d, m) && c in g.dirs && c !in m.created && At(d, Home(c)).None?
    requires forall x :: x in m.created ==> x.parent != c
    ensures Fits(g, d, m.(created := m.created + [c]))
  {
  }

  lemma FitsDirs(g: Job, d: Disk, m: SwapMarker)
    requires Fits(g, d, m)
    ensures DirsFit(g, d, m.created)
  {
  }

  lemma CleanElsewhere(g: Job, a: Disk, b: Disk)
    requires forall p :: p in g.items ==> CleanFile(g, a, p)
    requires forall l :: l != NextLoc(g.tag) && l != MarkerLoc(g.tag) ==> At(b, l) == At(a, l)
    ensures forall p :: p in g.items ==> CleanFile(g, b, p)
  {
  }

  lemma CleanApart(g: Job, a: Disk, b: Disk, c: RelPath)
    requires ValidJob(g) && c in g.dirs && OnlyAt(a, b, Home(c))
    requires forall p :: p in g.items ==> CleanFile(g, a, p)
    ensures forall p :: p in g.items ==> CleanFile(g, b, p)
  {
  }

  lemma GoodBody(g: Job, h: seq<Disk>, r: Phase, u: bool)
    requires Chronicle(g, h, r, u)
    ensures Good(g, h[|h| - 1]) && Body(g, h[|h| - 1])
    ensures |h| > 0
    ensures PhaseOf(h[|h| - 1], g.tag) == Some(Swapping) ==> u || FinishReady(g, h[|h| - 1])
  {
  }

  lemma Weaken(g: Job, h: seq<Disk>, r: Phase)
    ensures Chronicle(g, h, r, false) ==> Chronicle(g, h, r, true)
  {
  }

  lemma MarkedHasMarker(g: Job, d: Disk)
    requires Marked(g, d)
    ensures At(d, MarkerLoc(g.tag)).Some? && Good(g, d) && PhaseOf(d, g.tag).Some?
  {
  }

  lemma PhaseIsMarked(g: Job, d: Disk)
    requires Good(g, d)
    ensures PhaseOf(d, g.tag).Some? ==> Marked(g, d)
  {
  }

  lemma ScratchFits(g: Job, a: Disk, b: Disk, l: Loc, m: SwapMarker)
    requires ValidJob(g) && Scratch(g, l) && OnlyAt(a, b, l) && Fits(g, a, m)
    ensures Fits(g, b, m) && (FinishReady(g, a) ==> FinishReady(g, b))
  {
    hide Fits, FinishReady;
    ScratchApart(g, l);
    ElsewhereFits(g, a, b, m);
  }

  function Fresh(files: seq<Item>): seq<StagedFile> {
    seq(|files|, i requires 0 <= i < |files| => StagedFile(files[i].path, false, false))
  }

  /** The first `k` temp files hold what the manifest says; originals are in place, directories made. */
  ghost predicate PartStaged(g: Job, d: Disk, created: seq<RelPath>, k: nat)
    requires k <= |g.manifest.files|
  {
    && Marked(g, d) && MarkerOf(d, g.tag).value.created == created
    && (forall f :: f in g.manifest.files[..k] ==> Holds(d, TempOf(f.path, g.tag), f, g.owners))
    && (forall p :: p in g.items ==> At(d, Home(p)) == At(g.orig, Home(p)) && At(d, PrevOf(p, g.tag)).None?)
    && (forall c :: c in g.dirs ==> At(d, Home(c)) == Some(Dir))
  }

  ghost predicate Unstaged(g: Job, d: Disk, k: nat)
    requires k <= |g.manifest.files|
  {
    forall f :: f in g.manifest.files[k..] ==> At(d, TempOf(f.path, g.tag)).None?
  }

  lemma StagedIsOriginal(g: Job, d: Disk, created: seq<RelPath>, k: nat, i: nat)
    requires ValidJob(g) && k <= |g.manifest.files| && i < |g.manifest.files| && PartStaged(g, d, created, k)
    ensures g.manifest.files[i].path in g.items && Original(g, d, g.manifest.files[i].path) && Marked(g, d)
  {
    assert g.manifest.files[i] in g.manifest.files;
  }

  /** A step on file `k`'s temp file leaves the other files' staging alone. */
  lemma TempChanged(g: Job, a: Disk, b: Disk, created: seq<RelPath>, k: nat)
    requires ValidJob(g) && k < |g.manifest.files| && PartStaged(g, a, created, k)
    requires Unstaged(g, a, k) || Unstaged(g, a, k + 1)
    requires OnlyAt(a, b, TempOf(g.manifest.files[k].path, g.tag)) && Good(g, b) &&
      MarkerOf(b, g.tag) == MarkerOf(a, g.tag)
    ensures PartStaged(g, b, created, k) && Unstaged(g, b, k + 1)
  {
    hide Marked, Good, ValidJob, Holds, OnlyAt;
    var fs := g.manifest.files;
    GoodStays(g, a, b);
    OtherPaths(g, k);
    forall f | f in fs[k + 1..] ensures At(b, TempOf(f.path, g.tag)).None? {
      TempElsewhere(g, a, b, fs[k].path, f);
      assert f in fs[k..];
    }
    forall f | f in fs[..k] ensures Holds(b, TempOf(f.path, g.tag), f, g.owners) {
      TempElsewhere(g, a, b, fs[k].path, f);
    }
    TempElsewhere(g, a, b, fs[k].path, fs[k]);
  }

  lemma GoodStays(g: Job, a: Disk, b: Disk)
    requires Marked(g, a) && Good(g, b) && MarkerOf(b, g.tag) == MarkerOf(a, g.tag)
    ensures Marked(g, b)
  {
    PhaseIsMarked(g, b);
  }

  lemma OtherPaths(g: Job, k: nat)
    requires ValidJob(g) && k < |g.manifest.files|
    ensures forall f :: f in g.manifest.files[..k] || f in g.manifest.files[k + 1..] ==>
      f.path != g.manifest.files[k].path
  {
  }

  lemma TempElsewhere(g: Job, a: Disk, b: Disk, q: RelPath, f: Item)
    requires OnlyAt(a, b, TempOf(q, g.tag))
    ensures f.path != q ==> At(b, TempOf(f.path, g.tag)) == At(a, TempOf(f.path, g.tag))
    ensures f.path != q ==> Holds(b, TempOf(f.path, g.tag), f, g.owners) == Holds(a, TempOf(f.path, g.tag), f, g.owners)
    ensures forall p: RelPath :: At(b, Home(p)) == At(a, Home(p)) && At(b, PrevOf(p, g.tag)) == At(a, PrevOf(p, g.tag))
  {
  }

  lemma StagedOrClean(g: Job, d: Disk, created: seq<RelPath>, k: nat, n: nat)
    requires ValidJob(g) && k <= n <= |g.manifest.files| && PartStaged(g, d, created, k) && Unstaged(g, d, n)
    ensures Marked(g, d) && MarkerOf(d, g.tag).value.phase == PhaseOf(d, g.tag).value && DirsFit(g, d, created)
    ensures forall c :: c in g.dirs ==> At(d, Home(c)) == Some(Dir)
    ensures forall s :: s in Fresh(g.manifest.files[..n]) ==>
      s.path in g.items && !s.displaced && Original(g, d, s.path) && At(d, PrevOf(s.path, g.tag)).None?
    ensures forall p :: p in g.items ==> IsStaged(Fresh(g.manifest.files[..n]), p) || CleanFile(g, d, p)
  {
    hide Body, FinishReady, Holds, ValidJob, DirsFit;
    var fs := g.manifest.files;
    FreshAreFiles(g, n);
    StagingDirs(g, d, created);
    forall p | p in g.items && !IsStaged(Fresh(fs[..n]), p) ensures CleanFile(g, d, p) {
      assert g.items[p] in fs[n..];
    }
  }

  lemma StagingDirs(g: Job, d: Disk, created: seq<RelPath>)
    requires Marked(g, d) && MarkerOf(d, g.tag).value.created == created
    ensures DirsFit(g, d, created) && MarkerOf(d, g.tag).value.phase == PhaseOf(d, g.tag).value
  {
    hide Body, DirsFit, Undoable, Original;
  }

  /** The first `n` files are on the list, and the manifest's others are among the rest. */
  lemma FreshAreFiles(g: Job, n: nat)
    requires ValidJob(g) && n <= |g.manifest.files|
    ensures forall s :: s in Fresh(g.manifest.files[..n]) ==> s.path in g.items && !s.displaced && !s.aside
    ensures forall p :: p in g.items && !IsStaged(Fresh(g.manifest.files[..n]), p) ==>
      g.items[p] in g.manifest.files[n..] && g.items[p].path == p
  {
    var fs := g.manifest.files;
    forall s | s in Fresh(fs[..n]) ensures s.path in g.items && !s.displaced && !s.aside {
      var i :| 0 <= i < n && s == StagedFile(fs[i].path, false, false);
      assert fs[i] in fs;
    }
    forall i | 0 <= i < n ensures IsStaged(Fresh(fs[..n]), fs[i].path) {
      assert Fresh(fs[..n])[i] in Fresh(fs[..n]);
    }
    forall p | p in g.items && !IsStaged(Fresh(fs[..n]), p) ensures g.items[p] in fs[n..] {
      var i :| 0 <= i < |fs| && fs[i] == g.items[p];
      assert i >= n ==> fs[n..][i - n] == fs[i];
    }
  }

  /** Everything staged is in a directory that is there. */
  lemma Housed(g: Job, d: Disk, created: seq<RelPath>, staged: seq<StagedFile>)
    requires ValidJob(g) && DirsFit(g, d, created) && (forall c :: c in g.dirs ==> At(d, Home(c)) == Some(Dir))
    requires forall s :: s in staged ==> s.path in g.items
    ensures forall c :: c in created ==> IsDir(d, c.parent)
    ensures forall s :: s in staged ==> IsDir(d, s.path.parent)
  {
    forall c | c in created ensures IsDir(d, c.parent) {
      assert c in g.dirs && c in g.manifest.dirs;
    }
    forall s | s in staged ensures IsDir(d, s.path.parent) {
      assert g.items[s.path] in g.manifest.files;
    }
  }

  lemma TempFits(g: Job, d: Disk, created: seq<RelPath>, k: nat)
    requires ValidJob(g) && k < |g.manifest.files| && PartStaged(g, d, created, k) && Unstaged(g, d, k)
    ensures Do(d, Create(TempOf(g.manifest.files[k].path, g.tag))).Some?
  {
    hide Marked;
    assert g.manifest.files[k] in g.manifest.files[k..] && g.manifest.files[k] in g.manifest.files;
  }

  /** `apply_meta`: the file's mode, and with owners its owner. */
  function MetaOf(l: Loc, f: Item, owners: bool): Call {
    SetMeta(l, f.mode, if owners then Some((f.uid, f.gid)) else None)
  }

  lemma MetaSet(a: Disk, b: Disk, l: Loc, f: Item, owners: bool)
    requires InodeAt(a, l).Some? && Matches(InodeAt(a, l).value, f) && Do(a, MetaOf(l, f, owners)) == Some(b)
    ensures Holds(b, l, f, owners)
  {
  }

  lemma StagedOneMore(g: Job, d: Disk, created: seq<RelPath>, k: nat)
    requires k < |g.manifest.files| && PartStaged(g, d, created, k)
    requires Holds(d, TempOf(g.manifest.files[k].path, g.tag), g.manifest.files[k], g.owners)
    ensures PartStaged(g, d, created, k + 1)
  {
    assert g.manifest.files[..k + 1] == g.manifest.files[..k] + [g.manifest.files[k]];
  }

  /** All files are staged; the first `k` have their originals linked aside. */
  ghost predicate AsideAt(g: Job, d: Disk, created: seq<RelPath>, staged: seq<StagedFile>, k: nat) {
    && Marked(g, d) && MarkerOf(d, g.tag).value.created == created
    && |staged| == |g.manifest.files| && k <= |staged|
    && (forall i :: 0 <= i < |staged| ==>
          && staged[i].path == g.manifest.files[i].path && !staged[i].displaced
          && Holds(d, TempOf(staged[i].path, g.tag), g.manifest.files[i], g.owners)
          && At(d, Home(staged[i].path)) == At(g.orig, Home(staged[i].path)))
    && (forall i :: 0 <= i < k ==> IsAside(g, d, staged[i]))
    && (forall i :: k <= i < |staged| ==> !staged[i].aside && At(d, PrevOf(staged[i].path, g.tag)).None?)
    && (forall c :: c in g.dirs ==> At(d, Home(c)) == Some(Dir))
  }

  ghost predicate IsAside(g: Job, d: Disk, s: StagedFile) {
    var o := At(g.orig, Home(s.path));
    && s.aside == o.Some?
    && (o.Some? ==> o.value.File?)
    && At(d, PrevOf(s.path, g.tag)) == o
  }

  lemma AllStaged(g: Job, staged: seq<StagedFile>)
    requires ValidJob(g) && |staged| == |g.manifest.files|
    requires forall i :: 0 <= i < |staged| ==> staged[i].path == g.manifest.files[i].path
    ensures forall p :: p in g.items ==> IsStaged(staged, p)
    ensures forall s :: s in staged ==> s.path in g.items
  {
    forall p | p in g.items ensures IsStaged(staged, p) {
      var i :| 0 <= i < |g.manifest.files| && g.manifest.files[i] == g.items[p];
      assert staged[i] in staged;
    }
    forall i | 0 <= i < |staged| ensures staged[i].path in g.items {
      assert g.manifest.files[i] in g.manifest.files;
    }
  }

  lemma AsideIsCleanable(g: Job, d: Disk, created: seq<RelPath>, staged: seq<StagedFile>, k: nat)
    requires ValidJob(g) && AsideAt(g, d, created, staged, k)
    ensures Cleanable(g, d, created, staged, false) && DirsFit(g, d, created) && Marked(g, d) &&
      |staged| == |g.manifest.files|
    ensures forall s :: s in staged ==> s.path in g.items && !s.displaced
    ensures forall c :: c in g.dirs ==> At(d, Home(c)) == Some(Dir)
  {
    hide Body, Holds, DirsFit;
    AllStaged(g, staged);
    forall s | s in staged ensures StagedFits(g, d, false, s) && !s.displaced {
      var i :| 0 <= i < |staged| && staged[i] == s;
      assert i < k ==> IsAside(g, d, staged[i]);
    }
    assert DirsFit(g, d, MarkerOf(d, g.tag).value.created);
  }

  lemma AsideCase(g: Job, d: Disk, created: seq<RelPath>, staged: seq<StagedFile>, k: nat)
    requires ValidJob(g) && AsideAt(g, d, created, staged, k) && k < |staged|
    ensures Marked(g, d) && staged[k].path in g.items && !staged[k].aside
    ensures |g.manifest.files| == |staged| && g.manifest.files[k].path == staged[k].path
    ensures Original(g, d, staged[k].path) && At(d, Home(staged[k].path)) == At(g.orig, Home(staged[k].path))
    ensures At(d, PrevOf(staged[k].path, g.tag)).None?
  {
    AllStaged(g, staged);
    assert staged[k] in staged;
  }

  lemma SetAsideDone(g: Job, a: Disk, b: Disk, created: seq<RelPath>, staged: seq<StagedFile>, k: nat)
    requires ValidJob(g) && AsideAt(g, a, created, staged, k) && k < |staged| && Marked(g, b) &&
      MarkerOf(b, g.tag) == MarkerOf(a, g.tag)
    requires OnlyAt(a, b, PrevOf(staged[k].path, g.tag)) &&
      At(b, PrevOf(staged[k].path, g.tag)) == At(g.orig, Home(staged[k].path))
    requires At(a, Home(staged[k].path)).Some? ==> At(a, Home(staged[k].path)).value.File?
    ensures AsideAt(g, b, created, staged[k := staged[k].(aside := At(a, Home(staged[k].path)).Some?)], k + 1)
  {
    hide Marked, OnlyAt, Holds, IsAside;
    var q := staged[k].path;
    var t := staged[k := staged[k].(aside := At(a, Home(q)).Some?)];
    forall i | 0 <= i < |t|
      ensures i != k ==> t[i].path != q
      ensures Holds(b, TempOf(t[i].path, g.tag), g.manifest.files[i], g.owners) &&
        At(b, Home(t[i].path)) == At(g.orig, Home(t[i].path))
      ensures i < k ==> IsAside(g, b, t[i])
      ensures i > k ==> At(b, PrevOf(t[i].path, g.tag)).None?
    {
      AsideElsewhere(g, a, b, staged[i], g.manifest.files[i], q);
    }
    AsideElsewhere(g, a, b, staged[k], g.manifest.files[k], q);
    IsSetAside(g, b, t[k]);
  }

  lemma AsideElsewhere(g: Job, a: Disk, b: Disk, s: StagedFile, f: Item, q: RelPath)
    requires OnlyAt(a, b, PrevOf(q, g.tag))
    ensures Holds(b, TempOf(s.path, g.tag), f, g.owners) == Holds(a, TempOf(s.path, g.tag), f, g.owners)
    ensures forall c: RelPath :: At(b, Home(c)) == At(a, Home(c))
    ensures s.path != q ==>
      At(b, PrevOf(s.path, g.tag)) == At(a, PrevOf(s.path, g.tag)) && IsAside(g, b, s) == IsAside(g, a, s)
  {
  }

  lemma IsSetAside(g: Job, d: Disk, s: StagedFile)
    requires At(d, PrevOf(s.path, g.tag)) == At(g.orig, Home(s.path)) && s.aside == At(g.orig, Home(s.path)).Some?
    requires At(g.orig, Home(s.path)).Some? ==> At(g.orig, Home(s.path)).value.File?
    ensures IsAside(g, d, s)
  {
  }

  /** The first `k` files are replaced, the rest still original with their links aside. */
  ghost predicate SwappedUpTo(g: Job, d: Disk, created: seq<RelPath>, staged: seq<StagedFile>, k: nat) {
    && Marked(g, d) && MarkerOf(d, g.tag).value.created == created && MarkerOf(d, g.tag).value.phase == Swapping
    && |staged| == |g.manifest.files| && k <= |staged|
    && (forall i :: 0 <= i < |staged| ==> staged[i].path == g.manifest.files[i].path && IsAside(g, d, staged[i]))
    && (forall i :: 0 <= i < k ==> staged[i].displaced && Replaced(g, d, staged[i].path))
    && (forall i :: k <= i < |staged| ==>
          !staged[i].displaced && Original(g, d, staged[i].path) && At(d, TempOf(staged[i].path, g.tag)).Some?)
    && FinishReady(g, d)
  }

  lemma SwapCase(g: Job, d: Disk, created: seq<RelPath>, staged: seq<StagedFile>, k: nat)
    requires ValidJob(g) && SwappedUpTo(g, d, created, staged, k) && k < |staged|
    ensures Marked(g, d) && staged[k].path in g.items && MarkerOf(d, g.tag).value.phase == Swapping && FinishReady(g, d)
    ensures At(d, PrevOf(staged[k].path, g.tag)) == At(g.orig, Home(staged[k].path))
    ensures At(d, TempOf(staged[k].path, g.tag)).Some?
  {
    AllStaged(g, staged);
    assert staged[k] in staged;
  }

  lemma SwapDone(g: Job, a: Disk, b: Disk, created: seq<RelPath>, staged: seq<StagedFile>, k: nat)
    requires ValidJob(g) && SwappedUpTo(g, a, created, staged, k) && k < |staged|
    requires Marked(g, b) && MarkerOf(b, g.tag) == MarkerOf(a, g.tag) && OnlyFile(g, a, b, staged[k].path)
    requires Replaced(g, b, staged[k].path) && FinishReady(g, b)
    ensures SwappedUpTo(g, b, created, staged[k := staged[k].(displaced := true)], k + 1)
  {
    hide Marked, FinishReady, Original, OnlyFile, Replaced, IsAside, ValidJob;
    OthersKept(g, a, b, staged, k);
    var t := staged[k := staged[k].(displaced := true)];
    forall i | 0 <= i < |t| ensures IsAside(g, b, t[i]) {
      AsideStays(g, a, b, staged[i], t[i]);
    }
  }

  lemma AsideStays(g: Job, a: Disk, b: Disk, s: StagedFile, t: StagedFile)
    requires IsAside(g, a, s) && t.path == s.path && t.aside == s.aside
    requires Replaced(g, b, s.path) || At(b, PrevOf(s.path, g.tag)) == At(a, PrevOf(s.path, g.tag))
    ensures IsAside(g, b, t)
  {
  }

  lemma SwapFits(g: Job, d: Disk, created: seq<RelPath>, staged: seq<StagedFile>, k: nat)
    requires ValidJob(g) && SwappedUpTo(g, d, created, staged, k)
    ensures Fits(g, d, SwapMarker(RollingBack, Marks(staged), created, g.owners, g.manifest))
    ensures PhaseOf(d, g.tag) == Some(Swapping) && FinishReady(g, d)
  {
    hide Body, FinishReady;
    assert ListsAll(g, Marks(staged));
  }

  /** A staged file is one and so is what it replaces. */
  lemma StagedLands(g: Job, d: Disk, p: RelPath)
    requires ValidJob(g) && Marked(g, d) && p in g.items && FinishReady(g, d)
    ensures At(d, TempOf(p, g.tag)).Some? ==> Do(d, Rename(p.parent, Temp(p.name, g.tag), Live(p.name))).Some?
  {
    hide Fits, DirsFit, ValidManifest;
    assert Finishable(g, d, p);
  }

  /** A step on file `j` leaves the others' cases alone. */
  lemma OthersKept(g: Job, a: Disk, b: Disk, staged: seq<StagedFile>, j: nat)
    requires ValidJob(g) && |staged| == |g.manifest.files| && j < |staged| && OnlyFile(g, a, b, staged[j].path)
    requires forall i :: 0 <= i < |staged| ==> staged[i].path == g.manifest.files[i].path
    ensures forall i :: 0 <= i < |staged| && i != j ==>
      && Original(g, b, staged[i].path) == Original(g, a, staged[i].path)
      && Replaced(g, b, staged[i].path) == Replaced(g, a, staged[i].path)
      && At(b, PrevOf(staged[i].path, g.tag)) == At(a, PrevOf(staged[i].path, g.tag))
      && At(b, TempOf(staged[i].path, g.tag)) == At(a, TempOf(staged[i].path, g.tag))
  {
    hide Original, Replaced;
    AllStaged(g, staged);
    forall i | 0 <= i < |staged| && i != j
      ensures Original(g, b, staged[i].path) == Original(g, a, staged[i].path)
      ensures Replaced(g, b, staged[i].path) == Replaced(g, a, staged[i].path)
      ensures At(b, PrevOf(staged[i].path, g.tag)) == At(a, PrevOf(staged[i].path, g.tag))
      ensures At(b, TempOf(staged[i].path, g.tag)) == At(a, TempOf(staged[i].path, g.tag))
    {
      assert staged[i] in staged && staged[i].path != staged[j].path;
      FileUnmoved(g, a, b, staged[i].path);
    }
  }

  /** A marker update leaves the swap where it was. */
  lemma SwapKept(g: Job, a: Disk, b: Disk, created: seq<RelPath>, staged: seq<StagedFile>, k: nat)
    requires ValidJob(g) && SwappedUpTo(g, a, created, staged, k)
    requires forall l :: l != NextLoc(g.tag) && l != MarkerLoc(g.tag) ==>
      At(b, l) == At(a, l) && InodeAt(b, l) == InodeAt(a, l)
    ensures FinishReady(g, b) && DirsFit(g, b, created) && BackUpTo(g, b, staged, false, k)
  {
    hide *;
    SwapMarked(g, a, created, staged, k);
    MarkerSteady(g, a, b);
    ElsewhereFits(g, a, b, MarkerOf(a, g.tag).value);
    FitsDirs(g, b, MarkerOf(a, g.tag).value);
    StillSwapped(g, a, b, created, staged, k);
  }

  lemma SwapMarked(g: Job, d: Disk, created: seq<RelPath>, staged: seq<StagedFile>, k: nat)
    requires SwappedUpTo(g, d, created, staged, k)
    ensures MarkerOf(d, g.tag).Some? && MarkerOf(d, g.tag).value.created == created
    ensures Fits(g, d, MarkerOf(d, g.tag).value) && FinishReady(g, d)
  {
    hide Body, Fits, FinishReady, Original, Replaced;
  }

  lemma StillSwapped(g: Job, a: Disk, b: Disk, created: seq<RelPath>, staged: seq<StagedFile>, k: nat)
    requires ValidJob(g) && SwappedUpTo(g, a, created, staged, k) && forall p :: p in g.items ==> Steady(g, a, b, p)
    ensures BackUpTo(g, b, staged, false, k)
  {
    hide Marked, FinishReady, Original, Replaced, Steady;
    AllStaged(g, staged);
    hide ValidJob;
    forall i | 0 <= i < |staged|
      ensures staged[i].path in g.items
      ensures Original(g, b, staged[i].path) == Original(g, a, staged[i].path)
      ensures Replaced(g, b, staged[i].path) == Replaced(g, a, staged[i].path)
      ensures At(b, PrevOf(staged[i].path, g.tag)) == At(a, PrevOf(staged[i].path, g.tag))
    {
      assert staged[i] in staged;
      FileUnmoved(g, a, b, staged[i].path);
      LinkSteady(g, a, b, staged[i].path);
    }
  }

  lemma LinkSteady(g: Job, a: Disk, b: Disk, p: RelPath)
    requires Steady(g, a, b, p)
    ensures At(b, PrevOf(p, g.tag)) == At(a, PrevOf(p, g.tag))
  {
  }

  /** `s.path` is the manifest's and its case is the one its flags say. */
  ghost predicate StagedFits(g: Job, d: Disk, failed: bool, s: StagedFile) {
    && s.path in g.items
    && if s.displaced
       then Replaced(g, d, s.path) && failed && s.aside == At(g.orig, Home(s.path)).Some?
       else Original(g, d, s.path) && (!s.aside ==> At(d, PrevOf(s.path, g.tag)).None?)
  }

  /** Files before `j` are still replaced; the rest are back, or reported. */
  ghost predicate BackUpTo(g: Job, d: Disk, staged: seq<StagedFile>, failed: bool, j: nat) {
    && |staged| == |g.manifest.files| && j <= |staged|
    && (forall i :: 0 <= i < |staged| ==>
          staged[i].path == g.manifest.files[i].path && staged[i].aside == At(g.orig, Home(staged[i].path)).Some?)
    && (forall i :: 0 <= i < j ==> staged[i].displaced && Replaced(g, d, staged[i].path))
    && (forall i :: j <= i < |staged| ==> StagedFits(g, d, failed, staged[i]))
  }

  /** Every file and directory the restore may have to clean up after is accounted for. */
  ghost predicate Cleanable(g: Job, d: Disk, created: seq<RelPath>, staged: seq<StagedFile>, failed: bool) {
    && DirsFit(g, d, created)
    && (forall s :: s in staged ==> StagedFits(g, d, failed, s))
    && (forall p :: p in g.items ==> IsStaged(staged, p) || CleanFile(g, d, p))
  }

  lemma BackCase(g: Job, d: Disk, staged: seq<StagedFile>, failed: bool, j: nat)
    requires ValidJob(g) && BackUpTo(g, d, staged, failed, j + 1) && j < |staged|
    ensures staged[j].path in g.items && Replaced(g, d, staged[j].path) && staged[j].displaced &&
      staged[j].aside == At(g.orig, Home(staged[j].path)).Some?
    ensures forall s :: s in staged ==> s.path in g.items
  {
    AllStaged(g, staged);
    assert staged[j] in staged;
  }

  lemma BackDone(g: Job, a: Disk, b: Disk, staged: seq<StagedFile>, failed: bool, j: nat)
    requires ValidJob(g) && BackUpTo(g, a, staged, failed, j + 1) && j < |staged| && OnlyFile(g, a, b, staged[j].path)
    requires Original(g, b, staged[j].path) && At(b, PrevOf(staged[j].path, g.tag)).None?
    ensures BackUpTo(g, b, staged[j := staged[j].(displaced := false)], failed, j)
  {
    hide Original, Replaced, OnlyFile, ValidJob, At, Home, PrevOf;
    OthersKept(g, a, b, staged, j);
    BackCase(g, a, staged, failed, j);
    var t := staged[j := staged[j].(displaced := false)];
    forall i | j <= i < |t| ensures StagedFits(g, b, failed, t[i]) {
      if i > j {
        assert StagedFits(g, a, failed, staged[i]);
      }
    }
  }

  lemma StrandedFits(g: Job, d: Disk, staged: seq<StagedFile>, k: nat)
    requires ValidJob(g) && BackUpTo(g, d, staged, false, k)
    ensures forall s :: s in staged ==> StagedFits(g, d, true, s)
  {
    hide Original, Replaced;
    AllStaged(g, staged);
    forall s | s in staged ensures StagedFits(g, d, true, s) {
      var i :| 0 <= i < |staged| && staged[i] == s;
      assert i >= k ==> StagedFits(g, d, false, s);
    }
  }

  lemma BackFailed(g: Job, d: Disk, staged: seq<StagedFile>, failed: bool, j: nat)
    requires ValidJob(g) && BackUpTo(g, d, staged, failed, j + 1) && j < |staged|
    ensures BackUpTo(g, d, staged, true, j)
  {
    hide Original, Replaced;
    BackCase(g, d, staged, failed, j);
    forall i | j < i < |staged| ensures StagedFits(g, d, true, staged[i]) {
      assert StagedFits(g, d, failed, staged[i]);
    }
  }

  /** A complete swap is the restored configuration. */
  lemma SwapIsRestored(g: Job, d: Disk, created: seq<RelPath>, staged: seq<StagedFile>)
    requires ValidJob(g) && SwappedUpTo(g, d, created, staged, |staged|)
    ensures Marked(g, d) && Restored(g, d)
    ensures |staged| == |g.manifest.files|
    ensures forall i :: 0 <= i < |staged| ==>
      && staged[i].path == g.manifest.files[i].path
      && staged[i].aside == At(g.orig, Home(staged[i].path)).Some?
      && At(d, PrevOf(staged[i].path, g.tag)) == At(g.orig, Home(staged[i].path))
  {
    hide Marked;
    AllStaged(g, staged);
    forall p | p in g.items ensures RestoredFile(g, d, p) {
      assert IsStaged(staged, p);
      var i :| 0 <= i < |staged| && staged[i].path == p;
      assert Replaced(g, d, p) && Finishable(g, d, p);
    }
  }

  /** A file's set-aside link is no other file's. */
  lemma LinksApart(g: Job, i: nat)
    requires ValidJob(g) && i < |g.manifest.files|
    ensures g.manifest.files[i].path in g.items
    ensures forall j :: 0 <= j < |g.manifest.files| && j != i ==>
      PrevOf(g.manifest.files[j].path, g.tag) != PrevOf(g.manifest.files[i].path, g.tag)
  {
    assert g.manifest.files[i] in g.manifest.files;
  }

  /** The marker is a file, so removing it is not refused. */
  lemma MarkerGoes(g: Job, d: Disk)
    requires Marked(g, d)
    ensures Do(d, Unlink(MarkerLoc(g.tag))).Some? && Do(d, Discard(MarkerLoc(g.tag))).Some?
  {
  }

  lemma PrevGoes(g: Job, d: Disk, p: RelPath)
    requires ValidJob(g) && Restored(g, d) && p in g.items
    ensures Do(d, Discard(PrevOf(p, g.tag))).Some?
  {
    assert g.items[p] in g.manifest.files;
  }

  lemma UnmarkedHasNone(g: Job, d: Disk)
    requires Unmarked(g, d)
    ensures At(d, MarkerLoc(g.tag)).None? && PhaseOf(d, g.tag).None?
  {
  }

  lemma RestoredPrev(g: Job, d: Disk, p: RelPath)
    requires Restored(g, d) && p in g.items && At(g.orig, Home(p)).None?
    ensures At(d, PrevOf(p, g.tag)).None?
  {
  }

  lemma DropHiddenStep(
      g: Job, a: Disk, b: Disk, created: seq<RelPath>, failed: bool, staged: seq<StagedFile>, s: StagedFile, l: Loc)
    requires ValidJob(g) && Good(g, a) && At(a, MarkerLoc(g.tag)).Some? && s in staged
    requires Cleanable(g, a, created, staged, failed)
    requires Do(a, Discard(l)) == Some(b) &&
      (l == TempOf(s.path, g.tag) || (l == PrevOf(s.path, g.tag) && !s.displaced))
    ensures Sound(g, a, b) && MarkerOf(b, g.tag) == MarkerOf(a, g.tag) &&
      At(b, MarkerLoc(g.tag)) == At(a, MarkerLoc(g.tag))
    ensures OnlyAt(a, b, l) && At(b, l).None? && Cleanable(g, b, created, staged, failed)
    ensures forall p :: p in g.items && CleanFile(g, a, p) ==> CleanFile(g, b, p)
  {
    hide Fits, Body, FinishReady, Good, Marked, Unmarked, ValidJob, DirsFit, Replaced, CleanFile, KeepsOriginals, WF;
    hide Do, Sound, Disciplined, Cleanable;
    GoodIsMarked(g, a);
    GoodIsBody(g, a);
    InItsCase(g, a, created, staged, failed, s);
    EntryCall(g, a, Discard(l));
    QuietStep(g, a, b, l);
    if l == TempOf(s.path, g.tag) {
      TempStep(g, a, b, s.path);
    } else {
      PrevStep(g, a, b, s.path);
    }
    StillCleanable(g, a, b, created, failed, staged, s, l);
  }

  lemma InItsCase(g: Job, d: Disk, created: seq<RelPath>, staged: seq<StagedFile>, failed: bool, s: StagedFile)
    requires Cleanable(g, d, created, staged, failed) && s in staged
    ensures StagedFits(g, d, failed, s)
  {
  }

  lemma StillCleanable(
      g: Job, a: Disk, b: Disk, created: seq<RelPath>, failed: bool, staged: seq<StagedFile>, s: StagedFile, l: Loc)
    requires ValidJob(g) && Cleanable(g, a, created, staged, failed) && s in staged && OnlyAt(a, b, l) && At(b, l).None?
    requires l == TempOf(s.path, g.tag) || (l == PrevOf(s.path, g.tag) && !s.displaced)
    ensures Cleanable(g, b, created, staged, failed)
    ensures forall p :: p in g.items && CleanFile(g, a, p) ==> CleanFile(g, b, p)
  {
    DirsElsewhere(g, a, b, created);
    hide ValidJob, DirsFit, Original, Replaced;
    InItsCase(g, a, created, staged, failed, s);
    StagedIsOwn(g, a, failed, s);
    forall t | t in staged ensures StagedFits(g, b, failed, t) {
      assert StagedFits(g, a, failed, t);
      DroppedKeeps(g, a, b, s.path, l, t, failed);
    }
  }

  lemma StagedIsOwn(g: Job, d: Disk, failed: bool, s: StagedFile)
    requires StagedFits(g, d, failed, s)
    ensures s.path in g.items && (!s.displaced ==> Original(g, d, s.path))
  {
  }

  lemma HiddenGoes(g: Job, d: Disk, created: seq<RelPath>, failed: bool, staged: seq<StagedFile>, s: StagedFile)
    requires Body(g, d) && Cleanable(g, d, created, staged, failed) && s in staged
    ensures IsDir(d, s.path.parent) ==>
      Do(d, Discard(TempOf(s.path, g.tag))).Some? && (!s.displaced ==> Do(d, Discard(PrevOf(s.path, g.tag))).Some?)
  {
    assert StagedFits(g, d, failed, s);
  }

  lemma DroppedKeeps(g: Job, a: Disk, b: Disk, p: RelPath, l: Loc, t: StagedFile, failed: bool)
    requires ValidJob(g) && OnlyAt(a, b, l) && At(b, l).None? && StagedFits(g, a, failed, t)
    requires l == TempOf(p, g.tag) || (l == PrevOf(p, g.tag) && Original(g, a, p))
    ensures StagedFits(g, b, failed, t)
  {
    if At(g.orig, Home(t.path)).Some? && At(g.orig, Home(t.path)).value.File? {
      assert At(g.orig, Home(t.path)).value.ino in g.orig.inodes;
    }
  }

  lemma CleanableDirs(g: Job, d: Disk, created: seq<RelPath>, staged: seq<StagedFile>, failed: bool)
    requires Cleanable(g, d, created, staged, failed)
    ensures DirsFit(g, d, created)
    ensures forall i, c :: 0 <= i < |created| && c in created[..i] ==> c != created[i]
  {
  }

  lemma Reported(g: Job, d: Disk, created: seq<RelPath>, staged: seq<StagedFile>, failed: bool)
    requires Cleanable(g, d, created, staged, failed)
    ensures Cleanable(g, d, created, staged, true)
  {
    hide Original, Replaced, DirsFit, CleanFile;
    forall s | s in staged ensures StagedFits(g, d, true, s) {
      assert StagedFits(g, d, failed, s);
    }
  }

  lemma CleanableIn(g: Job, d: Disk, created: seq<RelPath>, staged: seq<StagedFile>, failed: bool)
    requires Cleanable(g, d, created, staged, failed)
    ensures forall s :: s in staged ==> s.path in g.items
    ensures (forall s :: s in staged ==> CleanFile(g, d, s.path)) ==> forall p :: p in g.items ==> CleanFile(g, d, p)
  {
    hide DirsFit, CleanFile, Original, Replaced;
    assert forall s :: s in staged ==> StagedFits(g, d, failed, s);
  }

  lemma CleanWhenDropped(g: Job, d: Disk, created: seq<RelPath>, staged: seq<StagedFile>, s: StagedFile)
    requires Cleanable(g, d, created, staged, false) && s in staged && At(d, TempOf(s.path, g.tag)).None?
    requires s.aside ==> At(d, PrevOf(s.path, g.tag)).None?
    ensures CleanFile(g, d, s.path)
  {
    assert StagedFits(g, d, false, s);
  }

  lemma UndoDirStep(g: Job, a: Disk, b: Disk, created: seq<RelPath>, failed: bool, staged: seq<StagedFile>, c: RelPath)
    requires ValidJob(g) && Good(g, a) && At(a, MarkerLoc(g.tag)).Some? && c in created
    requires Cleanable(g, a, created, staged, failed)
    requires Do(a, Rmdir(c)) == Some(b)
    ensures Sound(g, a, b) && MarkerOf(b, g.tag) == MarkerOf(a, g.tag) &&
      At(b, MarkerLoc(g.tag)) == At(a, MarkerLoc(g.tag))
    ensures OnlyAt(a, b, Home(c)) && At(b, Home(c)).None? && Cleanable(g, b, created, staged, failed)
    ensures forall p :: p in g.items && CleanFile(g, a, p) ==> CleanFile(g, b, p)
  {
    RecordedIfThere(g, a, created, c);
    GoodIsBody(g, a);
    hide Fits, Body, FinishReady, Good, Marked, Unmarked, Disciplined, ValidJob, Cleanable;
    EntryCall(g, a, Rmdir(c));
    DirApart(g, c);
    QuietStep(g, a, b, Home(c));
    if At(a, Home(c)).Some? {
      DirStep(g, a, b, c);
    } else {
      NothingRemoved(g, a, b, c);
    }
    FilesApart(g, a, b, created, failed, staged, c);
  }

  lemma NothingRemoved(g: Job, a: Disk, b: Disk, c: RelPath)
    requires Do(a, Rmdir(c)) == Some(b) && At(a, Home(c)).None? && Good(g, a)
    ensures Sound(g, a, b)
  {
    hide Good;
  }

  /** Removing a directory leaves every staged file in the case it is in. */
  lemma FilesApart(g: Job, a: Disk, b: Disk, created: seq<RelPath>, failed: bool, staged: seq<StagedFile>, c: RelPath)
    requires Cleanable(g, a, created, staged, failed) && c in created && OnlyAt(a, b, Home(c)) && At(b, Home(c)).None?
    requires forall p :: p in g.items ==> Home(c) != Home(p) && p != c
    ensures Cleanable(g, b, created, staged, failed)
    ensures forall p :: p in g.items && CleanFile(g, a, p) ==> CleanFile(g, b, p)
  {
    hide DirsFit, Original, Replaced;
    DirsShrink(g, a, b, created, c);
    forall t | t in staged ensures StagedFits(g, b, failed, t) {
      assert StagedFits(g, a, failed, t);
      assert Steady(g, a, b, t.path);
      FileUnmoved(g, a, b, t.path);
    }
  }

  lemma DirsShrink(g: Job, a: Disk, b: Disk, created: seq<RelPath>, c: RelPath)
    requires DirsFit(g, a, created) && c in created && OnlyAt(a, b, Home(c)) && At(b, Home(c)).None?
    ensures DirsFit(g, b, created)
  {
  }

  /** A created directory that is there is in the durable marker. */
  lemma RecordedIfThere(g: Job, d: Disk, created: seq<RelPath>, c: RelPath)
    requires ValidJob(g) && Good(g, d) && At(d, MarkerLoc(g.tag)).Some? && DirsFit(g, d, created) && c in created
    ensures c in g.dirs && Marked(g, d) && (At(d, Home(c)).Some? ==> c in MarkerOf(d, g.tag).value.created)
  {
    hide Body;
    var i :| 0 <= i < |created| && created[i] == c;
  }

  lemma AllClean(g: Job, d: Disk, created: seq<RelPath>)
    requires DirsFit(g, d, created) && (forall c :: c in created ==> At(d, Home(c)).None?)
    requires forall p :: p in g.items ==> CleanFile(g, d, p)
    ensures Clean(g, d)
  {
    forall c | c in g.dirs ensures At(d, Home(c)) == At(g.orig, Home(c)) {
      if c in created {
        var i :| 0 <= i < |created| && created[i] == c;
      }
    }
  }

  lemma GoodIsMarked(g: Job, d: Disk)
    requires Good(g, d) && At(d, MarkerLoc(g.tag)).Some?
    ensures Marked(g, d)
  {
  }

  lemma GoodIsUnmarked(g: Job, d: Disk)
    requires Good(g, d) && At(d, MarkerLoc(g.tag)).None?
    ensures Unmarked(g, d)
  {
  }

  lemma JobIsValid(tag: string, m: Manifest, owners: bool, orig: Disk)
    requires ValidManifest(m) && WF(orig) && forall l :: l in orig.tree ==> l.name.Live?
    ensures ValidJob(JobOf(tag, m, owners, orig))
  {
  }

  lemma StartIsClean(g: Job)
    requires ValidJob(g)
    ensures Clean(g, g.orig) && Unmarked(g, g.orig) && PhaseOf(g.orig, g.tag).None?
    ensures Fits(g, g.orig, SwapMarker(Staging, [], [], g.owners, g.manifest))
  {
  }

  lemma AllCleanTemps(g: Job, d: Disk)
    requires ValidJob(g) && forall p :: p in g.items ==> CleanFile(g, d, p)
    ensures Unstaged(g, d, 0) &&
      (forall p :: p in g.items ==> At(d, Home(p)) == At(g.orig, Home(p)) && At(d, PrevOf(p, g.tag)).None?)
  {
  }

  lemma StagedIsAside(g: Job, d: Disk, created: seq<RelPath>, staged: seq<StagedFile>)
    requires ValidJob(g) && PartStaged(g, d, created, |g.manifest.files|) &&
      staged == Fresh(g.manifest.files[..|g.manifest.files|])
    ensures AsideAt(g, d, created, staged, 0)
  {
    var fs := g.manifest.files;
    assert fs[..|fs|] == fs;
    forall i | 0 <= i < |fs| ensures fs[i] in fs {
    }
  }

  /** Everything is staged and aside, so a marker that says `Swapping` is true. */
  lemma AsideFits(g: Job, d: Disk, created: seq<RelPath>, staged: seq<StagedFile>)
    requires ValidJob(g) && AsideAt(g, d, created, staged, |staged|)
    ensures Fits(g, d, SwapMarker(Swapping, Marks(staged), created, g.owners, g.manifest)) && FinishReady(g, d)
    ensures Marked(g, d)
  {
    hide Body;
    AllStaged(g, staged);
    forall p | p in g.items ensures Finishable(g, d, p) {
      assert IsStaged(staged, p);
      var i :| 0 <= i < |staged| && staged[i].path == p;
      assert g.manifest.files[i] in g.manifest.files && IsAside(g, d, staged[i]);
    }
    assert ListsAll(g, Marks(staged));
  }

  lemma CleanableKept(g: Job, a: Disk, b: Disk, created: seq<RelPath>, staged: seq<StagedFile>)
    requires ValidJob(g) && Cleanable(g, a, created, staged, false)
    requires forall l :: l != NextLoc(g.tag) && l != MarkerLoc(g.tag) ==>
      At(b, l) == At(a, l) && InodeAt(b, l) == InodeAt(a, l)
    ensures Cleanable(g, b, created, staged, false)
  {
    hide DirsFit;
    DirsElsewhere(g, a, b, created);
    forall s | s in staged ensures StagedFits(g, b, false, s) {
      assert StagedFits(g, a, false, s);
      assert Steady(g, a, b, s.path);
      FileUnmoved(g, a, b, s.path);
    }
  }

  lemma SwapStarts(g: Job, a: Disk, b: Disk, created: seq<RelPath>, staged: seq<StagedFile>)
    requires ValidJob(g) && AsideAt(g, a, created, staged, |staged|) && Good(g, b)
    requires MarkerOf(b, g.tag) == Some(SwapMarker(Swapping, Marks(staged), created, g.owners, g.manifest))
    requires forall l :: l != NextLoc(g.tag) && l != MarkerLoc(g.tag) ==>
      At(b, l) == At(a, l) && InodeAt(b, l) == InodeAt(a, l)
    ensures SwappedUpTo(g, b, created, staged, 0)
  {
    hide Body, Fits, FinishReady;
    PhaseIsMarked(g, b);
    AsideFits(g, a, created, staged);
    StillReady(g, a, b, SwapMarker(Swapping, Marks(staged), created, g.owners, g.manifest));
    hide Good, Marked, ValidJob, Holds;
    forall i | 0 <= i < |staged| ensures IsAside(g, b, staged[i]) && Original(g, b, staged[i].path) {
      assert IsAside(g, a, staged[i]);
    }
    forall i | 0 <= i < |staged| ensures At(b, TempOf(staged[i].path, g.tag)).Some? {
      HeldIsThere(a, TempOf(staged[i].path, g.tag), g.manifest.files[i], g.owners);
    }
  }

  lemma HeldIsThere(d: Disk, l: Loc, f: Item, owners: bool)
    requires Holds(d, l, f, owners)
    ensures At(d, l).Some?
  {
  }

  lemma StillReady(g: Job, a: Disk, b: Disk, m: SwapMarker)
    requires ValidJob(g) && Fits(g, a, m) && FinishReady(g, a)
    requires forall l :: l != NextLoc(g.tag) && l != MarkerLoc(g.tag) ==>
      At(b, l) == At(a, l) && InodeAt(b, l) == InodeAt(a, l)
    ensures FinishReady(g, b)
  {
    hide Fits, FinishReady;
    MarkerSteady(g, a, b);
    ElsewhereFits(g, a, b, m);
  }

  datatype Outcome =
    | Refused
    | Done(created: seq<RelPath>)
    | Failed(left: seq<Problem>, stranded: bool)
    | Unfinished

  /** Nothing happened, but for a marker update whose clean-up failure was logged. */
  ghost predicate Untouched(g: Job, d: Disk, warned: seq<Loc>) {
    && (forall l :: l != NextLoc(g.tag) ==> At(d, l) == At(g.orig, l))
    && (forall i :: i in g.orig.inodes ==> i in d.inodes && d.inodes[i] == g.orig.inodes[i])
    && (At(d, NextLoc(g.tag)).Some? <==> NextLoc(g.tag) in warned)
  }

  /** The manifest's files and directories are in place, nothing else changed, and every leftover was logged. */
  ghost predicate Succeeded(g: Job, d: Disk, warned: seq<Loc>) {
    && (forall f :: f in g.manifest.files ==> Holds(d, Home(f.path), f, g.owners))
    && (forall c :: c in g.manifest.dirs ==> At(d, Home(c)) == Some(Dir))
    && (forall l: Loc :: l.name.Live? && Sub(l.dir, l.name.base) !in g.items && Sub(l.dir, l.name.base) !in g.dirs ==>
      At(d, l) == At(g.orig, l))
    && (forall l :: l in d.tree && !l.name.Live? <==> l in warned)
  }

  lemma CleanIsUntouched(g: Job, d: Disk, warned: seq<Loc>)
    requires ValidJob(g) && Unmarked(g, d) && Clean(g, d) && (At(d, NextLoc(g.tag)).Some? <==> NextLoc(g.tag) in warned)
    requires forall p :: p in g.items ==> At(d, InstallOf(p, g.tag)).None?
    ensures Untouched(g, d, warned)
  {
    hide Restored, WF;
    forall l | l != NextLoc(g.tag) ensures At(d, l) == At(g.orig, l) {
      if Touched(g, l) && l.name.Live? {
        assert Sub(l.dir, l.name.base) in g.items || Sub(l.dir, l.name.base) in g.dirs;
        assert l == Home(Sub(l.dir, l.name.base));
      } else if Touched(g, l) && l.name.Temp? {
        assert l == TempOf(Sub(l.dir, l.name.base), l.name.tag);
      } else if Touched(g, l) && l.name.Prev? {
        assert l == PrevOf(Sub(l.dir, l.name.base), g.tag);
      }
    }
  }

  lemma RestoredIsSuccess(g: Job, d: Disk, warned: seq<Loc>)
    requires ValidJob(g) && Unmarked(g, d) && Restored(g, d) &&
      (At(d, NextLoc(g.tag)).Some? <==> NextLoc(g.tag) in warned)
    requires forall p :: p in g.items ==> At(d, InstallOf(p, g.tag)).None?
    requires forall p :: p in g.items && At(d, PrevOf(p, g.tag)).Some? ==> PrevOf(p, g.tag) in warned
    requires forall l :: l in warned ==> l in d.tree && !l.name.Live?
    ensures Succeeded(g, d, warned)
  {
    hide Clean, WF, Holds, ValidManifest, NoneOrNew;
    forall l | l in d.tree && !l.name.Live? ensures l in warned {
      assert At(g.orig, l).None? && Touched(g, l);
      assert l.name.Temp? ==> l == TempOf(Sub(l.dir, l.name.base), l.name.tag);
      assert l.name.Prev? ==> l == PrevOf(Sub(l.dir, l.name.base), g.tag);
    }
  }

  /** The marker's name is a file's or free, so the update can take it. */
  lemma UpdateLands(g: Job, d: Disk)
    requires ValidJob(g) && Good(g, d) && IsNew(g, At(d, NextLoc(g.tag))) &&
      At(d, NextLoc(g.tag)) != At(d, MarkerLoc(g.tag))
    ensures Do(d, Rename(Root, Next(g.tag), Marker(g.tag))).Some?
  {
  }

  /** A replaced file can be put back, or removed where there was none. */
  lemma PutBackGoes(g: Job, d: Disk, p: RelPath)
    requires ValidJob(g) && Marked(g, d) && p in g.items && Replaced(g, d, p)
    ensures if At(g.orig, Home(p)).Some? then Do(d, Rename(p.parent, Prev(p.name, g.tag), Live(p.name))).Some?
      else Do(d, Unlink(Home(p))).Some?
  {
    hide Fits, Touched, NoneOrNew;
  }

  lemma ParentsEarlier(g: Job, d: Disk, created: seq<RelPath>)
    requires DirsFit(g, d, created)
    ensures forall i, j :: 0 <= i <= j < |created| ==> created[i].parent != created[j]
  {
  }

  /** A marker update is a file of the restore's own, so it can be discarded. */
  lemma UpdateGoes(g: Job, d: Disk)
    requires Body(g, d) && At(d, NextLoc(g.tag)).Some?
    ensures Do(d, Discard(NextLoc(g.tag))).Some?
  {
  }

  /** The slot holds the very file the manifest describes. */
  predicate InSlot(slot: map<RelPath, Bytes>, f: Item) {
    f.path in slot && |slot[f.path]| == f.size && Sha256(slot[f.path]) == f.digest
  }

  ghost predicate NotAFile(g: Job, p: RelPath) {
    At(g.orig, Home(p)).Some? && !At(g.orig, Home(p)).value.File?
  }

  ghost predicate NotADir(g: Job, c: RelPath) {
    At(g.orig, Home(c)).Some? && !At(g.orig, Home(c)).value.Dir?
  }

  /** What stops a restore although no call fails: a bad slot, or an entry of the wrong kind in the way. */
  ghost predicate Obstructed(g: Job, slot: map<RelPath, Bytes>) {
    || (exists f :: f in g.manifest.files && !InSlot(slot, f))
    || (exists p :: p in g.items && NotAFile(g, p))
    || (exists c :: c in g.dirs && NotADir(g, c))
  }

  /** Once the swap can start, neither a file nor a directory is blocked by an entry of another kind. */
  lemma NothingInTheWay(g: Job, d: Disk, created: seq<RelPath>, staged: seq<StagedFile>)
    requires ValidJob(g) && AsideAt(g, d, created, staged, |staged|)
    ensures (forall p :: p in g.items ==> !NotAFile(g, p)) && forall c :: c in g.dirs ==> !NotADir(g, c)
  {
    AllStaged(g, staged);
    forall p | p in g.items ensures !NotAFile(g, p) {
      assert IsStaged(staged, p);
      var i :| 0 <= i < |staged| && staged[i].path == p;
      assert IsAside(g, d, staged[i]);
    }
    assert DirsFit(g, d, MarkerOf(d, g.tag).value.created);
    forall c | c in g.dirs ensures !NotADir(g, c) {
      assert At(d, Home(c)) == Some(Dir);
    }
  }

  /** A created directory is empty once its files are clean and the directories made later are gone. */
  lemma ChildrenGone(g: Job, d: Disk, created: seq<RelPath>, i: nat)
    requires ValidJob(g) && Body(g, d) && DirsFit(g, d, created) && i < |created| && IsDir(d, created[i].parent)
    requires (forall p :: p in g.items ==> CleanFile(g, d, p) && At(d, InstallOf(p, g.tag)).None?)
    requires forall c :: c in created[i + 1..] ==> At(d, Home(c)).None?
    ensures Do(d, Rmdir(created[i])).Some?
  {
    var c := created[i];
    assert c in g.dirs && At(g.orig, Home(c)).None?;
    forall l: Loc | l.dir == c ensures At(d, l).None? {
      assert At(g.orig, l).None?;
      if Touched(g, l) {
        match l.name
        case Live(b) =>
          if Sub(c, b) in g.dirs {
            ChildDirGone(g, d, created, i, Sub(c, b));
          }
        case Temp(b, t) => assert l == TempOf(Sub(c, b), t);
        case Prev(b, t) => assert l == PrevOf(Sub(c, b), t);
        case _ =>
      }
    }
  }

  lemma ChildDirGone(g: Job, d: Disk, created: seq<RelPath>, i: nat, q: RelPath)
    requires DirsFit(g, d, created) && i < |created| && q.parent == created[i] && q in g.dirs &&
      At(g.orig, Home(q)).None?
    requires forall c :: c in created[i + 1..] ==> At(d, Home(c)).None?
    ensures At(d, Home(q)).None?
  {
    if q in created {
      var j :| 0 <= j < |created| && created[j] == q;
      if j > i {
        assert created[i + 1..][j - i - 1] == q;
      }
    }
  }

  lemma RunEnds(g: Job, h: seq<Disk>, r: Phase, u: bool)
    requires Chronicle(g, h, r, u)
    ensures |h| > 0 && h[0] == g.orig && Chronicle(g, h, RollingBack, u)
  {
    hide Good, FinishReady, Disciplined;
  }
}
