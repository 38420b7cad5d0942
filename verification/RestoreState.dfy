/**
  What the volume may look like while a restore runs, after it crashed, and
  while it is being settled.

  `Good` is the one invariant: every disk a restore passes through satisfies
  it, whatever call failed and wherever a crash cut the run. Each manifest file
  is on its own, so the invariant also covers a crash that kept an arbitrary
  subset of the swap's renames.
*/
module RestoreState {
  import opened Wrappers
  import opened Volume

  /** A restore: its tag and manifest, and the disk it started from. */
  datatype Job = Job(
    tag: string, manifest: Manifest, owners: bool, items: map<RelPath, Item>, dirs: set<RelPath>, orig: Disk)

  /** What a validated manifest guarantees: it denotes a tree (module `ManifestTree`). */
  ghost predicate ValidManifest(m: Manifest) {
    && (forall i, j :: 0 <= i < j < |m.files| ==> m.files[i].path != m.files[j].path)
    && (forall i, j :: 0 <= i < j < |m.dirs| ==> m.dirs[i] != m.dirs[j])
    && (forall f :: f in m.files ==> f.path !in m.dirs && (f.path.parent.Root? || f.path.parent in m.dirs))
    && (forall c :: c in m.dirs ==> c.parent.Root? || c.parent in m.dirs)
  }

  function JobOf(tag: string, m: Manifest, owners: bool, orig: Disk): Job
    requires ValidManifest(m)
  {
    Job(tag, m, owners, (map f | f in m.files :: f.path := f), (set c | c in m.dirs), orig)
  }

  ghost predicate ValidJob(g: Job) {
    && WF(g.orig)
    && (forall l :: l in g.orig.tree ==> l.name.Live?)
    && ValidManifest(g.manifest)
    && (forall f :: f in g.manifest.files ==> f.path in g.items && g.items[f.path] == f)
    && (forall p :: p in g.items ==> g.items[p] in g.manifest.files && g.items[p].path == p && p !in g.dirs)
    && (forall c :: c in g.dirs <==> c in g.manifest.dirs)
  }

  /** The entries a restore or its recovery may change. */
  ghost predicate Touched(g: Job, l: Loc) {
    match l.name
    case Live(b) => Sub(l.dir, b) in g.items || Sub(l.dir, b) in g.dirs
    case Temp(b, t) => (t == g.tag || t == InstallTag(g.tag)) && Sub(l.dir, b) in g.items
    case Prev(b, t) => t == g.tag && Sub(l.dir, b) in g.items
    case Marker(t) => l.dir.Root? && t == g.tag
    case Next(t) => l.dir.Root? && t == g.tag
  }

  /** A file the restore made: its inode is none of the original ones. */
  ghost predicate IsNew(g: Job, e: Option<Entry>) {
    e.Some? && e.value.File? && e.value.ino >= g.orig.next
  }

  ghost predicate NoneOrNew(g: Job, e: Option<Entry>) {
    e.None? || IsNew(g, e)
  }

  /** Nothing else moved and no original inode was written. */
  ghost predicate Body(g: Job, d: Disk) {
    && WF(d)
    && g.orig.next <= d.next
    && (forall i :: i in g.orig.inodes ==> i in d.inodes && d.inodes[i] == g.orig.inodes[i])
    && (forall l :: !Touched(g, l) ==> At(d, l) == At(g.orig, l))
    && NoneOrNew(g, At(d, NextLoc(g.tag)))
    && (forall p :: p in g.items ==> NoneOrNew(g, At(d, TempOf(p, g.tag))))
    && (forall p :: p in g.items ==> NoneOrNew(g, At(d, InstallOf(p, g.tag))))
  }

  /** `p` still names its original inode; the set-aside link, if made, is a second name of it. */
  ghost predicate Original(g: Job, d: Disk, p: RelPath)
  {
    var o := At(g.orig, Home(p));
    && At(d, Home(p)) == o
    && (At(d, PrevOf(p, g.tag)).None? || (At(d, PrevOf(p, g.tag)) == o && o.value.File?))
  }

  /** `p` names the restored file and the set-aside link, if there was an original, holds it. */
  ghost predicate Replaced(g: Job, d: Disk, p: RelPath)
  {
    var o := At(g.orig, Home(p));
    && At(d, TempOf(p, g.tag)).None?
    && IsNew(g, At(d, Home(p)))
    && At(d, PrevOf(p, g.tag)) == o
    && (o.Some? ==> o.value.File?)
  }

  /** The case split that makes a rollback possible. */
  ghost predicate Undoable(g: Job, d: Disk, p: RelPath)
  {
    Original(g, d, p) || Replaced(g, d, p)
  }

  predicate MetaMatches(n: Inode, f: Item, owners: bool) {
    n.mode == f.mode && (owners ==> n.uid == f.uid && n.gid == f.gid)
  }

  /** `l` is a file with exactly the manifest's bytes, mode and owner. */
  predicate Holds(d: Disk, l: Loc, f: Item, owners: bool) {
    && InodeAt(d, l).Some?
    && Matches(InodeAt(d, l).value, f)
    && MetaMatches(InodeAt(d, l).value, f, owners)
  }

  /** The file can still be finished: staged in full with its original aside, or already in place. */
  ghost predicate Finishable(g: Job, d: Disk, p: RelPath)
    requires p in g.items
  {
    && (At(d, Home(p)).Some? ==> At(d, Home(p)).value.File?)
    && if At(d, TempOf(p, g.tag)).Some?
       then Holds(d, TempOf(p, g.tag), g.items[p], g.owners) && At(d, PrevOf(p, g.tag)) == At(g.orig, Home(p))
       else Holds(d, Home(p), g.items[p], g.owners)
  }

  function PhaseOf(d: Disk, tag: string): Option<Phase> {
    match MarkerOf(d, tag)
    case Some(m) => Some(m.phase)
    case None => None
  }

  /** The marker lists every manifest file once, and which of them had an original. */
  ghost predicate ListsAll(g: Job, files: seq<MarkedFile>) {
    && |files| == |g.manifest.files|
    && forall i :: 0 <= i < |files| ==>
         && files[i].path == g.manifest.files[i].path
         && files[i].hadPrev == At(g.orig, Home(files[i].path)).Some?
  }

  /**
    The directories the restore made are all recorded, none existed before, and
    each is listed after its parent.
  */
  ghost predicate DirsFit(g: Job, d: Disk, created: seq<RelPath>) {
    && (forall i :: 0 <= i < |created| ==>
          && created[i] in g.dirs
          && At(g.orig, Home(created[i])).None?
          && (At(d, Home(created[i])).Some? ==> At(d, Home(created[i])) == Some(Dir)))
    && (forall i, j :: 0 <= i <= j < |created| ==> created[i].parent != created[j])
    && (forall i, j :: 0 <= i < j < |created| ==> created[i] != created[j])
    && (forall c :: c in g.dirs && c !in created ==> At(d, Home(c)) == At(g.orig, Home(c)))
  }

  ghost predicate MarkerShape(g: Job, m: SwapMarker) {
    && m.manifest == g.manifest
    && m.owners == g.owners
    && if m.phase == Staging then m.files == [] else ListsAll(g, m.files)
  }

  /** `m` is a truthful record of `d`. */
  ghost predicate Fits(g: Job, d: Disk, m: SwapMarker)
  {
    && MarkerShape(g, m)
    && (forall p :: p in g.items ==> Undoable(g, d, p))
    && (m.phase == Staging ==> forall p :: p in g.items ==> Original(g, d, p))
    && DirsFit(g, d, m.created)
  }

  /** Before the marker was written, or after an undo: nothing to see but a marker update. */
  ghost predicate Clean(g: Job, d: Disk)
  {
    && (forall p :: p in g.items ==>
          && At(d, Home(p)) == At(g.orig, Home(p))
          && At(d, TempOf(p, g.tag)).None?
          && At(d, PrevOf(p, g.tag)).None?)
    && (forall c :: c in g.dirs ==> At(d, Home(c)) == At(g.orig, Home(c)))
  }

  /** Restored: set-aside originals may be left, and nothing else. */
  ghost predicate Restored(g: Job, d: Disk)
  {
    && (forall p :: p in g.items ==>
          && Holds(d, Home(p), g.items[p], g.owners)
          && At(d, TempOf(p, g.tag)).None?
          && (At(d, PrevOf(p, g.tag)).Some? ==>
            At(d, PrevOf(p, g.tag)) == At(g.orig, Home(p)) && At(d, PrevOf(p, g.tag)).value.File?))
    && (forall c :: c in g.dirs ==> At(d, Home(c)) == Some(Dir))
  }

  /** A marker is on disk and describes it. */
  ghost predicate Marked(g: Job, d: Disk)
  {
    && Body(g, d)
    && IsNew(g, At(d, MarkerLoc(g.tag)))
    && MarkerOf(d, g.tag).Some?
    && Fits(g, d, MarkerOf(d, g.tag).value)
  }

  ghost predicate Unmarked(g: Job, d: Disk)
  {
    && Body(g, d)
    && At(d, MarkerLoc(g.tag)).None?
    && (Clean(g, d) || Restored(g, d))
  }

  /** What a failed restore may leave: a marker for recovery to act on, or nothing at all. */
  ghost predicate Accounted(g: Job, d: Disk)
  {
    Marked(g, d) || (Unmarked(g, d) && Clean(g, d))
  }

  ghost predicate Good(g: Job, d: Disk)
  {
    Marked(g, d) || Unmarked(g, d)
  }

  /** Every file can be finished, and every directory it goes into is there. */
  ghost predicate FinishReady(g: Job, d: Disk) {
    && (forall p :: p in g.items ==> Finishable(g, d, p))
    && (forall c :: c in g.dirs ==> At(d, Home(c)) == Some(Dir))
  }
}
