/** `scan_at`: the config files and directories of a volume, found by walking it. */
module Scan {
  import opened Wrappers
  import opened Volume
  import opened DepthSort
  import opened Names

  const MAX_DEPTH: nat := 32

  /** A directory a capture enters: no component on the way is transient or anything but a directory. */
  predicate SeenDir(d: Disk, p: Path) {
    p.Root? || (SeenDir(d, p.parent) && !Transient(p.name) && At(d, Home(p)) == Some(Dir))
  }

  predicate SeenFile(d: Disk, p: RelPath) {
    SeenDir(d, p.parent) && !Transient(p.name) && At(d, Home(p)).Some? && At(d, Home(p)).value.File?
  }

  predicate Below(p: Path, dir: Path) {
    p.Sub? && (p.parent == dir || Below(p.parent, dir))
  }

  /** Entered are the directories no component of which is skipped or anything but a directory. */
  lemma {:induction false} SeenDirExactly(d: Disk, p: Path)
    ensures SeenDir(d, p) <==>
      forall q: RelPath :: q == p || Below(p, q) ==> !IsSkipped(q.name) && At(d, Home(q)) == Some(Dir)
  {
    if p.Sub? {
      SeenDirExactly(d, p.parent);
      TransientExactly(p.name);
      hide IsSkipped, Transient;
      assert forall q: RelPath :: q == p || Below(p, q) <==> q == p || (q == p.parent || Below(p.parent, q));
    }
  }

  /** And read are the files in them whose own names are not skipped. */
  lemma SeenFileExactly(d: Disk, p: RelPath)
    ensures SeenFile(d, p) <==>
      && At(d, Home(p)).Some? && At(d, Home(p)).value.File? && !IsSkipped(p.name)
      && forall q: RelPath :: Below(p, q) ==> !IsSkipped(q.name) && At(d, Home(q)) == Some(Dir)
  {
    SeenDirExactly(d, p.parent);
    TransientExactly(p.name);
    hide IsSkipped, Transient, SeenDir;
    assert forall q: RelPath :: Below(p, q) <==> q == p.parent || Below(p.parent, q);
  }

  /** The entry of `dir` that leads to `p`. */
  function Toward(p: Path, dir: Path): RelPath
    requires Below(p, dir)
  {
    if p.parent == dir then p else Toward(p.parent, dir)
  }

  lemma {:induction false} TowardBelow(p: Path, dir: Path, c: RelPath)
    requires c.parent == dir
    ensures p == c || Below(p, c) <==> Below(p, dir) && Toward(p, dir) == c
  {
    BelowIsDeeper(p, dir);
    BelowIsDeeper(dir, dir);
    if p.Sub? && p.parent != dir {
      TowardBelow(p.parent, dir, c);
    }
    if p.Sub? && p.parent == dir {
      BelowIsDeeper(p.parent, c);
    }
  }

  lemma {:induction false} BelowIsDeeper(p: Path, dir: Path)
    ensures Below(p, dir) ==> Depth(p) > Depth(dir)
  {
    if p.Sub? {
      BelowIsDeeper(p.parent, dir);
    }
  }

  lemma {:induction false} SeenOnTheWay(d: Disk, p: Path, dir: Path)
    requires Below(p, dir) && SeenDir(d, p.parent)
    ensures p.parent != dir ==> SeenDir(d, Toward(p, dir)) && Home(Toward(p, dir)) in d.tree
    ensures p.parent == dir ==> Toward(p, dir) == p
  {
    if p.parent != dir && p.parent.parent != dir {
      SeenOnTheWay(d, p.parent, dir);
    }
  }

  lemma {:induction false} AllBelowRoot(p: Path)
    ensures Below(p, Root) <==> p.Sub?
  {
    if p.Sub? {
      AllBelowRoot(p.parent);
    }
  }

  /** `p` is below `dir`, by an entry that has been visited. */
  predicate Reached(p: RelPath, dir: Path, done: set<Loc>) {
    Below(p, dir) && Home(Toward(p, dir)) in done
  }

  function EntriesOf(d: Disk, dir: Path): set<Loc> {
    set l | l in d.tree && l.dir == dir
  }

  lemma OneMoreReached(p: RelPath, dir: Path, done: set<Loc>, c: RelPath)
    requires c.parent == dir
    ensures Reached(p, dir, done + {Home(c)}) <==> Reached(p, dir, done) || p == c || Below(p, c)
  {
    TowardBelow(p, dir, c);
  }

  lemma LiveIsHome(l: Loc)
    ensures l.name.Live? ==> Home(Sub(l.dir, l.name.base)) == l
    ensures !Transient(Spelling(l.name)) ==> l.name.Live? && Spelling(l.name) == l.name.base
  {
    OwnNamesAreSkipped(l.name);
  }

  lemma SkippedReached(p: RelPath, dir: Path, done: set<Loc>, l: Loc)
    requires !l.name.Live?
    ensures Reached(p, dir, done + {l}) <==> Reached(p, dir, done)
  {
  }

  /** `after` adds to `before` the directories under the visited entries of `dir`, each once. */
  ghost predicate FoundDirs(d: Disk, dir: Path, done: set<Loc>, before: seq<RelPath>, after: seq<RelPath>) {
    && (forall p: RelPath :: p in after <==> p in before || (Reached(p, dir, done) && SeenDir(d, p)))
    && (Distinct(before) ==> Distinct(after))
  }

  ghost predicate FoundFiles(d: Disk, dir: Path, done: set<Loc>, before: seq<RelPath>, after: seq<RelPath>) {
    && (forall p: RelPath :: p in after <==> p in before || (Reached(p, dir, done) && SeenFile(d, p)))
    && (Distinct(before) ==> Distinct(after))
  }

  /** Nothing below `dir` has been found yet. */
  ghost predicate NewTo(s: seq<RelPath>, dir: Path) {
    forall p :: p in s ==> !Below(p, dir)
  }

  /** Below a directory, what is seen is reached by one of its entries. */
  lemma SeenIsReached(d: Disk, p: RelPath, dir: Path)
    requires SeenDir(d, p) || SeenFile(d, p)
    ensures Reached(p, dir, EntriesOf(d, dir)) <==> Below(p, dir)
  {
    if Below(p, dir) {
      SeenOnTheWay(d, p, dir);
      TowardIsEntry(p, dir);
    }
  }

  lemma {:induction false} TowardIsEntry(p: Path, dir: Path)
    requires Below(p, dir)
    ensures Toward(p, dir).parent == dir
  {
    if p.parent != dir {
      TowardIsEntry(p.parent, dir);
    }
  }

  lemma ChildIsNew(d: Disk, dir: Path, done: set<Loc>, before: seq<RelPath>, s: seq<RelPath>, c: RelPath)
    requires NewTo(before, dir) && c.parent == dir && Home(c) !in done
    requires forall p :: p in s ==> p in before || Reached(p, dir, done)
    ensures c !in s && NewTo(s, c) && NewTo(s + [c], c)
  {
    BelowIsDeeper(c, c);
    forall p | p in s ensures p != c && !Below(p, c) {
      TowardBelow(p, dir, c);
    }
  }

  lemma DirStep(d: Disk, dir: Path, done: set<Loc>, before: seq<RelPath>, s: seq<RelPath>, c: RelPath, t: seq<RelPath>)
    requires FoundDirs(d, dir, done, before, s) && NewTo(before, dir) && c.parent == dir && Home(c) !in done &&
      SeenDir(d, c)
    requires FoundDirs(d, c, EntriesOf(d, c), s + [c], t)
    ensures FoundDirs(d, dir, done + {Home(c)}, before, t)
  {
    hide SeenDir, Below, Transient;
    ChildIsNew(d, dir, done, before, s, c);
    forall p: RelPath ensures p in t <==> p in before || (Reached(p, dir, done + {Home(c)}) && SeenDir(d, p)) {
      OneMoreReached(p, dir, done, c);
      if SeenDir(d, p) {
        SeenIsReached(d, p, c);
      }
    }
  }

  lemma FilesStep(
      d: Disk, dir: Path, done: set<Loc>, before: seq<RelPath>, s: seq<RelPath>, c: RelPath, t: seq<RelPath>)
    requires FoundFiles(d, dir, done, before, s) && c.parent == dir && SeenDir(d, c)
    requires FoundFiles(d, c, EntriesOf(d, c), s, t)
    ensures FoundFiles(d, dir, done + {Home(c)}, before, t)
  {
    assert !SeenFile(d, c);
    hide SeenFile, Below, Transient, SeenDir;
    forall p: RelPath ensures p in t <==> p in before || (Reached(p, dir, done + {Home(c)}) && SeenFile(d, p)) {
      OneMoreReached(p, dir, done, c);
      if SeenFile(d, p) {
        SeenIsReached(d, p, c);
      }
    }
  }

  lemma {:induction false} NothingBelow(d: Disk, p: Path, c: RelPath)
    requires !SeenDir(d, c)
    ensures Below(p, c) || p == c ==> !SeenDir(d, p)
    ensures p.Sub? && Below(p, c) ==> !SeenFile(d, p)
  {
    BelowIsDeeper(c, c);
    if p.Sub? && p != c && p.parent != c {
      NothingBelow(d, p.parent, c);
    }
  }

  lemma FileStep(
      d: Disk, dir: Path, done: set<Loc>, dirs0: seq<RelPath>, files0: seq<RelPath>, dirs: seq<RelPath>,
      files: seq<RelPath>, c: RelPath)
    requires FoundDirs(d, dir, done, dirs0, dirs) && FoundFiles(d, dir, done, files0, files) && NewTo(files0, dir)
    requires c.parent == dir && Home(c) !in done && SeenFile(d, c)
    ensures FoundDirs(d, dir, done + {Home(c)}, dirs0, dirs) &&
      FoundFiles(d, dir, done + {Home(c)}, files0, files + [c])
  {
    ChildIsNew(d, dir, done, files0, files, c);
    assert !SeenDir(d, c);
    hide SeenFile, Below, Transient, SeenDir;
    forall p: RelPath
      ensures p in dirs <==> p in dirs0 || (Reached(p, dir, done + {Home(c)}) && SeenDir(d, p))
      ensures p in files + [c] <==> p in files0 || (Reached(p, dir, done + {Home(c)}) && SeenFile(d, p))
    {
      OneMoreReached(p, dir, done, c);
      NothingBelow(d, p, c);
    }
  }

  /** An entry that is neither seen as a directory nor as a file. */
  lemma OtherStep(
      d: Disk, dir: Path, done: set<Loc>, dirs0: seq<RelPath>, files0: seq<RelPath>, dirs: seq<RelPath>,
      files: seq<RelPath>, l: Loc)
    requires FoundDirs(d, dir, done, dirs0, dirs) && FoundFiles(d, dir, done, files0, files) && l.dir == dir
    requires l.name.Live? ==> !SeenDir(d, Sub(dir, l.name.base)) && !SeenFile(d, Sub(dir, l.name.base))
    ensures FoundDirs(d, dir, done + {l}, dirs0, dirs) && FoundFiles(d, dir, done + {l}, files0, files)
  {
    hide SeenFile, Below, Transient, SeenDir;
    forall p: RelPath
      ensures p in dirs <==> p in dirs0 || (Reached(p, dir, done + {l}) && SeenDir(d, p))
      ensures p in files <==> p in files0 || (Reached(p, dir, done + {l}) && SeenFile(d, p))
    {
      if l.name.Live? {
        OneMoreReached(p, dir, done, Sub(dir, l.name.base));
        NothingBelow(d, p, Sub(dir, l.name.base));
      } else {
        SkippedReached(p, dir, done, l);
      }
    }
  }

  /** No directory is nested deeper than a walk goes. */
  ghost predicate NoDeeper(dirs: seq<RelPath>) {
    forall p :: p in dirs ==> Depth(p) <= MAX_DEPTH
  }

  class Walk {
    var dirs: seq<RelPath>
    var files: seq<RelPath>

    constructor ()
      ensures dirs == [] && files == []
    {
      dirs, files := [], [];
    }

    /** Entries come in any order; a directory nested too deep ends the walk. */
    method Into(d: Disk, dir: Path, depth: nat) returns (ok: bool)
      requires SeenDir(d, dir) && depth == Depth(dir) <= MAX_DEPTH && NewTo(dirs, dir) && NewTo(files, dir) &&
        NoDeeper(dirs)
      modifies this
      ensures ok ==>
        && FoundDirs(d, dir, EntriesOf(d, dir), old(dirs), dirs)
        && FoundFiles(d, dir, EntriesOf(d, dir), old(files), files)
      ensures NoDeeper(dirs)
      ensures !ok ==> exists q :: SeenDir(d, q) && Depth(q) > MAX_DEPTH
      decreases MAX_DEPTH - depth
    {
      hide FoundDirs, FoundFiles, NewTo, Transient, Spelling;
      var all := EntriesOf(d, dir);
      var names := all;
      ghost var done: set<Loc> := {};
      NothingDone(d, dir, dirs, files);
      while names != {}
        invariant names <= all && done == all - names
        invariant FoundDirs(d, dir, done, old(dirs), dirs) && FoundFiles(d, dir, done, old(files), files)
        invariant NoDeeper(dirs)
      {
        var l :| l in names;
        names := names - {l};
        ok := Visit(d, dir, depth, l, done, old(dirs), old(files));
        if !ok {
          return;
        }
        done := done + {l};
      }
      assert done == all;
      return true;
    }

    method Visit(
        d: Disk, dir: Path, depth: nat, l: Loc, ghost done: set<Loc>, ghost dirs0: seq<RelPath>,
        ghost files0: seq<RelPath>)
      returns (ok: bool)
      requires SeenDir(d, dir) && depth == Depth(dir) <= MAX_DEPTH && NewTo(dirs0, dir) && NewTo(files0, dir) &&
        NoDeeper(dirs)
      requires FoundDirs(d, dir, done, dirs0, dirs) && FoundFiles(d, dir, done, files0, files)
      requires l in d.tree && l.dir == dir && l !in done
      modifies this
      ensures ok ==> FoundDirs(d, dir, done + {l}, dirs0, dirs) && FoundFiles(d, dir, done + {l}, files0, files)
      ensures NoDeeper(dirs)
      ensures !ok ==> exists q :: SeenDir(d, q) && Depth(q) > MAX_DEPTH
      decreases MAX_DEPTH - depth, 0
    {
      LiveIsHome(l);
      FoundMembers(d, dir, done, dirs0, dirs, files0, files);
      hide FoundDirs, FoundFiles, NewTo, Transient, Spelling;
      var name := Spelling(l.name);
      if Transient(name) {
        OtherStep(d, dir, done, dirs0, files0, dirs, files, l);
        return true;
      }
      var rel: RelPath := Sub(dir, name);
      match d.tree[l] {
        case Dir =>
          if depth >= MAX_DEPTH {
            assert SeenDir(d, rel) && Depth(rel) > MAX_DEPTH;
            return false;
          }
          ghost var dirs1, files1 := dirs, files;
          ChildIsNew(d, dir, done, dirs0, dirs, rel);
          ChildIsNew(d, dir, done, files0, files, rel);
          dirs := dirs + [rel];
          ok := Into(d, rel, depth + 1);
          if ok {
            DirStep(d, dir, done, dirs0, dirs1, rel, dirs);
            FilesStep(d, dir, done, files0, files1, rel, files);
          }
        case File(_) =>
          FileStep(d, dir, done, dirs0, files0, dirs, files, rel);
          files := files + [rel];
          ok := true;
        case _ =>
          OtherStep(d, dir, done, dirs0, files0, dirs, files, l);
          ok := true;
      }
    }
  }

  lemma NothingDone(d: Disk, dir: Path, dirs: seq<RelPath>, files: seq<RelPath>)
    ensures FoundDirs(d, dir, {}, dirs, dirs) && FoundFiles(d, dir, {}, files, files)
  {
  }

  lemma FoundMembers(
      d: Disk, dir: Path, done: set<Loc>, dirs0: seq<RelPath>, dirs: seq<RelPath>, files0: seq<RelPath>,
      files: seq<RelPath>)
    requires FoundDirs(d, dir, done, dirs0, dirs) && FoundFiles(d, dir, done, files0, files)
    ensures forall p :: p in dirs ==> p in dirs0 || Reached(p, dir, done)
    ensures forall p :: p in files ==> p in files0 || Reached(p, dir, done)
  {
  }
}
