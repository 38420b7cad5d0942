/** A capture passes validation, and restoring it and capturing again changes nothing. */
module CaptureRestore {
  import opened Wrappers
  import opened Volume
  import opened RestoreState
  import opened Restore
  import opened RestoreFrames
  import opened Chronicles
  import opened DepthSort
  import opened Names
  import opened Paths
  import opened ManifestTree
  import opened Scan
  import opened StringOrder
  import opened Capture

  /** What the kernel guarantees of the names in a directory. */
  ghost predicate KernelNames(d: Disk) {
    forall l :: l in d.tree && l.name.Live? ==> SafeName(l.name.base)
  }

  lemma {:induction false} SeenIsSafe(d: Disk, p: Path)
    requires KernelNames(d) && (SeenDir(d, p) || (p.Sub? && SeenFile(d, p)))
    ensures Safe(p)
  {
    if p.Sub? {
      SeenIsSafe(d, p.parent);
      assert Home(p) in d.tree;
    }
  }

  /** The manifest as it is written: with path strings, and a mode and owner for each directory. */
  function ListingOf(m: Manifest, metas: seq<(nat, nat, nat)>): Listing
    requires |metas| == |m.dirs|
  {
    Listing(
      MANIFEST_VERSION,
      seq(|m.dirs|, i requires 0 <= i < |m.dirs| => DirEntry(Render(m.dirs[i]), metas[i].0, metas[i].1, metas[i].2)),
      seq(|m.files|, i requires 0 <= i < |m.files| => EntryOf(m.files[i])))
  }

  function EntryOf(f: Item): FileEntry {
    FileEntry(Render(f.path), f.size, f.digest, f.mode, f.uid, f.gid)
  }

  lemma {:induction false} SameTotals(files: seq<Item>, entries: seq<FileEntry>)
    requires |files| == |entries| && forall i :: 0 <= i < |files| ==> entries[i].size == files[i].size
    ensures ManifestTree.Total(entries) == Sizes(files)
  {
    if files != [] {
      SameTotals(files[..|files| - 1], entries[..|files| - 1]);
    }
  }

  /** What a capture lists is a tree. */
  lemma CapturedIsTree(d: Disk, m: Manifest)
    requires Captures(d, m)
    ensures ValidManifest(m)
  {
    forall f | f in m.files ensures f.path !in m.dirs && (f.path.parent.Root? || f.path.parent in m.dirs) {
      assert SeenFile(d, f.path);
    }
  }

  lemma PathsAreSafe(d: Disk, m: Manifest)
    requires Captures(d, m) && KernelNames(d)
    ensures (forall c :: c in m.dirs ==> Safe(c)) && forall f :: f in m.files ==> Safe(f.path)
  {
    forall c | c in m.dirs ensures Safe(c) {
      SeenIsSafe(d, c);
    }
    forall f | f in m.files ensures Safe(f.path) {
      assert SeenFile(d, f.path);
      SeenIsSafe(d, f.path);
    }
  }

  lemma ReadsTheSame(m: Manifest, metas: seq<(nat, nat, nat)>)
    requires |metas| == |m.dirs| && (forall c :: c in m.dirs ==> Safe(c)) && forall f :: f in m.files ==> Safe(f.path)
    ensures AllChecked(ListingOf(m, metas)) && ToTree(ListingOf(m, metas)) == m
  {
    hide CheckRel, Parse, Render, Safe;
    var w := ListingOf(m, metas);
    forall i | 0 <= i < |m.dirs| ensures CheckRel(w.dirs[i].path) && Parse(w.dirs[i].path) == m.dirs[i] {
      assert m.dirs[i] in m.dirs;
      RenderedIsChecked(m.dirs[i]);
      ParsesBack(m.dirs[i]);
    }
    forall i | 0 <= i < |m.files| ensures CheckRel(w.files[i].path) && Parse(w.files[i].path) == m.files[i].path {
      assert m.files[i] in m.files;
      RenderedIsChecked(m.files[i].path);
      ParsesBack(m.files[i].path);
    }
  }

  /** Every manifest a capture writes passes validation, and is read back as the tree that was captured. */
  lemma CapturedIsValid(d: Disk, m: Manifest, metas: seq<(nat, nat, nat)>)
    requires Captures(d, m) && KernelNames(d)
    requires |metas| == |m.dirs| && forall i :: 0 <= i < |metas| ==> metas[i].0 <= PERMISSION_BITS
    ensures AllChecked(ListingOf(m, metas)) && Valid(ListingOf(m, metas)) && ToTree(ListingOf(m, metas)) == m
  {
    hide ValidManifest, Captures, Valid, Safe, AllChecked, ToTree, Entries, ListingOf;
    CapturedIsTree(d, m);
    PathsAreSafe(d, m);
    ReadsTheSame(m, metas);
    ListedBounds(d, m, metas);
    ValidIffTree(ListingOf(m, metas));
    assert NamesTree(ListingOf(m, metas));
  }

  lemma ListedBounds(d: Disk, m: Manifest, metas: seq<(nat, nat, nat)>)
    requires Captures(d, m)
    requires |metas| == |m.dirs| && forall i :: 0 <= i < |metas| ==> metas[i].0 <= PERMISSION_BITS
    ensures var w := ListingOf(m, metas);
      && w.version == MANIFEST_VERSION
      && (forall e :: e in Entries(w) ==> e.1 <= PERMISSION_BITS)
      && (forall f :: f in w.files ==> f.size <= FILE_CAP) && ManifestTree.Total(w.files) <= TOTAL_CAP
  {
    hide Captures, Render;
    var w := ListingOf(m, metas);
    FilesAreBounded(d, m);
    SameTotals(m.files, w.files);
    ModesAreBounded(m, metas);
  }

  lemma FilesAreBounded(d: Disk, m: Manifest)
    requires Captures(d, m)
    ensures Sizes(m.files) <= TOTAL_CAP
    ensures forall i :: 0 <= i < |m.files| ==> m.files[i].size <= FILE_CAP && m.files[i].mode <= PERMISSION_BITS
  {
    hide SeenFile, SeenDir, InOrder, Distinct, Sizes, InodeAt;
    forall i | 0 <= i < |m.files| ensures m.files[i].size <= FILE_CAP && m.files[i].mode <= PERMISSION_BITS {
      assert m.files[i] in m.files;
    }
  }

  lemma ModesAreBounded(m: Manifest, metas: seq<(nat, nat, nat)>)
    requires |metas| == |m.dirs| && forall i :: 0 <= i < |metas| ==> metas[i].0 <= PERMISSION_BITS
    requires forall i :: 0 <= i < |m.files| ==> m.files[i].size <= FILE_CAP && m.files[i].mode <= PERMISSION_BITS
    ensures var w := ListingOf(m, metas);
      && (forall e :: e in Entries(w) ==> e.1 <= PERMISSION_BITS) && (forall f :: f in w.files ==> f.size <= FILE_CAP)
  {
    hide Render;
    var w := ListingOf(m, metas);
    var es := Entries(w);
    forall i | 0 <= i < |es| ensures es[i].1 <= PERMISSION_BITS {
      if i < |m.dirs| {
        assert es[i].1 == metas[i].0;
      } else {
        assert es[i].1 == m.files[i - |m.dirs|].mode;
      }
    }
  }

  /** After a restore into an empty directory an entry is what the manifest says it is. */
  lemma InPlace(g: Job, d: Disk, warned: seq<Loc>, p: RelPath)
    requires ValidJob(g) && g.orig.tree == map[] && Succeeded(g, d, warned)
    ensures p in g.items ==>
      Holds(d, Home(p), g.items[p], g.owners) && At(d, Home(p)).Some? && At(d, Home(p)).value.File?
    ensures p in g.dirs ==> At(d, Home(p)) == Some(Dir)
    ensures p !in g.items && p !in g.dirs ==> At(d, Home(p)).None?
  {
  }

  lemma CapturesJob(src: Disk, m: Manifest, g: Job, p: RelPath)
    requires Captures(src, m) && ValidJob(g) && g.manifest == m
    ensures p in g.dirs <==> SeenDir(src, p)
    ensures p in g.items <==> SeenFile(src, p)
    ensures p in g.items ==> g.items[p] in m.files && g.items[p].path == p
  {
    if SeenFile(src, p) {
      var f :| f in m.files && f.path == p;
    }
  }

  /** Restored into an empty directory: exactly the captured directories are seen again. */
  lemma {:induction false} SameDirs(src: Disk, m: Manifest, g: Job, d: Disk, warned: seq<Loc>, p: Path)
    requires Captures(src, m) && ValidJob(g) && g.manifest == m && g.orig.tree == map[] && Succeeded(g, d, warned)
    ensures SeenDir(d, p) <==> SeenDir(src, p)
  {
    hide Captures, SeenFile, Transient, ValidJob, Succeeded;
    if p.Sub? {
      SameDirs(src, m, g, d, warned, p.parent);
      CapturesJob(src, m, g, p);
      InPlace(g, d, warned, p);
    }
  }

  /** And exactly the captured files, each with the bytes and mode it had. */
  lemma SameFiles(src: Disk, m: Manifest, g: Job, d: Disk, warned: seq<Loc>, p: RelPath)
    requires Captures(src, m) && ValidJob(g) && g.manifest == m && g.orig.tree == map[] && Succeeded(g, d, warned)
    ensures SeenFile(d, p) <==> SeenFile(src, p)
    ensures SeenFile(src, p) ==> p in g.items && g.items[p] in m.files && Holds(d, Home(p), g.items[p], g.owners)
  {
    hide SeenDir, Transient, Captures, ValidJob, Succeeded;
    SameDirs(src, m, g, d, warned, p.parent);
    CapturesJob(src, m, g, p);
    InPlace(g, d, warned, p);
  }

  /** Two sorted lists of the same paths are the same list. */
  lemma {:induction false} SortedUnique(s: seq<RelPath>, t: seq<RelPath>)
    requires Distinct(s) && Distinct(t) && InOrder(s) && InOrder(t) && forall x :: x in s <==> x in t
    requires (forall x :: x in s ==> Safe(x)) && forall x :: x in t ==> Safe(x)
    ensures s == t
  {
    hide LessEq, Render, Safe;
    if s == [] || t == [] {
      NothingIn(s);
      NothingIn(t);
    } else {
      FirstIsFirst(s, t);
      OnceFirst(s);
      OnceFirst(t);
      forall x ensures x in s[1..] <==> x in t[1..] {
        assert x in s <==> x == s[0] || x in s[1..];
        assert x in t <==> x == s[0] || x in t[1..];
      }
      SortedUnique(s[1..], t[1..]);
      assert s == [s[0]] + s[1..] && t == [t[0]] + t[1..];
    }
  }

  lemma OnceFirst(s: seq<RelPath>)
    requires Distinct(s) && s != []
    ensures s[0] !in s[1..] && Distinct(s[1..]) && forall x :: x in s <==> x == s[0] || x in s[1..]
  {
    assert s == [s[0]] + s[1..];
  }

  /** The least path is first in both. */
  lemma FirstIsFirst(s: seq<RelPath>, t: seq<RelPath>)
    requires s != [] && t != [] && InOrder(s) && InOrder(t) && (forall x :: x in s <==> x in t) && Safe(s[0]) &&
      Safe(t[0])
    ensures s[0] == t[0] && InOrder(s[1..]) && InOrder(t[1..])
  {
    hide LessEq, Render, Safe;
    assert s[0] in t && t[0] in s;
    var i :| 0 <= i < |t| && t[i] == s[0];
    var j :| 0 <= j < |s| && s[j] == t[0];
    assert LessEq(Render(t[0]), Render(t[i])) && LessEq(Render(s[0]), Render(s[j]));
    TotalOrder(Render(s[0]), Render(t[0]));
    ParsesBack(s[0]);
    ParsesBack(t[0]);
  }

  /** Two captures list the same directories and files in the same order, with equal bytes and modes. */
  ghost predicate SameCapture(s: Snapshot, t: Snapshot, owners: bool) {
    && s.manifest.dirs == t.manifest.dirs && s.bytes == t.bytes
    && |s.manifest.files| == |t.manifest.files|
    && (forall i :: 0 <= i < |s.manifest.files| ==> SameFile(s.manifest.files[i], t.manifest.files[i], owners))
  }

  /** Equal, but for the owner when owners are not restored. */
  ghost predicate SameFile(f: Item, g: Item, owners: bool) {
    g == if owners then f else f.(uid := g.uid, gid := g.gid)
  }

  /** What a restore into an empty directory leaves can be captured in its turn. */
  lemma RestoredIsCapturable(src: Disk, s: Snapshot, g: Job, d: Disk, warned: seq<Loc>)
    requires PlainFiles(src) && ReadFrom(src, s) && Capturable(src) && WF(d)
    requires ValidJob(g) && g.manifest == s.manifest && g.orig.tree == map[] && Succeeded(g, d, warned)
    ensures PlainFiles(d) && Capturable(d)
  {
    hide Captures, Succeeded, ValidJob, Transient, SeenFile, SeenDir, WithinCaps, PlainFiles;
    forall q ensures SeenDir(d, q) == SeenDir(src, q) {
      SameDirs(src, s.manifest, g, d, warned, q);
    }
    forall p: RelPath ensures SeenFile(d, p) == SeenFile(src, p) {
      SameFiles(src, s.manifest, g, d, warned, p);
    }
    forall p: RelPath | SeenFile(src, p)
      ensures SizeAt(d, p) == SizeAt(src, p) && InodeAt(d, Home(p)).Some? && InodeAt(d, Home(p)).value.blob.Raw?
    {
      SameFiles(src, s.manifest, g, d, warned, p);
      CapturesJob(src, s.manifest, g, p);
      CapturedItem(src, s.manifest, g.items[p]);
      HeldSize(src, d, p, g.items[p], g.owners);
    }
    ArePlain(d);
    SameCaps(src, d);
  }

  lemma CapturedItem(d: Disk, m: Manifest, f: Item)
    requires Captures(d, m) && f in m.files
    ensures InodeAt(d, Home(f.path)).Some? && InodeAt(d, Home(f.path)).value.blob.Raw? &&
      f == ItemOf(f.path, InodeAt(d, Home(f.path)).value)
  {
  }

  lemma HeldSize(src: Disk, d: Disk, p: RelPath, f: Item, owners: bool)
    requires InodeAt(src, Home(p)).Some? && InodeAt(src, Home(p)).value.blob.Raw? &&
      f == ItemOf(p, InodeAt(src, Home(p)).value)
    requires Holds(d, Home(p), f, owners)
    ensures SizeAt(d, p) == SizeAt(src, p) && InodeAt(d, Home(p)).value.blob == InodeAt(src, Home(p)).value.blob
  {
  }

  lemma ArePlain(d: Disk)
    requires WF(d) &&
      forall p: RelPath :: SeenFile(d, p) ==> InodeAt(d, Home(p)).Some? && InodeAt(d, Home(p)).value.blob.Raw?
    ensures PlainFiles(d)
  {
  }

  lemma SameCaps(src: Disk, d: Disk)
    requires WithinCaps(src) && (forall p: RelPath :: SeenFile(d, p) == SeenFile(src, p))
    requires forall p: RelPath :: SeenFile(src, p) ==> SizeAt(d, p) == SizeAt(src, p)
    ensures WithinCaps(d)
  {
    hide SeenFile, SizeAt, SizesAt;
    forall names | ListsFiles(d, names) ensures SizesAt(d, names) <= TOTAL_CAP {
      assert ListsFiles(src, names);
      SameSizes(src, d, names);
    }
  }

  lemma {:induction false} SameSizes(src: Disk, d: Disk, names: seq<RelPath>)
    requires forall p :: p in names ==> SizeAt(d, p) == SizeAt(src, p)
    ensures SizesAt(d, names) == SizesAt(src, names)
  {
    hide SizeAt;
    if names != [] {
      SameSizes(src, d, names[..|names| - 1]);
    }
  }

  /** Captured again it is the same capture. */
  lemma CapturedAgain(src: Disk, s: Snapshot, g: Job, d: Disk, warned: seq<Loc>, t: Snapshot)
    requires KernelNames(src) && ReadFrom(src, s) && ReadFrom(d, t)
    requires ValidJob(g) && g.manifest == s.manifest && g.orig.tree == map[] && Succeeded(g, d, warned)
    ensures SameCapture(s, t, g.owners)
  {
    hide Succeeded, ValidJob, Transient, SeenFile, SeenDir, Captures, KernelNames;
    SameDirList(src, s.manifest, g, d, warned, t.manifest);
    SameFileList(src, s.manifest, g, d, warned, t.manifest);
    var m, n := s.manifest, t.manifest;
    forall i | 0 <= i < |m.files| ensures SameFile(m.files[i], n.files[i], g.owners) {
      SameAgain(src, m, g, d, warned, n, i);
    }
    forall p ensures p in s.bytes <==> p in t.bytes {
    }
    forall p | p in s.bytes ensures s.bytes[p] == t.bytes[p] {
      var i :| 0 <= i < |Files(m)| && Files(m)[i] == p;
      SameAgain(src, m, g, d, warned, n, i);
    }
  }

  lemma SameAgain(src: Disk, m: Manifest, g: Job, d: Disk, warned: seq<Loc>, n: Manifest, i: nat)
    requires Captures(src, m) && Captures(d, n) && ValidJob(g) && g.manifest == m && g.orig.tree == map[] &&
      Succeeded(g, d, warned)
    requires i < |m.files| && Files(n) == Files(m)
    ensures SameFile(m.files[i], n.files[i], g.owners)
    ensures InodeAt(d, Home(m.files[i].path)).Some? && InodeAt(src, Home(m.files[i].path)).Some?
    ensures InodeAt(d, Home(m.files[i].path)).value.blob == InodeAt(src, Home(m.files[i].path)).value.blob
  {
    var f, f' := m.files[i], n.files[i];
    assert Files(m)[i] == f.path && Files(n)[i] == f'.path;
    assert f in m.files && f' in n.files;
    CapturedItem(src, m, f);
    CapturedItem(d, n, f');
    HasCaptured(src, m, f);
    SameFiles(src, m, g, d, warned, f.path);
    OnePerPath(src, m, g.items[f.path], f);
    hide Captures, ValidJob, Succeeded, SeenFile;
    HeldSize(src, d, f.path, f, g.owners);
    SameItem(src, d, f.path, f, f', f, g.owners);
  }

  lemma HasCaptured(d: Disk, m: Manifest, f: Item)
    requires Captures(d, m) && f in m.files
    ensures SeenFile(d, f.path)
  {
  }

  lemma OnePerPath(d: Disk, m: Manifest, f: Item, f': Item)
    requires Captures(d, m) && f in m.files && f' in m.files && f.path == f'.path
    ensures f == f'
  {
  }

  lemma SameDirList(src: Disk, m: Manifest, g: Job, d: Disk, warned: seq<Loc>, n: Manifest)
    requires Captures(src, m) && KernelNames(src) && Captures(d, n)
    requires ValidJob(g) && g.manifest == m && g.orig.tree == map[] && Succeeded(g, d, warned)
    ensures n.dirs == m.dirs
  {
    PathsAreSafe(src, m);
    forall p: RelPath ensures p in n.dirs <==> p in m.dirs {
      SameDirs(src, m, g, d, warned, p);
    }
    SortedUnique(n.dirs, m.dirs);
  }

  lemma SameFileList(src: Disk, m: Manifest, g: Job, d: Disk, warned: seq<Loc>, n: Manifest)
    requires Captures(src, m) && KernelNames(src) && Captures(d, n)
    requires ValidJob(g) && g.manifest == m && g.orig.tree == map[] && Succeeded(g, d, warned)
    ensures Files(n) == Files(m)
  {
    hide Captures, Succeeded, ValidJob, SeenFile;
    PathsAreSafe(src, m);
    FilesListed(src, m);
    FilesListed(d, n);
    forall p: RelPath ensures p in Files(n) <==> p in Files(m) {
      SameFiles(src, m, g, d, warned, p);
    }
    forall p | p in Files(m) ensures Safe(p) {
      var i :| 0 <= i < |m.files| && Files(m)[i] == p;
      assert m.files[i] in m.files;
    }
    SortedUnique(Files(n), Files(m));
  }

  lemma FilesListed(d: Disk, m: Manifest)
    requires Captures(d, m)
    ensures ListsFiles(d, Files(m)) && InOrder(Files(m))
  {
    hide SeenFile, SeenDir, InOrder;
    forall p: RelPath ensures p in Files(m) <==> SeenFile(d, p) {
      if p in Files(m) {
        var i :| 0 <= i < |m.files| && Files(m)[i] == p;
        assert m.files[i] in m.files;
      }
      if SeenFile(d, p) {
        var f :| f in m.files && f.path == p;
        var i :| 0 <= i < |m.files| && m.files[i] == f;
        assert Files(m)[i] == p;
      }
    }
  }

  /** Nothing stands in the way of restoring a capture into an empty directory. */
  lemma NotObstructed(src: Disk, s: Snapshot, start: Disk, owners: bool, tag: string)
    requires ReadFrom(src, s) && start.tree == map[] && ValidManifest(s.manifest)
    ensures !Obstructed(JobOf(tag, s.manifest, owners, start), s.bytes)
  {
    hide SeenFile, SeenDir, InOrder, Distinct;
    forall f | f in s.manifest.files ensures InSlot(s.bytes, f) {
      var i :| 0 <= i < |s.manifest.files| && s.manifest.files[i] == f;
      assert Files(s.manifest)[i] == f.path;
    }
  }

  /**
    Capture, restore into an empty directory, capture again, with no call
    failing: whatever could be captured at all is restored, can be captured
    again, and comes out the same.
  */
  method RoundTrip(src: Disk, start: Disk, owners: bool, tag: string, faults: nat -> bool)
    returns (first: Result<Snapshot, Unread>, out: Outcome, after: Disk, second: Result<Snapshot, Unread>)
    requires PlainFiles(src) && KernelNames(src) && WF(start) && start.tree == map[] && forall n :: !faults(n)
    ensures first.Ok? <==> Capturable(src)
    ensures first.Ok? ==> out.Done? && BroughtBack(src, after, owners)
    ensures first.Ok? ==> second.Ok? && SameCapture(first.value, second.value, owners)
  {
    hide Capturable, ReadFrom, KernelNames, WF, PlainFiles, ValidManifest, Obstructed, Succeeded, SameCapture;
    first := ReadOnce(src);
    if first.Err? {
      return first, Refused, start, first;
    }
    var s := first.value;
    ReadIsTree(src, s);
    NotObstructed(src, s, start, owners, tag);
    var warned;
    ghost var run, unsynced;
    out, after, warned, run, unsynced := Materialize(start, s.bytes, s.manifest, s.manifest, owners, tag, faults);
    ghost var g := JobOf(tag, s.manifest, owners, start);
    RunIsWF(g, run, RollingBack, unsynced);
    RestoredIsCapturable(src, s, g, after, warned);
    AllBroughtBack(src, s, g, after, warned);
    second := ReadOnce(after);
    CapturedAgain(src, s, g, after, warned, second.value);
  }

  /**
    `d` shows the directories and files that `src` does, each file with the
    bytes and the permission bits it has there, and with its owner if that was
    restored.
  */
  ghost predicate BroughtBack(src: Disk, d: Disk, owners: bool) {
    && (forall c: RelPath :: SeenDir(d, c) <==> SeenDir(src, c))
    && (forall p: RelPath :: SeenFile(d, p) <==> SeenFile(src, p))
    && (forall p: RelPath :: SeenFile(src, p) ==> SameInode(src, d, p, owners))
  }

  ghost predicate SameInode(src: Disk, d: Disk, p: RelPath, owners: bool) {
    var a, b := InodeAt(src, Home(p)), InodeAt(d, Home(p));
    && a.Some? && b.Some? && b.value.blob == a.value.blob && b.value.mode == a.value.mode % 512
    && (owners ==> b.value.uid == a.value.uid && b.value.gid == a.value.gid)
  }

  lemma AllBroughtBack(src: Disk, s: Snapshot, g: Job, d: Disk, warned: seq<Loc>)
    requires ReadFrom(src, s) && ValidJob(g) && g.manifest == s.manifest && g.orig.tree == map[]
    requires Succeeded(g, d, warned)
    ensures BroughtBack(src, d, g.owners)
  {
    hide Captures, Succeeded, ValidJob, SeenFile, SeenDir, SameInode;
    forall c: RelPath ensures SeenDir(d, c) <==> SeenDir(src, c) {
      SameDirs(src, s.manifest, g, d, warned, c);
    }
    forall p: RelPath ensures SeenFile(d, p) <==> SeenFile(src, p)
      ensures SeenFile(src, p) ==> SameInode(src, d, p, g.owners)
    {
      SameFiles(src, s.manifest, g, d, warned, p);
      if SeenFile(src, p) {
        CapturesJob(src, s.manifest, g, p);
        OneBroughtBack(src, s.manifest, g, d, p);
      }
    }
  }

  lemma OneBroughtBack(src: Disk, m: Manifest, g: Job, d: Disk, p: RelPath)
    requires Captures(src, m) && p in g.items && g.items[p] in m.files && g.items[p].path == p
    requires Holds(d, Home(p), g.items[p], g.owners)
    ensures SameInode(src, d, p, g.owners)
  {
    hide SeenFile, SeenDir, InOrder;
    assert IsItemOf(g.items[p], InodeAt(src, Home(p)).value);
  }

  lemma ReadIsTree(d: Disk, s: Snapshot)
    requires ReadFrom(d, s)
    ensures ValidManifest(s.manifest)
  {
    CapturedIsTree(d, s.manifest);
  }

  lemma RunIsWF(g: Job, run: seq<Disk>, r: Phase, unsynced: bool)
    requires Chronicle(g, run, r, unsynced)
    ensures |run| > 0 && WF(run[|run| - 1])
  {
  }

  lemma SameItem(src: Disk, d: Disk, p: RelPath, f: Item, f': Item, item: Item, owners: bool)
    requires InodeAt(src, Home(p)).Some? && IsItemOf(f, InodeAt(src, Home(p)).value)
    requires InodeAt(d, Home(p)).Some? && IsItemOf(f', InodeAt(d, Home(p)).value)
    requires Holds(d, Home(p), item, owners) && item == f
    ensures f'.size == f.size && f'.digest == f.digest && f'.mode == f.mode &&
      (owners ==> f'.uid == f.uid && f'.gid == f.gid)
  {
  }
}
