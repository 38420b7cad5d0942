/** `Manifest::validate`: what it lets through is a tree, and it lets every tree through. */
module ManifestTree {
  import opened Wrappers
  import opened Volume
  import opened RestoreState
  import opened Paths

  const MANIFEST_VERSION := 1
  const PERMISSION_BITS := 511 // 0o777
  const FILE_CAP := 16 * 1048576
  const TOTAL_CAP := 256 * 1048576

  datatype DirEntry = DirEntry(path: string, mode: nat, uid: nat, gid: nat)

  datatype FileEntry = FileEntry(path: string, size: nat, sha256: Digest, mode: nat, uid: nat, gid: nat)

  datatype Listing = Listing(version: nat, dirs: seq<DirEntry>, files: seq<FileEntry>)

  datatype Invalid =
    | BadVersion
    | UnsafePath(path: string)
    | ListedTwice(path: string)
    | BadMode(path: string)
    | NoDirectory(path: string)
    | TooBig(path: string)
    | TooMuch

  /** Every path listed, with its mode: directories first. */
  function Entries(m: Listing): seq<(string, nat)> {
    seq(|m.dirs|, i requires 0 <= i < |m.dirs| => (m.dirs[i].path, m.dirs[i].mode))
    + seq(|m.files|, i requires 0 <= i < |m.files| => (m.files[i].path, m.files[i].mode))
  }

  function DirPaths(m: Listing): set<string> {
    set d | d in m.dirs :: d.path
  }

  function Total(files: seq<FileEntry>): nat {
    if files == [] then 0 else Total(files[..|files| - 1]) + files[|files| - 1].size
  }

  predicate HasDirectory(m: Listing, p: string) {
    SplitRel(p).0 == "" || SplitRel(p).0 in DirPaths(m)
  }

  ghost predicate Plain(e: (string, nat)) {
    CheckRel(e.0) && e.1 <= PERMISSION_BITS
  }

  ghost predicate Once(es: seq<(string, nat)>) {
    forall i, j :: 0 <= i < j < |es| ==> es[i].0 != es[j].0
  }

  ghost predicate Valid(m: Listing) {
    && m.version == MANIFEST_VERSION
    && (forall e :: e in Entries(m) ==> Plain(e) && HasDirectory(m, e.0))
    && Once(Entries(m))
    && (forall f :: f in m.files ==> f.size <= FILE_CAP)
    && Total(m.files) <= TOTAL_CAP
  }

  /** The error says what is wrong. */
  ghost predicate Describes(m: Listing, e: Invalid) {
    match e
    case BadVersion => m.version != MANIFEST_VERSION
    case UnsafePath(p) => !CheckRel(p) && exists x :: x in Entries(m) && x.0 == p
    case ListedTwice(p) => exists i, j :: 0 <= i < j < |Entries(m)| && Entries(m)[i].0 == Entries(m)[j].0 == p
    case BadMode(p) => exists x :: x in Entries(m) && x.0 == p && x.1 > PERMISSION_BITS
    case NoDirectory(p) => !HasDirectory(m, p) && exists x :: x in Entries(m) && x.0 == p
    case TooBig(p) => exists f :: f in m.files && f.path == p && f.size > FILE_CAP
    case TooMuch => Total(m.files) > TOTAL_CAP
  }

  method Validate(m: Listing) returns (r: Result<(), Invalid>)
    ensures r.Ok? <==> Valid(m)
    ensures r.Err? ==> Describes(m, r.error)
  {
    if m.version != MANIFEST_VERSION {
      return Err(BadVersion);
    }
    r := CheckEntries(m);
    if r.Err? {
      return;
    }
    r := CheckDirectories(m);
    if r.Err? {
      return;
    }
    r := CheckSizes(m);
  }

  method CheckEntries(m: Listing) returns (r: Result<(), Invalid>)
    ensures r.Ok? <==> Once(Entries(m)) && forall e :: e in Entries(m) ==> Plain(e)
    ensures r.Err? ==> Describes(m, r.error)
  {
    var entries := Entries(m);
    hide CheckRel, Entries;
    var seen: set<string> := {};
    for i := 0 to |entries|
      invariant forall p :: p in seen <==> exists j :: 0 <= j < i && entries[j].0 == p
      invariant forall j, k :: 0 <= j < k < i ==> entries[j].0 != entries[k].0
      invariant forall j :: 0 <= j < i ==> Plain(entries[j])
    {
      var (path, mode) := entries[i];
      assert entries[i] in entries;
      if !CheckRel(path) {
        return Err(UnsafePath(path));
      }
      if path in seen {
        ghost var j :| 0 <= j < i && entries[j].0 == path;
        return Err(ListedTwice(path));
      }
      seen := seen + {path};
      if mode > PERMISSION_BITS {
        return Err(BadMode(path));
      }
    }
    return Ok(());
  }

  method CheckDirectories(m: Listing) returns (r: Result<(), Invalid>)
    ensures r.Ok? <==> forall e :: e in Entries(m) ==> HasDirectory(m, e.0)
    ensures r.Err? ==> Describes(m, r.error)
  {
    var entries := Entries(m);
    hide Entries, DirPaths, SplitRel;
    for i := 0 to |entries|
      invariant forall e :: e in entries[..i] ==> HasDirectory(m, e.0)
    {
      assert entries[i] in entries;
      if !HasDirectory(m, entries[i].0) {
        return Err(NoDirectory(entries[i].0));
      }
      assert entries[..i + 1] == entries[..i] + [entries[i]];
    }
    assert entries[..|entries|] == entries;
    return Ok(());
  }

  method CheckSizes(m: Listing) returns (r: Result<(), Invalid>)
    ensures r.Ok? <==> (forall f :: f in m.files ==> f.size <= FILE_CAP) && Total(m.files) <= TOTAL_CAP
    ensures r.Err? ==> Describes(m, r.error)
  {
    var total := 0;
    for i := 0 to |m.files|
      invariant total == Total(m.files[..i]) && forall f :: f in m.files[..i] ==> f.size <= FILE_CAP
    {
      assert m.files[i] in m.files;
      if m.files[i].size > FILE_CAP {
        return Err(TooBig(m.files[i].path));
      }
      assert m.files[..i + 1][..i] == m.files[..i];
      total := total + m.files[i].size;
    }
    assert m.files[..|m.files|] == m.files;
    return if total > TOTAL_CAP then Err(TooMuch) else Ok(());
  }

  /** The tree a listing of safe paths names. */
  function ToDir(e: DirEntry): RelPath
    requires CheckRel(e.path)
  {
    CheckedParses(e.path);
    Parse(e.path)
  }

  function ToItem(e: FileEntry): Item
    requires CheckRel(e.path)
  {
    CheckedParses(e.path);
    Item(Parse(e.path), e.size, e.sha256, e.mode, e.uid, e.gid)
  }

  ghost predicate AllChecked(m: Listing) {
    (forall d :: d in m.dirs ==> CheckRel(d.path)) && forall f :: f in m.files ==> CheckRel(f.path)
  }

  function ToTree(m: Listing): Manifest
    requires AllChecked(m)
  {
    Manifest(
      seq(|m.dirs|, i requires 0 <= i < |m.dirs| => ToDir(m.dirs[i])),
      seq(|m.files|, i requires 0 <= i < |m.files| => ToItem(m.files[i])))
  }

  /** Two checked strings name one path only if they are the same. */
  lemma ParseInjective(a: string, b: string)
    requires CheckRel(a) && CheckRel(b)
    ensures Parse(a) == Parse(b) <==> a == b
  {
    CheckedParses(a);
    CheckedParses(b);
  }

  lemma ParentIsSplit(s: string)
    requires CheckRel(s)
    ensures Parse(s).Sub? && Parse(s).parent == Parse(SplitRel(s).0)
    ensures SplitRel(s).0 != "" ==> CheckRel(SplitRel(s).0)
  {
    CheckedParses(s);
  }

  lemma HasDirectoryIsParent(m: Listing, s: string)
    requires AllChecked(m) && CheckRel(s)
    ensures Parse(s).Sub? && (HasDirectory(m, s) <==> Parse(s).parent.Root? || Parse(s).parent in ToTree(m).dirs)
  {
    ParentIsSplit(s);
    var dir := SplitRel(s).0;
    if dir != "" {
      assert !Parse(s).parent.Root?;
      hide CheckRel, Parse, SplitRel, Segments;
      var t := ToTree(m).dirs;
      assert forall i :: 0 <= i < |t| ==> t[i] == Parse(m.dirs[i].path) && m.dirs[i] in m.dirs;
      if dir in DirPaths(m) {
        var d :| d in m.dirs && d.path == dir;
        var i :| 0 <= i < |m.dirs| && m.dirs[i] == d;
        assert t[i] == Parse(dir);
      }
      if Parse(dir) in t {
        var i :| 0 <= i < |t| && t[i] == Parse(dir);
        ParseInjective(m.dirs[i].path, dir);
      }
    }
  }

  /** The paths are those of a tree: none twice, none both file and directory, every directory listed. */
  ghost predicate NamesTree(m: Listing)
  {
    AllChecked(m) && ValidManifest(ToTree(m))
  }

  /**
    A manifest passes validation exactly when it is of this version, its paths
    are safe and name a tree, its modes are permission bits and its sizes are
    within the limits.
  */
  lemma ValidIffTree(m: Listing)
    ensures Valid(m) <==>
      && m.version == 1 && NamesTree(m)
      && (forall e :: e in Entries(m) ==> e.1 < 512)
      && (forall f :: f in m.files ==> f.size <= 16777216) && Total(m.files) <= 268435456
  {
    EntriesChecked(m);
    hide CheckRel, Entries;
    if AllChecked(m) {
      OnceIffDistinct(m);
      ParentsIff(m);
    }
  }

  lemma EntriesChecked(m: Listing)
    ensures (forall e :: e in Entries(m) ==> CheckRel(e.0)) <==> AllChecked(m)
  {
    hide CheckRel;
    var es := Entries(m);
    forall i | 0 <= i < |m.dirs| ensures es[i] == (m.dirs[i].path, m.dirs[i].mode) && es[i] in es {
    }
    forall i | 0 <= i < |m.files| ensures es[|m.dirs| + i] == (m.files[i].path, m.files[i].mode) &&
      es[|m.dirs| + i] in es {
    }
  }

  ghost predicate DistinctTree(t: Manifest) {
    && (forall i, j :: 0 <= i < j < |t.files| ==> t.files[i].path != t.files[j].path)
    && (forall i, j :: 0 <= i < j < |t.dirs| ==> t.dirs[i] != t.dirs[j])
    && (forall f :: f in t.files ==> f.path !in t.dirs)
  }

  lemma OnceIffDistinct(m: Listing)
    requires AllChecked(m)
    ensures Once(Entries(m)) <==> DistinctTree(ToTree(m))
  {
    hide CheckRel, Parse;
    var es, t, n := Entries(m), ToTree(m), |m.dirs|;
    forall i | 0 <= i < n ensures t.dirs[i] == Parse(es[i].0) && CheckRel(es[i].0) {
      assert m.dirs[i] in m.dirs;
    }
    forall i | 0 <= i < |m.files| ensures t.files[i].path == Parse(es[n + i].0) && CheckRel(es[n + i].0) {
      assert m.files[i] in m.files;
    }
    forall i, j | 0 <= i < |es| && 0 <= j < |es| ensures Parse(es[i].0) == Parse(es[j].0) <==> es[i].0 == es[j].0 {
      assert i >= n ==> es[n + (i - n)] == es[i];
      assert j >= n ==> es[n + (j - n)] == es[j];
      ParseInjective(es[i].0, es[j].0);
    }
    OnceParts(m, es, t, n);
  }

  lemma OnceParts(m: Listing, es: seq<(string, nat)>, t: Manifest, n: nat)
    requires |es| == n + |t.files| && n == |t.dirs|
    requires forall i :: 0 <= i < n ==> t.dirs[i] == Parse(es[i].0)
    requires forall i :: 0 <= i < |t.files| ==> t.files[i].path == Parse(es[n + i].0)
    requires forall i, j :: 0 <= i < |es| && 0 <= j < |es| ==>
      (Parse(es[i].0) == Parse(es[j].0) <==> es[i].0 == es[j].0)
    ensures Once(es) <==> DistinctTree(t)
  {
    hide Parse;
    if Once(es) {
      forall f | f in t.files ensures f.path !in t.dirs {
        var i :| 0 <= i < |t.files| && t.files[i] == f;
        assert forall j :: 0 <= j < n ==> es[j].0 != es[n + i].0;
      }
    }
    if DistinctTree(t) {
      forall i, j | 0 <= i < j < |es| ensures es[i].0 != es[j].0 {
        if i >= n {
          assert t.files[i - n].path == Parse(es[n + (i - n)].0) && t.files[j - n].path == Parse(es[n + (j - n)].0);
        } else if j >= n {
          assert t.files[j - n] in t.files && t.dirs[i] in t.dirs && t.files[j - n].path == Parse(es[n + (j - n)].0);
        }
      }
    }
  }

  lemma ParentsIff(m: Listing)
    requires AllChecked(m)
    ensures (forall e :: e in Entries(m) ==> HasDirectory(m, e.0)) <==>
      && (forall f :: f in ToTree(m).files ==> f.path.parent.Root? || f.path.parent in ToTree(m).dirs)
      && (forall c :: c in ToTree(m).dirs ==> c.parent.Root? || c.parent in ToTree(m).dirs)
  {
    hide CheckRel, Parse, HasDirectory;
    var es, t, n := Entries(m), ToTree(m), |m.dirs|;
    forall i | 0 <= i < n
      ensures es[i] in es && t.dirs[i] in t.dirs &&
        (HasDirectory(m, es[i].0) <==> t.dirs[i].parent.Root? || t.dirs[i].parent in t.dirs)
    {
      assert m.dirs[i] in m.dirs;
      HasDirectoryIsParent(m, m.dirs[i].path);
    }
    forall i | 0 <= i < |m.files|
      ensures es[n + i] in es && t.files[i] in t.files &&
        (HasDirectory(m, es[n + i].0) <==> t.files[i].path.parent.Root? || t.files[i].path.parent in t.dirs)
    {
      assert m.files[i] in m.files;
      HasDirectoryIsParent(m, m.files[i].path);
    }
    if (forall f :: f in t.files ==> f.path.parent.Root? || f.path.parent in t.dirs) &&
      (forall c :: c in t.dirs ==> c.parent.Root? || c.parent in t.dirs) {
      forall e | e in es ensures HasDirectory(m, e.0) {
        var i :| 0 <= i < |es| && es[i] == e;
        if i < n {
          assert t.dirs[i] in t.dirs;
        } else {
          assert es[n + (i - n)] == e && t.files[i - n] in t.files;
        }
      }
    }
  }
}
