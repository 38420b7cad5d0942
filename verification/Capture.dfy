/** `read_once`: a capture's manifest, and what restoring it brings back. */
module Capture {
  import opened Wrappers
  import opened Volume
  import opened RestoreState
  import opened Restore
  import opened RestoreFrames
  import opened DepthSort
  import opened Names
  import opened Paths
  import opened ManifestTree
  import opened Scan
  import opened StringOrder

  /** `sort` on paths, as strings. */
  function InsertPath(c: RelPath, s: seq<RelPath>): seq<RelPath> {
    if s == [] || LessEq(Render(c), Render(s[0])) then [c] + s else [s[0]] + InsertPath(c, s[1..])
  }

  function SortPaths(s: seq<RelPath>): seq<RelPath> {
    if s == [] then [] else InsertPath(s[0], SortPaths(s[1..]))
  }

  ghost predicate InOrder(s: seq<RelPath>) {
    forall i, j :: 0 <= i <= j < |s| ==> LessEq(Render(s[i]), Render(s[j]))
  }

  lemma {:induction false} InsertSorts(c: RelPath, s: seq<RelPath>)
    requires InOrder(s)
    ensures InOrder(InsertPath(c, s)) && |InsertPath(c, s)| == |s| + 1
    ensures forall x :: x in InsertPath(c, s) <==> x == c || x in s
    ensures Distinct(s) && c !in s ==> Distinct(InsertPath(c, s))
  {
    hide Render, LessEq;
    if s == [] {
      TotalOrder(Render(c), Render(c));
    } else if LessEq(Render(c), Render(s[0])) {
      TotalOrder(Render(c), Render(c));
      forall k | 0 <= k < |s| ensures LessEq(Render(c), Render(s[k])) && s[k] in s {
        Transitive(Render(c), Render(s[0]), Render(s[k]));
      }
    } else {
      TotalOrder(Render(c), Render(s[0]));
      TotalOrder(Render(s[0]), Render(s[0]));
      assert s == [s[0]] + s[1..];
      InsertSorts(c, s[1..]);
      var r := InsertPath(c, s[1..]);
      forall k | 0 <= k < |r| ensures LessEq(Render(s[0]), Render(r[k])) && r[k] in r {
        assert r[k] in r;
      }
    }
  }

  /** Sorting keeps every path once. */
  lemma {:induction false} SortSorts(s: seq<RelPath>)
    ensures InOrder(SortPaths(s)) && |SortPaths(s)| == |s|
    ensures forall x :: x in SortPaths(s) <==> x in s
    ensures Distinct(s) ==> Distinct(SortPaths(s))
  {
    hide Render, LessEq;
    if s != [] {
      assert s == [s[0]] + s[1..];
      SortSorts(s[1..]);
      InsertSorts(s[0], SortPaths(s[1..]));
    }
  }

  /** In string order a directory comes before what is in it, so a payload can be made in that order. */
  lemma SortedParentsFirst(s: seq<RelPath>, i: nat, j: nat)
    requires InOrder(s) && i < |s| && j < |s| && s[i].parent == s[j] && Safe(s[i])
    ensures j < i
  {
    var p, c := Render(s[j]), Render(s[i]);
    PrefixFirst(p, c);
    if i <= j {
      TotalOrder(p, c);
    }
  }

  /** `f` says of the inode what a capture has to: its bytes, the nine permission bits of its mode, its owner. */
  predicate IsItemOf(f: Item, n: Inode) {
    && n.blob.Raw? && f.size == |n.blob.data| && f.digest == Sha256(n.blob.data)
    && f.mode == n.mode % 512 && f.uid == n.uid && f.gid == n.gid
  }

  /** What a capture writes down for one file. */
  function ItemOf(p: RelPath, n: Inode): (f: Item)
    requires n.blob.Raw?
    ensures f.path == p && IsItemOf(f, n)
  {
    Item(p, |n.blob.data|, Sha256(n.blob.data), n.mode % (PERMISSION_BITS + 1), n.uid, n.gid)
  }

  /** Config files hold bytes; only the restore's own files hold its markers. */
  ghost predicate PlainFiles(d: Disk) {
    && WF(d)
    && forall p: RelPath :: SeenFile(d, p) ==> InodeAt(d, Home(p)).Some? && InodeAt(d, Home(p)).value.blob.Raw?
  }

  datatype Snapshot = Snapshot(manifest: Manifest, bytes: map<RelPath, Bytes>)

  datatype Unread = TooDeep | NotComplete | FileTooBig(path: RelPath) | OverLimit

  const REQUIRED := ["user.cfg", "acl.cfg", "authkey.key", "authkey.pub", "proxy.key", "proxy.pem"]

  predicate HasRequired(files: seq<RelPath>) {
    forall r :: r in REQUIRED ==> Sub(Root, r) in files
  }

  function Sizes(files: seq<Item>): nat {
    if files == [] then 0 else Sizes(files[..|files| - 1]) + files[|files| - 1].size
  }

  function Files(m: Manifest): seq<RelPath> {
    seq(|m.files|, i requires 0 <= i < |m.files| => m.files[i].path)
  }

  function SizeAt(d: Disk, p: RelPath): nat {
    match InodeAt(d, Home(p))
    case Some(Inode(Raw(b), _, _, _)) => |b|
    case _ => 0
  }

  function SizesAt(d: Disk, names: seq<RelPath>): nat {
    if names == [] then 0 else SizesAt(d, names[..|names| - 1]) + SizeAt(d, names[|names| - 1])
  }

  /** `names` lists every file a capture reads, once. */
  ghost predicate ListsFiles(d: Disk, names: seq<RelPath>) {
    Distinct(names) && forall p: RelPath :: p in names <==> SeenFile(d, p)
  }

  ghost predicate Shallow(d: Disk) {
    forall q :: SeenDir(d, q) ==> Depth(q) <= 32
  }

  ghost predicate IsComplete(d: Disk) {
    && SeenAtTop(d, "user.cfg") && SeenAtTop(d, "acl.cfg") && SeenAtTop(d, "authkey.key")
    && SeenAtTop(d, "authkey.pub") && SeenAtTop(d, "proxy.key") && SeenAtTop(d, "proxy.pem")
  }

  ghost predicate SeenAtTop(d: Disk, name: string) {
    SeenFile(d, Sub(Root, name))
  }

  /** Each file is within the cap for one, and together they are within the cap for all. */
  ghost predicate WithinCaps(d: Disk) {
    && (forall p: RelPath :: SeenFile(d, p) ==> SizeAt(d, p) <= 16777216)
    && (forall names :: ListsFiles(d, names) ==> SizesAt(d, names) <= 268435456)
  }

  ghost predicate Capturable(d: Disk) {
    Shallow(d) && IsComplete(d) && WithinCaps(d)
  }

  /** `m` is exactly what is seen of `d`. */
  ghost predicate Captures(d: Disk, m: Manifest) {
    && (forall c: RelPath :: c in m.dirs <==> SeenDir(d, c))
    && Distinct(m.dirs) && InOrder(m.dirs) && InOrder(Files(m))
    && (forall p: RelPath :: SeenFile(d, p) <==> exists f :: f in m.files && f.path == p)
    && (forall i, j :: 0 <= i < j < |m.files| ==> m.files[i].path != m.files[j].path)
    && (forall f :: f in m.files ==>
          && InodeAt(d, Home(f.path)).Some? && IsItemOf(f, InodeAt(d, Home(f.path)).value)
          && f.size <= FILE_CAP)
    && Sizes(m.files) <= TOTAL_CAP
  }

  /** What a capture read: a manifest of `d`, and the bytes of exactly its files. */
  ghost predicate ReadFrom(d: Disk, s: Snapshot) {
    && Captures(d, s.manifest)
    && (forall p :: p in s.bytes <==> p in Files(s.manifest))
    && (forall p :: p in s.bytes ==> InodeAt(d, Home(p)).Some? && InodeAt(d, Home(p)).value.blob == Raw(s.bytes[p]))
  }

  /** Why a capture was refused. */
  ghost predicate Explains(d: Disk, e: Unread) {
    match e
    case TooDeep => exists q :: SeenDir(d, q) && Depth(q) > MAX_DEPTH
    case NotComplete => exists n :: n in REQUIRED && !SeenFile(d, Sub(Root, n))
    case FileTooBig(p) => SeenFile(d, p) && SizeAt(d, p) > FILE_CAP
    case OverLimit => exists names :: ListsFiles(d, names) && SizesAt(d, names) > TOTAL_CAP
  }

  lemma ExplainsWhy(d: Disk, e: Unread)
    requires Explains(d, e)
    ensures !Capturable(d)
  {
    hide SeenFile, SeenDir, ListsFiles, SizeAt, SizesAt;
  }

  /** `read_once`, of a source that does not change meanwhile. */
  method ReadOnce(d: Disk) returns (r: Result<Snapshot, Unread>)
    requires PlainFiles(d)
    ensures r.Ok? <==> Capturable(d)
    ensures r.Ok? ==> ReadFrom(d, r.value)
    ensures r.Err? ==> Explains(d, r.error)
  {
    hide Explains, Capturable, ReadFrom;
    var w := new Walk();
    var ok := w.Into(d, Root, 0);
    if !ok {
      DeepExplains(d);
      ExplainsWhy(d, TooDeep);
      return Err(TooDeep);
    }
    var dirs, names := SortPaths(w.dirs), SortPaths(w.files);
    WalkedAll(d, w.dirs, w.files);
    WalkedIsShallow(d, w.dirs);
    hide SeenFile, SeenDir, PlainFiles, SortPaths;
    if !HasRequired(names) {
      NotCompleteExplains(d, names);
      ExplainsWhy(d, NotComplete);
      return Err(NotComplete);
    }
    r := ReadFiles(d, dirs, names);
    if r.Err? {
      ExplainsWhy(d, r.error);
    } else {
      AllCapturable(d, names);
    }
  }

  lemma DeepExplains(d: Disk)
    requires exists q :: SeenDir(d, q) && Depth(q) > MAX_DEPTH
    ensures Explains(d, TooDeep)
  {
  }

  lemma NotCompleteExplains(d: Disk, names: seq<RelPath>)
    requires (forall p: RelPath :: p in names <==> SeenFile(d, p)) && !HasRequired(names)
    ensures Explains(d, NotComplete)
  {
    hide SeenFile;
    var r :| r in REQUIRED && Sub(Root, r) !in names;
    assert r in REQUIRED && !SeenFile(d, Sub(Root, r));
  }

  lemma WalkedIsShallow(d: Disk, dirs: seq<RelPath>)
    requires NoDeeper(dirs) && forall p: RelPath :: p in SortPaths(dirs) <==> SeenDir(d, p)
    ensures Shallow(d)
  {
    SortSorts(dirs);
    hide SortPaths, SeenDir;
    forall q | SeenDir(d, q) ensures Depth(q) <= MAX_DEPTH {
      if q.Sub? {
        assert q in SortPaths(dirs);
      }
    }
  }

  lemma AllCapturable(d: Disk, names: seq<RelPath>)
    requires Shallow(d) && HasRequired(names) && ListsFiles(d, names) && SizesAt(d, names) <= TOTAL_CAP
    requires forall p :: p in names ==> SizeAt(d, p) <= FILE_CAP
    ensures Capturable(d)
  {
    hide SeenFile, Shallow, SizeAt, SizesAt;
    forall other | ListsFiles(d, other) ensures SizesAt(d, other) <= TOTAL_CAP {
      SameFilesSameSize(d, names, other);
    }
  }

  lemma NothingIn(s: seq<RelPath>)
    ensures (forall x :: x !in s) <==> s == []
  {
    if s != [] {
      assert s[0] in s;
    }
  }

  /** The total does not depend on the order of the list. */
  lemma {:induction false} SameFilesSameSize(d: Disk, s: seq<RelPath>, t: seq<RelPath>)
    requires Distinct(s) && Distinct(t) && forall x :: x in s <==> x in t
    ensures SizesAt(d, s) == SizesAt(d, t)
    decreases |s|
  {
    hide SizeAt;
    if s == [] {
      NothingIn(t);
    } else {
      var n := |s| - 1;
      var x := s[n];
      assert x in s;
      var j :| 0 <= j < |t| && t[j] == x;
      TakenOut(d, t, j);
      LastOut(s);
      OneOut(t, j);
      SameFilesSameSize(d, s[..n], t[..j] + t[j + 1..]);
    }
  }

  lemma LastOut(s: seq<RelPath>)
    requires Distinct(s) && s != []
    ensures var n := |s| - 1;
      Distinct(s[..n]) && forall y :: y in s[..n] <==> y in s && y != s[n]
  {
    var n := |s| - 1;
    assert s == s[..n] + [s[n]];
  }

  lemma OneOut(t: seq<RelPath>, j: nat)
    requires Distinct(t) && j < |t|
    ensures Distinct(t[..j] + t[j + 1..]) && forall y :: y in t[..j] + t[j + 1..] <==> y in t && y != t[j]
  {
    assert t == t[..j] + [t[j]] + t[j + 1..];
  }

  lemma {:induction false} TakenOut(d: Disk, t: seq<RelPath>, j: nat)
    requires j < |t|
    ensures SizesAt(d, t) == SizesAt(d, t[..j] + t[j + 1..]) + SizeAt(d, t[j])
    decreases |t|
  {
    hide SizeAt;
    var n := |t| - 1;
    if j < n {
      TakenOut(d, t[..n], j);
      var u := t[..j] + t[j + 1..];
      assert u[|u| - 1] == t[n] && u[..|u| - 1] == t[..n][..j] + t[..n][j + 1..];
    } else {
      assert t[..j] + t[j + 1..] == t[..n];
    }
  }

  lemma WalkedAll(d: Disk, dirs: seq<RelPath>, files: seq<RelPath>)
    requires FoundDirs(d, Root, EntriesOf(d, Root), [], dirs) && FoundFiles(d, Root, EntriesOf(d, Root), [], files)
    ensures forall p: RelPath :: p in SortPaths(dirs) <==> SeenDir(d, p)
    ensures forall p: RelPath :: p in SortPaths(files) <==> SeenFile(d, p)
    ensures Distinct(SortPaths(dirs)) && InOrder(SortPaths(dirs)) && Distinct(SortPaths(files)) &&
      InOrder(SortPaths(files))
  {
    SortSorts(dirs);
    SortSorts(files);
    hide SeenDir, SeenFile, Below, Reached, Render;
    forall p: RelPath ensures (p in dirs <==> SeenDir(d, p)) && (p in files <==> SeenFile(d, p)) {
      AllBelowRoot(p);
      if SeenDir(d, p) || SeenFile(d, p) {
        SeenIsReached(d, p, Root);
      }
    }
  }

  ghost predicate ReadAt(d: Disk, p: RelPath, f: Item, bytes: map<RelPath, Bytes>) {
    && f.path == p && f.size <= FILE_CAP
    && InodeAt(d, Home(p)).Some? && IsItemOf(f, InodeAt(d, Home(p)).value)
    && p in bytes && InodeAt(d, Home(p)).value.blob == Raw(bytes[p])
  }

  /** The files read so far. */
  ghost predicate ReadUpTo(d: Disk, names: seq<RelPath>, files: seq<Item>, bytes: map<RelPath, Bytes>) {
    && |files| <= |names|
    && (forall i :: 0 <= i < |files| ==> ReadAt(d, names[i], files[i], bytes))
    && (forall p :: p in bytes ==> p in names[..|files|])
    && Sizes(files) == SizesAt(d, names[..|files|]) <= TOTAL_CAP
  }

  method ReadFiles(d: Disk, dirs: seq<RelPath>, names: seq<RelPath>) returns (r: Result<Snapshot, Unread>)
    requires PlainFiles(d) && ListsFiles(d, names) && InOrder(names)
    requires (forall p: RelPath :: p in dirs <==> SeenDir(d, p)) && Distinct(dirs) && InOrder(dirs)
    ensures r.Ok? ==>
      && ReadFrom(d, r.value) && SizesAt(d, names) <= TOTAL_CAP
      && forall p :: p in names ==> SizeAt(d, p) <= FILE_CAP
    ensures r.Err? ==> (r.error.FileTooBig? || r.error.OverLimit?) && Explains(d, r.error)
  {
    hide SeenFile, SeenDir, ReadFrom, InOrder, InodeAt, Home, Explains, SizeAt, SizesAt, Sizes, ReadUpTo, ItemOf;
    hide PlainFiles, ListsFiles;
    var files: seq<Item> := [];
    var bytes: map<RelPath, Bytes> := map[];
    NothingRead(d, names);
    for i := 0 to |names|
      invariant |files| == i && ReadUpTo(d, names, files, bytes)
    {
      var p := names[i];
      IsReadable(d, names, i);
      var n := InodeAt(d, Home(p)).value;
      ReadSize(d, names, files, bytes);
      OneMoreSize(d, names, i);
      if |n.blob.data| > FILE_CAP {
        BigExplains(d, p);
        return Err(FileTooBig(p));
      }
      var item := ItemOf(p, n);
      if Sizes(files) + |n.blob.data| > TOTAL_CAP {
        OverExplains(d, names, i + 1);
        return Err(OverLimit);
      }
      ReadOneMore(d, names, files, bytes, n);
      files, bytes := files + [item], bytes[p := n.blob.data];
    }
    assert names[..|names|] == names;
    r := Ok(Snapshot(Manifest(dirs, files), bytes));
    AllRead(d, dirs, names, files, bytes);
  }

  lemma NothingRead(d: Disk, names: seq<RelPath>)
    ensures ReadUpTo(d, names, [], map[])
  {
  }

  lemma IsReadable(d: Disk, names: seq<RelPath>, i: nat)
    requires PlainFiles(d) && ListsFiles(d, names) && i < |names|
    ensures SeenFile(d, names[i]) && InodeAt(d, Home(names[i])).Some? && InodeAt(d, Home(names[i])).value.blob.Raw?
  {
    hide SeenFile;
    assert names[i] in names;
  }

  lemma ReadSize(d: Disk, names: seq<RelPath>, files: seq<Item>, bytes: map<RelPath, Bytes>)
    requires ReadUpTo(d, names, files, bytes)
    ensures Sizes(files) == SizesAt(d, names[..|files|])
  {
  }

  lemma ReadOneMore(d: Disk, names: seq<RelPath>, files: seq<Item>, bytes: map<RelPath, Bytes>, n: Inode)
    requires ReadUpTo(d, names, files, bytes) && |files| < |names| && ListsFiles(d, names)
    requires InodeAt(d, Home(names[|files|])) == Some(n) && n.blob.Raw?
    requires |n.blob.data| <= FILE_CAP && Sizes(files) + |n.blob.data| <= TOTAL_CAP
    ensures ReadUpTo(d, names, files + [ItemOf(names[|files|], n)], bytes[names[|files|] := n.blob.data])
  {
    hide ReadAt, SizesAt, SizeAt, ItemOf, SeenFile, InodeAt, Home;
    var k, p := |files|, names[|files|];
    var f, b := ItemOf(p, n), bytes[p := n.blob.data];
    OneMoreSize(d, names, k);
    ReadNow(d, p, n, b);
    assert (files + [f])[..k] == files;
    assert names[..k + 1] == names[..k] + [p];
    forall i | 0 <= i < k + 1 ensures ReadAt(d, names[i], (files + [f])[i], b) {
      if i < k {
        assert names[i] != names[k];
        ReadStays(d, names[i], files[i], bytes, p, n.blob.data);
      }
    }
  }

  lemma ReadNow(d: Disk, p: RelPath, n: Inode, bytes: map<RelPath, Bytes>)
    requires InodeAt(d, Home(p)) == Some(n) && n.blob.Raw? && |n.blob.data| <= FILE_CAP
    requires p in bytes && bytes[p] == n.blob.data
    ensures ReadAt(d, p, ItemOf(p, n), bytes) && ItemOf(p, n).size == |n.blob.data|
  {
  }

  lemma ReadStays(d: Disk, p: RelPath, f: Item, bytes: map<RelPath, Bytes>, q: RelPath, data: Bytes)
    requires ReadAt(d, p, f, bytes) && q != p
    ensures ReadAt(d, p, f, bytes[q := data])
  {
  }

  lemma OneMoreSize(d: Disk, names: seq<RelPath>, i: nat)
    requires i < |names| && InodeAt(d, Home(names[i])).Some? && InodeAt(d, Home(names[i])).value.blob.Raw?
    ensures SizeAt(d, names[i]) == |InodeAt(d, Home(names[i])).value.blob.data|
    ensures SizesAt(d, names[..i + 1]) == SizesAt(d, names[..i]) + SizeAt(d, names[i])
  {
    assert names[..i + 1][..i] == names[..i];
  }

  lemma BigExplains(d: Disk, p: RelPath)
    requires SeenFile(d, p) && SizeAt(d, p) > FILE_CAP
    ensures Explains(d, FileTooBig(p))
  {
  }

  /** Files still to be read only add to the total. */
  lemma OverExplains(d: Disk, names: seq<RelPath>, i: nat)
    requires i <= |names| && ListsFiles(d, names) && SizesAt(d, names[..i]) > TOTAL_CAP
    ensures Explains(d, OverLimit)
  {
    hide SeenFile, ListsFiles;
    for k := i to |names|
      invariant SizesAt(d, names[..k]) > TOTAL_CAP
    {
      assert names[..k + 1][..k] == names[..k];
    }
    assert names[..|names|] == names;
  }

  lemma ReadCapped(d: Disk, names: seq<RelPath>, files: seq<Item>, bytes: map<RelPath, Bytes>)
    requires ReadUpTo(d, names, files, bytes) && |files| == |names|
    ensures forall p :: p in names ==> SizeAt(d, p) <= FILE_CAP
  {
    hide SizesAt, Sizes;
    forall p | p in names ensures SizeAt(d, p) <= FILE_CAP {
      var i :| 0 <= i < |names| && names[i] == p;
      assert ReadAt(d, names[i], files[i], bytes);
    }
  }

  lemma ReadPaths(d: Disk, names: seq<RelPath>, files: seq<Item>, bytes: map<RelPath, Bytes>)
    requires ReadUpTo(d, names, files, bytes) && |files| == |names|
    ensures forall i :: 0 <= i < |files| ==> files[i].path == names[i]
    ensures forall p :: p in names <==> exists f :: f in files && f.path == p
    ensures forall p :: p in bytes <==> p in names
    ensures forall p :: p in bytes ==> InodeAt(d, Home(p)).Some? && InodeAt(d, Home(p)).value.blob == Raw(bytes[p])
  {
    hide InodeAt, Home, SizesAt, Sizes, ItemOf;
    assert names[..|names|] == names;
    forall i | 0 <= i < |files| ensures ReadAt(d, names[i], files[i], bytes) && files[i] in files && names[i] in names {
    }
    forall p | p in names ensures exists f :: f in files && f.path == p {
      var i :| 0 <= i < |names| && names[i] == p;
      assert files[i] in files;
    }
  }

  lemma ReadItems(d: Disk, names: seq<RelPath>, files: seq<Item>, bytes: map<RelPath, Bytes>)
    requires ReadUpTo(d, names, files, bytes)
    ensures forall f :: f in files ==>
      && InodeAt(d, Home(f.path)).Some? && IsItemOf(f, InodeAt(d, Home(f.path)).value)
      && f.size <= FILE_CAP
  {
    hide InodeAt, Home, SizesAt, Sizes, IsItemOf;
    forall f | f in files
      ensures InodeAt(d, Home(f.path)).Some? && IsItemOf(f, InodeAt(d, Home(f.path)).value) && f.size <= FILE_CAP
    {
      var i :| 0 <= i < |files| && files[i] == f;
      assert ReadAt(d, names[i], files[i], bytes);
    }
  }

  lemma AllRead(d: Disk, dirs: seq<RelPath>, names: seq<RelPath>, files: seq<Item>, bytes: map<RelPath, Bytes>)
    requires ReadUpTo(d, names, files, bytes) && |files| == |names| && InOrder(names)
    requires (forall p: RelPath :: p in dirs <==> SeenDir(d, p)) && Distinct(dirs) && InOrder(dirs) &&
      ListsFiles(d, names)
    ensures ReadFrom(d, Snapshot(Manifest(dirs, files), bytes)) && Files(Manifest(dirs, files)) == names
    ensures SizesAt(d, names) <= TOTAL_CAP && forall p :: p in names ==> SizeAt(d, p) <= FILE_CAP
  {
    hide SeenFile, SeenDir, InOrder, InodeAt, Home, Sizes, SizesAt, SizeAt, ItemOf, ReadAt;
    assert names[..|names|] == names;
    ReadCapped(d, names, files, bytes);
    ReadPaths(d, names, files, bytes);
    ReadItems(d, names, files, bytes);
    assert Files(Manifest(dirs, files)) == names;
  }
}
