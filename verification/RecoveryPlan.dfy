/**
  The steps that settle an interrupted restore, computed from what is on disk:
  `recovery`, as a function.
*/
module RecoveryPlan {
  import opened Wrappers
  import opened Volume

  /** One entry with a name of the restore's own, and what kind of entry it is. */
  datatype Left = Left(at: Loc, kind: Entry)

  datatype Op =
    | Move(dir: Path, from: Name, to: Name)
    | Install(path: RelPath, tag: string, file: Item, owners: bool)
    | Remove(at: Loc)
    | RemoveDir(path: RelPath)
    /** No call: a note of a file that is left in place. */
    | Keep(at: Loc)

  datatype Refusal =
    | Stuck
    | Unreadable
    | OnlyRollback
    | TwoRestores
    | NotInBackup(path: RelPath)
    | LinkIsNoFile
    | Mismatch(path: RelPath)
    | Failed

  /** `left` is what a walk finds: every leftover name once, in any order. */
  ghost predicate Lists(d: Disk, left: seq<Left>) {
    && (forall x :: x in left ==> x.at in d.tree && !x.at.name.Live? && x.kind == d.tree[x.at])
    && (forall l :: l in d.tree && !l.name.Live? ==> Left(l, d.tree[l]) in left)
    && (forall i, j :: 0 <= i < j < |left| ==> left[i].at != left[j].at)
  }

  /** The tag, if the entry is a marker in the root directory. */
  function MarkerTag(x: Left): Option<string> {
    if x.at.dir.Root? && x.at.name.Marker? then Some(x.at.name.tag) else None
  }

  /** For a temp file or a set-aside link, the path it belongs to and its tag. */
  function Shadowing(x: Left): Option<(RelPath, string)> {
    match x.at.name
    case Temp(b, t) => Some((Sub(x.at.dir, b), t))
    case Prev(b, t) => Some((Sub(x.at.dir, b), t))
    case _ => None
  }

  function KindOf(left: seq<Left>, l: Loc): Option<Entry> {
    if left == [] then None else if left[0].at == l then Some(left[0].kind) else KindOf(left[1..], l)
  }

  function Find(files: seq<Item>, p: RelPath): Option<Item> {
    if files == [] then None else if files[0].path == p then Some(files[0]) else Find(files[1..], p)
  }

  predicate Listed(files: seq<MarkedFile>, p: RelPath) {
    exists f :: f in files && f.path == p
  }

  function RemoveIf(kind: Option<Entry>, l: Loc): seq<Op> {
    if kind.Some? then [Remove(l)] else []
  }

  /** What one marked file needs; `fin` is the marker a finish completes. */
  function FileOps(
      d: Disk, left: seq<Left>, tag: string, f: MarkedFile, fin: Option<SwapMarker>): Result<seq<Op>, Refusal> {
    var tmp := KindOf(left, TempOf(f.path, tag));
    var prev := KindOf(left, PrevOf(f.path, tag));
    if fin.Some? then
      if tmp.None? then Ok(RemoveIf(prev, PrevOf(f.path, tag)))
      else
        match Find(fin.value.manifest.files, f.path)
        case None => Err(NotInBackup(f.path))
        case Some(item) => Ok([Install(f.path, tag, item, fin.value.owners)] + RemoveIf(prev, PrevOf(f.path, tag)))
    else if tmp.Some? then
      // The file was not replaced, so both hidden names can go.
      Ok([Remove(TempOf(f.path, tag))] + RemoveIf(prev, PrevOf(f.path, tag)))
    else if prev.Some? then
      if !prev.value.File? then Err(LinkIsNoFile)
      // A rename would leave both names (`Volume.DoRename`).
      else if At(d, PrevOf(f.path, tag)) == At(d, Home(f.path)) then Ok([Remove(PrevOf(f.path, tag))])
      else Ok([Move(f.path.parent, Prev(f.path.name, tag), Live(f.path.name))])
    else if !f.hadPrev && IsDir(d, f.path.parent) && At(d, Home(f.path)).Some? then Ok([Keep(Home(f.path))])
    else Ok([])
  }

  function FilesOps(
      d: Disk, left: seq<Left>, tag: string, fs: seq<MarkedFile>, fin: Option<SwapMarker>): Result<seq<Op>, Refusal> {
    if fs == [] then Ok([])
    else
      var first :- FileOps(d, left, tag, fs[0], fin);
      var rest :- FilesOps(d, left, tag, fs[1..], fin);
      Ok(first + rest)
  }

  predicate IsStray(x: Left, tag: string, fs: seq<MarkedFile>) {
    Shadowing(x).Some? && Shadowing(x).value.1 == tag && !Listed(fs, Shadowing(x).value.0)
  }

  /** Hidden names with the marker's tag whose path the marker does not list. */
  function Strays(left: seq<Left>, tag: string, fs: seq<MarkedFile>): seq<Op> {
    if left == [] then []
    else (if IsStray(left[0], tag, fs) then [Remove(left[0].at)] else []) + Strays(left[1..], tag, fs)
  }

  /** Created directories in reverse, so children go first. */
  function RemoveDirs(created: seq<RelPath>): seq<Op> {
    if created == [] then [] else RemoveDirs(created[1..]) + [RemoveDir(created[0])]
  }

  function MarkerOps(
      d: Disk, left: seq<Left>, tag: string, m: SwapMarker, fin: Option<SwapMarker>): Result<seq<Op>, Refusal> {
    var files :- FilesOps(d, left, tag, m.files, fin);
    var dirs := if fin.Some? then [] else RemoveDirs(m.created);
    Ok(files + Strays(left, tag, m.files) + dirs + [Remove(MarkerLoc(tag))])
  }

  /** `slot` is the manifest of the verified backup slot the marker names, if there is one. */
  function Finishing(
      m: SwapMarker, finish: bool, slot: Option<Manifest>, seen: bool): Result<Option<SwapMarker>, Refusal> {
    if !finish then Ok(None)
    else if m.phase != Swapping then Err(OnlyRollback)
    else if seen then Err(TwoRestores)
    else if slot != Some(m.manifest) then Err(OnlyRollback)
    else Ok(Some(m))
  }

  /** The steps for every marker among `rest`, a tail of `left`. */
  function Markers(
      d: Disk, left: seq<Left>, rest: seq<Left>, finish: bool, slot: Option<Manifest>,
      seen: bool): Result<seq<Op>, Refusal> {
    if rest == [] then Ok([])
    else if MarkerTag(rest[0]).None? then Markers(d, left, rest[1..], finish, slot, seen)
    else
      match MarkerOf(d, MarkerTag(rest[0]).value)
      case None => Err(Unreadable)
      case Some(m) =>
        var fin :- Finishing(m, finish, slot, seen);
        var ops :- MarkerOps(d, left, MarkerTag(rest[0]).value, m, fin);
        var more :- Markers(d, left, rest[1..], finish, slot, true);
        Ok(ops + more)
  }

  function Tags(left: seq<Left>): set<string> {
    set x | x in left && MarkerTag(x).Some? :: MarkerTag(x).value
  }

  predicate Owned(x: Left, tags: set<string>) {
    MarkerTag(x).Some? || (Shadowing(x).Some? && Shadowing(x).value.1 in tags)
  }

  /** Entries that no marker found on the disk accounts for. */
  function Orphans(left: seq<Left>, tags: set<string>): seq<Op> {
    if left == [] then []
    else (if Owned(left[0], tags) then [] else [Remove(left[0].at)]) + Orphans(left[1..], tags)
  }

  predicate IsStuck(x: Left) {
    !x.kind.File? && !x.kind.Symlink?
  }

  function Plan(d: Disk, left: seq<Left>, finish: bool, slot: Option<Manifest>): Result<seq<Op>, Refusal> {
    if exists x :: x in left && IsStuck(x) then Err(Stuck)
    else
      var ops :- Markers(d, left, left, finish, slot, false);
      Ok(ops + Orphans(left, Tags(left)))
  }

  /**
    The calls one step makes. An install writes the bytes it verified to a file
    it creates exclusively; a crash inside that write leaves any bytes `torn`.
  */
  function Calls(op: Op, torn: Bytes): seq<Call> {
    match op
    case Move(dir, from, to) => [Rename(dir, from, to)]
    case Remove(l) => [Discard(l)]
    case RemoveDir(p) => [Rmdir(p)]
    case Keep(_) => []
    case Install(p, tag, file, owners) =>
      var own := InstallOf(p, tag);
      [Discard(own), Create(own), Write(own, Raw(torn)), Write(own, Raw(file.digest.of)),
       SetMeta(own, file.mode, if owners then Some((file.uid, file.gid)) else None),
       Rename(p.parent, own.name, Live(p.name)), Discard(TempOf(p, tag))]
  }

  function AllCalls(ops: seq<Op>, torn: Bytes): seq<Call> {
    if ops == [] then [] else Calls(ops[0], torn) + AllCalls(ops[1..], torn)
  }

  /** An install's source, refused unless it hashes to the backup. */
  predicate Verified(d: Disk, op: Op) {
    op.Install? ==>
      && InodeAt(d, TempOf(op.path, op.tag)).Some?
      && Matches(InodeAt(d, TempOf(op.path, op.tag)).value, op.file)
  }
}
