/**
  The configuration volume: a tree of directory entries over inodes, and the
  file system calls the restore makes on it.

  A `Disk` is a value, so a run is a sequence of disks and a crash keeps one of
  them. Two names may hold the same inode (a hard link), which is how the
  restore sets an original aside. Inode numbers are never reused.
*/
module Volume {
  import opened Wrappers

  newtype Byte = x: int | 0 <= x < 256
  type Bytes = seq<Byte>

  /** A path below the configuration directory, which is `Root`. */
  datatype Path = Root | Sub(parent: Path, name: string)

  /** A path of at least one component, as `check_rel` demands of every manifest entry. */
  type RelPath = p: Path | p.Sub? witness Sub(Root, "")

  /**
    One directory entry's name. `Live` is any name a restore does not make; the
    rest are the restore's own (module `Names` has their spelling). The file an
    install writes is a `Temp` whose tag is `InstallTag(tag)`.
  */
  datatype Name =
    | Live(base: string)
    | Temp(base: string, tag: string)
    | Prev(base: string, tag: string)
    | Marker(tag: string)
    | Next(tag: string)

  datatype Loc = Loc(dir: Path, name: Name)

  datatype Entry = File(ino: nat) | Dir | Symlink | Other

  /** SHA-256, taken to be injective. */
  datatype Digest = Sha256(of: Bytes)

  datatype Item = Item(path: RelPath, size: nat, digest: Digest, mode: nat, uid: nat, gid: nat)

  datatype Manifest = Manifest(dirs: seq<RelPath>, files: seq<Item>)

  datatype Phase = Staging | Swapping | RollingBack

  datatype MarkedFile = MarkedFile(path: RelPath, hadPrev: bool)

  /** What `.orca-swap-<tag>` records; its JSON encoding is not modelled. */
  datatype SwapMarker = SwapMarker(
    phase: Phase, files: seq<MarkedFile>, created: seq<RelPath>, owners: bool, manifest: Manifest)

  datatype Blob = Raw(data: Bytes) | Record(marker: SwapMarker)

  datatype Inode = Inode(blob: Blob, mode: nat, uid: nat, gid: nat)

  datatype Disk = Disk(tree: map<Loc, Entry>, inodes: map<nat, Inode>, next: nat)

  const INSTALL_SUFFIX := ".install"

  function InstallTag(tag: string): string {
    tag + INSTALL_SUFFIX
  }

  function Home(p: RelPath): Loc {
    Loc(p.parent, Live(p.name))
  }

  function TempOf(p: RelPath, tag: string): Loc {
    Loc(p.parent, Temp(p.name, tag))
  }

  function PrevOf(p: RelPath, tag: string): Loc {
    Loc(p.parent, Prev(p.name, tag))
  }

  function InstallOf(p: RelPath, tag: string): Loc {
    TempOf(p, InstallTag(tag))
  }

  function MarkerLoc(tag: string): Loc {
    Loc(Root, Marker(tag))
  }

  function NextLoc(tag: string): Loc {
    Loc(Root, Next(tag))
  }

  /** `stat` without following. */
  function At(d: Disk, l: Loc): Option<Entry> {
    if l in d.tree then Some(d.tree[l]) else None
  }

  predicate IsDir(d: Disk, p: Path) {
    p.Root? || At(d, Home(p)) == Some(Dir)
  }

  /** `open_dir`: every directory on the way has to be one. */
  predicate Opens(d: Disk, p: Path) {
    p.Root? || (Opens(d, p.parent) && At(d, Home(p)) == Some(Dir))
  }

  /** Every entry sits in a directory and every file's inode exists. */
  ghost predicate WF(d: Disk) {
    && (forall l :: l in d.tree ==> IsDir(d, l.dir))
    && (forall l :: l in d.tree && d.tree[l].File? ==> d.tree[l].ino in d.inodes)
    && (forall i :: i in d.inodes ==> i < d.next)
  }

  /** On a well formed disk the walk succeeds exactly when the last entry is a directory. */
  lemma {:induction false} OpensIffIsDir(d: Disk, p: Path)
    requires WF(d)
    ensures Opens(d, p) <==> IsDir(d, p)
  {
    if p.Sub? {
      OpensIffIsDir(d, p.parent);
    }
  }

  function InodeAt(d: Disk, l: Loc): Option<Inode> {
    if At(d, l).Some? && At(d, l).value.File? && At(d, l).value.ino in d.inodes
    then Some(d.inodes[At(d, l).value.ino])
    else None
  }

  /** The inode holds exactly the bytes `f` was captured with. */
  predicate Matches(n: Inode, f: Item) {
    n.blob.Raw? && Sha256(n.blob.data) == f.digest
  }

  /** The record in the marker with this tag. */
  function MarkerOf(d: Disk, tag: string): Option<SwapMarker> {
    match InodeAt(d, MarkerLoc(tag))
    case Some(Inode(Record(m), _, _, _)) => Some(m)
    case _ => None
  }

  /**
    The calls that change the volume. `Write` and `SetMeta` act on a file just
    created, so its name stands for its descriptor. `Discard` and `Rmdir` tolerate a missing
    name, as the source's `discard` and its two uses of `rmdir` do.
  */
  datatype Call =
    | Create(at: Loc)
    | Write(at: Loc, blob: Blob)
    | SetMeta(at: Loc, mode: nat, owner: Option<(nat, nat)>)
    | Mkdir(path: RelPath)
    | Rename(dir: Path, from: Name, to: Name)
    | Link(dir: Path, from: Name, to: Name)
    | Unlink(at: Loc)
    | Discard(at: Loc)
    | Rmdir(path: RelPath)

  const CREATE_MODE: nat := 384 // 0o600

  function Put(d: Disk, l: Loc, e: Entry): Disk {
    d.(tree := d.tree[l := e])
  }

  function Drop(d: Disk, l: Loc): Disk {
    d.(tree := d.tree - {l})
  }

  /** Writing inode `ino`. */
  function PutInode(d: Disk, ino: nat, n: Inode): Disk {
    d.(inodes := d.inodes[ino := n])
  }

  function WithMeta(n: Inode, mode: nat, owner: Option<(nat, nat)>): Inode {
    if owner.Some? then n.(mode := mode, uid := owner.value.0, gid := owner.value.1) else n.(mode := mode)
  }

  predicate IsEmptyDir(d: Disk, p: Path) {
    forall l :: l in d.tree ==> l.dir != p
  }

  /** The disk after a call that succeeds; `None` when the kernel refuses it. */
  function Do(d: Disk, c: Call): Option<Disk> {
    match c
    case Create(l) =>
      if IsDir(d, l.dir) && l !in d.tree
      then Some(Disk(d.tree[l := File(d.next)], d.inodes[d.next := Inode(Raw([]), CREATE_MODE, 0, 0)], d.next + 1))
      else None
    case Write(l, b) =>
      if InodeAt(d, l).Some? then Some(PutInode(d, d.tree[l].ino, InodeAt(d, l).value.(blob := b))) else None
    case SetMeta(l, mode, owner) =>
      if InodeAt(d, l).None? then None
      else Some(PutInode(d, d.tree[l].ino, WithMeta(InodeAt(d, l).value, mode, owner)))
    case Mkdir(p) =>
      if IsDir(d, p.parent) && Home(p) !in d.tree then Some(Put(d, Home(p), Dir)) else None
    case Rename(dir, from, to) =>
      DoRename(d, Loc(dir, from), Loc(dir, to))
    case Link(dir, from, to) =>
      if Loc(dir, from) in d.tree && d.tree[Loc(dir, from)].File? && Loc(dir, to) !in d.tree
      then Some(Put(d, Loc(dir, to), d.tree[Loc(dir, from)]))
      else None
    case Unlink(l) =>
      if l in d.tree && !d.tree[l].Dir? then Some(Drop(d, l)) else None
    case Discard(l) =>
      if !IsDir(d, l.dir) then None
      else if l !in d.tree then Some(d)
      else if d.tree[l].Dir? then None
      else Some(Drop(d, l))
    case Rmdir(p) =>
      if !IsDir(d, p.parent) then None
      else if Home(p) !in d.tree then Some(d)
      else if d.tree[Home(p)].Dir? && IsEmptyDir(d, p) then Some(Drop(d, Home(p)))
      else None
  }

  /** `rename(2)` of a file: two links to one inode are both left in place. */
  function DoRename(d: Disk, from: Loc, to: Loc): Option<Disk> {
    if from !in d.tree || !d.tree[from].File? then None
    else if to in d.tree && d.tree[to].Dir? then None
    else if to in d.tree && d.tree[to] == d.tree[from] then Some(d)
    else Some(Drop(Put(d, to, d.tree[from]), from))
  }

  /** A run of calls, none of them refused. */
  function Run(d: Disk, calls: seq<Call>): Option<Disk>
    decreases |calls|
  {
    if calls == [] then Some(d)
    else
      match Do(d, calls[0])
      case None => None
      case Some(e) => Run(e, calls[1..])
  }

  lemma DoKeepsWF(d: Disk, c: Call)
    requires WF(d) && Do(d, c).Some?
    ensures WF(Do(d, c).value)
  {
    var e := Do(d, c).value;
    match c
    case Rmdir(p) =>
      forall l | l in e.tree ensures IsDir(e, l.dir) {
        assert l in d.tree && (l.dir != p || e == d);
      }
    case Rename(dir, from, to) =>
    case _ =>
  }
}
