/**
  One lemma for each kind of call a restore or its recovery makes: from a
  `Good` disk it leads to a `Good` disk, and it keeps the phase discipline.
*/
module RestoreSteps {
  import opened Wrappers
  import opened Volume
  import opened RestoreState

  /** `b` differs from `a` at no name but `l0`. */
  ghost predicate OnlyAt(a: Disk, b: Disk, l0: Loc) {
    && (forall l :: l != l0 ==> At(b, l) == At(a, l))
    && (forall l :: l != l0 ==> InodeAt(b, l) == InodeAt(a, l))
    && a.next <= b.next
  }

  /** No original inode is written between `a` and `b`. */
  ghost predicate KeepsOriginals(g: Job, a: Disk, b: Disk) {
    forall i :: i in g.orig.inodes && i in a.inodes ==> i in b.inodes && b.inodes[i] == a.inodes[i]
  }

  /** Only `l` names inode `i`. */
  ghost predicate SoleName(d: Disk, l: Loc, i: nat) {
    forall x :: At(d, x) == Some(File(i)) ==> x == l
  }

  lemma FreshIsNew(g: Job, d: Disk)
    requires Body(g, d)
    ensures IsNew(g, Some(File(d.next)))
  {
  }

  /** Where a call that moves no name acts. */
  function Target(c: Call): Loc
    requires !c.Rename? && !c.Write? && !c.SetMeta?
  {
    match c
    case Create(l) => l
    case Mkdir(p) => Home(p)
    case Link(dir, _, to) => Loc(dir, to)
    case Unlink(l) => l
    case Discard(l) => l
    case Rmdir(p) => Home(p)
  }

  lemma EntryCall(g: Job, a: Disk, c: Call)
    requires ValidJob(g) && Body(g, a) && !c.Rename? && !c.Write? && !c.SetMeta? && Do(a, c).Some?
    ensures WF(Do(a, c).value) && OnlyAt(a, Do(a, c).value, Target(c)) && KeepsOriginals(g, a, Do(a, c).value)
    ensures c.Create? ==> At(Do(a, c).value, Target(c)) == Some(File(a.next)) && SoleName(Do(a, c).value, c.at, a.next)
    ensures c.Discard? || c.Unlink? || c.Rmdir? ==> At(Do(a, c).value, Target(c)).None?
  {
    hide *;
    BodyIsWF(g, a);
    DoKeepsWF(a, c);
    EntryMoves(a, c);
    EntryOriginals(g, a, c);
  }

  lemma EntryMoves(a: Disk, c: Call)
    requires WF(a) && !c.Rename? && !c.Write? && !c.SetMeta? && Do(a, c).Some?
    ensures OnlyAt(a, Do(a, c).value, Target(c))
    ensures c.Create? ==> At(Do(a, c).value, Target(c)) == Some(File(a.next)) && SoleName(Do(a, c).value, c.at, a.next)
    ensures c.Discard? || c.Unlink? || c.Rmdir? ==> At(Do(a, c).value, Target(c)).None?
  {
    hide IsDir;
  }

  lemma EntryOriginals(g: Job, a: Disk, c: Call)
    requires ValidJob(g) && Body(g, a) && !c.Rename? && !c.Write? && !c.SetMeta? && Do(a, c).Some?
    ensures KeepsOriginals(g, a, Do(a, c).value)
  {
    hide IsDir, Touched, NoneOrNew;
    assert forall i :: i in g.orig.inodes ==> i < a.next;
  }

  lemma WriteCall(g: Job, a: Disk, c: Call)
    requires ValidJob(g) && Body(g, a) && (c.Write? || c.SetMeta?) && Do(a, c).Some?
    requires IsNew(g, At(a, c.at)) && SoleName(a, c.at, At(a, c.at).value.ino)
    ensures WF(Do(a, c).value) && OnlyAt(a, Do(a, c).value, c.at) && KeepsOriginals(g, a, Do(a, c).value)
    ensures At(Do(a, c).value, c.at) == At(a, c.at) && SoleName(Do(a, c).value, c.at, At(a, c.at).value.ino)
  {
    DoKeepsWF(a, c);
  }

  /** The order the phase on disk may take. */
  predicate PhaseMove(x: Option<Phase>, y: Option<Phase>) {
    x == y || y.None? || (x.None? && y == Some(Staging))
    || (x == Some(Staging) && y == Some(Swapping)) || (x == Some(Swapping) && y == Some(RollingBack))
  }

  /**
    A live file changes only under a marker that admits it, and stays: while it says
    `Swapping`, by its staged file taking its place; while it says
    `RollingBack`, by going back to what it was.
  */
  ghost predicate LiveMove(g: Job, a: Disk, b: Disk, p: RelPath) {
    At(b, Home(p)) == At(a, Home(p))
    || (PhaseOf(b, g.tag) == PhaseOf(a, g.tag) == Some(Swapping) && At(b, Home(p)) == At(a, TempOf(p, g.tag)))
    || (PhaseOf(b, g.tag) == PhaseOf(a, g.tag) == Some(RollingBack) && At(b, Home(p)) == At(g.orig, Home(p)))
  }

  ghost predicate Disciplined(g: Job, a: Disk, b: Disk) {
    && PhaseMove(PhaseOf(a, g.tag), PhaseOf(b, g.tag))
    && forall p :: p in g.items ==> LiveMove(g, a, b, p)
  }

  /** What every step keeps. */
  ghost predicate Sound(g: Job, a: Disk, b: Disk) {
    Good(g, b) && Disciplined(g, a, b)
  }

  lemma BodyMoves(g: Job, a: Disk, b: Disk)
    requires ValidJob(g) && Body(g, a) && WF(b) && KeepsOriginals(g, a, b) && a.next <= b.next
    requires forall l :: !Touched(g, l) ==> At(b, l) == At(a, l)
    requires forall l: Loc :: l == NextLoc(g.tag) || l.name.Temp? ==> At(b, l) == At(a, l) || NoneOrNew(g, At(b, l))
    ensures Body(g, b)
  {
  }

  lemma BodyStep(g: Job, a: Disk, b: Disk, l: Loc)
    requires ValidJob(g) && Body(g, a) && WF(b) && OnlyAt(a, b, l) && KeepsOriginals(g, a, b) && Touched(g, l)
    requires l == NextLoc(g.tag) || l.name.Temp? ==> NoneOrNew(g, At(b, l))
    ensures Body(g, b)
  {
    BodyMoves(g, a, b);
  }

  /** One file's part of `Clean` and of `Restored`. */
  ghost predicate CleanFile(g: Job, d: Disk, p: RelPath) {
    && At(d, Home(p)) == At(g.orig, Home(p))
    && At(d, TempOf(p, g.tag)).None?
    && At(d, PrevOf(p, g.tag)).None?
  }

  ghost predicate RestoredFile(g: Job, d: Disk, p: RelPath)
    requires p in g.items
  {
    && Holds(d, Home(p), g.items[p], g.owners)
    && At(d, TempOf(p, g.tag)).None?
    && (At(d, PrevOf(p, g.tag)).Some? ==>
      At(d, PrevOf(p, g.tag)) == At(g.orig, Home(p)) && At(d, PrevOf(p, g.tag)).value.File?)
  }

  /** All three of a file's names hold what they held. */
  ghost predicate Steady(g: Job, a: Disk, b: Disk, p: RelPath) {
    && At(b, Home(p)) == At(a, Home(p)) && InodeAt(b, Home(p)) == InodeAt(a, Home(p))
    && At(b, TempOf(p, g.tag)) == At(a, TempOf(p, g.tag)) &&
      InodeAt(b, TempOf(p, g.tag)) == InodeAt(a, TempOf(p, g.tag))
    && At(b, PrevOf(p, g.tag)) == At(a, PrevOf(p, g.tag))
  }

  lemma FileUnmoved(g: Job, a: Disk, b: Disk, p: RelPath)
    requires p in g.items && Steady(g, a, b, p)
    ensures Original(g, b, p) == Original(g, a, p) && Replaced(g, b, p) == Replaced(g, a, p)
    ensures Finishable(g, b, p) == Finishable(g, a, p)
    ensures CleanFile(g, b, p) == CleanFile(g, a, p) && RestoredFile(g, b, p) == RestoredFile(g, a, p)
  {
  }

  predicate IsHomeOf(l: Loc, p: RelPath, tag: string) {
    l == Home(p) || l == TempOf(p, tag) || l == PrevOf(p, tag)
  }

  /** While no file and no recorded directory changes, the marker stays true. */
  lemma ElsewhereFits(g: Job, a: Disk, b: Disk, m: SwapMarker)
    requires ValidJob(g) && Fits(g, a, m)
    requires forall p :: p in g.items ==> Steady(g, a, b, p)
    requires forall c :: c in g.dirs ==> At(b, Home(c)) == At(a, Home(c))
    ensures Fits(g, b, m) && (FinishReady(g, a) ==> FinishReady(g, b))
  {
    forall p | p in g.items
      ensures Undoable(g, b, p) == Undoable(g, a, p) && Original(g, b, p) == Original(g, a, p) &&
        Finishable(g, b, p) == Finishable(g, a, p)
    {
      FileUnmoved(g, a, b, p);
    }
  }

  lemma ElsewhereSettled(g: Job, a: Disk, b: Disk)
    requires ValidJob(g) && (Clean(g, a) || Restored(g, a))
    requires forall p :: p in g.items ==> Steady(g, a, b, p)
    requires forall c :: c in g.dirs ==> At(b, Home(c)) == At(a, Home(c))
    ensures Clean(g, a) ==> Clean(g, b)
    ensures Restored(g, a) ==> Restored(g, b)
  {
    forall p | p in g.items
      ensures CleanFile(g, b, p) == CleanFile(g, a, p) && RestoredFile(g, b, p) == RestoredFile(g, a, p)
    {
      FileUnmoved(g, a, b, p);
    }
  }

  /** The names no phase says anything about: a marker update and an install's own file. */
  ghost predicate Scratch(g: Job, l: Loc) {
    l == NextLoc(g.tag)
    || (l.name.Temp? && l.name.tag == InstallTag(g.tag) && Sub(l.dir, l.name.base) in g.items)
  }

  lemma ScratchApart(g: Job, l: Loc)
    requires Scratch(g, l)
    ensures Touched(g, l) && l != MarkerLoc(g.tag)
    ensures forall p :: p in g.items ==> !IsHomeOf(l, p, g.tag)
    ensures forall c :: c in g.dirs ==> l != Home(c)
  {
    assert |InstallTag(g.tag)| > |g.tag|;
  }

  /** A step that moves neither the marker nor a live file is disciplined. */
  lemma QuietStep(g: Job, a: Disk, b: Disk, l: Loc)
    requires OnlyAt(a, b, l) && l != MarkerLoc(g.tag)
    ensures MarkerOf(b, g.tag) == MarkerOf(a, g.tag) && At(b, MarkerLoc(g.tag)) == At(a, MarkerLoc(g.tag))
    ensures (forall p :: p in g.items ==> l != Home(p)) ==> Disciplined(g, a, b)
  {
  }

  lemma ScratchStep(g: Job, a: Disk, b: Disk, l: Loc)
    requires ValidJob(g) && Good(g, a) && WF(b) && OnlyAt(a, b, l) && KeepsOriginals(g, a, b) && NoneOrNew(g, At(b, l))
    requires Scratch(g, l)
    ensures Sound(g, a, b) && (Marked(g, a) ==> Marked(g, b) && MarkerOf(b, g.tag) == MarkerOf(a, g.tag))
    ensures Marked(g, a) && FinishReady(g, a) ==> FinishReady(g, b)
  {
    hide ValidJob, Body, OnlyAt, KeepsOriginals, WF, Scratch, Steady, Fits, FinishReady, Clean, Restored, Disciplined;
    ScratchApart(g, l);
    GoodIsBody(g, a);
    ScratchSteady(g, a, b, l);
    BodyStep(g, a, b, l);
    QuietStep(g, a, b, l);
    if Marked(g, a) {
      ElsewhereFits(g, a, b, MarkerOf(a, g.tag).value);
    } else {
      ElsewhereSettled(g, a, b);
    }
  }

  lemma GoodIsBody(g: Job, d: Disk)
    requires Good(g, d)
    ensures Body(g, d)
  {
  }

  lemma ScratchSteady(g: Job, a: Disk, b: Disk, l: Loc)
    requires Scratch(g, l) && OnlyAt(a, b, l)
    ensures (forall p :: p in g.items ==> Steady(g, a, b, p)) &&
      forall c :: c in g.dirs ==> At(b, Home(c)) == At(a, Home(c))
  {
    hide Scratch;
    ScratchApart(g, l);
    forall p | p in g.items ensures Steady(g, a, b, p) {
      assert !IsHomeOf(l, p, g.tag);
    }
  }

  /** `rename` of a file onto another name that does not already hold it. */
  lemma RenameCall(g: Job, a: Disk, dir: Path, from: Name, to: Name)
    requires ValidJob(g) && Body(g, a) && Do(a, Rename(dir, from, to)).Some? &&
      At(a, Loc(dir, from)) != At(a, Loc(dir, to))
    ensures var b := Do(a, Rename(dir, from, to)).value;
      && WF(b) && KeepsOriginals(g, a, b) && b.next == a.next
      && At(b, Loc(dir, to)) == At(a, Loc(dir, from)) && InodeAt(b, Loc(dir, to)) == InodeAt(a, Loc(dir, from))
      && At(b, Loc(dir, from)).None?
      && (forall l :: l != Loc(dir, from) && l != Loc(dir, to) ==>
        At(b, l) == At(a, l) && InodeAt(b, l) == InodeAt(a, l))
  {
    hide *;
    BodyIsWF(g, a);
    DoKeepsWF(a, Rename(dir, from, to));
    RenameMoves(g, a, dir, from, to);
  }

  lemma RenameMoves(g: Job, a: Disk, dir: Path, from: Name, to: Name)
    requires Do(a, Rename(dir, from, to)).Some? && At(a, Loc(dir, from)) != At(a, Loc(dir, to))
    ensures var b := Do(a, Rename(dir, from, to)).value;
      && KeepsOriginals(g, a, b) && b.next == a.next
      && At(b, Loc(dir, to)) == At(a, Loc(dir, from)) && InodeAt(b, Loc(dir, to)) == InodeAt(a, Loc(dir, from))
      && At(b, Loc(dir, from)).None?
      && (forall l :: l != Loc(dir, from) && l != Loc(dir, to) ==>
        At(b, l) == At(a, l) && InodeAt(b, l) == InodeAt(a, l))
  {
  }

  lemma BodyIsWF(g: Job, d: Disk)
    requires Body(g, d)
    ensures WF(d)
  {
  }

  /** The marker update lands: the marker on disk is now `m`. */
  lemma MarkerStep(g: Job, a: Disk, b: Disk, m: SwapMarker)
    requires ValidJob(g) && Good(g, a) && Do(a, Rename(Root, Next(g.tag), Marker(g.tag))) == Some(b)
    requires IsNew(g, At(a, NextLoc(g.tag))) && InodeAt(a, NextLoc(g.tag)).value.blob == Record(m)
    requires At(a, NextLoc(g.tag)) != At(a, MarkerLoc(g.tag))
    requires Fits(g, a, m) && PhaseMove(PhaseOf(a, g.tag), Some(m.phase))
    ensures Sound(g, a, b) && Marked(g, b) && MarkerOf(b, g.tag) == Some(m) && At(b, NextLoc(g.tag)).None?
    ensures FinishReady(g, a) ==> FinishReady(g, b)
    ensures forall l :: l != NextLoc(g.tag) && l != MarkerLoc(g.tag) ==>
      At(b, l) == At(a, l) && InodeAt(b, l) == InodeAt(a, l)
  {
    GoodIsBody(g, a);
    hide *;
    MarkerLands(g, a, b, m);
    MarkerSteady(g, a, b);
    ElsewhereFits(g, a, b, m);
    MarkerSound(g, a, b, m);
  }

  lemma MarkerLands(g: Job, a: Disk, b: Disk, m: SwapMarker)
    requires ValidJob(g) && Body(g, a) && Do(a, Rename(Root, Next(g.tag), Marker(g.tag))) == Some(b)
    requires IsNew(g, At(a, NextLoc(g.tag))) && InodeAt(a, NextLoc(g.tag)).Some? &&
      InodeAt(a, NextLoc(g.tag)).value.blob == Record(m)
    requires At(a, NextLoc(g.tag)) != At(a, MarkerLoc(g.tag))
    ensures Body(g, b) && IsNew(g, At(b, MarkerLoc(g.tag))) && MarkerOf(b, g.tag) == Some(m) &&
      At(b, NextLoc(g.tag)).None?
    ensures forall l :: l != NextLoc(g.tag) && l != MarkerLoc(g.tag) ==>
      At(b, l) == At(a, l) && InodeAt(b, l) == InodeAt(a, l)
  {
    assert Touched(g, NextLoc(g.tag)) && Touched(g, MarkerLoc(g.tag));
    hide Body, ValidJob, WF, KeepsOriginals, Touched, Do, At, InodeAt;
    RenameCall(g, a, Root, Next(g.tag), Marker(g.tag));
    BodyMoves(g, a, b);
  }

  lemma MarkerSteady(g: Job, a: Disk, b: Disk)
    requires forall l :: l != NextLoc(g.tag) && l != MarkerLoc(g.tag) ==>
      At(b, l) == At(a, l) && InodeAt(b, l) == InodeAt(a, l)
    ensures (forall p :: p in g.items ==> Steady(g, a, b, p)) &&
      forall c :: c in g.dirs ==> At(b, Home(c)) == At(a, Home(c))
  {
    hide At, InodeAt;
  }

  lemma MarkerSound(g: Job, a: Disk, b: Disk, m: SwapMarker)
    requires Body(g, b) && IsNew(g, At(b, MarkerLoc(g.tag))) && MarkerOf(b, g.tag) == Some(m) && Fits(g, b, m)
    requires PhaseMove(PhaseOf(a, g.tag), Some(m.phase)) && forall p :: p in g.items ==> Steady(g, a, b, p)
    ensures Sound(g, a, b) && Marked(g, b)
  {
    hide Body, Fits, MarkerOf;
  }

  /** A recorded directory is made or removed. */
  lemma DirStep(g: Job, a: Disk, b: Disk, c: RelPath)
    requires ValidJob(g) && Marked(g, a) && WF(b) && OnlyAt(a, b, Home(c)) && KeepsOriginals(g, a, b)
    requires c in MarkerOf(a, g.tag).value.created && (At(b, Home(c)).Some? ==> At(b, Home(c)) == Some(Dir))
    ensures Sound(g, a, b) && Marked(g, b) && MarkerOf(b, g.tag) == MarkerOf(a, g.tag)
  {
    hide *;
    MarkedParts(g, a);
    var m := MarkerOf(a, g.tag).value;
    RecordedIsDir(g, a, m, c);
    DirApart(g, c);
    HomeIsLive(g, c);
    BodyStep(g, a, b, Home(c));
    QuietStep(g, a, b, Home(c));
    DirFits(g, a, b, m, c);
    SameMarker(g, a, b);
  }

  lemma RecordedIsDir(g: Job, d: Disk, m: SwapMarker, c: RelPath)
    requires Fits(g, d, m) && c in m.created
    ensures c in g.dirs
  {
    hide Undoable, Original;
    var i :| 0 <= i < |m.created| && m.created[i] == c;
  }

  lemma HomeIsLive(g: Job, c: RelPath)
    ensures Home(c).name.Live? && Home(c) != NextLoc(g.tag) && Home(c) != MarkerLoc(g.tag)
  {
  }

  lemma DirFits(g: Job, a: Disk, b: Disk, m: SwapMarker, c: RelPath)
    requires ValidJob(g) && Fits(g, a, m) && c in m.created && c in g.dirs && OnlyAt(a, b, Home(c))
    requires At(b, Home(c)).Some? ==> At(b, Home(c)) == Some(Dir)
    requires forall p :: p in g.items ==> Home(c) != Home(p) && p != c
    ensures Fits(g, b, m)
  {
    hide Finishable, Original, Replaced, ValidJob;
    forall p | p in g.items ensures Undoable(g, b, p) == Undoable(g, a, p) && Original(g, b, p) == Original(g, a, p) {
      assert Steady(g, a, b, p);
      FileUnmoved(g, a, b, p);
    }
  }

  lemma DirApart(g: Job, c: RelPath)
    requires ValidJob(g) && c in g.dirs
    ensures forall p :: p in g.items ==> Home(c) != Home(p) && p != c
    ensures Touched(g, Home(c)) && Home(c) != MarkerLoc(g.tag)
  {
  }

  /** Only `p`'s own names changed. */
  ghost predicate OnlyFile(g: Job, a: Disk, b: Disk, p: RelPath) {
    && (forall q :: q in g.items && q != p ==> Steady(g, a, b, q))
    && (forall c :: c in g.dirs ==> At(b, Home(c)) == At(a, Home(c)))
  }

  lemma OneFileFits(g: Job, a: Disk, b: Disk, p: RelPath, m: SwapMarker)
    requires ValidJob(g) && Fits(g, a, m) && p in g.items && OnlyFile(g, a, b, p)
    requires Undoable(g, b, p) && (m.phase == Staging ==> Original(g, b, p))
    ensures Fits(g, b, m)
    ensures FinishReady(g, a) && Finishable(g, b, p) ==> FinishReady(g, b)
  {
    forall q | q in g.items
      ensures Undoable(g, b, q) && (Original(g, a, q) && m.phase == Staging ==> Original(g, b, q)) &&
        (Finishable(g, a, q) && (q == p ==> Finishable(g, b, p)) ==> Finishable(g, b, q))
    {
      if q != p {
        FileUnmoved(g, a, b, q);
      }
    }
  }

  /** A call at one of `p`'s two hidden names. */
  lemma HiddenName(g: Job, a: Disk, b: Disk, p: RelPath, l: Loc)
    requires ValidJob(g) && Body(g, a) && p in g.items && WF(b) && OnlyAt(a, b, l) && KeepsOriginals(g, a, b)
    requires l == PrevOf(p, g.tag) || (l == TempOf(p, g.tag) && NoneOrNew(g, At(b, l)))
    ensures Body(g, b) && OnlyFile(g, a, b, p) && Disciplined(g, a, b)
    ensures MarkerOf(b, g.tag) == MarkerOf(a, g.tag) && At(b, MarkerLoc(g.tag)) == At(a, MarkerLoc(g.tag))
  {
    assert Touched(g, l) && l != MarkerLoc(g.tag);
    assert forall q :: q in g.items ==> l != Home(q);
    HiddenIsOwn(g, a, b, p, l);
    hide Body, ValidJob, OnlyFile, KeepsOriginals, WF, OnlyAt, Disciplined, Touched;
    BodyStep(g, a, b, l);
    QuietStep(g, a, b, l);
  }

  lemma HiddenIsOwn(g: Job, a: Disk, b: Disk, p: RelPath, l: Loc)
    requires ValidJob(g) && p in g.items && OnlyAt(a, b, l) && (l == PrevOf(p, g.tag) || l == TempOf(p, g.tag))
    ensures OnlyFile(g, a, b, p)
  {
  }

  /** A temp file is made, written or discarded while its file is still the original one. */
  lemma TempStep(g: Job, a: Disk, b: Disk, p: RelPath)
    requires ValidJob(g) && Marked(g, a) && p in g.items && WF(b) && OnlyAt(a, b, TempOf(p, g.tag)) &&
      KeepsOriginals(g, a, b)
    requires NoneOrNew(g, At(b, TempOf(p, g.tag)))
    requires Original(g, a, p) || At(b, TempOf(p, g.tag)).None?
    ensures Sound(g, a, b) && Marked(g, b) && MarkerOf(b, g.tag) == MarkerOf(a, g.tag)
  {
    hide *;
    MarkedParts(g, a);
    HiddenName(g, a, b, p, TempOf(p, g.tag));
    TempUndoable(g, a, b, p, MarkerOf(a, g.tag).value);
    OneFileFits(g, a, b, p, MarkerOf(a, g.tag).value);
    SameMarker(g, a, b);
  }

  lemma TempUndoable(g: Job, a: Disk, b: Disk, p: RelPath, m: SwapMarker)
    requires ValidJob(g) && Fits(g, a, m) && p in g.items && OnlyAt(a, b, TempOf(p, g.tag))
    requires Original(g, a, p) || At(b, TempOf(p, g.tag)).None?
    ensures Undoable(g, b, p) && (m.phase == Staging ==> Original(g, b, p))
  {
    hide ValidJob, DirsFit, MarkerShape;
  }

  lemma MarkedParts(g: Job, d: Disk)
    requires Marked(g, d)
    ensures Body(g, d) && MarkerOf(d, g.tag).Some? && Fits(g, d, MarkerOf(d, g.tag).value)
  {
    hide Body, Fits;
  }

  /** The marker is where it was and still true. */
  lemma SameMarker(g: Job, a: Disk, b: Disk)
    requires Marked(g, a) && Body(g, b) && MarkerOf(b, g.tag) == MarkerOf(a, g.tag) &&
      At(b, MarkerLoc(g.tag)) == At(a, MarkerLoc(g.tag))
    requires Fits(g, b, MarkerOf(a, g.tag).value) && Disciplined(g, a, b)
    ensures Marked(g, b) && Sound(g, a, b)
  {
    hide Body, Fits, Disciplined;
  }

  /** The set-aside link is made, or dropped again, while the original is in place. */
  lemma PrevStep(g: Job, a: Disk, b: Disk, p: RelPath)
    requires ValidJob(g) && Marked(g, a) && p in g.items && WF(b) && OnlyAt(a, b, PrevOf(p, g.tag)) &&
      KeepsOriginals(g, a, b)
    requires Original(g, a, p)
    requires At(b, PrevOf(p, g.tag)).None? ||
      (At(b, PrevOf(p, g.tag)) == At(g.orig, Home(p)) && At(g.orig, Home(p)).value.File?)
    ensures Sound(g, a, b) && Marked(g, b) && MarkerOf(b, g.tag) == MarkerOf(a, g.tag)
  {
    hide Fits, Body, OnlyFile, Disciplined;
    HiddenName(g, a, b, p, PrevOf(p, g.tag));
    OneFileFits(g, a, b, p, MarkerOf(a, g.tag).value);
  }

  /** A rename between two of `p`'s own names. */
  lemma OwnRename(g: Job, a: Disk, b: Disk, p: RelPath, from: Name)
    requires ValidJob(g) && Body(g, a) && p in g.items && (from == Temp(p.name, g.tag) || from == Prev(p.name, g.tag))
    requires Do(a, Rename(p.parent, from, Live(p.name))) == Some(b)
    requires At(a, Loc(p.parent, from)) != At(a, Home(p))
    ensures Body(g, b) && OnlyFile(g, a, b, p)
    ensures MarkerOf(b, g.tag) == MarkerOf(a, g.tag) && At(b, MarkerLoc(g.tag)) == At(a, MarkerLoc(g.tag))
    ensures At(b, Home(p)) == At(a, Loc(p.parent, from)) && InodeAt(b, Home(p)) == InodeAt(a, Loc(p.parent, from))
    ensures At(b, Loc(p.parent, from)).None?
    ensures from.Temp? ==> At(b, PrevOf(p, g.tag)) == At(a, PrevOf(p, g.tag))
    ensures from.Prev? ==> At(b, TempOf(p, g.tag)) == At(a, TempOf(p, g.tag))
    ensures forall l :: !IsHomeOf(l, p, g.tag) ==> At(b, l) == At(a, l)
  {
    hide *;
    var f, h := Loc(p.parent, from), Home(p);
    HomesTouched(g, p, from);
    RenameCall(g, a, p.parent, from, Live(p.name));
    BodyAfterRename(g, a, b, f, h);
    OnlyFileMoved(g, a, b, p, f, h);
  }

  lemma HomesTouched(g: Job, p: RelPath, from: Name)
    requires p in g.items && (from == Temp(p.name, g.tag) || from == Prev(p.name, g.tag))
    ensures Touched(g, Loc(p.parent, from)) && Touched(g, Home(p)) && Home(p) == Loc(p.parent, Live(p.name)) &&
      Home(p).name.Live?
    ensures Loc(p.parent, from) == TempOf(p, g.tag) || Loc(p.parent, from) == PrevOf(p, g.tag)
    ensures from.Temp? ==> Loc(p.parent, from) == TempOf(p, g.tag)
    ensures from.Prev? ==> Loc(p.parent, from) == PrevOf(p, g.tag)
  {
  }

  lemma BodyAfterRename(g: Job, a: Disk, b: Disk, from: Loc, to: Loc)
    requires ValidJob(g) && Body(g, a) && WF(b) && KeepsOriginals(g, a, b) && b.next == a.next
    requires Touched(g, from) && Touched(g, to) && to.name.Live? && At(b, from).None?
    requires forall l :: l != from && l != to ==> At(b, l) == At(a, l) && InodeAt(b, l) == InodeAt(a, l)
    ensures Body(g, b)
  {
    hide Body, ValidJob, WF, KeepsOriginals, Touched, InodeAt;
    BodyMoves(g, a, b);
  }

  lemma OnlyFileMoved(g: Job, a: Disk, b: Disk, p: RelPath, from: Loc, to: Loc)
    requires ValidJob(g) && p in g.items && to == Home(p) && (from == TempOf(p, g.tag) || from == PrevOf(p, g.tag))
    requires forall l :: l != from && l != to ==> At(b, l) == At(a, l) && InodeAt(b, l) == InodeAt(a, l)
    ensures OnlyFile(g, a, b, p)
    ensures MarkerOf(b, g.tag) == MarkerOf(a, g.tag) && At(b, MarkerLoc(g.tag)) == At(a, MarkerLoc(g.tag))
    ensures from == TempOf(p, g.tag) ==> At(b, PrevOf(p, g.tag)) == At(a, PrevOf(p, g.tag))
    ensures from == PrevOf(p, g.tag) ==> At(b, TempOf(p, g.tag)) == At(a, TempOf(p, g.tag))
    ensures forall l :: !IsHomeOf(l, p, g.tag) ==> At(b, l) == At(a, l)
  {
    hide At, InodeAt;
  }

  /** A staged file replaces the live one. */
  lemma SwapStep(g: Job, a: Disk, b: Disk, p: RelPath)
    requires ValidJob(g) && Marked(g, a) && p in g.items && MarkerOf(a, g.tag).value.phase == Swapping
    requires Do(a, Rename(p.parent, Temp(p.name, g.tag), Live(p.name))) == Some(b)
    requires At(a, PrevOf(p, g.tag)) == At(g.orig, Home(p))
    ensures Sound(g, a, b) && Marked(g, b) && MarkerOf(b, g.tag) == MarkerOf(a, g.tag)
    ensures Replaced(g, b, p) && OnlyFile(g, a, b, p)
    ensures forall l :: !IsHomeOf(l, p, g.tag) ==> At(b, l) == At(a, l)
    ensures FinishReady(g, a) ==> FinishReady(g, b)
  {
    hide *;
    MarkedParts(g, a);
    RenamedIsThere(a, p.parent, Temp(p.name, g.tag), Live(p.name));
    TempIsFrom(p, g.tag);
    SwapIsNew(g, a, p);
    OwnRename(g, a, b, p, Temp(p.name, g.tag));
    SwappedCase(g, a, b, p);
    OneFileFits(g, a, b, p, MarkerOf(a, g.tag).value);
    SwapMove(g, a, b, p);
    SameMarker(g, a, b);
  }

  lemma RenamedIsThere(d: Disk, dir: Path, from: Name, to: Name)
    requires Do(d, Rename(dir, from, to)).Some?
    ensures At(d, Loc(dir, from)).Some?
  {
  }

  lemma TempIsFrom(p: RelPath, tag: string)
    ensures Loc(p.parent, Temp(p.name, tag)) == TempOf(p, tag) && Temp(p.name, tag).Temp?
  {
  }

  /** The staged file took its place: it is replaced, and as ready to finish as it was. */
  lemma SwappedCase(g: Job, a: Disk, b: Disk, p: RelPath)
    requires p in g.items && IsNew(g, At(a, TempOf(p, g.tag))) && Original(g, a, p)
    requires At(a, PrevOf(p, g.tag)) == At(g.orig, Home(p)) == At(b, PrevOf(p, g.tag)) && At(b, TempOf(p, g.tag)).None?
    requires At(b, Home(p)) == At(a, TempOf(p, g.tag)) && InodeAt(b, Home(p)) == InodeAt(a, TempOf(p, g.tag))
    ensures Replaced(g, b, p) && Undoable(g, b, p)
    ensures FinishReady(g, a) ==> Finishable(g, b, p)
  {
    if FinishReady(g, a) {
      assert Finishable(g, a, p);
    }
  }

  lemma SwapMove(g: Job, a: Disk, b: Disk, p: RelPath)
    requires MarkerOf(b, g.tag) == MarkerOf(a, g.tag) && OnlyFile(g, a, b, p)
    requires MarkerOf(a, g.tag).Some? && MarkerOf(a, g.tag).value.phase == Swapping
    requires At(b, Home(p)) == At(a, TempOf(p, g.tag))
    ensures Disciplined(g, a, b)
  {
  }

  /** What is about to be swapped in is a new file over the original. */
  lemma SwapIsNew(g: Job, a: Disk, p: RelPath)
    requires ValidJob(g) && Marked(g, a) && p in g.items && At(a, TempOf(p, g.tag)).Some?
    ensures IsNew(g, At(a, TempOf(p, g.tag))) && Original(g, a, p)
    ensures At(a, TempOf(p, g.tag)) != At(a, Home(p)) &&
      (At(g.orig, Home(p)).Some? && At(g.orig, Home(p)).value.File? ==> At(g.orig, Home(p)).value.ino < g.orig.next)
  {
  }

  /** A replaced file goes back to its original inode. */
  lemma PutBackStep(g: Job, a: Disk, b: Disk, p: RelPath)
    requires ValidJob(g) && Marked(g, a) && p in g.items && Replaced(g, a, p)
    requires Do(a, Rename(p.parent, Prev(p.name, g.tag), Live(p.name))) == Some(b)
    ensures Marked(g, b) && MarkerOf(b, g.tag) == MarkerOf(a, g.tag) && OnlyFile(g, a, b, p)
    ensures At(b, Home(p)) == At(g.orig, Home(p)) && At(b, PrevOf(p, g.tag)).None? && At(b, TempOf(p, g.tag)).None?
    ensures forall l :: !IsHomeOf(l, p, g.tag) ==> At(b, l) == At(a, l)
    ensures MarkerOf(a, g.tag).value.phase == RollingBack ==> Disciplined(g, a, b)
  {
    hide Fits, OnlyFile;
    assert At(a, PrevOf(p, g.tag)) == At(g.orig, Home(p));
    assert At(g.orig, Home(p)).value.ino < g.orig.next;
    OwnRename(g, a, b, p, Prev(p.name, g.tag));
    StagingIsOriginal(g, a, p);
    OneFileFits(g, a, b, p, MarkerOf(a, g.tag).value);
  }

  lemma StagingIsOriginal(g: Job, a: Disk, p: RelPath)
    requires ValidJob(g) && Marked(g, a) && p in g.items && Replaced(g, a, p)
    ensures MarkerOf(a, g.tag).value.phase != Staging
  {
    assert At(g.orig, Home(p)).Some? && At(g.orig, Home(p)).value.File? ==> At(g.orig, Home(p)).value.ino < g.orig.next;
  }

  /** A restore-added file is removed again. */
  lemma RemoveNewStep(g: Job, a: Disk, b: Disk, p: RelPath)
    requires ValidJob(g) && Marked(g, a) && p in g.items && Replaced(g, a, p) && At(g.orig, Home(p)).None?
    requires Do(a, Unlink(Home(p))) == Some(b) && MarkerOf(a, g.tag).value.phase == RollingBack
    ensures Sound(g, a, b) && Marked(g, b) && MarkerOf(b, g.tag) == MarkerOf(a, g.tag) && OnlyFile(g, a, b, p)
    ensures At(b, Home(p)).None? && At(b, PrevOf(p, g.tag)).None? && At(b, TempOf(p, g.tag)).None?
    ensures forall l :: !IsHomeOf(l, p, g.tag) ==> At(b, l) == At(a, l)
  {
    hide Fits, Body;
    EntryCall(g, a, Unlink(Home(p)));
    BodyStep(g, a, b, Home(p));
    QuietStep(g, a, b, Home(p));
    OneFileFits(g, a, b, p, MarkerOf(a, g.tag).value);
  }

  /** The marker goes once everything is settled one way or the other. */
  lemma DropMarkerStep(g: Job, a: Disk, b: Disk, c: Call)
    requires ValidJob(g) && Marked(g, a) && (c == Unlink(MarkerLoc(g.tag)) || c == Discard(MarkerLoc(g.tag))) &&
      Do(a, c) == Some(b)
    requires Clean(g, a) || Restored(g, a)
    ensures Sound(g, a, b) && Unmarked(g, b)
    ensures (Clean(g, a) ==> Clean(g, b)) && (Restored(g, a) ==> Restored(g, b))
    ensures forall l :: l != MarkerLoc(g.tag) ==> At(b, l) == At(a, l) && InodeAt(b, l) == InodeAt(a, l)
  {
    hide *;
    MarkedParts(g, a);
    EntryCall(g, a, c);
    MarkerTarget(g, a, b, c);
    BodyStep(g, a, b, MarkerLoc(g.tag));
    OnlyMarker(g, a, b);
    ElsewhereSettled(g, a, b);
    IsUnmarked(g, a, b);
  }

  lemma MarkerTarget(g: Job, a: Disk, b: Disk, c: Call)
    requires (c == Unlink(MarkerLoc(g.tag)) || c == Discard(MarkerLoc(g.tag))) && Do(a, c) == Some(b)
    ensures !c.Rename? && !c.Write? && !c.SetMeta? && Target(c) == MarkerLoc(g.tag) && At(b, MarkerLoc(g.tag)).None?
    ensures Touched(g, MarkerLoc(g.tag)) && MarkerLoc(g.tag) != NextLoc(g.tag) && !MarkerLoc(g.tag).name.Temp?
  {
  }

  lemma OnlyMarker(g: Job, a: Disk, b: Disk)
    requires OnlyAt(a, b, MarkerLoc(g.tag))
    ensures (forall p :: p in g.items ==> Steady(g, a, b, p)) &&
      forall c :: c in g.dirs ==> At(b, Home(c)) == At(a, Home(c))
    ensures forall l :: l != MarkerLoc(g.tag) ==> At(b, l) == At(a, l) && InodeAt(b, l) == InodeAt(a, l)
  {
  }

  lemma IsUnmarked(g: Job, a: Disk, b: Disk)
    requires Body(g, b) && At(b, MarkerLoc(g.tag)).None? && (Clean(g, b) || Restored(g, b)) && forall p ::
      p in g.items ==> Steady(g, a, b, p)
    ensures Unmarked(g, b) && Sound(g, a, b)
  {
    hide Body, Clean, Restored;
  }

  /** Without a marker, a restored disk stays one when a set-aside link is discarded. */
  lemma DisposeStep(g: Job, a: Disk, b: Disk, p: RelPath)
    requires ValidJob(g) && Unmarked(g, a) && Restored(g, a) && p in g.items
    requires Do(a, Discard(PrevOf(p, g.tag))) == Some(b)
    ensures Sound(g, a, b) && Unmarked(g, b) && Restored(g, b)
    ensures At(b, PrevOf(p, g.tag)).None? && OnlyAt(a, b, PrevOf(p, g.tag))
  {
    hide Body;
    EntryCall(g, a, Discard(PrevOf(p, g.tag)));
    HiddenName(g, a, b, p, PrevOf(p, g.tag));
    forall q | q in g.items ensures RestoredFile(g, b, q) {
      if q != p {
        FileUnmoved(g, a, b, q);
      }
    }
  }
}
