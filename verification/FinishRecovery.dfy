/**
  Finishing an interrupted restore: each staged file's verified bytes go to a
  file of recovery's own, which is renamed into place before the staged file
  is discarded.
*/
module FinishRecovery {
  import opened Wrappers
  import opened Volume
  import opened RestoreState
  import opened RestoreSteps
  import opened RecoveryPlan
  import opened Runs
  import opened Rollback
  import opened RollbackTheorem
  import opened Afterwards

  /** The marker says that files were being replaced, and describes this restore. */
  ghost predicate MidSwap(g: Job, d: Disk) {
    && Body(g, d) && IsNew(g, At(d, MarkerLoc(g.tag)))
    && MarkerOf(d, g.tag).Some? && MarkerOf(d, g.tag).value.phase == Swapping &&
      MarkerShape(g, MarkerOf(d, g.tag).value)
  }

  /** What is staged for `p` hashes to the backup, and can replace what is there. */
  ghost predicate Installable(g: Job, d: Disk, p: RelPath)
    requires p in g.items
  {
    && (At(d, Home(p)).Some? ==> At(d, Home(p)).value.File?)
    && Disposable(g, d, p)
    && StagedMatches(g, d, p)
  }

  ghost predicate StagedMatches(g: Job, d: Disk, p: RelPath)
    requires p in g.items
  {
    At(d, TempOf(p, g.tag)).Some? ==>
      InodeAt(d, TempOf(p, g.tag)).Some? && Matches(InodeAt(d, TempOf(p, g.tag)).value, g.items[p])
  }

  /**
    A finish can start, or start again, from here. `held` are files it will
    leave as the manifest says: those staged, and those already in place.
  */
  ghost predicate Underway(g: Job, held: set<RelPath>, d: Disk) {
    && MidSwap(g, d)
    && (forall p :: p in g.items ==> Installable(g, d, p))
    && (forall p :: p in held ==>
      p in g.items && (At(d, TempOf(p, g.tag)).None? ==> Holds(d, Home(p), g.items[p], g.owners)))
    && (forall c :: c in g.dirs ==> At(d, Home(c)) == Some(Dir))
  }

  ghost predicate Completing(g: Job, held: set<RelPath>, d: Disk) {
    Underway(g, held, d) || Over(g, held, d)
  }

  ghost function CompletingBy(g: Job, held: set<RelPath>): Disk -> bool {
    d => Completing(g, held, d)
  }

  /** Every crash in the swap window is such a disk, with every file held. */
  lemma SwapWindow(g: Job, d: Disk)
    requires ValidJob(g) && Marked(g, d) && PhaseOf(d, g.tag) == Some(Swapping) && FinishReady(g, d)
    ensures Underway(g, g.items.Keys, d)
  {
    forall p | p in g.items ensures Installable(g, d, p) {
      assert Undoable(g, d, p) && Finishable(g, d, p);
    }
  }

  /** `calls` lead from `d` to `e`, all of them succeed, and a finish could start again after each. */
  ghost predicate Stretch(g: Job, held: set<RelPath>, d: Disk, e: Disk, calls: seq<Call>) {
    && Run(d, calls) == Some(e)
    && Keeps(CompletingBy(g, held), d, calls)
    && Underway(g, held, d) && Underway(g, held, e) && MarkerOf(e, g.tag) == MarkerOf(d, g.tag)
  }

  lemma StretchNone(g: Job, held: set<RelPath>, d: Disk)
    requires Underway(g, held, d)
    ensures Stretch(g, held, d, d, [])
  {
  }

  lemma StretchOne(g: Job, held: set<RelPath>, d: Disk, e: Disk, c: Call)
    requires Underway(g, held, d) && Underway(g, held, e) && Do(d, c) == Some(e) &&
      MarkerOf(e, g.tag) == MarkerOf(d, g.tag)
    ensures Stretch(g, held, d, e, [c])
  {
    hide Underway;
    assert [c][1..] == [];
    assert CompletingBy(g, held)(d) && CompletingBy(g, held)(e);
    assert Run(e, [c][1..]) == Some(e);
    assert Keeps(CompletingBy(g, held), e, [c][1..]);
  }

  lemma StretchThen(g: Job, held: set<RelPath>, d: Disk, e: Disk, f: Disk, a: seq<Call>, b: seq<Call>)
    requires Stretch(g, held, d, e, a) && Stretch(g, held, e, f, b)
    ensures Stretch(g, held, d, f, a + b)
  {
    hide Underway;
    RunConcat(d, a, b);
    KeepsConcat(CompletingBy(g, held), d, a, b);
  }

  lemma StretchEnds(g: Job, held: set<RelPath>, d: Disk, e: Disk, calls: seq<Call>)
    requires Stretch(g, held, d, e, calls)
    ensures Underway(g, held, d) && Underway(g, held, e) && MarkerOf(e, g.tag) == MarkerOf(d, g.tag)
  {
  }

  lemma UnderwayBody(g: Job, held: set<RelPath>, d: Disk)
    requires Underway(g, held, d)
    ensures Body(g, d) && MidSwap(g, d)
  {
  }

  /** Contents count as well as entries: `d` and `e` agree at `l`. */
  ghost predicate SameAt(d: Disk, e: Disk, l: Loc) {
    At(e, l) == At(d, l) && InodeAt(e, l) == InodeAt(d, l)
  }

  /** While `e` agrees with `d` on every file's names, a finish stays under way. */
  lemma StillUnderway(g: Job, held: set<RelPath>, d: Disk, e: Disk)
    requires ValidJob(g) && Underway(g, held, d) && Body(g, e) && SameAt(d, e, MarkerLoc(g.tag))
    requires forall p :: p in g.items ==>
      SameAt(d, e, Home(p)) && SameAt(d, e, TempOf(p, g.tag)) && SameAt(d, e, PrevOf(p, g.tag))
    requires forall c :: c in g.dirs ==> SameAt(d, e, Home(c))
    ensures Underway(g, held, e) && MarkerOf(e, g.tag) == MarkerOf(d, g.tag)
  {
    hide Body;
    forall p | p in g.items ensures Installable(g, e, p) {
      assert Installable(g, d, p);
    }
  }

  /** A step at recovery's own file. */
  lemma OwnStep(g: Job, held: set<RelPath>, d: Disk, e: Disk, p: RelPath, c: Call)
    requires ValidJob(g) && Underway(g, held, d) && p in g.items && Do(d, c) == Some(e)
    requires WF(e) && OnlyAt(d, e, InstallOf(p, g.tag)) && KeepsOriginals(g, d, e) &&
      NoneOrNew(g, At(e, InstallOf(p, g.tag)))
    ensures Stretch(g, held, d, e, [c])
  {
    hide Underway, Body, ValidJob;
    var l := InstallOf(p, g.tag);
    assert Scratch(g, l);
    ScratchApart(g, l);
    UnderwayBody(g, held, d);
    BodyStep(g, d, e, l);
    forall q | q in g.items ensures SameAt(d, e, Home(q)) && SameAt(d, e, TempOf(q, g.tag)) &&
      SameAt(d, e, PrevOf(q, g.tag)) {
      assert !IsHomeOf(l, q, g.tag);
    }
    StillUnderway(g, held, d, e);
    StretchOne(g, held, d, e, c);
  }

  /** What the install has made so far: a new file only its own name holds. */
  ghost predicate Own(g: Job, d: Disk, p: RelPath) {
    IsNew(g, At(d, InstallOf(p, g.tag))) && SoleName(d, InstallOf(p, g.tag), At(d, InstallOf(p, g.tag)).value.ino)
  }

  lemma CreateOwn(g: Job, held: set<RelPath>, d: Disk, p: RelPath) returns (e: Disk)
    requires ValidJob(g) && Underway(g, held, d) && p in g.items && IsDir(d, p.parent)
    ensures Stretch(g, held, d, e, [Discard(InstallOf(p, g.tag)), Create(InstallOf(p, g.tag))])
    ensures OnlyAt(d, e, InstallOf(p, g.tag)) && Own(g, e, p) && InodeAt(e, InstallOf(p, g.tag)).Some?
  {
    hide Underway, Body, ValidJob, Stretch, Do, MidSwap, KeepsOriginals, IsDir;
    var l := InstallOf(p, g.tag);
    UnderwayBody(g, held, d);
    InstallIsFile(g, d, p);
    EntryCall(g, d, Discard(l));
    var m := Do(d, Discard(l)).value;
    OwnStep(g, held, d, m, p, Discard(l));
    StretchEnds(g, held, d, m, [Discard(l)]);
    UnderwayBody(g, held, m);
    ParentKept(g, d, m, p, l);
    CreateGoes(m, l);
    EntryCall(g, m, Create(l));
    e := Do(m, Create(l)).value;
    FreshIsNew(g, m);
    OwnStep(g, held, m, e, p, Create(l));
    StretchThen(g, held, d, m, e, [Discard(l)], [Create(l)]);
    assert [Discard(l)] + [Create(l)] == [Discard(l), Create(l)];
  }

  lemma InstallIsFile(g: Job, d: Disk, p: RelPath)
    requires Body(g, d) && p in g.items
    ensures NoneOrNew(g, At(d, InstallOf(p, g.tag)))
    ensures IsDir(d, p.parent) ==> Do(d, Discard(InstallOf(p, g.tag))).Some?
  {
  }

  lemma CreateGoes(d: Disk, l: Loc)
    requires IsDir(d, l.dir) && At(d, l).None?
    ensures Do(d, Create(l)).Some? && InodeAt(Do(d, Create(l)).value, l).Some?
  {
  }

  lemma ParentKept(g: Job, d: Disk, e: Disk, p: RelPath, l: Loc)
    requires OnlyAt(d, e, l) && !l.name.Live? && IsDir(d, p.parent)
    ensures IsDir(e, p.parent)
  {
  }

  /** A write to the install's own file, or to its attributes. */
  lemma WriteOwn(g: Job, held: set<RelPath>, d: Disk, p: RelPath, c: Call) returns (e: Disk)
    requires ValidJob(g) && Underway(g, held, d) && p in g.items && Own(g, d, p) &&
      InodeAt(d, InstallOf(p, g.tag)).Some?
    requires (c.Write? || c.SetMeta?) && c.at == InstallOf(p, g.tag)
    ensures Do(d, c) == Some(e) && Stretch(g, held, d, e, [c]) && OnlyAt(d, e, InstallOf(p, g.tag)) && Own(g, e, p)
    ensures InodeAt(e, c.at) ==
      Some(if c.Write? then InodeAt(d, c.at).value.(blob := c.blob)
      else WithMeta(InodeAt(d, c.at).value, c.mode, c.owner))
  {
    hide Underway, Body, ValidJob;
    UnderwayBody(g, held, d);
    e := Do(d, c).value;
    WriteCall(g, d, c);
    OwnStep(g, held, d, e, p, c);
  }

  function StageCalls(p: RelPath, tag: string, file: Item, owners: bool, torn: Bytes): seq<Call> {
    var own := InstallOf(p, tag);
    [Discard(own), Create(own)] + [Write(own, Raw(torn))] + [Write(own, Raw(file.digest.of))]
    + [SetMeta(own, file.mode, if owners then Some((file.uid, file.gid)) else None)]
  }

  /** The install's file is written in full before its name is used. */
  lemma StageInstall(g: Job, held: set<RelPath>, d: Disk, p: RelPath, torn: Bytes) returns (e: Disk)
    requires ValidJob(g) && Underway(g, held, d) && p in g.items && IsDir(d, p.parent)
    ensures Stretch(g, held, d, e, StageCalls(p, g.tag, g.items[p], g.owners, torn))
    ensures OnlyAt(d, e, InstallOf(p, g.tag)) && Own(g, e, p) && Holds(e, InstallOf(p, g.tag), g.items[p], g.owners)
  {
    hide Underway, ValidJob, Stretch, Own, Do;
    var own, f := InstallOf(p, g.tag), g.items[p];
    var c2, c3 := Write(own, Raw(torn)), Write(own, Raw(f.digest.of));
    var c4 := SetMeta(own, f.mode, if g.owners then Some((f.uid, f.gid)) else None);
    var e1 := CreateOwn(g, held, d, p);
    var c1 := [Discard(own), Create(own)];
    StretchEnds(g, held, d, e1, c1);
    var e2 := WriteOwn(g, held, e1, p, c2);
    StretchThen(g, held, d, e1, e2, c1, [c2]);
    StretchEnds(g, held, d, e2, c1 + [c2]);
    var e3 := WriteOwn(g, held, e2, p, c3);
    StretchThen(g, held, d, e2, e3, c1 + [c2], [c3]);
    StretchEnds(g, held, d, e3, c1 + [c2] + [c3]);
    e := WriteOwn(g, held, e3, p, c4);
    StretchThen(g, held, d, e3, e, c1 + [c2] + [c3], [c4]);
  }

  /** The verified file takes `p`'s name. */
  lemma RenameOwn(g: Job, held: set<RelPath>, d: Disk, p: RelPath) returns (e: Disk)
    requires ValidJob(g) && Underway(g, held, d) && p in g.items && Own(g, d, p) &&
      Holds(d, InstallOf(p, g.tag), g.items[p], g.owners)
    ensures var c := Rename(p.parent, InstallOf(p, g.tag).name, Live(p.name));
      Do(d, c) == Some(e) && Stretch(g, held, d, e, [c])
    ensures Holds(e, Home(p), g.items[p], g.owners) && At(e, InstallOf(p, g.tag)).None?
    ensures forall l :: l != Home(p) && l != InstallOf(p, g.tag) ==> SameAt(d, e, l)
  {
    hide Underway, Body, Do;
    var own := InstallOf(p, g.tag);
    var c := Rename(p.parent, own.name, Live(p.name));
    OwnRenames(g, held, d, p);
    UnderwayBody(g, held, d);
    e := Do(d, c).value;
    assert Scratch(g, own);
    ScratchApart(g, own);
    RenameCall(g, d, p.parent, own.name, Live(p.name));
    assert Touched(g, Home(p)) && Touched(g, own);
    BodyMoves(g, d, e);
    RenamedUnderway(g, held, d, e, p);
    StretchOne(g, held, d, e, c);
  }

  lemma OwnRenames(g: Job, held: set<RelPath>, d: Disk, p: RelPath)
    requires Underway(g, held, d) && p in g.items && Own(g, d, p)
    ensures Do(d, Rename(p.parent, InstallOf(p, g.tag).name, Live(p.name))).Some? &&
      At(d, InstallOf(p, g.tag)) != At(d, Home(p))
  {
    assert Installable(g, d, p);
  }

  lemma RenamedUnderway(g: Job, held: set<RelPath>, d: Disk, e: Disk, p: RelPath)
    requires ValidJob(g) && Underway(g, held, d) && Body(g, e) && p in g.items
    requires forall l :: l != Home(p) && l != InstallOf(p, g.tag) ==> SameAt(d, e, l)
    requires Holds(e, Home(p), g.items[p], g.owners)
    ensures Underway(g, held, e) && MarkerOf(e, g.tag) == MarkerOf(d, g.tag)
  {
    hide *;
    UnderwayFileIs(g, held, d, p);
    RenamedElsewhere(g, d, e, p);
    OneFileUnderway(g, held, d, e, p);
  }

  lemma RenamedElsewhere(g: Job, d: Disk, e: Disk, p: RelPath)
    requires ValidJob(g) && p in g.items && Installable(g, d, p) && Holds(e, Home(p), g.items[p], g.owners)
    requires forall l :: l != Home(p) && l != InstallOf(p, g.tag) ==> SameAt(d, e, l)
    ensures SameAt(d, e, MarkerLoc(g.tag)) && Installable(g, e, p)
    ensures forall q: RelPath :: q != p ==>
      SameAt(d, e, Home(q)) && SameAt(d, e, TempOf(q, g.tag)) && SameAt(d, e, PrevOf(q, g.tag))
  {
    InstallApart(g, p);
    HomesApart(g, p);
    hide ValidJob, Matches, MetaMatches;
    assert SameAt(d, e, TempOf(p, g.tag)) && SameAt(d, e, PrevOf(p, g.tag)) && SameAt(d, e, MarkerLoc(g.tag));
  }

  lemma InstallApart(g: Job, p: RelPath)
    requires p in g.items
    ensures InstallOf(p, g.tag) != MarkerLoc(g.tag) && forall q: RelPath ::
      InstallOf(p, g.tag) != Home(q) && InstallOf(p, g.tag) != TempOf(q, g.tag) &&
      InstallOf(p, g.tag) != PrevOf(q, g.tag)
  {
    assert |InstallTag(g.tag)| > |g.tag|;
  }

  lemma HomesApart(g: Job, p: RelPath)
    requires ValidJob(g) && p in g.items
    ensures forall q: RelPath :: q != p ==>
      Home(q) != Home(p) && TempOf(q, g.tag) != TempOf(p, g.tag) && PrevOf(q, g.tag) != PrevOf(p, g.tag)
    ensures forall c :: c in g.dirs ==> c != p
  {
  }

  /** Only `p`'s names changed, and `p` can still be finished. */
  lemma OneFileUnderway(g: Job, held: set<RelPath>, d: Disk, e: Disk, p: RelPath)
    requires ValidJob(g) && Underway(g, held, d) && Body(g, e) && p in g.items && SameAt(d, e, MarkerLoc(g.tag))
    requires forall q: RelPath :: q != p ==>
      SameAt(d, e, Home(q)) && SameAt(d, e, TempOf(q, g.tag)) && SameAt(d, e, PrevOf(q, g.tag))
    requires Installable(g, e, p) &&
      (At(e, TempOf(p, g.tag)).None? && p in held ==> Holds(e, Home(p), g.items[p], g.owners))
    ensures Underway(g, held, e) && MarkerOf(e, g.tag) == MarkerOf(d, g.tag)
  {
    hide Body;
    forall q | q in g.items ensures Installable(g, e, q) {
      assert Installable(g, d, q);
    }
    forall c | c in g.dirs ensures At(e, Home(c)) == Some(Dir) {
      assert c != p && SameAt(d, e, Home(c));
    }
  }

  /** One of `p`'s hidden names goes, its file being in place. */
  lemma HiddenDropped(g: Job, held: set<RelPath>, d: Disk, p: RelPath, l: Loc) returns (e: Disk)
    requires ValidJob(g) && Underway(g, held, d) && p in g.items && IsDir(d, p.parent)
    requires l == PrevOf(p, g.tag) || (l == TempOf(p, g.tag) && Holds(d, Home(p), g.items[p], g.owners))
    ensures Do(d, Discard(l)) == Some(e) && Stretch(g, held, d, e, [Discard(l)]) && OnlyAt(d, e, l) && At(e, l).None?
  {
    hide Underway, Body;
    HiddenIsFile(g, held, d, p, l);
    UnderwayBody(g, held, d);
    e := Do(d, Discard(l)).value;
    EntryCall(g, d, Discard(l));
    BodyStep(g, d, e, l);
    DroppedUnderway(g, held, d, e, p, l);
    StretchOne(g, held, d, e, Discard(l));
  }

  lemma HiddenIsFile(g: Job, held: set<RelPath>, d: Disk, p: RelPath, l: Loc)
    requires Underway(g, held, d) && p in g.items && IsDir(d, p.parent) &&
      (l == PrevOf(p, g.tag) || l == TempOf(p, g.tag))
    ensures Do(d, Discard(l)).Some?
  {
    assert Installable(g, d, p);
  }

  lemma DroppedUnderway(g: Job, held: set<RelPath>, d: Disk, e: Disk, p: RelPath, l: Loc)
    requires ValidJob(g) && Underway(g, held, d) && Body(g, e) && p in g.items && OnlyAt(d, e, l) && At(e, l).None?
    requires l == PrevOf(p, g.tag) || (l == TempOf(p, g.tag) && Holds(d, Home(p), g.items[p], g.owners))
    ensures Underway(g, held, e) && MarkerOf(e, g.tag) == MarkerOf(d, g.tag)
  {
    hide Underway, Body, ValidJob;
    UnderwayFileIs(g, held, d, p);
    if p in held {
      HeldStays(g, held, d, p);
    }
    OthersSteady(g, d, e, p, l);
    StillInstallable(g, d, e, p, l);
    OneFileUnderway(g, held, d, e, p);
  }

  lemma UnderwayFileIs(g: Job, held: set<RelPath>, d: Disk, p: RelPath)
    requires Underway(g, held, d) && p in g.items
    ensures Installable(g, d, p)
  {
  }

  lemma OthersSteady(g: Job, d: Disk, e: Disk, p: RelPath, l: Loc)
    requires OnlyAt(d, e, l) && (l == PrevOf(p, g.tag) || l == TempOf(p, g.tag))
    ensures forall q: RelPath :: q != p ==>
      SameAt(d, e, Home(q)) && SameAt(d, e, TempOf(q, g.tag)) && SameAt(d, e, PrevOf(q, g.tag))
    ensures SameAt(d, e, MarkerLoc(g.tag)) && SameAt(d, e, Home(p))
  {
  }

  lemma StillInstallable(g: Job, d: Disk, e: Disk, p: RelPath, l: Loc)
    requires p in g.items && Installable(g, d, p) && OnlyAt(d, e, l) && At(e, l).None? &&
      (l == PrevOf(p, g.tag) || l == TempOf(p, g.tag))
    ensures Installable(g, e, p)
    ensures l == PrevOf(p, g.tag) ==> At(e, TempOf(p, g.tag)) == At(d, TempOf(p, g.tag))
    ensures Holds(e, Home(p), g.items[p], g.owners) == Holds(d, Home(p), g.items[p], g.owners)
  {
  }

  lemma HeldStays(g: Job, held: set<RelPath>, d: Disk, p: RelPath)
    requires Underway(g, held, d) && p in held
    ensures p in g.items && (At(d, TempOf(p, g.tag)).None? ==> Holds(d, Home(p), g.items[p], g.owners))
  {
  }
}
