/**
  Rolling an interrupted restore back: from any crash, the steps `Plan`
  computes put every original back on its inode.
*/
module Rollback {
  import opened Wrappers
  import opened Volume
  import opened RestoreState
  import opened RestoreSteps
  import opened RecoveryPlan
  import opened Runs

  /** Nothing of the restore is left at `p` but, where there was no file, the one it added. */
  ghost predicate BackFile(g: Job, d: Disk, p: RelPath) {
    && At(d, TempOf(p, g.tag)).None?
    && At(d, PrevOf(p, g.tag)).None?
    && (At(d, Home(p)) == At(g.orig, Home(p)) || (At(g.orig, Home(p)).None? && IsNew(g, At(d, Home(p)))))
  }

  /** The marker is gone and every file and directory is back. */
  ghost predicate RolledBack(g: Job, d: Disk) {
    && Body(g, d)
    && At(d, MarkerLoc(g.tag)).None?
    && (forall p :: p in g.items ==> BackFile(g, d, p))
    && (forall c :: c in g.dirs ==> At(d, Home(c)) == At(g.orig, Home(c)))
  }

  /** A rollback can start, or start again, from here. */
  ghost predicate Rescuable(g: Job, d: Disk) {
    Marked(g, d) || RolledBack(g, d)
  }

  ghost function RescuableBy(g: Job): Disk -> bool {
    d => Rescuable(g, d)
  }

  /** `p`'s three names hold on `d` what they held on `d0`, when the plan was made. */
  ghost predicate AsPlanned(g: Job, d0: Disk, d: Disk, p: RelPath) {
    && At(d, Home(p)) == At(d0, Home(p))
    && At(d, TempOf(p, g.tag)) == At(d0, TempOf(p, g.tag))
    && At(d, PrevOf(p, g.tag)) == At(d0, PrevOf(p, g.tag))
  }

  /** `calls` lead from `d` to `e`, all of them succeed, and the marker stays true throughout. */
  ghost predicate Span(g: Job, d: Disk, e: Disk, calls: seq<Call>) {
    && Run(d, calls) == Some(e)
    && Keeps(RescuableBy(g), d, calls)
    && Marked(g, d) && Marked(g, e) && MarkerOf(e, g.tag) == MarkerOf(d, g.tag)
  }

  lemma SpanNone(g: Job, d: Disk)
    requires Marked(g, d)
    ensures Span(g, d, d, [])
  {
  }

  lemma SpanOne(g: Job, d: Disk, e: Disk, c: Call)
    requires Marked(g, d) && Marked(g, e) && Do(d, c) == Some(e) && MarkerOf(e, g.tag) == MarkerOf(d, g.tag)
    ensures Span(g, d, e, [c])
  {
    hide Marked;
    assert [c][1..] == [];
    assert RescuableBy(g)(d) && RescuableBy(g)(e);
    assert Run(e, [c][1..]) == Some(e);
    assert Keeps(RescuableBy(g), e, [c][1..]);
  }

  lemma SpanThen(g: Job, d: Disk, e: Disk, f: Disk, a: seq<Call>, b: seq<Call>)
    requires Span(g, d, e, a) && Span(g, e, f, b)
    ensures Span(g, d, f, a + b)
  {
    hide Marked;
    RunConcat(d, a, b);
    KeepsConcat(RescuableBy(g), d, a, b);
  }

  /** Where there was no file, whatever is there stays. */
  ghost predicate AddedStays(g: Job, d: Disk, e: Disk, p: RelPath) {
    At(g.orig, Home(p)).None? ==> At(e, Home(p)) == At(d, Home(p))
  }

  /** What putting one file back comes to. */
  ghost predicate FileDone(g: Job, d: Disk, e: Disk, p: RelPath, ops: seq<Op>, calls: seq<Call>) {
    && Span(g, d, e, calls)
    && BackFile(g, e, p) && AddedStays(g, d, e, p)
    && (IsNew(g, At(e, Home(p))) ==> Keep(Home(p)) in ops)
    && (forall l :: !IsHomeOf(l, p, g.tag) ==> At(e, l) == At(d, l))
  }

  lemma {:induction false} KindIsAt(d: Disk, left: seq<Left>, l: Loc)
    requires forall x :: x in left ==> x.at in d.tree && x.kind == d.tree[x.at]
    ensures KindOf(left, l).Some? ==> KindOf(left, l) == At(d, l)
    ensures KindOf(left, l).None? ==> forall x :: x in left ==> x.at != l
  {
    if left != [] {
      KindIsAt(d, left[1..], l);
      assert forall x :: x in left ==> x == left[0] || x in left[1..];
    }
  }

  lemma KindOfListed(d: Disk, left: seq<Left>, l: Loc)
    requires Lists(d, left) && !l.name.Live?
    ensures KindOf(left, l) == At(d, l)
  {
    KindIsAt(d, left, l);
  }

  /** Discarding a hidden name, if it is there, of a file whose original is in place. */
  lemma DiscardHidden(g: Job, d: Disk, p: RelPath, l: Loc, torn: Bytes) returns (e: Disk, ops: seq<Op>)
    requires ValidJob(g) && Marked(g, d) && p in g.items && Original(g, d, p)
    requires l == TempOf(p, g.tag) || l == PrevOf(p, g.tag)
    ensures ops == RemoveIf(At(d, l), l) && Span(g, d, e, AllCalls(ops, torn))
    ensures OnlyAt(d, e, l) && At(e, l).None? && Original(g, e, p)
  {
    hide Fits, ValidJob, Sound;
    ops := RemoveIf(At(d, l), l);
    e := d;
    if At(d, l).Some? {
      e := Do(d, Discard(l)).value;
      EntryCall(g, d, Discard(l));
      if l == TempOf(p, g.tag) {
        TempStep(g, d, e, p);
      } else {
        PrevStep(g, d, e, p);
      }
      hide Marked;
      SpanOne(g, d, e, Discard(l));
      OneOp(Remove(l), torn);
    } else {
      SpanNone(g, d);
    }
  }

  lemma OneOp(op: Op, torn: Bytes)
    ensures AllCalls([op], torn) == Calls(op, torn)
  {
    assert [op][1..] == [];
  }

  /** Not swapped, or already back: the temp file and the second link go. */
  lemma BackFromOriginal(g: Job, d: Disk, p: RelPath, torn: Bytes) returns (e: Disk, ops: seq<Op>)
    requires ValidJob(g) && Marked(g, d) && p in g.items && Original(g, d, p)
    ensures ops == RemoveIf(At(d, TempOf(p, g.tag)), TempOf(p, g.tag)) +
      RemoveIf(At(d, PrevOf(p, g.tag)), PrevOf(p, g.tag))
    ensures FileDone(g, d, e, p, ops, AllCalls(ops, torn))
  {
    hide Marked, Body, Span;
    var m, a := DiscardHidden(g, d, p, TempOf(p, g.tag), torn);
    SpanEnds(g, d, m, AllCalls(a, torn));
    var b;
    e, b := DiscardHidden(g, m, p, PrevOf(p, g.tag), torn);
    SpanThen(g, d, m, e, AllCalls(a, torn), AllCalls(b, torn));
    CallsConcat(a, b, torn);
    ops := a + b;
    OriginalIsOld(g, e, p);
  }

  lemma SpanEnds(g: Job, d: Disk, e: Disk, calls: seq<Call>)
    requires Span(g, d, e, calls)
    ensures Marked(g, e) && MarkerOf(e, g.tag) == MarkerOf(d, g.tag) && Run(d, calls) == Some(e)
  {
  }

  /** Swapped: the link goes back over the live file, or what was added is kept and named. */
  lemma BackFromReplaced(g: Job, d: Disk, p: RelPath, torn: Bytes) returns (e: Disk, ops: seq<Op>)
    requires ValidJob(g) && Marked(g, d) && p in g.items && Replaced(g, d, p)
    ensures ops == [if At(g.orig, Home(p)).Some? then Move(p.parent, Prev(p.name, g.tag), Live(p.name))
      else Keep(Home(p))]
    ensures FileDone(g, d, e, p, ops, AllCalls(ops, torn))
    ensures At(d, PrevOf(p, g.tag)) != At(d, Home(p))
  {
    hide Marked;
    ReplacedIsNew(g, d, p);
    if At(g.orig, Home(p)).Some? {
      var c := Rename(p.parent, Prev(p.name, g.tag), Live(p.name));
      e := Do(d, c).value;
      PutBackStep(g, d, e, p);
      ops := [Move(p.parent, Prev(p.name, g.tag), Live(p.name))];
      SpanOne(g, d, e, c);
      OneOp(ops[0], torn);
      OldIsOld(g, e, p);
    } else {
      hide Marked;
      e, ops := d, [Keep(Home(p))];
      SpanNone(g, d);
      OneOp(ops[0], torn);
    }
  }

  lemma ReplacedIsNew(g: Job, d: Disk, p: RelPath)
    requires ValidJob(g) && Marked(g, d) && Replaced(g, d, p)
    ensures At(d, PrevOf(p, g.tag)) != At(d, Home(p)) && At(d, Home(p)).value.File?
    ensures At(g.orig, Home(p)).Some? ==> Do(d, Rename(p.parent, Prev(p.name, g.tag), Live(p.name))).Some?
    ensures IsDir(d, p.parent)
  {
    hide Fits, Touched, NoneOrNew;
    if At(g.orig, Home(p)).Some? {
      assert At(g.orig, Home(p)).value.ino in g.orig.inodes;
    }
    assert Home(p) in d.tree;
  }

  lemma OldIsOld(g: Job, d: Disk, p: RelPath)
    requires ValidJob(g) && At(d, Home(p)) == At(g.orig, Home(p))
    ensures !IsNew(g, At(d, Home(p)))
  {
  }

  lemma OriginalIsOld(g: Job, d: Disk, p: RelPath)
    requires ValidJob(g) && Original(g, d, p)
    ensures !IsNew(g, At(d, Home(p)))
  {
  }

  /** The planned steps put one file back, whatever its case is. */
  lemma FileBack(g: Job, d0: Disk, left: seq<Left>, d: Disk, f: MarkedFile, torn: Bytes) returns (e: Disk, ops: seq<Op>)
    requires ValidJob(g) && Marked(g, d0) && Lists(d0, left) && Marked(g, d) && f.path in g.items &&
      AsPlanned(g, d0, d, f.path)
    requires f.hadPrev == At(g.orig, Home(f.path)).Some?
    ensures FileOps(d0, left, g.tag, f, None) == Ok(ops) && FileDone(g, d, e, f.path, ops, AllCalls(ops, torn))
  {
    hide Marked, Lists, FileDone, FileOps, Original, Replaced;
    PlannedCase(g, d0, d, f.path);
    PlannedOps(g, d0, left, d, f);
    if Original(g, d, f.path) {
      e, ops := BackFromOriginal(g, d, f.path, torn);
    } else {
      e, ops := BackFromReplaced(g, d, f.path, torn);
    }
  }

  /** The steps planned for a file, read off its case. */
  lemma PlannedOps(g: Job, d0: Disk, left: seq<Left>, d: Disk, f: MarkedFile)
    requires ValidJob(g) && Marked(g, d0) && Lists(d0, left) && Marked(g, d) && f.path in g.items &&
      AsPlanned(g, d0, d, f.path)
    requires f.hadPrev == At(g.orig, Home(f.path)).Some?
    ensures Original(g, d, f.path) ==>
      FileOps(d0, left, g.tag, f, None) ==
        Ok(RemoveIf(At(d, TempOf(f.path, g.tag)), TempOf(f.path, g.tag)) +
        RemoveIf(At(d, PrevOf(f.path, g.tag)), PrevOf(f.path, g.tag)))
    ensures Replaced(g, d, f.path) ==>
      FileOps(d0, left, g.tag, f, None) ==
        Ok([if f.hadPrev then Move(f.path.parent, Prev(f.path.name, g.tag), Live(f.path.name)) else Keep(Home(f.path))])
  {
    hide Marked, Lists, Original, Replaced, KindOf;
    KindOfListed(d0, left, TempOf(f.path, g.tag));
    KindOfListed(d0, left, PrevOf(f.path, g.tag));
    PlannedCase(g, d0, d, f.path);
    var t, v := RemoveIf(At(d, TempOf(f.path, g.tag)), TempOf(f.path, g.tag)),
      RemoveIf(At(d, PrevOf(f.path, g.tag)), PrevOf(f.path, g.tag));
    assert t == [] ==> t + v == v;
    assert v == [] ==> t + v == t;
  }

  lemma PlannedCase(g: Job, d0: Disk, d: Disk, p: RelPath)
    requires ValidJob(g) && Marked(g, d0) && Marked(g, d) && p in g.items && AsPlanned(g, d0, d, p)
    ensures Original(g, d, p) || Replaced(g, d, p)
    ensures At(d0, Home(p)).Some? ==> IsDir(d0, p.parent)
    ensures var o, v := At(g.orig, Home(p)), At(d, PrevOf(p, g.tag));
      && (Original(g, d, p) ==> At(d, Home(p)) == o && (v.Some? ==> v == o && v.value.File?))
      && (Replaced(g, d, p) ==>
        At(d, TempOf(p, g.tag)).None? && v == o && v != At(d, Home(p)) && At(d, Home(p)).Some? &&
        (v.Some? ==> v.value.File?))
  {
    if Replaced(g, d, p) {
      ReplacedIsNew(g, d, p);
    }
    assert At(d0, Home(p)).Some? ==> Home(p) in d0.tree;
  }

  /** What putting several files back comes to. */
  ghost predicate FilesDone(g: Job, d: Disk, e: Disk, fs: seq<MarkedFile>, ops: seq<Op>, calls: seq<Call>) {
    && Span(g, d, e, calls)
    && (forall f :: f in fs ==>
          && BackFile(g, e, f.path) && AddedStays(g, d, e, f.path)
          && (IsNew(g, At(e, Home(f.path))) ==> Keep(Home(f.path)) in ops))
    && (forall l :: OfNone(g, fs, l) ==> At(e, l) == At(d, l))
  }

  ghost predicate OfNone(g: Job, fs: seq<MarkedFile>, l: Loc) {
    forall f :: f in fs ==> !IsHomeOf(l, f.path, g.tag)
  }

  ghost predicate MarksFit(g: Job, fs: seq<MarkedFile>) {
    && (forall f :: f in fs ==> f.path in g.items && f.hadPrev == At(g.orig, Home(f.path)).Some?)
    && (forall i, j :: 0 <= i < j < |fs| ==> fs[i].path != fs[j].path)
  }

  lemma {:induction false} FilesBack(g: Job, d0: Disk, left: seq<Left>, d: Disk, fs: seq<MarkedFile>, torn: Bytes)
    returns (e: Disk, ops: seq<Op>)
    requires ValidJob(g) && Marked(g, d0) && Lists(d0, left) && Marked(g, d) && MarksFit(g, fs)
    requires forall f :: f in fs ==> AsPlanned(g, d0, d, f.path)
    decreases |fs|
    ensures FilesOps(d0, left, g.tag, fs, None) == Ok(ops) && FilesDone(g, d, e, fs, ops, AllCalls(ops, torn))
  {
    hide Marked, Lists, Span, FileDone, FileOps, BackFile;
    if fs == [] {
      SpanNone(g, d);
      return d, [];
    }
    var m, first := FileBack(g, d0, left, d, fs[0], torn);
    StillPlanned(g, d0, d, m, fs, first, AllCalls(first, torn));
    hide FilesDone, AsPlanned;
    var rest;
    e, rest := FilesBack(g, d0, left, m, fs[1..], torn);
    ops := first + rest;
    FirstStays(g, d, m, e, fs, first, rest, torn);
  }

  lemma StillPlanned(g: Job, d0: Disk, d: Disk, m: Disk, fs: seq<MarkedFile>, ops: seq<Op>, calls: seq<Call>)
    requires fs != [] && MarksFit(g, fs) && FileDone(g, d, m, fs[0].path, ops, calls)
    requires forall f :: f in fs ==> AsPlanned(g, d0, d, f.path)
    ensures Marked(g, m) && MarksFit(g, fs[1..]) && forall f :: f in fs[1..] ==> AsPlanned(g, d0, m, f.path)
  {
    hide Marked;
    assert forall f :: f in fs[1..] ==> f in fs;
    forall f | f in fs[1..] ensures f.path != fs[0].path && AsPlanned(g, d0, m, f.path) {
      assert AsPlanned(g, d0, d, f.path);
    }
  }

  /** Settling the other files leaves the first one settled. */
  lemma FirstStays(g: Job, d: Disk, m: Disk, e: Disk, fs: seq<MarkedFile>, first: seq<Op>, rest: seq<Op>, torn: Bytes)
    requires fs != [] && MarksFit(g, fs)
    requires FileDone(g, d, m, fs[0].path, first, AllCalls(first, torn))
    requires FilesDone(g, m, e, fs[1..], rest, AllCalls(rest, torn))
    ensures FilesDone(g, d, e, fs, first + rest, AllCalls(first + rest, torn))
  {
    hide Span, AllCalls, Calls;
    SpanThen(g, d, m, e, AllCalls(first, torn), AllCalls(rest, torn));
    CallsConcat(first, rest, torn);
    var p := fs[0].path;
    forall f | f in fs[1..] ensures f.path != p && f in fs {
    }
    forall l | IsHomeOf(l, p, g.tag) ensures At(e, l) == At(m, l) {
      assert OfNone(g, fs[1..], l);
    }
    forall l | OfNone(g, fs, l) ensures At(e, l) == At(d, l) {
      assert fs[0] in fs && OfNone(g, fs[1..], l);
    }
    hide MarksFit, OfNone;
    forall f | f in fs ensures BackFile(g, e, f.path) && AddedStays(g, d, e, f.path) &&
      (IsNew(g, At(e, Home(f.path))) ==> Keep(Home(f.path)) in first + rest) {
      assert f == fs[0] || f in fs[1..];
    }
  }
}
