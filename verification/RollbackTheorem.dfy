/**
  The guarantee of a rollback: started from any crash of a restore, cut by
  another crash any number of times, it puts every original back.
*/
module RollbackTheorem {
  import opened Wrappers
  import opened Volume
  import opened RestoreState
  import opened RestoreSteps
  import opened RecoveryPlan
  import opened Runs
  import opened Rollback
  import opened RollbackDirs

  /** What the strays' removal comes to: hidden names of original files are gone. */
  ghost predicate StraysGone(g: Job, d: Disk, e: Disk, left: seq<Left>, fs: seq<MarkedFile>, calls: seq<Call>) {
    && Span(g, d, e, calls)
    && (forall x :: x in left && IsStray(x, g.tag, fs) ==> At(e, x.at).None?)
    && (forall l :: At(e, l) == At(d, l) || (At(e, l).None? && l.name.Temp?) || (At(e, l).None? && l.name.Prev?))
    && (forall l :: !StrayName(g, fs, l) ==> At(e, l) == At(d, l))
  }

  /** The name of a stray: it shadows a manifest file the marker does not list. */
  ghost predicate StrayName(g: Job, fs: seq<MarkedFile>, l: Loc) {
    (l.name.Temp? || l.name.Prev?) && l.name.tag == g.tag && !Listed(fs, Sub(l.dir, l.name.base))
  }

  ghost predicate StraysOriginal(g: Job, d: Disk, left: seq<Left>, fs: seq<MarkedFile>) {
    forall x :: x in left && IsStray(x, g.tag, fs) ==>
      Shadowing(x).value.0 in g.items && Original(g, d, Shadowing(x).value.0) && IsDir(d, x.at.dir)
  }

  lemma {:induction false} StraysGo(g: Job, d: Disk, left: seq<Left>, fs: seq<MarkedFile>, torn: Bytes)
    returns (e: Disk)
    requires ValidJob(g) && Marked(g, d) && StraysOriginal(g, d, left, fs)
    ensures StraysGone(g, d, e, left, fs, AllCalls(Strays(left, g.tag, fs), torn))
    decreases |left|
  {
    hide Marked, Original, Span, StraysOriginal, IsStray, StrayName, ValidJob;
    if left == [] {
      SpanNone(g, d);
      return d;
    }
    hide StraysGone, Strays, AllCalls;
    if IsStray(left[0], g.tag, fs) {
      var m := DropStray(g, d, left, left[0], fs, torn);
      e := StraysGo(g, m, left[1..], fs, torn);
      FirstStrayToo(g, d, m, e, left, fs, torn);
    } else {
      OthersOriginal(g, d, left, fs);
      e := StraysGo(g, d, left[1..], fs, torn);
      FirstIsNone(g, d, e, left, fs, torn);
    }
  }

  lemma FirstStrayToo(g: Job, d: Disk, m: Disk, e: Disk, left: seq<Left>, fs: seq<MarkedFile>, torn: Bytes)
    requires left != [] && IsStray(left[0], g.tag, fs) && StrayName(g, fs, left[0].at)
    requires Span(g, d, m, AllCalls([Remove(left[0].at)], torn)) && OnlyAt(d, m, left[0].at) && At(m, left[0].at).None?
    requires StraysGone(g, m, e, left[1..], fs, AllCalls(Strays(left[1..], g.tag, fs), torn))
    ensures StraysGone(g, d, e, left, fs, AllCalls(Strays(left, g.tag, fs), torn))
  {
    hide Span, IsStray, AllCalls;
    var a, b := [Remove(left[0].at)], Strays(left[1..], g.tag, fs);
    SpanThen(g, d, m, e, AllCalls(a, torn), AllCalls(b, torn));
    CallsConcat(a, b, torn);
    assert Strays(left, g.tag, fs) == a + b;
    assert left == [left[0]] + left[1..];
  }

  lemma FirstIsNone(g: Job, d: Disk, e: Disk, left: seq<Left>, fs: seq<MarkedFile>, torn: Bytes)
    requires left != [] && !IsStray(left[0], g.tag, fs)
    requires StraysGone(g, d, e, left[1..], fs, AllCalls(Strays(left[1..], g.tag, fs), torn))
    ensures StraysGone(g, d, e, left, fs, AllCalls(Strays(left, g.tag, fs), torn))
  {
    hide Span, IsStray, StrayName, AllCalls;
    assert Strays(left, g.tag, fs) == [] + Strays(left[1..], g.tag, fs) == Strays(left[1..], g.tag, fs);
    assert left == [left[0]] + left[1..];
  }

  lemma OthersOriginal(g: Job, d: Disk, left: seq<Left>, fs: seq<MarkedFile>)
    requires left != [] && StraysOriginal(g, d, left, fs)
    ensures StraysOriginal(g, d, left[1..], fs)
  {
    assert forall y :: y in left[1..] ==> y in left;
  }

  lemma DropStray(g: Job, d: Disk, left: seq<Left>, x: Left, fs: seq<MarkedFile>, torn: Bytes) returns (e: Disk)
    requires ValidJob(g) && Marked(g, d) && StraysOriginal(g, d, left, fs) && left != [] && x == left[0] &&
      IsStray(x, g.tag, fs)
    ensures Span(g, d, e, AllCalls([Remove(x.at)], torn)) && OnlyAt(d, e, x.at) && At(e, x.at).None? && Marked(g, e)
    ensures StraysOriginal(g, e, left[1..], fs) && StrayName(g, fs, x.at)
  {
    hide Marked;
    var p := Shadowing(x).value.0;
    assert x in left && (x.at == TempOf(p, g.tag) || x.at == PrevOf(p, g.tag));
    DiscardThere(g, d, p, x.at);
    e := Do(d, Discard(x.at)).value;
    SpanOne(g, d, e, Discard(x.at));
    OneOp(Remove(x.at), torn);
    forall y | y in left[1..] && IsStray(y, g.tag, fs)
      ensures Shadowing(y).value.0 in g.items && Original(g, e, Shadowing(y).value.0) && IsDir(e, y.at.dir)
    {
      assert y in left;
    }
  }

  /** Discarding a hidden name of a file whose original is in place, whether or not it is there. */
  lemma DiscardThere(g: Job, d: Disk, p: RelPath, l: Loc)
    requires ValidJob(g) && Marked(g, d) && p in g.items && Original(g, d, p) && IsDir(d, p.parent)
    requires l == TempOf(p, g.tag) || l == PrevOf(p, g.tag)
    ensures Do(d, Discard(l)).Some?
    ensures var e := Do(d, Discard(l)).value;
      Marked(g, e) && MarkerOf(e, g.tag) == MarkerOf(d, g.tag) && OnlyAt(d, e, l) && At(e, l).None?
    ensures var e := Do(d, Discard(l)).value;
      forall q :: q in g.items && Original(g, d, q) ==> Original(g, e, q)
  {
    hide Marked, Original;
    HiddenRemovable(g, d, p, l);
    var e := Do(d, Discard(l)).value;
    MarkedBody(g, d);
    EntryCall(g, d, Discard(l));
    if l == TempOf(p, g.tag) {
      TempStep(g, d, e, p);
    } else {
      PrevStep(g, d, e, p);
    }
    forall q | q in g.items && Original(g, d, q) ensures Original(g, e, q) {
      OriginalKept(g, d, e, q, l);
    }
  }

  lemma MarkedBody(g: Job, d: Disk)
    requires Marked(g, d)
    ensures Body(g, d)
  {
  }

  lemma HiddenRemovable(g: Job, d: Disk, p: RelPath, l: Loc)
    requires ValidJob(g) && Marked(g, d) && p in g.items && Original(g, d, p) &&
      (l == TempOf(p, g.tag) || l == PrevOf(p, g.tag))
    ensures At(d, l).Some? ==> At(d, l).value.File?
  {
  }

  lemma OriginalKept(g: Job, a: Disk, b: Disk, q: RelPath, l: Loc)
    requires OnlyAt(a, b, l) && At(b, l).None? && !l.name.Live? && Original(g, a, q)
    ensures Original(g, b, q)
  {
  }

  /** What no marker owns is only a marker update or an install's file. */
  ghost predicate OrphansOnly(g: Job, left: seq<Left>, tags: set<string>) {
    forall x :: x in left && !Owned(x, tags) ==> Scratch(g, x.at)
  }

  /** Once the marker is gone the orphans go, and the disk stays rolled back. */
  lemma {:induction false} OrphansGo(g: Job, d: Disk, left: seq<Left>, tags: set<string>, torn: Bytes) returns (e: Disk)
    requires ValidJob(g) && RolledBack(g, d) && OrphansOnly(g, left, tags)
    requires forall x :: x in left && !Owned(x, tags) ==> IsDir(d, x.at.dir)
    ensures Run(d, AllCalls(Orphans(left, tags), torn)) == Some(e) &&
      Keeps(RescuableBy(g), d, AllCalls(Orphans(left, tags), torn))
    ensures RolledBack(g, e)
    ensures forall x :: x in left && !Owned(x, tags) ==> At(e, x.at).None?
    ensures forall l :: At(e, l) == At(d, l) || At(e, l).None?
    ensures forall l: Loc :: l.name.Live? ==> At(e, l) == At(d, l)
    decreases |left|
  {
    hide RolledBack, Marked;
    assert RescuableBy(g)(d);
    if left == [] {
      return d;
    }
    var x := left[0];
    assert x in left;
    assert forall y :: y in left[1..] ==> y in left;
    if Owned(x, tags) {
      e := OrphansGo(g, d, left[1..], tags, torn);
      CallsConcat([], Orphans(left[1..], tags), torn);
      assert [] + Orphans(left[1..], tags) == Orphans(left[1..], tags);
    } else {
      DropOrphan(g, d, x.at);
      var m := Do(d, Discard(x.at)).value;
      e := OrphansGo(g, m, left[1..], tags, torn);
      CallsConcat([Remove(x.at)], Orphans(left[1..], tags), torn);
      OneOp(Remove(x.at), torn);
      var rest := AllCalls(Orphans(left[1..], tags), torn);
      assert ([Discard(x.at)] + rest)[1..] == rest;
    }
    assert forall y :: y in left ==> y == x || y in left[1..];
  }

  lemma DropOrphan(g: Job, d: Disk, l: Loc)
    requires ValidJob(g) && RolledBack(g, d) && Scratch(g, l) && IsDir(d, l.dir)
    ensures Do(d, Discard(l)).Some?
    ensures RolledBack(g, Do(d, Discard(l)).value) && OnlyAt(d, Do(d, Discard(l)).value, l) &&
      At(Do(d, Discard(l)).value, l).None?
  {
    hide WF, ValidJob, Touched, Scratch;
    ScratchApart(g, l);
    assert l.name.Temp? ==> l == InstallOf(Sub(l.dir, l.name.base), g.tag);
    assert NoneOrNew(g, At(d, l));
    EntryCall(g, d, Discard(l));
    BodyStep(g, d, Do(d, Discard(l)).value, l);
    hide Body, Touched, OnlyAt;
  }

  /** All a restore leaves are files, and all of them its own. */
  ghost predicate OwnFilesOnly(g: Job, d: Disk) {
    forall l :: l in d.tree && !l.name.Live? ==> d.tree[l].File? && Touched(g, l)
  }

  lemma LeftoversAreFiles(g: Job, d: Disk)
    requires ValidJob(g) && (Marked(g, d) || RolledBack(g, d))
    ensures OwnFilesOnly(g, d)
  {
    forall l | l in d.tree && !l.name.Live? ensures d.tree[l].File? && Touched(g, l) {
      assert At(g.orig, l).None? && At(d, l).Some?;
      if l.name.Temp? {
        assert l == TempOf(Sub(l.dir, l.name.base), l.name.tag);
      } else if l.name.Prev? {
        assert l == PrevOf(Sub(l.dir, l.name.base), g.tag);
      }
    }
  }

  /** With one marker on disk the plan is that marker's, and then the orphans. */
  lemma {:induction false} MarkersOnce(
      d: Disk, left: seq<Left>, rest: seq<Left>, tag: string, m: SwapMarker, finish: bool, slot: Option<Manifest>,
      seen: bool)
    requires forall x :: x in rest && MarkerTag(x).Some? ==> MarkerTag(x).value == tag
    requires forall i, j :: 0 <= i < j < |rest| ==> rest[i].at != rest[j].at
    requires MarkerOf(d, tag) == Some(m)
    ensures (forall x :: x in rest ==> MarkerTag(x).None?) ==> Markers(d, left, rest, finish, slot, seen) == Ok([])
    ensures (exists x :: x in rest && MarkerTag(x).Some?) && Finishing(m, finish, slot, seen).Ok? ==>
      Markers(d, left, rest, finish, slot, seen) == MarkerOps(d, left, tag, m, Finishing(m, finish, slot, seen).value)
    ensures (exists x :: x in rest && MarkerTag(x).Some?) && Finishing(m, finish, slot, seen).Err? ==>
      Markers(d, left, rest, finish, slot, seen) == Err(Finishing(m, finish, slot, seen).error)
    decreases |rest|
  {
    hide MarkerOps, Finishing;
    if rest != [] {
      var x := rest[0];
      assert forall y :: y in rest ==> y == x || y in rest[1..];
      assert forall y :: y in rest[1..] ==> y in rest && y.at != x.at;
      assert x in rest;
      if MarkerTag(x).None? {
        MarkersOnce(d, left, rest[1..], tag, m, finish, slot, seen);
      } else {
        MarkersOnce(d, left, rest[1..], tag, m, finish, slot, true);
        assert forall y :: y in rest[1..] ==> MarkerTag(y).None?;
        var ops := MarkerOps(d, left, tag, m, if Finishing(m, finish, slot, seen).Ok?
          then Finishing(m, finish, slot, seen).value else None);
        assert ops.Ok? ==> ops.value + [] == ops.value;
      }
    }
  }

  lemma PlanIsTheMarkers(g: Job, d: Disk, left: seq<Left>, m: SwapMarker, finish: bool, slot: Option<Manifest>)
    requires OwnFilesOnly(g, d) && Lists(d, left) && MarkerOf(d, g.tag) == Some(m) && MarkerLoc(g.tag) in d.tree
    ensures Finishing(m, finish, slot, false).Ok? ==>
      var ops := MarkerOps(d, left, g.tag, m, Finishing(m, finish, slot, false).value);
      Plan(d, left, finish, slot) == if ops.Ok? then Ok(ops.value + Orphans(left, {g.tag})) else Err(ops.error)
    ensures Finishing(m, finish, slot, false).Err? ==>
      Plan(d, left, finish, slot) == Err(Finishing(m, finish, slot, false).error)
  {
    hide MarkerOps, Finishing;
    var x := Left(MarkerLoc(g.tag), d.tree[MarkerLoc(g.tag)]);
    assert x in left && MarkerTag(x).Some?;
    forall y | y in left && MarkerTag(y).Some? ensures MarkerTag(y).value == g.tag {
      assert Touched(g, y.at);
    }
    assert Tags(left) == {g.tag};
    MarkersOnce(d, left, left, g.tag, m, finish, slot, false);
    forall y | y in left ensures !IsStuck(y) {
    }
  }

  /** Every file's step is planned and done: nothing of the restore is left in the way of the directories. */
  ghost predicate FilesSettled(g: Job, d: Disk, e: Disk, files: seq<Op>, torn: Bytes) {
    && Span(g, d, e, AllCalls(files, torn))
    && (forall p :: p in g.items ==>
          && BackFile(g, e, p) && AddedStays(g, d, e, p)
          && (IsNew(g, At(e, Home(p))) ==> Keep(Home(p)) in files))
    && (forall l :: Bystander(g, l) ==> At(e, l) == At(d, l))
  }

  /** A name that belongs to no file of the manifest. */
  ghost predicate Bystander(g: Job, l: Loc) {
    (l.name.Live? && Sub(l.dir, l.name.base) !in g.items) || Scratch(g, l)
  }

  lemma SettleFiles(g: Job, d: Disk, left: seq<Left>, torn: Bytes) returns (files: seq<Op>, e: Disk)
    requires ValidJob(g) && Marked(g, d) && Lists(d, left)
    ensures var m := MarkerOf(d, g.tag).value;
      && MarkerOps(d, left, g.tag, m, None) == Ok(files + RemoveDirs(m.created) + [Remove(MarkerLoc(g.tag))])
      && FilesOps(d, left, g.tag, m.files, None).Ok?
      && files == FilesOps(d, left, g.tag, m.files, None).value + Strays(left, g.tag, m.files)
    ensures FilesSettled(g, d, e, files, torn)
  {
    var m := MarkerOf(d, g.tag).value;
    MarksAreFit(g, d);
    hide ValidJob, Marked, Lists, Span, FilesDone, StraysGone, StraysOriginal, BackFile, Strays, FilesOps, MarksFit;
    hide RemoveDirs, AllCalls, FilesSettled;
    var e1, ops := FilesBack(g, d, left, d, m.files, torn);
    DoneSpans(g, d, e1, m.files, ops, AllCalls(ops, torn));
    StraysAreOriginal(g, d, e1, left, ops, torn);
    e := StraysGo(g, e1, left, m.files, torn);
    files := ops + Strays(left, g.tag, m.files);
    AllSettled(g, d, e1, e, left, ops, torn);
  }

  lemma DoneSpans(g: Job, d: Disk, e: Disk, fs: seq<MarkedFile>, ops: seq<Op>, calls: seq<Call>)
    requires FilesDone(g, d, e, fs, ops, calls)
    ensures Marked(g, e)
  {
    hide Marked;
  }

  lemma MarksAreFit(g: Job, d: Disk)
    requires ValidJob(g) && Marked(g, d)
    ensures MarksFit(g, MarkerOf(d, g.tag).value.files)
    ensures MarkerOf(d, g.tag).value.phase != Staging ==> forall p :: p in g.items ==>
      Listed(MarkerOf(d, g.tag).value.files, p)
    ensures MarkerOf(d, g.tag).value.phase == Staging ==> MarkerOf(d, g.tag).value.files == [] && forall p ::
      p in g.items ==> Original(g, d, p)
  {
    hide Body, Original, Replaced;
    var fs := MarkerOf(d, g.tag).value.files;
    if fs != [] {
      forall i | 0 <= i < |fs| ensures fs[i].path in g.items {
        assert g.manifest.files[i] in g.manifest.files;
      }
    }
    if MarkerOf(d, g.tag).value.phase != Staging {
      forall p | p in g.items ensures Listed(fs, p) {
        var i :| 0 <= i < |g.manifest.files| && g.manifest.files[i] == g.items[p];
        assert fs[i] in fs && fs[i].path == p;
      }
    }
  }

  lemma StraysAreOriginal(g: Job, d: Disk, e: Disk, left: seq<Left>, ops: seq<Op>, torn: Bytes)
    requires ValidJob(g) && Marked(g, d) && Lists(d, left) &&
      FilesDone(g, d, e, MarkerOf(d, g.tag).value.files, ops, AllCalls(ops, torn))
    ensures StraysOriginal(g, e, left, MarkerOf(d, g.tag).value.files)
  {
    var fs := MarkerOf(d, g.tag).value.files;
    LeftoversAreFiles(g, d);
    MarksAreFit(g, d);
    MarkedBody(g, d);
    hide Marked, Span, Body;
    forall x | x in left && IsStray(x, g.tag, fs)
      ensures Shadowing(x).value.0 in g.items && Original(g, e, Shadowing(x).value.0) && IsDir(e, x.at.dir)
    {
      assert Touched(g, x.at);
      assert fs == [];
      assert forall l :: OfNone(g, fs, l);
    }
  }

  lemma AllSettled(g: Job, d: Disk, e1: Disk, e: Disk, left: seq<Left>, ops: seq<Op>, torn: Bytes)
    requires ValidJob(g) && Marked(g, d) && Lists(d, left) &&
      FilesDone(g, d, e1, MarkerOf(d, g.tag).value.files, ops, AllCalls(ops, torn))
    requires StraysGone(g, e1, e, left, MarkerOf(d, g.tag).value.files,
      AllCalls(Strays(left, g.tag, MarkerOf(d, g.tag).value.files), torn))
    ensures FilesSettled(g, d, e, ops + Strays(left, g.tag, MarkerOf(d, g.tag).value.files), torn)
  {
    hide *;
    MarkedThere(g, d);
    var fs := MarkerOf(d, g.tag).value.files;
    var calls, more := AllCalls(ops, torn), AllCalls(Strays(left, g.tag, fs), torn);
    MarksAreFit(g, d);
    CallsConcat(ops, Strays(left, g.tag, fs), torn);
    BothSpan(g, d, e1, e, left, fs, ops, calls, more);
    forall p | p in g.items
      ensures BackFile(g, e, p) && AddedStays(g, d, e, p) && (IsNew(g, At(e, Home(p))) ==> Keep(Home(p)) in ops)
    {
      if Listed(fs, p) {
        ListedSettled(g, d, e1, e, left, fs, ops, calls, more, p);
      } else {
        UnlistedSettled(g, d, e1, e, left, ops, torn, p);
      }
    }
    forall l | Bystander(g, l) ensures At(e, l) == At(d, l) {
      BystanderStays(g, d, e1, e, left, fs, ops, calls, more, l);
    }
    SettledBy(g, d, e, ops, Strays(left, g.tag, fs), torn);
  }

  lemma SettledBy(g: Job, d: Disk, e: Disk, ops: seq<Op>, strays: seq<Op>, torn: Bytes)
    requires Span(g, d, e, AllCalls(ops + strays, torn))
    requires forall p :: p in g.items ==>
      BackFile(g, e, p) && AddedStays(g, d, e, p) && (IsNew(g, At(e, Home(p))) ==> Keep(Home(p)) in ops)
    requires forall l :: Bystander(g, l) ==> At(e, l) == At(d, l)
    ensures FilesSettled(g, d, e, ops + strays, torn)
  {
    hide Span, BackFile, AddedStays, IsNew, Bystander, AllCalls;
  }

  lemma BothSpan(
    g: Job, d: Disk, e1: Disk, e: Disk, left: seq<Left>, fs: seq<MarkedFile>, ops: seq<Op>, calls: seq<Call>,
      more: seq<Call>)
    requires FilesDone(g, d, e1, fs, ops, calls) && StraysGone(g, e1, e, left, fs, more)
    ensures Span(g, d, e, calls + more)
  {
    hide Span, BackFile, IsNew, OfNone;
    SpanThen(g, d, e1, e, calls, more);
  }

  lemma BystanderStays(
    g: Job, d: Disk, e1: Disk, e: Disk, left: seq<Left>, fs: seq<MarkedFile>, ops: seq<Op>, calls: seq<Call>,
      more: seq<Call>, l: Loc)
    requires FilesDone(g, d, e1, fs, ops, calls) && StraysGone(g, e1, e, left, fs, more)
    requires MarksFit(g, fs) && Bystander(g, l)
    ensures At(e, l) == At(d, l)
  {
    hide Span, BackFile;
    if Scratch(g, l) {
      ScratchApart(g, l);
      assert |InstallTag(g.tag)| > |g.tag|;
    }
    assert OfNone(g, fs, l) && !StrayName(g, fs, l);
  }

  lemma ListedSettled(
    g: Job, d: Disk, e1: Disk, e: Disk, left: seq<Left>, fs: seq<MarkedFile>, ops: seq<Op>, calls: seq<Call>,
      more: seq<Call>, p: RelPath)
    requires FilesDone(g, d, e1, fs, ops, calls) && StraysGone(g, e1, e, left, fs, more) && Listed(fs, p)
    ensures BackFile(g, e, p) && AddedStays(g, d, e, p) && (IsNew(g, At(e, Home(p))) ==> Keep(Home(p)) in ops)
  {
    hide Span, OfNone;
    assert !StrayName(g, fs, Home(p)) && !StrayName(g, fs, TempOf(p, g.tag)) && !StrayName(g, fs, PrevOf(p, g.tag));
  }

  lemma UnlistedSettled(g: Job, d: Disk, e1: Disk, e: Disk, left: seq<Left>, ops: seq<Op>, torn: Bytes, p: RelPath)
    requires ValidJob(g) && Marked(g, d) && Lists(d, left) &&
      FilesDone(g, d, e1, MarkerOf(d, g.tag).value.files, ops, AllCalls(ops, torn))
    requires StraysGone(g, e1, e, left, MarkerOf(d, g.tag).value.files,
      AllCalls(Strays(left, g.tag, MarkerOf(d, g.tag).value.files), torn))
    requires p in g.items && !Listed(MarkerOf(d, g.tag).value.files, p)
    ensures BackFile(g, e, p) && AddedStays(g, d, e, p) && !IsNew(g, At(e, Home(p)))
  {
    hide Marked, Span, BackFile, AddedStays, IsNew, ValidJob, MarksFit, Lists, Original;
    MarksAreFit(g, d);
    assert forall l :: OfNone(g, [], l);
    StagingSettled(g, d, e1, e, left, p);
  }

  lemma StagingSettled(g: Job, d: Disk, e1: Disk, e: Disk, left: seq<Left>, p: RelPath)
    requires ValidJob(g) && Lists(d, left) && Original(g, d, p) && (forall l :: At(e1, l) == At(d, l))
    requires forall x :: x in left && IsStray(x, g.tag, []) ==> At(e, x.at).None?
    requires forall l :: At(e, l) == At(e1, l) || (At(e, l).None? && l.name.Temp?) || (At(e, l).None? && l.name.Prev?)
    ensures BackFile(g, e, p) && AddedStays(g, d, e, p) && !IsNew(g, At(e, Home(p)))
  {
    OriginalIsOld(g, d, p);
    var t, v := TempOf(p, g.tag), PrevOf(p, g.tag);
    if At(d, t).Some? {
      assert Left(t, d.tree[t]) in left && IsStray(Left(t, d.tree[t]), g.tag, []);
    }
    if At(d, v).Some? {
      assert Left(v, d.tree[v]) in left && IsStray(Left(v, d.tree[v]), g.tag, []);
    }
  }

  /** The marker goes last: by then nothing else of the restore is left. */
  lemma MarkerStepGoes(g: Job, d: Disk, back: Disk, files: seq<Op>, torn: Bytes, r: Disk)
    requires ValidJob(g) && Marked(g, d) && FilesSettled(g, d, back, files, torn)
    requires Marked(g, r) && MarkerOf(r, g.tag) == MarkerOf(back, g.tag) &&
      WithoutDirs(back, r, MarkerOf(d, g.tag).value.created)
    ensures Do(r, Discard(MarkerLoc(g.tag))).Some?
    ensures var e := Do(r, Discard(MarkerLoc(g.tag))).value;
      RolledBack(g, e) && forall l :: Scratch(g, l) ==> At(e, l) == At(d, l)
  {
    hide *;
    MarkerDropped(g, r);
    var e := Do(r, Discard(MarkerLoc(g.tag))).value;
    forall p | p in g.items ensures BackFile(g, e, p) {
      FileThere(g, d, back, files, torn, r, e, p);
    }
    forall c | c in g.dirs ensures At(e, Home(c)) == At(g.orig, Home(c)) {
      DirBack(g, d, back, r, files, torn, c);
      NotTheMarker(r, e, g.tag, c);
    }
    forall l | Scratch(g, l) ensures At(e, l) == At(d, l) {
      ScratchKept(g, d, back, files, torn, r, e, l);
    }
    IsRolledBack(g, e);
  }

  lemma NotTheMarker(d: Disk, e: Disk, tag: string, c: RelPath)
    requires OnlyAt(d, e, MarkerLoc(tag))
    ensures At(e, Home(c)) == At(d, Home(c))
  {
  }

  lemma IsRolledBack(g: Job, d: Disk)
    requires Body(g, d) && At(d, MarkerLoc(g.tag)).None? && (forall p :: p in g.items ==> BackFile(g, d, p))
    requires forall c :: c in g.dirs ==> At(d, Home(c)) == At(g.orig, Home(c))
    ensures RolledBack(g, d)
  {
    hide Body, BackFile;
  }

  /** Neither the file steps nor the directory steps touch scratch names. */
  lemma ScratchKept(g: Job, d: Disk, back: Disk, files: seq<Op>, torn: Bytes, r: Disk, e: Disk, l: Loc)
    requires FilesSettled(g, d, back, files, torn) && Scratch(g, l)
    requires WithoutDirs(back, r, MarkerOf(d, g.tag).value.created) && OnlyAt(r, e, MarkerLoc(g.tag))
    ensures At(e, l) == At(d, l)
  {
    hide Span, BackFile;
    ScratchApart(g, l);
    assert Bystander(g, l);
  }

  lemma MarkerDropped(g: Job, r: Disk)
    requires ValidJob(g) && Marked(g, r)
    ensures Do(r, Discard(MarkerLoc(g.tag))).Some?
    ensures var e := Do(r, Discard(MarkerLoc(g.tag))).value;
      Body(g, e) && At(e, MarkerLoc(g.tag)).None? && OnlyAt(r, e, MarkerLoc(g.tag))
  {
    hide Fits;
    EntryCall(g, r, Discard(MarkerLoc(g.tag)));
    BodyStep(g, r, Do(r, Discard(MarkerLoc(g.tag))).value, MarkerLoc(g.tag));
  }

  lemma FileThere(g: Job, d: Disk, back: Disk, files: seq<Op>, torn: Bytes, r: Disk, e: Disk, p: RelPath)
    requires ValidJob(g) && Marked(g, d) && FilesSettled(g, d, back, files, torn) && p in g.items
    requires WithoutDirs(back, r, MarkerOf(d, g.tag).value.created) && OnlyAt(r, e, MarkerLoc(g.tag))
    ensures BackFile(g, e, p)
  {
    hide Marked, Span, ValidJob;
    FileNotDir(g, d, p);
    assert BackFile(g, back, p);
  }

  lemma SettledSpan(g: Job, d: Disk, e: Disk, files: seq<Op>, torn: Bytes)
    requires FilesSettled(g, d, e, files, torn)
    ensures Marked(g, e) && MarkerOf(e, g.tag) == MarkerOf(d, g.tag) && Run(d, AllCalls(files, torn)) == Some(e)
    ensures Keeps(RescuableBy(g), d, AllCalls(files, torn))
  {
  }

  lemma FileNotDir(g: Job, d: Disk, p: RelPath)
    requires ValidJob(g) && Marked(g, d) && p in g.items
    ensures p !in MarkerOf(d, g.tag).value.created
  {
  }

  lemma DirBack(g: Job, d: Disk, back: Disk, r: Disk, files: seq<Op>, torn: Bytes, c: RelPath)
    requires ValidJob(g) && Marked(g, d) && FilesSettled(g, d, back, files, torn) && c in g.dirs
    requires WithoutDirs(back, r, MarkerOf(d, g.tag).value.created)
    ensures At(r, Home(c)) == At(g.orig, Home(c))
  {
    hide Span, BackFile, Body;
    assert Bystander(g, Home(c));
    var created := MarkerOf(d, g.tag).value.created;
    if c in created {
      var i :| 0 <= i < |created| && created[i] == c;
    }
  }

  lemma BackRemovable(g: Job, d: Disk, back: Disk, files: seq<Op>, torn: Bytes)
    requires ValidJob(g) && Marked(g, d) && FilesSettled(g, d, back, files, torn)
    ensures Removable(g, back, MarkerOf(d, g.tag).value.created)
  {
    hide Body, Undoable;
    SettledSpan(g, d, back, files, torn);
  }

  /** What no marker owns after a crash, and where it is. */
  lemma OrphansAreScratch(g: Job, d: Disk, left: seq<Left>)
    requires ValidJob(g) && Marked(g, d) && Lists(d, left)
    ensures OrphansOnly(g, left, {g.tag})
  {
    hide Marked;
    LeftoversAreFiles(g, d);
    forall x | x in left && !Owned(x, {g.tag}) ensures Scratch(g, x.at) {
      assert Touched(g, x.at);
    }
  }

  /** No leftover name is on the disk, so the next restore is not refused. */
  ghost predicate Tidied(d: Disk) {
    forall l :: l in d.tree ==> l.name.Live?
  }

  /** A rolled back disk with no scratch name on it has no leftovers. */
  lemma ScratchIsHidden(g: Job, l: Loc)
    requires Scratch(g, l)
    ensures !l.name.Live?
  {
  }

  lemma ScratchIsApart(g: Job, d: Disk, l: Loc)
    requires Scratch(g, l) && l in d.tree
    ensures !Owned(Left(l, d.tree[l]), {g.tag})
  {
    assert |InstallTag(g.tag)| > |g.tag|;
  }

  lemma NothingLeft(g: Job, d: Disk, e: Disk, end: Disk, left: seq<Left>)
    requires ValidJob(g) && Lists(d, left) && RolledBack(g, end)
    requires forall l :: Scratch(g, l) ==> At(e, l) == At(d, l)
    requires forall l :: At(end, l) == At(e, l) || At(end, l).None?
    requires forall x :: x in left && !Owned(x, {g.tag}) ==> At(end, x.at).None?
    ensures Tidied(end)
  {
    hide Body, RolledBack, Scratch, Owned, ValidJob;
    LeftIsScratch(g, end);
    forall l | Scratch(g, l) ensures At(end, l).None? {
      if At(d, l).Some? {
        var x := Left(l, d.tree[l]);
        ScratchApart(g, l);
        ScratchIsApart(g, d, l);
        ScratchIsHidden(g, l);
        assert x in left;
      }
    }
  }

  lemma LeftIsScratch(g: Job, d: Disk)
    requires ValidJob(g) && RolledBack(g, d)
    ensures forall l :: l in d.tree && !l.name.Live? ==> Scratch(g, l)
  {
    hide Body;
    LeftoversAreFiles(g, d);
    forall l | l in d.tree && !l.name.Live? ensures Scratch(g, l) {
      assert Touched(g, l);
      assert l.name.Temp? || l.name.Prev? ==> BackFile(g, d, Sub(l.dir, l.name.base));
    }
  }

  /** After the file steps: the rest goes through exactly when the created directories hold nothing else. */
  lemma TailGoes(g: Job, d: Disk, left: seq<Left>, back: Disk, files: seq<Op>, torn: Bytes)
    requires ValidJob(g) && Marked(g, d) && Lists(d, left) && FilesSettled(g, d, back, files, torn)
    ensures var created := MarkerOf(d, g.tag).value.created;
      var calls := AllCalls(RemoveDirs(created), torn) + [Discard(MarkerLoc(g.tag))] +
        AllCalls(Orphans(left, {g.tag}), torn);
      && Keeps(RescuableBy(g), back, calls)
      && (Run(back, calls).Some? <==> DirsClear(back, created))
      && (Run(back, calls).Some? ==> RolledBack(g, Run(back, calls).value) && Tidied(Run(back, calls).value))
  {
    hide *;
    MarkedThere(g, d);
    var created := MarkerOf(d, g.tag).value.created;
    var dirs, last, rest := AllCalls(RemoveDirs(created), torn), [Discard(MarkerLoc(g.tag))],
      AllCalls(Orphans(left, {g.tag}), torn);
    SettledSpan(g, d, back, files, torn);
    BackRemovable(g, d, back, files, torn);
    DirsGo(g, back, created, torn);
    OrphansAreScratch(g, d, left);
    if Run(back, dirs).Some? {
      LastGoes(g, d, left, back, files, torn, Run(back, dirs).value);
    }
    KeepsConcat(RescuableBy(g), back, dirs, last + rest);
    RunConcat(back, dirs, last + rest);
    assert dirs + last + rest == dirs + (last + rest);
  }

  lemma LastGoes(g: Job, d: Disk, left: seq<Left>, back: Disk, files: seq<Op>, torn: Bytes, r: Disk)
    requires ValidJob(g) && Marked(g, d) && Lists(d, left) && FilesSettled(g, d, back, files, torn) &&
      OrphansOnly(g, left, {g.tag})
    requires Marked(g, r) && MarkerOf(r, g.tag) == MarkerOf(back, g.tag) &&
      WithoutDirs(back, r, MarkerOf(d, g.tag).value.created)
    ensures var calls := [Discard(MarkerLoc(g.tag))] + AllCalls(Orphans(left, {g.tag}), torn);
      && Keeps(RescuableBy(g), r, calls) && Run(r, calls).Some?
      && RolledBack(g, Run(r, calls).value) && Tidied(Run(r, calls).value)
  {
    hide Marked, FilesSettled, WithoutDirs, RolledBack, Tidied, Lists, OrphansOnly, Orphans, AllCalls, ValidJob;
    hide Scratch;
    MarkerStepGoes(g, d, back, files, torn, r);
    var last, rest := [Discard(MarkerLoc(g.tag))], AllCalls(Orphans(left, {g.tag}), torn);
    OneCall(r, last[0]);
    var e := Do(r, last[0]).value;
    OrphansOpen(g, d, e, left);
    var end := OrphansGo(g, e, left, {g.tag}, torn);
    NothingLeft(g, d, e, end, left);
    assert RescuableBy(g)(r) && RescuableBy(g)(e);
    assert last[1..] == [];
    assert Keeps(RescuableBy(g), e, last[1..]);
    KeepsConcat(RescuableBy(g), r, last, rest);
    RunConcat(r, last, rest);
  }

  lemma OrphansOpen(g: Job, d: Disk, e: Disk, left: seq<Left>)
    requires Lists(d, left) && OrphansOnly(g, left, {g.tag}) && RolledBack(g, e)
    requires forall l :: Scratch(g, l) ==> At(e, l) == At(d, l)
    ensures forall x :: x in left && !Owned(x, {g.tag}) ==> IsDir(e, x.at.dir)
  {
    forall x | x in left && !Owned(x, {g.tag}) ensures IsDir(e, x.at.dir) {
      assert At(e, x.at) == At(d, x.at) && x.at in d.tree;
      assert x.at in e.tree;
    }
  }

  /**
    What a rollback needs of the directories the restore made, as a caller can
    see it beforehand: none has lost its parent, and all they hold is each
    other and the hidden names of the manifest's files.
  */
  ghost predicate Clearable(g: Job, d: Disk, created: seq<RelPath>) {
    && (forall c :: c in created ==> IsDir(d, c.parent))
    && (forall l :: l in d.tree && l.dir.Sub? && l.dir in created ==>
          (l.name.Live? && Sub(l.dir, l.name.base) in created) || HidesFile(g, l))
  }

  /** A temp file or a set-aside link with the restore's tag. */
  ghost predicate HidesFile(g: Job, l: Loc) {
    (l.name.Temp? || l.name.Prev?) && l.name.tag == g.tag
  }

  lemma ClearIff(g: Job, d: Disk, back: Disk, files: seq<Op>, torn: Bytes)
    requires ValidJob(g) && Marked(g, d) && FilesSettled(g, d, back, files, torn)
    ensures var created := MarkerOf(d, g.tag).value.created;
      DirsClear(back, created) <==> Clearable(g, d, created)
  {
    SettledSpan(g, d, back, files, torn);
    MarkedBody(g, d);
    MarkedBody(g, back);
    CreatedAreDirs(g, d);
    hide Marked, Span, AllCalls, ValidManifest;
    var created := MarkerOf(d, g.tag).value.created;
    forall c | c in created ensures IsDir(back, c.parent) == IsDir(d, c.parent) {
      if c.parent.Sub? {
        var q: RelPath := c.parent;
        assert Bystander(g, Home(q));
      }
    }
    forall l: Loc | l.dir.Sub? && l.dir in created
      ensures At(back, l) == if HidesFile(g, l) then None else At(d, l)
    {
      InCreated(g, d, back, files, torn, l);
    }
    assert forall l :: l in back.tree <==> At(back, l).Some?;
    assert forall l :: l in d.tree <==> At(d, l).Some?;
  }

  lemma CreatedAreDirs(g: Job, d: Disk)
    requires ValidJob(g) && Marked(g, d)
    ensures forall c :: c in MarkerOf(d, g.tag).value.created ==>
      c in g.dirs && At(g.orig, Home(c)).None? && (c.parent.Sub? ==> c.parent !in g.items)
  {
    hide Body, Undoable;
    forall c | c in MarkerOf(d, g.tag).value.created ensures c in g.dirs && At(g.orig, Home(c)).None? {
      var created := MarkerOf(d, g.tag).value.created;
      var i :| 0 <= i < |created| && created[i] == c;
    }
  }

  /** The file steps leave in a created directory just what is not a hidden name. */
  lemma InCreated(g: Job, d: Disk, back: Disk, files: seq<Op>, torn: Bytes, l: Loc)
    requires ValidJob(g) && Body(g, d) && Body(g, back) && FilesSettled(g, d, back, files, torn)
    requires l.dir.Sub? && l.dir in g.dirs && At(g.orig, Home(l.dir)).None?
    ensures At(back, l) == if HidesFile(g, l) then None else At(d, l)
  {
    hide Span, AllCalls, ValidManifest;
    assert At(g.orig, l).None? by {
      assert l in g.orig.tree ==> IsDir(g.orig, l.dir);
    }
    if !Touched(g, l) {
      assert At(d, l) == At(g.orig, l) && At(back, l) == At(g.orig, l);
    } else if !Bystander(g, l) {
      var p := Sub(l.dir, l.name.base);
      assert p in g.items && BackFile(g, back, p) && AddedStays(g, d, back, p);
    }
  }

  /**
    Rolling back, from any crash under a marker. The plan's file steps all
    succeed and put every path back on its original inode; where there was no
    file they leave the one the restore added and name it in a `Keep`; nothing
    else changes. A crash anywhere leaves a disk this theorem applies to
    again. All the steps succeed exactly when the directories the restore made
    can be cleared, and then no leftover remains.
  */
  lemma RollbackRestores(g: Job, d: Disk, left: seq<Left>, slot: Option<Manifest>, torn: Bytes)
    returns (files: seq<Op>, ops: seq<Op>, back: Disk)
    requires ValidJob(g) && Marked(g, d) && Lists(d, left)
    ensures Plan(d, left, false, slot) == Ok(ops) && files <= ops
    ensures Run(d, AllCalls(files, torn)) == Some(back)
    ensures forall p :: p in g.items ==>
      && At(back, TempOf(p, g.tag)).None? && At(back, PrevOf(p, g.tag)).None?
      && (At(g.orig, Home(p)).Some? ==> At(back, Home(p)) == At(g.orig, Home(p)))
      && (At(g.orig, Home(p)).None? && At(back, Home(p)).Some? ==>
        IsNew(g, At(back, Home(p))) && Keep(Home(p)) in files)
    ensures forall l: Loc :: l.name.Live? && Sub(l.dir, l.name.base) !in g.items ==> At(back, l) == At(d, l)
    ensures Keeps(RescuableBy(g), d, AllCalls(ops, torn))
    ensures var end := Run(d, AllCalls(ops, torn));
      && (end.Some? <==> Clearable(g, d, MarkerOf(d, g.tag).value.created))
      && (end.Some? ==> RolledBack(g, end.value) && Tidied(end.value))
  {
    files, back := RollbackPlan(g, d, left, slot, torn);
    var m := MarkerOf(d, g.tag).value;
    ops := files + RemoveDirs(m.created) + [Remove(MarkerLoc(g.tag))] + Orphans(left, {g.tag});
    SettledSpan(g, d, back, files, torn);
    TailGoes(g, d, left, back, files, torn);
    ClearIff(g, d, back, files, torn);
    hide *;
    AllInOrder(g, files, m.created, left, torn);
    var tail := AllCalls(RemoveDirs(m.created), torn) + [Discard(MarkerLoc(g.tag))] +
      AllCalls(Orphans(left, {g.tag}), torn);
    RunConcat(d, AllCalls(files, torn), tail);
    KeepsConcat(RescuableBy(g), d, AllCalls(files, torn), tail);
    SettledBack(g, d, back, files, torn);
  }

  lemma AllInOrder(g: Job, files: seq<Op>, created: seq<RelPath>, left: seq<Left>, torn: Bytes)
    ensures AllCalls(files + RemoveDirs(created) + [Remove(MarkerLoc(g.tag))] + Orphans(left, {g.tag}), torn) ==
      AllCalls(files, torn) +
        (AllCalls(RemoveDirs(created), torn) + [Discard(MarkerLoc(g.tag))] + AllCalls(Orphans(left, {g.tag}), torn))
  {
    var dirs, last, rest := RemoveDirs(created), [Remove(MarkerLoc(g.tag))], Orphans(left, {g.tag});
    hide AllCalls, RemoveDirs, Orphans;
    CallsConcat(files + dirs + last, rest, torn);
    CallsConcat(files + dirs, last, torn);
    CallsConcat(files, dirs, torn);
    OneOp(last[0], torn);
  }

  lemma RollbackPlan(g: Job, d: Disk, left: seq<Left>, slot: Option<Manifest>, torn: Bytes)
    returns (files: seq<Op>, back: Disk)
    requires ValidJob(g) && Marked(g, d) && Lists(d, left)
    ensures Plan(d, left, false, slot) ==
      Ok(files + RemoveDirs(MarkerOf(d, g.tag).value.created) + [Remove(MarkerLoc(g.tag))] + Orphans(left, {g.tag}))
    ensures var m := MarkerOf(d, g.tag).value;
      && FilesOps(d, left, g.tag, m.files, None).Ok?
      && files == FilesOps(d, left, g.tag, m.files, None).value + Strays(left, g.tag, m.files)
    ensures FilesSettled(g, d, back, files, torn)
  {
    hide Marked, FilesSettled, ValidJob, OwnFilesOnly, Lists, MarkerOps, Plan, RemoveDirs, Orphans;
    LeftoversAreFiles(g, d);
    MarkedThere(g, d);
    PlanIsTheMarkers(g, d, left, MarkerOf(d, g.tag).value, false, slot);
    files, back := SettleFiles(g, d, left, torn);
  }

  lemma MarkedThere(g: Job, d: Disk)
    requires Marked(g, d)
    ensures MarkerLoc(g.tag) in d.tree && MarkerOf(d, g.tag).Some?
  {
  }

  lemma SettledBack(g: Job, d: Disk, back: Disk, files: seq<Op>, torn: Bytes)
    requires FilesSettled(g, d, back, files, torn)
    ensures forall p :: p in g.items ==>
      && At(back, TempOf(p, g.tag)).None? && At(back, PrevOf(p, g.tag)).None?
      && (At(g.orig, Home(p)).Some? ==> At(back, Home(p)) == At(g.orig, Home(p)))
      && (At(g.orig, Home(p)).None? && At(back, Home(p)).Some? ==>
        IsNew(g, At(back, Home(p))) && Keep(Home(p)) in files)
    ensures forall l: Loc :: l.name.Live? && Sub(l.dir, l.name.base) !in g.items ==> At(back, l) == At(d, l)
  {
    hide Span;
    forall l: Loc | l.name.Live? && Sub(l.dir, l.name.base) !in g.items ensures At(back, l) == At(d, l) {
      assert Bystander(g, l);
    }
  }
}
