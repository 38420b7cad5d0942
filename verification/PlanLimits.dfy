/**
  What a plan may do on any disk at all, whoever wrote the markers on it: the
  volume can be written by others, so nothing is assumed of what they say.
*/
module PlanLimits {
  import opened Wrappers
  import opened Volume
  import opened RestoreState
  import opened Chronicles
  import opened RecoveryPlan
  import opened Runs
  import opened Rollback
  import opened RollbackTheorem

  /** A finish needs each marker to be readable, swapping and of the very backup in the slot, and none but one. */
  ghost predicate MayFinish(d: Disk, left: seq<Left>, slot: Option<Manifest>) {
    && (forall x :: x in left && MarkerTag(x).Some? ==> IsFinishable(d, MarkerTag(x).value, slot))
    && (forall i, j :: 0 <= i < j < |left| ==> MarkerTag(left[i]).None? || MarkerTag(left[j]).None?)
  }

  ghost predicate IsFinishable(d: Disk, tag: string, slot: Option<Manifest>) {
    && MarkerOf(d, tag).Some? && MarkerOf(d, tag).value.phase == Swapping
    && slot == Some(MarkerOf(d, tag).value.manifest)
  }

  lemma {:induction false} MarkersNeed(d: Disk, left: seq<Left>, rest: seq<Left>, slot: Option<Manifest>, seen: bool)
    requires Markers(d, left, rest, true, slot, seen).Ok?
    ensures MayFinish(d, rest, slot) && (seen ==> forall x :: x in rest ==> MarkerTag(x).None?)
    decreases |rest|
  {
    hide MarkerOps, MarkerTag, MarkerOf;
    if rest != [] {
      MarkersNeed(d, left, rest[1..], slot, seen || MarkerTag(rest[0]).Some?);
      assert rest == [rest[0]] + rest[1..];
      assert forall i :: 1 <= i < |rest| ==> rest[i] == rest[1..][i - 1] && rest[i] in rest[1..];
    }
  }

  /** No finish is planned otherwise. */
  lemma FinishNeeds(d: Disk, left: seq<Left>, slot: Option<Manifest>)
    requires Plan(d, left, true, slot).Ok?
    ensures MayFinish(d, left, slot) && forall x :: x in left ==> x.kind.File? || x.kind.Symlink?
  {
    hide Markers, Orphans, Tags;
    MarkersNeed(d, left, left, slot, false);
    assert forall x :: x in left ==> !IsStuck(x);
  }

  /** Under a marker that says anything but `Swapping` only a rollback is planned. */
  lemma OnlyRollbackApplies(g: Job, d: Disk, left: seq<Left>, slot: Option<Manifest>)
    requires ValidJob(g) && Marked(g, d) && Lists(d, left) && PhaseOf(d, g.tag) != Some(Swapping)
    ensures Plan(d, left, true, slot) == Err(OnlyRollback)
  {
    hide ValidJob, Marked, Lists, Plan, MarkerOps;
    LeftoversAreFiles(g, d);
    MarkedThere(g, d);
    PlanIsTheMarkers(g, d, left, MarkerOf(d, g.tag).value, true, slot);
  }

  /** So wherever a restore stopped outside its swap, or any crashed rollbacks after it, a finish is refused. */
  lemma NoFinishOutsideSwap(
    g: Job, run: seq<Disk>, r: Phase, unsynced: bool, crash: nat, left: seq<Left>, slot: Option<Manifest>)
    requires ValidJob(g) && Chronicle(g, run, r, unsynced) && crash < |run| && Lists(run[crash], left)
    requires PhaseOf(run[crash], g.tag).Some? && PhaseOf(run[crash], g.tag) != Some(Swapping)
    ensures Plan(run[crash], left, true, slot) == Err(OnlyRollback)
  {
    hide ValidJob, Good, Lists, Plan, FinishReady, PhaseOf;
    PhasedIsMarked(g, run[crash]);
    OnlyRollbackApplies(g, run[crash], left, slot);
  }

  lemma PhasedIsMarked(g: Job, d: Disk)
    requires Good(g, d) && PhaseOf(d, g.tag).Some?
    ensures Marked(g, d)
  {
  }

  ghost predicate IsListed(left: seq<Left>, l: Loc) {
    exists x :: x in left && x.at == l
  }

  /**
    A step of a plan. It removes only listed names of a restore's own; moves
    only a set-aside file to the name it was set aside from; installs only a
    file of the backup, from a staged copy; removes only directories a marker
    records, in a rollback.
  */
  ghost predicate IsSafeStep(d: Disk, left: seq<Left>, finish: bool, slot: Option<Manifest>, op: Op) {
    match op
    case Remove(l) => !l.name.Live? && IsListed(left, l)
    case Move(dir, from, to) =>
      !finish && from.Prev? && to == Live(from.base) && KindOf(left, Loc(dir, from)).Some? &&
        KindOf(left, Loc(dir, from)).value.File?
    case Install(p, tag, file, owners) =>
      && finish && slot.Some? && file in slot.value.files && file.path == p && IsListed(left, TempOf(p, tag))
      && MarkerOf(d, tag).Some? && owners == MarkerOf(d, tag).value.owners
    case RemoveDir(p) => !finish && exists x :: x in left && Records(d, x, p)
    case Keep(l) => !finish && l.name.Live?
  }

  ghost predicate Records(d: Disk, x: Left, p: RelPath) {
    MarkerTag(x).Some? && MarkerOf(d, MarkerTag(x).value).Some? && p in MarkerOf(d, MarkerTag(x).value).value.created
  }

  lemma {:induction false} KindIsListed(left: seq<Left>, l: Loc)
    ensures KindOf(left, l).Some? ==> IsListed(left, l)
  {
    if left != [] {
      KindIsListed(left[1..], l);
      assert left == [left[0]] + left[1..];
      assert left[0] in left;
    }
  }

  lemma {:induction false} FoundIn(files: seq<Item>, p: RelPath)
    ensures Find(files, p).Some? ==> Find(files, p).value in files && Find(files, p).value.path == p
  {
    if files != [] {
      FoundIn(files[1..], p);
      assert files == [files[0]] + files[1..];
    }
  }

  lemma FileIsSafe(
    d: Disk, left: seq<Left>, tag: string, f: MarkedFile, fin: Option<SwapMarker>, finish: bool,
    slot: Option<Manifest>)
    requires FileOps(d, left, tag, f, fin).Ok? && finish == fin.Some?
    requires fin.Some? ==> MarkerOf(d, tag) == fin && slot == Some(fin.value.manifest)
    ensures forall op :: op in FileOps(d, left, tag, f, fin).value ==> IsSafeStep(d, left, finish, slot, op)
  {
    hide KindOf, Find, IsListed, MarkerOf;
    KindIsListed(left, TempOf(f.path, tag));
    KindIsListed(left, PrevOf(f.path, tag));
    if fin.Some? {
      FoundIn(fin.value.manifest.files, f.path);
    }
  }

  lemma {:induction false} FilesAreSafe(
    d: Disk, left: seq<Left>, tag: string, fs: seq<MarkedFile>, fin: Option<SwapMarker>, finish: bool,
    slot: Option<Manifest>)
    requires FilesOps(d, left, tag, fs, fin).Ok? && finish == fin.Some?
    requires fin.Some? ==> MarkerOf(d, tag) == fin && slot == Some(fin.value.manifest)
    ensures forall op :: op in FilesOps(d, left, tag, fs, fin).value ==> IsSafeStep(d, left, finish, slot, op)
    decreases |fs|
  {
    hide FileOps, IsSafeStep, MarkerOf;
    if fs != [] {
      FileIsSafe(d, left, tag, fs[0], fin, finish, slot);
      FilesAreSafe(d, left, tag, fs[1..], fin, finish, slot);
    }
  }

  lemma {:induction false} StraysAreSafe(
    d: Disk, left: seq<Left>, rest: seq<Left>, tag: string, fs: seq<MarkedFile>, finish: bool,
    slot: Option<Manifest>)
    requires forall x :: x in rest ==> x in left
    ensures forall op :: op in Strays(rest, tag, fs) ==> IsSafeStep(d, left, finish, slot, op)
    decreases |rest|
  {
    if rest != [] {
      assert rest[0] in rest && forall x :: x in rest[1..] ==> x in rest;
      StraysAreSafe(d, left, rest[1..], tag, fs, finish, slot);
    }
  }

  lemma {:induction false} DirsAreSafe(
    d: Disk, left: seq<Left>, created: seq<RelPath>, slot: Option<Manifest>, x: Left)
    requires x in left && forall c :: c in created ==> Records(d, x, c)
    ensures forall op :: op in RemoveDirs(created) ==> IsSafeStep(d, left, false, slot, op)
  {
    hide Records;
    if created != [] {
      assert created[0] in created && forall c :: c in created[1..] ==> c in created;
      DirsAreSafe(d, left, created[1..], slot, x);
    }
  }

  lemma {:induction false} MarkersAreSafe(
    d: Disk, left: seq<Left>, rest: seq<Left>, finish: bool, slot: Option<Manifest>, seen: bool)
    requires (forall x :: x in rest ==> x in left) && Markers(d, left, rest, finish, slot, seen).Ok?
    ensures forall op :: op in Markers(d, left, rest, finish, slot, seen).value ==>
      IsSafeStep(d, left, finish, slot, op)
    decreases |rest|
  {
    hide MarkerOps, IsSafeStep, MarkerTag, MarkerOf;
    if rest != [] {
      var x := rest[0];
      assert x in rest && forall y :: y in rest[1..] ==> y in rest;
      MarkersAreSafe(d, left, rest[1..], finish, slot, seen || MarkerTag(x).Some?);
      if MarkerTag(x).Some? {
        OneMarkerIsSafe(d, left, x, finish, slot, seen);
      }
    }
  }

  lemma OneMarkerIsSafe(d: Disk, left: seq<Left>, x: Left, finish: bool, slot: Option<Manifest>, seen: bool)
    requires x in left && MarkerTag(x).Some? && MarkerOf(d, MarkerTag(x).value).Some?
    requires var m := MarkerOf(d, MarkerTag(x).value).value;
      && Finishing(m, finish, slot, seen).Ok?
      && MarkerOps(d, left, MarkerTag(x).value, m, Finishing(m, finish, slot, seen).value).Ok?
    ensures var m := MarkerOf(d, MarkerTag(x).value).value;
      forall op ::
        op in MarkerOps(d, left, MarkerTag(x).value, m, Finishing(m, finish, slot, seen).value).value ==>
        IsSafeStep(d, left, finish, slot, op)
  {
    hide FilesOps, Strays, RemoveDirs, MarkerOf;
    var tag := MarkerTag(x).value;
    var m := MarkerOf(d, tag).value;
    var fin := Finishing(m, finish, slot, seen).value;
    assert fin == if finish then Some(m) else None;
    FilesAreSafe(d, left, tag, m.files, fin, finish, slot);
    StraysAreSafe(d, left, left, tag, m.files, finish, slot);
    if !finish {
      DirsAreSafe(d, left, m.created, slot, x);
    }
    assert x.at == MarkerLoc(tag) && IsListed(left, MarkerLoc(tag));
  }

  lemma {:induction false} OrphansAreSafe(
    d: Disk, left: seq<Left>, rest: seq<Left>, tags: set<string>, finish: bool, slot: Option<Manifest>)
    requires (forall x :: x in rest ==> x in left) && forall x :: x in left ==> !x.at.name.Live?
    ensures forall op :: op in Orphans(rest, tags) ==> IsSafeStep(d, left, finish, slot, op)
    decreases |rest|
  {
    if rest != [] {
      assert rest[0] in rest && forall x :: x in rest[1..] ==> x in rest;
      OrphansAreSafe(d, left, rest[1..], tags, finish, slot);
    }
  }

  /** Every step of every plan is such a step. */
  lemma PlanIsSafe(d: Disk, left: seq<Left>, finish: bool, slot: Option<Manifest>)
    requires Lists(d, left) && Plan(d, left, finish, slot).Ok?
    ensures forall op :: op in Plan(d, left, finish, slot).value ==> IsSafeStep(d, left, finish, slot, op)
  {
    hide Markers, Orphans, Tags, IsSafeStep;
    MarkersAreSafe(d, left, left, finish, slot, false);
    OrphansAreSafe(d, left, left, Tags(left), finish, slot);
  }

  /** A live name that holds a file keeps one. */
  ghost predicate KeepsLiveFiles(d: Disk, e: Disk) {
    forall l: Loc :: l.name.Live? && At(d, l).Some? && At(d, l).value.File? ==>
      At(e, l).Some? && At(e, l).value.File?
  }

  predicate SparesLive(c: Call) {
    match c
    case Discard(l) => !l.name.Live?
    case Rename(_, from, to) => !from.Live? && to.Live?
    case Create(l) => !l.name.Live?
    case Write(_, _) => true
    case SetMeta(_, _, _) => true
    case Rmdir(_) => true
    case _ => false
  }

  lemma {:induction false} RunSparesLive(d: Disk, calls: seq<Call>, e: Disk)
    requires (forall c :: c in calls ==> SparesLive(c)) && Run(d, calls) == Some(e)
    ensures KeepsLiveFiles(d, e)
    decreases |calls|
  {
    if calls != [] {
      assert calls[0] in calls && forall c :: c in calls[1..] ==> c in calls;
      CallSparesLive(d, calls[0]);
      hide Do;
      RunSparesLive(Do(d, calls[0]).value, calls[1..], e);
    }
  }

  lemma CallSparesLive(d: Disk, c: Call)
    requires SparesLive(c) && Do(d, c).Some?
    ensures KeepsLiveFiles(d, Do(d, c).value)
  {
  }

  lemma {:induction false} StepsSpareLive(
    d: Disk, left: seq<Left>, finish: bool, slot: Option<Manifest>, ops: seq<Op>, torn: Bytes)
    requires forall op :: op in ops ==> IsSafeStep(d, left, finish, slot, op)
    ensures forall c :: c in AllCalls(ops, torn) ==> SparesLive(c)
  {
    if ops != [] {
      assert ops[0] in ops && forall op :: op in ops[1..] ==> op in ops;
      StepsSpareLive(d, left, finish, slot, ops[1..], torn);
    }
  }

  /**
    Whatever the markers say and however far a recovery gets, no path that
    holds a file is left without one: a marker's word alone removes nothing.
  */
  lemma NoLiveFileGoes(d: Disk, left: seq<Left>, finish: bool, slot: Option<Manifest>, torn: Bytes, k: nat, e: Disk)
    requires Lists(d, left) && Plan(d, left, finish, slot).Ok?
    requires k <= |AllCalls(Plan(d, left, finish, slot).value, torn)|
    requires Run(d, AllCalls(Plan(d, left, finish, slot).value, torn)[..k]) == Some(e)
    ensures KeepsLiveFiles(d, e)
  {
    hide Plan, IsSafeStep, SparesLive, KeepsLiveFiles, AllCalls, Run;
    PlanIsSafe(d, left, finish, slot);
    var ops := Plan(d, left, finish, slot).value;
    StepsSpareLive(d, left, finish, slot, ops, torn);
    var calls := AllCalls(ops, torn)[..k];
    assert forall c :: c in calls ==> c in AllCalls(ops, torn);
    RunSparesLive(d, calls, e);
  }
}
