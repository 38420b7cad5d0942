/**
  When a restore makes which call. The calls a restore makes while none fails
  are a function of the manifest and of what the disk held before, so what a
  pattern of faults leaves behind can be told before the restore starts.
*/
module Schedules {
  import opened Wrappers
  import opened Volume
  import opened RestoreState
  import opened DepthSort
  import opened Kernels
  import opened RestoreFrames

  /** A marker update: create, two writes (the first may be torn), fsync, rename, and the fsync of the root. */
  const UPDATE_CALLS: nat := 6

  /** A missing directory: a marker update, the `mkdir`, and its metadata. */
  const DIR_CALLS: nat := UPDATE_CALLS + 2

  /** A staged file: create, two writes, fsync, its metadata, and the last fsync. */
  const FILE_CALLS: nat := 6

  /** Before the set-aside links are dropped: an fsync, the marker's `unlink`, and another fsync. */
  const CLOSE_CALLS: nat := 3

  predicate IsMissing(g: Job, c: RelPath) {
    At(g.orig, Home(c)).None?
  }

  /** How many of the first `i` directories have to be made. */
  function Missing(g: Job, dirs: seq<RelPath>, i: nat): nat
    requires i <= |dirs|
  {
    if i == 0 then 0 else Missing(g, dirs, i - 1) + if IsMissing(g, dirs[i - 1]) then 1 else 0
  }

  /** How many of the first `i` files replace another one. */
  function Originals(g: Job, i: nat): nat
    requires i <= |g.manifest.files|
  {
    if i == 0 then 0 else Originals(g, i - 1) + if IsMissing(g, g.manifest.files[i - 1].path) then 0 else 1
  }

  function Dirs(g: Job): seq<RelPath> {
    ByDepth(g.manifest.dirs)
  }

  /** The call that is made first when the `i`th directory's turn has come, and so on. */
  function DirAt(g: Job, i: nat): nat
    requires i <= |Dirs(g)|
  {
    UPDATE_CALLS + DIR_CALLS * Missing(g, Dirs(g), i)
  }

  function FileAt(g: Job, i: nat): nat {
    DirAt(g, |Dirs(g)|) + FILE_CALLS * i
  }

  function LinkAt(g: Job, i: nat): nat
    requires i <= |g.manifest.files|
  {
    FileAt(g, |g.manifest.files|) + 1 + Originals(g, i)
  }

  function TurnAt(g: Job): nat {
    LinkAt(g, |g.manifest.files|) + 1
  }

  function RenameAt(g: Job, i: nat): nat {
    TurnAt(g) + UPDATE_CALLS + i
  }

  function CloseAt(g: Job): nat {
    RenameAt(g, |g.manifest.files|)
  }

  function DisposeAt(g: Job, i: nat): nat
    requires i <= |g.manifest.files|
  {
    CloseAt(g) + CLOSE_CALLS + Originals(g, i)
  }

  /** A restore that is not obstructed is done exactly when these calls go through. */
  ghost predicate GoesThrough(g: Job, faults: nat -> bool) {
    Quiet(faults, 0, DisposeAt(g, 0)) && !faults(DisposeAt(g, |g.manifest.files|))
  }

  /** From the `j`th on every staged file's original is in place. */
  predicate InPlaceFrom(staged: seq<StagedFile>, j: nat) {
    forall i :: j <= i < |staged| ==> !staged[i].displaced
  }

  lemma OneMoreInPlace(before: seq<StagedFile>, after: seq<StagedFile>, j: nat)
    requires j < |before| == |after| && after == before[j := after[j]]
    ensures InPlaceFrom(after, j) <==> !after[j].displaced && InPlaceFrom(before, j + 1)
  {
    assert forall i :: j < i < |before| ==> after[i] == before[i];
  }

  lemma AllInPlace(staged: seq<StagedFile>)
    ensures InPlaceFrom(staged, 0) <==> forall s :: s in staged ==> !s.displaced
  {
    forall s | InPlaceFrom(staged, 0) && s in staged ensures !s.displaced {
      var i :| 0 <= i < |staged| && staged[i] == s;
    }
    assert forall i :: 0 <= i < |staged| ==> staged[i] in staged;
  }

  /** What undoing one staged file takes: its temp file goes, and the link to an original that is in place. */
  function CallsFor(s: StagedFile): nat {
    if s.aside && !s.displaced then 2 else 1
  }

  function UndoCalls(staged: seq<StagedFile>, i: nat): nat
    requires i <= |staged|
  {
    if i == 0 then 0 else UndoCalls(staged, i - 1) + CallsFor(staged[i - 1])
  }

  /** What is reported of it when it starts with call `n`. */
  function Report(s: StagedFile, tag: string, faults: nat -> bool, n: nat): seq<Problem> {
    (if faults(n) then [NotRemoved(TempOf(s.path, tag))] else [])
    + (if !s.aside then []
       else if s.displaced then [OriginalKept(s.path)]
       else if faults(n + 1) then [NotRemoved(PrevOf(s.path, tag))]
       else [])
  }

  function Reports(staged: seq<StagedFile>, i: nat, tag: string, faults: nat -> bool, n: nat): seq<Problem>
    requires i <= |staged|
  {
    if i == 0 then []
    else Reports(staged, i - 1, tag, faults, n) + Report(staged[i - 1], tag, faults, n + UndoCalls(staged, i - 1))
  }

  lemma OneMoreReport(staged: seq<StagedFile>, i: nat, tag: string, faults: nat -> bool, n: nat)
    requires i < |staged|
    ensures UndoCalls(staged, i + 1) == UndoCalls(staged, i) + CallsFor(staged[i])
    ensures Reports(staged, i + 1, tag, faults, n) ==
      Reports(staged, i, tag, faults, n) + Report(staged[i], tag, faults, n + UndoCalls(staged, i))
  {
    hide Report, CallsFor;
  }

  lemma NoReports(staged: seq<StagedFile>, tag: string, faults: nat -> bool, n: nat)
    ensures UndoCalls(staged, 0) == 0 && Reports(staged, 0, tag, faults, n) == []
  {
  }

  lemma {:induction false} NothingToReport(
    staged: seq<StagedFile>, i: nat, tag: string, faults: nat -> bool, n: nat)
    requires i <= |staged| && CalmFrom(faults, n) && forall s :: s in staged ==> !s.displaced
    ensures Reports(staged, i, tag, faults, n) == []
  {
    if i > 0 {
      NothingToReport(staged, i - 1, tag, faults, n);
    }
  }

  /** The discard of the `i`th file's set-aside original fails. */
  ghost predicate LeavesOriginal(g: Job, faults: nat -> bool, i: nat)
    requires i < |g.manifest.files|
  {
    !IsMissing(g, g.manifest.files[i].path) && faults(DisposeAt(g, i))
  }

  /** The marker update that begins with call `u` fails at a write, its fsync or its rename, and so does the discard. */
  ghost predicate LosesAt(faults: nat -> bool, u: nat, m: nat) {
    u < m <= u + 4 && Quiet(faults, u, m) && faults(m) && faults(m + 1)
  }

  ghost predicate Loses(faults: nat -> bool, u: nat) {
    exists m :: LosesAt(faults, u, m)
  }

  /** The `i`th directory's marker update begins. */
  ghost predicate DirUpdateBegins(g: Job, faults: nat -> bool, i: nat)
    requires i < |Dirs(g)|
  {
    IsMissing(g, Dirs(g)[i]) && (forall j :: 0 <= j < i ==> !NotADir(g, Dirs(g)[j])) && Quiet(faults, 0, DirAt(g, i))
  }

  /** The update to `RollingBack` begins, because the `i`th file's rename failed. */
  ghost predicate BackUpdateBegins(g: Job, slot: map<RelPath, Bytes>, faults: nat -> bool, i: nat) {
    i < |g.manifest.files| && !Obstructed(g, slot) && Quiet(faults, 0, RenameAt(g, i)) && faults(RenameAt(g, i))
  }

  /** A marker update begins with call `u`: the first one, a directory's, the swap's, or a rollback's. */
  ghost predicate UpdateBegins(g: Job, slot: map<RelPath, Bytes>, faults: nat -> bool, u: nat) {
    || u == 0
    || (exists i :: 0 <= i < |Dirs(g)| && u == DirAt(g, i) && DirUpdateBegins(g, faults, i))
    || (u == TurnAt(g) && !Obstructed(g, slot) && Quiet(faults, 0, u))
    || (exists i :: u == RenameAt(g, i) + 1 && BackUpdateBegins(g, slot, faults, i))
  }

  /** The pattern of faults under which a restore leaves a marker update behind. */
  ghost predicate LeavesUpdate(g: Job, slot: map<RelPath, Bytes>, faults: nat -> bool) {
    exists u :: UpdateBegins(g, slot, faults, u) && Loses(faults, u)
  }

  /** An update that went through was not lost. */
  lemma NotLost(faults: nat -> bool, u: nat, n: nat)
    requires u + UPDATE_CALLS <= n && Quiet(faults, u, n)
    ensures !Loses(faults, u) && forall m :: !LosesAt(faults, u, m)
  {
  }

  /** An update whose call `m` is the first to fail is lost if the discard fails too; its last fsync comes too late. */
  lemma UpdateStops(faults: nat -> bool, u: nat, m: nat)
    requires u <= m < u + UPDATE_CALLS && Quiet(faults, u, m) && faults(m)
    ensures !Quiet(faults, u, u + UPDATE_CALLS)
    ensures Loses(faults, u) <==> LosesAt(faults, u, m)
    ensures LosesAt(faults, u, m) <==> u < m <= u + 4 && faults(m + 1)
    ensures forall n :: LosesAt(faults, u, n) ==> n == m
  {
  }

  lemma {:induction false} MissingGrows(g: Job, dirs: seq<RelPath>, i: nat, j: nat)
    requires i <= j <= |dirs|
    ensures Missing(g, dirs, i) <= Missing(g, dirs, j)
    ensures i < j && IsMissing(g, dirs[i]) ==> Missing(g, dirs, i) < Missing(g, dirs, j)
  {
    if i < j {
      MissingGrows(g, dirs, i, j - 1);
    }
  }

  lemma {:induction false} OriginalsGrow(g: Job, i: nat, j: nat)
    requires i <= j <= |g.manifest.files|
    ensures Originals(g, i) <= Originals(g, j)
  {
    if i < j {
      OriginalsGrow(g, i, j - 1);
    }
  }

  /** Each turn ends where the next one begins. */
  lemma NextDir(g: Job, i: nat)
    requires i < |Dirs(g)|
    ensures DirAt(g, i + 1) == DirAt(g, i) + if IsMissing(g, Dirs(g)[i]) then DIR_CALLS else 0
  {
  }

  lemma NextFile(g: Job, i: nat)
    requires i <= |g.manifest.files|
    ensures FileAt(g, i + 1) == FileAt(g, i) + FILE_CALLS
    ensures LinkAt(g, 0) == FileAt(g, |g.manifest.files|) + 1
    ensures i < |g.manifest.files| ==> FileAt(g, i + 1) < LinkAt(g, 0)
  {
  }

  lemma NextLink(g: Job, i: nat)
    requires i < |g.manifest.files|
    ensures LinkAt(g, i + 1) == LinkAt(g, i) + if IsMissing(g, g.manifest.files[i].path) then 0 else 1
    ensures LinkAt(g, i + 1) < TurnAt(g)
  {
    OriginalsGrow(g, i + 1, |g.manifest.files|);
  }

  lemma LinksInOrder(g: Job)
    ensures FileAt(g, 0) == DirAt(g, |Dirs(g)|) && FileAt(g, 0) < LinkAt(g, 0) < TurnAt(g) < RenameAt(g, 0)
  {
  }

  lemma TurnThenRename(g: Job)
    ensures RenameAt(g, 0) == TurnAt(g) + UPDATE_CALLS
  {
  }

  lemma NextRename(g: Job, i: nat)
    ensures RenameAt(g, i + 1) == RenameAt(g, i) + 1 && CloseAt(g) == RenameAt(g, |g.manifest.files|)
  {
  }

  lemma RenamesComeLate(g: Job, i: nat)
    ensures RenameAt(g, i) >= UPDATE_CALLS && (i < |g.manifest.files| ==> RenameAt(g, i) < CloseAt(g))
  {
  }

  lemma CloseFirst(g: Job)
    ensures CloseAt(g) + CLOSE_CALLS == DisposeAt(g, 0)
  {
  }

  lemma LastCalls(g: Job)
    ensures CloseAt(g) < DisposeAt(g, 0) <= DisposeAt(g, |g.manifest.files|)
  {
    OriginalsGrow(g, 0, |g.manifest.files|);
  }

  lemma NextDispose(g: Job, i: nat)
    requires i < |g.manifest.files|
    ensures DisposeAt(g, i + 1) == DisposeAt(g, i) + if IsMissing(g, g.manifest.files[i].path) then 0 else 1
  {
  }

  /** The directories come one after the other. */
  lemma DirsInOrder(g: Job, i: nat, j: nat)
    requires i <= j <= |Dirs(g)|
    ensures DirAt(g, i) <= DirAt(g, j)
    ensures i < j && IsMissing(g, Dirs(g)[i]) ==> DirAt(g, i) + DIR_CALLS <= DirAt(g, j)
  {
    MissingGrows(g, Dirs(g), i, j);
  }

  /** The `i`th directory is as far as the restore gets. */
  ghost predicate StopsAtDir(g: Job, faults: nat -> bool, i: nat) {
    && i < |Dirs(g)| && Quiet(faults, 0, DirAt(g, i)) && (forall j :: 0 <= j < i ==> !NotADir(g, Dirs(g)[j]))
    && if IsMissing(g, Dirs(g)[i]) then !Quiet(faults, 0, DirAt(g, i + 1)) else NotADir(g, Dirs(g)[i])
  }

  /** What fails in the first update decides whether it is left. */
  lemma FirstDecides(g: Job, slot: map<RelPath, Bytes>, faults: nat -> bool)
    requires !Quiet(faults, 0, UPDATE_CALLS)
    ensures LeavesUpdate(g, slot, faults) <==> Loses(faults, 0)
  {
    hide Obstructed, Loses, NotADir, Dirs, Missing, Originals;
    forall u | UpdateBegins(g, slot, faults, u) && Loses(faults, u) ensures u == 0 {
    }
    assert UpdateBegins(g, slot, faults, 0);
  }

  /** Nothing is left of the updates before the `i`th directory's, nor of later ones if none begins. */
  lemma DirsBeforeLost(g: Job, faults: nat -> bool, i: nat, j: nat)
    requires j < i <= |Dirs(g)| && Quiet(faults, 0, DirAt(g, i)) && DirUpdateBegins(g, faults, j)
    ensures !Loses(faults, DirAt(g, j))
  {
    hide Missing, Dirs, Loses;
    DirsInOrder(g, j, i);
    NotLost(faults, DirAt(g, j), DirAt(g, i));
  }

  lemma DirDecides(g: Job, slot: map<RelPath, Bytes>, faults: nat -> bool, i: nat)
    requires ValidJob(g) && StopsAtDir(g, faults, i)
    ensures LeavesUpdate(g, slot, faults) <==> IsMissing(g, Dirs(g)[i]) && Loses(faults, DirAt(g, i))
    ensures Obstructed(g, slot) || !Quiet(faults, 0, RenameAt(g, 0))
    ensures !IsMissing(g, Dirs(g)[i]) ==> Obstructed(g, slot)
  {
    hide ValidJob, Dirs, Obstructed, Loses, NotADir, Missing, Originals, IsMissing, DirAt, Quiet;
    StopsShort(g, slot, faults, i);
    forall u | UpdateBegins(g, slot, faults, u) && Loses(faults, u)
      ensures u == DirAt(g, i) && IsMissing(g, Dirs(g)[i])
    {
      OnlyThatDir(g, slot, faults, i, u);
    }
    if IsMissing(g, Dirs(g)[i]) {
      assert DirUpdateBegins(g, faults, i);
      assert UpdateBegins(g, slot, faults, DirAt(g, i));
    }
  }

  /** Neither the next directory nor the swap is reached. */
  lemma StopsShort(g: Job, slot: map<RelPath, Bytes>, faults: nat -> bool, i: nat)
    requires ValidJob(g) && StopsAtDir(g, faults, i)
    ensures Obstructed(g, slot) || !Quiet(faults, 0, TurnAt(g))
    ensures Obstructed(g, slot) || !Quiet(faults, 0, RenameAt(g, 0))
    ensures !IsMissing(g, Dirs(g)[i]) ==> Obstructed(g, slot)
  {
    hide Dirs, Missing, Originals;
    if NotADir(g, Dirs(g)[i]) {
      DirIsListed(g, i);
    }
    DirsInOrder(g, i + 1, |Dirs(g)|);
  }

  lemma DirIsListed(g: Job, i: nat)
    requires ValidJob(g) && i < |Dirs(g)|
    ensures Dirs(g)[i] in g.dirs
  {
    ParentsFirst(g.manifest.dirs);
    assert Dirs(g)[i] in Dirs(g);
  }

  lemma OnlyThatDir(g: Job, slot: map<RelPath, Bytes>, faults: nat -> bool, i: nat, u: nat)
    requires ValidJob(g) && StopsAtDir(g, faults, i) && UpdateBegins(g, slot, faults, u) && Loses(faults, u)
    ensures u == DirAt(g, i) && IsMissing(g, Dirs(g)[i])
  {
    hide ValidJob, Obstructed, Loses, NotADir, Dirs, Missing, Originals, IsMissing, TurnAt;
    StopsShort(g, slot, faults, i);
    DirsInOrder(g, 0, i);
    NotLost(faults, 0, DirAt(g, i));
    if j :| 0 <= j < |Dirs(g)| && u == DirAt(g, j) && DirUpdateBegins(g, faults, j) {
      if j < i {
        DirsBeforeLost(g, faults, i, j);
      } else if j > i {
        DirsInOrder(g, i + 1, j);
      }
    }
  }

  /** Between the last directory and the swap no marker is written. */
  lemma NoneLost(g: Job, slot: map<RelPath, Bytes>, faults: nat -> bool)
    requires Quiet(faults, 0, DirAt(g, |Dirs(g)|)) && (Obstructed(g, slot) || !Quiet(faults, 0, TurnAt(g)))
    ensures !LeavesUpdate(g, slot, faults)
  {
    hide Obstructed, Loses, NotADir, Dirs, Missing, Originals, IsMissing;
    NotLost(faults, 0, DirAt(g, |Dirs(g)|));
    forall u | UpdateBegins(g, slot, faults, u) ensures !Loses(faults, u) {
      if j :| 0 <= j < |Dirs(g)| && u == DirAt(g, j) && DirUpdateBegins(g, faults, j) {
        DirsBeforeLost(g, faults, |Dirs(g)|, j);
      }
    }
  }

  lemma SwapDecides(g: Job, slot: map<RelPath, Bytes>, faults: nat -> bool)
    requires Quiet(faults, 0, TurnAt(g)) && !Obstructed(g, slot) && !Quiet(faults, 0, RenameAt(g, 0))
    ensures LeavesUpdate(g, slot, faults) <==> Loses(faults, TurnAt(g))
  {
    hide Obstructed, Loses, NotADir, Dirs, Missing, Originals, IsMissing;
    NotLost(faults, 0, DirAt(g, |Dirs(g)|));
    forall u | UpdateBegins(g, slot, faults, u) && Loses(faults, u) ensures u == TurnAt(g) {
      if j :| 0 <= j < |Dirs(g)| && u == DirAt(g, j) && DirUpdateBegins(g, faults, j) {
        DirsBeforeLost(g, faults, |Dirs(g)|, j);
      }
    }
    assert UpdateBegins(g, slot, faults, TurnAt(g));
  }

  lemma BackDecides(g: Job, slot: map<RelPath, Bytes>, faults: nat -> bool, i: nat)
    requires BackUpdateBegins(g, slot, faults, i)
    ensures LeavesUpdate(g, slot, faults) <==> Loses(faults, RenameAt(g, i) + 1)
  {
    hide Obstructed, Loses, NotADir, Dirs, Missing, Originals, IsMissing;
    NotLost(faults, 0, DirAt(g, |Dirs(g)|));
    NotLost(faults, TurnAt(g), RenameAt(g, i));
    forall u | UpdateBegins(g, slot, faults, u) && Loses(faults, u) ensures u == RenameAt(g, i) + 1 {
      if j :| 0 <= j < |Dirs(g)| && u == DirAt(g, j) && DirUpdateBegins(g, faults, j) {
        DirsBeforeLost(g, faults, |Dirs(g)|, j);
      }
    }
    assert UpdateBegins(g, slot, faults, RenameAt(g, i) + 1);
  }

  lemma SwappedLosesNone(g: Job, slot: map<RelPath, Bytes>, faults: nat -> bool)
    requires Quiet(faults, 0, CloseAt(g))
    ensures !LeavesUpdate(g, slot, faults)
  {
    hide Obstructed, Loses, NotADir, Dirs, Missing, Originals, IsMissing;
    NotLost(faults, 0, DirAt(g, |Dirs(g)|));
    NotLost(faults, TurnAt(g), CloseAt(g));
    forall u | UpdateBegins(g, slot, faults, u) ensures !Loses(faults, u) {
      if j :| 0 <= j < |Dirs(g)| && u == DirAt(g, j) && DirUpdateBegins(g, faults, j) {
        DirsBeforeLost(g, faults, |Dirs(g)|, j);
      }
    }
  }
}
