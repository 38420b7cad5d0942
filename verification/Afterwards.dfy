/**
  After the marker of a restore that went through is gone: recovery, asked to
  roll back or to finish, only clears what is left over.
*/
module Afterwards {
  import opened Wrappers
  import opened Volume
  import opened RestoreState
  import opened RestoreSteps
  import opened RecoveryPlan
  import opened Runs
  import opened Rollback
  import opened RollbackTheorem

  lemma {:induction false} NoMarkers(
      d: Disk, left: seq<Left>, rest: seq<Left>, finish: bool, slot: Option<Manifest>, seen: bool)
    requires forall x :: x in rest ==> MarkerTag(x).None?
    ensures Markers(d, left, rest, finish, slot, seen) == Ok([])
    decreases |rest|
  {
    if rest != [] {
      NoMarkers(d, left, rest[1..], finish, slot, seen);
    }
  }

  /** Without a marker every leftover is an orphan. */
  lemma OnlyOrphans(g: Job, d: Disk, left: seq<Left>, finish: bool, slot: Option<Manifest>)
    requires OwnFilesOnly(g, d) && Lists(d, left) && At(d, MarkerLoc(g.tag)).None?
    ensures Plan(d, left, finish, slot) == Ok(Orphans(left, {})) && forall x :: x in left ==> !Owned(x, {})
  {
    forall x | x in left ensures MarkerTag(x).None? && !IsStuck(x) {
      assert Touched(g, x.at);
    }
    NoMarkers(d, left, left, finish, slot, false);
    assert Tags(left) == {};
    assert [] + Orphans(left, {}) == Orphans(left, {});
  }

  /** The marker is gone, no temp file is left, and the files in `held` are what the manifest says. */
  ghost predicate Over(g: Job, held: set<RelPath>, d: Disk) {
    && Body(g, d) && At(d, MarkerLoc(g.tag)).None?
    && (forall p :: p in g.items ==> At(d, TempOf(p, g.tag)).None? && Disposable(g, d, p))
    && (forall p :: p in held ==> p in g.items && Holds(d, Home(p), g.items[p], g.owners))
    && (forall c :: c in g.dirs ==> At(d, Home(c)) == Some(Dir))
  }

  /** The set-aside link, if there is one, holds the original file. */
  ghost predicate Disposable(g: Job, d: Disk, p: RelPath) {
    At(d, PrevOf(p, g.tag)).Some? ==>
      At(d, PrevOf(p, g.tag)) == At(g.orig, Home(p)) && At(d, PrevOf(p, g.tag)).value.File?
  }

  ghost function OverBy(g: Job, held: set<RelPath>): Disk -> bool {
    d => Over(g, held, d)
  }

  /** Live files are the same inodes with the same contents. */
  ghost predicate LiveSame(d: Disk, e: Disk) {
    forall l: Loc :: l.name.Live? ==> At(e, l) == At(d, l) && InodeAt(e, l) == InodeAt(d, l)
  }

  /** A name a finished restore no longer needs. */
  ghost predicate Spent(g: Job, l: Loc) {
    Scratch(g, l) || (l.name.Prev? && l.name.tag == g.tag && Sub(l.dir, l.name.base) in g.items)
  }

  lemma OverLeftovers(g: Job, held: set<RelPath>, d: Disk)
    requires ValidJob(g) && Over(g, held, d)
    ensures OwnFilesOnly(g, d) && forall l :: l in d.tree && !l.name.Live? ==> Spent(g, l)
    ensures forall l :: l in d.tree ==> IsDir(d, l.dir)
  {
    forall l | l in d.tree && !l.name.Live? ensures d.tree[l].File? && Touched(g, l) && Spent(g, l) {
      assert At(g.orig, l).None? && At(d, l).Some?;
      assert l.name.Temp? ==> l == TempOf(Sub(l.dir, l.name.base), l.name.tag);
      assert l.name.Prev? ==> l == PrevOf(Sub(l.dir, l.name.base), g.tag) && Disposable(g, d, Sub(l.dir, l.name.base));
    }
  }

  lemma SpentGoes(g: Job, held: set<RelPath>, d: Disk, l: Loc)
    requires ValidJob(g) && Over(g, held, d) && Spent(g, l) && IsDir(d, l.dir)
    ensures Do(d, Discard(l)).Some?
    ensures var e := Do(d, Discard(l)).value;
      Over(g, held, e) && OnlyAt(d, e, l) && At(e, l).None? && !l.name.Live?
  {
    SpentIsFile(g, held, d, l);
    var e := Do(d, Discard(l)).value;
    OverBody(g, held, d);
    hide Body, Over, ValidJob, Spent, OnlyAt, Do;
    EntryCall(g, d, Discard(l));
    BodyStep(g, d, e, l);
    StaysOver(g, held, d, e, l);
  }

  lemma StaysOver(g: Job, held: set<RelPath>, d: Disk, e: Disk, l: Loc)
    requires Over(g, held, d) && Body(g, e) && OnlyAt(d, e, l) && At(e, l).None? && !l.name.Live? &&
      l != MarkerLoc(g.tag)
    ensures Over(g, held, e)
  {
    hide Body;
    forall p | p in g.items ensures At(e, TempOf(p, g.tag)).None? && Disposable(g, e, p) {
      assert Disposable(g, d, p);
    }
  }

  lemma OverBody(g: Job, held: set<RelPath>, d: Disk)
    requires Over(g, held, d)
    ensures Body(g, d)
  {
  }

  lemma SpentIsFile(g: Job, held: set<RelPath>, d: Disk, l: Loc)
    requires ValidJob(g) && Over(g, held, d) && Spent(g, l)
    ensures (At(d, l).Some? ==> At(d, l).value.File?) && !l.name.Live? && l != MarkerLoc(g.tag) && Touched(g, l)
  {
    assert l.name.Temp? ==> l == InstallOf(Sub(l.dir, l.name.base), g.tag);
    assert l.name.Prev? ==> l == PrevOf(Sub(l.dir, l.name.base), g.tag) && Disposable(g, d, Sub(l.dir, l.name.base));
  }

  lemma {:induction false} OrphansSpent(
      g: Job, held: set<RelPath>, d: Disk, left: seq<Left>, tags: set<string>, torn: Bytes)
    returns (end: Disk)
    requires ValidJob(g) && Over(g, held, d) &&
      forall x :: x in left && !Owned(x, tags) ==> Spent(g, x.at) && IsDir(d, x.at.dir)
    ensures Run(d, AllCalls(Orphans(left, tags), torn)) == Some(end) &&
      Keeps(OverBy(g, held), d, AllCalls(Orphans(left, tags), torn))
    ensures Over(g, held, end) && (forall x :: x in left && !Owned(x, tags) ==> At(end, x.at).None?)
    ensures (forall l :: At(end, l) == At(d, l) || At(end, l).None?) && LiveSame(d, end)
    decreases |left|
  {
    hide Over, ValidJob, Spent, Owned;
    assert OverBy(g, held)(d);
    if left == [] {
      return d;
    }
    var x := left[0];
    assert x in left;
    assert forall y :: y in left[1..] ==> y in left;
    assert forall y :: y in left ==> y == x || y in left[1..];
    var rest := AllCalls(Orphans(left[1..], tags), torn);
    if Owned(x, tags) {
      end := OrphansSpent(g, held, d, left[1..], tags, torn);
      assert [] + Orphans(left[1..], tags) == Orphans(left[1..], tags);
    } else {
      SpentGoes(g, held, d, x.at);
      var m := Do(d, Discard(x.at)).value;
      end := OrphansSpent(g, held, m, left[1..], tags, torn);
      CallsConcat([Remove(x.at)], Orphans(left[1..], tags), torn);
      OneOp(Remove(x.at), torn);
      assert ([Discard(x.at)] + rest)[1..] == rest;
    }
  }

  /** Recovering afterwards goes through, keeps every file and leaves no leftover. */
  lemma OverAfterwards(
      g: Job, held: set<RelPath>, d: Disk, left: seq<Left>, finish: bool, slot: Option<Manifest>, torn: Bytes)
    returns (ops: seq<Op>, end: Disk)
    requires ValidJob(g) && Over(g, held, d) && Lists(d, left)
    ensures Plan(d, left, finish, slot) == Ok(ops) && Run(d, AllCalls(ops, torn)) == Some(end)
    ensures Keeps(OverBy(g, held), d, AllCalls(ops, torn)) && Over(g, held, end) && Tidied(end) && LiveSame(d, end)
  {
    OverLeftovers(g, held, d);
    OnlyOrphans(g, d, left, finish, slot);
    ops := Orphans(left, {});
    hide Over, Orphans, AllCalls, ValidJob, OwnFilesOnly, Plan, Spent;
    end := OrphansSpent(g, held, d, left, {}, torn);
    forall l: Loc | !l.name.Live? ensures At(end, l).None? {
      if At(d, l).Some? {
        assert Left(l, d.tree[l]) in left;
      }
    }
  }
}
