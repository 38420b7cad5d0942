/** The last steps of a rollback: created directories, the marker, and what no marker owns. */
module RollbackDirs {
  import opened Wrappers
  import opened Volume
  import opened RestoreState
  import opened RestoreSteps
  import opened RecoveryPlan
  import opened Runs
  import opened Rollback

  /** A list of created directories: distinct, and each after the directory it is in. */
  ghost predicate ParentsBefore(created: seq<RelPath>) {
    && (forall i, j :: 0 <= i <= j < |created| ==> created[i].parent != created[j])
    && (forall i, j :: 0 <= i < j < |created| ==> created[i] != created[j])
  }

  /** Only created directories are in created directories, and none has lost its parent. */
  ghost predicate DirsClear(d: Disk, created: seq<RelPath>) {
    && (forall c :: c in created ==> IsDir(d, c.parent))
    && (forall l :: l in d.tree && l.dir.Sub? && l.dir in created ==>
      l.name.Live? && Sub(l.dir, l.name.base) in created)
  }

  /** `e` is `d` without the directories `created`. */
  ghost predicate WithoutDirs(d: Disk, e: Disk, created: seq<RelPath>) {
    && (forall c :: c in created ==> At(e, Home(c)).None?)
    && (forall l :: (forall c :: c in created ==> l != Home(c)) ==> At(e, l) == At(d, l))
  }

  ghost predicate Removable(g: Job, d: Disk, created: seq<RelPath>) {
    && Marked(g, d) && ParentsBefore(created)
    && (forall c :: c in created ==>
      c in MarkerOf(d, g.tag).value.created && c in g.dirs && (At(d, Home(c)).Some? ==> At(d, Home(c)) == Some(Dir)))
  }

  lemma OneCall(d: Disk, c: Call)
    ensures Run(d, [c]) == Do(d, c)
  {
    assert [c][1..] == [];
  }

  lemma TailRemovable(g: Job, d: Disk, created: seq<RelPath>)
    requires Removable(g, d, created) && created != []
    ensures Removable(g, d, created[1..])
    ensures DirsClear(d, created) ==> DirsClear(d, created[1..])
  {
    hide Marked;
    assert forall c :: c in created[1..] ==> c in created;
    assert created == [created[0]] + created[1..];
    forall l | DirsClear(d, created) && l in d.tree && l.dir.Sub? && l.dir in created[1..]
      ensures l.name.Live? && Sub(l.dir, l.name.base) in created[1..]
    {
      assert Sub(l.dir, l.name.base) in created;
      assert created[0].parent != l.dir;
    }
  }

  /** Once its created subdirectories are gone, a directory goes exactly when nothing else is in it. */
  lemma LastGoesIff(d: Disk, e: Disk, created: seq<RelPath>)
    requires WF(d) && created != [] && ParentsBefore(created) && WithoutDirs(d, e, created[1..]) &&
      DirsClear(d, created[1..])
    requires At(d, Home(created[0])).Some? ==> At(d, Home(created[0])) == Some(Dir)
    ensures Do(e, Rmdir(created[0])).Some? <==> DirsClear(d, created)
  {
    HeadApart(d, e, created);
    if Do(e, Rmdir(created[0])).Some? {
      GoneIsClear(d, e, created);
    }
    if DirsClear(d, created) {
      ClearIsGone(d, e, created);
    }
  }

  /** Removing the rest leaves the first directory's own entry, and the way to it, alone. */
  lemma HeadApart(d: Disk, e: Disk, created: seq<RelPath>)
    requires created != [] && ParentsBefore(created) && WithoutDirs(d, e, created[1..])
    ensures At(e, Home(created[0])) == At(d, Home(created[0])) &&
      IsDir(e, created[0].parent) == IsDir(d, created[0].parent)
    ensures forall x :: x in created ==> x == created[0] || x in created[1..]
  {
    var c, tail := created[0], created[1..];
    assert created == [c] + tail;
    assert forall x :: x in tail ==> x != c && c.parent != x;
    if c.parent.Sub? {
      var q: RelPath := c.parent;
      assert forall x :: x in tail ==> Home(q) != Home(x);
    }
  }

  lemma GoneIsClear(d: Disk, e: Disk, created: seq<RelPath>)
    requires WF(d) && created != [] && WithoutDirs(d, e, created[1..]) && DirsClear(d, created[1..]) &&
      Do(e, Rmdir(created[0])).Some?
    requires At(e, Home(created[0])) == At(d, Home(created[0])) &&
      IsDir(e, created[0].parent) == IsDir(d, created[0].parent)
    requires forall x :: x in created ==> x == created[0] || x in created[1..]
    ensures DirsClear(d, created)
  {
    var c, tail := created[0], created[1..];
    forall l | l in d.tree && l.dir.Sub? && l.dir in created ensures l.name.Live? &&
      Sub(l.dir, l.name.base) in created {
      if l.dir == c {
        assert IsDir(d, c) && Home(c) in e.tree && IsEmptyDir(e, c);
        assert l !in e.tree && At(e, l).None?;
        var x :| x in tail && l == Home(x);
      }
    }
  }

  lemma ClearIsGone(d: Disk, e: Disk, created: seq<RelPath>)
    requires created != [] && WithoutDirs(d, e, created[1..]) && DirsClear(d, created)
    requires At(e, Home(created[0])) == At(d, Home(created[0])) &&
      IsDir(e, created[0].parent) == IsDir(d, created[0].parent)
    requires At(d, Home(created[0])).Some? ==> At(d, Home(created[0])) == Some(Dir)
    requires forall x :: x in created ==> x == created[0] || x in created[1..]
    ensures Do(e, Rmdir(created[0])).Some?
  {
    var c, tail := created[0], created[1..];
    forall l | l in e.tree ensures l.dir != c {
      assert At(e, l).Some?;
      assert (exists x :: x in tail && l == Home(x)) || At(d, l) == At(e, l);
    }
  }

  /** The step itself, and what it leaves. */
  lemma LastDirGoes(g: Job, d: Disk, e: Disk, created: seq<RelPath>)
    requires ValidJob(g) && Removable(g, d, created) && created != []
    requires Marked(g, e) && MarkerOf(e, g.tag) == MarkerOf(d, g.tag) && WithoutDirs(d, e, created[1..])
    ensures Keeps(RescuableBy(g), e, [Rmdir(created[0])])
    ensures var r := Do(e, Rmdir(created[0]));
      r.Some? ==>
        && Marked(g, r.value)
        && MarkerOf(r.value, g.tag) == MarkerOf(d, g.tag)
        && WithoutDirs(d, r.value, created)
  {
    hide *;
    var c := created[0];
    var r := Do(e, Rmdir(c));
    if r.Some? {
      DirIsListed(g, d, created);
      RmdirStep(g, e, r.value, c);
      SpanOne(g, e, r.value, Rmdir(c));
      SpanKeeps(g, e, r.value, [Rmdir(c)]);
      WithoutFirst(d, e, r.value, created);
    } else {
      StuckKeeps(g, e, Rmdir(c));
    }
  }

  lemma DirIsListed(g: Job, d: Disk, created: seq<RelPath>)
    requires Removable(g, d, created) && created != []
    ensures created[0] in MarkerOf(d, g.tag).value.created
  {
    hide Marked;
  }

  lemma RmdirStep(g: Job, d: Disk, e: Disk, c: RelPath)
    requires ValidJob(g) && Marked(g, d) && Do(d, Rmdir(c)) == Some(e) && c in MarkerOf(d, g.tag).value.created
    ensures Marked(g, e) && MarkerOf(e, g.tag) == MarkerOf(d, g.tag) && OnlyAt(d, e, Home(c)) && At(e, Home(c)).None?
  {
    hide *;
    MarkedIsBody(g, d);
    EntryCall(g, d, Rmdir(c));
    RmdirTarget(c);
    DirStep(g, d, e, c);
  }

  lemma MarkedIsBody(g: Job, d: Disk)
    requires Marked(g, d)
    ensures Body(g, d)
  {
  }

  lemma RmdirTarget(c: RelPath)
    ensures Target(Rmdir(c)) == Home(c)
  {
  }

  lemma SpanKeeps(g: Job, d: Disk, e: Disk, calls: seq<Call>)
    requires Span(g, d, e, calls)
    ensures Keeps(RescuableBy(g), d, calls)
  {
  }

  lemma StuckKeeps(g: Job, d: Disk, c: Call)
    requires Marked(g, d) && Do(d, c).None?
    ensures Keeps(RescuableBy(g), d, [c])
  {
    hide Marked, Do;
    assert RescuableBy(g)(d);
    assert [c][0] == c;
  }

  lemma WithoutFirst(d: Disk, e: Disk, r: Disk, created: seq<RelPath>)
    requires created != [] && WithoutDirs(d, e, created[1..]) && OnlyAt(e, r, Home(created[0])) &&
      At(r, Home(created[0])).None?
    ensures WithoutDirs(d, r, created)
  {
    hide At, InodeAt;
    assert created == [created[0]] + created[1..];
  }

  /** The created directories go, children first, exactly when nothing else is in them. */
  lemma {:induction false} DirsGo(g: Job, d: Disk, created: seq<RelPath>, torn: Bytes)
    requires ValidJob(g) && Removable(g, d, created)
    ensures Keeps(RescuableBy(g), d, AllCalls(RemoveDirs(created), torn))
    ensures Run(d, AllCalls(RemoveDirs(created), torn)).Some? <==> DirsClear(d, created)
    ensures var r := Run(d, AllCalls(RemoveDirs(created), torn));
      r.Some? ==>
        && Marked(g, r.value)
        && MarkerOf(r.value, g.tag) == MarkerOf(d, g.tag)
        && WithoutDirs(d, r.value, created)
    decreases |created|
  {
    if created == [] {
      assert RescuableBy(g)(d);
      return;
    }
    var c, tail := created[0], created[1..];
    TailRemovable(g, d, created);
    RemovableWF(g, d, created);
    DirsGo(g, d, tail, torn);
    assert RemoveDirs(created) == RemoveDirs(tail) + [RemoveDir(c)];
    hide *;
    CallsConcat(RemoveDirs(tail), [RemoveDir(c)], torn);
    OneOp(RemoveDir(c), torn);
    DirCalls(c, torn);
    var calls := AllCalls(RemoveDirs(tail), torn);
    RunConcat(d, calls, [Rmdir(c)]);
    var r := Run(d, calls);
    if r.Some? {
      LastDirGoes(g, d, r.value, created);
      LastGoesIff(d, r.value, created);
      OneCall(r.value, Rmdir(c));
    }
    KeepsConcat(RescuableBy(g), d, calls, [Rmdir(c)]);
  }

  lemma DirCalls(c: RelPath, torn: Bytes)
    ensures Calls(RemoveDir(c), torn) == [Rmdir(c)]
  {
  }

  lemma RemovableWF(g: Job, d: Disk, created: seq<RelPath>)
    requires Removable(g, d, created) && created != []
    ensures WF(d) && ParentsBefore(created) && (At(d, Home(created[0])).Some? ==> At(d, Home(created[0])) == Some(Dir))
  {
  }
}
