/**
  `recovery` and `recover`: the plan built up step by step, checked, and then
  applied with every call free to fail.
*/
module Recover {
  import opened Wrappers
  import opened Volume
  import opened RestoreState
  import opened RestoreSteps
  import opened RecoveryPlan
  import opened Runs
  import opened Kernels
  import opened Rollback
  import opened RollbackTheorem
  import opened Afterwards
  import opened FinishRecovery
  import opened FinishTheorem
  import opened FinishCrashes
  import opened Crashes
  import opened PlanLimits

  type Steps = Result<seq<Op>, Refusal>

  /** The steps so far, before those still to come. */
  function After(done: seq<Op>, rest: Steps): Steps {
    if rest.Ok? then Ok(done + rest.value) else rest
  }

  lemma AfterAfter(a: seq<Op>, b: seq<Op>, rest: Steps)
    ensures After(a, After(b, rest)) == After(a + b, rest)
  {
    if rest.Ok? {
      assert a + (b + rest.value) == a + b + rest.value;
    }
  }

  /** `verify` and, with owners, `verify_meta`, of the files. */
  predicate AllInPlace(d: Disk, files: seq<Item>, owners: bool) {
    forall f :: f in files ==>
      && InodeAt(d, Home(f.path)).Some? && Matches(InodeAt(d, Home(f.path)).value, f)
      && (owners ==> MetaMatches(InodeAt(d, Home(f.path)).value, f, owners))
  }

  /** The file has the bytes it was captured with and, with owners, its mode and owner. */
  ghost predicate HasCaptured(d: Disk, f: Item, owners: bool) {
    && InodeAt(d, Home(f.path)).Some?
    && var n := InodeAt(d, Home(f.path)).value;
      && n.blob == Raw(f.digest.of)
      && (owners ==> n.mode == f.mode && n.uid == f.uid && n.gid == f.gid)
  }

  lemma InPlaceExactly(d: Disk, files: seq<Item>, owners: bool)
    ensures AllInPlace(d, files, owners) <==> forall f :: f in files ==> HasCaptured(d, f, owners)
  {
  }

  /**
    Where a recovery of `d` may stop: after the first `k` of its calls, or,
    when the `k`th was an install's, once that install's file was discarded.
  */
  ghost predicate Stopped(d: Disk, ops: seq<Op>, torn: Bytes, e: Disk) {
    exists k :: 0 <= k <= |AllCalls(ops, torn)| && StoppedAt(d, ops, torn, k, e)
  }

  ghost predicate StoppedAt(d: Disk, ops: seq<Op>, torn: Bytes, k: nat, e: Disk)
    requires k <= |AllCalls(ops, torn)|
  {
    var m := Run(d, AllCalls(ops, torn)[..k]);
    m.Some? && (m == Some(e) || exists op ::
      op in ops && op.Install? && Do(m.value, Discard(InstallOf(op.path, op.tag))) == Some(e))
  }

  /** What one step may leave: the disk after some of its calls, or that without an install's file. */
  ghost predicate OpStopped(d: Disk, op: Op, torn: Bytes, e: Disk) {
    exists k :: 0 <= k <= |Calls(op, torn)| && OpStoppedAt(d, op, torn, k, e)
  }

  ghost predicate OpStoppedAt(d: Disk, op: Op, torn: Bytes, k: nat, e: Disk)
    requires k <= |Calls(op, torn)|
  {
    var m := Run(d, Calls(op, torn)[..k]);
    m.Some? && (m == Some(e) || (op.Install? && Do(m.value, Discard(InstallOf(op.path, op.tag))) == Some(e)))
  }

  lemma RunOneMore(d: Disk, calls: seq<Call>, k: nat, m: Disk, e: Disk)
    requires k < |calls| && Run(d, calls[..k]) == Some(m) && Do(m, calls[k]) == Some(e)
    ensures Run(d, calls[..k + 1]) == Some(e)
  {
    assert calls[..k + 1] == calls[..k] + [calls[k]];
    RunConcat(d, calls[..k], [calls[k]]);
    assert [calls[k]][1..] == [];
  }

  /** A step of the plan that stopped is a plan that stopped. */
  lemma StoppedHere(d: Disk, ops: seq<Op>, torn: Bytes, i: nat, m: Disk, e: Disk)
    requires i < |ops| && Run(d, AllCalls(ops[..i], torn)) == Some(m) && OpStopped(m, ops[i], torn, e)
    ensures Stopped(d, ops, torn, e)
  {
    hide AllCalls, Calls, Run, Do, InstallOf;
    var k :| 0 <= k <= |Calls(ops[i], torn)| && OpStoppedAt(m, ops[i], torn, k, e);
    var n := SplitHere(d, ops, torn, i, m, k);
    var u := Run(m, Calls(ops[i], torn)[..k]).value;
    if u != e {
      assert ops[i] in ops && ops[i].Install? && Do(u, Discard(InstallOf(ops[i].path, ops[i].tag))) == Some(e);
    }
    assert StoppedAt(d, ops, torn, n, e);
  }

  lemma SplitHere(d: Disk, ops: seq<Op>, torn: Bytes, i: nat, m: Disk, k: nat) returns (n: nat)
    requires i < |ops| && Run(d, AllCalls(ops[..i], torn)) == Some(m) && k <= |Calls(ops[i], torn)|
    ensures n <= |AllCalls(ops, torn)| && Run(d, AllCalls(ops, torn)[..n]) == Run(m, Calls(ops[i], torn)[..k])
  {
    hide AllCalls, Calls, Run;
    var before, mine, rest := AllCalls(ops[..i], torn), Calls(ops[i], torn), AllCalls(ops[i + 1..], torn);
    assert ops == ops[..i] + ([ops[i]] + ops[i + 1..]);
    CallsConcat(ops[..i], [ops[i]] + ops[i + 1..], torn);
    CallsConcat([ops[i]], ops[i + 1..], torn);
    OneOp(ops[i], torn);
    n := |before| + k;
    TakeMiddle(before, mine, rest, k);
    RunConcat(d, before, mine[..k]);
  }

  lemma TakeMiddle(a: seq<Call>, b: seq<Call>, c: seq<Call>, k: nat)
    requires k <= |b|
    ensures (a + (b + c))[..|a| + k] == a + b[..k]
  {
  }

  lemma RunNextOp(d: Disk, ops: seq<Op>, torn: Bytes, i: nat, m: Disk)
    requires i < |ops| && Run(d, AllCalls(ops[..i], torn)) == Some(m)
    ensures Run(d, AllCalls(ops[..i + 1], torn)) == Run(m, Calls(ops[i], torn))
  {
    assert ops[..i + 1] == ops[..i] + [ops[i]];
    CallsConcat(ops[..i], [ops[i]], torn);
    OneOp(ops[i], torn);
    RunConcat(d, AllCalls(ops[..i], torn), Calls(ops[i], torn));
  }

  lemma NextCall(d: Disk, calls: seq<Call>, k: nat)
    requires k < |calls| && Run(d, calls).Some?
    ensures Run(d, calls[..k]).Some? && Do(Run(d, calls[..k]).value, calls[k]).Some?
  {
    assert calls == calls[..k] + calls[k..];
    RunConcat(d, calls[..k], calls[k..]);
  }

  /** Each step is verified on the disk it finds. */
  ghost predicate VerifiedAlong(d: Disk, ops: seq<Op>, torn: Bytes)
    decreases |ops|
  {
    ops != [] ==>
      && Verified(d, ops[0])
      && var next := Run(d, Calls(ops[0], torn));
        next.Some? ==> VerifiedAlong(next.value, ops[1..], torn)
  }

  /** What it takes for a recovery to go through when no call fails of itself. */
  ghost predicate Settles(d: Disk, left: seq<Left>, finish: bool, slot: Option<Manifest>, torn: Bytes) {
    && IsPlanned(d, left, finish, slot)
    && VerifiedAlong(d, Plan(d, left, finish, slot).value, torn)
    && var end := Run(d, AllCalls(Plan(d, left, finish, slot).value, torn));
      && end.Some?
      && (finish && Pending(d, left).Some? ==>
        AllInPlace(end.value, Pending(d, left).value.manifest.files, Pending(d, left).value.owners))
  }

  lemma AlongFrom(d: Disk, ops: seq<Op>, torn: Bytes, i: nat, m: Disk)
    requires i < |ops| && Run(d, AllCalls(ops, torn)) == Run(m, AllCalls(ops[i..], torn))
    ensures Run(d, AllCalls(ops, torn)).Some? ==> Run(m, Calls(ops[i], torn)).Some?
    ensures forall e :: Run(m, Calls(ops[i], torn)) == Some(e) ==>
      Run(d, AllCalls(ops, torn)) == Run(e, AllCalls(ops[i + 1..], torn))
  {
    assert ops[i..][0] == ops[i] && ops[i..][1..] == ops[i + 1..];
    RunConcat(m, Calls(ops[i], torn), AllCalls(ops[i + 1..], torn));
  }

  lemma AlongNext(m: Disk, ops: seq<Op>, torn: Bytes, i: nat)
    requires i < |ops|
    ensures VerifiedAlong(m, ops[i..], torn) ==> Verified(m, ops[i])
    ensures forall e :: Run(m, Calls(ops[i], torn)) == Some(e) && Verified(m, ops[i]) ==>
      (VerifiedAlong(m, ops[i..], torn) <==> VerifiedAlong(e, ops[i + 1..], torn))
  {
    assert ops[i..][0] == ops[i] && ops[i..][1..] == ops[i + 1..];
  }

  /** How many calls a step takes; an install also syncs its file before the rename. */
  function OpCost(op: Op): nat {
    match op
    case Install(_, _, _, _) => 8
    case Keep(_) => 0
    case _ => 1
  }

  function Costs(ops: seq<Op>): nat {
    if ops == [] then 0 else OpCost(ops[0]) + Costs(ops[1..])
  }

  lemma {:induction false} CostsConcat(a: seq<Op>, b: seq<Op>)
    ensures Costs(a + b) == Costs(a) + Costs(b)
  {
    if a == [] {
      assert a + b == b;
    } else {
      assert (a + b)[1..] == a[1..] + b;
      CostsConcat(a[1..], b);
    }
  }

  lemma NextCost(ops: seq<Op>, i: nat)
    requires i < |ops|
    ensures Costs(ops[..i + 1]) == Costs(ops[..i]) + OpCost(ops[i])
    ensures Costs(ops[..i + 1]) <= Costs(ops)
  {
    assert ops[..i + 1] == ops[..i] + [ops[i]] && ops == ops[..i + 1] + ops[i + 1..];
    CostsConcat(ops[..i], [ops[i]]);
    CostsConcat(ops[..i + 1], ops[i + 1..]);
    assert [ops[i]][1..] == [];
  }

  lemma FillingCalls(op: Op, torn: Bytes)
    requires op.Install?
    ensures var own, calls := InstallOf(op.path, op.tag), Calls(op, torn);
      && |calls| == 7
      && calls[2] == Write(own, Raw(torn)) && calls[3] == Write(own, Raw(op.file.digest.of))
      && calls[4] == SetMeta(own, op.file.mode, if op.owners then Some((op.file.uid, op.file.gid)) else None)
      && calls[5] == Rename(op.path.parent, own.name, Live(op.path.name))
  {
  }

  lemma HasBytes(d: Disk, op: Op)
    requires op.Install? && Verified(d, op)
    ensures var n := InodeAt(d, TempOf(op.path, op.tag));
      n.Some? && n.value.blob.Raw? && n.value.blob.data == op.file.digest.of
  {
  }

  lemma NotRun(d: Disk, calls: seq<Call>)
    ensures Run(d, calls[..0]) == Some(d)
  {
  }

  lemma NotStartedOp(d: Disk, op: Op, torn: Bytes)
    ensures OpStopped(d, op, torn, d)
  {
    assert Calls(op, torn)[..0] == [] && OpStoppedAt(d, op, torn, 0, d);
  }

  lemma OnlyInstalls(d: Disk, op: Op)
    ensures !Verified(d, op) ==> op.Install?
  {
  }

  /** Nothing but a fault keeps the step from going through. */
  ghost predicate CanApply(d: Disk, op: Op, torn: Bytes) {
    Verified(d, op) && Run(d, Calls(op, torn)).Some?
  }

  /** Of the five calls that fill an install's file, from the `n`th on, one fails, and the next call goes through. */
  ghost predicate FailsInside(faults: nat -> bool, n: nat) {
    exists f :: n <= f < n + 5 && faults(f) && Quiet(faults, n, f) && !faults(f + 1)
  }

  /** The steps before go through, and then `FailsInside`. */
  ghost predicate FailsFilling(faults: nat -> bool, n: nat) {
    Quiet(faults, n, n + 2) && FailsInside(faults, n + 2)
  }

  /** A file that is being filled can be discarded. */
  lemma FilledGoes(d: Disk, op: Op, torn: Bytes, k: nat, m: Disk)
    requires op.Install? && 2 <= k < 6 && Run(d, Calls(op, torn)[..k]) == Some(m)
    ensures var own := InstallOf(op.path, op.tag);
      Do(m, Discard(own)).Some? && At(Do(m, Discard(own)).value, own).None?
  {
    var own, calls := InstallOf(op.path, op.tag), Calls(op, torn);
    OwnStays(d, calls, own, k, m);
  }

  lemma {:induction false} OwnStays(d: Disk, calls: seq<Call>, own: Loc, k: nat, m: Disk)
    requires 2 <= k <= |calls| && Run(d, calls[..k]) == Some(m) && calls[1] == Create(own)
    requires forall i :: 2 <= i < k ==> calls[i].Write? || calls[i].SetMeta?
    ensures IsDir(m, own.dir) && At(m, own).Some? && At(m, own).value.File?
  {
    assert calls[..k] == calls[..k - 1] + [calls[k - 1]];
    RunConcat(d, calls[..k - 1], [calls[k - 1]]);
    var e := Run(d, calls[..k - 1]).value;
    assert [calls[k - 1]][1..] == [];
    assert Do(e, calls[k - 1]) == Some(m);
    if k > 2 {
      OwnStays(d, calls, own, k - 1, e);
    }
  }

  class Recovery {
    const kernel: Kernel
    var disk: Disk
    var ops: seq<Op>
    /** Every disk since the first step was applied. */
    ghost var history: seq<Disk>

    constructor (start: Disk, kernel: Kernel)
      ensures disk == start && history == [start] && ops == [] && this.kernel == kernel
    {
      disk, history, ops, this.kernel := start, [start], [], kernel;
    }

    /** The file steps of one marker. */
    method PlanFiles(left: seq<Left>, tag: string, files: seq<MarkedFile>, fin: Option<SwapMarker>)
      returns (refused: Option<Refusal>)
      modifies this`ops
      ensures match FilesOps(disk, left, tag, files, fin)
        case Ok(steps) => refused.None? && ops == old(ops) + steps
        case Err(e) => refused == Some(e)
    {
      hide FileOps;
      for i := 0 to |files|
        invariant After(old(ops), FilesOps(disk, left, tag, files, fin)) ==
          After(ops, FilesOps(disk, left, tag, files[i..], fin))
      {
        var f := files[i];
        assert files[i..][0] == f && files[i..][1..] == files[i + 1..];
        var steps := FileOps(disk, left, tag, f, fin);
        if steps.Err? {
          return Some(steps.error);
        }
        AfterAfter(ops, steps.value, FilesOps(disk, left, tag, files[i + 1..], fin));
        ops := ops + steps.value;
      }
      return None;
    }

    method PlanStrays(left: seq<Left>, tag: string, files: seq<MarkedFile>)
      modifies this`ops
      ensures ops == old(ops) + Strays(left, tag, files)
    {
      for i := 0 to |left|
        invariant old(ops) + Strays(left, tag, files) == ops + Strays(left[i..], tag, files)
      {
        assert left[i..][0] == left[i] && left[i..][1..] == left[i + 1..];
        if IsStray(left[i], tag, files) {
          var rest := Strays(left[i + 1..], tag, files);
          assert ops + ([Remove(left[i].at)] + rest) == ops + [Remove(left[i].at)] + rest;
          ops := ops + [Remove(left[i].at)];
        }
      }
    }

    method PlanDirs(created: seq<RelPath>)
      modifies this`ops
      ensures ops == old(ops) + RemoveDirs(created)
    {
      var i: nat := |created|;
      while i > 0
        invariant i <= |created| && ops == old(ops) + RemoveDirs(created[i..])
      {
        i := i - 1;
        assert created[i..][0] == created[i] && created[i..][1..] == created[i + 1..];
        ops := ops + [RemoveDir(created[i])];
      }
      assert created[0..] == created;
    }

    method PlanMarker(left: seq<Left>, tag: string, m: SwapMarker, fin: Option<SwapMarker>)
      returns (refused: Option<Refusal>)
      modifies this`ops
      ensures match MarkerOps(disk, left, tag, m, fin)
        case Ok(steps) => refused.None? && ops == old(ops) + steps
        case Err(e) => refused == Some(e)
    {
      hide FilesOps, Strays, RemoveDirs;
      refused := PlanFiles(left, tag, m.files, fin);
      if refused.None? {
        PlanStrays(left, tag, m.files);
        if fin.None? {
          PlanDirs(m.created);
        }
        ops := ops + [Remove(MarkerLoc(tag))];
      }
    }

    method PlanMarkers(left: seq<Left>, finish: bool, slot: Option<Manifest>) returns (refused: Option<Refusal>)
      modifies this`ops
      ensures match Markers(disk, left, left, finish, slot, false)
        case Ok(steps) => refused.None? && ops == old(ops) + steps
        case Err(e) => refused == Some(e)
    {
      hide MarkerOps, Finishing, MarkerTag, MarkerOf;
      var seen := false;
      for i := 0 to |left|
        invariant After(old(ops), Markers(disk, left, left, finish, slot, false)) ==
          After(ops, Markers(disk, left, left[i..], finish, slot, seen))
      {
        assert left[i..][0] == left[i] && left[i..][1..] == left[i + 1..];
        var tag := MarkerTag(left[i]);
        if tag.Some? {
          var m := MarkerOf(disk, tag.value);
          if m.None? {
            return Some(Unreadable);
          }
          var fin := Finishing(m.value, finish, slot, seen);
          if fin.Err? {
            return Some(fin.error);
          }
          ghost var before := ops;
          refused := PlanMarker(left, tag.value, m.value, fin.value);
          if refused.Some? {
            return refused;
          }
          AfterAfter(before, MarkerOps(disk, left, tag.value, m.value, fin.value).value,
            Markers(disk, left, left[i + 1..], finish, slot, true));
          seen := true;
        }
      }
      return None;
    }

    method PlanOrphans(left: seq<Left>)
      modifies this`ops
      ensures ops == old(ops) + Orphans(left, Tags(left))
    {
      var tags := Tags(left);
      for i := 0 to |left|
        invariant old(ops) + Orphans(left, tags) == ops + Orphans(left[i..], tags)
      {
        assert left[i..][0] == left[i] && left[i..][1..] == left[i + 1..];
        if !Owned(left[i], tags) {
          var rest := Orphans(left[i + 1..], tags);
          assert ops + ([Remove(left[i].at)] + rest) == ops + [Remove(left[i].at)] + rest;
          ops := ops + [Remove(left[i].at)];
        }
      }
    }

    /** `recovery`: the plan, or why there is none. */
    method MakePlan(left: seq<Left>, finish: bool, slot: Option<Manifest>) returns (refused: Option<Refusal>)
      modifies this`ops
      ensures match Plan(disk, left, finish, slot)
        case Ok(steps) => refused.None? && ops == steps
        case Err(e) => refused == Some(e)
    {
      hide Markers, Orphans, Tags;
      ops := [];
      if exists x :: x in left && IsStuck(x) {
        return Some(Stuck);
      }
      refused := PlanMarkers(left, finish, slot);
      if refused.None? {
        PlanOrphans(left);
      }
    }

    /** A call: it fails when the kernel refuses it or one of its faults is due, changing nothing. */
    method Try(c: Call) returns (ok: bool)
      modifies this`disk, this`history, kernel
      ensures ok ==> Do(old(disk), c) == Some(disk)
      ensures !ok ==> disk == old(disk)
      ensures ok <==> Do(old(disk), c).Some? && !kernel.faults(old(kernel.calls))
      ensures kernel.calls == old(kernel.calls) + 1
      ensures history == old(history) + [disk]
    {
      var after := Do(disk, c);
      var fault := kernel.Fault();
      ok := after.Some? && !fault;
      if ok {
        disk := after.value;
      }
      history := history + [disk];
    }

    method Sync() returns (ok: bool)
      modifies kernel
      ensures (ok <==> !kernel.faults(old(kernel.calls))) && kernel.calls == old(kernel.calls) + 1
    {
      var fault := kernel.Fault();
      ok := !fault;
    }

    /** Everything this step has done so far is one of its own prefixes. */
    ghost predicate Within(from: seq<Disk>, start: Disk, op: Op, torn: Bytes)
      reads this
    {
      && from <= history && |history| > 0 && disk == history[|history| - 1]
      && forall i :: |from| <= i < |history| ==> OpStopped(start, op, torn, history[i])
    }

    /** The `k`th call of a step. */
    method Next(c: Call, ghost from: seq<Disk>, ghost start: Disk, ghost op: Op, ghost torn: Bytes, ghost k: nat)
      returns (ok: bool)
      requires k < |Calls(op, torn)| && c == Calls(op, torn)[k] && Run(start, Calls(op, torn)[..k]) == Some(disk) &&
        Within(from, start, op, torn)
      modifies this`disk, this`history, kernel
      ensures Within(from, start, op, torn)
      ensures Run(start, Calls(op, torn)[..if ok then k + 1 else k]) == Some(disk)
      ensures ok ==> !kernel.faults(old(kernel.calls))
      ensures Run(start, Calls(op, torn)).Some? && !kernel.faults(old(kernel.calls)) ==> ok
      ensures kernel.calls == old(kernel.calls) + 1
    {
      hide Calls, Do, Run;
      ghost var m := disk;
      if Run(start, Calls(op, torn)).Some? {
        NextCall(start, Calls(op, torn), k);
      }
      ok := Try(c);
      if ok {
        RunOneMore(start, Calls(op, torn), k, m, disk);
      }
      assert OpStoppedAt(start, op, torn, if ok then k + 1 else k, disk);
    }

    /** `Op::apply`. */
    method Apply(op: Op, torn: Bytes) returns (ok: bool)
      requires |history| > 0 && disk == history[|history| - 1]
      modifies this`disk, this`history, kernel
      ensures Within(old(history), old(disk), op, torn)
      ensures ok ==> Run(old(disk), Calls(op, torn)) == Some(disk) && Verified(old(disk), op)
      ensures ok ==> kernel.Ran(old(kernel.calls), OpCost(op), true)
      ensures
        CanApply(old(disk), op, torn) && Quiet(kernel.faults, old(kernel.calls), old(kernel.calls) + OpCost(op)) ==> ok
      ensures op.Install? && CanApply(old(disk), op, torn) && FailsFilling(kernel.faults, old(kernel.calls)) ==>
        At(disk, InstallOf(op.path, op.tag)).None?
    {
      hide Do, InodeAt, InstallOf, TempOf;
      ghost var d, h, calls := disk, history, Calls(op, torn);
      assert calls[..0] == [] && calls[..|calls|] == calls;
      match op {
        case Move(dir, from, to) =>
          ok := Next(Rename(dir, from, to), h, d, op, torn, 0);
        case Remove(l) =>
          ok := Next(Discard(l), h, d, op, torn, 0);
        case RemoveDir(p) =>
          ok := Next(Rmdir(p), h, d, op, torn, 0);
        case Keep(_) =>
          ok := true;
        case Install(p, tag, file, owners) =>
          ok := InstallFile(op, torn);
      }
    }

    /** On success all seven calls of the step were made; on failure some of them, or those undone. */
    method InstallFile(op: Op, torn: Bytes) returns (ok: bool)
      requires op.Install? && |history| > 0 && disk == history[|history| - 1]
      modifies this`disk, this`history, kernel
      ensures Within(old(history), old(disk), op, torn)
      ensures ok ==> Run(old(disk), Calls(op, torn)) == Some(disk) && Verified(old(disk), op)
      ensures ok ==> kernel.Ran(old(kernel.calls), OpCost(op), true)
      ensures
        CanApply(old(disk), op, torn) && Quiet(kernel.faults, old(kernel.calls), old(kernel.calls) + OpCost(op)) ==> ok
      ensures op.Install? && CanApply(old(disk), op, torn) && FailsFilling(kernel.faults, old(kernel.calls)) ==>
        At(disk, InstallOf(op.path, op.tag)).None?
    {
      hide Do, InodeAt, At, InstallOf, TempOf, Run, Verified, FailsInside, OpStopped;
      ghost var d, h, calls := disk, history, Calls(op, torn);
      assert calls[..0] == [] && calls[..7] == calls;
      NotRun(d, calls);
      if !Verified(disk, op) {
        NotStartedOp(d, op, torn);
        return false;
      }
      HasBytes(disk, op);
      var bytes := InodeAt(disk, TempOf(op.path, op.tag)).value.blob.data;
      var own := InstallOf(op.path, op.tag);
      ok := Next(Discard(own), h, d, op, torn, 0);
      if !ok {
        return;
      }
      ok := Next(Create(own), h, d, op, torn, 1);
      if !ok {
        return;
      }
      ok := FillOrClean(bytes, op, torn, h, d);
      if !ok {
        return;
      }
      ok := Next(Discard(TempOf(op.path, op.tag)), h, d, op, torn, 6);
    }

    /** Fills and renames the file, and discards it if that fails. */
    method FillOrClean(bytes: Bytes, op: Op, torn: Bytes, ghost h: seq<Disk>, ghost d: Disk) returns (ok: bool)
      requires op.Install? && bytes == op.file.digest.of
      requires Run(d, Calls(op, torn)[..2]) == Some(disk) && Within(h, d, op, torn)
      modifies this`disk, this`history, kernel
      ensures Within(h, d, op, torn)
      ensures ok ==> Run(d, Calls(op, torn)[..6]) == Some(disk) && kernel.Ran(old(kernel.calls), 5, true)
      ensures Run(d, Calls(op, torn)).Some? && Quiet(kernel.faults, old(kernel.calls), old(kernel.calls) + 5) ==> ok
      ensures Run(d, Calls(op, torn)).Some? && FailsInside(kernel.faults, old(kernel.calls)) ==>
        !ok && At(disk, InstallOf(op.path, op.tag)).None?
    {
      hide Do, At, InstallOf, TempOf, Run, Calls, OpStopped;
      ok := FillAndRename(bytes, op, torn, h, d);
      if !ok {
        Cleanup(op, torn, h, d);
      }
    }

    /** The part of an install whose failure removes the file again. */
    method FillAndRename(bytes: Bytes, op: Op, torn: Bytes, ghost h: seq<Disk>, ghost d: Disk) returns (ok: bool)
      requires op.Install? && bytes == op.file.digest.of
      requires Run(d, Calls(op, torn)[..2]) == Some(disk) && Within(h, d, op, torn)
      modifies this`disk, this`history, kernel
      ensures Within(h, d, op, torn)
      ensures ok ==> Run(d, Calls(op, torn)[..6]) == Some(disk)
      ensures !ok ==> exists k :: 2 <= k < 6 && Run(d, Calls(op, torn)[..k]) == Some(disk)
      ensures ok ==> kernel.Ran(old(kernel.calls), 5, true)
      ensures Run(d, Calls(op, torn)).Some? ==> kernel.Ran(old(kernel.calls), 5, ok)
    {
      hide Do, InstallOf, TempOf, Run, OpStopped, Calls;
      FillingCalls(op, torn);
      var own := InstallOf(op.path, op.tag);
      ok := Next(Write(own, Raw(torn)), h, d, op, torn, 2);
      if !ok {
        return;
      }
      ok := Next(Write(own, Raw(bytes)), h, d, op, torn, 3);
      if !ok {
        return;
      }
      ok := Next(SetMeta(own, op.file.mode, if op.owners then Some((op.file.uid, op.file.gid)) else None), h, d, op,
        torn, 4);
      if !ok {
        return;
      }
      ok := Sync();
      if !ok {
        return;
      }
      ok := Next(Rename(op.path.parent, own.name, Live(op.path.name)), h, d, op, torn, 5);
    }

    method Cleanup(op: Op, torn: Bytes, ghost h: seq<Disk>, ghost d: Disk)
      requires op.Install? && (exists k :: 2 <= k < 6 && Run(d, Calls(op, torn)[..k]) == Some(disk)) &&
        Within(h, d, op, torn)
      modifies this`disk, this`history, kernel
      ensures Within(h, d, op, torn) && kernel.calls == old(kernel.calls) + 1
      ensures !kernel.faults(old(kernel.calls)) ==> At(disk, InstallOf(op.path, op.tag)).None?
    {
      hide Do, InstallOf, TempOf, Run;
      ghost var k :| 2 <= k < 6 && Run(d, Calls(op, torn)[..k]) == Some(disk);
      FilledGoes(d, op, torn, k, disk);
      ghost var m := disk;
      var gone := Try(Discard(InstallOf(op.path, op.tag)));
      assert OpStoppedAt(d, op, torn, k, disk);
    }

    /** Finds a step whose source is not what it installs, if there is one; the disk stays as it is. */
    method Check() returns (bad: Option<Refusal>)
      ensures bad.None? <==> forall op :: op in ops ==> Verified(disk, op)
      ensures bad.Some? ==>
        exists op :: op in ops && op.Install? && !Verified(disk, op) && bad.value == Mismatch(op.path)
    {
      hide Verified;
      for i := 0 to |ops|
        invariant forall op :: op in ops[..i] ==> Verified(disk, op)
      {
        if !Verified(disk, ops[i]) {
          assert ops[i] in ops;
          OnlyInstalls(disk, ops[i]);
          return Some(Mismatch(PathOf(ops[i])));
        }
        assert ops[..i + 1] == ops[..i] + [ops[i]];
      }
      assert ops[..|ops|] == ops;
      return None;
    }

    /** The plan's steps, in order, up to the first that fails. */
    method ApplyAll(torn: Bytes) returns (ok: bool)
      requires history == [disk]
      modifies this`disk, this`history, kernel
      ensures |history| > 0 && disk == history[|history| - 1]
      ensures forall e :: e in history ==> Stopped(old(disk), ops, torn, e)
      ensures ok ==> Run(old(disk), AllCalls(ops, torn)) == Some(disk) && VerifiedAlong(old(disk), ops, torn)
      ensures ok ==> kernel.Ran(old(kernel.calls), Costs(ops), true)
      ensures
        && VerifiedAlong(old(disk), ops, torn) && Run(old(disk), AllCalls(ops, torn)).Some?
        && Quiet(kernel.faults, old(kernel.calls), old(kernel.calls) + Costs(ops)) ==>
        ok
    {
      hide Calls, Do;
      ghost var start := disk;
      assert ops[..0] == [];
      NotStarted(start, ops, torn);
      assert ops[0..] == ops;
      hide AllCalls, Run, Stopped, OpStopped, VerifiedAlong, Verified;
      NoOps(start, torn);
      NoneToVerify(start, torn);
      for i := 0 to |ops|
        invariant |history| > 0 && disk == history[|history| - 1]
        invariant Run(start, AllCalls(ops[..i], torn)) == Some(disk)
        invariant forall e :: e in history ==> Stopped(start, ops, torn, e)
        invariant kernel.Ran(old(kernel.calls), Costs(ops[..i]), true)
        invariant Run(start, AllCalls(ops, torn)) == Run(disk, AllCalls(ops[i..], torn))
        invariant VerifiedAlong(start, ops, torn) <==> VerifiedAlong(disk, ops[i..], torn)
      {
        AlongFrom(start, ops, torn, i, disk);
        AlongNext(disk, ops, torn, i);
        ghost var m, h := disk, history;
        RunNextOp(start, ops, torn, i, m);
        NextCost(ops, i);
        ok := Apply(ops[i], torn);
        EachStopped(start, ops, torn, i, m, h);
        if !ok {
          return false;
        }
      }
      assert ops[..|ops|] == ops && ops[|ops|..] == [];
      NoneToVerify(disk, torn);
      return true;
    }

    lemma EachStopped(start: Disk, ops: seq<Op>, torn: Bytes, i: nat, m: Disk, h: seq<Disk>)
      requires i < |ops| && Run(start, AllCalls(ops[..i], torn)) == Some(m) && Within(h, m, ops[i], torn)
      requires forall e :: e in h ==> Stopped(start, ops, torn, e)
      ensures forall e :: e in history ==> Stopped(start, ops, torn, e)
    {
      hide Stopped, OpStopped, AllCalls, Run;
      forall j | 0 <= j < |history| ensures Stopped(start, ops, torn, history[j]) {
        if j < |h| {
          assert history[j] == h[j];
        } else {
          StoppedHere(start, ops, torn, i, m, history[j]);
        }
      }
    }

    /**
      `recover`. Nothing changes unless there is a plan and the whole of it is
      verified; when it goes through, the disk is the one its steps lead to and
      a finish has found every file in place; and wherever it stops, or
      crashes, is somewhere on the way there.
    */
    method Settle(left: seq<Left>, finish: bool, slot: Option<Manifest>, torn: Bytes) returns (res: Result<(), Refusal>)
      requires history == [disk]
      modifies this, kernel
      ensures res.Ok? <==>
        && Settles(old(disk), left, finish, slot, torn)
        && Quiet(kernel.faults, old(kernel.calls),
             old(kernel.calls) + Costs(Plan(old(disk), left, finish, slot).value) + 1)
      ensures res.Err? && res.error != Failed ==> history == old(history) && disk == old(disk)
      ensures res.Err? && res.error != Failed <==> !IsPlanned(old(disk), left, finish, slot)
      ensures finish && !MayFinish(old(disk), left, slot) ==> res.Err? && disk == old(disk)
      ensures |history| > 0 && disk == history[|history| - 1]
      ensures Plan(old(disk), left, finish, slot).Ok? ==>
        forall e :: e in history ==> Stopped(old(disk), Plan(old(disk), left, finish, slot).value, torn, e)
      ensures res.Ok? ==> Run(old(disk), AllCalls(Plan(old(disk), left, finish, slot).value, torn)) == Some(disk)
      ensures res.Ok? && finish && Pending(old(disk), left).Some? ==>
        var m := Pending(old(disk), left).value;
        forall f :: f in m.manifest.files ==> HasCaptured(disk, f, m.owners)
    {
      hide Plan, MayFinish, Stopped, AllCalls, Run, AllInPlace, Pending, Verified, Costs, HasCaptured;
      ghost var start := disk;
      PlanNeverFails(start, left, finish, slot);
      if finish && Plan(start, left, finish, slot).Ok? {
        FinishNeeds(start, left, slot);
      }
      var refused := MakePlan(left, finish, slot);
      if refused.Some? {
        return Err(refused.value);
      }
      NotStarted(start, ops, torn);
      refused := Check();
      if refused.Some? {
        return Err(refused.value);
      }
      var pending := Pending(disk, left);
      var ok := ApplyAll(torn);
      var synced := Sync();
      if !ok || !synced {
        return Err(Failed);
      }
      if finish && pending.Some? && !AllInPlace(disk, pending.value.manifest.files, pending.value.owners) {
        return Err(Failed);
      }
      if finish && pending.Some? {
        InPlaceExactly(disk, pending.value.manifest.files, pending.value.owners);
      }
      res := Ok(());
    }
  }

  /** There is a plan, and every staged file it installs hashes to the backup. */
  ghost predicate IsPlanned(d: Disk, left: seq<Left>, finish: bool, slot: Option<Manifest>) {
    Plan(d, left, finish, slot).Ok? && forall op :: op in Plan(d, left, finish, slot).value ==> Verified(d, op)
  }

  /** The restore a finish completes: the first one whose marker was found. */
  function Pending(d: Disk, left: seq<Left>): Option<SwapMarker> {
    if left == [] then None
    else if MarkerTag(left[0]).Some? then MarkerOf(d, MarkerTag(left[0]).value)
    else Pending(d, left[1..])
  }

  function PathOf(op: Op): RelPath {
    if op.Install? then op.path else Sub(Root, "")
  }

  lemma NotStarted(d: Disk, ops: seq<Op>, torn: Bytes)
    ensures Stopped(d, ops, torn, d)
  {
    assert AllCalls(ops, torn)[..0] == [];
    assert StoppedAt(d, ops, torn, 0, d);
  }

  lemma NoneToVerify(d: Disk, torn: Bytes)
    ensures VerifiedAlong(d, [], torn)
  {
  }

  /** Recovery is stuck before it starts exactly when something other than a file or a symlink has one of its names. */
  lemma StuckExactly(d: Disk, left: seq<Left>, finish: bool, slot: Option<Manifest>)
    ensures Plan(d, left, finish, slot) == Err(Stuck) <==> exists x :: x in left && (x.kind.Dir? || x.kind.Other?)
  {
    hide Markers, Orphans;
    MarkersNeverFail(d, left, left, finish, slot, false);
    assert forall x :: x in left ==> (IsStuck(x) <==> x.kind.Dir? || x.kind.Other?);
  }

  /** `Failed` is kept for steps that were refused or went wrong, never for a plan. */
  lemma PlanNeverFails(d: Disk, left: seq<Left>, finish: bool, slot: Option<Manifest>)
    ensures Plan(d, left, finish, slot) != Err(Failed)
  {
    hide Orphans;
    MarkersNeverFail(d, left, left, finish, slot, false);
  }

  lemma {:induction false} MarkersNeverFail(
      d: Disk, left: seq<Left>, rest: seq<Left>, finish: bool, slot: Option<Manifest>, seen: bool)
    ensures Markers(d, left, rest, finish, slot, seen) !in {Err(Failed), Err(Stuck)}
    decreases |rest|
  {
    hide FilesOps, Strays, RemoveDirs;
    if rest != [] {
      MarkersNeverFail(d, left, rest[1..], finish, slot, seen);
      MarkersNeverFail(d, left, rest[1..], finish, slot, true);
      if MarkerTag(rest[0]).Some? && MarkerOf(d, MarkerTag(rest[0]).value).Some? {
        var m := MarkerOf(d, MarkerTag(rest[0]).value).value;
        FilesNeverFail(d, left, MarkerTag(rest[0]).value, m.files, None);
        FilesNeverFail(d, left, MarkerTag(rest[0]).value, m.files, Some(m));
      }
    }
  }

  lemma {:induction false} FilesNeverFail(
      d: Disk, left: seq<Left>, tag: string, fs: seq<MarkedFile>, fin: Option<SwapMarker>)
    ensures FilesOps(d, left, tag, fs, fin) !in {Err(Failed), Err(Stuck)}
    decreases |fs|
  {
    hide KindOf, Find, RemoveIf, InstallOf;
    if fs != [] {
      FilesNeverFail(d, left, tag, fs[1..], fin);
    }
  }

  /** A rollback that stopped anywhere can be rolled back again. */
  lemma StoppedRollback(g: Job, d: Disk, left: seq<Left>, slot: Option<Manifest>, torn: Bytes, e: Disk)
    requires ValidJob(g) && Rescuable(g, d) && Lists(d, left)
    requires Plan(d, left, false, slot).Ok? && Stopped(d, Plan(d, left, false, slot).value, torn, e)
    ensures Rescuable(g, e)
  {
    hide Rescuable, Lists, Plan, AllCalls, Run, ValidJob;
    var ops := Plan(d, left, false, slot).value;
    var k :| 0 <= k <= |AllCalls(ops, torn)| && StoppedAt(d, ops, torn, k, e);
    RollbackInstallsNothing(d, left, slot);
    var a := Attempt(left, slot, torn, k, e);
    assert CutShort(d, a, false);
    CutRollback(g, d, a);
  }

  lemma RollbackInstallsNothing(d: Disk, left: seq<Left>, slot: Option<Manifest>)
    requires Plan(d, left, false, slot).Ok?
    ensures forall op :: op in Plan(d, left, false, slot).value ==> !op.Install?
  {
    hide Orphans, Markers, Tags;
    MarkersInstallNothing(d, left, left, slot, false);
    OrphansRemove(left, Tags(left));
  }

  lemma {:induction false} MarkersInstallNothing(
      d: Disk, left: seq<Left>, rest: seq<Left>, slot: Option<Manifest>, seen: bool)
    requires Markers(d, left, rest, false, slot, seen).Ok?
    ensures forall op :: op in Markers(d, left, rest, false, slot, seen).value ==> !op.Install?
    decreases |rest|
  {
    hide FilesOps, Strays, RemoveDirs;
    if rest != [] {
      if MarkerTag(rest[0]).None? {
        MarkersInstallNothing(d, left, rest[1..], slot, seen);
      } else {
        var tag := MarkerTag(rest[0]).value;
        var m := MarkerOf(d, tag).value;
        FilesInstallNothing(d, left, tag, m.files);
        StraysRemove(left, tag, m.files);
        DirsRemove(m.created);
        MarkersInstallNothing(d, left, rest[1..], slot, true);
      }
    }
  }

  lemma {:induction false} FilesInstallNothing(d: Disk, left: seq<Left>, tag: string, fs: seq<MarkedFile>)
    requires FilesOps(d, left, tag, fs, None).Ok?
    ensures forall op :: op in FilesOps(d, left, tag, fs, None).value ==> !op.Install?
    decreases |fs|
  {
    hide KindOf;
    if fs != [] {
      FilesInstallNothing(d, left, tag, fs[1..]);
    }
  }

  lemma {:induction false} StraysRemove(left: seq<Left>, tag: string, fs: seq<MarkedFile>)
    ensures forall op :: op in Strays(left, tag, fs) ==> op.Remove?
  {
    if left != [] {
      StraysRemove(left[1..], tag, fs);
    }
  }

  lemma {:induction false} DirsRemove(created: seq<RelPath>)
    ensures forall op :: op in RemoveDirs(created) ==> op.RemoveDir?
  {
    if created != [] {
      DirsRemove(created[1..]);
    }
  }

  /** A finish that stopped anywhere, clean-up of its own file included, can be finished again. */
  lemma StoppedFinish(
      g: Job, held: set<RelPath>, d: Disk, left: seq<Left>, slot: Option<Manifest>, torn: Bytes, e: Disk)
    requires ValidJob(g) && Completing(g, held, d) && Lists(d, left)
    requires Plan(d, left, true, slot).Ok? && Stopped(d, Plan(d, left, true, slot).value, torn, e)
    ensures Completing(g, held, e)
  {
    hide Completing, Lists, Plan, AllCalls, Run, ValidJob, Do;
    var ops := Plan(d, left, true, slot).value;
    var k :| 0 <= k <= |AllCalls(ops, torn)| && StoppedAt(d, ops, torn, k, e);
    var m := Run(d, AllCalls(ops, torn)[..k]).value;
    var a := Attempt(left, slot, torn, k, m);
    assert CutShort(d, a, true);
    CutFinish(g, held, d, a);
    if m != e {
      var op :| op in ops && op.Install? && Do(m, Discard(InstallOf(op.path, op.tag))) == Some(e);
      FinishInstalls(g, held, d, left, slot, op);
      OwnGoes(g, held, m, e, op.path);
    }
  }

  lemma FinishInstalls(g: Job, held: set<RelPath>, d: Disk, left: seq<Left>, slot: Option<Manifest>, op: Op)
    requires ValidJob(g) && Completing(g, held, d) && Lists(d, left) && Plan(d, left, true, slot).Ok?
    requires op in Plan(d, left, true, slot).value && op.Install?
    ensures op.path in g.items && op.tag == g.tag
  {
    hide Underway, Over, Plan, ValidJob, Lists, MidSwap, OwnFilesOnly;
    if Underway(g, held, d) {
      OwnLeftovers(g, held, d);
      UnderwayBody(g, held, d);
      OnlyItsBackup(g, d, left, slot);
      FinishInstallsOwn(g, d, left, op);
    } else {
      OverLeftovers(g, held, d);
      NotUnderway(g, held, d);
      OnlyOrphans(g, d, left, true, slot);
      OrphansRemove(left, {});
      assert false;
    }
  }

  lemma FinishInstallsOwn(g: Job, d: Disk, left: seq<Left>, op: Op)
    requires ValidJob(g) && MidSwap(g, d) && OwnFilesOnly(g, d) && Lists(d, left) &&
      Plan(d, left, true, Some(g.manifest)).Ok?
    requires op in Plan(d, left, true, Some(g.manifest)).value && op.Install?
    ensures op.path in g.items && op.tag == g.tag
  {
    hide ValidJob, MidSwap, Lists, Plan, OwnFilesOnly;
    MidSwapMarks(g, d);
    var files, ops := FinishPlanIs(g, d, left);
  }

  /** Removing an install's file changes nothing a finish depends on. */
  lemma OwnGoes(g: Job, held: set<RelPath>, d: Disk, e: Disk, p: RelPath)
    requires ValidJob(g) && Completing(g, held, d) && p in g.items && Do(d, Discard(InstallOf(p, g.tag))) == Some(e)
    ensures Completing(g, held, e)
  {
    hide Underway, Body, ValidJob, Stretch;
    var l := InstallOf(p, g.tag);
    assert Scratch(g, l);
    if Underway(g, held, d) {
      UnderwayBody(g, held, d);
      EntryCall(g, d, Discard(l));
      OwnStep(g, held, d, e, p, Discard(l));
      StretchEnds(g, held, d, e, [Discard(l)]);
    } else {
      OwnOpens(d, l);
      hide Underway, Over, Body, ValidJob;
      SpentGoes(g, held, d, l);
    }
  }

  lemma OwnOpens(d: Disk, l: Loc)
    requires Do(d, Discard(l)).Some?
    ensures IsDir(d, l.dir)
  {
  }
}
