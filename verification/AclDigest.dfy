/** `stamp_acl_digest`: the digest of the ACL file goes on the first ACL write of a run, and on no other. */
module AclDigest {
  import opened Wrappers
  import opened Enroll
  import opened AclSteps
  import opened Converge
  import opened EnrollTheorem
  import Plans

  function WithDigest(s: Step, d: nat): Step
    requires s.call.PutAcl?
  {
    s.(call := s.call.(digest := Some(d)))
  }

  function Stamp(steps: seq<Step>, digest: Option<nat>): seq<Step> {
    if digest.None? || steps == [] then steps
    else if steps[0].call.PutAcl? then [WithDigest(steps[0], digest.value)] + steps[1..]
    else [steps[0]] + Stamp(steps[1..], digest)
  }

  lemma {:induction false} StampAt(steps: seq<Step>, d: nat, i: nat)
    requires i < |steps| && steps[i].call.PutAcl? && forall j :: 0 <= j < i ==> !steps[j].call.PutAcl?
    ensures Stamp(steps, Some(d)) == steps[i := WithDigest(steps[i], d)]
    decreases i
  {
    if i > 0 {
      StampAt(steps[1..], d, i - 1);
      assert !steps[0].call.PutAcl?;
      assert steps == [steps[0]] + steps[1..];
    }
  }

  lemma {:induction false} StampLength(steps: seq<Step>, d: Option<nat>)
    ensures |Stamp(steps, d)| == |steps|
  {
    if d.Some? && steps != [] {
      StampLength(steps[1..], d);
    }
  }

  lemma {:induction false} StampNone(steps: seq<Step>, digest: Option<nat>)
    requires forall s :: s in steps ==> !s.call.PutAcl?
    ensures Stamp(steps, digest) == steps
  {
    if steps != [] {
      StampNone(steps[1..], digest);
      assert steps == [steps[0]] + steps[1..];
    }
  }

  /** In place, on the first ACL write there is. */
  method StampAclDigest(steps: array<Step>, digest: Option<nat>)
    modifies steps
    ensures steps[..] == Stamp(old(steps[..]), digest)
  {
    if digest.None? {
      return;
    }
    for i := 0 to steps.Length
      invariant steps[..] == old(steps[..]) && forall j :: 0 <= j < i ==> !steps[j].call.PutAcl?
    {
      if steps[i].call.PutAcl? {
        StampAt(steps[..], digest.value, i);
        steps[i] := WithDigest(steps[i], digest.value);
        return;
      }
    }
    StampNone(steps[..], digest);
  }

  /** As planned: no step carries a digest yet. */
  ghost predicate Unstamped(steps: seq<Step>) {
    forall i :: 0 <= i < |steps| ==> steps[i].call.PutAcl? ==> steps[i].call.digest.None?
  }

  /** The server does not refuse this call for its digest. */
  predicate DigestHolds(s: Server, c: Call) {
    c.PutAcl? && c.digest.Some? ==> c.digest.value == s.digest
  }

  lemma OthersKeepAcls(w: World, s: Step)
    requires !s.call.PutAcl? && Exec(w, s, true).Some?
    ensures Exec(w, s, true).value.server.acls == w.server.acls &&
      Exec(w, s, true).value.server.digest == w.server.digest
  {
  }

  /**
    With no other writer no ACL write of a run is refused for its digest,
    whichever steps were confirmed and however far the run gets.
  */
  lemma {:induction false} NeverRefusesItself(w: World, steps: seq<Step>, k: nat, v: World)
    requires Unstamped(steps) && k < |Stamp(steps, Some(w.server.digest))|
    requires ExecAll(w, Stamp(steps, Some(w.server.digest))[..k]) == Some(v)
    ensures DigestHolds(v.server, Stamp(steps, Some(w.server.digest))[k].call)
    decreases |steps|
  {
    var d := Some(w.server.digest);
    var all := Stamp(steps, d);
    StampLength(steps, d);
    if k > 0 {
      assert all[..k][1..] == all[1..][..k - 1] && all[..k][0] == all[0];
      if steps[0].call.PutAcl? {
        assert all[k] == steps[k];
      } else {
        var m := Exec(w, all[0], true).value;
        OthersKeepAcls(w, all[0]);
        assert all[1..] == Stamp(steps[1..], d);
        StampLength(steps[1..], d);
        NeverRefusesItself(m, steps[1..], k - 1, v);
      }
    }
  }

  /**
    If another writer has changed the ACL file since it was read, no ACL write
    of the run lands: the run stops at the first one at the latest.
  */
  lemma {:induction false} NeverOverwritesOthers(w: World, steps: seq<Step>, read: nat, k: nat, v: World)
    requires Unstamped(steps) && w.server.digest != read
    requires k <= |Stamp(steps, Some(read))| && ExecAll(w, Stamp(steps, Some(read))[..k]) == Some(v)
    ensures k <= |steps| && v.server.acls == w.server.acls && forall i :: 0 <= i < k ==> !steps[i].call.PutAcl?
    decreases |steps|
  {
    var all := Stamp(steps, Some(read));
    StampLength(steps, Some(read));
    if k > 0 {
      assert all[..k][1..] == all[1..][..k - 1] && all[..k][0] == all[0];
      assert !steps[0].call.PutAcl?;
      var m := Exec(w, all[0], true).value;
      OthersKeepAcls(w, all[0]);
      assert all[1..] == Stamp(steps[1..], Some(read));
      NeverOverwritesOthers(m, steps[1..], read, k - 1, v);
      assert forall i :: 1 <= i < k ==> steps[i] == steps[1..][i - 1];
    }
  }

  lemma {:induction false} StampSuffix(steps: seq<Step>, read: nat, j: nat)
    requires j <= |steps| && forall i :: 0 <= i < j ==> !steps[i].call.PutAcl?
    ensures |Stamp(steps, Some(read))| == |steps| && Stamp(steps, Some(read))[j..] == Stamp(steps[j..], Some(read))
    decreases j
  {
    StampLength(steps, Some(read));
    if j > 0 {
      assert !steps[0].call.PutAcl?;
      StampSuffix(steps[1..], read, j - 1);
      assert steps[1..][j - 1..] == steps[j..];
      assert Stamp(steps, Some(read))[j..] == Stamp(steps[1..], Some(read))[j - 1..];
    } else {
      assert steps[0..] == steps;
    }
  }

  /** After an ACL write nothing more is stamped. */
  lemma {:induction false} UnstampedAfter(steps: seq<Step>, read: nat, i: nat, j: nat)
    requires i < j <= |steps| && steps[i].call.PutAcl?
    ensures |Stamp(steps, Some(read))| == |steps| && Stamp(steps, Some(read))[j..] == steps[j..]
    decreases i
  {
    StampLength(steps, Some(read));
    if steps[0].call.PutAcl? {
      assert Stamp(steps, Some(read))[j..] == steps[1..][j - 1..] == steps[j..];
    } else {
      UnstampedAfter(steps[1..], read, i - 1, j - 1);
      assert Stamp(steps, Some(read))[j..] == Stamp(steps[1..], Some(read))[j - 1..] == steps[1..][j - 1..] ==
        steps[j..];
    }
  }

  /** Among `steps`, the one at `i` is the first ACL write from `j` on. */
  ghost predicate NextAclWrite(steps: seq<Step>, j: nat, i: nat) {
    j <= i < |steps| && steps[i].call.PutAcl? && forall x :: j <= x < i ==> !steps[x].call.PutAcl?
  }

  /** Whatever the server's ACLs have become by then, a run's next ACL write from `j` on is refused if they changed. */
  ghost predicate SeenFrom(steps: seq<Step>, read: nat, j: nat) {
    forall s: Server, i: nat :: NextAclWrite(steps, j, i) && i < |Stamp(steps, Some(read))| && s.digest != read ==>
      !DigestHolds(s, Stamp(steps, Some(read))[i].call)
  }

  /**
    Exactly when a write that another client makes between step `j - 1` and
    step `j` of a run is seen: if the run had made no ACL write before it, or
    has none left to make.
  */
  lemma LateWriterIsSeenIff(steps: seq<Step>, read: nat, j: nat)
    requires Unstamped(steps) && j <= |steps|
    ensures SeenFrom(steps, read, j) <==>
      (forall i :: 0 <= i < j ==> !steps[i].call.PutAcl?) || (forall i :: j <= i < |steps| ==> !steps[i].call.PutAcl?)
  {
    StampLength(steps, Some(read));
    var all := Stamp(steps, Some(read));
    if first :| 0 <= first < j && steps[first].call.PutAcl? {
      UnstampedAfter(steps, read, first, j);
      if next :| j <= next < |steps| && steps[next].call.PutAcl? {
        var i := FirstFrom(steps, j, next);
        assert all[i] == all[j..][i - j] == steps[i];
        var s := Server({}, map[], [], read + 1, 0);
        assert NextAclWrite(steps, j, i) && DigestHolds(s, all[i].call);
      }
    } else {
      forall s: Server, i: nat | NextAclWrite(steps, j, i) && s.digest != read ensures !DigestHolds(s, all[i].call) {
        StampAt(steps, read, i);
      }
    }
  }

  lemma {:induction false} FirstFrom(steps: seq<Step>, j: nat, next: nat) returns (i: nat)
    requires j <= next < |steps| && steps[next].call.PutAcl?
    ensures NextAclWrite(steps, j, i)
    decreases next - j
  {
    if steps[j].call.PutAcl? {
      i := j;
    } else {
      i := FirstFrom(steps, j + 1, next);
    }
  }

  /**
    What becomes of the rest of a run when the ACL file has changed before step
    `j`: without an earlier ACL write it stops before it could overwrite the
    change; after one, it goes on as if nothing were ever checked.
  */
  lemma LateWriterRun(steps: seq<Step>, read: nat, j: nat, changed: World, k: nat)
    requires Unstamped(steps) && j <= k <= |steps| && changed.server.digest != read
    ensures |Stamp(steps, Some(read))| == |steps|
    ensures var u := ExecAll(changed, Stamp(steps, Some(read))[j..k]);
      if exists i :: 0 <= i < j && steps[i].call.PutAcl? then u == ExecAll(changed, steps[j..k])
      else u.Some? ==> u.value.server.acls == changed.server.acls && forall i :: j <= i < k ==> !steps[i].call.PutAcl?
  {
    var all := Stamp(steps, Some(read));
    StampLength(steps, Some(read));
    assert all[j..k] == all[j..][..k - j] && steps[j..k] == steps[j..][..k - j];
    if i :| 0 <= i < j && steps[i].call.PutAcl? {
      UnstampedAfter(steps, read, i, j);
    } else {
      StampSuffix(steps, read, j);
      var u := ExecAll(changed, all[j..k]);
      if u.Some? {
        NeverOverwritesOthers(changed, steps[j..], read, k - j, u.value);
        forall i | j <= i < k ensures !steps[i].call.PutAcl? {
          assert steps[j..][i - j] == steps[i];
        }
      }
    }
  }

  /** Without another writer a stamped run is served as an unstamped one. */
  lemma {:induction false} StampedRuns(w: World, steps: seq<Step>)
    requires Unstamped(steps)
    ensures ExecAll(w, Stamp(steps, Some(w.server.digest))) == ExecAll(w, steps)
    decreases |steps|
  {
    if steps != [] {
      var all := Stamp(steps, Some(w.server.digest));
      if steps[0].call.PutAcl? {
        assert all[1..] == steps[1..];
        assert Exec(w, all[0], true) == Exec(w, steps[0], true);
      } else if Exec(w, steps[0], true).Some? {
        assert all[1..] == Stamp(steps[1..], Some(w.server.digest));
        OthersKeepAcls(w, steps[0]);
        StampedRuns(Exec(w, steps[0], true).value, steps[1..]);
      }
    }
  }

  lemma {:induction false} StampPrefix(steps: seq<Step>, read: nat, k: nat)
    requires k <= |steps|
    ensures |Stamp(steps, Some(read))| == |steps| && Stamp(steps, Some(read))[..k] == Stamp(steps[..k], Some(read))
    decreases |steps|
  {
    StampLength(steps, Some(read));
    if k > 0 {
      assert steps[..k][1..] == steps[1..][..k - 1] && steps[..k][0] == steps[0];
      if !steps[0].call.PutAcl? {
        StampPrefix(steps[1..], read, k - 1);
      }
    }
  }

  lemma PlanIsUnstamped(id: Identity, w: World, now: int)
    ensures Unstamped(Plan(id, w, now))
  {
    hide Wanted, Grants, Revokes;
    GrantsArePuts(id, w.server.acls, Wanted(id));
    RevokesArePuts(id, w.server.acls);
    var n, u := NsPart(id, w.server.namespaces), UserPart(id, UserOf(id, w.server), now);
    var t, a := TokenPart(id, UserOf(id, w.server), w.held, now), AclPart(id, w.server.acls);
    assert forall s :: s in n || s in u || s in t ==> !s.call.PutAcl?;
    assert forall s :: s in a ==> s.call.PutAcl? && s.call.digest.None?;
    assert forall s :: s in Plan(id, w, now) ==> s in n || s in u || s in t || s in a;
  }

  predicate IsRevoke(s: Step) {
    s.call.PutAcl? && s.call.delete && s.call.digest.None?
  }

  lemma {:induction false} DropGone(acls: seq<Acl>, k: (string, string, string, string))
    ensures forall e :: e in DropAcl(acls, k) <==> e in acls && Key(e) != k
  {
    if acls != [] {
      DropGone(acls[1..], k);
      assert acls == [acls[0]] + acls[1..];
    }
  }

  /** Revokes are served whatever the ACLs have become, and an entry that is gone stays gone. */
  lemma {:induction false} RevokesLand(w: World, steps: seq<Step>) returns (end: World)
    requires forall s :: s in steps ==> IsRevoke(s)
    ensures ExecAll(w, steps) == Some(end) && forall e :: e in end.server.acls ==> e in w.server.acls
    decreases |steps|
  {
    if steps == [] {
      return w;
    }
    assert IsRevoke(steps[0]);
    var c := steps[0].call;
    DropGone(w.server.acls, (c.path, c.authId, "user", c.role));
    end := RevokesLand(Exec(w, steps[0], true).value, steps[1..]);
  }

  /** Revokes come last. */
  lemma AfterARevoke(id: Identity, w: World, now: int, k: nat)
    requires k < |Plan(id, w, now)| && IsRevoke(Plan(id, w, now)[k])
    ensures forall s :: s in Plan(id, w, now)[k..] ==> IsRevoke(s)
  {
    hide *;
    var first, last := InTwoParts(id, w, now);
    LastAreRevokes(first, last, k);
  }

  lemma InTwoParts(id: Identity, w: World, now: int) returns (first: seq<Step>, last: seq<Step>)
    ensures Plan(id, w, now) == first + last
    ensures (forall s :: s in first ==> !IsRevoke(s)) && forall s :: s in last ==> IsRevoke(s)
  {
    hide Grants, Revokes, Wanted;
    var pre := NsPart(id, w.server.namespaces) + UserPart(id, UserOf(id, w.server), now) +
      TokenPart(id, UserOf(id, w.server), w.held, now);
    first, last := pre + Grants(id, w.server.acls, Wanted(id)), Revokes(id, w.server.acls);
    GrantsArePuts(id, w.server.acls, Wanted(id));
    RevokesArePuts(id, w.server.acls);
    assert forall s :: s in pre ==> !s.call.PutAcl?;
  }

  lemma LastAreRevokes(first: seq<Step>, last: seq<Step>, k: nat)
    requires k < |first + last| && IsRevoke((first + last)[k])
    requires (forall s :: s in first ==> !IsRevoke(s)) && forall s :: s in last ==> IsRevoke(s)
    ensures forall s :: s in (first + last)[k..] ==> IsRevoke(s)
  {
    hide IsRevoke;
    assert k >= |first|;
    assert (first + last)[k..] == last[k - |first|..];
  }

  /**
    Once an enrolment has made an ACL write, whatever another client does to
    the ACLs before step `k`, which revokes `b`, does not stop the run: it goes
    through, and nothing is left of what that client made of `b`.
  */
  lemma LateRevokeLands(id: Identity, w: World, now: int, i: nat, k: nat, b: Acl, changed: World)
    returns (end: World)
    requires i < k < |Plan(id, w, now)| && Plan(id, w, now)[i].call.PutAcl?
    requires Plan(id, w, now)[k] == RevokeStep(b) && b.kind == "user"
    ensures |Stamp(Plan(id, w, now), Some(w.server.digest))| == |Plan(id, w, now)|
    ensures ExecAll(changed, Stamp(Plan(id, w, now), Some(w.server.digest))[k..]) == Some(end)
    ensures forall e :: e in end.server.acls ==> e in changed.server.acls && Key(e) != Key(b)
  {
    AfterARevoke(id, w, now, k);
    hide Plan;
    var steps := Plan(id, w, now);
    UnstampedAfter(steps, w.server.digest, i, k);
    var rest := steps[k..];
    assert rest[0] == RevokeStep(b);
    DropGone(changed.server.acls, Key(b));
    var next := Exec(changed, rest[0], true).value;
    end := RevokesLand(next, rest[1..]);
  }

  /** An entry that grants the host's user a role outside its namespace. */
  function StrayEntry(id: Identity, propagate: bool): Acl {
    Acl("/", id.UserId(), "user", "Audit", propagate)
  }

  /**
    Such a run, for every host: the server holds a stray entry and nothing
    else, and the plan is to enrol the host and revoke the entry. After its
    grants another client writes the entry anew, with the digest it has just
    read; the run revokes it all the same.
  */
  lemma SecondWriteLands(id: Identity, read: nat, now: int)
    returns (w: World, k: nat, m: World, changed: World, end: World)
    requires ValidIdentity(id)
    ensures w == World(Server({}, map[], [StrayEntry(id, false)], read, 0), None)
    ensures k < |Plan(id, w, now)| == |Stamp(Plan(id, w, now), Some(read))|
    ensures ExecAll(w, Stamp(Plan(id, w, now), Some(read))[..k]) == Some(m)
    ensures StrayEntry(id, false) in m.server.acls && StrayEntry(id, true) !in m.server.acls
    ensures Serve(m.server, PutAcl("/", "Audit", id.UserId(), false, Some(m.server.digest))) == Some(changed.server)
    ensures StrayEntry(id, true) in changed.server.acls && changed.held == m.held
    ensures ExecAll(changed, Stamp(Plan(id, w, now), Some(read))[k..]) == Some(end)
    ensures StrayEntry(id, true) !in end.server.acls && Plan(id, end, now) == []
  {
    hide Plan, Stamp, Serve, SetAcl, Exec;
    w := World(Server({}, map[], [StrayEntry(id, false)], read, 0), None);
    k, m := UpToTheRevoke(id, w, now);
    changed := Rewritten(id, m);
    end := RunsOn(id, w, now, k, m, changed);
  }

  /** The grants are made, with the digest on the first of them; the revoke is the last step left. */
  lemma UpToTheRevoke(id: Identity, w: World, now: int) returns (k: nat, m: World)
    requires Sensible(id, w) && w.server.acls == [StrayEntry(id, false)]
    ensures 0 < k < |Plan(id, w, now)| == |Stamp(Plan(id, w, now), Some(w.server.digest))|
    ensures Plan(id, w, now)[k - 1].call.PutAcl? && Plan(id, w, now)[k..] == [RevokeStep(StrayEntry(id, false))]
    ensures ExecAll(w, Plan(id, w, now)[..k]) == Some(m)
    ensures ExecAll(w, Stamp(Plan(id, w, now), Some(w.server.digest))[..k]) == Some(m)
    ensures OneEach(m.server.acls) && AuthExists(m.server, id.UserId())
    ensures StrayEntry(id, false) in m.server.acls && StrayEntry(id, true) !in m.server.acls
  {
    hide *;
    var b := StrayEntry(id, false);
    var pre, a, y := ToTheGrants(id, w, now);
    var grants := Grants(id, [b], Wanted(id));
    GrantsThenRevoke(id, b);
    m := GrantsMade(id, w, y);
    k := |pre| + |grants|;
    var plan := Plan(id, w, now);
    assert plan[..k] == pre + grants && plan[k..] == [RevokeStep(b)];
    ExecConcat(w, pre, grants);
    PlanIsUnstamped(id, w, now);
    PrefixIsUnstamped(plan, k);
    StampPrefix(plan, w.server.digest, k);
    StampedRuns(w, plan[..k]);
  }

  lemma PrefixIsUnstamped(steps: seq<Step>, k: nat)
    requires Unstamped(steps) && k <= |steps|
    ensures Unstamped(steps[..k])
  {
  }

  lemma GrantsMade(id: Identity, w: World, y: World) returns (m: World)
    requires Sensible(id, w) && y.server.acls == [StrayEntry(id, false)]
    requires AuthExists(y.server, id.UserId()) && AuthExists(y.server, id.TokenId())
    ensures ExecAll(y, Grants(id, [StrayEntry(id, false)], Wanted(id))) == Some(m)
    ensures OneEach(m.server.acls) && AuthExists(m.server, id.UserId())
    ensures StrayEntry(id, false) in m.server.acls && StrayEntry(id, true) !in m.server.acls
  {
    hide Wanted, Grants, Revokes, ExecAll;
    var grants := Grants(id, [StrayEntry(id, false)], Wanted(id));
    WantedIsPlain(id);
    AuthOfWanted(id, y);
    m := GrantsResume(id, y, Wanted(id), |grants|);
    assert grants[..|grants|] == grants;
  }

  lemma AuthOfWanted(id: Identity, y: World)
    requires AuthExists(y.server, id.UserId()) && AuthExists(y.server, id.TokenId())
    ensures forall g :: g in Wanted(id) ==> AuthExists(y.server, g.0)
  {
    hide AuthExists;
  }

  lemma GrantsThenRevoke(id: Identity, b: Acl)
    requires b == StrayEntry(id, false)
    ensures AclPart(id, [b]) == Grants(id, [b], Wanted(id)) + [RevokeStep(b)] && Grants(id, [b], Wanted(id)) != []
    ensures forall s :: s in Grants(id, [b], Wanted(id)) ==> s.call.PutAcl?
  {
    RevokesStray(id, b);
    GrantsArePuts(id, [b], Wanted(id));
    assert !Granted(id, [b], Wanted(id)[0].0, Wanted(id)[0].1);
  }

  /** The other client's write. */
  lemma Rewritten(id: Identity, m: World) returns (changed: World)
    requires OneEach(m.server.acls) && AuthExists(m.server, id.UserId()) && StrayEntry(id, false) in m.server.acls
    ensures Serve(m.server, PutAcl("/", "Audit", id.UserId(), false, Some(m.server.digest))) == Some(changed.server)
    ensures StrayEntry(id, true) in changed.server.acls && changed.held == m.held
    ensures changed.server == m.server.(acls := SetAcl(m.server.acls, StrayEntry(id, true)),
      digest := changed.server.digest)
  {
    changed := World(Serve(m.server, PutAcl("/", "Audit", id.UserId(), false, Some(m.server.digest))).value, m.held);
    SetExactly(m.server.acls, StrayEntry(id, true));
  }

  /** The run's last step makes of it what it would have made without the other client. */
  lemma RunsOn(id: Identity, w: World, now: int, k: nat, m: World, changed: World) returns (end: World)
    requires Sensible(id, w) && HeldIsCurrent(id, UserOf(id, w.server), w.held, now)
    requires 0 < k < |Plan(id, w, now)| && Plan(id, w, now)[k - 1].call.PutAcl?
    requires Plan(id, w, now)[k..] == [RevokeStep(StrayEntry(id, false))]
    requires ExecAll(w, Plan(id, w, now)[..k]) == Some(m)
    requires changed.held == m.held && changed.server ==
      m.server.(acls := SetAcl(m.server.acls, StrayEntry(id, true)), digest := changed.server.digest)
    ensures |Stamp(Plan(id, w, now), Some(w.server.digest))| == |Plan(id, w, now)|
    ensures ExecAll(changed, Stamp(Plan(id, w, now), Some(w.server.digest))[k..]) == Some(end)
    ensures StrayEntry(id, true) !in end.server.acls && Plan(id, end, now) == []
  {
    hide Plan, Stamp, Sensible, HeldIsCurrent;
    var last := RevokeStep(StrayEntry(id, false));
    var plan := Plan(id, w, now);
    UnstampedAfter(plan, w.server.digest, k - 1, k);
    end := Exec(changed, last, true).value;
    assert [last][1..] == [];
    DropGone(changed.server.acls, Key(StrayEntry(id, true)));
    DropsWhatIsSet(m.server.acls, StrayEntry(id, true));
    var v := ConvergesInTwo(id, w, now);
    assert plan == plan[..k] + [last];
    ExecConcat(w, plan[..k], [last]);
    SamePlan(id, v, end, now);
  }

  /** Everything before the ACL steps is served, and leaves the ACLs alone. */
  lemma ToTheGrants(id: Identity, w: World, now: int) returns (pre: seq<Step>, a: seq<Step>, y: World)
    requires Sensible(id, w)
    ensures Plan(id, w, now) == pre + a && a == AclPart(id, w.server.acls) && ExecAll(w, pre) == Some(y)
    ensures y.server.acls == w.server.acls && AuthExists(y.server, id.UserId()) && AuthExists(y.server, id.TokenId())
  {
    hide *;
    var n, u := NsPart(id, w.server.namespaces), UserPart(id, UserOf(id, w.server), now);
    var t := TokenPart(id, UserOf(id, w.server), w.held, now);
    a := AclPart(id, w.server.acls);
    pre := n + u + t;
    var x := AfterUser(id, w, now);
    y := AfterToken(id, w, x, now, true);
    InParts(id, w, now);
    assert pre + a == (n + u) + (t + a);
    ExecOne(x, t, y);
    ExecConcat(w, n + u, t);
    AuthsThere(id, w, y, now);
    AclsUntouched(id, w, y, now);
  }

  lemma AclsUntouched(id: Identity, w: World, y: World, now: int)
    requires TokenDone(id, w, y, now)
    ensures y.server.acls == w.server.acls
  {
  }

  lemma RevokesStray(id: Identity, b: Acl)
    requires Stray(id, b)
    ensures Revokes(id, [b]) == [RevokeStep(b)]
  {
    assert [b][1..] == [];
  }

  lemma {:induction false} DropsWhatIsSet(acls: seq<Acl>, e: Acl)
    ensures DropAcl(SetAcl(acls, e), Key(e)) == DropAcl(acls, Key(e))
  {
    if acls != [] {
      DropsWhatIsSet(acls[1..], e);
      var r := SetAcl(acls, e);
      assert r[1..] == if Key(acls[0]) == Key(e) then acls[1..] else SetAcl(acls[1..], e);
    } else {
      assert SetAcl(acls, e)[1..] == [];
    }
  }

  /** What is planned does not depend on the ACL file's digest. */
  lemma SamePlan(id: Identity, v: World, w: World, now: int)
    requires w == v.(server := v.server.(digest := w.server.digest))
    ensures Plan(id, w, now) == Plan(id, v, now)
  {
    hide NsPart, UserPart, TokenPart, AclPart;
  }
}
