/** The ACL steps of an enrolment: grants and revokes, and how a run of them resumes. */
module AclSteps {
  import opened Wrappers
  import opened Enroll

  function WithAcls(w: World, acls: seq<Acl>, digest: nat): World {
    w.(server := w.server.(acls := acls, digest := digest))
  }

  lemma {:induction false} SetExactly(acls: seq<Acl>, e: Acl)
    requires OneEach(acls)
    ensures OneEach(SetAcl(acls, e))
    ensures forall x :: x in SetAcl(acls, e) <==> x == e || (x in acls && Key(x) != Key(e))
  {
    if acls != [] {
      SetExactly(acls[1..], e);
      assert acls == [acls[0]] + acls[1..];
      var r := SetAcl(acls, e);
      if Key(acls[0]) == Key(e) {
        assert forall i :: 1 <= i < |acls| ==> Key(acls[i]) != Key(acls[0]);
        assert forall x :: x in acls[1..] ==> Key(x) != Key(e);
      } else {
        assert forall x :: x in acls[1..] ==> Key(x) != Key(acls[0]);
        forall i | 1 <= i < |r| ensures Key(r[0]) != Key(r[i]) {
          assert r[i] == SetAcl(acls[1..], e)[i - 1] && r[i] in SetAcl(acls[1..], e);
        }
      }
    }
  }

  lemma {:induction false} DropExactly(acls: seq<Acl>, k: (string, string, string, string))
    requires OneEach(acls)
    ensures OneEach(DropAcl(acls, k))
    ensures forall x :: x in DropAcl(acls, k) <==> x in acls && Key(x) != k
  {
    hide Key;
    if acls != [] {
      DropExactly(acls[1..], k);
      assert acls == [acls[0]] + acls[1..];
      assert forall x :: x in acls[1..] ==> Key(x) != Key(acls[0]);
      var r := DropAcl(acls, k);
      if Key(acls[0]) != k {
        forall i | 1 <= i < |r| ensures Key(r[0]) != Key(r[i]) {
          assert r[i] == DropAcl(acls[1..], k)[i - 1] && r[i] in DropAcl(acls[1..], k);
        }
      }
    }
  }

  function GrantEntry(id: Identity, g: (string, string)): Acl {
    Acl(id.AclPath(), g.0, "user", g.1, true)
  }

  ghost predicate DistinctPairs(wanted: seq<(string, string)>) {
    forall i, j :: 0 <= i < j < |wanted| ==> wanted[i] != wanted[j]
  }

  lemma WantedIsPlain(id: Identity)
    ensures DistinctPairs(Wanted(id)) && forall g :: g in Wanted(id) ==> g.0 in id.AuthIds() && g.1 in ROLES
  {
    assert |id.TokenId()| > |id.UserId()|;
    assert ROLES[0][9] == 'B' && ROLES[1][9] == 'P';
  }

  /** Granting one pair leaves the plan for the others alone. */
  lemma {:induction false} GrantsElsewhere(
      id: Identity, acls: seq<Acl>, g: (string, string), wanted: seq<(string, string)>)
    requires OneEach(acls) && g !in wanted
    ensures Grants(id, SetAcl(acls, GrantEntry(id, g)), wanted) == Grants(id, acls, wanted)
    decreases |wanted|
  {
    if wanted != [] {
      SetExactly(acls, GrantEntry(id, g));
      GrantsElsewhere(id, acls, g, wanted[1..]);
      assert wanted[0] in wanted;
    }
  }

  /** A grant is in scope, so it adds nothing to revoke. */
  lemma {:induction false} RevokesIgnoreGrants(id: Identity, acls: seq<Acl>, e: Acl)
    requires OneEach(acls) && InScope(id, e)
    ensures Revokes(id, SetAcl(acls, e)) == Revokes(id, acls)
  {
    if acls != [] {
      RevokesIgnoreGrants(id, acls[1..], e);
      if Key(acls[0]) == Key(e) {
        SameScope(id, acls[0], e);
        assert SetAcl(acls, e)[1..] == acls[1..];
      } else {
        assert SetAcl(acls, e)[1..] == SetAcl(acls[1..], e);
      }
    } else {
      assert SetAcl(acls, e)[1..] == [];
    }
  }

  lemma SameScope(id: Identity, a: Acl, b: Acl)
    requires Key(a) == Key(b)
    ensures InScope(id, a) == InScope(id, b) && Owns(id, a) == Owns(id, b)
  {
  }

  /** What grants leave: the wanted entries are there and every other one is as it was. */
  ghost predicate OnlyGranted(id: Identity, before: seq<Acl>, after: seq<Acl>) {
    && (forall x :: x in before && !(Owns(id, x) && x.path == id.AclPath()) ==> x in after)
    && (forall x :: x in after && !(Owns(id, x) && x.path == id.AclPath()) ==> x in before)
    && (forall x :: x in before && x.propagate ==> x in after)
  }

  ghost predicate CanGrant(id: Identity, s: Server, wanted: seq<(string, string)>) {
    && OneEach(s.acls) && DistinctPairs(wanted)
    && forall g :: g in wanted ==> AuthExists(s, g.0) && g.0 in id.AuthIds() && g.1 in ROLES
  }

  /** The first `k` grants of a plan land, and planning again gives the rest. */
  lemma {:induction false} GrantsResume(id: Identity, w: World, wanted: seq<(string, string)>, k: nat)
    returns (v: World)
    requires ValidIdentity(id) && CanGrant(id, w.server, wanted) && k <= |Grants(id, w.server.acls, wanted)|
    ensures ExecAll(w, Grants(id, w.server.acls, wanted)[..k]) == Some(v)
    ensures v == WithAcls(w, v.server.acls, v.server.digest) && CanGrant(id, v.server, wanted)
    ensures Grants(id, v.server.acls, wanted) == Grants(id, w.server.acls, wanted)[k..]
    ensures Revokes(id, v.server.acls) == Revokes(id, w.server.acls) && OnlyGranted(id, w.server.acls, v.server.acls)
    decreases |wanted|
  {
    var acls := w.server.acls;
    var all := Grants(id, acls, wanted);
    hide CanGrant, OnlyGranted, Revokes, SetAcl, Granted, GrantStep, Serve, ExecAll;
    if wanted == [] || k == 0 {
      NoGrants(id, w);
      assert all[..k] == [] && all[0..] == all;
      return w;
    }
    var g, rest := wanted[0], wanted[1..];
    CanGrantEach(id, w.server, wanted);
    CanGrantRest(id, w.server, w.server.acls, wanted);
    if Granted(id, acls, g.0, g.1) {
      assert all == [] + Grants(id, acls, rest) == Grants(id, acls, rest);
      v := GrantsResume(id, w, rest, k);
      StaysGranted(id, acls, v.server.acls, g);
      assert Grants(id, v.server.acls, wanted) == [] + Grants(id, v.server.acls, rest);
      CanGrantAll(id, w.server, v.server.acls, v.server.digest, wanted);
    } else {
      var step := GrantStep(id, g.0, g.1);
      var m := GrantOne(id, w, g);
      CanGrantRest(id, w.server, m.server.acls, wanted);
      GrantsElsewhere(id, acls, g, rest);
      var more := Grants(id, acls, rest);
      assert all == [step] + more;
      assert all[..k] == [step] + more[..k - 1] && all[k..] == more[k - 1..];
      v := GrantsResume(id, m, rest, k - 1);
      OneThen(w, m, step, more[..k - 1]);
      IsGranted(id, m.server.acls, g);
      StaysGranted(id, m.server.acls, v.server.acls, g);
      assert Grants(id, v.server.acls, wanted) == [] + Grants(id, v.server.acls, rest);
      BothGranted(id, acls, m.server.acls, v.server.acls);
      CanGrantAll(id, w.server, v.server.acls, v.server.digest, wanted);
    }
  }

  lemma NoGrants(id: Identity, w: World)
    ensures OnlyGranted(id, w.server.acls, w.server.acls) && ExecAll(w, []) == Some(w)
  {
  }

  lemma OneThen(w: World, m: World, s: Step, rest: seq<Step>)
    requires Exec(w, s, true) == Some(m)
    ensures ExecAll(w, [s] + rest) == ExecAll(m, rest)
  {
    assert ([s] + rest)[1..] == rest;
  }

  lemma IsGranted(id: Identity, acls: seq<Acl>, g: (string, string))
    requires GrantEntry(id, g) in acls
    ensures Granted(id, acls, g.0, g.1)
  {
  }

  lemma StaysGranted(id: Identity, before: seq<Acl>, after: seq<Acl>, g: (string, string))
    requires Granted(id, before, g.0, g.1) && OnlyGranted(id, before, after)
    ensures Granted(id, after, g.0, g.1)
  {
  }

  lemma CanGrantEach(id: Identity, s: Server, wanted: seq<(string, string)>)
    requires CanGrant(id, s, wanted)
    ensures OneEach(s.acls)
  {
  }

  lemma CanGrantRest(id: Identity, s: Server, acls: seq<Acl>, wanted: seq<(string, string)>)
    requires CanGrant(id, s, wanted) && wanted != [] && OneEach(acls)
    ensures CanGrant(id, s.(acls := acls), wanted[1..]) &&
      CanGrant(id, s.(acls := acls, digest := s.digest + 1), wanted[1..])
    ensures wanted[0] !in wanted[1..] && OneEach(s.acls)
    ensures var g := wanted[0]; AuthExists(s, g.0) && g.0 in id.AuthIds() && g.1 in ROLES
  {
    assert wanted == [wanted[0]] + wanted[1..];
    assert wanted[0] in wanted;
  }

  lemma CanGrantAll(id: Identity, s: Server, acls: seq<Acl>, digest: nat, wanted: seq<(string, string)>)
    requires CanGrant(id, s, wanted) && wanted != [] && CanGrant(id, s.(acls := acls, digest := digest), wanted[1..])
    ensures CanGrant(id, s.(acls := acls, digest := digest), wanted)
  {
    hide OneEach;
  }

  lemma BothGranted(id: Identity, a: seq<Acl>, b: seq<Acl>, c: seq<Acl>)
    requires OnlyGranted(id, a, b) && OnlyGranted(id, b, c)
    ensures OnlyGranted(id, a, c)
  {
    hide Owns;
  }

  lemma GrantOne(id: Identity, w: World, g: (string, string)) returns (m: World)
    requires ValidIdentity(id) && OneEach(w.server.acls) && AuthExists(w.server, g.0) && g.0 in id.AuthIds() &&
      g.1 in ROLES
    ensures Exec(w, GrantStep(id, g.0, g.1), true) == Some(m)
    ensures m == WithAcls(w, SetAcl(w.server.acls, GrantEntry(id, g)), w.server.digest + 1)
    ensures OneEach(m.server.acls) && GrantEntry(id, g) in m.server.acls
    ensures Revokes(id, m.server.acls) == Revokes(id, w.server.acls) && OnlyGranted(id, w.server.acls, m.server.acls)
  {
    var e := GrantEntry(id, g);
    m := Exec(w, GrantStep(id, g.0, g.1), true).value;
    SetExactly(w.server.acls, e);
    GrantsAreInScope(id, e);
    RevokesIgnoreGrants(id, w.server.acls, e);
    hide InScope;
    assert Owns(id, e) && e.path == id.AclPath();
    SameKeySameEntry(w.server.acls, e);
  }

  lemma SameKeySameEntry(acls: seq<Acl>, e: Acl)
    ensures forall x :: x in acls && Key(x) == Key(e) && x.propagate == e.propagate ==> x == e
  {
  }

  /** The first entry to revoke goes, and the rest of the revokes stay planned. */
  lemma {:induction false} FirstStray(id: Identity, acls: seq<Acl>) returns (e: Acl)
    requires OneEach(acls) && Revokes(id, acls) != []
    ensures e in acls && Stray(id, e) && Revokes(id, acls)[0] == RevokeStep(e)
    ensures Revokes(id, DropAcl(acls, Key(e))) == Revokes(id, acls)[1..]
  {
    var tail := acls[1..];
    assert acls == [acls[0]] + tail;
    assert forall x :: x in tail ==> Key(x) != Key(acls[0]);
    if Stray(id, acls[0]) {
      e := acls[0];
      DropNothing(tail, Key(e));
      assert Revokes(id, acls) == [RevokeStep(e)] + Revokes(id, tail);
      assert DropAcl(acls, Key(e)) == tail;
    } else {
      assert Revokes(id, acls) == Revokes(id, tail);
      e := FirstStray(id, tail);
      var d := DropAcl(acls, Key(e));
      assert d == [acls[0]] + DropAcl(tail, Key(e));
      assert d[0] == acls[0] && d[1..] == DropAcl(tail, Key(e));
    }
  }

  lemma {:induction false} DropNothing(acls: seq<Acl>, k: (string, string, string, string))
    requires forall x :: x in acls ==> Key(x) != k
    ensures DropAcl(acls, k) == acls
  {
    if acls != [] {
      assert acls == [acls[0]] + acls[1..];
      DropNothing(acls[1..], k);
    }
  }

  /** What revokes leave: only strays are gone. */
  ghost predicate OnlyRevoked(id: Identity, before: seq<Acl>, after: seq<Acl>) {
    && (forall x :: x in after ==> x in before)
    && (forall x :: x in before && !Stray(id, x) ==> x in after)
  }

  lemma {:induction false} RevokesResume(id: Identity, w: World, k: nat) returns (v: World)
    requires OneEach(w.server.acls) && k <= |Revokes(id, w.server.acls)|
    ensures ExecAll(w, Revokes(id, w.server.acls)[..k]) == Some(v)
    ensures v == WithAcls(w, v.server.acls, v.server.digest) && OneEach(v.server.acls)
    ensures Revokes(id, v.server.acls) == Revokes(id, w.server.acls)[k..] &&
      OnlyRevoked(id, w.server.acls, v.server.acls)
    decreases k
  {
    var all := Revokes(id, w.server.acls);
    hide Stray, Serve, DropAcl, Revokes, OneEach, RevokeStep, OnlyRevoked, ExecAll, Exec, Key;
    if k == 0 {
      NoneRevoked(id, w);
      assert all[..0] == [] && all[0..] == all;
      return w;
    }
    var e := FirstStray(id, w.server.acls);
    var m := WithAcls(w, DropAcl(w.server.acls, Key(e)), w.server.digest + 1);
    RevokeOne(id, w, e);
    assert all[..k] == [RevokeStep(e)] + all[1..][..k - 1] && all[k..] == all[1..][k - 1..];
    v := RevokesResume(id, m, k - 1);
    OneThen(w, m, RevokeStep(e), all[1..][..k - 1]);
    BothRevoked(id, w.server.acls, m.server.acls, v.server.acls);
  }

  lemma NoneRevoked(id: Identity, w: World)
    ensures OnlyRevoked(id, w.server.acls, w.server.acls) && ExecAll(w, []) == Some(w)
  {
  }

  lemma BothRevoked(id: Identity, a: seq<Acl>, b: seq<Acl>, c: seq<Acl>)
    requires OnlyRevoked(id, a, b) && OnlyRevoked(id, b, c)
    ensures OnlyRevoked(id, a, c)
  {
    hide Stray;
  }

  lemma RevokeOne(id: Identity, w: World, e: Acl)
    requires OneEach(w.server.acls) && e in w.server.acls && Stray(id, e)
    ensures var m := WithAcls(w, DropAcl(w.server.acls, Key(e)), w.server.digest + 1);
      && Exec(w, RevokeStep(e), true) == Some(m) && OneEach(m.server.acls) &&
        OnlyRevoked(id, w.server.acls, m.server.acls)
  {
    DropExactly(w.server.acls, Key(e));
    KeyedOnce(w.server.acls, e);
  }

  lemma KeyedOnce(acls: seq<Acl>, e: Acl)
    requires OneEach(acls) && e in acls
    ensures forall x :: x in acls && Key(x) == Key(e) ==> x == e
  {
    var i :| 0 <= i < |acls| && acls[i] == e;
    forall x | x in acls && Key(x) == Key(e) ensures x == e {
      var j :| 0 <= j < |acls| && acls[j] == x;
      assert i == j;
    }
  }

  /** Revoking strays takes no grant away. */
  lemma {:induction false} GrantsKept(id: Identity, before: seq<Acl>, after: seq<Acl>, wanted: seq<(string, string)>)
    requires ValidIdentity(id) && OnlyRevoked(id, before, after) && (forall g :: g in wanted ==> g.1 in ROLES)
    requires Grants(id, before, wanted) == []
    ensures Grants(id, after, wanted) == []
    decreases |wanted|
  {
    if wanted != [] {
      var g := wanted[0];
      assert g in wanted;
      GrantsAreInScope(id, GrantEntry(id, g));
      assert Granted(id, before, g.0, g.1);
      assert Grants(id, before, wanted) == [] + Grants(id, before, wanted[1..]);
      GrantsKept(id, before, after, wanted[1..]);
    }
  }

  /** The first `k` ACL steps of a plan land, and planning again gives the rest. */
  lemma AclResumes(id: Identity, w: World, k: nat) returns (v: World)
    requires ValidIdentity(id) && OneEach(w.server.acls) && k <= |AclPart(id, w.server.acls)|
    requires AuthExists(w.server, id.UserId()) && AuthExists(w.server, id.TokenId())
    ensures ExecAll(w, AclPart(id, w.server.acls)[..k]) == Some(v)
    ensures v == WithAcls(w, v.server.acls, v.server.digest) && OneEach(v.server.acls)
    ensures AclPart(id, v.server.acls) == AclPart(id, w.server.acls)[k..]
    ensures forall x :: !Owns(id, x) ==> (x in v.server.acls <==> x in w.server.acls)
    ensures forall x :: x in w.server.acls && InScope(id, x) && x.propagate ==> x in v.server.acls
  {
    WantedIsPlain(id);
    var gs, rs := Grants(id, w.server.acls, Wanted(id)), Revokes(id, w.server.acls);
    hide InScope, Owns, Grants, Revokes, Wanted;
    if k <= |gs| {
      v := GrantsResume(id, w, Wanted(id), k);
      assert (gs + rs)[..k] == gs[..k] && (gs + rs)[k..] == gs[k..] + rs;
    } else {
      var m := GrantsResume(id, w, Wanted(id), |gs|);
      assert gs[..|gs|] == gs && gs[|gs|..] == [];
      v := RevokesResume(id, m, k - |gs|);
      GrantsKept(id, m.server.acls, v.server.acls, Wanted(id));
      assert (gs + rs)[..k] == gs + rs[..k - |gs|] && (gs + rs)[k..] == [] + rs[k - |gs|..];
      ExecConcat(w, gs, rs[..k - |gs|]);
    }
  }
}
