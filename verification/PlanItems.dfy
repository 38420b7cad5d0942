/** The items of an enrolment plan: what a caller reads, and echoes to confirm one step of it. */
module PlanItems {
  import opened Wrappers
  import opened Namespaces
  import opened Enroll
  import opened AclSteps
  import opened EnrollTheorem
  import Plans

  /** The comment that marks a user as this host's. */
  ghost predicate MarksHost(id: Identity, comment: string) {
    comment == "orca: backup client for " + id.host
  }

  /**
    The item says what the call does; a comment marks this host's user, and a
    response that carries a secret is marked as one.
  */
  ghost predicate Tells(id: Identity, s: Step) {
    && s.sensitive == (s.call.CreateToken? || (s.call.UpdateToken? && s.call.regenerate))
    && var item := s.action + " " + s.target;
      match s.call
      case CreateNs(parent, name) =>
        item == "create-namespace " + id.datastore + ":" + if parent == "" then name else parent + "/" + name
      case CreateUser(u, comment) => item == "create-user user:" + u && MarksHost(id, comment)
      case UpdateUser(u, note, _) => item == "update-user user:" + u && (note.Some? ==> MarksHost(id, note.value))
      case CreateToken(_, t) => item == "create-token token:" + t
      case UpdateToken(_, t, regenerate, _) =>
        item == (if regenerate then "regenerate-token token:" else "enable-token token:") + t
      case PutAcl(path, role, auth, delete, _) =>
        item == (if delete then "revoke-" else "grant-") + role + " acl:" + auth + ":" + path + ":" + role
  }

  lemma NsTells(id: Identity, c: (string, string))
    ensures Tells(id, NsStep(id, c))
  {
    var full := if c.0 == "" then c.1 else c.0 + "/" + c.1;
    assert "create-namespace" + " " == "create-namespace ";
    assert "create-namespace " + (id.datastore + ":" + full) == "create-namespace " + id.datastore + ":" + full;
  }

  lemma UserTells(id: Identity, user: Option<User>, now: int)
    ensures forall s :: s in UserPart(id, user, now) ==> Tells(id, s) && (s.call.CreateUser? || s.call.UpdateUser?)
    ensures |UserPart(id, user, now)| <= 1
  {
    var u := id.UserId();
    assert MARKER + " " == "orca: backup client for ";
    assert "create-user" + " " + ("user:" + u) == "create-user user:" + u;
    assert "update-user" + " " + ("user:" + u) == "update-user user:" + u;
  }

  lemma TokenTells(id: Identity, user: Option<User>, held: Option<nat>, now: int)
    ensures forall s :: s in TokenPart(id, user, held, now) ==>
      Tells(id, s) && (s.call.CreateToken? || s.call.UpdateToken?)
    ensures |TokenPart(id, user, held, now)| <= 1
  {
    hide SecretOf, Rotates, TokenActive;
    var t := id.TokenId();
    assert "create-token" + " " + ("token:" + t) == "create-token token:" + t;
    assert "regenerate-token" + " " + ("token:" + t) == "regenerate-token token:" + t;
    assert "enable-token" + " " + ("token:" + t) == "enable-token token:" + t;
  }

  lemma AclText(verb: string, role: string, auth: string, path: string)
    ensures verb + role + " " + ("acl:" + auth + ":" + path + ":" + role)
        == verb + role + " acl:" + auth + ":" + path + ":" + role
  {
    var rest := auth + ":" + path + ":" + role;
    assert "acl:" + auth + ":" + path + ":" + role == "acl:" + rest;
    assert " " + ("acl:" + rest) == " acl:" + rest;
    assert verb + role + " " + ("acl:" + rest) == verb + role + (" " + ("acl:" + rest));
    assert verb + role + " acl:" + auth + ":" + path + ":" + role == verb + role + (" acl:" + rest);
  }

  /** A grant of a wanted pair. */
  lemma {:induction false} GrantsTell(id: Identity, acls: seq<Acl>, wanted: seq<(string, string)>)
    ensures forall s :: s in Grants(id, acls, wanted) ==>
      Tells(id, s) && exists g :: g in wanted && s.call == PutAcl(id.AclPath(), g.1, g.0, false, None)
  {
    if wanted != [] {
      GrantsTell(id, acls, wanted[1..]);
      assert wanted == [wanted[0]] + wanted[1..];
      AclText("grant-", wanted[0].1, wanted[0].0, id.AclPath());
    }
  }

  lemma {:induction false} RevokesTell(id: Identity, acls: seq<Acl>)
    ensures forall s :: s in Revokes(id, acls) ==>
      Tells(id, s) && exists e :: e in acls && Owns(id, e) && s.call == PutAcl(e.path, e.role, e.ugid, true, None)
  {
    if acls != [] {
      RevokesTell(id, acls[1..]);
      assert acls == [acls[0]] + acls[1..];
      AclText("revoke-", acls[0].role, acls[0].ugid, acls[0].path);
    }
  }

  /** Each item of a plan says what its step does. */
  lemma PlanTells(id: Identity, w: World, now: int)
    ensures forall s :: s in Plan(id, w, now) ==> Tells(id, s)
  {
    hide Tells, UserPart, TokenPart, Grants, Revokes, Chain;
    var chain := Chain(w.server.namespaces, "", Parts(id.Ns()));
    forall i | 0 <= i < |chain| ensures Tells(id, NsSteps(id, chain)[i]) {
      NsTells(id, chain[i]);
    }
    UserTells(id, UserOf(id, w.server), now);
    TokenTells(id, UserOf(id, w.server), w.held, now);
    GrantsTell(id, w.server.acls, Wanted(id));
    RevokesTell(id, w.server.acls);
  }

  /** The two calls are about the same thing, to the same end. */
  ghost predicate SameEnd(a: Call, b: Call) {
    || (a.CreateNs? && b.CreateNs? && Full(a.parent, a.name) == Full(b.parent, b.name))
    || ((a.CreateUser? || a.UpdateUser?) && (b.CreateUser? || b.UpdateUser?))
    || ((a.CreateToken? || a.UpdateToken?) && (b.CreateToken? || b.UpdateToken?))
    || (a.PutAcl? && b.PutAcl? && a.path == b.path && a.role == b.role && a.authId == b.authId && a.delete == b.delete)
  }

  /** An ACL call for one of this host's ids, and a role whose name holds no space. */
  ghost predicate Plain(id: Identity, c: Call) {
    c.PutAcl? ==> c.authId in id.AuthIds() && ' ' !in c.role
  }

  lemma SamePrefix(p: string, a: string, b: string)
    requires p + a == p + b
    ensures a == b
  {
    assert (p + a)[|p|..] == a && (p + b)[|p|..] == b;
  }

  lemma {:induction false} FirstSpace(a: string, x: string, b: string, y: string)
    requires ' ' !in a && ' ' !in b && a + " " + x == b + " " + y
    ensures a == b && x == y
    decreases |a|
  {
    var s, t := a + " " + x, b + " " + y;
    assert s[0] == (if a == "" then ' ' else a[0]) && t[0] == (if b == "" then ' ' else b[0]);
    if a == "" || b == "" {
      assert s[1..] == x && t[1..] == y;
    } else {
      assert s[1..] == a[1..] + " " + x && t[1..] == b[1..] + " " + y;
      FirstSpace(a[1..], x, b[1..], y);
      assert a == [a[0]] + a[1..] && b == [b[0]] + b[1..];
    }
  }

  /** Equal ACL items are about one entry: the role is read off the verb, and the id is one of two. */
  lemma SameAclItem(
      id: Identity, verb: string, role: string, auth: string, path: string, role': string, auth': string, path': string)
    requires auth in id.AuthIds() && auth' in id.AuthIds() && ' ' !in role && ' ' !in role'
    requires verb + role + " acl:" + auth + ":" + path + ":" + role
      == verb + role' + " acl:" + auth' + ":" + path' + ":" + role'
    ensures role == role' && auth == auth' && path == path'
  {
    AclCut(verb, role, auth, path);
    AclCut(verb, role', auth', path');
    var x, y := "acl:" + (auth + ":" + (path + ":" + role)), "acl:" + (auth' + ":" + (path' + ":" + role'));
    SamePrefix(verb, role + " " + x, role' + " " + y);
    FirstSpace(role, x, role', y);
    SamePrefix("acl:", auth + ":" + (path + ":" + role), auth' + ":" + (path' + ":" + role));
    SameAuth(id, auth, path + ":" + role, auth', path' + ":" + role);
    assert path + ":" + role == path + (":" + role) && path' + ":" + role == path' + (":" + role);
    SameSuffix(path, path', ":" + role);
  }

  lemma AclCut(verb: string, role: string, auth: string, path: string)
    ensures verb + role + " acl:" + auth + ":" + path + ":" + role
        == verb + (role + " " + ("acl:" + (auth + ":" + (path + ":" + role))))
  {
    var rest := auth + ":" + (path + ":" + role);
    assert " acl:" == " " + "acl:";
    assert verb + role + " acl:" + auth + ":" + path + ":" + role == verb + role + " acl:" + rest;
    assert verb + role + " acl:" + rest == verb + (role + " " + ("acl:" + rest));
  }

  lemma SameSuffix(a: string, b: string, z: string)
    requires a + z == b + z
    ensures a == b
  {
    assert |a + z| == |b + z|;
    assert (a + z)[..|a|] == a && (b + z)[..|a|] == b;
  }

  lemma SameAuth(id: Identity, auth: string, x: string, auth': string, y: string)
    requires auth in id.AuthIds() && auth' in id.AuthIds() && auth + ":" + x == auth' + ":" + y
    ensures auth == auth' && x == y
  {
    var u := id.UserId();
    assert id.TokenId() == u + "!backup";
    var s, t := auth + ":" + x, auth' + ":" + y;
    assert s[|u|] == (if auth == u then ':' else '!') && t[|u|] == if auth' == u then ':' else '!';
    SamePrefix(auth + ":", x, y);
  }

  /** Which kind of step an item is of, read off its first letters. */
  function KindOf(item: string): int
    requires |item| >= 8
  {
    if item[0] == 'g' then 0 else if item[0] == 'r' && item[2] == 'v' then 1
    else if item[7] == 'n' then 2 else if item[7] == 'u' then 3 else 4
  }

  lemma KindShows(id: Identity, s: Step)
    requires Tells(id, s)
    ensures |Plans.Item(s)| >= 8
    ensures KindOf(Plans.Item(s)) ==
      match s.call
      case PutAcl(_, _, _, delete, _) => if delete then 1 else 0
      case CreateNs(_, _) => 2
      case CreateUser(_, _) => 3
      case UpdateUser(_, _, _) => 3
      case CreateToken(_, _) => 4
      case UpdateToken(_, _, _, _) => 4
  {
  }

  /** One item, one end: what is confirmed by an item is told by the item alone. */
  lemma ItemNamesEnd(id: Identity, s: Step, t: Step)
    requires Tells(id, s) && Tells(id, t) && Plain(id, s.call) && Plain(id, t.call)
    requires Plans.Item(s) == Plans.Item(t)
    ensures SameEnd(s.call, t.call)
  {
    KindShows(id, s);
    KindShows(id, t);
    hide KindOf;
    if s.call.PutAcl? {
      var verb := if s.call.delete then "revoke-" else "grant-";
      SameAclItem(id, verb, s.call.role, s.call.authId, s.call.path, t.call.role, t.call.authId, t.call.path);
    } else if s.call.CreateNs? {
      var p := "create-namespace " + id.datastore + ":";
      SamePrefix(p, Full(s.call.parent, s.call.name), Full(t.call.parent, t.call.name));
    }
  }

  ghost predicate Apart(steps: seq<Step>) {
    forall i, j :: 0 <= i < j < |steps| ==> !SameEnd(steps[i].call, steps[j].call)
  }

  lemma ApartJoined(a: seq<Step>, b: seq<Step>)
    requires Apart(a) && Apart(b) && forall s, t :: s in a && t in b ==> !SameEnd(s.call, t.call)
    ensures Apart(a + b)
  {
    hide SameEnd;
    forall i, j | 0 <= i < j < |a + b| ensures !SameEnd((a + b)[i].call, (a + b)[j].call) {
      assert i < |a| ==> a[i] in a;
      assert j >= |a| ==> b[j - |a|] in b;
    }
  }

  lemma {:induction false} ChainApart(id: Identity, existing: set<string>, parent: string, parts: seq<string>)
    requires NonEmpty(parts)
    ensures Apart(NsSteps(id, Chain(existing, parent, parts)))
    ensures forall c :: c in Chain(existing, parent, parts) ==> |Full(c.0, c.1)| > |parent|
    decreases |parts|
  {
    if parts != [] {
      var full := Full(parent, parts[0]);
      var rest := Chain(existing, full, parts[1..]);
      ChainApart(id, existing, full, parts[1..]);
      if full !in existing {
        var first := [(parent, parts[0])];
        assert NsSteps(id, first + rest) == NsSteps(id, first) + NsSteps(id, rest);
        ApartJoined(NsSteps(id, first), NsSteps(id, rest));
      } else {
        assert [] + rest == rest;
      }
    }
  }

  lemma {:induction false} GrantsApart(id: Identity, acls: seq<Acl>, wanted: seq<(string, string)>)
    requires DistinctPairs(wanted)
    ensures Apart(Grants(id, acls, wanted))
  {
    if wanted != [] {
      var rest := Grants(id, acls, wanted[1..]);
      GrantsApart(id, acls, wanted[1..]);
      GrantsTell(id, acls, wanted[1..]);
      if !Granted(id, acls, wanted[0].0, wanted[0].1) {
        ApartJoined([GrantStep(id, wanted[0].0, wanted[0].1)], rest);
      } else {
        assert [] + rest == rest;
      }
    }
  }

  lemma {:induction false} RevokesApart(id: Identity, acls: seq<Acl>)
    requires OneEach(acls)
    ensures Apart(Revokes(id, acls))
  {
    if acls != [] {
      var rest := Revokes(id, acls[1..]);
      RevokesApart(id, acls[1..]);
      RevokesTell(id, acls[1..]);
      if Stray(id, acls[0]) {
        ApartJoined([RevokeStep(acls[0])], rest);
      } else {
        assert [] + rest == rest;
      }
    }
  }

  /**
    No two steps of a plan have the same item, so an echoed item confirms one
    step and no other.
  */
  lemma ItemsAreUnique(id: Identity, w: World, now: int)
    requires OneEach(w.server.acls) && forall e :: e in w.server.acls ==> ' ' !in e.role
    ensures var steps := Plan(id, w, now);
      forall i, j :: 0 <= i < j < |steps| ==> Plans.Item(steps[i]) != Plans.Item(steps[j])
  {
    var steps := Plan(id, w, now);
    PlanTells(id, w, now);
    PlanIsPlain(id, w, now);
    PlanApart(id, w, now);
    hide Plan, Tells, Plain, SameEnd, Plans.Item;
    forall i, j | 0 <= i < j < |steps| ensures Plans.Item(steps[i]) != Plans.Item(steps[j]) {
      assert steps[i] in steps && steps[j] in steps;
      if Plans.Item(steps[i]) == Plans.Item(steps[j]) {
        ItemNamesEnd(id, steps[i], steps[j]);
      }
    }
  }

  lemma PlanIsPlain(id: Identity, w: World, now: int)
    requires forall e :: e in w.server.acls ==> ' ' !in e.role
    ensures forall s :: s in Plan(id, w, now) ==> Plain(id, s.call)
  {
    hide Tells, UserPart, TokenPart, Grants, Revokes, Chain;
    UserTells(id, UserOf(id, w.server), now);
    TokenTells(id, UserOf(id, w.server), w.held, now);
    GrantsTell(id, w.server.acls, Wanted(id));
    RevokesTell(id, w.server.acls);
    WantedIsPlain(id);
  }

  lemma PlanApart(id: Identity, w: World, now: int)
    requires OneEach(w.server.acls)
    ensures Apart(Plan(id, w, now))
  {
    hide Tells, UserPart, TokenPart, Grants, Revokes, Chain, Apart, OneEach, Parts, NonEmpty;
    var ns := NsPart(id, w.server.namespaces);
    var user, token := UserPart(id, UserOf(id, w.server), now), TokenPart(id, UserOf(id, w.server), w.held, now);
    var grants, revokes := Grants(id, w.server.acls, Wanted(id)), Revokes(id, w.server.acls);
    UserTells(id, UserOf(id, w.server), now);
    TokenTells(id, UserOf(id, w.server), w.held, now);
    GrantsTell(id, w.server.acls, Wanted(id));
    RevokesTell(id, w.server.acls);
    WantedIsPlain(id);
    PartsAreNotEmpty(id.Ns());
    ChainApart(id, w.server.namespaces, "", Parts(id.Ns()));
    GrantsApart(id, w.server.acls, Wanted(id));
    RevokesApart(id, w.server.acls);
    AtMostOne(user);
    AtMostOne(token);
    ApartJoined(grants, revokes);
    ApartJoined(ns, user);
    ApartJoined(ns + user, token);
    ApartJoined(ns + user + token, grants + revokes);
  }

  lemma PartsAreNotEmpty(ns: string)
    ensures NonEmpty(Parts(ns))
  {
    PartsNotEmpty("", ns);
  }

  lemma AtMostOne(steps: seq<Step>)
    requires |steps| <= 1
    ensures Apart(steps)
  {
  }
}
