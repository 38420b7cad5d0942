/** The guarantees of an enrolment, over whole plans. */
module EnrollTheorem {
  import opened Wrappers
  import opened Namespaces
  import opened Enroll
  import Plans
  import opened Converge
  import opened AclSteps

  /** Nothing but the host's own namespace, user, token and ACL entries differs. */
  ghost predicate OnlyHost(id: Identity, w: World, v: World) {
    && w.server.namespaces <= v.server.namespaces
    && (forall n :: n in v.server.namespaces ==> n in w.server.namespaces || n in Prefixes("", Parts(id.Ns())))
    && (forall u :: u != id.UserId() ==> (u in v.server.users <==> u in w.server.users))
    && (forall u :: u != id.UserId() && u in w.server.users ==> v.server.users[u] == w.server.users[u])
    && (id.UserId() in w.server.users ==>
      id.UserId() in v.server.users && SameTokens(id, w.server.users[id.UserId()], v.server.users[id.UserId()]))
    && (forall x :: !Owns(id, x) ==> (x in v.server.acls <==> x in w.server.acls))
  }

  /** Its other tokens are as they were. */
  ghost predicate SameTokens(id: Identity, u: User, v: User) {
    forall t :: t != id.TokenId() ==>
      (t in v.tokens <==> t in u.tokens) && (t in u.tokens ==> v.tokens[t] == u.tokens[t])
  }

  lemma OnlyHostThen(id: Identity, a: World, b: World, c: World)
    requires OnlyHost(id, a, b) && OnlyHost(id, b, c)
    ensures OnlyHost(id, a, c)
  {
    hide Owns, Prefixes, Parts;
  }

  /** The user step is done: what is left of the plan is its token and ACL steps. */
  ghost predicate UserDone(id: Identity, w: World, x: World, now: int) {
    && NsPart(id, x.server.namespaces) == [] && UserPart(id, UserOf(id, x.server), now) == []
    && UserOf(id, x.server) == Some(UserAfter(id, UserOf(id, w.server), now))
    && x.held == w.held && x.server.acls == w.server.acls && x.server.minted == w.server.minted &&
      x.server.digest == w.server.digest
    && OnlyHost(id, w, x)
  }

  lemma AfterUser(id: Identity, w: World, now: int) returns (x: World)
    ensures ExecAll(w, NsPart(id, w.server.namespaces) + UserPart(id, UserOf(id, w.server), now)) == Some(x) &&
      UserDone(id, w, x, now)
  {
    var ns, user := NsPart(id, w.server.namespaces), UserPart(id, UserOf(id, w.server), now);
    var m := AfterNs(id, w, |ns|);
    assert ns[..|ns|] == ns && ns[|ns|..] == [];
    UserExec(id, m, now);
    ExecConcat(w, ns, user);
    x := WithUser(id, m, UserAfter(id, UserOf(id, m.server), now));
    hide NsPart, UserPart, Owns, Prefixes, Parts;
  }

  lemma AfterNs(id: Identity, w: World, k: nat) returns (v: World)
    requires k <= |NsPart(id, w.server.namespaces)|
    ensures ExecAll(w, NsPart(id, w.server.namespaces)[..k]) == Some(v) && v == WithNs(w, v.server.namespaces)
    ensures NsPart(id, v.server.namespaces) == NsPart(id, w.server.namespaces)[k..] && OnlyHost(id, w, v)
  {
    hide NsPart, Owns, Prefixes, Parts;
    v := NsResumes(id, w, k);
  }

  /** The token step is done too: the account is there and active. */
  ghost predicate TokenDone(id: Identity, w: World, y: World, now: int) {
    && NsPart(id, y.server.namespaces) == [] && UserPart(id, UserOf(id, y.server), now) == []
    && UserOf(id, y.server).Some? && UserActive(UserOf(id, y.server).value, now) && IsMarked(UserOf(id, y.server).value)
    && id.TokenId() in UserOf(id, y.server).value.tokens &&
      TokenActive(UserOf(id, y.server).value.tokens[id.TokenId()], now)
    && y.server.acls == w.server.acls && OnlyHost(id, w, y)
  }

  function TokenSecret(id: Identity, w: World): Option<nat> {
    if UserOf(id, w.server).Some? && id.TokenId() in UserOf(id, w.server).value.tokens
    then Some(UserOf(id, w.server).value.tokens[id.TokenId()].secret) else None
  }

  /** The planned token step, if there is one, mints a secret. */
  predicate TokenMints(id: Identity, w: World, now: int) {
    var part := TokenPart(id, UserOf(id, w.server), w.held, now);
    part != [] && Mints(part[0].call)
  }

  /** Run the planned token step; its secret is stored or not. */
  lemma AfterToken(id: Identity, w: World, x: World, now: int, stored: bool) returns (y: World)
    requires UserDone(id, w, x, now)
    ensures var part := TokenPart(id, UserOf(id, w.server), w.held, now);
      && |part| <= 1 && (part == [] ==> y == x) && (part != [] ==> Exec(x, part[0], stored) == Some(y))
    ensures TokenDone(id, w, y, now)
    ensures TokenMints(id, w, now) ==>
      TokenSecret(id, y) == Some(w.server.minted) && y.held == (if stored then Some(w.server.minted) else w.held)
    ensures !TokenMints(id, w, now) ==>
      y.held == w.held && y.held.Some? && TokenSecret(id, y) == TokenSecret(id, w)
  {
    hide NsPart, Owns, Prefixes, Parts, TokenPart, TokenAfter;
    y := TokenExec(id, UserOf(id, w.server), x, now, stored);
    UserExec(id, w, now);
    TokenKeepsUser(id, w, x, y, TokenAfter(id, x, UserOf(id, w.server), now), now);
  }

  lemma TokenKeepsUser(id: Identity, w: World, x: World, y: World, t: Token, now: int)
    requires UserDone(id, w, x, now) && y == WithToken(id, x, t, y.server.minted, y.held)
    ensures UserPart(id, UserOf(id, y.server), now) == [] && OnlyHost(id, w, y)
    ensures UserOf(id, y.server).Some? &&
      UserOf(id, y.server).value.tokens == UserAfter(id, UserOf(id, w.server), now).tokens[id.TokenId() := t]
    ensures UserActive(UserOf(id, y.server).value, now) && IsMarked(UserOf(id, y.server).value)
  {
    UserExec(id, w, now);
    hide NsPart, Owns, Prefixes, Parts;
    assert OnlyHost(id, x, y);
    OnlyHostThen(id, w, x, y);
  }

  /** What is left to plan once the token step is done. */
  lemma PlanAfterToken(id: Identity, w: World, y: World, now: int)
    requires TokenDone(id, w, y, now)
    ensures y.held == TokenSecret(id, y) ==> Plan(id, y, now) == AclPart(id, w.server.acls)
    ensures y.held != TokenSecret(id, y) ==> Plan(id, y, now) == [Regenerate(id)] + AclPart(id, w.server.acls)
  {
    hide NsPart, UserPart, TokenPart, AclPart, OnlyHost, UserActive, TokenActive, IsMarked;
    TokenSettled(id, UserOf(id, y.server).value, y.held, now);
    var a := AclPart(id, w.server.acls);
    assert [] + [] + [] + a == a && [] + [] + [Regenerate(id)] + a == [Regenerate(id)] + a;
  }

  function Regenerate(id: Identity): Step {
    Plans.Step("token:" + id.TokenId(), "regenerate-token", UpdateToken(id.UserId(), id.TokenId(), true, false), true)
  }

  /** The whole plan, in its four parts. */
  lemma InParts(id: Identity, w: World, now: int)
    ensures Plan(id, w, now) ==
      (NsPart(id, w.server.namespaces) + UserPart(id, UserOf(id, w.server), now))
      + (TokenPart(id, UserOf(id, w.server), w.held, now) + AclPart(id, w.server.acls))
  {
    hide NsPart, UserPart, TokenPart, AclPart;
    var n, u, t, a := NsPart(id, w.server.namespaces), UserPart(id, UserOf(id, w.server), now),
      TokenPart(id, UserOf(id, w.server), w.held, now), AclPart(id, w.server.acls);
    assert n + u + t + a == (n + u) + (t + a);
  }

  ghost predicate Sensible(id: Identity, w: World) {
    && ValidIdentity(id) && OneEach(w.server.acls)
    && (w.held.Some? ==> w.held.value < w.server.minted)
  }

  /** Enabled, and not expired at `now`. */
  ghost predicate InForce(enable: Option<bool>, expire: Option<int>, now: int) {
    enable != Some(false) && (expire.Some? && expire.value > 0 ==> expire.value > now)
  }

  /**
    What an enrolled host has on the server: its namespace under `hosts`; a
    user marked as orca's and a token, both in force; the two backup roles on
    its namespace, for the user and for the token, since a token has no more
    than its user; and no other role anywhere but on its namespace.
  */
  ghost predicate Enrolled(id: Identity, s: Server, now: int) {
    var user, token := id.host + "@pbs", id.host + "@pbs!backup";
    && "hosts" in s.namespaces && "hosts/" + id.host in s.namespaces
    && user in s.users && s.users[user].comment.Some? && "orca: backup client for" <= s.users[user].comment.value
    && InForce(s.users[user].enable, s.users[user].expire, now)
    && token in s.users[user].tokens
    && InForce(s.users[user].tokens[token].enable, s.users[user].tokens[token].expire, now)
    && (forall auth, role :: auth in {user, token} && role in {"DatastoreBackup", "DatastorePowerUser"} ==>
          Acl("/datastore/" + id.datastore + "/hosts/" + id.host, auth, "user", role, true) in s.acls)
    && (forall x :: x in s.acls && x.kind == "user" && x.ugid in {user, token} ==> OnItsNamespace(id, x))
  }

  /** A backup role on the host's namespace in some datastore. */
  ghost predicate OnItsNamespace(id: Identity, x: Acl) {
    && x.role in {"DatastoreBackup", "DatastorePowerUser"}
    && exists store: string :: store != "" && '/' !in store && x.path == "/datastore/" + store + "/hosts/" + id.host
  }

  /** The secret orca holds is the token's. */
  ghost predicate HoldsSecret(id: Identity, v: World) {
    && id.host + "@pbs" in v.server.users && id.host + "@pbs!backup" in v.server.users[id.host + "@pbs"].tokens
    && v.held == Some(v.server.users[id.host + "@pbs"].tokens[id.host + "@pbs!backup"].secret)
  }

  /** With nothing left of the ACL part, every role is granted and nothing else is owned. */
  lemma NothingToGrant(id: Identity, acls: seq<Acl>)
    requires AclPart(id, acls) == []
    ensures forall auth, role ::
      auth in {id.UserId(), id.TokenId()} && role in {"DatastoreBackup", "DatastorePowerUser"} ==>
      Acl(id.AclPath(), auth, "user", role, true) in acls
    ensures forall x :: x in acls ==> !Stray(id, x)
  {
    var w := Wanted(id);
    NoneToRevoke(id, acls);
    assert Grants(id, acls, w) == [] && Revokes(id, acls) == [];
    NoneToGrant(id, acls, w);
    assert w[0] in w && w[1] in w && w[2] in w && w[3] in w;
    assert Granted(id, acls, w[0].0, w[0].1) && Granted(id, acls, w[1].0, w[1].1);
    assert Granted(id, acls, w[2].0, w[2].1) && Granted(id, acls, w[3].0, w[3].1);
  }

  lemma {:induction false} NoneToGrant(id: Identity, acls: seq<Acl>, wanted: seq<(string, string)>)
    requires Grants(id, acls, wanted) == []
    ensures forall w :: w in wanted ==> Granted(id, acls, w.0, w.1)
  {
    hide Granted;
    if wanted != [] {
      NoneToGrant(id, acls, wanted[1..]);
      assert wanted == [wanted[0]] + wanted[1..];
    }
  }

  lemma {:induction false} NoneToRevoke(id: Identity, acls: seq<Acl>)
    ensures Revokes(id, acls) == [] ==> forall x :: x in acls ==> !Stray(id, x)
  {
    hide Stray;
    if acls != [] {
      NoneToRevoke(id, acls[1..]);
      assert acls == [acls[0]] + acls[1..];
    }
  }

  lemma DoneIsEnrolled(id: Identity, v: World, now: int)
    requires ValidIdentity(id) && TokenDone(id, v, v, now) && AclPart(id, v.server.acls) == []
    ensures Enrolled(id, v.server, now)
    ensures v.held == TokenSecret(id, v) ==> HoldsSecret(id, v)
  {
    hide AclPart, NsPart, OnItsNamespace, OnlyHost, UserPart;
    assert id.TokenId() == id.host + "@pbs!backup" by {
      assert "@pbs" + "!backup" == "@pbs!backup";
    }
    EnrolledBy(id, v.server, now);
  }

  lemma ItsNamespaces(id: Identity, existing: set<string>)
    requires ValidIdentity(id) && NsPart(id, existing) == []
    ensures "hosts" in existing && "hosts/" + id.host in existing
  {
    hide Prefixes, Parts, Chain;
    NsNone(id, existing);
    TwoLevels("hosts", id.host);
    assert "hosts" + "/" + id.host == id.Ns();
    NothingMissing(existing, "", Parts(id.Ns()));
  }

  lemma NsNone(id: Identity, existing: set<string>)
    requires NsPart(id, existing) == []
    ensures Chain(existing, "", Parts(id.Ns())) == []
  {
    hide Chain, Parts;
  }

  lemma OnlyItsOwn(id: Identity, acls: seq<Acl>)
    requires forall x :: x in acls ==> !Stray(id, x)
    ensures forall x :: x in acls && x.kind == "user" && x.ugid in {id.UserId(), id.TokenId()} ==> OnItsNamespace(id, x)
  {
    forall x | x in acls && x.kind == "user" && x.ugid in {id.UserId(), id.TokenId()} ensures OnItsNamespace(id, x) {
      ScopeExactly(id, x);
      assert Owns(id, x) && InScope(id, x);
      hide InScope;
      var store: string :| store != "" && '/' !in store && x.path == "/datastore/" + store + id.Tail();
      assert x.path == "/datastore/" + store + "/hosts/" + id.host;
    }
  }

  /** Nothing is planned exactly for a host that is enrolled and whose secret orca holds. */
  lemma NothingPlannedIff(id: Identity, w: World, now: int)
    requires ValidIdentity(id)
    ensures Plan(id, w, now) == [] <==> Enrolled(id, w.server, now) && HoldsSecret(id, w)
  {
    hide *;
    PartsEmpty(id, w, now);
    if Plan(id, w, now) == [] {
      AccountDone(id, w, now);
      EnrolledBy(id, w.server, now);
    }
    if Enrolled(id, w.server, now) && HoldsSecret(id, w) {
      NsThere(id, w.server, now);
      AccountThere(id, w, now);
      AclsThere(id, w.server, now);
    }
  }

  lemma PartsEmpty(id: Identity, w: World, now: int)
    ensures Plan(id, w, now) == [] <==>
      && NsPart(id, w.server.namespaces) == [] && UserPart(id, UserOf(id, w.server), now) == []
      && TokenPart(id, UserOf(id, w.server), w.held, now) == [] && AclPart(id, w.server.acls) == []
  {
    hide NsPart, UserPart, TokenPart, AclPart;
  }

  /** The host's account, as `Enrolled` has it. */
  ghost predicate HasAccount(id: Identity, s: Server, now: int) {
    var user, token := id.host + "@pbs", id.host + "@pbs!backup";
    && user in s.users && s.users[user].comment.Some? && "orca: backup client for" <= s.users[user].comment.value
    && InForce(s.users[user].enable, s.users[user].expire, now)
    && token in s.users[user].tokens
    && InForce(s.users[user].tokens[token].enable, s.users[user].tokens[token].expire, now)
  }

  lemma AccountDone(id: Identity, w: World, now: int)
    requires UserPart(id, UserOf(id, w.server), now) == [] && TokenPart(id, UserOf(id, w.server), w.held, now) == []
    ensures HasAccount(id, w.server, now) && HoldsSecret(id, w)
  {
    assert id.TokenId() == id.host + "@pbs!backup" by {
      assert "@pbs" + "!backup" == "@pbs!backup";
    }
  }

  lemma AccountThere(id: Identity, w: World, now: int)
    requires Enrolled(id, w.server, now) && HoldsSecret(id, w)
    ensures UserPart(id, UserOf(id, w.server), now) == [] && TokenPart(id, UserOf(id, w.server), w.held, now) == []
  {
    hide OnItsNamespace;
    assert id.TokenId() == id.host + "@pbs!backup" by {
      assert "@pbs" + "!backup" == "@pbs!backup";
    }
  }

  lemma EnrolledBy(id: Identity, s: Server, now: int)
    requires ValidIdentity(id) && NsPart(id, s.namespaces) == [] && AclPart(id, s.acls) == [] && HasAccount(id, s, now)
    ensures Enrolled(id, s, now)
  {
    hide Grants, Revokes, Wanted, Stray, Owns, InScope, Parts, Prefixes, Chain, NsPart, AclPart, OnItsNamespace;
    NothingToGrant(id, s.acls);
    OnlyItsOwn(id, s.acls);
    ItsNamespaces(id, s.namespaces);
    assert id.TokenId() == id.host + "@pbs!backup" by {
      assert "@pbs" + "!backup" == "@pbs!backup";
    }
    assert id.AclPath() == "/datastore/" + id.datastore + "/hosts/" + id.host;
  }

  lemma NsThere(id: Identity, s: Server, now: int)
    requires ValidIdentity(id) && Enrolled(id, s, now)
    ensures NsPart(id, s.namespaces) == []
  {
    hide Prefixes, Parts, Chain, OnItsNamespace, InForce;
    TwoLevels("hosts", id.host);
    assert "hosts" + "/" + id.host == id.Ns();
    NothingMissing(s.namespaces, "", Parts(id.Ns()));
  }

  lemma AclsThere(id: Identity, s: Server, now: int)
    requires ValidIdentity(id) && Enrolled(id, s, now)
    ensures AclPart(id, s.acls) == []
  {
    hide OnItsNamespace, InForce, Grants, Revokes, Stray;
    assert id.TokenId() == id.host + "@pbs!backup" by {
      assert "@pbs" + "!backup" == "@pbs!backup";
    }
    assert id.AclPath() == "/datastore/" + id.datastore + "/hosts/" + id.host;
    WantedIsPlain(id);
    AllGranted(id, s.acls, Wanted(id));
    forall x | x in s.acls ensures !Stray(id, x) {
      if x.kind == "user" && x.ugid in {id.UserId(), id.TokenId()} {
        assert OnItsNamespace(id, x);
      }
      InPlaceIsNoStray(id, x);
    }
    NoStrayRevoked(id, s.acls);
  }

  lemma InPlaceIsNoStray(id: Identity, x: Acl)
    requires x.kind == "user" && x.ugid in {id.UserId(), id.TokenId()} ==> OnItsNamespace(id, x)
    ensures !Stray(id, x)
  {
    hide InScope;
    ScopeExactly(id, x);
    if Owns(id, x) {
      var store: string :|
        store != "" && '/' !in store && x.path == "/datastore/" + store + "/hosts/" + id.host;
      assert x.path == "/datastore/" + store + id.Tail();
    }
  }

  lemma {:induction false} AllGranted(id: Identity, acls: seq<Acl>, wanted: seq<(string, string)>)
    requires forall w :: w in wanted ==> Granted(id, acls, w.0, w.1)
    ensures Grants(id, acls, wanted) == []
  {
    hide Granted;
    if wanted != [] {
      assert wanted[0] in wanted;
      AllGranted(id, acls, wanted[1..]);
    }
  }

  lemma {:induction false} NoStrayRevoked(id: Identity, acls: seq<Acl>)
    requires forall x :: x in acls ==> !Stray(id, x)
    ensures Revokes(id, acls) == []
  {
    hide Stray;
    if acls != [] {
      assert acls[0] in acls;
      NoStrayRevoked(id, acls[1..]);
    }
  }

  /** An enrolment is refused exactly when somebody else's user has the name and may not be adopted. */
  lemma RefusedExactly(id: Identity, w: World, adopt: bool, now: int)
    ensures Diff(id, w, adopt, now) == Err(NotManaged) <==>
      && !adopt && id.host + "@pbs" in w.server.users
      && var note := w.server.users[id.host + "@pbs"].comment;
        note.None? || !("orca: backup client for" <= note.value)
    ensures Diff(id, w, adopt, now).Err? <==> Diff(id, w, adopt, now) == Err(NotManaged)
  {
    hide Plan;
  }

  /**
    One round of enrolment from any server: every call is accepted, and
    planning again gives nothing, or one regenerate if the secret orca holds
    could not be probed before and turns out to be stale. After that second
    round there is nothing left. Nothing but the host's own differs.
  */
  lemma ConvergesInTwo(id: Identity, w: World, now: int) returns (v: World)
    requires Sensible(id, w)
    ensures ExecAll(w, Plan(id, w, now)) == Some(v) && OnlyHost(id, w, v) && IsManaged(UserOf(id, v.server), false)
    ensures Plan(id, v, now) == if v.held == TokenSecret(id, v) then [] else [Regenerate(id)]
    ensures HeldIsCurrent(id, UserOf(id, w.server), w.held, now) ==> Plan(id, v, now) == []
    ensures Exec(v, Regenerate(id), true).Some? && Plan(id, Exec(v, Regenerate(id), true).value, now) == []
    ensures Enrolled(id, v.server, now) && (Plan(id, v, now) == [] ==> HoldsSecret(id, v))
    ensures var z := Exec(v, Regenerate(id), true).value;
      Enrolled(id, z.server, now) && HoldsSecret(id, z)
  {
    hide *;
    var n, u := NsPart(id, w.server.namespaces), UserPart(id, UserOf(id, w.server), now);
    var t, a := TokenPart(id, UserOf(id, w.server), w.held, now), AclPart(id, w.server.acls);
    var x := AfterUser(id, w, now);
    var y := AfterToken(id, w, x, now, true);
    HeldCases(id, w, y, now);
    InParts(id, w, now);
    PlanAfterToken(id, w, y, now);
    ExecOne(x, t, y);
    v := AfterAcls(id, w, y, now);
    ExecConcat(w, n + u, t + a);
    ExecConcat(x, t, a);
    SecondRound(id, w, v, now);
    SensibleIsValid(id, w);
    DoneIsEnrolled(id, v, now);
    AgainDone(id, v, now);
    DoneIsEnrolled(id, Exec(v, Regenerate(id), true).value, now);
  }

  lemma SensibleIsValid(id: Identity, w: World)
    requires Sensible(id, w)
    ensures ValidIdentity(id)
  {
  }

  lemma AgainDone(id: Identity, v: World, now: int)
    requires TokenDone(id, v, v, now) && Exec(v, Regenerate(id), true).Some?
    ensures var z := Exec(v, Regenerate(id), true).value;
      TokenDone(id, z, z, now) && z.server.acls == v.server.acls && z.held == TokenSecret(id, z)
  {
    hide NsPart, Prefixes, Parts, Owns;
    var z := Exec(v, Regenerate(id), true).value;
    UserUnchanged(id, v, z, now);
    ItselfDone(id, v, z, now);
  }

  lemma ItselfDone(id: Identity, v: World, z: World, now: int)
    requires TokenDone(id, v, z, now)
    ensures TokenDone(id, z, z, now) && z.server.acls == v.server.acls
  {
    hide NsPart, Prefixes, Parts, Owns, UserPart;
  }

  /** A mint is stored; otherwise the secret held is the token's, if it was when the account was inactive. */
  lemma HeldCases(id: Identity, w: World, y: World, now: int)
    requires TokenMints(id, w, now) ==>
      y.held == TokenSecret(id, y)
    requires !TokenMints(id, w, now) ==>
      y.held == w.held && TokenSecret(id, y) == TokenSecret(id, w)
    ensures HeldIsCurrent(id, UserOf(id, w.server), w.held, now) ==> y.held == TokenSecret(id, y)
  {
  }

  lemma ExecOne(x: World, steps: seq<Step>, y: World)
    requires |steps| <= 1 && (steps == [] ==> y == x) && (steps != [] ==> Exec(x, steps[0], true) == Some(y))
    ensures ExecAll(x, steps) == Some(y)
  {
    if steps != [] {
      assert steps[1..] == [];
    }
  }

  /** The ACL steps, all of them, from a settled account. */
  lemma AfterAcls(id: Identity, w: World, y: World, now: int) returns (v: World)
    requires Sensible(id, w) && TokenDone(id, w, y, now)
    ensures ExecAll(y, AclPart(id, w.server.acls)) == Some(v) && OnlyHost(id, w, v) && TokenDone(id, v, v, now)
    ensures AclPart(id, v.server.acls) == [] && v.held == y.held && TokenSecret(id, v) == TokenSecret(id, y)
  {
    var a := AclPart(id, w.server.acls);
    hide AclPart, NsPart, UserPart, TokenPart, Prefixes, Parts, Owns, InScope;
    AuthsThere(id, w, y, now);
    v := AclResumes(id, y, |a|);
    assert a[..|a|] == a && a[|a|..] == [];
    assert OnlyHost(id, y, v);
    OnlyHostThen(id, w, y, v);
  }

  lemma AuthsThere(id: Identity, w: World, y: World, now: int)
    requires TokenDone(id, w, y, now)
    ensures AuthExists(y.server, id.UserId()) && AuthExists(y.server, id.TokenId())
  {
  }

  lemma SecondRound(id: Identity, w: World, v: World, now: int)
    requires TokenDone(id, v, v, now) && AclPart(id, v.server.acls) == []
    ensures IsManaged(UserOf(id, v.server), false)
    ensures Plan(id, v, now) == if v.held == TokenSecret(id, v) then [] else [Regenerate(id)]
    ensures Exec(v, Regenerate(id), true).Some? && Plan(id, Exec(v, Regenerate(id), true).value, now) == []
  {
    hide NsPart, UserPart, TokenPart, AclPart, Prefixes, Parts, Owns;
    PlanAfterToken(id, v, v, now);
    assert [Regenerate(id)] + [] == [Regenerate(id)];
    var z := Exec(v, Regenerate(id), true).value;
    UserUnchanged(id, v, z, now);
    PlanAfterToken(id, v, z, now);
  }

  lemma UserUnchanged(id: Identity, v: World, z: World, now: int)
    requires TokenDone(id, v, v, now) && Exec(v, Regenerate(id), true) == Some(z)
    ensures TokenDone(id, v, z, now) && z.held == TokenSecret(id, z)
  {
    hide NsPart, Prefixes, Parts, Owns;
  }

  /**
    A run that stops after any prefix of its plan is resumed exactly: planning
    again gives the rest of it, step for step. It needs that a held secret is
    not found rejected once its account is enabled again.
  */
  lemma Resumes(id: Identity, w: World, now: int, k: nat) returns (v: World)
    requires Sensible(id, w) && HeldIsCurrent(id, UserOf(id, w.server), w.held, now) && k <= |Plan(id, w, now)|
    ensures ExecAll(w, Plan(id, w, now)[..k]) == Some(v) && OnlyHost(id, w, v)
    ensures Plan(id, v, now) == Plan(id, w, now)[k..]
  {
    hide NsPart, UserPart, TokenPart, AclPart, OnlyHost, ExecAll;
    var n, u := NsPart(id, w.server.namespaces), UserPart(id, UserOf(id, w.server), now);
    var t, a := TokenPart(id, UserOf(id, w.server), w.held, now), AclPart(id, w.server.acls);
    UserExec(id, w, now);
    InParts(id, w, now);
    var all := (n + u) + (t + a);
    if k <= |n| {
      v := AfterNs(id, w, k);
      assert all[..k] == n[..k] && all[k..] == n[k..] + u + t + a;
      return;
    }
    var x := AfterUser(id, w, now);
    TokenStays(id, UserOf(id, w.server), w.held, now);
    PlanAfterUser(id, w, x, now);
    if k <= |n| + |u| {
      hide NsPart, UserPart, TokenPart, AclPart, ExecAll, UserDone, OnlyHost, HeldIsCurrent;
      assert all[..k] == n + u && all[k..] == t + a;
      UserDoneOnlyHost(id, w, x, now);
      return x;
    }
    var y := AfterToken(id, w, x, now, true);
    HeldCases(id, w, y, now);
    hide *;
    v := ResumesAcls(id, w, now, x, y, k);
  }

  lemma UserDoneOnlyHost(id: Identity, w: World, x: World, now: int)
    requires UserDone(id, w, x, now)
    ensures OnlyHost(id, w, x)
  {
  }

  lemma PlanAfterUser(id: Identity, w: World, x: World, now: int)
    requires UserDone(id, w, x, now) &&
      TokenPart(id, Some(UserAfter(id, UserOf(id, w.server), now)), w.held, now) ==
      TokenPart(id, UserOf(id, w.server), w.held, now)
    ensures Plan(id, x, now) == TokenPart(id, UserOf(id, w.server), w.held, now) + AclPart(id, w.server.acls)
  {
    hide NsPart, UserPart, TokenPart, AclPart, UserAfter, OnlyHost;
    var t, a := TokenPart(id, UserOf(id, w.server), w.held, now), AclPart(id, w.server.acls);
    assert [] + [] + t + a == t + a;
  }

  lemma ResumesAcls(id: Identity, w: World, now: int, x: World, y: World, k: nat) returns (v: World)
    requires Sensible(id, w) && k <= |Plan(id, w, now)| && TokenDone(id, w, y, now) && y.held == TokenSecret(id, y)
    requires var n, u := NsPart(id, w.server.namespaces), UserPart(id, UserOf(id, w.server), now);
      && k > |n| + |u| && ExecAll(w, n + u) == Some(x)
      && var t := TokenPart(id, UserOf(id, w.server), w.held, now);
        |t| <= 1 && (t == [] ==> y == x) && (t != [] ==> Exec(x, t[0], true) == Some(y))
    ensures ExecAll(w, Plan(id, w, now)[..k]) == Some(v) && OnlyHost(id, w, v) &&
      Plan(id, v, now) == Plan(id, w, now)[k..]
  {
    var n, u := NsPart(id, w.server.namespaces), UserPart(id, UserOf(id, w.server), now);
    var t, a := TokenPart(id, UserOf(id, w.server), w.held, now), AclPart(id, w.server.acls);
    InParts(id, w, now);
    var all := (n + u) + (t + a);
    hide NsPart, UserPart, TokenPart, AclPart, ExecAll, TokenDone, OnlyHost, Sensible, Exec, Plan, TokenSecret;
    var j := k - |n| - |u| - |t|;
    ExecOne(x, t, y);
    v := PartOfAcls(id, w, y, now, j);
    assert all[..k] == (n + u) + (t + a[..j]) && all[k..] == a[j..];
    ExecConcat(w, n + u, t + a[..j]);
    ExecConcat(x, t, a[..j]);
  }

  /** The first `j` ACL steps, from a settled account whose secret orca holds. */
  lemma PartOfAcls(id: Identity, w: World, y: World, now: int, j: nat) returns (v: World)
    requires Sensible(id, w) && TokenDone(id, w, y, now) && y.held == TokenSecret(id, y) &&
      j <= |AclPart(id, w.server.acls)|
    ensures ExecAll(y, AclPart(id, w.server.acls)[..j]) == Some(v) && OnlyHost(id, w, v)
    ensures Plan(id, v, now) == AclPart(id, w.server.acls)[j..]
  {
    hide AclPart, NsPart, UserPart, TokenPart, Prefixes, Parts, Owns, InScope;
    AuthsThere(id, w, y, now);
    v := AclResumes(id, y, j);
    assert OnlyHost(id, y, v);
    OnlyHostThen(id, w, y, v);
    assert TokenDone(id, v, v, now);
    PlanAfterToken(id, v, v, now);
  }

  /**
    A mint whose secret was not stored, the run stopping there, comes back as a
    regenerate, before the rest of the plan.
  */
  lemma UnstoredMintIsRegenerated(id: Identity, w: World, now: int, k: nat, x: World, y: World)
    requires Sensible(id, w) && HeldIsCurrent(id, UserOf(id, w.server), w.held, now)
    requires k < |Plan(id, w, now)| && Mints(Plan(id, w, now)[k].call)
    requires ExecAll(w, Plan(id, w, now)[..k]) == Some(x) && Exec(x, Plan(id, w, now)[k], false) == Some(y)
    ensures Plan(id, y, now) == [Regenerate(id)] + Plan(id, w, now)[k + 1..]
  {
    hide NsPart, UserPart, TokenPart, AclPart, ExecAll, UserDone, HeldIsCurrent, Exec;
    var n, u := NsPart(id, w.server.namespaces), UserPart(id, UserOf(id, w.server), now);
    var t, a := TokenPart(id, UserOf(id, w.server), w.held, now), AclPart(id, w.server.acls);
    UserExec(id, w, now);
    OnlyTokenMints(id, w, now, k);
    InParts(id, w, now);
    var x' := AfterUser(id, w, now);
    var y' := AfterToken(id, w, x', now, false);
    assert ((n + u) + (t + a))[..k] == n + u && x' == x;
    assert t == [t[0]] && ((n + u) + (t + a))[k] == t[0] && ((n + u) + (t + a))[k + 1..] == a;
    PlanAfterToken(id, w, y', now);
  }

  /** Only the token step mints. */
  lemma OnlyTokenMints(id: Identity, w: World, now: int, k: nat)
    requires k < |Plan(id, w, now)| && Mints(Plan(id, w, now)[k].call)
    ensures var n, u := NsPart(id, w.server.namespaces), UserPart(id, UserOf(id, w.server), now);
      var t := TokenPart(id, UserOf(id, w.server), w.held, now);
      t != [] && k == |n| + |u| && Mints(t[0].call)
  {
    var n, u := NsPart(id, w.server.namespaces), UserPart(id, UserOf(id, w.server), now);
    var t, a := TokenPart(id, UserOf(id, w.server), w.held, now), AclPart(id, w.server.acls);
    InParts(id, w, now);
    AclsMintNothing(id, w.server.acls);
    NsMintsNothing(id, Chain(w.server.namespaces, "", Parts(id.Ns())));
    assert forall s :: s in u ==> !Mints(s.call);
    assert |t| <= 1;
    hide NsPart, UserPart, TokenPart, AclPart, Mints;
    var p := ((n + u) + (t + a))[k];
    assert k < |n| ==> p in n;
    assert |n| <= k < |n| + |u| ==> p in u;
    assert k >= |n| + |u| + |t| ==> p in a;
  }

  lemma NsMintsNothing(id: Identity, chain: seq<(string, string)>)
    ensures forall s :: s in NsSteps(id, chain) ==> !Mints(s.call)
  {
  }

  lemma AclsMintNothing(id: Identity, acls: seq<Acl>)
    ensures forall s :: s in AclPart(id, acls) ==> !Mints(s.call)
  {
    GrantsArePuts(id, acls, Wanted(id));
    RevokesArePuts(id, acls);
  }

  lemma {:induction false} GrantsArePuts(id: Identity, acls: seq<Acl>, wanted: seq<(string, string)>)
    ensures forall s :: s in Grants(id, acls, wanted) ==>
      && s.call.PutAcl? && !s.call.delete && s.call.path == id.AclPath() && s.call.digest.None?
      && (s.call.authId, s.call.role) in wanted && s.action == "grant-" + s.call.role
    decreases |wanted|
  {
    if wanted != [] {
      GrantsArePuts(id, acls, wanted[1..]);
    }
  }

  lemma {:induction false} RevokesArePuts(id: Identity, acls: seq<Acl>)
    ensures forall s :: s in Revokes(id, acls) ==>
      && s.call.PutAcl? && s.call.delete && s.call.digest.None? && s.action == "revoke-" + s.call.role
      && exists e :: e in acls && Stray(id, e) && (s.call.path, s.call.authId, s.call.role) == (e.path, e.ugid, e.role)
  {
    hide Stray;
    if acls != [] {
      RevokesArePuts(id, acls[1..]);
    }
  }

  /** No ACL entry is both granted and revoked, and every entry revoked belongs to the host. */
  lemma GrantsAndRevokesDisjoint(id: Identity, acls: seq<Acl>, g: Step, r: Step)
    requires ValidIdentity(id) && g in Grants(id, acls, Wanted(id)) && r in Revokes(id, acls)
    ensures g.call.PutAcl? && r.call.PutAcl? && Plans.Item(g) != Plans.Item(r)
    ensures (g.call.path, g.call.authId, g.call.role) != (r.call.path, r.call.authId, r.call.role)
    ensures r.call.authId in id.AuthIds()
  {
    GrantsArePuts(id, acls, Wanted(id));
    RevokesArePuts(id, acls);
    WantedIsPlain(id);
    hide Grants, Revokes, Wanted;
    var e :| e in acls && Stray(id, e) && r.call.path == e.path && r.call.authId == e.ugid && r.call.role == e.role;
    GrantsAreInScope(id, e);
    assert Plans.Item(g)[0] == g.action[0] == 'g' && Plans.Item(r)[0] == r.action[0] == 'r';
  }
}
