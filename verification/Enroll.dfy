/**
  Enrolment of a backup client host: the steps that close the gap between a
  PBS server and the desired set of namespace, user, token and ACL entries.
*/
module Enroll {
  import opened Wrappers
  import opened Namespaces
  import Plans

  const ROLES := ["DatastoreBackup", "DatastorePowerUser"]
  const MARKER := "orca: backup client for"

  datatype Identity = Identity(host: string, datastore: string)
  {
    function UserId(): string {
      host + "@pbs"
    }

    function TokenId(): string {
      UserId() + "!backup"
    }

    function Ns(): string {
      "hosts/" + host
    }

    function AclPath(): string {
      "/datastore/" + datastore + Tail()
    }

    function Tail(): string {
      "/hosts/" + host
    }

    /** The ids an enrolment grants roles to. */
    function AuthIds(): seq<string> {
      [UserId(), TokenId()]
    }
  }

  /** What `validate_host` and `validate_datastore` leave: neither holds a separator. */
  predicate ValidIdentity(id: Identity) {
    id.host != "" && '/' !in id.host && id.datastore != "" && '/' !in id.datastore
  }

  datatype Token = Token(enable: Option<bool>, expire: Option<int>, secret: nat)

  datatype User = User(comment: Option<string>, enable: Option<bool>, expire: Option<int>, tokens: map<string, Token>)

  datatype Acl = Acl(path: string, ugid: string, kind: string, role: string, propagate: bool)

  /** The PBS server, as far as enrolment sees it: `namespaces` are those of one datastore. */
  datatype Server = Server(namespaces: set<string>, users: map<string, User>, acls: seq<Acl>, digest: nat, minted: nat)

  /** The server, and the token secret orca holds for the host. */
  datatype World = World(server: Server, held: Option<nat>)

  /** `is_active`: enabled, and either without a positive expiry or before it. */
  predicate IsActive(enable: Option<bool>, expire: Option<int>, now: int) {
    enable != Some(false) && (expire.None? || expire.value <= 0 || expire.value > now)
  }

  datatype Call =
    | CreateNs(parent: string, name: string)
    | CreateUser(userid: string, comment: string)
    | UpdateUser(userid: string, note: Option<string>, enable: bool)
    | CreateToken(userid: string, tokenid: string)
    | UpdateToken(userid: string, tokenid: string, regenerate: bool, enable: bool)
    | PutAcl(path: string, role: string, authId: string, delete: bool, digest: Option<nat>)

  type Step = Plans.Step<Call>

  /** The step's response carries a minted secret. */
  predicate Mints(c: Call) {
    c.CreateToken? || (c.UpdateToken? && c.regenerate)
  }

  function Key(e: Acl): (string, string, string, string) {
    (e.path, e.ugid, e.kind, e.role)
  }

  /** At most one entry per path, id and role. */
  ghost predicate OneEach(acls: seq<Acl>) {
    forall i, j :: 0 <= i < j < |acls| ==> Key(acls[i]) != Key(acls[j])
  }

  function DropAcl(acls: seq<Acl>, k: (string, string, string, string)): seq<Acl> {
    if acls == [] then [] else (if Key(acls[0]) == k then [] else [acls[0]]) + DropAcl(acls[1..], k)
  }

  /** In place of the entry that is there, or at the end. */
  function SetAcl(acls: seq<Acl>, e: Acl): seq<Acl> {
    if acls == [] then [e] else if Key(acls[0]) == Key(e) then [e] + acls[1..] else [acls[0]] + SetAcl(acls[1..], e)
  }

  predicate AuthExists(s: Server, auth: string) {
    auth in s.users || exists u :: u in s.users && auth in s.users[u].tokens
  }

  function Enabled<T>(on: bool, was: Option<T>, now: T): Option<T> {
    if on then Some(now) else was
  }

  /** The server after a call it accepts. */
  function Serve(s: Server, c: Call): Option<Server> {
    match c
    case CreateNs(parent, name) =>
      (match CreateNamespace(s.namespaces, (parent, name))
       case None => None
       case Some(n) => Some(s.(namespaces := n)))
    case CreateUser(u, comment) =>
      if u in s.users then None else Some(s.(users := s.users[u := User(Some(comment), None, None, map[])]))
    case UpdateUser(u, note, enable) =>
      if u !in s.users then None
      else
        var r := s.users[u];
        Some(s.(users := s.users[u := r.(
          comment := if note.Some? then note else r.comment,
          enable := Enabled(enable, r.enable, true),
          expire := Enabled(enable, r.expire, 0))]))
    case CreateToken(u, t) =>
      if u !in s.users || t in s.users[u].tokens then None
      else
        var r := s.users[u];
        Some(s.(
          users := s.users[u := r.(tokens := r.tokens[t := Token(None, None, s.minted)])],
          minted := s.minted + 1))
    case UpdateToken(u, t, regenerate, enable) =>
      if u !in s.users || t !in s.users[u].tokens then None
      else
        var r := s.users[u];
        var k := r.tokens[t];
        var secret := if regenerate then s.minted else k.secret;
        var k' := Token(Enabled(enable, k.enable, true), Enabled(enable, k.expire, 0), secret);
        Some(s.(
          users := s.users[u := r.(tokens := r.tokens[t := k'])],
          minted := if regenerate then s.minted + 1 else s.minted))
    case PutAcl(path, role, auth, delete, digest) =>
      if digest.Some? && digest.value != s.digest then None
      else if delete then Some(s.(acls := DropAcl(s.acls, (path, auth, "user", role)), digest := s.digest + 1))
      else if !AuthExists(s, auth) then None
      else Some(s.(acls := SetAcl(s.acls, Acl(path, auth, "user", role, true)), digest := s.digest + 1))
  }

  /** One step of a run; `stored` when the secret it minted was stored. */
  function Exec(w: World, s: Step, stored: bool): Option<World> {
    match Serve(w.server, s.call)
    case None => None
    case Some(t) => Some(World(t, if s.sensitive && stored then Some(w.server.minted) else w.held))
  }

  function ExecAll(w: World, steps: seq<Step>): Option<World>
    decreases |steps|
  {
    if steps == [] then Some(w)
    else
      match Exec(w, steps[0], true)
      case None => None
      case Some(v) => ExecAll(v, steps[1..])
  }

  lemma {:induction false} ExecConcat(w: World, a: seq<Step>, b: seq<Step>)
    ensures ExecAll(w, a + b) == if ExecAll(w, a).Some? then ExecAll(ExecAll(w, a).value, b) else None
    decreases |a|
  {
    if a == [] {
      assert a + b == b;
    } else {
      assert (a + b)[1..] == a[1..] + b;
      if Exec(w, a[0], true).Some? {
        ExecConcat(Exec(w, a[0], true).value, a[1..], b);
      }
    }
  }

  // The plan, part by part.

  function NsStep(id: Identity, c: (string, string)): Step {
    Plans.Step(id.datastore + ":" + Full(c.0, c.1), "create-namespace", CreateNs(c.0, c.1), false)
  }

  function NsSteps(id: Identity, chain: seq<(string, string)>): seq<Step> {
    seq(|chain|, i requires 0 <= i < |chain| => NsStep(id, chain[i]))
  }

  function NsPart(id: Identity, existing: set<string>): seq<Step> {
    NsSteps(id, Chain(existing, "", Parts(id.Ns())))
  }

  predicate IsMarked(u: User) {
    u.comment.Some? && MARKER <= u.comment.value
  }

  predicate IsManaged(user: Option<User>, adopt: bool) {
    user.None? || IsMarked(user.value) || adopt
  }

  function Marker(id: Identity): string {
    MARKER + " " + id.host
  }

  predicate UserActive(u: User, now: int) {
    IsActive(u.enable, u.expire, now)
  }

  predicate TokenActive(t: Token, now: int) {
    IsActive(t.enable, t.expire, now)
  }

  function UserPart(id: Identity, user: Option<User>, now: int): seq<Step> {
    var target := "user:" + id.UserId();
    match user
    case None => [Plans.Step(target, "create-user", CreateUser(id.UserId(), Marker(id)), false)]
    case Some(u) =>
      if IsMarked(u) && UserActive(u, now) then []
      else [Plans.Step(target, "update-user",
        UpdateUser(id.UserId(), if IsMarked(u) then None else Some(Marker(id)), !UserActive(u, now)), false)]
  }

  datatype SecretState = Missing | Valid | Rejected | Unknown | Inactive

  /** `read_state`'s probe of the held secret, when the probe itself goes through. */
  function SecretOf(u: User, t: Token, held: Option<nat>, now: int): SecretState {
    if held.None? then Missing
    else if !UserActive(u, now) || !TokenActive(t, now) then Inactive
    else if held.value == t.secret then Valid
    else Rejected
  }

  predicate Rotates(u: User, t: Token, secret: SecretState, now: int) {
    secret == Missing || (UserActive(u, now) && TokenActive(t, now) && secret == Rejected)
  }

  function TokenPart(id: Identity, user: Option<User>, held: Option<nat>, now: int): seq<Step> {
    var target := "token:" + id.TokenId();
    if user.None? || id.TokenId() !in user.value.tokens then
      [Plans.Step(target, "create-token", CreateToken(id.UserId(), id.TokenId()), true)]
    else
      var t := user.value.tokens[id.TokenId()];
      if Rotates(user.value, t, SecretOf(user.value, t, held, now), now) then
        [Plans.Step(target, "regenerate-token", UpdateToken(id.UserId(), id.TokenId(), true, !TokenActive(t, now)),
          true)]
      else if !TokenActive(t, now) then
        [Plans.Step(target, "enable-token", UpdateToken(id.UserId(), id.TokenId(), false, true), false)]
      else []
  }

  predicate Granted(id: Identity, acls: seq<Acl>, auth: string, role: string) {
    Acl(id.AclPath(), auth, "user", role, true) in acls
  }

  function GrantStep(id: Identity, auth: string, role: string): Step {
    Plans.Step("acl:" + auth + ":" + id.AclPath() + ":" + role, "grant-" + role,
      PutAcl(id.AclPath(), role, auth, false, None), false)
  }

  /** Every id with every role. */
  function Wanted(id: Identity): seq<(string, string)> {
    [(id.UserId(), ROLES[0]), (id.UserId(), ROLES[1]), (id.TokenId(), ROLES[0]), (id.TokenId(), ROLES[1])]
  }

  function Grants(id: Identity, acls: seq<Acl>, wanted: seq<(string, string)>): seq<Step> {
    if wanted == [] then []
    else
      (if Granted(id, acls, wanted[0].0, wanted[0].1) then [] else [GrantStep(id, wanted[0].0, wanted[0].1)])
      + Grants(id, acls, wanted[1..])
  }

  predicate Owns(id: Identity, e: Acl) {
    e.kind == "user" && e.ugid in id.AuthIds()
  }

  /** The entry an enrolment into some datastore would make for this host (`ScopeExactly`). */
  predicate InScope(id: Identity, e: Acl) {
    var pre := "/datastore/";
    && pre <= e.path
    && var rest := e.path[|pre|..];
      && |id.Tail()| <= |rest| && rest[|rest| - |id.Tail()|..] == id.Tail()
      && var store := rest[..|rest| - |id.Tail()|];
        store != "" && '/' !in store && e.role in ROLES
  }

  predicate Stray(id: Identity, e: Acl) {
    Owns(id, e) && !InScope(id, e)
  }

  function RevokeStep(e: Acl): Step {
    Plans.Step("acl:" + e.ugid + ":" + e.path + ":" + e.role, "revoke-" + e.role,
      PutAcl(e.path, e.role, e.ugid, true, None), false)
  }

  function Revokes(id: Identity, acls: seq<Acl>): seq<Step> {
    if acls == [] then [] else (if Stray(id, acls[0]) then [RevokeStep(acls[0])] else []) + Revokes(id, acls[1..])
  }

  function UserOf(id: Identity, s: Server): Option<User> {
    if id.UserId() in s.users then Some(s.users[id.UserId()]) else None
  }

  function AclPart(id: Identity, acls: seq<Acl>): seq<Step> {
    Grants(id, acls, Wanted(id)) + Revokes(id, acls)
  }

  function Plan(id: Identity, w: World, now: int): seq<Step> {
    NsPart(id, w.server.namespaces) + UserPart(id, UserOf(id, w.server), now)
    + TokenPart(id, UserOf(id, w.server), w.held, now) + AclPart(id, w.server.acls)
  }

  datatype Refusal = NotManaged

  function Diff(id: Identity, w: World, adopt: bool, now: int): Result<seq<Step>, Refusal> {
    if IsManaged(UserOf(id, w.server), adopt) then Ok(Plan(id, w, now)) else Err(NotManaged)
  }

  /** `diff_enroll`, pushing its steps as it goes. */
  method DiffEnroll(id: Identity, w: World, adopt: bool, now: int) returns (r: Result<seq<Step>, Refusal>)
    ensures r == Diff(id, w, adopt, now)
  {
    hide NsPart, UserPart, TokenPart, Stray, Granted;
    var s := w.server;
    var steps := NsPart(id, s.namespaces);
    var user := UserOf(id, s);
    if !IsManaged(user, adopt) {
      return Err(NotManaged);
    }
    steps := steps + UserPart(id, user, now);
    steps := steps + TokenPart(id, user, w.held, now);
    ghost var before := steps;
    var wanted := Wanted(id);
    for i := 0 to |wanted|
      invariant steps + Grants(id, s.acls, wanted[i..]) == before + Grants(id, s.acls, wanted)
    {
      assert wanted[i..][0] == wanted[i] && wanted[i..][1..] == wanted[i + 1..];
      var (auth, role) := wanted[i];
      if !Granted(id, s.acls, auth, role) {
        var more := Grants(id, s.acls, wanted[i + 1..]);
        assert steps + ([GrantStep(id, auth, role)] + more) == steps + [GrantStep(id, auth, role)] + more;
        steps := steps + [GrantStep(id, auth, role)];
      } else {
        assert [] + Grants(id, s.acls, wanted[i + 1..]) == Grants(id, s.acls, wanted[i + 1..]);
      }
    }
    assert steps == before + Grants(id, s.acls, wanted);
    ghost var granted := steps;
    for i := 0 to |s.acls|
      invariant steps + Revokes(id, s.acls[i..]) == granted + Revokes(id, s.acls)
    {
      assert s.acls[i..][0] == s.acls[i] && s.acls[i..][1..] == s.acls[i + 1..];
      if Stray(id, s.acls[i]) {
        var more := Revokes(id, s.acls[i + 1..]);
        assert steps + ([RevokeStep(s.acls[i])] + more) == steps + [RevokeStep(s.acls[i])] + more;
        steps := steps + [RevokeStep(s.acls[i])];
      } else {
        assert [] + Revokes(id, s.acls[i + 1..]) == Revokes(id, s.acls[i + 1..]);
      }
    }
    assert Revokes(id, s.acls[|s.acls|..]) == [] && steps + [] == steps;
    assert steps == granted + Revokes(id, s.acls);
    assert before + Grants(id, s.acls, wanted) + Revokes(id, s.acls) == before +
      (Grants(id, s.acls, wanted) + Revokes(id, s.acls));
    return Ok(steps);
  }

  /** What can be granted is in scope, so no entry is both granted and revoked. */
  lemma GrantsAreInScope(id: Identity, e: Acl)
    requires ValidIdentity(id)
    ensures e.path == id.AclPath() && e.role in ROLES ==> InScope(id, e)
  {
    Around("/datastore/", id.datastore, id.Tail());
  }

  /** What is in scope is an enrol role on this host's namespace in some datastore. */
  lemma ScopeExactly(id: Identity, e: Acl)
    ensures InScope(id, e) <==>
      e.role in ROLES && exists store: string ::
        store != "" && '/' !in store && e.path == "/datastore/" + store + id.Tail()
  {
    var pre := "/datastore/";
    if InScope(id, e) {
      var rest := e.path[|pre|..];
      var store := rest[..|rest| - |id.Tail()|];
      Joined(pre, store, id.Tail(), e.path, rest);
    }
    if store: string :| store != "" && '/' !in store && e.path == pre + store + id.Tail() {
      Around(pre, store, id.Tail());
    }
  }

  lemma Joined(pre: string, store: string, tail: string, path: string, rest: string)
    requires pre <= path && rest == path[|pre|..] && |tail| <= |rest| && rest[|rest| - |tail|..] == tail &&
      store == rest[..|rest| - |tail|]
    ensures path == pre + store + tail
  {
    assert rest == store + tail;
    assert path == pre + rest;
  }

  lemma Around(pre: string, store: string, tail: string)
    ensures var path := pre + store + tail;
      && pre <= path
      && var rest := path[|pre|..];
        |tail| <= |rest| && rest[|rest| - |tail|..] == tail && rest[..|rest| - |tail|] == store
  {
    var path := pre + store + tail;
    assert path == pre + (store + tail);
    assert path[|pre|..] == store + tail;
  }
}
