/**
  Enrolment converges and resumes: from any server, whatever prefix of a plan
  was applied, planning again gives exactly the rest of it.
*/
module Converge {
  import opened Wrappers
  import opened Namespaces
  import opened Enroll
  import Plans

  function WithNs(w: World, n: set<string>): World {
    w.(server := w.server.(namespaces := n))
  }

  /** Namespaces are created by `CreateAll`, and nothing else changes. */
  lemma {:induction false} NsExec(id: Identity, w: World, chain: seq<(string, string)>)
    ensures ExecAll(w, NsSteps(id, chain)) ==
      if CreateAll(w.server.namespaces, chain).Some? then Some(WithNs(w, CreateAll(w.server.namespaces, chain).value))
        else None
    decreases |chain|
  {
    hide CreateNamespace, Full;
    if chain != [] {
      var steps := NsSteps(id, chain);
      assert steps[1..] == NsSteps(id, chain[1..]);
      NsExecOne(id, w, chain[0]);
      var first := CreateNamespace(w.server.namespaces, chain[0]);
      if first.Some? {
        NsExec(id, WithNs(w, first.value), chain[1..]);
      }
    }
  }

  lemma NsExecOne(id: Identity, w: World, c: (string, string))
    ensures Exec(w, NsStep(id, c), true) ==
      match CreateNamespace(w.server.namespaces, c)
      case None => None
      case Some(n) => Some(WithNs(w, n))
  {
    hide CreateNamespace, Full;
    assert (c.0, c.1) == c;
  }

  /** The first `k` namespaces are created, and the others are planned again. */
  lemma NsResumes(id: Identity, w: World, k: nat) returns (v: World)
    requires k <= |NsPart(id, w.server.namespaces)|
    ensures ExecAll(w, NsPart(id, w.server.namespaces)[..k]) == Some(v) && v == WithNs(w, v.server.namespaces)
    ensures NsPart(id, v.server.namespaces) == NsPart(id, w.server.namespaces)[k..]
    ensures w.server.namespaces <= v.server.namespaces
    ensures forall n :: n in v.server.namespaces ==> n in w.server.namespaces || n in Prefixes("", Parts(id.Ns()))
  {
    var s, parts := w.server.namespaces, Parts(id.Ns());
    PartsNotEmpty("", id.Ns());
    var t := ChainResumes(s, "", parts, k);
    var chain := Chain(s, "", parts);
    hide Parts, Chain, CreateAll, Prefixes;
    NsExec(id, w, chain[..k]);
    assert NsSteps(id, chain)[..k] == NsSteps(id, chain[..k]);
    assert NsSteps(id, chain)[k..] == NsSteps(id, chain[k..]);
    v := WithNs(w, t);
  }

  function WithUser(id: Identity, w: World, u: User): World {
    w.(server := w.server.(users := w.server.users[id.UserId() := u]))
  }

  /** What the user step leaves: a marked user that is active, with the tokens it had. */
  function UserAfter(id: Identity, user: Option<User>, now: int): User {
    match user
    case None => User(Some(Marker(id)), None, None, map[])
    case Some(u) =>
      User(if IsMarked(u) then u.comment else Some(Marker(id)),
           Enabled(!UserActive(u, now), u.enable, true), Enabled(!UserActive(u, now), u.expire, 0), u.tokens)
  }

  lemma UserExec(id: Identity, w: World, now: int)
    ensures var u := UserAfter(id, UserOf(id, w.server), now);
      && ExecAll(w, UserPart(id, UserOf(id, w.server), now)) == Some(WithUser(id, w, u))
      && IsMarked(u) && UserActive(u, now) && UserPart(id, Some(u), now) == []
      && |UserPart(id, UserOf(id, w.server), now)| <= 1
  {
    assert MARKER <= Marker(id);
    var user := UserOf(id, w.server);
    var steps := UserPart(id, user, now);
    if steps != [] {
      assert steps[1..] == [];
    } else {
      assert w.server.users[id.UserId() := user.value] == w.server.users;
    }
  }

  /** A held secret that could not be probed, the account being inactive, is still the token's. */
  predicate HeldIsCurrent(id: Identity, user: Option<User>, held: Option<nat>, now: int) {
    user.Some? && held.Some? && id.TokenId() in user.value.tokens ==>
      var u, t := user.value, user.value.tokens[id.TokenId()];
      !UserActive(u, now) || !TokenActive(t, now) ==> held.value == t.secret
  }

  /** Once the user is settled the token's step is still the same. */
  lemma TokenStays(id: Identity, user: Option<User>, held: Option<nat>, now: int)
    requires HeldIsCurrent(id, user, held, now)
    ensures TokenPart(id, Some(UserAfter(id, user, now)), held, now) == TokenPart(id, user, held, now)
    ensures HeldIsCurrent(id, Some(UserAfter(id, user, now)), held, now)
  {
  }

  /** The token after its step, and the secret orca then holds. */
  function TokenAfter(id: Identity, w: World, user: Option<User>, now: int): Token {
    if user.None? || id.TokenId() !in user.value.tokens then Token(None, None, w.server.minted)
    else
      var t := user.value.tokens[id.TokenId()];
      var rotates := Rotates(user.value, t, SecretOf(user.value, t, w.held, now), now);
      Token(Enabled(!TokenActive(t, now), t.enable, true), Enabled(!TokenActive(t, now), t.expire, 0),
            if rotates then w.server.minted else t.secret)
  }

  /** The world with the host's token in place. */
  function WithToken(id: Identity, w: World, t: Token, minted: nat, held: Option<nat>): World
    requires id.UserId() in w.server.users
  {
    var u := w.server.users[id.UserId()];
    World(w.server.(users := w.server.users[id.UserId() := u.(tokens := u.tokens[id.TokenId() := t])],
      minted := minted), held)
  }

  /** The token step planned for `user`, run once the user has been settled. */
  lemma TokenExec(id: Identity, user: Option<User>, w: World, now: int, stored: bool) returns (v: World)
    requires UserOf(id, w.server) == Some(UserAfter(id, user, now))
    ensures var part := TokenPart(id, user, w.held, now);
      && |part| <= 1
      && (part == [] ==> v == w)
      && (part != [] ==> Exec(w, part[0], stored) == Some(v))
    ensures v == WithToken(id, w, TokenAfter(id, w, user, now), v.server.minted, v.held)
    ensures TokenActive(TokenAfter(id, w, user, now), now)
    ensures TokenPart(id, user, w.held, now) != [] && Mints(TokenPart(id, user, w.held, now)[0].call) ==>
      TokenAfter(id, w, user, now).secret == w.server.minted &&
        v.held == (if stored then Some(w.server.minted) else w.held)
    ensures TokenPart(id, user, w.held, now) == [] || !Mints(TokenPart(id, user, w.held, now)[0].call) ==>
      v.held == w.held && w.held.Some? && user.Some? && id.TokenId() in user.value.tokens
      && TokenAfter(id, w, user, now).secret == user.value.tokens[id.TokenId()].secret
  {
    var part := TokenPart(id, user, w.held, now);
    var u := w.server.users[id.UserId()];
    if part == [] {
      v := w;
      var t := u.tokens[id.TokenId()];
      assert u.tokens[id.TokenId() := t] == u.tokens;
      assert w.server.users[id.UserId() := u] == w.server.users;
    } else {
      v := Exec(w, part[0], stored).value;
    }
  }

  /** After the token step: nothing more to do exactly when orca holds the token's secret. */
  lemma TokenSettled(id: Identity, u: User, held: Option<nat>, now: int)
    requires id.TokenId() in u.tokens && UserActive(u, now) && TokenActive(u.tokens[id.TokenId()], now)
    ensures TokenPart(id, Some(u), held, now) ==
      if held == Some(u.tokens[id.TokenId()].secret) then []
      else [Plans.Step("token:" + id.TokenId(), "regenerate-token", UpdateToken(id.UserId(), id.TokenId(), true, false),
        true)]
  {
  }
}
