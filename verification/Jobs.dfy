/** Job updates: only what differs is sent, and what is sent is enough. */
module Jobs {
  import opened Wrappers

  datatype Value = Text(text: string) | Flag(on: bool) | Amount(n: int) | Names(names: seq<string>)

  type Fields = map<string, Value>

  datatype Kind = SyncJob | VerifyJob

  datatype JobCall =
    | CreateJob(kind: Kind, body: Fields)
    | UpdateJob(kind: Kind, id: string, body: Fields)

  datatype Refusal = AlreadyExists | NoSuchJob

  /** The keys of the request itself; no job has a field of these names. */
  const CONTROL := {"delete", "digest"}

  /** `diff_fields`: the fields `desired` changes, with their new values. */
  function DiffFields(current: Fields, desired: Fields): Fields {
    map k | k in desired && !(k in current && current[k] == desired[k]) :: desired[k]
  }

  /** The keys to clear that are there. */
  function ToClear(current: Fields, clear: seq<string>): seq<string> {
    if clear == [] then []
    else (if clear[0] in current then [clear[0]] else []) + ToClear(current, clear[1..])
  }

  function UpdateBody(current: Fields, desired: Fields, clear: seq<string>, digest: Option<string>): Fields {
    var changes := DiffFields(current, desired);
    var gone := ToClear(current, clear);
    var cleared := if gone == [] then changes else changes["delete" := Names(gone)];
    if digest.Some? then cleared["digest" := Text(digest.value)] else cleared
  }

  function Update(
      kind: Kind, existing: Option<Fields>, id: string, desired: Fields, clear: seq<string>, digest: Option<string>)
    : Result<seq<JobCall>, Refusal>
  {
    if existing.None? then Err(NoSuchJob)
    else if DiffFields(existing.value, desired) == map[] && ToClear(existing.value, clear) == [] then Ok([])
    else Ok([UpdateJob(kind, id, UpdateBody(existing.value, desired, clear, digest))])
  }

  /** `update_steps`: the body is built one change at a time, in any order. */
  method UpdateSteps(
      kind: Kind, existing: Option<Fields>, id: string, desired: Fields, clear: seq<string>, digest: Option<string>)
    returns (steps: Result<seq<JobCall>, Refusal>)
    requires desired.Keys !! CONTROL
    ensures steps == Update(kind, existing, id, desired, clear, digest)
  {
    if existing.None? {
      return Err(NoSuchJob);
    }
    var current := existing.value;
    var changes := DiffFields(current, desired);
    var gone := ToClear(current, clear);
    if changes == map[] && gone == [] {
      return Ok([]);
    }
    var body: Fields := map[];
    var keys := changes.Keys;
    while keys != {}
      invariant keys <= changes.Keys
      invariant body == map k | k in changes && k !in keys :: changes[k]
    {
      var k :| k in keys;
      keys := keys - {k};
      body := body[k := changes[k]];
    }
    assert body == changes;
    if gone != [] {
      body := body["delete" := Names(gone)];
    }
    if digest.Some? {
      body := body["digest" := Text(digest.value)];
    }
    return Ok([UpdateJob(kind, id, body)]);
  }

  /** `create_steps`. */
  function CreateSteps(
      kind: Kind, existing: Option<Fields>, id: string, fields: Fields): Result<seq<JobCall>, Refusal> {
    if existing.Some? then Err(AlreadyExists) else Ok([CreateJob(kind, fields["id" := Text(id)])])
  }

  /** `ensure_steps`. */
  function EnsureSteps(kind: Kind, existing: Option<Fields>, id: string, fields: Fields, digest: Option<string>)
    : Result<seq<JobCall>, Refusal>
  {
    if existing.None? then CreateSteps(kind, None, id, fields) else Update(kind, existing, id, fields, [], digest)
  }

  /** The job sections of one kind, and the digest of their file. */
  datatype Section = Section(jobs: map<string, Fields>, digest: string)

  /** Each kind of job has a file of its own. */
  datatype Server = Server(sync: Section, verify: Section)
  {
    function Of(kind: Kind): Section {
      match kind case SyncJob => sync case VerifyJob => verify
    }

    function With(kind: Kind, section: Section): Server {
      match kind case SyncJob => this.(sync := section) case VerifyJob => this.(verify := section)
    }
  }

  /** PBS clears the named keys, then sets the given ones; a request with a stale digest is refused. */
  function ServeKind(s: Section, c: JobCall): Option<Section> {
    match c
    case CreateJob(_, body) =>
      if "id" !in body || !body["id"].Text? || body["id"].text in s.jobs then None
      else Some(s.(jobs := s.jobs[body["id"].text := body], digest := s.digest + "'"))
    case UpdateJob(_, id, body) =>
      if id !in s.jobs || ("digest" in body && body["digest"] != Text(s.digest)) then None
      else
        var gone := if "delete" in body && body["delete"].Names? then set k | k in body["delete"].names else {};
        Some(s.(jobs := s.jobs[id := (s.jobs[id] - gone) + (body - CONTROL)], digest := s.digest + "'"))
  }

  function Serve(s: Server, c: JobCall): Option<Server> {
    match ServeKind(s.Of(c.kind), c)
    case None => None
    case Some(section) => Some(s.With(c.kind, section))
  }

  /** Only jobs of this kind may be other than they were. */
  ghost predicate OnlyKind(s: Server, t: Server, kind: Kind) {
    forall k :: k != kind ==> t.Of(k) == s.Of(k)
  }

  lemma {:induction false} ClearExactly(current: Fields, clear: seq<string>)
    ensures forall k :: k in ToClear(current, clear) <==> k in clear && k in current
  {
    if clear != [] {
      ClearExactly(current, clear[1..]);
      assert clear == [clear[0]] + clear[1..];
    }
  }

  /** An update is planned exactly when a field differs or a key to clear is there. */
  lemma PlannedIffDifferent(
      kind: Kind, current: Fields, id: string, desired: Fields, clear: seq<string>, digest: Option<string>)
    ensures Update(kind, Some(current), id, desired, clear, digest) != Ok([]) <==>
      (exists k :: k in desired && !(k in current && current[k] == desired[k])) ||
        (exists k :: k in clear && k in current)
  {
    ClearExactly(current, clear);
    var d, gone := DiffFields(current, desired), ToClear(current, clear);
    assert gone != [] ==> gone[0] in gone;
    if k :| k in desired && !(k in current && current[k] == desired[k]) {
      assert k in d;
    }
    assert d != map[] ==> exists k :: k in d;
  }

  /** What is sent: the differing fields as desired, the keys to clear that are there, and the digest. Nothing else. */
  lemma OnlyDifferencesAreSent(current: Fields, desired: Fields, clear: seq<string>, digest: Option<string>)
    requires desired.Keys !! CONTROL
    ensures var body := UpdateBody(current, desired, clear, digest);
      && (forall k :: k !in CONTROL ==>
            (k in body <==> k in desired && !(k in current && current[k] == desired[k])) &&
            (k in body ==> body[k] == desired[k]))
      && ("delete" in body <==> exists k :: k in clear && k in current)
      && ("delete" in body ==>
            body["delete"].Names? && forall k :: k in body["delete"].names <==> k in clear && k in current)
      && ("digest" in body <==> digest.Some?) && (digest.Some? ==> body["digest"] == Text(digest.value))
  {
    ClearExactly(current, clear);
    var gone := ToClear(current, clear);
    assert gone != [] ==> gone[0] in gone;
  }

  /** The job after an update. */
  function Goal(current: Fields, desired: Fields, clear: seq<string>): Fields {
    (map k | k in current && k !in clear :: current[k]) + desired
  }

  /**
    No request could say less: every one that brings the job to the same fields
    sets whatever this one sets, to the same value, and clears whatever it clears.
  */
  lemma LeastUpdate(s: Server, kind: Kind, id: string, desired: Fields, clear: seq<string>, other: Fields)
    requires id in s.Of(kind).jobs && desired.Keys !! CONTROL && s.Of(kind).jobs[id].Keys !! CONTROL &&
      forall k :: k in clear ==> k !in desired
    requires var t := Serve(s, UpdateJob(kind, id, other));
      t.Some? && t.value.Of(kind).jobs[id] == Goal(s.Of(kind).jobs[id], desired, clear)
    ensures var body := UpdateBody(s.Of(kind).jobs[id], desired, clear, Some(s.Of(kind).digest));
      && (forall k :: k in body && k !in CONTROL ==> k in other && other[k] == body[k])
      && ("delete" in body ==>
            && body["delete"].Names? && "delete" in other && other["delete"].Names?
            && forall k :: k in body["delete"].names ==> k in other["delete"].names)
  {
    var current := s.Of(kind).jobs[id];
    var body := UpdateBody(current, desired, clear, Some(s.Of(kind).digest));
    var after := Serve(s, UpdateJob(kind, id, other)).value.Of(kind).jobs[id];
    OnlyDifferencesAreSent(current, desired, clear, Some(s.Of(kind).digest));
    forall k | k in body && k !in CONTROL ensures k in other && other[k] == body[k] {
      assert k in after && after[k] == desired[k];
    }
    forall k | k in clear && k in current
      ensures "delete" in other && other["delete"].Names? && k in other["delete"].names
    {
      assert k !in after;
    }
  }

  /**
    One update is enough: from the version that was read, the planned call is
    accepted, every desired field is as desired, every cleared key that is not
    set is gone, every other key and every other job is as it was, and planning
    the same update again plans nothing.
  */
  lemma UpdateReaches(s: Server, kind: Kind, id: string, desired: Fields, clear: seq<string>)
    requires id in s.Of(kind).jobs && desired.Keys !! CONTROL && s.Of(kind).jobs[id].Keys !! CONTROL &&
      forall k :: k in clear ==> k !in desired
    ensures var was := s.Of(kind);
      var steps := Update(kind, Some(was.jobs[id]), id, desired, clear, Some(was.digest)).value;
      && |steps| <= 1
      && var t := if steps == [] then Some(s) else Serve(s, steps[0]);
        && t.Some? && OnlyKind(s, t.value, kind)
        && var now := t.value.Of(kind);
          && now.jobs.Keys == was.jobs.Keys && now.jobs[id] == Goal(was.jobs[id], desired, clear)
          && (forall j :: j in was.jobs && j != id ==> now.jobs[j] == was.jobs[j])
          && Update(kind, Some(now.jobs[id]), id, desired, clear, Some(now.digest)) == Ok([])
  {
    var was := s.Of(kind);
    var current := was.jobs[id];
    ClearExactly(current, clear);
    var steps := Update(kind, Some(current), id, desired, clear, Some(was.digest)).value;
    var goal := Goal(current, desired, clear);
    if steps == [] {
      PlannedIffDifferent(kind, current, id, desired, clear, Some(was.digest));
      assert goal == current;
    } else {
      UpdateServed(was, kind, id, desired, clear);
    }
    ReachedPlansNothing(kind, goal, id, desired, clear, Some(was.digest));
    ReachedPlansNothing(kind, goal, id, desired, clear, Some(was.digest + "'"));
  }

  lemma UpdateServed(s: Section, kind: Kind, id: string, desired: Fields, clear: seq<string>)
    requires id in s.jobs && desired.Keys !! CONTROL && s.jobs[id].Keys !! CONTROL &&
      forall k :: k in clear ==> k !in desired
    ensures var t := ServeKind(s, UpdateJob(kind, id, UpdateBody(s.jobs[id], desired, clear, Some(s.digest))));
      && t.Some? && t.value.digest == s.digest + "'"
      && t.value.jobs == s.jobs[id := Goal(s.jobs[id], desired, clear)]
  {
    hide UpdateBody;
    var current := s.jobs[id];
    var body := UpdateBody(current, desired, clear, Some(s.digest));
    OnlyDifferencesAreSent(current, desired, clear, Some(s.digest));
    var named := if "delete" in body && body["delete"].Names? then set k | k in body["delete"].names else {};
    assert forall k :: k in named <==> k in clear && k in current;
    assert (current - named) + (body - CONTROL) == Goal(current, desired, clear);
  }

  lemma ReachedPlansNothing(
      kind: Kind, current: Fields, id: string, desired: Fields, clear: seq<string>, digest: Option<string>)
    requires (forall k :: k in desired ==> k in current && current[k] == desired[k]) &&
      forall k :: k in clear ==> k !in current
    ensures Update(kind, Some(current), id, desired, clear, digest) == Ok([])
  {
    ClearExactly(current, clear);
    NoneIsEmpty(ToClear(current, clear));
    assert DiffFields(current, desired) == map[];
  }

  lemma NoneIsEmpty(s: seq<string>)
    ensures (forall k :: k !in s) ==> s == []
  {
    if s != [] {
      assert s[0] in s;
    }
  }

  /** An update planned from another version of the job is refused by the server. */
  lemma StaleUpdateIsRefused(s: Server, read: Section, kind: Kind, id: string, desired: Fields, clear: seq<string>)
    requires id in read.jobs && desired.Keys !! CONTROL && s.Of(kind).digest != read.digest
    ensures forall c :: c in Update(kind, Some(read.jobs[id]), id, desired, clear, Some(read.digest)).value ==>
      Serve(s, c).None?
  {
    var body := UpdateBody(read.jobs[id], desired, clear, Some(read.digest));
    assert body["digest"] == Text(read.digest);
  }

  /** What the server has under this id. */
  function Found(s: Server, kind: Kind, id: string): Option<Fields> {
    if id in s.Of(kind).jobs then Some(s.Of(kind).jobs[id]) else None
  }

  /** A job is created only under an id that is free, is updated only where there is one, and ensuring never fails. */
  lemma RefusedExactly(
      s: Server, kind: Kind, id: string, fields: Fields, clear: seq<string>, digest: Option<string>)
    ensures CreateSteps(kind, Found(s, kind, id), id, fields) == Err(AlreadyExists) <==> id in s.Of(kind).jobs
    ensures Update(kind, Found(s, kind, id), id, fields, clear, digest) == Err(NoSuchJob) <==> id !in s.Of(kind).jobs
    ensures EnsureSteps(kind, Found(s, kind, id), id, fields, digest).Ok?
  {
  }

  /** Creating a job and then ensuring the same fields plans nothing. */
  lemma CreateThenEnsure(s: Server, kind: Kind, id: string, fields: Fields)
    requires id !in s.Of(kind).jobs && fields.Keys !! CONTROL && "id" !in fields
    ensures var steps := EnsureSteps(kind, Found(s, kind, id), id, fields, None).value;
      && |steps| == 1 && Serve(s, steps[0]).Some?
      && var t := Serve(s, steps[0]).value;
        && OnlyKind(s, t, kind) && t.Of(kind).jobs.Keys == s.Of(kind).jobs.Keys + {id}
        && (forall j :: j in s.Of(kind).jobs ==> t.Of(kind).jobs[j] == s.Of(kind).jobs[j])
        && t.Of(kind).jobs[id] - {"id"} == fields
        && EnsureSteps(kind, Found(t, kind, id), id, fields, Some(t.Of(kind).digest)) == Ok([])
  {
    var t := ServeKind(s.Of(kind), CreateJob(kind, fields["id" := Text(id)])).value;
    assert t.jobs[id] - {"id"} == fields;
    ReachedPlansNothing(kind, t.jobs[id], id, fields, [], Some(t.digest));
  }

  /** Ensuring reaches the fields wherever it starts, one call at most, and is then done. */
  lemma EnsureReaches(s: Server, kind: Kind, id: string, fields: Fields)
    requires fields.Keys !! CONTROL && "id" !in fields
    requires id in s.Of(kind).jobs ==> s.Of(kind).jobs[id].Keys !! CONTROL
    ensures var was := s.Of(kind);
      var steps := EnsureSteps(kind, Found(s, kind, id), id, fields, Some(was.digest)).value;
      && |steps| <= 1
      && var t := if steps == [] then Some(s) else Serve(s, steps[0]);
        && t.Some? && OnlyKind(s, t.value, kind)
        && var now := t.value.Of(kind);
          && now.jobs.Keys == was.jobs.Keys + {id}
          && (forall j :: j in was.jobs && j != id ==> now.jobs[j] == was.jobs[j])
          && (forall k :: k in fields ==> k in now.jobs[id] && now.jobs[id][k] == fields[k])
          && (forall k :: k in now.jobs[id] && k !in fields ==>
                if id in was.jobs then k in was.jobs[id] && now.jobs[id][k] == was.jobs[id][k] else k == "id")
          && EnsureSteps(kind, Found(t.value, kind, id), id, fields, Some(now.digest)) == Ok([])
  {
    if id in s.Of(kind).jobs {
      UpdateReaches(s, kind, id, fields, []);
    } else {
      CreateThenEnsure(s, kind, id, fields);
    }
  }
}
