/** `pbs_update`: an endpoint's token id and secret, which live in two stores, are rotated together. */
module Endpoint {
  import opened Wrappers
  import opened Kernels

  datatype Row = Row(tokenId: string, insecure: bool, routes: seq<string>, enabled: bool)

  /** The endpoint table and the secrets domain. */
  datatype Stores = Stores(rows: map<string, Row>, secrets: map<string, string>)

  /** `fingerprint` is trimmed; the empty one removes the pin. */
  datatype Args = Args(
    name: string, tokenId: Option<string>, secretRef: Option<string>, fingerprint: Option<string>,
    insecure: Option<bool>, routes: seq<string>, enabled: Option<bool>)

  datatype Field = TokenSecret | TokenId | Insecure | Routes | Enabled | Pin

  datatype Failure =
    /** Refused before the first write. */
    | Invalid
    | NotStaged
    | NoRow
    | NothingToUpdate
    /** A write failed; these had landed. */
    | WriteFailed(applied: seq<Field>)

  function SecretName(name: string): string {
    "pbs." + name + ".token_secret"
  }

  function PinName(name: string): string {
    "pbs." + name + ".fingerprint"
  }

  function StagedName(name: string): string {
    "pbs." + name + ".staged"
  }

  lemma NamesDiffer(name: string)
    ensures SecretName(name) != StagedName(name) && PinName(name) != StagedName(name) &&
      SecretName(name) != PinName(name)
  {
    var n := |"pbs." + name|;
    assert SecretName(name)[n..] == ".token_secret" && StagedName(name)[n..] == ".staged" &&
      PinName(name)[n..] == ".fingerprint";
    assert ".token_secret"[1] == 't' && ".staged"[1] == 's' && ".fingerprint"[1] == 'f';
  }

  predicate IsSpace(c: char) {
    c == ' ' || c == '\t' || c == '\n' || c == '\r'
  }

  predicate Blank(s: string) {
    forall c :: c in s ==> IsSpace(c)
  }

  /** `resolve_ref`: only this endpoint's own staged secret, and only if it holds something. */
  function ResolveRef(s: Stores, ref: string, name: string): Result<string, Failure> {
    if ref != StagedName(name) then Err(Invalid)
    else if ref !in s.secrets || Blank(s.secrets[ref]) then Err(NotStaged)
    else Ok(s.secrets[ref])
  }

  /** A secret is taken from this endpoint's own staging place, and only if it is there and not blank. */
  lemma StagedExactly(s: Stores, ref: string, name: string)
    ensures ResolveRef(s, ref, name).Ok? <==>
      ref == "pbs." + name + ".staged" && ref in s.secrets && exists c :: c in s.secrets[ref] && c !in " \t\n\r"
    ensures ResolveRef(s, ref, name).Ok? ==> ResolveRef(s, ref, name).value == s.secrets[ref]
  {
    assert forall c :: IsSpace(c) <==> c in " \t\n\r";
  }

  function Patched(row: Row, a: Args): Row {
    Row(
      if a.tokenId.Some? then a.tokenId.value else row.tokenId,
      if a.insecure.Some? then a.insecure.value else row.insecure,
      if a.routes != [] then a.routes else row.routes,
      if a.enabled.Some? then a.enabled.value else row.enabled)
  }

  function RowFields(a: Args): seq<Field> {
    (if a.tokenId.Some? then [TokenId] else []) + (if a.insecure.Some? then [Insecure] else [])
    + (if a.routes != [] then [Routes] else []) + (if a.enabled.Some? then [Enabled] else [])
  }

  /** A field is reported exactly when its argument is given, and it alone then changes, to that argument. */
  lemma FieldsExactly(row: Row, a: Args)
    ensures var r, f := Patched(row, a), RowFields(a);
      && (match a.tokenId case Some(v) => TokenId in f && r.tokenId == v
          case None => TokenId !in f && r.tokenId == row.tokenId)
      && (match a.insecure case Some(v) => Insecure in f && r.insecure == v
          case None => Insecure !in f && r.insecure == row.insecure)
      && (match a.enabled case Some(v) => Enabled in f && r.enabled == v
          case None => Enabled !in f && r.enabled == row.enabled)
      && (if a.routes != [] then Routes in f && r.routes == a.routes else Routes !in f && r.routes == row.routes)
      && TokenSecret !in f && Pin !in f
  {
  }

  /** All that an update writes, in the order in which it is written. */
  function AllFields(a: Args): seq<Field> {
    (if a.secretRef.Some? then [TokenSecret] else []) + RowFields(a) + (if a.fingerprint.Some? then [Pin] else [])
  }

  /** How many writes it takes: the secret, all fields of the row at once, and the pin. */
  function Writes(a: Args): nat {
    (if a.secretRef.Some? then 1 else 0)
    + (if a.tokenId.Some? || a.insecure.Some? || a.routes != [] || a.enabled.Some? then 1 else 0)
    + if a.fingerprint.Some? then 1 else 0
  }

  lemma RowIsWritten(a: Args)
    ensures Writes(a) == (if a.secretRef.Some? then 1 else 0) + (if RowFields(a) != [] then 1 else 0)
      + if a.fingerprint.Some? then 1 else 0
    ensures AllFields(a) == (if a.secretRef.Some? then [TokenSecret] else []) + RowFields(a)
      + if a.fingerprint.Some? then [Pin] else []
  {
  }

  /** What a failed update reports is there: the secret before the row, the row in one write, and never the pin. */
  ghost predicate Landed(s: Stores, a: Args, row: Row, secret: Option<string>, applied: seq<Field>) {
    && Pin !in applied && applied <= AllFields(a)
    && (secret.Some? && applied != [] ==> TokenSecret in applied && Stored(s, a.name, secret.value))
    && ((exists f :: f in applied && f != TokenSecret) ==>
          && a.name in s.rows && s.rows[a.name] == Patched(row, a)
          && forall f :: f in RowFields(a) ==> f in applied)
  }

  /** An update that will be attempted: `checked` is what the name, id and pin validators say. */
  ghost predicate Ready(s: Stores, a: Args, checked: bool) {
    && checked && a.name in s.rows
    && (a.secretRef.Some? ==> ResolveRef(s, a.secretRef.value, a.name).Ok?)
    && (RowFields(a) != [] || a.secretRef.Some? || a.fingerprint.Some?)
  }

  /** What the update is for. */
  ghost predicate Reached(s: Stores, a: Args, row: Row, secret: Option<string>) {
    && a.name in s.rows && s.rows[a.name] == Patched(row, a)
    && (secret.Some? ==> SecretName(a.name) in s.secrets && s.secrets[SecretName(a.name)] == secret.value)
    && (a.fingerprint.Some? ==>
          if a.fingerprint.value == "" then PinName(a.name) !in s.secrets
          else PinName(a.name) in s.secrets && s.secrets[PinName(a.name)] == a.fingerprint.value)
  }

  /** The new id is never beside any secret but the new one. */
  ghost predicate Paired(s: Stores, name: string, newId: string, newSecret: string) {
    name in s.rows && s.rows[name].tokenId == newId ==>
      SecretName(name) in s.secrets && s.secrets[SecretName(name)] == newSecret
  }

  ghost predicate Stored(s: Stores, name: string, secret: string) {
    SecretName(name) in s.secrets && s.secrets[SecretName(name)] == secret
  }

  ghost predicate Staged(s: Stores, name: string, secret: string) {
    StagedName(name) in s.secrets && s.secrets[StagedName(name)] == secret
  }

  /**
    The row is as it was, or as patched and then the secret is stored; the
    staged copy is there until the update is reached.
  */
  ghost predicate Safe(s: Stores, a: Args, row: Row, secret: Option<string>) {
    && a.name in s.rows
    && (s.rows[a.name] == row ||
      (s.rows[a.name] == Patched(row, a) && (secret.Some? ==> Stored(s, a.name, secret.value))))
    && (secret.Some? ==> Staged(s, a.name, secret.value) || Reached(s, a, row, secret))
  }

  /** In a safe state a row that names another token has that token's secret stored. */
  lemma NeverMixed(s: Stores, a: Args, row: Row, secret: string)
    requires Safe(s, a, row, Some(secret)) && a.tokenId.Some? && a.tokenId.value != row.tokenId
    ensures Paired(s, a.name, a.tokenId.value, secret)
  {
  }

  function StagedSecret(s: Stores, a: Args): Option<string> {
    if a.secretRef.Some? && ResolveRef(s, a.secretRef.value, a.name).Ok?
    then Some(ResolveRef(s, a.secretRef.value, a.name).value) else None
  }

  /** After a failure the same update can be run again, and what it reaches is what the first one was for. */
  lemma RunsAgain(s: Stores, a: Args, checked: bool, t: Stores)
    requires Ready(s, a, checked) && Safe(t, a, s.rows[a.name], StagedSecret(s, a))
    requires StagedSecret(s, a).Some? ==> Staged(t, a.name, StagedSecret(s, a).value)
    ensures Ready(t, a, checked) && StagedSecret(t, a) == StagedSecret(s, a)
    ensures Patched(t.rows[a.name], a) == Patched(s.rows[a.name], a)
    ensures forall u :: Reached(u, a, t.rows[a.name], StagedSecret(t, a)) <==>
      Reached(u, a, s.rows[a.name], StagedSecret(s, a))
  {
  }

  /** Part way: the staged copy is there, and what has been written so far is in place. */
  ghost predicate Going(s: Stores, a: Args, row: Row, secret: Option<string>, wroteSecret: bool, wroteRow: bool) {
    && Safe(s, a, row, secret)
    && (secret.Some? ==> Staged(s, a.name, secret.value))
    && (secret.Some? && wroteSecret ==> Stored(s, a.name, secret.value))
    && (wroteRow ==> s.rows[a.name] == Patched(row, a))
  }

  function WithSecret(s: Stores, a: Args, secret: string): Stores {
    s.(secrets := s.secrets[SecretName(a.name) := secret])
  }

  function WithRow(s: Stores, a: Args, row: Row): Stores {
    s.(rows := s.rows[a.name := Patched(row, a)])
  }

  function WithPin(s: Stores, a: Args, pin: string): Stores {
    s.(secrets := if pin == "" then s.secrets - {PinName(a.name)} else s.secrets[PinName(a.name) := pin])
  }

  function WithoutStaged(s: Stores, a: Args): Stores {
    s.(secrets := s.secrets - {StagedName(a.name)})
  }

  lemma SecretStep(s: Stores, a: Args, row: Row, secret: string)
    requires Going(s, a, row, Some(secret), false, false)
    ensures Going(WithSecret(s, a, secret), a, row, Some(secret), true, false)
  {
    NamesDiffer(a.name);
    hide SecretName, PinName, StagedName, Patched;
  }

  lemma RowStep(s: Stores, a: Args, row: Row, secret: Option<string>)
    requires Going(s, a, row, secret, true, false)
    ensures Going(WithRow(s, a, row), a, row, secret, true, true)
  {
    hide SecretName, PinName, StagedName, Patched;
  }

  lemma PinStep(s: Stores, a: Args, row: Row, secret: Option<string>)
    requires Going(s, a, row, secret, true, true) && a.fingerprint.Some?
    ensures Going(WithPin(s, a, a.fingerprint.value), a, row, secret, true, true)
    ensures Reached(WithPin(s, a, a.fingerprint.value), a, row, secret)
  {
    NamesDiffer(a.name);
    hide SecretName, PinName, StagedName, Patched;
  }

  lemma DropStep(s: Stores, a: Args, row: Row, secret: Option<string>)
    requires Safe(s, a, row, secret) && Reached(s, a, row, secret)
    ensures Safe(WithoutStaged(s, a), a, row, secret) && Reached(WithoutStaged(s, a), a, row, secret)
  {
    NamesDiffer(a.name);
    hide SecretName, PinName, StagedName, Patched;
  }

  lemma NoneLanded(s: Stores, a: Args, row: Row, secret: Option<string>)
    ensures Landed(s, a, row, secret, [])
  {
  }

  lemma SecretLanded(s: Stores, a: Args, row: Row, secret: Option<string>, applied: seq<Field>)
    requires (secret.Some? ==> Stored(s, a.name, secret.value)) && (a.secretRef.Some? <==> secret.Some?)
    requires applied == if secret.Some? then [TokenSecret] else []
    ensures Landed(s, a, row, secret, applied)
  {
    hide SecretName, RowFields;
    assert AllFields(a) == applied + (RowFields(a) + if a.fingerprint.Some? then [Pin] else []);
  }

  lemma RowLanded(s: Stores, a: Args, row: Row, secret: Option<string>, applied: seq<Field>)
    requires Going(s, a, row, secret, true, true) && a.fingerprint.Some? && (a.secretRef.Some? <==> secret.Some?)
    requires applied == (if secret.Some? then [TokenSecret] else []) + RowFields(a)
    ensures Landed(s, a, row, secret, applied)
  {
    hide SecretName, PinName, StagedName, Patched;
    FieldsExactly(row, a);
    assert AllFields(a) == applied + [Pin];
  }

  class Update {
    const kernel: Kernel
    var stores: Stores
    ghost var history: seq<Stores>

    constructor (s: Stores, kernel: Kernel)
      ensures stores == s && history == [s] && this.kernel == kernel
    {
      stores, history, this.kernel := s, [s], kernel;
    }

    /** One write. It may fail, and a write reported as failed may have landed all the same. */
    method Write(after: Stores) returns (ok: bool)
      modifies this, kernel
      ensures stores == after || stores == old(stores)
      ensures ok ==> stores == after
      ensures (ok <==> !kernel.faults(old(kernel.calls))) && kernel.calls == old(kernel.calls) + 1
      ensures history == old(history) + [stores]
    {
      var fault := kernel.Fault();
      ok := !fault;
      var landed: bool := *;
      if ok || landed {
        stores := after;
      }
      history := history + [stores];
    }

    /**
      `pbs_update`. Nothing is written unless the whole update is valid;
      whichever write fails, every state on the way is safe, a failure leaves
      the staged copy where it was, and without a failure the update is reached
      and the staged copy gone.
    */
    method Apply(a: Args, checked: bool) returns (r: Result<seq<Field>, Failure>)
      requires history == [stores]
      modifies this, kernel
      ensures r.Err? && !r.error.WriteFailed? <==> !Ready(old(stores), a, checked)
      ensures !Ready(old(stores), a, checked) ==> history == old(history) && stores == old(stores)
      ensures Ready(old(stores), a, checked) ==> forall t :: t in history ==>
        Safe(t, a, old(stores).rows[a.name], StagedSecret(old(stores), a))
      ensures r.Err? && r.error.WriteFailed? ==>
        StagedSecret(old(stores), a).Some? ==> Staged(stores, a.name, StagedSecret(old(stores), a).value)
      ensures r.Ok? ==> Reached(stores, a, old(stores).rows[a.name], StagedSecret(old(stores), a))
      ensures r.Ok? ==> r.value == AllFields(a)
      ensures r.Err? && r.error.WriteFailed? ==>
        Landed(stores, a, old(stores).rows[a.name], StagedSecret(old(stores), a), r.error.applied)
      ensures r.Ok? <==>
        Ready(old(stores), a, checked) && Quiet(kernel.faults, old(kernel.calls), old(kernel.calls) + Writes(a))
      ensures r.Ok? ==> |history| == 1 + Writes(a) + if a.secretRef.Some? then 1 else 0
      ensures r.Ok? && a.secretRef.Some? && !kernel.faults(old(kernel.calls) + Writes(a)) ==>
        StagedName(a.name) !in stores.secrets
      ensures |history| > 0 && stores == history[|history| - 1]
    {
      NamesDiffer(a.name);
      if !checked {
        return Err(Invalid);
      }
      var secret: Option<string> := None;
      if a.secretRef.Some? {
        var s := ResolveRef(stores, a.secretRef.value, a.name);
        if s.Err? {
          return Err(s.error);
        }
        secret := Some(s.value);
      }
      if a.name !in stores.rows {
        return Err(NoRow);
      }
      var row := stores.rows[a.name];
      if RowFields(a) == [] && secret.None? && a.fingerprint.None? {
        return Err(NothingToUpdate);
      }
      Starts(stores, a, checked);
      hide *;
      r := WriteAll(a, row, secret);
      if r.Ok? && a.secretRef.Some? {
        // Logged, not fatal.
        DropStep(stores, a, row, secret);
        var dropped := Write(WithoutStaged(stores, a));
        NoneStaged(stores, a);
      }
    }

    /** Each write keeps the state safe; the last one reaches the update. */
    method WriteAll(a: Args, row: Row, secret: Option<string>) returns (r: Result<seq<Field>, Failure>)
      requires history == [stores] && Going(stores, a, row, secret, false, false)
      requires a.secretRef.Some? <==> secret.Some?
      modifies this, kernel
      ensures |history| > 0 && stores == history[|history| - 1] && forall t :: t in history ==> Safe(t, a, row, secret)
      ensures r.Ok? ==> Reached(stores, a, row, secret)
      ensures r.Ok? ==> r.value == AllFields(a)
      ensures r.Err? ==> r.error.WriteFailed? && (secret.Some? ==> Staged(stores, a.name, secret.value))
      ensures r.Err? ==> Landed(stores, a, row, secret, r.error.applied)
      ensures kernel.Ran(old(kernel.calls), Writes(a), r.Ok?)
      ensures r.Ok? ==> |history| == 1 + Writes(a)
    {
      hide SecretName, PinName, StagedName, RowFields, Patched, Safe, Reached, WithSecret, WithRow, WithPin;
      hide Landed, Writes, AllFields;
      RowIsWritten(a);
      var applied: seq<Field> := [];
      NoSecretYet(stores, a, row, secret);
      if secret.Some? {
        SecretStep(stores, a, row, secret.value);
        var ok := Write(WithSecret(stores, a, secret.value));
        if !ok {
          NoneLanded(stores, a, row, secret);
          return Err(WriteFailed(applied));
        }
        applied := applied + [TokenSecret];
      }
      NoRowYet(stores, a, row, secret);
      if RowFields(a) != [] {
        RowStep(stores, a, row, secret);
        var ok := Write(WithRow(stores, a, row));
        if !ok {
          SecretLanded(stores, a, row, secret, applied);
          return Err(WriteFailed(applied));
        }
        applied := applied + RowFields(a);
      }
      NoPinIsReached(stores, a, row, secret);
      if a.fingerprint.Some? {
        PinStep(stores, a, row, secret);
        var ok := Write(WithPin(stores, a, a.fingerprint.value));
        if !ok {
          RowLanded(stores, a, row, secret, applied);
          return Err(WriteFailed(applied));
        }
        applied := applied + [Pin];
      }
      return Ok(applied);
    }
  }

  lemma Starts(s: Stores, a: Args, checked: bool)
    requires Ready(s, a, checked)
    ensures Going(s, a, s.rows[a.name], StagedSecret(s, a), false, false)
  {
  }

  lemma NoneStaged(s: Stores, a: Args)
    ensures s == WithoutStaged(s, a) ==> StagedName(a.name) !in s.secrets
    ensures StagedName(a.name) !in WithoutStaged(s, a).secrets
  {
  }

  lemma NoSecretYet(s: Stores, a: Args, row: Row, secret: Option<string>)
    requires Going(s, a, row, secret, false, false)
    ensures secret.None? ==> Going(s, a, row, secret, true, false)
  {
  }

  lemma NoRowYet(s: Stores, a: Args, row: Row, secret: Option<string>)
    requires Going(s, a, row, secret, true, false)
    ensures RowFields(a) == [] ==> Going(s, a, row, secret, true, true)
  {
    NoRowChange(row, a);
  }

  lemma NoPinIsReached(s: Stores, a: Args, row: Row, secret: Option<string>)
    requires Going(s, a, row, secret, true, true)
    ensures a.fingerprint.None? ==> Reached(s, a, row, secret)
  {
  }

  lemma NoRowChange(row: Row, a: Args)
    ensures RowFields(a) == [] ==> Patched(row, a) == row
  {
  }
}
