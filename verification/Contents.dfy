/** Deletes that take backups with them: plan items bound to what the operator saw. */
module Contents {
  import opened Wrappers
  import opened Stamps
  import opened Plans

  /** What a namespace subtree holds. */
  datatype NsContents = NsContents(groups: nat, snapshots: nat, lastBackup: int)

  datatype Group = Group(kind: string, id: string, count: nat, lastBackup: int)

  function Signed(n: int): string {
    if n < 0 then "-" + Decimal(-n) else Decimal(n)
  }

  /** `NsContents::fingerprint`. */
  function Fingerprint(c: NsContents): string {
    "g" + Decimal(c.groups) + ".s" + Decimal(c.snapshots) + "@" + Signed(c.lastBackup)
  }

  function GroupMark(count: nat, last: int): string {
    Decimal(count) + "@" + Signed(last)
  }

  lemma {:induction false} DecimalReads(n: nat)
    ensures (forall c :: c in Decimal(n) ==> IsDigit(c)) && Number(Decimal(n)) == n && Decimal(n) != ""
  {
    var d := Decimal(n);
    if n < 10 {
      assert d[..|d| - 1] == "";
    } else {
      DecimalReads(n / 10);
      assert d[..|d| - 1] == Decimal(n / 10);
    }
  }

  /** Numbers are told apart by their decimals, signs included. */
  lemma SignedInjective(a: int, b: int)
    requires Signed(a) == Signed(b)
    ensures a == b
  {
    hide Decimal, Number;
    DecimalReads(if a < 0 then -a else a);
    DecimalReads(if b < 0 then -b else b);
    var x, y := Decimal(if a < 0 then -a else a), Decimal(if b < 0 then -b else b);
    assert x[0] in x && y[0] in y;
    assert a < 0 ==> Signed(a)[0] == '-' && Signed(a)[1..] == x;
    assert b < 0 ==> Signed(b)[0] == '-' && Signed(b)[1..] == y;
  }

  /** Cut at the first `c`, a string comes apart one way only. */
  lemma {:induction false} CutFirst(x: string, y: string, x': string, y': string, c: char)
    requires c !in x && c !in x' && x + [c] + y == x' + [c] + y'
    ensures x == x' && y == y'
    decreases |x|
  {
    var s := x + [c] + y;
    assert s[0] == (if x == "" then c else x[0]) && s[0] == (if x' == "" then c else x'[0]);
    if x == "" || x' == "" {
      assert s[1..] == y && s[1..] == y';
    } else {
      assert s[1..] == x[1..] + [c] + y && s[1..] == x'[1..] + [c] + y';
      assert x[0] == s[0] == x'[0];
      CutFirst(x[1..], y, x'[1..], y', c);
    }
  }

  /** Nor at the last one. */
  lemma {:induction false} CutLast(x: string, y: string, x': string, y': string, c: char)
    requires c !in y && c !in y' && x + [c] + y == x' + [c] + y'
    ensures x == x' && y == y'
    decreases |y|
  {
    var s := x + [c] + y;
    var n := |s| - 1;
    assert s[n] == (if y == "" then c else y[|y| - 1]) && s[n] == (if y' == "" then c else y'[|y'| - 1]);
    if y == "" || y' == "" {
      assert s[..n] == x && s[..n] == x';
    } else {
      assert s[..n] == x + [c] + y[..|y| - 1] && s[..n] == x' + [c] + y'[..|y'| - 1];
      assert y[|y| - 1] == s[n] == y'[|y'| - 1];
      CutLast(x, y[..|y| - 1], x', y'[..|y'| - 1], c);
      assert y == y[..|y| - 1] + [s[n]] && y' == y'[..|y'| - 1] + [s[n]];
    }
  }

  lemma OnlyDigits(n: nat, c: char)
    requires !IsDigit(c)
    ensures c !in Decimal(n)
  {
    DecimalReads(n);
  }

  /** A number is written with a minus sign exactly when it is negative. */
  lemma SignedReads(n: int)
    ensures '-' in Signed(n) <==> n < 0
    ensures Signed(n) != "" && (n < 0 ==> Signed(n)[0] == '-')
    ensures var digits := if n < 0 then Signed(n)[1..] else Signed(n);
      (forall c :: c in digits ==> IsDigit(c)) && Number(digits) == if n < 0 then -n else n
  {
    hide Decimal, Number;
    DecimalReads(if n < 0 then -n else n);
    assert n < 0 ==> Signed(n)[1..] == Decimal(-n);
  }

  lemma MarkInjective(a: nat, x: int, b: nat, y: int)
    requires GroupMark(a, x) == GroupMark(b, y)
    ensures a == b && x == y
  {
    hide Decimal, Number, Signed;
    OnlyDigits(a, '@');
    OnlyDigits(b, '@');
    DecimalReads(a);
    DecimalReads(b);
    CutFirst(Decimal(a), Signed(x), Decimal(b), Signed(y), '@');
    SignedInjective(x, y);
  }

  /** A fingerprint names one count of groups, one of snapshots and one last backup. */
  lemma FingerprintInjective(c: NsContents, d: NsContents)
    requires Fingerprint(c) == Fingerprint(d)
    ensures c == d
  {
    hide Decimal, Number, Signed, GroupMark, Fingerprint;
    OnlyDigits(c.groups, '.');
    OnlyDigits(d.groups, '.');
    DecimalReads(c.groups);
    DecimalReads(d.groups);
    FingerprintShape(c);
    FingerprintShape(d);
    var p, q := GroupMark(c.snapshots, c.lastBackup), GroupMark(d.snapshots, d.lastBackup);
    AfterPrefix("g", Decimal(c.groups) + ['.'] + ("s" + p), Decimal(d.groups) + ['.'] + ("s" + q));
    CutFirst(Decimal(c.groups), "s" + p, Decimal(d.groups), "s" + q, '.');
    AfterPrefix("s", p, q);
    MarkInjective(c.snapshots, c.lastBackup, d.snapshots, d.lastBackup);
  }

  lemma FingerprintShape(c: NsContents)
    ensures Fingerprint(c) == "g" + (Decimal(c.groups) + ['.'] + ("s" + GroupMark(c.snapshots, c.lastBackup)))
  {
    hide Decimal, Signed;
  }

  lemma AfterPrefix(s: string, a: string, b: string)
    requires s + a == s + b
    ensures a == b
  {
    assert (s + a)[|s|..] == a && (s + b)[|s|..] == b;
  }

  /** How a group is named in a step; the root namespace has a name of its own. */
  function GroupTarget(store: string, ns: Option<string>, kind: string, id: string): string {
    store + ":ns=" + (if ns.Some? && ns.value != "" then ns.value else "root") + ":" + kind + "/" + id
  }

  function NsQuery(ns: Option<string>): seq<(string, string)> {
    if ns.Some? && ns.value != "" then [("ns", ns.value)] else []
  }

  function FindGroup(gs: seq<Group>, kind: string, id: string): Option<Group> {
    if gs == [] then None
    else if gs[0].kind == kind && gs[0].id == id then Some(gs[0])
    else FindGroup(gs[1..], kind, id)
  }

  function GroupStep(
      store: string, ns: Option<string>, kind: string, id: string, count: nat, last: int): Step<ApiCall> {
    Step(
      GroupTarget(store, ns, kind, id) + "#" + GroupMark(count, last), "delete-group",
      Delete(["admin", "datastore", store, "groups"], [("backup-type", kind), ("backup-id", id)] + NsQuery(ns)), false)
  }

  type Found = seq<(string, seq<Group>)>

  function GroupSteps(found: Found, ns: Option<string>, kind: string, id: string): seq<Step<ApiCall>> {
    if found == [] then []
    else
      (match FindGroup(found[0].1, kind, id)
       case None => []
       case Some(g) => [GroupStep(found[0].0, ns, kind, id, g.count, g.lastBackup)])
      + GroupSteps(found[1..], ns, kind, id)
  }

  function GroupNotes(found: Found, kind: string, id: string): seq<string> {
    if found == [] then []
    else
      (if FindGroup(found[0].1, kind, id).None? then [NoteOf(found[0].0, kind, id)] else [])
      + GroupNotes(found[1..], kind, id)
  }

  datatype GroupCount = GroupCount(count: nat, lastBackup: int)

  /** `call` deletes the group of this type and id from this namespace of the datastore, and from no other. */
  ghost predicate DeletesGroup(call: ApiCall, store: string, ns: string, kind: string, id: string) {
    && call.Delete? && call.path == ["admin", "datastore", store, "groups"]
    && call.query == [("backup-type", kind), ("backup-id", id)] + (if ns == "" then [] else [("ns", ns)])
  }

  /** The echoed item that confirms this delete: the place, the number of snapshots and the last backup. */
  ghost predicate NamesGroup(item: string, store: string, ns: string, kind: string, id: string, now: GroupCount) {
    item == "delete-group " + store + ":ns=" + (if ns == "" then "root" else ns) + ":" + kind + "/" + id
      + "#" + Decimal(now.count) + "@" + Signed(now.lastBackup)
  }

  /** The namespace meant: none given is the root, whose name is empty. */
  function Named(ns: Option<string>): string {
    if ns.Some? then ns.value else ""
  }

  /** `g` is the first group of its type and id in what was read from a datastore. */
  ghost predicate FirstOf(gs: seq<Group>, g: Group, kind: string, id: string) {
    exists i :: 0 <= i < |gs| && gs[i] == g && g.kind == kind && g.id == id
      && forall j :: 0 <= j < i ==> gs[j].kind != kind || gs[j].id != id
  }

  lemma {:induction false} FindsFirst(gs: seq<Group>, kind: string, id: string)
    ensures match FindGroup(gs, kind, id)
      case None => forall g :: g in gs ==> g.kind != kind || g.id != id
      case Some(g) => FirstOf(gs, g, kind, id)
  {
    if gs != [] {
      FindsFirst(gs[1..], kind, id);
      assert gs == [gs[0]] + gs[1..];
      if FindGroup(gs, kind, id).Some? && !(gs[0].kind == kind && gs[0].id == id) {
        var g := FindGroup(gs, kind, id).value;
        var i :| 0 <= i < |gs[1..]| && gs[1..][i] == g
          && forall j :: 0 <= j < i ==> gs[1..][j].kind != kind || gs[1..][j].id != id;
        assert gs[i + 1] == g;
        assert forall j :: 0 < j < i + 1 ==> gs[j] == gs[1..][j - 1];
      }
    }
  }

  lemma StepNamesGroup(store: string, ns: Option<string>, kind: string, id: string, count: nat, last: int)
    ensures var s := GroupStep(store, ns, kind, id, count, last);
      && DeletesGroup(s.call, store, Named(ns), kind, id)
      && NamesGroup(Item(s), store, Named(ns), kind, id, GroupCount(count, last))
  {
    hide Decimal, Signed;
    var place := store + ":ns=" + (if Named(ns) == "" then "root" else Named(ns)) + ":" + kind + "/" + id;
    assert GroupTarget(store, ns, kind, id) == place;
    assert Item(GroupStep(store, ns, kind, id, count, last))
        == "delete-group " + place + "#" + Decimal(count) + "@" + Signed(last);
    assert "delete-group " + place
        == "delete-group " + store + ":ns=" + (if Named(ns) == "" then "root" else Named(ns)) + ":" + kind + "/" + id;
  }

  /** Each step deletes the group in one datastore, and its item holds the counts just read there. */
  lemma {:induction false} GroupStepsBound(found: Found, ns: Option<string>, kind: string, id: string)
    ensures forall s :: s in GroupSteps(found, ns, kind, id) <==>
      exists f :: f in found && FindGroup(f.1, kind, id).Some?
        && s == GroupStep(f.0, ns, kind, id, FindGroup(f.1, kind, id).value.count,
          FindGroup(f.1, kind, id).value.lastBackup)
  {
    hide GroupStep, FindGroup;
    if found != [] {
      GroupStepsBound(found[1..], ns, kind, id);
      assert found == [found[0]] + found[1..];
    }
  }

  /** `s` deletes `g` from the datastore it was read from, and its item says what was read. */
  ghost predicate StepFor(
      s: Step<ApiCall>, f: (string, seq<Group>), g: Group, ns: Option<string>, kind: string, id: string) {
    && FirstOf(f.1, g, kind, id) && DeletesGroup(s.call, f.0, Named(ns), kind, id)
    && NamesGroup(Item(s), f.0, Named(ns), kind, id, GroupCount(g.count, g.lastBackup))
  }

  /** One step for each datastore that holds the group, and none for the others. */
  ghost predicate StepsFor(steps: seq<Step<ApiCall>>, found: Found, ns: Option<string>, kind: string, id: string) {
    && (forall s :: s in steps ==> exists f, g :: f in found && StepFor(s, f, g, ns, kind, id))
    && (forall f :: f in found && (exists g :: g in f.1 && g.kind == kind && g.id == id) ==>
          exists s, g :: s in steps && StepFor(s, f, g, ns, kind, id))
  }

  lemma StepsExactly(found: Found, ns: Option<string>, kind: string, id: string)
    ensures StepsFor(GroupSteps(found, ns, kind, id), found, ns, kind, id)
  {
    hide GroupStep, FindGroup, GroupSteps, FirstOf, DeletesGroup, NamesGroup;
    var steps := GroupSteps(found, ns, kind, id);
    GroupStepsBound(found, ns, kind, id);
    forall s | s in steps ensures exists f, g :: f in found && StepFor(s, f, g, ns, kind, id) {
      var f :| f in found && FindGroup(f.1, kind, id).Some?
        && s == GroupStep(f.0, ns, kind, id, FindGroup(f.1, kind, id).value.count,
          FindGroup(f.1, kind, id).value.lastBackup);
      StepOf(f, ns, kind, id);
    }
    forall f | f in found && (exists g :: g in f.1 && g.kind == kind && g.id == id)
      ensures exists s, g :: s in steps && StepFor(s, f, g, ns, kind, id)
    {
      FindsFirst(f.1, kind, id);
      StepOf(f, ns, kind, id);
      var g := FindGroup(f.1, kind, id).value;
      assert GroupStep(f.0, ns, kind, id, g.count, g.lastBackup) in steps;
    }
  }

  lemma StepOf(f: (string, seq<Group>), ns: Option<string>, kind: string, id: string)
    requires FindGroup(f.1, kind, id).Some?
    ensures var g := FindGroup(f.1, kind, id).value;
      StepFor(GroupStep(f.0, ns, kind, id, g.count, g.lastBackup), f, g, ns, kind, id)
  {
    hide FindGroup;
    var g := FindGroup(f.1, kind, id).value;
    FindsFirst(f.1, kind, id);
    StepNamesGroup(f.0, ns, kind, id, g.count, g.lastBackup);
  }

  /** `group_delete_steps`. */
  method GroupDeleteSteps(found: Found, ns: Option<string>, kind: string, id: string)
    returns (steps: seq<Step<ApiCall>>, notes: seq<string>)
    ensures steps == GroupSteps(found, ns, kind, id) && notes == GroupNotes(found, kind, id)
    ensures StepsFor(steps, found, ns, kind, id)
  {
    hide GroupStep, FindGroup, NoteOf, StepsFor;
    steps, notes := [], [];
    StepsExactly(found, ns, kind, id);
    for i := 0 to |found|
      invariant steps + GroupSteps(found[i..], ns, kind, id) == GroupSteps(found, ns, kind, id)
      invariant notes + GroupNotes(found[i..], kind, id) == GroupNotes(found, kind, id)
    {
      var (store, gs) := found[i];
      assert found[i..][0] == found[i] && found[i..][1..] == found[i + 1..];
      ghost var moreSteps, moreNotes := GroupSteps(found[i + 1..], ns, kind, id), GroupNotes(found[i + 1..], kind, id);
      match FindGroup(gs, kind, id) {
        case None =>
          Shift(notes, NoteOf(store, kind, id), moreNotes);
          assert [] + moreSteps == moreSteps;
          notes := notes + [NoteOf(store, kind, id)];
        case Some(g) =>
          var s := GroupStep(store, ns, kind, id, g.count, g.lastBackup);
          Shift(steps, s, moreSteps);
          assert [] + moreNotes == moreNotes;
          steps := steps + [s];
      }
    }
  }

  lemma Shift<T>(a: seq<T>, x: T, b: seq<T>)
    ensures a + ([x] + b) == (a + [x]) + b
  {
  }

  function NoteOf(store: string, kind: string, id: string): string {
    store + ": no group " + kind + "/" + id
  }

  /** Each note names a datastore that does not hold the group. */
  lemma {:induction false} NotesExactly(found: Found, kind: string, id: string)
    ensures forall n :: n in GroupNotes(found, kind, id) <==>
      exists f :: f in found && FindGroup(f.1, kind, id).None? && n == NoteOf(f.0, kind, id)
  {
    hide FindGroup, NoteOf;
    if found != [] {
      NotesExactly(found[1..], kind, id);
      assert found == [found[0]] + found[1..];
    }
  }

  lemma NoteNamesStore(store: string, store': string, kind: string, id: string)
    requires NoteOf(store, kind, id) == NoteOf(store', kind, id)
    ensures store == store'
  {
    var tail := ": no group " + kind + "/" + id;
    assert NoteOf(store, kind, id) == store + tail && NoteOf(store', kind, id) == store' + tail;
    assert (store + tail)[..|store|] == store && (store' + tail)[..|store'|] == store';
  }

  predicate DeletesFrom(s: Step<ApiCall>, store: string) {
    s.call.Delete? && s.call.path == ["admin", "datastore", store, "groups"]
  }

  /** No datastore is passed over: it is in a note exactly when no step deletes anything from it. */
  lemma NotedIffKept(found: Found, ns: Option<string>, kind: string, id: string, f: (string, seq<Group>))
    requires f in found && forall x :: x in found && x.0 == f.0 ==> x == f
    ensures NoteOf(f.0, kind, id) in GroupNotes(found, kind, id) <==>
      !exists s :: s in GroupSteps(found, ns, kind, id) && DeletesFrom(s, f.0)
  {
    hide FindGroup, GroupNotes, GroupSteps, NoteOf, GroupMark, GroupTarget;
    NotesExactly(found, kind, id);
    GroupStepsBound(found, ns, kind, id);
    if FindGroup(f.1, kind, id).Some? {
      var g := FindGroup(f.1, kind, id).value;
      assert DeletesFrom(GroupStep(f.0, ns, kind, id, g.count, g.lastBackup), f.0);
      forall x | x in found && NoteOf(x.0, kind, id) == NoteOf(f.0, kind, id) ensures x == f {
        NoteNamesStore(x.0, f.0, kind, id);
      }
    } else {
      forall s | s in GroupSteps(found, ns, kind, id) ensures !DeletesFrom(s, f.0) {
        var x :| x in found && FindGroup(x.1, kind, id).Some?
          && s == GroupStep(x.0, ns, kind, id, FindGroup(x.1, kind, id).value.count,
            FindGroup(x.1, kind, id).value.lastBackup);
      }
    }
  }

  /**
    An item echoed from one read confirms the delete planned from another only
    if the counts and the last backup are the same.
  */
  lemma ConfirmsSameGroup(
      store: string, store': string, ns: Option<string>, kind: string, id: string, n: nat, t: int, n': nat, t': int)
    requires Item(GroupStep(store, ns, kind, id, n, t)) == Item(GroupStep(store', ns, kind, id, n', t'))
    ensures n == n' && t == t' && GroupTarget(store, ns, kind, id) == GroupTarget(store', ns, kind, id)
    ensures IsBound(Item(GroupStep(store, ns, kind, id, n, t)))
  {
    var a, b := "delete-group " + GroupTarget(store, ns, kind, id), "delete-group " + GroupTarget(store', ns, kind, id);
    NoHash(n, t);
    NoHash(n', t');
    hide GroupTarget, GroupMark;
    assert Item(GroupStep(store, ns, kind, id, n, t)) == a + ['#'] + GroupMark(n, t);
    assert Item(GroupStep(store', ns, kind, id, n', t')) == b + ['#'] + GroupMark(n', t');
    CutLast(a, GroupMark(n, t), b, GroupMark(n', t'), '#');
    MarkInjective(n, t, n', t');
    AfterPrefix("delete-group ", GroupTarget(store, ns, kind, id), GroupTarget(store', ns, kind, id));
  }

  /**
    An item names one namespace, but for the root: the item of a group there is
    that of the same group in a namespace called `root`.
  */
  lemma RootReadsAsRoot(
      store: string, ns: Option<string>, ns': Option<string>, kind: string, id: string, n: nat, t: int)
    ensures Item(GroupStep(store, ns, kind, id, n, t)) == Item(GroupStep(store, ns', kind, id, n, t)) <==>
      || Named(ns) == Named(ns')
      || (Named(ns) == "" && Named(ns') == "root") || (Named(ns) == "root" && Named(ns') == "")
  {
    hide Decimal, Signed, GroupMark, GroupStep, Item;
    StepNamesGroup(store, ns, kind, id, n, t);
    StepNamesGroup(store, ns', kind, id, n, t);
    var a, b := if Named(ns) == "" then "root" else Named(ns), if Named(ns') == "" then "root" else Named(ns');
    ItemAround(Item(GroupStep(store, ns, kind, id, n, t)), store, Named(ns), kind, id, GroupCount(n, t));
    ItemAround(Item(GroupStep(store, ns', kind, id, n, t)), store, Named(ns'), kind, id, GroupCount(n, t));
    if Item(GroupStep(store, ns, kind, id, n, t)) == Item(GroupStep(store, ns', kind, id, n, t)) {
      Around("delete-group " + store + ":ns=", a, b, ":" + kind + "/" + id + "#" + Decimal(n) + "@" + Signed(t));
    }
  }

  lemma ItemAround(item: string, store: string, ns: string, kind: string, id: string, now: GroupCount)
    requires NamesGroup(item, store, ns, kind, id, now)
    ensures item == "delete-group " + store + ":ns=" + (if ns == "" then "root" else ns)
      + (":" + kind + "/" + id + "#" + Decimal(now.count) + "@" + Signed(now.lastBackup))
  {
    hide Decimal, Signed;
  }

  lemma Around(x: string, a: string, b: string, y: string)
    requires x + a + y == x + b + y
    ensures a == b
  {
    var s := x + a + y;
    assert |a| == |b| && s[|x|..][..|a|] == a && s[|x|..][..|a|] == b;
  }

  lemma NoHash(n: nat, t: int)
    ensures '#' !in GroupMark(n, t)
  {
    hide Decimal;
    OnlyDigits(n, '#');
    OnlyDigits(if t < 0 then -t else t, '#');
  }

  /** `namespace_delete_steps`. */
  function NsSteps(store: string, existing: seq<string>, ns: string, contents: Option<NsContents>): seq<Step<ApiCall>> {
    if ns !in existing then [] else [NsStep(store, ns, contents)]
  }

  function NsStep(store: string, ns: string, contents: Option<NsContents>): Step<ApiCall> {
    Step(
      match contents { case Some(c) => store + ":" + ns + "#" + Fingerprint(c) case None => store + ":" + ns },
      "delete-namespace",
      Delete(["admin", "datastore", store, "namespace"],
             [("ns", ns), ("delete-groups", if contents.Some? then "true" else "false")]), false)
  }

  lemma NoHashPrint(c: NsContents)
    ensures '#' !in Fingerprint(c)
  {
    hide Decimal, Signed;
    OnlyDigits(c.groups, '#');
    NoHash(c.snapshots, c.lastBackup);
    assert forall x :: x in Fingerprint(c) ==>
      x in Decimal(c.groups) || x in GroupMark(c.snapshots, c.lastBackup) || x in "g.s";
  }

  /**
    A namespace delete that takes backups with it is confirmed only by the item
    that names exactly what it holds now.
  */
  lemma ConfirmsSameContents(store: string, ns: string, c: NsContents, store': string, ns': string, c': NsContents)
    requires Item(NsStep(store, ns, Some(c))) == Item(NsStep(store', ns', Some(c')))
    ensures c == c' && store + ":" + ns == store' + ":" + ns' && IsBound(Item(NsStep(store, ns, Some(c))))
  {
    hide Fingerprint, NsStep;
    var a, b := store + ":" + ns, store' + ":" + ns';
    NoHashPrint(c);
    NoHashPrint(c');
    NsItem(store, ns, c);
    NsItem(store', ns', c');
    CutLast("delete-namespace " + a, Fingerprint(c), "delete-namespace " + b, Fingerprint(c'), '#');
    FingerprintInjective(c, c');
    AfterPrefix("delete-namespace ", a, b);
  }

  lemma NsItem(store: string, ns: string, c: NsContents)
    ensures Item(NsStep(store, ns, Some(c))) == "delete-namespace " + (store + ":" + ns) + ['#'] + Fingerprint(c)
    ensures IsBound(Item(NsStep(store, ns, Some(c))))
  {
    hide Fingerprint;
    var s := Item(NsStep(store, ns, Some(c)));
    assert s == "delete-namespace " + (store + ":" + ns) + ['#'] + Fingerprint(c);
    assert s[|"delete-namespace " + (store + ":" + ns)|] == '#';
  }

  predicate InSubtree(n: string, ns: string) {
    n == ns || ns + "/" <= n
  }

  function Max(a: int, b: int): int {
    if a < b then b else a
  }

  function Add(c: NsContents, g: GroupCount): NsContents {
    NsContents(c.groups + 1, c.snapshots + g.count, Max(c.lastBackup, g.lastBackup))
  }

  function AddAll(c: NsContents, gs: seq<GroupCount>): NsContents
    decreases |gs|
  {
    if gs == [] then c else AddAll(Add(c, gs[0]), gs[1..])
  }

  /** Every group of the subtree, namespace by namespace. */
  function SubtreeGroups(existing: seq<string>, ns: string, read: map<string, seq<GroupCount>>): seq<GroupCount> {
    if existing == [] then []
    else
      (if InSubtree(existing[0], ns) && existing[0] in read then read[existing[0]] else [])
      + SubtreeGroups(existing[1..], ns, read)
  }

  lemma {:induction false} AddConcat(c: NsContents, a: seq<GroupCount>, b: seq<GroupCount>)
    ensures AddAll(c, a + b) == AddAll(AddAll(c, a), b)
    decreases |a|
  {
    if a == [] {
      assert a + b == b;
    } else {
      assert (a + b)[1..] == a[1..] + b;
      AddConcat(Add(c, a[0]), a[1..], b);
    }
  }

  const EMPTY := NsContents(0, 0, 0)

  /** `ns_contents`: `read` answers the groups endpoint for each namespace. */
  method ReadContents(existing: seq<string>, ns: string, read: map<string, seq<GroupCount>>) returns (out: NsContents)
    ensures out == AddAll(EMPTY, SubtreeGroups(existing, ns, read))
  {
    out := EMPTY;
    ghost var all := SubtreeGroups(existing, ns, read);
    for i := 0 to |existing|
      invariant AddAll(out, SubtreeGroups(existing[i..], ns, read)) == AddAll(EMPTY, all)
    {
      var n := existing[i];
      assert existing[i..][0] == n && existing[i..][1..] == existing[i + 1..];
      ghost var rest := SubtreeGroups(existing[i + 1..], ns, read);
      if InSubtree(n, ns) && n in read {
        var gs := read[n];
        AddConcat(out, gs, rest);
        for j := 0 to |gs|
          invariant AddAll(AddAll(out, gs[j..]), rest) == AddAll(EMPTY, all)
        {
          assert gs[j..][0] == gs[j] && gs[j..][1..] == gs[j + 1..];
          out := NsContents(out.groups + 1, out.snapshots + gs[j].count, Max(out.lastBackup, gs[j].lastBackup));
        }
      } else {
        assert [] + rest == rest;
      }
    }
  }

  function Snapshots(gs: seq<GroupCount>): nat {
    if gs == [] then 0 else gs[0].count + Snapshots(gs[1..])
  }

  /** What is added up: all groups, all their snapshots, and the latest backup of any of them. */
  lemma {:induction false} ContentsAreTotals(c: NsContents, gs: seq<GroupCount>)
    ensures var r := AddAll(c, gs);
      && r.groups == c.groups + |gs| && r.snapshots == c.snapshots + Snapshots(gs)
      && r.lastBackup >= c.lastBackup && (forall g :: g in gs ==> g.lastBackup <= r.lastBackup)
      && (r.lastBackup == c.lastBackup || exists g :: g in gs && g.lastBackup == r.lastBackup)
    decreases |gs|
  {
    if gs != [] {
      ContentsAreTotals(Add(c, gs[0]), gs[1..]);
      assert gs == [gs[0]] + gs[1..];
      assert gs[0] in gs;
    }
  }

  /** A snapshot added to a group of the subtree, and nothing else, always changes the fingerprint. */
  lemma NewBackupChangesFingerprint(a: seq<GroupCount>, g: GroupCount, b: seq<GroupCount>, g': GroupCount)
    requires g'.count == g.count + 1
    ensures Fingerprint(AddAll(EMPTY, a + [g] + b)) != Fingerprint(AddAll(EMPTY, a + [g'] + b))
  {
    var x, y := AddAll(EMPTY, a + [g] + b), AddAll(EMPTY, a + [g'] + b);
    ContentsAreTotals(EMPTY, a + [g] + b);
    ContentsAreTotals(EMPTY, a + [g'] + b);
    SnapshotsAround(a, g, b);
    SnapshotsAround(a, g', b);
    hide Fingerprint, AddAll, Snapshots;
    if Fingerprint(x) == Fingerprint(y) {
      FingerprintInjective(x, y);
    }
  }

  lemma {:induction false} SnapshotsAround(a: seq<GroupCount>, g: GroupCount, b: seq<GroupCount>)
    ensures Snapshots(a + [g] + b) == Snapshots(a) + g.count + Snapshots(b)
  {
    if a == [] {
      assert (a + [g] + b)[1..] == b;
    } else {
      assert (a + [g] + b)[1..] == a[1..] + [g] + b;
      SnapshotsAround(a[1..], g, b);
    }
  }

  /** `f` and `g` are the fresh read that `call` acts on, under an echoed item that says what was read. */
  ghost predicate AsRead(
      f: (string, seq<Group>), g: Group, ns: Option<string>, kind: string, id: string, items: seq<string>,
      call: ApiCall) {
    && FirstOf(f.1, g, kind, id) && DeletesGroup(call, f.0, Named(ns), kind, id)
    && exists i :: i in items && NamesGroup(i, f.0, Named(ns), kind, id, GroupCount(g.count, g.lastBackup))
  }

  /** `call` deletes a group as it was read just now, under an echoed item that says so. */
  ghost predicate DeletesAsRead(
      found: Found, ns: Option<string>, kind: string, id: string, items: seq<string>, call: ApiCall) {
    exists f, g :: f in found && AsRead(f, g, ns, kind, id, items, call)
  }

  /**
    `group_delete`, given what was read just now: every call made deletes the
    group from a datastore that holds it, under an echoed item that carries the
    snapshot count and last backup just read there; and nothing is called at
    all if some echoed item no longer matches.
  */
  method GroupDelete(
      c: Client<ApiCall>, found: Found, ns: Option<string>, kind: string, id: string, items: seq<string>, execute: bool,
      admin: bool)
    returns (r: Result<Change<ApiCall>, Refused>)
    modifies c, c.kernel
    ensures old(c.attempted) <= c.attempted
    ensures
      || !execute || !admin
      || (exists i :: i in items && IsBound(i) && !Planned(GroupSteps(found, ns, kind, id), i)) ==>
      c.attempted == old(c.attempted)
    ensures forall k :: |old(c.attempted)| <= k < |c.attempted| ==>
      DeletesAsRead(found, ns, kind, id, items, c.attempted[k])
    ensures r.Ok? && execute ==> c.attempted == old(c.attempted) + Calls(Kept(GroupSteps(found, ns, kind, id), items))
    ensures var steps := GroupSteps(found, ns, kind, id);
      && (r.Ok? && execute ==>
            r.value == Applied(Kept(steps, items), GroupNotes(found, kind, id) + Dropped(steps, items)))
      && (r.Ok? && !execute ==> r.value == Planning(Items(steps)))
    ensures !admin ==> r == Err(NotAdmin)
    ensures r.Ok? <==>
      && admin && var steps := GroupSteps(found, ns, kind, id);
        execute ==>
          && RefuseDrifted(steps, items).Ok? && (items == [] ==> steps == [])
          && c.AllArrive(Kept(steps, items), old(c.kernel.calls))
  {
    hide FindGroup, GroupSteps, GroupNotes, FirstOf, DeletesGroup, NamesGroup;
    var steps, notes := GroupDeleteSteps(found, ns, kind, id);
    ghost var before := c.attempted;
    r := c.DeleteConfirmed(execute, admin, steps, notes, items);
    forall k | |before| <= k < |c.attempted| ensures DeletesAsRead(found, ns, kind, id, items, c.attempted[k]) {
      assert Confirmed(steps, items, c.attempted[k]);
      var s :| s in steps && Item(s) in items && s.call == c.attempted[k];
      var f, g :| f in found && StepFor(s, f, g, ns, kind, id);
      assert AsRead(f, g, ns, kind, id, items, c.attempted[k]);
    }
  }

  /** `call` deletes the namespace, and the backups in and below it only when `groups`. */
  ghost predicate DeletesNs(call: ApiCall, store: string, ns: string, groups: bool) {
    && call.Delete? && call.path == ["admin", "datastore", store, "namespace"]
    && call.query == [("ns", ns), ("delete-groups", if groups then "true" else "false")]
  }

  /** The echoed item that confirms it: the contents too, when they go with it. */
  ghost predicate NamesContents(item: string, store: string, ns: string, now: Option<NsContents>) {
    item == "delete-namespace " + store + ":" + ns + match now
      case None => ""
      case Some(c) => "#g" + Decimal(c.groups) + ".s" + Decimal(c.snapshots) + "@" + Signed(c.lastBackup)
  }

  /** `call` deletes the namespace that holds what `now` says, under an echoed item that says so. */
  ghost predicate DeletesNamed(
      store: string, existing: seq<string>, ns: string, now: Option<NsContents>, items: seq<string>, call: ApiCall) {
    && ns in existing && DeletesNs(call, store, ns, now.Some?)
    && exists i :: i in items && NamesContents(i, store, ns, now)
  }

  lemma StepNamesContents(store: string, ns: string, now: Option<NsContents>)
    ensures var s := NsStep(store, ns, now);
      DeletesNs(s.call, store, ns, now.Some?) && NamesContents(Item(s), store, ns, now)
  {
    hide Decimal, Signed;
    var place := "delete-namespace " + store + ":" + ns;
    assert "delete-namespace " + (store + ":" + ns) == place;
    if now.Some? {
      var c := now.value;
      var mark := "#g" + Decimal(c.groups) + ".s" + Decimal(c.snapshots) + "@" + Signed(c.lastBackup);
      assert "#" + Fingerprint(c) == mark;
      assert store + ":" + ns + "#" + Fingerprint(c) == store + ":" + ns + ("#" + Fingerprint(c));
      assert "delete-namespace " + (store + ":" + ns + mark) == place + mark;
    } else {
      assert place + "" == place;
    }
  }

  /**
    `namespace_delete`: with `deleteGroups` the only call is the delete of a
    namespace whose contents, read just now, are the ones its echoed item names.
  */
  method NamespaceDelete(
    c: Client<ApiCall>, store: string, existing: seq<string>, ns: string, deleteGroups: bool,
    read: map<string, seq<GroupCount>>,
    items: seq<string>, execute: bool, admin: bool)
    returns (r: Result<Change<ApiCall>, Refused>)
    modifies c, c.kernel
    ensures old(c.attempted) <= c.attempted
    ensures !execute || !admin ==> c.attempted == old(c.attempted)
    ensures var now := if deleteGroups then Some(AddAll(EMPTY, SubtreeGroups(existing, ns, read))) else None;
      && ((exists i :: i in items && IsBound(i) && !Planned(NsSteps(store, existing, ns, now), i)) ==>
        c.attempted == old(c.attempted))
      && (forall k :: |old(c.attempted)| <= k < |c.attempted| ==>
        DeletesNamed(store, existing, ns, now, items, c.attempted[k]))
      && (r.Ok? && execute ==> c.attempted == old(c.attempted) + Calls(Kept(NsSteps(store, existing, ns, now), items)))
      && (r.Ok? && !execute ==> r.value == Planning(Items(NsSteps(store, existing, ns, now))))
      && (r.Ok? && execute ==> r.value == Applied(
            Kept(NsSteps(store, existing, ns, now), items),
            (if ns in existing then [] else ["namespace " + ns + " does not exist"])
            + Dropped(NsSteps(store, existing, ns, now), items)))
      && (!admin ==> r == Err(NotAdmin))
      && (r.Ok? <==>
            && admin && var steps := NsSteps(store, existing, ns, now);
              execute ==>
                && RefuseDrifted(steps, items).Ok? && (items == [] ==> steps == [])
                && c.AllArrive(Kept(steps, items), old(c.kernel.calls)))
  {
    var contents: Option<NsContents> := None;
    if deleteGroups {
      var out := ReadContents(existing, ns, read);
      contents := Some(out);
    }
    hide AddAll, SubtreeGroups, NsStep;
    var steps := NsSteps(store, existing, ns, contents);
    var notes := if ns in existing then [] else ["namespace " + ns + " does not exist"];
    ghost var before := c.attempted;
    r := c.DeleteConfirmed(execute, admin, steps, notes, items);
    StepNamesContents(store, ns, contents);
    forall k | |before| <= k < |c.attempted| ensures DeletesNamed(store, existing, ns, contents, items,
      c.attempted[k]) {
      assert Confirmed(steps, items, c.attempted[k]);
      var s :| s in steps && Item(s) in items && s.call == c.attempted[k];
    }
  }
}
