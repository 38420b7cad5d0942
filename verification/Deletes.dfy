/** What confirmed deletes do to the backups of a server. */
module Deletes {
  import opened Wrappers
  import opened Stamps
  import opened Plans
  import opened Contents

  /** Where a group is; the root namespace has the empty name. */
  datatype Place = Place(store: string, ns: string, kind: string, id: string)

  datatype Server = Server(groups: map<Place, GroupCount>, namespaces: set<(string, string)>)

  /** What a request says under this name; what it leaves out is empty. */
  function Asked(query: seq<(string, string)>, name: string): string {
    if query == [] then "" else if query[0].0 == name then query[0].1 else Asked(query[1..], name)
  }

  /** In the namespace of this datastore, or below it. */
  predicate Under(store: string, ns: string, atStore: string, atNs: string) {
    atStore == store && (atNs == ns || ns + "/" <= atNs)
  }

  /** A delete that arrives. A namespace goes with its groups when asked to, and else only if it holds none. */
  function Serve(s: Server, c: ApiCall): Server {
    if !c.Delete? || |c.path| != 4 || c.path[..2] != ["admin", "datastore"] then s
    else
      var store, ns := c.path[2], Asked(c.query, "ns");
      if c.path[3] == "groups" then
        s.(groups := s.groups - {Place(store, ns, Asked(c.query, "backup-type"), Asked(c.query, "backup-id"))})
      else if c.path[3] != "namespace" then s
      else
        var held := set k | k in s.groups && Under(store, ns, k.store, k.ns);
        if held != {} && Asked(c.query, "delete-groups") != "true" then s
        else Server(s.groups - held, set n | n in s.namespaces && !Under(store, ns, n.0, n.1))
  }

  /** The calls made one after another; any of them may have failed before it reached the server. */
  ghost predicate Leads(s: Server, calls: seq<ApiCall>, t: Server)
    decreases |calls|
  {
    if calls == [] then s == t else Leads(s, calls[1..], t) || Leads(Serve(s, calls[0]), calls[1..], t)
  }

  /** Every call went through. */
  function ServeAll(s: Server, calls: seq<ApiCall>): Server
    decreases |calls|
  {
    if calls == [] then s else ServeAll(Serve(s, calls[0]), calls[1..])
  }

  lemma {:induction false} AllIsOneWay(s: Server, calls: seq<ApiCall>)
    ensures Leads(s, calls, ServeAll(s, calls))
    decreases |calls|
  {
    if calls != [] {
      AllIsOneWay(Serve(s, calls[0]), calls[1..]);
    }
  }

  /** What was read from one datastore is what the server has there, in that namespace. */
  ghost predicate ReadsOff(s: Server, f: (string, seq<Group>), ns: string) {
    && (forall g :: g in f.1 ==>
          var k := Place(f.0, ns, g.kind, g.id);
          k in s.groups && s.groups[k] == GroupCount(g.count, g.lastBackup))
    && (forall k :: k in s.groups && k.store == f.0 && k.ns == ns ==>
          exists g :: g in f.1 && g.kind == k.kind && g.id == k.id)
  }

  ghost predicate ReadJustNow(s: Server, found: Found, ns: string) {
    forall f :: f in found ==> ReadsOff(s, f, ns)
  }

  /** The group is the one asked for, and an echoed item names what is in it. */
  ghost predicate IsConfirmed(s: Server, k: Place, ns: string, kind: string, id: string, items: seq<string>)
    requires k in s.groups
  {
    k.ns == ns && k.kind == kind && k.id == id
    && exists i :: i in items && NamesGroup(i, k.store, ns, kind, id, s.groups[k])
  }

  /** Nothing has changed but for confirmed groups that are gone. */
  ghost predicate OnlyConfirmedGo(
      s: Server, t: Server, ns: string, kind: string, id: string, items: seq<string>) {
    && t.namespaces == s.namespaces
    && (forall k :: k in t.groups ==> k in s.groups && t.groups[k] == s.groups[k])
    && (forall k :: k in s.groups && k !in t.groups ==> IsConfirmed(s, k, ns, kind, id, items))
  }

  lemma DeletesOne(s: Server, c: ApiCall, store: string, ns: string, kind: string, id: string)
    requires DeletesGroup(c, store, ns, kind, id)
    ensures Serve(s, c) == s.(groups := s.groups - {Place(store, ns, kind, id)})
  {
    var q := [("backup-type", kind), ("backup-id", id)];
    assert c.query[0] == q[0] && c.query[1..][0] == q[1];
    assert Asked(c.query, "backup-type") == kind;
    assert Asked(c.query[1..], "backup-id") == id;
    assert Asked(c.query, "backup-id") == id;
    var rest := c.query[1..][1..];
    assert rest == if ns == "" then [] else [("ns", ns)];
    assert Asked(rest, "ns") == ns;
    assert Asked(c.query[1..], "ns") == ns;
    assert Asked(c.query, "ns") == ns;
  }

  /**
    A delete of groups, wherever it stops: the groups that are gone are the one
    asked for, in the namespace asked for, of datastores where an echoed item
    names the number of snapshots and the last backup the group had. Every other
    group, and every namespace, is as it was.
  */
  lemma {:induction false} OnlyConfirmedGroupsGo(
      s: Server, m: Server, t: Server, found: Found, ns: Option<string>, kind: string, id: string, items: seq<string>,
      calls: seq<ApiCall>)
    requires ReadJustNow(s, found, Named(ns))
    requires forall c :: c in calls ==> DeletesAsRead(found, ns, kind, id, items, c)
    requires OnlyConfirmedGo(s, m, Named(ns), kind, id, items) && Leads(m, calls, t)
    ensures OnlyConfirmedGo(s, t, Named(ns), kind, id, items)
    decreases |calls|
  {
    if calls != [] {
      hide DeletesAsRead, Serve;
      var rest := calls[1..];
      assert forall c :: c in rest ==> c in calls;
      if Leads(m, rest, t) {
        OnlyConfirmedGroupsGo(s, m, t, found, ns, kind, id, items, rest);
      } else {
        OneConfirmedGoes(s, m, found, ns, kind, id, items, calls[0]);
        OnlyConfirmedGroupsGo(s, Serve(m, calls[0]), t, found, ns, kind, id, items, rest);
      }
    }
  }

  lemma OneConfirmedGoes(
      s: Server, m: Server, found: Found, ns: Option<string>, kind: string, id: string, items: seq<string>, c: ApiCall)
    requires ReadJustNow(s, found, Named(ns)) && DeletesAsRead(found, ns, kind, id, items, c)
    requires OnlyConfirmedGo(s, m, Named(ns), kind, id, items)
    ensures OnlyConfirmedGo(s, Serve(m, c), Named(ns), kind, id, items)
  {
    hide DeletesGroup, NamesGroup, Serve;
    var f, g :| f in found && AsRead(f, g, ns, kind, id, items, c);
    DeletesOne(m, c, f.0, Named(ns), kind, id);
    var k := Place(f.0, Named(ns), kind, id);
    assert g in f.1 && ReadsOff(s, f, Named(ns));
    assert IsConfirmed(s, k, Named(ns), kind, id, items);
  }

  /** What a delete took stays gone. */
  lemma {:induction false} GoneStays(s: Server, calls: seq<ApiCall>, c: ApiCall, k: Place)
    requires k !in s.groups || (c in calls && DeletesGroup(c, k.store, k.ns, k.kind, k.id))
    ensures k !in ServeAll(s, calls).groups
    decreases |calls|
  {
    if calls != [] {
      hide DeletesGroup;
      assert calls == [calls[0]] + calls[1..];
      if k in s.groups && c == calls[0] {
        DeletesOne(s, c, k.store, k.ns, k.kind, k.id);
      }
      GoneStays(Serve(s, calls[0]), calls[1..], c, k);
    }
  }

  lemma SameItem(i: string, j: string, store: string, ns: string, kind: string, id: string, now: GroupCount)
    requires NamesGroup(i, store, ns, kind, id, now) && NamesGroup(j, store, ns, kind, id, now)
    ensures i == j
  {
  }

  lemma KeptAreConfirmed(found: Found, ns: Option<string>, kind: string, id: string, items: seq<string>)
    ensures forall c :: c in Calls(Kept(GroupSteps(found, ns, kind, id), items)) ==>
      DeletesAsRead(found, ns, kind, id, items, c)
  {
    hide GroupSteps, DeletesGroup, NamesGroup, FirstOf, Kept;
    var kept := Kept(GroupSteps(found, ns, kind, id), items);
    KeptExactly(GroupSteps(found, ns, kind, id), items);
    StepsExactly(found, ns, kind, id);
    forall c | c in Calls(kept) ensures DeletesAsRead(found, ns, kind, id, items, c) {
      var i :| 0 <= i < |kept| && c == kept[i].call;
      assert kept[i] in kept;
      var f, g :| f in found && StepFor(kept[i], f, g, ns, kind, id);
      assert AsRead(f, g, ns, kind, id, items, c);
    }
  }

  /**
    A delete that ran to its end: of the datastores read, just the groups an
    echoed item names as they are now are gone.
  */
  lemma ConfirmedGroupsGo(
      s: Server, t: Server, found: Found, ns: Option<string>, kind: string, id: string, items: seq<string>)
    requires ReadJustNow(s, found, Named(ns))
    requires t == ServeAll(s, Calls(Kept(GroupSteps(found, ns, kind, id), items)))
    ensures OnlyConfirmedGo(s, t, Named(ns), kind, id, items)
    ensures forall f, k ::
      f in found && k in s.groups && k.store == f.0 && IsConfirmed(s, k, Named(ns), kind, id, items) ==>
      k !in t.groups
  {
    hide GroupSteps, DeletesGroup, NamesGroup, DeletesAsRead, ReadsOff, Serve, Kept, Calls, ServeAll, Leads;
    var calls := Calls(Kept(GroupSteps(found, ns, kind, id), items));
    KeptAreConfirmed(found, ns, kind, id, items);
    AllIsOneWay(s, calls);
    OnlyConfirmedGroupsGo(s, s, t, found, ns, kind, id, items, calls);
    forall f, k | f in found && k in s.groups && k.store == f.0 && IsConfirmed(s, k, Named(ns), kind, id, items)
      ensures k !in t.groups
    {
      ConfirmedGroupGoes(s, f, k, found, ns, kind, id, items);
    }
  }

  lemma ConfirmedGroupGoes(
      s: Server, f: (string, seq<Group>), k: Place, found: Found, ns: Option<string>, kind: string, id: string,
      items: seq<string>)
    requires ReadJustNow(s, found, Named(ns)) && f in found && k in s.groups && k.store == f.0
    requires IsConfirmed(s, k, Named(ns), kind, id, items)
    ensures k !in ServeAll(s, Calls(Kept(GroupSteps(found, ns, kind, id), items))).groups
  {
    hide GroupSteps, DeletesGroup, NamesGroup, Serve, Kept;
    var steps := GroupSteps(found, ns, kind, id);
    KeptExactly(steps, items);
    StepsExactly(found, ns, kind, id);
    assert ReadsOff(s, f, Named(ns));
    var g :| g in f.1 && g.kind == kind && g.id == id;
    var step, g' :| step in steps && StepFor(step, f, g', ns, kind, id);
    assert g' in f.1 && GroupCount(g'.count, g'.lastBackup) == s.groups[k];
    var i :| i in items && NamesGroup(i, k.store, Named(ns), kind, id, s.groups[k]);
    SameItem(i, Item(step), k.store, Named(ns), kind, id, s.groups[k]);
    var kept := Kept(steps, items);
    assert step in kept;
    var n :| 0 <= n < |kept| && kept[n] == step;
    assert Calls(kept)[n] == step.call;
    GoneStays(s, Calls(kept), step.call, k);
  }

  /** The server without a namespace, what is below it, and the groups in them. */
  function Without(s: Server, store: string, ns: string): (t: Server)
    ensures forall k :: k in t.groups <==> k in s.groups && !(k.store == store && (k.ns == ns || ns + "/" <= k.ns))
    ensures forall k :: k in t.groups ==> t.groups[k] == s.groups[k]
    ensures forall n :: n in t.namespaces <==> n in s.namespaces && !(n.0 == store && (n.1 == ns || ns + "/" <= n.1))
  {
    Server(
      map k | k in s.groups && !Under(store, ns, k.store, k.ns) :: s.groups[k],
      set n | n in s.namespaces && !Under(store, ns, n.0, n.1))
  }

  lemma DeletesAll(s: Server, c: ApiCall, store: string, ns: string, groups: bool)
    requires DeletesNs(c, store, ns, groups)
    ensures Serve(s, c) == s || Serve(s, c) == Without(s, store, ns)
    ensures groups ==> Serve(s, c) == Without(s, store, ns)
    ensures !groups ==> Serve(s, c).groups == s.groups
    ensures Without(s, store, ns).groups == s.groups ==> Serve(s, c) == Without(s, store, ns)
  {
    assert c.query[1..][0] == ("delete-groups", if groups then "true" else "false");
    assert Asked(c.query, "ns") == ns;
    assert Asked(c.query, "delete-groups") == if groups then "true" else "false";
    var held := set k | k in s.groups && Under(store, ns, k.store, k.ns);
    assert s.groups - held == Without(s, store, ns).groups;
    assert held == {} ==> s.groups - held == s.groups;
    assert Without(s, store, ns).groups == s.groups ==> held == {};
  }

  /** Deleting a namespace takes all of it or nothing, and no group unless the groups are to go with it. */
  lemma {:induction false} OnlyItsSubtreeGoes(
      s: Server, m: Server, t: Server, calls: seq<ApiCall>, store: string, ns: string, groups: bool)
    requires forall c :: c in calls ==> DeletesNs(c, store, ns, groups)
    requires m == s || (m == Without(s, store, ns) && (!groups ==> m.groups == s.groups))
    requires Leads(m, calls, t)
    ensures t == s || (t == Without(s, store, ns) && (!groups ==> t.groups == s.groups))
    decreases |calls|
  {
    if calls != [] {
      hide DeletesNs, Serve, Without;
      assert forall c :: c in calls[1..] ==> c in calls;
      if Leads(m, calls[1..], t) {
        OnlyItsSubtreeGoes(s, m, t, calls[1..], store, ns, groups);
      } else {
        DeletesAll(m, calls[0], store, ns, groups);
        WithoutOnce(s, store, ns);
        OnlyItsSubtreeGoes(s, Serve(m, calls[0]), t, calls[1..], store, ns, groups);
      }
    }
  }

  lemma WithoutOnce(s: Server, store: string, ns: string)
    ensures Without(Without(s, store, ns), store, ns) == Without(s, store, ns)
  {
    var t := Without(s, store, ns);
    assert Without(t, store, ns).groups == t.groups;
    assert Without(t, store, ns).namespaces == t.namespaces;
  }

  ghost predicate Distinct<T>(xs: seq<T>) {
    forall i, j :: 0 <= i < j < |xs| ==> xs[i] != xs[j]
  }

  /** What was read of one namespace is what it holds: `ks` are its groups, each of them once. */
  ghost predicate Lists(s: Server, store: string, n: string, gs: seq<GroupCount>, ks: seq<Place>) {
    && |ks| == |gs| && Distinct(ks)
    && (forall k :: k in ks <==> k in s.groups && k.store == store && k.ns == n)
    && (forall i :: 0 <= i < |ks| ==> ks[i] in s.groups && s.groups[ks[i]] == gs[i])
  }

  /** Every namespace of the datastore was read, and groups are only in namespaces there are. */
  ghost predicate ListsAll(
      s: Server, store: string, existing: seq<string>, read: map<string, seq<GroupCount>>,
      list: map<string, seq<Place>>) {
    && Distinct(existing)
    && (forall n :: n in existing ==> n in read && n in list && Lists(s, store, n, read[n], list[n]))
    && (forall k :: k in s.groups && k.store == store && k.ns != "" ==> k.ns in existing)
  }

  /** The groups of a subtree, each of them once, and what each of them holds. */
  ghost predicate Subtree(
      s: Server, store: string, existing: seq<string>, ns: string, gs: seq<GroupCount>, ks: seq<Place>) {
    && |ks| == |gs| && Distinct(ks)
    && (forall k :: k in ks <==>
          k in s.groups && k.store == store && k.ns in existing && (k.ns == ns || ns + "/" <= k.ns))
    && (forall i :: 0 <= i < |ks| ==> ks[i] in s.groups && s.groups[ks[i]] == gs[i])
  }

  lemma {:induction false} SubtreeListed(
      s: Server, store: string, existing: seq<string>, ns: string, read: map<string, seq<GroupCount>>,
      list: map<string, seq<Place>>) returns (ks: seq<Place>)
    requires Distinct(existing)
    requires forall n :: n in existing ==> n in read && n in list && Lists(s, store, n, read[n], list[n])
    ensures Subtree(s, store, existing, ns, SubtreeGroups(existing, ns, read), ks)
  {
    if existing == [] {
      ks := [];
    } else {
      var n, rest := existing[0], existing[1..];
      assert existing == [n] + rest;
      var more := SubtreeListed(s, store, rest, ns, read, list);
      if InSubtree(n, ns) {
        ks := list[n] + more;
        Joined(s, store, n, read[n], list[n], rest, ns, SubtreeGroups(rest, ns, read), more);
      } else {
        ks := more;
        assert [] + SubtreeGroups(rest, ns, read) == SubtreeGroups(rest, ns, read);
      }
    }
  }

  lemma Joined(
      s: Server, store: string, n: string, gs: seq<GroupCount>, ks: seq<Place>, rest: seq<string>, ns: string,
      gs': seq<GroupCount>, ks': seq<Place>)
    requires Lists(s, store, n, gs, ks) && InSubtree(n, ns) && n !in rest
    requires Subtree(s, store, rest, ns, gs', ks')
    ensures Subtree(s, store, [n] + rest, ns, gs + gs', ks + ks')
  {
    assert forall k :: k in ks ==> k !in ks';
    DistinctJoined(ks, ks');
    assert forall x :: x in [n] + rest <==> x == n || x in rest;
    forall i | 0 <= i < |ks + ks'| ensures (ks + ks')[i] in s.groups && s.groups[(ks + ks')[i]] == (gs + gs')[i] {
      assert (ks + ks')[i] == if i < |ks| then ks[i] else ks'[i - |ks|];
    }
    forall k ensures k in ks + ks' <==>
      k in s.groups && k.store == store && k.ns in [n] + rest && (k.ns == ns || ns + "/" <= k.ns)
    {
      assert k in ks + ks' <==> k in ks || k in ks';
    }
  }

  lemma DistinctJoined<T>(xs: seq<T>, ys: seq<T>)
    requires Distinct(xs) && Distinct(ys) && forall x :: x in xs ==> x !in ys
    ensures Distinct(xs + ys)
  {
    forall i, j | 0 <= i < j < |xs + ys| ensures (xs + ys)[i] != (xs + ys)[j] {
      if i < |xs| <= j {
        assert xs[i] in xs && ys[j - |xs|] in ys;
      }
    }
  }

  /** What the groups hold together. */
  ghost predicate HoldTogether(s: Server, ks: seq<Place>, c: NsContents)
    requires forall k :: k in ks ==> k in s.groups
  {
    && c.groups == |ks| && c.snapshots == Snapshots(seq(|ks|, i requires 0 <= i < |ks| => s.groups[ks[i]]))
    && (forall k :: k in ks ==> s.groups[k].lastBackup <= c.lastBackup)
    && (c.lastBackup == 0 || exists k :: k in ks && s.groups[k].lastBackup == c.lastBackup)
  }

  /**
    A namespace delete, wherever it stops. It takes nothing, or the namespace
    with all below it, and groups only when asked to; and then an echoed item
    names how many groups go, how many snapshots they hold, and the last backup
    of any of them.
  */
  lemma NamespaceGoesAsNamed(
      s: Server, t: Server, store: string, existing: seq<string>, ns: string, deleteGroups: bool,
      read: map<string, seq<GroupCount>>, list: map<string, seq<Place>>, items: seq<string>, calls: seq<ApiCall>)
    returns (gone: seq<Place>)
    requires ListsAll(s, store, existing, read, list) && Leads(s, calls, t)
    requires forall c :: c in calls ==>
      DeletesNamed(store, existing, ns,
        if deleteGroups then Some(AddAll(EMPTY, SubtreeGroups(existing, ns, read))) else None, items, c)
    ensures t == s || t == Without(s, store, ns)
    ensures !deleteGroups ==> t.groups == s.groups
    ensures Distinct(gone) && forall k :: k in gone <==> k in s.groups && k !in t.groups
    ensures gone != [] ==>
      exists i, c :: i in items && HoldTogether(s, gone, c) && NamesContents(i, store, ns, Some(c))
  {
    hide DeletesNs, NamesContents, AddAll, SubtreeGroups, ListsAll, HoldTogether, Without;
    forall c | c in calls ensures DeletesNs(c, store, ns, deleteGroups) {
    }
    OnlyItsSubtreeGoes(s, s, t, calls, store, ns, deleteGroups);
    if t.groups == s.groups {
      gone := [];
    } else {
      assert calls != [];
      assert calls[0] in calls && deleteGroups;
      var now := AddAll(EMPTY, SubtreeGroups(existing, ns, read));
      gone := SubtreeHolds(s, store, existing, ns, read, list);
      var i :| i in items && NamesContents(i, store, ns, Some(now));
    }
  }

  lemma SubtreeHolds(
      s: Server, store: string, existing: seq<string>, ns: string, read: map<string, seq<GroupCount>>,
      list: map<string, seq<Place>>) returns (ks: seq<Place>)
    requires ListsAll(s, store, existing, read, list) && ns in existing
    ensures Distinct(ks) && forall k :: k in ks <==> k in s.groups && k !in Without(s, store, ns).groups
    ensures HoldTogether(s, ks, AddAll(EMPTY, SubtreeGroups(existing, ns, read)))
  {
    hide AddAll, SubtreeGroups, Snapshots, Lists;
    ks := SubtreeListed(s, store, existing, ns, read, list);
    var gs := SubtreeGroups(existing, ns, read);
    ContentsAreTotals(EMPTY, gs);
    assert gs == seq(|ks|, i requires 0 <= i < |ks| => s.groups[ks[i]]);
    assert forall k :: k in ks ==> exists i :: 0 <= i < |ks| && ks[i] == k && gs[i] == s.groups[k] && gs[i] in gs;
    assert forall i :: 0 <= i < |gs| ==> gs[i] == s.groups[ks[i]] && ks[i] in ks;
  }

  /**
    A namespace delete that ran to its end with its item echoed: the namespace
    is gone, unless its groups were to be spared and it holds some.
  */
  lemma NamedNamespaceGoes(
      s: Server, store: string, existing: seq<string>, ns: string, now: Option<NsContents>, items: seq<string>)
    requires ns in existing && exists i :: i in items && NamesContents(i, store, ns, now)
    ensures ServeAll(s, Calls(Kept(NsSteps(store, existing, ns, now), items)))
        == if now.Some? || Without(s, store, ns).groups == s.groups then Without(s, store, ns) else s
  {
    hide NsStep, Without, Item;
    var step := NsStep(store, ns, now);
    StepNamesContents(store, ns, now);
    var steps := NsSteps(store, existing, ns, now);
    assert steps == [step] && steps[1..] == [];
    assert Kept(steps, items) == [step] + [];
    var calls := Calls(Kept(steps, items));
    assert calls == [step.call] && calls[1..] == [];
    assert ServeAll(s, calls) == ServeAll(Serve(s, step.call), []);
    DeletesAll(s, step.call, store, ns, now.Some?);
  }
}
