/** `missing_namespace_chain`, and creating namespaces parent first. */
module Namespaces {
  import opened Wrappers

  /** `ns.split('/')`, empty parts dropped. */
  function Parts(ns: string): seq<string> {
    PartsFrom("", ns)
  }

  /** The parts of `ns`, the first of which began with `word`. */
  function PartsFrom(word: string, ns: string): seq<string>
    decreases |ns|
  {
    if ns == "" then Word(word)
    else if ns[0] == '/' then Word(word) + PartsFrom("", ns[1..])
    else PartsFrom(word + [ns[0]], ns[1..])
  }

  function Word(word: string): seq<string> {
    if word == "" then [] else [word]
  }

  ghost predicate NonEmpty(parts: seq<string>) {
    forall i :: 0 <= i < |parts| ==> parts[i] != ""
  }

  lemma {:induction false} PartsNotEmpty(word: string, ns: string)
    ensures NonEmpty(PartsFrom(word, ns))
    decreases |ns|
  {
    if ns != "" {
      PartsNotEmpty(if ns[0] == '/' then "" else word + [ns[0]], ns[1..]);
    }
  }

  /** A separator splits, wherever it is; a part without one is itself; an empty part is dropped. */
  lemma {:induction false} PartsSplit(word: string, a: string, b: string)
    ensures PartsFrom(word, a + "/" + b) == PartsFrom(word, a) + PartsFrom("", b)
    decreases |a|
  {
    var s := a + "/" + b;
    if a == "" {
      assert s[1..] == b;
    } else {
      assert s[1..] == a[1..] + "/" + b && s[0] == a[0];
      PartsSplit(if a[0] == '/' then "" else word + [a[0]], a[1..], b);
    }
  }

  lemma {:induction false} PartPlain(word: string, a: string)
    requires '/' !in a
    ensures PartsFrom(word, a) == Word(word + a)
    decreases |a|
  {
    if a == "" {
      assert word + a == word;
    } else {
      assert a[0] in a && word + [a[0]] + a[1..] == word + a;
      PartPlain(word + [a[0]], a[1..]);
    }
  }

  /** How a namespace is read: by its separators, and without empty parts. */
  lemma PartsExactly(a: string, b: string)
    ensures Parts(a + "/" + b) == Parts(a) + Parts(b)
    ensures '/' !in a ==> Parts(a) == if a == "" then [] else [a]
  {
    PartsSplit("", a, b);
    if '/' !in a {
      PartPlain("", a);
      assert "" + a == a;
    }
  }

  function Full(parent: string, part: string): string {
    if parent == "" then part else parent + "/" + part
  }

  /** Each missing prefix, with the parent to create it under. */
  function Chain(existing: set<string>, parent: string, parts: seq<string>): seq<(string, string)>
    decreases |parts|
  {
    if parts == [] then []
    else
      var full := Full(parent, parts[0]);
      (if full in existing then [] else [(parent, parts[0])]) + Chain(existing, full, parts[1..])
  }

  /** `missing_namespace_chain`. */
  method MissingChain(existing: seq<string>, ns: string) returns (out: seq<(string, string)>)
    ensures out == Chain(set n | n in existing, "", Parts(ns))
  {
    var parts := Parts(ns);
    ghost var e := set n | n in existing;
    hide Full, Parts, Chain;
    out := [];
    var parent := "";
    assert parts[0..] == parts && [] + Chain(e, "", parts) == Chain(e, "", parts);
    for i := 0 to |parts|
      invariant out + Chain(e, parent, parts[i..]) == Chain(e, "", parts)
    {
      var full := Full(parent, parts[i]);
      ChainFrom(e, parent, parts, i, out);
      if full !in existing {
        out := out + [(parent, parts[i])];
      }
      parent := full;
    }
    ChainEnds(e, parent, parts, out);
  }

  lemma ChainFrom(existing: set<string>, parent: string, parts: seq<string>, i: nat, out: seq<(string, string)>)
    requires i < |parts|
    ensures var full := Full(parent, parts[i]);
      out + Chain(existing, parent, parts[i..]) ==
      (if full in existing then out else out + [(parent, parts[i])]) + Chain(existing, full, parts[i + 1..])
  {
    assert parts[i..][0] == parts[i] && parts[i..][1..] == parts[i + 1..];
    hide Full;
    var rest := Chain(existing, Full(parent, parts[i]), parts[i + 1..]);
    assert out + ([(parent, parts[i])] + rest) == out + [(parent, parts[i])] + rest;
    assert [] + rest == rest;
  }

  lemma ChainEnds(existing: set<string>, parent: string, parts: seq<string>, out: seq<(string, string)>)
    ensures out + Chain(existing, parent, parts[|parts|..]) == out
  {
    assert parts[|parts|..] == [];
  }

  /** The server: a namespace is created once, under a parent that exists; the root always does. */
  function CreateNamespace(s: set<string>, c: (string, string)): Option<set<string>> {
    if (c.0 == "" || c.0 in s) && Full(c.0, c.1) !in s then Some(s + {Full(c.0, c.1)}) else None
  }

  function CreateAll(s: set<string>, cs: seq<(string, string)>): Option<set<string>>
    decreases |cs|
  {
    if cs == [] then Some(s)
    else
      match CreateNamespace(s, cs[0])
      case None => None
      case Some(t) => CreateAll(t, cs[1..])
  }

  /** The namespaces a path passes through. */
  function Prefixes(parent: string, parts: seq<string>): set<string>
    decreases |parts|
  {
    if parts == [] then {} else {Full(parent, parts[0])} + Prefixes(Full(parent, parts[0]), parts[1..])
  }

  lemma {:induction false} PrefixesLonger(parent: string, parts: seq<string>)
    requires NonEmpty(parts)
    ensures forall f :: f in Prefixes(parent, parts) ==> |f| > |parent|
    decreases |parts|
  {
    if parts != [] {
      PrefixesLonger(Full(parent, parts[0]), parts[1..]);
    }
  }

  /** Creating a namespace that is not on the rest of the path leaves the rest of the plan alone. */
  lemma {:induction false} ChainElsewhere(s: set<string>, x: string, parent: string, parts: seq<string>)
    requires x !in Prefixes(parent, parts)
    ensures Chain(s + {x}, parent, parts) == Chain(s, parent, parts)
    decreases |parts|
  {
    if parts != [] {
      ChainElsewhere(s, x, Full(parent, parts[0]), parts[1..]);
    }
  }

  /**
    The chain creates exactly what is missing: every create finds its parent
    and nothing in its way, afterwards every namespace on the path exists and
    no other was added, and planning again gives nothing.
  */
  lemma {:induction false} ChainCreates(s: set<string>, parent: string, parts: seq<string>)
    requires (parent == "" || parent in s) && NonEmpty(parts)
    ensures CreateAll(s, Chain(s, parent, parts)) == Some(s + Prefixes(parent, parts))
    ensures Chain(s + Prefixes(parent, parts), parent, parts) == []
    decreases |parts|
  {
    if parts == [] {
      assert s + {} == s;
      return;
    }
    var full, rest := Full(parent, parts[0]), parts[1..];
    var t := s + {full};
    PrefixesLonger(full, rest);
    ChainElsewhere(s, full, full, rest);
    ChainCreates(t, full, rest);
    assert t + Prefixes(full, rest) == s + Prefixes(parent, parts);
    if full in s {
      assert t == s;
      assert [] + Chain(s, full, rest) == Chain(s, full, rest);
    } else {
      var c := [(parent, parts[0])] + Chain(s, full, rest);
      assert c[0] == (parent, parts[0]) && c[1..] == Chain(t, full, rest);
    }
    assert Chain(s + Prefixes(parent, parts), parent, parts) == [] + Chain(t + Prefixes(full, rest), full, rest);
  }

  /** `t` is what the first `k` creates leave: planning again gives exactly those that are left. */
  ghost predicate Resumed(s: set<string>, parent: string, parts: seq<string>, k: nat, t: set<string>) {
    var chain := Chain(s, parent, parts);
    && k <= |chain|
    && CreateAll(s, chain[..k]) == Some(t) && Chain(t, parent, parts) == chain[k..]
    && s <= t <= s + Prefixes(parent, parts)
  }

  /** A run that stops part way is resumed. */
  lemma {:induction false} ChainResumes(s: set<string>, parent: string, parts: seq<string>, k: nat)
    returns (t: set<string>)
    requires (parent == "" || parent in s) && NonEmpty(parts) && k <= |Chain(s, parent, parts)|
    ensures Resumed(s, parent, parts, k, t)
    decreases |parts|
  {
    var all := Chain(s, parent, parts);
    if parts == [] || k == 0 {
      assert all[..k] == [] && all[0..] == all;
      return s;
    }
    var full, rest := Full(parent, parts[0]), parts[1..];
    hide CreateAll, Resumed;
    PrefixesLonger(full, rest);
    if full in s {
      assert all == [] + Chain(s, full, rest) == Chain(s, full, rest);
      t := ChainResumes(s, full, rest, k);
      SkipResumes(s, parent, parts, k, t);
    } else {
      ChainElsewhere(s, full, full, rest);
      assert all == [(parent, parts[0])] + Chain(s + {full}, full, rest);
      t := ChainResumes(s + {full}, full, rest, k - 1);
      CreateResumes(s, parent, parts, k, t);
    }
  }

  lemma SkipResumes(s: set<string>, parent: string, parts: seq<string>, k: nat, t: set<string>)
    requires parts != [] && Full(parent, parts[0]) in s && Resumed(s, Full(parent, parts[0]), parts[1..], k, t)
    ensures Resumed(s, parent, parts, k, t)
  {
    hide CreateAll;
    var full, rest := Full(parent, parts[0]), parts[1..];
    assert [] + Chain(s, full, rest) == Chain(s, full, rest) && [] + Chain(t, full, rest) == Chain(t, full, rest);
  }

  lemma CreateResumes(s: set<string>, parent: string, parts: seq<string>, k: nat, t: set<string>)
    requires parts != [] && k > 0 && (parent == "" || parent in s) && Full(parent, parts[0]) !in s
    requires var full := Full(parent, parts[0]);
      Resumed(s + {full}, full, parts[1..], k - 1, t) &&
        Chain(s + {full}, full, parts[1..]) == Chain(s, full, parts[1..])
    ensures Resumed(s, parent, parts, k, t)
  {
    var full, rest := Full(parent, parts[0]), parts[1..];
    var c, more := (parent, parts[0]), Chain(s, full, rest);
    var all := Chain(s, parent, parts);
    assert all == [c] + more;
    assert all[..k] == [c] + more[..k - 1] && all[k..] == more[k - 1..];
    assert all[..k][1..] == more[..k - 1];
    assert [] + Chain(t, full, rest) == Chain(t, full, rest);
  }

  /** `namespace_create` from any set of namespaces, for any path. */
  lemma CreatesMissing(existing: set<string>, ns: string)
    ensures CreateAll(existing, Chain(existing, "", Parts(ns))) == Some(existing + Prefixes("", Parts(ns)))
    ensures Chain(existing + Prefixes("", Parts(ns)), "", Parts(ns)) == []
  {
    PartsNotEmpty("", ns);
    ChainCreates(existing, "", Parts(ns));
  }

  /** Nothing is missing exactly when every prefix exists. */
  lemma {:induction false} NothingMissing(s: set<string>, parent: string, parts: seq<string>)
    ensures Chain(s, parent, parts) == [] <==> Prefixes(parent, parts) <= s
    decreases |parts|
  {
    if parts != [] {
      NothingMissing(s, Full(parent, parts[0]), parts[1..]);
    }
  }

  /** The prefixes of a namespace of two levels. */
  lemma TwoLevels(a: string, b: string)
    requires a != "" && b != "" && '/' !in a && '/' !in b
    ensures Prefixes("", Parts(a + "/" + b)) == {a, a + "/" + b}
  {
    PartsExactly(a, b);
    PartsExactly(b, "");
    assert ([a] + [b])[1..] == [b] && [b][1..] == [];
    assert Prefixes(a, [b]) == {a + "/" + b};
    assert Prefixes("", [a, b]) == {a} + Prefixes(a, [b]);
    assert [a] + [b] == [a, b];
  }
}
