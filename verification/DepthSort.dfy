/** The order directories are made in: `sort_by_key` on the number of `/`, which is stable. */
module DepthSort {
  import opened Volume

  function Depth(p: Path): nat {
    if p.Root? then 0 else Depth(p.parent) + 1
  }

  /** Before the first path that is at least as deep. */
  function Insert(c: RelPath, s: seq<RelPath>): (r: seq<RelPath>)
  {
    if s == [] || Depth(c) <= Depth(s[0]) then [c] + s else [s[0]] + Insert(c, s[1..])
  }

  function ByDepth(s: seq<RelPath>): seq<RelPath> {
    if s == [] then [] else Insert(s[0], ByDepth(s[1..]))
  }

  ghost predicate Sorted(s: seq<RelPath>) {
    forall i, j :: 0 <= i <= j < |s| ==> Depth(s[i]) <= Depth(s[j])
  }

  ghost predicate Distinct(s: seq<RelPath>) {
    forall i, j :: 0 <= i < j < |s| ==> s[i] != s[j]
  }

  lemma {:induction false} InsertKeeps(c: RelPath, s: seq<RelPath>)
    requires Sorted(s) && Distinct(s) && c !in s
    ensures Sorted(Insert(c, s)) && Distinct(Insert(c, s)) && |Insert(c, s)| == |s| + 1
    ensures forall x :: x in Insert(c, s) <==> x == c || x in s
  {
    hide Depth;
    if s != [] && Depth(c) > Depth(s[0]) {
      var t := s[1..];
      assert s == [s[0]] + t;
      InsertKeeps(c, t);
      Prefixed(s[0], Insert(c, t));
    } else {
      assert forall k :: 0 <= k < |s| ==> s[k] in s && Depth(c) <= Depth(s[k]);
      Prefixed(c, s);
    }
  }

  lemma Prefixed(x: RelPath, r: seq<RelPath>)
    requires Sorted(r) && Distinct(r) && forall y :: y in r ==> Depth(x) <= Depth(y) && y != x
    ensures Sorted([x] + r) && Distinct([x] + r)
  {
    hide Depth;
    assert forall k :: 0 <= k < |r| ==> r[k] in r;
  }

  /** Every directory is made once and after the directory it goes into. */
  lemma {:induction false} ParentsFirst(s: seq<RelPath>)
    requires Distinct(s)
    ensures Sorted(ByDepth(s)) && Distinct(ByDepth(s)) && |ByDepth(s)| == |s|
    ensures forall x :: x in ByDepth(s) <==> x in s
    ensures forall i, j :: 0 <= i < |s| && 0 <= j < |s| && ByDepth(s)[i].parent == ByDepth(s)[j] ==> j < i
  {
    if s != [] {
      assert s == [s[0]] + s[1..];
      ParentsFirst(s[1..]);
      InsertKeeps(s[0], ByDepth(s[1..]));
    }
    var r := ByDepth(s);
    forall i, j | 0 <= i < |r| && 0 <= j < |r| && r[i].parent == r[j] ensures j < i {
      assert Depth(r[j]) < Depth(r[i]);
    }
  }
}
