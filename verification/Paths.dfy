/** Manifest paths as strings: `check_rel`, `split_rel`, `join_rel`, and the tree they name. */
module Paths {
  import opened Volume

  const SLASH := '/'
  const NUL := '\0'

  /** `rsplit_once('/')`, or no directory at all. */
  function SplitRel(s: string): (r: (string, string))
    ensures SLASH !in r.1 && |r.1| <= |s| && (s != "" && r.1 == "" ==> s[|s| - 1] == SLASH)
    ensures r.0 != "" ==> s == r.0 + "/" + r.1
    ensures |r.0| < |s| || s == ""
  {
    if s == "" then ("", "")
    else if s[|s| - 1] == SLASH then (s[..|s| - 1], "")
    else
      var (dir, name) := SplitRel(s[..|s| - 1]);
      (dir, name + [s[|s| - 1]])
  }

  function JoinRel(dir: string, name: string): string {
    if dir == "" then name else dir + "/" + name
  }

  /** `split('/')`. */
  function Segments(s: string): (r: seq<string>)
    ensures |r| > 0
  {
    if s == "" then [""]
    else if s[0] == SLASH then [""] + Segments(s[1..])
    else
      var rest := Segments(s[1..]);
      [[s[0]] + rest[0]] + rest[1..]
  }

  predicate BadSegment(s: string) {
    s == "" || s == "." || s == ".."
  }

  /** `check_rel`, as the code tests it. */
  predicate CheckRel(p: string) {
    !(p == "" || NUL in p || p[0] == SLASH || exists s :: s in Segments(p) && BadSegment(s))
  }

  /** A component a directory entry can have. */
  predicate SafeName(n: string) {
    n != "" && n != "." && n != ".." && SLASH !in n && NUL !in n
  }

  predicate Safe(p: Path) {
    p.Root? || (Safe(p.parent) && SafeName(p.name))
  }

  function Render(p: Path): string {
    if p.Root? then "" else JoinRel(Render(p.parent), p.name)
  }

  function Parse(s: string): Path
    decreases |s|
  {
    if s == "" then Root
    else
      var (dir, name) := SplitRel(s);
      Sub(Parse(dir), name)
  }

  lemma {:induction false} SplitJoined(dir: string, name: string)
    requires SLASH !in name && dir != ""
    ensures SplitRel(dir + "/" + name) == (dir, name)
    decreases |name|
  {
    var s := dir + "/" + name;
    if name == "" {
      assert s[..|s| - 1] == dir;
    } else {
      assert s[..|s| - 1] == dir + "/" + name[..|name| - 1];
      SplitJoined(dir, name[..|name| - 1]);
      assert name[..|name| - 1] + [s[|s| - 1]] == name;
    }
  }

  lemma {:induction false} SplitPlain(name: string)
    requires SLASH !in name
    ensures SplitRel(name) == ("", name)
    decreases |name|
  {
    if name != "" {
      SplitPlain(name[..|name| - 1]);
      assert name[..|name| - 1] + [name[|name| - 1]] == name;
    }
  }

  lemma {:induction false} RenderNonEmpty(p: Path)
    requires Safe(p)
    ensures Render(p) == "" <==> p.Root?
  {
    if p.Sub? {
      RenderNonEmpty(p.parent);
    }
  }

  /** A path is read back from its rendering, and `split_rel` finds its directory and its name. */
  lemma {:induction false} ParsesBack(p: Path)
    requires Safe(p)
    ensures Parse(Render(p)) == p
    ensures p.Sub? ==> SplitRel(Render(p)) == (Render(p.parent), p.name)
  {
    if p.Sub? {
      ParsesBack(p.parent);
      RenderNonEmpty(p.parent);
      if p.parent.Root? {
        SplitPlain(p.name);
      } else {
        SplitJoined(Render(p.parent), p.name);
      }
    }
  }

  lemma {:induction false} SegmentsPlain(n: string)
    requires SLASH !in n
    ensures Segments(n) == [n]
  {
    if n != "" {
      SegmentsPlain(n[1..]);
      assert [n[0]] + n[1..] == n;
    }
  }

  lemma {:induction false} SegmentsJoined(dir: string, name: string)
    requires SLASH !in name
    ensures Segments(dir + "/" + name) == Segments(dir) + [name]
    decreases |dir|
  {
    var s := dir + "/" + name;
    if dir == "" {
      assert s[1..] == name;
      SegmentsPlain(name);
    } else {
      assert s[1..] == dir[1..] + "/" + name;
      SegmentsJoined(dir[1..], name);
    }
  }

  /** Every safe path renders to a string the check lets through. */
  lemma {:induction false} RenderedIsChecked(p: Path)
    requires Safe(p) && p.Sub?
    ensures CheckRel(Render(p))
  {
    RenderNonEmpty(p);
    RenderNonEmpty(p.parent);
    if p.parent.Root? {
      SegmentsPlain(p.name);
    } else {
      RenderedIsChecked(p.parent);
      SegmentsJoined(Render(p.parent), p.name);
    }
  }

  /** A string the check lets through names a safe path, and no two such strings name the same one. */
  lemma {:induction false} CheckedParses(s: string)
    requires CheckRel(s)
    ensures Safe(Parse(s)) && Parse(s).Sub? && Render(Parse(s)) == s
    ensures SplitRel(s).0 != "" ==> CheckRel(SplitRel(s).0)
    decreases |s|
  {
    var (dir, name) := SplitRel(s);
    assert Parse(s) == Sub(Parse(dir), name) && Parse("") == Root;
    if dir == "" {
      TopLevel(s);
      SegmentsPlain(s);
      assert s in Segments(s);
      assert Render(Root) == "" && SafeName(name);
    } else {
      assert s == dir + "/" + name;
      SegmentsJoined(dir, name);
      assert name in Segments(s);
      forall x | x in Segments(dir) ensures !BadSegment(x) {
        assert x in Segments(s);
      }
      assert forall c :: c in dir ==> c in s;
      assert forall c :: c in name ==> c in s;
      assert dir[0] == s[0];
      CheckedParses(dir);
      assert SafeName(name) && Render(Parse(s)) == JoinRel(dir, name);
    }
  }

  lemma {:induction false} TopLevel(s: string)
    requires s != "" && s[0] != SLASH && SplitRel(s).0 == ""
    ensures SLASH !in s && SplitRel(s).1 == s
    decreases |s|
  {
    var t := s[..|s| - 1];
    if t != "" {
      if s[|s| - 1] != SLASH {
        TopLevel(t);
      }
      assert s == t + [s[|s| - 1]];
    }
  }
}
