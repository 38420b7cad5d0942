/**
  How the restore spells the names it makes, and how recovery reads them back:
  why `Volume.Name` may be a datatype.
*/
module Names {
  import opened Wrappers
  import opened Volume
  import opened RecoveryPlan

  const TEMP_MARK := ".orca-restore-"
  const PREV_MARK := ".orca-prev-"
  const SWAP_MARK := ".orca-swap-"
  const NEXT_SUFFIX := ".next"

  /** `m` occurs in `s` at `i`. */
  predicate OccursAt(s: string, m: string, i: int) {
    0 <= i <= |s| - |m| && s[i..i + |m|] == m
  }

  predicate Contains(s: string, m: string) {
    exists i :: 0 <= i <= |s| - |m| && OccursAt(s, m, i)
  }

  predicate StartsWith(s: string, m: string) {
    m <= s
  }

  predicate EndsWith(s: string, m: string) {
    |m| <= |s| && s[|s| - |m|..] == m
  }

  /** `split_once`: around the first occurrence. */
  function SplitOnce(s: string, m: string): Option<(string, string)>
    decreases |s|
  {
    if |s| < |m| then None
    else if s[..|m|] == m then Some(("", s[|m|..]))
    else if s == "" then None
    else
      match SplitOnce(s[1..], m)
      case None => None
      case Some((a, b)) => Some(([s[0]] + a, b))
  }

  function Spelling(n: Name): string {
    match n
    case Live(b) => b
    case Temp(b, t) => "." + b + TEMP_MARK + t
    case Prev(b, t) => "." + b + PREV_MARK + t
    case Marker(t) => SWAP_MARK + t
    case Next(t) => SWAP_MARK + t + NEXT_SUFFIX
  }

  function StripDot(s: string): string {
    if StartsWith(s, ".") then s[1..] else s
  }

  /** `Left::shadowing`. */
  function ReadShadowing(s: string): Option<(string, string)> {
    match SplitOnce(s, TEMP_MARK)
    case Some((base, tag)) => Some((StripDot(base), tag))
    case None =>
      match SplitOnce(s, PREV_MARK)
      case Some((base, tag)) => Some((StripDot(base), tag))
      case None => None
  }

  /** `Left::marker_tag`. */
  function ReadMarker(atRoot: bool, s: string): Option<string> {
    if !atRoot || EndsWith(s, NEXT_SUFFIX) then None
    else if StartsWith(s, SWAP_MARK) then Some(s[|SWAP_MARK|..])
    else None
  }

  predicate IsLeftover(s: string) {
    Contains(s, TEMP_MARK) || Contains(s, PREV_MARK) || StartsWith(s, SWAP_MARK)
  }

  /** What a capture skips. */
  predicate Transient(s: string) {
    StartsWith(s, ".") || EndsWith(s, ".lock") || Contains(s, ".bak-")
  }

  /** A hidden name, a lock or a rotated backup. */
  ghost predicate IsSkipped(s: string) {
    || (exists a: string :: s == "." + a)
    || (exists a: string :: s == a + ".lock")
    || (exists a: string, b: string :: s == a + ".bak-" + b)
  }

  lemma TransientExactly(s: string)
    ensures Transient(s) <==> IsSkipped(s)
  {
    if StartsWith(s, ".") {
      assert s == "." + s[1..];
    }
    if EndsWith(s, ".lock") {
      assert s == s[..|s| - 5] + ".lock";
    }
    if Contains(s, ".bak-") {
      var i :| 0 <= i <= |s| - 5 && OccursAt(s, ".bak-", i);
      assert s == s[..i] + ".bak-" + s[i + 5..];
    }
    if a: string, b: string :| s == a + ".bak-" + b {
      assert OccursAt(s, ".bak-", |a|);
    }
  }

  /** The first occurrence is where the split is. */
  lemma {:induction false} SplitsAt(s: string, m: string, i: nat)
    requires OccursAt(s, m, i) && m != "" && forall j :: 0 <= j < i ==> !OccursAt(s, m, j)
    ensures SplitOnce(s, m) == Some((s[..i], s[i + |m|..]))
    decreases |s|
  {
    if i > 0 {
      assert !OccursAt(s, m, 0);
      assert s[1..][i - 1..i - 1 + |m|] == s[i..i + |m|];
      forall j | 0 <= j < i - 1 ensures !OccursAt(s[1..], m, j) {
        assert !OccursAt(s, m, j + 1);
        assert j + 1 + |m| <= |s| ==> s[1..][j..j + |m|] == s[j + 1..j + 1 + |m|];
      }
      SplitsAt(s[1..], m, i - 1);
      assert [s[0]] + s[1..][..i - 1] == s[..i];
      assert s[1..][i - 1 + |m|..] == s[i + |m|..];
    }
  }

  lemma {:induction false} NoSplit(s: string, m: string)
    requires m != ""
    ensures SplitOnce(s, m).None? <==> !Contains(s, m)
    decreases |s|
  {
    if |s| < |m| {
    } else if s[..|m|] == m {
      assert OccursAt(s, m, 0);
    } else {
      NoSplit(s[1..], m);
      if Contains(s[1..], m) {
        var i :| 0 <= i <= |s[1..]| - |m| && OccursAt(s[1..], m, i);
        assert s[1..][i..i + |m|] == s[i + 1..i + 1 + |m|];
        assert OccursAt(s, m, i + 1);
      }
      if Contains(s, m) {
        var i :| 0 <= i <= |s| - |m| && OccursAt(s, m, i);
        assert i > 0;
        assert s[1..][i - 1..i - 1 + |m|] == s[i..i + |m|];
        assert OccursAt(s[1..], m, i - 1);
      }
    }
  }

  /** A mark: a dot, then no dot. */
  predicate IsMark(m: string) {
    m != "" && m[0] == '.' && forall i :: 1 <= i < |m| ==> m[i] != '.'
  }

  /** An occurrence of one mark before another one ends where that begins: marks do not overlap. */
  lemma NoStraddle(a: string, k: string, b: string, m: string, i: nat)
    requires IsMark(m) && IsMark(k) && i < |a| && OccursAt(a + k + b, m, i)
    ensures OccursAt(a, m, i)
  {
    var s := a + k + b;
    forall x | i < x < i + |m| ensures s[x] != '.' {
      assert s[x] == s[i..i + |m|][x - i];
    }
    assert s[|a|] == k[0];
    assert s[i..i + |m|] == a[i..i + |m|];
  }

  /** Nor do two different marks start in the same place or inside one another. */
  lemma InsideMark(a: string, k: string, b: string, m: string, i: nat)
    requires IsMark(m) && IsMark(k) && |a| <= i < |a| + |k| && OccursAt(a + k + b, m, i)
    ensures i == |a| && (k <= m || m <= k)
  {
    var s := a + k + b;
    assert s[i] == m[0] by {
      assert s[i..i + |m|][0] == s[i];
    }
    assert s[i] == k[i - |a|];
    assert i == |a|;
    var n := if |m| < |k| then |m| else |k|;
    forall j | 0 <= j < n ensures m[j] == k[j] {
      assert s[i..i + |m|][j] == s[i + j] == k[j];
    }
    assert |m| <= |k| ==> m == k[..|m|];
    assert |k| <= |m| ==> k == m[..|k|];
  }

  lemma MarksAreMarks()
    ensures IsMark(TEMP_MARK) && IsMark(PREV_MARK) && IsMark(SWAP_MARK)
    ensures !(TEMP_MARK <= PREV_MARK) && !(PREV_MARK <= TEMP_MARK)
  {
    assert TEMP_MARK[6] == 'r' && PREV_MARK[6] == 'p';
  }

  /** Splitting `a + m + b` around `m` gives `a` and `b` exactly when `a` has no `m` in it. */
  lemma SplitMarked(a: string, m: string, b: string)
    requires IsMark(m)
    ensures SplitOnce(a + m + b, m) == Some((a, b)) <==> !Contains(a, m)
  {
    var s := a + m + b;
    if Contains(a, m) {
      var i :| 0 <= i <= |a| - |m| && OccursAt(a, m, i);
      assert s[i..i + |m|] == a[i..i + |m|];
      FirstBefore(s, m, i);
    } else {
      forall j | 0 <= j < |a| ensures !OccursAt(s, m, j) {
        if OccursAt(s, m, j) {
          NoStraddle(a, m, b, m, j);
        }
      }
      assert s[|a|..|a| + |m|] == m;
      SplitsAt(s, m, |a|);
      assert s[..|a|] == a && s[|a| + |m|..] == b;
    }
  }

  lemma {:induction false} FirstBefore(s: string, m: string, i: nat)
    requires OccursAt(s, m, i) && m != ""
    ensures SplitOnce(s, m).Some? && |SplitOnce(s, m).value.0| <= i
    decreases i
  {
    if j :| 0 <= j < i && OccursAt(s, m, j) {
      FirstBefore(s, m, j);
    } else {
      SplitsAt(s, m, i);
    }
  }

  /** A temp file's name is read back exactly when no mark begins at or in the dot and base before it. */
  lemma TempReadsBack(b: string, t: string)
    ensures ReadShadowing(Spelling(Temp(b, t))) == Some((b, t)) <==> !Contains("." + b, TEMP_MARK)
  {
    hide SplitOnce, Contains, StripDot, IsMark;
    MarksAreMarks();
    SplitMarked("." + b, TEMP_MARK, t);
    OwnMark("." + b, TEMP_MARK, t);
    var s := Spelling(Temp(b, t));
    SplitJoins(s, TEMP_MARK);
    var (base, tag) := SplitOnce(s, TEMP_MARK).value;
    StripsBack("." + b, b);
    StripsOnlyDot(s, b, TEMP_MARK, base, TEMP_MARK, tag);
    if base == "." + b {
      SameRest(base + TEMP_MARK, t, tag);
    }
  }

  lemma SameRest(p: string, t: string, u: string)
    requires p + t == p + u
    ensures t == u
  {
    assert (p + t)[|p|..] == t && (p + u)[|p|..] == u;
  }

  /** Only the spelling's own dot is taken off: what reads back as `b` was `.b`. */
  lemma StripsOnlyDot(s: string, b: string, k: string, base: string, m: string, tag: string)
    requires |k| > 1 && |m| > 1 && k[0] == '.' && m[1] != '.'
    requires "." + b + k <= s && s == base + m + tag
    ensures StripDot(base) == b ==> base == "." + b
  {
    assert s[0] == '.' && (b == "" ==> s[1] == k[0]);
    assert base == "" ==> s[1] == m[1];
    assert base != "" ==> base[0] == s[0] && base == ['.'] + base[1..];
  }

  lemma {:induction false} SplitJoins(s: string, m: string)
    requires SplitOnce(s, m).Some?
    ensures s == SplitOnce(s, m).value.0 + m + SplitOnce(s, m).value.1
    decreases |s|
  {
    if s[..|m|] != m {
      SplitJoins(s[1..], m);
    }
  }

  /** A set-aside original's name is read back exactly when no mark comes before its own, nor the temp mark after it. */
  lemma PrevReadsBack(b: string, t: string)
    ensures ReadShadowing(Spelling(Prev(b, t))) == Some((b, t)) <==>
      !Contains("." + b, TEMP_MARK) && !Contains("." + b, PREV_MARK) && !Contains(t, TEMP_MARK)
  {
    MarksAreMarks();
    var a := "." + b;
    var s := Spelling(Prev(b, t));
    SplitMarked(a, PREV_MARK, t);
    NoSplit(s, TEMP_MARK);
    StripsBack(a, b);
    if !Contains(a, TEMP_MARK) && !Contains(t, TEMP_MARK) {
      Joined(a, PREV_MARK, t, TEMP_MARK);
      OwnMark(a, PREV_MARK, t);
      SplitJoinsPrev(b, t);
    } else {
      StillContains(a, PREV_MARK, t, TEMP_MARK);
      TempComesFirst(b, t);
    }
  }

  lemma OwnMark(a: string, m: string, b: string)
    requires m != ""
    ensures SplitOnce(a + m + b, m).Some?
  {
    NoSplit(a + m + b, m);
    assert (a + m + b)[|a|..|a| + |m|] == m;
    assert OccursAt(a + m + b, m, |a|);
  }

  lemma StillContains(a: string, k: string, b: string, m: string)
    requires Contains(a, m) || Contains(b, m)
    ensures Contains(a + k + b, m)
  {
    var s := a + k + b;
    if Contains(a, m) {
      var i :| 0 <= i <= |a| - |m| && OccursAt(a, m, i);
      assert s[i..i + |m|] == a[i..i + |m|];
      assert OccursAt(s, m, i);
    } else {
      var i :| 0 <= i <= |b| - |m| && OccursAt(b, m, i);
      var j := i + |a| + |k|;
      assert s[j..j + |m|] == b[i..i + |m|];
      assert OccursAt(s, m, j);
    }
  }

  lemma SplitJoinsPrev(b: string, t: string)
    requires SplitOnce(Spelling(Prev(b, t)), PREV_MARK).Some?
    ensures var (base, tag) := SplitOnce(Spelling(Prev(b, t)), PREV_MARK).value;
      StripDot(base) == b ==> base == "." + b && tag == t
  {
    hide SplitOnce, StripDot;
    var s := Spelling(Prev(b, t));
    SplitJoins(s, PREV_MARK);
    var (base, tag) := SplitOnce(s, PREV_MARK).value;
    StripsOnlyDot(s, b, PREV_MARK, base, PREV_MARK, tag);
    if base == "." + b {
      SameRest(base + PREV_MARK, t, tag);
    }
  }

  lemma TempComesFirst(b: string, t: string)
    requires SplitOnce(Spelling(Prev(b, t)), TEMP_MARK).Some?
    ensures StripDot(SplitOnce(Spelling(Prev(b, t)), TEMP_MARK).value.0) != b
  {
    hide SplitOnce, StripDot;
    var s := Spelling(Prev(b, t));
    SplitJoins(s, TEMP_MARK);
    var (base, tag) := SplitOnce(s, TEMP_MARK).value;
    StripsOnlyDot(s, b, PREV_MARK, base, TEMP_MARK, tag);
    assert s[|b| + 1 + 6] == PREV_MARK[6] == 'p';
    assert s[|base| + 6] == TEMP_MARK[6] == 'r';
  }

  lemma StripsBack(a: string, b: string)
    requires a == "." + b
    ensures StripDot(a) == b
  {
  }

  /** Around another mark, `m` occurs only in what is before it or after it. */
  lemma Joined(a: string, k: string, b: string, m: string)
    requires IsMark(m) && IsMark(k) && !(k <= m) && !(m <= k) && !Contains(a, m) && !Contains(b, m)
    ensures !Contains(a + k + b, m)
  {
    var s := a + k + b;
    forall i | 0 <= i <= |s| - |m| ensures !OccursAt(s, m, i) {
      if OccursAt(s, m, i) {
        if i < |a| {
          NoStraddle(a, k, b, m, i);
        } else if i < |a| + |k| {
          InsideMark(a, k, b, m, i);
        } else {
          After(a, k, b, m, i);
        }
      }
    }
  }

  lemma After(a: string, k: string, b: string, m: string, i: nat)
    requires |a| + |k| <= i && OccursAt(a + k + b, m, i)
    ensures OccursAt(b, m, i - |a| - |k|)
  {
    var j := i - |a| - |k|;
    assert (a + k + b)[i..i + |m|] == b[j..j + |m|];
  }

  /** A base no mark begins in or before, and no marker's name. */
  predicate PlainBase(b: string) {
    !Contains("." + b, TEMP_MARK) && !Contains("." + b, PREV_MARK) && !StartsWith("." + b, SWAP_MARK)
  }

  predicate PlainTag(t: string) {
    !Contains(t, TEMP_MARK) && !Contains(t, PREV_MARK) && !EndsWith(t, NEXT_SUFFIX)
  }

  predicate Ordinary(n: Name) {
    match n
    case Live(b) => !IsLeftover(b)
    case Temp(b, t) => PlainBase(b) && PlainTag(t)
    case Prev(b, t) => PlainBase(b) && PlainTag(t)
    case Marker(t) => PlainTag(t)
    case Next(t) => PlainTag(t)
  }

  /** The name a directory entry has: what its spelling is taken for. */
  function ReadName(s: string): Name {
    if !IsLeftover(s) then Live(s)
    else
      match SplitOnce(s, TEMP_MARK)
      case Some((base, tag)) => Temp(StripDot(base), tag)
      case None =>
        match SplitOnce(s, PREV_MARK)
        case Some((base, tag)) => Prev(StripDot(base), tag)
        case None =>
          if EndsWith(s, NEXT_SUFFIX) &&
            |SWAP_MARK| + |NEXT_SUFFIX| <= |s| then Next(s[|SWAP_MARK|..|s| - |NEXT_SUFFIX|])
          else Marker(s[|SWAP_MARK|..])
  }

  lemma NextIsMark()
    ensures IsMark(NEXT_SUFFIX) && !(NEXT_SUFFIX <= TEMP_MARK) && !(TEMP_MARK <= NEXT_SUFFIX) &&
      !(NEXT_SUFFIX <= PREV_MARK) && !(PREV_MARK <= NEXT_SUFFIX)
  {
    assert NEXT_SUFFIX[1] == 'n' && TEMP_MARK[1] == 'o' && PREV_MARK[1] == 'o';
  }

  /** A marker's name, or an update's, holds neither of the other marks. */
  lemma MarkerHasNoMarks(t: string, m: string)
    requires PlainTag(t) && (m == TEMP_MARK || m == PREV_MARK)
    ensures !Contains(SWAP_MARK + t, m) && !Contains(SWAP_MARK + t + NEXT_SUFFIX, m)
  {
    MarksAreMarks();
    NextIsMark();
    assert SWAP_MARK[6] == 's' && m[6] != 's';
    assert !Contains("", m);
    Joined("", SWAP_MARK, t, m);
    assert "" + SWAP_MARK + t == SWAP_MARK + t;
    Joined(SWAP_MARK + t, NEXT_SUFFIX, "", m);
    assert SWAP_MARK + t + NEXT_SUFFIX + "" == SWAP_MARK + t + NEXT_SUFFIX;
  }

  lemma EndsNotNext(t: string)
    requires PlainTag(t)
    ensures !EndsWith(SWAP_MARK + t, NEXT_SUFFIX)
  {
    var s := SWAP_MARK + t;
    if |NEXT_SUFFIX| <= |t| {
      assert s[|s| - |NEXT_SUFFIX|..] == t[|t| - |NEXT_SUFFIX|..];
    } else {
      var i := |s| - |NEXT_SUFFIX|;
      assert 1 <= i < |SWAP_MARK| && s[i] == SWAP_MARK[i] && SWAP_MARK[i] != '.';
      assert s[i..][0] == s[i];
    }
  }

  /**
    Names are injective, pairwise disjoint and read back: an ordinary name's
    spelling is taken for that name and no other.
  */
  lemma ReadsBack(n: Name)
    requires Ordinary(n)
    ensures ReadName(Spelling(n)) == n
  {
    MarksAreMarks();
    var s := Spelling(n);
    match n {
      case Live(b) =>
      case Temp(b, t) =>
        TempReadsBack(b, t);
        NoSplit(s, TEMP_MARK);
        SplitMarked("." + b, TEMP_MARK, t);
      case Prev(b, t) =>
        PrevReadsBack(b, t);
        Joined("." + b, PREV_MARK, t, TEMP_MARK);
        NoSplit(s, TEMP_MARK);
        NoSplit(s, PREV_MARK);
        SplitMarked("." + b, PREV_MARK, t);
      case Marker(t) =>
        MarkerHasNoMarks(t, TEMP_MARK);
        MarkerHasNoMarks(t, PREV_MARK);
        NoSplit(s, TEMP_MARK);
        NoSplit(s, PREV_MARK);
        EndsNotNext(t);
        assert s[|SWAP_MARK|..] == t;
      case Next(t) =>
        MarkerHasNoMarks(t, TEMP_MARK);
        MarkerHasNoMarks(t, PREV_MARK);
        NoSplit(s, TEMP_MARK);
        NoSplit(s, PREV_MARK);
        assert s[|s| - |NEXT_SUFFIX|..] == NEXT_SUFFIX;
        assert s[|SWAP_MARK|..|s| - |NEXT_SUFFIX|] == t;
        assert SWAP_MARK <= s;
    }
  }

  lemma SpellingIsInjective(m: Name, n: Name)
    requires Ordinary(m) && Ordinary(n) && Spelling(m) == Spelling(n)
    ensures m == n
  {
    ReadsBack(m);
    ReadsBack(n);
  }

  /** A capture never takes one of the restore's own files for config, and recovery always sees it. */
  lemma OwnNamesAreSkipped(n: Name)
    ensures !n.Live? ==> Transient(Spelling(n)) && IsLeftover(Spelling(n))
  {
    var s := Spelling(n);
    match n {
      case Live(_) =>
      case Temp(b, t) => assert OccursAt(s, TEMP_MARK, |b| +
        1) by { assert s[|b| + 1..|b| + 1 + |TEMP_MARK|] == TEMP_MARK; }
      case Prev(b, t) => assert OccursAt(s, PREV_MARK, |b| +
        1) by { assert s[|b| + 1..|b| + 1 + |PREV_MARK|] == PREV_MARK; }
      case Marker(_) => assert s[0] == '.';
      case Next(_) => assert s[0] == '.';
    }
  }

  /** Recovery's plan reads tags and shadowed files off spellings as `RecoveryPlan` does off names. */
  lemma PlanReadsNames(x: Left)
    requires Ordinary(x.at.name) && !x.at.name.Live?
    ensures ReadMarker(x.at.dir.Root?, Spelling(x.at.name)) == MarkerTag(x)
    ensures ReadShadowing(Spelling(x.at.name)) ==
      match Shadowing(x) { case Some((p, t)) => Some((p.name, t)) case None => None }
  {
    MarksAreMarks();
    var s := Spelling(x.at.name);
    match x.at.name {
      case Temp(b, t) =>
        TempReadsBack(b, t);
        NotMarker("." + b, TEMP_MARK, t);
      case Prev(b, t) =>
        PrevReadsBack(b, t);
        NotMarker("." + b, PREV_MARK, t);
      case Marker(t) =>
        MarkerHasNoMarks(t, TEMP_MARK);
        MarkerHasNoMarks(t, PREV_MARK);
        NoSplit(s, TEMP_MARK);
        NoSplit(s, PREV_MARK);
        EndsNotNext(t);
        assert s[|SWAP_MARK|..] == t;
      case Next(t) =>
        MarkerHasNoMarks(t, TEMP_MARK);
        MarkerHasNoMarks(t, PREV_MARK);
        NoSplit(s, TEMP_MARK);
        NoSplit(s, PREV_MARK);
        assert s[|s| - |NEXT_SUFFIX|..] == NEXT_SUFFIX;
    }
  }

  lemma NotMarker(a: string, k: string, t: string)
    requires IsMark(k) && a != "" && !StartsWith(a, SWAP_MARK)
    ensures !StartsWith(a + k + t, SWAP_MARK)
  {
    MarksAreMarks();
    var s := a + k + t;
    if OccursAt(s, SWAP_MARK, 0) {
      NoStraddle(a, k, t, SWAP_MARK, 0);
    }
    assert |SWAP_MARK| <= |s| ==> s[0..|SWAP_MARK|] == s[..|SWAP_MARK|];
  }

  /**
    A file whose own name begins as a mark does, less its dot, is one whose temp
    file recovery takes for another file's: `.orca-restore-a.orca-restore-T`
    reads as a temp file of the empty name.
  */
  lemma MisleadingName(t: string)
    ensures ReadShadowing(Spelling(Temp("orca-restore-a", t))) != Some(("orca-restore-a", t))
    ensures !Transient("orca-restore-a") && !IsLeftover("orca-restore-a")
  {
    var b := "orca-restore-a";
    TempReadsBack(b, t);
    DotsABase(b);
    assert '.' !in b;
    NoDotNoMark(b, TEMP_MARK);
    NoDotNoMark(b, PREV_MARK);
    NoDotNoMark(b, ".bak-");
    assert b[0] == 'o' && b[|b| - 5..][0] == 'o';
    hide Contains, ReadShadowing, Spelling;
    assert SWAP_MARK[0] == '.';
  }

  lemma DotsABase(b: string)
    requires "orca-restore-" <= b
    ensures Contains("." + b, TEMP_MARK)
  {
    assert ("." + b)[0..|TEMP_MARK|] == "." + b[..|"orca-restore-"|] == TEMP_MARK;
    assert OccursAt("." + b, TEMP_MARK, 0);
  }

  lemma NoDotNoMark(b: string, m: string)
    requires '.' !in b && m != "" && m[0] == '.'
    ensures !Contains(b, m)
  {
    forall i | 0 <= i <= |b| - |m| ensures !OccursAt(b, m, i) {
      assert b[i] in b && b[i..i + |m|][0] == b[i];
    }
  }
}
