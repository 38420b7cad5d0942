/** Runs of calls, and what every prefix of one keeps: a crash is a prefix. */
module Runs {
  import opened Wrappers
  import opened Volume
  import opened RecoveryPlan

  /** `inv` holds of every disk a run of `calls` from `d` reaches, however far it gets. */
  ghost predicate Keeps(inv: Disk -> bool, d: Disk, calls: seq<Call>)
    decreases |calls|
  {
    inv(d) && (calls != [] && Do(d, calls[0]).Some? ==> Keeps(inv, Do(d, calls[0]).value, calls[1..]))
  }

  lemma {:induction false} RunConcat(d: Disk, a: seq<Call>, b: seq<Call>)
    ensures Run(d, a + b) == if Run(d, a).Some? then Run(Run(d, a).value, b) else None
    decreases |a|
  {
    if a == [] {
      assert a + b == b;
    } else {
      assert (a + b)[1..] == a[1..] + b;
      if Do(d, a[0]).Some? {
        RunConcat(Do(d, a[0]).value, a[1..], b);
      }
    }
  }

  lemma {:induction false} KeepsConcat(inv: Disk -> bool, d: Disk, a: seq<Call>, b: seq<Call>)
    requires Keeps(inv, d, a) && (Run(d, a).Some? ==> Keeps(inv, Run(d, a).value, b))
    ensures Keeps(inv, d, a + b)
    decreases |a|
  {
    if a == [] {
      assert a + b == b;
    } else {
      assert (a + b)[1..] == a[1..] + b;
      if Do(d, a[0]).Some? {
        KeepsConcat(inv, Do(d, a[0]).value, a[1..], b);
      }
    }
  }

  /** A crash after `k` calls leaves a disk that satisfies `inv`. */
  lemma {:induction false} KeepsPrefix(inv: Disk -> bool, d: Disk, calls: seq<Call>, k: nat)
    requires Keeps(inv, d, calls) && k <= |calls| && Run(d, calls[..k]).Some?
    ensures inv(Run(d, calls[..k]).value)
    decreases k
  {
    if k > 0 {
      assert calls[..k][1..] == calls[1..][..k - 1];
      KeepsPrefix(inv, Do(d, calls[0]).value, calls[1..], k - 1);
    }
  }

  lemma {:induction false} CallsConcat(a: seq<Op>, b: seq<Op>, torn: Bytes)
    ensures AllCalls(a + b, torn) == AllCalls(a, torn) + AllCalls(b, torn)
  {
    if a == [] {
      assert a + b == b;
    } else {
      assert (a + b)[1..] == a[1..] + b;
      CallsConcat(a[1..], b, torn);
    }
  }

  lemma NoOps(d: Disk, torn: Bytes)
    ensures Run(d, AllCalls([], torn)) == Some(d)
  {
  }
}
