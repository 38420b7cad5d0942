/** Which calls of a run fail although nothing is in their way. */
module Kernels {
  /** None of the calls from the `a`th up to the `b`th fails of itself. */
  ghost predicate Quiet(faults: nat -> bool, a: nat, b: nat) {
    forall n :: a <= n < b ==> !faults(n)
  }

  /** From the `n`th call on none fails of itself. */
  ghost predicate CalmFrom(faults: nat -> bool, n: nat) {
    forall m :: n <= m ==> !faults(m)
  }

  /** No call fails after the first one that does. */
  ghost predicate CalmAfterFirst(faults: nat -> bool) {
    exists n: nat :: faults(n) && forall m: nat :: faults(m) ==> m == n
  }

  lemma {:induction false} FirstFault(faults: nat -> bool, c: nat) returns (n: nat)
    requires !Quiet(faults, 0, c)
    ensures n < c && Quiet(faults, 0, n) && faults(n)
  {
    if Quiet(faults, 0, c - 1) {
      n := c - 1;
    } else {
      n := FirstFault(faults, c - 1);
    }
  }

  /** The calls a run makes, numbered: the `n`th fails, whatever it is, when `faults(n)`. */
  class Kernel {
    const faults: nat -> bool
    var calls: nat

    constructor (faults: nat -> bool)
      ensures this.faults == faults && calls == 0
    {
      this.faults, calls := faults, 0;
    }

    /** No call of the run fails of itself. */
    ghost predicate Reliable() {
      forall n :: !faults(n)
    }

    /** Just `n` calls were made, and none of them failed of itself. */
    ghost predicate Smooth(n: nat)
      reads this
    {
      calls == n && Quiet(faults, 0, n)
    }

    /** Of `total` calls from the `from`th on, all went through or the last one made failed. */
    ghost predicate Ran(from: nat, total: nat, ok: bool)
      reads this
    {
      if ok then calls == from + total && Quiet(faults, from, calls)
      else from < calls <= from + total && Quiet(faults, from, calls - 1) && faults(calls - 1)
    }

    method Fault() returns (now: bool)
      modifies this
      ensures now == faults(old(calls)) && calls == old(calls) + 1
    {
      now := faults(calls);
      calls := calls + 1;
    }
  }
}
