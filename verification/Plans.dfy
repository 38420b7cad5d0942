/** Dry-run plans: what a caller confirms, and what an execute run may call. */
module Plans {
  import opened Wrappers
  import opened Kernels

  /** Path segments as they are before percent-encoding (module `Encoding`). */
  datatype ApiCall =
    | Post(path: seq<string>, body: map<string, string>)
    | Put(path: seq<string>, body: map<string, string>)
    | Delete(path: seq<string>, query: seq<(string, string)>)

  /** `sensitive` when the response carries a secret, which is stored and never shown. */
  datatype Step<+C> = Step(target: string, action: string, call: C, sensitive: bool)

  /** What a caller echoes to confirm a step: its action is part of it. */
  function Item<C>(s: Step<C>): string {
    s.action + " " + s.target
  }

  function Items<C>(steps: seq<Step<C>>): seq<string> {
    seq(|steps|, i requires 0 <= i < |steps| => Item(steps[i]))
  }

  function Calls<C>(steps: seq<Step<C>>): seq<C> {
    seq(|steps|, i requires 0 <= i < |steps| => steps[i].call)
  }

  predicate Planned<C(==)>(steps: seq<Step<C>>, item: string) {
    exists s :: s in steps && Item(s) == item
  }

  /** An item bound to contents. */
  predicate IsBound(item: string) {
    '#' in item
  }

  datatype Refused = NotAdmin | NoItems | Drifted(items: seq<string>) | StepFailed(index: nat, applied: seq<string>)

  /** The steps whose items were echoed, in plan order. */
  function Kept<C>(steps: seq<Step<C>>, items: seq<string>): (r: seq<Step<C>>) {
    if steps == [] then []
    else (if Item(steps[0]) in items then [steps[0]] else []) + Kept(steps[1..], items)
  }

  function Dropped<C(==)>(steps: seq<Step<C>>, items: seq<string>): seq<string> {
    if items == [] then []
    else (if Planned(steps, items[0]) then [] else [items[0]]) + Dropped(steps, items[1..])
  }

  function Confirm<C(==)>(steps: seq<Step<C>>, items: seq<string>): Result<(seq<Step<C>>, seq<string>), Refused> {
    if items == [] && steps != [] then Err(NoItems) else Ok((Kept(steps, items), Dropped(steps, items)))
  }

  function BoundDropped<C(==)>(steps: seq<Step<C>>, items: seq<string>): seq<string> {
    if items == [] then []
    else (if IsBound(items[0]) && !Planned(steps, items[0]) then [items[0]] else []) + BoundDropped(steps, items[1..])
  }

  function RefuseDrifted<C(==)>(steps: seq<Step<C>>, items: seq<string>): Result<(), Refused> {
    if BoundDropped(steps, items) == [] then Ok(()) else Err(Drifted(BoundDropped(steps, items)))
  }

  /** `a` is `b` with some of its elements left out. */
  ghost predicate Subsequence<T>(a: seq<T>, b: seq<T>) {
    a == [] || (b != [] && ((a[0] == b[0] && Subsequence(a[1..], b[1..])) || Subsequence(a, b[1..])))
  }

  /**
    Confirmation keeps exactly the planned steps that were echoed, in plan
    order, and names exactly the items that are no longer planned.
  */
  lemma {:induction false} KeptExactly<C>(steps: seq<Step<C>>, items: seq<string>)
    ensures forall s :: s in Kept(steps, items) <==> s in steps && Item(s) in items
    ensures Subsequence(Kept(steps, items), steps)
  {
    if steps != [] {
      KeptExactly(steps[1..], items);
      var rest := Kept(steps[1..], items);
      assert steps == [steps[0]] + steps[1..];
      if Item(steps[0]) in items {
        assert ([steps[0]] + rest)[1..] == rest;
      } else {
        assert [] + rest == rest;
      }
    }
  }

  lemma {:induction false} DroppedExactly<C>(steps: seq<Step<C>>, items: seq<string>)
    ensures forall i :: i in Dropped(steps, items) <==> i in items && !exists s :: s in steps && Item(s) == i
  {
    if items != [] {
      DroppedExactly(steps, items[1..]);
      assert items == [items[0]] + items[1..];
    }
  }

  /** Drift is refused exactly when some confirmed item that is bound to contents is no longer planned. */
  lemma {:induction false} DriftExactly<C>(steps: seq<Step<C>>, items: seq<string>)
    ensures RefuseDrifted(steps, items).Ok? <==>
      forall i :: i in items && '#' in i ==> exists s :: s in steps && s.action + " " + s.target == i
    ensures forall i :: i in BoundDropped(steps, items) <==> i in items && IsBound(i) && !Planned(steps, i)
  {
    if items != [] {
      DriftExactly(steps, items[1..]);
      assert items == [items[0]] + items[1..];
      assert BoundDropped(steps, items) == [] ==> BoundDropped(steps, items[1..]) == [];
    }
    var b := BoundDropped(steps, items);
    assert b != [] ==> b[0] in b;
  }

  /** `call` is that of a planned step whose item was echoed. */
  ghost predicate Confirmed<C>(steps: seq<Step<C>>, items: seq<string>, call: C) {
    exists s :: s in steps && Item(s) in items && s.call == call
  }

  datatype Change<+C> =
    | Planning(items: seq<string>)
    | Applied(steps: seq<Step<C>>, notes: seq<string>)

  class Client<C(==)> {
    const kernel: Kernel
    /** Every call attempted, in order; the last one may have failed. */
    var attempted: seq<C>

    constructor (kernel: Kernel)
      ensures attempted == [] && this.kernel == kernel
    {
      attempted, this.kernel := [], kernel;
    }

    /** One request; it may fail, and so may what the caller does with the response. */
    method Request(call: C) returns (ok: bool)
      modifies this, kernel
      ensures attempted == old(attempted) + [call]
      ensures (ok <==> !kernel.faults(old(kernel.calls))) && kernel.calls == old(kernel.calls) + 1
    {
      attempted := attempted + [call];
      var fault := kernel.Fault();
      ok := !fault;
    }

    /** None of the calls of these steps fails, made from the `n`th on. */
    ghost predicate AllArrive(steps: seq<Step<C>>, n: nat) {
      Quiet(kernel.faults, n, n + |steps|)
    }

    /** `run_with`: the steps in order, up to the first that fails, which names what was applied before it. */
    method RunWith(steps: seq<Step<C>>) returns (r: Result<(), Refused>)
      modifies this, kernel
      ensures r.Ok? ==> attempted == old(attempted) + Calls(steps)
      ensures kernel.Ran(old(kernel.calls), |steps|, r.Ok?)
      ensures r.Err? ==>
        && r.error.StepFailed? && r.error.index < |steps| && kernel.calls == old(kernel.calls) + r.error.index + 1
        && attempted == old(attempted) + Calls(steps[..r.error.index + 1])
        && r.error.applied == Items(steps[..r.error.index])
    {
      for i := 0 to |steps|
        invariant attempted == old(attempted) + Calls(steps[..i])
        invariant kernel.Ran(old(kernel.calls), i, true)
      {
        assert Calls(steps[..i + 1]) == Calls(steps[..i]) + [steps[i].call];
        var ok := Request(steps[i].call);
        if !ok {
          return Err(StepFailed(i, Items(steps[..i])));
        }
      }
      assert steps[..|steps|] == steps;
      return Ok(());
    }

    /** `plan_or_apply`. */
    method PlanOrApply(
        execute: bool, admin: bool, steps: seq<Step<C>>, notes: seq<string>, confirmed: Option<seq<string>>)
      returns (r: Result<Change<C>, Refused>)
      modifies this, kernel
      ensures !admin ==> r == Err(NotAdmin)
      ensures !admin || !execute ==> attempted == old(attempted)
      ensures admin && !execute ==> r == Ok(Planning(Items(steps)))
      ensures admin && execute && confirmed.Some? && confirmed.value == [] && steps != [] ==>
        r == Err(NoItems) && attempted == old(attempted)
      ensures r.Ok? <==>
        && admin && (execute && confirmed.Some? && confirmed.value == [] ==> steps == [])
        && (execute ==> AllArrive(if confirmed.Some? then Kept(steps, confirmed.value) else steps, old(kernel.calls)))
      ensures old(attempted) <= attempted
      ensures attempted[|old(attempted)|..] <= Calls(if confirmed.Some? then Kept(steps, confirmed.value) else steps)
      ensures r.Ok? && execute ==>
        && attempted == old(attempted) + Calls(if confirmed.Some? then Kept(steps, confirmed.value) else steps)
        && r == Ok(Applied(if confirmed.Some? then Kept(steps, confirmed.value) else steps,
                           notes + if confirmed.Some? then Dropped(steps, confirmed.value) else []))
    {
      if !admin {
        return Err(NotAdmin);
      }
      if !execute {
        return Ok(Planning(Items(steps)));
      }
      var kept, more := steps, [];
      if confirmed.Some? {
        var c := Confirm(steps, confirmed.value);
        if c.Err? {
          return Err(c.error);
        }
        kept, more := c.value.0, c.value.1;
      }
      var ran := RunWith(kept);
      if ran.Err? {
        PrefixCalls(kept, ran.error.index + 1);
        return Err(ran.error);
      }
      return Ok(Applied(kept, notes + more));
    }

    /**
      `group_delete` and `namespace_delete` once their steps are planned from a
      fresh read: if an echoed item names contents the plan no longer has, there
      is no call at all, and each call there is belongs to a planned step whose
      item was echoed.
    */
    method DeleteConfirmed(execute: bool, admin: bool, steps: seq<Step<C>>, notes: seq<string>, items: seq<string>)
      returns (r: Result<Change<C>, Refused>)
      modifies this, kernel
      ensures old(attempted) <= attempted
      ensures !execute || !admin || (exists i :: i in items && IsBound(i) && !Planned(steps, i)) ==>
        attempted == old(attempted)
      ensures execute && admin && (exists i :: i in items && IsBound(i) && !Planned(steps, i)) ==>
        r.Err? && r.error.Drifted?
      ensures forall k :: |old(attempted)| <= k < |attempted| ==> Confirmed(steps, items, attempted[k])
      ensures r.Ok? && execute ==> attempted == old(attempted) + Calls(Kept(steps, items))
      ensures r.Ok? && execute ==> r.value == Applied(Kept(steps, items), notes + Dropped(steps, items))
      ensures r.Ok? && !execute ==> r.value == Planning(Items(steps))
      ensures !admin ==> r == Err(NotAdmin)
      ensures r.Ok? <==>
        && admin && (execute ==> RefuseDrifted(steps, items).Ok? && (items == [] ==> steps == []))
        && (execute ==> AllArrive(Kept(steps, items), old(kernel.calls)))
    {
      hide Kept, Planned, Calls, Confirmed, BoundDropped, IsBound, Items, Dropped;
      DriftExactly(steps, items);
      if execute {
        if !admin {
          return Err(NotAdmin);
        }
        var drift := RefuseDrifted(steps, items);
        if drift.Err? {
          return Err(drift.error);
        }
      }
      ghost var before := attempted;
      r := PlanOrApply(execute, admin, steps, notes, Some(items));
      OnlyConfirmed(before, attempted, steps, items);
    }
  }

  lemma OnlyConfirmed<C>(before: seq<C>, after: seq<C>, steps: seq<Step<C>>, items: seq<string>)
    requires before <= after && after[|before|..] <= Calls(Kept(steps, items))
    ensures forall k :: |before| <= k < |after| ==> Confirmed(steps, items, after[k])
  {
    KeptExactly(steps, items);
    var kept := Kept(steps, items);
    forall k | |before| <= k < |after| ensures Confirmed(steps, items, after[k]) {
      var j := k - |before|;
      assert after[|before|..][j] == Calls(kept)[j];
      assert kept[j] in kept;
    }
  }

  lemma PrefixCalls<C>(steps: seq<Step<C>>, n: nat)
    requires n <= |steps|
    ensures Calls(steps[..n]) <= Calls(steps)
  {
  }
}
