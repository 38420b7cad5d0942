/**
  The history of one restore: every disk it passed through, in order. A crash
  leaves one of these disks behind.
*/
module Chronicles {
  import opened Wrappers
  import opened Volume
  import opened RestoreState
  import opened RestoreSteps

  function Rank(p: Phase): nat {
    match p
    case Staging => 0
    case Swapping => 1
    case RollingBack => 2
  }

  ghost predicate UpTo(d: Disk, tag: string, r: Phase) {
    PhaseOf(d, tag).Some? ==> Rank(PhaseOf(d, tag).value) <= Rank(r)
  }

  /** The phase on disk never goes back. */
  ghost predicate Ordered(tag: string, a: Disk, b: Disk) {
    PhaseOf(a, tag).Some? ==> UpTo(a, tag, if PhaseOf(b, tag).Some? then PhaseOf(b, tag).value else RollingBack)
  }

  ghost predicate StepAt(g: Job, h: seq<Disk>, i: nat)
    requires i + 1 < |h|
  {
    Disciplined(g, h[i], h[i + 1])
  }

  /**
    Every disk of `h` can be recovered from, live files moved only under a
    marker that admits it, the phase only advanced to `r`, and, unless the
    fsync of the `Swapping` record failed (`unsynced`), every disk with that
    record can be finished.
  */
  ghost predicate Chronicle(g: Job, h: seq<Disk>, r: Phase, unsynced: bool) {
    && |h| > 0 && h[0] == g.orig
    && (forall i :: 0 <= i < |h| ==> Good(g, h[i]) && UpTo(h[i], g.tag, r))
    && (forall i :: 0 <= i < |h| - 1 ==> StepAt(g, h, i))
    && (forall i, j :: 0 <= i < j < |h| ==> Ordered(g.tag, h[i], h[j]))
    && (forall i :: 0 <= i < |h| && PhaseOf(h[i], g.tag) == Some(Swapping) ==> unsynced || FinishReady(g, h[i]))
  }

  lemma Append(g: Job, h: seq<Disk>, r: Phase, u: bool, b: Disk, r': Phase)
    requires Chronicle(g, h, r, u) && Sound(g, h[|h| - 1], b) && Rank(r) <= Rank(r')
    requires PhaseOf(b, g.tag).Some? ==> PhaseOf(b, g.tag).value == r'
    requires PhaseOf(b, g.tag) == Some(Swapping) ==> u || FinishReady(g, b)
    ensures Chronicle(g, h + [b], r', u)
  {
    hide Good, FinishReady, Disciplined, PhaseOf;
    var k := h + [b];
    forall i | 0 <= i < |k| - 1 ensures StepAt(g, k, i) {
      if i < |h| - 1 {
        assert StepAt(g, h, i);
      }
    }
  }

  /** A call that failed changed nothing. */
  lemma Idle(g: Job, h: seq<Disk>, r: Phase, u: bool)
    requires Chronicle(g, h, r, u)
    requires PhaseOf(h[|h| - 1], g.tag).Some? ==> PhaseOf(h[|h| - 1], g.tag).value == r
    ensures Chronicle(g, h + [h[|h| - 1]], r, u)
  {
    hide Good, FinishReady, PhaseOf;
    Append(g, h, r, u, h[|h| - 1], r);
  }
}
