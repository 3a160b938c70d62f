/** Runs of a step function: a state is stepped again and again, step j being
    given its index j, until a step halts the machine or fails. These
    notions do not depend on what a step does. */
module Runs {

  /** Where a step, or a run of steps, leads. */
  datatype Outcome<S> = Running(state: S) | Halted(state: S) | Failed

  /** The outcome of k steps from s, the first of them being step j: take
      that step, then run the remaining ones from where it leads. A halt or a
      failure ends the run. */
  ghost function RunFrom<S>(next: (S, nat) -> Outcome<S>, s: S, j: nat, k: nat): Outcome<S>
    decreases k, 1
  {
    if k == 0 then Running(s) else Go(next, s, j, k)
  }

  /** Step j from s, then k - 1 more. */
  ghost function Go<S>(next: (S, nat) -> Outcome<S>, s: S, j: nat, k: nat): Outcome<S>
    requires k > 0
    decreases k, 0
  {
    match next(s, j)
    case Running(t) => RunFrom(next, t, j + 1, k - 1)
    case other => other
  }

  /** The outcome of the first k steps from s. */
  ghost function Run<S>(next: (S, nat) -> Outcome<S>, s: S, k: nat): Outcome<S>
  {
    RunFrom(next, s, 0, k)
  }

  /** One more step at the end of a run: it is taken from where the run
      stands, if the run is still going. */
  lemma {:induction false} RunFromLast<S>(next: (S, nat) -> Outcome<S>, s: S, j: nat, k: nat)
    ensures RunFrom(next, s, j, k + 1) ==
      match RunFrom(next, s, j, k)
      case Running(t) => next(t, j + k)
      case other => other
    decreases k
  {
    assert RunFrom(next, s, j, k + 1) == Go(next, s, j, k + 1);
    if k > 0 {
      assert RunFrom(next, s, j, k) == Go(next, s, j, k);
      match next(s, j)
      case Running(t) =>
        RunFromLast(next, t, j + 1, k - 1);
      case _ =>
    }
  }

  /** Step k of a run is taken from where the first k steps left it. */
  lemma RunLast<S>(next: (S, nat) -> Outcome<S>, s: S, k: nat)
    ensures Run(next, s, k + 1) ==
      match Run(next, s, k)
      case Running(t) => next(t, k)
      case other => other
  {
    RunFromLast(next, s, 0, k);
  }

  /** The states after each of the first k steps of a run that is still going. */
  ghost function Trace<S>(next: (S, nat) -> Outcome<S>, s: S, k: nat): (r: seq<S>)
    requires Run(next, s, k).Running?
    ensures |r| == k
    ensures k > 0 ==> r[k - 1] == Run(next, s, k).state
  {
    if k == 0 then []
    else
      RunningPrefix(next, s, k - 1, k);
      Trace(next, s, k - 1) + [Run(next, s, k).state]
  }

  /** A run still going after k steps was going after every j <= k steps. */
  lemma {:induction false} RunningPrefix<S>(next: (S, nat) -> Outcome<S>, s: S, j: nat, k: nat)
    requires j <= k && Run(next, s, k).Running?
    ensures Run(next, s, j).Running?
    decreases k
  {
    if j < k {
      RunLast(next, s, k - 1);
      RunningPrefix(next, s, j, k - 1);
    }
  }

  /** Once a run has halted it stays halted, in the same state. */
  lemma {:induction false} HaltedStays<S>(next: (S, nat) -> Outcome<S>, s: S, j: nat, k: nat)
    requires j <= k && Run(next, s, j).Halted?
    ensures Run(next, s, k) == Run(next, s, j)
    decreases k
  {
    if j < k {
      HaltedStays(next, s, j, k - 1);
      RunLast(next, s, k - 1);
    }
  }

  /** A run that has not failed after k steps had not failed after fewer. */
  lemma {:induction false} NotFailedBefore<S>(next: (S, nat) -> Outcome<S>, s: S, j: nat, k: nat)
    requires j <= k && !Run(next, s, k).Failed?
    ensures !Run(next, s, j).Failed?
    decreases k
  {
    if j < k {
      RunLast(next, s, k - 1);
      NotFailedBefore(next, s, j, k - 1);
    }
  }

  /** A run that has halted by step k was still going only for fewer than k steps. */
  lemma {:induction false} RunningBeforeHalt<S>(next: (S, nat) -> Outcome<S>, s: S, j: nat, k: nat)
    requires Run(next, s, j).Running? && Run(next, s, k).Halted?
    ensures j < k
  {
    if k <= j {
      RunningPrefix(next, s, k, j);
    }
  }

  /** A step from a running state that keeps going extends the trace by the
      new state. */
  lemma TraceExtend<S>(next: (S, nat) -> Outcome<S>, s: S, k: nat)
    requires Run(next, s, k + 1).Running?
    ensures Run(next, s, k).Running?
    ensures Run(next, s, k + 1) == next(Run(next, s, k).state, k)
    ensures Trace(next, s, k + 1) == Trace(next, s, k) + [Run(next, s, k + 1).state]
  {
    RunLast(next, s, k);
    RunningPrefix(next, s, k, k + 1);
  }
}
