/** The result of a run of steps that each add lines to a running total
    and may fail; the first failure ends the run, and what earlier steps
    added stays added. */
module Outcomes {
  import opened Wrappers
  import opened Sums

  datatype Outcome<E> = Outcome(added: nat, err: Option<E>)

  function Done<E>(): Outcome<E> { Outcome(0, None) }

  function AddedOf<E>(o: Outcome<E>): nat { o.added }

  /** `first`, then `next` unless `first` failed. */
  function Then<E>(first: Outcome<E>, next: Outcome<E>): Outcome<E> {
    if first.err.Some? then first else Outcome(first.added + next.added, next.err)
  }

  /** The steps in order, stopping at the first failure. */
  function Run<E>(steps: seq<Outcome<E>>): Outcome<E> {
    if steps == [] then Done() else Then(Run(steps[..|steps| - 1]), steps[|steps| - 1])
  }

  /** One more step extends the run. */
  lemma RunStep<E>(steps: seq<Outcome<E>>, k: nat)
    requires k < |steps|
    ensures Run(steps[..k + 1]) == Then(Run(steps[..k]), steps[k])
  {
    assert steps[..k + 1][..k] == steps[..k];
  }

  /** Once a prefix of the run has failed, the whole run is that prefix. */
  lemma {:induction false} RunStops<E>(steps: seq<Outcome<E>>, k: nat)
    requires k <= |steps| && Run(steps[..k]).err.Some?
    ensures Run(steps) == Run(steps[..k])
  {
    if k == |steps| {
      assert steps[..k] == steps;
    } else {
      var init := steps[..|steps| - 1];
      assert init[..k] == steps[..k];
      RunStops(init, k);
    }
  }

  /** A run succeeds exactly when every step succeeds, and then it adds the
      sum of what the steps add; a failed run never adds more than that. */
  lemma {:induction false} RunSucceeds<E>(steps: seq<Outcome<E>>)
    ensures Run(steps).err.None? <==> forall k :: 0 <= k < |steps| ==> steps[k].err.None?
    ensures Run(steps).added <= SumOf(steps, AddedOf)
    ensures Run(steps).err.None? ==> Run(steps).added == SumOf(steps, AddedOf)
  {
    if steps != [] {
      var init := steps[..|steps| - 1];
      RunSucceeds(init);
      assert forall k :: 0 <= k < |init| ==> init[k] == steps[k];
    }
  }

  /** When every step before step `k` succeeds and step `k` fails, the run
      ends with that failure and keeps what steps `0` to `k` added. */
  lemma RunFirstError<E>(steps: seq<Outcome<E>>, k: nat)
    requires k < |steps|
    requires forall i :: 0 <= i < k ==> steps[i].err.None?
    requires steps[k].err.Some?
    ensures Run(steps) == Outcome(SumOf(steps[..k + 1], AddedOf), steps[k].err)
  {
    var prefix := steps[..k];
    assert forall i :: 0 <= i < |prefix| ==> prefix[i] == steps[i];
    RunSucceeds(prefix);
    RunStep(steps, k);
    assert steps[..k + 1][..k] == prefix;
    RunStops(steps, k + 1);
  }

  /** When every step adds nothing and either succeeds or fails with `e`,
      so does the run. */
  lemma {:induction false} RunZeroOr<E>(steps: seq<Outcome<E>>, e: E)
    requires forall k :: 0 <= k < |steps| ==> steps[k].added == 0 && (steps[k].err.None? || steps[k].err == Some(e))
    ensures Run(steps).added == 0
    ensures Run(steps).err.None? || Run(steps).err == Some(e)
  {
    if steps != [] {
      var init := steps[..|steps| - 1];
      assert forall k :: 0 <= k < |init| ==> init[k] == steps[k];
      RunZeroOr(init, e);
    }
  }

  /** An error a run ends with is the error of one of its steps. */
  lemma {:induction false} RunErrorFrom<E>(steps: seq<Outcome<E>>, ok: E -> bool)
    requires forall k :: 0 <= k < |steps| && steps[k].err.Some? ==> ok(steps[k].err.value)
    ensures Run(steps).err.Some? ==> ok(Run(steps).err.value)
  {
    if steps != [] {
      var init := steps[..|steps| - 1];
      assert forall k :: 0 <= k < |init| ==> init[k] == steps[k];
      RunErrorFrom(init, ok);
    }
  }
}
