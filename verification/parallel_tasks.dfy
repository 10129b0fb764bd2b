/**
 * A parallel task after it has been submitted and waited for with
 * `Future.get()`: either the wait was interrupted, or every item ran to an
 * outcome (join-all) and `get()` reports the first failing item.
 */
module ParallelTasks {
  import opened Wrappers
  import opened Throwables

  /** What one item of a parallel task did. */
  datatype ItemOutcome = Succeeded | Raised(exn: Exn)

  /** A finished parallel task as seen by the thread blocked in `get()`. */
  datatype ParallelRun =
    | Interrupted(message: string)
    | Joined(items: seq<ItemOutcome>)

  /** Index of the first item that raised, `|items|` when none did. */
  function FirstFailure(items: seq<ItemOutcome>): (i: nat)
    ensures i <= |items|
    ensures forall j | 0 <= j < i :: items[j].Succeeded?
    ensures i < |items| ==> items[i].Raised?
  {
    if |items| == 0 then 0
    else if items[0].Raised? then 0
    else 1 + FirstFailure(items[1..])
  }

  /**
   * The exception `get()` throws, if any: an `InterruptedException` for an
   * interrupted wait, otherwise an `ExecutionException` whose cause is the
   * first failing item and whose message is that item's `toString()`.
   */
  function Get(run: ParallelRun): (r: Option<Exn>)
    ensures r.None? <==> run.Joined? && forall j | 0 <= j < |run.items| :: run.items[j].Succeeded?
    ensures r.Some? ==> r.value.kind == ExecutionError || r.value.kind == InterruptedError
  {
    match run
    case Interrupted(m) => Some(Exn(InterruptedError, m, None))
    case Joined(items) =>
      var i := FirstFailure(items);
      if i == |items| then None
      else
        var f := items[i].exn;
        Some(Exn(ExecutionError, Describe(f), Some(f)))
  }

  /** When some item failed, `get()` throws an `ExecutionException` caused by the first failing item. */
  lemma GetReportsFirstFailure(items: seq<ItemOutcome>, i: nat)
    requires i < |items| && items[i].Raised?
    requires forall j | 0 <= j < i :: items[j].Succeeded?
    ensures Get(Joined(items)) == Some(Exn(ExecutionError, Describe(items[i].exn), Some(items[i].exn)))
  {
    var k := FirstFailure(items);
    assert k == i by {
      assert k <= i;
      assert k >= i by { assert items[i].Raised?; }
    }
  }
}
