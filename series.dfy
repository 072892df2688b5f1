/** `async.series` as the plugin commands use it: stages run one after the
    other, each only once its predecessor called `next()` without an error; the
    first error skips the remaining stages and goes straight to the final
    callback. The combinator is library code (flatiron's `common.async`), so
    these semantics are an explicit assumption of the model. */
module Series {
  import opened Common

  /** What one stage does with its continuation. `Hang`: the stage never calls
      `next` (it answered the command callback itself, or a prompt is still
      waiting). `Throw`: the stage throws from inside an asynchronous callback,
      which nothing catches. */
  datatype Step<E> = Next | Fail(err: E) | Hang | Throw

  /** `steps` is a possible run of a series of `n` stages: at most `n` stages
      ran, every one but the last called `next()`, and the run stopped early
      only because its last stage did not. */
  predicate IsRun<E>(steps: seq<Step<E>>, n: nat)
  {
    |steps| <= n
    && (forall i :: 0 <= i < |steps| - 1 ==> steps[i].Next?)
    && (|steps| < n ==> |steps| > 0 && !steps[|steps| - 1].Next?)
  }

  /** How a series ends: the final callback with the first error (or none), or
      no final callback at all. */
  datatype End<E> = Done(err: Option<E>) | NoEnd

  function Final<E>(steps: seq<Step<E>>, n: nat): (r: End<E>)
    requires IsRun(steps, n)
    ensures r == Done(None) <==> |steps| == n && forall i :: 0 <= i < n ==> steps[i].Next?
    ensures (r.Done? && r.err.Some?) <==> |steps| > 0 && steps[|steps| - 1].Fail?
    ensures r.Done? && r.err.Some? ==> steps[|steps| - 1] == Fail(r.err.value)
  {
    if |steps| == 0 || steps[|steps| - 1].Next? then Done(None)
    else match steps[|steps| - 1]
      case Fail(e) => Done(Some(e))
      case _ => NoEnd
  }

  /** The combinator itself: given what each stage would do if it ran, the
      stages that do run. */
  function Run<E>(stages: seq<Step<E>>): (steps: seq<Step<E>>)
    ensures IsRun(steps, |stages|)
    ensures |steps| <= |stages| && steps == stages[..|steps|]
  {
    if stages == [] then []
    else if stages[0].Next? then [stages[0]] + Run(stages[1..])
    else [stages[0]]
  }

  /** Stage `k` runs exactly when every earlier stage called `next()` without error. */
  lemma {:induction false} StageRunsIffPredecessorsContinue<E>(stages: seq<Step<E>>, k: nat)
    requires k < |stages|
    ensures k < |Run(stages)| <==> forall i :: 0 <= i < k ==> stages[i].Next?
  {
    if k > 0 && stages[0].Next? {
      StageRunsIffPredecessorsContinue(stages[1..], k - 1);
      assert forall i :: 1 <= i < k ==> stages[i] == stages[1..][i - 1];
    }
  }

  /** The series reports error `e` exactly when some stage fails with `e` and
      every stage before it continued. */
  lemma {:induction false} FirstErrorReported<E>(stages: seq<Step<E>>, e: E)
    ensures Final(Run(stages), |stages|) == Done(Some(e)) <==>
      exists k :: 0 <= k < |stages| && stages[k] == Fail(e) && forall i :: 0 <= i < k ==> stages[i].Next?
  {
    var steps := Run(stages);
    if Final(steps, |stages|) == Done(Some(e)) {
      var k := |steps| - 1;
      assert stages[k] == Fail(e);
      assert forall i :: 0 <= i < k ==> stages[i] == steps[i];
    }
    if exists k :: 0 <= k < |stages| && stages[k] == Fail(e) && forall i :: 0 <= i < k ==> stages[i].Next? {
      var k :| 0 <= k < |stages| && stages[k] == Fail(e) && forall i :: 0 <= i < k ==> stages[i].Next?;
      StageRunsIffPredecessorsContinue(stages, k);
      assert steps[k] == Fail(e);
    }
  }

  /** Reply of a plugin command at the end of its series:
      `err ? callback(err) : callback()`. */
  function EndReply(end: End<Error>): (r: Option<Reply>)
    ensures end.NoEnd? <==> r.None?
    ensures end.Done? ==> r == Some(Reply(end.err, false))
  {
    match end
    case NoEnd => None
    case Done(err) => Some(Reply(err, false))
  }
}
