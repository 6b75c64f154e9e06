/** The hook pipe (src/core-component/hook-pipe.ts): an ordered list of hooks
    plus a captured argument tuple, modelled as a value that none of the pipe's
    operations changes, run either as a short-circuiting filter or as an
    exhaustive result set.

    Hooks are opaque values of type K. Invoking one is the oracle `run`: given the
    hook, the execution mode and the arguments it yields the hook's raw result
    (a boolean or a `{success, result}` object). Each hook is awaited before the
    next one starts, so the source's asynchronous recursion is a plain loop here. */
module HookPipes {

  import opened Outcomes
  import opened Sequences

  datatype ExecutionMode = Filter | ResultSet

  /** What a hook may return: a bare boolean or a structured result. */
  datatype RawHookResult<R> = Flag(value: bool) | Structured(success: bool, result: Option<R>)

  /** A hook's result after normalisation. */
  datatype HookResult<R> = HookResult(success: bool, result: Option<R>)

  /** One entry of `successfulHooks` or `failedHooks`: the hook and what it reported. */
  datatype ExecutionResult<K, R> = ExecutionResult(hook: K, result: Option<R>)

  datatype ExecutionSummary<K, A, R> = ExecutionSummary(
    success: bool,
    successfulHooks: seq<ExecutionResult<K, R>>,
    failedHooks: seq<ExecutionResult<K, R>>,
    arguments: seq<A>)

  /** One invocation `hook(mode, ...arguments)`. */
  datatype Call<K, A> = Call(hook: K, mode: ExecutionMode, arguments: seq<A>)

  /** Invoking a hook with a mode and an argument tuple. */
  type Invoker<!K, !A, R> = (K, ExecutionMode, seq<A>) -> RawHookResult<R>

  /** A boolean `b` becomes `{success: b}` with no result; an object is kept as it is. */
  function Normalize<R>(raw: RawHookResult<R>): (r: HookResult<R>)
    ensures raw.Flag? ==> r.success == raw.value && r.result == None
    ensures raw.Structured? ==> r.success == raw.success && r.result == raw.result
  {
    match raw
    case Flag(b) => HookResult(b, None)
    case Structured(success, result) => HookResult(success, result)
  }

  /** `new HookPipe(hooks, args = [])`. */
  function NewHookPipe<K, A>(hooks: seq<K>, args: seq<A> := []): (p: HookPipe<K, A>)
    ensures p.hooks == hooks && p.arguments == args
  {
    HookPipe(hooks, args)
  }

  datatype HookPipe<K, A> = HookPipe(hooks: seq<K>, arguments: seq<A>) {

    /** A new pipe over the same hooks with other arguments; the receiver, being
        a value, keeps its own. */
    function WithArguments(args: seq<A>): (p: HookPipe<K, A>)
      ensures p.hooks == hooks && p.arguments == args
    {
      HookPipe(hooks, args)
    }

    /** The normalised result hook `i` reports when invoked in `mode` with this
        pipe's arguments. */
    function ResultOf<R>(run: Invoker<K, A, R>, mode: ExecutionMode, i: nat): HookResult<R>
      requires i < |hooks|
    {
      Normalize(run(hooks[i], mode, arguments))
    }

    /** The entry recorded for hook `i`: the hook paired with its own result. */
    function EntryOf<R>(run: Invoker<K, A, R>, mode: ExecutionMode, i: nat): ExecutionResult<K, R>
      requires i < |hooks|
    {
      ExecutionResult(hooks[i], ResultOf(run, mode, i).result)
    }

    /** The (successful, failed) lists after the first `n` hooks have run, each
        hook's entry going to the list its own result selects. */
    function Partition<R>(run: Invoker<K, A, R>, mode: ExecutionMode, n: nat)
      : (p: (seq<ExecutionResult<K, R>>, seq<ExecutionResult<K, R>>))
      requires n <= |hooks|
      ensures |p.0| + |p.1| == n
    {
      if n == 0 then ([], [])
      else
        var (successful, failed) := Partition(run, mode, n - 1);
        if ResultOf(run, mode, n - 1).success then (successful + [EntryOf(run, mode, n - 1)], failed)
        else (successful, failed + [EntryOf(run, mode, n - 1)])
    }

    /** The position of the first hook at or after `from` that reports failure,
        or |hooks| when there is none. */
    function FirstFailureFrom<R>(run: Invoker<K, A, R>, mode: ExecutionMode, from: nat): (k: nat)
      requires from <= |hooks|
      ensures from <= k <= |hooks|
      ensures forall j :: from <= j < k ==> ResultOf(run, mode, j).success
      ensures k < |hooks| ==> !ResultOf(run, mode, k).success
      decreases |hooks| - from
    {
      if from == |hooks| then from
      else if !ResultOf(run, mode, from).success then from
      else FirstFailureFrom(run, mode, from + 1)
    }

    /** The position of the first failing hook, or |hooks| when all succeed. */
    function FirstFailure<R>(run: Invoker<K, A, R>, mode: ExecutionMode): (k: nat)
      ensures k <= |hooks|
      ensures forall j :: 0 <= j < k ==> ResultOf(run, mode, j).success
      ensures k < |hooks| ==> !ResultOf(run, mode, k).success
    {
      FirstFailureFrom(run, mode, 0)
    }

    /** How many hooks a run invokes: all of them, unless it stops on failure and
        one fails, in which case every hook up to and including the first failing one. */
    function InvokedCount<R>(run: Invoker<K, A, R>, mode: ExecutionMode, stopOnFailure: bool): (n: nat)
      ensures n <= |hooks|
    {
      if stopOnFailure && FirstFailure(run, mode) < |hooks| then FirstFailure(run, mode) + 1 else |hooks|
    }

    /** The first `n` hooks invoked in order, each with `mode` and this pipe's arguments. */
    function CallsUpTo(mode: ExecutionMode, n: nat): seq<Call<K, A>>
      requires n <= |hooks|
    {
      seq(n, j requires 0 <= j < n => Call(hooks[j], mode, arguments))
    }

    /** The summary a run produces. */
    function Summary<R>(run: Invoker<K, A, R>, mode: ExecutionMode, stopOnFailure: bool): ExecutionSummary<K, A, R> {
      var (successful, failed) := Partition(run, mode, InvokedCount(run, mode, stopOnFailure));
      ExecutionSummary(|failed| == 0, successful, failed, arguments)
    }

    /** `executeWithResultset(i, mode)`: invokes hook `i` and normalises its result. */
    method ExecuteWithResultset<R>(run: Invoker<K, A, R>, hookIndex: nat, executionMode: ExecutionMode)
      returns (hookResult: HookResult<R>, ghost call: Call<K, A>)
      requires hookIndex < |hooks|
      ensures hookResult == ResultOf(run, executionMode, hookIndex)
      ensures call == Call(hooks[hookIndex], executionMode, arguments)
    {
      call := Call(hooks[hookIndex], executionMode, arguments);
      hookResult := Normalize(run(hooks[hookIndex], executionMode, arguments));
    }

    /** `executeAll(stopOnFailure, mode)`: runs the hooks from index 0 in order,
        sorting each entry into `successful` or `failed`, and stops after the
        first failure when `stopOnFailure` holds. `calls` records the invocations. */
    method ExecuteAll<R>(run: Invoker<K, A, R>, stopOnFailure: bool, executionMode: ExecutionMode)
      returns (successful: seq<ExecutionResult<K, R>>, failed: seq<ExecutionResult<K, R>>, ghost calls: seq<Call<K, A>>)
      ensures (successful, failed) == Partition(run, executionMode, InvokedCount(run, executionMode, stopOnFailure))
      ensures calls == CallsUpTo(executionMode, InvokedCount(run, executionMode, stopOnFailure))
    {
      successful, failed, calls := [], [], [];
      ghost var firstFailure := FirstFailure(run, executionMode);
      var i := 0;
      var stopped := false;
      while i < |hooks| && !stopped
        invariant i <= |hooks|
        invariant (successful, failed) == Partition(run, executionMode, i)
        invariant calls == CallsUpTo(executionMode, i)
        invariant stopOnFailure && !stopped ==> i <= firstFailure
        invariant stopped ==> stopOnFailure && firstFailure < |hooks| && i == firstFailure + 1
        decreases |hooks| - i
      {
        var hookResult, call := ExecuteWithResultset(run, i, executionMode);
        calls := calls + [call];
        if hookResult.success {
          successful := successful + [ExecutionResult(hooks[i], hookResult.result)];
        } else {
          failed := failed + [ExecutionResult(hooks[i], hookResult.result)];
        }
        if !hookResult.success && stopOnFailure {
          stopped := true;
        }
        i := i + 1;
      }
    }

    /** `runAsFilter()`: stops at the first failing hook. */
    method RunAsFilter<R>(run: Invoker<K, A, R>) returns (summary: ExecutionSummary<K, A, R>, ghost calls: seq<Call<K, A>>)
      ensures summary == Summary(run, Filter, true)
      ensures summary.success <==> summary.failedHooks == []
      ensures summary.arguments == arguments
      ensures calls == CallsUpTo(Filter, InvokedCount(run, Filter, true))
    {
      var successful, failed;
      successful, failed, calls := ExecuteAll(run, true, Filter);
      summary := ExecutionSummary(|failed| == 0, successful, failed, arguments);
    }

    /** `runWithResultset()`: runs every hook. */
    method RunWithResultset<R>(run: Invoker<K, A, R>) returns (summary: ExecutionSummary<K, A, R>, ghost calls: seq<Call<K, A>>)
      ensures summary == Summary(run, ResultSet, false)
      ensures summary.success <==> summary.failedHooks == []
      ensures summary.arguments == arguments
      ensures calls == CallsUpTo(ResultSet, |hooks|)
    {
      var successful, failed;
      successful, failed, calls := ExecuteAll(run, false, ResultSet);
      summary := ExecutionSummary(|failed| == 0, successful, failed, arguments);
    }
  }

  /** While every hook so far succeeds, the successful list is all their entries
      in order and the failed list is empty. */
  lemma {:induction false} PartitionAllSucceed<K, A, R>(pipe: HookPipe<K, A>, run: Invoker<K, A, R>, mode: ExecutionMode, n: nat)
    requires n <= |pipe.hooks|
    requires forall j :: 0 <= j < n ==> pipe.ResultOf(run, mode, j).success
    ensures pipe.Partition(run, mode, n).0 == seq(n, j requires 0 <= j < n => pipe.EntryOf(run, mode, j))
    ensures pipe.Partition(run, mode, n).1 == []
  {
    if n > 0 {
      PartitionAllSucceed(pipe, run, mode, n - 1);
    }
  }

  /** Both lists keep hook order and pair each hook with its own result: `wins`
      and `losses` are the increasing positions of the hooks behind the entries,
      the hooks that succeeded and failed, and together they cover every hook run. */
  lemma {:induction false} PartitionPicks<K, A, R>(pipe: HookPipe<K, A>, run: Invoker<K, A, R>, mode: ExecutionMode, n: nat)
    returns (wins: seq<nat>, losses: seq<nat>)
    requires n <= |pipe.hooks|
    ensures |wins| == |pipe.Partition(run, mode, n).0| && |losses| == |pipe.Partition(run, mode, n).1|
    ensures StrictlyIncreasing(wins) && StrictlyIncreasing(losses)
    ensures forall t :: 0 <= t < |wins| ==>
              wins[t] < n && pipe.ResultOf(run, mode, wins[t]).success
              && pipe.Partition(run, mode, n).0[t] == pipe.EntryOf(run, mode, wins[t])
    ensures forall t :: 0 <= t < |losses| ==>
              losses[t] < n && !pipe.ResultOf(run, mode, losses[t]).success
              && pipe.Partition(run, mode, n).1[t] == pipe.EntryOf(run, mode, losses[t])
    ensures forall j :: 0 <= j < n ==> j in wins || j in losses
  {
    if n == 0 {
      wins, losses := [], [];
    } else {
      wins, losses := PartitionPicks(pipe, run, mode, n - 1);
      if pipe.ResultOf(run, mode, n - 1).success {
        wins := wins + [n - 1];
      } else {
        losses := losses + [n - 1];
      }
    }
  }

  /** A filter run invokes the hooks up to and including the first failing one
      and no later hook; everything before it is successful, it alone is failed,
      and the run is successful exactly when no hook fails, in which case every
      hook is listed as successful in order. */
  lemma FilterRunStopsAtFirstFailure<K, A, R>(pipe: HookPipe<K, A>, run: Invoker<K, A, R>)
    ensures var k := pipe.FirstFailure(run, Filter);
            var summary := pipe.Summary(run, Filter, true);
            && summary.successfulHooks == seq(k, j requires 0 <= j < k => pipe.EntryOf(run, Filter, j))
            && |summary.failedHooks| <= 1
            && (k < |pipe.hooks| ==>
                  pipe.InvokedCount(run, Filter, true) == k + 1
                  && summary.failedHooks == [pipe.EntryOf(run, Filter, k)]
                  && !summary.success)
            && (k == |pipe.hooks| ==>
                  pipe.InvokedCount(run, Filter, true) == |pipe.hooks|
                  && summary.failedHooks == []
                  && summary.success)
  {
    var k := pipe.FirstFailure(run, Filter);
    PartitionAllSucceed(pipe, run, Filter, k);
  }

  /** A result-set run invokes every hook once, in order, and sorts each into
      exactly one of the two lists. */
  lemma ResultSetRunCoversAllHooks<K, A, R>(pipe: HookPipe<K, A>, run: Invoker<K, A, R>)
    ensures pipe.InvokedCount(run, ResultSet, false) == |pipe.hooks|
    ensures var summary := pipe.Summary(run, ResultSet, false);
            |summary.successfulHooks| + |summary.failedHooks| == |pipe.hooks|
    ensures var summary := pipe.Summary(run, ResultSet, false);
            summary.success <==> forall j :: 0 <= j < |pipe.hooks| ==> pipe.ResultOf(run, ResultSet, j).success
  {
    var n := |pipe.hooks|;
    var wins, losses := PartitionPicks(pipe, run, ResultSet, n);
    if !(forall j :: 0 <= j < n ==> pipe.ResultOf(run, ResultSet, j).success) {
      var j :| 0 <= j < n && !pipe.ResultOf(run, ResultSet, j).success;
      assert forall t :: 0 <= t < |wins| ==> wins[t] != j;
      assert j in losses;
    } else {
      PartitionAllSucceed(pipe, run, ResultSet, n);
    }
  }

  /** An empty pipe's runs are successful with both lists empty. */
  lemma EmptyPipeSucceeds<K, A, R>(pipe: HookPipe<K, A>, run: Invoker<K, A, R>)
    requires pipe.hooks == []
    ensures pipe.Summary(run, Filter, true) == ExecutionSummary(true, [], [], pipe.arguments)
    ensures pipe.Summary(run, ResultSet, false) == ExecutionSummary(true, [], [], pipe.arguments)
  {
  }

  /** Hooks H1, H2, H3 where only H2 fails: the filter run never invokes H3 and
      reports H1 successful and H2 failed; the result-set run invokes all three
      and reports H1 and H3 successful and H2 failed. */
  lemma ThreeHookExample<K, A, R>(pipe: HookPipe<K, A>, run: Invoker<K, A, R>)
    requires |pipe.hooks| == 3
    requires forall mode :: pipe.ResultOf(run, mode, 0).success && !pipe.ResultOf(run, mode, 1).success
                            && pipe.ResultOf(run, mode, 2).success
    ensures pipe.InvokedCount(run, Filter, true) == 2
    ensures pipe.Summary(run, Filter, true)
            == ExecutionSummary(false, [pipe.EntryOf(run, Filter, 0)], [pipe.EntryOf(run, Filter, 1)], pipe.arguments)
    ensures pipe.Summary(run, ResultSet, false)
            == ExecutionSummary(false, [pipe.EntryOf(run, ResultSet, 0), pipe.EntryOf(run, ResultSet, 2)],
                                [pipe.EntryOf(run, ResultSet, 1)], pipe.arguments)
  {
    assert pipe.FirstFailureFrom(run, Filter, 1) == 1;
    assert pipe.FirstFailure(run, Filter) == 1;
    PartitionOfThree(pipe, run, Filter);
    PartitionOfThree(pipe, run, ResultSet);
  }

  /** The first two steps of ThreeHookExample's partition in one mode. */
  lemma PartitionOfThree<K, A, R>(pipe: HookPipe<K, A>, run: Invoker<K, A, R>, mode: ExecutionMode)
    requires |pipe.hooks| == 3
    requires pipe.ResultOf(run, mode, 0).success && !pipe.ResultOf(run, mode, 1).success
    ensures pipe.Partition(run, mode, 2) == ([pipe.EntryOf(run, mode, 0)], [pipe.EntryOf(run, mode, 1)])
  {
    var p1 := pipe.Partition(run, mode, 1);
    assert p1.0 == [pipe.EntryOf(run, mode, 0)] && p1.1 == [];
    var p2 := pipe.Partition(run, mode, 2);
    assert p2.0 == [pipe.EntryOf(run, mode, 0)] && p2.1 == [pipe.EntryOf(run, mode, 1)];
  }
}
