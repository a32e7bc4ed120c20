/** Tool calls are run in batches; the batches are the calls in their order. */
module Batches {
  import opened Wrappers

  /** Calls that may run side by side. */
  predicate AllSafe<T>(safe: T -> bool, batch: seq<T>) {
    forall i :: 0 <= i < |batch| ==> safe(batch[i])
  }

  /**
   * A batch of several calls holds only calls that may run side by side, and no two neighbouring
   * batches could have been one.
   */
  ghost predicate AreBatches<T>(safe: T -> bool, batches: seq<seq<T>>) {
    && (forall i :: 0 <= i < |batches| ==> batches[i] != [] && (|batches[i]| == 1 || AllSafe(safe, batches[i])))
    && forall i, j :: 0 <= i < j < |batches| && j == i + 1 && AllSafe(safe, batches[i]) ==> !AllSafe(safe, batches[j])
  }

  /** `_partition_tool_batches` when tools may run concurrently. */
  method Partition<T>(safe: T -> bool, calls: seq<T>) returns (batches: seq<seq<T>>)
    ensures Concat(batches) == calls
    ensures AreBatches(safe, batches)
  {
    batches := [];
    var current: seq<T> := [];
    ghost var done: seq<T> := [];
    for k := 0 to |calls|
      invariant done == Concat(batches) && done + current == calls[..k]
      invariant AllSafe(safe, current) && AreBatches(safe, batches) && EndsUnsafe(safe, batches)
    {
      assert calls[..k + 1] == calls[..k] + [calls[k]];
      if safe(calls[k]) {
        SafeJoins(safe, current, calls[k]);
        current := current + [calls[k]];
      } else {
        Close(safe, batches, current, calls[k]);
        done := done + current + [calls[k]];
        if current != [] {
          batches := batches + [current];
          current := [];
        }
        batches := batches + [[calls[k]]];
      }
    }
    assert done + current == calls;
    if current != [] {
      Extend(safe, batches, current);
      batches := batches + [current];
    }
  }

  /** The last batch holds a call that must run alone. */
  ghost predicate EndsUnsafe<T>(safe: T -> bool, batches: seq<seq<T>>) {
    batches != [] ==> !AllSafe(safe, batches[|batches| - 1])
  }

  lemma SafeJoins<T>(safe: T -> bool, current: seq<T>, x: T)
    requires AllSafe(safe, current) && safe(x)
    ensures AllSafe(safe, current + [x])
  {
  }

  /** A call that must run alone closes the batch before it. */
  lemma Close<T>(safe: T -> bool, batches: seq<seq<T>>, current: seq<T>, x: T)
    requires AreBatches(safe, batches) && EndsUnsafe(safe, batches) && AllSafe(safe, current) && !safe(x)
    ensures var closed := (if current != [] then batches + [current] else batches) + [[x]];
            && AreBatches(safe, closed) && EndsUnsafe(safe, closed)
            && Concat(closed) == Concat(batches) + current + [x]
  {
    var before := if current != [] then batches + [current] else batches;
    if current != [] {
      Extend(safe, batches, current);
    }
    ExtendByUnsafe(safe, before, x);
    ConcatStep(before, [x]);
  }

  lemma Extend<T>(safe: T -> bool, batches: seq<seq<T>>, batch: seq<T>)
    requires AreBatches(safe, batches) && batch != [] && AllSafe(safe, batch)
    requires EndsUnsafe(safe, batches)
    ensures AreBatches(safe, batches + [batch]) && Concat(batches + [batch]) == Concat(batches) + batch
  {
    ConcatStep(batches, batch);
    BatchFollows(safe, batches, batch);
  }

  /** A batch may follow if it could not have been one with the last. */
  lemma BatchFollows<T>(safe: T -> bool, batches: seq<seq<T>>, batch: seq<T>)
    requires AreBatches(safe, batches) && batch != [] && (|batch| == 1 || AllSafe(safe, batch))
    requires batches != [] && AllSafe(safe, batches[|batches| - 1]) ==> !AllSafe(safe, batch)
    ensures AreBatches(safe, batches + [batch])
  {
    var grown := batches + [batch];
    assert forall i :: 0 <= i < |batches| ==> grown[i] == batches[i];
    assert grown[|batches|] == batch;
  }

  lemma ExtendByUnsafe<T>(safe: T -> bool, batches: seq<seq<T>>, x: T)
    requires AreBatches(safe, batches) && !safe(x)
    ensures AreBatches(safe, batches + [[x]]) && !AllSafe(safe, [x])
  {
    assert [x][0] == x;
    BatchFollows(safe, batches, [x]);
  }

  /** Without concurrency every call is a batch of its own. */
  method Singles<T>(calls: seq<T>) returns (batches: seq<seq<T>>)
    ensures Concat(batches) == calls
    ensures forall i :: 0 <= i < |batches| ==> |batches[i]| == 1
  {
    batches := [];
    for k := 0 to |calls|
      invariant Concat(batches) == calls[..k]
      invariant forall i :: 0 <= i < |batches| ==> |batches[i]| == 1
    {
      assert calls[..k + 1] == calls[..k] + [calls[k]];
      ConcatStep(batches, [calls[k]]);
      batches := batches + [[calls[k]]];
    }
    assert calls[..|calls|] == calls;
  }

  /**
   * `_execute_tools`: batch by batch, one result for each call, in the order of the calls. What a
   * call gives depends on its position too, so equal calls may give different results.
   */
  method Execute<T, R>(concurrent: bool, safe: T -> bool, run: (nat, T) -> R, calls: seq<T>) returns (results: seq<R>)
    ensures |results| == |calls| && forall i :: 0 <= i < |calls| ==> results[i] == run(i, calls[i])
  {
    var batches;
    if concurrent {
      batches := Partition(safe, calls);
    } else {
      batches := Singles(calls);
    }
    results := [];
    ghost var done: seq<T> := [];
    for b := 0 to |batches|
      invariant done == Concat(batches[..b])
      invariant |results| == |done| && forall i :: 0 <= i < |done| ==> results[i] == run(i, done[i])
    {
      ghost var before := done;
      for k := 0 to |batches[b]|
        invariant done == before + batches[b][..k]
        invariant |results| == |done| && forall i :: 0 <= i < |done| ==> results[i] == run(i, done[i])
      {
        results := results + [run(|results|, batches[b][k])];
        assert batches[b][..k + 1] == batches[b][..k] + [batches[b][k]];
        done := done + [batches[b][k]];
      }
      assert batches[b][..|batches[b]|] == batches[b];
      assert batches[..b + 1][..b] == batches[..b];
    }
    assert batches[..|batches|] == batches;
  }
}
