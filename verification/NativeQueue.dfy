/**
 The pending values of `NativeWatch` in packages/chord/src/watch.ts: an array of values and contexts with a read
 index. It implements a queue of at most 100 values (`Queue`) in a bounded array.
 */
module NativeQueues {

  type Context = nat

  datatype Option<T> = None | Some(value: T)

  const MAX_PENDING: nat := 100

  // ----- The queue it implements -----

  /** Values in order with their frames' contexts, or one failure. */
  datatype Queue<V> = Values(values: seq<(V, Context)>) | Failed(error: string, context: Context)

  datatype Call<V> = Value(value: V) | Failure(error: string)

  /** A value drops a failure that waits; the 101st drops the hundred before it and leaves its `replacement`. */
  function Advance<V>(q: Queue<V>, value: V, replacement: V, context: Context): Queue<V> {
    if q.Failed? then Values([(value, context)])
    else if |q.values| < MAX_PENDING then Values(q.values + [(value, context)])
    else Values([(replacement, context)])
  }

  function DueContext<V>(q: Queue<V>): Option<Context> {
    if q.Failed? then Some(q.context) else if q.values == [] then None else Some(q.values[0].1)
  }

  function Due<V>(q: Queue<V>): Call<V>
    requires DueContext(q).Some?
  {
    if q.Failed? then Failure(q.error) else Value(q.values[0].0)
  }

  function Rest<V>(q: Queue<V>): Queue<V>
    requires DueContext(q).Some?
  {
    if q.Failed? then Values([]) else Values(q.values[1..])
  }

  // ----- The array -----

  datatype Slot<V> = Taken | Val(v: V) | Ctx(c: Context)

  function Slots<V>(values: seq<(V, Context)>): seq<Slot<V>> {
    if values == [] then [] else [Val(values[0].0), Ctx(values[0].1)] + Slots(values[1..])
  }

  lemma {:induction false} SlotsAppend<V>(values: seq<(V, Context)>, value: V, context: Context)
    ensures Slots(values + [(value, context)]) == Slots(values) + [Val(value), Ctx(context)]
  {
    if values == [] {
      assert values + [(value, context)] == [(value, context)];
      assert [(value, context)][1..] == [];
    } else {
      SlotsAppend(values[1..], value, context);
      assert (values + [(value, context)])[1..] == values[1..] + [(value, context)];
    }
  }

  lemma {:induction false} SlotsLength<V>(values: seq<(V, Context)>)
    ensures |Slots(values)| == 2 * |values|
  {
    if values != [] {
      SlotsLength(values[1..]);
    }
  }

  /** The array from the read index on holds the queue; what precedes it is cleared. */
  ghost predicate Holds<V>(pending: seq<Slot<V>>, head: nat, values: seq<(V, Context)>) {
    && head <= |pending| && pending[head..] == Slots(values)
    && (forall i :: 0 <= i < head ==> pending[i].Taken?)
  }

  lemma HoldsFirst<V>(pending: seq<Slot<V>>, head: nat, values: seq<(V, Context)>)
    requires Holds(pending, head, values) && values != []
    ensures head + 2 <= |pending| && |pending| - head == 2 * |values|
    ensures pending[head] == Val(values[0].0) && pending[head + 1] == Ctx(values[0].1)
    ensures pending[head + 2..] == Slots(values[1..])
  {
    SlotsLength(values);
    assert pending[head..][0] == pending[head] && pending[head..][1] == pending[head + 1];
    assert pending[head..][2..] == pending[head + 2..];
  }

  class NativeQueue<V(0)> {
    /** Values and contexts in turn, from `head` on. */
    var pending: seq<Slot<V>>
    var head: nat
    var failure: Option<string>
    var failureContext: Option<Context>
    ghost var queue: Queue<V>

    ghost predicate Valid()
      reads this
    {
      && failure.Some? == failureContext.Some? == queue.Failed?
      && (queue.Failed? ==> queue == Failed(failure.value, failureContext.value) && pending == [] && head == 0)
      && (queue.Values? ==>
            && Holds(pending, head, queue.values) && |queue.values| <= MAX_PENDING
            && |pending| == head + 2 * |queue.values| && (queue.values == [] ==> head == 0))
      && head < 2 * MAX_PENDING && head % 2 == 0
    }

    constructor ()
      ensures Valid() && queue == Values([])
    {
      pending, head, failure, failureContext := [], 0, None, None;
      queue := Values([]);
    }

    /** `advance`; `replacement` is what the source's replacement function would return, by default `value`. */
    method Push(value: V, replacement: V, context: Context)
      requires Valid()
      modifies this
      ensures Valid() && queue == Advance(old(queue), value, replacement, context)
      ensures queue == if old(queue).Failed? then Values([(value, context)])
                       else if |old(queue).values| < 100 then Values(old(queue).values + [(value, context)])
                       else Values([(replacement, context)])
      ensures |pending| <= 398
    {
      failure := None;
      failureContext := None;
      ghost var values := if queue.Failed? then [] else queue.values;
      if |pending| - head < 2 * MAX_PENDING {
        SlotsAppend(values, value, context);
        SlotsLength(values);
        assert (pending + [Val(value), Ctx(context)])[head..] == pending[head..] + [Val(value), Ctx(context)];
        pending := pending + [Val(value), Ctx(context)];
        queue := Values(values + [(value, context)]);
      } else {
        SlotsAppend([], replacement, context);
        assert [] + [(replacement, context)] == [(replacement, context)];
        pending := [Val(replacement), Ctx(context)];
        head := 0;
        queue := Values([(replacement, context)]);
        assert pending[0..] == Slots(queue.values);
      }
    }

    method Fail(error: string, context: Context)
      requires Valid()
      modifies this
      ensures Valid() && queue == Failed(error, context)
    {
      pending := [];
      head := 0;
      failure := Some(error);
      failureContext := Some(context);
      queue := Failed(error, context);
    }

    /** `pendingContext`: contexts alternate with values in the array; none is due in an empty queue. */
    method PendingContext() returns (context: Option<Context>)
      requires Valid()
      ensures context == DueContext(queue)
      ensures context == if queue.Failed? then Some(queue.context)
                         else if queue.values == [] then None
                         else Some(queue.values[0].1)
    {
      if failureContext.Some? {
        return failureContext;
      }
      if queue.values != [] {
        HoldsFirst(pending, head, queue.values);
      }
      if head + 1 < |pending| && pending[head + 1].Ctx? {
        return Some(pending[head + 1].c);
      }
      return None;
    }

    /** `next`: the oldest value, or the failure. */
    method Next() returns (call: Call<V>)
      requires Valid() && DueContext(queue).Some?
      modifies this
      ensures Valid() && call == Due(old(queue)) && queue == Rest(old(queue))
      ensures old(queue).Failed? ==> call == Failure(old(queue).error) && queue == Values([])
      ensures old(queue).Values? ==>
                old(queue).values != [] && call == Value(old(queue).values[0].0) && queue == Values(old(queue).values[1..])
    {
      if failure.Some? {
        call := Failure(failure.value);
        failure := None;
        failureContext := None;
        queue := Values([]);
        assert pending[0..] == Slots(queue.values);
        return;
      }
      HoldsFirst(pending, head, queue.values);
      call := Value(pending[head].v);
      queue := Values(queue.values[1..]);
      SlotsLength(queue.values);
      if head + 2 == |pending| {
        pending := [];
        head := 0;
      } else if head + 2 >= 2 * MAX_PENDING {
        pending := pending[head + 2..];
        head := 0;
        assert pending[0..] == pending;
      } else {
        ghost var after := pending[head + 2..];
        pending := pending[head := Taken][head + 1 := Taken];
        head := head + 2;
        assert pending[head..] == after;
      }
    }

    /** `release` */
    method Release()
      modifies this
      ensures Valid() && queue == Values([]) && pending == []
    {
      pending, head, failure, failureContext := [], 0, None, None;
      queue := Values([]);
    }
  }

  // ----- What the queue promises a listener -----

  datatype Step<V> = Advanced(value: V, replacement: V, context: Context) | FailedWith(error: string, failContext: Context)

  function Run<V>(q: Queue<V>, steps: seq<Step<V>>): Queue<V>
    decreases |steps|
  {
    if steps == [] then q
    else
      var s := steps[0];
      Run(if s.Advanced? then Advance(q, s.value, s.replacement, s.context) else Failed(s.error, s.failContext), steps[1..])
  }

  /** Up to 100 values behind a busy listener arrive all, in order. */
  lemma {:induction false} BacklogKept<V>(values: seq<(V, Context)>, steps: seq<Step<V>>)
    requires |values| + |steps| <= MAX_PENDING
    requires forall i :: 0 <= i < |steps| ==> steps[i].Advanced?
    ensures Run(Values(values), steps) == Values(values + seq(|steps|, i requires 0 <= i < |steps| => (steps[i].value, steps[i].context)))
    decreases |steps|
  {
    var news := seq(|steps|, i requires 0 <= i < |steps| => (steps[i].value, steps[i].context));
    if steps == [] {
      assert values + news == values;
    } else {
      var rest := steps[1..];
      var first := (steps[0].value, steps[0].context);
      BacklogKept(values + [first], rest);
      assert values + news == (values + [first]) + seq(|rest|, i requires 0 <= i < |rest| => (rest[i].value, rest[i].context));
    }
  }

  /** The calls of a listener that takes all that waits. */
  function Calls<V>(q: Queue<V>): seq<Call<V>>
    decreases if q.Values? then |q.values| else 1
  {
    if DueContext(q).None? then [] else [Due(q)] + Calls(Rest(q))
  }

  /** They bring every value that waits, each once, the oldest first; or the failure that waits alone. */
  lemma {:induction false} CallsInOrder<V>(q: Queue<V>)
    ensures q.Failed? ==> Calls(q) == [Failure(q.error)]
    ensures q.Values? ==>
              |Calls(q)| == |q.values| && forall i :: 0 <= i < |q.values| ==> Calls(q)[i] == Value(q.values[i].0)
    decreases if q.Values? then |q.values| else 1
  {
    if DueContext(q).Some? {
      CallsInOrder(Rest(q));
    }
  }

  /** However many values were dropped, the newest one is still to come, and last. */
  lemma {:induction false} NewestIsLast<V>(q: Queue<V>, steps: seq<Step<V>>)
    requires steps != [] && steps[|steps| - 1].Advanced?
    requires steps[|steps| - 1].replacement == steps[|steps| - 1].value
    ensures Run(q, steps).Values? && Run(q, steps).values != []
    ensures Run(q, steps).values[|Run(q, steps).values| - 1] == (steps[|steps| - 1].value, steps[|steps| - 1].context)
    decreases |steps|
  {
    var s := steps[0];
    var next := if s.Advanced? then Advance(q, s.value, s.replacement, s.context) else Failed(s.error, s.failContext);
    if |steps| == 1 {
      assert steps[1..] == [];
    } else {
      NewestIsLast(next, steps[1..]);
    }
  }
}
