/**
 `WatchLifecycle` and `Watch` of packages/chord/src/watch.ts: serialized, coalescing delivery of a JSON source's
 frames. Every run leaves a log of what happened, in order. `Step` says which logs the protocol allows, with no
 reference to the handle's fields; the class keeps its log allowed, and the lemmas draw the promises from that.
 */
module WatchProtocol {
  import opened Delta
  import opened PendingQueue

  type Context = nat

  datatype WatchEnd = Stopped | Aborted | Ended | ListenerError(error: string) | SourceFailed(error: string)

  /** A listener call, and a frame of the source. */
  datatype Call = Value(value: Json, ops: seq<Op>, retired: bool) | Failure(error: string)

  datatype Event =
    | Accept(frame: Call, context: Context)
    | Begin(call: Call, callContext: Context)
    | Finish
    /** `endAfterDelivery()` */
    | SourceDone
    /** `delivered`: the source was done and everything accepted had been delivered. */
    | Close(end: WatchEnd, delivered: bool)

  // ----- The protocol -----

  /**
   What a log has reached: the value last delivered, the source's newest value, whether a retirement is unreported,
   the newest frame if a call is due for it, whether no other frame came since the last call, whether a failure came
   since the last value call, how the watch stands, and the operations of all frames since that call.
   */
  datatype Monitor = Monitor(delivered: Json, source: Json, owed: bool, due: Option<(Call, Context)>, alone: bool,
                             failed: bool, running: bool, done: bool, end: Option<WatchEnd>, received: seq<Op>)

  ghost function Fresh(initial: Json): Monitor {
    Monitor(initial, initial, false, None, false, false, false, false, None, [])
  }

  /**
   What a call may make of the operations since the last one: unless they are too many to wait, or replace the document
   themselves, it carries no more of them and does not replace the document.
   */
  predicate Coalesced(ops: seq<Op>, received: seq<Op>) {
    |received| <= MAX_PENDING_OPS && NoReplacement(received) ==> |ops| <= |received| && NoReplacement(ops)
  }

  /** Whether `e` may happen next, and what it leads to. */
  ghost function Step(m: Monitor, e: Event): Option<Monitor> {
    match e
    case Accept(frame, context) =>
      if m.end.Some? || m.done then None
      else if frame.Failure? then Some(m.(due := Some((frame, context)), alone := m.due.None?, failed := true))
      else Some(m.(due := Some((frame, context)), alone := m.due.None?, source := frame.value, owed := m.owed || frame.retired,
                   received := m.received + frame.ops))
    case Begin(call, context) =>
      if m.end.Some? || m.running || m.due.None? || context != m.due.value.1 then None
      else if call.Failure? then
        if m.due.value.0 == call then Some(m.(due := None, running := true)) else None
      else if
        && m.due.value.0.Value? && call.value == m.source && call.retired == m.owed
        && ApplyAll(m.delivered, call.ops) == Some(call.value)
        && (if m.failed then call.ops == [Replace(call.value)]
            else (m.alone ==> call == m.due.value.0) && Coalesced(call.ops, m.received))
      then Some(m.(due := None, delivered := call.value, owed := false, failed := false, running := true, received := []))
      else None
    case Finish => if m.running then Some(m.(running := false)) else None
    case SourceDone => if m.end.Some? || m.done then None else Some(m.(done := true))
    case Close(end, delivered) =>
      if m.end.Some? || (delivered && !(m.done && m.due.None? && !m.running && end == Ended)) then None
      else Some(m.(end := Some(end)))
  }

  /** `log` is allowed: `ms` are the monitors before, between and after its events. */
  ghost predicate IsRun(initial: Json, log: seq<Event>, ms: seq<Monitor>) {
    && |ms| == |log| + 1 && ms[0] == Fresh(initial)
    && forall i, j :: 0 <= i && j == i + 1 <= |log| ==> Step(ms[i], log[i]) == Some(ms[j])
  }

  lemma RunExtends(initial: Json, log: seq<Event>, ms: seq<Monitor>, e: Event)
    requires IsRun(initial, log, ms) && Step(ms[|log|], e).Some?
    ensures IsRun(initial, log + [e], ms + [Step(ms[|log|], e).value])
  {
  }

  // ----- What every run promises -----

  lemma {:induction false} StaysClosed(initial: Json, log: seq<Event>, ms: seq<Monitor>, i: nat, j: nat)
    requires IsRun(initial, log, ms) && i < j <= |log| && log[i].Close?
    ensures ms[j].end == Some(log[i].end)
    decreases j
  {
    assert Step(ms[j - 1], log[j - 1]) == Some(ms[j]);
    if j > i + 1 {
      StaysClosed(initial, log, ms, i, j - 1);
    }
  }

  /** Once the watch ended, no call begins, no frame is taken and no second end comes: the first reason stays. */
  lemma NothingAfterClose(initial: Json, log: seq<Event>, ms: seq<Monitor>, i: nat, j: nat)
    requires IsRun(initial, log, ms) && i < j < |log| && log[i].Close?
    ensures log[j].Finish?
  {
    StaysClosed(initial, log, ms, i, j);
    assert Step(ms[j], log[j]) == Some(ms[j + 1]);
  }

  lemma {:induction false} RunsUntilFinish(initial: Json, log: seq<Event>, ms: seq<Monitor>, i: nat, j: nat)
    requires IsRun(initial, log, ms) && i < j <= |log| && log[i].Begin?
    requires forall k :: i < k < j ==> !log[k].Finish?
    ensures ms[j].running
    decreases j
  {
    assert Step(ms[j - 1], log[j - 1]) == Some(ms[j]);
    if j > i + 1 {
      RunsUntilFinish(initial, log, ms, i, j - 1);
    }
  }

  /** Calls do not overlap: between two of them the first one returned. */
  lemma CallsDoNotOverlap(initial: Json, log: seq<Event>, ms: seq<Monitor>, i: nat, j: nat)
    requires IsRun(initial, log, ms) && i < j < |log| && log[i].Begin? && log[j].Begin?
    ensures exists k :: i < k < j && log[k].Finish?
  {
    assert Step(ms[j], log[j]) == Some(ms[j + 1]);
    if forall k :: i < k < j ==> !log[k].Finish? {
      RunsUntilFinish(initial, log, ms, i, j);
    }
  }

  predicate IsValueCall(e: Event) {
    e.Begin? && e.call.Value?
  }

  predicate IsRetirement(e: Event) {
    e.Accept? && e.frame.Value? && e.frame.retired
  }

  /** A retirement is owed exactly from its acceptance to the next value call. */
  lemma {:induction false} OwedUntilCall(initial: Json, log: seq<Event>, ms: seq<Monitor>, j: nat)
    requires IsRun(initial, log, ms) && j <= |log|
    ensures ms[j].owed <==>
            exists i :: 0 <= i < j && IsRetirement(log[i]) && forall k :: i < k < j ==> !IsValueCall(log[k])
    decreases j
  {
    if j > 0 {
      assert Step(ms[j - 1], log[j - 1]) == Some(ms[j]);
      OwedUntilCall(initial, log, ms, j - 1);
      if !IsRetirement(log[j - 1]) && !IsValueCall(log[j - 1]) && ms[j - 1].owed {
        var i :| 0 <= i < j - 1 && IsRetirement(log[i]) && forall k :: i < k < j - 1 ==> !IsValueCall(log[k]);
        assert forall k :: i < k < j ==> !IsValueCall(log[k]);
      }
    }
  }

  /** A value call reports a retirement exactly when one was accepted since the value call before it. */
  lemma RetirementsReported(initial: Json, log: seq<Event>, ms: seq<Monitor>, j: nat)
    requires IsRun(initial, log, ms) && j < |log| && IsValueCall(log[j])
    ensures log[j].call.retired <==>
            exists i :: 0 <= i < j && IsRetirement(log[i]) && forall k :: i < k < j ==> !IsValueCall(log[k])
  {
    assert Step(ms[j], log[j]) == Some(ms[j + 1]);
    OwedUntilCall(initial, log, ms, j);
  }

  /** A replica that applies the operations of the value calls among the first `n` events; `None` if some do not apply. */
  ghost function Replica(initial: Json, log: seq<Event>, n: nat): Slot
    requires n <= |log|
  {
    if n == 0 then Some(initial)
    else
      var v := Replica(initial, log, n - 1);
      if v.Some? && IsValueCall(log[n - 1]) then ApplyAll(v.value, log[n - 1].call.ops) else v
  }

  /** The source's newest value after the first `n` events. */
  ghost function Newest(initial: Json, log: seq<Event>, n: nat): Json
    requires n <= |log|
  {
    if n == 0 then initial
    else if log[n - 1].Accept? && log[n - 1].frame.Value? then log[n - 1].frame.value
    else Newest(initial, log, n - 1)
  }

  lemma {:induction false} ReplicaFollows(initial: Json, log: seq<Event>, ms: seq<Monitor>, n: nat)
    requires IsRun(initial, log, ms) && n <= |log|
    ensures Replica(initial, log, n) == Some(ms[n].delivered) && Newest(initial, log, n) == ms[n].source
    decreases n
  {
    if n > 0 {
      ReplicaFollows(initial, log, ms, n - 1);
      MonitorMoves(initial, log, ms, n);
    }
  }

  /** What an event does to the value last delivered and to the source's newest. */
  ghost predicate Moves(m: Monitor, e: Event, n: Monitor) {
    && (if IsValueCall(e) then ApplyAll(m.delivered, e.call.ops) == Some(n.delivered) else n.delivered == m.delivered)
    && n.source == if e.Accept? && e.frame.Value? then e.frame.value else m.source
  }

  lemma MonitorMoves(initial: Json, log: seq<Event>, ms: seq<Monitor>, n: nat)
    requires IsRun(initial, log, ms) && 0 < n <= |log|
    ensures Moves(ms[n - 1], log[n - 1], ms[n])
  {
    assert Step(ms[n - 1], log[n - 1]) == Some(ms[n]);
  }

  /** Every value call brings the replica to the source's newest value at that moment. */
  lemma Reconstruction(initial: Json, log: seq<Event>, ms: seq<Monitor>, j: nat)
    requires IsRun(initial, log, ms) && j < |log| && IsValueCall(log[j])
    ensures log[j].call.value == Newest(initial, log, j)
    ensures Replica(initial, log, j + 1) == Some(log[j].call.value)
  {
    assert Step(ms[j], log[j]) == Some(ms[j + 1]);
    ReplicaFollows(initial, log, ms, j);
    ReplicaFollows(initial, log, ms, j + 1);
  }

  /** The operations of the value frames accepted since the last value call. */
  function Received(log: seq<Event>, n: nat): seq<Op>
    requires n <= |log|
  {
    if n == 0 || IsValueCall(log[n - 1]) then []
    else if log[n - 1].Accept? && log[n - 1].frame.Value? then Received(log, n - 1) + log[n - 1].frame.ops
    else Received(log, n - 1)
  }

  /** Whether a failure was accepted since the last value call. */
  predicate FailedSince(log: seq<Event>, n: nat)
    requires n <= |log|
  {
    n > 0 && !IsValueCall(log[n - 1]) && ((log[n - 1].Accept? && log[n - 1].frame.Failure?) || FailedSince(log, n - 1))
  }

  lemma {:induction false} ReceivedFollows(initial: Json, log: seq<Event>, ms: seq<Monitor>, n: nat)
    requires IsRun(initial, log, ms) && n <= |log|
    ensures ms[n].received == Received(log, n) && ms[n].failed == FailedSince(log, n)
    decreases n
  {
    if n > 0 {
      ReceivedFollows(initial, log, ms, n - 1);
      MonitorReceives(initial, log, ms, n);
    }
  }

  lemma MonitorReceives(initial: Json, log: seq<Event>, ms: seq<Monitor>, n: nat)
    requires IsRun(initial, log, ms) && 0 < n <= |log|
    ensures var m, e := ms[n - 1], log[n - 1];
            && ms[n].received == (if IsValueCall(e) then []
                                  else if e.Accept? && e.frame.Value? then m.received + e.frame.ops else m.received)
            && ms[n].failed == (!IsValueCall(e) && ((e.Accept? && e.frame.Failure?) || m.failed))
  {
    assert Step(ms[n - 1], log[n - 1]) == Some(ms[n]);
  }

  /**
   A value call replaces the document only after a failure, for a frame that does, or when more operations came since the
   last value call than may wait. Otherwise it carries no more operations than came.
   */
  lemma OperationsDelivered(initial: Json, log: seq<Event>, ms: seq<Monitor>, j: nat)
    requires IsRun(initial, log, ms) && j < |log| && IsValueCall(log[j]) && !FailedSince(log, j)
    requires |Received(log, j)| <= 10_000 && NoReplacement(Received(log, j))
    ensures NoReplacement(log[j].call.ops) && |log[j].call.ops| <= |Received(log, j)|
  {
    ReceivedFollows(initial, log, ms, j);
    assert Step(ms[j], log[j]) == Some(ms[j + 1]);
  }

  /** A call stays due for an accepted frame until one begins. */
  lemma {:induction false} DueUntilCall(initial: Json, log: seq<Event>, ms: seq<Monitor>, i: nat, j: nat)
    requires IsRun(initial, log, ms) && i < j <= |log| && log[i].Accept?
    requires forall k :: i < k < j ==> !log[k].Begin?
    ensures ms[j].due.Some?
    decreases j
  {
    assert Step(ms[j - 1], log[j - 1]) == Some(ms[j]);
    if j > i + 1 {
      DueUntilCall(initial, log, ms, i, j - 1);
    }
  }

  /** A close after delivery leaves no accepted frame uncovered: a call began after it, and every call returned. */
  lemma DeliveredCoversAll(initial: Json, log: seq<Event>, ms: seq<Monitor>, i: nat, j: nat)
    requires IsRun(initial, log, ms) && i < j < |log| && log[i].Accept? && log[j].Close? && log[j].delivered
    ensures exists k :: i < k < j && log[k].Begin?
    ensures !ms[j].running
  {
    assert Step(ms[j], log[j]) == Some(ms[j + 1]);
    if forall k :: i < k < j ==> !log[k].Begin? {
      DueUntilCall(initial, log, ms, i, j);
    }
  }

  // ----- The handle -----

  /** A log with its monitors; `m` is the last of them. */
  datatype Trace = Trace(log: seq<Event>, ms: seq<Monitor>, m: Monitor)

  ghost predicate Recorded(initial: Json, t: Trace) {
    IsRun(initial, t.log, t.ms) && t.m == t.ms[|t.log|]
  }

  ghost function Extended(t: Trace, e: Event): Trace
    requires Step(t.m, e).Some?
  {
    var m := Step(t.m, e).value;
    Trace(t.log + [e], t.ms + [m], m)
  }

  lemma ExtendedRecorded(initial: Json, t: Trace, e: Event)
    requires Recorded(initial, t) && Step(t.m, e).Some?
    ensures Recorded(initial, Extended(t, e))
  {
    RunExtends(initial, t.log, t.ms, e);
  }

  /** The fields of the handle and of its queue, with the monitor of its log. */
  datatype Fields = Fields(value: Json, listener: bool, started: bool, scheduled: bool, running: bool, ending: bool,
                           end: Option<WatchEnd>, lone: Option<Call>, newestValue: Option<Json>,
                           newestContext: Option<Context>, retired: bool, failure: Option<string>, replace: bool,
                           m: Monitor, queueEmpty: bool, base: Json, current: Json, received: seq<Op>)

  /** The fields stand where the log does. */
  ghost predicate Agrees(f: Fields) {
    && f.m.delivered == f.value && f.m.end == f.end
    && (f.end.None? ==>
          && f.m.owed == f.retired && f.m.failed == f.replace && f.m.done == f.ending
          && f.m.due.Some? == f.newestContext.Some?
          && (f.m.due.Some? ==> f.newestContext == Some(f.m.due.value.1)))
  }

  /** What is pending makes the call that is due. */
  ghost predicate PendingIsDue(f: Fields) {
    && (!f.replace ==> f.base == f.value && f.current == f.m.source && f.failure.None?)
    && (!f.replace && f.m.due.Some? ==> f.m.due.value.0.Value? && f.newestValue == Some(f.m.source))
    && (!f.replace && f.m.due.None? ==>
          f.queueEmpty && f.m.source == f.value && f.lone.None? && !f.retired && f.m.received == [])
    && (!f.replace && NoReplacement(f.m.received) ==> f.received == f.m.received)
    && (f.replace ==> f.queueEmpty && f.lone.None?)
    && (f.replace && f.m.due.Some? ==>
          if f.m.due.value.0.Failure? then f.failure == Some(f.m.due.value.0.error)
          else f.failure.None? && f.newestValue == Some(f.m.source))
    && (!f.replace && f.m.due.Some? ==> (f.lone.Some? <==> f.m.alone))
    && (f.lone.Some? ==>
          && f.m.due.Some? && f.lone.value == f.m.due.value.0 && f.m.received == f.lone.value.ops
          && f.lone.value.Value? && f.lone.value.value == f.m.source && f.lone.value.retired == f.retired
          && ApplyAll(f.value, f.lone.value.ops) == Some(f.m.source))
  }

  /** A started, open watch with work has a drain scheduled or running, and a done source is waited for. */
  ghost predicate Live(f: Fields, inDrain: bool) {
    && f.listener == (f.started && f.end.None?)
    && (f.m.running ==> f.running) && (f.running && !inDrain ==> f.m.running)
    && (f.running ==> !f.scheduled && f.started)
    && (f.started && f.end.None? && f.newestContext.Some? ==> f.scheduled || f.running)
    && (f.end.None? && f.ending ==> f.running || f.newestContext.Some?)
  }

  ghost predicate Fine(f: Fields, inDrain: bool) {
    Agrees(f) && Live(f, inDrain) && (f.end.None? ==> PendingIsDue(f))
  }

  /** What the drain loop does next: a call if one is due, or the end of a done source, or nothing. */
  ghost predicate Drained(log: seq<Event>, after: seq<Event>, open: bool, context: Option<Context>, ending: bool,
                          running: bool)
  {
    if !open then after == log && !running
    else if context.None? then after == log + (if ending then [Close(Ended, true)] else []) && !running
    else
      && running && |after| == |log| + 1 && after[..|log|] == log
      && after[|log|].Begin? && after[|log|].callContext == context.value
  }

  /** A value's operations were queued; `empty` says whether the queue holds none. */
  ghost function KeptOps(f: Fields, call: Call, empty: bool): Fields
    requires call.Value?
  {
    f.(lone := if f.newestContext.None? then Some(call) else None, current := call.value, queueEmpty := empty,
    received := if call.ops != [] && call.ops[0].Replace? then call.ops else f.received + call.ops)
  }

  /** The newest value waits. */
  ghost function Newer(f: Fields, call: Call): Fields
    requires call.Value?
  {
    f.(newestValue := Some(call.value), retired := f.retired || call.retired)
  }

  /** A frame was recorded and a drain scheduled. */
  ghost function Queued(f: Fields, frame: Call, context: Context): Fields
    requires Step(f.m, Accept(frame, context)).Some?
  {
    f.(m := Step(f.m, Accept(frame, context)).value, newestContext := Some(context),
    scheduled := f.scheduled || (f.started && !f.running && f.end.None?))
  }

  lemma FoldingFine(f: Fields, call: Call, context: Context, empty: bool)
    requires Fine(f, false) && f.end.None? && !f.ending && !f.replace && call.Value?
    requires ApplyAll(f.m.source, call.ops) == Some(call.value)
    ensures Fine(Queued(Newer(KeptOps(f, call, empty), call), call, context), false)
  {
    NoneReplaced(f.m.received, call.ops);
    assert [] + call.ops == call.ops;
  }

  lemma NoneReplaced(a: seq<Op>, b: seq<Op>)
    ensures NoReplacement(a + b) ==> NoReplacement(a) && NoReplacement(b)
  {
    assert forall i :: 0 <= i < |a| ==> (a + b)[i] == a[i];
    assert forall i :: 0 <= i < |b| ==> (a + b)[|a| + i] == b[i];
  }

  lemma ReplacingFine(f: Fields, call: Call, context: Context)
    requires Fine(f, false) && f.end.None? && !f.ending && f.replace && call.Value?
    ensures Fine(Queued(Newer(f.(failure := None), call), call, context), false)
  {
  }

  /** A failure drops what is pending. */
  ghost function Failed(f: Fields, error: string): Fields {
    f.(lone := None, newestValue := None, failure := Some(error), replace := true, queueEmpty := true, base := f.current,
    received := [])
  }

  lemma FailingFine(f: Fields, call: Call, context: Context)
    requires Fine(f, false) && f.end.None? && !f.ending && call.Failure?
    ensures Fine(Queued(Failed(f, call.error), call, context), false)
  {
  }

  /** The call that is due began; `t` is what `next` left. */
  lemma BegunFine(f: Fields, t: Fields, call: Call, context: Context)
    requires Fine(f, true) && f.running && !f.m.running && f.end.None? && f.newestContext == Some(context)
    requires t == f.(lone := None, newestContext := None, failure := None, queueEmpty := true,
                     newestValue := t.newestValue, retired := t.retired, replace := t.replace,
                     base := t.base, current := t.current, received := [])
    requires Step(f.m, Begin(call, context)).Some?
    requires call.Value? ==> !t.retired && !t.replace && t.base == t.current == call.value
    requires call.Failure? ==> t.retired == f.retired && t.replace
    ensures Fine(Begun(t, call, context), false)
  {
  }

  ghost function Begun(t: Fields, call: Call, context: Context): Fields
    requires Step(t.m, Begin(call, context)).Some?
  {
    t.(value := if call.Value? then call.value else t.value, m := Step(t.m, Begin(call, context)).value)
  }

  /** The watch ended; what was pending, as in `t`, no longer matters. */
  lemma ClosedFine(f: Fields, t: Fields, reason: WatchEnd, delivered: bool, inDrain: bool)
    requires Agrees(f) && f.end.None? && Step(f.m, Close(reason, delivered)).Some?
    requires (f.m.running ==> f.running) && (f.running && !inDrain ==> f.m.running)
    requires f.running ==> !f.scheduled && f.started
    requires t.value == f.value && t.started == f.started && t.scheduled == f.scheduled && t.running == f.running
    requires !t.listener && t.end == Some(reason) && t.m == Step(f.m, Close(reason, delivered)).value
    ensures Fine(t, inDrain)
  {
  }

  class Watch {
    /** Folded operations of the pending frames. */
    const ops: PendingOps
    var value: Json
    var listener: bool
    var started: bool
    var scheduled: bool
    var running: bool
    var ending: bool
    var end: Option<WatchEnd>
    /** The only pending frame, as the source gave it; none once another was folded in. */
    var lone: Option<Call>
    var newestValue: Option<Json>
    /** Marks that a call is pending. */
    var newestContext: Option<Context>
    var retired: bool
    var failure: Option<string>
    var replace: bool
    ghost const initial: Json
    ghost var trace: Trace

    ghost predicate Logged()
      reads this
    {
      Recorded(initial, trace)
    }

    ghost function View(): Fields
      reads this, ops
    {
      Fields(value, listener, started, scheduled, running, ending, end, lone, newestValue, newestContext, retired,
             failure, replace, trace.m, ops.state.Empty?, ops.base, ops.current, ops.received)
    }

    ghost predicate Inv(inDrain: bool)
      reads this, ops
    {
      Logged() && ops.Valid() && Fine(View(), inDrain)
    }

    ghost predicate Valid()
      reads this, ops
    {
      Inv(false)
    }

    constructor (value: Json)
      ensures Valid() && trace.log == [] && initial == value && end.None? && !started && fresh(ops)
    {
      ops := new PendingOps(value);
      this.value, this.initial := value, value;
      listener, started, scheduled, running, ending, end := false, false, false, false, false, None;
      lone, newestValue, newestContext, retired, failure, replace := None, None, None, false, None, false;
      trace := Trace([], [Fresh(value)], Fresh(value));
    }

    /** Record an event the protocol allows. */
    ghost method Record(e: Event)
      requires Logged() && Step(trace.m, e).Some?
      modifies this`trace
      ensures Logged() && trace == Extended(old(trace), e)
    {
      ExtendedRecorded(initial, trace, e);
      trace := Extended(trace, e);
    }

    /** `start`: false when the source throws, on a watch already started or ended. */
    method Start() returns (ok: bool)
      requires Valid()
      modifies this
      ensures Valid() && trace.log == old(trace.log) && end == old(end)
      ensures ok <==> !old(started) && old(end).None?
      ensures ok ==> started && scheduled
    {
      if started || end.Some? {
        return false;
      }
      started := true;
      listener := true;
      Schedule();
      return true;
    }

    method Schedule()
      modifies this`scheduled
      ensures scheduled == (old(scheduled) || (!running && end.None?))
    {
      if scheduled || running || end.Some? {
        return;
      }
      scheduled := true;
    }

    /** Queue a frame. A value's operations turn the source's previous value into it, unless a failure came between. */
    method Advance(call: Call, context: Context)
      requires Valid()
      requires call.Value? && end.None? && !replace ==> ApplyAll(trace.m.source, call.ops) == Some(call.value)
      modifies this, ops
      ensures Valid() && end == old(end)
      ensures trace.log == if old(end).None? && !old(ending) then old(trace.log) + [Accept(call, context)] else old(trace.log)
    {
      if call.Failure? {
        Fail(call, context);
        return;
      }
      if end.Some? || ending {
        return;
      }
      if replace {
        AdvanceReplacing(call, context);
      } else {
        AdvanceFolding(call, context);
      }
    }

    /** A value after a failure: its operations are useless. */
    method AdvanceReplacing(call: Call, context: Context)
      requires Valid() && call.Value? && end.None? && !ending && replace
      modifies this
      ensures Valid() && end == old(end) && trace.log == old(trace.log) + [Accept(call, context)]
    {
      ReplacingFine(View(), call, context);
      failure := None;
      StoreNewest(call);
      Queue(call, context);
    }

    /** A value whose operations wait in the queue. */
    method AdvanceFolding(call: Call, context: Context)
      requires Valid() && call.Value? && end.None? && !ending && !replace
      requires ApplyAll(trace.m.source, call.ops) == Some(call.value)
      modifies this, ops
      ensures Valid() && end == old(end) && trace.log == old(trace.log) + [Accept(call, context)]
    {
      ghost var before := View();
      KeepOps(call);
      StoreNewest(call);
      Queue(call, context);
      FoldingFine(before, call, context, ops.state.Empty?);
    }

    method KeepOps(call: Call)
      requires call.Value? && ops.Valid() && ApplyAll(ops.current, call.ops) == Some(call.value)
      modifies this`lone, ops
      ensures ops.Valid() && View() == KeptOps(old(View()), call, ops.state.Empty?)
    {
      lone := if newestContext.None? then Some(call) else None;
      ops.Push(call.ops, call.value);
    }

    method StoreNewest(call: Call)
      requires call.Value?
      modifies this`newestValue, this`retired
      ensures View() == Newer(old(View()), call)
    {
      newestValue := Some(call.value);
      if call.retired {
        retired := true;
      }
    }

    method Fail(call: Call, context: Context)
      requires Valid() && call.Failure?
      modifies this, ops
      ensures Valid() && end == old(end)
      ensures trace.log ==
              if old(end).None? && !old(ending) then old(trace.log) + [Accept(call, context)] else old(trace.log)
    {
      if end.Some? || ending {
        return;
      }
      FailingFine(View(), call, context);
      DropForFailure(call.error);
      Queue(call, context);
    }

    method DropForFailure(error: string)
      requires ops.Valid()
      modifies this`lone, this`newestValue, this`failure, this`replace, ops
      ensures ops.Valid() && View() == Failed(old(View()), error)
    {
      var _ := ops.TakeAll();
      lone := None;
      newestValue := None;
      failure := Some(error);
      replace := true;
    }

    /** A frame was taken: a call is due with its context. */
    method Queue(frame: Call, context: Context)
      requires Logged() && trace.m.end.None? && !trace.m.done
      modifies this`newestContext, this`scheduled, this`trace
      ensures Logged() && Step(old(trace.m), Accept(frame, context)).Some?
      ensures trace == Extended(old(trace), Accept(frame, context))
      ensures View() == Queued(old(View()), frame, context)
    {
      newestContext := Some(context);
      Record(Accept(frame, context));
      NotifyPending();
    }

    /** `pending()`: something became pending. */
    method NotifyPending()
      modifies this`scheduled
      ensures scheduled == (old(scheduled) || (started && !running && end.None?))
    {
      if started {
        Schedule();
      }
    }

    /** `stop`, an abort, or the source ending the watch at once. */
    method EndNow(reason: WatchEnd)
      requires Valid()
      modifies this, ops
      ensures Valid()
      ensures end == if old(end).Some? then old(end) else Some(reason)
      ensures trace.log == if old(end).Some? then old(trace.log) else old(trace.log) + [Close(reason, false)]
    {
      Terminate(reason, false, false);
    }

    method EndAfterDelivery()
      requires Valid()
      modifies this, ops
      ensures Valid()
      ensures trace.log == if old(end).Some? || old(ending) then old(trace.log)
                           else if old(running) || old(newestContext).Some? then old(trace.log) + [SourceDone]
                           else old(trace.log) + [SourceDone] + [Close(Ended, true)]
    {
      if end.Some? || ending {
        return;
      }
      ending := true;
      Record(SourceDone);
      if !running && newestContext.None? {
        Terminate(Ended, true, true);
      }
    }

    /** `#terminate`: once. */
    method Terminate(reason: WatchEnd, ghost delivered: bool, ghost inDrain: bool)
      requires Logged() && Agrees(View()) && ops.Valid()
      requires trace.m.running ==> running
      requires running && !inDrain ==> trace.m.running
      requires running ==> !scheduled && started
      requires listener == (started && end.None?)
      requires end.None? && delivered ==> trace.m.done && trace.m.due.None? && !trace.m.running && reason == Ended
      modifies this, ops
      ensures Inv(inDrain)
      ensures running == old(running) && started == old(started) && scheduled == old(scheduled)
      ensures end == if old(end).Some? then old(end) else Some(reason)
      ensures trace.log == if old(end).Some? then old(trace.log) else old(trace.log) + [Close(reason, delivered)]
      ensures trace.m.running == old(trace.m.running)
    {
      if end.Some? {
        return;
      }
      ghost var before := View();
      CloseNow(reason, delivered);
      ClosedFine(before, View(), reason, delivered, inDrain);
    }

    method CloseNow(reason: WatchEnd, ghost delivered: bool)
      requires Logged() && ops.Valid() && Step(trace.m, Close(reason, delivered)).Some?
      modifies this, ops
      ensures Logged() && ops.Valid() && trace == Extended(old(trace), Close(reason, delivered))
      ensures end == Some(reason) && !listener
      ensures value == old(value) && started == old(started) && scheduled == old(scheduled) && running == old(running)
    {
      Record(Close(reason, delivered));
      end := Some(reason);
      listener := false;
      Release();
    }

    /** Drop everything pending. */
    method Release()
      requires ops.Valid()
      modifies this`lone, this`newestValue, this`newestContext, this`retired, this`failure, this`replace, ops
      ensures ops.Valid()
    {
      var _ := ops.TakeAll();
      lone, newestValue, newestContext, retired, failure, replace := None, None, None, false, None, false;
    }

    /** The scheduled microtask: it starts the drain of a started, open watch, unless one runs. */
    method Microtask()
      requires Valid() && scheduled
      modifies this, ops
      ensures Valid() && !scheduled
      ensures if old(running) || old(end).Some? || !old(started) then trace == old(trace) && running == old(running)
              else Drained(old(trace.log), trace.log, true, old(newestContext), old(ending), running)
    {
      scheduled := false;
      if running || end.Some? || !started {
        return;
      }
      running := true;
      DrainNext();
    }

    /** The listener's promise resolves; the drain goes on. */
    method ListenerReturns()
      requires Valid() && running
      modifies this, ops
      ensures Valid()
      ensures Drained(old(trace.log) + [Finish], trace.log, old(end).None?, old(newestContext), old(ending), running)
    {
      Record(Finish);
      DrainNext();
    }

    /** The listener throws or rejects: that ends the watch, unless it ended already. */
    method ListenerThrows(error: string)
      requires Valid() && running
      modifies this, ops
      ensures Valid() && !running
      ensures end == if old(end).Some? then old(end) else Some(ListenerError(error))
      ensures trace.log == if old(end).Some? then old(trace.log) + [Finish]
                           else old(trace.log) + [Finish] + [Close(ListenerError(error), false)]
    {
      Record(Finish);
      Terminate(ListenerError(error), false, true);
      running := false;
    }

    /** The drain loop, from its head to the next `await` or its exit. */
    method DrainNext()
      requires Inv(true) && running && !trace.m.running
      modifies this, ops
      ensures Valid() && scheduled == old(scheduled)
      ensures Drained(old(trace.log), trace.log, old(end).None?, old(newestContext), old(ending), running)
    {
      if end.Some? {
        running := false;
        return;
      }
      if newestContext.None? {
        if ending {
          Terminate(Ended, true, true);
        }
        running := false;
        return;
      }
      BeginCall();
    }

    method BeginCall()
      requires Inv(true) && running && !trace.m.running && end.None? && newestContext.Some?
      modifies this, ops
      ensures Valid() && scheduled == old(scheduled) && running
      ensures |trace.log| == |old(trace.log)| + 1 && trace.log[..|old(trace.log)|] == old(trace.log)
      ensures trace.log[|old(trace.log)|].Begin? && trace.log[|old(trace.log)|].callContext == old(newestContext).value
    {
      ghost var before := View();
      var context := newestContext.value;
      var call := Next();
      BegunFine(before, View(), call, context);
      Deliver(call, context);
    }

    /** The call goes to the listener. */
    method Deliver(call: Call, ghost context: Context)
      requires Logged() && ops.Valid() && Step(trace.m, Begin(call, context)).Some?
      requires Fine(Begun(View(), call, context), false)
      modifies this`value, this`trace
      ensures Valid() && trace == Extended(old(trace), Begin(call, context))
    {
      ghost var taken := View();
      if call.Value? {
        value := call.value;
      }
      Record(Begin(call, context));
      assert View() == Begun(taken, call, context);
    }

    /** `next`: take the call that is due. */
    method Next() returns (call: Call)
      requires Inv(true) && running && !trace.m.running && end.None? && newestContext.Some?
      modifies this`lone, this`newestValue, this`newestContext, this`retired, this`failure, this`replace, ops
      ensures newestContext.None? && lone.None? && failure.None? && ops.Valid() && ops.state.Empty?
      ensures Step(trace.m, Begin(call, old(newestContext).value)).Some?
      ensures call.Value? ==> !retired && !replace && ops.base == ops.current == call.value
      ensures call.Failure? ==> retired == old(retired) && replace
    {
      if replace {
        call := NextAfterFailure();
        return;
      }
      var only := lone;
      var newest := newestValue.value;
      var batch := ops.TakeAll();
      var wasRetired := retired;
      lone, newestValue, newestContext, retired := None, None, None, false;
      if only.Some? {
        return only.value;
      }
      ReplaceRoot(value, newest);
      return Value(newest, if batch.Ops? then batch.ops else [Replace(newest)], wasRetired);
    }

    method NextAfterFailure() returns (call: Call)
      requires Inv(true) && running && !trace.m.running && end.None? && newestContext.Some? && replace
      modifies this`newestValue, this`newestContext, this`retired, this`failure, this`replace, ops
      ensures newestContext.None? && failure.None? && ops.Valid() && ops.state.Empty?
      ensures Step(trace.m, Begin(call, old(newestContext).value)).Some?
      ensures call.Value? ==> !retired && !replace && ops.base == ops.current == call.value
      ensures call.Failure? ==> retired == old(retired) && replace
    {
      newestContext := None;
      if failure.Some? {
        call := Failure(failure.value);
        failure := None;
        return;
      }
      var newest := newestValue.value;
      ReplaceRoot(value, newest);
      call := Value(newest, [Replace(newest)], retired);
      newestValue := None;
      retired := false;
      replace := false;
      ops.Rebase(newest);
    }
  }
}
