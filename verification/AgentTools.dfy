/**
 Tool batches and streamed responses of packages/agent/src/agent-loop.ts. What tools, hooks and streams do is an
 input; how the loop turns it into events and messages is not.
 */
module AgentTools {
  import opened Transcript
  import opened AgentEvents

  // ----- Streaming -----

  datatype StreamEvent = Start(partial: Message) | Delta(partial: Message) | Done

  /** The events of the rest of a stream; `added` says whether the message started. */
  function StreamEvents(stream: seq<StreamEvent>, added: bool, final: Message): seq<Event> {
    if stream == [] || stream[0].Done? then (if added then [] else [MessageStart(final)]) + [MessageEnd(final)]
    else if stream[0].Start? then [MessageStart(stream[0].partial)] + StreamEvents(stream[1..], true, final)
    else if added then [MessageUpdate(stream[0].partial)] + StreamEvents(stream[1..], added, final)
    else StreamEvents(stream[1..], added, final)
  }

  /** The context's messages after the rest of a stream. */
  function StreamContext(messages: seq<Message>, stream: seq<StreamEvent>, added: bool, final: Message): seq<Message>
    requires added ==> messages != []
    decreases |stream|
  {
    if stream == [] || stream[0].Done? then if added then messages[|messages| - 1 := final] else messages + [final]
    else if stream[0].Start? then StreamContext(messages + [stream[0].partial], stream[1..], true, final)
    else if added then StreamContext(messages[|messages| - 1 := stream[0].partial], stream[1..], added, final)
    else StreamContext(messages, stream[1..], added, final)
  }

  /** `streamAssistantResponse`, from the open stream on. */
  method StreamResponse(messages: seq<Message>, stream: seq<StreamEvent>, final: Message)
    returns (events: seq<Event>, context: seq<Message>)
    ensures events == StreamEvents(stream, false, final)
    ensures context == StreamContext(messages, stream, false, final)
  {
    events, context := [], messages;
    var added := false;
    for i := 0 to |stream|
      invariant added ==> context != []
      invariant events + StreamEvents(stream[i..], added, final) == StreamEvents(stream, false, final)
      invariant StreamContext(context, stream[i..], added, final) == StreamContext(messages, stream, false, final)
    {
      var e := stream[i];
      assert stream[i..][1..] == stream[i + 1..];
      match e {
        case Start(partial) =>
          Shift(events, MessageStart(partial), StreamEvents(stream[i + 1..], true, final));
          context := context + [partial];
          added := true;
          events := events + [MessageStart(partial)];
        case Delta(partial) =>
          if added {
            Shift(events, MessageUpdate(partial), StreamEvents(stream[i + 1..], added, final));
            context := context[|context| - 1 := partial];
            events := events + [MessageUpdate(partial)];
          }
        case Done =>
          break;
      }
    }
    if added {
      context := context[|context| - 1 := final];
    } else {
      context := context + [final];
      events := events + [MessageStart(final)];
    }
    events := events + [MessageEnd(final)];
  }

  lemma Shift(a: seq<Event>, e: Event, b: seq<Event>)
    ensures a + ([e] + b) == (a + [e]) + b
  {
  }

  /** `events` end the message, after a start or an update with every partial of the stream. */
  predicate Shows(events: seq<Event>, stream: seq<StreamEvent>, final: Message) {
    && |events| == |stream| + 1 && events[|stream|] == MessageEnd(final)
    && forall i :: 0 <= i < |stream| ==>
         match stream[i]
         case Start(partial) => events[i] == MessageStart(partial)
         case Delta(partial) => events[i] == MessageUpdate(partial)
         case Done => false
  }

  /** Until the stream is done at `k`, a message that started shows every partial. */
  lemma {:induction false} StartedShows(stream: seq<StreamEvent>, final: Message, k: nat)
    requires k <= |stream| && (forall i :: 0 <= i < k ==> !stream[i].Done?) && (k < |stream| ==> stream[k].Done?)
    ensures Shows(StreamEvents(stream, true, final), stream[..k], final)
    decreases k
  {
    if k > 0 {
      StartedShows(stream[1..], final, k - 1);
      assert stream[1..][..k - 1] == stream[..k][1..];
    }
  }

  /**
   What a response shows, with `k` the end of its stream and `f` its first start: every partial from there on, and then
   the final message; without a start, the final message alone.
   */
  lemma {:induction false} StreamShows(stream: seq<StreamEvent>, final: Message, f: nat, k: nat)
    requires f <= k <= |stream| && (forall i :: 0 <= i < f ==> stream[i].Delta?) && (f < k ==> stream[f].Start?)
    requires (forall i :: 0 <= i < k ==> !stream[i].Done?) && (k < |stream| ==> stream[k].Done?)
    ensures var events := StreamEvents(stream, false, final);
            if f == k then events == [MessageStart(final), MessageEnd(final)] else Shows(events, stream[f..k], final)
    decreases f
  {
    if f > 0 {
      StreamShows(stream[1..], final, f - 1, k - 1);
      assert stream[1..][f - 1..k - 1] == stream[f..k];
    } else if k > 0 {
      StartedShows(stream[1..], final, k - 1);
      assert stream[1..][..k - 1] == stream[0..k][1..];
    }
  }

  /** Starts before the stream is done. */
  function StreamStarts(stream: seq<StreamEvent>): nat {
    if stream == [] || stream[0].Done? then 0
    else (if stream[0].Start? then 1 else 0) + StreamStarts(stream[1..])
  }

  /** A response is one balanced message exactly if the stream starts at most once. */
  lemma {:induction false} StreamAccepted(s: State, stream: seq<StreamEvent>, added: bool, final: Message)
    requires s.phase.InTurn? && s.running == multiset{} && s.open == added
    ensures StepAll(s, StreamEvents(stream, added, final)).Some?
            <==> (if added then 1 else 0) + StreamStarts(stream) <= 1
    ensures StepAll(s, StreamEvents(stream, added, final)).Some? ==>
              StepAll(s, StreamEvents(stream, added, final)).value == Ended(s.(open := false), [final])
    decreases |stream|
  {
    var es := StreamEvents(stream, added, final);
    if stream == [] || stream[0].Done? {
      StepOne(s, MessageEnd(final));
      StepTwo(s, MessageStart(final), MessageEnd(final));
      assert es == if added then [MessageEnd(final)] else [MessageStart(final), MessageEnd(final)];
    } else if stream[0].Start? {
      assert es[1..] == StreamEvents(stream[1..], true, final);
      if !added {
        StreamAccepted(s.(open := true), stream[1..], true, final);
      }
    } else {
      assert added ==> es[1..] == StreamEvents(stream[1..], added, final);
      StreamAccepted(s, stream[1..], added, final);
    }
  }

  /** The context gains exactly the final message under the same condition; every further start leaves a partial. */
  lemma {:induction false} StreamContextGrows(messages: seq<Message>, stream: seq<StreamEvent>, added: bool, final: Message)
    requires added ==> messages != []
    ensures var n := (if added then 0 else 1);
            var starts := StreamStarts(stream);
            |StreamContext(messages, stream, added, final)| == |messages| + (if added || starts == 0 then n + starts else starts)
    ensures !added && StreamStarts(stream) <= 1 ==> StreamContext(messages, stream, added, final) == messages + [final]
    ensures added && StreamStarts(stream) == 0 ==>
              StreamContext(messages, stream, added, final) == messages[..|messages| - 1] + [final]
    decreases |stream|
  {
    if stream == [] || stream[0].Done? {
      assert added ==> messages[|messages| - 1 := final] == messages[..|messages| - 1] + [final];
    } else if stream[0].Start? {
      StreamContextGrows(messages + [stream[0].partial], stream[1..], true, final);
      assert (messages + [stream[0].partial])[..|messages|] == messages;
    } else if added {
      var updated := messages[|messages| - 1 := stream[0].partial];
      StreamContextGrows(updated, stream[1..], added, final);
      assert updated[..|messages| - 1] == messages[..|messages| - 1];
    } else {
      StreamContextGrows(messages, stream[1..], added, final);
    }
  }

  /** The two transcripts stay together through a response exactly if its stream starts at most once. */
  lemma ResponseKeepsTranscripts(s: State, messages: seq<Message>, stream: seq<StreamEvent>, final: Message)
    requires Quiet(s)
    ensures StreamStarts(stream) <= 1 ==>
              && StreamContext(messages, stream, false, final) == messages + [final]
              && StepAll(s, StreamEvents(stream, false, final)) == Some(Ended(s, [final]))
    ensures StreamStarts(stream) > 1 ==>
              && StreamContext(messages, stream, false, final) != messages + [final]
              && StepAll(s, StreamEvents(stream, false, final)).None?
  {
    StreamAccepted(s, stream, false, final);
    StreamContextGrows(messages, stream, false, final);
    assert s.(open := false) == s;
  }

  // ----- Tool calls -----

  /**
   What becomes of one call: whether preparation let it run, the partial results it reports, its final result, and
   whether the run was aborted by the end of it (of its preparation, in a parallel batch).
   */
  datatype CallOutcome = CallOutcome(prepared: bool, updates: nat, result: Result, aborted: bool)

  function ResultMessage(call: ToolCall, result: Result): Message {
    ToolResult(call.id, call.name, result)
  }

  /** The results of a batch: calls in source order, up to an abort. */
  function Results(calls: seq<ToolCall>, outcomes: seq<CallOutcome>): seq<Message>
    requires |calls| == |outcomes|
  {
    if calls == [] then []
    else
      [ResultMessage(calls[0], outcomes[0].result)]
      + (if outcomes[0].aborted then [] else Results(calls[1..], outcomes[1..]))
  }

  /** Results answer a prefix of the calls, each with its own id; all of them unless an abort came before the last. */
  lemma {:induction false} ResultsAnswerPrefix(calls: seq<ToolCall>, outcomes: seq<CallOutcome>)
    requires |calls| == |outcomes|
    ensures |Results(calls, outcomes)| <= |calls|
    ensures forall i :: 0 <= i < |Results(calls, outcomes)| ==>
              Results(calls, outcomes)[i] == ToolResult(calls[i].id, calls[i].name, outcomes[i].result)
    ensures |Results(calls, outcomes)| == |calls| <==> forall i :: 0 <= i < |calls| - 1 ==> !outcomes[i].aborted
    ensures |Results(calls, outcomes)| < |calls| ==>
              |Results(calls, outcomes)| > 0 && outcomes[|Results(calls, outcomes)| - 1].aborted
  {
    if calls != [] && !outcomes[0].aborted {
      ResultsAnswerPrefix(calls[1..], outcomes[1..]);
      assert (forall i :: 0 <= i < |calls| - 1 ==> !outcomes[i].aborted)
        <==> (forall i :: 0 <= i < |calls[1..]| - 1 ==> !outcomes[1..][i].aborted) by {
        if forall i :: 0 <= i < |calls[1..]| - 1 ==> !outcomes[1..][i].aborted {
          forall i | 0 <= i < |calls| - 1 ensures !outcomes[i].aborted {
            assert i > 0 ==> outcomes[i] == outcomes[1..][i - 1];
          }
        }
      }
    }
  }

  /** A batch ends the run early only when every result in it asks for that. */
  predicate Terminates(results: seq<Message>) {
    results != [] && forall i :: 0 <= i < |results| ==> results[i].ToolResult? && results[i].result.terminate
  }

  method ShouldTerminate(results: seq<Message>) returns (terminate: bool)
    ensures terminate == Terminates(results)
    ensures terminate <==> results != [] && forall m :: m in results ==> m.ToolResult? && m.result.terminate
  {
    if results == [] {
      return false;
    }
    for i := 0 to |results|
      invariant forall k :: 0 <= k < i ==> results[k].ToolResult? && results[k].result.terminate
    {
      if !(results[i].ToolResult? && results[i].result.terminate) {
        return false;
      }
    }
    return true;
  }

  // ----- One call after the other -----

  function Updates(id: string, n: nat): seq<Event> {
    if n == 0 then [] else [ToolUpdate(id)] + Updates(id, n - 1)
  }

  function CallEvents(call: ToolCall, outcome: CallOutcome): seq<Event> {
    [ToolStart(call.id)] + (if outcome.prepared then Updates(call.id, outcome.updates) else [])
    + ([ToolEnd(call.id)] + Pair(ResultMessage(call, outcome.result)))
  }

  /** One call: its start, a report for each partial result of a tool that ran, its end, and its result as a message. */
  lemma CallShows(call: ToolCall, outcome: CallOutcome)
    ensures var events := CallEvents(call, outcome);
            var n := if outcome.prepared then outcome.updates else 0;
            var m := ToolResult(call.id, call.name, outcome.result);
            && |events| == n + 4 && events[0] == ToolStart(call.id)
            && (forall i :: 1 <= i <= n ==> events[i] == ToolUpdate(call.id))
            && events[n + 1..] == [ToolEnd(call.id), MessageStart(m), MessageEnd(m)]
  {
    UpdatesShow(call.id, outcome.updates);
  }

  lemma {:induction false} UpdatesShow(id: string, n: nat)
    ensures |Updates(id, n)| == n && forall i :: 0 <= i < n ==> Updates(id, n)[i] == ToolUpdate(id)
  {
    if n > 0 {
      UpdatesShow(id, n - 1);
      forall i | 0 < i < n ensures Updates(id, n)[i] == Updates(id, n - 1)[i - 1] {
      }
    }
  }

  function Flatten(parts: seq<seq<Event>>): seq<Event> {
    if parts == [] then [] else parts[0] + Flatten(parts[1..])
  }

  /** The calls of a batch up to an abort, each whole before the next. */
  lemma {:induction false} SequentialShows(calls: seq<ToolCall>, outcomes: seq<CallOutcome>)
    requires |calls| == |outcomes|
    ensures var n := |Results(calls, outcomes)|;
            n <= |calls| && SequentialEvents(calls, outcomes)
            == Flatten(seq(n, i requires 0 <= i < n => CallEvents(calls[i], outcomes[i])))
  {
    ResultsAnswerPrefix(calls, outcomes);
    if calls != [] {
      var n := |Results(calls, outcomes)|;
      var parts := seq(n, i requires 0 <= i < n => CallEvents(calls[i], outcomes[i]));
      if outcomes[0].aborted {
        assert parts[1..] == [];
      } else {
        SequentialShows(calls[1..], outcomes[1..]);
        assert parts[1..] == seq(n - 1, i requires 0 <= i < n - 1 => CallEvents(calls[1..][i], outcomes[1..][i]));
      }
    }
  }

  function SequentialEvents(calls: seq<ToolCall>, outcomes: seq<CallOutcome>): seq<Event>
    requires |calls| == |outcomes|
  {
    if calls == [] then []
    else
      CallEvents(calls[0], outcomes[0])
      + (if outcomes[0].aborted then [] else SequentialEvents(calls[1..], outcomes[1..]))
  }

  /** `executeToolCallsSequential` */
  method ExecuteSequential(calls: seq<ToolCall>, outcomes: seq<CallOutcome>)
    returns (events: seq<Event>, results: seq<Message>, terminate: bool)
    requires |calls| == |outcomes|
    ensures events == SequentialEvents(calls, outcomes)
    ensures results == Results(calls, outcomes) && terminate == Terminates(results)
  {
    events, results := [], [];
    var i := 0;
    var aborted := false;
    ghost var todo, left := calls, outcomes;
    while i < |calls| && !aborted
      invariant i <= |calls| && |todo| == |left|
      invariant if aborted then todo == [] else todo == calls[i..] && left == outcomes[i..]
      invariant events + SequentialEvents(todo, left) == SequentialEvents(calls, outcomes)
      invariant results + Results(todo, left) == Results(calls, outcomes)
      decreases |calls| - i
    {
      var call, outcome := calls[i], outcomes[i];
      SequentialStep(events, todo, left);
      ResultsStep(results, todo, left);
      events := events + CallEvents(call, outcome);
      results := results + [ResultMessage(call, outcome.result)];
      i := i + 1;
      aborted := outcome.aborted;
      todo, left := NextCalls(todo, outcome), NextOutcomes(left);
    }
    terminate := ShouldTerminate(results);
  }

  /** What is left after the first call. */
  function NextCalls(calls: seq<ToolCall>, outcome: CallOutcome): seq<ToolCall>
    requires calls != []
  {
    if outcome.aborted then [] else calls[1..]
  }

  function NextOutcomes(outcomes: seq<CallOutcome>): seq<CallOutcome>
    requires outcomes != []
  {
    if outcomes[0].aborted then [] else outcomes[1..]
  }

  lemma SequentialStep(done: seq<Event>, calls: seq<ToolCall>, outcomes: seq<CallOutcome>)
    requires |calls| == |outcomes| > 0
    ensures done + SequentialEvents(calls, outcomes)
            == (done + CallEvents(calls[0], outcomes[0]))
               + SequentialEvents(NextCalls(calls, outcomes[0]), NextOutcomes(outcomes))
  {
    EventsAssociative(done, CallEvents(calls[0], outcomes[0]),
                      SequentialEvents(NextCalls(calls, outcomes[0]), NextOutcomes(outcomes)));
  }

  lemma ResultsStep(done: seq<Message>, calls: seq<ToolCall>, outcomes: seq<CallOutcome>)
    requires |calls| == |outcomes| > 0
    ensures done + Results(calls, outcomes)
            == (done + [ResultMessage(calls[0], outcomes[0].result)])
               + Results(NextCalls(calls, outcomes[0]), NextOutcomes(outcomes))
  {
    Associative(done, [ResultMessage(calls[0], outcomes[0].result)],
                Results(NextCalls(calls, outcomes[0]), NextOutcomes(outcomes)));
  }

  lemma EventsAssociative(a: seq<Event>, b: seq<Event>, c: seq<Event>)
    ensures a + (b + c) == (a + b) + c
  {
  }

  lemma {:induction false} UpdatesAccepted(s: State, id: string, n: nat)
    requires s.phase.InTurn? && id in s.running
    ensures StepAll(s, Updates(id, n)) == Some(s)
  {
    if n > 0 {
      UpdatesAccepted(s, id, n - 1);
      assert Updates(id, n)[1..] == Updates(id, n - 1);
    }
  }

  lemma CallAccepted(s: State, call: ToolCall, outcome: CallOutcome)
    requires Quiet(s)
    ensures StepAll(s, CallEvents(call, outcome)) == Some(Ended(s, [ResultMessage(call, outcome.result)]))
  {
    var t := s.(running := multiset{call.id});
    var updates := if outcome.prepared then Updates(call.id, outcome.updates) else [];
    var tail := [ToolEnd(call.id)] + Pair(ResultMessage(call, outcome.result));
    StepOne(s, ToolStart(call.id));
    assert s.running + multiset{call.id} == t.running;
    StepAllConcat(s, [ToolStart(call.id)] + updates, tail);
    StepAllConcat(s, [ToolStart(call.id)], updates);
    UpdatesAccepted(t, call.id, outcome.updates);
    assert tail[1..] == Pair(ResultMessage(call, outcome.result));
    assert t.(running := t.running - multiset{call.id}) == s;
    PairAccepted(s, ResultMessage(call, outcome.result));
  }

  lemma {:induction false} SequentialAccepted(s: State, calls: seq<ToolCall>, outcomes: seq<CallOutcome>)
    requires Quiet(s) && |calls| == |outcomes|
    ensures StepAll(s, SequentialEvents(calls, outcomes)) == Some(Ended(s, Results(calls, outcomes)))
    decreases |calls|
  {
    if calls == [] {
      assert s.ended + [] == s.ended && s.all + [] == s.all;
    } else {
      var first := [ResultMessage(calls[0], outcomes[0].result)];
      CallAccepted(s, calls[0], outcomes[0]);
      if outcomes[0].aborted {
        assert CallEvents(calls[0], outcomes[0]) + [] == CallEvents(calls[0], outcomes[0]) && first + [] == first;
      } else {
        SequentialAccepted(Ended(s, first), calls[1..], outcomes[1..]);
        StepAllConcat(s, CallEvents(calls[0], outcomes[0]), SequentialEvents(calls[1..], outcomes[1..]));
        EndedTwice(s, first, Results(calls[1..], outcomes[1..]));
      }
    }
  }

  // ----- All calls at once -----

  /** The prepared calls run concurrently: a schedule says in which order they report and finish. */
  datatype Progress = Report(call: nat) | Finish(call: nat)

  /** Calls run until they finish, once each, and report only while they run. */
  predicate ScheduleOk(live: seq<bool>, schedule: seq<Progress>)
    decreases |schedule|
  {
    if schedule == [] then forall i :: 0 <= i < |live| ==> !live[i]
    else
      var p := schedule[0];
      p.call < |live| && live[p.call]
      && ScheduleOk(if p.Finish? then live[p.call := false] else live, schedule[1..])
  }

  /** Which of the calls that started are left to run after the preparation of all. */
  function Live(outcomes: seq<CallOutcome>): seq<bool> {
    if outcomes == [] then []
    else [outcomes[0].prepared] + (if outcomes[0].aborted then [] else Live(outcomes[1..]))
  }

  function PrepareEvents(calls: seq<ToolCall>, outcomes: seq<CallOutcome>): seq<Event>
    requires |calls| == |outcomes|
  {
    if calls == [] then []
    else
      PrepareOne(calls[0], outcomes[0])
      + (if outcomes[0].aborted then [] else PrepareEvents(calls[1..], outcomes[1..]))
  }

  function PrepareOne(call: ToolCall, outcome: CallOutcome): seq<Event> {
    [ToolStart(call.id)] + (if outcome.prepared then [] else [ToolEnd(call.id)])
  }

  /** Before any call of a parallel batch runs, each is announced, and one that may not run ends at once. */
  lemma {:induction false} PrepareShows(calls: seq<ToolCall>, outcomes: seq<CallOutcome>)
    requires |calls| == |outcomes|
    ensures var n := |Results(calls, outcomes)|;
            n <= |calls| && PrepareEvents(calls, outcomes)
            == Flatten(seq(n, i requires 0 <= i < n =>
                 if outcomes[i].prepared then [ToolStart(calls[i].id)]
                 else [ToolStart(calls[i].id), ToolEnd(calls[i].id)]))
  {
    ResultsAnswerPrefix(calls, outcomes);
    if calls != [] {
      var n := |Results(calls, outcomes)|;
      var parts := seq(n, i requires 0 <= i < n =>
        if outcomes[i].prepared then [ToolStart(calls[i].id)] else [ToolStart(calls[i].id), ToolEnd(calls[i].id)]);
      if outcomes[0].aborted {
        assert parts[1..] == [];
      } else {
        PrepareShows(calls[1..], outcomes[1..]);
        var rest := seq(n - 1, i requires 0 <= i < n - 1 =>
          if outcomes[1..][i].prepared then [ToolStart(calls[1..][i].id)]
          else [ToolStart(calls[1..][i].id), ToolEnd(calls[1..][i].id)]);
        assert parts[1..] == rest;
      }
      assert PrepareOne(calls[0], outcomes[0]) == parts[0];
    }
  }

  /** The messages after a batch: each result starts and ends, in order. */
  lemma {:induction false} PairsShow(messages: seq<Message>)
    ensures |Pairs(messages)| == 2 * |messages|
    ensures forall i :: 0 <= i < |messages| ==>
              Pairs(messages)[2 * i] == MessageStart(messages[i]) && Pairs(messages)[2 * i + 1] == MessageEnd(messages[i])
  {
    if messages != [] {
      PairsShow(messages[1..]);
      forall i | 0 < i < |messages|
        ensures Pairs(messages)[2 * i] == MessageStart(messages[i])
        ensures Pairs(messages)[2 * i + 1] == MessageEnd(messages[i])
      {
        assert Pairs(messages)[2 * i] == Pairs(messages[1..])[2 * (i - 1)];
        assert Pairs(messages)[2 * i + 1] == Pairs(messages[1..])[2 * (i - 1) + 1];
      }
    }
  }

  function ScheduleEvents(calls: seq<ToolCall>, schedule: seq<Progress>): seq<Event>
    requires forall i :: 0 <= i < |schedule| ==> schedule[i].call < |calls|
  {
    seq(|schedule|, i requires 0 <= i < |schedule| =>
      if schedule[i].Report? then ToolUpdate(calls[schedule[i].call].id) else ToolEnd(calls[schedule[i].call].id))
  }

  lemma {:induction false} ScheduleInRange(live: seq<bool>, schedule: seq<Progress>)
    requires ScheduleOk(live, schedule)
    ensures forall i :: 0 <= i < |schedule| ==> schedule[i].call < |live|
    decreases |schedule|
  {
    if schedule != [] {
      var p := schedule[0];
      ScheduleInRange(if p.Finish? then live[p.call := false] else live, schedule[1..]);
      forall i | 0 <= i < |schedule| ensures schedule[i].call < |live| {
        assert i > 0 ==> schedule[i] == schedule[1..][i - 1];
      }
    }
  }

  lemma {:induction false} LiveLength(calls: seq<ToolCall>, outcomes: seq<CallOutcome>)
    requires |calls| == |outcomes|
    ensures |Live(outcomes)| == |Results(calls, outcomes)| <= |calls|
  {
    if calls != [] {
      LiveLength(calls[1..], outcomes[1..]);
    }
  }

  function ParallelEvents(calls: seq<ToolCall>, outcomes: seq<CallOutcome>, schedule: seq<Progress>): seq<Event>
    requires |calls| == |outcomes| && forall i :: 0 <= i < |schedule| ==> schedule[i].call < |calls|
  {
    PrepareEvents(calls, outcomes) + (ScheduleEvents(calls, schedule) + Pairs(Results(calls, outcomes)))
  }

  /** `executeToolCallsParallel` */
  method ExecuteParallel(calls: seq<ToolCall>, outcomes: seq<CallOutcome>, schedule: seq<Progress>)
    returns (events: seq<Event>, results: seq<Message>, terminate: bool)
    requires |calls| == |outcomes| && forall i :: 0 <= i < |schedule| ==> schedule[i].call < |calls|
    ensures events == ParallelEvents(calls, outcomes, schedule)
    ensures results == Results(calls, outcomes) && terminate == Terminates(results)
  {
    var prepared, finalized := PrepareAll(calls, outcomes);
    var running := RunSchedule(calls, schedule);
    var reported;
    reported, results := ReportAll(finalized);
    events := prepared + (running + reported);
    terminate := ShouldTerminate(results);
  }

  /** The prepared calls settle, in the order of the schedule. */
  method RunSchedule(calls: seq<ToolCall>, schedule: seq<Progress>) returns (events: seq<Event>)
    requires forall i :: 0 <= i < |schedule| ==> schedule[i].call < |calls|
    ensures events == ScheduleEvents(calls, schedule)
  {
    events := [];
    for i := 0 to |schedule|
      invariant events == ScheduleEvents(calls, schedule)[..i]
    {
      var id := calls[schedule[i].call].id;
      events := events + [if schedule[i].Report? then ToolUpdate(id) else ToolEnd(id)];
    }
  }

  /** The loop that emits result messages, after every call settled. */
  method ReportAll(finalized: seq<Message>) returns (events: seq<Event>, messages: seq<Message>)
    ensures events == Pairs(finalized) && messages == finalized
  {
    events, messages := [], [];
    for i := 0 to |finalized|
      invariant messages == finalized[..i]
      invariant events + Pairs(finalized[i..]) == Pairs(finalized)
    {
      EventsAssociative(events, Pair(finalized[i]), Pairs(finalized[i + 1..]));
      assert finalized[i..][1..] == finalized[i + 1..];
      events := events + Pair(finalized[i]);
      messages := messages + [finalized[i]];
    }
  }

  /** The preparation loop; `finalized` holds what each entry settles to, in source order. */
  method PrepareAll(calls: seq<ToolCall>, outcomes: seq<CallOutcome>) returns (events: seq<Event>, finalized: seq<Message>)
    requires |calls| == |outcomes|
    ensures events == PrepareEvents(calls, outcomes) && finalized == Results(calls, outcomes)
  {
    events, finalized := [], [];
    var i := 0;
    var aborted := false;
    ghost var todo, left := calls, outcomes;
    while i < |calls| && !aborted
      invariant i <= |calls| && |todo| == |left|
      invariant if aborted then todo == [] else todo == calls[i..] && left == outcomes[i..]
      invariant events + PrepareEvents(todo, left) == PrepareEvents(calls, outcomes)
      invariant finalized + Results(todo, left) == Results(calls, outcomes)
      decreases |calls| - i
    {
      var call, outcome := calls[i], outcomes[i];
      PrepareStep(events, todo, left);
      ResultsStep(finalized, todo, left);
      events := events + PrepareOne(call, outcome);
      finalized := finalized + [ResultMessage(call, outcome.result)];
      i := i + 1;
      aborted := outcome.aborted;
      todo, left := NextCalls(todo, outcome), NextOutcomes(left);
    }
  }

  lemma PrepareStep(done: seq<Event>, calls: seq<ToolCall>, outcomes: seq<CallOutcome>)
    requires |calls| == |outcomes| > 0
    ensures done + PrepareEvents(calls, outcomes)
            == (done + PrepareOne(calls[0], outcomes[0]))
               + PrepareEvents(NextCalls(calls, outcomes[0]), NextOutcomes(outcomes))
  {
    EventsAssociative(done, PrepareOne(calls[0], outcomes[0]),
                      PrepareEvents(NextCalls(calls, outcomes[0]), NextOutcomes(outcomes)));
  }

  /** The ids of the calls that run. */
  function LiveIds(calls: seq<ToolCall>, live: seq<bool>): multiset<string>
    requires |live| <= |calls|
  {
    if live == [] then multiset{}
    else (if live[0] then multiset{calls[0].id} else multiset{}) + LiveIds(calls[1..], live[1..])
  }

  lemma {:induction false} LiveIdsRemove(calls: seq<ToolCall>, live: seq<bool>, i: nat)
    requires |live| <= |calls| && i < |live| && live[i]
    ensures calls[i].id in LiveIds(calls, live)
    ensures LiveIds(calls, live[i := false]) == LiveIds(calls, live) - multiset{calls[i].id}
  {
    if i > 0 {
      LiveIdsRemove(calls[1..], live[1..], i - 1);
      assert live[i := false][1..] == live[1..][i - 1 := false];
    } else {
      assert live[0 := false][1..] == live[1..];
    }
  }

  lemma {:induction false} NoneLive(calls: seq<ToolCall>, live: seq<bool>)
    requires |live| <= |calls| && forall i :: 0 <= i < |live| ==> !live[i]
    ensures LiveIds(calls, live) == multiset{}
  {
    if live != [] {
      NoneLive(calls[1..], live[1..]);
    }
  }

  lemma PrepareOneAccepted(s: State, call: ToolCall, outcome: CallOutcome)
    requires s.phase.InTurn? && !s.open
    ensures StepAll(s, PrepareOne(call, outcome)) ==
            Some(s.(running := s.running + (if outcome.prepared then multiset{call.id} else multiset{})))
  {
    if outcome.prepared {
      StepOne(s, ToolStart(call.id));
      assert PrepareOne(call, outcome) == [ToolStart(call.id)];
    } else {
      StepTwo(s, ToolStart(call.id), ToolEnd(call.id));
      assert PrepareOne(call, outcome) == [ToolStart(call.id), ToolEnd(call.id)];
      assert s.running + multiset{call.id} - multiset{call.id} == s.running + multiset{};
    }
  }

  lemma {:induction false} PrepareAccepted(s: State, calls: seq<ToolCall>, outcomes: seq<CallOutcome>)
    requires s.phase.InTurn? && !s.open && |calls| == |outcomes| && |Live(outcomes)| <= |calls|
    ensures StepAll(s, PrepareEvents(calls, outcomes)) == Some(s.(running := s.running + LiveIds(calls, Live(outcomes))))
    decreases |calls|
  {
    if calls == [] {
      assert s.running + multiset{} == s.running;
    } else {
      var own := if outcomes[0].prepared then multiset{calls[0].id} else multiset{};
      var t := s.(running := s.running + own);
      PrepareOneAccepted(s, calls[0], outcomes[0]);
      assert Live(outcomes)[1..] == if outcomes[0].aborted then [] else Live(outcomes[1..]);
      if outcomes[0].aborted {
        assert PrepareOne(calls[0], outcomes[0]) + [] == PrepareOne(calls[0], outcomes[0]);
        assert own + multiset{} == own;
      } else {
        PrepareAccepted(t, calls[1..], outcomes[1..]);
        StepAllConcat(s, PrepareOne(calls[0], outcomes[0]), PrepareEvents(calls[1..], outcomes[1..]));
        assert s.running + own + LiveIds(calls[1..], Live(outcomes[1..]))
            == s.running + (own + LiveIds(calls[1..], Live(outcomes[1..])));
      }
    }
  }

  lemma ScheduleFirst(calls: seq<ToolCall>, schedule: seq<Progress>)
    requires schedule != [] && forall i :: 0 <= i < |schedule| ==> schedule[i].call < |calls|
    ensures forall i :: 0 <= i < |schedule[1..]| ==> schedule[1..][i].call < |calls|
    ensures ScheduleEvents(calls, schedule)[1..] == ScheduleEvents(calls, schedule[1..])
    ensures ScheduleEvents(calls, schedule)[0] ==
            if schedule[0].Report? then ToolUpdate(calls[schedule[0].call].id) else ToolEnd(calls[schedule[0].call].id)
  {
  }

  lemma {:induction false} ScheduleAccepted(s: State, calls: seq<ToolCall>, live: seq<bool>, schedule: seq<Progress>)
    requires s.phase.InTurn? && |live| <= |calls| && s.running == LiveIds(calls, live) && ScheduleOk(live, schedule)
    requires forall i :: 0 <= i < |schedule| ==> schedule[i].call < |calls|
    ensures StepAll(s, ScheduleEvents(calls, schedule)) == Some(s.(running := multiset{}))
    decreases |schedule|
  {
    if schedule == [] {
      NoneLive(calls, live);
    } else {
      var p := schedule[0];
      var id, e := calls[p.call].id, ScheduleEvents(calls, schedule)[0];
      LiveIdsRemove(calls, live, p.call);
      ScheduleFirst(calls, schedule);
      if p.Finish? {
        var t := s.(running := s.running - multiset{id});
        assert Step(s, e) == Some(t) by {
          assert e == ToolEnd(id);
        }
        ScheduleAccepted(t, calls, live[p.call := false], schedule[1..]);
      } else {
        assert Step(s, e) == Some(s) by {
          assert e == ToolUpdate(id);
        }
        ScheduleAccepted(s, calls, live, schedule[1..]);
      }
    }
  }

  /** Whatever the order of completion, a parallel batch is balanced and ends with its results in source order. */
  lemma ParallelAccepted(s: State, calls: seq<ToolCall>, outcomes: seq<CallOutcome>, schedule: seq<Progress>)
    requires Quiet(s) && |calls| == |outcomes| && ScheduleOk(Live(outcomes), schedule)
    requires forall i :: 0 <= i < |schedule| ==> schedule[i].call < |calls|
    ensures StepAll(s, ParallelEvents(calls, outcomes, schedule)) == Some(Ended(s, Results(calls, outcomes)))
  {
    LiveLength(calls, outcomes);
    var live, results := Live(outcomes), Results(calls, outcomes);
    var t := s.(running := LiveIds(calls, live));
    PrepareAccepted(s, calls, outcomes);
    assert s.running + LiveIds(calls, live) == LiveIds(calls, live);
    StepAllConcat(s, PrepareEvents(calls, outcomes), ScheduleEvents(calls, schedule) + Pairs(results));
    ScheduleAccepted(t, calls, live, schedule);
    StepAllConcat(t, ScheduleEvents(calls, schedule), Pairs(results));
    assert t.(running := multiset{}) == s;
    PairsAccepted(s, results);
  }

  // ----- Truncated messages -----

  const TRUNCATED: Result := Result("not executed: the response hit the output token limit", true, false)

  /** Every call of a truncated message fails, unexecuted. */
  function Failures(calls: seq<ToolCall>): seq<CallOutcome> {
    seq(|calls|, _ => CallOutcome(false, 0, TRUNCATED, false))
  }

  /** A failure does not stop the batch. */
  lemma FailuresStep(calls: seq<ToolCall>)
    requires calls != []
    ensures Failures(calls)[0] == CallOutcome(false, 0, TRUNCATED, false)
    ensures NextCalls(calls, Failures(calls)[0]) == calls[1..] && NextOutcomes(Failures(calls)) == Failures(calls[1..])
  {
  }

  /** `failToolCallsFromTruncatedMessage` */
  method FailTruncated(calls: seq<ToolCall>) returns (events: seq<Event>, results: seq<Message>)
    ensures events == SequentialEvents(calls, Failures(calls)) && results == Results(calls, Failures(calls))
  {
    events, results := [], [];
    ghost var todo := calls;
    for i := 0 to |calls|
      invariant todo == calls[i..]
      invariant events + SequentialEvents(todo, Failures(todo)) == SequentialEvents(calls, Failures(calls))
      invariant results + Results(todo, Failures(todo)) == Results(calls, Failures(calls))
    {
      FailuresStep(todo);
      SequentialStep(events, todo, Failures(todo));
      ResultsStep(results, todo, Failures(todo));
      events := events + CallEvents(calls[i], CallOutcome(false, 0, TRUNCATED, false));
      results := results + [ResultMessage(calls[i], TRUNCATED)];
      todo := todo[1..];
    }
  }

  /** A truncated message answers every call with an error, runs none, and never ends the run early. */
  lemma TruncatedAnswersAll(calls: seq<ToolCall>)
    ensures |Results(calls, Failures(calls))| == |calls|
    ensures forall i :: 0 <= i < |calls| ==>
              var answer := Results(calls, Failures(calls))[i];
              && answer == ToolResult(calls[i].id, calls[i].name, TRUNCATED)
              && answer.result.isError && !answer.result.terminate
    ensures forall i :: 0 <= i < |calls| ==> !Failures(calls)[i].prepared
    ensures !Terminates(Results(calls, Failures(calls)))
  {
    ResultsAnswerPrefix(calls, Failures(calls));
  }
}
