/**
 `runAgentLoop`, `runAgentLoopContinue` and `runLoop` of packages/agent/src/agent-loop.ts. A run is fed by a script: for
 each turn, what hooks, streams, tools and users do. A run that needs more turns than the script has is a run still going
 on.
 */
module AgentLoop {
  import opened Transcript
  import opened ToolDeclarations
  import opened AgentEvents
  import opened AgentTools

  // ----- Queues -----

  datatype Mode = All | OneAtATime

  datatype Queue = Queue(mode: Mode, messages: seq<Message>)

  /** The messages the next drain takes. */
  function Peek(q: Queue): seq<Message> {
    if q.mode.All? || q.messages == [] then q.messages else [q.messages[0]]
  }

  function Drained(q: Queue): Queue {
    q.(messages := q.messages[|Peek(q)|..])
  }

  function Enqueued(q: Queue, arrivals: seq<Message>): Queue {
    q.(messages := q.messages + arrivals)
  }

  /** A drain takes a prefix and leaves the rest: everything, or the first message in one-at-a-time mode. */
  lemma DrainTakesPrefix(q: Queue)
    ensures Peek(q) + Drained(q).messages == q.messages && Drained(q).mode == q.mode
    ensures Peek(q) == [] <==> q.messages == []
    ensures q.mode.All? ==> Peek(q) == q.messages && Drained(q).messages == []
    ensures q.mode.OneAtATime? && q.messages != [] ==> Peek(q) == [q.messages[0]] && Drained(q).messages == q.messages[1..]
  {
    if q.mode.OneAtATime? && q.messages != [] {
      assert q.messages == [q.messages[0]] + q.messages[1..];
    }
  }

  // ----- What a turn is given -----

  datatype Decision = Default | End | Continue

  /**
   `prepared`, `preparedContext`: what `prepareNextTurn` returned; `requestContext`: what `prepareRequest` returned;
   `early`, `late`: steering messages queued before the polls of the turn; `followUps`: follow-ups queued before
   their poll, if it comes to that.
   */
  datatype Given = Given(prepared: seq<Message>, preparedContext: Option<Context>, early: seq<Message>,
                         requestContext: Option<Context>, stream: seq<StreamEvent>, final: Message,
                         sequential: bool, outcomes: seq<CallOutcome>, schedule: seq<Progress>,
                         decision: Decision, late: seq<Message>, followUps: seq<Message>)

  /** What contract-abiding hooks, streams and tools give. */
  type Turn = t: Given | TurnOk(t)
    witness Given([], None, [], None, [], Assistant("", [], Stop, ""), true, [], [], Default, [], [])

  predicate Executes(t: Given)
    requires t.final.Assistant?
  {
    t.final.calls != [] && !t.final.stop.Length? && !Failed(t)
  }

  predicate Failed(t: Given)
    requires t.final.Assistant?
  {
    t.final.stop.Error? || t.final.stop.Aborted?
  }

  /** Streams start at most once, and tools that run finish once. */
  predicate TurnOk(t: Given) {
    && t.final.Assistant? && StreamStarts(t.stream) <= 1
    && (Executes(t) ==> |t.outcomes| == |t.final.calls| && ScheduleOk(Live(t.outcomes), t.schedule)
                        && forall i :: 0 <= i < |t.schedule| ==> t.schedule[i].call < |t.final.calls|)
  }

  function OutcomesOf(t: Turn): seq<CallOutcome> {
    if Executes(t) then t.outcomes else if Failed(t) then [] else Failures(t.final.calls)
  }

  /** The tool results of a turn: none after a failed response. */
  function ResultsOf(t: Turn): seq<Message> {
    if Failed(t) then [] else Results(t.final.calls, OutcomesOf(t))
  }

  function ToolEvents(t: Turn): seq<Event> {
    if Failed(t) then []
    else if Executes(t) && !t.sequential then ParallelEvents(t.final.calls, t.outcomes, t.schedule)
    else SequentialEvents(t.final.calls, OutcomesOf(t))
  }

  /** Another request follows by itself: some tool result wants an answer. */
  predicate MoreCalls(t: Turn) {
    !Failed(t) && t.final.calls != [] && !Terminates(ResultsOf(t))
  }

  // ----- One turn -----

  /** The messages before a request, each emitted, added to the context and to the run's messages. */
  method Inject(context: Context, messages: seq<Message>) returns (events: seq<Event>, after: Context)
    ensures events == Pairs(messages) && after == context.(messages := context.messages + messages)
  {
    events, after := [], context;
    for i := 0 to |messages|
      invariant events + Pairs(messages[i..]) == Pairs(messages)
      invariant after == context.(messages := context.messages + messages[..i])
    {
      assert messages[i..][1..] == messages[i + 1..];
      EventsAssociative(events, Pair(messages[i]), Pairs(messages[i + 1..]));
      assert context.messages + messages[..i] + [messages[i]] == context.messages + messages[..i + 1];
      events := events + Pair(messages[i]);
      after := after.(messages := after.messages + [messages[i]]);
    }
    assert messages[..|messages|] == messages;
  }

  /** The response and the tool batch, up to the end of the turn. */
  method Respond(context: Context, t: Turn)
    returns (events: seq<Event>, after: Context, results: seq<Message>, more: bool)
    ensures events == StreamEvents(t.stream, false, t.final) + ToolEvents(t)
    ensures results == ResultsOf(t) && more == MoreCalls(t)
    ensures after == context.(messages := StreamContext(context.messages, t.stream, false, t.final) + results)
  {
    var streamed, messages := StreamResponse(context.messages, t.stream, t.final);
    after := context.(messages := messages);
    if Failed(t) {
      assert streamed + [] == streamed && messages + [] == messages;
      return streamed, after, [], false;
    }
    var toolEvents: seq<Event>;
    if t.final.calls == [] {
      toolEvents, results, more := [], [], false;
    } else if t.final.stop.Length? {
      TruncatedAnswersAll(t.final.calls);
      toolEvents, results := FailTruncated(t.final.calls);
      more := true;
    } else {
      var terminate;
      if t.sequential {
        toolEvents, results, terminate := ExecuteSequential(t.final.calls, t.outcomes);
      } else {
        toolEvents, results, terminate := ExecuteParallel(t.final.calls, t.outcomes, t.schedule);
      }
      more := !terminate;
    }
    events := streamed + toolEvents;
    after := after.(messages := after.messages + results);
  }

  lemma ResponseContext(messages: seq<Message>, t: Turn)
    ensures StreamContext(messages, t.stream, false, t.final) + ResultsOf(t) == messages + ([t.final] + ResultsOf(t))
  {
    ResponseKeepsTranscripts(INITIAL.(phase := InTurn), messages, t.stream, t.final);
    Associative(messages, [t.final], ResultsOf(t));
  }

  /** A turn's response and tools are balanced, whatever their interleaving, and add their messages to both transcripts. */
  lemma RespondAccepted(s: State, messages: seq<Message>, t: Turn)
    requires Quiet(s)
    ensures StepAll(s, StreamEvents(t.stream, false, t.final) + ToolEvents(t)) == Some(Ended(s, [t.final] + ResultsOf(t)))
    ensures StreamContext(messages, t.stream, false, t.final) + ResultsOf(t) == messages + ([t.final] + ResultsOf(t))
  {
    var u := Ended(s, [t.final]);
    ResponseKeepsTranscripts(s, messages, t.stream, t.final);
    StepAllConcat(s, StreamEvents(t.stream, false, t.final), ToolEvents(t));
    Associative(messages, [t.final], ResultsOf(t));
    EndedTwice(s, [t.final], ResultsOf(t));
    if Failed(t) {
      assert Ended(u, []) == u;
    } else if Executes(t) && !t.sequential {
      ParallelAccepted(u, t.final.calls, t.outcomes, t.schedule);
    } else {
      SequentialAccepted(u, t.final.calls, OutcomesOf(t));
    }
  }

  // ----- The course of a run -----

  /** `more`: the tool batch of the turn before wants an answer. */
  datatype When = AtStart | Before(turn: nat) | After(turn: nat, more: bool)

  /**
   What a run does, in order: a poll, what was queued since the last one and what it got; a follow-up poll, and whether
   the turn before it asked for another; the messages sent before a request, which carry `queued` messages; the request;
   the messages of a finished turn; the end.
   */
  datatype Mark =
    | Polled(when: When, arrived: seq<Message>, got: seq<Message>)
    | PolledFollowUps(turn: nat, again: bool, arrived: seq<Message>, got: seq<Message>)
    | Injected(turn: nat, declared: seq<Message>, queued: seq<Message>, isFollowUp: bool)
    | Requested(turn: nat, context: Context)
    | TurnDone(turn: nat, messages: seq<Message>)
    | Stopped(turn: nat)

  /** A run in progress. */
  datatype Run = Run(context: Context, newMessages: seq<Message>, events: seq<Event>, steering: Queue, followUps: Queue)

  /**
   What a run begins with: the transcript before it, the prompts, the tools, the queues, the steering messages queued
   before the first poll, the script, and whether that first poll is skipped.
   */
  datatype Base = Base(before: seq<Message>, prompts: seq<Message>, tools: seq<Tool>, steering: Queue, followUps: Queue,
                       arrivals: seq<Message>, turns: seq<Turn>, skipPoll: bool)

  function WithMessages(context: Context, messages: seq<Message>): Context {
    context.(messages := context.messages + messages)
  }

  /** The prompts are in the context, and their events are out. */
  function Begun(base: Base): Run {
    Run(Context(base.before + base.prompts, base.tools), base.prompts, [AgentStart, TurnStart] + Pairs(base.prompts),
        base.steering, base.followUps)
  }

  /** The context of turn `turn` after `prepareNextTurn`; there is none before the first turn. */
  function Prepared(base: Base, context: Context, turn: nat): Context {
    if 0 < turn < |base.turns| && base.turns[turn].preparedContext.Some? then base.turns[turn].preparedContext.value
    else context
  }

  function PreparedMessages(base: Base, turn: nat): seq<Message> {
    if 0 < turn < |base.turns| then base.turns[turn].prepared else []
  }

  /** A turn after the first is prepared and has begun. */
  function Opened(base: Base, r: Run, turn: nat): Run {
    r.(context := Prepared(base, r.context, turn), events := r.events + (if turn > 0 then [TurnStart] else []))
  }

  /** What a turn says from its request to its end. */
  function TurnEvents(t: Turn): seq<Event> {
    StreamEvents(t.stream, false, t.final) + ToolEvents(t) + [TurnEnd(t.final, ResultsOf(t))]
  }

  /** What each mark does to a run. */
  function Apply(base: Base, r: Run, m: Mark): Run {
    match m
    case Polled(_, arrived, _) => r.(steering := Drained(Enqueued(r.steering, arrived)))
    case PolledFollowUps(_, _, arrived, _) => r.(followUps := Drained(Enqueued(r.followUps, arrived)))
    case Injected(turn, declared, _, _) => Grown(Opened(base, r, turn), declared, Pairs(declared))
    case Requested(turn, _) =>
      if turn < |base.turns| && base.turns[turn].requestContext.Some?
      then r.(context := base.turns[turn].requestContext.value) else r
    case TurnDone(turn, messages) =>
      if turn < |base.turns| then Grown(r, messages, TurnEvents(base.turns[turn])) else r
    case Stopped(_) => r.(events := r.events + [AgentEnd(r.newMessages)])
  }

  /** Messages join the context and the run's messages, and events go out. */
  function Grown(r: Run, messages: seq<Message>, events: seq<Event>): Run {
    r.(context := WithMessages(r.context, messages), newMessages := r.newMessages + messages, events := r.events + events)
  }

  // ----- What a run may do next -----

  /** The turn failed, or was told to end the run. */
  predicate EndsRun(t: Turn) {
    Failed(t) || t.decision.End?
  }

  /** What the next request carries, or what waits for it. */
  datatype Load = Load(turn: nat, queued: seq<Message>)

  /** The turn that is due, with the messages that wait for it, unless the run ends or is inside a turn. */
  function Waiting(base: Base, marks: seq<Mark>): Option<Load> {
    if marks == [] then (if base.skipPoll then Some(Load(0, [])) else None)
    else
      match marks[|marks| - 1]
      case Polled(AtStart, _, got) => Some(Load(0, got))
      case Polled(After(i, more), _, got) => if more || got != [] then Some(Load(i + 1, got)) else None
      case PolledFollowUps(i, again, _, got) => if again || got != [] then Some(Load(i + 1, got)) else None
      case _ => None
  }

  /** The request that is due once there is no other poll before it, and the queued messages it carries. */
  function Carried(base: Base, marks: seq<Mark>): Option<Load> {
    var w := Waiting(base, marks);
    if w.Some? then (if w.value.turn == 0 || w.value.queued != [] then w else None)
    else if marks == [] then None
    else
      match marks[|marks| - 1]
      case Polled(Before(i), _, got) => Some(Load(i, got))
      case _ => None
  }

  predicate FromFollowUps(marks: seq<Mark>) {
    marks != [] && marks[|marks| - 1].PolledFollowUps?
  }

  predicate JustDone(marks: seq<Mark>, turn: nat) {
    marks != [] && marks[|marks| - 1].TurnDone? && marks[|marks| - 1].turn == turn
  }

  /** Turn `turn` wants no answer, and steering was polled after it, and nothing was there. */
  predicate NothingSteers(marks: seq<Mark>, turn: nat) {
    && marks != [] && marks[|marks| - 1].Polled? && marks[|marks| - 1].when == After(turn, false)
    && marks[|marks| - 1].got == []
  }

  /** Nor was there a follow-up, and the turn did not ask for another. */
  predicate NothingFollows(marks: seq<Mark>, turn: nat) {
    && marks != [] && marks[|marks| - 1].PolledFollowUps? && marks[|marks| - 1].turn == turn
    && !marks[|marks| - 1].again && marks[|marks| - 1].got == []
  }

  /**
   Whether `m` may come after `marks`, which led to `r`. A poll finds what the script queued by then, and gets what the
   queue's mode says of all that is queued. Steering is polled first, unless that is skipped, after every turn that goes
   on, and once more before a turn for which nothing waits; follow-ups only after a turn that wants no answer and a poll
   that found no steering. What a poll got is what the next request carries, whole.
   */
  predicate May(base: Base, r: Run, marks: seq<Mark>, m: Mark) {
    match m
    case Polled(when, arrived, got) =>
      got == Peek(Enqueued(r.steering, arrived)) && MayPoll(base, marks, when, arrived)
    case PolledFollowUps(i, again, arrived, got) =>
      && got == Peek(Enqueued(r.followUps, arrived)) && NothingSteers(marks, i)
      && i < |base.turns| && arrived == base.turns[i].followUps && again == base.turns[i].decision.Continue?
    case Injected(i, declared, queued, isFollowUp) =>
      && i < |base.turns| && Carried(base, marks) == Some(Load(i, queued)) && isFollowUp == FromFollowUps(marks)
      && declared == Declare(Prepared(base, r.context, i), PreparedMessages(base, i) + queued)
    case Requested(i, context) =>
      marks != [] && marks[|marks| - 1].Injected? && marks[|marks| - 1].turn == i && context == r.context
    case TurnDone(i, messages) =>
      && i < |base.turns| && marks != [] && marks[|marks| - 1].Requested? && marks[|marks| - 1].turn == i
      && messages == [base.turns[i].final] + ResultsOf(base.turns[i])
    case Stopped(i) => i < |base.turns| && MayStop(base.turns[i], marks, i)
  }

  predicate MayPoll(base: Base, marks: seq<Mark>, when: When, arrived: seq<Message>) {
    match when
    case AtStart => marks == [] && !base.skipPoll && arrived == base.arrivals
    case Before(i) => 0 < i < |base.turns| && Waiting(base, marks) == Some(Load(i, [])) && arrived == base.turns[i].early
    case After(i, more) =>
      && i < |base.turns| && JustDone(marks, i) && !EndsRun(base.turns[i]) && arrived == base.turns[i].late
      && more == MoreCalls(base.turns[i])
  }

  /** A run ends after a turn that says so, or when nothing asks for another. */
  predicate MayStop(t: Turn, marks: seq<Mark>, turn: nat) {
    (JustDone(marks, turn) && EndsRun(t)) || NothingFollows(marks, turn)
  }

  ghost predicate StepOk(base: Base, marks: seq<Mark>, runs: seq<Run>, i: nat)
    requires i < |marks| == |runs| - 1
  {
    May(base, runs[i], marks[..i], marks[i]) && runs[i + 1] == Apply(base, runs[i], marks[i])
  }

  /** `runs` are the run before, between and after its marks. */
  ghost predicate IsCourse(base: Base, marks: seq<Mark>, runs: seq<Run>) {
    && |runs| == |marks| + 1 && runs[0] == Begun(base)
    && forall i :: 0 <= i < |marks| ==> StepOk(base, marks, runs, i)
  }

  /** A run may leave these marks, and stands at `r` then. */
  ghost predicate Leads(base: Base, marks: seq<Mark>, r: Run) {
    exists runs :: IsCourse(base, marks, runs) && runs[|marks|] == r
  }

  lemma LeadsOn(base: Base, marks: seq<Mark>, r: Run, m: Mark)
    requires Leads(base, marks, r) && May(base, r, marks, m)
    ensures Leads(base, marks + [m], Apply(base, r, m))
  {
    var runs :| IsCourse(base, marks, runs) && runs[|marks|] == r;
    CourseExtends(base, marks, runs, m);
  }

  lemma CourseExtends(base: Base, marks: seq<Mark>, runs: seq<Run>, m: Mark)
    requires IsCourse(base, marks, runs) && May(base, runs[|marks|], marks, m)
    ensures IsCourse(base, marks + [m], runs + [Apply(base, runs[|marks|], m)])
  {
    var more, longer := marks + [m], runs + [Apply(base, runs[|marks|], m)];
    forall i | 0 <= i < |more| ensures StepOk(base, more, longer, i) {
      assert more[..i] == marks[..i];
      if i < |marks| {
        assert StepOk(base, marks, runs, i);
      } else {
        assert marks[..i] == marks;
      }
    }
  }

  lemma LeadsStart(base: Base)
    ensures Leads(base, [], Begun(base))
  {
    assert IsCourse(base, [], [Begun(base)]);
  }

  function Last(marks: seq<Mark>): Option<Mark> {
    if marks == [] then None else Some(marks[|marks| - 1])
  }

  // ----- The loop -----

  /** `getSteeringMessages` or `getFollowUpMessages`, after `arrivals` were queued. */
  method Poll(q: Queue, arrivals: seq<Message>) returns (got: seq<Message>, rest: Queue)
    ensures got == Peek(Enqueued(q, arrivals)) && rest == Drained(Enqueued(q, arrivals))
    ensures got + rest.messages == q.messages + arrivals && rest.mode == q.mode
    ensures q.mode.All? ==> rest.messages == []
    ensures q.mode.OneAtATime? ==> |got| == if q.messages + arrivals == [] then 0 else 1
  {
    var queued := Enqueued(q, arrivals);
    DrainTakesPrefix(queued);
    got, rest := Peek(queued), Drained(queued);
  }

  /**
   `prepareNextTurn`: it may swap the context, and steering is polled again unless messages wait already. `polled` is the
   run before the turn begins.
   */
  method PrepareTurn(r: Run, base: Base, ghost marks: seq<Mark>, turn: nat, pending: seq<Message>)
    returns (waiting: seq<Message>, after: Run, ghost next: seq<Mark>, ghost polled: Run)
    requires Leads(base, marks, r) && 0 < turn < |base.turns| && Waiting(base, marks) == Some(Load(turn, pending))
    ensures pending != [] ==> waiting == pending && next == marks && polled == r
    ensures pending == [] ==> waiting == Peek(Enqueued(r.steering, base.turns[turn].early))
                              && next == marks + [Polled(Before(turn), base.turns[turn].early, waiting)]
    ensures Leads(base, next, polled) && Carried(base, next) == Some(Load(turn, waiting))
    ensures after == Opened(base, polled, turn)
  {
    waiting, next, polled := pending, marks, r;
    after := r;
    var t := base.turns[turn];
    if t.preparedContext.Some? {
      after := after.(context := t.preparedContext.value);
    }
    if pending == [] {
      var steering;
      waiting, steering := Poll(after.steering, t.early);
      after := after.(steering := steering);
      ghost var m := Polled(Before(turn), t.early, waiting);
      LeadsOn(base, marks, r, m);
      next, polled := marks + [m], Apply(base, r, m);
    }
    after := after.(events := after.events + [TurnStart]);
  }

  /** Pending messages go out with the tool changes they need. */
  method InjectPending(r: Run, base: Base, ghost marks: seq<Mark>, ghost polled: Run, turn: nat, waiting: seq<Message>)
    returns (after: Run, ghost next: seq<Mark>)
    requires Leads(base, marks, polled) && turn < |base.turns| && Carried(base, marks) == Some(Load(turn, waiting))
    requires r == Opened(base, polled, turn)
    ensures Leads(base, next, after)
    ensures next == marks + [Injected(turn, Declare(r.context, PreparedMessages(base, turn) + waiting), waiting,
                                      FromFollowUps(marks))]
  {
    var declared := DeclareToolChanges(r.context, (if turn == 0 then [] else base.turns[turn].prepared) + waiting);
    var events, context := Inject(r.context, declared);
    after := r.(context := context, newMessages := r.newMessages + declared, events := r.events + events);
    ghost var m := Injected(turn, declared, waiting, FromFollowUps(marks));
    LeadsOn(base, marks, polled, m);
    next := marks + [m];
  }

  /** `prepareRequest`, on the context the request is made from. */
  method MakeRequest(r: Run, base: Base, ghost marks: seq<Mark>, turn: nat) returns (after: Run, ghost next: seq<Mark>)
    requires Leads(base, marks, r) && turn < |base.turns|
    requires Last(marks).Some? && Last(marks).value.Injected? && Last(marks).value.turn == turn
    ensures Leads(base, next, after) && next == marks + [Requested(turn, r.context)]
  {
    after := r;
    if base.turns[turn].requestContext.Some? {
      after := after.(context := base.turns[turn].requestContext.value);
    }
    ghost var m := Requested(turn, r.context);
    LeadsOn(base, marks, r, m);
    next := marks + [m];
  }

  /** The response, the tools and the end of the turn. */
  method AnswerRequest(r: Run, base: Base, ghost marks: seq<Mark>, turn: nat)
    returns (more: bool, after: Run, ghost next: seq<Mark>)
    requires Leads(base, marks, r) && turn < |base.turns|
    requires Last(marks).Some? && Last(marks).value.Requested? && Last(marks).value.turn == turn
    ensures Leads(base, next, after) && more == MoreCalls(base.turns[turn])
    ensures next == marks + [TurnDone(turn, [base.turns[turn].final] + ResultsOf(base.turns[turn]))]
    ensures after.events == r.events + TurnEvents(base.turns[turn])
  {
    var t := base.turns[turn];
    var events, context, results;
    events, context, results, more := Respond(r.context, t);
    ResponseContext(r.context.messages, t);
    after := r.(context := context, newMessages := r.newMessages + [t.final] + results, events := r.events + events);
    Associative(r.newMessages, [t.final], results);
    EventsAssociative(r.events, events, [TurnEnd(t.final, results)]);
    after := after.(events := after.events + [TurnEnd(t.final, results)]);
    ghost var m := TurnDone(turn, [t.final] + results);
    LeadsOn(base, marks, r, m);
    next := marks + [m];
  }

  /** One turn, from its pending messages to its end. */
  method TakeTurn(r: Run, base: Base, ghost marks: seq<Mark>, turn: nat, pending: seq<Message>)
    returns (more: bool, after: Run, ghost next: seq<Mark>)
    requires Leads(base, marks, r) && turn < |base.turns| && Waiting(base, marks) == Some(Load(turn, pending))
    ensures Leads(base, next, after) && JustDone(next, turn) && more == MoreCalls(base.turns[turn])
  {
    var waiting := pending;
    ghost var polled := r;
    after, next := r, marks;
    if turn > 0 {
      waiting, after, next, polled := PrepareTurn(r, base, marks, turn, pending);
    } else {
      assert r.events + [] == r.events;
    }
    after, next := InjectPending(after, base, next, polled, turn, waiting);
    after, next := MakeRequest(after, base, next, turn);
    more, after, next := AnswerRequest(after, base, next, turn);
  }

  /** `agent_end`, with the messages of the run. */
  method EndRun(r: Run, base: Base, ghost marks: seq<Mark>, ghost turn: nat) returns (after: Run, ghost next: seq<Mark>)
    requires Leads(base, marks, r) && turn < |base.turns| && MayStop(base.turns[turn], marks, turn)
    ensures Leads(base, next, after) && next == marks + [Stopped(turn)]
    ensures after == r.(events := r.events + [AgentEnd(r.newMessages)])
  {
    after := r.(events := r.events + [AgentEnd(r.newMessages)]);
    LeadsOn(base, marks, r, Stopped(turn));
    next := marks + [Stopped(turn)];
  }

  /** A turn was followed by a steering poll that got `waiting`; `more`: its tool batch wants an answer. */
  predicate Steered(marks: seq<Mark>, turn: nat, more: bool, waiting: seq<Message>) {
    && marks != [] && marks[|marks| - 1].Polled? && marks[|marks| - 1].when == After(turn, more)
    && marks[|marks| - 1].got == waiting
  }

  /** The steering poll after a turn. */
  method PollLate(start: Run, base: Base, ghost marks: seq<Mark>, turn: nat, ghost more: bool)
    returns (waiting: seq<Message>, r: Run, ghost next: seq<Mark>)
    requires Leads(base, marks, start) && turn < |base.turns| && JustDone(marks, turn) && !EndsRun(base.turns[turn])
    requires more == MoreCalls(base.turns[turn])
    ensures Leads(base, next, r) && waiting == Peek(Enqueued(start.steering, base.turns[turn].late))
    ensures next == marks + [Polled(After(turn, more), base.turns[turn].late, waiting)]
  {
    var steering;
    waiting, steering := Poll(start.steering, base.turns[turn].late);
    ghost var m := Polled(After(turn, more), base.turns[turn].late, waiting);
    LeadsOn(base, marks, start, m);
    r, next := start.(steering := steering), marks + [m];
  }

  /** The body of the inner loop: a turn, its decision, and the steering poll after it. */
  method NextTurn(start: Run, base: Base, ghost marks: seq<Mark>, turn: nat, pending: seq<Message>)
    returns (more: bool, explicit: bool, ended: bool, waiting: seq<Message>, r: Run, ghost next: seq<Mark>)
    requires Leads(base, marks, start) && turn < |base.turns| && Waiting(base, marks) == Some(Load(turn, pending))
    ensures Leads(base, next, r) && ended == EndsRun(base.turns[turn])
    ensures ended ==> Last(next) == Some(Stopped(turn))
    ensures !ended ==> Steered(next, turn, more, waiting)
    ensures !ended ==> explicit == (base.turns[turn].decision.Continue? && !more && waiting == [])
  {
    var t := base.turns[turn];
    more, r, next := TakeTurn(start, base, marks, turn, pending);
    if Failed(t) || t.decision.End? {
      r, next := EndRun(r, base, next, turn);
      return more, false, true, [], r, next;
    }
    ended, explicit := false, t.decision.Continue?;
    waiting, r, next := PollLate(r, base, next, turn, more);
    if more || waiting != [] {
      explicit := false;
    }
  }

  /**
   The inner loop: turns, as long as a tool batch or a message asks for one. It is left exactly when the run ends, when
   the script does, or when the last turn wants no answer and nothing steers.
   */
  method TakeTurns(start: Run, base: Base, ghost marks: seq<Mark>, from: nat, pending: seq<Message>)
    returns (stopped: bool, ended: bool, explicit: bool, used: nat, waiting: seq<Message>, r: Run, ghost next: seq<Mark>)
    requires Leads(base, marks, start) && from <= |base.turns| && Waiting(base, marks) == Some(Load(from, pending))
    ensures Leads(base, next, r) && from <= used <= |base.turns|
    ensures !stopped ==> used == |base.turns| && Waiting(base, next) == Some(Load(used, waiting))
    ensures stopped ==> from < used && ended == EndsRun(base.turns[used - 1])
    ensures stopped && ended ==> Last(next) == Some(Stopped(used - 1))
    ensures stopped && !ended ==> Steered(next, used - 1, false, [])
                                  && explicit == base.turns[used - 1].decision.Continue?
  {
    var more := true;
    r, next, used, waiting, explicit, ended := start, marks, from, pending, false, false;
    while more || waiting != []
      invariant Leads(base, next, r) && from <= used <= |base.turns| && !ended
      invariant used == from ==> more && Waiting(base, next) == Some(Load(used, waiting))
      invariant used > from ==> Steered(next, used - 1, more, waiting) && !EndsRun(base.turns[used - 1])
      invariant used > from ==> explicit == (base.turns[used - 1].decision.Continue? && !more && waiting == [])
      decreases |base.turns| - used
    {
      if used == |base.turns| {
        return false, false, false, used, waiting, r, next;
      }
      more, explicit, ended, waiting, r, next := NextTurn(r, base, next, used, waiting);
      used := used + 1;
      if ended {
        return true, true, false, used, [], r, next;
      }
    }
    stopped := true;
  }

  /** The follow-up poll where the run would stop. */
  method PollLast(start: Run, base: Base, ghost marks: seq<Mark>, turn: nat)
    returns (waiting: seq<Message>, r: Run, ghost next: seq<Mark>)
    requires Leads(base, marks, start) && turn < |base.turns| && Steered(marks, turn, false, [])
    ensures Leads(base, next, r) && waiting == Peek(Enqueued(start.followUps, base.turns[turn].followUps))
    ensures next == marks + [PolledFollowUps(turn, base.turns[turn].decision.Continue?, base.turns[turn].followUps,
                                             waiting)]
  {
    var followUps;
    waiting, followUps := Poll(start.followUps, base.turns[turn].followUps);
    r := start.(followUps := followUps);
    ghost var m := PolledFollowUps(turn, base.turns[turn].decision.Continue?, base.turns[turn].followUps, waiting);
    LeadsOn(base, marks, start, m);
    next := marks + [m];
  }

  /** The first steering poll, unless it is skipped. */
  method Begin(base: Base) returns (waiting: seq<Message>, r: Run, ghost marks: seq<Mark>)
    ensures Leads(base, marks, r) && Waiting(base, marks) == Some(Load(0, waiting))
    ensures marks == if base.skipPoll then [] else [Polled(AtStart, base.arrivals, waiting)]
  {
    waiting, r, marks := [], Begun(base), [];
    LeadsStart(base);
    if !base.skipPoll {
      var steering;
      waiting, steering := Poll(r.steering, base.arrivals);
      ghost var m := Polled(AtStart, base.arrivals, waiting);
      LeadsOn(base, marks, r, m);
      r, marks := r.(steering := steering), marks + [m];
    }
  }

  /** A run as far as its script goes; `waiting` messages were drained but not injected. */
  datatype Outcome = Outcome(run: Run, finished: bool, used: nat, waiting: seq<Message>)

  /** A finished run is stopped after its last turn; any other has used up its script, and another turn is due. */
  ghost predicate OutcomeOk(o: Outcome, base: Base, marks: seq<Mark>) {
    && Leads(base, marks, o.run) && o.used <= |base.turns|
    && if o.finished then o.waiting == [] && 0 < o.used && Last(marks) == Some(Stopped(o.used - 1))
       else o.used == |base.turns| && Waiting(base, marks) == Some(Load(o.used, o.waiting))
  }

  /** Where the run would stop: a follow-up, or the turn itself, makes it go on, or it is `over`. */
  method Conclude(start: Run, base: Base, ghost marks: seq<Mark>, used: nat, explicit: bool)
    returns (over: bool, waiting: seq<Message>, r: Run, ghost next: seq<Mark>)
    requires Leads(base, marks, start) && 0 < used <= |base.turns| && Steered(marks, used - 1, false, [])
    requires explicit == base.turns[used - 1].decision.Continue?
    ensures Leads(base, next, r)
    ensures if over then waiting == [] && Last(next) == Some(Stopped(used - 1))
            else Waiting(base, next) == Some(Load(used, waiting))
  {
    waiting, r, next := PollLast(start, base, marks, used - 1);
    over := waiting == [] && !explicit;
    if over {
      r, next := EndRun(r, base, next, used - 1);
    }
  }

  /** One round of the outer loop: the inner loop, and then what concludes it. `over` unless another round follows. */
  method Round(start: Run, base: Base, ghost marks: seq<Mark>, from: nat, pending: seq<Message>)
    returns (over: bool, finished: bool, used: nat, waiting: seq<Message>, r: Run, ghost next: seq<Mark>)
    requires Leads(base, marks, start) && from <= |base.turns| && Waiting(base, marks) == Some(Load(from, pending))
    ensures over ==> OutcomeOk(Outcome(r, finished, used, waiting), base, next)
    ensures !over ==> Leads(base, next, r) && from < used <= |base.turns| && Waiting(base, next) == Some(Load(used, waiting))
  {
    var ended, explicit;
    finished, ended, explicit, used, waiting, r, next := TakeTurns(start, base, marks, from, pending);
    if !finished || ended {
      return true, finished, used, if finished then [] else waiting, r, next;
    }
    over, waiting, r, next := Conclude(r, base, next, used, explicit);
  }

  /** `runLoop`: `finished` unless the script ran out. */
  method RunLoop(start: Run, base: Base)
    returns (r: Run, finished: bool, used: nat, waiting: seq<Message>, ghost marks: seq<Mark>)
    requires start == Begun(base)
    ensures OutcomeOk(Outcome(r, finished, used, waiting), base, marks)
  {
    var over := false;
    used, finished := 0, false;
    waiting, r, marks := Begin(base);
    while !over
      invariant used <= |base.turns|
      invariant if over then OutcomeOk(Outcome(r, finished, used, waiting), base, marks)
                else Leads(base, marks, r) && Waiting(base, marks) == Some(Load(used, waiting))
      decreases !over, |base.turns| - used
    {
      over, finished, used, waiting, r, marks := Round(r, base, marks, used, waiting);
    }
  }

  method RunAgentLoop(prompts: seq<Message>, context: Context, steering: Queue, followUps: Queue, turns: seq<Turn>,
                      skipPoll: bool, arrivals: seq<Message>)
    returns (o: Outcome, ghost marks: seq<Mark>)
    ensures OutcomeOk(o, Base(context.messages, Declare(context, prompts), context.tools, steering, followUps, arrivals,
                              turns, skipPoll), marks)
  {
    var initial := DeclareToolChanges(context, prompts);
    var events, current := Inject(context, initial);
    var start := Run(current, initial, [AgentStart, TurnStart] + events, steering, followUps);
    var base := Base(context.messages, initial, context.tools, steering, followUps, arrivals, turns, skipPoll);
    var run, finished, used, waiting;
    run, finished, used, waiting, marks := RunLoop(start, base);
    o := Outcome(run, finished, used, waiting);
  }

  /** A run from the transcript as it is; refused if that is empty or ends with an assistant message. */
  method RunAgentLoopContinue(context: Context, steering: Queue, followUps: Queue, turns: seq<Turn>, arrivals: seq<Message>)
    returns (result: Option<Outcome>, ghost marks: seq<Mark>)
    ensures result.None? <==> context.messages == [] || context.messages[|context.messages| - 1].Assistant?
    ensures var base := Base(context.messages, [], context.tools, steering, followUps, arrivals, turns, false);
            result.Some? ==> OutcomeOk(result.value, base, marks)
  {
    var base := Base(context.messages, [], context.tools, steering, followUps, arrivals, turns, false);
    marks := [];
    if context.messages == [] || context.messages[|context.messages| - 1].Assistant? {
      return None, marks;
    }
    var start := Run(context, [], [AgentStart, TurnStart], steering, followUps);
    assert context.messages + [] == context.messages && [AgentStart, TurnStart] + [] == [AgentStart, TurnStart];
    var run, finished, used, waiting;
    run, finished, used, waiting, marks := RunLoop(start, base);
    result := Some(Outcome(run, finished, used, waiting));
  }
}
