/**
 What every run of packages/agent/src/agent-loop.ts promises, whatever its hooks, streams, tools and users do. A run is
 the course of marks it leaves (`IsCourse`), so each promise is proved of courses: the grammar of the events, the
 agreement of the transcripts, what becomes of queued messages, when a run goes on and when it ends.
 */
module AgentRuns {
  import opened Transcript
  import opened ToolDeclarations
  import opened AgentEvents
  import opened AgentTools
  import opened AgentLoop

  /** The mark before the `n`-th, if there is one. */
  lemma LastTaken(marks: seq<Mark>, n: nat)
    requires n <= |marks|
    ensures Last(marks[..n]) == if n == 0 then None else Some(marks[n - 1])
  {
  }

  lemma Stage(base: Base, marks: seq<Mark>, runs: seq<Run>, i: nat)
    requires IsCourse(base, marks, runs) && i < |marks|
    ensures May(base, runs[i], marks[..i], marks[i]) && runs[i + 1] == Apply(base, runs[i], marks[i])
  {
    assert StepOk(base, marks, runs, i);
  }

  // ----- Turns are numbered -----

  /** The turns that are complete at a mark. */
  function Taken(m: Mark): nat {
    match m
    case Polled(AtStart, _, _) => 0
    case Polled(Before(i), _, _) => i
    case Polled(After(i, _), _, _) => i + 1
    case PolledFollowUps(i, _, _, _) => i + 1
    case Injected(i, _, _, _) => i
    case Requested(i, _) => i
    case TurnDone(i, _) => i + 1
    case Stopped(i) => i + 1
  }

  lemma TakenStep(base: Base, r: Run, marks: seq<Mark>, m: Mark)
    requires May(base, r, marks, m)
    ensures Taken(m) == (if marks == [] then 0 else Taken(marks[|marks| - 1])) + (if m.TurnDone? then 1 else 0)
  {
  }

  lemma {:induction false} TakenGrows(base: Base, marks: seq<Mark>, runs: seq<Run>, i: nat, j: nat)
    requires IsCourse(base, marks, runs) && i <= j < |marks|
    ensures Taken(marks[i]) <= Taken(marks[j])
    ensures i < j && marks[j].TurnDone? ==> Taken(marks[i]) < Taken(marks[j])
    decreases j
  {
    if i < j {
      TakenGrows(base, marks, runs, i, j - 1);
      Stage(base, marks, runs, j);
      LastTaken(marks, j);
      TakenStep(base, runs[j], marks[..j], marks[j]);
    }
  }

  // ----- The grammar -----

  /** Between turns or in a quiet turn. */
  predicate Calm(s: State) {
    s.phase.Between? && !s.open && s.running == multiset{}
  }

  /** Where the trace stands at a mark. */
  predicate Stands(last: Option<Mark>, s: State) {
    match last
    case None => Quiet(s) && s.turns == 0
    case Some(Polled(AtStart, _, _)) => Quiet(s) && s.turns == 0
    case Some(Polled(Before(i), _, _)) => Calm(s) && s.turns == i > 0
    case Some(Injected(i, _, _, _)) => Quiet(s) && s.turns == i
    case Some(Requested(i, _)) => Quiet(s) && s.turns == i
    case Some(Stopped(i)) => s.phase.Over? && s.turns == i + 1
    case Some(m) => Calm(s) && s.turns == Taken(m)
  }

  /** The events follow the grammar, and every message of the run is in them. */
  ghost predicate Traced(r: Run, last: Option<Mark>, s: State) {
    Reaches(r.events, s) && s.all == r.newMessages && Stands(last, s)
  }

  lemma BegunTraced(base: Base) returns (s: State)
    ensures Traced(Begun(base), None, s)
  {
    s := INITIAL.(phase := InTurn);
    ReachesStart();
    ReachesAll([], INITIAL, [AgentStart, TurnStart]);
    StepTwo(INITIAL, AgentStart, TurnStart);
    assert [] + [AgentStart, TurnStart] == [AgentStart, TurnStart];
    PairsAccepted(s, base.prompts);
    ReachesAll([AgentStart, TurnStart], s, Pairs(base.prompts));
    assert [] + base.prompts == base.prompts;
    s := Ended(s, base.prompts);
  }

  /** The first turn is open before its first messages; any other opens with them. */
  lemma InjectionStands(base: Base, r: Run, marks: seq<Mark>, m: Mark, s: State)
    requires May(base, r, marks, m) && m.Injected? && Stands(Last(marks), s)
    ensures s.turns == m.turn && if m.turn > 0 then Calm(s) else Quiet(s)
  {
  }

  lemma OpenTraced(base: Base, r: Run, turn: nat, s: State) returns (t: State)
    requires Reaches(r.events, s) && if turn > 0 then Calm(s) else Quiet(s)
    ensures Reaches(Opened(base, r, turn).events, t) && Quiet(t) && t.turns == s.turns && t.all == s.all
  {
    t := s;
    if turn > 0 {
      t := Step(s, TurnStart).value;
      ReachesNext(r.events, s, TurnStart);
    } else {
      assert r.events + [] == r.events;
    }
  }

  /** Messages before a request go out in a quiet turn. */
  lemma InjectionTraced(base: Base, r: Run, marks: seq<Mark>, m: Mark, s: State) returns (t: State)
    requires May(base, r, marks, m) && m.Injected? && Traced(r, Last(marks), s)
    ensures Traced(Apply(base, r, m), Some(m), t)
  {
    InjectionStands(base, r, marks, m, s);
    t := OpenTraced(base, r, m.turn, s);
    t := GrownTraced(Opened(base, r, m.turn), m.declared, t);
  }

  lemma GrownTraced(r: Run, messages: seq<Message>, s: State) returns (t: State)
    requires Reaches(r.events, s) && Quiet(s) && s.all == r.newMessages
    ensures Reaches(Grown(r, messages, Pairs(messages)).events, t) && Quiet(t) && t.turns == s.turns
    ensures t.all == Grown(r, messages, Pairs(messages)).newMessages
  {
    PairsAccepted(s, messages);
    ReachesAll(r.events, s, Pairs(messages));
    t := Ended(s, messages);
  }

  /** The response, the tools and the end of a turn, in whatever order its tools run. */
  lemma TurnTraced(base: Base, r: Run, marks: seq<Mark>, m: Mark, s: State) returns (u: State)
    requires May(base, r, marks, m) && m.TurnDone? && Traced(r, Last(marks), s)
    ensures Traced(Apply(base, r, m), Some(m), u)
  {
    var t := base.turns[m.turn];
    var events := StreamEvents(t.stream, false, t.final) + ToolEvents(t);
    RespondAccepted(s, [], t);
    ReachesAll(r.events, s, events);
    u := Ended(s, m.messages);
    assert u.ended[|u.ended| - |ResultsOf(t)| - 1..] == m.messages;
    ReachesNext(r.events + events, u, TurnEnd(t.final, ResultsOf(t)));
    EventsAssociative(r.events, events, [TurnEnd(t.final, ResultsOf(t))]);
    u := Step(u, TurnEnd(t.final, ResultsOf(t))).value;
  }

  lemma StopTraced(base: Base, r: Run, marks: seq<Mark>, m: Mark, s: State) returns (t: State)
    requires May(base, r, marks, m) && m.Stopped? && Traced(r, Last(marks), s)
    ensures Traced(Apply(base, r, m), Some(m), t)
  {
    ReachesNext(r.events, s, AgentEnd(r.newMessages));
    t := Step(s, AgentEnd(r.newMessages)).value;
  }

  lemma MarkTraced(base: Base, r: Run, marks: seq<Mark>, m: Mark, s: State) returns (t: State)
    requires May(base, r, marks, m) && Traced(r, Last(marks), s)
    ensures Traced(Apply(base, r, m), Some(m), t)
  {
    match m {
      case Injected(_, _, _, _) => t := InjectionTraced(base, r, marks, m, s);
      case TurnDone(_, _) => t := TurnTraced(base, r, marks, m, s);
      case Stopped(_) => t := StopTraced(base, r, marks, m, s);
      case _ => t := s;
    }
  }

  /** Whatever the script, the events of a run keep the grammar at every mark. */
  lemma {:induction false} CourseTraced(base: Base, marks: seq<Mark>, runs: seq<Run>, n: nat) returns (s: State)
    requires IsCourse(base, marks, runs) && n <= |marks|
    ensures Traced(runs[n], Last(marks[..n]), s)
  {
    if n == 0 {
      s := BegunTraced(base);
    } else {
      s := CourseTraced(base, marks, runs, n - 1);
      Stage(base, marks, runs, n - 1);
      s := MarkTraced(base, runs[n - 1], marks[..n - 1], marks[n - 1], s);
      LastTaken(marks, n);
    }
  }

  // ----- The transcripts -----

  /** Some hook of the turns swaps the context. */
  predicate Swaps(turns: seq<Turn>) {
    exists i :: 0 <= i < |turns| && (turns[i].preparedContext.Some? || turns[i].requestContext.Some?)
  }

  /** What a mark adds to the run's messages. */
  function Adds(m: Mark): seq<Message> {
    match m
    case Injected(_, declared, _, _) => declared
    case TurnDone(_, messages) => messages
    case _ => []
  }

  /** All messages of a run after its prompts, as its marks tell them. */
  function Sent(marks: seq<Mark>): seq<Message> {
    if marks == [] then [] else Sent(marks[..|marks| - 1]) + Adds(marks[|marks| - 1])
  }

  lemma AddsApplied(base: Base, r: Run, marks: seq<Mark>, m: Mark)
    requires May(base, r, marks, m)
    ensures Apply(base, r, m).newMessages == r.newMessages + Adds(m)
    ensures !Swaps(base.turns) ==> Apply(base, r, m).context.messages == r.context.messages + Adds(m)
  {
    match m
    case Injected(i, _, _, _) => assert !Swaps(base.turns) ==> base.turns[i].preparedContext.None?;
    case Requested(i, _) => assert !Swaps(base.turns) && i < |base.turns| ==> base.turns[i].requestContext.None?;
    case _ =>
  }

  /** The run's messages are the prompts and what its marks add; the context has them too unless a hook swaps it. */
  lemma {:induction false} MessagesKept(base: Base, marks: seq<Mark>, runs: seq<Run>, n: nat)
    requires IsCourse(base, marks, runs) && n <= |marks|
    ensures runs[n].newMessages == base.prompts + Sent(marks[..n])
    ensures !Swaps(base.turns) ==> runs[n].context.messages == base.before + runs[n].newMessages
  {
    if n == 0 {
      assert base.prompts + [] == base.prompts;
    } else {
      MessagesKept(base, marks, runs, n - 1);
      Stage(base, marks, runs, n - 1);
      AddsApplied(base, runs[n - 1], marks[..n - 1], marks[n - 1]);
      assert marks[..n][..n - 1] == marks[..n - 1];
      Associative(base.prompts, Sent(marks[..n - 1]), Adds(marks[n - 1]));
      Associative(base.before, runs[n - 1].newMessages, Adds(marks[n - 1]));
    }
  }

  lemma TraceFollowed(a: AgentState, events: seq<Event>, s: State)
    requires Reaches(events, s) && a.streaming.None? && a.pendingCalls == {}
    ensures ReduceAll(a, events).messages == a.messages + s.all && Messages(events) == s.all
  {
    var states: seq<State> :| IsTrace(events, states) && states[|events|] == s;
    ReducerFollows(a, events, states, |events|);
    MessagesOfTrace(events, states, |events|);
    assert events[..|events|] == events;
  }

  lemma OutcomeTraced(o: Outcome, base: Base, marks: seq<Mark>) returns (s: State)
    requires OutcomeOk(o, base, marks)
    ensures Traced(o.run, Last(marks), s)
    ensures o.run.newMessages == base.prompts + Sent(marks)
    ensures !Swaps(base.turns) ==> o.run.context.messages == base.before + o.run.newMessages
  {
    var runs :| IsCourse(base, marks, runs) && runs[|marks|] == o.run;
    s := CourseTraced(base, marks, runs, |marks|);
    MessagesKept(base, marks, runs, |marks|);
    assert marks[..|marks|] == marks;
  }

  /**
   Whatever hooks, tools and users do, an idle agent's own transcript ends up as it was plus the messages of the run,
   which are the messages of its events and, unless a hook swaps the context, what the loop's context gained.
   */
  lemma RunAgrees(o: Outcome, base: Base, marks: seq<Mark>, a: AgentState)
    requires OutcomeOk(o, base, marks)
    requires a.messages == base.before && a.streaming.None? && a.pendingCalls == {}
    ensures var b := ReduceAll(a, o.run.events);
            && b.messages == base.before + o.run.newMessages
            && (!Swaps(base.turns) ==> o.run.context.messages == b.messages)
            && (o.finished ==> b.streaming.None? && b.pendingCalls == {})
    ensures o.run.newMessages == Messages(o.run.events) == base.prompts + Sent(marks)
  {
    var s := OutcomeTraced(o, base, marks);
    TraceFollowed(a, o.run.events, s);
    if o.finished {
      TranscriptsAgree(a, o.run.events, s);
    }
  }

  /** A finished run is `agent_start`, `used` turns, and `agent_end` with the messages of the run. */
  lemma FinishedShape(o: Outcome, base: Base, marks: seq<Mark>)
    requires OutcomeOk(o, base, marks) && o.finished
    ensures |o.run.events| > 1 && o.run.events[0].AgentStart?
    ensures o.run.events[|o.run.events| - 1] == AgentEnd(o.run.newMessages)
    ensures TurnStarts(o.run.events) == TurnEnds(o.run.events) == o.used
  {
    var s := OutcomeTraced(o, base, marks);
    RunShape(o.run.events, s);
    TurnsOfState(o.run.events, s);
  }

  lemma TurnsOfState(events: seq<Event>, s: State)
    requires Reaches(events, s)
    ensures TurnEnds(events) == s.turns
  {
    var states: seq<State> :| IsTrace(events, states) && states[|events|] == s;
    TurnsCounted(events, states, |events|);
    assert events[..|events|] == events;
  }

  // ----- The queues -----

  function QueueOf(r: Run, followUps: bool): Queue {
    if followUps then r.followUps else r.steering
  }

  function Start(base: Base, followUps: bool): Queue {
    if followUps then base.followUps else base.steering
  }

  /** What a mark says was put into one of the queues, and what it injects from it. */
  function Arrived(m: Mark, followUps: bool): seq<Message> {
    if (if followUps then m.PolledFollowUps? else m.Polled?) then m.arrived else []
  }

  function Sends(m: Mark, followUps: bool): seq<Message> {
    if m.Injected? && m.isFollowUp == followUps then m.queued else []
  }

  /** What a poll got from the queue and no request has carried yet. */
  function Held(last: Option<Mark>, followUps: bool): seq<Message> {
    if last.None? then []
    else if (if followUps then last.value.PolledFollowUps? else last.value.Polled?) then last.value.got
    else []
  }

  function In(marks: seq<Mark>, followUps: bool): seq<Message> {
    if marks == [] then [] else In(marks[..|marks| - 1], followUps) + Arrived(marks[|marks| - 1], followUps)
  }

  function Out(marks: seq<Mark>, followUps: bool): seq<Message> {
    if marks == [] then [] else Out(marks[..|marks| - 1], followUps) + Sends(marks[|marks| - 1], followUps)
  }

  /** What is queued or held after a mark, with what it injects before that, is what was and what arrived. */
  lemma MarkConserves(base: Base, r: Run, marks: seq<Mark>, m: Mark, followUps: bool)
    requires May(base, r, marks, m)
    ensures Sends(m, followUps) + (Held(Some(m), followUps) + QueueOf(Apply(base, r, m), followUps).messages)
            == (Held(Last(marks), followUps) + QueueOf(r, followUps).messages) + Arrived(m, followUps)
    ensures QueueOf(Apply(base, r, m), followUps).mode == QueueOf(r, followUps).mode
  {
    var held, queued := Held(Last(marks), followUps), QueueOf(r, followUps).messages;
    if (if followUps then m.PolledFollowUps? else m.Polled?) {
      DrainTakesPrefix(Enqueued(QueueOf(r, followUps), m.arrived));
      PollHoldsNothing(base, r, marks, m, followUps);
      assert [] + queued == queued;
      assert [] + (m.got + QueueOf(Apply(base, r, m), followUps).messages) == queued + m.arrived;
    } else {
      HeldIsSent(base, r, marks, m, followUps);
      assert [] + queued == queued && (held + queued) + [] == held + queued;
    }
  }

  /** A poll finds nothing held from the same queue. */
  lemma PollHoldsNothing(base: Base, r: Run, marks: seq<Mark>, m: Mark, followUps: bool)
    requires May(base, r, marks, m) && if followUps then m.PolledFollowUps? else m.Polled?
    ensures Held(Last(marks), followUps) == []
  {
  }

  /** What a poll got is sent whole by the next mark that is no poll. */
  lemma HeldIsSent(base: Base, r: Run, marks: seq<Mark>, m: Mark, followUps: bool)
    requires May(base, r, marks, m) && !(if followUps then m.PolledFollowUps? else m.Polled?)
    ensures Held(Last(marks), followUps) == Sends(m, followUps) && Held(Some(m), followUps) == []
    ensures QueueOf(Apply(base, r, m), followUps) == QueueOf(r, followUps)
  {
  }

  /** Everything ever queued was injected, in order, or is held, or waits in the queue. */
  lemma {:induction false} Conserved(base: Base, marks: seq<Mark>, runs: seq<Run>, n: nat, followUps: bool)
    requires IsCourse(base, marks, runs) && n <= |marks|
    ensures Start(base, followUps).messages + In(marks[..n], followUps)
            == Out(marks[..n], followUps) + (Held(Last(marks[..n]), followUps) + QueueOf(runs[n], followUps).messages)
    ensures QueueOf(runs[n], followUps).mode == Start(base, followUps).mode
  {
    var start := Start(base, followUps).messages;
    if n == 0 {
      assert start + [] == start == [] + ([] + start);
    } else {
      Conserved(base, marks, runs, n - 1, followUps);
      Stage(base, marks, runs, n - 1);
      MarkConserves(base, runs[n - 1], marks[..n - 1], marks[n - 1], followUps);
      assert marks[..n][..n - 1] == marks[..n - 1];
      Associative(start, In(marks[..n - 1], followUps), Arrived(marks[n - 1], followUps));
      Rearranged(Out(marks[..n - 1], followUps),
                 Held(Last(marks[..n - 1]), followUps) + QueueOf(runs[n - 1], followUps).messages,
                 Arrived(marks[n - 1], followUps), Sends(marks[n - 1], followUps),
                 Held(Some(marks[n - 1]), followUps) + QueueOf(runs[n], followUps).messages);
    }
  }

  lemma Rearranged(out: seq<Message>, before: seq<Message>, arrived: seq<Message>, sent: seq<Message>, rest: seq<Message>)
    requires sent + rest == before + arrived
    ensures (out + before) + arrived == (out + sent) + rest
  {
    Associative(out, before, arrived);
    Associative(out, sent, rest);
  }

  /**
   What was queued is what was injected, in order, then what a last poll got if the script ran out there, and then what
   still waits.
   */
  lemma QueuesConserved(o: Outcome, base: Base, marks: seq<Mark>, followUps: bool)
    requires OutcomeOk(o, base, marks)
    ensures Start(base, followUps).messages + In(marks, followUps)
            == Out(marks, followUps)
               + ((if followUps == FromFollowUps(marks) then o.waiting else []) + QueueOf(o.run, followUps).messages)
  {
    var runs :| IsCourse(base, marks, runs) && runs[|marks|] == o.run;
    Conserved(base, marks, runs, |marks|, followUps);
    assert marks[..|marks|] == marks;
  }

  lemma FollowUpInjected(base: Base, r: Run, marks: seq<Mark>, m: Mark)
    requires May(base, r, marks, m) && m.Injected? && m.isFollowUp
    ensures FromFollowUps(marks) && marks[|marks| - 1].turn + 1 == m.turn && marks[|marks| - 1].got == m.queued != []
  {
  }

  lemma SteeringPolled(base: Base, r: Run, marks: seq<Mark>, m: Mark)
    requires May(base, r, marks, m) && m.Polled? && m.when.After?
    ensures JustDone(marks, m.when.turn) && m.when.turn < |base.turns| && m.when.more == MoreCalls(base.turns[m.when.turn])
    ensures m.got == [] ==> Enqueued(r.steering, m.arrived).messages == [] && Apply(base, r, m).steering.messages == []
  {
    DrainTakesPrefix(Enqueued(r.steering, m.arrived));
  }

  /**
   A follow-up is injected only after a turn whose tools want no answer, a steering poll at which no steering message was
   queued, and a poll that got that follow-up.
   */
  lemma FollowUpsLast(base: Base, marks: seq<Mark>, runs: seq<Run>, i: nat)
    requires IsCourse(base, marks, runs) && i < |marks| && marks[i].Injected? && marks[i].isFollowUp
    ensures i >= 3 && marks[i - 1].PolledFollowUps? && marks[i - 1].got == marks[i].queued != []
    ensures var turn := marks[i - 1].turn;
            && turn + 1 == marks[i].turn <= |base.turns| && !MoreCalls(base.turns[turn])
            && marks[i - 3].TurnDone? && marks[i - 3].turn == turn
            && marks[i - 2].Polled? && marks[i - 2].when == After(turn, false)
    ensures Enqueued(runs[i - 2].steering, marks[i - 2].arrived).messages == [] && runs[i].steering.messages == []
  {
    Stage(base, marks, runs, i);
    FollowUpInjected(base, runs[i], marks[..i], marks[i]);
    Stage(base, marks, runs, i - 1);
    assert NothingSteers(marks[..i - 1], marks[i - 1].turn);
    Stage(base, marks, runs, i - 2);
    SteeringPolled(base, runs[i - 2], marks[..i - 2], marks[i - 2]);
  }

  predicate OneAtATimeQueues(base: Base) {
    base.steering.mode.OneAtATime? && base.followUps.mode.OneAtATime?
  }

  /** Nothing but the request follows what was injected for it. */
  lemma InjectedIsRequested(base: Base, marks: seq<Mark>, runs: seq<Run>, k: nat)
    requires IsCourse(base, marks, runs) && k + 1 < |marks|
    ensures marks[k].Injected? <==> marks[k + 1].Requested?
  {
    Stage(base, marks, runs, k + 1);
    LastTaken(marks, k + 1);
  }

  /** An injection carries what the poll before it got, if there was one. */
  lemma InjectedIsPolled(base: Base, marks: seq<Mark>, runs: seq<Run>, j: nat)
    requires IsCourse(base, marks, runs) && j < |marks| && marks[j].Injected?
    ensures if j == 0 then marks[j].queued == []
            else (marks[j - 1].Polled? || marks[j - 1].PolledFollowUps?) && marks[j].queued == marks[j - 1].got
                 && marks[j].isFollowUp == marks[j - 1].PolledFollowUps?
  {
    Stage(base, marks, runs, j);
    LastTaken(marks, j);
  }

  /** A request after the first that carries nothing queued was made after one more steering poll, which found nothing. */
  lemma PolledAgain(base: Base, marks: seq<Mark>, runs: seq<Run>, j: nat)
    requires IsCourse(base, marks, runs) && j < |marks| && marks[j].Injected? && marks[j].turn > 0 && marks[j].queued == []
    ensures j > 0 && marks[j].turn < |base.turns|
    ensures marks[j - 1] == Polled(Before(marks[j].turn), base.turns[marks[j].turn].early, [])
    ensures runs[j].steering.messages == []
  {
    Stage(base, marks, runs, j);
    EmptyAfterPoll(base, runs[j], marks[..j], marks[j]);
    Stage(base, marks, runs, j - 1);
    ArrivalsPolled(base, marks, runs, j - 1);
    DrainTakesPrefix(Enqueued(runs[j - 1].steering, marks[j - 1].arrived));
  }

  lemma EmptyAfterPoll(base: Base, r: Run, marks: seq<Mark>, m: Mark)
    requires May(base, r, marks, m) && m.Injected? && m.turn > 0 && m.queued == []
    ensures marks != [] && marks[|marks| - 1].Polled?
    ensures marks[|marks| - 1].when == Before(m.turn) && marks[|marks| - 1].got == []
  {
  }

  /** No message the script queues is overlooked: each poll finds those that came before it. */
  lemma ArrivalsPolled(base: Base, marks: seq<Mark>, runs: seq<Run>, j: nat)
    requires IsCourse(base, marks, runs) && j < |marks|
    ensures marks[j].Polled? ==>
              match marks[j].when
              case AtStart => marks[j].arrived == base.arrivals
              case Before(i) => 0 < i < |base.turns| && marks[j].arrived == base.turns[i].early
              case After(i, _) => i < |base.turns| && marks[j].arrived == base.turns[i].late
    ensures marks[j].PolledFollowUps? ==>
              marks[j].turn < |base.turns| && marks[j].arrived == base.turns[marks[j].turn].followUps
  {
    Stage(base, marks, runs, j);
  }

  lemma PolledByMode(base: Base, marks: seq<Mark>, runs: seq<Run>, j: nat)
    requires IsCourse(base, marks, runs) && j < |marks| && OneAtATimeQueues(base)
    requires marks[j].Polled? || marks[j].PolledFollowUps?
    ensures |marks[j].got| <= 1
  {
    Stage(base, marks, runs, j);
    Conserved(base, marks, runs, j, marks[j].PolledFollowUps?);
  }

  /**
   In mode `All` a poll leaves nothing queued; one at a time it takes one message of any that are queued. What it takes
   is the front of what was queued by then.
   */
  lemma PollsByMode(base: Base, marks: seq<Mark>, runs: seq<Run>, j: nat)
    requires IsCourse(base, marks, runs) && j < |marks| && (marks[j].Polled? || marks[j].PolledFollowUps?)
    ensures var followUps := marks[j].PolledFollowUps?;
            var queued, rest := QueueOf(runs[j], followUps).messages + marks[j].arrived, QueueOf(runs[j + 1], followUps).messages;
            && marks[j].got + rest == queued
            && (Start(base, followUps).mode.All? ==> rest == [])
            && (Start(base, followUps).mode.OneAtATime? ==> |marks[j].got| == if queued == [] then 0 else 1)
  {
    var followUps := marks[j].PolledFollowUps?;
    Stage(base, marks, runs, j);
    Conserved(base, marks, runs, j, followUps);
    DrainTakesPrefix(Enqueued(QueueOf(runs[j], followUps), marks[j].arrived));
  }

  /** In mode `All` an injection carries everything that was queued at the poll before it. */
  lemma AllInjected(base: Base, marks: seq<Mark>, runs: seq<Run>, j: nat)
    requires IsCourse(base, marks, runs) && 0 < j < |marks| && marks[j].Injected?
    requires Start(base, marks[j].isFollowUp).mode.All?
    ensures marks[j].isFollowUp == marks[j - 1].PolledFollowUps? && (marks[j - 1].Polled? || marks[j - 1].PolledFollowUps?)
    ensures marks[j].queued == QueueOf(runs[j - 1], marks[j].isFollowUp).messages + marks[j - 1].arrived
    ensures QueueOf(runs[j], marks[j].isFollowUp).messages == []
  {
    InjectedIsPolled(base, marks, runs, j);
    PollsByMode(base, marks, runs, j - 1);
    assert marks[j - 1].got + [] == marks[j - 1].got;
  }

  /** Between two requests there is one injection, of at most one queued message in one-at-a-time mode. */
  lemma OneInjectionBetweenRequests(base: Base, marks: seq<Mark>, runs: seq<Run>, i: nat, j: nat)
    requires IsCourse(base, marks, runs) && i < j < |marks| && marks[i].Requested? && marks[j].Requested?
    requires forall k :: i < k < j ==> !marks[k].Requested?
    ensures i < j - 1 && marks[j - 1].Injected? && (OneAtATimeQueues(base) ==> |marks[j - 1].queued| <= 1)
    ensures forall k :: i < k < j - 1 ==> !marks[k].Injected?
  {
    InjectedIsRequested(base, marks, runs, j - 1);
    InjectedIsPolled(base, marks, runs, j - 1);
    if OneAtATimeQueues(base) && j > 1 {
      PolledByMode(base, marks, runs, j - 2);
    }
    forall k | i < k < j - 1 ensures !marks[k].Injected? {
      InjectedIsRequested(base, marks, runs, k);
    }
  }

  /** The queued messages the first request of a run carries: none if the first poll is skipped. */
  function FirstQueued(base: Base): seq<Message> {
    if base.skipPoll then [] else Peek(Enqueued(base.steering, base.arrivals))
  }

  /** The first poll gets what the queue's mode says of all that is queued by then, and the first request carries it. */
  lemma FirstInjection(base: Base, marks: seq<Mark>, runs: seq<Run>, i: nat)
    requires IsCourse(base, marks, runs) && i < |marks| && marks[i].Injected?
    requires forall k :: 0 <= k < i ==> !marks[k].Injected?
    ensures marks[i].queued == FirstQueued(base) && !marks[i].isFollowUp && i == (if base.skipPoll then 0 else 1)
  {
    Stage(base, marks, runs, 0);
    LastTaken(marks, 0);
    if i > 0 {
      Stage(base, marks, runs, 1);
      LastTaken(marks, 1);
    }
  }

  /** A run that took a turn has made its first injection. */
  lemma TurnInjects(o: Outcome, base: Base, marks: seq<Mark>)
    requires OutcomeOk(o, base, marks) && !base.skipPoll && base.turns != []
    ensures |marks| > 1 && marks[1].Injected? && marks[1].queued == FirstQueued(base)
  {
    MoreThanPolled(o, base, marks);
    var runs :| IsCourse(base, marks, runs) && runs[|marks|] == o.run;
    InjectsNext(base, marks, runs);
    FirstInjection(base, marks, runs, 1);
  }

  /** Such a run did more than poll. */
  lemma MoreThanPolled(o: Outcome, base: Base, marks: seq<Mark>)
    requires OutcomeOk(o, base, marks) && !base.skipPoll && base.turns != []
    ensures |marks| > 1
  {
    OutcomeTaken(o, base, marks);
    var runs :| IsCourse(base, marks, runs) && runs[|marks|] == o.run;
    FirstMark(base, marks, runs);
  }

  lemma FirstMark(base: Base, marks: seq<Mark>, runs: seq<Run>)
    requires IsCourse(base, marks, runs) && marks != []
    ensures !base.skipPoll ==> marks[0].Polled? && marks[0].when.AtStart?
  {
    Stage(base, marks, runs, 0);
    assert marks[..0] == [];
    if !base.skipPoll {
      NoneBefore(base, runs[0], marks[0]);
    }
  }

  lemma NoneBefore(base: Base, r: Run, m: Mark)
    requires May(base, r, [], m) && !base.skipPoll
    ensures m.Polled? && m.when.AtStart?
  {
  }

  lemma InjectsNext(base: Base, marks: seq<Mark>, runs: seq<Run>)
    requires IsCourse(base, marks, runs) && !base.skipPoll && |marks| > 1
    ensures marks[0].Polled? && marks[1].Injected?
  {
    FirstMark(base, marks, runs);
    Stage(base, marks, runs, 1);
    AfterFirstPoll(base, runs[1], marks[..1], marks[1]);
  }

  lemma AfterFirstPoll(base: Base, r: Run, marks: seq<Mark>, m: Mark)
    requires May(base, r, marks, m) && marks != [] && marks[|marks| - 1].Polled? && marks[|marks| - 1].when.AtStart?
    ensures m.Injected?
  {
  }

  // ----- Requests -----

  /** The transcript declares every tool as it runs, and no other. */
  ghost predicate DeclaresTools(context: Context) {
    forall n :: Declaration(CurrentTools(context.messages), n) == RunsAs(context.tools, n)
  }

  lemma RequestDeclares(context: Context, pending: seq<Message>)
    ensures var after := WithMessages(context, Declare(context, pending)); Unique(after.tools) ==> DeclaresTools(after)
  {
    if Unique(context.tools) {
      forall n {
        DistinctToolsReplay(context, pending, n);
      }
    }
  }

  /** Every request is made from a context that declares its tools, before `prepareRequest` replaces it. */
  lemma RequestsDeclare(base: Base, marks: seq<Mark>, runs: seq<Run>, i: nat)
    requires IsCourse(base, marks, runs) && i < |marks| && marks[i].Requested? && Unique(marks[i].context.tools)
    ensures DeclaresTools(marks[i].context)
    ensures Declares(CurrentTools(marks[i].context.messages), marks[i].context.tools)
  {
    Stage(base, marks, runs, i);
    LastTaken(marks, i);
    Stage(base, marks, runs, i - 1);
    var m := marks[i - 1];
    RequestDeclares(Prepared(base, runs[i - 1].context, m.turn), PreparedMessages(base, m.turn) + m.queued);
    OwnNamesUnique(marks[i].context.tools);
    ToolsDeclared(Prepared(base, runs[i - 1].context, m.turn), PreparedMessages(base, m.turn) + m.queued);
  }

  predicate SameButTools(a: Message, b: Message) {
    a == b || (a.System? && b.System? && a.content == b.content)
  }

  /** `declared` ends with the queued messages, in order, but for the tools a system message declares. */
  ghost predicate EndsWith(declared: seq<Message>, queued: seq<Message>) {
    && |queued| <= |declared|
    && forall i, j :: 0 <= i < |queued| && j == |declared| - |queued| + i ==> SameButTools(declared[j], queued[i])
  }

  lemma SameAfterFirst(declared: seq<Message>, queued: seq<Message>)
    requires declared != [] && declared[1..] == queued
    ensures EndsWith(declared, queued)
  {
    forall i, j | 0 <= i < |queued| && j == 1 + i ensures declared[j] == queued[i] {
      assert declared[j] == declared[1..][i];
    }
  }

  /** Declaring tools does not lose, change or reorder pending messages. */
  lemma DeclareCarries(context: Context, pending: seq<Message>)
    ensures EndsWith(Declare(context, pending), pending)
  {
    var declared := Declare(context, pending);
    OthersUnchanged(context, pending);
    if LastSystem(pending) < 0 && declared != pending {
      SameAfterFirst(declared, pending);
    }
  }

  /** Every injection ends with what the hook prepared and then what was queued. */
  lemma InjectionsCarry(base: Base, marks: seq<Mark>, runs: seq<Run>, i: nat)
    requires IsCourse(base, marks, runs) && i < |marks| && marks[i].Injected?
    ensures marks[i].turn < |base.turns|
    ensures EndsWith(marks[i].declared,
                     (if marks[i].turn > 0 then base.turns[marks[i].turn].prepared else []) + marks[i].queued)
  {
    Stage(base, marks, runs, i);
    DeclareCarries(Prepared(base, runs[i].context, marks[i].turn), PreparedMessages(base, marks[i].turn) + marks[i].queued);
  }

  // ----- What a turn comes to -----

  predicate StopsShort(t: Turn) {
    t.final.stop == StopReason.Error || t.final.stop == StopReason.Aborted
  }

  /**
   The results of a turn: none after a failed response; an error for every call of a truncated one; else what the tools
   gave, up to an abort. Its tools want an answer exactly if some result does not ask to end the run.
   */
  lemma TurnAnswers(t: Turn)
    ensures StopsShort(t) ==> ResultsOf(t) == [] && ToolEvents(t) == [] && !MoreCalls(t)
    ensures t.final.stop.Length? ==>
              && |ResultsOf(t)| == |t.final.calls| && (MoreCalls(t) <==> t.final.calls != [])
              && forall i :: 0 <= i < |t.final.calls| ==>
                   var m := ResultsOf(t)[i];
                   && m.ToolResult? && m.callId == t.final.calls[i].id && m.toolName == t.final.calls[i].name
                   && m.result.isError && !m.result.terminate
    ensures t.final.calls != [] && !StopsShort(t) && !t.final.stop.Length? ==>
              var n := |ResultsOf(t)|;
              && 0 < n <= |t.final.calls| == |t.outcomes|
              && (forall i :: 0 <= i < n ==>
                    ResultsOf(t)[i] == ToolResult(t.final.calls[i].id, t.final.calls[i].name, t.outcomes[i].result))
              && (n < |t.final.calls| ==> t.outcomes[n - 1].aborted) && (forall i :: 0 <= i < n - 1 ==> !t.outcomes[i].aborted)
              && (MoreCalls(t) <==> exists i :: 0 <= i < n && !t.outcomes[i].result.terminate)
    ensures t.final.calls == [] ==> ResultsOf(t) == [] && ToolEvents(t) == [] && !MoreCalls(t)
  {
    if !StopsShort(t) {
      ResultsAnswerPrefix(t.final.calls, OutcomesOf(t));
      if t.final.stop.Length? {
        TruncatedAnswersAll(t.final.calls);
      } else if t.final.calls != [] {
        StopsAtAbort(t.final.calls, t.outcomes);
        if MoreCalls(t) {
          var i :| 0 <= i < |ResultsOf(t)| && !(ResultsOf(t)[i].ToolResult? && ResultsOf(t)[i].result.terminate);
          assert !t.outcomes[i].result.terminate;
        }
      }
    }
  }

  /** No result follows one at which the run was aborted. */
  lemma {:induction false} StopsAtAbort(calls: seq<ToolCall>, outcomes: seq<CallOutcome>)
    requires |calls| == |outcomes|
    ensures |Results(calls, outcomes)| <= |outcomes|
    ensures forall i :: 0 <= i < |Results(calls, outcomes)| - 1 ==> !outcomes[i].aborted
  {
    ResultsAnswerPrefix(calls, outcomes);
    if calls != [] && !outcomes[0].aborted {
      StopsAtAbort(calls[1..], outcomes[1..]);
      forall i | 0 < i < |Results(calls, outcomes)| - 1 ensures !outcomes[i].aborted {
        assert outcomes[i] == outcomes[1..][i - 1];
      }
    }
  }

  /** A turn leaves its response and its results, and they are what is said of it when it ends. */
  lemma TurnLeaves(base: Base, marks: seq<Mark>, runs: seq<Run>, i: nat)
    requires IsCourse(base, marks, runs) && i < |marks| && marks[i].TurnDone?
    ensures marks[i].turn < |base.turns|
    ensures var t := base.turns[marks[i].turn];
            && marks[i].messages == [t.final] + ResultsOf(t)
            && runs[i + 1].events == runs[i].events + (StreamEvents(t.stream, false, t.final) + ToolEvents(t)
                                                       + [TurnEnd(t.final, ResultsOf(t))])
  {
    Stage(base, marks, runs, i);
  }

  /** A failed response ends the run at once, and so does a decision: nothing is polled any more. */
  lemma FailureEnds(o: Outcome, base: Base, marks: seq<Mark>, i: nat)
    requires OutcomeOk(o, base, marks) && i < |marks| && marks[i].TurnDone?
    ensures marks[i].turn < |base.turns|
    ensures StopsShort(base.turns[marks[i].turn]) || base.turns[marks[i].turn].decision.End? ==>
              && o.finished && o.used == marks[i].turn + 1
              && |marks| == i + 2 && marks[i + 1] == Stopped(marks[i].turn)
    ensures StopsShort(base.turns[marks[i].turn]) ==> marks[i].messages == [base.turns[marks[i].turn].final]
  {
    var runs :| IsCourse(base, marks, runs) && runs[|marks|] == o.run;
    Stage(base, marks, runs, i);
    var t := base.turns[marks[i].turn];
    if StopsShort(t) || t.decision.End? {
      if i + 1 < |marks| {
        Stage(base, marks, runs, i + 1);
        LastTaken(marks, i + 1);
        AfterTurn(base, runs[i + 1], marks[..i + 1], marks[i + 1]);
        NothingAfterStop(base, marks, runs, i + 1);
      }
    }
  }

  /** After any other turn steering is polled, and nothing else. */
  lemma OtherwisePolled(base: Base, marks: seq<Mark>, runs: seq<Run>, i: nat)
    requires IsCourse(base, marks, runs) && i + 1 < |marks| && marks[i].TurnDone?
    ensures marks[i].turn < |base.turns|
    ensures !StopsShort(base.turns[marks[i].turn]) && !base.turns[marks[i].turn].decision.End? ==>
              marks[i + 1].Polled? && marks[i + 1].when == After(marks[i].turn, MoreCalls(base.turns[marks[i].turn]))
  {
    Stage(base, marks, runs, i + 1);
    LastTaken(marks, i + 1);
    AfterTurn(base, runs[i + 1], marks[..i + 1], marks[i + 1]);
  }

  // ----- From one request to the next -----

  lemma AfterRequest(base: Base, r: Run, marks: seq<Mark>, m: Mark)
    requires May(base, r, marks, m) && marks != []
    ensures marks[|marks| - 1].Requested? <==> m.TurnDone?
    ensures marks[|marks| - 1].Requested? ==> m.turn == marks[|marks| - 1].turn
  {
  }

  lemma PollsKeepContext(base: Base, r: Run, m: Mark)
    requires !m.Injected? && !m.Requested? && !m.TurnDone?
    ensures Apply(base, r, m).context == r.context
  {
  }

  /** Between a turn and the next injection nothing changes the context. */
  lemma {:induction false} ContextKept(base: Base, marks: seq<Mark>, runs: seq<Run>, i: nat, k: nat)
    requires IsCourse(base, marks, runs) && i <= k <= |marks|
    requires forall j :: i <= j < k ==> !marks[j].Injected? && !marks[j].Requested? && !marks[j].TurnDone?
    ensures runs[k].context == runs[i].context
    decreases k
  {
    if i < k {
      ContextKept(base, marks, runs, i, k - 1);
      Stage(base, marks, runs, k - 1);
      PollsKeepContext(base, runs[k - 1], marks[k - 1]);
    }
  }

  /** The context a request is made from: its turn's, if the hook gave one, else the run's, and then what is injected. */
  lemma RequestFrom(base: Base, marks: seq<Mark>, runs: seq<Run>, j: nat)
    requires IsCourse(base, marks, runs) && j < |marks| && marks[j].Requested?
    ensures j > 0 && marks[j - 1].Injected? && marks[j - 1].turn == marks[j].turn < |base.turns|
    ensures var u := base.turns[marks[j].turn];
            var c := if marks[j].turn > 0 && u.preparedContext.Some? then u.preparedContext.value else runs[j - 1].context;
            marks[j].context == Context(c.messages + marks[j - 1].declared, c.tools)
    ensures runs[j + 1].context
            == if base.turns[marks[j].turn].requestContext.Some? then base.turns[marks[j].turn].requestContext.value
               else marks[j].context
  {
    Stage(base, marks, runs, j);
    LastTaken(marks, j);
    Stage(base, marks, runs, j - 1);
  }

  lemma FirstRequestFrom(base: Base, marks: seq<Mark>, runs: seq<Run>, j: nat)
    requires IsCourse(base, marks, runs) && j < |marks| && marks[j].Requested?
    requires forall k :: 0 <= k < j ==> !marks[k].Requested?
    ensures j > 0 && marks[j].turn == 0 && marks[j - 1].Injected?
    ensures marks[j].context == Context(base.before + base.prompts + marks[j - 1].declared, base.tools)
  {
    RequestFrom(base, marks, runs, j);
    forall k | 0 <= k < j - 1 ensures !marks[k].Injected? {
      InjectedIsRequested(base, marks, runs, k);
    }
    FirstInjection(base, marks, runs, j - 1);
    Stage(base, marks, runs, j - 1);
    FirstIsZero(base, marks, runs, j - 1);
    if j > 1 {
      Stage(base, marks, runs, 0);
      LastTaken(marks, 0);
      PollsKeepContext(base, runs[0], marks[0]);
    }
  }

  lemma FirstIsZero(base: Base, marks: seq<Mark>, runs: seq<Run>, i: nat)
    requires IsCourse(base, marks, runs) && i < |marks| && i == (if base.skipPoll then 0 else 1) && marks[i].Injected?
    ensures marks[i].turn == 0 && (i > 0 ==> marks[0].Polled?)
  {
    Stage(base, marks, runs, i);
    if i > 0 {
      FirstMark(base, marks, runs);
    }
  }

  /**
   Each request sees what the one before it saw, or what `prepareRequest` put in its place, then that request's response
   and results, unless `prepareNextTurn` gives another context, and then what is injected.
   */
  lemma RequestsChain(base: Base, marks: seq<Mark>, runs: seq<Run>, i: nat, j: nat)
    requires IsCourse(base, marks, runs) && i < j < |marks| && marks[i].Requested? && marks[j].Requested?
    requires forall k :: i < k < j ==> !marks[k].Requested?
    ensures i + 2 < j && marks[j - 1].Injected? && marks[j].turn == marks[i].turn + 1 < |base.turns|
    ensures var t, u := base.turns[marks[i].turn], base.turns[marks[j].turn];
            var answered := if t.requestContext.Some? then t.requestContext.value else marks[i].context;
            var c := if u.preparedContext.Some? then u.preparedContext.value
                     else Context(answered.messages + ([t.final] + ResultsOf(t)), answered.tools);
            marks[j].context == Context(c.messages + marks[j - 1].declared, c.tools)
  {
    RequestFrom(base, marks, runs, i);
    RequestFrom(base, marks, runs, j);
    OneInjectionBetweenRequests(base, marks, runs, i, j);
    DoneNext(base, marks, runs, i);
    forall k | i + 2 <= k < j ensures !marks[k].TurnDone? {
      Stage(base, marks, runs, k);
      LastTaken(marks, k);
      AfterRequest(base, runs[k], marks[..k], marks[k]);
    }
    assert i + 1 < j - 1;
    ContextKept(base, marks, runs, i + 2, j - 1);
    TurnsBetween(base, marks, runs, i, j);
  }

  lemma DoneNext(base: Base, marks: seq<Mark>, runs: seq<Run>, i: nat)
    requires IsCourse(base, marks, runs) && i + 1 < |marks| && marks[i].Requested?
    ensures marks[i + 1].TurnDone? && marks[i + 1].turn == marks[i].turn < |base.turns|
    ensures var t := base.turns[marks[i].turn];
            runs[i + 2].context == Context(runs[i + 1].context.messages + ([t.final] + ResultsOf(t)), runs[i + 1].context.tools)
  {
    Stage(base, marks, runs, i + 1);
    LastTaken(marks, i + 1);
    AfterRequest(base, runs[i + 1], marks[..i + 1], marks[i + 1]);
  }

  /** One turn is done between consecutive requests. */
  lemma TurnsBetween(base: Base, marks: seq<Mark>, runs: seq<Run>, i: nat, j: nat)
    requires IsCourse(base, marks, runs) && i + 1 < j < |marks| && marks[i].Requested? && marks[j].Requested?
    requires marks[i + 1].TurnDone? && marks[i + 1].turn == marks[i].turn
    requires forall k :: i + 2 <= k < j ==> !marks[k].TurnDone?
    ensures marks[j].turn == marks[i].turn + 1
  {
    TakenKept(base, marks, runs, i + 1, j);
  }

  lemma {:induction false} TakenKept(base: Base, marks: seq<Mark>, runs: seq<Run>, i: nat, j: nat)
    requires IsCourse(base, marks, runs) && i <= j < |marks| && forall k :: i < k <= j ==> !marks[k].TurnDone?
    ensures Taken(marks[j]) == Taken(marks[i])
    decreases j
  {
    if i < j {
      TakenKept(base, marks, runs, i, j - 1);
      Stage(base, marks, runs, j);
      LastTaken(marks, j);
      TakenStep(base, runs[j], marks[..j], marks[j]);
    }
  }

  // ----- When a run goes on -----

  /**
   Something asks for a turn after the one done at `i`: it neither failed nor was told to end the run, and its tools want
   an answer, or steering was queued by the poll after it, or a follow-up by the poll after that, or it asked itself.
   */
  predicate Resumes(base: Base, marks: seq<Mark>, i: nat)
    requires i < |marks| && marks[i].TurnDone? && marks[i].turn < |base.turns|
  {
    var t := base.turns[marks[i].turn];
    && !EndsRun(t) && i + 1 < |marks| && marks[i + 1].Polled?
    && (MoreCalls(t) || marks[i + 1].got != []
        || (i + 2 < |marks| && marks[i + 2].PolledFollowUps? && (marks[i + 2].got != [] || t.decision.Continue?)))
  }

  /** After a turn that ends the run comes the end, and after any other a steering poll. */
  lemma AfterTurn(base: Base, r: Run, marks: seq<Mark>, m: Mark)
    requires May(base, r, marks, m) && marks != [] && marks[|marks| - 1].TurnDone?
    ensures marks[|marks| - 1].turn < |base.turns|
    ensures var turn := marks[|marks| - 1].turn;
            if EndsRun(base.turns[turn]) then m == Stopped(turn)
            else m.Polled? && m.when == After(turn, MoreCalls(base.turns[turn]))
  {
  }

  /** A poll after a turn is followed by the next turn, or by a follow-up poll if nothing asks for one. */
  lemma AfterSteering(base: Base, r: Run, marks: seq<Mark>, m: Mark)
    requires May(base, r, marks, m) && marks != [] && marks[|marks| - 1].Polled? && marks[|marks| - 1].when.After?
    ensures var p := marks[|marks| - 1];
            if p.when.more || p.got != [] then m.Injected? || (m.Polled? && m.when.Before?)
            else m.PolledFollowUps? && m.turn == p.when.turn < |base.turns|
                 && m.again == base.turns[m.turn].decision.Continue?
  {
  }

  lemma AfterFollowUps(base: Base, r: Run, marks: seq<Mark>, m: Mark)
    requires May(base, r, marks, m) && marks != [] && marks[|marks| - 1].PolledFollowUps?
    ensures var p := marks[|marks| - 1];
            if p.again || p.got != [] then m.Injected? || (m.Polled? && m.when.Before?) else m == Stopped(p.turn)
  {
  }

  lemma NothingAfterStop(base: Base, marks: seq<Mark>, runs: seq<Run>, i: nat)
    requires IsCourse(base, marks, runs) && i < |marks| && marks[i].Stopped?
    ensures i == |marks| - 1
  {
    if i + 1 < |marks| {
      Stage(base, marks, runs, i + 1);
      LastTaken(marks, i + 1);
      NoneAfterStop(base, runs[i + 1], marks[..i + 1], marks[i + 1]);
    }
  }

  lemma NoneAfterStop(base: Base, r: Run, marks: seq<Mark>, m: Mark)
    requires marks != [] && marks[|marks| - 1].Stopped?
    ensures !May(base, r, marks, m)
  {
  }

  /** The turn of a mark is one the script has. */
  lemma TurnInScript(base: Base, marks: seq<Mark>, runs: seq<Run>, i: nat)
    requires IsCourse(base, marks, runs) && i < |marks| && marks[i].TurnDone?
    ensures marks[i].turn < |base.turns|
  {
    Stage(base, marks, runs, i);
  }

  /** The run is at its end, or near it: turn `turn` is its last. */
  ghost predicate LastIs(base: Base, marks: seq<Mark>, turn: nat) {
    marks != [] && Taken(marks[|marks| - 1]) == turn + 1 && Waiting(base, marks).None?
  }

  lemma StopsAfterFollowUps(base: Base, marks: seq<Mark>, runs: seq<Run>, i: nat)
    requires IsCourse(base, marks, runs) && i < |marks| && marks[i].PolledFollowUps?
    requires !marks[i].again && marks[i].got == []
    ensures LastIs(base, marks, marks[i].turn)
  {
    if i + 1 < |marks| {
      Stage(base, marks, runs, i + 1);
      AfterFollowUps(base, runs[i + 1], marks[..i + 1], marks[i + 1]);
      NothingAfterStop(base, marks, runs, i + 1);
    }
  }

  lemma StopsAfterSteering(base: Base, marks: seq<Mark>, runs: seq<Run>, i: nat)
    requires IsCourse(base, marks, runs) && i < |marks| && marks[i].Polled? && marks[i].when.After?
    requires !marks[i].when.more && marks[i].got == []
    requires i + 1 < |marks| && marks[i + 1].PolledFollowUps? ==> !marks[i + 1].again && marks[i + 1].got == []
    ensures LastIs(base, marks, marks[i].when.turn)
  {
    if i + 1 < |marks| {
      Stage(base, marks, runs, i + 1);
      AfterSteering(base, runs[i + 1], marks[..i + 1], marks[i + 1]);
      StopsAfterFollowUps(base, marks, runs, i + 1);
    }
  }

  lemma FollowUpsDecide(base: Base, marks: seq<Mark>, runs: seq<Run>, i: nat, turn: nat)
    requires IsCourse(base, marks, runs) && 0 < i <= |marks| && marks[i - 1].Polled? && turn < |base.turns|
    requires marks[i - 1].when.After? && marks[i - 1].when.turn == turn
    ensures i < |marks| && marks[i].PolledFollowUps? ==> marks[i].again == base.turns[turn].decision.Continue?
  {
    if i < |marks| && marks[i].PolledFollowUps? {
      Stage(base, marks, runs, i);
      LastTaken(marks, i);
      FollowUpsPolled(base, runs[i], marks[..i], marks[i]);
    }
  }

  /** If nothing resumes, the run comes to its end within two polls, and takes no other turn. */
  lemma StopsUnlessResumed(base: Base, marks: seq<Mark>, runs: seq<Run>, i: nat)
    requires IsCourse(base, marks, runs) && i < |marks| && marks[i].TurnDone? && marks[i].turn < |base.turns|
    requires !Resumes(base, marks, i)
    ensures LastIs(base, marks, marks[i].turn)
  {
    if i + 1 < |marks| {
      Stage(base, marks, runs, i + 1);
      AfterTurn(base, runs[i + 1], marks[..i + 1], marks[i + 1]);
      if marks[i + 1].Stopped? {
        NothingAfterStop(base, marks, runs, i + 1);
      } else {
        FollowUpsDecide(base, marks, runs, i + 2, marks[i].turn);
        StopsAfterSteering(base, marks, runs, i + 1);
      }
    }
  }

  /** The end follows the last turn, or the two polls after it. */
  lemma StopsWhere(base: Base, marks: seq<Mark>, runs: seq<Run>, i: nat)
    requires IsCourse(base, marks, runs) && i < |marks| && marks[i].TurnDone? && marks[i].turn < |base.turns|
    requires Last(marks) == Some(Stopped(marks[i].turn))
    ensures !Resumes(base, marks, i)
  {
    var k := |marks| - 1;
    Stage(base, marks, runs, k);
    LastTaken(marks, k);
    if JustDone(marks[..k], marks[k].turn) {
      OneTurnDone(base, marks, runs, i, k - 1);
    } else {
      assert NothingFollows(marks[..k], marks[k].turn);
      Stage(base, marks, runs, k - 1);
      assert NothingSteers(marks[..k - 1], marks[k].turn);
      Stage(base, marks, runs, k - 2);
      SteeringPolled(base, runs[k - 2], marks[..k - 2], marks[k - 2]);
      OneTurnDone(base, marks, runs, i, k - 3);
    }
  }

  /** A turn is done once. */
  lemma OneTurnDone(base: Base, marks: seq<Mark>, runs: seq<Run>, i: nat, j: nat)
    requires IsCourse(base, marks, runs) && i < |marks| && j < |marks|
    requires marks[i].TurnDone? && marks[j].TurnDone? && marks[i].turn == marks[j].turn
    ensures i == j
  {
    if i < j {
      TakenGrows(base, marks, runs, i, j);
    } else if j < i {
      TakenGrows(base, marks, runs, j, i);
    }
  }

  lemma OutcomeTaken(o: Outcome, base: Base, marks: seq<Mark>)
    requires OutcomeOk(o, base, marks)
    ensures o.used > 0 ==> marks != [] && Taken(marks[|marks| - 1]) == o.used
    ensures marks != [] ==> Taken(marks[|marks| - 1]) == o.used
  {
  }

  /**
   A run takes another turn after a turn exactly if something asks for one: all of its turns but the last resume, and the
   last resumes exactly if the run is not finished, but waits for a turn that its script does not have.
   */
  lemma GoesOnExactly(o: Outcome, base: Base, marks: seq<Mark>, i: nat)
    requires OutcomeOk(o, base, marks) && i < |marks| && marks[i].TurnDone?
    ensures marks[i].turn < o.used <= |base.turns|
    ensures Resumes(base, marks, i) <==> marks[i].turn + 1 < o.used || !o.finished
  {
    var runs :| IsCourse(base, marks, runs) && runs[|marks|] == o.run;
    TurnInScript(base, marks, runs, i);
    TakenGrows(base, marks, runs, i, |marks| - 1);
    OutcomeTaken(o, base, marks);
    if Last(marks) == Some(Stopped(marks[i].turn)) {
      StopsWhere(base, marks, runs, i);
    }
    if !Resumes(base, marks, i) {
      StopsUnlessResumed(base, marks, runs, i);
    }
  }

  /**
   A run that ends by itself, not for a failure or a decision, leaves nothing to do: the last turn wants no answer and no
   other turn, and both queues are empty.
   */
  lemma EndsIdle(o: Outcome, base: Base, marks: seq<Mark>)
    requires OutcomeOk(o, base, marks) && o.finished && !EndsRun(base.turns[o.used - 1])
    ensures !MoreCalls(base.turns[o.used - 1]) && base.turns[o.used - 1].decision.Default?
    ensures o.run.steering.messages == [] && o.run.followUps.messages == []
  {
    var runs :| IsCourse(base, marks, runs) && runs[|marks|] == o.run;
    var k, turn := |marks| - 1, o.used - 1;
    Stage(base, marks, runs, k);
    assert NothingFollows(marks[..k], turn);
    Stage(base, marks, runs, k - 1);
    FollowUpsPolled(base, runs[k - 1], marks[..k - 1], marks[k - 1]);
    Stage(base, marks, runs, k - 2);
    SteeringPolled(base, runs[k - 2], marks[..k - 2], marks[k - 2]);
  }

  lemma FollowUpsPolled(base: Base, r: Run, marks: seq<Mark>, m: Mark)
    requires May(base, r, marks, m) && m.PolledFollowUps?
    ensures NothingSteers(marks, m.turn) && m.turn < |base.turns| && m.again == base.turns[m.turn].decision.Continue?
    ensures m.got == [] ==> Apply(base, r, m).followUps.messages == []
  {
    DrainTakesPrefix(Enqueued(r.followUps, m.arrived));
  }

  // ----- Runs are determined -----

  /** At most one mark may come next. */
  lemma OneNext(base: Base, r: Run, marks: seq<Mark>, a: Mark, b: Mark)
    requires May(base, r, marks, a) && May(base, r, marks, b)
    ensures a == b
  {
    match Last(marks) {
      case None =>
      case Some(Polled(_, _, _)) => OneAfterPoll(base, r, marks, a, b);
      case Some(PolledFollowUps(_, _, _, _)) => OneAfterPoll(base, r, marks, a, b);
      case Some(_) =>
    }
  }

  lemma OneAfterPoll(base: Base, r: Run, marks: seq<Mark>, a: Mark, b: Mark)
    requires May(base, r, marks, a) && May(base, r, marks, b)
    requires marks != [] && (marks[|marks| - 1].Polled? || marks[|marks| - 1].PolledFollowUps?)
    ensures a == b
  {
    assert a.Injected? == b.Injected?;
  }

  lemma {:induction false} SamePrefix(base: Base, a: seq<Mark>, ra: seq<Run>, b: seq<Mark>, rb: seq<Run>, n: nat)
    requires IsCourse(base, a, ra) && IsCourse(base, b, rb) && n <= |a| && n <= |b|
    ensures a[..n] == b[..n] && ra[n] == rb[n]
  {
    if n > 0 {
      SamePrefix(base, a, ra, b, rb, n - 1);
      Stage(base, a, ra, n - 1);
      Stage(base, b, rb, n - 1);
      OneNext(base, ra[n - 1], a[..n - 1], a[n - 1], b[n - 1]);
      assert a[..n] == a[..n - 1] + [a[n - 1]] && b[..n] == b[..n - 1] + [b[n - 1]];
    }
  }

  /** No mark follows those of an outcome. */
  lemma NothingMore(o: Outcome, base: Base, marks: seq<Mark>, r: Run, m: Mark)
    requires OutcomeOk(o, base, marks)
    ensures !May(base, r, marks, m)
  {
  }

  lemma NotLonger(o: Outcome, base: Base, a: seq<Mark>, ra: seq<Run>, b: seq<Mark>, rb: seq<Run>)
    requires OutcomeOk(o, base, a) && IsCourse(base, a, ra) && IsCourse(base, b, rb)
    ensures |b| <= |a|
  {
    if |a| < |b| {
      SamePrefix(base, a, ra, b, rb, |a|);
      Stage(base, b, rb, |a|);
      assert a[..|a|] == a;
      NothingMore(o, base, a, rb[|a|], b[|a|]);
    }
  }

  /** What a run begins with and its script determine it: its marks, its messages, events and queues, and whether it ends. */
  lemma RunDetermined(base: Base, o: Outcome, a: seq<Mark>, p: Outcome, b: seq<Mark>)
    requires OutcomeOk(o, base, a) && OutcomeOk(p, base, b)
    ensures a == b && o == p
  {
    var ra :| IsCourse(base, a, ra) && ra[|a|] == o.run;
    var rb :| IsCourse(base, b, rb) && rb[|b|] == p.run;
    NotLonger(o, base, a, ra, b, rb);
    NotLonger(p, base, b, rb, a, ra);
    SamePrefix(base, a, ra, b, rb, |a|);
    assert a[..|a|] == a && b[..|b|] == b;
  }
}
