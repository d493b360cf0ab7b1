/**
 The events of an agent run: the grammar they follow, and the reducer of packages/agent/src/agent.ts that keeps the
 agent's own transcript from them. The loop keeps another transcript; the two agree because of the grammar.
 */
module AgentEvents {
  import opened Transcript

  datatype Event =
    | AgentStart
    | AgentEnd(messages: seq<Message>)
    | TurnStart
    | TurnEnd(message: Message, results: seq<Message>)
    | MessageStart(started: Message)
    | MessageUpdate(update: Message)
    | MessageEnd(ended: Message)
    | ToolStart(id: string)
    | ToolUpdate(id: string)
    | ToolEnd(id: string)

  // ----- The grammar -----

  datatype Phase = Idle | Between | InTurn | Over

  /** Where a trace stands: `turns` are complete turns, `ended` the messages of this turn, `all` those of the run. */
  datatype State = State(phase: Phase, turns: nat, open: bool, running: multiset<string>,
                         ended: seq<Message>, all: seq<Message>)

  const INITIAL: State := State(Idle, 0, false, multiset{}, [], [])

  /** A message or a turn may be closed, and no tool runs. */
  predicate Quiet(s: State) {
    s.phase.InTurn? && !s.open && s.running == multiset{}
  }

  function Ended(s: State, messages: seq<Message>): State {
    s.(ended := s.ended + messages, all := s.all + messages)
  }

  /**
   Runs are `agent_start`, one or more turns, `agent_end`. Messages do not nest and none starts while a tool runs;
   tools end exactly as often as they start; a turn ends with its assistant message and the tool results that
   follow it; the run ends with every message of it.
   */
  function Step(s: State, e: Event): Option<State> {
    match e
    case AgentStart => if s.phase.Idle? then Some(s.(phase := Between)) else None
    case TurnStart => if s.phase.Between? then Some(s.(phase := InTurn, ended := [])) else None
    case MessageStart(_) => if Quiet(s) then Some(s.(open := true)) else None
    case MessageUpdate(_) => if s.phase.InTurn? && s.open then Some(s) else None
    case MessageEnd(m) =>
      if s.phase.InTurn? && s.open then Some(Ended(s.(open := false), [m])) else None
    case ToolStart(id) => if s.phase.InTurn? && !s.open then Some(s.(running := s.running + multiset{id})) else None
    case ToolUpdate(id) => if s.phase.InTurn? && id in s.running then Some(s) else None
    case ToolEnd(id) =>
      if s.phase.InTurn? && id in s.running then Some(s.(running := s.running - multiset{id})) else None
    case TurnEnd(m, results) =>
      if Quiet(s) && |s.ended| > |results| && s.ended[|s.ended| - |results| - 1..] == [m] + results
      then Some(s.(phase := Between, turns := s.turns + 1))
      else None
    case AgentEnd(messages) =>
      if s.phase.Between? && s.turns > 0 && messages == s.all then Some(s.(phase := Over)) else None
  }

  /** `states` are the states before, between and after the events. */
  ghost predicate IsTrace(events: seq<Event>, states: seq<State>) {
    && |states| == |events| + 1 && states[0] == INITIAL
    && forall i, j :: 0 <= i && j == i + 1 <= |events| ==> Step(states[i], events[i]) == Some(states[j])
  }

  /** The events follow the grammar and have reached `s`. */
  ghost predicate Reaches(events: seq<Event>, s: State) {
    exists states :: IsTrace(events, states) && states[|events|] == s
  }

  lemma ReachesStart()
    ensures Reaches([], INITIAL)
  {
    assert IsTrace([], [INITIAL]);
  }

  lemma ReachesNext(events: seq<Event>, s: State, e: Event)
    requires Reaches(events, s) && Step(s, e).Some?
    ensures Reaches(events + [e], Step(s, e).value)
  {
    var states: seq<State> :| IsTrace(events, states) && states[|events|] == s;
    assert IsTrace(events + [e], states + [Step(s, e).value]);
  }

  /** Several events in a row. */
  function StepAll(s: State, es: seq<Event>): Option<State>
    decreases |es|
  {
    if es == [] then Some(s)
    else
      var t := Step(s, es[0]);
      if t.None? then None else StepAll(t.value, es[1..])
  }

  lemma StepOne(s: State, a: Event)
    ensures StepAll(s, [a]) == Step(s, a)
  {
    assert [a][1..] == [];
  }

  lemma StepTwo(s: State, a: Event, b: Event)
    ensures StepAll(s, [a, b]) == if Step(s, a).None? then None else Step(Step(s, a).value, b)
  {
    assert [a, b][1..] == [b];
    if Step(s, a).Some? {
      StepOne(Step(s, a).value, b);
    }
  }

  lemma {:induction false} StepAllConcat(s: State, a: seq<Event>, b: seq<Event>)
    ensures StepAll(s, a + b) == if StepAll(s, a).None? then None else StepAll(StepAll(s, a).value, b)
    decreases |a|
  {
    if a == [] {
      assert a + b == b;
    } else {
      assert (a + b)[1..] == a[1..] + b;
      if Step(s, a[0]).Some? {
        StepAllConcat(Step(s, a[0]).value, a[1..], b);
      }
    }
  }

  lemma {:induction false} ReachesAll(events: seq<Event>, s: State, es: seq<Event>)
    requires Reaches(events, s) && StepAll(s, es).Some?
    ensures Reaches(events + es, StepAll(s, es).value)
    decreases |es|
  {
    if es == [] {
      assert events + es == events;
    } else {
      ReachesNext(events, s, es[0]);
      ReachesAll(events + [es[0]], Step(s, es[0]).value, es[1..]);
      assert events + [es[0]] + es[1..] == events + es;
    }
  }

  /** A message that is not streamed. */
  function Pair(m: Message): seq<Event> {
    [MessageStart(m), MessageEnd(m)]
  }

  function Pairs(messages: seq<Message>): seq<Event> {
    if messages == [] then [] else Pair(messages[0]) + Pairs(messages[1..])
  }

  lemma PairAccepted(s: State, m: Message)
    requires Quiet(s)
    ensures StepAll(s, Pair(m)) == Some(Ended(s, [m]))
  {
    StepTwo(s, MessageStart(m), MessageEnd(m));
  }

  lemma {:induction false} PairsAccepted(s: State, messages: seq<Message>)
    requires Quiet(s)
    ensures StepAll(s, Pairs(messages)) == Some(Ended(s, messages))
    decreases |messages|
  {
    if messages == [] {
      assert s.ended + [] == s.ended && s.all + [] == s.all;
    } else {
      var t := Ended(s, [messages[0]]);
      PairAccepted(s, messages[0]);
      PairsAccepted(t, messages[1..]);
      StepAllConcat(s, Pair(messages[0]), Pairs(messages[1..]));
      EndedTwice(s, [messages[0]], messages[1..]);
      assert [messages[0]] + messages[1..] == messages;
    }
  }

  lemma EndedTwice(s: State, a: seq<Message>, b: seq<Message>)
    ensures Ended(Ended(s, a), b) == Ended(s, a + b)
  {
    Associative(s.ended, a, b);
    Associative(s.all, a, b);
  }

  /** The messages of a trace are those its `message_end` events carry, in order. */
  function Messages(events: seq<Event>): seq<Message> {
    if events == [] then []
    else
      var before := Messages(events[..|events| - 1]);
      var e := events[|events| - 1];
      if e.MessageEnd? then before + [e.ended] else before
  }

  /** What an event adds to the run's messages. */
  function Says(e: Event): seq<Message> {
    if e.MessageEnd? then [e.ended] else []
  }

  lemma {:induction false} MessagesOfTrace(events: seq<Event>, states: seq<State>, n: nat)
    requires IsTrace(events, states) && n <= |events|
    ensures Messages(events[..n]) == states[n].all
  {
    if n > 0 {
      MessagesOfTrace(events, states, n - 1);
      MessagesGrow(events, n);
      StateGrows(events, states, n);
    }
  }

  lemma MessagesGrow(events: seq<Event>, n: nat)
    requires 0 < n <= |events|
    ensures Messages(events[..n]) == Messages(events[..n - 1]) + Says(events[n - 1])
  {
    assert events[..n][..n - 1] == events[..n - 1];
  }

  lemma StateGrows(events: seq<Event>, states: seq<State>, n: nat)
    requires IsTrace(events, states) && 0 < n <= |events|
    ensures states[n].all == states[n - 1].all + Says(events[n - 1])
  {
    assert Step(states[n - 1], events[n - 1]) == Some(states[n]);
    StepSays(states[n - 1], events[n - 1]);
  }

  lemma StepSays(s: State, e: Event)
    requires Step(s, e).Some?
    ensures Step(s, e).value.all == s.all + Says(e)
  {
  }

  /** Counts of starts and ends under one id. */
  function Starts(events: seq<Event>, id: string): nat {
    if events == [] then 0
    else Starts(events[..|events| - 1], id) + (if events[|events| - 1] == ToolStart(id) then 1 else 0)
  }

  function Ends(events: seq<Event>, id: string): nat {
    if events == [] then 0
    else Ends(events[..|events| - 1], id) + (if events[|events| - 1] == ToolEnd(id) then 1 else 0)
  }

  lemma RunningStep(s: State, e: Event, id: string)
    requires Step(s, e).Some?
    ensures Step(s, e).value.running[id] + (if e == ToolEnd(id) then 1 else 0)
            == s.running[id] + (if e == ToolStart(id) then 1 else 0)
  {
  }

  lemma {:induction false} ToolsCounted(events: seq<Event>, states: seq<State>, n: nat, id: string)
    requires IsTrace(events, states) && n <= |events|
    ensures Starts(events[..n], id) == Ends(events[..n], id) + states[n].running[id]
  {
    if n > 0 {
      ToolsCounted(events, states, n - 1, id);
      assert events[..n][..n - 1] == events[..n - 1];
      assert Step(states[n - 1], events[n - 1]) == Some(states[n]);
      RunningStep(states[n - 1], events[n - 1], id);
    }
  }

  /** When a turn ends, every tool call that started, whatever its id, has ended. */
  lemma ToolsEndBeforeTurn(events: seq<Event>, s: State, n: nat, id: string)
    requires Reaches(events, s) && n < |events| && events[n].TurnEnd?
    ensures Starts(events[..n], id) == Ends(events[..n], id)
  {
    var states: seq<State> :| IsTrace(events, states) && states[|events|] == s;
    ToolsCounted(events, states, n, id);
    assert Step(states[n], events[n]) == Some(states[n + 1]);
  }

  /** A run that is over has the shape of a run: it starts and ends once, and every turn that starts ends. */
  lemma {:induction false} TurnsCounted(events: seq<Event>, states: seq<State>, n: nat)
    requires IsTrace(events, states) && n <= |events|
    ensures TurnStarts(events[..n]) == states[n].turns + (if states[n].phase.InTurn? then 1 else 0)
    ensures TurnEnds(events[..n]) == states[n].turns
    ensures states[n].phase.Idle? <==> n == 0
    ensures n > 0 ==> events[0].AgentStart?
  {
    if n > 0 {
      TurnsCounted(events, states, n - 1);
      assert events[..n][..n - 1] == events[..n - 1];
      assert Step(states[n - 1], events[n - 1]) == Some(states[n]);
      TurnStep(states[n - 1], events[n - 1]);
    }
  }

  lemma TurnStep(s: State, e: Event)
    requires Step(s, e).Some?
    ensures var t := Step(s, e).value;
            && t.turns == s.turns + (if e.TurnEnd? then 1 else 0)
            && (if t.phase.InTurn? then 1 else 0) + (if e.TurnEnd? then 1 else 0)
               == (if s.phase.InTurn? then 1 else 0) + (if e.TurnStart? then 1 else 0)
            && !t.phase.Idle? && (e.AgentStart? <==> s.phase.Idle?)
  {
  }

  function TurnStarts(events: seq<Event>): nat {
    if events == [] then 0
    else TurnStarts(events[..|events| - 1]) + (if events[|events| - 1].TurnStart? then 1 else 0)
  }

  function TurnEnds(events: seq<Event>): nat {
    if events == [] then 0
    else TurnEnds(events[..|events| - 1]) + (if events[|events| - 1].TurnEnd? then 1 else 0)
  }

  lemma RunShape(events: seq<Event>, s: State)
    requires Reaches(events, s) && s.phase.Over?
    ensures |events| > 1 && events[0].AgentStart? && events[|events| - 1] == AgentEnd(Messages(events))
    ensures forall i :: 0 < i < |events| - 1 ==> !events[i].AgentStart? && !events[i].AgentEnd?
    ensures TurnStarts(events) == TurnEnds(events) >= 1
    ensures Messages(events) == s.all
  {
    var states: seq<State> :| IsTrace(events, states) && states[|events|] == s;
    var n := |events|;
    assert events[..n] == events;
    TurnsCounted(events, states, n);
    TurnsAtEnd(events, states);
    MessagesOfTrace(events, states, n);
    RunEnds(events, states);
    forall i | 0 < i < n - 1 ensures !events[i].AgentStart? && !events[i].AgentEnd? {
      InsideRun(events, states, i);
    }
  }

  lemma RunEnds(events: seq<Event>, states: seq<State>)
    requires IsTrace(events, states) && states[|events|].phase.Over?
    ensures |events| > 1 && events[0].AgentStart? && events[|events| - 1] == AgentEnd(states[|events|].all)
  {
    var n := |events|;
    assert n > 0 ==> Step(states[0], events[0]) == Some(states[1]);
    assert n > 0 ==> Step(states[n - 1], events[n - 1]) == Some(states[n]);
  }

  lemma InsideRun(events: seq<Event>, states: seq<State>, i: nat)
    requires IsTrace(events, states) && 0 < i < |events| - 1
    ensures !events[i].AgentStart? && !events[i].AgentEnd?
  {
    TurnsCounted(events, states, i);
    assert Step(states[i], events[i]) == Some(states[i + 1]);
    NotOverYet(events, states, i + 1);
  }

  lemma NotOverYet(events: seq<Event>, states: seq<State>, n: nat)
    requires IsTrace(events, states) && n < |events|
    ensures !states[n].phase.Over?
  {
    assert Step(states[n], events[n]) == Some(states[n + 1]);
  }

  lemma TurnsAtEnd(events: seq<Event>, states: seq<State>)
    requires IsTrace(events, states) && states[|events|].phase.Over?
    ensures states[|events|].turns >= 1
  {
    var n := |events|;
    assert Step(states[n - 1], events[n - 1]) == Some(states[n]);
  }

  // ----- The reducer -----

  /** The agent's runtime state. */
  datatype AgentState = AgentState(messages: seq<Message>, streaming: Option<Message>, pendingCalls: set<string>,
                                   errorMessage: string)

  /** `processEvents`, without the listeners. */
  function Reduce(s: AgentState, e: Event): AgentState {
    match e
    case MessageStart(m) => s.(streaming := Some(m))
    case MessageUpdate(m) => s.(streaming := Some(m))
    case MessageEnd(m) => s.(streaming := None, messages := s.messages + [m])
    case ToolStart(id) => s.(pendingCalls := s.pendingCalls + {id})
    case ToolEnd(id) => s.(pendingCalls := s.pendingCalls - {id})
    case TurnEnd(m, _) => if m.Assistant? && m.errorMessage != "" then s.(errorMessage := m.errorMessage) else s
    case AgentEnd(_) => s.(streaming := None)
    case _ => s
  }

  function ReduceAll(s: AgentState, events: seq<Event>): AgentState {
    if events == [] then s else Reduce(ReduceAll(s, events[..|events| - 1]), events[|events| - 1])
  }

  /** `b` is what the reducer makes of `a` by the time a trace stands at `s`. */
  ghost predicate Tracks(a: AgentState, b: AgentState, s: State) {
    && b.messages == a.messages + s.all && (b.streaming.Some? <==> s.open) && (s.open ==> s.phase.InTurn?)
    && forall id :: id in b.pendingCalls ==> id in s.running
  }

  lemma TrackStep(a: AgentState, b: AgentState, s: State, e: Event)
    requires Tracks(a, b, s) && Step(s, e).Some?
    ensures Tracks(a, Reduce(b, e), Step(s, e).value)
  {
    if e.MessageEnd? {
      Associative(a.messages, s.all, [e.ended]);
    }
  }

  /** Along any trace the reducer's transcript is what it was plus the messages that ended. */
  lemma {:induction false} ReducerFollows(a: AgentState, events: seq<Event>, states: seq<State>, n: nat)
    requires IsTrace(events, states) && n <= |events| && a.streaming.None? && a.pendingCalls == {}
    ensures Tracks(a, ReduceAll(a, events[..n]), states[n])
  {
    if n == 0 {
      assert a.messages + [] == a.messages;
    } else {
      ReducerFollows(a, events, states, n - 1);
      assert events[..n][..n - 1] == events[..n - 1];
      assert Step(states[n - 1], events[n - 1]) == Some(states[n]);
      TrackStep(a, ReduceAll(a, events[..n - 1]), states[n - 1], events[n - 1]);
    }
  }

  lemma ReducedLast(a: AgentState, events: seq<Event>)
    requires events != []
    ensures ReduceAll(a, events) == Reduce(ReduceAll(a, events[..|events| - 1]), events[|events| - 1])
  {
  }

  /** From its start on, a message streams as it last was, until it ends or the run does. */
  lemma {:induction false} ReducerStreams(a: AgentState, events: seq<Event>, i: nat)
    requires i < |events| && (events[i].MessageStart? || events[i].MessageUpdate?)
    requires forall j :: i < j < |events| ==>
               !events[j].MessageStart? && !events[j].MessageUpdate? && !events[j].MessageEnd? && !events[j].AgentEnd?
    ensures ReduceAll(a, events).streaming
            == Some(if events[i].MessageStart? then events[i].started else events[i].update)
    decreases |events|
  {
    ReducedLast(a, events);
    if i < |events| - 1 {
      ReducerStreams(a, events[..|events| - 1], i);
    }
  }

  /** A call is pending exactly while it has started and not ended since. */
  lemma {:induction false} ReducerPending(a: AgentState, events: seq<Event>, id: string)
    ensures id in ReduceAll(a, events).pendingCalls
            <==> (id in a.pendingCalls && ToolEnd(id) !in events)
                 || exists i :: 0 <= i < |events| && events[i] == ToolStart(id)
                                && forall j :: i < j < |events| ==> events[j] != ToolEnd(id)
    decreases |events|
  {
    if events != [] {
      var before, e := events[..|events| - 1], events[|events| - 1];
      ReducedLast(a, events);
      ReducerPending(a, before, id);
      assert forall x :: x in events <==> x in before || x == e;
      assert forall i :: 0 <= i < |before| ==> events[i] == before[i];
    }
  }

  predicate FailedTurn(e: Event) {
    e.TurnEnd? && e.message.Assistant? && e.message.errorMessage != ""
  }

  /** The error is that of the last turn that ended with one. */
  lemma {:induction false} ReducerErrors(a: AgentState, events: seq<Event>)
    ensures if exists i :: 0 <= i < |events| && FailedTurn(events[i]) then
              exists i :: 0 <= i < |events| && FailedTurn(events[i])
                          && (forall j :: i < j < |events| ==> !FailedTurn(events[j]))
                          && ReduceAll(a, events).errorMessage == events[i].message.errorMessage
            else ReduceAll(a, events).errorMessage == a.errorMessage
    decreases |events|
  {
    if events != [] {
      var before, e := events[..|events| - 1], events[|events| - 1];
      ReducedLast(a, events);
      ReducerErrors(a, before);
      assert forall i :: 0 <= i < |before| ==> events[i] == before[i];
    }
  }

  lemma Associative(a: seq<Message>, b: seq<Message>, c: seq<Message>)
    ensures (a + b) + c == a + (b + c)
  {
  }

  /**
   After a whole run, an agent that was idle holds its transcript plus exactly the run's messages, streams nothing
   and has no tool call pending, even when tool calls share an id.
   */
  lemma TranscriptsAgree(a: AgentState, events: seq<Event>, s: State)
    requires Reaches(events, s) && s.phase.Over? && a.streaming.None? && a.pendingCalls == {}
    ensures ReduceAll(a, events).messages == a.messages + s.all
    ensures ReduceAll(a, events).streaming.None? && ReduceAll(a, events).pendingCalls == {}
  {
    var states: seq<State> :| IsTrace(events, states) && states[|events|] == s;
    ReducerFollows(a, events, states, |events|);
    assert events[..|events|] == events;
    NothingRuns(events, states);
  }

  lemma NothingRuns(events: seq<Event>, states: seq<State>)
    requires IsTrace(events, states) && states[|events|].phase.Over?
    ensures states[|events|].running == multiset{}
  {
    QuietBetween(events, states, |events|);
  }

  lemma {:induction false} QuietBetween(events: seq<Event>, states: seq<State>, n: nat)
    requires IsTrace(events, states) && n <= |events|
    ensures !states[n].phase.InTurn? ==> states[n].running == multiset{}
  {
    if n > 0 {
      QuietBetween(events, states, n - 1);
      assert Step(states[n - 1], events[n - 1]) == Some(states[n]);
    }
  }
}
