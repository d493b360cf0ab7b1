/** The stateful agent of packages/agent/src/agent.ts: its queues, its reducer, and the runs it starts. */
module Agents {
  import opened Transcript
  import opened ToolDeclarations
  import opened AgentEvents
  import opened AgentLoop
  import opened AgentRuns

  class PendingMessageQueue {
    var messages: seq<Message>
    var mode: Mode

    constructor (mode: Mode)
      ensures View() == Queue(mode, [])
    {
      this.mode := mode;
      messages := [];
    }

    function View(): Queue
      reads this
    {
      Queue(mode, messages)
    }

    method Enqueue(message: Message)
      modifies this`messages
      ensures View() == Enqueued(old(View()), [message])
      ensures messages == old(messages) + [message] && mode == old(mode)
    {
      messages := messages + [message];
    }

    method Drain() returns (drained: seq<Message>)
      modifies this`messages
      ensures drained == Peek(old(View())) && View() == Drained(old(View()))
      ensures drained + messages == old(messages) && mode == old(mode)
      ensures mode.All? ==> messages == []
      ensures mode.OneAtATime? ==> |drained| == if old(messages) == [] then 0 else 1
    {
      DrainTakesPrefix(View());
      drained := Peek(View());
      messages := messages[|drained|..];
    }

    /** `removeAt`: only a message that is there. */
    method RemoveAt(index: int) returns (removed: Option<Message>)
      modifies this`messages
      ensures removed.Some? <==> 0 <= index < |old(messages)|
      ensures removed.Some? ==> removed.value == old(messages)[index]
                                && messages == old(messages)[..index] + old(messages)[index + 1..]
      ensures removed.None? ==> messages == old(messages)
    {
      if index < 0 || index >= |messages| {
        return None;
      }
      removed := Some(messages[index]);
      messages := messages[..index] + messages[index + 1..];
    }

    /** `remove`: the first equal message. */
    method Remove(message: Message) returns (found: bool)
      modifies this`messages
      ensures found <==> message in old(messages)
      ensures !found ==> messages == old(messages)
      ensures found ==> exists i | 0 <= i < |old(messages)| ::
                          && old(messages)[i] == message && message !in old(messages)[..i]
                          && messages == old(messages)[..i] + old(messages)[i + 1..]
    {
      var index := 0;
      while index < |messages| && messages[index] != message
        invariant index <= |messages| && message !in messages[..index]
      {
        index := index + 1;
      }
      if index == |messages| {
        assert messages[..index] == messages;
        return false;
      }
      messages := messages[..index] + messages[index + 1..];
      return true;
    }
  }

  datatype Refusal = NothingToContinue | EndsWithAssistant

  class Agent {
    var messages: seq<Message>
    var streaming: Option<Message>
    var pendingCalls: set<string>
    var errorMessage: string
    var tools: seq<Tool>
    const steering: PendingMessageQueue
    const followUps: PendingMessageQueue

    constructor (messages: seq<Message>, tools: seq<Tool>, steeringMode: Mode, followUpMode: Mode)
      ensures Valid() && State() == AgentState(messages, None, {}, "") && this.tools == tools
      ensures steering.View() == Queue(steeringMode, []) && followUps.View() == Queue(followUpMode, [])
      ensures fresh(steering) && fresh(followUps)
    {
      this.messages, this.tools, streaming, pendingCalls, errorMessage := messages, tools, None, {}, "";
      var q := new PendingMessageQueue(steeringMode);
      var p := new PendingMessageQueue(followUpMode);
      steering, followUps := q, p;
    }

    ghost predicate Valid()
      reads this
    {
      steering != followUps && streaming.None? && pendingCalls == {}
    }

    ghost function State(): AgentState
      reads this
    {
      AgentState(messages, streaming, pendingCalls, errorMessage)
    }

    /** `processEvents` */
    method ProcessEvent(e: Event)
      modifies this`messages, this`streaming, this`pendingCalls, this`errorMessage
      ensures State() == Reduce(old(State()), e)
    {
      match e
      case MessageStart(m) => streaming := Some(m);
      case MessageUpdate(m) => streaming := Some(m);
      case MessageEnd(m) =>
        streaming := None;
        messages := messages + [m];
      case ToolStart(id) => pendingCalls := pendingCalls + {id};
      case ToolEnd(id) => pendingCalls := pendingCalls - {id};
      case TurnEnd(m, _) =>
        if m.Assistant? && m.errorMessage != "" {
          errorMessage := m.errorMessage;
        }
      case AgentEnd(_) => streaming := None;
      case _ =>
    }

    /** `runWithLifecycle`: every event of the run reaches the reducer; a finished run leaves the agent idle. */
    method Process(o: Outcome)
      requires Valid()
      modifies this`messages, this`streaming, this`pendingCalls, this`errorMessage, steering`messages, followUps`messages
      ensures messages == ReduceAll(old(State()).(errorMessage := ""), o.run.events).messages
      ensures errorMessage == ReduceAll(old(State()).(errorMessage := ""), o.run.events).errorMessage
      ensures errorMessage != "" <==> exists i :: 0 <= i < |o.run.events| && FailedTurn(o.run.events[i])
      ensures steering.messages == o.run.steering.messages && followUps.messages == o.run.followUps.messages
      ensures o.finished ==> Valid()
    {
      ghost var idle := State().(errorMessage := "");
      ReducerErrors(idle, o.run.events);
      streaming, errorMessage := None, "";
      for i := 0 to |o.run.events|
        invariant State() == ReduceAll(idle, o.run.events[..i])
      {
        assert o.run.events[..i + 1][..i] == o.run.events[..i];
        ProcessEvent(o.run.events[i]);
      }
      assert o.run.events[..|o.run.events|] == o.run.events;
      steering.messages, followUps.messages := o.run.steering.messages, o.run.followUps.messages;
      if o.finished {
        streaming, pendingCalls := None, {};
      }
    }

    method Prompt(prompts: seq<Message>, turns: seq<Turn>, skipPoll: bool, arrivals: seq<Message>)
      returns (o: Outcome, ghost marks: seq<Mark>)
      requires Valid()
      modifies this`messages, this`streaming, this`pendingCalls, this`errorMessage, steering`messages, followUps`messages
      ensures OutcomeOk(o, Base(old(messages), Declare(Context(old(messages), tools), prompts), tools, old(steering.View()),
                                old(followUps.View()), arrivals, turns, skipPoll), marks)
      ensures messages == old(messages) + o.run.newMessages
      ensures errorMessage != "" <==> exists i :: 0 <= i < |o.run.events| && FailedTurn(o.run.events[i])
      ensures steering.messages == o.run.steering.messages && followUps.messages == o.run.followUps.messages
      ensures o.finished ==> Valid() && messages == old(messages) + Messages(o.run.events)
      ensures o.finished && !Swaps(turns) ==> messages == o.run.context.messages
    {
      var context := Context(messages, tools);
      o, marks := RunAgentLoop(prompts, context, steering.View(), followUps.View(), turns, skipPoll, arrivals);
      var base := Base(messages, Declare(context, prompts), tools, steering.View(), followUps.View(), arrivals, turns,
                       skipPoll);
      RunAgrees(o, base, marks, State().(errorMessage := ""));
      Process(o);
    }

    method ContinueTranscript(turns: seq<Turn>, arrivals: seq<Message>)
      returns (o: Outcome, ghost marks: seq<Mark>)
      requires Valid() && messages != [] && !messages[|messages| - 1].Assistant?
      modifies this`messages, this`streaming, this`pendingCalls, this`errorMessage, steering`messages, followUps`messages
      ensures OutcomeOk(o, Base(old(messages), [], tools, old(steering.View()), old(followUps.View()), arrivals, turns,
                                false), marks)
      ensures messages == old(messages) + o.run.newMessages
      ensures errorMessage != "" <==> exists i :: 0 <= i < |o.run.events| && FailedTurn(o.run.events[i])
      ensures steering.messages == o.run.steering.messages && followUps.messages == o.run.followUps.messages
      ensures o.finished ==> Valid()
    {
      var result;
      result, marks := RunAgentLoopContinue(Context(messages, tools), steering.View(), followUps.View(), turns, arrivals);
      o := result.value;
      var base := Base(messages, [], tools, steering.View(), followUps.View(), arrivals, turns, false);
      RunAgrees(o, base, marks, State().(errorMessage := ""));
      Process(o);
    }

    /** The queued messages a continuation begins with: steering, or else follow-ups. */
    method TakeQueued() returns (prompts: seq<Message>, skip: bool)
      requires Valid()
      modifies steering`messages, followUps`messages
      ensures prompts == [] <==> old(steering.messages) == [] && old(followUps.messages) == []
      ensures skip <==> old(steering.messages) != []
      ensures if skip then prompts == Peek(old(steering.View())) && steering.View() == Drained(old(steering.View()))
                           && followUps.View() == old(followUps.View())
              else prompts == Peek(old(followUps.View())) && followUps.View() == Drained(old(followUps.View()))
                   && steering.View() == old(steering.View())
    {
      DrainTakesPrefix(steering.View());
      DrainTakesPrefix(followUps.View());
      prompts := steering.Drain();
      skip := true;
      if prompts == [] {
        prompts := followUps.Drain();
        skip := false;
      }
    }

    /**
     `continue`: after an assistant message only queued messages can go on, steering first, and follow-ups only when
     nothing steers. Nothing changes when it refuses.
     */
    method Continue(turns: seq<Turn>, arrivals: seq<Message>)
      returns (refusal: Option<Refusal>, prompts: seq<Message>, o: Option<Outcome>, ghost base: Base,
               ghost marks: seq<Mark>)
      requires Valid()
      modifies this`messages, this`streaming, this`pendingCalls, this`errorMessage, steering`messages, followUps`messages
      ensures refusal == RefusalOf(old(messages), old(steering.messages), old(followUps.messages))
      ensures refusal == Some(NothingToContinue) <==> forall m :: m in old(messages) ==> m.System?
      ensures refusal == Some(EndsWithAssistant) <==>
              && old(messages) != [] && old(messages)[|old(messages)| - 1].Assistant?
              && old(steering.messages) == [] && old(followUps.messages) == []
      ensures refusal.Some? <==> o.None?
      ensures refusal.Some? ==> State() == old(State()) && steering.messages == old(steering.messages)
                                && followUps.messages == old(followUps.messages)
      ensures refusal.None? ==>
                && OutcomeOk(o.value, base, marks) && base.turns == turns && base.arrivals == arrivals
                && base.before == old(messages) && messages == old(messages) + o.value.run.newMessages
      ensures refusal.None? && o.value.finished ==> Valid()
      ensures refusal.None? && !old(messages)[|old(messages)| - 1].Assistant? ==>
                prompts == [] && base.steering == old(steering.View()) && base.followUps == old(followUps.View())
      ensures refusal.None? && old(messages)[|old(messages)| - 1].Assistant? ==>
                && base.prompts == Declare(Context(old(messages), tools), prompts)
                && Continued(old(steering.View()), old(followUps.View()), prompts, base)
    {
      refusal, prompts, o := None, [], None;
      base := Base([], [], [], Queue(All, []), Queue(All, []), [], [], false);
      marks := [];
      assert messages != [] ==> messages[|messages| - 1] in messages;
      if messages == [] || (forall m | m in messages :: m.System?) {
        refusal := Some(NothingToContinue);
        return;
      }
      var outcome: Outcome;
      if messages[|messages| - 1].Assistant? {
        var skip;
        prompts, skip := TakeQueued();
        if prompts == [] {
          refusal := Some(EndsWithAssistant);
          return;
        }
        base := Base(messages, Declare(Context(messages, tools), prompts), tools, steering.View(), followUps.View(), arrivals,
                     turns, skip);
        outcome, marks := Prompt(prompts, turns, skip, arrivals);
      } else {
        base := Base(messages, [], tools, steering.View(), followUps.View(), arrivals, turns, false);
        outcome, marks := ContinueTranscript(turns, arrivals);
      }
      o := Some(outcome);
    }
  }

  /** The prompts of `continue` after an assistant message, and the queues its run begins with. */
  predicate Continued(steering: Queue, followUps: Queue, prompts: seq<Message>, base: Base) {
    && prompts != []
    && if steering.messages != []
       then && prompts == Peek(steering) && base.steering == Drained(steering) && base.followUps == followUps
            && base.skipPoll
       else && prompts == Peek(followUps) && base.followUps == Drained(followUps) && base.steering == steering
            && !base.skipPoll
  }

  /**
   One at a time, `continue` sends one queued message before its first request exactly if steering gave the prompt, or
   nothing steers by the first poll.
   */
  lemma OneBeforeRequest(steering: Queue, followUps: Queue, prompts: seq<Message>, base: Base)
    requires Continued(steering, followUps, prompts, base) && OneAtATimeQueues(base)
    ensures |prompts| == 1
    ensures |prompts| + |FirstQueued(base)| <= 1 <==> steering.messages != [] || base.arrivals == []
  {
    DrainTakesPrefix(Enqueued(base.steering, base.arrivals));
  }

  /**
   A follow-up becomes the prompt, and a steering message that arrives before the first poll joins it: two queued
   messages before one request, although both queues give one at a time.
   */
  method TwoBeforeRequest() returns (prompts: seq<Message>, ghost base: Base, ghost marks: seq<Mark>)
    ensures OneAtATimeQueues(base) && prompts == [User("follow-up")]
    ensures base.prompts == Declare(Context(base.before, []), prompts)
    ensures |marks| > 1 && marks[1].Injected? && marks[1].queued == [User("steer")]
  {
    var answer := Assistant("done", [], Stop, "");
    var agent := new Agent([User("start"), answer], [], OneAtATime, OneAtATime);
    agent.followUps.Enqueue(User("follow-up"));
    var turn := Given([], None, [], None, [], answer, true, [], [], Default, [], []);
    var refusal, o;
    assert User("start") in agent.messages;
    refusal, prompts, o, base, marks := agent.Continue([turn], [User("steer")]);
    TurnInjects(o.value, base, marks);
  }

  /** When `continue` refuses, and why. */
  function RefusalOf(messages: seq<Message>, steering: seq<Message>, followUps: seq<Message>): Option<Refusal> {
    if forall m :: m in messages ==> m.System? then Some(NothingToContinue)
    else if messages[|messages| - 1].Assistant? && steering == [] && followUps == [] then Some(EndsWithAssistant)
    else None
  }
}
