/**
 `runCandidate` and `serializedLocalStream` of packages/coding-agent/extensions/hummin-local.ts. What a stream does in an
 attempt is given, and so is what its lock does; the regular expressions for busy and connectivity messages are
 parameters. Streams yield and end, as `EventStream` of packages/ai/src/utils/event-stream.ts does; they do not throw.
 */
module FailoverStream {

  datatype Option<T> = None | Some(value: T)

  datatype Event = Start | Content(content: string) | Done(result: string) | Error(message: string)

  /** What is thrown. `aborted`: the caller's signal had fired by then, or the error says so. */
  datatype Failure = Failure(message: string, aborted: bool)

  /**
   An attempt is stopped before it reads (an abort, the delay, a factory that throws), or reads a stream to its end;
   `aborted` says whether the caller's signal had fired by then.
   */
  datatype Attempt = Blocked(failure: Failure) | Reads(events: seq<Event>, aborted: bool)

  /** A lock is not obtained, or is held for all attempts of a candidate; its release may fail. */
  datatype Lock = Refused(failure: Failure) | Held(release: Option<Failure>)

  /** `lock(candidate)`, `behave(candidate, attempt)` */
  datatype Run = Run(busy: string -> bool, connectivity: string -> bool, maxRetries: nat, lock: nat -> Lock,
                     behave: (nat, nat) -> Attempt)

  datatype Outcome =
    | Completed
    | Aborted
    | Failover(message: string)
    | Failed(connectivity: bool, message: string)

  /** An event with the attempt it comes from; the last event of a run may be one the failover makes up. */
  datatype Pushed = Pushed(event: Event, candidate: nat, attempt: nat)

  const NO_TERMINAL := "Error: Local provider stream ended without a terminal event"

  predicate IsContent(e: Event) {
    !e.Start? && !e.Error?
  }

  predicate IsTerminal(e: Event) {
    e.Done? || e.Error?
  }

  // ----- The output stream -----

  /** `EventStream.push`: nothing is taken after a terminal event. */
  function Push(events: seq<Pushed>, e: Pushed): seq<Pushed> {
    if events != [] && IsTerminal(events[|events| - 1].event) then events else events + [e]
  }

  /** What an output stream holds after a list of pushes: everything through the first terminal event. */
  function Accepted(pushes: seq<Pushed>): seq<Pushed> {
    if pushes == [] then []
    else if IsTerminal(pushes[0].event) then [pushes[0]]
    else [pushes[0]] + Accepted(pushes[1..])
  }

  predicate Closed(pushes: seq<Pushed>) {
    exists i :: 0 <= i < |pushes| && IsTerminal(pushes[i].event)
  }

  lemma {:induction false} AcceptedMore(a: seq<Pushed>, b: seq<Pushed>)
    ensures Accepted(a + b) == if Closed(a) then Accepted(a) else a + Accepted(b)
    decreases |a|
  {
    if a == [] {
      assert a + b == b;
    } else {
      assert (a + b)[1..] == a[1..] + b;
      AcceptedMore(a[1..], b);
      if !IsTerminal(a[0].event) {
        ClosedTail(a);
        assert [a[0]] + (a[1..] + Accepted(b)) == a + Accepted(b);
      }
    }
  }

  lemma ClosedTail(a: seq<Pushed>)
    requires a != [] && !IsTerminal(a[0].event)
    ensures Closed(a) <==> Closed(a[1..])
  {
    if i :| 0 <= i < |a| && IsTerminal(a[i].event) {
      assert a[1..][i - 1] == a[i];
    }
    if i :| 0 <= i < |a[1..]| && IsTerminal(a[1..][i].event) {
      assert a[i + 1] == a[1..][i];
    }
  }

  /** `pushed` ends with a terminal event if `over`, and holds no other. */
  predicate Terminated(pushed: seq<Pushed>, over: bool) {
    && (forall i :: 0 <= i < |pushed| - 1 ==> !IsTerminal(pushed[i].event))
    && (if over then pushed != [] && IsTerminal(pushed[|pushed| - 1].event)
        else pushed != [] ==> !IsTerminal(pushed[|pushed| - 1].event))
  }

  lemma {:induction false} AcceptedTerminates(pushes: seq<Pushed>)
    ensures Terminated(Accepted(pushes), Closed(pushes))
  {
    if pushes != [] && !IsTerminal(pushes[0].event) {
      AcceptedTerminates(pushes[1..]);
      ClosedTail(pushes);
    }
  }

  lemma {:induction false} AcceptedOpen(pushes: seq<Pushed>)
    requires !Closed(pushes)
    ensures Accepted(pushes) == pushes
  {
    if pushes != [] {
      assert !IsTerminal(pushes[0].event);
      ClosedTail(pushes);
      AcceptedOpen(pushes[1..]);
    }
  }

  lemma AcceptedPush(pushes: seq<Pushed>, e: Pushed)
    ensures Push(Accepted(pushes), e) == Accepted(pushes + [e])
  {
    AcceptedMore(pushes, [e]);
    AcceptedTerminates(pushes);
    if !Closed(pushes) {
      AcceptedOpen(pushes);
    }
  }

  // ----- One attempt -----

  /** What the `catch` makes of a failure. */
  function Caught(run: Run, failure: Failure): Outcome {
    if failure.aborted then Aborted else Failed(run.connectivity(failure.message), failure.message)
  }

  /** `Retry`, or the outcome of the candidate. */
  datatype Verdict = Retry | Ends(outcome: Outcome)

  /** An error before any content decides whether to try again, here or elsewhere. */
  function EarlyError(run: Run, message: string, attempt: nat): Option<Verdict> {
    if run.busy(message) then Some(if attempt < run.maxRetries then Retry else Ends(Failover(message)))
    else if run.connectivity(message) then Some(Ends(Failover(message)))
    else None
  }

  /** The events of a stream that are pushed, and how the attempt ends. */
  function Feed(run: Run, events: seq<Event>, aborted: bool, emitted: bool, attempt: nat): (seq<Event>, Verdict) {
    if events == [] then ([], Ends(Caught(run, Failure(NO_TERMINAL, aborted))))
    else
      var e := events[0];
      var early := if e.Error? && !emitted then EarlyError(run, e.message, attempt) else None;
      if early.Some? then ([], early.value)
      else if IsTerminal(e) then ([e], Ends(Completed))
      else
        var (rest, verdict) := Feed(run, events[1..], aborted, emitted || IsContent(e), attempt);
        ([e] + rest, verdict)
  }

  function Tagged(events: seq<Event>, candidate: nat, attempt: nat): seq<Pushed> {
    seq(|events|, i requires 0 <= i < |events| => Pushed(events[i], candidate, attempt))
  }

  function Try(run: Run, candidate: nat, attempt: nat): (seq<Event>, Verdict) {
    match run.behave(candidate, attempt)
    case Blocked(failure) => ([], Ends(Caught(run, failure)))
    case Reads(events, aborted) => Feed(run, events, aborted, false, attempt)
  }

  lemma NeverTooOften(run: Run, candidate: nat, attempt: nat)
    requires Try(run, candidate, attempt).1.Retry?
    ensures attempt < run.maxRetries
  {
    match run.behave(candidate, attempt)
    case Blocked(_) =>
    case Reads(events, aborted) => FeedRetries(run, events, aborted, false, attempt);
  }

  /** A retried attempt has pushed nothing but `start` events, and leaves room for another attempt. */
  lemma {:induction false} FeedRetries(run: Run, events: seq<Event>, aborted: bool, emitted: bool, attempt: nat)
    ensures var (pushed, verdict) := Feed(run, events, aborted, emitted, attempt);
            verdict.Retry? ==>
              attempt < run.maxRetries && !emitted && forall i :: 0 <= i < |pushed| ==> pushed[i].Start?
  {
    if events != [] {
      var e := events[0];
      FeedRetries(run, events[1..], aborted, emitted || IsContent(e), attempt);
      var (rest, verdict) := Feed(run, events[1..], aborted, emitted || IsContent(e), attempt);
      if verdict.Retry? && !IsTerminal(e) {
        forall i | 0 <= i < |[e] + rest| ensures ([e] + rest)[i].Start? {
          assert i > 0 ==> ([e] + rest)[i] == rest[i - 1];
        }
      }
    }
  }

  // ----- One candidate -----

  /** What a run does with its candidates: it asks for a lock, or makes an attempt under it. */
  datatype Visit = Locking(candidate: nat) | Trying(candidate: nat, attempt: nat)

  /** The pushes, the attempts, and the outcome of a candidate under its lock, from `attempt` on. */
  function Attempts(run: Run, candidate: nat, attempt: nat): (seq<Pushed>, seq<Visit>, Outcome)
    requires attempt <= run.maxRetries
    decreases run.maxRetries - attempt
  {
    var (events, verdict) := Try(run, candidate, attempt);
    var mine := Tagged(events, candidate, attempt);
    if verdict.Retry? then
      NeverTooOften(run, candidate, attempt);
      var (rest, tried, outcome) := Attempts(run, candidate, attempt + 1);
      (mine + rest, [Trying(candidate, attempt)] + tried, outcome)
    else (mine, [Trying(candidate, attempt)], verdict.outcome)
  }

  /** With the lock: a failing release replaces whatever the attempts came to. */
  function Candidate(run: Run, candidate: nat): (seq<Pushed>, seq<Visit>, Outcome) {
    match run.lock(candidate)
    case Refused(failure) => ([], [Locking(candidate)], Caught(run, failure))
    case Held(release) =>
      var (pushed, tried, outcome) := Attempts(run, candidate, 0);
      (pushed, [Locking(candidate)] + tried, if release.Some? then Caught(run, release.value) else outcome)
  }

  /** Handing off is possible after this outcome. */
  predicate CanFailOver(outcome: Outcome) {
    outcome.Failover? || (outcome.Failed? && outcome.connectivity)
  }

  /** The error a run ends with when its last outcome is none of its streams' terminal events. */
  function LastError(outcome: Outcome): seq<Event> {
    match outcome
    case Completed => []
    case Aborted => [Error("aborted")]
    case Failover(message) => [Error(message)]
    case Failed(_, message) => [Error(message)]
  }

  // ----- The run -----

  /** The pushes and attempts of a run over `n` candidates, from `index` on. */
  function Serialized(run: Run, n: nat, index: nat): (seq<Pushed>, seq<Visit>)
    decreases n - index
  {
    if index >= n then ([], [])
    else
      var (pushed, tried, outcome) := Candidate(run, index);
      if CanFailOver(outcome) && index + 1 < n then
        var (rest, more) := Serialized(run, n, index + 1);
        (pushed + rest, tried + more)
      else (pushed + Tagged(LastError(outcome), index, 0), tried)
  }

  /** What a consumer of the run gets. */
  function Output(run: Run, n: nat): seq<Pushed> {
    Accepted(Serialized(run, n, 0).0)
  }

  lemma Associative<T>(a: seq<T>, b: seq<T>, c: seq<T>)
    ensures (a + b) + c == a + (b + c)
  {
  }

  lemma OneMore(before: seq<Pushed>, mine: seq<Event>, e: Event, rest: seq<Event>, candidate: nat, attempt: nat)
    ensures mine + ([e] + rest) == (mine + [e]) + rest
    ensures before + Tagged(mine + [e], candidate, attempt)
            == before + Tagged(mine, candidate, attempt) + [Pushed(e, candidate, attempt)]
  {
  }

  /** The source's loop over events, with `emittedContent`; `pushes` are all pushes before it. */
  method ReadStream(run: Run, candidate: nat, attempt: nat, stream: seq<Event>, aborted: bool, before: seq<Pushed>,
                    ghost pushes: seq<Pushed>)
    returns (verdict: Verdict, events: seq<Pushed>)
    requires before == Accepted(pushes)
    ensures var (mine, v) := Feed(run, stream, aborted, false, attempt);
            events == Accepted(pushes + Tagged(mine, candidate, attempt)) && verdict == v
  {
    events := before;
    var emittedContent := false;
    ghost var mine: seq<Event>, all := [], Feed(run, stream, aborted, false, attempt).0;
    assert stream[0..] == stream && mine + all == all && pushes + Tagged(mine, candidate, attempt) == pushes;
    for i := 0 to |stream|
      invariant events == Accepted(pushes + Tagged(mine, candidate, attempt))
      invariant var (rest, v) := Feed(run, stream[i..], aborted, emittedContent, attempt);
                Feed(run, stream, aborted, false, attempt) == (mine + rest, v)
    {
      var event := stream[i];
      assert stream[i..][1..] == stream[i + 1..];
      if event.Error? && !emittedContent {
        var early := EarlyError(run, event.message, attempt);
        if early.Some? {
          assert mine + [] == mine;
          return early.value, events;
        }
      }
      if IsContent(event) {
        emittedContent := true;
      }
      ghost var rest := Feed(run, stream[i + 1..], aborted, emittedContent, attempt).0;
      OneMore(pushes, mine, event, rest, candidate, attempt);
      AcceptedPush(pushes + Tagged(mine, candidate, attempt), Pushed(event, candidate, attempt));
      events := Push(events, Pushed(event, candidate, attempt));
      mine := mine + [event];
      if IsTerminal(event) {
        return Ends(Completed), events;
      }
    }
    assert mine + [] == mine;
    verdict := Ends(Caught(run, Failure(NO_TERMINAL, aborted)));
  }

  /** The source's loop over attempts, with `retry`, inside the lock. */
  method RunAttempts(run: Run, candidate: nat, before: seq<Pushed>, log: seq<Visit>, ghost pushes: seq<Pushed>)
    returns (outcome: Outcome, events: seq<Pushed>, tried: seq<Visit>)
    requires before == Accepted(pushes)
    ensures var (mine, attempts, o) := Attempts(run, candidate, 0);
            events == Accepted(pushes + mine) && tried == log + attempts && outcome == o
  {
    events, tried := before, log;
    var attempt := 0;
    ghost var made := pushes;
    while true
      invariant attempt <= run.maxRetries && events == Accepted(made)
      invariant made + Attempts(run, candidate, attempt).0 == pushes + Attempts(run, candidate, 0).0
      invariant tried + Attempts(run, candidate, attempt).1 == log + Attempts(run, candidate, 0).1
      invariant Attempts(run, candidate, attempt).2 == Attempts(run, candidate, 0).2
      decreases run.maxRetries - attempt
    {
      var a := run.behave(candidate, attempt);
      tried := tried + [Trying(candidate, attempt)];
      if a.Blocked? {
        assert made + [] == made;
        return Caught(run, a.failure), events, tried;
      }
      var verdict;
      verdict, events := ReadStream(run, candidate, attempt, a.events, a.aborted, events, made);
      if verdict.Ends? {
        return verdict.outcome, events, tried;
      }
      NeverTooOften(run, candidate, attempt);
      ghost var mine := Tagged(Try(run, candidate, attempt).0, candidate, attempt);
      ghost var (rest, more, _) := Attempts(run, candidate, attempt + 1);
      Associative(made, mine, rest);
      Associative(tried[..|tried| - 1], [Trying(candidate, attempt)], more);
      made := made + mine;
      attempt := attempt + 1;
    }
  }

  /** `runCandidate`, with `withLocalInferenceLock` around it. */
  method RunCandidate(run: Run, candidate: nat, before: seq<Pushed>, log: seq<Visit>, ghost pushes: seq<Pushed>)
    returns (outcome: Outcome, events: seq<Pushed>, tried: seq<Visit>)
    requires before == Accepted(pushes)
    ensures var (mine, attempts, o) := Candidate(run, candidate);
            events == Accepted(pushes + mine) && tried == log + attempts && outcome == o
  {
    var lock := run.lock(candidate);
    if lock.Refused? {
      assert pushes + [] == pushes;
      return Caught(run, lock.failure), before, log + [Locking(candidate)];
    }
    outcome, events, tried := RunAttempts(run, candidate, before, log + [Locking(candidate)], pushes);
    Associative(log, [Locking(candidate)], Attempts(run, candidate, 0).1);
    if lock.release.Some? {
      outcome := Caught(run, lock.release.value);
    }
  }

  /** The source's loop over candidates; `tried` lists the attempts it made. */
  method SerializedLocalStream(run: Run, n: nat) returns (events: seq<Pushed>, tried: seq<Visit>)
    ensures events == Output(run, n) && tried == Serialized(run, n, 0).1
  {
    events, tried := [], [];
    ghost var pushes: seq<Pushed> := [];
    for index := 0 to n
      invariant events == Accepted(pushes) && pushes + Serialized(run, n, index).0 == Serialized(run, n, 0).0
      invariant tried + Serialized(run, n, index).1 == Serialized(run, n, 0).1
    {
      var outcome;
      ghost var log := tried;
      outcome, events, tried := RunCandidate(run, index, events, tried, pushes);
      ghost var (mine, attempts, _) := Candidate(run, index);
      if CanFailOver(outcome) && index + 1 < n {
        Associative(pushes, mine, Serialized(run, n, index + 1).0);
        Associative(log, attempts, Serialized(run, n, index + 1).1);
        pushes := pushes + mine;
        continue;
      }
      Associative(pushes, mine, Tagged(LastError(outcome), index, 0));
      if outcome.Completed? {
        assert pushes + mine + [] == pushes + mine;
      } else {
        AcceptedPush(pushes + mine, Pushed(LastError(outcome)[0], index, 0));
        assert Tagged(LastError(outcome), index, 0) == [Pushed(LastError(outcome)[0], index, 0)];
        events := Push(events, Pushed(LastError(outcome)[0], index, 0));
      }
      return;
    }
    assert pushes + [] == pushes && tried + [] == tried;
  }

  // ----- One terminal event -----

  lemma {:induction false} FeedCloses(run: Run, events: seq<Event>, aborted: bool, emitted: bool, attempt: nat, candidate: nat)
    ensures var (pushed, verdict) := Feed(run, events, aborted, emitted, attempt);
            Closed(Tagged(pushed, candidate, attempt)) <==> verdict == Ends(Completed)
  {
    if events != [] {
      FeedCloses(run, events[1..], aborted, emitted || IsContent(events[0]), attempt, candidate);
      var (rest, verdict) := Feed(run, events[1..], aborted, emitted || IsContent(events[0]), attempt);
      TaggedFirst(events[0], rest, candidate, attempt);
      TaggedFirst(events[0], [], candidate, attempt);
      assert [events[0]] + [] == [events[0]];
    }
  }

  lemma TaggedFirst(e: Event, rest: seq<Event>, candidate: nat, attempt: nat)
    ensures var all := Tagged([e] + rest, candidate, attempt);
            && all[0] == Pushed(e, candidate, attempt) && all[1..] == Tagged(rest, candidate, attempt)
            && (Closed(all) <==> IsTerminal(e) || Closed(Tagged(rest, candidate, attempt)))
  {
    var all := Tagged([e] + rest, candidate, attempt);
    assert all[1..] == Tagged(rest, candidate, attempt);
    if !IsTerminal(e) {
      ClosedTail(all);
    }
  }

  lemma ClosedBoth(a: seq<Pushed>, b: seq<Pushed>)
    ensures Closed(a + b) <==> Closed(a) || Closed(b)
  {
    if i :| 0 <= i < |a| && IsTerminal(a[i].event) {
      assert (a + b)[i] == a[i];
    }
    if i :| 0 <= i < |b| && IsTerminal(b[i].event) {
      assert (a + b)[|a| + i] == b[i];
    }
  }

  lemma {:induction false} AttemptsClose(run: Run, candidate: nat, attempt: nat)
    requires attempt <= run.maxRetries
    ensures Closed(Attempts(run, candidate, attempt).0) <==> Attempts(run, candidate, attempt).2.Completed?
    decreases run.maxRetries - attempt
  {
    var (events, verdict) := Try(run, candidate, attempt);
    match run.behave(candidate, attempt) {
      case Blocked(_) =>
      case Reads(stream, aborted) => FeedCloses(run, stream, aborted, false, attempt, candidate);
    }
    if verdict.Retry? {
      NeverTooOften(run, candidate, attempt);
      AttemptsClose(run, candidate, attempt + 1);
      ClosedBoth(Tagged(events, candidate, attempt), Attempts(run, candidate, attempt + 1).0);
    }
  }

  lemma {:induction false} RunCloses(run: Run, n: nat, index: nat)
    requires index < n
    ensures Closed(Serialized(run, n, index).0)
    decreases n - index
  {
    var (pushed, _, outcome) := Candidate(run, index);
    AttemptsClose(run, index, 0);
    if CanFailOver(outcome) && index + 1 < n {
      RunCloses(run, n, index + 1);
      ClosedBoth(pushed, Serialized(run, n, index + 1).0);
    } else {
      ClosedBoth(pushed, Tagged(LastError(outcome), index, 0));
      if !outcome.Completed? {
        assert IsTerminal(Tagged(LastError(outcome), index, 0)[0].event);
      }
    }
  }

  /**
   Whatever streams, locks and signals do, the output has exactly one terminal event, its last, unless there is no
   candidate.
   */
  lemma OneTerminal(run: Run, n: nat)
    ensures Terminated(Output(run, n), n > 0) && (n == 0 ==> Output(run, n) == [])
    ensures var output := Output(run, n);
            forall i :: 0 <= i < |output| ==> ((output[i].event.Done? || output[i].event.Error?) <==> i == |output| - 1)
  {
    AcceptedTerminates(Serialized(run, n, 0).0);
    if n > 0 {
      RunCloses(run, n, 0);
    }
  }

  // ----- The order of attempts -----

  lemma {:induction false} AttemptsInOrder(run: Run, candidate: nat, attempt: nat)
    requires attempt <= run.maxRetries
    ensures var tried := Attempts(run, candidate, attempt).1;
            && 0 < |tried| <= run.maxRetries - attempt + 1
            && forall i :: 0 <= i < |tried| ==> tried[i] == Trying(candidate, attempt + i)
    decreases run.maxRetries - attempt
  {
    if Try(run, candidate, attempt).1.Retry? {
      NeverTooOften(run, candidate, attempt);
      AttemptsInOrder(run, candidate, attempt + 1);
    }
  }

  /**
   Candidates come up in list order from the first, none is skipped, each is locked first, and then gets its attempts one
   after the other; one whose lock is refused gets none.
   */
  lemma {:induction false} CandidatesInOrder(run: Run, n: nat, index: nat)
    requires index < n
    ensures var log := Serialized(run, n, index).1;
            && log != [] && log[0] == Locking(index)
            && (forall i :: 0 <= i < |log| ==> index <= log[i].candidate < n)
            && (forall i :: 0 <= i < |log| && log[i].Trying? ==>
                  log[i].attempt <= run.maxRetries && run.lock(log[i].candidate).Held?)
            && (forall i, j :: 0 <= i && j == i + 1 < |log| ==> Follows(log[i], log[j]))
    decreases n - index
  {
    CandidateInOrder(run, index);
    if CanFailOver(Candidate(run, index).2) && index + 1 < n {
      CandidatesInOrder(run, n, index + 1);
    }
  }

  lemma CandidateInOrder(run: Run, candidate: nat)
    ensures var log := Candidate(run, candidate).1;
            && log != [] && log[0] == Locking(candidate)
            && (forall i :: 0 < i < |log| ==> log[i] == Trying(candidate, i - 1) && i - 1 <= run.maxRetries)
            && (|log| > 1 <==> run.lock(candidate).Held?)
  {
    AttemptsInOrder(run, candidate, 0);
  }

  predicate Follows(t: Visit, next: Visit) {
    next == Locking(t.candidate + 1) || next == Trying(t.candidate, if t.Locking? then 0 else t.attempt + 1)
  }

  // ----- When there is another attempt, and when another candidate -----

  /** The first event of an attempt that is not a `start` is this error. */
  ghost predicate FailsEarly(a: Attempt, message: string) {
    && a.Reads?
    && exists i :: 0 <= i < |a.events| && a.events[i] == Error(message) && forall j :: 0 <= j < i ==> a.events[j].Start?
  }

  ghost predicate TriesAgain(run: Run, a: Attempt, attempt: nat) {
    attempt < run.maxRetries && exists message :: FailsEarly(a, message) && run.busy(message)
  }

  ghost predicate HandsOffEarly(run: Run, a: Attempt) {
    exists message :: FailsEarly(a, message) && (run.busy(message) || run.connectivity(message))
  }

  /** An attempt that is not tried again gives way to the next candidate. */
  ghost predicate GivesWay(run: Run, a: Attempt) {
    match a
    case Blocked(failure) => !failure.aborted && run.connectivity(failure.message)
    case Reads(events, aborted) =>
      || HandsOffEarly(run, a)
      || (!aborted && run.connectivity(NO_TERMINAL) && forall i :: 0 <= i < |events| ==> !events[i].Done? && !events[i].Error?)
  }

  /** What an attempt pushes and decides if its first terminal event is the one at `i`. */
  lemma {:induction false} FeedEnds(run: Run, events: seq<Event>, aborted: bool, emitted: bool, attempt: nat, i: nat)
    requires i < |events| && (events[i].Done? || events[i].Error?)
    requires forall j :: 0 <= j < i ==> !events[j].Done? && !events[j].Error?
    ensures var early := !emitted && events[i].Error? && forall j :: 0 <= j < i ==> events[j].Start?;
            Feed(run, events, aborted, emitted, attempt)
            == if early && run.busy(events[i].message) && attempt < run.maxRetries then (events[..i], Retry)
               else if early && (run.busy(events[i].message) || run.connectivity(events[i].message)) then
                 (events[..i], Ends(Failover(events[i].message)))
               else (events[..i + 1], Ends(Completed))
  {
    if i > 0 {
      FeedEnds(run, events[1..], aborted, emitted || IsContent(events[0]), attempt, i - 1);
      assert forall j :: 0 <= j < i - 1 ==> events[1..][j] == events[j + 1];
      assert (forall j :: 0 <= j < i ==> events[j].Start?)
             <==> events[0].Start? && forall j :: 0 <= j < i - 1 ==> events[1..][j].Start? by {
        assert forall j :: 0 < j < i ==> events[j] == events[1..][j - 1];
      }
      assert [events[0]] + events[1..][..i - 1] == events[..i];
      assert [events[0]] + events[1..][..i] == events[..i + 1];
    } else {
      assert events[..1] == [events[0]];
    }
  }

  lemma TryReads(run: Run, candidate: nat, attempt: nat, i: nat) returns (first: nat)
    requires var a := run.behave(candidate, attempt); a.Reads? && i < |a.events| && IsTerminal(a.events[i])
    ensures var a, made := run.behave(candidate, attempt), Try(run, candidate, attempt);
            && first <= i && IsTerminal(a.events[first]) && (forall j :: 0 <= j < first ==> !IsTerminal(a.events[j]))
            && (TriesAgain(run, a, attempt) ==> HandsOffEarly(run, a) && made.1.Retry?)
            && (if HandsOffEarly(run, a) then
                  && a.events[first].Error? && FailsEarly(a, a.events[first].message)
                  && (forall j :: 0 <= j < first ==> a.events[j].Start?)
                  && made.0 == a.events[..first]
                  && (if TriesAgain(run, a, attempt) then made.1.Retry?
                      else made.1 == Ends(Failover(a.events[first].message)))
                else made == (a.events[..first + 1], Ends(Completed)))
  {
    var a := run.behave(candidate, attempt);
    first := FirstTerminal(a.events, i);
    FeedEnds(run, a.events, a.aborted, false, attempt, first);
    if a.events[first].Error? && forall j :: 0 <= j < first ==> a.events[j].Start? {
      assert FailsEarly(a, a.events[first].message);
    }
    forall message | FailsEarly(a, message) ensures a.events[first] == Error(message) {
    }
  }

  lemma TryPlainly(run: Run, candidate: nat, attempt: nat)
    ensures var a, verdict := run.behave(candidate, attempt), Try(run, candidate, attempt).1;
            && (verdict.Retry? <==> TriesAgain(run, a, attempt))
            && (verdict.Ends? ==> (CanFailOver(verdict.outcome) <==> GivesWay(run, a)))
  {
    var a := run.behave(candidate, attempt);
    if a.Reads? {
      if i :| 0 <= i < |a.events| && IsTerminal(a.events[i]) {
        var first := TryReads(run, candidate, attempt, i);
      } else {
        FeedAll(run, a.events, a.aborted, false, attempt);
      }
    }
  }

  lemma FirstTerminal(events: seq<Event>, i: nat) returns (first: nat)
    requires i < |events| && IsTerminal(events[i])
    ensures first <= i && IsTerminal(events[first]) && forall j :: 0 <= j < first ==> !IsTerminal(events[j])
  {
    first := 0;
    while !IsTerminal(events[first])
      invariant first <= i && forall j :: 0 <= j < first ==> !IsTerminal(events[j])
      decreases i - first
    {
      first := first + 1;
    }
  }

  /** All attempts of a candidate but the last are tried again, and the last decides. */
  lemma {:induction false} AttemptsDecide(run: Run, candidate: nat, attempt: nat)
    requires attempt <= run.maxRetries
    ensures var (_, tried, outcome) := Attempts(run, candidate, attempt);
            && tried != []
            && (forall k :: attempt <= k < attempt + |tried| - 1 ==> Try(run, candidate, k).1.Retry?)
            && Try(run, candidate, attempt + |tried| - 1).1 == Ends(outcome)
    decreases run.maxRetries - attempt
  {
    if Try(run, candidate, attempt).1.Retry? {
      NeverTooOften(run, candidate, attempt);
      AttemptsDecide(run, candidate, attempt + 1);
    }
  }

  /** Whether a candidate gives way once it is left, by the failure of its lock or by its last attempt. */
  ghost predicate Leaves(run: Run, t: Visit) {
    match run.lock(t.candidate)
    case Refused(failure) => !failure.aborted && run.connectivity(failure.message)
    case Held(Some(failure)) => !failure.aborted && run.connectivity(failure.message)
    case Held(None) => t.Trying? && GivesWay(run, run.behave(t.candidate, t.attempt))
  }

  /**
   What comes after a visit: a lock that is held is followed by the first attempt, an attempt that is tried again by the
   next one, a candidate that gives way by the next candidate, and all else ends the run.
   */
  ghost predicate Continues(run: Run, n: nat, t: Visit, rest: seq<Visit>) {
    if t.Locking? && run.lock(t.candidate).Held? then rest != [] && rest[0] == Trying(t.candidate, 0)
    else if t.Trying? && TriesAgain(run, run.behave(t.candidate, t.attempt), t.attempt) then
      rest != [] && rest[0] == Trying(t.candidate, t.attempt + 1)
    else if Leaves(run, t) && t.candidate + 1 < n then rest != [] && rest[0] == Locking(t.candidate + 1)
    else rest == []
  }

  /** Every visit of a run, in either direction: the log is the one and only list that starts so and continues so. */
  lemma {:induction false} VisitsContinue(run: Run, n: nat, index: nat, i: nat)
    requires index < n && i < |Serialized(run, n, index).1|
    ensures var log := Serialized(run, n, index).1; Continues(run, n, log[i], log[i + 1..])
    decreases n - index
  {
    var log := Serialized(run, n, index).1;
    var (_, tried, outcome) := Candidate(run, index);
    CandidateInOrder(run, index);
    var hands := CanFailOver(outcome) && index + 1 < n;
    var more := if hands then Serialized(run, n, index + 1).1 else [];
    assert log == tried + more;
    if hands {
      CandidatesInOrder(run, n, index + 1);
    }
    if i >= |tried| {
      VisitsContinue(run, n, index + 1, i - |tried|);
      assert log[i + 1..] == more[i - |tried| + 1..];
    } else {
      LastVisit(run, index, i);
      if i == |tried| - 1 {
        assert log[i + 1..] == more;
      } else {
        assert log[i + 1..][0] == tried[i + 1];
      }
    }
  }

  lemma LastVisit(run: Run, candidate: nat, i: nat)
    requires i < |Candidate(run, candidate).1|
    ensures var (_, tried, outcome) := Candidate(run, candidate);
            if i < |tried| - 1 then
              (i == 0 && run.lock(candidate).Held?)
              || (tried[i].Trying? && TriesAgain(run, run.behave(candidate, tried[i].attempt), tried[i].attempt))
            else
              && (run.lock(candidate).Held? ==>
                    tried[i].Trying? && !TriesAgain(run, run.behave(candidate, tried[i].attempt), tried[i].attempt))
              && (CanFailOver(outcome) <==> Leaves(run, tried[i]))
  {
    CandidateInOrder(run, candidate);
    if run.lock(candidate).Held? {
      AttemptsDecide(run, candidate, 0);
      if i > 0 {
        TryPlainly(run, candidate, i - 1);
      }
    }
  }

  // ----- What is pushed -----

  /** What an attempt lets through: all before an early failure it is left for, else all through a terminal event. */
  ghost predicate LetsThrough(run: Run, a: Attempt, events: seq<Event>) {
    match a
    case Blocked(_) => events == []
    case Reads(all, _) =>
      && events <= all
      && if HandsOffEarly(run, a) then
           |events| < |all| && all[|events|].Error? && forall i :: 0 <= i < |events| ==> events[i].Start?
         else
           && (forall i :: 0 <= i < |events| - 1 ==> !events[i].Done? && !events[i].Error?)
           && (events == all || (events != [] && (events[|events| - 1].Done? || events[|events| - 1].Error?)))
  }

  lemma TryLetsThrough(run: Run, candidate: nat, attempt: nat)
    ensures LetsThrough(run, run.behave(candidate, attempt), Try(run, candidate, attempt).0)
  {
    var a := run.behave(candidate, attempt);
    if a.Reads? {
      if i :| 0 <= i < |a.events| && IsTerminal(a.events[i]) {
        var first := TryReads(run, candidate, attempt, i);
      } else {
        FeedAll(run, a.events, a.aborted, false, attempt);
      }
    }
  }

  /** These events are pushed one after the other, as events of that attempt. */
  ghost predicate Stretch(pushed: seq<Pushed>, events: seq<Event>, candidate: nat, attempt: nat) {
    exists before, after :: Parts(pushed, before, Tagged(events, candidate, attempt), after)
  }

  ghost predicate Parts(pushed: seq<Pushed>, before: seq<Pushed>, mine: seq<Pushed>, after: seq<Pushed>) {
    pushed == before + mine + after
  }

  lemma StretchWithin(a: seq<Pushed>, b: seq<Pushed>, c: seq<Pushed>, events: seq<Event>, candidate: nat, attempt: nat)
    requires Stretch(b, events, candidate, attempt)
    ensures Stretch(a + b + c, events, candidate, attempt)
  {
    var mine := Tagged(events, candidate, attempt);
    var before, after :| Parts(b, before, mine, after);
    assert Parts(a + b + c, a + before, mine, after + c);
  }

  lemma {:induction false} AttemptsPush(run: Run, candidate: nat, attempt: nat, k: nat)
    requires attempt <= run.maxRetries && attempt <= k < attempt + |Attempts(run, candidate, attempt).1|
    ensures Stretch(Attempts(run, candidate, attempt).0, Try(run, candidate, k).0, candidate, k)
    decreases run.maxRetries - attempt
  {
    var events := Try(run, candidate, attempt).0;
    var mine := Tagged(events, candidate, attempt);
    var all := Attempts(run, candidate, attempt).0;
    if k == attempt {
      if Try(run, candidate, attempt).1.Retry? {
        NeverTooOften(run, candidate, attempt);
        assert Parts(all, [], mine, Attempts(run, candidate, attempt + 1).0);
      } else {
        assert Parts(all, [], mine, []);
      }
    } else {
      NeverTooOften(run, candidate, attempt);
      AttemptsPush(run, candidate, attempt + 1, k);
      var rest := Attempts(run, candidate, attempt + 1).0;
      StretchWithin(mine, rest, [], Try(run, candidate, k).0, candidate, k);
      assert all == mine + rest + [];
    }
  }

  lemma CandidatePushes(run: Run, candidate: nat, k: nat, rest: seq<Pushed>)
    requires run.lock(candidate).Held? && k < |Attempts(run, candidate, 0).1|
    ensures LetsThrough(run, run.behave(candidate, k), Try(run, candidate, k).0)
    ensures Stretch(Candidate(run, candidate).0 + rest, Try(run, candidate, k).0, candidate, k)
  {
    AttemptsPush(run, candidate, 0, k);
    TryLetsThrough(run, candidate, k);
    StretchWithin([], Candidate(run, candidate).0, rest, Try(run, candidate, k).0, candidate, k);
    assert [] + Candidate(run, candidate).0 + rest == Candidate(run, candidate).0 + rest;
  }

  /** Every attempt of a run pushes what it lets through, and that alone. */
  lemma {:induction false} AttemptPushes(run: Run, n: nat, index: nat, i: nat)
    requires index < n && i < |Serialized(run, n, index).1| && Serialized(run, n, index).1[i].Trying?
    ensures var (pushed, log) := Serialized(run, n, index);
            exists events :: LetsThrough(run, run.behave(log[i].candidate, log[i].attempt), events)
                             && Stretch(pushed, events, log[i].candidate, log[i].attempt)
    decreases n - index
  {
    var (pushed, log) := Serialized(run, n, index);
    var (mine, tried, outcome) := Candidate(run, index);
    CandidateInOrder(run, index);
    var c, k := log[i].candidate, log[i].attempt;
    var hands := CanFailOver(outcome) && index + 1 < n;
    var rest := if hands then Serialized(run, n, index + 1).0 else Tagged(LastError(outcome), index, 0);
    assert pushed == mine + rest;
    if i < |tried| {
      CandidatePushes(run, index, k, rest);
    } else {
      AttemptPushes(run, n, index + 1, i - |tried|);
      var events :| LetsThrough(run, run.behave(c, k), events) && Stretch(rest, events, c, k);
      StretchWithin(mine, rest, [], events, c, k);
      assert mine + rest + [] == pushed;
    }
  }

  /** What a failure reads as. */
  ghost predicate Tells(e: Event, failure: Failure) {
    e == Error(if failure.aborted then "aborted" else failure.message)
  }

  /** The last event pushed, by the last visit: a failure, or the terminal event of the attempt. */
  ghost predicate EndsWith(run: Run, t: Visit, e: Event) {
    match run.lock(t.candidate)
    case Refused(failure) => Tells(e, failure)
    case Held(Some(failure)) => Tells(e, failure)
    case Held(None) =>
      t.Trying? && AttemptEndsWith(run, run.behave(t.candidate, t.attempt), e)
  }

  ghost predicate AttemptEndsWith(run: Run, a: Attempt, e: Event) {
    match a
    case Blocked(failure) => Tells(e, failure)
    case Reads(events, aborted) =>
      if HandsOffEarly(run, a) then e.Error? && FailsEarly(a, e.message)
      else if exists i :: 0 <= i < |events| && (events[i].Done? || events[i].Error?) then
        (e.Done? || e.Error?) && e in events
      else Tells(e, Failure(NO_TERMINAL, aborted))
  }

  lemma TryEnds(run: Run, candidate: nat, attempt: nat)
    requires Try(run, candidate, attempt).1.Ends?
    ensures var (events, verdict) := Try(run, candidate, attempt);
            var all := events + LastError(verdict.outcome);
            all != [] && AttemptEndsWith(run, run.behave(candidate, attempt), all[|all| - 1])
  {
    var a := run.behave(candidate, attempt);
    if a.Reads? {
      if i :| 0 <= i < |a.events| && IsTerminal(a.events[i]) {
        var first := TryReads(run, candidate, attempt, i);
      } else {
        FeedAll(run, a.events, a.aborted, false, attempt);
      }
    }
  }

  lemma {:induction false} AttemptsEnd(run: Run, candidate: nat, attempt: nat)
    requires attempt <= run.maxRetries
    ensures var (pushed, tried, outcome) := Attempts(run, candidate, attempt);
            var all := pushed + Tagged(LastError(outcome), candidate, 0);
            && all != [] && tried != [] && tried[|tried| - 1].Trying?
            && AttemptEndsWith(run, run.behave(candidate, tried[|tried| - 1].attempt), all[|all| - 1].event)
    decreases run.maxRetries - attempt
  {
    if Try(run, candidate, attempt).1.Retry? {
      NeverTooOften(run, candidate, attempt);
      AttemptsEnd(run, candidate, attempt + 1);
    } else {
      TryEnds(run, candidate, attempt);
    }
  }

  lemma CandidateEnds(run: Run, candidate: nat)
    ensures var (pushed, tried, outcome) := Candidate(run, candidate);
            var all := pushed + Tagged(LastError(outcome), candidate, 0);
            all != [] && tried != [] && EndsWith(run, tried[|tried| - 1], all[|all| - 1].event)
  {
    match run.lock(candidate)
    case Refused(failure) => FailureEnds(run, [], candidate, failure);
    case Held(None) =>
      AttemptsInOrder(run, candidate, 0);
      AttemptsEnd(run, candidate, 0);
    case Held(Some(failure)) =>
      AttemptsInOrder(run, candidate, 0);
      FailureEnds(run, Attempts(run, candidate, 0).0, candidate, failure);
  }

  lemma FailureEnds(run: Run, pushed: seq<Pushed>, candidate: nat, failure: Failure)
    ensures var all := pushed + Tagged(LastError(Caught(run, failure)), candidate, 0);
            all != [] && Tells(all[|all| - 1].event, failure)
  {
  }

  /** A run pushes last what its last visit says; an error the run makes up names the failure of that visit. */
  lemma {:induction false} RunEnds(run: Run, n: nat, index: nat)
    requires index < n
    ensures var (pushed, log) := Serialized(run, n, index);
            pushed != [] && log != [] && EndsWith(run, log[|log| - 1], pushed[|pushed| - 1].event)
    decreases n - index
  {
    var (pushed, tried, outcome) := Candidate(run, index);
    CandidateEnds(run, index);
    CandidateInOrder(run, index);
    if CanFailOver(outcome) && index + 1 < n {
      RunEnds(run, n, index + 1);
    }
  }

  /** How many attempts a candidate got. */
  function AttemptsOf(tried: seq<Visit>, candidate: nat): nat {
    if tried == [] then 0
    else
      var last := tried[|tried| - 1];
      AttemptsOf(tried[..|tried| - 1], candidate) + (if last.Trying? && last.candidate == candidate then 1 else 0)
  }

  lemma {:induction false} AttemptsOfBoth(a: seq<Visit>, b: seq<Visit>, candidate: nat)
    ensures AttemptsOf(a + b, candidate) == AttemptsOf(a, candidate) + AttemptsOf(b, candidate)
    decreases |b|
  {
    if b == [] {
      assert a + b == a;
    } else {
      assert (a + b)[..|a + b| - 1] == a + b[..|b| - 1];
      AttemptsOfBoth(a, b[..|b| - 1], candidate);
    }
  }

  lemma {:induction false} AttemptsOfOne(log: seq<Visit>, c: nat, candidate: nat)
    requires log != [] && log[0] == Locking(c) && forall i :: 0 < i < |log| ==> log[i] == Trying(c, i - 1)
    ensures AttemptsOf(log, candidate) == if c == candidate then |log| - 1 else 0
  {
    if |log| > 1 {
      AttemptsOfOne(log[..|log| - 1], c, candidate);
    } else {
      assert AttemptsOf(log[..0], candidate) == 0;
    }
  }

  /** In a whole run no candidate gets more than `maxRetries + 1` attempts, and one before `index` gets none. */
  lemma {:induction false} AttemptsBounded(run: Run, n: nat, index: nat, candidate: nat)
    ensures AttemptsOf(Serialized(run, n, index).1, candidate) <= if candidate < index then 0 else run.maxRetries + 1
    decreases n - index
  {
    if index < n {
      var (_, tried, outcome) := Candidate(run, index);
      CandidateInOrder(run, index);
      AttemptsOfOne(tried, index, candidate);
      if CanFailOver(outcome) && index + 1 < n {
        AttemptsBounded(run, n, index + 1, candidate);
        AttemptsOfBoth(tried, Serialized(run, n, index + 1).1, candidate);
      }
    }
  }

  // ----- Content from one attempt -----

  predicate SingleSource(pushed: seq<Pushed>) {
    forall i, j :: 0 <= i < j < |pushed| && IsContent(pushed[i].event) && IsContent(pushed[j].event) ==>
      pushed[i].candidate == pushed[j].candidate && pushed[i].attempt == pushed[j].attempt
  }

  predicate NoContent(pushed: seq<Pushed>) {
    forall i :: 0 <= i < |pushed| ==> !IsContent(pushed[i].event)
  }

  predicate HasContent(events: seq<Event>) {
    exists i :: 0 <= i < |events| && IsContent(events[i])
  }

  /**
   A stream gives content and ends without a terminal event, and then the release of its lock is rejected with what looks
   like a connectivity error: that error replaces the missing terminal event, and the run goes on elsewhere.
   */
  predicate FailsLate(run: Run, a: Attempt, lock: Lock) {
    && a.Reads? && HasContent(a.events) && (forall i :: 0 <= i < |a.events| ==> !IsTerminal(a.events[i]))
    && lock.Held? && lock.release.Some? && CanFailOver(Caught(run, lock.release.value))
  }

  lemma ContentInTail(e: Event, rest: seq<Event>)
    requires HasContent([e] + rest) && !IsContent(e)
    ensures HasContent(rest)
  {
    var i :| 0 <= i < |[e] + rest| && IsContent(([e] + rest)[i]);
    assert rest[i - 1] == ([e] + rest)[i];
  }

  /** After content without a terminal event, an attempt does not hand off by itself. */
  lemma {:induction false} FeedKeeps(run: Run, events: seq<Event>, aborted: bool, emitted: bool, attempt: nat)
    requires !run.connectivity(NO_TERMINAL)
    ensures var (pushed, verdict) := Feed(run, events, aborted, emitted, attempt);
            (emitted || HasContent(pushed)) && verdict != Ends(Completed) ==>
              && verdict.Ends? && !CanFailOver(verdict.outcome)
              && pushed == events && forall i :: 0 <= i < |events| ==> !IsTerminal(events[i])
  {
    if events != [] {
      var e := events[0];
      FeedKeeps(run, events[1..], aborted, emitted || IsContent(e), attempt);
      var (rest, verdict) := Feed(run, events[1..], aborted, emitted || IsContent(e), attempt);
      assert [e] + events[1..] == events;
      if HasContent([e] + rest) && !IsContent(e) {
        ContentInTail(e, rest);
      }
      forall i | 0 < i < |events| ensures events[i] == events[1..][i - 1] {
      }
    }
  }

  lemma {:induction false} AttemptsSingle(run: Run, candidate: nat, attempt: nat)
    requires attempt <= run.maxRetries && !run.connectivity(NO_TERMINAL)
    ensures var (pushed, _, outcome) := Attempts(run, candidate, attempt);
            && SingleSource(pushed)
            && (!outcome.Completed? && !NoContent(pushed) ==>
                  && !CanFailOver(outcome)
                  && exists k :: var a := run.behave(candidate, k);
                       a.Reads? && HasContent(a.events) && forall i :: 0 <= i < |a.events| ==> !IsTerminal(a.events[i]))
    decreases run.maxRetries - attempt
  {
    var (events, verdict) := Try(run, candidate, attempt);
    var mine := Tagged(events, candidate, attempt);
    match run.behave(candidate, attempt) {
      case Blocked(_) =>
      case Reads(es, aborted) =>
        FeedRetries(run, es, aborted, false, attempt);
        FeedKeeps(run, es, aborted, false, attempt);
    }
    if verdict.Retry? {
      NeverTooOften(run, candidate, attempt);
      AttemptsSingle(run, candidate, attempt + 1);
      assert NoContent(mine);
    } else if !HasContent(events) {
      assert NoContent(mine);
    }
  }

  /** A candidate that hands off with the output still open has pushed no content, unless it failed late. */
  lemma CandidateSingle(run: Run, candidate: nat)
    requires !run.connectivity(NO_TERMINAL)
    ensures var (pushed, _, outcome) := Candidate(run, candidate);
            && SingleSource(pushed)
            && (CanFailOver(outcome) && !Closed(pushed) && (forall k :: !FailsLate(run, run.behave(candidate, k), run.lock(candidate)))
                ==> NoContent(pushed))
  {
    AttemptsSingle(run, candidate, 0);
    AttemptsClose(run, candidate, 0);
  }

  lemma {:induction false} AcceptedPrefix(pushes: seq<Pushed>)
    ensures Accepted(pushes) <= pushes
  {
    if pushes != [] && !IsTerminal(pushes[0].event) {
      AcceptedPrefix(pushes[1..]);
    }
  }

  lemma JoinSingle(a: seq<Pushed>, b: seq<Pushed>)
    requires SingleSource(a) && SingleSource(Accepted(b)) && (Closed(a) || NoContent(a) || NoContent(Accepted(b)))
    ensures SingleSource(Accepted(a + b))
  {
    AcceptedMore(a, b);
    AcceptedPrefix(a);
  }

  /** If no candidate fails late, all content of the output comes from one attempt at one candidate. */
  lemma {:induction false} ContentFromOneAttempt(run: Run, n: nat, index: nat)
    requires index <= n && !run.connectivity(NO_TERMINAL)
    requires forall c, k :: !FailsLate(run, run.behave(c, k), run.lock(c))
    ensures SingleSource(Accepted(Serialized(run, n, index).0))
    decreases n - index
  {
    if index < n {
      var (pushed, _, outcome) := Candidate(run, index);
      CandidateSingle(run, index);
      if CanFailOver(outcome) && index + 1 < n {
        ContentFromOneAttempt(run, n, index + 1);
        JoinSingle(pushed, Serialized(run, n, index + 1).0);
      } else {
        AcceptedPrefix(Tagged(LastError(outcome), index, 0));
        JoinSingle(pushed, Tagged(LastError(outcome), index, 0));
      }
    }
  }

  /** In particular when every lock is released without an error, whatever the streams give and however they end. */
  lemma ReleasedSingleSource(run: Run, n: nat)
    requires !run.connectivity(NO_TERMINAL) && forall c: nat :: run.lock(c).Held? ==> run.lock(c).release.None?
    ensures SingleSource(Output(run, n))
  {
    ContentFromOneAttempt(run, n, 0);
  }

  /** The run of two candidates, the first of which is `late` under `lock`, is enough to mix their content. */
  lemma LateFailureMixes(run: Run, late: Attempt, lock: Lock, content: string, result: string)
    requires FailsLate(run, late, lock) && run.behave(0, 0) == late && run.lock(0) == lock && run.lock(1).Held?
    requires run.behave(1, 0) == Reads([Content(content), Done(result)], false)
    ensures !SingleSource(Output(run, 2))
  {
    FeedAll(run, late.events, late.aborted, false, 0);
    var (first, _, _) := Candidate(run, 0);
    assert first == Tagged(late.events, 0, 0);
    var second := [Content(content), Done(result)];
    assert second[1..] == [Done(result)] && [Done(result)][1..] == [];
    assert Feed(run, second, false, false, 0).0 == second;
    var rest := Serialized(run, 2, 1).0;
    assert rest[0] == Pushed(Content(content), 1, 0);
    assert Accepted(rest)[0] == rest[0];
    AcceptedMore(first, rest);
    var all := Output(run, 2);
    var i :| 0 <= i < |late.events| && IsContent(late.events[i]);
    assert all[i] == Pushed(late.events[i], 0, 0) && all[|first|] == rest[0];
  }

  const TIMEOUT := "Error: ETIMEDOUT"

  /**
   The stream of the first candidate stops after one piece of content, and its lock is released with a timeout; any other
   candidate answers.
   */
  function TimedOut(): Run {
    Run(_ => false, message => message == TIMEOUT, 0,
        candidate => Held(if candidate == 0 then Some(Failure(TIMEOUT, false)) else None),
        (candidate, attempt) =>
          if candidate == 0 then Reads([Content("half")], false) else Reads([Content("whole"), Done("whole")], false))
  }

  /** With two candidates, the consumer of that run gets content of both. */
  lemma TimeoutMixes()
    ensures Output(TimedOut(), 2)
            == [Pushed(Content("half"), 0, 0), Pushed(Content("whole"), 1, 0), Pushed(Done("whole"), 1, 0)]
    ensures !SingleSource(Output(TimedOut(), 2))
  {
    var run, half, whole := TimedOut(), [Content("half")], [Content("whole"), Done("whole")];
    assert half[1..] == [] && whole[1..] == [Done("whole")];
    assert Feed(run, half, false, false, 0).0 == half;
    assert [whole[0]] + [Done("whole")] == whole;
    assert Feed(run, [Done("whole")], false, true, 0) == ([Done("whole")], Ends(Completed));
    assert Feed(run, whole, false, false, 0) == (whole, Ends(Completed));
    assert Candidate(run, 0).0 == Tagged(half, 0, 0) == [Pushed(Content("half"), 0, 0)];
    assert Candidate(run, 1).0 == Tagged(whole, 1, 0) == [Pushed(Content("whole"), 1, 0), Pushed(Done("whole"), 1, 0)];
    var pushes := Serialized(run, 2, 0).0;
    assert pushes == [Pushed(Content("half"), 0, 0), Pushed(Content("whole"), 1, 0), Pushed(Done("whole"), 1, 0)];
    assert pushes[1..] == [Pushed(Content("whole"), 1, 0), Pushed(Done("whole"), 1, 0)];
    assert pushes[1..][1..] == [Pushed(Done("whole"), 1, 0)];
  }

  /** A stream without terminal events is pushed whole. */
  lemma {:induction false} FeedAll(run: Run, events: seq<Event>, aborted: bool, emitted: bool, attempt: nat)
    requires forall i :: 0 <= i < |events| ==> !IsTerminal(events[i])
    ensures Feed(run, events, aborted, emitted, attempt)
            == (events, Ends(if aborted then Aborted else Failed(run.connectivity(NO_TERMINAL), NO_TERMINAL)))
  {
    if events != [] {
      FeedAll(run, events[1..], aborted, emitted || IsContent(events[0]), attempt);
      assert [events[0]] + events[1..] == events;
    }
  }

  /** The streams and locks of a run are among these. */
  ghost predicate Within(run: Run, attempts: set<Attempt>, locks: set<Lock>) {
    (forall c, k :: run.behave(c, k) in attempts) && forall c :: run.lock(c) in locks
  }

  /** Content comes from one attempt in every run made of these, whatever the number of candidates. */
  ghost predicate AlwaysSingle(run: Run, attempts: set<Attempt>, locks: set<Lock>) {
    forall behave: (nat, nat) -> Attempt, lock: nat -> Lock, n: nat ::
      Within(run.(behave := behave, lock := lock), attempts, locks) ==>
        SingleSource(Output(run.(behave := behave, lock := lock), n))
  }

  /**
   For any streams and locks that may occur, one of them a stream that gives content and is done: content comes from one
   attempt in every run if and only if none of the streams fails late under one of the locks.
   */
  lemma SingleSourceIff(run: Run, attempts: set<Attempt>, locks: set<Lock>, content: string, result: string)
    requires !run.connectivity(NO_TERMINAL) && Reads([Content(content), Done(result)], false) in attempts
    ensures AlwaysSingle(run, attempts, locks)
            <==> (forall a, l :: a in attempts && l in locks ==> !FailsLate(run, a, l))
  {
    var good := Reads([Content(content), Done(result)], false);
    if forall a, l :: a in attempts && l in locks ==> !FailsLate(run, a, l) {
      forall behave: (nat, nat) -> Attempt, lock: nat -> Lock, n: nat
        | Within(run.(behave := behave, lock := lock), attempts, locks)
        ensures SingleSource(Output(run.(behave := behave, lock := lock), n))
      {
        var r := run.(behave := behave, lock := lock);
        forall c, k ensures !FailsLate(r, r.behave(c, k), r.lock(c)) {
          assert FailsLate(r, r.behave(c, k), r.lock(c)) == FailsLate(run, r.behave(c, k), r.lock(c));
        }
        ContentFromOneAttempt(r, n, 0);
      }
    } else {
      var late, bad :| late in attempts && bad in locks && FailsLate(run, late, bad);
      var behave := (c: nat, k: nat) => if c == 0 then late else good;
      var lock := (c: nat) => bad;
      var r := run.(behave := behave, lock := lock);
      assert FailsLate(r, late, bad);
      LateFailureMixes(r, late, bad, content, result);
      assert Within(r, attempts, locks);
    }
  }
}
