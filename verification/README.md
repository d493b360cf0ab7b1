# Verified models of the hard cores

Dafny models of the parts of this repository whose correctness spans many steps, and proofs of what those parts are for.
`dafny verify dfyconfig.toml` checks the whole project.

| files | what they model |
|---|---|
| `Utf8`, `OutputBounds`, `OutputBuffer`, `OutputRuns` | bounded output: what the window of a text is, the code that finds it, and the buffer that keeps only a fragment of a stream yet answers as if it kept all of it, over any run |
| `Progress` | paced progress writes: a timer, a write in flight and waiters |
| `Delta`, `PendingOps`, `Watch`, `NativeQueue` | watching a document: operations and how they fold, the delivery protocol with its five ways to end, and the queue of native values |
| `Transcript`, `ToolDeclarations`, `AgentEvents`, `AgentTools`, `AgentLoop`, `AgentRuns`, `Agent` | an agent run: tool declarations, the grammar of events, tool batches, the nested loops with their queues, what every run promises, and the agent that reduces the events |
| `ModelPublication` | refreshes of a provider's models: generations, abort signals and the chain of publications |
| `StrictJson` | copying and checking strict JSON in a graph of objects that may be shared or cyclic |
| `CatalogVersions` | version precedence and the choice of a catalog |
| `FailoverStream`, `LoopDetector`, `ShellQuote` | failover between local models, the tool-call guard, and quoting against tokenizing |

Concurrency is modelled by steps. What runs between two `await`s is one method of a class (`Watch`, `Progress`,
`ProviderRefreshes`); any interleaving is a sequence of calls, and the class invariant holds before each. `View()` gives a
class's fields as one value, methods say which function of the old value the new one is, and lemmas about values prove
what those functions keep. Logs of what happened are compared with protocols (`Step`, `EntryOk`) that do not mention the
fields of the code. The agent's loop is fed by a script: for each turn, what hooks, streams, tools and users do. It leaves
marks; `May` says which mark may come next, and at most one may, so a script determines its run (`RunDetermined`). A run
that needs more turns than its script has is a run still going on, and everything but its end is proved of it too.

Where the code does not do all that it or its documentation says:

- The tool that runs under a name is the first one. Replay declares it, for any transcript and pending messages, unless
  another tool of that name displaces it (`DeclaredToolsReplay` gives the exact condition). Two different tools of one
  name are declared in turn (`TwoToolsAlternate`), the wrong one first (`WrongToolDeclared`).
- Failover is said to happen only before any content. So it is as long as locks are released without an error
  (`ReleasedSingleSource`). A stream that gives content, ends without a terminal event, and whose lock is released with
  what reads as a connectivity error, such as `ETIMEDOUT` from a network file system, still makes the run go on at the
  next candidate, and content of two candidates is mixed (`TimeoutMixes`, `LateFailureMixes`, `SingleSourceIff`).
- Version comparison answers 0 for numeric identifiers that differ but have equal values, such as `01` and `1`, and
  ignores what follows; for two that are infinite as numbers it answers NaN. It is then no preorder (`PreorderIff`,
  `LeadingZerosConfuse`), yet selection is still right (`SelectModelCatalog`, by `After`).
- An empty list of failover candidates never gets a terminal event (`OneTerminal`).
- `storedBytes` is said to be bounded by the limits plus one chunk. In tail mode that holds, but for a byte, of all runs
  if and only if `maxBytes` is 0 or chunks may have `maxBytes + 4` bytes anyway (`StoredIff`): a snapshot joins what is
  stored into one chunk that stays until a window and a byte more follow it (`WorstStores`, `StoredWithin`).
- In one-at-a-time mode a second queued message is said to be kept for the next turn. After an assistant message,
  `Agent.continue` may run a queued follow-up as a prompt and take a steering message in the first poll of that run too;
  it does not exactly if steering gave the prompt or nothing steers by that poll (`OneBeforeRequest`,
  `TwoBeforeRequest`).

## Model

| member | source | states |
|---|---|---|
| `Utf8.EncodeInjective` | packages/chord/src/output.ts:52-63 | text has one encoding: two texts with the same bytes are the same |
| `Utf8.DecodeEncode` | packages/chord/src/output.ts:52-63 | decoding the bytes of a text, character by character, gives the text back |
| `Utf8.EncodingTable` | packages/chord/src/output.ts:52-63 | which bytes a character has: the ranges of RFC 3629, section 3, written as arithmetic on its code point |
| `Utf8.ShortestForm` | packages/chord/src/output.ts:52-63 | no sequence of a lead byte and its continuation bytes that carries a character is shorter than its encoding |
| `Utf8.BoundarySplits` | packages/chord/src/output.ts:105-117 | every character boundary in the bytes of a text is a place between two of its characters, and both sides are encodings |
| `Utf8.BoundaryNear` | packages/chord/src/output.ts:105-117 | a character boundary is never more than three bytes before a place |
| `Utf8.NewlineIsWhole` | packages/chord/src/output.ts:64-103 | a newline byte is always a whole character, so a cut beside one is a cut between characters |
| `OutputBounds.BoundOutput` | packages/chord/src/output.ts:52-63 | the slice of a text: its window, the bytes and lines dropped; a specification with one solution |
| `OutputBounds.BoundedUnique` | packages/chord/src/output.ts:52-63 | no two different slices meet that specification for the same text and limits |
| `OutputBounds.WindowOnBoundaries` | packages/chord/src/output.ts:52-116 | both ends of every window lie on character boundaries |
| `OutputBounds.WindowQuality` | packages/chord/src/output.ts:64-103 | a window is within `maxBytes` and `maxLines`, and cuts inside a line only when no window at a line edge fits |
| `OutputBounds.WindowLongest` | packages/chord/src/output.ts:64-103 | no longer stretch of whole lines at the kept end is within the limits, and a window that cuts inside a line is less than four bytes short of `maxBytes`; lines are counted by the byte 10 |
| `OutputBounds.LinesAre` | packages/chord/src/output.ts:118-122 | lines are the bytes 10 of a text, and one more for text after the last of them |
| `OutputBounds.HeadRange` | packages/chord/src/output.ts:64-80 | the head window: the longest prefix at a line end that fits, or else the longest whole characters |
| `OutputBounds.TailRange` | packages/chord/src/output.ts:81-103 | the tail window: the longest suffix at a line start that fits, or else the longest whole characters |
| `OutputBounds.CharacterEnd` | packages/chord/src/output.ts:105-110 | the last character boundary not after an index |
| `OutputBounds.CharacterStart` | packages/chord/src/output.ts:112-116 | the first character boundary not before an index |
| `OutputBounds.LineCount` | packages/chord/src/output.ts:118-122 | lines counted by searching newlines: an unterminated last line counts |
| `OutputBuffers.TailWindowOfSuffix` | packages/chord/src/output.ts:130-222 | once a fragment exceeds the window by a byte or a newline, its tail window is the tail window of everything before it too |
| `OutputBuffers.HeadWindowOfPrefix` | packages/chord/src/output.ts:192-222 | once a fragment fills the window, its head window is that of whatever follows |
| `OutputBuffers.FragmentRefines` | packages/chord/src/output.ts:223-248 | bounding the fragment that is kept, with dropped counts moved by the totals, is bounding the whole stream |
| `OutputBuffers.TailMargin` | packages/chord/src/output.ts:250-264 | the margin is the shortest suffix that still exceeds the window, or all of the text; at most four bytes over `maxBytes` |
| `OutputBuffers.AcceptInv` | packages/chord/src/output.ts:192-222 | accepting a chunk keeps the counts, a fragment that suffices for the stream, and the bound on what is stored |
| `OutputBuffers.SkipInv` | packages/chord/src/output.ts:177-187 | after a skip and the chunk that follows it, the fragment suffices for the stream with the skipped text in it |
| `OutputBuffers.DropInv` | packages/chord/src/output.ts:207-221 | dropping leading chunks, as many as the loop drops, keeps the invariant and leaves the stored bytes bounded |
| `OutputBuffers.TrimInv` | packages/chord/src/output.ts:223-248 | storing only the margin at a snapshot keeps the invariant |
| `OutputBuffers.SnapshotCounts` | packages/chord/src/output.ts:223-248 | the running counters are the bytes and lines of the stored text and of the whole stream |
| `OutputBuffers.KeptOfStream` | packages/chord/src/output.ts:223-248 | the arithmetic on the counters turns the slice of what is kept into the slice of the stream |
| `OutputBuffers.OutputBuffer.constructor` | packages/chord/src/output.ts:148-151 | an empty buffer |
| `OutputBuffers.OutputBuffer.Push` | packages/chord/src/output.ts:161-176 | a push adds the decoder's pending text, the skipped text and the chunk to the stream and leaves exactly the state the runs below go through; in head mode a skip is refused, and nothing is accepted |
| `OutputBuffers.OutputBuffer.SkipOutput` | packages/chord/src/output.ts:177-187 | a skip clears what is stored and counts what was skipped |
| `OutputBuffers.OutputBuffer.AcceptText` | packages/chord/src/output.ts:192-222 | the in-place update is the value-level step of `AcceptInv` |
| `OutputBuffers.OutputBuffer.DropLeading` | packages/chord/src/output.ts:207-221 | the loop over leading chunks is the value-level step of `DropInv` |
| `OutputBuffers.OutputBuffer.Snapshot` | packages/chord/src/output.ts:223-248 | a snapshot is the slice of the whole stream ever pushed or skipped, in both modes, after any pushes, snapshots and skips; it leaves the margin stored |
| `OutputBuffers.MarginUnique` | packages/chord/src/output.ts:250-264 | there is only one margin: the shortest suffix that exceeds the window, or everything |
| `OutputRuns.AfterInv` | packages/chord/src/output.ts:161-248 | after every run of pushes, allowed skips and snapshots the invariant holds, and the stream is what was said, in order |
| `OutputRuns.RunRefines` | packages/chord/src/output.ts:161-248 | after every such run, bounding what is stored, with dropped counts moved, is bounding all that was said |
| `OutputRuns.StoredWithin` | packages/chord/src/output.ts:153-156 | with chunks of at most `c` bytes, a run stores at most `maxBytes + c` bytes in head mode; in tail mode at most `maxBytes + 1` and the larger of `c` and what a snapshot can join, `maxBytes` and a character of at most `c` bytes |
| `OutputRuns.WorstStores` | packages/chord/src/output.ts:153-156 | a run that reaches the tail bound: a character of `n` bytes, `maxBytes` one-byte chunks, a snapshot, `maxBytes + 1` one-byte chunks, and `2 * maxBytes + 1 + n` bytes are stored |
| `OutputRuns.StoredIff` | packages/chord/src/output.ts:153-156 | all runs with chunks of at most `c` bytes stay within `maxBytes`, a byte and one chunk if and only if the mode is head, `maxBytes` is 0, or `c` is at least `maxBytes + 4` |
| `ProgressPacing.RateBound` | packages/chord/src/output.ts:306-409 | between the starts of any two commits of a paced run, `writes[i]` and `writes[j]`, at most 102400 bytes are written per second |
| `ProgressPacing.Spacing` | packages/chord/src/output.ts:387-409 | whatever became of the writes, `writes[j]` starts at least `j - i` minimum intervals after `writes[i]` |
| `ProgressPacing.PacedPlainly` | packages/chord/src/output.ts:387-409 | the start after a write: a failed one delays it by the minimum interval, a successful one by the larger of that and a second for each 102400 bytes, and no more |
| `ProgressPacing.AllSettled` | packages/chord/src/output.ts:359-409 | a waiter taken by a write is settled by a write that started after it registered |
| `ProgressPacing.Progress.constructor` | packages/chord/src/output.ts:340-350 | nothing pending, no write |
| `ProgressPacing.Progress.Mark` | packages/chord/src/output.ts:353-357 | an unwritten change has a timer or a write behind it unless stopped; at most one write starts |
| `ProgressPacing.Progress.MarkAndWait` | packages/chord/src/output.ts:359-366 | the same, and a new waiter that remembers how many writes had started |
| `ProgressPacing.Progress.Schedule` | packages/chord/src/output.ts:375-386 | a timer, a write at once when the pause is over, or nothing while a write or timer is there |
| `ProgressPacing.Progress.Flush` | packages/chord/src/output.ts:387-409 | one write starts with all waiters, at least the pause after the one before it |
| `ProgressPacing.Progress.TimerFires` | packages/chord/src/output.ts:375-386 | the timer starts the write, or waits again when it is early |
| `ProgressPacing.Progress.Settle` | packages/chord/src/output.ts:387-409 | the next allowed start is exactly the minimum interval after a failed write, and after a successful one the larger of that and its bytes at 102400 per second |
| `ProgressPacing.Progress.Finish` | packages/chord/src/output.ts:387-409 | after a write, a change made meanwhile is scheduled |
| `ProgressPacing.Progress.Stop` | packages/chord/src/output.ts:367-373 | no timer survives a stop |
| `ProgressPacing.Progress.TakeWaiters` | packages/chord/src/output.ts:367-373 | the waiters returned after a stop are exactly those no write took; every other one was settled |
| `Delta.ApplyConcat` | packages/chord/src/delta/index.ts:340-420 | applying two lists of operations in a row is applying their concatenation |
| `Delta.OnObject` | packages/chord/src/delta/index.ts:340-420 | what each operation does to a property of an object |
| `Delta.OnElement` | packages/chord/src/delta/index.ts:340-420 | what each does to an element of an array, and where it is refused |
| `Delta.OnArray` | packages/chord/src/delta/index.ts:340-420 | a splice takes out and puts in at its place; a permutation puts each item where it says, and is refused unless it is one |
| `Delta.OnChild` | packages/chord/src/delta/index.ts:340-420 | an operation with a longer path is the operation on the child, which is put back |
| `Delta.EditElsewhere` | packages/chord/src/delta/index.ts:527-566 | an edit leaves what lies at an unrelated path as it was |
| `Delta.EditsCommute` | packages/chord/src/delta/index.ts:344-420 | edits at unrelated paths commute, wherever the second one works without the first |
| `Delta.LeafMakesNoContainer` | packages/chord/src/delta/index.ts:344-420 | an edit with a primitive result creates no object or array anywhere |
| `Delta.MergeSound` | packages/chord/src/delta/pending.ts:167-173 | a merged pair of leaf operations does what the two did in a row |
| `PendingQueue.MoveBack` | packages/chord/src/delta/pending.ts:108-155 | a later leaf edit can be moved back over operations that do not touch its path |
| `PendingQueue.BetweenIsIncomparable` | packages/chord/src/delta/pending.ts:108-155 | operations between two leaf edits of one path are at unrelated paths |
| `PendingQueue.FoldOneSound` | packages/chord/src/delta/pending.ts:108-155 | folding one operation into the queue keeps its effect: merged in place, or appended |
| `PendingQueue.StreamFolds` | packages/chord/src/delta/pending.ts:108-173 | however many text operations are streamed into an empty queue, one for each of their paths waits |
| `PendingQueue.TextsFold` | packages/chord/src/delta/pending.ts:108-173 | the same of a queue that already holds one text operation for each of its paths |
| `PendingQueue.PendingOps.constructor` | packages/chord/src/delta/pending.ts:51-54 | an empty queue |
| `PendingQueue.PendingOps.Push` | packages/chord/src/delta/pending.ts:55-80 | the queue then stands for all batches pushed since the last take, in order, or has overflowed, which only more than 10000 operations make it do; a replacement in it was pushed |
| `PendingQueue.PendingOps.FoldAll` | packages/chord/src/delta/pending.ts:108-133 | folding a batch keeps its effect and at most 10000 operations, or reports overflow, and then more than 10000 were pushed |
| `PendingQueue.PendingOps.TakeAll` | packages/chord/src/delta/pending.ts:93-105 | the operations taken turn the value at the last take into the newest one; after an overflow, and after nothing else, a replacement is asked for |
| `WatchProtocol.NothingAfterClose` | packages/chord/src/watch.ts:253-265 | after the watch ends nothing happens but the return of a call already running, so the first end is the only one |
| `WatchProtocol.CallsDoNotOverlap` | packages/chord/src/watch.ts:220-246 | between the beginnings of two listener calls lies the end of the first |
| `WatchProtocol.RetirementsReported` | packages/chord/src/watch.ts:287-393 | a value call says `retired` if and only if a retirement was accepted since the value call before it |
| `WatchProtocol.Reconstruction` | packages/chord/src/watch.ts:287-393 | each value call carries the newest source value at that moment, and its operations turn the replica of a listener that applied all calls so far into it |
| `WatchProtocol.OperationsDelivered` | packages/chord/src/watch.ts:349-367 | a value call carries the folded operations: it replaces the document only if a failure was accepted since the value call before, a frame replaces it, or more than 10000 operations came; and it never carries more operations than came |
| `WatchProtocol.ReplicaFollows` | packages/chord/src/watch.ts:287-393 | the replica is at every moment the value last delivered |
| `WatchProtocol.DeliveredCoversAll` | packages/chord/src/watch.ts:174-187 | when a watch ends because its source was done and all was delivered, every accepted frame was followed by a call, and none runs |
| `WatchProtocol.FoldingFine` | packages/chord/src/watch.ts:308-325 | a value frame keeps the pending call the one that is due |
| `WatchProtocol.ReplacingFine` | packages/chord/src/watch.ts:308-325 | so does a value frame after a failure |
| `WatchProtocol.FailingFine` | packages/chord/src/watch.ts:330-343 | so does a failure |
| `WatchProtocol.Watch.constructor` | packages/chord/src/watch.ts:126-130 | an open watch with an empty log |
| `WatchProtocol.Watch.Start` | packages/chord/src/watch.ts:140-146 | starts once, unless ended, and schedules a drain |
| `WatchProtocol.Watch.Advance` | packages/chord/src/watch.ts:308-325 | an open watch accepts the frame; a drain is then scheduled or running if it was started |
| `WatchProtocol.Watch.Fail` | packages/chord/src/watch.ts:330-343 | the same for a failure, which drops what is pending |
| `WatchProtocol.Watch.EndNow` | packages/chord/src/watch.ts:148-173 | `stop`, an abort or the source ends the watch at once, with the first reason only |
| `WatchProtocol.Watch.EndAfterDelivery` | packages/chord/src/watch.ts:182-187 | the source is done; the watch ends at once only when nothing is pending or running |
| `WatchProtocol.Watch.Terminate` | packages/chord/src/watch.ts:253-265 | the first end is kept, pending work is dropped, and a running call goes on |
| `WatchProtocol.Watch.Microtask` | packages/chord/src/watch.ts:207-228 | the scheduled microtask begins the call that is due, ends a done watch, or leaves an ended or running one alone |
| `WatchProtocol.Watch.ListenerReturns` | packages/chord/src/watch.ts:220-246 | when a call returns the next one begins if one is due, else a done watch ends |
| `WatchProtocol.Watch.ListenerThrows` | packages/chord/src/watch.ts:236-246 | a throwing listener ends the watch unless it ended before |
| `WatchProtocol.Watch.DrainNext` | packages/chord/src/watch.ts:220-246 | one turn of the drain loop: call, end, or exit |
| `WatchProtocol.Watch.Next` | packages/chord/src/watch.ts:349-367 | the call taken is one the protocol allows: newest value, folded operations or a replacement, the retirement flag, and the frame itself when it came alone |
| `WatchProtocol.Watch.NextAfterFailure` | packages/chord/src/watch.ts:369-382 | after a failure the call is that failure, or the newest value as a replacement |
| `NativeQueues.NativeQueue.constructor` | packages/chord/src/watch.ts:406-425 | an empty queue |
| `NativeQueues.NativeQueue.Push` | packages/chord/src/watch.ts:426-442 | the array with its read index is a first-in first-out queue that collapses to one value beyond 100, and never has more than 398 slots |
| `NativeQueues.NativeQueue.Fail` | packages/chord/src/watch.ts:444-451 | a failure empties the queue and waits alone |
| `NativeQueues.NativeQueue.PendingContext` | packages/chord/src/watch.ts:453-456 | the context of the oldest value, or of the failure |
| `NativeQueues.NativeQueue.Next` | packages/chord/src/watch.ts:458-483 | the oldest value is taken and the others stay, in order, whichever way the array is cleared or compacted |
| `NativeQueues.NativeQueue.Release` | packages/chord/src/watch.ts:485-491 | nothing is kept |
| `NativeQueues.CallsInOrder` | packages/chord/src/watch.ts:458-483 | a listener that takes all that waits gets every value once, the oldest first |
| `NativeQueues.BacklogKept` | packages/chord/src/watch.ts:426-442 | up to 100 values are all kept, in order |
| `NativeQueues.NewestIsLast` | packages/chord/src/watch.ts:426-442 | whatever came before, the newest value is the last in the queue |
| `ToolDeclarations.DifferencesDeclare` | packages/ai/src/utils/transcript.ts:150-167 | removing and adding the differences declares the last of the current tools under every name, exactly unless a shadowed tool brings back an old declaration |
| `ToolDeclarations.DeclareToolChanges` | packages/agent/src/agent-loop.ts:342-372 | the loop and its branches compute the declaration that the lemmas below speak of |
| `ToolDeclarations.LastToolReplays` | packages/agent/src/agent-loop.ts:332-372 | replaying the transcript and the declared messages gives the last tool under a name, as a map by name would, exactly unless it is shadowed |
| `ToolDeclarations.DeclaredToolsReplay` | packages/agent/src/agent-loop.ts:332-372 | replay gives the tool that runs under a name, the first of that name, if and only if it is not displaced: of the tools of that name the model does not know as they are, the last is declared like it; for any transcript and any pending mix |
| `ToolDeclarations.DistinctToolsReplay` | packages/agent/src/agent-loop.ts:332-372 | with tool names that do not repeat, replay always yields exactly `context.tools` |
| `ToolDeclarations.LastTouchDecides` | packages/ai/src/utils/transcript.ts:58-66 | the last system message that touches a name decides what is declared under it: the last tool it adds there, or none |
| `ToolDeclarations.ToolsDeclared` | packages/agent/src/agent-loop.ts:332-372 | with names of their own, exactly the tools of the context are declared, each by its definition |
| `ToolDeclarations.DeclaredOnce` | packages/agent/src/agent-loop.ts:342-372 | and what is declared once is not declared again |
| `ToolDeclarations.TwoToolsAlternate` | packages/agent/src/agent-loop.ts:332-372 | two different tools of one name, in any context and any pending mix: the second is declared whenever the model does not know it, the first only when it does |
| `ToolDeclarations.WrongToolDeclared` | packages/agent/src/agent-loop.ts:718-733 | a concrete context where the second is declared although the first is the one that runs |
| `ToolDeclarations.OthersUnchanged` | packages/agent/src/agent-loop.ts:342-384 | every other pending message, all contents and their order stay; at most one system message is added in front |
| `AgentEvents.RunShape` | packages/agent/src/agent-loop.ts:111-330 | a finished trace is `agent_start`, one or more turns that all end, and one `agent_end` with the messages of its `message_end` events |
| `AgentEvents.ToolsEndBeforeTurn` | packages/agent/src/agent-loop.ts:518-700 | when a turn ends, every started tool execution, whatever its id, has ended as often as it started |
| `AgentEvents.TranscriptsAgree` | packages/agent/src/agent.ts:600-647 | after a run the reducer's transcript is what it was plus the messages of the run, nothing streams and no tool call is pending |
| `AgentEvents.ReducerFollows` | packages/agent/src/agent.ts:600-647 | along the trace the reducer's transcript, streaming message and pending calls follow it |
| `AgentEvents.ReducerStreams` | packages/agent/src/agent.ts:600-614 | a message streams as its last start or update showed it, until it or the run ends |
| `AgentEvents.ReducerPending` | packages/agent/src/agent.ts:616-628 | a call is pending exactly while it has started and not ended since, over any events |
| `AgentEvents.ReducerErrors` | packages/agent/src/agent.ts:630-634 | the error message is that of the last turn that ended with one |
| `AgentEvents.PairsAccepted` | packages/agent/src/agent-loop.ts:127-130 | messages that are not streamed go out as balanced pairs |
| `AgentTools.StreamResponse` | packages/agent/src/agent-loop.ts:390-479 | the events and the context a response stream leaves, with `start`, updates and the final message |
| `AgentTools.StreamShows` | packages/agent/src/agent-loop.ts:421-478 | from its first start on, every partial of a stream is shown as it comes, and then the final message; without a start, that alone |
| `AgentTools.StreamAccepted` | packages/agent/src/agent-loop.ts:390-479 | a response keeps the grammar if and only if its stream has at most one `start` |
| `AgentTools.ResponseKeepsTranscripts` | packages/agent/src/agent-loop.ts:390-479 | then both transcripts gain exactly the final message; with a second `start` neither does |
| `AgentTools.ResultsAnswerPrefix` | packages/agent/src/agent-loop.ts:540-700 | results answer the tool calls in source order with matching ids: all of them, or those up to the first abort |
| `AgentTools.ShouldTerminate` | packages/agent/src/agent-loop.ts:700-702 | a batch ends the loop only if it has results and every one says so |
| `AgentTools.ExecuteSequential` | packages/agent/src/agent-loop.ts:540-594 | the sequential loop, with its break on abort, leaves these events and results |
| `AgentTools.CallShows` | packages/agent/src/agent-loop.ts:550-584 | one call: its start, one update for each partial result of a tool that ran, its end, and its result as a message with its id and name |
| `AgentTools.SequentialShows` | packages/agent/src/agent-loop.ts:540-594 | the calls up to an abort, each of them whole before the next |
| `AgentTools.ExecuteParallel` | packages/agent/src/agent-loop.ts:596-698 | the parallel batch: prepared in order, finished in any order, reported in source order |
| `AgentTools.PrepareShows` | packages/agent/src/agent-loop.ts:604-654 | every call of a parallel batch up to an abort is announced first, and one that may not run ends at once |
| `AgentTools.PairsShow` | packages/agent/src/agent-loop.ts:656-665 | then each result starts and ends as a message, in order |
| `AgentTools.SequentialAccepted` | packages/agent/src/agent-loop.ts:540-594 | its events keep the grammar and end every execution they start |
| `AgentTools.ParallelAccepted` | packages/agent/src/agent-loop.ts:596-698 | so do those of a parallel batch, for every order of updates and completions |
| `AgentTools.FailTruncated` | packages/agent/src/agent-loop.ts:488-516 | a truncated message's calls are failed one by one |
| `AgentTools.TruncatedAnswersAll` | packages/agent/src/agent-loop.ts:488-516 | all of them are answered, in order, with an error, none is executed, and the loop goes on |
| `AgentLoop.DrainTakesPrefix` | packages/agent/src/agent.ts:163-175 | a drain takes everything in mode `all`, exactly the first message one at a time, and leaves the rest in order |
| `AgentLoop.Respond` | packages/agent/src/agent-loop.ts:250-287 | the response and the tool batch: which events, which results, and whether they ask for another request |
| `AgentLoop.RespondAccepted` | packages/agent/src/agent-loop.ts:250-287 | a turn's response and tools are balanced and add the same messages to both transcripts |
| `AgentLoop.Poll` | packages/agent/src/agent.ts:163-175 | a poll gets what the mode says of all that is queued, and leaves the rest: nothing in mode `all` |
| `AgentLoop.PrepareTurn` | packages/agent/src/agent-loop.ts:193-217 | waiting messages are kept as they are, or steering is polled once more; the context is the hook's if it gave one; the turn starts |
| `AgentLoop.InjectPending` | packages/agent/src/agent-loop.ts:219-226 | prepared and waiting messages, with the tool changes they need, are emitted, recorded and put into the context |
| `AgentLoop.MakeRequest` | packages/agent/src/agent-loop.ts:228-249 | the request is made from the context as it is, and the hook may replace it |
| `AgentLoop.AnswerRequest` | packages/agent/src/agent-loop.ts:250-296 | exactly the events of the script's stream and tools, then `turn_end`; the final message and the results join the context and the run's messages |
| `AgentLoop.TakeTurn` | packages/agent/src/agent-loop.ts:193-296 | one turn: prepared, injected, requested, answered and ended, each as a run may |
| `AgentLoop.PollLate` | packages/agent/src/agent-loop.ts:304-304 | the steering poll after a turn that goes on |
| `AgentLoop.NextTurn` | packages/agent/src/agent-loop.ts:193-307 | the body of the inner loop: it ends the run exactly if the turn failed or was told to end it, and otherwise polls steering |
| `AgentLoop.TakeTurns` | packages/agent/src/agent-loop.ts:189-308 | the inner loop stops at a turn that ends the run, or at one whose tools want no answer and after which nothing steers, or where the script does |
| `AgentLoop.PollLast` | packages/agent/src/agent-loop.ts:310-317 | the follow-up poll gets what the mode says of all follow-ups queued |
| `AgentLoop.Conclude` | packages/agent/src/agent-loop.ts:310-329 | where the run would stop it goes on for a follow-up, or if the turn asked for it, and is over otherwise |
| `AgentLoop.EndRun` | packages/agent/src/agent-loop.ts:298-301 | `agent_end` carries the messages of the run |
| `AgentLoop.RunLoop` | packages/agent/src/agent-loop.ts:172-330 | for every script of hooks, streams, tools and users, the run leaves marks that a run may leave and stands where they lead; it is stopped, or another turn is due that the script does not have |
| `AgentLoop.RunAgentLoop` | packages/agent/src/agent-loop.ts:111-135 | the same from prompts, which are declared and emitted first |
| `AgentLoop.RunAgentLoopContinue` | packages/agent/src/agent-loop.ts:137-160 | the same from the transcript as it is; refused exactly when that is empty or ends with an assistant message |
| `AgentRuns.RunDetermined` | packages/agent/src/agent-loop.ts:172-330 | what a run begins with and its script leave one possible run: its marks, context, messages, events and queues, and whether it ends |
| `AgentRuns.GoesOnExactly` | packages/agent/src/agent-loop.ts:189-327 | every turn but the last is followed by another for a reason: its tools want an answer, steering or a follow-up was queued at the polls after it, or it asked; the last has such a reason if and only if the run is not finished |
| `AgentRuns.EndsIdle` | packages/agent/src/agent-loop.ts:310-329 | a run that ends by itself, not for a failure or a decision, leaves both queues empty and no tool batch to answer |
| `AgentRuns.CourseTraced` | packages/agent/src/agent-loop.ts:172-330 | at every mark of every run the events keep the grammar, and every message of the run is in them |
| `AgentRuns.FinishedShape` | packages/agent/src/agent-loop.ts:111-330 | a finished run is `agent_start`, as many turns as it took, and `agent_end` with the messages of the run |
| `AgentRuns.TurnAnswers` | packages/agent/src/agent-loop.ts:250-287 | the results of a turn by its stop reason: none after an error or an abort, an error for every call when truncated, else the tools' results up to an abort; it wants an answer exactly if some result does not ask to end |
| `AgentRuns.FailureEnds` | packages/agent/src/agent-loop.ts:254-301 | a failed response, or the decision to end, ends the run at once: no poll follows, and a failed response leaves nothing but itself |
| `AgentRuns.OtherwisePolled` | packages/agent/src/agent-loop.ts:298-307 | after any other turn steering is polled |
| `AgentRuns.FirstRequestFrom` | packages/agent/src/agent-loop.ts:176-233 | the first request is made from the transcript, the prompts and what is injected |
| `AgentRuns.RequestsChain` | packages/agent/src/agent-loop.ts:193-287 | each later request is made from the context of the one before it, or what `prepareRequest` put in its place, with its response and results, unless `prepareNextTurn` gives another context, and then what is injected |
| `AgentRuns.MessagesKept` | packages/agent/src/agent-loop.ts:219-287 | the run's messages are the prompts and what each injection and turn adds, and the context gains the same unless a hook swaps it |
| `AgentRuns.RunAgrees` | packages/agent/src/agent.ts:600-647 | the agent's transcript after any run, finished or not, is the old one plus `newMessages`, and equals the loop's context unless a hook swaps it |
| `AgentRuns.QueuesConserved` | packages/agent/src/agent.ts:149-190 | over any run each queue's initial and newly queued messages are those injected, in order, then those a last poll got before the script ran out, then those still queued |
| `AgentRuns.PollsByMode` | packages/agent/src/agent.ts:163-175 | in every run a poll takes the front of what is queued by then: all of it in mode `all`, else one message if there is any |
| `AgentRuns.AllInjected` | packages/agent/src/agent.ts:163-175 | in mode `all` an injection carries everything queued at the poll before it, and the queue is empty then |
| `AgentRuns.PolledAgain` | packages/agent/src/agent-loop.ts:208-217 | a later request that carries nothing queued was made after one more steering poll, at which nothing was queued |
| `AgentRuns.ArrivalsPolled` | packages/agent/src/agent-loop.ts:176-317 | each poll finds the messages that were queued before it |
| `AgentRuns.FollowUpsLast` | packages/agent/src/agent-loop.ts:304-317 | a follow-up is injected only after a turn whose tools want no answer and a poll at which no steering message was queued; none is queued at the injection |
| `AgentRuns.OneInjectionBetweenRequests` | packages/agent/src/agent-loop.ts:210-226 | between two consecutive requests there is exactly one injection, of at most one queued message in one-at-a-time mode |
| `AgentRuns.FirstInjection` | packages/agent/src/agent-loop.ts:176-187 | the first request of a run carries what the first poll takes of all that is queued by then, nothing if that poll is skipped |
| `AgentRuns.RequestsDeclare` | packages/agent/src/agent-loop.ts:219-233 | every request is made from a context whose transcript declares its tools as they run, each by its definition and no other, if no two share a name |
| `AgentRuns.InjectionsCarry` | packages/agent/src/agent-loop.ts:219-226 | every injection ends with the prepared messages and then the queued ones, in order, but for the tools a system message declares |
| `AgentRuns.DeclareCarries` | packages/agent/src/agent-loop.ts:219-225 | declaring tools does not lose, change or reorder prepared and queued messages |
| `Agents.PendingMessageQueue.constructor` | packages/agent/src/agent.ts:149-155 | an empty queue |
| `Agents.PendingMessageQueue.Enqueue` | packages/agent/src/agent.ts:157-159 | a message goes to the end, and the others stay |
| `Agents.PendingMessageQueue.Drain` | packages/agent/src/agent.ts:171-175 | the drained messages and the rest are the queue, split in two; nothing is left in mode `all`, and one at a time one message is taken if there is any |
| `Agents.PendingMessageQueue.RemoveAt` | packages/agent/src/agent.ts:181-185 | removes the message at an index, or nothing when there is none |
| `Agents.PendingMessageQueue.Remove` | packages/agent/src/agent.ts:187-189 | removes the first occurrence of a message, if there is one, and keeps the others in order |
| `Agents.Agent.constructor` | packages/agent/src/agent.ts:240-273 | an idle agent |
| `Agents.Agent.ProcessEvent` | packages/agent/src/agent.ts:600-638 | the in-place reducer is the reducer the trace lemmas speak of |
| `Agents.Agent.Process` | packages/agent/src/agent.ts:542-591 | a run's events all reach the reducer, a finished run leaves the agent idle, and there is an error message exactly if some turn ended with one |
| `Agents.Agent.Prompt` | packages/agent/src/agent.ts:466-480 | a prompted run extends the agent's transcript by exactly its messages, and agrees with the loop's context |
| `Agents.Agent.ContinueTranscript` | packages/agent/src/agent.ts:482-492 | so does a continuation |
| `Agents.Agent.Continue` | packages/agent/src/agent.ts:418-445 | after an assistant message only queued messages go on, steering first and follow-ups only without steering; it refuses exactly for a transcript of system messages, and after an assistant message with nothing queued, and then nothing changes |
| `Agents.OneBeforeRequest` | packages/agent/src/agent.ts:418-445 | with both queues one at a time, the prompts of `continue` and the queued messages of its first request are one in all if and only if steering gave the prompt, so that the first poll is skipped, or nothing steers by that poll |
| `Agents.TwoBeforeRequest` | packages/agent/src/agent.ts:418-445 | a concrete run where a follow-up is the prompt, a steering message joins it, and two queued messages precede one request |
| `ModelPublication.WritesInOrder` | packages/ai/src/models.ts:498-543 | store writes of a provider never overlap, start in publication order, and their generations never decrease |
| `ModelPublication.NothingAfterSuperseding` | packages/ai/src/models.ts:498-543 | a superseded generation, or an aborted refresh, starts no write and runs no update afterwards |
| `ModelPublication.UpdatesInOrder` | packages/ai/src/models.ts:516-543 | an update runs right after its own successful write, once, and updates come in publication and generation order |
| `ModelPublication.SomethingProceeds` | packages/ai/src/models.ts:516-543 | the chain never blocks: while a publication is not done, one is writing or may proceed |
| `ModelPublication.ProceedInv` | packages/ai/src/models.ts:524-531 | the step after the wait for earlier publications keeps all of this |
| `ModelPublication.SettleInv` | packages/ai/src/models.ts:527-535 | so does the end of a store write, successful or not |
| `ModelPublication.SupersedeInv` | packages/ai/src/models.ts:498-507 | superseding raises the generation, aborts the registered controller and unregisters it |
| `ModelPublication.BeginInv` | packages/ai/src/models.ts:509-514 | a refresh begins with a generation of its own, later than all before |
| `ModelPublication.QueueInv` | packages/ai/src/models.ts:516-543 | a publication joins the end of the chain |
| `ModelPublication.UnchainInv` | packages/ai/src/models.ts:537-541 | the cleanup removes the chain only when its last publication is done |
| `ModelPublication.ProviderRefreshes.constructor` | packages/ai/src/models.ts:400-416 | no refresh and no publication |
| `ModelPublication.ProviderRefreshes.SupersedeProvider` | packages/ai/src/models.ts:498-507 | the generation rises by one, the registered refresh is aborted and unregistered, and no other refresh or publication changes |
| `ModelPublication.ProviderRefreshes.AbortSignal` | packages/ai/src/models.ts:578-579 | a refresh's combined signal fires |
| `ModelPublication.ProviderRefreshes.BeginProviderRefresh` | packages/ai/src/models.ts:509-514 | the same, and the new refresh is registered with the new generation |
| `ModelPublication.ProviderRefreshes.FinishRefresh` | packages/ai/src/models.ts:610-614 | a finished refresh unregisters its own controller only |
| `ModelPublication.ProviderRefreshes.Publish` | packages/ai/src/models.ts:516-543 | a publication is queued behind the last one, and ends the chain |
| `ModelPublication.ProviderRefreshes.ProceedAfterPrevious` | packages/ai/src/models.ts:524-531 | if its refresh is current and not aborted, the write starts, or without one the models are listed at once; else the publication is done without effect |
| `ModelPublication.ProviderRefreshes.WriteSettles` | packages/ai/src/models.ts:527-535 | after a successful write of a current refresh that is not aborted its models are listed and it is done with effect, right after the write; in any other case it is done without, and the models stay |
| `ModelPublication.ProviderRefreshes.DropChain` | packages/ai/src/models.ts:537-541 | the cleanup after a tail |
| `ModelPublication.CurrentModels` | packages/ai/src/models.ts:1095-1105 | a lookup finds the last dynamic model of a key, else the baseline's; the baseline keeps its places and no key is added twice |
| `ModelPublication.OverlayFinds` | packages/ai/src/models.ts:1095-1105 | a dynamic model no later one replaces is found under its kind and id, and so is the first baseline model with no dynamic one |
| `StrictJson.CopyJson` | packages/chord/src/json.ts:30-32 | succeeds if and only if the value has a finite strict-JSON unfolding, and the result is a copy of that unfolding made of new objects |
| `StrictJson.IsJsonValue` | packages/chord/src/json.ts:88-91 | holds if and only if the value has a finite strict-JSON unfolding: exactly when `copyJson` succeeds without options |
| `StrictJson.CopyHasNoAliases` | packages/chord/src/json.ts:30-78 | a walk through a copy meets each of its objects exactly once |
| `StrictJson.UnfoldingUnique` | packages/chord/src/json.ts:34-78 | a value has at most one unfolding, so the copy is determined |
| `StrictJson.CyclesRefused` | packages/chord/src/json.ts:41-43 | a value that leads back to itself has no unfolding, however long the way |
| `StrictJson.HasTree` | packages/chord/src/json.ts:34-78 | every JSON leaf has an unfolding, and so has a plain object or dense array that is no ancestor, as soon as its wanted properties have |
| `StrictJson.TreeOf` | packages/chord/src/json.ts:34-78 | conversely, what unfolds is a JSON leaf or such an object, and its entries are exactly its wanted properties |
| `StrictJson.LaidUnfolds` | packages/chord/src/json.ts:34-78 | every strict-JSON tree of objects, a copy included, unfolds to that tree, so it is copied again |
| `StrictJson.KeptInOrder` | packages/chord/src/json.ts:66-75 | the properties of a copy come in the order of the original |
| `StrictJson.LeadsToSmaller` | packages/chord/src/json.ts:34-78 | whatever a strict-JSON value leads to is strict JSON, and smaller |
| `StrictJson.AncestorAdded` | packages/chord/src/json.ts:41-43 | refusing ancestors loses nothing: below an object with an unfolding no path leads back to it |
| `StrictJson.AncestorRemoved` | packages/chord/src/json.ts:41-43 | and gains nothing |
| `StrictJson.DenseArray` | packages/chord/src/json.ts:46-52 | one own key more than elements and every element present means no other key, not even a symbol |
| `StrictJson.Copier.constructor` | packages/chord/src/json.ts:34-42 | an empty ancestor set and no objects |
| `StrictJson.Copier.Copy` | packages/chord/src/json.ts:34-78 | the recursion: right about every value below any ancestors, ending because ancestors only grow, and restoring them on success and failure |
| `StrictJson.Copier.CopyArray` | packages/chord/src/json.ts:45-59 | the array branch and its loop |
| `StrictJson.Copier.CopyPlain` | packages/chord/src/json.ts:60-75 | the object branch and its loop, with omitted `undefined` properties |
| `StrictJson.Checker.Check` | packages/chord/src/json.ts:93-136 | the checking recursion agrees with the same unfoldings and restores its ancestors |
| `StrictJson.Checker.CheckChildren` | packages/chord/src/json.ts:102-135 | its loops over elements and properties |
| `CatalogVersions.ComparePiVersions` | scripts/model-catalog-protocol.ts:220-260 | the loops compute the comparison the laws speak of |
| `CatalogVersions.Precedence` | scripts/model-catalog-protocol.ts:220-240 | section 11 of Semantic Versioning 2.0.0: major, minor and patch decide in this order, then a release comes after its prereleases, and then the identifiers between the dots decide |
| `CatalogVersions.KindsDecide` | scripts/model-catalog-protocol.ts:250-258 | a numeric identifier comes before any other, and two that are not numeric compare as text |
| `CatalogVersions.NumbersByValue` | scripts/model-catalog-protocol.ts:250-254 | numeric identifiers without leading zeros, of up to 15 digits, compare by value: the shorter first, else by the first digit that differs |
| `CatalogVersions.FirstDifferenceDecides` | scripts/model-catalog-protocol.ts:239-258 | the first prerelease identifiers that differ decide; if none does, the longer list comes after |
| `CatalogVersions.Opposed` | scripts/model-catalog-protocol.ts:220-260 | swapping two versions swaps the answer, and leaves a NaN one |
| `CatalogVersions.After` | scripts/model-catalog-protocol.ts:220-260 | coming strictly after is transitive on all versions: leading zeros, and numbers that are rounded or become infinite, included |
| `CatalogVersions.PreorderIff` | scripts/model-catalog-protocol.ts:220-260 | not coming after is transitive and total on the versions over a set of identifiers, however many each has, if and only if no two different identifiers compare equal or not at all |
| `CatalogVersions.CanonicalDistinguished` | scripts/model-catalog-protocol.ts:220-260 | identifiers without leading zeros that fit a safe integer never do |
| `CatalogVersions.LeadingZerosConfuse` | scripts/model-catalog-protocol.ts:250-256 | `01` and `1` do, so that comparison is no preorder on versions made of them |
| `CatalogVersions.SelectModelCatalog` | scripts/model-catalog-protocol.ts:131-157 | the first entry of a version that does not exceed the requested one and that no other such entry exceeds, or none exactly when there is no such entry; throws exactly for an unreadable entry |
| `FailoverStream.OneTerminal` | packages/coding-agent/extensions/hummin-local.ts:252-296 | what a consumer sees has exactly one terminal event, its last, whatever streams, locks, their release and signals do, unless there is no candidate |
| `FailoverStream.CandidatesInOrder` | packages/coding-agent/extensions/hummin-local.ts:185-296 | the log that the loops return locks the candidates in list order from the first, skips none, goes back to none, and has the attempts at each one after the other; one whose lock is refused gets none |
| `FailoverStream.AttemptsBounded` | packages/coding-agent/extensions/hummin-local.ts:178-212 | in that log no candidate has more than `maxRetries + 1` attempts |
| `FailoverStream.VisitsContinue` | packages/coding-agent/extensions/hummin-local.ts:178-296 | what follows each visit, in both directions: a busy error before anything but `start` events is tried again while attempts are left; a candidate whose retries are used up, that cannot be reached, or whose lock fails so, gives way to the next; all else ends the run |
| `FailoverStream.AttemptPushes` | packages/coding-agent/extensions/hummin-local.ts:193-216 | each attempt pushes, as one stretch, all of its events before an early failure it is left for, else all through its first terminal event |
| `FailoverStream.RunEnds` | packages/coding-agent/extensions/hummin-local.ts:214-296 | the last event pushed is the terminal event of the last attempt, or an error with the message of what failed there, or `aborted` |
| `FailoverStream.FeedEnds` | packages/coding-agent/extensions/hummin-local.ts:193-214 | what an attempt pushes and decides, by its first terminal event |
| `FailoverStream.ContentFromOneAttempt` | packages/coding-agent/extensions/hummin-local.ts:185-296 | if no candidate fails late, all content comes from one attempt at one candidate |
| `FailoverStream.ReleasedSingleSource` | packages/coding-agent/extensions/hummin-local.ts:185-296 | so it does whenever locks are released without an error, whatever the streams give and however they end |
| `FailoverStream.SingleSourceIff` | packages/coding-agent/extensions/hummin-local.ts:185-296 | for any streams and locks that may occur, content comes from one attempt in every run if and only if no stream without a terminal event meets a lock whose release fails like a connection |
| `FailoverStream.LateFailureMixes` | packages/coding-agent/src/core/local-inference-lock.ts:40-46 | the release that rejects replaces the outcome of such a stream; the run goes on, and content of two candidates is mixed |
| `FailoverStream.TimeoutMixes` | packages/coding-agent/src/core/local-inference-lock.ts:40-46 | a concrete run: a stream that stops after one piece of content, a release that rejects with `ETIMEDOUT`, and the output with content of both candidates |
| `FailoverStream.FeedRetries` | packages/coding-agent/extensions/hummin-local.ts:196-212 | an attempt that is retried has pushed nothing but `start` events |
| `FailoverStream.RunAttempts` | packages/coding-agent/extensions/hummin-local.ts:188-216 | the loop over attempts, with `retry`, and the log of them |
| `FailoverStream.RunCandidate` | packages/coding-agent/extensions/hummin-local.ts:178-224 | the lock, the attempts under it unless it is refused, its release, and what is caught |
| `FailoverStream.ReadStream` | packages/coding-agent/extensions/hummin-local.ts:193-214 | the loop over events, with `emittedContent` |
| `FailoverStream.SerializedLocalStream` | packages/coding-agent/extensions/hummin-local.ts:252-296 | the loop over candidates: the output, and the log of locks and attempts in order |
| `LoopDetector.WindowBound` | packages/coding-agent/extensions/hummin-guardrails.ts:309-320 | any `loopWindow` consecutive calls that passed hold fewer than `loopThreshold` identical ones |
| `LoopDetector.DeniesExactly` | packages/coding-agent/extensions/hummin-guardrails.ts:309-320 | a call is denied exactly if it and its like among the last `loopWindow - 1` that passed make `loopThreshold` |
| `LoopDetector.FreshPasses` | packages/coding-agent/extensions/hummin-guardrails.ts:309-320 | so a call unlike every recent one passes, unless the threshold is one |
| `LoopDetector.RecentIs` | packages/coding-agent/extensions/hummin-guardrails.ts:321-336 | the circuit breaker counts exactly the rejections at or after the cutoff |
| `LoopDetector.WindowStep` | packages/coding-agent/extensions/hummin-guardrails.ts:310-315 | push, shift and pop keep the last calls that passed, one fewer after a denial at a full window, and count the same either way |
| `LoopDetector.DeletingDeniedCalls` | packages/coding-agent/extensions/hummin-guardrails.ts:309-320 | deleting any of the denied calls of a session changes the verdict on no other |
| `LoopDetector.GuardrailsState.constructor` | packages/coding-agent/extensions/hummin-guardrails.ts:287-290 | nothing counted |
| `LoopDetector.GuardrailsState.ObserveCall` | packages/coding-agent/extensions/hummin-guardrails.ts:292-338 | the verdict and the new counts, budget first, then the loop rule over the calls that passed, then the circuit breaker |
| `LoopDetector.GuardrailsState.LoopCheck` | packages/coding-agent/extensions/hummin-guardrails.ts:310-320 | the loop check is the rule over the calls that passed |
| `LoopDetector.GuardrailsState.ObserveResult` | packages/coding-agent/extensions/hummin-guardrails.ts:349-369 | a failed call is added to its tool's rejections, and changes no loop verdict; a successful one brings a checkpoint once, at 250 calls, and otherwise the budget warning when it is due, neither after a halt |
| `ShellQuote.QuoteTokenize` | packages/coding-agent/extensions/hummin-hooks.ts:191-193 | tokenizing quoted words joined by spaces gives the words that are not empty, whatever they hold |
| `ShellQuote.RoundTripIff` | packages/coding-agent/extensions/hummin-bashguard.ts:138-174 | the round trip is exact if and only if no word is empty |
| `ShellQuote.QuotingInjective` | packages/coding-agent/extensions/hummin-hooks.ts:191-193 | no two lists of words that are not empty share a quoted form |
| `ShellQuote.EscapedAdds` | packages/coding-agent/extensions/hummin-hooks.ts:191-193 | inside single quotes the escaped form of a value reads as the value |
| `ShellQuote.Tokenize` | packages/coding-agent/extensions/hummin-bashguard.ts:138-174 | the scanning loop is the scan the lemmas speak of |
| `ShellQuote.BlanksSeparate` | packages/coding-agent/extensions/hummin-bashguard.ts:138-174 | plain words apart by spaces, tabs and newlines, however many, are the tokens |
| `ShellQuote.QuotesHold` | packages/coding-agent/extensions/hummin-bashguard.ts:149-162 | between quotes of one kind every other character is part of the word |
| `ShellQuote.BackslashTakes` | packages/coding-agent/extensions/hummin-bashguard.ts:163-167 | outside quotes a backslash takes the next character as it is, and stands for itself at the end |

## Left out

- OutputBuffers.OutputBuffer.Push: `TextDecoder` streaming, byte-order marks and replacement characters are outside; the text a chunk decodes to, and the pending text before it, are inputs. That a refused skip loses the pending text shows only in that nothing is accepted; what the decoder holds is not part of the state. Text is a sequence of Unicode characters, so a chunk that splits a surrogate pair is not modelled.
- OutputBuffers.OutputBuffer.Snapshot: the text before `sanitizeOutput`.
- OutputBuffers.OutputBuffer.SkipOutput: the skipped text is known to the proof only; that the chunk after it exceeds the window is required of callers, as the comment on `push` does.
- ProgressPacing.Progress.Settle: promises and the error callback are reduced to the outcome of a write; the clock does not go back, and is a real number.
- Delta.EditsCommute: paths whose numeric segments address object properties, and the reserved path segments the applier rejects, are not modelled.
- WatchProtocol.Watch.Terminate: the `detach` and `report` callbacks, and what they could call back into, are left out; so is installing the abort observer.
- NativeQueues.NativeQueue.Next: the lifecycle around the queue is the one modelled with `Watch`.
- AgentLoop.RunLoop: models, reasoning levels, `transformContext` and `convertToLlm` do not touch what is proved; hooks and streams do not throw (`handleRunFailure`); `clear` and removal of queued messages during a run are not part of the script.
- AgentRuns.RunAgrees: a context swapped in by a hook belongs to its caller, so nothing is said about it.
- AgentTools.ExecuteParallel: argument validation, hooks and result patching of one call are summed up in its outcome.
- Agents.Agent.Process: listeners, and the overlap of two runs that `activeRun` refuses; a run reaches the reducer after it is computed, since it does not read the agent's state.
- ModelPublication.ProviderRefreshes.Publish: one provider at a time, since the maps are keyed by provider; an `update` that calls back into the collection, store contents, credentials and fetching are left out, and so is what `raceWithAbortSignal` tells the caller early.
- StrictJson.CopyJson: proxies and getters that run code are not objects of the graph; numbers are opaque, finite or not; writable and configurable flags are not kept, as neither function reads them.
- CatalogVersions.SelectModelCatalog: the version pattern is a parameter; `localeCompare` is taken as a total order.
- FailoverStream.SerializedLocalStream: acquiring the lock and the delay appear only as ways an attempt can fail before its stream; the lost lease that aborts a request, and `onFailover`, are left out.
- LoopDetector.GuardrailsState.ObserveCall: the hash of a call is an input; time stamps of calls, which nothing reads, are left out.
- ShellQuote.Tokenize: the redirection and sequence-operator patterns.
- Auth, request dispatch, generated catalogs, terminal UI, file and process access, memory ranking and reporting scripts: plumbing or data with little to prove.
