/**
 Tool declarations in a transcript: `declareToolChanges` of packages/agent/src/agent-loop.ts with `getCurrentTools`
 and `getToolStateChanges` of packages/ai/src/utils/transcript.ts. Absent and empty tool lists replay alike and are
 not told apart.
 */
module ToolDeclarations {

  import opened Transcript

  function Declared(t: Tool): Tool {
    t.(internals := "")
  }

  // ----- Replay: a map in insertion order -----

  function Find(tools: seq<Tool>, name: string): Option<Tool> {
    if tools == [] then None
    else if tools[|tools| - 1].name == name then Some(tools[|tools| - 1])
    else Find(tools[..|tools| - 1], name)
  }

  /** `Map.delete` */
  function Delete(tools: seq<Tool>, name: string): seq<Tool> {
    if tools == [] then []
    else
      var rest := Delete(tools[..|tools| - 1], name);
      if tools[|tools| - 1].name == name then rest else rest + [tools[|tools| - 1]]
  }

  /** `Map.set`: a known name keeps its position. */
  function Put(tools: seq<Tool>, tool: Tool): seq<Tool> {
    if tools == [] then [tool]
    else if tools[|tools| - 1].name == tool.name then tools[..|tools| - 1] + [tool]
    else Put(tools[..|tools| - 1], tool) + [tools[|tools| - 1]]
  }

  function DeleteAll(tools: seq<Tool>, names: seq<string>): seq<Tool> {
    if names == [] then tools else Delete(DeleteAll(tools, names[..|names| - 1]), names[|names| - 1])
  }

  function PutAll(tools: seq<Tool>, added: seq<Tool>): seq<Tool> {
    if added == [] then tools else Put(PutAll(tools, added[..|added| - 1]), added[|added| - 1])
  }

  function Change(tools: seq<Tool>, m: Message): seq<Tool> {
    if !m.System? then tools else PutAll(DeleteAll(tools, m.toolsRemoved), m.toolsAdded)
  }

  /** Apply the system messages to `tools`, in order. */
  function Replay(tools: seq<Tool>, messages: seq<Message>): seq<Tool> {
    if messages == [] then tools else Change(Replay(tools, messages[..|messages| - 1]), messages[|messages| - 1])
  }

  /** `getCurrentTools` */
  function CurrentTools(messages: seq<Message>): seq<Tool> {
    Replay([], messages)
  }

  lemma {:induction false} FindDelete(tools: seq<Tool>, name: string, n: string)
    ensures Find(Delete(tools, name), n) == if n == name then None else Find(tools, n)
  {
    if tools != [] {
      var init, last := tools[..|tools| - 1], tools[|tools| - 1];
      FindDelete(init, name, n);
      assert (Delete(init, name) + [last])[..|Delete(init, name)|] == Delete(init, name);
    }
  }

  lemma {:induction false} FindPut(tools: seq<Tool>, tool: Tool, n: string)
    ensures Find(Put(tools, tool), n) == if n == tool.name then Some(tool) else Find(tools, n)
  {
    if tools == [] {
      assert [tool][..0] == [];
    } else {
      var init, last := tools[..|tools| - 1], tools[|tools| - 1];
      FindPut(init, tool, n);
      assert (init + [tool])[..|init|] == init;
      assert (Put(init, tool) + [last])[..|Put(init, tool)|] == Put(init, tool);
    }
  }

  lemma {:induction false} FindDeleteAll(tools: seq<Tool>, names: seq<string>, n: string)
    ensures Find(DeleteAll(tools, names), n) == if n in names then None else Find(tools, n)
  {
    if names != [] {
      FindDeleteAll(tools, names[..|names| - 1], n);
      FindDelete(DeleteAll(tools, names[..|names| - 1]), names[|names| - 1], n);
    }
  }

  lemma {:induction false} FindPutAll(tools: seq<Tool>, added: seq<Tool>, n: string)
    ensures Find(PutAll(tools, added), n) == if Find(added, n).Some? then Find(added, n) else Find(tools, n)
  {
    if added != [] {
      FindPutAll(tools, added[..|added| - 1], n);
      FindPut(PutAll(tools, added[..|added| - 1]), added[|added| - 1], n);
    }
  }

  lemma {:induction false} ReplayConcat(tools: seq<Tool>, a: seq<Message>, b: seq<Message>)
    ensures Replay(tools, a + b) == Replay(Replay(tools, a), b)
  {
    if b == [] {
      assert a + b == a;
    } else {
      ReplayConcat(tools, a, b[..|b| - 1]);
      assert (a + b)[..|a + b| - 1] == a + b[..|b| - 1];
    }
  }

  // ----- Differences -----

  /** A tool that is not in `other`, or is there with another definition. */
  predicate Differs(tool: Tool, other: seq<Tool>) {
    Find(other, tool.name).None? || Declared(Find(other, tool.name).value) != Declared(tool)
  }

  function Added(previous: seq<Tool>, current: seq<Tool>): seq<Tool> {
    if current == [] then []
    else
      var rest := Added(previous, current[..|current| - 1]);
      var last := current[|current| - 1];
      if Differs(last, previous) then rest + [Declared(last)] else rest
  }

  function Removed(previous: seq<Tool>, current: seq<Tool>): seq<string> {
    if previous == [] then []
    else
      var rest := Removed(previous[..|previous| - 1], current);
      var last := previous[|previous| - 1];
      if Differs(last, current) then rest + [last.name] else rest
  }

  /** The last tool under `n` that differs from the previous one. */
  function LastDiffering(previous: seq<Tool>, current: seq<Tool>, n: string): Option<Tool> {
    if current == [] then None
    else
      var last := current[|current| - 1];
      if last.name == n && Differs(last, previous) then Some(Declared(last))
      else LastDiffering(previous, current[..|current| - 1], n)
  }

  lemma {:induction false} FindAdded(previous: seq<Tool>, current: seq<Tool>, n: string)
    ensures Find(Added(previous, current), n) == LastDiffering(previous, current, n)
  {
    if current != [] {
      var init, last := current[..|current| - 1], current[|current| - 1];
      FindAdded(previous, init, n);
      var rest := Added(previous, init);
      assert (rest + [Declared(last)])[..|rest|] == rest;
    }
  }

  /** No two tools share a name. */
  predicate Unique(tools: seq<Tool>) {
    tools == [] || (Unique(tools[..|tools| - 1]) && Find(tools[..|tools| - 1], tools[|tools| - 1].name).None?)
  }

  lemma {:induction false} InRemoved(previous: seq<Tool>, current: seq<Tool>, n: string)
    requires Unique(previous)
    ensures n in Removed(previous, current) <==> Find(previous, n).Some? && Differs(Find(previous, n).value, current)
  {
    if previous != [] {
      InRemoved(previous[..|previous| - 1], current, n);
    }
  }

  lemma {:induction false} FindIn(tools: seq<Tool>, n: string)
    ensures Find(tools, n).Some? <==> exists i :: 0 <= i < |tools| && tools[i].name == n
    ensures Find(tools, n).Some? ==> Find(tools, n).value.name == n
  {
    if tools != [] {
      FindIn(tools[..|tools| - 1], n);
      if i :| 0 <= i < |tools| && tools[i].name == n {
        assert i < |tools| - 1 ==> tools[..|tools| - 1][i] == tools[i];
      }
    }
  }

  lemma {:induction false} DeleteUnique(tools: seq<Tool>, name: string)
    requires Unique(tools)
    ensures Unique(Delete(tools, name))
  {
    if tools != [] {
      var init, last := tools[..|tools| - 1], tools[|tools| - 1];
      DeleteUnique(init, name);
      FindDelete(init, name, last.name);
      assert (Delete(init, name) + [last])[..|Delete(init, name)|] == Delete(init, name);
    }
  }

  lemma {:induction false} PutUnique(tools: seq<Tool>, tool: Tool)
    requires Unique(tools)
    ensures Unique(Put(tools, tool))
  {
    if tools == [] {
      assert [tool][..0] == [];
    } else {
      var init, last := tools[..|tools| - 1], tools[|tools| - 1];
      PutUnique(init, tool);
      FindPut(init, tool, last.name);
      assert (init + [tool])[..|init|] == init;
      assert (Put(init, tool) + [last])[..|Put(init, tool)|] == Put(init, tool);
    }
  }

  lemma {:induction false} ChangeUnique(tools: seq<Tool>, names: seq<string>, added: seq<Tool>)
    requires Unique(tools)
    ensures Unique(PutAll(DeleteAll(tools, names), added))
    decreases |names| + |added|
  {
    if added != [] {
      ChangeUnique(tools, names, added[..|added| - 1]);
      PutUnique(PutAll(DeleteAll(tools, names), added[..|added| - 1]), added[|added| - 1]);
    } else if names != [] {
      ChangeUnique(tools, names[..|names| - 1], []);
      DeleteUnique(DeleteAll(tools, names[..|names| - 1]), names[|names| - 1]);
    }
  }

  lemma {:induction false} ReplayUnique(tools: seq<Tool>, messages: seq<Message>)
    requires Unique(tools)
    ensures Unique(Replay(tools, messages))
  {
    if messages != [] {
      ReplayUnique(tools, messages[..|messages| - 1]);
      var m := messages[|messages| - 1];
      if m.System? {
        ChangeUnique(Replay(tools, messages[..|messages| - 1]), m.toolsRemoved, m.toolsAdded);
      }
    }
  }

  /** The tool that runs under a name: the first one, as `tools.find` in `prepareToolCall`. */
  function Runs(tools: seq<Tool>, n: string): Option<Tool> {
    if tools == [] then None else if tools[0].name == n then Some(tools[0]) else Runs(tools[1..], n)
  }

  /** What a name is declared as by a map made from the tools, in which the last one wins. */
  function Declaration(tools: seq<Tool>, n: string): Option<Tool> {
    if Find(tools, n).None? then None else Some(Declared(Find(tools, n).value))
  }

  /** `n` names two different tools of which the model already knows the last. */
  predicate Shadowed(previous: seq<Tool>, current: seq<Tool>, n: string) {
    Declaration(previous, n).Some? && Declaration(previous, n) == Declaration(current, n)
    && exists i :: 0 <= i < |current| && current[i].name == n && Declared(current[i]) != Declaration(current, n).value
  }

  lemma {:induction false} LastDifferingIs(previous: seq<Tool>, current: seq<Tool>, n: string)
    ensures LastDiffering(previous, current, n).Some? ==>
              exists i :: 0 <= i < |current| && current[i].name == n && Differs(current[i], previous)
                          && LastDiffering(previous, current, n) == Some(Declared(current[i]))
    ensures LastDiffering(previous, current, n).None? ==>
              forall i :: 0 <= i < |current| && current[i].name == n ==> !Differs(current[i], previous)
    ensures Find(current, n).Some? && Differs(Find(current, n).value, previous) ==>
              LastDiffering(previous, current, n) == Some(Declared(Find(current, n).value))
  {
    if current != [] {
      LastDifferingIs(previous, current[..|current| - 1], n);
      FindIn(current[..|current| - 1], n);
    }
  }

  /** Applying the differences declares `current` under `n`, exactly unless `n` is shadowed. */
  lemma DifferencesDeclare(previous: seq<Tool>, current: seq<Tool>, n: string)
    requires Unique(previous)
    ensures Declaration(PutAll(DeleteAll(previous, Removed(previous, current)), Added(previous, current)), n)
            == Declaration(current, n)
            <==> !Shadowed(previous, current, n)
  {
    var removed, added := Removed(previous, current), Added(previous, current);
    FindPutAll(DeleteAll(previous, removed), added, n);
    FindDeleteAll(previous, removed, n);
    FindAdded(previous, current, n);
    InRemoved(previous, current, n);
    LastDifferingIs(previous, current, n);
    FindIn(current, n);
    FindIn(previous, n);
  }

  // ----- Declaring -----

  function DeclaredAll(tools: seq<Tool>): seq<Tool> {
    seq(|tools|, i requires 0 <= i < |tools| => Declared(tools[i]))
  }

  /** The last system message, or -1. */
  function LastSystem(pending: seq<Message>): int
    ensures -1 <= LastSystem(pending) < |pending|
    ensures LastSystem(pending) >= 0 ==> pending[LastSystem(pending)].System?
    ensures forall i :: LastSystem(pending) < i < |pending| ==> !pending[i].System?
  {
    if pending == [] then -1
    else if pending[|pending| - 1].System? then |pending| - 1
    else LastSystem(pending[..|pending| - 1])
  }

  /** The pending messages with the tool intent of the last system message taken out. */
  function Baseline(pending: seq<Message>): seq<Message> {
    var i := LastSystem(pending);
    if i < 0 then pending else pending[i := System(pending[i].content, [], [])]
  }

  function Known(context: Context, pending: seq<Message>): seq<Tool> {
    CurrentTools(context.messages + Baseline(pending))
  }

  /** `declareToolChanges` */
  function Declare(context: Context, pending: seq<Message>): seq<Message> {
    var known := Known(context, pending);
    var tools := DeclaredAll(context.tools);
    var added, removed := Added(known, tools), Removed(known, tools);
    var i := LastSystem(pending);
    if i >= 0 then
      if added == [] && removed == [] && pending[i].toolsAdded == [] && pending[i].toolsRemoved == [] then pending
      else pending[i := System(pending[i].content, added, removed)]
    else if added == [] && removed == [] then pending
    else [System("", added, removed)] + pending
  }

  method FindLastSystem(pending: seq<Message>) returns (systemIndex: int)
    ensures systemIndex == LastSystem(pending)
  {
    systemIndex := -1;
    var i := |pending| - 1;
    while i >= 0
      invariant -1 <= i < |pending| && systemIndex == -1
      invariant forall k :: i < k < |pending| ==> !pending[k].System?
    {
      if pending[i].System? {
        systemIndex := i;
        break;
      }
      i := i - 1;
    }
    LastSystemIs(pending, systemIndex);
  }

  /** `findIndex` of the first message that is not a system message, else the end. */
  method FirstOther(pending: seq<Message>) returns (index: nat)
    ensures index <= |pending| && (index < |pending| ==> !pending[index].System?)
    ensures forall k :: 0 <= k < index ==> pending[k].System?
  {
    index := 0;
    while index < |pending| && pending[index].System?
      invariant index <= |pending| && forall k :: 0 <= k < index ==> pending[k].System?
    {
      index := index + 1;
    }
  }

  method DeclareToolChanges(context: Context, pending: seq<Message>) returns (declared: seq<Message>)
    ensures declared == Declare(context, pending)
  {
    var systemIndex := FindLastSystem(pending);
    var baseline := if systemIndex >= 0
    then pending[systemIndex := System(pending[systemIndex].content, [], [])]
    else pending;
    var known := CurrentTools(context.messages + baseline);
    var tools := DeclaredAll(context.tools);
    var added, removed := Added(known, tools), Removed(known, tools);
    var noChange := added == [] && removed == [];
    if systemIndex >= 0 {
      var message := pending[systemIndex];
      if noChange && message.toolsAdded == [] && message.toolsRemoved == [] {
        return pending;
      }
      return baseline[systemIndex := System(message.content, added, removed)];
    }
    if noChange {
      return pending;
    }
    var index := FirstOther(pending);
    InsertedFirst(System("", added, removed), pending);
    return pending[..index] + [System("", added, removed)] + pending[index..];
  }

  lemma InsertedFirst(m: Message, pending: seq<Message>)
    ensures pending[..0] + [m] + pending[0..] == [m] + pending
  {
  }

  lemma {:induction false} LastSystemIs(pending: seq<Message>, i: int)
    requires -1 <= i < |pending| && (i >= 0 ==> pending[i].System?)
    requires forall k :: i < k < |pending| ==> !pending[k].System?
    ensures LastSystem(pending) == i
  {
    if i < |pending| - 1 {
      LastSystemIs(pending[..|pending| - 1], i);
    }
  }

  /** Messages without tool changes leave the tools alone. */
  lemma {:induction false} ReplayInert(tools: seq<Tool>, messages: seq<Message>)
    requires forall i :: 0 <= i < |messages| ==> !messages[i].System?
    ensures Replay(tools, messages) == tools
  {
    if messages != [] {
      ReplayInert(tools, messages[..|messages| - 1]);
    }
  }

  /** A tool change in the last system message is the last change. */
  lemma ReplayLast(tools: seq<Tool>, messages: seq<Message>, i: nat, content: string, added: seq<Tool>, removed: seq<string>)
    requires i < |messages| && messages[i].System? && forall k :: i < k < |messages| ==> !messages[k].System?
    ensures Replay(tools, messages[i := System(content, added, removed)])
            == PutAll(DeleteAll(Replay(tools, messages[..i]), removed), added)
  {
    var m := System(content, added, removed);
    var changed := messages[i := m];
    assert changed == messages[..i] + ([m] + messages[i + 1..]);
    ReplayConcat(tools, messages[..i], [m] + messages[i + 1..]);
    ReplayConcat(Replay(tools, messages[..i]), [m], messages[i + 1..]);
    ReplayInert(PutAll(DeleteAll(Replay(tools, messages[..i]), removed), added), messages[i + 1..]);
    assert [m][..0] == [];
  }

  /** Replaying the result is replaying what was known, then the differences. */
  lemma DeclareReplays(context: Context, pending: seq<Message>)
    ensures CurrentTools(context.messages + Declare(context, pending)) ==
            PutAll(DeleteAll(Known(context, pending), Removed(Known(context, pending), DeclaredAll(context.tools))),
                   Added(Known(context, pending), DeclaredAll(context.tools)))
  {
    var known := Known(context, pending);
    var tools := DeclaredAll(context.tools);
    var added, removed := Added(known, tools), Removed(known, tools);
    var start := CurrentTools(context.messages);
    var i := LastSystem(pending);
    ReplayConcat([], context.messages, Baseline(pending));
    ReplayConcat([], context.messages, Declare(context, pending));
    if i >= 0 {
      ReplayLast(start, pending, i, pending[i].content, [], []);
      ReplayLast(start, pending, i, pending[i].content, added, removed);
      if added == [] && removed == [] && pending[i].toolsAdded == [] && pending[i].toolsRemoved == [] {
        assert Baseline(pending) == pending;
      }
    } else if added != [] || removed != [] {
      var update := System("", added, removed);
      ReplayConcat(start, [update], pending);
      ReplayInert(Change(start, update), pending);
      ReplayInert(start, pending);
      assert [update][..0] == [];
    }
  }

  /** Replay gives the last tool under a name, exactly unless a tool before it takes over because the model knows the last. */
  lemma LastToolReplays(context: Context, pending: seq<Message>, n: string)
    ensures Declaration(CurrentTools(context.messages + Declare(context, pending)), n) == Declaration(context.tools, n)
            <==> !Shadowed(Known(context, pending), context.tools, n)
  {
    var known := Known(context, pending);
    var tools := DeclaredAll(context.tools);
    ReplayUnique([], context.messages + Baseline(pending));
    DeclareReplays(context, pending);
    DifferencesDeclare(known, tools, n);
    DeclaredAllFinds(context.tools, n);
    if Shadowed(known, context.tools, n) {
      var i :| 0 <= i < |context.tools| && context.tools[i].name == n
               && Declared(context.tools[i]) != Declaration(context.tools, n).value;
      assert tools[i].name == n;
    }
    if Shadowed(known, tools, n) {
      var i :| 0 <= i < |tools| && tools[i].name == n && Declared(tools[i]) != Declaration(tools, n).value;
      assert context.tools[i].name == n;
    }
  }

  /** What the model is told about the tool that runs under a name. */
  function RunsAs(tools: seq<Tool>, n: string): Option<Tool> {
    if Runs(tools, n).None? then None else Some(Declared(Runs(tools, n).value))
  }

  /**
   Of the tools named `n` that the model does not know as they are, the last one is not declared like the tool that runs.
   */
  predicate Displaced(known: seq<Tool>, tools: seq<Tool>, n: string) {
    exists i :: 0 <= i < |tools| && tools[i].name == n && Some(Declared(tools[i])) != RunsAs(tools, n) && LastNews(known, tools, n, i)
  }

  predicate LastNews(known: seq<Tool>, tools: seq<Tool>, n: string, i: nat)
    requires i < |tools|
  {
    && Declaration(known, n) != Some(Declared(tools[i]))
    && forall j :: i < j < |tools| && tools[j].name == n ==> Declaration(known, n) == Some(Declared(tools[j]))
  }

  /**
   Replaying the transcript and the declared messages gives, under every name, the tool that runs: for any transcript and
   any pending mix, exactly unless that tool is displaced by another of its name.
   */
  lemma DeclaredToolsReplay(context: Context, pending: seq<Message>, n: string)
    ensures Declaration(CurrentTools(context.messages + Declare(context, pending)), n) == RunsAs(context.tools, n)
            <==> !Displaced(Known(context, pending), context.tools, n)
  {
    var known, tools := Known(context, pending), DeclaredAll(context.tools);
    ReplayUnique([], context.messages + Baseline(pending));
    DeclareReplays(context, pending);
    ReplaysNews(known, tools, n);
    RunsIn(context.tools, n);
    NewsIsLast(known, context.tools, n);
    DeclaredNews(known, context.tools, n);
  }

  /** The differences declare the last tool that is news; without news the name stays as it was, or goes with its tools. */
  lemma ReplaysNews(known: seq<Tool>, tools: seq<Tool>, n: string)
    requires Unique(known)
    ensures Declaration(PutAll(DeleteAll(known, Removed(known, tools)), Added(known, tools)), n)
            == if LastDiffering(known, tools, n).Some? then LastDiffering(known, tools, n)
               else if Find(tools, n).None? then None else Declaration(known, n)
  {
    var removed, added := Removed(known, tools), Added(known, tools);
    FindPutAll(DeleteAll(known, removed), added, n);
    FindDeleteAll(known, removed, n);
    FindAdded(known, tools, n);
    InRemoved(known, tools, n);
    LastDifferingIs(known, tools, n);
    FindIn(tools, n);
    FindIn(known, n);
  }

  lemma {:induction false} RunsIn(tools: seq<Tool>, n: string)
    ensures Runs(tools, n).Some? <==> exists i :: 0 <= i < |tools| && tools[i].name == n
    ensures Runs(tools, n).Some? ==> Runs(tools, n).value in tools && Runs(tools, n).value.name == n
    ensures Runs(tools, n).Some? <==> Find(tools, n).Some?
  {
    FindIn(tools, n);
    if tools != [] && tools[0].name != n {
      RunsIn(tools[1..], n);
      if i :| 0 <= i < |tools| && tools[i].name == n {
        assert tools[1..][i - 1] == tools[i];
      }
      if i :| 0 <= i < |tools[1..]| && tools[1..][i].name == n {
        assert tools[i + 1] == tools[1..][i];
      }
    }
  }

  /** `LastDiffering`, by index. */
  lemma {:induction false} NewsIsLast(known: seq<Tool>, tools: seq<Tool>, n: string)
    ensures LastDiffering(known, tools, n).None? ==>
              forall i :: 0 <= i < |tools| && tools[i].name == n ==> Declaration(known, n) == Some(Declared(tools[i]))
    ensures forall i :: 0 <= i < |tools| && tools[i].name == n && LastNews(known, tools, n, i) ==>
                          LastDiffering(known, tools, n) == Some(Declared(tools[i]))
    ensures LastDiffering(known, tools, n).Some? ==>
              exists i :: 0 <= i < |tools| && tools[i].name == n && LastNews(known, tools, n, i)
  {
    if tools != [] {
      var init, m := tools[..|tools| - 1], |tools| - 1;
      NewsIsLast(known, init, n);
      if tools[m].name == n && Differs(tools[m], known) {
        assert LastNews(known, tools, n, m);
      } else {
        forall i | 0 <= i < m && tools[i].name == n ensures LastNews(known, tools, n, i) == LastNews(known, init, n, i) {
          assert init[i] == tools[i];
        }
      }
    }
  }

  lemma {:induction false} DeclaredNews(known: seq<Tool>, tools: seq<Tool>, n: string)
    ensures LastDiffering(known, DeclaredAll(tools), n) == LastDiffering(known, tools, n)
    ensures Find(DeclaredAll(tools), n).None? <==> Find(tools, n).None?
  {
    if tools != [] {
      var init := tools[..|tools| - 1];
      DeclaredNews(known, init, n);
      assert DeclaredAll(tools)[..|tools| - 1] == DeclaredAll(init);
    }
  }

  lemma {:induction false} DeclaredAllFinds(tools: seq<Tool>, n: string)
    ensures Declaration(DeclaredAll(tools), n) == Declaration(tools, n)
  {
    if tools != [] {
      var init := tools[..|tools| - 1];
      DeclaredAllFinds(init, n);
      assert DeclaredAll(tools)[..|tools| - 1] == DeclaredAll(init);
    }
  }

  /** Tools with distinct names are always declared as they run. */
  lemma DistinctToolsReplay(context: Context, pending: seq<Message>, n: string)
    requires Unique(context.tools)
    ensures Declaration(CurrentTools(context.messages + Declare(context, pending)), n) == RunsAs(context.tools, n)
  {
    DeclaredToolsReplay(context, pending, n);
    RunsIn(context.tools, n);
    forall i | 0 <= i < |context.tools| && context.tools[i].name == n
      ensures Some(Declared(context.tools[i])) == RunsAs(context.tools, n)
    {
      UniqueFinds(context.tools, i);
      var k :| 0 <= k < |context.tools| && context.tools[k] == Runs(context.tools, n).value;
      UniqueFinds(context.tools, k);
    }
  }

  lemma {:induction false} UniqueFinds(tools: seq<Tool>, i: nat)
    requires Unique(tools) && i < |tools|
    ensures Find(tools, tools[i].name) == Some(tools[i])
  {
    if i < |tools| - 1 {
      UniqueFinds(tools[..|tools| - 1], i);
    }
  }

  // ----- In plain terms -----

  /** The message declares or removes a tool of this name. */
  predicate Touches(m: Message, n: string) {
    m.System? && (n in m.toolsRemoved || exists k :: 0 <= k < |m.toolsAdded| && m.toolsAdded[k].name == n)
  }

  lemma {:induction false} FindLast(tools: seq<Tool>, i: nat)
    requires i < |tools| && forall k :: i < k < |tools| ==> tools[k].name != tools[i].name
    ensures Find(tools, tools[i].name) == Some(tools[i])
  {
    if i < |tools| - 1 {
      FindLast(tools[..|tools| - 1], i);
    }
  }

  lemma {:induction false} RunsFirst(tools: seq<Tool>, i: nat)
    requires i < |tools| && forall k :: 0 <= k < i ==> tools[k].name != tools[i].name
    ensures Runs(tools, tools[i].name) == Some(tools[i])
  {
    if i > 0 {
      RunsFirst(tools[1..], i - 1);
    }
  }

  lemma TouchDecides(tools: seq<Tool>, m: Message, n: string, k: nat)
    requires Touches(m, n)
    ensures (forall j :: 0 <= j < |m.toolsAdded| ==> m.toolsAdded[j].name != n) ==> Find(Change(tools, m), n).None?
    ensures k < |m.toolsAdded| && m.toolsAdded[k].name == n && (forall j :: k < j < |m.toolsAdded| ==> m.toolsAdded[j].name != n)
            ==> Find(Change(tools, m), n) == Some(m.toolsAdded[k])
  {
    var added := m.toolsAdded;
    FindPutAll(DeleteAll(tools, m.toolsRemoved), added, n);
    FindDeleteAll(tools, m.toolsRemoved, n);
    FindIn(added, n);
    if k < |added| && added[k].name == n && forall j :: k < j < |added| ==> added[j].name != n {
      FindLast(added, k);
    }
  }

  lemma {:induction false} UntouchedKeeps(messages: seq<Message>, n: string, i: nat)
    requires i <= |messages| && forall j :: i <= j < |messages| ==> !Touches(messages[j], n)
    ensures Find(CurrentTools(messages), n) == Find(CurrentTools(messages[..i]), n)
    decreases |messages|
  {
    if i == |messages| {
      assert messages[..i] == messages;
    } else {
      var before, m := messages[..|messages| - 1], messages[|messages| - 1];
      UntouchedKeeps(before, n, i);
      assert before[..i] == messages[..i];
      if m.System? {
        FindPutAll(DeleteAll(CurrentTools(before), m.toolsRemoved), m.toolsAdded, n);
        FindDeleteAll(CurrentTools(before), m.toolsRemoved, n);
        FindIn(m.toolsAdded, n);
      }
    }
  }

  /**
   The last system message that touches a name decides: the last tool it adds under that name is declared, and none if it
   only removes it. A name that no message touches is not declared.
   */
  lemma LastTouchDecides(messages: seq<Message>, n: string, i: nat, k: nat)
    requires i <= |messages| && forall j :: i < j < |messages| ==> !Touches(messages[j], n)
    ensures i == 0 && (messages == [] || !Touches(messages[0], n)) ==> Find(CurrentTools(messages), n).None?
    ensures i < |messages| && Touches(messages[i], n) ==>
              var added := messages[i].toolsAdded;
              && ((forall j :: 0 <= j < |added| ==> added[j].name != n) ==> Find(CurrentTools(messages), n).None?)
              && (k < |added| && added[k].name == n && (forall j :: k < j < |added| ==> added[j].name != n) ==>
                    Find(CurrentTools(messages), n) == Some(added[k]))
  {
    if i < |messages| {
      if Touches(messages[i], n) {
        UntouchedKeeps(messages, n, i + 1);
        assert messages[..i + 1][..i] == messages[..i];
        TouchDecides(CurrentTools(messages[..i]), messages[i], n, k);
      } else if i == 0 {
        UntouchedKeeps(messages, n, 0);
        assert messages[..0] == [];
      }
    }
  }

  /** The tools have names of their own. */
  predicate OwnNames(tools: seq<Tool>) {
    forall i, j :: 0 <= i < j < |tools| ==> tools[i].name != tools[j].name
  }

  lemma {:induction false} OwnNamesUnique(tools: seq<Tool>)
    ensures OwnNames(tools) <==> Unique(tools)
  {
    if tools != [] {
      OwnNamesUnique(tools[..|tools| - 1]);
      FindIn(tools[..|tools| - 1], tools[|tools| - 1].name);
    }
  }

  /** `declared` has a tool for each of `tools`, with its name and definition, and no other. */
  ghost predicate Declares(declared: seq<Tool>, tools: seq<Tool>) {
    && (forall t :: t in tools ==> exists d :: d in declared && d.name == t.name && d.definition == t.definition)
    && (forall d :: d in declared ==> exists t :: t in tools && d.name == t.name && d.definition == t.definition)
  }

  /** A transcript and what is declared for it tell the model of every tool by its definition, and of no other. */
  lemma ToolsDeclared(context: Context, pending: seq<Message>)
    requires OwnNames(context.tools)
    ensures Declares(CurrentTools(context.messages + Declare(context, pending)), context.tools)
  {
    var declared := CurrentTools(context.messages + Declare(context, pending));
    OwnNamesUnique(context.tools);
    ReplayUnique([], context.messages + Declare(context, pending));
    forall t | t in context.tools ensures exists d :: d in declared && d.name == t.name && d.definition == t.definition {
      var i :| 0 <= i < |context.tools| && context.tools[i] == t;
      RunsFirst(context.tools, i);
      DistinctToolsReplay(context, pending, t.name);
      var d := Find(declared, t.name).value;
      FoundIn(declared, t.name);
    }
    forall d | d in declared ensures exists t :: t in context.tools && d.name == t.name && d.definition == t.definition {
      var i :| 0 <= i < |declared| && declared[i] == d;
      UniqueFinds(declared, i);
      DistinctToolsReplay(context, pending, d.name);
      RunsIn(context.tools, d.name);
    }
  }

  lemma {:induction false} FoundIn(tools: seq<Tool>, n: string)
    requires Find(tools, n).Some?
    ensures Find(tools, n).value in tools && Find(tools, n).value.name == n
  {
    if tools[|tools| - 1].name != n {
      FoundIn(tools[..|tools| - 1], n);
    }
  }

  lemma {:induction false} NothingAdded(previous: seq<Tool>, current: seq<Tool>)
    requires forall t :: t in current ==> !Differs(t, previous)
    ensures Added(previous, current) == []
  {
    if current != [] {
      NothingAdded(previous, current[..|current| - 1]);
    }
  }

  lemma {:induction false} NothingRemoved(previous: seq<Tool>, current: seq<Tool>)
    requires forall t :: t in previous ==> !Differs(t, current)
    ensures Removed(previous, current) == []
  {
    if previous != [] {
      NothingRemoved(previous[..|previous| - 1], current);
    }
  }

  /** What is declared once is not declared again. */
  lemma DeclaredOnce(context: Context, pending: seq<Message>)
    requires OwnNames(context.tools)
    ensures Declare(Context(context.messages + Declare(context, pending), context.tools), []) == []
  {
    var messages := context.messages + Declare(context, pending);
    var known, tools := CurrentTools(messages), DeclaredAll(context.tools);
    assert messages + Baseline([]) == messages;
    OwnNamesUnique(context.tools);
    ReplayUnique([], messages);
    forall t | t in tools ensures !Differs(t, known) {
      var i :| 0 <= i < |context.tools| && tools[i] == t;
      RunsFirst(context.tools, i);
      DistinctToolsReplay(context, pending, t.name);
    }
    forall t | t in known ensures !Differs(t, tools) {
      var i :| 0 <= i < |known| && known[i] == t;
      UniqueFinds(known, i);
      DistinctToolsReplay(context, pending, t.name);
      RunsIn(context.tools, t.name);
      var k :| 0 <= k < |context.tools| && context.tools[k] == Runs(context.tools, t.name).value;
      assert tools[k].name == t.name;
      FindLast(tools, k);
    }
    NothingAdded(known, tools);
    NothingRemoved(known, tools);
  }

  /**
   Two different tools under one name are declared in turn, request after request: the second whenever the model does
   not know it, though the first is the one that runs, and the first only when the model knows the second.
   */
  lemma TwoToolsAlternate(context: Context, pending: seq<Message>, a: Tool, b: Tool)
    requires context.tools == [a, b] && a.name == b.name && Declared(a) != Declared(b)
    ensures RunsAs(context.tools, a.name) == Some(Declared(a))
    ensures Declaration(CurrentTools(context.messages + Declare(context, pending)), a.name)
            == Some(Declared(if Declaration(Known(context, pending), a.name) == Some(Declared(b)) then a else b))
  {
    var known, tools, n := Known(context, pending), [a, b], a.name;
    ReplayUnique([], context.messages + Baseline(pending));
    DeclareReplays(context, pending);
    ReplaysNews(known, DeclaredAll(tools), n);
    NewsIsLast(known, tools, n);
    DeclaredNews(known, tools, n);
    if Declaration(known, n) == Some(Declared(b)) {
      assert LastNews(known, tools, n, 0);
    } else {
      assert LastNews(known, tools, n, 1);
    }
  }

  /** The first request of an agent with two tools of one name declares the one that does not run. */
  lemma WrongToolDeclared()
    ensures var a, b := Tool("x", "one", ""), Tool("x", "two", "");
            var context := Context([], [a, b]);
            && Declaration(CurrentTools(context.messages + Declare(context, [])), "x") == Some(b)
            && RunsAs(context.tools, "x") == Some(a)
  {
    var a, b := Tool("x", "one", ""), Tool("x", "two", "");
    var context := Context([], [a, b]);
    TwoToolsAlternate(context, [], a, b);
    assert context.messages + Baseline([]) == [];
  }

  /** Everything but the tool fields of one system message stays as it was, in order. */
  lemma OthersUnchanged(context: Context, pending: seq<Message>)
    ensures var result, i := Declare(context, pending), LastSystem(pending);
            if i < 0 then result == pending || (result != [] && result[0].System? && result[0].content == "" && result[1..] == pending)
            else |result| == |pending| && result[i].System? && result[i].content == pending[i].content
                 && forall k :: 0 <= k < |pending| && k != i ==> result[k] == pending[k]
  {
  }
}
