/**
 Runs of an `OutputBuffer` of packages/chord/src/output.ts: any sequence of pushes, skips and snapshots. Bounding what
 is stored is bounding everything said, and how much is ever stored depends on how large the chunks may be.
 */
module OutputRuns {
  import opened Utf8
  import opened OutputBounds
  import opened OutputBuffers

  /** One call: `push` without and with a skip (`omitted` is the text left out), and `snapshot`. */
  datatype Call = Pushed(text: string) | Skipped(pending: string, omitted: string, text: string) | Shown

  ghost function Step(s: State, call: Call): State {
    match call
    case Pushed(text) => PushOn(s, "", text, None)
    case Skipped(pending, omitted, text) => PushOn(s, pending, text, Some(omitted))
    case Shown => Shot(s)
  }

  ghost function After(limits: Limits, calls: seq<Call>): State {
    if calls == [] then Initial(limits) else Step(After(limits, calls[..|calls| - 1]), calls[|calls| - 1])
  }

  /** What `push` asks of a skip: the chunk after it exceeds the window by itself. */
  ghost predicate Allowed(limits: Limits, calls: seq<Call>) {
    forall i :: 0 <= i < |calls| ==> Meant(limits, calls[i])
  }

  predicate Meant(limits: Limits, call: Call) {
    call.Skipped? && call.omitted != "" ==> Exceeds(Encode(call.text), limits)
  }

  /** What a call says, stored or not. */
  function SaidBy(limits: Limits, call: Call): string {
    match call
    case Pushed(text) => text
    case Skipped(pending, omitted, text) => if limits.retain.Head? then "" else pending + omitted + text
    case Shown => ""
  }

  function Said(limits: Limits, calls: seq<Call>): string {
    if calls == [] then "" else Said(limits, calls[..|calls| - 1]) + SaidBy(limits, calls[|calls| - 1])
  }

  lemma ShotInv(s: State)
    requires Inv(s)
    ensures Inv(Shot(s)) && Shot(s).stream == s.stream && Shot(s).limits == s.limits
  {
    if s.limits.retain.Tail? {
      MarginSuffices(s);
      TrimInv(s, Margin(s.stored, s.limits));
    } else if |s.chunks| > 1 {
      TrimInv(s, s.stored);
    }
  }

  lemma MarginSuffices(s: State)
    requires s.limits.retain.Tail? && Suffices(s.limits, s.stored, s.stream, s.full)
    ensures Suffices(s.limits, Margin(s.stored, s.limits), s.stream, s.full)
    ensures |Encode(Margin(s.stored, s.limits))| <= s.limits.maxBytes + 4
  {
    var margin := Margin(s.stored, s.limits);
    MarginIsMargin(s.stored, s.limits);
    MarginSize(s.stored, s.limits);
    SufficesSuffix(s.limits, s.stored, s.stream, margin);
    if margin == "" {
      assert Encode(margin) == [];
    }
  }

  lemma {:induction false} MarginIsMargin(text: string, limits: Limits)
    ensures HasSuffix(text, Margin(text, limits))
    ensures Margin(text, limits) == text || Exceeds(Encode(Margin(text, limits)), limits)
  {
    if text != "" && Exceeds(Encode(text[1..]), limits) {
      MarginIsMargin(text[1..], limits);
      var margin := Margin(text[1..], limits);
      assert text[|text| - |margin|..] == text[1..][|text[1..]| - |margin|..];
    }
  }

  /** A margin is the window and at most one character more. */
  lemma {:induction false} MarginSize(text: string, limits: Limits)
    ensures Margin(text, limits) != "" ==>
              |Encode(Margin(text, limits))| <= limits.maxBytes + |EncodeChar(Margin(text, limits)[0])|
    ensures Margin(text, limits) == "" ==> text == ""
  {
    if text != "" && Exceeds(Encode(text[1..]), limits) {
      MarginSize(text[1..], limits);
    }
  }

  lemma PushedInv(s: State, text: string)
    requires Inv(s)
    ensures Inv(PushOn(s, "", text, None)) && PushOn(s, "", text, None).limits == s.limits
    ensures PushOn(s, "", text, None).stream == s.stream + text
  {
    assert "" + text == text;
    AcceptInv(s, text);
  }

  lemma Regroup(a: string, b: string, c: string, d: string)
    ensures a + b + c + d == a + (b + c + d)
  {
  }

  lemma SkippedInv(s: State, pending: string, omitted: string, text: string)
    requires Inv(s) && s.limits.retain.Tail? && (omitted != "" ==> Exceeds(Encode(text), s.limits))
    ensures Inv(PushOn(s, pending, text, Some(omitted)))
    ensures PushOn(s, pending, text, Some(omitted)).limits == s.limits
    ensures PushOn(s, pending, text, Some(omitted)).stream == s.stream + (pending + omitted + text)
  {
    AcceptInv(s, pending);
    var t := Accept(s, pending);
    SkipInv(t, omitted, text);
    AcceptLimits(SkipOver(t, omitted), text);
    Regroup(s.stream, pending, omitted, text);
  }

  lemma {:induction false} DropLimits(s: State)
    ensures Drop(s).limits == s.limits && Drop(s).largest == s.largest
    decreases |s.chunks|
  {
    if |s.chunks| > 1 && !KeepsFirst(s) {
      DropLimits(DropFirst(s));
    }
  }

  lemma AcceptLimits(s: State, text: string)
    ensures Accept(s, text).limits == s.limits
    ensures Accept(s, text).largest == Max(s.largest, |Encode(text)|)
  {
    DropLimits(Append(Count(s, text), text));
  }

  lemma StepInv(s: State, call: Call)
    requires Inv(s) && Meant(s.limits, call)
    ensures Inv(Step(s, call)) && Step(s, call).limits == s.limits
    ensures Step(s, call).stream == s.stream + SaidBy(s.limits, call)
  {
    match call
    case Pushed(text) => PushedInv(s, text);
    case Skipped(pending, omitted, text) =>
      if s.limits.retain.Tail? {
        SkippedInv(s, pending, omitted, text);
      }
    case Shown => ShotInv(s);
  }

  lemma InitialInv(limits: Limits)
    ensures Inv(Initial(limits))
  {
    assert Encode("") == [];
  }

  /** The invariant holds after every run, and the stream is what was said. */
  lemma {:induction false} AfterInv(limits: Limits, calls: seq<Call>)
    requires Allowed(limits, calls)
    ensures Inv(After(limits, calls)) && After(limits, calls).limits == limits
    ensures After(limits, calls).stream == Said(limits, calls)
  {
    if calls == [] {
      InitialInv(limits);
    } else {
      AfterInv(limits, calls[..|calls| - 1]);
      assert Meant(limits, calls[|calls| - 1]);
      StepInv(After(limits, calls[..|calls| - 1]), calls[|calls| - 1]);
    }
  }

  /** After any run, bounding the stored fragment is bounding everything said. */
  lemma RunRefines(limits: Limits, calls: seq<Call>, slice: Slice)
    requires Allowed(limits, calls) && IsBounded(After(limits, calls).stored, limits, slice)
    ensures IsBoundedBytes(Encode(Said(limits, calls)), limits,
                           OnStream(slice, Encode(After(limits, calls).stored), Encode(Said(limits, calls))))
  {
    AfterInv(limits, calls);
    var s := After(limits, calls);
    FragmentRefines(limits, s.stored, s.stream, s.full, slice);
  }

  // ----- How much is stored -----

  /** Characters of at most `c` bytes. */
  predicate Narrow(text: string, c: nat) {
    forall i :: 0 <= i < |text| ==> |EncodeChar(text[i])| <= c
  }

  lemma {:induction false} CharInText(text: string, i: nat)
    requires i < |text|
    ensures |EncodeChar(text[i])| <= |Encode(text)|
  {
    if i > 0 {
      CharInText(text[1..], i - 1);
    }
  }

  /** No accepted chunk has more than `c` bytes. */
  ghost predicate Small(call: Call, c: nat) {
    match call
    case Pushed(text) => |Encode(text)| <= c
    case Skipped(pending, _, text) => |Encode(pending)| <= c && |Encode(text)| <= c
    case Shown => true
  }

  ghost predicate SmallCalls(calls: seq<Call>, c: nat) {
    forall i :: 0 <= i < |calls| ==> Small(calls[i], c)
  }

  function Min(a: nat, b: nat): nat {
    if a < b then a else b
  }

  /** A stored chunk is one that was pushed or one that a snapshot joined. */
  function StoredChunk(limits: Limits, c: nat): nat {
    Max(c, limits.maxBytes + Min(c, 4))
  }

  /** What holds of a buffer in tail mode whose chunks have at most `c` bytes. */
  ghost predicate Fitted(s: State, c: nat) {
    && s.limits.retain.Tail? && Narrow(s.stored, c) && SmallStored(s, c)
    && s.storedBytes <= s.limits.maxBytes + 1 + (if s.chunks == [] then 0 else s.chunks[0].bytes)
  }

  ghost predicate SmallStored(s: State, c: nat) {
    forall i :: 0 <= i < |s.chunks| ==> s.chunks[i].bytes <= StoredChunk(s.limits, c)
  }

  lemma NarrowText(text: string, c: nat)
    requires |Encode(text)| <= c
    ensures Narrow(text, c)
  {
    forall i | 0 <= i < |text| ensures |EncodeChar(text[i])| <= c {
      CharInText(text, i);
    }
  }

  lemma {:induction false} DropFitted(s: State, c: nat)
    requires s.limits.retain.Tail? && s.chunks != [] && Counted(s) && Narrow(s.stored, c) && SmallStored(s, c)
    ensures Fitted(Drop(s), c)
    decreases |s.chunks|
  {
    if |s.chunks| <= 1 {
      assert s.chunks[1..] == [];
      assert Holds(s.chunks[1..], s.stored[|s.chunks[0].text|..], s.storedBytes - s.chunks[0].bytes,
                   s.storedNewlines - s.chunks[0].newlines);
    } else if !KeepsFirst(s) {
      DropFirstCounted(s);
      DropFitted(DropFirst(s), c);
    }
  }

  lemma AcceptFitted(s: State, text: string, c: nat)
    requires Counted(s) && !s.full && Fitted(s, c) && |Encode(text)| <= c
    ensures Fitted(Accept(s, text), c)
  {
    if text != "" {
      CountCounted(s, text);
      AppendCounted(Count(s, text), text);
      NarrowText(text, c);
      DropFitted(Append(Count(s, text), text), c);
    }
  }

  lemma ShotFitted(s: State, c: nat)
    requires Fitted(s, c)
    ensures Fitted(Shot(s), c)
  {
    var margin := Margin(s.stored, s.limits);
    MarginIsMargin(s.stored, s.limits);
    MarginSize(s.stored, s.limits);
    if margin != "" {
      assert margin[0] == s.stored[|s.stored| - |margin|];
    } else {
      assert Encode(margin) == [];
    }
  }

  lemma SkippedFitted(s: State, pending: string, omitted: string, text: string, c: nat)
    requires Inv(s) && Fitted(s, c) && |Encode(pending)| <= c && |Encode(text)| <= c
    ensures Fitted(PushOn(s, pending, text, Some(omitted)), c)
  {
    AcceptInv(s, pending);
    AcceptFitted(s, pending, c);
    var t := Accept(s, pending);
    if omitted != "" {
      CountCounted(t, omitted);
    }
    AcceptFitted(SkipOver(t, omitted), text, c);
  }

  lemma StepFitted(s: State, call: Call, c: nat)
    requires Inv(s) && Fitted(s, c) && Small(call, c)
    ensures Fitted(Step(s, call), c)
  {
    match call
    case Pushed(text) =>
      assert "" + text == text;
      AcceptFitted(s, text, c);
    case Skipped(pending, omitted, text) => SkippedFitted(s, pending, omitted, text, c);
    case Shown => ShotFitted(s, c);
  }

  lemma {:induction false} AfterFitted(limits: Limits, calls: seq<Call>, c: nat)
    requires limits.retain.Tail? && Allowed(limits, calls) && SmallCalls(calls, c)
    ensures Fitted(After(limits, calls), c)
  {
    if calls != [] {
      var before := calls[..|calls| - 1];
      AfterFitted(limits, before, c);
      AfterInv(limits, before);
      assert Small(calls[|calls| - 1], c);
      StepFitted(After(limits, before), calls[|calls| - 1], c);
    }
  }

  /** In head mode a snapshot joins chunks without storing more. */
  lemma {:induction false} AfterLargest(limits: Limits, calls: seq<Call>, c: nat)
    requires limits.retain.Head? && Allowed(limits, calls) && SmallCalls(calls, c)
    ensures After(limits, calls).largest <= c
  {
    if calls != [] {
      var before := calls[..|calls| - 1];
      AfterLargest(limits, before, c);
      AfterInv(limits, before);
      var call := calls[|calls| - 1];
      assert Small(call, c);
      if call.Pushed? {
        assert "" + call.text == call.text;
        AcceptLimits(After(limits, before), call.text);
      }
    }
  }

  /** A run never stores more than the window, a byte, and the largest chunk there can be. */
  lemma StoredWithin(limits: Limits, calls: seq<Call>, c: nat)
    requires Allowed(limits, calls) && SmallCalls(calls, c)
    ensures limits.retain.Head? ==> After(limits, calls).storedBytes <= limits.maxBytes + c
    ensures limits.retain.Tail? ==> After(limits, calls).storedBytes <= limits.maxBytes + 1 + StoredChunk(limits, c)
  {
    AfterInv(limits, calls);
    if limits.retain.Head? {
      AfterLargest(limits, calls, c);
    } else {
      AfterFitted(limits, calls, c);
    }
  }

  // ----- A run that stores as much as any -----

  /** A character of `n` bytes. */
  function Wide(n: nat): (w: char)
    requires 1 <= n <= 4
    ensures |EncodeChar(w)| == n && w != '\n'
  {
    match n
    case 1 => 'a'
    case 2 => '\U{e9}'
    case 3 => '\U{20ac}'
    case _ => '\U{1f600}'
  }

  function Letters(k: nat): string {
    if k == 0 then "" else Letters(k - 1) + "a"
  }

  /** `k` chunks of one byte. */
  function Single(k: nat): (calls: seq<Call>)
    ensures |calls| == k && forall i :: 0 <= i < k ==> calls[i] == Pushed("a")
  {
    if k == 0 then [] else Single(k - 1) + [Pushed("a")]
  }

  lemma LetterSize()
    ensures |Encode("a")| == 1 && Newlines(Encode("a")) == 0
  {
    EncodeOne('a');
    CharNewlines('a');
  }

  /** The first chunk stays while no more than the window and a byte follows it. */
  ghost predicate Trails(s: State, f: Chunk, k: nat) {
    && s.limits.retain.Tail? && !s.full && |s.chunks| == k + 1 && s.chunks[0] == f
    && s.storedBytes == f.bytes + k && s.storedNewlines == f.newlines && s.stored == f.text + Letters(k)
  }

  ghost predicate Trailing(limits: Limits, calls: seq<Call>, f: Chunk, k: nat) {
    Trails(After(limits, calls), f, k) && After(limits, calls).limits == limits
  }

  lemma {:induction false} SingleTrail(limits: Limits, calls: seq<Call>, f: Chunk, k: nat)
    requires Trailing(limits, calls, f, 0) && k <= limits.maxBytes + 1
    ensures Trailing(limits, calls + Single(k), f, k)
  {
    if k == 0 {
      assert calls + Single(0) == calls;
    } else {
      SingleTrail(limits, calls, f, k - 1);
      TrailGrows(limits, calls, f, k);
    }
  }

  lemma TrailGrows(limits: Limits, calls: seq<Call>, f: Chunk, k: nat)
    requires 0 < k <= limits.maxBytes + 1 && Trailing(limits, calls + Single(k - 1), f, k - 1)
    ensures Trailing(limits, calls + Single(k), f, k)
  {
    AfterSingle(limits, calls, k);
    OneMore(After(limits, calls + Single(k - 1)), f, k - 1);
  }

  lemma AfterSingle(limits: Limits, calls: seq<Call>, k: nat)
    requires k > 0
    ensures After(limits, calls + Single(k)) == Step(After(limits, calls + Single(k - 1)), Pushed("a"))
  {
    var all := calls + Single(k);
    assert all[..|all| - 1] == calls + Single(k - 1);
  }

  lemma OneMore(s: State, f: Chunk, k: nat)
    requires Trails(s, f, k) && k <= s.limits.maxBytes
    ensures Trails(Step(s, Pushed("a")), f, k + 1) && Step(s, Pushed("a")).limits == s.limits
  {
    LetterSize();
    assert "" + "a" == "a";
    var t := Append(Count(s, "a"), "a");
    assert KeepsFirst(t);
    assert Accept(s, "a") == t;
    assert s.stored + "a" == f.text + Letters(k + 1);
  }

  lemma {:induction false} LettersSize(k: nat)
    ensures |Encode(Letters(k))| == k && Newlines(Encode(Letters(k))) == 0
  {
    if k > 0 {
      LettersSize(k - 1);
      LetterSize();
      SizesAdd(Letters(k - 1), "a");
    }
  }

  /** A character of `n` bytes, a window of letters, a snapshot, and a window and a byte more. */
  function Worst(limits: Limits, n: nat): seq<Call>
    requires 1 <= n <= 4
  {
    UpToShown(limits, n) + Single(limits.maxBytes + 1)
  }

  lemma FirstTrails(limits: Limits, n: nat)
    requires 1 <= n <= 4 && limits.retain.Tail?
    ensures Trailing(limits, [Pushed([Wide(n)])], Measure([Wide(n)]), 0)
  {
    var calls := [Pushed([Wide(n)])];
    assert calls[..0] == [];
    assert "" + [Wide(n)] == [Wide(n)] && [Wide(n)] + "" == [Wide(n)];
    assert "" + [Wide(n)] + Letters(0) == [Wide(n)];
  }

  lemma ShownTrails(s: State, n: nat)
    requires 1 <= n <= 4 && Trails(s, Measure([Wide(n)]), s.limits.maxBytes)
    ensures Trails(Shot(s), Measure(s.stored), 0) && Shot(s).limits == s.limits
    ensures |Encode(s.stored)| == n + s.limits.maxBytes
  {
    var k := s.limits.maxBytes;
    LettersSize(k);
    EncodeOne(Wide(n));
    SizesAdd([Wide(n)], Letters(k));
    assert s.stored[1..] == Letters(k);
    assert Margin(s.stored, s.limits) == s.stored;
    assert s.stored + Letters(0) == s.stored;
  }

  /** The calls up to the snapshot, which leaves one chunk. */
  function UpToShown(limits: Limits, n: nat): seq<Call>
    requires 1 <= n <= 4
  {
    [Pushed([Wide(n)])] + Single(limits.maxBytes) + [Shown]
  }

  lemma ShownJoins(limits: Limits, n: nat) returns (joined: Chunk)
    requires 1 <= n <= 4 && limits.retain.Tail?
    ensures Trailing(limits, UpToShown(limits, n), joined, 0) && joined.bytes == n + limits.maxBytes
  {
    var start := [Pushed([Wide(n)])];
    FirstTrails(limits, n);
    SingleTrail(limits, start, Measure([Wide(n)]), limits.maxBytes);
    var full := start + Single(limits.maxBytes);
    var s := After(limits, full);
    ShownTrails(s, n);
    joined := Measure(s.stored);
    assert UpToShown(limits, n)[..|full|] == full;
  }

  lemma WorstStores(limits: Limits, n: nat)
    requires 1 <= n <= 4 && limits.retain.Tail?
    ensures After(limits, Worst(limits, n)).storedBytes == 2 * limits.maxBytes + 1 + n
  {
    var joined := ShownJoins(limits, n);
    SingleTrail(limits, UpToShown(limits, n), joined, limits.maxBytes + 1);
  }

  lemma WorstAllowed(limits: Limits, n: nat, c: nat)
    requires 1 <= n <= 4 && n <= c
    ensures Allowed(limits, Worst(limits, n)) && SmallCalls(Worst(limits, n), c)
  {
    LetterSize();
    EncodeOne(Wide(n));
    forall i | 0 <= i < |Worst(limits, n)|
      ensures Meant(limits, Worst(limits, n)[i]) && Small(Worst(limits, n)[i], c)
    {
      assert Worst(limits, n)[i] in {Pushed([Wide(n)]), Pushed("a"), Shown};
    }
  }

  ghost predicate StaysWithin(limits: Limits, c: nat) {
    forall calls | Allowed(limits, calls) && SmallCalls(calls, c) ::
      After(limits, calls).storedBytes <= limits.maxBytes + 1 + c
  }

  /**
   Chunks of at most `c` bytes keep what is stored within the limit, a byte and one chunk, in tail mode only if a
   snapshot cannot join a larger one.
   */
  lemma StoredIff(limits: Limits, c: nat)
    requires c > 0
    ensures StaysWithin(limits, c) <==> limits.retain.Head? || limits.maxBytes == 0 || c >= limits.maxBytes + 4
  {
    if limits.retain.Head? || limits.maxBytes == 0 || c >= limits.maxBytes + 4 {
      forall calls | Allowed(limits, calls) && SmallCalls(calls, c)
        ensures After(limits, calls).storedBytes <= limits.maxBytes + 1 + c
      {
        StoredWithin(limits, calls, c);
      }
    } else {
      var n := Min(c, 4);
      WorstStores(limits, n);
      WorstAllowed(limits, n, c);
    }
  }
}
