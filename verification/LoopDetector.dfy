/** `GuardrailsState` of packages/coding-agent/extensions/hummin-guardrails.ts: budget, loop detector, circuit breaker. */
module LoopDetector {

  /** Positive settings; 0 turns `toolCallHaltAt` and `toolCallWarnAt` off. */
  datatype Policy = Policy(toolCallWarnAt: nat, toolCallHaltAt: nat, loopThreshold: nat, loopWindow: nat,
                           perToolRetryWindowMs: nat, perToolRetryLimit: nat, absoluteRetryMultiplier: nat, exemptVerbs: seq<string>)

  predicate Positive(p: Policy) {
    p.loopThreshold > 0 && p.loopWindow > 0
  }

  datatype Decision = Allowed | Budget | Loop(hits: nat) | Circuit(absolute: nat, recent: nat)

  // ----- The window of calls -----

  function Count(hashes: seq<string>, hash: string): nat {
    if hashes == [] then 0
    else Count(hashes[..|hashes| - 1], hash) + (if hashes[|hashes| - 1] == hash then 1 else 0)
  }

  function Suffix(s: seq<string>, n: nat): (r: seq<string>)
    ensures |r| <= n && |r| <= |s|
  {
    if |s| <= n then s else s[|s| - n..]
  }

  /** The detector as a rule: a call is denied when it would be one too many among the last `loopWindow` that passed. */
  predicate Denies(p: Policy, passed: seq<string>, hash: string)
    requires Positive(p)
  {
    Count(Suffix(passed, p.loopWindow - 1), hash) + 1 >= p.loopThreshold
  }

  lemma {:induction false} CountIs(hashes: seq<string>, hash: string)
    ensures Count(hashes, hash) == multiset(hashes)[hash]
  {
    if hashes != [] {
      CountIs(hashes[..|hashes| - 1], hash);
      assert hashes == hashes[..|hashes| - 1] + [hashes[|hashes| - 1]];
    }
  }

  /**
   Exactly when a call is denied: it and its like among the `loopWindow - 1` calls that passed last, or among all of them
   while they are fewer, make `loopThreshold`.
   */
  lemma DeniesExactly(p: Policy, passed: seq<string>, hash: string)
    requires Positive(p)
    ensures var recent := if |passed| < p.loopWindow then passed else passed[|passed| - p.loopWindow + 1..];
            Denies(p, passed, hash) <==> multiset(recent)[hash] + 1 >= p.loopThreshold
  {
    CountIs(Suffix(passed, p.loopWindow - 1), hash);
  }

  /** So a call unlike every recent one passes, unless the policy denies all. */
  lemma FreshPasses(p: Policy, passed: seq<string>, hash: string)
    requires Positive(p) && p.loopThreshold > 1
    requires forall i :: 0 <= i < |passed| && |passed| - i < p.loopWindow ==> passed[i] != hash
    ensures !Denies(p, passed, hash)
  {
    DeniesExactly(p, passed, hash);
    var recent := if |passed| < p.loopWindow then passed else passed[|passed| - p.loopWindow + 1..];
    assert hash !in recent;
  }

  /** Every call of the history passed when it was made. */
  ghost predicate Accepted(p: Policy, passed: seq<string>)
    requires Positive(p)
  {
    forall i {:trigger Denies(p, passed[..i], passed[i])} :: 0 <= i < |passed| ==> !Denies(p, passed[..i], passed[i])
  }

  lemma {:induction false} CountSplits(a: seq<string>, b: seq<string>, hash: string)
    ensures Count(a + b, hash) == Count(a, hash) + Count(b, hash)
    decreases |b|
  {
    if b == [] {
      assert a + b == a;
    } else {
      assert (a + b)[..|a + b| - 1] == a + b[..|b| - 1];
      CountSplits(a, b[..|b| - 1], hash);
    }
  }

  lemma CountSnoc(s: seq<string>, last: string, hash: string)
    ensures Count(s + [last], hash) == Count(s, hash) + (if last == hash then 1 else 0)
  {
    assert (s + [last])[..|s|] == s;
  }

  lemma SuffixCovers(s: seq<string>, n: nat, i: nat, hash: string)
    requires i <= |s| && |s| - i <= n
    ensures Count(s[i..], hash) <= Count(Suffix(s, n), hash)
  {
    var kept := Suffix(s, n);
    var k := |kept| - (|s| - i);
    assert kept == kept[..k] + s[i..];
    CountSplits(kept[..k], s[i..], hash);
  }

  /** Any `loopWindow` consecutive calls that passed, or fewer, hold fewer than `loopThreshold` identical ones. */
  lemma {:induction false} WindowBound(p: Policy, passed: seq<string>, i: nat, j: nat, hash: string)
    requires Positive(p) && Accepted(p, passed) && i <= j <= |passed| && j - i <= p.loopWindow
    ensures Count(passed[i..j], hash) < p.loopThreshold
    ensures multiset(passed[i..j])[hash] < p.loopThreshold
    decreases j - i
  {
    CountIs(passed[i..j], hash);
    if i < j {
      var last := passed[j - 1];
      assert passed[i..j] == passed[i..j - 1] + [last];
      CountSnoc(passed[i..j - 1], last, hash);
      if last == hash {
        SuffixCovers(passed[..j - 1], p.loopWindow - 1, i, hash);
        assert passed[..j - 1][i..] == passed[i..j - 1];
        assert !Denies(p, passed[..j - 1], last);
      } else {
        WindowBound(p, passed, i, j - 1, hash);
      }
    }
  }

  /**
   The window the detector keeps: the last calls that passed, one fewer after a denial at a full window, which shifts out
   the oldest entry and takes back the new one.
   */
  ghost predicate IsWindow(p: Policy, hashes: seq<string>, passed: seq<string>)
    requires Positive(p)
  {
    hashes == Suffix(passed, p.loopWindow) || (|passed| >= p.loopWindow && hashes == Suffix(passed, p.loopWindow - 1))
  }

  /** Push, shift and count see the same calls whichever of the two windows is kept, and either window stays one. */
  lemma WindowStep(p: Policy, hashes: seq<string>, passed: seq<string>, hash: string)
    requires Positive(p) && IsWindow(p, hashes, passed)
    ensures var pushed := hashes + [hash];
            var shifted := if |pushed| > p.loopWindow then pushed[1..] else pushed;
            && shifted == Suffix(passed, p.loopWindow - 1) + [hash]
            && Count(shifted, hash) == Count(Suffix(passed, p.loopWindow - 1), hash) + 1
            && IsWindow(p, shifted, passed + [hash]) && IsWindow(p, shifted[..|shifted| - 1], passed)
  {
    var kept := Suffix(passed, p.loopWindow - 1);
    var pushed := hashes + [hash];
    var shifted := if |pushed| > p.loopWindow then pushed[1..] else pushed;
    assert shifted == kept + [hash];
    assert shifted[..|shifted| - 1] == kept;
    assert Suffix(passed + [hash], p.loopWindow) == kept + [hash];
  }

  lemma AcceptedNext(p: Policy, passed: seq<string>, hash: string)
    requires Positive(p) && Accepted(p, passed) && !Denies(p, passed, hash)
    ensures Accepted(p, passed + [hash])
  {
    var more := passed + [hash];
    forall i | 0 <= i < |more| ensures !Denies(p, more[..i], more[i]) {
      assert more[..i] == passed[..i];
      assert passed[..|passed|] == passed;
    }
  }

  // ----- Denied calls leave no trace -----

  /** Which calls of a session are denied, after a history. */
  function Denials(p: Policy, passed: seq<string>, calls: seq<string>): seq<bool>
    requires Positive(p)
    decreases |calls|
  {
    if calls == [] then []
    else
      var denied := Denies(p, passed, calls[0]);
      [denied] + Denials(p, if denied then passed else passed + [calls[0]], calls[1..])
  }

  lemma {:induction false} DenialsLength(p: Policy, passed: seq<string>, calls: seq<string>)
    requires Positive(p)
    ensures |Denials(p, passed, calls)| == |calls|
    decreases |calls|
  {
    if calls != [] {
      var denied := Denies(p, passed, calls[0]);
      DenialsLength(p, if denied then passed else passed + [calls[0]], calls[1..]);
    }
  }

  /** The elements that are kept. */
  function Select<T>(s: seq<T>, keep: seq<bool>): seq<T>
    requires |s| == |keep|
  {
    if s == [] then [] else (if keep[0] then [s[0]] else []) + Select(s[1..], keep[1..])
  }

  /** Deleting any of the denied calls changes the verdict on no other call. */
  lemma {:induction false} DeletingDeniedCalls(p: Policy, passed: seq<string>, calls: seq<string>, keep: seq<bool>)
    requires Positive(p) && |keep| == |calls| == |Denials(p, passed, calls)|
    requires forall i :: 0 <= i < |calls| && !keep[i] ==> Denials(p, passed, calls)[i]
    ensures Denials(p, passed, Select(calls, keep)) == Select(Denials(p, passed, calls), keep)
    decreases |calls|
  {
    if calls != [] {
      var verdicts := Denials(p, passed, calls);
      var after := if verdicts[0] then passed else passed + [calls[0]];
      DenialsLength(p, after, calls[1..]);
      assert verdicts[1..] == Denials(p, after, calls[1..]);
      forall i | 0 <= i < |calls[1..]| && !keep[1..][i] ensures verdicts[1..][i] {
        assert verdicts[i + 1];
      }
      DeletingDeniedCalls(p, after, calls[1..], keep[1..]);
      var rest := Select(calls[1..], keep[1..]);
      if keep[0] {
        assert ([calls[0]] + rest)[1..] == rest;
      } else {
        assert [] + rest == rest;
        assert [] + Select(verdicts[1..], keep[1..]) == Select(verdicts[1..], keep[1..]);
      }
    }
  }

  // ----- The guard's state -----

  /** The rejections at or after a time. */
  function Recent(stamps: seq<int>, cutoff: int): nat {
    if stamps == [] then 0
    else Recent(stamps[..|stamps| - 1], cutoff) + (if stamps[|stamps| - 1] >= cutoff then 1 else 0)
  }

  lemma {:induction false} RecentIs(stamps: seq<int>, cutoff: int)
    ensures Recent(stamps, cutoff) == |set i | 0 <= i < |stamps| && stamps[i] >= cutoff|
  {
    if stamps != [] {
      var n := |stamps| - 1;
      RecentIs(stamps[..n], cutoff);
      var before := set i | 0 <= i < |stamps[..n]| && stamps[..n][i] >= cutoff;
      var all := set i | 0 <= i < |stamps| && stamps[i] >= cutoff;
      assert all == if stamps[n] >= cutoff then before + {n} else before;
    }
  }

  function Stamped(rejections: map<string, seq<int>>, toolName: string, at: int): map<string, seq<int>> {
    rejections[toolName := (if toolName in rejections then rejections[toolName] else []) + [at]]
  }

  const SOFT_PING_AT: nat := 250

  datatype Option<T> = None | Some(value: T)

  /** What is appended to a result: a checkpoint, or how much of the budget is used. */
  datatype Reminder = Checkpoint(calls: nat) | Warning(calls: nat, haltAt: nat)

  function AbsoluteLimit(p: Policy): nat {
    p.perToolRetryLimit * p.absoluteRetryMultiplier
  }

  class GuardrailsState {
    const policy: Policy
    var perTool: map<string, nat>
    var totalToolCalls: nat
    var halted: bool
    var hashes: seq<string>
    var rejections: map<string, seq<int>>
    var softPingSent: bool
    /** The calls that passed the loop check. */
    ghost var passed: seq<string>
    /** How many checkpoints were given. */
    ghost var checkpoints: nat

    constructor (policy: Policy)
      requires Positive(policy)
      ensures Valid() && this.policy == policy && passed == [] && !halted && totalToolCalls == 0
      ensures perTool == map[] && rejections == map[] && checkpoints == 0
    {
      softPingSent, checkpoints := false, 0;
      this.policy, perTool, totalToolCalls, halted, hashes, rejections, passed := policy, map[], 0, false, [], map[], [];
    }

    ghost predicate Valid()
      reads this
    {
      && Positive(policy) && IsWindow(policy, hashes, passed) && Accepted(policy, passed)
      && checkpoints == (if softPingSent then 1 else 0)
      && (halted <==> policy.toolCallHaltAt > 0 && totalToolCalls > policy.toolCallHaltAt)
    }

    /** Whether the retries of a tool have used up a limit. */
    predicate Open(toolName: string, at: int)
      reads this
    {
      && toolName in rejections
      && (|| Recent(rejections[toolName], at - policy.perToolRetryWindowMs) >= policy.perToolRetryLimit
          || |rejections[toolName]| >= AbsoluteLimit(policy))
    }

    /**
     The verdict on a call. The loop check looks at nothing but the calls that passed it before, so its denials have no
     effect on later ones.
     */
    method ObserveCall(toolName: string, hash: string, at: int) returns (decision: Decision)
      requires Valid()
      modifies this`perTool, this`totalToolCalls, this`halted, this`hashes, this`passed
      ensures Valid()
      ensures decision.Budget? <==> halted
      ensures totalToolCalls == old(totalToolCalls) + (if old(halted) then 0 else 1)
      ensures perTool == if old(halted) then old(perTool)
                         else old(perTool)[toolName := (if toolName in old(perTool) then old(perTool)[toolName] else 0) + 1]
      ensures decision.Loop? <==> !halted && toolName !in policy.exemptVerbs && Denies(policy, old(passed), hash)
      ensures decision.Loop? ==> decision.hits == Count(Suffix(old(passed), policy.loopWindow - 1), hash) + 1
      ensures passed == if halted || toolName in policy.exemptVerbs || decision.Loop? then old(passed) else old(passed) + [hash]
      ensures decision.Circuit? <==> !halted && toolName !in policy.exemptVerbs && !decision.Loop? && Open(toolName, at)
      ensures decision.Circuit? ==>
                toolName in rejections
                && (decision.recent >= policy.perToolRetryLimit
                    || decision.absolute >= policy.perToolRetryLimit * policy.absoluteRetryMultiplier)
      ensures decision.Allowed? && toolName !in policy.exemptVerbs && toolName in rejections ==>
                && |rejections[toolName]| < policy.perToolRetryLimit * policy.absoluteRetryMultiplier
                && Recent(rejections[toolName], at - policy.perToolRetryWindowMs) < policy.perToolRetryLimit
      ensures decision.Circuit? ==>
                decision == Circuit(|rejections[toolName]|, Recent(rejections[toolName], at - policy.perToolRetryWindowMs))
    {
      if halted {
        return Budget;
      }
      totalToolCalls := totalToolCalls + 1;
      perTool := perTool[toolName := (if toolName in perTool then perTool[toolName] else 0) + 1];
      if policy.toolCallHaltAt > 0 && totalToolCalls > policy.toolCallHaltAt {
        halted := true;
        return Budget;
      }
      if toolName !in policy.exemptVerbs {
        var hits, denied := LoopCheck(hash);
        if denied {
          return Loop(hits);
        }
        decision := CircuitCheck(toolName, at);
        return;
      }
      decision := Allowed;
    }

    method CircuitCheck(toolName: string, at: int) returns (decision: Decision)
      ensures decision == if Open(toolName, at)
                          then Circuit(|rejections[toolName]|, Recent(rejections[toolName], at - policy.perToolRetryWindowMs))
                          else Allowed
    {
      if toolName in rejections {
        var recent := RecentOf(rejections[toolName], at - policy.perToolRetryWindowMs);
        var absolute := |rejections[toolName]|;
        if recent >= policy.perToolRetryLimit || absolute >= AbsoluteLimit(policy) {
          return Circuit(absolute, recent);
        }
      }
      decision := Allowed;
    }

    /** Push, shift, count, and take the call back if it is denied. */
    method LoopCheck(hash: string) returns (hits: nat, denied: bool)
      requires Positive(policy) && IsWindow(policy, hashes, passed) && Accepted(policy, passed)
      modifies this`hashes, this`passed
      ensures IsWindow(policy, hashes, passed) && Accepted(policy, passed)
      ensures denied <==> Denies(policy, old(passed), hash)
      ensures hits == Count(Suffix(old(passed), policy.loopWindow - 1), hash) + 1
      ensures passed == if denied then old(passed) else old(passed) + [hash]
    {
      WindowStep(policy, hashes, passed, hash);
      hashes := hashes + [hash];
      if |hashes| > policy.loopWindow {
        hashes := hashes[1..];
      }
      hits := Hits(hash);
      denied := hits >= policy.loopThreshold;
      if denied {
        hashes := hashes[..|hashes| - 1];
        return;
      }
      AcceptedNext(policy, passed, hash);
      passed := passed + [hash];
    }

    method Hits(hash: string) returns (hits: nat)
      ensures hits == Count(hashes, hash)
    {
      hits := 0;
      for i := 0 to |hashes|
        invariant hits == Count(hashes[..i], hash)
      {
        assert hashes[..i + 1][..i] == hashes[..i];
        if hashes[i] == hash {
          hits := hits + 1;
        }
      }
      assert hashes[..|hashes|] == hashes;
    }

    method RecentOf(stamps: seq<int>, cutoff: int) returns (recent: nat)
      ensures recent == Recent(stamps, cutoff)
    {
      recent := 0;
      for i := 0 to |stamps|
        invariant recent == Recent(stamps[..i], cutoff)
      {
        assert stamps[..i + 1][..i] == stamps[..i];
        if stamps[i] >= cutoff {
          recent := recent + 1;
        }
      }
      assert stamps[..|stamps|] == stamps;
    }

    /**
     A failed call is remembered for the circuit breaker. A successful one may bring a reminder: once a checkpoint, and
     otherwise a warning from `toolCallWarnAt` calls on; none after a halt.
     */
    method ObserveResult(toolName: string, isError: bool, at: int) returns (reminder: Option<Reminder>)
      requires Valid()
      modifies this`rejections, this`softPingSent, this`checkpoints
      ensures Valid()
      ensures rejections == if isError then Stamped(old(rejections), toolName, at) else old(rejections)
      ensures isError ==>
                && rejections.Keys == old(rejections).Keys + {toolName}
                && rejections[toolName] == (if toolName in old(rejections) then old(rejections)[toolName] else []) + [at]
                && forall other :: other in old(rejections) && other != toolName ==> rejections[other] == old(rejections)[other]
      ensures reminder == Some(Checkpoint(totalToolCalls)) <==>
              !isError && !halted && totalToolCalls >= 250 && old(checkpoints) == 0
      ensures reminder.Some? && reminder.value.Warning? <==>
              !isError && !halted && 0 < policy.toolCallWarnAt <= totalToolCalls
              && (totalToolCalls < 250 || old(checkpoints) > 0)
      ensures reminder.Some? && reminder.value.Warning? ==> reminder.value == Warning(totalToolCalls, policy.toolCallHaltAt)
      ensures checkpoints == old(checkpoints) + (if reminder.Some? && reminder.value.Checkpoint? then 1 else 0) <= 1
    {
      if isError {
        rejections := Stamped(rejections, toolName, at);
        return None;
      }
      if !halted && !softPingSent && totalToolCalls >= SOFT_PING_AT {
        softPingSent := true;
        checkpoints := checkpoints + 1;
        return Some(Checkpoint(totalToolCalls));
      }
      if policy.toolCallWarnAt > 0 && totalToolCalls >= policy.toolCallWarnAt && !halted {
        return Some(Warning(totalToolCalls, policy.toolCallHaltAt));
      }
      reminder := None;
    }
  }
}
