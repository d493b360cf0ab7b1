/**
 `Progress` of packages/chord/src/output.ts: commits of a changing value, paced by their size. Each method is one
 callback of the event loop; clock readings are parameters that never decrease. The ghost log `writes` records every
 commit, and `Valid()` says what holds after any run.
 */
module ProgressPacing {

  const BYTES_PER_SECOND: nat := 100 * 1024

  datatype Outcome = Running | Wrote(bytes: nat) | Failed

  /** One commit: when it started, the waiters it settles, and how it ended. */
  datatype Write = Write(start: real, covers: seq<nat>, outcome: Outcome)

  function Max(a: real, b: real): real {
    if a < b then b else a
  }

  /** How long a settled commit delays the next one. */
  function Pause(minInterval: real, outcome: Outcome): real {
    match outcome
    case Wrote(bytes) => Max(minInterval, bytes as real * 1000.0 / BYTES_PER_SECOND as real)
    case _ => minInterval
  }

  /** Only the last commit may be running, and each started no earlier than its predecessor's pause allows. */
  ghost predicate Paced(minInterval: real, writes: seq<Write>) {
    forall i, j :: 0 <= i && j == i + 1 < |writes| ==> Follows(minInterval, writes[i], writes[j])
  }

  ghost predicate Follows(minInterval: real, w: Write, next: Write) {
    !w.outcome.Running? && next.start >= w.start + Pause(minInterval, w.outcome)
  }

  lemma PacedAppend(minInterval: real, writes: seq<Write>, w: Write)
    requires Paced(minInterval, writes)
    requires writes != [] ==> Follows(minInterval, writes[|writes| - 1], w)
    ensures Paced(minInterval, writes + [w])
  {
  }

  lemma PacedSettle(minInterval: real, writes: seq<Write>, outcome: Outcome)
    requires writes != [] && Paced(minInterval, writes)
    ensures Paced(minInterval, writes[|writes| - 1 := writes[|writes| - 1].(outcome := outcome)])
  {
  }

  /** Bytes of the commits before the last. */
  function Bytes(writes: seq<Write>): nat {
    if |writes| <= 1 then 0
    else (if writes[0].outcome.Wrote? then writes[0].outcome.bytes else 0) + Bytes(writes[1..])
  }

  lemma {:induction false} WholeBound(minInterval: real, writes: seq<Write>)
    requires minInterval >= 0.0 && writes != [] && Paced(minInterval, writes)
    ensures Bytes(writes) as real * 1000.0 <= BYTES_PER_SECOND as real * (writes[|writes| - 1].start - writes[0].start)
  {
    if |writes| > 1 {
      PacedStretch(minInterval, writes, 1, |writes|);
      WholeBound(minInterval, writes[1..]);
      assert Follows(minInterval, writes[0], writes[1]);
    }
  }

  /** A stretch of a paced log is paced. */
  lemma PacedStretch(minInterval: real, writes: seq<Write>, i: nat, j: nat)
    requires Paced(minInterval, writes) && i <= j <= |writes|
    ensures Paced(minInterval, writes[i..j])
  {
  }

  /** Between the starts of any two commits of a run, no more than 100 KiB are written for each second. */
  lemma RateBound(minInterval: real, writes: seq<Write>, i: nat, j: nat)
    requires minInterval >= 0.0 && Paced(minInterval, writes) && i <= j < |writes|
    ensures Bytes(writes[i..j + 1]) as real * 1000.0 <= 102400.0 * (writes[j].start - writes[i].start)
  {
    PacedStretch(minInterval, writes, i, j + 1);
    WholeBound(minInterval, writes[i..j + 1]);
  }

  /** Whatever became of them, commits start at least the minimum interval apart. */
  lemma {:induction false} Spacing(minInterval: real, writes: seq<Write>, i: nat, j: nat)
    requires Paced(minInterval, writes) && i <= j < |writes|
    ensures writes[j].start - writes[i].start >= (j - i) as real * minInterval
    decreases j
  {
    if i < j {
      Spacing(minInterval, writes, i, j - 1);
      assert Follows(minInterval, writes[j - 1], writes[j]);
    }
  }

  /**
   `at` is the earliest start after a commit: the minimum interval after it, or a second after it for every 100 KiB
   written, whichever is later; a failed commit wrote nothing.
   */
  ghost predicate EarliestNext(minInterval: real, w: Write, at: real) {
    && at >= w.start + minInterval
    && (w.outcome.Failed? ==> at == w.start + minInterval)
    && (w.outcome.Wrote? ==>
          var delay := w.outcome.bytes as real * 1000.0 / 102400.0;
          at >= w.start + delay && (at == w.start + minInterval || at == w.start + delay))
  }

  /** Consecutive commits keep that distance, whatever the outcome of the first. */
  lemma PacedPlainly(minInterval: real, writes: seq<Write>, i: nat)
    requires Paced(minInterval, writes) && i + 1 < |writes|
    ensures !writes[i].outcome.Running?
    ensures exists at :: EarliestNext(minInterval, writes[i], at) && writes[i + 1].start >= at
  {
    assert Follows(minInterval, writes[i], writes[i + 1]);
    assert EarliestNext(minInterval, writes[i], writes[i].start + Pause(minInterval, writes[i].outcome));
  }

  /** Where a waiter is: queued, taken by a commit, or handed back by `stop`. */
  datatype Place = Queued | By(write: nat) | Handed

  /**
   Each waiter is in the one place recorded for it, and a commit that took it started after it came: `born` counts
   the commits that had started by then.
   */
  ghost predicate WaitersPlaced(born: seq<nat>, place: seq<Place>, queued: seq<nat>, writes: seq<Write>) {
    && |born| == |place|
    && (forall i :: 0 <= i < |queued| ==> queued[i] < |place| && place[queued[i]].Queued?)
    && (forall k, i :: 0 <= k < |writes| && 0 <= i < |writes[k].covers| ==>
          writes[k].covers[i] < |place| && place[writes[k].covers[i]] == By(k))
    && (forall w :: 0 <= w < |place| ==> born[w] <= |writes| && PlacedAt(w, born[w], place[w], queued, writes))
  }

  ghost predicate PlacedAt(w: nat, born: nat, place: Place, queued: seq<nat>, writes: seq<Write>) {
    match place
    case Queued => w in queued
    case By(k) => born <= k < |writes| && w in writes[k].covers
    case Handed => true
  }

  ghost function Moved(place: seq<Place>, to: Place): seq<Place> {
    seq(|place|, w requires 0 <= w < |place| => if place[w].Queued? then to else place[w])
  }

  /** A commit takes every queued waiter. */
  lemma TakeQueued(born: seq<nat>, place: seq<Place>, queued: seq<nat>, writes: seq<Write>, start: real)
    requires WaitersPlaced(born, place, queued, writes)
    ensures WaitersPlaced(born, Moved(place, By(|writes|)), [], writes + [Write(start, queued, Running)])
  {
    var later := writes + [Write(start, queued, Running)];
    forall w | 0 <= w < |place|
      ensures PlacedAt(w, born[w], Moved(place, By(|writes|))[w], [], later)
    {
      assert PlacedAt(w, born[w], place[w], queued, writes);
    }
  }

  lemma SettleLast(born: seq<nat>, place: seq<Place>, queued: seq<nat>, writes: seq<Write>, outcome: Outcome)
    requires writes != [] && WaitersPlaced(born, place, queued, writes)
    ensures WaitersPlaced(born, place, queued, writes[|writes| - 1 := writes[|writes| - 1].(outcome := outcome)])
  {
    var later := writes[|writes| - 1 := writes[|writes| - 1].(outcome := outcome)];
    forall w | 0 <= w < |place| ensures PlacedAt(w, born[w], place[w], queued, later) {
      assert PlacedAt(w, born[w], place[w], queued, writes);
    }
  }

  lemma QueueNew(born: seq<nat>, place: seq<Place>, queued: seq<nat>, writes: seq<Write>)
    requires WaitersPlaced(born, place, queued, writes)
    ensures WaitersPlaced(born + [|writes|], place + [Queued], queued + [|born|], writes)
  {
    forall w | 0 <= w < |place + [Queued]|
      ensures PlacedAt(w, (born + [|writes|])[w], (place + [Queued])[w], queued + [|born|], writes)
    {
      if w < |place| {
        assert PlacedAt(w, born[w], place[w], queued, writes);
      } else {
        assert (queued + [|born|])[|queued|] == w;
      }
    }
  }

  lemma HandOver(born: seq<nat>, place: seq<Place>, queued: seq<nat>, writes: seq<Write>)
    requires WaitersPlaced(born, place, queued, writes)
    ensures WaitersPlaced(born, Moved(place, Handed), [], writes)
  {
    forall w | 0 <= w < |place| ensures PlacedAt(w, born[w], Moved(place, Handed)[w], [], writes) {
      assert PlacedAt(w, born[w], place[w], queued, writes);
    }
  }

  /** The waiter is settled: by a commit that started after it came and is over. */
  ghost predicate SettledBy(w: nat, k: nat, born: seq<nat>, writes: seq<Write>) {
    w < |born| && born[w] <= k < |writes| && w in writes[k].covers && !writes[k].outcome.Running?
  }

  /** With no commit running, every waiter a commit took is settled. */
  lemma AllSettled(minInterval: real, born: seq<nat>, place: seq<Place>, queued: seq<nat>, writes: seq<Write>, w: nat)
    requires WaitersPlaced(born, place, queued, writes) && Paced(minInterval, writes)
    requires writes == [] || !writes[|writes| - 1].outcome.Running?
    requires w < |place| && place[w].By?
    ensures SettledBy(w, place[w].write, born, writes)
  {
    assert PlacedAt(w, born[w], place[w], queued, writes);
    var k := place[w].write;
    if k + 1 < |writes| {
      assert Follows(minInterval, writes[k], writes[k + 1]);
    }
  }

  class Progress {
    const minInterval: real
    /** Waiters no commit has taken yet. */
    var waiters: seq<nat>
    /** Names the next waiter. */
    var nextWaiter: nat
    var timer: bool
    var inFlight: bool
    /** When the commit in flight started. */
    var started: real
    var nextAt: real
    var dirty: bool
    var stopped: bool
    ghost var writes: seq<Write>
    /** The latest clock reading. */
    ghost var clock: real
    /** For each waiter, the number of commits that had started when it came. */
    ghost var born: seq<nat>
    /** Where each waiter is. */
    ghost var place: seq<Place>

    ghost predicate Settled()
      reads this
    {
      writes == [] || !writes[|writes| - 1].outcome.Running?
    }

    ghost predicate Timing()
      reads this
    {
      && Paced(minInterval, writes)
      && (writes == [] ==> !inFlight && nextAt == 0.0)
      && (writes != [] ==> writes[|writes| - 1].start <= clock)
      && (inFlight ==> started == writes[|writes| - 1].start)
      && (!Settled() ==> inFlight)
      && (writes != [] && Settled() ==>
            nextAt == writes[|writes| - 1].start + Pause(minInterval, writes[|writes| - 1].outcome))
    }

    /** An unwritten change has a timer or a commit behind it, and a waiter is an unwritten change. */
    ghost predicate NoLostChange()
      reads this
    {
      && (dirty && !stopped ==> timer || inFlight)
      && (waiters != [] && !stopped ==> dirty)
      && (timer ==> dirty && !stopped && !inFlight)
    }

    ghost predicate Placed()
      reads this
    {
      WaitersPlaced(born, place, waiters, writes) && nextWaiter == |born|
    }

    ghost predicate Valid()
      reads this
    {
      Timing() && NoLostChange() && Placed()
    }

    constructor (minInterval: real)
      ensures Valid() && writes == [] && this.minInterval == minInterval && !stopped && nextAt == 0.0
    {
      this.minInterval := minInterval;
      waiters, nextWaiter, timer, inFlight, started, nextAt, dirty, stopped := [], 0, false, false, 0.0, 0.0, false, false;
      writes, clock, born, place := [], 0.0, [], [];
    }

    /** `mark`: `now` is read for the wait and `start` by a commit started at once. */
    method Mark(now: real, start: real)
      requires Valid() && clock <= now <= start
      modifies this
      ensures Valid() && stopped == old(stopped) && born == old(born) && nextAt == old(nextAt)
      ensures clock == old(clock) || clock == start
      ensures old(writes) <= writes && |writes| <= |old(writes)| + 1
      ensures dirty || |writes| > |old(writes)|
    {
      dirty := true;
      Schedule(now, start);
    }

    /** `markAndWait`: the waiter it returns is placed by the invariant from then on. */
    method MarkAndWait(now: real, start: real) returns (w: nat)
      requires Valid() && clock <= now <= start
      modifies this
      ensures Valid() && w == |old(born)| && born == old(born) + [|old(writes)|]
      ensures stopped == old(stopped) && nextAt == old(nextAt)
    {
      w := NewWaiter();
      dirty := true;
      Schedule(now, start);
    }

    method NewWaiter() returns (w: nat)
      requires Valid()
      modifies this
      ensures w == |old(born)| && born == old(born) + [|writes|] && waiters == old(waiters) + [w]
      ensures Placed()
      ensures unchanged(`timer, `inFlight, `started, `nextAt, `dirty, `stopped, `writes, `clock)
    {
      w := nextWaiter;
      nextWaiter := nextWaiter + 1;
      QueueNew(born, place, waiters, writes);
      place := place + [Queued];
      waiters := waiters + [w];
      born := born + [|writes|];
    }

    /** `#schedule`. */
    method Schedule(now: real, start: real)
      requires Timing() && Placed()
      requires dirty && (timer ==> !stopped && !inFlight)
      requires clock <= now <= start
      modifies this
      ensures Valid() && stopped == old(stopped) && born == old(born) && nextAt == old(nextAt)
      ensures clock == old(clock) || clock == start
      ensures old(writes) <= writes && |writes| <= |old(writes)| + 1
      ensures dirty || |writes| > |old(writes)|
      ensures old(!stopped && !timer && !inFlight) ==>
                if now >= old(nextAt) then |writes| == |old(writes)| + 1 else timer
    {
      if stopped || timer || inFlight {
        return;
      }
      var wait := nextAt - now;
      if wait <= 0.0 {
        Flush(start);
      } else {
        timer := true;
      }
    }

    /** `#flush`, up to the start of the write. */
    method Flush(start: real)
      requires Timing() && Placed() && !inFlight && !timer && !stopped
      requires waiters != [] ==> dirty
      requires clock <= start && nextAt <= start
      modifies this
      ensures Valid() && stopped == old(stopped) && born == old(born) && nextAt == old(nextAt)
      ensures clock == old(clock) || clock == start
      ensures if old(dirty) then writes == old(writes) + [Write(start, old(waiters), Running)]
              else writes == old(writes) && !dirty
    {
      if stopped || !dirty {
        return;
      }
      TakeQueued(born, place, waiters, writes, start);
      place := Moved(place, By(|writes|));
      PacedAppend(minInterval, writes, Write(start, waiters, Running));
      dirty := false;
      var taken := waiters;
      waiters := [];
      started := start;
      inFlight := true;
      writes := writes + [Write(start, taken, Running)];
      clock := start;
    }

    /** The timer fires, perhaps early. */
    method TimerFires(now: real, start: real)
      requires Valid() && timer && clock <= now <= start
      modifies this
      ensures Valid() && stopped == old(stopped) && born == old(born) && nextAt == old(nextAt)
      ensures old(writes) <= writes
      ensures if now >= old(nextAt) then |writes| == |old(writes)| + 1 else timer
    {
      timer := false;
      Schedule(now, start);
    }

    /** The commit in flight settles: its waiters settle with it, and the next commit is delayed. */
    method Settle(outcome: Outcome)
      requires Valid() && !Settled() && !outcome.Running?
      modifies this
      ensures Valid() && Settled() && inFlight
      ensures writes == old(writes)[|old(writes)| - 1 := old(writes)[|old(writes)| - 1].(outcome := outcome)]
      ensures EarliestNext(minInterval, writes[|writes| - 1], nextAt)
      ensures dirty == old(dirty) && stopped == old(stopped) && born == old(born)
    {
      SettleLast(born, place, waiters, writes, outcome);
      PacedSettle(minInterval, writes, outcome);
      nextAt := started + Pause(minInterval, outcome);
      writes := writes[|writes| - 1 := writes[|writes| - 1].(outcome := outcome)];
    }

    /** The `finally` callback: the commit is over, and a change made meanwhile is scheduled. */
    method Finish(now: real, start: real)
      requires Valid() && inFlight && Settled() && clock <= now <= start
      modifies this
      ensures Valid() && stopped == old(stopped) && born == old(born) && nextAt == old(nextAt)
      ensures old(writes) <= writes
    {
      inFlight := false;
      if dirty {
        Schedule(now, start);
      }
    }

    /** `stop` up to its `await`: no commit starts any more. */
    method Stop()
      requires Valid()
      modifies this
      ensures Valid() && stopped && !timer && writes == old(writes) && inFlight == old(inFlight)
      ensures born == old(born) && nextAt == old(nextAt)
    {
      stopped := true;
      timer := false;
    }

    /** `stop` after the commit in flight: hands back every waiter no commit covered. */
    method TakeWaiters() returns (rest: seq<nat>)
      requires Valid() && stopped && !inFlight
      modifies this
      ensures Valid() && waiters == [] && writes == old(writes) && born == old(born) && nextAt == old(nextAt)
      ensures rest == old(waiters)
      ensures forall w :: 0 <= w < |place| ==>
                if old(place)[w].Queued? then w in rest && place[w].Handed? else place[w] == old(place)[w]
      ensures forall w :: 0 <= w < |place| && !place[w].Handed? ==> SettledBy(w, place[w].write, born, writes)
    {
      rest := waiters;
      HandOver(born, place, waiters, writes);
      forall w | 0 <= w < |place| && place[w].By? ensures SettledBy(w, place[w].write, born, writes) {
        AllSettled(minInterval, born, place, waiters, writes, w);
      }
      assert forall w :: 0 <= w < |place| ==> PlacedAt(w, born[w], place[w], waiters, writes);
      waiters := [];
      place := Moved(place, Handed);
    }
  }
}
