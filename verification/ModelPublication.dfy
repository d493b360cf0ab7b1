/**
 Refreshes of one dynamic provider and the publications they queue, from packages/ai/src/models.ts. Every step another
 party can take at an await is a method here, so any interleaving of refreshes, supersessions, aborts and store writes
 is a sequence of calls.
 */
module ModelPublication {

  datatype Option<T> = None | Some(value: T)

  datatype Model = Model(kind: string, id: string, details: string)

  /** `persist` of a publication: nothing, `null`, or an entry. */
  datatype Persist = Keep | Delete | Write

  /** What a publication awaits: the ones before it, or the store. Then it is done, and says whether it took effect. */
  datatype Stage = Waiting | Writing | Done(published: bool)

  /** `previous` is the publication that was last in the chain. */
  datatype Publication = Publication(refresh: nat, previous: Option<nat>, persist: Persist, models: seq<Model>, stage: Stage)

  datatype Refresh = Refresh(generation: nat, aborted: bool)

  /** What happens to the provider, in order. */
  datatype Entry =
    | Superseded(to: nat)
    | Aborted(refresh: nat)
    | Started(publication: nat, refresh: nat, generation: nat)
    | Persisted(publication: nat, ok: bool)
    | Updated(publication: nat, refresh: nat, generation: nat, stored: bool, models: seq<Model>)

  /** `generation`, `controller` and `chain` are the provider's entries of the three maps. */
  datatype State = State(generation: nat, controller: Option<nat>, chain: Option<nat>, refreshes: seq<Refresh>,
                         publications: seq<Publication>, dynamicModels: seq<Model>, log: seq<Entry>)

  // ----- What the log of any run satisfies -----

  /** The generation after a log. */
  function Generation(log: seq<Entry>): nat {
    if log == [] then 0
    else if log[|log| - 1].Superseded? then log[|log| - 1].to
    else Generation(log[..|log| - 1])
  }

  /** The store write in progress after a log. */
  function Busy(log: seq<Entry>): Option<nat> {
    if log == [] then None
    else
      match log[|log| - 1]
      case Started(k, _, _) => Some(k)
      case Persisted(_, _) => None
      case _ => Busy(log[..|log| - 1])
  }

  /** The models the provider lists after a log. */
  function Listed(log: seq<Entry>): seq<Model> {
    if log == [] then []
    else if log[|log| - 1].Updated? then log[|log| - 1].models
    else Listed(log[..|log| - 1])
  }

  /** No publication from `k` on has started or run its update. */
  predicate Untouched(log: seq<Entry>, k: nat) {
    forall i :: 0 <= i < |log| ==>
      (log[i].Started? ==> log[i].publication < k) && (log[i].Updated? ==> log[i].publication < k)
  }

  /**
   Writes start one at a time, in publication order, and only for a current refresh that is not aborted. An update runs
   only for such a refresh, once, with no write in progress, and right after its own successful write if it has one.
   */
  predicate EntryOk(log: seq<Entry>, e: Entry) {
    match e
    case Superseded(to) => to == Generation(log) + 1
    case Aborted(_) => true
    case Started(k, r, g) => g == Generation(log) && Aborted(r) !in log && Busy(log).None? && Untouched(log, k)
    case Persisted(k, _) => Busy(log) == Some(k)
    case Updated(k, r, g, stored, _) =>
      && g == Generation(log) && Aborted(r) !in log && Busy(log).None?
      && (if stored then log != [] && log[|log| - 1] == Persisted(k, true) else Untouched(log, k))
  }

  ghost predicate LogOk(log: seq<Entry>) {
    forall i :: 0 <= i < |log| ==> EntryOk(log[..i], log[i])
  }

  lemma LogAppend(log: seq<Entry>, e: Entry)
    requires LogOk(log) && EntryOk(log, e)
    ensures LogOk(log + [e])
  {
    forall i | 0 <= i < |log + [e]| ensures EntryOk((log + [e])[..i], (log + [e])[i]) {
      assert (log + [e])[..i] == log[..i];
      assert log[..|log|] == log;
    }
  }

  lemma Appended(log: seq<Entry>, e: Entry)
    ensures Generation(log + [e]) == if e.Superseded? then e.to else Generation(log)
    ensures Busy(log + [e]) == if e.Started? then Some(e.publication) else if e.Persisted? then None else Busy(log)
    ensures Listed(log + [e]) == if e.Updated? then e.models else Listed(log)
  {
    assert (log + [e])[..|log|] == log;
  }

  /** Generations only grow. */
  lemma {:induction false} GenerationsGrow(log: seq<Entry>, i: nat, j: nat)
    requires LogOk(log) && i <= j <= |log|
    ensures Generation(log[..i]) <= Generation(log[..j])
    decreases j
  {
    if i < j {
      GenerationsGrow(log, i, j - 1);
      assert log[..j] == log[..j - 1] + [log[j - 1]];
      Appended(log[..j - 1], log[j - 1]);
      assert EntryOk(log[..j - 1], log[j - 1]);
    }
  }

  /** A write in progress stays in progress until it settles. */
  lemma {:induction false} BusyUntilPersisted(log: seq<Entry>, i: nat, j: nat)
    requires LogOk(log) && i < j <= |log| && log[i].Started?
    requires forall m :: i < m < j ==> !(log[m].Persisted? && log[m].publication == log[i].publication)
    ensures Busy(log[..j]) == Some(log[i].publication)
    decreases j
  {
    assert log[..j] == log[..j - 1] + [log[j - 1]];
    Appended(log[..j - 1], log[j - 1]);
    if i < j - 1 {
      BusyUntilPersisted(log, i, j - 1);
      assert EntryOk(log[..j - 1], log[j - 1]);
    }
  }

  /** Two writes never overlap; the later one belongs to a later publication, and to no earlier generation. */
  lemma WritesInOrder(log: seq<Entry>, i: nat, j: nat)
    requires LogOk(log) && i < j < |log| && log[i].Started? && log[j].Started?
    ensures log[i].publication < log[j].publication && log[i].generation <= log[j].generation
    ensures exists m :: i < m < j && log[m].Persisted? && log[m].publication == log[i].publication
  {
    assert EntryOk(log[..i], log[i]) && EntryOk(log[..j], log[j]);
    assert log[..j][i] == log[i];
    GenerationsGrow(log, i, j);
    if forall m :: i < m < j ==> !(log[m].Persisted? && log[m].publication == log[i].publication) {
      BusyUntilPersisted(log, i, j);
    }
  }

  /** Once a generation is superseded, or a refresh aborted, it starts no write and runs no update. */
  lemma NothingAfterSuperseding(log: seq<Entry>, i: nat, j: nat)
    requires LogOk(log) && i < j < |log| && (log[j].Started? || log[j].Updated?)
    ensures log[i].Superseded? ==> log[j].generation >= log[i].to
    ensures log[i].Aborted? ==> log[j].refresh != log[i].refresh
  {
    assert EntryOk(log[..j], log[j]);
    assert log[..j][i] == log[i];
    if log[i].Superseded? {
      assert log[..i + 1] == log[..i] + [log[i]];
      Appended(log[..i], log[i]);
      GenerationsGrow(log, i + 1, j);
    }
  }

  /** An update follows its own write, and updates come in publication order. */
  lemma UpdatesInOrder(log: seq<Entry>, i: nat, j: nat)
    requires LogOk(log) && i < j < |log| && log[i].Updated? && log[j].Updated?
    ensures log[i].publication < log[j].publication && log[i].generation <= log[j].generation
    ensures log[j].stored ==> log[j - 1] == Persisted(log[j].publication, true)
  {
    assert EntryOk(log[..i], log[i]) && EntryOk(log[..j], log[j]);
    assert log[..j][i] == log[i] && log[..j][j - 1] == log[j - 1];
    GenerationsGrow(log, i, j);
    if log[j].stored {
      UpdatesBeforeWrite(log, i, j);
    }
  }

  lemma UpdatesBeforeWrite(log: seq<Entry>, i: nat, j: nat)
    requires LogOk(log) && i < j < |log| && log[i].Updated? && log[j - 1].Persisted?
    ensures log[i].publication < log[j - 1].publication
  {
    assert EntryOk(log[..j - 1], log[j - 1]);
    var s := StartOf(log, j - 1);
    NoUpdateWhileBusy(log, s, j - 1);
    assert i < s;
    UpdatedBeforeStart(log, i, s);
  }

  lemma UpdatedBeforeStart(log: seq<Entry>, i: nat, s: nat)
    requires LogOk(log) && i < s < |log| && log[i].Updated? && log[s].Started?
    ensures log[i].publication < log[s].publication
  {
    assert EntryOk(log[..s], log[s]);
    assert log[..s][i] == log[i];
  }

  /** The write that settles at `j` started before. */
  lemma {:induction false} StartOf(log: seq<Entry>, j: nat) returns (s: nat)
    requires LogOk(log) && j <= |log| && Busy(log[..j]).Some?
    ensures s < j && log[s].Started? && log[s].publication == Busy(log[..j]).value
    ensures forall m :: s < m < j ==> Busy(log[..m]) == Busy(log[..j])
    decreases j
  {
    BusyBefore(log, j);
    if log[j - 1].Started? {
      s := j - 1;
    } else {
      s := StartOf(log, j - 1);
    }
  }

  lemma BusyBefore(log: seq<Entry>, j: nat)
    requires j <= |log| && Busy(log[..j]).Some?
    ensures j > 0
    ensures Busy(log[..j]) == if log[j - 1].Started? then Some(log[j - 1].publication) else Busy(log[..j - 1])
  {
    assert log[..j][..j - 1] == log[..j - 1];
  }

  lemma NoUpdateWhileBusy(log: seq<Entry>, s: nat, j: nat)
    requires LogOk(log) && s < j <= |log| && log[s].Started? && Busy(log[..j]).Some?
    requires forall m :: s < m < j ==> Busy(log[..m]) == Busy(log[..j])
    ensures forall i :: s <= i < j ==> !log[i].Updated?
  {
    forall i | s < i < j ensures !log[i].Updated? {
      assert EntryOk(log[..i], log[i]);
    }
  }

  // ----- The steps -----

  function Logged(s: State, e: Entry): State {
    s.(log := s.log + [e])
  }

  /** `supersedeProviderRefresh` */
  function Supersede(s: State): State {
    var t := Logged(s.(generation := s.generation + 1), Superseded(s.generation + 1));
    match s.controller
    case None => t
    case Some(r) => Abort(t.(controller := None), r)
  }

  /** A signal fires: a refresh's own, or its caller's. */
  function Abort(s: State, r: nat): State {
    if r < |s.refreshes| then Logged(s.(refreshes := s.refreshes[r := s.refreshes[r].(aborted := true)]), Aborted(r)) else s
  }

  function BeginRefresh(s: State): State {
    var t := Supersede(s);
    t.(refreshes := t.refreshes + [Refresh(t.generation, false)], controller := Some(|t.refreshes|))
  }

  function EndRefresh(s: State, r: nat): State {
    if s.controller == Some(r) then s.(controller := None) else s
  }

  /** `publishProviderModels`, up to its first await. */
  function Queue(s: State, r: nat, persist: Persist, models: seq<Model>): State {
    s.(publications := s.publications + [Publication(r, s.chain, persist, models, Waiting)], chain := Some(|s.publications|))
  }

  predicate Settled(s: State, previous: Option<nat>) {
    previous.Some? && previous.value < |s.publications| ==> s.publications[previous.value].stage.Done?
  }

  predicate Stale(s: State, r: nat)
    requires r < |s.refreshes|
  {
    s.refreshes[r].aborted || s.generation != s.refreshes[r].generation
  }

  function WithStage(s: State, k: nat, stage: Stage): State
    requires k < |s.publications|
  {
    s.(publications := s.publications[k := s.publications[k].(stage := stage)])
  }

  function Update(s: State, k: nat): State
    requires k < |s.publications| && s.publications[k].refresh < |s.refreshes|
  {
    var p := s.publications[k];
    if Stale(s, p.refresh) then WithStage(s, k, Done(false))
    else Logged(WithStage(s, k, Done(true)).(dynamicModels := p.models),
                Updated(k, p.refresh, s.refreshes[p.refresh].generation, !p.persist.Keep?, p.models))
  }

  /** From the first await of a publication to its second, or to its end. */
  function Proceed(s: State, k: nat): State
    requires k < |s.publications| && s.publications[k].refresh < |s.refreshes|
  {
    var p := s.publications[k];
    if Stale(s, p.refresh) then WithStage(s, k, Done(false))
    else if p.persist.Keep? then Update(s, k)
    else Logged(WithStage(s, k, Writing), Started(k, p.refresh, s.refreshes[p.refresh].generation))
  }

  /** The store write settles. */
  function Settle(s: State, k: nat, ok: bool): State
    requires k < |s.publications| && s.publications[k].refresh < |s.refreshes|
  {
    var t := Logged(s, Persisted(k, ok));
    if ok then Update(t, k) else WithStage(t, k, Done(false))
  }

  function Unchain(s: State, k: nat): State {
    if s.chain == Some(k) then s.(chain := None) else s
  }

  // ----- The invariant -----

  /** Publications leave the waiting stage one by one, in order; the chain ends with the last of them. */
  ghost predicate Ordered(s: State) {
    && (forall j, k :: 0 <= j < k < |s.publications| && !s.publications[k].stage.Waiting? ==> s.publications[j].stage.Done?)
    && (forall k :: 0 <= k < |s.publications| ==> s.publications[k].refresh < |s.refreshes| && PreviousOk(s, k))
    && (match s.chain
        case Some(c) => c == |s.publications| - 1
        case None => forall k :: 0 <= k < |s.publications| ==> s.publications[k].stage.Done?)
  }

  /** A publication waits for the one before it, unless all before it were done when it was queued. */
  ghost predicate PreviousOk(s: State, k: nat)
    requires k < |s.publications|
  {
    match s.publications[k].previous
    case Some(p) => p == k - 1
    case None => forall j :: 0 <= j < k ==> s.publications[j].stage.Done?
  }

  /** What the log says is how things are. */
  ghost predicate LogAgrees(s: State) {
    && LogOk(s.log) && Generation(s.log) == s.generation && Listed(s.log) == s.dynamicModels
    && (forall r: nat :: Aborted(r) in s.log ==> r < |s.refreshes| && s.refreshes[r].aborted)
    && Untouched(s.log, |s.publications|)
    && (forall k :: 0 <= k < |s.publications| && s.publications[k].stage.Waiting? ==> Untouched(s.log, k))
    && (forall k :: 0 <= k < |s.publications| && s.publications[k].stage.Writing? ==> !s.publications[k].persist.Keep?)
    && (forall k: nat :: Busy(s.log) == Some(k) <==> k < |s.publications| && s.publications[k].stage.Writing?)
  }

  /** Each refresh has its own generation, and only the current one's controller is registered. */
  ghost predicate Generations(s: State) {
    && (forall q, r :: 0 <= q < r < |s.refreshes| ==> s.refreshes[q].generation < s.refreshes[r].generation)
    && (forall r :: 0 <= r < |s.refreshes| ==> s.refreshes[r].generation <= s.generation)
    && (s.controller.Some? ==>
          s.controller.value < |s.refreshes| && s.refreshes[s.controller.value].generation == s.generation)
  }

  ghost predicate Inv(s: State) {
    Ordered(s) && LogAgrees(s) && Generations(s)
  }

  const INITIAL: State := State(0, None, None, [], [], [], [])

  lemma InitialInv()
    ensures Inv(INITIAL)
  {
  }

  /** A logged step keeps the agreement if it changes what the entry says, and no waiting publication. */
  lemma LogStep(s: State, t: State, e: Entry)
    requires LogAgrees(s) && EntryOk(s.log, e) && t.log == s.log + [e]
    requires t.generation == (if e.Superseded? then e.to else s.generation)
    requires t.dynamicModels == (if e.Updated? then e.models else s.dynamicModels)
    requires |s.refreshes| <= |t.refreshes|
    requires forall r :: 0 <= r < |s.refreshes| && s.refreshes[r].aborted ==> t.refreshes[r].aborted
    requires e.Aborted? ==> e.refresh < |t.refreshes| && t.refreshes[e.refresh].aborted
    requires |t.publications| == |s.publications| && (e.Started? || e.Updated? ==> e.publication < |s.publications|)
    requires forall k :: 0 <= k < |t.publications| && t.publications[k].stage.Waiting? ==>
               s.publications[k].stage.Waiting? && (e.Started? || e.Updated? ==> e.publication < k)
    requires forall k :: 0 <= k < |t.publications| && t.publications[k].stage.Writing? ==> !t.publications[k].persist.Keep?
    requires forall k: nat :: Busy(t.log) == Some(k) <==> k < |t.publications| && t.publications[k].stage.Writing?
    ensures LogAgrees(t)
  {
    LogAppend(s.log, e);
    Appended(s.log, e);
    forall k | 0 <= k < |t.publications| && t.publications[k].stage.Waiting? ensures Untouched(t.log, k) {
      assert Untouched(s.log, k);
    }
  }

  lemma AbortInv(s: State, r: nat)
    requires Inv(s)
    ensures Inv(Abort(s, r))
  {
    if r < |s.refreshes| {
      Appended(s.log, Aborted(r));
      LogStep(s, Abort(s, r), Aborted(r));
    }
  }

  lemma SupersedeInv(s: State)
    requires Inv(s)
    ensures Inv(Supersede(s)) && Supersede(s).controller.None? && Supersede(s).generation == s.generation + 1
    ensures s.controller.Some? ==> Supersede(s).refreshes[s.controller.value].aborted
    ensures forall r :: 0 <= r < |Supersede(s).refreshes| ==> Supersede(s).refreshes[r].generation < Supersede(s).generation
  {
    var e := Superseded(s.generation + 1);
    var t := Logged(s.(generation := s.generation + 1, controller := None), e);
    Appended(s.log, e);
    LogStep(s, t, e);
    assert Inv(t);
    if s.controller.Some? {
      AbortInv(t, s.controller.value);
    }
  }

  /** A new generation: the refresh that was registered is aborted, and no other one nor any publication changes. */
  ghost predicate OneAborted(s: State, t: State) {
    && t.generation == s.generation + 1
    && t.publications == s.publications && t.chain == s.chain && t.dynamicModels == s.dynamicModels
    && |s.refreshes| <= |t.refreshes|
    && forall r :: 0 <= r < |s.refreshes| ==>
         t.refreshes[r] == Refresh(s.refreshes[r].generation, s.controller == Some(r) || s.refreshes[r].aborted)
  }

  lemma SupersedeAborts(s: State)
    ensures OneAborted(s, Supersede(s)) && OneAborted(s, BeginRefresh(s))
  {
  }

  lemma BeginInv(s: State)
    requires Inv(s)
    ensures Inv(BeginRefresh(s))
    ensures BeginRefresh(s).refreshes[|s.refreshes|] == Refresh(s.generation + 1, false)
  {
    SupersedeInv(s);
    RegisterInv(Supersede(s));
  }

  lemma RegisterInv(s: State)
    requires Inv(s) && forall r :: 0 <= r < |s.refreshes| ==> s.refreshes[r].generation < s.generation
    ensures var t := s.(refreshes := s.refreshes + [Refresh(s.generation, false)], controller := Some(|s.refreshes|));
            Inv(t)
  {
    var t := s.(refreshes := s.refreshes + [Refresh(s.generation, false)], controller := Some(|s.refreshes|));
    assert forall r :: 0 <= r < |s.refreshes| ==> t.refreshes[r] == s.refreshes[r];
    forall k | 0 <= k < |t.publications| ensures PreviousOk(t, k) {
      assert PreviousOk(s, k);
    }
    assert Ordered(t);
    assert LogAgrees(t);
  }

  lemma QueueInv(s: State, r: nat, persist: Persist, models: seq<Model>)
    requires Inv(s) && r < |s.refreshes|
    ensures Inv(Queue(s, r, persist, models))
  {
    var t, n := Queue(s, r, persist, models), |s.publications|;
    assert forall k :: 0 <= k < n ==> t.publications[k] == s.publications[k];
    forall k | 0 <= k <= n ensures PreviousOk(t, k) {
      assert k < n ==> PreviousOk(s, k);
    }
    assert LogAgrees(t);
  }

  /** A publication that may proceed is the first that is not done. */
  lemma ProceedsFirst(s: State, k: nat)
    requires Inv(s) && k < |s.publications| && s.publications[k].stage.Waiting? && Settled(s, s.publications[k].previous)
    ensures forall j :: 0 <= j < k ==> s.publications[j].stage.Done?
    ensures forall j :: k < j < |s.publications| ==> s.publications[j].stage.Waiting?
    ensures Busy(s.log).None?
  {
    assert PreviousOk(s, k);
    if k > 0 && s.publications[k].previous.Some? {
      assert s.publications[k - 1].stage.Done?;
    }
    forall j | k < j < |s.publications| ensures s.publications[j].stage.Waiting? {
    }
    if Busy(s.log).Some? {
      assert s.publications[Busy(s.log).value].stage.Writing?;
    }
  }

  /** Moving the first publication that is not done keeps the order. */
  lemma StageOrdered(s: State, t: State, k: nat, stage: Stage)
    requires Ordered(s) && k < |s.publications| && !stage.Waiting? && !s.publications[k].stage.Done?
    requires forall j :: 0 <= j < k ==> s.publications[j].stage.Done?
    requires forall j :: k < j < |s.publications| ==> s.publications[j].stage.Waiting?
    requires t.publications == s.publications[k := s.publications[k].(stage := stage)]
    requires t.chain == s.chain && t.refreshes == s.refreshes
    ensures Ordered(t)
  {
    forall j | 0 <= j < |t.publications| ensures PreviousOk(t, j) {
      assert PreviousOk(s, j);
    }
  }

  /** Leaving the waiting stage without a log entry. */
  lemma SkippedInv(s: State, k: nat)
    requires Inv(s) && k < |s.publications| && s.publications[k].stage.Waiting? && Settled(s, s.publications[k].previous)
    ensures Inv(WithStage(s, k, Done(false)))
  {
    ProceedsFirst(s, k);
    var t := WithStage(s, k, Done(false));
    StageOrdered(s, t, k, Done(false));
    assert LogAgrees(t) && Generations(t);
  }

  /** Leaving it with one. */
  lemma LoggedInv(s: State, k: nat, stage: Stage, models: seq<Model>, e: Entry)
    requires Inv(s) && k < |s.publications| && s.publications[k].stage.Waiting? && Settled(s, s.publications[k].previous)
    requires EntryOk(s.log, e) && models == if e.Updated? then e.models else s.dynamicModels
    requires if stage.Writing? then e.Started? && !s.publications[k].persist.Keep? else stage.Done? && e.Updated?
    requires e.publication == k
    ensures Inv(Logged(WithStage(s, k, stage).(dynamicModels := models), e))
  {
    ProceedsFirst(s, k);
    var t := Logged(WithStage(s, k, stage).(dynamicModels := models), e);
    StageOrdered(s, t, k, stage);
    Appended(s.log, e);
    LogStep(s, t, e);
    assert Generations(t);
  }

  lemma ProceedInv(s: State, k: nat)
    requires Inv(s) && k < |s.publications| && s.publications[k].stage.Waiting? && Settled(s, s.publications[k].previous)
    ensures Inv(Proceed(s, k))
  {
    ProceedsFirst(s, k);
    var p := s.publications[k];
    if Stale(s, p.refresh) {
      SkippedInv(s, k);
    } else if p.persist.Keep? {
      LoggedInv(s, k, Done(true), p.models, Updated(k, p.refresh, s.generation, false, p.models));
    } else {
      LoggedInv(s, k, Writing, s.dynamicModels, Started(k, p.refresh, s.generation));
    }
  }

  lemma PersistedInv(s: State, k: nat, ok: bool, published: bool)
    requires Inv(s) && k < |s.publications| && s.publications[k].stage.Writing?
    ensures Inv(Logged(WithStage(s, k, Done(published)), Persisted(k, ok)))
  {
    var e := Persisted(k, ok);
    var t := Logged(WithStage(s, k, Done(published)), e);
    StageOrdered(s, t, k, Done(published));
    Appended(s.log, e);
    LogStep(s, t, e);
    assert Generations(t);
  }

  lemma UpdatedInv(s: State, k: nat)
    requires Inv(s) && k < |s.publications| && s.publications[k].stage.Done? && !s.publications[k].persist.Keep?
    requires s.log != [] && s.log[|s.log| - 1] == Persisted(k, true) && !Stale(s, s.publications[k].refresh)
    ensures var p := s.publications[k];
            Inv(Logged(s.(dynamicModels := p.models), Updated(k, p.refresh, s.generation, true, p.models)))
  {
    var p := s.publications[k];
    var e := Updated(k, p.refresh, s.generation, true, p.models);
    var t := Logged(s.(dynamicModels := p.models), e);
    NotBusyAfter(s.log, k);
    Appended(s.log, e);
    LogStep(s, t, e);
    SameOrder(s, t);
  }

  lemma NotBusyAfter(log: seq<Entry>, k: nat)
    requires log != [] && log[|log| - 1] == Persisted(k, true)
    ensures Busy(log).None?
  {
  }

  lemma SameOrder(s: State, t: State)
    requires Inv(s) && t == s.(dynamicModels := t.dynamicModels, log := t.log)
    ensures Ordered(t) && Generations(t)
  {
    forall j | 0 <= j < |t.publications| ensures PreviousOk(t, j) {
      assert PreviousOk(s, j);
    }
  }

  lemma SettleInv(s: State, k: nat, ok: bool)
    requires Inv(s) && k < |s.publications| && s.publications[k].stage.Writing?
    ensures Inv(Settle(s, k, ok))
  {
    var published := ok && !Stale(s, s.publications[k].refresh);
    var u := Logged(WithStage(s, k, Done(published)), Persisted(k, ok));
    PersistedInv(s, k, ok, published);
    if published {
      UpdatedInv(u, k);
      assert u.publications[k := u.publications[k].(stage := Done(true))] == u.publications;
    }
  }

  lemma EndInv(s: State, r: nat)
    requires Inv(s)
    ensures Inv(EndRefresh(s, r))
  {
  }

  lemma UnchainInv(s: State, k: nat)
    requires Inv(s) && k < |s.publications| && s.publications[k].stage.Done?
    ensures Inv(Unchain(s, k))
  {
    var t := Unchain(s, k);
    assert forall j :: 0 <= j < |s.publications| ==> PreviousOk(s, j) ==> PreviousOk(t, j);
  }

  /** The chain never blocks: while a publication is not done, one of them is writing or can proceed. */
  lemma SomethingProceeds(s: State, n: nat) returns (k: nat)
    requires Inv(s) && n < |s.publications| && !s.publications[n].stage.Done?
    ensures k <= n
    ensures s.publications[k].stage.Writing?
            || (s.publications[k].stage.Waiting? && Settled(s, s.publications[k].previous))
  {
    k := n;
    while k > 0 && !s.publications[k - 1].stage.Done?
      invariant k <= n && !s.publications[k].stage.Done?
    {
      k := k - 1;
    }
    assert PreviousOk(s, k);
  }

  // ----- The provider's entries, updated in place -----

  class ProviderRefreshes {
    var generation: nat
    var controller: Option<nat>
    var chain: Option<nat>
    var refreshes: seq<Refresh>
    var publications: seq<Publication>
    var dynamicModels: seq<Model>
    ghost var log: seq<Entry>

    constructor ()
      ensures View() == INITIAL && Inv(View())
    {
      generation, controller, chain, refreshes, publications, dynamicModels, log := 0, None, None, [], [], [], [];
      new;
      InitialInv();
    }

    ghost function View(): State
      reads this
    {
      State(generation, controller, chain, refreshes, publications, dynamicModels, log)
    }

    /** `supersedeProviderRefresh`, as `setProvider`, `deleteProvider` and every refresh call it. */
    method SupersedeProvider()
      requires Inv(View())
      modifies this
      ensures View() == Supersede(old(View())) && Inv(View())
      ensures OneAborted(old(View()), View()) && controller.None?
    {
      SupersedeInv(View());
      SupersedeAborts(View());
      generation := generation + 1;
      log := log + [Superseded(generation)];
      if controller.Some? {
        var previous := controller.value;
        controller := None;
        AbortSignal(previous);
      }
    }

    /** The combined signal of a refresh fires. */
    method AbortSignal(r: nat)
      requires r < |refreshes|
      modifies this`refreshes, this`log
      ensures View() == Abort(old(View()), r)
      ensures refreshes == old(refreshes)[r := Refresh(old(refreshes)[r].generation, true)]
      ensures Inv(old(View())) ==> Inv(View())
    {
      if Inv(View()) {
        AbortInv(View(), r);
      }
      refreshes := refreshes[r := refreshes[r].(aborted := true)];
      log := log + [Aborted(r)];
    }

    /** `beginProviderRefresh` */
    method BeginProviderRefresh() returns (r: nat)
      requires Inv(View())
      modifies this
      ensures View() == BeginRefresh(old(View())) && Inv(View())
      ensures OneAborted(old(View()), View()) && controller == Some(r)
      ensures r == |old(refreshes)| && |refreshes| == r + 1 && refreshes[r] == Refresh(generation, false)
    {
      BeginInv(View());
      SupersedeAborts(View());
      SupersedeProvider();
      r := |refreshes|;
      refreshes, controller := refreshes + [Refresh(generation, false)], Some(r);
    }

    /** A refresh is over, and unregisters its controller unless a newer one took its place. */
    method FinishRefresh(r: nat)
      requires Inv(View())
      modifies this`controller
      ensures View() == EndRefresh(old(View()), r) && Inv(View())
      ensures controller == if old(controller) == Some(r) then None else old(controller)
    {
      EndInv(View(), r);
      if controller == Some(r) {
        controller := None;
      }
    }

    /** `publishProviderModels`, called with the generation and signal of a refresh that may be over. */
    method Publish(r: nat, persist: Persist, models: seq<Model>) returns (k: nat)
      requires Inv(View()) && r < |refreshes|
      modifies this`publications, this`chain
      ensures View() == Queue(old(View()), r, persist, models) && Inv(View())
      ensures k == |old(publications)| && chain == Some(k)
      ensures publications == old(publications) + [Publication(r, old(chain), persist, models, Waiting)]
    {
      QueueInv(View(), r, persist, models);
      k := |publications|;
      publications := publications + [Publication(r, chain, persist, models, Waiting)];
      chain := Some(k);
    }

    /** Publication `k` alone is at another stage, and the models listed and the log are as said. */
    twostate predicate Moved(k: nat, stage: Stage, models: seq<Model>, entries: seq<Entry>)
      requires k < |old(publications)|
      reads this
    {
      && publications == old(publications)[k := old(publications)[k].(stage := stage)]
      && dynamicModels == models && log == old(log) + entries
    }

    /** The publications before are done, and this one goes on to the store, or to its update. */
    method ProceedAfterPrevious(k: nat)
      requires Inv(View()) && k < |publications| && publications[k].stage.Waiting?
      requires Settled(View(), publications[k].previous)
      modifies this`publications, this`dynamicModels, this`log
      ensures View() == Proceed(old(View()), k) && Inv(View())
      ensures var p, r := old(publications)[k], refreshes[old(publications)[k].refresh];
              if r.aborted || r.generation != generation then Moved(k, Done(false), old(dynamicModels), [])
              else if p.persist.Keep? then
                Moved(k, Done(true), p.models, [Updated(k, p.refresh, generation, false, p.models)])
              else Moved(k, Writing, old(dynamicModels), [Started(k, p.refresh, generation)])
    {
      ProceedInv(View(), k);
      var p := publications[k];
      if refreshes[p.refresh].aborted || generation != refreshes[p.refresh].generation {
        publications := publications[k := p.(stage := Done(false))];
      } else if p.persist.Keep? {
        RunUpdate(k);
      } else {
        publications := publications[k := p.(stage := Writing)];
        log := log + [Started(k, p.refresh, refreshes[p.refresh].generation)];
      }
    }

    /** The store's promise settles; on success the refresh must still be current for the update to run. */
    method WriteSettles(k: nat, ok: bool)
      requires Inv(View()) && k < |publications| && publications[k].stage.Writing?
      modifies this`publications, this`dynamicModels, this`log
      ensures View() == Settle(old(View()), k, ok) && Inv(View())
      ensures var p, r := old(publications)[k], refreshes[old(publications)[k].refresh];
              if ok && !r.aborted && r.generation == generation then
                Moved(k, Done(true), p.models, [Persisted(k, true), Updated(k, p.refresh, generation, true, p.models)])
              else Moved(k, Done(false), old(dynamicModels), [Persisted(k, ok)])
    {
      SettleInv(View(), k, ok);
      log := log + [Persisted(k, ok)];
      if ok {
        RunUpdate(k);
      } else {
        publications := publications[k := publications[k].(stage := Done(false))];
      }
    }

    method RunUpdate(k: nat)
      requires k < |publications| && publications[k].refresh < |refreshes|
      modifies this`publications, this`dynamicModels, this`log
      ensures View() == Update(old(View()), k)
    {
      var p := publications[k];
      if refreshes[p.refresh].aborted || generation != refreshes[p.refresh].generation {
        publications := publications[k := p.(stage := Done(false))];
      } else {
        dynamicModels := p.models;
        publications := publications[k := p.(stage := Done(true))];
        log := log + [Updated(k, p.refresh, refreshes[p.refresh].generation, !p.persist.Keep?, p.models)];
      }
    }

    /** The cleanup after a publication's tail. */
    method DropChain(k: nat)
      requires Inv(View()) && k < |publications| && publications[k].stage.Done?
      modifies this`chain
      ensures View() == Unchain(old(View()), k) && Inv(View())
      ensures chain == if old(chain) == Some(k) then None else old(chain)
    {
      UnchainInv(View(), k);
      if chain == Some(k) {
        chain := None;
      }
    }
  }

  // ----- The overlay of `createProvider` -----

  predicate SameKey(a: Model, b: Model) {
    a.kind == b.kind && a.id == b.id
  }

  /** The first model under a key, as `find` sees it. */
  function First(models: seq<Model>, key: Model): Option<Model> {
    if models == [] then None
    else if SameKey(models[0], key) then Some(models[0])
    else First(models[1..], key)
  }

  function Last(models: seq<Model>, key: Model): Option<Model> {
    if models == [] then None
    else if SameKey(models[|models| - 1], key) then Some(models[|models| - 1])
    else Last(models[..|models| - 1], key)
  }

  /** The last dynamic model under a key, else the baseline's first. */
  function Overlaid(baseline: seq<Model>, dynamicModels: seq<Model>, key: Model): Option<Model> {
    if Last(dynamicModels, key).Some? then Last(dynamicModels, key) else First(baseline, key)
  }

  /** What `First` and `Last` find: an entry of the key's kind and id with none before it, or after it. */
  lemma {:induction false} FirstFinds(models: seq<Model>, key: Model)
    ensures match First(models, key)
            case None => forall i :: 0 <= i < |models| ==> models[i].kind != key.kind || models[i].id != key.id
            case Some(found) =>
              exists i :: 0 <= i < |models| && models[i] == found && found.kind == key.kind && found.id == key.id
                          && forall j :: 0 <= j < i ==> models[j].kind != key.kind || models[j].id != key.id
  {
    if models != [] && !SameKey(models[0], key) {
      FirstFinds(models[1..], key);
      assert forall i :: 0 < i < |models| ==> models[i] == models[1..][i - 1];
      if First(models, key).Some? {
        var i :| 0 <= i < |models[1..]| && models[1..][i] == First(models, key).value
                 && forall j :: 0 <= j < i ==> models[1..][j].kind != key.kind || models[1..][j].id != key.id;
        assert models[i + 1] == First(models, key).value;
      }
    }
  }

  lemma {:induction false} LastFinds(models: seq<Model>, key: Model)
    ensures match Last(models, key)
            case None => forall i :: 0 <= i < |models| ==> models[i].kind != key.kind || models[i].id != key.id
            case Some(found) =>
              exists i :: 0 <= i < |models| && models[i] == found && found.kind == key.kind && found.id == key.id
                          && forall j :: i < j < |models| ==> models[j].kind != key.kind || models[j].id != key.id
  {
    if models != [] && !SameKey(models[|models| - 1], key) {
      LastFinds(models[..|models| - 1], key);
      assert forall i :: 0 <= i < |models| - 1 ==> models[i] == models[..|models| - 1][i];
    }
  }

  /** So a dynamic model no later one replaces is found under its key, and so is a baseline model with no dynamic one. */
  lemma OverlayFinds(baseline: seq<Model>, dynamicModels: seq<Model>, i: nat)
    ensures i < |dynamicModels|
            && (forall j :: i < j < |dynamicModels| ==>
                  dynamicModels[j].kind != dynamicModels[i].kind || dynamicModels[j].id != dynamicModels[i].id)
            ==> Overlaid(baseline, dynamicModels, dynamicModels[i]) == Some(dynamicModels[i])
    ensures i < |baseline|
            && (forall j :: 0 <= j < i ==> baseline[j].kind != baseline[i].kind || baseline[j].id != baseline[i].id)
            && (forall j :: 0 <= j < |dynamicModels| ==>
                  dynamicModels[j].kind != baseline[i].kind || dynamicModels[j].id != baseline[i].id)
            ==> Overlaid(baseline, dynamicModels, baseline[i]) == Some(baseline[i])
  {
    if i < |dynamicModels| {
      LastFinds(dynamicModels, dynamicModels[i]);
    }
    if i < |baseline| {
      FirstFinds(baseline, baseline[i]);
      LastFinds(dynamicModels, baseline[i]);
    }
  }

  method FindIndex(models: seq<Model>, key: Model) returns (index: nat)
    ensures index <= |models| && forall i :: 0 <= i < index ==> !SameKey(models[i], key)
    ensures index < |models| ==> SameKey(models[index], key)
  {
    index := 0;
    while index < |models| && !SameKey(models[index], key)
      invariant index <= |models| && forall i :: 0 <= i < index ==> !SameKey(models[i], key)
    {
      index := index + 1;
    }
  }

  /**
   Under every key the last dynamic model wins over the baseline; a lookup that finds nothing has none in either. The
   baseline keeps its places, and no key appears twice that did not in the baseline.
   */
  method CurrentModels(baseline: seq<Model>, dynamicModels: seq<Model>) returns (merged: seq<Model>)
    ensures forall key :: First(merged, key) == Overlaid(baseline, dynamicModels, key)
    ensures |merged| >= |baseline| && forall i :: 0 <= i < |baseline| ==> SameKey(merged[i], baseline[i])
    ensures forall i, j :: 0 <= i < j < |merged| && |baseline| <= j ==> !SameKey(merged[i], merged[j])
  {
    merged := baseline;
    for n := 0 to |dynamicModels|
      invariant forall key :: First(merged, key) == Overlaid(baseline, dynamicModels[..n], key)
      invariant |merged| >= |baseline| && forall i :: 0 <= i < |baseline| ==> SameKey(merged[i], baseline[i])
      invariant forall i, j :: 0 <= i < j < |merged| && |baseline| <= j ==> !SameKey(merged[i], merged[j])
    {
      var model := dynamicModels[n];
      ghost var before := merged;
      var index := FindIndex(merged, model);
      if index < |merged| {
        merged := merged[index := model];
      } else {
        merged := merged + [model];
      }
      assert dynamicModels[..n + 1][..n] == dynamicModels[..n];
      forall key ensures First(merged, key) == if SameKey(model, key) then Some(model) else First(before, key) {
        Placed(before, index, model, key);
      }
    }
    assert dynamicModels[..|dynamicModels|] == dynamicModels;
  }

  /** Putting a model at the first place of its key, or at the end, changes what that key finds and nothing else. */
  lemma {:induction false} Placed(models: seq<Model>, index: nat, model: Model, key: Model)
    requires index <= |models| && forall i :: 0 <= i < index ==> !SameKey(models[i], model)
    requires index < |models| ==> SameKey(models[index], model)
    ensures First(if index < |models| then models[index := model] else models + [model], key)
            == if SameKey(model, key) then Some(model) else First(models, key)
  {
    var after := if index < |models| then models[index := model] else models + [model];
    if models == [] {
      assert after[1..] == [];
    } else if index == 0 {
      assert after[1..] == models[1..];
    } else {
      Placed(models[1..], index - 1, model, key);
      assert after[1..] == if index < |models| then models[1..][index - 1 := model] else models[1..] + [model];
    }
  }
}
