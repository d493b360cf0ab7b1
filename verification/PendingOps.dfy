/**
 `PendingOps` of packages/chord/src/delta/pending.ts: operations a slow consumer has not taken, folded while they
 wait. The ghost fields `base` and `current` are the consumer's value and the source's: whatever was pushed, what is
 taken turns the first into the second, or says that it overflowed.
 */
module PendingQueue {
  import opened Delta

  /** A longer queue overflows: its contents then give way to one replacement of the root. */
  const MAX_PENDING_OPS: nat := 10_000

  datatype Take = Ops(ops: seq<Op>) | ReplaceAll

  /** The queue: what was folded so far, and for a leaf path where its newest operation stands. */
  datatype Folding = Folding(ops: seq<Op>, leaves: map<Path, nat>)

  datatype State = Empty | Batch(batch: seq<Op>) | Folded(folding: Folding) | Overflowed

  // ----- Moving a leaf operation back -----

  ghost predicate AllLeaves(ops: seq<Op>, p: Path) {
    forall k :: 0 <= k < |ops| ==> IsLeaf(ops[k]) && ops[k].path != p
  }

  /** Leaf operations make no container, so a container at the end was there before them. */
  lemma {:induction false} LeavesMakeNoContainer(v: Json, ops: seq<Op>, p: Path, r: Path)
    requires AllLeaves(ops, p) && ApplyAll(v, ops).Some? && IsContainerAt(ApplyAll(v, ops), r)
    ensures IsContainerAt(Some(v), r)
    decreases |ops|
  {
    if ops != [] {
      var w := Apply(v, ops[0]);
      LeavesMakeNoContainer(w.value, ops[1..], p, r);
      LeafMakesNoContainer(Some(v), ops[0].path, LeafEdit(ops[0]), r);
    }
  }

  /**
   A leaf operation `m` between two leaf operations on `p` is at an incomparable path: above `p` it would have
   destroyed the container the second one needs, and below `p` it would have had nothing to edit.
   */
  lemma BetweenIsIncomparable(v: Json, m: Op, rest: seq<Op>, p: Path, e: Edit)
    requires p != [] && IsPrimitiveAt(Some(v), p) && IsLeaf(m) && m.path != p && AllLeaves(rest, p)
    requires Apply(v, m).Some? && ApplyAll(Apply(v, m).value, rest).Some?
    requires EditSlot(ApplyAll(Apply(v, m).value, rest), p, e).Some?
    ensures !(p <= m.path) && !(m.path <= p)
  {
    var q := m.path;
    var w := Apply(v, m);
    if p <= q {
      EditNeedsParent(Some(v), q, LeafEdit(m));
      assert p <= q[..|q| - 1];
      NothingBelow(Some(v), p, q[..|q| - 1]);
    }
    if q <= p {
      EditNeedsParent(ApplyAll(w.value, rest), p, e);
      LeavesMakeNoContainer(w.value, rest, p, p[..|p| - 1]);
      LeafLeavesPrimitive(Some(v), q, LeafEdit(m));
      assert q <= p[..|p| - 1];
      NothingBelow(w, q, p[..|p| - 1]);
    }
  }

  /** A leaf edit can be made before leaf operations on other paths, if its path holds a primitive. */
  lemma {:induction false} MoveBack(v: Json, mids: seq<Op>, p: Path, e: Edit)
    requires p != [] && IsPrimitiveAt(Some(v), p) && IsLeafEdit(e) && AllLeaves(mids, p)
    requires ApplyAll(v, mids).Some? && EditSlot(ApplyAll(v, mids), p, e).Some?
    ensures EditSlot(Some(v), p, e).Some?
    ensures ApplyAll(EditSlot(Some(v), p, e).value, mids) == EditSlot(ApplyAll(v, mids), p, e)
    decreases |mids|
  {
    if mids != [] {
      var m, rest := mids[0], mids[1..];
      var w := Apply(v, m);
      BetweenIsIncomparable(v, m, rest, p, e);
      EditElsewhere(Some(v), m.path, LeafEdit(m), p);
      MoveBack(w.value, rest, p, e);
      EditsCommute(Some(v), m.path, LeafEdit(m), p, e);
    }
  }

  // ----- Folding -----

  function LeafOp(path: Path, e: Edit): (op: Op)
    requires IsLeafEdit(e)
    ensures IsLeaf(op) && op.path == path && LeafEdit(op) == e
  {
    if e.AppendText? then Append(path, e.text) else Set(path, e.value)
  }

  /** Behind each position in the index come only leaf operations, none of them at its path. */
  ghost predicate LeavesOk(f: Folding) {
    forall p :: p in f.leaves ==>
      && f.leaves[p] < |f.ops|
      && IsLeaf(f.ops[f.leaves[p]]) && f.ops[f.leaves[p]].path == p
      && AllLeaves(f.ops[f.leaves[p] + 1..], p)
  }

  /** `mergeLeaf`: the folding with `op` merged into an earlier operation on its path, if it folds. */
  function MergeLeaf(f: Folding, op: Op): Option<Folding>
    requires IsLeaf(op)
  {
    if op.path in f.leaves && f.leaves[op.path] < |f.ops| && IsLeaf(f.ops[f.leaves[op.path]]) then
      var at := f.leaves[op.path];
      var merged := Merge(LeafEdit(f.ops[at]), LeafEdit(op));
      if merged.Some? then Some(f.(ops := f.ops[at := LeafOp(op.path, merged.value)])) else None
    else None
  }

  function FoldOne(f: Folding, op: Op): Folding {
    if op.Replace? then Folding([op], map[])
    else if !IsLeaf(op) then Folding(f.ops + [op], map[])
    else
      var merged := MergeLeaf(f, op);
      if merged.Some? then merged.value else Folding(f.ops + [op], f.leaves[op.path := |f.ops|])
  }

  /** Merging into the last operation on a path has the effect of applying at the end. */
  lemma MergeAt(base: Json, ops: seq<Op>, at: nat, op: Op)
    requires at < |ops| && IsLeaf(op) && IsLeaf(ops[at]) && ops[at].path == op.path && op.path != []
    requires AllLeaves(ops[at + 1..], op.path)
    requires ApplyAll(base, ops).Some? && Apply(ApplyAll(base, ops).value, op).Some?
    requires Merge(LeafEdit(ops[at]), LeafEdit(op)).Some?
    ensures ApplyAll(base, ops[at := LeafOp(op.path, Merge(LeafEdit(ops[at]), LeafEdit(op)).value)]) ==
            Apply(ApplyAll(base, ops).value, op)
  {
    var p, first, next := op.path, LeafEdit(ops[at]), LeafEdit(op);
    var mids := ops[at + 1..];
    var merged := LeafOp(p, Merge(first, next).value);
    var x := Before(base, ops, at);
    var y := Apply(x, ops[at]).value;
    LeafLeavesPrimitive(Some(x), p, first);
    MoveBack(y, mids, p, next);
    MergeSound(Some(x), p, first, next);
    var later := ops[at := merged];
    assert later[..at] == ops[..at] && later[at + 1..] == mids;
    assert later == ops[..at] + ([merged] + mids) && ([merged] + mids)[1..] == mids;
    ApplyConcat(base, ops[..at], [merged] + mids);
  }

  /** The value just before the operation at `at`. */
  lemma Before(base: Json, ops: seq<Op>, at: nat) returns (x: Json)
    requires at < |ops| && ApplyAll(base, ops).Some?
    ensures ApplyAll(base, ops[..at]) == Some(x) && Apply(x, ops[at]).Some?
    ensures ApplyAll(Apply(x, ops[at]).value, ops[at + 1..]) == ApplyAll(base, ops)
  {
    var rest := ops[at..];
    ApplyConcat(base, ops[..at], rest);
    assert ops == ops[..at] + rest && rest[1..] == ops[at + 1..];
    x := ApplyAll(base, ops[..at]).value;
  }

  /** Replacing a leaf operation by another on its path keeps every suffix's paths. */
  lemma ReplaceKeepsLeaves(ops: seq<Op>, at: nat, op: Op, from: nat, p: Path)
    requires at < |ops| && from <= |ops| && IsLeaf(op) && IsLeaf(ops[at]) && ops[at].path == op.path
    requires AllLeaves(ops[from..], p)
    ensures AllLeaves(ops[at := op][from..], p)
  {
    var after := ops[at := op][from..];
    forall k | 0 <= k < |after| ensures IsLeaf(after[k]) && after[k].path != p {
      assert ops[from..][k] == ops[from + k];
    }
  }

  lemma MergeKeepsLeaves(f: Folding, op: Op)
    requires LeavesOk(f) && IsLeaf(op) && MergeLeaf(f, op).Some?
    ensures LeavesOk(MergeLeaf(f, op).value)
  {
    var g := MergeLeaf(f, op).value;
    var at := f.leaves[op.path];
    forall p | p in g.leaves
      ensures IsLeaf(g.ops[g.leaves[p]]) && g.ops[g.leaves[p]].path == p && AllLeaves(g.ops[g.leaves[p] + 1..], p)
    {
      ReplaceKeepsLeaves(f.ops, at, g.ops[at], f.leaves[p] + 1, p);
    }
  }

  lemma PushKeepsLeaves(f: Folding, op: Op)
    requires LeavesOk(f) && IsLeaf(op)
    ensures LeavesOk(Folding(f.ops + [op], f.leaves[op.path := |f.ops|]))
  {
    var g := Folding(f.ops + [op], f.leaves[op.path := |f.ops|]);
    forall p | p in g.leaves
      ensures IsLeaf(g.ops[g.leaves[p]]) && g.ops[g.leaves[p]].path == p && AllLeaves(g.ops[g.leaves[p] + 1..], p)
    {
      if p != op.path {
        var i := f.leaves[p];
        assert g.ops[i + 1..] == f.ops[i + 1..] + [op];
      }
    }
  }

  /** Folding one operation keeps the meaning of everything pending. */
  lemma FoldOneSound(base: Json, f: Folding, op: Op)
    requires LeavesOk(f) && ApplyAll(base, f.ops).Some? && Apply(ApplyAll(base, f.ops).value, op).Some?
    ensures LeavesOk(FoldOne(f, op))
    ensures ApplyAll(base, FoldOne(f, op).ops) == Apply(ApplyAll(base, f.ops).value, op)
  {
    ApplyConcat(base, f.ops, [op]);
    assert [op][1..] == [];
    if IsLeaf(op) {
      if MergeLeaf(f, op).Some? {
        MergeKeepsLeaves(f, op);
        MergeAt(base, f.ops, f.leaves[op.path], op);
      } else {
        PushKeepsLeaves(f, op);
      }
    }
  }

  // ----- What folding leaves -----

  predicate NoReplacement(ops: seq<Op>) {
    forall i :: 0 <= i < |ops| ==> !ops[i].Replace?
  }

  /** Folding adds one operation at most, and no replacement of the root but one that was pushed. */
  lemma FoldOneKeeps(f: Folding, op: Op)
    ensures |FoldOne(f, op).ops| <= |f.ops| + 1
    ensures NoReplacement(f.ops) && !op.Replace? ==> NoReplacement(FoldOne(f, op).ops)
    ensures op.Replace? ==> FoldOne(f, op).ops == [op]
  {
  }

  /** A batch folded into a queue. */
  function FoldSeq(f: Folding, ops: seq<Op>): Folding
    decreases |ops|
  {
    if ops == [] then f else FoldSeq(FoldOne(f, ops[0]), ops[1..])
  }

  /** Appends, and sets of a text. */
  predicate IsText(op: Op) {
    op.Append? || (op.Set? && op.value.Str?)
  }

  /** The paths of operations that are texts. */
  function Paths(ops: seq<Op>): set<Path> {
    if ops == [] then {} else (if IsText(ops[0]) then {ops[0].path} else {}) + Paths(ops[1..])
  }

  predicate AllText(ops: seq<Op>) {
    forall i :: 0 <= i < |ops| ==> IsText(ops[i])
  }

  ghost predicate Indexed(f: Folding) {
    forall p :: p in f.leaves ==> f.leaves[p] < |f.ops|
  }

  /** One text for each path in the index. */
  ghost predicate OnePerPath(f: Folding, paths: set<Path>) {
    f.leaves.Keys == paths && |f.ops| == |paths| && AllText(f.ops) && Indexed(f)
  }

  /** A text folds into the one on its path, if there is one. */
  lemma TextMerges(f: Folding, op: Op)
    requires AllText(f.ops) && Indexed(f) && IsText(op)
    ensures op.path in f.leaves ==>
              FoldOne(f, op).leaves == f.leaves && |FoldOne(f, op).ops| == |f.ops| && AllText(FoldOne(f, op).ops)
    ensures op.path !in f.leaves ==> FoldOne(f, op) == Folding(f.ops + [op], f.leaves[op.path := |f.ops|])
  {
    if op.path in f.leaves {
      assert IsText(f.ops[f.leaves[op.path]]);
    }
  }

  lemma TextFolds(f: Folding, op: Op, paths: set<Path>)
    requires OnePerPath(f, paths) && IsText(op)
    ensures OnePerPath(FoldOne(f, op), {op.path} + paths)
  {
    TextMerges(f, op);
    if op.path in f.leaves {
      assert {op.path} + paths == paths;
    } else {
      assert |{op.path} + paths| == 1 + |paths|;
    }
  }

  /** However long texts are streamed, what waits is one operation for each of their paths. */
  lemma {:induction false} TextsFold(f: Folding, ops: seq<Op>, paths: set<Path>)
    requires OnePerPath(f, paths) && AllText(ops)
    ensures OnePerPath(FoldSeq(f, ops), paths + Paths(ops))
    decreases |ops|
  {
    if ops == [] {
      assert paths + {} == paths;
    } else {
      TextFolds(f, ops[0], paths);
      TextsFold(FoldOne(f, ops[0]), ops[1..], {ops[0].path} + paths);
      SetsMove(ops[0].path, paths, Paths(ops[1..]));
    }
  }

  lemma SetsMove(p: Path, a: set<Path>, b: set<Path>)
    ensures ({p} + a) + b == a + ({p} + b)
  {
  }

  /** In particular a queue that was empty. */
  lemma StreamFolds(ops: seq<Op>)
    requires AllText(ops)
    ensures |FoldSeq(Folding([], map[]), ops).ops| == |Paths(ops)|
  {
    TextsFold(Folding([], map[]), ops, {});
    assert {} + Paths(ops) == Paths(ops);
  }

  /**
   What the queue stands for: turning `base` into `current`. `received` is what was pushed since the queue was last empty,
   or since a batch that replaces the root: only more of it than the queue may hold overflows, and without another
   replacement in it there is none in the queue.
   */
  ghost predicate Represents(state: State, base: Json, current: Json, received: seq<Op>) {
    match state
    case Empty => base == current && received == []
    case Batch(ops) => ApplyAll(base, ops) == Some(current) && received == ops
    case Folded(f) =>
      && LeavesOk(f) && ApplyAll(base, f.ops) == Some(current) && |f.ops| <= MAX_PENDING_OPS
      && f == FoldSeq(Folding([], map[]), received) && Shorter(f.ops, received)
    case Overflowed => |received| > MAX_PENDING_OPS
  }

  /** `ops` are no more than `received`, and replace the root only if that does. */
  predicate Shorter(ops: seq<Op>, received: seq<Op>) {
    |ops| <= |received| && (NoReplacement(received) ==> NoReplacement(ops))
  }

  lemma {:induction false} FoldSeqConcat(f: Folding, a: seq<Op>, b: seq<Op>)
    ensures FoldSeq(f, a + b) == FoldSeq(FoldSeq(f, a), b)
    decreases |a|
  {
    if a == [] {
      assert a + b == b;
    } else {
      assert (a + b)[1..] == a[1..] + b;
      FoldSeqConcat(FoldOne(f, a[0]), a[1..], b);
    }
  }

  /** One more operation, received and folded. */
  lemma FoldNext(received: seq<Op>, op: Op)
    requires Shorter(FoldSeq(Folding([], map[]), received).ops, received)
    ensures FoldSeq(Folding([], map[]), received + [op]) == FoldOne(FoldSeq(Folding([], map[]), received), op)
    ensures Shorter(FoldSeq(Folding([], map[]), received + [op]).ops, received + [op])
  {
    var f := FoldSeq(Folding([], map[]), received);
    FoldSeqConcat(Folding([], map[]), received, [op]);
    assert [op][1..] == [];
    FoldOneKeeps(f, op);
    assert NoReplacement(received + [op]) ==> NoReplacement(received) && !op.Replace? by {
      assert (received + [op])[|received|] == op;
      assert forall i :: 0 <= i < |received| ==> (received + [op])[i] == received[i];
    }
  }

  class PendingOps {
    var state: State
    ghost var base: Json
    ghost var current: Json
    /** What was pushed since the queue was empty, or since the last batch that replaces the root. */
    ghost var received: seq<Op>

    ghost predicate Valid()
      reads this
    {
      Represents(state, base, current, received)
    }

    constructor (ghost value: Json)
      ensures Valid() && base == current == value && state.Empty?
    {
      state := Empty;
      base, current, received := value, value, [];
    }

    /** Queue a batch that turns the current value into `next`. */
    method Push(ops: seq<Op>, ghost next: Json)
      requires Valid() && ApplyAll(current, ops) == Some(next)
      modifies this
      ensures Valid() && current == next && base == old(base)
      ensures received == if ops != [] && ops[0].Replace? then ops else old(received) + ops
    {
      if |ops| == 0 {
        assert received + ops == received;
        return;
      }
      ghost var middle, before := current, received;
      current := next;
      if ops[0].Replace? {
        state, received := Batch(ops), ops;
        return;
      }
      received := before + ops;
      match state {
        case Empty =>
          assert [] + ops == ops;
          state := Batch(ops);
        case Batch(pending) =>
          assert [] + pending == pending;
          var ok := FoldAll(pending, Folding([], map[]), middle, []);
          if ok {
            var _ := FoldAll(ops, state.folding, next, before);
          }
        case Folded(folding) =>
          var _ := FoldAll(ops, folding, next, before);
        case Overflowed =>
      }
    }

    /** `#fold`, which says whether the queue still stands; it falls only if more was received than it may hold. */
    method FoldAll(ops: seq<Op>, folding: Folding, ghost next: Json, ghost before: seq<Op>) returns (ok: bool)
      requires LeavesOk(folding) && |folding.ops| <= MAX_PENDING_OPS && ApplyAll(base, folding.ops).Some?
      requires ApplyAll(ApplyAll(base, folding.ops).value, ops) == Some(next)
      requires folding == FoldSeq(Folding([], map[]), before) && Shorter(folding.ops, before)
      modifies this`state
      ensures ok ==> state.Folded? && LeavesOk(state.folding) && |state.folding.ops| <= MAX_PENDING_OPS
      ensures ok ==> ApplyAll(base, state.folding.ops) == Some(next)
      ensures ok ==> state.folding == FoldSeq(Folding([], map[]), before + ops) && Shorter(state.folding.ops, before + ops)
      ensures !ok ==> state.Overflowed? && |before| + |ops| > 10_000
    {
      var f := folding;
      assert before + ops[..0] == before;
      for i := 0 to |ops|
        invariant LeavesOk(f) && |f.ops| <= MAX_PENDING_OPS && ApplyAll(base, f.ops).Some?
        invariant ApplyAll(ApplyAll(base, f.ops).value, ops[i..]) == Some(next)
        invariant f == FoldSeq(Folding([], map[]), before + ops[..i]) && Shorter(f.ops, before + ops[..i])
      {
        assert ops[i..][1..] == ops[i + 1..];
        assert before + ops[..i + 1] == (before + ops[..i]) + [ops[i]];
        FoldNext(before + ops[..i], ops[i]);
        FoldOneSound(base, f, ops[i]);
        f := FoldOne(f, ops[i]);
        if |f.ops| > MAX_PENDING_OPS {
          state := Overflowed;
          return false;
        }
      }
      assert ops[..|ops|] == ops;
      state := Folded(f);
      return true;
    }

    /** An empty queue serves a consumer that got its value another way. */
    ghost method Rebase(value: Json)
      requires Valid() && state.Empty?
      modifies this`base, this`current
      ensures Valid() && base == current == value
    {
      base, current := value, value;
    }

    /** Hand over everything pending; the consumer then has the current value. */
    method TakeAll() returns (take: Take)
      requires Valid()
      modifies this
      ensures Valid() && state.Empty? && base == current == old(current)
      ensures take.Ops? ==> ApplyAll(old(base), take.ops) == Some(old(current)) && Shorter(take.ops, old(received))
      ensures take.ReplaceAll? <==> old(state.Overflowed?)
      ensures take.ReplaceAll? ==> |old(received)| > 10_000
    {
      match state {
        case Empty => take := Ops([]);
        case Batch(ops) => take := Ops(ops);
        case Folded(f) => take := Ops(f.ops);
        case Overflowed => take := ReplaceAll;
      }
      state, received := Empty, [];
      base := current;
    }
  }
}
