/**
 JSON values and the operations that turn one into another: the applier of packages/chord/src/delta/index.ts. An
 operation that the source rejects with an error yields `None`. Arrays are addressed by index and objects by name, as
 the tracker that makes the operations does.
 */
module Delta {

  datatype Option<+T> = None | Some(value: T)

  datatype Json =
    | Null
    | Bool(b: bool)
    | Num(n: real)
    | Str(s: string)
    | Arr(items: seq<Json>)
    | Obj(props: map<string, Json>)

  predicate IsContainer(v: Json) {
    v.Arr? || v.Obj?
  }

  datatype Seg = Name(name: string) | Index(i: nat)

  type Path = seq<Seg>

  datatype Op =
    | Replace(value: Json)
    | Set(path: Path, value: Json)
    | Delete(path: Path)
    | Append(path: Path, text: string)
    | Truncate(path: Path, count: nat)
    | Splice(path: Path, start: nat, remove: nat, items: seq<Json>)
    | Permute(path: Path, permutation: seq<nat>)

  // ----- One slot: the place a path names, empty or holding a value -----

  type Slot = Option<Json>

  /** What an operation does to the slot it addresses. */
  datatype Edit =
    | SetTo(value: Json)
    | AppendText(text: string)
    | TruncateText(count: nat)
    | RemoveChild(seg: Seg)
    | SpliceItems(start: nat, remove: nat, items: seq<Json>)
    | PermuteItems(permutation: seq<nat>)

  function Child(v: Json, seg: Seg): Slot {
    match (v, seg)
    case (Obj(props), Name(name)) => if name in props then Some(props[name]) else None
    case (Arr(items), Index(i)) => if i < |items| then Some(items[i]) else None
    case _ => None
  }

  /** Where a value can be put: under any name of an object, or at an index that leaves an array without a gap. */
  predicate CanPut(v: Json, seg: Seg) {
    match (v, seg)
    case (Obj(_), Name(_)) => true
    case (Arr(items), Index(i)) => i <= |items|
    case _ => false
  }

  function Put(v: Json, seg: Seg, child: Json): Json
    requires CanPut(v, seg)
  {
    if v.Obj? then Obj(v.props[seg.name := child])
    else if seg.i < |v.items| then Arr(v.items[seg.i := child])
    else Arr(v.items + [child])
  }

  predicate IsPermutation(p: seq<nat>) {
    && (forall i :: 0 <= i < |p| ==> p[i] < |p|)
    && (forall i, j :: 0 <= i < j < |p| ==> p[i] != p[j])
  }

  function ApplyEdit(slot: Slot, e: Edit): Slot {
    match e
    case SetTo(value) => Some(value)
    case AppendText(text) => if slot.Some? && slot.value.Str? then Some(Str(slot.value.s + text)) else None
    case TruncateText(count) =>
      if slot.Some? && slot.value.Str? then
        Some(Str(if count <= |slot.value.s| then slot.value.s[count..] else ""))
      else None
    case RemoveChild(seg) =>
      if slot.None? then None
      else if slot.value.Obj? && seg.Name? then Some(Obj(slot.value.props - {seg.name}))
      else if slot.value.Arr? && seg.Index? && seg.i < |slot.value.items| then
        Some(Arr(slot.value.items[..seg.i] + slot.value.items[seg.i + 1..]))
      else None
    case SpliceItems(start, remove, items) =>
      if slot.Some? && slot.value.Arr? then
        var was := slot.value.items;
        var from := if start < |was| then start else |was|;
        var to := if from + remove < |was| then from + remove else |was|;
        Some(Arr(was[..from] + items + was[to..]))
      else None
    case PermuteItems(p) =>
      if slot.Some? && slot.value.Arr? && |slot.value.items| == |p| && IsPermutation(p) then
        Some(Arr(seq(|p|, i requires 0 <= i < |p| => slot.value.items[p[i]])))
      else None
  }

  /** Edit the slot at `path` under `slot`; every step but the last must exist. */
  function EditSlot(slot: Slot, path: Path, e: Edit): Slot
    decreases |path|
  {
    if path == [] then ApplyEdit(slot, e)
    else if slot.None? || !CanPut(slot.value, path[0]) then None
    else
      var child := EditSlot(Child(slot.value, path[0]), path[1..], e);
      if child.None? then None else Some(Put(slot.value, path[0], child.value))
  }

  function At(slot: Slot, path: Path): Slot
    decreases |path|
  {
    if path == [] || slot.None? then slot else At(Child(slot.value, path[0]), path[1..])
  }

  // ----- Operations -----

  function Apply(v: Json, op: Op): Slot {
    match op
    case Replace(value) => Some(value)
    case Set(path, value) => if path == [] then None else EditSlot(Some(v), path, SetTo(value))
    case Append(path, text) => if path == [] then None else EditSlot(Some(v), path, AppendText(text))
    case Truncate(path, count) => if path == [] then None else EditSlot(Some(v), path, TruncateText(count))
    case Delete(path) =>
      if path == [] then None else EditSlot(Some(v), path[..|path| - 1], RemoveChild(path[|path| - 1]))
    case Splice(path, start, remove, items) => EditSlot(Some(v), path, SpliceItems(start, remove, items))
    case Permute(path, permutation) => EditSlot(Some(v), path, PermuteItems(permutation))
  }

  function ApplyAll(v: Json, ops: seq<Op>): Slot
    decreases |ops|
  {
    if ops == [] then Some(v)
    else
      var w := Apply(v, ops[0]);
      if w.None? then None else ApplyAll(w.value, ops[1..])
  }

  lemma ReplaceRoot(v: Json, w: Json)
    ensures ApplyAll(v, [Replace(w)]) == Some(w)
  {
    assert [Replace(w)][1..] == [];
  }

  lemma {:induction false} ApplyConcat(v: Json, a: seq<Op>, b: seq<Op>)
    ensures ApplyAll(v, a + b) ==
            if ApplyAll(v, a).None? then None else ApplyAll(ApplyAll(v, a).value, b)
    decreases |a|
  {
    if a == [] {
      assert a + b == b;
    } else {
      assert (a + b)[1..] == a[1..] + b;
      if Apply(v, a[0]).Some? {
        ApplyConcat(Apply(v, a[0]).value, a[1..], b);
      }
    }
  }

  // ----- What operations do -----

  lemma OneStep(v: Json, seg: Seg, e: Edit)
    ensures EditSlot(Some(v), [seg], e)
            == if !CanPut(v, seg) || ApplyEdit(Child(v, seg), e).None? then None
               else Some(Put(v, seg, ApplyEdit(Child(v, seg), e).value))
  {
    assert [seg][1..] == [];
  }

  /** Operations on a value of an object. */
  lemma OnObject(m: map<string, Json>, k: string, x: Json, text: string, count: nat)
    ensures Apply(Obj(m), Set([Name(k)], x)) == Some(Obj(m[k := x]))
    ensures Apply(Obj(m), Delete([Name(k)])) == Some(Obj(m - {k}))
    ensures Apply(Obj(m), Append([Name(k)], text))
            == if k in m && m[k].Str? then Some(Obj(m[k := Str(m[k].s + text)])) else None
    ensures Apply(Obj(m), Truncate([Name(k)], count))
            == if k !in m || !m[k].Str? then None
               else Some(Obj(m[k := Str(if count <= |m[k].s| then m[k].s[count..] else "")]))
  {
    OneStep(Obj(m), Name(k), SetTo(x));
    OneStep(Obj(m), Name(k), AppendText(text));
    OneStep(Obj(m), Name(k), TruncateText(count));
    assert [Name(k)][..0] == [];
  }

  /** Operations on an element of an array. */
  lemma OnElement(items: seq<Json>, i: nat, x: Json, text: string, count: nat)
    ensures Apply(Arr(items), Set([Index(i)], x))
            == if i < |items| then Some(Arr(items[i := x])) else if i == |items| then Some(Arr(items + [x])) else None
    ensures Apply(Arr(items), Delete([Index(i)]))
            == if i < |items| then Some(Arr(items[..i] + items[i + 1..])) else None
    ensures Apply(Arr(items), Append([Index(i)], text))
            == if i < |items| && items[i].Str? then Some(Arr(items[i := Str(items[i].s + text)])) else None
    ensures Apply(Arr(items), Truncate([Index(i)], count))
            == if i >= |items| || !items[i].Str? then None
               else Some(Arr(items[i := Str(if count <= |items[i].s| then items[i].s[count..] else "")]))
  {
    OneStep(Arr(items), Index(i), SetTo(x));
    OneStep(Arr(items), Index(i), AppendText(text));
    OneStep(Arr(items), Index(i), TruncateText(count));
    assert [Index(i)][..0] == [];
  }

  /** Operations on a whole array: a splice inside it, and a permutation, which takes each item from its place. */
  lemma OnArray(items: seq<Json>, start: nat, remove: nat, more: seq<Json>, p: seq<nat>)
    ensures start + remove <= |items| ==>
              Apply(Arr(items), Splice([], start, remove, more)) == Some(Arr(items[..start] + more + items[start + remove..]))
    ensures start >= |items| ==> Apply(Arr(items), Splice([], start, remove, more)) == Some(Arr(items + more))
    ensures Apply(Arr(items), Permute([], p)).Some? <==>
              |p| == |items| && (forall i :: 0 <= i < |p| ==> p[i] < |p|) && forall i, j :: 0 <= i < j < |p| ==> p[i] != p[j]
    ensures Apply(Arr(items), Permute([], p)).Some? ==>
              var r := Apply(Arr(items), Permute([], p)).value;
              r.Arr? && |r.items| == |p| && forall i :: 0 <= i < |p| ==> r.items[i] == items[p[i]]
  {
    if start >= |items| {
      assert items[..|items|] + more + items[|items|..] == items + more;
    }
  }

  /** The operation made at the same place below `a`. */
  function Under(a: Seg, op: Op): Op
    requires !op.Replace?
  {
    op.(path := [a] + op.path)
  }

  /** An operation deeper down is the operation on the value there, which takes its place. */
  lemma OnChild(v: Json, a: Seg, op: Op)
    requires !op.Replace? && (op.Splice? || op.Permute? || op.path != [])
    ensures match (v, a)
            case (Obj(m), Name(k)) =>
              Apply(v, Under(a, op))
              == if k in m && Apply(m[k], op).Some? then Some(Obj(m[k := Apply(m[k], op).value])) else None
            case (Arr(items), Index(i)) =>
              Apply(v, Under(a, op))
              == if i < |items| && Apply(items[i], op).Some? then Some(Arr(items[i := Apply(items[i], op).value])) else None
            case _ => Apply(v, Under(a, op)).None?
  {
    var path := [a] + op.path;
    assert path[1..] == op.path;
    if op.Delete? {
      assert path[..|path| - 1] == [a] + op.path[..|op.path| - 1];
      assert ([a] + op.path[..|op.path| - 1])[1..] == op.path[..|op.path| - 1];
      assert path[|path| - 1] == op.path[|op.path| - 1];
    }
    match (v, a)
    case (Obj(m), Name(k)) => if k !in m { NothingThere(op); }
    case (Arr(items), Index(i)) => if i >= |items| { NothingThere(op); }
    case _ =>
  }

  /** There is nothing to do where there is no value. */
  lemma NothingThere(op: Op)
    requires !op.Replace? && (op.Splice? || op.Permute? || op.path != [])
    ensures op.Set? ==> EditSlot(None, op.path, SetTo(op.value)).None?
    ensures op.Append? ==> EditSlot(None, op.path, AppendText(op.text)).None?
    ensures op.Truncate? ==> EditSlot(None, op.path, TruncateText(op.count)).None?
    ensures op.Delete? ==> EditSlot(None, op.path[..|op.path| - 1], RemoveChild(op.path[|op.path| - 1])).None?
    ensures op.Splice? ==> EditSlot(None, op.path, SpliceItems(op.start, op.remove, op.items)).None?
    ensures op.Permute? ==> EditSlot(None, op.path, PermuteItems(op.permutation)).None?
  {
  }

  // ----- Leaf operations: their results are primitive -----

  predicate IsLeaf(op: Op) {
    op.Append? || (op.Set? && !IsContainer(op.value))
  }

  predicate IsLeafEdit(e: Edit) {
    e.AppendText? || (e.SetTo? && !IsContainer(e.value))
  }

  function LeafEdit(op: Op): (e: Edit)
    requires IsLeaf(op)
    ensures IsLeafEdit(e)
  {
    if op.Append? then AppendText(op.text) else SetTo(op.value)
  }

  /** The slot holds a primitive. */
  predicate IsPrimitiveAt(slot: Slot, path: Path) {
    At(slot, path).Some? && !IsContainer(At(slot, path).value)
  }

  predicate IsContainerAt(slot: Slot, path: Path) {
    At(slot, path).Some? && IsContainer(At(slot, path).value)
  }

  /** Writing one child leaves another alone, and two such writes commute once the second child exists. */
  lemma PutOther(v: Json, a: Seg, x: Json, b: Seg, y: Json)
    requires a != b && CanPut(v, a)
    ensures Child(Put(v, a, x), b) == Child(v, b) && Child(Put(v, a, x), a) == Some(x)
    ensures Child(v, b).Some? ==>
              CanPut(v, b) && CanPut(Put(v, a, x), b) && CanPut(Put(v, b, y), a)
              && Put(Put(v, a, x), b, y) == Put(Put(v, b, y), a, x)
  {
    if Child(v, b).Some? && v.Arr? && a.i == |v.items| {
      assert (v.items + [x])[b.i := y] == v.items[b.i := y] + [x];
    } else if Child(v, b).Some? && v.Arr? {
      assert v.items[a.i := x][b.i := y] == v.items[b.i := y][a.i := x];
    } else if Child(v, b).Some? {
      assert v.props[a.name := x][b.name := y] == v.props[b.name := y][a.name := x];
    }
  }

  lemma PutSame(v: Json, a: Seg, x: Json, y: Json)
    requires CanPut(v, a)
    ensures CanPut(Put(v, a, x), a) && Child(Put(v, a, x), a) == Some(x)
    ensures Put(Put(v, a, x), a, y) == Put(v, a, y)
  {
    if v.Obj? {
      assert v.props[a.name := x][a.name := y] == v.props[a.name := y];
    } else if a.i == |v.items| {
      assert (v.items + [x])[a.i := y] == v.items + [y];
    } else {
      assert v.items[a.i := x][a.i := y] == v.items[a.i := y];
    }
  }

  /** A leaf edit leaves a primitive where it wrote. */
  lemma {:induction false} LeafLeavesPrimitive(slot: Slot, path: Path, e: Edit)
    requires IsLeafEdit(e) && EditSlot(slot, path, e).Some?
    ensures IsPrimitiveAt(EditSlot(slot, path, e), path)
    decreases |path|
  {
    if path != [] {
      var child := Child(slot.value, path[0]);
      LeafLeavesPrimitive(child, path[1..], e);
      PutSame(slot.value, path[0], EditSlot(child, path[1..], e).value, Null);
    }
  }

  /** Nothing lies below a primitive. */
  lemma {:induction false} NothingBelow(slot: Slot, p: Path, q: Path)
    requires IsPrimitiveAt(slot, p) && p <= q
    ensures !IsContainerAt(slot, q)
    decreases |p|
  {
    if p != [] {
      assert p[0] == q[0] && p[1..] <= q[1..];
      NothingBelow(Child(slot.value, p[0]), p[1..], q[1..]);
    } else if q != [] {
      assert At(Child(slot.value, q[0]), q[1..]).None?;
    }
  }

  /** An edit needs a container above it. */
  lemma {:induction false} EditNeedsParent(slot: Slot, path: Path, e: Edit)
    requires path != [] && EditSlot(slot, path, e).Some?
    ensures IsContainerAt(slot, path[..|path| - 1])
    decreases |path|
  {
    if |path| > 1 {
      EditNeedsParent(Child(slot.value, path[0]), path[1..], e);
      assert path[..|path| - 1][1..] == path[1..][..|path| - 2];
    }
  }

  /** A leaf edit makes no container. */
  lemma {:induction false} LeafMakesNoContainer(slot: Slot, path: Path, e: Edit, r: Path)
    requires IsLeafEdit(e) && EditSlot(slot, path, e).Some?
    requires IsContainerAt(EditSlot(slot, path, e), r)
    ensures IsContainerAt(slot, r)
    decreases |path|
  {
    if path == [] {
      NothingBelow(EditSlot(slot, path, e), [], r);
    } else if r != [] {
      var child := Child(slot.value, path[0]);
      var x := EditSlot(child, path[1..], e).value;
      if r[0] == path[0] {
        PutSame(slot.value, path[0], x, Null);
        LeafMakesNoContainer(child, path[1..], e, r[1..]);
      } else {
        PutOther(slot.value, path[0], x, r[0], Null);
      }
    }
  }

  /** An edit leaves a path it neither contains nor is contained in alone. */
  lemma {:induction false} EditElsewhere(slot: Slot, q: Path, e: Edit, p: Path)
    requires EditSlot(slot, q, e).Some? && !(p <= q) && !(q <= p)
    ensures At(EditSlot(slot, q, e), p) == At(slot, p)
    decreases |q|
  {
    if q != [] && p != [] {
      var child := Child(slot.value, q[0]);
      var x := EditSlot(child, q[1..], e).value;
      if p[0] == q[0] {
        PutSame(slot.value, q[0], x, Null);
        Incomparable(p, q);
        EditElsewhere(child, q[1..], e, p[1..]);
      } else {
        PutOther(slot.value, q[0], x, p[0], Null);
      }
    }
  }

  lemma Incomparable(p: Path, q: Path)
    requires p != [] && q != [] && p[0] == q[0] && !(p <= q) && !(q <= p)
    ensures !(p[1..] <= q[1..]) && !(q[1..] <= p[1..])
  {
    assert p == [p[0]] + p[1..] && q == [q[0]] + q[1..];
    assert p[1..] <= q[1..] ==> p <= q;
    assert q[1..] <= p[1..] ==> q <= p;
  }

  /** Edits at incomparable paths commute, once the later one's path exists. */
  lemma {:induction false} EditsCommute(slot: Slot, q: Path, m: Edit, p: Path, e: Edit)
    requires !(p <= q) && !(q <= p) && At(slot, p).Some?
    requires EditSlot(slot, q, m).Some? && EditSlot(EditSlot(slot, q, m), p, e).Some?
    ensures EditSlot(slot, p, e).Some?
    ensures EditSlot(EditSlot(slot, p, e), q, m) == EditSlot(EditSlot(slot, q, m), p, e)
    decreases |q|
  {
    var v := slot.value;
    var a, b := q[0], p[0];
    var ca := Child(v, a);
    var x := EditSlot(ca, q[1..], m).value;
    if a == b {
      PutSame(v, a, x, Null);
      Incomparable(p, q);
      EditsCommute(ca, q[1..], m, p[1..], e);
      var y := EditSlot(ca, p[1..], e).value;
      var z := EditSlot(Some(x), p[1..], e).value;
      PutSame(v, a, x, z);
      PutSame(v, a, y, z);
    } else {
      var y := EditSlot(Child(v, b), p[1..], e);
      assert Child(v, b).Some? by {
        assert At(slot, p) == At(Child(v, b), p[1..]);
      }
      PutOther(v, a, x, b, Null);
      PutOther(v, a, x, b, y.value);
      PutOther(v, b, y.value, a, x);
    }
  }

  /** Two edits of one slot as one. */
  function Merge(first: Edit, next: Edit): Option<Edit>
    requires IsLeafEdit(first) && IsLeafEdit(next)
  {
    if next.SetTo? then Some(next)
    else if first.AppendText? then Some(AppendText(first.text + next.text))
    else if first.value.Str? then Some(SetTo(Str(first.value.s + next.text)))
    else None
  }

  lemma {:induction false} MergeSound(slot: Slot, path: Path, first: Edit, next: Edit)
    requires IsLeafEdit(first) && IsLeafEdit(next) && Merge(first, next).Some?
    requires EditSlot(slot, path, first).Some? && EditSlot(EditSlot(slot, path, first), path, next).Some?
    ensures EditSlot(slot, path, Merge(first, next).value) == EditSlot(EditSlot(slot, path, first), path, next)
    decreases |path|
  {
    if path == [] {
      if next.AppendText? && first.AppendText? {
        assert slot.value.s + (first.text + next.text) == (slot.value.s + first.text) + next.text;
      }
    } else {
      var child := Child(slot.value, path[0]);
      var x := EditSlot(child, path[1..], first);
      PutSame(slot.value, path[0], x.value, Null);
      MergeSound(child, path[1..], first, next);
      PutSame(slot.value, path[0], x.value, EditSlot(x, path[1..], next).value);
    }
  }
}
