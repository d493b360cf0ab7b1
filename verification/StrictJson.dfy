/**
 `copyJson` and `isJsonValue` of packages/chord/src/json.ts over a finite graph of JavaScript objects, which may be
 shared or cyclic.
 */
module StrictJson {

  datatype Prototype = ArrayPrototype | ObjectPrototype | NullPrototype | OtherPrototype

  /** `Index(n)` is the string `String(n)`; `Name` is any other string. */
  datatype Key = Index(n: nat) | Name(name: string) | Symbol(symbol: nat)

  /** `bits` identifies a finite number; `Other` is a function, a symbol or a bigint. */
  datatype Value =
    | Undefined
    | Null
    | Bool(b: bool)
    | Number(bits: nat)
    | NonFinite
    | Str(s: string)
    | Other(kind: string)
    | Ref(id: nat)

  datatype Descriptor = Data(value: Value, enumerable: bool) | Accessor(enumerable: bool)

  /** `keys` are the own keys in order, without the `length` of an array. */
  datatype Object = Object(isArray: bool, prototype: Prototype, length: nat, keys: seq<Key>, props: map<Key, Descriptor>)

  type Heap = map<nat, Object>

  // ----- Trees -----

  datatype Kind = ArrayNode | ObjectNode | BareNode

  /** Strict JSON: leaves, arrays, and objects with or without the usual prototype. */
  datatype Json = Leaf(value: Value) | Node(kind: Kind, entries: seq<Entry>)

  datatype Entry = Entry(key: Key, value: Json)

  predicate IsLeaf(v: Value) {
    v.Null? || v.Bool? || v.Number? || v.Str?
  }

  predicate Unique(keys: seq<Key>) {
    forall i, j :: 0 <= i < j < |keys| ==> keys[i] != keys[j]
  }

  /** A finite object graph: keys do not repeat, and every reference leads to an object. */
  ghost predicate Closed(h: Heap) {
    forall r :: r in h ==> ObjectOk(h, h[r])
  }

  ghost predicate ObjectOk(h: Heap, o: Object) {
    && Unique(o.keys) && (forall k :: k in o.props <==> k in o.keys)
    && forall k :: k in o.props && o.props[k].Data? && o.props[k].value.Ref? ==> o.props[k].value.id in h
  }

  predicate PlainData(o: Object, k: Key) {
    k in o.props && o.props[k].Data? && o.props[k].enumerable
  }

  /** A dense plain array, or a plain object without symbols: nothing but enumerable data. */
  ghost predicate Acceptable(o: Object) {
    && (forall k :: k in o.keys ==> PlainData(o, k))
    && if o.isArray then
         o.prototype.ArrayPrototype? && (forall k :: k in o.keys <==> k.Index? && k.n < o.length)
       else
         (o.prototype.ObjectPrototype? || o.prototype.NullPrototype?) && forall k :: k in o.keys ==> !k.Symbol?
  }

  function KindOf(o: Object): Kind {
    if o.isArray then ArrayNode else if o.prototype.NullPrototype? then BareNode else ObjectNode
  }

  function Indices(n: nat): (keys: seq<Key>)
    ensures |keys| == n && forall i :: 0 <= i < n ==> keys[i] == Index(i)
  {
    seq(n, i requires 0 <= i < n => Index(i))
  }

  predicate Omitted(o: Object, k: Key, omit: bool) {
    omit && PlainData(o, k) && o.props[k].value.Undefined?
  }

  function Kept(o: Object, keys: seq<Key>, omit: bool): (kept: seq<Key>)
    ensures forall k :: k in kept ==> k in keys && !Omitted(o, k, omit)
  {
    if keys == [] then []
    else
      var last := keys[|keys| - 1];
      var before := Kept(o, keys[..|keys| - 1], omit);
      if Omitted(o, last, omit) then before else before + [last]
  }

  /** The keys a strict-JSON tree has for an object: its elements, or its properties in order. */
  function Children(o: Object, omit: bool): seq<Key> {
    if o.isArray then Indices(o.length) else Kept(o, o.keys, omit)
  }

  /**
   `t` is the finite unfolding of `v`, met without going through an object of `avoid`. It is defined along the tree, so a
   value that leads to a cycle has none.
   */
  ghost predicate Unfolds(h: Heap, v: Value, t: Json, avoid: set<nat>, omit: bool)
    decreases t, 1
  {
    match t
    case Leaf(x) => v == x && IsLeaf(v)
    case Node(_, _) => v.Ref? && v.id in h && v.id !in avoid && Below(h, h[v.id], t, avoid, omit)
  }

  ghost predicate Below(h: Heap, o: Object, t: Json, avoid: set<nat>, omit: bool)
    decreases t, 0
  {
    && t.Node? && t.kind == KindOf(o) && Acceptable(o) && |t.entries| == |Children(o, omit)|
    && forall i :: 0 <= i < |t.entries| ==> UnfoldsAt(h, o, t, i, avoid, omit)
  }

  ghost predicate UnfoldsAt(h: Heap, o: Object, t: Json, i: nat, avoid: set<nat>, omit: bool)
    requires t.Node? && i < |t.entries| == |Children(o, omit)|
    decreases t.entries[i], 2
  {
    var k := Children(o, omit)[i];
    t.entries[i].key == k && PlainData(o, k) && Unfolds(h, o.props[k].value, t.entries[i].value, avoid, omit)
  }

  lemma {:induction false} UnfoldingUnique(h: Heap, v: Value, t: Json, u: Json, avoid: set<nat>, other: set<nat>, omit: bool)
    requires Unfolds(h, v, t, avoid, omit) && Unfolds(h, v, u, other, omit)
    ensures t == u
    decreases t
  {
    if t.Node? {
      forall i | 0 <= i < |t.entries| ensures t.entries[i] == u.entries[i] {
        assert UnfoldsAt(h, h[v.id], t, i, avoid, omit) && UnfoldsAt(h, h[v.id], u, i, other, omit);
        var x := h[v.id].props[t.entries[i].key].value;
        UnfoldingUnique(h, x, t.entries[i].value, u.entries[i].value, avoid, other, omit);
      }
      assert t.entries == u.entries;
    }
  }

  /** The number of objects of a tree. */
  function Objects(t: Json): nat
    decreases t, 1
  {
    match t
    case Leaf(_) => 0
    case Node(_, entries) => 1 + ObjectsIn(entries)
  }

  function ObjectsIn(entries: seq<Entry>): nat
    decreases entries, 0
  {
    if entries == [] then 0 else ObjectsIn(entries[..|entries| - 1]) + ObjectsOf(entries[|entries| - 1])
  }

  function ObjectsOf(e: Entry): nat
    decreases e, 2
  {
    Objects(e.value)
  }

  lemma {:induction false} ObjectsUpTo(entries: seq<Entry>, i: nat)
    requires i < |entries|
    ensures ObjectsIn(entries[..i + 1]) == ObjectsIn(entries[..i]) + Objects(entries[i].value) <= ObjectsIn(entries)
    decreases |entries|
  {
    assert entries[..i + 1][..i] == entries[..i];
    if i + 1 < |entries| {
      ObjectsUpTo(entries[..|entries| - 1], i);
      assert entries[..|entries| - 1][..i] == entries[..i] && entries[..|entries| - 1][..i + 1] == entries[..i + 1];
    } else {
      assert entries[..i + 1] == entries;
    }
  }

  /** Nothing below an object with a finite unfolding leads back to it. */
  lemma {:induction false} NeverBack(h: Heap, v: Value, t: Json, x: Value, u: Json, avoid: set<nat>, omit: bool)
    requires v.Ref? && Unfolds(h, v, t, avoid, omit) && Unfolds(h, x, u, avoid, omit) && Objects(u) < Objects(t)
    ensures Unfolds(h, x, u, avoid + {v.id}, omit)
    decreases u
  {
    if u.Node? {
      if x == v {
        UnfoldingUnique(h, v, t, u, avoid, avoid, omit);
      }
      forall i | 0 <= i < |u.entries| ensures UnfoldsAt(h, h[x.id], u, i, avoid + {v.id}, omit) {
        assert UnfoldsAt(h, h[x.id], u, i, avoid, omit);
        ObjectsUpTo(u.entries, i);
        NeverBack(h, v, t, h[x.id].props[u.entries[i].key].value, u.entries[i].value, avoid, omit);
      }
    }
  }

  lemma {:induction false} AvoidsLess(h: Heap, x: Value, u: Json, avoid: set<nat>, less: set<nat>, omit: bool)
    requires Unfolds(h, x, u, avoid, omit) && less <= avoid
    ensures Unfolds(h, x, u, less, omit)
    decreases u
  {
    if u.Node? {
      forall i | 0 <= i < |u.entries| ensures UnfoldsAt(h, h[x.id], u, i, less, omit) {
        assert UnfoldsAt(h, h[x.id], u, i, avoid, omit);
        AvoidsLess(h, h[x.id].props[u.entries[i].key].value, u.entries[i].value, avoid, less, omit);
      }
    }
  }

  /** Looking below an object that is then an ancestor asks the same as looking from it. */
  lemma AncestorAdded(h: Heap, v: Value, t: Json, avoid: set<nat>, omit: bool)
    requires v.Ref? && v.id in h && v.id !in avoid && Unfolds(h, v, t, avoid, omit)
    ensures Below(h, h[v.id], t, avoid + {v.id}, omit)
  {
    assert t.Node?;
    forall i | 0 <= i < |t.entries| ensures UnfoldsAt(h, h[v.id], t, i, avoid + {v.id}, omit) {
      assert UnfoldsAt(h, h[v.id], t, i, avoid, omit);
      ObjectsUpTo(t.entries, i);
      NeverBack(h, v, t, h[v.id].props[t.entries[i].key].value, t.entries[i].value, avoid, omit);
    }
  }

  lemma AncestorRemoved(h: Heap, v: Value, t: Json, avoid: set<nat>, omit: bool)
    requires v.Ref? && v.id in h && v.id !in avoid && Below(h, h[v.id], t, avoid + {v.id}, omit)
    ensures Unfolds(h, v, t, avoid, omit)
  {
    forall i | 0 <= i < |t.entries| ensures UnfoldsAt(h, h[v.id], t, i, avoid, omit) {
      assert UnfoldsAt(h, h[v.id], t, i, avoid + {v.id}, omit);
      AvoidsLess(h, h[v.id].props[t.entries[i].key].value, t.entries[i].value, avoid + {v.id}, avoid, omit);
    }
  }

  // ----- Results -----

  /**
   `v` is a copy of `t` made of the objects from `lo` on, one for each node in preorder: so no object is met twice on
   a walk through it, and it leads nowhere else.
   */
  ghost predicate Laid(h: Heap, v: Value, t: Json, lo: nat)
    decreases t, 1
  {
    match t
    case Leaf(x) => v == x
    case Node(kind, entries) =>
      && v == Ref(lo) && lo in h && Shaped(h[lo], kind, |entries|) && |h[lo].keys| == |entries|
      && (forall k :: k in h[lo].props <==> k in h[lo].keys)
      && forall i :: 0 <= i < |entries| ==> LaidAt(h, entries, i, lo)
  }

  ghost predicate LaidAt(h: Heap, entries: seq<Entry>, i: nat, lo: nat)
    requires i < |entries| && lo in h && |h[lo].keys| >= |entries|
    decreases entries[i], 2
  {
    && h[lo].keys[i] == entries[i].key && PlainData(h[lo], entries[i].key)
    && Laid(h, h[lo].props[entries[i].key].value, entries[i].value, lo + 1 + ObjectsIn(entries[..i]))
  }

  predicate Shaped(o: Object, kind: Kind, length: nat) {
    match kind
    case ArrayNode => o.isArray && o.prototype.ArrayPrototype? && o.length == length
    case ObjectNode => !o.isArray && o.prototype.ObjectPrototype?
    case BareNode => !o.isArray && o.prototype.NullPrototype?
  }

  lemma {:induction false} LaidStays(h: Heap, after: Heap, v: Value, t: Json, lo: nat)
    requires Laid(h, v, t, lo)
    requires forall i :: lo <= i < lo + Objects(t) && i in h ==> i in after && after[i] == h[i]
    ensures Laid(after, v, t, lo)
    decreases t
  {
    if t.Node? {
      forall i | 0 <= i < |t.entries| ensures LaidAt(after, t.entries, i, lo) {
        assert LaidAt(h, t.entries, i, lo);
        ObjectsUpTo(t.entries, i);
        LaidStays(h, after, h[lo].props[t.entries[i].key].value, t.entries[i].value, lo + 1 + ObjectsIn(t.entries[..i]));
      }
    }
  }

  /** The objects a walk through a value along a tree meets, in order. */
  ghost function Walk(h: Heap, v: Value, t: Json): seq<nat>
    decreases t, 1
  {
    if t.Leaf? || !v.Ref? || v.id !in h then [] else [v.id] + WalkIn(h, h[v.id], t.entries)
  }

  ghost function WalkIn(h: Heap, o: Object, entries: seq<Entry>): seq<nat>
    decreases entries, 0
  {
    if entries == [] then []
    else
      WalkIn(h, o, entries[..|entries| - 1]) + WalkAt(h, o, entries[|entries| - 1])
  }

  ghost function WalkAt(h: Heap, o: Object, e: Entry): seq<nat>
    decreases e, 2
  {
    if PlainData(o, e.key) then Walk(h, o.props[e.key].value, e.value) else []
  }

  /** A walk through a copy meets each of its objects exactly once: it is an alias-free tree. */
  lemma {:induction false} CopyHasNoAliases(h: Heap, v: Value, t: Json, lo: nat)
    requires Laid(h, v, t, lo)
    ensures |Walk(h, v, t)| == Objects(t)
    ensures forall i :: 0 <= i < Objects(t) ==> Walk(h, v, t)[i] == lo + i
    decreases t, 1
  {
    if t.Node? {
      WalkLaid(h, v, t, |t.entries|, lo);
      assert t.entries[..|t.entries|] == t.entries;
    }
  }

  lemma {:induction false} WalkLaid(h: Heap, v: Value, t: Json, n: nat, lo: nat)
    requires Laid(h, v, t, lo) && t.Node? && n <= |t.entries|
    ensures |WalkIn(h, h[lo], t.entries[..n])| == ObjectsIn(t.entries[..n])
    ensures forall i :: 0 <= i < ObjectsIn(t.entries[..n]) ==> WalkIn(h, h[lo], t.entries[..n])[i] == lo + 1 + i
    decreases t, 0, n
  {
    if n > 0 {
      var entries := t.entries;
      WalkLaid(h, v, t, n - 1, lo);
      assert entries[..n][..n - 1] == entries[..n - 1];
      assert LaidAt(h, entries, n - 1, lo);
      var e := entries[n - 1];
      CopyHasNoAliases(h, h[lo].props[e.key].value, e.value, lo + 1 + ObjectsIn(entries[..n - 1]));
    }
  }

  // ----- Own keys -----

  function KeySet(keys: seq<Key>): set<Key> {
    set k | k in keys
  }

  lemma {:induction false} UniqueCount(keys: seq<Key>)
    requires Unique(keys)
    ensures |KeySet(keys)| == |keys|
  {
    if keys != [] {
      var before, last := keys[..|keys| - 1], keys[|keys| - 1];
      UniqueCount(before);
      assert KeySet(keys) == KeySet(before) + {last};
    }
  }

  lemma SameSizeSubset(a: set<Key>, b: set<Key>)
    requires a <= b && |a| == |b|
    ensures a == b
  {
    assert |b - a| == |b| - |a|;
  }

  /** As many own keys as elements, and every element there: then there is nothing else, symbols included. */
  lemma DenseArray(keys: seq<Key>, n: nat)
    requires Unique(keys) && forall i :: 0 <= i < n ==> Index(i) in keys
    ensures |keys| == n <==> forall k :: k in keys ==> k.Index? && k.n < n
  {
    UniqueCount(keys);
    UniqueCount(Indices(n));
    var indices := KeySet(Indices(n));
    assert indices <= KeySet(keys);
    if |keys| == n {
      SameSizeSubset(indices, KeySet(keys));
      forall k | k in keys ensures k.Index? && k.n < n {
        assert k in KeySet(keys);
      }
    }
    if forall k :: k in keys ==> k.Index? && k.n < n {
      forall k | k in keys ensures k in indices {
        assert Indices(n)[k.n] == k;
      }
      assert KeySet(keys) == indices;
    }
  }

  lemma KeptNext(o: Object, keys: seq<Key>, i: nat, omit: bool)
    requires i < |keys|
    ensures Kept(o, keys[..i + 1], omit)
            == if Omitted(o, keys[i], omit) then Kept(o, keys[..i], omit) else Kept(o, keys[..i], omit) + [keys[i]]
  {
    assert keys[..i + 1][..i] == keys[..i];
  }

  lemma {:induction false} KeptGrows(o: Object, keys: seq<Key>, i: nat, omit: bool)
    requires i <= |keys|
    ensures Kept(o, keys[..i], omit) <= Kept(o, keys, omit)
    decreases |keys|
  {
    if i == |keys| {
      assert keys[..i] == keys;
    } else {
      var before := keys[..|keys| - 1];
      KeptGrows(o, before, i, omit);
      assert before[..i] == keys[..i];
    }
  }

  lemma KeptPrefix(o: Object, keys: seq<Key>, i: nat, omit: bool)
    requires i < |keys| && !Omitted(o, keys[i], omit)
    ensures |Kept(o, keys[..i], omit)| < |Kept(o, keys, omit)|
    ensures Kept(o, keys, omit)[|Kept(o, keys[..i], omit)|] == keys[i]
  {
    KeptNext(o, keys, i, omit);
    KeptGrows(o, keys, i + 1, omit);
  }

  lemma {:induction false} KeptUnique(o: Object, keys: seq<Key>, omit: bool)
    requires Unique(keys)
    ensures Unique(Kept(o, keys, omit))
  {
    if keys != [] {
      KeptUnique(o, keys[..|keys| - 1], omit);
    }
  }

  // ----- Filling a result -----

  /** Objects below `from` are as they were. */
  ghost predicate Preserves(before: Heap, after: Heap, from: nat) {
    forall i :: i in before && i < from ==> i in after && after[i] == before[i]
  }

  lemma PreservesBoth(a: Heap, b: Heap, c: Heap, from: nat)
    requires Preserves(a, b, from) && Preserves(b, c, from)
    ensures Preserves(a, c, from)
  {
  }

  lemma PreservesNothing(a: Heap, from: nat)
    ensures Preserves(a, a, from)
  {
  }

  lemma PreservesAbove(a: Heap, b: Heap, lo: nat, o: Object)
    requires Preserves(a, b, lo)
    ensures Preserves(a, b[lo := o], lo)
  {
  }

  lemma PreservesLess(a: Heap, b: Heap, from: nat, less: nat)
    requires Preserves(a, b, from) && less <= from
    ensures Preserves(a, b, less)
  {
  }

  function Defined(o: Object, key: Key, value: Value): Object {
    o.(keys := if key in o.keys then o.keys else o.keys + [key], props := o.props[key := Data(value, true)])
  }

  /** A copy that has its first entries. */
  ghost predicate PartlyLaid(h: Heap, entries: seq<Entry>, lo: nat) {
    && lo in h && |h[lo].keys| == |entries| && (forall k :: k in h[lo].props <==> k in h[lo].keys)
    && forall i :: 0 <= i < |entries| ==> LaidAt(h, entries, i, lo)
  }

  lemma PartStays(h: Heap, after: Heap, entries: seq<Entry>, lo: nat)
    requires PartlyLaid(h, entries, lo)
    requires forall i :: lo <= i < lo + 1 + ObjectsIn(entries) && i in h ==> i in after && after[i] == h[i]
    ensures PartlyLaid(after, entries, lo)
  {
    forall i | 0 <= i < |entries| ensures LaidAt(after, entries, i, lo) {
      assert LaidAt(h, entries, i, lo);
      ObjectsUpTo(entries, i);
      LaidStays(h, after, h[lo].props[entries[i].key].value, entries[i].value, lo + 1 + ObjectsIn(entries[..i]));
    }
  }

  lemma PartExtends(h: Heap, entries: seq<Entry>, lo: nat, key: Key, value: Value, t: Json)
    requires PartlyLaid(h, entries, lo) && key !in h[lo].keys
    requires Laid(h, value, t, lo + 1 + ObjectsIn(entries))
    ensures PartlyLaid(h[lo := Defined(h[lo], key, value)], entries + [Entry(key, t)], lo)
    ensures ObjectsIn(entries + [Entry(key, t)]) == ObjectsIn(entries) + Objects(t)
  {
    var after, more := h[lo := Defined(h[lo], key, value)], entries + [Entry(key, t)];
    assert more[..|entries|] == entries;
    forall i | 0 <= i < |more| ensures LaidAt(after, more, i, lo) {
      if i < |entries| {
        assert LaidAt(h, entries, i, lo);
        assert more[..i] == entries[..i];
        LaidStays(h, after, h[lo].props[entries[i].key].value, entries[i].value, lo + 1 + ObjectsIn(entries[..i]));
      } else {
        LaidStays(h, after, value, t, lo + 1 + ObjectsIn(entries));
      }
    }
  }

  /** Entering an object adds it to the ancestors, and asks for its children. */
  lemma Entered(h: Heap, v: Value, tree: Json, avoid: set<nat>, omit: bool, found: bool)
    requires v.Ref? && v.id in h && v.id !in avoid
    requires if found then Below(h, h[v.id], tree, avoid + {v.id}, omit) else forall t :: !Below(h, h[v.id], t, avoid + {v.id}, omit)
    ensures if found then Unfolds(h, v, tree, avoid, omit) else forall t :: !Unfolds(h, v, t, avoid, omit)
  {
    if found {
      AncestorRemoved(h, v, tree, avoid, omit);
    } else {
      forall t ensures !Unfolds(h, v, t, avoid, omit) {
        if Unfolds(h, v, t, avoid, omit) {
          AncestorAdded(h, v, t, avoid, omit);
        }
      }
    }
  }

  // ----- copy -----

  datatype Failure = NonFiniteNumber | NonJson | Cycle | NotDenseArray | NotIndexedData | NotPlain | SymbolKey | NotEnumerableData

  datatype Result = Ok(value: Value) | Error(failure: Failure)

  /** Objects of the graph are older than those of the store. */
  ghost predicate Separate(h: Heap, next: nat) {
    forall i :: i in h ==> i < next
  }

  /** The entries found so far: the unfoldings of the first children. */
  ghost predicate Found(h: Heap, o: Object, entries: seq<Entry>, avoid: set<nat>, omit: bool) {
    && |entries| <= |Children(o, omit)|
    && forall i :: 0 <= i < |entries| ==> FoundAt(h, o, entries, i, avoid, omit)
  }

  ghost predicate FoundAt(h: Heap, o: Object, entries: seq<Entry>, i: nat, avoid: set<nat>, omit: bool)
    requires i < |entries| <= |Children(o, omit)|
  {
    var k := Children(o, omit)[i];
    entries[i].key == k && PlainData(o, k) && Unfolds(h, o.props[k].value, entries[i].value, avoid, omit)
  }

  lemma FoundAll(h: Heap, o: Object, entries: seq<Entry>, avoid: set<nat>, omit: bool)
    requires Found(h, o, entries, avoid, omit) && Acceptable(o) && |entries| == |Children(o, omit)|
    ensures Below(h, o, Node(KindOf(o), entries), avoid, omit)
  {
    var t := Node(KindOf(o), entries);
    forall i | 0 <= i < |t.entries| ensures UnfoldsAt(h, o, t, i, avoid, omit) {
      assert FoundAt(h, o, entries, i, avoid, omit);
    }
  }

  /** A copy under way: the first entries are found and laid out, and its shape is that of the original. */
  ghost predicate Filling(h: Heap, o: Object, after: Heap, next: nat, entries: seq<Entry>, lo: nat, avoid: set<nat>, omit: bool) {
    && Found(h, o, entries, avoid, omit) && PartlyLaid(after, entries, lo)
    && next == lo + 1 + ObjectsIn(entries) && Shaped(after[lo], KindOf(o), o.length)
  }

  lemma FillsNext(h: Heap, o: Object, before: Heap, mid: Heap, next: nat, entries: seq<Entry>, lo: nat, key: Key, value: Value,
                  t: Json, avoid: set<nat>, omit: bool)
    requires Filling(h, o, before, next, entries, lo, avoid, omit) && Unique(Children(o, omit))
    requires |entries| < |Children(o, omit)| && Children(o, omit)[|entries|] == key && PlainData(o, key)
    requires Preserves(before, mid, next)
    requires Unfolds(h, o.props[key].value, t, avoid, omit) && Laid(mid, value, t, next)
    ensures lo in mid && Filling(h, o, mid[lo := Defined(mid[lo], key, value)], next + Objects(t), entries + [Entry(key, t)], lo,
                                 avoid, omit)
  {
    PartStays(before, mid, entries, lo);
    NewKey(h, o, mid, entries, lo, avoid, omit);
    PartExtends(mid, entries, lo, key, value, t);
    FoundOne(h, o, entries, key, t, avoid, omit);
  }

  lemma NewKey(h: Heap, o: Object, after: Heap, entries: seq<Entry>, lo: nat, avoid: set<nat>, omit: bool)
    requires Found(h, o, entries, avoid, omit) && PartlyLaid(after, entries, lo) && Unique(Children(o, omit))
    requires |entries| < |Children(o, omit)|
    ensures Children(o, omit)[|entries|] !in after[lo].keys
  {
    forall i | 0 <= i < |entries| ensures after[lo].keys[i] == Children(o, omit)[i] {
      assert LaidAt(after, entries, i, lo) && FoundAt(h, o, entries, i, avoid, omit);
    }
  }

  lemma FillingStarts(h: Heap, o: Object, after: Heap, lo: nat, avoid: set<nat>, omit: bool)
    requires lo in after && after[lo] == Object(o.isArray, o.prototype, o.length, [], map[]) && Shaped(after[lo], KindOf(o), o.length)
    ensures Filling(h, o, after, lo + 1, [], lo, avoid, omit)
  {
  }

  /** All children are there: the object has an unfolding, and its copy is complete. */
  lemma Completed(h: Heap, o: Object, after: Heap, next: nat, entries: seq<Entry>, lo: nat, avoid: set<nat>, omit: bool)
    requires Filling(h, o, after, next, entries, lo, avoid, omit) && Acceptable(o) && |entries| == |Children(o, omit)|
    ensures var t := Node(KindOf(o), entries);
            Below(h, o, t, avoid, omit) && Laid(after, Ref(lo), t, lo) && next == lo + Objects(t)
  {
    FoundAll(h, o, entries, avoid, omit);
  }

  /** The elements of a dense plain array are all there is. */
  lemma ArrayAcceptable(h: Heap, o: Object)
    requires ObjectOk(h, o) && o.isArray && o.prototype.ArrayPrototype?
    requires |o.keys| == o.length && ElementsUpTo(o, o.length)
    ensures Acceptable(o)
  {
    DenseArray(o.keys, o.length);
  }

  predicate ElementsUpTo(o: Object, n: nat) {
    forall i :: 0 <= i < n ==> PlainData(o, Index(i))
  }

  /** The first `n` properties can be copied, and `kept` of them are. */
  predicate PlainUpTo(o: Object, n: nat, kept: nat, omit: bool) {
    && n <= |o.keys| && kept == |Kept(o, o.keys[..n], omit)|
    && forall j :: 0 <= j < n ==> PlainData(o, o.keys[j]) && !o.keys[j].Symbol?
  }

  lemma PlainAcceptable(o: Object, kept: nat, omit: bool)
    requires !o.isArray && (o.prototype.ObjectPrototype? || o.prototype.NullPrototype?)
    requires PlainUpTo(o, |o.keys|, kept, omit)
    ensures Acceptable(o) && kept == |Children(o, omit)|
  {
    assert o.keys[..|o.keys|] == o.keys;
  }

  lemma NextProperty(o: Object, i: nat, kept: nat, omit: bool)
    requires !o.isArray && i < |o.keys| && PlainUpTo(o, i, kept, omit) && PlainData(o, o.keys[i]) && !o.keys[i].Symbol?
    ensures PlainUpTo(o, i + 1, if Omitted(o, o.keys[i], omit) then kept else kept + 1, omit)
  {
    KeptNext(o, o.keys, i, omit);
  }

  lemma NextKept(o: Object, i: nat, kept: nat, omit: bool)
    requires !o.isArray && i < |o.keys| && PlainUpTo(o, i, kept, omit) && !Omitted(o, o.keys[i], omit)
    ensures kept < |Children(o, omit)| && Children(o, omit)[kept] == o.keys[i]
  {
    KeptPrefix(o, o.keys, i, omit);
  }

  lemma ChildrenUnique(h: Heap, o: Object, omit: bool)
    requires ObjectOk(h, o)
    ensures Unique(Children(o, omit))
  {
    KeptUnique(o, o.keys, omit);
  }

  lemma Unacceptable(h: Heap, o: Object, avoid: set<nat>, omit: bool)
    requires !Acceptable(o)
    ensures forall t :: !Below(h, o, t, avoid, omit)
  {
  }

  lemma ArrayUnacceptable(h: Heap, o: Object)
    requires ObjectOk(h, o) && o.isArray && (!o.prototype.ArrayPrototype? || |o.keys| != o.length)
    ensures !Acceptable(o)
  {
    if Acceptable(o) {
      DenseArray(o.keys, o.length);
    }
  }

  lemma FoundOne(h: Heap, o: Object, entries: seq<Entry>, k: Key, t: Json, avoid: set<nat>, omit: bool)
    requires Found(h, o, entries, avoid, omit) && |entries| < |Children(o, omit)| && Children(o, omit)[|entries|] == k
    requires PlainData(o, k) && Unfolds(h, o.props[k].value, t, avoid, omit)
    ensures Found(h, o, entries + [Entry(k, t)], avoid, omit)
  {
    var more := entries + [Entry(k, t)];
    forall i | 0 <= i < |more| ensures FoundAt(h, o, more, i, avoid, omit) {
      assert i < |entries| ==> more[i] == entries[i] && FoundAt(h, o, entries, i, avoid, omit);
    }
  }

  /** A child without an unfolding leaves its parent without one. */
  lemma ChildMissing(h: Heap, o: Object, i: nat, avoid: set<nat>, omit: bool)
    requires i < |Children(o, omit)| && PlainData(o, Children(o, omit)[i])
    requires forall u :: !Unfolds(h, o.props[Children(o, omit)[i]].value, u, avoid, omit)
    ensures forall t :: !Below(h, o, t, avoid, omit)
  {
    forall t ensures !Below(h, o, t, avoid, omit) {
      if Below(h, o, t, avoid, omit) {
        assert UnfoldsAt(h, o, t, i, avoid, omit);
        assert !Unfolds(h, o.props[Children(o, omit)[i]].value, t.entries[i].value, avoid, omit);
      }
    }
  }

  lemma FewerLeft(h: Heap, avoid: set<nat>, id: nat)
    requires id in h && id !in avoid
    ensures |h.Keys - (avoid + {id})| < |h.Keys - avoid|
  {
    assert h.Keys - (avoid + {id}) == (h.Keys - avoid) - {id};
  }

  /** One `copyJson` call: the graph it reads, its ancestor set, and the objects it has created. */
  class Copier {
    const h: Heap
    const omit: bool
    var active: set<nat>
    var objects: Heap
    var next: nat

    constructor (h: Heap, omit: bool, next: nat)
      requires Closed(h) && Separate(h, next)
      ensures this.h == h && this.omit == omit && active == {} && objects == map[] && this.next == next && Valid()
    {
      this.h, this.omit, active, objects, this.next := h, omit, {}, map[], next;
    }

    ghost predicate Valid()
      reads this
    {
      Closed(h) && active <= h.Keys && Separate(h, next) && forall i :: i in objects ==> i < next
    }

    /**
     Succeeds exactly for a value with a finite unfolding that meets no ancestor, and then with a copy of it made of new
     objects; either way the ancestors are as before. It ends because each object it enters becomes an ancestor.
     */
    method Copy(value: Value) returns (r: Result, ghost tree: Json)
      requires Valid() && (value.Ref? ==> value.id in h)
      modifies this`active, this`objects, this`next
      ensures Valid() && active == old(active) && Preserves(old(objects), objects, old(next))
      ensures r.Ok? ==> Unfolds(h, value, tree, active, omit) && Laid(objects, r.value, tree, old(next))
                        && next == old(next) + Objects(tree)
      ensures r.Error? ==> next >= old(next) && forall t :: !Unfolds(h, value, t, active, omit)
      decreases |h.Keys - active|, 0
    {
      tree := Leaf(value);
      PreservesNothing(objects, next);
      if IsLeaf(value) {
        return Ok(value), tree;
      }
      if value.NonFinite? {
        return Error(NonFiniteNumber), tree;
      }
      if !value.Ref? {
        return Error(NonJson), tree;
      }
      if value.id in active {
        return Error(Cycle), tree;
      }
      ghost var avoid := active;
      FewerLeft(h, avoid, value.id);
      active := active + {value.id};
      if h[value.id].isArray {
        r, tree := CopyArray(h[value.id]);
      } else {
        r, tree := CopyPlain(h[value.id]);
      }
      active := active - {value.id};
      assert active == avoid;
      Entered(h, value, tree, avoid, omit, r.Ok?);
    }

    method CopyArray(o: Object) returns (r: Result, ghost tree: Json)
      requires Valid() && ObjectOk(h, o) && o.isArray
      modifies this`active, this`objects, this`next
      ensures Valid() && active == old(active) && Preserves(old(objects), objects, old(next))
      ensures r.Ok? ==> Below(h, o, tree, active, omit) && Laid(objects, r.value, tree, old(next))
                        && next == old(next) + Objects(tree)
      ensures r.Error? ==> next >= old(next) && forall t :: !Below(h, o, t, active, omit)
      decreases |h.Keys - active|, 3
    {
      ghost var entries: seq<Entry>, start := [], objects;
      tree := Node(ArrayNode, entries);
      PreservesNothing(objects, next);
      if !o.prototype.ArrayPrototype? || |o.keys| + 1 != o.length + 1 {
        ArrayUnacceptable(h, o);
        Unacceptable(h, o, active, omit);
        return Error(NotDenseArray), tree;
      }
      var lo := Allocate(Object(true, ArrayPrototype, o.length, [], map[]));
      FillingStarts(h, o, objects, lo, active, omit);
      for index := 0 to o.length
        invariant Valid() && active == old(active) && Preserves(start, objects, lo) && |entries| == index && lo < next
        invariant Filling(h, o, objects, next, entries, lo, active, omit) && ElementsUpTo(o, index)
      {
        ghost var before := objects;
        var child;
        child, entries := CopyElement(o, index, lo, entries);
        PreservesBoth(start, before, objects, lo);
        if child.Error? {
          return child, tree;
        }
      }
      ArrayAcceptable(h, o);
      tree := Node(ArrayNode, entries);
      Completed(h, o, objects, next, entries, lo, active, omit);
      r := Ok(Ref(lo));
    }

    method CopyElement(o: Object, index: nat, lo: nat, ghost entries: seq<Entry>) returns (r: Result, ghost more: seq<Entry>)
      requires Valid() && ObjectOk(h, o) && o.isArray && index < o.length && |entries| == index
      requires Separate(h, lo) && lo < next && ElementsUpTo(o, index)
      requires Filling(h, o, objects, next, entries, lo, active, omit)
      modifies this`active, this`objects, this`next
      ensures Valid() && active == old(active) && Preserves(old(objects), objects, lo) && lo < next
      ensures r.Error? ==> forall t :: !Below(h, o, t, active, omit)
      ensures r.Ok? ==> |more| == index + 1 && Filling(h, o, objects, next, more, lo, active, omit)
                        && ElementsUpTo(o, index + 1)
      decreases |h.Keys - active|, 2
    {
      if !PlainData(o, Index(index)) {
        Unacceptable(h, o, active, omit);
        PreservesNothing(objects, lo);
        return Error(NotIndexedData), entries;
      }
      r, more := CopyChild(o, Index(index), lo, entries);
    }

    method CopyPlain(o: Object) returns (r: Result, ghost tree: Json)
      requires Valid() && ObjectOk(h, o) && !o.isArray
      modifies this`active, this`objects, this`next
      ensures Valid() && active == old(active) && Preserves(old(objects), objects, old(next))
      ensures r.Ok? ==> Below(h, o, tree, active, omit) && Laid(objects, r.value, tree, old(next))
                        && next == old(next) + Objects(tree)
      ensures r.Error? ==> next >= old(next) && forall t :: !Below(h, o, t, active, omit)
      decreases |h.Keys - active|, 3
    {
      ghost var entries: seq<Entry>, start := [], objects;
      tree := Node(KindOf(o), entries);
      PreservesNothing(objects, next);
      if !o.prototype.ObjectPrototype? && !o.prototype.NullPrototype? {
        Unacceptable(h, o, active, omit);
        return Error(NotPlain), tree;
      }
      var lo := Allocate(Object(false, o.prototype, o.length, [], map[]));
      FillingStarts(h, o, objects, lo, active, omit);
      for i := 0 to |o.keys|
        invariant Valid() && active == old(active) && Preserves(start, objects, lo) && lo < next
        invariant Filling(h, o, objects, next, entries, lo, active, omit) && PlainUpTo(o, i, |entries|, omit)
      {
        ghost var before := objects;
        var child;
        child, entries := CopyProperty(o, i, lo, entries);
        PreservesBoth(start, before, objects, lo);
        if child.Error? {
          return child, tree;
        }
      }
      PlainAcceptable(o, |entries|, omit);
      tree := Node(KindOf(o), entries);
      Completed(h, o, objects, next, entries, lo, active, omit);
      r := Ok(Ref(lo));
    }

    method CopyProperty(o: Object, i: nat, lo: nat, ghost entries: seq<Entry>) returns (r: Result, ghost more: seq<Entry>)
      requires Valid() && ObjectOk(h, o) && !o.isArray && i < |o.keys|
      requires Separate(h, lo) && lo < next && PlainUpTo(o, i, |entries|, omit)
      requires Filling(h, o, objects, next, entries, lo, active, omit)
      modifies this`active, this`objects, this`next
      ensures Valid() && active == old(active) && Preserves(old(objects), objects, lo) && lo < next
      ensures r.Error? ==> forall t :: !Below(h, o, t, active, omit)
      ensures r.Ok? ==> Filling(h, o, objects, next, more, lo, active, omit) && PlainUpTo(o, i + 1, |more|, omit)
      decreases |h.Keys - active|, 2
    {
      var key := o.keys[i];
      PreservesNothing(objects, lo);
      if key.Symbol? || !PlainData(o, key) {
        Unacceptable(h, o, active, omit);
        return Error(if key.Symbol? then SymbolKey else NotEnumerableData), entries;
      }
      NextProperty(o, i, |entries|, omit);
      if o.props[key].value.Undefined? && omit {
        return Ok(Undefined), entries;
      }
      NextKept(o, i, |entries|, omit);
      r, more := CopyChild(o, key, lo, entries);
    }

    /** Copy the value of an element or property, and define it in the result. */
    method CopyChild(o: Object, key: Key, lo: nat, ghost entries: seq<Entry>) returns (r: Result, ghost more: seq<Entry>)
      requires Valid() && ObjectOk(h, o) && PlainData(o, key) && Separate(h, lo) && lo < next
      requires Filling(h, o, objects, next, entries, lo, active, omit)
      requires |entries| < |Children(o, omit)| && Children(o, omit)[|entries|] == key
      modifies this`active, this`objects, this`next
      ensures Valid() && active == old(active) && Preserves(old(objects), objects, lo) && lo < next
      ensures r.Error? ==> forall t :: !Below(h, o, t, active, omit)
      ensures r.Ok? ==> |more| == |entries| + 1 && Filling(h, o, objects, next, more, lo, active, omit)
      decreases |h.Keys - active|, 1
    {
      ghost var before, from := objects, next;
      ghost var tree;
      r, tree := Copy(o.props[key].value);
      PreservesLess(before, objects, from, lo);
      more := entries;
      if r.Error? {
        ChildMissing(h, o, |entries|, active, omit);
        return;
      }
      more := Place(o, key, r.value, lo, before, from, entries, tree);
    }

    /** The copied value becomes the next entry of the result. */
    method Place(o: Object, key: Key, value: Value, lo: nat, ghost before: Heap, ghost from: nat, ghost entries: seq<Entry>,
                 ghost tree: Json)
      returns (ghost more: seq<Entry>)
      requires ObjectOk(h, o) && PlainData(o, key) && lo < from
      requires Filling(h, o, before, from, entries, lo, active, omit) && Preserves(before, objects, from)
      requires |entries| < |Children(o, omit)| && Children(o, omit)[|entries|] == key
      requires Unfolds(h, o.props[key].value, tree, active, omit) && Laid(objects, value, tree, from)
      requires next == from + Objects(tree)
      modifies this`objects
      ensures objects.Keys == old(objects).Keys && Preserves(before, objects, lo)
      ensures |more| == |entries| + 1 && Filling(h, o, objects, next, more, lo, active, omit)
    {
      ChildrenUnique(h, o, omit);
      FillsNext(h, o, before, objects, from, entries, lo, key, value, tree, active, omit);
      PreservesLess(before, objects, from, lo);
      PreservesAbove(before, objects, lo, Defined(objects[lo], key, value));
      more := entries + [Entry(key, tree)];
      DefineData(lo, key, value);
    }

    method Allocate(o: Object) returns (id: nat)
      requires Valid()
      modifies this`objects, this`next
      ensures Valid() && id == old(next) && next == id + 1 && objects == old(objects)[id := o]
      ensures Preserves(old(objects), objects, id)
    {
      id, objects, next := next, objects[next := o], next + 1;
    }

    /** `defineData` */
    method DefineData(id: nat, key: Key, value: Value)
      requires id in objects
      modifies this`objects
      ensures objects == old(objects)[id := Defined(old(objects[id]), key, value)]
    {
      objects := objects[id := Defined(objects[id], key, value)];
    }
  }

  /** The value unfolds to a finite tree of strict JSON. */
  ghost predicate IsStrict(h: Heap, value: Value, omit: bool) {
    exists t :: Unfolds(h, value, t, {}, omit)
  }

  lemma StrictOrNot(h: Heap, value: Value, tree: Json, found: bool, omit: bool)
    requires if found then Unfolds(h, value, tree, {}, omit) else forall t :: !Unfolds(h, value, t, {}, omit)
    ensures found <==> IsStrict(h, value, omit)
  {
  }

  /** `copyJson`, into objects numbered from `next`. */
  method CopyJson(h: Heap, value: Value, next: nat, omit: bool) returns (r: Result, created: Heap, ghost tree: Json)
    requires Closed(h) && (value.Ref? ==> value.id in h) && Separate(h, next)
    ensures r.Ok? <==> IsStrict(h, value, omit)
    ensures r.Ok? ==> Unfolds(h, value, tree, {}, omit) && Laid(created, r.value, tree, next)
  {
    var copier := new Copier(h, omit, next);
    r, tree := copier.Copy(value);
    created := copier.objects;
    StrictOrNot(h, value, tree, r.Ok?, omit);
  }

  // ----- check -----

  class Checker {
    const h: Heap
    var ancestors: set<nat>

    constructor (h: Heap)
      requires Closed(h)
      ensures this.h == h && ancestors == {}
    {
      this.h, ancestors := h, {};
    }

    method Check(value: Value) returns (ok: bool, ghost tree: Json)
      requires Closed(h) && ancestors <= h.Keys && (value.Ref? ==> value.id in h)
      modifies this`ancestors
      ensures ancestors == old(ancestors)
      ensures if ok then Unfolds(h, value, tree, ancestors, false) else forall t :: !Unfolds(h, value, t, ancestors, false)
      decreases |h.Keys - ancestors|, 0
    {
      tree := Leaf(value);
      if value.Null? || value.Str? || value.Bool? {
        return true, tree;
      }
      if value.Number? || value.NonFinite? {
        return value.Number?, tree;
      }
      if !value.Ref? {
        return false, tree;
      }
      var o := h[value.id];
      if !ShapeOk(o) {
        ShapeUnacceptable(h, o);
        return false, tree;
      }
      if value.id in ancestors {
        return false, tree;
      }
      ghost var avoid := ancestors;
      FewerLeft(h, avoid, value.id);
      ancestors := ancestors + {value.id};
      ok, tree := CheckChildren(o);
      ancestors := ancestors - {value.id};
      assert ancestors == avoid;
      Entered(h, value, tree, avoid, false, ok);
    }

    /** The elements of an array, or the properties of an object. */
    method CheckChildren(o: Object) returns (ok: bool, ghost tree: Json)
      requires Closed(h) && ObjectOk(h, o) && ancestors <= h.Keys && ShapeOk(o)
      modifies this`ancestors
      ensures ancestors == old(ancestors)
      ensures if ok then Below(h, o, tree, ancestors, false) else forall t :: !Below(h, o, t, ancestors, false)
      decreases |h.Keys - ancestors|, 2
    {
      ghost var entries: seq<Entry> := [];
      var n := if o.isArray then o.length else |o.keys|;
      ChildrenAre(o);
      for i := 0 to n
        invariant ancestors == old(ancestors) && |entries| == i && Found(h, o, entries, ancestors, false)
        invariant ChildrenUpTo(o, i)
      {
        ok, entries := CheckChild(o, i, if o.isArray then Index(i) else o.keys[i], entries);
        if !ok {
          return false, Node(KindOf(o), entries);
        }
      }
      ShapeAcceptable(h, o);
      FoundAll(h, o, entries, ancestors, false);
      return true, Node(KindOf(o), entries);
    }

    method CheckChild(o: Object, i: nat, key: Key, ghost entries: seq<Entry>) returns (ok: bool, ghost more: seq<Entry>)
      requires Closed(h) && ObjectOk(h, o) && ancestors <= h.Keys
      requires i < |Children(o, false)| && key == Children(o, false)[i]
      requires |entries| == i && Found(h, o, entries, ancestors, false) && ChildrenUpTo(o, i)
      modifies this`ancestors
      ensures ancestors == old(ancestors)
      ensures if ok then |more| == i + 1 && Found(h, o, more, ancestors, false) && ChildrenUpTo(o, i + 1)
              else forall t :: !Below(h, o, t, ancestors, false)
      decreases |h.Keys - ancestors|, 1
    {
      more := entries;
      if !PlainData(o, key) {
        ChildUnacceptable(o, i);
        Unacceptable(h, o, ancestors, false);
        return false, more;
      }
      ghost var t;
      ok, t := Check(o.props[key].value);
      if ok {
        FoundOne(h, o, entries, key, t, ancestors, false);
        ChildrenGrow(o, i);
        more := entries + [Entry(key, t)];
      } else {
        ChildMissing(h, o, i, ancestors, false);
      }
    }
  }

  /** What `check` asks of an object before it looks at its descriptors. */
  predicate ShapeOk(o: Object) {
    && (forall k | k in o.keys :: !k.Symbol?)
    && if o.isArray then o.prototype.ArrayPrototype? && |o.keys| + 1 == o.length + 1
       else o.prototype.ObjectPrototype? || o.prototype.NullPrototype?
  }

  predicate ChildrenUpTo(o: Object, n: nat) {
    if o.isArray then ElementsUpTo(o, n) else n <= |o.keys| && forall i :: 0 <= i < n ==> PlainData(o, o.keys[i])
  }

  lemma ChildrenGrow(o: Object, i: nat)
    requires i < |Children(o, false)| && PlainData(o, Children(o, false)[i]) && ChildrenUpTo(o, i)
    ensures ChildrenUpTo(o, i + 1)
  {
    ChildrenAre(o);
  }

  lemma ShapeUnacceptable(h: Heap, o: Object)
    requires ObjectOk(h, o) && !ShapeOk(o)
    ensures !Acceptable(o)
  {
    if o.isArray && o.prototype.ArrayPrototype? && |o.keys| != o.length {
      ArrayUnacceptable(h, o);
    }
  }

  lemma ShapeAcceptable(h: Heap, o: Object)
    requires ObjectOk(h, o) && ShapeOk(o) && ChildrenUpTo(o, if o.isArray then o.length else |o.keys|)
    ensures Acceptable(o)
  {
    if o.isArray {
      ArrayAcceptable(h, o);
    }
  }

  lemma {:induction false} KeepsAll(o: Object, keys: seq<Key>)
    ensures Kept(o, keys, false) == keys
  {
    if keys != [] {
      KeepsAll(o, keys[..|keys| - 1]);
    }
  }

  lemma ChildrenAre(o: Object)
    ensures Children(o, false) == if o.isArray then Indices(o.length) else o.keys
  {
    KeepsAll(o, o.keys);
  }

  lemma ChildUnacceptable(o: Object, i: nat)
    requires i < |Children(o, false)| && !PlainData(o, Children(o, false)[i])
    ensures !Acceptable(o)
  {
    ChildrenAre(o);
  }

  /** `isJsonValue`: exactly the values that `copyJson` copies without options. */
  method IsJsonValue(h: Heap, value: Value) returns (ok: bool)
    requires Closed(h) && (value.Ref? ==> value.id in h)
    ensures ok <==> IsStrict(h, value, false)
  {
    var checker := new Checker(h);
    ghost var tree;
    ok, tree := checker.Check(value);
    StrictOrNot(h, value, tree, ok, false);
  }

  /** `path` leads from `v` to `w` through own data properties. */
  ghost predicate Leads(h: Heap, v: Value, path: seq<Key>, w: Value)
    decreases |path|
  {
    if path == [] then v == w
    else
      && v.Ref? && v.id in h && path[0] in h[v.id].keys && PlainData(h[v.id], path[0])
      && Leads(h, h[v.id].props[path[0]].value, path[1..], w)
  }

  /** What a strict-JSON value leads to is strict JSON too, and smaller. */
  lemma {:induction false} LeadsToSmaller(h: Heap, v: Value, t: Json, path: seq<Key>, w: Value) returns (s: Json)
    requires Unfolds(h, v, t, {}, false) && Leads(h, v, path, w)
    ensures Unfolds(h, w, s, {}, false) && Objects(s) <= Objects(t) && (path != [] ==> Objects(s) < Objects(t))
    decreases |path|
  {
    s := t;
    if path != [] {
      var i := ChildIndex(h[v.id], path[0]);
      assert UnfoldsAt(h, h[v.id], t, i, {}, false);
      ObjectsUpTo(t.entries, i);
      s := LeadsToSmaller(h, h[v.id].props[path[0]].value, t.entries[i].value, path[1..], w);
    }
  }

  lemma ChildIndex(o: Object, k: Key) returns (i: nat)
    requires Acceptable(o) && k in o.keys
    ensures i < |Children(o, false)| && Children(o, false)[i] == k
  {
    ChildrenAre(o);
    if o.isArray {
      i := k.n;
    } else {
      i :| i < |o.keys| && o.keys[i] == k;
    }
  }

  /** A value that leads back to itself is not strict JSON. */
  lemma CyclesRefused(h: Heap, v: Value, path: seq<Key>, t: Json)
    requires path != [] && v.Ref? && Leads(h, v, path, v)
    ensures !Unfolds(h, v, t, {}, false)
  {
    if Unfolds(h, v, t, {}, false) {
      var s := LeadsToSmaller(h, v, t, path, v);
      UnfoldingUnique(h, v, t, s, {}, {}, false);
    }
  }

  // ----- In plain terms -----

  predicate PlainLeaf(v: Value) {
    v.Null? || v.Bool? || v.Number? || v.Str?
  }

  /** A dense plain array, or a plain object without symbols, with enumerable data under each of its keys. */
  ghost predicate PlainObject(o: Object) {
    && (forall k :: k in o.keys ==> k in o.props && o.props[k].Data? && o.props[k].enumerable)
    && (o.isArray ==>
          && o.prototype == ArrayPrototype && (forall k :: k in o.keys ==> k.Index? && k.n < o.length)
          && forall i :: 0 <= i < o.length ==> Index(i) in o.keys)
    && (!o.isArray ==>
          (o.prototype == ObjectPrototype || o.prototype == NullPrototype) && forall k :: k in o.keys ==> !k.Symbol?)
  }

  /** The property is part of the tree: only an `undefined` one may be left out, and only of an object. */
  ghost predicate Wanted(o: Object, k: Key, omit: bool)
    requires k in o.props && o.props[k].Data?
  {
    o.isArray || !omit || o.props[k].value != Undefined
  }

  ghost predicate HasUnfolding(h: Heap, v: Value, avoid: set<nat>, omit: bool) {
    exists t :: Unfolds(h, v, t, avoid, omit)
  }

  lemma {:induction false} KeptIs(o: Object, keys: seq<Key>, omit: bool, k: Key)
    requires k in o.props && o.props[k].Data? && o.props[k].enumerable && !o.isArray
    ensures k in Kept(o, keys, omit) <==> k in keys && Wanted(o, k, omit)
  {
    if keys != [] {
      KeptIs(o, keys[..|keys| - 1], omit, k);
      assert keys == keys[..|keys| - 1] + [keys[|keys| - 1]];
    }
  }

  /** The entries of an object come in the order of its keys. */
  lemma {:induction false} KeptInOrder(o: Object, keys: seq<Key>, omit: bool, a: nat, b: nat)
    requires Unique(keys) && a < b < |keys| && keys[a] in Kept(o, keys, omit) && keys[b] in Kept(o, keys, omit)
    ensures var kept := Kept(o, keys, omit);
            exists i, j :: 0 <= i < j < |kept| && kept[i] == keys[a] && kept[j] == keys[b]
  {
    KeptPrefix(o, keys, a, omit);
    KeptPrefix(o, keys, b, omit);
    KeptGrows(o, keys[..b], a + 1, omit);
    assert keys[..b][..a + 1] == keys[..a + 1];
    KeptNext(o, keys, a, omit);
  }

  /** What has a tree is a leaf of JSON, or a plain object; its entries are the wanted properties, and have trees. */
  lemma TreeOf(h: Heap, v: Value, t: Json, avoid: set<nat>, omit: bool)
    requires Unfolds(h, v, t, avoid, omit)
    ensures !v.Ref? ==> PlainLeaf(v) && t == Leaf(v)
    ensures v.Ref? ==>
              && v.id in h && v.id !in avoid && PlainObject(h[v.id]) && t.Node?
              && t.kind == (if h[v.id].isArray then ArrayNode
                            else if h[v.id].prototype == NullPrototype then BareNode else ObjectNode)
              && (h[v.id].isArray ==>
                    |t.entries| == h[v.id].length && forall i :: 0 <= i < |t.entries| ==> t.entries[i].key == Index(i))
              && (forall i :: 0 <= i < |t.entries| ==>
                    && t.entries[i].key in h[v.id].keys && Wanted(h[v.id], t.entries[i].key, omit)
                    && Unfolds(h, h[v.id].props[t.entries[i].key].value, t.entries[i].value, avoid, omit))
              && (forall k :: k in h[v.id].keys && Wanted(h[v.id], k, omit) ==>
                    exists i :: 0 <= i < |t.entries| && t.entries[i].key == k)
  {
    if v.Ref? {
      var o := h[v.id];
      forall i | 0 <= i < |t.entries|
        ensures t.entries[i].key == Children(o, omit)[i] && t.entries[i].key in o.keys
        ensures Wanted(o, t.entries[i].key, omit)
        ensures Unfolds(h, o.props[t.entries[i].key].value, t.entries[i].value, avoid, omit)
      {
        assert UnfoldsAt(h, o, t, i, avoid, omit);
      }
      forall k | k in o.keys && Wanted(o, k, omit) ensures exists i :: 0 <= i < |t.entries| && t.entries[i].key == k {
        if o.isArray {
          assert t.entries[k.n].key == k;
        } else {
          KeptIs(o, o.keys, omit, k);
          var i :| 0 <= i < |Children(o, omit)| && Children(o, omit)[i] == k;
          assert t.entries[i].key == k;
        }
      }
    }
  }

  /** The first `n` children have trees. */
  lemma {:induction false} Assembled(h: Heap, o: Object, n: nat, avoid: set<nat>, omit: bool) returns (entries: seq<Entry>)
    requires n <= |Children(o, omit)|
    requires forall k :: k in Children(o, omit) ==> PlainData(o, k) && HasUnfolding(h, o.props[k].value, avoid, omit)
    ensures Found(h, o, entries, avoid, omit) && |entries| == n
  {
    entries := [];
    if n > 0 {
      entries := Assembled(h, o, n - 1, avoid, omit);
      var k := Children(o, omit)[n - 1];
      assert k in Children(o, omit);
      var t :| Unfolds(h, o.props[k].value, t, avoid, omit);
      FoundOne(h, o, entries, k, t, avoid, omit);
      entries := entries + [Entry(k, t)];
    }
  }

  /**
   Conversely, every leaf of JSON has a tree, and so has a plain object that is no ancestor, as soon as its wanted
   properties have.
   */
  lemma HasTree(h: Heap, v: Value, avoid: set<nat>, omit: bool)
    requires Closed(h)
    requires if v.Ref? then v.id in h && v.id !in avoid && PlainObject(h[v.id]) else PlainLeaf(v)
    requires v.Ref? ==>
               forall k :: k in h[v.id].keys && Wanted(h[v.id], k, omit) ==>
                 HasUnfolding(h, h[v.id].props[k].value, avoid + {v.id}, omit)
    ensures HasUnfolding(h, v, avoid, omit)
  {
    if v.Ref? {
      var o, more := h[v.id], avoid + {v.id};
      assert ObjectOk(h, o) && Acceptable(o);
      forall k | k in Children(o, omit) ensures PlainData(o, k) && HasUnfolding(h, o.props[k].value, more, omit) {
        if !o.isArray {
          KeptIs(o, o.keys, omit, k);
        }
      }
      var entries := Assembled(h, o, |Children(o, omit)|, more, omit);
      FoundAll(h, o, entries, more, omit);
      AncestorRemoved(h, v, Node(KindOf(o), entries), avoid, omit);
    } else {
      assert Unfolds(h, v, Leaf(v), avoid, omit);
    }
  }

  /** A strict-JSON tree: array entries under their indices, object entries under different names. */
  ghost predicate JsonTree(t: Json) {
    match t
    case Leaf(x) => PlainLeaf(x)
    case Node(kind, entries) =>
      && (forall i :: 0 <= i < |entries| ==> JsonTree(entries[i].value))
      && if kind.ArrayNode? then forall i :: 0 <= i < |entries| ==> entries[i].key == Index(i)
         else
           && (forall i :: 0 <= i < |entries| ==> !entries[i].key.Symbol?)
           && forall i, j :: 0 <= i < j < |entries| ==> entries[i].key != entries[j].key
  }

  /** Every strict-JSON tree is copied: objects laid out as one unfold to that tree, with or without the option. */
  lemma {:induction false} LaidUnfolds(h: Heap, v: Value, t: Json, lo: nat, avoid: set<nat>, omit: bool)
    requires Laid(h, v, t, lo) && JsonTree(t) && forall r :: r in avoid ==> r < lo
    ensures Unfolds(h, v, t, avoid, omit)
    decreases t
  {
    if t.Node? {
      var o := h[lo];
      forall i | 0 <= i < |t.entries|
        ensures o.keys[i] == t.entries[i].key && PlainData(o, o.keys[i]) && o.props[o.keys[i]].value != Undefined
        ensures Unfolds(h, o.props[o.keys[i]].value, t.entries[i].value, avoid, omit)
      {
        assert LaidAt(h, t.entries, i, lo);
        LaidUnfolds(h, o.props[o.keys[i]].value, t.entries[i].value, lo + 1 + ObjectsIn(t.entries[..i]), avoid, omit);
      }
      LaidChildren(o, t, omit);
      forall i | 0 <= i < |t.entries| ensures UnfoldsAt(h, o, t, i, avoid, omit) {
      }
    }
  }

  lemma LaidChildren(o: Object, t: Json, omit: bool)
    requires t.Node? && JsonTree(t) && Shaped(o, t.kind, |t.entries|) && |o.keys| == |t.entries|
    requires forall i :: 0 <= i < |o.keys| ==>
               o.keys[i] == t.entries[i].key && PlainData(o, o.keys[i]) && o.props[o.keys[i]].value != Undefined
    ensures Children(o, omit) == o.keys && Acceptable(o) && KindOf(o) == t.kind
  {
    KeepsDefined(o, o.keys, omit);
    if o.isArray {
      forall n: nat | n < o.length ensures Index(n) in o.keys {
        assert o.keys[n] == Index(n);
      }
      assert Children(o, omit) == o.keys;
    }
  }

  lemma {:induction false} KeepsDefined(o: Object, keys: seq<Key>, omit: bool)
    requires forall i :: 0 <= i < |keys| ==> PlainData(o, keys[i]) && o.props[keys[i]].value != Undefined
    ensures Kept(o, keys, omit) == keys
  {
    if keys != [] {
      var before, last := keys[..|keys| - 1], keys[|keys| - 1];
      forall i | 0 <= i < |before| ensures PlainData(o, before[i]) && o.props[before[i]].value != Undefined {
        assert before[i] == keys[i];
      }
      KeepsDefined(o, before, omit);
      assert !Omitted(o, last, omit) && keys == before + [last];
    }
  }
}
