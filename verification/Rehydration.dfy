/** Snapshots of agent state (rehydration.py, _safe_serialize and extract_snapshot).

    Values live in a heap of dictionaries, lists and tuples that may share and may be cyclic.
    Serialization follows references with a depth budget and the set of objects on the
    current path.  Whether a placeholder replaces anything is decided exactly: the snapshot
    is the full unfolding if and only if that is a finite tree within the budget. */
module Rehydration {
  import opened Common

  type Ref = nat

  datatype Prim = PNone | PBool(b: bool) | PInt(n: int) | PFloat(r: real) | PStr(s: string)

  datatype Value = Atom(p: Prim) | At(ref: Ref)

  /** Other objects are known by their type name and whether json.dumps accepts them. */
  datatype Cell =
    | DictCell(entries: map<string, Value>)
    | ListCell(items: seq<Value>)
    | TupleCell(items: seq<Value>)
    | Other(typeName: string, dumps: bool)

  type Heap = Ref -> Cell

  /** What serialization yields; the three placeholder strings are constructors of their own. */
  datatype Out =
    | OAtom(p: Prim)
    | ODict(entries: map<string, Out>)
    | OList(items: seq<Out>)
    | OTuple(items: seq<Out>)
    | ORaw(ref: Ref)
    | MaxDepthExceeded(path: string)
    | CircularRef(path: string)
    | NonSerializable(typeName: string, path: string)

  function KeyPath(path: string, k: string): string { path + "." + k }

  function ItemPath(path: string, i: nat): string { path + "[" + Decimal(i) + "]" }

  function Serialize(h: Heap, v: Value, depth: int, seen: set<Ref>, path: string): Out
    decreases if depth <= 0 then 0 else depth, 0
  {
    if depth <= 0 then MaxDepthExceeded(path)
    else if v.Atom? then OAtom(v.p)
    else if v.ref in seen then CircularRef(path)
    else match h(v.ref)
      case DictCell(m) => ODict(map k | k in m :: Serialize(h, m[k], depth - 1, seen + {v.ref}, KeyPath(path, k)))
      case ListCell(items) => OList(SerializeItems(h, items, depth, seen + {v.ref}, path))
      case TupleCell(items) => OTuple(SerializeItems(h, items, depth, seen + {v.ref}, path))
      case Other(t, dumps) => if dumps then ORaw(v.ref) else NonSerializable(t, path)
  }

  function SerializeItems(h: Heap, items: seq<Value>, depth: int, seen: set<Ref>, path: string): (r: seq<Out>)
    requires depth > 0
    ensures |r| == |items|
    decreases depth - 1, 1
  {
    seq(|items|, i requires 0 <= i < |items| => Serialize(h, items[i], depth - 1, seen, ItemPath(path, i)))
  }

  // ---------- The code: one `seen` set, added to and discarded from ----------

  class SeenSet {
    var ids: set<Ref>

    constructor ()
      ensures ids == {}
    {
      ids := {};
    }
  }

  method SafeSerialize(h: Heap, v: Value, maxDepth: int, seen: SeenSet, path: string) returns (out: Out)
    modifies seen
    ensures out == Serialize(h, v, maxDepth, old(seen.ids), path)
    ensures seen.ids == old(seen.ids)
    decreases if maxDepth <= 0 then 0 else maxDepth, 0
  {
    if maxDepth <= 0 {
      return MaxDepthExceeded(path);
    }
    if v.Atom? {
      return OAtom(v.p);
    }
    if v.ref in seen.ids {
      return CircularRef(path);
    }
    match h(v.ref)
    case DictCell(m) =>
      seen.ids := seen.ids + {v.ref};
      var result: map<string, Out> := map[];
      var rest := m.Keys;
      while rest != {}
        invariant rest <= m.Keys && seen.ids == old(seen.ids) + {v.ref}
        invariant result == map k | k in m && k !in rest :: Serialize(h, m[k], maxDepth - 1, seen.ids, KeyPath(path, k))
      {
        var k :| k in rest;
        rest := rest - {k};
        var inner := SafeSerialize(h, m[k], maxDepth - 1, seen, KeyPath(path, k));
        result := result[k := inner];
      }
      seen.ids := seen.ids - {v.ref};
      return ODict(result);
    case ListCell(items) =>
      var result := SerializeElements(h, v.ref, items, maxDepth, seen, path);
      return OList(result);
    case TupleCell(items) =>
      var result := SerializeElements(h, v.ref, items, maxDepth, seen, path);
      return OTuple(result);
    case Other(t, dumps) =>
      return if dumps then ORaw(v.ref) else NonSerializable(t, path);
  }

  /** The part that lists and tuples share. */
  method SerializeElements(h: Heap, ref: Ref, items: seq<Value>, maxDepth: int, seen: SeenSet, path: string)
    returns (result: seq<Out>)
    requires maxDepth > 0 && ref !in seen.ids
    modifies seen
    ensures result == SerializeItems(h, items, maxDepth, old(seen.ids) + {ref}, path)
    ensures seen.ids == old(seen.ids)
    decreases maxDepth - 1, 1
  {
    seen.ids := seen.ids + {ref};
    result := [];
    for i := 0 to |items|
      invariant seen.ids == old(seen.ids) + {ref} && |result| == i
      invariant forall j :: 0 <= j < i ==> result[j] == Serialize(h, items[j], maxDepth - 1, seen.ids, ItemPath(path, j))
    {
      var inner := SafeSerialize(h, items[i], maxDepth - 1, seen, ItemPath(path, i));
      result := result + [inner];
    }
    seen.ids := seen.ids - {ref};
  }

  /** One field at a time, each with a fresh `seen`; a missing attribute is None. */
  method ExtractSnapshot(h: Heap, attributes: map<string, Value>, fields: seq<string>, maxDepth: int)
    returns (snapshot: map<string, Out>)
    ensures snapshot == map f | f in fields ::
      Serialize(h, if f in attributes then attributes[f] else Atom(PNone), maxDepth, {}, f)
  {
    snapshot := map[];
    for i := 0 to |fields|
      invariant snapshot == map f | f in fields[..i] ::
        Serialize(h, if f in attributes then attributes[f] else Atom(PNone), maxDepth, {}, f)
    {
      var val := if fields[i] in attributes then attributes[fields[i]] else Atom(PNone);
      var seen := new SeenSet();
      var safe := SafeSerialize(h, val, maxDepth, seen, fields[i]);
      snapshot := snapshot[fields[i] := safe];
      assert fields[..i + 1] == fields[..i] + [fields[i]];
    }
    assert fields[..|fields|] == fields;
  }

  // ---------- Nesting is bounded ----------

  /** out has at most n levels, leaves and placeholders counting as one. */
  ghost predicate Within(out: Out, n: int)
    decreases out
  {
    && n > 0
    && match out
       case ODict(m) => forall k :: k in m ==> Within(m[k], n - 1)
       case OList(items) => forall i :: 0 <= i < |items| ==> Within(items[i], n - 1)
       case OTuple(items) => forall i :: 0 <= i < |items| ==> Within(items[i], n - 1)
       case _ => true
  }

  lemma {:induction false} NestingIsBounded(h: Heap, v: Value, depth: int, seen: set<Ref>, path: string)
    requires depth >= 0
    ensures Within(Serialize(h, v, depth, seen, path), depth + 1)
    decreases depth, 0
  {
    hide KeyPath, ItemPath;
    if depth > 0 && v.At? && v.ref !in seen {
      var now := seen + {v.ref};
      match h(v.ref)
      case DictCell(m) =>
        forall k | k in m ensures Within(Serialize(h, m[k], depth - 1, now, KeyPath(path, k)), depth) {
          NestingIsBounded(h, m[k], depth - 1, now, KeyPath(path, k));
        }
      case ListCell(items) => ItemNestingIsBounded(h, items, depth, now, path);
      case TupleCell(items) => ItemNestingIsBounded(h, items, depth, now, path);
      case Other(_, _) =>
    }
  }

  lemma {:induction false} ItemNestingIsBounded(h: Heap, items: seq<Value>, depth: int, seen: set<Ref>, path: string)
    requires depth > 0
    ensures forall i :: 0 <= i < |items| ==> Within(SerializeItems(h, items, depth, seen, path)[i], depth)
    decreases depth - 1, 1
  {
    forall i | 0 <= i < |items| ensures Within(SerializeItems(h, items, depth, seen, path)[i], depth) {
      NestingIsBounded(h, items[i], depth - 1, seen, ItemPath(path, i));
      hide Serialize, Within;
    }
  }

  // ---------- What stands at each place of the output ----------

  datatype Step = Key(k: string) | Index(i: nat)

  /** The value one step below a cell. */
  function Child(c: Cell, s: Step): Option<Value> {
    match (c, s)
    case (DictCell(m), Key(k)) => if k in m then Some(m[k]) else None
    case (ListCell(items), Index(i)) => if i < |items| then Some(items[i]) else None
    case (TupleCell(items), Index(i)) => if i < |items| then Some(items[i]) else None
    case _ => None
  }

  function Place(path: string, s: Step): string {
    match s
    case Key(k) => KeyPath(path, k)
    case Index(i) => ItemPath(path, i)
  }

  function OutChild(o: Out, s: Step): Option<Out> {
    match (o, s)
    case (ODict(m), Key(k)) => if k in m then Some(m[k]) else None
    case (OList(items), Index(i)) => if i < |items| then Some(items[i]) else None
    case (OTuple(items), Index(i)) => if i < |items| then Some(items[i]) else None
    case _ => None
  }

  function OutAt(o: Out, steps: seq<Step>): Option<Out>
    decreases steps
  {
    if steps == [] then Some(o)
    else if OutChild(o, steps[0]).None? then None
    else OutAt(OutChild(o, steps[0]).value, steps[1..])
  }

  /** Following steps through the heap without entering any object twice: the value reached,
      the objects entered on the way and the path text.  None where that cannot be done. */
  datatype Walk = Walk(v: Value, entered: set<Ref>, path: string)

  function Follow(h: Heap, w: Walk, steps: seq<Step>): Option<Walk>
    decreases steps
  {
    if steps == [] then Some(w)
    else if w.v.Atom? || w.v.ref in w.entered || Child(h(w.v.ref), steps[0]).None? then None
    else Follow(h, Walk(Child(h(w.v.ref), steps[0]).value, w.entered + {w.v.ref}, Place(w.path, steps[0])), steps[1..])
  }

  /** At each place within the budget stands the serialization of the value reached there, with
      exactly its ancestors marked as seen; outside the budget there is nothing. */
  lemma {:induction false} OutputPlaces(h: Heap, w: Walk, depth: nat, steps: seq<Step>)
    ensures OutAt(Serialize(h, w.v, depth, w.entered, w.path), steps)
      == if |steps| > depth || Follow(h, w, steps).None? then None
         else var r := Follow(h, w, steps).value; Some(Serialize(h, r.v, depth - |steps|, r.entered, r.path))
    decreases steps
  {
    if steps != [] && depth > 0 && w.v.At? && w.v.ref !in w.entered && Child(h(w.v.ref), steps[0]).Some? {
      var next := Walk(Child(h(w.v.ref), steps[0]).value, w.entered + {w.v.ref}, Place(w.path, steps[0]));
      assert OutChild(Serialize(h, w.v, depth, w.entered, w.path), steps[0])
        == Some(Serialize(h, next.v, depth - 1, next.entered, next.path));
      OutputPlaces(h, next, depth - 1, steps[1..]);
    }
  }

  /** A circular placeholder stands exactly where an object is its own ancestor within the
      budget, and a depth placeholder exactly on the budget's edge. */
  lemma PlaceholderPlaces(h: Heap, v: Value, depth: nat, path: string, steps: seq<Step>)
    ensures var o, r := OutAt(Serialize(h, v, depth, {}, path), steps), Follow(h, Walk(v, {}, path), steps);
      && ((o.Some? && o.value.CircularRef?) <==>
            (|steps| < depth && r.Some? && r.value.v.At? && r.value.v.ref in r.value.entered))
      && ((o.Some? && o.value.MaxDepthExceeded?) <==> (|steps| == depth && r.Some?))
  {
    hide OutAt, Follow;
    OutputPlaces(h, Walk(v, {}, path), depth, steps);
  }

  function StepText(s: Step): string {
    match s
    case Key(k) => "." + k
    case Index(i) => "[" + Decimal(i) + "]"
  }

  /** The text of a place below a path: a dot before every key, brackets around every index. */
  function PathText(steps: seq<Step>): string
    decreases steps
  {
    if steps == [] then "" else StepText(steps[0]) + PathText(steps[1..])
  }

  lemma PlaceText(path: string, s: Step)
    ensures Place(path, s) == path + StepText(s)
  {
    if s.Index? {
      TextsJoin(path, "[", Decimal(s.i));
      TextsJoin(path, "[" + Decimal(s.i), "]");
    } else {
      TextsJoin(path, ".", s.k);
    }
  }

  lemma {:induction false} FollowSpellsPath(h: Heap, w: Walk, steps: seq<Step>)
    requires Follow(h, w, steps).Some?
    ensures Follow(h, w, steps).value.path == w.path + PathText(steps)
    decreases steps
  {
    hide StepText, Place, Decimal;
    if steps == [] {
      assert w.path + "" == w.path;
    } else {
      var next := Walk(Child(h(w.v.ref), steps[0]).value, w.entered + {w.v.ref}, Place(w.path, steps[0]));
      assert Follow(h, w, steps) == Follow(h, next, steps[1..]);
      FollowSpellsPath(h, next, steps[1..]);
      PlaceText(w.path, steps[0]);
      var rest := PathText(steps[1..]);
      assert PathText(steps) == StepText(steps[0]) + rest;
      hide Follow, PathText, Child;
      TextsJoin(w.path, StepText(steps[0]), rest);
    }
  }

  lemma TextsJoin(a: string, b: string, c: string)
    ensures (a + b) + c == a + (b + c)
  {
  }

  /** What stands at a place within the budget: the two placeholders and the one for a value that
      cannot be dumped, each naming its path; atoms and dumpable objects as they are; dictionaries,
      lists and tuples as such, with as many entries. */
  lemma PlaceHolds(h: Heap, v: Value, depth: nat, path: string, steps: seq<Step>)
    requires Follow(h, Walk(v, {}, path), steps).Some? && |steps| <= depth
    ensures var o, r, at := OutAt(Serialize(h, v, depth, {}, path), steps), Follow(h, Walk(v, {}, path), steps).value,
                            path + PathText(steps);
      if |steps| == depth then o == Some(MaxDepthExceeded(at))
      else if r.v.Atom? then o == Some(OAtom(r.v.p))
      else if r.v.ref in r.entered then o == Some(CircularRef(at))
      else
        && o.Some?
        && match h(r.v.ref)
           case DictCell(m) => o.value.ODict? && o.value.entries.Keys == m.Keys
           case ListCell(items) => o.value.OList? && |o.value.items| == |items|
           case TupleCell(items) => o.value.OTuple? && |o.value.items| == |items|
           case Other(t, dumps) => o.value == if dumps then ORaw(r.v.ref) else NonSerializable(t, at)
  {
    hide OutAt, Follow, PathText;
    OutputPlaces(h, Walk(v, {}, path), depth, steps);
    FollowSpellsPath(h, Walk(v, {}, path), steps);
  }

  // ---------- Exactly when the snapshot is faithful ----------

  /** t is the full unfolding of v: a finite tree without placeholders. */
  ghost predicate Unfolds(h: Heap, v: Value, t: Out)
    decreases t
  {
    match t
    case OAtom(p) => v == Atom(p)
    case ODict(m) =>
      && v.At? && h(v.ref).DictCell? && m.Keys == h(v.ref).entries.Keys
      && forall k :: k in m ==> Unfolds(h, h(v.ref).entries[k], m[k])
    case OList(items) =>
      && v.At? && h(v.ref).ListCell? && |items| == |h(v.ref).items|
      && forall i :: 0 <= i < |items| ==> Unfolds(h, h(v.ref).items[i], items[i])
    case OTuple(items) =>
      && v.At? && h(v.ref).TupleCell? && |items| == |h(v.ref).items|
      && forall i :: 0 <= i < |items| ==> Unfolds(h, h(v.ref).items[i], items[i])
    case ORaw(r) => v == At(r) && h(r).Other? && h(r).dumps
    case _ => false
  }

  ghost predicate Faithful(out: Out)
    decreases out
  {
    match out
    case OAtom(_) => true
    case ORaw(_) => true
    case ODict(m) => forall k :: k in m ==> Faithful(m[k])
    case OList(items) => forall i :: 0 <= i < |items| ==> Faithful(items[i])
    case OTuple(items) => forall i :: 0 <= i < |items| ==> Faithful(items[i])
    case _ => false
  }

  /** A placeholder-free output is the full unfolding and fits the budget. */
  lemma {:induction false} FaithfulIsUnfolding(h: Heap, v: Value, depth: int, seen: set<Ref>, path: string)
    requires Faithful(Serialize(h, v, depth, seen, path))
    ensures Unfolds(h, v, Serialize(h, v, depth, seen, path))
    ensures Within(Serialize(h, v, depth, seen, path), depth)
    decreases depth, 0
  {
    hide KeyPath, ItemPath;
    if depth > 0 && v.At? {
      var now := seen + {v.ref};
      match h(v.ref)
      case DictCell(m) =>
        forall k | k in m
          ensures var o := Serialize(h, m[k], depth - 1, now, KeyPath(path, k));
            Unfolds(h, m[k], o) && Within(o, depth - 1)
        {
          assert Faithful(Serialize(h, v, depth, seen, path).entries[k]);
          FaithfulIsUnfolding(h, m[k], depth - 1, now, KeyPath(path, k));
        }
      case ListCell(items) => FaithfulItemsUnfold(h, items, depth, now, path);
      case TupleCell(items) => FaithfulItemsUnfold(h, items, depth, now, path);
      case Other(_, _) =>
    }
  }

  lemma {:induction false} FaithfulItemsUnfold(h: Heap, items: seq<Value>, depth: int, seen: set<Ref>, path: string)
    requires depth > 0
    requires forall i :: 0 <= i < |items| ==> Faithful(SerializeItems(h, items, depth, seen, path)[i])
    ensures forall i :: 0 <= i < |items| ==>
      var o := SerializeItems(h, items, depth, seen, path)[i]; Unfolds(h, items[i], o) && Within(o, depth - 1)
    decreases depth - 1, 1
  {
    forall i | 0 <= i < |items|
      ensures var o := SerializeItems(h, items, depth, seen, path)[i]; Unfolds(h, items[i], o) && Within(o, depth - 1)
    {
      assert Faithful(SerializeItems(h, items, depth, seen, path)[i]);
      hide Serialize, Within, Faithful, Unfolds;
      FaithfulIsUnfolding(h, items[i], depth - 1, seen, ItemPath(path, i));
    }
  }

  lemma {:induction false} UnfoldingIsUnique(h: Heap, v: Value, t: Out, t': Out)
    requires Unfolds(h, v, t) && Unfolds(h, v, t')
    ensures t == t'
    decreases t
  {
    match t
    case ODict(m) =>
      forall k | k in m ensures m[k] == t'.entries[k] {
        UnfoldingIsUnique(h, h(v.ref).entries[k], m[k], t'.entries[k]);
      }
    case OList(items) =>
      forall i | 0 <= i < |items| ensures items[i] == t'.items[i] {
        UnfoldingIsUnique(h, h(v.ref).items[i], items[i], t'.items[i]);
      }
    case OTuple(items) =>
      forall i | 0 <= i < |items| ensures items[i] == t'.items[i] {
        UnfoldingIsUnique(h, h(v.ref).items[i], items[i], t'.items[i]);
      }
    case _ =>
  }

  /** Every object on the path has an unfolding that properly contains t. */
  ghost predicate Above(h: Heap, seen: set<Ref>, t: Out) {
    forall r :: r in seen ==> exists u :: Unfolds(h, At(r), u) && t < u
  }

  lemma AboveChild(h: Heap, v: Value, seen: set<Ref>, t: Out, child: Out)
    requires Above(h, seen, t) && v.At? && Unfolds(h, v, t) && child < t
    ensures Above(h, seen + {v.ref}, child)
  {
    forall r | r in seen + {v.ref} ensures exists u :: Unfolds(h, At(r), u) && child < u {
      if r == v.ref {
        assert Unfolds(h, At(r), t) && child < t;
      } else {
        var u :| Unfolds(h, At(r), u) && t < u;
        assert child < u;
      }
    }
  }

  /** Where the full unfolding fits the budget, serialization computes it; in particular no
      object of a finite unfolding is its own ancestor. */
  lemma {:induction false} UnfoldingIsSerialized(h: Heap, v: Value, t: Out, depth: int, seen: set<Ref>, path: string)
    requires Unfolds(h, v, t) && Within(t, depth) && Above(h, seen, t)
    ensures Serialize(h, v, depth, seen, path) == t
    decreases t
  {
    if v.At? {
      hide ItemPath, KeyPath;
      if v.ref in seen {
        var u :| Unfolds(h, At(v.ref), u) && t < u;
        UnfoldingIsUnique(h, v, t, u);
      }
      match t
      case ODict(m) =>
        forall k | k in m
          ensures Serialize(h, h(v.ref).entries[k], depth - 1, seen + {v.ref}, KeyPath(path, k)) == m[k]
        {
          AboveChild(h, v, seen, t, m[k]);
          UnfoldingIsSerialized(h, h(v.ref).entries[k], m[k], depth - 1, seen + {v.ref}, KeyPath(path, k));
        }
      case OList(items) =>
        forall i | 0 <= i < |items|
          ensures Serialize(h, h(v.ref).items[i], depth - 1, seen + {v.ref}, ItemPath(path, i)) == items[i]
        {
          AboveChild(h, v, seen, t, items[i]);
          UnfoldingIsSerialized(h, h(v.ref).items[i], items[i], depth - 1, seen + {v.ref}, ItemPath(path, i));
        }
        assert SerializeItems(h, h(v.ref).items, depth, seen + {v.ref}, path) == items;
      case OTuple(items) =>
        forall i | 0 <= i < |items|
          ensures Serialize(h, h(v.ref).items[i], depth - 1, seen + {v.ref}, ItemPath(path, i)) == items[i]
        {
          AboveChild(h, v, seen, t, items[i]);
          UnfoldingIsSerialized(h, h(v.ref).items[i], items[i], depth - 1, seen + {v.ref}, ItemPath(path, i));
        }
        assert SerializeItems(h, h(v.ref).items, depth, seen + {v.ref}, path) == items;
      case ORaw(_) =>
    }
  }

  lemma {:induction false} UnfoldingsAreFaithful(h: Heap, v: Value, t: Out)
    requires Unfolds(h, v, t)
    ensures Faithful(t)
    decreases t
  {
    match t
    case ODict(m) =>
      forall k | k in m ensures Faithful(m[k]) { UnfoldingsAreFaithful(h, h(v.ref).entries[k], m[k]); }
    case OList(items) =>
      forall i | 0 <= i < |items| ensures Faithful(items[i]) { UnfoldingsAreFaithful(h, h(v.ref).items[i], items[i]); }
    case OTuple(items) =>
      forall i | 0 <= i < |items| ensures Faithful(items[i]) { UnfoldingsAreFaithful(h, h(v.ref).items[i], items[i]); }
    case _ =>
  }

  ghost predicate FitsBudget(h: Heap, v: Value, depth: int) {
    exists t :: Unfolds(h, v, t) && Within(t, depth)
  }

  /** A field is snapshot without placeholders exactly when its value is a finite tree of
      serializable leaves within the budget; the snapshot is then that tree. */
  lemma FaithfulIffFiniteTree(h: Heap, v: Value, depth: int, path: string)
    ensures Faithful(Serialize(h, v, depth, {}, path)) <==> FitsBudget(h, v, depth)
    ensures forall t :: Unfolds(h, v, t) && Within(t, depth) ==> Serialize(h, v, depth, {}, path) == t
  {
    var o := Serialize(h, v, depth, {}, path);
    if Faithful(o) {
      FaithfulIsUnfolding(h, v, depth, {}, path);
    }
    forall t | Unfolds(h, v, t) && Within(t, depth) ensures o == t && Faithful(o) {
      UnfoldingIsSerialized(h, v, t, depth, {}, path);
      UnfoldingsAreFaithful(h, v, t);
    }
  }
}
