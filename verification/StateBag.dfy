/** Change tracking in SmartStateBag and replay of its delta (state_hydrator.py).

    A bag is a dictionary that wraps what it stores, keeps S3 pointers aside until they are
    read, and remembers which keys were set and deleted.  The delta of a bag, merged into the
    original state, gives back what the bag holds exactly when no deleted key is live again
    and no untouched key was changed through a nested dictionary. */
module StateBag {
  import opened Common

  datatype Pointer = Pointer(bucket: string, key: string, sizeBytes: int, checksum: string, fieldName: string, createdAt: real)

  /** A stored value.  Ptr is a dictionary in the form S3Pointer.to_dict writes. */
  datatype Value =
    | Nil
    | Leaf(n: int)
    | List(items: seq<Value>)
    | Dict(fields: map<string, Value>)
    | Ptr(pointer: Pointer)

  /** _wrap: lists lose their None items at every level, dictionaries become bags, pointers stay. */
  function Wrap(v: Value): Value
    decreases v, 0
  {
    match v
    case List(items) => List(WrapItems(items))
    case Dict(m) => Dict(map k | k in m :: Wrap(m[k]))
    case _ => v
  }

  function WrapItems(items: seq<Value>): seq<Value>
    decreases items, 1
  {
    if items == [] then []
    else
      var last := items[|items| - 1];
      WrapItems(items[..|items| - 1]) + if last.Nil? then [] else [Wrap(last)]
  }

  lemma {:induction false} WrapIdempotent(v: Value)
    ensures Wrap(Wrap(v)) == Wrap(v)
    ensures Wrap(v).Nil? <==> v.Nil?
    decreases v, 0
  {
    match v
    case List(items) => WrapItemsIdempotent(items);
    case Dict(m) =>
      forall k | k in m ensures Wrap(Wrap(m[k])) == Wrap(m[k]) { WrapIdempotent(m[k]); }
    case _ =>
  }

  lemma {:induction false} WrapItemsIdempotent(items: seq<Value>)
    ensures WrapItems(WrapItems(items)) == WrapItems(items)
    decreases items, 1
  {
    if items == [] {
    } else {
      var init, last := items[..|items| - 1], items[|items| - 1];
      WrapItemsIdempotent(init);
      if !last.Nil? {
        WrapIdempotent(last);
        var r := WrapItems(init) + [Wrap(last)];
        assert r[|r| - 1] == Wrap(last) && r[..|r| - 1] == WrapItems(init);
      } else {
        assert WrapItems(items) == WrapItems(init);
      }
    }
  }

  const PRESENT: Value -> bool := (v: Value) => !v.Nil?
  const WRAPPED: Value -> Value := (v: Value) => Wrap(v)

  lemma {:induction false} WrapItemsPick(items: seq<Value>)
    ensures Picks(items, PRESENT, WRAPPED, WrapItems(items))
  {
    hide Picks, PicksAt, Wrap;
    if items == [] {
      PicksNothing(PRESENT, WRAPPED);
    } else {
      var init, last := items[..|items| - 1], items[|items| - 1];
      WrapItemsPick(init);
      PicksAppend(init, PRESENT, WRAPPED, WrapItems(init), last);
      assert init + [last] == items;
      assert WrapItems(init) + [] == WrapItems(init);
    }
  }

  /** What wrapping does: lists lose their None items and keep the others, wrapped, in order;
      dictionaries keep their keys, with wrapped values; everything else stays. */
  lemma WrapIs(v: Value)
    ensures match v
      case List(items) => Wrap(v).List? && Picks(items, PRESENT, WRAPPED, Wrap(v).items)
      case Dict(m) => Wrap(v).Dict? && Wrap(v).fields.Keys == m.Keys && forall k :: k in m ==> Wrap(v).fields[k] == Wrap(m[k])
      case _ => Wrap(v) == v
  {
    if v.List? {
      WrapItemsPick(v.items);
      hide Picks;
    }
  }

  type State = map<string, Value>

  /** How a pointer is read back; None when the bag has no hydrator. */
  type Loader = Option<Pointer -> Value>

  // ---------- The bag as a value ----------

  datatype Bag = Bag(data: State, pending: map<string, Pointer>, changed: set<string>, deleted: set<string>) {

    ghost predicate Valid() {
      data.Keys !! pending.Keys && changed !! pending.Keys
    }

    predicate Contains(key: string) {
      key in data || key in pending
    }

    /** to_dict: pending fields appear as pointers. */
    function Contents(): State {
      map k | k in data.Keys + pending.Keys :: if k in pending then Ptr(pending[k]) else data[k]
    }
  }

  function New(initial: State): Bag {
    Bag(map k | k in initial && !initial[k].Ptr? :: Wrap(initial[k]),
        map k | k in initial && initial[k].Ptr? :: initial[k].pointer, {}, {})
  }

  function Set(b: Bag, key: string, v: Value): Bag {
    Bag(b.data[key := Wrap(v)], b.pending - {key}, b.changed + {key}, b.deleted)
  }

  /** A read loads a pending field when there is a hydrator. */
  function Read(load: Loader, b: Bag, key: string): Bag {
    if key in b.pending && load.Some? then
      b.(data := b.data[key := Wrap(load.value(b.pending[key]))], pending := b.pending - {key})
    else b
  }

  /** A delete is recorded even when the key is absent and the deletion raises. */
  function Delete(b: Bag, key: string): Bag {
    Bag(if key in b.pending then b.data else b.data - {key}, b.pending - {key}, b.changed, b.deleted + {key})
  }

  /** `bag[key][inner] = v`: the nested bag changes, the outer one records nothing. */
  function SetInside(load: Loader, b: Bag, key: string, inner: string, v: Value): Bag {
    var r := Read(load, b, key);
    if key in r.data && r.data[key].Dict? then
      r.(data := r.data[key := Dict(r.data[key].fields[inner := Wrap(v)])])
    else r
  }

  datatype Delta = Delta(changedFields: State, deletedFields: set<string>)

  function GetDelta(b: Bag): Delta {
    Delta(map k | k in b.changed && b.Contains(k) :: b.Contents()[k], b.deleted)
  }

  /** merge_delta_into_state for a delta a bag produced (no S3 pointers of its own). */
  function MergeDelta(master: State, d: Delta): State {
    (master + d.changedFields) - d.deletedFields
  }

  // ---------- The code ----------

  class SmartStateBag {
    const load: Loader
    var data: State
    var lazyFields: map<string, Pointer>
    var changedFields: set<string>
    var deletedFields: set<string>

    function Value(): Bag
      reads this
    {
      Bag(data, lazyFields, changedFields, deletedFields)
    }

    constructor (initial: State, load: Loader)
      ensures Value() == New(initial) && this.load == load && Value().Valid()
    {
      hide Wrap;
      var plain: State, pointers: map<string, Pointer> := map[], map[];
      var rest := initial.Keys;
      while rest != {}
        invariant rest <= initial.Keys
        invariant plain == map k | k in initial && k !in rest && !initial[k].Ptr? :: Wrap(initial[k])
        invariant pointers == map k | k in initial && k !in rest && initial[k].Ptr? :: initial[k].pointer
      {
        var key :| key in rest;
        rest := rest - {key};
        match initial[key]
        case Ptr(p) => pointers := pointers[key := p];
        case value => plain := plain[key := Wrap(value)];
      }
      this.load := load;
      data, lazyFields, changedFields, deletedFields := plain, pointers, {}, {};
    }

    method SetItem(key: string, value: Value)
      requires Value().Valid()
      modifies this
      ensures Value() == Set(old(Value()), key, value) && Value().Valid()
    {
      if key !in changedFields {
        changedFields := changedFields + {key};
      }
      if key in lazyFields {
        lazyFields := lazyFields - {key};
      }
      data := data[key := Wrap(value)];
    }

    /** None is the KeyError. */
    method GetItem(key: string) returns (r: Option<Value>)
      requires Value().Valid()
      modifies this`data, this`lazyFields
      ensures Value() == Read(load, old(Value()), key) && Value().Valid()
      ensures r == if Value().Contains(key) then Some(Value().Contents()[key]) else None
    {
      if key in lazyFields {
        var pointer := lazyFields[key];
        if load.None? {
          return Some(Ptr(pointer));
        }
        data := data[key := Wrap(load.value(pointer))];
        lazyFields := lazyFields - {key};
        return Some(data[key]);
      }
      if key in data {
        return Some(data[key]);
      }
      return None;
    }

    /** False is the KeyError of deleting an absent key. */
    method DelItem(key: string) returns (ok: bool)
      requires Value().Valid()
      modifies this
      ensures Value() == Delete(old(Value()), key) && Value().Valid()
      ensures ok == old(Value()).Contains(key)
    {
      deletedFields := deletedFields + {key};
      ok := true;
      if key in lazyFields {
        lazyFields := lazyFields - {key};
      } else if key in data {
        data := data - {key};
      } else {
        ok := false;
      }
    }

    /** Reads every changed field that is still present; none of them is pending. */
    method GetDeltaUpdate() returns (d: Delta)
      requires Value().Valid()
      modifies this`data, this`lazyFields
      ensures d == GetDelta(old(Value())) && Value() == old(Value())
    {
      var fields: State := map[];
      var rest := changedFields;
      while rest != {}
        invariant rest <= changedFields && Value() == old(Value())
        invariant fields == map k | k in changedFields && k !in rest && Value().Contains(k) :: Value().Contents()[k]
      {
        var name :| name in rest;
        rest := rest - {name};
        if name in data || name in lazyFields {
          var v := GetItem(name);
          fields := fields[name := v.value];
        }
      }
      d := Delta(fields, deletedFields);
    }
  }

  /** The three loops of merge_delta_into_state. */
  method MergeDeltaIntoState(master: State, d: Delta) returns (result: State)
    ensures result == MergeDelta(master, d)
  {
    result := master;
    var rest := d.changedFields.Keys;
    while rest != {}
      invariant rest <= d.changedFields.Keys
      invariant result == master + map k | k in d.changedFields && k !in rest :: d.changedFields[k]
    {
      var key :| key in rest;
      result, rest := result[key := d.changedFields[key]], rest - {key};
    }
    rest := d.deletedFields;
    while rest != {}
      invariant rest <= d.deletedFields
      invariant result == (master + d.changedFields) - (d.deletedFields - rest)
    {
      var key :| key in rest;
      result, rest := result - {key}, rest - {key};
    }
  }

  // ---------- Runs ----------

  datatype Op = SetOp(key: string, v: Value) | DelOp(key: string) | GetOp(key: string)
    | InsideOp(key: string, inner: string, v: Value)

  function Step(load: Loader, b: Bag, op: Op): Bag {
    match op
    case SetOp(k, v) => Set(b, k, v)
    case DelOp(k) => Delete(b, k)
    case GetOp(k) => Read(load, b, k)
    case InsideOp(k, inner, v) => SetInside(load, b, k, inner, v)
  }

  function Run(load: Loader, initial: State, ops: seq<Op>): Bag {
    if ops == [] then New(initial) else Step(load, Run(load, initial, ops[..|ops| - 1]), ops[|ops| - 1])
  }

  predicate SetIn(ops: seq<Op>, k: string) {
    ops != [] && ((ops[|ops| - 1].SetOp? && ops[|ops| - 1].key == k) || SetIn(ops[..|ops| - 1], k))
  }

  predicate DeletedIn(ops: seq<Op>, k: string) {
    ops != [] && ((ops[|ops| - 1].DelOp? && ops[|ops| - 1].key == k) || DeletedIn(ops[..|ops| - 1], k))
  }

  predicate NoInside(ops: seq<Op>) {
    ops == [] || (!ops[|ops| - 1].InsideOp? && NoInside(ops[..|ops| - 1]))
  }

  /** The last set or delete of the key is a set, or there is none and the key was there at first. */
  predicate Live(initial: State, ops: seq<Op>, k: string) {
    if ops == [] then k in initial
    else
      var op := ops[|ops| - 1];
      if op.SetOp? && op.key == k then true
      else if op.DelOp? && op.key == k then false
      else Live(initial, ops[..|ops| - 1], k)
  }

  /** A bag's value b stands for the plain value m: wrapped, or loaded if m is a pointer. */
  ghost predicate Presents(load: Loader, m: Value, b: Value) {
    b == Wrap(m) || (m.Ptr? && load.Some? && b == Wrap(load.value(m.pointer)))
  }

  /** The bag is well formed and what it has not loaded yet is an original pointer. */
  ghost predicate LazyOriginals(initial: State, b: Bag) {
    b.Valid() && forall k :: k in b.pending ==> k in initial && initial[k] == Ptr(b.pending[k])
  }

  lemma StepKeepsLazyOriginals(load: Loader, initial: State, b: Bag, op: Op)
    requires LazyOriginals(initial, b)
    ensures LazyOriginals(initial, Step(load, b, op))
  {
    hide Wrap;
  }

  lemma {:induction false} RunIsValid(load: Loader, initial: State, ops: seq<Op>)
    ensures LazyOriginals(initial, Run(load, initial, ops))
  {
    if ops == [] {
    } else {
      hide Step;
      RunIsValid(load, initial, ops[..|ops| - 1]);
      StepKeepsLazyOriginals(load, initial, Run(load, initial, ops[..|ops| - 1]), ops[|ops| - 1]);
    }
  }

  /** What the bookkeeping fields hold after a run, from the run alone. */
  lemma {:induction false} RunTracks(load: Loader, initial: State, ops: seq<Op>, k: string)
    ensures var b := Run(load, initial, ops);
      && (k in b.changed <==> SetIn(ops, k))
      && (k in b.deleted <==> DeletedIn(ops, k))
      && (b.Contains(k) <==> Live(initial, ops, k))
  {
    hide Wrap;
    if ops == [] {
    } else {
      RunIsValid(load, initial, ops[..|ops| - 1]);
      RunTracks(load, initial, ops[..|ops| - 1], k);
    }
  }

  /** Without nested writes, a key never set still presents its original value. */
  lemma {:induction false} UntouchedKeysPresent(load: Loader, initial: State, ops: seq<Op>, k: string)
    requires NoInside(ops) && !SetIn(ops, k) && Run(load, initial, ops).Contains(k)
    ensures k in initial && Presents(load, initial[k], Run(load, initial, ops).Contents()[k])
  {
    if ops == [] {
    } else {
      var init, op := ops[..|ops| - 1], ops[|ops| - 1];
      RunTracks(load, initial, init, k);
      RunIsValid(load, initial, init);
      var b := Run(load, initial, init);
      assert b.Contains(k);
      UntouchedKeysPresent(load, initial, init, k);
    }
  }

  /** Replaying the delta on the original state gives, at key k, what the bag holds. */
  ghost predicate ReplaysAt(load: Loader, initial: State, b: Bag, k: string) {
    var merged := MergeDelta(initial, GetDelta(b));
    && (k in merged <==> b.Contains(k))
    && (k in merged ==> Presents(load, merged[k], b.Contents()[k]))
  }

  ghost predicate Replays(load: Loader, initial: State, b: Bag) {
    forall k :: ReplaysAt(load, initial, b, k)
  }

  ghost predicate Untouched(load: Loader, initial: State, b: Bag, k: string) {
    k in initial && b.Contains(k) ==> Presents(load, initial[k], b.Contents()[k])
  }

  /** No key is set again after its last recorded delete. */
  ghost predicate NoRevival(initial: State, ops: seq<Op>) {
    forall k: string :: DeletedIn(ops, k) ==> !Live(initial, ops, k)
  }

  /** The last value written at an inner key of k through a nested bag. */
  function LastInside(ops: seq<Op>, k: string, inner: string): Option<Value> {
    if ops == [] then None
    else
      var op := ops[|ops| - 1];
      if op.InsideOp? && op.key == k && op.inner == inner then Some(op.v)
      else LastInside(ops[..|ops| - 1], k, inner)
  }

  /** What the bag holds for an original value once it is read. */
  function Origin(load: Loader, m: Value): Value {
    if m.Ptr? && load.Some? then Wrap(load.value(m.pointer)) else Wrap(m)
  }

  /** The nested writes at k repeat, last of all, what the original dictionary holds there. */
  ghost predicate Repeats(load: Loader, ops: seq<Op>, k: string, m: Value) {
    var d := Origin(load, m);
    d.Dict? ==> forall inner :: LastInside(ops, k, inner).Some? ==>
      inner in d.fields && Wrap(LastInside(ops, k, inner).value) == d.fields[inner]
  }

  /** At live keys that were never set, nested writes change nothing. */
  ghost predicate NoNestedChange(load: Loader, initial: State, ops: seq<Op>) {
    forall k: string :: k in initial && Live(initial, ops, k) && !SetIn(ops, k) ==> Repeats(load, ops, k, initial[k])
  }

  /** The dictionary d with the nested writes at k laid over it. */
  ghost predicate Overlaid(ops: seq<Op>, k: string, d: Value, v: Value) {
    if !d.Dict? then v == d
    else v.Dict? && forall inner :: FieldOverlaid(ops, k, inner, d.fields, v.fields)
  }

  predicate FieldOverlaid(ops: seq<Op>, k: string, inner: string, d: State, v: State) {
    match LastInside(ops, k, inner)
    case Some(w) => inner in v && v[inner] == Wrap(w)
    case None => (inner in v <==> inner in d) && (inner in d ==> inner in v && v[inner] == d[inner])
  }

  /** The last set or delete of key k is the set at position i. */
  predicate LastSetAt(ops: seq<Op>, i: nat, k: string) {
    && i < |ops| && ops[i].SetOp? && ops[i].key == k
    && forall j :: i < j < |ops| ==> !(ops[j].SetOp? && ops[j].key == k) && !(ops[j].DelOp? && ops[j].key == k)
  }

  /** A key that was set holds the wrapped value of its last set, with the nested writes made
      since laid over it. */
  lemma {:induction false} SetKeysHold(load: Loader, initial: State, ops: seq<Op>, i: nat, k: string)
    requires LastSetAt(ops, i, k)
    ensures var b := Run(load, initial, ops);
      k in b.data && k !in b.pending && Overlaid(ops[i + 1..], k, Wrap(ops[i].v), b.data[k])
  {
    var n := |ops| - 1;
    var init, op := ops[..n], ops[n];
    RunIsValid(load, initial, ops);
    if i == n {
      UnwrittenIsOverlaid([], k, Wrap(op.v));
      assert ops[i + 1..] == [];
    } else {
      assert init[i] == ops[i] && forall j :: i < j < n ==> init[j] == ops[j];
      SetKeysHold(load, initial, init, i, k);
      RunIsValid(load, initial, init);
      assert ops[i + 1..] == init[i + 1..] + [op];
      OverlaidStep(init[i + 1..], op, k, Wrap(ops[i].v), Run(load, initial, init).data[k]);
      hide Wrap, Overlaid;
    }
  }

  /** What a key that was set holds is what its delta says, and so, unless it was deleted before,
      the merged state. */
  lemma SetReachesMaster(load: Loader, initial: State, ops: seq<Op>, i: nat, k: string)
    requires LastSetAt(ops, i, k)
    ensures var d := GetDelta(Run(load, initial, ops));
      && k in d.changedFields && Overlaid(ops[i + 1..], k, Wrap(ops[i].v), d.changedFields[k])
      && (k in d.deletedFields <==> DeletedIn(ops, k))
      && (!DeletedIn(ops, k) ==> k in MergeDelta(initial, d) && MergeDelta(initial, d)[k] == d.changedFields[k])
  {
    SetKeysHold(load, initial, ops, i, k);
    RunTracks(load, initial, ops, k);
    SetIsRecorded(ops, i, k);
    hide Wrap, Overlaid, Run;
  }

  lemma {:induction false} SetIsRecorded(ops: seq<Op>, i: nat, k: string)
    requires i < |ops| && ops[i].SetOp? && ops[i].key == k
    ensures SetIn(ops, k)
  {
    if i == |ops| - 1 {
    } else {
      SetIsRecorded(ops[..|ops| - 1], i, k);
    }
  }

  /** The delta of a run: the live keys that were set, and the keys that were deleted. */
  lemma DeltaIs(load: Loader, initial: State, ops: seq<Op>, k: string)
    ensures var d := GetDelta(Run(load, initial, ops));
      && (k in d.changedFields <==> SetIn(ops, k) && Live(initial, ops, k))
      && (k in d.changedFields ==> d.changedFields[k] == Run(load, initial, ops).Contents()[k])
      && (k in d.deletedFields <==> DeletedIn(ops, k))
  {
    RunTracks(load, initial, ops, k);
  }

  /** What a key that was never set holds, from the operations alone. */
  ghost predicate HoldsUnset(load: Loader, b: Bag, ops: seq<Op>, k: string, m: Value) {
    if k in b.pending then m == Ptr(b.pending[k]) && (load.Some? ==> forall inner :: LastInside(ops, k, inner) == None)
    else k in b.data && Overlaid(ops, k, Origin(load, m), b.data[k])
  }

  lemma LastInsideAppends(ops: seq<Op>, op: Op, k: string, inner: string)
    ensures LastInside(ops + [op], k, inner)
      == if op.InsideOp? && op.key == k && op.inner == inner then Some(op.v) else LastInside(ops, k, inner)
  {
    assert (ops + [op])[..|ops|] == ops;
  }

  lemma UnwrittenIsOverlaid(ops: seq<Op>, k: string, d: Value)
    requires forall inner :: LastInside(ops, k, inner) == None
    ensures Overlaid(ops, k, d, d)
  {
  }

  /** Other operations keep an overlaid dictionary, a nested write lays one more field over it. */
  lemma OverlaidStep(ops: seq<Op>, op: Op, k: string, d: Value, v: Value)
    requires Overlaid(ops, k, d, v)
    ensures !(op.InsideOp? && op.key == k) ==> Overlaid(ops + [op], k, d, v)
    ensures op.InsideOp? && op.key == k ==>
      Overlaid(ops + [op], k, d, if v.Dict? then Dict(v.fields[op.inner := Wrap(op.v)]) else v)
  {
    hide Wrap;
    var w := if op.InsideOp? && op.key == k && v.Dict? then Dict(v.fields[op.inner := Wrap(op.v)]) else v;
    if d.Dict? {
      forall inner ensures FieldOverlaid(ops + [op], k, inner, d.fields, w.fields) {
        assert FieldOverlaid(ops, k, inner, d.fields, v.fields);
        LastInsideAppends(ops, op, k, inner);
        hide LastInside;
      }
    }
  }

  lemma StepHoldsUnset(load: Loader, b: Bag, ops: seq<Op>, op: Op, k: string, m: Value)
    requires b.Valid() && HoldsUnset(load, b, ops, k, m)
    requires !(op.SetOp? && op.key == k) && !(op.DelOp? && op.key == k)
    ensures HoldsUnset(load, Step(load, b, op), ops + [op], k, m)
  {
    hide Wrap, Overlaid;
    var r := if op.GetOp? || op.InsideOp? then Read(load, b, op.key) else b;
    assert k in r.data ==> Overlaid(ops, k, Origin(load, m), r.data[k]) by {
      if k in b.pending && load.Some? { UnwrittenIsOverlaid(ops, k, Origin(load, m)); }
    }
    if k in r.data { OverlaidStep(ops, op, k, Origin(load, m), r.data[k]); }
    forall inner ensures load.Some? && k in r.pending ==> LastInside(ops + [op], k, inner) == None {
      LastInsideAppends(ops, op, k, inner);
    }
  }

  lemma {:induction false} UnsetKeysHold(load: Loader, initial: State, ops: seq<Op>, k: string)
    requires Live(initial, ops, k) && !SetIn(ops, k)
    ensures k in initial && HoldsUnset(load, Run(load, initial, ops), ops, k, initial[k])
  {
    if ops == [] {
    } else {
      var init, op := ops[..|ops| - 1], ops[|ops| - 1];
      UnsetKeysHold(load, initial, init, k);
      RunIsValid(load, initial, init);
      StepHoldsUnset(load, Run(load, initial, init), init, op, k, initial[k]);
      assert init + [op] == ops;
    }
  }

  lemma OverlaidIsOriginIff(load: Loader, ops: seq<Op>, k: string, m: Value, v: Value)
    requires Overlaid(ops, k, Origin(load, m), v)
    ensures v == Origin(load, m) <==> Repeats(load, ops, k, m)
  {
    hide Wrap;
    var d := Origin(load, m);
    if d.Dict? && Repeats(load, ops, k, m) {
      forall inner ensures (inner in v.fields <==> inner in d.fields)
        && (inner in d.fields ==> v.fields[inner] == d.fields[inner])
      {
        assert FieldOverlaid(ops, k, inner, d.fields, v.fields);
      }
      assert v.fields == d.fields;
    }
    if d.Dict? && v == d {
      forall inner | LastInside(ops, k, inner).Some?
        ensures inner in d.fields && Wrap(LastInside(ops, k, inner).value) == d.fields[inner]
      {
        assert FieldOverlaid(ops, k, inner, d.fields, v.fields);
      }
    }
  }

  /** A live key that was never set stands for its original value exactly when the nested writes
      at it repeat what was there. */
  lemma UntouchedIff(load: Loader, initial: State, ops: seq<Op>, k: string)
    requires Live(initial, ops, k) && !SetIn(ops, k)
    ensures k in initial
    ensures Untouched(load, initial, Run(load, initial, ops), k) <==> Repeats(load, ops, k, initial[k])
  {
    var b := Run(load, initial, ops);
    UnsetKeysHold(load, initial, ops, k);
    RunTracks(load, initial, ops, k);
    RunIsValid(load, initial, ops);
    if k !in b.pending {
      OverlaidIsOriginIff(load, ops, k, initial[k], b.data[k]);
    }
  }

  /** For every run: the delta replays exactly when no deleted key is live at the end and, at live
      keys that were never set, nested writes repeat what was there. */
  lemma DeltaReplaysIff(load: Loader, initial: State, ops: seq<Op>)
    ensures Replays(load, initial, Run(load, initial, ops))
      <==> NoRevival(initial, ops) && NoNestedChange(load, initial, ops)
  {
    hide Run, Wrap, Untouched, ReplaysAt, Repeats;
    var b := Run(load, initial, ops);
    forall k: string
      ensures ReplaysAt(load, initial, b, k) <==>
        (DeletedIn(ops, k) ==> !Live(initial, ops, k))
        && (k in initial && Live(initial, ops, k) && !SetIn(ops, k) ==> Repeats(load, ops, k, initial[k]))
    {
      ReplayAtKey(load, initial, ops, k);
      if !SetIn(ops, k) { UntouchedAtKey(load, initial, ops, k); }
    }
  }

  lemma UntouchedAtKey(load: Loader, initial: State, ops: seq<Op>, k: string)
    requires !SetIn(ops, k)
    ensures Untouched(load, initial, Run(load, initial, ops), k)
      <==> (k in initial && Live(initial, ops, k) ==> Repeats(load, ops, k, initial[k]))
  {
    RunTracks(load, initial, ops, k);
    if Live(initial, ops, k) { UntouchedIff(load, initial, ops, k); }
  }

  lemma ReplayAtKey(load: Loader, initial: State, ops: seq<Op>, k: string)
    ensures var b := Run(load, initial, ops);
      ReplaysAt(load, initial, b, k) <==>
        (DeletedIn(ops, k) ==> !Live(initial, ops, k)) && (!SetIn(ops, k) ==> Untouched(load, initial, b, k))
  {
    var b := Run(load, initial, ops);
    RunTracks(load, initial, ops, k);
    if b.Contains(k) { StoredIsWrapped(load, initial, ops, k); }
    if b.Contains(k) && k !in b.changed { NeverSet(initial, ops, k); }
    if k in initial && k !in b.deleted { NeverDeleted(initial, ops, k); }
    MergedAt(load, initial, b, k);
  }

  lemma MergedAt(load: Loader, initial: State, b: Bag, k: string)
    requires b.Contains(k) ==> Wrap(b.Contents()[k]) == b.Contents()[k]
    requires b.Contains(k) && k !in b.changed ==> k in initial
    requires k in initial && k !in b.deleted ==> b.Contains(k)
    ensures ReplaysAt(load, initial, b, k) <==>
      (k in b.deleted ==> !b.Contains(k)) && (k !in b.changed ==> Untouched(load, initial, b, k))
  {
    hide Wrap;
  }

  lemma {:induction false} NeverSet(initial: State, ops: seq<Op>, k: string)
    requires Live(initial, ops, k) && !SetIn(ops, k)
    ensures k in initial
  {
    if ops == [] {
    } else {
      var init := ops[..|ops| - 1];
      NeverSet(initial, init, k);
    }
  }

  lemma {:induction false} NeverDeleted(initial: State, ops: seq<Op>, k: string)
    requires k in initial && !DeletedIn(ops, k)
    ensures Live(initial, ops, k)
  {
    if ops == [] {
    } else {
      var init := ops[..|ops| - 1];
      NeverDeleted(initial, init, k);
    }
  }

  /** Whatever a bag holds is already wrapped. */
  lemma {:induction false} StoredIsWrapped(load: Loader, initial: State, ops: seq<Op>, k: string)
    requires Run(load, initial, ops).Contains(k)
    ensures Wrap(Run(load, initial, ops).Contents()[k]) == Run(load, initial, ops).Contents()[k]
  {
    var b := Run(load, initial, ops);
    if k in b.data { DataIsWrapped(load, initial, ops, k); }
    RunIsValid(load, initial, ops);
  }

  lemma {:induction false} DataIsWrapped(load: Loader, initial: State, ops: seq<Op>, k: string)
    requires k in Run(load, initial, ops).data
    ensures Wrap(Run(load, initial, ops).data[k]) == Run(load, initial, ops).data[k]
  {
    if ops == [] {
      WrapIdempotent(initial[k]);
    } else {
      var init, op := ops[..|ops| - 1], ops[|ops| - 1];
      var b := Run(load, initial, init);
      if k in b.data { DataIsWrapped(load, initial, init, k); }
      if k in b.pending && load.Some? { WrapIdempotent(load.value(b.pending[k])); }
      if op.SetOp? || op.InsideOp? { WrapIdempotent(op.v); }
      if op.InsideOp? && op.key == k {
        var r := Read(load, b, k);
        if k in r.data && r.data[k].Dict? { WrappedFields(r.data[k], op.inner, Wrap(op.v)); }
      }
    }
  }

  lemma WrappedFields(d: Value, k: string, v: Value)
    requires d.Dict? && Wrap(d) == d && Wrap(v) == v
    ensures Wrap(Dict(d.fields[k := v])) == Dict(d.fields[k := v])
  {
    assert forall j :: j in d.fields ==> Wrap(d).fields[j] == Wrap(d.fields[j]);
  }

  lemma {:induction false} NothingInside(ops: seq<Op>, k: string, inner: string)
    requires NoInside(ops)
    ensures LastInside(ops, k, inner) == None
  {
    if ops == [] {
    } else {
      NothingInside(ops[..|ops| - 1], k, inner);
    }
  }

  /** Without nested writes only a revived key breaks the replay. */
  lemma ReplayIffNoRevival(load: Loader, initial: State, ops: seq<Op>)
    requires NoInside(ops)
    ensures Replays(load, initial, Run(load, initial, ops)) <==> NoRevival(initial, ops)
  {
    DeltaReplaysIff(load, initial, ops);
    forall k: string, inner: string ensures LastInside(ops, k, inner) == None { NothingInside(ops, k, inner); }
  }

  /** The two ways a replay goes wrong, on the smallest bags. */
  lemma RevivedKeyIsLost(load: Loader, k: string, v: Value)
    ensures !Replays(load, map[], Run(load, map[], [DelOp(k), SetOp(k, v)]))
  {
    var ops := [DelOp(k), SetOp(k, v)];
    assert ops[..1] == [DelOp(k)] && DeletedIn(ops[..1], k);
    ReplayAtKey(load, map[], ops, k);
  }

  lemma NestedWriteIsLost(load: Loader, k: string, inner: string, n: int)
    ensures var initial := map[k := Dict(map[])];
      !Replays(load, initial, Run(load, initial, [InsideOp(k, inner, Leaf(n))]))
  {
    var initial, ops := map[k := Dict(map[])], [InsideOp(k, inner, Leaf(n))];
    assert ops[..|ops| - 1] == [];
    assert Run(load, initial, ops[..|ops| - 1]) == New(initial);
    var b := Run(load, initial, ops);
    assert b == Step(load, New(initial), InsideOp(k, inner, Leaf(n)));
    assert b.Contents()[k] == Dict(map[inner := Leaf(n)]);
    assert inner in b.Contents()[k].fields;
    ReplayAtKey(load, initial, ops, k);
  }

  /** A lazy read leaves the delta alone and every key presents what it presented before. */
  lemma ReadIsInvisible(load: Loader, b: Bag, key: string)
    requires b.Valid()
    ensures GetDelta(Read(load, b, key)) == GetDelta(b)
    ensures Read(load, b, key).Contents().Keys == b.Contents().Keys
    ensures forall k :: k in b.Contents() ==>
      var now := Read(load, b, key).Contents()[k];
      now == b.Contents()[k] || (b.Contents()[k].Ptr? && load.Some? && now == Wrap(load.value(b.Contents()[k].pointer)))
  {
    var r := Read(load, b, key);
    assert forall k :: b.Contains(k) <==> r.Contains(k);
    assert forall k :: k in b.changed && b.Contains(k) ==> r.Contents()[k] == b.Contents()[k];
  }
}
