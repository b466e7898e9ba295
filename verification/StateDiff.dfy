/** Checkpoint comparison (checkpoint_service.py, _compute_deep_diff).

    A difference between two nested states is reported under a dotted path.  IsDiff says,
    for arbitrary states, what the three dictionaries hold; Patch reads the dotted paths
    back and applies them.  Applying the difference restores the second state, for all
    states over a set of keys, exactly when those keys are non-empty and free of dots. */
module StateDiff {
  import opened Common

  datatype Change = Change(before: Json, after: Json, typeChanged: bool)

  datatype Diff = Diff(added: map<string, Json>, removed: map<string, Json>, modified: map<string, Change>)

  const NO_DIFF := Diff(map[], map[], map[])

  /** The entries of a dictionary; anything else has no keys. */
  function Fields(v: Json): map<string, Json> {
    if v.Obj? then v.fields else map[]
  }

  /** `type(v).__name__`. */
  function TypeName(v: Json): string {
    match v
    case Null => "NoneType"
    case Bool(_) => "bool"
    case Num(_) => "int"
    case Str(_) => "str"
    case Arr(_) => "list"
    case Obj(_) => "dict"
  }

  function ChangeOf(x: Json, y: Json): Change {
    Change(x, y, TypeName(x) != TypeName(y))
  }

  /** The path of a key below a path; the empty path adds no dot. */
  function Join(path: string, key: string): string {
    if path != "" then path + "." + key else key
  }

  function Render(path: string, keys: seq<string>): string
    decreases keys
  {
    if keys == [] then path else Render(Join(path, keys[0]), keys[1..])
  }

  // ---------- What a difference is, place by place ----------

  datatype Edit = Add(v: Json) | Remove(v: Json) | Modify(c: Change)

  /** Both sides hold a dictionary under k, so the comparison descends. */
  ghost predicate Inner(a: Json, b: Json, k: string) {
    k in Fields(a) && k in Fields(b) && Fields(a)[k].Obj? && Fields(b)[k].Obj?
  }

  /** States a and b differ by edit e at the place ks. */
  ghost predicate EditAt(a: Json, b: Json, ks: seq<string>, e: Edit)
    decreases ks
  {
    && ks != []
    && var k, x, y := ks[0], Fields(a), Fields(b);
       if |ks| > 1 then Inner(a, b, k) && EditAt(x[k], y[k], ks[1..], e)
       else match e
         case Add(v) => k !in x && k in y && v == y[k]
         case Remove(v) => k in x && k !in y && v == x[k]
         case Modify(c) => k in x && k in y && x[k] != y[k] && !Inner(a, b, k) && c == ChangeOf(x[k], y[k])
  }

  ghost predicate Has(d: Diff, p: string, e: Edit) {
    match e
    case Add(v) => p in d.added && d.added[p] == v
    case Remove(v) => p in d.removed && d.removed[p] == v
    case Modify(c) => p in d.modified && d.modified[p] == c
  }

  /** Path p has an entry in the dictionary that edit e belongs to. */
  ghost predicate Listed(d: Diff, p: string, e: Edit) {
    match e
    case Add(_) => p in d.added
    case Remove(_) => p in d.removed
    case Modify(_) => p in d.modified
  }

  ghost predicate Place(a: Json, b: Json, path: string, ks: seq<string>, p: string, e: Edit) {
    Render(path, ks) == p && EditAt(a, b, ks, e)
  }

  /** For the top-level keys in done: each entry is an edit at some place rendered to its path,
      and the path of each edit has an entry. */
  ghost predicate IsDiffOn(d: Diff, a: Json, b: Json, path: string, done: set<string>) {
    && (forall p, e :: Has(d, p, e) ==> exists ks :: Place(a, b, path, ks, p, e) && ks[0] in done)
    && (forall ks, e :: EditAt(a, b, ks, e) && ks[0] in done ==> Listed(d, Render(path, ks), e))
  }

  ghost predicate IsDiff(d: Diff, a: Json, b: Json, path: string) {
    IsDiffOn(d, a, b, path, Fields(a).Keys + Fields(b).Keys)
  }

  lemma {:induction false} NoEditOfEqual(x: Json, ks: seq<string>, e: Edit)
    ensures !EditAt(x, x, ks, e)
    decreases ks
  {
    if |ks| > 1 && Inner(x, x, ks[0]) { NoEditOfEqual(Fields(x)[ks[0]], ks[1..], e); }
  }

  // ---------- The code ----------

  function Put(d: Diff, p: string, e: Edit): Diff {
    match e
    case Add(v) => d.(added := d.added[p := v])
    case Remove(v) => d.(removed := d.removed[p := v])
    case Modify(c) => d.(modified := d.modified[p := c])
  }

  function Update(d: Diff, n: Diff): Diff {
    Diff(d.added + n.added, d.removed + n.removed, d.modified + n.modified)
  }

  lemma PutStep(d: Diff, a: Json, b: Json, path: string, done: set<string>, k: string, e: Edit)
    requires IsDiffOn(d, a, b, path, done) && EditAt(a, b, [k], e) && !Inner(a, b, k)
    ensures IsDiffOn(Put(d, Join(path, k), e), a, b, path, done + {k})
  {
    var d', p' := Put(d, Join(path, k), e), Join(path, k);
    assert Render(path, [k]) == p' by { assert [k][1..] == []; }
    forall p, f | Has(d', p, f) ensures exists ks :: Place(a, b, path, ks, p, f) && ks[0] in done + {k} {
      if Has(d, p, f) {
        var ks :| Place(a, b, path, ks, p, f) && ks[0] in done;
      } else {
        assert p == p' && f == e && Place(a, b, path, [k], p, f);
      }
    }
    forall ks, f | EditAt(a, b, ks, f) && ks[0] in done + {k} ensures Listed(d', Render(path, ks), f) {
      if ks[0] == k { assert |ks| == 1; assert ks == [k]; }
    }
  }

  lemma EqualStep(d: Diff, a: Json, b: Json, path: string, done: set<string>, k: string)
    requires IsDiffOn(d, a, b, path, done)
    requires k in Fields(a) && k in Fields(b) && Fields(a)[k] == Fields(b)[k]
    ensures IsDiffOn(d, a, b, path, done + {k})
  {
    forall ks, f | EditAt(a, b, ks, f) && ks[0] == k ensures false {
      if |ks| > 1 { NoEditOfEqual(Fields(a)[k], ks[1..], f); }
    }
  }

  lemma NestedStep(d: Diff, n: Diff, a: Json, b: Json, path: string, done: set<string>, k: string)
    requires IsDiffOn(d, a, b, path, done) && Inner(a, b, k)
    requires IsDiff(n, Fields(a)[k], Fields(b)[k], Join(path, k))
    ensures IsDiffOn(Update(d, n), a, b, path, done + {k})
  {
    var d', x, y := Update(d, n), Fields(a)[k], Fields(b)[k];
    forall p, f | Has(d', p, f) ensures exists ks :: Place(a, b, path, ks, p, f) && ks[0] in done + {k} {
      if Has(n, p, f) {
        var ks :| Place(x, y, Join(path, k), ks, p, f);
        assert ([k] + ks)[1..] == ks;
        assert Place(a, b, path, [k] + ks, p, f);
      } else {
        assert Has(d, p, f);
        var ks :| Place(a, b, path, ks, p, f) && ks[0] in done;
      }
    }
    forall ks, f | EditAt(a, b, ks, f) && ks[0] in done + {k} ensures Listed(d', Render(path, ks), f) {
      if ks[0] == k {
        assert |ks| > 1;
        assert EditAt(x, y, ks[1..], f) && Render(path, ks) == Render(Join(path, k), ks[1..]);
      } else {
        assert Listed(d, Render(path, ks), f);
      }
    }
  }

  /** The three loops over the key sets, in any order of the keys. */
  method ComputeDeepDiff(a: Json, b: Json, path: string) returns (d: Diff)
    ensures IsDiff(d, a, b, path)
    decreases a
  {
    var keysA, keysB := Fields(a).Keys, Fields(b).Keys;
    d := NO_DIFF;
    ghost var done := {};
    var rest := keysB - keysA;
    while rest != {}
      invariant IsDiffOn(d, a, b, path, done) && done + rest == keysB - keysA
    {
      var key :| key in rest;
      PutStep(d, a, b, path, done, key, Add(b.fields[key]));
      d := d.(added := d.added[Join(path, key) := b.fields[key]]);
      rest, done := rest - {key}, done + {key};
    }
    rest := keysA - keysB;
    while rest != {}
      invariant rest <= keysA - keysB
      invariant IsDiffOn(d, a, b, path, done) && done + rest == keysA + keysB - keysA * keysB
    {
      var key :| key in rest;
      PutStep(d, a, b, path, done, key, Remove(a.fields[key]));
      d := d.(removed := d.removed[Join(path, key) := a.fields[key]]);
      rest, done := rest - {key}, done + {key};
    }
    rest := keysA * keysB;
    while rest != {}
      invariant rest <= keysA * keysB
      invariant IsDiffOn(d, a, b, path, done) && done + rest == keysA + keysB
    {
      var key :| key in rest;
      var x, y := a.fields[key], b.fields[key];
      if x != y {
        if x.Obj? && y.Obj? {
          var nested := ComputeDeepDiff(x, y, Join(path, key));
          NestedStep(d, nested, a, b, path, done, key);
          d := Diff(d.added + nested.added, d.removed + nested.removed, d.modified + nested.modified);
        } else {
          PutStep(d, a, b, path, done, key, Modify(ChangeOf(x, y)));
          d := d.(modified := d.modified[Join(path, key) := Change(x, y, TypeName(x) != TypeName(y))]);
        }
      } else {
        EqualStep(d, a, b, path, done, key);
      }
      rest, done := rest - {key}, done + {key};
    }
  }

  // ---------- Reading dotted paths back ----------

  predicate CleanKey(k: string) {
    k != "" && '.' !in k
  }

  ghost predicate CleanKeys(ks: seq<string>) {
    forall i :: 0 <= i < |ks| ==> CleanKey(ks[i])
  }

  /** Every dictionary of the state, however deep, has its keys in K. */
  ghost predicate Over(v: Json, K: iset<string>) {
    v.Obj? ==> forall k :: k in v.fields ==> k in K && Over(v.fields[k], K)
  }

  ghost const CLEAN: iset<string> := iset k: string | CleanKey(k)

  /** The part of a path dictionary below key k, with the prefix taken off. */
  function Under<V>(m: map<string, V>, k: string): (r: map<string, V>)
    ensures forall q :: q in r <==> k + "." + q in m
    ensures forall q :: q in r ==> r[q] == m[k + "." + q]
  {
    var tails := set p | p in m && k + "." <= p :: p[|k| + 1..];
    assert forall p :: p in m && k + "." <= p ==> p == k + "." + p[|k| + 1..];
    assert forall q :: k + "." + q in m ==> k + "." <= k + "." + q && (k + "." + q)[|k| + 1..] == q;
    map q | q in tails :: m[k + "." + q]
  }

  function Below(d: Diff, k: string): Diff {
    Diff(Under(d.added, k), Under(d.removed, k), Under(d.modified, k))
  }

  /** Apply a difference to a dictionary: dot-free paths here, the others one level down. */
  function Patch(v: Json, d: Diff): Json
    decreases v
  {
    var x := Fields(v);
    Obj(map k | k in x.Keys + (set p | p in d.added && '.' !in p) && k !in d.removed ::
      if k in d.added then d.added[k]
      else if k in d.modified then d.modified[k].after
      else if x[k].Obj? then Patch(x[k], Below(d, k))
      else x[k])
  }

  lemma {:induction false} RenderBelow(path: string, ks: seq<string>)
    requires path != "" && ks != [] && CleanKeys(ks)
    ensures Render(path, ks) == path + "." + Render("", ks)
    decreases ks
  {
    var k, rest := ks[0], ks[1..];
    assert Render(path, ks) == Render(path + "." + k, rest) && Render("", ks) == Render(k, rest);
    if rest == [] {
    } else {
      RenderBelow(path + "." + k, rest);
      RenderBelow(k, rest);
    }
  }

  lemma RenderFirst(ks: seq<string>)
    requires ks != [] && CleanKeys(ks)
    ensures Render("", ks) == if |ks| == 1 then ks[0] else ks[0] + "." + Render("", ks[1..])
  {
    if |ks| > 1 { RenderBelow(ks[0], ks[1..]); }
  }

  lemma HasDot(ks: seq<string>)
    requires ks != [] && CleanKeys(ks)
    ensures '.' in Render("", ks) <==> |ks| > 1
  {
    RenderFirst(ks);
    if |ks| > 1 { assert (ks[0] + "." + Render("", ks[1..]))[|ks[0]|] == '.'; }
  }

  lemma {:induction false} RenderInjective(ks: seq<string>, ks': seq<string>)
    requires ks != [] && ks' != [] && CleanKeys(ks) && CleanKeys(ks')
    requires Render("", ks) == Render("", ks')
    ensures ks == ks'
    decreases ks
  {
    RenderFirst(ks);
    RenderFirst(ks');
    HasDot(ks);
    HasDot(ks');
    if |ks| <= 1 {
    } else {
      FirstMark('.', ks[0], Render("", ks[1..]), ks'[0], Render("", ks'[1..]));
      RenderInjective(ks[1..], ks'[1..]);
    }
  }

  lemma {:induction false} EditsAreClean(a: Json, b: Json, ks: seq<string>, e: Edit)
    requires EditAt(a, b, ks, e) && Over(a, CLEAN) && Over(b, CLEAN)
    ensures CleanKeys(ks)
    decreases ks
  {
    if |ks| <= 1 {
    } else {
      EditsAreClean(Fields(a)[ks[0]], Fields(b)[ks[0]], ks[1..], e);
    }
    assert ks == [ks[0]] + ks[1..];
  }

  ghost predicate Clean(a: Json, b: Json) {
    Over(a, CLEAN) && Over(b, CLEAN)
  }

  lemma EntryIsEdit(d: Diff, a: Json, b: Json, ks: seq<string>, e: Edit)
    requires Clean(a, b) && IsDiff(d, a, b, "") && ks != [] && CleanKeys(ks) && Has(d, Render("", ks), e)
    ensures EditAt(a, b, ks, e)
  {
    var ks' :| Place(a, b, "", ks', Render("", ks), e);
    EditsAreClean(a, b, ks', e);
    RenderInjective(ks, ks');
  }

  function Entry(d: Diff, p: string, e: Edit): Edit
    requires Listed(d, p, e)
  {
    match e
    case Add(_) => Add(d.added[p])
    case Remove(_) => Remove(d.removed[p])
    case Modify(_) => Modify(d.modified[p])
  }

  /** With clean keys the entries of a difference are exactly the edits, place by place. */
  lemma EntriesAreEdits(d: Diff, a: Json, b: Json, ks: seq<string>, e: Edit)
    requires Clean(a, b) && IsDiff(d, a, b, "") && ks != [] && CleanKeys(ks)
    ensures Has(d, Render("", ks), e) <==> EditAt(a, b, ks, e)
  {
    var p := Render("", ks);
    if Has(d, p, e) {
      EntryIsEdit(d, a, b, ks, e);
    }
    if EditAt(a, b, ks, e) {
      assert Listed(d, p, e);
      var f := Entry(d, p, e);
      hide Render, EditAt;
      assert Has(d, p, f);
      EntryIsEdit(d, a, b, ks, f);
      assert ks + [] == ks;
      OneEditAPlace(a, b, ks, [], e, f);
    }
  }

  /** No place has two edits, nor an edit with another edit below it; this holds for any keys. */
  lemma {:induction false} OneEditAPlace(a: Json, b: Json, ks: seq<string>, more: seq<string>, e: Edit, f: Edit)
    requires EditAt(a, b, ks, e) && EditAt(a, b, ks + more, f)
    ensures more == [] && e == f
    decreases ks
  {
    if |ks| > 1 {
      assert (ks + more)[1..] == ks[1..] + more;
      OneEditAPlace(Fields(a)[ks[0]], Fields(b)[ks[0]], ks[1..], more, e, f);
    } else if more == [] {
      assert ks + more == ks;
    }
  }

  lemma PlaceOfBelow(d: Diff, a: Json, b: Json, k: string, p: string, e: Edit) returns (ks: seq<string>)
    requires Clean(a, b) && IsDiff(d, a, b, "") && Inner(a, b, k) && CleanKey(k)
    requires Has(d, k + "." + p, e)
    ensures Place(Fields(a)[k], Fields(b)[k], "", ks, p, e)
  {
    var ks' :| Place(a, b, "", ks', k + "." + p, e);
    EditsAreClean(a, b, ks', e);
    RenderFirst(ks');
    HasDot(ks');
    assert (k + "." + p)[|k|] == '.';
    FirstMark('.', k, p, ks'[0], Render("", ks'[1..]));
    ks := ks'[1..];
  }

  lemma BelowIsDiff(d: Diff, a: Json, b: Json, k: string)
    requires Clean(a, b) && IsDiff(d, a, b, "") && Inner(a, b, k)
    ensures IsDiff(Below(d, k), Fields(a)[k], Fields(b)[k], "")
  {
    hide Render;
    assert CleanKey(k);
    var n, x, y := Below(d, k), Fields(a)[k], Fields(b)[k];
    forall p, e | Has(n, p, e)
      ensures exists ks :: Place(x, y, "", ks, p, e) && ks[0] in Fields(x).Keys + Fields(y).Keys
    {
      var ks := PlaceOfBelow(d, a, b, k, p, e);
    }
    forall ks, e | EditAt(x, y, ks, e) ensures Listed(n, Render("", ks), e) {
      assert ([k] + ks)[1..] == ks;
      assert EditAt(a, b, [k] + ks, e);
      EditsAreClean(a, b, [k] + ks, e);
      RenderFirst([k] + ks);
      assert Listed(d, k + "." + Render("", ks), e);
    }
  }

  /** Applying the difference of two states to the first gives the second. */
  lemma {:induction false} PatchRestores(d: Diff, a: Json, b: Json)
    requires a.Obj? && b.Obj? && Clean(a, b) && IsDiff(d, a, b, "")
    ensures Patch(a, d) == b
    decreases a
  {
    var x, y, r := a.fields, b.fields, Patch(a, d).fields;
    forall k | CleanKey(k)
      ensures k in d.added <==> k in y && k !in x
      ensures k in d.removed <==> k in x && k !in y
      ensures k in d.modified <==> k in x && k in y && x[k] != y[k] && !Inner(a, b, k)
      ensures k in d.added ==> d.added[k] == y[k]
      ensures k in d.modified ==> d.modified[k].after == y[k]
    {
      EntryAtTop(d, a, b, k);
    }
    assert forall p :: p in d.added && '.' !in p ==> CleanKey(p) by {
      forall p | p in d.added && '.' !in p ensures CleanKey(p) {
        assert Has(d, p, Add(d.added[p]));
        var ks :| Place(a, b, "", ks, p, Add(d.added[p]));
        EditsAreClean(a, b, ks, Add(d.added[p]));
        HasDot(ks);
        RenderFirst(ks);
      }
    }
    assert r.Keys == y.Keys;
    forall k | k in y ensures r[k] == y[k] {
      if k in x && k !in d.modified && x[k].Obj? {
        BelowIsDiff(d, a, b, k);
        PatchRestores(Below(d, k), x[k], y[k]);
      }
    }
  }

  lemma EntryAtTop(d: Diff, a: Json, b: Json, k: string)
    requires a.Obj? && b.Obj? && Clean(a, b) && IsDiff(d, a, b, "") && CleanKey(k)
    ensures var x, y := a.fields, b.fields;
      && (k in d.added <==> k in y && k !in x)
      && (k in d.removed <==> k in x && k !in y)
      && (k in d.modified <==> k in x && k in y && x[k] != y[k] && !Inner(a, b, k))
      && (k in d.added ==> d.added[k] == y[k])
      && (k in d.modified ==> d.modified[k].after == y[k])
  {
    var x, y := a.fields, b.fields;
    RenderFirst([k]);
    if k in d.added { EntriesAreEdits(d, a, b, [k], Add(d.added[k])); }
    if k in d.removed { EntriesAreEdits(d, a, b, [k], Remove(d.removed[k])); }
    if k in d.modified { EntriesAreEdits(d, a, b, [k], Modify(d.modified[k])); }
    if k in y && k !in x { EntriesAreEdits(d, a, b, [k], Add(y[k])); }
    if k in x && k !in y { EntriesAreEdits(d, a, b, [k], Remove(x[k])); }
    if k in x && k in y && x[k] != y[k] && !Inner(a, b, k) {
      EntriesAreEdits(d, a, b, [k], Modify(ChangeOf(x[k], y[k])));
    }
  }

  // ---------- The shape of a difference ----------

  ghost predicate Reported(d: Diff, p: string) {
    p in d.added || p in d.removed || p in d.modified
  }

  lemma ReportedPlace(d: Diff, a: Json, b: Json, p: string) returns (ks: seq<string>, e: Edit)
    requires Clean(a, b) && IsDiff(d, a, b, "") && Reported(d, p)
    ensures EditAt(a, b, ks, e) && CleanKeys(ks) && Render("", ks) == p && Has(d, p, e)
    ensures p in d.added ==> e.Add?
    ensures p !in d.added && p in d.removed ==> e.Remove?
  {
    e := if p in d.added then Add(d.added[p]) else if p in d.removed then Remove(d.removed[p]) else Modify(d.modified[p]);
    assert Has(d, p, e);
    ks :| Place(a, b, "", ks, p, e);
    EditsAreClean(a, b, ks, e);
  }

  lemma {:induction false} PlaceBelow(ks: seq<string>, p: string, q: string, ks': seq<string>)
    requires ks != [] && ks' != [] && CleanKeys(ks) && CleanKeys(ks')
    requires p == Render("", ks) && Render("", ks') == p + "." + q
    ensures ks <= ks'
    decreases ks
  {
    RenderFirst(ks);
    RenderFirst(ks');
    HasDot(ks');
    assert (p + "." + q)[|p|] == '.';
    if |ks| == 1 {
      FirstMark('.', p, q, ks'[0], Render("", ks'[1..]));
    } else {
      var r := Render("", ks[1..]);
      assert p + "." + q == ks[0] + "." + (r + "." + q);
      FirstMark('.', ks[0], r + "." + q, ks'[0], Render("", ks'[1..]));
      PlaceBelow(ks[1..], r, q, ks'[1..]);
    }
  }

  /** The three dictionaries are disjoint and no reported path lies below another. */
  lemma DisjointAndPrefixFree(d: Diff, a: Json, b: Json)
    requires Clean(a, b) && IsDiff(d, a, b, "")
    ensures d.added.Keys !! d.removed.Keys !! d.modified.Keys
    ensures forall p, q :: Reported(d, p) ==> !Reported(d, p + "." + q)
  {
    forall p, e, f | Has(d, p, e) && Has(d, p, f) ensures e == f {
      assert Reported(d, p);
      var ks, g := ReportedPlace(d, a, b, p);
      EntriesAreEdits(d, a, b, ks, e);
      EntriesAreEdits(d, a, b, ks, f);
      assert ks + [] == ks;
      OneEditAPlace(a, b, ks, [], e, f);
    }
    forall p | Reported(d, p) ensures !(p in d.added && p in d.removed)
      && !(p in d.added && p in d.modified) && !(p in d.removed && p in d.modified)
    {
      if p in d.added { assert Has(d, p, Add(d.added[p])); }
      if p in d.removed { assert Has(d, p, Remove(d.removed[p])); }
      if p in d.modified { assert Has(d, p, Modify(d.modified[p])); }
    }
    forall p, q | Reported(d, p) ensures !Reported(d, p + "." + q) {
      NothingBelow(d, a, b, p, q);
    }
  }

  lemma NothingBelow(d: Diff, a: Json, b: Json, p: string, q: string)
    requires Clean(a, b) && IsDiff(d, a, b, "") && Reported(d, p)
    ensures !Reported(d, p + "." + q)
  {
    if Reported(d, p + "." + q) {
      var ks, e := ReportedPlace(d, a, b, p);
      var ks', f := ReportedPlace(d, a, b, p + "." + q);
      PlaceBelow(ks, p, q, ks');
      assert ks' == ks + ks'[|ks|..] && ks == ks + [];
      OneEditAPlace(a, b, ks, ks'[|ks|..], e, f);
    }
  }

  function Reverse(c: Change): Change {
    Change(c.after, c.before, c.typeChanged)
  }

  function Swap(d: Diff): Diff {
    Diff(d.removed, d.added, map p | p in d.modified :: Reverse(d.modified[p]))
  }

  function SwapEdit(e: Edit): Edit {
    match e
    case Add(v) => Remove(v)
    case Remove(v) => Add(v)
    case Modify(c) => Modify(Reverse(c))
  }

  lemma {:induction false} SwapEditAt(a: Json, b: Json, ks: seq<string>, e: Edit)
    requires EditAt(a, b, ks, e)
    ensures EditAt(b, a, ks, SwapEdit(e))
    decreases ks
  {
    if |ks| <= 1 {
    } else {
      SwapEditAt(Fields(a)[ks[0]], Fields(b)[ks[0]], ks[1..], e);
    }
  }

  /** Comparing the other way round swaps added with removed and before with after. */
  lemma SwapIsDiff(d: Diff, a: Json, b: Json, path: string)
    requires IsDiff(d, a, b, path)
    ensures IsDiff(Swap(d), b, a, path)
  {
    forall p, e | Has(Swap(d), p, e)
      ensures exists ks :: Place(b, a, path, ks, p, e) && ks[0] in Fields(a).Keys + Fields(b).Keys
    {
      assert Has(d, p, SwapEdit(e));
      var ks :| Place(a, b, path, ks, p, SwapEdit(e));
      SwapEditAt(a, b, ks, SwapEdit(e));
      assert Place(b, a, path, ks, p, e);
    }
    forall ks, e | EditAt(b, a, ks, e) ensures Listed(Swap(d), Render(path, ks), e) {
      SwapEditAt(b, a, ks, e);
      assert Listed(d, Render(path, ks), SwapEdit(e));
    }
  }

  /** With clean keys the difference does not depend on the order the keys are visited in. */
  lemma DiffIsUnique(d: Diff, d': Diff, a: Json, b: Json)
    requires Clean(a, b) && IsDiff(d, a, b, "") && IsDiff(d', a, b, "")
    ensures d == d'
  {
    Contained(d, d', a, b);
    Contained(d', d, a, b);
    assert d.added == d'.added && d.removed == d'.removed && d.modified == d'.modified;
  }

  lemma Contained(d: Diff, d': Diff, a: Json, b: Json)
    requires Clean(a, b) && IsDiff(d, a, b, "") && IsDiff(d', a, b, "")
    ensures forall p :: p in d.added ==> p in d'.added && d'.added[p] == d.added[p]
    ensures forall p :: p in d.removed ==> p in d'.removed && d'.removed[p] == d.removed[p]
    ensures forall p :: p in d.modified ==> p in d'.modified && d'.modified[p] == d.modified[p]
  {
    hide IsDiff, Clean;
    forall p | p in d.added ensures p in d'.added && d'.added[p] == d.added[p] {
      Transfer(d, d', a, b, p, Add(d.added[p]));
    }
    forall p | p in d.removed ensures p in d'.removed && d'.removed[p] == d.removed[p] {
      Transfer(d, d', a, b, p, Remove(d.removed[p]));
    }
    forall p | p in d.modified ensures p in d'.modified && d'.modified[p] == d.modified[p] {
      Transfer(d, d', a, b, p, Modify(d.modified[p]));
    }
  }

  lemma Transfer(d: Diff, d': Diff, a: Json, b: Json, p: string, e: Edit)
    requires Clean(a, b) && IsDiff(d, a, b, "") && IsDiff(d', a, b, "") && Has(d, p, e)
    ensures Has(d', p, e)
  {
    var ks :| Place(a, b, "", ks, p, e);
    EditsAreClean(a, b, ks, e);
    EntriesAreEdits(d', a, b, ks, e);
  }

  // ---------- Exactly when the round trip holds ----------

  ghost predicate RoundTrips(K: iset<string>) {
    forall a: Json, b: Json, d: Diff :: a.Obj? && b.Obj? && Over(a, K) && Over(b, K) && IsDiff(d, a, b, "") ==> Patch(a, d) == b
  }

  lemma {:induction false} OverMore(v: Json, K: iset<string>, L: iset<string>)
    requires Over(v, K) && K <= L
    ensures Over(v, L)
    decreases v
  {
    if v.Obj? {
      forall k | k in v.fields ensures Over(v.fields[k], L) { OverMore(v.fields[k], K, L); }
    }
  }

  /** A state with an unclean key for which the patched state is not the second state. */
  lemma UncleanKeyBreaksRoundTrip(k: string) returns (a: Json, b: Json, d: Diff)
    requires !CleanKey(k)
    ensures a.Obj? && b.Obj? && Over(a, iset{k}) && Over(b, iset{k}) && IsDiff(d, a, b, "") && Patch(a, d) != b
  {
    if k == "" {
      a, b := Obj(map["" := Obj(map[])]), Obj(map["" := Obj(map["" := Null])]);
      d := NO_DIFF.(added := map["" := Null]);
      assert [""][1..] == [] && ["", ""][1..] == [""];
      assert Render("", [""]) == "" && Render("", ["", ""]) == "";
      assert EditAt(Obj(map[]), Obj(map["" := Null]), [""], Add(Null));
      assert Place(a, b, "", ["", ""], "", Add(Null));
      forall ks, e | EditAt(a, b, ks, e) ensures Listed(d, Render("", ks), e) {
        assert |ks| > 1 && ks[0] == "";
        assert EditAt(Obj(map[]), Obj(map["" := Null]), ks[1..], e);
        assert |ks[1..]| == 1 && ks[1..][0] == "";
        assert ks == ["", ""];
      }
      assert Patch(a, d).fields[""] == Null;
    } else {
      a, b := Obj(map[]), Obj(map[k := Null]);
      d := NO_DIFF.(added := map[k := Null]);
      assert [k][1..] == [] && Render("", [k]) == k;
      assert Place(a, b, "", [k], k, Add(Null));
      forall ks, e | EditAt(a, b, ks, e) ensures Listed(d, Render("", ks), e) {
        assert ks == [k];
      }
      assert k !in Patch(a, d).fields;
    }
  }

  /** Over a set of keys every pair of states round-trips exactly when all keys are clean. */
  lemma RoundTripIffCleanKeys(K: iset<string>)
    ensures RoundTrips(K) <==> forall k :: k in K ==> CleanKey(k)
  {
    if forall k :: k in K ==> CleanKey(k) {
      forall a: Json, b: Json, d: Diff | a.Obj? && b.Obj? && Over(a, K) && Over(b, K) && IsDiff(d, a, b, "")
        ensures Patch(a, d) == b
      {
        OverMore(a, K, CLEAN);
        OverMore(b, K, CLEAN);
        PatchRestores(d, a, b);
      }
    } else {
      var k :| k in K && !CleanKey(k);
      var a, b, d := UncleanKeyBreaksRoundTrip(k);
      OverMore(a, iset{k}, K);
      OverMore(b, iset{k}, K);
    }
  }

  // ---------- Exactly when a difference determines the second state ----------

  ghost predicate KeysIn(ks: seq<string>, K: iset<string>) {
    forall i :: 0 <= i < |ks| ==> ks[i] in K
  }

  /** Two places, neither on the way to the other, that are rendered alike. */
  ghost predicate Clash(ks: seq<string>, ks': seq<string>) {
    ks != [] && ks' != [] && !(ks <= ks') && !(ks' <= ks) && Render("", ks) == Render("", ks')
  }

  ghost predicate NoClash(K: iset<string>) {
    forall ks, ks' :: KeysIn(ks, K) && KeysIn(ks', K) ==> !Clash(ks, ks')
  }

  /** The first state and a difference leave only one second state. */
  ghost predicate Determines(K: iset<string>) {
    forall a: Json, b: Json, b': Json, d: Diff ::
      a.Obj? && b.Obj? && b'.Obj? && Over(a, K) && Over(b, K) && Over(b', K) && IsDiff(d, a, b, "") && IsDiff(d, a, b', "")
      ==> b == b'
  }

  lemma {:induction false} EditsAreOver(a: Json, b: Json, ks: seq<string>, e: Edit, K: iset<string>)
    requires EditAt(a, b, ks, e) && Over(a, K) && Over(b, K)
    ensures KeysIn(ks, K)
    decreases ks
  {
    if |ks| == 1 {
    } else {
      EditsAreOver(Fields(a)[ks[0]], Fields(b)[ks[0]], ks[1..], e, K);
    }
    assert ks == [ks[0]] + ks[1..];
  }

  /** What state a holds at a place. */
  ghost function Held(a: Json, ks: seq<string>): Option<Json>
    decreases ks
  {
    if ks == [] then Some(a)
    else if ks[0] in Fields(a) then Held(Fields(a)[ks[0]], ks[1..])
    else None
  }

  lemma {:induction false} HeldBelow(a: Json, ks: seq<string>, more: seq<string>)
    ensures Held(a, ks + more) == if Held(a, ks).Some? then Held(Held(a, ks).value, more) else None
    ensures more != [] && Held(a, ks + more).Some? ==> Held(a, ks + more).value < Held(a, ks).value
    decreases |ks| + |more|
  {
    if ks == [] {
      assert ks + more == more;
      if more != [] && more[0] in Fields(a) {
        HeldBelow(Fields(a)[more[0]], [], more[1..]);
        assert [] + more[1..] == more[1..];
      }
    } else {
      assert (ks + more)[0] == ks[0] && (ks + more)[1..] == ks[1..] + more;
      if ks[0] in Fields(a) { HeldBelow(Fields(a)[ks[0]], ks[1..], more); }
    }
  }

  ghost predicate SameKind(x: Json, y: Json) {
    && (x.Null? <==> y.Null?) && (x.Bool? <==> y.Bool?) && (x.Num? <==> y.Num?)
    && (x.Str? <==> y.Str?) && (x.Arr? <==> y.Arr?) && (x.Obj? <==> y.Obj?)
  }

  lemma TypeNameIsKind(x: Json, y: Json)
    ensures TypeName(x) == TypeName(y) <==> SameKind(x, y)
  {
    assert "NoneType"[0] == 'N' && "bool"[0] == 'b' && "int"[0] == 'i' && "str"[0] == 's' && "list"[0] == 'l' && "dict"[0] == 'd';
  }

  /** What the two states hold at the place of an edit. */
  ghost predicate Says(e: Edit, x: Option<Json>, y: Option<Json>) {
    match e
    case Add(v) => x == None && y == Some(v)
    case Remove(v) => x == Some(v) && y == None
    case Modify(c) =>
      x == Some(c.before) && y == Some(c.after) && c.before != c.after && (c.typeChanged <==> !SameKind(c.before, c.after))
  }

  /** An edit says what both states hold at its place, and its place lies in dictionaries. */
  lemma {:induction false} EditHolds(a: Json, b: Json, ks: seq<string>, e: Edit)
    requires EditAt(a, b, ks, e)
    ensures Says(e, Held(a, ks), Held(b, ks))
    ensures forall n :: 0 <= n < |ks| ==> Held(a, ks[..n]).Some?
    decreases ks
  {
    if |ks| == 1 {
      assert ks[1..] == [];
      assert forall n :: 0 <= n < |ks| ==> ks[..n] == [];
      if e.Modify? { TypeNameIsKind(e.c.before, e.c.after); }
    } else {
      EditHolds(Fields(a)[ks[0]], Fields(b)[ks[0]], ks[1..], e);
      forall n | 0 <= n < |ks| ensures Held(a, ks[..n]).Some? {
        if n > 0 { assert ks[..n][0] == ks[0] && ks[..n][1..] == ks[1..][..n - 1]; }
      }
    }
  }

  /** Every entry of a difference says what both states hold at some place of its path: added and
      removed values, the value before and after a change, and whether the type changed. */
  lemma EntrySays(d: Diff, a: Json, b: Json, path: string, p: string, e: Edit)
    requires IsDiff(d, a, b, path) && Has(d, p, e)
    ensures exists ks :: Render(path, ks) == p && Says(e, Held(a, ks), Held(b, ks))
  {
    var ks :| Place(a, b, path, ks, p, e);
    EditHolds(a, b, ks, e);
  }

  /** One edit at two places, one below the other, of two comparisons with the same first state. */
  lemma SamePlace(a: Json, b: Json, b': Json, ks: seq<string>, ks': seq<string>, e: Edit)
    requires EditAt(a, b, ks, e) && EditAt(a, b', ks', e) && ks <= ks'
    ensures ks == ks'
  {
    if ks != ks' {
      EditHolds(a, b, ks, e);
      EditHolds(a, b', ks', e);
      var more := ks'[|ks|..];
      assert ks' == ks + more && ks'[..|ks|] == ks;
      HeldBelow(a, ks, more);
    }
  }

  /** Without clashes every edit is found in the difference, and nothing else. */
  lemma EntryOfEdit(d: Diff, a: Json, b: Json, ks: seq<string>, e: Edit, K: iset<string>)
    requires NoClash(K) && Over(a, K) && Over(b, K) && IsDiff(d, a, b, "") && EditAt(a, b, ks, e)
    ensures Has(d, Render("", ks), e)
  {
    var p := Render("", ks);
    assert Listed(d, p, e);
    var f := Entry(d, p, e);
    assert Has(d, p, f);
    var ks' :| Place(a, b, "", ks', p, f);
    EditsAreOver(a, b, ks, e, K);
    EditsAreOver(a, b, ks', f, K);
    assert !Clash(ks, ks');
    if ks <= ks' {
      assert ks' == ks + ks'[|ks|..];
      OneEditAPlace(a, b, ks, ks'[|ks|..], e, f);
    } else {
      assert ks == ks' + ks[|ks'|..];
      OneEditAPlace(a, b, ks', ks[|ks'|..], f, e);
    }
  }

  lemma SameEdits(d: Diff, a: Json, b: Json, b': Json, ks: seq<string>, e: Edit, K: iset<string>)
    requires NoClash(K) && Over(a, K) && Over(b, K) && Over(b', K)
    requires IsDiff(d, a, b, "") && IsDiff(d, a, b', "") && EditAt(a, b, ks, e)
    ensures EditAt(a, b', ks, e)
  {
    EntryOfEdit(d, a, b, ks, e, K);
    var ks' :| Place(a, b', "", ks', Render("", ks), e);
    EditsAreOver(a, b, ks, e, K);
    EditsAreOver(a, b', ks', e, K);
    assert !Clash(ks, ks');
    if ks <= ks' { SamePlace(a, b, b', ks, ks', e); } else { SamePlace(a, b', b, ks', ks, e); }
  }

  /** The edits of a comparison determine the second state. */
  lemma {:induction false} EditsDetermine(a: Json, b: Json, b': Json)
    requires a.Obj? && b.Obj? && b'.Obj?
    requires forall ks, e :: EditAt(a, b, ks, e) <==> EditAt(a, b', ks, e)
    ensures b == b'
    decreases a
  {
    var x, y, y' := a.fields, b.fields, b'.fields;
    forall k ensures (k in y <==> k in y') && (k in y && k in y' ==> y[k] == y'[k]) {
      if k !in x {
        if k in y { assert EditAt(a, b, [k], Add(y[k])); assert EditAt(a, b', [k], Add(y[k])); }
        if k in y' { assert EditAt(a, b', [k], Add(y'[k])); assert EditAt(a, b, [k], Add(y'[k])); }
      } else {
        assert EditAt(a, b, [k], Remove(x[k])) <==> k !in y;
        assert EditAt(a, b', [k], Remove(x[k])) <==> k !in y';
        if k in y && k in y' { SameFieldValue(a, b, b', k); }
      }
    }
  }

  lemma {:induction false} SameFieldValue(a: Json, b: Json, b': Json, k: string)
    requires a.Obj? && b.Obj? && b'.Obj? && k in a.fields && k in b.fields && k in b'.fields
    requires forall ks, e :: EditAt(a, b, ks, e) <==> EditAt(a, b', ks, e)
    ensures b.fields[k] == b'.fields[k]
    decreases a, 0
  {
    var x, y, y' := a.fields[k], b.fields[k], b'.fields[k];
    var e, e' := Modify(ChangeOf(x, y)), Modify(ChangeOf(x, y'));
    assert EditAt(a, b, [k], e) <==> x != y && !Inner(a, b, k);
    assert EditAt(a, b', [k], e') <==> x != y' && !Inner(a, b', k);
    assert EditAt(a, b, [k], e) <==> EditAt(a, b', [k], e);
    assert EditAt(a, b, [k], e') <==> EditAt(a, b', [k], e');
    if Inner(a, b, k) && Inner(a, b', k) {
      forall ks, f ensures EditAt(x, y, ks, f) <==> EditAt(x, y', ks, f) {
        if ks != [] {
          assert ([k] + ks)[1..] == ks;
          assert EditAt(a, b, [k] + ks, f) <==> EditAt(x, y, ks, f);
          assert EditAt(a, b', [k] + ks, f) <==> EditAt(x, y', ks, f);
        }
      }
      EditsDetermine(x, y, y');
    }
  }

  // ---------- Two second states with one difference ----------

  /** v can be added to dictionary a at a place: only its last key is new. */
  ghost predicate Addable(a: Json, ks: seq<string>)
    decreases ks
  {
    && ks != [] && a.Obj?
    && if |ks| == 1 then ks[0] !in a.fields else ks[0] in a.fields && Addable(a.fields[ks[0]], ks[1..])
  }

  function AddAt(a: Json, ks: seq<string>, v: Json): Json
    requires Addable(a, ks)
    decreases ks
  {
    Obj(a.fields[ks[0] := if |ks| == 1 then v else AddAt(a.fields[ks[0]], ks[1..], v)])
  }

  /** Adding at one place is the one edit, also where dictionaries are added to. */
  lemma {:induction false} AddIsTheEdit(a: Json, ks: seq<string>, v: Json, qs: seq<string>, e: Edit)
    requires Addable(a, ks)
    ensures EditAt(a, AddAt(a, ks, v), qs, e) <==> qs == ks && e == Add(v)
    decreases ks
  {
    var b, k := AddAt(a, ks, v), ks[0];
    assert ks == [k] + ks[1..];
    if qs == [] {
    } else {
      assert qs == [qs[0]] + qs[1..];
      if qs[0] != k {
        if |qs| > 1 && Inner(a, b, qs[0]) { NoEditOfEqual(a.fields[qs[0]], qs[1..], e); }
      } else if |ks| > 1 {
        AddIsTheEdit(a.fields[k], ks[1..], v, qs[1..], e);
        assert AddAt(a.fields[k], ks[1..], v).Obj?;
      }
    }
  }

  lemma AddIsDiff(a: Json, ks: seq<string>, v: Json)
    requires Addable(a, ks)
    ensures IsDiff(NO_DIFF.(added := map[Render("", ks) := v]), a, AddAt(a, ks, v), "")
  {
    var b, d := AddAt(a, ks, v), NO_DIFF.(added := map[Render("", ks) := v]);
    AddIsTheEdit(a, ks, v, ks, Add(v));
    assert Place(a, b, "", ks, Render("", ks), Add(v));
    forall qs, e | EditAt(a, b, qs, e) ensures Listed(d, Render("", qs), e) { AddIsTheEdit(a, ks, v, qs, e); }
  }

  /** Nested empty dictionaries down to where ks can be added. */
  function Chain(ks: seq<string>): Json
    requires ks != []
    decreases ks
  {
    if |ks| == 1 then Obj(map[]) else Obj(map[ks[0] := Chain(ks[1..])])
  }

  /** Nested dictionaries to which both places can be added. */
  function Fork(ks: seq<string>, ks': seq<string>): Json
    requires ks != [] && ks' != []
    decreases ks
  {
    if ks[0] != ks'[0] then Obj(Chain(ks).fields + Chain(ks').fields)
    else if |ks| == 1 || |ks'| == 1 then Obj(map[])
    else Obj(map[ks[0] := Fork(ks[1..], ks'[1..])])
  }

  lemma {:induction false} ChainIsAddable(ks: seq<string>, K: iset<string>)
    requires ks != [] && KeysIn(ks, K)
    ensures Addable(Chain(ks), ks) && Over(Chain(ks), K)
    ensures Chain(ks).fields.Keys <= {ks[0]}
    decreases ks
  {
    if |ks| == 1 {
    } else {
      ChainIsAddable(ks[1..], K);
    }
  }

  lemma AddableMore(a: Json, b: Json, ks: seq<string>)
    requires Addable(a, ks) && b.Obj?
    requires forall k :: k in a.fields || k == ks[0] ==>
      (k in a.fields <==> k in b.fields) && (k in a.fields ==> b.fields[k] == a.fields[k])
    ensures Addable(b, ks)
  {
  }

  lemma {:induction false} ForkIsAddable(ks: seq<string>, ks': seq<string>, K: iset<string>)
    requires ks != [] && ks' != [] && !(ks <= ks') && !(ks' <= ks) && KeysIn(ks, K) && KeysIn(ks', K)
    ensures Addable(Fork(ks, ks'), ks) && Addable(Fork(ks, ks'), ks') && Over(Fork(ks, ks'), K)
    decreases ks
  {
    if ks[0] != ks'[0] {
      ChainIsAddable(ks, K);
      ChainIsAddable(ks', K);
      var f := Fork(ks, ks');
      hide Addable, Over, Chain;
      AddableMore(Chain(ks), f, ks);
      AddableMore(Chain(ks'), f, ks');
      OverJoin(Chain(ks), Chain(ks'), K);
    } else {
      assert ks == [ks[0]] + ks[1..] && ks' == [ks'[0]] + ks'[1..];
      ForkIsAddable(ks[1..], ks'[1..], K);
    }
  }

  lemma OverJoin(x: Json, y: Json, K: iset<string>)
    requires x.Obj? && y.Obj? && Over(x, K) && Over(y, K)
    ensures Over(Obj(x.fields + y.fields), K)
  {
  }

  lemma {:induction false} AddIsOver(a: Json, ks: seq<string>, v: Json, K: iset<string>)
    requires Addable(a, ks) && Over(a, K) && Over(v, K) && KeysIn(ks, K)
    ensures Over(AddAt(a, ks, v), K)
    decreases ks
  {
    if |ks| == 1 {
    } else {
      AddIsOver(a.fields[ks[0]], ks[1..], v, K);
    }
  }

  /** Two places that clash: one first state and one difference with two second states. */
  lemma ClashIsAmbiguous(ks: seq<string>, ks': seq<string>, K: iset<string>) returns (a: Json, b: Json, b': Json, d: Diff)
    requires Clash(ks, ks') && KeysIn(ks, K) && KeysIn(ks', K)
    ensures a.Obj? && b.Obj? && b'.Obj? && Over(a, K) && Over(b, K) && Over(b', K)
    ensures IsDiff(d, a, b, "") && IsDiff(d, a, b', "") && b != b'
  {
    ForkIsAddable(ks, ks', K);
    a := Fork(ks, ks');
    b, b' := AddAt(a, ks, Null), AddAt(a, ks', Null);
    d := NO_DIFF.(added := map[Render("", ks) := Null]);
    AddIsDiff(a, ks, Null);
    AddIsDiff(a, ks', Null);
    AddIsOver(a, ks, Null, K);
    AddIsOver(a, ks', Null, K);
    AddIsTheEdit(a, ks, Null, ks, Add(Null));
    AddIsTheEdit(a, ks', Null, ks, Add(Null));
  }

  /** Over a set of keys the first state and the difference determine the second state exactly
      when no two places clash; clean keys never clash. */
  lemma DeterminesIffNoClash(K: iset<string>)
    ensures Determines(K) <==> NoClash(K)
    ensures (forall k :: k in K ==> CleanKey(k)) ==> NoClash(K)
  {
    if NoClash(K) {
      forall a: Json, b: Json, b': Json, d: Diff | a.Obj? && b.Obj? && b'.Obj? && Over(a, K) && Over(b, K) && Over(b', K)
        && IsDiff(d, a, b, "") && IsDiff(d, a, b', "")
        ensures b == b'
      {
        forall ks, e ensures EditAt(a, b, ks, e) <==> EditAt(a, b', ks, e) {
          if EditAt(a, b, ks, e) { SameEdits(d, a, b, b', ks, e, K); }
          if EditAt(a, b', ks, e) { SameEdits(d, a, b', b, ks, e, K); }
        }
        EditsDetermine(a, b, b');
      }
    } else {
      var ks, ks' :| KeysIn(ks, K) && KeysIn(ks', K) && Clash(ks, ks');
      var a, b, b', d := ClashIsAmbiguous(ks, ks', K);
    }
    if forall k :: k in K ==> CleanKey(k) {
      forall ks, ks' | KeysIn(ks, K) && KeysIn(ks', K) ensures !Clash(ks, ks') {
        if Clash(ks, ks') { RenderInjective(ks, ks'); }
      }
    }
  }

  /** A key with a dot clashes with its parts, where those are keys, too. */
  lemma DottedKeyClashes(k: string, l: string)
    requires k != ""
    ensures Clash([k, l], [k + "." + l])
  {
    assert [k, l][1..] == [l] && [l][1..] == [] && [k + "." + l][1..] == [];
    assert Render("", [k, l]) == Render(k, [l]) == Render(k + "." + l, []);
    assert [k, l][0] == k && |k + "." + l| > |k|;
  }
}
