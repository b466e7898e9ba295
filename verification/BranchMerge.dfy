/** Fork-join aggregation of branch states (state_hydrator.py, aggregate_branch_results).

    The default strategy folds `deep_merge` over the branches.  The theorems say exactly when
    three states may be regrouped, that branches whose value kinds agree may be grouped in any
    way, and what the merged state holds at every path. */
module BranchMerge {
  import opened Common

  type State = map<string, Json>

  function DeepMerge(base: State, update: State): State
    decreases Obj(update), 0
  {
    map k | k in base.Keys + update.Keys ::
      if k !in update then base[k]
      else if k !in base then update[k]
      else MergeValue(base[k], update[k])
  }

  /** Dictionaries merge, lists are extended, anything else is replaced. */
  function MergeValue(x: Json, y: Json): Json
    decreases y, 1
  {
    if x.Obj? && y.Obj? then Obj(DeepMerge(x.fields, y.fields))
    else if x.Arr? && y.Arr? then Arr(x.items + y.items)
    else y
  }

  /** The fold of the branch states, in order, from the empty state. */
  function MergeAll(states: seq<State>): State {
    if states == [] then map[] else DeepMerge(MergeAll(states[..|states| - 1]), states[|states| - 1])
  }

  // ---------- The code ----------

  /** A branch result; fields that are missing are None. */
  datatype Branch = Branch(id: Json, status: string, finalState: Option<State>, executionTimeMs: int)

  function StateOf(b: Branch): State {
    if b.finalState.Some? then b.finalState.value else map[]
  }

  function StatesOf(bs: seq<Branch>): seq<State> {
    seq(|bs|, i requires 0 <= i < |bs| => StateOf(bs[i]))
  }

  method DeepMergeInto(base: State, update: State) returns (result: State)
    ensures result == DeepMerge(base, update)
    decreases Obj(update)
  {
    result := base;
    var rest := update.Keys;
    while rest != {}
      invariant rest <= update.Keys
      invariant result == map k | k in base.Keys + (update.Keys - rest) ::
        if k in rest || k !in update then base[k]
        else if k !in base then update[k]
        else MergeValue(base[k], update[k])
    {
      var key :| key in rest;
      var value := update[key];
      if key in result && result[key].Obj? && value.Obj? {
        var merged := DeepMergeInto(result[key].fields, value.fields);
        result := result[key := Obj(merged)];
      } else if key in result && result[key].Arr? && value.Arr? {
        result := result[key := Arr(result[key].items + value.items)];
      } else {
        result := result[key := value];
      }
      rest := rest - {key};
    }
  }

  function CountStatus(bs: seq<Branch>, status: string): nat {
    if bs == [] then 0
    else CountStatus(bs[..|bs| - 1], status) + if bs[|bs| - 1].status == status then 1 else 0
  }

  function TotalTime(bs: seq<Branch>): int {
    if bs == [] then 0 else TotalTime(bs[..|bs| - 1]) + bs[|bs| - 1].executionTimeMs
  }

  function Metadata(bs: seq<Branch>): Json {
    Obj(map[
      "total_branches" := Num(|bs|),
      "successful_branches" := Num(CountStatus(bs, "completed")),
      "failed_branches" := Num(CountStatus(bs, "failed")),
      "branch_ids" := Arr(seq(|bs|, i requires 0 <= i < |bs| => bs[i].id)),
      "total_execution_time_ms" := Num(TotalTime(bs))])
  }

  /** Branch by branch: the fold takes the final state of each, empty where it is missing. */
  lemma StatesExact(bs: seq<Branch>, i: nat)
    requires i < |bs|
    ensures |StatesOf(bs)| == |bs|
    ensures StatesOf(bs)[i] == match bs[i].finalState case Some(s) => s case None => map[]
  {
  }

  lemma {:induction false} CountStatusIs(bs: seq<Branch>, status: string)
    ensures CountStatus(bs, status) == |set i | 0 <= i < |bs| && bs[i].status == status|
  {
    if bs == [] {
    } else {
      var n := |bs| - 1;
      CountStatusIs(bs[..n], status);
      var before := set i | 0 <= i < n && bs[..n][i].status == status;
      var all := set i | 0 <= i < |bs| && bs[i].status == status;
      assert all == if bs[n].status == status then before + {n} else before;
    }
  }

  lemma {:induction false} TotalTimeJoins(xs: seq<Branch>, ys: seq<Branch>)
    ensures TotalTime(xs + ys) == TotalTime(xs) + TotalTime(ys)
    ensures |ys| == 1 ==> TotalTime(ys) == ys[0].executionTimeMs
    decreases |ys|
  {
    if ys == [] {
      assert xs + ys == xs;
    } else {
      var init := ys[..|ys| - 1];
      TotalTimeJoins(xs, init);
      assert (xs + ys)[..|xs + ys| - 1] == xs + init;
      assert |ys| == 1 ==> init == [];
    }
  }

  /** The metadata say how many branches there are, how many completed and failed, and which. */
  lemma MetadataSays(bs: seq<Branch>)
    ensures var m := Metadata(bs).fields;
      && m["total_branches"] == Num(|bs|)
      && m["successful_branches"] == Num(|set i | 0 <= i < |bs| && bs[i].status == "completed"|)
      && m["failed_branches"] == Num(|set i | 0 <= i < |bs| && bs[i].status == "failed"|)
      && m["total_execution_time_ms"] == Num(TotalTime(bs))
      && m["branch_ids"].Arr? && |m["branch_ids"].items| == |bs|
      && forall i :: 0 <= i < |bs| ==> m["branch_ids"].items[i] == bs[i].id
  {
    CountStatusIs(bs, "completed");
    CountStatusIs(bs, "failed");
    hide CountStatus, TotalTime;
    KeysDiffer();
  }

  lemma KeysDiffer()
    ensures "total_branches" != "successful_branches" && "total_branches" != "failed_branches"
    ensures "total_branches" != "branch_ids" && "total_branches" != "total_execution_time_ms"
    ensures "successful_branches" != "failed_branches" && "successful_branches" != "branch_ids"
    ensures "successful_branches" != "total_execution_time_ms" && "failed_branches" != "branch_ids"
    ensures "failed_branches" != "total_execution_time_ms" && "branch_ids" != "total_execution_time_ms"
  {
    assert |"total_branches"| == 14 && |"successful_branches"| == 19 && |"failed_branches"| == 15;
    assert |"branch_ids"| == 10 && |"total_execution_time_ms"| == 23;
  }

  /** The deep-merge strategy; no branches give the empty state, without metadata. */
  method AggregateDeep(bs: seq<Branch>) returns (merged: State)
    ensures merged == if bs == [] then map[] else MergeAll(StatesOf(bs))["__branch_metadata__" := Metadata(bs)]
  {
    merged := map[];
    if bs == [] {
      return;
    }
    var successful, failed, time := 0, 0, 0;
    for i := 0 to |bs|
      invariant merged == MergeAll(StatesOf(bs)[..i])
      invariant successful == CountStatus(bs[..i], "completed") && failed == CountStatus(bs[..i], "failed")
      invariant time == TotalTime(bs[..i])
    {
      assert StatesOf(bs)[..i + 1][..i] == StatesOf(bs)[..i] && bs[..i + 1][..i] == bs[..i];
      merged := DeepMergeInto(merged, StateOf(bs[i]));
      successful := successful + if bs[i].status == "completed" then 1 else 0;
      failed := failed + if bs[i].status == "failed" then 1 else 0;
      time := time + bs[i].executionTimeMs;
    }
    assert StatesOf(bs)[..|bs|] == StatesOf(bs) && bs[..|bs|] == bs;
    merged := merged["__branch_metadata__" := Obj(map[
      "total_branches" := Num(|bs|), "successful_branches" := Num(successful), "failed_branches" := Num(failed),
      "branch_ids" := Arr(seq(|bs|, i requires 0 <= i < |bs| => bs[i].id)),
      "total_execution_time_ms" := Num(time)])];
  }

  // ---------- Unit and associativity ----------

  lemma EmptyIsUnit(s: State)
    ensures DeepMerge(map[], s) == s && DeepMerge(s, map[]) == s
  {
  }

  /** x adds nothing to a later z of the same kind. */
  ghost predicate Absorbed(x: Json, z: Json)
    decreases x
  {
    if x.Obj? && z.Obj? then forall k :: k in x.fields ==> k in z.fields && Absorbed(x.fields[k], z.fields[k])
    else if x.Arr? && z.Arr? then x.items == []
    else true
  }

  lemma {:induction false} AbsorbedIff(x: Json, z: Json)
    ensures MergeValue(x, z) == z <==> Absorbed(x, z)
    decreases x
  {
    if x.Obj? && z.Obj? {
      var m := DeepMerge(x.fields, z.fields);
      forall k | k in x.fields && k in z.fields
        ensures m[k] == z.fields[k] <==> Absorbed(x.fields[k], z.fields[k])
      {
        AbsorbedIff(x.fields[k], z.fields[k]);
      }
      assert forall k :: k in x.fields ==> k in m;
    } else if x.Arr? && z.Arr? {
      assert |x.items + z.items| == |x.items| + |z.items|;
    }
  }

  /** Values x, y, z of three branches can be regrouped: a value of another kind in the middle
      hides x from z in one grouping only, unless x adds nothing to z anyway. */
  ghost predicate Regroupable(x: Json, y: Json, z: Json)
    decreases z
  {
    if x.Obj? && z.Obj? then
      if y.Obj? then
        forall k :: k in x.fields && k in y.fields && k in z.fields ==>
          Regroupable(x.fields[k], y.fields[k], z.fields[k])
      else Absorbed(x, z)
    else x.Arr? && z.Arr? && !y.Arr? ==> x.items == []
  }

  lemma {:induction false} AssociativeIff(x: Json, y: Json, z: Json)
    ensures MergeValue(MergeValue(x, y), z) == MergeValue(x, MergeValue(y, z)) <==> Regroupable(x, y, z)
    decreases z, 1
  {
    if x.Obj? && y.Obj? && z.Obj? {
      AssociativeStatesIff(x.fields, y.fields, z.fields);
    } else if x.Obj? && z.Obj? {
      AbsorbedIff(x, z);
    } else if x.Arr? && y.Arr? && z.Arr? {
      assert (x.items + y.items) + z.items == x.items + (y.items + z.items);
    } else if x.Arr? && z.Arr? {
      assert |x.items + z.items| == |x.items| + |z.items|;
    }
  }

  /** Three states: both groupings give the same state exactly when no key blocks it. */
  lemma {:induction false} AssociativeStatesIff(a: State, b: State, c: State)
    ensures DeepMerge(DeepMerge(a, b), c) == DeepMerge(a, DeepMerge(b, c))
      <==> forall k :: k in a && k in b && k in c ==> Regroupable(a[k], b[k], c[k])
    decreases Obj(c), 0
  {
    var l, r := DeepMerge(DeepMerge(a, b), c), DeepMerge(a, DeepMerge(b, c));
    assert l.Keys == r.Keys;
    forall k | k in a && k in b && k in c ensures l[k] == r[k] <==> Regroupable(a[k], b[k], c[k]) {
      assert c[k] < Obj(c);
      AssociativeIff(a[k], b[k], c[k]);
    }
    assert forall k :: k in l && !(k in a && k in b && k in c) ==> l[k] == r[k];
    assert l == r <==> forall k :: k in l ==> l[k] == r[k];
  }

  // ---------- Any grouping of the branches ----------

  /** Dictionaries, lists and other values sit at the same paths. */
  ghost predicate KindsAgree(a: State, b: State)
    decreases Obj(b), 0
  {
    forall k :: k in a && k in b ==> KindAgrees(a[k], b[k])
  }

  ghost predicate KindAgrees(x: Json, y: Json)
    decreases y, 1
  {
    if x.Obj? && y.Obj? then KindsAgree(x.fields, y.fields)
    else (x.Arr? <==> y.Arr?) && !x.Obj? && !y.Obj?
  }

  lemma {:induction false} KindsAgreeRegroup(x: Json, y: Json, z: Json)
    requires KindAgrees(x, y) && KindAgrees(y, z)
    ensures Regroupable(x, y, z)
    decreases z
  {
    if x.Obj? {
      forall k | k in x.fields && k in y.fields && k in z.fields
        ensures Regroupable(x.fields[k], y.fields[k], z.fields[k])
      {
        KindsAgreeRegroup(x.fields[k], y.fields[k], z.fields[k]);
      }
    }
  }

  lemma {:induction false} KindsAgreeSymmetric(a: State, b: State)
    requires KindsAgree(a, b)
    ensures KindsAgree(b, a)
    decreases Obj(a)
  {
    forall k | k in a && k in b ensures KindAgrees(b[k], a[k]) {
      assert a[k] < Obj(a);
      if a[k].Obj? { KindsAgreeSymmetric(a[k].fields, b[k].fields); }
    }
  }

  /** A state that agrees with both parts of a merge agrees with the merge. */
  lemma {:induction false} KindsAgreeMerge(a: State, b: State, c: State)
    requires KindsAgree(a, b) && KindsAgree(a, c) && KindsAgree(b, c)
    ensures KindsAgree(a, DeepMerge(b, c)) && KindsAgree(DeepMerge(b, c), a)
    decreases Obj(a)
  {
    var m := DeepMerge(b, c);
    forall k | k in a && k in m ensures KindAgrees(a[k], m[k]) {
      assert k in b ==> KindAgrees(a[k], b[k]);
      assert k in c ==> KindAgrees(a[k], c[k]);
      assert k in b && k in c ==> KindAgrees(b[k], c[k]) && m[k] == MergeValue(b[k], c[k]);
      if k in b && k in c && a[k].Obj? {
        assert a[k] < Obj(a);
        KindsAgreeMerge(a[k].fields, b[k].fields, c[k].fields);
      }
    }
    KindsAgreeSymmetric(a, m);
  }

  /** A way to bracket the merge of branches 0, 1, 2, ... */
  datatype Grouping = One(state: State) | Join(left: Grouping, right: Grouping)

  function Branches(g: Grouping): seq<State> {
    match g
    case One(s) => [s]
    case Join(l, r) => Branches(l) + Branches(r)
  }

  function Evaluate(g: Grouping): State {
    match g
    case One(s) => s
    case Join(l, r) => DeepMerge(Evaluate(l), Evaluate(r))
  }

  ghost predicate PairwiseAgree(states: seq<State>) {
    forall i, j :: 0 <= i < j < |states| ==> KindsAgree(states[i], states[j])
  }

  ghost predicate AgreesWithAll(s: State, states: seq<State>) {
    forall i :: 0 <= i < |states| ==> KindsAgree(s, states[i])
  }

  lemma {:induction false} AgreesWithMerge(s: State, states: seq<State>)
    requires PairwiseAgree(states) && AgreesWithAll(s, states)
    ensures KindsAgree(s, MergeAll(states)) && KindsAgree(MergeAll(states), s)
    decreases |states|
  {
    if states == [] {
    } else {
      var init, last := states[..|states| - 1], states[|states| - 1];
      AgreesWithMerge(s, init);
      assert AgreesWithAll(last, init) by {
        forall i | 0 <= i < |init| ensures KindsAgree(last, init[i]) { KindsAgreeSymmetric(states[i], last); }
      }
      AgreesWithMerge(last, init);
      KindsAgreeMerge(s, MergeAll(init), last);
    }
  }

  // ---------- Exactly when branches may be grouped in any way ----------

  ghost predicate StatesRegroup(a: State, b: State, c: State) {
    forall k :: k in a && k in b && k in c ==> Regroupable(a[k], b[k], c[k])
  }

  /** All values of the quadruple but one may be regrouped with each other. */
  ghost predicate Quadruple(x: Json, y: Json, z: Json, w: Json) {
    Regroupable(x, y, z) && Regroupable(x, y, w) && Regroupable(x, z, w) && Regroupable(y, z, w)
  }

  /** What a merged dictionary holds under a key. */
  lemma MergedField(x: Json, y: Json, k: string)
    requires x.Obj? && y.Obj?
    ensures var m := MergeValue(x, y);
      && m.Obj? && (k in m.fields <==> k in x.fields || k in y.fields)
      && (k in m.fields ==>
            m.fields[k] == if k !in y.fields then x.fields[k]
                           else if k !in x.fields then y.fields[k]
                           else MergeValue(x.fields[k], y.fields[k]))
  {
  }

  lemma {:induction false} AbsorbedTogether(x: Json, y: Json, w: Json)
    requires Absorbed(x, w) && Absorbed(y, w)
    ensures Absorbed(MergeValue(x, y), w)
    decreases x
  {
    if x.Obj? && y.Obj? && w.Obj? {
      var m := MergeValue(x, y);
      forall k | k in m.fields ensures k in w.fields && Absorbed(m.fields[k], w.fields[k]) {
        MergedField(x, y, k);
        if k in x.fields && k in y.fields { AbsorbedTogether(x.fields[k], y.fields[k], w.fields[k]); }
      }
    }
  }

  lemma {:induction false} AbsorbedByMore(x: Json, z: Json, w: Json)
    requires Absorbed(x, w)
    ensures Absorbed(x, MergeValue(z, w))
    decreases x
  {
    if x.Obj? && z.Obj? && w.Obj? {
      var m := MergeValue(z, w);
      forall k | k in x.fields ensures k in m.fields && Absorbed(x.fields[k], m.fields[k]) {
        MergedField(z, w, k);
        if k in z.fields { AbsorbedByMore(x.fields[k], z.fields[k], w.fields[k]); }
      }
    }
  }

  /** Merging the first two of four values. */
  lemma {:induction false} RegroupFirst(x: Json, y: Json, z: Json, w: Json)
    requires Quadruple(x, y, z, w)
    ensures Regroupable(MergeValue(x, y), z, w)
    decreases w
  {
    var m := MergeValue(x, y);
    if m.Obj? && w.Obj? {
      if z.Obj? {
        forall k | k in m.fields && k in z.fields && k in w.fields
          ensures Regroupable(m.fields[k], z.fields[k], w.fields[k])
        {
          if x.Obj? { MergedField(x, y, k); }
          if x.Obj? && k in x.fields && k in y.fields {
            RegroupFirst(x.fields[k], y.fields[k], z.fields[k], w.fields[k]);
          }
        }
      } else if x.Obj? {
        AbsorbedTogether(x, y, w);
      }
    }
  }

  /** Merging the middle two. */
  lemma {:induction false} RegroupMiddle(x: Json, y: Json, z: Json, w: Json)
    requires Quadruple(x, y, z, w)
    ensures Regroupable(x, MergeValue(y, z), w)
    decreases w
  {
    var m := MergeValue(y, z);
    if x.Obj? && w.Obj? && m.Obj? {
      forall k | k in x.fields && k in m.fields && k in w.fields
        ensures Regroupable(x.fields[k], m.fields[k], w.fields[k])
      {
        if y.Obj? { MergedField(y, z, k); }
        if y.Obj? && k in y.fields && k in z.fields {
          RegroupMiddle(x.fields[k], y.fields[k], z.fields[k], w.fields[k]);
        }
      }
    }
  }

  lemma StatesRegroupFirst(a: State, b: State, c: State, d: State)
    requires StatesRegroup(a, b, c) && StatesRegroup(a, b, d) && StatesRegroup(a, c, d) && StatesRegroup(b, c, d)
    ensures StatesRegroup(DeepMerge(a, b), c, d)
  {
    RegroupFirst(Obj(a), Obj(b), Obj(c), Obj(d));
  }

  lemma StatesRegroupMiddle(a: State, b: State, c: State, d: State)
    requires StatesRegroup(a, b, c) && StatesRegroup(a, b, d) && StatesRegroup(a, c, d) && StatesRegroup(b, c, d)
    ensures StatesRegroup(a, DeepMerge(b, c), d)
  {
    RegroupMiddle(Obj(a), Obj(b), Obj(c), Obj(d));
  }

  /** Any three branches, in their order, may be regrouped. */
  ghost predicate TriplesRegroup(states: seq<State>) {
    forall i, j, k :: 0 <= i < j < k < |states| ==> StatesRegroup(states[i], states[j], states[k])
  }

  ghost predicate PairsRegroup(states: seq<State>, c: State) {
    forall i, j :: 0 <= i < j < |states| ==> StatesRegroup(states[i], states[j], c)
  }

  ghost predicate EachRegroups(states: seq<State>, b: State, c: State) {
    forall i :: 0 <= i < |states| ==> StatesRegroup(states[i], b, c)
  }

  lemma {:induction false} FoldRegroups(xs: seq<State>, b: State, c: State)
    requires TriplesRegroup(xs) && PairsRegroup(xs, b) && PairsRegroup(xs, c) && EachRegroups(xs, b, c)
    ensures StatesRegroup(MergeAll(xs), b, c)
    decreases |xs|
  {
    if xs == [] {
    } else {
      hide StatesRegroup, DeepMerge;
      var init, last := xs[..|xs| - 1], xs[|xs| - 1];
      FoldRegroups(init, last, b);
      FoldRegroups(init, last, c);
      FoldRegroups(init, b, c);
      StatesRegroupFirst(MergeAll(init), last, b, c);
    }
  }

  lemma {:induction false} FoldsRegroup(xs: seq<State>, ys: seq<State>, c: State)
    requires TriplesRegroup(xs + ys) && PairsRegroup(xs + ys, c)
    ensures StatesRegroup(MergeAll(xs), MergeAll(ys), c)
    decreases |ys|
  {
    if ys == [] {
    } else {
      hide StatesRegroup, DeepMerge;
      var all, init, last := xs + ys, ys[..|ys| - 1], ys[|ys| - 1];
      assert xs + init == all[..|all| - 1] && all[|all| - 1] == last;
      FoldsRegroup(xs, init, last);
      FoldsRegroup(xs, init, c);
      assert forall i :: 0 <= i < |xs| ==> xs[i] == all[i];
      assert forall i :: 0 <= i < |init| ==> init[i] == all[|xs| + i];
      FoldRegroups(xs, last, c);
      FoldRegroups(init, last, c);
      StatesRegroupMiddle(MergeAll(xs), MergeAll(init), last, c);
    }
  }

  /** Merging two runs of branches one after the other. */
  lemma {:induction false} MergeAllSplits(xs: seq<State>, ys: seq<State>)
    requires TriplesRegroup(xs + ys)
    ensures MergeAll(xs + ys) == DeepMerge(MergeAll(xs), MergeAll(ys))
    decreases ys
  {
    if ys == [] {
      assert xs + ys == xs;
    } else {
      hide DeepMerge;
      var all, init, last := xs + ys, ys[..|ys| - 1], ys[|ys| - 1];
      assert all[..|all| - 1] == xs + init && all[|all| - 1] == last;
      MergeAllSplits(xs, init);
      FoldsRegroup(xs, init, last);
      AssociativeStatesIff(MergeAll(xs), MergeAll(init), last);
    }
  }

  /** Branches any three of which may be regrouped may be merged in any grouping. */
  lemma {:induction false} AnyGroupingIsTheFold(g: Grouping)
    requires TriplesRegroup(Branches(g))
    ensures Evaluate(g) == MergeAll(Branches(g))
  {
    match g
    case One(s) =>
      assert [s][..0] == [];
    case Join(l, r) =>
      hide StatesRegroup;
      var xs, ys := Branches(l), Branches(r);
      assert forall i :: 0 <= i < |xs| ==> xs[i] == (xs + ys)[i];
      assert forall i :: 0 <= i < |ys| ==> ys[i] == (xs + ys)[|xs| + i];
      AnyGroupingIsTheFold(l);
      AnyGroupingIsTheFold(r);
      MergeAllSplits(xs, ys);
  }

  /** xs are some of the branches, in their order. */
  ghost predicate Selects(xs: seq<State>, states: seq<State>, at: seq<nat>) {
    && |at| == |xs|
    && (forall i :: 0 <= i < |at| ==> at[i] < |states| && xs[i] == states[at[i]])
    && (forall i, j :: 0 <= i < j < |at| ==> at[i] < at[j])
  }

  /** Any grouping of any selection of the branches gives the fold of the selection. */
  ghost predicate GroupFreely(states: seq<State>) {
    forall g, at :: Selects(Branches(g), states, at) ==> Evaluate(g) == MergeAll(Branches(g))
  }

  lemma MergeThree(a: State, b: State, c: State)
    ensures MergeAll([a, b, c]) == DeepMerge(DeepMerge(a, b), c)
  {
    assert [a, b, c][..2] == [a, b] && [a, b][..1] == [a] && [a][..0] == [];
    EmptyIsUnit(a);
    hide DeepMerge;
    assert MergeAll([a]) == a;
    assert MergeAll([a, b]) == DeepMerge(a, b);
  }

  lemma GroupedRight(a: State, b: State, c: State)
    ensures var g := Join(One(a), Join(One(b), One(c)));
      Branches(g) == [a, b, c] && (Evaluate(g) == MergeAll([a, b, c]) <==> StatesRegroup(a, b, c))
  {
    AssociativeStatesIff(a, b, c);
    hide DeepMerge, MergeAll;
    MergeThree(a, b, c);
    var right := Join(One(b), One(c));
    assert Evaluate(right) == DeepMerge(b, c);
    assert Branches(right) == [b, c] && [a] + [b, c] == [a, b, c];
  }

  /** Branches, and all selections of them, may be grouped freely exactly when any three of them,
      in their order, may be regrouped. */
  lemma GroupFreelyIff(states: seq<State>)
    ensures GroupFreely(states) <==> TriplesRegroup(states)
  {
    hide StatesRegroup, Evaluate, MergeAll, Branches;
    if TriplesRegroup(states) {
      forall g, at | Selects(Branches(g), states, at) ensures Evaluate(g) == MergeAll(Branches(g)) {
        AnyGroupingIsTheFold(g);
      }
    }
    if GroupFreely(states) {
      forall i, j, k | 0 <= i < j < k < |states| ensures StatesRegroup(states[i], states[j], states[k]) {
        var a, b, c := states[i], states[j], states[k];
        GroupedRight(a, b, c);
        assert Selects(Branches(Join(One(a), Join(One(b), One(c)))), states, [i, j, k]);
      }
    }
  }

  /** In particular branches whose value kinds agree may be grouped freely. */
  lemma AgreeingBranchesRegroup(states: seq<State>)
    requires PairwiseAgree(states)
    ensures TriplesRegroup(states)
  {
    forall i, j, k | 0 <= i < j < k < |states| ensures StatesRegroup(states[i], states[j], states[k]) {
      var a, b, c := states[i], states[j], states[k];
      forall key | key in a && key in b && key in c ensures Regroupable(a[key], b[key], c[key]) {
        KindsAgreeRegroup(a[key], b[key], c[key]);
      }
    }
  }

  // ---------- What the merged state holds ----------

  function At(v: Json, path: seq<string>): Option<Json>
    decreases path
  {
    if path == [] then Some(v)
    else if v.Obj? && path[0] in v.fields then At(v.fields[path[0]], path[1..])
    else None
  }

  function Combine(x: Option<Json>, y: Option<Json>): Option<Json> {
    if x.None? then y else if y.None? then x else Some(MergeValue(x.value, y.value))
  }

  lemma {:induction false} MergeAtPath(x: Json, y: Json, path: seq<string>)
    requires KindAgrees(x, y)
    ensures At(MergeValue(x, y), path) == Combine(At(x, path), At(y, path))
    decreases path
  {
    if path != [] && x.Obj? && path[0] in x.fields && path[0] in y.fields {
      MergeAtPath(x.fields[path[0]], y.fields[path[0]], path[1..]);
    }
  }

  /** The values that branches hold at a path, in branch order. */
  function Holders(states: seq<State>, path: seq<string>): seq<Json> {
    if states == [] then []
    else
      var v := At(Obj(states[|states| - 1]), path);
      Holders(states[..|states| - 1], path) + if v.Some? then [v.value] else []
  }

  function Concat(vs: seq<Json>): seq<Json>
    requires forall i :: 0 <= i < |vs| ==> vs[i].Arr?
  {
    if vs == [] then [] else Concat(vs[..|vs| - 1]) + vs[|vs| - 1].items
  }

  ghost predicate AllLists(vs: seq<Json>) {
    forall i :: 0 <= i < |vs| ==> vs[i].Arr?
  }

  lemma {:induction false} KindsAgreeAt(x: Json, y: Json, path: seq<string>)
    requires KindAgrees(x, y) && At(x, path).Some? && At(y, path).Some?
    ensures KindAgrees(At(x, path).value, At(y, path).value)
    decreases path
  {
    if path == [] {
    } else {
      KindsAgreeAt(x.fields[path[0]], y.fields[path[0]], path[1..]);
    }
  }

  /** At every path of agreeing branches: nothing if no branch holds it; a list is the
      concatenation of the branches' lists in order; another leaf comes from the last branch
      that holds the path; a dictionary stays a dictionary. */
  lemma {:induction false} MergedValueAt(states: seq<State>, path: seq<string>)
    requires PairwiseAgree(states) && path != []
    ensures var hs, v := Holders(states, path), At(Obj(MergeAll(states)), path);
      if hs == [] then v == None
      else
        && v.Some?
        && (hs[|hs| - 1].Arr? ==> AllLists(hs) && v == Some(Arr(Concat(hs))))
        && (hs[|hs| - 1].Obj? <==> v.value.Obj?)
        && (!hs[|hs| - 1].Arr? && !hs[|hs| - 1].Obj? ==> v == Some(hs[|hs| - 1]))
  {
    if states == [] {
    } else {
      var init, last := states[..|states| - 1], states[|states| - 1];
      MergedValueAt(init, path);
      assert AgreesWithAll(last, init) by {
        forall i | 0 <= i < |init| ensures KindsAgree(last, init[i]) { KindsAgreeSymmetric(states[i], last); }
      }
      AgreesWithMerge(last, init);
      var x, y := Obj(MergeAll(init)), Obj(last);
      assert MergeValue(x, y) == Obj(MergeAll(states)) && KindAgrees(x, y);
      hide KindsAgree, DeepMerge, MergeAll, At;
      MergeAtPath(x, y, path);
      if At(x, path).Some? && At(y, path).Some? { KindsAgreeAt(x, y, path); }
      var hs := Holders(init, path);
      if At(y, path).Some? {
        var all := hs + [At(y, path).value];
        assert Holders(states, path) == all && all[..|hs|] == hs;
        if At(y, path).value.Arr? {
          var tail := At(y, path).value.items;
          assert AllLists(hs) && AllLists(all);
          assert Concat(all) == Concat(hs) + tail;
          if hs == [] { assert Concat(all) == tail; }
        }
      } else {
        assert Holders(states, path) == hs;
      }
    }
  }
}
