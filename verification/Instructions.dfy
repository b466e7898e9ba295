/** Conflicts between distilled instructions (correction_log.py, DistilledInstruction and
    ConflictResolver).

    Instructions of one category and scope conflict when their signatures give a common key
    different values.  Resolving a new signature by merging supersedes every instruction that
    conflicts with it; the theorems hold over any run of new signatures.  Instructions are objects
    that are retired in place, so the methods say which fields of which objects change. */
module Instructions {
  import opened Common

  type Signature = map<string, string>

  /** One instruction as a value; the fields that play no part in conflicts are left out. */
  datatype Instr = Instr(sk: string, category: string, scope: string, signature: Signature,
                         active: bool, version: int, supersededBy: Option<string>)

  /** has_conflicting_signature. */
  predicate SignaturesConflict(s: Signature, t: Signature) {
    exists k :: k in s && k in t && s[k] != t[k]
  }

  predicate Conflicts(i: Instr, n: Signature, category: string, scope: string) {
    i.category == category && i.scope == scope && i.active && SignaturesConflict(i.signature, n)
  }

  /** The "merge" resolution: the new signature wins. */
  function MergedSignature(i: Instr, n: Signature): Signature { i.signature + n }

  function Override(i: Instr, n: Signature, name: string): Instr {
    Instr(name, i.category, i.scope, n, true, i.version + 1, None)
  }

  function Retire(i: Instr, name: string): Instr {
    i.(active := false, supersededBy := Some(name))
  }

  // ---------- The code ----------

  class DistilledInstruction {
    const sk: string
    const category: string
    const scope: string
    const signature: Signature
    const version: int
    var isActive: bool
    var supersededBy: Option<string>

    function Value(): Instr
      reads this
    {
      Instr(sk, category, scope, signature, isActive, version, supersededBy)
    }

    constructor (sk: string, category: string, scope: string, signature: Signature, version: int)
      ensures Value() == Instr(sk, category, scope, signature, true, version, None)
    {
      this.sk, this.category, this.scope, this.signature, this.version := sk, category, scope, signature, version;
      isActive, supersededBy := true, None;
    }

    /** Walks the common keys; empty signatures never conflict. */
    method HasConflictingSignature(other: Signature) returns (conflict: bool)
      ensures conflict <==> exists k :: k in signature && k in other && signature[k] != other[k]
    {
      if signature == map[] || other == map[] {
        return false;
      }
      var rest := signature.Keys * other.Keys;
      ghost var seen := {};
      while rest != {}
        invariant seen + rest == signature.Keys * other.Keys
        invariant forall k :: k in seen ==> signature[k] == other[k]
      {
        var key :| key in rest;
        if signature[key] != other[key] {
          return true;
        }
        rest, seen := rest - {key}, seen + {key};
      }
      return false;
    }

    /** The identifier of the new version is a parameter. */
    method CreateOverrideVersion(newSignature: Signature, name: string) returns (next: DistilledInstruction)
      modifies this
      ensures fresh(next) && next.Value() == Override(old(Value()), newSignature, name)
      ensures Value() == Retire(old(Value()), name)
    {
      next := new DistilledInstruction(name, category, scope, newSignature, version + 1);
      isActive := false;
      supersededBy := Some(name);
    }
  }

  function Values(xs: seq<DistilledInstruction>): (r: seq<Instr>)
    reads xs
    ensures |r| == |xs|
  {
    seq(|xs|, i requires 0 <= i < |xs| reads xs => xs[i].Value())
  }

  /** detect_conflicts, by position. */
  method DetectConflicts(existing: seq<DistilledInstruction>, n: Signature, category: string, scope: string)
    returns (conflicts: seq<nat>)
    ensures conflicts == ConflictsAt(Values(existing), n, category, scope)
  {
    conflicts := [];
    for i := 0 to |existing|
      invariant conflicts == ConflictsAt(Values(existing)[..i], n, category, scope)
    {
      assert Values(existing)[..i + 1][..i] == Values(existing)[..i];
      if existing[i].category == category && existing[i].scope == scope && existing[i].isActive {
        var conflict := existing[i].HasConflictingSignature(n);
        if conflict {
          conflicts := conflicts + [i];
        }
      }
    }
    assert Values(existing)[..|existing|] == Values(existing);
  }

  function ConflictsAt(ins: seq<Instr>, n: Signature, category: string, scope: string): seq<nat> {
    if ins == [] then []
    else
      var k := |ins| - 1;
      ConflictsAt(ins[..k], n, category, scope) + if Conflicts(ins[k], n, category, scope) then [k] else []
  }

  ghost predicate Positions(r: seq<nat>, n: nat) {
    (forall i, j :: 0 <= i < j < |r| ==> r[i] < r[j]) && (forall i :: 0 <= i < |r| ==> r[i] < n)
  }

  /** The conflicts are exactly the positions of active instructions of the category and scope that
      give a common key another value, each once and in order. */
  lemma {:induction false} ConflictsExact(ins: seq<Instr>, n: Signature, category: string, scope: string)
    ensures Positions(ConflictsAt(ins, n, category, scope), |ins|)
    ensures forall i: nat :: i in ConflictsAt(ins, n, category, scope) <==>
      i < |ins| && ins[i].active && ins[i].category == category && ins[i].scope == scope
      && exists k :: k in ins[i].signature && k in n && ins[i].signature[k] != n[k]
  {
    if ins == [] {
    } else {
      var k := |ins| - 1;
      ConflictsExact(ins[..k], n, category, scope);
      var before := ConflictsAt(ins[..k], n, category, scope);
      assert Positions(before, |ins|) && Positions(before + [k], |ins|);
      assert ConflictsAt(ins, n, category, scope) == if Conflicts(ins[k], n, category, scope) then before + [k] else before;
      assert forall i :: 0 <= i < k ==> ins[..k][i] == ins[i];
    }
  }

  /** Every instruction that conflicts with the new signature retires in favour of its merge. */
  function Retired(ins: seq<Instr>, n: Signature, category: string, scope: string, names: seq<string>): seq<Instr>
    requires |names| == |ins|
  {
    seq(|ins|, i requires 0 <= i < |ins| =>
      if Conflicts(ins[i], n, category, scope) then Retire(ins[i], names[i]) else ins[i])
  }

  function Overrides(ins: seq<Instr>, n: Signature, category: string, scope: string, names: seq<string>): seq<Instr>
    requires |names| == |ins|
  {
    if ins == [] then []
    else
      var k := |ins| - 1;
      Overrides(ins[..k], n, category, scope, names[..k])
        + if Conflicts(ins[k], n, category, scope) then [Override(ins[k], MergedSignature(ins[k], n), names[k])] else []
  }

  function Resolve(ins: seq<Instr>, n: Signature, category: string, scope: string, names: seq<string>): seq<Instr>
    requires |names| == |ins|
  {
    Retired(ins, n, category, scope, names) + Overrides(ins, n, category, scope, names)
  }

  /** One instruction: if it conflicts, the "merge" resolution and its application. */
  method ResolveOne(existing: seq<DistilledInstruction>, i: nat, n: Signature, category: string, scope: string,
                    name: string)
    returns (next: Option<DistilledInstruction>)
    requires Distinct(existing) && i < |existing|
    modifies existing[i]
    ensures next.Some? <==> Conflicts(old(existing[i].Value()), n, category, scope)
    ensures forall j :: 0 <= j < |existing| ==>
      existing[j].Value() == if j == i && next.Some? then Retire(old(existing[i].Value()), name) else old(existing[j].Value())
    ensures next.Some? ==>
      && fresh(next.value)
      && next.value.Value() == Override(old(existing[i].Value()), MergedSignature(old(existing[i].Value()), n), name)
  {
    var x := existing[i];
    assert forall j :: 0 <= j < |existing| && j != i ==> existing[j] != x;
    if x.category == category && x.scope == scope && x.isActive {
      var conflict := x.HasConflictingSignature(n);
      if conflict {
        var merged := x.signature + n;
        var override := x.CreateOverrideVersion(merged, name);
        return Some(override);
      }
    }
    return None;
  }

  /** Resolve every conflict with a new signature. */
  method ResolveByMerge(existing: seq<DistilledInstruction>, n: Signature, category: string, scope: string,
                        names: seq<string>)
    returns (all: seq<DistilledInstruction>)
    requires Distinct(existing) && |names| == |existing|
    modifies existing
    ensures Values(all) == Resolve(old(Values(existing)), n, category, scope, names)
  {
    hide Conflicts, Override, Retire, MergedSignature, DistilledInstruction.Value;
    ghost var before := Values(existing);
    ghost var retired := Retired(before, n, category, scope, names);
    var added: seq<DistilledInstruction> := [];
    ghost var overrides: seq<Instr> := [];
    for i := 0 to |existing|
      invariant forall j :: 0 <= j < |existing| ==> existing[j].Value() == if j < i then retired[j] else before[j]
      invariant |overrides| == |added|
      invariant forall j :: 0 <= j < |added| ==> fresh(added[j]) && added[j].Value() == overrides[j]
      invariant overrides == Overrides(before[..i], n, category, scope, names[..i])
    {
      OverridesStep(before, n, category, scope, names, i);
      hide Overrides;
      var next := ResolveOne(existing, i, n, category, scope, names[i]);
      if next.Some? {
        added, overrides := added + [next.value], overrides + [next.value.Value()];
      }
    }
    assert before[..|existing|] == before && names[..|existing|] == names;
    all := existing + added;
    assert Values(all) == retired + overrides;
  }

  lemma OverridesStep(ins: seq<Instr>, n: Signature, category: string, scope: string, names: seq<string>, i: nat)
    requires |names| == |ins| && i < |ins|
    ensures Overrides(ins[..i + 1], n, category, scope, names[..i + 1])
      == Overrides(ins[..i], n, category, scope, names[..i])
         + if Conflicts(ins[i], n, category, scope) then [Override(ins[i], MergedSignature(ins[i], n), names[i])] else []
  {
    assert ins[..i + 1][..i] == ins[..i] && names[..i + 1][..i] == names[..i];
    hide Conflicts, Override, MergedSignature;
  }

  // ---------- Non-conflicting instructions stay so ----------

  predicate InGroup(i: Instr, category: string, scope: string) {
    i.active && i.category == category && i.scope == scope
  }

  /** The active instructions of one category and scope do not conflict. */
  ghost predicate HarmoniousIn(ins: seq<Instr>, category: string, scope: string) {
    forall i, j :: 0 <= i < |ins| && 0 <= j < |ins| && InGroup(ins[i], category, scope) && InGroup(ins[j], category, scope)
      ==> !SignaturesConflict(ins[i].signature, ins[j].signature)
  }

  ghost predicate Harmonious(ins: seq<Instr>) {
    forall category, scope :: HarmoniousIn(ins, category, scope)
  }

  /** Where an instruction of the resolved store comes from. */
  ghost predicate ComesFrom(ins: seq<Instr>, n: Signature, category: string, scope: string, names: seq<string>,
                            x: Instr, i: nat)
    requires |names| == |ins| && i < |ins|
  {
    if Conflicts(ins[i], n, category, scope) then
      x == Retire(ins[i], names[i]) || x == Override(ins[i], MergedSignature(ins[i], n), names[i])
    else x == ins[i]
  }

  /** x is the merge that replaces the conflicting i. */
  ghost predicate Overrules(i: Instr, n: Signature, category: string, scope: string, name: string, x: Instr) {
    Conflicts(i, n, category, scope) && x == Override(i, MergedSignature(i, n), name)
  }

  lemma {:induction false} OverridesComeFrom(ins: seq<Instr>, n: Signature, category: string, scope: string,
                                             names: seq<string>)
    requires |names| == |ins|
    ensures forall x :: x in Overrides(ins, n, category, scope, names) <==>
      exists i :: 0 <= i < |ins| && Overrules(ins[i], n, category, scope, names[i], x)
  {
    if ins == [] {
    } else {
      var k := |ins| - 1;
      OverridesComeFrom(ins[..k], n, category, scope, names[..k]);
      assert forall i :: 0 <= i < k ==> ins[..k][i] == ins[i] && names[..k][i] == names[i];
    }
  }

  /** The merged signature: the new values, and the old ones under all other keys. */
  lemma MergedSignatureIs(i: Instr, n: Signature, k: string)
    ensures k in MergedSignature(i, n) <==> k in i.signature || k in n
    ensures k in n ==> MergedSignature(i, n)[k] == n[k]
    ensures k in i.signature && k !in n ==> MergedSignature(i, n)[k] == i.signature[k]
  {
  }

  /** A conflicting instruction is inactive after the resolution and superseded by an active one with
      its category and scope, the next version and the merged signature; any other is as it was. */
  lemma ResolutionOf(ins: seq<Instr>, n: Signature, category: string, scope: string, names: seq<string>, i: nat)
    requires |names| == |ins| && i < |ins|
    ensures var r := Resolve(ins, n, category, scope, names);
      && |r| >= |ins|
      && if Conflicts(ins[i], n, category, scope) then
           && r[i] == ins[i].(active := false, supersededBy := Some(names[i]))
           && exists x :: x in r && x.sk == names[i] && x.active && x.category == category && x.scope == scope
                && x.version == ins[i].version + 1 && x.supersededBy == None && x.signature == ins[i].signature + n
         else r[i] == ins[i]
  {
    OverridesComeFrom(ins, n, category, scope, names);
    var r := Resolve(ins, n, category, scope, names);
    if Conflicts(ins[i], n, category, scope) {
      var x := Override(ins[i], MergedSignature(ins[i], n), names[i]);
      assert Overrules(ins[i], n, category, scope, names[i], x);
      assert x in Overrides(ins, n, category, scope, names);
      assert x in r;
    }
    hide Overrides;
  }

  lemma ResolvedComesFrom(ins: seq<Instr>, n: Signature, category: string, scope: string, names: seq<string>, x: Instr)
    returns (i: nat)
    requires |names| == |ins| && x in Resolve(ins, n, category, scope, names)
    ensures i < |ins| && ComesFrom(ins, n, category, scope, names, x, i)
  {
    OverridesComeFrom(ins, n, category, scope, names);
    if x in Overrides(ins, n, category, scope, names) {
      i :| 0 <= i < |ins| && Overrules(ins[i], n, category, scope, names[i], x);
    } else {
      var r := Retired(ins, n, category, scope, names);
      assert x in r;
      i :| 0 <= i < |r| && r[i] == x;
    }
  }

  /** Merging keeps every category and scope free of conflicts that was, whatever the others hold,
      and leaves no instruction in conflict with the new signature. */
  lemma MergingKeepsHarmony(ins: seq<Instr>, n: Signature, category: string, scope: string, names: seq<string>)
    requires |names| == |ins|
    ensures forall c, s :: HarmoniousIn(ins, c, s) ==> HarmoniousIn(Resolve(ins, n, category, scope, names), c, s)
    ensures forall x :: x in Resolve(ins, n, category, scope, names) ==> !Conflicts(x, n, category, scope)
  {
    var rs := Resolve(ins, n, category, scope, names);
    hide Resolve;
    forall x | x in rs ensures !Conflicts(x, n, category, scope) {
      var i := ResolvedComesFrom(ins, n, category, scope, names, x);
    }
    forall c, s | HarmoniousIn(ins, c, s) ensures HarmoniousIn(rs, c, s) {
      forall a, b | 0 <= a < |rs| && 0 <= b < |rs| && InGroup(rs[a], c, s) && InGroup(rs[b], c, s)
        ensures !SignaturesConflict(rs[a].signature, rs[b].signature)
      {
        var i := ResolvedComesFrom(ins, n, category, scope, names, rs[a]);
        var j := ResolvedComesFrom(ins, n, category, scope, names, rs[b]);
        assert InGroup(ins[i], c, s) && InGroup(ins[j], c, s);
        assert !SignaturesConflict(ins[i].signature, ins[j].signature);
        assert !Conflicts(rs[a], n, category, scope) && !Conflicts(rs[b], n, category, scope);
      }
    }
  }

  // ---------- Histories of versions ----------

  predicate HasName(ins: seq<Instr>, name: string) {
    exists i :: 0 <= i < |ins| && ins[i].sk == name
  }

  /** Names are distinct; a superseded instruction is inactive and the one that supersedes it
      exists, with the next version number. */
  ghost predicate Versioned(ins: seq<Instr>) {
    && DistinctNames(ins)
    && (forall i :: 0 <= i < |ins| && ins[i].supersededBy.Some? ==> SupersededIn(ins, ins[i]))
  }

  ghost predicate SupersededIn(ins: seq<Instr>, x: Instr)
    requires x.supersededBy.Some?
  {
    !x.active && exists y :: y in ins && y.sk == x.supersededBy.value && y.version == x.version + 1
  }

  ghost predicate FreshNames(ins: seq<Instr>, names: seq<string>) {
    |names| == |ins| && Distinct(names) && forall i :: 0 <= i < |names| ==> !HasName(ins, names[i])
  }

  lemma OverrideNames(ins: seq<Instr>, n: Signature, category: string, scope: string, names: seq<string>)
    requires |names| == |ins|
    ensures forall x :: x in Overrides(ins, n, category, scope, names) ==> x.sk in names && x.supersededBy.None?
  {
    OverridesComeFrom(ins, n, category, scope, names);
  }

  ghost predicate DistinctNames(ins: seq<Instr>) {
    forall i, j :: 0 <= i < j < |ins| ==> ins[i].sk != ins[j].sk
  }

  lemma {:induction false} OverrideNamesDiffer(ins: seq<Instr>, n: Signature, category: string, scope: string,
                                               names: seq<string>)
    requires |names| == |ins| && Distinct(names)
    ensures DistinctNames(Overrides(ins, n, category, scope, names))
  {
    if ins == [] {
    } else {
      var k := |ins| - 1;
      OverrideNamesDiffer(ins[..k], n, category, scope, names[..k]);
      OverrideNames(ins[..k], n, category, scope, names[..k]);
      var before, os := Overrides(ins[..k], n, category, scope, names[..k]), Overrides(ins, n, category, scope, names);
      assert names[k] !in names[..k];
      assert forall i :: 0 <= i < |before| ==> before[i] in before;
      if Conflicts(ins[k], n, category, scope) {
        assert os == before + [Override(ins[k], MergedSignature(ins[k], n), names[k])];
      } else {
        assert os == before;
      }
    }
  }

  /** Resolving with fresh names keeps the version history: versions grow along superseded_by. */
  lemma MergingKeepsVersions(ins: seq<Instr>, n: Signature, category: string, scope: string, names: seq<string>)
    requires FreshNames(ins, names) && Versioned(ins)
    ensures Versioned(Resolve(ins, n, category, scope, names))
  {
    var rs, os := Retired(ins, n, category, scope, names), Overrides(ins, n, category, scope, names);
    var all := rs + os;
    OverrideNames(ins, n, category, scope, names);
    OverrideNamesDiffer(ins, n, category, scope, names);
    assert forall i :: 0 <= i < |os| ==> os[i] in os;
    assert forall i :: 0 <= i < |ins| ==> rs[i].sk == ins[i].sk;
    forall i, j | 0 <= i < j < |all| ensures all[i].sk != all[j].sk {
      if i < |rs| && j >= |rs| {
        assert os[j - |rs|].sk in names;
        assert !HasName(ins, os[j - |rs|].sk);
        assert ins[i].sk == all[i].sk;
      }
    }
    forall i | 0 <= i < |all| && all[i].supersededBy.Some? ensures SupersededIn(all, all[i]) {
      assert i < |rs|;
      RetiredIsSuperseded(ins, n, category, scope, names, i);
    }
  }

  lemma RetiredIsSuperseded(ins: seq<Instr>, n: Signature, category: string, scope: string, names: seq<string>, i: nat)
    requires |names| == |ins| && Versioned(ins) && i < |ins|
    requires Retired(ins, n, category, scope, names)[i].supersededBy.Some?
    ensures SupersededIn(Resolve(ins, n, category, scope, names), Retired(ins, n, category, scope, names)[i])
  {
    var rs, os := Retired(ins, n, category, scope, names), Overrides(ins, n, category, scope, names);
    var all := Resolve(ins, n, category, scope, names);
    hide Overrides;
    if Conflicts(ins[i], n, category, scope) {
      OverridesComeFrom(ins, n, category, scope, names);
      var o := Override(ins[i], MergedSignature(ins[i], n), names[i]);
      assert Overrules(ins[i], n, category, scope, names[i], o);
      assert o in os && o in all;
    } else {
      assert SupersededIn(ins, ins[i]);
      var y :| y in ins && y.sk == ins[i].supersededBy.value && y.version == ins[i].version + 1;
      var j :| 0 <= j < |ins| && ins[j] == y;
      assert all[j] == rs[j] && rs[j].sk == y.sk && rs[j].version == y.version;
    }
  }

  /** A new signature with the names of the versions it will create and its own instruction. */
  datatype Arrival = Arrival(signature: Signature, category: string, scope: string, names: seq<string>, sk: string)

  /** Resolve the conflicts, then store the instruction that carries the new signature. */
  function Absorb(ins: seq<Instr>, a: Arrival): seq<Instr>
    requires |a.names| == |ins|
  {
    Resolve(ins, a.signature, a.category, a.scope, a.names)
      + [Instr(a.sk, a.category, a.scope, a.signature, true, 1, None)]
  }

  ghost predicate Admissible(ins: seq<Instr>, a: Arrival) {
    FreshNames(ins, a.names) && a.sk !in a.names && !HasName(ins, a.sk)
  }

  /** A run of arrivals from the empty store, with the stores in between. */
  ghost predicate IsRun(arrivals: seq<Arrival>, stores: seq<seq<Instr>>) {
    && |stores| == |arrivals| + 1 && stores[0] == []
    && forall i :: 0 <= i < |arrivals| ==> Absorbs(stores, i, arrivals[i])
  }

  ghost predicate Absorbs(stores: seq<seq<Instr>>, i: nat, a: Arrival)
    requires i + 1 < |stores|
  {
    Admissible(stores[i], a) && stores[i + 1] == Absorb(stores[i], a)
  }

  lemma AbsorbKeepsHarmony(ins: seq<Instr>, a: Arrival)
    requires |a.names| == |ins|
    ensures forall c, s :: HarmoniousIn(ins, c, s) ==> HarmoniousIn(Absorb(ins, a), c, s)
  {
    MergingKeepsHarmony(ins, a.signature, a.category, a.scope, a.names);
    var rs := Resolve(ins, a.signature, a.category, a.scope, a.names);
    hide Resolve;
    assert forall i :: 0 <= i < |rs| ==> rs[i] in rs;
  }

  lemma AbsorbKeepsVersions(ins: seq<Instr>, a: Arrival)
    requires Admissible(ins, a) && Versioned(ins)
    ensures Versioned(Absorb(ins, a))
  {
    MergingKeepsVersions(ins, a.signature, a.category, a.scope, a.names);
    var rs, all := Resolve(ins, a.signature, a.category, a.scope, a.names), Absorb(ins, a);
    OverrideNames(ins, a.signature, a.category, a.scope, a.names);
    forall i | 0 <= i < |rs| ensures rs[i].sk != a.sk {
      if i < |ins| {
        assert rs[i].sk == ins[i].sk;
      } else {
        assert rs[i] in Overrides(ins, a.signature, a.category, a.scope, a.names);
      }
    }
    hide Resolve;
    forall i | 0 <= i < |all| && all[i].supersededBy.Some? ensures SupersededIn(all, all[i]) {
      assert i < |rs| && SupersededIn(rs, rs[i]);
    }
  }

  /** After any run of merged signatures the active instructions do not conflict and every
      superseded one is inactive and replaced by the next version. */
  lemma {:induction false} RunsKeepHarmonyAndVersions(arrivals: seq<Arrival>, stores: seq<seq<Instr>>, i: nat)
    requires IsRun(arrivals, stores) && i < |stores|
    ensures Harmonious(stores[i]) && Versioned(stores[i])
  {
    if i == 0 {
    } else {
      RunsKeepHarmonyAndVersions(arrivals, stores, i - 1);
      assert Absorbs(stores, i - 1, arrivals[i - 1]);
      AbsorbKeepsHarmony(stores[i - 1], arrivals[i - 1]);
      AbsorbKeepsVersions(stores[i - 1], arrivals[i - 1]);
    }
  }

  /** The resolution named "override" carries no signature: the version it creates conflicts
      with nothing, whatever the new signature says, and drops what the old one said. */
  lemma OverrideResolutionForgets(i: Instr, n: Signature, name: string)
    ensures !SignaturesConflict(Override(i, map[], name).signature, n)
    ensures Override(i, map[], name).signature == n <==> n == map[]
  {
  }
}
