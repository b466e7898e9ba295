/** Ring-level views of the state (state_view_context.py).

    A view is lazy: reading a key applies the ring policy of that key and wraps a nested
    dictionary or list in a new proxy.  Redact is the eager counterpart, one recursive pass
    over the state; `to_dict` is proved to compute it.  Project is redaction without the
    depth limit of the proxies. */
module StateView {
  import opened Common

  const MAX_PROXY_DEPTH: nat := 10
  const NESTED_HIDDEN_PREFIXES: seq<string> := ["__hidden_", "_kernel_", "__s3_"]

  const RESERVED_KEYS: set<string> := {
    "workflowId", "owner_id", "execution_id", "loop_counter", "max_loop_iterations", "segment_id",
    "current_state", "final_state", "state_s3_path", "step_history", "execution_logs",
    "scheduling_metadata", "__scheduling_metadata"
  }

  // ---------- Policies ----------

  /** What a policy says for one ring: None, a transformer, or another (ignored) value. */
  datatype Rule = Hide | Apply(f: Json -> Json) | Keep

  type Policy = map<int, Rule>

  /** A policy dictionary in insertion order; the order decides between wildcards. */
  datatype Entry = Entry(pattern: string, policy: Policy)
  type Policies = seq<Entry>

  const ID: Rule := Apply(v => v)

  const ALLOW_ALL: Policy := map[0 := ID, 1 := ID, 2 := ID, 3 := ID]

  function Exact(ps: Policies, key: string): Option<Policy> {
    if ps == [] then None else if ps[0].pattern == key then Some(ps[0].policy) else Exact(ps[1..], key)
  }

  /** `pattern.rstrip('*')`. */
  function StripStars(p: string): string {
    if p != "" && p[|p| - 1] == '*' then StripStars(p[..|p| - 1]) else p
  }

  function Wildcard(ps: Policies, key: string): Option<Policy> {
    if ps == [] then None
    else if '*' in ps[0].pattern && StripStars(ps[0].pattern) <= key then Some(ps[0].policy)
    else Wildcard(ps[1..], key)
  }

  /** The part of a view that is the same for all its nested proxies, with the depth limit, which
      is MAX_PROXY_DEPTH in every view that is created. */
  datatype Lens = Lens(ring: int, policies: Policies, limit: nat) {

    /** None when the key is hidden by its prefix alone. */
    function PolicyFor(key: string, depth: nat): Option<Policy> {
      if Exact(policies, key).Some? then Exact(policies, key)
      else if Wildcard(policies, key).Some? then Wildcard(policies, key)
      else if depth > 0 && ring >= 2 && exists i :: 0 <= i < |NESTED_HIDDEN_PREFIXES| && NESTED_HIDDEN_PREFIXES[i] <= key
      then None
      else Some(ALLOW_ALL)
    }

    /** Left out of iteration, length and `to_dict`. */
    predicate Hidden(key: string, depth: nat) {
      var p := PolicyFor(key, depth);
      p.None? || ring !in p.value || p.value[ring].Hide?
    }

    /** The value a read yields before wrapping; None is the KeyError of a hidden key. */
    function Read(key: string, v: Json, depth: nat): Option<Json> {
      var p := PolicyFor(key, depth);
      if p.None? then None
      else if ring !in p.value then Some(v)
      else match p.value[ring]
        case Hide => None
        case Apply(f) => Some(f(v))
        case Keep => Some(v)
    }
  }

  /** A read succeeds exactly for visible keys, except where the key's policy does not mention
      the ring: then the read succeeds although the key is left out of iteration. */
  lemma ReadableIffVisible(l: Lens, key: string, v: Json, depth: nat)
    ensures (l.Read(key, v, depth).Some? <==> !l.Hidden(key, depth))
      <==> (l.PolicyFor(key, depth).None? || l.ring in l.PolicyFor(key, depth).value)
  {
  }

  // ---------- Eager redaction ----------

  /** Redaction of a value that sits at a depth; below the limit values are returned raw. */
  function Redact(l: Lens, v: Json, depth: nat): Json
    decreases l.limit + 1 - depth
  {
    if depth > l.limit then v
    else match v
      case Obj(m) => Obj(RedactFields(l, m, depth))
      case Arr(items) => Arr(RedactItems(l, items, depth))
      case _ => v
  }

  function RedactFields(l: Lens, m: map<string, Json>, depth: nat): map<string, Json>
    requires depth <= l.limit
    decreases l.limit + 1 - depth, 0
  {
    map k | k in m && !l.Hidden(k, depth) :: Redact(l, l.Read(k, m[k], depth).value, depth + 1)
  }

  function RedactItems(l: Lens, items: seq<Json>, depth: nat): seq<Json>
    requires depth <= l.limit
    decreases l.limit + 1 - depth, 0
  {
    seq(|items|, i requires 0 <= i < |items| => Redact(l, items[i], depth + 1))
  }

  // ---------- The code: proxies ----------

  /** What reading through a view gives: a nested proxy, a protected list, or a plain value. */
  datatype View = Plain(v: Json) | DictView(proxy: StateViewProxy) | ListView(items: seq<Json>, depth: nat)

  /** w is the wrapping of v at a depth. */
  ghost predicate Wraps(l: Lens, w: View, v: Json, depth: nat)
    reads if w.DictView? then {w.proxy} else {}
  {
    if depth > l.limit then w == Plain(v)
    else match v
      case Obj(m) =>
        && w.DictView? && w.proxy.lens == l && w.proxy.core == m && w.proxy.depth == depth
        && w.proxy.writeCache == map[]
      case Arr(items) => w == ListView(items, depth)
      case _ => w == Plain(v)
  }

  method RecursiveWrap(l: Lens, v: Json, depth: nat) returns (w: View)
    ensures Wraps(l, w, v, depth)
    ensures w.DictView? ==> fresh(w.proxy)
    ensures !w.Plain? ==> depth <= l.limit
  {
    if depth > l.limit {
      return Plain(v);
    }
    match v
    case Obj(m) =>
      var proxy := new StateViewProxy(l, m, depth);
      w := DictView(proxy);
    case Arr(items) => w := ListView(items, depth);
    case _ => w := Plain(v);
  }

  class StateViewProxy {
    const lens: Lens
    const core: map<string, Json>
    const depth: nat
    var writeCache: map<string, Json>
    var accessLog: set<string>

    constructor (lens: Lens, core: map<string, Json>, depth: nat)
      ensures this.lens == lens && this.core == core && this.depth == depth
      ensures writeCache == map[] && accessLog == {}
    {
      this.lens, this.core, this.depth := lens, core, depth;
      writeCache, accessLog := map[], {};
    }

    method GetItem(key: string) returns (r: Option<View>)
      modifies this`accessLog
      ensures key in writeCache ==> r == Some(Plain(writeCache[key])) && accessLog == old(accessLog)
      ensures key !in writeCache ==>
        && (r.Some? <==> key in core && lens.Read(key, core[key], depth).Some?)
        && (r.Some? ==> Wraps(lens, r.value, lens.Read(key, core[key], depth).value, depth + 1))
        && accessLog == if r.Some? then old(accessLog) + {key} else old(accessLog)
      ensures r.Some? && r.value.DictView? ==> fresh(r.value.proxy)
    {
      if key in writeCache {
        return Some(Plain(writeCache[key]));
      }
      if key !in core {
        return None;
      }
      var transformed := lens.Read(key, core[key], depth);
      if transformed.None? {
        return None;
      }
      var wrapped := RecursiveWrap(lens, transformed.value, depth + 1);
      accessLog := accessLog + {key};
      return Some(wrapped);
    }

    /** The keys iteration yields. */
    function Keys(): set<string>
      reads this`writeCache
    {
      (set k | k in core && !lens.Hidden(k, depth)) + writeCache.Keys
    }

    method SetItem(key: string, value: Json)
      modifies this`writeCache
      ensures writeCache == if IsBlocked(lens.ring, key) then old(writeCache) else old(writeCache)[key := value]
    {
      if IsBlocked(lens.ring, key) {
        return;
      }
      writeCache := writeCache[key := value];
    }

    /** Forgets a write; core keys cannot be deleted. */
    method DelItem(key: string)
      modifies this`writeCache
      ensures writeCache == old(writeCache) - {key}
    {
      if key in writeCache {
        writeCache := writeCache - {key};
      }
    }

    /** One key of `to_dict`: read it and make it plain; None where the read raises. */
    method PlainItem(key: string) returns (r: Option<Json>)
      requires depth <= lens.limit
      modifies this`accessLog
      ensures key in writeCache ==> r == Some(writeCache[key]) && accessLog == old(accessLog)
      ensures key !in writeCache && key in core && lens.Read(key, core[key], depth).Some? ==>
        && r == Some(Redact(lens, lens.Read(key, core[key], depth).value, depth + 1))
        && accessLog == old(accessLog) + {key}
      decreases lens.limit + 1 - depth, 1
    {
      var val := this.GetItem(key);
      if val.None? {
        return None;
      }
      if key in writeCache {
        return Some(val.value.v);
      }
      var plain := Materialize(val.value, lens, lens.Read(key, core[key], depth).value, depth + 1);
      return Some(plain);
    }

    /** The plain dictionary: the eager redaction of the core, overlaid with the writes. */
    method ToDict() returns (result: map<string, Json>)
      requires depth <= lens.limit
      modifies this`accessLog
      ensures result == RedactFields(lens, core, depth) + writeCache
      ensures accessLog == old(accessLog) + (Keys() - writeCache.Keys)
      decreases lens.limit + 1 - depth, 2
    {
      result := map[];
      var rest := Keys();
      while rest != {}
        invariant rest <= Keys() && result.Keys == Keys() - rest
        invariant forall k :: k in result ==> result[k] == (RedactFields(lens, core, depth) + writeCache)[k]
        invariant accessLog == old(accessLog) + (Keys() - writeCache.Keys - rest)
      {
        var key :| key in rest;
        var plain := PlainItem(key);
        if plain.Some? {
          result := result[key := plain.value];
        }
        rest := rest - {key};
      }
    }
  }

  /** The plain form of a wrapped value: the type test that `to_dict` and `_materialize_list` share. */
  method Materialize(w: View, l: Lens, ghost v: Json, depth: nat) returns (r: Json)
    requires depth <= l.limit + 1 && Wraps(l, w, v, depth)
    modifies if w.DictView? then {w.proxy} else {}
    ensures r == Redact(l, v, depth)
    decreases l.limit + 1 - depth, 3
  {
    match w
    case DictView(proxy) =>
      var nested := proxy.ToDict();
      r := Obj(nested);
    case ListView(items, d) =>
      var nested := MaterializeList(l, items, d);
      r := Arr(nested);
    case Plain(p) => r := p;
  }

  method MaterializeList(l: Lens, items: seq<Json>, depth: nat) returns (result: seq<Json>)
    requires depth <= l.limit
    ensures result == RedactItems(l, items, depth)
    decreases l.limit + 1 - depth, 1
  {
    result := [];
    for i := 0 to |items|
      invariant |result| == i && forall j :: 0 <= j < i ==> result[j] == RedactItems(l, items, depth)[j]
    {
      var item := RecursiveWrap(l, items[i], depth + 1);
      var plain := Materialize(item, l, items[i], depth + 1);
      result := result + [plain];
    }
  }

  // ---------- Which rule governs a key ----------

  ghost predicate FirstExact(ps: Policies, i: nat, key: string) {
    i < |ps| && ps[i].pattern == key && forall j :: 0 <= j < i ==> ps[j].pattern != key
  }

  ghost predicate NoExact(ps: Policies, key: string) {
    forall j :: 0 <= j < |ps| ==> ps[j].pattern != key
  }

  /** q is pattern p without the stars at its end. */
  ghost predicate Stem(p: string, q: string) {
    && q <= p && (forall i :: |q| <= i < |p| ==> p[i] == '*')
    && (q == "" || q[|q| - 1] != '*')
  }

  ghost predicate WildMatches(p: string, key: string) {
    '*' in p && exists q :: Stem(p, q) && q <= key
  }

  ghost predicate FirstWild(ps: Policies, i: nat, key: string) {
    i < |ps| && WildMatches(ps[i].pattern, key) && forall j :: 0 <= j < i ==> !WildMatches(ps[j].pattern, key)
  }

  ghost predicate NoWild(ps: Policies, key: string) {
    forall j :: 0 <= j < |ps| ==> !WildMatches(ps[j].pattern, key)
  }

  lemma {:induction false} StripStarsIsStem(p: string, q: string)
    ensures Stem(p, StripStars(p))
    ensures Stem(p, q) ==> q == StripStars(p)
    decreases |p|
  {
    if p != "" && p[|p| - 1] == '*' {
      var init := p[..|p| - 1];
      StripStarsIsStem(init, q);
      if Stem(p, q) { assert |q| < |p|; assert Stem(init, q); }
    }
  }

  lemma WildMatchesIff(p: string, key: string)
    ensures WildMatches(p, key) <==> '*' in p && StripStars(p) <= key
  {
    StripStarsIsStem(p, "");
    if q :| Stem(p, q) && q <= key { StripStarsIsStem(p, q); }
  }

  lemma {:induction false} ExactFinds(ps: Policies, i: nat, key: string)
    ensures FirstExact(ps, i, key) ==> Exact(ps, key) == Some(ps[i].policy)
    ensures NoExact(ps, key) ==> Exact(ps, key) == None
    decreases |ps|
  {
    if ps == [] {
    } else {
      assert ps == [ps[0]] + ps[1..];
      ExactFinds(ps[1..], if i == 0 then 0 else i - 1, key);
    }
  }

  lemma {:induction false} WildcardFinds(ps: Policies, i: nat, key: string)
    ensures FirstWild(ps, i, key) ==> Wildcard(ps, key) == Some(ps[i].policy)
    ensures NoWild(ps, key) ==> Wildcard(ps, key) == None
    decreases |ps|
  {
    if ps == [] {
    } else {
      WildMatchesIff(ps[0].pattern, key);
      hide WildMatches, StripStars;
      assert ps == [ps[0]] + ps[1..];
      WildcardFinds(ps[1..], if i == 0 then 0 else i - 1, key);
    }
  }

  ghost predicate HiddenWhenNested(key: string) {
    "__hidden_" <= key || "_kernel_" <= key || "__s3_" <= key
  }

  /** The policy p governs the key: the first entry of just that name, else the first wildcard entry
      whose stem the key begins with, else everything is shown; None hides keys of the kernel from
      rings 2 and 3 below the root. */
  ghost predicate Governs(l: Lens, key: string, depth: nat, p: Option<Policy>) {
    || (exists i: nat :: FirstExact(l.policies, i, key) && p == Some(l.policies[i].policy))
    || (NoExact(l.policies, key) && exists i: nat :: FirstWild(l.policies, i, key) && p == Some(l.policies[i].policy))
    || (NoExact(l.policies, key) && NoWild(l.policies, key)
        && p == if depth > 0 && l.ring >= 2 && HiddenWhenNested(key) then None else Some(ALLOW_ALL))
  }

  lemma PolicyIsGoverning(l: Lens, key: string, depth: nat, p: Option<Policy>)
    requires Governs(l, key, depth, p)
    ensures l.PolicyFor(key, depth) == p
  {
    hide Stem, WildMatches, Exact, Wildcard, StripStars;
    ExactFinds(l.policies, 0, key);
    WildcardFinds(l.policies, 0, key);
    if i: nat :| FirstExact(l.policies, i, key) && p == Some(l.policies[i].policy) {
      ExactFinds(l.policies, i, key);
    } else if i: nat :| NoExact(l.policies, key) && FirstWild(l.policies, i, key) && p == Some(l.policies[i].policy) {
      WildcardFinds(l.policies, i, key);
    } else {
      assert NESTED_HIDDEN_PREFIXES[0] == "__hidden_" && NESTED_HIDDEN_PREFIXES[1] == "_kernel_" && NESTED_HIDDEN_PREFIXES[2] == "__s3_";
    }
  }

  /** What a policy makes of a value for a ring, None being hidden. */
  function Ruled(p: Policy, ring: int, v: Json): Option<Json> {
    if ring !in p then None
    else match p[ring]
      case Hide => None
      case Apply(f) => Some(f(v))
      case Keep => Some(v)
  }

  /** What the governing policy makes of a key of the core: hidden without a rule for the ring or
      with None, transformed first and redacted further down, or shown with its redaction. */
  ghost predicate ShownBy(l: Lens, p: Option<Policy>, v: Json, shown: Option<Json>, depth: nat)
    requires depth <= l.limit
  {
    var ruled := if p.Some? then Ruled(p.value, l.ring, v) else None;
    shown == if ruled.Some? then Some(Redact(l, ruled.value, depth + 1)) else None
  }

  function Lookup(m: map<string, Json>, k: string): Option<Json> {
    if k in m then Some(m[k]) else None
  }

  lemma ViewByPolicy(l: Lens, core: map<string, Json>, key: string, p: Option<Policy>, depth: nat)
    requires depth <= l.limit && key in core && Governs(l, key, depth, p)
    ensures ShownBy(l, p, core[key], Lookup(RedactFields(l, core, depth), key), depth)
  {
    PolicyIsGoverning(l, key, depth, p);
    hide Governs, Lens.PolicyFor, Redact;
  }

  // ---------- What a view tells apart ----------

  predicate Shown(l: Lens, m: map<string, Json>, k: string, depth: nat) {
    k in m && !l.Hidden(k, depth)
  }

  /** v and w differ, seen from a depth, only in hidden entries and in what transformers drop. */
  ghost predicate Agree(l: Lens, v: Json, w: Json, depth: nat)
    decreases l.limit + 1 - depth
  {
    if depth > l.limit then v == w
    else if v.Obj? && w.Obj? then AgreeFields(l, v.fields, w.fields, depth)
    else if v.Arr? && w.Arr? then
      |v.items| == |w.items| && forall i :: 0 <= i < |v.items| ==> Agree(l, v.items[i], w.items[i], depth + 1)
    else v == w
  }

  ghost predicate AgreeFields(l: Lens, m: map<string, Json>, n: map<string, Json>, depth: nat)
    requires depth <= l.limit
    decreases l.limit + 1 - depth, 0
  {
    forall k :: !l.Hidden(k, depth) ==>
      && (k in m <==> k in n)
      && (k in m ==> Agree(l, l.Read(k, m[k], depth).value, l.Read(k, n[k], depth).value, depth + 1))
  }

  /** Two states give equal views exactly when they agree: nothing hidden shows through. */
  lemma {:induction false} EqualViewsIffAgree(l: Lens, v: Json, w: Json, depth: nat)
    ensures Redact(l, v, depth) == Redact(l, w, depth) <==> Agree(l, v, w, depth)
    decreases l.limit + 1 - depth
  {
    if depth > l.limit {
    } else {
      if v.Obj? && w.Obj? {
        EqualFieldsIffAgree(l, v.fields, w.fields, depth);
      } else if v.Arr? && w.Arr? {
        forall i | 0 <= i < |v.items| && i < |w.items|
          ensures Redact(l, v.items[i], depth + 1) == Redact(l, w.items[i], depth + 1)
            <==> Agree(l, v.items[i], w.items[i], depth + 1)
        {
          EqualViewsIffAgree(l, v.items[i], w.items[i], depth + 1);
        }
        var x, y := RedactItems(l, v.items, depth), RedactItems(l, w.items, depth);
        assert forall i :: 0 <= i < |x| ==> x[i] == Redact(l, v.items[i], depth + 1);
        assert forall i :: 0 <= i < |y| ==> y[i] == Redact(l, w.items[i], depth + 1);
      }
    }
  }

  /** The same for whole dictionaries, so for the result of `to_dict` on two core states. */
  lemma {:induction false} EqualFieldsIffAgree(l: Lens, m: map<string, Json>, n: map<string, Json>, depth: nat)
    requires depth <= l.limit
    ensures RedactFields(l, m, depth) == RedactFields(l, n, depth) <==> AgreeFields(l, m, n, depth)
    decreases l.limit + 1 - depth, 0
  {
    var x, y := RedactFields(l, m, depth), RedactFields(l, n, depth);
    forall k | Shown(l, m, k, depth) && Shown(l, n, k, depth)
      ensures x[k] == y[k]
        <==> Agree(l, l.Read(k, m[k], depth).value, l.Read(k, n[k], depth).value, depth + 1)
    {
      EqualViewsIffAgree(l, l.Read(k, m[k], depth).value, l.Read(k, n[k], depth).value, depth + 1);
    }
    assert forall k :: k in x <==> Shown(l, m, k, depth);
    assert forall k :: k in y <==> Shown(l, n, k, depth);
    if AgreeFields(l, m, n, depth) {
      assert forall k :: k in x ==> k in y && x[k] == y[k];
    }
    if x == y {
      forall k | !l.Hidden(k, depth)
        ensures k in m <==> k in n
        ensures k in m ==> Agree(l, l.Read(k, m[k], depth).value, l.Read(k, n[k], depth).value, depth + 1)
      {
        assert k in x <==> k in y;
      }
    }
  }

  /** In particular the value of a hidden key never matters, at any depth within the limit. */
  lemma HiddenValueIsInvisible(l: Lens, m: map<string, Json>, k: string, v: Json, depth: nat)
    requires depth <= l.limit && l.Hidden(k, depth)
    ensures RedactFields(l, m[k := v], depth) == RedactFields(l, m, depth) == RedactFields(l, m - {k}, depth)
  {
  }

  // ---------- The depth limit ----------

  /** A larger limit changes nothing: what a view with the limit of l hands out raw is what a view
      with limit m makes of it.  Transformers may do anything. */
  ghost predicate CutHarmless(l: Lens, v: Json, depth: nat, m: nat)
    decreases l.limit + 1 - depth
  {
    if depth > l.limit then Redact(l.(limit := m), v, depth) == v
    else match v
      case Obj(fields) => forall k :: Shown(l, fields, k, depth) ==>
        CutHarmless(l, l.Read(k, fields[k], depth).value, depth + 1, m)
      case Arr(items) => forall i :: 0 <= i < |items| ==> CutHarmless(l, items[i], depth + 1, m)
      case _ => true
  }

  lemma LimitIsNoPolicy(l: Lens, key: string, v: Json, depth: nat, m: nat)
    ensures l.(limit := m).Hidden(key, depth) == l.Hidden(key, depth)
    ensures l.(limit := m).Read(key, v, depth) == l.Read(key, v, depth)
    ensures !l.Hidden(key, depth) ==> l.Read(key, v, depth).Some?
  {
    hide Exact, Wildcard;
  }

  /** For all policies: raising the limit leaves a view as it is exactly when the raw parts it
      shows are unchanged by redaction. */
  lemma {:induction false} HigherLimitIff(l: Lens, v: Json, depth: nat, m: nat)
    requires m >= l.limit
    ensures Redact(l.(limit := m), v, depth) == Redact(l, v, depth) <==> CutHarmless(l, v, depth, m)
    decreases l.limit + 1 - depth
  {
    hide Lens.Hidden, Lens.Read, Lens.PolicyFor;
    if depth > l.limit {
    } else {
      match v
      case Obj(fields) =>
        var x, y := RedactFields(l.(limit := m), fields, depth), RedactFields(l, fields, depth);
        forall k
          ensures k in x <==> Shown(l, fields, k, depth)
          ensures Shown(l, fields, k, depth) ==> l.Read(k, fields[k], depth).Some?
        {
          if k in fields { LimitIsNoPolicy(l, k, fields[k], depth, m); }
        }
        forall k | Shown(l, fields, k, depth)
          ensures x[k] == y[k] <==> CutHarmless(l, l.Read(k, fields[k], depth).value, depth + 1, m)
        {
          LimitIsNoPolicy(l, k, fields[k], depth, m);
          HigherLimitIff(l, l.Read(k, fields[k], depth).value, depth + 1, m);
        }
        assert x.Keys == y.Keys;
        SameEntries(x, y);
      case Arr(items) =>
        var x, y := RedactItems(l.(limit := m), items, depth), RedactItems(l, items, depth);
        forall i | 0 <= i < |items| ensures x[i] == y[i] <==> CutHarmless(l, items[i], depth + 1, m) {
          HigherLimitIff(l, items[i], depth + 1, m);
        }
        SameItems(x, y);
      case _ =>
    }
  }

  /** Each transformer returns its input or something without structure of its own. */
  ghost predicate Tame(ps: Policies) {
    forall i, r, v :: 0 <= i < |ps| && r in ps[i].policy && ps[i].policy[r].Apply? ==>
      var w := ps[i].policy[r].f(v);
      w == v || (!w.Obj? && !w.Arr?)
  }

  lemma {:induction false} TameRead(l: Lens, key: string, v: Json, depth: nat)
    requires Tame(l.policies) && l.Read(key, v, depth).Some?
    ensures var w := l.Read(key, v, depth).value; w == v || (!w.Obj? && !w.Arr?)
  {
    var p := l.PolicyFor(key, depth);
    FoundPolicy(l.policies, key);
    if p.Some? && l.ring in p.value && p.value[l.ring].Apply? && p.value != ALLOW_ALL {
      var i :| 0 <= i < |l.policies| && l.policies[i].policy == p.value;
      assert l.policies[i].policy[l.ring].Apply?;
    }
  }

  lemma {:induction false} FoundPolicy(ps: Policies, key: string)
    ensures Exact(ps, key).Some? ==> exists i :: 0 <= i < |ps| && ps[i].policy == Exact(ps, key).value
    ensures Wildcard(ps, key).Some? ==> exists i :: 0 <= i < |ps| && ps[i].policy == Wildcard(ps, key).value
  {
    if ps == [] {
    } else {
      FoundPolicy(ps[1..], key);
      assert ps == [ps[0]] + ps[1..];
      assert forall i :: 1 <= i < |ps| ==> ps[i] == ps[1..][i - 1];
    }
  }

  /** Redaction without a depth limit; only the root is not nested. */
  ghost function Project(l: Lens, v: Json, nested: bool): Json
    requires Tame(l.policies)
    decreases v
  {
    match v
    case Obj(m) => Obj(map k | k in m && !l.Hidden(k, if nested then 1 else 0) ::
      TameRead(l, k, m[k], if nested then 1 else 0);
      var w := l.Read(k, m[k], if nested then 1 else 0).value;
      if w == m[k] then Project(l, m[k], true) else w)
    case Arr(items) => Arr(seq(|items|, i requires 0 <= i < |items| => Project(l, items[i], true)))
    case _ => v
  }

  /** Below the limit, every subtree that is still visible is its own projection. */
  ghost predicate LimitHarmless(l: Lens, v: Json, depth: nat)
    requires Tame(l.policies)
    decreases v
  {
    if depth > l.limit then Project(l, v, true) == v
    else match v
      case Obj(m) => forall k :: Shown(l, m, k, depth) && l.Read(k, m[k], depth).value == m[k] ==>
        LimitHarmless(l, m[k], depth + 1)
      case Arr(items) => forall i :: 0 <= i < |items| ==> LimitHarmless(l, items[i], depth + 1)
      case _ => true
  }

  /** One visible entry, redacted and projected. */
  lemma ProjectEntry(l: Lens, m: map<string, Json>, k: string, depth: nat)
    requires Tame(l.policies) && depth <= l.limit && Shown(l, m, k, depth)
    ensures var y := Project(l, Obj(m), depth > 0); y.Obj? && k in y.fields
    ensures var r, y := l.Read(k, m[k], depth).value, Project(l, Obj(m), depth > 0).fields[k];
      if r == m[k] then y == Project(l, m[k], true)
      else y == r && Redact(l, r, depth + 1) == r
  {
    TameRead(l, k, m[k], depth);
  }

  /** Redaction is the unlimited projection exactly when nothing visible below the limit
      would have been redacted. */
  lemma {:induction false} LimitHarmlessIff(l: Lens, v: Json, depth: nat)
    requires Tame(l.policies)
    ensures Redact(l, v, depth) == Project(l, v, depth > 0) <==> LimitHarmless(l, v, depth)
    decreases v, 1
  {
    if depth > l.limit {
    } else {
      match v
      case Obj(m) => FieldsHarmlessIff(l, m, depth);
      case Arr(items) =>
        hide Tame;
        var x, y := RedactItems(l, items, depth), Project(l, v, depth > 0).items;
        forall i | 0 <= i < |items| ensures x[i] == y[i] <==> LimitHarmless(l, items[i], depth + 1) {
          LimitHarmlessIff(l, items[i], depth + 1);
        }
        SameItems(x, y);
      case _ =>
    }
  }

  predicate KeptAsIs(l: Lens, m: map<string, Json>, k: string, depth: nat) {
    Shown(l, m, k, depth) && l.Read(k, m[k], depth).value == m[k]
  }

  lemma EntriesShown(l: Lens, m: map<string, Json>, depth: nat)
    requires Tame(l.policies) && depth <= l.limit
    ensures Project(l, Obj(m), depth > 0).Obj?
    ensures forall k :: k in RedactFields(l, m, depth) <==> Shown(l, m, k, depth)
    ensures forall k :: k in Project(l, Obj(m), depth > 0).fields <==> Shown(l, m, k, depth)
    ensures LimitHarmless(l, Obj(m), depth) <==> forall k :: KeptAsIs(l, m, k, depth) ==> LimitHarmless(l, m[k], depth + 1)
  {
  }

  lemma {:induction false} FieldsHarmlessIff(l: Lens, m: map<string, Json>, depth: nat)
    requires Tame(l.policies) && depth <= l.limit
    ensures Obj(RedactFields(l, m, depth)) == Project(l, Obj(m), depth > 0) <==> LimitHarmless(l, Obj(m), depth)
    decreases Obj(m), 0
  {
    EntriesShown(l, m, depth);
    var x, y := RedactFields(l, m, depth), Project(l, Obj(m), depth > 0).fields;
    forall k | Shown(l, m, k, depth)
      ensures x[k] == y[k] <==> (KeptAsIs(l, m, k, depth) ==> LimitHarmless(l, m[k], depth + 1))
    {
      ProjectEntry(l, m, k, depth);
      if KeptAsIs(l, m, k, depth) {
        LimitHarmlessIff(l, m[k], depth + 1);
      }
      hide Tame, Project, LimitHarmless;
    }
    hide Tame, Project, LimitHarmless, RedactFields, Shown, KeptAsIs;
    SameEntries(x, y);
  }

  lemma SameItems(x: seq<Json>, y: seq<Json>)
    requires |x| == |y|
    ensures x == y <==> forall i :: 0 <= i < |x| ==> x[i] == y[i]
  {
  }

  lemma SameEntries(x: map<string, Json>, y: map<string, Json>)
    requires x.Keys == y.Keys
    ensures x == y <==> forall k :: k in x ==> x[k] == y[k]
  {
  }

  /** Dictionaries and lists are nested at most n deep. */
  ghost predicate Shallow(v: Json, n: nat)
    decreases v
  {
    match v
    case Obj(m) => n > 0 && forall k :: k in m ==> Shallow(m[k], n - 1)
    case Arr(items) => n > 0 && forall i :: 0 <= i < |items| ==> Shallow(items[i], n - 1)
    case _ => true
  }

  lemma {:induction false} ShallowIsHarmless(l: Lens, v: Json, depth: nat)
    requires Tame(l.policies) && depth <= l.limit + 1 && Shallow(v, l.limit + 1 - depth)
    ensures LimitHarmless(l, v, depth)
    decreases v
  {
    if depth > l.limit {
    } else {
      match v
      case Obj(m) =>
        forall k | k in m ensures LimitHarmless(l, m[k], depth + 1) { ShallowIsHarmless(l, m[k], depth + 1); }
      case Arr(items) =>
        forall i | 0 <= i < |items| ensures LimitHarmless(l, items[i], depth + 1) {
          ShallowIsHarmless(l, items[i], depth + 1);
        }
      case _ =>
    }
  }

  /** On states within the limit the view is the projection. */
  lemma ShallowViewIsProjection(l: Lens, v: Json, depth: nat)
    requires Tame(l.policies) && depth <= l.limit + 1 && Shallow(v, l.limit + 1 - depth)
    ensures Redact(l, v, depth) == Project(l, v, depth > 0)
  {
    ShallowIsHarmless(l, v, depth);
    LimitHarmlessIff(l, v, depth);
  }

  /** v under n dictionaries, each with the one key k. */
  function Nest(k: string, n: nat, v: Json): Json {
    if n == 0 then v else Obj(map[k := Nest(k, n - 1, v)])
  }

  ghost predicate ShownAsIs(l: Lens, k: string) {
    forall d: nat, w: Json :: !l.Hidden(k, d) && l.Read(k, w, d) == Some(w)
  }

  /** Past the limit a view shows everything: v is returned raw, hidden keys included. */
  lemma {:induction false} DeepValueIsRaw(l: Lens, k: string, n: nat, v: Json, depth: nat)
    requires depth + n == l.limit + 1
    requires ShownAsIs(l, k)
    ensures Redact(l, Nest(k, n, v), depth) == Nest(k, n, v)
    decreases n
  {
    if n == 0 {
    } else {
      DeepValueIsRaw(l, k, n - 1, v, depth + 1);
      assert l.Read(k, Nest(k, n - 1, v), depth) == Some(Nest(k, n - 1, v)) && !l.Hidden(k, depth);
      assert RedactFields(l, map[k := Nest(k, n - 1, v)], depth) == map[k := Nest(k, n - 1, v)];
    }
  }

  // ---------- The default policies ----------

  function AfterLastDash(s: string): string {
    if s == "" || s[|s| - 1] == '-' then "" else AfterLastDash(s[..|s| - 1]) + [s[|s| - 1]]
  }

  function MaskSsn(v: Json): Json {
    if v.Str? && '-' in v.s then Str("***-" + AfterLastDash(v.s)) else Str("REDACTED")
  }

  /** The digest of the e-mail address is a parameter. */
  function DefaultPolicies(digest: Json -> string): Policies {
    [ Entry("email", map[0 := ID, 1 := ID, 2 := ID, 3 := Apply(v => Str(digest(v)))]),
      Entry("ssn", map[0 := ID, 1 := Apply(MaskSsn), 2 := Apply(v => Str("REDACTED")), 3 := Apply(v => Str("REDACTED"))]),
      Entry("password", map[0 := ID, 1 := Hide, 2 := Hide, 3 := Hide]),
      Entry("_kernel_*", map[0 := ID, 1 := ID, 2 := Hide, 3 := Hide]),
      Entry("__next_node", map[0 := ID, 1 := ID, 2 := ID, 3 := ID]) ]
  }

  lemma DefaultsAreTame(digest: Json -> string)
    ensures Tame(DefaultPolicies(digest))
  {
  }

  /** Whatever follows the last dash stays of a social security number, for ring 1. */
  lemma MaskSsnIs(v: Json, a: string, b: string)
    ensures v == Str(a + "-" + b) && '-' !in b ==> MaskSsn(v) == Str("***-" + b)
    ensures !v.Str? || '-' !in v.s ==> MaskSsn(v) == Str("REDACTED")
  {
    if v == Str(a + "-" + b) && '-' !in b {
      assert (a + "-" + b)[|a|] == '-';
      AfterLastDashIs(a, b);
    }
  }

  lemma {:induction false} AfterLastDashIs(a: string, b: string)
    requires '-' !in b
    ensures AfterLastDash(a + "-" + b) == b
    decreases |b|
  {
    var s := a + "-" + b;
    if b == "" {
      assert s[|s| - 1] == '-';
    } else {
      var init := b[..|b| - 1];
      assert s[..|s| - 1] == a + "-" + init && s[|s| - 1] == b[|b| - 1];
      AfterLastDashIs(a, init);
      assert b == init + [b[|b| - 1]];
    }
  }

  lemma DefaultPatterns(digest: Json -> string, k: string)
    ensures var ps := DefaultPolicies(digest);
      && |ps| == 5 && ps[0].pattern == "email" && ps[1].pattern == "ssn" && ps[2].pattern == "password"
      && ps[3].pattern == "_kernel_*" && ps[4].pattern == "__next_node"
    ensures "email" != "ssn" && "email" != "password" && "ssn" != "password"
    ensures k in {"email", "ssn", "password"} ==> k != "_kernel_*" && k != "__next_node" && !("_kernel_" <= k)
    ensures !("_kernel_" <= "__next_node") && "__next_node" != "_kernel_*"
  {
    assert "email"[0] == 'e' && "ssn"[0] == 's' && "password"[0] == 'p' && "_kernel_"[0] == '_' && "_kernel_*"[0] == '_';
    assert "__next_node"[0] == '_' && "__next_node"[1] == '_' && "_kernel_"[1] == 'k' && "_kernel_*"[1] == 'k';
  }

  lemma KernelPattern(key: string)
    ensures WildMatches("_kernel_*", key) <==> "_kernel_" <= key
    ensures !WildMatches("email", key) && !WildMatches("ssn", key) && !WildMatches("password", key) && !WildMatches("__next_node", key)
  {
    var p := "_kernel_*";
    assert p[8] == '*' && |p| == 9 && p[..8] == "_kernel_";
    assert Stem(p, "_kernel_");
    StripStarsIsStem(p, "_kernel_");
    WildMatchesIff(p, key);
  }

  /** The policy of a key among the default ones, by its position. */
  lemma DefaultGoverns(digest: Json -> string, ring: int, key: string, depth: nat)
    ensures var ps := DefaultPolicies(digest); var l := Lens(ring, ps, MAX_PROXY_DEPTH);
      && |ps| == 5
      && (key == "email" ==> Governs(l, key, depth, Some(ps[0].policy)))
      && (key == "ssn" ==> Governs(l, key, depth, Some(ps[1].policy)))
      && (key == "password" ==> Governs(l, key, depth, Some(ps[2].policy)))
      && ("_kernel_" <= key ==> Governs(l, key, depth, Some(ps[3].policy)))
      && (key == "__next_node" ==> Governs(l, key, depth, Some(ps[4].policy)))
      && (key !in {"email", "ssn", "password", "__next_node"} && !("_kernel_" <= key) ==>
            Governs(l, key, depth, if depth > 0 && ring >= 2 && HiddenWhenNested(key) then None else Some(ALLOW_ALL)))
  {
    var ps := DefaultPolicies(digest);
    DefaultPatterns(digest, key);
    KernelPattern(key);
    hide DefaultPolicies, WildMatches, HiddenWhenNested;
    assert "_kernel_" <= "_kernel_*" by { assert "_kernel_*"[..8] == "_kernel_"; }
    if key == "email" {
      assert FirstExact(ps, 0, key);
    } else if key == "ssn" {
      assert FirstExact(ps, 1, key);
    } else if key == "password" {
      assert FirstExact(ps, 2, key);
    } else if key == "__next_node" {
      assert FirstExact(ps, 4, key);
    } else if key == "_kernel_*" {
      assert FirstExact(ps, 3, key);
    } else {
      assert NoExact(ps, key);
      if "_kernel_" <= key { assert FirstWild(ps, 3, key); } else { assert NoWild(ps, key); }
    }
  }

  /** What each ring sees of the root with the default policies. */
  lemma DefaultView(digest: Json -> string, ring: int, m: map<string, Json>, k: string)
    requires 0 <= ring <= 3 && k in m
    ensures var l := Lens(ring, DefaultPolicies(digest), MAX_PROXY_DEPTH);
      var shown, plain := Lookup(RedactFields(l, m, 0), k), Some(Redact(l, m[k], 1));
      && (k == "email" ==> shown == if ring <= 2 then plain else Some(Str(digest(m[k]))))
      && (k == "ssn" ==> shown == if ring == 0 then plain else if ring == 1 then Some(MaskSsn(m[k])) else Some(Str("REDACTED")))
      && (k == "password" ==> shown == if ring == 0 then plain else None)
      && ("_kernel_" <= k ==> shown == if ring <= 1 then plain else None)
      && (k !in {"email", "ssn", "password"} && !("_kernel_" <= k) ==> shown == plain)
  {
    var l := Lens(ring, DefaultPolicies(digest), MAX_PROXY_DEPTH);
    DefaultGoverns(digest, ring, k, 0);
    DefaultPatterns(digest, k);
    DefaultRules(digest, ring, m[k]);
    var ps := l.policies;
    hide Governs, HiddenWhenNested, RedactFields, DefaultPolicies, Ruled, MaskSsn;
    var p := if k == "email" then ps[0].policy else if k == "ssn" then ps[1].policy else if k == "password" then ps[2].policy
      else if "_kernel_" <= k then ps[3].policy else if k == "__next_node" then ps[4].policy else ALLOW_ALL;
    assert Governs(l, k, 0, Some(p));
    ViewByPolicy(l, m, k, Some(p), 0);
    TextIsPlain(l, digest(m[k]), 1);
    TextIsPlain(l, MaskSsn(m[k]).s, 1);
    TextIsPlain(l, "REDACTED", 1);
  }

  lemma TextIsPlain(l: Lens, s: string, depth: nat)
    ensures Redact(l, Str(s), depth) == Str(s)
  {
  }

  lemma DefaultRules(digest: Json -> string, ring: int, v: Json)
    requires 0 <= ring <= 3
    ensures var ps := DefaultPolicies(digest);
      && |ps| == 5
      && Ruled(ps[0].policy, ring, v) == Some(if ring <= 2 then v else Str(digest(v)))
      && Ruled(ps[1].policy, ring, v) == Some(if ring == 0 then v else if ring == 1 then MaskSsn(v) else Str("REDACTED"))
      && Ruled(ps[2].policy, ring, v) == (if ring == 0 then Some(v) else None)
      && Ruled(ps[3].policy, ring, v) == (if ring <= 1 then Some(v) else None)
      && Ruled(ps[4].policy, ring, v) == Some(v)
    ensures Ruled(ALLOW_ALL, ring, v) == Some(v)
    ensures MaskSsn(v).Str?
  {
  }

  /** Rings 2 and 3 see nothing of a social security number and ring 3 of an e-mail address nothing
      but its digest; the other rings see plain ones as they are. */
  lemma PersonalDataIsRedacted(digest: Json -> string, ring: int, m: map<string, Json>, v: Json, w: Json)
    requires 0 <= ring <= 3
    ensures var l := Lens(ring, DefaultPolicies(digest), MAX_PROXY_DEPTH);
      && (ring >= 2 ==> RedactFields(l, m["ssn" := v], 0) == RedactFields(l, m["ssn" := w], 0))
      && (ring == 3 && digest(v) == digest(w) ==>
            RedactFields(l, m["email" := v], 0) == RedactFields(l, m["email" := w], 0))
      && (!v.Obj? && !v.Arr? ==>
            && (ring <= 2 ==> Lookup(RedactFields(l, m["email" := v], 0), "email") == Some(v))
            && (ring == 0 ==> Lookup(RedactFields(l, m["ssn" := v], 0), "ssn") == Some(v)))
  {
    var l := Lens(ring, DefaultPolicies(digest), MAX_PROXY_DEPTH);
    DefaultView(digest, ring, m["ssn" := v], "ssn");
    DefaultView(digest, ring, m["ssn" := w], "ssn");
    DefaultView(digest, ring, m["email" := v], "email");
    DefaultView(digest, ring, m["email" := w], "email");
    OneKeyDiffers(l, m, "ssn", v, w);
    OneKeyDiffers(l, m, "email", v, w);
    hide RedactFields, DefaultPolicies;
  }

  /** States that differ under one key have views that differ at most there. */
  lemma OneKeyDiffers(l: Lens, m: map<string, Json>, k: string, v: Json, w: Json)
    requires 0 <= l.limit
    ensures var x, y := RedactFields(l, m[k := v], 0), RedactFields(l, m[k := w], 0);
      Lookup(x, k) == Lookup(y, k) ==> x == y
  {
    var x, y := RedactFields(l, m[k := v], 0), RedactFields(l, m[k := w], 0);
    hide Redact;
    if Lookup(x, k) == Lookup(y, k) {
      assert x.Keys == y.Keys;
      SameEntries(x, y);
    }
  }

  /** With the default policies, states nested at most MAX_PROXY_DEPTH + 1 deep are viewed as
      their full redaction. */
  lemma DefaultViewIsProjection(digest: Json -> string, ring: int, v: Json)
    requires Shallow(v, MAX_PROXY_DEPTH + 1)
    ensures Tame(DefaultPolicies(digest))
    ensures var l := Lens(ring, DefaultPolicies(digest), MAX_PROXY_DEPTH); Redact(l, v, 0) == Project(l, v, false)
  {
    DefaultsAreTame(digest);
    hide DefaultPolicies, Tame, Redact, Project, Shallow;
    ShallowViewIsProjection(Lens(ring, DefaultPolicies(digest), MAX_PROXY_DEPTH), v, 0);
  }

  /** A rule set is graded when what one ring hides every higher ring hides too. */
  ghost predicate Graded(p: Policy) {
    forall r, s :: 0 <= r <= s <= 3 ==> r in p && s in p && (p[r].Hide? ==> p[s].Hide?)
  }

  /** With the default policies a higher ring sees no key that a lower ring does not. */
  lemma HigherRingsSeeLess(digest: Json -> string, r: int, s: int, limit: nat, key: string, depth: nat)
    requires 0 <= r <= s <= 3
    ensures Lens(r, DefaultPolicies(digest), limit).Hidden(key, depth) ==> Lens(s, DefaultPolicies(digest), limit).Hidden(key, depth)
  {
    var ps := DefaultPolicies(digest);
    hide DefaultPolicies, Exact, Wildcard;
    assert forall i :: 0 <= i < |ps| ==> Graded(ps[i].policy) by { DefaultsAreGraded(digest); }
    FoundPolicy(ps, key);
    assert Graded(ALLOW_ALL);
  }

  lemma DefaultsAreGraded(digest: Json -> string)
    ensures forall i :: 0 <= i < |DefaultPolicies(digest)| ==> Graded(DefaultPolicies(digest)[i].policy)
  {
  }

  // ---------- Writing back ----------

  datatype Write = Set(key: string, value: Json) | Delete(key: string)

  predicate IsBlocked(ring: int, key: string) {
    ("_kernel_" <= key && ring >= 3) || key in RESERVED_KEYS
  }

  /** The write cache after a run of writes through one view. */
  function Written(ring: int, ws: seq<Write>): map<string, Json> {
    if ws == [] then map[]
    else
      var before, w := Written(ring, ws[..|ws| - 1]), ws[|ws| - 1];
      match w
      case Set(k, v) => if IsBlocked(ring, k) then before else before[k := v]
      case Delete(k) => before - {k}
  }

  /** merge_write_cache. */
  function Merge(core: map<string, Json>, cache: map<string, Json>): map<string, Json> {
    core + (cache - RESERVED_KEYS)
  }

  /** Whatever a node writes through a view, the merge leaves reserved keys alone (for ring 3
      kernel keys too) and loses none of the writes the view had accepted. */
  lemma {:induction false} MergedWritesRespectReserved(ring: int, core: map<string, Json>, ws: seq<Write>)
    ensures var cache, merged := Written(ring, ws), Merge(core, Written(ring, ws));
      && merged == core + cache
      && forall k :: IsBlocked(ring, k) ==> k !in cache && (k in merged <==> k in core) && (k in core ==> merged[k] == core[k])
  {
    if ws == [] {
    } else {
      MergedWritesRespectReserved(ring, core, ws[..|ws| - 1]);
    }
    var cache := Written(ring, ws);
    assert forall k :: k in RESERVED_KEYS ==> IsBlocked(ring, k);
    assert cache - RESERVED_KEYS == cache;
  }

  ghost predicate LastWriteAt(ws: seq<Write>, i: nat, k: string) {
    i < |ws| && ws[i].key == k && forall j :: i < j < |ws| ==> ws[j].key != k
  }

  /** The last accepted write at a key: None if there is none or it was deleted. */
  ghost predicate Accepted(ring: int, ws: seq<Write>, k: string, w: Option<Json>) {
    if k in RESERVED_KEYS || (ring >= 3 && "_kernel_" <= k) then w == None
    else if i: nat :| LastWriteAt(ws, i, k) then w == if ws[i].Set? then Some(ws[i].value) else None
    else w == None
  }

  lemma {:induction false} WrittenIsAccepted(ring: int, ws: seq<Write>, k: string)
    ensures Accepted(ring, ws, k, Lookup(Written(ring, ws), k))
  {
    if ws == [] {
    } else {
      var n := |ws| - 1;
      WrittenIsAccepted(ring, ws[..n], k);
      if ws[n].key == k {
        assert LastWriteAt(ws, n, k);
        assert forall i: nat :: LastWriteAt(ws, i, k) ==> i == n;
      } else {
        forall i: nat ensures LastWriteAt(ws, i, k) <==> LastWriteAt(ws[..n], i, k) {
          if i < n {
            assert ws[..n][i] == ws[i];
            assert forall j :: i < j < n ==> ws[..n][j] == ws[j];
          }
        }
      }
    }
  }

  /** After a node ran, the core holds under each key its last accepted write, else what it held. */
  lemma NodeWrites(ring: int, core: map<string, Json>, ws: seq<Write>, k: string) returns (w: Option<Json>)
    ensures Accepted(ring, ws, k, w)
    ensures Lookup(Merge(core, Written(ring, ws)), k) == if w.Some? then w else Lookup(core, k)
  {
    w := Lookup(Written(ring, ws), k);
    WrittenIsAccepted(ring, ws, k);
    MergedWritesRespectReserved(ring, core, ws);
  }

  /** After the merge a fresh view shows the same as before, exactly when every written value
      is visible and unredacted to its own ring. */
  lemma MergeKeepsViewIff(l: Lens, core: map<string, Json>, cache: map<string, Json>, depth: nat)
    requires depth <= l.limit
    ensures RedactFields(l, core + cache, depth) == RedactFields(l, core, depth) + cache
      <==> forall k :: k in cache ==>
        !l.Hidden(k, depth) && Redact(l, l.Read(k, cache[k], depth).value, depth + 1) == cache[k]
  {
    hide Redact;
    var x, y := RedactFields(l, core + cache, depth), RedactFields(l, core, depth) + cache;
    if forall k :: k in cache ==>
      !l.Hidden(k, depth) && Redact(l, l.Read(k, cache[k], depth).value, depth + 1) == cache[k]
    {
      assert x.Keys == y.Keys;
      assert forall k :: k in x ==> x[k] == y[k];
    }
    if x == y {
      forall k | k in cache ensures !l.Hidden(k, depth)
        && Redact(l, l.Read(k, cache[k], depth).value, depth + 1) == cache[k]
      {
        assert k in y && k in x;
      }
    }
  }

  class StateViewContext {
    var coreState: map<string, Json>
    const policies: Policies

    constructor (core: map<string, Json>, policies: Policies)
      ensures coreState == core && this.policies == policies
    {
      coreState := core;
      this.policies := policies;
    }

    /** Merge a write cache into the core, reserved keys filtered out one by one. */
    method MergeWriteCache(cache: map<string, Json>)
      modifies this`coreState
      ensures coreState == Merge(old(coreState), cache)
    {
      var filtered := map k | k in cache && k !in RESERVED_KEYS :: cache[k];
      assert filtered == cache - RESERVED_KEYS;
      coreState := coreState + filtered;
    }

    /** A node run: writes through a view of a ring, then the merge of its cache. */
    method RunNode(ring: int, ws: seq<Write>)
      modifies this`coreState
      ensures coreState == old(coreState) + Written(ring, ws)
    {
      var view := new StateViewProxy(Lens(ring, policies, MAX_PROXY_DEPTH), coreState, 0);
      for i := 0 to |ws|
        invariant fresh(view) && view.lens.ring == ring && view.writeCache == Written(ring, ws[..i])
        invariant coreState == old(coreState)
      {
        assert ws[..i + 1][..i] == ws[..i];
        match ws[i]
        case Set(k, v) => view.SetItem(k, v);
        case Delete(k) => view.DelItem(k);
      }
      assert ws[..|ws|] == ws;
      MergedWritesRespectReserved(ring, coreState, ws);
      MergeWriteCache(view.writeCache);
    }
  }
}
