/** Latency tracking and token budgets (model_router.py, AdaptiveTTFTTracker,
    _ensure_output_headroom and apply_budget_constraint).  Floats are modelled as reals.

    The tracker keeps a window of measured latencies per model and answers with their average,
    weighted by powers of a decay and clamped to a multiple of the model's base latency.  The
    headroom rules bound the thinking budget so that tokens are left for the output, and a budget
    constraint may shorten the output, switch the model or do neither.  The theorems give the
    configurations for which the average lies between the samples, the result between its bounds
    and the output share above its floor, and say when a constraint switches and where to. */
module Router {
  import opened Common

  function Min(a: int, b: int): int { if a <= b then a else b }

  /** int() of a float: truncation towards zero. */
  function Truncate(r: real): int {
    if r >= 0.0 then r.Floor else -((-r).Floor)
  }

  // ---------- The weighted average ----------

  /** Multiplication by name, so that proofs can keep it out of the solver's sight. */
  function Times(x: real, y: real): real { x * y }

  function Power(d: real, n: nat): real {
    if n == 0 then 1.0 else Times(d, Power(d, n - 1))
  }

  /** The sum with weight one for the last sample and a factor d for each step back. */
  function WeightedSum(s: seq<int>, d: real): real {
    if s == [] then 0.0 else Times(d, WeightedSum(s[..|s| - 1], d)) + s[|s| - 1] as real
  }

  function WeightTotal(n: nat, d: real): real {
    if n == 0 then 0.0 else Times(d, WeightTotal(n - 1, d)) + 1.0
  }

  /** Adding the samples one by one with their own powers gives the two sums. */
  method WeightedSums(s: seq<int>, d: real) returns (sum: real, total: real)
    ensures sum == WeightedSum(s, d) && total == WeightTotal(|s|, d)
  {
    hide Times;
    sum, total := 0.0, 0.0;
    TimesUnits(Power(d, |s|));
    for i := 0 to |s|
      invariant sum == Times(Power(d, |s| - i), WeightedSum(s[..i], d))
      invariant total == Times(Power(d, |s| - i), WeightTotal(i, d))
    {
      var weight := Power(d, |s| - 1 - i);
      assert s[..i + 1][..i] == s[..i];
      HornerStep(d, |s| - 1 - i, WeightedSum(s[..i], d), s[i] as real);
      HornerStep(d, |s| - 1 - i, WeightTotal(i, d), 1.0);
      TimesUnits(weight);
      sum := sum + Times(s[i] as real, weight);
      total := total + weight;
    }
    assert s[..|s|] == s;
    TimesUnits(WeightedSum(s, d));
    TimesUnits(WeightTotal(|s|, d));
  }

  lemma TimesUnits(x: real)
    ensures Times(x, 0.0) == 0.0 && Times(1.0, x) == x
  {
  }

  lemma HornerStep(d: real, n: nat, x: real, y: real)
    ensures Times(Power(d, n + 1), x) + Times(y, Power(d, n)) == Times(Power(d, n), Times(d, x) + y)
  {
    var p := Power(d, n);
    assert Power(d, n + 1) == d * p;
    assert (d * p) * x == p * (d * x);
  }

  /** Older samples weigh less by one factor for every newer one, and the last weighs fully. */
  lemma {:induction false} WeightedSumSplits(xs: seq<int>, ys: seq<int>, d: real)
    ensures WeightedSum(xs + ys, d) == Times(Power(d, |ys|), WeightedSum(xs, d)) + WeightedSum(ys, d)
    ensures WeightTotal(|xs| + |ys|, d) == Times(Power(d, |ys|), WeightTotal(|xs|, d)) + WeightTotal(|ys|, d)
    decreases |ys|
  {
    hide Times;
    TimesUnits(WeightedSum(xs, d));
    TimesUnits(WeightTotal(|xs|, d));
    if ys == [] {
      assert xs + ys == xs;
    } else {
      var init, last := ys[..|ys| - 1], ys[|ys| - 1] as real;
      WeightedSumSplits(xs, init, d);
      assert (xs + ys)[..|xs + ys| - 1] == xs + init;
      OneFactorMore(d, |init|, WeightedSum(xs, d), WeightedSum(init, d), last);
      OneFactorMore(d, |init|, WeightTotal(|xs|, d), WeightTotal(|init|, d), 1.0);
    }
  }

  lemma OneFactorMore(d: real, n: nat, x: real, y: real, z: real)
    ensures Times(d, Times(Power(d, n), x) + y) + z == Times(Power(d, n + 1), x) + (Times(d, y) + z)
  {
    var p := Power(d, n);
    assert Power(d, n + 1) == d * p;
    assert d * (p * x + y) == (d * p) * x + d * y;
  }

  lemma OneSample(x: int, d: real)
    ensures WeightedSum([x], d) == x as real && WeightTotal(1, d) == 1.0
    ensures Power(d, 0) == 1.0 && Power(d, 1) == d
  {
    assert [x][..0] == [];
  }

  ghost predicate AllWithin(s: seq<int>, lo: int, hi: int) {
    forall i :: 0 <= i < |s| ==> lo <= s[i] <= hi
  }

  lemma {:induction false} SumsWithin(s: seq<int>, d: real, lo: int, hi: int)
    requires d >= 0.0 && AllWithin(s, lo, hi)
    ensures Times(lo as real, WeightTotal(|s|, d)) <= WeightedSum(s, d) <= Times(hi as real, WeightTotal(|s|, d))
    ensures WeightTotal(|s|, d) >= if s == [] then 0.0 else 1.0
  {
    hide Times;
    if s != [] {
      var init, x := s[..|s| - 1], s[|s| - 1] as real;
      SumsWithin(init, d, lo, hi);
      OneMore(d, lo as real, hi as real, WeightTotal(|init|, d), WeightedSum(init, d), x);
    } else {
      TimesUnits(lo as real);
      TimesUnits(hi as real);
    }
  }

  /** Bounds on the sum carry over to one more sample. */
  lemma OneMore(d: real, lo: real, hi: real, t: real, w: real, x: real)
    requires d >= 0.0 && Times(lo, t) <= w <= Times(hi, t) && lo <= x <= hi && t >= 0.0
    ensures Times(lo, Times(d, t) + 1.0) <= Times(d, w) + x <= Times(hi, Times(d, t) + 1.0)
    ensures Times(d, t) >= 0.0
  {
    hide Times;
    Scale(d, Times(lo, t), w);
    Scale(d, w, Times(hi, t));
    Scale(d, 0.0, t);
    TimesUnits(d);
    Spread(lo, d, t);
    Spread(hi, d, t);
  }

  lemma Scale(d: real, x: real, y: real)
    requires d >= 0.0 && x <= y
    ensures Times(d, x) <= Times(d, y)
  {
  }

  lemma Spread(c: real, d: real, t: real)
    ensures Times(c, Times(d, t) + 1.0) == Times(d, Times(c, t)) + c
  {
    assert c * (d * t) == d * (c * t);
  }

  /** The average of the samples exists and lies between the bounds. */
  predicate Averages(s: seq<int>, d: real, lo: int, hi: int) {
    && WeightTotal(|s|, d) != 0.0
    && lo as real <= WeightedSum(s, d) / WeightTotal(|s|, d) <= hi as real
  }

  ghost predicate AveragesAlways(d: real) {
    forall s, lo, hi :: s != [] && AllWithin(s, lo, hi) ==> Averages(s, d, lo, hi)
  }

  lemma AverageWithin(s: seq<int>, d: real, lo: int, hi: int)
    requires d >= 0.0 && s != [] && AllWithin(s, lo, hi)
    ensures Averages(s, d, lo, hi)
  {
    hide WeightedSum, WeightTotal, Times;
    SumsWithin(s, d, lo, hi);
    Quotient(WeightedSum(s, d), WeightTotal(|s|, d), lo as real, hi as real);
  }

  lemma Quotient(w: real, t: real, lo: real, hi: real)
    requires t >= 1.0 && Times(lo, t) <= w <= Times(hi, t)
    ensures lo <= w / t <= hi
  {
    var q := w / t;
    assert q * t == w;
    Cancel(lo, q, t);
    Cancel(q, hi, t);
  }

  lemma Cancel(a: real, b: real, t: real)
    requires t > 0.0 && a * t <= b * t
    ensures a <= b
  {
    assert (b - a) * t >= 0.0;
  }

  /** With a negative decay the average of 0 and 1 falls outside of them. */
  lemma NegativeDecay(d: real, q: real)
    requires d < 0.0 && q * (d + 1.0) == 1.0 && 0.0 <= q
    ensures q > 1.0
  {
    assert q * d == 1.0 - q;
    Scale(q, d, 0.0);
  }

  /** The average stays between the samples, for all samples, exactly when the decay is not negative. */
  lemma AveragesIffDecayNotNegative(d: real)
    ensures AveragesAlways(d) <==> d >= 0.0
  {
    if d >= 0.0 {
      forall s: seq<int>, lo: int, hi: int | s != [] && AllWithin(s, lo, hi) ensures Averages(s, d, lo, hi) {
        AverageWithin(s, d, lo, hi);
      }
    } else {
      ZeroOneAverage(d);
    }
  }

  lemma ZeroOneAverage(d: real)
    requires d < 0.0
    ensures AllWithin([0, 1], 0, 1) && !Averages([0, 1], d, 0, 1)
  {
    var s := [0, 1];
    assert s[..1] == [0] && [0][..0] == [];
    assert WeightedSum([0], d) == 0.0;
    assert WeightedSum(s, d) == 1.0;
    assert WeightTotal(1, d) == 1.0;
    assert WeightTotal(2, d) == d + 1.0;
    if d + 1.0 != 0.0 {
      var q := 1.0 / (d + 1.0);
      assert q * (d + 1.0) == 1.0;
      if 0.0 <= q { NegativeDecay(d, q); }
    }
  }

  // ---------- The tracker ----------

  /** A deque with a maximal length. */
  function Push(s: seq<int>, x: int, window: nat): seq<int> {
    var t := s + [x];
    if |t| > window then t[|t| - window..] else t
  }

  /** The last samples of a history, at most a window of them. */
  function LastOf(history: seq<int>, window: nat): seq<int> {
    if |history| > window then history[|history| - window..] else history
  }

  lemma PushKeepsLast(history: seq<int>, x: int, window: nat)
    ensures Push(LastOf(history, window), x, window) == LastOf(history + [x], window)
  {
  }

  /** The window is the end of the history, as long as the window allows. */
  lemma LastOfIs(history: seq<int>, window: nat)
    ensures var n := |history| - |LastOf(history, window)|;
      && n == (if |history| > window then |history| - window else 0)
      && LastOf(history, window) == history[n..]
  {
  }

  function Clamp(effective: int, base: int): int {
    Max(base / 3, Min(effective, base * 3))
  }

  function Effective(s: seq<int>, d: real, base: int): int {
    if s == [] || WeightTotal(|s|, d) == 0.0 then base
    else Clamp(Truncate(WeightedSum(s, d) / WeightTotal(|s|, d)), base)
  }

  function Entry(m: map<string, seq<int>>, model: string): seq<int> {
    if model in m then m[model] else []
  }

  /** Every model keeps the window of its history. */
  ghost predicate Tracks(samples: map<string, seq<int>>, history: map<string, seq<int>>, window: nat) {
    samples.Keys == history.Keys && forall m :: m in samples ==> samples[m] == LastOf(history[m], window)
  }

  lemma RecordTracks(samples: map<string, seq<int>>, history: map<string, seq<int>>, window: nat, model: string, x: int)
    requires Tracks(samples, history, window)
    ensures Tracks(samples[model := Push(Entry(samples, model), x, window)],
                   history[model := Entry(history, model) + [x]], window)
  {
    PushKeepsLast(Entry(history, model), x, window);
    assert Entry(samples, model) == LastOf(Entry(history, model), window);
    hide LastOf, Push;
  }

  class AdaptiveTTFTTracker {
    const windowSize: nat
    const decayFactor: real
    var samples: map<string, seq<int>>
    ghost var history: map<string, seq<int>>

    ghost predicate Valid()
      reads this
    {
      Tracks(samples, history, windowSize)
    }

    constructor (windowSize: nat, decayFactor: real)
      ensures Valid() && samples == map[] && this.windowSize == windowSize && this.decayFactor == decayFactor
    {
      this.windowSize, this.decayFactor := windowSize, decayFactor;
      samples, history := map[], map[];
    }

    method RecordTtft(model: string, measured: int)
      requires Valid()
      modifies this
      ensures Valid()
      ensures history == old(history)[model := Entry(old(history), model) + [measured]]
    {
      RecordTracks(samples, history, windowSize, model, measured);
      hide *;
      history := history[model := Entry(history, model) + [measured]];
      if model !in samples {
        samples := samples[model := []];
      }
      samples := samples[model := Push(samples[model], measured, windowSize)];
    }

    /** The clamped average of the last measurements, or the base value without any. */
    method GetEffectiveTtft(model: string, base: int) returns (ttft: int)
      requires Valid()
      ensures ttft == Effective(LastOf(Entry(history, model), windowSize), decayFactor, base)
    {
      if model !in samples || |samples[model]| == 0 {
        return base;
      }
      var sum, total := WeightedSums(samples[model], decayFactor);
      if total == 0.0 {
        return base;
      }
      var effective := Truncate(sum / total);
      return Max(base / 3, Min(effective, base * 3));
    }
  }

  /** int() rounds towards zero. */
  lemma TruncateIs(r: real)
    ensures r >= 0.0 ==> 0 <= Truncate(r) && Truncate(r) as real <= r < Truncate(r) as real + 1.0
    ensures r <= 0.0 ==> Truncate(r) <= 0 && Truncate(r) as real - 1.0 < r <= Truncate(r) as real
  {
  }

  /** The tracked latency is the truncated average, cut off at a third and at three times the base. */
  lemma EffectiveIs(s: seq<int>, d: real, base: int)
    requires base >= 0
    ensures s == [] || WeightTotal(|s|, d) == 0.0 ==> Effective(s, d, base) == base
    ensures s != [] && WeightTotal(|s|, d) != 0.0 ==>
      var average := Truncate(WeightedSum(s, d) / WeightTotal(|s|, d));
      Effective(s, d, base) == if average < base / 3 then base / 3 else if average > 3 * base then 3 * base else average
  {
    hide Truncate, WeightedSum, WeightTotal;
  }

  lemma TruncateWithin(r: real, lo: int, hi: int)
    requires lo as real <= r <= hi as real
    ensures lo <= Truncate(r) <= hi
  {
  }

  /** The tracked latency lies between a third and three times the base exactly for bases that
      are not negative, and between the samples of the window wherever those respect the clamp. */
  lemma EffectiveIsBounded(s: seq<int>, d: real, base: int, lo: int, hi: int)
    requires d >= 0.0 && AllWithin(s, lo, hi)
    ensures base / 3 <= Effective(s, d, base) <= base * 3 <==> base >= 0
    ensures s != [] && base / 3 <= lo && hi <= base * 3 ==> lo <= Effective(s, d, base) <= hi
    ensures s != [] && base >= 0 && hi < base / 3 ==> Effective(s, d, base) == base / 3
    ensures s != [] && base >= 0 && base * 3 < lo ==> Effective(s, d, base) == base * 3
  {
    if s != [] {
      AverageWithin(s, d, lo, hi);
      hide WeightedSum, WeightTotal;
      TruncateWithin(WeightedSum(s, d) / WeightTotal(|s|, d), lo, hi);
    }
  }

  // ---------- Token budgets ----------

  /** min_output_ratio is 0.4. */
  function MaxThinking(maxTokens: int): int {
    Max(1024, Truncate(maxTokens as real * 0.6))
  }

  /** _ensure_output_headroom; max_tokens itself is never changed. */
  function Headroom(thinking: int, maxTokens: int): int {
    if maxTokens <= 0 then thinking else Min(thinking, MaxThinking(maxTokens))
  }

  lemma MaxThinkingIs(maxTokens: int)
    requires maxTokens > 0
    ensures MaxThinking(maxTokens) == Max(1024, 3 * maxTokens / 5)
  {
    var r := maxTokens as real * 0.6;
    assert r * 5.0 == (3 * maxTokens) as real;
    var q := 3 * maxTokens / 5;
    assert 5 * q <= 3 * maxTokens < 5 * q + 5;
    assert q as real <= r < q as real + 1.0;
  }

  /** Room for the answer, as a share of all tokens, is guaranteed for every thinking budget
      exactly from 1707 tokens up. */
  lemma OutputShareIff(maxTokens: int)
    requires maxTokens > 0
    ensures (forall t :: 5 * (maxTokens - Headroom(t, maxTokens)) >= 2 * maxTokens) <==> maxTokens >= 1707
  {
    MaxThinkingIs(maxTokens);
    assert Headroom(1024, maxTokens) == 1024;
  }

  /** The answer has non-negative room for every thinking budget exactly from 1024 tokens up. */
  lemma OutputSpaceIff(maxTokens: int)
    requires maxTokens > 0
    ensures (forall t :: maxTokens - Headroom(t, maxTokens) >= 0) <==> maxTokens >= 1024
  {
    MaxThinkingIs(maxTokens);
    assert Headroom(1024, maxTokens) == 1024;
  }

  /** A budget of at most half the maximum, or 1024, always keeps its headroom. */
  lemma HalfKeepsHeadroom(share: int, maxTokens: int)
    ensures var t := Max(1024, Min(share, maxTokens / 2)); Headroom(t, maxTokens) == t
  {
    if maxTokens > 0 { MaxThinkingIs(maxTokens); }
  }

  lemma HeadroomCaps(share: int, maxTokens: int)
    requires maxTokens > 0
    ensures Headroom(Max(1024, share), maxTokens) == Max(1024, Min(share, 3 * maxTokens / 5))
  {
    MaxThinkingIs(maxTokens);
  }

  datatype Tier = Economy | Standard | Premium

  datatype Policy = Hard | Soft | Adaptive

  datatype Model = Model(id: string, provider: string, tier: Tier, maxTokens: int, cost: real)

  function Rank(t: Tier): nat {
    match t
    case Economy => 0
    case Standard => 1
    case Premium => 2
  }

  function SoftRatio(t: Tier): real {
    match t
    case Economy => 0.3
    case Standard => 0.6
    case Premium => 1.0
  }

  datatype Adjusted = Adjusted(model: Model, thinking: int, maxTokens: int)

  /** The first cheapest model of a list. */
  method Cheapest(ms: seq<Model>) returns (m: Model)
    requires ms != []
    ensures IsFirstCheapest(ms, m)
  {
    m := ms[0];
    ghost var at := 0;
    for i := 1 to |ms|
      invariant 0 <= at < i && ms[at] == m
      invariant forall j :: 0 <= j < i ==> if j < at then m.cost < ms[j].cost else m.cost <= ms[j].cost
    {
      if ms[i].cost < m.cost {
        m, at := ms[i], i;
      }
    }
    assert ms[at] == m;
  }

  ghost predicate IsFirstCheapest(ms: seq<Model>, m: Model) {
    exists i :: 0 <= i < |ms| && ms[i] == m
      && forall j :: 0 <= j < |ms| ==> if j < i then m.cost < ms[j].cost else m.cost <= ms[j].cost
  }

  function OfTier(ms: seq<Model>, tier: Tier): seq<Model> {
    if ms == [] then [] else OfTier(ms[..|ms| - 1], tier) + if ms[|ms| - 1].tier == tier then [ms[|ms| - 1]] else []
  }

  function OfProvider(ms: seq<Model>, provider: string): seq<Model> {
    if ms == [] then []
    else OfProvider(ms[..|ms| - 1], provider) + if ms[|ms| - 1].provider == provider then [ms[|ms| - 1]] else []
  }

  lemma {:induction false} FiltersExact(ms: seq<Model>, tier: Tier, provider: string)
    ensures forall m :: m in OfTier(ms, tier) <==> m in ms && m.tier == tier
    ensures forall m :: m in OfProvider(ms, provider) <==> m in ms && m.provider == provider
  {
    if ms == [] {
    } else {
      FiltersExact(ms[..|ms| - 1], tier, provider);
      assert forall m :: m in ms <==> m in ms[..|ms| - 1] || m == ms[|ms| - 1];
    }
  }

  predicate Forced(recommended: Model, constraint: Tier) {
    Rank(recommended.tier) > Rank(constraint)
  }

  /** The constraint forces an adjustment exactly for a dearer tier. */
  lemma ForcedIff(recommended: Model, constraint: Tier)
    ensures Forced(recommended, constraint) <==>
      (recommended.tier.Premium? && !constraint.Premium?) || (recommended.tier.Standard? && constraint.Economy?)
  {
  }

  /** A kept model is left three tenths of its tokens by the economy tier and three fifths by the
      standard tier, but at least 1024. */
  lemma SoftTokensAre(maxTokens: nat)
    ensures Max(1024, Share(maxTokens, SoftRatio(Economy))) == Max(1024, 3 * maxTokens / 10)
    ensures Max(1024, Share(maxTokens, SoftRatio(Standard))) == Max(1024, 3 * maxTokens / 5)
  {
    var r, q := maxTokens as real * 0.3, 3 * maxTokens / 10;
    assert r * 10.0 == (3 * maxTokens) as real && 10 * q <= 3 * maxTokens < 10 * q + 10;
    assert q as real <= r < q as real + 1.0;
    var r', q' := maxTokens as real * 0.6, 3 * maxTokens / 5;
    assert r' * 5.0 == (3 * maxTokens) as real && 5 * q' <= 3 * maxTokens < 5 * q' + 5;
    assert q' as real <= r' < q' as real + 1.0;
  }

  /** Hard constraints always switch the model, soft ones never, adaptive ones for simple tasks. */
  lemma SwitchesIff(policy: Policy, complexity: int)
    ensures Switches(policy, complexity) <==> policy == Hard || (policy == Adaptive && complexity <= 4)
  {
  }

  /** Adaptive keeps the model only for complex tasks. */
  predicate Switches(policy: Policy, complexity: int) {
    policy.Hard? || (policy.Adaptive? && complexity < 5)
  }

  function Share(tokens: int, ratio: real): int {
    Truncate(tokens as real * ratio)
  }

  function Ratio(m: Model, recommended: Model): real
    requires recommended.maxTokens != 0
  {
    m.maxTokens as real / recommended.maxTokens as real
  }

  /** apply_budget_constraint; None is the division by zero that a free or empty recommended model
      causes when models are switched.  Whenever the constraint forces an adjustment, thinking keeps
      at least 1024 tokens and at most three fifths of the adjusted maximum (or 1024).  The headroom
      rule caps the scaled budget when the model is kept; when it is switched, half of the new
      maximum is the tighter cap and the rule changes nothing. */
  method ApplyBudgetConstraint(available: seq<Model>, fallback: Model, recommended: Model, thinking: int,
                               constraint: Tier, policy: Policy, complexity: int) returns (r: Option<Adjusted>)
    ensures r.None? <==>
      Forced(recommended, constraint) && Switches(policy, complexity) && (recommended.maxTokens == 0 || recommended.cost == 0.0)
    ensures !Forced(recommended, constraint) ==> r == Some(Adjusted(recommended, thinking, recommended.maxTokens))
    ensures Forced(recommended, constraint) && r.Some? && r.value.maxTokens > 0 ==>
      1024 <= r.value.thinking <= Max(1024, 3 * r.value.maxTokens / 5)
    ensures Forced(recommended, constraint) && !Switches(policy, complexity) ==>
      && r.value.model == recommended
      && r.value.maxTokens == Max(1024, Share(recommended.maxTokens, SoftRatio(constraint)))
      && r.value.thinking ==
         Max(1024, Min(Share(thinking, SoftRatio(constraint)), 3 * r.value.maxTokens / 5))
    ensures Forced(recommended, constraint) && Switches(policy, complexity) && r.Some? ==>
      && IsSwitch(available, fallback, recommended, constraint, r.value.model)
      && r.value.maxTokens == r.value.model.maxTokens
      && r.value.thinking ==
         Max(1024, Min(Share(thinking, Ratio(r.value.model, recommended)), r.value.maxTokens / 2))
  {
    hide Headroom, Share, SoftRatio, Ratio, IsSwitch;
    if Rank(recommended.tier) <= Rank(constraint) {
      return Some(Adjusted(recommended, thinking, recommended.maxTokens));
    }
    if policy.Hard? || (policy.Adaptive? && complexity < 5) {
      var model := SwitchModel(available, fallback, recommended, constraint);
      if recommended.maxTokens == 0 || recommended.cost == 0.0 {
        return None;
      }
      var adjusted := Share(thinking, Ratio(model, recommended));
      HalfKeepsHeadroom(adjusted, model.maxTokens);
      adjusted := Max(1024, Min(adjusted, model.maxTokens / 2));
      return Some(Adjusted(model, Headroom(adjusted, model.maxTokens), model.maxTokens));
    }
    var maxTokens := Max(1024, Share(recommended.maxTokens, SoftRatio(constraint)));
    var adjusted := Share(thinking, SoftRatio(constraint));
    HeadroomCaps(adjusted, maxTokens);
    adjusted := Max(1024, adjusted);
    return Some(Adjusted(recommended, Headroom(adjusted, maxTokens), maxTokens));
  }

  /** The first cheapest model of the tier and the provider, else of the tier, else the fallback. */
  ghost predicate IsSwitch(available: seq<Model>, fallback: Model, recommended: Model, constraint: Tier, m: Model) {
    var ofTier := OfTier(available, constraint);
    var ofBoth := OfProvider(ofTier, recommended.provider);
    if ofBoth != [] then IsFirstCheapest(ofBoth, m)
    else if ofTier != [] then IsFirstCheapest(ofTier, m)
    else m == fallback
  }

  method SwitchModel(available: seq<Model>, fallback: Model, recommended: Model, constraint: Tier) returns (m: Model)
    ensures IsSwitch(available, fallback, recommended, constraint, m)
  {
    var targets := OfProvider(OfTier(available, constraint), recommended.provider);
    if targets == [] {
      targets := OfTier(available, constraint);
    }
    if targets == [] {
      return fallback;
    }
    m := Cheapest(targets);
  }

  /** A switch honours the constraint whenever some model does: then the model is of the
      constraint's tier, of the same provider if the tier has one, and none of those is cheaper. */
  lemma SwitchHonoursConstraint(available: seq<Model>, fallback: Model, recommended: Model, constraint: Tier, m: Model)
    requires IsSwitch(available, fallback, recommended, constraint, m)
    ensures (exists x :: x in available && x.tier == constraint) ==>
      && m in available && m.tier == constraint
      && ((exists x :: x in available && x.tier == constraint && x.provider == recommended.provider) ==>
            m.provider == recommended.provider)
      && (forall x :: x in available && x.tier == constraint && x.provider == m.provider ==> m.cost <= x.cost)
    ensures (forall x :: x in available ==> x.tier != constraint) ==> m == fallback
  {
    FiltersExact(available, constraint, recommended.provider);
    var ofTier := OfTier(available, constraint);
    FiltersExact(ofTier, constraint, recommended.provider);
    var ofBoth := OfProvider(ofTier, recommended.provider);
    hide OfTier, OfProvider;
    if ofBoth != [] {
      FirstIsCheapest(ofBoth, m);
      assert ofBoth[0] in ofTier;
    } else if ofTier != [] {
      FirstIsCheapest(ofTier, m);
      assert ofTier[0] in available;
    }
  }

  lemma FirstIsCheapest(ms: seq<Model>, m: Model)
    requires IsFirstCheapest(ms, m)
    ensures m in ms && forall x :: x in ms ==> m.cost <= x.cost
  {
  }
}
