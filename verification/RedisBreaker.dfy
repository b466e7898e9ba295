/** The distributed circuit breaker (retry_utils.py, RedisCircuitBreaker).

    The state lives in four Redis keys.  The two Lua scripts are atomic steps; allow_request
    is up to three separate commands, so any number of workers may interleave between them,
    and the counters may expire at any time.  The theorems hold for every interleaving. */
module RedisBreaker {
  import opened Common

  datatype State = Closed | Open | HalfOpen

  datatype Config = Config(failureThreshold: int, recoveryTimeout: real, successThreshold: int)

  /** The keys; None is an absent or expired key. */
  datatype Keys = Keys(failures: Option<int>, state: Option<State>, openedAt: Option<real>, okCount: Option<int>)

  const NO_KEYS := Keys(None, None, None, None)

  /** An absent state key reads as CLOSED. */
  function StateOf(k: Keys): State {
    if k.state.None? then Closed else k.state.value
  }

  function Count(c: Option<int>): int {
    if c.None? then 0 else c.value
  }

  /** The failure script. */
  function FailureScript(c: Config, k: Keys, now: real): Keys {
    var counted := k.(failures := Some(Count(k.failures) + 1));
    if counted.failures.value >= c.failureThreshold && counted.state != Some(Open) then
      counted.(state := Some(Open), openedAt := Some(now))
    else counted
  }

  /** The success script. */
  function SuccessScript(c: Config, k: Keys): Keys {
    if k.state != Some(HalfOpen) then k
    else if Count(k.okCount) + 1 >= c.successThreshold then Keys(None, Some(Closed), None, None)
    else k.(okCount := Some(Count(k.okCount) + 1))
  }

  /** A recorded time of zero is falsy, like an absent key. */
  predicate TimedOut(c: Config, openedAt: Option<real>, now: real) {
    openedAt.Some? && openedAt.value != 0.0 && now - openedAt.value >= c.recoveryTimeout
  }

  // ---------- The code, one command after the other ----------

  class RedisStore {
    var failures: Option<int>
    var state: Option<State>
    var openedAt: Option<real>
    var okCount: Option<int>

    function Value(): Keys
      reads this
    {
      Keys(failures, state, openedAt, okCount)
    }

    constructor ()
      ensures Value() == NO_KEYS
    {
      failures, state, openedAt, okCount := None, None, None, None;
    }

    /** INCR of a key that may be absent. */
    method IncrFailures() returns (count: int)
      modifies this`failures
      ensures failures == Some(count) && count == Count(old(failures)) + 1
    {
      count := (if failures.None? then 0 else failures.value) + 1;
      failures := Some(count);
    }

    method RunFailureScript(c: Config, now: real)
      modifies this
      ensures Value() == FailureScript(c, old(Value()), now)
    {
      var count := IncrFailures();
      if count >= c.failureThreshold {
        if state != Some(Open) {
          state := Some(Open);
          openedAt := Some(now);
        }
      }
    }

    method RunSuccessScript(c: Config)
      modifies this
      ensures Value() == SuccessScript(c, old(Value()))
    {
      if state == Some(HalfOpen) {
        var ok := (if okCount.None? then 0 else okCount.value) + 1;
        okCount := Some(ok);
        if ok >= c.successThreshold {
          state := Some(Closed);
          okCount, failures, openedAt := None, None, None;
        }
      }
    }
  }

  class RedisCircuitBreaker {
    const config: Config
    const redis: RedisStore

    constructor (config: Config, redis: RedisStore)
      ensures this.config == config && this.redis == redis
    {
      this.config, this.redis := config, redis;
    }

    /** allow_request when no other worker comes in between its commands. */
    method AllowRequest(now: real) returns (allowed: bool)
      modifies redis
      ensures var k := old(redis.Value());
        && allowed == (k.state != Some(Open)
            || (k.openedAt.Some? && k.openedAt.value != 0.0 && now - k.openedAt.value >= config.recoveryTimeout))
        && redis.Value() == if StateOf(k).Open? && allowed then k.(state := Some(HalfOpen)) else k
    {
      var state := if redis.state.None? then Closed else redis.state.value;
      if state == Closed {
        return true;
      }
      if state == Open {
        var openedAt := redis.openedAt;
        if openedAt.Some? && openedAt.value != 0.0 && now - openedAt.value >= config.recoveryTimeout {
          redis.state := Some(HalfOpen);
          return true;
        }
        return false;
      }
      return true;
    }

    method RecordFailure(now: real) returns (s: State)
      modifies redis
      ensures redis.Value() == FailureScript(config, old(redis.Value()), now) && s == StateOf(redis.Value())
    {
      redis.RunFailureScript(config, now);
      s := StateOf(redis.Value());
    }

    method RecordSuccess() returns (s: State)
      modifies redis
      ensures redis.Value() == SuccessScript(config, old(redis.Value())) && s == StateOf(redis.Value())
    {
      redis.RunSuccessScript(config);
      s := StateOf(redis.Value());
    }
  }

  // ---------- Interleavings ----------

  /** Where a worker is inside allow_request: between calls, after it read OPEN, or after it
      found the timeout passed. */
  datatype Phase = Idle | SawOpen | WillHalfOpen

  datatype System = System(keys: Keys, workers: map<nat, Phase>)

  datatype Action =
    | ReadState(w: nat)
    | ReadOpenedAt(w: nat, now: real)
    | WriteHalfOpen(w: nat)
    | RecordFailure(w: nat, now: real)
    | RecordSuccess(w: nat)
    | ExpireFailures
    | ExpireOkCount

  predicate InPhase(s: System, w: nat, p: Phase) {
    w in s.workers && s.workers[w] == p
  }

  predicate Enabled(s: System, a: Action) {
    match a
    case ReadState(w) => InPhase(s, w, Idle)
    case ReadOpenedAt(w, now) => InPhase(s, w, SawOpen)
    case WriteHalfOpen(w) => InPhase(s, w, WillHalfOpen)
    case RecordFailure(w, now) => InPhase(s, w, Idle) && now > 0.0
    case RecordSuccess(w) => InPhase(s, w, Idle)
    case ExpireFailures => true
    case ExpireOkCount => true
  }

  function Apply(c: Config, s: System, a: Action): System
    requires Enabled(s, a)
  {
    match a
    case ReadState(w) => if StateOf(s.keys).Open? then s.(workers := s.workers[w := SawOpen]) else s
    case ReadOpenedAt(w, now) =>
      s.(workers := s.workers[w := if TimedOut(c, s.keys.openedAt, now) then WillHalfOpen else Idle])
    case WriteHalfOpen(w) => System(s.keys.(state := Some(HalfOpen)), s.workers[w := Idle])
    case RecordFailure(w, now) => s.(keys := FailureScript(c, s.keys, now))
    case RecordSuccess(w) => s.(keys := SuccessScript(c, s.keys))
    case ExpireFailures => s.(keys := s.keys.(failures := None))
    case ExpireOkCount => s.(keys := s.keys.(okCount := None))
  }

  function Start(workers: set<nat>): System {
    System(NO_KEYS, map w | w in workers :: Idle)
  }

  /** The actions lead from s to t, each enabled in its turn. */
  ghost predicate Leads(c: Config, s: System, acts: seq<Action>, t: System)
    decreases acts
  {
    if acts == [] then s == t
    else Enabled(s, acts[0]) && Leads(c, Apply(c, s, acts[0]), acts[1..], t)
  }

  ghost predicate Reachable(c: Config, workers: set<nat>, s: System) {
    exists acts :: Leads(c, Start(workers), acts, s)
  }

  /** CLOSED keeps the failure count below the threshold; OPEN has a positive opening time. */
  ghost predicate Safe(c: Config, s: System) {
    && (StateOf(s.keys).Closed? ==> Count(s.keys.failures) < c.failureThreshold)
    && (StateOf(s.keys).Open? ==> s.keys.openedAt.Some? && s.keys.openedAt.value > 0.0)
  }

  lemma {:induction false} SafeAlong(c: Config, s: System, acts: seq<Action>, t: System)
    requires c.failureThreshold >= 1 && Safe(c, s) && Leads(c, s, acts, t)
    ensures Safe(c, t) && t.workers.Keys == s.workers.Keys
    decreases acts
  {
    if acts == [] {
    } else {
      SafeAlong(c, Apply(c, s, acts[0]), acts[1..], t);
    }
  }

  /** Under any interleaving and any expiry the invariants hold; without a positive threshold
      they fail from the start. */
  lemma SafeIffPositiveThreshold(c: Config, workers: set<nat>)
    ensures (forall s :: Reachable(c, workers, s) ==> Safe(c, s)) <==> c.failureThreshold >= 1
  {
    var s0 := Start(workers);
    assert Leads(c, s0, [], s0);
    assert Reachable(c, workers, s0);
    if c.failureThreshold >= 1 {
      forall s | Reachable(c, workers, s) ensures Safe(c, s) {
        var acts :| Leads(c, s0, acts, s);
        SafeAlong(c, s0, acts, s);
      }
    }
  }

  // ---------- The failure script over a window ----------

  /** Failures reported one after the other at their times, with no key expiring in between. */
  function Failures(c: Config, k: Keys, times: seq<real>): Keys
    decreases |times|
  {
    if times == [] then k else FailureScript(c, Failures(c, k, times[..|times| - 1]), times[|times| - 1])
  }

  /** A circuit that is not open stays as it is until the windowed count reaches the threshold; the
      failure that completes it opens the circuit and is its opening time; later ones only count. */
  lemma {:induction false} OpensAfter(c: Config, k: Keys, times: seq<real>)
    requires !StateOf(k).Open? && Count(k.failures) < c.failureThreshold
    ensures var r, need := Failures(c, k, times), c.failureThreshold - Count(k.failures);
      && Count(r.failures) == Count(k.failures) + |times|
      && r.okCount == k.okCount
      && (|times| < need ==> r.state == k.state && r.openedAt == k.openedAt)
      && (|times| >= need ==> r.state == Some(Open) && r.openedAt == Some(times[need - 1]))
    decreases |times|
  {
    if times == [] {
    } else {
      OpensAfter(c, k, times[..|times| - 1]);
    }
  }

  /** A failure that brings the count to the threshold or beyond leaves the circuit open; an open
      circuit keeps its opening time. */
  lemma OpensAtOnce(c: Config, k: Keys, now: real)
    requires Count(k.failures) + 1 >= c.failureThreshold
    ensures var r := FailureScript(c, k, now);
      && r.state == Some(Open) && Count(r.failures) == Count(k.failures) + 1
      && r.openedAt == if StateOf(k).Open? then k.openedAt else Some(now)
  {
  }

  /** The three commands of allow_request, undisturbed, do what the method does. */
  lemma UndisturbedAllowRequest(c: Config, s: System, w: nat, now: real)
    requires InPhase(s, w, Idle)
    ensures !StateOf(s.keys).Open? ==> Apply(c, s, ReadState(w)) == s
    ensures StateOf(s.keys).Open? && !TimedOut(c, s.keys.openedAt, now) ==>
      Leads(c, s, [ReadState(w), ReadOpenedAt(w, now)], s)
    ensures StateOf(s.keys).Open? && TimedOut(c, s.keys.openedAt, now) ==>
      Leads(c, s, [ReadState(w), ReadOpenedAt(w, now), WriteHalfOpen(w)], s.(keys := s.keys.(state := Some(HalfOpen))))
  {
    var seen := Apply(c, s, ReadState(w));
    assert s.workers[w := Idle] == s.workers;
    if StateOf(s.keys).Open? {
      var read := Apply(c, seen, ReadOpenedAt(w, now));
      assert [ReadState(w), ReadOpenedAt(w, now)][1..] == [ReadOpenedAt(w, now)];
      assert [ReadOpenedAt(w, now)][1..] == [] && [WriteHalfOpen(w)][1..] == [];
      var rest := [ReadOpenedAt(w, now), WriteHalfOpen(w)];
      assert [ReadState(w), ReadOpenedAt(w, now), WriteHalfOpen(w)][1..] == rest && rest[1..] == [WriteHalfOpen(w)];
      if TimedOut(c, s.keys.openedAt, now) {
        assert Leads(c, read, [WriteHalfOpen(w)], Apply(c, read, WriteHalfOpen(w)));
        assert Leads(c, seen, rest, Apply(c, read, WriteHalfOpen(w)));
        assert Apply(c, read, WriteHalfOpen(w)) == s.(keys := s.keys.(state := Some(HalfOpen)));
      } else {
        assert Leads(c, seen, [ReadOpenedAt(w, now)], read) && read == s;
      }
    }
  }

  // ---------- Runs in time ----------

  /** The clock reading after an action; only some actions take one. */
  function After(clock: real, a: Action): real {
    match a
    case ReadOpenedAt(_, now) => now
    case RecordFailure(_, now) => now
    case _ => clock
  }

  function Clock(clock: real, acts: seq<Action>): real
    decreases acts
  {
    if acts == [] then clock else Clock(After(clock, acts[0]), acts[1..])
  }

  /** Started at a clock reading, the clock never runs backwards.  The safety theorems do not need
      it, so they hold for workers whose clocks disagree; the runs that are shown to exist have it. */
  predicate Timely(clock: real, acts: seq<Action>)
    decreases acts
  {
    acts == [] || (clock <= After(clock, acts[0]) && Timely(After(clock, acts[0]), acts[1..]))
  }

  /** A timely run from s at a clock reading to t at a later one. */
  ghost predicate Continues(c: Config, s: System, clock: real, acts: seq<Action>, t: System, later: real) {
    Leads(c, s, acts, t) && Timely(clock, acts) && later == Clock(clock, acts)
  }

  lemma {:induction false} ContinuesJoin(c: Config, s: System, clock: real, xs: seq<Action>, t: System, later: real,
                                         ys: seq<Action>, u: System, last: real)
    requires Continues(c, s, clock, xs, t, later) && Continues(c, t, later, ys, u, last)
    ensures Continues(c, s, clock, xs + ys, u, last)
    decreases xs
  {
    if xs == [] {
      assert xs + ys == ys;
    } else {
      ContinuesJoin(c, Apply(c, s, xs[0]), After(clock, xs[0]), xs[1..], t, later, ys, u, last);
      assert (xs + ys)[0] == xs[0] && (xs + ys)[1..] == xs[1..] + ys;
    }
  }

  /** One enabled action. */
  lemma ContinuesOne(c: Config, s: System, clock: real, a: Action)
    requires Enabled(s, a) && clock <= After(clock, a)
    ensures Continues(c, s, clock, [a], Apply(c, s, a), After(clock, a))
  {
    assert [a][1..] == [];
  }

  // ---------- An open circuit can always recover ----------

  /** From any system an idle worker can close a half-open circuit by reporting successes. */
  lemma {:induction false} HalfOpenCloses(c: Config, s: System, w: nat, clock: real)
    returns (acts: seq<Action>, t: System)
    requires s.keys.state == Some(HalfOpen) && InPhase(s, w, Idle)
    ensures Continues(c, s, clock, acts, t, clock) && StateOf(t.keys).Closed? && t.workers == s.workers
    decreases c.successThreshold - Count(s.keys.okCount)
  {
    var a := RecordSuccess(w);
    var next := Apply(c, s, a);
    ContinuesOne(c, s, clock, a);
    if Count(s.keys.okCount) + 1 >= c.successThreshold {
      acts, t := [a], next;
    } else {
      var more, u := HalfOpenCloses(c, next, w, clock);
      ContinuesJoin(c, s, clock, [a], next, clock, more, u, clock);
      acts, t := [a] + more, u;
    }
  }

  /** When the timeout of an opening has passed, not before a clock reading. */
  function Late(c: Config, openedAt: real, clock: real): (late: real)
    ensures clock <= late && openedAt != 0.0 ==> TimedOut(c, Some(openedAt), late)
  {
    var due := openedAt + if c.recoveryTimeout >= 0.0 then c.recoveryTimeout else 0.0;
    if clock <= due then due else clock
  }

  predicate OpenedAfterZero(s: System) {
    StateOf(s.keys).Open? ==> s.keys.openedAt.Some? && s.keys.openedAt.value > 0.0
  }

  lemma {:induction false} OpenedAfterZeroAlong(c: Config, s: System, acts: seq<Action>, t: System)
    requires OpenedAfterZero(s) && Leads(c, s, acts, t)
    ensures OpenedAfterZero(t) && t.workers.Keys == s.workers.Keys
    decreases acts
  {
    if acts == [] {
    } else {
      OpenedAfterZeroAlong(c, Apply(c, s, acts[0]), acts[1..], t);
    }
  }

  /** An idle worker that sees OPEN and reads the opening time late. */
  lemma SeesTimeout(c: Config, s: System, w: nat, clock: real) returns (acts: seq<Action>, t: System, later: real)
    requires StateOf(s.keys).Open? && OpenedAfterZero(s) && InPhase(s, w, Idle)
    ensures Continues(c, s, clock, acts, t, later)
    ensures t == s.(workers := s.workers[w := WillHalfOpen])
  {
    var s1 := Apply(c, s, ReadState(w));
    later := Late(c, s.keys.openedAt.value, clock);
    t := Apply(c, s1, ReadOpenedAt(w, later));
    ContinuesOne(c, s, clock, ReadState(w));
    ContinuesOne(c, s1, clock, ReadOpenedAt(w, later));
    acts := [ReadState(w)] + [ReadOpenedAt(w, later)];
    ContinuesJoin(c, s, clock, [ReadState(w)], s1, clock, [ReadOpenedAt(w, later)], t, later);
  }

  /** From an open circuit an idle worker reaches half-open once the timeout has passed. */
  lemma OpenHalfOpens(c: Config, s: System, w: nat, clock: real) returns (acts: seq<Action>, t: System, later: real)
    requires StateOf(s.keys).Open? && OpenedAfterZero(s) && InPhase(s, w, Idle)
    ensures Continues(c, s, clock, acts, t, later) && t.keys.state == Some(HalfOpen) && t.workers == s.workers
  {
    var seen, s1;
    seen, s1, later := SeesTimeout(c, s, w, clock);
    t := Apply(c, s1, WriteHalfOpen(w));
    ContinuesOne(c, s1, later, WriteHalfOpen(w));
    ContinuesJoin(c, s, clock, seen, s1, later, [WriteHalfOpen(w)], t, later);
    acts := seen + [WriteHalfOpen(w)];
    assert t.workers == s.workers;
  }

  /** A worker can finish its allow_request at once: at most two more commands make it idle. */
  lemma WorkerFinishes(c: Config, s: System, w: nat, clock: real) returns (acts: seq<Action>, t: System)
    requires w in s.workers && OpenedAfterZero(s)
    ensures Continues(c, s, clock, acts, t, clock) && InPhase(t, w, Idle) && OpenedAfterZero(t)
  {
    if s.workers[w].Idle? {
      acts, t := [], s;
    } else if s.workers[w].WillHalfOpen? {
      acts, t := [WriteHalfOpen(w)], Apply(c, s, WriteHalfOpen(w));
      ContinuesOne(c, s, clock, WriteHalfOpen(w));
    } else {
      var a := ReadOpenedAt(w, clock);
      var s1 := Apply(c, s, a);
      ContinuesOne(c, s, clock, a);
      if s1.workers[w].Idle? {
        acts, t := [a], s1;
      } else {
        t := Apply(c, s1, WriteHalfOpen(w));
        ContinuesOne(c, s1, clock, WriteHalfOpen(w));
        ContinuesJoin(c, s, clock, [a], s1, clock, [WriteHalfOpen(w)], t, clock);
        acts := [a] + [WriteHalfOpen(w)];
      }
    }
  }

  /** Some timely continuation from a clock reading closes the circuit. */
  ghost predicate CanClose(c: Config, s: System, clock: real) {
    exists acts, t, later :: Continues(c, s, clock, acts, t, later) && StateOf(t.keys).Closed?
  }

  /** From every reachable system, whatever the workers were in the middle of and whatever the
      clock shows, some continuation in time closes the circuit; for every configuration. */
  lemma CanAlwaysClose(c: Config, workers: set<nat>, s: System, clock: real)
    requires workers != {} && Reachable(c, workers, s)
    ensures CanClose(c, s, clock)
  {
    hide Leads, Timely, Clock, Continues;
    var acts0 :| Leads(c, Start(workers), acts0, s);
    OpenedAfterZeroAlong(c, Start(workers), acts0, s);
    var w :| w in workers;
    var a1, s1 := WorkerFinishes(c, s, w, clock);
    if StateOf(s1.keys).Closed? {
    } else if StateOf(s1.keys).Open? {
      var a2, s2, later := OpenHalfOpens(c, s1, w, clock);
      var a3, s3 := HalfOpenCloses(c, s2, w, later);
      ContinuesJoin(c, s, clock, a1, s1, clock, a2, s2, later);
      ContinuesJoin(c, s, clock, a1 + a2, s2, later, a3, s3, later);
    } else {
      var a3, s3 := HalfOpenCloses(c, s1, w, clock);
      ContinuesJoin(c, s, clock, a1, s1, clock, a3, s3, clock);
    }
  }

  // ---------- The transition diagram ----------

  /** CLOSED to OPEN, OPEN to HALF_OPEN, HALF_OPEN to CLOSED or OPEN. */
  predicate InDiagram(from: State, to: State) {
    from == to || (from.Closed? && to.Open?) || (from.Open? && to.HalfOpen?) || from.HalfOpen?
  }

  /** The one way out of the diagram: a worker that saw OPEN writes HALF_OPEN over CLOSED. */
  lemma OnlyStaleWritesLeaveDiagram(c: Config, s: System, a: Action)
    requires Enabled(s, a)
    ensures InDiagram(StateOf(s.keys), StateOf(Apply(c, s, a).keys)) <==> !(a.WriteHalfOpen? && StateOf(s.keys).Closed?)
  {
  }

  ghost predicate RespectsDiagram(c: Config, workers: set<nat>) {
    forall s, a :: Reachable(c, workers, s) && Enabled(s, a) ==> InDiagram(StateOf(s.keys), StateOf(Apply(c, s, a).keys))
  }

  ghost predicate ReachableInTime(c: Config, workers: set<nat>, clock: real, s: System, later: real) {
    exists acts :: Continues(c, Start(workers), clock, acts, s, later)
  }

  /** The same for the runs in which the clock never runs backwards. */
  ghost predicate RespectsDiagramInTime(c: Config, workers: set<nat>, clock: real) {
    forall s, a, later :: ReachableInTime(c, workers, clock, s, later) && Enabled(s, a) && later <= After(later, a)
      ==> InDiagram(StateOf(s.keys), StateOf(Apply(c, s, a).keys))
  }

  /** One worker alone: while it is inside allow_request the circuit stays open. */
  ghost predicate Alone(w: nat, s: System) {
    s.workers.Keys <= {w} && (w in s.workers && !s.workers[w].Idle? ==> StateOf(s.keys).Open?)
  }

  lemma {:induction false} AloneAlong(c: Config, w: nat, s: System, acts: seq<Action>, t: System)
    requires Alone(w, s) && Leads(c, s, acts, t)
    ensures Alone(w, t)
    decreases acts
  {
    if acts == [] {
    } else {
      AloneAlong(c, w, Apply(c, s, acts[0]), acts[1..], t);
    }
  }

  /** Two workers both see OPEN; one half-opens and closes the circuit, then the other writes. */
  lemma StaleWriteHappens(c: Config, s: System, v: nat, w: nat, clock: real)
    returns (acts: seq<Action>, t: System, later: real)
    requires v != w && InPhase(s, v, Idle) && InPhase(s, w, Idle) && StateOf(s.keys).Open? && OpenedAfterZero(s)
    ensures Continues(c, s, clock, acts, t, later) && StateOf(t.keys).Closed? && InPhase(t, w, WillHalfOpen)
  {
    hide Leads, Timely, Clock, Continues;
    var a1, s1, c1 := SeesTimeout(c, s, w, clock);
    var a2, s2, c2 := OpenHalfOpens(c, s1, v, c1);
    var a3, s3 := HalfOpenCloses(c, s2, v, c2);
    ContinuesJoin(c, s, clock, a1, s1, c1, a2, s2, c2);
    ContinuesJoin(c, s, clock, a1 + a2, s2, c2, a3, s3, c2);
    acts, t, later := a1 + a2 + a3, s3, c2;
  }

  lemma {:induction false} FailuresOpen(c: Config, s: System, w: nat, clock: real)
    returns (acts: seq<Action>, t: System)
    requires InPhase(s, w, Idle) && !StateOf(s.keys).Open? && clock > 0.0
    ensures Continues(c, s, clock, acts, t, clock) && t.workers == s.workers
    ensures StateOf(t.keys).Open? && t.keys.openedAt == Some(clock)
    decreases c.failureThreshold - Count(s.keys.failures)
  {
    var a := RecordFailure(w, clock);
    var next := Apply(c, s, a);
    ContinuesOne(c, s, clock, a);
    if StateOf(next.keys).Open? {
      acts, t := [a], next;
    } else {
      var more, u := FailuresOpen(c, next, w, clock);
      ContinuesJoin(c, s, clock, [a], next, clock, more, u, clock);
      acts, t := [a] + more, u;
    }
  }

  /** Every two workers can leave the diagram, in time from any clock reading after zero. */
  lemma TwoWorkersLeaveDiagram(c: Config, workers: set<nat>, v: nat, w: nat, clock: real)
    requires v != w && v in workers && w in workers && clock > 0.0
    ensures !RespectsDiagramInTime(c, workers, clock) && !RespectsDiagram(c, workers)
  {
    var s0 := Start(workers);
    var a1, s1 := FailuresOpen(c, s0, v, clock);
    var a2, s2, later := StaleWriteHappens(c, s1, v, w, clock);
    ContinuesJoin(c, s0, clock, a1, s1, clock, a2, s2, later);
    assert ReachableInTime(c, workers, clock, s2, later) && Reachable(c, workers, s2);
    var a := WriteHalfOpen(w);
    hide Leads, Timely, Clock, Continues, InDiagram;
    OnlyStaleWritesLeaveDiagram(c, s2, a);
    assert Enabled(s2, a) && later <= After(later, a);
  }

  /** The diagram is respected by every interleaving exactly when there is at most one worker,
      whether or not the clock may run backwards. */
  lemma DiagramIffOneWorker(c: Config, workers: set<nat>, clock: real)
    requires clock > 0.0
    ensures RespectsDiagram(c, workers) <==> |workers| <= 1
    ensures RespectsDiagramInTime(c, workers, clock) <==> |workers| <= 1
  {
    var s0 := Start(workers);
    if |workers| <= 1 {
      var w :| workers <= {w} by { OneElement(workers); }
      forall s, a | Reachable(c, workers, s) && Enabled(s, a)
        ensures InDiagram(StateOf(s.keys), StateOf(Apply(c, s, a).keys))
      {
        var acts :| Leads(c, s0, acts, s);
        AloneAlong(c, w, s0, acts, s);
        OnlyStaleWritesLeaveDiagram(c, s, a);
      }
      forall s, later | ReachableInTime(c, workers, clock, s, later) ensures Reachable(c, workers, s) {
        var acts :| Continues(c, s0, clock, acts, s, later);
      }
    } else {
      var v :| v in workers;
      assert |workers - {v}| == |workers| - 1;
      var w :| w in workers - {v};
      TwoWorkersLeaveDiagram(c, workers, v, w, clock);
    }
  }

  lemma OneElement(s: set<nat>)
    requires |s| <= 1
    ensures exists w: nat :: s <= {w}
  {
    if s == {} {
      assert s <= {0};
    } else {
      var w :| w in s;
      assert |s - {w}| == 0;
      assert s <= {w};
    }
  }

  /** A number of successes reported one after the other. */
  function Successes(c: Config, k: Keys, n: nat): Keys {
    if n == 0 then k else SuccessScript(c, Successes(c, k, n - 1))
  }

  lemma {:induction false} ClosesAfter(c: Config, k: Keys, n: nat)
    requires k.state == Some(HalfOpen)
    ensures var r := Successes(c, k, n);
      if n > 0 && Count(k.okCount) + n >= c.successThreshold then r == Keys(None, Some(Closed), None, None)
      else
        && r.state == Some(HalfOpen) && Count(r.okCount) == Count(k.okCount) + n
        && r.failures == k.failures && r.openedAt == k.openedAt
  {
    if n == 0 {
    } else {
      ClosesAfter(c, k, n - 1);
    }
  }

  /** Outside half-open a success changes nothing. */
  lemma {:induction false} SuccessesElsewhere(c: Config, k: Keys, n: nat)
    requires k.state != Some(HalfOpen)
    ensures Successes(c, k, n) == k
  {
    if n == 0 {
    } else {
      SuccessesElsewhere(c, k, n - 1);
    }
  }

  /** The success count survives reopening: after s successes, a failure that reopens the circuit
      and the next half-opening, n more successes close it exactly when s and n together, with
      what was counted before, reach the threshold. */
  lemma OkCountSurvivesReopening(c: Config, k: Keys, s: nat, now: real, n: nat)
    requires k.state == Some(HalfOpen) && n > 0 && Successes(c, k, s).state == Some(HalfOpen)
    requires StateOf(FailureScript(c, Successes(c, k, s), now)).Open?
    ensures var again := FailureScript(c, Successes(c, k, s), now).(state := Some(HalfOpen));
      StateOf(Successes(c, again, n)).Closed? <==> Count(k.okCount) + s + n >= c.successThreshold
  {
    ClosesAfter(c, k, s);
    ClosesAfter(c, FailureScript(c, Successes(c, k, s), now).(state := Some(HalfOpen)), n);
  }
}
