/** The in-memory circuit breaker and the retry wrapper around it (retry_utils.py).

    Every method runs under the breaker's lock, so a history of the breaker is a sequence of
    events.  The clock is read once an event.  The theorems hold after every history. */
module CircuitBreaker {
  import opened Common

  datatype State = Closed | Open | HalfOpen

  datatype Config = Config(failureThreshold: int, recoveryTimeout: real, halfOpenMaxCalls: int, successThreshold: int)

  datatype Breaker = Breaker(state: State, failures: int, successes: int, lastFailure: Option<real>, calls: int)

  const NEW := Breaker(Closed, 0, 0, None, 0)

  // ---------- The methods as functions ----------

  function TransitionTo(b: Breaker, s: State): Breaker {
    match s
    case HalfOpen => b.(state := s, calls := 0, successes := 0)
    case Closed => b.(state := s, failures := 0)
    case Open => b.(state := s)
  }

  /** A failure time of zero is falsy, like none at all. */
  predicate Recovered(c: Config, b: Breaker, now: real) {
    b.lastFailure.Some? && b.lastFailure.value != 0.0 && now - b.lastFailure.value >= c.recoveryTimeout
  }

  function Check(c: Config, b: Breaker, now: real): Breaker {
    if b.state.Open? && Recovered(c, b, now) then TransitionTo(b, HalfOpen) else b
  }

  predicate Admits(c: Config, b: Breaker, now: real) {
    var k := Check(c, b, now);
    k.state.Closed? || (k.state.HalfOpen? && k.calls < c.halfOpenMaxCalls)
  }

  function Allow(c: Config, b: Breaker, now: real): Breaker {
    var k := Check(c, b, now);
    if k.state.HalfOpen? && k.calls < c.halfOpenMaxCalls then k.(calls := k.calls + 1) else k
  }

  function Succeed(c: Config, b: Breaker): Breaker {
    match b.state
    case HalfOpen =>
      var k := b.(successes := b.successes + 1);
      if k.successes >= c.successThreshold then TransitionTo(k, Closed) else k
    case Closed => b.(failures := 0)
    case Open => b
  }

  function Fail(c: Config, b: Breaker, now: real): Breaker {
    var k := b.(failures := b.failures + 1, lastFailure := Some(now));
    match b.state
    case HalfOpen => TransitionTo(k, Open)
    case Closed => if k.failures >= c.failureThreshold then TransitionTo(k, Open) else k
    case Open => k
  }

  // ---------- The code ----------

  class CircuitBreaker {
    const config: Config
    var state: State
    var failureCount: int
    var successCount: int
    var lastFailureTime: Option<real>
    var halfOpenCalls: int

    function Value(): Breaker
      reads this
    {
      Breaker(state, failureCount, successCount, lastFailureTime, halfOpenCalls)
    }

    constructor (config: Config)
      ensures Value() == NEW && this.config == config
    {
      this.config := config;
      state, failureCount, successCount, lastFailureTime, halfOpenCalls := Closed, 0, 0, None, 0;
    }

    method Transition(s: State)
      modifies this
      ensures Value() == TransitionTo(old(Value()), s)
    {
      state := s;
      if s == HalfOpen {
        halfOpenCalls, successCount := 0, 0;
      } else if s == Closed {
        failureCount := 0;
      }
    }

    method CheckStateTransition(now: real)
      modifies this
      ensures Value() == Check(config, old(Value()), now)
    {
      if state == Open && lastFailureTime.Some? && lastFailureTime.value != 0.0 {
        var elapsed := now - lastFailureTime.value;
        if elapsed >= config.recoveryTimeout {
          Transition(HalfOpen);
        }
      }
    }

    method CurrentState(now: real) returns (s: State)
      modifies this
      ensures Value() == Check(config, old(Value()), now) && s == state
    {
      CheckStateTransition(now);
      s := state;
    }

    method AllowRequest(now: real) returns (allowed: bool)
      modifies this
      ensures Value() == Allow(config, old(Value()), now) && allowed == Admits(config, old(Value()), now)
    {
      CheckStateTransition(now);
      match state
      case Closed => allowed := true;
      case Open => allowed := false;
      case HalfOpen =>
        allowed := false;
        if halfOpenCalls < config.halfOpenMaxCalls {
          halfOpenCalls := halfOpenCalls + 1;
          allowed := true;
        }
    }

    method RecordSuccess()
      modifies this
      ensures Value() == Succeed(config, old(Value()))
    {
      if state == HalfOpen {
        successCount := successCount + 1;
        if successCount >= config.successThreshold {
          Transition(Closed);
        }
      } else if state == Closed {
        failureCount := 0;
      }
    }

    method RecordFailure(now: real)
      modifies this
      ensures Value() == Fail(config, old(Value()), now)
    {
      failureCount := failureCount + 1;
      lastFailureTime := Some(now);
      if state == HalfOpen {
        Transition(Open);
      } else if state == Closed {
        if failureCount >= config.failureThreshold {
          Transition(Open);
        }
      }
    }

    /** reset_circuit_breaker. */
    method Reset()
      modifies this
      ensures Value() == NEW
    {
      state, failureCount, successCount, lastFailureTime, halfOpenCalls := Closed, 0, 0, None, 0;
    }
  }

  // ---------- Histories ----------

  datatype Event = Ask(now: real) | Peek(now: real) | Success | Failure(now: real) | ResetEvent

  function Step(c: Config, b: Breaker, e: Event): Breaker {
    match e
    case Ask(now) => Allow(c, b, now)
    case Peek(now) => Check(c, b, now)
    case Success => Succeed(c, b)
    case Failure(now) => Fail(c, b, now)
    case ResetEvent => NEW
  }

  function Run(c: Config, es: seq<Event>): Breaker {
    if es == [] then NEW else Step(c, Run(c, es[..|es| - 1]), es[|es| - 1])
  }

  /** Failures after the last reported success (or reset). */
  function FailuresSinceSuccess(es: seq<Event>): nat {
    if es == [] then 0
    else
      var before, e := FailuresSinceSuccess(es[..|es| - 1]), es[|es| - 1];
      if e.Success? || e.ResetEvent? then 0 else if e.Failure? then before + 1 else before
  }

  function LastFailure(es: seq<Event>): Option<real> {
    if es == [] then None
    else
      var e := es[|es| - 1];
      if e.Failure? then Some(e.now) else if e.ResetEvent? then None else LastFailure(es[..|es| - 1])
  }

  /** Requests admitted since the breaker last became half-open. */
  function AdmittedInEpisode(c: Config, es: seq<Event>): nat {
    if es == [] || !Run(c, es).state.HalfOpen? then 0
    else
      var init, e := es[..|es| - 1], es[|es| - 1];
      AdmittedInEpisode(c, init) + if e.Ask? && Admits(c, Run(c, init), e.now) then 1 else 0
  }

  /** Successes reported since the breaker last became half-open. */
  function SuccessesInEpisode(c: Config, es: seq<Event>): nat {
    if es == [] || !Run(c, es).state.HalfOpen? then 0
    else SuccessesInEpisode(c, es[..|es| - 1]) + if es[|es| - 1].Success? then 1 else 0
  }

  /** What the counters mean after any history. */
  lemma {:induction false} CountersMean(c: Config, es: seq<Event>)
    ensures var b := Run(c, es);
      && (b.state.Closed? ==> b.failures == FailuresSinceSuccess(es) && (b.failures == 0 || b.failures < c.failureThreshold))
      && b.lastFailure == LastFailure(es)
      && (!b.state.Closed? ==> b.lastFailure.Some?)
      && (b.state.HalfOpen? ==>
            && b.calls == AdmittedInEpisode(c, es)
            && b.successes == SuccessesInEpisode(c, es) < Max(1, c.successThreshold))
  {
    if es == [] {
    } else {
      CountersMean(c, es[..|es| - 1]);
    }
  }

  /** From closed, the breaker opens exactly at the failure that completes failure_threshold
      failures without a success in between. */
  lemma OpensExactlyAtThreshold(c: Config, es: seq<Event>, e: Event)
    requires Run(c, es).state.Closed?
    ensures Step(c, Run(c, es), e).state.Open? <==> e.Failure? && FailuresSinceSuccess(es) + 1 >= c.failureThreshold
    ensures !Step(c, Run(c, es), e).state.HalfOpen?
  {
    CountersMean(c, es);
  }

  /** A half-open episode admits at most half_open_max_calls requests. */
  lemma EpisodeIsBounded(c: Config, es: seq<Event>)
    ensures AdmittedInEpisode(c, es) <= Max(0, c.halfOpenMaxCalls)
    decreases |es|
  {
    if es != [] {
      EpisodeIsBounded(c, es[..|es| - 1]);
      CountersMean(c, es);
      CountersMean(c, es[..|es| - 1]);
    }
  }

  ghost predicate ClockIsMonotone(es: seq<Event>, now: real) {
    forall i :: 0 <= i < |es| && es[i].Failure? ==> 0.0 < es[i].now <= now
  }

  /** While open, a request is admitted exactly if recovery_timeout has passed since the last
      failure reported (with room for a probe), so since every failure reported. */
  lemma {:induction false} OpenAdmitsAfterTimeout(c: Config, es: seq<Event>, now: real)
    requires Run(c, es).state.Open? && ClockIsMonotone(es, now)
    ensures LastFailure(es).Some?
    ensures Admits(c, Run(c, es), now) <==> now - LastFailure(es).value >= c.recoveryTimeout && 0 < c.halfOpenMaxCalls
  {
    CountersMean(c, es);
    LastFailureIsReported(es);
  }

  lemma {:induction false} LastFailureIsReported(es: seq<Event>)
    ensures LastFailure(es).Some? ==> exists i :: 0 <= i < |es| && es[i] == Failure(LastFailure(es).value)
  {
    if es == [] {
    } else {
      LastFailureIsReported(es[..|es| - 1]);
      if LastFailure(es).Some? && !es[|es| - 1].Failure? {
        var i :| 0 <= i < |es| - 1 && es[..|es| - 1][i] == Failure(LastFailure(es).value);
        assert es[i] == Failure(LastFailure(es).value);
      }
    }
  }

  // ---------- Admission and transitions, from the history alone ----------

  /** The timeout has passed since the last failure reported; one timed zero never counts. */
  predicate TimedOut(c: Config, es: seq<Event>, now: real) {
    LastFailure(es).Some? && LastFailure(es).value != 0.0 && now - LastFailure(es).value >= c.recoveryTimeout
  }

  /** A closed breaker admits everything, a half-open one while its episode has probes left, and an
      open one exactly after the timeout and with room for a probe. */
  lemma AdmissionExact(c: Config, es: seq<Event>, now: real)
    ensures var b := Run(c, es);
      && (b.state.Closed? ==> Admits(c, b, now))
      && (b.state.HalfOpen? ==> (Admits(c, b, now) <==> AdmittedInEpisode(c, es) < c.halfOpenMaxCalls))
      && (b.state.Open? ==> (Admits(c, b, now) <==> TimedOut(c, es, now) && 0 < c.halfOpenMaxCalls))
  {
    CountersMean(c, es);
  }

  /** The state after one more event. */
  function NextState(c: Config, es: seq<Event>, e: Event): State {
    match Run(c, es).state
    case Closed => if e.Failure? && FailuresSinceSuccess(es) + 1 >= c.failureThreshold then Open else Closed
    case Open =>
      if e.ResetEvent? then Closed
      else if (e.Ask? || e.Peek?) && TimedOut(c, es, e.now) then HalfOpen
      else Open
    case HalfOpen =>
      if e.ResetEvent? then Closed
      else if e.Failure? then Open
      else if e.Success? && SuccessesInEpisode(c, es) + 1 >= c.successThreshold then Closed
      else HalfOpen
  }

  /** The whole diagram: closed opens at the threshold, open half-opens when it is asked after the
      timeout, half-open reopens at any failure and closes at the success that completes
      success_threshold in the episode; nothing else moves the breaker but a reset. */
  lemma TransitionsExact(c: Config, es: seq<Event>, e: Event)
    ensures Run(c, es + [e]).state == NextState(c, es, e)
  {
    RunAppend(c, es, e);
    CountersMean(c, es);
  }

  // ---------- Can a half-open breaker get stuck? ----------

  /** Half-open, no probe left to admit, and as many successes reported as probes admitted: no
      report of a probe is outstanding.  Only a request from before the episode could still
      report, or a reset move the breaker on. */
  predicate Stuck(c: Config, b: Breaker) {
    b.state.HalfOpen? && b.calls >= c.halfOpenMaxCalls && b.successes >= b.calls
  }

  /** Requests and queries, but no reports. */
  predicate Quiet(es: seq<Event>) {
    forall i :: 0 <= i < |es| ==> es[i].Ask? || es[i].Peek?
  }

  /** Without a report an exhausted half-open breaker refuses every request, however many there
      are and however long one waits. */
  lemma {:induction false} ExhaustedRefuses(c: Config, es: seq<Event>, more: seq<Event>, now: real)
    requires Run(c, es).state.HalfOpen? && Run(c, es).calls >= c.halfOpenMaxCalls && Quiet(more)
    ensures Run(c, es + more) == Run(c, es) && !Admits(c, Run(c, es + more), now)
    decreases |more|
  {
    if more == [] {
      assert es + more == es;
    } else {
      var init, last := more[..|more| - 1], more[|more| - 1];
      ExhaustedRefuses(c, es, init, now);
      assert es + more == es + init + [last];
      RunAppend(c, es + init, last);
    }
  }

  /** A stuck breaker refuses for ever: after any requests and queries it is the same and stuck. */
  lemma StuckStaysStuck(c: Config, es: seq<Event>, more: seq<Event>, now: real)
    requires Stuck(c, Run(c, es)) && Quiet(more)
    ensures Run(c, es + more) == Run(c, es) && Stuck(c, Run(c, es + more)) && !Admits(c, Run(c, es + more), now)
  {
    ExhaustedRefuses(c, es, more, now);
  }

  function Repeat(e: Event, n: nat): (es: seq<Event>)
    ensures |es| == n && forall i :: 0 <= i < n ==> es[i] == e
  {
    seq(n, _ => e)
  }

  lemma {:induction false} RunAppend(c: Config, es: seq<Event>, e: Event)
    ensures Run(c, es + [e]) == Step(c, Run(c, es), e)
  {
    assert (es + [e])[..|es|] == es;
  }

  lemma {:induction false} RunRepeat(c: Config, es: seq<Event>, e: Event, n: nat)
    requires n > 0
    ensures Run(c, es + Repeat(e, n)) == Step(c, Run(c, es + Repeat(e, n - 1)), e)
  {
    assert es + Repeat(e, n) == es + Repeat(e, n - 1) + [e];
    RunAppend(c, es + Repeat(e, n - 1), e);
  }

  lemma {:induction false} FailuresOpen(c: Config, n: nat)
    ensures var b := Run(c, [] + Repeat(Failure(1.0), n));
      if n == 0 || n < c.failureThreshold then b.state.Closed? && b.failures == n
      else b.state.Open? && b.lastFailure == Some(1.0)
  {
    if n > 0 {
      FailuresOpen(c, n - 1);
      RunRepeat(c, [], Failure(1.0), n);
    } else {
      assert [] + Repeat(Failure(1.0), 0) == [];
    }
  }

  lemma {:induction false} ProbesAdmitted(c: Config, es: seq<Event>, now: real, n: nat)
    requires var b := Run(c, es); b.state.HalfOpen? && b.calls == 0 && b.successes == 0 && n <= c.halfOpenMaxCalls
    ensures var b := Run(c, es + Repeat(Ask(now), n)); b.state.HalfOpen? && b.calls == n && b.successes == 0
  {
    if n > 0 {
      ProbesAdmitted(c, es, now, n - 1);
      RunRepeat(c, es, Ask(now), n);
    } else {
      assert es + Repeat(Ask(now), 0) == es;
    }
  }

  lemma {:induction false} ProbesSucceed(c: Config, es: seq<Event>, n: nat)
    requires var b := Run(c, es); b.state.HalfOpen? && b.successes == 0 && n < c.successThreshold
    ensures var b := Run(c, es + Repeat(Success, n));
      b.state.HalfOpen? && b.calls == Run(c, es).calls && b.successes == n
  {
    if n > 0 {
      ProbesSucceed(c, es, n - 1);
      RunRepeat(c, es, Success, n);
    } else {
      assert es + Repeat(Success, 0) == es;
    }
  }

  /** A history that gets stuck when the successes required exceed the probes admitted. */
  lemma GetStuck(c: Config) returns (es: seq<Event>)
    requires Max(1, c.successThreshold) > c.halfOpenMaxCalls
    ensures Stuck(c, Run(c, es))
  {
    var n := Max(1, c.failureThreshold);
    FailuresOpen(c, n);
    var open := [] + Repeat(Failure(1.0), n);
    var later := 1.0 + if c.recoveryTimeout >= 0.0 then c.recoveryTimeout else 0.0;
    es := open + [Peek(later)];
    RunAppend(c, open, Peek(later));
    if c.halfOpenMaxCalls > 0 {
      var probes := c.halfOpenMaxCalls;
      ProbesAdmitted(c, es, later, probes);
      es := es + Repeat(Ask(later), probes);
      ProbesSucceed(c, es, probes);
      es := es + Repeat(Success, probes);
    }
  }

  ghost predicate GetsStuck(c: Config, es: seq<Event>) {
    Stuck(c, Run(c, es))
  }

  /** Some history gets the breaker stuck exactly when success_threshold (at least one) exceeds
      half_open_max_calls; otherwise an exhausted half-open breaker always awaits the report of
      some admitted probe. */
  lemma CanGetStuckIff(c: Config)
    ensures (exists es :: GetsStuck(c, es)) <==> Max(1, c.successThreshold) > c.halfOpenMaxCalls
  {
    if Max(1, c.successThreshold) > c.halfOpenMaxCalls {
      var es := GetStuck(c);
      assert GetsStuck(c, es);
    }
    forall es | GetsStuck(c, es) ensures Max(1, c.successThreshold) > c.halfOpenMaxCalls {
      CountersMean(c, es);
    }
  }

  // ---------- Retry around the breaker ----------

  /** What an attempt of the wrapped function does; covered: one of the declared exceptions. */
  datatype Attempt<T> = Returns(value: T) | Raises(covered: bool, retryable: bool)

  datatype Call<T> = CircuitOpen | Done(value: T) | Failed(attempts: nat) | Escaped(attempts: nat)

  /** The attempts made: up to the first that returns, escapes or may not be retried, at most n. */
  function Attempts<T>(f: nat -> Attempt<T>, from: nat, n: nat): (m: nat)
    ensures m <= n
    decreases n
  {
    if n == 0 then 0
    else match f(from)
      case Returns(_) => 1
      case Raises(covered, retryable) =>
        if !covered || !retryable || n == 1 then 1 else 1 + Attempts(f, from + 1, n - 1)
  }

  /** Every attempt but the last made raised a declared, retryable exception; the last one returned,
      escaped, may not be retried, or used up the attempts. */
  lemma {:induction false} AttemptsExact<T>(f: nat -> Attempt<T>, from: nat, n: nat)
    requires n > 0
    ensures var m := Attempts(f, from, n);
      && 1 <= m <= n
      && (forall i :: from <= i < from + m - 1 ==> f(i).Raises? && f(i).covered && f(i).retryable)
      && (m == n || f(from + m - 1).Returns? || !f(from + m - 1).covered || !f(from + m - 1).retryable)
    decreases n
  {
    if n == 1 {
    } else if f(from).Raises? && f(from).covered && f(from).retryable {
      AttemptsExact(f, from + 1, n - 1);
    }
  }

  /** One admission, then attempts until one returns, is final, or the retries are used up.  A
      returned or failed call reports to the breaker exactly once, at its end; an exception
      outside the declared ones escapes and leaves the admission unreported.  With negative
      retries nothing is attempted, and the call fails. */
  method WithResilience<T>(breaker: CircuitBreaker, f: nat -> Attempt<T>, maxRetries: int, asked: real, ended: real)
    returns (r: Call<T>)
    modifies breaker
    ensures r.CircuitOpen? <==> !Admits(breaker.config, old(breaker.Value()), asked)
    ensures var c, before := breaker.config, Allow(breaker.config, old(breaker.Value()), asked);
      breaker.Value() == match r
        case Done(_) => Succeed(c, before)
        case Failed(_) => Fail(c, before, ended)
        case CircuitOpen => before
        case Escaped(_) => before
    ensures old(breaker.Value()).state.Closed? ==> !r.CircuitOpen?
    ensures maxRetries < 0 ==> r.CircuitOpen? || r == Failed(0)
    ensures r.CircuitOpen? || maxRetries < 0 ||
      var m := Attempts(f, 0, maxRetries + 1);
      match f(m - 1)
      case Returns(v) => r == Done(v)
      case Raises(covered, _) => r == if covered then Failed(m) else Escaped(m)
  {
    var allowed := breaker.AllowRequest(asked);
    if !allowed {
      return CircuitOpen;
    }
    if maxRetries < 0 {
      breaker.RecordFailure(ended);
      return Failed(0);
    }
    for attempt := 0 to maxRetries + 1
      invariant breaker.Value() == Allow(breaker.config, old(breaker.Value()), asked)
      invariant attempt <= maxRetries
      invariant Attempts(f, 0, maxRetries + 1) == attempt + Attempts(f, attempt, maxRetries + 1 - attempt)
    {
      match f(attempt)
      case Returns(v) =>
        breaker.RecordSuccess();
        return Done(v);
      case Raises(covered, retryable) =>
        if !covered {
          return Escaped(attempt + 1);
        }
        if !retryable {
          breaker.RecordFailure(ended);
          return Failed(attempt + 1);
        }
        if attempt == maxRetries {
          breaker.RecordFailure(ended);
          return Failed(attempt + 1);
        }
    }
  }

  /** Half-open probes that escape are never reported: after half_open_max_calls of them the
      breaker refuses every request, through any further requests and queries. */
  lemma EscapedProbesBlock(c: Config, es: seq<Event>, now: real, more: seq<Event>, later: real)
    requires var b := Run(c, es); b.state.HalfOpen? && b.calls == 0 && b.successes == 0
    requires Quiet(more)
    ensures !Admits(c, Run(c, es + Repeat(Ask(now), Max(0, c.halfOpenMaxCalls)) + more), later)
  {
    if c.halfOpenMaxCalls >= 0 {
      ProbesAdmitted(c, es, now, c.halfOpenMaxCalls);
    } else {
      assert es + Repeat(Ask(now), 0) == es;
    }
    ExhaustedRefuses(c, es + Repeat(Ask(now), Max(0, c.halfOpenMaxCalls)), more, later);
  }
}
