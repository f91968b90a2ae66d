/**
 * The agent portal's circuit breaker: CLOSED passes calls through, OPEN rejects them until
 * `nextAttempt`, HALF_OPEN lets calls through to test whether the service recovered.
 *
 * The clock is the parameter `now` (read when a call arrives) and `finishedAt` (read when
 * a failure is recorded, after the call settled). The wrapped call is its `Outcome`: a
 * rejection and a lost race against the timeout are both `Failure`.
 */
module CircuitBreaker {
  import opened Wrappers

  datatype CircuitState = Closed | Open | HalfOpen

  datatype Config = Config(failureThreshold: int, successThreshold: int, timeout: int, resetTimeout: int)

  /** The constructor's `Partial<CircuitBreakerConfig>`; `||` replaces an absent or zero field. */
  datatype PartialConfig = PartialConfig(failureThreshold: Option<int>, successThreshold: Option<int>,
                                         timeout: Option<int>, resetTimeout: Option<int>)

  function OrDefault(x: Option<int>, d: int): (r: int)
    ensures r == if x.Some? && x.value != 0 then x.value else d
  {
    match x
    case Some(v) => if v != 0 then v else d
    case None => d
  }

  function ConfigOf(p: PartialConfig): Config
  {
    Config(OrDefault(p.failureThreshold, 5), OrDefault(p.successThreshold, 2),
           OrDefault(p.timeout, 60000), OrDefault(p.resetTimeout, 30000))
  }

  /** An empty configuration gives 5 failures, 2 successes, a 60 s call timeout and a 30 s reset. */
  lemma DefaultConfig()
    ensures ConfigOf(PartialConfig(None, None, None, None)) == Config(5, 2, 60000, 30000)
  {
  }

  /** The portal's four breakers: biometric and M-Pesa open after 3 failures, identity and wallet after 5. */
  lemma PortalBreakers()
    ensures ConfigOf(PartialConfig(Some(3), None, Some(30000), None)) == Config(3, 2, 30000, 30000)
    ensures ConfigOf(PartialConfig(Some(5), None, Some(10000), None)) == Config(5, 2, 10000, 30000)
    ensures ConfigOf(PartialConfig(Some(3), None, Some(60000), None)) == Config(3, 2, 60000, 30000)
  {
  }

  datatype Snapshot = Snapshot(state: CircuitState, failureCount: nat, successCount: nat, nextAttempt: int)

  datatype Outcome = Success | Failure

  /** What `execute` does for its caller: reject without calling, return the value, or rethrow. */
  datatype Response = RejectedOpen | Returned | Threw

  function OnSuccess(s: Snapshot, cfg: Config): Snapshot
  {
    if s.state == HalfOpen then
      var n := s.successCount + 1;
      s.(failureCount := 0, successCount := n, state := if n >= cfg.successThreshold then Closed else HalfOpen)
    else s.(failureCount := 0)
  }

  function OnFailure(s: Snapshot, cfg: Config, finishedAt: int): Snapshot
  {
    var n := s.failureCount + 1;
    if n >= cfg.failureThreshold then s.(failureCount := n, state := Open, nextAttempt := finishedAt + cfg.resetTimeout)
    else s.(failureCount := n)
  }

  /** One call of `execute`: the new breaker state and what the caller sees. */
  function Next(s: Snapshot, cfg: Config, now: int, finishedAt: int, outcome: Outcome): (Snapshot, Response)
  {
    if s.state == Open && now < s.nextAttempt then (s, RejectedOpen)
    else
      var t := if s.state == Open then s.(state := HalfOpen, successCount := 0) else s;
      match outcome
      case Success => (OnSuccess(t, cfg), Returned)
      case Failure => (OnFailure(t, cfg, finishedAt), Threw)
  }

  /** While open and before `nextAttempt` the call is refused, the wrapped function never runs and nothing changes. */
  lemma OpenRejects(s: Snapshot, cfg: Config, now: int, finishedAt: int, outcome: Outcome)
    requires s.state == Open && now < s.nextAttempt
    ensures Next(s, cfg, now, finishedAt, outcome) == (s, RejectedOpen)
    ensures Next(s, cfg, now, finishedAt, Success) == Next(s, cfg, now, finishedAt, Failure)
  {
  }

  /** Reaching the failure threshold opens the breaker for `resetTimeout` from the failure. */
  lemma ThresholdOpens(s: Snapshot, cfg: Config, now: int, finishedAt: int)
    requires !(s.state == Open && now < s.nextAttempt)
    ensures var (t, r) := Next(s, cfg, now, finishedAt, Failure);
      && r == Threw
      && t.failureCount == s.failureCount + 1
      && (t.state == Open <==> s.failureCount + 1 >= cfg.failureThreshold)
      && (t.state == Open ==> t.nextAttempt == finishedAt + cfg.resetTimeout)
  {
  }

  /** Any success clears the failure count and the value reaches the caller. */
  lemma SuccessClearsFailures(s: Snapshot, cfg: Config, now: int, finishedAt: int)
    requires !(s.state == Open && now < s.nextAttempt)
    ensures Next(s, cfg, now, finishedAt, Success).0.failureCount == 0
    ensures Next(s, cfg, now, finishedAt, Success).1 == Returned
    ensures s.state == Closed ==> Next(s, cfg, now, finishedAt, Success).0.state == Closed
  {
  }

  /** Once `nextAttempt` has passed, an open breaker lets one call through as HALF_OPEN, counting successes from 0. */
  lemma TrialAfterReset(s: Snapshot, cfg: Config, now: int, finishedAt: int)
    requires s.state == Open && now >= s.nextAttempt
    ensures var t := Next(s, cfg, now, finishedAt, Success).0;
      t.successCount == 1 && (t.state == Closed <==> 1 >= cfg.successThreshold) && (t.state != Closed ==> t.state == HalfOpen)
  {
  }

  /** HALF_OPEN closes exactly when the success count reaches `successThreshold`. */
  lemma HalfOpenCloses(s: Snapshot, cfg: Config, now: int, finishedAt: int)
    requires s.state == HalfOpen
    ensures var t := Next(s, cfg, now, finishedAt, Success).0;
      t.successCount == s.successCount + 1 && (t.state == Closed <==> s.successCount + 1 >= cfg.successThreshold)
  {
  }

  /**
   * A success in HALF_OPEN clears the failure count, so the next failure there re-opens the
   * breaker only when the threshold is 1: the trial phase tolerates as many failures as CLOSED.
   */
  lemma HalfOpenFailureAfterSuccess(s: Snapshot, cfg: Config, now: int, finishedAt: int)
    requires s.state == HalfOpen && cfg.successThreshold > s.successCount + 1 && cfg.failureThreshold > 1
    ensures var t := Next(Next(s, cfg, now, finishedAt, Success).0, cfg, now, finishedAt, Failure).0;
      t.state == HalfOpen && t.failureCount == 1
  {
  }

  /** The invariant the breaker keeps: OPEN only at or past the threshold, counts below their thresholds otherwise. */
  predicate Inv(s: Snapshot, cfg: Config)
  {
    && (s.state == Open ==> s.failureCount >= cfg.failureThreshold)
    && (s.state == Closed && s.failureCount > 0 ==> s.failureCount < cfg.failureThreshold)
    && (s.state == HalfOpen && s.successCount > 0 ==> s.successCount < cfg.successThreshold)
  }

  lemma NextKeepsInv(s: Snapshot, cfg: Config, now: int, finishedAt: int, outcome: Outcome)
    requires Inv(s, cfg)
    ensures Inv(Next(s, cfg, now, finishedAt, outcome).0, cfg)
  {
  }

  /** `m` calls in a row that all fail, at time `t`. */
  function Failures(s: Snapshot, cfg: Config, t: int, m: nat): Snapshot
    decreases m
  {
    if m == 0 then s else Failures(Next(s, cfg, t, t, Failure).0, cfg, t, m - 1)
  }

  /** From CLOSED, fewer consecutive failures than the threshold leave the breaker CLOSED, counting them. */
  lemma {:induction false} FewFailuresStayClosed(s: Snapshot, cfg: Config, t: int, m: nat)
    requires s.state == Closed && s.failureCount + m < cfg.failureThreshold
    ensures Failures(s, cfg, t, m).state == Closed
    ensures Failures(s, cfg, t, m).failureCount == s.failureCount + m
    decreases m
  {
    if m > 0 {
      FewFailuresStayClosed(Next(s, cfg, t, t, Failure).0, cfg, t, m - 1);
    }
  }

  /** From CLOSED, the failure that reaches the threshold opens the breaker until `t + resetTimeout`. */
  lemma {:induction false} ThresholdFailuresOpen(s: Snapshot, cfg: Config, t: int, m: nat)
    requires s.state == Closed && m >= 1 && s.failureCount + m == cfg.failureThreshold
    ensures Failures(s, cfg, t, m).state == Open
    ensures Failures(s, cfg, t, m).nextAttempt == t + cfg.resetTimeout
    decreases m
  {
    if m > 1 {
      ThresholdFailuresOpen(Next(s, cfg, t, t, Failure).0, cfg, t, m - 1);
    }
  }

  class Breaker {
    var state: CircuitState
    var failureCount: nat
    var successCount: nat
    var nextAttempt: int
    const config: Config

    function Snap(): Snapshot
      reads this
    {
      Snapshot(state, failureCount, successCount, nextAttempt)
    }

    /** A new breaker is CLOSED with both counters at 0 and `nextAttempt` at the creation time. */
    constructor(p: PartialConfig, now: int)
      ensures Snap() == Snapshot(Closed, 0, 0, now) && config == ConfigOf(p)
      ensures Inv(Snap(), config)
    {
      state := Closed;
      failureCount := 0;
      successCount := 0;
      nextAttempt := now;
      config := ConfigOf(p);
    }

    method OnSuccessStep()
      modifies this
      ensures Snap() == OnSuccess(old(Snap()), config)
    {
      failureCount := 0;
      if state == HalfOpen {
        successCount := successCount + 1;
        if successCount >= config.successThreshold {
          state := Closed;
        }
      }
    }

    method OnFailureStep(finishedAt: int)
      modifies this
      ensures Snap() == OnFailure(old(Snap()), config, finishedAt)
    {
      failureCount := failureCount + 1;
      if failureCount >= config.failureThreshold {
        state := Open;
        nextAttempt := finishedAt + config.resetTimeout;
      }
    }

    /** `execute`: the state moves as `Next` says, and the invariant is kept. */
    method Execute(now: int, finishedAt: int, outcome: Outcome) returns (r: Response)
      modifies this
      ensures (Snap(), r) == Next(old(Snap()), config, now, finishedAt, outcome)
      ensures Inv(old(Snap()), config) ==> Inv(Snap(), config)
    {
      if Inv(Snap(), config) {
        NextKeepsInv(Snap(), config, now, finishedAt, outcome);
      }
      if state == Open {
        if now < nextAttempt {
          return RejectedOpen;
        }
        state := HalfOpen;
        successCount := 0;
      }
      match outcome
      case Success =>
        OnSuccessStep();
        r := Returned;
      case Failure =>
        OnFailureStep(finishedAt);
        r := Threw;
    }

    function GetState(): (st: CircuitState)
      reads this
      ensures st == Snap().state
    {
      state
    }

    /** `reset`: CLOSED with both counters at 0; `nextAttempt` is left as it was. */
    method Reset()
      modifies this
      ensures Snap() == Snapshot(Closed, 0, 0, old(nextAttempt))
      ensures Inv(Snap(), config)
    {
      state := Closed;
      failureCount := 0;
      successCount := 0;
    }
  }
}
