/**
 The reconnect budget, which exists twice: the Rust state machine of
 crates/collab-core/src/connection.rs with its driver loop in crates/collab-cli/src/commands.rs, and
 the TypeScript one in plugins/obsidian-ee/src/collab-client.ts. Delays are reals.
 */
module Retry {
  import opened Common

  function Times(a: real, b: real): real {
    a * b
  }

  function Pow(base: real, n: nat): real {
    if n == 0 then 1.0 else Times(base, Pow(base, n - 1))
  }

  function MinReal(a: real, b: real): real {
    if a < b then a else b
  }

  function Backoff(initial: real, multiplier: real, exponent: nat, cap: real): real {
    MinReal(Times(initial, Pow(multiplier, exponent)), cap)
  }

  // ---------------------------------------------------------------- the Rust machine

  /** Durations in seconds. */
  datatype RetryPolicy = RetryPolicy(maxRetries: nat, initialDelay: real, maxDelay: real, multiplier: real) {
    /** An attempt that does not fit an `i32` exponent falls back to exponent 0. */
    function DelayForAttempt(attempt: nat): Option<real> {
      if attempt >= maxRetries then None
      else
        var exponent := if attempt < 0x8000_0000 then attempt else 0;
        Some(Backoff(initialDelay, multiplier, exponent, maxDelay))
    }
  }

  datatype ConnectionState = Disconnected | Connecting | Connected | Reconnecting(attempt: nat) | Failed

  datatype ConnectionAction =
    | DoNothing | Connect | IdentifyAndSubscribe | WaitAndRetry(delay: real, attempt: nat) | GiveUp

  class ConnectionStateMachine {
    const policy: RetryPolicy
    var state: ConnectionState
    var retryCount: nat

    /** A reconnecting machine is within its budget; a failed one has used one more than all of it. */
    ghost predicate Valid()
      reads this
    {
      && (state.Reconnecting? ==> 1 <= state.attempt == retryCount <= policy.maxRetries)
      && (state.Failed? ==> retryCount == policy.maxRetries + 1)
      && (!state.Failed? ==> retryCount <= policy.maxRetries)
    }

    constructor (policy: RetryPolicy, autoConnect: bool)
      ensures Valid() && this.policy == policy && retryCount == 0
      ensures state == if autoConnect then Connecting else Disconnected
    {
      this.policy, retryCount := policy, 0;
      state := if autoConnect then Connecting else Disconnected;
    }

    function NextAction(): ConnectionAction
      requires Valid()
      reads this
    {
      match state
      case Disconnected => DoNothing
      case Connecting => Connect
      case Connected => IdentifyAndSubscribe
      case Reconnecting(attempt) =>
        var delay := policy.DelayForAttempt(attempt - 1);
        if delay.None? then GiveUp else WaitAndRetry(delay.value, attempt)
      case Failed => GiveUp
    }

    method RequestConnect()
      requires Valid()
      modifies this
      ensures Valid() && retryCount == old(retryCount)
      ensures state == if old(state).Disconnected? then Connecting else old(state)
    {
      if state.Disconnected? {
        state := Connecting;
      }
    }

    method OnConnected()
      requires Valid() && !state.Failed?
      modifies this
      ensures Valid() && state == Connected && retryCount == old(retryCount)
    {
      state := Connected;
    }

    method OnStableConnection()
      requires Valid() && state.Connected?
      modifies this
      ensures Valid() && state == old(state) && retryCount == 0
    {
      retryCount := 0;
    }

    /** `on_error` and `on_disconnected`. */
    method AdvanceRetry()
      requires Valid() && !state.Failed?
      modifies this
      ensures Valid() && retryCount == old(retryCount) + 1
      ensures state == if old(retryCount) < policy.maxRetries then Reconnecting(retryCount) else Failed
      ensures var (b, delay) := RustDrop(policy, Budget(old(retryCount)));
        && retryCount == b.used
        && NextAction() == (if delay.None? then GiveUp else WaitAndRetry(delay.value, retryCount))
    {
      retryCount := retryCount + 1;
      if policy.DelayForAttempt(retryCount - 1).None? {
        state := Failed;
      } else {
        state := Reconnecting(retryCount);
      }
    }

    method OnRetryTick()
      requires Valid()
      modifies this
      ensures Valid() && retryCount == old(retryCount)
      ensures state == if old(state).Reconnecting? then Connecting else old(state)
    {
      if state.Reconnecting? {
        state := Connecting;
      }
    }
  }

  // ---------------------------------------------------------------- the CLI driver loop

  /** What one connection attempt turns into. */
  datatype Outcome = Refused | Ended(stable: bool, clean: bool)

  predicate IsClean(o: Outcome) {
    o.Ended? && o.clean
  }

  predicate IsStable(o: Outcome) {
    o.Ended? && o.stable
  }

  /**
   `connect`: from `horizon` on no session is stable. The loop then makes at most
   `horizon + max_retries + 1` connects (so `max_retries + 1` when none is ever stable). It ends
   well only after a clean session, and gives up only after `max_retries + 1` failures in a row of
   which all but possibly the first were unstable.
   */
  method RunConnect(policy: RetryPolicy, outcome: nat -> Outcome, ghost horizon: nat)
    returns (connects: nat, gaveUp: bool)
    requires forall i :: i >= horizon ==> !IsStable(outcome(i))
    ensures connects <= horizon + policy.maxRetries + 1
    ensures !gaveUp ==> connects > 0 && IsClean(outcome(connects - 1))
    ensures gaveUp ==>
      && connects > policy.maxRetries
      && (forall i :: connects - policy.maxRetries - 1 <= i < connects ==> !IsClean(outcome(i)))
      && (forall i :: connects - policy.maxRetries <= i < connects ==> !IsStable(outcome(i)))
  {
    var sm := new ConnectionStateMachine(policy, true);
    connects := 0;
    while true
      invariant sm.Valid() && sm.policy == policy
      invariant sm.state.Connecting? || sm.state.Reconnecting? || sm.state.Failed?
      invariant sm.retryCount <= connects
      invariant sm.retryCount == 0 ==> connects == 0
      invariant sm.retryCount < connects ==> IsStable(outcome(connects - sm.retryCount))
      invariant forall i :: connects - sm.retryCount <= i < connects ==> !IsClean(outcome(i))
      invariant forall i :: connects - sm.retryCount < i < connects ==> !IsStable(outcome(i))
      decreases horizon + policy.maxRetries + 2 - connects, sm.state.Reconnecting?
    {
      match sm.NextAction() {
        case Connect =>
          var o := outcome(connects);
          connects := connects + 1;
          if o.Refused? {
            sm.AdvanceRetry();
          } else {
            sm.OnConnected();
            if o.stable {
              sm.OnStableConnection();
            }
            if o.clean {
              return connects, false;
            }
            sm.AdvanceRetry();
          }
        case WaitAndRetry(delay, attempt) =>
          sm.OnRetryTick();
        case GiveUp =>
          return connects, true;
      }
    }
  }

  // ---------------------------------------------------------------- the TypeScript machine

  /** Durations in milliseconds. */
  datatype ReconnectConfig = ReconnectConfig(maxAttempts: nat, maxDelay: real)

  const RECONNECT_DELAY := 1000.0

  class Reconnector {
    const config: ReconnectConfig
    var stopped: bool
    var attempts: nat

    constructor (config: ReconnectConfig)
      ensures this.config == config && !stopped && attempts == 0
    {
      this.config, stopped, attempts := config, false, 0;
    }

    /** `handleReconnect` after a drop: the delay until the next attempt, or none once given up. */
    method HandleReconnect() returns (delay: Option<real>)
      modifies this
      ensures stopped == old(stopped)
      ensures stopped ==> delay.None? && attempts == old(attempts)
      ensures !stopped ==> (Budget(attempts), delay) == TsDrop(config, Budget(old(attempts)))
    {
      if stopped {
        return None;
      }
      if attempts < config.maxAttempts {
        attempts := attempts + 1;
        delay := Some(Backoff(RECONNECT_DELAY, 2.0, attempts - 1, config.maxDelay));
      } else {
        delay := None;
      }
    }

    /** The stability timer fires on a connection that stayed up. */
    method OnStable()
      modifies this
      ensures stopped == old(stopped)
      ensures attempts == if stopped then old(attempts) else 0
    {
      if !stopped {
        attempts := 0;
      }
    }
  }

  // ---------------------------------------------------------------- what the delays are

  /** Capped exponential growth: it starts capped, each step multiplies and caps again, and it stays within the cap. */
  lemma BackoffGrows(initial: real, multiplier: real, cap: real, n: nat)
    requires initial >= 0.0 && cap >= 0.0 && multiplier >= 1.0
    ensures Backoff(initial, multiplier, 0, cap) == MinReal(initial, cap)
    ensures Backoff(initial, multiplier, n + 1, cap) == MinReal(Times(multiplier, Backoff(initial, multiplier, n, cap)), cap)
    ensures 0.0 <= Backoff(initial, multiplier, n, cap) <= cap
  {
    hide Backoff, Pow, MinReal;
    BackoffStarts(initial, multiplier, cap);
    BackoffStep(initial, multiplier, cap, n);
  }

  lemma BackoffStarts(initial: real, multiplier: real, cap: real)
    ensures Backoff(initial, multiplier, 0, cap) == MinReal(initial, cap)
  {
    assert Times(initial, 1.0) == initial;
  }

  lemma BackoffStep(initial: real, multiplier: real, cap: real, n: nat)
    requires initial >= 0.0 && cap >= 0.0 && multiplier >= 1.0
    ensures Backoff(initial, multiplier, n + 1, cap) == MinReal(Times(multiplier, Backoff(initial, multiplier, n, cap)), cap)
    ensures 0.0 <= Backoff(initial, multiplier, n, cap) <= cap
  {
    var power := Pow(multiplier, n);
    PowAtLeastOne(multiplier, n);
    assert Pow(multiplier, n + 1) == Times(multiplier, power);
    hide Pow, Times;
    ScaleCapped(initial, multiplier, power, cap);
  }

  /**
   The Rust backoff, without powers: the first delay is the initial one, each next delay is the
   previous one times the multiplier, no delay exceeds the cap, and there is one exactly while
   attempts last.
   */
  lemma BackoffExact(policy: RetryPolicy, attempt: nat)
    requires policy.initialDelay >= 0.0 && policy.maxDelay >= 0.0 && policy.multiplier >= 1.0
    requires attempt < 0x7fff_ffff
    ensures policy.DelayForAttempt(attempt).Some? <==> attempt < policy.maxRetries
    ensures policy.DelayForAttempt(0).Some? ==>
      policy.DelayForAttempt(0).value == if policy.initialDelay <= policy.maxDelay then policy.initialDelay else policy.maxDelay
    ensures policy.DelayForAttempt(attempt).Some? ==> 0.0 <= policy.DelayForAttempt(attempt).value <= policy.maxDelay
    ensures policy.DelayForAttempt(attempt + 1).Some? ==>
      var next := policy.multiplier * policy.DelayForAttempt(attempt).value;
      policy.DelayForAttempt(attempt + 1).value == if next <= policy.maxDelay then next else policy.maxDelay
  {
    hide Backoff;
    BackoffGrows(policy.initialDelay, policy.multiplier, policy.maxDelay, attempt);
  }

  lemma {:induction false} PowAtLeastOne(base: real, n: nat)
    requires base >= 1.0
    ensures Pow(base, n) >= 1.0
  {
    if n > 0 {
      PowAtLeastOne(base, n - 1);
      MulReal(base, 1.0, Pow(base, n - 1));
    }
  }

  lemma MulReal(a: real, x: real, y: real)
    requires a >= 0.0 && x <= y
    ensures a * x <= a * y
  {
  }

  /** Capping before or after multiplying gives the same capped value. */
  lemma ScaleCapped(initial: real, multiplier: real, power: real, cap: real)
    requires initial >= 0.0 && multiplier >= 1.0 && power >= 1.0 && cap >= 0.0
    ensures Times(initial, power) >= 0.0
    ensures MinReal(Times(initial, Times(multiplier, power)), cap)
      == MinReal(Times(multiplier, MinReal(Times(initial, power), cap)), cap)
  {
    var d := Times(initial, power);
    TimesRegroup(initial, multiplier, power);
    MulReal(initial, 1.0, power);
    hide Times;
    if d > cap {
      TimesGrows(cap, multiplier);
      TimesGrows(d, multiplier);
    }
  }

  lemma TimesRegroup(a: real, b: real, c: real)
    ensures Times(a, Times(b, c)) == Times(b, Times(a, c))
  {
  }

  lemma TimesGrows(x: real, multiplier: real)
    requires x >= 0.0 && multiplier >= 1.0
    ensures Times(multiplier, x) >= x
  {
    MulReal(x, 1.0, multiplier);
  }

  /** The TypeScript side: a second, doubled per attempt, capped, and giving up after the last attempt. */
  lemma TsBackoffExact(cfg: ReconnectConfig, used: nat)
    requires cfg.maxDelay >= 0.0
    ensures TsDrop(cfg, Budget(used)).1.Some? <==> used < cfg.maxAttempts
    ensures TsDrop(cfg, Budget(used)).0 == if used < cfg.maxAttempts then Budget(used + 1) else Budget(used)
    ensures TsDrop(cfg, Budget(0)).1.Some? ==>
      TsDrop(cfg, Budget(0)).1.value == if 1000.0 <= cfg.maxDelay then 1000.0 else cfg.maxDelay
    ensures TsDrop(cfg, Budget(used + 1)).1.Some? ==>
      var next := 2.0 * TsDrop(cfg, Budget(used)).1.value;
      TsDrop(cfg, Budget(used + 1)).1.value == if next <= cfg.maxDelay then next else cfg.maxDelay
  {
    hide Backoff;
    BackoffGrows(RECONNECT_DELAY, 2.0, cfg.maxDelay, used);
  }

  // ---------------------------------------------------------------- no drift

  datatype Budget = Budget(used: nat)

  datatype LinkEvent = Drop | Stable

  function TsDrop(cfg: ReconnectConfig, b: Budget): (Budget, Option<real>) {
    if b.used < cfg.maxAttempts then
      (Budget(b.used + 1), Some(Backoff(RECONNECT_DELAY, 2.0, b.used, cfg.maxDelay)))
    else (b, None)
  }

  function RustDrop(policy: RetryPolicy, b: Budget): (Budget, Option<real>) {
    (Budget(b.used + 1), policy.DelayForAttempt(b.used))
  }

  /** What each machine answers to the drops of a run, up to and including giving up. */
  function TsAnswers(cfg: ReconnectConfig, b: Budget, evs: seq<LinkEvent>): seq<Option<real>>
    decreases |evs|
  {
    if evs == [] then []
    else if evs[0].Stable? then TsAnswers(cfg, Budget(0), evs[1..])
    else
      var (b', delay) := TsDrop(cfg, b);
      if delay.None? then [None] else [delay] + TsAnswers(cfg, b', evs[1..])
  }

  function RustAnswers(policy: RetryPolicy, b: Budget, evs: seq<LinkEvent>): seq<Option<real>>
    decreases |evs|
  {
    if evs == [] then []
    else if evs[0].Stable? then RustAnswers(policy, Budget(0), evs[1..])
    else
      var (b', delay) := RustDrop(policy, b);
      if delay.None? then [None] else [delay] + RustAnswers(policy, b', evs[1..])
  }

  function Milliseconds(delays: seq<Option<real>>): seq<Option<real>> {
    seq(|delays|, i requires 0 <= i < |delays| =>
      if delays[i].Some? then Some(1000.0 * delays[i].value) else None)
  }

  /** Both start at one second, double, cap alike and allow as many attempts, within `i32` exponents. */
  ghost predicate SamePolicy(policy: RetryPolicy, cfg: ReconnectConfig) {
    && policy.initialDelay == 1.0 && policy.multiplier == 2.0
    && policy.maxRetries == cfg.maxAttempts <= 0x8000_0000
    && 1000.0 * policy.maxDelay == cfg.maxDelay
  }

  /**
   The two machines do not drift: on every sequence of drops and stable connections they give the
   same delays and give up at the same point.
   */
  lemma {:induction false} MachinesAgree(policy: RetryPolicy, cfg: ReconnectConfig, used: nat, evs: seq<LinkEvent>)
    requires SamePolicy(policy, cfg) && used <= cfg.maxAttempts
    ensures TsAnswers(cfg, Budget(used), evs) == Milliseconds(RustAnswers(policy, Budget(used), evs))
    decreases |evs|
  {
    if evs != [] {
      if evs[0].Stable? {
        MachinesAgree(policy, cfg, 0, evs[1..]);
      } else if used < cfg.maxAttempts {
        MachinesAgree(policy, cfg, used + 1, evs[1..]);
        var rest := RustAnswers(policy, Budget(used + 1), evs[1..]);
        var delay := policy.DelayForAttempt(used);
        assert Milliseconds([delay] + rest) == [Some(1000.0 * delay.value)] + Milliseconds(rest);
      }
    }
  }
}
