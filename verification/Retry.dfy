/** Retrying with exponential backoff and jitter, over the reals. */
module Retry {
  import opened Records

  /** Times are in nanoseconds. The errors listed under `RetryableErrors` in the original are the ones that are not retried. */
  datatype Config = Config(maxAttempts: int, baseDelay: int, maxDelay: int, multiplier: real, jitterFactor: real,
                           retryableStatus: set<int>, notRetried: set<string>)

  datatype Error = Error(message: string, contextDone: bool)

  function Pow(x: real, n: nat): real {
    if n == 0 then 1.0 else x * Pow(x, n - 1)
  }

  /** The delay before jitter. */
  function Capped(attempt: nat, cfg: Config): real {
    Cap(cfg.baseDelay as real * Pow(cfg.multiplier, attempt), cfg.maxDelay as real)
  }

  function Cap(delay: real, max: real): real {
    if delay > max then max else delay
  }

  function Clamp(delay: real, max: real): real {
    var d := if delay < 0.0 then 0.0 else delay;
    if d > max then max else d
  }

  /** Conversion to a duration truncates towards zero. */
  function Truncate(x: real): int {
    if x >= 0.0 then x.Floor else -((-x).Floor)
  }

  function Jittered(delay: real, factor: real, jitter: real): real {
    delay + delay * factor * jitter
  }

  function DelayOf(attempt: nat, cfg: Config, jitter: real): int {
    Truncate(Clamp(Jittered(Capped(attempt, cfg), cfg.jitterFactor, jitter), cfg.maxDelay as real))
  }

  method CalculateDelay(attempt: nat, cfg: Config, jitter: real) returns (d: int)
    ensures d == DelayOf(attempt, cfg, jitter)
  {
    var delay := cfg.baseDelay as real * Pow(cfg.multiplier, attempt);
    if delay > cfg.maxDelay as real {
      delay := cfg.maxDelay as real;
    }
    assert delay == Capped(attempt, cfg);
    delay := Jittered(delay, cfg.jitterFactor, jitter);
    if delay < 0.0 {
      delay := 0.0;
    }
    if delay > cfg.maxDelay as real {
      delay := cfg.maxDelay as real;
    }
    d := Truncate(delay);
  }

  /** Whatever the configuration, the attempt and the jitter, the delay lies between nothing and the maximum; and a negative
      maximum is returned as it is. */
  lemma DelayInRange(attempt: nat, cfg: Config, jitter: real)
    ensures cfg.maxDelay >= 0 ==> 0 <= DelayOf(attempt, cfg, jitter) <= cfg.maxDelay
    ensures cfg.maxDelay < 0 ==> DelayOf(attempt, cfg, jitter) == cfg.maxDelay
  {
    ClampedInRange(Jittered(Capped(attempt, cfg), cfg.jitterFactor, jitter), cfg.maxDelay);
  }

  lemma ClampedInRange(x: real, max: int)
    ensures max >= 0 ==> 0 <= Truncate(Clamp(x, max as real)) <= max
    ensures max < 0 ==> Truncate(Clamp(x, max as real)) == max
  {
    var y := Clamp(x, max as real);
    if max < 0 {
      assert y == max as real && -y == (-max) as real;
    }
  }

  lemma {:induction false} PowGrows(x: real, n: nat)
    requires x >= 1.0
    ensures 1.0 <= Pow(x, n) <= Pow(x, n + 1)
  {
    if n > 0 {
      PowGrows(x, n - 1);
    }
    TimesAtLeast(x, Pow(x, n));
  }

  lemma TimesAtLeast(x: real, y: real)
    requires x >= 1.0 && y >= 0.0
    ensures x * y >= y
  {
    assert (x - 1.0) * y >= 0.0;
  }

  lemma ScaleMonotone(b: real, x: real, y: real)
    requires b >= 0.0 && x <= y
    ensures b * x <= b * y
  {
    assert b * (y - x) >= 0.0;
  }

  lemma CappedGrows(i: nat, cfg: Config)
    requires cfg.baseDelay >= 0 && cfg.multiplier >= 1.0
    ensures Capped(i, cfg) <= Capped(i + 1, cfg)
  {
    PowGrows(cfg.multiplier, i);
    ScaleMonotone(cfg.baseDelay as real, Pow(cfg.multiplier, i), Pow(cfg.multiplier, i + 1));
  }

  /** Before jitter, later attempts never wait less. */
  lemma {:induction false} BackoffGrows(i: nat, j: nat, cfg: Config)
    requires i <= j && cfg.baseDelay >= 0 && cfg.multiplier >= 1.0
    ensures Capped(i, cfg) <= Capped(j, cfg)
    decreases j
  {
    if i < j {
      BackoffGrows(i, j - 1, cfg);
      CappedGrows(j - 1, cfg);
    }
  }

  /** The backoff: the base delay first, then the multiple of the one before, as far as the maximum goes. */
  lemma BackoffIs(attempt: nat, cfg: Config)
    requires cfg.multiplier >= 1.0 && cfg.baseDelay >= 0 && cfg.maxDelay >= 0
    ensures Capped(0, cfg) == if cfg.baseDelay <= cfg.maxDelay then cfg.baseDelay as real else cfg.maxDelay as real
    ensures var more := cfg.multiplier * Capped(attempt, cfg);
            Capped(attempt + 1, cfg) == if more <= cfg.maxDelay as real then more else cfg.maxDelay as real
  {
    var b, m, p, max := cfg.baseDelay as real, cfg.multiplier, Pow(cfg.multiplier, attempt), cfg.maxDelay as real;
    assert b * Pow(m, attempt + 1) == m * (b * p);
    assert b * Pow(m, 0) == b;
    if b * p > max {
      TimesAtLeast(m, b * p);
      TimesAtLeast(m, max);
    }
  }

  /** The jitter changes the backoff by its share of it, up or down, between nothing and the maximum; a fraction of a nanosecond is dropped. */
  lemma DelayIs(attempt: nat, cfg: Config, jitter: real)
    requires cfg.maxDelay >= 0
    ensures var x, d := Capped(attempt, cfg) * (1.0 + cfg.jitterFactor * jitter), DelayOf(attempt, cfg, jitter);
            if x <= 0.0 then d == 0 else if x >= cfg.maxDelay as real then d == cfg.maxDelay else d as real <= x < d as real + 1.0
  {
    var c, f := Capped(attempt, cfg), cfg.jitterFactor;
    assert c * (1.0 + f * jitter) == c + c * (f * jitter) && c * (f * jitter) == c * f * jitter;
  }

  predicate IsRetryable(e: Error, cfg: Config) {
    !e.contextDone && e.message !in cfg.notRetried
  }

  datatype Outcome = Succeeded | Failed(error: Error) | BadStatus(status: int) | ContextDone

  /** The sum of the backoff delays after the first `n` calls. */
  function TotalDelay(n: nat, cfg: Config, jitter: nat -> real): int {
    if n == 0 then 0 else TotalDelay(n - 1, cfg, jitter) + DelayOf(n - 1, cfg, jitter(n - 1))
  }

  lemma {:induction false} TotalDelayBound(n: nat, cfg: Config, jitter: nat -> real)
    requires cfg.maxDelay >= 0
    ensures 0 <= TotalDelay(n, cfg, jitter) <= n * cfg.maxDelay
  {
    if n > 0 {
      TotalDelayBound(n - 1, cfg, jitter);
      DelayInRange(n - 1, cfg, jitter(n - 1));
      assert n * cfg.maxDelay == (n - 1) * cfg.maxDelay + cfg.maxDelay;
    }
  }

  /** `Do`. `call(i)` is what call number `i` returns, `done(i)` whether the context ends during the wait after it. `calls` and
      `waited` count the calls made and the time of the waits completed. */
  method Do(cfg: Config, call: nat -> Option<Error>, jitter: nat -> real, done: nat -> bool)
    returns (r: Outcome, ghost calls: nat, ghost waited: int)
    ensures calls <= if cfg.maxAttempts > 0 then cfg.maxAttempts else 0
    ensures cfg.maxAttempts >= 1 ==> calls >= 1 && (r == Succeeded <==> call(calls - 1) == None)
    ensures cfg.maxAttempts < 1 ==> r == Succeeded && calls == 0
    ensures forall i: nat :: i + 1 < calls ==> call(i).Some? && IsRetryable(call(i).value, cfg) && !done(i)
    ensures r.Failed? ==> calls >= 1 && call(calls - 1) == Some(r.error) && (calls == cfg.maxAttempts || !IsRetryable(r.error, cfg))
    ensures r.ContextDone? ==> calls >= 1 && done(calls - 1) && calls < cfg.maxAttempts
    ensures !r.BadStatus?
    ensures calls >= 1 ==> waited == TotalDelay(calls - 1, cfg, jitter)
    ensures cfg.maxDelay >= 0 && cfg.maxAttempts >= 1 ==> 0 <= waited <= (cfg.maxAttempts - 1) * cfg.maxDelay
  {
    calls, waited := 0, 0;
    var lastErr: Option<Error> := None;
    var attempt: nat := 0;
    while attempt < cfg.maxAttempts
      invariant calls == attempt && waited == TotalDelay(calls, cfg, jitter)
      invariant attempt == 0 || attempt < cfg.maxAttempts
      invariant forall i: nat :: i < calls ==> call(i).Some? && IsRetryable(call(i).value, cfg) && !done(i)
    {
      var err := call(attempt);
      calls := calls + 1;
      if cfg.maxDelay >= 0 {
        TotalDelayBound(calls - 1, cfg, jitter);
        FewerWaits(calls - 1, cfg.maxAttempts - 1, cfg.maxDelay);
      }
      if err.None? { return Succeeded, calls, waited; }
      lastErr := err;
      if !IsRetryable(err.value, cfg) { return Failed(err.value), calls, waited; }
      if attempt == cfg.maxAttempts - 1 { return Failed(err.value), calls, waited; }
      var delay := CalculateDelay(attempt, cfg, jitter(attempt));
      if done(attempt) { return ContextDone, calls, waited; }
      waited := waited + delay;
      attempt := attempt + 1;
    }
    r := Succeeded;
  }

  lemma FewerWaits(n: int, m: int, max: int)
    requires n <= m && max >= 0
    ensures n * max <= m * max
  {
    assert (m - n) * max >= 0;
  }

  /** What one request gives: an error, or a response with its status, if there is a response, and the wait it asks for. */
  datatype Response = Response(error: Option<Error>, status: Option<int>, retryAfter: int)

  /** What `DoWithRetryAfter` would return if it stopped here. */
  function Verdict(r: Response): Outcome {
    if r.error.Some? then Failed(r.error.value)
    else if r.status.Some? && r.status.value >= 400 then BadStatus(r.status.value)
    else Succeeded
  }

  predicate TriedAgain(r: Response, cfg: Config) {
    match Verdict(r) {
      case BadStatus(status) => status in cfg.retryableStatus
      case Failed(e) => IsRetryable(e, cfg)
      case _ => false
    }
  }

  /** What counts as success, and which failures are tried again. */
  lemma TriedAgainIs(r: Response, cfg: Config)
    ensures r.error.Some? ==>
              && Verdict(r) == Failed(r.error.value)
              && (TriedAgain(r, cfg) <==> !r.error.value.contextDone && r.error.value.message !in cfg.notRetried)
    ensures r.error.None? && r.status.Some? && r.status.value >= 400 ==>
              && Verdict(r) == BadStatus(r.status.value)
              && (TriedAgain(r, cfg) <==> r.status.value in cfg.retryableStatus)
    ensures r.error.None? && (r.status.None? || r.status.value < 400) ==> Verdict(r) == Succeeded && !TriedAgain(r, cfg)
  {
  }

  predicate Asks(r: Response) {
    Verdict(r).BadStatus? && r.retryAfter > 0
  }

  /** How long is waited after call number `i`: as long as the server asks, or else the backoff delay. */
  function WaitAfter(i: nat, r: Response, cfg: Config, jitter: real): int {
    if Asks(r) then r.retryAfter else DelayOf(i, cfg, jitter)
  }

  /** A response with a bad status can ask for a wait; else the backoff decides. */
  lemma WaitIs(i: nat, r: Response, cfg: Config, jitter: real)
    ensures WaitAfter(i, r, cfg, jitter) ==
            if r.error.None? && r.status.Some? && r.status.value >= 400 && r.retryAfter > 0 then r.retryAfter else DelayOf(i, cfg, jitter)
  {
  }

  /** `DoWithRetryAfter`. `waits` are the waits completed, one after each call that is tried again. Unlike `Do` it also
      waits, when the server asks, after its last attempt. */
  method DoWithRetryAfter(cfg: Config, call: nat -> Response, jitter: nat -> real, done: nat -> bool)
    returns (r: Outcome, ghost calls: nat, ghost waits: seq<int>)
    ensures calls <= if cfg.maxAttempts > 0 then cfg.maxAttempts else 0
    ensures cfg.maxAttempts < 1 ==> r == Succeeded && calls == 0
    ensures cfg.maxAttempts >= 1 ==> calls >= 1 && (r == ContextDone || r == Verdict(call(calls - 1)))
    ensures forall i: nat :: i + 1 < calls ==> TriedAgain(call(i), cfg) && !done(i)
    ensures r.Failed? || r.BadStatus? ==> calls == cfg.maxAttempts || !TriedAgain(call(calls - 1), cfg)
    ensures r.ContextDone? ==> calls >= 1 && done(calls - 1) && (calls < cfg.maxAttempts || Asks(call(calls - 1)))
    ensures forall i :: 0 <= i < |waits| ==> i < calls && waits[i] == WaitAfter(i, call(i), cfg, jitter(i))
    ensures |waits| == calls || |waits| == calls - 1
    ensures calls >= 1 ==>
              (|waits| == calls <==> !r.ContextDone? && Asks(call(calls - 1)) && TriedAgain(call(calls - 1), cfg))
  {
    calls, waits := 0, [];
    var lastErr: Option<Outcome> := None;
    var attempt: nat := 0;
    while attempt < cfg.maxAttempts
      invariant calls == attempt == |waits| && (attempt == 0 || attempt <= cfg.maxAttempts)
      invariant forall i :: 0 <= i < |waits| ==> waits[i] == WaitAfter(i, call(i), cfg, jitter(i))
      invariant forall i: nat :: i < calls ==> TriedAgain(call(i), cfg) && !done(i)
      invariant attempt == 0 ==> lastErr == None
      invariant attempt > 0 ==> lastErr == Some(Verdict(call(attempt - 1)))
      invariant attempt == cfg.maxAttempts && attempt > 0 ==> Asks(call(attempt - 1))
    {
      var resp := call(attempt);
      calls := calls + 1;
      if resp.error.None? {
        if resp.status.Some? && resp.status.value >= 400 {
          lastErr := Some(BadStatus(resp.status.value));
          if resp.status.value !in cfg.retryableStatus { return lastErr.value, calls, waits; }
          if resp.retryAfter > 0 {
            if done(attempt) { return ContextDone, calls, waits; }
            waits := waits + [resp.retryAfter];
            attempt := attempt + 1;
            continue;
          }
        } else {
          return Succeeded, calls, waits;
        }
      } else {
        lastErr := Some(Failed(resp.error.value));
        if !IsRetryable(resp.error.value, cfg) { return lastErr.value, calls, waits; }
      }
      if attempt == cfg.maxAttempts - 1 { return lastErr.value, calls, waits; }
      var delay := CalculateDelay(attempt, cfg, jitter(attempt));
      if done(attempt) { return ContextDone, calls, waits; }
      waits := waits + [delay];
      attempt := attempt + 1;
    }
    r := if lastErr.Some? then lastErr.value else Succeeded;
  }
}
