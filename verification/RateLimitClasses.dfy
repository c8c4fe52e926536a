/** The strategy objects.  Each holds its buckets as objects and updates them in place; `Value` is the
  * strategy they stand for, and every method is proved to compute the function of Strategies.dfy. */
module RateLimitClasses {
  import opened Wrappers
  import opened TokenBuckets
  import opened Strategies

  class UnifiedTokenRateLimitStrategy {
    const rpm: int
    const tpm: int
    const requestsBucket: RateLimitBucket
    const unifiedTokensBucket: RateLimitBucket

    predicate Valid() { requestsBucket != unifiedTokensBucket && unifiedTokensBucket.maxCapacity == tpm }

    function Value(): Strategy
      reads requestsBucket, unifiedTokensBucket
    {
      Unified(rpm, requestsBucket.Value(), tpm, unifiedTokensBucket.Value())
    }

    constructor Init(rpm: int, tpm: int, now: real)
      requires rpm > 0
      ensures Valid() && Some(Value()) == NewUnified(rpm, tpm, now)
      ensures fresh(requestsBucket) && fresh(unifiedTokensBucket)
    {
      this.rpm := rpm;
      this.tpm := tpm;
      requestsBucket := new RateLimitBucket(rpm, now);
      unifiedTokensBucket := new RateLimitBucket(tpm, now);
    }

    method Backoff(currTime: real)
      requires Valid()
      modifies requestsBucket, unifiedTokensBucket
      ensures Value() == Strategies.Backoff(old(Value()), currTime)
    {
      unifiedTokensBucket.SetCapacity(0, currTime);
      requestsBucket.SetCapacity(0, currTime);
    }

    method CheckAndConsumeRateLimit(tokenEstimate: TokenEstimate, now: real) returns (verdict: Verdict)
      requires Valid()
      modifies requestsBucket, unifiedTokensBucket
      ensures (Value(), verdict) == Check(old(Value()), tokenEstimate, now)
    {
      if tpm < tokenEstimate.TotalTokens() {
        return Rejected;
      }
      var availableTokens := unifiedTokensBucket.GetAvailableCapacity(now);
      var availableRequests := requestsBucket.GetAvailableCapacity(now);
      var hasRequestCapacity := availableRequests >= 1;
      var hasTokenCapacity := availableTokens >= tokenEstimate.TotalTokens();
      if hasRequestCapacity && hasTokenCapacity {
        availableTokens := availableTokens - tokenEstimate.TotalTokens();
        availableRequests := availableRequests - 1;
        unifiedTokensBucket.SetCapacity(availableTokens, now);
        requestsBucket.SetCapacity(availableRequests, now);
        return Admitted;
      }
      return Refused;
    }

    method Settle(reserved: TokenEstimate, actual: TokenEstimate, now: real)
      requires Valid()
      modifies unifiedTokensBucket
      ensures Value() == Strategies.Settle(old(Value()), reserved, actual, now)
    {
      var delta := reserved.TotalTokens() - actual.TotalTokens();
      var available := unifiedTokensBucket.GetAvailableCapacity(now);
      unifiedTokensBucket.SetCapacity(Min(tpm, Max(0, available + delta)), now);
    }
  }

  class SeparatedTokenRateLimitStrategy {
    const rpm: int
    const inputTpm: int
    const outputTpm: int
    const requestsBucket: RateLimitBucket
    const inputTokensBucket: RateLimitBucket
    const outputTokensBucket: RateLimitBucket

    predicate Valid() {
      && requestsBucket != inputTokensBucket
      && requestsBucket != outputTokensBucket
      && inputTokensBucket != outputTokensBucket
      && inputTokensBucket.maxCapacity == inputTpm
      && outputTokensBucket.maxCapacity == outputTpm
    }

    function Value(): Strategy
      reads requestsBucket, inputTokensBucket, outputTokensBucket
    {
      Separated(rpm, requestsBucket.Value(), inputTpm, inputTokensBucket.Value(),
                outputTpm, outputTokensBucket.Value())
    }

    constructor Init(rpm: int, inputTpm: int, outputTpm: int, now: real)
      requires rpm > 0
      ensures Valid() && Some(Value()) == NewSeparated(rpm, inputTpm, outputTpm, now)
      ensures fresh(requestsBucket) && fresh(inputTokensBucket) && fresh(outputTokensBucket)
    {
      this.rpm := rpm;
      this.inputTpm := inputTpm;
      this.outputTpm := outputTpm;
      requestsBucket := new RateLimitBucket(rpm, now);
      inputTokensBucket := new RateLimitBucket(inputTpm, now);
      outputTokensBucket := new RateLimitBucket(outputTpm, now);
    }

    method Backoff(currTime: real)
      requires Valid()
      modifies requestsBucket, inputTokensBucket, outputTokensBucket
      ensures Value() == Strategies.Backoff(old(Value()), currTime)
    {
      inputTokensBucket.SetCapacity(0, currTime);
      outputTokensBucket.SetCapacity(0, currTime);
      requestsBucket.SetCapacity(0, currTime);
    }

    method CheckAndConsumeRateLimit(tokenEstimate: TokenEstimate, now: real) returns (verdict: Verdict)
      requires Valid()
      modifies requestsBucket, inputTokensBucket, outputTokensBucket
      ensures (Value(), verdict) == Check(old(Value()), tokenEstimate, now)
    {
      if inputTpm < tokenEstimate.inputTokens {
        return Rejected;
      }
      if outputTpm < tokenEstimate.outputTokens {
        return Rejected;
      }
      var availableInputTokens := inputTokensBucket.GetAvailableCapacity(now);
      var availableRequests := requestsBucket.GetAvailableCapacity(now);
      var availableOutputTokens := outputTokensBucket.GetAvailableCapacity(now);
      var hasOutputTokenCapacity := availableOutputTokens >= tokenEstimate.outputTokens;
      var hasRequestCapacity := availableRequests >= 1;
      var hasTokenCapacity := availableInputTokens >= tokenEstimate.inputTokens;
      if hasRequestCapacity && hasTokenCapacity && hasOutputTokenCapacity {
        inputTokensBucket.SetCapacity(availableInputTokens - tokenEstimate.inputTokens, now);
        outputTokensBucket.SetCapacity(availableOutputTokens - tokenEstimate.outputTokens, now);
        requestsBucket.SetCapacity(availableRequests - 1, now);
        return Admitted;
      }
      return Refused;
    }

    method Settle(reserved: TokenEstimate, actual: TokenEstimate, now: real)
      requires Valid()
      modifies inputTokensBucket, outputTokensBucket
      ensures Value() == Strategies.Settle(old(Value()), reserved, actual, now)
    {
      var inDelta := reserved.inputTokens - actual.inputTokens;
      var outDelta := reserved.outputTokens - actual.outputTokens;
      var inAvail := inputTokensBucket.GetAvailableCapacity(now);
      var outAvail := outputTokensBucket.GetAvailableCapacity(now);
      inputTokensBucket.SetCapacity(Min(inputTpm, Max(0, inAvail + inDelta)), now);
      outputTokensBucket.SetCapacity(Min(outputTpm, Max(0, outAvail + outDelta)), now);
    }
  }

  class AdaptiveBackoffRateLimitStrategy {
    var rpm: int
    var requestsBucket: RateLimitBucket
    const growth: Growth
    var consecutiveSuccesses: nat
    var rpmHint: Option<int>
    var cooldownUntil: real
    var onCooldown: bool

    function Value(): Strategy
      reads this, requestsBucket
    {
      Adaptive(rpm, requestsBucket.Value(), growth, consecutiveSuccesses, rpmHint, cooldownUntil, onCooldown)
    }

    constructor Init(rpm: int, minRpm: int, multiplier: real, maxRpm: Option<int>,
                     increment: int, increaseAfter: int, now: real)
      requires rpm > 0 && 0.0 < multiplier < 1.0
      ensures Some(Value()) == NewAdaptive(rpm, minRpm, multiplier, maxRpm, increment, increaseAfter, now)
      ensures fresh(requestsBucket)
    {
      this.rpm := rpm;
      requestsBucket := new RateLimitBucket(rpm, now);
      growth := NewGrowth(rpm, minRpm, multiplier, maxRpm, increment, increaseAfter);
      consecutiveSuccesses := 0;
      rpmHint := None;
      cooldownUntil := 0.0;
      onCooldown := false;
    }

    method RegisterRateLimitHint(hint: Option<int>, retryAt: Option<real>, now: real)
      modifies this
      ensures Value() == RegisterHint(old(Value()), hint, retryAt, now)
      ensures requestsBucket == old(requestsBucket) || fresh(requestsBucket)
    {
      if hint.Some? && hint.value > 0 {
        rpmHint := hint;
        rpm := Min(rpm, hint.value);
        requestsBucket := new RateLimitBucket(rpm, now);
      }
      if retryAt.Some? && retryAt.value > 0.0 {
        cooldownUntil := retryAt.value;
        if !onCooldown {
          onCooldown := true;
        }
      }
    }

    /** `rpmHint` is only ever a positive limit, so the test of its truth value is a test for its presence. */
    method Backoff(currTime: real)
      modifies this, requestsBucket
      ensures Value() == Strategies.Backoff(old(Value()), currTime)
      ensures requestsBucket == old(requestsBucket) || fresh(requestsBucket)
    {
      var newRpm := if rpmHint.Some? then rpmHint.value
                    else Max(growth.minRpm, (rpm as real * growth.multiplier).Floor);
      if newRpm != rpm {
        rpm := newRpm;
        requestsBucket := new RateLimitBucket(rpm, currTime);
      }
      requestsBucket.SetCapacity(0, currTime);
      consecutiveSuccesses := 0;
    }

    method CheckAndConsumeRateLimit(tokenEstimate: TokenEstimate, now: real) returns (verdict: Verdict)
      modifies this, requestsBucket
      ensures (Value(), verdict) == Check(old(Value()), tokenEstimate, now)
      ensures requestsBucket == old(requestsBucket) || fresh(requestsBucket)
    {
      if now < cooldownUntil {
        return Refused;
      }
      var availableRequests := requestsBucket.GetAvailableCapacity(now);
      if availableRequests >= 1 {
        onCooldown := false;
        requestsBucket.SetCapacity(availableRequests - 1, now);
        RecordSuccessAndMaybeGrow(now);
        return Admitted;
      }
      return Refused;
    }

    method RecordSuccessAndMaybeGrow(now: real)
      modifies this
      ensures Value() == RecordSuccess(old(Value()), now)
      ensures requestsBucket == old(requestsBucket) || fresh(requestsBucket)
    {
      if rpmHint.Some? || onCooldown {
        consecutiveSuccesses := 0;
        return;
      }
      consecutiveSuccesses := consecutiveSuccesses + 1;
      if consecutiveSuccesses >= growth.increaseAfter && rpm < growth.maxRpm {
        var newRpm := Min(growth.maxRpm, rpm + growth.increment);
        if newRpm != rpm {
          var available := requestsBucket.GetAvailableCapacity(now);
          rpm := newRpm;
          var newBucket := new RateLimitBucket(rpm, now);
          newBucket.SetCapacity(Min(available, rpm), now);
          requestsBucket := newBucket;
        }
        consecutiveSuccesses := 0;
      }
    }
  }

  /** A client's strategy: an object of one of the three classes. */
  datatype Limiter =
    | UnifiedLimiter(unified: UnifiedTokenRateLimitStrategy)
    | SeparatedLimiter(separated: SeparatedTokenRateLimitStrategy)
    | AdaptiveLimiter(adaptive: AdaptiveBackoffRateLimitStrategy)

  predicate ValidLimiter(l: Limiter) {
    match l
    case UnifiedLimiter(u) => u.Valid()
    case SeparatedLimiter(s) => s.Valid()
    case AdaptiveLimiter(_) => true
  }

  /** The objects a strategy updates. */
  ghost function Repr(l: Limiter): set<object>
    reads if l.AdaptiveLimiter? then {l.adaptive} else {}
  {
    match l
    case UnifiedLimiter(u) => {u.requestsBucket, u.unifiedTokensBucket}
    case SeparatedLimiter(s) => {s.requestsBucket, s.inputTokensBucket, s.outputTokensBucket}
    case AdaptiveLimiter(a) => {a, a.requestsBucket}
  }

  ghost function LimiterValue(l: Limiter): Strategy
    reads Repr(l), if l.AdaptiveLimiter? then {l.adaptive} else {}
  {
    match l
    case UnifiedLimiter(u) => u.Value()
    case SeparatedLimiter(s) => s.Value()
    case AdaptiveLimiter(a) => a.Value()
  }

  method CheckAndConsumeRateLimit(l: Limiter, tokenEstimate: TokenEstimate, now: real) returns (verdict: Verdict)
    requires ValidLimiter(l)
    modifies Repr(l)
    ensures (LimiterValue(l), verdict) == Check(old(LimiterValue(l)), tokenEstimate, now)
    ensures fresh(Repr(l) - old(Repr(l)))
  {
    match l
    case UnifiedLimiter(u) => verdict := u.CheckAndConsumeRateLimit(tokenEstimate, now);
    case SeparatedLimiter(s) => verdict := s.CheckAndConsumeRateLimit(tokenEstimate, now);
    case AdaptiveLimiter(a) => verdict := a.CheckAndConsumeRateLimit(tokenEstimate, now);
  }

  /** The base class settles nothing, and the adaptive strategy inherits that. */
  method SettleLimiter(l: Limiter, reserved: TokenEstimate, actual: TokenEstimate, now: real)
    requires ValidLimiter(l)
    modifies Repr(l)
    ensures LimiterValue(l) == Strategies.Settle(old(LimiterValue(l)), reserved, actual, now) && Repr(l) == old(Repr(l))
  {
    match l
    case UnifiedLimiter(u) => u.Settle(reserved, actual, now);
    case SeparatedLimiter(s) => s.Settle(reserved, actual, now);
    case AdaptiveLimiter(_) =>
  }

  method BackoffLimiter(l: Limiter, currTime: real)
    requires ValidLimiter(l)
    modifies Repr(l)
    ensures LimiterValue(l) == Strategies.Backoff(old(LimiterValue(l)), currTime)
    ensures fresh(Repr(l) - old(Repr(l)))
  {
    match l
    case UnifiedLimiter(u) => u.Backoff(currTime);
    case SeparatedLimiter(s) => s.Backoff(currTime);
    case AdaptiveLimiter(a) => a.Backoff(currTime);
  }
}
