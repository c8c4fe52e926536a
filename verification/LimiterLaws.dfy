/** What the rate-limit strategies promise their callers, told from the calls that were made: which checks are
  * admitted, what an admission takes, how the adaptive rate moves, and when a provider's retry time counts. */
module LimiterLaws {
  import opened Wrappers
  import opened TokenBuckets
  import opened Strategies

  // ---------------------------------------------------------------- which checks are admitted

  /** The bucket holds `n` whole tokens: no more than its maximum, and no more than what it held and has
    * earned since. */
  predicate Holds(b: Bucket, n: int, now: real) {
    n <= b.maxCapacity && n as real <= b.current as real + Earned(b.maxCapacity, now - b.lastUpdate)
  }

  lemma AvailableIsWhole(b: Bucket, n: int, now: real)
    ensures Available(b, now) >= n <==> Holds(b, n, now)
  {
    var earned := Earned(b.maxCapacity, now - b.lastUpdate);
    assert earned.Floor as real <= earned < earned.Floor as real + 1.0;
  }

  /** The shared bucket: a check raises exactly for an estimate above the limit, and otherwise admits exactly
    * when there is a request and all its tokens. */
  lemma UnifiedAdmitsExactlyWhen(s: Strategy, estimate: TokenEstimate, now: real)
    requires s.Unified?
    ensures var verdict, total := Check(s, estimate, now).1, estimate.inputTokens + estimate.outputTokens;
            && (verdict == Rejected <==> s.tpm < total)
            && (verdict == Admitted <==> total <= s.tpm && Holds(s.requests, 1, now) && Holds(s.tokens, total, now))
  {
    AvailableIsWhole(s.requests, 1, now);
    AvailableIsWhole(s.tokens, estimate.TotalTokens(), now);
  }

  lemma SeparatedAdmitsExactlyWhen(s: Strategy, estimate: TokenEstimate, now: real)
    requires s.Separated?
    ensures var verdict := Check(s, estimate, now).1;
            && (verdict == Rejected <==> s.inputTpm < estimate.inputTokens || s.outputTpm < estimate.outputTokens)
            && (verdict == Admitted <==>
                  && estimate.inputTokens <= s.inputTpm && estimate.outputTokens <= s.outputTpm
                  && Holds(s.requests, 1, now)
                  && Holds(s.input, estimate.inputTokens, now) && Holds(s.output, estimate.outputTokens, now))
  {
    AvailableIsWhole(s.requests, 1, now);
    AvailableIsWhole(s.input, estimate.inputTokens, now);
    AvailableIsWhole(s.output, estimate.outputTokens, now);
  }

  predicate GivesRetryTime(c: Call) { c.HintCall? && c.retryAt.Some? && c.retryAt.value > 0.0 }

  predicate GivesLimit(c: Call) { c.HintCall? && c.rpmHint.Some? && c.rpmHint.value > 0 }

  /** The retry time of the last hint that gave one. */
  function LastRetryTime(calls: seq<Call>): Option<real> {
    if calls == [] then None
    else
      var last := calls[|calls| - 1];
      if GivesRetryTime(last) then last.retryAt else LastRetryTime(calls[..|calls| - 1])
  }

  /** The limit of the last hint that gave one. */
  function LastLimit(calls: seq<Call>): Option<int> {
    if calls == [] then None
    else
      var last := calls[|calls| - 1];
      if GivesLimit(last) then last.rpmHint else LastLimit(calls[..|calls| - 1])
  }

  /** A call moves the cooldown and the hint only by being a hint that gives them. */
  lemma StepHints(s: Strategy, c: Call)
    requires s.Adaptive?
    ensures Step(s, c).Adaptive? && Step(s, c).growth == s.growth
    ensures Step(s, c).cooldownUntil == if GivesRetryTime(c) then c.retryAt.value else s.cooldownUntil
    ensures Step(s, c).rpmHint == if GivesLimit(c) then c.rpmHint else s.rpmHint
  {
  }

  lemma {:induction false} HintsAreKept(s: Strategy, calls: seq<Call>)
    requires s.Adaptive?
    ensures var s' := After(s, calls);
            && s'.Adaptive? && s'.growth == s.growth
            && s'.cooldownUntil == (var t := LastRetryTime(calls); if t.Some? then t.value else s.cooldownUntil)
            && s'.rpmHint == (var limit := LastLimit(calls); if limit.Some? then limit else s.rpmHint)
  {
    if calls != [] {
      HintsAreKept(s, calls[..|calls| - 1]);
      StepHints(After(s, calls[..|calls| - 1]), calls[|calls| - 1]);
    }
  }

  /** The adaptive strategy, after any calls: a check is admitted exactly when the last retry time a provider
    * gave has come and there is a request left. */
  lemma AdaptiveAdmitsExactlyWhen(s: Strategy, calls: seq<Call>, estimate: TokenEstimate, now: real)
    requires s.Adaptive?
    ensures var s' := After(s, calls);
            && Check(s', estimate, now).1 != Rejected
            && (Check(s', estimate, now).1 == Admitted <==>
                  && (var t := LastRetryTime(calls); if t.Some? then t.value <= now else s.cooldownUntil <= now)
                  && Holds(s'.requests, 1, now))
  {
    HintsAreKept(s, calls);
    AvailableIsWhole(After(s, calls).requests, 1, now);
  }

  /** No check before the retry time is admitted, whatever came between. */
  lemma NoAdmissionDuringCooldown(s: Strategy, calls: seq<Call>, k: nat)
    requires s.Adaptive? && k < |calls| && calls[k].CheckCall?
    requires var t := LastRetryTime(calls[..k]); t.Some? && calls[k].at < t.value
    ensures !Admits(After(s, calls[..k]), calls[k])
  {
    AdaptiveAdmitsExactlyWhen(s, calls[..k], calls[k].estimate, calls[k].at);
  }

  // ---------------------------------------------------------------- what an admission takes

  /** The part of a run that the bucket of requests sees: one for each admission, and the backoffs. */
  function RequestEvent(s: Strategy, c: Call): seq<Event> {
    match c
    case CheckCall(_, now) => if Admits(s, c) then [Consume(1, now)] else []
    case BackoffCall(now) => [Drain(now)]
    case _ => []
  }

  function RequestTrace(s: Strategy, calls: seq<Call>): seq<Event> {
    if calls == [] then []
    else
      var front := calls[..|calls| - 1];
      RequestTrace(s, front) + RequestEvent(After(s, front), calls[|calls| - 1])
  }

  lemma RequestEventIsTheChange(s: Strategy, c: Call)
    requires !s.Adaptive? && Callable(s, c)
    ensures !Step(s, c).Adaptive? && |RequestEvent(s, c)| <= 1
    ensures var events := RequestEvent(s, c);
            if events == [] then Step(s, c).requests == s.requests
            else Allowed(s.requests, events[0]) && Step(s, c).requests == Apply(s.requests, events[0])
  {
  }

  /** With a fixed rate the bucket of requests gives one request to each admitted check and nothing else. */
  lemma {:induction false} RequestTraceIsARun(s: Strategy, calls: seq<Call>)
    requires !s.Adaptive? && CallableRun(s, calls)
    ensures !After(s, calls).Adaptive?
    ensures AllowedRun(s.requests, RequestTrace(s, calls))
    ensures After(s, calls).requests == Run(s.requests, RequestTrace(s, calls))
  {
    if calls != [] {
      var front, last := calls[..|calls| - 1], calls[|calls| - 1];
      RequestTraceIsARun(s, front);
      RequestEventIsTheChange(After(s, front), last);
      TraceExtends(s.requests, RequestTrace(s, front), RequestEvent(After(s, front), last));
    }
  }

  /** Requests let through and requests consumed are the same number. */
  lemma {:induction false} ConsumedIsAdmitted(s: Strategy, calls: seq<Call>)
    ensures Consumed(RequestTrace(s, calls)) == Admissions(s, calls)
    ensures Released(RequestTrace(s, calls)) == Used(RequestTrace(s, calls)) == 0
  {
    if calls != [] {
      var front, last := calls[..|calls| - 1], calls[|calls| - 1];
      ConsumedIsAdmitted(s, front);
      RequestEventAmounts(After(s, front), last);
      SumsExtend(RequestTrace(s, front), RequestEvent(After(s, front), last));
    }
  }

  lemma RequestEventAmounts(s: Strategy, c: Call)
    ensures var events := RequestEvent(s, c);
            && |events| <= 1 && Consumed(events) == (if Admits(s, c) then 1 else 0)
            && Released(events) == 0 && Used(events) == 0
  {
    assert RequestEvent(s, c)[..0] == [];
  }

  // ---------------------------------------------------------------- the adaptive rate

  /** A run without hints and backoffs. */
  ghost predicate Undisturbed(calls: seq<Call>) {
    forall k :: 0 <= k < |calls| ==> !calls[k].HintCall? && !calls[k].BackoffCall?
  }

  /** Where additive growth stands after `admitted` requests: below the ceiling there was one increment for
    * each full streak, and the rest is counted towards the next. */
  predicate GrownTo(s: Strategy, admitted: nat, s': Strategy)
    requires s.Adaptive? && s'.Adaptive? && s.growth.increaseAfter >= 1
  {
    var g := s.growth;
    if g.maxRpm <= s.rpm then s'.rpm == s.rpm
    else if s.rpm + g.increment * (admitted / g.increaseAfter) < g.maxRpm then
      s'.rpm == s.rpm + g.increment * (admitted / g.increaseAfter) && s'.successes == admitted % g.increaseAfter
    else s'.rpm == g.maxRpm
  }

  lemma AdmissionGrows(s: Strategy, admitted: nat, before: Strategy, c: Call)
    requires s.Adaptive? && ValidGrowth(s.growth)
    requires before.Adaptive? && before.growth == s.growth && before.rpmHint.None? && GrownTo(s, admitted, before)
    requires Admits(before, c)
    ensures Step(before, c).Adaptive? && GrownTo(s, admitted + 1, Step(before, c))
  {
    NextStreak(admitted, s.growth.increaseAfter);
    GrowthIsMonotone(s.growth.increment, admitted / s.growth.increaseAfter,
                     (admitted + 1) / s.growth.increaseAfter);
  }

  lemma NextStreak(n: nat, k: int)
    requires k >= 1
    ensures n % k + 1 == k ==> (n + 1) / k == n / k + 1 && (n + 1) % k == 0
    ensures n % k + 1 < k ==> (n + 1) / k == n / k && (n + 1) % k == n % k + 1
    ensures n % k + 1 <= k && n / k <= (n + 1) / k
  {
    var q, r := n / k, n % k;
    assert n == q * k + r;
    if r + 1 == k {
      assert n + 1 == (q + 1) * k;
      DivisionIs(n + 1, k, q + 1, 0);
    } else {
      DivisionIs(n + 1, k, q, r + 1);
    }
  }

  lemma DivisionIs(n: int, k: int, q: int, r: int)
    requires k >= 1 && n == q * k + r && 0 <= r < k
    ensures n / k == q && n % k == r
  {
    QuotientIs(k, q, r, n / k, n % k);
  }

  lemma QuotientIs(k: int, q: int, r: int, q': int, r': int)
    requires q * k + r == q' * k + r' && 0 <= r < k && 0 <= r' < k
    ensures q == q' && r == r'
  {
    if q > q' {
      AtLeastOnce(q - q', k);
    } else if q < q' {
      AtLeastOnce(q' - q, k);
    }
  }

  lemma AtLeastOnce(times: int, k: int)
    requires times >= 1 && k >= 1
    ensures times * k >= k
  {
  }

  lemma GrowthIsMonotone(increment: int, m: int, n: int)
    requires increment >= 1 && m <= n
    ensures increment * m <= increment * n && increment * (m + 1) == increment * m + increment
  {
  }

  /** Additive growth in closed form: with no hint and no backoff, after any number of admitted requests the
    * rate is the one at the start plus one increment for each full streak of them, up to the ceiling; a rate
    * at or above the ceiling stays. */
  lemma {:induction false} GrowthIsAdditive(s: Strategy, calls: seq<Call>)
    requires s.Adaptive? && ValidGrowth(s.growth)
    requires s.rpmHint.None? && s.successes == 0 && Undisturbed(calls)
    ensures After(s, calls).Adaptive? && GrownTo(s, Admissions(s, calls), After(s, calls))
    ensures var rpm := s.rpm + s.growth.increment * (Admissions(s, calls) / s.growth.increaseAfter);
            After(s, calls).rpm == if s.growth.maxRpm <= s.rpm then s.rpm
                                   else if rpm < s.growth.maxRpm then rpm else s.growth.maxRpm
  {
    HintsAreKept(s, calls);
    if calls == [] {
      DivisionIs(0, s.growth.increaseAfter, 0, 0);
    } else {
      var front, last := calls[..|calls| - 1], calls[|calls| - 1];
      GrowthIsAdditive(s, front);
      NoLimitGiven(calls);
      HintsAreKept(s, front);
      if Admits(After(s, front), last) {
        AdmissionGrows(s, Admissions(s, front), After(s, front), last);
      } else {
        OtherCallsKeepRate(After(s, front), last);
      }
    }
  }

  lemma {:induction false} NoLimitGiven(calls: seq<Call>)
    requires Undisturbed(calls)
    ensures LastLimit(calls) == None && (calls != [] ==> LastLimit(calls[..|calls| - 1]) == None)
  {
    if calls != [] {
      NoLimitGiven(calls[..|calls| - 1]);
    }
  }

  lemma OtherCallsKeepRate(s: Strategy, c: Call)
    requires s.Adaptive? && !c.HintCall? && !c.BackoffCall? && !Admits(s, c)
    ensures Step(s, c) == s
  {
  }

  /** Once a provider gave a limit, admissions no longer raise the rate. */
  lemma HintStopsGrowth(s: Strategy, c: Call)
    requires s.Adaptive? && s.rpmHint.Some? && c.CheckCall?
    ensures Step(s, c).rpm == s.rpm
  {
  }

  /** An admission of the adaptive strategy takes one request, also when it raises the rate, and ends the
    * cooldown; the raised rate is the new maximum of the bucket. */
  lemma AdaptiveAdmissionTakesOne(s: Strategy, c: Call)
    requires s.Adaptive? && Admits(s, c) && 1 <= s.rpm == s.requests.maxCapacity && ValidGrowth(s.growth)
    ensures var s' := Step(s, c);
            && s'.Adaptive? && !s'.onCooldown && s'.requests.maxCapacity == s'.rpm
            && s'.requests.lastUpdate == c.at && s.rpm <= s'.rpm
            && forall n :: 1 <= n <= s.rpm ==> (Holds(s'.requests, n - 1, c.at) <==> Holds(s.requests, n, c.at))
  {
    assert Earned(s.requests.maxCapacity, 0.0) == 0.0 == Earned(Step(s, c).requests.maxCapacity, 0.0);
    forall n | 1 <= n <= s.rpm
      ensures Holds(Step(s, c).requests, n - 1, c.at) <==> Holds(s.requests, n, c.at)
    {
      AvailableIsWhole(s.requests, n, c.at);
      AvailableIsWhole(Step(s, c).requests, n - 1, c.at);
    }
  }

  /** A backoff takes the provider's limit as the rate if there is one; otherwise the configured minimum or
    * the largest whole number not above the scaled rate, whichever is larger.  It starts a new streak. */
  lemma BackoffRate(s: Strategy, now: real)
    requires s.Adaptive?
    ensures var s', scaled := Backoff(s, now), s.rpm as real * s.growth.multiplier;
            && s'.Adaptive? && s'.successes == 0 && s'.rpmHint == s.rpmHint
            && (s.rpmHint.Some? ==> s'.rpm == s.rpmHint.value)
            && (s.rpmHint.None? ==>
                  && s.growth.minRpm <= s'.rpm && scaled < s'.rpm as real + 1.0
                  && (s.growth.minRpm < s'.rpm ==> s'.rpm as real <= scaled))
  {
    var scaled := s.rpm as real * s.growth.multiplier;
    assert scaled.Floor as real <= scaled < scaled.Floor as real + 1.0;
  }

  /** After a backoff no bucket holds anything, of any strategy: no request is admitted before a whole one
    * has been earned at the new rate. */
  lemma BackoffEmptiesBuckets(s: Strategy, now: real, estimate: TokenEstimate, later: real)
    requires Valid(s) && now <= later && Check(Backoff(s, now), estimate, later).1 == Admitted
    ensures 1.0 <= Earned(Backoff(s, now).rpm, later - now)
    ensures s.Unified? ==> estimate.TotalTokens() as real <= Earned(s.tpm, later - now)
    ensures s.Separated? ==> estimate.inputTokens as real <= Earned(s.inputTpm, later - now)
                             && estimate.outputTokens as real <= Earned(s.outputTpm, later - now)
  {
    var b := Backoff(s, now);
    BackoffKeepsValid(s, now);
    AvailableIsWhole(b.requests, 1, later);
    match b {
      case Unified(_, _, _, tokens) => AvailableIsWhole(tokens, estimate.TotalTokens(), later);
      case Separated(_, _, _, input, _, output) =>
        AvailableIsWhole(input, estimate.inputTokens, later);
        AvailableIsWhole(output, estimate.outputTokens, later);
      case Adaptive(_, _, _, _, _, _, _) =>
    }
  }

  /** A limit lowers the rate to itself and never raises it; the bucket is full at the rate.  Without a
    * positive limit the rate and the bucket stay, and without a positive retry time the cooldown. */
  lemma HintRate(s: Strategy, rpmHint: Option<int>, retryAt: Option<real>, now: real)
    requires Valid(s) && s.Adaptive?
    ensures var c := HintCall(rpmHint, retryAt, now);
            var s' := Step(s, c);
            && (GivesLimit(c) ==>
                  && s'.rpm <= s.rpm && s'.rpm <= rpmHint.value && (s'.rpm == s.rpm || s'.rpm == rpmHint.value)
                  && Holds(s'.requests, s'.rpm, now))
            && (!GivesLimit(c) ==> s'.rpm == s.rpm && s'.requests == s.requests)
            && (!GivesLimit(c) && !GivesRetryTime(c) ==> s' == s)
  {
    assert Earned(Min(s.rpm, if rpmHint.Some? then rpmHint.value else 0), 0.0) == 0.0;
  }

  // ---------------------------------------------------------------- fresh strategies

  /** A fresh strategy holds exactly its limits. */
  lemma FreshBuckets(rpm: int, tpm: nat, outputTpm: nat, now: real, n: int)
    requires rpm > 0
    ensures var u := NewUnified(rpm, tpm, now);
            u.Some? && u.value.Unified? && u.value.rpm == rpm && u.value.tpm == tpm
            && (Holds(u.value.requests, n, now) <==> n <= rpm) && (Holds(u.value.tokens, n, now) <==> n <= tpm)
    ensures var s := NewSeparated(rpm, tpm, outputTpm, now);
            s.Some? && s.value.Separated? && s.value.rpm == rpm
            && s.value.inputTpm == tpm && s.value.outputTpm == outputTpm
            && (Holds(s.value.requests, n, now) <==> n <= rpm)
            && (Holds(s.value.input, n, now) <==> n <= tpm) && (Holds(s.value.output, n, now) <==> n <= outputTpm)
  {
    assert Earned(rpm, 0.0) == Earned(tpm, 0.0) == Earned(outputTpm, 0.0) == 0.0;
  }

  /** A fresh adaptive strategy, from its arguments: no cooldown, and after `n` undisturbed admissions the
    * rate it was given plus its increments, at most its ceiling, which is the given rate when none is set. */
  lemma FreshAdaptive(rpm: int, minRpm: int, multiplier: real, maxRpm: Option<int>, increment: int,
                      increaseAfter: int, now: real, calls: seq<Call>)
    requires rpm > 0 && 0.0 < multiplier < 1.0 && Undisturbed(calls)
    ensures var s := NewAdaptive(rpm, minRpm, multiplier, maxRpm, increment, increaseAfter, now).value;
            var ceiling := Max(if maxRpm.Some? then maxRpm.value else rpm, Max(1, minRpm));
            var grown := rpm + Max(1, increment) * (Admissions(s, calls) / Max(1, increaseAfter));
            && s.Adaptive? && s.rpmHint.None? && s.cooldownUntil == 0.0 && s.growth.minRpm == Max(1, minRpm)
            && s.growth.multiplier == multiplier && Holds(s.requests, rpm, now) && !Holds(s.requests, rpm + 1, now)
            && After(s, calls).rpm == if ceiling <= rpm then rpm else if grown < ceiling then grown else ceiling
  {
    var s := NewAdaptive(rpm, minRpm, multiplier, maxRpm, increment, increaseAfter, now).value;
    assert Earned(rpm, 0.0) == 0.0;
    GrowthIsAdditive(s, calls);
  }
}
