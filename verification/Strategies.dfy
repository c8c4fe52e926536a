/** The rate-limit strategies as values.
  *
  * `Check`, `Settle` and `Backoff` are the three calls the model client makes; `RegisterHint` is made
  * by a provider client that was told its limit.  The classes in RateLimitClasses.dfy update
  * themselves in place and are proved to compute these functions. */
module Strategies {
  import opened Wrappers
  import opened TokenBuckets

  datatype TokenEstimate = TokenEstimate(inputTokens: nat, outputTokens: nat) {
    function TotalTokens(): nat { inputTokens + outputTokens }
  }

  /** `Rejected` stands for the ExecutionError raised for an estimate no full bucket could serve. */
  datatype Verdict = Admitted | Refused | Rejected

  datatype Strategy =
    | Unified(rpm: int, requests: Bucket, tpm: int, tokens: Bucket)
    | Separated(rpm: int, requests: Bucket, inputTpm: int, input: Bucket, outputTpm: int, output: Bucket)
    | Adaptive(rpm: int, requests: Bucket, growth: Growth, successes: nat,
               rpmHint: Option<int>, cooldownUntil: real, onCooldown: bool)

  /** The settings of the adaptive strategy that no call changes. */
  datatype Growth = Growth(minRpm: int, maxRpm: int, multiplier: real, increment: int, increaseAfter: int)

  // ---------------------------------------------------------------- construction

  function NewUnified(rpm: int, tpm: int, now: real): Option<Strategy> {
    if rpm <= 0 then None
    else Some(Unified(rpm, NewBucket(rpm, now), tpm, NewBucket(tpm, now)))
  }

  function NewSeparated(rpm: int, inputTpm: int, outputTpm: int, now: real): Option<Strategy> {
    if rpm <= 0 then None
    else Some(Separated(rpm, NewBucket(rpm, now), inputTpm, NewBucket(inputTpm, now),
                        outputTpm, NewBucket(outputTpm, now)))
  }

  function NewGrowth(rpm: int, minRpm: int, multiplier: real, maxRpm: Option<int>,
                     increment: int, increaseAfter: int): Growth {
    var floor := Max(1, minRpm);
    Growth(floor, Max(if maxRpm.None? then rpm else maxRpm.value, floor), multiplier,
           Max(1, increment), Max(1, increaseAfter))
  }

  function NewAdaptive(rpm: int, minRpm: int, multiplier: real, maxRpm: Option<int>,
                       increment: int, increaseAfter: int, now: real): Option<Strategy> {
    if rpm <= 0 || !(0.0 < multiplier < 1.0) then None
    else Some(Adaptive(rpm, NewBucket(rpm, now),
                       NewGrowth(rpm, minRpm, multiplier, maxRpm, increment, increaseAfter),
                       0, None, 0.0, false))
  }

  // ---------------------------------------------------------------- the calls

  function Check(s: Strategy, estimate: TokenEstimate, now: real): (Strategy, Verdict) {
    match s
    case Unified(_, requests, tpm, tokens) =>
      var total := estimate.TotalTokens();
      if tpm < total then (s, Rejected)
      else if Available(requests, now) >= 1 && Available(tokens, now) >= total then
        (s.(tokens := WithCapacity(tokens, Available(tokens, now) - total, now),
            requests := WithCapacity(requests, Available(requests, now) - 1, now)), Admitted)
      else (s, Refused)
    case Separated(_, requests, inputTpm, input, outputTpm, output) =>
      if inputTpm < estimate.inputTokens || outputTpm < estimate.outputTokens then (s, Rejected)
      else if Available(requests, now) >= 1
              && Available(input, now) >= estimate.inputTokens
              && Available(output, now) >= estimate.outputTokens then
        (s.(input := WithCapacity(input, Available(input, now) - estimate.inputTokens, now),
            output := WithCapacity(output, Available(output, now) - estimate.outputTokens, now),
            requests := WithCapacity(requests, Available(requests, now) - 1, now)), Admitted)
      else (s, Refused)
    case Adaptive(_, requests, _, _, _, cooldownUntil, _) =>
      if now < cooldownUntil || Available(requests, now) < 1 then (s, Refused)
      else
        var taken := s.(onCooldown := false,
                        requests := WithCapacity(requests, Available(requests, now) - 1, now));
        (RecordSuccess(taken, now), Admitted)
  }

  function RecordSuccess(s: Strategy, now: real): Strategy
    requires s.Adaptive?
  {
    if s.rpmHint.Some? || s.onCooldown then s.(successes := 0)
    else
      var successes := s.successes + 1;
      if successes >= s.growth.increaseAfter && s.rpm < s.growth.maxRpm then
        var rpm := Min(s.growth.maxRpm, s.rpm + s.growth.increment);
        if rpm != s.rpm then
          s.(successes := 0, rpm := rpm,
             requests := Bucket(rpm, Min(Available(s.requests, now), rpm), now))
        else s.(successes := 0)
      else s.(successes := successes)
  }

  function Settle(s: Strategy, reserved: TokenEstimate, actual: TokenEstimate, now: real): Strategy {
    match s
    case Unified(_, _, _, tokens) =>
      s.(tokens := Apply(tokens, TokenBuckets.Settle(reserved.TotalTokens(), actual.TotalTokens(), now)))
    case Separated(_, _, _, input, _, output) =>
      s.(input := Apply(input, TokenBuckets.Settle(reserved.inputTokens, actual.inputTokens, now)),
         output := Apply(output, TokenBuckets.Settle(reserved.outputTokens, actual.outputTokens, now)))
    case Adaptive(_, _, _, _, _, _, _) => s
  }

  function BackedOffRpm(s: Strategy): int
    requires s.Adaptive?
  {
    if s.rpmHint.Some? then s.rpmHint.value
    else Max(s.growth.minRpm, (s.rpm as real * s.growth.multiplier).Floor)
  }

  function Backoff(s: Strategy, now: real): Strategy {
    match s
    case Unified(_, requests, _, tokens) =>
      s.(tokens := WithCapacity(tokens, 0, now), requests := WithCapacity(requests, 0, now))
    case Separated(_, requests, _, input, _, output) =>
      s.(input := WithCapacity(input, 0, now), output := WithCapacity(output, 0, now),
         requests := WithCapacity(requests, 0, now))
    case Adaptive(rpm, requests, _, _, _, _, _) =>
      var newRpm := BackedOffRpm(s);
      var bucket := if newRpm != rpm then NewBucket(newRpm, now) else requests;
      s.(rpm := newRpm, requests := WithCapacity(bucket, 0, now), successes := 0)
  }

  function RegisterHint(s: Strategy, rpmHint: Option<int>, retryAt: Option<real>, now: real): Strategy
    requires s.Adaptive?
  {
    var limited :=
      if rpmHint.Some? && rpmHint.value > 0 then
        var rpm := Min(s.rpm, rpmHint.value);
        s.(rpmHint := rpmHint, rpm := rpm, requests := NewBucket(rpm, now))
      else s;
    if retryAt.Some? && retryAt.value > 0.0
    then limited.(cooldownUntil := retryAt.value, onCooldown := true)
    else limited
  }

  // ---------------------------------------------------------------- what every call keeps

  predicate ValidGrowth(g: Growth) {
    1 <= g.minRpm <= g.maxRpm && 0.0 < g.multiplier < 1.0 && 1 <= g.increment && 1 <= g.increaseAfter
  }

  /** Every bucket's maximum is its configured limit and its capacity is within it; an adaptive
    * strategy that was given a limit stays at or below it. */
  predicate Valid(s: Strategy) {
    && 1 <= s.rpm == s.requests.maxCapacity && InRange(s.requests)
    && match s
       case Unified(_, _, tpm, tokens) => tokens.maxCapacity == tpm && InRange(tokens)
       case Separated(_, _, inputTpm, input, outputTpm, output) =>
         && input.maxCapacity == inputTpm && InRange(input)
         && output.maxCapacity == outputTpm && InRange(output)
       case Adaptive(_, _, growth, _, rpmHint, _, _) =>
         && ValidGrowth(growth)
         && (rpmHint.Some? ==> s.rpm <= rpmHint.value)
  }

  /** The last moment any bucket of the strategy was changed. */
  function LastUpdate(s: Strategy): real {
    match s
    case Unified(_, requests, _, tokens) => Later(requests.lastUpdate, tokens.lastUpdate)
    case Separated(_, requests, _, input, _, output) =>
      Later(requests.lastUpdate, Later(input.lastUpdate, output.lastUpdate))
    case Adaptive(_, requests, _, _, _, _, _) => requests.lastUpdate
  }

  function Later(a: real, b: real): real { if a <= b then b else a }

  lemma ConstructionIsValid(rpm: int, tpm: nat, outputTpm: nat, minRpm: int, multiplier: real,
                            maxRpm: Option<int>, increment: int, increaseAfter: int, now: real)
    ensures NewUnified(rpm, tpm, now).Some? <==> rpm > 0
    ensures rpm > 0 ==> Valid(NewUnified(rpm, tpm, now).value)
    ensures NewSeparated(rpm, tpm, outputTpm, now).Some? <==> rpm > 0
    ensures rpm > 0 ==> Valid(NewSeparated(rpm, tpm, outputTpm, now).value)
    ensures var a := NewAdaptive(rpm, minRpm, multiplier, maxRpm, increment, increaseAfter, now);
            (a.Some? <==> rpm > 0 && 0.0 < multiplier < 1.0) && (a.Some? ==> Valid(a.value))
  {
  }

  datatype Call =
    | CheckCall(estimate: TokenEstimate, at: real)
    | SettleCall(reserved: TokenEstimate, actual: TokenEstimate, at: real)
    | BackoffCall(at: real)
    | HintCall(rpmHint: Option<int>, retryAt: Option<real>, at: real)

  /** Hints are registered with adaptive strategies only, and the clock does not run backwards. */
  predicate Callable(s: Strategy, c: Call) {
    LastUpdate(s) <= c.at && (c.HintCall? ==> s.Adaptive?)
  }

  function Step(s: Strategy, c: Call): Strategy {
    match c
    case CheckCall(estimate, now) => Check(s, estimate, now).0
    case SettleCall(reserved, actual, now) => Settle(s, reserved, actual, now)
    case BackoffCall(now) => Backoff(s, now)
    case HintCall(rpmHint, retryAt, now) => if s.Adaptive? then RegisterHint(s, rpmHint, retryAt, now) else s
  }

  lemma ShrinksBelow(rpm: int, multiplier: real)
    requires rpm >= 1 && 0.0 < multiplier < 1.0
    ensures 0 <= (rpm as real * multiplier).Floor < rpm
  {
    assert 0.0 < rpm as real * multiplier < rpm as real;
  }

  predicate Admits(s: Strategy, c: Call) {
    c.CheckCall? && Check(s, c.estimate, c.at).1 == Admitted
  }

  lemma StepKeepsKind(s: Strategy, c: Call)
    ensures s.Unified? ==> Step(s, c).Unified? && Step(s, c).tpm == s.tpm
    ensures s.Separated? ==> Step(s, c).Separated?
                             && Step(s, c).inputTpm == s.inputTpm && Step(s, c).outputTpm == s.outputTpm
    ensures s.Adaptive? ==> Step(s, c).Adaptive? && Step(s, c).growth == s.growth
    ensures !s.Adaptive? ==> Step(s, c).rpm == s.rpm
  {
  }

  lemma CheckKeepsValid(s: Strategy, estimate: TokenEstimate, now: real)
    requires Valid(s) && LastUpdate(s) <= now
    ensures Valid(Check(s, estimate, now).0)
  {
    AvailableInRange(s.requests, now);
    match s {
      case Unified(_, _, _, tokens) => AvailableInRange(tokens, now);
      case Separated(_, _, _, input, _, output) =>
        AvailableInRange(input, now);
        AvailableInRange(output, now);
      case Adaptive(_, _, _, _, _, _, _) =>
    }
  }

  lemma SettleKeepsValid(s: Strategy, reserved: TokenEstimate, actual: TokenEstimate, now: real)
    requires Valid(s)
    ensures Valid(Settle(s, reserved, actual, now))
  {
  }

  lemma BackoffKeepsValid(s: Strategy, now: real)
    requires Valid(s)
    ensures Valid(Backoff(s, now))
  {
    if s.Adaptive? {
      ShrinksBelow(s.rpm, s.growth.multiplier);
    }
  }

  lemma HintKeepsValid(s: Strategy, rpmHint: Option<int>, retryAt: Option<real>, now: real)
    requires Valid(s) && s.Adaptive?
    ensures Valid(RegisterHint(s, rpmHint, retryAt, now))
  {
  }

  /** Time never goes back, and never beyond the call. */
  lemma StepMovesTime(s: Strategy, c: Call)
    requires Callable(s, c)
    ensures LastUpdate(s) <= LastUpdate(Step(s, c)) <= Later(LastUpdate(s), c.at)
  {
  }

  /** One call keeps the invariant, never moves time backwards and never changes the kind. */
  lemma StepKeepsValid(s: Strategy, c: Call)
    requires Valid(s) && Callable(s, c)
    ensures Valid(Step(s, c)) && LastUpdate(s) <= LastUpdate(Step(s, c)) <= Later(LastUpdate(s), c.at)
    ensures s.Unified? ==> Step(s, c).Unified? && Step(s, c).tpm == s.tpm
    ensures s.Separated? ==> Step(s, c).Separated?
                             && Step(s, c).inputTpm == s.inputTpm && Step(s, c).outputTpm == s.outputTpm
    ensures s.Adaptive? ==> Step(s, c).Adaptive? && Step(s, c).growth == s.growth
    ensures !s.Adaptive? ==> Step(s, c).rpm == s.rpm
  {
    StepKeepsKind(s, c);
    StepMovesTime(s, c);
    match c {
      case CheckCall(estimate, now) => CheckKeepsValid(s, estimate, now);
      case SettleCall(reserved, actual, now) => SettleKeepsValid(s, reserved, actual, now);
      case BackoffCall(now) => BackoffKeepsValid(s, now);
      case HintCall(rpmHint, retryAt, now) => HintKeepsValid(s, rpmHint, retryAt, now);
    }
  }

  /** The backoff is documented as a reduction.  It reduces unless the provider's hint lies above the
    * current rate, or there is no hint and the rate already lies below the configured minimum. */
  lemma BackoffRaisesRpmExactlyWhen(s: Strategy, now: real)
    requires Valid(s) && s.Adaptive?
    ensures Backoff(s, now).rpm > s.rpm <==>
              if s.rpmHint.Some? then s.rpmHint.value > s.rpm else s.growth.minRpm > s.rpm
  {
    ShrinksBelow(s.rpm, s.growth.multiplier);
  }

  /** Both raising cases are reachable: a hint above the rate is kept although it did not clamp, and
    * the constructor accepts a rate below its minimum. */
  lemma BackoffCanRaise(now: real)
    ensures var start := NewAdaptive(100, 50, 0.75, None, 50, 30, now).value;
            Backoff(RegisterHint(start, Some(500), None, now), now).rpm == 500
    ensures Backoff(NewAdaptive(10, 50, 0.75, None, 50, 30, now).value, now).rpm == 50
  {
  }

  // ---------------------------------------------------------------- when a request is let through

  /** A check changes nothing unless it admits, so polling costs no capacity. */
  lemma RefusalChangesNothing(s: Strategy, estimate: TokenEstimate, now: real)
    ensures Check(s, estimate, now).1 != Admitted ==> Check(s, estimate, now).0 == s
  {
  }

  predicate WithinLimits(s: Strategy, estimate: TokenEstimate) {
    match s
    case Unified(_, _, tpm, _) => estimate.TotalTokens() <= tpm
    case Separated(_, _, inputTpm, _, outputTpm, _) =>
      estimate.inputTokens <= inputTpm && estimate.outputTokens <= outputTpm
    case Adaptive(_, _, _, _, _, _, _) => true
  }

  /** A check is rejected exactly for an estimate beyond the configured limits. */
  lemma RejectedExactlyBeyondLimits(s: Strategy, estimate: TokenEstimate, now: real)
    ensures Check(s, estimate, now).1 == Rejected <==> !WithinLimits(s, estimate)
  {
  }

  /** The strategy after a series of polls, none of which was admitted. */
  ghost predicate Polled(s: Strategy, polls: seq<Call>, s': Strategy) {
    if polls == [] then s' == s
    else
      var last := polls[|polls| - 1];
      exists before :: Polled(s, polls[..|polls| - 1], before) && last.CheckCall?
        && Check(before, last.estimate, last.at).1 == Refused
        && s' == Check(before, last.estimate, last.at).0
  }

  /** However many polls were refused in between, an estimate within the limits is admitted by the
    * first check a minute after the last change, once any cooldown is over. */
  lemma {:induction false} AdmittedWithinAMinute(s: Strategy, polls: seq<Call>, s': Strategy,
                                                 estimate: TokenEstimate, now: real)
    requires Valid(s) && Polled(s, polls, s') && WithinLimits(s, estimate)
    requires now >= LastUpdate(s) + MINUTE_IN_SECONDS
    requires s.Adaptive? ==> now >= s.cooldownUntil
    ensures s' == s && Check(s', estimate, now).1 == Admitted
  {
    if polls == [] {
      FullAfterAMinute(s.requests, now);
      match s {
        case Unified(_, _, _, tokens) => FullAfterAMinute(tokens, now);
        case Separated(_, _, _, input, _, output) =>
          FullAfterAMinute(input, now);
          FullAfterAMinute(output, now);
        case Adaptive(_, _, _, _, _, _, _) =>
      }
    } else {
      var last := polls[|polls| - 1];
      var before :| Polled(s, polls[..|polls| - 1], before) && last.CheckCall?
        && Check(before, last.estimate, last.at).1 == Refused
        && s' == Check(before, last.estimate, last.at).0;
      AdmittedWithinAMinute(s, polls[..|polls| - 1], before, estimate, now);
      RefusalChangesNothing(before, last.estimate, last.at);
    }
  }

  // ---------------------------------------------------------------- whole runs

  function After(s: Strategy, calls: seq<Call>): Strategy {
    if calls == [] then s else Step(After(s, calls[..|calls| - 1]), calls[|calls| - 1])
  }

  ghost predicate CallableRun(s: Strategy, calls: seq<Call>) {
    calls == [] || (var front := calls[..|calls| - 1];
                    CallableRun(s, front) && Callable(After(s, front), calls[|calls| - 1]))
  }

  lemma {:induction false} RunKeepsValid(s: Strategy, calls: seq<Call>)
    requires Valid(s) && CallableRun(s, calls)
    ensures var s' := After(s, calls);
            && Valid(s') && LastUpdate(s) <= LastUpdate(s')
            && (s.Unified? ==> s'.Unified? && s'.tpm == s.tpm)
            && (s.Separated? ==> s'.Separated? && s'.inputTpm == s.inputTpm && s'.outputTpm == s.outputTpm)
            && (s.Adaptive? ==> s'.Adaptive? && s'.growth == s.growth)
            && (!s.Adaptive? ==> s'.rpm == s.rpm)
  {
    if calls != [] {
      RunKeepsValid(s, calls[..|calls| - 1]);
      StepKeepsValid(After(s, calls[..|calls| - 1]), calls[|calls| - 1]);
    }
  }

  /** Reservations that were granted and not yet settled. */
  function Outstanding(s: Strategy, calls: seq<Call>): multiset<TokenEstimate> {
    if calls == [] then multiset{}
    else
      var front, last := calls[..|calls| - 1], calls[|calls| - 1];
      match last
      case CheckCall(estimate, _) =>
        if Admits(After(s, front), last) then Outstanding(s, front) + multiset{estimate} else Outstanding(s, front)
      case SettleCall(reserved, _, _) => Outstanding(s, front) - multiset{reserved}
      case _ => Outstanding(s, front)
  }

  /** Every settlement gives back a reservation that is outstanding. */
  predicate Matched(s: Strategy, calls: seq<Call>) {
    calls == [] || (var front, last := calls[..|calls| - 1], calls[|calls| - 1];
                    Matched(s, front) && (last.SettleCall? ==> last.reserved in Outstanding(s, front)))
  }

  function Admissions(s: Strategy, calls: seq<Call>): nat {
    if calls == [] then 0
    else
      var front, last := calls[..|calls| - 1], calls[|calls| - 1];
      Admissions(s, front)
      + if Admits(After(s, front), last) then 1 else 0
  }

  /** What a token bucket counts of an estimate. */
  datatype Weight = AllTokens | InputTokens | OutputTokens

  function Weigh(w: Weight, e: TokenEstimate): nat {
    match w
    case AllTokens => e.TotalTokens()
    case InputTokens => e.inputTokens
    case OutputTokens => e.outputTokens
  }

  predicate HasTokenBucket(s: Strategy, w: Weight) {
    (s.Unified? && w == AllTokens) || (s.Separated? && w != AllTokens)
  }

  function TokenBucket(s: Strategy, w: Weight): Bucket
    requires HasTokenBucket(s, w)
  {
    match w
    case AllTokens => s.tokens
    case InputTokens => s.input
    case OutputTokens => s.output
  }

  ghost function Total(w: Weight, m: multiset<TokenEstimate>): nat
    decreases |m|
  {
    if m == multiset{} then 0
    else
      var e :| e in m;
      Weigh(w, e) + Total(w, m - multiset{e})
  }

  lemma {:induction false} TotalRemove(w: Weight, m: multiset<TokenEstimate>, e: TokenEstimate)
    requires e in m
    ensures Total(w, m) == Weigh(w, e) + Total(w, m - multiset{e})
    decreases |m|
  {
    var pick := TotalPicks(w, m);
    if pick != e {
      MinusCommutes(m, pick, e);
      TotalRemove(w, m - multiset{pick}, e);
      TotalRemove(w, m - multiset{e}, pick);
    }
  }

  lemma TotalPicks(w: Weight, m: multiset<TokenEstimate>) returns (pick: TokenEstimate)
    requires m != multiset{}
    ensures pick in m && Total(w, m) == Weigh(w, pick) + Total(w, m - multiset{pick})
  {
    pick :| pick in m && Total(w, m) == Weigh(w, pick) + Total(w, m - multiset{pick});
  }

  lemma MinusCommutes<T>(m: multiset<T>, a: T, b: T)
    requires a in m && b in m && a != b
    ensures m - multiset{a} - multiset{b} == m - multiset{b} - multiset{a}
    ensures b in m - multiset{a} && a in m - multiset{b}
    ensures |m - multiset{a}| < |m| && |m - multiset{b}| < |m|
  {
  }

  lemma TotalAdd(w: Weight, m: multiset<TokenEstimate>, e: TokenEstimate)
    ensures Total(w, m + multiset{e}) == Total(w, m) + Weigh(w, e)
  {
    TotalRemove(w, m + multiset{e}, e);
    assert m + multiset{e} - multiset{e} == m;
  }

  function UsedTokens(w: Weight, calls: seq<Call>): nat {
    if calls == [] then 0
    else
      var last := calls[|calls| - 1];
      UsedTokens(w, calls[..|calls| - 1]) + if last.SettleCall? then Weigh(w, last.actual) else 0
  }

  /** What one call does to a token bucket: at most one event of the bucket. */
  function TokenEvent(s: Strategy, w: Weight, c: Call): seq<Event> {
    match c
    case CheckCall(estimate, now) =>
      if Admits(s, c) then [Consume(Weigh(w, estimate), now)] else []
    case SettleCall(reserved, actual, now) =>
      [TokenBuckets.Settle(Weigh(w, reserved), Weigh(w, actual), now)]
    case BackoffCall(now) => [Drain(now)]
    case HintCall(_, _, _) => []
  }

  /** The part of the run that one token bucket sees. */
  function TokenTrace(s: Strategy, w: Weight, calls: seq<Call>): seq<Event> {
    if calls == [] then []
    else
      var front := calls[..|calls| - 1];
      TokenTrace(s, w, front) + TokenEvent(After(s, front), w, calls[|calls| - 1])
  }

  lemma TokenEventIsTheChange(s: Strategy, w: Weight, c: Call)
    requires HasTokenBucket(s, w) && Callable(s, c)
    ensures HasTokenBucket(Step(s, c), w) && |TokenEvent(s, w, c)| <= 1
    ensures var b, events := TokenBucket(s, w), TokenEvent(s, w, c);
            if events == [] then TokenBucket(Step(s, c), w) == b
            else Allowed(b, events[0]) && TokenBucket(Step(s, c), w) == Apply(b, events[0])
  {
  }

  lemma TokenEventAmounts(s: Strategy, w: Weight, c: Call)
    ensures var events := TokenEvent(s, w, c);
            && |events| <= 1
            && Consumed(events) == (if Admits(s, c)
                                    then Weigh(w, c.estimate) else 0)
            && Released(events) == (if c.SettleCall? then Weigh(w, c.reserved) else 0)
            && Used(events) == (if c.SettleCall? then Weigh(w, c.actual) else 0)
  {
    assert TokenEvent(s, w, c)[..0] == [];
  }

  lemma TraceExtends(b: Bucket, trace: seq<Event>, events: seq<Event>)
    requires |events| <= 1 && AllowedRun(b, trace)
    requires events != [] ==> Allowed(Run(b, trace), events[0])
    ensures AllowedRun(b, trace + events)
    ensures Run(b, trace + events) == if events == [] then Run(b, trace) else Apply(Run(b, trace), events[0])
  {
    var longer := trace + events;
    if events == [] {
      assert longer == trace;
    } else {
      assert longer[..|trace|] == trace;
      forall i | 0 <= i < |longer| ensures Allowed(Run(b, longer[..i]), longer[i]) {
        if i < |trace| {
          assert longer[..i] == trace[..i];
        }
      }
    }
  }

  lemma SumsExtend(trace: seq<Event>, events: seq<Event>)
    requires |events| <= 1
    ensures Consumed(trace + events) == Consumed(trace) + Consumed(events)
    ensures Released(trace + events) == Released(trace) + Released(events)
    ensures Used(trace + events) == Used(trace) + Used(events)
  {
    if events == [] {
      assert trace + events == trace;
    } else {
      assert (trace + events)[..|trace|] == trace && events[..0] == [];
    }
  }

  lemma OutstandingStep(s: Strategy, w: Weight, calls: seq<Call>)
    requires calls != [] && Matched(s, calls)
    ensures var front, last := calls[..|calls| - 1], calls[|calls| - 1];
            Total(w, Outstanding(s, calls)) == Total(w, Outstanding(s, front))
              + (if Admits(After(s, front), last)
                 then Weigh(w, last.estimate) else 0)
              - (if last.SettleCall? then Weigh(w, last.reserved) else 0)
  {
    var front, last := calls[..|calls| - 1], calls[|calls| - 1];
    var outstanding := Outstanding(s, front);
    match last {
      case CheckCall(estimate, _) => TotalAdd(w, outstanding, estimate);
      case SettleCall(reserved, _, _) => TotalRemove(w, outstanding, reserved);
      case _ =>
    }
  }

  /** A run of a strategy is, for each of its token buckets, a run of that bucket alone. */
  lemma {:induction false} TokenTraceIsARun(s: Strategy, w: Weight, calls: seq<Call>)
    requires CallableRun(s, calls) && HasTokenBucket(s, w)
    ensures HasTokenBucket(After(s, calls), w)
    ensures AllowedRun(TokenBucket(s, w), TokenTrace(s, w, calls))
    ensures TokenBucket(After(s, calls), w) == Run(TokenBucket(s, w), TokenTrace(s, w, calls))
  {
    if calls != [] {
      var front, last := calls[..|calls| - 1], calls[|calls| - 1];
      TokenTraceIsARun(s, w, front);
      TokenEventIsTheChange(After(s, front), w, last);
      TraceExtends(TokenBucket(s, w), TokenTrace(s, w, front), TokenEvent(After(s, front), w, last));
    }
  }

  /** What is outstanding is what the bucket handed out and did not get back. */
  lemma {:induction false} OutstandingIsConsumedMinusReleased(s: Strategy, w: Weight, calls: seq<Call>)
    requires Matched(s, calls)
    ensures Reflects(TokenTrace(s, w, calls), Total(w, Outstanding(s, calls)), UsedTokens(w, calls))
  {
    if calls != [] {
      var front, last := calls[..|calls| - 1], calls[|calls| - 1];
      OutstandingIsConsumedMinusReleased(s, w, front);
      ReflectsStep(s, w, calls, TokenTrace(s, w, front), Total(w, Outstanding(s, front)), UsedTokens(w, front));
    }
  }

  lemma ReflectsStep(s: Strategy, w: Weight, calls: seq<Call>, trace: seq<Event>, outstanding: int, used: int)
    requires calls != [] && Matched(s, calls) && Reflects(trace, outstanding, used)
    requires trace == TokenTrace(s, w, calls[..|calls| - 1])
    requires outstanding == Total(w, Outstanding(s, calls[..|calls| - 1]))
    requires used == UsedTokens(w, calls[..|calls| - 1])
    ensures Reflects(TokenTrace(s, w, calls), Total(w, Outstanding(s, calls)), UsedTokens(w, calls))
  {
    var front, last := calls[..|calls| - 1], calls[|calls| - 1];
    OutstandingStep(s, w, calls);
    TokenEventAmounts(After(s, front), w, last);
    SumsExtend(trace, TokenEvent(After(s, front), w, last));
  }

  predicate Reflects(trace: seq<Event>, outstanding: int, used: int) {
    outstanding == Consumed(trace) - Released(trace) && used == Used(trace)
  }

  /** Token conservation over whole runs, for the shared bucket of the unified strategy and for each
    * of the two buckets of the separated one. */
  lemma TokenConservation(s: Strategy, w: Weight, calls: seq<Call>)
    requires Valid(s) && CallableRun(s, calls) && HasTokenBucket(s, w) && Matched(s, calls)
    ensures HasTokenBucket(After(s, calls), w) && InRange(TokenBucket(After(s, calls), w))
    ensures Balanced(TokenBucket(s, w), TokenBucket(After(s, calls), w), Total(w, Outstanding(s, calls)),
                     UsedTokens(w, calls), Forgiven(TokenBucket(s, w), TokenTrace(s, w, calls)))
  {
    TokenTraceIsARun(s, w, calls);
    OutstandingIsConsumedMinusReleased(s, w, calls);
    BucketConserves(TokenBucket(s, w), TokenTrace(s, w, calls));
  }

  /** What the bucket holds, what is outstanding and what was used is at most one full bucket, its rate
    * times the elapsed time, and the forgiven debt. */
  predicate Balanced(before: Bucket, after: Bucket, outstanding: int, used: int, forgiven: int) {
    (after.current + outstanding + used) as real
    <= before.maxCapacity as real + Earned(before.maxCapacity, after.lastUpdate - before.lastUpdate)
       + forgiven as real
  }

  lemma BucketConserves(b: Bucket, trace: seq<Event>)
    requires InRange(b) && AllowedRun(b, trace)
    ensures InRange(Run(b, trace))
    ensures Balanced(b, Run(b, trace), Consumed(trace) - Released(trace), Used(trace), Forgiven(b, trace))
  {
    CapacityInRange(b, trace);
    Conservation(b, trace);
  }

  // ---------------------------------------------------------------- the request buckets

  /** Full bursts handed out by registered limits: each one replaces the bucket by a full one. */
  function HintBursts(s: Strategy, calls: seq<Call>): int {
    if calls == [] then 0
    else
      var front, last := calls[..|calls| - 1], calls[|calls| - 1];
      HintBursts(s, front)
      + if last.HintCall? && last.rpmHint.Some? && last.rpmHint.value > 0 then After(s, calls).rpm else 0
  }

  predicate RpmAtMost(s: Strategy, calls: seq<Call>, bound: int) {
    && After(s, calls).rpm <= bound
    && (calls != [] ==> RpmAtMost(s, calls[..|calls| - 1], bound))
  }

  /** Requests let through over a run of any strategy, through any mix of growth, backoff and hints:
    * at most what the bucket held, the highest rate times the elapsed time, and the hint bursts. */
  lemma {:induction false} AdmissionBound(s: Strategy, calls: seq<Call>, bound: int)
    requires Valid(s) && CallableRun(s, calls) && RpmAtMost(s, calls, bound)
    ensures var s' := After(s, calls);
            && s.requests.lastUpdate <= s'.requests.lastUpdate
            && (s'.requests.current + Admissions(s, calls)) as real
               <= s.requests.current as real + Earned(bound, s'.requests.lastUpdate - s.requests.lastUpdate)
                  + HintBursts(s, calls) as real
  {
    if calls == [] {
      assert Earned(bound, 0.0) == 0.0;
    } else {
      var front, last := calls[..|calls| - 1], calls[|calls| - 1];
      AdmissionBound(s, front, bound);
      RunKeepsValid(s, front);
      RunKeepsValid(s, calls);
      var before := After(s, front);
      RequestStep(before, last, bound);
      EarnedSplits(bound, before.requests.lastUpdate - s.requests.lastUpdate,
                   After(s, calls).requests.lastUpdate - before.requests.lastUpdate);
    }
  }

  /** The same bound from a bucket taken to be full. */
  lemma AdmissionsFromFull(s: Strategy, calls: seq<Call>, bound: int)
    requires Valid(s) && CallableRun(s, calls) && RpmAtMost(s, calls, bound)
    ensures Admissions(s, calls) as real
         <= s.rpm as real + Earned(bound, After(s, calls).requests.lastUpdate - s.requests.lastUpdate)
            + HintBursts(s, calls) as real
  {
    AdmissionBound(s, calls, bound);
    RunKeepsValid(s, calls);
    var earned := Earned(bound, After(s, calls).requests.lastUpdate - s.requests.lastUpdate);
    FullAtStart(s.requests.current, After(s, calls).requests.current, Admissions(s, calls), s.rpm,
                earned, HintBursts(s, calls));
  }

  lemma FullAtStart(before: int, after: int, admissions: int, rate: int, earned: real, bursts: int)
    requires (after + admissions) as real <= before as real + earned + bursts as real
    requires before <= rate && 0 <= after
    ensures admissions as real <= rate as real + earned + bursts as real
  {
    assert admissions as real <= (after + admissions) as real && before as real <= rate as real;
  }

  /** The highest rate over a run. */
  function HighestRpm(s: Strategy, calls: seq<Call>): int {
    if calls == [] then s.rpm
    else
      var before := HighestRpm(s, calls[..|calls| - 1]);
      if before < After(s, calls).rpm then After(s, calls).rpm else before
  }

  lemma {:induction false} HighestIsReached(s: Strategy, calls: seq<Call>, bound: int)
    requires HighestRpm(s, calls) <= bound
    ensures RpmAtMost(s, calls, bound)
  {
    if calls != [] {
      HighestIsReached(s, calls[..|calls| - 1], bound);
    }
  }

  /** No smaller number bounds the rates of the run. */
  lemma {:induction false} HighestIsLeast(s: Strategy, calls: seq<Call>, bound: int)
    requires RpmAtMost(s, calls, bound)
    ensures HighestRpm(s, calls) <= bound
  {
    if calls != [] {
      HighestIsLeast(s, calls[..|calls| - 1], bound);
    }
  }

  lemma RequestStep(s: Strategy, c: Call, bound: int)
    requires Valid(s) && Callable(s, c) && Valid(Step(s, c)) && s.rpm <= bound
    ensures var s' := Step(s, c);
            && s.requests.lastUpdate <= s'.requests.lastUpdate
            && (s'.requests.current
                + if Admits(s, c) then 1 else 0) as real
               <= s.requests.current as real
                  + Earned(bound, s'.requests.lastUpdate - s.requests.lastUpdate)
                  + (if c.HintCall? && c.rpmHint.Some? && c.rpmHint.value > 0 then s'.rpm else 0) as real
  {
    var s' := Step(s, c);
    AvailableInRange(s.requests, c.at);
    EarnedMonotone(s.rpm, bound, 0.0, s'.requests.lastUpdate - s.requests.lastUpdate);
    if s'.requests.lastUpdate == c.at {
      EarnedMonotone(s.rpm, bound, c.at - s.requests.lastUpdate, c.at - s.requests.lastUpdate);
    }
  }

  ghost predicate NoRpmHints(calls: seq<Call>) {
    forall i :: 0 <= i < |calls| && calls[i].HintCall? ==> !(calls[i].rpmHint.Some? && calls[i].rpmHint.value > 0)
  }

  /** Without provider limits, growth and backoff keep the rate at or below its ceiling. */
  lemma {:induction false} RateStaysBelowCeiling(s: Strategy, calls: seq<Call>)
    requires Valid(s) && s.Adaptive? && CallableRun(s, calls) && NoRpmHints(calls)
    requires s.rpmHint.None? && s.rpm <= s.growth.maxRpm
    ensures RpmAtMost(s, calls, s.growth.maxRpm) && HintBursts(s, calls) == 0
    ensures After(s, calls).Adaptive? && After(s, calls).rpmHint.None?
  {
    if calls != [] {
      var front, last := calls[..|calls| - 1], calls[|calls| - 1];
      RateStaysBelowCeiling(s, front);
      RunKeepsValid(s, front);
      StepStaysBelow(After(s, front), last);
    }
  }

  lemma StepStaysBelow(s: Strategy, c: Call)
    requires Valid(s) && s.Adaptive? && s.rpmHint.None? && s.rpm <= s.growth.maxRpm && Callable(s, c)
    requires c.HintCall? ==> !(c.rpmHint.Some? && c.rpmHint.value > 0)
    ensures Step(s, c).Adaptive? && Step(s, c).growth == s.growth
    ensures Step(s, c).rpmHint.None? && Step(s, c).rpm <= s.growth.maxRpm
  {
    ShrinksBelow(s.rpm, s.growth.multiplier);
  }

  /** Admissions of a fresh adaptive strategy that is given no limits. */
  lemma AdaptiveAdmissionBound(s: Strategy, calls: seq<Call>)
    requires Valid(s) && s.Adaptive? && CallableRun(s, calls) && NoRpmHints(calls)
    requires s.rpmHint.None? && s.rpm <= s.growth.maxRpm
    ensures Admissions(s, calls) as real
         <= s.rpm as real + Earned(s.growth.maxRpm, After(s, calls).requests.lastUpdate - s.requests.lastUpdate)
  {
    RateStaysBelowCeiling(s, calls);
    AdmissionsFromFull(s, calls, s.growth.maxRpm);
  }
}
