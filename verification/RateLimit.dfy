/** Token buckets and the two token-tracking rate-limit strategies.
  *
  * A bucket is refilled lazily: every state-changing call first credits the whole tokens earned since
  * the last one (the fraction is dropped), caps the result, and then changes it.  The clock is a
  * parameter of every call. */
module TokenBuckets {
  import opened Wrappers

  const MINUTE_IN_SECONDS: real := 60.0

  /** The value of one bucket. */
  datatype Bucket = Bucket(maxCapacity: int, current: int, lastUpdate: real)

  /** Tokens earned in `seconds` at `perMinute` tokens a minute, before rounding. */
  function Earned(perMinute: int, seconds: real): real {
    perMinute as real * seconds / MINUTE_IN_SECONDS
  }

  function Refill(b: Bucket, now: real): int {
    Earned(b.maxCapacity, now - b.lastUpdate).Floor
  }

  function Available(b: Bucket, now: real): int {
    Min(Refill(b, now) + b.current, b.maxCapacity)
  }

  function WithCapacity(b: Bucket, capacity: int, now: real): Bucket {
    b.(current := capacity, lastUpdate := now)
  }

  function NewBucket(maxCapacity: int, now: real): Bucket {
    Bucket(maxCapacity, maxCapacity, now)
  }

  predicate InRange(b: Bucket) { 0 <= b.current <= b.maxCapacity }

  lemma EarnedSplits(perMinute: int, a: real, b: real)
    ensures Earned(perMinute, a) + Earned(perMinute, b) == Earned(perMinute, a + b)
  {
    assert perMinute as real * (a + b) == perMinute as real * a + perMinute as real * b;
  }

  lemma EarnedMonotone(perMinute: int, perMinute': int, seconds: real, seconds': real)
    requires 0 <= perMinute <= perMinute' && 0.0 <= seconds <= seconds'
    ensures 0.0 <= Earned(perMinute, seconds) <= Earned(perMinute', seconds')
  {
    var p, p' := perMinute as real, perMinute' as real;
    assert p * seconds <= p' * seconds;
    assert p' * seconds <= p' * seconds';
  }

  /** A capacity of at least zero is full again after a minute. */
  lemma FullAfterAMinute(b: Bucket, now: real)
    requires InRange(b) && now >= b.lastUpdate + MINUTE_IN_SECONDS
    ensures Available(b, now) == b.maxCapacity
  {
    EarnedMonotone(b.maxCapacity, b.maxCapacity, MINUTE_IN_SECONDS, now - b.lastUpdate);
    assert Earned(b.maxCapacity, MINUTE_IN_SECONDS) == b.maxCapacity as real;
  }

  /** A minute earns exactly the maximum, so an empty bucket is not full before. */
  lemma NotFullBeforeAMinute(b: Bucket, now: real)
    requires b.current == 0 < b.maxCapacity && now < b.lastUpdate + 60.0
    ensures Available(b, now) < b.maxCapacity
    ensures Earned(b.maxCapacity, 60.0) == b.maxCapacity as real
  {
    var max, elapsed := b.maxCapacity as real, now - b.lastUpdate;
    assert max * (60.0 - elapsed) > 0.0;
    assert Earned(b.maxCapacity, elapsed) < max;
  }

  lemma AvailableInRange(b: Bucket, now: real)
    requires InRange(b) && b.lastUpdate <= now
    ensures b.current <= Available(b, now) <= b.maxCapacity
    ensures 0 <= Refill(b, now) && Refill(b, now) as real <= Earned(b.maxCapacity, now - b.lastUpdate)
    ensures Earned(b.maxCapacity, now - b.lastUpdate) < Refill(b, now) as real + 1.0
  {
    EarnedMonotone(b.maxCapacity, b.maxCapacity, 0.0, now - b.lastUpdate);
  }

  // ---------------------------------------------------------------- runs of one bucket

  /** The three ways a bucket changes: a granted reservation, the correction of a reservation against
    * the usage that came back, and a backoff. */
  datatype Event =
    | Consume(amount: nat, at: real)
    | Settle(reserved: nat, actual: nat, at: real)
    | Drain(at: real)

  function Apply(b: Bucket, e: Event): Bucket {
    match e
    case Consume(amount, now) => WithCapacity(b, Available(b, now) - amount, now)
    case Settle(reserved, actual, now) =>
      WithCapacity(b, Min(b.maxCapacity, Max(0, Available(b, now) + (reserved - actual))), now)
    case Drain(now) => WithCapacity(b, 0, now)
  }

  /** Time does not run backwards and a reservation is granted only out of available capacity. */
  predicate Allowed(b: Bucket, e: Event) {
    b.lastUpdate <= e.at && (e.Consume? ==> e.amount <= Available(b, e.at))
  }

  function Run(b: Bucket, trace: seq<Event>): Bucket {
    if trace == [] then b else Apply(Run(b, trace[..|trace| - 1]), trace[|trace| - 1])
  }

  ghost predicate AllowedRun(b: Bucket, trace: seq<Event>) {
    forall i :: 0 <= i < |trace| ==> Allowed(Run(b, trace[..i]), trace[i])
  }

  // What the events of a trace add up to, each read off the trace itself.

  function Consumed(trace: seq<Event>): nat {
    if trace == [] then 0 else
      var e := trace[|trace| - 1];
      Consumed(trace[..|trace| - 1]) + if e.Consume? then e.amount else 0
  }

  function Released(trace: seq<Event>): nat {
    if trace == [] then 0 else
      var e := trace[|trace| - 1];
      Released(trace[..|trace| - 1]) + if e.Settle? then e.reserved else 0
  }

  function Used(trace: seq<Event>): nat {
    if trace == [] then 0 else
      var e := trace[|trace| - 1];
      Used(trace[..|trace| - 1]) + if e.Settle? then e.actual else 0
  }

  /** Debt dropped by the clamp of `settle` at zero. */
  function Forgiven(b: Bucket, trace: seq<Event>): nat {
    if trace == [] then 0 else
      var e := trace[|trace| - 1];
      var before := Run(b, trace[..|trace| - 1]);
      Forgiven(b, trace[..|trace| - 1])
      + if e.Settle? then Max(0, e.actual - e.reserved - Available(before, e.at)) else 0
  }

  /** Whole tokens credited, before any cap. */
  function Credited(b: Bucket, trace: seq<Event>): int {
    if trace == [] then 0 else
      Credited(b, trace[..|trace| - 1]) + Refill(Run(b, trace[..|trace| - 1]), trace[|trace| - 1].at)
  }

  /** Capacity that a full bucket or a backoff threw away. */
  function Lost(b: Bucket, trace: seq<Event>): int {
    if trace == [] then 0 else
      var e := trace[|trace| - 1];
      var before := Run(b, trace[..|trace| - 1]);
      var raw := Refill(before, e.at) + before.current;
      Lost(b, trace[..|trace| - 1])
      + match e
        case Consume(_, now) => raw - Available(before, now)
        case Settle(reserved, actual, now) =>
          raw - Available(before, now)
          + Max(0, Max(0, Available(before, now) + (reserved - actual)) - b.maxCapacity)
        case Drain(_) => raw
  }

  lemma AllowedPrefix(b: Bucket, trace: seq<Event>)
    requires AllowedRun(b, trace) && trace != []
    ensures AllowedRun(b, trace[..|trace| - 1])
    ensures Allowed(Run(b, trace[..|trace| - 1]), trace[|trace| - 1])
  {
    var front := trace[..|trace| - 1];
    forall i | 0 <= i < |front| ensures Allowed(Run(b, front[..i]), front[i]) {
      assert front[..i] == trace[..i];
    }
  }

  /** Capacity stays between zero and the maximum through every run. */
  lemma {:induction false} CapacityInRange(b: Bucket, trace: seq<Event>)
    requires InRange(b) && AllowedRun(b, trace)
    ensures InRange(Run(b, trace)) && Run(b, trace).maxCapacity == b.maxCapacity
    ensures b.lastUpdate <= Run(b, trace).lastUpdate
  {
    if trace != [] {
      AllowedPrefix(b, trace);
      CapacityInRange(b, trace[..|trace| - 1]);
      AvailableInRange(Run(b, trace[..|trace| - 1]), trace[|trace| - 1].at);
    }
  }

  /** The exact books of a run: nothing a bucket hands out, takes back, credits or drops is missing. */
  lemma {:induction false} Books(b: Bucket, trace: seq<Event>)
    requires AllowedRun(b, trace)
    ensures Run(b, trace).maxCapacity == b.maxCapacity
    ensures Run(b, trace).current + (Consumed(trace) - Released(trace)) + Used(trace) + Lost(b, trace)
         == b.current + Credited(b, trace) + Forgiven(b, trace)
  {
    if trace != [] {
      AllowedPrefix(b, trace);
      Books(b, trace[..|trace| - 1]);
    }
  }

  lemma {:induction false} LostIsNonNegative(b: Bucket, trace: seq<Event>)
    requires InRange(b) && AllowedRun(b, trace)
    ensures 0 <= Lost(b, trace)
  {
    if trace != [] {
      AllowedPrefix(b, trace);
      CapacityInRange(b, trace[..|trace| - 1]);
      LostIsNonNegative(b, trace[..|trace| - 1]);
      AvailableInRange(Run(b, trace[..|trace| - 1]), trace[|trace| - 1].at);
    }
  }

  /** Two-sided refill: rounding down loses less than one token a call, however the calls are spaced. */
  lemma {:induction false} CreditedRefill(b: Bucket, trace: seq<Event>)
    requires InRange(b) && AllowedRun(b, trace)
    ensures Credited(b, trace) as real <= Earned(b.maxCapacity, Run(b, trace).lastUpdate - b.lastUpdate)
    ensures Earned(b.maxCapacity, Run(b, trace).lastUpdate - b.lastUpdate)
         <= Credited(b, trace) as real + |trace| as real
    ensures trace != [] ==>
              Earned(b.maxCapacity, Run(b, trace).lastUpdate - b.lastUpdate)
              < Credited(b, trace) as real + |trace| as real
  {
    if trace == [] {
      assert Earned(b.maxCapacity, 0.0) == 0.0;
    } else {
      var front, e := trace[..|trace| - 1], trace[|trace| - 1];
      var before := Run(b, front);
      AllowedPrefix(b, trace);
      CapacityInRange(b, front);
      CreditedRefill(b, front);
      AvailableInRange(before, e.at);
      EarnedSplits(b.maxCapacity, before.lastUpdate - b.lastUpdate, e.at - before.lastUpdate);
    }
  }

  /** Conservation over a whole run: what is left, what is reserved and what was used never exceeds one
    * full bucket, one rate's worth of the elapsed time, and the debt `settle` forgave. */
  lemma Conservation(b: Bucket, trace: seq<Event>)
    requires InRange(b) && AllowedRun(b, trace)
    ensures (Run(b, trace).current + (Consumed(trace) - Released(trace)) + Used(trace)) as real
         <= b.maxCapacity as real
            + Earned(b.maxCapacity, Run(b, trace).lastUpdate - b.lastUpdate)
            + Forgiven(b, trace) as real
  {
    Books(b, trace);
    LostIsNonNegative(b, trace);
    CreditedRefill(b, trace);
  }

  /** Nothing is forgiven in a run whose settlements never exceed their reservations. */
  lemma {:induction false} NothingForgiven(b: Bucket, trace: seq<Event>)
    requires InRange(b) && AllowedRun(b, trace)
    requires forall i :: 0 <= i < |trace| && trace[i].Settle? ==> trace[i].actual <= trace[i].reserved
    ensures Forgiven(b, trace) == 0
  {
    if trace != [] {
      AllowedPrefix(b, trace);
      CapacityInRange(b, trace[..|trace| - 1]);
      NothingForgiven(b, trace[..|trace| - 1]);
      AvailableInRange(Run(b, trace[..|trace| - 1]), trace[|trace| - 1].at);
    }
  }

  // ---------------------------------------------------------------- the bucket object

  class RateLimitBucket {
    const maxCapacity: int
    var currentCapacity: int
    var lastUpdateTime: real

    function Value(): Bucket
      reads this
    {
      Bucket(maxCapacity, currentCapacity, lastUpdateTime)
    }

    constructor (maxCapacity: int, now: real)
      ensures Value() == NewBucket(maxCapacity, now)
    {
      this.maxCapacity := maxCapacity;
      currentCapacity := maxCapacity;
      lastUpdateTime := now;
    }

    method GetAvailableCapacity(currTime: real) returns (capacity: int)
      ensures capacity == Available(Value(), currTime)
    {
      var timeSinceLastCheck := currTime - lastUpdateTime;
      var replenished := (maxCapacity as real * timeSinceLastCheck / MINUTE_IN_SECONDS).Floor;
      capacity := Min(replenished + currentCapacity, maxCapacity);
    }

    method SetCapacity(capacity: int, currTime: real)
      modifies this
      ensures Value() == WithCapacity(old(Value()), capacity, currTime)
    {
      currentCapacity := capacity;
      lastUpdateTime := currTime;
    }
  }
}
