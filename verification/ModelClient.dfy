/** The model client as an object: its fields are updated in place by the handlers, and each handler is
  * proved to take the step of Dispatch.dfy that it stands for. */
module ModelClients {
  import opened Wrappers
  import opened Strategies
  import opened RateLimitClasses
  import opened Dispatch

  method RemoveItem(items: seq<QueueItem>, item: QueueItem) returns (rest: seq<QueueItem>)
    requires item in items
    ensures rest == RemoveFirst(items, item)
  {
    var i := 0;
    while items[i] != item
      invariant 0 <= i < |items| && item !in items[..i]
      decreases |items| - i
    {
      i := i + 1;
    }
    RemoveFirstAt(items, item, i);
    rest := items[..i] + items[i + 1..];
  }

  lemma {:induction false} RemoveFirstAt(items: seq<QueueItem>, item: QueueItem, i: nat)
    requires i < |items| && items[i] == item && item !in items[..i]
    ensures RemoveFirst(items, item) == items[..i] + items[i + 1..]
  {
    if i > 0 {
      assert items[0] == items[..i][0] && items[1..][..i - 1] == items[..i][1..];
      RemoveFirstAt(items[1..], item, i - 1);
      assert items[1..][i..] == items[i + 1..];
      assert items[..i] == [items[0]] + items[1..][..i - 1];
    }
  }

  /** Removes the processed requests from the pending ones, one by one; each one is found. */
  method RemoveProcessed(pending: seq<QueueItem>, processed: seq<QueueItem>) returns (rest: seq<QueueItem>)
    requires multiset(processed) <= multiset(pending)
    ensures rest == Remaining(pending, processed)
  {
    rest := pending;
    for k := 0 to |processed|
      invariant rest == Remaining(pending, processed[..k])
    {
      var done := processed[..k + 1];
      assert done[..k] == processed[..k];
      assert multiset(done) <= multiset(pending) by {
        assert processed == done + processed[k + 1..];
      }
      RemainingTakesProcessed(pending, done);
      rest := RemoveItem(rest, processed[k]);
    }
    assert processed[..|processed|] == processed;
  }

  class ModelClient {
    const config: Config
    const rateLimitStrategy: Limiter
    var requestQueue: seq<QueueItem>
    var retryQueue: seq<QueueItem>
    var pendingRequests: seq<QueueItem>
    var worker: Worker
    var inflightRequests: seq<QueueItem>
    var futures: map<nat, Resolution>
    var threadExceptions: set<nat>
    var numBackoffs: nat
    var lastTransientExceptionTime: real
    ghost var limiter: Strategy
    ghost var submitting: set<nat>
    ghost var clock: real
    ghost var log: Log

    /** The strategy object stands for the state's limiter. */
    ghost predicate Valid()
      reads this, Repr(rateLimitStrategy)
      reads if rateLimitStrategy.AdaptiveLimiter? then {rateLimitStrategy.adaptive} else {}
    {
      ValidLimiter(rateLimitStrategy) && LimiterValue(rateLimitStrategy) == limiter
    }

    ghost function State(): Client
      reads this
    {
      Client(requestQueue, retryQueue, pendingRequests, worker, inflightRequests, futures, threadExceptions,
             submitting, limiter, numBackoffs, lastTransientExceptionTime, clock, log)
    }

    constructor (config: Config, rateLimitStrategy: Limiter, ghost now: real)
      requires ValidLimiter(rateLimitStrategy)
      ensures this.config == config && this.rateLimitStrategy == rateLimitStrategy && Valid()
      ensures State() == Initial(LimiterValue(rateLimitStrategy), now)
    {
      this.config := config;
      requestQueue, retryQueue, pendingRequests, inflightRequests := [], [], [], [];
      worker := Idle;
      futures, threadExceptions := map[], {};
      this.rateLimitStrategy := rateLimitStrategy;
      numBackoffs, lastTransientExceptionTime := 0, 0.0;
      clock := now;
      limiter := LimiterValue(rateLimitStrategy);
      submitting := {};
      log := Log([], [], [], [], multiset{}, 0, 0.0, []);
    }

    /** The check at the start of each submission. */
    method MaybeRaiseThreadException(thread: nat) returns (raised: bool)
      modifies this
      ensures State() == CheckException(old(State()), thread)
      ensures raised <==> thread in old(threadExceptions)
    {
      raised := thread in threadExceptions;
      if raised {
        log := log.(raised := log.raised + [thread]);
      } else {
        submitting := submitting + {thread};
      }
    }

    method EnqueueRequest(item: QueueItem)
      modifies this
      ensures State() == EnqueueItem(old(State()), item)
    {
      requestQueue := requestQueue + [item];
      submitting := submitting - {item.threadId};
      log := log.(enqueued := log.enqueued + [item]);
    }

    /** Starts a getter for each queue; each runs up to its first suspension. */
    method StartGetters()
      requires worker.Idle? && pendingRequests == []
      modifies this
      ensures State() == Apply(config, old(State()), StartFetch)
    {
      worker := Fetching(None, None);
      if requestQueue != [] {
        RunRequestGetter();
      }
      if retryQueue != [] {
        RunRetryGetter();
      }
    }

    method RunRequestGetter()
      requires worker.Fetching? && worker.requested.None? && requestQueue != []
      modifies this
      ensures State() == Apply(config, old(State()), RunGetter(false))
    {
      worker := worker.(requested := Some(requestQueue[0]));
      log := log.(fetched := log.fetched + [requestQueue[0]]);
      requestQueue := requestQueue[1..];
    }

    method RunRetryGetter()
      requires worker.Fetching? && worker.retried.None? && retryQueue != []
      modifies this
      ensures State() == Apply(config, old(State()), RunGetter(true))
    {
      worker := worker.(retried := Some(retryQueue[0]));
      retryQueue := retryQueue[1..];
    }

    /** Collects what the getters took; the retry queue's item is put first. */
    method GetQueuedRequests()
      requires worker.Fetching? && (worker.retried.Some? || worker.requested.Some?)
      modifies this
      ensures State() == Apply(config, old(State()), EndFetch)
    {
      var queueItems: seq<QueueItem> := [];
      if worker.retried.Some? {
        queueItems := queueItems + [worker.retried.value];
      }
      if worker.requested.Some? {
        queueItems := queueItems + [worker.requested.value];
      }
      pendingRequests := queueItems;
      worker := Visiting(0, []);
    }

    /** Another pass over the requests that are still pending. */
    method StartPass()
      requires worker.Idle? && pendingRequests != []
      modifies this
      ensures State() == Apply(config, old(State()), BeginPass)
    {
      worker := Visiting(0, []);
    }

    method RegisterThreadException(item: QueueItem)
      modifies this
      ensures State() == Fail(old(State()), item)
    {
      if item.future !in futures {
        futures := futures[item.future := Exception];
      }
      threadExceptions := threadExceptions + {item.threadId};
      log := log.(resolved := log.resolved + [item]);
    }

    method MaybeBackoff(index: nat, processed: seq<QueueItem>, now: real)
      modifies this
      ensures State() == Dispatch.MaybeBackoff(config, old(State()), index, processed, now)
    {
      if lastTransientExceptionTime <= 0.0 {
        worker := Visiting(index + 1, processed);
        return;
      }
      var backoffTime := BackoffTime(config, numBackoffs);
      var sinceLastTransient := now - lastTransientExceptionTime;
      if sinceLastTransient < backoffTime {
        worker := BackingOff(index, processed, now + (backoffTime - sinceLastTransient));
        log := log.(slept := log.slept + (backoffTime - sinceLastTransient));
      } else {
        worker := Visiting(index + 1, processed);
      }
    }

    method CheckLimiter(estimate: TokenEstimate, now: real) returns (verdict: Verdict)
      requires Valid()
      modifies this`limiter, this`log, Repr(rateLimitStrategy)
      ensures Valid() && fresh(Repr(rateLimitStrategy) - old(Repr(rateLimitStrategy)))
      ensures State() == Called(old(State()), CheckCall(estimate, now))
      ensures verdict == Check(old(limiter), estimate, now).1
    {
      verdict := CheckAndConsumeRateLimit(rateLimitStrategy, estimate, now);
      limiter := LimiterValue(rateLimitStrategy);
      log := log.(calls := log.calls + [CheckCall(estimate, now)]);
    }

    method SettleUsage(reserved: TokenEstimate, actual: TokenEstimate, now: real)
      requires Valid()
      modifies this`limiter, this`log, Repr(rateLimitStrategy)
      ensures Valid() && Repr(rateLimitStrategy) == old(Repr(rateLimitStrategy))
      ensures State() == Called(old(State()), SettleCall(reserved, actual, now))
    {
      SettleLimiter(rateLimitStrategy, reserved, actual, now);
      limiter := LimiterValue(rateLimitStrategy);
      log := log.(calls := log.calls + [SettleCall(reserved, actual, now)]);
    }

    method DrainLimiter(now: real)
      requires Valid()
      modifies this`limiter, this`log, Repr(rateLimitStrategy)
      ensures Valid() && fresh(Repr(rateLimitStrategy) - old(Repr(rateLimitStrategy)))
      ensures State() == Called(old(State()), BackoffCall(now))
    {
      BackoffLimiter(rateLimitStrategy, now);
      limiter := LimiterValue(rateLimitStrategy);
      log := log.(calls := log.calls + [BackoffCall(now)]);
    }

    /** One iteration of the pass over the pending requests, up to its first suspension. */
    method VisitPending(now: real)
      requires Valid() && worker.Visiting? && worker.index < |pendingRequests|
      modifies this, Repr(rateLimitStrategy)
      ensures Valid() && fresh(Repr(rateLimitStrategy) - old(Repr(rateLimitStrategy)))
      ensures State() == VisitItem(config, old(State()).(clock := now), now)
    {
      clock := now;
      var queueItem := pendingRequests[worker.index];
      var verdict := CheckLimiter(queueItem.estimate, now);
      TakeTurn(verdict, now);
    }

    /** Starts the request, waits for the limiter, or fails it. */
    method TakeTurn(verdict: Verdict, now: real)
      requires worker.Visiting? && worker.index < |pendingRequests|
      modifies this
      ensures State() == Turn(config, old(State()), verdict, now)
    {
      var Visiting(index, processed) := worker;
      var queueItem := pendingRequests[index];
      match verdict
      case Admitted =>
        inflightRequests := inflightRequests + [queueItem];
        log := log.(dispatches := log.dispatches + 1);
        MaybeBackoff(index, processed + [queueItem], now);
      case Refused =>
        worker := AwaitingRefill(index, processed);
      case Rejected =>
        RegisterThreadException(queueItem);
        worker := Visiting(index + 1, processed + [queueItem]);
    }

    method AfterRefill(now: real)
      requires worker.AwaitingRefill?
      modifies this
      ensures State()
           == Dispatch.MaybeBackoff(config, old(State()).(clock := now), old(worker).index, old(worker).processed, now)
    {
      clock := now;
      MaybeBackoff(worker.index, worker.processed, now);
    }

    method AfterBackoff(now: real)
      requires Valid() && worker.BackingOff?
      modifies this, Repr(rateLimitStrategy)
      ensures Valid() && fresh(Repr(rateLimitStrategy) - old(Repr(rateLimitStrategy)))
      ensures State() == WakeUp(old(State()).(clock := now), now)
    {
      clock := now;
      numBackoffs := numBackoffs + 1;
      lastTransientExceptionTime := 0.0;
      worker := Visiting(worker.index + 1, worker.processed);
      DrainLimiter(now);
    }

    /** The end of a pass: the processed requests are removed from the pending ones. */
    method EndPass()
      requires worker.Visiting? && multiset(worker.processed) <= multiset(pendingRequests)
      modifies this
      ensures State() == Dispatch.EndPass(old(State()))
    {
      pendingRequests := RemoveProcessed(pendingRequests, worker.processed);
      worker := Idle;
    }

    /** The end of a task: retry, fail, or settle and set the result. */
    method HandleResponse(task: nat, outcome: Outcome, now: real)
      requires Valid() && task < |inflightRequests|
      modifies this, Repr(rateLimitStrategy)
      ensures Valid() && Repr(rateLimitStrategy) == old(Repr(rateLimitStrategy))
      ensures State() == CompleteTask(config, old(State()).(clock := now), task, outcome, now)
    {
      clock := now;
      var queueItem := inflightRequests[task];
      inflightRequests := RemoveAt(inflightRequests, task);
      if outcome.Ok? {
        DeliverResponse(queueItem, outcome.response, outcome.usage, now);
      } else {
        HandleFailure(queueItem, outcome, now);
      }
    }

    method HandleFailure(queueItem: QueueItem, outcome: Outcome, now: real)
      requires Valid() && !outcome.Ok?
      modifies this
      ensures Valid() && Repr(rateLimitStrategy) == old(Repr(rateLimitStrategy))
      ensures State() == Abandon(FailTask(config, old(State()), queueItem, outcome, now), queueItem)
    {
      RetryOrFail(queueItem, outcome, now);
      log := log.(abandoned := log.abandoned + multiset{queueItem.estimate});
    }

    method RetryOrFail(queueItem: QueueItem, outcome: Outcome, now: real)
      requires !outcome.Ok?
      modifies this
      ensures State() == FailTask(config, old(State()), queueItem, outcome, now)
    {
      match outcome
      case TimedOut =>
        retryQueue := retryQueue + [queueItem];
      case TransientError =>
        if numBackoffs >= config.maxBackoffs {
          RegisterThreadException(queueItem);
        } else {
          retryQueue := retryQueue + [queueItem];
          lastTransientExceptionTime := now;
        }
      case FatalError =>
        RegisterThreadException(queueItem);
    }

    method DeliverResponse(queueItem: QueueItem, response: nat, usage: Option<TokenEstimate>, now: real)
      requires Valid()
      modifies this, Repr(rateLimitStrategy)
      ensures Valid() && Repr(rateLimitStrategy) == old(Repr(rateLimitStrategy))
      ensures State() == Deliver(old(State()), queueItem, response, usage, now)
    {
      if usage.Some? && queueItem.estimate.TotalTokens() > 0 {
        SettleUsage(queueItem.estimate, usage.value, now);
      } else {
        log := log.(abandoned := log.abandoned + multiset{queueItem.estimate});
      }
      if queueItem.future !in futures {
        futures := futures[queueItem.future := Result(response)];
      }
      log := log.(resolved := log.resolved + [queueItem]);
    }
  }
}
