/** Two runs from the start that end where the client's documentation says they do not. */
module DispatchRuns {
  import opened Wrappers
  import TokenBuckets
  import opened Strategies
  import opened Dispatch

  const CONFIG: Config := Config(0, 1.0, 2.0, 10)

  const FIRST: QueueItem := QueueItem(1, 1, TokenEstimate(1, 0))

  const SECOND: QueueItem := QueueItem(2, 1, TokenEstimate(1, 0))

  function Limiter(requests: int, tokens: int): Strategy {
    Unified(10, TokenBuckets.Bucket(10, requests, 1.0), 100, TokenBuckets.Bucket(100, tokens, 1.0))
  }

  function Start(): Client { Initial(Limiter(10, 100), 1.0) }

  lemma StartIsConstructed()
    ensures NewUnified(10, 100, 1.0) == Some(Limiter(10, 100))
  {
  }

  /** The state is reached by the schedule from the start. */
  predicate ReachedBy(s: Client, schedule: seq<Action>) { RunFrom(CONFIG, Start(), schedule) == s }

  lemma OneMore(s: Client, schedule: seq<Action>, a: Action) returns (longer: seq<Action>)
    requires ReachedBy(s, schedule) && Enabled(CONFIG, s, a)
    ensures ReachedBy(Apply(CONFIG, s, a), longer) && longer == schedule + [a]
  {
    longer := schedule + [a];
    RunAppends(CONFIG, Start(), schedule, a);
  }

  lemma AdmitsOne(requests: int, tokens: int)
    requires 1 <= requests <= 10 && 1 <= tokens <= 100
    ensures Check(Limiter(requests, tokens), TokenEstimate(1, 0), 1.0) == (Limiter(requests - 1, tokens - 1), Admitted)
  {
    assert TokenBuckets.Refill(TokenBuckets.Bucket(10, requests, 1.0), 1.0) == 0;
    assert TokenBuckets.Refill(TokenBuckets.Bucket(100, tokens, 1.0), 1.0) == 0;
  }

  /** The thread's first request is enqueued. */
  lemma EnqueueOne(s: Client, schedule: seq<Action>, item: QueueItem) returns (s': Client, longer: seq<Action>)
    requires ReachedBy(s, schedule) && s.submitting == {} && s.threadExceptions == {}
    requires forall i :: 0 <= i < |s.log.enqueued| ==> s.log.enqueued[i].future != item.future
    ensures ReachedBy(s', longer)
    ensures s' == s.(requestQueue := s.requestQueue + [item], submitting := s'.submitting, log := s'.log)
    ensures s'.submitting == {} && s'.log == s.log.(enqueued := s.log.enqueued + [item])
  {
    longer := OneMore(s, schedule, CheckThread(item.threadId));
    var checked := Apply(CONFIG, s, CheckThread(item.threadId));
    longer := OneMore(checked, longer, Enqueue(item));
    s' := Apply(CONFIG, checked, Enqueue(item));
  }

  /** The places a state has its items in, with the clock at one second. */
  predicate Stands(s: Client, requests: seq<QueueItem>, retries: seq<QueueItem>, pending: seq<QueueItem>,
                   worker: Worker, inflight: seq<QueueItem>) {
    && s.requestQueue == requests && s.retryQueue == retries && s.pending == pending && s.worker == worker
    && s.inflight == inflight && s.clock == 1.0 && s.numBackoffs == 0
    && s.submitting == {} && s.threadExceptions == {}
  }

  /** The first request has a task, and no error has been seen. */
  lemma FirstIsLive() returns (s: Client, schedule: seq<Action>)
    ensures ReachedBy(s, schedule) && Stands(s, [], [], [], Idle, [FIRST])
    ensures s.lastTransient == 0.0 && s.limiter == Limiter(9, 99) && s.log.enqueued == [FIRST]
  {
    schedule := [];
    s, schedule := EnqueueOne(Start(), schedule, FIRST);
    s, schedule := Took(s, schedule, StartFetch);
    s, schedule := Took(s, schedule, EndFetch);
    AdmitsOne(10, 100);
    s, schedule := Took(s, schedule, Visit(1.0));
    assert s.pending == [FIRST] && s.worker == Visiting(1, [FIRST]);
    RemainsNothing(FIRST);
    s, schedule := Took(s, schedule, FinishPass);
  }

  lemma RemainsNothing(item: QueueItem)
    ensures Remaining([item], [item]) == []
  {
    assert [item][..0] == [] && [item][1..] == [];
  }

  lemma Took(s: Client, schedule: seq<Action>, a: Action) returns (s': Client, longer: seq<Action>)
    requires ReachedBy(s, schedule) && Enabled(CONFIG, s, a)
    ensures s' == Apply(CONFIG, s, a) && ReachedBy(s', longer)
  {
    longer := OneMore(s, schedule, a);
    s' := Apply(CONFIG, s, a);
  }

  /** The first request has met a transient error and is the only one of the next pass. */
  lemma RetriedIsPending() returns (s: Client, schedule: seq<Action>)
    ensures ReachedBy(s, schedule) && Stands(s, [], [], [FIRST], Visiting(0, []), [])
    ensures s.lastTransient == 1.0 && s.limiter == Limiter(9, 99)
  {
    s, schedule := FirstIsLive();
    s, schedule := Took(s, schedule, Complete(0, TransientError, 1.0));
    s, schedule := Took(s, schedule, StartFetch);
    s, schedule := Took(s, schedule, EndFetch);
  }

  /** The worker sleeps after a transient error, and the retried request is live again. */
  lemma BackingOffWithLiveTask() returns (s: Client, schedule: seq<Action>)
    ensures ReachedBy(s, schedule) && Stands(s, [], [], [FIRST], BackingOff(0, [FIRST], 2.0), [FIRST])
    ensures s.lastTransient == 1.0
  {
    s, schedule := RetriedIsPending();
    AdmitsOne(9, 99);
    s, schedule := Took(s, schedule, Visit(1.0));
    assert Power(2.0, 0) == 1.0;
  }

  /** An error that arrives during the sleep is recorded, and the end of the sleep erases it: the worker
    * goes on at once, although the last error is only half a second old. */
  lemma ErrorDuringBackoffIsErased() returns (during: Client, schedule: seq<Action>)
    ensures ReachedBy(during, schedule) && during.worker.BackingOff?
    ensures Enabled(CONFIG, during, Complete(0, TransientError, 1.5))
    ensures var failed := Apply(CONFIG, during, Complete(0, TransientError, 1.5));
            && failed.lastTransient == 1.5 && failed.retryQueue == [FIRST] && Enabled(CONFIG, failed, EndBackoff(2.0))
            && var ended := Apply(CONFIG, failed, EndBackoff(2.0));
               ended.lastTransient == 0.0 && ended.retryQueue == [FIRST] && ended.worker.Visiting?
  {
    during, schedule := BackingOffWithLiveTask();
  }

  /** A new request leaves its queue although a request waits to be retried: both are in one pass. */
  lemma BothQueuesAreFetched() returns (before: Client, schedule: seq<Action>)
    ensures ReachedBy(before, schedule) && before.retryQueue == [FIRST] && before.requestQueue == [SECOND]
    ensures Enabled(CONFIG, before, StartFetch) && Enabled(CONFIG, Apply(CONFIG, before, StartFetch), EndFetch)
    ensures var fetched := Apply(CONFIG, Apply(CONFIG, before, StartFetch), EndFetch);
            fetched.pending == [FIRST, SECOND] && fetched.requestQueue == []
  {
    before, schedule := FirstIsLive();
    before, schedule := Took(before, schedule, Complete(0, TimedOut, 1.0));
    before, schedule := EnqueueOne(before, schedule, SECOND);
  }
}
