/** The model client's dispatch protocol as a state machine.
  *
  * User threads enqueue items; one worker fetches them, asks the rate limiter for each, starts a task
  * for every admitted one, and backs off after transient errors; tasks finish in any order.  A step is
  * what runs between two suspending awaits, or less.  A dispatched item stays in `pending` until the
  * pass over `pending` ends, so the pass and what it has processed are part of the state. */
module Dispatch {
  import opened Wrappers
  import opened TokenBuckets
  import opened Strategies

  /** The future is the item's identity: every item is created with its own. */
  datatype QueueItem = QueueItem(future: nat, threadId: nat, estimate: TokenEstimate)

  datatype Resolution = Result(response: nat) | Exception

  /** How one call to the provider ended; the usage is present when the provider reported it. */
  datatype Outcome =
    | Ok(response: nat, usage: Option<TokenEstimate>)
    | TransientError
    | FatalError
    | TimedOut

  datatype Config = Config(queueSize: int, initialBackoff: real, backoffFactor: real, maxBackoffs: nat)

  /** Where the worker is suspended, or between which two items of a pass it stands.  While it fetches,
    * each of its two getters holds the item it took, until the worker collects them. */
  datatype Worker =
    | Idle
    | Fetching(retried: Option<QueueItem>, requested: Option<QueueItem>)
    | Visiting(index: nat, processed: seq<QueueItem>)
    | AwaitingRefill(index: nat, processed: seq<QueueItem>)
    | BackingOff(index: nat, processed: seq<QueueItem>, wakeAt: real)

  /** What has happened so far; no step reads it. */
  datatype Log = Log(enqueued: seq<QueueItem>, fetched: seq<QueueItem>, resolved: seq<QueueItem>,
                     calls: seq<Call>, abandoned: multiset<TokenEstimate>, dispatches: nat, slept: real,
                     raised: seq<nat>)

  /** `submitting` are the threads that have passed the check for a recorded exception and have not yet
    * enqueued or dropped the request they checked for. */
  datatype Client = Client(
    requestQueue: seq<QueueItem>,
    retryQueue: seq<QueueItem>,
    pending: seq<QueueItem>,
    worker: Worker,
    inflight: seq<QueueItem>,
    futures: map<nat, Resolution>,
    threadExceptions: set<nat>,
    submitting: set<nat>,
    limiter: Strategy,
    numBackoffs: nat,
    lastTransient: real,
    clock: real,
    log: Log)

  datatype Action =
    | CheckThread(thread: nat)
    | Skip(thread: nat)
    | Enqueue(item: QueueItem)
    | StartFetch
    | RunGetter(retry: bool)
    | EndFetch
    | BeginPass
    | Visit(now: real)
    | Refilled(now: real)
    | EndBackoff(now: real)
    | FinishPass
    | Complete(task: nat, outcome: Outcome, now: real)
    | Hint(rpmHint: Option<int>, retryAt: Option<real>, now: real)

  // ---------------------------------------------------------------- backoff times

  function Power(x: real, n: nat): real {
    if n == 0 then 1.0 else x * Power(x, n - 1)
  }

  function BackoffTime(c: Config, iteration: nat): real {
    var backoff := c.initialBackoff * Power(c.backoffFactor, iteration);
    if backoff <= MINUTE_IN_SECONDS then backoff else MINUTE_IN_SECONDS
  }

  /** The longest time the first `n` backoffs can take together. */
  function BackoffBudget(c: Config, n: nat): real {
    if n == 0 then 0.0 else BackoffBudget(c, n - 1) + BackoffTime(c, n - 1)
  }

  predicate ValidConfig(c: Config) { c.initialBackoff >= 0.0 && c.backoffFactor >= 0.0 }

  lemma {:induction false} PowerIsNonNegative(x: real, n: nat)
    requires x >= 0.0
    ensures Power(x, n) >= 0.0
  {
    if n > 0 {
      PowerIsNonNegative(x, n - 1);
    }
  }

  lemma BackoffTimeInRange(c: Config, iteration: nat)
    requires ValidConfig(c)
    ensures 0.0 <= BackoffTime(c, iteration) <= MINUTE_IN_SECONDS
  {
    PowerIsNonNegative(c.backoffFactor, iteration);
    assert c.initialBackoff * Power(c.backoffFactor, iteration) >= 0.0;
  }

  lemma {:induction false} BackoffBudgetIsMonotone(c: Config, m: nat, n: nat)
    requires ValidConfig(c) && m <= n
    ensures BackoffBudget(c, m) <= BackoffBudget(c, n) <= BackoffBudget(c, m) + 60.0 * (n - m) as real
  {
    if m < n {
      BackoffBudgetIsMonotone(c, m, n - 1);
      BackoffTimeInRange(c, n - 1);
    }
  }

  // ---------------------------------------------------------------- the steps

  function Initial(limiter: Strategy, now: real): Client {
    Client([], [], [], Idle, [], map[], {}, {}, limiter, 0, 0.0, now,
           Log([], [], [], [], multiset{}, 0, 0.0, []))
  }

  /** The items of a pass that it has dealt with. */
  function Processed(w: Worker): seq<QueueItem> {
    if InPass(w) then w.processed else []
  }

  predicate InPass(w: Worker) { w.Visiting? || w.AwaitingRefill? || w.BackingOff? }

  function Slot(o: Option<QueueItem>): seq<QueueItem> {
    if o.Some? then [o.value] else []
  }

  /** The items the getters hold, the retried one first. */
  function Held(w: Worker): seq<QueueItem> {
    if w.Fetching? then Slot(w.retried) + Slot(w.requested) else []
  }

  function RemoveAt<T>(s: seq<T>, k: nat): seq<T>
    requires k < |s|
  {
    s[..k] + s[k + 1..]
  }

  function RemoveFirst<T(==)>(s: seq<T>, x: T): seq<T> {
    if s == [] then []
    else if s[0] == x then s[1..]
    else [s[0]] + RemoveFirst(s[1..], x)
  }

  /** `pending` after a pass: one removal for each processed item. */
  function Remaining<T(==)>(pending: seq<T>, processed: seq<T>): seq<T> {
    if processed == [] then pending
    else RemoveFirst(Remaining(pending, processed[..|processed| - 1]), processed[|processed| - 1])
  }

  function Fail(s: Client, item: QueueItem): Client {
    s.(futures := if item.future in s.futures then s.futures else s.futures[item.future := Exception],
       threadExceptions := s.threadExceptions + {item.threadId},
       log := s.log.(resolved := s.log.resolved + [item]))
  }

  function Called(s: Client, call: Call): Client {
    s.(limiter := Step(s.limiter, call), log := s.log.(calls := s.log.calls + [call]))
  }

  /** The end of one item's turn: back off if a transient error is recent, else go on. */
  function MaybeBackoff(c: Config, s: Client, index: nat, processed: seq<QueueItem>, now: real): Client {
    var backoffTime := BackoffTime(c, s.numBackoffs);
    var elapsed := now - s.lastTransient;
    if s.lastTransient > 0.0 && elapsed < backoffTime then
      s.(worker := BackingOff(index, processed, now + (backoffTime - elapsed)),
         log := s.log.(slept := s.log.slept + (backoffTime - elapsed)))
    else s.(worker := Visiting(index + 1, processed))
  }

  predicate Tick(s: Client, now: real) { s.clock <= now && 0.0 < now }

  predicate Enabled(c: Config, s: Client, a: Action) {
    match a
    case CheckThread(thread) => thread !in s.submitting
    case Skip(thread) => thread in s.submitting
    case Enqueue(item) =>
      item.threadId in s.submitting && (c.queueSize <= 0 || |s.requestQueue| < c.queueSize)
      && forall i :: 0 <= i < |s.log.enqueued| ==> s.log.enqueued[i].future != item.future
    case StartFetch => s.worker.Idle? && s.pending == []
    case RunGetter(retry) =>
      && s.worker.Fetching?
      && if retry then s.worker.retried.None? && s.retryQueue != []
         else s.worker.requested.None? && s.requestQueue != []
    case EndFetch => Held(s.worker) != []
    case BeginPass => s.worker.Idle? && s.pending != []
    case Visit(now) => Tick(s, now) && s.worker.Visiting? && s.worker.index < |s.pending|
    case Refilled(now) => Tick(s, now) && s.worker.AwaitingRefill?
    case EndBackoff(now) => Tick(s, now) && s.worker.BackingOff? && s.worker.wakeAt <= now
    case FinishPass => s.worker.Visiting? && s.worker.index == |s.pending|
    case Complete(task, _, now) => Tick(s, now) && task < |s.inflight|
    case Hint(_, _, now) => Tick(s, now) && s.limiter.Adaptive?
  }

  function Apply(c: Config, s: Client, a: Action): Client
    requires Enabled(c, s, a)
  {
    match a
    case CheckThread(thread) => CheckException(s, thread)
    case Skip(thread) => s.(submitting := s.submitting - {thread})
    case Enqueue(item) => EnqueueItem(s, item)
    case StartFetch => StartGetters(s)
    case RunGetter(retry) => if retry then GetRetried(s) else GetRequested(s)
    case EndFetch => Collect(s)
    case BeginPass => s.(worker := Visiting(0, []))
    case Visit(now) => VisitItem(c, s.(clock := now), now)
    case Refilled(now) => MaybeBackoff(c, s.(clock := now), s.worker.index, s.worker.processed, now)
    case EndBackoff(now) => WakeUp(s.(clock := now), now)
    case FinishPass => EndPass(s)
    case Complete(task, outcome, now) => CompleteTask(c, s.(clock := now), task, outcome, now)
    case Hint(rpmHint, retryAt, now) => Called(s.(clock := now), HintCall(rpmHint, retryAt, now))
  }

  function EnqueueItem(s: Client, item: QueueItem): Client {
    s.(requestQueue := s.requestQueue + [item], submitting := s.submitting - {item.threadId},
       log := s.log.(enqueued := s.log.enqueued + [item]))
  }

  /** The end of a backoff sleep. */
  function WakeUp(s: Client, now: real): Client
    requires s.worker.BackingOff?
  {
    Called(s.(numBackoffs := s.numBackoffs + 1, lastTransient := 0.0,
              worker := Visiting(s.worker.index + 1, s.worker.processed)), BackoffCall(now))
  }

  function EndPass(s: Client): Client
    requires s.worker.Visiting?
  {
    s.(pending := Remaining(s.pending, s.worker.processed), worker := Idle)
  }

  /** The start of each request's submission: a recorded exception is raised, and otherwise the thread
    * goes on to enqueue the request, or to skip it when it needs none. */
  function CheckException(s: Client, thread: nat): Client {
    if thread in s.threadExceptions then s.(log := s.log.(raised := s.log.raised + [thread]))
    else s.(submitting := s.submitting + {thread})
  }

  /** The first step of each getter: it takes an item at once if its queue has one, and waits otherwise. */
  function StartGetters(s: Client): Client {
    GetRetried(GetRequested(s.(worker := Fetching(None, None))))
  }

  function Head(queue: seq<QueueItem>): Option<QueueItem> {
    if queue == [] then None else Some(queue[0])
  }

  function Rest(queue: seq<QueueItem>): seq<QueueItem> {
    if queue == [] then [] else queue[1..]
  }

  function GetRetried(s: Client): Client
    requires s.worker.Fetching?
  {
    s.(worker := s.worker.(retried := Head(s.retryQueue)), retryQueue := Rest(s.retryQueue))
  }

  function GetRequested(s: Client): Client
    requires s.worker.Fetching?
  {
    s.(worker := s.worker.(requested := Head(s.requestQueue)), requestQueue := Rest(s.requestQueue),
       log := s.log.(fetched := s.log.fetched + Slot(Head(s.requestQueue))))
  }

  /** The worker wakes up when a getter is done, and cancels the other one, which loses nothing. */
  function Collect(s: Client): Client {
    s.(pending := Held(s.worker), worker := Visiting(0, []))
  }

  function VisitItem(c: Config, s: Client, now: real): Client
    requires s.worker.Visiting? && s.worker.index < |s.pending|
  {
    var estimate := s.pending[s.worker.index].estimate;
    Turn(c, Called(s, CheckCall(estimate, now)), Check(s.limiter, estimate, now).1, now)
  }

  /** An item's turn, once the limiter has answered. */
  function Turn(c: Config, s: Client, verdict: Verdict, now: real): Client
    requires s.worker.Visiting? && s.worker.index < |s.pending|
  {
    var Visiting(index, processed) := s.worker;
    var item := s.pending[index];
    match verdict
    case Admitted =>
      var started := s.(inflight := s.inflight + [item], log := s.log.(dispatches := s.log.dispatches + 1));
      MaybeBackoff(c, started, index, processed + [item], now)
    case Refused => s.(worker := AwaitingRefill(index, processed))
    case Rejected => Fail(s, item).(worker := Visiting(index + 1, processed + [item]))
  }

  function Abandon(s: Client, item: QueueItem): Client {
    s.(log := s.log.(abandoned := s.log.abandoned + multiset{item.estimate}))
  }

  function CompleteTask(c: Config, s: Client, task: nat, outcome: Outcome, now: real): Client
    requires task < |s.inflight|
  {
    var item := s.inflight[task];
    var done := s.(inflight := RemoveAt(s.inflight, task));
    if outcome.Ok? then Deliver(done, item, outcome.response, outcome.usage, now)
    else Abandon(FailTask(c, done, item, outcome, now), item)
  }

  /** A timeout is always retried, a transient error while the budget lasts, a fatal error never. */
  function FailTask(c: Config, s: Client, item: QueueItem, outcome: Outcome, now: real): Client
    requires !outcome.Ok?
  {
    match outcome
    case TimedOut => s.(retryQueue := s.retryQueue + [item])
    case TransientError =>
      if s.numBackoffs >= c.maxBackoffs then Fail(s, item)
      else s.(retryQueue := s.retryQueue + [item], lastTransient := now)
    case FatalError => Fail(s, item)
  }

  /** A response settles its reservation, when usage is known, and sets the future. */
  function Deliver(s: Client, item: QueueItem, response: nat, usage: Option<TokenEstimate>, now: real): Client {
    var settled :=
      if usage.Some? && item.estimate.TotalTokens() > 0
      then Called(s, SettleCall(item.estimate, usage.value, now))
      else Abandon(s, item);
    settled.(futures := if item.future in s.futures then s.futures
                        else s.futures[item.future := Result(response)],
             log := settled.log.(resolved := s.log.resolved + [item]))
  }

  // ---------------------------------------------------------------- conservation of items

  /** Every place an item can be, with the dispatched items of a pass taken out of `pending`. */
  ghost function Located(s: Client): multiset<QueueItem> {
    multiset(s.requestQueue) + multiset(s.retryQueue) + multiset(Held(s.worker))
    + (multiset(s.pending) - multiset(Processed(s.worker)))
    + multiset(s.inflight) + multiset(s.log.resolved)
  }

  ghost predicate DistinctFutures(items: seq<QueueItem>) {
    forall i, j :: 0 <= i < j < |items| ==> items[i].future != items[j].future
  }

  /** How far into `pending` the processed items can reach. */
  function Reach(w: Worker): nat
    requires InPass(w)
  {
    if w.BackingOff? then w.index + 1 else w.index
  }

  ghost predicate PassInv(s: Client) {
    && (s.worker.Fetching? ==> s.pending == [])
    && (InPass(s.worker) ==>
      && Reach(s.worker) <= |s.pending|
      && (s.worker.AwaitingRefill? ==> s.worker.index < |s.pending|)
      && multiset(s.worker.processed) <= multiset(s.pending[..Reach(s.worker)]))
  }

  ghost predicate Conserved(s: Client) {
    && PassInv(s)
    && Located(s) == multiset(s.log.enqueued)
    && DistinctFutures(s.log.enqueued)
  }

  lemma SplitFirst<T>(s: seq<T>)
    requires s != []
    ensures multiset(s) == multiset(s[..1]) + multiset(s[1..])
  {
    assert s == s[..1] + s[1..];
  }

  lemma RemoveAtTakesOne<T>(s: seq<T>, k: nat)
    requires k < |s|
    ensures multiset(s) == multiset(RemoveAt(s, k)) + multiset{s[k]}
  {
    assert s == s[..k] + [s[k]] + s[k + 1..];
  }

  lemma PrefixGrows<T>(s: seq<T>, i: nat)
    requires i < |s|
    ensures multiset(s[..i + 1]) == multiset(s[..i]) + multiset{s[i]}
    ensures multiset(s) == multiset(s[..i]) + multiset(s[i..])
  {
    assert s[..i + 1] == s[..i] + [s[i]];
    assert s == s[..i] + s[i..];
  }

  lemma PassAdvances(pending: seq<QueueItem>, processed: seq<QueueItem>, index: nat)
    requires index < |pending| && multiset(processed) <= multiset(pending[..index])
    ensures multiset(processed) <= multiset(pending[..index + 1]) <= multiset(pending)
    ensures multiset(processed + [pending[index]]) <= multiset(pending[..index + 1])
    ensures multiset(processed + [pending[index]]) == multiset(processed) + multiset{pending[index]}
    ensures multiset(pending) - multiset(processed)
         == (multiset(pending) - multiset(processed + [pending[index]])) + multiset{pending[index]}
  {
    PrefixGrows(pending, index);
    if index + 1 < |pending| {
      PrefixGrows(pending, index + 1);
    } else {
      assert pending[..index + 1] == pending;
    }
  }

  lemma {:induction false} RemoveFirstTakesOne<T>(s: seq<T>, x: T)
    requires x in s
    ensures multiset(RemoveFirst(s, x)) == multiset(s) - multiset{x}
  {
    assert s == [s[0]] + s[1..];
    if s[0] != x {
      RemoveFirstTakesOne(s[1..], x);
      assert x in multiset(s[1..]);
    }
  }

  /** Every processed item is found: the pass removes exactly the processed items. */
  lemma {:induction false} RemainingTakesProcessed<T>(pending: seq<T>, processed: seq<T>)
    requires multiset(processed) <= multiset(pending)
    ensures multiset(Remaining(pending, processed)) == multiset(pending) - multiset(processed)
    ensures processed != [] ==>
              processed[|processed| - 1] in Remaining(pending, processed[..|processed| - 1])
  {
    if processed != [] {
      var front, last := processed[..|processed| - 1], processed[|processed| - 1];
      assert processed == front + [last];
      assert multiset(processed) == multiset(front) + multiset{last};
      RemainingTakesProcessed(pending, front);
      assert last in multiset(Remaining(pending, front));
      RemoveFirstTakesOne(Remaining(pending, front), last);
    }
  }

  /** An item that leaves the waiting part of `pending` for a task or for its result. */
  lemma TurnMovesItem(s: Client, s': Client, item: QueueItem)
    requires Conserved(s) && PassInv(s') && s'.log.enqueued == s.log.enqueued
    requires s'.requestQueue == s.requestQueue && s'.retryQueue == s.retryQueue
    requires Held(s'.worker) == Held(s.worker)
    requires multiset(s.pending) - multiset(Processed(s.worker))
          == (multiset(s'.pending) - multiset(Processed(s'.worker))) + multiset{item}
    requires || (s'.inflight == s.inflight + [item] && s'.log.resolved == s.log.resolved)
             || (s'.inflight == s.inflight && s'.log.resolved == s.log.resolved + [item])
    ensures Conserved(s')
  {
    assert multiset(s.inflight + [item]) == multiset(s.inflight) + multiset{item};
    assert multiset(s.log.resolved + [item]) == multiset(s.log.resolved) + multiset{item};
    assert Located(s') == Located(s);
  }

  /** An item whose task ends goes to the retry queue or to its result. */
  lemma EndMovesItem(s: Client, s': Client, task: nat)
    requires Conserved(s) && s'.log.enqueued == s.log.enqueued
    requires task < |s.inflight| && s'.inflight == RemoveAt(s.inflight, task)
    requires s'.requestQueue == s.requestQueue && s'.pending == s.pending && s'.worker == s.worker
    requires || (s'.retryQueue == s.retryQueue + [s.inflight[task]] && s'.log.resolved == s.log.resolved)
             || (s'.retryQueue == s.retryQueue && s'.log.resolved == s.log.resolved + [s.inflight[task]])
    ensures Conserved(s')
  {
    var item := s.inflight[task];
    RemoveAtTakesOne(s.inflight, task);
    assert multiset(s.retryQueue + [item]) == multiset(s.retryQueue) + multiset{item};
    assert multiset(s.log.resolved + [item]) == multiset(s.log.resolved) + multiset{item};
    assert Located(s') == Located(s);
  }

  lemma AdmittedConserves(c: Config, s: Client, now: real)
    requires Conserved(s) && s.worker.Visiting? && s.worker.index < |s.pending|
    ensures Conserved(Turn(c, s, Admitted, now))
  {
    var Visiting(index, processed) := s.worker;
    var item, s' := s.pending[index], Turn(c, s, Admitted, now);
    PassAdvances(s.pending, processed, index);
    assert Processed(s'.worker) == processed + [item] && Reach(s'.worker) == index + 1;
    TurnMovesItem(s, s', item);
  }

  lemma RejectedConserves(c: Config, s: Client, now: real)
    requires Conserved(s) && s.worker.Visiting? && s.worker.index < |s.pending|
    ensures Conserved(Turn(c, s, Rejected, now))
  {
    var Visiting(index, processed) := s.worker;
    PassAdvances(s.pending, processed, index);
    TurnMovesItem(s, Turn(c, s, Rejected, now), s.pending[index]);
  }

  /** Steps that touch the limiter, the clock or the place in the pass only. */
  lemma SamePlaces(s: Client, s': Client)
    requires Conserved(s) && PassInv(s')
    requires s'.requestQueue == s.requestQueue && s'.retryQueue == s.retryQueue
    requires s'.pending == s.pending && Processed(s'.worker) == Processed(s.worker)
    requires Held(s'.worker) == Held(s.worker) && s'.inflight == s.inflight
    requires s'.log.resolved == s.log.resolved && s'.log.enqueued == s.log.enqueued
    ensures Conserved(s')
  {
  }

  lemma VisitConserves(c: Config, s: Client, now: real)
    requires Conserved(s) && Enabled(c, s, Visit(now))
    ensures Conserved(Apply(c, s, Visit(now)))
  {
    var estimate := s.pending[s.worker.index].estimate;
    var called := Called(s.(clock := now), CheckCall(estimate, now));
    SamePlaces(s, called);
    match Check(s.limiter, estimate, now).1
    case Admitted => AdmittedConserves(c, called, now);
    case Refused => SamePlaces(called, Turn(c, called, Refused, now));
    case Rejected => RejectedConserves(c, called, now);
  }

  lemma RefilledConserves(c: Config, s: Client, now: real)
    requires Conserved(s) && Enabled(c, s, Refilled(now))
    ensures Conserved(Apply(c, s, Refilled(now)))
  {
    PassAdvances(s.pending, s.worker.processed, s.worker.index);
    SamePlaces(s, Apply(c, s, Refilled(now)));
  }

  /** What the end of a task does to the places of the items. */
  lemma CompleteMoves(c: Config, s: Client, task: nat, outcome: Outcome, now: real)
    requires task < |s.inflight|
    ensures var s', item := CompleteTask(c, s, task, outcome, now), s.inflight[task];
            && s'.requestQueue == s.requestQueue && s'.pending == s.pending && s'.worker == s.worker
            && s'.inflight == RemoveAt(s.inflight, task) && s'.log.enqueued == s.log.enqueued
            && ((s'.retryQueue == s.retryQueue + [item] && s'.log.resolved == s.log.resolved)
                || (s'.retryQueue == s.retryQueue && s'.log.resolved == s.log.resolved + [item]))
  {
  }

  lemma CompleteConserves(c: Config, s: Client, task: nat, outcome: Outcome, now: real)
    requires Conserved(s) && Enabled(c, s, Complete(task, outcome, now))
    ensures Conserved(Apply(c, s, Complete(task, outcome, now)))
  {
    CompleteMoves(c, s.(clock := now), task, outcome, now);
    EndMovesItem(s, Apply(c, s, Complete(task, outcome, now)), task);
  }

  /** A getter takes from the front of its queue. */
  lemma GetterMovesItem(queue: seq<QueueItem>)
    ensures multiset(queue) == multiset(Slot(Head(queue))) + multiset(Rest(queue))
  {
    if queue != [] {
      SplitFirst(queue);
      assert queue[..1] == [queue[0]];
    }
  }

  lemma HeldItems(w: Worker)
    requires w.Fetching?
    ensures multiset(Held(w)) == multiset(Slot(w.retried)) + multiset(Slot(w.requested))
  {
  }

  lemma GetRetriedConserves(s: Client)
    requires Conserved(s) && s.worker.Fetching? && s.worker.retried.None?
    ensures Conserved(GetRetried(s))
  {
    var s' := GetRetried(s);
    GetterMovesItem(s.retryQueue);
    HeldItems(s.worker);
    HeldItems(s'.worker);
    assert Located(s') == Located(s);
  }

  lemma GetRequestedConserves(s: Client)
    requires Conserved(s) && s.worker.Fetching? && s.worker.requested.None?
    ensures Conserved(GetRequested(s))
  {
    var s' := GetRequested(s);
    GetterMovesItem(s.requestQueue);
    HeldItems(s.worker);
    HeldItems(s'.worker);
    assert Located(s') == Located(s);
  }

  lemma StartFetchConserves(s: Client)
    requires Conserved(s) && s.worker.Idle? && s.pending == []
    ensures Conserved(StartGetters(s))
  {
    var s' := s.(worker := Fetching(None, None));
    SamePlaces(s, s');
    GetRequestedConserves(s');
    GetRetriedConserves(GetRequested(s'));
  }

  lemma EndFetchConserves(s: Client)
    requires Conserved(s) && s.worker.Fetching? && s.pending == []
    ensures Conserved(Collect(s))
  {
    MinusNothing(multiset(Held(s.worker)));
    MinusNothing(multiset(s.pending));
    assert Located(Collect(s)) == Located(s);
  }

  lemma MinusNothing(m: multiset<QueueItem>)
    ensures m - multiset([]) == m
  {
  }

  lemma EnqueueConserves(c: Config, s: Client, item: QueueItem)
    requires Conserved(s) && Enabled(c, s, Enqueue(item))
    ensures Conserved(Apply(c, s, Enqueue(item)))
  {
    NewItemIsQueued(s, EnqueueItem(s, item), item);
  }

  lemma NewItemIsQueued(s: Client, s': Client, item: QueueItem)
    requires Conserved(s) && DistinctFutures(s'.log.enqueued) && PassInv(s')
    requires s'.requestQueue == s.requestQueue + [item] && s'.log.enqueued == s.log.enqueued + [item]
    requires s'.retryQueue == s.retryQueue && s'.pending == s.pending && s'.worker == s.worker
    requires s'.inflight == s.inflight && s'.log.resolved == s.log.resolved
    ensures Conserved(s')
  {
    assert multiset(s.requestQueue + [item]) == multiset(s.requestQueue) + multiset{item};
    assert multiset(s.log.enqueued + [item]) == multiset(s.log.enqueued) + multiset{item};
  }

  lemma FinishPassConserves(c: Config, s: Client)
    requires Conserved(s) && Enabled(c, s, FinishPass)
    ensures Conserved(Apply(c, s, FinishPass))
  {
    FinishKeepsPlaces(s);
  }

  lemma FinishKeepsPlaces(s: Client)
    requires PassInv(s) && s.worker.Visiting? && s.worker.index == |s.pending|
    ensures Located(s.(pending := Remaining(s.pending, s.worker.processed), worker := Idle)) == Located(s)
  {
    assert s.pending[..|s.pending|] == s.pending;
    RemainingTakesProcessed(s.pending, s.worker.processed);
    MinusNothing(multiset(Remaining(s.pending, s.worker.processed)));
  }

  /** No step loses, duplicates or invents an item. */
  lemma StepConserves(c: Config, s: Client, a: Action)
    requires Conserved(s) && Enabled(c, s, a)
    ensures Conserved(Apply(c, s, a))
  {
    match a {
      case Enqueue(item) => EnqueueConserves(c, s, item);
      case StartFetch => StartFetchConserves(s);
      case RunGetter(retry) =>
        if retry {
          GetRetriedConserves(s);
        } else {
          GetRequestedConserves(s);
        }
      case EndFetch => EndFetchConserves(s);
      case Visit(now) => VisitConserves(c, s, now);
      case Refilled(now) => RefilledConserves(c, s, now);
      case FinishPass => FinishPassConserves(c, s);
      case Complete(task, outcome, now) => CompleteConserves(c, s, task, outcome, now);
      case _ => SamePlaces(s, Apply(c, s, a));
    }
  }

  // ---------------------------------------------------------------- one place, one task, one result

  lemma {:induction false} DistinctItemsOccurOnce(items: seq<QueueItem>, x: QueueItem)
    requires DistinctFutures(items)
    ensures multiset(items)[x] == if x in items then 1 else 0
  {
    if items != [] {
      DistinctItemsOccurOnce(items[1..], x);
      assert items == [items[0]] + items[1..];
    }
  }

  function Count(items: seq<QueueItem>, x: QueueItem): nat { multiset(items)[x] }

  function WaitingCount(s: Client, x: QueueItem): nat {
    (multiset(s.pending) - multiset(Processed(s.worker)))[x]
  }

  /** Every enqueued item is in exactly one place: a queue, a getter, the unprocessed part of the pass, a
    * live task, or among the resolved; nothing else is anywhere. */
  lemma EachItemInOnePlace(s: Client, x: QueueItem)
    requires Conserved(s)
    ensures Count(s.requestQueue, x) + Count(s.retryQueue, x) + Count(Held(s.worker), x) + WaitingCount(s, x)
            + Count(s.inflight, x) + Count(s.log.resolved, x)
         == if x in s.log.enqueued then 1 else 0
  {
    DistinctItemsOccurOnce(s.log.enqueued, x);
    assert Located(s)[x] == multiset(s.log.enqueued)[x];
  }

  lemma PlacedItemsWereEnqueued(s: Client, x: QueueItem)
    requires Conserved(s)
    requires x in s.inflight || x in s.log.resolved || WaitingCount(s, x) > 0
    ensures x in s.log.enqueued
  {
    EachItemInOnePlace(s, x);
  }

  lemma TwiceInSequence(items: seq<QueueItem>, i: nat, j: nat)
    requires i < j < |items| && items[i] == items[j]
    ensures Count(items, items[i]) >= 2
  {
    assert items == items[..j] + [items[j]] + items[j + 1..];
    assert items[i] in items[..j];
  }

  /** No item has two live tasks, and no future is resolved twice. */
  lemma NoDoubleDispatch(s: Client)
    requires Conserved(s)
    ensures DistinctFutures(s.inflight) && DistinctFutures(s.log.resolved)
    ensures forall x, y :: x in s.inflight && y in s.log.resolved ==> x.future != y.future
  {
    forall i, j | 0 <= i < j < |s.inflight| ensures s.inflight[i].future != s.inflight[j].future {
      PlacedItemsWereEnqueued(s, s.inflight[i]);
      PlacedItemsWereEnqueued(s, s.inflight[j]);
      if s.inflight[i] == s.inflight[j] {
        TwiceInSequence(s.inflight, i, j);
        EachItemInOnePlace(s, s.inflight[i]);
      }
    }
    var resolved := s.log.resolved;
    forall i, j | 0 <= i < j < |resolved| ensures resolved[i].future != resolved[j].future {
      PlacedItemsWereEnqueued(s, resolved[i]);
      PlacedItemsWereEnqueued(s, resolved[j]);
      if resolved[i] == resolved[j] {
        TwiceInSequence(resolved, i, j);
        EachItemInOnePlace(s, resolved[i]);
      }
    }
    forall x, y | x in s.inflight && y in resolved ensures x.future != y.future {
      PlacedItemsWereEnqueued(s, x);
      PlacedItemsWereEnqueued(s, y);
      EachItemInOnePlace(s, x);
    }
  }

  lemma UnresolvedElsewhere(s: Client, x: QueueItem)
    requires Conserved(s) && (x in s.inflight || WaitingCount(s, x) > 0)
    ensures forall y :: y in s.log.resolved ==> y.future != x.future
  {
    PlacedItemsWereEnqueued(s, x);
    EachItemInOnePlace(s, x);
    forall y | y in s.log.resolved ensures y.future != x.future {
      PlacedItemsWereEnqueued(s, y);
    }
  }

  function FutureIds(items: seq<QueueItem>): set<nat> {
    set i | 0 <= i < |items| :: items[i].future
  }

  /** Exactly the futures of resolved items are set, and a thread has a recorded exception exactly when
    * one of its items failed. */
  ghost predicate FuturesInv(s: Client) {
    && s.futures.Keys == FutureIds(s.log.resolved)
    && (forall t: nat, i: nat :: Failed(s, t, i) ==> t in s.threadExceptions)
    && (forall t: nat :: t in s.threadExceptions ==> exists i: nat :: Failed(s, t, i))
  }

  /** The item's future was open and is set, and a failure is recorded against the item's thread. */
  predicate Resolves(s: Client, s': Client, item: QueueItem, resolution: Resolution) {
    && item.future !in s.futures
    && s'.log.resolved == s.log.resolved + [item]
    && s'.futures == s.futures[item.future := resolution]
    && s'.threadExceptions
       == if resolution == Exception then s.threadExceptions + {item.threadId} else s.threadExceptions
  }

  lemma FutureIdsExtend(items: seq<QueueItem>, item: QueueItem)
    ensures FutureIds(items + [item]) == FutureIds(items) + {item.future}
  {
    var longer := items + [item];
    forall f | f in FutureIds(items) + {item.future} ensures f in FutureIds(longer) {
      if f == item.future {
        assert longer[|items|].future == f;
      } else {
        var i :| 0 <= i < |items| && items[i].future == f;
        assert longer[i].future == f;
      }
    }
  }

  /** A failed item of the thread, if there is one. */
  ghost predicate Failed(s: Client, t: nat, i: nat) {
    && i < |s.log.resolved| && s.log.resolved[i].threadId == t
    && s.log.resolved[i].future in s.futures && s.futures[s.log.resolved[i].future] == Exception
  }

  lemma ResolvedIsSet(s: Client, i: nat)
    requires s.futures.Keys == FutureIds(s.log.resolved) && i < |s.log.resolved|
    ensures s.log.resolved[i].future in s.futures
  {
    assert s.log.resolved[i].future in FutureIds(s.log.resolved);
  }

  lemma FailedStays(s: Client, s': Client, item: QueueItem, resolution: Resolution, t: nat, i: nat)
    requires Resolves(s, s', item, resolution) && Failed(s, t, i)
    ensures Failed(s', t, i)
  {
    assert s'.log.resolved[i] == s.log.resolved[i];
  }

  lemma ResolvingKeepsFutures(s: Client, s': Client, item: QueueItem, resolution: Resolution)
    requires FuturesInv(s) && Resolves(s, s', item, resolution)
    ensures FuturesInv(s')
  {
    FutureIdsExtend(s.log.resolved, item);
    forall t: nat, i: nat | Failed(s', t, i) ensures t in s'.threadExceptions {
      if i < |s.log.resolved| {
        ResolvedIsSet(s, i);
        assert Failed(s, t, i);
      }
    }
    forall t | t in s'.threadExceptions ensures exists i :: Failed(s', t, i) {
      if t in s.threadExceptions {
        var i :| Failed(s, t, i);
        FailedStays(s, s', item, resolution, t, i);
      } else {
        assert Failed(s', t, |s.log.resolved|);
      }
    }
  }

  /** A step either leaves the results alone or sets one future that was open. */
  ghost predicate ResolvesAtMostOne(s: Client, s': Client) {
    || (s'.futures == s.futures && s'.log.resolved == s.log.resolved
        && s'.threadExceptions == s.threadExceptions)
    || exists item, resolution :: Resolves(s, s', item, resolution)
  }

  lemma OpenFuture(s: Client, item: QueueItem)
    requires Conserved(s) && FuturesInv(s) && (item in s.inflight || WaitingCount(s, item) > 0)
    ensures item.future !in s.futures
  {
    UnresolvedElsewhere(s, item);
  }

  lemma FailResolves(s: Client, item: QueueItem, s': Client)
    requires item.future !in s.futures
    requires s'.futures == Fail(s, item).futures && s'.log.resolved == Fail(s, item).log.resolved
    requires s'.threadExceptions == Fail(s, item).threadExceptions
    ensures ResolvesAtMostOne(s, s')
  {
    assert Resolves(s, s', item, Exception);
  }

  lemma CompleteResolves(c: Config, s: Client, task: nat, outcome: Outcome, now: real)
    requires task < |s.inflight| && s.inflight[task].future !in s.futures
    ensures ResolvesAtMostOne(s, CompleteTask(c, s, task, outcome, now))
  {
    var item, s' := s.inflight[task], CompleteTask(c, s, task, outcome, now);
    if outcome.Ok? {
      assert Resolves(s, s', item, Result(outcome.response));
    } else if s'.log.resolved != s.log.resolved {
      FailResolves(s, item, s');
    }
  }

  lemma VisitResolves(c: Config, s: Client, now: real)
    requires s.worker.Visiting? && s.worker.index < |s.pending|
    requires s.pending[s.worker.index].future !in s.futures
    ensures ResolvesAtMostOne(s, VisitItem(c, s, now))
  {
    var item, s' := s.pending[s.worker.index], VisitItem(c, s, now);
    var call := CheckCall(item.estimate, now);
    if Check(s.limiter, item.estimate, now).1 == Rejected {
      FailResolves(s, item, s');
    }
  }

  lemma WaitingAtIndex(s: Client)
    requires PassInv(s) && s.worker.Visiting? && s.worker.index < |s.pending|
    ensures WaitingCount(s, s.pending[s.worker.index]) > 0
  {
    PassAdvances(s.pending, s.worker.processed, s.worker.index);
  }

  /** Each future is set at most once: whatever the step, an already set future keeps its value, and the
    * guard that skips a finished future never has to. */
  lemma StepResolves(c: Config, s: Client, a: Action)
    requires Conserved(s) && FuturesInv(s) && Enabled(c, s, a)
    ensures FuturesInv(Apply(c, s, a)) && ResolvesAtMostOne(s, Apply(c, s, a))
    ensures forall f :: f in s.futures ==> f in Apply(c, s, a).futures && Apply(c, s, a).futures[f] == s.futures[f]
    ensures s.threadExceptions <= Apply(c, s, a).threadExceptions
  {
    var s' := Apply(c, s, a);
    match a {
      case Visit(now) =>
        WaitingAtIndex(s);
        OpenFuture(s, s.pending[s.worker.index]);
        VisitResolves(c, s.(clock := now), now);
        ClockDoesNotResolve(s, now, s');
      case Complete(task, outcome, now) =>
        OpenFuture(s, s.inflight[task]);
        CompleteResolves(c, s.(clock := now), task, outcome, now);
        ClockDoesNotResolve(s, now, s');
      case _ =>
    }
    ResolvesKeepsFutures(s, s');
  }

  lemma ClockDoesNotResolve(s: Client, now: real, s': Client)
    requires ResolvesAtMostOne(s.(clock := now), s')
    ensures ResolvesAtMostOne(s, s')
  {
    if s'.log.resolved != s.log.resolved {
      var item, resolution :| Resolves(s.(clock := now), s', item, resolution);
      assert Resolves(s, s', item, resolution);
    }
  }

  lemma ResolvesKeepsFutures(s: Client, s': Client)
    requires FuturesInv(s) && ResolvesAtMostOne(s, s')
    ensures FuturesInv(s')
    ensures forall f :: f in s.futures ==> f in s'.futures && s'.futures[f] == s.futures[f]
    ensures s.threadExceptions <= s'.threadExceptions
  {
    if s'.log.resolved != s.log.resolved {
      var item, resolution :| Resolves(s, s', item, resolution);
      ResolvingKeepsFutures(s, s', item, resolution);
    } else {
      assert forall t: nat, i: nat :: Failed(s', t, i) <==> Failed(s, t, i);
    }
  }

  // ---------------------------------------------------------------- the backoff budget

  /** A recorded transient error always leaves a backoff in the budget, a backoff ends no later than its
    * time after the last error, and the time slept is within the budget of the backoffs taken, counting
    * one in progress. */
  ghost predicate BackoffInv(c: Config, s: Client) {
    && s.numBackoffs <= c.maxBackoffs
    && s.lastTransient <= s.clock
    && (s.lastTransient > 0.0 ==> s.numBackoffs < c.maxBackoffs)
    && (s.worker.BackingOff? ==>
          s.lastTransient > 0.0 && s.worker.wakeAt <= s.lastTransient + BackoffTime(c, s.numBackoffs))
    && 0.0 <= s.log.slept
    && s.log.slept <= BackoffBudget(c, s.numBackoffs)
                      + if s.worker.BackingOff? then BackoffTime(c, s.numBackoffs) else 0.0
  }

  lemma MaybeBackoffKeepsBudget(c: Config, s: Client, index: nat, processed: seq<QueueItem>, now: real)
    requires ValidConfig(c) && BackoffInv(c, s) && !s.worker.BackingOff? && s.clock == now
    ensures BackoffInv(c, MaybeBackoff(c, s, index, processed, now))
  {
  }

  lemma TurnKeepsBudget(c: Config, s: Client, verdict: Verdict, now: real)
    requires ValidConfig(c) && BackoffInv(c, s) && s.clock == now
    requires s.worker.Visiting? && s.worker.index < |s.pending|
    ensures BackoffInv(c, Turn(c, s, verdict, now))
  {
    var Visiting(index, processed) := s.worker;
    if verdict == Admitted {
      var item := s.pending[index];
      var started := s.(inflight := s.inflight + [item], log := s.log.(dispatches := s.log.dispatches + 1));
      MaybeBackoffKeepsBudget(c, started, index, processed + [item], now);
    }
  }

  lemma CompleteKeepsBudget(c: Config, s: Client, task: nat, outcome: Outcome, now: real)
    requires ValidConfig(c) && BackoffInv(c, s) && s.clock == now && 0.0 < now && task < |s.inflight|
    ensures BackoffInv(c, CompleteTask(c, s, task, outcome, now))
  {
  }

  lemma StepKeepsBudget(c: Config, s: Client, a: Action)
    requires ValidConfig(c) && BackoffInv(c, s) && Enabled(c, s, a)
    ensures BackoffInv(c, Apply(c, s, a))
  {
    match a {
      case Visit(now) =>
        var estimate := s.pending[s.worker.index].estimate;
        var called := Called(s.(clock := now), CheckCall(estimate, now));
        TurnKeepsBudget(c, called, Check(s.limiter, estimate, now).1, now);
      case Refilled(now) =>
        MaybeBackoffKeepsBudget(c, s.(clock := now), s.worker.index, s.worker.processed, now);
      case Complete(task, outcome, now) => CompleteKeepsBudget(c, s.(clock := now), task, outcome, now);
      case _ =>
    }
  }

  // ---------------------------------------------------------------- tasks and reservations

  function Estimates(items: seq<QueueItem>): multiset<TokenEstimate> {
    if items == [] then multiset{}
    else Estimates(items[..|items| - 1]) + multiset{items[|items| - 1].estimate}
  }

  lemma EstimatesAppend(items: seq<QueueItem>, item: QueueItem)
    ensures Estimates(items + [item]) == Estimates(items) + multiset{item.estimate}
  {
    assert (items + [item])[..|items|] == items;
  }

  lemma {:induction false} EstimatesRemove(items: seq<QueueItem>, k: nat)
    requires k < |items|
    ensures Estimates(items) == Estimates(RemoveAt(items, k)) + multiset{items[k].estimate}
    decreases |items|
  {
    var front, last := items[..|items| - 1], items[|items| - 1];
    if k == |front| {
      assert RemoveAt(items, k) == front;
    } else {
      EstimatesRemove(front, k);
      assert RemoveAt(items, k) == RemoveAt(front, k) + [last];
      EstimatesAppend(RemoveAt(front, k), last);
      PlusCommutes(Estimates(RemoveAt(front, k)), items[k].estimate, last.estimate);
    }
  }

  lemma PlusCommutes<T>(m: multiset<T>, a: T, b: T)
    ensures m + multiset{a} + multiset{b} == m + multiset{b} + multiset{a}
  {
  }

  /** The limiter is where the recorded calls took it; every live task holds exactly one reservation, and
    * tasks that ended without reporting their usage never gave theirs back. */
  ghost predicate LimiterInv(l0: Strategy, s: Client) {
    && CallableRun(l0, s.log.calls) && Matched(l0, s.log.calls)
    && s.limiter == After(l0, s.log.calls)
    && LastUpdate(s.limiter) <= s.clock
    && Outstanding(l0, s.log.calls) == Estimates(s.inflight) + s.log.abandoned
    && s.log.dispatches == Admissions(l0, s.log.calls)
  }

  lemma CallAppends(l0: Strategy, calls: seq<Call>, call: Call)
    requires CallableRun(l0, calls) && Matched(l0, calls) && Callable(After(l0, calls), call)
    requires call.SettleCall? ==> call.reserved in Outstanding(l0, calls)
    ensures CallableRun(l0, calls + [call]) && Matched(l0, calls + [call])
    ensures After(l0, calls + [call]) == Step(After(l0, calls), call)
    ensures Outstanding(l0, calls + [call])
         == if Admits(After(l0, calls), call) then Outstanding(l0, calls) + multiset{call.estimate}
            else if call.SettleCall? then Outstanding(l0, calls) - multiset{call.reserved}
            else Outstanding(l0, calls)
    ensures Admissions(l0, calls + [call])
         == Admissions(l0, calls) + if Admits(After(l0, calls), call) then 1 else 0
  {
    assert (calls + [call])[..|calls|] == calls;
  }

  lemma CallMovesClock(l0: Strategy, s: Client, call: Call)
    requires Strategies.Valid(l0) && LimiterInv(l0, s)
    requires s.clock <= call.at && (call.HintCall? ==> s.limiter.Adaptive?)
    ensures Callable(s.limiter, call) && LastUpdate(Step(s.limiter, call)) <= call.at
  {
    RunKeepsValid(l0, s.log.calls);
    StepKeepsValid(s.limiter, call);
  }

  lemma CalledKeepsLimiter(l0: Strategy, s: Client, call: Call)
    requires Strategies.Valid(l0) && LimiterInv(l0, s) && s.clock == call.at
    requires call.BackoffCall? || (call.HintCall? && s.limiter.Adaptive?)
             || (call.CheckCall? && !Admits(s.limiter, call))
    ensures LimiterInv(l0, Called(s, call))
  {
    CallMovesClock(l0, s, call);
    CallAppends(l0, s.log.calls, call);
  }

  /** A task is started exactly when the limiter admits, and takes the reservation with it. */
  lemma StartKeepsLimiter(l0: Strategy, s: Client, item: QueueItem, call: Call, s': Client)
    requires Strategies.Valid(l0) && LimiterInv(l0, s) && s.clock == call.at
    requires call == CheckCall(item.estimate, s.clock) && Admits(s.limiter, call)
    requires s'.limiter == Step(s.limiter, call) && s'.log.calls == s.log.calls + [call]
    requires s'.inflight == s.inflight + [item] && s'.log.dispatches == s.log.dispatches + 1
    requires s'.clock == s.clock && s'.log.abandoned == s.log.abandoned
    ensures LimiterInv(l0, s')
  {
    CallMovesClock(l0, s, call);
    CallAppends(l0, s.log.calls, call);
    EstimatesAppend(s.inflight, item);
  }

  lemma SettleKeepsLimiter(l0: Strategy, s: Client, task: nat, actual: TokenEstimate, s': Client)
    requires Strategies.Valid(l0) && LimiterInv(l0, s) && task < |s.inflight|
    requires var call := SettleCall(s.inflight[task].estimate, actual, s.clock);
             s'.limiter == Step(s.limiter, call) && s'.log.calls == s.log.calls + [call]
    requires s'.inflight == RemoveAt(s.inflight, task) && s'.log.dispatches == s.log.dispatches
    requires s'.clock == s.clock && s'.log.abandoned == s.log.abandoned
    ensures LimiterInv(l0, s')
  {
    var call := SettleCall(s.inflight[task].estimate, actual, s.clock);
    EstimatesRemove(s.inflight, task);
    CallMovesClock(l0, s, call);
    CallAppends(l0, s.log.calls, call);
  }

  lemma AbandonKeepsLimiter(l0: Strategy, s: Client, task: nat, s': Client)
    requires LimiterInv(l0, s) && task < |s.inflight|
    requires s'.limiter == s.limiter && s'.log.calls == s.log.calls
    requires s'.inflight == RemoveAt(s.inflight, task) && s'.log.dispatches == s.log.dispatches
    requires s'.clock == s.clock
    requires s'.log.abandoned == s.log.abandoned + multiset{s.inflight[task].estimate}
    ensures LimiterInv(l0, s')
  {
    EstimatesRemove(s.inflight, task);
  }

  lemma VisitKeepsLimiter(c: Config, l0: Strategy, s: Client, now: real)
    requires Strategies.Valid(l0) && LimiterInv(l0, s) && s.clock == now
    requires s.worker.Visiting? && s.worker.index < |s.pending|
    ensures LimiterInv(l0, VisitItem(c, s, now))
  {
    var item := s.pending[s.worker.index];
    var call := CheckCall(item.estimate, now);
    if Admits(s.limiter, call) {
      VisitStarts(c, s, now);
      StartKeepsLimiter(l0, s, item, call, VisitItem(c, s, now));
    } else {
      CalledKeepsLimiter(l0, s, call);
    }
  }

  /** Starting a task and consuming the limiter are one step. */
  lemma VisitStarts(c: Config, s: Client, now: real)
    requires s.worker.Visiting? && s.worker.index < |s.pending|
    requires Admits(s.limiter, CheckCall(s.pending[s.worker.index].estimate, now))
    ensures var s', item := VisitItem(c, s, now), s.pending[s.worker.index];
            var call := CheckCall(item.estimate, now);
            && s'.limiter == Step(s.limiter, call) && s'.log.calls == s.log.calls + [call]
            && s'.inflight == s.inflight + [item] && s'.log.dispatches == s.log.dispatches + 1
            && s'.clock == s.clock && s'.log.abandoned == s.log.abandoned
  {
  }

  lemma CompleteKeepsLimiter(c: Config, l0: Strategy, s: Client, task: nat, outcome: Outcome, now: real)
    requires Strategies.Valid(l0) && LimiterInv(l0, s) && s.clock == now && task < |s.inflight|
    ensures LimiterInv(l0, CompleteTask(c, s, task, outcome, now))
  {
    var s', item := CompleteTask(c, s, task, outcome, now), s.inflight[task];
    if outcome.Ok? && outcome.usage.Some? && item.estimate.TotalTokens() > 0 {
      SettleKeepsLimiter(l0, s, task, outcome.usage.value, s');
    } else {
      AbandonKeepsLimiter(l0, s, task, s');
    }
  }

  lemma StepKeepsLimiter(c: Config, l0: Strategy, s: Client, a: Action)
    requires Strategies.Valid(l0) && LimiterInv(l0, s) && Enabled(c, s, a)
    ensures LimiterInv(l0, Apply(c, s, a))
  {
    if a.Visit? {
      VisitKeepsLimiter(c, l0, s.(clock := a.now), a.now);
    } else if a.Complete? {
      CompleteKeepsLimiter(c, l0, s.(clock := a.now), a.task, a.outcome, a.now);
    } else if a.EndBackoff? {
      CalledKeepsLimiter(l0, s.(clock := a.now, numBackoffs := s.numBackoffs + 1, lastTransient := 0.0,
                                worker := Visiting(s.worker.index + 1, s.worker.processed)), BackoffCall(a.now));
    } else if a.Hint? {
      CalledKeepsLimiter(l0, s.(clock := a.now), HintCall(a.rpmHint, a.retryAt, a.now));
    } else {
      SameLimiter(l0, s, Apply(c, s, a));
    }
  }

  lemma SameLimiter(l0: Strategy, s: Client, s': Client)
    requires LimiterInv(l0, s) && s'.limiter == s.limiter && s'.inflight == s.inflight && s.clock <= s'.clock
    requires s'.log.calls == s.log.calls && s'.log.abandoned == s.log.abandoned
    requires s'.log.dispatches == s.log.dispatches
    ensures LimiterInv(l0, s')
  {
  }

  // ---------------------------------------------------------------- whole runs

  /** New requests are fetched in the order they were enqueued, and the queue respects its bound. */
  ghost predicate QueueInv(c: Config, s: Client) {
    && s.log.fetched + s.requestQueue == s.log.enqueued
    && (c.queueSize > 0 ==> |s.requestQueue| <= c.queueSize)
  }

  ghost predicate Inv(c: Config, l0: Strategy, s: Client) {
    && Conserved(s) && FuturesInv(s) && BackoffInv(c, s) && LimiterInv(l0, s)
    && QueueInv(c, s)
  }

  /** The client after a schedule; actions that are not enabled when their turn comes do nothing, so
    * every interleaving of user threads, worker, tasks and clock is a schedule. */
  function RunFrom(c: Config, s: Client, schedule: seq<Action>): Client {
    if schedule == [] then s
    else
      var before := RunFrom(c, s, schedule[..|schedule| - 1]);
      var a := schedule[|schedule| - 1];
      if Enabled(c, before, a) then Apply(c, before, a) else before
  }

  lemma InitialInv(c: Config, l0: Strategy, now: real)
    requires Strategies.Valid(l0) && LastUpdate(l0) <= now && 0.0 <= now
    ensures Inv(c, l0, Initial(l0, now))
  {
  }

  /** The invariants hold in every reachable state. */
  lemma {:induction false} RunKeepsInv(c: Config, l0: Strategy, now: real, schedule: seq<Action>)
    requires ValidConfig(c) && Strategies.Valid(l0) && LastUpdate(l0) <= now && 0.0 <= now
    ensures Inv(c, l0, RunFrom(c, Initial(l0, now), schedule))
  {
    if schedule == [] {
      InitialInv(c, l0, now);
    } else {
      var front, a := schedule[..|schedule| - 1], schedule[|schedule| - 1];
      RunKeepsInv(c, l0, now, front);
      var before := RunFrom(c, Initial(l0, now), front);
      if Enabled(c, before, a) {
        StepKeepsInv(c, l0, before, a);
      }
    }
  }

  lemma StepKeepsInv(c: Config, l0: Strategy, s: Client, a: Action)
    requires ValidConfig(c) && Strategies.Valid(l0) && Inv(c, l0, s) && Enabled(c, s, a)
    ensures Inv(c, l0, Apply(c, s, a))
  {
    StepConserves(c, s, a);
    StepResolves(c, s, a);
    StepKeepsBudget(c, s, a);
    StepKeepsLimiter(c, l0, s, a);
    StepKeepsQueue(c, s, a);
  }

  lemma StepKeepsQueue(c: Config, s: Client, a: Action)
    requires Enabled(c, s, a) && QueueInv(c, s)
    ensures QueueInv(c, Apply(c, s, a))
  {
    match a {
      case Enqueue(item) =>
        assert s.log.fetched + (s.requestQueue + [item]) == (s.log.fetched + s.requestQueue) + [item];
      case StartFetch => GetKeepsOrder(s.log.fetched, s.requestQueue);
      case RunGetter(_) => GetKeepsOrder(s.log.fetched, s.requestQueue);
      case _ =>
    }
  }

  lemma GetKeepsOrder(fetched: seq<QueueItem>, queue: seq<QueueItem>)
    ensures (fetched + Slot(Head(queue))) + Rest(queue) == fetched + queue
  {
    assert queue != [] ==> [queue[0]] + queue[1..] == queue;
  }

  /** Backoff budget over the client's life. */
  lemma TotalBackoffIsBounded(c: Config, l0: Strategy, now: real, schedule: seq<Action>)
    requires ValidConfig(c) && Strategies.Valid(l0) && LastUpdate(l0) <= now && 0.0 <= now
    ensures var s := RunFrom(c, Initial(l0, now), schedule);
            && s.numBackoffs <= c.maxBackoffs
            && s.log.slept <= BackoffBudget(c, c.maxBackoffs) <= 60.0 * c.maxBackoffs as real
  {
    RunKeepsInv(c, l0, now, schedule);
    SleptWithinBudget(c, RunFrom(c, Initial(l0, now), schedule));
    BackoffBudgetIsMonotone(c, 0, c.maxBackoffs);
  }

  lemma SleptWithinBudget(c: Config, s: Client)
    requires ValidConfig(c) && BackoffInv(c, s)
    ensures s.log.slept <= BackoffBudget(c, c.maxBackoffs)
  {
    if s.worker.BackingOff? {
      BackoffBudgetIsMonotone(c, s.numBackoffs + 1, c.maxBackoffs);
    } else {
      BackoffBudgetIsMonotone(c, s.numBackoffs, c.maxBackoffs);
    }
  }

  /** Token conservation for the whole client: in every reachable state, what a token bucket still holds,
    * what the live tasks have reserved, what failed attempts consumed, and what was reported used is at
    * most one full bucket, its rate times the elapsed time, and the debt settlement forgave. */
  lemma ClientTokenConservation(c: Config, l0: Strategy, w: Weight, now: real, schedule: seq<Action>)
    requires ValidConfig(c) && Strategies.Valid(l0) && LastUpdate(l0) <= now && 0.0 <= now
    requires HasTokenBucket(l0, w)
    ensures TokensConserved(l0, w, RunFrom(c, Initial(l0, now), schedule))
  {
    RunKeepsInv(c, l0, now, schedule);
    LimiterConserves(l0, w, RunFrom(c, Initial(l0, now), schedule));
  }

  ghost predicate TokensConserved(l0: Strategy, w: Weight, s: Client)
    requires HasTokenBucket(l0, w)
  {
    && HasTokenBucket(s.limiter, w)
    && Balanced(TokenBucket(l0, w), TokenBucket(s.limiter, w), Total(w, Estimates(s.inflight) + s.log.abandoned),
                UsedTokens(w, s.log.calls), Forgiven(TokenBucket(l0, w), TokenTrace(l0, w, s.log.calls)))
  }

  lemma LimiterConserves(l0: Strategy, w: Weight, s: Client)
    requires Strategies.Valid(l0) && HasTokenBucket(l0, w) && LimiterInv(l0, s)
    ensures TokensConserved(l0, w, s)
  {
    TokenConservation(l0, w, s.log.calls);
  }

  /** Tasks started over a run of any strategy: at most one burst, the highest rate of the run times the
    * elapsed time, and a burst for each limit that was registered. */
  lemma ClientDispatchBound(c: Config, l0: Strategy, now: real, schedule: seq<Action>)
    requires ValidConfig(c) && Strategies.Valid(l0) && LastUpdate(l0) <= now && 0.0 <= now
    ensures var s := RunFrom(c, Initial(l0, now), schedule);
            DispatchesWithin(l0, s, HighestRpm(l0, s.log.calls), HintBursts(l0, s.log.calls))
  {
    RunKeepsInv(c, l0, now, schedule);
    var s := RunFrom(c, Initial(l0, now), schedule);
    HighestIsReached(l0, s.log.calls, HighestRpm(l0, s.log.calls));
    LimiterBoundsDispatches(l0, s, HighestRpm(l0, s.log.calls));
  }

  predicate DispatchesWithin(l0: Strategy, s: Client, rate: int, bursts: int) {
    s.log.dispatches as real
    <= l0.rpm as real + Earned(rate, s.limiter.requests.lastUpdate - l0.requests.lastUpdate) + bursts as real
  }

  lemma LimiterBoundsDispatches(l0: Strategy, s: Client, rate: int)
    requires Strategies.Valid(l0) && LimiterInv(l0, s) && RpmAtMost(l0, s.log.calls, rate)
    ensures DispatchesWithin(l0, s, rate, HintBursts(l0, s.log.calls))
  {
    AdmissionsFromFull(l0, s.log.calls, rate);
  }

  /** With a fixed rate that is the rate. */
  lemma FixedDispatchBound(c: Config, l0: Strategy, now: real, schedule: seq<Action>)
    requires ValidConfig(c) && Strategies.Valid(l0) && LastUpdate(l0) <= now && 0.0 <= now
    requires !l0.Adaptive?
    ensures DispatchesWithin(l0, RunFrom(c, Initial(l0, now), schedule), l0.rpm, 0)
  {
    RunKeepsInv(c, l0, now, schedule);
    var s := RunFrom(c, Initial(l0, now), schedule);
    FixedRate(l0, s.log.calls);
    LimiterBoundsDispatches(l0, s, l0.rpm);
  }

  /** With the adaptive strategy, and no limit registered, it is the ceiling. */
  lemma AdaptiveDispatchBound(c: Config, l0: Strategy, now: real, schedule: seq<Action>)
    requires ValidConfig(c) && Strategies.Valid(l0) && LastUpdate(l0) <= now && 0.0 <= now
    requires l0.Adaptive? && l0.rpmHint.None? && l0.rpm <= l0.growth.maxRpm
    requires forall k :: 0 <= k < |schedule| ==> !LimitHint(schedule[k])
    ensures DispatchesWithin(l0, RunFrom(c, Initial(l0, now), schedule), l0.growth.maxRpm, 0)
  {
    RunKeepsInv(c, l0, now, schedule);
    NoHintCalls(c, Initial(l0, now), schedule);
    var s := RunFrom(c, Initial(l0, now), schedule);
    RateStaysBelowCeiling(l0, s.log.calls);
    LimiterBoundsDispatches(l0, s, l0.growth.maxRpm);
  }

  /** A provider's limit, as opposed to a mere time to retry at. */
  predicate LimitHint(a: Action) { a.Hint? && a.rpmHint.Some? && a.rpmHint.value > 0 }

  lemma {:induction false} NoHintCalls(c: Config, s: Client, schedule: seq<Action>)
    requires NoRpmHints(s.log.calls) && forall k :: 0 <= k < |schedule| ==> !LimitHint(schedule[k])
    ensures NoRpmHints(RunFrom(c, s, schedule).log.calls)
  {
    if schedule != [] {
      var front, a := schedule[..|schedule| - 1], schedule[|schedule| - 1];
      NoHintCalls(c, s, front);
      var before := RunFrom(c, s, front);
      if Enabled(c, before, a) {
        StepCalls(c, before, a);
      }
    }
  }

  /** A step makes at most one call, and registers a hint only when it is one. */
  lemma StepCalls(c: Config, s: Client, a: Action)
    requires Enabled(c, s, a)
    ensures var calls := Apply(c, s, a).log.calls;
            calls == s.log.calls
            || (calls != [] && calls[..|calls| - 1] == s.log.calls
                && (calls[|calls| - 1].HintCall? ==> a.Hint? && calls[|calls| - 1].rpmHint == a.rpmHint))
  {
  }

  lemma {:induction false} FixedRate(l0: Strategy, calls: seq<Call>)
    requires Strategies.Valid(l0) && !l0.Adaptive? && CallableRun(l0, calls)
    ensures RpmAtMost(l0, calls, l0.rpm) && HintBursts(l0, calls) == 0
  {
    RunKeepsValid(l0, calls);
    if calls != [] {
      FixedRate(l0, calls[..|calls| - 1]);
      RunKeepsValid(l0, calls[..|calls| - 1]);
    }
  }

  predicate Quiescent(s: Client) {
    s.requestQueue == [] && s.retryQueue == [] && Held(s.worker) == [] && s.pending == [] && s.inflight == []
  }

  /** When nothing is queued, held, pending or in flight, every enqueued item has its result. */
  lemma QuiescentMeansResolved(c: Config, l0: Strategy, s: Client, item: QueueItem)
    requires Inv(c, l0, s) && item in s.log.enqueued
    requires Quiescent(s)
    ensures item.future in s.futures
  {
    EachItemInOnePlace(s, item);
    assert item in s.log.resolved;
    assert item.future in FutureIds(s.log.resolved);
  }

  /** A thread whose item failed keeps its recorded exception for the rest of the run. */
  lemma {:induction false} ThreadExceptionsAreSticky(c: Config, l0: Strategy, s: Client, schedule: seq<Action>,
                                                     thread: nat)
    requires ValidConfig(c) && Strategies.Valid(l0) && Inv(c, l0, s) && thread in s.threadExceptions
    ensures Inv(c, l0, RunFrom(c, s, schedule)) && thread in RunFrom(c, s, schedule).threadExceptions
  {
    if schedule != [] {
      var front, a := schedule[..|schedule| - 1], schedule[|schedule| - 1];
      ThreadExceptionsAreSticky(c, l0, s, front, thread);
      var before := RunFrom(c, s, front);
      if Enabled(c, before, a) {
        StepKeepsInv(c, l0, before, a);
        StepResolves(c, before, a);
      }
    }
  }

  // ---------------------------------------------------------------- threads that failed

  /** How many of the items are the thread's. */
  function ItemsOf(thread: nat, items: seq<QueueItem>): nat {
    if items == [] then 0
    else ItemsOf(thread, items[..|items| - 1]) + if items[|items| - 1].threadId == thread then 1 else 0
  }

  function Times(thread: nat, threads: seq<nat>): nat {
    if threads == [] then 0
    else Times(thread, threads[..|threads| - 1]) + if threads[|threads| - 1] == thread then 1 else 0
  }

  /** How often the schedule starts a submission of the thread. */
  function ChecksOf(thread: nat, schedule: seq<Action>): nat {
    if schedule == [] then 0
    else
      ChecksOf(thread, schedule[..|schedule| - 1])
      + if schedule[|schedule| - 1] == CheckThread(thread) then 1 else 0
  }

  /** The thread's items, counting a submission that is past its check. */
  function Submitted(s: Client, thread: nat): nat {
    ItemsOf(thread, s.log.enqueued) + if thread in s.submitting then 1 else 0
  }

  lemma StepOfFailedThread(c: Config, s: Client, a: Action, thread: nat)
    requires Enabled(c, s, a) && thread in s.threadExceptions
    ensures var s' := Apply(c, s, a);
            && thread in s'.threadExceptions && (thread in s'.submitting ==> thread in s.submitting)
            && ItemsOf(thread, s.log.enqueued) <= ItemsOf(thread, s'.log.enqueued)
            && Submitted(s', thread) <= Submitted(s, thread)
            && Times(thread, s'.log.raised) == Times(thread, s.log.raised) + if a == CheckThread(thread) then 1 else 0
  {
    match a {
      case Enqueue(item) =>
        assert (s.log.enqueued + [item])[..|s.log.enqueued|] == s.log.enqueued;
      case CheckThread(t) =>
        assert (s.log.raised + [t])[..|s.log.raised|] == s.log.raised;
      case Visit(now) => TurnKeepsSubmissions(c, s, now);
      case _ =>
    }
  }

  lemma TurnKeepsSubmissions(c: Config, s: Client, now: real)
    requires Enabled(c, s, Visit(now))
    ensures var s' := Apply(c, s, Visit(now));
            && s.threadExceptions <= s'.threadExceptions && s'.submitting == s.submitting
            && s'.log.enqueued == s.log.enqueued && s'.log.raised == s.log.raised
  {
  }

  /** After a thread failed, at most a submission that is already past its check still enqueues. */
  lemma {:induction false} FailedThreadEnqueuesAtMostOnce(c: Config, s: Client, schedule: seq<Action>, thread: nat)
    requires thread in s.threadExceptions
    ensures var s' := RunFrom(c, s, schedule);
            thread in s'.threadExceptions && Submitted(s', thread) <= Submitted(s, thread)
  {
    if schedule != [] {
      var front, a := schedule[..|schedule| - 1], schedule[|schedule| - 1];
      FailedThreadEnqueuesAtMostOnce(c, s, front, thread);
      if Enabled(c, RunFrom(c, s, front), a) {
        StepOfFailedThread(c, RunFrom(c, s, front), a, thread);
      }
    }
  }

  /** With no submission in progress, a failed thread never enqueues again: every later submission raises. */
  lemma {:induction false} FailedThreadAlwaysRaises(c: Config, s: Client, schedule: seq<Action>, thread: nat)
    requires thread in s.threadExceptions && thread !in s.submitting
    ensures var s' := RunFrom(c, s, schedule);
            && thread in s'.threadExceptions && thread !in s'.submitting
            && ItemsOf(thread, s'.log.enqueued) == ItemsOf(thread, s.log.enqueued)
            && Times(thread, s'.log.raised) == Times(thread, s.log.raised) + ChecksOf(thread, schedule)
  {
    if schedule != [] {
      var front, a := schedule[..|schedule| - 1], schedule[|schedule| - 1];
      FailedThreadAlwaysRaises(c, s, front, thread);
      if Enabled(c, RunFrom(c, s, front), a) {
        StepOfFailedThread(c, RunFrom(c, s, front), a, thread);
      }
    }
  }

  // ---------------------------------------------------------------- errors during a backoff

  /** The schedule takes the end of a backoff sleep. */
  predicate EndsBackoff(c: Config, s: Client, schedule: seq<Action>) {
    schedule != [] &&
    var front, a := schedule[..|schedule| - 1], schedule[|schedule| - 1];
    EndsBackoff(c, s, front) || (a.EndBackoff? && Enabled(c, RunFrom(c, s, front), a))
  }

  /** The schedule takes a transient error that is recorded. */
  predicate RecordsTransient(c: Config, s: Client, schedule: seq<Action>) {
    schedule != [] &&
    var front, a := schedule[..|schedule| - 1], schedule[|schedule| - 1];
    RecordsTransient(c, s, front) || Records(c, RunFrom(c, s, front), a)
  }

  predicate Records(c: Config, s: Client, a: Action) {
    a.Complete? && a.outcome.TransientError? && Enabled(c, s, a) && s.numBackoffs < c.maxBackoffs
  }

  lemma StepMarks(c: Config, s: Client, a: Action)
    requires Enabled(c, s, a)
    ensures Apply(c, s, a).lastTransient
         == if a.EndBackoff? then 0.0 else if Records(c, s, a) then a.now else s.lastTransient
    ensures s.clock <= Apply(c, s, a).clock && (Records(c, s, a) ==> s.clock <= a.now == Apply(c, s, a).clock)
  {
  }

  /** A recorded time is kept until a backoff sleep ends.  A later error only makes it later. */
  lemma {:induction false} RecordedTimeStays(c: Config, s: Client, schedule: seq<Action>)
    requires 0.0 < s.lastTransient <= s.clock
    ensures var s' := RunFrom(c, s, schedule);
            && s'.lastTransient <= s'.clock && 0.0 < s'.clock
            && (!EndsBackoff(c, s, schedule) ==> s.lastTransient <= s'.lastTransient)
            && (!RecordsTransient(c, s, schedule) ==>
                  s'.lastTransient == if EndsBackoff(c, s, schedule) then 0.0 else s.lastTransient)
  {
    if schedule != [] {
      var front, a := schedule[..|schedule| - 1], schedule[|schedule| - 1];
      RecordedTimeStays(c, s, front);
      var before := RunFrom(c, s, front);
      if Enabled(c, before, a) {
        StepMarks(c, before, a);
      }
    }
  }

  /** The worker looks at the recorded time here: after a task was started, and after a wait for refill. */
  predicate Decides(s: Client, a: Action) {
    a.Refilled?
    || (a.Visit? && s.worker.Visiting? && s.worker.index < |s.pending|
        && Check(s.limiter, s.pending[s.worker.index].estimate, a.now).1 == Admitted)
  }

  predicate TakesDecision(c: Config, s: Client, schedule: seq<Action>) {
    schedule != [] &&
    var front, a := schedule[..|schedule| - 1], schedule[|schedule| - 1];
    TakesDecision(c, s, front) || (Enabled(c, RunFrom(c, s, front), a) && Decides(RunFrom(c, s, front), a))
  }

  /** Only a decision starts a sleep. */
  lemma StepSleeps(c: Config, s: Client, a: Action)
    requires Enabled(c, s, a) && !Decides(s, a)
    ensures Apply(c, s, a).worker.BackingOff? <==> s.worker.BackingOff? && !a.EndBackoff?
    ensures a.EndBackoff? ==> s.worker.BackingOff?
  {
  }

  lemma {:induction false} SleepsUntilEnd(c: Config, s: Client, schedule: seq<Action>)
    requires !TakesDecision(c, s, schedule)
    ensures RunFrom(c, s, schedule).worker.BackingOff? <==> s.worker.BackingOff? && !EndsBackoff(c, s, schedule)
    ensures EndsBackoff(c, s, schedule) ==> s.worker.BackingOff?
  {
    if schedule != [] {
      var front, a := schedule[..|schedule| - 1], schedule[|schedule| - 1];
      SleepsUntilEnd(c, s, front);
      if Enabled(c, RunFrom(c, s, front), a) {
        StepSleeps(c, RunFrom(c, s, front), a);
      }
    }
  }

  /** Whether the next decision sees a recorded transient error depends on where the worker was when it
    * was recorded: one recorded during a backoff sleep is lost when the sleep ends, and any other one is
    * seen, unless a later error has replaced it by a later time. */
  lemma TransientSurvivesExactlyWhen(c: Config, s: Client, schedule: seq<Action>, decision: Action)
    requires 0.0 < s.lastTransient <= s.clock && !TakesDecision(c, s, schedule)
    requires Enabled(c, RunFrom(c, s, schedule), decision) && Decides(RunFrom(c, s, schedule), decision)
    ensures var seen := RunFrom(c, s, schedule).lastTransient;
            && (!s.worker.BackingOff? ==> s.lastTransient <= seen)
            && (!RecordsTransient(c, s, schedule) ==>
                  seen == if s.worker.BackingOff? then 0.0 else s.lastTransient)
  {
    SleepsUntilEnd(c, s, schedule);
    RecordedTimeStays(c, s, schedule);
  }

  lemma RunAppends(c: Config, s: Client, schedule: seq<Action>, a: Action)
    ensures RunFrom(c, s, schedule + [a])
         == if Enabled(c, RunFrom(c, s, schedule), a) then Apply(c, RunFrom(c, s, schedule), a)
            else RunFrom(c, s, schedule)
  {
    assert (schedule + [a])[..|schedule|] == schedule;
  }

  // ---------------------------------------------------------------- the order of the queues

  /** The getter is run, and finds an item, before the worker collects. */
  predicate TookLate(c: Config, s: Client, schedule: seq<Action>, retry: bool) {
    schedule != [] &&
    var front, a := schedule[..|schedule| - 1], schedule[|schedule| - 1];
    TookLate(c, s, front, retry) || (a == RunGetter(retry) && Enabled(c, RunFrom(c, s, front), a))
  }

  /** What a getter holds that took the head of its queue, or found its queue empty and took later. */
  predicate Holds(slot: Option<QueueItem>, queue: seq<QueueItem>, late: bool) {
    if queue != [] then slot == Some(queue[0]) && !late else slot.Some? <==> late
  }

  lemma {:induction false} GettersKeepHeads(c: Config, s: Client, schedule: seq<Action>)
    requires Enabled(c, s, StartFetch) && EndFetch !in schedule
    ensures var start := Apply(c, s, StartFetch);
            var s' := RunFrom(c, start, schedule);
            && s'.worker.Fetching?
            && Holds(s'.worker.retried, s.retryQueue, TookLate(c, start, schedule, true))
            && Holds(s'.worker.requested, s.requestQueue, TookLate(c, start, schedule, false))
  {
    if schedule != [] {
      var front, a := schedule[..|schedule| - 1], schedule[|schedule| - 1];
      GettersKeepHeads(c, s, front);
      var before := RunFrom(c, Apply(c, s, StartFetch), front);
      if Enabled(c, before, a) {
        OtherStepsKeepGetters(c, before, a);
      }
    }
  }

  lemma OtherStepsKeepGetters(c: Config, s: Client, a: Action)
    requires s.worker.Fetching? && Enabled(c, s, a) && !a.EndFetch?
    ensures a.RunGetter? || Apply(c, s, a).worker == s.worker
    ensures a == RunGetter(true) ==> Apply(c, s, a).worker == Fetching(Some(s.retryQueue[0]), s.worker.requested)
    ensures a == RunGetter(false) ==> Apply(c, s, a).worker == Fetching(s.worker.retried, Some(s.requestQueue[0]))
  {
  }

  /** The fetch is documented to prefer the retry queue.  Whatever runs while it waits, it takes the head
    * of each queue that is not empty as it starts, the retried item first; it takes two items exactly when
    * each queue had one then or its getter found one later; and a new request is left in its queue exactly
    * when that queue was empty then and its getter found none later. */
  lemma FetchTakesBothExactlyWhen(c: Config, s: Client, schedule: seq<Action>)
    requires Enabled(c, s, StartFetch) && EndFetch !in schedule
    requires Enabled(c, RunFrom(c, Apply(c, s, StartFetch), schedule), EndFetch)
    ensures var start := Apply(c, s, StartFetch);
            var lateRetry, lateRequest := TookLate(c, start, schedule, true), TookLate(c, start, schedule, false);
            var s' := Apply(c, RunFrom(c, start, schedule), EndFetch);
            && s'.worker == Visiting(0, [])
            && (|s'.pending| == 2 <==> (s.retryQueue != [] || lateRetry) && (s.requestQueue != [] || lateRequest))
            && (s.retryQueue != [] ==> s'.pending[0] == s.retryQueue[0])
            && (s.requestQueue != [] ==> s'.pending[|s'.pending| - 1] == s.requestQueue[0])
            && (s.retryQueue != [] && s.requestQueue != [] ==> s'.pending == [s.retryQueue[0], s.requestQueue[0]])
  {
    GettersKeepHeads(c, s, schedule);
    CollectedItems(RunFrom(c, Apply(c, s, StartFetch), schedule).worker);
  }

  lemma CollectedItems(w: Worker)
    requires w.Fetching?
    ensures |Held(w)| == |Slot(w.retried)| + |Slot(w.requested)|
    ensures w.retried.Some? ==> Held(w)[0] == w.retried.value
    ensures w.requested.Some? ==> Held(w)[|Held(w)| - 1] == w.requested.value
    ensures w.retried.Some? && w.requested.Some? ==> Held(w) == [w.retried.value, w.requested.value]
  {
  }

  /** A retried item that was waiting when the fetch started is the first to be checked. */
  lemma RetriedItemIsServedFirst(c: Config, s: Client, schedule: seq<Action>, now: real)
    requires Enabled(c, s, StartFetch) && EndFetch !in schedule && s.retryQueue != []
    requires Tick(RunFrom(c, Apply(c, s, StartFetch), schedule), now)
    ensures var waiting := RunFrom(c, Apply(c, s, StartFetch), schedule);
            && Enabled(c, waiting, EndFetch) && Enabled(c, Apply(c, waiting, EndFetch), Visit(now))
            && Apply(c, Apply(c, waiting, EndFetch), Visit(now)).log.calls
               == waiting.log.calls + [CheckCall(s.retryQueue[0].estimate, now)]
  {
    GettersKeepHeads(c, s, schedule);
    var waiting := RunFrom(c, Apply(c, s, StartFetch), schedule);
    CollectedItems(waiting.worker);
    VisitCalls(c, Apply(c, waiting, EndFetch), now);
  }

  lemma VisitCalls(c: Config, s: Client, now: real)
    requires Enabled(c, s, Visit(now))
    ensures Apply(c, s, Visit(now)).log.calls
         == s.log.calls + [CheckCall(s.pending[s.worker.index].estimate, now)]
  {
  }
}
