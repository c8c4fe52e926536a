/** The client's state told from its schedule: what each future got, what was queued again, which calls the
  * limiter saw and in which order a pass went are read off the actions that were taken. */
module DispatchHistory {
  import opened Wrappers
  import opened Strategies
  import opened Dispatch

  // ---------------------------------------------------------------- what the futures get

  datatype Ending = Ending(item: QueueItem, resolution: Resolution)

  /** Which request an action ends, and how: a response is the result, and a fatal error, a transient error
    * with no backoff left, or an estimate beyond the limits is a failure. */
  function Ends(c: Config, s: Client, a: Action): Option<Ending>
    requires Enabled(c, s, a)
  {
    match a
    case Complete(task, Ok(response, _), _) => Some(Ending(s.inflight[task], Result(response)))
    case Complete(task, FatalError, _) => Some(Ending(s.inflight[task], Exception))
    case Complete(task, TransientError, _) =>
      if c.maxBackoffs <= s.numBackoffs then Some(Ending(s.inflight[task], Exception)) else None
    case Visit(_) =>
      var item := s.pending[s.worker.index];
      if WithinLimits(s.limiter, item.estimate) then None else Some(Ending(item, Exception))
    case _ => None
  }

  /** The schedule takes an action that ends the request of this future in this way. */
  predicate Ended(c: Config, s: Client, schedule: seq<Action>, future: nat, resolution: Resolution) {
    schedule != [] &&
    var front, a := schedule[..|schedule| - 1], schedule[|schedule| - 1];
    var before := RunFrom(c, s, front);
    || Ended(c, s, front, future, resolution)
    || (Enabled(c, before, a) && Ends(c, before, a).Some?
        && Ends(c, before, a).value.item.future == future && Ends(c, before, a).value.resolution == resolution)
  }

  /** One action sets exactly the future of the request it ends, to exactly that result. */
  lemma EndingSetsFuture(c: Config, s: Client, a: Action)
    requires Conserved(s) && FuturesInv(s) && Enabled(c, s, a)
    ensures Ends(c, s, a).Some? ==> Ends(c, s, a).value.item.future !in s.futures
    ensures Apply(c, s, a).futures
         == match Ends(c, s, a)
            case Some(Ending(item, resolution)) => s.futures[item.future := resolution]
            case None => s.futures
  {
    if a.Visit? {
      WaitingAtIndex(s);
      OpenFuture(s, s.pending[s.worker.index]);
      VisitSetsFuture(c, s, a.now);
    } else if a.Complete? {
      OpenFuture(s, s.inflight[a.task]);
      CompleteSetsFuture(c, s, a.task, a.outcome, a.now);
    }
  }

  lemma VisitSetsFuture(c: Config, s: Client, now: real)
    requires Enabled(c, s, Visit(now)) && s.pending[s.worker.index].future !in s.futures
    ensures var item := s.pending[s.worker.index];
            Apply(c, s, Visit(now)).futures
            == if WithinLimits(s.limiter, item.estimate) then s.futures else s.futures[item.future := Exception]
  {
    RejectedExactlyBeyondLimits(s.limiter, s.pending[s.worker.index].estimate, now);
  }

  lemma CompleteSetsFuture(c: Config, s: Client, task: nat, outcome: Outcome, now: real)
    requires Enabled(c, s, Complete(task, outcome, now)) && s.inflight[task].future !in s.futures
    ensures Apply(c, s, Complete(task, outcome, now)).futures
         == match Ends(c, s, Complete(task, outcome, now))
            case Some(Ending(item, resolution)) => s.futures[item.future := resolution]
            case None => s.futures
  {
  }

  lemma {:induction false} RunConserves(c: Config, s: Client, schedule: seq<Action>)
    requires Conserved(s) && FuturesInv(s)
    ensures Conserved(RunFrom(c, s, schedule)) && FuturesInv(RunFrom(c, s, schedule))
  {
    if schedule != [] {
      var front, a := schedule[..|schedule| - 1], schedule[|schedule| - 1];
      RunConserves(c, s, front);
      if Enabled(c, RunFrom(c, s, front), a) {
        StepConserves(c, RunFrom(c, s, front), a);
        StepResolves(c, RunFrom(c, s, front), a);
      }
    }
  }

  /** A future has a result exactly when its request ended with it: the response is the one that the task
    * came back with, and a failure is one of the three kinds. */
  lemma {:induction false} ResultsAreOutcomes(c: Config, s: Client, schedule: seq<Action>, future: nat,
                                              resolution: Resolution)
    requires Conserved(s) && FuturesInv(s)
    ensures var futures := RunFrom(c, s, schedule).futures;
            future in futures && futures[future] == resolution
            <==> (future in s.futures && s.futures[future] == resolution) || Ended(c, s, schedule, future, resolution)
  {
    if schedule != [] {
      var front, a := schedule[..|schedule| - 1], schedule[|schedule| - 1];
      ResultsAreOutcomes(c, s, front, future, resolution);
      var before := RunFrom(c, s, front);
      if Enabled(c, before, a) {
        RunConserves(c, s, front);
        EndingSetsFuture(c, before, a);
      }
    }
  }

  // ---------------------------------------------------------------- what is queued again

  /** A timeout is queued again always, a transient error while backoffs are left. */
  function Requeues(c: Config, s: Client, a: Action): seq<QueueItem>
    requires Enabled(c, s, a)
  {
    match a
    case Complete(task, TimedOut, _) => [s.inflight[task]]
    case Complete(task, TransientError, _) => if s.numBackoffs < c.maxBackoffs then [s.inflight[task]] else []
    case _ => []
  }

  function Requeued(c: Config, s: Client, schedule: seq<Action>): seq<QueueItem> {
    if schedule == [] then []
    else
      var front, a := schedule[..|schedule| - 1], schedule[|schedule| - 1];
      var before := RunFrom(c, s, front);
      Requeued(c, s, front) + if Enabled(c, before, a) then Requeues(c, before, a) else []
  }

  /** The items that the schedule's own enqueueing actions carry. */
  function Submitted(c: Config, s: Client, schedule: seq<Action>): seq<QueueItem> {
    if schedule == [] then []
    else
      var front, a := schedule[..|schedule| - 1], schedule[|schedule| - 1];
      Submitted(c, s, front) + if a.Enqueue? && Enabled(c, RunFrom(c, s, front), a) then [a.item] else []
  }

  /** What the retry getter holds after a step in which it took an item. */
  function Retakes(c: Config, s: Client, a: Action): seq<QueueItem>
    requires Enabled(c, s, a)
  {
    if a.StartFetch? || a == RunGetter(true) then RetriedSlot(Apply(c, s, a).worker) else []
  }

  function RetriedSlot(w: Worker): seq<QueueItem> { if w.Fetching? then Slot(w.retried) else [] }

  /** What the request getter holds after a step in which it took an item. */
  function Takes(c: Config, s: Client, a: Action): seq<QueueItem>
    requires Enabled(c, s, a)
  {
    if a.StartFetch? || a == RunGetter(false) then RequestedSlot(Apply(c, s, a).worker) else []
  }

  function RequestedSlot(w: Worker): seq<QueueItem> { if w.Fetching? then Slot(w.requested) else [] }

  function Retaken(c: Config, s: Client, schedule: seq<Action>): seq<QueueItem> {
    if schedule == [] then []
    else
      var front, a := schedule[..|schedule| - 1], schedule[|schedule| - 1];
      var before := RunFrom(c, s, front);
      Retaken(c, s, front) + if Enabled(c, before, a) then Retakes(c, before, a) else []
  }

  function Taken(c: Config, s: Client, schedule: seq<Action>): seq<QueueItem> {
    if schedule == [] then []
    else
      var front, a := schedule[..|schedule| - 1], schedule[|schedule| - 1];
      var before := RunFrom(c, s, front);
      Taken(c, s, front) + if Enabled(c, before, a) then Takes(c, before, a) else []
  }

  lemma StepOnQueues(c: Config, s: Client, a: Action)
    requires Enabled(c, s, a)
    ensures Retakes(c, s, a) + Apply(c, s, a).retryQueue == s.retryQueue + Requeues(c, s, a)
    ensures Takes(c, s, a) + Apply(c, s, a).requestQueue == s.requestQueue + if a.Enqueue? then [a.item] else []
  {
    if a.Complete? {
      CompleteOnQueues(c, s, a);
    } else if a.StartFetch? || a.RunGetter? {
      HeadThenRest(s.retryQueue);
      HeadThenRest(s.requestQueue);
    }
  }

  lemma HeadThenRest(queue: seq<QueueItem>)
    ensures Slot(Head(queue)) + Rest(queue) == queue && queue + [] == queue
  {
  }

  lemma CompleteOnQueues(c: Config, s: Client, a: Action)
    requires Enabled(c, s, a) && a.Complete?
    ensures Apply(c, s, a).retryQueue == s.retryQueue + Requeues(c, s, a)
    ensures Apply(c, s, a).requestQueue == s.requestQueue
  {
  }

  /** Both queues are first in, first out: what left a queue, followed by what is still in it, is what was
    * in it, followed by what the schedule put there. */
  lemma {:induction false} QueuesKeepOrder(c: Config, s: Client, schedule: seq<Action>)
    ensures Retaken(c, s, schedule) + RunFrom(c, s, schedule).retryQueue == s.retryQueue + Requeued(c, s, schedule)
    ensures Taken(c, s, schedule) + RunFrom(c, s, schedule).requestQueue == s.requestQueue + Submitted(c, s, schedule)
  {
    if schedule == [] {
      assert s.retryQueue + [] == s.retryQueue && s.requestQueue + [] == s.requestQueue;
    } else {
      var front, a := schedule[..|schedule| - 1], schedule[|schedule| - 1];
      QueuesKeepOrder(c, s, front);
      var before := RunFrom(c, s, front);
      if Enabled(c, before, a) {
        var after := Apply(c, before, a);
        StepOnQueues(c, before, a);
        QueueStep(Retaken(c, s, front), before.retryQueue, s.retryQueue, Requeued(c, s, front), Retakes(c, before, a),
                  after.retryQueue, Requeues(c, before, a));
        QueueStep(Taken(c, s, front), before.requestQueue, s.requestQueue, Submitted(c, s, front), Takes(c, before, a),
                  after.requestQueue, if a.Enqueue? then [a.item] else []);
      } else {
        assert Requeued(c, s, schedule) == Requeued(c, s, front) && Submitted(c, s, schedule) == Submitted(c, s, front);
        assert Retaken(c, s, schedule) == Retaken(c, s, front) && Taken(c, s, schedule) == Taken(c, s, front);
      }
    }
  }

  lemma QueueStep(gone: seq<QueueItem>, before: seq<QueueItem>, start: seq<QueueItem>, put: seq<QueueItem>,
                  goes: seq<QueueItem>, after: seq<QueueItem>, puts: seq<QueueItem>)
    requires gone + before == start + put && goes + after == before + puts
    ensures (gone + goes) + after == start + (put + puts)
  {
    assert (gone + goes) + after == gone + (goes + after) == gone + (before + puts) == (gone + before) + puts;
    assert (start + put) + puts == start + (put + puts);
  }

  // ---------------------------------------------------------------- what the limiter sees

  /** The limiter is asked about the item visited, told the usage a provider reported for a reservation,
    * and told of backoffs and provider limits; nothing else. */
  function CallsOf(c: Config, s: Client, a: Action): seq<Call>
    requires Enabled(c, s, a)
  {
    match a
    case Visit(now) => [CheckCall(s.pending[s.worker.index].estimate, now)]
    case Complete(task, Ok(_, Some(usage)), now) =>
      if s.inflight[task].estimate.TotalTokens() > 0 then [SettleCall(s.inflight[task].estimate, usage, now)] else []
    case EndBackoff(now) => [BackoffCall(now)]
    case Hint(rpmHint, retryAt, now) => [HintCall(rpmHint, retryAt, now)]
    case _ => []
  }

  function AllCalls(c: Config, s: Client, schedule: seq<Action>): seq<Call> {
    if schedule == [] then []
    else
      var front, a := schedule[..|schedule| - 1], schedule[|schedule| - 1];
      var before := RunFrom(c, s, front);
      AllCalls(c, s, front) + if Enabled(c, before, a) then CallsOf(c, before, a) else []
  }

  lemma StepCallsAre(c: Config, s: Client, a: Action)
    requires Enabled(c, s, a)
    ensures Apply(c, s, a).log.calls == s.log.calls + CallsOf(c, s, a)
  {
    assert s.log.calls + [] == s.log.calls;
    if a.Visit? {
      VisitCalls(c, s, a.now);
    }
  }

  /** The limiter is where exactly the calls of the schedule took it, and the backoffs are counted. */
  lemma {:induction false} LimiterSeesSchedule(c: Config, l0: Strategy, now: real, schedule: seq<Action>)
    requires ValidConfig(c) && Strategies.Valid(l0) && LastUpdate(l0) <= now && 0.0 <= now
    ensures var s' := RunFrom(c, Initial(l0, now), schedule);
            s'.limiter == After(l0, AllCalls(c, Initial(l0, now), schedule))
            && s'.numBackoffs == BackoffsIn(AllCalls(c, Initial(l0, now), schedule))
  {
    LimiterFollowsLog(c, l0, now, schedule);
    CallsAreLogged(c, Initial(l0, now), schedule);
    NothingLogged(AllCalls(c, Initial(l0, now), schedule));
  }

  lemma LimiterFollowsLog(c: Config, l0: Strategy, now: real, schedule: seq<Action>)
    requires ValidConfig(c) && Strategies.Valid(l0) && LastUpdate(l0) <= now && 0.0 <= now
    ensures var s' := RunFrom(c, Initial(l0, now), schedule);
            s'.limiter == After(l0, s'.log.calls)
  {
    RunKeepsInv(c, l0, now, schedule);
  }

  lemma NothingLogged(calls: seq<Call>)
    ensures [] + calls == calls
  {
  }

  function BackoffsIn(calls: seq<Call>): nat {
    if calls == [] then 0
    else BackoffsIn(calls[..|calls| - 1]) + if calls[|calls| - 1].BackoffCall? then 1 else 0
  }

  lemma {:induction false} CallsAreLogged(c: Config, s: Client, schedule: seq<Action>)
    ensures RunFrom(c, s, schedule).log.calls == s.log.calls + AllCalls(c, s, schedule)
    ensures RunFrom(c, s, schedule).numBackoffs == s.numBackoffs + BackoffsIn(AllCalls(c, s, schedule))
  {
    if schedule == [] {
      assert s.log.calls + [] == s.log.calls;
    } else {
      var front, a := schedule[..|schedule| - 1], schedule[|schedule| - 1];
      CallsAreLogged(c, s, front);
      var before := RunFrom(c, s, front);
      if Enabled(c, before, a) {
        StepCallsAre(c, before, a);
        StepCountsBackoffs(c, before, a);
        BackoffsAppend(AllCalls(c, s, front), CallsOf(c, before, a));
      } else {
        assert AllCalls(c, s, schedule) == AllCalls(c, s, front);
      }
    }
  }

  lemma StepCountsBackoffs(c: Config, s: Client, a: Action)
    requires Enabled(c, s, a)
    ensures |CallsOf(c, s, a)| <= 1
    ensures Apply(c, s, a).numBackoffs == s.numBackoffs + if a.EndBackoff? then 1 else 0
    ensures CallsOf(c, s, a) != [] && CallsOf(c, s, a)[0].BackoffCall? <==> a.EndBackoff?
  {
  }

  lemma BackoffsAppend(calls: seq<Call>, more: seq<Call>)
    requires |more| <= 1
    ensures BackoffsIn(calls + more) == BackoffsIn(calls) + if more != [] && more[0].BackoffCall? then 1 else 0
  {
    if more == [] {
      assert calls + more == calls;
    } else {
      assert (calls + more)[..|calls|] == calls;
    }
  }

  // ---------------------------------------------------------------- the order of a pass

  /** How many of its items a pass has visited. */
  function VisitedCount(w: Worker): nat
    requires InPass(w)
  {
    if w.Visiting? then w.index else w.index + 1
  }

  /** The items that the limiter was asked about, in order. */
  function Visited(c: Config, s: Client, schedule: seq<Action>): seq<QueueItem> {
    if schedule == [] then []
    else
      var front, a := schedule[..|schedule| - 1], schedule[|schedule| - 1];
      var before := RunFrom(c, s, front);
      Visited(c, s, front)
      + if a.Visit? && Enabled(c, before, a) then [before.pending[before.worker.index]] else []
  }

  /** The same for those whose turn ended with the given verdict. */
  function VisitedWith(c: Config, s: Client, schedule: seq<Action>, refused: bool): seq<QueueItem> {
    if schedule == [] then []
    else
      var front, a := schedule[..|schedule| - 1], schedule[|schedule| - 1];
      var before := RunFrom(c, s, front);
      VisitedWith(c, s, front, refused)
      + if a.Visit? && Enabled(c, before, a) && (VerdictOf(before, a.now) == Refused <==> refused)
        then [before.pending[before.worker.index]] else []
  }

  function VerdictOf(s: Client, now: real): Verdict
    requires s.worker.Visiting? && s.worker.index < |s.pending|
  {
    Check(s.limiter, s.pending[s.worker.index].estimate, now).1
  }

  /** What a pass over these items has done so far: it visited a prefix of them in order, dealt with those
    * that were not refused, and left the refused ones waiting, in order. */
  ghost predicate PassIs(s: Client, pending: seq<QueueItem>, visited: seq<QueueItem>, served: seq<QueueItem>,
                         refused: seq<QueueItem>) {
    && InPass(s.worker) && s.pending == pending
    && VisitedCount(s.worker) <= |pending| && visited == pending[..VisitedCount(s.worker)]
    && s.worker.processed == served
    && multiset(served) <= multiset(visited) && Remaining(visited, served) == refused
  }

  lemma StepOfPass(c: Config, s: Client, a: Action)
    requires Enabled(c, s, a) && InPass(s.worker) && !a.FinishPass?
    ensures var s' := Apply(c, s, a);
            && InPass(s'.worker) && s'.pending == s.pending
            && VisitedCount(s'.worker) == VisitedCount(s.worker) + (if a.Visit? then 1 else 0)
            && s'.worker.processed
               == s.worker.processed + if a.Visit? && VerdictOf(s, a.now) != Refused then [s.pending[s.worker.index]]
                                       else []
  {
  }

  lemma {:induction false} RemoveFirstAppend<T>(s: seq<T>, x: T, last: T)
    requires x in s
    ensures RemoveFirst(s + [last], x) == RemoveFirst(s, x) + [last]
  {
    if s[0] != x {
      assert (s + [last])[1..] == s[1..] + [last];
      RemoveFirstAppend(s[1..], x, last);
    } else {
      assert (s + [last])[1..] == s[1..] + [last];
    }
  }

  lemma {:induction false} RemainingAppend<T>(items: seq<T>, last: T, served: seq<T>)
    requires multiset(served) <= multiset(items)
    ensures Remaining(items + [last], served) == Remaining(items, served) + [last]
  {
    if served != [] {
      var front, x := served[..|served| - 1], served[|served| - 1];
      assert served == front + [x];
      RemainingTakesProcessed(items, served);
      RemainingAppend(items, last, front);
      RemoveFirstAppend(Remaining(items, front), x, last);
    }
  }

  lemma {:induction false} RemoveLast<T>(s: seq<T>, x: T)
    requires x !in s
    ensures RemoveFirst(s + [x], x) == s
  {
    if s == [] {
      assert s + [x] == [x];
    } else {
      assert (s + [x])[1..] == s[1..] + [x];
      RemoveLast(s[1..], x);
    }
  }

  /** One more item of the pass: it stays when it was refused and goes otherwise. */
  lemma RemainingExtends(visited: seq<QueueItem>, item: QueueItem, served: seq<QueueItem>, refused: bool)
    requires multiset(served) <= multiset(visited) && item !in visited
    ensures Remaining(visited + [item], if refused then served else served + [item])
         == Remaining(visited, served) + if refused then [item] else []
    ensures multiset(if refused then served else served + [item]) <= multiset(visited + [item])
  {
    RemainingAppend(visited, item, served);
    assert multiset(visited + [item]) == multiset(visited) + multiset{item};
    if !refused {
      assert multiset(served + [item]) == multiset(served) + multiset{item};
      RemainingTakesProcessed(visited, served);
      assert item !in multiset(visited);
      assert item !in Remaining(visited, served);
      RemoveLast(Remaining(visited, served), item);
      assert (served + [item])[..|served|] == served;
    }
  }

  ghost predicate NoRepeats(items: seq<QueueItem>) {
    forall i, j :: 0 <= i < j < |items| ==> items[i] != items[j]
  }

  lemma PassStep(c: Config, s: Client, a: Action, pending: seq<QueueItem>, visited: seq<QueueItem>,
                 served: seq<QueueItem>, refused: seq<QueueItem>)
    requires Enabled(c, s, a) && !a.FinishPass? && NoRepeats(pending) && PassIs(s, pending, visited, served, refused)
    ensures var s' := Apply(c, s, a);
            if !a.Visit? then PassIs(s', pending, visited, served, refused)
            else
              var item := [s.pending[s.worker.index]];
              if VerdictOf(s, a.now) == Refused then PassIs(s', pending, visited + item, served, refused + item)
              else PassIs(s', pending, visited + item, served + item, refused)
  {
    StepOfPass(c, s, a);
    if a.Visit? {
      PassExtends(s, Apply(c, s, a), pending, visited, served, refused, VerdictOf(s, a.now) == Refused);
    }
  }

  lemma PassExtends(s: Client, s': Client, pending: seq<QueueItem>, visited: seq<QueueItem>, served: seq<QueueItem>,
                    refused: seq<QueueItem>, refusal: bool)
    requires PassIs(s, pending, visited, served, refused) && s.worker.Visiting? && s.worker.index < |pending|
    requires NoRepeats(pending) && InPass(s'.worker) && s'.pending == pending
    requires VisitedCount(s'.worker) == VisitedCount(s.worker) + 1
    requires s'.worker.processed == s.worker.processed + if refusal then [] else [pending[s.worker.index]]
    ensures var item := [pending[s.worker.index]];
            if refusal then PassIs(s', pending, visited + item, served, refused + item)
            else PassIs(s', pending, visited + item, served + item, refused)
  {
    var item := pending[s.worker.index];
    assert pending[..s.worker.index + 1] == visited + [item];
    RemainingExtends(visited, item, served, refusal);
    assert refused + [] == refused && served + [] == served;
  }

  lemma {:induction false} PassGoesInOrder(c: Config, s: Client, schedule: seq<Action>)
    requires s.worker == Visiting(0, []) && NoRepeats(s.pending) && FinishPass !in schedule
    ensures PassIs(RunFrom(c, s, schedule), s.pending, Visited(c, s, schedule), VisitedWith(c, s, schedule, false),
                   VisitedWith(c, s, schedule, true))
  {
    if schedule != [] {
      var front, a := schedule[..|schedule| - 1], schedule[|schedule| - 1];
      PassGoesInOrder(c, s, front);
      var before := RunFrom(c, s, front);
      if Enabled(c, before, a) {
        PassStep(c, before, a, s.pending, Visited(c, s, front), VisitedWith(c, s, front, false),
                 VisitedWith(c, s, front, true));
      }
    }
  }

  /** A pass asks the limiter about each pending item exactly once, in order; it takes away exactly those
    * that were not refused; and those that were stay pending in their order. */
  lemma PassVisitsAllInOrder(c: Config, s: Client, schedule: seq<Action>)
    requires Conserved(s) && s.worker == Visiting(0, []) && FinishPass !in schedule
    requires Enabled(c, RunFrom(c, s, schedule), FinishPass)
    ensures Visited(c, s, schedule) == s.pending
    ensures Apply(c, RunFrom(c, s, schedule), FinishPass).pending == VisitedWith(c, s, schedule, true)
  {
    PendingIsDistinct(s);
    PassGoesInOrder(c, s, schedule);
    assert s.pending[..|s.pending|] == s.pending;
  }

  lemma PendingIsDistinct(s: Client)
    requires Conserved(s) && Processed(s.worker) == []
    ensures NoRepeats(s.pending)
  {
    forall i, j | 0 <= i < j < |s.pending| ensures s.pending[i] != s.pending[j] {
      if s.pending[i] == s.pending[j] {
        TwiceInSequence(s.pending, i, j);
        MinusNothing(multiset(s.pending));
        EachItemInOnePlace(s, s.pending[i]);
      }
    }
  }

  // ---------------------------------------------------------------- when the worker sleeps

  /** At a decision the worker goes to sleep exactly when a transient error is recorded whose backoff time
    * is not over, and it sleeps until that time is over. */
  lemma SleepsExactlyWhen(c: Config, s: Client, a: Action)
    requires Enabled(c, s, a) && Decides(s, a)
    ensures var w, end := Apply(c, s, a).worker, s.lastTransient + BackoffTime(c, s.numBackoffs);
            && (w.BackingOff? <==> 0.0 < s.lastTransient && a.now < end)
            && (w.BackingOff? ==> w.wakeAt == end)
  {
  }

  /** Every item that is not beyond the limits is followed by such a decision: at once when it was admitted,
    * and after a wait when it was refused, during which the worker can do nothing else. */
  lemma VisitLeadsToDecision(c: Config, s: Client, now: real, later: real, worker: Action)
    requires Enabled(c, s, Visit(now)) && VerdictOf(s, now) == Refused
    requires worker.StartFetch? || worker.RunGetter? || worker.EndFetch? || worker.BeginPass? || worker.Visit?
             || worker.EndBackoff? || worker.FinishPass?
    ensures var s' := Apply(c, s, Visit(now));
            && s'.worker.AwaitingRefill? && s'.pending == s.pending
            && !Enabled(c, s', worker)
            && (now <= later ==> Enabled(c, s', Refilled(later)) && Decides(s', Refilled(later)))
  {
  }

  /** A sleep lasts until its end, whatever else happens. */
  lemma {:induction false} SleepLasts(c: Config, s: Client, schedule: seq<Action>)
    requires s.worker.BackingOff?
    ensures var s' := RunFrom(c, s, schedule);
            s.clock <= s'.clock && (s'.worker == s.worker || s.worker.wakeAt <= s'.clock)
  {
    if schedule != [] {
      var front, a := schedule[..|schedule| - 1], schedule[|schedule| - 1];
      SleepLasts(c, s, front);
      if Enabled(c, RunFrom(c, s, front), a) {
        StepOfSleep(c, RunFrom(c, s, front), a);
      }
    }
  }

  lemma StepOfSleep(c: Config, s: Client, a: Action)
    requires Enabled(c, s, a)
    ensures s.clock <= Apply(c, s, a).clock
    ensures s.worker.BackingOff? ==> Apply(c, s, a).worker == s.worker || s.worker.wakeAt <= Apply(c, s, a).clock
  {
  }

  /** The backoff times: the initial one, then each the one before times the factor, but at most a minute,
    * where a factor of at least one keeps them. */
  lemma BackoffTimesGrow(c: Config, n: nat)
    ensures BackoffTime(c, 0) == if c.initialBackoff <= 60.0 then c.initialBackoff else 60.0
    ensures BackoffTime(c, n) <= 60.0
    ensures BackoffTime(c, n) < 60.0 ==>
              BackoffTime(c, n + 1)
              == if c.backoffFactor * BackoffTime(c, n) <= 60.0 then c.backoffFactor * BackoffTime(c, n) else 60.0
    ensures BackoffTime(c, n) == 60.0 && c.backoffFactor >= 1.0 ==> BackoffTime(c, n + 1) == 60.0
  {
    var raw := c.initialBackoff * Power(c.backoffFactor, n);
    assert c.initialBackoff * Power(c.backoffFactor, n + 1) == c.backoffFactor * raw;
    if raw >= 60.0 && c.backoffFactor >= 1.0 {
      assert c.backoffFactor * raw >= 1.0 * raw;
    }
  }

  // ---------------------------------------------------------------- no deadlock

  /** The worker's own steps. */
  predicate WorkerCanMove(c: Config, s: Client, now: real) {
    || Enabled(c, s, StartFetch) || Enabled(c, s, RunGetter(true)) || Enabled(c, s, RunGetter(false))
    || Enabled(c, s, EndFetch) || Enabled(c, s, BeginPass) || Enabled(c, s, Visit(now))
    || Enabled(c, s, Refilled(now)) || Enabled(c, s, EndBackoff(now)) || Enabled(c, s, FinishPass)
  }

  /** In every reachable state the worker can move once its sleep is over, unless it waits for an item and
    * both queues are empty. */
  lemma WorkerWaitsExactlyWhen(c: Config, s: Client, now: real)
    requires Conserved(s) && Tick(s, now) && (s.worker.BackingOff? ==> s.worker.wakeAt <= now)
    ensures WorkerCanMove(c, s, now)
        <==> !(s.worker.Fetching? && Held(s.worker) == [] && s.requestQueue == [] && s.retryQueue == [])
  {
    if InPass(s.worker) {
      PassCanMove(c, s, now);
    } else if s.worker.Fetching? {
      FetchCanMove(c, s, now);
    }
  }

  lemma PassCanMove(c: Config, s: Client, now: real)
    requires PassInv(s) && InPass(s.worker) && Tick(s, now) && (s.worker.BackingOff? ==> s.worker.wakeAt <= now)
    ensures WorkerCanMove(c, s, now)
  {
    if s.worker.Visiting? {
      assert Enabled(c, s, Visit(now)) || Enabled(c, s, FinishPass);
    } else if s.worker.BackingOff? {
      assert Enabled(c, s, EndBackoff(now));
    } else {
      assert Enabled(c, s, Refilled(now));
    }
  }

  lemma FetchCanMove(c: Config, s: Client, now: real)
    requires s.worker.Fetching?
    ensures WorkerCanMove(c, s, now) <==> !(Held(s.worker) == [] && s.requestQueue == [] && s.retryQueue == [])
  {
    var gets := Enabled(c, s, RunGetter(true)) || Enabled(c, s, RunGetter(false));
    assert Enabled(c, s, EndFetch) <==> Held(s.worker) != [];
    assert s.worker.retried.Some? || s.worker.requested.Some? ==> Held(s.worker) != [];
  }

  // ---------------------------------------------------------------- when a submission raises

  /** An item of the thread has failed. */
  ghost predicate HasFailedItem(s: Client, thread: nat) {
    exists i: nat :: Failed(s, thread, i)
  }

  /** The check at the start of a submission raises exactly when an item of the same thread has failed;
    * otherwise, and only then, the thread goes on. */
  lemma ChecksRaiseExactlyWhen(c: Config, s: Client, thread: nat)
    requires FuturesInv(s) && Enabled(c, s, CheckThread(thread))
    ensures var s' := Apply(c, s, CheckThread(thread));
            && s'.log.raised == s.log.raised + (if HasFailedItem(s, thread) then [thread] else [])
            && s'.submitting == s.submitting + (if HasFailedItem(s, thread) then {} else {thread})
  {
    assert s.log.raised + [] == s.log.raised && s.submitting + {} == s.submitting;
  }
}
