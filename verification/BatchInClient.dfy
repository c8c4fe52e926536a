/** A batch submitted through the model client: the submission loop of Batch.dfy and the dispatch protocol
  * of Dispatch.dfy as one state machine.
  *
  * The client decides whether a submission raises, and resolves the futures; the submission decides what
  * is enqueued.  Setting an item's future runs its callbacks at once, so a batch is notified in the step
  * that sets the future. */
module BatchInClient {
  import opened Wrappers
  import opened Strategies
  import D = Dispatch
  import H = DispatchHistory
  import B = Batch

  /** One batch of one thread; `futures` are the new futures of its positions. */
  datatype Setup = Setup(config: D.Config, input: B.Input, thread: nat, futures: seq<nat>)

  datatype Joint = Joint(client: D.Client, batch: B.Batch)

  /** `Check` and `Place` are the thread's own steps for its next request; everything else that happens to
    * the client, other threads included, is an `Other`. */
  datatype Action = Check | Place | Other(action: D.Action)

  predicate ValidSetup(setup: Setup) {
    && D.ValidConfig(setup.config) && |setup.futures| == |setup.input.requests|
    && forall i, j :: 0 <= i < j < |setup.futures| ==> setup.futures[i] != setup.futures[j]
  }

  function ItemAt(setup: Setup, p: nat): D.QueueItem
    requires p < |setup.futures|
  {
    D.QueueItem(setup.futures[p], setup.thread, B.EstimateAt(setup.input, p))
  }

  function AnswerOf(resolution: D.Resolution): B.Answer {
    match resolution
    case Result(response) => B.Response(response)
    case Exception => B.Failed
  }

  /** What the client has answered to the item of a position. */
  function AnswerAt(setup: Setup, client: D.Client, p: nat): Option<B.Answer>
    requires p < |setup.futures|
  {
    if setup.futures[p] in client.futures then Some(AnswerOf(client.futures[setup.futures[p]])) else None
  }

  // ---------------------------------------------------------------- the steps

  predicate Submitting(setup: Setup, j: Joint) {
    !j.batch.aborted && |j.batch.futures| < |setup.input.requests|
  }

  /** The thread runs one batch at a time, and nobody else has the batch's futures. */
  predicate Foreign(setup: Setup, a: D.Action) {
    match a
    case CheckThread(thread) => thread != setup.thread
    case Skip(thread) => thread != setup.thread
    case Enqueue(item) => item.threadId != setup.thread && item.future !in setup.futures
    case _ => true
  }

  predicate Enabled(setup: Setup, j: Joint, a: Action)
    requires ValidSetup(setup)
  {
    match a
    case Check => Submitting(setup, j) && setup.thread !in j.client.submitting
    case Place =>
      && Submitting(setup, j) && setup.thread in j.client.submitting
      && (var n := |j.batch.futures|;
          B.IsPrimary(setup.input, n) ==> D.Enabled(setup.config, j.client, D.Enqueue(ItemAt(setup, n))))
    case Other(action) => Foreign(setup, action) && D.Enabled(setup.config, j.client, action)
  }

  function Apply(setup: Setup, j: Joint, a: Action): Joint
    requires ValidSetup(setup) && Enabled(setup, j, a)
  {
    match a
    case Check =>
      Joint(D.Apply(setup.config, j.client, D.CheckThread(setup.thread)),
            if setup.thread in j.client.threadExceptions then B.Apply(setup.input, j.batch, B.Submit(true))
            else j.batch)
    case Place =>
      Joint(D.Apply(setup.config, j.client, PlaceAction(setup, |j.batch.futures|)),
            B.Apply(setup.input, j.batch, B.Submit(false)))
    case Other(action) =>
      var client := D.Apply(setup.config, j.client, action);
      Joint(client, Notify(setup, j.batch, j.client, client))
  }

  /** What the thread does after its check: only a key that is new and misses the cache is enqueued. */
  function PlaceAction(setup: Setup, n: nat): D.Action
    requires ValidSetup(setup) && n < |setup.input.requests|
  {
    if B.IsPrimary(setup.input, n) then D.Enqueue(ItemAt(setup, n)) else D.Skip(setup.thread)
  }

  /** The position whose future the client has just set. */
  function JustSet(setup: Setup, positions: seq<nat>, before: D.Client, after: D.Client): Option<nat> {
    if positions == [] then None
    else
      var p := positions[|positions| - 1];
      if p < |setup.futures| && setup.futures[p] in after.futures && setup.futures[p] !in before.futures then Some(p)
      else JustSet(setup, positions[..|positions| - 1], before, after)
  }

  function Notify(setup: Setup, b: B.Batch, before: D.Client, after: D.Client): B.Batch
    requires ValidSetup(setup)
  {
    match JustSet(setup, b.enqueued, before, after)
    case None => b
    case Some(p) =>
      if p < |setup.futures| && setup.futures[p] in after.futures then Set(setup, b, p, after) else b
  }

  function Set(setup: Setup, b: B.Batch, p: nat, client: D.Client): B.Batch
    requires p < |setup.futures| && setup.futures[p] in client.futures
  {
    var resolve := B.Resolve(p, AnswerOf(client.futures[setup.futures[p]]));
    if B.Enabled(setup.input, b, resolve) then B.Apply(setup.input, b, resolve) else b
  }

  // ---------------------------------------------------------------- the invariant

  ghost predicate EnqueuedId(client: D.Client, future: nat) {
    exists i :: 0 <= i < |client.log.enqueued| && client.log.enqueued[i].future == future
  }

  /** Exactly the items of the enqueued positions are in the client, and their futures agree. */
  ghost predicate Linked(setup: Setup, client: D.Client, b: B.Batch) {
    && |setup.futures| == |setup.input.requests|
    && (forall p :: p in b.enqueued ==>
          && p < |b.futures| <= |setup.futures|
          && ItemAt(setup, p) in client.log.enqueued
          && b.futures[p] == AnswerAt(setup, client, p))
    && (forall p: nat :: p < |setup.futures| && p !in b.enqueued ==> !EnqueuedId(client, setup.futures[p]))
  }

  ghost predicate JointInv(setup: Setup, l0: Strategy, j: Joint) {
    && D.Inv(setup.config, l0, j.client) && B.Inv(setup.input, j.batch)
    && Linked(setup, j.client, j.batch)
    && (j.batch.aborted ==> setup.thread in j.client.threadExceptions)
  }

  // ---------------------------------------------------------------- its steps

  lemma OnlyEnqueueEnqueues(c: D.Config, s: D.Client, a: D.Action)
    requires D.Enabled(c, s, a)
    ensures D.Apply(c, s, a).log.enqueued == s.log.enqueued + if a.Enqueue? then [a.item] else []
  {
  }

  /** A future that is set belongs to an enqueued item. */
  lemma SetFuturesAreEnqueued(s: D.Client, future: nat)
    requires D.Conserved(s) && D.FuturesInv(s) && future in s.futures
    ensures EnqueuedId(s, future)
  {
    assert future in D.FutureIds(s.log.resolved);
    var i :| 0 <= i < |s.log.resolved| && s.log.resolved[i].future == future;
    D.PlacedItemsWereEnqueued(s, s.log.resolved[i]);
  }

  lemma {:induction false} JustSetFinds(setup: Setup, positions: seq<nat>, before: D.Client, after: D.Client)
    ensures match JustSet(setup, positions, before, after)
            case Some(p) => p in positions && p < |setup.futures|
                            && setup.futures[p] in after.futures && setup.futures[p] !in before.futures
            case None => forall p :: p in positions && p < |setup.futures| && setup.futures[p] in after.futures ==>
                           setup.futures[p] in before.futures
  {
    if positions != [] {
      JustSetFinds(setup, positions[..|positions| - 1], before, after);
    }
  }

  /** Setting the future of one enqueued position leaves the other enqueued positions as they are. */
  lemma ResolvingOneLeavesOthers(input: B.Input, b: B.Batch, p: nat, answer: B.Answer, q: nat)
    requires B.Inv(input, b) && B.Enabled(input, b, B.Resolve(p, answer)) && q in b.enqueued
    ensures q < |b.futures| && |B.Apply(input, b, B.Resolve(p, answer)).futures| == |b.futures|
    ensures B.Apply(input, b, B.Resolve(p, answer)).futures[q] == if q == p then Some(answer) else b.futures[q]
  {
    B.PrimariesAreMisses(input, |b.futures|);
  }

  /** One step of the client, seen by the batch. */
  lemma NotifyKeepsLink(setup: Setup, b: B.Batch, before: D.Client, after: D.Client)
    requires ValidSetup(setup) && B.Inv(setup.input, b) && Linked(setup, before, b)
    requires D.ResolvesAtMostOne(before, after)
    requires forall item :: item in before.log.enqueued ==> item in after.log.enqueued
    requires forall p: nat :: p < |setup.futures| && p !in b.enqueued ==> !EnqueuedId(after, setup.futures[p])
    requires forall f :: f in before.futures ==> f in after.futures && after.futures[f] == before.futures[f]
    ensures var b' := Notify(setup, b, before, after);
            && B.Inv(setup.input, b') && Linked(setup, after, b')
            && b'.aborted == b.aborted && b'.enqueued == b.enqueued && |b'.futures| == |b.futures|
  {
    JustSetFinds(setup, b.enqueued, before, after);
    match JustSet(setup, b.enqueued, before, after) {
      case None =>
        forall p | p in b.enqueued ensures AnswerAt(setup, after, p) == AnswerAt(setup, before, p) {
        }
      case Some(p) =>
        var answer := AnswerOf(after.futures[setup.futures[p]]);
        B.StepKeepsInv(setup.input, b, B.Resolve(p, answer));
        forall q | q in b.enqueued
          ensures Set(setup, b, p, after).futures[q] == AnswerAt(setup, after, q)
        {
          ResolvingOneLeavesOthers(setup.input, b, p, answer, q);
          OnlyOneIsSet(setup, before, after, p, q);
        }
    }
  }

  lemma OnlyOneIsSet(setup: Setup, before: D.Client, after: D.Client, p: nat, q: nat)
    requires ValidSetup(setup) && D.ResolvesAtMostOne(before, after)
    requires p < |setup.futures| && q < |setup.futures|
    requires setup.futures[p] in after.futures && setup.futures[p] !in before.futures
    ensures q != p ==> AnswerAt(setup, after, q) == AnswerAt(setup, before, q)
  {
  }

  lemma OtherKeepsInv(setup: Setup, l0: Strategy, j: Joint, a: D.Action)
    requires ValidSetup(setup) && Strategies.Valid(l0) && JointInv(setup, l0, j) && Enabled(setup, j, Other(a))
    ensures JointInv(setup, l0, Apply(setup, j, Other(a)))
  {
    var client := D.Apply(setup.config, j.client, a);
    D.StepKeepsInv(setup.config, l0, j.client, a);
    D.StepResolves(setup.config, j.client, a);
    OnlyEnqueueEnqueues(setup.config, j.client, a);
    forall p: nat | p < |setup.futures| && p !in j.batch.enqueued ensures !EnqueuedId(client, setup.futures[p]) {
      NewItemIsForeign(setup, j.client, client, a, p);
    }
    NotifyKeepsLink(setup, j.batch, j.client, client);
  }

  lemma NewItemIsForeign(setup: Setup, before: D.Client, after: D.Client, a: D.Action, p: nat)
    requires p < |setup.futures| && Foreign(setup, a) && !EnqueuedId(before, setup.futures[p])
    requires after.log.enqueued == before.log.enqueued + if a.Enqueue? then [a.item] else []
    ensures !EnqueuedId(after, setup.futures[p])
  {
    forall i | 0 <= i < |after.log.enqueued| ensures after.log.enqueued[i].future != setup.futures[p] {
      if i < |before.log.enqueued| {
        assert after.log.enqueued[i] == before.log.enqueued[i];
      } else {
        assert after.log.enqueued[i] == a.item;
      }
    }
  }

  /** The link depends on the results and the items of the client, and on the futures of the batch only. */
  lemma SameLink(setup: Setup, before: D.Client, after: D.Client, b: B.Batch, b': B.Batch)
    requires Linked(setup, before, b)
    requires after.futures == before.futures && after.log.enqueued == before.log.enqueued
    requires b'.enqueued == b.enqueued && b'.futures == b.futures
    ensures Linked(setup, after, b')
  {
    assert forall f :: EnqueuedId(after, f) <==> EnqueuedId(before, f);
  }

  lemma CheckShape(c: D.Config, s: D.Client, thread: nat)
    requires D.Enabled(c, s, D.CheckThread(thread))
    ensures var s' := D.Apply(c, s, D.CheckThread(thread));
            s'.futures == s.futures && s'.log.enqueued == s.log.enqueued && s'.threadExceptions == s.threadExceptions
  {
  }

  lemma CheckKeepsInv(setup: Setup, l0: Strategy, j: Joint)
    requires ValidSetup(setup) && Strategies.Valid(l0) && JointInv(setup, l0, j) && Enabled(setup, j, Check)
    ensures JointInv(setup, l0, Apply(setup, j, Check))
  {
    var j' := Apply(setup, j, Check);
    D.StepKeepsInv(setup.config, l0, j.client, D.CheckThread(setup.thread));
    CheckShape(setup.config, j.client, setup.thread);
    AbortKeepsInv(setup, j, j');
  }

  lemma AbortKeepsInv(setup: Setup, j: Joint, j': Joint)
    requires B.Inv(setup.input, j.batch) && Linked(setup, j.client, j.batch)
    requires j'.client.futures == j.client.futures && j'.client.log.enqueued == j.client.log.enqueued
    requires j'.batch == j.batch || j'.batch == j.batch.(aborted := true)
    ensures B.Inv(setup.input, j'.batch) && Linked(setup, j'.client, j'.batch)
  {
    SameLink(setup, j.client, j'.client, j.batch, j'.batch);
  }

  /** What placing a request does to the client. */
  lemma PlaceShape(setup: Setup, s: D.Client, n: nat)
    requires ValidSetup(setup) && n < |setup.futures| && D.Enabled(setup.config, s, PlaceAction(setup, n))
    ensures var s' := D.Apply(setup.config, s, PlaceAction(setup, n));
            && s'.futures == s.futures && s'.threadExceptions == s.threadExceptions
            && s'.log.enqueued
               == s.log.enqueued + if B.IsPrimary(setup.input, n) then [ItemAt(setup, n)] else []
  {
  }

  predicate Places(setup: Setup, b: B.Batch, b': B.Batch)
    requires ValidSetup(setup) && |b.futures| < |setup.futures|
  {
    var n := |b.futures|;
    var primary := B.IsPrimary(setup.input, n);
    && |b'.futures| == n + 1 && b'.futures[..n] == b.futures && (primary ==> b'.futures[n] == None)
    && b'.enqueued == b.enqueued + if primary then [n] else []
  }

  lemma SubmitPlaces(setup: Setup, b: B.Batch)
    requires ValidSetup(setup) && B.Inv(setup.input, b) && |b.futures| < |setup.futures|
    ensures Places(setup, b, B.SubmitNext(setup.input, b)) && B.SubmitNext(setup.input, b).aborted == b.aborted
  {
    B.SubmitShape(setup.input, b);
  }

  lemma PlaceKeepsInv(setup: Setup, l0: Strategy, j: Joint)
    requires ValidSetup(setup) && Strategies.Valid(l0) && JointInv(setup, l0, j) && Enabled(setup, j, Place)
    ensures JointInv(setup, l0, Apply(setup, j, Place))
  {
    var n := |j.batch.futures|;
    var client := D.Apply(setup.config, j.client, PlaceAction(setup, n));
    D.StepKeepsInv(setup.config, l0, j.client, PlaceAction(setup, n));
    B.StepKeepsInv(setup.input, j.batch, B.Submit(false));
    PlaceShape(setup, j.client, n);
    SubmitPlaces(setup, j.batch);
    PlaceKeepsLink(setup, j.client, client, j.batch, B.SubmitNext(setup.input, j.batch));
  }

  lemma PlaceKeepsLink(setup: Setup, before: D.Client, after: D.Client, b: B.Batch, b': B.Batch)
    requires ValidSetup(setup) && Linked(setup, before, b) && D.Conserved(before) && D.FuturesInv(before)
    requires |b.futures| < |setup.futures| && Places(setup, b, b') && after.futures == before.futures
    requires var n := |b.futures|;
             after.log.enqueued
             == before.log.enqueued + if B.IsPrimary(setup.input, n) then [ItemAt(setup, n)] else []
    ensures Linked(setup, after, b')
  {
    var n := |b.futures|;
    if B.IsPrimary(setup.input, n) {
      assert n !in b.enqueued;
      if setup.futures[n] in before.futures {
        SetFuturesAreEnqueued(before, setup.futures[n]);
      }
    }
    forall p | p in b'.enqueued
      ensures p < |b'.futures| && ItemAt(setup, p) in after.log.enqueued
      ensures b'.futures[p] == AnswerAt(setup, after, p)
    {
      assert p in b.enqueued ==> b'.futures[p] == b'.futures[..n][p];
    }
    forall p: nat | p < |setup.futures| && p !in b'.enqueued ensures !EnqueuedId(after, setup.futures[p]) {
      NewItemIsAnother(setup, before, after, n, p);
    }
  }

  lemma NewItemIsAnother(setup: Setup, before: D.Client, after: D.Client, n: nat, p: nat)
    requires ValidSetup(setup) && n < |setup.futures| && p < |setup.futures|
    requires !EnqueuedId(before, setup.futures[p])
    requires after.log.enqueued == before.log.enqueued
             || (after.log.enqueued == before.log.enqueued + [ItemAt(setup, n)] && p != n)
    ensures !EnqueuedId(after, setup.futures[p])
  {
    forall i | 0 <= i < |after.log.enqueued| ensures after.log.enqueued[i].future != setup.futures[p] {
      if i < |before.log.enqueued| {
        assert after.log.enqueued[i] == before.log.enqueued[i];
      }
    }
  }

  // ---------------------------------------------------------------- whole runs

  /** The joint state after a schedule; actions that are not enabled when their turn comes do nothing. */
  function RunFrom(setup: Setup, j: Joint, schedule: seq<Action>): Joint
    requires ValidSetup(setup)
  {
    if schedule == [] then j
    else
      var before := RunFrom(setup, j, schedule[..|schedule| - 1]);
      var a := schedule[|schedule| - 1];
      if Enabled(setup, before, a) then Apply(setup, before, a) else before
  }

  /** A batch starts in whatever state the client is in, with futures that are new. */
  ghost predicate Starts(setup: Setup, l0: Strategy, s: D.Client) {
    && ValidSetup(setup) && Strategies.Valid(l0) && D.Inv(setup.config, l0, s)
    && forall p :: 0 <= p < |setup.futures| ==> !EnqueuedId(s, setup.futures[p])
  }

  lemma {:induction false} RunKeepsInv(setup: Setup, l0: Strategy, s: D.Client, schedule: seq<Action>)
    requires Starts(setup, l0, s)
    ensures JointInv(setup, l0, RunFrom(setup, Joint(s, B.EMPTY), schedule))
  {
    if schedule == [] {
      B.RunKeepsInv(setup.input, []);
    } else {
      var front, a := schedule[..|schedule| - 1], schedule[|schedule| - 1];
      RunKeepsInv(setup, l0, s, front);
      var before := RunFrom(setup, Joint(s, B.EMPTY), front);
      if Enabled(setup, before, a) {
        StepKeepsInv(setup, l0, before, a);
      }
    }
  }

  lemma StepKeepsInv(setup: Setup, l0: Strategy, j: Joint, a: Action)
    requires ValidSetup(setup) && Strategies.Valid(l0) && JointInv(setup, l0, j) && Enabled(setup, j, a)
    ensures JointInv(setup, l0, Apply(setup, j, a))
  {
    match a {
      case Check => CheckKeepsInv(setup, l0, j);
      case Place => PlaceKeepsInv(setup, l0, j);
      case Other(action) => OtherKeepsInv(setup, l0, j, action);
    }
  }

  /** What a position must return: nothing for no request, the cached response, or what the client answered
    * to the first request with the same key. */
  function Due(setup: Setup, client: D.Client, i: nat): Option<B.Answer>
    requires ValidSetup(setup) && i < |setup.futures|
  {
    if !B.Miss(setup.input, i) then B.Expected(setup.input, map[], i)
    else
      var first := B.First(setup.input, B.KeyOf(setup.input.requests[i].value), i + 1);
      if first.Some? then AnswerAt(setup, client, first.value) else None
  }

  /** Whatever the interleaving of the thread, other threads, the worker and its tasks: each position of the
    * batch has exactly the answer that is due; exactly the first requests of the keys that miss the cache
    * are in the client, each once; and the batch is given up only when its thread has a recorded failure. */
  lemma BatchGetsResolutions(setup: Setup, l0: Strategy, s: D.Client, schedule: seq<Action>)
    requires Starts(setup, l0, s)
    ensures var j := RunFrom(setup, Joint(s, B.EMPTY), schedule);
            && |j.batch.futures| <= |setup.futures|
            && (forall i :: 0 <= i < |j.batch.futures| ==> j.batch.futures[i] == Due(setup, j.client, i))
            && (forall p: nat :: p < |setup.futures| ==>
                  (EnqueuedId(j.client, setup.futures[p]) <==> p in B.Primaries(setup.input, |j.batch.futures|)))
            && D.DistinctFutures(j.client.log.enqueued)
            && (j.batch.aborted ==> setup.thread in j.client.threadExceptions)
  {
    RunKeepsInv(setup, l0, s, schedule);
    var j := RunFrom(setup, Joint(s, B.EMPTY), schedule);
    forall i | 0 <= i < |j.batch.futures| ensures j.batch.futures[i] == Due(setup, j.client, i) {
      PositionGetsDue(setup, j.client, j.batch, i);
    }
    forall p: nat | p in j.batch.enqueued ensures EnqueuedId(j.client, setup.futures[p]) {
      EnqueuedIsIn(setup, j.client, j.batch, p);
    }
  }

  lemma EnqueuedIsIn(setup: Setup, client: D.Client, b: B.Batch, p: nat)
    requires Linked(setup, client, b) && p in b.enqueued
    ensures EnqueuedId(client, setup.futures[p])
  {
    var i :| 0 <= i < |client.log.enqueued| && client.log.enqueued[i] == ItemAt(setup, p);
  }

  lemma PositionGetsDue(setup: Setup, client: D.Client, b: B.Batch, i: nat)
    requires ValidSetup(setup) && B.Inv(setup.input, b) && Linked(setup, client, b) && i < |b.futures|
    ensures b.futures[i] == Due(setup, client, i)
  {
    B.PositionRefines(setup.input, b, i);
    if B.Miss(setup.input, i) {
      B.FirstIsEnqueued(setup.input, b, i);
    }
  }

  /** When the client has come to rest, no position of the batch is left waiting. */
  lemma RestingClientHasAnswered(setup: Setup, l0: Strategy, s: D.Client, schedule: seq<Action>)
    requires Starts(setup, l0, s) && D.Quiescent(RunFrom(setup, Joint(s, B.EMPTY), schedule).client)
    ensures var b := RunFrom(setup, Joint(s, B.EMPTY), schedule).batch;
            forall i :: 0 <= i < |b.futures| ==> b.futures[i].Some?
  {
    RunKeepsInv(setup, l0, s, schedule);
    var j := RunFrom(setup, Joint(s, B.EMPTY), schedule);
    forall p | p in j.batch.enqueued ensures j.batch.futures[p].Some? {
      D.QuiescentMeansResolved(setup.config, l0, j.client, ItemAt(setup, p));
    }
    forall i | 0 <= i < |j.batch.futures| ensures j.batch.futures[i].Some? {
      B.PositionAnswered(setup.input, j.batch, i);
    }
  }

  /** A batch of a thread that failed before raises at its first submission, whatever else happens, and
    * enqueues nothing. */
  lemma {:induction false} FailedThreadGetsNothing(setup: Setup, s: D.Client, schedule: seq<Action>)
    requires ValidSetup(setup) && setup.thread in s.threadExceptions && setup.thread !in s.submitting
    ensures var j := RunFrom(setup, Joint(s, B.EMPTY), schedule);
            && setup.thread in j.client.threadExceptions && setup.thread !in j.client.submitting
            && j.batch == B.EMPTY.(aborted := setup.input.requests != [] && Check in schedule)
  {
    if schedule != [] {
      var front, a := schedule[..|schedule| - 1], schedule[|schedule| - 1];
      FailedThreadGetsNothing(setup, s, front);
      var before := RunFrom(setup, Joint(s, B.EMPTY), front);
      assert schedule == front + [a];
      match a {
        case Other(action) =>
          if D.Enabled(setup.config, before.client, action) {
            D.StepOfFailedThread(setup.config, before.client, action, setup.thread);
          }
        case Check =>
          if Enabled(setup, before, Check) {
            D.StepOfFailedThread(setup.config, before.client, D.CheckThread(setup.thread), setup.thread);
          }
        case Place =>
      }
    }
  }

  // ---------------------------------------------------------------- the provider's responses

  /** What an action of the joint machine is to the client. */
  function ClientAction(setup: Setup, j: Joint, a: Action): D.Action
    requires ValidSetup(setup) && Enabled(setup, j, a)
  {
    match a
    case Check => D.CheckThread(setup.thread)
    case Place => PlaceAction(setup, |j.batch.futures|)
    case Other(action) => action
  }

  /** The schedule as the client sees it. */
  function ClientSchedule(setup: Setup, j: Joint, schedule: seq<Action>): seq<D.Action>
    requires ValidSetup(setup)
  {
    if schedule == [] then []
    else
      var front, a := schedule[..|schedule| - 1], schedule[|schedule| - 1];
      var before := RunFrom(setup, j, front);
      ClientSchedule(setup, j, front) + if Enabled(setup, before, a) then [ClientAction(setup, before, a)] else []
  }

  lemma {:induction false} ClientRunsItsSchedule(setup: Setup, j: Joint, schedule: seq<Action>)
    requires ValidSetup(setup)
    ensures RunFrom(setup, j, schedule).client
         == D.RunFrom(setup.config, j.client, ClientSchedule(setup, j, schedule))
  {
    if schedule != [] {
      var front, a := schedule[..|schedule| - 1], schedule[|schedule| - 1];
      ClientRunsItsSchedule(setup, j, front);
      var before := RunFrom(setup, j, front);
      if Enabled(setup, before, a) {
        D.RunAppends(setup.config, j.client, ClientSchedule(setup, j, front), ClientAction(setup, before, a));
      } else {
        assert ClientSchedule(setup, j, schedule) == ClientSchedule(setup, j, front);
      }
    }
  }

  /** Each position has exactly what the provider answered to the first request of its key: a response
    * exactly when a task of that request came back with it, and a failure exactly when that request met a
    * fatal error, a transient one with no backoff left, or limits it can never fit. */
  lemma PositionHasItsOutcome(setup: Setup, l0: Strategy, s: D.Client, schedule: seq<Action>, i: nat,
                              resolution: D.Resolution)
    requires Starts(setup, l0, s)
    requires var b := RunFrom(setup, Joint(s, B.EMPTY), schedule).batch;
             i < |b.futures| <= |setup.input.requests| && B.Miss(setup.input, i)
    ensures var b := RunFrom(setup, Joint(s, B.EMPTY), schedule).batch;
            var first := B.First(setup.input, B.KeyOf(setup.input.requests[i].value), i + 1);
            && first.Some?
            && (b.futures[i] == Some(AnswerOf(resolution))
                <==> H.Ended(setup.config, s, ClientSchedule(setup, Joint(s, B.EMPTY), schedule),
                             setup.futures[first.value], resolution))
  {
    RunKeepsInv(setup, l0, s, schedule);
    var j := RunFrom(setup, Joint(s, B.EMPTY), schedule);
    B.FirstIsEnqueued(setup.input, j.batch, i);
    var first := B.First(setup.input, B.KeyOf(setup.input.requests[i].value), i + 1).value;
    BatchGetsResolutions(setup, l0, s, schedule);
    ClientRunsItsSchedule(setup, Joint(s, B.EMPTY), schedule);
    NewFutureIsOpen(setup, l0, s, first);
    H.ResultsAreOutcomes(setup.config, s, ClientSchedule(setup, Joint(s, B.EMPTY), schedule), setup.futures[first],
                         resolution);
  }

  lemma NewFutureIsOpen(setup: Setup, l0: Strategy, s: D.Client, p: nat)
    requires Starts(setup, l0, s) && p < |setup.futures|
    ensures setup.futures[p] !in s.futures
  {
    if setup.futures[p] in s.futures {
      SetFuturesAreEnqueued(s, setup.futures[p]);
    }
  }
}
