/** Batch submission: deduplication, cache lookups and the futures handed back to the caller.
  *
  * The futures of a batch are numbered by their position in it: every position gets one new future.
  * Requests are submitted one by one on the user's thread while the event loop resolves the futures of
  * requests already enqueued, so a batch is a state machine over both kinds of steps. */
module Batch {
  import opened Wrappers
  import opened Strategies

  /** `fingerprint` is absent when no key could be computed; `identity` tells request objects apart. */
  datatype Request = Request(identity: nat, fingerprint: Option<string>, completion: bool,
                             estimate: TokenEstimate)

  datatype Key = Fingerprint(text: string) | Opaque(identity: nat)

  datatype Answer = NoResponse | Response(response: nat) | Failed

  /** A cache that fails answers no lookup. */
  datatype Cache = NoCache | Cache(entries: map<string, nat>, failing: bool)

  datatype Input = Input(requests: seq<Option<Request>>, cache: Cache)

  function KeyOf(r: Request): Key {
    if r.fingerprint.Some? then Fingerprint(r.fingerprint.value) else Opaque(r.identity)
  }

  // ---------------------------------------------------------------- cache lookups

  function GetBatch(cache: Cache, lookups: seq<string>): map<string, nat> {
    if cache.NoCache? || cache.failing then map[]
    else map k | k in lookups && k in cache.entries :: cache.entries[k]
  }

  predicate Cacheable(r: Option<Request>) {
    r.Some? && r.value.completion && r.value.fingerprint.Some?
  }

  /** The fingerprints to look up, each once, in order of first occurrence. */
  method CacheLookups(requests: seq<Option<Request>>) returns (lookups: seq<string>)
    ensures forall k :: k in lookups <==>
              exists i :: 0 <= i < |requests| && Cacheable(requests[i]) && requests[i].value.fingerprint.value == k
    ensures forall i, j :: 0 <= i < j < |lookups| ==> lookups[i] != lookups[j]
  {
    lookups := [];
    for idx := 0 to |requests|
      invariant forall k :: k in lookups <==>
                  exists i :: 0 <= i < idx && Cacheable(requests[i]) && requests[i].value.fingerprint.value == k
      invariant forall i, j :: 0 <= i < j < |lookups| ==> lookups[i] != lookups[j]
    {
      if Cacheable(requests[idx]) {
        var key := requests[idx].value.fingerprint.value;
        if key !in lookups {
          lookups := lookups + [key];
        }
      }
    }
  }

  /** The cached response of a request, read straight from the cache. */
  function Hit(input: Input, i: nat): Option<nat>
    requires i < |input.requests|
  {
    var r := input.requests[i];
    if input.cache.Cache? && !input.cache.failing && Cacheable(r) && r.value.fingerprint.value in input.cache.entries
    then Some(input.cache.entries[r.value.fingerprint.value]) else None
  }

  /** What the submission loop finds in the looked-up responses is what the cache holds. */
  lemma LookupsFindHits(input: Input, lookups: seq<string>, i: nat)
    requires i < |input.requests|
    requires forall k :: k in lookups <==>
               exists j :: 0 <= j < |input.requests| && Cacheable(input.requests[j])
                           && input.requests[j].value.fingerprint.value == k
    ensures var found, r := GetBatch(input.cache, lookups), input.requests[i];
            Hit(input, i) == if Cacheable(r) && r.value.fingerprint.value in found
                             then Some(found[r.value.fingerprint.value]) else None
  {
  }

  /** Only a completion is ever answered from the cache, and it is exactly when the cache works and holds its
    * fingerprint. */
  lemma HitsExactlyWhen(input: Input, i: nat)
    requires i < |input.requests|
    ensures Hit(input, i).Some?
        <==> && input.cache.Cache? && !input.cache.failing && input.requests[i].Some?
             && var r := input.requests[i].value;
                r.completion && r.fingerprint.Some? && r.fingerprint.value in input.cache.entries
    ensures Hit(input, i).Some? ==>
              Hit(input, i).value == input.cache.entries[input.requests[i].value.fingerprint.value]
  {
  }

  predicate Miss(input: Input, i: nat)
    requires i < |input.requests|
  {
    input.requests[i].Some? && Hit(input, i).None?
  }

  // ---------------------------------------------------------------- the steps

  datatype Batch = Batch(
    futures: seq<Option<Answer>>,
    copies: map<nat, seq<nat>>,
    unique: map<Key, nat>,
    enqueued: seq<nat>,
    numUniqueRequests: nat,
    totalTokenEstimate: TokenEstimate,
    aborted: bool)

  datatype Action = Submit(threadException: bool) | Resolve(position: nat, answer: Answer)

  const EMPTY: Batch := Batch([], map[], map[], [], 0, TokenEstimate(0, 0), false)

  function Plus(a: TokenEstimate, b: TokenEstimate): TokenEstimate {
    TokenEstimate(a.inputTokens + b.inputTokens, a.outputTokens + b.outputTokens)
  }

  function CopiesOf(copies: map<nat, seq<nat>>, p: nat): seq<nat> {
    if p in copies then copies[p] else []
  }

  predicate Enabled(input: Input, b: Batch, a: Action) {
    match a
    case Submit(_) => !b.aborted && |b.futures| < |input.requests|
    case Resolve(p, _) => p in b.enqueued && p < |b.futures| && b.futures[p].None?
  }

  function Apply(input: Input, b: Batch, a: Action): Batch
    requires Enabled(input, b, a)
  {
    match a
    case Submit(threadException) =>
      if threadException then b.(aborted := true) else SubmitNext(input, b)
    case Resolve(p, answer) =>
      b.(futures := SetAll(b.futures[p := Some(answer)], CopiesOf(b.copies, p), answer))
  }

  function SubmitNext(input: Input, b: Batch): Batch
    requires |b.futures| < |input.requests|
  {
    var i := |b.futures|;
    if input.requests[i].None? then b.(futures := b.futures + [Some(NoResponse)])
    else if Hit(input, i).Some? then b.(futures := b.futures + [Some(Response(Hit(input, i).value))])
    else GetOrCreate(b, i, input.requests[i].value)
  }

  /** A duplicate gets a future that copies the first one's result, at once if it is already there;
    * a new key is enqueued and counted. */
  function GetOrCreate(b: Batch, i: nat, request: Request): Batch {
    var key := KeyOf(request);
    if key in b.unique then
      var existing := b.unique[key];
      if existing < |b.futures| && b.futures[existing].Some? then
        b.(futures := b.futures + [b.futures[existing]])
      else
        b.(futures := b.futures + [None], copies := b.copies[existing := CopiesOf(b.copies, existing) + [i]])
    else
      b.(futures := b.futures + [None], unique := b.unique[key := i], enqueued := b.enqueued + [i],
         numUniqueRequests := b.numUniqueRequests + 1,
         totalTokenEstimate := Plus(b.totalTokenEstimate, request.estimate))
  }

  function SetAll(futures: seq<Option<Answer>>, positions: seq<nat>, answer: Answer): (r: seq<Option<Answer>>)
    ensures |r| == |futures|
    ensures forall i :: 0 <= i < |r| ==> r[i] == if i in positions then Some(answer) else futures[i]
  {
    if positions == [] then futures
    else
      var p := positions[|positions| - 1];
      var rest := SetAll(futures, positions[..|positions| - 1], answer);
      assert forall i: nat :: i in positions <==> i in positions[..|positions| - 1] || i == p;
      if p < |futures| then rest[p := Some(answer)] else rest
  }

  // ---------------------------------------------------------------- the reference: one map from keys

  /** The first of the first `n` positions that misses the cache with this key. */
  function First(input: Input, key: Key, n: nat): (r: Option<nat>)
    requires n <= |input.requests|
    ensures r.Some? ==> r.value < n && Miss(input, r.value) && KeyOf(input.requests[r.value].value) == key
    ensures forall j :: 0 <= j < n && Miss(input, j) && KeyOf(input.requests[j].value) == key ==>
              r.Some? && r.value <= j
  {
    if n == 0 then None
    else if First(input, key, n - 1).Some? then First(input, key, n - 1)
    else if Miss(input, n - 1) && KeyOf(input.requests[n - 1].value) == key then Some(n - 1)
    else None
  }

  /** The positions that are enqueued: the first miss of each key. */
  function Primaries(input: Input, n: nat): seq<nat>
    requires n <= |input.requests|
  {
    if n == 0 then []
    else if Miss(input, n - 1) && First(input, KeyOf(input.requests[n - 1].value), n - 1).None?
    then Primaries(input, n - 1) + [n - 1]
    else Primaries(input, n - 1)
  }

  function MissedKeys(input: Input, n: nat): set<Key>
    requires n <= |input.requests|
  {
    set i | 0 <= i < n && Miss(input, i) :: KeyOf(input.requests[i].value)
  }

  function EstimateAt(input: Input, p: nat): TokenEstimate {
    if p < |input.requests| && input.requests[p].Some? then input.requests[p].value.estimate
    else TokenEstimate(0, 0)
  }

  function SumEstimates(input: Input, positions: seq<nat>): TokenEstimate {
    if positions == [] then TokenEstimate(0, 0)
    else Plus(SumEstimates(input, positions[..|positions| - 1]), EstimateAt(input, positions[|positions| - 1]))
  }

  lemma PrimariesAreMisses(input: Input, n: nat)
    requires n <= |input.requests|
    ensures forall p: nat :: p in Primaries(input, n) <==>
              p < n && Miss(input, p) && First(input, KeyOf(input.requests[p].value), n) == Some(p)
  {
    forall p: nat
      ensures p in Primaries(input, n) <==>
                p < n && Miss(input, p) && First(input, KeyOf(input.requests[p].value), n) == Some(p)
    {
      PrimaryIsMiss(input, n, p);
    }
  }

  lemma {:induction false} PrimaryIsMiss(input: Input, n: nat, p: nat)
    requires n <= |input.requests|
    ensures p in Primaries(input, n) <==>
              p < n && Miss(input, p) && First(input, KeyOf(input.requests[p].value), n) == Some(p)
  {
    if n > 0 {
      PrimaryIsMiss(input, n - 1, p);
    }
  }

  /** There is exactly one enqueued position for each distinct key that misses the cache. */
  lemma {:induction false} OneEnqueuePerKey(input: Input, n: nat)
    requires n <= |input.requests|
    ensures |Primaries(input, n)| == |MissedKeys(input, n)|
  {
    if n == 0 {
      assert MissedKeys(input, 0) == {};
    } else {
      OneEnqueuePerKey(input, n - 1);
      MissedKeysExtend(input, n - 1);
      if Miss(input, n - 1) {
        MissEnqueuesNewKey(input, n - 1);
      }
    }
  }

  lemma MissEnqueuesNewKey(input: Input, n: nat)
    requires n < |input.requests| && Miss(input, n) && |Primaries(input, n)| == |MissedKeys(input, n)|
    ensures |Primaries(input, n + 1)| == |MissedKeys(input, n + 1)|
  {
    MissedKeysExtend(input, n);
    PrimariesExtend(input, n);
    GrowTogether(Primaries(input, n), MissedKeys(input, n), n, KeyOf(input.requests[n].value));
  }

  lemma PrimariesExtend(input: Input, n: nat)
    requires n < |input.requests| && Miss(input, n)
    ensures Primaries(input, n + 1)
         == if KeyOf(input.requests[n].value) in MissedKeys(input, n) then Primaries(input, n)
            else Primaries(input, n) + [n]
  {
    MissedKeysHaveFirsts(input, n, KeyOf(input.requests[n].value));
  }

  lemma GrowTogether(positions: seq<nat>, keys: set<Key>, position: nat, key: Key)
    requires |positions| == |keys|
    ensures |if key in keys then positions else positions + [position]| == |keys + {key}|
  {
    if key in keys {
      assert keys + {key} == keys;
    }
  }

  /** The keys that miss are those that a first request has. */
  lemma {:induction false} MissedKeysHaveFirsts(input: Input, n: nat, key: Key)
    requires n <= |input.requests|
    ensures key in MissedKeys(input, n) <==> First(input, key, n).Some?
  {
    if n > 0 {
      MissedKeysHaveFirsts(input, n - 1, key);
      MissedKeysExtend(input, n - 1);
    }
  }

  lemma MissedKeysExtend(input: Input, n: nat)
    requires n < |input.requests|
    ensures MissedKeys(input, n + 1)
         == MissedKeys(input, n) + if Miss(input, n) then {KeyOf(input.requests[n].value)} else {}
  {
  }

  /** What position `i` must return when the first request of each key is answered by `answers`. */
  function Expected(input: Input, answers: map<nat, Answer>, i: nat): Option<Answer>
    requires i < |input.requests|
  {
    if input.requests[i].None? then Some(NoResponse)
    else if Hit(input, i).Some? then Some(Response(Hit(input, i).value))
    else
      var first := First(input, KeyOf(input.requests[i].value), i + 1).value;
      if first in answers then Some(answers[first]) else None
  }

  /** The answers the event loop has given so far. */
  function Answers(b: Batch): map<nat, Answer> {
    map p | p in b.enqueued && p < |b.futures| && b.futures[p].Some? :: b.futures[p].value
  }

  /** Two requests are duplicates exactly when they have the same fingerprint, or neither has one and they
    * are the same object. */
  lemma KeysTellRequestsApart(r: Request, other: Request)
    ensures KeyOf(r) == KeyOf(other)
        <==> r.fingerprint == other.fingerprint && (r.fingerprint.None? ==> r.identity == other.identity)
  {
  }

  /** The tokens of a list of positions, of one kind. */
  function TokensAt(input: Input, positions: seq<nat>, tokens: TokenEstimate -> nat): nat {
    if positions == [] then 0
    else
      var p := positions[0];
      (if p < |input.requests| && input.requests[p].Some? then tokens(input.requests[p].value.estimate) else 0)
      + TokensAt(input, positions[1..], tokens)
  }

  lemma {:induction false} TokensAppend(input: Input, positions: seq<nat>, p: nat, tokens: TokenEstimate -> nat)
    ensures TokensAt(input, positions + [p], tokens)
         == TokensAt(input, positions, tokens) + TokensAt(input, [p], tokens)
  {
    if positions == [] {
      assert positions + [p] == [p] && [p][1..] == [];
    } else {
      assert (positions + [p])[1..] == positions[1..] + [p];
      TokensAppend(input, positions[1..], p, tokens);
    }
  }

  /** The estimate of a batch is the sum over the enqueued requests, of input and of output tokens. */
  lemma {:induction false} TotalsAreSums(input: Input, positions: seq<nat>)
    ensures SumEstimates(input, positions).inputTokens
         == TokensAt(input, positions, (e: TokenEstimate) => e.inputTokens)
    ensures SumEstimates(input, positions).outputTokens
         == TokensAt(input, positions, (e: TokenEstimate) => e.outputTokens)
  {
    if positions != [] {
      var front, p := positions[..|positions| - 1], positions[|positions| - 1];
      TotalsAreSums(input, front);
      assert positions == front + [p] && [p][1..] == [];
      TokensAppend(input, front, p, (e: TokenEstimate) => e.inputTokens);
      TokensAppend(input, front, p, (e: TokenEstimate) => e.outputTokens);
    }
  }

  // ---------------------------------------------------------------- the refinement

  /** The books of the submission: keys, enqueued positions and totals follow the reference. */
  ghost predicate BooksInv(input: Input, b: Batch) {
    && |b.futures| <= |input.requests|
    && UniqueInv(input, |b.futures|, b.unique)
    && CountsInv(input, |b.futures|, b.enqueued, b.numUniqueRequests, b.totalTokenEstimate)
  }

  ghost predicate CountsInv(input: Input, n: nat, enqueued: seq<nat>, count: nat, total: TokenEstimate)
    requires n <= |input.requests|
  {
    enqueued == Primaries(input, n) && count == |enqueued| && total == SumEstimates(input, enqueued)
  }

  ghost predicate UniqueInv(input: Input, n: nat, unique: map<Key, nat>)
    requires n <= |input.requests|
  {
    forall key :: if key in unique then First(input, key, n) == Some(unique[key]) else First(input, key, n).None?
  }

  /** Exactly the duplicates of a request wait for its future, while it is open, and each duplicate's
    * future is always in the same state as the first one's. */
  ghost predicate CopiesInv(input: Input, n: nat, futures: seq<Option<Answer>>, copies: map<nat, seq<nat>>) {
    && n == |futures| <= |input.requests|
    && (forall p: nat, q: nat :: q in CopiesOf(copies, p) ==> CopyOf(input, n, p, q))
    && (forall p: nat, q: nat :: CopyOf(input, n, p, q) && futures[p].None? ==> q in CopiesOf(copies, p))
    && (forall p: nat, q: nat :: CopyOf(input, n, p, q) ==> futures[q] == futures[p])
  }

  /** Positions without a request or with a cached response are answered at once. */
  ghost predicate EagerInv(input: Input, futures: seq<Option<Answer>>) {
    && |futures| <= |input.requests|
    && forall i :: 0 <= i < |futures| && !Miss(input, i) ==> futures[i] == Expected(input, map[], i)
  }

  ghost predicate Inv(input: Input, b: Batch) {
    BooksInv(input, b) && CopiesInv(input, |b.futures|, b.futures, b.copies) && EagerInv(input, b.futures)
  }

  /** Position `q` repeats the key that position `p` was first to ask for. */
  ghost predicate CopyOf(input: Input, n: nat, p: nat, q: nat) {
    && p < q < n <= |input.requests| && Miss(input, p) && Miss(input, q)
    && KeyOf(input.requests[q].value) == KeyOf(input.requests[p].value)
    && First(input, KeyOf(input.requests[p].value), n) == Some(p)
  }

  lemma {:induction false} FirstIsStable(input: Input, key: Key, m: nat, n: nat)
    requires m <= n <= |input.requests| && First(input, key, m).Some?
    ensures First(input, key, n) == First(input, key, m)
  {
    if m < n {
      FirstIsStable(input, key, m, n - 1);
    }
  }

  lemma SumExtends(input: Input, positions: seq<nat>, p: nat)
    ensures SumEstimates(input, positions + [p]) == Plus(SumEstimates(input, positions), EstimateAt(input, p))
  {
    assert (positions + [p])[..|positions|] == positions;
  }

  /** One more position adds at most one copy: itself, of the first request with its key. */
  lemma CopiesGrow(input: Input, n: nat, p: nat, q: nat)
    requires n < |input.requests|
    ensures CopyOf(input, n + 1, p, q) <==>
              || CopyOf(input, n, p, q)
              || (q == n && Miss(input, n)
                  && First(input, KeyOf(input.requests[n].value), n) == Some(p))
  {
  }

  lemma SubmitKeepsUnique(input: Input, n: nat, unique: map<Key, nat>)
    requires n < |input.requests| && UniqueInv(input, n, unique)
    ensures if Miss(input, n) && First(input, KeyOf(input.requests[n].value), n).None?
            then UniqueInv(input, n + 1, unique[KeyOf(input.requests[n].value) := n])
            else UniqueInv(input, n + 1, unique)
  {
  }

  /** A position that misses the cache under a new key. */
  predicate IsPrimary(input: Input, n: nat)
    requires n < |input.requests|
  {
    Miss(input, n) && First(input, KeyOf(input.requests[n].value), n).None?
  }

  /** The three things a submission can do. */
  lemma SubmitShape(input: Input, b: Batch)
    requires |b.futures| < |input.requests| && UniqueInv(input, |b.futures|, b.unique)
    ensures var n, b' := |b.futures|, SubmitNext(input, b);
            if !Miss(input, n) then b' == b.(futures := b.futures + [Expected(input, map[], n)])
            else if IsPrimary(input, n) then
              b' == b.(futures := b.futures + [None], unique := b.unique[KeyOf(input.requests[n].value) := n],
                       enqueued := b.enqueued + [n], numUniqueRequests := b.numUniqueRequests + 1,
                       totalTokenEstimate := Plus(b.totalTokenEstimate, input.requests[n].value.estimate))
            else
              var existing := First(input, KeyOf(input.requests[n].value), n).value;
              if b.futures[existing].Some? then b' == b.(futures := b.futures + [b.futures[existing]])
              else b' == b.(futures := b.futures + [None],
                            copies := b.copies[existing := CopiesOf(b.copies, existing) + [n]])
  {
  }

  lemma SubmitKeepsCounts(input: Input, n: nat, enqueued: seq<nat>, count: nat, total: TokenEstimate)
    requires n < |input.requests| && CountsInv(input, n, enqueued, count, total)
    ensures if IsPrimary(input, n)
            then CountsInv(input, n + 1, enqueued + [n], count + 1, Plus(total, EstimateAt(input, n)))
            else CountsInv(input, n + 1, enqueued, count, total)
  {
    SumExtends(input, enqueued, n);
  }

  lemma SubmitKeepsBooks(input: Input, b: Batch)
    requires BooksInv(input, b) && |b.futures| < |input.requests|
    ensures BooksInv(input, SubmitNext(input, b))
  {
    SubmitBooksShape(input, b);
    BooksFollow(input, b, SubmitNext(input, b));
  }

  /** How one submission changes the books: only a new key that misses does. */
  predicate BooksShape(input: Input, b: Batch, b': Batch)
    requires |b.futures| < |input.requests|
  {
    var n := |b.futures|;
    && |b'.futures| == n + 1
    && if IsPrimary(input, n) then
         && b'.unique == b.unique[KeyOf(input.requests[n].value) := n] && b'.enqueued == b.enqueued + [n]
         && b'.numUniqueRequests == b.numUniqueRequests + 1
         && b'.totalTokenEstimate == Plus(b.totalTokenEstimate, EstimateAt(input, n))
       else
         && b'.unique == b.unique && b'.enqueued == b.enqueued
         && b'.numUniqueRequests == b.numUniqueRequests && b'.totalTokenEstimate == b.totalTokenEstimate
  }

  lemma SubmitBooksShape(input: Input, b: Batch)
    requires |b.futures| < |input.requests| && UniqueInv(input, |b.futures|, b.unique)
    ensures BooksShape(input, b, SubmitNext(input, b))
  {
    SubmitShape(input, b);
  }

  lemma BooksFollow(input: Input, b: Batch, b': Batch)
    requires BooksInv(input, b) && |b.futures| < |input.requests| && BooksShape(input, b, b')
    ensures BooksInv(input, b')
  {
    SubmitKeepsUnique(input, |b.futures|, b.unique);
    SubmitKeepsCounts(input, |b.futures|, b.enqueued, b.numUniqueRequests, b.totalTokenEstimate);
  }

  lemma AnsweredKeepsCopies(input: Input, n: nat, futures: seq<Option<Answer>>, copies: map<nat, seq<nat>>,
                            answer: Option<Answer>)
    requires CopiesInv(input, n, futures, copies) && n < |input.requests| && !Miss(input, n)
    ensures CopiesInv(input, n + 1, futures + [answer], copies)
  {
    forall p: nat, q: nat ensures CopyOf(input, n + 1, p, q) <==> CopyOf(input, n, p, q) {
      CopiesGrow(input, n, p, q);
    }
  }

  lemma NewKeepsCopies(input: Input, n: nat, futures: seq<Option<Answer>>, copies: map<nat, seq<nat>>)
    requires CopiesInv(input, n, futures, copies) && n < |input.requests| && Miss(input, n)
    requires First(input, KeyOf(input.requests[n].value), n).None?
    ensures CopiesInv(input, n + 1, futures + [None], copies)
  {
    forall p: nat, q: nat ensures CopyOf(input, n + 1, p, q) <==> CopyOf(input, n, p, q) {
      CopiesGrow(input, n, p, q);
    }
  }

  lemma DuplicateKeepsCopies(input: Input, n: nat, futures: seq<Option<Answer>>, copies: map<nat, seq<nat>>)
    requires CopiesInv(input, n, futures, copies) && n < |input.requests| && Miss(input, n)
    requires First(input, KeyOf(input.requests[n].value), n).Some?
    ensures var existing := First(input, KeyOf(input.requests[n].value), n).value;
            if futures[existing].Some?
            then CopiesInv(input, n + 1, futures + [futures[existing]], copies)
            else CopiesInv(input, n + 1, futures + [None], copies[existing := CopiesOf(copies, existing) + [n]])
  {
    var existing := First(input, KeyOf(input.requests[n].value), n).value;
    forall p: nat, q: nat
      ensures CopyOf(input, n + 1, p, q) <==> CopyOf(input, n, p, q) || (q == n && p == existing)
    {
      CopiesGrow(input, n, p, q);
    }
    if futures[existing].None? {
      WaitingGrows(input, n, futures, copies, existing);
    }
  }

  lemma WaitingGrows(input: Input, n: nat, futures: seq<Option<Answer>>, copies: map<nat, seq<nat>>,
                     existing: nat)
    requires CopiesInv(input, n, futures, copies) && n < |input.requests|
    requires existing < n && futures[existing].None?
    requires forall p: nat, q: nat ::
               CopyOf(input, n + 1, p, q) <==> CopyOf(input, n, p, q) || (q == n && p == existing)
    ensures CopiesInv(input, n + 1, futures + [None], copies[existing := CopiesOf(copies, existing) + [n]])
  {
    var copies' := copies[existing := CopiesOf(copies, existing) + [n]];
    forall p: nat, q: nat | q in CopiesOf(copies', p) ensures CopyOf(input, n + 1, p, q) {
      assert q in CopiesOf(copies, p) || (q == n && p == existing);
    }
    forall p: nat, q: nat | CopyOf(input, n + 1, p, q)
      ensures var futures' := futures + [None];
              futures'[q] == futures'[p] && (futures'[p].None? ==> q in CopiesOf(copies', p))
    {
      if !(q == n && p == existing) {
        assert CopyOf(input, n, p, q);
        assert futures[q] == futures[p] && (futures[p].None? ==> q in CopiesOf(copies, p));
      }
    }
  }

  lemma SubmitKeepsCopies(input: Input, b: Batch)
    requires |b.futures| < |input.requests| && UniqueInv(input, |b.futures|, b.unique)
    requires CopiesInv(input, |b.futures|, b.futures, b.copies)
    ensures CopiesInv(input, |b.futures| + 1, SubmitNext(input, b).futures, SubmitNext(input, b).copies)
  {
    var n := |b.futures|;
    SubmitShape(input, b);
    if !Miss(input, n) {
      AnsweredKeepsCopies(input, n, b.futures, b.copies, Expected(input, map[], n));
    } else if IsPrimary(input, n) {
      NewKeepsCopies(input, n, b.futures, b.copies);
    } else {
      DuplicateKeepsCopies(input, n, b.futures, b.copies);
    }
  }

  lemma SubmitKeepsEager(input: Input, b: Batch)
    requires |b.futures| < |input.requests| && UniqueInv(input, |b.futures|, b.unique)
    requires EagerInv(input, b.futures)
    ensures EagerInv(input, SubmitNext(input, b).futures)
    ensures |SubmitNext(input, b).futures| == |b.futures| + 1
  {
    SubmitShape(input, b);
  }

  lemma SubmitKeepsInv(input: Input, b: Batch)
    requires Inv(input, b) && |b.futures| < |input.requests|
    ensures Inv(input, SubmitNext(input, b))
  {
    SubmitKeepsBooks(input, b);
    SubmitKeepsCopies(input, b);
    SubmitKeepsEager(input, b);
  }

  lemma ResolveKeepsCopies(input: Input, n: nat, futures: seq<Option<Answer>>, copies: map<nat, seq<nat>>,
                           first: nat, answer: Answer)
    requires CopiesInv(input, n, futures, copies)
    requires first < n && futures[first].None? && Miss(input, first)
    requires First(input, KeyOf(input.requests[first].value), n) == Some(first)
    ensures CopiesInv(input, n, SetAll(futures[first := Some(answer)], CopiesOf(copies, first), answer), copies)
  {
    var after := SetAll(futures[first := Some(answer)], CopiesOf(copies, first), answer);
    assert forall q: nat :: q in CopiesOf(copies, first) <==> CopyOf(input, n, first, q);
    forall p: nat, q: nat | CopyOf(input, n, p, q)
      ensures after[q] == after[p] && (after[p].None? ==> q in CopiesOf(copies, p))
    {
      assert !CopyOf(input, n, first, p);
      if p != first {
        assert q != first && !CopyOf(input, n, first, q);
      }
    }
  }

  lemma ResolveKeepsEager(input: Input, n: nat, futures: seq<Option<Answer>>, copies: map<nat, seq<nat>>,
                          first: nat, answer: Answer)
    requires CopiesInv(input, n, futures, copies) && EagerInv(input, futures)
    requires first < n && Miss(input, first)
    ensures EagerInv(input, SetAll(futures[first := Some(answer)], CopiesOf(copies, first), answer))
  {
    assert forall q: nat :: q in CopiesOf(copies, first) ==> CopyOf(input, n, first, q);
  }

  lemma StepKeepsInv(input: Input, b: Batch, a: Action)
    requires Inv(input, b) && Enabled(input, b, a)
    ensures Inv(input, Apply(input, b, a))
  {
    match a {
      case Submit(threadException) =>
        if !threadException {
          SubmitKeepsInv(input, b);
        }
      case Resolve(p, answer) =>
        PrimariesAreMisses(input, |b.futures|);
        ResolveKeepsCopies(input, |b.futures|, b.futures, b.copies, p, answer);
        ResolveKeepsEager(input, |b.futures|, b.futures, b.copies, p, answer);
    }
  }

  /** Any interleaving of submissions with results; an action that is not enabled does nothing. */
  function RunFrom(input: Input, b: Batch, schedule: seq<Action>): Batch {
    if schedule == [] then b
    else
      var before := RunFrom(input, b, schedule[..|schedule| - 1]);
      var a := schedule[|schedule| - 1];
      if Enabled(input, before, a) then Apply(input, before, a) else before
  }

  lemma {:induction false} RunKeepsInv(input: Input, schedule: seq<Action>)
    ensures Inv(input, RunFrom(input, EMPTY, schedule))
  {
    if schedule != [] {
      RunKeepsInv(input, schedule[..|schedule| - 1]);
      var before := RunFrom(input, EMPTY, schedule[..|schedule| - 1]);
      var a := schedule[|schedule| - 1];
      if Enabled(input, before, a) {
        StepKeepsInv(input, before, a);
      }
    }
  }

  /** The refinement: whatever the duplicates, the cache hits and the interleaving, each position's
    * future is what a single map from keys to answers gives; each distinct missing key was enqueued
    * once, and the counters are the number and the sum over those keys. */
  lemma BatchRefinesMap(input: Input, schedule: seq<Action>)
    ensures var b, n := RunFrom(input, EMPTY, schedule), |RunFrom(input, EMPTY, schedule).futures|;
            && n <= |input.requests|
            && (forall i :: 0 <= i < n ==> b.futures[i] == Expected(input, Answers(b), i))
            && b.enqueued == Primaries(input, n)
            && b.numUniqueRequests == |MissedKeys(input, n)|
            && b.totalTokenEstimate == SumEstimates(input, Primaries(input, n))
  {
    RunKeepsInv(input, schedule);
    var b := RunFrom(input, EMPTY, schedule);
    OneEnqueuePerKey(input, |b.futures|);
    forall i | 0 <= i < |b.futures| ensures b.futures[i] == Expected(input, Answers(b), i) {
      PositionRefines(input, b, i);
    }
  }

  lemma PositionRefines(input: Input, b: Batch, i: nat)
    requires Inv(input, b) && i < |b.futures|
    ensures b.futures[i] == Expected(input, Answers(b), i)
  {
    var n := |b.futures|;
    if Miss(input, i) {
      var key := KeyOf(input.requests[i].value);
      FirstIsStable(input, key, i + 1, n);
      var first := First(input, key, n).value;
      PrimariesAreMisses(input, n);
      assert first in b.enqueued;
      if first < i {
        assert CopyOf(input, n, first, i);
      }
    }
  }

  // ---------------------------------------------------------------- collecting the responses

  /** The responses of a batch: the caller's list, or the failure raised at the first failed position. */
  datatype Collected = Responses(responses: seq<Answer>) | Raised(position: nat)

  /** Waits for the futures in order; only called when every future has its result. */
  method CollectBatchResponses(futures: seq<Option<Answer>>) returns (r: Collected)
    requires forall i :: 0 <= i < |futures| ==> futures[i].Some?
    ensures r.Responses? <==> Some(Failed) !in futures
    ensures r.Responses? ==> |r.responses| == |futures|
                             && forall i :: 0 <= i < |futures| ==> Some(r.responses[i]) == futures[i]
    ensures r.Raised? ==> r.position < |futures| && futures[r.position] == Some(Failed)
                          && Some(Failed) !in futures[..r.position]
  {
    var responses: seq<Answer> := [];
    for i := 0 to |futures|
      invariant |responses| == i && Some(Failed) !in futures[..i]
      invariant forall j :: 0 <= j < i ==> Some(responses[j]) == futures[j]
    {
      if futures[i] == Some(Failed) {
        return Raised(i);
      }
      responses := responses + [futures[i].value];
    }
    return Responses(responses);
  }

  /** A batch whose first submission raises enqueues nothing and hands back nothing, whatever follows. */
  lemma {:induction false} RaisedBatchStaysEmpty(input: Input, schedule: seq<Action>)
    requires schedule != [] && schedule[0] == Submit(true) && input.requests != []
    ensures RunFrom(input, EMPTY, schedule) == EMPTY.(aborted := true)
  {
    var front := schedule[..|schedule| - 1];
    if front == [] {
      assert RunFrom(input, EMPTY, front) == EMPTY;
    } else {
      RaisedBatchStaysEmpty(input, front);
    }
  }

  /** Once every enqueued request is answered, every position of a fully submitted batch is. */
  lemma AllAnswered(input: Input, schedule: seq<Action>)
    requires EnqueuedAnswered(RunFrom(input, EMPTY, schedule))
    ensures forall i :: 0 <= i < |RunFrom(input, EMPTY, schedule).futures| ==>
              RunFrom(input, EMPTY, schedule).futures[i].Some?
  {
    var b := RunFrom(input, EMPTY, schedule);
    RunKeepsInv(input, schedule);
    forall i | 0 <= i < |b.futures| ensures b.futures[i].Some? {
      PositionAnswered(input, b, i);
    }
  }

  predicate EnqueuedAnswered(b: Batch) {
    forall p :: p in b.enqueued ==> p < |b.futures| && b.futures[p].Some?
  }

  lemma PositionAnswered(input: Input, b: Batch, i: nat)
    requires Inv(input, b) && EnqueuedAnswered(b) && i < |b.futures|
    ensures b.futures[i].Some?
  {
    PositionRefines(input, b, i);
    if Miss(input, i) {
      FirstIsEnqueued(input, b, i);
    }
  }

  lemma FirstIsEnqueued(input: Input, b: Batch, i: nat)
    requires Inv(input, b) && i < |b.futures| && Miss(input, i)
    ensures First(input, KeyOf(input.requests[i].value), i + 1).Some?
    ensures First(input, KeyOf(input.requests[i].value), i + 1).value in b.enqueued
  {
    PrimariesAreMisses(input, |b.futures|);
    FirstIsStable(input, KeyOf(input.requests[i].value), i + 1, |b.futures|);
  }

  // ---------------------------------------------------------------- the submission object

  /** The local state of one submission, updated in place as the loop and the event loop proceed. */
  class BatchSubmission {
    const input: Input
    const cachedResponses: map<string, nat>
    var requestFutures: seq<Option<Answer>>
    var copies: map<nat, seq<nat>>
    var uniqueFutures: map<Key, nat>
    var enqueued: seq<nat>
    var numUniqueRequests: nat
    var totalTokenEstimate: TokenEstimate
    var aborted: bool

    function State(): Batch
      reads this
    {
      Batch(requestFutures, copies, uniqueFutures, enqueued, numUniqueRequests, totalTokenEstimate, aborted)
    }

    /** The looked-up responses answer exactly the cached requests. */
    ghost predicate Valid() {
      forall i :: 0 <= i < |input.requests| ==>
        Hit(input, i) == if Cacheable(input.requests[i])
                            && input.requests[i].value.fingerprint.value in cachedResponses
                         then Some(cachedResponses[input.requests[i].value.fingerprint.value]) else None
    }

    constructor (requests: seq<Option<Request>>, cache: Cache)
      ensures input == Input(requests, cache) && Valid() && State() == EMPTY
    {
      var lookups := CacheLookups(requests);
      input := Input(requests, cache);
      cachedResponses := GetBatch(cache, lookups);
      requestFutures, copies, uniqueFutures, enqueued := [], map[], map[], [];
      numUniqueRequests, totalTokenEstimate, aborted := 0, TokenEstimate(0, 0), false;
      new;
      forall i | 0 <= i < |requests|
        ensures Hit(input, i) == if Cacheable(requests[i]) && requests[i].value.fingerprint.value in cachedResponses
                                 then Some(cachedResponses[requests[i].value.fingerprint.value]) else None
      {
        LookupsFindHits(input, lookups, i);
      }
    }

    /** One iteration of the submission loop. */
    method SubmitRequest(threadException: bool)
      requires Valid() && Enabled(input, State(), Submit(threadException))
      modifies this
      ensures State() == Apply(input, old(State()), Submit(threadException))
    {
      if threadException {
        aborted := true;
        return;
      }
      var idx := |requestFutures|;
      if input.requests[idx].None? {
        requestFutures := requestFutures + [Some(NoResponse)];
        return;
      }
      var request := input.requests[idx].value;
      if request.completion && request.fingerprint.Some? && request.fingerprint.value in cachedResponses {
        requestFutures := requestFutures + [Some(Response(cachedResponses[request.fingerprint.value]))];
        return;
      }
      var isNew := GetOrCreateRequestFuture(idx, request);
      if isNew {
        numUniqueRequests := numUniqueRequests + 1;
        totalTokenEstimate := Plus(totalTokenEstimate, request.estimate);
        enqueued := enqueued + [idx];
      }
    }

    method GetOrCreateRequestFuture(idx: nat, request: Request) returns (isNew: bool)
      requires idx == |requestFutures|
      modifies this
      ensures isNew <==> KeyOf(request) !in old(uniqueFutures)
      ensures isNew ==> State() == old(State()).(futures := old(requestFutures) + [None],
                                                 unique := old(uniqueFutures)[KeyOf(request) := idx])
      ensures !isNew ==> State() == GetOrCreate(old(State()), idx, request)
    {
      var key := KeyOf(request);
      if key in uniqueFutures {
        var existing := uniqueFutures[key];
        if existing < |requestFutures| && requestFutures[existing].Some? {
          requestFutures := requestFutures + [requestFutures[existing]];
        } else {
          requestFutures := requestFutures + [None];
          copies := copies[existing := CopiesOf(copies, existing) + [idx]];
        }
        return false;
      }
      requestFutures := requestFutures + [None];
      uniqueFutures := uniqueFutures[key := idx];
      return true;
    }

    /** The event loop sets a future; its callbacks copy the result to the duplicates. */
    method ResolveFuture(position: nat, answer: Answer)
      requires Enabled(input, State(), Resolve(position, answer))
      modifies this`requestFutures
      ensures State() == Apply(input, old(State()), Resolve(position, answer))
    {
      var waiting := CopiesOf(copies, position);
      requestFutures := requestFutures[position := Some(answer)];
      ghost var start := requestFutures;
      var k := 0;
      while k < |waiting|
        invariant 0 <= k <= |waiting|
        invariant requestFutures == SetAll(start, waiting[..k], answer)
        invariant State() == old(State()).(futures := requestFutures)
      {
        assert waiting[..k + 1][..k] == waiting[..k];
        if waiting[k] < |requestFutures| {
          requestFutures := requestFutures[waiting[k] := Some(answer)];
        }
        k := k + 1;
      }
      assert waiting[..k] == waiting;
    }
  }
}
