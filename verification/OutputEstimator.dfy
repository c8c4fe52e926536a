/** The adaptive output-token estimator: a sliding window of actual counts per key and a
  * high-quantile reservation read from it.  Quantiles are exact reals. */
module OutputEstimator {
  import opened Wrappers

  const DEFAULT_QUANTILE: real := 0.95
  const REASONING_QUANTILE: real := 0.99

  function Ceil(x: real): int { -((-x).Floor) }

  // ---------------------------------------------------------------- sorting and counting

  function Insert(x: int, sorted: seq<int>): seq<int> {
    if sorted == [] || x <= sorted[0] then [x] + sorted else [sorted[0]] + Insert(x, sorted[1..])
  }

  function Sorted(s: seq<int>): seq<int> {
    if s == [] then [] else Insert(s[0], Sorted(s[1..]))
  }

  predicate IsSorted(s: seq<int>) {
    forall i, j :: 0 <= i < j < |s| ==> s[i] <= s[j]
  }

  /** How many elements of `s` are at most `v`. */
  function CountAtMost(s: seq<int>, v: int): nat {
    if s == [] then 0 else (if s[0] <= v then 1 else 0) + CountAtMost(s[1..], v)
  }

  lemma {:induction false} InsertSorts(x: int, sorted: seq<int>, v: int)
    requires IsSorted(sorted)
    ensures IsSorted(Insert(x, sorted)) && |Insert(x, sorted)| == |sorted| + 1
    ensures CountAtMost(Insert(x, sorted), v) == (if x <= v then 1 else 0) + CountAtMost(sorted, v)
    ensures Insert(x, sorted)[0] == if sorted == [] || x <= sorted[0] then x else sorted[0]
  {
    if sorted == [] || x <= sorted[0] {
      assert ([x] + sorted)[1..] == sorted;
    } else {
      InsertSorts(x, sorted[1..], v);
      var rest := Insert(x, sorted[1..]);
      assert ([sorted[0]] + rest)[1..] == rest;
      forall i, j | 0 <= i < j < |rest| + 1 ensures ([sorted[0]] + rest)[i] <= ([sorted[0]] + rest)[j] {
        if i == 0 {
          assert sorted[0] <= rest[0] <= rest[j - 1];
        }
      }
    }
  }

  lemma {:induction false} SortedSorts(s: seq<int>, v: int)
    ensures IsSorted(Sorted(s)) && |Sorted(s)| == |s|
    ensures CountAtMost(Sorted(s), v) == CountAtMost(s, v)
  {
    if s != [] {
      SortedSorts(s[1..], v);
      InsertSorts(s[0], Sorted(s[1..]), v);
    }
  }

  lemma {:induction false} NoneAtMost(s: seq<int>, v: int)
    requires forall i :: 0 <= i < |s| ==> v < s[i]
    ensures CountAtMost(s, v) == 0
  {
    if s != [] {
      NoneAtMost(s[1..], v);
    }
  }

  lemma {:induction false} RankInSorted(s: seq<int>, k: nat, v: int)
    requires IsSorted(s) && k < |s|
    ensures s[k] <= v <==> CountAtMost(s, v) >= k + 1
  {
    if s[0] > v {
      NoneAtMost(s, v);
    } else if k > 0 {
      RankInSorted(s[1..], k - 1, v);
    }
  }

  /** The k-th smallest sample is at most `v` exactly when more than k samples are. */
  lemma OrderStatistic(s: seq<int>, k: nat, v: int)
    requires k < |s|
    ensures |Sorted(s)| == |s| && IsSorted(Sorted(s))
    ensures Sorted(s)[k] <= v <==> CountAtMost(s, v) >= k + 1
  {
    SortedSorts(s, v);
    RankInSorted(Sorted(s), k, v);
  }

  lemma {:induction false} CountOfConcat(a: seq<int>, b: seq<int>, v: int)
    ensures CountAtMost(a + b, v) == CountAtMost(a, v) + CountAtMost(b, v)
  {
    if a == [] {
      assert a + b == b;
    } else {
      assert (a + b)[1..] == a[1..] + b;
      CountOfConcat(a[1..], b, v);
    }
  }

  lemma {:induction false} CountOfPermutation(a: seq<int>, b: seq<int>, v: int)
    requires multiset(a) == multiset(b)
    ensures CountAtMost(a, v) == CountAtMost(b, v)
    decreases |a|
  {
    if a == [] {
      assert |multiset(b)| == 0;
    } else {
      assert a[0] in multiset(b);
      var i :| 0 <= i < |b| && b[i] == a[0];
      WithoutOne(a, 0, v);
      WithoutOne(b, i, v);
      CountOfPermutation(Without(a, 0), Without(b, i), v);
    }
  }

  function Without(s: seq<int>, i: nat): seq<int>
    requires i < |s|
  {
    s[..i] + s[i + 1..]
  }

  lemma WithoutOne(s: seq<int>, i: nat, v: int)
    requires i < |s|
    ensures multiset(Without(s, i)) == multiset(s) - multiset{s[i]} && |Without(s, i)| == |s| - 1
    ensures CountAtMost(s, v) == CountAtMost(Without(s, i), v) + CountAtMost([s[i]], v)
  {
    assert s == s[..i] + [s[i]] + s[i + 1..];
    CountOfConcat(s[..i], s[i + 1..], v);
    CountOfConcat(s[..i] + [s[i]], s[i + 1..], v);
    CountOfConcat(s[..i], [s[i]], v);
  }

  /** Sorting depends on the multiset of samples only. */
  lemma SortedOfPermutation(a: seq<int>, b: seq<int>)
    requires multiset(a) == multiset(b)
    ensures Sorted(a) == Sorted(b)
  {
    assert |multiset(a)| == |a| && |multiset(b)| == |b|;
    SortedSorts(a, 0);
    SortedSorts(b, 0);
    forall k | 0 <= k < |a| ensures Sorted(a)[k] == Sorted(b)[k] {
      var x, y := Sorted(a)[k], Sorted(b)[k];
      OrderStatistic(a, k, x);
      OrderStatistic(b, k, x);
      OrderStatistic(a, k, y);
      OrderStatistic(b, k, y);
      CountOfPermutation(a, b, x);
      CountOfPermutation(a, b, y);
    }
  }

  lemma CountOfUpdate(s: seq<int>, i: nat, x: int, v: int)
    requires i < |s| && s[i] <= x
    ensures CountAtMost(s[i := x], v) <= CountAtMost(s, v)
  {
    assert s == s[..i] + ([s[i]] + s[i + 1..]);
    assert s[i := x] == s[..i] + ([x] + s[i + 1..]);
    CountOfConcat(s[..i], [s[i]] + s[i + 1..], v);
    CountOfConcat(s[..i], [x] + s[i + 1..], v);
    assert ([s[i]] + s[i + 1..])[1..] == s[i + 1..] == ([x] + s[i + 1..])[1..];
  }

  /** Raising one sample raises, or leaves, every order statistic. */
  lemma SortedOfUpdate(s: seq<int>, i: nat, x: int, k: nat)
    requires i < |s| && s[i] <= x && k < |s|
    ensures |Sorted(s)| == |Sorted(s[i := x])| == |s| && Sorted(s)[k] <= Sorted(s[i := x])[k]
  {
    SortedSorts(s, 0);
    SortedSorts(s[i := x], 0);
    var v := Sorted(s[i := x])[k];
    OrderStatistic(s[i := x], k, v);
    OrderStatistic(s, k, v);
    CountOfUpdate(s, i, x, v);
  }

  // ---------------------------------------------------------------- the quantile

  /** Where the q-quantile of `n` sorted values lies among their indices. */
  function Position(n: nat, q: real): (pos: real)
    requires n > 0 && 0.0 <= q <= 1.0
    ensures 0.0 <= pos <= (n - 1) as real
  {
    PositionInBounds(n, q);
    q * (n - 1) as real
  }

  lemma PositionInBounds(n: nat, q: real)
    requires n > 0 && 0.0 <= q <= 1.0
    ensures 0.0 <= q * (n - 1) as real <= (n - 1) as real
  {
    ProductIsNonNegative(q, (n - 1) as real);
    ProductIsNonNegative(1.0 - q, (n - 1) as real);
  }

  lemma ProductIsNonNegative(x: real, y: real)
    requires x >= 0.0 && y >= 0.0
    ensures x * y >= 0.0
  {
  }

  function Interpolate(s: seq<int>, pos: real): real
    requires 0.0 <= pos <= (|s| - 1) as real
  {
    var lo, hi := pos.Floor, Ceil(pos);
    if lo == hi then s[lo] as real
    else s[lo] as real * (hi as real - pos) + s[hi] as real * (pos - lo as real)
  }

  function Quantile(sortedVals: seq<int>, q: real): real
    requires sortedVals != [] && 0.0 <= q <= 1.0
  {
    if |sortedVals| == 1 then sortedVals[0] as real
    else Interpolate(sortedVals, Position(|sortedVals|, q))
  }

  lemma WeightedMeanIsBetween(a: real, b: real, left: real, right: real)
    requires left >= 0.0 && right >= 0.0 && left + right == 1.0 && a <= b
    ensures a <= a * left + b * right
  {
    assert a * left + b * right == a + (b - a) * right;
    ProductIsNonNegative(b - a, right);
  }

  lemma WeightedMeanIsMonotone(a: real, b: real, a': real, b': real, left: real, right: real)
    requires left >= 0.0 && right >= 0.0 && a <= a' && b <= b'
    ensures a * left + b * right <= a' * left + b' * right
  {
    ProductIsNonNegative(a' - a, left);
    ProductIsNonNegative(b' - b, right);
  }

  /** The interpolated value is at least the order statistic below the position. */
  lemma InterpolateIsAtLeast(s: seq<int>, pos: real)
    requires IsSorted(s) && 0.0 <= pos <= (|s| - 1) as real
    ensures s[pos.Floor] as real <= Interpolate(s, pos)
  {
    var lo, hi := pos.Floor, Ceil(pos);
    if lo < hi {
      assert hi == lo + 1;
      WeightedMeanIsBetween(s[lo] as real, s[hi] as real, hi as real - pos, pos - lo as real);
    }
  }

  lemma InterpolateIsMonotone(s: seq<int>, t: seq<int>, pos: real)
    requires |s| == |t| && 0.0 <= pos <= (|s| - 1) as real
    requires forall k :: 0 <= k < |s| ==> s[k] <= t[k]
    ensures Interpolate(s, pos) <= Interpolate(t, pos)
  {
    var lo, hi := pos.Floor, Ceil(pos);
    if lo < hi {
      WeightedMeanIsMonotone(s[lo] as real, s[hi] as real, t[lo] as real, t[hi] as real,
                             hi as real - pos, pos - lo as real);
    }
  }

  function Rank(n: nat, q: real): (k: nat)
    requires n > 0 && 0.0 <= q <= 1.0
    ensures k < n
  {
    Position(n, q).Floor
  }

  lemma QuantileIsAtLeast(s: seq<int>, q: real)
    requires s != [] && IsSorted(s) && 0.0 <= q <= 1.0
    ensures s[Rank(|s|, q)] as real <= Quantile(s, q)
  {
    InterpolateIsAtLeast(s, Position(|s|, q));
  }

  lemma QuantileIsMonotone(s: seq<int>, t: seq<int>, q: real)
    requires s != [] && |s| == |t| && 0.0 <= q <= 1.0
    requires forall k :: 0 <= k < |s| ==> s[k] <= t[k]
    ensures Quantile(s, q) <= Quantile(t, q)
  {
    InterpolateIsMonotone(s, t, Position(|s|, q));
  }

  // ---------------------------------------------------------------- the reservation

  datatype Settings = Settings(enabled: bool, safetyMargin: real, minSamples: int, window: nat)

  function QuantileFor(reasoning: bool): real {
    if reasoning then REASONING_QUANTILE else DEFAULT_QUANTILE
  }

  /** The reservation read from one key's window. */
  function Reservation(c: Settings, samples: seq<int>, staticCeiling: int, reasoning: bool): int {
    if staticCeiling <= 0 || !c.enabled || samples == [] || |samples| < c.minSamples then staticCeiling
    else
      SortedSorts(samples, 0);
      ClampToCeiling(Modeled(Sorted(samples), QuantileFor(reasoning), c.safetyMargin), staticCeiling)
  }

  function Modeled(sortedVals: seq<int>, q: real, margin: real): real
    requires sortedVals != [] && 0.0 <= q <= 1.0
  {
    Quantile(sortedVals, q) * margin
  }

  function ClampToCeiling(modeled: real, staticCeiling: int): int {
    Max(1, Min(staticCeiling, Ceil(modeled)))
  }

  lemma ModeledCovers(sortedVals: seq<int>, q: real, margin: real)
    requires sortedVals != [] && IsSorted(sortedVals) && 0.0 <= q <= 1.0 && margin >= 1.0
    requires 0 <= sortedVals[Rank(|sortedVals|, q)]
    ensures sortedVals[Rank(|sortedVals|, q)] as real <= Modeled(sortedVals, q, margin)
  {
    QuantileIsAtLeast(sortedVals, q);
    MarginKeeps(Quantile(sortedVals, q), margin);
  }

  lemma ModeledIsMonotone(s: seq<int>, t: seq<int>, q: real, margin: real)
    requires s != [] && |s| == |t| && 0.0 <= q <= 1.0 && margin >= 0.0
    requires forall k :: 0 <= k < |s| ==> s[k] <= t[k]
    ensures Modeled(s, q, margin) <= Modeled(t, q, margin)
  {
    QuantileIsMonotone(s, t, q);
    ScalingIsMonotone(Quantile(s, q), Quantile(t, q), margin);
  }

  lemma ScalingIsMonotone(x: real, y: real, margin: real)
    requires x <= y && margin >= 0.0
    ensures x * margin <= y * margin
  {
    ProductIsNonNegative(y - x, margin);
  }

  /** For every window content, a positive ceiling gives a reservation between one and the ceiling. */
  lemma ReservationInRange(c: Settings, samples: seq<int>, staticCeiling: int, reasoning: bool)
    ensures staticCeiling > 0 ==> 1 <= Reservation(c, samples, staticCeiling, reasoning) <= staticCeiling
    ensures staticCeiling <= 0 ==> Reservation(c, samples, staticCeiling, reasoning) == staticCeiling
  {
  }

  lemma MarginKeeps(x: real, margin: real)
    requires 0.0 <= x && 1.0 <= margin
    ensures x <= x * margin
  {
    assert x * (margin - 1.0) >= 0.0;
  }

  /** Coverage: at least the promised fraction of the retained samples fits the reservation. */
  lemma Coverage(c: Settings, samples: seq<int>, staticCeiling: int, reasoning: bool)
    requires c.safetyMargin >= 1.0 && staticCeiling > 0 && samples != []
    requires forall i :: 0 <= i < |samples| ==> 0 <= samples[i] <= staticCeiling
    ensures CountAtMost(samples, Reservation(c, samples, staticCeiling, reasoning))
         >= Rank(|samples|, QuantileFor(reasoning)) + 1
  {
    var q, r := QuantileFor(reasoning), Reservation(c, samples, staticCeiling, reasoning);
    var k := Rank(|samples|, q);
    SortedWithin(samples, 0, staticCeiling, k);
    SortedSorts(samples, 0);
    ModeledCovers(Sorted(samples), q, c.safetyMargin);
    assert Sorted(samples)[k] <= r;
    OrderStatistic(samples, k, r);
  }

  lemma SortedWithin(samples: seq<int>, low: int, high: int, k: nat)
    requires k < |samples|
    requires forall i :: 0 <= i < |samples| ==> low <= samples[i] <= high
    ensures |Sorted(samples)| == |samples| && low <= Sorted(samples)[k] <= high
  {
    OrderStatistic(samples, k, high);
    AllAtMost(samples, high);
    OrderStatistic(samples, k, low - 1);
    NoneAtMost(samples, low - 1);
  }

  lemma {:induction false} AllAtMost(s: seq<int>, v: int)
    requires forall i :: 0 <= i < |s| ==> s[i] <= v
    ensures CountAtMost(s, v) == |s|
  {
    if s != [] {
      AllAtMost(s[1..], v);
    }
  }

  /** The reservation depends on the multiset of retained samples only. */
  lemma ReservationIgnoresOrder(c: Settings, a: seq<int>, b: seq<int>, staticCeiling: int, reasoning: bool)
    requires multiset(a) == multiset(b)
    ensures Reservation(c, a, staticCeiling, reasoning) == Reservation(c, b, staticCeiling, reasoning)
  {
    assert |multiset(a)| == |a| && |multiset(b)| == |b|;
    SortedOfPermutation(a, b);
  }

  /** Replacing a sample by a larger one never lowers the reservation. */
  lemma ReservationIsMonotone(c: Settings, samples: seq<int>, i: nat, x: int,
                              staticCeiling: int, reasoning: bool)
    requires i < |samples| && samples[i] <= x && c.safetyMargin >= 0.0
    ensures Reservation(c, samples, staticCeiling, reasoning)
         <= Reservation(c, samples[i := x], staticCeiling, reasoning)
  {
    var s, t := Sorted(samples), Sorted(samples[i := x]);
    SortedSorts(samples, 0);
    SortedSorts(samples[i := x], 0);
    forall k | 0 <= k < |samples| ensures s[k] <= t[k] {
      SortedOfUpdate(samples, i, x, k);
    }
    ModeledIsMonotone(s, t, QuantileFor(reasoning), c.safetyMargin);
  }

  /** At this position among the values, `x` is the value below it and the part of the step to the next one
    * that the position is past it. */
  predicate IsLinearAt(s: seq<int>, pos: real, x: real) {
    var lo := pos.Floor;
    && 0 <= lo < |s|
    && x == s[lo] as real + ((if lo + 1 < |s| then s[lo + 1] else s[lo]) - s[lo]) as real * (pos - lo as real)
  }

  lemma InterpolateIsLinear(s: seq<int>, pos: real)
    requires 0.0 <= pos <= (|s| - 1) as real
    ensures IsLinearAt(s, pos, Interpolate(s, pos))
  {
    var lo, hi := pos.Floor, Ceil(pos);
    if lo < hi {
      assert hi == lo + 1;
      BetweenTwo(s[lo] as real, s[hi] as real, hi as real - pos, pos - lo as real);
    } else {
      assert pos - lo as real == 0.0;
    }
  }

  lemma BetweenTwo(a: real, b: real, left: real, right: real)
    requires left + right == 1.0
    ensures a * left + b * right == a + (b - a) * right
  {
    assert a * left == a * (1.0 - right) == a - a * right;
  }

  /** The quantile is linear between the sorted values around the `q`-th part of the way through them. */
  lemma QuantileIsLinear(s: seq<int>, q: real)
    requires s != [] && 0.0 <= q <= 1.0
    ensures IsLinearAt(s, q * (|s| - 1) as real, Quantile(s, q))
  {
    PositionInBounds(|s|, q);
    if |s| == 1 {
      OnlyValue(s, q);
    } else {
      InterpolateIsLinear(s, Position(|s|, q));
    }
  }

  lemma OnlyValue(s: seq<int>, q: real)
    requires |s| == 1
    ensures IsLinearAt(s, q * (|s| - 1) as real, s[0] as real)
  {
    assert q * 0.0 == 0.0;
  }

  /** The least whole number that is not below the quantile times the margin, between one and the ceiling. */
  predicate IsLeastFor(r: int, quantile: real, margin: real, ceiling: int) {
    && 1 <= r <= ceiling
    && (r < ceiling ==> quantile * margin <= r as real) && (1 < r ==> (r - 1) as real < quantile * margin)
  }

  lemma ClampIsLeast(quantile: real, margin: real, ceiling: int)
    requires ceiling > 0
    ensures IsLeastFor(ClampToCeiling(quantile * margin, ceiling), quantile, margin, ceiling)
  {
    CeilIsLeast(quantile * margin);
  }

  lemma CeilIsLeast(x: real)
    ensures Ceil(x) as real - 1.0 < x <= Ceil(x) as real
  {
  }

  /** The reservation in full: the ceiling unless the estimator is enabled and knows enough; otherwise the
    * least whole number for the quantile of the sorted samples. */
  lemma ReservationIsLeast(c: Settings, samples: seq<int>, staticCeiling: int, reasoning: bool)
    ensures staticCeiling <= 0 || !c.enabled || samples == [] || |samples| < c.minSamples ==>
              Reservation(c, samples, staticCeiling, reasoning) == staticCeiling
    ensures |Sorted(samples)| == |samples|
    ensures staticCeiling > 0 && c.enabled && samples != [] && |samples| >= c.minSamples ==>
              IsLeastFor(Reservation(c, samples, staticCeiling, reasoning),
                         Quantile(Sorted(samples), if reasoning then 0.99 else 0.95), c.safetyMargin, staticCeiling)
  {
    SortedSorts(samples, 0);
    if staticCeiling > 0 && c.enabled && samples != [] && |samples| >= c.minSamples {
      var q := QuantileFor(reasoning);
      LearnedReservation(c, samples, staticCeiling, reasoning);
      ModeledIsLeast(Sorted(samples), q, c.safetyMargin, staticCeiling);
    }
  }

  lemma LearnedReservation(c: Settings, samples: seq<int>, staticCeiling: int, reasoning: bool)
    requires staticCeiling > 0 && c.enabled && samples != [] && |samples| >= c.minSamples
    ensures |Sorted(samples)| == |samples|
    ensures Reservation(c, samples, staticCeiling, reasoning)
         == ClampToCeiling(Modeled(Sorted(samples), QuantileFor(reasoning), c.safetyMargin), staticCeiling)
  {
    SortedSorts(samples, 0);
  }

  lemma ModeledIsLeast(s: seq<int>, q: real, margin: real, ceiling: int)
    requires s != [] && 0.0 <= q <= 1.0 && ceiling > 0
    ensures IsLeastFor(ClampToCeiling(Modeled(s, q, margin), ceiling), Quantile(s, q), margin, ceiling)
  {
    ClampIsLeast(Quantile(s, q), margin, ceiling);
  }

  // ---------------------------------------------------------------- the window

  /** The last `window` elements, or all of them when there are fewer. */
  function LastN<T>(window: nat, s: seq<T>): seq<T> {
    if |s| <= window then s else s[|s| - window..]
  }

  /** A window holds as many of the elements as it may, and they are the last ones. */
  lemma LastNIsSuffix<T>(window: nat, s: seq<T>)
    ensures |LastN(window, s)| == (if |s| < window then |s| else window)
    ensures LastN(window, s) == s[|s| - |LastN(window, s)|..]
  {
  }

  lemma LastNAppend<T>(window: nat, s: seq<T>, x: T)
    ensures LastN(window, LastN(window, s) + [x]) == LastN(window, s + [x])
  {
    if |s| > window {
      assert (s[|s| - window..] + [x])[1..] == (s + [x])[|s| + 1 - window..];
    }
  }

  /** The counts observed for one key, oldest first. */
  function ObservedFor<Key(==)>(key: Key, observations: seq<(Key, int)>): seq<int> {
    if observations == [] then []
    else
      var last := observations[|observations| - 1];
      ObservedFor(key, observations[..|observations| - 1]) + if last.0 == key then [last.1] else []
  }

  function SamplesOf<Key(==)>(samples: map<Key, seq<int>>, key: Key): seq<int> {
    if key in samples then samples[key] else []
  }

  function Observed<Key(==)>(c: Settings, samples: map<Key, seq<int>>, key: Key, actual: int): map<Key, seq<int>> {
    if !c.enabled then samples
    else samples[key := LastN(c.window, SamplesOf(samples, key) + [actual])]
  }

  function AfterObservations<Key(==)>(c: Settings, observations: seq<(Key, int)>): map<Key, seq<int>> {
    if observations == [] then map[]
    else
      var last := observations[|observations| - 1];
      Observed(c, AfterObservations(c, observations[..|observations| - 1]), last.0, last.1)
  }

  /** After any run, each key holds exactly its own last samples: keys are isolated, nothing else of
    * the history matters, and a disabled estimator records nothing. */
  lemma {:induction false} WindowHoldsLastSamples<Key>(c: Settings, observations: seq<(Key, int)>, key: Key)
    ensures SamplesOf(AfterObservations(c, observations), key)
         == if c.enabled then LastN(c.window, ObservedFor(key, observations)) else []
  {
    if observations != [] {
      var front, last := observations[..|observations| - 1], observations[|observations| - 1];
      WindowHoldsLastSamples(c, front, key);
      WindowMoves(c, AfterObservations(c, front), ObservedFor(key, front), last.0, last.1, key);
    }
  }

  /** One observation moves the window of its own key only. */
  lemma WindowMoves<Key>(c: Settings, samples: map<Key, seq<int>>, past: seq<int>, observed: Key, actual: int,
                         key: Key)
    requires SamplesOf(samples, key) == if c.enabled then LastN(c.window, past) else []
    ensures SamplesOf(Observed(c, samples, observed, actual), key)
         == if c.enabled then LastN(c.window, past + if observed == key then [actual] else []) else []
  {
    LastNAppend(c.window, past, actual);
  }

  /** Two histories whose windows for a key hold the same samples, in whatever order, reserve alike. */
  lemma HistoriesWithEqualWindows<Key>(c: Settings, first: seq<(Key, int)>, second: seq<(Key, int)>, key: Key,
                                       staticCeiling: int, reasoning: bool)
    requires multiset(LastN(c.window, ObservedFor(key, first)))
          == multiset(LastN(c.window, ObservedFor(key, second)))
    ensures Reservation(c, SamplesOf(AfterObservations(c, first), key), staticCeiling, reasoning)
         == Reservation(c, SamplesOf(AfterObservations(c, second), key), staticCeiling, reasoning)
  {
    WindowHoldsLastSamples(c, first, key);
    WindowHoldsLastSamples(c, second, key);
    ReservationIgnoresOrder(c, SamplesOf(AfterObservations(c, first), key),
                            SamplesOf(AfterObservations(c, second), key), staticCeiling, reasoning);
  }

  class OutputTokenEstimator<Key(==)> {
    const settings: Settings
    var samples: map<Key, seq<int>>

    /** No window is longer than its bound. */
    ghost predicate Valid()
      reads this
    {
      forall key :: key in samples ==> |samples[key]| <= settings.window
    }

    constructor (enabled: bool, safetyMargin: real, minSamples: int, window: nat)
      ensures settings == Settings(enabled, safetyMargin, minSamples, window) && samples == map[]
      ensures Valid()
    {
      settings := Settings(enabled, safetyMargin, minSamples, window);
      samples := map[];
    }

    /** The quantile of an empty window is asked for: only a window of size zero and a minimum that is not
      * positive lead there, and the list access fails. */
    predicate Fails(key: Key, staticCeiling: int)
      reads this
    {
      && staticCeiling > 0 && settings.enabled && settings.minSamples <= 0
      && key in samples && samples[key] == []
    }

    method Reserve(key: Key, staticCeiling: int, reasoning: bool) returns (r: Result<int>)
      ensures r == if Fails(key, staticCeiling) then Err("list index out of range")
                   else Ok(Reservation(settings, SamplesOf(samples, key), staticCeiling, reasoning))
    {
      if staticCeiling <= 0 {
        return Ok(staticCeiling);
      }
      if !settings.enabled {
        return Ok(staticCeiling);
      }
      if key !in samples || |samples[key]| < settings.minSamples {
        return Ok(staticCeiling);
      }
      if samples[key] == [] {
        return Err("list index out of range");
      }
      var ordered := Sorted(samples[key]);
      SortedSorts(samples[key], 0);
      var q := if reasoning then REASONING_QUANTILE else DEFAULT_QUANTILE;
      var modeled := Modeled(ordered, q, settings.safetyMargin);
      r := Ok(ClampToCeiling(modeled, staticCeiling));
    }

    method Observe(key: Key, actualOutputTokens: int)
      requires Valid()
      modifies this`samples
      ensures Valid()
      ensures samples == Observed(settings, old(samples), key, actualOutputTokens)
    {
      if !settings.enabled {
        return;
      }
      var window := if key in samples then samples[key] else [];
      window := window + [actualOutputTokens];
      if |window| > settings.window {
        window := window[1..];
      }
      samples := samples[key := window];
    }
  }
}
