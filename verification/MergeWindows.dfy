/** The greedy sliding window of the text splitter, on the lengths of the pieces alone.
  *
  * Pieces are merged from left to right.  When the next piece no longer fits, the window is closed and
  * pieces are dropped from its front until what is left is a small enough overlap. */
module MergeWindows {

  /** Length of pieces `a..b` joined by a separator of length `sep`. */
  function Width(lens: seq<nat>, sep: nat, a: nat, b: nat): nat
    requires b <= |lens|
    decreases b - a
  {
    if a >= b then 0
    else if a + 1 == b then lens[a]
    else lens[a] + sep + Width(lens, sep, a + 1, b)
  }

  datatype Limits = Limits(sep: nat, size: nat, overlap: nat)

  /** Piece `i` does not fit the window that starts at `a`. */
  predicate Exceeds(lens: seq<nat>, l: Limits, a: nat, i: nat)
    requires i < |lens|
  {
    Width(lens, l.sep, a, i) + lens[i] + l.sep > l.size
  }

  /** The closed window has to give up its first piece before piece `i` can follow. */
  predicate MustDrop(lens: seq<nat>, l: Limits, a: nat, i: nat)
    requires i < |lens|
  {
    Width(lens, l.sep, a, i) > l.overlap || (Exceeds(lens, l, a, i) && Width(lens, l.sep, a, i) > 0)
  }

  /** Where the overlap starts that is kept of a window closed before piece `i`. */
  function Shrink(lens: seq<nat>, l: Limits, a: nat, i: nat): (r: nat)
    requires a <= i < |lens|
    ensures a <= r <= i
    decreases i - a
  {
    if a < i && MustDrop(lens, l, a, i) then Shrink(lens, l, a + 1, i) else a
  }

  /** Where the window starts that piece `i` joins. */
  function NextStart(lens: seq<nat>, l: Limits, a: nat, i: nat): (r: nat)
    requires a <= i < |lens|
    ensures a <= r <= i
  {
    if a < i && Exceeds(lens, l, a, i) then Shrink(lens, l, a, i) else a
  }

  /** The windows that are output, given the one open before piece `i`. */
  function Windows(lens: seq<nat>, l: Limits, a: nat, i: nat): seq<(nat, nat)>
    requires a <= i <= |lens|
    decreases |lens| - i
  {
    if i == |lens| then if a < i then [(a, i)] else []
    else if a < i && Exceeds(lens, l, a, i) then [(a, i)] + Windows(lens, l, Shrink(lens, l, a, i), i + 1)
    else Windows(lens, l, a, i + 1)
  }

  /** Where the current window starts once the pieces before `i` are merged. */
  function StartAt(lens: seq<nat>, l: Limits, i: nat): (a: nat)
    requires i <= |lens|
    ensures a <= i && (i > 0 ==> a < i)
  {
    if i == 0 then 0 else NextStart(lens, l, StartAt(lens, l, i - 1), i - 1)
  }

  /** The windows closed by the pieces before `i`. */
  function Closed(lens: seq<nat>, l: Limits, i: nat): seq<(nat, nat)>
    requires i <= |lens|
  {
    if i == 0 then []
    else
      Closed(lens, l, i - 1) + if Closes(lens, l, i - 1) then [(StartAt(lens, l, i - 1), i - 1)] else []
  }

  /** Piece `i` closes the window that is open before it. */
  predicate Closes(lens: seq<nat>, l: Limits, i: nat)
    requires i < |lens|
  {
    StartAt(lens, l, i) < i && Exceeds(lens, l, StartAt(lens, l, i), i)
  }

  /** All windows: those already closed, and those still to come from the open one. */
  lemma {:induction false} ClosedThenOpen(lens: seq<nat>, l: Limits, i: nat)
    requires i <= |lens|
    ensures Closed(lens, l, i) + Windows(lens, l, StartAt(lens, l, i), i) == Windows(lens, l, 0, 0)
  {
    if i > 0 {
      var a := StartAt(lens, l, i - 1);
      ClosedThenOpen(lens, l, i - 1);
      var rest := Windows(lens, l, StartAt(lens, l, i), i);
      if a < i - 1 && Exceeds(lens, l, a, i - 1) {
        assert Windows(lens, l, a, i - 1) == [(a, i - 1)] + rest;
        assert (Closed(lens, l, i - 1) + [(a, i - 1)]) + rest == Closed(lens, l, i - 1) + ([(a, i - 1)] + rest);
      }
    }
  }

  lemma {:induction false} WidthExtends(lens: seq<nat>, sep: nat, a: nat, b: nat)
    requires a <= b < |lens|
    ensures Width(lens, sep, a, b + 1) == Width(lens, sep, a, b) + lens[b] + if a < b then sep else 0
    decreases b - a
  {
    if a < b {
      WidthExtends(lens, sep, a + 1, b);
    }
  }

  lemma {:induction false} WidthIsMonotone(lens: seq<nat>, sep: nat, a: nat, b: nat, c: nat)
    requires a <= b <= c <= |lens|
    ensures Width(lens, sep, a, b) <= Width(lens, sep, a, c)
    decreases c
  {
    if b < c {
      WidthIsMonotone(lens, sep, a, b, c - 1);
      WidthExtends(lens, sep, a, c - 1);
    }
  }

  lemma {:induction false} ZeroWidth(lens: seq<nat>, sep: nat, a: nat, b: nat)
    requires a < b <= |lens|
    requires Width(lens, sep, a, b) == 0
    ensures forall i :: a <= i < b ==> lens[i] == 0
    decreases b - a
  {
    if a + 1 < b {
      ZeroWidth(lens, sep, a + 1, b);
    }
  }

  // ---------------------------------------------------------------- the shape of the windows

  /** The first window starts with the first piece and the last one ends with the last. */
  lemma {:induction false} WindowsCoverAll(lens: seq<nat>, l: Limits, a: nat, i: nat)
    requires a <= i <= |lens| && (a < i || i == 0)
    ensures Windows(lens, l, a, i) == [] <==> |lens| == 0
    ensures |lens| > 0 ==> Windows(lens, l, a, i)[0].0 == a && i <= Windows(lens, l, a, i)[0].1
    ensures |lens| > 0 ==> Windows(lens, l, a, i)[|Windows(lens, l, a, i)| - 1].1 == |lens|
    decreases |lens| - i
  {
    if i < |lens| {
      var next := NextStart(lens, l, a, i);
      WindowsCoverAll(lens, l, next, i + 1);
    }
  }

  /** What is true of two consecutive windows: they are contiguous or overlap, both ends move on, the
    * closed one had no room for its next piece, the overlap is within its limit, and it is the longest
    * that the dropping loop allows. */
  predicate Follows(lens: seq<nat>, l: Limits, w: (nat, nat), w': (nat, nat)) {
    && w.0 < w.1 < w'.1 <= |lens| && w.0 <= w'.0 <= w.1
    && Width(lens, l.sep, w.0, w.1 + 1) > l.size
    && Width(lens, l.sep, w'.0, w.1) <= l.overlap
    && (w'.0 < w.1 ==> !MustDrop(lens, l, w'.0, w.1))
    && forall a :: w.0 <= a < w'.0 ==> MustDrop(lens, l, a, w.1)
  }

  lemma {:induction false} ShrinkIsFirst(lens: seq<nat>, l: Limits, a: nat, i: nat)
    requires a <= i < |lens|
    ensures var r := Shrink(lens, l, a, i);
            && (r < i ==> !MustDrop(lens, l, r, i))
            && forall k :: a <= k < r ==> MustDrop(lens, l, k, i)
    decreases i - a
  {
    if a < i && MustDrop(lens, l, a, i) {
      ShrinkIsFirst(lens, l, a + 1, i);
    }
  }

  /** Every window is a non-empty stretch of the first `n` pieces. */
  predicate Inside(n: nat, ws: seq<(nat, nat)>) {
    forall k :: 0 <= k < |ws| ==> ws[k].0 < ws[k].1 <= n
  }

  /** Greedy windows: every two consecutive output windows are related as `Follows` says. */
  lemma {:induction false} WindowsAreGreedy(lens: seq<nat>, l: Limits, a: nat, i: nat)
    requires a <= i <= |lens| && (a < i || i == 0)
    ensures var ws := Windows(lens, l, a, i);
            && Inside(|lens|, ws)
            && (forall k :: 0 <= k < |ws| - 1 ==> Follows(lens, l, ws[k], ws[k + 1]))
    decreases |lens| - i
  {
    if i < |lens| {
      var next := NextStart(lens, l, a, i);
      WindowsAreGreedy(lens, l, next, i + 1);
      if a < i && Exceeds(lens, l, a, i) {
        WidthExtends(lens, l.sep, a, i);
        ShrinkIsFirst(lens, l, a, i);
        WindowsCoverAll(lens, l, next, i + 1);
        var rest := Windows(lens, l, next, i + 1);
        assert Follows(lens, l, (a, i), rest[0]);
      }
    }
  }

  // ---------------------------------------------------------------- the size bound

  /** The one way to overflow: a piece of length zero stays as the overlap, and the separator after it
    * pushes the next piece over the limit. */
  predicate RoomAfterZero(lens: seq<nat>, l: Limits, i: nat)
    requires 0 < i < |lens|
  {
    lens[i - 1] == 0 ==> lens[i] + l.sep <= l.size
  }

  predicate WithinSize(lens: seq<nat>, l: Limits, ws: seq<(nat, nat)>) {
    forall k :: 0 <= k < |ws| ==> ws[k].1 <= |lens| && Width(lens, l.sep, ws[k].0, ws[k].1) <= l.size
  }

  lemma NextFits(lens: seq<nat>, l: Limits, a: nat, i: nat)
    requires a <= i < |lens| && lens[i] <= l.size && (a < i || i == 0)
    requires i > 0 ==> RoomAfterZero(lens, l, i)
    ensures Width(lens, l.sep, NextStart(lens, l, a, i), i + 1) <= l.size
  {
    var r := NextStart(lens, l, a, i);
    WidthExtends(lens, l.sep, r, i);
    ShrinkIsFirst(lens, l, a, i);
    if r < i && Exceeds(lens, l, r, i) {
      ZeroWidth(lens, l.sep, r, i);
    }
  }

  lemma {:induction false} RoomIsEnough(lens: seq<nat>, l: Limits, a: nat, i: nat)
    requires a <= i <= |lens| && (a < i || i == 0) && Width(lens, l.sep, a, i) <= l.size
    requires forall k :: 0 <= k < |lens| ==> lens[k] <= l.size
    requires forall k :: 0 < k < |lens| ==> RoomAfterZero(lens, l, k)
    ensures WithinSize(lens, l, Windows(lens, l, a, i))
    decreases |lens| - i
  {
    if i < |lens| {
      NextFits(lens, l, a, i);
      RoomIsEnough(lens, l, NextStart(lens, l, a, i), i + 1);
    }
  }

  /** A window that is already too wide is output too wide. */
  lemma {:induction false} FirstWindowContains(lens: seq<nat>, l: Limits, a: nat, i: nat)
    requires a < i <= |lens| && Width(lens, l.sep, a, i) > l.size
    ensures !WithinSize(lens, l, Windows(lens, l, a, i))
  {
    WindowsCoverAll(lens, l, a, i);
    var w := Windows(lens, l, a, i)[0];
    WindowsAreGreedy(lens, l, a, i);
    WidthIsMonotone(lens, l.sep, a, i, w.1);
  }

  lemma ShrinkStopsAtZero(lens: seq<nat>, l: Limits, a: nat, i: nat)
    requires a < i < |lens| && lens[i - 1] == 0 && lens[i] + l.sep > l.size
    ensures Exceeds(lens, l, a, i)
    ensures Shrink(lens, l, a, i) < i && Width(lens, l.sep, Shrink(lens, l, a, i), i) == 0
  {
    ShrinkIsFirst(lens, l, a, i);
    assert Width(lens, l.sep, i - 1, i) == 0;
    assert !MustDrop(lens, l, i - 1, i);
  }

  lemma {:induction false} NoRoomOverflows(lens: seq<nat>, l: Limits, a: nat, i: nat, bad: nat)
    requires a <= i <= |lens| && (a < i || i == 0)
    requires 0 < bad < |lens| && i <= bad && !RoomAfterZero(lens, l, bad)
    ensures !WithinSize(lens, l, Windows(lens, l, a, i))
    decreases |lens| - i
  {
    var next := NextStart(lens, l, a, i);
    var rest := Windows(lens, l, next, i + 1);
    if i == bad {
      ShrinkStopsAtZero(lens, l, a, i);
      WidthExtends(lens, l.sep, next, i);
      FirstWindowContains(lens, l, next, i + 1);
    } else {
      NoRoomOverflows(lens, l, next, i + 1, bad);
    }
    var ws := Windows(lens, l, a, i);
    if ws != rest {
      var k :| 0 <= k < |rest| && !(rest[k].1 <= |lens| && Width(lens, l.sep, rest[k].0, rest[k].1) <= l.size);
      assert ws[k + 1] == rest[k];
    }
  }

  /** Exactly when every merged window respects the chunk size, for pieces that fit on their own: no
    * piece of length zero is followed by one that the separator pushes over the limit. */
  lemma SizeBoundExactlyWhen(lens: seq<nat>, l: Limits)
    requires forall k :: 0 <= k < |lens| ==> lens[k] <= l.size
    ensures WithinSize(lens, l, Windows(lens, l, 0, 0))
        <==> forall i :: 0 < i < |lens| ==> RoomAfterZero(lens, l, i)
  {
    if forall i :: 0 < i < |lens| ==> RoomAfterZero(lens, l, i) {
      RoomIsEnough(lens, l, 0, 0);
    } else {
      var bad :| 0 < bad < |lens| && !RoomAfterZero(lens, l, bad);
      NoRoomOverflows(lens, l, 0, 0, bad);
    }
  }

  /** The two simple conditions under which the bound always holds. */
  lemma SizeBoundHolds(lens: seq<nat>, l: Limits)
    requires forall k :: 0 <= k < |lens| ==> lens[k] < l.size
    requires l.sep <= 1 || forall k :: 0 <= k < |lens| ==> lens[k] > 0
    ensures WithinSize(lens, l, Windows(lens, l, 0, 0))
  {
    SizeBoundExactlyWhen(lens, l);
  }

  /** An empty-length piece and a separator of length two: the merged window has length five of four. */
  lemma SizeBoundCanFail()
    ensures var lens, l := [0, 3], Limits(2, 4, 1);
            Windows(lens, l, 0, 0) == [(0, 1), (0, 2)] && Width(lens, l.sep, 0, 2) == 5
  {
    var lens, l := [0, 3], Limits(2, 4, 1);
    assert Width(lens, 2, 0, 1) == 0 && Width(lens, 2, 1, 2) == 3;
    assert Exceeds(lens, l, 0, 1) && !MustDrop(lens, l, 0, 1);
    assert Shrink(lens, l, 0, 1) == 0;
    assert Windows(lens, l, 0, 2) == [(0, 2)];
    assert Windows(lens, l, 0, 1) == [(0, 1)] + Windows(lens, l, 0, 2);
    assert Windows(lens, l, 0, 0) == Windows(lens, l, 0, 1);
  }

  lemma {:induction false} ClosedInside(lens: seq<nat>, l: Limits, i: nat)
    requires i <= |lens|
    ensures Inside(|lens|, Closed(lens, l, i))
  {
    if i > 0 {
      ClosedInside(lens, l, i - 1);
    }
  }
}
