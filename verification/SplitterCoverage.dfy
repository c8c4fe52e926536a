/** Chunking loses nothing: up to whitespace and separator characters, every part of the text is in some
  * chunk, in order, and without overlap the chunks put together are the text. */
module SplitterCoverage {
  import opened Strings
  import opened MergeWindows
  import opened Splitter

  // ---------------------------------------------------------------- what is left of a text

  /** The text without whitespace and without the characters in `drop`. */
  function Strip(drop: set<char>, s: string): string {
    if s == "" then ""
    else (if IsWhitespace(s[0]) || s[0] in drop then "" else [s[0]]) + Strip(drop, s[1..])
  }

  function StripAll(drop: set<char>, parts: seq<string>): seq<string> {
    if parts == [] then [] else [Strip(drop, parts[0])] + StripAll(drop, parts[1..])
  }

  predicate DropsAll(drop: set<char>, separators: seq<string>) {
    forall k :: 0 <= k < |separators| ==> Drops(drop, separators[k])
  }

  predicate Drops(drop: set<char>, separator: string) {
    forall c :: c in separator ==> c in drop
  }

  lemma {:induction false} StripOfConcat(drop: set<char>, a: string, b: string)
    ensures Strip(drop, a + b) == Strip(drop, a) + Strip(drop, b)
  {
    if a == "" {
      assert a + b == b;
    } else {
      assert (a + b)[1..] == a[1..] + b;
      StripOfConcat(drop, a[1..], b);
    }
  }

  lemma {:induction false} StripOfBlank(drop: set<char>, s: string)
    requires forall i :: 0 <= i < |s| ==> IsWhitespace(s[i]) || s[i] in drop
    ensures Strip(drop, s) == ""
  {
    if s != "" {
      StripOfBlank(drop, s[1..]);
    }
  }

  lemma StripOfTrim(drop: set<char>, s: string)
    ensures Strip(drop, Trim(s)) == Strip(drop, s)
  {
    var left, right := TrimSplits(s);
    StripOfBlank(drop, left);
    StripOfBlank(drop, right);
    StripOfConcat(drop, left + Trim(s), right);
    StripOfConcat(drop, left, Trim(s));
  }

  lemma {:induction false} StripAllOfConcat(drop: set<char>, a: seq<string>, b: seq<string>)
    ensures StripAll(drop, a + b) == StripAll(drop, a) + StripAll(drop, b)
  {
    if a == [] {
      assert a + b == b;
    } else {
      assert (a + b)[1..] == a[1..] + b;
      StripAllOfConcat(drop, a[1..], b);
    }
  }

  lemma StripAllOfOne(drop: set<char>, part: string)
    ensures StripAll(drop, [part]) == [Strip(drop, part)]
  {
    assert [part][1..] == [];
  }

  /** What is left of all parts put together. */
  function Left(drop: set<char>, parts: seq<string>): string { Flatten(StripAll(drop, parts)) }

  lemma LeftOfConcat(drop: set<char>, a: seq<string>, b: seq<string>)
    ensures Left(drop, a + b) == Left(drop, a) + Left(drop, b)
  {
    StripAllOfConcat(drop, a, b);
    FlattenOfConcat(StripAll(drop, a), StripAll(drop, b));
  }

  lemma {:induction false} StripOfJoin(drop: set<char>, parts: seq<string>, separator: string)
    requires Drops(drop, separator)
    ensures Strip(drop, Join(parts, separator)) == Left(drop, parts)
  {
    if |parts| == 1 {
      assert parts[1..] == [];
      assert Left(drop, parts) == Strip(drop, parts[0]) + Left(drop, parts[1..]);
    } else if parts != [] {
      StripOfJoin(drop, parts[1..], separator);
      StripOfBlank(drop, separator);
      StripOfConcat(drop, parts[0] + separator, Join(parts[1..], separator));
      StripOfConcat(drop, parts[0], separator);
    }
  }

  lemma {:induction false} StripOfNonEmpty(drop: set<char>, parts: seq<string>)
    ensures Left(drop, NonEmpty(parts)) == Left(drop, parts)
  {
    if parts != [] {
      StripOfNonEmpty(drop, parts[1..]);
      if parts[0] != "" {
        assert NonEmpty(parts)[1..] == NonEmpty(parts[1..]);
      } else {
        assert NonEmpty(parts) == NonEmpty(parts[1..]);
      }
    }
  }

  lemma {:induction false} JoinOfCharacters(text: string)
    ensures Join(Characters(text), "") == text
  {
    if |text| > 1 {
      JoinOfCharacters(text[1..]);
      assert Characters(text)[1..] == Characters(text[1..]);
    }
  }

  /** The pieces of a text keep everything but the separator. */
  lemma StripOfPieces(drop: set<char>, text: string, separator: string)
    requires Drops(drop, separator)
    ensures Left(drop, PiecesOf(text, separator)) == Strip(drop, text)
  {
    if separator == "" {
      JoinOfCharacters(text);
      StripOfJoin(drop, Characters(text), separator);
      StripOfNonEmpty(drop, Characters(text));
    } else {
      JoinOfSplit(text, separator);
      StripOfJoin(drop, SplitOn(text, separator), separator);
      StripOfNonEmpty(drop, SplitOn(text, separator));
    }
  }

  // ---------------------------------------------------------------- coverings

  /** `parts` are stretches of `s` that start in order and leave no gap: given that everything before
    * `reached` is covered and the last stretch started at `started`, the next one starts no earlier than
    * that and no later than `reached`, and ends no earlier than `reached`; the last one ends with `s`.
    * When `exact`, each stretch starts where the one before it ended. */
  ghost predicate Covers(s: string, parts: seq<string>, started: nat, reached: nat, exact: bool)
    decreases parts
  {
    if parts == [] then reached == |s|
    else exists from: nat, to: nat :: Stretch(s, parts[0], started, reached, exact, from, to)
                                      && Covers(s, parts[1..], from, to, exact)
  }

  predicate Stretch(s: string, part: string, started: nat, reached: nat, exact: bool, from: nat, to: nat) {
    && started <= from <= reached <= to <= |s| && part == s[from..to]
    && (exact ==> from == reached)
  }

  lemma CoversStep(s: string, part: string, rest: seq<string>, started: nat, reached: nat, exact: bool,
                   from: nat, to: nat)
    requires Stretch(s, part, started, reached, exact, from, to) && Covers(s, rest, from, to, exact)
    ensures Covers(s, [part] + rest, started, reached, exact)
  {
    assert ([part] + rest)[0] == part && ([part] + rest)[1..] == rest;
  }

  /** Exact coverings put together give the rest of the text. */
  lemma {:induction false} ExactCoverIsConcatenation(s: string, parts: seq<string>, started: nat, reached: nat)
    requires Covers(s, parts, started, reached, true) && reached <= |s|
    ensures Flatten(parts) == s[reached..]
  {
    if parts != [] {
      var from: nat, to: nat :| Stretch(s, parts[0], started, reached, true, from, to)
                                && Covers(s, parts[1..], from, to, true);
      ExactCoverIsConcatenation(s, parts[1..], from, to);
      assert s[from..to] + s[to..] == s[from..];
    }
  }

  lemma {:induction false} CoverShifts(front: string, s: string, parts: seq<string>, started: nat, reached: nat,
                                       exact: bool, started': nat)
    requires Covers(s, parts, started, reached, exact) && started' <= |front| + started
    ensures Covers(front + s, parts, started', |front| + reached, exact)
  {
    if parts != [] {
      var from: nat, to: nat :| Stretch(s, parts[0], started, reached, exact, from, to)
                                && Covers(s, parts[1..], from, to, exact);
      CoverShifts(front, s, parts[1..], from, to, exact, |front| + from);
      assert (front + s)[|front| + from..|front| + to] == s[from..to];
      assert Stretch(front + s, parts[0], started', |front| + reached, exact, |front| + from, |front| + to);
    }
  }

  /** Coverings of two texts, one after the other, cover both together. */
  lemma {:induction false} CoversConcat(a: string, parts: seq<string>, started: nat, reached: nat,
                                        b: string, parts': seq<string>, exact: bool)
    requires Covers(a, parts, started, reached, exact) && Covers(b, parts', 0, 0, exact)
    requires started <= |a| && reached <= |a|
    ensures Covers(a + b, parts + parts', started, reached, exact)
  {
    if parts == [] {
      CoverShifts(a, b, parts', 0, 0, exact, started);
      assert parts + parts' == parts';
    } else {
      var from: nat, to: nat :| Stretch(a, parts[0], started, reached, exact, from, to)
                                && Covers(a, parts[1..], from, to, exact);
      CoversConcat(a, parts[1..], from, to, b, parts', exact);
      assert (a + b)[from..to] == a[from..to];
      assert parts + parts' == [parts[0]] + (parts[1..] + parts');
      CoversStep(a + b, parts[0], parts[1..] + parts', started, reached, exact, from, to);
    }
  }

  lemma CoversAnyStart(s: string, parts: seq<string>, started: nat, reached: nat, exact: bool, started': nat)
    requires Covers(s, parts, started, reached, exact) && started' <= started
    ensures Covers(s, parts, started', reached, exact)
  {
    if parts != [] {
      var from: nat, to: nat :| Stretch(s, parts[0], started, reached, exact, from, to)
                                && Covers(s, parts[1..], from, to, exact);
      assert Stretch(s, parts[0], started', reached, exact, from, to);
    }
  }

  /** A text that covers itself. */
  lemma WholeCovers(s: string, exact: bool)
    ensures Covers(s, [s], 0, 0, exact)
  {
    assert s[0..|s|] == s;
    assert Stretch(s, s, 0, 0, exact, 0, |s|);
    CoversStep(s, s, [], 0, 0, exact, 0, |s|);
    assert [s] + [] == [s];
  }

  // ---------------------------------------------------------------- merging covers its pieces

  /** A chunk is not lost when it is blank: it would have covered nothing. */
  lemma ChunkCovers(drop: set<char>, contents: seq<string>, separator: string, s: string, rest: seq<string>,
                    started: nat, reached: nat, exact: bool, from: nat, to: nat)
    requires Drops(drop, separator)
    requires Stretch(s, Left(drop, contents), started, reached, exact, from, to)
    requires Covers(s, rest, from, to, exact)
    ensures Covers(s, StripAll(drop, ChunkOf(contents, separator)) + rest, started, reached, exact)
  {
    var joined := Join(contents, separator);
    StripOfJoin(drop, contents, separator);
    StripOfTrim(drop, joined);
    if Trim(joined) == "" {
      assert to == from == reached;
      CoversAnyStart(s, rest, from, to, exact, started);
      assert StripAll(drop, ChunkOf(contents, separator)) + rest == rest;
    } else {
      assert ChunkOf(contents, separator) == [Trim(joined)];
      StripAllOfOne(drop, Trim(joined));
      CoversStep(s, Strip(drop, Trim(joined)), rest, started, reached, exact, from, to);
    }
  }

  /** Where piece `i` starts in the stripped text. */
  function Offset(drop: set<char>, pieces: seq<string>, i: nat): nat
    requires i <= |pieces|
  {
    |Left(drop, pieces[..i])|
  }

  lemma OffsetSlice(drop: set<char>, pieces: seq<string>, a: nat, b: nat)
    requires a <= b <= |pieces|
    ensures Offset(drop, pieces, a) <= Offset(drop, pieces, b) <= |Left(drop, pieces)|
    ensures Left(drop, pieces)[Offset(drop, pieces, a)..Offset(drop, pieces, b)]
         == Left(drop, pieces[a..b])
  {
    assert pieces == pieces[..b] + pieces[b..];
    assert pieces[..b] == pieces[..a] + pieces[a..b];
    LeftOfConcat(drop, pieces[..b], pieces[b..]);
    LeftOfConcat(drop, pieces[..a], pieces[a..b]);
  }

  /** Pieces of length zero have nothing to lose. */
  predicate ZeroIsBlank(drop: set<char>, pieces: seq<string>, lens: seq<nat>) {
    |lens| == |pieces| && forall i :: 0 <= i < |pieces| && lens[i] == 0 ==> Strip(drop, pieces[i]) == ""
  }

  lemma {:induction false} BlankPieces(drop: set<char>, pieces: seq<string>)
    requires forall i :: 0 <= i < |pieces| ==> Strip(drop, pieces[i]) == ""
    ensures Left(drop, pieces) == ""
  {
    if pieces != [] {
      BlankPieces(drop, pieces[1..]);
    }
  }

  /** Without overlap, the next window starts where the closed one ended, in the stripped text. */
  lemma NoOverlapIsExact(drop: set<char>, pieces: seq<string>, lens: seq<nat>, l: Limits, a: nat, i: nat)
    requires a < i < |pieces| && ZeroIsBlank(drop, pieces, lens) && l.overlap == 0
    ensures Offset(drop, pieces, Shrink(lens, l, a, i)) == Offset(drop, pieces, i)
  {
    var r := Shrink(lens, l, a, i);
    ShrinkIsFirst(lens, l, a, i);
    if r < i {
      ZeroWidth(lens, l.sep, r, i);
      BlankPieces(drop, pieces[r..i]);
    }
    OffsetSlice(drop, pieces, r, i);
  }

  lemma {:induction false} WindowsCover(drop: set<char>, pieces: seq<string>, separator: string, lens: seq<nat>,
                                        l: Limits, a: nat, i: nat, started: nat, reached: nat, exact: bool)
    requires Drops(drop, separator) && |lens| == |pieces| && a <= i <= |pieces| && (a < i || i == 0)
    requires exact ==> l.overlap == 0 && ZeroIsBlank(drop, pieces, lens)
    requires started <= Offset(drop, pieces, a) <= reached <= Offset(drop, pieces, i)
    requires exact ==> Offset(drop, pieces, a) == reached
    requires Inside(|pieces|, Windows(lens, l, a, i))
    ensures Covers(Left(drop, pieces),
                   StripAll(drop, Render(pieces, separator, Windows(lens, l, a, i))), started, reached, exact)
    decreases |pieces| - i
  {
    var s := Left(drop, pieces);
    assert pieces[..|pieces|] == pieces;
    if i == |pieces| {
      if a < i {
        OffsetSlice(drop, pieces, a, i);
        LastWindowCovers(drop, pieces, separator, a, started, reached, exact);
        RenderFirst(pieces, separator, (a, i), []);
        assert [(a, i)] + [] == [(a, i)];
        assert ChunkOf(pieces[a..i], separator) + [] == ChunkOf(pieces[a..i], separator);
      }
    } else {
      OffsetSlice(drop, pieces, a, i);
      OffsetSlice(drop, pieces, i, i + 1);
      if a < i && Exceeds(lens, l, a, i) {
        ClosedWindowCovers(drop, pieces, separator, lens, l, a, i, started, reached, exact);
      } else {
        WindowsCover(drop, pieces, separator, lens, l, a, i + 1, started, reached, exact);
      }
    }
  }

  lemma LastWindowCovers(drop: set<char>, pieces: seq<string>, separator: string, a: nat,
                         started: nat, reached: nat, exact: bool)
    requires Drops(drop, separator) && a < |pieces|
    requires started <= Offset(drop, pieces, a) <= reached <= Offset(drop, pieces, |pieces|)
    requires exact ==> Offset(drop, pieces, a) == reached
    ensures Covers(Left(drop, pieces), StripAll(drop, ChunkOf(pieces[a..|pieces|], separator)),
                   started, reached, exact)
  {
    var s, n := Left(drop, pieces), |pieces|;
    assert pieces[..n] == pieces;
    OffsetSlice(drop, pieces, a, n);
    ChunkCovers(drop, pieces[a..n], separator, s, [], started, reached, exact,
                Offset(drop, pieces, a), Offset(drop, pieces, n));
    assert StripAll(drop, ChunkOf(pieces[a..n], separator)) + [] == StripAll(drop, ChunkOf(pieces[a..n], separator));
  }

  lemma {:induction false} ClosedWindowCovers(drop: set<char>, pieces: seq<string>, separator: string,
                                              lens: seq<nat>, l: Limits, a: nat, i: nat,
                                              started: nat, reached: nat, exact: bool)
    requires Drops(drop, separator) && |lens| == |pieces| && a < i < |pieces| && Exceeds(lens, l, a, i)
    requires exact ==> l.overlap == 0 && ZeroIsBlank(drop, pieces, lens)
    requires started <= Offset(drop, pieces, a) <= reached <= Offset(drop, pieces, i)
    requires exact ==> Offset(drop, pieces, a) == reached
    requires Inside(|pieces|, Windows(lens, l, a, i))
    ensures Covers(Left(drop, pieces),
                   StripAll(drop, Render(pieces, separator, Windows(lens, l, a, i))), started, reached, exact)
    decreases |pieces| - i, 0
  {
    var s, next := Left(drop, pieces), Shrink(lens, l, a, i);
    var from, to := Offset(drop, pieces, a), Offset(drop, pieces, i);
    OffsetSlice(drop, pieces, a, i);
    OffsetSlice(drop, pieces, a, next);
    OffsetSlice(drop, pieces, next, i);
    OffsetSlice(drop, pieces, i, i + 1);
    if exact {
      NoOverlapIsExact(drop, pieces, lens, l, a, i);
    }
    var rest := Windows(lens, l, next, i + 1);
    WindowsAreGreedy(lens, l, next, i + 1);
    WindowsCover(drop, pieces, separator, lens, l, next, i + 1, from, to, exact);
    ChunkCovers(drop, pieces[a..i], separator, s, StripAll(drop, Render(pieces, separator, rest)),
                started, reached, exact, from, to);
    RenderFirst(pieces, separator, (a, i), rest);
    StripAllOfConcat(drop, ChunkOf(pieces[a..i], separator), Render(pieces, separator, rest));
  }

  /** Whatever measures zero is blank. */
  ghost predicate ZeroMeansBlank(drop: set<char>, f: LengthFunction) {
    forall s: string :: ChunkLength(f, s) == 0 ==> Strip(drop, s) == ""
  }

  lemma MergeCovers(drop: set<char>, t: TextSplitter, pieces: seq<string>, separator: string, exact: bool)
    requires Drops(drop, separator)
    requires exact ==> t.chunkOverlap == 0 && ZeroMeansBlank(drop, t.length)
    ensures Covers(Left(drop, pieces), StripAll(drop, MergeIfAny(t, pieces, separator)), 0, 0, exact)
  {
    if pieces != [] {
      var lens, l := Lengths(t.length, pieces), LimitsFor(t, separator);
      WindowsAreGreedy(lens, l, 0, 0);
      assert pieces[..0] == [];
      WindowsCover(drop, pieces, separator, lens, l, 0, 0, 0, 0, exact);
    }
  }

  // ---------------------------------------------------------------- through the recursion

  lemma {:induction false} SelectChoosesFrom(text: string, separators: seq<string>)
    requires separators != []
    ensures Select(text, separators).0 in separators
    ensures forall x :: x in Select(text, separators).1 ==> x in separators
  {
    if |separators| > 1 {
      SelectChoosesFrom(text, separators[1..]);
    }
  }

  lemma {:induction false} SplitCovers(drop: set<char>, t: TextSplitter, text: string, separators: seq<string>,
                                       exact: bool)
    requires DropsAll(drop, separators)
    requires exact ==> t.chunkOverlap == 0 && ZeroMeansBlank(drop, t.length)
    ensures Covers(Strip(drop, text), StripAll(drop, Split(t, text, separators)), 0, 0, exact)
    decreases |separators|, 0
  {
    if separators == [] {
      StripAllOfOne(drop, text);
      WholeCovers(Strip(drop, text), exact);
    } else {
      var (separator, rest) := Select(text, separators);
      SelectChoosesFrom(text, separators);
      StripOfPieces(drop, text, separator);
      var pieces := PiecesOf(text, separator);
      assert [] + pieces == pieces;
      forall k | 0 <= k < |rest| ensures Drops(drop, rest[k]) {
        assert rest[k] in separators;
      }
      AssembleCovers(drop, t, pieces, [], separator, rest, exact);
    }
  }

  lemma {:induction false} AssembleCovers(drop: set<char>, t: TextSplitter, pieces: seq<string>, valid: seq<string>,
                                          separator: string, rest: seq<string>, exact: bool)
    requires Drops(drop, separator) && DropsAll(drop, rest)
    requires exact ==> t.chunkOverlap == 0 && ZeroMeansBlank(drop, t.length)
    ensures Covers(Left(drop, valid + pieces), StripAll(drop, Assemble(t, pieces, valid, separator, rest)), 0, 0, exact)
    decreases |rest|, |pieces| + 1
  {
    if pieces == [] {
      assert valid + pieces == valid;
      MergeCovers(drop, t, valid, separator, exact);
    } else if ChunkLength(t.length, pieces[0]) < t.chunkSize {
      assert valid + pieces == (valid + [pieces[0]]) + pieces[1..];
      AssembleCovers(drop, t, pieces[1..], valid + [pieces[0]], separator, rest, exact);
    } else {
      LongPieceCovers(drop, t, pieces[0], rest, exact);
      MergeCovers(drop, t, valid, separator, exact);
      assert [] + pieces[1..] == pieces[1..];
      AssembleCovers(drop, t, pieces[1..], [], separator, rest, exact);
      ThreePartsCover(drop, valid, pieces, MergeIfAny(t, valid, separator),
                      if rest == [] then [pieces[0]] else Split(t, pieces[0], rest),
                      Assemble(t, pieces[1..], [], separator, rest), exact);
    }
  }

  lemma {:induction false} LongPieceCovers(drop: set<char>, t: TextSplitter, piece: string, rest: seq<string>,
                                           exact: bool)
    requires DropsAll(drop, rest)
    requires exact ==> t.chunkOverlap == 0 && ZeroMeansBlank(drop, t.length)
    ensures Covers(Strip(drop, piece), StripAll(drop, if rest == [] then [piece] else Split(t, piece, rest)),
                   0, 0, exact)
    decreases |rest|, 1
  {
    if rest == [] {
      StripAllOfOne(drop, piece);
      WholeCovers(Strip(drop, piece), exact);
    } else {
      SplitCovers(drop, t, piece, rest, exact);
    }
  }

  lemma ThreePartsCover(drop: set<char>, valid: seq<string>, pieces: seq<string>, merged: seq<string>,
                        divided: seq<string>, others: seq<string>, exact: bool)
    requires pieces != []
    requires Covers(Left(drop, valid), StripAll(drop, merged), 0, 0, exact)
    requires Covers(Strip(drop, pieces[0]), StripAll(drop, divided), 0, 0, exact)
    requires Covers(Left(drop, pieces[1..]), StripAll(drop, others), 0, 0, exact)
    ensures Covers(Left(drop, valid + pieces), StripAll(drop, (merged + divided) + others), 0, 0, exact)
  {
    LeftOfConcat(drop, valid, pieces);
    StripAllOfConcat(drop, merged, divided);
    StripAllOfConcat(drop, merged + divided, others);
    ThreeTextsCover(Left(drop, valid), Strip(drop, pieces[0]), Left(drop, pieces[1..]),
                    StripAll(drop, merged), StripAll(drop, divided), StripAll(drop, others), exact);
  }

  lemma ThreeTextsCover(a: string, b: string, c: string, first: seq<string>, second: seq<string>,
                        third: seq<string>, exact: bool)
    requires Covers(a, first, 0, 0, exact) && Covers(b, second, 0, 0, exact) && Covers(c, third, 0, 0, exact)
    ensures Covers(a + (b + c), (first + second) + third, 0, 0, exact)
  {
    CoversConcat(a, first, 0, 0, b, second, exact);
    CoversConcat(a + b, first + second, 0, 0, c, third, exact);
    assert (a + b) + c == a + (b + c);
  }

  /** The final trimming only drops chunks that cover nothing. */
  lemma {:induction false} TrimmingCovers(drop: set<char>, s: string, chunks: seq<string>, started: nat, reached: nat,
                                          exact: bool)
    requires Covers(s, StripAll(drop, chunks), started, reached, exact)
    ensures Covers(s, StripAll(drop, NonBlankTrimmed(chunks)), started, reached, exact)
  {
    if chunks != [] {
      var parts := StripAll(drop, chunks);
      var from: nat, to: nat :| Stretch(s, parts[0], started, reached, exact, from, to)
                                && Covers(s, parts[1..], from, to, exact);
      TrimmingCovers(drop, s, chunks[1..], from, to, exact);
      StripOfTrim(drop, chunks[0]);
      var rest := StripAll(drop, NonBlankTrimmed(chunks[1..]));
      if Trim(chunks[0]) == "" {
        assert NonBlankTrimmed(chunks) == NonBlankTrimmed(chunks[1..]);
        CoversAnyStart(s, rest, from, to, exact, started);
      } else {
        StripAllOfConcat(drop, [Trim(chunks[0])], NonBlankTrimmed(chunks[1..]));
        StripAllOfOne(drop, Trim(chunks[0]));
        CoversStep(s, parts[0], rest, started, reached, exact, from, to);
      }
    }
  }

  // ---------------------------------------------------------------- the main results

  function SeparatorCharacters(separators: seq<string>): set<char> {
    set k: nat, c: char | k < |separators| && c in separators[k] :: c
  }

  /** With any length function and any overlap, every character of the text that is neither whitespace
    * nor of a separator is in some chunk, and the chunks are in order. */
  lemma ChunksCoverText(t: TextSplitter, text: string)
    ensures var drop := SeparatorCharacters(t.separators);
            Covers(Strip(drop, text), StripAll(drop, Chunks(t, text)), 0, 0, false)
  {
    CoveredBy(t, text, false);
  }

  lemma CoveredBy(t: TextSplitter, text: string, exact: bool)
    requires exact ==> t.chunkOverlap == 0 && ZeroMeansBlank(SeparatorCharacters(t.separators), t.length)
    ensures var drop := SeparatorCharacters(t.separators);
            Covers(Strip(drop, text), StripAll(drop, Chunks(t, text)), 0, 0, exact)
  {
    var drop := SeparatorCharacters(t.separators);
    StripOfTrim(drop, text);
    if Trim(text) != "" {
      SplitCovers(drop, t, Trim(text), t.separators, exact);
      TrimmingCovers(drop, Strip(drop, text), Split(t, Trim(text), t.separators), 0, 0, exact);
    }
  }

  lemma {:induction false} NoWordsMeansBlank(s: string)
    requires Words(s) == 0
    ensures forall i :: 0 <= i < |s| ==> IsWhitespace(s[i])
  {
    if s != "" {
      NoWordsMeansBlank(s[1..]);
      assert |s| > 1 ==> s[1] == s[1..][0];
    }
  }

  /** Bytes and words measure zero only for blank text. */
  lemma BytesAndWordsMeasureText(drop: set<char>, f: LengthFunction)
    requires f == CharacterCount || f == WordCount
    ensures ZeroMeansBlank(drop, f)
  {
    forall s: string | ChunkLength(f, s) == 0 ensures Strip(drop, s) == "" {
      if f == WordCount {
        NoWordsMeansBlank(s);
        StripOfBlank(drop, s);
      }
    }
  }

  /** Without overlap, and counting bytes or words, chunking loses nothing and repeats nothing: but for
    * whitespace and separator characters, the chunks put together are the text. */
  lemma ChunksAreTheText(t: TextSplitter, text: string)
    requires t.chunkOverlap == 0 && (t.length == CharacterCount || t.length == WordCount)
    ensures var drop := SeparatorCharacters(t.separators);
            Strip(drop, Flatten(Chunks(t, text))) == Strip(drop, text)
  {
    var drop := SeparatorCharacters(t.separators);
    BytesAndWordsMeasureText(drop, t.length);
    CoveredBy(t, text, true);
    ExactCoverIsConcatenation(Strip(drop, text), StripAll(drop, Chunks(t, text)), 0, 0);
    StripOfFlatten(drop, Chunks(t, text));
  }

  lemma {:induction false} StripOfFlatten(drop: set<char>, parts: seq<string>)
    ensures Strip(drop, Flatten(parts)) == Left(drop, parts)
  {
    if parts != [] {
      StripOfFlatten(drop, parts[1..]);
      StripOfConcat(drop, parts[0], Flatten(parts[1..]));
    }
  }
}
