/** Chunk sizes through the whole recursion, for lengths counted in bytes and in words. */
module SplitterBounds {
  import opened Wrappers
  import opened Strings
  import opened MergeWindows
  import opened Splitter

  /** A chunk is small enough, or a single character that cannot be divided. */
  predicate Fits(t: TextSplitter, chunk: string) {
    ChunkLength(t.length, chunk) <= t.chunkSize || |chunk| == 1
  }

  predicate AllFit(t: TextSplitter, chunks: seq<string>) {
    forall k :: 0 <= k < |chunks| ==> Fits(t, chunks[k])
  }

  /** The length is bytes, or it is words and no separator has more than one. */
  predicate Measurable(f: LengthFunction, separators: seq<string>) {
    f == CharacterCount || (f == WordCount && forall k :: 0 <= k < |separators| ==> Words(separators[k]) <= 1)
  }

  // ---------------------------------------------------------------- lengths of joined and trimmed text

  lemma {:induction false} WordsOfConcat(a: string, b: string)
    ensures Words(a + b) <= Words(a) + Words(b)
  {
    if a == "" {
      assert a + b == b;
    } else {
      assert (a + b)[1..] == a[1..] + b;
      WordsOfConcat(a[1..], b);
      if |a| > 1 {
        assert (a + b)[1] == a[1];
      }
    }
  }

  /** The running length of a window is at least the length of its joined text. */
  lemma {:induction false} WidthBoundsLength(f: LengthFunction, pieces: seq<string>, separator: string,
                                             lens: seq<nat>, a: nat, b: nat)
    requires a <= b <= |pieces| == |lens| && (f == CharacterCount || f == WordCount)
    requires forall i :: 0 <= i < |pieces| ==> lens[i] == ChunkLength(f, pieces[i])
    ensures ChunkLength(f, Join(pieces[a..b], separator)) <= Width(lens, ChunkLength(f, separator), a, b)
    decreases b - a
  {
    if a + 1 < b {
      var rest := Join(pieces[a + 1..b], separator);
      assert pieces[a..b][1..] == pieces[a + 1..b];
      WidthBoundsLength(f, pieces, separator, lens, a + 1, b);
      if f == CharacterCount {
        ByteLengthOfConcat(pieces[a] + separator, rest);
        ByteLengthOfConcat(pieces[a], separator);
      } else {
        WordsOfConcat(pieces[a] + separator, rest);
        WordsOfConcat(pieces[a], separator);
      }
    }
  }

  /** Counting bytes, it is that length. */
  lemma {:induction false} WidthIsJoinedLength(pieces: seq<string>, separator: string, lens: seq<nat>, a: nat, b: nat)
    requires a <= b <= |pieces| == |lens|
    requires forall i :: 0 <= i < |pieces| ==> lens[i] == ByteLength(pieces[i])
    ensures ByteLength(Join(pieces[a..b], separator)) == Width(lens, ByteLength(separator), a, b)
    decreases b - a
  {
    if a + 1 < b {
      assert pieces[a..b][1..] == pieces[a + 1..b];
      WidthIsJoinedLength(pieces, separator, lens, a + 1, b);
      ByteLengthOfConcat(pieces[a] + separator, Join(pieces[a + 1..b], separator));
      ByteLengthOfConcat(pieces[a], separator);
    }
  }

  lemma {:induction false} LastBlankIsNoWord(s: string)
    requires s != "" && IsWhitespace(s[|s| - 1])
    ensures Words(s[..|s| - 1]) == Words(s)
  {
    if |s| > 1 {
      LastBlankIsNoWord(s[1..]);
      assert s[..|s| - 1][1..] == s[1..][..|s| - 2];
    }
  }

  lemma {:induction false} WordsOfTrimEnd(s: string)
    ensures Words(TrimEnd(s)) == Words(s)
  {
    if s != "" && IsWhitespace(s[|s| - 1]) {
      LastBlankIsNoWord(s);
      WordsOfTrimEnd(s[..|s| - 1]);
    }
  }

  lemma {:induction false} WordsOfTrimStart(s: string)
    ensures Words(TrimStart(s)) == Words(s)
  {
    if s != "" && IsWhitespace(s[0]) {
      WordsOfTrimStart(s[1..]);
    }
  }

  lemma TrimmingShortens(f: LengthFunction, s: string)
    requires f == CharacterCount || f == WordCount
    ensures ChunkLength(f, Trim(s)) <= ChunkLength(f, s) && |Trim(s)| <= |s|
  {
    TrimShortens(s);
    WordsOfTrimStart(s);
    WordsOfTrimEnd(TrimStart(s));
  }

  // ---------------------------------------------------------------- the bound through the recursion

  lemma {:induction false} RenderFits(t: TextSplitter, pieces: seq<string>, separator: string, lens: seq<nat>,
                                      ws: seq<(nat, nat)>)
    requires |lens| == |pieces| && Inside(|pieces|, ws) && (t.length == CharacterCount || t.length == WordCount)
    requires forall i :: 0 <= i < |pieces| ==> lens[i] == ChunkLength(t.length, pieces[i])
    requires WithinSize(lens, Limits(ChunkLength(t.length, separator), t.chunkSize, t.chunkOverlap), ws)
    ensures AllFit(t, Render(pieces, separator, ws))
  {
    if ws != [] {
      RenderFits(t, pieces, separator, lens, ws[1..]);
      WidthBoundsLength(t.length, pieces, separator, lens, ws[0].0, ws[0].1);
      TrimmingShortens(t.length, Join(pieces[ws[0].0..ws[0].1], separator));
    }
  }

  /** Short, non-empty pieces. */
  predicate ShortPieces(t: TextSplitter, pieces: seq<string>) {
    forall i :: 0 <= i < |pieces| ==> pieces[i] != "" && ChunkLength(t.length, pieces[i]) < t.chunkSize
  }

  lemma MergeFits(t: TextSplitter, pieces: seq<string>, separator: string)
    requires Measurable(t.length, [separator]) && ShortPieces(t, pieces)
    ensures AllFit(t, Merge(t, pieces, separator))
  {
    var lens, l := Lengths(t.length, pieces), LimitsFor(t, separator);
    assert [separator][0] == separator;
    forall k | 0 <= k < |lens| ensures lens[k] < l.size && (t.length == CharacterCount ==> 0 < lens[k]) {
      ByteLengthIsPositive(pieces[k]);
    }
    SizeBoundHolds(lens, l);
    WindowsAreGreedy(lens, l, 0, 0);
    RenderFits(t, pieces, separator, lens, Windows(lens, l, 0, 0));
  }

  /** With the empty separator in the list, the chosen separator is the empty one, or it occurs in the
    * text and the empty one is still ahead. */
  lemma {:induction false} SelectKeepsEmpty(text: string, separators: seq<string>)
    requires "" in separators
    ensures var (separator, rest) := Select(text, separators);
            if separator == "" then rest == [] else Contains(text, separator) && "" in rest
  {
    if separators[0] != "" {
      assert separators == [separators[0]] + separators[1..];
      if !Contains(text, separators[0]) {
        SelectKeepsEmpty(text, separators[1..]);
      }
    }
  }

  lemma {:induction false} NonEmptyKeeps(parts: seq<string>)
    ensures forall i :: 0 <= i < |NonEmpty(parts)| ==> NonEmpty(parts)[i] != "" && NonEmpty(parts)[i] in parts
  {
    if parts != [] {
      NonEmptyKeeps(parts[1..]);
    }
  }

  predicate SingleCharacters(pieces: seq<string>) {
    forall i :: 0 <= i < |pieces| ==> |pieces[i]| == 1
  }

  /** The chosen separator and those left are from the list. */
  lemma {:induction false} SelectKeepsMeasurable(f: LengthFunction, text: string, separators: seq<string>)
    requires separators != [] && Measurable(f, separators)
    ensures Measurable(f, [Select(text, separators).0]) && Measurable(f, Select(text, separators).1)
  {
    if |separators| > 1 {
      SelectKeepsMeasurable(f, text, separators[1..]);
    }
  }

  lemma {:induction false} SplitFits(t: TextSplitter, text: string, separators: seq<string>)
    requires Measurable(t.length, separators) && "" in separators
    ensures AllFit(t, Split(t, text, separators))
    decreases |separators|, 0
  {
    var (separator, rest) := Select(text, separators);
    SelectKeepsEmpty(text, separators);
    SelectKeepsMeasurable(t.length, text, separators);
    NonEmptyKeeps(if separator == "" then Characters(text) else SplitOn(text, separator));
    AssembleFits(t, PiecesOf(text, separator), [], separator, rest);
  }

  lemma {:induction false} AssembleFits(t: TextSplitter, pieces: seq<string>, valid: seq<string>,
                                        separator: string, rest: seq<string>)
    requires Measurable(t.length, [separator]) && Measurable(t.length, rest)
    requires forall i :: 0 <= i < |pieces| ==> pieces[i] != ""
    requires if rest == [] then SingleCharacters(pieces) else "" in rest
    requires ShortPieces(t, valid)
    ensures AllFit(t, Assemble(t, pieces, valid, separator, rest))
    decreases |rest|, |pieces| + 1
  {
    MergeFits(t, valid, separator);
    if pieces != [] {
      if ChunkLength(t.length, pieces[0]) < t.chunkSize {
        AssembleFits(t, pieces[1..], valid + [pieces[0]], separator, rest);
      } else {
        AssembleFits(t, pieces[1..], [], separator, rest);
        if rest != [] {
          SplitFits(t, pieces[0], rest);
        }
      }
    }
  }

  lemma {:induction false} TrimmingFits(t: TextSplitter, chunks: seq<string>)
    requires AllFit(t, chunks) && (t.length == CharacterCount || t.length == WordCount)
    ensures AllFit(t, NonBlankTrimmed(chunks))
  {
    if chunks != [] {
      assert forall k :: 0 <= k < |chunks[1..]| ==> chunks[1..][k] == chunks[k + 1];
      TrimmingFits(t, chunks[1..]);
      assert Fits(t, chunks[0]);
      TrimmingShortens(t.length, chunks[0]);
    }
  }

  /** Every chunk is at most `chunkSize` long, in bytes or in words, or a single character. */
  lemma ChunksFit(t: TextSplitter, text: string)
    requires Measurable(t.length, t.separators) && "" in t.separators
    ensures AllFit(t, Chunks(t, text))
  {
    if Trim(text) != "" {
      SplitFits(t, Trim(text), t.separators);
      TrimmingFits(t, Split(t, Trim(text), t.separators));
    }
  }

  /** Both built-in lists end in the empty separator and have no separator of two words. */
  lemma BuiltInListsFit(t: TextSplitter, text: string)
    requires t.length == CharacterCount || t.length == WordCount
    requires t.separators == ASCII_SEPARATORS || t.separators == UNICODE_SEPARATORS
    ensures AllFit(t, Chunks(t, text))
  {
    assert ASCII_SEPARATORS[8] == "" && UNICODE_SEPARATORS[13] == "";
    forall k | 0 <= k < |t.separators| ensures Words(t.separators[k]) <= 1 {
      assert t.separators[k] == "\n\n" || |t.separators[k]| <= 1;
      ShortHasOneWord(t.separators[k]);
    }
    ChunksFit(t, text);
  }

  lemma ShortHasOneWord(s: string)
    requires s == "\n\n" || |s| <= 1
    ensures Words(s) <= 1
  {
    if s == "\n\n" {
      assert IsWhitespace(s[0]) && IsWhitespace(s[1]) && s[1..][1..] == "";
    } else if s != "" {
      assert s[1..] == "";
    }
  }

  /** Counting words, a splitter that could be constructed never needs the exception for characters. */
  lemma WordsNeverExceed(separators: seq<string>, chunkSize: nat, chunkOverlap: nat, text: string)
    requires NewSplitter(separators, WordCount, chunkSize, chunkOverlap).Some?
    requires "" in separators && forall k :: 0 <= k < |separators| ==> Words(separators[k]) <= 1
    ensures var chunks := Chunks(NewSplitter(separators, WordCount, chunkSize, chunkOverlap).value, text);
            forall k :: 0 <= k < |chunks| ==> Words(chunks[k]) <= chunkSize
  {
    var t := NewSplitter(separators, WordCount, chunkSize, chunkOverlap).value;
    ChunksFit(t, text);
    forall k | 0 <= k < |Chunks(t, text)| ensures Words(Chunks(t, text)[k]) <= chunkSize {
      assert Fits(t, Chunks(t, text)[k]);
      if |Chunks(t, text)[k]| == 1 {
        ShortHasOneWord(Chunks(t, text)[k]);
      }
    }
  }

  // ---------------------------------------------------------------- a separator of two words

  lemma {:induction false} WordsOfSeparated(a: string, b: string)
    requires b != "" && IsWhitespace(b[0])
    ensures Words(a + b) == Words(a) + Words(b)
  {
    if a == "" {
      assert a + b == b;
    } else {
      assert (a + b)[1..] == a[1..] + b;
      WordsOfSeparated(a[1..], b);
      assert (a + b)[1] == if |a| > 1 then a[1] else b[0];
    }
  }

  lemma OneLetter(s: string)
    requires |s| == 2 && IsWhitespace(s[0]) && !IsWhitespace(s[1])
    ensures Words(s) == 1
  {
    assert s[1..][0] == s[1] && s[1..][1..] == "";
    assert Words(s[1..]) == 1;
  }

  lemma WordsOfOverflow()
    ensures Words(" ") == 0 && Words(" a b c") == 3 && Words("ab cd") == 2 && Words("ab cd a b c") == 5
  {
    assert " "[1..] == "";
    OneLetter(" a");
    OneLetter(" b");
    OneLetter(" c");
    WordsOfSeparated(" b", " c");
    WordsOfSeparated(" a", " b" + " c");
    assert " a" + (" b" + " c") == " a b c";
    var cd := " cd";
    assert cd[1..] == "cd" && cd[1..][1..] == "d" && cd[1..][1..][1..] == "";
    assert "ab"[1..] == "b" && "b"[1..] == "";
    WordsOfSeparated("ab", cd);
    assert "ab" + cd == "ab cd";
    WordsOfSeparated("ab cd", " a b c");
    assert "ab cd" + " a b c" == "ab cd a b c";
  }

  lemma Mismatch(text: string, pattern: string, i: nat, k: nat)
    requires k < |pattern| && i + |pattern| <= |text| && text[i + k] != pattern[k]
    ensures !OccursAt(text, pattern, i)
  {
    assert text[i..i + |pattern|][k] == text[i + k];
  }

  /** Splitting goes on after the first occurrence. */
  lemma SplitsAtFirst(front: string, separator: string, rest: string)
    requires separator != "" && forall i :: 0 <= i < |front| ==> !OccursAt(front + separator + rest, separator, i)
    ensures SplitOn(front + separator + rest, separator) == [front] + SplitOn(rest, separator)
    ensures Contains(front + separator + rest, separator)
  {
    var text := front + separator + rest;
    assert text[|front|..|front| + |separator|] == separator;
    assert OccursAt(text, separator, |front|);
    assert Find(text, separator) == Some(|front|);
    assert text[..|front|] == front && text[|front| + |separator|..] == rest;
  }

  /** The text splits into nothing, a blank, and the rest. */
  lemma PiecesOfOverflow()
    ensures Contains("ab cd ab cd a b c", "ab cd") && PiecesOf("ab cd ab cd a b c", "ab cd") == [" ", " a b c"]
  {
    LastOfOverflow();
    PiecesAroundTwo("ab cd", " ", " a b c");
    TextOfOverflow();
  }

  lemma TextOfOverflow()
    ensures "" + "ab cd" + (" " + "ab cd" + " a b c") == "ab cd ab cd a b c"
  {
  }

  lemma LastOfOverflow()
    ensures SplitOn(" a b c", "ab cd") == [" a b c"] && !OccursAt(" " + "ab cd" + " a b c", "ab cd", 0)
  {
    var separator, last := "ab cd", " a b c";
    Mismatch(last, separator, 0, 0);
    Mismatch(last, separator, 1, 1);
    NotSplit(last, separator);
    Mismatch(" " + separator + last, separator, 0, 0);
  }

  lemma PiecesAroundTwo(separator: string, blank: string, last: string)
    requires separator != "" && |blank| == 1 && last != "" && SplitOn(last, separator) == [last]
    requires !OccursAt(blank + separator + last, separator, 0)
    ensures Contains("" + separator + (blank + separator + last), separator)
    ensures PiecesOf("" + separator + (blank + separator + last), separator) == [blank, last]
  {
    SplitsAtFirst(blank, separator, last);
    SplitsAtFirst("", separator, blank + separator + last);
    ThreeParts("", blank, last);
  }

  lemma NotSplit(text: string, separator: string)
    requires separator != "" && forall i: nat :: i + |separator| <= |text| ==> !OccursAt(text, separator, i)
    ensures SplitOn(text, separator) == [text]
  {
  }

  lemma ThreeParts(a: string, b: string, c: string)
    requires a == "" && b != "" && c != ""
    ensures NonEmpty([a] + ([b] + [c])) == [b, c]
  {
    var parts := [a] + ([b] + [c]);
    assert parts[1..] == [b] + [c] && ([b] + [c])[1..] == [c] && [c][1..] == [];
    assert NonEmpty([c]) == [c] && NonEmpty([b] + [c]) == [b] + [c];
  }

  /** A piece without words stays as overlap, and the separator pushes the next one over the limit. */
  lemma MergeOverflows(t: TextSplitter, blank: string, rest: string, separator: string, chunk: string)
    requires t.length == WordCount && t.chunkSize == 4 && t.chunkOverlap == 1 && separator != ""
    requires Words(blank) == 0 && Words(rest) == 3 && Words(separator) == 2
    requires Trim(blank) == "" && Trim(blank + separator + rest) == chunk != ""
    ensures Merge(t, [blank, rest], separator) == [chunk]
  {
    var pieces := [blank, rest];
    SizeBoundCanFail();
    assert Lengths(t.length, pieces) == [0, 3] && LimitsFor(t, separator) == Limits(2, 4, 1);
    assert pieces[1..] == [rest] && pieces[0..1] == [blank] && pieces[0..2] == pieces;
    assert Join(pieces, separator) == blank + separator + Join([rest], separator);
    assert ChunkOf(pieces[0..1], separator) == [] && ChunkOf(pieces[0..2], separator) == [chunk];
    RenderTwo(pieces, separator, (0, 1), (0, 2));
  }

  lemma RenderTwo(pieces: seq<string>, separator: string, v: (nat, nat), w: (nat, nat))
    requires v.0 < v.1 <= |pieces| && w.0 < w.1 <= |pieces|
    ensures Render(pieces, separator, [v, w])
         == ChunkOf(pieces[v.0..v.1], separator) + ChunkOf(pieces[w.0..w.1], separator)
  {
    RenderFirst(pieces, separator, w, []);
    RenderFirst(pieces, separator, v, [w]);
    assert [w] + [] == [w] && [v] + [w] == [v, w];
    assert ChunkOf(pieces[w.0..w.1], separator) + [] == ChunkOf(pieces[w.0..w.1], separator);
  }

  lemma AssembleTwo(t: TextSplitter, p: string, q: string, separator: string, rest: seq<string>)
    requires ChunkLength(t.length, p) < t.chunkSize && ChunkLength(t.length, q) < t.chunkSize
    ensures Assemble(t, [p, q], [], separator, rest) == Merge(t, [p, q], separator)
  {
    assert [p, q][1..] == [q] && [q][1..] == [];
    assert [] + [p] == [p] && [p] + [q] == [p, q];
    assert Assemble(t, [q], [p], separator, rest) == Assemble(t, [], [p, q], separator, rest);
  }

  /** Counting words, a separator of two words breaks the bound, with or without the empty separator in
    * the list: the blank between its first two occurrences measures zero and stays as overlap, and the
    * chunk has five words of at most four. */
  lemma TwoWordSeparatorOverflows(more: seq<string>)
    ensures Chunks(TextSplitter(["ab cd"] + more, WordCount, 4, 1), "ab cd ab cd a b c") == ["ab cd a b c"]
    ensures Words("ab cd a b c") == 5
  {
    WordsOfOverflow();
    PiecesOfOverflow();
    TrimsOfOverflow();
    var t := TextSplitter(["ab cd"] + more, WordCount, 4, 1);
    AssembleTwo(t, " ", " a b c", "ab cd", t.separators[1..]);
    MergeOverflows(t, " ", " a b c", "ab cd", "ab cd a b c");
    OneTrimmedChunk("ab cd a b c");
  }

  lemma TrimsOfOverflow()
    ensures Trim("ab cd ab cd a b c") == "ab cd ab cd a b c" && Trim("ab cd a b c") == "ab cd a b c"
    ensures Trim(" ") == "" && Trim(" " + "ab cd" + " a b c") == "ab cd a b c"
  {
    TrimOfTrimmed("ab cd ab cd a b c");
    var chunk := "ab cd a b c";
    TrimOfTrimmed(chunk);
    assert " "[1..] == "";
    var joined := " " + "ab cd" + " a b c";
    assert joined[0] == ' ' && joined[1..] == chunk;
  }

  lemma OneTrimmedChunk(chunk: string)
    requires chunk != "" && Trim(chunk) == chunk
    ensures NonBlankTrimmed([chunk]) == [chunk]
  {
    assert [chunk][1..] == [];
  }

  // ---------------------------------------------------------------- without the empty separator

  function Repeat(c: char, n: nat): (s: string)
    ensures |s| == n && forall i :: 0 <= i < n ==> s[i] == c
  {
    seq(n, i => c)
  }

  /** No separator is a run of this character. */
  predicate Foreign(c: char, separators: seq<string>) {
    forall k :: 0 <= k < |separators| ==> HasOther(separators[k], c)
  }

  predicate HasOther(separator: string, c: char) {
    exists j :: 0 <= j < |separator| && separator[j] != c
  }

  lemma {:induction false} LongerThanCount(s: string)
    ensures |s| <= ByteLength(s)
  {
    if s != "" {
      LongerThanCount(s[1..]);
    }
  }

  lemma ForeignTextStays(t: TextSplitter, c: char, n: nat)
    requires t.length == CharacterCount && !IsWhitespace(c) && Foreign(c, t.separators)
    requires n > 0 && n >= t.chunkSize
    ensures Chunks(t, Repeat(c, n)) == [Repeat(c, n)]
  {
    var text := Repeat(c, n);
    LongerThanCount(text);
    TrimOfTrimmed(text);
    if t.separators != [] {
      forall j | 0 <= j < |t.separators| ensures t.separators[j] != "" && !Contains(text, t.separators[j]) {
        NotFound(text, t.separators[j], c);
      }
      SelectFindsNone(text, t.separators);
      assert PiecesOf(text, t.separators[0]) == [text] by {
        assert SplitOn(text, t.separators[0]) == [text];
        assert NonEmpty([text]) == [text] + NonEmpty([text][1..]);
      }
      assert Assemble(t, [text][1..], [], t.separators[0], []) == [];
      assert Split(t, text, t.separators) == [text];
    }
    assert [text][1..] == [];
    assert Split(t, text, t.separators) == [text];
    assert NonBlankTrimmed([text]) == TrimmedUnlessBlank(text) + NonBlankTrimmed([text][1..]);
  }

  lemma NotFound(text: string, separator: string, c: char)
    requires HasOther(separator, c)
    requires forall i :: 0 <= i < |text| ==> text[i] == c
    ensures !Contains(text, separator)
  {
    var j :| 0 <= j < |separator| && separator[j] != c;
    forall i: nat | i <= |text| ensures !OccursAt(text, separator, i) {
      if i + |separator| <= |text| {
        assert text[i..i + |separator|][j] == c;
      }
    }
  }

  // A list leaves out some character, because it has fewer separators than there are characters.

  const CHARACTERS := 0x10_0000

  /** The characters beyond the basic plane, none of which is blank. */
  function Astral(i: nat): char
    requires i < CHARACTERS
  {
    (0x1_0000 + i) as char
  }

  function AstralCharacters(n: nat): set<char>
    requires n <= CHARACTERS
  {
    set i | 0 <= i < n :: Astral(i)
  }

  lemma {:induction false} AstralCount(n: nat)
    requires n <= CHARACTERS
    ensures |AstralCharacters(n)| == n
  {
    if n == 0 {
      assert AstralCharacters(0) == {};
    } else {
      AstralCount(n - 1);
      var last := Astral(n - 1);
      assert AstralCharacters(n) == AstralCharacters(n - 1) + {last};
      assert last !in AstralCharacters(n - 1);
    }
  }

  function FirstCharacters(separators: seq<string>): set<char> {
    set k | 0 <= k < |separators| && separators[k] != "" :: separators[k][0]
  }

  lemma {:induction false} FirstCount(separators: seq<string>)
    ensures |FirstCharacters(separators)| <= |separators|
  {
    if separators == [] {
      assert FirstCharacters([]) == {};
    } else {
      var front, last := separators[..|separators| - 1], separators[|separators| - 1];
      FirstCount(front);
      assert separators == front + [last];
      assert FirstCharacters(separators) == FirstCharacters(front) + if last == "" then {} else {last[0]};
    }
  }

  lemma {:induction false} LargerSetHasOther(few: set<char>, many: set<char>)
    requires |few| < |many|
    ensures exists c :: c in many && c !in few
  {
    if few != {} {
      var x :| x in few;
      LargerSetHasOther(few - {x}, many - {x});
    } else {
      assert many != {};
    }
  }

  lemma ForeignExists(separators: seq<string>) returns (c: char)
    requires |separators| < CHARACTERS && "" !in separators
    ensures !IsWhitespace(c) && Foreign(c, separators)
  {
    var many := AstralCharacters(|separators| + 1);
    FirstCount(separators);
    AstralCount(|separators| + 1);
    LargerSetHasOther(FirstCharacters(separators), many);
    c :| c in many && c !in FirstCharacters(separators);
    forall k | 0 <= k < |separators| ensures HasOther(separators[k], c) {
      assert separators[k] != "" && separators[k][0] in FirstCharacters(separators);
    }
  }

  /** Exactly the separator lists with the empty separator bound every chunk of every text: without it
    * a long run of a character that no separator repeats is returned whole.  Only a list with more
    * separators than there are characters could leave no such character. */
  lemma SizeBoundExactlyWhen(t: TextSplitter)
    requires t.length == CharacterCount && t.chunkSize > 0 && |t.separators| < CHARACTERS
    ensures (forall text: string :: AllFit(t, Chunks(t, text))) <==> "" in t.separators
  {
    if "" in t.separators {
      forall text: string ensures AllFit(t, Chunks(t, text)) {
        ChunksFit(t, text);
      }
    } else {
      var c := ForeignExists(t.separators);
      var text := Repeat(c, t.chunkSize + 1);
      ForeignTextStays(t, c, t.chunkSize + 1);
      LongerThanCount(text);
      assert !Fits(t, Chunks(t, text)[0]);
    }
  }
}
