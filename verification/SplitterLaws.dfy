/** What the splitter does in terms of its own settings: which windows it merges, how pieces become chunks,
  * and what lengths, words and splits are. */
module SplitterLaws {
  import opened Wrappers
  import opened Strings
  import opened MergeWindows
  import opened Splitter

  // ---------------------------------------------------------------- the merged windows

  function SeparatorLength(t: TextSplitter, separator: string): nat {
    if separator == "" then 0 else ChunkLength(t.length, separator)
  }

  /** The length of pieces `a..b` with a separator between each two. */
  function RunningLength(t: TextSplitter, pieces: seq<string>, separator: string, a: nat, b: nat): nat
    requires b <= |pieces|
    decreases b
  {
    if b <= a then 0
    else
      RunningLength(t, pieces, separator, a, b - 1) + ChunkLength(t.length, pieces[b - 1])
      + if a + 1 < b then SeparatorLength(t, separator) else 0
  }

  lemma {:induction false} RunningLengthIsWidth(t: TextSplitter, pieces: seq<string>, separator: string, a: nat, b: nat)
    requires b <= |pieces|
    ensures RunningLength(t, pieces, separator, a, b)
         == Width(Lengths(t.length, pieces), SeparatorLength(t, separator), a, b)
    decreases b
  {
    if a < b {
      RunningLengthIsWidth(t, pieces, separator, a, b - 1);
      WidthExtends(Lengths(t.length, pieces), SeparatorLength(t, separator), a, b - 1);
    }
  }

  /** The tail of a closed window that starts at `a` may stay as the overlap in front of piece `i`: it is
    * within the overlap, and leaves room for the piece unless it is empty. */
  predicate TailMayStay(t: TextSplitter, pieces: seq<string>, separator: string, a: nat, i: nat)
    requires i < |pieces|
  {
    var tail := RunningLength(t, pieces, separator, a, i);
    && tail <= t.chunkOverlap
    && (tail == 0 || tail + SeparatorLength(t, separator) + ChunkLength(t.length, pieces[i]) <= t.chunkSize)
  }

  /** The window takes pieces as long as they fit. */
  ghost predicate GrewWithinSize(t: TextSplitter, pieces: seq<string>, separator: string, a: nat, from: nat, end: nat)
    requires end <= |pieces|
  {
    forall b :: from < b <= end && a + 1 < b ==> RunningLength(t, pieces, separator, a, b) <= t.chunkSize
  }

  /** A window closed because its next piece did not fit, and the one after it: that one starts with the
    * longest tail that may stay, or with the piece, and takes pieces as long as they fit. */
  ghost predicate FollowsIn(t: TextSplitter, pieces: seq<string>, separator: string, w: (nat, nat), w': (nat, nat)) {
    && w.0 < w.1 < w'.1 <= |pieces| && w.0 <= w'.0 <= w.1
    && RunningLength(t, pieces, separator, w.0, w.1 + 1) > t.chunkSize
    && (w'.0 < w.1 ==> TailMayStay(t, pieces, separator, w'.0, w.1))
    && (forall a :: w.0 <= a < w'.0 ==> !TailMayStay(t, pieces, separator, a, w.1))
    && GrewWithinSize(t, pieces, separator, w'.0, w.1 + 1, w'.1)
  }

  /** The windows of these pieces under the splitter's own settings. */
  ghost predicate GreedyWindows(t: TextSplitter, pieces: seq<string>, separator: string, ws: seq<(nat, nat)>) {
    && (ws == [] <==> pieces == [])
    && Inside(|pieces|, ws)
    && (ws != [] ==> ws[0].0 == 0 && ws[|ws| - 1].1 == |pieces|
                     && GrewWithinSize(t, pieces, separator, 0, 0, ws[0].1))
    && forall k :: 0 <= k < |ws| - 1 ==> FollowsIn(t, pieces, separator, ws[k], ws[k + 1])
  }

  /** The text of a window: its pieces joined and trimmed. */
  function WindowText(pieces: seq<string>, separator: string, w: (nat, nat)): string
    requires w.0 < w.1 <= |pieces|
  {
    Trim(Join(pieces[w.0..w.1], separator))
  }

  function WindowTexts(pieces: seq<string>, separator: string, ws: seq<(nat, nat)>): (texts: seq<string>)
    requires Inside(|pieces|, ws)
    ensures |texts| == |ws|
  {
    seq(|ws|, k requires 0 <= k < |ws| => WindowText(pieces, separator, ws[k]))
  }

  lemma {:induction false} RenderIsTexts(pieces: seq<string>, separator: string, ws: seq<(nat, nat)>)
    requires Inside(|pieces|, ws)
    ensures Render(pieces, separator, ws) == NonEmpty(WindowTexts(pieces, separator, ws))
  {
    if ws != [] {
      RenderIsTexts(pieces, separator, ws[1..]);
      assert WindowTexts(pieces, separator, ws)[1..] == WindowTexts(pieces, separator, ws[1..]);
    }
  }

  /** While a window grows, each piece it takes fits. */
  lemma {:induction false} GrowsWithinSize(lens: seq<nat>, l: Limits, a: nat, i: nat)
    requires a <= i <= |lens| && (a < i || i == 0) && |lens| > 0
    ensures Windows(lens, l, a, i) != []
    ensures var w := Windows(lens, l, a, i)[0];
            w.0 == a && i <= w.1 <= |lens|
            && forall b :: i < b <= w.1 && a + 1 < b ==> Width(lens, l.sep, a, b) <= l.size
    decreases |lens| - i
  {
    if i < |lens| && !(a < i && Exceeds(lens, l, a, i)) {
      GrowsWithinSize(lens, l, a, i + 1);
      WidthExtends(lens, l.sep, a, i);
    }
  }

  lemma {:induction false} NextGrowsWithinSize(lens: seq<nat>, l: Limits, a: nat, i: nat, k: nat)
    requires a <= i <= |lens| && (a < i || i == 0) && k + 1 < |Windows(lens, l, a, i)|
    ensures var w, w' := Windows(lens, l, a, i)[k], Windows(lens, l, a, i)[k + 1];
            w'.1 <= |lens| && forall b :: w.1 + 1 < b <= w'.1 && w'.0 + 1 < b ==> Width(lens, l.sep, w'.0, b) <= l.size
    decreases |lens| - i
  {
    if a < i && Exceeds(lens, l, a, i) {
      var next := Shrink(lens, l, a, i);
      if k == 0 {
        GrowsWithinSize(lens, l, next, i + 1);
      } else {
        NextGrowsWithinSize(lens, l, next, i + 1, k - 1);
      }
    } else {
      NextGrowsWithinSize(lens, l, a, i + 1, k);
    }
  }

  /** Merging renders the greedy windows of the pieces, under the splitter's own length function, chunk size
    * and overlap, and drops the blank ones. */
  lemma MergeIsGreedy(t: TextSplitter, pieces: seq<string>, separator: string) returns (ws: seq<(nat, nat)>)
    ensures GreedyWindows(t, pieces, separator, ws)
    ensures Merge(t, pieces, separator) == NonEmpty(WindowTexts(pieces, separator, ws))
  {
    var lens, l := Lengths(t.length, pieces), LimitsFor(t, separator);
    ws := Windows(lens, l, 0, 0);
    WindowsAreGreedy(lens, l, 0, 0);
    WindowsCoverAll(lens, l, 0, 0);
    RenderIsTexts(pieces, separator, ws);
    if pieces != [] {
      GrowsWithinSize(lens, l, 0, 0);
      forall b | 1 < b <= ws[0].1 ensures RunningLength(t, pieces, separator, 0, b) <= t.chunkSize {
        RunningLengthIsWidth(t, pieces, separator, 0, b);
      }
    }
    forall k | 0 <= k < |ws| - 1 ensures FollowsIn(t, pieces, separator, ws[k], ws[k + 1]) {
      NextGrowsWithinSize(lens, l, 0, 0, k);
      FollowsInTerms(t, pieces, separator, ws[k], ws[k + 1]);
    }
  }

  lemma FollowsInTerms(t: TextSplitter, pieces: seq<string>, separator: string, w: (nat, nat), w': (nat, nat))
    requires var lens, l := Lengths(t.length, pieces), LimitsFor(t, separator);
             && Follows(lens, l, w, w')
             && forall b :: w.1 + 1 < b <= w'.1 && w'.0 + 1 < b ==> Width(lens, l.sep, w'.0, b) <= l.size
    ensures FollowsIn(t, pieces, separator, w, w')
  {
    RunningLengthIsWidth(t, pieces, separator, w.0, w.1 + 1);
    forall a | w.0 <= a <= w'.0 && a < w.1
      ensures TailMayStay(t, pieces, separator, a, w.1)
          <==> !MustDrop(Lengths(t.length, pieces), LimitsFor(t, separator), a, w.1)
    {
      RunningLengthIsWidth(t, pieces, separator, a, w.1);
    }
    forall b | w.1 + 1 < b <= w'.1 && w'.0 + 1 < b
      ensures RunningLength(t, pieces, separator, w'.0, b) <= t.chunkSize
    {
      RunningLengthIsWidth(t, pieces, separator, w'.0, b);
    }
  }

  // ---------------------------------------------------------------- pieces to chunks

  predicate IsShort(t: TextSplitter, piece: string) { ChunkLength(t.length, piece) < t.chunkSize }

  ghost predicate AllShort(t: TextSplitter, pieces: seq<string>) {
    forall k :: 0 <= k < |pieces| ==> IsShort(t, pieces[k])
  }

  /** Pieces that are all short become the merged windows of all of them. */
  lemma {:induction false} ShortPiecesAreMerged(t: TextSplitter, pieces: seq<string>, valid: seq<string>,
                                                separator: string, rest: seq<string>)
    requires AllShort(t, pieces)
    ensures Assemble(t, pieces, valid, separator, rest) == MergeIfAny(t, valid + pieces, separator)
    decreases |pieces|
  {
    if pieces == [] {
      assert valid + pieces == valid;
    } else {
      assert forall k :: 0 <= k < |pieces[1..]| ==> pieces[1..][k] == pieces[k + 1];
      assert IsShort(t, pieces[0]);
      ShortPiecesAreMerged(t, pieces[1..], valid + [pieces[0]], separator, rest);
      assert (valid + [pieces[0]]) + pieces[1..] == valid + pieces;
    }
  }

  /** A piece that is not short ends the run of short ones before it: those are merged, the piece is split by
    * the separators that are left, or stays when none is, and what follows starts afresh. */
  lemma {:induction false} LongPieceIsDivided(t: TextSplitter, short: seq<string>, valid: seq<string>, long: string,
                                              more: seq<string>, separator: string, rest: seq<string>)
    requires AllShort(t, short) && t.chunkSize <= ChunkLength(t.length, long)
    ensures Assemble(t, short + [long] + more, valid, separator, rest)
         == MergeIfAny(t, valid + short, separator)
            + (if rest == [] then [long] else Split(t, long, rest))
            + Assemble(t, more, [], separator, rest)
    decreases |short|
  {
    var pieces := short + [long] + more;
    if short == [] {
      assert pieces[1..] == more && valid + short == valid;
    } else {
      assert pieces[1..] == short[1..] + [long] + more;
      assert forall k :: 0 <= k < |short[1..]| ==> short[1..][k] == short[k + 1];
      assert IsShort(t, short[0]);
      LongPieceIsDivided(t, short[1..], valid + [short[0]], long, more, separator, rest);
      assert (valid + [short[0]]) + short[1..] == valid + short;
    }
  }

  /** The separator at `k` is the one that is used when it is the first that is empty or occurs. */
  predicate IsChosen(text: string, separators: seq<string>, k: nat) {
    && k < |separators| && (separators[k] == "" || Contains(text, separators[k]))
    && forall j :: 0 <= j < k ==> separators[j] != "" && !Contains(text, separators[j])
  }

  /** One level of the recursion: the pieces of the first separator that works, and the separators after it
    * for those that are too long; the first of the list when none works; the text when there is none. */
  lemma SplitUsesFirstSeparator(t: TextSplitter, text: string, separators: seq<string>, k: nat)
    ensures IsChosen(text, separators, k) ==>
              Split(t, text, separators)
              == Assemble(t,
                          NonEmpty(if separators[k] == "" then Characters(text) else SplitOn(text, separators[k])),
                          [], separators[k], if separators[k] == "" then [] else separators[k + 1..])
    ensures separators != []
            && (forall j :: 0 <= j < |separators| ==> separators[j] != "" && !Contains(text, separators[j])) ==>
              Split(t, text, separators) == Assemble(t, NonEmpty([text]), [], separators[0], [])
    ensures separators == [] ==> Split(t, text, separators) == [text]
  {
    if IsChosen(text, separators, k) {
      SelectSkips(text, separators, k);
    } else if separators != []
              && forall j :: 0 <= j < |separators| ==> separators[j] != "" && !Contains(text, separators[j]) {
      SelectFindsNone(text, separators);
    }
  }

  lemma {:induction false} NonBlankTrimmedIs(chunks: seq<string>)
    ensures NonBlankTrimmed(chunks) == NonEmpty(seq(|chunks|, k requires 0 <= k < |chunks| => Trim(chunks[k])))
  {
    if chunks != [] {
      NonBlankTrimmedIs(chunks[1..]);
      var trimmed := seq(|chunks|, k requires 0 <= k < |chunks| => Trim(chunks[k]));
      assert trimmed[1..]
          == seq(|chunks[1..]|, k requires 0 <= k < |chunks[1..]| => Trim(chunks[1..][k]));
    }
  }

  /** The chunks of a text are those of the trimmed text, each trimmed, without the blank ones. */
  lemma ChunksAreTrimmed(t: TextSplitter, text: string)
    ensures Trim(text) == "" ==> Chunks(t, text) == []
    ensures Trim(text) != "" ==>
              var parts := Split(t, Trim(text), t.separators);
              Chunks(t, text) == NonEmpty(seq(|parts|, k requires 0 <= k < |parts| => Trim(parts[k])))
  {
    NonBlankTrimmedIs(Split(t, Trim(text), t.separators));
  }

  /** An overlap below the chunk size is what construction asks for, and the settings are kept. */
  lemma ConstructionKeepsSettings(separators: seq<string>, length: LengthFunction, chunkSize: nat, chunkOverlap: nat)
    ensures NewSplitter(separators, length, chunkSize, chunkOverlap).Some? <==> chunkOverlap < chunkSize
    ensures chunkOverlap < chunkSize ==>
              NewSplitter(separators, length, chunkSize, chunkOverlap).value
              == TextSplitter(separators, length, chunkSize, chunkOverlap)
  {
  }

  // ---------------------------------------------------------------- filtering and splitting

  /** Dropping the empty parts keeps the others in order and nothing else. */
  lemma {:induction false} NonEmptyFilters(parts: seq<string>)
    ensures forall k :: 0 <= k < |NonEmpty(parts)| ==> NonEmpty(parts)[k] != ""
    ensures Flatten(NonEmpty(parts)) == Flatten(parts)
    ensures (forall k :: 0 <= k < |parts| ==> parts[k] != "") ==> NonEmpty(parts) == parts
  {
    if parts != [] {
      NonEmptyFilters(parts[1..]);
      assert parts == [parts[0]] + parts[1..];
      if parts[0] != "" {
        assert NonEmpty(parts)[1..] == NonEmpty(parts[1..]);
      } else {
        assert NonEmpty(parts) == NonEmpty(parts[1..]);
      }
    }
  }

  /** Splitting cuts at the leftmost occurrences: no part holds the separator, each part but the last is
    * followed by it with no earlier occurrence, and joining the parts gives the text. */
  lemma {:induction false} SplitCutsLeftmost(text: string, separator: string)
    requires separator != ""
    ensures var parts := SplitOn(text, separator);
            && parts != [] && Join(parts, separator) == text
            && !Contains(parts[|parts| - 1], separator)
            && forall k :: 0 <= k < |parts| - 1 ==> Find(parts[k] + separator, separator) == Some(|parts[k]|)
    decreases |text|
  {
    JoinOfSplit(text, separator);
    var parts, found := SplitOn(text, separator), Find(text, separator);
    if found.Some? {
      var rest := text[found.value + |separator|..];
      SplitCutsLeftmost(rest, separator);
      assert parts[1..] == SplitOn(rest, separator);
      FirstCut(text, separator, found.value);
    }
  }

  lemma FirstCut(text: string, separator: string, at: nat)
    requires Find(text, separator) == Some(at)
    ensures Find(text[..at] + separator, separator) == Some(at)
  {
    var part := text[..at] + separator;
    assert part == text[..at + |separator|];
    assert OccursAt(part, separator, at);
    forall i: nat | i < at ensures !OccursAt(part, separator, i) {
      if i + |separator| <= |part| {
        assert part[i..i + |separator|] == text[i..i + |separator|];
        assert !OccursAt(text, separator, i);
      }
    }
  }

  // ---------------------------------------------------------------- lengths

  /** Bits of a code point that UTF-8 can carry in this many bytes. */
  function PayloadLimit(bytes: nat): nat {
    match bytes
    case 0 => 0
    case 1 => 0x80
    case 2 => 0x800
    case 3 => 0x1_0000
    case _ => 0x20_0000
  }

  /** A character takes the fewest bytes that can carry it, and a text the sum over its characters. */
  lemma BytesAreFewest(c: char, s: string)
    ensures 1 <= Utf8Length(c) <= 4
    ensures PayloadLimit(Utf8Length(c) - 1) <= c as int < PayloadLimit(Utf8Length(c)) || Utf8Length(c) == 1
    ensures c as int < PayloadLimit(Utf8Length(c))
    ensures ByteLength([c] + s) == Utf8Length(c) + ByteLength(s) && ByteLength("") == 0
  {
    assert ([c] + s)[1..] == s;
  }

  /** The three ways of counting: bytes, words, or whatever the tokenizer says; separators included. */
  lemma LengthsAreCounted(s: string, count: string -> nat)
    ensures ChunkLength(CharacterCount, s) == ByteLength(s) && ChunkLength(WordCount, s) == Words(s)
    ensures ChunkLength(TokenCount(count), s) == count(s)
  {
  }

  predicate AllBlank(s: string) { forall i :: 0 <= i < |s| ==> IsWhitespace(s[i]) }

  predicate NoBlank(s: string) { forall i :: 0 <= i < |s| ==> !IsWhitespace(s[i]) }

  /** Words are counted by blanks: none in a blank text, one in a text without blanks, and those of both
    * sides around a blank stretch. */
  lemma {:induction false} WordsAreRuns(word: string, blank: string, more: string)
    requires word != "" && NoBlank(word) && AllBlank(blank)
    ensures Words(blank) == 0 && Words(word) == 1
    ensures blank != "" ==> Words(word + blank + more) == 1 + Words(more)
    ensures Words(blank + more) == Words(more)
  {
    LeadingBlanks(blank, more);
    LeadingBlanks(blank, "");
    assert blank + "" == blank;
    OneWord(word, "");
    assert word + "" == word;
    if blank != "" {
      assert word + blank + more == word + (blank + more);
      OneWord(word, blank + more);
    }
  }

  lemma {:induction false} LeadingBlanks(blank: string, more: string)
    requires AllBlank(blank)
    ensures Words(blank + more) == Words(more)
  {
    if blank == "" {
      assert blank + more == more;
    } else {
      assert (blank + more)[1..] == blank[1..] + more;
      LeadingBlanks(blank[1..], more);
    }
  }

  lemma {:induction false} OneWord(word: string, more: string)
    requires word != "" && NoBlank(word) && (more == "" || IsWhitespace(more[0]))
    ensures Words(word + more) == 1 + Words(more)
  {
    assert (word + more)[1..] == word[1..] + more;
    if |word| == 1 {
      assert word[1..] == "" && word[1..] + more == more;
    } else {
      OneWord(word[1..], more);
      assert (word + more)[1] == word[1];
    }
  }
}
