/** The recursive text splitter: separators from most to least preferred, pieces that are too long are
  * split again with the separators that are left, and the others are merged greedily. */
module Splitter {
  import opened Wrappers
  import opened Strings
  import opened MergeWindows

  /** Lengths are UTF-8 bytes, words, or the counts of an external tokenizer. */
  datatype LengthFunction = CharacterCount | WordCount | TokenCount(count: string -> nat)

  datatype TextSplitter = TextSplitter(separators: seq<string>, length: LengthFunction,
                                       chunkSize: nat, chunkOverlap: nat)

  const ASCII_SEPARATORS: seq<string> := ["\n\n", "\n", ".", ",", ";", ":", " ", "-", ""]

  const UNICODE_SEPARATORS: seq<string> :=
    ["\n\n", "\n", ".", ",", "\U{200b}", "\U{ff0c}", "\U{3001}", "\U{ff0e}", "\U{3002}", ";", ":", " ", "-", ""]

  /** An overlap as large as the chunk itself is refused. */
  function NewSplitter(separators: seq<string>, length: LengthFunction, chunkSize: nat, chunkOverlap: nat)
    : Option<TextSplitter>
  {
    if chunkOverlap >= chunkSize then None
    else Some(TextSplitter(separators, length, chunkSize, chunkOverlap))
  }

  /** The number of maximal runs of non-blank characters. */
  function Words(s: string): nat {
    if s == "" then 0
    else Words(s[1..]) + if !IsWhitespace(s[0]) && (|s| == 1 || IsWhitespace(s[1])) then 1 else 0
  }

  function ChunkLength(f: LengthFunction, s: string): nat {
    match f
    case CharacterCount => ByteLength(s)
    case WordCount => Words(s)
    case TokenCount(count) => count(s)
  }

  function Lengths(f: LengthFunction, pieces: seq<string>): (lens: seq<nat>)
    ensures |lens| == |pieces|
    ensures forall i :: 0 <= i < |pieces| ==> lens[i] == ChunkLength(f, pieces[i])
  {
    if pieces == [] then []
    else Lengths(f, pieces[..|pieces| - 1]) + [ChunkLength(f, pieces[|pieces| - 1])]
  }

  // ---------------------------------------------------------------- merging

  function LimitsFor(t: TextSplitter, separator: string): Limits {
    Limits(if separator == "" then 0 else ChunkLength(t.length, separator), t.chunkSize, t.chunkOverlap)
  }

  /** A window's text, or nothing when it is blank. */
  function MergeChunk(contents: seq<string>, separator: string): Option<string> {
    var text := Trim(Join(contents, separator));
    if text == "" then None else Some(text)
  }

  function Render(pieces: seq<string>, separator: string, ws: seq<(nat, nat)>): seq<string>
    requires Inside(|pieces|, ws)
  {
    if ws == [] then []
    else ChunkOf(pieces[ws[0].0..ws[0].1], separator) + Render(pieces, separator, ws[1..])
  }

  function Merge(t: TextSplitter, pieces: seq<string>, separator: string): seq<string> {
    var lens, l := Lengths(t.length, pieces), LimitsFor(t, separator);
    WindowsAreGreedy(lens, l, 0, 0);
    Render(pieces, separator, Windows(lens, l, 0, 0))
  }

  /** `lens` are the lengths of the pieces and `l` the limits they are merged under. */
  ghost predicate Measured(t: TextSplitter, separator: string, pieces: seq<string>, lens: seq<nat>, l: Limits) {
    && |lens| == |pieces|
    && (forall i :: 0 <= i < |pieces| ==> lens[i] == ChunkLength(t.length, pieces[i]))
    && l == LimitsFor(t, separator)
  }

  /** The dropping loop: the overlap that stays of a closed window.  The running length is always the
    * true length of the contents, so the subtraction never goes below zero. */
  method MakeOverlap(t: TextSplitter, separator: string, splitLength: nat, contents: seq<string>, length: nat,
                     ghost pieces: seq<string>, ghost lens: seq<nat>, ghost l: Limits, ghost a: nat, ghost i: nat)
    returns (overlapContents: seq<string>, overlapLength: nat)
    requires Measured(t, separator, pieces, lens, l) && a < i < |pieces| && splitLength == lens[i]
    requires WindowIs(lens, l.sep, pieces, a, i, contents, length)
    ensures WindowIs(lens, l.sep, pieces, Shrink(lens, l, a, i), i, overlapContents, overlapLength)
  {
    var separatorLen := if separator != "" then ChunkLength(t.length, separator) else 0;
    overlapContents, overlapLength := contents, length;
    ghost var start := a;
    while overlapLength > t.chunkOverlap
          || (overlapLength + splitLength + separatorLen > t.chunkSize && overlapLength > 0)
      invariant a <= start && WindowIs(lens, l.sep, pieces, start, i, overlapContents, overlapLength)
      invariant Shrink(lens, l, start, i) == Shrink(lens, l, a, i)
      decreases |overlapContents|
    {
      if overlapContents == [] {
        break;
      }
      var firstLen := ChunkLength(t.length, overlapContents[0]);
      var separatorLenForFirst := if |overlapContents| > 1 then separatorLen else 0;
      overlapLength := overlapLength - (firstLen + separatorLenForFirst);
      overlapContents := overlapContents[1..];
      start := start + 1;
    }
  }

  /** If the next piece does not fit, the current window is output and only its overlap stays. */
  method MakeRoom(t: TextSplitter, separator: string, splitLength: nat, contents: seq<string>, length: nat,
                  ghost pieces: seq<string>, ghost lens: seq<nat>, ghost l: Limits, ghost a: nat, ghost i: nat)
    returns (output: seq<string>, newContents: seq<string>, newLength: nat)
    requires Measured(t, separator, pieces, lens, l) && a <= i < |pieces| && splitLength == lens[i]
    requires WindowIs(lens, l.sep, pieces, a, i, contents, length)
    ensures WindowIs(lens, l.sep, pieces, NextStart(lens, l, a, i), i, newContents, newLength)
    ensures output == if a < i && Exceeds(lens, l, a, i) then ChunkOf(pieces[a..i], separator) else []
  {
    var separatorLen := if separator != "" then ChunkLength(t.length, separator) else 0;
    var separatorNeeded := if contents != [] then separatorLen else 0;
    output, newContents, newLength := [], contents, length;
    if length + splitLength + separatorNeeded > t.chunkSize && contents != [] {
      output := ChunkOf(contents, separator);
      newContents, newLength := MakeOverlap(t, separator, splitLength, contents, length, pieces, lens, l, a, i);
    }
  }

  /** One iteration of the merging loop: make room for the piece, then add it to the window. */
  method AddSplit(t: TextSplitter, separator: string, s: string, splitLength: nat,
                  mergedChunks: seq<string>, contents: seq<string>, length: nat,
                  ghost pieces: seq<string>, ghost lens: seq<nat>, ghost l: Limits, ghost i: nat)
    returns (newChunks: seq<string>, newContents: seq<string>, newLength: nat)
    requires Measured(t, separator, pieces, lens, l) && i < |pieces| && s == pieces[i] && splitLength == lens[i]
    requires Merged(pieces, separator, lens, l, i, mergedChunks)
    requires WindowIs(lens, l.sep, pieces, StartAt(lens, l, i), i, contents, length)
    ensures Merged(pieces, separator, lens, l, i + 1, newChunks)
    ensures WindowIs(lens, l.sep, pieces, StartAt(lens, l, i + 1), i + 1, newContents, newLength)
  {
    var output, kept, keptLength :=
      MakeRoom(t, separator, splitLength, contents, length, pieces, lens, l, StartAt(lens, l, i), i);
    newChunks := mergedChunks + output;
    newContents := kept + [s];
    var separatorLen := if separator != "" then ChunkLength(t.length, separator) else 0;
    var separatorLenForTotal := if |newContents| > 1 then separatorLen else 0;
    newLength := keptLength + splitLength + separatorLenForTotal;
    MergedExtends(pieces, separator, lens, l, i, mergedChunks, output);
    PieceJoins(lens, l.sep, pieces, StartAt(lens, l, i + 1), i, kept, keptLength, newLength);
  }

  /** The merging loop: its chunks are the greedy windows of the pieces. */
  method MergeSplits(t: TextSplitter, splits: seq<(string, nat)>, separator: string) returns (mergedChunks: seq<string>)
    requires forall i :: 0 <= i < |splits| ==> splits[i].1 == ChunkLength(t.length, splits[i].0)
    ensures mergedChunks == Merge(t, Pieces(splits), separator)
  {
    ghost var pieces := Pieces(splits);
    ghost var lens, l := Lengths(t.length, pieces), LimitsFor(t, separator);
    mergedChunks := [];
    var currentContents: seq<string> := [];
    var currentLength: nat := 0;
    for i := 0 to |splits|
      invariant WindowIs(lens, l.sep, pieces, StartAt(lens, l, i), i, currentContents, currentLength)
      invariant Merged(pieces, separator, lens, l, i, mergedChunks)
    {
      mergedChunks, currentContents, currentLength :=
        AddSplit(t, separator, splits[i].0, splits[i].1, mergedChunks, currentContents, currentLength,
                 pieces, lens, l, i);
    }
    MergeEnds(t, pieces, separator);
    if currentContents != [] {
      mergedChunks := mergedChunks + ChunkOf(currentContents, separator);
    }
  }

  /** The chunks output before piece `i` are the closed windows. */
  ghost predicate Merged(pieces: seq<string>, separator: string, lens: seq<nat>, l: Limits, i: nat,
                         chunks: seq<string>)
  {
    && i <= |lens| == |pieces| && Inside(|pieces|, Closed(lens, l, i))
    && chunks == Render(pieces, separator, Closed(lens, l, i))
  }

  /** The contents and the running length of the window of pieces `a..i`. */
  ghost predicate WindowIs(lens: seq<nat>, sep: nat, pieces: seq<string>, a: nat, i: nat,
                           contents: seq<string>, length: nat)
  {
    a <= i <= |lens| == |pieces| && contents == pieces[a..i] && length == Width(lens, sep, a, i)
  }

  lemma MergedExtends(pieces: seq<string>, separator: string, lens: seq<nat>, l: Limits, i: nat,
                      chunks: seq<string>, output: seq<string>)
    requires i < |pieces| && Merged(pieces, separator, lens, l, i, chunks)
    requires output == if Closes(lens, l, i) then ChunkOf(pieces[StartAt(lens, l, i)..i], separator) else []
    ensures Merged(pieces, separator, lens, l, i + 1, chunks + output)
  {
    if Closes(lens, l, i) {
      RenderAppend(pieces, separator, Closed(lens, l, i), (StartAt(lens, l, i), i));
    } else {
      assert Closed(lens, l, i + 1) == Closed(lens, l, i);
    }
  }

  lemma PieceJoins(lens: seq<nat>, sep: nat, pieces: seq<string>, a: nat, i: nat, contents: seq<string>, length: nat,
                   newLength: nat)
    requires i < |pieces| && WindowIs(lens, sep, pieces, a, i, contents, length)
    requires newLength == length + lens[i] + if contents != [] then sep else 0
    ensures WindowIs(lens, sep, pieces, a, i + 1, contents + [pieces[i]], newLength)
  {
    WidthExtends(lens, sep, a, i);
  }

  lemma MergeEnds(t: TextSplitter, pieces: seq<string>, separator: string)
    ensures Inside(|pieces|, Closed(Lengths(t.length, pieces), LimitsFor(t, separator), |pieces|))
    ensures var lens, l := Lengths(t.length, pieces), LimitsFor(t, separator);
            Merge(t, pieces, separator)
            == Render(pieces, separator, Closed(lens, l, |pieces|))
               + if pieces == [] then [] else ChunkOf(pieces[StartAt(lens, l, |pieces|)..|pieces|], separator)
  {
    var lens, l := Lengths(t.length, pieces), LimitsFor(t, separator);
    var n := |pieces|;
    ClosedThenOpen(lens, l, n);
    ClosedInside(lens, l, n);
    if n > 0 {
      RenderAppend(pieces, separator, Closed(lens, l, n), (StartAt(lens, l, n), n));
    }
  }

  lemma {:induction false} RenderAppend(pieces: seq<string>, separator: string, ws: seq<(nat, nat)>, w: (nat, nat))
    requires w.0 < w.1 <= |pieces| && Inside(|pieces|, ws)
    ensures Inside(|pieces|, ws + [w])
    ensures Render(pieces, separator, ws + [w])
         == Render(pieces, separator, ws) + ChunkOf(pieces[w.0..w.1], separator)
  {
    var last := ChunkOf(pieces[w.0..w.1], separator);
    if ws == [] {
      assert ws + [w] == [w] && [w][1..] == [];
      assert last + [] == last && [] + last == last;
    } else {
      var first := ChunkOf(pieces[ws[0].0..ws[0].1], separator);
      assert (ws + [w])[1..] == ws[1..] + [w];
      RenderAppend(pieces, separator, ws[1..], w);
      assert (first + Render(pieces, separator, ws[1..])) + last == first + (Render(pieces, separator, ws[1..]) + last);
    }
  }

  /** A window's chunk, as zero or one chunks to append. */
  function ChunkOf(contents: seq<string>, separator: string): seq<string> {
    var chunk := MergeChunk(contents, separator);
    if chunk.Some? then [chunk.value] else []
  }

  function Pieces(splits: seq<(string, nat)>): (pieces: seq<string>)
    ensures |pieces| == |splits|
    ensures forall i :: 0 <= i < |splits| ==> pieces[i] == splits[i].0
  {
    if splits == [] then [] else Pieces(splits[..|splits| - 1]) + [splits[|splits| - 1].0]
  }

  lemma RenderFirst(pieces: seq<string>, separator: string, w: (nat, nat), ws: seq<(nat, nat)>)
    requires w.0 < w.1 <= |pieces| && Inside(|pieces|, ws)
    ensures Inside(|pieces|, [w] + ws)
    ensures Render(pieces, separator, [w] + ws)
         == ChunkOf(pieces[w.0..w.1], separator) + Render(pieces, separator, ws)
  {
    assert ([w] + ws)[1..] == ws;
  }

  // ---------------------------------------------------------------- the recursion

  /** The first separator that is empty or occurs in the text, and what is left of the list after it;
    * the first of the list, and nothing, when there is none. */
  function Select(text: string, separators: seq<string>): (r: (string, seq<string>))
    requires separators != []
    ensures |r.1| < |separators|
  {
    if separators[0] == "" then ("", [])
    else if Contains(text, separators[0]) then (separators[0], separators[1..])
    else if |separators| == 1 then (separators[0], [])
    else
      var (separator, rest) := Select(text, separators[1..]);
      if separator != "" && !Contains(text, separator) then (separators[0], []) else (separator, rest)
  }

  function Characters(text: string): seq<string> {
    seq(|text|, i requires 0 <= i < |text| => [text[i]])
  }

  function NonEmpty(parts: seq<string>): seq<string> {
    if parts == [] then []
    else (if parts[0] != "" then [parts[0]] else []) + NonEmpty(parts[1..])
  }

  function PiecesOf(text: string, separator: string): seq<string> {
    NonEmpty(if separator == "" then Characters(text) else SplitOn(text, separator))
  }

  function Split(t: TextSplitter, text: string, separators: seq<string>): seq<string>
    decreases |separators|, 0
  {
    if separators == [] then [text]
    else
      var (separator, rest) := Select(text, separators);
      Assemble(t, PiecesOf(text, separator), [], separator, rest)
  }

  /** The pieces in order: `valid` are the short ones waiting to be merged. */
  function Assemble(t: TextSplitter, pieces: seq<string>, valid: seq<string>, separator: string,
                    rest: seq<string>): seq<string>
    decreases |rest|, |pieces| + 1
  {
    if pieces == [] then MergeIfAny(t, valid, separator)
    else if ChunkLength(t.length, pieces[0]) < t.chunkSize then
      Assemble(t, pieces[1..], valid + [pieces[0]], separator, rest)
    else
      (MergeIfAny(t, valid, separator) + (if rest == [] then [pieces[0]] else Split(t, pieces[0], rest)))
      + Assemble(t, pieces[1..], [], separator, rest)
  }

  function MergeIfAny(t: TextSplitter, valid: seq<string>, separator: string): seq<string> {
    if valid == [] then [] else Merge(t, valid, separator)
  }

  lemma AssembleStep(t: TextSplitter, splits: seq<string>, i: nat, valid: seq<string>, separator: string,
                     rest: seq<string>, done: seq<string>)
    requires i < |splits|
    ensures done + Assemble(t, splits[i..], valid, separator, rest)
         == if ChunkLength(t.length, splits[i]) < t.chunkSize
            then done + Assemble(t, splits[i + 1..], valid + [splits[i]], separator, rest)
            else (done + (MergeIfAny(t, valid, separator)
                          + (if rest == [] then [splits[i]] else Split(t, splits[i], rest))))
                 + Assemble(t, splits[i + 1..], [], separator, rest)
  {
    assert splits[i..][1..] == splits[i + 1..];
  }

  function NonBlankTrimmed(chunks: seq<string>): seq<string> {
    if chunks == [] then []
    else TrimmedUnlessBlank(chunks[0]) + NonBlankTrimmed(chunks[1..])
  }

  function TrimmedUnlessBlank(chunk: string): seq<string> {
    if Trim(chunk) != "" then [Trim(chunk)] else []
  }

  lemma NonBlankTrimmedStep(chunks: seq<string>, i: nat, result: seq<string>)
    requires i < |chunks|
    ensures result + NonBlankTrimmed(chunks[i..])
         == (result + TrimmedUnlessBlank(chunks[i])) + NonBlankTrimmed(chunks[i + 1..])
  {
    assert chunks[i..][1..] == chunks[i + 1..];
  }

  function Chunks(t: TextSplitter, text: string): seq<string> {
    if Trim(text) == "" then [] else NonBlankTrimmed(Split(t, Trim(text), t.separators))
  }

  lemma {:induction false} SelectSkips(text: string, separators: seq<string>, k: nat)
    requires k < |separators|
    requires forall j :: 0 <= j < k ==> separators[j] != "" && !Contains(text, separators[j])
    requires separators[k] == "" || Contains(text, separators[k])
    ensures Select(text, separators) == if separators[k] == "" then ("", []) else (separators[k], separators[k + 1..])
  {
    if k > 0 {
      SelectSkips(text, separators[1..], k - 1);
      assert separators[1..][k - 1 + 1..] == separators[k + 1..];
    }
  }

  lemma {:induction false} SelectFindsNone(text: string, separators: seq<string>)
    requires separators != []
    requires forall j :: 0 <= j < |separators| ==> separators[j] != "" && !Contains(text, separators[j])
    ensures Select(text, separators) == (separators[0], [])
  {
    if |separators| > 1 {
      SelectFindsNone(text, separators[1..]);
    }
  }

  method SelectSeparator(text: string, separators: seq<string>) returns (separator: string, newSeparators: seq<string>)
    requires separators != []
    ensures (separator, newSeparators) == Select(text, separators)
  {
    separator := separators[0];
    newSeparators := [];
    for i := 0 to |separators|
      invariant separator == separators[0] && newSeparators == []
      invariant forall j :: 0 <= j < i ==> separators[j] != "" && !Contains(text, separators[j])
    {
      if separators[i] == "" || Contains(text, separators[i]) {
        SelectSkips(text, separators, i);
        separator := separators[i];
        newSeparators := if separators[i] == "" then [] else separators[i + 1..];
        return;
      }
    }
    SelectFindsNone(text, separators);
  }

  method SplitTextRecursive(t: TextSplitter, text: string, separators: seq<string>) returns (finalChunks: seq<string>)
    ensures finalChunks == Split(t, text, separators)
    decreases |separators|, 0, 0
  {
    if separators == [] {
      return [text];
    }
    var separator, newSeparators := SelectSeparator(text, separators);
    finalChunks := AssembleSplits(t, PiecesOf(text, separator), separator, newSeparators);
  }

  /** The loop over the pieces: short ones wait to be merged, long ones are split again. */
  method AssembleSplits(t: TextSplitter, splits: seq<string>, separator: string, newSeparators: seq<string>)
    returns (finalChunks: seq<string>)
    ensures finalChunks == Assemble(t, splits, [], separator, newSeparators)
    decreases |newSeparators|, 1
  {
    finalChunks := [];
    var validSplits: seq<(string, nat)> := [];
    ghost var whole := Assemble(t, splits, [], separator, newSeparators);
    assert splits[0..] == splits;
    for i := 0 to |splits|
      invariant forall j :: 0 <= j < |validSplits| ==> validSplits[j].1 == ChunkLength(t.length, validSplits[j].0)
      invariant finalChunks + Assemble(t, splits[i..], Pieces(validSplits), separator, newSeparators) == whole
    {
      AssembleStep(t, splits, i, Pieces(validSplits), separator, newSeparators, finalChunks);
      var splitLength := ChunkLength(t.length, splits[i]);
      if splitLength < t.chunkSize {
        PiecesAppend(validSplits, splits[i], splitLength);
        validSplits := validSplits + [(splits[i], splitLength)];
      } else {
        var chunks := FlushSplits(t, validSplits, separator);
        validSplits := [];
        var otherChunks := DivideSplit(t, splits[i], newSeparators);
        finalChunks := finalChunks + (chunks + otherChunks);
      }
    }
    var mergedText := FlushSplits(t, validSplits, separator);
    finalChunks := finalChunks + mergedText;
  }

  /** A piece that is too long: as it is when no separator is left. */
  method DivideSplit(t: TextSplitter, split: string, newSeparators: seq<string>) returns (chunks: seq<string>)
    ensures chunks == if newSeparators == [] then [split] else Split(t, split, newSeparators)
    decreases |newSeparators|, 0, 1
  {
    if newSeparators == [] {
      chunks := [split];
    } else {
      chunks := SplitTextRecursive(t, split, newSeparators);
    }
  }

  /** Merges the waiting short pieces, if there are any. */
  method FlushSplits(t: TextSplitter, validSplits: seq<(string, nat)>, separator: string) returns (chunks: seq<string>)
    requires forall j :: 0 <= j < |validSplits| ==> validSplits[j].1 == ChunkLength(t.length, validSplits[j].0)
    ensures chunks == MergeIfAny(t, Pieces(validSplits), separator)
  {
    chunks := [];
    if validSplits != [] {
      chunks := MergeSplits(t, validSplits, separator);
    }
  }

  lemma PiecesAppend(splits: seq<(string, nat)>, s: string, length: nat)
    ensures Pieces(splits + [(s, length)]) == Pieces(splits) + [s]
  {
    assert (splits + [(s, length)])[..|splits|] == splits;
  }

  method RecursivelyChunkText(t: TextSplitter, text: string) returns (result: seq<string>)
    ensures result == Chunks(t, text)
  {
    var trimmedText := Trim(text);
    if trimmedText == "" {
      return [];
    }
    var chunks := SplitTextRecursive(t, trimmedText, t.separators);
    result := TrimChunks(chunks);
  }

  /** Post-processing: blank chunks are dropped and the others trimmed. */
  method TrimChunks(chunks: seq<string>) returns (result: seq<string>)
    ensures result == NonBlankTrimmed(chunks)
  {
    result := [];
    assert chunks[0..] == chunks;
    for i := 0 to |chunks|
      invariant result + NonBlankTrimmed(chunks[i..]) == NonBlankTrimmed(chunks)
    {
      NonBlankTrimmedStep(chunks, i, result);
      result := result + TrimmedUnlessBlank(chunks[i]);
    }
    assert result + [] == result;
  }
}
