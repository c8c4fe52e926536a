/** The generic transcript format: header lines "speaker (timestamp)", each followed by its content.
  *
  * A single scan over the text finds the entries, and a second pass looks one entry ahead for end times.
  * Printing and parsing are proved to undo each other. */
module Transcript {
  import opened Wrappers
  import opened Strings

  datatype RawEntry = RawEntry(speaker: string, timestamp: string, content: string)

  datatype Entry = Entry(index: nat, speaker: Option<string>, startTime: real, endTime: Option<real>,
                         duration: Option<real>, content: string)

  // ---------------------------------------------------------------- lines and headers

  /** The first position of a character, or the length of the text. */
  function FirstIndex(s: string, c: char): (r: nat)
    ensures r <= |s| && (r < |s| ==> s[r] == c) && forall i :: 0 <= i < r ==> s[i] != c
  {
    if s == "" || s[0] == c then 0 else 1 + FirstIndex(s[1..], c)
  }

  function LastIndex(s: string, c: char): (r: Option<nat>)
    ensures r.Some? ==> r.value < |s| && s[r.value] == c && forall i :: r.value < i < |s| ==> s[i] != c
    ensures r.None? ==> c !in s
  {
    if s == "" then None
    else if s[|s| - 1] == c then Some(|s| - 1)
    else LastIndex(s[..|s| - 1], c)
  }

  predicate IsDigit(c: char) { '0' <= c <= '9' }

  /** The last '(' of the line is followed by a digit. */
  predicate IsHeaderLine(line: string) {
    var open := LastIndex(line, '(');
    open.Some? && open.value + 1 < |line| && IsDigit(line[open.value + 1])
  }

  /** Speaker and timestamp: what is before the last '(', and between it and the last ')'. */
  function ParseHeader(line: string): Result<(string, string)> {
    var open, close := LastIndex(line, '('), LastIndex(line, ')');
    if open.None? || close.None? then Err("No timestamp found in header: " + line)
    else if open.value < close.value then
      Ok((Trim(line[..open.value]), Trim(line[open.value + 1..close.value])))
    else Err("Invalid header format: " + line)
  }

  predicate IsSkipped(c: char) { c == '\n' || c == '\r' || c == ' ' }

  function SkipBlank(s: string): (r: string)
    ensures |r| <= |s|
  {
    if s != "" && IsSkipped(s[0]) then SkipBlank(s[1..]) else s
  }

  function FirstLine(s: string): string { s[..FirstIndex(s, '\n')] }

  function AfterLine(s: string): (r: string)
    ensures s != "" ==> |r| < |s|
  {
    var end := FirstIndex(s, '\n');
    if end < |s| then s[end + 1..] else ""
  }

  /** The lines up to the next header line, and what follows.  A last line without a newline is content
    * whatever it looks like. */
  function TakeContent(s: string): (r: (string, string))
    ensures s == r.0 + r.1
    decreases |s|
  {
    var end := FirstIndex(s, '\n');
    if end == |s| then (s, "")
    else if IsHeaderLine(s[..end]) then ("", s)
    else
      var (content, rest) := TakeContent(s[end + 1..]);
      (s[..end + 1] + content, rest)
  }

  /** The entries of a text, or the error of the first header that is not one. */
  function Scan(s: string): Result<seq<RawEntry>>
    decreases |s|
  {
    var text := SkipBlank(s);
    if text == "" then Ok([])
    else
      var header := ParseHeader(FirstLine(text));
      if header.Err? then Err(header.error)
      else
        var (content, rest) := TakeContent(AfterLine(text));
        Prepend([RawEntry(header.value.0, header.value.1, TrimEnd(content))], Scan(rest))
  }

  function Prepend(front: seq<RawEntry>, rest: Result<seq<RawEntry>>): Result<seq<RawEntry>> {
    if rest.Err? then rest else Ok(front + rest.value)
  }

  // ---------------------------------------------------------------- times

  /** Seconds, minutes and seconds, or hours, minutes and seconds; `number` reads one part. */
  function ParseTimestamp(number: string -> Option<real>, timestamp: string): Result<real> {
    var trimmed := Trim(timestamp);
    var parts := SplitOn(trimmed, ":");
    if |parts| == 1 then Number(number, trimmed, "Invalid generic timestamp: " + trimmed)
    else if |parts| == 2 then
      Combine(Number(number, parts[0], "Invalid minutes in generic timestamp: " + trimmed),
              Number(number, parts[1], "Invalid seconds in generic timestamp: " + trimmed))
    else if |parts| == 3 then
      Combine(Combine(Number(number, parts[0], "Invalid hours in generic timestamp: " + trimmed),
                      Number(number, parts[1], "Invalid minutes in generic timestamp: " + trimmed)),
              Number(number, parts[2], "Invalid seconds in generic timestamp: " + trimmed))
    else Err("Invalid generic timestamp format: " + trimmed)
  }

  function Number(number: string -> Option<real>, part: string, problem: string): Result<real> {
    if number(part).Some? then Ok(number(part).value) else Err(problem)
  }

  /** Sixty of the larger unit and the smaller one. */
  function Combine(larger: Result<real>, smaller: Result<real>): Result<real> {
    if larger.Err? then larger else if smaller.Err? then smaller
    else Ok(larger.value * 60.0 + smaller.value)
  }

  function ComputeDuration(start: real, end: Option<real>): Option<real> {
    if end.Some? then Some(end.value - start) else None
  }

  /** The first timestamp that cannot be read. */
  function FirstBadTime(number: string -> Option<real>, raws: seq<RawEntry>): Option<string> {
    if raws == [] then None
    else
      var time := ParseTimestamp(number, raws[0].timestamp);
      if time.Err? then Some(time.error) else FirstBadTime(number, raws[1..])
  }

  predicate TimesAreValid(number: string -> Option<real>, raws: seq<RawEntry>) {
    forall k :: 0 <= k < |raws| ==> ParseTimestamp(number, raws[k].timestamp).Ok?
  }

  lemma {:induction false} NoBadTimeExactlyWhen(number: string -> Option<real>, raws: seq<RawEntry>)
    ensures FirstBadTime(number, raws).None? <==> TimesAreValid(number, raws)
  {
    if raws != [] {
      NoBadTimeExactlyWhen(number, raws[1..]);
      assert raws == [raws[0]] + raws[1..];
      assert forall k :: 0 <= k < |raws[1..]| ==> raws[1..][k] == raws[k + 1];
    }
  }

  lemma TimesOfTail(number: string -> Option<real>, raws: seq<RawEntry>)
    requires raws != [] && TimesAreValid(number, raws)
    ensures TimesAreValid(number, raws[1..])
  {
    assert forall k :: 0 <= k < |raws[1..]| ==> raws[1..][k] == raws[k + 1];
  }

  lemma {:induction false} BadTimeIsFirst(number: string -> Option<real>, raws: seq<RawEntry>, i: nat)
    requires i < |raws| && TimesAreValid(number, raws[..i])
    requires ParseTimestamp(number, raws[i].timestamp).Err?
    ensures FirstBadTime(number, raws) == Some(ParseTimestamp(number, raws[i].timestamp).error)
  {
    if i > 0 {
      assert raws[..i][0] == raws[0] && raws[1..][..i - 1] == raws[..i][1..];
      TimesOfTail(number, raws[..i]);
      BadTimeIsFirst(number, raws[1..], i - 1);
    }
  }

  function StartTime(number: string -> Option<real>, raws: seq<RawEntry>, i: nat): real
    requires i < |raws| && TimesAreValid(number, raws)
  {
    ParseTimestamp(number, raws[i].timestamp).value
  }

  /** Entry `i`, which ends when the next one starts. */
  function EntryAt(number: string -> Option<real>, raws: seq<RawEntry>, i: nat): Entry
    requires i < |raws| && TimesAreValid(number, raws)
  {
    WithTimes(raws[i], i, StartTime(number, raws, i),
              if i + 1 < |raws| then Some(StartTime(number, raws, i + 1)) else None)
  }

  function Unify(number: string -> Option<real>, raws: seq<RawEntry>): Result<seq<Entry>> {
    var bad := FirstBadTime(number, raws);
    if bad.Some? then Err(bad.value)
    else
      NoBadTimeExactlyWhen(number, raws);
      Ok(seq(|raws|, i requires 0 <= i < |raws| => EntryAt(number, raws, i)))
  }

  function ParseText(number: string -> Option<real>, s: string): Result<seq<Entry>> {
    var raws := Scan(s);
    if raws.Err? then Err(raws.error) else Unify(number, raws.value)
  }

  // ---------------------------------------------------------------- the parser

  /** What is left of the input at a position, which may be one past the end. */
  function Rest(input: string, pos: nat): string {
    if pos <= |input| then input[pos..] else ""
  }

  method SkipLeading(input: string, start: nat) returns (pos: nat)
    requires start <= |input|
    ensures start <= pos <= |input| && input[pos..] == SkipBlank(input[start..])
  {
    pos := start;
    while pos < |input| && IsSkipped(input[pos])
      invariant start <= pos <= |input| && SkipBlank(input[pos..]) == SkipBlank(input[start..])
    {
      assert input[pos..][1..] == input[pos + 1..];
      pos := pos + 1;
    }
    assert pos < |input| ==> input[pos..][0] == input[pos];
  }

  /** The content loop: where the content that starts here ends. */
  method FindContentEnd(input: string, start: nat) returns (pos: nat)
    requires start <= |input|
    ensures start <= pos <= |input| && TakeContent(input[start..]) == (input[start..pos], input[pos..])
  {
    pos := start;
    var done := false;
    while pos < |input| && !done
      invariant start <= pos <= |input|
      invariant TakeContent(input[pos..]).1 == TakeContent(input[start..]).1
      invariant done ==> TakeContent(input[pos..]).1 == input[pos..]
      decreases |input| - pos, !done
    {
      pos, done := NextLine(input, pos);
    }
    ContentIs(input, start, pos);
  }

  /** One line of the content loop: past the line, or done at a header line. */
  method NextLine(input: string, pos: nat) returns (newPos: nat, done: bool)
    requires pos < |input|
    ensures if done then newPos == pos && TakeContent(input[pos..]).1 == input[pos..] else pos < newPos <= |input|
    ensures TakeContent(input[newPos..]).1 == TakeContent(input[pos..]).1
  {
    var lineEnd := pos + FirstIndex(input[pos..], '\n');
    LineAt(input, pos, lineEnd);
    if lineEnd == |input| {
      newPos, done := |input|, false;
    } else if IsHeaderLine(input[pos..lineEnd]) {
      newPos, done := pos, true;
    } else {
      newPos, done := lineEnd + 1, false;
    }
  }

  lemma LineAt(input: string, pos: nat, lineEnd: nat)
    requires pos < |input| && lineEnd == pos + FirstIndex(input[pos..], '\n')
    ensures lineEnd == |input| ==> TakeContent(input[pos..]).1 == ""
    ensures lineEnd < |input| ==>
              TakeContent(input[pos..]).1
              == if IsHeaderLine(input[pos..lineEnd]) then input[pos..] else TakeContent(input[lineEnd + 1..]).1
  {
    var rest, k := input[pos..], lineEnd - pos;
    if k < |rest| {
      assert rest[..k] == input[pos..lineEnd] && rest[k + 1..] == input[lineEnd + 1..];
    }
  }

  lemma ContentIs(input: string, start: nat, pos: nat)
    requires start <= pos <= |input| && TakeContent(input[start..]).1 == input[pos..]
    ensures TakeContent(input[start..]) == (input[start..pos], input[pos..])
  {
    SplitAt(input, start, pos, TakeContent(input[start..]).0);
  }

  lemma SplitAt(input: string, start: nat, pos: nat, front: string)
    requires start <= pos <= |input| && input[start..] == front + input[pos..]
    ensures front == input[start..pos]
  {
    assert |front| == pos - start;
    assert front == (front + input[pos..])[..|front|];
  }

  /** The content after a header, which may end the input without a newline. */
  method AccumulateContent(input: string, start: nat) returns (content: string, pos: nat)
    requires start <= |input| + 1
    ensures start <= pos <= |input| + 1 && Rest(input, pos) == TakeContent(Rest(input, start)).1
    ensures content == TrimEnd(TakeContent(Rest(input, start)).0)
  {
    pos := start;
    if start <= |input| {
      pos := FindContentEnd(input, start);
    }
    var contentEnd := if pos <= |input| then pos else |input|;
    content := if start <= contentEnd then TrimEnd(input[start..contentEnd]) else "";
  }

  method ReadHeader(input: string, start: nat) returns (header: Result<(string, string)>, pos: nat)
    requires start < |input|
    ensures start < pos <= |input| + 1 && Rest(input, pos) == AfterLine(input[start..])
    ensures header == ParseHeader(FirstLine(input[start..]))
  {
    var headerEnd := start + FirstIndex(input[start..], '\n');
    assert input[start..headerEnd] == input[start..][..headerEnd - start];
    header := ParseHeader(input[start..headerEnd]);
    pos := headerEnd + 1;
  }

  /** The header at a position that is not to be skipped, and its content. */
  method ExtractEntry(input: string, start: nat) returns (entry: Result<RawEntry>, pos: nat)
    requires start < |input| && !IsSkipped(input[start])
    ensures start < pos <= |input| + 1
    ensures Scan(input[start..])
         == if entry.Err? then Err(entry.error) else Prepend([entry.value], Scan(Rest(input, pos)))
  {
    assert input[start..][0] == input[start];
    ScanOne(input[start..]);
    var header: Result<(string, string)>;
    header, pos := ReadHeader(input, start);
    if header.Err? {
      entry := Err(header.error);
    } else {
      var content: string;
      content, pos := AccumulateContent(input, pos);
      entry := Ok(RawEntry(header.value.0, header.value.1, content));
    }
  }

  lemma ScanOne(text: string)
    requires text != "" && !IsSkipped(text[0])
    ensures var header, body := ParseHeader(FirstLine(text)), TakeContent(AfterLine(text));
            Scan(text) == if header.Err? then Err(header.error)
                          else Prepend([RawEntry(header.value.0, header.value.1, TrimEnd(body.0))], Scan(body.1))
  {
  }

  lemma ScanSkips(s: string)
    ensures Scan(SkipBlank(s)) == Scan(s)
  {
    SkipTwice(s);
  }

  lemma {:induction false} SkipTwice(s: string)
    ensures SkipBlank(SkipBlank(s)) == SkipBlank(s) && (SkipBlank(s) != "" ==> !IsSkipped(SkipBlank(s)[0]))
  {
    if s != "" && IsSkipped(s[0]) {
      SkipTwice(s[1..]);
    }
  }

  /** The first pass. */
  method ExtractEntries(input: string) returns (r: Result<seq<RawEntry>>)
    ensures r == Scan(input)
  {
    var pos := 0;
    var raws: seq<RawEntry> := [];
    PrependNothing(raws, Scan(input));
    assert input[0..] == input;
    while pos < |input|
      invariant 0 <= pos <= |input| + 1
      invariant Prepend(raws, Scan(Rest(input, pos))) == Scan(input)
      decreases |input| + 1 - pos
    {
      ScanSkips(input[pos..]);
      SkipTwice(input[pos..]);
      pos := SkipLeading(input, pos);
      if pos >= |input| {
        break;
      }
      assert input[pos..][0] == input[pos];
      var entry: Result<RawEntry>;
      entry, pos := ExtractEntry(input, pos);
      if entry.Err? {
        return Err(entry.error);
      }
      PrependTwice(raws, entry.value, Scan(Rest(input, pos)));
      raws := raws + [entry.value];
    }
    PrependNothing(raws, Scan(input));
    r := Ok(raws);
  }

  lemma PrependNothing(raws: seq<RawEntry>, rest: Result<seq<RawEntry>>)
    ensures Prepend([], rest) == rest && Prepend(raws, Scan("")) == Ok(raws)
  {
    assert SkipBlank("") == "" && raws + [] == raws;
    assert rest.Ok? ==> [] + rest.value == rest.value;
  }

  lemma PrependTwice(raws: seq<RawEntry>, entry: RawEntry, rest: Result<seq<RawEntry>>)
    ensures Prepend(raws, Prepend([entry], rest)) == Prepend(raws + [entry], rest)
  {
    if rest.Ok? {
      assert raws + ([entry] + rest.value) == (raws + [entry]) + rest.value;
    }
  }

  /** One entry of the second pass, with its look-ahead. */
  function OneEntry(number: string -> Option<real>, raws: seq<RawEntry>, i: nat): Result<Entry>
    requires i < |raws|
  {
    var start := ParseTimestamp(number, raws[i].timestamp);
    if start.Err? then Err(start.error)
    else if i + 1 == |raws| then Ok(WithTimes(raws[i], i, start.value, None))
    else
      var next := ParseTimestamp(number, raws[i + 1].timestamp);
      if next.Err? then Err(next.error) else Ok(WithTimes(raws[i], i, start.value, Some(next.value)))
  }

  function WithTimes(raw: RawEntry, i: nat, start: real, end: Option<real>): Entry {
    Entry(i + 1, if raw.speaker == "" then None else Some(raw.speaker), start, end, ComputeDuration(start, end),
          raw.content)
  }

  lemma OneEntryFails(number: string -> Option<real>, raws: seq<RawEntry>, i: nat)
    requires i < |raws| && OneEntry(number, raws, i).Err?
    requires forall k :: 0 <= k < i ==> OneEntry(number, raws, k).Ok?
    ensures Unify(number, raws) == Err(OneEntry(number, raws, i).error)
  {
    forall k | 0 <= k < i ensures ParseTimestamp(number, raws[k].timestamp).Ok? {
      assert OneEntry(number, raws, k).Ok?;
    }
    if ParseTimestamp(number, raws[i].timestamp).Err? {
      BadTimeIsFirst(number, raws, i);
    } else {
      BadTimeIsFirst(number, raws, i + 1);
    }
  }

  lemma AllEntriesSucceed(number: string -> Option<real>, raws: seq<RawEntry>, entries: seq<Entry>)
    requires |entries| == |raws|
    requires forall k :: 0 <= k < |raws| ==> OneEntry(number, raws, k) == Ok(entries[k])
    ensures Unify(number, raws) == Ok(entries)
  {
    forall k | 0 <= k < |raws| ensures ParseTimestamp(number, raws[k].timestamp).Ok? {
      assert OneEntry(number, raws, k).Ok?;
    }
    NoBadTimeExactlyWhen(number, raws);
    forall k | 0 <= k < |raws| ensures EntryAt(number, raws, k) == entries[k] {
      assert OneEntry(number, raws, k) == Ok(EntryAt(number, raws, k));
    }
    assert Unify(number, raws).value == entries;
  }

  method UnifyEntry(number: string -> Option<real>, raws: seq<RawEntry>, i: nat) returns (r: Result<Entry>)
    requires i < |raws|
    ensures r == OneEntry(number, raws, i)
  {
    var start := ParseTimestamp(number, raws[i].timestamp);
    if start.Err? {
      return Err(start.error);
    }
    var end: Option<real> := None;
    if i + 1 < |raws| {
      var next := ParseTimestamp(number, raws[i + 1].timestamp);
      if next.Err? {
        return Err(next.error);
      }
      end := Some(next.value);
    }
    r := Ok(WithTimes(raws[i], i, start.value, end));
  }

  /** The second pass. */
  method UnifyEntries(number: string -> Option<real>, raws: seq<RawEntry>) returns (r: Result<seq<Entry>>)
    ensures r == Unify(number, raws)
  {
    var entries: seq<Entry> := [];
    for i := 0 to |raws|
      invariant |entries| == i && forall k :: 0 <= k < i ==> OneEntry(number, raws, k) == Ok(entries[k])
    {
      var entry := UnifyEntry(number, raws, i);
      if entry.Err? {
        OneEntryFails(number, raws, i);
        return Err(entry.error);
      }
      entries := entries + [entry.value];
    }
    AllEntriesSucceed(number, raws, entries);
    r := Ok(entries);
  }

  method Parse(number: string -> Option<real>, input: string) returns (r: Result<seq<Entry>>)
    ensures r == ParseText(number, input)
  {
    var raws := ExtractEntries(input);
    if raws.Err? {
      return Err(raws.error);
    }
    r := UnifyEntries(number, raws.value);
  }
}
