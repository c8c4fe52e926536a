/** A printer for the generic transcript format, and the proof that parsing undoes it. */
module TranscriptPrinter {
  import opened Wrappers
  import opened Strings
  import opened Transcript

  function HeaderWith(e: RawEntry, blank: string): string { e.speaker + blank + "(" + e.timestamp + ")" }

  function HeaderOf(e: RawEntry): string { HeaderWith(e, " ") }

  function Print(e: RawEntry): string { HeaderOf(e) + "\n" + e.content + "\n" }

  function PrintAll(es: seq<RawEntry>): string {
    if es == [] then "" else Print(es[0]) + PrintAll(es[1..])
  }

  /** No line of the text looks like a header. */
  predicate NoHeaderLine(s: string)
    decreases |s|
  {
    && !IsHeaderLine(FirstLine(s))
    && (FirstIndex(s, '\n') < |s| ==> NoHeaderLine(AfterLine(s)))
  }

  /** What the format can carry: a trimmed speaker on one line, a trimmed timestamp without parentheses
    * that starts with a digit, and right-trimmed content without a line that looks like a header. */
  predicate Printable(e: RawEntry) {
    && IsTrimmed(e.speaker) && '\n' !in e.speaker
    && IsTimestamp(e.timestamp)
    && IsTrimmedEnd(e.content) && NoHeaderLine(e.content)
  }

  predicate IsTimestamp(s: string) {
    s != "" && IsTrimmed(s) && IsDigit(s[0]) && forall i :: 0 <= i < |s| ==> s[i] !in {'(', ')', '\n'}
  }

  // ---------------------------------------------------------------- finding characters again

  lemma {:induction false} FirstIndexIs(s: string, c: char, k: nat)
    requires k < |s| && s[k] == c && forall i :: 0 <= i < k ==> s[i] != c
    ensures FirstIndex(s, c) == k
  {
    assert FirstIndex(s, c) <= k;
  }

  lemma LastIndexIs(s: string, c: char, k: nat)
    requires k < |s| && s[k] == c && forall i :: k < i < |s| ==> s[i] != c
    ensures LastIndex(s, c) == Some(k)
  {
    assert c in s;
  }

  // ---------------------------------------------------------------- headers

  /** A header line, with or without the blank before it, gives back speaker and timestamp. */
  lemma HeaderParses(e: RawEntry, blank: string)
    requires Printable(e) && (blank == " " || (blank == "" && e.speaker == ""))
    ensures ParseHeader(HeaderWith(e, blank)) == Ok((e.speaker, e.timestamp)) && IsHeaderLine(HeaderWith(e, blank))
  {
    var front, line := e.speaker + blank, HeaderWith(e, blank);
    var open, close := |front|, |front| + 1 + |e.timestamp|;
    assert line[open] == '(' && line[close] == ')';
    assert forall i :: open < i < close ==> line[i] == e.timestamp[i - open - 1];
    LastIndexIs(line, '(', open);
    LastIndexIs(line, ')', close);
    assert line[..open] == front && line[open + 1..close] == e.timestamp;
    TrimOfTrimmed(e.timestamp);
    TrimOfPadded(e.speaker, blank);
  }

  lemma TrimOfPadded(s: string, blank: string)
    requires IsTrimmed(s) && (blank == " " || (blank == "" && s == ""))
    ensures Trim(s + blank) == s
  {
    if s == "" {
      assert s + blank == blank;
      assert blank == " " ==> blank[1..] == "";
    } else {
      assert TrimStart(s + blank) == s + blank;
      TrimEndOfPadded(s, blank);
    }
  }

  /** The header line once leading blanks are skipped. */
  function SkippedHeader(e: RawEntry): string {
    if e.speaker == "" then HeaderWith(e, "") else HeaderOf(e)
  }

  lemma HeaderStarts(e: RawEntry, body: string)
    requires Printable(e)
    ensures SkipBlank(HeaderOf(e) + body) == SkippedHeader(e) + body
    ensures SkippedHeader(e) != "" && !IsSkipped(SkippedHeader(e)[0])
  {
    var text := HeaderOf(e) + body;
    if e.speaker == "" {
      assert text[0] == ' ' && text[1..] == SkippedHeader(e) + body;
      assert text[1..][0] == '(';
    } else {
      assert text[0] == e.speaker[0];
    }
  }

  lemma HeaderIsOneLine(e: RawEntry)
    requires Printable(e)
    ensures '\n' !in HeaderOf(e) && '\n' !in SkippedHeader(e)
  {
  }

  lemma LineThen(line: string, rest: string)
    requires '\n' !in line
    ensures FirstLine(line + "\n" + rest) == line && AfterLine(line + "\n" + rest) == rest
    ensures FirstIndex(line + "\n" + rest, '\n') == |line|
  {
    var s := line + "\n" + rest;
    assert s[|line|] == '\n' && forall i :: 0 <= i < |line| ==> s[i] == line[i];
    FirstIndexIs(s, '\n', |line|);
    assert s[..|line|] == line && s[|line| + 1..] == rest;
  }

  lemma SkippedHeaderParses(e: RawEntry)
    requires Printable(e)
    ensures ParseHeader(SkippedHeader(e)) == Ok((e.speaker, e.timestamp)) && IsHeaderLine(HeaderOf(e))
  {
    HeaderParses(e, " ");
    if e.speaker == "" {
      HeaderParses(e, "");
    }
  }

  /** A printed header starts an entry whose content is taken from what follows it. */
  lemma HeaderScans(e: RawEntry, body: string)
    requires Printable(e)
    ensures var (content, rest) := TakeContent(body);
            Scan(HeaderOf(e) + "\n" + body) == Prepend([RawEntry(e.speaker, e.timestamp, TrimEnd(content))], Scan(rest))
  {
    var text := SkippedHeader(e) + "\n" + body;
    HeaderStarts(e, "\n" + body);
    assert HeaderOf(e) + "\n" + body == HeaderOf(e) + ("\n" + body);
    assert text == SkippedHeader(e) + ("\n" + body) && text[0] == SkippedHeader(e)[0];
    ScanSkips(HeaderOf(e) + "\n" + body);
    ScanOne(text);
    HeaderIsOneLine(e);
    LineThen(SkippedHeader(e), body);
    SkippedHeaderParses(e);
  }

  // ---------------------------------------------------------------- content

  /** The rest of the input after an entry: nothing, or the next header line with its newline. */
  predicate StartsWithHeader(rest: string) {
    rest == "" || (FirstIndex(rest, '\n') < |rest| && IsHeaderLine(FirstLine(rest)))
  }

  lemma TakeTerminated(line: string, rest: string)
    requires '\n' !in line && !IsHeaderLine(line)
    ensures TakeContent(line + "\n" + rest) == (line + "\n" + TakeContent(rest).0, TakeContent(rest).1)
  {
    LineThen(line, rest);
    assert (line + "\n" + rest)[..|line| + 1] == line + "\n";
  }

  lemma LineSplits(s: string)
    requires FirstIndex(s, '\n') < |s|
    ensures s == FirstLine(s) + "\n" + AfterLine(s) && '\n' !in FirstLine(s)
  {
    SplitsAt(s, FirstIndex(s, '\n'));
  }

  lemma SplitsAt(s: string, k: nat)
    requires k < |s| && s[k] == '\n'
    ensures s == s[..k] + "\n" + s[k + 1..]
  {
    assert "\n" == [s[k]];
  }

  lemma Regroup(line: string, after: string, rest: string)
    ensures (line + "\n" + after) + "\n" + rest == line + "\n" + (after + "\n" + rest)
  {
  }

  /** Lines that are not headers are taken, up to what `last` gives. */
  lemma {:induction false} ContentIsTaken(content: string, rest: string)
    requires NoHeaderLine(content)
    ensures TakeContent(content + "\n" + rest) == (content + "\n" + TakeContent(rest).0, TakeContent(rest).1)
    decreases |content|
  {
    if FirstIndex(content, '\n') == |content| {
      assert FirstLine(content) == content;
      TakeTerminated(content, rest);
    } else {
      var line, after := FirstLine(content), AfterLine(content);
      LineSplits(content);
      ContentIsTaken(after, rest);
      TakeTerminated(line, after + "\n" + rest);
      Regroup(line, after, rest);
      Regroup(line, after, TakeContent(rest).0);
    }
  }

  predicate AllPrintable(es: seq<RawEntry>) {
    es == [] || (Printable(es[0]) && AllPrintable(es[1..]))
  }

  lemma HeaderLineFirst(e: RawEntry, rest: string)
    requires Printable(e)
    ensures StartsWithHeader(Print(e) + rest)
  {
    var body := e.content + "\n" + rest;
    assert Print(e) + rest == HeaderOf(e) + "\n" + body;
    HeaderIsOneLine(e);
    LineThen(HeaderOf(e), body);
    SkippedHeaderParses(e);
  }

  // ---------------------------------------------------------------- the round trip

  /** Scanning a printed entry gives the entry and goes on with what follows. */
  lemma PrintedEntryScans(e: RawEntry, rest: string)
    requires Printable(e) && StartsWithHeader(rest)
    ensures Scan(Print(e) + rest) == Prepend([e], Scan(rest))
  {
    var body := e.content + "\n" + rest;
    assert Print(e) + rest == HeaderOf(e) + "\n" + body;
    HeaderScans(e, body);
    ContentIsTaken(e.content, rest);
    assert TakeContent(rest) == ("", rest);
    assert e.content + "\n" + "" == e.content + "\n";
    TrimEndOfPadded(e.content, "\n");
  }

  lemma Associate(a: string, b: string, c: string)
    ensures (a + b) + c == a + (b + c)
  {
  }

  lemma PrintAllStep(es: seq<RawEntry>, tail: string)
    requires es != []
    ensures PrintAll(es) + tail == Print(es[0]) + (PrintAll(es[1..]) + tail)
  {
    Associate(Print(es[0]), PrintAll(es[1..]), tail);
  }

  lemma PrintedThenStarts(es: seq<RawEntry>, tail: string)
    requires AllPrintable(es) && StartsWithHeader(tail)
    ensures StartsWithHeader(PrintAll(es) + tail)
  {
    if es == [] {
      assert PrintAll(es) + tail == tail;
    } else {
      HeaderLineFirst(es[0], PrintAll(es[1..]) + tail);
      PrintAllStep(es, tail);
    }
  }

  /** Scanning printed entries gives them, and then what the rest gives. */
  lemma {:induction false} ScanAfterPrinted(es: seq<RawEntry>, tail: string)
    requires AllPrintable(es) && StartsWithHeader(tail)
    ensures Scan(PrintAll(es) + tail) == Prepend(es, Scan(tail))
  {
    if es == [] {
      assert PrintAll(es) + tail == tail;
      PrependNothing(es, Scan(tail));
    } else {
      PrintedThenStarts(es[1..], tail);
      PrintAllStep(es, tail);
      PrintedEntryScans(es[0], PrintAll(es[1..]) + tail);
      ScanAfterPrinted(es[1..], tail);
      PrependAll(es, Scan(tail));
    }
  }

  lemma PrependAll(es: seq<RawEntry>, rest: Result<seq<RawEntry>>)
    requires es != []
    ensures Prepend([es[0]], Prepend(es[1..], rest)) == Prepend(es, rest)
  {
    if rest.Ok? {
      assert [es[0]] + (es[1..] + rest.value) == es + rest.value;
    }
  }

  /** Scanning what was printed gives back the entries. */
  lemma ScanOfPrinted(es: seq<RawEntry>)
    requires AllPrintable(es)
    ensures Scan(PrintAll(es)) == Ok(es)
  {
    assert PrintAll(es) + "" == PrintAll(es);
    ScanAfterPrinted(es, "");
    PrependNothing(es, Scan(""));
  }

  /** Parsing what was printed gives the entries with indices from one and look-ahead times, or the
    * error of the first timestamp that is not a time. */
  lemma ParseOfPrinted(number: string -> Option<real>, es: seq<RawEntry>)
    requires AllPrintable(es)
    ensures ParseText(number, PrintAll(es)) == Unify(number, es)
    ensures ParseText(number, PrintAll(es)).Ok? <==> TimesAreValid(number, es)
  {
    ScanOfPrinted(es);
    NoBadTimeExactlyWhen(number, es);
  }

  // ---------------------------------------------------------------- times

  lemma {:induction false} SplitAtColon(a: string, rest: string)
    requires ':' !in a
    ensures SplitOn(a + ":" + rest, ":") == [a] + SplitOn(rest, ":")
  {
    var text := a + ":" + rest;
    assert OccursAt(text, ":", |a|) by {
      assert text[|a|..|a| + 1] == ":";
    }
    forall i: nat | i < |a| ensures !OccursAt(text, ":", i) {
      assert text[i..i + 1][0] == a[i];
    }
    assert Find(text, ":") == Some(|a|);
    assert text[..|a|] == a && text[|a| + 1..] == rest;
  }

  lemma NoColon(a: string)
    requires ':' !in a
    ensures SplitOn(a, ":") == [a]
  {
    forall i: nat | i <= |a| ensures !OccursAt(a, ":", i) {
      if i < |a| {
        assert a[i..i + 1][0] == a[i];
      }
    }
  }

  /** Hours, minutes and seconds are read as that many seconds; it takes all three parts to be numbers. */
  lemma TimestampMeansSeconds(number: string -> Option<real>, h: string, m: string, s: string)
    requires ':' !in h && ':' !in m && ':' !in s && IsTrimmed(h + ":" + m + ":" + s)
    ensures ParseTimestamp(number, h + ":" + m + ":" + s).Ok?
        <==> number(h).Some? && number(m).Some? && number(s).Some?
    ensures number(h).Some? && number(m).Some? && number(s).Some? ==>
              ParseTimestamp(number, h + ":" + m + ":" + s).value
              == 3600.0 * number(h).value + 60.0 * number(m).value + number(s).value
  {
    TrimOfTrimmed(h + ":" + m + ":" + s);
    ThreeParts(h, m, s);
  }

  lemma ThreeParts(h: string, m: string, s: string)
    requires ':' !in h && ':' !in m && ':' !in s
    ensures SplitOn(h + ":" + m + ":" + s, ":") == [h, m, s]
  {
    assert h + ":" + m + ":" + s == h + ":" + (m + ":" + s);
    SplitAtColon(h, m + ":" + s);
    SplitAtColon(m, s);
    NoColon(s);
  }

  /** The sum of the durations that are known. */
  function TotalDuration(entries: seq<Entry>): real {
    if entries == [] then 0.0
    else
      TotalDuration(entries[..|entries| - 1])
      + if entries[|entries| - 1].duration.Some? then entries[|entries| - 1].duration.value else 0.0
  }

  lemma {:induction false} DurationsUpTo(entries: seq<Entry>, n: nat)
    requires 0 < n <= |entries|
    requires forall k :: 0 <= k < |entries| - 1 ==> EndsAtNext(entries, k)
    requires n == |entries| ==> entries[n - 1].duration.None?
    ensures TotalDuration(entries[..n])
         == (if n < |entries| then entries[n].startTime else entries[n - 1].startTime) - entries[0].startTime
  {
    assert entries[..n][..n - 1] == entries[..n - 1];
    if n == 1 {
      assert entries[..0] == [];
      assert n < |entries| ==> EndsAtNext(entries, 0);
    } else {
      assert EndsAtNext(entries, n - 2) && (n < |entries| ==> EndsAtNext(entries, n - 1));
      DurationsUpTo(entries, n - 1);
    }
  }

  predicate EndsAtNext(entries: seq<Entry>, k: nat)
    requires k + 1 < |entries|
  {
    var start, next := entries[k].startTime, entries[k + 1].startTime;
    entries[k].endTime == Some(next) && entries[k].duration == Some(next - start)
  }

  /** Indices count from one, each entry ends when the next one starts, and the last one has no end. */
  predicate LooksAhead(entries: seq<Entry>) {
    && (forall k :: 0 <= k < |entries| ==> entries[k].index == k + 1)
    && (forall k :: 0 <= k < |entries| - 1 ==> EndsAtNext(entries, k))
    && (entries != [] ==> entries[|entries| - 1].endTime.None? && entries[|entries| - 1].duration.None?)
  }

  lemma UnifyLooksAhead(number: string -> Option<real>, raws: seq<RawEntry>)
    requires Unify(number, raws).Ok?
    ensures LooksAhead(Unify(number, raws).value)
  {
    var es := Unify(number, raws).value;
    NoBadTimeExactlyWhen(number, raws);
    forall k | 0 <= k < |es| - 1 ensures EndsAtNext(es, k) {
      EndsWhereNextStarts(number, raws, es, k);
    }
  }

  lemma EndsWhereNextStarts(number: string -> Option<real>, raws: seq<RawEntry>, es: seq<Entry>, k: nat)
    requires TimesAreValid(number, raws) && |es| == |raws| && k + 1 < |es|
    requires es[k] == EntryAt(number, raws, k) && es[k + 1] == EntryAt(number, raws, k + 1)
    ensures EndsAtNext(es, k)
  {
  }

  /** Of every text that parses, the entries look ahead, and the durations add up to the time between
    * the first and the last start. */
  lemma TimesTelescope(number: string -> Option<real>, s: string)
    requires ParseText(number, s).Ok?
    ensures var entries := ParseText(number, s).value;
            && LooksAhead(entries)
            && (entries != [] ==>
                  TotalDuration(entries) == entries[|entries| - 1].startTime - entries[0].startTime)
  {
    UnifyLooksAhead(number, Scan(s).value);
    DurationsAddUp(ParseText(number, s).value);
  }

  lemma DurationsAddUp(entries: seq<Entry>)
    requires LooksAhead(entries)
    ensures entries != [] ==> TotalDuration(entries) == entries[|entries| - 1].startTime - entries[0].startTime
  {
    if entries != [] {
      DurationsUpTo(entries, |entries|);
      assert entries[..|entries|] == entries;
    }
  }

  // ---------------------------------------------------------------- the unterminated last line

  /** What a last line without its newline does to the entry before it. */
  function WithLast(e: RawEntry, last: string): RawEntry {
    e.(content := TrimEnd(e.content + "\n" + last))
  }

  lemma UnterminatedAfterOne(e: RawEntry, last: string)
    requires Printable(e) && '\n' !in last
    ensures Scan(Print(e) + last) == Ok([WithLast(e, last)])
  {
    var body := e.content + "\n" + last;
    assert Print(e) + last == HeaderOf(e) + "\n" + body;
    HeaderScans(e, body);
    ContentIsTaken(e.content, last);
    assert TakeContent(last) == (last, "") by {
      assert FirstIndex(last, '\n') == |last|;
    }
    PrependNothing([WithLast(e, last)], Ok([]));
  }

  lemma {:induction false} PrintAllOfLast(front: seq<RawEntry>, e: RawEntry)
    requires AllPrintable(front + [e])
    ensures AllPrintable(front) && Printable(e) && PrintAll(front + [e]) == PrintAll(front) + Print(e)
  {
    var es := front + [e];
    if front == [] {
      assert es[0] == e && es[1..] == [];
    } else {
      assert es[1..] == front[1..] + [e] && es[0] == front[0];
      PrintAllOfLast(front[1..], e);
      Associate(Print(front[0]), PrintAll(front[1..]), Print(e));
    }
  }

  /** A last line without its newline becomes content of the last entry, even when it is a header. */
  lemma UnterminatedLineIsContent(front: seq<RawEntry>, e: RawEntry, last: string)
    requires AllPrintable(front + [e]) && '\n' !in last
    ensures Scan(PrintAll(front + [e]) + last) == Ok(front + [WithLast(e, last)])
  {
    PrintAllOfLast(front, e);
    Associate(PrintAll(front), Print(e), last);
    HeaderLineFirst(e, last);
    ScanAfterPrinted(front, Print(e) + last);
    UnterminatedAfterOne(e, last);
  }

  /** A header line with its newline opens an entry without content. */
  lemma TerminatedHeaderIsEntry(es: seq<RawEntry>, next: RawEntry)
    requires AllPrintable(es) && Printable(next)
    ensures Scan(PrintAll(es) + (HeaderOf(next) + "\n")) == Ok(es + [next.(content := "")])
  {
    assert HeaderOf(next) + "\n" == HeaderOf(next) + "\n" + "";
    HeaderIsOneLine(next);
    LineThen(HeaderOf(next), "");
    SkippedHeaderParses(next);
    ScanAfterPrinted(es, HeaderOf(next) + "\n");
    HeaderScans(next, "");
    PrependNothing([next.(content := "")], Ok([]));
  }

  /** An entry that a header line opens at the end of the text is found exactly when that line is
    * terminated. */
  lemma LastHeaderExactlyWhenTerminated(front: seq<RawEntry>, e: RawEntry, next: RawEntry, newline: bool)
    requires AllPrintable(front + [e]) && Printable(next)
    ensures var text := PrintAll(front + [e]) + (HeaderOf(next) + if newline then "\n" else "");
            Scan(text).Ok? && (|Scan(text).value| == |front| + 2 <==> newline)
  {
    HeaderIsOneLine(next);
    if newline {
      TerminatedHeaderIsEntry(front + [e], next);
    } else {
      UnterminatedLineIsContent(front, e, HeaderOf(next));
      assert HeaderOf(next) + "" == HeaderOf(next);
    }
  }

  // ---------------------------------------------------------------- headers and times of any text

  /** A line is a header exactly when its last opening parenthesis is followed by a digit, and it is read as
    * what stands before that parenthesis and what stands between it and the last closing one. */
  lemma HeaderIsRead(front: string, inside: string, after: string)
    requires '(' !in inside && '(' !in after && ')' !in after
    ensures ParseHeader(front + "(" + inside + ")" + after) == Ok((Trim(front), Trim(inside)))
    ensures IsHeaderLine(front + "(" + inside + ")" + after) <==> inside != "" && IsDigit(inside[0])
  {
    var line := front + "(" + inside + ")" + after;
    var open, close := |front|, |front| + 1 + |inside|;
    assert line[open] == '(' && line[close] == ')';
    assert forall i :: open < i < close ==> line[i] == inside[i - open - 1];
    assert forall i :: close < i < |line| ==> line[i] == after[i - close - 1];
    LastIndexIs(line, '(', open);
    LastIndexIs(line, ')', close);
    assert line[..open] == front && line[open + 1..close] == inside;
    assert inside != "" ==> line[open + 1] == inside[0];
  }

  /** A header is refused exactly when it has no closing parenthesis after its last opening one. */
  lemma HeaderFailsExactlyWhen(line: string)
    ensures ParseHeader(line).Err?
        <==> forall i, j :: 0 <= i < j < |line| && line[i] == '(' && line[j] == ')' ==>
               exists k :: j < k < |line| && line[k] == '('
    ensures ParseHeader(line).Err? ==>
              ParseHeader(line).error == (if '(' in line && ')' in line then "Invalid header format: "
                                          else "No timestamp found in header: ") + line
  {
    var open, close := LastIndex(line, '('), LastIndex(line, ')');
    if ParseHeader(line).Ok? {
      assert line[open.value] == '(' && line[close.value] == ')';
    } else {
      forall i, j | 0 <= i < j < |line| && line[i] == '(' && line[j] == ')'
        ensures exists k :: j < k < |line| && line[k] == '('
      {
        assert i <= open.value && j <= close.value < open.value;
        assert line[open.value] == '(';
      }
    }
  }

  /** One part is seconds, two are minutes and seconds, and more than three are refused; blanks around the
    * timestamp do not count. */
  lemma ShortTimestamps(number: string -> Option<real>, m: string, s: string, stamp: string)
    requires ':' !in m && ':' !in s && IsTrimmed(s) && IsTrimmed(m + ":" + s)
    ensures ParseTimestamp(number, s).Ok? <==> number(s).Some?
    ensures number(s).Some? ==> ParseTimestamp(number, s).value == number(s).value
    ensures ParseTimestamp(number, m + ":" + s).Ok? <==> number(m).Some? && number(s).Some?
    ensures number(m).Some? && number(s).Some? ==>
              ParseTimestamp(number, m + ":" + s).value == 60.0 * number(m).value + number(s).value
    ensures ParseTimestamp(number, stamp) == ParseTimestamp(number, Trim(stamp))
  {
    TrimOfTrimmed(s);
    NoColon(s);
    TrimOfTrimmed(m + ":" + s);
    SplitAtColon(m, s);
    var left, right := TrimSplits(stamp);
    TrimOfTrimmed(Trim(stamp));
  }

  lemma LongTimestampsFail(number: string -> Option<real>, a: string, b: string, c: string, rest: string)
    requires ':' !in a && ':' !in b && ':' !in c && IsTrimmed(a + ":" + b + ":" + c + ":" + rest)
    ensures ParseTimestamp(number, a + ":" + b + ":" + c + ":" + rest).Err?
  {
    var stamp := a + ":" + (b + ":" + (c + ":" + rest));
    assert a + ":" + b + ":" + c + ":" + rest == stamp;
    TrimOfTrimmed(stamp);
    SplitAtColon(a, b + ":" + (c + ":" + rest));
    SplitAtColon(b, c + ":" + rest);
    SplitAtColon(c, rest);
    assert SplitOn(rest, ":") != [];
    assert SplitOn(stamp, ":") == [a] + ([b] + ([c] + SplitOn(rest, ":")));
  }

  /** The error of a timestamp names the first part that is not a number. */
  lemma TimestampErrorNamesPart(number: string -> Option<real>, h: string, m: string, s: string)
    requires ':' !in h && ':' !in m && ':' !in s && IsTrimmed(h + ":" + m + ":" + s)
    ensures var stamp := h + ":" + m + ":" + s;
            var r := ParseTimestamp(number, stamp);
            && (number(h).None? ==> r == Err("Invalid hours in generic timestamp: " + stamp))
            && (number(h).Some? && number(m).None? ==> r == Err("Invalid minutes in generic timestamp: " + stamp))
            && (number(h).Some? && number(m).Some? && number(s).None? ==>
                  r == Err("Invalid seconds in generic timestamp: " + stamp))
  {
    TrimOfTrimmed(h + ":" + m + ":" + s);
    ThreeParts(h, m, s);
  }

  /** Each entry keeps its speaker, none where it was empty, its content and its place, and starts at its own
    * timestamp. */
  lemma EntriesKeepText(number: string -> Option<real>, raws: seq<RawEntry>)
    requires TimesAreValid(number, raws)
    ensures Unify(number, raws).Ok? && |Unify(number, raws).value| == |raws|
    ensures forall k :: 0 <= k < |raws| ==>
              var e := Unify(number, raws).value[k];
              && e.content == raws[k].content && e.index == k + 1
              && (e.speaker.None? <==> raws[k].speaker == "")
              && (e.speaker.Some? ==> e.speaker.value == raws[k].speaker)
              && ParseTimestamp(number, raws[k].timestamp) == Ok(e.startTime)
  {
    NoBadTimeExactlyWhen(number, raws);
    forall k | 0 <= k < |raws| ensures Unify(number, raws).value[k] == EntryAt(number, raws, k) {
    }
  }

  /** Otherwise the error is that of the first timestamp that cannot be read. */
  lemma FirstBadTimestampFails(number: string -> Option<real>, raws: seq<RawEntry>, k: nat)
    requires k < |raws| && ParseTimestamp(number, raws[k].timestamp).Err?
    requires forall j :: 0 <= j < k ==> ParseTimestamp(number, raws[j].timestamp).Ok?
    ensures Unify(number, raws) == Err(ParseTimestamp(number, raws[k].timestamp).error)
  {
    BadTimeIsFirst(number, raws, k);
  }

  predicate AllSkipped(s: string) { forall i :: 0 <= i < |s| ==> s[i] == '\n' || s[i] == '\r' || s[i] == ' ' }

  /** Newlines, carriage returns and spaces before an entry do not count; any other character starts one, so
    * a text of those alone has no entries and a line without a header is an error. */
  lemma {:induction false} BlanksBeforeEntries(blank: string, s: string)
    requires AllSkipped(blank)
    ensures Scan(blank + s) == Scan(s)
    ensures Scan(blank) == Ok([])
    ensures s != "" && s[0] != '\n' && s[0] != '\r' && s[0] != ' ' && ParseHeader(FirstLine(s)).Err? ==>
              Scan(blank + s) == Err(ParseHeader(FirstLine(s)).error)
  {
    SkipsBlanks(blank, s);
    SkipsBlanks(blank, "");
    assert blank + "" == blank && SkipBlank("") == "";
    ScanSkips(blank + s);
    ScanSkips(s);
    ScanSkips(blank);
  }

  lemma {:induction false} SkipsBlanks(blank: string, s: string)
    requires AllSkipped(blank)
    ensures SkipBlank(blank + s) == SkipBlank(s)
  {
    if blank == "" {
      assert blank + s == s;
    } else {
      assert (blank + s)[1..] == blank[1..] + s;
      SkipsBlanks(blank[1..], s);
    }
  }
}
