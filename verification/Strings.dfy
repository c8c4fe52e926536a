/** Text: whitespace, trimming, UTF-8 length and substring search. */
module Strings {
  import opened Wrappers

  /** The characters with the Unicode property White_Space. */
  predicate IsWhitespace(c: char) {
    var u := c as int;
    || 0x9 <= u <= 0xD || u == 0x20 || u == 0x85 || u == 0xA0 || u == 0x1680
    || 0x2000 <= u <= 0x200A || u == 0x2028 || u == 0x2029 || u == 0x202F || u == 0x205F || u == 0x3000
  }

  function Utf8Length(c: char): nat {
    var u := c as int;
    if u < 0x80 then 1 else if u < 0x800 then 2 else if u < 0x1_0000 then 3 else 4
  }

  function ByteLength(s: string): nat {
    if s == "" then 0 else Utf8Length(s[0]) + ByteLength(s[1..])
  }

  function TrimStart(s: string): string {
    if s == "" then "" else if IsWhitespace(s[0]) then TrimStart(s[1..]) else s
  }

  function TrimEnd(s: string): string {
    if s == "" then "" else if IsWhitespace(s[|s| - 1]) then TrimEnd(s[..|s| - 1]) else s
  }

  function Trim(s: string): string { TrimEnd(TrimStart(s)) }

  predicate IsTrimmedEnd(s: string) { s == "" || !IsWhitespace(s[|s| - 1]) }

  predicate IsTrimmed(s: string) { s == "" || (!IsWhitespace(s[0]) && !IsWhitespace(s[|s| - 1])) }

  lemma {:induction false} ByteLengthOfConcat(a: string, b: string)
    ensures ByteLength(a + b) == ByteLength(a) + ByteLength(b)
  {
    if a == "" {
      assert a + b == b;
    } else {
      assert (a + b)[1..] == a[1..] + b;
      ByteLengthOfConcat(a[1..], b);
    }
  }

  lemma ByteLengthIsPositive(s: string)
    ensures ByteLength(s) == 0 <==> s == ""
  {
  }

  /** Trimming removes whitespace at the ends and nothing else. */
  lemma {:induction false} TrimStartSplits(s: string) returns (blank: string)
    ensures s == blank + TrimStart(s) && forall i :: 0 <= i < |blank| ==> IsWhitespace(blank[i])
    ensures TrimStart(s) != "" ==> !IsWhitespace(TrimStart(s)[0])
  {
    if s == "" || !IsWhitespace(s[0]) {
      blank := "";
    } else {
      blank := TrimStartSplits(s[1..]);
      blank := [s[0]] + blank;
    }
  }

  lemma {:induction false} TrimEndSplits(s: string) returns (blank: string)
    ensures s == TrimEnd(s) + blank && forall i :: 0 <= i < |blank| ==> IsWhitespace(blank[i])
    ensures IsTrimmedEnd(TrimEnd(s))
    ensures TrimEnd(s) != "" ==> TrimEnd(s)[0] == s[0]
  {
    if s == "" || !IsWhitespace(s[|s| - 1]) {
      blank := "";
    } else {
      blank := TrimEndSplits(s[..|s| - 1]);
      blank := blank + [s[|s| - 1]];
    }
  }

  lemma TrimSplits(s: string) returns (left: string, right: string)
    ensures s == left + Trim(s) + right && IsTrimmed(Trim(s))
    ensures forall i :: 0 <= i < |left| ==> IsWhitespace(left[i])
    ensures forall i :: 0 <= i < |right| ==> IsWhitespace(right[i])
  {
    left := TrimStartSplits(s);
    right := TrimEndSplits(TrimStart(s));
  }

  lemma TrimShortens(s: string)
    ensures ByteLength(Trim(s)) <= ByteLength(s) && |Trim(s)| <= |s|
  {
    var left, right := TrimSplits(s);
    ByteLengthOfConcat(left + Trim(s), right);
    ByteLengthOfConcat(left, Trim(s));
  }

  /** Text that starts and ends with a non-blank is its own trimming. */
  lemma TrimOfTrimmed(s: string)
    requires IsTrimmed(s)
    ensures Trim(s) == s
  {
  }

  lemma {:induction false} TrimEndOfPadded(s: string, blank: string)
    requires IsTrimmedEnd(s) && forall i :: 0 <= i < |blank| ==> IsWhitespace(blank[i])
    ensures TrimEnd(s + blank) == s
  {
    if blank == "" {
      assert s + blank == s;
    } else {
      assert (s + blank)[..|s + blank| - 1] == s + blank[..|blank| - 1];
      TrimEndOfPadded(s, blank[..|blank| - 1]);
    }
  }

  // ---------------------------------------------------------------- search and split

  predicate OccursAt(text: string, pattern: string, i: nat) {
    i + |pattern| <= |text| && text[i..i + |pattern|] == pattern
  }

  /** The first occurrence at or after `from`. */
  function FindFrom(text: string, pattern: string, from: nat): (r: Option<nat>)
    requires from <= |text|
    ensures r.Some? ==> from <= r.value && OccursAt(text, pattern, r.value)
    ensures r.Some? ==> forall i :: from <= i < r.value ==> !OccursAt(text, pattern, i)
    ensures r.None? ==> forall i :: from <= i <= |text| ==> !OccursAt(text, pattern, i)
    decreases |text| - from
  {
    if OccursAt(text, pattern, from) then Some(from)
    else if from == |text| then None
    else FindFrom(text, pattern, from + 1)
  }

  function Find(text: string, pattern: string): Option<nat> { FindFrom(text, pattern, 0) }

  predicate Contains(text: string, pattern: string) { Find(text, pattern).Some? }

  /** The parts of `text` between the non-overlapping occurrences of a non-empty separator. */
  function SplitOn(text: string, separator: string): seq<string>
    requires separator != ""
    decreases |text|
  {
    var found := Find(text, separator);
    if found.None? then [text]
    else [text[..found.value]] + SplitOn(text[found.value + |separator|..], separator)
  }

  function Join(parts: seq<string>, separator: string): string {
    if parts == [] then "" else if |parts| == 1 then parts[0]
    else parts[0] + separator + Join(parts[1..], separator)
  }

  function Flatten(parts: seq<string>): string {
    if parts == [] then "" else parts[0] + Flatten(parts[1..])
  }

  lemma {:induction false} FlattenOfConcat(a: seq<string>, b: seq<string>)
    ensures Flatten(a + b) == Flatten(a) + Flatten(b)
  {
    if a == [] {
      assert a + b == b;
    } else {
      assert (a + b)[1..] == a[1..] + b;
      FlattenOfConcat(a[1..], b);
    }
  }

  /** Splitting and joining undo each other. */
  lemma {:induction false} JoinOfSplit(text: string, separator: string)
    requires separator != ""
    ensures Join(SplitOn(text, separator), separator) == text
    decreases |text|
  {
    var found := Find(text, separator);
    if found.Some? {
      var rest := text[found.value + |separator|..];
      JoinOfSplit(rest, separator);
      assert SplitOn(text, separator)[1..] == SplitOn(rest, separator);
      assert text == text[..found.value] + text[found.value..found.value + |separator|] + rest;
    }
  }
}
