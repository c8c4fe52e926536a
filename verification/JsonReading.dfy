/** How single JSON values are read, beyond those that a cast wrote. */
module JsonReading {
  import opened Wrappers
  import opened DTypes
  import opened JsonCast
  import opened JsonColumns

  // ---------------------------------------------------------------- numbers

  predicate IsNumber(j: Json) { j.JInt? || j.JFloat? }

  /** The number that a JSON number denotes. */
  function Denotes(j: Json): real
    requires IsNumber(j)
  {
    if j.JInt? then j.i as real else j.x
  }

  /** Equal numbers are read alike by the floating-point types, written as integers or not, and anything else
    * as null. */
  lemma EqualNumbersReadAlike(codec: Codec, a: Json, b: Json, t: FenicDType)
    requires t.FloatType? || t.DoubleType?
    ensures IsNumber(a) && IsNumber(b) && Denotes(a) == Denotes(b) ==> Cast(codec, a, t) == Cast(codec, b, t)
    ensures Cast(codec, a, t) == Null <==> !IsNumber(a)
    ensures Cast(codec, JFloat(0.5), t) == Number(Finite(0.5))
  {
  }

  /** The same for the entries of a vector: one is read as long as all its entries are numbers, and to equal
    * numbers. */
  lemma EqualVectorsReadAlike(codec: Codec, a: seq<Json>, b: seq<Json>, n: nat, model: string)
    requires |a| == |b|
    requires forall k :: 0 <= k < |a| ==> IsNumber(a[k]) && IsNumber(b[k]) && Denotes(a[k]) == Denotes(b[k])
    ensures Cast(codec, JArray(a), EmbeddingType(n, model)) == Cast(codec, JArray(b), EmbeddingType(n, model))
    ensures Cast(codec, JArray(a), EmbeddingType(n, model)) == Null <==> |a| != n
  {
    if |a| == n {
      assert forall k :: 0 <= k < n ==> AsF64(a[k]) == AsF64(b[k]) && AsF64(a[k]).Some?;
      assert IsVector(JArray(a), n) && IsVector(JArray(b), n);
      assert Vector(JArray(a), n) == Vector(JArray(b), n);
    } else {
      assert !IsVector(JArray(a), n) && !IsVector(JArray(b), n);
    }
  }

  /** An integer is read when it is one of 64 bits, and no other value is read as an integer. */
  lemma IntegersAreRead(codec: Codec, j: Json)
    ensures j.JInt? && -0x8000_0000_0000_0000 <= j.i < 0x8000_0000_0000_0000 ==>
              Cast(codec, j, IntegerType) == Whole(j.i)
    ensures !(j.JInt? && -0x8000_0000_0000_0000 <= j.i < 0x8000_0000_0000_0000) ==> Cast(codec, j, IntegerType) == Null
  {
  }

  /** A vector is read exactly from an array of the right length that holds only numbers. */
  lemma VectorsAreRead(codec: Codec, j: Json, n: nat, model: string)
    ensures Cast(codec, j, EmbeddingType(n, model)) != Null
        <==> j.JArray? && |j.items| == n && forall k :: 0 <= k < n ==> IsNumber(j.items[k])
  {
    assert j.JArray? ==> forall k :: 0 <= k < |j.items| ==> (IsNumber(j.items[k]) <==> AsF64(j.items[k]).Some?);
  }

  /** Truth values and arrays are read as what they are, and nothing else is read as one. */
  lemma TruthsAndArraysAreRead(codec: Codec, j: Json, e: FenicDType)
    ensures j.JBool? ==> Cast(codec, j, BooleanType) == Truth(j.b)
    ensures Cast(codec, j, BooleanType) != Null <==> j.JBool?
    ensures Cast(codec, j, ArrayType(e)) != Null <==> j.JArray?
    ensures j.JArray? ==>
              var items := Cast(codec, j, ArrayType(e)).items;
              |items| == |j.items| && forall k :: 0 <= k < |items| ==> items[k] == Cast(codec, j.items[k], e)
  {
  }

  /** Types that the cast from JSON does not implement panic whatever the values, as fields of a struct too;
    * as elements only when there is an array. */
  lemma UnimplementedTargetsPanic(codec: Codec, js: seq<Json>, t: FenicDType, name: string)
    requires t.DateType? || t.TimestampType? || t.MarkdownType? || t.HtmlType? || t.TranscriptType?
             || t.DocumentPathType?
    ensures FromJsonColumn(codec, js, t) == Panicked
    ensures FromJsonColumn(codec, js, StructType([StructField(name, t)])) == Panicked
    ensures FromJsonColumn(codec, js, ArrayType(t)) == Panicked <==> exists k :: 0 <= k < |js| && js[k].JArray?
  {
    assert FieldsPanic(js, [StructField(name, t)]);
    forall k | 0 <= k < |js| && js[k].JArray? ensures Panics(js[k].items, t) {
    }
  }

  // ---------------------------------------------------------------- texts and fields

  /** Read as a text, a string is itself, null is null, and any other value a text of that value. */
  lemma TextsKeepJson(codec: Codec, j: Json)
    ensures j.JString? ==> Cast(codec, j, StringType) == Text(j.s)
    ensures Cast(codec, j, StringType) == Null <==> j == JNull
    ensures !j.JString? && Survives(codec, j) ==> Parsed(codec, Cast(codec, j, StringType)) == Some(j)
    ensures Survives(codec, j) ==> Parsed(codec, Cast(codec, j, JsonType)) == Some(j)
  {
  }

  /** A struct has a member for each field, in order: the cast of the object's property of that name, and of
    * null where there is no such property or no object. */
  lemma {:induction false} FieldsAreRead(codec: Codec, j: Json, fields: seq<StructField>)
    ensures var members := CastFields(codec, j, fields);
            && |members| == |fields|
            && forall k :: 0 <= k < |fields| ==>
                 && members[k].name == fields[k].name
                 && (j.JObject? && fields[k].name in j.entries ==>
                       members[k].value == Cast(codec, j.entries[fields[k].name], fields[k].dataType))
                 && (!j.JObject? || fields[k].name !in j.entries ==>
                       members[k].value == Cast(codec, JNull, fields[k].dataType))
  {
    if fields != [] {
      FieldsAreRead(codec, j, fields[1..]);
    }
  }

  /** Of equally named entries the last one is the object's property. */
  lemma {:induction false} LastEntryCounts(entries: seq<Entry>, k: nat)
    requires k < |entries| && forall i :: k < i < |entries| ==> entries[i].name != entries[k].name
    ensures Get(JObject(Collect(entries)), entries[k].name) == entries[k].value
  {
    if k > 0 {
      assert forall i :: k - 1 < i < |entries[1..]| ==> entries[1..][i] == entries[i + 1];
      LastEntryCounts(entries[1..], k - 1);
      EntryIsCollected(entries[1..], k - 1);
    } else {
      NoEntry(entries[1..], entries[0].name);
    }
  }

  lemma {:induction false} EntryIsCollected(entries: seq<Entry>, k: nat)
    requires k < |entries|
    ensures entries[k].name in Collect(entries)
  {
    if k > 0 {
      EntryIsCollected(entries[1..], k - 1);
    }
  }

  lemma {:induction false} NoEntry(entries: seq<Entry>, name: string)
    requires forall i :: 0 <= i < |entries| ==> entries[i].name != name
    ensures name !in Collect(entries)
  {
    if entries != [] {
      NoEntry(entries[1..], name);
    }
  }

  // ---------------------------------------------------------------- what cannot be written

  /** The value stands in the other one, at any depth. */
  predicate StandsIn(x: Value, v: Value)
    decreases v
  {
    || x == v
    || (v.Items? && exists k :: 0 <= k < |v.items| && StandsIn(x, v.items[k]))
    || (v.Record? && exists k :: 0 <= k < |v.members| && StandsIn(x, v.members[k].value))
  }

  /** A value can be written exactly when no date and no timestamp stands in it. */
  lemma {:induction false} WrittenExactlyWithoutDates(v: Value)
    ensures Converted(v).Ok? <==> forall x :: StandsIn(x, v) ==> !x.Day? && !x.Instant?
    ensures Converted(v).Ok? ==> Converted(v).value == ToJson(v)
    decreases v
  {
    match v {
      case Items(items) =>
        AllSupportedMeans(items);
        forall k | 0 <= k < |items|
          ensures Supported(items[k]) <==> forall x :: StandsIn(x, items[k]) ==> !x.Day? && !x.Instant?
        {
          assert (v decreases to items[k]);
          WrittenExactlyWithoutDates(items[k]);
        }
      case Record(members) =>
        MembersSupportedMeans(members);
        forall k | 0 <= k < |members|
          ensures Supported(members[k].value) <==> forall x :: StandsIn(x, members[k].value) ==> !x.Day? && !x.Instant?
        {
          assert (v decreases to members[k].value);
          WrittenExactlyWithoutDates(members[k].value);
        }
      case _ =>
        assert StandsIn(v, v);
    }
  }

  lemma {:induction false} MembersSupportedMeans(members: seq<Member>)
    ensures MembersSupported(members) <==> forall k :: 0 <= k < |members| ==> Supported(members[k].value)
    decreases |members|
  {
    if members != [] {
      MembersSupportedMeans(members[1..]);
      assert members == [members[0]] + members[1..];
      assert forall k :: 0 <= k < |members[1..]| ==> members[1..][k] == members[k + 1];
    }
  }

  // ---------------------------------------------------------------- several chunks

  /** How many rows come before chunk `i`. */
  function RowsBefore(chunks: seq<Column>, i: nat): nat
    requires i <= |chunks|
  {
    if i == 0 then 0 else RowsBefore(chunks, i - 1) + Len(chunks[i - 1])
  }

  /** The texts of a series are those of its rows, chunk after chunk. */
  lemma {:induction false} TextsFollowChunks(codec: Codec, chunks: seq<Column>, i: nat, k: nat)
    requires AllWellFormed(chunks) && i < |chunks| && k < Len(chunks[i])
    ensures |AllTexts(codec, chunks)| == RowsBefore(chunks, |chunks|)
    ensures RowsBefore(chunks, i) + k < |AllTexts(codec, chunks)|
    ensures AllTexts(codec, chunks)[RowsBefore(chunks, i) + k]
         == if ToJson(At(chunks[i], k)) == JNull then Null else Text(codec.encode(ToJson(At(chunks[i], k))))
    decreases |chunks|
  {
    var n := |chunks| - 1;
    var front := chunks[..n];
    CountOfTexts(codec, front);
    SameRowsBefore(chunks, n, n);
    if i < n {
      TextsFollowChunks(codec, front, i, k);
      SameRowsBefore(chunks, n, i);
    }
  }

  lemma {:induction false} CountOfTexts(codec: Codec, chunks: seq<Column>)
    requires AllWellFormed(chunks)
    ensures |AllTexts(codec, chunks)| == RowsBefore(chunks, |chunks|)
  {
    if chunks != [] {
      CountOfTexts(codec, chunks[..|chunks| - 1]);
      SameRowsBefore(chunks, |chunks| - 1, |chunks| - 1);
    }
  }

  lemma {:induction false} SameRowsBefore(chunks: seq<Column>, n: nat, i: nat)
    requires i <= n <= |chunks|
    ensures RowsBefore(chunks[..n], i) == RowsBefore(chunks, i)
  {
    if i > 0 {
      SameRowsBefore(chunks, n, i - 1);
    }
  }
}
