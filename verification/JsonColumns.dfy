/** The columnar side of the JSON casts: builders, the flat buffer of vectors, and the row converter. */
module JsonColumns {
  import opened Wrappers
  import opened DTypes
  import opened JsonCast

  /** What a cast gives: a result, an error, or a panic. */
  datatype Outcome<+T> = Done(value: T) | Failed | Panicked

  // ---------------------------------------------------------------- from JSON

  function FromJsonColumn(codec: Codec, js: seq<Json>, t: FenicDType): Outcome<Column> {
    if Panics(js, t) then Panicked else Done(BuildColumn(codec, js, t))
  }

  /** One row of the vector buffer.  Numbers are pushed until one is missing; then they are taken back
    * and zeros fill the row. */
  method AppendVector(values: seq<Value>, validity: seq<bool>, j: Json, n: nat)
    returns (newValues: seq<Value>, newValidity: seq<bool>)
    ensures newValues == values + Slot(j, n) && newValidity == validity + [IsVector(j, n)]
  {
    newValues := values;
    if !j.JArray? || |j.items| != n {
      return values + Zeros(n), validity + [false];
    }
    var allValid := true;
    for k := 0 to n
      invariant allValid && |newValues| == |values| + k && newValues[..|values|] == values
      invariant forall i :: 0 <= i < k ==>
                  AsF64(j.items[i]).Some? && newValues[|values| + i] == Number(Finite(AsF64(j.items[i]).value))
    {
      if AsF64(j.items[k]).None? {
        allValid := false;
        break;
      }
      newValues := newValues + [Number(Finite(AsF64(j.items[k]).value))];
    }
    if allValid {
      assert newValues == values + Vector(j, n);
      newValidity := validity + [true];
    } else {
      newValues := newValues[..|values|] + Zeros(n);
      newValidity := validity + [false];
    }
  }

  method CastToVectors(codec: Codec, js: seq<Json>, t: FenicDType) returns (column: Column)
    requires t.EmbeddingType?
    ensures column == BuildColumn(codec, js, t)
  {
    var n := t.dimensions;
    var values: seq<Value>, validity: seq<bool> := [], [];
    for i := 0 to |js|
      invariant values == Buffer(js[..i], n)
      invariant |validity| == i && forall k :: 0 <= k < i ==> validity[k] == IsVector(js[k], n)
    {
      values, validity := AppendVector(values, validity, js[i], n);
      assert js[..i + 1][..i] == js[..i];
    }
    assert js[..|js|] == js;
    column := FixedLists(n, values, validity);
  }

  method CastToLists(codec: Codec, js: seq<Json>, e: FenicDType) returns (r: Outcome<Column>)
    ensures r == FromJsonColumn(codec, js, ArrayType(e))
    decreases e, 1
  {
    var lists: seq<Option<Column>> := [];
    for i := 0 to |js|
      invariant |lists| == i && forall k :: 0 <= k < i ==> lists[k] == BuildLists(codec, js, e)[k]
      invariant forall k :: 0 <= k < i && js[k].JArray? ==> !Panics(js[k].items, e)
    {
      if js[i].JArray? {
        var inner := CastJsonToColumn(codec, js[i].items, e);
        if inner.Panicked? {
          return Panicked;
        }
        lists := lists + [Some(inner.value)];
      } else {
        lists := lists + [None];
      }
    }
    assert lists == BuildLists(codec, js, e);
    r := Done(Lists(Canonical(e), lists));
  }

  method CastToScalars(codec: Codec, js: seq<Json>, t: FenicDType) returns (column: Column)
    requires HasBuilder(t) && !IsNested(t)
    ensures column == BuildColumn(codec, js, t)
  {
    var rows: seq<Value> := [];
    for i := 0 to |js|
      invariant |rows| == i && forall k :: 0 <= k < i ==> rows[k] == Cast(codec, js[k], t)
    {
      rows := rows + [Cast(codec, js[i], t)];
    }
    assert rows == CastAll(codec, js, t);
    column := Scalars(Canonical(t), rows);
  }

  lemma FieldStep(codec: Codec, js: seq<Json>, fields: seq<StructField>, i: nat, built: seq<ColumnField>)
    requires i < |fields|
    requires built + BuildFields(codec, js, fields[i..]) == BuildFields(codec, js, fields)
    ensures var f := fields[i];
            (built + [ColumnField(f.name, BuildColumn(codec, Project(js, f.name), f.dataType))])
            + BuildFields(codec, js, fields[i + 1..]) == BuildFields(codec, js, fields)
    ensures FieldsPanic(js, fields[i..])
        <==> Panics(Project(js, fields[i].name), fields[i].dataType) || FieldsPanic(js, fields[i + 1..])
  {
    assert fields[i..][1..] == fields[i + 1..];
  }

  method CastToStructs(codec: Codec, js: seq<Json>, fields: seq<StructField>) returns (r: Outcome<Column>)
    ensures r == FromJsonColumn(codec, js, StructType(fields))
    decreases fields, 1
  {
    var built: seq<ColumnField> := [];
    assert fields[0..] == fields;
    for i := 0 to |fields|
      invariant built + BuildFields(codec, js, fields[i..]) == BuildFields(codec, js, fields)
      invariant FieldsPanic(js, fields[i..]) <==> FieldsPanic(js, fields)
    {
      FieldStep(codec, js, fields, i, built);
      assert (fields decreases to fields[i]);
      var column := CastJsonToColumn(codec, Project(js, fields[i].name), fields[i].dataType);
      if column.Panicked? {
        return Panicked;
      }
      built := built + [ColumnField(fields[i].name, column.value)];
    }
    assert built == BuildFields(codec, js, fields) && !FieldsPanic(js, fields) by {
      assert fields[|fields|..] == [];
    }
    assert seq(|js|, k => true) == BuildColumn(codec, js, StructType(fields)).validity;
    r := Done(Structs(built, seq(|js|, k => true)));
  }

  /** The cast of parsed JSON values to any type. */
  method CastJsonToColumn(codec: Codec, js: seq<Json>, t: FenicDType) returns (r: Outcome<Column>)
    ensures r == FromJsonColumn(codec, js, t)
    decreases t, 0
  {
    if t.ArrayType? {
      r := CastToLists(codec, js, t.elementType);
    } else if t.EmbeddingType? {
      var column := CastToVectors(codec, js, t);
      r := Done(column);
    } else if t.StructType? {
      r := CastToStructs(codec, js, t.structFields);
    } else if HasBuilder(t) {
      var column := CastToScalars(codec, js, t);
      r := Done(column);
    } else {
      r := Panicked;
    }
  }

  /** The value of a JSON text; a null row is the JSON null. */
  function Parsed(codec: Codec, row: Value): Option<Json> {
    if row.Text? then codec.decode(row.s) else Some(JNull)
  }

  predicate AllParse(codec: Codec, rows: seq<Value>) {
    forall k :: 0 <= k < |rows| ==> Parsed(codec, rows[k]).Some?
  }

  function ParsedRows(codec: Codec, rows: seq<Value>): (r: seq<Json>)
    requires AllParse(codec, rows)
    ensures |r| == |rows|
  {
    seq(|rows|, k requires 0 <= k < |rows| => Parsed(codec, rows[k]).value)
  }

  /** A column of JSON texts cast to a type.  Text that does not parse panics. */
  function CastFromJson(codec: Codec, rows: seq<Value>, t: FenicDType): Outcome<Column> {
    if AllParse(codec, rows) then FromJsonColumn(codec, ParsedRows(codec, rows), t) else Panicked
  }

  method CastJsonToFenicDType(codec: Codec, rows: seq<Value>, t: FenicDType) returns (r: Outcome<Column>)
    ensures r == CastFromJson(codec, rows, t)
  {
    var js: seq<Json> := [];
    for i := 0 to |rows|
      invariant |js| == i && forall k :: 0 <= k < i ==> Parsed(codec, rows[k]) == Some(js[k])
    {
      var parsed := Parsed(codec, rows[i]);
      if parsed.None? {
        return Panicked;
      }
      js := js + [parsed.value];
    }
    assert js == ParsedRows(codec, rows);
    r := CastJsonToColumn(codec, js, t);
  }

  /** Text that is not JSON becomes null; the rest stays as written.  What comes out always parses. */
  function Validated(codec: Codec, rows: seq<Value>): (r: seq<Value>)
    ensures |r| == |rows| && AllParse(codec, r)
  {
    seq(|rows|, k requires 0 <= k < |rows| => if Parsed(codec, rows[k]).Some? then rows[k] else Null)
  }

  /** Validation changes nothing exactly when every text is JSON already, so a second one changes nothing. */
  lemma ValidatedExactlyWhen(codec: Codec, rows: seq<Value>)
    ensures Validated(codec, rows) == rows <==> AllParse(codec, rows)
    ensures Validated(codec, Validated(codec, rows)) == Validated(codec, rows)
  {
    if !AllParse(codec, rows) {
      var k :| 0 <= k < |rows| && Parsed(codec, rows[k]).None?;
      assert Validated(codec, rows)[k] != rows[k];
    }
  }

  /** Text validated on the way in never meets the parse failure on the way out: its cast to a type is
    * that of the parsed values, with JSON's null where the text was not JSON. */
  lemma ValidatedTextIsCast(codec: Codec, rows: seq<Value>, t: FenicDType)
    requires forall k :: 0 <= k < |rows| ==> IsScalarOf(rows[k], String)
    ensures var js := ParsedRows(codec, Validated(codec, rows));
            && CastFromJson(codec, Validated(codec, rows), t) == FromJsonColumn(codec, js, t)
            && (Portable(t) ==> CastFromJson(codec, Validated(codec, rows), t).Done?)
            && forall k :: 0 <= k < |rows| ==>
                 js[k] == if Parsed(codec, rows[k]).Some? then Parsed(codec, rows[k]).value else JNull
  {
    var js := ParsedRows(codec, Validated(codec, rows));
    if Portable(t) {
      PortableNeverPanics(js, t);
    }
  }

  // ---------------------------------------------------------------- to JSON

  function Converted(v: Value): Result<Json> {
    if Supported(v) then Ok(ToJson(v)) else Err("unsupported type")
  }

  lemma {:induction false} AllSupportedMeans(vs: seq<Value>)
    ensures AllSupported(vs) <==> forall k :: 0 <= k < |vs| ==> Supported(vs[k])
    decreases |vs|
  {
    if vs != [] {
      AllSupportedMeans(vs[1..]);
      assert vs == [vs[0]] + vs[1..];
      assert forall k :: 0 <= k < |vs[1..]| ==> vs[1..][k] == vs[k + 1];
    }
  }

  lemma StructStep(fields: seq<ColumnField>, n: nat, row: nat, i: nat, entries: seq<Entry>)
    requires i < |fields| && FieldsWellFormed(fields[i..], n) && row < n
    ensures FieldsWellFormed(fields[i + 1..], n) && WellFormed(fields[i].column) && Len(fields[i].column) == n
    ensures var v := At(fields[i].column, row);
            && entries + Entries(AtFields(fields[i..], n, row))
               == (entries + [Entry(fields[i].name, ToJson(v))]) + Entries(AtFields(fields[i + 1..], n, row))
            && (MembersSupported(AtFields(fields[i..], n, row))
                <==> Supported(v) && MembersSupported(AtFields(fields[i + 1..], n, row)))
  {
    assert fields[i..][1..] == fields[i + 1..];
    var members := AtFields(fields[i..], n, row);
    assert members[1..] == AtFields(fields[i + 1..], n, row);
  }

  /** The row converter is the conversion of the row's value. */
  method Convert(c: Column, row: nat) returns (r: Result<Json>)
    requires WellFormed(c) && row < Len(c)
    ensures r == Converted(At(c, row))
    decreases c, 1
  {
    match c {
      case Scalars(_, rows) =>
        r := Converted(rows[row]);
      case Lists(e, lists) =>
        assert ListsWellFormed(lists, e);
        assert (c decreases to lists[row]);
        match lists[row] {
          case None =>
            r := Ok(JNull);
          case Some(list) =>
            r := ConvertList(list);
        }
      case FixedLists(n, flat, validity) =>
        if validity[row] {
          r := ConvertFixedSizeList(n, flat, |validity|, row);
        } else {
          r := Ok(JNull);
        }
      case Structs(fields, validity) =>
        if validity[row] {
          r := ConvertStruct(fields, |validity|, row);
        } else {
          r := Ok(JNull);
        }
    }
  }

  method ConvertStruct(fields: seq<ColumnField>, n: nat, row: nat) returns (r: Result<Json>)
    requires FieldsWellFormed(fields, n) && row < n
    ensures r == Converted(Record(AtFields(fields, n, row)))
    decreases fields
  {
    var entries: seq<Entry> := [];
    assert fields[0..] == fields;
    for i := 0 to |fields|
      invariant FieldsWellFormed(fields[i..], n)
      invariant entries + Entries(AtFields(fields[i..], n, row)) == Entries(AtFields(fields, n, row))
      invariant MembersSupported(AtFields(fields[i..], n, row)) <==> MembersSupported(AtFields(fields, n, row))
    {
      StructStep(fields, n, row, i, entries);
      assert (fields decreases to fields[i]);
      var value := Convert(fields[i].column, row);
      if value.Err? {
        return value;
      }
      entries := entries + [Entry(fields[i].name, value.value)];
    }
    assert entries == Entries(AtFields(fields, n, row)) by {
      assert fields[|fields|..] == [];
    }
    r := Ok(JObject(Collect(entries)));
  }

  method ConvertList(c: Column) returns (r: Result<Json>)
    requires WellFormed(c)
    ensures r == Converted(Items(AllRows(c)))
    decreases c, 2
  {
    var values: seq<Json> := [];
    AllSupportedMeans(AllRows(c));
    for i := 0 to Len(c)
      invariant |values| == i
      invariant forall k :: 0 <= k < i ==> Supported(AllRows(c)[k]) && values[k] == ToJson(AllRows(c)[k])
    {
      var value := Convert(c, i);
      assert AllRows(c)[i] == At(c, i);
      if value.Err? {
        return value;
      }
      values := values + [value.value];
    }
    assert values == ToJsonAll(AllRows(c));
    r := Ok(JArray(values));
  }

  method ConvertFixedSizeList(n: nat, flat: seq<Value>, rows: nat, row: nat) returns (r: Result<Json>)
    requires |flat| == rows * n && row < rows && forall k :: 0 <= k < |flat| ==> IsScalarOf(flat[k], Float32)
    ensures 0 <= row * n <= (row + 1) * n <= |flat|
    ensures r == Converted(Items(flat[row * n..(row + 1) * n]))
  {
    RowInFlat(row, rows, n);
    var start := row * n;
    var items := flat[start..start + n];
    var values: seq<Json> := [];
    for i := 0 to n
      invariant |values| == i && forall k :: 0 <= k < i ==> values[k] == ToJson(items[k])
    {
      assert items[i] == flat[start + i];
      values := values + [ToJson(flat[start + i])];
    }
    AllSupportedMeans(items);
    assert values == ToJsonAll(items);
    r := Ok(JArray(values));
  }

  predicate RowsSupported(c: Column)
    requires WellFormed(c)
  {
    forall k :: 0 <= k < Len(c) ==> Supported(At(c, k))
  }

  /** The JSON text of each row, null for a row whose JSON is null. */
  function Texts(codec: Codec, c: Column): (r: seq<Value>)
    requires WellFormed(c)
    ensures |r| == Len(c)
  {
    seq(Len(c), k requires 0 <= k < Len(c) => JsonText(codec, ToJson(At(c, k))))
  }

  /** A column cast to JSON text. */
  function ToJsonColumn(codec: Codec, c: Column): Outcome<Column>
    requires WellFormed(c)
  {
    if RowsSupported(c) then Done(Scalars(String, Texts(codec, c))) else Failed
  }

  predicate AllWellFormed(chunks: seq<Column>) {
    forall k :: 0 <= k < |chunks| ==> WellFormed(chunks[k])
  }

  predicate AllRowsSupported(chunks: seq<Column>)
    requires AllWellFormed(chunks)
  {
    forall k :: 0 <= k < |chunks| ==> RowsSupported(chunks[k])
  }

  /** The texts of all chunks, one chunk after the other. */
  function AllTexts(codec: Codec, chunks: seq<Column>): seq<Value>
    requires AllWellFormed(chunks)
  {
    if chunks == [] then []
    else AllTexts(codec, chunks[..|chunks| - 1]) + Texts(codec, chunks[|chunks| - 1])
  }

  function ToJsonChunks(codec: Codec, chunks: seq<Column>): Outcome<Column>
    requires AllWellFormed(chunks)
  {
    if AllRowsSupported(chunks) then Done(Scalars(String, AllTexts(codec, chunks))) else Failed
  }

  /** A series of one chunk is that chunk's column. */
  lemma OneChunk(codec: Codec, c: Column)
    requires WellFormed(c)
    ensures ToJsonChunks(codec, [c]) == ToJsonColumn(codec, c)
  {
    assert [c][..0] == [] && [c][0] == c;
    assert AllTexts(codec, [c]) == AllTexts(codec, [c][..0]) + Texts(codec, c) == Texts(codec, c);
    assert AllRowsSupported([c]) <==> RowsSupported([c][0]);
  }

  /** Converts one chunk, or stops at the first row that has no conversion. */
  method ConvertChunk(codec: Codec, c: Column) returns (r: Outcome<seq<Value>>)
    requires WellFormed(c)
    ensures r == if RowsSupported(c) then Done(Texts(codec, c)) else Failed
  {
    var rows: seq<Value> := [];
    for i := 0 to Len(c)
      invariant |rows| == i
      invariant forall k :: 0 <= k < i ==> Supported(At(c, k)) && rows[k] == JsonText(codec, ToJson(At(c, k)))
    {
      var j := Convert(c, i);
      if j.Err? {
        return Failed;
      }
      rows := rows + [JsonText(codec, j.value)];
    }
    assert rows == Texts(codec, c);
    r := Done(rows);
  }

  /** The cast of a series, chunk by chunk. */
  method CastFenicDTypeToJson(codec: Codec, chunks: seq<Column>) returns (r: Outcome<Column>)
    requires AllWellFormed(chunks)
    ensures r == ToJsonChunks(codec, chunks)
    ensures |chunks| == 1 ==> r == ToJsonColumn(codec, chunks[0])
  {
    if |chunks| == 1 {
      assert chunks == [chunks[0]];
      OneChunk(codec, chunks[0]);
    }
    var rows: seq<Value> := [];
    assert chunks[..0] == [];
    for i := 0 to |chunks|
      invariant AllRowsSupported(chunks[..i]) && rows == AllTexts(codec, chunks[..i])
    {
      var chunk := ConvertChunk(codec, chunks[i]);
      if chunk.Failed? {
        return Failed;
      }
      assert chunks[..i + 1][..i] == chunks[..i];
      rows := rows + chunk.value;
    }
    assert chunks[..|chunks|] == chunks;
    r := Done(Scalars(String, rows));
  }

  // ---------------------------------------------------------------- the round trip of a column

  lemma {:induction false} PortableIsSupported(v: Value, t: FenicDType)
    requires Portable(t) && Conforms(v, Canonical(t))
    ensures Supported(v)
    decreases t
  {
    match t {
      case ArrayType(e) =>
        if v.Items? {
          forall k | 0 <= k < |v.items| ensures Supported(v.items[k]) {
            PortableIsSupported(v.items[k], e);
          }
          AllSupportedMeans(v.items);
        }
      case EmbeddingType(_, _) =>
        if v.Items? {
          AllSupportedMeans(v.items);
        }
      case StructType(fields) =>
        if v.Record? {
          PortableMembersSupported(v.members, fields);
        }
      case _ =>
    }
  }

  lemma {:induction false} PortableMembersSupported(members: seq<Member>, fields: seq<StructField>)
    requires AllPortable(fields) && MembersConform(members, CanonicalFields(fields))
    ensures MembersSupported(members)
    decreases fields
  {
    if fields != [] {
      assert CanonicalFields(fields)[1..] == CanonicalFields(fields[1..]);
      PortableIsSupported(members[0].value, fields[0].dataType);
      PortableMembersSupported(members[1..], fields[1..]);
    }
  }

  /** The texts of the column's own rows are read back; nothing is asked of other values. */
  predicate RowsSurvive(codec: Codec, c: Column)
    requires WellFormed(c)
  {
    forall i :: 0 <= i < Len(c) && ToJson(At(c, i)) != JNull ==> Survives(codec, ToJson(At(c, i)))
  }

  /** Casting a column to JSON text and back always succeeds and gives, in every row, the normal form. */
  lemma ColumnRoundTrip(codec: Codec, c: Column, t: FenicDType)
    requires Portable(t) && WellFormed(c) && TypeOf(c) == Canonical(t) && RowsSurvive(codec, c)
    ensures ToJsonColumn(codec, c).Done?
    ensures var back := CastFromJson(codec, ToJsonColumn(codec, c).value.rows, t);
            && back.Done? && WellFormed(back.value) && TypeOf(back.value) == TypeOf(c)
            && Len(back.value) == Len(c)
            && forall i :: 0 <= i < Len(c) ==> At(back.value, i) == Normal(codec, At(c, i), t)
  {
    forall i | 0 <= i < Len(c) ensures Supported(At(c, i)) {
      RowsConform(c, i);
      PortableIsSupported(At(c, i), t);
    }
    var rows := ToJsonColumn(codec, c).value.rows;
    forall i | 0 <= i < |rows| ensures Parsed(codec, rows[i]) == Some(ToJson(At(c, i))) {
      assert rows[i] == JsonText(codec, ToJson(At(c, i)));
    }
    var js := ParsedRows(codec, rows);
    PortableNeverPanics(js, t);
    BuildRefinesCast(codec, js, t);
    forall i | 0 <= i < Len(c) ensures Cast(codec, js[i], t) == Normal(codec, At(c, i), t) {
      RowsConform(c, i);
      ValueRoundTrip(codec, At(c, i), t);
    }
  }

  // ---------------------------------------------------------------- codecs for the law

  function IndexOf(js: seq<Json>, j: Json): (k: nat)
    requires j in js
    ensures k < |js| && js[k] == j
  {
    if js[0] == j then 0 else 1 + IndexOf(js[1..], j)
  }

  function Tally(n: nat): (s: string)
    ensures |s| == n
  {
    seq(n, k => '.')
  }

  /** A codec that writes each of these values as its place among them. */
  function CodecOf(js: seq<Json>): Codec {
    Codec(j => if j in js then Tally(IndexOf(js, j)) else "",
          s => if |s| < |js| then Some(js[|s|]) else None)
  }

  /** Every column has a codec that its rows survive. */
  lemma EveryColumnHasACodec(c: Column)
    requires WellFormed(c)
    ensures RowsSurvive(CodecOf(ToJsonAll(AllRows(c))), c)
  {
    var js := ToJsonAll(AllRows(c));
    forall i | 0 <= i < Len(c) ensures Survives(CodecOf(js), ToJson(At(c, i))) {
      assert js[i] == ToJson(AllRows(c)[i]) && AllRows(c)[i] == At(c, i);
    }
  }
}
