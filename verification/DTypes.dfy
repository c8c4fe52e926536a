/** The type language of the cast engine, and columns with the rows they stand for. */
module DTypes {
  import opened Wrappers

  // ---------------------------------------------------------------- types

  datatype FenicDType =
    | StringType | IntegerType | FloatType | DoubleType | BooleanType | DateType | TimestampType
    | ArrayType(elementType: FenicDType)
    | StructType(structFields: seq<StructField>)
    | EmbeddingType(dimensions: nat, embeddingModel: string)
    | MarkdownType | HtmlType | JsonType
    | TranscriptType(transcriptFormat: Option<string>) | DocumentPathType(pathFormat: Option<string>)

  datatype StructField = StructField(name: string, dataType: FenicDType)

  datatype DataType =
    | String | Int64 | Float32 | Float64 | Boolean | Date | Datetime
    | ListOf(inner: DataType)
    | ArrayOf(width: nat)
    | StructOf(fields: seq<Field>)

  datatype Field = Field(name: string, dtype: DataType)

  /** The storage type of a logical type.  The elements of a fixed-size array are 32-bit floats. */
  function Canonical(t: FenicDType): DataType {
    match t
    case IntegerType => Int64
    case FloatType => Float32
    case DoubleType => Float64
    case BooleanType => Boolean
    case DateType => Date
    case TimestampType => Datetime
    case ArrayType(e) => ListOf(Canonical(e))
    case StructType(fields) => StructOf(CanonicalFields(fields))
    case EmbeddingType(dimensions, _) => ArrayOf(dimensions)
    case _ => String
  }

  function CanonicalFields(fields: seq<StructField>): (r: seq<Field>)
    ensures |r| == |fields|
  {
    if fields == [] then []
    else [Field(fields[0].name, Canonical(fields[0].dataType))] + CanonicalFields(fields[1..])
  }

  // ---------------------------------------------------------------- values

  datatype Float = Finite(x: real) | NonFinite

  /** One row of a column. */
  datatype Value =
    | Null | Text(s: string) | Whole(i: int) | Number(f: Float) | Truth(b: bool) | Day(d: int) | Instant(t: int)
    | Items(items: seq<Value>)
    | Record(members: seq<Member>)

  datatype Member = Member(name: string, value: Value)

  predicate IsInt64(i: int) { -0x8000_0000_0000_0000 <= i < 0x8000_0000_0000_0000 }

  predicate IsScalarOf(v: Value, d: DataType) {
    match v
    case Null => true
    case Text(_) => d == String
    case Whole(i) => d == Int64 && IsInt64(i)
    case Number(_) => d == Float32 || d == Float64
    case Truth(_) => d == Boolean
    case Day(_) => d == Date
    case Instant(_) => d == Datetime
    case _ => false
  }

  /** The value can stand in a column of this type. */
  predicate Conforms(v: Value, d: DataType)
    decreases d
  {
    match d
    case ListOf(e) => v == Null || (v.Items? && forall k :: 0 <= k < |v.items| ==> Conforms(v.items[k], e))
    case ArrayOf(n) =>
      v == Null || (v.Items? && |v.items| == n && forall k :: 0 <= k < n ==> IsScalarOf(v.items[k], Float32))
    case StructOf(fields) => v == Null || (v.Record? && MembersConform(v.members, fields))
    case _ => IsScalarOf(v, d)
  }

  predicate MembersConform(members: seq<Member>, fields: seq<Field>)
    decreases fields
  {
    if fields == [] then members == []
    else
      && members != [] && members[0].name == fields[0].name && Conforms(members[0].value, fields[0].dtype)
      && MembersConform(members[1..], fields[1..])
  }

  // ---------------------------------------------------------------- columns

  /** Lists hold a column per row; fixed-size lists one flat buffer with `width` entries per row; structs
    * a column per field.  `validity` marks the rows that are not null. */
  datatype Column =
    | Scalars(scalarType: DataType, rows: seq<Value>)
    | Lists(element: DataType, lists: seq<Option<Column>>)
    | FixedLists(width: nat, flat: seq<Value>, validity: seq<bool>)
    | Structs(fields: seq<ColumnField>, validity: seq<bool>)

  datatype ColumnField = ColumnField(name: string, column: Column)

  function Len(c: Column): nat {
    match c
    case Scalars(_, rows) => |rows|
    case Lists(_, lists) => |lists|
    case FixedLists(_, _, validity) => |validity|
    case Structs(_, validity) => |validity|
  }

  function TypeOf(c: Column): DataType {
    match c
    case Scalars(d, _) => d
    case Lists(e, _) => ListOf(e)
    case FixedLists(n, _, _) => ArrayOf(n)
    case Structs(fields, _) => StructOf(FieldTypes(fields))
  }

  function FieldTypes(fields: seq<ColumnField>): (r: seq<Field>)
    ensures |r| == |fields|
  {
    if fields == [] then [] else [Field(fields[0].name, TypeOf(fields[0].column))] + FieldTypes(fields[1..])
  }

  predicate IsScalarType(d: DataType) { !d.ListOf? && !d.ArrayOf? && !d.StructOf? }

  /** The buffers fit together. */
  predicate WellFormed(c: Column) {
    match c
    case Scalars(d, rows) => IsScalarType(d) && forall k :: 0 <= k < |rows| ==> IsScalarOf(rows[k], d)
    case Lists(e, lists) => ListsWellFormed(lists, e)
    case FixedLists(n, flat, validity) =>
      |flat| == |validity| * n && forall k :: 0 <= k < |flat| ==> IsScalarOf(flat[k], Float32)
    case Structs(fields, validity) => FieldsWellFormed(fields, |validity|)
  }

  predicate ListsWellFormed(lists: seq<Option<Column>>, e: DataType) {
    forall k :: 0 <= k < |lists| ==> ListWellFormed(lists[k], e)
  }

  predicate ListWellFormed(list: Option<Column>, e: DataType) {
    match list
    case None => true
    case Some(c) => WellFormed(c) && TypeOf(c) == e
  }

  predicate FieldsWellFormed(fields: seq<ColumnField>, n: nat) {
    fields == [] || (WellFormed(fields[0].column) && Len(fields[0].column) == n && FieldsWellFormed(fields[1..], n))
  }

  lemma RowInFlat(i: nat, rows: nat, n: nat)
    requires i < rows
    ensures 0 <= i * n <= (i + 1) * n <= rows * n && (i + 1) * n == i * n + n
  {
  }

  /** Row `i` of a column. */
  function At(c: Column, i: nat): Value
    requires WellFormed(c) && i < Len(c)
    decreases c, 1
  {
    match c
    case Scalars(_, rows) => rows[i]
    case Lists(e, lists) => assert ListsWellFormed(lists, e); AtList(lists[i], e)
    case FixedLists(n, flat, validity) =>
      RowInFlat(i, |validity|, n);
      if validity[i] then Items(flat[i * n..(i + 1) * n]) else Null
    case Structs(fields, validity) => if validity[i] then Record(AtFields(fields, |validity|, i)) else Null
  }

  function AtList(list: Option<Column>, e: DataType): Value
    requires ListWellFormed(list, e)
    decreases list, 2
  {
    match list
    case None => Null
    case Some(c) => Items(AllRows(c))
  }

  /** The rows of a column. */
  function AllRows(c: Column): seq<Value>
    requires WellFormed(c)
    decreases c, 2
  {
    seq(Len(c), i requires 0 <= i < Len(c) => At(c, i))
  }

  function AtFields(fields: seq<ColumnField>, n: nat, i: nat): seq<Member>
    requires FieldsWellFormed(fields, n) && i < n
    decreases fields
  {
    if fields == [] then []
    else [Member(fields[0].name, At(fields[0].column, i))] + AtFields(fields[1..], n, i)
  }

  /** The rows of a column conform to its type. */
  lemma {:induction false} RowsConform(c: Column, i: nat)
    requires WellFormed(c) && i < Len(c)
    ensures Conforms(At(c, i), TypeOf(c))
    decreases c, 1
  {
    match c {
      case Scalars(d, rows) =>
      case Lists(e, lists) =>
        assert ListWellFormed(lists[i], e);
        assert (c decreases to lists[i]);
        ListRowConforms(lists[i], e);
      case FixedLists(n, flat, validity) =>
        RowInFlat(i, |validity|, n);
      case Structs(fields, validity) =>
        FieldRowsConform(fields, |validity|, i);
    }
  }

  lemma {:induction false} ListRowConforms(list: Option<Column>, e: DataType)
    requires ListWellFormed(list, e)
    ensures Conforms(AtList(list, e), ListOf(e))
    decreases list, 2
  {
    match list {
      case None =>
      case Some(c) =>
        forall k | 0 <= k < Len(c) ensures Conforms(AllRows(c)[k], e) {
          RowsConform(c, k);
        }
    }
  }

  lemma {:induction false} FieldRowsConform(fields: seq<ColumnField>, n: nat, i: nat)
    requires FieldsWellFormed(fields, n) && i < n
    ensures MembersConform(AtFields(fields, n, i), FieldTypes(fields))
    decreases fields
  {
    if fields != [] {
      RowsConform(fields[0].column, i);
      FieldRowsConform(fields[1..], n, i);
      assert AtFields(fields, n, i)[1..] == AtFields(fields[1..], n, i);
      assert FieldTypes(fields)[1..] == FieldTypes(fields[1..]);
    }
  }

  // ---------------------------------------------------------------- what a type's storage holds

  predicate IsTextual(t: FenicDType) {
    t.StringType? || t.MarkdownType? || t.HtmlType? || t.JsonType? || t.TranscriptType? || t.DocumentPathType?
  }

  /** Each type stores its own kind of single values, and every type stores nulls. */
  lemma StorageHoldsOwnValues(t: FenicDType, v: Value)
    requires !v.Items? && !v.Record?
    ensures Conforms(v, Canonical(t))
        <==> || v.Null?
             || (v.Text? && IsTextual(t))
             || (v.Whole? && t.IntegerType? && -0x8000_0000_0000_0000 <= v.i < 0x8000_0000_0000_0000)
             || (v.Number? && (t.FloatType? || t.DoubleType?))
             || (v.Truth? && t.BooleanType?)
             || (v.Day? && t.DateType?)
             || (v.Instant? && t.TimestampType?)
  {
  }

  /** Arrays are lists of their elements' storage, embeddings have their width, and the two kinds of floats
    * differ. */
  lemma StorageOfLists(t: FenicDType, e: FenicDType, n: nat)
    ensures Canonical(t) == ListOf(Canonical(e)) <==> t.ArrayType? && Canonical(t.elementType) == Canonical(e)
    ensures Canonical(t) == ArrayOf(n) <==> t.EmbeddingType? && t.dimensions == n
    ensures Canonical(FloatType) == Float32 && Canonical(DoubleType) == Float64
  {
  }

  /** A struct stores its fields under their names, in order. */
  lemma {:induction false} StorageOfFields(fields: seq<StructField>, k: nat)
    requires k < |fields|
    ensures CanonicalFields(fields)[k] == Field(fields[k].name, Canonical(fields[k].dataType))
    ensures Canonical(StructType(fields)).StructOf? && Canonical(StructType(fields)).fields == CanonicalFields(fields)
  {
    if k > 0 {
      StorageOfFields(fields[1..], k - 1);
    }
  }
}
