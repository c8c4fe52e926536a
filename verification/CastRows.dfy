/** What a cast does to each row: the columnar dispatcher refines a cast of single values. */
module CastRows {
  import opened Wrappers
  import opened DTypes
  import opened JsonCast
  import opened JsonColumns
  import opened CastSeries

  /** The storage engine's cast of one value, from one storage type to another. */
  type CellCast = (Value, DataType, DataType) -> Value

  /** The engine casts every row by itself. */
  ghost predicate RowWise(env: Engine, cell: CellCast) {
    forall c: Column, d: DataType :: WellFormed(c) ==> RowWiseAt(env, cell, c, d)
  }

  ghost predicate RowWiseAt(env: Engine, cell: CellCast, c: Column, d: DataType)
    requires WellFormed(c)
  {
    env.cast(c, d).Some? ==>
      var r := env.cast(c, d).value;
      && WellFormed(r) && Len(r) == Len(c)
      && forall i :: 0 <= i < Len(c) ==> At(r, i) == cell(At(c, i), TypeOf(c), d)
  }

  // ---------------------------------------------------------------- rows with what they hide

  /** A row with the rows of its fields, which a null struct hides but keeps. */
  datatype Row = Shown(value: Value) | RowItems(rows: seq<Row>) | RowRecord(valid: bool, fields: seq<RowField>)

  datatype RowField = RowField(name: string, row: Row)

  function RawAt(c: Column, i: nat): Row
    requires WellFormed(c) && i < Len(c)
    decreases c, 1
  {
    match c
    case Scalars(_, rows) => Shown(rows[i])
    case Lists(e, lists) => assert ListsWellFormed(lists, e); RawList(lists[i], e)
    case FixedLists(_, _, _) => Shown(At(c, i))
    case Structs(fields, validity) => RowRecord(validity[i], RawFields(fields, |validity|, i))
  }

  function RawList(list: Option<Column>, e: DataType): Row
    requires ListWellFormed(list, e)
    decreases list, 2
  {
    match list
    case None => Shown(Null)
    case Some(c) => RowItems(AllRaw(c))
  }

  function AllRaw(c: Column): (r: seq<Row>)
    requires WellFormed(c)
    ensures |r| == Len(c)
    decreases c, 2
  {
    seq(Len(c), i requires 0 <= i < Len(c) => RawAt(c, i))
  }

  function RawFields(fields: seq<ColumnField>, n: nat, i: nat): seq<RowField>
    requires FieldsWellFormed(fields, n) && i < n
    decreases fields
  {
    if fields == [] then []
    else [RowField(fields[0].name, RawAt(fields[0].column, i))] + RawFields(fields[1..], n, i)
  }

  /** The row as a reader sees it: a null struct hides its fields. */
  function Visible(row: Row): Value
    decreases row
  {
    match row
    case Shown(v) => v
    case RowItems(rows) => Items(VisibleAll(rows))
    case RowRecord(valid, fields) => if valid then Record(VisibleFields(fields)) else Null
  }

  function VisibleAll(rows: seq<Row>): (r: seq<Value>)
    ensures |r| == |rows| && forall k :: 0 <= k < |rows| ==> r[k] == Visible(rows[k])
    decreases rows
  {
    if rows == [] then [] else [Visible(rows[0])] + VisibleAll(rows[1..])
  }

  function VisibleFields(fields: seq<RowField>): seq<Member>
    decreases fields
  {
    if fields == [] then [] else [Member(fields[0].name, Visible(fields[0].row))] + VisibleFields(fields[1..])
  }

  /** What a reader sees of a row is the row's value. */
  lemma {:induction false} VisibleIsAt(c: Column, i: nat)
    requires WellFormed(c) && i < Len(c)
    ensures Visible(RawAt(c, i)) == At(c, i)
    decreases c, 1
  {
    match c {
      case Lists(e, lists) =>
        assert ListsWellFormed(lists, e) && (c decreases to lists[i]);
        VisibleList(lists[i], e);
      case Structs(fields, validity) =>
        VisibleFieldsAreAt(fields, |validity|, i);
      case _ =>
    }
  }

  lemma {:induction false} VisibleList(list: Option<Column>, e: DataType)
    requires ListWellFormed(list, e)
    ensures Visible(RawList(list, e)) == AtList(list, e)
    decreases list, 2
  {
    match list {
      case None =>
      case Some(c) =>
        forall k | 0 <= k < Len(c) ensures VisibleAll(AllRaw(c))[k] == AllRows(c)[k] {
          VisibleIsAt(c, k);
        }
        assert VisibleAll(AllRaw(c)) == AllRows(c);
    }
  }

  lemma {:induction false} VisibleFieldsAreAt(fields: seq<ColumnField>, n: nat, i: nat)
    requires FieldsWellFormed(fields, n) && i < n
    ensures VisibleFields(RawFields(fields, n, i)) == AtFields(fields, n, i)
    decreases fields
  {
    if fields != [] {
      VisibleIsAt(fields[0].column, i);
      VisibleFieldsAreAt(fields[1..], n, i);
      assert RawFields(fields, n, i)[1..] == RawFields(fields[1..], n, i);
    }
  }

  // ---------------------------------------------------------------- the cast of one row

  /** The cast of one row.  A struct's fields are cast by name, also those that a null struct hides, and
    * fields it does not have are null. */
  function CastRow(codec: Codec, cell: CellCast, row: Row, src: FenicDType, dest: FenicDType): Value
    decreases Size(src) + Size(dest), 0
  {
    if src == dest then Visible(row)
    else if dest.MarkdownType? then
      if src.StringType? then Visible(row) else CastRow(codec, cell, row, src, StringType)
    else if src.MarkdownType? then
      if dest.StringType? then Visible(row) else CastRow(codec, cell, row, StringType, dest)
    else if dest.JsonType? then
      if src.StringType? then ValidText(codec, Visible(row)) else JsonText(codec, ToJson(Visible(row)))
    else if src.JsonType? then FromText(codec, Visible(row), dest)
    else if src.StructType? && dest.StructType? then
      Record(CastMembers(codec, cell, row, src.structFields, dest.structFields))
    else if src.ArrayType? && dest.ArrayType? then
      if row.RowItems? then Items(CastItems(codec, cell, row.rows, src.elementType, dest.elementType)) else Null
    else cell(Visible(row), Canonical(src), EngineTarget(src, dest))
  }

  function EngineTarget(src: FenicDType, dest: FenicDType): DataType {
    if src.EmbeddingType? && dest.ArrayType? then ListOf(Float32) else Canonical(dest)
  }

  function ValidText(codec: Codec, v: Value): Value { if Parsed(codec, v).Some? then v else Null }

  function FromText(codec: Codec, v: Value, t: FenicDType): Value {
    if Parsed(codec, v).Some? then Cast(codec, Parsed(codec, v).value, t) else Null
  }

  function CastItems(codec: Codec, cell: CellCast, rows: seq<Row>, src: FenicDType, dest: FenicDType): (r: seq<Value>)
    ensures |r| == |rows|
    decreases Size(src) + Size(dest), 1
  {
    seq(|rows|, k requires 0 <= k < |rows| => CastRow(codec, cell, rows[k], src, dest))
  }

  function CastMembers(codec: Codec, cell: CellCast, row: Row, src: seq<StructField>, dest: seq<StructField>)
    : seq<Member>
    decreases SizeOfFields(src) + SizeOfFields(dest), |dest| + 1
  {
    if dest == [] then []
    else
      [Member(dest[0].name, CastMember(codec, cell, row, src, dest[0]))]
      + CastMembers(codec, cell, row, src, dest[1..])
  }

  function CastMember(codec: Codec, cell: CellCast, row: Row, src: seq<StructField>, f: StructField): Value
    decreases SizeOfFields(src) + Size(f.dataType), 1
  {
    match LookupType(src, f.name)
    case None => Null
    case Some(t) => CastRow(codec, cell, LookupRow(row, f.name), t, f.dataType)
  }

  /** The last field of a name, hidden or not. */
  function LookupRow(row: Row, name: string): Row {
    if row.RowRecord? then LookupIn(row.fields, name) else Shown(Null)
  }

  function LookupIn(fields: seq<RowField>, name: string): Row {
    if fields == [] then Shown(Null)
    else if HasField(fields[1..], name) then LookupIn(fields[1..], name)
    else if fields[0].name == name then fields[0].row else Shown(Null)
  }

  predicate HasField(fields: seq<RowField>, name: string) {
    fields != [] && (fields[0].name == name || HasField(fields[1..], name))
  }

  // ---------------------------------------------------------------- the refinement

  /** The rows of a cast that gives a column are the casts of the rows. */
  ghost predicate CastsRows(codec: Codec, cell: CellCast, r: Outcome<Column>, c: Column, src: FenicDType,
                            dest: FenicDType)
    requires WellFormed(c)
  {
    r.Done? ==> RowsAre(codec, cell, r.value, c, src, dest)
  }

  ghost predicate RowsAre(codec: Codec, cell: CellCast, r: Column, c: Column, src: FenicDType, dest: FenicDType)
    requires WellFormed(c)
  {
    && WellFormed(r) && Len(r) == Len(c)
    && forall i :: 0 <= i < Len(c) ==> At(r, i) == CastRow(codec, cell, RawAt(c, i), src, dest)
  }

  /** The columns that the refinement is about: all columns of the source's storage type. */
  ghost predicate Given(env: Engine, cell: CellCast, c: Column, t: FenicDType) {
    Sound(env) && RowWise(env, cell) && WellFormed(c) && TypeOf(c) == Canonical(t)
  }

  lemma {:induction false} CastRefinesRows(env: Engine, cell: CellCast, c: Column, src: FenicDType, dest: FenicDType)
    requires Given(env, cell, c, src)
    ensures CastsRows(env.codec, cell, CastColumn(env, c, src, dest), c, src, dest)
    decreases Size(src) + Size(dest), 0, 0
  {
    if src == dest {
      SameRows(env, cell, c, src);
    } else if dest.MarkdownType? {
      if src.StringType? {
        VisibleRows(c);
      } else {
        CastRefinesRows(env, cell, c, src, StringType);
      }
    } else if src.MarkdownType? {
      if dest.StringType? {
        VisibleRows(c);
      } else {
        CastRefinesRows(env, cell, c, StringType, dest);
      }
    } else if dest.JsonType? {
      ToJsonRows(env, cell, c, src);
    } else if src.JsonType? {
      FromJsonRows(env, cell, c, dest);
    } else if src.StructType? && dest.StructType? {
      StructRows(env, cell, c, src, dest);
    } else if src.ArrayType? && dest.ArrayType? {
      ArrayRows(env, cell, c, src, dest);
    } else {
      EngineRows(env, cell, c, src, dest);
    }
  }

  lemma VisibleRows(c: Column)
    requires WellFormed(c)
    ensures forall i :: 0 <= i < Len(c) ==> Visible(RawAt(c, i)) == At(c, i)
  {
    forall i | 0 <= i < Len(c) ensures Visible(RawAt(c, i)) == At(c, i) {
      VisibleIsAt(c, i);
    }
  }

  lemma SameRows(env: Engine, cell: CellCast, c: Column, t: FenicDType)
    requires WellFormed(c)
    ensures CastsRows(env.codec, cell, CastColumn(env, c, t, t), c, t, t)
  {
    VisibleRows(c);
  }

  lemma ToJsonRows(env: Engine, cell: CellCast, c: Column, src: FenicDType)
    requires WellFormed(c) && TypeOf(c) == Canonical(src) && !src.JsonType? && !src.MarkdownType?
    ensures CastsRows(env.codec, cell, CastColumn(env, c, src, JsonType), c, src, JsonType)
  {
    VisibleRows(c);
  }

  lemma FromJsonRows(env: Engine, cell: CellCast, c: Column, dest: FenicDType)
    requires WellFormed(c) && TypeOf(c) == String && !dest.JsonType? && !dest.MarkdownType?
    ensures CastsRows(env.codec, cell, CastColumn(env, c, JsonType, dest), c, JsonType, dest)
  {
    if AllParse(env.codec, c.rows) {
      var js := ParsedRows(env.codec, c.rows);
      BuildRefinesCast(env.codec, js, dest);
      forall i | 0 <= i < Len(c)
        ensures Cast(env.codec, js[i], dest) == CastRow(env.codec, cell, RawAt(c, i), JsonType, dest)
      {
        FromTextRow(env.codec, cell, c.rows[i], dest);
      }
    }
  }

  lemma FromTextRow(codec: Codec, cell: CellCast, v: Value, dest: FenicDType)
    requires !dest.JsonType? && !dest.MarkdownType?
    ensures CastRow(codec, cell, Shown(v), JsonType, dest) == FromText(codec, v, dest)
  {
  }

  lemma EngineRows(env: Engine, cell: CellCast, c: Column, src: FenicDType, dest: FenicDType)
    requires Given(env, cell, c, src)
    requires src != dest && !src.MarkdownType? && !dest.MarkdownType? && !src.JsonType? && !dest.JsonType?
    requires !(src.StructType? && dest.StructType?) && !(src.ArrayType? && dest.ArrayType?)
    ensures CastsRows(env.codec, cell, CastColumn(env, c, src, dest), c, src, dest)
  {
    VisibleRows(c);
    assert RowWiseAt(env, cell, c, EngineTarget(src, dest));
  }

  lemma {:induction false} ArrayRows(env: Engine, cell: CellCast, c: Column, src: FenicDType, dest: FenicDType)
    requires Given(env, cell, c, src) && src != dest && src.ArrayType? && dest.ArrayType?
    ensures CastsRows(env.codec, cell, CastColumn(env, c, src, dest), c, src, dest)
    decreases Size(src.elementType) + Size(dest.elementType), |c.lists| + 2
  {
    var e, e' := src.elementType, dest.elementType;
    var lists := CastLists(env, c.lists, c.element, e, e');
    if lists.Done? {
      ListsAreTyped(env, c.lists, c.element, e, e');
      ListRows(env, cell, c.lists, c.element, e, e');
      var r := Lists(Canonical(e'), lists.value);
      forall i | 0 <= i < Len(c) ensures At(r, i) == CastRow(env.codec, cell, RawAt(c, i), src, dest) {
        assert ListIs(env.codec, cell, c.lists[i], c.element, lists.value[i], e, e');
      }
    }
  }

  ghost predicate ListIs(codec: Codec, cell: CellCast, list: Option<Column>, e: DataType, result: Option<Column>,
                         src: FenicDType, dest: FenicDType) {
    && ListWellFormed(list, e) && ListWellFormed(result, Canonical(dest))
    && AtList(result, Canonical(dest))
       == if list.Some? then Items(CastItems(codec, cell, AllRaw(list.value), src, dest)) else Null
  }

  lemma {:induction false} ListRows(env: Engine, cell: CellCast, lists: seq<Option<Column>>, e: DataType,
                                    src: FenicDType, dest: FenicDType)
    requires Sound(env) && RowWise(env, cell) && e == Canonical(src) && ListsWellFormed(lists, e)
    ensures var r := CastLists(env, lists, e, src, dest);
            r.Done? ==> |r.value| == |lists| && forall k :: 0 <= k < |lists| ==>
                          ListIs(env.codec, cell, lists[k], e, r.value[k], src, dest)
    decreases Size(src) + Size(dest), |lists| + 1
  {
    var r := CastLists(env, lists, e, src, dest);
    if r.Done? && lists != [] {
      assert ListWellFormed(lists[0], e);
      OneListRows(env, cell, lists[0], e, src, dest);
      ListRows(env, cell, lists[1..], e, src, dest);
      var rest := CastLists(env, lists[1..], e, src, dest).value;
      assert r.value == [CastList(env, lists[0], e, src, dest).value] + rest;
      forall k | 1 <= k < |lists| ensures ListIs(env.codec, cell, lists[k], e, r.value[k], src, dest) {
        assert ListIs(env.codec, cell, lists[1..][k - 1], e, rest[k - 1], src, dest);
      }
    }
  }

  lemma {:induction false} OneListRows(env: Engine, cell: CellCast, list: Option<Column>, e: DataType,
                                       src: FenicDType, dest: FenicDType)
    requires Sound(env) && RowWise(env, cell) && e == Canonical(src) && ListWellFormed(list, e)
    ensures var r := CastList(env, list, e, src, dest);
            r.Done? ==> ListIs(env.codec, cell, list, e, r.value, src, dest)
    decreases Size(src) + Size(dest), 1
  {
    if list.Some? {
      InnerRows(env, cell, list, e, src, dest);
    }
  }

  lemma {:induction false} InnerRows(env: Engine, cell: CellCast, list: Option<Column>, e: DataType, src: FenicDType,
                                     dest: FenicDType)
    requires Sound(env) && RowWise(env, cell) && e == Canonical(src) && list.Some? && ListWellFormed(list, e)
    ensures var r := CastColumn(env, list.value, src, dest);
            r.Done? && TypeOf(r.value) == Canonical(dest) ==>
              ListIs(env.codec, cell, list, e, Some(r.value), src, dest)
    decreases Size(src) + Size(dest), 0, 1
  {
    var r := CastColumn(env, list.value, src, dest);
    CastRefinesRows(env, cell, list.value, src, dest);
    if r.Done? && TypeOf(r.value) == Canonical(dest) {
      ListIsCast(env.codec, cell, list, e, r, src, dest);
    }
  }

  lemma ListIsCast(codec: Codec, cell: CellCast, list: Option<Column>, e: DataType, r: Outcome<Column>,
                   src: FenicDType, dest: FenicDType)
    requires list.Some? && r.Done? && ListWellFormed(list, e) && TypeOf(r.value) == Canonical(dest)
    requires CastsRows(codec, cell, r, list.value, src, dest)
    ensures ListIs(codec, cell, list, e, Some(r.value), src, dest)
  {
    AllRowsAreCast(codec, cell, list.value, r.value, src, dest);
  }

  lemma AllRowsAreCast(codec: Codec, cell: CellCast, list: Column, r: Column, src: FenicDType, dest: FenicDType)
    requires WellFormed(list) && RowsAre(codec, cell, r, list, src, dest)
    ensures AllRows(r) == CastItems(codec, cell, AllRaw(list), src, dest)
  {
    var items := AllRaw(list);
    forall k | 0 <= k < |items| ensures AllRows(r)[k] == CastRow(codec, cell, items[k], src, dest) {
      assert items[k] == RawAt(list, k);
    }
    ItemsAreCast(codec, cell, items, AllRows(r), src, dest);
  }

  lemma ItemsAreCast(codec: Codec, cell: CellCast, items: seq<Row>, results: seq<Value>, src: FenicDType,
                     dest: FenicDType)
    requires |results| == |items|
    requires forall k :: 0 <= k < |items| ==> results[k] == CastRow(codec, cell, items[k], src, dest)
    ensures results == CastItems(codec, cell, items, src, dest)
  {
  }

  lemma {:induction false} StructRows(env: Engine, cell: CellCast, c: Column, src: FenicDType, dest: FenicDType)
    requires Given(env, cell, c, src) && src != dest && src.StructType? && dest.StructType?
    ensures CastsRows(env.codec, cell, CastColumn(env, c, src, dest), c, src, dest)
    decreases SizeOfFields(src.structFields) + SizeOfFields(dest.structFields), |dest.structFields| + 2
  {
    var n := |c.validity|;
    var fields := CastFieldsTo(env, c.fields, n, src.structFields, dest.structFields);
    if fields.Done? {
      FieldsAreTyped(env, c.fields, n, src.structFields, dest.structFields);
      forall i | 0 <= i < n
        ensures AtFields(fields.value, n, i)
             == CastMembers(env.codec, cell, RawAt(c, i), src.structFields, dest.structFields)
      {
        MemberRows(env, cell, c, src.structFields, dest.structFields, i);
      }
    }
  }

  lemma {:induction false} MemberRows(env: Engine, cell: CellCast, c: Column, src: seq<StructField>,
                                      dest: seq<StructField>, i: nat)
    requires Given(env, cell, c, StructType(src)) && i < Len(c)
    ensures var r, n := CastFieldsTo(env, c.fields, |c.validity|, src, dest), |c.validity|;
            r.Done? && FieldsWellFormed(r.value, n) ==>
              AtFields(r.value, n, i) == CastMembers(env.codec, cell, RawAt(c, i), src, dest)
    decreases SizeOfFields(src) + SizeOfFields(dest), |dest| + 1
  {
    var r, n := CastFieldsTo(env, c.fields, |c.validity|, src, dest), |c.validity|;
    if r.Done? && FieldsWellFormed(r.value, n) && dest != [] {
      OneMemberRows(env, cell, c, src, dest[0], i);
      assert r.value[1..] == CastFieldsTo(env, c.fields, n, src, dest[1..]).value;
      MemberRows(env, cell, c, src, dest[1..], i);
    }
  }

  lemma {:induction false} OneMemberRows(env: Engine, cell: CellCast, c: Column, src: seq<StructField>,
                                         f: StructField, i: nat)
    requires Given(env, cell, c, StructType(src)) && i < Len(c)
    ensures var r := CastField(env, c.fields, |c.validity|, src, f);
            r.Done? ==> WellFormed(r.value) && Len(r.value) == Len(c)
                        && At(r.value, i) == CastMember(env.codec, cell, RawAt(c, i), src, f)
    decreases SizeOfFields(src) + Size(f.dataType), 1
  {
    var n := |c.validity|;
    LookupsAgree(c.fields, n, src, f.name);
    if LookupType(src, f.name).None? {
      FullNullTyped(n, Canonical(f.dataType));
    } else {
      var column, t := LookupColumn(c.fields, f.name).value, LookupType(src, f.name).value;
      FoundRow(c.fields, n, f.name, i);
      CastRefinesRows(env, cell, column, t, f.dataType);
      assert RawAt(column, i) == LookupRow(RawAt(c, i), f.name);
      VisibleIsAt(column, i);
    }
  }

  /** The column of a name holds the rows of that name, whether the struct hides them or not. */
  lemma {:induction false} FoundRow(fields: seq<ColumnField>, n: nat, name: string, i: nat)
    requires FieldsWellFormed(fields, n) && i < n && LookupColumn(fields, name).Some?
    ensures var column := LookupColumn(fields, name).value;
            WellFormed(column) && Len(column) == n && RawAt(column, i) == LookupIn(RawFields(fields, n, i), name)
    ensures HasField(RawFields(fields, n, i), name)
  {
    assert RawFields(fields, n, i)[1..] == RawFields(fields[1..], n, i);
    if LookupColumn(fields[1..], name).Some? {
      FoundRow(fields[1..], n, name, i);
    } else {
      NoField(fields[1..], n, name, i);
    }
  }

  lemma {:induction false} NoField(fields: seq<ColumnField>, n: nat, name: string, i: nat)
    requires FieldsWellFormed(fields, n) && i < n && LookupColumn(fields, name).None?
    ensures !HasField(RawFields(fields, n, i), name)
  {
    if fields != [] {
      assert RawFields(fields, n, i)[1..] == RawFields(fields[1..], n, i);
      NoField(fields[1..], n, name, i);
    }
  }

  // ---------------------------------------------------------------- what a null struct hides

  /** A null struct stays null only when nothing is cast: any other target makes it a valid struct. */
  lemma NullStructStaysNullExactlyWhen(codec: Codec, cell: CellCast, row: Row, src: seq<StructField>,
                                       dest: seq<StructField>)
    requires row.RowRecord? && !row.valid
    ensures Visible(row) == Null
    ensures CastRow(codec, cell, row, StructType(src), StructType(dest)) == Null <==> src == dest
  {
  }

  /** Each field of the target that the source has is of the source's type. */
  predicate FieldsKept(src: seq<StructField>, dest: seq<StructField>) {
    forall k :: 0 <= k < |dest| ==> FieldKept(src, dest[k])
  }

  predicate FieldKept(src: seq<StructField>, f: StructField) {
    LookupType(src, f.name).Some? ==> LookupType(src, f.name).value == f.dataType
  }

  predicate AllNull(members: seq<Member>) {
    forall k :: 0 <= k < |members| ==> members[k].value == Null
  }

  /** Under the names that both types have, the struct hides only nulls. */
  predicate HidesNulls(row: Row, src: seq<StructField>, dest: seq<StructField>) {
    forall k :: 0 <= k < |dest| ==> HidesNull(row, src, dest[k])
  }

  predicate HidesNull(row: Row, src: seq<StructField>, f: StructField) {
    LookupType(src, f.name).Some? ==> Visible(LookupRow(row, f.name)) == Null
  }

  /** The valid struct that a null struct becomes shows nothing but nulls exactly when only nulls were
    * hidden under the names it keeps; every other hidden row comes back. */
  lemma HiddenRowsComeBackExactlyWhen(codec: Codec, cell: CellCast, row: Row, src: seq<StructField>,
                                      dest: seq<StructField>)
    requires FieldsKept(src, dest)
    ensures AllNull(CastMembers(codec, cell, row, src, dest)) <==> HidesNulls(row, src, dest)
  {
    MembersAreCast(codec, cell, row, src, dest);
    forall k | 0 <= k < |dest|
      ensures CastMember(codec, cell, row, src, dest[k]) == Null <==> HidesNull(row, src, dest[k])
    {
      assert FieldKept(src, dest[k]);
    }
  }

  lemma {:induction false} MembersAreCast(codec: Codec, cell: CellCast, row: Row, src: seq<StructField>,
                                          dest: seq<StructField>)
    ensures var members := CastMembers(codec, cell, row, src, dest);
            && |members| == |dest|
            && forall k :: 0 <= k < |dest| ==>
                 members[k] == Member(dest[k].name, CastMember(codec, cell, row, src, dest[k]))
    decreases |dest|
  {
    if dest != [] {
      MembersAreCast(codec, cell, row, src, dest[1..]);
    }
  }

  const HIDING: Column := Structs([ColumnField("a", Scalars(Int64, [Whole(1)]))], [false])

  const ONE_FIELD: seq<StructField> := [StructField("a", IntegerType)]

  const TWO_FIELDS: seq<StructField> := [StructField("a", IntegerType), StructField("b", IntegerType)]

  /** A column whose only row is null; with a second field in the type the row is valid and shows a one. */
  lemma HiddenRowComesBack(env: Engine)
    ensures WellFormed(HIDING) && TypeOf(HIDING) == Canonical(StructType(ONE_FIELD)) && Len(HIDING) == 1
    ensures At(HIDING, 0) == Null
    ensures var r := CastColumn(env, HIDING, StructType(ONE_FIELD), StructType(TWO_FIELDS));
            && r.Done? && WellFormed(r.value) && Len(r.value) == 1
            && At(r.value, 0) == Record([Member("a", Whole(1)), Member("b", Null)])
  {
    var a, b := Scalars(Int64, [Whole(1)]), FullNull(1, Int64);
    HidingFields(env);
    TwoFieldsCast(env, HIDING.fields, ONE_FIELD, TWO_FIELDS[0], TWO_FIELDS[1], a, b);
    assert seq(1, k => true) == [true];
    TwoFieldsShown(a, b);
  }

  lemma HidingFields(env: Engine)
    ensures FieldsWellFormed(HIDING.fields, 1)
    ensures CastField(env, HIDING.fields, 1, ONE_FIELD, TWO_FIELDS[0]) == Done(Scalars(Int64, [Whole(1)]))
    ensures CastField(env, HIDING.fields, 1, ONE_FIELD, TWO_FIELDS[1]) == Done(FullNull(1, Int64))
  {
    assert LookupType(ONE_FIELD[1..], "a").None? && LookupColumn(HIDING.fields[1..], "a").None?;
    assert LookupType(ONE_FIELD[1..], "b").None? && LookupColumn(HIDING.fields[1..], "b").None?;
  }

  lemma TwoFieldsCast(env: Engine, fields: seq<ColumnField>, src: seq<StructField>, f: StructField, g: StructField,
                      a: Column, b: Column)
    requires FieldsWellFormed(fields, 1)
    requires CastField(env, fields, 1, src, f) == Done(a) && CastField(env, fields, 1, src, g) == Done(b)
    ensures CastFieldsTo(env, fields, 1, src, [f, g]) == Done([ColumnField(f.name, a), ColumnField(g.name, b)])
  {
    var first, second := ColumnField(f.name, a), ColumnField(g.name, b);
    var none: seq<ColumnField> := [];
    assert [f, g][1..] == [g] && [g][1..] == [];
    assert [second] + none == [second] && [first] + [second] == [first, second];
    assert CastFieldsTo(env, fields, 1, src, [g]) == Done([second] + none);
  }

  lemma TwoFieldsShown(a: Column, b: Column)
    requires WellFormed(a) && WellFormed(b) && Len(a) == 1 && Len(b) == 1
    ensures var c := Structs([ColumnField("a", a), ColumnField("b", b)], [true]);
            WellFormed(c) && At(c, 0) == Record([Member("a", At(a, 0)), Member("b", At(b, 0))])
  {
    var fields := [ColumnField("a", a), ColumnField("b", b)];
    assert fields[1..] == [fields[1]] && fields[1..][1..] == [];
    assert FieldsWellFormed(fields[1..][1..], 1);
    assert FieldsWellFormed(fields[1..], 1);
    assert AtFields(fields[1..][1..], 1, 0) == [];
    assert AtFields(fields[1..], 1, 0) == [Member("b", At(b, 0))];
  }

  /** Nothing but nulls is hidden, at any depth. */
  predicate HidesNothing(row: Row)
    decreases row
  {
    match row
    case Shown(_) => true
    case RowItems(rows) => forall k :: 0 <= k < |rows| ==> HidesNothing(rows[k])
    case RowRecord(valid, fields) => FieldsHideNothing(fields, valid)
  }

  predicate FieldsHideNothing(fields: seq<RowField>, valid: bool)
    decreases fields
  {
    fields != [] ==>
      && HidesNothing(fields[0].row) && (!valid ==> Visible(fields[0].row) == Null)
      && FieldsHideNothing(fields[1..], valid)
  }

  /** The row of a value, with nothing hidden. */
  function RowOf(v: Value): Row
    decreases v
  {
    match v
    case Items(items) => RowItems(RowsOf(items))
    case Record(members) => RowRecord(true, FieldsOf(members))
    case _ => Shown(v)
  }

  function RowsOf(vs: seq<Value>): (r: seq<Row>)
    ensures |r| == |vs| && forall k :: 0 <= k < |vs| ==> r[k] == RowOf(vs[k])
    decreases vs
  {
    if vs == [] then [] else [RowOf(vs[0])] + RowsOf(vs[1..])
  }

  function FieldsOf(members: seq<Member>): seq<RowField>
    decreases members
  {
    if members == [] then [] else [RowField(members[0].name, RowOf(members[0].value))] + FieldsOf(members[1..])
  }

  /** The rows that a column of this storage type has. */
  predicate RowFits(row: Row, d: DataType)
    decreases d
  {
    match d
    case ListOf(e) =>
      row == Shown(Null) || (row.RowItems? && forall k :: 0 <= k < |row.rows| ==> RowFits(row.rows[k], e))
    case StructOf(fields) => row == Shown(Null) || (row.RowRecord? && FieldsFit(row.fields, fields))
    case _ => row.Shown?
  }

  predicate FieldsFit(fields: seq<RowField>, types: seq<Field>)
    decreases types
  {
    if types == [] then fields == []
    else
      && fields != [] && fields[0].name == types[0].name && RowFits(fields[0].row, types[0].dtype)
      && FieldsFit(fields[1..], types[1..])
  }

  lemma {:induction false} RawFits(c: Column, i: nat)
    requires WellFormed(c) && i < Len(c)
    ensures RowFits(RawAt(c, i), TypeOf(c))
    decreases c, 1
  {
    match c {
      case Scalars(d, rows) =>
      case Lists(e, lists) =>
        assert ListsWellFormed(lists, e) && (c decreases to lists[i]);
        RawListFits(lists[i], e);
      case FixedLists(_, _, _) =>
      case Structs(fields, validity) =>
        RawFieldsFit(fields, |validity|, i);
    }
  }

  lemma {:induction false} RawListFits(list: Option<Column>, e: DataType)
    requires ListWellFormed(list, e)
    ensures RowFits(RawList(list, e), ListOf(e))
    decreases list, 2
  {
    match list {
      case None =>
      case Some(c) =>
        forall k | 0 <= k < Len(c) ensures RowFits(AllRaw(c)[k], e) {
          RawFits(c, k);
        }
    }
  }

  lemma {:induction false} RawFieldsFit(fields: seq<ColumnField>, n: nat, i: nat)
    requires FieldsWellFormed(fields, n) && i < n
    ensures FieldsFit(RawFields(fields, n, i), FieldTypes(fields))
    decreases fields
  {
    if fields != [] {
      RawFits(fields[0].column, i);
      RawFieldsFit(fields[1..], n, i);
      assert RawFields(fields, n, i)[1..] == RawFields(fields[1..], n, i);
      assert FieldTypes(fields)[1..] == FieldTypes(fields[1..]);
    }
  }

  lemma {:induction false} RowOfIsVisible(v: Value)
    ensures Visible(RowOf(v)) == v
    decreases v
  {
    match v {
      case Items(items) =>
        forall k | 0 <= k < |items| ensures VisibleAll(RowsOf(items))[k] == items[k] {
          assert (v decreases to items[k]);
          RowOfIsVisible(items[k]);
        }
        assert VisibleAll(RowsOf(items)) == items;
      case Record(members) =>
        FieldsOfAreVisible(members);
      case _ =>
    }
  }

  lemma {:induction false} FieldsOfAreVisible(members: seq<Member>)
    ensures VisibleFields(FieldsOf(members)) == members
    decreases members
  {
    if members != [] {
      RowOfIsVisible(members[0].value);
      FieldsOfAreVisible(members[1..]);
      assert FieldsOf(members)[1..] == FieldsOf(members[1..]);
    }
  }

  /** Where nothing is hidden, the cast of a row is the cast of its value. */
  lemma {:induction false} VisibleSuffices(codec: Codec, cell: CellCast, row: Row, src: FenicDType, dest: FenicDType)
    requires HidesNothing(row) && RowFits(row, Canonical(src))
    ensures CastRow(codec, cell, row, src, dest) == CastRow(codec, cell, RowOf(Visible(row)), src, dest)
    decreases Size(src) + Size(dest), 0
  {
    RowOfIsVisible(Visible(row));
    if src == dest {
    } else if dest.MarkdownType? {
      if !src.StringType? {
        VisibleSuffices(codec, cell, row, src, StringType);
      }
    } else if src.MarkdownType? {
      if !dest.StringType? {
        VisibleSuffices(codec, cell, row, StringType, dest);
      }
    } else if !dest.JsonType? && src.StructType? && dest.StructType? {
      MembersSuffice(codec, cell, row, src.structFields, dest.structFields);
    } else if !dest.JsonType? && src.ArrayType? && dest.ArrayType? && row.RowItems? {
      ItemsSuffice(codec, cell, row.rows, src.elementType, dest.elementType);
    }
  }

  lemma {:induction false} ItemsSuffice(codec: Codec, cell: CellCast, rows: seq<Row>, src: FenicDType, dest: FenicDType)
    requires forall k :: 0 <= k < |rows| ==> HidesNothing(rows[k]) && RowFits(rows[k], Canonical(src))
    ensures CastItems(codec, cell, rows, src, dest) == CastItems(codec, cell, RowsOf(VisibleAll(rows)), src, dest)
    decreases Size(src) + Size(dest), 1
  {
    forall k | 0 <= k < |rows|
      ensures CastRow(codec, cell, rows[k], src, dest) == CastRow(codec, cell, RowOf(Visible(rows[k])), src, dest)
    {
      VisibleSuffices(codec, cell, rows[k], src, dest);
    }
  }

  lemma {:induction false} MembersSuffice(codec: Codec, cell: CellCast, row: Row, src: seq<StructField>,
                                          dest: seq<StructField>)
    requires HidesNothing(row) && RowFits(row, StructOf(CanonicalFields(src)))
    ensures CastMembers(codec, cell, row, src, dest) == CastMembers(codec, cell, RowOf(Visible(row)), src, dest)
    decreases SizeOfFields(src) + SizeOfFields(dest), |dest| + 1
  {
    if dest != [] {
      var t := LookupType(src, dest[0].name);
      if t.Some? {
        FieldSuffices(row, src, dest[0].name);
        VisibleSuffices(codec, cell, LookupRow(row, dest[0].name), t.value, dest[0].dataType);
      }
      MembersSuffice(codec, cell, row, src, dest[1..]);
    }
  }

  /** The field of a row that hides nothing, and the same field of the row's value. */
  lemma FieldSuffices(row: Row, src: seq<StructField>, name: string)
    requires HidesNothing(row) && RowFits(row, StructOf(CanonicalFields(src))) && LookupType(src, name).Some?
    ensures var field := LookupRow(row, name);
            && HidesNothing(field) && RowFits(field, Canonical(LookupType(src, name).value))
            && LookupRow(RowOf(Visible(row)), name) == RowOf(Visible(field))
  {
    if row.RowRecord? {
      LookupFits(row.fields, row.valid, src, name);
    } else {
      NullFits(Canonical(LookupType(src, name).value));
    }
  }

  lemma NullFits(d: DataType)
    ensures RowFits(Shown(Null), d)
  {
  }

  lemma {:induction false} LookupFits(fields: seq<RowField>, valid: bool, src: seq<StructField>, name: string)
    requires FieldsHideNothing(fields, valid) && FieldsFit(fields, CanonicalFields(src))
    ensures HasField(fields, name) <==> LookupType(src, name).Some?
    ensures HasField(FieldsOf(VisibleFields(fields)), name) <==> HasField(fields, name)
    ensures HasField(fields, name) ==>
              var field := LookupIn(fields, name);
              && HidesNothing(field) && RowFits(field, Canonical(LookupType(src, name).value))
              && (!valid ==> Visible(field) == Null)
              && LookupIn(FieldsOf(VisibleFields(fields)), name) == RowOf(Visible(field))
  {
    if fields != [] {
      assert CanonicalFields(src)[1..] == CanonicalFields(src[1..]);
      LookupFits(fields[1..], valid, src[1..], name);
      assert VisibleFields(fields)[1..] == VisibleFields(fields[1..]);
      assert FieldsOf(VisibleFields(fields))[1..] == FieldsOf(VisibleFields(fields[1..]));
    }
  }

  /** Columns that hide nothing are cast value by value. */
  lemma CastRefinesValues(env: Engine, cell: CellCast, c: Column, src: FenicDType, dest: FenicDType, i: nat)
    requires Given(env, cell, c, src) && i < Len(c) && HidesNothing(RawAt(c, i))
    ensures var r := CastColumn(env, c, src, dest);
            r.Done? ==> WellFormed(r.value) && Len(r.value) == Len(c)
                        && At(r.value, i) == CastRow(env.codec, cell, RowOf(At(c, i)), src, dest)
  {
    CastRefinesRows(env, cell, c, src, dest);
    RawFits(c, i);
    VisibleSuffices(env.codec, cell, RawAt(c, i), src, dest);
    VisibleIsAt(c, i);
  }
}
