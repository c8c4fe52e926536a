/** The dispatcher of all casts, by source and target type. */
module CastSeries {
  import opened Wrappers
  import opened DTypes
  import opened JsonCast
  import opened JsonColumns

  /** The text encoding of JSON, and the storage engine's own casts, which may fail. */
  datatype Engine = Engine(codec: Codec, cast: (Column, DataType) -> Option<Column>)

  ghost predicate Sound(env: Engine) {
    forall c: Column, d: DataType :: WellFormed(c) ==> SoundAt(env, c, d)
  }

  predicate SoundAt(env: Engine, c: Column, d: DataType) {
    match env.cast(c, d)
    case None => true
    case Some(r) => WellFormed(r) && Len(r) == Len(c) && TypeOf(r) == d
  }

  function ByEngine(env: Engine, c: Column, d: DataType): Outcome<Column> {
    match env.cast(c, d)
    case None => Failed
    case Some(r) => Done(r)
  }

  /** The measure under which the dispatcher terminates: a Markdown type is sent on as a string type. */
  function Size(t: FenicDType): (r: nat)
    ensures r >= 1
  {
    match t
    case ArrayType(e) => 1 + Size(e)
    case StructType(fields) => 1 + SizeOfFields(fields)
    case MarkdownType => 2
    case _ => 1
  }

  function SizeOfFields(fields: seq<StructField>): nat {
    if fields == [] then 0 else Size(fields[0].dataType) + SizeOfFields(fields[1..])
  }

  /** The type of the last field of a name. */
  function LookupType(fields: seq<StructField>, name: string): (r: Option<FenicDType>)
    ensures r.Some? ==> Size(r.value) <= SizeOfFields(fields)
  {
    if fields == [] then None
    else
      var later := LookupType(fields[1..], name);
      if later.Some? then later else if fields[0].name == name then Some(fields[0].dataType) else None
  }

  function LookupColumn(fields: seq<ColumnField>, name: string): Option<Column> {
    if fields == [] then None
    else
      var later := LookupColumn(fields[1..], name);
      if later.Some? then later else if fields[0].name == name then Some(fields[0].column) else None
  }

  lemma {:induction false} FoundColumnFits(fields: seq<ColumnField>, n: nat, name: string)
    requires FieldsWellFormed(fields, n) && LookupColumn(fields, name).Some?
    ensures WellFormed(LookupColumn(fields, name).value) && Len(LookupColumn(fields, name).value) == n
  {
    if LookupColumn(fields[1..], name).Some? {
      FoundColumnFits(fields[1..], n, name);
    }
  }

  /** A column of nulls. */
  function FullNull(n: nat, d: DataType): Column
    decreases d
  {
    match d
    case ListOf(e) => Lists(e, seq(n, k => None))
    case ArrayOf(w) => FixedLists(w, Zeros(n * w), seq(n, k => false))
    case StructOf(fields) => Structs(NullFields(n, fields), seq(n, k => false))
    case _ => Scalars(d, seq(n, k => Null))
  }

  function NullFields(n: nat, fields: seq<Field>): seq<ColumnField>
    decreases fields
  {
    if fields == [] then []
    else [ColumnField(fields[0].name, FullNull(n, fields[0].dtype))] + NullFields(n, fields[1..])
  }

  // ---------------------------------------------------------------- the dispatcher

  function CastColumn(env: Engine, c: Column, src: FenicDType, dest: FenicDType): Outcome<Column>
    requires WellFormed(c)
    decreases Size(src) + Size(dest), 0
  {
    if src == dest then Done(c)
    else if dest.MarkdownType? then
      if src.StringType? then Done(c) else CastColumn(env, c, src, StringType)
    else if src.MarkdownType? then
      if dest.StringType? then Done(c) else CastColumn(env, c, StringType, dest)
    else if dest.JsonType? then
      if src.StringType? then StringToJson(env, c) else ToJsonColumn(env.codec, c)
    else if src.JsonType? then
      if TypeOf(c) == String then CastFromJson(env.codec, c.rows, dest) else Failed
    else if src.StructType? && dest.StructType? then StructToStruct(env, c, src.structFields, dest.structFields)
    else if src.StructType? then Panicked
    else if src.ArrayType? && dest.ArrayType? then ArrayToArray(env, c, src.elementType, dest.elementType)
    else if src.ArrayType? && dest.EmbeddingType? then ArrayToEmbedding(env, c, dest.dimensions)
    else if src.EmbeddingType? && dest.ArrayType? then ByEngine(env, c, ListOf(Float32))
    else if src.ArrayType? || src.EmbeddingType? || NotImplemented(src) || NotImplemented(dest) then Panicked
    else ByEngine(env, c, Canonical(dest))
  }

  predicate NotImplemented(t: FenicDType) { t.HtmlType? || t.TranscriptType? || t.DocumentPathType? }

  function StringToJson(env: Engine, c: Column): Outcome<Column> {
    if c.Scalars? && c.scalarType == String then Done(Scalars(String, Validated(env.codec, c.rows))) else Failed
  }

  function ArrayToEmbedding(env: Engine, c: Column, dimensions: nat): Outcome<Column> {
    if TypeOf(c) == ListOf(Float32) || TypeOf(c) == ListOf(Float64) then ByEngine(env, c, ArrayOf(dimensions))
    else Panicked
  }

  function StructToStruct(env: Engine, c: Column, src: seq<StructField>, dest: seq<StructField>): Outcome<Column>
    requires WellFormed(c)
    decreases SizeOfFields(src) + SizeOfFields(dest), |dest| + 2
  {
    if !c.Structs? then Failed
    else
      FromFields(CastFieldsTo(env, c.fields, |c.validity|, src, dest), |c.validity|)
  }

  function FromFields(cast: Outcome<seq<ColumnField>>, n: nat): Outcome<Column> {
    match cast
    case Done(fields) => Done(Structs(fields, seq(n, k => true)))
    case Failed => Failed
    case Panicked => Panicked
  }

  /** The target's fields in order, up to the first that fails. */
  function CastFieldsTo(env: Engine, fields: seq<ColumnField>, n: nat, src: seq<StructField>, dest: seq<StructField>)
    : Outcome<seq<ColumnField>>
    requires FieldsWellFormed(fields, n)
    decreases SizeOfFields(src) + SizeOfFields(dest), |dest| + 1
  {
    if dest == [] then Done([])
    else
      First(Named(dest[0].name, CastField(env, fields, n, src, dest[0])), CastFieldsTo(env, fields, n, src, dest[1..]))
  }

  function Named(name: string, cast: Outcome<Column>): Outcome<ColumnField> {
    match cast
    case Done(column) => Done(ColumnField(name, column))
    case Failed => Failed
    case Panicked => Panicked
  }

  /** The first failure counts, and the later casts are not done. */
  function First<T>(x: Outcome<T>, rest: Outcome<seq<T>>): Outcome<seq<T>> {
    match x
    case Done(y) => if rest.Done? then Done([y] + rest.value) else rest
    case Failed => Failed
    case Panicked => Panicked
  }

  /** A field that the source has is cast; one that it does not have is null. */
  function CastField(env: Engine, fields: seq<ColumnField>, n: nat, src: seq<StructField>, f: StructField)
    : Outcome<Column>
    requires FieldsWellFormed(fields, n)
    decreases SizeOfFields(src) + Size(f.dataType), 1
  {
    match LookupColumn(fields, f.name)
    case None => Done(FullNull(n, Canonical(f.dataType)))
    case Some(column) =>
      FoundColumnFits(fields, n, f.name);
      var t := LookupType(src, f.name);
      if t.None? then Panicked
      else if t.value == f.dataType then Done(column)
      else CastColumn(env, column, t.value, f.dataType)
  }

  function ArrayToArray(env: Engine, c: Column, src: FenicDType, dest: FenicDType): Outcome<Column>
    requires WellFormed(c)
    decreases Size(src) + Size(dest), if c.Lists? then |c.lists| + 2 else 0
  {
    if src == dest then Done(c)
    else if !c.Lists? then Failed
    else
      FromLists(CastLists(env, c.lists, c.element, src, dest), dest)
  }

  function FromLists(cast: Outcome<seq<Option<Column>>>, dest: FenicDType): Outcome<Column> {
    match cast
    case Done(lists) => Done(Lists(Canonical(dest), lists))
    case Failed => Failed
    case Panicked => Panicked
  }

  /** The lists one by one; the builder takes only lists of its own element type. */
  function CastLists(env: Engine, lists: seq<Option<Column>>, e: DataType, src: FenicDType, dest: FenicDType)
    : Outcome<seq<Option<Column>>>
    requires ListsWellFormed(lists, e)
    decreases Size(src) + Size(dest), |lists| + 1
  {
    if lists == [] then Done([])
    else
      assert ListWellFormed(lists[0], e);
      First(CastList(env, lists[0], e, src, dest), CastLists(env, lists[1..], e, src, dest))
  }

  function CastList(env: Engine, list: Option<Column>, e: DataType, src: FenicDType, dest: FenicDType)
    : Outcome<Option<Column>>
    requires ListWellFormed(list, e)
    decreases Size(src) + Size(dest), 1
  {
    match list
    case None => Done(None)
    case Some(inner) =>
      match CastColumn(env, inner, src, dest)
      case Failed => Failed
      case Panicked => Panicked
      case Done(cast) => if TypeOf(cast) == Canonical(dest) then Done(Some(cast)) else Failed
  }

  // ---------------------------------------------------------------- the loops

  function Append<T>(built: seq<T>, rest: Outcome<seq<T>>): Outcome<seq<T>> {
    match rest
    case Done(xs) => Done(built + xs)
    case Failed => Failed
    case Panicked => Panicked
  }

  lemma AppendNothing<T>(built: seq<T>, rest: Outcome<seq<T>>)
    ensures Append([], rest) == rest && Append(built, Done([])) == Done(built)
  {
    assert rest.Done? ==> [] + rest.value == rest.value;
    assert built + [] == built;
  }

  lemma AppendStep<T>(built: seq<T>, x: Outcome<T>, rest: Outcome<seq<T>>)
    ensures x.Done? ==> Append(built, First(x, rest)) == Append(built + [x.value], rest)
    ensures x.Failed? ==> Append(built, First(x, rest)) == Failed
    ensures x.Panicked? ==> Append(built, First(x, rest)) == Panicked
  {
    if x.Done? && rest.Done? {
      assert built + ([x.value] + rest.value) == (built + [x.value]) + rest.value;
    }
  }

  method CastAllFields(env: Engine, fields: seq<ColumnField>, n: nat, src: seq<StructField>, dest: seq<StructField>)
    returns (r: Outcome<seq<ColumnField>>)
    requires FieldsWellFormed(fields, n)
    ensures r == CastFieldsTo(env, fields, n, src, dest)
  {
    var built: seq<ColumnField>, rest := [], dest;
    AppendNothing(built, CastFieldsTo(env, fields, n, src, dest));
    while rest != []
      invariant Append(built, CastFieldsTo(env, fields, n, src, rest)) == CastFieldsTo(env, fields, n, src, dest)
      decreases |rest|
    {
      var field := Named(rest[0].name, CastField(env, fields, n, src, rest[0]));
      AppendStep(built, field, CastFieldsTo(env, fields, n, src, rest[1..]));
      if field.Failed? {
        return Failed;
      }
      if field.Panicked? {
        return Panicked;
      }
      built, rest := built + [field.value], rest[1..];
    }
    AppendNothing(built, CastFieldsTo(env, fields, n, src, dest));
    r := Done(built);
  }

  method CastStructToStruct(env: Engine, c: Column, src: seq<StructField>, dest: seq<StructField>)
    returns (r: Outcome<Column>)
    requires WellFormed(c)
    ensures r == StructToStruct(env, c, src, dest)
  {
    if !c.Structs? {
      r := Failed;
    } else {
      var fields := CastAllFields(env, c.fields, |c.validity|, src, dest);
      r := FromFields(fields, |c.validity|);
    }
  }

  method CastAllLists(env: Engine, lists: seq<Option<Column>>, e: DataType, src: FenicDType, dest: FenicDType)
    returns (r: Outcome<seq<Option<Column>>>)
    requires ListsWellFormed(lists, e)
    ensures r == CastLists(env, lists, e, src, dest)
  {
    var built: seq<Option<Column>>, rest := [], lists;
    AppendNothing(built, CastLists(env, lists, e, src, dest));
    while rest != []
      invariant ListsWellFormed(rest, e)
      invariant Append(built, CastLists(env, rest, e, src, dest)) == CastLists(env, lists, e, src, dest)
      decreases |rest|
    {
      assert ListWellFormed(rest[0], e) && ListsWellFormed(rest[1..], e);
      var list := CastList(env, rest[0], e, src, dest);
      AppendStep(built, list, CastLists(env, rest[1..], e, src, dest));
      if list.Failed? {
        return Failed;
      }
      if list.Panicked? {
        return Panicked;
      }
      built, rest := built + [list.value], rest[1..];
    }
    AppendNothing(built, CastLists(env, lists, e, src, dest));
    r := Done(built);
  }

  method CastArrayToArray(env: Engine, c: Column, src: FenicDType, dest: FenicDType) returns (r: Outcome<Column>)
    requires WellFormed(c)
    ensures r == ArrayToArray(env, c, src, dest)
  {
    if src == dest {
      r := Done(c);
    } else if !c.Lists? {
      r := Failed;
    } else {
      var lists := CastAllLists(env, c.lists, c.element, src, dest);
      r := FromLists(lists, dest);
    }
  }

  // ---------------------------------------------------------------- type soundness

  /** The storage type a cast really gives: an embedding cast to any array is a list of 32-bit floats. */
  function ResultType(src: FenicDType, dest: FenicDType): DataType
    decreases Size(src) + Size(dest), 0
  {
    if src == dest then Canonical(dest)
    else if src.EmbeddingType? && dest.ArrayType? then ListOf(Float32)
    else if src.StructType? && dest.StructType? then StructOf(ResultFields(src.structFields, dest.structFields))
    else Canonical(dest)
  }

  function ResultFields(src: seq<StructField>, dest: seq<StructField>): (r: seq<Field>)
    ensures |r| == |dest|
    decreases SizeOfFields(src) + SizeOfFields(dest), |dest| + 1
  {
    if dest == [] then []
    else
      var t := LookupType(src, dest[0].name);
      var d := if t.Some? then ResultType(t.value, dest[0].dataType) else Canonical(dest[0].dataType);
      [Field(dest[0].name, d)] + ResultFields(src, dest[1..])
  }

  /** No embedding is cast to an array of anything but 32-bit floats. */
  predicate KeepsType(src: FenicDType, dest: FenicDType)
    decreases Size(src) + Size(dest), 0
  {
    && (src.EmbeddingType? && dest.ArrayType? ==> dest.elementType == FloatType)
    && (src != dest && src.StructType? && dest.StructType? ==> FieldsKeepType(src.structFields, dest.structFields))
  }

  predicate FieldsKeepType(src: seq<StructField>, dest: seq<StructField>)
    decreases SizeOfFields(src) + SizeOfFields(dest), |dest| + 1
  {
    dest != [] ==>
      && (var t := LookupType(src, dest[0].name); t.Some? ==> KeepsType(t.value, dest[0].dataType))
      && FieldsKeepType(src, dest[1..])
  }

  /** Exactly when the storage type is the target's own. */
  lemma {:induction false} CanonicalExactlyWhen(src: FenicDType, dest: FenicDType)
    ensures ResultType(src, dest) == Canonical(dest) <==> KeepsType(src, dest)
    decreases Size(src) + Size(dest), 0
  {
    if src != dest && src.StructType? && dest.StructType? {
      FieldsCanonicalExactlyWhen(src.structFields, dest.structFields);
    }
  }

  lemma {:induction false} FieldsCanonicalExactlyWhen(src: seq<StructField>, dest: seq<StructField>)
    ensures ResultFields(src, dest) == CanonicalFields(dest) <==> FieldsKeepType(src, dest)
    decreases SizeOfFields(src) + SizeOfFields(dest), |dest| + 1
  {
    if dest != [] {
      var t := LookupType(src, dest[0].name);
      if t.Some? {
        CanonicalExactlyWhen(t.value, dest[0].dataType);
      }
      FieldsCanonicalExactlyWhen(src, dest[1..]);
      assert ResultFields(src, dest)[1..] == ResultFields(src, dest[1..]);
      assert CanonicalFields(dest)[1..] == CanonicalFields(dest[1..]);
      assert ResultFields(src, dest)[0].dtype == CanonicalFields(dest)[0].dtype
        <==> (t.Some? ==> KeepsType(t.value, dest[0].dataType));
    }
  }

  /** A cast that gives a column gives `n` rows of this storage type. */
  predicate GivesTyped(r: Outcome<Column>, n: nat, d: DataType) { r.Done? ==> Typed(r.value, n, d) }

  predicate Typed(c: Column, n: nat, d: DataType) { WellFormed(c) && Len(c) == n && TypeOf(c) == d }

  lemma {:induction false} FullNullTyped(n: nat, d: DataType)
    ensures Typed(FullNull(n, d), n, d)
    ensures forall i :: 0 <= i < n ==> At(FullNull(n, d), i) == Null
    decreases d
  {
    match d {
      case ListOf(e) =>
        assert ListsWellFormed(FullNull(n, d).lists, e);
      case ArrayOf(w) =>
        assert 0 <= n * w;
      case StructOf(fields) =>
        NullFieldsTyped(n, fields);
      case _ =>
    }
  }

  lemma {:induction false} NullFieldsTyped(n: nat, fields: seq<Field>)
    ensures FieldsWellFormed(NullFields(n, fields), n) && FieldTypes(NullFields(n, fields)) == fields
    decreases fields
  {
    if fields != [] {
      FullNullTyped(n, fields[0].dtype);
      NullFieldsTyped(n, fields[1..]);
      assert NullFields(n, fields)[1..] == NullFields(n, fields[1..]);
    }
  }

  /** The columns and the types of a struct are found together. */
  lemma {:induction false} LookupsAgree(fields: seq<ColumnField>, n: nat, src: seq<StructField>, name: string)
    requires FieldsWellFormed(fields, n) && FieldTypes(fields) == CanonicalFields(src)
    ensures LookupColumn(fields, name).Some? <==> LookupType(src, name).Some?
    ensures LookupColumn(fields, name).Some? ==>
              Typed(LookupColumn(fields, name).value, n, Canonical(LookupType(src, name).value))
  {
    if fields != [] {
      assert FieldTypes(fields)[1..] == FieldTypes(fields[1..]);
      assert CanonicalFields(src)[1..] == CanonicalFields(src[1..]);
      LookupsAgree(fields[1..], n, src[1..], name);
    }
  }

  /** A cast that gives a column gives one of the same length and of the result type.  It always
    * terminates, and no field of a source struct is ever without a type. */
  lemma {:induction false} CastIsTyped(env: Engine, c: Column, src: FenicDType, dest: FenicDType)
    requires Sound(env) && WellFormed(c) && TypeOf(c) == Canonical(src)
    ensures GivesTyped(CastColumn(env, c, src, dest), Len(c), ResultType(src, dest))
    decreases Size(src) + Size(dest), 0
  {
    if src == dest {
    } else if dest.MarkdownType? {
      if !src.StringType? {
        CastIsTyped(env, c, src, StringType);
      }
    } else if src.MarkdownType? {
      if !dest.StringType? {
        CastIsTyped(env, c, StringType, dest);
      }
    } else if dest.JsonType? {
      ToJsonIsTyped(env, c, src);
    } else if src.JsonType? {
      FromJsonIsTyped(env, c, dest);
    } else if src.StructType? && dest.StructType? {
      StructIsTyped(env, c, src, dest);
    } else if src.ArrayType? && dest.ArrayType? {
      ArrayIsTyped(env, c, src, dest);
    } else {
      EngineCastIsTyped(env, c, src, dest);
    }
  }

  lemma {:induction false} StructIsTyped(env: Engine, c: Column, src: FenicDType, dest: FenicDType)
    requires Sound(env) && WellFormed(c) && TypeOf(c) == Canonical(src)
    requires src != dest && src.StructType? && dest.StructType?
    ensures GivesTyped(CastColumn(env, c, src, dest), Len(c), ResultType(src, dest))
    decreases SizeOfFields(src.structFields) + SizeOfFields(dest.structFields), |dest.structFields| + 2
  {
    FieldsAreTyped(env, c.fields, |c.validity|, src.structFields, dest.structFields);
  }

  lemma {:induction false} ArrayIsTyped(env: Engine, c: Column, src: FenicDType, dest: FenicDType)
    requires Sound(env) && WellFormed(c) && TypeOf(c) == Canonical(src)
    requires src != dest && src.ArrayType? && dest.ArrayType?
    ensures GivesTyped(CastColumn(env, c, src, dest), Len(c), ResultType(src, dest))
    decreases Size(src.elementType) + Size(dest.elementType), |c.lists| + 2
  {
    ListsAreTyped(env, c.lists, c.element, src.elementType, dest.elementType);
  }

  lemma EngineCastIsTyped(env: Engine, c: Column, src: FenicDType, dest: FenicDType)
    requires Sound(env) && WellFormed(c)
    requires src != dest && !src.MarkdownType? && !dest.MarkdownType? && !src.JsonType? && !dest.JsonType?
    requires !(src.StructType? && dest.StructType?) && !(src.ArrayType? && dest.ArrayType?)
    ensures GivesTyped(CastColumn(env, c, src, dest), Len(c), ResultType(src, dest))
  {
    ByEngineIsTyped(env, c, ResultType(src, dest));
  }

  lemma ByEngineIsTyped(env: Engine, c: Column, d: DataType)
    requires Sound(env) && WellFormed(c)
    ensures GivesTyped(ByEngine(env, c, d), Len(c), d)
  {
    assert SoundAt(env, c, d);
  }

  lemma ToJsonIsTyped(env: Engine, c: Column, src: FenicDType)
    requires WellFormed(c) && TypeOf(c) == Canonical(src) && !src.JsonType? && !src.MarkdownType?
    ensures GivesTyped(CastColumn(env, c, src, JsonType), Len(c), String)
  {
  }

  lemma FromJsonIsTyped(env: Engine, c: Column, dest: FenicDType)
    requires WellFormed(c) && TypeOf(c) == String && !dest.JsonType? && !dest.MarkdownType?
    ensures GivesTyped(CastColumn(env, c, JsonType, dest), Len(c), Canonical(dest))
  {
    if AllParse(env.codec, c.rows) {
      BuildRefinesCast(env.codec, ParsedRows(env.codec, c.rows), dest);
    }
  }

  lemma {:induction false} FieldsAreTyped(env: Engine, fields: seq<ColumnField>, n: nat, src: seq<StructField>,
                                          dest: seq<StructField>)
    requires Sound(env) && FieldsWellFormed(fields, n) && FieldTypes(fields) == CanonicalFields(src)
    ensures var r := CastFieldsTo(env, fields, n, src, dest);
            r.Done? ==> FieldsWellFormed(r.value, n) && FieldTypes(r.value) == ResultFields(src, dest)
    decreases SizeOfFields(src) + SizeOfFields(dest), |dest| + 1
  {
    var r := CastFieldsTo(env, fields, n, src, dest);
    if r.Done? && dest != [] {
      FieldIsTyped(env, fields, n, src, dest[0]);
      FieldsAreTyped(env, fields, n, src, dest[1..]);
      assert r.value[1..] == CastFieldsTo(env, fields, n, src, dest[1..]).value;
    }
  }

  lemma {:induction false} FieldIsTyped(env: Engine, fields: seq<ColumnField>, n: nat, src: seq<StructField>,
                                        f: StructField)
    requires Sound(env) && FieldsWellFormed(fields, n) && FieldTypes(fields) == CanonicalFields(src)
    ensures var t := LookupType(src, f.name);
            GivesTyped(CastField(env, fields, n, src, f), n,
                       if t.Some? then ResultType(t.value, f.dataType) else Canonical(f.dataType))
    decreases SizeOfFields(src) + Size(f.dataType), 1
  {
    LookupsAgree(fields, n, src, f.name);
    var t := LookupType(src, f.name);
    if t.None? {
      FullNullTyped(n, Canonical(f.dataType));
    } else {
      CastIsTyped(env, LookupColumn(fields, f.name).value, t.value, f.dataType);
    }
  }

  lemma {:induction false} ListsAreTyped(env: Engine, lists: seq<Option<Column>>, e: DataType, src: FenicDType,
                                         dest: FenicDType)
    requires Sound(env) && ListsWellFormed(lists, e) && e == Canonical(src)
    ensures var r := CastLists(env, lists, e, src, dest);
            r.Done? ==> |r.value| == |lists| && ListsWellFormed(r.value, Canonical(dest))
    decreases Size(src) + Size(dest), |lists| + 1
  {
    var r := CastLists(env, lists, e, src, dest);
    if r.Done? && lists != [] {
      assert ListWellFormed(lists[0], e);
      ListIsTyped(env, lists[0], e, src, dest);
      ListsAreTyped(env, lists[1..], e, src, dest);
      var rest := CastLists(env, lists[1..], e, src, dest).value;
      assert r.value == [CastList(env, lists[0], e, src, dest).value] + rest;
    }
  }

  lemma {:induction false} ListIsTyped(env: Engine, list: Option<Column>, e: DataType, src: FenicDType,
                                       dest: FenicDType)
    requires Sound(env) && ListWellFormed(list, e) && e == Canonical(src)
    ensures var r := CastList(env, list, e, src, dest); r.Done? ==> ListWellFormed(r.value, Canonical(dest))
    decreases Size(src) + Size(dest), 1
  {
    if list.Some? {
      CastIsTyped(env, list.value, src, dest);
    }
  }

  // ---------------------------------------------------------------- through the dispatcher

  /** To JSON and back through the dispatcher, for every portable type except a bare string, which is
    * taken as JSON text instead.  A bare JSON column is left alone, whereas a nested one is encoded. */
  lemma DispatchedRoundTrip(env: Engine, c: Column, t: FenicDType)
    requires Portable(t) && t != StringType && WellFormed(c) && TypeOf(c) == Canonical(t)
    requires t == JsonType || RowsSurvive(env.codec, c)
    ensures var json := CastColumn(env, c, t, JsonType);
            && json.Done? && WellFormed(json.value)
            && var back := CastColumn(env, json.value, JsonType, t);
               && back.Done? && Typed(back.value, Len(c), Canonical(t))
               && forall i :: 0 <= i < Len(c) ==>
                    At(back.value, i) == if t == JsonType then At(c, i) else Normal(env.codec, At(c, i), t)
  {
    if t != JsonType {
      ColumnRoundTrip(env.codec, c, t);
    }
  }

  /** A text that a string column gives back when it is cast to JSON and back. */
  predicate StringSurvives(codec: Codec, v: Value) {
    v.Text? ==>
      var j := codec.decode(v.s);
      j.Some? && j.value != JNull && v.s == if j.value.JString? then j.value.s else codec.encode(j.value)
  }

  /** A bare string column always comes back, and a row comes back unchanged exactly when it is null, or the
    * encoder's own text of a value that is neither null nor a string, or the text of the very string. */
  lemma StringRoundTripExactlyWhen(env: Engine, c: Column, i: nat)
    requires WellFormed(c) && TypeOf(c) == String && i < Len(c)
    ensures var json := CastColumn(env, c, StringType, JsonType);
            && json.Done? && WellFormed(json.value)
            && var back := CastColumn(env, json.value, JsonType, StringType);
               && back.Done? && Typed(back.value, Len(c), String)
               && (At(back.value, i) == At(c, i) <==> StringSurvives(env.codec, At(c, i)))
  {
    var rows := Validated(env.codec, c.rows);
    BuildRefinesCast(env.codec, ParsedRows(env.codec, rows), StringType);
  }
}
