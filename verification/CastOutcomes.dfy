/** When a cast gives a column, fails or panics: decided from the two types, the storage and the engine's own
  * casts, without the dispatcher. */
module CastOutcomes {
  import opened Wrappers
  import opened DTypes
  import opened JsonCast
  import opened JsonColumns
  import opened CastSeries

  /** `Gives` a column, `Errs` with an error, or `Breaks` with a panic. */
  datatype Verdict = Gives | Errs | Breaks

  function VerdictOn<T>(r: Outcome<T>): Verdict {
    match r
    case Done(_) => Gives
    case Failed => Errs
    case Panicked => Breaks
  }

  /** Markdown is text to all casts. */
  function AsText(t: FenicDType): FenicDType { if t.MarkdownType? then StringType else t }

  /** The types that the engine casts by itself. */
  predicate IsPrimitive(t: FenicDType) {
    t.StringType? || t.IntegerType? || t.FloatType? || t.DoubleType? || t.BooleanType? || t.DateType?
    || t.TimestampType?
  }

  predicate IsFloat(t: FenicDType) { t.FloatType? || t.DoubleType? }

  function EngineVerdict(env: Engine, c: Column, d: DataType): Verdict {
    if env.cast(c, d).Some? then Gives else Errs
  }

  /** The first that is not a column decides. */
  function Overall(verdicts: seq<Verdict>): Verdict {
    if verdicts == [] then Gives else if verdicts[0] != Gives then verdicts[0] else Overall(verdicts[1..])
  }

  /** What comes of a cast of a column that has its type's storage. */
  function Foreseen(env: Engine, c: Column, src: FenicDType, dest: FenicDType): Verdict
    requires WellFormed(c)
    decreases Size(src) + Size(dest), 0
  {
    var s, d := AsText(src), AsText(dest);
    if s == d then Gives
    else if d.JsonType? then if s.StringType? || RowsSupported(c) then Gives else Errs
    else if s.JsonType? then TextVerdict(env.codec, c, d)
    else if s.StructType? then
      if d.StructType? && c.Structs? then
        Overall(FieldVerdicts(env, c.fields, |c.validity|, s.structFields, d.structFields))
      else Breaks
    else if s.ArrayType? then
      if d.ArrayType? && c.Lists? then Overall(ListVerdicts(env, c.lists, c.element, s.elementType, d.elementType))
      else if d.EmbeddingType? && IsFloat(s.elementType) then EngineVerdict(env, c, ArrayOf(d.dimensions))
      else Breaks
    else if s.EmbeddingType? then if d.ArrayType? then EngineVerdict(env, c, ListOf(Float32)) else Breaks
    else if IsPrimitive(s) && !NotImplemented(d) then EngineVerdict(env, c, Canonical(d))
    else Breaks
  }

  /** Text that is not JSON, and a value under a type without a builder, panic. */
  function TextVerdict(codec: Codec, c: Column, t: FenicDType): Verdict {
    if c.Scalars? && AllParse(codec, c.rows) && !Panics(ParsedRows(codec, c.rows), t) then Gives else Breaks
  }

  function FieldVerdicts(env: Engine, fields: seq<ColumnField>, n: nat, src: seq<StructField>, dest: seq<StructField>)
    : (verdicts: seq<Verdict>)
    requires FieldsWellFormed(fields, n)
    decreases SizeOfFields(src) + SizeOfFields(dest), |dest| + 1
  {
    if dest == [] then []
    else [FieldVerdict(env, fields, n, src, dest[0])] + FieldVerdicts(env, fields, n, src, dest[1..])
  }

  /** A field that the source does not have never fails. */
  function FieldVerdict(env: Engine, fields: seq<ColumnField>, n: nat, src: seq<StructField>, f: StructField): Verdict
    requires FieldsWellFormed(fields, n)
    decreases SizeOfFields(src) + Size(f.dataType), 1
  {
    match LookupColumn(fields, f.name)
    case None => Gives
    case Some(column) =>
      FoundColumnFits(fields, n, f.name);
      match LookupType(src, f.name)
      case None => Breaks
      case Some(t) => Foreseen(env, column, t, f.dataType)
  }

  /** A list must be cast, and to the element type that was asked for. */
  function ListVerdicts(env: Engine, lists: seq<Option<Column>>, e: DataType, src: FenicDType, dest: FenicDType)
    : seq<Verdict>
    requires ListsWellFormed(lists, e)
    decreases Size(src) + Size(dest), |lists| + 1
  {
    if lists == [] then []
    else
      assert ListWellFormed(lists[0], e);
      [ListVerdict(env, lists[0], e, src, dest)] + ListVerdicts(env, lists[1..], e, src, dest)
  }

  function ListVerdict(env: Engine, list: Option<Column>, e: DataType, src: FenicDType, dest: FenicDType): Verdict
    requires ListWellFormed(list, e)
    decreases Size(src) + Size(dest), 1
  {
    match list
    case None => Gives
    case Some(inner) =>
      var v := Foreseen(env, inner, src, dest);
      if v == Gives && !KeepsType(src, dest) then Errs else v
  }

  // ---------------------------------------------------------------- the law

  /** A column of the type's own storage, and an engine that keeps its laws. */
  ghost predicate Stored(env: Engine, c: Column, t: FenicDType) {
    Sound(env) && WellFormed(c) && TypeOf(c) == Canonical(t)
  }

  lemma {:induction false} CastIsForeseen(env: Engine, c: Column, src: FenicDType, dest: FenicDType)
    requires Stored(env, c, src)
    ensures VerdictOn(CastColumn(env, c, src, dest)) == Foreseen(env, c, src, dest)
    decreases Size(src) + Size(dest), 0
  {
    if AsText(src) == AsText(dest) {
    } else if dest.MarkdownType? {
      CastIsForeseen(env, c, src, StringType);
    } else if src.MarkdownType? {
      CastIsForeseen(env, c, StringType, dest);
    } else if dest.JsonType? || src.JsonType? {
    } else if src.StructType? && dest.StructType? {
      FieldsAreForeseen(env, c.fields, |c.validity|, src.structFields, dest.structFields);
    } else if src.ArrayType? && dest.ArrayType? {
      ListsAreForeseen(env, c.lists, c.element, src.elementType, dest.elementType);
    } else {
      OthersAreForeseen(env, c, src, dest);
    }
  }

  lemma OthersAreForeseen(env: Engine, c: Column, src: FenicDType, dest: FenicDType)
    requires Stored(env, c, src) && src != dest
    requires !src.MarkdownType? && !dest.MarkdownType? && !src.JsonType? && !dest.JsonType?
    requires !(src.StructType? && dest.StructType?) && !(src.ArrayType? && dest.ArrayType?)
    ensures VerdictOn(CastColumn(env, c, src, dest)) == Foreseen(env, c, src, dest)
  {
    if src.ArrayType? && dest.EmbeddingType? {
      FloatStorage(src.elementType);
    }
  }

  lemma FloatStorage(t: FenicDType)
    ensures Canonical(t) == Float32 || Canonical(t) == Float64 <==> IsFloat(t)
  {
  }

  /** The first failure counts on both sides. */
  lemma FirstIsOverall<T>(x: Outcome<T>, rest: Outcome<seq<T>>, verdicts: seq<Verdict>)
    requires VerdictOn(rest) == Overall(verdicts)
    ensures VerdictOn(First(x, rest)) == Overall([VerdictOn(x)] + verdicts)
  {
    assert ([VerdictOn(x)] + verdicts)[1..] == verdicts;
  }

  lemma {:induction false} FieldsAreForeseen(env: Engine, fields: seq<ColumnField>, n: nat, src: seq<StructField>,
                                             dest: seq<StructField>)
    requires Sound(env) && FieldsWellFormed(fields, n) && FieldTypes(fields) == CanonicalFields(src)
    ensures VerdictOn(CastFieldsTo(env, fields, n, src, dest)) == Overall(FieldVerdicts(env, fields, n, src, dest))
    decreases SizeOfFields(src) + SizeOfFields(dest), |dest| + 1
  {
    if dest != [] {
      FieldIsForeseen(env, fields, n, src, dest[0]);
      FieldsAreForeseen(env, fields, n, src, dest[1..]);
      FirstIsOverall(Named(dest[0].name, CastField(env, fields, n, src, dest[0])),
                     CastFieldsTo(env, fields, n, src, dest[1..]), FieldVerdicts(env, fields, n, src, dest[1..]));
    }
  }

  lemma {:induction false} FieldIsForeseen(env: Engine, fields: seq<ColumnField>, n: nat, src: seq<StructField>,
                                           f: StructField)
    requires Sound(env) && FieldsWellFormed(fields, n) && FieldTypes(fields) == CanonicalFields(src)
    ensures VerdictOn(CastField(env, fields, n, src, f)) == FieldVerdict(env, fields, n, src, f)
    decreases SizeOfFields(src) + Size(f.dataType), 1
  {
    LookupsAgree(fields, n, src, f.name);
    if LookupColumn(fields, f.name).Some? {
      CastIsForeseen(env, LookupColumn(fields, f.name).value, LookupType(src, f.name).value, f.dataType);
    }
  }

  lemma {:induction false} ListsAreForeseen(env: Engine, lists: seq<Option<Column>>, e: DataType, src: FenicDType,
                                            dest: FenicDType)
    requires Sound(env) && e == Canonical(src) && ListsWellFormed(lists, e)
    ensures VerdictOn(CastLists(env, lists, e, src, dest)) == Overall(ListVerdicts(env, lists, e, src, dest))
    decreases Size(src) + Size(dest), |lists| + 1
  {
    if lists != [] {
      assert ListWellFormed(lists[0], e);
      ListIsForeseen(env, lists[0], e, src, dest);
      ListsAreForeseen(env, lists[1..], e, src, dest);
      FirstIsOverall(CastList(env, lists[0], e, src, dest), CastLists(env, lists[1..], e, src, dest),
                     ListVerdicts(env, lists[1..], e, src, dest));
    }
  }

  lemma {:induction false} ListIsForeseen(env: Engine, list: Option<Column>, e: DataType, src: FenicDType,
                                          dest: FenicDType)
    requires Sound(env) && e == Canonical(src) && ListWellFormed(list, e)
    ensures VerdictOn(CastList(env, list, e, src, dest)) == ListVerdict(env, list, e, src, dest)
    decreases Size(src) + Size(dest), 1
  {
    if list.Some? {
      CastIsForeseen(env, list.value, src, dest);
      CastIsTyped(env, list.value, src, dest);
      CanonicalExactlyWhen(src, dest);
    }
  }

  // ---------------------------------------------------------------- what the engine's arms give

  /** Between types of the engine's own a cast is the engine's cast to the target's storage: its column when
    * it has one, and an error when it has none. */
  lemma PrimitiveCastIsEngines(env: Engine, c: Column, src: FenicDType, dest: FenicDType)
    requires WellFormed(c) && IsPrimitive(src) && IsPrimitive(dest) && src != dest
    ensures var cast := env.cast(c, Canonical(dest));
            CastColumn(env, c, src, dest) == if cast.Some? then Done(cast.value) else Failed
  {
  }

  /** Lists of floats become embeddings, and embeddings lists of 32-bit floats, by the engine's cast. */
  lemma VectorCastIsEngines(env: Engine, c: Column, element: FenicDType, dimensions: nat, model: string)
    requires WellFormed(c)
    ensures TypeOf(c) == ListOf(Canonical(element)) && IsFloat(element) ==>
              var cast := env.cast(c, ArrayOf(dimensions));
              CastColumn(env, c, ArrayType(element), EmbeddingType(dimensions, model))
              == if cast.Some? then Done(cast.value) else Failed
    ensures var cast := env.cast(c, ListOf(Float32));
            CastColumn(env, c, EmbeddingType(dimensions, model), ArrayType(element))
            == if cast.Some? then Done(cast.value) else Failed
  {
  }

  /** A column of another storage than the source type's is an error where the storage is looked at first. */
  lemma WrongStorageFails(env: Engine, c: Column, src: FenicDType, dest: FenicDType)
    requires WellFormed(c) && src != dest
    ensures src.StructType? && dest.StructType? && !c.Structs? ==> CastColumn(env, c, src, dest) == Failed
    ensures src.ArrayType? && dest.ArrayType? && !c.Lists? ==> CastColumn(env, c, src, dest) == Failed
    ensures src.StringType? && dest.JsonType? && TypeOf(c) != String ==> CastColumn(env, c, src, dest) == Failed
    ensures src.JsonType? && !dest.MarkdownType? && TypeOf(c) != String ==> CastColumn(env, c, src, dest) == Failed
  {
  }

  // ---------------------------------------------------------------- pairs that never break

  /** An engine that has every cast. */
  ghost predicate HasAllCasts(env: Engine) {
    forall c: Column, d: DataType :: WellFormed(c) ==> env.cast(c, d).Some?
  }

  /** The pairs of types, down to fields and elements, for which there is a cast of every column. */
  predicate Supports(src: FenicDType, dest: FenicDType)
    decreases Size(src) + Size(dest), 0
  {
    var s, d := AsText(src), AsText(dest);
    || s == d
    || (IsPrimitive(s) && !d.JsonType? && !NotImplemented(d))
    || (s.StringType? && d.JsonType?)
    || (s.EmbeddingType? && (d.ArrayType? || d.JsonType?))
    || (s.ArrayType? && d.EmbeddingType? && IsFloat(s.elementType))
    || (s.ArrayType? && d.ArrayType? && Supports(s.elementType, d.elementType)
        && KeepsType(s.elementType, d.elementType))
    || (s.StructType? && d.StructType? && FieldsSupport(s.structFields, d.structFields))
  }

  predicate FieldsSupport(src: seq<StructField>, dest: seq<StructField>)
    decreases SizeOfFields(src) + SizeOfFields(dest), |dest| + 1
  {
    dest != [] ==>
      && (var t := LookupType(src, dest[0].name); t.Some? ==> Supports(t.value, dest[0].dataType))
      && FieldsSupport(src, dest[1..])
  }

  /** With an engine that has every cast, a supported pair gives a column for every column. */
  lemma {:induction false} SupportedPairsGive(env: Engine, c: Column, src: FenicDType, dest: FenicDType)
    requires Stored(env, c, src) && HasAllCasts(env) && Supports(src, dest)
    ensures Foreseen(env, c, src, dest) == Gives
    decreases Size(src) + Size(dest), 0
  {
    if src.StructType? && dest.StructType? && src != dest {
      SupportedFieldsGive(env, c.fields, |c.validity|, src.structFields, dest.structFields);
    } else if src.ArrayType? && dest.ArrayType? && src != dest {
      SupportedListsGive(env, c.lists, c.element, src.elementType, dest.elementType);
    } else if src.EmbeddingType? && dest.JsonType? {
      VectorsAreSupported(c);
    }
  }

  lemma VectorsAreSupported(c: Column)
    requires WellFormed(c) && c.FixedLists?
    ensures RowsSupported(c)
  {
    forall k | 0 <= k < Len(c) ensures Supported(At(c, k)) {
      RowsConform(c, k);
      if At(c, k).Items? {
        AllSupportedMeans(At(c, k).items);
      }
    }
  }

  lemma {:induction false} SupportedFieldsGive(env: Engine, fields: seq<ColumnField>, n: nat, src: seq<StructField>,
                                               dest: seq<StructField>)
    requires Sound(env) && HasAllCasts(env) && FieldsWellFormed(fields, n) && FieldTypes(fields) == CanonicalFields(src)
    requires FieldsSupport(src, dest)
    ensures Overall(FieldVerdicts(env, fields, n, src, dest)) == Gives
    decreases SizeOfFields(src) + SizeOfFields(dest), |dest| + 1
  {
    if dest != [] {
      LookupsAgree(fields, n, src, dest[0].name);
      if LookupColumn(fields, dest[0].name).Some? {
        SupportedPairsGive(env, LookupColumn(fields, dest[0].name).value, LookupType(src, dest[0].name).value,
                           dest[0].dataType);
      }
      SupportedFieldsGive(env, fields, n, src, dest[1..]);
      assert FieldVerdicts(env, fields, n, src, dest)[1..] == FieldVerdicts(env, fields, n, src, dest[1..]);
    }
  }

  lemma {:induction false} SupportedListsGive(env: Engine, lists: seq<Option<Column>>, e: DataType, src: FenicDType,
                                              dest: FenicDType)
    requires Sound(env) && HasAllCasts(env) && e == Canonical(src) && ListsWellFormed(lists, e)
    requires Supports(src, dest) && KeepsType(src, dest)
    ensures Overall(ListVerdicts(env, lists, e, src, dest)) == Gives
    decreases Size(src) + Size(dest), |lists| + 1
  {
    if lists != [] {
      assert ListWellFormed(lists[0], e);
      if lists[0].Some? {
        SupportedPairsGive(env, lists[0].value, src, dest);
      }
      SupportedListsGive(env, lists[1..], e, src, dest);
      assert ListVerdicts(env, lists, e, src, dest)[1..] == ListVerdicts(env, lists[1..], e, src, dest);
    }
  }
}
