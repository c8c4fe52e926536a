/** Casting columns to JSON text and JSON text to columns.
  *
  * The columnar builders are proved to do row by row what a recursive cast of single values does, and
  * casting to JSON and back is proved to be one normalisation of the values. */
module JsonCast {
  import opened Wrappers
  import opened DTypes

  datatype Json =
    | JNull | JBool(b: bool) | JInt(i: int) | JFloat(x: real) | JString(s: string)
    | JArray(items: seq<Json>)
    | JObject(entries: map<string, Json>)

  datatype Entry = Entry(name: string, value: Json)

  /** The text encoding of JSON values. */
  datatype Codec = Codec(encode: Json -> string, decode: string -> Option<Json>)

  /** The text of this value is read back as the value. */
  predicate Survives(codec: Codec, j: Json) { codec.decode(codec.encode(j)) == Some(j) }

  // ---------------------------------------------------------------- values to JSON

  /** An object collected from entries: the last entry of a name stays. */
  function Collect(entries: seq<Entry>): map<string, Json> {
    if entries == [] then map[] else map[entries[0].name := entries[0].value] + Collect(entries[1..])
  }

  function ToJson(v: Value): Json
    decreases v
  {
    match v
    case Text(s) => JString(s)
    case Whole(i) => JInt(i)
    case Number(f) => if f.Finite? then JFloat(f.x) else JNull
    case Truth(b) => JBool(b)
    case Items(items) => JArray(ToJsonAll(items))
    case Record(members) => JObject(Collect(Entries(members)))
    case _ => JNull
  }

  function ToJsonAll(vs: seq<Value>): (r: seq<Json>)
    ensures |r| == |vs|
    ensures forall k :: 0 <= k < |vs| ==> r[k] == ToJson(vs[k])
    decreases vs
  {
    if vs == [] then [] else [ToJson(vs[0])] + ToJsonAll(vs[1..])
  }

  function Entries(members: seq<Member>): seq<Entry>
    decreases members
  {
    if members == [] then [] else [Entry(members[0].name, ToJson(members[0].value))] + Entries(members[1..])
  }

  /** Dates and timestamps, at any depth, have no conversion. */
  predicate Supported(v: Value)
    decreases v
  {
    match v
    case Day(_) => false
    case Instant(_) => false
    case Items(items) => AllSupported(items)
    case Record(members) => MembersSupported(members)
    case _ => true
  }

  predicate AllSupported(vs: seq<Value>)
    decreases vs
  {
    vs == [] || (Supported(vs[0]) && AllSupported(vs[1..]))
  }

  predicate MembersSupported(members: seq<Member>)
    decreases members
  {
    members == [] || (Supported(members[0].value) && MembersSupported(members[1..]))
  }

  /** The text of a row, or null. */
  function JsonText(codec: Codec, j: Json): Value {
    if j == JNull then Null else Text(codec.encode(j))
  }

  // ---------------------------------------------------------------- JSON to values

  function AsI64(j: Json): Option<int> {
    if j.JInt? && IsInt64(j.i) then Some(j.i) else None
  }

  function AsF64(j: Json): Option<real> {
    match j
    case JInt(i) => Some(i as real)
    case JFloat(x) => Some(x)
    case _ => None
  }

  /** A property of the object, or null. */
  function Get(j: Json, name: string): Json {
    if j.JObject? && name in j.entries then j.entries[name] else JNull
  }

  predicate IsVector(j: Json, n: nat) {
    j.JArray? && |j.items| == n && forall k :: 0 <= k < n ==> AsF64(j.items[k]).Some?
  }

  function Vector(j: Json, n: nat): (r: seq<Value>)
    requires IsVector(j, n)
    ensures |r| == n
  {
    seq(n, k requires 0 <= k < n => Number(Finite(AsF64(j.items[k]).value)))
  }

  /** The cast of one JSON value; anything that does not fit the type becomes null. */
  function Cast(codec: Codec, j: Json, t: FenicDType): Value
    decreases t, 0
  {
    match t
    case StringType => if j.JString? then Text(j.s) else JsonText(codec, j)
    case IntegerType => if AsI64(j).Some? then Whole(AsI64(j).value) else Null
    case FloatType => NumberOf(j)
    case DoubleType => NumberOf(j)
    case BooleanType => if j.JBool? then Truth(j.b) else Null
    case ArrayType(e) => if j.JArray? then Items(CastAll(codec, j.items, e)) else Null
    case EmbeddingType(n, _) => if IsVector(j, n) then Items(Vector(j, n)) else Null
    case StructType(fields) => Record(CastFields(codec, j, fields))
    case JsonType => JsonText(codec, j)
    case _ => Null
  }

  function NumberOf(j: Json): Value {
    if AsF64(j).Some? then Number(Finite(AsF64(j).value)) else Null
  }

  function CastAll(codec: Codec, js: seq<Json>, t: FenicDType): (r: seq<Value>)
    ensures |r| == |js|
    decreases t, 1
  {
    seq(|js|, k requires 0 <= k < |js| => Cast(codec, js[k], t))
  }

  function CastFields(codec: Codec, j: Json, fields: seq<StructField>): seq<Member>
    decreases fields
  {
    if fields == [] then []
    else [Member(fields[0].name, Cast(codec, Get(j, fields[0].name), fields[0].dataType))]
         + CastFields(codec, j, fields[1..])
  }

  // ---------------------------------------------------------------- the normalisation

  predicate AllFinite(items: seq<Value>) {
    forall k :: 0 <= k < |items| ==> items[k].Number? && items[k].f.Finite?
  }

  /** Null structs become structs of nulls, non-finite numbers null, vectors with an entry that is not a
    * finite number null as a whole, and a nested JSON text is encoded once more, as a string. */
  function Normal(codec: Codec, v: Value, t: FenicDType): Value
    decreases t, 0
  {
    match t
    case FloatType => if v.Number? && v.f.NonFinite? then Null else v
    case DoubleType => if v.Number? && v.f.NonFinite? then Null else v
    case ArrayType(e) => if v.Items? then Items(NormalAll(codec, v.items, e)) else v
    case EmbeddingType(_, _) => if v.Items? && !AllFinite(v.items) then Null else v
    case StructType(fields) =>
      Record(if v.Record? then NormalMembers(codec, v.members, fields) else NullMembers(codec, fields))
    case JsonType => if v.Text? then Text(codec.encode(JString(v.s))) else v
    case _ => v
  }

  function NormalAll(codec: Codec, vs: seq<Value>, t: FenicDType): (r: seq<Value>)
    ensures |r| == |vs|
    decreases t, 1
  {
    seq(|vs|, k requires 0 <= k < |vs| => Normal(codec, vs[k], t))
  }

  function NormalMembers(codec: Codec, members: seq<Member>, fields: seq<StructField>): seq<Member>
    decreases fields
  {
    if fields == [] || members == [] then []
    else [Member(fields[0].name, Normal(codec, members[0].value, fields[0].dataType))]
         + NormalMembers(codec, members[1..], fields[1..])
  }

  function NullMembers(codec: Codec, fields: seq<StructField>): seq<Member>
    decreases fields
  {
    if fields == [] then []
    else [Member(fields[0].name, Normal(codec, Null, fields[0].dataType))] + NullMembers(codec, fields[1..])
  }

  /** No null struct and no number that is not finite, at any depth. */
  predicate Intact(v: Value, t: FenicDType)
    decreases t
  {
    match t
    case FloatType => v.Number? ==> v.f.Finite?
    case DoubleType => v.Number? ==> v.f.Finite?
    case ArrayType(e) => v.Items? ==> forall k :: 0 <= k < |v.items| ==> Intact(v.items[k], e)
    case EmbeddingType(_, _) => v.Items? ==> AllFinite(v.items)
    case StructType(fields) => v.Record? && MembersIntact(v.members, fields)
    case _ => true
  }

  predicate MembersIntact(members: seq<Member>, fields: seq<StructField>)
    decreases fields
  {
    fields == [] || members == []
    || (Intact(members[0].value, fields[0].dataType) && MembersIntact(members[1..], fields[1..]))
  }

  /** The text is the value of a JSON type in the value, at any depth. */
  predicate HasJsonText(v: Value, t: FenicDType, s: string)
    decreases t
  {
    match t
    case ArrayType(e) => v.Items? && exists k :: 0 <= k < |v.items| && HasJsonText(v.items[k], e, s)
    case StructType(fields) => v.Record? && MembersHaveText(v.members, fields, s)
    case JsonType => v == Text(s)
    case _ => false
  }

  predicate MembersHaveText(members: seq<Member>, fields: seq<StructField>, s: string)
    decreases fields
  {
    fields != [] && members != []
    && (HasJsonText(members[0].value, fields[0].dataType, s) || MembersHaveText(members[1..], fields[1..], s))
  }

  /** Encoding a string gives the string: true of no text that is quoted. */
  predicate EncodesAsItself(codec: Codec, s: string) { codec.encode(JString(s)) == s }

  ghost predicate TextsFixed(codec: Codec, v: Value, t: FenicDType) {
    forall s :: HasJsonText(v, t, s) ==> EncodesAsItself(codec, s)
  }

  lemma {:induction false} NormalIsIntact(codec: Codec, v: Value, t: FenicDType)
    requires Conforms(v, Canonical(t))
    ensures Conforms(Normal(codec, v, t), Canonical(t)) && Intact(Normal(codec, v, t), t)
    decreases t
  {
    match t {
      case ArrayType(e) =>
        if v.Items? {
          forall k | 0 <= k < |v.items|
            ensures Conforms(Normal(codec, v.items[k], e), Canonical(e)) && Intact(Normal(codec, v.items[k], e), e)
          {
            NormalIsIntact(codec, v.items[k], e);
          }
        }
      case StructType(fields) =>
        if v.Record? {
          NormalMembersIntact(codec, v.members, fields);
        } else {
          NullMembersIntact(codec, fields);
        }
      case _ =>
    }
  }

  lemma {:induction false} NormalMembersIntact(codec: Codec, members: seq<Member>, fields: seq<StructField>)
    requires MembersConform(members, CanonicalFields(fields))
    ensures MembersConform(NormalMembers(codec, members, fields), CanonicalFields(fields))
    ensures MembersIntact(NormalMembers(codec, members, fields), fields)
    decreases fields
  {
    if fields != [] {
      assert CanonicalFields(fields)[1..] == CanonicalFields(fields[1..]);
      NormalIsIntact(codec, members[0].value, fields[0].dataType);
      NormalMembersIntact(codec, members[1..], fields[1..]);
      assert NormalMembers(codec, members, fields)[1..] == NormalMembers(codec, members[1..], fields[1..]);
    }
  }

  lemma {:induction false} NullMembersIntact(codec: Codec, fields: seq<StructField>)
    ensures MembersConform(NullMembers(codec, fields), CanonicalFields(fields))
    ensures MembersIntact(NullMembers(codec, fields), fields)
    decreases fields
  {
    if fields != [] {
      assert CanonicalFields(fields)[1..] == CanonicalFields(fields[1..]);
      NullConforms(Canonical(fields[0].dataType));
      NormalIsIntact(codec, Null, fields[0].dataType);
      NullMembersIntact(codec, fields[1..]);
      assert NullMembers(codec, fields)[1..] == NullMembers(codec, fields[1..]);
    }
  }

  lemma NullConforms(d: DataType)
    ensures Conforms(Null, d)
  {
  }

  /** Exactly the intact values whose JSON texts encode as themselves are unchanged. */
  lemma {:induction false} NormalIsIdentityExactlyWhen(codec: Codec, v: Value, t: FenicDType)
    requires Conforms(v, Canonical(t))
    ensures Normal(codec, v, t) == v <==> Intact(v, t) && TextsFixed(codec, v, t)
  {
    if Intact(v, t) && TextsFixed(codec, v, t) {
      IntactStays(codec, v, t);
    } else {
      NormalIsIntact(codec, v, t);
      if Normal(codec, v, t) == v {
        forall s | HasJsonText(v, t, s) ensures EncodesAsItself(codec, s) {
          UnchangedTextIsFixed(codec, v, t, s);
        }
      }
    }
  }

  lemma {:induction false} IntactStays(codec: Codec, v: Value, t: FenicDType)
    requires Conforms(v, Canonical(t)) && Intact(v, t) && TextsFixed(codec, v, t)
    ensures Normal(codec, v, t) == v
    decreases t
  {
    match t {
      case ArrayType(e) =>
        if v.Items? {
          forall k | 0 <= k < |v.items| ensures Normal(codec, v.items[k], e) == v.items[k] {
            assert forall s :: HasJsonText(v.items[k], e, s) ==> HasJsonText(v, t, s);
            IntactStays(codec, v.items[k], e);
          }
          assert NormalAll(codec, v.items, e) == v.items;
        }
      case StructType(fields) =>
        assert forall s :: MembersHaveText(v.members, fields, s) ==> HasJsonText(v, t, s);
        IntactMembersStay(codec, v.members, fields);
      case JsonType =>
        assert v.Text? ==> HasJsonText(v, t, v.s);
      case _ =>
    }
  }

  lemma {:induction false} IntactMembersStay(codec: Codec, members: seq<Member>, fields: seq<StructField>)
    requires MembersConform(members, CanonicalFields(fields)) && MembersIntact(members, fields)
    requires forall s :: MembersHaveText(members, fields, s) ==> EncodesAsItself(codec, s)
    ensures NormalMembers(codec, members, fields) == members
    decreases fields
  {
    if fields != [] {
      assert CanonicalFields(fields)[1..] == CanonicalFields(fields[1..]);
      assert forall s :: HasJsonText(members[0].value, fields[0].dataType, s) ==> MembersHaveText(members, fields, s);
      IntactStays(codec, members[0].value, fields[0].dataType);
      assert forall s :: MembersHaveText(members[1..], fields[1..], s) ==> MembersHaveText(members, fields, s);
      IntactMembersStay(codec, members[1..], fields[1..]);
      assert members == [members[0]] + members[1..];
    }
  }

  lemma {:induction false} UnchangedTextIsFixed(codec: Codec, v: Value, t: FenicDType, s: string)
    requires Normal(codec, v, t) == v && HasJsonText(v, t, s)
    ensures EncodesAsItself(codec, s)
    decreases t
  {
    match t {
      case ArrayType(e) =>
        var k :| 0 <= k < |v.items| && HasJsonText(v.items[k], e, s);
        assert NormalAll(codec, v.items, e)[k] == v.items[k];
        UnchangedTextIsFixed(codec, v.items[k], e, s);
      case StructType(fields) =>
        UnchangedMemberIsFixed(codec, v.members, fields, s);
      case _ =>
    }
  }

  lemma {:induction false} UnchangedMemberIsFixed(codec: Codec, members: seq<Member>, fields: seq<StructField>,
                                                  s: string)
    requires NormalMembers(codec, members, fields) == members && MembersHaveText(members, fields, s)
    ensures EncodesAsItself(codec, s)
    decreases fields
  {
    var normal := NormalMembers(codec, members, fields);
    assert normal[1..] == NormalMembers(codec, members[1..], fields[1..]);
    if HasJsonText(members[0].value, fields[0].dataType, s) {
      assert normal[0].value == members[0].value;
      UnchangedTextIsFixed(codec, members[0].value, fields[0].dataType, s);
    } else {
      UnchangedMemberIsFixed(codec, members[1..], fields[1..], s);
    }
  }

  /** A string's text is longer than the string: it is quoted. */
  ghost predicate Lengthens(codec: Codec) {
    forall s :: |codec.encode(JString(s))| > |s|
  }

  ghost predicate NoJsonText(v: Value, t: FenicDType) { forall s :: !HasJsonText(v, t, s) }

  lemma FixedMeansNoText(codec: Codec, v: Value, t: FenicDType)
    requires Lengthens(codec)
    ensures TextsFixed(codec, v, t) <==> NoJsonText(v, t)
  {
    forall s ensures !EncodesAsItself(codec, s) {
      assert |codec.encode(JString(s))| > |s|;
    }
  }

  /** The types without JSON in them. */
  predicate JsonFree(t: FenicDType) {
    match t
    case ArrayType(e) => JsonFree(e)
    case StructType(fields) => AllJsonFree(fields)
    case _ => !t.JsonType?
  }

  predicate AllJsonFree(fields: seq<StructField>) {
    fields == [] || (JsonFree(fields[0].dataType) && AllJsonFree(fields[1..]))
  }

  lemma {:induction false} JsonFreeHasNoText(v: Value, t: FenicDType)
    requires JsonFree(t)
    ensures NoJsonText(v, t)
    decreases t
  {
    match t {
      case ArrayType(e) =>
        if v.Items? {
          forall k | 0 <= k < |v.items| ensures NoJsonText(v.items[k], e) {
            JsonFreeHasNoText(v.items[k], e);
          }
        }
      case StructType(fields) =>
        if v.Record? {
          JsonFreeMembersHaveNoText(v.members, fields);
        }
      case _ =>
    }
  }

  lemma {:induction false} JsonFreeMembersHaveNoText(members: seq<Member>, fields: seq<StructField>)
    requires AllJsonFree(fields)
    ensures forall s :: !MembersHaveText(members, fields, s)
    decreases fields
  {
    if fields != [] && members != [] {
      JsonFreeHasNoText(members[0].value, fields[0].dataType);
      JsonFreeMembersHaveNoText(members[1..], fields[1..]);
    }
  }

  /** Without JSON in the type a second normalisation changes nothing. */
  lemma NormalIsIdempotent(codec: Codec, v: Value, t: FenicDType)
    requires Conforms(v, Canonical(t)) && JsonFree(t)
    ensures Normal(codec, Normal(codec, v, t), t) == Normal(codec, v, t)
  {
    NormalIsIntact(codec, v, t);
    JsonFreeHasNoText(Normal(codec, v, t), t);
    IntactStays(codec, Normal(codec, v, t), t);
  }

  // ---------------------------------------------------------------- the round trip of one value

  predicate DistinctNames(fields: seq<StructField>) {
    forall a, b :: 0 <= a < b < |fields| ==> fields[a].name != fields[b].name
  }

  /** The types that the cast from JSON implements, with field names that tell the fields apart. */
  predicate Portable(t: FenicDType) {
    match t
    case StringType => true
    case IntegerType => true
    case FloatType => true
    case DoubleType => true
    case BooleanType => true
    case JsonType => true
    case EmbeddingType(_, _) => true
    case ArrayType(e) => Portable(e)
    case StructType(fields) => DistinctNames(fields) && AllPortable(fields)
    case _ => false
  }

  predicate AllPortable(fields: seq<StructField>) {
    fields == [] || (Portable(fields[0].dataType) && AllPortable(fields[1..]))
  }

  /** Casting a value to JSON and back gives its normal form. */
  lemma {:induction false} ValueRoundTrip(codec: Codec, v: Value, t: FenicDType)
    requires Portable(t) && Conforms(v, Canonical(t))
    ensures Cast(codec, ToJson(v), t) == Normal(codec, v, t)
    decreases t, 0
  {
    match t {
      case ArrayType(e) =>
        if v.Items? {
          ItemsRoundTrip(codec, v.items, e);
        }
      case EmbeddingType(n, _) =>
        VectorRoundTrip(codec, v, t);
      case StructType(fields) =>
        if v.Record? {
          CollectFinds(v.members, fields);
          FieldsRoundTrip(codec, ToJson(v), v.members, fields);
        } else {
          NullFieldsRoundTrip(codec, ToJson(v), fields);
        }
      case _ =>
    }
  }

  lemma {:induction false} ItemsRoundTrip(codec: Codec, items: seq<Value>, e: FenicDType)
    requires Portable(e) && forall k :: 0 <= k < |items| ==> Conforms(items[k], Canonical(e))
    ensures CastAll(codec, ToJsonAll(items), e) == NormalAll(codec, items, e)
    decreases e, 1
  {
    forall k | 0 <= k < |items| ensures Cast(codec, ToJson(items[k]), e) == Normal(codec, items[k], e) {
      ValueRoundTrip(codec, items[k], e);
    }
  }

  lemma VectorRoundTrip(codec: Codec, v: Value, t: FenicDType)
    requires t.EmbeddingType? && Conforms(v, Canonical(t))
    ensures Cast(codec, ToJson(v), t) == Normal(codec, v, t)
  {
    var n := t.dimensions;
    if v.Items? {
      var j := ToJson(v);
      assert forall k :: 0 <= k < n ==> (AsF64(j.items[k]).Some? <==> v.items[k].Number? && v.items[k].f.Finite?);
      if AllFinite(v.items) {
        assert Vector(j, n) == v.items;
      }
    }
  }

  /** Under distinct names every field's entry is found. */
  lemma {:induction false} CollectFinds(members: seq<Member>, fields: seq<StructField>)
    requires MembersConform(members, CanonicalFields(fields)) && DistinctNames(fields)
    ensures |members| == |fields|
    ensures forall k :: 0 <= k < |fields| ==>
              Get(JObject(Collect(Entries(members))), fields[k].name) == ToJson(members[k].value)
    decreases fields
  {
    if fields != [] {
      assert CanonicalFields(fields)[1..] == CanonicalFields(fields[1..]);
      CollectFinds(members[1..], fields[1..]);
      assert Entries(members)[1..] == Entries(members[1..]);
      var all, rest := Collect(Entries(members)), Collect(Entries(members[1..]));
      assert all == map[fields[0].name := ToJson(members[0].value)] + rest;
      CollectNames(members[1..], fields[1..], fields[0].name);
      forall k | 0 < k < |fields| ensures Get(JObject(all), fields[k].name) == ToJson(members[k].value) {
        assert fields[1..][k - 1] == fields[k] && members[1..][k - 1] == members[k];
      }
    }
  }

  lemma {:induction false} CollectNames(members: seq<Member>, fields: seq<StructField>, name: string)
    requires MembersConform(members, CanonicalFields(fields))
    requires forall k :: 0 <= k < |fields| ==> fields[k].name != name
    ensures name !in Collect(Entries(members))
    decreases fields
  {
    if fields != [] {
      assert CanonicalFields(fields)[1..] == CanonicalFields(fields[1..]);
      CollectNames(members[1..], fields[1..], name);
      assert Entries(members)[1..] == Entries(members[1..]);
    }
  }

  lemma {:induction false} FieldsRoundTrip(codec: Codec, j: Json, members: seq<Member>, fields: seq<StructField>)
    requires AllPortable(fields) && MembersConform(members, CanonicalFields(fields)) && |members| == |fields|
    requires forall k :: 0 <= k < |fields| ==> Get(j, fields[k].name) == ToJson(members[k].value)
    ensures CastFields(codec, j, fields) == NormalMembers(codec, members, fields)
    decreases fields
  {
    if fields != [] {
      assert CanonicalFields(fields)[1..] == CanonicalFields(fields[1..]);
      ValueRoundTrip(codec, members[0].value, fields[0].dataType);
      FieldsRoundTrip(codec, j, members[1..], fields[1..]);
    }
  }

  lemma {:induction false} NullFieldsRoundTrip(codec: Codec, j: Json, fields: seq<StructField>)
    requires AllPortable(fields) && j == JNull
    ensures CastFields(codec, j, fields) == NullMembers(codec, fields)
    decreases fields
  {
    if fields != [] {
      assert CanonicalFields(fields)[1..] == CanonicalFields(fields[1..]);
      NullConforms(Canonical(fields[0].dataType));
      ValueRoundTrip(codec, Null, fields[0].dataType);
      NullFieldsRoundTrip(codec, j, fields[1..]);
    }
  }

  /** What comes out of JSON has no null structs and only finite numbers. */
  lemma {:induction false} CastIsIntact(codec: Codec, j: Json, t: FenicDType)
    requires Portable(t)
    ensures Conforms(Cast(codec, j, t), Canonical(t)) && Intact(Cast(codec, j, t), t)
    decreases t
  {
    match t {
      case ArrayType(e) =>
        if j.JArray? {
          forall k | 0 <= k < |j.items|
            ensures Conforms(Cast(codec, j.items[k], e), Canonical(e))
            ensures Intact(Cast(codec, j.items[k], e), e)
          {
            CastIsIntact(codec, j.items[k], e);
          }
        }
      case StructType(fields) =>
        CastFieldsIntact(codec, j, fields);
      case _ =>
    }
  }

  lemma {:induction false} CastFieldsIntact(codec: Codec, j: Json, fields: seq<StructField>)
    requires AllPortable(fields)
    ensures MembersConform(CastFields(codec, j, fields), CanonicalFields(fields))
    ensures MembersIntact(CastFields(codec, j, fields), fields)
    decreases fields
  {
    if fields != [] {
      CastIsIntact(codec, Get(j, fields[0].name), fields[0].dataType);
      CastFieldsIntact(codec, j, fields[1..]);
      assert CanonicalFields(fields)[1..] == CanonicalFields(fields[1..]);
      assert CastFields(codec, j, fields)[1..] == CastFields(codec, j, fields[1..]);
    }
  }

  /** To JSON and back is the identity exactly on the intact values whose JSON texts encode as
    * themselves; where strings are quoted, exactly on the intact values that hold no JSON text. */
  lemma RoundTripIsIdentityExactlyWhen(codec: Codec, v: Value, t: FenicDType)
    requires Portable(t) && Conforms(v, Canonical(t))
    ensures Cast(codec, ToJson(v), t) == v <==> Intact(v, t) && TextsFixed(codec, v, t)
    ensures Lengthens(codec) ==> (Cast(codec, ToJson(v), t) == v <==> Intact(v, t) && NoJsonText(v, t))
  {
    ValueRoundTrip(codec, v, t);
    NormalIsIdentityExactlyWhen(codec, v, t);
    if Lengthens(codec) {
      FixedMeansNoText(codec, v, t);
    }
  }

  /** At any depth, the JSON texts that come back are those that went out, each encoded once more. */
  lemma NestedJsonIsEncodedTwice(codec: Codec, v: Value, t: FenicDType, text: string)
    requires Portable(t) && Conforms(v, Canonical(t))
    ensures HasJsonText(Cast(codec, ToJson(v), t), t, text)
        <==> exists s :: HasJsonText(v, t, s) && text == codec.encode(JString(s))
  {
    ValueRoundTrip(codec, v, t);
    if s :| HasJsonText(v, t, s) && text == codec.encode(JString(s)) {
      TextIsEncoded(codec, v, t, s);
    }
    if HasJsonText(Normal(codec, v, t), t, text) {
      var s := EncodedText(codec, v, t, text);
    }
  }

  lemma {:induction false} TextIsEncoded(codec: Codec, v: Value, t: FenicDType, s: string)
    requires HasJsonText(v, t, s)
    ensures HasJsonText(Normal(codec, v, t), t, codec.encode(JString(s)))
    decreases t
  {
    match t {
      case ArrayType(e) =>
        var k :| 0 <= k < |v.items| && HasJsonText(v.items[k], e, s);
        TextIsEncoded(codec, v.items[k], e, s);
        assert NormalAll(codec, v.items, e)[k] == Normal(codec, v.items[k], e);
      case StructType(fields) =>
        MemberTextIsEncoded(codec, v.members, fields, s);
      case _ =>
    }
  }

  lemma {:induction false} MemberTextIsEncoded(codec: Codec, members: seq<Member>, fields: seq<StructField>, s: string)
    requires MembersHaveText(members, fields, s)
    ensures MembersHaveText(NormalMembers(codec, members, fields), fields, codec.encode(JString(s)))
    decreases fields
  {
    assert NormalMembers(codec, members, fields)[1..] == NormalMembers(codec, members[1..], fields[1..]);
    if HasJsonText(members[0].value, fields[0].dataType, s) {
      TextIsEncoded(codec, members[0].value, fields[0].dataType, s);
    } else {
      MemberTextIsEncoded(codec, members[1..], fields[1..], s);
    }
  }

  lemma {:induction false} EncodedText(codec: Codec, v: Value, t: FenicDType, text: string) returns (s: string)
    requires Conforms(v, Canonical(t)) && HasJsonText(Normal(codec, v, t), t, text)
    ensures HasJsonText(v, t, s) && text == codec.encode(JString(s))
    decreases t
  {
    if t.ArrayType? {
      var k :| 0 <= k < |v.items| && HasJsonText(NormalAll(codec, v.items, t.elementType)[k], t.elementType, text);
      s := EncodedText(codec, v.items[k], t.elementType, text);
    } else if t.StructType? {
      NullsHaveNoText(codec, t.structFields, text);
      s := EncodedMemberText(codec, v.members, t.structFields, text);
    } else {
      s := v.s;
    }
  }

  lemma {:induction false} EncodedMemberText(codec: Codec, members: seq<Member>, fields: seq<StructField>,
                                             text: string) returns (s: string)
    requires MembersConform(members, CanonicalFields(fields))
    requires MembersHaveText(NormalMembers(codec, members, fields), fields, text)
    ensures MembersHaveText(members, fields, s) && text == codec.encode(JString(s))
    decreases fields
  {
    assert CanonicalFields(fields)[1..] == CanonicalFields(fields[1..]);
    assert NormalMembers(codec, members, fields)[1..] == NormalMembers(codec, members[1..], fields[1..]);
    if HasJsonText(Normal(codec, members[0].value, fields[0].dataType), fields[0].dataType, text) {
      s := EncodedText(codec, members[0].value, fields[0].dataType, text);
    } else {
      s := EncodedMemberText(codec, members[1..], fields[1..], text);
    }
  }

  lemma {:induction false} NullsHaveNoText(codec: Codec, fields: seq<StructField>, text: string)
    ensures !MembersHaveText(NullMembers(codec, fields), fields, text)
    decreases fields
  {
    if fields != [] {
      assert NullMembers(codec, fields)[1..] == NullMembers(codec, fields[1..]);
      NullsHaveNoText(codec, fields[1..], text);
      var t := fields[0].dataType;
      if t.StructType? {
        NullsHaveNoText(codec, t.structFields, text);
      }
    }
  }

  /** One cast from JSON settles a value, unless it gave JSON text: going to JSON and back again changes
    * nothing more exactly when each JSON text encodes as itself. */
  lemma CastIsStable(codec: Codec, j: Json, t: FenicDType)
    requires Portable(t)
    ensures var v := Cast(codec, j, t);
            && (Cast(codec, ToJson(v), t) == v <==> TextsFixed(codec, v, t))
            && (JsonFree(t) ==> Cast(codec, ToJson(v), t) == v)
  {
    var v := Cast(codec, j, t);
    CastIsIntact(codec, j, t);
    RoundTripIsIdentityExactlyWhen(codec, v, t);
    if JsonFree(t) {
      JsonFreeHasNoText(v, t);
    }
  }

  // ---------------------------------------------------------------- columns from JSON

  function Project(js: seq<Json>, name: string): (r: seq<Json>)
    ensures |r| == |js|
  {
    seq(|js|, k requires 0 <= k < |js| => Get(js[k], name))
  }

  /** The column built for a type. */
  function BuildColumn(codec: Codec, js: seq<Json>, t: FenicDType): Column
    decreases t, 0
  {
    match t
    case ArrayType(e) => Lists(Canonical(e), BuildLists(codec, js, e))
    case EmbeddingType(n, _) => FixedLists(n, Buffer(js, n), seq(|js|, k requires 0 <= k < |js| => IsVector(js[k], n)))
    case StructType(fields) => Structs(BuildFields(codec, js, fields), seq(|js|, k => true))
    case _ => Scalars(Canonical(t), CastAll(codec, js, t))
  }

  function BuildLists(codec: Codec, js: seq<Json>, e: FenicDType): (r: seq<Option<Column>>)
    ensures |r| == |js|
    decreases e, 1
  {
    seq(|js|, k requires 0 <= k < |js| => if js[k].JArray? then Some(BuildColumn(codec, js[k].items, e)) else None)
  }

  function BuildFields(codec: Codec, js: seq<Json>, fields: seq<StructField>): seq<ColumnField>
    decreases fields
  {
    if fields == [] then []
    else [ColumnField(fields[0].name, BuildColumn(codec, Project(js, fields[0].name), fields[0].dataType))]
         + BuildFields(codec, js, fields[1..])
  }

  /** The flat buffer: each row's numbers, or zeros for a row that is not a vector. */
  function Buffer(js: seq<Json>, n: nat): seq<Value> {
    if js == [] then [] else Buffer(js[..|js| - 1], n) + Slot(js[|js| - 1], n)
  }

  function Zeros(n: nat): (r: seq<Value>)
    ensures |r| == n && forall k :: 0 <= k < n ==> r[k] == Number(Finite(0.0))
  {
    seq(n, k => Number(Finite(0.0)))
  }

  function Slot(j: Json, n: nat): (r: seq<Value>)
    ensures |r| == n
  {
    if IsVector(j, n) then Vector(j, n) else Zeros(n)
  }

  /** The flat buffer has `n` entries per row, and they are numbers. */
  lemma {:induction false} BufferFits(js: seq<Json>, n: nat)
    ensures |Buffer(js, n)| == |js| * n
    ensures forall k :: 0 <= k < |Buffer(js, n)| ==> IsScalarOf(Buffer(js, n)[k], Float32)
  {
    if js != [] {
      BufferFits(js[..|js| - 1], n);
      RowInFlat(|js| - 1, |js|, n);
    }
  }

  /** Row `i`'s entries are where they are looked for. */
  lemma {:induction false} BufferSlot(js: seq<Json>, n: nat, i: nat)
    requires i < |js|
    ensures SlotAt(Buffer(js, n), js, n, i)
  {
    var m := |js| - 1;
    BufferFits(js[..m], n);
    if i < m {
      BufferSlot(js[..m], n, i);
      EarlierSlotStays(Buffer(js[..m], n), Slot(js[m], n), js, n, i);
    } else {
      RowInFlat(m, |js|, n);
    }
  }

  lemma EarlierSlotStays(before: seq<Value>, slot: seq<Value>, js: seq<Json>, n: nat, i: nat)
    requires i < |js| - 1 && SlotAt(before, js[..|js| - 1], n, i)
    ensures SlotAt(before + slot, js, n, i)
  {
    assert (before + slot)[i * n..(i + 1) * n] == before[i * n..(i + 1) * n];
  }

  predicate SlotAt(flat: seq<Value>, js: seq<Json>, n: nat, i: nat)
    requires i < |js|
  {
    0 <= i * n <= (i + 1) * n <= |flat| && flat[i * n..(i + 1) * n] == Slot(js[i], n)
  }

  ghost predicate BuiltFor(codec: Codec, c: Column, js: seq<Json>, t: FenicDType) {
    && WellFormed(c) && Len(c) == |js| && TypeOf(c) == Canonical(t)
    && forall i :: 0 <= i < |js| ==> At(c, i) == Cast(codec, js[i], t)
  }

  /** The column has one row per value, the type's storage, and in each row the cast of that value. */
  lemma {:induction false} BuildRefinesCast(codec: Codec, js: seq<Json>, t: FenicDType)
    ensures BuiltFor(codec, BuildColumn(codec, js, t), js, t)
    decreases t, 0
  {
    match t {
      case ArrayType(e) =>
        ListsRefineCast(codec, js, e);
      case EmbeddingType(_, _) =>
        VectorsRefineCast(codec, js, t);
      case StructType(fields) =>
        RecordsRefineCast(codec, js, t);
      case _ =>
        ScalarsRefineCast(codec, js, t);
    }
  }

  predicate IsNested(t: FenicDType) { t.ArrayType? || t.EmbeddingType? || t.StructType? }

  lemma ScalarsRefineCast(codec: Codec, js: seq<Json>, t: FenicDType)
    requires !IsNested(t)
    ensures BuiltFor(codec, BuildColumn(codec, js, t), js, t)
  {
    var rows := CastAll(codec, js, t);
    forall k | 0 <= k < |rows| ensures IsScalarOf(rows[k], Canonical(t)) {
      assert rows[k] == Cast(codec, js[k], t);
    }
  }

  /** In the flat buffer every row has its `n` entries, and a row is valid exactly when its JSON value
    * is an array of `n` numbers. */
  lemma VectorsRefineCast(codec: Codec, js: seq<Json>, t: FenicDType)
    requires t.EmbeddingType?
    ensures BuiltFor(codec, BuildColumn(codec, js, t), js, t)
  {
    var n, c := t.dimensions, BuildColumn(codec, js, t);
    BufferFits(js, n);
    forall i | 0 <= i < |js| ensures At(c, i) == Cast(codec, js[i], t) {
      BufferSlot(js, n, i);
    }
  }

  lemma {:induction false} RecordsRefineCast(codec: Codec, js: seq<Json>, t: FenicDType)
    requires t.StructType?
    ensures BuiltFor(codec, BuildColumn(codec, js, t), js, t)
    decreases t.structFields, 1
  {
    var fields, c := t.structFields, BuildColumn(codec, js, t);
    FieldsWellBuilt(codec, js, fields);
    forall i | 0 <= i < |js| ensures At(c, i) == Cast(codec, js[i], t) {
      FieldRowsRefineCast(codec, js, fields, i);
    }
  }

  lemma {:induction false} ListsRefineCast(codec: Codec, js: seq<Json>, e: FenicDType)
    ensures BuiltFor(codec, BuildColumn(codec, js, ArrayType(e)), js, ArrayType(e))
    decreases e, 1
  {
    var lists := BuildLists(codec, js, e);
    forall k | 0 <= k < |js|
      ensures ListWellFormed(lists[k], Canonical(e))
      ensures AtList(lists[k], Canonical(e)) == Cast(codec, js[k], ArrayType(e))
    {
      if js[k].JArray? {
        BuildRefinesCast(codec, js[k].items, e);
        assert AllRows(lists[k].value) == CastAll(codec, js[k].items, e);
      }
    }
    assert ListsWellFormed(lists, Canonical(e));
  }

  lemma {:induction false} FieldsWellBuilt(codec: Codec, js: seq<Json>, fields: seq<StructField>)
    ensures FieldsWellFormed(BuildFields(codec, js, fields), |js|)
    ensures FieldTypes(BuildFields(codec, js, fields)) == CanonicalFields(fields)
    decreases fields, 0
  {
    if fields != [] {
      BuildRefinesCast(codec, Project(js, fields[0].name), fields[0].dataType);
      FieldsWellBuilt(codec, js, fields[1..]);
      assert BuildFields(codec, js, fields)[1..] == BuildFields(codec, js, fields[1..]);
    }
  }

  lemma {:induction false} FieldRowsRefineCast(codec: Codec, js: seq<Json>, fields: seq<StructField>, i: nat)
    requires i < |js| && FieldsWellFormed(BuildFields(codec, js, fields), |js|)
    ensures AtFields(BuildFields(codec, js, fields), |js|, i) == CastFields(codec, js[i], fields)
    decreases fields, 0
  {
    if fields != [] {
      BuildRefinesCast(codec, Project(js, fields[0].name), fields[0].dataType);
      assert BuildFields(codec, js, fields)[1..] == BuildFields(codec, js, fields[1..]);
      FieldRowsRefineCast(codec, js, fields[1..], i);
    }
  }

  // ---------------------------------------------------------------- where the cast panics

  predicate HasBuilder(t: FenicDType) {
    t.StringType? || t.IntegerType? || t.FloatType? || t.DoubleType? || t.BooleanType? || t.ArrayType?
    || t.EmbeddingType? || t.StructType? || t.JsonType?
  }

  /** A type without a builder is reached: a field always is, an element type only by an actual array. */
  predicate Panics(js: seq<Json>, t: FenicDType)
    decreases t
  {
    match t
    case ArrayType(e) => exists k :: 0 <= k < |js| && js[k].JArray? && Panics(js[k].items, e)
    case StructType(fields) => FieldsPanic(js, fields)
    case _ => !HasBuilder(t)
  }

  predicate FieldsPanic(js: seq<Json>, fields: seq<StructField>)
    decreases fields
  {
    fields != [] && (Panics(Project(js, fields[0].name), fields[0].dataType) || FieldsPanic(js, fields[1..]))
  }

  lemma {:induction false} PortableNeverPanics(js: seq<Json>, t: FenicDType)
    requires Portable(t)
    ensures !Panics(js, t)
    decreases t
  {
    match t {
      case ArrayType(e) =>
        forall k | 0 <= k < |js| && js[k].JArray? ensures !Panics(js[k].items, e) {
          PortableNeverPanics(js[k].items, e);
        }
      case StructType(fields) =>
        PortableFieldsNeverPanic(js, fields);
      case _ =>
    }
  }

  lemma {:induction false} PortableFieldsNeverPanic(js: seq<Json>, fields: seq<StructField>)
    requires AllPortable(fields)
    ensures !FieldsPanic(js, fields)
    decreases fields
  {
    if fields != [] {
      PortableNeverPanics(Project(js, fields[0].name), fields[0].dataType);
      PortableFieldsNeverPanic(js, fields[1..]);
    }
  }
}
