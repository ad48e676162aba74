/** Request assembly for search, hybrid search and query: target vectors into a
    placeholder, caller search parameters emitted both flat and as one JSON blob,
    the fixed parameters after them, and the guarantee timestamp chosen by the
    consistency level. */
module SearchAssembly {
  import opened MilvusTypes
  import opened LittleEndian
  import opened SparseCodec
  import opened FieldPacking
  import opened JavaStrings
  import opened HybridSearch
  import SortedEntries

  datatype KeyValuePair = KeyValuePair(key: string, value: string)

  /** The parameter keys the requests carry. Constant.java is not part of this
      model; these are the key strings the server reads. */
  const VectorFieldKey: string := "anns_field"
  const TopKKey: string := "topk"
  const RoundDecimalKey: string := "round_decimal"
  const IgnoreGrowingKey: string := "ignore_growing"
  const OffsetKey: string := "offset"
  const LimitKey: string := "limit"
  const MetricTypeKey: string := "metric_type"
  const GroupByFieldKey: string := "group_by_field"
  const GroupSizeKey: string := "group_size"
  const StrictGroupSizeKey: string := "strict_group_size"
  const ParamsKey: string := "params"
  /** MetricType.None.name(): the metric type that is not sent. */
  const MetricNone: string := "None"

  /** A string field set only when the value is non-null and non-empty; otherwise
      the message keeps its default, the empty string. */
  function NonEmptyOr(s: Option<string>): string
  {
    if s.Some? && s.value != "" then s.value else ""
  }

  // ---------------------------------------------------------------- consistency

  /** The process-wide table of last write timestamps, keyed by database and
      collection name. GTsDict.java is not part of this model: the table is an
      argument, keyed by the pair CombineCollectionName combines. */
  type TimestampCache = map<(Option<string>, string), int>

  function CachedTimestamp(cache: TimestampCache, db: Option<string>, collection: string): int
  {
    if (db, collection) in cache then cache[(db, collection)] else 1
  }

  /** getGuaranteeTimestamp: Strong reads everything (0), Bounded lets the server
      choose (2), Session and an unspecified level wait for this client's last
      write (the cached timestamp, 1 when there is none), any other level reads
      what is there (1). */
  function GuaranteeTimestamp(level: Option<ConsistencyLevel>, db: Option<string>, collection: string, cache: TimestampCache): (ts: int)
    ensures level == Some(Strong) ==> ts == 0
    ensures level == Some(Bounded) ==> ts == 2
    ensures level == Some(Eventually) ==> ts == 1
    ensures level.None? || level == Some(Session) ==> ts == CachedTimestamp(cache, db, collection)
  {
    if level.None? then CachedTimestamp(cache, db, collection)
    else match level.value
      case Strong => 0
      case Session => CachedTimestamp(cache, db, collection)
      case Bounded => 2
      case Eventually => 1
  }

  /** Only Session and an unspecified level consult the table, and the two agree. */
  lemma TimestampCacheUse(level: Option<ConsistencyLevel>, db: Option<string>, collection: string, c1: TimestampCache, c2: TimestampCache)
    ensures level.Some? && level != Some(Session) ==>
      GuaranteeTimestamp(level, db, collection, c1) == GuaranteeTimestamp(level, db, collection, c2)
    ensures GuaranteeTimestamp(Option.None, db, collection, c1) == GuaranteeTimestamp(Some(Session), db, collection, c1)
    ensures (db, collection) !in c1 ==> GuaranteeTimestamp(level, db, collection, c1) in {0, 1, 2}
  {
  }

  /** How a request states its consistency: the level's code, or the flag asking
      the server for the collection's default when no level is given. */
  datatype Consistency = UseDefaultConsistency | ConsistencyLevelValue(level: ConsistencyLevel)

  function ConsistencyOf(level: Option<ConsistencyLevel>): (c: Consistency)
    ensures c.UseDefaultConsistency? <==> level.None?
    ensures level.Some? ==> c.level == level.value
  {
    if level.None? then UseDefaultConsistency else ConsistencyLevelValue(level.value)
  }

  // ---------------------------------------------------------------- placeholder

  /** A PlaceholderValue: the vector kind and one byte string per target vector.
      The tag and the serialised PlaceholderGroup around it are not modelled. */
  datatype PlaceholderValue = PlaceholderValue(plType: PlaceholderType, values: seq<seq<Byte>>)

  /** The floats of a float vector, four little-endian bytes each. */
  function FloatBytes(fs: seq<Float32>): (r: seq<Byte>)
    ensures |r| == 4 * |fs|
  {
    if fs == [] then [] else FloatBytes(fs[..|fs| - 1]) + Le32(fs[|fs| - 1])
  }

  /** Float i of a float vector occupies bytes 4i to 4i+3, least significant
      first. */
  lemma {:induction false} FloatBytesLayout(fs: seq<Float32>, i: nat)
    requires i < |fs|
    ensures FloatBytes(fs)[4 * i..4 * i + 4] == Le32(fs[i])
    ensures FromLe32(FloatBytes(fs)[4 * i..4 * i + 4]) == fs[i]
  {
    var n := |fs| - 1;
    if i < n {
      FloatBytesLayout(fs[..n], i);
      assert fs[..n][i] == fs[i];
      assert FloatBytes(fs)[..4 * n] == FloatBytes(fs[..n]);
    }
    FromLe32OfLe32(fs[i]);
  }

  /** One target vector: a list of Floats is a float vector, a ByteBuffer a binary
      (or half-precision or int8) vector, a sorted map a sparse vector; anything
      else, null included, is refused. */
  function TargetOf(v: Obj): Result<(PlaceholderType, seq<Byte>)>
  {
    match v
    case JList(items) =>
      var f := FloatsOf(items);
      if f.Err? then Err(f.error) else Ok((PlFloatVector, FloatBytes(f.value)))
    case JByteBuffer(bytes, _) => Ok((PlBinaryVector, bytes))
    case JSortedMap(entries) =>
      var e := Encoding(entries);
      if e.Err? then Err(e.error) else Ok((PlSparseFloatVector, e.value))
    case _ => Err(IllegalSearchVector)
  }

  /** convertPlaceholder: every vector's bytes in order; the kind is the forced one
      when given, otherwise that of the last vector (None for no vectors). */
  function Placeholder(vectors: seq<Obj>, placeType: PlaceholderType): Result<PlaceholderValue>
  {
    var t := CollectAll(vectors, TargetOf);
    if t.Err? then Err(t.error)
    else
      var inferred := if vectors == [] then PlNone else t.value[|t.value| - 1].0;
      Ok(PlaceholderValue(if placeType != PlNone then placeType else inferred,
                          seq(|t.value|, i requires 0 <= i < |t.value| => t.value[i].1)))
  }

  /** The placeholder is built exactly when every vector is accepted; it then holds
      one byte string per vector, that vector's encoding, and its kind is the
      forced kind or the last vector's. */
  lemma PlaceholderContents(vectors: seq<Obj>, placeType: PlaceholderType)
    ensures Placeholder(vectors, placeType).Ok? <==> forall i :: 0 <= i < |vectors| ==> TargetOf(vectors[i]).Ok?
    ensures Placeholder(vectors, placeType).Ok? ==>
      var p := Placeholder(vectors, placeType).value;
      && |p.values| == |vectors|
      && (forall i :: 0 <= i < |vectors| ==> p.values[i] == TargetOf(vectors[i]).value.1)
      && p.plType == (if placeType != PlNone then placeType
                      else if vectors == [] then PlNone
                      else TargetOf(vectors[|vectors| - 1]).value.0)
  {
    CollectAllOkIff(vectors, TargetOf);
  }

  /** A list of Floats becomes the little-endian bytes of its floats, and a sorted
      map the sparse encoding, which decodes back to the map. */
  lemma TargetEncodings(v: Obj)
    ensures v.JList? && TargetOf(v).Ok? ==>
      |TargetOf(v).value.1| == 4 * |v.items| &&
      forall i :: 0 <= i < |v.items| ==>
        v.items[i].JFloat? && FromLe32(TargetOf(v).value.1[4 * i..4 * i + 4]) == v.items[i].f
    ensures v.JSortedMap? && TargetOf(v).Ok? && SortedEntries.Ascending(v.entries) ==>
      Decoding(TargetOf(v).value.1) == v.entries
  {
    if v.JList? && TargetOf(v).Ok? {
      var fs := FloatsOf(v.items).value;
      FloatsOfValues(v.items);
      forall i | 0 <= i < |v.items|
        ensures FromLe32(TargetOf(v).value.1[4 * i..4 * i + 4]) == v.items[i].f
      {
        FloatBytesLayout(fs, i);
      }
    }
    if v.JSortedMap? && TargetOf(v).Ok? && SortedEntries.Ascending(v.entries) {
      EncodingFailsIff(v.entries);
      DecodeEncodeRoundTrip(v.entries);
    }
  }

  /** The floats copied out of a list of Floats are the list's values. */
  lemma {:induction false} FloatsOfValues(items: seq<Obj>)
    requires FloatsOf(items).Ok?
    ensures forall i :: 0 <= i < |items| ==> items[i].JFloat? && FloatsOf(items).value[i] == items[i].f
  {
    if items != [] {
      FloatsOfValues(items[1..]);
      forall i | 0 < i < |items| ensures FloatsOf(items).value[i] == items[i].f {
        assert items[1..][i - 1] == items[i];
      }
    }
  }

  /** The float list branch: each Float written as four little-endian bytes. */
  method PutFloats(items: seq<Obj>) returns (r: Result<seq<Byte>>)
    ensures r.Err? <==> FloatsOf(items).Err?
    ensures r.Err? ==> r.error == FloatsOf(items).error
    ensures r.Ok? ==> r.value == FloatBytes(FloatsOf(items).value)
  {
    var bytes: seq<Byte> := [];
    ghost var floats: seq<Float32> := [];
    var i := 0;
    while i < |items|
      invariant 0 <= i <= |items|
      invariant FloatsOfPrefix(items, i) == Ok(floats)
      invariant bytes == FloatBytes(floats)
    {
      FloatsOfPrefixStep(items, i);
      if items[i] == Null {
        return Err(Runtime(NullPointer));
      }
      if !items[i].JFloat? {
        return Err(Runtime(ClassCast));
      }
      assert (floats + [items[i].f])[..|floats|] == floats;
      bytes := bytes + Le32(items[i].f);
      floats := floats + [items[i].f];
      i := i + 1;
    }
    FloatsOfPrefixStep(items, i);
    return Ok(bytes);
  }

  /** The floats of the first n items, when they are all Floats. */
  function FloatsOfPrefix(items: seq<Obj>, n: nat): Result<seq<Float32>>
    requires n <= |items|
  {
    if n == 0 then Ok([])
    else
      var r := FloatsOfPrefix(items, n - 1);
      if r.Err? then r
      else if items[n - 1] == Null then Err(Runtime(NullPointer))
      else if !items[n - 1].JFloat? then Err(Runtime(ClassCast))
      else Ok(r.value + [items[n - 1].f])
  }

  /** Copying the floats one at a time meets the whole-list copy: a failing item
      is the failure of the whole list, and all n items copied are the list. */
  lemma {:induction false} FloatsOfPrefixStep(items: seq<Obj>, n: nat)
    requires n <= |items|
    requires FloatsOfPrefix(items, n).Ok?
    ensures n == |items| ==> FloatsOf(items) == FloatsOfPrefix(items, n)
    ensures n < |items| && (items[n] == Null || !items[n].JFloat?) ==>
      FloatsOf(items) == FloatsOfPrefix(items, n + 1)
    decreases |items|
  {
    if items != [] {
      if n == 0 {
        if items[0] != Null && items[0].JFloat? {
          FloatsOfEmptyPrefix(items[1..]);
        }
      } else {
        FloatsOfPrefixTail(items, n);
        FloatsOfPrefixStep(items[1..], n - 1);
      }
    }
  }

  lemma FloatsOfEmptyPrefix(items: seq<Obj>)
    ensures FloatsOfPrefix(items, 0) == Ok([])
  {
  }

  /** The prefix copy of a list whose first item is a Float: that float, then the
      copy of the rest. */
  lemma {:induction false} FloatsOfPrefixTail(items: seq<Obj>, n: nat)
    requires 1 <= n <= |items|
    requires FloatsOfPrefix(items, n).Ok?
    ensures items[0] != Null && items[0].JFloat?
    ensures FloatsOfPrefix(items[1..], n - 1).Ok?
    ensures FloatsOfPrefix(items, n).value == [items[0].f] + FloatsOfPrefix(items[1..], n - 1).value
  {
    if n > 1 {
      FloatsOfPrefixTail(items, n - 1);
      assert items[1..][n - 2] == items[n - 1];
    }
  }

  /** convertPlaceholder: the loop over the target vectors. */
  method ConvertPlaceholder(vectors: seq<Obj>, placeType: PlaceholderType) returns (r: Result<PlaceholderValue>)
    ensures r == Placeholder(vectors, placeType)
  {
    var plType := PlNone;
    var byteStrings: seq<seq<Byte>> := [];
    ghost var done: seq<(PlaceholderType, seq<Byte>)> := [];
    var i := 0;
    while i < |vectors|
      invariant 0 <= i <= |vectors|
      invariant CollectAll(vectors[..i], TargetOf) == Ok(done)
      invariant |byteStrings| == |done| && forall k :: 0 <= k < |done| ==> byteStrings[k] == done[k].1
      invariant plType == if i == 0 then PlNone else done[i - 1].0
    {
      CollectAllExtend(vectors, TargetOf, i);
      var vector := vectors[i];
      var bs: seq<Byte>;
      if vector.JList? {
        plType := PlFloatVector;
        var f := PutFloats(vector.items);
        if f.Err? {
          return Err(f.error);
        }
        bs := f.value;
      } else if vector.JByteBuffer? {
        plType := PlBinaryVector;
        bs := vector.bytes;
      } else if vector.JSortedMap? {
        plType := PlSparseFloatVector;
        var e := EncodeSparseFloatVector(vector.entries);
        if e.Err? {
          return Err(e.error);
        }
        bs := e.value;
      } else {
        return Err(IllegalSearchVector);
      }
      byteStrings := byteStrings + [bs];
      done := done + [(plType, bs)];
      i := i + 1;
    }
    assert vectors[..i] == vectors;
    assert byteStrings == seq(|done|, k requires 0 <= k < |done| => done[k].1);
    if placeType != PlNone {
      plType := placeType;
    }
    return Ok(PlaceholderValue(plType, byteStrings));
  }

  // ---------------------------------------------------------------- parameter lists

  /** The value the server reads for `key`: a later pair overrides an earlier one. */
  function EffectiveValue(kvs: seq<KeyValuePair>, key: string): Option<string>
  {
    if kvs == [] then Option.None
    else if kvs[|kvs| - 1].key == key then Some(kvs[|kvs| - 1].value)
    else EffectiveValue(kvs[..|kvs| - 1], key)
  }

  /** Pairs appended later take precedence over earlier ones. */
  lemma {:induction false} EffectiveValueAppend(a: seq<KeyValuePair>, b: seq<KeyValuePair>, key: string)
    ensures EffectiveValue(a + b, key) == if EffectiveValue(b, key).Some? then EffectiveValue(b, key) else EffectiveValue(a, key)
  {
    if b != [] {
      var n := |b| - 1;
      assert (a + b)[..|a| + n] == a + b[..n];
      EffectiveValueAppend(a, b[..n], key);
    } else {
      assert a + b == a;
    }
  }

  /** A key occurs in a list exactly when the server reads a value for it, and the
      value read is that of its last pair. */
  lemma {:induction false} EffectiveValueAt(kvs: seq<KeyValuePair>, key: string)
    ensures EffectiveValue(kvs, key).None? <==> forall i :: 0 <= i < |kvs| ==> kvs[i].key != key
    ensures EffectiveValue(kvs, key).Some? ==>
      exists i :: 0 <= i < |kvs| && kvs[i] == KeyValuePair(key, EffectiveValue(kvs, key).value) &&
        forall j :: i < j < |kvs| ==> kvs[j].key != key
  {
    if kvs != [] {
      var n := |kvs| - 1;
      EffectiveValueAt(kvs[..n], key);
      assert forall i :: 0 <= i < n ==> kvs[..n][i] == kvs[i];
      if kvs[n].key != key && EffectiveValue(kvs, key).Some? {
        var i :| 0 <= i < n && kvs[..n][i] == KeyValuePair(key, EffectiveValue(kvs, key).value) &&
          forall j :: i < j < n ==> kvs[..n][j].key != key;
        assert kvs[i] == KeyValuePair(key, EffectiveValue(kvs, key).value);
      }
    }
  }

  /** The pair at i is read when no later pair has its key. */
  lemma EffectiveValueLast(kvs: seq<KeyValuePair>, i: nat)
    requires i < |kvs|
    requires forall j :: i < j < |kvs| ==> kvs[j].key != kvs[i].key
    ensures EffectiveValue(kvs, kvs[i].key) == Some(kvs[i].value)
  {
    var key := kvs[i].key;
    var rest := kvs[i + 1..];
    EffectiveValueAppend(kvs[..i + 1], rest, key);
    assert kvs[..i + 1] + rest == kvs;
    forall j | 0 <= j < |rest| ensures rest[j].key != key {
      assert rest[j] == kvs[i + 1 + j];
    }
    EffectiveValueAt(rest, key);
  }

  /** The value a list of at most one pair gives `key`. */
  function OneValue(kvs: seq<KeyValuePair>, key: string): Option<string>
    requires |kvs| <= 1
  {
    if kvs != [] && kvs[0].key == key then Some(kvs[0].value) else Option.None
  }

  lemma EffectiveValueOne(kvs: seq<KeyValuePair>, key: string)
    requires |kvs| <= 1
    ensures EffectiveValue(kvs, key) == OneValue(kvs, key)
  {
    if kvs != [] {
      assert kvs[..0] == [];
    }
  }

  // ---------------------------------------------------------------- caller parameters

  /** The JSON helpers the search parameter shim relies on: the parse of the
      caller's parameter text into a map (its entries in iteration order, None when
      the text does not parse), String.valueOf of a parsed value, and the JSON text
      of the map. */
  datatype ParamCodecs = ParamCodecs(
    parse: string -> Option<seq<(string, Json)>>,
    show: Json -> string,
    toJson: seq<(string, Json)> -> string)

  predicate UniqueKeys(entries: seq<(string, Json)>)
  {
    forall i, j :: 0 <= i < j < |entries| ==> entries[i].0 != entries[j].0
  }

  /** compatibleSearchParams: each caller parameter as a flat pair, then all of
      them once more as one JSON object under "params". */
  function CompatibleParams(entries: seq<(string, Json)>, codecs: ParamCodecs): (r: seq<KeyValuePair>)
    ensures |r| == |entries| + 1
  {
    seq(|entries|, i requires 0 <= i < |entries| => KeyValuePair(entries[i].0, codecs.show(entries[i].1)))
      + [KeyValuePair(ParamsKey, codecs.toJson(entries))]
  }

  /** compatibleSearchParams: the loop over the caller's parameters. */
  method CompatibleSearchParams(entries: seq<(string, Json)>, codecs: ParamCodecs) returns (r: seq<KeyValuePair>)
    ensures r == CompatibleParams(entries, codecs)
  {
    r := [];
    var i := 0;
    while i < |entries|
      invariant 0 <= i <= |entries|
      invariant |r| == i && forall k :: 0 <= k < i ==> r[k] == KeyValuePair(entries[k].0, codecs.show(entries[k].1))
    {
      r := r + [KeyValuePair(entries[i].0, codecs.show(entries[i].1))];
      i := i + 1;
    }
    r := r + [KeyValuePair(ParamsKey, codecs.toJson(entries))];
  }

  /** Both protocol generations read the caller's parameters: "params" carries the
      JSON object, and every other caller key carries its value. */
  lemma CompatibleParamsRead(entries: seq<(string, Json)>, codecs: ParamCodecs)
    requires UniqueKeys(entries)
    ensures EffectiveValue(CompatibleParams(entries, codecs), ParamsKey) == Some(codecs.toJson(entries))
    ensures forall i :: 0 <= i < |entries| && entries[i].0 != ParamsKey ==>
      EffectiveValue(CompatibleParams(entries, codecs), entries[i].0) == Some(codecs.show(entries[i].1))
    ensures forall key :: key != ParamsKey && (forall i :: 0 <= i < |entries| ==> entries[i].0 != key) ==>
      EffectiveValue(CompatibleParams(entries, codecs), key).None?
  {
    var r := CompatibleParams(entries, codecs);
    forall i | 0 <= i < |entries| && entries[i].0 != ParamsKey
      ensures EffectiveValue(r, entries[i].0) == Some(codecs.show(entries[i].1))
    {
      EffectiveValueLast(r, i);
    }
    forall key | key != ParamsKey && (forall i :: 0 <= i < |entries| ==> entries[i].0 != key)
      ensures EffectiveValue(r, key).None?
    {
      EffectiveValueAt(r, key);
    }
  }

  /** The first value a parsed map gives `key`. */
  function FirstValue(entries: seq<(string, Json)>, key: string): Option<Json>
  {
    if entries == [] then Option.None
    else if entries[0].0 == key then Some(entries[0].1)
    else FirstValue(entries[1..], key)
  }

  /** paramMap.getOrDefault("offset", 0).toString(). */
  function OffsetText(entries: seq<(string, Json)>, codecs: ParamCodecs): string
  {
    var v := FirstValue(entries, OffsetKey);
    if v.Some? then codecs.show(v.value) else "0"
  }

  /** The caller part of a search's parameters: nothing for absent or empty text;
      otherwise the flat pairs, the "params" object and the offset, or a refusal
      of text that does not parse. An offset the map holds as null has no
      toString, and the NullPointerException escapes the handler, which only
      catches IllegalArgumentException. */
  function CallerSearchParams(params: Option<string>, codecs: ParamCodecs): Result<seq<KeyValuePair>>
  {
    if params.None? || params.value == "" then Ok([])
    else
      var m := codecs.parse(params.value);
      if m.None? then Err(MalformedSearchParams)
      else if FirstValue(m.value, OffsetKey) == Some(JsonNull) then Err(Runtime(NullPointer))
      else Ok(CompatibleParams(m.value, codecs) + [KeyValuePair(OffsetKey, OffsetText(m.value, codecs))])
  }

  function MetricParams(metricType: string): seq<KeyValuePair>
  {
    if metricType != MetricNone then [KeyValuePair(MetricTypeKey, metricType)] else []
  }

  /** The grouping options: sent only with a non-empty group-by field, and then the
      size and the strict flag each when set. */
  /** A group-by field is set: present and not empty. */
  predicate Grouped(groupBy: Option<string>)
  {
    groupBy.Some? && groupBy.value != ""
  }

  /** The keys of the grouping options. */
  const GroupKeys: set<string> := {GroupByFieldKey, GroupSizeKey, StrictGroupSizeKey}

  function GroupParams(groupBy: Option<string>, groupSize: Option<int>, strict: Option<bool>): seq<KeyValuePair>
  {
    if groupBy.None? || groupBy.value == "" then []
    else
      [KeyValuePair(GroupByFieldKey, groupBy.value)]
      + (if groupSize.Some? then [KeyValuePair(GroupSizeKey, IntToString(groupSize.value))] else [])
      + (if strict.Some? then [KeyValuePair(StrictGroupSizeKey, BoolToString(strict.value))] else [])
  }

  lemma GroupParamsRead(groupBy: Option<string>, groupSize: Option<int>, strict: Option<bool>)
    ensures var g := GroupParams(groupBy, groupSize, strict);
      && (groupBy.None? || groupBy.value == "" ==> g == [])
      && (groupBy.Some? && groupBy.value != "" ==>
            && EffectiveValue(g, GroupByFieldKey) == Some(groupBy.value)
            && EffectiveValue(g, GroupSizeKey) == (if groupSize.Some? then Some(IntToString(groupSize.value)) else Option.None)
            && EffectiveValue(g, StrictGroupSizeKey) == (if strict.Some? then Some(BoolToString(strict.value)) else Option.None))
      && (forall key :: key !in {GroupByFieldKey, GroupSizeKey, StrictGroupSizeKey} ==> EffectiveValue(g, key).None?)
  {
    var g := GroupParams(groupBy, groupSize, strict);
    if groupBy.Some? && groupBy.value != "" {
      var a := [KeyValuePair(GroupByFieldKey, groupBy.value)];
      var b := if groupSize.Some? then [KeyValuePair(GroupSizeKey, IntToString(groupSize.value))] else [];
      var c := if strict.Some? then [KeyValuePair(StrictGroupSizeKey, BoolToString(strict.value))] else [];
      assert g == a + b + c;
      forall key
        ensures EffectiveValue(g, key) ==
          if EffectiveValue(c, key).Some? then EffectiveValue(c, key)
          else if EffectiveValue(b, key).Some? then EffectiveValue(b, key)
          else EffectiveValue(a, key)
      {
        EffectiveValueAppend(a + b, c, key);
        EffectiveValueAppend(a, b, key);
      }
      forall key ensures EffectiveValue(a, key) == OneValue(a, key) && EffectiveValue(b, key) == OneValue(b, key)
        && EffectiveValue(c, key) == OneValue(c, key)
      {
        EffectiveValueOne(a, key);
        EffectiveValueOne(b, key);
        EffectiveValueOne(c, key);
      }
    }
  }

  // ---------------------------------------------------------------- search

  /** The parts of a SearchParam the request is built from. SearchParam.java is
      not part of this model. */
  datatype SearchParam = SearchParam(
    databaseName: Option<string>,
    collectionName: string,
    partitionNames: seq<string>,
    vectors: seq<Obj>,
    plType: PlaceholderType,
    nq: int,
    params: Option<string>,
    vectorFieldName: string,
    topK: int,
    roundDecimal: int,
    ignoreGrowing: bool,
    metricType: string,
    groupByFieldName: Option<string>,
    groupSize: Option<int>,
    strictGroupSize: Option<bool>,
    outFields: seq<string>,
    expr: Option<string>,
    travelTimestamp: int,
    consistencyLevel: Option<ConsistencyLevel>)

  /** A SearchRequest. The DSL type is always the boolean expression language and
      is not modelled; a field left unset holds its default. */
  datatype SearchRequest = SearchRequest(
    collectionName: string,
    dbName: string,
    partitionNames: seq<string>,
    placeholderGroup: PlaceholderValue,
    nq: int,
    searchParams: seq<KeyValuePair>,
    outputFields: seq<string>,
    dsl: string,
    travelTimestamp: int,
    guaranteeTimestamp: int,
    consistency: Consistency)

  /** The parameters a search always sends after the caller's. */
  function BaseSearchParams(p: SearchParam): seq<KeyValuePair>
  {
    [KeyValuePair(VectorFieldKey, p.vectorFieldName),
     KeyValuePair(TopKKey, IntToString(p.topK)),
     KeyValuePair(RoundDecimalKey, IntToString(p.roundDecimal)),
     KeyValuePair(IgnoreGrowingKey, BoolToString(p.ignoreGrowing))]
  }

  /** The parameters a search sends after the caller's: the base four, then the
      metric type and the grouping options when they apply. */
  function FixedSearchParams(p: SearchParam): seq<KeyValuePair>
  {
    BaseSearchParams(p) + MetricParams(p.metricType) + GroupParams(p.groupByFieldName, p.groupSize, p.strictGroupSize)
  }

  /** convertSearchParam: the request, or the refusal of a vector or of parameter
      text that does not parse (vectors are converted first). */
  function SearchRequestOf(p: SearchParam, codecs: ParamCodecs, cache: TimestampCache): Result<SearchRequest>
  {
    var ph := Placeholder(p.vectors, p.plType);
    if ph.Err? then Err(ph.error)
    else
      var caller := CallerSearchParams(p.params, codecs);
      if caller.Err? then Err(caller.error)
      else Ok(SearchRequest(
        p.collectionName, NonEmptyOr(p.databaseName), p.partitionNames, ph.value, p.nq,
        caller.value + FixedSearchParams(p),
        p.outFields, NonEmptyOr(p.expr), p.travelTimestamp,
        GuaranteeTimestamp(p.consistencyLevel, p.databaseName, p.collectionName, cache),
        ConsistencyOf(p.consistencyLevel)))
  }

  method ConvertSearchParam(p: SearchParam, codecs: ParamCodecs, cache: TimestampCache) returns (r: Result<SearchRequest>)
    ensures r == SearchRequestOf(p, codecs, cache)
  {
    var ph := ConvertPlaceholder(p.vectors, p.plType);
    if ph.Err? {
      return Err(ph.error);
    }
    var searchParams := AssembleSearchParams(p, codecs);
    if searchParams.Err? {
      return Err(searchParams.error);
    }
    var ts := GuaranteeTimestamp(p.consistencyLevel, p.databaseName, p.collectionName, cache);
    return Ok(SearchRequest(
      p.collectionName, NonEmptyOr(p.databaseName), p.partitionNames, ph.value, p.nq, searchParams.value,
      p.outFields, NonEmptyOr(p.expr), p.travelTimestamp, ts, ConsistencyOf(p.consistencyLevel)));
  }

  /** The search parameters of convertSearchParam, appended one after another. */
  method AssembleSearchParams(p: SearchParam, codecs: ParamCodecs) returns (r: Result<seq<KeyValuePair>>)
    ensures r.Err? <==> CallerSearchParams(p.params, codecs).Err?
    ensures r.Err? ==> r.error == CallerSearchParams(p.params, codecs).error
    ensures r.Ok? ==> r.value == CallerSearchParams(p.params, codecs).value + FixedSearchParams(p)
  {
    var searchParams: seq<KeyValuePair> := [];
    if p.params.Some? && p.params.value != "" {
      var m := codecs.parse(p.params.value);
      if m.None? {
        return Err(MalformedSearchParams);
      }
      searchParams := CompatibleSearchParams(m.value, codecs);
      if FirstValue(m.value, OffsetKey) == Some(JsonNull) {
        return Err(Runtime(NullPointer));
      }
      searchParams := searchParams + [KeyValuePair(OffsetKey, OffsetText(m.value, codecs))];
    }
    searchParams := searchParams + [
      KeyValuePair(VectorFieldKey, p.vectorFieldName),
      KeyValuePair(TopKKey, IntToString(p.topK)),
      KeyValuePair(RoundDecimalKey, IntToString(p.roundDecimal)),
      KeyValuePair(IgnoreGrowingKey, BoolToString(p.ignoreGrowing))];
    searchParams := AppendMetricParams(searchParams, p.metricType);
    searchParams := AppendGroupParams(searchParams, p.groupByFieldName, p.groupSize, p.strictGroupSize);
    return Ok(searchParams);
  }

  /** The metric type, unless it is "None". */
  method AppendMetricParams(kvs: seq<KeyValuePair>, metricType: string) returns (r: seq<KeyValuePair>)
    ensures r == kvs + MetricParams(metricType)
  {
    r := kvs;
    if metricType != MetricNone {
      r := r + [KeyValuePair(MetricTypeKey, metricType)];
    } else {
      assert kvs + [] == kvs;
    }
  }

  /** The grouping options, when a group-by field is set. */
  method AppendGroupParams(kvs: seq<KeyValuePair>, groupBy: Option<string>, groupSize: Option<int>, strict: Option<bool>)
    returns (r: seq<KeyValuePair>)
    ensures r == kvs + GroupParams(groupBy, groupSize, strict)
  {
    r := kvs;
    if groupBy.Some? && groupBy.value != "" {
      r := r + [KeyValuePair(GroupByFieldKey, groupBy.value)];
      if groupSize.Some? {
        r := r + [KeyValuePair(GroupSizeKey, IntToString(groupSize.value))];
      }
      if strict.Some? {
        r := r + [KeyValuePair(StrictGroupSizeKey, BoolToString(strict.value))];
      }
    } else {
      assert kvs + [] == kvs;
    }
  }

  /** What the server reads from a search's parameters: the fixed values override
      any caller parameter with the same key, the metric type is the caller's when
      it is "None", the grouping options override the caller's only when a
      group-by field is set (and size and strictness each only when set), and
      every other key keeps the caller's value. */
  lemma SearchParamsRead(p: SearchParam, codecs: ParamCodecs, cache: TimestampCache)
    requires SearchRequestOf(p, codecs, cache).Ok?
    ensures var sp := SearchRequestOf(p, codecs, cache).value.searchParams;
      var caller := CallerSearchParams(p.params, codecs).value;
      && EffectiveValue(sp, VectorFieldKey) == Some(p.vectorFieldName)
      && EffectiveValue(sp, TopKKey) == Some(IntToString(p.topK))
      && EffectiveValue(sp, RoundDecimalKey) == Some(IntToString(p.roundDecimal))
      && EffectiveValue(sp, IgnoreGrowingKey) == Some(BoolToString(p.ignoreGrowing))
      && EffectiveValue(sp, MetricTypeKey) ==
           (if p.metricType != MetricNone then Some(p.metricType) else EffectiveValue(caller, MetricTypeKey))
      && EffectiveValue(sp, GroupByFieldKey) ==
           (if Grouped(p.groupByFieldName) then Some(p.groupByFieldName.value) else EffectiveValue(caller, GroupByFieldKey))
      && EffectiveValue(sp, GroupSizeKey) ==
           (if Grouped(p.groupByFieldName) && p.groupSize.Some? then Some(IntToString(p.groupSize.value))
            else EffectiveValue(caller, GroupSizeKey))
      && EffectiveValue(sp, StrictGroupSizeKey) ==
           (if Grouped(p.groupByFieldName) && p.strictGroupSize.Some? then Some(BoolToString(p.strictGroupSize.value))
            else EffectiveValue(caller, StrictGroupSizeKey))
      && forall key :: key !in FixedKeys(p) && key !in GroupKeys ==> EffectiveValue(sp, key) == EffectiveValue(caller, key)
  {
    var sp := SearchRequestOf(p, codecs, cache).value.searchParams;
    var caller := CallerSearchParams(p.params, codecs).value;
    var fixed := FixedSearchParams(p);
    assert sp == caller + fixed;
    FixedParamsRead(p);
    forall key ensures EffectiveValue(sp, key) ==
      if EffectiveValue(fixed, key).Some? then EffectiveValue(fixed, key) else EffectiveValue(caller, key)
    {
      EffectiveValueAppend(caller, fixed, key);
    }
  }

  /** The fixed part of a search's parameters on its own. */
  lemma FixedParamsRead(p: SearchParam)
    ensures var f := FixedSearchParams(p);
      && EffectiveValue(f, VectorFieldKey) == Some(p.vectorFieldName)
      && EffectiveValue(f, TopKKey) == Some(IntToString(p.topK))
      && EffectiveValue(f, RoundDecimalKey) == Some(IntToString(p.roundDecimal))
      && EffectiveValue(f, IgnoreGrowingKey) == Some(BoolToString(p.ignoreGrowing))
      && EffectiveValue(f, MetricTypeKey) == (if p.metricType != MetricNone then Some(p.metricType) else Option.None)
      && EffectiveValue(f, GroupByFieldKey) ==
           (if Grouped(p.groupByFieldName) then Some(p.groupByFieldName.value) else Option.None)
      && EffectiveValue(f, GroupSizeKey) ==
           (if Grouped(p.groupByFieldName) && p.groupSize.Some? then Some(IntToString(p.groupSize.value)) else Option.None)
      && EffectiveValue(f, StrictGroupSizeKey) ==
           (if Grouped(p.groupByFieldName) && p.strictGroupSize.Some? then Some(BoolToString(p.strictGroupSize.value))
            else Option.None)
      && forall key :: key !in FixedKeys(p) && key !in GroupKeys ==> EffectiveValue(f, key).None?
  {
    BaseParamsRead(p);
    GroupParamsRead(p.groupByFieldName, p.groupSize, p.strictGroupSize);
    forall key
      ensures EffectiveValue(FixedSearchParams(p), key) ==
        if EffectiveValue(GroupParams(p.groupByFieldName, p.groupSize, p.strictGroupSize), key).Some? then
          EffectiveValue(GroupParams(p.groupByFieldName, p.groupSize, p.strictGroupSize), key)
        else if OneValue(MetricParams(p.metricType), key).Some? then OneValue(MetricParams(p.metricType), key)
        else EffectiveValue(BaseSearchParams(p), key)
    {
      FixedParamsKey(p, key);
    }
  }

  /** One key of the fixed part: the grouping options decide, then the metric
      type, then the base four. */
  lemma FixedParamsKey(p: SearchParam, key: string)
    ensures EffectiveValue(FixedSearchParams(p), key) ==
      if EffectiveValue(GroupParams(p.groupByFieldName, p.groupSize, p.strictGroupSize), key).Some? then
        EffectiveValue(GroupParams(p.groupByFieldName, p.groupSize, p.strictGroupSize), key)
      else if OneValue(MetricParams(p.metricType), key).Some? then OneValue(MetricParams(p.metricType), key)
      else EffectiveValue(BaseSearchParams(p), key)
  {
    var base := BaseSearchParams(p);
    var metric := MetricParams(p.metricType);
    var group := GroupParams(p.groupByFieldName, p.groupSize, p.strictGroupSize);
    EffectiveValueAppend(base + metric, group, key);
    EffectiveValueAppend(base, metric, key);
    EffectiveValueOne(metric, key);
  }

  lemma BaseParamsRead(p: SearchParam)
    ensures var b := BaseSearchParams(p);
      && EffectiveValue(b, VectorFieldKey) == Some(p.vectorFieldName)
      && EffectiveValue(b, TopKKey) == Some(IntToString(p.topK))
      && EffectiveValue(b, RoundDecimalKey) == Some(IntToString(p.roundDecimal))
      && EffectiveValue(b, IgnoreGrowingKey) == Some(BoolToString(p.ignoreGrowing))
      && forall key :: key !in {VectorFieldKey, TopKKey, RoundDecimalKey, IgnoreGrowingKey} ==> EffectiveValue(b, key).None?
  {
    var base := BaseSearchParams(p);
    EffectiveValueLast(base, 0);
    EffectiveValueLast(base, 1);
    EffectiveValueLast(base, 2);
    EffectiveValueLast(base, 3);
    forall key | key !in {VectorFieldKey, TopKKey, RoundDecimalKey, IgnoreGrowingKey}
      ensures EffectiveValue(base, key).None?
    {
      EffectiveValueAt(base, key);
    }
  }

  /** The keys a search may send after the caller's parameters. */
  function FixedKeys(p: SearchParam): set<string>
  {
    {VectorFieldKey, TopKKey, RoundDecimalKey, IgnoreGrowingKey}
    + (if p.metricType != MetricNone then {MetricTypeKey} else {})
  }

  /** The caller part of a search: when the text parses into a map with distinct
      keys, it is refused exactly when the map holds a null offset, and otherwise
      each caller key other than "params" and "offset" keeps its value, "params"
      carries the whole map as JSON, and "offset" the map's offset or "0". */
  lemma CallerSearchParamsRead(params: string, codecs: ParamCodecs)
    requires params != "" && codecs.parse(params).Some? && UniqueKeys(codecs.parse(params).value)
    ensures var m := codecs.parse(params).value;
      CallerSearchParams(Some(params), codecs).Err? <==> FirstValue(m, OffsetKey) == Some(JsonNull)
    ensures CallerSearchParams(Some(params), codecs).Err? ==>
      CallerSearchParams(Some(params), codecs).error == Runtime(NullPointer)
    ensures CallerSearchParams(Some(params), codecs).Ok? ==>
      var m := codecs.parse(params).value;
      var c := CallerSearchParams(Some(params), codecs).value;
      && EffectiveValue(c, ParamsKey) == Some(codecs.toJson(m))
      && EffectiveValue(c, OffsetKey) == Some(OffsetText(m, codecs))
      && forall i :: 0 <= i < |m| && m[i].0 !in {ParamsKey, OffsetKey} ==>
           EffectiveValue(c, m[i].0) == Some(codecs.show(m[i].1))
  {
    var m := codecs.parse(params).value;
    var flat := CompatibleParams(m, codecs);
    var tail := [KeyValuePair(OffsetKey, OffsetText(m, codecs))];
    CompatibleParamsRead(m, codecs);
    forall key ensures EffectiveValue(flat + tail, key) ==
      if key == OffsetKey then Some(OffsetText(m, codecs)) else EffectiveValue(flat, key)
    {
      EffectiveValueAppend(flat, tail, key);
    }
  }

  /** The offset a search sends is the map's offset shown as text, "0" when the map
      has none; a null offset refuses the search. */
  lemma OffsetRead(params: string, codecs: ParamCodecs)
    requires params != "" && codecs.parse(params).Some?
    ensures var m := codecs.parse(params).value;
      var c := CallerSearchParams(Some(params), codecs);
      && (FirstValue(m, OffsetKey).None? ==> c.Ok? && c.value[|c.value| - 1] == KeyValuePair(OffsetKey, "0"))
      && (FirstValue(m, OffsetKey).Some? && FirstValue(m, OffsetKey) != Some(JsonNull) ==>
            c.Ok? && c.value[|c.value| - 1] == KeyValuePair(OffsetKey, codecs.show(FirstValue(m, OffsetKey).value)))
      && (FirstValue(m, OffsetKey) == Some(JsonNull) ==> c == Err(Runtime(NullPointer)))
  {
  }

  // ---------------------------------------------------------------- ann search

  /** convertAnnSearchParam: one leg of a hybrid search as a SearchRequest: the
      placeholder, the caller parameters (an empty map when there is no text),
      vector field, topK and metric type, the filter, and the hybrid search's
      consistency. */
  /** A leg's caller parameters: an empty map when there is no text, otherwise the
      parse of the text. */
  function AnnCallerMap(params: Option<string>, codecs: ParamCodecs): Option<seq<(string, Json)>>
  {
    if params.None? || params.value == "" then Some([]) else codecs.parse(params.value)
  }

  function AnnRequestOf(a: AnnSearchParam, level: Option<ConsistencyLevel>, codecs: ParamCodecs): Result<SearchRequest>
  {
    var ph := Placeholder(a.vectors, a.plType);
    if ph.Err? then Err(ph.error)
    else
      var m := AnnCallerMap(a.params, codecs);
      if m.None? then Err(MalformedSearchParams)
      else Ok(SearchRequest(
        "", "", [], ph.value, a.nq,
        CompatibleParams(m.value, codecs)
          + [KeyValuePair(VectorFieldKey, a.vectorFieldName), KeyValuePair(TopKKey, IntToString(a.topK))]
          + MetricParams(a.metricType),
        [], NonEmptyOr(a.expr), 0, 0, ConsistencyOf(level)))
  }

  method ConvertAnnSearchParam(a: AnnSearchParam, level: Option<ConsistencyLevel>, codecs: ParamCodecs) returns (r: Result<SearchRequest>)
    ensures r == AnnRequestOf(a, level, codecs)
  {
    var ph := ConvertPlaceholder(a.vectors, a.plType);
    if ph.Err? {
      return Err(ph.error);
    }
    var paramMap: seq<(string, Json)> := [];
    if a.params.Some? && a.params.value != "" {
      var m := codecs.parse(a.params.value);
      if m.None? {
        return Err(MalformedSearchParams);
      }
      paramMap := m.value;
    }
    var searchParams := CompatibleSearchParams(paramMap, codecs);
    searchParams := searchParams + [
      KeyValuePair(VectorFieldKey, a.vectorFieldName),
      KeyValuePair(TopKKey, IntToString(a.topK))];
    searchParams := AppendMetricParams(searchParams, a.metricType);
    return Ok(SearchRequest("", "", [], ph.value, a.nq, searchParams, [], NonEmptyOr(a.expr), 0, 0, ConsistencyOf(level)));
  }

  /** What the server reads from a leg's parameters: its vector field and topK
      override the caller's, its metric type overrides the caller's unless it is
      "None", "params" always carries the caller's map as JSON (the empty map when
      there is no text), and every other key keeps the caller's value. */
  lemma AnnParamsRead(a: AnnSearchParam, level: Option<ConsistencyLevel>, codecs: ParamCodecs)
    requires AnnRequestOf(a, level, codecs).Ok?
    ensures AnnCallerMap(a.params, codecs).Some?
    ensures var sp := AnnRequestOf(a, level, codecs).value.searchParams;
      var m := AnnCallerMap(a.params, codecs).value;
      var flat := CompatibleParams(m, codecs);
      && EffectiveValue(sp, VectorFieldKey) == Some(a.vectorFieldName)
      && EffectiveValue(sp, TopKKey) == Some(IntToString(a.topK))
      && EffectiveValue(sp, MetricTypeKey) ==
           (if a.metricType != MetricNone then Some(a.metricType) else EffectiveValue(flat, MetricTypeKey))
      && EffectiveValue(sp, ParamsKey) == Some(codecs.toJson(m))
      && (a.params.None? || a.params.value == "" ==> EffectiveValue(sp, ParamsKey) == Some(codecs.toJson([])))
      && forall key :: key !in {VectorFieldKey, TopKKey, MetricTypeKey} ==> EffectiveValue(sp, key) == EffectiveValue(flat, key)
  {
    var sp := AnnRequestOf(a, level, codecs).value.searchParams;
    var m := AnnCallerMap(a.params, codecs).value;
    var flat := CompatibleParams(m, codecs);
    var fixed := [KeyValuePair(VectorFieldKey, a.vectorFieldName), KeyValuePair(TopKKey, IntToString(a.topK))];
    var metric := MetricParams(a.metricType);
    assert sp == (flat + fixed) + metric;
    forall key
      ensures EffectiveValue(sp, key) ==
        if OneValue(metric, key).Some? then OneValue(metric, key)
        else if EffectiveValue(fixed, key).Some? then EffectiveValue(fixed, key)
        else EffectiveValue(flat, key)
    {
      EffectiveValueAppend(flat + fixed, metric, key);
      EffectiveValueAppend(flat, fixed, key);
      EffectiveValueOne(metric, key);
    }
    EffectiveValueLast(fixed, 0);
    EffectiveValueLast(fixed, 1);
    forall key | key !in {VectorFieldKey, TopKKey} ensures EffectiveValue(fixed, key).None? {
      EffectiveValueAt(fixed, key);
    }
    EffectiveValueLast(flat, |m|);
  }

  // ---------------------------------------------------------------- hybrid search

  /** A HybridSearchRequest. */
  datatype HybridSearchRequest = HybridSearchRequest(
    collectionName: string,
    dbName: string,
    partitionNames: seq<string>,
    requests: seq<SearchRequest>,
    rankParams: seq<KeyValuePair>,
    outputFields: seq<string>,
    guaranteeTimestamp: int,
    consistency: Consistency)

  /** The ranker's properties with limit, round decimal and offset force-set. */
  function RankerProperties(p: HybridSearchParam, props: map<string, string>): (m: map<string, string>)
    ensures m.Keys == props.Keys + {LimitKey, RoundDecimalKey, OffsetKey}
    ensures m[LimitKey] == IntToString(p.topK)
    ensures m[RoundDecimalKey] == IntToString(p.roundDecimal)
    ensures m[OffsetKey] == IntToString(p.offset)
    ensures forall k :: k in props && k !in {LimitKey, RoundDecimalKey, OffsetKey} ==> m[k] == props[k]
  {
    props[LimitKey := IntToString(p.topK)][RoundDecimalKey := IntToString(p.roundDecimal)][OffsetKey := IntToString(p.offset)]
  }

  /** `order` lists the keys of `m` once each: the iteration order of a map. */
  ghost predicate IsKeyOrder(m: map<string, string>, order: seq<string>)
  {
    NoDuplicates(order) && forall k :: k in order <==> k in m
  }

  /** AssembleKvPair: one pair per map entry, in the map's iteration order. */
  function KvPairs(m: map<string, string>, order: seq<string>): (r: seq<KeyValuePair>)
    requires forall k :: k in order ==> k in m
    ensures |r| == |order|
  {
    seq(|order|, i requires 0 <= i < |order| => KeyValuePair(order[i], m[order[i]]))
  }

  method AssembleKvPair(m: map<string, string>, order: seq<string>) returns (r: seq<KeyValuePair>)
    requires IsKeyOrder(m, order)
    ensures r == KvPairs(m, order)
  {
    r := [];
    var i := 0;
    while i < |order|
      invariant 0 <= i <= |order|
      invariant |r| == i && forall k :: 0 <= k < i ==> r[k] == KeyValuePair(order[k], m[order[k]])
    {
      r := r + [KeyValuePair(order[i], m[order[i]])];
      i := i + 1;
    }
  }

  /** The pairs carry exactly the map: every key once, with its value. */
  lemma KvPairsDenote(m: map<string, string>, order: seq<string>)
    requires IsKeyOrder(m, order)
    ensures |KvPairs(m, order)| == |m|
    ensures forall k :: k in m ==> EffectiveValue(KvPairs(m, order), k) == Some(m[k])
    ensures forall k :: k !in m ==> EffectiveValue(KvPairs(m, order), k).None?
  {
    var r := KvPairs(m, order);
    assert m.Keys == set k | k in order;
    DistinctCardinality(order);
    forall k | k in m ensures EffectiveValue(r, k) == Some(m[k]) {
      var i :| 0 <= i < |order| && order[i] == k;
      EffectiveValueLast(r, i);
    }
    forall k | k !in m ensures EffectiveValue(r, k).None? {
      EffectiveValueAt(r, k);
    }
  }

  /** A list without duplicates has as many elements as its set. */
  lemma {:induction false} DistinctCardinality(xs: seq<string>)
    requires NoDuplicates(xs)
    ensures |set k | k in xs| == |xs|
  {
    if xs != [] {
      var n := |xs| - 1;
      DistinctCardinality(xs[..n]);
      assert (set k | k in xs) == (set k | k in xs[..n]) + {xs[n]};
      assert xs[n] !in (set k | k in xs[..n]);
    }
  }

  /** One leg of a hybrid search, at the hybrid search's consistency. */
  function AnnStep(level: Option<ConsistencyLevel>, codecs: ParamCodecs): AnnSearchParam -> Result<SearchRequest>
  {
    (a: AnnSearchParam) => AnnRequestOf(a, level, codecs)
  }

  /** convertHybridSearchParam: the legs in order (the first failing leg decides),
      the grouping options and the ranker's properties as rank parameters, the
      output fields and the shared guarantee timestamp. `props` is what the ranker
      reports and `order` the iteration order of its map once the three values are
      set. */
  function HybridRequestOf(p: HybridSearchParam, props: map<string, string>, order: seq<string>,
                           codecs: ParamCodecs, cache: TimestampCache): Result<HybridSearchRequest>
    requires IsKeyOrder(RankerProperties(p, props), order)
  {
    var legs := CollectAll(p.searchRequests, AnnStep(p.consistencyLevel, codecs));
    if legs.Err? then Err(legs.error)
    else Ok(HybridSearchRequest(
      p.collectionName, NonEmptyOr(p.databaseName), p.partitionNames, legs.value,
      RankParams(p, props, order),
      p.outFields,
      GuaranteeTimestamp(p.consistencyLevel, p.databaseName, p.collectionName, cache),
      ConsistencyOf(p.consistencyLevel)))
  }

  method ConvertHybridSearchParam(p: HybridSearchParam, order: seq<string>, codecs: ParamCodecs, cache: TimestampCache)
    returns (r: Result<HybridSearchRequest>)
    requires IsKeyOrder(RankerProperties(p, p.ranker.properties), order)
    ensures r == HybridRequestOf(p, p.ranker.properties, order, codecs, cache)
  {
    ghost var step := AnnStep(p.consistencyLevel, codecs);
    var requests: seq<SearchRequest> := [];
    var i := 0;
    while i < |p.searchRequests|
      invariant 0 <= i <= |p.searchRequests|
      invariant CollectAll(p.searchRequests[..i], step) == Ok(requests)
    {
      CollectAllExtend(p.searchRequests, step, i);
      var req := ConvertAnnSearchParam(p.searchRequests[i], p.consistencyLevel, codecs);
      if req.Err? {
        return Err(req.error);
      }
      requests := requests + [req.value];
      i := i + 1;
    }
    assert p.searchRequests[..i] == p.searchRequests;
    var rankParams: seq<KeyValuePair> := GroupParams(p.groupByFieldName, p.groupSize, p.strictGroupSize);
    var props := p.ranker.properties;
    props := props[LimitKey := IntToString(p.topK)];
    props := props[RoundDecimalKey := IntToString(p.roundDecimal)];
    props := props[OffsetKey := IntToString(p.offset)];
    var propertiesList := AssembleKvPair(props, order);
    rankParams := rankParams + propertiesList;
    var ts := GuaranteeTimestamp(p.consistencyLevel, p.databaseName, p.collectionName, cache);
    return Ok(HybridSearchRequest(
      p.collectionName, NonEmptyOr(p.databaseName), p.partitionNames, requests, rankParams,
      p.outFields, ts, ConsistencyOf(p.consistencyLevel)));
  }

  /** A hybrid search is built exactly when every leg is, holds one request per leg
      in order, and its ranker reads limit, round decimal and offset from the
      parameter object whatever the ranker held, every other ranker property
      unchanged, and the grouping options where the ranker has no property of the
      same name. */
  lemma HybridRequestRead(p: HybridSearchParam, props: map<string, string>, order: seq<string>,
                          codecs: ParamCodecs, cache: TimestampCache)
    requires IsKeyOrder(RankerProperties(p, props), order)
    ensures HybridRequestOf(p, props, order, codecs, cache).Ok? <==>
      forall i :: 0 <= i < |p.searchRequests| ==> AnnRequestOf(p.searchRequests[i], p.consistencyLevel, codecs).Ok?
    ensures HybridRequestOf(p, props, order, codecs, cache).Ok? ==>
      var h := HybridRequestOf(p, props, order, codecs, cache).value;
      && |h.requests| == |p.searchRequests|
      && (forall i :: 0 <= i < |p.searchRequests| ==>
            Ok(h.requests[i]) == AnnRequestOf(p.searchRequests[i], p.consistencyLevel, codecs))
      && h.rankParams == RankParams(p, props, order)
  {
    var step := AnnStep(p.consistencyLevel, codecs);
    CollectAllOkIff(p.searchRequests, step);
  }

  /** The rank parameters of a hybrid search: the grouping options, then the
      ranker's properties. */
  function RankParams(p: HybridSearchParam, props: map<string, string>, order: seq<string>): seq<KeyValuePair>
    requires IsKeyOrder(RankerProperties(p, props), order)
  {
    GroupParams(p.groupByFieldName, p.groupSize, p.strictGroupSize) + KvPairs(RankerProperties(p, props), order)
  }

  /** What the ranker reads: limit, round decimal and offset from the parameter
      object whatever the ranker held, every other ranker property unchanged, the
      grouping options where the ranker has no property of the same name, and
      nothing else. */
  lemma RankParamsRead(p: HybridSearchParam, props: map<string, string>, order: seq<string>)
    requires IsKeyOrder(RankerProperties(p, props), order)
    ensures var rank := RankParams(p, props, order);
      var grouped := Grouped(p.groupByFieldName);
      && EffectiveValue(rank, LimitKey) == Some(IntToString(p.topK))
      && EffectiveValue(rank, RoundDecimalKey) == Some(IntToString(p.roundDecimal))
      && EffectiveValue(rank, OffsetKey) == Some(IntToString(p.offset))
      && (forall k :: k in props && k !in {LimitKey, RoundDecimalKey, OffsetKey} ==>
            EffectiveValue(rank, k) == Some(props[k]))
      && (GroupByFieldKey !in props ==>
            EffectiveValue(rank, GroupByFieldKey) == (if grouped then Some(p.groupByFieldName.value) else Option.None))
      && (GroupSizeKey !in props ==>
            EffectiveValue(rank, GroupSizeKey) ==
              (if grouped && p.groupSize.Some? then Some(IntToString(p.groupSize.value)) else Option.None))
      && (StrictGroupSizeKey !in props ==>
            EffectiveValue(rank, StrictGroupSizeKey) ==
              (if grouped && p.strictGroupSize.Some? then Some(BoolToString(p.strictGroupSize.value)) else Option.None))
      && (forall k :: k !in props && k !in {LimitKey, RoundDecimalKey, OffsetKey} && k !in GroupKeys ==>
            EffectiveValue(rank, k).None?)
  {
    var rp := RankerProperties(p, props);
    var group := GroupParams(p.groupByFieldName, p.groupSize, p.strictGroupSize);
    GroupParamsRead(p.groupByFieldName, p.groupSize, p.strictGroupSize);
    RankParamsKey(p, props, order, LimitKey);
    RankParamsKey(p, props, order, RoundDecimalKey);
    RankParamsKey(p, props, order, OffsetKey);
    RankParamsKey(p, props, order, GroupByFieldKey);
    RankParamsKey(p, props, order, GroupSizeKey);
    RankParamsKey(p, props, order, StrictGroupSizeKey);
    forall k | k in props && k !in {LimitKey, RoundDecimalKey, OffsetKey}
      ensures EffectiveValue(RankParams(p, props, order), k) == Some(props[k])
    {
      RankParamsKey(p, props, order, k);
    }
    forall k | k !in props && k !in {LimitKey, RoundDecimalKey, OffsetKey} && k !in GroupKeys
      ensures EffectiveValue(RankParams(p, props, order), k).None?
    {
      RankParamsKey(p, props, order, k);
    }
  }

  /** One key of the rank parameters: the ranker's property when it has one,
      otherwise the grouping option. */
  lemma RankParamsKey(p: HybridSearchParam, props: map<string, string>, order: seq<string>, k: string)
    requires IsKeyOrder(RankerProperties(p, props), order)
    ensures var rp := RankerProperties(p, props);
      EffectiveValue(RankParams(p, props, order), k) ==
        if k in rp then Some(rp[k]) else EffectiveValue(GroupParams(p.groupByFieldName, p.groupSize, p.strictGroupSize), k)
  {
    var rp := RankerProperties(p, props);
    KvPairsDenote(rp, order);
    EffectiveValueAppend(GroupParams(p.groupByFieldName, p.groupSize, p.strictGroupSize), KvPairs(rp, order), k);
  }

  // ---------------------------------------------------------------- query

  /** The parts of a QueryParam the request is built from. QueryParam.java is not
      part of this model. */
  datatype QueryParam = QueryParam(
    databaseName: Option<string>,
    collectionName: string,
    partitionNames: seq<string>,
    outFields: seq<string>,
    expr: string,
    travelTimestamp: int,
    consistencyLevel: Option<ConsistencyLevel>,
    offset: int,
    limit: int,
    ignoreGrowing: bool)

  datatype QueryRequest = QueryRequest(
    collectionName: string,
    dbName: string,
    partitionNames: seq<string>,
    outputFields: seq<string>,
    expr: string,
    travelTimestamp: int,
    guaranteeTimestamp: int,
    consistency: Consistency,
    queryParams: seq<KeyValuePair>)

  /** The query parameters: offset and limit each only when positive, then the
      ignore-growing flag. */
  function QueryParams(offset: int, limit: int, ignoreGrowing: bool): seq<KeyValuePair>
  {
    (if offset > 0 then [KeyValuePair(OffsetKey, IntToString(offset))] else [])
    + (if limit > 0 then [KeyValuePair(LimitKey, IntToString(limit))] else [])
    + [KeyValuePair(IgnoreGrowingKey, BoolToString(ignoreGrowing))]
  }

  function QueryRequestOf(p: QueryParam, cache: TimestampCache): QueryRequest
  {
    QueryRequest(
      p.collectionName, NonEmptyOr(p.databaseName), p.partitionNames, p.outFields, p.expr,
      p.travelTimestamp, GuaranteeTimestamp(p.consistencyLevel, p.databaseName, p.collectionName, cache),
      ConsistencyOf(p.consistencyLevel), QueryParams(p.offset, p.limit, p.ignoreGrowing))
  }

  method ConvertQueryParam(p: QueryParam, cache: TimestampCache) returns (r: QueryRequest)
    ensures r == QueryRequestOf(p, cache)
  {
    var ts := GuaranteeTimestamp(p.consistencyLevel, p.databaseName, p.collectionName, cache);
    var queryParams: seq<KeyValuePair> := [];
    if p.offset > 0 {
      queryParams := queryParams + [KeyValuePair(OffsetKey, IntToString(p.offset))];
    }
    if p.limit > 0 {
      queryParams := queryParams + [KeyValuePair(LimitKey, IntToString(p.limit))];
    }
    queryParams := queryParams + [KeyValuePair(IgnoreGrowingKey, BoolToString(p.ignoreGrowing))];
    return QueryRequest(
      p.collectionName, NonEmptyOr(p.databaseName), p.partitionNames, p.outFields, p.expr,
      p.travelTimestamp, ts, ConsistencyOf(p.consistencyLevel), queryParams);
  }

  /** A query sends offset and limit exactly when they are positive, always sends
      the ignore-growing flag, and nothing else. */
  lemma QueryParamsRead(offset: int, limit: int, ignoreGrowing: bool)
    ensures var q := QueryParams(offset, limit, ignoreGrowing);
      && EffectiveValue(q, OffsetKey) == (if offset > 0 then Some(IntToString(offset)) else Option.None)
      && EffectiveValue(q, LimitKey) == (if limit > 0 then Some(IntToString(limit)) else Option.None)
      && EffectiveValue(q, IgnoreGrowingKey) == Some(BoolToString(ignoreGrowing))
      && (forall key :: key !in {OffsetKey, LimitKey, IgnoreGrowingKey} ==> EffectiveValue(q, key).None?)
  {
    var o := if offset > 0 then [KeyValuePair(OffsetKey, IntToString(offset))] else [];
    var l := if limit > 0 then [KeyValuePair(LimitKey, IntToString(limit))] else [];
    var g := [KeyValuePair(IgnoreGrowingKey, BoolToString(ignoreGrowing))];
    forall key
      ensures EffectiveValue(QueryParams(offset, limit, ignoreGrowing), key) ==
        if key == IgnoreGrowingKey then Some(BoolToString(ignoreGrowing))
        else if OneValue(l, key).Some? then OneValue(l, key)
        else OneValue(o, key)
    {
      EffectiveValueAppend(o + l, g, key);
      EffectiveValueAppend(o, l, key);
      EffectiveValueOne(o, key);
      EffectiveValueOne(l, key);
      EffectiveValueOne(g, key);
    }
  }
}
