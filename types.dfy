/** Shared vocabulary of the field-data layer: the closed set of data kinds, the
    runtime values a caller hands in (Java objects and Gson JSON elements), the
    schema of one field and the error kinds that the validators and encoders raise. */
module MilvusTypes {

  datatype Option<+T> = None | Some(value: T)

  /** The closed enumeration of field data kinds (io.milvus.grpc.DataType). */
  datatype DataType =
    | None
    | Bool | Int8 | Int16 | Int32 | Int64
    | Float | Double
    | String | VarChar
    | Array | JSON
    | BinaryVector | FloatVector | Float16Vector | BFloat16Vector
    | SparseFloatVector | Int8Vector
    | Unrecognized

  /** Dense vector kinds, as isDenseVectorDataType lists them. */
  predicate IsDenseVectorDataType(t: DataType)
  {
    t.FloatVector? || t.BinaryVector? || t.Float16Vector? || t.BFloat16Vector? || t.Int8Vector?
  }

  predicate IsVectorDataType(t: DataType)
  {
    IsDenseVectorDataType(t) || t.SparseFloatVector?
  }

  /** One byte, as an unsigned value. */
  type Byte = x: int | 0 <= x < 0x100
  /** An IEEE 754 binary32 value, kept as its raw bit pattern read as unsigned. */
  type Float32 = x: int | 0 <= x < 0x1_0000_0000
  /** An IEEE 754 binary64 value, kept as its raw bit pattern read as unsigned. */
  type Float64 = x: int | 0 <= x < 0x1_0000_0000_0000_0000

  /** Section 3.4 of IEEE 754-2008: a binary32 datum is NaN or an infinity exactly
      when its 8-bit biased exponent field (bits 23 to 30) is all ones. */
  predicate IsFinite(f: Float32)
  {
    (f / 0x80_0000) % 0x100 != 0xFF
  }

  /** A Gson JsonElement. Numbers keep their literal text; objects keep member order. */
  datatype Json =
    | JsonNull
    | JsonBool(b: bool)
    | JsonNumber(text: string)
    | JsonString(s: string)
    | JsonArray(elements: seq<Json>)
    | JsonObject(members: seq<(string, Json)>)
  {
    predicate IsPrimitive() { JsonBool? || JsonNumber? || JsonString? }
  }

  /** A sparse vector as a SortedMap<Long, Float>: entries in ascending key order. */
  type SparseEntries = seq<(int, Float32)>

  /** A Java object that a caller puts into a column, a row value after coercion,
      or a schema default. Null is Java's null. */
  datatype Obj =
    | Null
    | JBoolean(b: bool)
    | JShort(s: int)
    | JInteger(i: int)
    | JLong(l: int)
    | JFloat(f: Float32)
    | JDouble(d: Float64)
    | JString(str: string)
    | JList(items: seq<Obj>)
    | JByteBuffer(bytes: seq<Byte>, limit: nat)
    | JSortedMap(entries: SparseEntries)
    | JElement(json: Json)

  /** A ByteBuffer is its backing array (`bytes`, what array() returns) and its
      limit; ByteBuffer.wrap gives a buffer whose limit is the array's length. */
  predicate WrapsWholeArray(o: Obj)
  {
    o.JByteBuffer? ==> o.limit == |o.bytes|
  }

  /** FieldType: one field of a collection schema. `defaultValue == Null` means the
      schema declares no default. */
  datatype FieldType = FieldType(
    name: string,
    dataType: DataType,
    elementType: DataType,
    dimension: int,
    maxLength: int,
    maxCapacity: int,
    nullable: bool,
    defaultValue: Obj,
    primaryKey: bool,
    partitionKey: bool,
    autoId: bool,
    isDynamic: bool)

  /** ConsistencyLevelEnum: the read consistency a caller asks for. */
  datatype ConsistencyLevel = Strong | Session | Bounded | Eventually

  /** PlaceholderType: the kind of the target vectors of a search. */
  datatype PlaceholderType =
    | PlNone | PlBinaryVector | PlFloatVector | PlFloat16Vector | PlBFloat16Vector
    | PlSparseFloatVector | PlInt8Vector

  /** The Java exceptions that escape the encoders unguarded. */
  datatype RuntimeFault = ClassCast | NullPointer | DivideByZero | BufferOverflow | NumberFormat

  /** What a ParamException (or an unguarded runtime exception) reports. */
  datatype ParamError =
    | TypeMismatch(field: string)
    | DimensionMismatch(field: string, observed: int, expected: int)
    | OddByteCount(dataType: DataType, byteCount: int)
    | CapacityExceeded(field: string, length: int, capacity: int)
    | EmptySparseVector(field: string)
    | NullNotAllowed(field: string)
    | NotStringPrimitive(field: string)
    | JsonConversionFailed(field: string)
    | UnsupportedElementType(field: string)
    | UnsupportedDataType
    | IllegalScalarDataType
    | IllegalValueType
    | SparseIndexOutOfRange
    | SparseValueNotFinite
    | FieldNotProvided(field: string)
    | AutoIdSupplied(field: string)
    | AutoIdUpsert(collection: string)
    | PartitionNameConflict(collection: string)
    | NoRequestBuilder
    | IllegalSearchVector
    | NullOrEmpty(what: string)
    | MissingRanker
    | NoSearchRequest
    | VectorCountMismatch
    | IllegalTopK
    | IllegalGroupSize
    | MalformedSearchParams
    | Runtime(fault: RuntimeFault)

  datatype Result<+T> = Ok(value: T) | Err(error: ParamError)
  {
    predicate IsFailure() { Err? }
    function PropagateFailure<U>(): Result<U>
      requires Err?
    {
      Err(error)
    }
    function Extract(): T
      requires Ok?
    {
      value
    }
  }

  /** The result of a check that only throws. */
  datatype Outcome = Pass | Fail(error: ParamError)

  /** Apply `step` to each element in order and collect the results; the first
      element whose step fails decides the error (a loop that throws). */
  function CollectAll<A, B>(xs: seq<A>, step: A -> Result<B>): (r: Result<seq<B>>)
    ensures r.Ok? ==> |r.value| == |xs|
  {
    if xs == [] then Ok([])
    else
      var init := CollectAll(xs[..|xs| - 1], step);
      if init.Err? then init
      else
        var v := step(xs[|xs| - 1]);
        if v.Err? then Err(v.error) else Ok(init.value + [v.value])
  }

  /** Collecting succeeds exactly when every step does, and then holds each step's
      result at its element's position; a failure is the first failing step's. */
  lemma {:induction false} CollectAllOkIff<A, B>(xs: seq<A>, step: A -> Result<B>)
    ensures CollectAll(xs, step).Ok? <==> forall i :: 0 <= i < |xs| ==> step(xs[i]).Ok?
    ensures CollectAll(xs, step).Ok? ==> forall i :: 0 <= i < |xs| ==> step(xs[i]) == Ok(CollectAll(xs, step).value[i])
    ensures CollectAll(xs, step).Err? ==>
      exists i :: 0 <= i < |xs| && step(xs[i]) == Err(CollectAll(xs, step).error) &&
        forall j :: 0 <= j < i ==> step(xs[j]).Ok?
  {
    if xs != [] {
      var n := |xs|;
      CollectAllOkIff(xs[..n - 1], step);
      assert forall i :: 0 <= i < n - 1 ==> xs[..n - 1][i] == xs[i];
      if CollectAll(xs[..n - 1], step).Err? {
        var i :| 0 <= i < n - 1 && step(xs[i]) == Err(CollectAll(xs[..n - 1], step).error) &&
          forall j :: 0 <= j < i ==> step(xs[j]).Ok?;
        assert step(xs[i]) == Err(CollectAll(xs, step).error);
      }
    }
  }

  lemma {:induction false} CollectAllPrefixFails<A, B>(xs: seq<A>, step: A -> Result<B>, n: nat)
    requires n <= |xs|
    requires CollectAll(xs[..n], step).Err?
    ensures CollectAll(xs, step) == CollectAll(xs[..n], step)
    decreases |xs| - n
  {
    if n < |xs| {
      assert xs[..n + 1][..n] == xs[..n];
      CollectAllPrefixFails(xs, step, n + 1);
    } else {
      assert xs[..n] == xs;
    }
  }

  /** One more step of a collection that has succeeded so far: a failing step is
      the failure of the whole collection, a succeeding one extends the result. */
  lemma CollectAllExtend<A, B>(xs: seq<A>, step: A -> Result<B>, i: nat)
    requires i < |xs|
    requires CollectAll(xs[..i], step).Ok?
    ensures step(xs[i]).Err? ==> CollectAll(xs, step) == Err(step(xs[i]).error)
    ensures step(xs[i]).Ok? ==>
      CollectAll(xs[..i + 1], step) == Ok(CollectAll(xs[..i], step).value + [step(xs[i]).value])
  {
    assert xs[..i + 1][..i] == xs[..i];
    if step(xs[i]).Err? {
      CollectAllPrefixFails(xs, step, i + 1);
    }
  }

  /** Collecting over two sequences with the same elements, in whatever order and
      multiplicity: both succeed or both fail, and the results hold the same
      values. */
  lemma SameElementsCollect<A, B>(xs: seq<A>, ys: seq<A>, step: A -> Result<B>)
    requires forall x :: x in xs <==> x in ys
    ensures CollectAll(xs, step).Ok? <==> CollectAll(ys, step).Ok?
    ensures CollectAll(xs, step).Ok? ==>
      forall b :: b in CollectAll(xs, step).value <==> b in CollectAll(ys, step).value
  {
    CollectAllOkIff(xs, step);
    CollectAllOkIff(ys, step);
    forall j | 0 <= j < |ys| ensures ys[j] in xs { }
    forall i | 0 <= i < |xs| ensures xs[i] in ys { }
    if CollectAll(xs, step).Ok? {
      var u, v := CollectAll(xs, step).value, CollectAll(ys, step).value;
      forall b | b in u ensures b in v {
        var i :| 0 <= i < |u| && u[i] == b;
        assert xs[i] in ys;
        var j :| 0 <= j < |ys| && ys[j] == xs[i];
        assert v[j] == b;
      }
      forall b | b in v ensures b in u {
        var j :| 0 <= j < |v| && v[j] == b;
        assert ys[j] in xs;
        var i :| 0 <= i < |xs| && xs[i] == ys[j];
        assert u[i] == b;
      }
    }
  }

  /** The successes of a sequence of optional results, in order. */
  function Somes<T>(xs: seq<Option<T>>): (r: seq<T>)
    ensures |r| <= |xs|
  {
    if xs == [] then []
    else Somes(xs[..|xs| - 1]) + (if xs[|xs| - 1].Some? then [xs[|xs| - 1].value] else [])
  }

  lemma SomesAppend<T>(xs: seq<Option<T>>, x: Option<T>)
    ensures Somes(xs + [x]) == Somes(xs) + (if x.Some? then [x.value] else [])
  {
    assert (xs + [x])[..|xs|] == xs;
  }
}
