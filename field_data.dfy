/** Packing a column of Java objects into a FieldData wire message (genFieldData,
    genVectorField, genScalarField): vectors into one flat float list or one byte
    buffer, scalars into a typed list, nullable columns into a validity mask plus
    the non-null values. */
module FieldPacking {
  import opened MilvusTypes
  import opened FieldValidation
  import opened SparseCodec

  /** A ScalarField message: one typed list, or one ScalarField per array row. JSON
      values are kept as the objects whose text is sent. */
  datatype ScalarField =
    | LongData(longs: seq<int>)
    | IntData(ints: seq<int>)
    | BoolData(bools: seq<bool>)
    | FloatData(floats: seq<Float32>)
    | DoubleData(doubles: seq<Float64>)
    | StringData(strings: seq<string>)
    | JsonData(jsons: seq<Obj>)
    | ArrayData(rows: seq<ScalarField>)

  /** The payload of a VectorField message: a FloatArray, the bytes of the dense
      byte-packed kinds (tagged with their kind), or a SparseFloatArray. */
  datatype VectorData =
    | FloatVectorData(floats: seq<Float32>)
    | BytesVector(kind: DataType, bytes: seq<Byte>)
    | SparseVectorData(sparse: SparseFloatArray)

  datatype VectorField = VectorField(dim: int, data: VectorData)

  datatype Payload = Scalars(scalars: ScalarField) | Vectors(vectors: VectorField)

  /** A FieldData message. An unset field name is the empty string. */
  datatype FieldData = FieldData(
    fieldName: string,
    dataType: DataType,
    validData: seq<bool>,
    payload: Payload,
    isDynamic: bool)

  /** `acc` in front of a successful tail, or the tail's error. */
  function Prepend<T>(acc: seq<T>, r: Result<seq<T>>): Result<seq<T>>
  {
    if r.Err? then r else Ok(acc + r.value)
  }

  function Zeros(n: nat): (r: seq<Byte>)
    ensures |r| == n && forall j :: 0 <= j < n ==> r[j] == 0
  {
    seq(n, _ => 0)
  }

  // ---------------------------------------------------------------- scalars

  /** The unboxing cast a scalar list applies to one non-null object. */
  function LongOf(o: Obj): Option<int> { if o.JLong? then Some(o.l) else Option.None }
  function IntOf(o: Obj): Option<int>
  {
    if o.JShort? then Some(o.s) else if o.JInteger? then Some(o.i) else Option.None
  }
  function BoolOf(o: Obj): Option<bool> { if o.JBoolean? then Some(o.b) else Option.None }
  function FloatOf(o: Obj): Option<Float32> { if o.JFloat? then Some(o.f) else Option.None }
  function DoubleOf(o: Obj): Option<Float64> { if o.JDouble? then Some(o.d) else Option.None }
  function StringOf(o: Obj): Option<string> { if o.JString? then Some(o.str) else Option.None }
  function JsonOf(o: Obj): Option<Obj> { Some(o) }

  /** objects.stream().map(cast).collect(), then addAllData: a failing cast of a
      non-null object throws first, then a null element is refused by the list. */
  function Gather<T>(objects: seq<Obj>, cast: Obj -> Option<T>): (r: Result<seq<T>>)
    ensures r.Ok? <==> forall j :: 0 <= j < |objects| ==> objects[j] != Null && cast(objects[j]).Some?
    ensures r.Ok? ==> |r.value| == |objects|
    ensures r.Ok? ==> forall j :: 0 <= j < |objects| ==> Some(r.value[j]) == cast(objects[j])
  {
    if exists j :: 0 <= j < |objects| && objects[j] != Null && cast(objects[j]).None? then
      Err(Runtime(ClassCast))
    else if exists j :: 0 <= j < |objects| && objects[j] == Null then
      Err(Runtime(NullPointer))
    else
      Ok(seq(|objects|, j requires 0 <= j < |objects| => cast(objects[j]).value))
  }

  function Wrap<T>(r: Result<seq<T>>, make: seq<T> -> ScalarField): Result<ScalarField>
  {
    if r.Err? then Err(r.error) else Ok(make(r.value))
  }

  /** genScalarField(DataType, objects). */
  function ScalarOf(dataType: DataType, objects: seq<Obj>): Result<ScalarField>
  {
    match dataType
    case None => Err(UnsupportedDataType)
    case Unrecognized => Err(UnsupportedDataType)
    case Int64 => Wrap(Gather(objects, LongOf), (x: seq<int>) => LongData(x))
    case Int32 => Wrap(Gather(objects, IntOf), (x: seq<int>) => IntData(x))
    case Int16 => Wrap(Gather(objects, IntOf), (x: seq<int>) => IntData(x))
    case Int8 => Wrap(Gather(objects, IntOf), (x: seq<int>) => IntData(x))
    case Bool => Wrap(Gather(objects, BoolOf), (x: seq<bool>) => BoolData(x))
    case Float => Wrap(Gather(objects, FloatOf), (x: seq<Float32>) => FloatData(x))
    case Double => Wrap(Gather(objects, DoubleOf), (x: seq<Float64>) => DoubleData(x))
    case String => Wrap(Gather(objects, StringOf), (x: seq<string>) => StringData(x))
    case VarChar => Wrap(Gather(objects, StringOf), (x: seq<string>) => StringData(x))
    case JSON => Wrap(Gather(objects, JsonOf), (x: seq<Obj>) => JsonData(x))
    case _ => Err(IllegalScalarDataType)
  }

  /** One array row: the (List) cast, then genScalarField on the element kind. A
      null row reaches genScalarField as a null list, which only the kinds that
      throw before streaming survive long enough to report. */
  function ArrayRowOf(elementType: DataType, o: Obj): Result<ScalarField>
  {
    if o == Null then
      var e := ScalarOf(elementType, []);
      if e.Err? then e else Err(Runtime(NullPointer))
    else if !o.JList? then Err(Runtime(ClassCast))
    else ScalarOf(elementType, o.items)
  }

  /** The rows of an array column built for the first |objects| objects. */
  function ArrayRowsOf(elementType: DataType, objects: seq<Obj>): Result<seq<ScalarField>>
  {
    if objects == [] then Ok([])
    else
      var init := ArrayRowsOf(elementType, objects[..|objects| - 1]);
      if init.Err? then init
      else
        var row := ArrayRowOf(elementType, objects[|objects| - 1]);
        if row.Err? then Err(row.error) else Ok(init.value + [row.value])
  }

  /** genScalarField(FieldType, objects). */
  function ScalarFieldOf(field: FieldType, objects: seq<Obj>): Result<ScalarField>
  {
    if field.dataType.Array? then
      var rows := ArrayRowsOf(field.elementType, objects);
      if rows.Err? then Err(rows.error) else Ok(ArrayData(rows.value))
    else ScalarOf(field.dataType, objects)
  }

  lemma {:induction false} ArrayRowsPrefixFails(elementType: DataType, objects: seq<Obj>, n: nat)
    requires n <= |objects|
    requires ArrayRowsOf(elementType, objects[..n]).Err?
    ensures ArrayRowsOf(elementType, objects) == ArrayRowsOf(elementType, objects[..n])
    decreases |objects| - n
  {
    if n < |objects| {
      assert objects[..n + 1][..n] == objects[..n];
      ArrayRowsPrefixFails(elementType, objects, n + 1);
    } else {
      assert objects[..n] == objects;
    }
  }

  /** genScalarField(FieldType, objects): for an array field, one ScalarField per
      row, built in a loop. */
  method GenScalarField(field: FieldType, objects: seq<Obj>) returns (r: Result<ScalarField>)
    ensures r == ScalarFieldOf(field, objects)
  {
    if !field.dataType.Array? {
      return ScalarOf(field.dataType, objects);
    }
    var rows: seq<ScalarField> := [];
    var i := 0;
    while i < |objects|
      invariant 0 <= i <= |objects|
      invariant ArrayRowsOf(field.elementType, objects[..i]) == Ok(rows)
    {
      assert objects[..i + 1][..i] == objects[..i];
      var row := ArrayRowOf(field.elementType, objects[i]);
      if row.Err? {
        ArrayRowsPrefixFails(field.elementType, objects, i + 1);
        return Err(row.error);
      }
      rows := rows + [row.value];
      i := i + 1;
    }
    assert objects[..i] == objects;
    r := Ok(ArrayData(rows));
  }

  // ---------------------------------------------------------------- vectors

  /** floats.addAll(list) for each object, which must be a List. */
  function FlattenLists(objects: seq<Obj>): Result<seq<Obj>>
  {
    if objects == [] then Ok([])
    else if !objects[0].JList? then Err(IllegalValueType)
    else Prepend(objects[0].items, FlattenLists(objects[1..]))
  }

  /** FloatArray.addAllData(floats): element by element, a null or a non-Float stops
      the copy. */
  function FloatsOf(items: seq<Obj>): (r: Result<seq<Float32>>)
    ensures r.Ok? ==> |r.value| == |items|
  {
    if items == [] then Ok([])
    else if items[0] == Null then Err(Runtime(NullPointer))
    else if !items[0].JFloat? then Err(Runtime(ClassCast))
    else Prepend([items[0].f], FloatsOf(items[1..]))
  }

  /** The FloatVector branch of genVectorField: dim is the integer quotient of the
      float count by the vector count. */
  function FloatVectorOf(objects: seq<Obj>): Result<VectorField>
  {
    var flat := FlattenLists(objects);
    if flat.Err? then Err(flat.error)
    else if |objects| == 0 then Err(Runtime(DivideByZero))
    else
      var floats := FloatsOf(flat.value);
      if floats.Err? then Err(floats.error)
      else Ok(VectorField(|flat.value| / |objects|, FloatVectorData(floats.value)))
  }

  /** totalBuf.put(buf.array()) for each later object, in order: a null or a
      non-ByteBuffer throws, and so does a buffer that no longer fits the `room`
      the earlier ones left. */
  function Concat(objects: seq<Obj>, room: int): (r: Result<seq<Byte>>)
    ensures r.Ok? ==> |r.value| <= room || r == Ok([])
  {
    if objects == [] then Ok([])
    else
      var init := Concat(objects[..|objects| - 1], room);
      if init.Err? then init
      else
        var b := PutOf(objects[|objects| - 1], room - |init.value|);
        if b.Err? then b else Ok(init.value + b.value)
  }

  lemma {:induction false} ConcatPrefixFails(objects: seq<Obj>, n: nat, room: int)
    requires n <= |objects|
    requires Concat(objects[..n], room).Err?
    ensures Concat(objects, room) == Concat(objects[..n], room)
    decreases |objects| - n
  {
    if n < |objects| {
      assert objects[..n + 1][..n] == objects[..n];
      ConcatPrefixFails(objects, n + 1, room);
    } else {
      assert objects[..n] == objects;
    }
  }

  /** totalBuf.put(((ByteBuffer) o).array()) with `room` bytes left: the bytes put. */
  function PutOf(o: Obj, room: int): (r: Result<seq<Byte>>)
    ensures r.Ok? ==> o.JByteBuffer? && r.value == o.bytes && |r.value| <= room
  {
    if o == Null then Err(Runtime(NullPointer))
    else if !o.JByteBuffer? then Err(Runtime(ClassCast))
    else if |o.bytes| > room then Err(Runtime(BufferOverflow))
    else Ok(o.bytes)
  }

  /** The byte-packed branch of genVectorField: the first buffer's limit times the
      vector count is the capacity, its limit fixes the dim, and every buffer's whole
      backing array is put; the unfilled rest stays zero. */
  function ByteVectorsOf(dataType: DataType, objects: seq<Obj>): Result<VectorField>
  {
    if objects == [] || objects[0] == Null then Err(Runtime(NullPointer))
    else if !objects[0].JByteBuffer? then Err(Runtime(ClassCast))
    else
      var b0 := objects[0].bytes;
      var cap := objects[0].limit * |objects|;
      if |b0| > cap then Err(Runtime(BufferOverflow))
      else
        var d := CalculateBinVectorDim(dataType, objects[0].limit);
        if d.Err? then Err(d.error)
        else
          var t := Concat(objects[1..], cap - |b0|);
          if t.Err? then Err(t.error)
          else Ok(VectorField(d.value, BytesVector(dataType, b0 + t.value + Zeros(cap - |b0| - |t.value|))))
  }

  /** genVectorField. */
  function VectorFieldOf(dataType: DataType, objects: seq<Obj>): Result<VectorField>
    requires IsVectorDataType(dataType)
  {
    if dataType.FloatVector? then FloatVectorOf(objects)
    else if dataType.SparseFloatVector? then
      var a := SparseArrayOf(objects);
      if a.Err? then Err(a.error) else Ok(VectorField(a.value.dim, SparseVectorData(a.value)))
    else ByteVectorsOf(dataType, objects)
  }

  lemma PrependNil<T>(r: Result<seq<T>>)
    ensures Prepend([], r) == r
  {
    if r.Ok? {
      assert [] + r.value == r.value;
    }
  }

  lemma PrependPrepend<T>(a: seq<T>, b: seq<T>, r: Result<seq<T>>)
    ensures Prepend(a, Prepend(b, r)) == Prepend(a + b, r)
  {
    if r.Ok? {
      assert a + (b + r.value) == (a + b) + r.value;
    }
  }

  method GenFloatVector(objects: seq<Obj>) returns (r: Result<VectorField>)
    ensures r == FloatVectorOf(objects)
  {
    var floats: seq<Obj> := [];
    var i := 0;
    assert objects[0..] == objects;
    PrependNil(FlattenLists(objects));
    while i < |objects|
      invariant 0 <= i <= |objects|
      invariant FlattenLists(objects) == Prepend(floats, FlattenLists(objects[i..]))
    {
      assert objects[i..][1..] == objects[i + 1..];
      var o := objects[i];
      if !o.JList? {
        return Err(IllegalValueType);
      }
      PrependPrepend(floats, o.items, FlattenLists(objects[i + 1..]));
      floats := floats + o.items;
      i := i + 1;
    }
    assert floats + [] == floats;
    if |objects| == 0 {
      return Err(Runtime(DivideByZero));
    }
    var dim := |floats| / |objects|;
    var data := FloatsOf(floats);
    if data.Err? {
      return Err(data.error);
    }
    r := Ok(VectorField(dim, FloatVectorData(data.value)));
  }

  /** ByteBuffer.put(src) at `pos`: the bytes after and before stay as they were. */
  method PutBytes(buf: array<Byte>, pos: nat, src: seq<Byte>)
    requires pos + |src| <= buf.Length
    modifies buf
    ensures forall k :: 0 <= k < pos ==> buf[k] == old(buf[k])
    ensures forall k :: 0 <= k < |src| ==> buf[pos + k] == src[k]
    ensures forall k :: pos + |src| <= k < buf.Length ==> buf[k] == old(buf[k])
  {
    forall k | 0 <= k < |src| {
      buf[pos + k] := src[k];
    }
  }

  method PutBuffer(totalBuf: array<Byte>, pos: nat, o: Obj) returns (r: Result<seq<Byte>>)
    requires pos <= totalBuf.Length
    modifies totalBuf
    ensures r == PutOf(o, totalBuf.Length - pos)
    ensures forall k :: 0 <= k < pos ==> totalBuf[k] == old(totalBuf[k])
    ensures r.Ok? ==> forall k :: 0 <= k < |r.value| ==> totalBuf[pos + k] == r.value[k]
    ensures r.Ok? ==> forall k :: pos + |r.value| <= k < totalBuf.Length ==> totalBuf[k] == old(totalBuf[k])
  {
    r := PutOf(o, totalBuf.Length - pos);
    if r.Ok? {
      PutBytes(totalBuf, pos, r.value);
    }
  }

  /** The loop of the byte-packed branch: put every later buffer after the first
      one, which already fills `totalBuf[..start]`. */
  method PutRest(totalBuf: array<Byte>, start: nat, later: seq<Obj>) returns (r: Result<seq<Byte>>)
    requires start <= totalBuf.Length
    requires forall k :: start <= k < totalBuf.Length ==> totalBuf[k] == 0
    modifies totalBuf
    ensures r == Concat(later, totalBuf.Length - start)
    ensures r.Ok? ==> totalBuf[..] == old(totalBuf[..start]) + r.value + Zeros(totalBuf.Length - start - |r.value|)
  {
    var room := totalBuf.Length - start;
    var pos := start;
    ghost var filled: seq<Byte> := [];
    var j := 0;
    while j < |later|
      invariant 0 <= j <= |later|
      invariant pos == start + |filled| <= totalBuf.Length
      invariant forall k :: 0 <= k < start ==> totalBuf[k] == old(totalBuf[k])
      invariant forall k :: 0 <= k < |filled| ==> totalBuf[start + k] == filled[k]
      invariant forall k :: pos <= k < totalBuf.Length ==> totalBuf[k] == 0
      invariant Concat(later[..j], room) == Ok(filled)
    {
      assert later[..j + 1][..j] == later[..j];
      var put := PutBuffer(totalBuf, pos, later[j]);
      if put.Err? {
        ConcatPrefixFails(later, j + 1, room);
        return put;
      }
      filled := filled + put.value;
      pos := pos + |put.value|;
      j := j + 1;
    }
    assert later[..j] == later;
    assert totalBuf[start..pos] == filled;
    BufferLayout(totalBuf[..], old(totalBuf[..start]), filled);
    r := Ok(totalBuf[start..pos]);
  }

  /** A buffer read as a head, the bytes put after it, and zeros. */
  lemma BufferLayout(a: seq<Byte>, head: seq<Byte>, filled: seq<Byte>)
    requires |head| + |filled| <= |a|
    requires forall k :: 0 <= k < |head| ==> a[k] == head[k]
    requires forall k :: 0 <= k < |filled| ==> a[|head| + k] == filled[k]
    requires forall k :: |head| + |filled| <= k < |a| ==> a[k] == 0
    ensures a == head + filled + Zeros(|a| - |head| - |filled|)
  {
  }

  method GenByteVectors(dataType: DataType, objects: seq<Obj>) returns (r: Result<VectorField>)
    ensures r == ByteVectorsOf(dataType, objects)
  {
    if |objects| == 0 || objects[0] == Null {
      return Err(Runtime(NullPointer));
    }
    var first := objects[0];
    if !first.JByteBuffer? {
      return Err(Runtime(ClassCast));
    }
    var b0 := first.bytes;
    var cap := first.limit * |objects|;
    if |b0| > cap {
      return Err(Runtime(BufferOverflow));
    }
    var totalBuf := new Byte[cap](_ => 0);
    PutBytes(totalBuf, 0, b0);
    assert totalBuf[..|b0|] == b0;
    var dim := CalculateBinVectorDim(dataType, first.limit);
    if dim.Err? {
      return Err(dim.error);
    }
    var rest := PutRest(totalBuf, |b0|, objects[1..]);
    if rest.Err? {
      return Err(rest.error);
    }
    r := Ok(VectorField(dim.value, BytesVector(dataType, totalBuf[..])));
  }

  /** genVectorField. */
  method GenVectorField(dataType: DataType, objects: seq<Obj>) returns (r: Result<VectorField>)
    requires IsVectorDataType(dataType)
    ensures r == VectorFieldOf(dataType, objects)
  {
    if dataType.FloatVector? {
      r := GenFloatVector(objects);
    } else if dataType.SparseFloatVector? {
      var a := GenSparseFloatArray(objects);
      if a.Err? {
        return Err(a.error);
      }
      r := Ok(VectorField(a.value.dim, SparseVectorData(a.value)));
    } else {
      r := GenByteVectors(dataType, objects);
    }
  }

  // ---------------------------------------------------------------- nullable columns

  /** One validity flag per object: true exactly at the non-null ones. */
  function ValidityMask(objects: seq<Obj>): (r: seq<bool>)
    ensures |r| == |objects|
    ensures forall j :: 0 <= j < |objects| ==> (r[j] <==> objects[j] != Null)
  {
    seq(|objects|, j requires 0 <= j < |objects| => objects[j] != Null)
  }

  /** The non-null objects, in input order. */
  function NonNulls(objects: seq<Obj>): (r: seq<Obj>)
    ensures forall j :: 0 <= j < |r| ==> r[j] != Null
  {
    if objects == [] then []
    else if objects[|objects| - 1] == Null then NonNulls(objects[..|objects| - 1])
    else NonNulls(objects[..|objects| - 1]) + [objects[|objects| - 1]]
  }

  /** Put the packed values back at the positions the mask marks valid, nulls at
      the others: the inverse of masking, as a reader of the message does it. */
  function Expand(mask: seq<bool>, kept: seq<Obj>): seq<Obj>
  {
    if mask == [] then []
    else if mask[0] then
      if kept == [] then [Null] + Expand(mask[1..], [])
      else [kept[0]] + Expand(mask[1..], kept[1..])
    else [Null] + Expand(mask[1..], kept)
  }

  function CountTrue(mask: seq<bool>): nat
  {
    if mask == [] then 0 else (if mask[0] then 1 else 0) + CountTrue(mask[1..])
  }

  lemma {:induction false} ExpandAppend(mask: seq<bool>, kept: seq<Obj>, b: bool, o: Obj)
    requires CountTrue(mask) == |kept|
    requires b <==> o != Null
    ensures CountTrue(mask + [b]) == |kept| + (if b then 1 else 0)
    ensures Expand(mask + [b], if b then kept + [o] else kept) == Expand(mask, kept) + [o]
  {
    if mask == [] {
      assert [b] + [] == [b];
    } else {
      assert (mask + [b])[1..] == mask[1..] + [b];
      if mask[0] {
        assert (kept + [o])[1..] == kept[1..] + [o];
        ExpandAppend(mask[1..], kept[1..], b, o);
      } else {
        ExpandAppend(mask[1..], kept, b, o);
      }
    }
  }

  /** Round trip: re-expanding the packed non-null values with the mask gives the
      column back, and the mask has one flag per packed value. */
  lemma {:induction false} MaskRoundTrip(objects: seq<Obj>)
    ensures CountTrue(ValidityMask(objects)) == |NonNulls(objects)|
    ensures Expand(ValidityMask(objects), NonNulls(objects)) == objects
  {
    if objects != [] {
      var n := |objects|;
      var init := objects[..n - 1];
      MaskRoundTrip(init);
      assert ValidityMask(objects) == ValidityMask(init) + [objects[n - 1] != Null];
      ExpandAppend(ValidityMask(init), NonNulls(init), objects[n - 1] != Null, objects[n - 1]);
      assert init + [objects[n - 1]] == objects;
    }
  }

  /** The loop of genFieldData over a nullable column: flag every object, keep the
      non-null ones. */
  method SplitNulls(objects: seq<Obj>) returns (validData: seq<bool>, kept: seq<Obj>)
    ensures validData == ValidityMask(objects)
    ensures kept == NonNulls(objects)
  {
    validData := [];
    kept := [];
    var i := 0;
    while i < |objects|
      invariant 0 <= i <= |objects|
      invariant validData == ValidityMask(objects[..i])
      invariant kept == NonNulls(objects[..i])
    {
      var obj := objects[i];
      assert objects[..i + 1][..i] == objects[..i];
      validData := validData + [obj != Null];
      if obj != Null {
        kept := kept + [obj];
      }
      i := i + 1;
    }
    assert objects[..i] == objects;
  }

  // ---------------------------------------------------------------- genFieldData

  /** A mask is sent for a non-vector field that is nullable or has a default. */
  predicate Masked(field: FieldType)
  {
    !IsVectorDataType(field.dataType) && (field.nullable || field.defaultValue != Null)
  }

  /** genFieldData(fieldType, objects, isDynamic). */
  function FieldDataOf(field: FieldType, objects: seq<Obj>, isDynamic: bool): Result<FieldData>
  {
    if IsVectorDataType(field.dataType) then
      var v := VectorFieldOf(field.dataType, objects);
      if v.Err? then Err(v.error) else Ok(FieldData(field.name, field.dataType, [], Vectors(v.value), false))
    else
      var mask := if Masked(field) then ValidityMask(objects) else [];
      var kept := if Masked(field) then NonNulls(objects) else objects;
      var s := ScalarFieldOf(field, kept);
      if s.Err? then Err(s.error)
      else Ok(FieldData(if isDynamic then "" else field.name, field.dataType, mask, Scalars(s.value), isDynamic))
  }

  method GenFieldData(field: FieldType, objects: seq<Obj>, isDynamic: bool) returns (r: Result<FieldData>)
    ensures r == FieldDataOf(field, objects, isDynamic)
  {
    if IsVectorDataType(field.dataType) {
      var v := GenVectorField(field.dataType, objects);
      if v.Err? {
        return Err(v.error);
      }
      return Ok(FieldData(field.name, field.dataType, [], Vectors(v.value), false));
    }
    var validData: seq<bool> := [];
    var values := objects;
    if field.nullable || field.defaultValue != Null {
      validData, values := SplitNulls(objects);
    }
    var s := GenScalarField(field, values);
    if s.Err? {
      return Err(s.error);
    }
    if isDynamic {
      return Ok(FieldData("", field.dataType, validData, Scalars(s.value), true));
    }
    r := Ok(FieldData(field.name, field.dataType, validData, Scalars(s.value), false));
  }

  /** A masked column carries one flag per input, true exactly at the non-null
      inputs, and its values are the non-null inputs in order; a vector column
      carries no mask. */
  lemma FieldDataMask(field: FieldType, objects: seq<Obj>, isDynamic: bool)
    requires FieldDataOf(field, objects, isDynamic).Ok?
    ensures var f := FieldDataOf(field, objects, isDynamic).value;
      && (Masked(field) ==>
            |f.validData| == |objects| &&
            (forall j :: 0 <= j < |objects| ==> (f.validData[j] <==> objects[j] != Null)) &&
            f.payload == Scalars(ScalarFieldOf(field, NonNulls(objects)).value))
      && (IsVectorDataType(field.dataType) ==> f.validData == [] && f.payload.Vectors?)
  {
  }

  // ---------------------------------------------------------------- validated columns

  lemma {:induction false} FlattenEqualLists(objects: seq<Obj>, dim: int)
    requires forall j :: 0 <= j < |objects| ==>
      objects[j].JList? && AllFloats(objects[j].items) && |objects[j].items| == dim
    ensures FlattenLists(objects).Ok?
    ensures |FlattenLists(objects).value| == |objects| * dim
    ensures AllFloats(FlattenLists(objects).value)
  {
    if objects != [] {
      FlattenEqualLists(objects[1..], dim);
      var h := objects[0].items;
      var t := FlattenLists(objects[1..]).value;
      assert |objects| * dim == dim + (|objects| - 1) * dim;
      var ht: seq<Obj> := h + t;
      forall j | 0 <= j < |ht| ensures ht[j].JFloat? {
        if j < |h| { assert ht[j] == h[j]; } else { assert ht[j] == t[j - |h|]; }
      }
    }
  }

  lemma {:induction false} FloatsOfAllFloats(items: seq<Obj>)
    requires AllFloats(items)
    ensures FloatsOf(items).Ok?
  {
    if items != [] {
      FloatsOfAllFloats(items[1..]);
    }
  }

  lemma {:induction false} FlattenFloatsOrNulls(objects: seq<Obj>)
    requires forall j :: 0 <= j < |objects| ==> objects[j].JList? && FloatsOrNulls(objects[j].items)
    ensures FlattenLists(objects).Ok?
    ensures FloatsOrNulls(FlattenLists(objects).value)
    ensures Null in FlattenLists(objects).value <==> exists j :: 0 <= j < |objects| && Null in objects[j].items
  {
    if objects != [] {
      FlattenFloatsOrNulls(objects[1..]);
      var h := objects[0].items;
      var t := FlattenLists(objects[1..]).value;
      var ht: seq<Obj> := h + t;
      forall j | 0 <= j < |ht| ensures ht[j].JFloat? || ht[j] == Null {
        if j < |h| { assert ht[j] == h[j]; } else { assert ht[j] == t[j - |h|]; }
      }
      if exists j :: 0 <= j < |objects| && Null in objects[j].items {
        var j :| 0 <= j < |objects| && Null in objects[j].items;
        if j > 0 {
          assert objects[1..][j - 1] == objects[j];
        }
      }
      if exists j :: 0 <= j < |objects[1..]| && Null in objects[1..][j].items {
        var j :| 0 <= j < |objects[1..]| && Null in objects[1..][j].items;
        assert objects[1..][j] == objects[j + 1];
      }
    }
  }

  lemma {:induction false} FloatsOfFirstNull(items: seq<Obj>)
    requires FloatsOrNulls(items) && Null in items
    ensures FloatsOf(items) == Err(Runtime(NullPointer))
  {
    if items[0] != Null {
      assert items == [items[0]] + items[1..];
      FloatsOfFirstNull(items[1..]);
    }
  }

  /** A float vector column of rows' lists, one of which holds a null element, is
      refused by the packer with a NullPointerException (the row check lets the
      null through). */
  lemma FloatRowsWithNullFail(objects: seq<Obj>)
    requires forall j :: 0 <= j < |objects| ==> objects[j].JList? && FloatsOrNulls(objects[j].items)
    requires exists j :: 0 <= j < |objects| && Null in objects[j].items
    ensures VectorFieldOf(FloatVector, objects) == Err(Runtime(NullPointer))
  {
    FlattenFloatsOrNulls(objects);
    FloatsOfFirstNull(FlattenLists(objects).value);
  }

  lemma {:induction false} ConcatEqualBuffers(objects: seq<Obj>, size: nat, room: int)
    requires forall j :: 0 <= j < |objects| ==> objects[j].JByteBuffer? && |objects[j].bytes| == size
    requires room >= size * |objects|
    ensures Concat(objects, room).Ok?
    ensures |Concat(objects, room).value| == size * |objects|
  {
    if objects != [] {
      var n := |objects|;
      assert size * n == size * (n - 1) + size;
      ConcatEqualBuffers(objects[..n - 1], size, room);
    }
  }

  lemma {:induction false} MulAtLeast(n: int, k: int)
    requires n >= 0 && k >= 1
    ensures n * k >= n
  {
    if k > 1 {
      MulAtLeast(n, k - 1);
      assert n * k == n * (k - 1) + n;
    }
  }

  lemma DivExact(n: int, d: int)
    requires n > 0
    ensures n * d / n == d
  {
    var q := n * d / n;
    var r := n * d % n;
    assert n * q + r == n * d;
    assert n * (q - d) == -r;
    if q > d {
      MulAtLeast(n, q - d);
    } else if q < d {
      MulAtLeast(n, d - q);
    }
  }

  /** A non-empty float vector column that passed the column check packs without
      error: its dim is the schema dimension and it holds exactly one schema-sized
      vector per row. */
  lemma ValidatedFloatColumnPacks(field: FieldType, objects: seq<Obj>)
    requires field.dataType.FloatVector?
    requires CheckFieldData(field, objects, false) == Pass
    requires objects != []
    ensures VectorFieldOf(field.dataType, objects).Ok?
    ensures VectorFieldOf(field.dataType, objects).value.dim == field.dimension
    ensures |VectorFieldOf(field.dataType, objects).value.data.floats| == |objects| * field.dimension
  {
    CheckFieldDataPassIff(field, objects, false);
    var dim := field.dimension;
    forall j | 0 <= j < |objects|
      ensures objects[j].JList? && AllFloats(objects[j].items) && |objects[j].items| == dim
    {
      DenseVectorPassIff(field, objects[j]);
    }
    FlattenEqualLists(objects, dim);
    FloatsOfAllFloats(FlattenLists(objects).value);
    DivExact(|objects|, dim);
  }

  /** The byte count of a dense byte-packed vector of a given dimension. */
  lemma ByteCountOfDimension(dataType: DataType, byteCount: nat, dim: int)
    requires dataType in {BinaryVector, Float16Vector, BFloat16Vector}
    requires 8 * byteCount % BitsPerDimension(dataType) == 0
    requires 8 * byteCount / BitsPerDimension(dataType) == dim
    ensures 8 * byteCount == dim * BitsPerDimension(dataType)
  {
  }

  /** Every buffer of a validated byte-packed column has the limit of one
      schema-sized vector. */
  lemma ValidatedBufferSizes(field: FieldType, objects: seq<Obj>)
    requires field.dataType in {BinaryVector, Float16Vector, BFloat16Vector}
    requires CheckFieldData(field, objects, false) == Pass
    ensures forall j :: 0 <= j < |objects| ==>
      objects[j].JByteBuffer? && 8 * objects[j].limit == field.dimension * BitsPerDimension(field.dataType)
  {
    CheckFieldDataPassIff(field, objects, false);
    forall j | 0 <= j < |objects|
      ensures objects[j].JByteBuffer? && 8 * objects[j].limit == field.dimension * BitsPerDimension(field.dataType)
    {
      DenseVectorPassIff(field, objects[j]);
      ByteCountOfDimension(field.dataType, objects[j].limit, field.dimension);
    }
  }

  /** Buffers whose arrays all have the first buffer's limit pack into their
      concatenation, with no padding. */
  lemma EqualBuffersPack(dataType: DataType, objects: seq<Obj>, size: nat)
    requires objects != [] && objects[0].JByteBuffer? && objects[0].limit == size
    requires forall j :: 0 <= j < |objects| ==> objects[j].JByteBuffer? && |objects[j].bytes| == size
    requires CalculateBinVectorDim(dataType, size).Ok?
    ensures ByteVectorsOf(dataType, objects).Ok?
    ensures ByteVectorsOf(dataType, objects).value.dim == CalculateBinVectorDim(dataType, size).value
    ensures |ByteVectorsOf(dataType, objects).value.data.bytes| == size * |objects|
  {
    var n := |objects|;
    MulAtLeast(size, n);
    assert size * n - size == size * (n - 1);
    ConcatEqualBuffers(objects[1..], size, size * n - size);
  }

  /** A non-empty binary, float16 or bfloat16 vector column that passed the column
      check, of buffers that each wrap their whole array, packs without error: its
      dim is the schema dimension and its buffer holds exactly one schema-sized
      vector per row, with no zero padding. */
  lemma ValidatedByteColumnPacks(field: FieldType, objects: seq<Obj>)
    requires field.dataType in {BinaryVector, Float16Vector, BFloat16Vector}
    requires CheckFieldData(field, objects, false) == Pass
    requires objects != []
    requires forall j :: 0 <= j < |objects| ==> WrapsWholeArray(objects[j])
    ensures VectorFieldOf(field.dataType, objects).Ok?
    ensures VectorFieldOf(field.dataType, objects).value.dim == field.dimension
    ensures 8 * |VectorFieldOf(field.dataType, objects).value.data.bytes| ==
      |objects| * (field.dimension * BitsPerDimension(field.dataType))
  {
    ValidatedBufferLimits(field, objects);
    var size := objects[0].limit;
    forall j | 0 <= j < |objects| ensures objects[j].JByteBuffer? && |objects[j].bytes| == size {
      assert WrapsWholeArray(objects[j]);
    }
    EqualBuffersPack(field.dataType, objects, size);
    var n := |objects|;
    calc {
      8 * (size * n);
      n * (8 * size);
      n * (field.dimension * BitsPerDimension(field.dataType));
    }
  }

  /** The buffers of a validated non-empty byte-packed column share one limit, which
      the dim computation maps to the schema dimension. */
  lemma ValidatedBufferLimits(field: FieldType, objects: seq<Obj>)
    requires field.dataType in {BinaryVector, Float16Vector, BFloat16Vector}
    requires CheckFieldData(field, objects, false) == Pass
    requires objects != []
    ensures objects[0].JByteBuffer?
    ensures forall j :: 0 <= j < |objects| ==> objects[j].JByteBuffer? && objects[j].limit == objects[0].limit
    ensures 8 * objects[0].limit == field.dimension * BitsPerDimension(field.dataType)
    ensures CalculateBinVectorDim(field.dataType, objects[0].limit) == Ok(field.dimension)
  {
    ValidatedBufferSizes(field, objects);
    assert BitsPerDimension(field.dataType) == 1 || BitsPerDimension(field.dataType) == 16;
  }

  /** The column check reads a buffer's limit but the packer puts its whole backing
      array into a buffer sized by the first limit: a binary vector column of one
      two-byte array whose buffer's limit is one byte passes the check for
      dimension 8 and then overflows the packing buffer. */
  lemma SlicedBufferOverflows()
    ensures var field := FieldType("v", BinaryVector, DataType.None, 8, 0, 0, false, Null, false, false, false, false);
      var objects := [JByteBuffer([0, 0], 1)];
      && CheckFieldData(field, objects, false) == Pass
      && VectorFieldOf(BinaryVector, objects) == Err(Runtime(BufferOverflow))
  {
    var field := FieldType("v", BinaryVector, DataType.None, 8, 0, 0, false, Null, false, false, false, false);
    var objects := [JByteBuffer([0, 0], 1)];
    CheckFieldDataPassIff(field, objects, false);
    DenseVectorPassIff(field, objects[0]);
  }

  /** A first buffer whose backing array is longer than its limit times the vector
      count overflows the packing buffer at once, before its dim is computed. */
  lemma LongArrayOverflows(dataType: DataType, objects: seq<Obj>)
    requires IsVectorDataType(dataType) && !dataType.FloatVector? && !dataType.SparseFloatVector?
    requires objects != [] && objects[0].JByteBuffer?
    requires |objects[0].bytes| > objects[0].limit * |objects|
    ensures VectorFieldOf(dataType, objects) == Err(Runtime(BufferOverflow))
  {
  }

  /** An empty dense column passes the column check but cannot be packed: the float
      branch divides by the vector count, the byte branch dereferences the buffer it
      never allocated. */
  lemma EmptyDenseColumnFails(dataType: DataType)
    requires dataType in {FloatVector, BinaryVector, Float16Vector, BFloat16Vector, Int8Vector}
    ensures VectorFieldOf(dataType, []) ==
      Err(Runtime(if dataType.FloatVector? then DivideByZero else NullPointer))
  {
  }

  /** The scalar kinds genScalarField(DataType, ...) can pack. */
  predicate IsPackableScalarKind(dataType: DataType)
  {
    IsNullCheckedKind(dataType) && !dataType.Array?
  }

  lemma ScalarOfAccepted(dataType: DataType, objects: seq<Obj>)
    requires IsPackableScalarKind(dataType)
    requires forall j :: 0 <= j < |objects| ==> objects[j] != Null && ScalarAccepts(dataType, objects[j])
    ensures ScalarOf(dataType, objects).Ok?
  {
  }

  lemma {:induction false} ArrayRowsAccepted(field: FieldType, objects: seq<Obj>)
    requires IsPackableScalarKind(field.elementType)
    requires forall j :: 0 <= j < |objects| ==>
      objects[j] != Null && CheckValue(field, DataType.Array, objects[j], false) == Pass
    ensures ArrayRowsOf(field.elementType, objects).Ok?
  {
    if objects != [] {
      var n := |objects|;
      ArrayRowsAccepted(field, objects[..n - 1]);
      var o := objects[n - 1];
      ArrayBound(field, o, false);
      forall j | 0 <= j < |o.items| ensures o.items[j] != Null && ScalarAccepts(field.elementType, o.items[j]) {
        NullElementRejected(field, field.elementType);
        assert CheckValue(field, field.elementType, o.items[j], true) == Pass;
      }
      ScalarOfAccepted(field.elementType, o.items);
    }
  }

  /** A scalar, string, JSON or array column (with a packable element kind) that
      passed the column check packs without error. */
  lemma ValidatedScalarColumnPacks(field: FieldType, objects: seq<Obj>, isDynamic: bool)
    requires IsPackableScalarKind(field.dataType) ||
      (field.dataType.Array? && IsPackableScalarKind(field.elementType))
    requires CheckFieldData(field, objects, false) == Pass
    ensures FieldDataOf(field, objects, isDynamic).Ok?
  {
    CheckFieldDataPassIff(field, objects, false);
    var kept := if Masked(field) then NonNulls(objects) else objects;
    assert forall j :: 0 <= j < |kept| ==> kept[j] in objects by {
      if Masked(field) { NonNullsFrom(objects); }
    }
    forall j | 0 <= j < |kept|
      ensures kept[j] != Null && CheckValue(field, field.dataType, kept[j], false) == Pass
    {
      var k :| 0 <= k < |objects| && objects[k] == kept[j];
      assert CheckValue(field, field.dataType, objects[k], false) == Pass;
      if kept[j] == Null {
        assert !Masked(field);
        NullScalarRule(field);
      }
    }
    if field.dataType.Array? {
      ArrayRowsAccepted(field, kept);
    } else {
      ScalarOfAccepted(field.dataType, kept);
    }
  }

  lemma {:induction false} NonNullsFrom(objects: seq<Obj>)
    ensures forall j :: 0 <= j < |NonNulls(objects)| ==> NonNulls(objects)[j] in objects
  {
    if objects != [] {
      var init := objects[..|objects| - 1];
      NonNullsFrom(init);
      forall x | x in init ensures x in objects { }
    }
  }
}
