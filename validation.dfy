/** Shape and nullability checks on field data before it is packed: the
    column-based check (checkFieldData), the row-based check and coercion
    (checkFieldValue), and the dimension a binary-packed vector denotes
    (calculateBinVectorDim). */
module FieldValidation {
  import opened MilvusTypes

  /** Bits one dimension of a binary-packed vector occupies: 1 for BinaryVector,
      8 for Int8Vector, 16 for the half-precision kinds (the fall-through branch,
      taken by every other kind). */
  function BitsPerDimension(dataType: DataType): int
  {
    if dataType.BinaryVector? then 1 else if dataType.Int8Vector? then 8 else 16
  }

  /** calculateBinVectorDim: the dimension of a vector stored in `byteCount` bytes. */
  function CalculateBinVectorDim(dataType: DataType, byteCount: nat): (r: Result<int>)
    ensures r.Err? <==> BitsPerDimension(dataType) == 16 && byteCount % 2 != 0
    ensures r.Err? ==> r.error == OddByteCount(dataType, byteCount)
    ensures r.Ok? ==> r.value * BitsPerDimension(dataType) == 8 * byteCount
  {
    if dataType.BinaryVector? then Ok(byteCount * 8)
    else if dataType.Int8Vector? then Ok(byteCount)
    else if byteCount % 2 != 0 then Err(OddByteCount(dataType, byteCount))
    else Ok(byteCount / 2)
  }

  /** checkNullableFieldData: Ok(true) when a null is accepted as is (the caller then
      skips the type check), Ok(false) when the value goes on to the type check. */
  function CheckNullableFieldData(field: FieldType, value: Obj, verifyElementType: bool): (r: Result<bool>)
    ensures r.Err? <==>
      !verifyElementType && value == Null && !field.nullable && field.defaultValue == Null
    ensures r.Err? ==> r.error == NullNotAllowed(field.name)
    ensures r == Ok(true) <==>
      !verifyElementType && value == Null && (field.nullable || field.defaultValue != Null)
  {
    if verifyElementType then Ok(false)
    else if field.nullable then Ok(value == Null)
    else if value == Null then
      if field.defaultValue == Null then Err(NullNotAllowed(field.name)) else Ok(true)
    else Ok(false)
  }

  /** The kinds whose column check consults checkNullableFieldData first. */
  predicate IsNullCheckedKind(dataType: DataType)
  {
    dataType.Int64? || dataType.Int32? || dataType.Int16? || dataType.Int8? || dataType.Bool? ||
    dataType.Float? || dataType.Double? || dataType.VarChar? || dataType.String? ||
    dataType.JSON? || dataType.Array?
  }

  /** The kinds the column check's switch handles; every other kind is refused. */
  predicate IsColumnCheckedKind(dataType: DataType)
  {
    dataType.FloatVector? || dataType.BinaryVector? || dataType.Float16Vector? ||
    dataType.BFloat16Vector? || dataType.SparseFloatVector? || IsNullCheckedKind(dataType)
  }

  /** The Java class a non-null column value of a scalar kind must have. */
  predicate ScalarAccepts(dataType: DataType, v: Obj)
  {
    match dataType
    case Int64 => v.JLong?
    case Int32 => v.JShort? || v.JInteger?
    case Int16 => v.JShort? || v.JInteger?
    case Int8 => v.JShort? || v.JInteger?
    case Bool => v.JBoolean?
    case Float => v.JFloat?
    case Double => v.JDouble?
    case VarChar => v.JString?
    case String => v.JString?
    case JSON => v.JElement?
    case Array => v.JList?
    case _ => false
  }

  predicate AllFloats(items: seq<Obj>)
  {
    forall j :: 0 <= j < |items| ==> items[j].JFloat?
  }

  /** The elements of a float vector taken from a row: each a Float or null. */
  predicate FloatsOrNulls(items: seq<Obj>)
  {
    forall j :: 0 <= j < |items| ==> items[j].JFloat? || items[j] == Null
  }

  /** checkFieldData(fieldSchema, values, verifyElementType): the kind checked is the
      element kind during an element check; an element list longer than the capacity
      is refused before anything else. */
  function CheckFieldData(field: FieldType, values: seq<Obj>, verifyElementType: bool): Outcome
    decreases values, 2, 0
  {
    var dataType := if verifyElementType then field.elementType else field.dataType;
    if verifyElementType && |values| > field.maxCapacity then
      Fail(CapacityExceeded(field.name, |values|, field.maxCapacity))
    else if !IsColumnCheckedKind(dataType) then
      Fail(UnsupportedDataType)
    else
      CheckValues(field, dataType, values, 0, verifyElementType)
  }

  /** The values from index `i` on, checked in order; the first failure wins. */
  function CheckValues(field: FieldType, dataType: DataType, values: seq<Obj>, i: nat, verifyElementType: bool): Outcome
    requires i <= |values|
    decreases values, 1, |values| - i
  {
    if i == |values| then Pass
    else
      var o := CheckValue(field, dataType, values[i], verifyElementType);
      if o.Fail? then o else CheckValues(field, dataType, values, i + 1, verifyElementType)
  }

  /** One iteration of the column check's switch, for one value. */
  function CheckValue(field: FieldType, dataType: DataType, v: Obj, verifyElementType: bool): Outcome
    decreases v, 0, 0
  {
    if dataType.FloatVector? then
      if !v.JList? || !AllFloats(v.items) then Fail(TypeMismatch(field.name))
      else if |v.items| != field.dimension then
        Fail(DimensionMismatch(field.name, |v.items|, field.dimension))
      else Pass
    else if dataType.BinaryVector? || dataType.Float16Vector? || dataType.BFloat16Vector? then
      if !v.JByteBuffer? then Fail(TypeMismatch(field.name))
      else
        var d := CalculateBinVectorDim(dataType, v.limit);
        if d.Err? then Fail(d.error)
        else if d.value != field.dimension then
          Fail(DimensionMismatch(field.name, d.value, field.dimension))
        else Pass
    else if dataType.SparseFloatVector? then
      if !v.JSortedMap? then Fail(TypeMismatch(field.name))
      else if v.entries == [] then Fail(EmptySparseVector(field.name))
      else Pass
    else if IsNullCheckedKind(dataType) then
      var absorbed := CheckNullableFieldData(field, v, verifyElementType);
      if absorbed.Err? then Fail(absorbed.error)
      else if absorbed.value then Pass
      // the JSON branch formats its message with value.getClass(): a null dereference
      else if dataType.JSON? && v == Null then Fail(Runtime(NullPointer))
      else if !ScalarAccepts(dataType, v) then Fail(TypeMismatch(field.name))
      else if (dataType.VarChar? || dataType.String?) && |v.str| > field.maxLength then
        Fail(TypeMismatch(field.name))
      else if dataType.Array? then
        if |v.items| > field.maxCapacity then Fail(TypeMismatch(field.name))
        else CheckFieldData(field, v.items, true)
      else Pass
    else Fail(UnsupportedDataType)
  }

  /** The values from `i` on pass exactly when each of them passes; otherwise the
      outcome is the failure of the first one that does not. */
  lemma {:induction false} CheckValuesPassIff(field: FieldType, dataType: DataType, values: seq<Obj>, i: nat, verifyElementType: bool)
    requires i <= |values|
    ensures CheckValues(field, dataType, values, i, verifyElementType) == Pass <==>
      forall j :: i <= j < |values| ==> CheckValue(field, dataType, values[j], verifyElementType) == Pass
    ensures CheckValues(field, dataType, values, i, verifyElementType).Fail? ==>
      exists j :: i <= j < |values| &&
        CheckValues(field, dataType, values, i, verifyElementType) == CheckValue(field, dataType, values[j], verifyElementType) &&
        forall k :: i <= k < j ==> CheckValue(field, dataType, values[k], verifyElementType) == Pass
    decreases |values| - i
  {
    if i < |values| {
      CheckValuesPassIff(field, dataType, values, i + 1, verifyElementType);
    }
  }

  /** checkFieldData passes exactly when the element list fits the capacity (element
      checks only), the kind is one the switch handles, and every value passes. */
  lemma CheckFieldDataPassIff(field: FieldType, values: seq<Obj>, verifyElementType: bool)
    ensures var dataType := if verifyElementType then field.elementType else field.dataType;
      CheckFieldData(field, values, verifyElementType) == Pass <==>
        (!verifyElementType || |values| <= field.maxCapacity) &&
        IsColumnCheckedKind(dataType) &&
        forall j :: 0 <= j < |values| ==> CheckValue(field, dataType, values[j], verifyElementType) == Pass
  {
    var dataType := if verifyElementType then field.elementType else field.dataType;
    if (!verifyElementType || |values| <= field.maxCapacity) && IsColumnCheckedKind(dataType) {
      CheckValuesPassIff(field, dataType, values, 0, verifyElementType);
    }
  }

  /** The dimension a dense vector value denotes for a kind, if it has the right
      Java class: the element count of a List<Float>, or the byte count of a
      ByteBuffer converted by the kind's bits per dimension. */
  function DenotedDimension(dataType: DataType, v: Obj): Option<int>
  {
    if dataType.FloatVector? then
      if v.JList? && AllFloats(v.items) then Some(|v.items|) else Option.None
    else if v.JByteBuffer? && 8 * v.limit % BitsPerDimension(dataType) == 0 then
      Some(8 * v.limit / BitsPerDimension(dataType))
    else Option.None
  }

  /** A dense vector passes the column check exactly when the dimension it denotes
      equals the schema dimension. */
  lemma DenseVectorPassIff(field: FieldType, v: Obj)
    requires field.dataType in {FloatVector, BinaryVector, Float16Vector, BFloat16Vector}
    ensures CheckValue(field, field.dataType, v, false) == Pass <==>
      DenotedDimension(field.dataType, v) == Some(field.dimension)
  {
  }

  /** Column-based Int8Vector data is refused as unsupported, even an empty column:
      the column check has no Int8Vector case. */
  lemma Int8VectorColumnUnsupported(field: FieldType, values: seq<Obj>)
    requires field.dataType.Int8Vector?
    ensures CheckFieldData(field, values, false) == Fail(UnsupportedDataType)
  {
  }

  /** A null outer value of a scalar, JSON or array field passes exactly when the
      field is nullable or has a default; otherwise the error says null is not
      allowed. */
  lemma NullScalarRule(field: FieldType)
    requires IsNullCheckedKind(field.dataType)
    ensures CheckValue(field, field.dataType, Null, false) == Pass <==>
      field.nullable || field.defaultValue != Null
    ensures CheckValue(field, field.dataType, Null, false) != Pass ==>
      CheckValue(field, field.dataType, Null, false) == Fail(NullNotAllowed(field.name))
  {
  }

  /** During an element check a null is never absorbed: it always fails. */
  lemma NullElementRejected(field: FieldType, dataType: DataType)
    ensures CheckValue(field, dataType, Null, true).Fail?
  {
  }

  /** A non-null string that passes is a String no longer than the field's maximum. */
  lemma StringBound(field: FieldType, dataType: DataType, v: Obj, verifyElementType: bool)
    requires dataType.VarChar? || dataType.String?
    requires v != Null
    requires CheckValue(field, dataType, v, verifyElementType) == Pass
    ensures v.JString? && |v.str| <= field.maxLength
  {
  }

  /** A non-null array that passes is a List within the capacity whose elements each
      pass the element check against the element kind. */
  lemma ArrayBound(field: FieldType, v: Obj, verifyElementType: bool)
    requires v != Null
    requires CheckValue(field, DataType.Array, v, verifyElementType) == Pass
    ensures v.JList? && |v.items| <= field.maxCapacity
    ensures forall j :: 0 <= j < |v.items| ==>
      CheckValue(field, field.elementType, v.items[j], true) == Pass
  {
    CheckFieldDataPassIff(field, v.items, true);
  }

  /** The conversions Gson performs on a row value (JsonUtils.fromJson and the
      JsonElement.getAs* accessors). Option.None stands for the exception the
      conversion throws on malformed input; a float list keeps a JSON null element
      as a null Float (Option.None inside the list). */
  datatype JsonCoercions = JsonCoercions(
    floatList: Json -> Option<seq<Option<Float32>>>,
    byteArray: Json -> Option<seq<Byte>>,
    sparseMap: Json -> Option<SparseEntries>,
    asLong: Json -> Option<int>,
    asInt: Json -> Option<int>,
    asBool: Json -> bool,
    asFloat: Json -> Option<Float32>,
    asDouble: Json -> Option<Float64>,
    list: (Json, DataType) -> Option<seq<Obj>>)

  /** The element kinds convertJsonArray can produce a list of. */
  predicate IsArrayElementKind(dataType: DataType)
  {
    dataType.Int64? || dataType.Int32? || dataType.Int16? || dataType.Int8? || dataType.Bool? ||
    dataType.Float? || dataType.Double? || dataType.VarChar?
  }

  /** convertJsonArray: an array row value as a list of the element kind. */
  function ConvertJsonArray(json: Json, elementType: DataType, fieldName: string, co: JsonCoercions): (r: Result<seq<Obj>>)
    ensures !IsArrayElementKind(elementType) ==> r == Err(UnsupportedElementType(fieldName))
  {
    if !IsArrayElementKind(elementType) then Err(UnsupportedElementType(fieldName))
    else
      var items := co.list(json, elementType);
      if items.Some? then Ok(items.value) else Err(JsonConversionFailed(fieldName))
  }

  /** A List<Float> as Java objects: a null element stays null. */
  function FloatObjects(xs: seq<Option<Float32>>): (r: seq<Obj>)
    ensures |r| == |xs|
    ensures forall j :: 0 <= j < |xs| ==> (r[j] == Null <==> xs[j].None?)
    ensures forall j :: 0 <= j < |xs| && xs[j].Some? ==> r[j] == JFloat(xs[j].value)
  {
    seq(|xs|, j requires 0 <= j < |xs| => if xs[j].Some? then JFloat(xs[j].value) else Null)
  }

  /** A number accessor's result, or the NumberFormatException it throws. */
  function Coerced<T>(x: Option<T>, wrap: T -> Obj): Result<Obj>
  {
    if x.Some? then Ok(wrap(x.value)) else Err(Runtime(NumberFormat))
  }

  /** checkFieldValue: check one row value against its field and convert it to the
      Java object the packer expects. */
  function CheckFieldValue(field: FieldType, value: Json, co: JsonCoercions): Result<Obj>
  {
    var dataType := field.dataType;
    var name := field.name;
    if value.JsonNull? then
      if !field.nullable && field.defaultValue == Null then Err(NullNotAllowed(name))
      else Ok(field.defaultValue)
    else if dataType.FloatVector? then
      if !value.JsonArray? then Err(TypeMismatch(name))
      else
        var vector := co.floatList(value);
        if vector.None? then Err(JsonConversionFailed(name))
        else if |vector.value| != field.dimension then
          Err(DimensionMismatch(name, |vector.value|, field.dimension))
        else Ok(JList(FloatObjects(vector.value)))
    else if dataType.BinaryVector? || dataType.Float16Vector? || dataType.BFloat16Vector? || dataType.Int8Vector? then
      if !value.JsonArray? then Err(TypeMismatch(name))
      else
        var v := co.byteArray(value);
        if v.None? then Err(JsonConversionFailed(name))
        else
          var d := CalculateBinVectorDim(dataType, |v.value|);
          if d.Err? then Err(d.error)
          else if d.value != field.dimension then Err(DimensionMismatch(name, d.value, field.dimension))
          else Ok(JByteBuffer(v.value, |v.value|))
    else if dataType.SparseFloatVector? then
      if !value.JsonObject? then Err(TypeMismatch(name))
      else
        var m := co.sparseMap(value);
        if m.Some? then Ok(JSortedMap(m.value)) else Err(JsonConversionFailed(name))
    else if dataType.Int64? || dataType.Int32? || dataType.Int16? || dataType.Int8? ||
            dataType.Bool? || dataType.Float? || dataType.Double? then
      if !value.IsPrimitive() then Err(TypeMismatch(name))
      else if dataType.Int64? then Coerced(co.asLong(value), (x: int) => JLong(x))
      else if dataType.Bool? then Ok(JBoolean(co.asBool(value)))
      else if dataType.Float? then Coerced(co.asFloat(value), (x: Float32) => JFloat(x))
      else if dataType.Double? then Coerced(co.asDouble(value), (x: Float64) => JDouble(x))
      else Coerced(co.asInt(value), (x: int) => JInteger(x))
    else if dataType.VarChar? || dataType.String? then
      if !value.IsPrimitive() then Err(TypeMismatch(name))
      else if !value.JsonString? then Err(NotStringPrimitive(name))
      else if |value.s| > field.maxLength then Err(TypeMismatch(name))
      else Ok(JString(value.s))
    else if dataType.JSON? then
      Ok(JElement(value))
    else if dataType.Array? then
      if !value.JsonArray? then Err(TypeMismatch(name))
      else
        var arr := ConvertJsonArray(value, field.elementType, name, co);
        if arr.Err? then Err(arr.error)
        else if |arr.value| > field.maxCapacity then Err(TypeMismatch(name))
        else Ok(JList(arr.value))
    else Err(UnsupportedDataType)
  }

  /** A JSON null in a row: a nullable field takes its default (possibly null), a
      non-nullable field with a default takes the default, and a non-nullable field
      without one is refused. */
  lemma JsonNullRule(field: FieldType, co: JsonCoercions)
    ensures field.nullable ==> CheckFieldValue(field, JsonNull, co) == Ok(field.defaultValue)
    ensures !field.nullable && field.defaultValue != Null ==>
      CheckFieldValue(field, JsonNull, co) == Ok(field.defaultValue)
    ensures !field.nullable && field.defaultValue == Null ==>
      CheckFieldValue(field, JsonNull, co) == Err(NullNotAllowed(field.name))
  {
  }

  /** A non-null dense vector row value is accepted only with the schema dimension.
      A byte-packed one comes back as a buffer wrapping its whole array that the
      column check accepts; a float one comes back as a list of the schema length
      that the column check accepts exactly when it holds no null element (Int8Vector
      included in the dimension, although its column form is refused). */
  lemma RowDenseVectorDimension(field: FieldType, value: Json, co: JsonCoercions)
    requires IsDenseVectorDataType(field.dataType)
    requires !value.JsonNull?
    requires CheckFieldValue(field, value, co).Ok?
    ensures var r := CheckFieldValue(field, value, co).value;
      && (field.dataType.FloatVector? ==> r.JList? && |r.items| == field.dimension && FloatsOrNulls(r.items))
      && (!field.dataType.FloatVector? ==> r.JByteBuffer? && WrapsWholeArray(r))
      && (DenotedDimension(field.dataType, r) == Some(field.dimension) <==> !(r.JList? && Null in r.items))
      && (!field.dataType.Int8Vector? ==>
            (CheckValue(field, field.dataType, r, false) == Pass <==> !(r.JList? && Null in r.items)))
  {
    var r := CheckFieldValue(field, value, co).value;
    if field.dataType.FloatVector? {
      var xs := co.floatList(value).value;
      assert r.items == FloatObjects(xs);
      assert AllFloats(r.items) <==> Null !in r.items;
    }
  }

  /** A non-null row value of a scalar, string or array field that is accepted passes
      the column check for the same field: the row path promises no less than the
      column path. Array elements are left to the conversion. */
  lemma RowScalarPassesColumnCheck(field: FieldType, value: Json, co: JsonCoercions)
    requires IsNullCheckedKind(field.dataType) && !field.dataType.Array?
    requires !value.JsonNull?
    requires CheckFieldValue(field, value, co).Ok?
    ensures CheckValue(field, field.dataType, CheckFieldValue(field, value, co).value, false) == Pass
  {
  }

  /** A row value that is not a JSON primitive is refused for every number and
      boolean field, and a primitive that is not a string is refused for a string
      field. */
  lemma RowPrimitiveRule(field: FieldType, value: Json, co: JsonCoercions)
    requires !value.JsonNull?
    ensures (field.dataType.Int64? || field.dataType.Int32? || field.dataType.Int16? ||
             field.dataType.Int8? || field.dataType.Bool? || field.dataType.Float? ||
             field.dataType.Double?) && !value.IsPrimitive() ==>
      CheckFieldValue(field, value, co) == Err(TypeMismatch(field.name))
    ensures (field.dataType.VarChar? || field.dataType.String?) && value.IsPrimitive() && !value.JsonString? ==>
      CheckFieldValue(field, value, co) == Err(NotStringPrimitive(field.name))
  {
  }

  /** An accepted array row value holds at most the field's capacity of elements. */
  lemma RowArrayBound(field: FieldType, value: Json, co: JsonCoercions)
    requires field.dataType.Array? && !value.JsonNull?
    requires CheckFieldValue(field, value, co).Ok?
    ensures CheckFieldValue(field, value, co).value.JList?
    ensures |CheckFieldValue(field, value, co).value.items| <= field.maxCapacity
  {
  }
}
