/** Default values between Java objects and the ValueField wire message
    (objectToValueField, valueFieldToObject). */
module ValueFields {
  import opened MilvusTypes

  /** A ValueField message: which member of its `data` oneof is set. */
  datatype ValueField =
    | DataNotSet
    | BoolValue(b: bool)
    | IntValue(i: int)
    | LongValue(l: int)
    | FloatValue(f: Float32)
    | DoubleValue(d: Float64)
    | StringValue(s: string)

  /** The oneof getters: a member that is not the one set reads as its default. */
  function IntData(v: ValueField): int { if v.IntValue? then v.i else 0 }
  function LongData(v: ValueField): int { if v.LongValue? then v.l else 0 }
  function FloatData(v: ValueField): Float32 { if v.FloatValue? then v.f else 0 }
  function DoubleData(v: ValueField): Float64 { if v.DoubleValue? then v.d else 0 }
  function BoolData(v: ValueField): bool { if v.BoolValue? then v.b else false }
  function StringData(v: ValueField): string { if v.StringValue? then v.s else "" }

  /** The Java (short) cast: keep the low 16 bits, read as two's complement. */
  function ToShort(x: int): (r: int)
    ensures -0x8000 <= r < 0x8000
    ensures (r - x) % 0x1_0000 == 0
  {
    (x + 0x8000) % 0x1_0000 - 0x8000
  }

  predicate InShortRange(x: int) { -0x8000 <= x < 0x8000 }

  /** objectToValueField. `widen` is Float.doubleValue on bit patterns and `show`
      is JsonObject.toString; a result of None is Java's null. */
  function ObjectToValueField(o: Obj, dataType: DataType, widen: Float32 -> Float64, show: Json -> string): (r: Option<ValueField>)
    ensures o == Null ==> r.None?
    ensures r.Some? ==> !r.value.DataNotSet?
  {
    if o == Null then Option.None
    else match dataType
      case Int8 => if o.JShort? then Some(IntValue(o.s)) else Option.None
      case Int16 => if o.JShort? then Some(IntValue(o.s)) else Option.None
      case Int32 =>
        if o.JShort? then Some(IntValue(o.s))
        else if o.JInteger? then Some(IntValue(o.i))
        else Option.None
      case Int64 =>
        if o.JShort? then Some(LongValue(o.s))
        else if o.JInteger? then Some(LongValue(o.i))
        else if o.JLong? then Some(LongValue(o.l))
        else Option.None
      case Float => if o.JFloat? then Some(FloatValue(o.f)) else Option.None
      case Double =>
        if o.JFloat? then Some(DoubleValue(widen(o.f)))
        else if o.JDouble? then Some(DoubleValue(o.d))
        else Option.None
      case Bool => if o.JBoolean? then Some(BoolValue(o.b)) else Option.None
      case VarChar => if o.JString? then Some(StringValue(o.str)) else Option.None
      case String => if o.JString? then Some(StringValue(o.str)) else Option.None
      case JSON =>
        if o.JElement? && o.json.JsonObject? then Some(StringValue(show(o.json))) else Option.None
      case _ => Option.None
  }

  /** valueFieldToObject. `parse` is the JSON parse of a string into a JsonObject
      (or null); a missing message is None. */
  function ValueFieldToObject(value: Option<ValueField>, dataType: DataType, parse: string -> Obj): (r: Obj)
    ensures (value.None? || value.value.DataNotSet?) ==> r == Null
  {
    if value.None? || value.value.DataNotSet? then Null
    else
      var v := value.value;
      match dataType
      case Int8 => JShort(ToShort(IntData(v)))
      case Int16 => JShort(ToShort(IntData(v)))
      case Int32 => JInteger(IntData(v))
      case Int64 => JLong(LongData(v))
      case Float => JFloat(FloatData(v))
      case Double => JDouble(DoubleData(v))
      case Bool => JBoolean(BoolData(v))
      case VarChar => JString(StringData(v))
      case String => JString(StringData(v))
      case JSON => parse(StringData(v))
      case _ => Null
  }

  /** The kinds a default value can have. */
  predicate HasValueField(dataType: DataType)
  {
    dataType in {Int8, Int16, Int32, Int64, Float, Double, Bool, VarChar, String, JSON}
  }

  /** The Java classes objectToValueField accepts for a kind. */
  predicate Accepts(dataType: DataType, o: Obj)
  {
    match dataType
    case Int8 => o.JShort?
    case Int16 => o.JShort?
    case Int32 => o.JShort? || o.JInteger?
    case Int64 => o.JShort? || o.JInteger? || o.JLong?
    case Float => o.JFloat?
    case Double => o.JFloat? || o.JDouble?
    case Bool => o.JBoolean?
    case VarChar => o.JString?
    case String => o.JString?
    case JSON => o.JElement? && o.json.JsonObject?
    case _ => false
  }

  /** An object becomes a ValueField exactly when its class is one the kind accepts;
      otherwise (null included) the result is null. */
  lemma ObjectToValueFieldDefined(o: Obj, dataType: DataType, widen: Float32 -> Float64, show: Json -> string)
    ensures ObjectToValueField(o, dataType, widen, show).Some? <==> Accepts(dataType, o)
  {
  }

  /** The integer a boxed Java integer holds. */
  function IntegerOf(o: Obj): Option<int>
  {
    if o.JShort? then Some(o.s) else if o.JInteger? then Some(o.i) else if o.JLong? then Some(o.l) else Option.None
  }

  /** Object to ValueField and back: an integer comes back with the same value, as
      the kind's own boxed class (Short for Int8/Int16, Integer for Int32, Long for
      Int64); floats, doubles, booleans and strings come back unchanged, a Float
      given for a Double column comes back widened, and a JSON object comes back as
      the parse of its text. */
  lemma ObjectRoundTrip(o: Obj, dataType: DataType, widen: Float32 -> Float64, show: Json -> string, parse: string -> Obj)
    requires Accepts(dataType, o)
    requires o.JShort? ==> InShortRange(o.s)
    ensures var back := ValueFieldToObject(ObjectToValueField(o, dataType, widen, show), dataType, parse);
      && (dataType in {Int8, Int16, Int32, Int64} ==>
            IntegerOf(back) == IntegerOf(o) &&
            (dataType in {Int8, Int16} ==> back.JShort?) &&
            (dataType.Int32? ==> back.JInteger?) &&
            (dataType.Int64? ==> back.JLong?))
      && (dataType in {Float, Bool, VarChar, String} ==> back == o)
      && (dataType.Double? ==> back == if o.JFloat? then JDouble(widen(o.f)) else o)
      && (dataType.JSON? ==> back == parse(show(o.json)))
  {
  }

  /** ValueField to object and back, for a message whose set member is the one the
      kind reads: unchanged, except that an Int8/Int16 value outside the short range
      comes back truncated to 16 bits. */
  lemma ValueFieldRoundTrip(v: ValueField, dataType: DataType, widen: Float32 -> Float64, show: Json -> string, parse: string -> Obj)
    requires dataType in {Int8, Int16, Int32, Int64, Float, Double, Bool, VarChar, String}
    requires match dataType
      case Int8 => v.IntValue?
      case Int16 => v.IntValue?
      case Int32 => v.IntValue?
      case Int64 => v.LongValue?
      case Float => v.FloatValue?
      case Double => v.DoubleValue?
      case Bool => v.BoolValue?
      case _ => v.StringValue?
    ensures var again := ObjectToValueField(ValueFieldToObject(Some(v), dataType, parse), dataType, widen, show);
      && (dataType in {Int8, Int16} ==> again == Some(IntValue(ToShort(v.i))))
      && (dataType in {Int8, Int16} ==> (again == Some(v) <==> InShortRange(v.i)))
      && (!(dataType in {Int8, Int16}) ==> again == Some(v))
  {
    if dataType in {Int8, Int16} {
      ShortOfShort(v.i);
    }
  }

  /** (short) x == x exactly for the values a short can hold. */
  lemma ShortOfShort(x: int)
    ensures ToShort(x) == x <==> InShortRange(x)
  {
    if InShortRange(x) {
      assert (x + 0x8000) % 0x1_0000 == x + 0x8000;
    }
  }

  /** A missing message, one with nothing set, and a kind without a default value
      all read back as null. */
  lemma ValueFieldToObjectNull(value: Option<ValueField>, dataType: DataType, parse: string -> Obj)
    ensures !HasValueField(dataType) ==> ValueFieldToObject(value, dataType, parse) == Null
  {
  }
}
