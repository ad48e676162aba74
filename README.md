# Milvus Java SDK: parameter checking and request assembly

This project is a Dafny model of the request-building core of the Milvus Java SDK
(`io.milvus.param.ParamUtils` and `io.milvus.param.dml.HybridSearchParam`). Before the
SDK talks to a Milvus server, it turns what the caller supplies into the messages the
server expects:

- columns of Java objects, or JSON rows;
- sparse vectors held as sorted maps;
- search, query and hybrid-search parameters.

The model covers each stage and proves what it promises.

- **Validation** (`FieldValidation`). `checkFieldData` checks column-based insert data
  against the collection schema:
  - the vector dimension;
  - the byte count of binary, float16 and bfloat16 vectors, read from each buffer's limit;
  - string length and array capacity;
  - the nullable and default-value rules.

  `checkFieldValue` coerces one JSON row value under the same rules.
- **Sparse vector codec** (`SparseCodec`, `LittleEndian`, `SortedEntries`). The wire
  layout gives each entry 8 bytes, little-endian:
  - a 32-bit unsigned index;
  - a 32-bit float.

  Encoding rejects an index out of range and a value that is not finite. Decoding
  rebuilds the sorted map. It is proved to invert encoding, and it ignores trailing
  bytes. `genSparseFloatArray` packs a column of sparse vectors.
- **Packing** (`FieldPacking`). `genFieldData`, `genVectorField` and `genScalarField`
  pack a validated column into the wire field data:
  - the validity mask of nullable fields;
  - float and byte vectors concatenated into one buffer;
  - arrays row by row.
- **Insert and upsert** (`InsertData`, `InsertBuilder`). `InsertBuilderWrapper` is a
  class with one insert or upsert builder. It fills that builder with:
  - the partition name, unless the schema has a partition key;
  - column data in schema order;
  - or row data collected per field, with the dynamic field made of the leftover keys.
- **Search, query and hybrid search** (`SearchAssembly`). This module covers:
  - `compatibleSearchParams`;
  - the search, ANN-search, hybrid-search and query request builders;
  - the placeholder encoding of target vectors;
  - the guarantee-timestamp table;
  - `AssembleKvPair`.

  Search parameters are a list of key/value pairs in which a later pair overrides an
  earlier one. The source's own comment at ParamUtils.java lines 888-889 says so.
  `EffectiveValue` is the value a key ends up with. The lemmas state each request's
  parameters through it.
- **Hybrid search builder** (`HybridSearch`). `HybridSearchParam.Builder` is a class whose
  setters update its fields; list setters skip duplicates. `build()` checks:
  - the collection name;
  - that a ranker is set;
  - that there is at least one request;
  - that the requests have equal vector counts;
  - that topK is positive;
  - that the group size is positive when a group-by field is set.

  The built parameter copies the builder's state.
- **Value fields and strings** (`ValueFields`, `JavaStrings`). These cover:
  - `objectToValueField` and `valueFieldToObject`, including the Java `short` cast;
  - `CheckNullEmptyString`;
  - the decimal rendering of integers (`String.valueOf`), which is proved injective and
    parsable.

`MilvusTypes` holds the shared types:
- `Obj` models a Java object and `Json` a Gson element;
- `Result` models a `ParamException`;
- `CollectAll` models "map, but stop at the first exception".

The methods that loop or change state are proved against the specification functions.
The lemmas state the properties of those functions.

## Model

| member | source | states |
|---|---|---|
| FieldValidation.CalculateBinVectorDim | sdk-core/src/main/java/io/milvus/param/ParamUtils.java:102-114 | fails exactly for a float16/bfloat16 vector with an odd byte count; otherwise dimension × bits-per-dimension = 8 × byte count (binary: 1 bit, float16/bfloat16: 16 bits, int8: 8 bits) |
| FieldValidation.CheckNullableFieldData | sdk-core/src/main/java/io/milvus/param/ParamUtils.java:116-145 | throws exactly for a null value of a non-nullable field without default outside element checks; returns true (skip further checks) exactly for a null value of a nullable field or one with a default; array elements never skip |
| FieldValidation.CheckValuesPassIff | sdk-core/src/main/java/io/milvus/param/ParamUtils.java:147-314 | a column passes iff every value passes; a failing column reports the first failing value's error |
| FieldValidation.CheckFieldDataPassIff | sdk-core/src/main/java/io/milvus/param/ParamUtils.java:147-314 | a column passes iff element lists are within maxCapacity, the data type is one checkFieldData handles, and every value passes |
| FieldValidation.DenseVectorPassIff | sdk-core/src/main/java/io/milvus/param/ParamUtils.java:157-201 | a float/binary/float16/bfloat16 vector value passes iff the dimension it denotes (list size, or bytes through calculateBinVectorDim) equals the schema dimension |
| FieldValidation.Int8VectorColumnUnsupported | sdk-core/src/main/java/io/milvus/param/ParamUtils.java:311-312 | column data for an Int8Vector field is rejected as an unsupported data type |
| FieldValidation.NullScalarRule | sdk-core/src/main/java/io/milvus/param/ParamUtils.java:116-145 | a null scalar passes iff the field is nullable or has a default, and otherwise fails with the not-nullable error |
| FieldValidation.NullElementRejected | sdk-core/src/main/java/io/milvus/param/ParamUtils.java:116-119 | a null array element never passes |
| FieldValidation.StringBound | sdk-core/src/main/java/io/milvus/param/ParamUtils.java:271-284 | a passing non-null VarChar value is a string no longer than maxLength |
| FieldValidation.ArrayBound | sdk-core/src/main/java/io/milvus/param/ParamUtils.java:295-309 | a passing non-null Array value is a list within maxCapacity whose every element passes the element-type check |
| FieldValidation.ConvertJsonArray | sdk-core/src/main/java/io/milvus/param/ParamUtils.java:453-477 | an element type other than the supported scalar kinds is rejected as unsupported |
| FieldValidation.JsonNullRule | sdk-core/src/main/java/io/milvus/param/ParamUtils.java:320-339 | a JSON null row value becomes the schema default when the field is nullable or has one, and is rejected otherwise |
| FieldValidation.RowDenseVectorDimension | sdk-core/src/main/java/io/milvus/param/ParamUtils.java:345-378 | a dense vector accepted from a row has the schema dimension; a byte-packed one is a buffer wrapping its whole array that passes the column check; a float one is a list of Floats and nulls that passes the column check exactly when it holds no null |
| FieldValidation.RowScalarPassesColumnCheck | sdk-core/src/main/java/io/milvus/param/ParamUtils.java:340-451 | a scalar accepted from a row also passes the column-based check |
| FieldValidation.RowPrimitiveRule | sdk-core/src/main/java/io/milvus/param/ParamUtils.java:340-451 | a non-primitive JSON value for a number/bool field is a type mismatch; a non-string primitive for a VarChar field is rejected |
| FieldValidation.RowArrayBound | sdk-core/src/main/java/io/milvus/param/ParamUtils.java:340-451 | an Array value accepted from a row is a list within maxCapacity |
| LittleEndian.FromLe32OfLe32 | sdk-core/src/main/java/io/milvus/param/ParamUtils.java:1260-1311 | reading back four little-endian bytes gives the 32-bit word written |
| LittleEndian.Le32OfFromLe32 | sdk-core/src/main/java/io/milvus/param/ParamUtils.java:1287-1311 | every four bytes are the little-endian image of the word they read as |
| SortedEntries.PutDenotes | sdk-core/src/main/java/io/milvus/param/ParamUtils.java:1289-1309 | putting into the sorted map updates the denoted map at that key |
| SortedEntries.PutAscending | sdk-core/src/main/java/io/milvus/param/ParamUtils.java:1289-1309 | putting keeps the entries in ascending key order |
| SortedEntries.PutGreatest | sdk-core/src/main/java/io/milvus/param/ParamUtils.java:1289-1309 | putting a key above all others appends it |
| SortedEntries.PutAllAscending | sdk-core/src/main/java/io/milvus/param/ParamUtils.java:1289-1309 | putting ascending entries in order into an empty map yields exactly those entries |
| SortedEntries.PutAllKeepsAscending | sdk-core/src/main/java/io/milvus/param/ParamUtils.java:1289-1309 | any sequence of puts keeps the map sorted |
| SparseCodec.FirstFault | sdk-core/src/main/java/io/milvus/param/ParamUtils.java:1260-1285 | no fault iff every index is in [0, 2^32-1) and every value finite; a fault is one of those two errors |
| SparseCodec.EncodeSparseFloatVector | sdk-core/src/main/java/io/milvus/param/ParamUtils.java:1260-1285 | the loop writing into the byte buffer produces the encoding function's result |
| SparseCodec.PutWord | sdk-core/src/main/java/io/milvus/param/ParamUtils.java:1270-1281 | writes four little-endian bytes at the position and leaves the rest of the buffer unchanged |
| SparseCodec.EncodingLayout | sdk-core/src/main/java/io/milvus/param/ParamUtils.java:1260-1285 | a valid vector encodes to 8 bytes per entry: entry i's index at bytes 8i..8i+4 and its value at 8i+4..8i+8, little-endian |
| SparseCodec.EncodingFailsIff | sdk-core/src/main/java/io/milvus/param/ParamUtils.java:1260-1285 | encoding fails iff some entry has an index out of range or a non-finite value |
| SparseCodec.DecodeSparseFloatVector | sdk-core/src/main/java/io/milvus/param/ParamUtils.java:1287-1311 | the decoding loop produces the decoding function's result |
| SparseCodec.ReadRecordsOfRecords | sdk-core/src/main/java/io/milvus/param/ParamUtils.java:1287-1311 | reading the records of a valid entry list gives the entries back |
| SparseCodec.DecodeEncodeRoundTrip | sdk-core/src/main/java/io/milvus/param/ParamUtils.java:1260-1311 | decode(encode(v)) == v for every sorted valid sparse vector |
| SparseCodec.DecodingAscending | sdk-core/src/main/java/io/milvus/param/ParamUtils.java:1287-1311 | a decoded vector is always in ascending index order |
| SparseCodec.DecodeIgnoresTrailingBytes | sdk-core/src/main/java/io/milvus/param/ParamUtils.java:1287-1311 | fewer than 8 trailing bytes do not change the decoded vector |
| SparseCodec.GenSparseFloatArray | sdk-core/src/main/java/io/milvus/param/ParamUtils.java:1313-1329 | the packing loop produces the specification function's result |
| SparseCodec.SparseArrayContents | sdk-core/src/main/java/io/milvus/param/ParamUtils.java:1313-1329 | a packed sparse column holds, in order, each row's encoding |
| SparseCodec.SparseArrayDim | sdk-core/src/main/java/io/milvus/param/ParamUtils.java:1313-1329 | the packed dimension is the largest entry count among the rows (0 for no rows) |
| FieldPacking.Gather | sdk-core/src/main/java/io/milvus/param/ParamUtils.java:1331-1399 | a typed stream collect succeeds iff every object is non-null and of the type, and keeps each value in place |
| FieldPacking.GenScalarField | sdk-core/src/main/java/io/milvus/param/ParamUtils.java:1331-1399 | the per-type packing, with the row loop for arrays, produces the specification function's result |
| FieldPacking.GenFloatVector | sdk-core/src/main/java/io/milvus/param/ParamUtils.java:1206-1220 | the float-vector loop produces the specification function's result |
| FieldPacking.PutBuffer | sdk-core/src/main/java/io/milvus/param/ParamUtils.java:1231-1238 | one buffer put writes the buffer's bytes at the position, fails when they do not fit, and keeps the rest |
| FieldPacking.PutRest | sdk-core/src/main/java/io/milvus/param/ParamUtils.java:1230-1239 | the remaining puts leave the buffer as the prefix, the concatenated bytes, then zeros |
| FieldPacking.GenByteVectors | sdk-core/src/main/java/io/milvus/param/ParamUtils.java:1221-1251 | the byte-vector loop produces the specification function's result |
| FieldPacking.GenVectorField | sdk-core/src/main/java/io/milvus/param/ParamUtils.java:1205-1258 | each vector kind is packed by the matching specification function |
| FieldPacking.MaskRoundTrip | sdk-core/src/main/java/io/milvus/param/ParamUtils.java:1185-1194 | expanding the non-null values along the validity mask gives back the original column |
| FieldPacking.SplitNulls | sdk-core/src/main/java/io/milvus/param/ParamUtils.java:1185-1194 | the loop produces the validity mask (true exactly at non-null positions) and the non-null values |
| FieldPacking.GenFieldData | sdk-core/src/main/java/io/milvus/param/ParamUtils.java:1173-1202 | packing a column produces the specification function's result |
| FieldPacking.FieldDataMask | sdk-core/src/main/java/io/milvus/param/ParamUtils.java:1181-1201 | nullable or defaulted scalar fields carry a mask that is true exactly at non-null rows and pack only the non-null values; vector fields carry no mask |
| FieldPacking.ValidatedFloatColumnPacks | sdk-core/src/main/java/io/milvus/param/ParamUtils.java:1206-1220 | a non-empty float-vector column that passed validation packs with the schema dimension and rows × dimension floats |
| FieldPacking.FloatRowsWithNullFail | sdk-core/src/main/java/io/milvus/param/ParamUtils.java:1206-1220 | a float-vector column of row lists, one of which holds a null element, fails with a NullPointerException when the floats are copied |
| FieldPacking.ValidatedByteColumnPacks | sdk-core/src/main/java/io/milvus/param/ParamUtils.java:1221-1251 | a non-empty binary/float16/bfloat16 column that passed validation, of buffers each wrapping its whole array, packs with the schema dimension and exactly one vector's bytes per row |
| FieldPacking.SlicedBufferOverflows | sdk-core/src/main/java/io/milvus/param/ParamUtils.java:1230-1238 | a buffer whose limit is shorter than its array passes the column check (which reads the limit) and then overflows the packing buffer (which is sized by the limit but receives the array) |
| FieldPacking.LongArrayOverflows | sdk-core/src/main/java/io/milvus/param/ParamUtils.java:1230-1238 | a first buffer whose array exceeds its limit times the vector count overflows at the first put, before the dim is computed |
| FieldPacking.EmptyDenseColumnFails | sdk-core/src/main/java/io/milvus/param/ParamUtils.java:1218-1241 | an empty dense-vector column fails: division by zero for float vectors, a null buffer for byte vectors |
| FieldPacking.ValidatedScalarColumnPacks | sdk-core/src/main/java/io/milvus/param/ParamUtils.java:1331-1399 | a scalar or array column that passed validation always packs |
| InsertData.FirstNamed | sdk-core/src/main/java/io/milvus/param/ParamUtils.java:602-616 | finds the first input field with the name, or reports that none has it |
| InsertData.ColumnsDataOkIff | sdk-core/src/main/java/io/milvus/param/ParamUtils.java:595-637 | column data succeeds iff every schema field succeeds; the result holds one field data per non-auto-id field, in schema order |
| InsertData.ColumnGuards | sdk-core/src/main/java/io/milvus/param/ParamUtils.java:600-620 | a missing non-auto-id field, or a supplied auto-id field, fails the insert |
| InsertData.RowsValuesOkIff | sdk-core/src/main/java/io/milvus/param/ParamUtils.java:639-700 | row data succeeds iff every field of every row coerces, and then the table holds each coerced value |
| InsertData.RowGuards | sdk-core/src/main/java/io/milvus/param/ParamUtils.java:656-675 | a row missing a required field without default, or supplying an auto-id field, fails the insert |
| InsertData.ColumnContents | sdk-core/src/main/java/io/milvus/param/ParamUtils.java:639-700 | each non-auto-id column holds, row by row, the coerced value of that field; auto-id columns are empty |
| InsertData.DynamicRowMembers | sdk-core/src/main/java/io/milvus/param/ParamUtils.java:681-690 | a row's dynamic-field object holds exactly the row's keys that are not schema fields |
| InsertData.EmitColumnsOkIff | sdk-core/src/main/java/io/milvus/param/ParamUtils.java:693-699 | emitting the collected columns succeeds iff each packs, and yields their packed field data in emission order |
| InsertData.EmitOrderIndependent | sdk-core/src/main/java/io/milvus/param/ParamUtils.java:693-699 | the set of emitted field data does not depend on the hash map's iteration order |
| InsertData.PartitionRule | sdk-core/src/main/java/io/milvus/param/ParamUtils.java:564-581 | a non-empty partition name is rejected exactly when the schema has a partition key; otherwise it is set unless a partition key exists |
| InsertBuilder.FindField | sdk-core/src/main/java/io/milvus/param/ParamUtils.java:602-616 | the search loop returns the first input field with the name |
| InsertBuilder.HasPartitionKey | sdk-core/src/main/java/io/milvus/param/ParamUtils.java:567-573 | the loop reports whether some schema field is a partition key |
| InsertBuilder.CollectRows | sdk-core/src/main/java/io/milvus/param/ParamUtils.java:650-691 | the row loop fails exactly when the row specification fails, and otherwise yields the per-field columns and the dynamic-field rows |
| InsertBuilder.InsertBuilderWrapper.AddFieldsData | sdk-core/src/main/java/io/milvus/param/ParamUtils.java:548-554 | appends the field data to whichever builder is present |
| InsertBuilder.InsertBuilderWrapper.SetPartitionName | sdk-core/src/main/java/io/milvus/param/ParamUtils.java:556-562 | sets the partition name on whichever builder is present |
| InsertBuilder.InsertBuilderWrapper.CheckAndSetColumnData | sdk-core/src/main/java/io/milvus/param/ParamUtils.java:595-637 | fails exactly when the column specification fails, with its error; on success adds that field data to the builder |
| InsertBuilder.InsertBuilderWrapper.CheckAndSetRowData | sdk-core/src/main/java/io/milvus/param/ParamUtils.java:639-700 | fails exactly when the row specification fails, with its error; on success adds that field data to the builder |
| InsertBuilder.InsertBuilderWrapper.FillFieldsData | sdk-core/src/main/java/io/milvus/param/ParamUtils.java:564-593 | fails exactly when the fill specification fails; on success sets the partition (if any) and adds the field data |
| InsertBuilder.InsertBuilderWrapper.BuildInsertRequest | sdk-core/src/main/java/io/milvus/param/ParamUtils.java:702-707 | returns the insert builder, and fails when the wrapper was made for upsert |
| InsertBuilder.InsertBuilderWrapper.BuildUpsertRequest | sdk-core/src/main/java/io/milvus/param/ParamUtils.java:709-715 | returns the upsert builder, and fails when the wrapper was made for insert |
| InsertBuilder.Insert | sdk-core/src/main/java/io/milvus/param/ParamUtils.java:509-523 | constructing for insert fails exactly when filling fails; otherwise the insert builder holds the filled request |
| InsertBuilder.Upsert | sdk-core/src/main/java/io/milvus/param/ParamUtils.java:525-546 | upsert into a collection with an auto-id primary key fails; otherwise as for insert, into the upsert builder |
| ValueFields.ToShort | sdk-core/src/main/java/io/milvus/param/ParamUtils.java:1538-1540 | the (short) cast gives the value in [-2^15, 2^15) congruent to the input modulo 2^16 |
| ValueFields.ObjectToValueFieldDefined | sdk-core/src/main/java/io/milvus/param/ParamUtils.java:1469-1530 | a value field is produced exactly when the object's class matches the data type |
| ValueFields.ObjectRoundTrip | sdk-core/src/main/java/io/milvus/param/ParamUtils.java:1469-1560 | converting an object to a value field and back keeps the integer value (as short/int/long by type), floats, bools and strings; a float in a double field is widened; JSON goes through its text |
| ValueFields.ValueFieldRoundTrip | sdk-core/src/main/java/io/milvus/param/ParamUtils.java:1469-1560 | converting a value field to an object and back is the identity, except that int8/int16 values are truncated to short, which is the identity iff in short range |
| ValueFields.ValueFieldToObjectNull | sdk-core/src/main/java/io/milvus/param/ParamUtils.java:1532-1560 | data types without a value field give null |
| JavaStrings.CheckNullEmptyStringPassIff | sdk-core/src/main/java/io/milvus/param/ParamUtils.java:486-490 | passes iff the string is non-null and has a non-whitespace character |
| JavaStrings.IntToStringRoundTrip | sdk-core/src/main/java/io/milvus/param/ParamUtils.java:896-909 | the decimal text of an integer parses back to it, starts with '-' iff negative, and has no leading zero |
| JavaStrings.IntToStringInjective | sdk-core/src/main/java/io/milvus/param/ParamUtils.java:896-909 | distinct integers have distinct decimal texts |
| SearchAssembly.GuaranteeTimestamp | sdk-core/src/main/java/io/milvus/param/ParamUtils.java:1133-1152 | Strong gives 0, Bounded 2, Eventually 1; Session and unset use the cached timestamp (1 when none) |
| SearchAssembly.ConsistencyOf | sdk-core/src/main/java/io/milvus/param/ParamUtils.java:954-958 | the request uses the default consistency iff none was set, and otherwise carries the level |
| SearchAssembly.FloatBytesLayout | sdk-core/src/main/java/io/milvus/param/ParamUtils.java:722-731 | float i of a target vector occupies bytes 4i..4i+4, little-endian, and reads back as the float |
| SearchAssembly.PutFloats | sdk-core/src/main/java/io/milvus/param/ParamUtils.java:722-731 | the byte-buffer loop fails on the first non-float and otherwise writes the floats' little-endian bytes |
| SearchAssembly.ConvertPlaceholder | sdk-core/src/main/java/io/milvus/param/ParamUtils.java:718-771 | the placeholder loop produces the specification function's result |
| SearchAssembly.PlaceholderContents | sdk-core/src/main/java/io/milvus/param/ParamUtils.java:718-771 | the placeholder succeeds iff every target vector converts; it holds each conversion in order; its type is the requested one, else the last vector's kind |
| SearchAssembly.TargetEncodings | sdk-core/src/main/java/io/milvus/param/ParamUtils.java:718-771 | a float-list target reads back float by float; a sparse target decodes back to its entries |
| SearchAssembly.EffectiveValueAppend | sdk-core/src/main/java/io/milvus/param/ParamUtils.java:888-889 | in concatenated parameter lists the later list's value for a key wins |
| SearchAssembly.CompatibleSearchParams | sdk-core/src/main/java/io/milvus/param/ParamUtils.java:829-848 | the loop produces the flattened pairs plus the "params" pair |
| SearchAssembly.CompatibleParamsRead | sdk-core/src/main/java/io/milvus/param/ParamUtils.java:829-848 | every caller key reads as its value's text, "params" reads as the whole object's JSON, and no other key is set |
| SearchAssembly.CallerSearchParamsRead | sdk-core/src/main/java/io/milvus/param/ParamUtils.java:871-885 | parsed caller parameters fail with a NullPointerException exactly when the offset is null; otherwise they keep each key's value, set "params" to the object's JSON, and set "offset" |
| SearchAssembly.OffsetRead | sdk-core/src/main/java/io/milvus/param/ParamUtils.java:877-882 | the offset sent is "0" when the caller gave none, the caller's value shown as text otherwise, and a null offset refuses the search |
| SearchAssembly.GroupParamsRead | sdk-core/src/main/java/io/milvus/param/ParamUtils.java:918-939 | group-by keys are emitted only with a non-empty group-by field; group size and strictness only when set |
| SearchAssembly.BaseParamsRead | sdk-core/src/main/java/io/milvus/param/ParamUtils.java:888-908 | the fixed pairs set anns field, topk, round decimal and ignore-growing, and nothing else |
| SearchAssembly.FixedParamsRead | sdk-core/src/main/java/io/milvus/param/ParamUtils.java:888-939 | fixed parameters: anns field, topk, round decimal, ignore growing; the metric type only when not "None"; the group-by field, size and strictness only with a group-by field, the last two only when set; no other key |
| SearchAssembly.AssembleSearchParams | sdk-core/src/main/java/io/milvus/param/ParamUtils.java:871-939 | fails exactly on malformed caller parameters or a null offset; otherwise yields the caller pairs followed by the fixed pairs |
| SearchAssembly.SearchParamsRead | sdk-core/src/main/java/io/milvus/param/ParamUtils.java:851-962 | in a built search request the fixed keys override the caller's; a "None" metric keeps the caller's; the grouping options override the caller's only with a group-by field (size and strictness only when set); every other key keeps the caller's value |
| SearchAssembly.ConvertSearchParam | sdk-core/src/main/java/io/milvus/param/ParamUtils.java:851-962 | the search request built step by step equals the specification function's request |
| SearchAssembly.ConvertAnnSearchParam | sdk-core/src/main/java/io/milvus/param/ParamUtils.java:965-1011 | the ANN request built step by step equals the specification function's request |
| SearchAssembly.AnnParamsRead | sdk-core/src/main/java/io/milvus/param/ParamUtils.java:965-997 | an ANN request sets anns field and topk, and the metric type unless "None" (then the caller's); "params" is the caller's map as JSON (an empty object when none was given); every other key keeps the caller's value |
| SearchAssembly.RankerProperties | sdk-core/src/main/java/io/milvus/param/ParamUtils.java:1055-1060 | the ranker properties gain limit, round decimal and offset from the hybrid parameter; other keys are kept |
| SearchAssembly.AssembleKvPair | sdk-core/src/main/java/io/milvus/param/ParamUtils.java:1562-1575 | the loop emits one pair per map key in iteration order |
| SearchAssembly.KvPairsDenote | sdk-core/src/main/java/io/milvus/param/ParamUtils.java:1562-1575 | the pairs have one entry per key and read back as the map |
| SearchAssembly.ConvertHybridSearchParam | sdk-core/src/main/java/io/milvus/param/ParamUtils.java:1014-1079 | the hybrid request built step by step equals the specification function's request |
| SearchAssembly.HybridRequestRead | sdk-core/src/main/java/io/milvus/param/ParamUtils.java:1014-1079 | a hybrid request succeeds iff every sub-search converts, holds them in order, and its rank parameters are the grouping options followed by the ranker properties |
| SearchAssembly.RankParamsRead | sdk-core/src/main/java/io/milvus/param/ParamUtils.java:1032-1063 | the ranker reads limit, round decimal and offset from the parameter object, every other ranker property unchanged, each grouping option only where the ranker has no property of that name, and nothing else |
| SearchAssembly.ConvertQueryParam | sdk-core/src/main/java/io/milvus/param/ParamUtils.java:1082-1131 | the query request built step by step equals the specification function's request |
| SearchAssembly.QueryParamsRead | sdk-core/src/main/java/io/milvus/param/ParamUtils.java:1108-1128 | offset and limit are emitted only when positive, ignore-growing always, nothing else |
| HybridSearch.AddAbsentProperties | sdk-core/src/main/java/io/milvus/param/dml/HybridSearchParam.java:126-142 | adding names keeps the list free of duplicates, keeps the old prefix, and holds exactly the old and the new names |
| HybridSearch.AddAbsentIdempotent | sdk-core/src/main/java/io/milvus/param/dml/HybridSearchParam.java:126-142 | adding the same names twice changes nothing the second time |
| HybridSearch.ReferenceCountOkIff | sdk-core/src/main/java/io/milvus/param/dml/HybridSearchParam.java:291-298 | the vector-count check passes iff every count after the first non-zero one equals it |
| HybridSearch.BuildRules | sdk-core/src/main/java/io/milvus/param/dml/HybridSearchParam.java:280-309 | build succeeds iff all checks hold (collection name, ranker, requests, equal vector counts, topK > 0, group size > 0 with a group-by field), and the result copies every builder field |
| HybridSearch.GroupSizeNeedsGroupBy | sdk-core/src/main/java/io/milvus/param/dml/HybridSearchParam.java:304-306 | without a group-by field, any group size leaves the outcome of build unchanged |
| HybridSearch.DefaultStateFails | sdk-core/src/main/java/io/milvus/param/dml/HybridSearchParam.java:280-281 | a fresh builder cannot build: the collection name is missing |
| HybridSearch.Builder.constructor | sdk-core/src/main/java/io/milvus/param/dml/HybridSearchParam.java:80-96 | a new builder has the defaults: empty lists, no ranker, offset 0, round decimal -1, the rest unset |
| HybridSearch.Builder.AddPartitionName | sdk-core/src/main/java/io/milvus/param/dml/HybridSearchParam.java:137-142 | adds the partition name unless present; nothing else changes |
| HybridSearch.Builder.WithPartitionNames | sdk-core/src/main/java/io/milvus/param/dml/HybridSearchParam.java:126-129 | adds each name unless present; nothing else changes |
| HybridSearch.Builder.AddSearchRequest | sdk-core/src/main/java/io/milvus/param/dml/HybridSearchParam.java:150-153 | appends the request; nothing else changes |
| HybridSearch.Builder.WithTopK | sdk-core/src/main/java/io/milvus/param/dml/HybridSearchParam.java:185-188 | sets topK to the widened int; nothing else changes |
| HybridSearch.Builder.WithLimit | sdk-core/src/main/java/io/milvus/param/dml/HybridSearchParam.java:190-193 | sets topK to the limit; nothing else changes |
| HybridSearch.Builder.AddOutField | sdk-core/src/main/java/io/milvus/param/dml/HybridSearchParam.java:212-217 | adds the output field unless present; nothing else changes |
| HybridSearch.Builder.WithOutFields | sdk-core/src/main/java/io/milvus/param/dml/HybridSearchParam.java:201-204 | adds each output field unless present; nothing else changes |
| HybridSearch.Builder.WithGroupSize | sdk-core/src/main/java/io/milvus/param/dml/HybridSearchParam.java:258-261 | sets the group size; nothing else changes |
| HybridSearch.Builder.Build | sdk-core/src/main/java/io/milvus/param/dml/HybridSearchParam.java:57-71 | returns what the build rules give for the builder's current state, copying its fields |

## Left out

- Protocol buffer builders, `ByteString` and the placeholder's serialisation are not modelled. A request is a Dafny datatype holding the fields the SDK sets. The placeholder tag is not modelled, and neither is the DSL type.
- Gson is not modelled: parsing, `toString`, the `getAsX` coercions and `JsonUtils.toJson` are parameters (`ParamCodecs`, `JsonCoercions`). `toJson` is taken to be total.
- `HashMap` iteration order is an input. Two orders are given this way:
  - the order in which the row path emits its collected columns (`IsFieldOrder`);
  - the order of the ranker's properties (`IsKeyOrder`).

  Contracts that must not depend on it compare sets (`EmitOrderIndependent`).
- The cache of last write timestamps (`GTsDict`) is passed as a map keyed by database and collection. How the real cache combines the two names is not modelled.
- `Constant.java`, `SearchParam.java`, `QueryParam.java`, `AnnSearchParam.java`, `BaseRanker.java` and `DescCollResponseWrapper` are not part of this model. Their getters become datatype fields, and the key strings follow the documented parameter names.
- The ranker's property map is taken as a fresh map. The source writes limit, round decimal and offset into the ranker's own map.
- Aliasing between the builder's lists and the built `HybridSearchParam` is not modelled. The built parameter holds copies of the values.
- IEEE-754 float layout is not modelled: a float is its 32-bit pattern, and widening a float to a double is a parameter. `IsFinite` is the exponent test on that pattern.
- Bytes are integers 0..255. String length is sequence length, not UTF-16 code units.
- Java `null` is `Option.None` or `Obj.Null`. A null list argument is not modelled.
- `int` overflow of `buf.limit() * objects.size()` is not modelled.
- A `ByteBuffer` is its backing array and its limit. Its position, its array offset, read-only buffers and direct buffers (whose `array()` throws) are not modelled.
- FieldPacking.ValidatedByteColumnPacks: promises packing only for buffers that wrap their whole array, as `ByteBuffer.wrap` makes them. The column check reads each buffer's limit, but packing puts the whole backing array; `SlicedBufferOverflows` and `LongArrayOverflows` show the failure otherwise.
- FieldValidation.RowDenseVectorDimension: promises the column check for a float-vector row only when the row has no null element. A JSON null inside the array becomes a null `Float`; the row check lets it through, and packing then fails (`FloatRowsWithNullFail`).
- Exception message texts are not modelled; errors are `ParamError` values. The type-error message tables are not modelled either.
- `ConvertField` and `CheckNullString` are not modelled. Neither belongs to the insert or search path covered here.
- `InsertBuilder.InsertBuilderWrapper.CheckAndSetColumnData`, `CheckAndSetRowData` and `FillFieldsData` do not describe the builder's contents after a failure. The source may have added some field data before it throws, and the wrapper is never used after that.
- `SearchAssembly.CompatibleParamsRead` and `SearchAssembly.CallerSearchParamsRead` assume that the parsed JSON object has unique keys (`UniqueKeys`). Gson produces such objects.
- `SearchAssembly.EffectiveValue` assumes that the server reads a repeated key as its last occurrence. The source relies on this.
- `SearchAssembly.CallerSearchParams` folds every exception from parsing the caller's parameter text into one `MalformedSearchParams` error.
- Consistency levels are an enumeration. Their numeric wire codes are not modelled.
- `HybridSearch.Builder` setters whose only effect is a field assignment (database name, collection name, ranker, consistency level, offset, round decimal, group-by field, strict group size) are modelled with their exact new state. They have no row above because their contracts only assign.
