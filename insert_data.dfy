/** What an insert or upsert request carries, as functions of the request parameters
    and the collection description: the partition name, the per-field FieldData of a
    column-based insert, and those of a row-based insert. */
module InsertData {
  import opened MilvusTypes
  import opened FieldValidation
  import opened FieldPacking

  /** One column of a column-based insert (InsertParam.Field). */
  datatype InsertField = InsertField(name: string, values: seq<Obj>)

  /** One row of a row-based insert: the members of a JsonObject, in insertion
      order. */
  type Row = seq<(string, Json)>

  /** The parts of an InsertParam (or UpsertParam) the request is built from. */
  datatype InsertRequestParam = InsertRequestParam(
    collectionName: string,
    databaseName: Option<string>,
    partitionName: Option<string>,
    rowCount: int,
    fields: seq<InsertField>,
    rows: seq<Row>)

  /** What the collection description supplies: the schema fields in schema order,
      whether dynamic fields are enabled, and the primary key field. */
  datatype CollectionDesc = CollectionDesc(
    fields: seq<FieldType>,
    enableDynamicField: bool,
    primaryField: FieldType)

  /** An InsertRequest or UpsertRequest under construction. */
  datatype RequestBuilder = RequestBuilder(
    collectionName: string,
    dbName: string,
    numRows: int,
    partitionName: string,
    fieldsData: seq<FieldData>)

  const DynamicFieldName: string := "$meta"

  /** The schema of the dynamic field: a JSON field marked dynamic. Length, capacity
      and dimension play no part in the JSON checks. */
  const DynamicType: FieldType :=
    FieldType(DynamicFieldName, JSON, DataType.None, 0, 0, 0, false, Null, false, false, false, true)

  function OptSeq<T>(o: Option<T>): (r: seq<T>)
    ensures |r| == if o.Some? then 1 else 0
  {
    if o.Some? then [o.value] else []
  }

  /** A fresh builder: collection name, row count, and the database name when one
      is given and non-empty. */
  function NewRequest(param: InsertRequestParam): RequestBuilder
  {
    var db := param.databaseName;
    RequestBuilder(param.collectionName, if db.Some? && db.value != "" then db.value else "", param.rowCount, "", [])
  }

  // ---------------------------------------------------------------- partition name

  predicate PartitionKeyEnabled(schema: seq<FieldType>)
  {
    exists j :: 0 <= j < |schema| && schema[j].partitionKey
  }

  /** The partition name to set (None: leave it unset), or the refusal of a
      non-empty name when a partition key field exists. */
  function PartitionToSet(param: InsertRequestParam, schema: seq<FieldType>): Result<Option<string>>
  {
    if PartitionKeyEnabled(schema) then
      if param.partitionName.Some? && param.partitionName.value != "" then
        Err(PartitionNameConflict(param.collectionName))
      else Ok(Option.None)
    else Ok(param.partitionName)
  }

  // ---------------------------------------------------------------- column-based insert

  /** The index of the first input column with the given name. */
  function FirstNamed(inputs: seq<InsertField>, name: string): (r: Option<nat>)
    ensures r.Some? ==> r.value < |inputs| && inputs[r.value].name == name
    ensures r.Some? ==> forall j :: 0 <= j < r.value ==> inputs[j].name != name
    ensures r.None? ==> forall j :: 0 <= j < |inputs| ==> inputs[j].name != name
  {
    if inputs == [] then Option.None
    else if inputs[0].name == name then Some(0)
    else
      var t := FirstNamed(inputs[1..], name);
      if t.Some? then Some(t.value + 1) else Option.None
  }

  /** One schema field of a column-based insert: an auto-id field must be absent
      (and then adds nothing), any other must be present, pass the column check and
      pack. */
  function ColumnFieldData(field: FieldType, inputs: seq<InsertField>): Result<Option<FieldData>>
  {
    var idx := FirstNamed(inputs, field.name);
    if idx.None? then
      if field.autoId then Ok(Option.None) else Err(FieldNotProvided(field.name))
    else if field.autoId then Err(AutoIdSupplied(field.name))
    else
      var values := inputs[idx.value].values;
      var c := CheckFieldData(field, values, false);
      if c.Fail? then Err(c.error)
      else
        var g := FieldDataOf(field, values, false);
        if g.Err? then Err(g.error) else Ok(Some(g.value))
  }

  /** The schema fields of a column-based insert, in schema order; the first failing
      field decides. */
  function ColumnStep(inputs: seq<InsertField>): FieldType -> Result<Option<FieldData>>
  {
    (f: FieldType) => ColumnFieldData(f, inputs)
  }

  function ColumnSteps(schema: seq<FieldType>, inputs: seq<InsertField>): Result<seq<Option<FieldData>>>
  {
    CollectAll(schema, ColumnStep(inputs))
  }

  function ColumnsData(schema: seq<FieldType>, inputs: seq<InsertField>): Result<seq<FieldData>>
  {
    var c := ColumnSteps(schema, inputs);
    if c.Err? then Err(c.error) else Ok(Somes(c.value))
  }

  /** The dynamic column of a column-based insert: the first input named "$meta",
      when dynamic fields are enabled. */
  function DynamicColumnData(enableDynamicField: bool, inputs: seq<InsertField>): Result<Option<FieldData>>
  {
    if !enableDynamicField then Ok(Option.None)
    else
      var idx := FirstNamed(inputs, DynamicFieldName);
      if idx.None? then Ok(Option.None)
      else
        var values := inputs[idx.value].values;
        var c := CheckFieldData(DynamicType, values, false);
        if c.Fail? then Err(c.error)
        else
          var g := FieldDataOf(DynamicType, values, true);
          if g.Err? then Err(g.error) else Ok(Some(g.value))
  }

  /** checkAndSetColumnData: the schema fields, then the dynamic one. */
  function ColumnInsertData(desc: CollectionDesc, inputs: seq<InsertField>): Result<seq<FieldData>>
  {
    var s := ColumnsData(desc.fields, inputs);
    if s.Err? then s
    else
      var d := DynamicColumnData(desc.enableDynamicField, inputs);
      if d.Err? then Err(d.error) else Ok(s.value + OptSeq(d.value))
  }

  /** The indices of the schema fields that are not auto-id, in schema order. */
  function NonAutoIdIndices(schema: seq<FieldType>): (r: seq<nat>)
    ensures forall p :: 0 <= p < |r| ==> r[p] < |schema| && !schema[r[p]].autoId
    ensures forall j :: 0 <= j < |schema| && !schema[j].autoId ==> j in r
  {
    if schema == [] then []
    else
      var init := NonAutoIdIndices(schema[..|schema| - 1]);
      if schema[|schema| - 1].autoId then init else init + [|schema| - 1]
  }

  /** The successes of per-field results that succeed exactly for the non-auto-id
      fields: one per non-auto-id field, in schema order. */
  lemma {:induction false} SomesOfNonAutoId<T>(schema: seq<FieldType>, opts: seq<Option<T>>)
    requires |opts| == |schema|
    requires forall j :: 0 <= j < |schema| ==> (opts[j].Some? <==> !schema[j].autoId)
    ensures var idx := NonAutoIdIndices(schema);
      |Somes(opts)| == |idx| && forall p :: 0 <= p < |idx| ==> opts[idx[p]] == Some(Somes(opts)[p])
  {
    if schema != [] {
      var n := |schema|;
      var init, last := opts[..n - 1], opts[n - 1];
      SomesOfNonAutoId(schema[..n - 1], init);
      assert forall j :: 0 <= j < n - 1 ==> schema[..n - 1][j] == schema[j] && init[j] == opts[j];
      var idx, idx0 := NonAutoIdIndices(schema), NonAutoIdIndices(schema[..n - 1]);
      var vs, vs0 := Somes(opts), Somes(init);
      assert vs == vs0 + (if last.Some? then [last.value] else []);
      assert idx == idx0 + (if last.Some? then [n - 1] else []);
      forall p | 0 <= p < |idx| ensures opts[idx[p]] == Some(vs[p]) {
        if p < |idx0| {
          assert idx[p] == idx0[p] && vs[p] == vs0[p];
        }
      }
    }
  }

  /** A column-based insert succeeds for the schema fields exactly when every field
      does, and then yields one FieldData per non-auto-id field, in schema order. */
  lemma ColumnsDataOkIff(schema: seq<FieldType>, inputs: seq<InsertField>)
    ensures ColumnsData(schema, inputs).Ok? <==>
      forall j :: 0 <= j < |schema| ==> ColumnFieldData(schema[j], inputs).Ok?
    ensures ColumnsData(schema, inputs).Ok? ==>
      var idx := NonAutoIdIndices(schema);
      |ColumnsData(schema, inputs).value| == |idx| &&
      forall p :: 0 <= p < |idx| ==>
        ColumnFieldData(schema[idx[p]], inputs) == Ok(Some(ColumnsData(schema, inputs).value[p]))
  {
    var step := ColumnStep(inputs);
    forall j | 0 <= j < |schema| && step(schema[j]).Ok?
      ensures step(schema[j]).value.Some? <==> !schema[j].autoId
    {
      ColumnFieldDataShape(schema[j], inputs);
    }
    CollectSomesOfNonAutoId(schema, step);
  }

  /** A schema field that succeeds yields a FieldData exactly when it is not
      auto-id. */
  lemma ColumnFieldDataShape(field: FieldType, inputs: seq<InsertField>)
    requires ColumnFieldData(field, inputs).Ok?
    ensures ColumnFieldData(field, inputs).value.Some? <==> !field.autoId
  {
  }

  /** Collecting per-field results that succeed with a value exactly for the
      non-auto-id fields: all succeed or the collection fails, and the values are
      those of the non-auto-id fields, in schema order. */
  lemma CollectSomesOfNonAutoId<T>(schema: seq<FieldType>, step: FieldType -> Result<Option<T>>)
    requires forall j :: 0 <= j < |schema| && step(schema[j]).Ok? ==> (step(schema[j]).value.Some? <==> !schema[j].autoId)
    ensures CollectAll(schema, step).Ok? <==> forall j :: 0 <= j < |schema| ==> step(schema[j]).Ok?
    ensures CollectAll(schema, step).Ok? ==>
      var idx := NonAutoIdIndices(schema);
      var vs := Somes(CollectAll(schema, step).value);
      |vs| == |idx| && forall p :: 0 <= p < |idx| ==> step(schema[idx[p]]) == Ok(Some(vs[p]))
  {
    CollectAllOkIff(schema, step);
    if CollectAll(schema, step).Ok? {
      var opts := CollectAll(schema, step).value;
      SomesOfNonAutoId(schema, opts);
    }
  }

  /** Column-based guards: an absent non-auto-id field and a supplied auto-id field
      each make the insert fail. */
  lemma ColumnGuards(desc: CollectionDesc, inputs: seq<InsertField>, j: nat)
    requires j < |desc.fields|
    requires var f := desc.fields[j];
      (!f.autoId && FirstNamed(inputs, f.name).None?) || (f.autoId && FirstNamed(inputs, f.name).Some?)
    ensures ColumnInsertData(desc, inputs).Err?
  {
    ColumnsDataOkIff(desc.fields, inputs);
  }

  // ---------------------------------------------------------------- row-based insert

  /** row.get(key): the value of the first member with that key. */
  function Lookup(row: Row, key: string): (r: Option<Json>)
    ensures r.Some? <==> exists m :: m in row && m.0 == key
  {
    if row == [] then Option.None
    else if row[0].0 == key then Some(row[0].1)
    else Lookup(row[1..], key)
  }

  /** One schema field of one row: an absent auto-id field is skipped (None); an
      absent field that is neither nullable nor defaulted is refused; a present
      auto-id field is refused; otherwise the value (JSON null when absent) is
      checked and converted. */
  function RowFieldValue(field: FieldType, row: Row, co: JsonCoercions): Result<Option<Obj>>
  {
    var given := Lookup(row, field.name);
    if given.None? && field.autoId then Ok(Option.None)
    else if given.None? && !field.nullable && field.defaultValue == Null then Err(FieldNotProvided(field.name))
    else if field.autoId then Err(AutoIdSupplied(field.name))
    else
      var v := CheckFieldValue(field, if given.Some? then given.value else JsonNull, co);
      if v.Err? then Err(v.error) else Ok(Some(v.value))
  }

  /** The schema fields of one row, in schema order; the first failure decides. */
  function RowStep(row: Row, co: JsonCoercions): FieldType -> Result<Option<Obj>>
  {
    (f: FieldType) => RowFieldValue(f, row, co)
  }

  function RowValues(schema: seq<FieldType>, row: Row, co: JsonCoercions): (r: Result<seq<Option<Obj>>>)
    ensures r.Ok? ==> |r.value| == |schema|
  {
    CollectAll(schema, RowStep(row, co))
  }

  function RowsStep(schema: seq<FieldType>, co: JsonCoercions): Row -> Result<seq<Option<Obj>>>
  {
    (row: Row) => RowValues(schema, row, co)
  }

  /** All rows, in order; the first failing row decides. */
  function RowsValues(schema: seq<FieldType>, rows: seq<Row>, co: JsonCoercions): (r: Result<seq<seq<Option<Obj>>>>)
    ensures r.Ok? ==> |r.value| == |rows| && forall k :: 0 <= k < |rows| ==> |r.value[k]| == |schema|
  {
    CollectAllOkIff(rows, RowsStep(schema, co));
    CollectAll(rows, RowsStep(schema, co))
  }

  /** The values collected for schema field j: one per row that supplied one. */
  function ColumnOf(table: seq<seq<Option<Obj>>>, j: nat): seq<Obj>
    requires forall k :: 0 <= k < |table| ==> j < |table[k]|
  {
    if table == [] then []
    else ColumnOf(table[..|table| - 1], j) + OptSeq(table[|table| - 1][j])
  }

  /** A row key that names a field collected for the request (a non-auto-id schema
      field). */
  predicate IsCollectedName(schema: seq<FieldType>, key: string)
  {
    exists j :: 0 <= j < |schema| && !schema[j].autoId && schema[j].name == key
  }

  /** The dynamic part of a row: the members whose keys are not collected field
      names, in row order. */
  function DynamicRow(schema: seq<FieldType>, row: Row): Row
  {
    if row == [] then []
    else
      var init := DynamicRow(schema, row[..|row| - 1]);
      var m := row[|row| - 1];
      if IsCollectedName(schema, m.0) then init else init + [m]
  }

  /** One dynamic JSON object per row. */
  function DynamicRows(schema: seq<FieldType>, rows: seq<Row>): (r: seq<Obj>)
    ensures |r| == |rows|
  {
    if rows == [] then []
    else DynamicRows(schema, rows[..|rows| - 1]) + [JElement(JsonObject(DynamicRow(schema, rows[|rows| - 1])))]
  }

  /** The schema field and collected column of each index in `order`. */
  function Selected(schema: seq<FieldType>, columns: seq<seq<Obj>>, order: seq<nat>): (r: seq<(FieldType, seq<Obj>)>)
    requires |columns| == |schema|
    requires forall p :: 0 <= p < |order| ==> order[p] < |schema|
    ensures |r| == |order|
    ensures forall p :: 0 <= p < |order| ==> r[p] == (schema[order[p]], columns[order[p]])
  {
    seq(|order|, p requires 0 <= p < |order| => (schema[order[p]], columns[order[p]]))
  }

  function PackColumn(fc: (FieldType, seq<Obj>)): Result<FieldData>
  {
    FieldDataOf(fc.0, fc.1, false)
  }

  /** The FieldData of the collected columns, in the given order; the first failing
      field decides. */
  function EmitColumns(schema: seq<FieldType>, columns: seq<seq<Obj>>, order: seq<nat>): Result<seq<FieldData>>
    requires |columns| == |schema|
    requires forall p :: 0 <= p < |order| ==> order[p] < |schema|
  {
    CollectAll(Selected(schema, columns, order), PackColumn)
  }

  /** The columns collected from the rows, one per schema field. */
  function Columns(schema: seq<FieldType>, table: seq<seq<Option<Obj>>>): (r: seq<seq<Obj>>)
    requires forall k :: 0 <= k < |table| ==> |table[k]| == |schema|
    ensures |r| == |schema|
  {
    seq(|schema|, j requires 0 <= j < |schema| => ColumnOf(table, j))
  }

  /** An iteration order of the collected field names: any order of the non-auto-id
      fields. */
  predicate IsFieldOrder(schema: seq<FieldType>, order: seq<nat>)
  {
    multiset(order) == multiset(NonAutoIdIndices(schema))
  }

  /** checkAndSetRowData: the collected columns in `order` (nothing when there are
      no rows), then the dynamic column when enabled. */
  function RowInsertData(desc: CollectionDesc, rows: seq<Row>, co: JsonCoercions, order: seq<nat>): Result<seq<FieldData>>
    requires IsFieldOrder(desc.fields, order)
  {
    var schema := desc.fields;
    var t := RowsValues(schema, rows, co);
    if t.Err? then Err(t.error)
    else
      assert forall p :: 0 <= p < |order| ==> order[p] < |schema| by {
        forall p | 0 <= p < |order| ensures order[p] < |schema| {
          assert order[p] in multiset(NonAutoIdIndices(schema));
        }
      }
      var e := if rows == [] then Ok([]) else EmitColumns(schema, Columns(schema, t.value), order);
      if e.Err? || !desc.enableDynamicField then e
      else
        var d := FieldDataOf(DynamicType, DynamicRows(schema, rows), true);
        if d.Err? then Err(d.error) else Ok(e.value + [d.value])
  }

  /** fillFieldsData: the partition name, then the column-based data when columns
      are given, the row-based data otherwise. */
  function FillData(param: InsertRequestParam, desc: CollectionDesc, co: JsonCoercions, order: seq<nat>): Result<(Option<string>, seq<FieldData>)>
    requires IsFieldOrder(desc.fields, order)
  {
    var p := PartitionToSet(param, desc.fields);
    if p.Err? then Err(p.error)
    else
      var d := if param.fields != [] then ColumnInsertData(desc, param.fields)
               else RowInsertData(desc, param.rows, co, order);
      if d.Err? then Err(d.error) else Ok((p.value, d.value))
  }

  /** A builder after fillFieldsData: the partition name set when there is one, the
      field data appended. */
  function Filled(b: RequestBuilder, partition: Option<string>, data: seq<FieldData>): RequestBuilder
  {
    b.(partitionName := if partition.Some? then partition.value else b.partitionName,
       fieldsData := b.fieldsData + data)
  }

  // ---------------------------------------------------------------- row-based properties

  /** The rows succeed exactly when every field of every row does, and then hold,
      for each row and field, that field's checked value. */
  lemma RowsValuesOkIff(schema: seq<FieldType>, rows: seq<Row>, co: JsonCoercions)
    ensures RowsValues(schema, rows, co).Ok? <==>
      forall k, j :: 0 <= k < |rows| && 0 <= j < |schema| ==> RowFieldValue(schema[j], rows[k], co).Ok?
    ensures RowsValues(schema, rows, co).Ok? ==>
      forall k, j :: 0 <= k < |rows| && 0 <= j < |schema| ==>
        RowFieldValue(schema[j], rows[k], co) == Ok(RowsValues(schema, rows, co).value[k][j])
  {
    var rowStep := RowsStep(schema, co);
    CollectAllOkIff(rows, rowStep);
    forall k | 0 <= k < |rows| {
      CollectAllOkIff(schema, RowStep(rows[k], co));
    }
    if !RowsValues(schema, rows, co).Ok? {
      var k :| 0 <= k < |rows| && !rowStep(rows[k]).Ok?;
      var j :| 0 <= j < |schema| && !RowFieldValue(schema[j], rows[k], co).Ok?;
    }
  }

  /** Row-based guards: a row that leaves out a field that is neither auto-id,
      nullable nor defaulted, and a row that supplies an auto-id field, each make
      the insert fail. */
  lemma RowGuards(schema: seq<FieldType>, rows: seq<Row>, co: JsonCoercions, k: nat, j: nat)
    requires k < |rows| && j < |schema|
    requires var f := schema[j];
      (Lookup(rows[k], f.name).None? && !f.autoId && !f.nullable && f.defaultValue == Null) ||
      (Lookup(rows[k], f.name).Some? && f.autoId)
    ensures RowsValues(schema, rows, co).Err?
  {
    RowsValuesOkIff(schema, rows, co);
  }

  /** The collected column of a non-auto-id field holds one checked value per row, in
      row order; an auto-id field collects nothing. */
  lemma ColumnContents(schema: seq<FieldType>, rows: seq<Row>, co: JsonCoercions, j: nat)
    requires j < |schema|
    requires RowsValues(schema, rows, co).Ok?
    ensures var table := RowsValues(schema, rows, co).value;
      && (schema[j].autoId ==> ColumnOf(table, j) == [])
      && (!schema[j].autoId ==>
            |ColumnOf(table, j)| == |rows| &&
            forall k :: 0 <= k < |rows| ==> RowFieldValue(schema[j], rows[k], co) == Ok(Some(ColumnOf(table, j)[k])))
  {
    var table: seq<seq<Option<Obj>>> := RowsValues(schema, rows, co).value;
    RowsValuesOkIff(schema, rows, co);
    forall k | 0 <= k < |rows| ensures table[k][j].Some? <==> !schema[j].autoId {
      RowFieldValueShape(schema[j], rows[k], co);
    }
    ColumnOfUniform(table, j, !schema[j].autoId);
  }

  /** A field that succeeds for a row yields a value exactly when it is not
      auto-id. */
  lemma RowFieldValueShape(field: FieldType, row: Row, co: JsonCoercions)
    requires RowFieldValue(field, row, co).Ok?
    ensures RowFieldValue(field, row, co).value.Some? <==> !field.autoId
  {
  }

  /** The column of a field that has a value in every row, or in none. */
  lemma {:induction false} ColumnOfUniform(table: seq<seq<Option<Obj>>>, j: nat, present: bool)
    requires forall k :: 0 <= k < |table| ==> j < |table[k]| && (table[k][j].Some? <==> present)
    ensures !present ==> ColumnOf(table, j) == []
    ensures present ==>
      |ColumnOf(table, j)| == |table| &&
      forall k :: 0 <= k < |table| ==> table[k][j] == Some(ColumnOf(table, j)[k])
  {
    if table != [] {
      var n := |table|;
      var init := table[..n - 1];
      ColumnOfUniform(init, j, present);
      assert forall k :: 0 <= k < n - 1 ==> init[k] == table[k];
    }
  }

  /** The dynamic part of a row keeps exactly the members whose keys are not
      collected field names. */
  lemma {:induction false} DynamicRowMembers(schema: seq<FieldType>, row: Row)
    ensures forall m :: m in DynamicRow(schema, row) <==> m in row && !IsCollectedName(schema, m.0)
  {
    if row != [] {
      var init := row[..|row| - 1];
      DynamicRowMembers(schema, init);
      assert row == init + [row[|row| - 1]];
    }
  }

  lemma EmitColumnsOkIff(schema: seq<FieldType>, columns: seq<seq<Obj>>, order: seq<nat>)
    requires |columns| == |schema|
    requires forall p :: 0 <= p < |order| ==> order[p] < |schema|
    ensures EmitColumns(schema, columns, order).Ok? <==>
      forall p :: 0 <= p < |order| ==> FieldDataOf(schema[order[p]], columns[order[p]], false).Ok?
    ensures EmitColumns(schema, columns, order).Ok? ==>
      |EmitColumns(schema, columns, order).value| == |order| &&
      forall p :: 0 <= p < |order| ==>
        FieldDataOf(schema[order[p]], columns[order[p]], false) == Ok(EmitColumns(schema, columns, order).value[p])
  {
    var sel := Selected(schema, columns, order);
    CollectAllOkIff(sel, PackColumn);
    assert forall p :: 0 <= p < |order| ==> PackColumn(sel[p]) == FieldDataOf(schema[order[p]], columns[order[p]], false);
  }

  /** The order the collected fields are emitted in does not matter: any two orders
      of the same fields both succeed or both fail, and yield the same set of
      FieldData. */
  lemma EmitOrderIndependent(schema: seq<FieldType>, columns: seq<seq<Obj>>, order1: seq<nat>, order2: seq<nat>)
    requires |columns| == |schema|
    requires forall p :: 0 <= p < |order1| ==> order1[p] < |schema|
    requires multiset(order1) == multiset(order2)
    ensures forall p :: 0 <= p < |order2| ==> order2[p] < |schema|
    ensures EmitColumns(schema, columns, order1).Ok? <==> EmitColumns(schema, columns, order2).Ok?
    ensures EmitColumns(schema, columns, order1).Ok? ==>
      (set g | g in EmitColumns(schema, columns, order1).value) ==
      (set g | g in EmitColumns(schema, columns, order2).value)
  {
    forall p | 0 <= p < |order2| ensures order2[p] < |schema| {
      assert order2[p] in multiset(order1);
    }
    var sel1, sel2 := Selected(schema, columns, order1), Selected(schema, columns, order2);
    forall fc | fc in sel1 ensures fc in sel2 {
      var p :| 0 <= p < |sel1| && sel1[p] == fc;
      assert order1[p] in multiset(order2);
      var q :| 0 <= q < |order2| && order2[q] == order1[p];
      assert sel2[q] == fc;
    }
    forall fc | fc in sel2 ensures fc in sel1 {
      var q :| 0 <= q < |sel2| && sel2[q] == fc;
      assert order2[q] in multiset(order1);
      var p :| 0 <= p < |order1| && order1[p] == order2[q];
      assert sel1[p] == fc;
    }
    SameElementsCollect(sel1, sel2, PackColumn);
  }

  /** The partition rule: with a partition key field a non-empty name is refused
      and no name is set; without one any given name is set as is. */
  lemma PartitionRule(param: InsertRequestParam, schema: seq<FieldType>)
    ensures PartitionToSet(param, schema).Err? <==>
      PartitionKeyEnabled(schema) && param.partitionName.Some? && param.partitionName.value != ""
    ensures PartitionToSet(param, schema).Ok? ==>
      PartitionToSet(param, schema).value == if PartitionKeyEnabled(schema) then Option.None else param.partitionName
  {
  }
}
