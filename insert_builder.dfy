/** InsertBuilderWrapper: the object that turns an insert or upsert parameter and
    the collection description into an InsertRequest or UpsertRequest builder,
    adding the partition name and the FieldData of every field as it goes. */
module InsertBuilder {
  import opened MilvusTypes
  import opened FieldValidation
  import opened FieldPacking
  import opened InsertData

  /** The two builders after the partition name `partition` (when given) is set and
      `data` is appended: the insert builder when there is one, otherwise the upsert
      builder; a missing builder stays missing. */
  function FilledPair(ib: Option<RequestBuilder>, ub: Option<RequestBuilder>, partition: Option<string>, data: seq<FieldData>)
    : (r: (Option<RequestBuilder>, Option<RequestBuilder>))
    ensures r.0.Some? == ib.Some? && r.1.Some? == ub.Some?
    ensures partition.None? && data == [] ==> r == (ib, ub)
  {
    assert forall b: RequestBuilder :: b.fieldsData + [] == b.fieldsData;
    if ib.Some? then (Some(Filled(ib.value, partition, data)), ub)
    else if ub.Some? then (ib, Some(Filled(ub.value, partition, data)))
    else (ib, ub)
  }

  /** Filling in two steps is filling once with the data concatenated. */
  lemma FilledPairThen(ib: Option<RequestBuilder>, ub: Option<RequestBuilder>, partition: Option<string>,
                       data: seq<FieldData>, more: seq<FieldData>)
    ensures var mid := FilledPair(ib, ub, partition, data);
      FilledPair(mid.0, mid.1, Option.None, more) == FilledPair(ib, ub, partition, data + more)
  {
    assert forall b: RequestBuilder :: b.fieldsData + data + more == b.fieldsData + (data + more);
  }

  /** The first input column with the given name (the inner search loop). */
  method FindField(inputs: seq<InsertField>, name: string) returns (r: Option<nat>)
    ensures r == FirstNamed(inputs, name)
  {
    var i := 0;
    while i < |inputs|
      invariant 0 <= i <= |inputs|
      invariant forall j :: 0 <= j < i ==> inputs[j].name != name
    {
      if inputs[i].name == name {
        return Some(i);
      }
      i := i + 1;
    }
    return Option.None;
  }

  /** Whether some schema field is a partition key (the search loop that breaks on
      the first one). */
  method HasPartitionKey(schema: seq<FieldType>) returns (enabled: bool)
    ensures enabled == PartitionKeyEnabled(schema)
  {
    enabled := false;
    var i := 0;
    while i < |schema|
      invariant 0 <= i <= |schema|
      invariant forall j :: 0 <= j < i ==> !schema[j].partitionKey
    {
      if schema[i].partitionKey {
        enabled := true;
        return;
      }
      i := i + 1;
    }
  }

  /** The names a row-based insert collects a column for. */
  function CollectedNames(schema: seq<FieldType>): set<string>
  {
    set j | 0 <= j < |schema| && !schema[j].autoId :: schema[j].name
  }

  lemma CollectedNamesIff(schema: seq<FieldType>, key: string)
    ensures key in CollectedNames(schema) <==> IsCollectedName(schema, key)
  {
    if IsCollectedName(schema, key) {
      var j :| 0 <= j < |schema| && !schema[j].autoId && schema[j].name == key;
      assert schema[j].name in CollectedNames(schema);
    }
  }

  /** The dynamic part of a row: its members whose keys were not collected. */
  method FilterDynamic(row: Row, collected: set<string>, ghost schema: seq<FieldType>) returns (d: Row)
    requires collected == CollectedNames(schema)
    ensures d == DynamicRow(schema, row)
  {
    d := [];
    var i := 0;
    while i < |row|
      invariant 0 <= i <= |row|
      invariant d == DynamicRow(schema, row[..i])
    {
      assert row[..i + 1][..i] == row[..i];
      CollectedNamesIff(schema, row[i].0);
      if row[i].0 !in collected {
        d := d + [row[i]];
      }
      i := i + 1;
    }
    assert row[..i] == row;
  }

  /** The checked values of one row, field by field in schema order; the first
      failing field decides. */
  method RowInto(schema: seq<FieldType>, row: Row, co: JsonCoercions) returns (r: Result<seq<Option<Obj>>>)
    ensures r == RowValues(schema, row, co)
  {
    var values: seq<Option<Obj>> := [];
    var j := 0;
    while j < |schema|
      invariant 0 <= j <= |schema|
      invariant RowValues(schema[..j], row, co) == Ok(values)
    {
      var field := schema[j];
      var given := Lookup(row, field.name);
      CollectAllExtend(schema, RowStep(row, co), j);
      if given.None? && field.autoId {
        values := values + [Option.None];
      } else {
        if given.None? && !field.nullable && field.defaultValue == Null {
          return Err(FieldNotProvided(field.name));
        }
        if field.autoId {
          return Err(AutoIdSupplied(field.name));
        }
        var v := CheckFieldValue(field, if given.Some? then given.value else JsonNull, co);
        if v.Err? {
          return Err(v.error);
        }
        values := values + [Some(v.value)];
      }
      j := j + 1;
    }
    assert schema[..j] == schema;
    return Ok(values);
  }

  /** A succeeding row collects a value for exactly the non-auto-id fields. */
  lemma RowValuesShape(schema: seq<FieldType>, row: Row, co: JsonCoercions)
    requires RowValues(schema, row, co).Ok?
    ensures forall j :: 0 <= j < |schema| ==> (RowValues(schema, row, co).value[j].Some? <==> !schema[j].autoId)
  {
    CollectAllOkIff(schema, RowStep(row, co));
  }

  /** The columns after one more row: each field's column gains that row's value,
      when it has one. */
  lemma ColumnsAppend(schema: seq<FieldType>, table: seq<seq<Option<Obj>>>, values: seq<Option<Obj>>)
    requires forall k :: 0 <= k < |table| ==> |table[k]| == |schema|
    requires |values| == |schema|
    ensures Columns(schema, table + [values]) ==
      seq(|schema|, j requires 0 <= j < |schema| => Columns(schema, table)[j] + OptSeq(values[j]))
  {
    var t := table + [values];
    assert t[..|table|] == table;
  }

  /** One more field of a column-based insert that has succeeded so far: a failing
      field is the failure of the whole schema loop, a succeeding one adds its
      FieldData, if any. */
  lemma ColumnsDataExtend(schema: seq<FieldType>, inputs: seq<InsertField>, i: nat)
    requires i < |schema|
    requires ColumnSteps(schema[..i], inputs).Ok?
    ensures ColumnFieldData(schema[i], inputs).Err? ==>
      ColumnsData(schema, inputs) == Err(ColumnFieldData(schema[i], inputs).error)
    ensures ColumnFieldData(schema[i], inputs).Ok? ==>
      ColumnSteps(schema[..i + 1], inputs).Ok? &&
      ColumnsData(schema[..i + 1], inputs).value ==
        ColumnsData(schema[..i], inputs).value + OptSeq(ColumnFieldData(schema[i], inputs).value)
  {
    var step := ColumnStep(inputs);
    assert step(schema[i]) == ColumnFieldData(schema[i], inputs);
    CollectAllExtend(schema, step, i);
    if step(schema[i]).Ok? {
      SomesAppend(ColumnSteps(schema[..i], inputs).value, step(schema[i]).value);
    }
  }

  /** One schema field of a column-based insert: the body of the schema loop. */
  method ColumnField(field: FieldType, inputs: seq<InsertField>) returns (r: Result<Option<FieldData>>)
    ensures r == ColumnFieldData(field, inputs)
  {
    var idx := FindField(inputs, field.name);
    if idx.None? {
      if !field.autoId {
        return Err(FieldNotProvided(field.name));
      }
      return Ok(Option.None);
    }
    if field.autoId {
      return Err(AutoIdSupplied(field.name));
    }
    var values := inputs[idx.value].values;
    var c := CheckFieldData(field, values, false);
    if c.Fail? {
      return Err(c.error);
    }
    var g := GenFieldData(field, values, false);
    if g.Err? {
      return Err(g.error);
    }
    return Ok(Some(g.value));
  }

  /** The dynamic column of a column-based insert: the first input named "$meta",
      checked and packed as a dynamic JSON field. */
  method DynamicColumn(enableDynamicField: bool, inputs: seq<InsertField>) returns (r: Result<Option<FieldData>>)
    ensures r == DynamicColumnData(enableDynamicField, inputs)
  {
    if !enableDynamicField {
      return Ok(Option.None);
    }
    var idx := FindField(inputs, DynamicFieldName);
    if idx.None? {
      return Ok(Option.None);
    }
    var values := inputs[idx.value].values;
    var c := CheckFieldData(DynamicType, values, false);
    if c.Fail? {
      return Err(c.error);
    }
    var g := GenFieldData(DynamicType, values, true);
    if g.Err? {
      return Err(g.error);
    }
    return Ok(Some(g.value));
  }

  /** The row loop of checkAndSetRowData: every row's checked values, gathered per
      schema field, and (when dynamic fields are enabled) every row's dynamic part;
      the first failing row decides. */
  method CollectRows(schema: seq<FieldType>, rows: seq<Row>, co: JsonCoercions, enableDynamicField: bool)
    returns (r: Result<(seq<seq<Obj>>, seq<Obj>)>)
    ensures r.Err? <==> RowsValues(schema, rows, co).Err?
    ensures r.Err? ==> r.error == RowsValues(schema, rows, co).error
    ensures r.Ok? ==> r.value.0 == Columns(schema, RowsValues(schema, rows, co).value)
    ensures r.Ok? && enableDynamicField ==> r.value.1 == DynamicRows(schema, rows)
  {
    var columns: seq<seq<Obj>> := seq(|schema|, j => []);
    var collected: set<string> := {};
    var dynamics: seq<Obj> := [];
    var k := 0;
    while k < |rows|
      invariant 0 <= k <= |rows|
      invariant RowsValues(schema, rows[..k], co).Ok?
      invariant columns == Columns(schema, RowsValues(schema, rows[..k], co).value)
      invariant collected == if k == 0 then {} else CollectedNames(schema)
      invariant enableDynamicField ==> dynamics == DynamicRows(schema, rows[..k])
    {
      CollectAllExtend(rows, RowsStep(schema, co), k);
      var values := RowInto(schema, rows[k], co);
      if values.Err? {
        return Err(values.error);
      }
      ColumnsAppend(schema, RowsValues(schema, rows[..k], co).value, values.value);
      RowValuesShape(schema, rows[k], co);
      columns, collected := AbsorbRow(schema, columns, collected, values.value);
      if enableDynamicField {
        var d := FilterDynamic(rows[k], collected, schema);
        assert rows[..k + 1][..k] == rows[..k];
        dynamics := dynamics + [JElement(JsonObject(d))];
      }
      k := k + 1;
    }
    assert rows[..k] == rows;
    return Ok((columns, dynamics));
  }

  /** One row's values added to the columns, and its field names to the collected
      key set. */
  method AbsorbRow(schema: seq<FieldType>, columns: seq<seq<Obj>>, collected: set<string>, values: seq<Option<Obj>>)
    returns (columns': seq<seq<Obj>>, collected': set<string>)
    requires |columns| == |schema| && |values| == |schema|
    requires forall j :: 0 <= j < |schema| ==> (values[j].Some? <==> !schema[j].autoId)
    requires collected == {} || collected == CollectedNames(schema)
    ensures columns' == seq(|schema|, j requires 0 <= j < |schema| => columns[j] + OptSeq(values[j]))
    ensures collected' == CollectedNames(schema)
  {
    columns' := seq(|schema|, j requires 0 <= j < |schema| => columns[j] + OptSeq(values[j]));
    collected' := collected + set j | 0 <= j < |schema| && values[j].Some? :: schema[j].name;
  }

  /** Every index of a field order names a schema field. */
  lemma FieldOrderInRange(schema: seq<FieldType>, order: seq<nat>)
    requires IsFieldOrder(schema, order)
    ensures forall p :: 0 <= p < |order| ==> order[p] < |schema|
  {
    forall p | 0 <= p < |order| ensures order[p] < |schema| {
      assert order[p] in multiset(NonAutoIdIndices(schema));
    }
  }

  class InsertBuilderWrapper {
    var insertBuilder: Option<RequestBuilder>
    var upsertBuilder: Option<RequestBuilder>

    /** Exactly one of the two builders exists. */
    predicate Valid()
      reads this
    {
      insertBuilder.Some? != upsertBuilder.Some?
    }

    function Builders(): (Option<RequestBuilder>, Option<RequestBuilder>)
      reads this
    {
      (insertBuilder, upsertBuilder)
    }

    /** The insert builder of a fresh wrapper, before any field data. */
    constructor ForInsert(param: InsertRequestParam)
      ensures Valid()
      ensures insertBuilder == Some(NewRequest(param)) && upsertBuilder == Option.None
    {
      insertBuilder := Some(NewRequest(param));
      upsertBuilder := Option.None;
    }

    /** The upsert builder of a fresh wrapper, before any field data. */
    constructor ForUpsert(param: InsertRequestParam)
      ensures Valid()
      ensures insertBuilder == Option.None && upsertBuilder == Some(NewRequest(param))
    {
      insertBuilder := Option.None;
      upsertBuilder := Some(NewRequest(param));
    }

    /** Appends one FieldData to whichever builder exists. */
    method AddFieldsData(value: FieldData)
      modifies this
      ensures Builders() == FilledPair(old(insertBuilder), old(upsertBuilder), Option.None, [value])
    {
      if insertBuilder.Some? {
        insertBuilder := Some(Filled(insertBuilder.value, Option.None, [value]));
      } else if upsertBuilder.Some? {
        upsertBuilder := Some(Filled(upsertBuilder.value, Option.None, [value]));
      }
    }

    /** Sets the partition name on whichever builder exists. */
    method SetPartitionName(value: string)
      modifies this
      ensures Builders() == FilledPair(old(insertBuilder), old(upsertBuilder), Some(value), [])
    {
      if insertBuilder.Some? {
        insertBuilder := Some(Filled(insertBuilder.value, Some(value), []));
      } else if upsertBuilder.Some? {
        upsertBuilder := Some(Filled(upsertBuilder.value, Some(value), []));
      }
    }

    /** checkAndSetColumnData: on success the builder gains exactly the FieldData
        the column-based insert yields; a failure is the one it reports. */
    method CheckAndSetColumnData(desc: CollectionDesc, inputs: seq<InsertField>) returns (o: Outcome)
      requires Valid()
      modifies this
      ensures Valid()
      ensures o.Pass? <==> ColumnInsertData(desc, inputs).Ok?
      ensures o.Fail? ==> o.error == ColumnInsertData(desc, inputs).error
      ensures o.Pass? ==>
        Builders() == FilledPair(old(insertBuilder), old(upsertBuilder), Option.None, ColumnInsertData(desc, inputs).value)
    {
      var schema := desc.fields;
      ghost var ib0, ub0 := insertBuilder, upsertBuilder;
      var i := 0;
      while i < |schema|
        invariant 0 <= i <= |schema|
        invariant Valid()
        invariant ColumnSteps(schema[..i], inputs).Ok?
        invariant Builders() == FilledPair(ib0, ub0, Option.None, ColumnsData(schema[..i], inputs).value)
      {
        ColumnsDataExtend(schema, inputs, i);
        var r := ColumnField(schema[i], inputs);
        if r.Err? {
          return Fail(r.error);
        }
        ghost var done := ColumnsData(schema[..i], inputs).value;
        if r.value.Some? {
          FilledPairThen(ib0, ub0, Option.None, done, [r.value.value]);
          AddFieldsData(r.value.value);
        } else {
          assert done + OptSeq(r.value) == done;
        }
        i := i + 1;
      }
      assert schema[..i] == schema;
      var d := DynamicColumn(desc.enableDynamicField, inputs);
      if d.Err? {
        return Fail(d.error);
      }
      if d.value.Some? {
        FilledPairThen(ib0, ub0, Option.None, ColumnsData(schema, inputs).value, [d.value.value]);
        AddFieldsData(d.value.value);
      } else {
        assert ColumnsData(schema, inputs).value + OptSeq(d.value) == ColumnsData(schema, inputs).value;
      }
      return Pass;
    }

    /** Packs the collected columns in `order` and appends each FieldData as it is
        made; the first column that fails to pack stops the loop. */
    method EmitColumnsInto(schema: seq<FieldType>, columns: seq<seq<Obj>>, order: seq<nat>) returns (o: Outcome)
      requires Valid()
      requires |columns| == |schema|
      requires forall p :: 0 <= p < |order| ==> order[p] < |schema|
      modifies this
      ensures Valid()
      ensures o.Pass? <==> EmitColumns(schema, columns, order).Ok?
      ensures o.Fail? ==> o.error == EmitColumns(schema, columns, order).error
      ensures o.Pass? ==>
        Builders() == FilledPair(old(insertBuilder), old(upsertBuilder), Option.None, EmitColumns(schema, columns, order).value)
    {
      ghost var b0, u0 := insertBuilder, upsertBuilder;
      ghost var sel := Selected(schema, columns, order);
      ghost var emitted: seq<FieldData> := [];
      var p := 0;
      while p < |order|
        invariant 0 <= p <= |order|
        invariant Valid()
        invariant CollectAll(sel[..p], PackColumn) == Ok(emitted)
        invariant Builders() == FilledPair(b0, u0, Option.None, emitted)
      {
        CollectAllExtend(sel, PackColumn, p);
        var g := GenFieldData(schema[order[p]], columns[order[p]], false);
        if g.Err? {
          return Fail(g.error);
        }
        FilledPairThen(b0, u0, Option.None, emitted, [g.value]);
        AddFieldsData(g.value);
        emitted := emitted + [g.value];
        p := p + 1;
      }
      assert sel[..p] == sel;
      return Pass;
    }

    /** checkAndSetRowData: every row is checked field by field and its values
        collected per field, together with its dynamic part; then the collected
        columns are packed in `order`, the iteration order of the collected field
        names, and the dynamic column last. On success the builder gains exactly
        the FieldData of the row-based insert; a failure is the one it reports. */
    method CheckAndSetRowData(desc: CollectionDesc, rows: seq<Row>, co: JsonCoercions, order: seq<nat>) returns (o: Outcome)
      requires Valid()
      requires IsFieldOrder(desc.fields, order)
      modifies this
      ensures Valid()
      ensures o.Pass? <==> RowInsertData(desc, rows, co, order).Ok?
      ensures o.Fail? ==> o.error == RowInsertData(desc, rows, co, order).error
      ensures o.Pass? ==>
        Builders() == FilledPair(old(insertBuilder), old(upsertBuilder), Option.None, RowInsertData(desc, rows, co, order).value)
    {
      var schema := desc.fields;
      ghost var b0, u0 := insertBuilder, upsertBuilder;
      var c := CollectRows(schema, rows, co, desc.enableDynamicField);
      if c.Err? {
        return Fail(c.error);
      }
      FieldOrderInRange(schema, order);
      ghost var e: seq<FieldData> := [];
      if rows != [] {
        o := EmitColumnsInto(schema, c.value.0, order);
        if o.Fail? {
          return;
        }
        e := EmitColumns(schema, c.value.0, order).value;
      }
      if desc.enableDynamicField {
        var g := GenFieldData(DynamicType, c.value.1, true);
        if g.Err? {
          return Fail(g.error);
        }
        FilledPairThen(b0, u0, Option.None, e, [g.value]);
        AddFieldsData(g.value);
      }
      return Pass;
    }

    /** fillFieldsData: the partition name first, then the column-based data when
        columns are given, the row-based data otherwise. */
    method FillFieldsData(param: InsertRequestParam, desc: CollectionDesc, co: JsonCoercions, order: seq<nat>) returns (o: Outcome)
      requires Valid()
      requires IsFieldOrder(desc.fields, order)
      modifies this
      ensures Valid()
      ensures o.Pass? <==> FillData(param, desc, co, order).Ok?
      ensures o.Fail? ==> o.error == FillData(param, desc, co, order).error
      ensures o.Pass? ==>
        var filled := FillData(param, desc, co, order).value;
        Builders() == FilledPair(old(insertBuilder), old(upsertBuilder), filled.0, filled.1)
    {
      ghost var b0, u0 := insertBuilder, upsertBuilder;
      var partitionName := param.partitionName;
      var enabled := HasPartitionKey(desc.fields);
      if enabled {
        if partitionName.Some? && partitionName.value != "" {
          return Fail(PartitionNameConflict(param.collectionName));
        }
      } else if partitionName.Some? {
        SetPartitionName(partitionName.value);
      }
      ghost var partition := PartitionToSet(param, desc.fields).value;
      assert Builders() == FilledPair(b0, u0, partition, []);
      if param.fields != [] {
        o := CheckAndSetColumnData(desc, param.fields);
      } else {
        o := CheckAndSetRowData(desc, param.rows, co, order);
      }
      if o.Pass? {
        ghost var data := FillData(param, desc, co, order).value.1;
        FilledPairThen(b0, u0, partition, [], data);
        assert [] + data == data;
      }
    }

    /** buildInsertRequest: the insert builder, or a refusal when this wrapper
        builds an upsert. */
    method BuildInsertRequest() returns (r: Result<RequestBuilder>)
      requires Valid()
      ensures r.Ok? <==> upsertBuilder.None?
      ensures r.Ok? ==> Some(r.value) == insertBuilder
      ensures r.Err? ==> r.error == NoRequestBuilder
    {
      if insertBuilder.Some? {
        return Ok(insertBuilder.value);
      }
      return Err(NoRequestBuilder);
    }

    /** buildUpsertRequest: the upsert builder, or a refusal when this wrapper
        builds an insert. */
    method BuildUpsertRequest() returns (r: Result<RequestBuilder>)
      requires Valid()
      ensures r.Ok? <==> insertBuilder.None?
      ensures r.Ok? ==> Some(r.value) == upsertBuilder
      ensures r.Err? ==> r.error == NoRequestBuilder
    {
      if upsertBuilder.Some? {
        return Ok(upsertBuilder.value);
      }
      return Err(NoRequestBuilder);
    }
  }

  /** The request an insert or upsert yields: a fresh builder filled with the
      partition name and the field data. */
  function RequestOf(param: InsertRequestParam, desc: CollectionDesc, co: JsonCoercions, order: seq<nat>): Result<RequestBuilder>
    requires IsFieldOrder(desc.fields, order)
  {
    var f := FillData(param, desc, co, order);
    if f.Err? then Err(f.error) else Ok(Filled(NewRequest(param), f.value.0, f.value.1))
  }

  /** new InsertBuilderWrapper(InsertParam, ...): a wrapper holding the insert
      request, or the error filling it raised. */
  method Insert(param: InsertRequestParam, desc: CollectionDesc, co: JsonCoercions, order: seq<nat>)
    returns (r: Result<InsertBuilderWrapper>)
    requires IsFieldOrder(desc.fields, order)
    ensures r.Err? <==> RequestOf(param, desc, co, order).Err?
    ensures r.Err? ==> r.error == RequestOf(param, desc, co, order).error
    ensures r.Ok? ==> fresh(r.value) && r.value.Valid()
    ensures r.Ok? ==> r.value.insertBuilder == Some(RequestOf(param, desc, co, order).value)
  {
    var w := new InsertBuilderWrapper.ForInsert(param);
    var o := w.FillFieldsData(param, desc, co, order);
    if o.Fail? {
      return Err(o.error);
    }
    return Ok(w);
  }

  /** new InsertBuilderWrapper(UpsertParam, ...): refused outright for a collection
      whose primary key is auto-generated; otherwise a wrapper holding the upsert
      request, or the error filling it raised. */
  method Upsert(param: InsertRequestParam, desc: CollectionDesc, co: JsonCoercions, order: seq<nat>)
    returns (r: Result<InsertBuilderWrapper>)
    requires IsFieldOrder(desc.fields, order)
    ensures desc.primaryField.autoId ==> r == Err(AutoIdUpsert(param.collectionName))
    ensures !desc.primaryField.autoId ==>
      (r.Err? <==> RequestOf(param, desc, co, order).Err?) &&
      (r.Err? ==> r.error == RequestOf(param, desc, co, order).error)
    ensures r.Ok? ==> fresh(r.value) && r.value.Valid()
    ensures r.Ok? ==> r.value.upsertBuilder == Some(RequestOf(param, desc, co, order).value)
  {
    if desc.primaryField.autoId {
      return Err(AutoIdUpsert(param.collectionName));
    }
    var w := new InsertBuilderWrapper.ForUpsert(param);
    var o := w.FillFieldsData(param, desc, co, order);
    if o.Fail? {
      return Err(o.error);
    }
    return Ok(w);
  }
}
