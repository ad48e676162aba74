/** HybridSearchParam and its Builder: the builder collects the legs of a hybrid
    search, the ranker and the result options, keeps partition names and output
    fields free of duplicates, and build() validates the collected values before
    copying them into the parameter object. */
module HybridSearch {
  import opened MilvusTypes
  import opened JavaStrings

  /** The parts of an AnnSearchParam, one leg of a hybrid search, that the hybrid
      search reads. AnnSearchParam.java is not part of this model. */
  datatype AnnSearchParam = AnnSearchParam(
    vectorFieldName: string,
    vectors: seq<Obj>,
    plType: PlaceholderType,
    nq: int,
    params: Option<string>,
    topK: int,
    metricType: string,
    expr: Option<string>)

  /** A ranker, as far as the request reads it: its property map
      (BaseRanker.getProperties). BaseRanker.java is not part of this model. */
  datatype Ranker = Ranker(properties: map<string, string>)

  /** A validated hybrid search parameter object. */
  datatype HybridSearchParam = HybridSearchParam(
    databaseName: Option<string>,
    collectionName: string,
    partitionNames: seq<string>,
    searchRequests: seq<AnnSearchParam>,
    ranker: Ranker,
    topK: int,
    outFields: seq<string>,
    offset: int,
    roundDecimal: int,
    consistencyLevel: Option<ConsistencyLevel>,
    groupByFieldName: Option<string>,
    groupSize: Option<int>,
    strictGroupSize: Option<bool>)

  /** The values a Builder holds; None is Java's null. */
  datatype BuilderState = BuilderState(
    databaseName: Option<string>,
    collectionName: Option<string>,
    partitionNames: seq<string>,
    searchRequests: seq<AnnSearchParam>,
    ranker: Option<Ranker>,
    topK: Option<int>,
    outFields: seq<string>,
    offset: int,
    roundDecimal: int,
    consistencyLevel: Option<ConsistencyLevel>,
    groupByFieldName: Option<string>,
    groupSize: Option<int>,
    strictGroupSize: Option<bool>)

  /** A fresh builder: empty lists, offset 0, round decimal -1, everything else null. */
  const DefaultState: BuilderState := BuilderState(
    Option.None, Option.None, [], [], Option.None, Option.None, [], 0, -1,
    Option.None, Option.None, Option.None, Option.None)

  type Int32 = x: int | -0x8000_0000 <= x < 0x8000_0000

  // ---------------------------------------------------------------- de-duplicating lists

  predicate NoDuplicates<T(==)>(xs: seq<T>)
  {
    forall i, j :: 0 <= i < j < |xs| ==> xs[i] != xs[j]
  }

  /** `xs` after adding each of `ys` in turn, skipping those already present. */
  function AddAbsent<T(==)>(xs: seq<T>, ys: seq<T>): seq<T>
  {
    if ys == [] then xs
    else
      var init := AddAbsent(xs, ys[..|ys| - 1]);
      var y := ys[|ys| - 1];
      if y in init then init else init + [y]
  }

  /** Adding absent names keeps the list free of duplicates, keeps what was there
      first and in place, and ends with exactly the old names and the new ones. */
  lemma {:induction false} AddAbsentProperties<T>(xs: seq<T>, ys: seq<T>)
    requires NoDuplicates(xs)
    ensures NoDuplicates(AddAbsent(xs, ys))
    ensures |AddAbsent(xs, ys)| >= |xs| && AddAbsent(xs, ys)[..|xs|] == xs
    ensures forall z :: z in AddAbsent(xs, ys) <==> z in xs || z in ys
  {
    if ys != [] {
      var init := ys[..|ys| - 1];
      AddAbsentProperties(xs, init);
      var a := AddAbsent(xs, init);
      var y := ys[|ys| - 1];
      assert ys == init + [y];
      if y !in a {
        assert (a + [y])[..|xs|] == a[..|xs|];
      }
    }
  }

  /** Adding a name that is already present changes nothing, and adding the same
      names twice is adding them once. */
  lemma {:induction false} AddAbsentIdempotent<T>(xs: seq<T>, ys: seq<T>)
    requires NoDuplicates(xs)
    ensures AddAbsent(AddAbsent(xs, ys), ys) == AddAbsent(xs, ys)
  {
    AddAbsentProperties(xs, ys);
    AddAbsentOfPresent(AddAbsent(xs, ys), ys);
  }

  lemma {:induction false} AddAbsentOfPresent<T>(xs: seq<T>, ys: seq<T>)
    requires forall y :: y in ys ==> y in xs
    ensures AddAbsent(xs, ys) == xs
  {
    if ys != [] {
      var init := ys[..|ys| - 1];
      assert forall y :: y in init ==> y in ys;
      AddAbsentOfPresent(xs, init);
      assert ys[|ys| - 1] in ys;
    }
  }

  // ---------------------------------------------------------------- vector counts

  function VectorSizes(reqs: seq<AnnSearchParam>): (r: seq<nat>)
    ensures |r| == |reqs| && forall i :: 0 <= i < |reqs| ==> r[i] == |reqs[i].vectors|
  {
    seq(|reqs|, i requires 0 <= i < |reqs| => |reqs[i].vectors|)
  }

  /** The reference vector count after the requests with counts `counts`: the first
      non-zero count; a later count that differs from it is refused. */
  function ReferenceCount(counts: seq<nat>): Result<nat>
  {
    if counts == [] then Ok(0)
    else
      var r := ReferenceCount(counts[..|counts| - 1]);
      var n := counts[|counts| - 1];
      if r.Err? then r
      else if r.value == 0 then Ok(n)
      else if r.value != n then Err(VectorCountMismatch)
      else r
  }

  /** The vector-count rule: the counts are accepted exactly when every count after
      a non-zero one equals it. Leading zero counts fix nothing, but a zero after a
      non-zero count is refused. */
  lemma {:induction false} ReferenceCountOkIff(counts: seq<nat>)
    ensures ReferenceCount(counts).Ok? <==>
      forall i, j :: 0 <= i < j < |counts| && counts[i] != 0 ==> counts[j] == counts[i]
    ensures ReferenceCount(counts).Ok? ==>
      (ReferenceCount(counts).value == 0 <==> forall i :: 0 <= i < |counts| ==> counts[i] == 0)
    ensures ReferenceCount(counts).Ok? && ReferenceCount(counts).value != 0 ==>
      exists i :: 0 <= i < |counts| && counts[i] == ReferenceCount(counts).value
  {
    if counts != [] {
      var m := |counts| - 1;
      var init := counts[..m];
      ReferenceCountOkIff(init);
      assert forall i :: 0 <= i < m ==> init[i] == counts[i];
      var r := ReferenceCount(init);
      if r.Ok? && r.value != 0 {
        var k :| 0 <= k < m && init[k] == r.value;
        if ReferenceCount(counts).Err? {
          assert counts[k] != 0 && counts[m] != counts[k];
        }
      }
    }
  }

  lemma {:induction false} ReferenceCountPrefixFails(counts: seq<nat>, n: nat)
    requires n <= |counts|
    requires ReferenceCount(counts[..n]).Err?
    ensures ReferenceCount(counts).Err?
    decreases |counts| - n
  {
    if n < |counts| {
      assert counts[..n + 1][..n] == counts[..n];
      ReferenceCountPrefixFails(counts, n + 1);
    } else {
      assert counts[..n] == counts;
    }
  }

  // ---------------------------------------------------------------- build

  /** build(): the checks in order, then a parameter object holding every builder
      value unchanged. An unset topK fails when it is unboxed for the comparison. */
  function BuildOf(s: BuilderState): Result<HybridSearchParam>
  {
    var c := CheckNullEmptyString(s.collectionName, "Collection name");
    if c.Fail? then Err(c.error)
    else if s.ranker.None? then Err(MissingRanker)
    else if s.searchRequests == [] then Err(NoSearchRequest)
    else if ReferenceCount(VectorSizes(s.searchRequests)).Err? then Err(VectorCountMismatch)
    else if s.topK.None? then Err(Runtime(NullPointer))
    else if s.topK.value <= 0 then Err(IllegalTopK)
    else if s.groupByFieldName.Some? && s.groupSize.Some? && s.groupSize.value <= 0 then Err(IllegalGroupSize)
    else Ok(HybridSearchParam(
      s.databaseName, s.collectionName.value, s.partitionNames, s.searchRequests, s.ranker.value,
      s.topK.value, s.outFields, s.offset, s.roundDecimal, s.consistencyLevel,
      s.groupByFieldName, s.groupSize, s.strictGroupSize))
  }

  /** What build() accepts, both ways: a non-blank collection name, a ranker, at
      least one request, agreeing vector counts, a positive topK, and a positive
      group size whenever both a group-by field and a group size are set; and what
      it then holds: every builder value unchanged. */
  lemma BuildRules(s: BuilderState)
    ensures BuildOf(s).Ok? <==>
      && s.collectionName.Some? && !IsBlank(s.collectionName.value)
      && s.ranker.Some?
      && s.searchRequests != []
      && (forall i, j :: 0 <= i < j < |s.searchRequests| && |s.searchRequests[i].vectors| != 0 ==>
            |s.searchRequests[j].vectors| == |s.searchRequests[i].vectors|)
      && s.topK.Some? && s.topK.value > 0
      && !(s.groupByFieldName.Some? && s.groupSize.Some? && s.groupSize.value <= 0)
    ensures BuildOf(s).Ok? ==>
      var p := BuildOf(s).value;
      && Some(p.collectionName) == s.collectionName && p.databaseName == s.databaseName
      && p.partitionNames == s.partitionNames && p.searchRequests == s.searchRequests
      && Some(p.ranker) == s.ranker && Some(p.topK) == s.topK && p.outFields == s.outFields
      && p.offset == s.offset && p.roundDecimal == s.roundDecimal
      && p.consistencyLevel == s.consistencyLevel && p.groupByFieldName == s.groupByFieldName
      && p.groupSize == s.groupSize && p.strictGroupSize == s.strictGroupSize
  {
    ReferenceCountOkIff(VectorSizes(s.searchRequests));
  }

  /** A group size of zero or less is refused only together with a group-by field;
      without one any group size builds. */
  lemma GroupSizeNeedsGroupBy(s: BuilderState, g: int)
    requires s.groupByFieldName.None?
    ensures BuildOf(s.(groupSize := Some(g))).Ok? <==> BuildOf(s).Ok?
  {
  }

  /** A fresh builder does not build: it has no collection name. */
  lemma DefaultStateFails()
    ensures BuildOf(DefaultState) == Err(NullOrEmpty("Collection name"))
  {
  }

  class Builder {
    var databaseName: Option<string>
    var collectionName: Option<string>
    var partitionNames: seq<string>
    var searchRequests: seq<AnnSearchParam>
    var ranker: Option<Ranker>
    var topK: Option<int>
    var outFields: seq<string>
    var offset: int
    var roundDecimal: int
    var consistencyLevel: Option<ConsistencyLevel>
    var groupByFieldName: Option<string>
    var groupSize: Option<int>
    var strictGroupSize: Option<bool>

    function State(): BuilderState
      reads this
    {
      BuilderState(databaseName, collectionName, partitionNames, searchRequests, ranker, topK,
        outFields, offset, roundDecimal, consistencyLevel, groupByFieldName, groupSize, strictGroupSize)
    }

    /** The partition names and output fields hold no duplicates. */
    predicate Valid()
      reads this
    {
      NoDuplicates(partitionNames) && NoDuplicates(outFields)
    }

    constructor ()
      ensures Valid()
      ensures State() == DefaultState
    {
      databaseName := Option.None;
      collectionName := Option.None;
      partitionNames := [];
      searchRequests := [];
      ranker := Option.None;
      topK := Option.None;
      outFields := [];
      offset := 0;
      roundDecimal := -1;
      consistencyLevel := Option.None;
      groupByFieldName := Option.None;
      groupSize := Option.None;
      strictGroupSize := Option.None;
    }

    method WithDatabaseName(name: Option<string>)
      modifies this
      ensures State() == old(State()).(databaseName := name)
    {
      databaseName := name;
    }

    method WithCollectionName(name: string)
      modifies this
      ensures State() == old(State()).(collectionName := Some(name))
    {
      collectionName := Some(name);
    }

    /** addPartitionName: appended unless already present. */
    method AddPartitionName(name: string)
      requires Valid()
      modifies this
      ensures Valid()
      ensures State() == old(State()).(partitionNames := AddAbsent(old(partitionNames), [name]))
    {
      if name !in partitionNames {
        partitionNames := partitionNames + [name];
      }
    }

    /** withPartitionNames: addPartitionName for each name in turn. */
    method WithPartitionNames(names: seq<string>)
      requires Valid()
      modifies this
      ensures Valid()
      ensures State() == old(State()).(partitionNames := AddAbsent(old(partitionNames), names))
    {
      var i := 0;
      while i < |names|
        invariant 0 <= i <= |names|
        invariant Valid()
        invariant State() == old(State()).(partitionNames := AddAbsent(old(partitionNames), names[..i]))
      {
        assert names[..i + 1][..i] == names[..i];
        AddPartitionName(names[i]);
        i := i + 1;
      }
      assert names[..i] == names;
    }

    method AddSearchRequest(request: AnnSearchParam)
      modifies this
      ensures State() == old(State()).(searchRequests := old(searchRequests) + [request])
    {
      searchRequests := searchRequests + [request];
    }

    method WithRanker(r: Ranker)
      modifies this
      ensures State() == old(State()).(ranker := Some(r))
    {
      ranker := Some(r);
    }

    method WithConsistencyLevel(level: Option<ConsistencyLevel>)
      modifies this
      ensures State() == old(State()).(consistencyLevel := level)
    {
      consistencyLevel := level;
    }

    /** withTopK: the Integer widened to the Long topK. */
    method WithTopK(k: Int32)
      modifies this
      ensures State() == old(State()).(topK := Some(k as int))
    {
      topK := Some(k as int);
    }

    method WithLimit(limit: int)
      modifies this
      ensures State() == old(State()).(topK := Some(limit))
    {
      topK := Some(limit);
    }

    /** addOutField: appended unless already present. */
    method AddOutField(name: string)
      requires Valid()
      modifies this
      ensures Valid()
      ensures State() == old(State()).(outFields := AddAbsent(old(outFields), [name]))
    {
      if name !in outFields {
        outFields := outFields + [name];
      }
    }

    /** withOutFields: addOutField for each name in turn. */
    method WithOutFields(names: seq<string>)
      requires Valid()
      modifies this
      ensures Valid()
      ensures State() == old(State()).(outFields := AddAbsent(old(outFields), names))
    {
      var i := 0;
      while i < |names|
        invariant 0 <= i <= |names|
        invariant Valid()
        invariant State() == old(State()).(outFields := AddAbsent(old(outFields), names[..i]))
      {
        assert names[..i + 1][..i] == names[..i];
        AddOutField(names[i]);
        i := i + 1;
      }
      assert names[..i] == names;
    }

    method WithOffset(o: int)
      modifies this
      ensures State() == old(State()).(offset := o)
    {
      offset := o;
    }

    method WithRoundDecimal(decimal: int)
      modifies this
      ensures State() == old(State()).(roundDecimal := decimal)
    {
      roundDecimal := decimal;
    }

    method WithGroupByFieldName(name: string)
      modifies this
      ensures State() == old(State()).(groupByFieldName := Some(name))
    {
      groupByFieldName := Some(name);
    }

    method WithGroupSize(size: int)
      modifies this
      ensures State() == old(State()).(groupSize := Some(size))
    {
      groupSize := Some(size);
    }

    method WithStrictGroupSize(strict: bool)
      modifies this
      ensures State() == old(State()).(strictGroupSize := Some(strict))
    {
      strictGroupSize := Some(strict);
    }

    /** build(): the checks of BuildOf, with the vector-count loop over the
        requests. */
    method Build() returns (r: Result<HybridSearchParam>)
      ensures r == BuildOf(State())
    {
      var c := CheckNullEmptyString(collectionName, "Collection name");
      if c.Fail? {
        return Err(c.error);
      }
      if ranker.None? {
        return Err(MissingRanker);
      }
      if searchRequests == [] {
        return Err(NoSearchRequest);
      }
      ghost var counts := VectorSizes(searchRequests);
      var vectorSize := 0;
      var i := 0;
      while i < |searchRequests|
        invariant 0 <= i <= |searchRequests|
        invariant ReferenceCount(counts[..i]) == Ok(vectorSize)
      {
        assert counts[..i + 1][..i] == counts[..i];
        var n := |searchRequests[i].vectors|;
        if vectorSize == 0 {
          vectorSize := n;
        } else if vectorSize != n {
          ReferenceCountPrefixFails(counts, i + 1);
          return Err(VectorCountMismatch);
        }
        i := i + 1;
      }
      assert counts[..i] == counts;
      if topK.None? {
        return Err(Runtime(NullPointer));
      }
      if topK.value <= 0 {
        return Err(IllegalTopK);
      }
      if groupByFieldName.Some? && groupSize.Some? && groupSize.value <= 0 {
        return Err(IllegalGroupSize);
      }
      return Ok(HybridSearchParam(
        databaseName, collectionName.value, partitionNames, searchRequests, ranker.value,
        topK.value, outFields, offset, roundDecimal, consistencyLevel,
        groupByFieldName, groupSize, strictGroupSize));
    }
  }
}
