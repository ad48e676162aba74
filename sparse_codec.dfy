/** The byte-exact wire form of sparse float vectors (encodeSparseFloatVector,
    decodeSparseFloatVector, genSparseFloatArray): 8 bytes per entry, entries in
    ascending index order, each the index as an unsigned 32-bit little-endian word
    followed by the weight's binary32 bit pattern, little-endian. */
module SparseCodec {
  import opened MilvusTypes
  import opened LittleEndian
  import opened SortedEntries

  /** (long) Math.pow(2.0, 32.0) - 1: the first index the encoder refuses. */
  const IndexBound: int := 0x1_0000_0000 - 1

  predicate ValidIndex(k: int)
  {
    0 <= k < IndexBound
  }

  predicate ValidEntries(s: SparseEntries)
  {
    forall i :: 0 <= i < |s| ==> ValidIndex(s[i].0) && IsFinite(s[i].1)
  }

  /** The 8 bytes written for one entry. */
  function Record(e: (int, Float32)): (r: seq<Byte>)
    requires ValidIndex(e.0)
    ensures |r| == 8
  {
    Le32(e.0) + Le32(e.1)
  }

  /** The records of all entries, in entry order. */
  function Records(s: SparseEntries): (r: seq<Byte>)
    requires forall i :: 0 <= i < |s| ==> ValidIndex(s[i].0)
    ensures |r| == 8 * |s|
  {
    if s == [] then [] else Records(s[..|s| - 1]) + Record(s[|s| - 1])
  }

  /** The error the encoder raises at the first entry it refuses, if any: the index
      is checked before the weight of the same entry. */
  function FirstFault(s: SparseEntries): (r: Option<ParamError>)
    ensures r.None? <==> ValidEntries(s)
    ensures r.Some? ==> r.value == SparseIndexOutOfRange || r.value == SparseValueNotFinite
  {
    if s == [] then Option.None
    else if !ValidIndex(s[0].0) then Some(SparseIndexOutOfRange)
    else if !IsFinite(s[0].1) then Some(SparseValueNotFinite)
    else
      var r := FirstFault(s[1..]);
      assert r.None? <==> ValidEntries(s) by {
        if ValidEntries(s[1..]) {
          forall i | 0 <= i < |s| ensures ValidIndex(s[i].0) && IsFinite(s[i].1) {
            if i > 0 { assert s[i] == s[1..][i - 1]; }
          }
        }
        if ValidEntries(s) {
          forall i | 0 <= i < |s[1..]| ensures ValidIndex(s[1..][i].0) && IsFinite(s[1..][i].1) {
            assert s[1..][i] == s[i + 1];
          }
        }
      }
      r
  }

  /** What encodeSparseFloatVector produces: the buffer, or the error it throws. */
  function Encoding(s: SparseEntries): Result<seq<Byte>>
  {
    var fault := FirstFault(s);
    if fault.Some? then Err(fault.value) else Ok(Records(s))
  }

  /** encodeSparseFloatVector: fill a buffer of 8 * |sparse| bytes entry by entry. */
  method EncodeSparseFloatVector(sparse: SparseEntries) returns (r: Result<seq<Byte>>)
    ensures r == Encoding(sparse)
  {
    var buf := new Byte[8 * |sparse|];
    var i := 0;
    while i < |sparse|
      invariant 0 <= i <= |sparse|
      invariant ValidEntries(sparse[..i])
      invariant buf[..8 * i] == Records(sparse[..i])
    {
      var k := sparse[i].0;
      var w := sparse[i].1;
      if k < 0 || k >= IndexBound {
        FaultAfterValidPrefix(sparse, i);
        return Err(SparseIndexOutOfRange);
      }
      PutWord(buf, 8 * i, k);
      if !IsFinite(w) {
        FaultAfterValidPrefix(sparse, i);
        return Err(SparseValueNotFinite);
      }
      PutWord(buf, 8 * i + 4, w);
      RecordsSnoc(sparse, i);
      ValidPrefixGrows(sparse, i);
      i := i + 1;
    }
    assert sparse[..i] == sparse;
    assert buf[..] == buf[..8 * i];
    r := Ok(buf[..]);
  }

  lemma RecordsSnoc(s: SparseEntries, i: nat)
    requires i < |s|
    requires forall j :: 0 <= j <= i ==> ValidIndex(s[j].0)
    ensures Records(s[..i + 1]) == Records(s[..i]) + Record(s[i])
  {
    assert s[..i + 1][..i] == s[..i];
  }

  lemma ValidPrefixGrows(s: SparseEntries, i: nat)
    requires i < |s|
    requires ValidEntries(s[..i])
    requires ValidIndex(s[i].0) && IsFinite(s[i].1)
    ensures ValidEntries(s[..i + 1])
  {
    var t := s[..i + 1];
    forall j | 0 <= j <= i ensures ValidIndex(t[j].0) && IsFinite(t[j].1) {
      if j < i { assert t[j] == s[..i][j]; }
    }
  }

  /** After a valid prefix, the first refused entry decides the fault. */
  lemma {:induction false} FaultAfterValidPrefix(s: SparseEntries, i: nat)
    requires i < |s|
    requires ValidEntries(s[..i])
    ensures !ValidIndex(s[i].0) ==> FirstFault(s) == Some(SparseIndexOutOfRange)
    ensures ValidIndex(s[i].0) && !IsFinite(s[i].1) ==> FirstFault(s) == Some(SparseValueNotFinite)
  {
    if i > 0 {
      assert s[0] == s[..i][0];
      assert s[1..][..i - 1] == s[..i][1..];
      var t := s[1..][..i - 1];
      assert ValidEntries(t) by {
        forall j | 0 <= j < i - 1 ensures ValidIndex(t[j].0) && IsFinite(t[j].1) {
          assert t[j] == s[..i][j + 1];
        }
      }
      FaultAfterValidPrefix(s[1..], i - 1);
    }
  }

  /** Write the little-endian bytes of the word `w` at `buf[at..at + 4]`. */
  method PutWord(buf: array<Byte>, at: nat, w: int)
    requires at + 4 <= buf.Length
    requires 0 <= w < 0x1_0000_0000
    modifies buf
    ensures buf[..at + 4] == old(buf[..at]) + Le32(w)
    ensures buf[at + 4..] == old(buf[at + 4..])
  {
    var b := Le32(w);
    buf[at] := b[0];
    buf[at + 1] := b[1];
    buf[at + 2] := b[2];
    buf[at + 3] := b[3];
  }

  /** Record `j` of `buf` as the decoder reads it: the index from bytes 8j .. 8j+4,
      the weight from bytes 8j+4 .. 8j+8. */
  function ReadRecord(buf: seq<Byte>, j: nat): (int, Float32)
    requires 8 * j + 8 <= |buf|
  {
    (FromLe32(buf[8 * j..8 * j + 4]), FromLe32(buf[8 * j + 4..8 * j + 8]))
  }

  /** The first `n` records of `buf`, in buffer order. */
  function ReadRecords(buf: seq<Byte>, n: nat): (r: SparseEntries)
    requires 8 * n <= |buf|
    ensures |r| == n
  {
    if n == 0 then [] else ReadRecords(buf, n - 1) + [ReadRecord(buf, n - 1)]
  }

  /** What decodeSparseFloatVector returns: |buf| / 8 records put into an empty
      TreeMap in buffer order; the bytes after the last whole record are unread. */
  function Decoding(buf: seq<Byte>): SparseEntries
  {
    PutAll([], ReadRecords(buf, |buf| / 8))
  }

  /** decodeSparseFloatVector: read record after record into a TreeMap. */
  method DecodeSparseFloatVector(buf: seq<Byte>) returns (sparse: SparseEntries)
    ensures sparse == Decoding(buf)
  {
    sparse := [];
    var num := |buf| / 8;
    ghost var raws := ReadRecords(buf, num);
    var j := 0;
    while j < num
      invariant 0 <= j <= num
      invariant PutAll(sparse, raws[j..]) == Decoding(buf)
    {
      var offset := 8 * j;
      var k: int := FromLe32(buf[offset..offset + 4]);
      var v: Float32 := FromLe32(buf[offset + 4..offset + 8]);
      ReadRecordsAt(buf, num, j);
      assert raws[j] == (k, v);
      assert raws[j..][1..] == raws[j + 1..];
      sparse := Put(sparse, k, v);
      j := j + 1;
    }
  }

  lemma {:induction false} ReadRecordsAt(buf: seq<Byte>, n: nat, j: nat)
    requires 8 * n <= |buf|
    requires j < n
    ensures ReadRecords(buf, n)[j] == ReadRecord(buf, j)
  {
    if j < n - 1 {
      ReadRecordsAt(buf, n - 1, j);
    }
  }

  /** Record `i` of the encoding sits at bytes 8i .. 8i+8. */
  lemma {:induction false} RecordAt(s: SparseEntries, i: nat)
    requires forall j :: 0 <= j < |s| ==> ValidIndex(s[j].0)
    requires i < |s|
    ensures Records(s)[8 * i..8 * i + 8] == Record(s[i])
  {
    var n := |s|;
    if i < n - 1 {
      var p := s[..n - 1];
      RecordAt(p, i);
      assert Records(s) == Records(p) + Record(s[n - 1]);
      assert Records(s)[8 * i..8 * i + 8] == Records(p)[8 * i..8 * i + 8];
    }
  }

  /** The encoding of valid entries is 8 * |s| bytes, and record i holds the index
      of entry i as 4 little-endian bytes, then the weight's 4 little-endian bytes. */
  lemma EncodingLayout(s: SparseEntries, i: nat)
    requires ValidEntries(s)
    requires i < |s|
    ensures Encoding(s).Ok? && |Encoding(s).value| == 8 * |s|
    ensures Encoding(s).value[8 * i..8 * i + 4] == Le32(s[i].0)
    ensures Encoding(s).value[8 * i + 4..8 * i + 8] == Le32(s[i].1)
  {
    RecordAt(s, i);
    var b := Records(s);
    assert b[8 * i..8 * i + 4] == b[8 * i..8 * i + 8][..4];
    assert b[8 * i + 4..8 * i + 8] == b[8 * i..8 * i + 8][4..];
  }

  /** The encoder refuses exactly the vectors holding an index outside [0, 2^32 - 2]
      or a NaN or infinite weight. */
  lemma EncodingFailsIff(s: SparseEntries)
    ensures Encoding(s).Err? <==>
      exists i :: 0 <= i < |s| && (!ValidIndex(s[i].0) || !IsFinite(s[i].1))
    ensures Encoding(s).Err? ==>
      Encoding(s).error == SparseIndexOutOfRange || Encoding(s).error == SparseValueNotFinite
  {
  }

  /** Record `j` of the encoding reads back as entry `j`. */
  lemma RecordReadsBack(s: SparseEntries, j: nat)
    requires ValidEntries(s)
    requires j < |s|
    ensures 8 * j + 8 <= |Records(s)|
    ensures ReadRecord(Records(s), j) == s[j]
  {
    var b := Records(s);
    RecordAt(s, j);
    assert b[8 * j..8 * j + 4] == Record(s[j])[..4];
    assert b[8 * j + 4..8 * j + 8] == Record(s[j])[4..];
    FromLe32OfLe32(s[j].0);
    FromLe32OfLe32(s[j].1);
  }

  /** Reading the records of an encoding gives back the entries, in order. */
  lemma ReadRecordsOfRecords(s: SparseEntries)
    requires ValidEntries(s)
    ensures ReadRecords(Records(s), |s|) == s
  {
    var b := Records(s);
    var r := ReadRecords(b, |s|);
    forall j | 0 <= j < |s| ensures r[j] == s[j] {
      ReadRecordsAt(b, |s|, j);
      RecordReadsBack(s, j);
    }
  }

  /** Round trip: decoding the encoding of a valid sparse vector gives it back. */
  lemma DecodeEncodeRoundTrip(s: SparseEntries)
    requires Ascending(s) && ValidEntries(s)
    ensures Encoding(s).Ok?
    ensures Decoding(Encoding(s).value) == s
  {
    var b := Records(s);
    assert Encoding(s) == Ok(b);
    assert |b| / 8 == |s|;
    ReadRecordsOfRecords(s);
    assert [] + s == s;
    PutAllAscending([], s);
  }

  /** Whatever the bytes, the decoder yields a TreeMap: keys strictly ascending. */
  lemma DecodingAscending(buf: seq<Byte>)
    ensures Ascending(Decoding(buf))
  {
    PutAllKeepsAscending([], ReadRecords(buf, |buf| / 8));
  }

  /** The decoder reads floor(|buf| / 8) records and ignores the bytes after them. */
  lemma DecodeIgnoresTrailingBytes(buf: seq<Byte>, extra: seq<Byte>)
    requires |buf| % 8 == 0
    requires |extra| < 8
    ensures Decoding(buf + extra) == Decoding(buf)
  {
    var n := |buf| / 8;
    var all := buf + extra;
    assert |all| / 8 == n;
    var ra := ReadRecords(all, n);
    var rb := ReadRecords(buf, n);
    forall j | 0 <= j < n ensures ra[j] == rb[j] {
      ReadRecordsAt(all, n, j);
      ReadRecordsAt(buf, n, j);
      assert all[8 * j..8 * j + 4] == buf[8 * j..8 * j + 4];
      assert all[8 * j + 4..8 * j + 8] == buf[8 * j + 4..8 * j + 8];
    }
    assert ra == rb;
  }

  /** A SparseFloatArray wire message: the batch "dim" and one blob per vector. */
  datatype SparseFloatArray = SparseFloatArray(dim: int, contents: seq<seq<Byte>>)

  /** What genSparseFloatArray produces for the first |objects| vectors. */
  function SparseArrayOf(objects: seq<Obj>): Result<SparseFloatArray>
  {
    if objects == [] then Ok(SparseFloatArray(0, []))
    else
      match SparseArrayOf(objects[..|objects| - 1])
      case Err(e) => Err(e)
      case Ok(a) =>
        var o := objects[|objects| - 1];
        if !o.JSortedMap? then Err(IllegalValueType)
        else
          match Encoding(o.entries)
          case Err(e) => Err(e)
          case Ok(b) =>
            Ok(SparseFloatArray(if a.dim < |o.entries| then |o.entries| else a.dim, a.contents + [b]))
  }

  /** genSparseFloatArray: encode every vector of a column; dim is the running maximum
      of the entry counts. */
  method GenSparseFloatArray(objects: seq<Obj>) returns (r: Result<SparseFloatArray>)
    ensures r == SparseArrayOf(objects)
  {
    var dim := 0;
    var contents: seq<seq<Byte>> := [];
    var i := 0;
    while i < |objects|
      invariant 0 <= i <= |objects|
      invariant SparseArrayOf(objects[..i]) == Ok(SparseFloatArray(dim, contents))
    {
      assert objects[..i + 1][..i] == objects[..i];
      var obj := objects[i];
      if !obj.JSortedMap? {
        assert SparseArrayOf(objects[..i + 1]).Err?;
        SparseArrayPrefixFails(objects, i + 1);
        return Err(IllegalValueType);
      }
      var sparse := obj.entries;
      dim := if dim < |sparse| then |sparse| else dim;
      var buf := EncodeSparseFloatVector(sparse);
      if buf.Err? {
        SparseArrayPrefixFails(objects, i + 1);
        return Err(buf.error);
      }
      contents := contents + [buf.value];
      i := i + 1;
    }
    assert objects[..i] == objects;
    r := Ok(SparseFloatArray(dim, contents));
  }

  /** Once a prefix of the column fails, the whole column fails with the same error. */
  lemma {:induction false} SparseArrayPrefixFails(objects: seq<Obj>, n: nat)
    requires n <= |objects|
    requires SparseArrayOf(objects[..n]).Err?
    ensures SparseArrayOf(objects) == SparseArrayOf(objects[..n])
    decreases |objects| - n
  {
    if n < |objects| {
      assert objects[..n + 1][..n] == objects[..n];
      SparseArrayPrefixFails(objects, n + 1);
    } else {
      assert objects[..n] == objects;
    }
  }

  /** A successful batch holds one encoding per vector, in column order. */
  lemma {:induction false} SparseArrayContents(objects: seq<Obj>)
    requires SparseArrayOf(objects).Ok?
    ensures |SparseArrayOf(objects).value.contents| == |objects|
    ensures forall i :: 0 <= i < |objects| ==>
      objects[i].JSortedMap? && Encoding(objects[i].entries) == Ok(SparseArrayOf(objects).value.contents[i])
  {
    if objects != [] {
      var n := |objects|;
      var p := objects[..n - 1];
      SparseArrayContents(p);
      var a := SparseArrayOf(p).value;
      var o := objects[n - 1];
      var c := SparseArrayOf(objects).value.contents;
      assert c == a.contents + [Encoding(o.entries).value];
      forall i | 0 <= i < n ensures objects[i].JSortedMap? && Encoding(objects[i].entries) == Ok(c[i]) {
        if i < n - 1 {
          assert objects[i] == p[i];
        }
      }
    }
  }

  /** The dim of a successful batch is the largest entry count in it (0 for an empty
      batch): no vector has more entries, and one has exactly that many. */
  lemma {:induction false} SparseArrayDim(objects: seq<Obj>)
    requires SparseArrayOf(objects).Ok?
    ensures forall i :: 0 <= i < |objects| ==>
      objects[i].JSortedMap? && |objects[i].entries| <= SparseArrayOf(objects).value.dim
    ensures objects == [] ==> SparseArrayOf(objects).value.dim == 0
    ensures objects != [] ==>
      exists i :: 0 <= i < |objects| && SparseArrayOf(objects).value.dim == |objects[i].entries|
  {
    if objects != [] {
      var n := |objects|;
      var p := objects[..n - 1];
      SparseArrayDim(p);
      var d := SparseArrayOf(p).value.dim;
      var o := objects[n - 1];
      var dim := SparseArrayOf(objects).value.dim;
      assert o.JSortedMap? && dim == if d < |o.entries| then |o.entries| else d;
      forall i | 0 <= i < n - 1 ensures objects[i] == p[i] { }
      if p != [] && dim == d {
        var j :| 0 <= j < |p| && d == |p[j].entries|;
        assert objects[j] == p[j];
      }
    }
  }
}
