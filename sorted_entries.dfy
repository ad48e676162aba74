/** A java.util.TreeMap with long keys, kept as its entry sequence in ascending key
    order: iterating entrySet() visits exactly this sequence. */
module SortedEntries {

  /** Keys strictly increase along the sequence (a SortedMap has unique keys). */
  predicate Ascending<V>(e: seq<(int, V)>)
  {
    forall i, j :: 0 <= i < j < |e| ==> e[i].0 < e[j].0
  }

  function KeySet<V>(e: seq<(int, V)>): set<int>
  {
    set i | 0 <= i < |e| :: e[i].0
  }

  /** The map the entries denote. */
  function ToMap<V>(e: seq<(int, V)>): map<int, V>
  {
    if e == [] then map[] else ToMap(e[1..])[e[0].0 := e[0].1]
  }

  /** TreeMap.put: insert `k` before the first larger key, replacing the value of an
      equal key. */
  function Put<V>(e: seq<(int, V)>, k: int, v: V): seq<(int, V)>
  {
    if e == [] then
      [(k, v)]
    else if k < e[0].0 then
      [(k, v)] + e
    else if k == e[0].0 then
      [(k, v)] + e[1..]
    else
      [e[0]] + Put(e[1..], k, v)
  }

  /** A put keeps only old entries and the new one. */
  lemma {:induction false} PutFrom<V>(e: seq<(int, V)>, k: int, v: V)
    ensures forall p :: p in Put(e, k, v) ==> p in e || p == (k, v)
  {
    if e != [] && k > e[0].0 {
      PutFrom(e[1..], k, v);
      forall p | p in Put(e, k, v) ensures p in e || p == (k, v) {
        if p != e[0] {
          assert p in Put(e[1..], k, v);
        }
      }
    }
  }

  /** A put keeps the keys ascending. */
  lemma {:induction false} PutAscending<V>(e: seq<(int, V)>, k: int, v: V)
    requires Ascending(e)
    ensures Ascending(Put(e, k, v))
  {
    if e != [] && k > e[0].0 {
      var rest := Put(e[1..], k, v);
      PutAscending(e[1..], k, v);
      PutFrom(e[1..], k, v);
      forall i | 0 <= i < |rest| ensures e[0].0 < rest[i].0 {
        assert rest[i] in rest;
      }
    }
  }

  /** The entries after a put denote the old map with `k` bound to `v`. */
  lemma {:induction false} PutDenotes<V>(e: seq<(int, V)>, k: int, v: V)
    ensures ToMap(Put(e, k, v)) == ToMap(e)[k := v]
  {
    if e == [] {
    } else if k < e[0].0 {
      assert ([(k, v)] + e)[1..] == e;
    } else if k == e[0].0 {
      assert ([(k, v)] + e[1..])[1..] == e[1..];
    } else {
      var rest := Put(e[1..], k, v);
      assert ([e[0]] + rest)[1..] == rest;
      PutDenotes(e[1..], k, v);
      assert ToMap(e[1..])[k := v][e[0].0 := e[0].1] == ToMap(e[1..])[e[0].0 := e[0].1][k := v];
    }
  }

  /** Putting a key larger than every present key appends it: the case a decoder
      meets when reading entries back in the ascending order they were written. */
  lemma {:induction false} PutGreatest<V>(e: seq<(int, V)>, k: int, v: V)
    requires Ascending(e)
    requires forall i :: 0 <= i < |e| ==> e[i].0 < k
    ensures Put(e, k, v) == e + [(k, v)]
  {
    if e != [] {
      PutGreatest(e[1..], k, v);
      assert [e[0]] + (e[1..] + [(k, v)]) == e + [(k, v)];
    }
  }

  /** Putting the entries of `raws` into `e` one after another, first to last. */
  function PutAll<V>(e: seq<(int, V)>, raws: seq<(int, V)>): seq<(int, V)>
    decreases |raws|
  {
    if raws == [] then e else PutAll(Put(e, raws[0].0, raws[0].1), raws[1..])
  }

  /** Putting already ascending entries after smaller keys only appends them. */
  lemma {:induction false} PutAllAscending<V>(e: seq<(int, V)>, raws: seq<(int, V)>)
    requires Ascending(e + raws)
    ensures PutAll(e, raws) == e + raws
    decreases |raws|
  {
    if raws != [] {
      var all := e + raws;
      var r := raws[0];
      assert all[|e|] == r;
      assert Ascending(e) by {
        forall i, j | 0 <= i < j < |e| ensures e[i].0 < e[j].0 {
          assert all[i] == e[i] && all[j] == e[j];
        }
      }
      forall i | 0 <= i < |e| ensures e[i].0 < r.0 {
        assert all[i] == e[i];
      }
      PutGreatest(e, r.0, r.1);
      assert (e + [r]) + raws[1..] == all;
      PutAllAscending(e + [r], raws[1..]);
    }
  }

  /** A run of puts keeps the keys ascending. */
  lemma {:induction false} PutAllKeepsAscending<V>(e: seq<(int, V)>, raws: seq<(int, V)>)
    requires Ascending(e)
    ensures Ascending(PutAll(e, raws))
    decreases |raws|
  {
    if raws != [] {
      PutAscending(e, raws[0].0, raws[0].1);
      PutAllKeepsAscending(Put(e, raws[0].0, raws[0].1), raws[1..]);
    }
  }
}
