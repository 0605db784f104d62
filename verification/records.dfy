/** The record sent to the store: a Python `dict` from API name to value,
    kept as a list of entries in insertion order. */
module Records {
  import opened Common
  import opened Values

  datatype Entry = Entry(key: string, val: Value)

  type Record = seq<Entry>

  function Keys(r: Record): set<string> {
    set e | e in r :: e.key
  }

  predicate UniqueKeys(r: Record) {
    forall i, j :: 0 <= i < j < |r| ==> r[i].key != r[j].key
  }

  lemma ConsKeys(e: Entry, r: Record)
    ensures Keys([e] + r) == {e.key} + Keys(r)
    ensures UniqueKeys([e] + r) <==> UniqueKeys(r) && e.key !in Keys(r)
  {
    var c := [e] + r;
    assert forall x :: x in c <==> x == e || x in r;
    if UniqueKeys(c) {
      forall i, j | 0 <= i < j < |r| ensures r[i].key != r[j].key {
        assert c[i + 1] == r[i] && c[j + 1] == r[j];
      }
      forall x | x in r ensures x.key != e.key {
        var j :| 0 <= j < |r| && r[j] == x;
        assert c[0] == e && c[j + 1] == x;
      }
    }
    if UniqueKeys(r) && e.key !in Keys(r) {
      forall i, j | 0 <= i < j < |c| ensures c[i].key != c[j].key {
        assert c[j] == r[j - 1];
        if i > 0 { assert c[i] == r[i - 1]; }
      }
    }
  }

  /** `record.get(k)`: the value stored under `k`, `None` for a missing key. */
  function Get(r: Record, k: string): (v: Option<Value>)
    ensures v.None? <==> k !in Keys(r)
    ensures v.Some? ==> Entry(k, v.value) in r
    decreases |r|
  {
    if r == [] then None
    else
      assert r == [r[0]] + r[1..];
      ConsKeys(r[0], r[1..]);
      if r[0].key == k then Some(r[0].val) else Get(r[1..], k)
  }

  /** `record[k] = v`: a new key goes at the end, an existing one keeps its
      place and takes the new value. */
  function Put(r: Record, k: string, v: Value): (r': Record)
    ensures k !in Keys(r) ==> r' == r + [Entry(k, v)]
    decreases |r|
  {
    if r == [] then [Entry(k, v)]
    else if r[0].key == k then [Entry(k, v)] + r[1..]
    else
      assert r == [r[0]] + r[1..];
      ConsKeys(r[0], r[1..]);
      [r[0]] + Put(r[1..], k, v)
  }

  /** After `record[k] = v` the key set has gained exactly `k`. */
  lemma {:induction false} PutKeys(r: Record, k: string, v: Value)
    ensures Keys(Put(r, k, v)) == Keys(r) + {k}
    decreases |r|
  {
    if r != [] {
      assert r == [r[0]] + r[1..];
      ConsKeys(r[0], r[1..]);
      if r[0].key == k {
        ConsKeys(Entry(k, v), r[1..]);
      } else {
        PutKeys(r[1..], k, v);
        ConsKeys(r[0], Put(r[1..], k, v));
      }
    }
  }

  /** After `record[k] = v`, `k` maps to `v` and every other key keeps its
      value. */
  lemma {:induction false} PutGet(r: Record, k: string, v: Value)
    ensures Get(Put(r, k, v), k) == Some(v)
    ensures forall k' :: k' != k ==> Get(Put(r, k, v), k') == Get(r, k')
    decreases |r|
  {
    if r != [] && r[0].key != k {
      var rest := Put(r[1..], k, v);
      PutGet(r[1..], k, v);
      assert Put(r, k, v) == [r[0]] + rest;
      assert ([r[0]] + rest)[1..] == rest;
    }
  }

  /** `record[k] = v` never makes two entries share a key. */
  lemma {:induction false} PutUnique(r: Record, k: string, v: Value)
    requires UniqueKeys(r)
    ensures UniqueKeys(Put(r, k, v))
    decreases |r|
  {
    if r != [] {
      assert r == [r[0]] + r[1..];
      ConsKeys(r[0], r[1..]);
      if r[0].key == k {
        ConsKeys(Entry(k, v), r[1..]);
      } else {
        PutUnique(r[1..], k, v);
        PutKeys(r[1..], k, v);
        ConsKeys(r[0], Put(r[1..], k, v));
      }
    }
  }

  /** The dictionary a sequence of optional assignments builds: each
      `(key, Some(v))` is stored, each `(key, None)` is passed over. */
  function Collect(pairs: seq<(string, Option<Value>)>): (r: Record)
    ensures UniqueKeys(r)
    decreases |pairs|
  {
    if pairs == [] then []
    else
      var (k, ov) := pairs[|pairs| - 1];
      var prev := Collect(pairs[..|pairs| - 1]);
      if ov.Some? then PutUnique(prev, k, ov.value); Put(prev, k, ov.value) else prev
  }

  /** Some pair assigns a value to `k`. */
  predicate Assigns(pairs: seq<(string, Option<Value>)>, k: string) {
    exists i :: 0 <= i < |pairs| && pairs[i].0 == k && pairs[i].1.Some?
  }

  /** The keys collected are exactly the keys paired with a value. */
  lemma {:induction false} CollectKeys(pairs: seq<(string, Option<Value>)>)
    ensures forall k :: k in Keys(Collect(pairs)) <==> Assigns(pairs, k)
    decreases |pairs|
  {
    if pairs != [] {
      var n := |pairs| - 1;
      var prefix := pairs[..n];
      CollectKeys(prefix);
      var prev := Collect(prefix);
      if pairs[n].1.Some? {
        PutKeys(prev, pairs[n].0, pairs[n].1.value);
      }
      forall k ensures k in Keys(Collect(pairs)) <==> Assigns(pairs, k) {
        if Assigns(prefix, k) {
          var i :| 0 <= i < n && prefix[i].0 == k && prefix[i].1.Some?;
          assert pairs[i] == prefix[i];
        }
        if Assigns(pairs, k) {
          var i :| 0 <= i < |pairs| && pairs[i].0 == k && pairs[i].1.Some?;
          if i < n { assert prefix[i] == pairs[i]; }
        }
      }
    }
  }

  /** No two pairs name the same key. */
  predicate DistinctKeys(pairs: seq<(string, Option<Value>)>) {
    forall a, b :: 0 <= a < b < |pairs| ==> pairs[a].0 != pairs[b].0
  }

  /** When no two pairs share a key, each key's value is the one it was
      paired with: nothing is merged or overwritten. */
  lemma {:induction false} CollectGet(pairs: seq<(string, Option<Value>)>, i: nat)
    requires i < |pairs| && DistinctKeys(pairs)
    ensures Get(Collect(pairs), pairs[i].0) == pairs[i].1
    decreases |pairs|
  {
    var n := |pairs| - 1;
    var prefix := pairs[..n];
    var prev := Collect(prefix);
    assert DistinctKeys(prefix);
    if pairs[n].1.Some? {
      PutGet(prev, pairs[n].0, pairs[n].1.value);
    }
    if i < n {
      CollectGet(prefix, i);
      assert prefix[i] == pairs[i];
    } else if pairs[n].1.None? {
      CollectKeys(prefix);
      assert !Assigns(prefix, pairs[n].0);
    }
  }

  /** With distinct keys the record is the assigned pairs, in order. */
  lemma {:induction false} CollectInOrder(pairs: seq<(string, Option<Value>)>)
    requires DistinctKeys(pairs)
    ensures Collect(pairs) == Assigned(pairs)
    decreases |pairs|
  {
    if pairs != [] {
      var n := |pairs| - 1;
      var prefix := pairs[..n];
      assert DistinctKeys(prefix);
      CollectInOrder(prefix);
      if pairs[n].1.Some? {
        CollectKeys(prefix);
        assert !Assigns(prefix, pairs[n].0);
      }
    }
  }

  /** The entries of the pairs that carry a value, in order. */
  function Assigned(pairs: seq<(string, Option<Value>)>): seq<Entry>
    decreases |pairs|
  {
    if pairs == [] then []
    else
      var n := |pairs| - 1;
      Assigned(pairs[..n]) + (if pairs[n].1.Some? then [Entry(pairs[n].0, pairs[n].1.value)] else [])
  }

  /** The entries printed after a successful upload: all but `skip`'s. */
  function ShownEntries(r: Record, skip: string): (shown: Record)
    ensures forall e :: e in shown <==> e in r && e.key != skip
    ensures |shown| <= |r|
    decreases |r|
  {
    if r == [] then []
    else (if r[0].key != skip then [r[0]] else []) + ShownEntries(r[1..], skip)
  }

  /** Writes a record to the store entry with the given id; false when the
      call raises. */
  type Update = (string, Record) -> bool

  /** How an upload step ends: written (with the entries printed after
      it), attempted once and failed, declined, or never answered. */
  datatype UploadOutcome =
    | Uploaded(eid: string, record: Record, shown: Record)
    | UploadFailed(record: Record)
    | Declined
    | Undecided
}
