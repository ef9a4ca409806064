/** JavaScript objects as lists of fields in insertion order. */
module JsObject {
  import opened JsText

  type Fields<+V> = seq<(string, V)>

  function Find<V>(fields: Fields<V>, key: string): (i: nat)
    ensures i <= |fields| && (i < |fields| ==> fields[i].0 == key)
    ensures i == |fields| ==> forall k :: 0 <= k < |fields| ==> fields[k].0 != key
  {
    if fields == [] then 0
    else if fields[|fields| - 1].0 == key then |fields| - 1
    else
      var i := Find(fields[..|fields| - 1], key);
      if i < |fields| - 1 then i else |fields|
  }

  function Get<V>(fields: Fields<V>, key: string): Option<V> {
    if Find(fields, key) < |fields| then Some(fields[Find(fields, key)].1) else None
  }

  function Keys<V>(fields: Fields<V>): seq<string> {
    seq(|fields|, i requires 0 <= i < |fields| => fields[i].0)
  }

  /** `fields[key] = value`: a present key keeps its place. */
  function Put<V>(fields: Fields<V>, key: string, value: V): Fields<V> {
    var i := Find(fields, key);
    if i < |fields| then fields[i := (key, value)] else fields + [(key, value)]
  }

  /** `delete fields[key]` */
  function Remove<V>(fields: Fields<V>, key: string): Fields<V> {
    var i := Find(fields, key);
    if i < |fields| then fields[..i] + fields[i + 1..] else fields
  }

  ghost predicate DistinctKeys<V>(fields: Fields<V>) {
    forall i, j :: 0 <= i < j < |fields| ==> fields[i].0 != fields[j].0
  }

  /** With distinct keys, the value of a key is that of its only entry. */
  lemma GetIs<V>(fields: Fields<V>, key: string)
    requires DistinctKeys(fields)
    ensures forall i :: 0 <= i < |fields| && fields[i].0 == key ==> Get(fields, key) == Some(fields[i].1)
    ensures Get(fields, key).None? <==> forall i :: 0 <= i < |fields| ==> fields[i].0 != key
  {
  }

  /** Putting a value changes that key alone, and no other entry. */
  lemma PutIs<V>(fields: Fields<V>, key: string, value: V)
    requires DistinctKeys(fields)
    ensures DistinctKeys(Put(fields, key, value))
    ensures forall k :: Get(Put(fields, key, value), k) == if k == key then Some(value) else Get(fields, k)
    ensures forall e :: e in Put(fields, key, value) ==> e in fields || e == (key, value)
  {
    var put, i := Put(fields, key, value), Find(fields, key);
    assert DistinctKeys(put) && i < |put| && put[i] == (key, value);
    forall k ensures Get(put, k) == if k == key then Some(value) else Get(fields, k) {
      GetIs(put, k);
      GetIs(fields, k);
      if k == key {
        assert put[i].0 == k;
      } else {
        var j := Find(fields, k);
        if j < |fields| {
          assert j != i && put[j] == fields[j];
        } else {
          assert forall n :: 0 <= n < |put| && n != i ==> put[n] == fields[n];
        }
      }
    }
  }

  /** A new key goes to the end. */
  lemma PutNew<V>(fields: Fields<V>, key: string, value: V)
    requires forall i :: 0 <= i < |fields| ==> fields[i].0 != key
    ensures Put(fields, key, value) == fields + [(key, value)]
  {
  }

  /** Storing the value a key already has changes nothing. */
  lemma PutAgain<V>(fields: Fields<V>, i: nat)
    requires i < |fields| && DistinctKeys(fields)
    ensures Put(fields, fields[i].0, fields[i].1) == fields
  {
  }

  /** Putting a value replaces the entry of its key, or adds one. */
  lemma PutHolds<V>(fields: Fields<V>, key: string, value: V)
    requires DistinctKeys(fields)
    ensures DistinctKeys(Put(fields, key, value))
    ensures forall e :: e in Put(fields, key, value) <==> e == (key, value) || (e in fields && e.0 != key)
  {
    var i, put := Find(fields, key), Put(fields, key, value);
    if i < |fields| {
      assert put[i] == (key, value);
      forall e | e in fields && e.0 != key ensures e in put {
        var k :| 0 <= k < |fields| && fields[k] == e;
        assert put[k] == e;
      }
    }
  }

  /** Removing a key changes the value of no other. */
  lemma RemoveGet<V>(fields: Fields<V>, key: string, other: string)
    requires DistinctKeys(fields)
    ensures DistinctKeys(Remove(fields, key))
    ensures Get(Remove(fields, key), other) == if other == key then None else Get(fields, other)
  {
    var i, rest := Find(fields, key), Remove(fields, key);
    GetIs(fields, other);
    GetIs(rest, other);
    if i < |fields| {
      var j := Find(fields, other);
      assert forall k :: 0 <= k < |rest| ==> rest[k] == fields[if k < i then k else k + 1];
      if j < |fields| && other != key {
        assert rest[if j < i then j else j - 1] == fields[j];
      }
    }
  }
}
