/** Python dictionaries with string keys, as the toolkit uses them: lookups by
    key, and iteration in insertion order (assigning to a key already present
    keeps its place; a new key goes to the end). */
module Dict {
  import opened Common

  /** The entries in insertion order. */
  type Table<V> = seq<(string, V)>

  function Keys<V>(t: Table<V>): (ks: seq<string>)
    ensures |ks| == |t| && forall i :: 0 <= i < |t| ==> ks[i] == t[i].0
  {
    if t == [] then [] else [t[0].0] + Keys(t[1..])
  }

  /** No key appears twice: what every dictionary satisfies. */
  predicate Distinct<V>(t: Table<V>) {
    forall i, j :: 0 <= i < j < |t| ==> t[i].0 != t[j].0
  }

  /** `d.get(k, None)`. */
  function Find<V>(t: Table<V>, k: string): (r: Option<V>)
    ensures r.None? <==> k !in Keys(t)
    ensures r.Some? ==> (k, r.value) in t
  {
    if t == [] then None
    else if t[0].0 == k then Some(t[0].1)
    else Find(t[1..], k)
  }

  /** `d[k] = v`: the value is replaced in place, or the entry appended. */
  function Put<V>(t: Table<V>, k: string, v: V): (r: Table<V>)
  {
    if t == [] then [(k, v)]
    else if t[0].0 == k then [(k, v)] + t[1..]
    else [t[0]] + Put(t[1..], k, v)
  }

  /** `d.pop(k, None)`: the entry is dropped; an absent key is no error. */
  function Remove<V>(t: Table<V>, k: string): (r: Table<V>)
    ensures |r| <= |t|
  {
    if t == [] then []
    else if t[0].0 == k then Remove(t[1..], k)
    else [t[0]] + Remove(t[1..], k)
  }

  /** After `d[k] = v`, `d[k]` is v and every other key keeps its value. */
  lemma {:induction false} FindPut<V>(t: Table<V>, k: string, v: V, other: string)
    ensures Find(Put(t, k, v), k) == Some(v)
    ensures other != k ==> Find(Put(t, k, v), other) == Find(t, other)
  {
    if t != [] && t[0].0 != k {
      FindPut(t[1..], k, v, other);
      assert Put(t, k, v)[1..] == Put(t[1..], k, v);
    }
  }

  /** Assigning keeps the insertion order: a key already present stays in
      its place, a new key comes last. */
  lemma {:induction false} PutKeys<V>(t: Table<V>, k: string, v: V)
    ensures Keys(Put(t, k, v)) == if k in Keys(t) then Keys(t) else Keys(t) + [k]
  {
    if t != [] && t[0].0 != k {
      PutKeys(t[1..], k, v);
      assert Keys(t) == [t[0].0] + Keys(t[1..]);
      assert Keys(Put(t, k, v)) == [t[0].0] + Keys(Put(t[1..], k, v));
    } else if t != [] {
      assert Keys(Put(t, k, v)) == [k] + Keys(t[1..]);
    }
  }

  /** Assigning keeps the keys distinct. */
  lemma PutDistinct<V>(t: Table<V>, k: string, v: V)
    requires Distinct(t)
    ensures Distinct(Put(t, k, v))
  {
    PutKeys(t, k, v);
    var r := Put(t, k, v);
    var ks := Keys(r);
    forall i, j | 0 <= i < j < |r|
      ensures r[i].0 != r[j].0
    {
      assert ks[i] == r[i].0 && ks[j] == r[j].0;
      if k in Keys(t) {
        assert ks == Keys(t);
      } else {
        assert ks == Keys(t) + [k];
        if j == |t| {
          assert ks[i] == Keys(t)[i];
        }
      }
    }
  }

  /** After `d.pop(k)`, k is gone and every other key keeps its value. */
  lemma {:induction false} FindRemove<V>(t: Table<V>, k: string, other: string)
    ensures Find(Remove(t, k), k) == None
    ensures other != k ==> Find(Remove(t, k), other) == Find(t, other)
  {
    if t != [] {
      FindRemove(t[1..], k, other);
      if t[0].0 != k {
        assert Remove(t, k)[1..] == Remove(t[1..], k);
      }
    }
  }

  /** Popping an absent key changes nothing. */
  lemma {:induction false} RemoveAbsent<V>(t: Table<V>, k: string)
    requires Find(t, k) == None
    ensures Remove(t, k) == t
  {
    if t != [] {
      RemoveAbsent(t[1..], k);
    }
  }

  /** Popping keeps the order of the remaining keys and their distinctness. */
  lemma {:induction false} RemoveDistinct<V>(t: Table<V>, k: string)
    requires Distinct(t)
    ensures Distinct(Remove(t, k))
    ensures forall e :: e in Remove(t, k) ==> e in t && e.0 != k
    ensures forall e :: e in t && e.0 != k ==> e in Remove(t, k)
  {
    if t != [] {
      RemoveDistinct(t[1..], k);
      if t[0].0 != k {
        var r := [t[0]] + Remove(t[1..], k);
        forall i, j | 0 <= i < j < |r|
          ensures r[i].0 != r[j].0
        {
          if i == 0 {
            var e := r[j];
            assert e in Remove(t[1..], k);
            assert e in t[1..];
            var m :| 0 <= m < |t| - 1 && t[1..][m] == e;
            assert t[m + 1] == e;
          }
        }
      }
    }
  }
}
