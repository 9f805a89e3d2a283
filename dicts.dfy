/**
 * JavaScript plain objects used as dictionaries. A `for-in` loop or
 * `Object.keys` visits string keys in insertion order, so a dictionary is
 * an association list; assigning to an existing key keeps its position.
 */
module Dicts {
  import opened Options

  type Dict<V> = seq<(string, V)>

  /** The keys in iteration order. */
  function Keys<V>(d: Dict<V>): (ks: seq<string>)
    ensures |ks| == |d|
    ensures forall i :: 0 <= i < |d| ==> ks[i] == d[i].0
  {
    if |d| == 0 then [] else [d[0].0] + Keys(d[1..])
  }

  /** Every key occurs once (always true of a JavaScript object). */
  predicate UniqueKeys<V>(d: Dict<V>) {
    forall i, j :: 0 <= i < j < |d| ==> d[i].0 != d[j].0
  }

  /** `obj[k]` for an own property: the value bound to `k`, if any. */
  function Lookup<V>(d: Dict<V>, k: string): (r: Option<V>)
    ensures r.Some? <==> k in Keys(d)
    ensures r.Some? ==> (k, r.value) in d
  {
    if |d| == 0 then None
    else if d[0].0 == k then Some(d[0].1)
    else Lookup(d[1..], k)
  }

  /** `obj[k] = v`: an existing key is overwritten in place, a new key is appended. */
  function Put<V>(d: Dict<V>, k: string, v: V): (r: Dict<V>)
    ensures k in Keys(d) ==> Keys(r) == Keys(d)
    ensures k !in Keys(d) ==> r == d + [(k, v)]
  {
    if |d| == 0 then [(k, v)]
    else if d[0].0 == k then [(k, v)] + d[1..]
    else
      assert Keys(d) == [d[0].0] + Keys(d[1..]);
      [d[0]] + Put(d[1..], k, v)
  }

  /** After `obj[k] = v`, reading `k` gives `v` and every other key reads as before. */
  lemma {:induction false} LookupPut<V>(d: Dict<V>, k: string, v: V, k': string)
    ensures Lookup(Put(d, k, v), k') == if k' == k then Some(v) else Lookup(d, k')
  {
    if |d| > 0 && d[0].0 != k {
      LookupPut(d[1..], k, v, k');
      assert Put(d, k, v)[1..] == Put(d[1..], k, v);
    }
  }

  /** Assignment keeps the keys of a JavaScript object unique. */
  lemma PutUnique<V>(d: Dict<V>, k: string, v: V)
    requires UniqueKeys(d)
    ensures UniqueKeys(Put(d, k, v))
  {
    var r := Put(d, k, v);
    if k in Keys(d) {
      assert forall i :: 0 <= i < |r| ==> r[i].0 == Keys(r)[i] == Keys(d)[i] == d[i].0;
    } else {
      assert forall i :: 0 <= i < |d| ==> d[i].0 != k by {
        forall i | 0 <= i < |d| ensures d[i].0 != k { assert Keys(d)[i] == d[i].0; }
      }
    }
  }

  /** In a dictionary with unique keys, lookup finds the value stored at any position. */
  lemma {:induction false} LookupAt<V>(d: Dict<V>, i: nat)
    requires UniqueKeys(d) && i < |d|
    ensures Lookup(d, d[i].0) == Some(d[i].1)
  {
    if i > 0 {
      assert UniqueKeys(d[1..]) by {
        forall a, b | 0 <= a < b < |d[1..]| ensures d[1..][a].0 != d[1..][b].0 {
          assert d[1..][a] == d[a + 1] && d[1..][b] == d[b + 1];
        }
      }
      assert d[0].0 != d[i].0;
      LookupAt(d[1..], i - 1);
    }
  }

  /** Assigning each entry in turn, as a loop of `obj[k] = v` statements does. */
  function PutAll<V>(d: Dict<V>, entries: seq<(string, V)>): Dict<V> {
    if |entries| == 0 then d
    else
      var last := entries[|entries| - 1];
      Put(PutAll(d, entries[..|entries| - 1]), last.0, last.1)
  }

  /** Assigning entries one by one keeps the keys unique. */
  lemma {:induction false} PutAllUnique<V>(d: Dict<V>, entries: seq<(string, V)>)
    requires UniqueKeys(d)
    ensures UniqueKeys(PutAll(d, entries))
  {
    if |entries| > 0 {
      var last := entries[|entries| - 1];
      PutAllUnique(d, entries[..|entries| - 1]);
      PutUnique(PutAll(d, entries[..|entries| - 1]), last.0, last.1);
    }
  }

  /** The value of the last entry with key `k`, if there is one. */
  function LastBinding<V>(entries: seq<(string, V)>, k: string): (r: Option<V>)
    ensures r.Some? ==> (k, r.value) in entries
    ensures r.None? ==> forall i :: 0 <= i < |entries| ==> entries[i].0 != k
  {
    if |entries| == 0 then None
    else if entries[|entries| - 1].0 == k then Some(entries[|entries| - 1].1)
    else LastBinding(entries[..|entries| - 1], k)
  }

  /** After a run of assignments a key holds the value assigned last, or its old value. */
  lemma {:induction false} LookupPutAll<V>(d: Dict<V>, entries: seq<(string, V)>, k: string)
    ensures Lookup(PutAll(d, entries), k) ==
      match LastBinding(entries, k) case Some(v) => Some(v) case None => Lookup(d, k)
  {
    if |entries| > 0 {
      var last := entries[|entries| - 1];
      LookupPut(PutAll(d, entries[..|entries| - 1]), last.0, last.1, k);
      LookupPutAll(d, entries[..|entries| - 1], k);
    }
  }

  /** `delete obj[k]`: the binding of `k` goes, the other keys keep their order. */
  function Remove<V>(d: Dict<V>, k: string): (r: Dict<V>)
    ensures k !in Keys(r)
    ensures |r| <= |d|
  {
    if |d| == 0 then []
    else if d[0].0 == k then Remove(d[1..], k)
    else
      var rest := Remove(d[1..], k);
      assert Keys([d[0]] + rest) == [d[0].0] + Keys(rest);
      [d[0]] + rest
  }

  /** After `delete obj[k]`, reading `k` finds nothing and every other key reads as before. */
  lemma {:induction false} LookupRemove<V>(d: Dict<V>, k: string, k': string)
    ensures Lookup(Remove(d, k), k') == if k' == k then None else Lookup(d, k')
  {
    if |d| > 0 {
      LookupRemove(d[1..], k, k');
      if d[0].0 != k {
        assert Remove(d, k)[1..] == Remove(d[1..], k);
      }
    }
  }
}
