/** JSON values and insertion-ordered dictionaries. */
module Dicts {

  datatype Json =
    | JNull
    | JBool(b: bool)
    | JInt(n: int)
    | JReal(r: real)
    | JStr(s: string)
    | JList(items: seq<Json>)
    | JDict(entries: map<string, Json>)

  /** Python's truth value of a JSON value. */
  predicate Truthy(v: Json) {
    match v
    case JNull => false
    case JBool(b) => b
    case JInt(n) => n != 0
    case JReal(r) => r != 0.0
    case JStr(s) => s != ""
    case JList(items) => items != []
    case JDict(entries) => entries != map[]
  }

  datatype Entry<+V> = Entry(key: string, value: V)

  /** A dictionary in insertion order. */
  type Dict<+V> = seq<Entry<V>>

  predicate UniqueKeys<V>(d: Dict<V>) {
    forall i, j | 0 <= i < j < |d| :: d[i].key != d[j].key
  }

  predicate HasKey<V>(d: Dict<V>, k: string) {
    exists i | 0 <= i < |d| :: d[i].key == k
  }

  /** `d[k] = v`: in place when the key is there, at the end when it is not. */
  function Put<V>(d: Dict<V>, k: string, v: V): Dict<V> {
    if d == [] then [Entry(k, v)]
    else if d[0].key == k then [Entry(k, v)] + d[1..]
    else [d[0]] + Put(d[1..], k, v)
  }

  /** `{**d, **e}`. */
  function Overlay<V>(d: Dict<V>, e: Dict<V>): Dict<V>
    decreases e
  {
    if e == [] then d else Overlay(Put(d, e[0].key, e[0].value), e[1..])
  }

  function ToMap<V>(d: Dict<V>): map<string, V> {
    if d == [] then map[] else ToMap(d[..|d| - 1])[d[|d| - 1].key := d[|d| - 1].value]
  }

  /** Each entry is in the map, and nothing else is. */
  lemma {:induction false} ToMapIs<V>(d: Dict<V>, k: string)
    requires UniqueKeys(d)
    ensures k in ToMap(d) <==> HasKey(d, k)
    ensures forall i | 0 <= i < |d| && d[i].key == k :: k in ToMap(d) && ToMap(d)[k] == d[i].value
  {
    if d != [] {
      var init := d[..|d| - 1];
      assert forall i | 0 <= i < |init| :: init[i] == d[i];
      ToMapIs(init, k);
    }
  }

  lemma HasKeyCons<V>(e: Entry<V>, d: Dict<V>, k: string)
    ensures HasKey([e] + d, k) <==> e.key == k || HasKey(d, k)
  {
    var r := [e] + d;
    if e.key == k { assert r[0].key == k; }
    if HasKey(d, k) {
      var i :| 0 <= i < |d| && d[i].key == k;
      assert r[i + 1].key == k;
    }
    if HasKey(r, k) && e.key != k {
      var i :| 0 <= i < |r| && r[i].key == k;
      assert d[i - 1].key == k;
    }
  }

  lemma {:induction false} PutHasKey<V>(d: Dict<V>, k: string, v: V, k': string)
    ensures HasKey(Put(d, k, v), k') <==> k' == k || HasKey(d, k')
  {
    if d == [] {
      assert Put(d, k, v) == [Entry(k, v)] + d;
      HasKeyCons(Entry(k, v), d, k');
    } else {
      assert d == [d[0]] + d[1..];
      HasKeyCons(d[0], d[1..], k');
      if d[0].key == k {
        HasKeyCons(Entry(k, v), d[1..], k');
      } else {
        PutHasKey(d[1..], k, v, k');
        HasKeyCons(d[0], Put(d[1..], k, v), k');
      }
    }
  }

  lemma UniqueCons<V>(e: Entry<V>, d: Dict<V>)
    requires UniqueKeys(d) && !HasKey(d, e.key)
    ensures UniqueKeys([e] + d)
  {
  }

  lemma UniqueTail<V>(d: Dict<V>)
    requires UniqueKeys(d) && d != []
    ensures UniqueKeys(d[1..]) && !HasKey(d[1..], d[0].key)
  {
  }

  lemma {:induction false} PutUnique<V>(d: Dict<V>, k: string, v: V)
    requires UniqueKeys(d)
    ensures UniqueKeys(Put(d, k, v))
  {
    if d != [] {
      UniqueTail(d);
      if d[0].key == k {
        UniqueCons(Entry(k, v), d[1..]);
      } else {
        PutUnique(d[1..], k, v);
        PutHasKey(d[1..], k, v, d[0].key);
        UniqueCons(d[0], Put(d[1..], k, v));
      }
    }
  }

  /** Every key of either side is there, once. */
  lemma {:induction false} OverlayHasKey<V>(d: Dict<V>, e: Dict<V>, k: string)
    ensures HasKey(Overlay(d, e), k) <==> HasKey(d, k) || HasKey(e, k)
    decreases e
  {
    if e != [] {
      PutHasKey(d, e[0].key, e[0].value, k);
      OverlayHasKey(Put(d, e[0].key, e[0].value), e[1..], k);
      assert e == [e[0]] + e[1..];
      HasKeyCons(e[0], e[1..], k);
    }
  }

  lemma {:induction false} OverlayUnique<V>(d: Dict<V>, e: Dict<V>)
    requires UniqueKeys(d)
    ensures UniqueKeys(Overlay(d, e))
    decreases e
  {
    if e != [] {
      PutUnique(d, e[0].key, e[0].value);
      OverlayUnique(Put(d, e[0].key, e[0].value), e[1..]);
    }
  }

  lemma {:induction false} PutKeeps<V>(d: Dict<V>, k: string, v: V, x: Entry<V>)
    requires x in d && x.key != k
    ensures x in Put(d, k, v)
  {
    if d[0].key == k {
      assert x in d[1..] by { assert d == [d[0]] + d[1..]; }
    } else if x != d[0] {
      PutKeeps(d[1..], k, v, x);
    }
  }

  lemma {:induction false} PutPuts<V>(d: Dict<V>, k: string, v: V)
    ensures Entry(k, v) in Put(d, k, v)
  {
    if d != [] && d[0].key != k {
      PutPuts(d[1..], k, v);
    }
  }

  /** The right side wins, and what it does not mention stays. */
  lemma {:induction false} OverlayKeeps<V>(d: Dict<V>, e: Dict<V>, x: Entry<V>)
    requires UniqueKeys(e)
    requires x in e || (x in d && !HasKey(e, x.key))
    ensures x in Overlay(d, e)
    decreases e
  {
    if e != [] {
      UniqueTail(e);
      assert e == [e[0]] + e[1..];
      HasKeyCons(e[0], e[1..], x.key);
      if x == e[0] {
        PutPuts(d, e[0].key, e[0].value);
      } else if x !in e {
        PutKeeps(d, e[0].key, e[0].value, x);
      }
      OverlayKeeps(Put(d, e[0].key, e[0].value), e[1..], x);
    }
  }
}
