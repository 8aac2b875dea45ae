/** What the server uses of Redis: keys with a value and a time to live. */
module RedisCells {
  import opened Wrappers

  datatype Cell<V> = Cell(value: V, dies: Option<real>)

  type Cells<!K, V> = map<K, Cell<V>>

  predicate Alive<V>(c: Cell<V>, now: real) {
    c.dies.None? || now < c.dies.value
  }

  function RedisGet<K, V>(cells: Cells<K, V>, key: K, now: real): Option<V> {
    if key in cells && Alive(cells[key], now) then Some(cells[key].value) else None
  }

  function RedisSet<K, V>(cells: Cells<K, V>, key: K, value: V, ex: Option<nat>, now: real): Cells<K, V> {
    cells[key := Cell(value, if ex.None? then None else Some(now + ex.value as real))]
  }

  class Redis<K(==), V> {
    var cells: Cells<K, V>

    constructor ()
      ensures cells == map[]
    {
      cells := map[];
    }

    method Get(key: K, now: real) returns (v: Option<V>)
      ensures v == RedisGet(cells, key, now)
    {
      v := if key in cells && Alive(cells[key], now) then Some(cells[key].value) else None;
    }

    method Set(key: K, value: V, ex: Option<nat>, now: real)
      modifies this
      ensures cells == RedisSet(old(cells), key, value, ex, now)
    {
      cells := cells[key := Cell(value, if ex.None? then None else Some(now + ex.value as real))];
    }

    method Delete(key: K)
      modifies this
      ensures cells == old(cells) - {key}
    {
      cells := cells - {key};
    }
  }
}
