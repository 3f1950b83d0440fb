/**
 * The browser's Web Storage objects (`localStorage`, `sessionStorage`):
 * a mutable map from keys to stored values with getItem, setItem,
 * removeItem and clear.
 */
module Storage {
  import opened Wrappers

  class KeyValueStore<V> {
    var items: map<string, V>

    constructor ()
      ensures items == map[]
    {
      items := map[];
    }

    /** `getItem(key)`: the stored value, or `None` where the browser answers null. */
    function GetItem(key: string): (r: Option<V>)
      reads this
      ensures r.Some? <==> key in items
      ensures r.Some? ==> r.value == items[key]
    {
      if key in items then Some(items[key]) else None
    }

    method SetItem(key: string, value: V)
      modifies this
      ensures items == old(items)[key := value]
    {
      items := items[key := value];
    }

    method RemoveItem(key: string)
      modifies this
      ensures items == old(items) - {key}
    {
      items := items - {key};
    }

    method Clear()
      modifies this
      ensures items == map[]
    {
      items := map[];
    }
  }
}
