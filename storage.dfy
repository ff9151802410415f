/** `LocalStorageService`: browser storage behind JSON, as an abstract map from keys to the
    integer lists the components store in it (lists of CRNs, display orders). A missing key
    reads as `null`. */
module Storage {
  import opened Seqs

  class LocalStorage {
    /** The stored values by key. */
    var store: map<string, seq<int>>

    /** A fresh store, as left by `clear()`. */
    constructor()
      ensures store == map[]
    {
      store := map[];
    }

    /** What `get(key)` yields: the stored list, or `null` when the key is absent. */
    function Lookup(key: string): (r: Option<seq<int>>)
      reads this
      ensures r.Some? <==> key in store
      ensures r.Some? ==> r.value == store[key]
    {
      if key in store then Some(store[key]) else None
    }

    /** `get(key)`. */
    method Get(key: string) returns (r: Option<seq<int>>)
      ensures r == Lookup(key)
    {
      if key in store {
        r := Some(store[key]);
      } else {
        r := None;
      }
    }

    /** `set(key, value)`: an array is truthy, so it is always stored as itself. */
    method Set(key: string, value: seq<int>)
      modifies this
      ensures store == old(store)[key := value]
    {
      store := store[key := value];
    }
  }
}
