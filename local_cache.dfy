/**
 * The in-memory `HashMap` that RedisPropertySource creates and hands to the
 * listener thread: both read and write the same object.
 */
module Cache {
  import opened Common

  class LocalCache {
    var entries: map<string, string>

    constructor ()
      ensures entries == map[]
    {
      entries := map[];
    }

    /** `get`: the cached value of `key`, or `null`. */
    function Get(key: string): (r: Option<string>)
      reads this
      ensures r.Some? <==> key in entries
      ensures r.Some? ==> r.value == entries[key]
    {
      Lookup(entries, key)
    }

    /** `containsKey`. */
    predicate ContainsKey(key: string): (b: bool)
      reads this
      ensures b <==> Get(key).Some?
    {
      key in entries
    }

    /** `put`: sets `key` whether or not it was present. */
    method Put(key: string, value: string)
      modifies this
      ensures entries == old(entries)[key := value]
    {
      entries := entries[key := value];
    }

    /** `replace`: sets `key` only when it is already present. */
    method Replace(key: string, value: string)
      modifies this
      ensures key in old(entries) ==> entries == old(entries)[key := value]
      ensures key !in old(entries) ==> entries == old(entries)
    {
      if key in entries {
        entries := entries[key := value];
      }
    }
  }
}
