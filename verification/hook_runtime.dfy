/** The state the cached hooks work on: the process-wide `SIGNAL_CACHE`,
    the reactive cells the rendering engine hands out, and the per-scope
    slot `use_hook` keeps for one hook call site. */
module HookRuntime {
  import opened Common

  /** `SIGNAL_CACHE`: a `HashMap<String, String>` from cache key to the
      serialised value. Locking is not modelled (single-threaded). */
  class SignalCache {
    var entries: map<string, string>
    /** The key of every `insert`, in order. */
    ghost var inserts: seq<string>

    constructor ()
      ensures entries == map[] && inserts == []
    {
      entries := map[];
      inserts := [];
    }

    /** `HashMap::insert`, result discarded. */
    method Insert(key: string, value: string)
      modifies this
      ensures entries == old(entries)[key := value]
      ensures inserts == old(inserts) + [key]
    {
      entries := entries[key := value];
      inserts := inserts + [key];
    }
  }

  /** The value a cache holding `entries` offers for `key`: the decoded
      entry, or None when the key is absent or its entry does not decode
      (`if let Some(..) = get(..)` then `if let Ok(..) = from_str(..)`). */
  function CachedValue<T>(codec: Codec<T, string>, entries: map<string, string>, key: string): (r: Option<T>)
    ensures key !in entries ==> r == None
    ensures r.Some? ==> key in entries && codec.decode(entries[key]) == r
  {
    if key in entries then codec.decode(entries[key]) else None
  }

  /** An insert of a value's encoding is what a later lookup of that key
      finds, and no other key's lookup changes. */
  lemma CachedValueAfterInsert<T(!new)>(codec: Codec<T, string>, entries: map<string, string>, key: string, value: T)
    requires RoundTrips(codec)
    ensures CachedValue(codec, entries[key := codec.encode(value)], key) == Some(value)
    ensures forall other :: other != key ==>
              CachedValue(codec, entries[key := codec.encode(value)], other) == CachedValue(codec, entries, other)
  {
  }

  /** A `Signal<T>` or `UseState<T>`: a mutable cell owned by the engine. */
  class Cell<T> {
    var value: T

    constructor (value: T)
      ensures this.value == value
    {
      this.value := value;
    }

    /** A write by the component between renders (`*signal.write() = v`). */
    method Set(v: T)
      modifies this
      ensures value == v
    {
      value := v;
    }
  }

  /** One hook call site's `use_hook` storage: the cell created in each
      scope the first time the hook ran there. */
  class HookSlots<T> {
    var cells: map<nat, Cell<T>>

    constructor ()
      ensures cells == map[]
    {
      cells := map[];
    }
  }
}
