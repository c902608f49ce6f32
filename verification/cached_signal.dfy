/** src/cached_signal/mod.rs: a separate draft of `use_cached_signal`, not
    declared in src/lib.rs, with its own cache, an unprefixed key, and an
    extra insert when the initializer runs. */
module CachedSignal {
  import opened Common
  import opened CacheKeys
  import opened HookRuntime

  method UseCachedSignal<T(!new)>(cache: SignalCache, slots: HookSlots<T>, scopeId: nat, typeName: string,
                                  codec: Codec<T, string>, init: Initializer<T>)
    returns (cell: Cell<T>)
    modifies cache, slots, init
    ensures ScopeTypeKey(scopeId, typeName) in cache.entries
    ensures scopeId in slots.cells && cell == slots.cells[scopeId]
    // later invocations: the stored cell, one write-through
    ensures scopeId in old(slots.cells) ==>
              && cell == old(slots.cells[scopeId]) && slots.cells == old(slots.cells)
              && cell.value == old(cell.value) && init.calls == old(init.calls)
              && cache.inserts == old(cache.inserts) + [ScopeTypeKey(scopeId, typeName)]
    // first invocation: decoded entry with one insert, or `f()` with two
    ensures scopeId !in old(slots.cells) ==>
              && fresh(cell) && slots.cells == old(slots.cells)[scopeId := cell]
              && (match old(CachedValue(codec, cache.entries, ScopeTypeKey(scopeId, typeName)))
                  case Some(v) =>
                    && cell.value == v && init.calls == old(init.calls)
                    && cache.inserts == old(cache.inserts) + [ScopeTypeKey(scopeId, typeName)]
                  case None =>
                    && cell.value == init.make() && init.calls == old(init.calls) + 1
                    && cache.inserts == old(cache.inserts) + [ScopeTypeKey(scopeId, typeName), ScopeTypeKey(scopeId, typeName)])
    ensures cache.entries == old(cache.entries)[ScopeTypeKey(scopeId, typeName) := codec.encode(cell.value)]
    ensures RoundTrips(codec) ==> CachedValue(codec, cache.entries, ScopeTypeKey(scopeId, typeName)) == Some(cell.value)
  {
    var key := ScopeTypeKey(scopeId, typeName);
    if scopeId !in slots.cells {
      var cached := CachedValue(codec, cache.entries, key);
      if cached.Some? {
        cell := new Cell(cached.value);
      } else {
        var v := init.Call();
        cell := new Cell(v);
        cache.Insert(key, codec.encode(cell.value));
      }
      slots.cells := slots.cells[scopeId := cell];
    }
    cell := slots.cells[scopeId];
    cache.Insert(key, codec.encode(cell.value));
    if RoundTrips(codec) {
      CachedValueAfterInsert(codec, old(cache.entries), key, cell.value);
    }
  }
}
