/** src/cached_states/mod.rs: `use_cached_signal` and `use_cached_state`.
    On a scope's first invocation the cell starts from the cached entry if it
    decodes, else from the initializer; every invocation then writes the
    cell's current value back to the cache under the derived key. */
module CachedStates {
  import opened Common
  import opened CacheKeys
  import opened HookRuntime

  /** The body shared by both hooks, for the key each one derives. */
  method CachedHook<T(!new)>(cache: SignalCache, slots: HookSlots<T>, key: string, scopeId: nat,
                             codec: Codec<T, string>, init: Initializer<T>)
    returns (cell: Cell<T>)
    modifies cache, slots, init
    ensures scopeId in slots.cells && cell == slots.cells[scopeId]
    // later invocations: the stored cell, whatever the cache holds
    ensures scopeId in old(slots.cells) ==>
              && cell == old(slots.cells[scopeId]) && slots.cells == old(slots.cells)
              && init.calls == old(init.calls)
    // first invocation: a new cell from the cache, or from the initializer
    ensures scopeId !in old(slots.cells) ==>
              && fresh(cell) && slots.cells == old(slots.cells)[scopeId := cell]
              && (match old(CachedValue(codec, cache.entries, key))
                  case Some(v) => cell.value == v && init.calls == old(init.calls)
                  case None => cell.value == init.make() && init.calls == old(init.calls) + 1)
    ensures scopeId in old(slots.cells) ==> cell.value == old(cell.value)
    // write-through of the current value, to this key only
    ensures cache.entries == old(cache.entries)[key := codec.encode(cell.value)]
    ensures cache.inserts == old(cache.inserts) + [key]
    ensures RoundTrips(codec) ==> CachedValue(codec, cache.entries, key) == Some(cell.value)
  {
    if scopeId !in slots.cells {
      var cached := CachedValue(codec, cache.entries, key);
      if cached.Some? {
        cell := new Cell(cached.value);
      } else {
        var v := init.Call();
        cell := new Cell(v);
      }
      slots.cells := slots.cells[scopeId := cell];
    }
    cell := slots.cells[scopeId];
    cache.Insert(key, codec.encode(cell.value));
    if RoundTrips(codec) {
      CachedValueAfterInsert(codec, old(cache.entries), key, cell.value);
    }
  }

  /** `use_cached_signal`, keyed `"signal-" + scope id + type name`. */
  method UseCachedSignal<T(!new)>(cache: SignalCache, slots: HookSlots<T>, scopeId: nat, typeName: string,
                                  codec: Codec<T, string>, init: Initializer<T>)
    returns (cell: Cell<T>)
    modifies cache, slots, init
    ensures scopeId in slots.cells && cell == slots.cells[scopeId]
    ensures scopeId in old(slots.cells) ==>
              && cell == old(slots.cells[scopeId]) && slots.cells == old(slots.cells)
              && cell.value == old(cell.value) && init.calls == old(init.calls)
    ensures scopeId !in old(slots.cells) ==>
              && fresh(cell) && slots.cells == old(slots.cells)[scopeId := cell]
              && (match old(CachedValue(codec, cache.entries, SignalKey(scopeId, typeName)))
                  case Some(v) => cell.value == v && init.calls == old(init.calls)
                  case None => cell.value == init.make() && init.calls == old(init.calls) + 1)
    ensures cache.entries == old(cache.entries)[SignalKey(scopeId, typeName) := codec.encode(cell.value)]
    ensures cache.inserts == old(cache.inserts) + [SignalKey(scopeId, typeName)]
    ensures RoundTrips(codec) ==> CachedValue(codec, cache.entries, SignalKey(scopeId, typeName)) == Some(cell.value)
  {
    cell := CachedHook(cache, slots, SignalKey(scopeId, typeName), scopeId, codec, init);
  }

  /** `use_cached_state`, keyed `"state-" + scope id + type name`. */
  method UseCachedState<T(!new)>(cache: SignalCache, slots: HookSlots<T>, scopeId: nat, typeName: string,
                                 codec: Codec<T, string>, init: Initializer<T>)
    returns (cell: Cell<T>)
    modifies cache, slots, init
    ensures scopeId in slots.cells && cell == slots.cells[scopeId]
    ensures scopeId in old(slots.cells) ==>
              && cell == old(slots.cells[scopeId]) && slots.cells == old(slots.cells)
              && cell.value == old(cell.value) && init.calls == old(init.calls)
    ensures scopeId !in old(slots.cells) ==>
              && fresh(cell) && slots.cells == old(slots.cells)[scopeId := cell]
              && (match old(CachedValue(codec, cache.entries, StateKey(scopeId, typeName)))
                  case Some(v) => cell.value == v && init.calls == old(init.calls)
                  case None => cell.value == init.make() && init.calls == old(init.calls) + 1)
    ensures cache.entries == old(cache.entries)[StateKey(scopeId, typeName) := codec.encode(cell.value)]
    ensures cache.inserts == old(cache.inserts) + [StateKey(scopeId, typeName)]
    ensures RoundTrips(codec) ==> CachedValue(codec, cache.entries, StateKey(scopeId, typeName)) == Some(cell.value)
  {
    cell := CachedHook(cache, slots, StateKey(scopeId, typeName), scopeId, codec, init);
  }

  /** Two `use_cached_signal` call sites for the same type in one scope
      derive the same key: when the second runs for the first time after the
      first, it starts from the first one's value and its initializer is
      not run. */
  method SiblingSignalsShareEntry<T(!new)>(cache: SignalCache, first: HookSlots<T>, second: HookSlots<T>,
                                           scopeId: nat, typeName: string, codec: Codec<T, string>,
                                           init1: Initializer<T>, init2: Initializer<T>)
    returns (cell1: Cell<T>, cell2: Cell<T>)
    requires RoundTrips(codec)
    requires first != second && init1 != init2
    requires scopeId !in second.cells
    modifies cache, first, second, init1, init2
    ensures cell2.value == cell1.value
    ensures init2.calls == old(init2.calls)
    ensures cache.entries == old(cache.entries)[SignalKey(scopeId, typeName) := codec.encode(cell1.value)]
  {
    cell1 := UseCachedSignal(cache, first, scopeId, typeName, codec, init1);
    cell2 := UseCachedSignal(cache, second, scopeId, typeName, codec, init2);
  }
}
