/** The storage layer of src/storage/storage.rs: a string-keyed backend,
    typed entries bound to it, a write guard that saves when it is dropped,
    and get-or-initialise. */
module Storage {
  import opened Common
  import opened StorageCodec

  /** The value a backend holding `store` returns for `key` (`StorageBacking::get`):
      absent keys and texts that do not decode both read as None. */
  function Lookup<T>(codec: Codec<T, seq<Byte>>, store: map<string, string>, key: string): (r: Option<T>)
    ensures key !in store ==> r == None
    ensures r.Some? ==> key in store && FromText(codec, store[key]) == r
  {
    if key in store then FromText(codec, store[key]) else None
  }

  /** A `StorageBacking` whose medium maps keys to the text form of values
      (as the browser `ClientStorage` does). */
  class Backing {
    var store: map<string, string>
    /** Every `set` ever made, in order: the key and the text written. */
    ghost var log: seq<(string, string)>

    constructor ()
      ensures store == map[] && log == []
    {
      store := map[];
      log := [];
    }

    /** `StorageBacking::get`. */
    function Get<T>(codec: Codec<T, seq<Byte>>, key: string): (r: Option<T>)
      reads this
      ensures r == Lookup(codec, store, key)
    {
      Lookup(codec, store, key)
    }

    /** `StorageBacking::set`: overwrite `key` with the text of `value`. */
    method Set<T>(codec: Codec<T, seq<Byte>>, key: string, value: T)
      modifies this
      ensures store == old(store)[key := ToText(codec, value)]
      ensures log == old(log) + [(key, ToText(codec, value))]
    {
      store := store[key := ToText(codec, value)];
      log := log + [(key, ToText(codec, value))];
    }
  }

  /** `StorageEntry<S, T>`: a key and a local copy of its data. */
  class StorageEntry<T> {
    const backing: Backing
    const codec: Codec<T, seq<Byte>>
    const key: string
    var data: T

    /** `StorageEntry::new`: no backend access. */
    constructor (backing: Backing, codec: Codec<T, seq<Byte>>, key: string, data: T)
      ensures this.backing == backing && this.codec == codec
      ensures this.key == key && this.data == data
    {
      this.backing := backing;
      this.codec := codec;
      this.key := key;
      this.data := data;
    }

    /** `save`: write the local copy to the backend under the entry's key. */
    method Save()
      modifies backing
      ensures backing.store == old(backing.store)[key := ToText(codec, data)]
      ensures backing.log == old(backing.log) + [(key, ToText(codec, data))]
    {
      backing.Set(codec, key, data);
    }

    /** `write`: a guard with mutable access to the data. */
    method Write() returns (guard: StorageEntryMut<T>)
      ensures fresh(guard) && guard.entry == this && !guard.released
    {
      guard := new StorageEntryMut(this);
    }

    /** `with_mut`: apply `f` to the data, then save. */
    method WithMut(f: T -> T)
      modifies this, backing
      ensures data == f(old(data))
      ensures backing.store == old(backing.store)[key := ToText(codec, data)]
      ensures backing.log == old(backing.log) + [(key, ToText(codec, data))]
    {
      data := f(data);
      Save();
    }

    /** `update`: take the backend's value when it has one that decodes,
        keep the local data otherwise. */
    method Update()
      modifies this
      ensures backing.Get(codec, key).Some? ==> data == backing.Get(codec, key).value
      ensures backing.Get(codec, key).None? ==> data == old(data)
    {
      data := backing.Get(codec, key).GetOr(data);
    }
  }

  /** `StorageEntryMut`: borrows an entry mutably; dropping it saves. */
  class StorageEntryMut<T> {
    const entry: StorageEntry<T>
    var released: bool

    constructor (entry: StorageEntry<T>)
      ensures this.entry == entry && !released
    {
      this.entry := entry;
      released := false;
    }

    /** `Deref`. */
    function Value(): (v: T)
      reads entry
      ensures v == entry.data
    {
      entry.data
    }

    /** `DerefMut`, used to change the data in place; nothing is saved yet. */
    method Mutate(f: T -> T)
      requires !released
      modifies entry
      ensures entry.data == f(old(entry.data))
      ensures !released
    {
      entry.data := f(entry.data);
    }

    /** `Drop`: save the data as it now is, once; the borrow then ends. */
    method Release()
      requires !released
      modifies this, entry.backing
      ensures released
      ensures entry.backing.store == old(entry.backing.store)[entry.key := ToText(entry.codec, entry.data)]
      ensures entry.backing.log == old(entry.backing.log) + [(entry.key, ToText(entry.codec, entry.data))]
    {
      entry.Save();
      released := true;
    }
  }

  /** A guard acquired, mutated and dropped: one save, holding the mutated
      data, which then reads back from the backend. */
  method MutateThroughGuard<T(!new)>(entry: StorageEntry<T>, f: T -> T)
    requires RoundTrips(entry.codec)
    modifies entry, entry.backing
    ensures entry.data == f(old(entry.data))
    ensures entry.backing.store == old(entry.backing.store)[entry.key := ToText(entry.codec, entry.data)]
    ensures entry.backing.log == old(entry.backing.log) + [(entry.key, ToText(entry.codec, entry.data))]
    ensures entry.backing.Get(entry.codec, entry.key) == Some(entry.data)
  {
    var guard := entry.Write();
    guard.Mutate(f);
    guard.Release();
    LookupAfterSet(entry.codec, old(entry.backing.store), entry.key, entry.data);
  }

  /** `storage_entry`: the backend's value for `key` if it has one that
      decodes; otherwise run `init` once, store its result and return it. */
  method LoadStorageEntry<T>(backing: Backing, codec: Codec<T, seq<Byte>>, key: string, init: Initializer<T>)
    returns (data: T)
    modifies backing, init
    ensures old(backing.Get(codec, key)).Some? ==>
              && data == old(backing.Get(codec, key)).value
              && backing.store == old(backing.store) && backing.log == old(backing.log)
              && init.calls == old(init.calls)
    ensures old(backing.Get(codec, key)).None? ==>
              && data == init.make()
              && backing.store == old(backing.store)[key := ToText(codec, data)]
              && backing.log == old(backing.log) + [(key, ToText(codec, data))]
              && init.calls == old(init.calls) + 1
  {
    var cached := backing.Get(codec, key);
    if cached.Some? {
      data := cached.value;
    } else {
      data := init.Call();
      backing.Set(codec, key, data);
    }
  }

  /** `synced_storage_entry`: `storage_entry` wrapped in an entry for the same key. */
  method SyncedStorageEntry<T>(backing: Backing, codec: Codec<T, seq<Byte>>, key: string, init: Initializer<T>)
    returns (entry: StorageEntry<T>)
    modifies backing, init
    ensures fresh(entry)
    ensures entry.backing == backing && entry.codec == codec && entry.key == key
    ensures old(backing.Get(codec, key)).Some? ==>
              && entry.data == old(backing.Get(codec, key)).value
              && backing.store == old(backing.store) && backing.log == old(backing.log)
              && init.calls == old(init.calls)
    ensures old(backing.Get(codec, key)).None? ==>
              && entry.data == init.make()
              && backing.store == old(backing.store)[key := ToText(codec, entry.data)]
              && backing.log == old(backing.log) + [(key, ToText(codec, entry.data))]
              && init.calls == old(init.calls) + 1
  {
    var data := LoadStorageEntry(backing, codec, key, init);
    entry := new StorageEntry(backing, codec, key, data);
  }

  /** A `set` is read back by the next `get` of the same key, and leaves
      every other key's reading as it was. */
  lemma LookupAfterSet<T(!new)>(codec: Codec<T, seq<Byte>>, store: map<string, string>, key: string, value: T)
    requires RoundTrips(codec)
    ensures Lookup(codec, store[key := ToText(codec, value)], key) == Some(value)
    ensures forall other :: other != key ==>
              Lookup(codec, store[key := ToText(codec, value)], other) == Lookup(codec, store, other)
  {
    TextRoundTrip(codec, value);
  }

  /** A stored text of odd length or with a non-hex character reads as
      absent, so `storage_entry` treats it as a miss. */
  lemma CorruptTextIsMiss<T>(codec: Codec<T, seq<Byte>>, store: map<string, string>, key: string)
    requires key in store
    requires |store[key]| % 2 == 1 || exists j :: 0 <= j < |store[key]| && DigitValue(store[key][j]).None?
    ensures Lookup(codec, store, key) == None
  {
    HexDecodeNoneIff(store[key]);
  }
}
