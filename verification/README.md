# Persistence and caching layer of dioxus-std, modelled in Dafny

This project models the value persistence and caching layer of the
`dioxus-std` crate. It covers three source files.

- `src/storage/storage.rs` has three parts. The first is the text codec: a
  value is serialised, compressed and written as lowercase hex. The second is
  the `StorageBacking` key/value backend. The third is `StorageEntry`: a key
  plus a local copy of its data, with `save`, `with_mut`, `update` and a
  write guard that saves when dropped. The file also has get-or-initialise
  (`storage_entry`, `synced_storage_entry`).
- `src/cached_states/mod.rs` holds the hooks `use_cached_signal` and
  `use_cached_state`. Each derives a key from the scope id and the type name.
  On a scope's first call it starts the cell from the process-wide
  `SIGNAL_CACHE` or from the initializer. On every call it writes the cell's
  value back to the cache.
- `src/cached_signal/mod.rs` is a separate draft of `use_cached_signal`, not
  declared in src/lib.rs. Its key has no prefix, and it makes an extra
  insert when the initializer runs.

Modules:

- `Common` (common.dfy): `Option`; `Codec<T, W>`, a foreign serialisation
  format given as an encode/decode pair; `RoundTrips`, the round-trip law
  such a codec obeys; `Initializer`, a `FnOnce` closure whose calls are
  counted.
- `StorageCodec` (storage_codec.dfy): the hex layer and `serde_to_string` /
  `try_serde_from_string`.
- `Storage` (storage.dfy): the backend, `StorageEntry`, `StorageEntryMut`
  and get-or-initialise.
- `CacheKeys` (cache_keys.dfy): decimal rendering of scope ids and the three
  key formats.
- `HookRuntime` (hook_runtime.dfy): `SIGNAL_CACHE`, the engine's cells and
  the per-scope `use_hook` slot.
- `CachedStates` (cached_states.dfy) and `CachedSignal` (cached_signal.dfy):
  the hooks.

Postcard, zlib and serde_json are foreign code. They appear only as a `Codec`
value. Every property that depends on them takes `RoundTrips(codec)` as a
precondition; nothing is assumed. Only `cached_states` is compiled into the
crate (src/lib.rs:33-37). The storage module and `cached_signal` are drafts,
and they are modelled from their code text.

Notes on what the source does:

- The hooks write the cell's value back on every invocation, whether or not
  it changed.
- `use_cached_state` and the `cached_states` signal do not insert anything
  while initialising on a miss. The write-through that follows stores the
  initial value anyway.
- `set` returns nothing. The browser backend panics when a write fails
  (`local_storage().unwrap().set_item(..).unwrap()`, src/storage/client_storage/web.rs:36).
  Under the `ssr` feature it drops the write silently (web.rs:33-37).
- `try_serde_from_string` uses `to_digit(16)`, so it also accepts uppercase
  hex digits. The encoder only produces lowercase digits.
  `StorageCodec.DigitValue` accepts both cases, and
  `StorageCodec.HexEncodeOfDecode` holds only for lowercase text.

## Model

| member | source | states |
|---|---|---|
| `StorageCodec.HexDigit` | src/storage/storage.rs:22-23 | the digit for a nibble is one of `0-9a-f`, and `to_digit(16)` reads it back as that nibble |
| `StorageCodec.DigitValue` | src/storage/storage.rs:39-41 | `to_digit(16)`: a character has a digit value exactly when it is `0-9`, `a-f` or `A-F`, and the value is below 16 |
| `StorageCodec.HexDecode` | src/storage/storage.rs:38-43 | the decode loop as a function over character pairs; on success the text is twice as long as the bytes |
| `StorageCodec.ToText` | src/storage/storage.rs:10-29 | `serde_to_string`: the foreign encoding written as hex, twice its length, all characters in `0-9a-f` |
| `StorageCodec.FromText` | src/storage/storage.rs:35-46 | `try_serde_from_string`: odd-length text gives None; a result comes only from hex-decoding the text and then the foreign decoder |
| `StorageCodec.HexEncode` | src/storage/storage.rs:18-27 | the encoding has twice as many characters as there are bytes; character 2i is byte i's high nibble and 2i+1 its low nibble; every character is in `0-9a-f` |
| `StorageCodec.HexDecodeNoneIff` | src/storage/storage.rs:38-42 | hex decoding fails if and only if the text has odd length or contains a character that is not a hex digit |
| `StorageCodec.HexDecodeBytes` | src/storage/storage.rs:38-42 | on success there is one byte per character pair, and byte i is `n1 * 16 + n2` for the digit values of characters 2i and 2i+1 |
| `StorageCodec.HexRoundTrip` | src/storage/storage.rs:18-43 | hex decoding an encoded byte sequence gives back the original bytes |
| `StorageCodec.HexEncodeOfDecode` | src/storage/storage.rs:18-43 | a lowercase text that decodes is exactly the encoding of its decoded bytes |
| `StorageCodec.TryFromText` | src/storage/storage.rs:35-46 | the `while let` loop, with its early exits, returns the same result as the reference `FromText`: hex decoding followed by the foreign decoder |
| `StorageCodec.TextRoundTrip` | src/storage/storage.rs:10-46 | for a codec that round-trips, `try_serde_from_string(serde_to_string(v))` is `Some(v)` |
| `Storage.Backing.Set` | src/storage/storage.rs:58 | `set` maps the key to the value's text and leaves every other key alone; it logs exactly one write |
| `Storage.Lookup` | src/storage/client_storage/web.rs:40-45 | `get` over a store: a missing key gives None; a result comes only from a present key whose text decodes |
| `Storage.Backing.Get` | src/storage/storage.rs:57 | `StorageBacking::get` reads the backend's current store through `Lookup` |
| `Storage.LookupAfterSet` | src/storage/storage.rs:57-58 | after `set(k, v)`, `get(k)` returns `Some(v)`, and `get` of any other key returns what it did before |
| `Storage.CorruptTextIsMiss` | src/storage/storage.rs:36-43 | a stored text of odd length or with a non-hex character reads as `None`, the same as a missing key |
| `Storage.StorageEntry.constructor` | src/storage/storage.rs:85-87 | `new` binds the key and the data and does not touch the backend |
| `Storage.StorageEntry.Save` | src/storage/storage.rs:89-91 | the backend maps the entry's key to the data's text; there is one write, and no other key changes |
| `Storage.StorageEntry.Write` | src/storage/storage.rs:93-97 | `write` returns a fresh, unreleased guard bound to this entry |
| `Storage.StorageEntry.WithMut` | src/storage/storage.rs:99-102 | the data becomes `f(old data)`, then the backend maps the key to the new data in one write; no other key changes |
| `Storage.StorageEntry.Update` | src/storage/storage.rs:104-106 | the data becomes the backend's value when `get` returns `Some`, and stays unchanged on `None`; the backend and the key do not change |
| `Storage.StorageEntryMut.Value` | src/storage/storage.rs:132-143 | `Deref` on the guard gives the borrowed entry's current data |
| `Storage.StorageEntryMut.Mutate` | src/storage/storage.rs:145-154 | a change through `DerefMut` updates the entry's data and saves nothing |
| `Storage.StorageEntryMut.Release` | src/storage/storage.rs:156-165 | dropping the guard saves exactly once, storing the data as it now is |
| `Storage.MutateThroughGuard` | src/storage/storage.rs:93-165 | acquiring a guard, mutating and dropping it has the same effect as `with_mut`, and `get` then returns the mutated data |
| `Storage.LoadStorageEntry` | src/storage/storage.rs:167-176 | on a hit, returns the stored value without calling `init` or `set`; on a miss or an undecodable entry, calls `init` once, stores its result under the key and returns it |
| `Storage.SyncedStorageEntry` | src/storage/storage.rs:178-187 | a fresh entry with the same key, holding what `storage_entry` returns, with the same backend effects |
| `CacheKeys.Decimal` | src/cached_states/mod.rs:11 | the `{}` rendering of a scope id is non-empty, all decimal digits, with no leading zero |
| `CacheKeys.DecimalRoundTrip` | src/cached_states/mod.rs:11 | reading the decimal rendering of n gives back n |
| `CacheKeys.DecimalInjective` | src/cached_states/mod.rs:11 | distinct scope ids render differently |
| `CacheKeys.ScopeTypeKey` | src/cached_signal/mod.rs:11 | `format!("{}{}")`: the key is the decimal scope id followed by the type name, with no prefix |
| `CacheKeys.SignalKey` | src/cached_states/mod.rs:11 | `format!("signal-{}{}")`: `"signal-"` followed by the unprefixed key |
| `CacheKeys.StateKey` | src/cached_states/mod.rs:27 | `format!("state-{}{}")`: `"state-"` followed by the unprefixed key |
| `CacheKeys.ScopeTypeKeyInjective` | src/cached_signal/mod.rs:11 | the unprefixed key determines scope id and type name, since type names do not start with a digit |
| `CacheKeys.SignalKeyInjective` | src/cached_states/mod.rs:11 | `"signal-"` keys are equal only for the same scope id and type name |
| `CacheKeys.StateKeyInjective` | src/cached_states/mod.rs:27 | `"state-"` keys are equal only for the same scope id and type name |
| `CacheKeys.SignalAndStateKeysDiffer` | src/cached_states/mod.rs:11-27 | a signal key never equals a state key, for any scopes and types |
| `CacheKeys.DigitLeadingNameCollides` | src/cached_signal/mod.rs:11 | without the type-name condition, the unprefixed keys of scope 1 with `2T` and scope 12 with `T` coincide |
| `HookRuntime.CachedValue` | src/cached_states/mod.rs:13-14 | the first-call lookup: None when the key is absent; a value only when the key's entry decodes to it |
| `HookRuntime.SignalCache.Insert` | src/cached_states/mod.rs:21 | `insert` sets one key and records one write |
| `HookRuntime.CachedValueAfterInsert` | src/cached_states/mod.rs:13-21 | after the write-through of v, a first-call lookup of that key decodes to v; other keys' lookups do not change |
| `Common.Initializer.Call` | src/cached_states/mod.rs:18 | running the initializer yields its value and counts one call |
| `CachedStates.CachedHook` | src/cached_states/mod.rs:10-39 | the shared body of both hooks: lookup-or-initialise only on the scope's first call; the stored cell is reused later; write-through of the current value to the key alone |
| `CachedStates.UseCachedSignal` | src/cached_states/mod.rs:10-24 | first call: the cell is the decoded entry and `f` is not run, or `f()` when the entry is missing or undecodable; later calls return the stored cell whatever the cache holds; every call maps `"signal-"` key to the encoding of the cell's value and touches no other key |
| `CachedStates.UseCachedState` | src/cached_states/mod.rs:26-39 | the same for `use_cached_state` under the `"state-"` key |
| `CachedStates.SiblingSignalsShareEntry` | src/cached_states/mod.rs:11-21 | two call sites of the same type in one scope share one cache entry; the second starts from the first's value without running its initializer |
| `CachedSignal.UseCachedSignal` | src/cached_signal/mod.rs:10-26 | unprefixed key; a decodable entry gives the cell with one insert; a miss runs `f` once and inserts before the write-through (two inserts); later calls reuse the cell; the key is always present afterwards and maps to the cell's current value |

## Left out

- Postcard serialisation, zlib compression and serde_json are foreign code. Each is an arbitrary `Codec`, and its round trip is a precondition (`RoundTrips`) rather than a proved fact. `Codec.encode` is total by assumption. The real encoders can return `Err`, and the `unwrap` then panics: in `serde_to_string` (src/storage/storage.rs:11-17), and at `serde_json::to_string(..).unwrap()` in src/cached_states/mod.rs:21 and :37 and in src/cached_signal/mod.rs:19 and :23. The model does not capture these panics.
- The `Signal<T>`-versus-`T` mismatch is folded into one codec, because `Signal`'s serde implementation is not visible. src/cached_states/mod.rs decodes `Signal<T>` at line 14 but writes `T` at line 21. src/cached_signal/mod.rs decodes `Signal<T>` at line 14 and first inserts `Signal<T>` at line 19, but writes back `T` at line 23.
- `use_cached_state` calls `use_state` inside the `use_hook` initializer (src/cached_states/mod.rs:28-35), so on later renders `use_state` is not called again. The model makes the returned `UseState` one `Cell` stored in the hook slot, and it does not capture this hook-order detail.
- `serde_from_string` only unwraps `try_serde_from_string` and panics on `None`. It adds nothing beyond `TryFromText`.
- The `Mutex` around `SIGNAL_CACHE` is concurrency. The cache is modelled as single-threaded.
- `use_synced_storage_entry`, `use_onchange`, the `StorageBacking::use_onchange` subscription, re-render scheduling and the internals of `use_hook`, `use_signal` and `use_state` belong to the rendering engine. `use_hook` is modelled only as one cell per scope for each call site (`HookSlots`).
- `Display` and `Debug` on `StorageEntry` are formatting, and `PersistentStorage` is unused. `Deref` on `StorageEntry` is the read accessor; the model reads the `data` field directly.
- From src/storage/client_storage/web.rs, the localStorage I/O, the `ssr` switch and the `storage` event listener are left out. Its `get` and `set` over the text codec are what `Backing` and `Lookup` model.
- src/storage/persistence.rs is not part of this model: it calls `StorageEntry::new` with the wrong number of arguments. src/cached_state/mod.rs is not part of this model either: it does not compile.
- `Storage.StorageEntryMut.Release`: Rust runs `Drop` exactly once, and the model states this as the precondition `!released`, not as a type-level guarantee.
