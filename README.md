# Query engine cache of the Sway compiler

This project models the compiler's query engine
(`sway-core/src/query_engine/mod.rs`). It is the incremental-compilation
cache, and it holds two independent tables:

- the **parse-module cache** maps a `ModuleCacheKey` to a `ModuleCacheEntry`.
  The key is a module path plus the include-tests flag. The entry holds the
  path, an optional modification time, a 64-bit content hash, the list of
  dependency paths and the include-tests flag;
- the **programs cache** maps a module path to a `ProgramsCacheEntry`. The
  entry holds the path, the elaborated programs and the pair of diagnostic
  lists (errors, warnings).

The dependency list is an ordered list (a `Vec`), modelled as a `seq`. The programs cache is keyed by path alone, so entries built with and without tests share one slot there.

`QueryEngine.QueryEngine` is a class with one `map` field per table. The two
inserts are methods that update the fields in place. The two lookups are
functions over the fields. `Clone` allocates a new engine that holds copies
of both maps. The class invariant `Valid()` says that every stored entry sits
under the key derived from its own fields. The constructor establishes it and
every insert keeps it.

`KeyedMaps` (keyed_maps.dfy) defines "insert a value under the key derived
from it" once, for any key derivation. It also defines `InsertAll`, the map
left by a history of such inserts taken in order. The engine's write locks
serialize concurrent inserts, so any run of inserts is such a history. The
lemmas there show that the last writer wins, that inserts of distinct keys
lose nothing, and that their order does not matter.

Files: `wrappers.dfy` (the `Option` type), `keyed_maps.dfy`,
`query_engine.dfy`.

## Model

| member | source | states |
|---|---|---|
| `QueryEngine.QueryEngine.constructor` | sway-core/src/query_engine/mod.rs:48-52 | The default engine has both caches empty and satisfies the invariant. |
| `QueryEngine.QueryEngine.Clone` | sway-core/src/query_engine/mod.rs:54-61 | Returns a freshly allocated engine whose two maps equal the original's, and which keeps the invariant if the original does. |
| `QueryEngine.CloneIsIndependent` | sway-core/src/query_engine/mod.rs:54-61 | After cloning, the original and the clone each receive a module insert and a programs insert. Each engine ends with the cloned caches updated by its own two inserts only, so no insert into either engine is visible in the other. |
| `QueryEngine.QueryEngine.GetParseModuleCacheEntry` | sway-core/src/query_engine/mod.rs:64-67 | Returns nothing exactly when the key was never written, otherwise the stored entry. Under the invariant, that entry's path and flag are the key's. |
| `QueryEngine.QueryEngine.InsertParseModuleCacheEntry` | sway-core/src/query_engine/mod.rs:69-76 | Writes the entry under (entry.path, entry.include_tests), so a lookup of that key returns the entry. Every other key and the whole programs cache are unchanged, and the invariant is preserved. |
| `QueryEngine.QueryEngine.GetProgramsCacheEntry` | sway-core/src/query_engine/mod.rs:78-84 | Returns nothing exactly when the path was never written, otherwise the stored entry. Under the invariant, that entry's path is the looked-up path. |
| `QueryEngine.QueryEngine.InsertProgramsCacheEntry` | sway-core/src/query_engine/mod.rs:86-89 | Writes the entry under entry.path, so a lookup of that path returns it. Other paths and the parse-module cache are unchanged, and the invariant is preserved. |
| `QueryEngine.ModuleKeyEquality` | sway-core/src/query_engine/mod.rs:13-17 | Two module entries map to the same key if and only if both their paths and their include-tests flags are equal. |
| `QueryEngine.IncludeTestsVariantsIndependent` | sway-core/src/query_engine/mod.rs:69-76 | Inserting a module's entry for one include-tests value leaves the slot for the other value as it was, whether present or absent. |
| `QueryEngine.ModuleReinsertReplaces` | sway-core/src/query_engine/mod.rs:74-75 | A second insert with the same key leaves the second entry stored. The first entry, with its hash, time and dependencies, appears nowhere in the cache. |
| `QueryEngine.ProgramsReinsertReplacesDiagnostics` | sway-core/src/query_engine/mod.rs:86-89 | A second insert for the same path stores exactly the second entry's diagnostics, with no accumulation. The first entry appears nowhere in the cache. |
| `KeyedMaps.Insert` | sway-core/src/query_engine/mod.rs:74-75 | Insert-by-derived-key stores the value under its key, adds exactly that key, leaves every other key's value alone and preserves "keyed by its own fields". |
| `KeyedMaps.OverwriteForgetsPrevious` | sway-core/src/query_engine/mod.rs:74-75 | Two inserts under one key equal the second insert alone. If the map was keyed consistently, the first value can no longer be observed. |
| `KeyedMaps.InsertAllKeyedBy` | sway-core/src/query_engine/mod.rs:69-76 | Any history of inserts preserves the invariant that each value sits under the key derived from it. |
| `KeyedMaps.InsertAllLookup` | sway-core/src/query_engine/mod.rs:69-76 | After a history, a key is present if and only if it was present before or some insert wrote it. Its value is that of the last insert writing it. A key no insert wrote keeps its old value. |
| `KeyedMaps.InsertAllDistinct` | sway-core/src/query_engine/mod.rs:69-76 | N inserts of pairwise distinct new keys grow the map by exactly N entries, and each inserted value can be looked up under its own key (no lost updates). |
| `KeyedMaps.InsertAllOrderIrrelevant` | sway-core/src/query_engine/mod.rs:69-76 | Two histories made of the same inserts of distinct keys, in any order, leave the same map. |

## Left out

- The `RwLock`s, lock poisoning and the `unwrap`/`expect` panics on a poisoned lock. Each operation is modelled as one sequential, atomic step; the locks only serialize access.
- The non-atomic snapshot in `clone`, which reads the two maps under two separate locks. Its effect is observable only under concurrency.
- `Arc<PathBuf>` sharing and reference counting, and how paths are compared. A path is an opaque type whose equality stands for the component-wise equality of file-system paths (so `src//lib.sw` and `src/lib.sw` may be the same key); the model does not define that comparison.
- `SystemTime`, `Programs`, `CompileError` and `CompileWarning`. They are opaque types here. The engine only stores them and never inspects them.
- Computing the content hash, and any staleness or freshness check that walks the dependency lists. The engine receives the hash precomputed, stores the dependency list and never reads either. The dependency-walking freshness policy belongs to the caller and is not part of this code.
- Deleting entries and eviction. The source has no such operation.
