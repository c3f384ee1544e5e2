/**
 * The query engine of the compiler: the incremental-compilation cache that
 * keeps, per module, the parse-level metadata (a content hash, an optional
 * modification time and the module's dependencies) and the elaborated
 * programs together with the diagnostics produced while building them.
 *
 * Each table is a map the engine updates in place; an insert derives the key
 * from the entry itself and overwrites. The reader-writer locks around the
 * maps only serialize access; each operation is modelled as one atomic step.
 */
module QueryEngine {
  import opened Wrappers
  import KeyedMaps

  /**
   * A module's file path. Its equality stands for the equality of file-system
   * paths (component by component), which this model leaves abstract; the
   * shared, reference-counted handle is modelled by the path it points to.
   */
  type Path(==, !new)

  /** A wall-clock time stamp; the engine only stores it. */
  type SystemTime(==)

  /** The elaborated programs of a module, built and read by the analyzer only. */
  type Programs

  /** A compile error and a compile warning, as produced by the analyzer. */
  type CompileError
  type CompileWarning

  /** Unsigned 64-bit integer, the width of the stored content hash. */
  newtype U64 = x: int | 0 <= x < 0x1_0000_0000_0000_0000

  /** Key of the parse-module cache: both fields take part in equality. */
  datatype ModuleCacheKey = ModuleCacheKey(path: Path, includeTests: bool)

  datatype ModuleCacheEntry = ModuleCacheEntry(
    path: Path,
    modifiedTime: Option<SystemTime>,
    hash: U64,
    dependencies: seq<Path>,
    includeTests: bool)

  datatype ProgramsCacheEntry = ProgramsCacheEntry(
    path: Path,
    programs: Programs,
    handlerData: (seq<CompileError>, seq<CompileWarning>))

  type ModuleCacheMap = map<ModuleCacheKey, ModuleCacheEntry>
  type ProgramsCacheMap = map<Path, ProgramsCacheEntry>

  /** The key a module entry is stored under: its own path and include-tests flag. */
  function ModuleKeyOf(entry: ModuleCacheEntry): ModuleCacheKey
  {
    ModuleCacheKey(entry.path, entry.includeTests)
  }

  /** The key a programs entry is stored under: its own path. */
  function ProgramsKeyOf(entry: ProgramsCacheEntry): Path
  {
    entry.path
  }

  /**
   * Two module entries share a cache slot exactly when both their paths and
   * their include-tests flags agree; the same path with and without tests
   * occupies two independent slots.
   */
  lemma ModuleKeyEquality(a: ModuleCacheEntry, b: ModuleCacheEntry)
    ensures ModuleKeyOf(a) == ModuleKeyOf(b) <==> a.path == b.path && a.includeTests == b.includeTests
  {
  }

  /**
   * Inserting the entry of a module with tests included never disturbs the
   * entry of the same module without tests, and the reverse.
   */
  lemma IncludeTestsVariantsIndependent(m: ModuleCacheMap, entry: ModuleCacheEntry)
    ensures var other := ModuleCacheKey(entry.path, !entry.includeTests);
            var r := KeyedMaps.Insert(m, entry, ModuleKeyOf);
            (other in r <==> other in m) && (other in m ==> r[other] == m[other])
  {
  }

  /**
   * A re-insert for the same module key replaces the whole entry: the earlier
   * hash, modification time and dependency list can no longer be observed.
   */
  lemma ModuleReinsertReplaces(m: ModuleCacheMap, first: ModuleCacheEntry, second: ModuleCacheEntry)
    requires KeyedMaps.KeyedBy(m, ModuleKeyOf)
    requires ModuleKeyOf(first) == ModuleKeyOf(second)
    ensures var r := KeyedMaps.Insert(KeyedMaps.Insert(m, first, ModuleKeyOf), second, ModuleKeyOf);
            r[ModuleKeyOf(second)] == second &&
            (first != second ==> first !in r.Values)
  {
  }

  /**
   * A re-insert for the same path replaces the stored diagnostics wholesale:
   * errors and warnings of the earlier build are not accumulated.
   */
  lemma ProgramsReinsertReplacesDiagnostics(m: ProgramsCacheMap, first: ProgramsCacheEntry, second: ProgramsCacheEntry)
    requires KeyedMaps.KeyedBy(m, ProgramsKeyOf)
    requires first.path == second.path
    ensures var r := KeyedMaps.Insert(KeyedMaps.Insert(m, first, ProgramsKeyOf), second, ProgramsKeyOf);
            r[second.path].handlerData == second.handlerData &&
            (first != second ==> first !in r.Values)
  {
  }

  class QueryEngine {
    var parseModuleCache: ModuleCacheMap
    var programsCache: ProgramsCacheMap

    /** Every stored entry sits under the key derived from its own fields. */
    ghost predicate Valid()
      reads this
    {
      KeyedMaps.KeyedBy(parseModuleCache, ModuleKeyOf) &&
      KeyedMaps.KeyedBy(programsCache, ProgramsKeyOf)
    }

    /** The default engine: both caches empty. */
    constructor ()
      ensures parseModuleCache == map[] && programsCache == map[]
      ensures Valid()
    {
      parseModuleCache := map[];
      programsCache := map[];
    }

    /** A new engine holding copies of both caches. */
    method Clone() returns (c: QueryEngine)
      ensures fresh(c)
      ensures c.parseModuleCache == parseModuleCache && c.programsCache == programsCache
      ensures Valid() ==> c.Valid()
    {
      c := new QueryEngine();
      c.parseModuleCache := parseModuleCache;
      c.programsCache := programsCache;
    }

    /** The entry stored under `key`, or nothing if no insert has written that key. */
    function GetParseModuleCacheEntry(key: ModuleCacheKey): (r: Option<ModuleCacheEntry>)
      reads this
      ensures r.None? <==> key !in parseModuleCache
      ensures r.Some? ==> r.value == parseModuleCache[key]
      ensures Valid() && r.Some? ==> r.value.path == key.path && r.value.includeTests == key.includeTests
    {
      if key in parseModuleCache then Some(parseModuleCache[key]) else None
    }

    /**
     * Stores `entry` under its own path and include-tests flag, replacing any
     * previous entry there; no other key and nothing of the programs cache changes.
     */
    method InsertParseModuleCacheEntry(entry: ModuleCacheEntry)
      modifies this
      ensures parseModuleCache == KeyedMaps.Insert(old(parseModuleCache), entry, ModuleKeyOf)
      ensures programsCache == old(programsCache)
      ensures GetParseModuleCacheEntry(ModuleKeyOf(entry)) == Some(entry)
      ensures forall key :: key != ModuleKeyOf(entry) ==>
                GetParseModuleCacheEntry(key) == old(GetParseModuleCacheEntry(key))
      ensures old(Valid()) ==> Valid()
    {
      parseModuleCache := parseModuleCache[ModuleKeyOf(entry) := entry];
    }

    /** The programs entry stored for `path`, or nothing if none was inserted. */
    function GetProgramsCacheEntry(path: Path): (r: Option<ProgramsCacheEntry>)
      reads this
      ensures r.None? <==> path !in programsCache
      ensures r.Some? ==> r.value == programsCache[path]
      ensures Valid() && r.Some? ==> r.value.path == path
    {
      if path in programsCache then Some(programsCache[path]) else None
    }

    /**
     * Stores `entry` under its own path, replacing the previous programs and
     * diagnostics for that path; other paths and the parse-module cache are unchanged.
     */
    method InsertProgramsCacheEntry(entry: ProgramsCacheEntry)
      modifies this
      ensures programsCache == KeyedMaps.Insert(old(programsCache), entry, ProgramsKeyOf)
      ensures parseModuleCache == old(parseModuleCache)
      ensures GetProgramsCacheEntry(entry.path) == Some(entry)
      ensures forall path :: path != entry.path ==>
                GetProgramsCacheEntry(path) == old(GetProgramsCacheEntry(path))
      ensures old(Valid()) ==> Valid()
    {
      programsCache := programsCache[entry.path := entry];
    }
  }

  /**
   * A clone and its original evolve independently: after cloning, each engine
   * receives a module insert and a programs insert of its own, and each ends
   * up with the cloned caches updated by its own inserts only.
   */
  method CloneIsIndependent(
    q: QueryEngine,
    moduleIntoOriginal: ModuleCacheEntry, programsIntoOriginal: ProgramsCacheEntry,
    moduleIntoClone: ModuleCacheEntry, programsIntoClone: ProgramsCacheEntry)
    returns (c: QueryEngine)
    modifies q
    ensures fresh(c)
    ensures q.parseModuleCache == KeyedMaps.Insert(old(q.parseModuleCache), moduleIntoOriginal, ModuleKeyOf)
    ensures q.programsCache == KeyedMaps.Insert(old(q.programsCache), programsIntoOriginal, ProgramsKeyOf)
    ensures c.parseModuleCache == KeyedMaps.Insert(old(q.parseModuleCache), moduleIntoClone, ModuleKeyOf)
    ensures c.programsCache == KeyedMaps.Insert(old(q.programsCache), programsIntoClone, ProgramsKeyOf)
    ensures forall key :: key != ModuleKeyOf(moduleIntoOriginal) ==>
              q.GetParseModuleCacheEntry(key) == old(q.GetParseModuleCacheEntry(key))
    ensures forall path :: path != programsIntoOriginal.path ==>
              q.GetProgramsCacheEntry(path) == old(q.GetProgramsCacheEntry(path))
    ensures forall key :: key != ModuleKeyOf(moduleIntoClone) ==>
              c.GetParseModuleCacheEntry(key) == old(q.GetParseModuleCacheEntry(key))
    ensures forall path :: path != programsIntoClone.path ==>
              c.GetProgramsCacheEntry(path) == old(q.GetProgramsCacheEntry(path))
  {
    c := q.Clone();
    q.InsertParseModuleCacheEntry(moduleIntoOriginal);
    q.InsertProgramsCacheEntry(programsIntoOriginal);
    c.InsertParseModuleCacheEntry(moduleIntoClone);
    c.InsertProgramsCacheEntry(programsIntoClone);
  }
}
