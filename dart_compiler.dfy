/**
 * The scheduling logic of `DartCompiler`: loading the library graph, importing the embedded
 * libraries, deciding which units to parse in full, the second sweep driven by the difference
 * in top-level symbols, the staleness test on recorded dependencies, the failure count and the
 * search for a library by source path.
 */
module DartCompiler {
  import opened Wrappers
  import opened ElementModel
  import Strings
  import LibraryUnit

  type Library = LibraryUnit.LibraryUnit
  type Dependency = LibraryUnit.Dependency
  type DepsSource = LibraryUnit.DepsSource
  type LibraryDeps = LibraryUnit.LibraryDeps

  /* ---------------------------------------------------------------------------------------
   * Counting what is left of a finite set.
   * --------------------------------------------------------------------------------------- */

  lemma SubsetCardinality<T>(x: set<T>, y: set<T>)
    requires x <= y
    ensures |x| <= |y|
    decreases y
  {
    if x != {} {
      var e :| e in x;
      SubsetCardinality(x - {e}, y - {e});
    }
  }

  /** Adding to `s1` an element of `a` it lacked leaves fewer elements of `a` outside. */
  lemma FewerLeft<T>(a: set<T>, s1: set<T>, s2: set<T>, e: T)
    requires s1 <= s2 && e in a && e !in s1 && e in s2
    ensures |a - s2| < |a - s1|
  {
    assert a - s2 <= (a - s1) - {e};
    SubsetCardinality(a - s2, (a - s1) - {e});
  }

  /** Two distinct URIs never load the same library object. */
  ghost predicate Injective(loader: map<string, Library>) {
    forall a, b :: a in loader && b in loader && a != b ==> loader[a] != loader[b]
  }

  /** `libraries.get(uri)` once every loadable library has been loaded: null for the others. */
  function Lookup(loader: map<string, Library>, uri: string): (r: LibraryUnit.LibraryUnit?)
    ensures r != null <==> uri in loader
    ensures r != null ==> r == loader[uri]
  {
    if uri in loader then loader[uri] else null
  }

  /**
   * The imports `updateLibraries` appends to a library, one per import path whose source
   * exists: the library loaded for it, or null when it cannot be loaded.
   */
  function ResolvedImports(libSrc: LibrarySource, paths: seq<LibraryUnit.LibraryNode>,
                           importSource: (LibrarySource, LibraryUnit.LibraryNode) -> Option<LibrarySource>,
                           loader: map<string, Library>): (r: seq<LibraryUnit.LibraryUnit?>)
    ensures |r| <= |paths|
    ensures (forall p :: p in paths ==> importSource(libSrc, p).Some?) ==> |r| == |paths|
    ensures forall k :: 0 <= k < |r| ==> r[k] == null || r[k] in loader.Values
  {
    if |paths| == 0 then []
    else
      var last := paths[|paths| - 1];
      var front := ResolvedImports(libSrc, paths[..|paths| - 1], importSource, loader);
      var dep := importSource(libSrc, last);
      if dep.Some? then front + [Lookup(loader, dep.value.uri)] else front
  }

  lemma ResolvedImportsStep(libSrc: LibrarySource, paths: seq<LibraryUnit.LibraryNode>, i: nat,
                            importSource: (LibrarySource, LibraryUnit.LibraryNode) -> Option<LibrarySource>,
                            loader: map<string, Library>)
    requires i < |paths|
    ensures ResolvedImports(libSrc, paths[..i + 1], importSource, loader) ==
      ResolvedImports(libSrc, paths[..i], importSource, loader) +
      (if importSource(libSrc, paths[i]).Some? then [Lookup(loader, importSource(libSrc, paths[i]).value.uri)] else [])
  {
    assert paths[..i + 1][..i] == paths[..i];
  }

  /**
   * The prefixes `updateLibraries` records for a library, starting from `prefixes`: each import
   * path whose source exists and that carries a prefix maps the import it added (the library
   * loaded for it, or null) to that prefix, a later path overriding an earlier one.
   */
  function ResolvedPrefixes(prefixes: map<LibraryUnit.LibraryUnit?, string>, libSrc: LibrarySource,
                            paths: seq<LibraryUnit.LibraryNode>,
                            importSource: (LibrarySource, LibraryUnit.LibraryNode) -> Option<LibrarySource>,
                            loader: map<string, Library>): map<LibraryUnit.LibraryUnit?, string>
  {
    if |paths| == 0 then prefixes
    else
      var last := paths[|paths| - 1];
      var front := ResolvedPrefixes(prefixes, libSrc, paths[..|paths| - 1], importSource, loader);
      var dep := importSource(libSrc, last);
      if dep.Some? && last.prefix.Some? then front[Lookup(loader, dep.value.uri) := last.prefix.value] else front
  }

  lemma ResolvedPrefixesStep(prefixes: map<LibraryUnit.LibraryUnit?, string>, libSrc: LibrarySource,
                             paths: seq<LibraryUnit.LibraryNode>, i: nat,
                             importSource: (LibrarySource, LibraryUnit.LibraryNode) -> Option<LibrarySource>,
                             loader: map<string, Library>)
    requires i < |paths|
    ensures ResolvedPrefixes(prefixes, libSrc, paths[..i + 1], importSource, loader) ==
      var front := ResolvedPrefixes(prefixes, libSrc, paths[..i], importSource, loader);
      var dep := importSource(libSrc, paths[i]);
      if dep.Some? && paths[i].prefix.Some? then front[Lookup(loader, dep.value.uri) := paths[i].prefix.value] else front
  {
    assert paths[..i + 1][..i] == paths[..i];
  }

  /** The `k`-th import path exists, carries a prefix and adds the import `l`. */
  predicate PrefixedAt(libSrc: LibrarySource, paths: seq<LibraryUnit.LibraryNode>,
                       importSource: (LibrarySource, LibraryUnit.LibraryNode) -> Option<LibrarySource>,
                       loader: map<string, Library>, k: int, l: LibraryUnit.LibraryUnit?)
  {
    0 <= k < |paths| && importSource(libSrc, paths[k]).Some? && paths[k].prefix.Some? &&
    Lookup(loader, importSource(libSrc, paths[k]).value.uri) == l
  }

  /**
   * An import has a recorded prefix exactly when it had one before or a prefixed import path
   * adds it; the prefix is that of the last such path, and without one it is the earlier prefix.
   */
  lemma {:induction false} ResolvedPrefixOf(prefixes: map<LibraryUnit.LibraryUnit?, string>, libSrc: LibrarySource,
                                            paths: seq<LibraryUnit.LibraryNode>,
                                            importSource: (LibrarySource, LibraryUnit.LibraryNode) -> Option<LibrarySource>,
                                            loader: map<string, Library>, l: LibraryUnit.LibraryUnit?)
    ensures l in ResolvedPrefixes(prefixes, libSrc, paths, importSource, loader) <==>
      l in prefixes || exists k :: PrefixedAt(libSrc, paths, importSource, loader, k, l)
    ensures (exists k :: PrefixedAt(libSrc, paths, importSource, loader, k, l)) ==>
      exists k :: PrefixedAt(libSrc, paths, importSource, loader, k, l) &&
        ResolvedPrefixes(prefixes, libSrc, paths, importSource, loader)[l] == paths[k].prefix.value &&
        forall m :: k < m < |paths| ==> !PrefixedAt(libSrc, paths, importSource, loader, m, l)
    ensures l in prefixes && (forall k :: !PrefixedAt(libSrc, paths, importSource, loader, k, l)) ==>
      ResolvedPrefixes(prefixes, libSrc, paths, importSource, loader)[l] == prefixes[l]
  {
    if |paths| > 0 {
      var n := |paths| - 1;
      var front := paths[..n];
      ResolvedPrefixOf(prefixes, libSrc, front, importSource, loader, l);
      assert forall k :: PrefixedAt(libSrc, front, importSource, loader, k, l) <==>
        k < n && PrefixedAt(libSrc, paths, importSource, loader, k, l);
      if !PrefixedAt(libSrc, paths, importSource, loader, n, l) {
        if exists k :: PrefixedAt(libSrc, paths, importSource, loader, k, l) {
          var k :| PrefixedAt(libSrc, paths, importSource, loader, k, l);
          assert PrefixedAt(libSrc, front, importSource, loader, k, l);
        }
      }
    }
  }

  lemma AppendAssoc<T>(a: seq<T>, b: seq<T>, c: T)
    ensures (a + b) + [c] == a + (b + [c])
  {
  }

  /** Every import path whose source exists and can be loaded names a URI among `keys`. */
  ghost predicate ImportsLoaded(keys: set<string>, libSrc: LibrarySource, paths: seq<LibraryUnit.LibraryNode>,
                                importSource: (LibrarySource, LibraryUnit.LibraryNode) -> Option<LibrarySource>,
                                loader: map<string, Library>)
  {
    forall p :: p in paths && importSource(libSrc, p).Some? && importSource(libSrc, p).value.uri in loader ==>
      importSource(libSrc, p).value.uri in keys
  }

  lemma ImportsLoadedStep(keys1: set<string>, keys2: set<string>, libSrc: LibrarySource,
                          paths: seq<LibraryUnit.LibraryNode>, i: nat,
                          importSource: (LibrarySource, LibraryUnit.LibraryNode) -> Option<LibrarySource>,
                          loader: map<string, Library>)
    requires i < |paths| && keys1 <= keys2 && ImportsLoaded(keys1, libSrc, paths[..i], importSource, loader)
    requires importSource(libSrc, paths[i]).Some? && importSource(libSrc, paths[i]).value.uri in loader ==>
      importSource(libSrc, paths[i]).value.uri in keys2
    ensures ImportsLoaded(keys2, libSrc, paths[..i + 1], importSource, loader)
  {
    assert forall p :: p in paths[..i + 1] ==> p in paths[..i] || p == paths[i];
  }

  /**
   * `importEmbeddedLibraries` for one library: each embedded library is appended unless it is
   * the library itself or already imported.
   */
  function WithEmbedded(imports: seq<LibraryUnit.LibraryUnit?>, lib: Library, embedded: seq<LibraryUnit.LibraryUnit?>): (r: seq<LibraryUnit.LibraryUnit?>)
    ensures imports <= r
    ensures forall x :: x in embedded && x != lib ==> x in r
    ensures forall k :: |imports| <= k < |r| ==> r[k] in embedded && r[k] != lib && r[k] !in imports
    ensures forall k, m :: |imports| <= k < m < |r| ==> r[k] != r[m]
  {
    if |embedded| == 0 then imports
    else
      var last := embedded[|embedded| - 1];
      var front := WithEmbedded(imports, lib, embedded[..|embedded| - 1]);
      assert forall x :: x in embedded ==> x in embedded[..|embedded| - 1] || x == last;
      if last != lib && last !in front then front + [last] else front
  }

  lemma WithEmbeddedStep(imports: seq<LibraryUnit.LibraryUnit?>, lib: Library, embedded: seq<LibraryUnit.LibraryUnit?>, j: nat)
    requires j < |embedded|
    ensures WithEmbedded(imports, lib, embedded[..j + 1]) ==
      var front := WithEmbedded(imports, lib, embedded[..j]);
      if embedded[j] != lib && embedded[j] !in front then front + [embedded[j]] else front
  {
    assert embedded[..j + 1][..j] == embedded[..j];
  }

  /** `Compiler`: the libraries of one compilation, by URI, in the order they were loaded. */
  class Compiler {
    var libraries: map<string, Library>
    /** The iteration order of the `LinkedHashMap`: URIs in the order they were put. */
    var order: seq<string>
    /** The embedded libraries, the core library last. */
    const embeddedLibraries: seq<LibrarySource>
    const coreLibrarySource: LibrarySource
    const incremental: bool
    /** `SystemLibraryManager.isDartUri`, which is not part of this model. */
    const isDartUri: string -> bool
    /** What `context.getLibraryUnit` gives for each URI it can load. */
    const loader: map<string, Library>
    /** `getImportSource`: the source an import path names, if it exists. */
    const importSource: (LibrarySource, LibraryUnit.LibraryNode) -> Option<LibrarySource>
    /** The library objects the loader can give. */
    ghost const libs: set<Library>

    /** The loaded libraries are those the loader gives, each URI once in `order`. */
    ghost predicate Valid()
      reads this
    {
      (forall k :: k in libraries ==> k in loader && libraries[k] == loader[k]) &&
      (forall k :: k in libraries <==> k in order) &&
      (forall i, j :: 0 <= i < j < |order| ==> order[i] != order[j])
    }

    /** Distinct URIs load distinct library objects, all among `libs`. */
    ghost predicate LoaderOk() {
      Injective(loader) && (forall k :: k in loader ==> loader[k] in libs)
    }

    /**
     * The compiler for one application. `embedded` are the embedded libraries with `dart:` names
     * already replaced by their system library sources; the core library is appended to them.
     */
    constructor (embedded: seq<LibrarySource>, coreLibrarySource: LibrarySource, incremental: bool,
                 loader: map<string, Library>,
                 importSource: (LibrarySource, LibraryUnit.LibraryNode) -> Option<LibrarySource>,
                 isDartUri: string -> bool)
      requires Injective(loader)
      ensures Valid() && LoaderOk()
      ensures libraries == map[] && order == []
      ensures embeddedLibraries == embedded + [coreLibrarySource] && this.coreLibrarySource == coreLibrarySource
      ensures this.incremental == incremental
      ensures this.loader == loader && this.importSource == importSource && this.isDartUri == isDartUri
    {
      libraries := map[];
      order := [];
      embeddedLibraries := embedded + [coreLibrarySource];
      this.coreLibrarySource := coreLibrarySource;
      this.incremental := incremental;
      this.isDartUri := isDartUri;
      this.loader := loader;
      this.importSource := importSource;
      libs := loader.Values;
    }

    /** The library objects of the URIs not loaded yet: the only ones loading may give imports. */
    ghost function Unloaded(): set<Library>
      reads this
    {
      set k | k in loader && k !in libraries :: loader[k]
    }

    /** Loading more libraries leaves fewer to load. */
    lemma UnloadedShrinks(keys: set<string>, uri: string)
      requires keys <= libraries.Keys
      ensures Unloaded() <= set k | k in loader && k !in keys :: loader[k]
      ensures |loader.Keys - (libraries.Keys - {uri})| <= |loader.Keys - (keys - {uri})|
    {
      SubsetCardinality(loader.Keys - (libraries.Keys - {uri}), loader.Keys - (keys - {uri}));
    }

    /** A library already loaded is not among those still to load. */
    lemma LoadedNotUnloaded(uri: string)
      requires Valid() && LoaderOk() && uri in libraries
      ensures libraries[uri] !in Unloaded()
    {
      forall k | k in loader && k !in libraries
        ensures loader[k] != libraries[uri]
      {
        assert k != uri;
      }
    }

    /**
     * `updateLibraries`: a library already loaded is returned as it is; a library the loader
     * cannot give is null; any other is loaded.
     */
    method UpdateLibraries(libSrc: LibrarySource) returns (r: LibraryUnit.LibraryUnit?)
      requires Valid() && LoaderOk()
      modifies this`libraries, this`order, Unloaded()`imports, Unloaded()`prefixes
      ensures Valid() && old(order) <= order
      ensures libSrc.uri in old(libraries) ==> r == old(libraries[libSrc.uri]) && libraries == old(libraries) && order == old(order)
      ensures libSrc.uri !in loader ==> r == null && libraries == old(libraries) && order == old(order)
      ensures libSrc.uri in loader ==> libSrc.uri in libraries && r == loader[libSrc.uri]
      ensures libSrc.uri in loader && libSrc.uri !in old(libraries) ==> Loaded(r, libSrc)
      decreases |loader.Keys - libraries.Keys|, 4
    {
      var uri := libSrc.uri;
      if uri in libraries {
        return libraries[uri];
      }
      if uri !in loader {
        return null;
      }
      r := Load(libSrc);
    }

    /** After `lib` was loaded for `libSrc`: its imports, and every import it could load is loaded. */
    twostate predicate Loaded(lib: Library, libSrc: LibrarySource)
      reads this, lib
    {
      lib.imports == old(lib.imports) + ResolvedImports(libSrc, lib.importPaths, importSource, loader) &&
      lib.prefixes == ResolvedPrefixes(old(lib.prefixes), libSrc, lib.importPaths, importSource, loader) &&
      ImportsLoaded(libraries.Keys, libSrc, lib.importPaths, importSource, loader)
    }

    /**
     * Loading a library: it is cached under its URI before its imports are followed (so import
     * cycles end), then given one import per import path whose source exists.
     */
    method Load(libSrc: LibrarySource) returns (r: Library)
      requires Valid() && LoaderOk() && libSrc.uri !in libraries && libSrc.uri in loader
      modifies this`libraries, this`order, Unloaded()`imports, Unloaded()`prefixes
      ensures Valid() && old(order) <= order
      ensures libSrc.uri in libraries && r == loader[libSrc.uri]
      ensures Loaded(r, libSrc)
      decreases |loader.Keys - libraries.Keys|, 3
    {
      var uri := libSrc.uri;
      r := loader[uri];
      Cache(uri);
      assert libraries.Keys - {uri} == old(libraries).Keys;
      ImportAll(r, libSrc);
    }

    /** `libraries.put(uri, lib)` for a URI not yet loaded: it goes last in the iteration order. */
    method Cache(uri: string)
      requires Valid() && uri !in libraries && uri in loader
      modifies this`libraries, this`order
      ensures Valid()
      ensures libraries == old(libraries)[uri := loader[uri]] && order == old(order) + [uri]
    {
      libraries := libraries[uri := loader[uri]];
      order := order + [uri];
    }

    /** The import loop of `updateLibraries` has dealt with the first `i` import paths of `lib`. */
    ghost predicate Importing(lib: Library, libSrc: LibrarySource, paths: seq<LibraryUnit.LibraryNode>, i: nat,
                              imports0: seq<LibraryUnit.LibraryUnit?>, prefixes0: map<LibraryUnit.LibraryUnit?, string>)
      reads this, lib
    {
      i <= |paths| && Valid() && libSrc.uri in libraries && libraries[libSrc.uri] == lib &&
      lib.imports == imports0 + ResolvedImports(libSrc, paths[..i], importSource, loader) &&
      lib.prefixes == ResolvedPrefixes(prefixes0, libSrc, paths[..i], importSource, loader) &&
      ImportsLoaded(libraries.Keys, libSrc, paths[..i], importSource, loader)
    }

    /** Since `keys0` and `order0`, the loaded libraries only grew. */
    ghost predicate Grown(keys0: set<string>, order0: seq<string>, unloaded0: set<Library>, uri: string, left0: nat)
      reads this
    {
      keys0 <= libraries.Keys && order0 <= order && Unloaded() <= unloaded0 &&
      |loader.Keys - (libraries.Keys - {uri})| <= left0
    }

    /** The import loop of `updateLibraries`. */
    method ImportAll(lib: Library, libSrc: LibrarySource)
      requires Valid() && LoaderOk() && libSrc.uri in libraries && libraries[libSrc.uri] == lib
      modifies this`libraries, this`order, {lib}`imports, {lib}`prefixes, Unloaded()`imports, Unloaded()`prefixes
      ensures Valid()
      ensures old(libraries).Keys <= libraries.Keys && old(order) <= order
      ensures lib.imports == old(lib.imports) + ResolvedImports(libSrc, lib.importPaths, importSource, loader)
      ensures lib.prefixes == ResolvedPrefixes(old(lib.prefixes), libSrc, lib.importPaths, importSource, loader)
      ensures ImportsLoaded(libraries.Keys, libSrc, lib.importPaths, importSource, loader)
      decreases |loader.Keys - (libraries.Keys - {libSrc.uri})|, 2
    {
      var paths := lib.importPaths;
      ghost var imports0 := lib.imports;
      ghost var prefixes0 := lib.prefixes;
      ghost var unloaded0 := Unloaded();
      ghost var left0 := |loader.Keys - (libraries.Keys - {libSrc.uri})|;
      ImportingStart(lib, libSrc, paths);
      for i := 0 to |paths|
        invariant Importing(lib, libSrc, paths, i, imports0, prefixes0)
        invariant Grown(old(libraries).Keys, old(order), unloaded0, libSrc.uri, left0)
      {
        ghost var keys := libraries.Keys;
        ImportOne(lib, libSrc, paths, i, imports0, prefixes0);
        UnloadedShrinks(keys, libSrc.uri);
      }
      ImportingEnd(lib, libSrc, paths, imports0, prefixes0);
    }

    lemma ImportingStart(lib: Library, libSrc: LibrarySource, paths: seq<LibraryUnit.LibraryNode>)
      requires Valid() && libSrc.uri in libraries && libraries[libSrc.uri] == lib
      ensures Importing(lib, libSrc, paths, 0, lib.imports, lib.prefixes)
    {
      assert paths[..0] == [];
      assert lib.imports + [] == lib.imports;
    }

    lemma ImportingEnd(lib: Library, libSrc: LibrarySource, paths: seq<LibraryUnit.LibraryNode>,
                       imports0: seq<LibraryUnit.LibraryUnit?>, prefixes0: map<LibraryUnit.LibraryUnit?, string>)
      requires Importing(lib, libSrc, paths, |paths|, imports0, prefixes0)
      ensures Valid()
      ensures lib.imports == imports0 + ResolvedImports(libSrc, paths, importSource, loader)
      ensures lib.prefixes == ResolvedPrefixes(prefixes0, libSrc, paths, importSource, loader)
      ensures ImportsLoaded(libraries.Keys, libSrc, paths, importSource, loader)
    {
      assert paths[..|paths|] == paths;
    }

    /**
     * One step of the import loop, `lib.addImport(updateLibraries(dep), libNode)` for the
     * `i`-th import path when its source exists.
     */
    method ImportOne(lib: Library, libSrc: LibrarySource, paths: seq<LibraryUnit.LibraryNode>, i: nat,
                     ghost imports0: seq<LibraryUnit.LibraryUnit?>, ghost prefixes0: map<LibraryUnit.LibraryUnit?, string>)
      requires i < |paths| && LoaderOk() && Importing(lib, libSrc, paths, i, imports0, prefixes0)
      modifies this`libraries, this`order, {lib}`imports, {lib}`prefixes, Unloaded()`imports, Unloaded()`prefixes
      ensures Importing(lib, libSrc, paths, i + 1, imports0, prefixes0)
      ensures old(libraries).Keys <= libraries.Keys && old(order) <= order
      decreases |loader.Keys - (libraries.Keys - {libSrc.uri})|, 1
    {
      ResolvedImportsStep(libSrc, paths, i, importSource, loader);
      ResolvedPrefixesStep(prefixes0, libSrc, paths, i, importSource, loader);
      ghost var keys := libraries.Keys;
      var dep := importSource(libSrc, paths[i]);
      if dep.Some? {
        var imp := ImportFound(lib, libSrc, dep.value, paths[i]);
        AppendAssoc(imports0, ResolvedImports(libSrc, paths[..i], importSource, loader), imp);
      } else {
        assert ResolvedImports(libSrc, paths[..i + 1], importSource, loader) == ResolvedImports(libSrc, paths[..i], importSource, loader);
      }
      ImportsLoadedStep(keys, libraries.Keys, libSrc, paths, i, importSource, loader);
    }

    /** `lib.addImport(updateLibraries(dep), libNode)` for an import path whose source `dep` exists. */
    method ImportFound(lib: Library, libSrc: LibrarySource, dep: LibrarySource, node: LibraryUnit.LibraryNode)
      returns (imp: LibraryUnit.LibraryUnit?)
      requires Valid() && LoaderOk() && libSrc.uri in libraries && libraries[libSrc.uri] == lib
      modifies this`libraries, this`order, {lib}`imports, {lib}`prefixes, Unloaded()`imports, Unloaded()`prefixes
      ensures Valid() && libSrc.uri in libraries && libraries[libSrc.uri] == lib
      ensures old(libraries).Keys <= libraries.Keys && old(order) <= order
      ensures imp == Lookup(loader, dep.uri) && (dep.uri in loader ==> dep.uri in libraries)
      ensures lib.imports == old(lib.imports) + [imp]
      ensures lib.prefixes == if node.prefix.Some? then old(lib.prefixes)[imp := node.prefix.value] else old(lib.prefixes)
      decreases |loader.Keys - (libraries.Keys - {libSrc.uri})|, 0
    {
      FewerLeft(loader.Keys, libraries.Keys - {libSrc.uri}, libraries.Keys, libSrc.uri);
      LoadedNotUnloaded(libSrc.uri);
      imp := UpdateLibraries(dep);
      lib.AddImport(imp, node);
    }

    /* -------------------------------------------------------------------------------------
     * importEmbeddedLibraries.
     * ------------------------------------------------------------------------------------- */

    /**
     * `importEmbeddedLibraries`: every embedded library the loader can give is loaded, then
     * every loaded library imports each embedded library other than itself.
     */
    method ImportEmbeddedLibraries()
      requires Valid() && LoaderOk()
      modifies this`libraries, this`order, libs`imports, libs`prefixes
      ensures Valid() && old(order) <= order
      ensures forall e :: e in embeddedLibraries && e.uri in loader ==> e.uri in libraries
      ensures forall k, e :: k in libraries && e in embeddedLibraries ==>
        Lookup(libraries, e.uri) == libraries[k] || Lookup(libraries, e.uri) in libraries[k].imports
    {
      LoadEmbedded();
      ImportEmbedded();
      forall k, e | k in libraries && e in embeddedLibraries
        ensures Lookup(libraries, e.uri) == libraries[k] || Lookup(libraries, e.uri) in libraries[k].imports
      {
        LookupAllHas(libraries, embeddedLibraries, e);
      }
    }

    /** The first loop of `importEmbeddedLibraries`: `updateLibraries` on each embedded library. */
    method LoadEmbedded()
      requires Valid() && LoaderOk()
      modifies this`libraries, this`order, Unloaded()`imports, Unloaded()`prefixes
      ensures Valid() && LoaderOk() && old(order) <= order
      ensures forall e :: e in embeddedLibraries && e.uri in loader ==> e.uri in libraries
    {
      for i := 0 to |embeddedLibraries|
        invariant Valid() && old(order) <= order && old(libraries).Keys <= libraries.Keys
        invariant forall j :: 0 <= j < i && embeddedLibraries[j].uri in loader ==> embeddedLibraries[j].uri in libraries
      {
        var _ := UpdateLibraries(embeddedLibraries[i]);
      }
    }

    /**
     * The second loop of `importEmbeddedLibraries`: each loaded library, in load order, is given
     * the embedded imports it lacks.
     */
    method ImportEmbedded()
      requires Valid() && LoaderOk()
      modifies libs`imports, libs`prefixes
      ensures forall k :: k in libraries ==>
        libraries[k].imports == WithEmbedded(old(libraries[k].imports), libraries[k], LookupAll(libraries, embeddedLibraries))
      ensures forall k :: k in libraries ==> libraries[k].prefixes == old(libraries[k].prefixes)
    {
      ghost var imps := LookupAll(libraries, embeddedLibraries);
      for i := 0 to |order|
        invariant forall j :: 0 <= j < i ==>
          libraries[order[j]].imports == WithEmbedded(old(libraries[order[j]].imports), libraries[order[j]], imps)
        invariant forall j :: i <= j < |order| ==> libraries[order[j]].imports == old(libraries[order[j]].imports)
        invariant forall j :: 0 <= j < |order| ==> libraries[order[j]].prefixes == old(libraries[order[j]].prefixes)
      {
        var lib := libraries[order[i]];
        ImportInto(lib);
        forall j | 0 <= j < |order| && j != i
          ensures libraries[order[j]] != lib
        {
          DistinctLoaded(i, j);
        }
      }
      forall k | k in libraries
        ensures exists j :: 0 <= j < |order| && order[j] == k
      {
        assert k in order;
      }
    }

    /** Libraries at two positions of the load order are two objects. */
    lemma DistinctLoaded(i: nat, j: nat)
      requires Valid() && LoaderOk() && i < |order| && j < |order| && i != j
      ensures libraries[order[i]] != libraries[order[j]]
    {
      assert order[i] in libraries && order[j] in libraries;
    }

    /** The inner loop of `importEmbeddedLibraries` for one library. */
    method ImportInto(lib: Library)
      modifies lib`imports, lib`prefixes
      ensures lib.imports == WithEmbedded(old(lib.imports), lib, LookupAll(libraries, embeddedLibraries))
      ensures lib.prefixes == old(lib.prefixes)
    {
      ghost var imports0 := lib.imports;
      ghost var imps := LookupAll(libraries, embeddedLibraries);
      assert imps[..0] == [];
      for j := 0 to |embeddedLibraries|
        invariant lib.imports == WithEmbedded(imports0, lib, imps[..j])
        invariant lib.prefixes == old(lib.prefixes)
      {
        var imp := Lookup(libraries, embeddedLibraries[j].uri);
        WithEmbeddedStep(imports0, lib, imps, j);
        if lib != imp && !lib.HasImport(imp) {
          lib.AddImport(imp, null);
        }
      }
      assert imps[..|embeddedLibraries|] == imps;
    }

  }

  /** The library loaded for each source (null when there is none), in order. */
  function LookupAll(m: map<string, Library>, srcs: seq<LibrarySource>): (r: seq<LibraryUnit.LibraryUnit?>)
    ensures |r| == |srcs|
    ensures forall i :: 0 <= i < |srcs| ==> r[i] == Lookup(m, srcs[i].uri)
  {
    if |srcs| == 0 then [] else LookupAll(m, srcs[..|srcs| - 1]) + [Lookup(m, srcs[|srcs| - 1].uri)]
  }

  lemma LookupAllHas(m: map<string, Library>, srcs: seq<LibrarySource>, e: LibrarySource)
    requires e in srcs
    ensures Lookup(m, e.uri) in LookupAll(m, srcs)
  {
    var i :| 0 <= i < |srcs| && srcs[i] == e;
    assert LookupAll(m, srcs)[i] == Lookup(m, e.uri);
  }

  /* ---------------------------------------------------------------------------------------
   * findLibrary.
   * --------------------------------------------------------------------------------------- */

  /** The outcome of `findLibrary`; `NullImport` is the `NullPointerException` a null import raises. */
  datatype Search = Found(library: Library) | NotFound | NullImport

  /** One of the library's `#source` paths is `uri`. */
  ghost predicate HasSourcePath(lib: Library, uri: string)
    reads lib
  {
    exists j :: 0 <= j < |lib.sourcePaths| && lib.sourcePaths[j].text == uri
  }

  /** The libraries of `universe` import only null or libraries of `universe`. */
  ghost predicate Closed(universe: set<Library>)
    reads universe
  {
    forall l, j :: l in universe && 0 <= j < |l.imports| && l.imports[j] != null ==> l.imports[j] in universe
  }

  /** Distinct libraries have distinct library elements. */
  ghost predicate ElementsDistinct(universe: set<Library>) {
    forall a, b :: a in universe && b in universe && a != b ==> a.element != b.element
  }

  /** The library elements of `universe`. */
  ghost function Elements(universe: set<Library>): set<Element> {
    set l | l in universe :: l.element
  }

  /**
   * The libraries first seen between `seen` and `seenOut` lack the source path, and all their
   * imports are libraries already seen.
   */
  ghost predicate Exhausted(universe: set<Library>, seen: set<Element>, seenOut: set<Element>, uri: string)
    reads universe
  {
    forall l :: l in universe && l.element in seenOut && l.element !in seen ==>
      !HasSourcePath(l, uri) && forall j :: 0 <= j < |l.imports| ==> l.imports[j] != null && l.imports[j].element in seenOut
  }

  /**
   * `findLibrary`: a depth-first search from `lib` over imports that returns the first library
   * with the source path `uri`, and nothing for a library whose element was seen already.
   */
  method FindLibrary(lib: Library, uri: string, seen: set<Element>, ghost universe: set<Library>)
    returns (r: Search, seenOut: set<Element>)
    requires lib in universe && Closed(universe) && ElementsDistinct(universe)
    ensures seen <= seenOut <= seen + Elements(universe)
    ensures lib.element in seenOut
    ensures lib.element in seen ==> r == NotFound && seenOut == seen
    ensures lib.element !in seen && HasSourcePath(lib, uri) ==> r == Found(lib)
    ensures r.Found? ==> r.library in universe && HasSourcePath(r.library, uri)
    ensures r.NotFound? ==> Exhausted(universe, seen, seenOut, uri)
    decreases |Elements(universe) - seen|
  {
    if lib.element in seen {
      return NotFound, seen;
    }
    seenOut := seen + {lib.element};
    for i := 0 to |lib.sourcePaths|
      invariant forall j :: 0 <= j < i ==> lib.sourcePaths[j].text != uri
    {
      if lib.sourcePaths[i].text == uri {
        return Found(lib), seenOut;
      }
    }
    for i := 0 to |lib.imports|
      invariant seen + {lib.element} <= seenOut <= seen + Elements(universe)
      invariant forall j :: 0 <= j < i ==> lib.imports[j] != null && lib.imports[j].element in seenOut
      invariant Exhausted(universe, seen + {lib.element}, seenOut, uri)
    {
      var importedLibrary := lib.imports[i];
      if importedLibrary == null {
        return NullImport, seenOut;
      }
      FewerLeft(Elements(universe), seen, seenOut, lib.element);
      ghost var before := seenOut;
      var unit;
      unit, seenOut := FindLibrary(importedLibrary, uri, seenOut, universe);
      if !unit.NotFound? {
        return unit, seenOut;
      }
      ExhaustedTrans(universe, seen + {lib.element}, before, seenOut, uri);
    }
    ExhaustedAdd(universe, seen, seenOut, uri, lib);
    return NotFound, seenOut;
  }

  lemma ExhaustedTrans(universe: set<Library>, s1: set<Element>, s2: set<Element>, s3: set<Element>, uri: string)
    requires s1 <= s2 <= s3
    requires Exhausted(universe, s1, s2, uri) && Exhausted(universe, s2, s3, uri)
    ensures Exhausted(universe, s1, s3, uri)
  {
  }

  lemma ExhaustedAdd(universe: set<Library>, seen: set<Element>, seenOut: set<Element>, uri: string, lib: Library)
    requires lib in universe && ElementsDistinct(universe) && seen + {lib.element} <= seenOut
    requires Exhausted(universe, seen + {lib.element}, seenOut, uri)
    requires !HasSourcePath(lib, uri)
    requires forall j :: 0 <= j < |lib.imports| ==> lib.imports[j] != null && lib.imports[j].element in seenOut
    ensures Exhausted(universe, seen, seenOut, uri)
  {
  }

  /** `lib` reaches `target` over `steps` non-null imports. */
  ghost predicate Reaches(lib: Library, target: Library, steps: nat)
    reads *
    decreases steps
  {
    if steps == 0 then lib == target
    else exists j :: 0 <= j < |lib.imports| && lib.imports[j] != null && Reaches(lib.imports[j], target, steps - 1)
  }

  /**
   * When the search from `lib` with nothing seen finds nothing, no library `lib` reaches over
   * imports has the source path.
   */
  lemma {:induction false} NotFoundMeansUnreachable(universe: set<Library>, seenOut: set<Element>, uri: string,
                                                    lib: Library, target: Library, steps: nat)
    requires lib in universe && lib.element in seenOut && Exhausted(universe, {}, seenOut, uri)
    requires Closed(universe) && Reaches(lib, target, steps)
    ensures target in universe && target.element in seenOut && !HasSourcePath(target, uri)
    decreases steps
  {
    if steps > 0 {
      var j :| 0 <= j < |lib.imports| && lib.imports[j] != null && Reaches(lib.imports[j], target, steps - 1);
      NotFoundMeansUnreachable(universe, seenOut, uri, lib.imports[j], target, steps - 1);
    }
  }

  /** `getCoreLib`: the library reachable from `lib` that has the source path "corelib.dart". */
  method GetCoreLib(lib: Library, ghost universe: set<Library>) returns (r: Search)
    requires lib in universe && Closed(universe) && ElementsDistinct(universe)
    ensures r.Found? ==> r.library in universe && HasSourcePath(r.library, CoreLibPath)
    ensures HasSourcePath(lib, CoreLibPath) ==> r == Found(lib)
    ensures r.NotFound? ==> forall t, n :: Reaches(lib, t, n) ==> !HasSourcePath(t, CoreLibPath)
  {
    var seenOut;
    r, seenOut := FindLibrary(lib, CoreLibPath, {}, universe);
    if r.NotFound? {
      forall t, n | Reaches(lib, t, n)
        ensures !HasSourcePath(t, CoreLibPath)
      {
        NotFoundMeansUnreachable(universe, seenOut, CoreLibPath, lib, t, n);
      }
    }
  }

  const CoreLibPath := "corelib.dart"
}
