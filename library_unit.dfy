/**
 * `LibraryUnit`: the parsed form of a library. It holds the library's compilation units in a
 * map sorted by source name, its imports with their prefixes, its source paths and the
 * memoised dependency record of the incremental compiler.
 */
module LibraryUnit {
  import opened Wrappers
  import opened ElementModel
  import Strings
  import Scope

  /** A `#import`/`#source` directive: its path text and, for imports, an optional prefix. */
  class LibraryNode {
    const text: string
    const prefix: Option<string>

    constructor (text: string, prefix: Option<string>)
      ensures this.text == text && this.prefix == prefix
    {
      this.text := text;
      this.prefix := prefix;
    }
  }

  /** A compilation unit. `library` is set when the unit is put into a library. */
  class DartUnit {
    const sourceName: string
    const source: UnitSource
    const isDiet: bool
    const topLevelNodes: seq<TopLevelNode>
    const topDeclarationNames: set<string>
    var library: LibraryUnit?

    constructor (sourceName: string, source: UnitSource, isDiet: bool, topLevelNodes: seq<TopLevelNode>,
                 topDeclarationNames: set<string>)
      ensures this.sourceName == sourceName && this.source == source && this.isDiet == isDiet
      ensures this.topLevelNodes == topLevelNodes && this.topDeclarationNames == topDeclarationNames
      ensures library == null
    {
      this.sourceName := sourceName;
      this.source := source;
      this.isDiet := isDiet;
      this.topLevelNodes := topLevelNodes;
      this.topDeclarationNames := topDeclarationNames;
      library := null;
    }
  }

  /** A recorded dependency of a unit: the library URI, the unit name and its time stamp. */
  datatype Dependency = Dependency(libUri: string, unitName: string, lastModified: int)

  /** The dependency record of one unit (`LibraryDeps.Source`). */
  datatype DepsSource = DepsSource(
    topSymbols: set<string>,
    allSymbols: set<string>,
    holes: set<string>,
    deps: seq<Dependency>,
    recompileOnAnyTopLevelChange: bool)

  /** The dependency record of a library, keyed by unit path (`LibraryDeps`). */
  datatype LibraryDeps = LibraryDeps(sources: map<string, DepsSource>) {
    function GetSource(relPath: string): (r: Option<DepsSource>)
      ensures r.Some? <==> relPath in sources
      ensures r.Some? ==> r.value == sources[relPath]
    {
      if relPath in sources then Some(sources[relPath]) else None
    }
  }

  const EmptyDeps := LibraryDeps(map[])

  /** Units listed in strictly ascending source-name order, as the sorted map iterates them. */
  ghost predicate SortedUnits(us: seq<DartUnit>) {
    forall i, j :: 0 <= i < j < |us| ==> Strings.Less(us[i].sourceName, us[j].sourceName)
  }

  /** The unit stored under `n`, if any. */
  function FindUnit(us: seq<DartUnit>, n: string): (r: Option<DartUnit>)
    ensures r.Some? ==> r.value in us && r.value.sourceName == n
    ensures r.None? <==> forall i :: 0 <= i < |us| ==> us[i].sourceName != n
  {
    if |us| == 0 then None
    else if us[0].sourceName == n then Some(us[0])
    else FindUnit(us[1..], n)
  }

  /** In a sorted unit list, each name is found at its one position. */
  lemma {:induction false} FindUnitSorted(us: seq<DartUnit>, i: nat)
    requires SortedUnits(us) && i < |us|
    ensures FindUnit(us, us[i].sourceName) == Some(us[i])
  {
    if i > 0 {
      Strings.LessIrreflexive(us[0].sourceName);
      assert us[0].sourceName != us[i].sourceName;
      assert us[1..][i - 1] == us[i];
      FindUnitSorted(us[1..], i - 1);
    }
  }

  lemma FindUnitEach(us: seq<DartUnit>)
    requires SortedUnits(us)
    ensures forall i :: 0 <= i < |us| ==> FindUnit(us, us[i].sourceName) == Some(us[i])
  {
    forall i | 0 <= i < |us|
      ensures FindUnit(us, us[i].sourceName) == Some(us[i])
    {
      FindUnitSorted(us, i);
    }
  }

  /** The self source path: the text after the last '/', or all of it when there is none. */
  function SelfPath(schemeSpecificPart: string): (r: string)
    ensures '/' !in r
    ensures '/' !in schemeSpecificPart ==> r == schemeSpecificPart
    ensures '/' in schemeSpecificPart ==>
      exists k :: 0 <= k < |schemeSpecificPart| && schemeSpecificPart[k] == '/' && schemeSpecificPart == schemeSpecificPart[..k + 1] + r
  {
    var lastSlash := Strings.LastIndexOf(schemeSpecificPart, '/');
    if lastSlash > -1 then
      var r := schemeSpecificPart[lastSlash + 1..];
      assert schemeSpecificPart == schemeSpecificPart[..lastSlash + 1] + r;
      assert forall i :: 0 <= i < |r| ==> r[i] == schemeSpecificPart[lastSlash + 1 + i];
      r
    else schemeSpecificPart
  }

  class LibraryUnit {
    const libSource: LibrarySource
    const selfSourcePath: LibraryNode
    const element: Element
    /** The scope of the library element. */
    const scope: Scope.Scope
    var importPaths: seq<LibraryNode>
    var sourcePaths: seq<LibraryNode>
    var units: seq<DartUnit>
    var imports: seq<LibraryUnit?>
    var prefixes: map<LibraryUnit?, string>
    var deps: Option<LibraryDeps>
    var sourceCount: nat

    ghost predicate Valid()
      reads this`units, this`sourceCount, this`sourcePaths
    {
      SortedUnits(units) && sourceCount == |sourcePaths|
    }

    /** The library element and its scope are made by code that is not part of this model. */
    constructor (libSource: LibrarySource, element: Element, scope: Scope.Scope)
      ensures Valid()
      ensures this.libSource == libSource && this.element == element && this.scope == scope
      ensures fresh(selfSourcePath) && selfSourcePath.text == SelfPath(libSource.schemeSpecificPart)
      ensures selfSourcePath.prefix.None?
      ensures importPaths == [] && sourcePaths == [] && units == [] && imports == [] && prefixes == map[]
      ensures deps.None? && sourceCount == 0
    {
      this.libSource := libSource;
      this.element := element;
      this.scope := scope;
      selfSourcePath := new LibraryNode(SelfPath(libSource.schemeSpecificPart), None);
      importPaths := [];
      sourcePaths := [];
      units := [];
      imports := [];
      prefixes := map[];
      deps := None;
      sourceCount := 0;
    }

    method AddImportPath(path: LibraryNode)
      modifies this`importPaths
      ensures importPaths == old(importPaths) + [path]
    {
      importPaths := importPaths + [path];
    }

    /** `addSourcePath` appends the path and counts it. */
    method AddSourcePath(path: LibraryNode)
      requires Valid()
      modifies this`sourcePaths, this`sourceCount
      ensures Valid()
      ensures sourcePaths == old(sourcePaths) + [path]
      ensures GetSourceCount() == old(GetSourceCount()) + 1
    {
      sourcePaths := sourcePaths + [path];
      sourceCount := sourceCount + 1;
    }

    /** `getSourceCount`: the number of source paths added. */
    function GetSourceCount(): (r: nat)
      requires Valid()
      reads this`units, this`sourceCount, this`sourcePaths
      ensures r == |sourcePaths|
    {
      sourceCount
    }

    /**
     * `putUnit`: makes this library the unit's library and stores the unit under its source
     * name, replacing any unit of that name; the units stay sorted.
     */
    method PutUnit(unit: DartUnit)
      requires Valid()
      modifies this`units, unit`library
      ensures Valid()
      ensures unit.library == this
      ensures GetUnit(unit.sourceName) == Some(unit)
      ensures forall n :: n != unit.sourceName ==> GetUnit(n) == old(GetUnit(n))
    {
      unit.library := this;
      var name := unit.sourceName;
      var i := 0;
      while i < |units| && Strings.Less(units[i].sourceName, name)
        invariant 0 <= i <= |units|
        invariant forall k :: 0 <= k < i ==> Strings.Less(units[k].sourceName, name)
      {
        i := i + 1;
      }
      ghost var was := units;
      if i < |units| && units[i].sourceName == name {
        units := units[i := unit];
        ReplaceKeepsSorted(was, i, unit);
      } else {
        units := units[..i] + [unit] + units[i..];
        InsertKeepsSorted(was, i, unit);
      }
    }

    /** `getUnit`: the unit stored under `sourceName`, or null. */
    function GetUnit(sourceName: string): (r: Option<DartUnit>)
      requires Valid()
      reads this`units, this`sourceCount, this`sourcePaths
      ensures r.Some? <==> exists i :: 0 <= i < |units| && units[i].sourceName == sourceName
      ensures r.Some? ==> r.value in units && r.value.sourceName == sourceName
    {
      FindUnit(units, sourceName)
    }

    /** `getUnits`: all units, in ascending source-name order. */
    function GetUnits(): (r: seq<DartUnit>)
      requires Valid()
      reads this`units, this`sourceCount, this`sourcePaths
      ensures forall i, j :: 0 <= i < j < |r| ==> Strings.Less(r[i].sourceName, r[j].sourceName)
      ensures forall i :: 0 <= i < |r| ==> GetUnit(r[i].sourceName) == Some(r[i])
      ensures forall n :: GetUnit(n).Some? ==> GetUnit(n).value in r
    {
      FindUnitEach(units);
      units
    }

    /** `addImport`: always appends; a prefix is recorded only for a node that carries one. */
    method AddImport(unit: LibraryUnit?, node: LibraryNode?)
      modifies this`imports, this`prefixes
      ensures imports == old(imports) + [unit]
      ensures node != null && node.prefix.Some? ==> prefixes == old(prefixes)[unit := node.prefix.value]
      ensures !(node != null && node.prefix.Some?) ==> prefixes == old(prefixes)
    {
      imports := imports + [unit];
      if node != null && node.prefix.Some? {
        prefixes := prefixes[unit := node.prefix.value];
      }
    }

    /** `hasImport`: the library is among the imports (by identity). */
    function HasImport(unit: LibraryUnit?): (r: bool)
      reads this`imports
      ensures r <==> exists i :: 0 <= i < |imports| && imports[i] == unit
    {
      unit in imports
    }

    /** `getPrefixOf`: the recorded prefix of an imported library, or null. */
    function GetPrefixOf(library: LibraryUnit?): (r: Option<string>)
      reads this`prefixes
      ensures r.Some? <==> library in prefixes
      ensures r.Some? ==> r.value == prefixes[library]
    {
      if library in prefixes then Some(prefixes[library]) else None
    }

    /** `getPrefixes`: every recorded prefix. */
    function GetPrefixes(): (r: set<string>)
      reads this`prefixes
      ensures forall p :: p in r <==> exists l :: l in prefixes && prefixes[l] == p
    {
      prefixes.Values
    }

    /**
     * `getDeps`: the memoised record. The first call stores what the artifact store provides
     * (`stored`, `None` when there is no artifact or it is invalid) or an empty record.
     */
    method GetDeps(stored: Option<LibraryDeps>) returns (d: LibraryDeps)
      modifies this`deps
      ensures old(deps).Some? ==> d == old(deps).value && deps == old(deps)
      ensures old(deps).None? ==> d == stored.GetOr(EmptyDeps) && deps == Some(d)
    {
      if deps.Some? {
        return deps.value;
      }
      deps := stored;
      if deps.None? {
        deps := Some(EmptyDeps);
      }
      return deps.value;
    }
  }

  lemma ReplaceKeepsSorted(was: seq<DartUnit>, i: nat, unit: DartUnit)
    requires SortedUnits(was) && i < |was| && was[i].sourceName == unit.sourceName
    ensures SortedUnits(was[i := unit])
    ensures FindUnit(was[i := unit], unit.sourceName) == Some(unit)
    ensures forall n :: n != unit.sourceName ==> FindUnit(was[i := unit], n) == FindUnit(was, n)
  {
    var now := was[i := unit];
    FindUnitSorted(now, i);
    forall n | n != unit.sourceName
      ensures FindUnit(now, n) == FindUnit(was, n)
    {
      SameNamesSameFind(was, now, n);
    }
  }

  lemma InsertKeepsSorted(was: seq<DartUnit>, i: nat, unit: DartUnit)
    requires SortedUnits(was) && i <= |was|
    requires forall k :: 0 <= k < i ==> Strings.Less(was[k].sourceName, unit.sourceName)
    requires i < |was| ==> !Strings.Less(was[i].sourceName, unit.sourceName) && was[i].sourceName != unit.sourceName
    ensures SortedUnits(was[..i] + [unit] + was[i..])
    ensures FindUnit(was[..i] + [unit] + was[i..], unit.sourceName) == Some(unit)
    ensures forall n :: n != unit.sourceName ==> FindUnit(was[..i] + [unit] + was[i..], n) == FindUnit(was, n)
  {
    var now := was[..i] + [unit] + was[i..];
    var name := unit.sourceName;
    NamesAfterInsertPoint(was, i, name);
    InsertedSorted(was, i, unit, now);
    assert now[i] == unit;
    FindUnitSorted(now, i);
    forall n | n != name
      ensures FindUnit(now, n) == FindUnit(was, n)
    {
      InsertedFind(was, i, unit, n);
    }
  }

  lemma NamesAfterInsertPoint(was: seq<DartUnit>, i: nat, name: string)
    requires SortedUnits(was) && i <= |was|
    requires i < |was| ==> !Strings.Less(was[i].sourceName, name) && was[i].sourceName != name
    ensures forall k :: i <= k < |was| ==> Strings.Less(name, was[k].sourceName)
  {
    if i < |was| {
      Strings.LessTotal(was[i].sourceName, name);
      forall k | i < k < |was|
        ensures Strings.Less(name, was[k].sourceName)
      {
        Strings.LessTransitive(name, was[i].sourceName, was[k].sourceName);
      }
    }
  }

  lemma InsertedSorted(was: seq<DartUnit>, i: nat, unit: DartUnit, now: seq<DartUnit>)
    requires SortedUnits(was) && i <= |was| && now == was[..i] + [unit] + was[i..]
    requires forall k :: 0 <= k < i ==> Strings.Less(was[k].sourceName, unit.sourceName)
    requires forall k :: i <= k < |was| ==> Strings.Less(unit.sourceName, was[k].sourceName)
    ensures SortedUnits(now)
  {
    forall a, b | 0 <= a < b < |now|
      ensures Strings.Less(now[a].sourceName, now[b].sourceName)
    {
      InsertedPairOrdered(was, i, unit, now, a, b);
    }
  }

  lemma InsertedPairOrdered(was: seq<DartUnit>, i: nat, unit: DartUnit, now: seq<DartUnit>, a: nat, b: nat)
    requires SortedUnits(was) && i <= |was| && now == was[..i] + [unit] + was[i..]
    requires forall k :: 0 <= k < i ==> Strings.Less(was[k].sourceName, unit.sourceName)
    requires forall k :: i <= k < |was| ==> Strings.Less(unit.sourceName, was[k].sourceName)
    requires a < b < |now|
    ensures Strings.Less(now[a].sourceName, now[b].sourceName)
  {
    if b < i {
      assert now[a] == was[a] && now[b] == was[b];
    } else if b == i {
      assert now[a] == was[a] && now[b] == unit;
    } else if a < i {
      assert now[a] == was[a] && now[b] == was[b - 1];
      Strings.LessTransitive(was[a].sourceName, unit.sourceName, was[b - 1].sourceName);
    } else if a == i {
      assert now[a] == unit && now[b] == was[b - 1];
    } else {
      assert now[a] == was[a - 1] && now[b] == was[b - 1];
    }
  }

  /** Two lists whose names differ only at positions holding `other` names find `n` alike. */
  lemma {:induction false} SameNamesSameFind(was: seq<DartUnit>, now: seq<DartUnit>, n: string)
    requires |was| == |now|
    requires forall k :: 0 <= k < |was| ==> was[k] == now[k] || (was[k].sourceName != n && now[k].sourceName != n)
    ensures FindUnit(was, n) == FindUnit(now, n)
  {
    if |was| > 0 {
      SameNamesSameFind(was[1..], now[1..], n);
    }
  }

  /** Inserting a unit of another name does not change what `n` finds. */
  lemma {:induction false} InsertedFind(was: seq<DartUnit>, i: nat, unit: DartUnit, n: string)
    requires i <= |was| && unit.sourceName != n
    ensures FindUnit(was[..i] + [unit] + was[i..], n) == FindUnit(was, n)
  {
    var now := was[..i] + [unit] + was[i..];
    if i == 0 {
      assert now[1..] == was;
    } else {
      assert now[1..] == was[1..][..i - 1] + [unit] + was[1..][i - 1..];
      InsertedFind(was[1..], i - 1, unit, n);
    }
  }
}
