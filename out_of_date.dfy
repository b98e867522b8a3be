/**
 * The staleness test of `DartCompiler`: `isUnitOutOfDate` on a unit's recorded dependencies and
 * `addOutOfDateDeps`, which collects the diet units to parse again. The test is specified on the
 * units of the loaded libraries, by URI, as they are when it runs.
 */
module OutOfDate {
  import opened Wrappers
  import LibraryUnit
  import DartCompiler

  type Compiler = DartCompiler.Compiler
  type DartUnit = LibraryUnit.DartUnit
  type Dependency = LibraryUnit.Dependency
  type DepsSource = LibraryUnit.DepsSource
  type LibraryDeps = LibraryUnit.LibraryDeps

  /** The loaded libraries of `c` can be read unit by unit. */
  ghost predicate Readable(c: Compiler)
    reads c, c.libs`units, c.libs`sourceCount, c.libs`sourcePaths
  {
    c.Valid() && c.LoaderOk() && forall k :: k in c.libraries ==> c.libraries[k].Valid()
  }

  /** The units of each loaded library, by URI. */
  ghost function UnitsOf(c: Compiler): map<string, seq<DartUnit>>
    requires c.Valid() && c.LoaderOk()
    reads c, c.libs`units
  {
    map k | k in c.libraries :: c.libraries[k].units
  }

  /** The dependency record memoised in each loaded library, by URI. */
  ghost function DepsOf(c: Compiler): map<string, LibraryDeps>
    requires c.Valid() && c.LoaderOk()
    reads c, c.libs`deps
  {
    map k | k in c.libraries && c.libraries[k].deps.Some? :: c.libraries[k].deps.value
  }

  /** Every loaded library holds the dependency record its first `getDeps` memoised. */
  ghost predicate DepsMemoised(c: Compiler)
    reads c, c.libs`deps
  {
    c.Valid() && c.LoaderOk() && forall k :: k in c.libraries ==> c.libraries[k].deps.Some?
  }

  /** A recorded dependency that no longer holds: its library or its unit is gone, or the unit's stamp differs. */
  predicate DependencyStale(units: map<string, seq<DartUnit>>, dep: Dependency) {
    dep.libUri !in units ||
    var u := LibraryUnit.FindUnit(units[dep.libUri], dep.unitName);
    u.None? || u.value.source.lastModified != dep.lastModified
  }

  /** A unit is out of date when it has no record or some recorded dependency no longer holds. */
  predicate UnitOutOfDate(units: map<string, seq<DartUnit>>, source: Option<DepsSource>) {
    source.None? || exists i :: 0 <= i < |source.value.deps| && DependencyStale(units, source.value.deps[i])
  }

  /** `isUnitOutOfDate`: the search over a unit's recorded dependencies. */
  method IsUnitOutOfDate(c: Compiler, ghost units: map<string, seq<DartUnit>>, source: Option<DepsSource>) returns (r: bool)
    requires Readable(c) && units == UnitsOf(c)
    ensures r <==> UnitOutOfDate(units, source)
  {
    if source.None? {
      return true;
    }
    var deps := source.value.deps;
    for i := 0 to |deps|
      invariant forall j :: 0 <= j < i ==> !DependencyStale(units, deps[j])
    {
      var dep := deps[i];
      var depLib := DartCompiler.Lookup(c.libraries, dep.libUri);
      if depLib == null {
        return true;
      }
      var depUnit := depLib.GetUnit(dep.unitName);
      if depUnit.None? {
        return true;
      }
      if depUnit.value.source.lastModified != dep.lastModified {
        return true;
      }
    }
    return false;
  }

  /** A diet unit `addOutOfDateDeps` parses again: its library's URI and its relative path. */
  datatype Stale = Stale(libUri: string, relPath: string)

  /** The diet units among `us` whose record in `deps` says they are out of date, in order. */
  function StaleUnits(units: map<string, seq<DartUnit>>, uri: string, deps: LibraryDeps, us: seq<DartUnit>): seq<Stale> {
    if |us| == 0 then []
    else
      var u := us[|us| - 1];
      StaleUnits(units, uri, deps, us[..|us| - 1]) +
      (if u.isDiet && UnitOutOfDate(units, deps.GetSource(u.source.relativePath)) then [Stale(uri, u.source.relativePath)] else [])
  }

  /** The units `addOutOfDateDeps` parses again in the libraries `uris`, skipping `dart:` libraries. */
  function StaleIn(units: map<string, seq<DartUnit>>, deps: map<string, LibraryDeps>, isDartUri: string -> bool,
                   uris: seq<string>): seq<Stale>
    requires forall u :: u in uris ==> u in units && u in deps
  {
    if |uris| == 0 then []
    else
      var uri := uris[|uris| - 1];
      StaleIn(units, deps, isDartUri, uris[..|uris| - 1]) +
      (if isDartUri(uri) then [] else StaleUnits(units, uri, deps[uri], units[uri]))
  }

  /** The unit at position `j` of `us` is one `addOutOfDateDeps` parses again. */
  predicate StaleAt(units: map<string, seq<DartUnit>>, uri: string, deps: LibraryDeps, us: seq<DartUnit>, j: int, x: Stale) {
    0 <= j < |us| && us[j].isDiet && x == Stale(uri, us[j].source.relativePath) &&
    UnitOutOfDate(units, deps.GetSource(us[j].source.relativePath))
  }

  lemma {:induction false} StaleUnitsMembers(units: map<string, seq<DartUnit>>, uri: string, deps: LibraryDeps,
                                             us: seq<DartUnit>, x: Stale)
    ensures x in StaleUnits(units, uri, deps, us) <==> exists j :: StaleAt(units, uri, deps, us, j, x)
  {
    if |us| > 0 {
      var front := us[..|us| - 1];
      StaleUnitsMembers(units, uri, deps, front, x);
      if exists j :: StaleAt(units, uri, deps, front, j, x) {
        var j :| StaleAt(units, uri, deps, front, j, x);
        assert StaleAt(units, uri, deps, us, j, x);
      }
      if exists j :: StaleAt(units, uri, deps, us, j, x) {
        var j :| StaleAt(units, uri, deps, us, j, x);
        if j < |us| - 1 {
          assert StaleAt(units, uri, deps, front, j, x);
        }
      }
      if x in StaleUnits(units, uri, deps, us) && x !in StaleUnits(units, uri, deps, front) {
        assert StaleAt(units, uri, deps, us, |us| - 1, x);
      }
    }
  }

  /**
   * A unit is parsed again exactly when it is a diet unit of a library other than a `dart:` one
   * and its record says it is out of date.
   */
  lemma {:induction false} StaleInMembers(units: map<string, seq<DartUnit>>, deps: map<string, LibraryDeps>,
                                          isDartUri: string -> bool, uris: seq<string>, x: Stale)
    requires forall u :: u in uris ==> u in units && u in deps
    ensures x in StaleIn(units, deps, isDartUri, uris) <==>
      exists i, j :: 0 <= i < |uris| && !isDartUri(uris[i]) && StaleAt(units, uris[i], deps[uris[i]], units[uris[i]], j, x)
  {
    if |uris| > 0 {
      var front := uris[..|uris| - 1];
      var uri := uris[|uris| - 1];
      assert forall u :: u in front ==> u in uris;
      StaleInMembers(units, deps, isDartUri, front, x);
      if !isDartUri(uri) {
        StaleUnitsMembers(units, uri, deps[uri], units[uri], x);
      }
      if exists i, j :: 0 <= i < |front| && !isDartUri(front[i]) && StaleAt(units, front[i], deps[front[i]], units[front[i]], j, x) {
        var i, j :| 0 <= i < |front| && !isDartUri(front[i]) && StaleAt(units, front[i], deps[front[i]], units[front[i]], j, x);
        assert uris[i] == front[i];
      }
      if exists i, j :: 0 <= i < |uris| && !isDartUri(uris[i]) && StaleAt(units, uris[i], deps[uris[i]], units[uris[i]], j, x) {
        var i, j :| 0 <= i < |uris| && !isDartUri(uris[i]) && StaleAt(units, uris[i], deps[uris[i]], units[uris[i]], j, x);
        if i < |uris| - 1 {
          assert front[i] == uris[i];
        }
      }
    }
  }

  /**
   * `addOutOfDateDeps`: the diet units of libraries other than `dart:` ones whose recorded
   * dependencies no longer hold, in load order, and whether any was found (`setFilesHaveChanged`).
   */
  method AddOutOfDateDeps(c: Compiler) returns (stale: seq<Stale>, filesHaveChanged: bool)
    requires Readable(c) && DepsMemoised(c)
    ensures forall u :: u in c.order ==> u in UnitsOf(c) && u in DepsOf(c)
    ensures stale == StaleIn(UnitsOf(c), DepsOf(c), c.isDartUri, c.order)
    ensures filesHaveChanged <==> |stale| > 0
  {
    ghost var units := UnitsOf(c);
    ghost var deps := DepsOf(c);
    assert forall u :: u in c.order ==> u in units && u in deps;
    stale := [];
    filesHaveChanged := false;
    for i := 0 to |c.order|
      invariant Snapshot(c, units, deps)
      invariant stale == StaleIn(units, deps, c.isDartUri, c.order[..i])
      invariant filesHaveChanged <==> |stale| > 0
    {
      var uri := c.order[i];
      assert uri in c.order;
      StaleInStep(units, deps, c.isDartUri, c.order, i);
      if !c.isDartUri(uri) {
        var lib := c.libraries[uri];
        // `lib.getDeps(context)` gives the record memoised by the first sweep.
        var libDeps := lib.deps.value;
        SnapshotIs(c, units, deps);
        var more := OutOfDateUnits(c, units, uri, libDeps, lib.units);
        stale := stale + more;
        if |more| > 0 {
          filesHaveChanged := true;
        }
      }
    }
    assert c.order[..|c.order|] == c.order;
    SnapshotIs(c, units, deps);
  }

  lemma StaleInStep(units: map<string, seq<DartUnit>>, deps: map<string, LibraryDeps>, isDartUri: string -> bool,
                    uris: seq<string>, i: nat)
    requires forall u :: u in uris ==> u in units && u in deps
    requires i < |uris|
    ensures forall u :: u in uris[..i + 1] ==> u in units && u in deps
    ensures StaleIn(units, deps, isDartUri, uris[..i + 1]) == StaleIn(units, deps, isDartUri, uris[..i]) +
      (if isDartUri(uris[i]) then [] else StaleUnits(units, uris[i], deps[uris[i]], units[uris[i]]))
  {
    assert uris[..i + 1][..i] == uris[..i];
  }

  /** `units` and `deps` hold the units and the memoised records of the loaded libraries. */
  ghost predicate Snapshot(c: Compiler, units: map<string, seq<DartUnit>>, deps: map<string, LibraryDeps>)
    reads c, c.libs`units, c.libs`deps
  {
    c.Valid() && c.LoaderOk() && units.Keys == c.libraries.Keys && deps.Keys == c.libraries.Keys &&
    (forall k :: k in c.libraries ==> units[k] == c.libraries[k].units && c.libraries[k].deps == Some(deps[k])) &&
    forall u :: u in c.order ==> u in units && u in deps
  }

  lemma SnapshotIs(c: Compiler, units: map<string, seq<DartUnit>>, deps: map<string, LibraryDeps>)
    requires Snapshot(c, units, deps)
    ensures units == UnitsOf(c) && deps == DepsOf(c)
  {
  }

  /** The loop over one library's units in `addOutOfDateDeps`. */
  method OutOfDateUnits(c: Compiler, ghost units: map<string, seq<DartUnit>>, uri: string, deps: LibraryDeps,
                        us: seq<DartUnit>) returns (stale: seq<Stale>)
    requires Readable(c) && units == UnitsOf(c)
    ensures stale == StaleUnits(units, uri, deps, us)
  {
    stale := [];
    for j := 0 to |us|
      invariant stale == StaleUnits(units, uri, deps, us[..j])
    {
      var unit := us[j];
      assert us[..j + 1][..j] == us[..j];
      if unit.isDiet {
        var relPath := unit.source.relativePath;
        var source := deps.GetSource(relPath);
        var outOfDate := IsUnitOutOfDate(c, units, source);
        if outOfDate {
          stale := stale + [Stale(uri, relPath)];
        }
      }
    }
    assert us[..|us|] == us;
  }
}
