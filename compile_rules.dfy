/**
 * The decisions of `DartCompiler` that depend only on values: whether a unit is parsed in full
 * or diet-parsed, the difference in top-level symbols that the first sweep of
 * `parseOutOfDateFiles` accumulates, the units its second sweep re-parses, and the failure
 * count and message of `compileLib`.
 *
 * Parsing and the artifact store are not part of this model: what the first sweep learns about
 * each `#source` path (whether the file exists, whether its stamp is out of date, the top-level
 * names of the unit a full parse gives) is an input, a `UnitScan`.
 */
module CompileRules {
  import opened Wrappers
  import Strings
  import LibraryUnit

  type DepsSource = LibraryUnit.DepsSource
  type LibraryDeps = LibraryUnit.LibraryDeps

  /* ---------------------------------------------------------------------------------------
   * Full or diet parse.
   * --------------------------------------------------------------------------------------- */

  /** `usePrecompiledDartLibs`, which the compiler's constructor always sets. */
  const UsePrecompiledDartLibs := true

  /** `isSourceOutOfDate`: every source is out of date when compilation is not incremental. */
  function SourceOutOfDate(incremental: bool, stampOutOfDate: bool): (r: bool)
    ensures !incremental ==> r
    ensures incremental ==> (r <==> stampOutOfDate)
  {
    if !incremental then true else stampOutOfDate
  }

  /**
   * The first sweep parses a unit in full when compilation is not incremental, when it belongs
   * to a `dart:` library and precompiled libraries are not used, or when its source is out of
   * date; otherwise it diet-parses it. As precompiled libraries are always used, the second case
   * never applies.
   */
  function FullParse(incremental: bool, libIsDartUri: bool, stampOutOfDate: bool): (r: bool)
    ensures r <==> !incremental || stampOutOfDate
  {
    !incremental || (libIsDartUri && !UsePrecompiledDartLibs) || SourceOutOfDate(incremental, stampOutOfDate)
  }

  /* ---------------------------------------------------------------------------------------
   * The difference in top-level symbols.
   * --------------------------------------------------------------------------------------- */

  /**
   * What the first sweep learns about one `#source` path: whether its file exists, whether its
   * artifact stamp is out of date, the top-level names of the unit a full parse gives (`None`
   * when the parser gives no unit), and whether it is the library's own source path.
   */
  datatype UnitScan = UnitScan(relPath: string, present: bool, stampOutOfDate: bool,
                               parsed: Option<set<string>>, isSelf: bool)

  /** A library as the first sweep sees it: whether its URI is a `dart:` URI, its dependency record, its source paths. */
  datatype LibraryScan = LibraryScan(isDartUri: bool, deps: LibraryDeps, units: seq<UnitScan>)

  /** The unit of `u` was parsed in full and the parser gave one. */
  predicate FreshlyParsed(incremental: bool, isDartUri: bool, u: UnitScan) {
    u.present && FullParse(incremental, isDartUri, u.stampOutOfDate) && u.parsed.Some?
  }

  /**
   * One unit's contribution: for a freshly parsed unit, the symmetric difference of its recorded
   * and its new top-level names, or all its new names when it has no record; nothing otherwise.
   */
  function UnitDiff(incremental: bool, isDartUri: bool, deps: LibraryDeps, u: UnitScan): (r: set<string>)
  {
    if !u.present || !FullParse(incremental, isDartUri, u.stampOutOfDate) || u.parsed.None? then {}
    else
      var newTop := u.parsed.value;
      match deps.GetSource(u.relPath)
      case Some(src) => (src.topSymbols - newTop) + (newTop - src.topSymbols)
      case None => newTop
  }

  /** The contributions of a library's source paths, in order. */
  function UnitsDiff(incremental: bool, isDartUri: bool, deps: LibraryDeps, units: seq<UnitScan>): (r: set<string>)
  {
    if |units| == 0 then {}
    else
      UnitsDiff(incremental, isDartUri, deps, units[..|units| - 1]) +
      UnitDiff(incremental, isDartUri, deps, units[|units| - 1])
  }

  /** `newUnitPaths`: every source path of the library, whether or not its file exists. */
  function UnitPaths(units: seq<UnitScan>): (r: set<string>)
  {
    if |units| == 0 then {}
    else UnitPaths(units[..|units| - 1]) + {units[|units| - 1].relPath}
  }

  lemma {:induction false} UnitPathsMembers(units: seq<UnitScan>, p: string)
    ensures p in UnitPaths(units) <==> exists j :: 0 <= j < |units| && units[j].relPath == p
  {
    if |units| > 0 {
      var front := units[..|units| - 1];
      UnitPathsMembers(front, p);
      assert forall j :: 0 <= j < |front| ==> front[j] == units[j];
    }
  }

  /** The old top-level names of the recorded units that are no longer among `paths`. */
  function DisappearedDiff(deps: LibraryDeps, paths: set<string>): (r: set<string>)
  {
    set p, s | p in deps.sources && p !in paths && s in deps.sources[p].topSymbols :: s
  }

  /** One library's part of the difference. */
  function LibraryDiff(incremental: bool, lib: LibraryScan): (r: set<string>)
  {
    UnitsDiff(incremental, lib.isDartUri, lib.deps, lib.units) + DisappearedDiff(lib.deps, UnitPaths(lib.units))
  }

  /** `topLevelSymbolsDiff` after the first sweep over the libraries. */
  function SymbolsDiff(incremental: bool, libs: seq<LibraryScan>): (r: set<string>)
  {
    if |libs| == 0 then {}
    else SymbolsDiff(incremental, libs[..|libs| - 1]) + LibraryDiff(incremental, libs[|libs| - 1])
  }

  /**
   * Why `s` is in the difference: some freshly parsed unit of `lib` gained or lost it against its
   * record (or, having no record, declares it), or a recorded unit that disappeared declared it.
   */
  ghost predicate Contributes(incremental: bool, lib: LibraryScan, s: string) {
    (exists j :: 0 <= j < |lib.units| && UnitContributes(incremental, lib, lib.units[j], s)) ||
    (exists p :: p in lib.deps.sources && p !in UnitPaths(lib.units) && s in lib.deps.sources[p].topSymbols)
  }

  /** The freshly parsed unit `u` of `lib` gained or lost `s` against its record, or declares it and has none. */
  ghost predicate UnitContributes(incremental: bool, lib: LibraryScan, u: UnitScan, s: string) {
    FreshlyParsed(incremental, lib.isDartUri, u) &&
    if u.relPath in lib.deps.sources
    then (s in lib.deps.sources[u.relPath].topSymbols <==> s !in u.parsed.value)
    else s in u.parsed.value
  }

  /** A unit's contribution is the symmetric difference against its record, or its new names without one. */
  lemma UnitDiffMembers(incremental: bool, lib: LibraryScan, u: UnitScan, s: string)
    ensures s in UnitDiff(incremental, lib.isDartUri, lib.deps, u) <==> UnitContributes(incremental, lib, u, s)
  {
  }

  lemma {:induction false} UnitsDiffMembers(incremental: bool, isDartUri: bool, deps: LibraryDeps, units: seq<UnitScan>, s: string)
    ensures s in UnitsDiff(incremental, isDartUri, deps, units) <==>
      exists j :: 0 <= j < |units| && s in UnitDiff(incremental, isDartUri, deps, units[j])
  {
    if |units| > 0 {
      var front := units[..|units| - 1];
      UnitsDiffMembers(incremental, isDartUri, deps, front, s);
      if s in UnitsDiff(incremental, isDartUri, deps, front) {
        var j :| 0 <= j < |front| && s in UnitDiff(incremental, isDartUri, deps, front[j]);
        assert units[j] == front[j];
      }
      if exists j :: 0 <= j < |units| && s in UnitDiff(incremental, isDartUri, deps, units[j]) {
        var j :| 0 <= j < |units| && s in UnitDiff(incremental, isDartUri, deps, units[j]);
        if j < |front| {
          assert front[j] == units[j];
        }
      }
    }
  }

  /** A symbol is in a library's part of the difference exactly when the library contributes it. */
  lemma LibraryDiffMembers(incremental: bool, lib: LibraryScan, s: string)
    ensures s in LibraryDiff(incremental, lib) <==> Contributes(incremental, lib, s)
  {
    UnitsDiffMembers(incremental, lib.isDartUri, lib.deps, lib.units, s);
    forall j | 0 <= j < |lib.units|
      ensures s in UnitDiff(incremental, lib.isDartUri, lib.deps, lib.units[j]) <==> UnitContributes(incremental, lib, lib.units[j], s)
    {
      UnitDiffMembers(incremental, lib, lib.units[j], s);
    }
  }

  /** A symbol is in the difference exactly when some library contributes it. */
  lemma {:induction false} SymbolsDiffMembers(incremental: bool, libs: seq<LibraryScan>, s: string)
    ensures s in SymbolsDiff(incremental, libs) <==>
      exists i :: 0 <= i < |libs| && Contributes(incremental, libs[i], s)
  {
    if |libs| > 0 {
      var front := libs[..|libs| - 1];
      SymbolsDiffMembers(incremental, front, s);
      LibraryDiffMembers(incremental, libs[|libs| - 1], s);
      if exists i :: 0 <= i < |front| && Contributes(incremental, front[i], s) {
        var i :| 0 <= i < |front| && Contributes(incremental, front[i], s);
        assert libs[i] == front[i];
      }
      if exists i :: 0 <= i < |libs| && Contributes(incremental, libs[i], s) {
        var i :| 0 <= i < |libs| && Contributes(incremental, libs[i], s);
        if i < |front| {
          assert front[i] == libs[i];
        }
      }
    }
  }

  /** When nothing is parsed in full and no recorded unit disappeared, the difference is empty. */
  lemma {:induction false} NothingParsedNoDiff(incremental: bool, libs: seq<LibraryScan>)
    requires forall i, j :: 0 <= i < |libs| && 0 <= j < |libs[i].units| ==>
      !FreshlyParsed(incremental, libs[i].isDartUri, libs[i].units[j])
    requires forall i :: 0 <= i < |libs| ==> libs[i].deps.sources.Keys <= UnitPaths(libs[i].units)
    ensures SymbolsDiff(incremental, libs) == {}
  {
    forall s
      ensures s !in SymbolsDiff(incremental, libs)
    {
      SymbolsDiffMembers(incremental, libs, s);
      forall i | 0 <= i < |libs|
        ensures !Contributes(incremental, libs[i], s)
      {
        assert libs[i].deps.sources.Keys <= UnitPaths(libs[i].units);
      }
    }
  }

  /**
   * The first sweep of `parseOutOfDateFiles`, as far as the difference goes: for each library
   * and each of its source paths, the contribution of a freshly parsed unit, then the names of
   * the recorded units that disappeared.
   */
  method TopLevelSymbolsDiff(incremental: bool, libs: seq<LibraryScan>) returns (diff: set<string>)
    ensures diff == SymbolsDiff(incremental, libs)
  {
    diff := {};
    for i := 0 to |libs|
      invariant diff == SymbolsDiff(incremental, libs[..i])
    {
      diff := AddLibraryDiff(incremental, libs[i], diff);
      assert libs[..i + 1][..i] == libs[..i];
    }
    assert libs[..|libs|] == libs;
  }

  /** One library of the first sweep. */
  method AddLibraryDiff(incremental: bool, lib: LibraryScan, diff0: set<string>) returns (diff: set<string>)
    ensures diff == diff0 + LibraryDiff(incremental, lib)
  {
    var newUnitPaths;
    newUnitPaths, diff := AddUnitsDiff(incremental, lib, diff0);
    diff := AddDisappeared(lib.deps, newUnitPaths, diff);
  }

  /** The loop over a library's source paths: the paths met, and the contributions of freshly parsed units. */
  method AddUnitsDiff(incremental: bool, lib: LibraryScan, diff0: set<string>) returns (newUnitPaths: set<string>, diff: set<string>)
    ensures newUnitPaths == UnitPaths(lib.units)
    ensures diff == diff0 + UnitsDiff(incremental, lib.isDartUri, lib.deps, lib.units)
  {
    newUnitPaths := {};
    diff := diff0;
    for j := 0 to |lib.units|
      invariant newUnitPaths == UnitPaths(lib.units[..j])
      invariant diff == diff0 + UnitsDiff(incremental, lib.isDartUri, lib.deps, lib.units[..j])
    {
      var u := lib.units[j];
      newUnitPaths := newUnitPaths + {u.relPath};
      if u.present && FullParse(incremental, lib.isDartUri, u.stampOutOfDate) && u.parsed.Some? {
        var newTopSymbols := u.parsed.value;
        var source := lib.deps.GetSource(u.relPath);
        if source.Some? {
          diff := diff + ((source.value.topSymbols - newTopSymbols) + (newTopSymbols - source.value.topSymbols));
        } else {
          diff := diff + newTopSymbols;
        }
      }
      assert lib.units[..j + 1][..j] == lib.units[..j];
    }
    assert lib.units[..|lib.units|] == lib.units;
  }

  /** The loop over the recorded units that disappeared: their old top-level names. */
  method AddDisappeared(deps: LibraryDeps, newUnitPaths: set<string>, diff0: set<string>) returns (diff: set<string>)
    ensures diff == diff0 + DisappearedDiff(deps, newUnitPaths)
  {
    diff := diff0;
    var disappeared := deps.sources.Keys - newUnitPaths;
    ghost var kept := newUnitPaths + disappeared;
    DisappearedNone(deps, kept);
    while disappeared != {}
      invariant disappeared <= deps.sources.Keys - newUnitPaths
      invariant kept == newUnitPaths + disappeared
      invariant diff == diff0 + DisappearedDiff(deps, kept)
    {
      var relPath :| relPath in disappeared;
      var source := deps.GetSource(relPath);
      if source.Some? {
        diff := diff + source.value.topSymbols;
      }
      DisappearedStep(deps, kept, relPath);
      UnionAssoc(diff0, DisappearedDiff(deps, kept), deps.sources[relPath].topSymbols);
      disappeared := disappeared - {relPath};
      kept := kept - {relPath};
    }
    assert kept == newUnitPaths;
  }

  lemma UnionAssoc(a: set<string>, b: set<string>, c: set<string>)
    ensures (a + b) + c == a + (b + c)
  {
  }

  /** Nothing disappeared when every recorded path is kept. */
  lemma DisappearedNone(deps: LibraryDeps, paths: set<string>)
    requires deps.sources.Keys <= paths
    ensures DisappearedDiff(deps, paths) == {}
  {
  }

  /** Taking one recorded path out of `paths` adds its old top-level names to the disappeared ones. */
  lemma DisappearedStep(deps: LibraryDeps, paths: set<string>, p: string)
    requires p in deps.sources && p in paths
    ensures DisappearedDiff(deps, paths - {p}) == DisappearedDiff(deps, paths) + deps.sources[p].topSymbols
  {
  }

  /* ---------------------------------------------------------------------------------------
   * The second sweep.
   * --------------------------------------------------------------------------------------- */

  /**
   * A recorded unit is re-parsed when it asks to be on any top-level change, or when the names
   * it uses or its holes meet the difference.
   */
  predicate ShouldReparse(src: DepsSource, diff: set<string>) {
    src.recompileOnAnyTopLevelChange || src.allSymbols * diff != {} || src.holes * diff != {}
  }

  /** The re-parse test, stated on the names themselves. */
  lemma ShouldReparseRule(src: DepsSource, diff: set<string>)
    ensures ShouldReparse(src, diff) <==>
      src.recompileOnAnyTopLevelChange || (exists s :: s in diff && (s in src.allSymbols || s in src.holes))
  {
    if src.allSymbols * diff != {} {
      var s :| s in src.allSymbols * diff;
    }
    if src.holes * diff != {} {
      var s :| s in src.holes * diff;
    }
    if exists s :: s in diff && (s in src.allSymbols || s in src.holes) {
      var s :| s in diff && (s in src.allSymbols || s in src.holes);
      assert s in src.allSymbols * diff || s in src.holes * diff;
    }
  }

  /**
   * One full re-parse of the second sweep: the library (its position in `libraries`), the
   * source path, and whether it is the library's own source path (that unit only becomes the
   * library's self unit; any other replaces its unit in the library).
   */
  datatype Reparse = Reparse(library: nat, relPath: string, isSelf: bool)

  /** The second sweep re-parses this source path of a library. */
  predicate Reparsed(deps: LibraryDeps, u: UnitScan, diff: set<string>) {
    u.relPath in deps.sources && ShouldReparse(deps.sources[u.relPath], diff) && u.present
  }

  /** The re-parses the second sweep makes in library `index`, in source-path order. */
  function SweepLibrary(index: nat, lib: LibraryScan, units: seq<UnitScan>, diff: set<string>): (r: seq<Reparse>)
  {
    if |units| == 0 then []
    else
      var u := units[|units| - 1];
      SweepLibrary(index, lib, units[..|units| - 1], diff) +
      (if Reparsed(lib.deps, u, diff) then [Reparse(index, u.relPath, u.isSelf)] else [])
  }

  /** The re-parses of the libraries in `libs`, the first of which has position `start`. */
  function SweepFrom(start: nat, libs: seq<LibraryScan>, diff: set<string>): (r: seq<Reparse>)
  {
    if |libs| == 0 then []
    else
      var last := libs[|libs| - 1];
      SweepFrom(start, libs[..|libs| - 1], diff) + SweepLibrary(start + |libs| - 1, last, last.units, diff)
  }

  /** The second sweep runs only when the difference is not empty. */
  function Sweep(libs: seq<LibraryScan>, diff: set<string>): (r: seq<Reparse>)
  {
    if diff == {} then [] else SweepFrom(0, libs, diff)
  }

  /** `u` is the source path `x` re-parses. */
  predicate Selected(u: UnitScan, deps: LibraryDeps, diff: set<string>, x: Reparse) {
    u.relPath == x.relPath && u.isSelf == x.isSelf && Reparsed(deps, u, diff)
  }

  /** Some source path among `units` is the one `x` re-parses. */
  ghost predicate SelectedAmong(units: seq<UnitScan>, deps: LibraryDeps, diff: set<string>, x: Reparse) {
    exists j :: 0 <= j < |units| && Selected(units[j], deps, diff, x)
  }

  lemma {:induction false} SweepLibraryMembers(index: nat, lib: LibraryScan, units: seq<UnitScan>, diff: set<string>, x: Reparse)
    ensures x in SweepLibrary(index, lib, units, diff) <==> x.library == index && SelectedAmong(units, lib.deps, diff, x)
  {
    if |units| > 0 {
      var front := units[..|units| - 1];
      SweepLibraryMembers(index, lib, front, diff, x);
      assert forall j :: 0 <= j < |front| ==> front[j] == units[j];
    }
  }

  lemma {:induction false} SweepFromMembers(start: nat, libs: seq<LibraryScan>, diff: set<string>, x: Reparse)
    ensures x in SweepFrom(start, libs, diff) <==>
      start <= x.library < start + |libs| &&
      SelectedAmong(libs[x.library - start].units, libs[x.library - start].deps, diff, x)
  {
    if |libs| > 0 {
      var front := libs[..|libs| - 1];
      SweepFromMembers(start, front, diff, x);
      var last := libs[|libs| - 1];
      SweepLibraryMembers(start + |libs| - 1, last, last.units, diff, x);
      if start <= x.library < start + |front| {
        assert front[x.library - start] == libs[x.library - start];
      }
    }
  }

  /**
   * The second sweep re-parses exactly the recorded, existing source paths that `ShouldReparse`
   * selects, and nothing at all when the difference is empty.
   */
  lemma SweepMembers(libs: seq<LibraryScan>, diff: set<string>, x: Reparse)
    ensures x in Sweep(libs, diff) <==>
      diff != {} && x.library < |libs| && SelectedAmong(libs[x.library].units, libs[x.library].deps, diff, x)
  {
    if diff != {} {
      SweepFromMembers(0, libs, diff, x);
    }
  }

  /** The second sweep of `parseOutOfDateFiles`: the units it re-parses, in order. */
  method SecondSweep(libs: seq<LibraryScan>, diff: set<string>) returns (r: seq<Reparse>)
    ensures r == Sweep(libs, diff)
  {
    r := [];
    if diff == {} {
      return;
    }
    for i := 0 to |libs|
      invariant r == SweepFrom(0, libs[..i], diff)
    {
      var lib := libs[i];
      for j := 0 to |lib.units|
        invariant r == SweepFrom(0, libs[..i], diff) + SweepLibrary(i, lib, lib.units[..j], diff)
      {
        var u := lib.units[j];
        var source := lib.deps.GetSource(u.relPath);
        if source.Some? && ShouldReparse(source.value, diff) && u.present {
          r := r + [Reparse(i, u.relPath, u.isSelf)];
        }
        assert lib.units[..j + 1][..j] == lib.units[..j];
      }
      assert lib.units[..|lib.units|] == lib.units;
      assert libs[..i + 1][..i] == libs[..i];
    }
    assert libs[..|libs|] == libs;
  }

  /* ---------------------------------------------------------------------------------------
   * The failure count and message of `compileLib`.
   * --------------------------------------------------------------------------------------- */

  /** Errors, plus type errors when those are fatal, plus warnings when those are fatal. */
  function FailureCount(errorCount: nat, typeErrorCount: nat, warningCount: nat,
                        typeErrorsAreFatal: bool, warningsAreFatal: bool): (n: nat)
    ensures n >= errorCount
    ensures typeErrorsAreFatal ==> n >= typeErrorCount
    ensures warningsAreFatal ==> n >= warningCount
    ensures n == 0 <==> errorCount == 0 && (typeErrorsAreFatal ==> typeErrorCount == 0) && (warningsAreFatal ==> warningCount == 0)
    ensures !typeErrorsAreFatal && !warningsAreFatal ==> n == errorCount
  {
    var n := errorCount;
    var n := if typeErrorsAreFatal then n + typeErrorCount else n;
    if warningsAreFatal then n + warningCount else n
  }

  const FailurePrefix := "Compilation failed with "
  const OneProblem := " problem."
  const ManyProblems := " problems."

  /** The message `compileLib` returns for a positive count, and none for zero. */
  function FailureMessage(n: nat): (r: Option<string>)
    ensures r.None? <==> n == 0
    ensures r.Some? ==> Strings.StartsWith(r.value, FailurePrefix)
    ensures r.Some? ==> (Strings.EndsWith(r.value, OneProblem) <==> n == 1)
  {
    if n > 0 then
      var m := FailurePrefix + Strings.Decimal(n) + (if n == 1 then OneProblem else ManyProblems);
      assert m[..|FailurePrefix|] == FailurePrefix;
      assert n != 1 ==> m[|m| - |OneProblem|..] == "problems.";
      Some(m)
    else None
  }

  /** Reads the count back out of a failure message. */
  function ParseFailureMessage(m: string): (r: Option<nat>)
  {
    if !Strings.StartsWith(m, FailurePrefix) then None
    else
      var rest := m[|FailurePrefix|..];
      var digits :=
        if Strings.EndsWith(rest, ManyProblems) then Some(rest[..|rest| - |ManyProblems|])
        else if Strings.EndsWith(rest, OneProblem) then Some(rest[..|rest| - |OneProblem|])
        else None;
      if digits.None? || |digits.value| == 0 || exists i :: 0 <= i < |digits.value| && !('0' <= digits.value[i] <= '9')
      then None
      else Some(Strings.DecimalValue(digits.value))
  }

  /** The failure message names the count it was made from. */
  lemma FailureMessageRoundTrip(n: nat)
    requires n > 0
    ensures ParseFailureMessage(FailureMessage(n).value) == Some(n)
  {
    var d := Strings.Decimal(n);
    var suffix := if n == 1 then OneProblem else ManyProblems;
    var m := FailurePrefix + d + suffix;
    assert m[..|FailurePrefix|] == FailurePrefix;
    var rest := m[|FailurePrefix|..];
    assert rest == d + suffix;
    if n == 1 {
      assert d == "1";
      assert rest == "1 problem.";
    } else {
      assert rest[|rest| - |ManyProblems|..] == ManyProblems;
      assert rest[..|rest| - |ManyProblems|] == d;
    }
    Strings.DecimalRoundTrip(n);
  }
}
