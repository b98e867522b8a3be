/**
 * `TopLevelElementBuilder`: fills a library's scope. Imports come first (a prefixed import
 * binds its prefix to the imported library element, an unprefixed one declares every
 * top-level element of the imported library), then the library's own top-level elements.
 */
module TopLevelElementBuilder {
  import opened Wrappers
  import opened ElementModel
  import Scope
  import opened LibraryUnit

  /** One declaration into the library scope: a prefix binding, or a checked element declaration. */
  datatype Entry = Prefixed(prefix: string, library: Element) | Member(element: Element)

  function EntryName(d: Entry): string {
    match d
    case Prefixed(p, _) => p
    case Member(e) => e.name
  }

  function EntryValue(d: Entry): Element {
    match d
    case Prefixed(_, l) => l
    case Member(e) => e
  }

  function Lookup(m: map<string, Element>, n: string): (r: Option<Element>)
    ensures r.Some? <==> n in m
    ensures r.Some? ==> r.value == m[n]
  {
    if n in m then Some(m[n]) else None
  }

  /** A getter meeting a non-getter abstract field, or a setter meeting a non-setter one. */
  predicate AccessorPair(previous: Element, e: Element) {
    e.mods.isAbstractField && previous.mods.isAbstractField
      && ((e.mods.isGetter && !previous.mods.isGetter) || (e.mods.isSetter && !previous.mods.isSetter))
  }

  /** `reportDuplicateDeclaration` with `DUPLICATE_TOP_LEVEL_DEFINITION`. */
  function DuplicateReport(e: Element): seq<Diagnostic> {
    DuplicateDeclarationReport(DuplicateTopLevelDefinition, e)
  }

  /** The errors `declare` reports when `e` replaces `previous`. */
  function DeclareReports(previous: Option<Element>, e: Element): seq<Diagnostic> {
    if previous.None? || AccessorPair(previous.value, e) then []
    else DuplicateReport(previous.value) + DuplicateReport(e)
  }

  /** A collision of two declarations is reported twice, at the old one first. */
  lemma CollisionReportedTwice(previous: Element, e: Element)
    requires !AccessorPair(previous, e)
    requires previous.node.Some? && previous.node.value.isDeclaration
    requires e.node.Some? && e.node.value.isDeclaration
    ensures DeclareReports(Some(previous), e)
      == [Diagnostic(DuplicateTopLevelDefinition, previous.node.value.id), Diagnostic(DuplicateTopLevelDefinition, e.node.value.id)]
  {
  }

  /** Only getter/setter pairs are exempt: a second getter is still a duplicate. */
  lemma AccessorExemption(previous: Element, e: Element)
    ensures DeclareReports(Some(previous), e) == [] <==>
      (AccessorPair(previous, e) || (DuplicateReport(previous) == [] && DuplicateReport(e) == []))
    ensures previous.mods.isGetter && e.mods.isGetter && !e.mods.isSetter ==> !AccessorPair(previous, e)
    ensures previous.mods.isSetter && e.mods.isSetter && !e.mods.isGetter ==> !AccessorPair(previous, e)
  {
  }

  /** The scope contents after declaring `ds` into `m`, in order. */
  ghost function Declared(m: map<string, Element>, ds: seq<Entry>): map<string, Element>
    decreases |ds|
  {
    if |ds| == 0 then m
    else Declared(m, ds[..|ds| - 1])[EntryName(ds[|ds| - 1]) := EntryValue(ds[|ds| - 1])]
  }

  /** The errors one entry reports against the scope contents `m`. */
  function EntryReports(m: map<string, Element>, d: Entry): seq<Diagnostic> {
    match d
    case Prefixed(_, _) => []
    case Member(e) => DeclareReports(Lookup(m, e.name), e)
  }

  /** The errors declaring `ds` into `m` reports, in order. */
  ghost function Reports(m: map<string, Element>, ds: seq<Entry>): seq<Diagnostic>
    decreases |ds|
  {
    if |ds| == 0 then []
    else Reports(m, ds[..|ds| - 1]) + EntryReports(Declared(m, ds[..|ds| - 1]), ds[|ds| - 1])
  }

  lemma {:induction false} DeclaredAppend(m: map<string, Element>, a: seq<Entry>, b: seq<Entry>)
    ensures Declared(m, a + b) == Declared(Declared(m, a), b)
    decreases |b|
  {
    if |b| == 0 {
      assert a + b == a;
    } else {
      var b' := b[..|b| - 1];
      var ab := a + b;
      assert ab[..|ab| - 1] == a + b';
      assert ab[|ab| - 1] == b[|b| - 1];
      DeclaredAppend(m, a, b');
      calc {
        Declared(m, ab);
        Declared(m, a + b')[EntryName(b[|b| - 1]) := EntryValue(b[|b| - 1])];
        Declared(Declared(m, a), b')[EntryName(b[|b| - 1]) := EntryValue(b[|b| - 1])];
        Declared(Declared(m, a), b);
      }
    }
  }

  lemma {:induction false} ReportsAppend(m: map<string, Element>, a: seq<Entry>, b: seq<Entry>)
    ensures Reports(m, a + b) == Reports(m, a) + Reports(Declared(m, a), b)
    decreases |b|
  {
    if |b| == 0 {
      assert a + b == a;
    } else {
      var b' := b[..|b| - 1];
      var ab := a + b;
      assert ab[..|ab| - 1] == a + b';
      assert ab[|ab| - 1] == b[|b| - 1];
      ReportsAppend(m, a, b');
      DeclaredAppend(m, a, b');
      var d := b[|b| - 1];
      var x, y, z := Reports(m, a), Reports(Declared(m, a), b'), EntryReports(Declared(Declared(m, a), b'), d);
      assert Reports(m, ab) == Reports(m, a + b') + EntryReports(Declared(m, a + b'), d);
      assert Reports(m, ab) == (x + y) + z;
      assert Reports(Declared(m, a), b) == y + z;
      ConcatAssoc(x, y, z);
    }
  }

  /** Declaring one more entry. */
  lemma DeclaredStep(m: map<string, Element>, ds: seq<Entry>, d: Entry)
    ensures Declared(m, ds + [d]) == Declared(m, ds)[EntryName(d) := EntryValue(d)]
    ensures Reports(m, ds + [d]) == Reports(m, ds) + EntryReports(Declared(m, ds), d)
  {
    assert (ds + [d])[..|ds|] == ds;
  }

  lemma ConcatAssoc<T>(x: seq<T>, y: seq<T>, z: seq<T>)
    ensures (x + y) + z == x + (y + z)
  {
  }

  /** The last entry for a name decides its binding. */
  lemma {:induction false} LastEntryWins(m: map<string, Element>, ds: seq<Entry>, n: string, k: nat)
    requires k < |ds| && EntryName(ds[k]) == n
    requires forall j :: k < j < |ds| ==> EntryName(ds[j]) != n
    ensures n in Declared(m, ds) && Declared(m, ds)[n] == EntryValue(ds[k])
    decreases |ds|
  {
    if k < |ds| - 1 {
      var init := ds[..|ds| - 1];
      assert EntryName(ds[|ds| - 1]) != n;
      assert init[k] == ds[k];
      assert forall j :: k < j < |init| ==> init[j] == ds[j];
      LastEntryWins(m, init, n, k);
    }
  }

  /** A name no entry declares keeps the binding it had. */
  lemma {:induction false} UndeclaredKept(m: map<string, Element>, ds: seq<Entry>, n: string)
    requires forall k :: 0 <= k < |ds| ==> EntryName(ds[k]) != n
    ensures Lookup(Declared(m, ds), n) == Lookup(m, n)
    decreases |ds|
  {
    if |ds| > 0 {
      var init := ds[..|ds| - 1];
      assert forall k :: 0 <= k < |init| ==> init[k] == ds[k];
      UndeclaredKept(m, init, n);
    }
  }

  /** The elements `fillInUnitScope` declares: each field of a field definition, each other symbol. */
  function NodeEntries(node: TopLevelNode): (ds: seq<Entry>)
    ensures forall i :: 0 <= i < |ds| ==> ds[i].Member?
    ensures node.FieldDefinition? ==> |ds| == |node.fields| && forall i :: 0 <= i < |ds| ==> ds[i] == Member(node.fields[i])
    ensures node.Declaration? ==> ds == [Member(node.symbol)]
  {
    match node
    case FieldDefinition(fields) => seq(|fields|, i requires 0 <= i < |fields| => Member(fields[i]))
    case Declaration(symbol) => [Member(symbol)]
  }

  function UnitEntries(nodes: seq<TopLevelNode>): (ds: seq<Entry>)
    ensures forall i :: 0 <= i < |ds| ==> ds[i].Member?
    decreases |nodes|
  {
    if |nodes| == 0 then [] else UnitEntries(nodes[..|nodes| - 1]) + NodeEntries(nodes[|nodes| - 1])
  }

  /** Every field of a field definition and every other symbol of a unit is declared. */
  lemma {:induction false} UnitEntriesComplete(nodes: seq<TopLevelNode>, i: nat)
    requires i < |nodes|
    ensures nodes[i].Declaration? ==> Member(nodes[i].symbol) in UnitEntries(nodes)
    ensures nodes[i].FieldDefinition? ==> forall f :: f in nodes[i].fields ==> Member(f) in UnitEntries(nodes)
    decreases |nodes|
  {
    if i < |nodes| - 1 {
      UnitEntriesComplete(nodes[..|nodes| - 1], i);
    } else if nodes[i].FieldDefinition? {
      forall f | f in nodes[i].fields
        ensures Member(f) in UnitEntries(nodes)
      {
        var j :| 0 <= j < |nodes[i].fields| && nodes[i].fields[j] == f;
        assert NodeEntries(nodes[i])[j] == Member(f);
      }
    }
  }

  function UnitsEntries(us: seq<DartUnit>): seq<Entry>
    decreases |us|
  {
    if |us| == 0 then [] else UnitsEntries(us[..|us| - 1]) + UnitEntries(us[|us| - 1].topLevelNodes)
  }

  /** What one import contributes: its prefix binding, or all its units' declarations. */
  ghost function ImportEntries(library: LibraryUnit, imp: LibraryUnit): seq<Entry>
    reads library, imp
  {
    if library.GetPrefixOf(imp).Some? then [Prefixed(library.GetPrefixOf(imp).value, imp.element)]
    else UnitsEntries(imp.units)
  }

  ghost function ImportsEntries(library: LibraryUnit, imps: seq<LibraryUnit>): seq<Entry>
    reads library, set i | 0 <= i < |imps| :: imps[i]
    decreases |imps|
  {
    if |imps| == 0 then [] else ImportsEntries(library, imps[..|imps| - 1]) + ImportEntries(library, imps[|imps| - 1])
  }

  /** All declarations `fillInLibraryScope` makes, in order: imports, then the library's own units. */
  ghost function ScopeEntries(library: LibraryUnit, imps: seq<LibraryUnit>): seq<Entry>
    reads library, set i | 0 <= i < |imps| :: imps[i]
  {
    ImportsEntries(library, imps) + UnitsEntries(library.units)
  }

  /** The library's own declarations come last, so on a collision the last own declaration is kept. */
  lemma OwnDeclarationWins(library: LibraryUnit, imps: seq<LibraryUnit>, k: nat, n: string)
    requires k < |UnitsEntries(library.units)|
    requires EntryName(UnitsEntries(library.units)[k]) == n
    requires forall j :: k < j < |UnitsEntries(library.units)| ==> EntryName(UnitsEntries(library.units)[j]) != n
    ensures n in Declared(map[], ScopeEntries(library, imps))
    ensures Declared(map[], ScopeEntries(library, imps))[n] == EntryValue(UnitsEntries(library.units)[k])
  {
    var a, b := ImportsEntries(library, imps), UnitsEntries(library.units);
    var all := ScopeEntries(library, imps);
    assert all == a + b;
    assert all[|a| + k] == b[k];
    assert forall j :: |a| + k < j < |all| ==> all[j] == b[j - |a|];
    LastEntryWins(map[], all, n, |a| + k);
  }

  /** `declare`: binds the element under its name and reports a collision unless it is a getter/setter pair. */
  method Declare(scope: Scope.Scope, e: Element) returns (errors: seq<Diagnostic>)
    modifies scope
    ensures scope.elements == old(scope.elements)[e.name := e]
    ensures errors == DeclareReports(Lookup(old(scope.elements), e.name), e)
  {
    var oldElement := scope.DeclareElement(e.name, e);
    errors := [];
    if oldElement.Some? {
      if e.mods.isAbstractField && oldElement.value.mods.isAbstractField {
        if e.mods.isGetter && !oldElement.value.mods.isGetter {
          return;
        }
        if e.mods.isSetter && !oldElement.value.mods.isSetter {
          return;
        }
      }
      errors := DuplicateReport(oldElement.value) + DuplicateReport(e);
    }
  }

  /** `fillInUnitScope`: declares the unit's top-level elements in node order. */
  method FillInUnitScope(unit: DartUnit, scope: Scope.Scope) returns (errors: seq<Diagnostic>)
    modifies scope
    ensures scope.elements == Declared(old(scope.elements), UnitEntries(unit.topLevelNodes))
    ensures errors == Reports(old(scope.elements), UnitEntries(unit.topLevelNodes))
  {
    ghost var start := scope.elements;
    var nodes := unit.topLevelNodes;
    errors := [];
    for i := 0 to |nodes|
      invariant scope.elements == Declared(start, UnitEntries(nodes[..i]))
      invariant errors == Reports(start, UnitEntries(nodes[..i]))
    {
      ghost var before := UnitEntries(nodes[..i]);
      var more := DeclareNode(nodes[i], scope);
      assert nodes[..i + 1][..i] == nodes[..i];
      assert UnitEntries(nodes[..i + 1]) == before + NodeEntries(nodes[i]);
      DeclaredAppend(start, before, NodeEntries(nodes[i]));
      ReportsAppend(start, before, NodeEntries(nodes[i]));
      errors := errors + more;
    }
    assert nodes[..|nodes|] == nodes;
  }

  /** One top-level node: each field of a field definition, or the node's symbol. */
  method DeclareNode(node: TopLevelNode, scope: Scope.Scope) returns (errors: seq<Diagnostic>)
    modifies scope
    ensures scope.elements == Declared(old(scope.elements), NodeEntries(node))
    ensures errors == Reports(old(scope.elements), NodeEntries(node))
  {
    ghost var start := scope.elements;
    ghost var ds := NodeEntries(node);
    match node
    case FieldDefinition(fields) =>
      errors := [];
      for j := 0 to |fields|
        invariant scope.elements == Declared(start, ds[..j])
        invariant errors == Reports(start, ds[..j])
      {
        assert ds[..j + 1] == ds[..j] + [Member(fields[j])];
        var more := Declare(scope, fields[j]);
        DeclaredStep(start, ds[..j], Member(fields[j]));
        errors := errors + more;
      }
      assert ds[..|fields|] == ds;
    case Declaration(symbol) =>
      errors := Declare(scope, symbol);
      DeclaredStep(start, [], Member(symbol));
      assert ds == [] + [Member(symbol)];
  }

  /** Declares the units of a library in their sorted order. */
  method FillInUnitsScope(units: seq<DartUnit>, scope: Scope.Scope) returns (errors: seq<Diagnostic>)
    modifies scope
    ensures scope.elements == Declared(old(scope.elements), UnitsEntries(units))
    ensures errors == Reports(old(scope.elements), UnitsEntries(units))
  {
    ghost var start := scope.elements;
    errors := [];
    for j := 0 to |units|
      invariant scope.elements == Declared(start, UnitsEntries(units[..j]))
      invariant errors == Reports(start, UnitsEntries(units[..j]))
    {
      ghost var before := UnitsEntries(units[..j]);
      ghost var mid := scope.elements;
      var more := FillInUnitScope(units[j], scope);
      assert units[..j + 1][..j] == units[..j];
      DeclaredAppend(start, before, UnitEntries(units[j].topLevelNodes));
      ReportsAppend(start, before, UnitEntries(units[j].topLevelNodes));
      errors := errors + more;
    }
    assert units[..|units|] == units;
  }

  /**
   * `fillInLibraryScope`: into the library's empty scope, declares each import (its prefix,
   * or all its units' elements), then the library's own units.
   */
  method FillInLibraryScope(library: LibraryUnit) returns (errors: seq<Diagnostic>)
    requires library.scope.elements == map[]
    requires null !in library.imports
    requires library.Valid() && forall i :: 0 <= i < |library.imports| ==> library.imports[i].Valid()
    modifies library.scope
    ensures library.scope.elements == Declared(map[], ScopeEntries(library, NonNull(library.imports)))
    ensures errors == Reports(map[], ScopeEntries(library, NonNull(library.imports)))
  {
    var imps := NonNull(library.imports);
    errors := FillInImports(library, imps, library.scope);
    var more := FillInUnitsScope(library.GetUnits(), library.scope);
    DeclaredAppend(map[], ImportsEntries(library, imps), UnitsEntries(library.units));
    ReportsAppend(map[], ImportsEntries(library, imps), UnitsEntries(library.units));
    errors := errors + more;
  }

  /** The import half of `fillInLibraryScope`. */
  method FillInImports(library: LibraryUnit, imps: seq<LibraryUnit>, scope: Scope.Scope) returns (errors: seq<Diagnostic>)
    requires scope.elements == map[]
    requires forall i :: 0 <= i < |imps| ==> imps[i].Valid()
    modifies scope
    ensures scope.elements == Declared(map[], ImportsEntries(library, imps))
    ensures errors == Reports(map[], ImportsEntries(library, imps))
  {
    errors := [];
    for i := 0 to |imps|
      invariant scope.elements == Declared(map[], ImportsEntries(library, imps[..i]))
      invariant errors == Reports(map[], ImportsEntries(library, imps[..i]))
    {
      ghost var before := ImportsEntries(library, imps[..i]);
      var more := FillInImport(library, imps[i], scope, before);
      assert imps[..i + 1][..i] == imps[..i];
      assert ImportsEntries(library, imps[..i]) == before;
      assert ImportsEntries(library, imps[..i + 1]) == before + ImportEntries(library, imps[i]);
      errors := errors + more;
    }
    assert imps[..|imps|] == imps;
  }

  /** One import: its prefix binding, or the declarations of all its units. */
  method FillInImport(library: LibraryUnit, lib: LibraryUnit, scope: Scope.Scope, ghost before: seq<Entry>)
    returns (errors: seq<Diagnostic>)
    requires lib.Valid() && scope.elements == Declared(map[], before)
    modifies scope
    ensures scope.elements == Declared(map[], before + ImportEntries(library, lib))
    ensures Reports(map[], before) + errors == Reports(map[], before + ImportEntries(library, lib))
  {
    var prefix := library.GetPrefixOf(lib);
    errors := [];
    if prefix.Some? {
      var _ := scope.DeclareElement(prefix.value, lib.element);
      DeclaredStep(map[], before, Prefixed(prefix.value, lib.element));
    } else {
      errors := FillInUnitsScope(lib.GetUnits(), scope);
      DeclaredAppend(map[], before, UnitsEntries(lib.units));
      ReportsAppend(map[], before, UnitsEntries(lib.units));
    }
  }

  /** The imports as non-null references (the builder dereferences every import). */
  function NonNull(imps: seq<LibraryUnit?>): (r: seq<LibraryUnit>)
    requires null !in imps
    ensures |r| == |imps| && forall i :: 0 <= i < |r| ==> r[i] == imps[i]
  {
    seq(|imps|, i requires 0 <= i < |imps| => imps[i] as LibraryUnit)
  }

  /** `Builder.visitField`: a final top-level field is implicitly a compile-time constant. */
  function TopLevelFieldModifiers(m: Modifiers): (r: Modifiers)
    ensures r.isConstant <==> m.isConstant || m.isFinal
    ensures r.(isConstant := m.isConstant) == m
  {
    if m.isFinal then m.(isConstant := true) else m
  }
}
