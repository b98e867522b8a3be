# dartc resolver and incremental scheduler, modelled in Dafny

This project models the name-resolution core of dartc, the Java front end of the early Dart
compiler. It also models the incremental scheduler that decides what is parsed and resolved
again. The model covers these parts:

- the symbol tables: `ElementMap`, an open-addressing multimap over an array, and `Scope`, a
  chained environment;
- the element helpers of `Elements`;
- the declaration passes:
  - `TopLevelElementBuilder`, which fills a library scope;
  - `SupertypeResolver`, which sets supertypes, interfaces, default classes and bounds;
  - `MemberBuilder`, which builds members, checks modifiers and names, and merges accessors;
- the body-resolution decisions of `Resolver` and `ResolveVisitor`:
  - the legality of `this` and `super`;
  - the correspondence of interface constructors to default-class constructors;
  - redirect cycles;
  - the initialisation of final fields;
  - map-literal type arguments;
  - labels;
- the dependency recording of `LibraryDepsVisitor`;
- the library unit, `LibraryUnit`;
- the scheduler decisions of `DartCompiler`:
  - the cycle-safe library load;
  - embedded imports;
  - the top-level symbol difference and the second sweep;
  - the staleness test;
  - the failure count.

Each core source file has a module of its own. `ElementMap`, `Scope`, `LibraryUnit`, the
compiler and the visitors are classes whose methods change their fields in place. The
resolver's decision procedures are functions. Each method is proved against a specification
function. Lemmas then state the properties of that function: chain semantics, lookup order,
last-declaration-wins, symmetric-difference membership, staleness membership, the failure
message round trip, and so on.

Shared modules:

- `Wrappers` holds `Option`.
- `Strings` holds the lexicographic order `compareTo`, `indexOf`, `lastIndexOf`,
  `substringBefore`/`substringAfter`, and decimal digits.
- `ElementModel` holds element kinds, modifiers, elements as values with an `id` for object
  identity, error codes, and the annotated AST node.

Collaborators that are not part of this model are parameters. `ResolutionContext`'s type and
name resolution, `getAllSupertypes`, `String.hashCode`, `isDartUri` and the artifact store's
dependency records are functions or values supplied by the caller. Reported errors are
returned as sequences of diagnostics, in the order they are reported.

Where the code and its comments disagree, or the code differs from what a reader would expect, the model follows the code, except for the two defects under "## Findings", whose corrected versions the rest of the model uses:

- `ElementMap.get` yields the first element associated with a name, not the last one its doc
  comment names (`ElementMap.GetYieldsFirstNotLast`).
- `LibraryUnit`'s units are kept in ascending source-name order, because the unit map is a
  sorted map, not in insertion order.
- `Scope.findLabel` only yields labels of the innermost function, so the goto diagnosis never
  reaches CANNOT_ACCESS_OUTER_LABEL or NOT_A_LABEL (`Resolver.ResolveElementsVisitor.VisitGotoStatement`).
- Precompiled system libraries are always used (`usePrecompiledDartLibs` is set to true in the
  compiler's constructor), so a `dart:` library never forces a full parse (`CompileRules.FullParse`).

## Model

| member | source | states |
|---|---|---|
| ElementMap.ElementMap.constructor | tests/lib/test/java/com/google/dart/compiler/resolver/ElementMap.java:88-90 | a new map is valid, with capacity 16 and no associations |
| ElementMap.ElementMap.Clear | tests/lib/test/java/com/google/dart/compiler/resolver/ElementMap.java:141-144 | a fresh table of capacity 16 and no associations; the invariant holds |
| ElementMap.ElementMap.Size | tests/lib/test/java/com/google/dart/compiler/resolver/ElementMap.java:191-193 | the number of associations made |
| ElementMap.ElementMap.IsEmpty | tests/lib/test/java/com/google/dart/compiler/resolver/ElementMap.java:187-189 | true exactly when no association was made, i.e. exactly when the size is 0 |
| ElementMap.ElementMap.Values | tests/lib/test/java/com/google/dart/compiler/resolver/ElementMap.java:195-197 | the associated elements, one per association, in insertion order |
| ElementMap.ElementMap.InternalAdd | tests/lib/test/java/com/google/dart/compiler/resolver/ElementMap.java:212-232 | with a free slot, -1 exactly when the name was absent, and then the first empty probe slot holds the new entry and the table still satisfies linear probing; otherwise the index of the slot holding the name, with the table unchanged; the "overfilled array" failure is unreachable |
| ElementMap.ElementMap.InternalGet | tests/lib/test/java/com/google/dart/compiler/resolver/ElementMap.java:234-245 | an empty slot exactly when the name is not stored, otherwise the table's slot for that name; never fails |
| ElementMap.ElementMap.Grow | tests/lib/test/java/com/google/dart/compiler/resolver/ElementMap.java:199-210 | a table 4 times larger, still valid, with the same associations, the same occupancy and exactly the same stored names; the "Failed to grow" failure is unreachable |
| ElementMap.ElementMap.Add | tests/lib/test/java/com/google/dart/compiler/resolver/ElementMap.java:92-139 | keeps the invariant (capacity a power of two, occupancy at most 3/4); an already associated pair changes nothing; a new pair is appended to the associations and its element to the values |
| ElementMap.ElementMap.Insert | tests/lib/test/java/com/google/dart/compiler/resolver/ElementMap.java:110-138 | the association step once the table has room: the same outcome as `add` |
| ElementMap.ElementMap.Get | tests/lib/test/java/com/google/dart/compiler/resolver/ElementMap.java:146-158 | null when the name was never associated, otherwise the FIRST element associated with it |
| ElementMap.ElementMap.GetByKind | tests/lib/test/java/com/google/dart/compiler/resolver/ElementMap.java:160-185 | the first element of the name's chain whose kind is the given kind, or null when none has it |
| ElementMap.ChainHolds | tests/lib/test/java/com/google/dart/compiler/resolver/ElementMap.java:116-131 | the chain walk finds the element exactly when it is in the chain |
| ElementMap.FirstOfKind | tests/lib/test/java/com/google/dart/compiler/resolver/ElementMap.java:166-184 | the first chain element of the kind, or none exactly when no chain element has it |
| ElementMap.CapacityIsPowerOfTwo | tests/lib/test/java/com/google/dart/compiler/resolver/ElementMap.java:84 | every capacity (16, then times 4) is a power of two of at least 16, so `hash & mask` is the remainder |
| ElementMap.CapacityGrows | tests/lib/test/java/com/google/dart/compiler/resolver/ElementMap.java:199-201 | growing by 4 keeps the capacity a valid capacity |
| ElementMap.ChainOfMember | tests/lib/test/java/com/google/dart/compiler/resolver/ElementMap.java:126-135 | an element is in a name's chain exactly when that pair was associated |
| ElementMap.ChainOfEmpty | tests/lib/test/java/com/google/dart/compiler/resolver/ElementMap.java:110-113 | a chain is empty exactly when the name was never associated |
| ElementMap.ChainHeadIsFirst | tests/lib/test/java/com/google/dart/compiler/resolver/ElementMap.java:146-158 | the head of a chain is the element of the first association of that name |
| ElementMap.GetYieldsFirstNotLast | tests/lib/test/java/com/google/dart/compiler/resolver/ElementMap.java:146-158 | after two elements are associated with one name, the head is the first one and not the last, contrary to the doc comment |
| ElementMap.AbsentAfterEmpty | tests/lib/test/java/com/google/dart/compiler/resolver/ElementMap.java:238-242 | probes that met only other names and then an empty slot prove the name absent |
| ElementMap.AllProbesFull | tests/lib/test/java/com/google/dart/compiler/resolver/ElementMap.java:220-231 | a probe sequence that met no empty slot visited every slot, so the table is full |
| ElementMap.FillKeepsTable | tests/lib/test/java/com/google/dart/compiler/resolver/ElementMap.java:220-226 | filling the first empty probe slot keeps every probe path occupied |
| ElementMap.AddNewName | tests/lib/test/java/com/google/dart/compiler/resolver/ElementMap.java:110-113 | a new name in an empty slot keeps the state invariant with one more association |
| ElementMap.AddToChain | tests/lib/test/java/com/google/dart/compiler/resolver/ElementMap.java:126-135 | appending a new element to a stored name's chain keeps the state invariant with one more association |
| ElementMap.StoredIffChain | tests/lib/test/java/com/google/dart/compiler/resolver/ElementMap.java:110-124 | a name is stored exactly when its chain is non-empty |
| ElementMap.NotYetMoved | tests/lib/test/java/com/google/dart/compiler/resolver/ElementMap.java:202-207 | while rehashing, the next old name is not yet in the new table, so re-adding it never collides |
| ElementMap.Rehashed | tests/lib/test/java/com/google/dart/compiler/resolver/ElementMap.java:199-210 | a table holding exactly the old entries is consistent with the same associations and stores the same names |
| ElementMap.CountUpdate | tests/lib/test/java/com/google/dart/compiler/resolver/ElementMap.java:224 | overwriting one slot changes the occupancy by exactly that slot's change |
| Scope.Scope.constructor | tests/lib/test/java/com/google/dart/compiler/resolver/Scope.java:24-34 | a new scope with the given name, library and parent, no bindings and no label; the parent chain stays finite |
| Scope.Scope.Clear | tests/lib/test/java/com/google/dart/compiler/resolver/Scope.java:36-38 | empties the local bindings only; the label is kept |
| Scope.Scope.DeclareElement | tests/lib/test/java/com/google/dart/compiler/resolver/Scope.java:40-42 | returns the previous local binding of the name (or null); afterwards the name is bound to the element and no other name changes |
| Scope.Scope.FindLocalElement | tests/lib/test/java/com/google/dart/compiler/resolver/Scope.java:44-46 | the local binding of the name, or null exactly when there is none |
| Scope.Scope.IsClear | tests/lib/test/java/com/google/dart/compiler/resolver/Scope.java:96-98 | true exactly when no name has a local binding |
| Scope.Scope.SetLabel | tests/lib/test/java/com/google/dart/compiler/resolver/Scope.java:100-102 | sets the label; the bindings are unchanged |
| Scope.Scope.Chain | tests/lib/test/java/com/google/dart/compiler/resolver/Scope.java:92-94 | the parent chain, innermost first, ending at the root |
| Scope.Scope.FindElement | tests/lib/test/java/com/google/dart/compiler/resolver/Scope.java:48-65 | null exactly when no scope on the parent chain yields the name; otherwise the binding of the innermost scope that yields it |
| Scope.Scope.ShiftYields | tests/lib/test/java/com/google/dart/compiler/resolver/Scope.java:57-63 | when this scope yields nothing, the parent's answer is this scope's answer |
| Scope.Scope.NoLibraryIgnoresPrivacy | tests/lib/test/java/com/google/dart/compiler/resolver/Scope.java:50-56 | with a null `fromLibrary`, lookup finds a name exactly when some scope on the chain binds it, private or not |
| Scope.Scope.PrivateNameSkipped | tests/lib/test/java/com/google/dart/compiler/resolver/Scope.java:50-56 | a private name bound in a scope of another library is skipped: the answer is the parent's, or null at the root |
| Scope.Scope.FindLabel | tests/lib/test/java/com/google/dart/compiler/resolver/Scope.java:71-78 | the label of the innermost scope whose label has the target name and the same innermost function; null exactly when no scope on the chain has such a label |
| Scope.Scope.ShiftLabel | tests/lib/test/java/com/google/dart/compiler/resolver/Scope.java:71-78 | when this scope's label does not match, the parent's answer is the answer for the whole chain, with the same first-match position |
| Elements.GetLibraryElement | tests/lib/test/java/com/google/dart/compiler/resolver/Elements.java:75-83 | the innermost element of the enclosing chain (the element itself first) whose kind is LIBRARY, or null exactly when there is none |
| Elements.IsNonFactoryConstructor | tests/lib/test/java/com/google/dart/compiler/resolver/Elements.java:307-310 | a constructor that is not a factory |
| Elements.IsTopLevel | tests/lib/test/java/com/google/dart/compiler/resolver/Elements.java:312-314 | the enclosing element is a library |
| Elements.NeedsImplicitDefaultConstructor | tests/lib/test/java/com/google/dart/compiler/resolver/Elements.java:339-342 | no declared constructor, and a class or an interface with a default class |
| Elements.Implements | tests/lib/test/java/com/google/dart/compiler/resolver/Elements.java:347-357 | some supertype of the class is the interface; false when the enumeration fails |
| Elements.RawName | tests/lib/test/java/com/google/dart/compiler/resolver/Elements.java:374-383 | an identifier's name, a parameterized type's raw name, or the qualifier's raw name, a dot and the name |
| Elements.IsSyntheticConstructor | tests/lib/test/java/com/google/dart/compiler/resolver/Elements.java:552-554 | a constructor without a node |
| Elements.IsDefaultConstructor | tests/lib/test/java/com/google/dart/compiler/resolver/Elements.java:559-562 | a constructor without parameters whose raw name is its class's name |
| Elements.ImplementsType | tests/lib/test/java/com/google/dart/compiler/resolver/Elements.java:347-357 | true exactly when some supertype names the interface; false when enumerating the supertypes fails |
| Elements.RawNameDot | tests/lib/test/java/com/google/dart/compiler/resolver/Elements.java:374-383 | with dot-free identifiers, a raw name contains a dot exactly when the name is a property access |
| Elements.RawNameSplit | tests/lib/test/java/com/google/dart/compiler/resolver/Elements.java:374-383 | splitting the raw name `q.x` at its first dot gives back the raw qualifier and the name |
| Elements.RawMethodName | tests/lib/test/java/com/google/dart/compiler/resolver/Elements.java:363-372 | the raw name of the method's name expression, or the enclosing element's name for a synthetic method |
| Elements.RequiredPlusNamed | tests/lib/test/java/com/google/dart/compiler/resolver/Elements.java:388-411 | the required count plus the number of named names is the parameter count |
| Elements.NamedParameterNamesAt | tests/lib/test/java/com/google/dart/compiler/resolver/Elements.java:402-411 | every named parameter's name is among the named names |
| Elements.GetNumberOfRequiredParameters | tests/lib/test/java/com/google/dart/compiler/resolver/Elements.java:388-397 | the number of parameters that are not named, which is the arity minus the named count |
| Elements.GetNamedParameters | tests/lib/test/java/com/google/dart/compiler/resolver/Elements.java:402-411 | the names of the named parameters, in declaration order |
| Elements.SyntheticIsDefault | tests/lib/test/java/com/google/dart/compiler/resolver/Elements.java:548-562 | a synthetic constructor without parameters is a default constructor |
| Elements.DeclaredDefaultConstructor | tests/lib/test/java/com/google/dart/compiler/resolver/Elements.java:556-562 | a declared constructor without parameters is a default constructor exactly when its raw name is its class's name |
| Elements.IsStaticContext | tests/lib/test/java/com/google/dart/compiler/resolver/Elements.java:284-305 | false without a node; otherwise true exactly when the parent walk meets a unit or a static class member before any class |
| Elements.IsLibrarySource | tests/lib/test/java/com/google/dart/compiler/resolver/Elements.java:578-588 | true exactly for a Dart source whose library name starts with "dart://" and ends with "/" and the given name |
| Elements.TypeVariableFor | tests/lib/test/java/com/google/dart/compiler/resolver/Elements.java:189-191 | a TYPE_VARIABLE element named by the parameter, enclosed by the owner |
| Elements.MakeTypeVariables | tests/lib/test/java/com/google/dart/compiler/resolver/Elements.java:316-330 | no variables for a null list; otherwise one per parameter, in order, each recorded as the symbol of its parameter's name node |
| LibraryUnit.LibraryUnit.constructor | tests/lib/test/java/com/google/dart/compiler/ast/LibraryUnit.java:62-76 | a library with no paths, units, imports, prefixes or deps, whose self source path is `SelfPath` of the URI's scheme-specific part |
| LibraryUnit.SelfPath | tests/lib/test/java/com/google/dart/compiler/ast/LibraryUnit.java:70-75 | the text after the last '/', or all of it when there is none; it contains no '/' |
| LibraryUnit.LibraryUnit.AddImportPath | tests/lib/test/java/com/google/dart/compiler/ast/LibraryUnit.java:78-81 | appends the path |
| LibraryUnit.LibraryUnit.AddSourcePath | tests/lib/test/java/com/google/dart/compiler/ast/LibraryUnit.java:83-87 | appends the path and counts it: the source count grows by one |
| LibraryUnit.LibraryUnit.GetSourceCount | tests/lib/test/java/com/google/dart/compiler/ast/LibraryUnit.java:94-96 | the number of source paths added |
| LibraryUnit.LibraryUnit.PutUnit | tests/lib/test/java/com/google/dart/compiler/ast/LibraryUnit.java:103-106 | sets the unit's library to this one; afterwards `getUnit` of its name gives it, no other name changes, and the units stay sorted |
| LibraryUnit.LibraryUnit.GetUnit | tests/lib/test/java/com/google/dart/compiler/ast/LibraryUnit.java:108-110 | the unit stored under the name, or null exactly when none is |
| LibraryUnit.LibraryUnit.GetUnits | tests/lib/test/java/com/google/dart/compiler/ast/LibraryUnit.java:127-129 | all stored units in strictly ascending source-name order, each found by its name |
| LibraryUnit.LibraryUnit.AddImport | tests/lib/test/java/com/google/dart/compiler/ast/LibraryUnit.java:112-117 | always appends the import; a prefix is recorded only for a non-null node that carries one |
| LibraryUnit.LibraryUnit.HasImport | tests/lib/test/java/com/google/dart/compiler/ast/LibraryUnit.java:135-137 | true exactly when the library is among the imports |
| LibraryUnit.LibraryUnit.GetPrefixOf | tests/lib/test/java/com/google/dart/compiler/ast/LibraryUnit.java:119-121 | the recorded prefix, or null exactly when none was recorded |
| LibraryUnit.LibraryUnit.GetPrefixes | tests/lib/test/java/com/google/dart/compiler/ast/LibraryUnit.java:165-170 | exactly the recorded prefix values |
| LibraryUnit.LibraryUnit.GetDeps | tests/lib/test/java/com/google/dart/compiler/ast/LibraryUnit.java:238-257 | memoised: once set, the same record is returned and kept; the first call stores the artifact's record, or an empty one when there is none |
| LibraryUnit.GetSource | tests/lib/test/java/com/google/dart/compiler/ast/LibraryUnit.java:242-257 | the recorded entry of a unit path, or none exactly when the record has no such path |
| LibraryUnit.FindUnit | tests/lib/test/java/com/google/dart/compiler/ast/LibraryUnit.java:108-110 | a unit of that name from the list, or none exactly when no unit has the name |
| LibraryUnit.FindUnitSorted | tests/lib/test/java/com/google/dart/compiler/ast/LibraryUnit.java:108-110 | in a sorted list each name is found at its one position |
| LibraryUnit.ReplaceKeepsSorted | tests/lib/test/java/com/google/dart/compiler/ast/LibraryUnit.java:103-106 | replacing a unit of the same name keeps the list sorted and changes only what that name finds |
| LibraryUnit.InsertKeepsSorted | tests/lib/test/java/com/google/dart/compiler/ast/LibraryUnit.java:103-106 | inserting a new name at its ordered position keeps the list sorted and changes only what that name finds |
| LibraryUnit.NamesAfterInsertPoint | tests/lib/test/java/com/google/dart/compiler/ast/LibraryUnit.java:37 | every name after the insertion point is greater than the new one |
| Strings.LessIrreflexive | tests/lib/test/java/com/google/dart/compiler/ast/LibraryUnit.java:37 | the source-name order of the sorted unit map is irreflexive |
| Strings.LessAsymmetric | tests/lib/test/java/com/google/dart/compiler/ast/LibraryUnit.java:37 | the source-name order is asymmetric |
| LibraryUnit.FindUnitEach | tests/lib/test/java/com/google/dart/compiler/ast/LibraryUnit.java:108-110 | in a sorted list every stored unit is found by its own name |
| LibraryUnit.InsertedSorted | tests/lib/test/java/com/google/dart/compiler/ast/LibraryUnit.java:103-106 | a unit inserted between smaller and greater names leaves the list sorted |
| LibraryUnit.SameNamesSameFind | tests/lib/test/java/com/google/dart/compiler/ast/LibraryUnit.java:108-110 | two lists that differ only at units of other names find the same unit for the name |
| LibraryUnit.InsertedFind | tests/lib/test/java/com/google/dart/compiler/ast/LibraryUnit.java:103-110 | inserting a unit of another name does not change what the name finds |
| Strings.LessTotal | tests/lib/test/java/com/google/dart/compiler/ast/LibraryUnit.java:37 | the source-name order is total |
| Strings.LessTransitive | tests/lib/test/java/com/google/dart/compiler/ast/LibraryUnit.java:37 | the source-name order is transitive |
| Strings.IndexOf | tests/lib/test/java/com/google/dart/compiler/resolver/Resolver.java:1258 | the first position of the character, or -1 exactly when it does not occur |
| Strings.LastIndexOf | tests/lib/test/java/com/google/dart/compiler/ast/LibraryUnit.java:71-72 | the last position of the character, or -1 exactly when it does not occur |
| Strings.SubstringBefore | tests/lib/test/java/com/google/dart/compiler/resolver/Resolver.java:1259 | the text before the first separator, or all of it when there is none |
| Strings.SubstringAfter | tests/lib/test/java/com/google/dart/compiler/resolver/Resolver.java:1260 | the text after the first separator, which with the text before and the separator gives back the whole; empty when there is none |
| ElementModel.DuplicateDeclarationReport | tests/lib/test/java/com/google/dart/compiler/resolver/TopLevelElementBuilder.java:122-136 | one error at the element's node exactly when that node is a declaration, none otherwise |
| TopLevelElementBuilder.Lookup | tests/lib/test/java/com/google/dart/compiler/resolver/Scope.java:40-42 | the binding a scope map holds for a name, or none exactly when it holds none |
| TopLevelElementBuilder.CollisionReportedTwice | tests/lib/test/java/com/google/dart/compiler/resolver/TopLevelElementBuilder.java:116-136 | a collision that is not a getter/setter pair reports DUPLICATE_TOP_LEVEL_DEFINITION twice, at the old declaration first, then at the new one |
| TopLevelElementBuilder.AccessorExemption | tests/lib/test/java/com/google/dart/compiler/resolver/TopLevelElementBuilder.java:105-119 | a collision is silent exactly when it is a getter/setter pair or neither node is a declaration; a second getter or a second setter is never a pair |
| TopLevelElementBuilder.DeclaredAppend | tests/lib/test/java/com/google/dart/compiler/resolver/TopLevelElementBuilder.java:65-80 | declaring two runs of entries in turn is declaring their concatenation |
| TopLevelElementBuilder.ReportsAppend | tests/lib/test/java/com/google/dart/compiler/resolver/TopLevelElementBuilder.java:65-80 | the errors of two runs in turn are the errors of their concatenation |
| TopLevelElementBuilder.LastEntryWins | tests/lib/test/java/com/google/dart/compiler/resolver/TopLevelElementBuilder.java:103 | the last entry for a name decides its binding |
| TopLevelElementBuilder.UndeclaredKept | tests/lib/test/java/com/google/dart/compiler/resolver/TopLevelElementBuilder.java:103 | a name no entry declares keeps the binding it had |
| TopLevelElementBuilder.NodeEntries | tests/lib/test/java/com/google/dart/compiler/resolver/TopLevelElementBuilder.java:85-92 | a field definition declares each of its fields, in order; any other node declares its symbol |
| TopLevelElementBuilder.UnitEntriesComplete | tests/lib/test/java/com/google/dart/compiler/resolver/TopLevelElementBuilder.java:84-94 | every field of every field definition and every other symbol of a unit is declared |
| TopLevelElementBuilder.OwnDeclarationWins | tests/lib/test/java/com/google/dart/compiler/resolver/TopLevelElementBuilder.java:61-81 | the library's own declarations come after every import, so on a collision the last own declaration is the one kept |
| TopLevelElementBuilder.Declare | tests/lib/test/java/com/google/dart/compiler/resolver/TopLevelElementBuilder.java:102-120 | binds the element under its name and reports exactly the errors of the collision rule for the binding it replaced |
| TopLevelElementBuilder.FillInUnitScope | tests/lib/test/java/com/google/dart/compiler/resolver/TopLevelElementBuilder.java:83-94 | the scope is the old one with the unit's entries declared in node order; the errors are theirs, in order |
| TopLevelElementBuilder.DeclareNode | tests/lib/test/java/com/google/dart/compiler/resolver/TopLevelElementBuilder.java:85-92 | each field of a field definition, or the node's symbol, is declared in order with its errors |
| TopLevelElementBuilder.FillInUnitsScope | tests/lib/test/java/com/google/dart/compiler/resolver/TopLevelElementBuilder.java:72-80 | the units are declared in their sorted order |
| TopLevelElementBuilder.FillInLibraryScope | tests/lib/test/java/com/google/dart/compiler/resolver/TopLevelElementBuilder.java:55-81 | into the empty library scope: each import (its prefix bound to the library element, or all its units' declarations), then the library's own units; the errors are those of these declarations in order |
| TopLevelElementBuilder.FillInImports | tests/lib/test/java/com/google/dart/compiler/resolver/TopLevelElementBuilder.java:65-76 | the imports' part of the library scope, in import order |
| TopLevelElementBuilder.FillInImport | tests/lib/test/java/com/google/dart/compiler/resolver/TopLevelElementBuilder.java:66-75 | a prefixed import binds only its prefix; an unprefixed one declares every unit of the imported library |
| TopLevelElementBuilder.NonNull | tests/lib/test/java/com/google/dart/compiler/resolver/TopLevelElementBuilder.java:65 | the imports, every one of which is dereferenced |
| TopLevelElementBuilder.TopLevelFieldModifiers | tests/lib/test/java/com/google/dart/compiler/resolver/TopLevelElementBuilder.java:182-191 | a final top-level field becomes a compile-time constant; no other modifier changes |
| SupertypeResolver.IsCoreLibrarySource | tests/lib/test/java/com/google/dart/compiler/resolver/SupertypeResolver.java:145-152 | true exactly for a Dart source of the library corelib.dart or corelib_impl.dart |
| SupertypeResolver.DefaultSupertype | tests/lib/test/java/com/google/dart/compiler/resolver/SupertypeResolver.java:61-84 | without a declared superclass the supertype is Object, and none exactly for Object itself |
| SupertypeResolver.ImplementsErrors | tests/lib/test/java/com/google/dart/compiler/resolver/SupertypeResolver.java:94-103 | no errors inside the core library; at most one per interface; each one is BLACK_LISTED_IMPLEMENTS |
| SupertypeResolver.BlackListedInterfaceReported | tests/lib/test/java/com/google/dart/compiler/resolver/SupertypeResolver.java:99-101 | a deny-listed interface outside the core library is reported at its node |
| SupertypeResolver.Resolved | tests/lib/test/java/com/google/dart/compiler/resolver/SupertypeResolver.java:95-97 | one resolved interface type per interface node, in order |
| SupertypeResolver.SetBoundsOnTypeParameters | tests/lib/test/java/com/google/dart/compiler/resolver/SupertypeResolver.java:123-143 | each type parameter's bound is its resolved declared bound, set on the bound node too, or Object without one |
| SupertypeResolver.AddInterfaces | tests/lib/test/java/com/google/dart/compiler/resolver/SupertypeResolver.java:94-109 | every interface is appended in order, deny-listed ones included, and the errors are the deny-list reports |
| SupertypeResolver.VisitClass | tests/lib/test/java/com/google/dart/compiler/resolver/SupertypeResolver.java:53-112 | supertype set exactly when there is one; BLACK_LISTED_EXTENDS for a deny-listed superclass outside the core library; default class recorded only when it resolves to a CLASS; interfaces appended in order; every type parameter's bound set, each declared bound node typed with that bound and its symbol kept; the default clause's symbol kept |
| SupertypeResolver.ResolveSupertype | tests/lib/test/java/com/google/dart/compiler/resolver/SupertypeResolver.java:61-84 | the supertype is set exactly when there is one, else unchanged; BLACK_LISTED_EXTENDS exactly for a deny-listed superclass outside the core library |
| SupertypeResolver.ResolveDefaultClass | tests/lib/test/java/com/google/dart/compiler/resolver/SupertypeResolver.java:86-92 | a default clause resolving to a CLASS sets the class's default class and the clause's type; otherwise both are unchanged; the clause's symbol is never changed |
| SupertypeResolver.VisitFunctionTypeAlias | tests/lib/test/java/com/google/dart/compiler/resolver/SupertypeResolver.java:114-120 | the Function type is appended to the interfaces, the supertype and the default class are unchanged, and every type parameter's bound is set, each declared bound node typed with that bound and its symbol kept |
| ResolveVisitor.TypeOrDynamic | tests/lib/test/java/com/google/dart/compiler/resolver/ResolveVisitor.java:129-142 | Dynamic for a null node or an unresolved type, otherwise the resolved type |
| ResolveVisitor.RecordElement | tests/lib/test/java/com/google/dart/compiler/resolver/ResolveVisitor.java:144-152 | returns the element; a null element leaves the node's symbol unchanged, any other becomes it |
| ResolveVisitor.ResolveType | tests/lib/test/java/com/google/dart/compiler/resolver/ResolveVisitor.java:129-142 | the result is never null (Dynamic as the fallback), becomes the node's type, and its element, when there is one, becomes the identifier's symbol; a node distinct from its identifier keeps its symbol, and the identifier its type |
| ResolveVisitor.BindTypeVariable | tests/lib/test/java/com/google/dart/compiler/resolver/ResolveVisitor.java:78-89 | the bound is the resolved bound node, which gets that type, or Object when there is none |
| ResolveVisitor.WithVariables | tests/lib/test/java/com/google/dart/compiler/resolver/ResolveVisitor.java:91-100 | the scope after declaring the type variables binds the old names and every variable's name |
| ResolveVisitor.LastVariableWins | tests/lib/test/java/com/google/dart/compiler/resolver/ResolveVisitor.java:95-99 | a variable's name is bound to the last variable declared under it |
| ResolveVisitor.BindTypeVariables | tests/lib/test/java/com/google/dart/compiler/resolver/ResolveVisitor.java:91-100 | nothing for a null list; otherwise every variable's bound is set, each declared bound node is typed with that bound and keeps its symbol, and the scope declares the variables in order |
| ResolveVisitor.BindEach | tests/lib/test/java/com/google/dart/compiler/resolver/ResolveVisitor.java:95-99 | the loop over a present list: every variable's bound is set, each declared bound node is typed with that bound and keeps its symbol, and the scope ends with the variables declared in order, a later one of the same name replacing an earlier one |
| ResolveVisitor.ResolveFunction | tests/lib/test/java/com/google/dart/compiler/resolver/ResolveVisitor.java:37-52 | the parameters are appended in order, the type is the function type of those parameters and the resolved return type, and the element is otherwise unchanged; the return-type node gets the resolved type (Dynamic as the fallback) and its identifier the type's element when there is one, as in `resolveType` |
| MemberBuilder.FirstNamed | tests/lib/test/java/com/google/dart/compiler/resolver/MemberBuilder.java:518-522 | the first element with the name, or none exactly when no element has it |
| MemberBuilder.ConstructorName | tests/lib/test/java/com/google/dart/compiler/resolver/MemberBuilder.java:517 | a constructor is looked up under "" when the name is the class's own, and under the name otherwise |
| MemberBuilder.Holder.constructor | tests/lib/test/java/com/google/dart/compiler/resolver/MemberBuilder.java:59-65 | a holder with no members, constructors or accessors yet |
| MemberBuilder.Holder.LookupLocalElement | tests/lib/test/java/com/google/dart/compiler/resolver/MemberBuilder.java:514 | a member with the name, or none exactly when no member has it |
| MemberBuilder.Holder.ElementByName | tests/lib/test/java/com/google/dart/compiler/resolver/MemberBuilder.java:513-525 | a local member when there is one; otherwise, in a class only, the first constructor under the constructor name |
| MemberBuilder.Holder.LookupElementByName | tests/lib/test/java/com/google/dart/compiler/resolver/MemberBuilder.java:513-525 | the loop over the constructors finds exactly that element |
| MemberBuilder.Holder.AddMember | tests/lib/test/java/com/google/dart/compiler/resolver/MemberBuilder.java:370-380 | appends the member and reports the uniqueness errors against the element found before it was added |
| MemberBuilder.Holder.AddConstructor | tests/lib/test/java/com/google/dart/compiler/resolver/MemberBuilder.java:382-385 | appends the constructor and reports the uniqueness errors against the element found before |
| MemberBuilder.GetMethodKind | tests/lib/test/java/com/google/dart/compiler/resolver/MemberBuilder.java:387-427 | METHOD outside a class; a factory is a CONSTRUCTOR; a plain name is a CONSTRUCTOR exactly when it is the class's name; a qualified name is a CONSTRUCTOR when qualified by the class or a parameterized type and otherwise NONE with CANNOT_DECLARE_NON_FACTORY_CONSTRUCTOR for an identifier qualifier or TOO_MANY_QUALIFIERS_FOR_METHOD; an error exactly for NONE |
| MemberBuilder.ErrorIf | tests/lib/test/java/com/google/dart/compiler/resolver/MemberBuilder.java:429-463 | one diagnostic at the site exactly when the condition holds |
| MemberBuilder.ModifierErrors | tests/lib/test/java/com/google/dart/compiler/resolver/MemberBuilder.java:429-463 | a non-factory constructor that is static, abstract, or const with a body, and a factory that is static, abstract or const, are each reported at the method; nothing else is |
| MemberBuilder.ConstructorModifierErrors | tests/lib/test/java/com/google/dart/compiler/resolver/MemberBuilder.java:431-446 | the three constructor modifier errors, each exactly when its modifier is present on a non-factory constructor |
| MemberBuilder.FactoryModifierErrors | tests/lib/test/java/com/google/dart/compiler/resolver/MemberBuilder.java:447-462 | the three factory modifier errors, each exactly when its modifier is present on a factory |
| MemberBuilder.ConstructorErrors | tests/lib/test/java/com/google/dart/compiler/resolver/MemberBuilder.java:465-470 | CONSTRUCTOR_CANNOT_HAVE_RETURN_TYPE exactly for a non-factory constructor with a return type |
| MemberBuilder.UniqueNameErrorsAsWritten | tests/lib/test/java/com/google/dart/compiler/resolver/MemberBuilder.java:472-511 | the uniqueness check as written: nothing without a clash or across namespaces (constructor vs not, other class's constructor, operator vs not) |
| MemberBuilder.SameNameOperatorsPass | tests/lib/test/java/com/google/dart/compiler/resolver/MemberBuilder.java:498-502 | two same-name operator methods pass `checkUniqueName` as written, where the corrected rule reports them twice |
| MemberBuilder.UniqueNameErrors | tests/lib/test/java/com/google/dart/compiler/resolver/MemberBuilder.java:472-511 | outside separate namespaces, a clash reports DUPLICATE_MEMBER at the earlier element and then at the new one; every error is DUPLICATE_MEMBER |
| MemberBuilder.UniqueNameVersionsAgree | tests/lib/test/java/com/google/dart/compiler/resolver/MemberBuilder.java:472-511 | the two versions agree on every pair except same-name operators one of which is a method |
| MemberBuilder.FieldModifiers | tests/lib/test/java/com/google/dart/compiler/resolver/MemberBuilder.java:245-252 | static exactly when static already or final and static or top level is set; constant exactly when constant already or final and static or top level |
| MemberBuilder.FieldModifiersKeepOthers | tests/lib/test/java/com/google/dart/compiler/resolver/MemberBuilder.java:245-252 | no modifier other than static and constant changes |
| MemberBuilder.FieldFromNode | tests/lib/test/java/com/google/dart/compiler/resolver/MemberBuilder.java:255 | a field element of the node's name and modifiers, enclosed by the holder |
| MemberBuilder.MethodFromNode | tests/lib/test/java/com/google/dart/compiler/resolver/MemberBuilder.java:132 | a method element of the node's modifiers and parameters, enclosed by the holder |
| MemberBuilder.ConstructorFromNode | tests/lib/test/java/com/google/dart/compiler/resolver/MemberBuilder.java:220-241 | a constructor element of the given name, modifiers and constructor type |
| MemberBuilder.BuildConstructor | tests/lib/test/java/com/google/dart/compiler/resolver/MemberBuilder.java:220-241 | a constructor element; INVALID_TYPE_NAME_IN_CONSTRUCTOR exactly when the name does not resolve; an already-built constructor is reused; otherwise the default constructor name with the resolved type |
| MemberBuilder.MergeAccessor | tests/lib/test/java/com/google/dart/compiler/resolver/MemberBuilder.java:337-367 | a first getter sets the getter and the field type to its return type; a first setter sets the setter and the type of its one parameter, or Dynamic with EXPECTED_ONE_ARGUMENT; a second getter or setter changes nothing and is reported twice as DUPLICATE_MEMBER only in a class |
| MemberBuilder.GetterThenSetterMerge | tests/lib/test/java/com/google/dart/compiler/resolver/MemberBuilder.java:337-367 | a getter then a one-parameter setter make one field with both, silently, typed by the setter's parameter |
| MemberBuilder.SetterThenGetterMerge | tests/lib/test/java/com/google/dart/compiler/resolver/MemberBuilder.java:337-367 | a setter then a getter make one field with both, silently, typed by the getter's return type |
| MemberBuilder.SecondGetterReported | tests/lib/test/java/com/google/dart/compiler/resolver/MemberBuilder.java:338-342 | a second getter in a class reports DUPLICATE_MEMBER at both getters; at top level it is silent |
| MemberBuilder.BuildField | tests/lib/test/java/com/google/dart/compiler/resolver/MemberBuilder.java:243-265 | a new field from the node with FieldModifiers, or the top-level symbol, typed by the definition and appended; the node's symbol becomes it; uniqueness errors only for a new field |
| MemberBuilder.ReusableField | tests/lib/test/java/com/google/dart/compiler/resolver/MemberBuilder.java:324-327 | an existing element is reused exactly when it is an abstract field |
| MemberBuilder.BuildAbstractField | tests/lib/test/java/com/google/dart/compiler/resolver/MemberBuilder.java:310-368 | reuses an existing abstract field or appends a new one with its uniqueness errors, merges the accessor into it, and records the accessor and field elements on their nodes (the `resolveFunction` call on the accessor is left out) |
| MemberBuilder.RecordAccessor | tests/lib/test/java/com/google/dart/compiler/resolver/MemberBuilder.java:337-367 | the field's accessor record becomes the merge of the new accessor, with its errors |
| MemberBuilder.FieldForAccessor | tests/lib/test/java/com/google/dart/compiler/resolver/MemberBuilder.java:318-336 | the reusable field, members unchanged, or a new field appended with its uniqueness errors |
| MemberBuilder.MergeOf | tests/lib/test/java/com/google/dart/compiler/resolver/MemberBuilder.java:313-367 | a field with no accessor record yet merges into the empty record |
| MemberBuilder.AddNewConstructor | tests/lib/test/java/com/google/dart/compiler/resolver/MemberBuilder.java:124-129 | appends the built constructor with the kind, name, return-type and uniqueness errors |
| MemberBuilder.AddNewMethod | tests/lib/test/java/com/google/dart/compiler/resolver/MemberBuilder.java:122-135 | a METHOD is appended to the members, anything else built as a constructor and appended to the constructors, each with its errors |
| MemberBuilder.VisitMethodDefinition | tests/lib/test/java/com/google/dart/compiler/resolver/MemberBuilder.java:118-151 | an existing top-level symbol is appended as is; else by kind a method or a constructor; the modifier errors follow; the node's symbol is the element (the closing `resolveFunction` call is left out) |
| MemberBuilder.Symbols | tests/lib/test/java/com/google/dart/compiler/resolver/MemberBuilder.java:154-171 | the symbols of the field nodes, one per node |
| MemberBuilder.VisitFieldDefinition | tests/lib/test/java/com/google/dart/compiler/resolver/MemberBuilder.java:154-171 | the holder's members and accessors and the errors are FieldsOutcome of building every field in order from the old members, accessors and symbols, and each field node's symbol is the one FieldsOutcome gives it |
| MemberBuilder.OthersUntouched | tests/lib/test/java/com/google/dart/compiler/resolver/MemberBuilder.java:163-169 | building one field touches no other field's nodes |
| MemberBuilder.BuildOneField | tests/lib/test/java/com/google/dart/compiler/resolver/MemberBuilder.java:164-168 | the holder's members and accessors, the errors and the node's new symbol are BuildFieldOutcome's: BuildAbstractField for an abstract field, BuildField with the definition's type for any other; the node ends as FieldBuilt states |
| MemberBuilder.BuildFieldOutcomeShape | tests/lib/test/java/com/google/dart/compiler/resolver/MemberBuilder.java:243-368 | a field that is not abstract appends exactly its symbol, typed by the definition, and keeps the accessors; an abstract field's symbol has the field's name and an accessor record; the only errors are DUPLICATE_MEMBER and EXPECTED_ONE_ARGUMENT |
| MemberBuilder.BuildFieldOutcomeGrows | tests/lib/test/java/com/google/dart/compiler/resolver/MemberBuilder.java:243-368 | the old members are a prefix of the new ones, which have at most one more, and exactly one more for a field that is not abstract |
| MemberBuilder.BuildFieldOutcomeBuilt | tests/lib/test/java/com/google/dart/compiler/resolver/MemberBuilder.java:243-368 | the symbol one field ends with has the definition's type unless abstract, is the field built with FieldModifiers when new, and has the field's name when abstract |
| MemberBuilder.MergeErrorCodes | tests/lib/test/java/com/google/dart/compiler/resolver/MemberBuilder.java:337-367 | merging an accessor reports only DUPLICATE_MEMBER and EXPECTED_ONE_ARGUMENT |
| MemberBuilder.FieldsOutcome | tests/lib/test/java/com/google/dart/compiler/resolver/MemberBuilder.java:154-171 | building the first n fields gives one symbol per field |
| MemberBuilder.FieldsAddMembers | tests/lib/test/java/com/google/dart/compiler/resolver/MemberBuilder.java:154-171 | a definition only appends members: at most one per field and exactly one per field when none is abstract |
| MemberBuilder.FieldsOutcomeBuilt | tests/lib/test/java/com/google/dart/compiler/resolver/MemberBuilder.java:154-171 | the symbol the k-th field ends with is built as BuildFieldOutcomeBuilt states for that field |
| MemberBuilder.SymbolsBuilt | tests/lib/test/java/com/google/dart/compiler/resolver/MemberBuilder.java:154-171 | field nodes holding the symbols of FieldsOutcome, as VisitFieldDefinition leaves them, are each built as FieldBuilt states |
| MemberBuilder.BuildNthField | tests/lib/test/java/com/google/dart/compiler/resolver/MemberBuilder.java:163-169 | one loop step: the state goes from FieldsOutcome of i fields to that of i + 1, and the field's node holds the new last symbol |
| Resolver.ThisError | tests/lib/test/java/com/google/dart/compiler/resolver/Resolver.java:870-883 | no error exactly inside a non-static, non-factory method of a class and outside an initializer; otherwise each of the five errors exactly in its own case, in the order of the tests |
| Resolver.SuperError | tests/lib/test/java/com/google/dart/compiler/resolver/Resolver.java:886-900 | no error exactly inside a non-static, non-factory method of a class; otherwise each of the four errors exactly in its own case |
| Resolver.SuperElementOf | tests/lib/test/java/com/google/dart/compiler/resolver/Resolver.java:896-897 | a super element at the expression, enclosed by the superclass |
| Resolver.LabelElementOf | tests/lib/test/java/com/google/dart/compiler/resolver/Resolver.java:710 | a label element of the label's name at its node |
| Resolver.MapTypeArguments | tests/lib/test/java/com/google/dart/compiler/resolver/Resolver.java:1565-1606 | the key is always an implicit String; the value is the last given argument for one or two, Dynamic otherwise; two arguments report DEPRECATED_MAP_LITERAL_SYNTAX at the first, three or more WRONG_NUMBER_OF_TYPE_ARGUMENTS at the literal |
| Resolver.Initialize | tests/lib/test/java/com/google/dart/compiler/resolver/Resolver.java:1731-1747 | the initialized set gains every initialized field; every error is DUPLICATE_INITIALIZATION, at most one per initialization |
| Resolver.DuplicateReportedIffRepeated | tests/lib/test/java/com/google/dart/compiler/resolver/Resolver.java:1739-1743 | no DUPLICATE_INITIALIZATION error exactly when each field is initialized at most once and not one already initialized |
| Resolver.MissingFinals | tests/lib/test/java/com/google/dart/compiler/resolver/Resolver.java:598-605 | the final fields not initialized, and only those |
| Resolver.CollectFinal | tests/lib/test/java/com/google/dart/compiler/resolver/Resolver.java:630-640 | a final instance field without a value is added to the fields needing initialization; the earlier ones are kept in order |
| Resolver.CollectedFinals | tests/lib/test/java/com/google/dart/compiler/resolver/Resolver.java:630-640 | after the members are visited, a field needs initialization exactly when it is a final instance field of the class without a value |
| Resolver.BodyErrors | tests/lib/test/java/com/google/dart/compiler/resolver/Resolver.java:588-593 | METHOD_MUST_HAVE_BODY exactly for a missing body outside a non-factory constructor, an abstract method and an interface |
| Resolver.FieldErrors | tests/lib/test/java/com/google/dart/compiler/resolver/Resolver.java:630-636 | STATIC_FINAL_REQUIRES_VALUE exactly for a static final field without a value |
| Resolver.InitializeFromParameters | tests/lib/test/java/com/google/dart/compiler/resolver/Resolver.java:578-586 | the loop over the field-initializer parameters computes Initialize over them |
| Resolver.InitializeFromInitializers | tests/lib/test/java/com/google/dart/compiler/resolver/Resolver.java:1731-1747 | the loop over the initializers continues Initialize from the parameters' set and passes on ExplicitSuperCall: the constructor of the last initializer that invokes one |
| Resolver.ExplicitSuperCallIsLast | tests/lib/test/java/com/google/dart/compiler/resolver/Resolver.java:1733-1746 | no constructor is passed on exactly when no initializer invokes one; otherwise the one passed on is that of an initializer invoking one after which none does |
| Resolver.HasDefaultConstructor | tests/lib/test/java/com/google/dart/compiler/resolver/Resolver.java:512-523 | an implicit default constructor, or an unnamed constructor without parameters |
| Resolver.SuperCallOf | tests/lib/test/java/com/google/dart/compiler/resolver/Resolver.java:1636-1642 | the constructor the initializers invoke; without one the superclass's unnamed constructor; nothing without a superclass |
| Resolver.CheckConstructorErrors | tests/lib/test/java/com/google/dart/compiler/resolver/Resolver.java:1633-1664 | at most one error, reported at the constructor's definition |
| Resolver.ImplicitSuperCallFails | tests/lib/test/java/com/google/dart/compiler/resolver/Resolver.java:1644-1656 | CANNOT_RESOLVE_IMPLICIT_CALL_TO_SUPER_CONSTRUCTOR exactly when no initializer invokes a constructor, the class is neither Object nor a direct subclass of it, and its superclass has no unnamed constructor and needs no implicit default one |
| Resolver.ConstSuperCallChecked | tests/lib/test/java/com/google/dart/compiler/resolver/Resolver.java:1657-1663 | CONST_CONSTRUCTOR_MUST_CALL_CONST_SUPER exactly for a const constructor whose called constructor exists and is not const; never together with the implicit-call error |
| Resolver.ReportMissingFinals | tests/lib/test/java/com/google/dart/compiler/resolver/Resolver.java:598-605 | one FINAL_FIELD_MUST_BE_INITIALIZED at the constructor's name per missing final field |
| Resolver.IllegalConstructorErrors | tests/lib/test/java/com/google/dart/compiler/resolver/Resolver.java:294-300 | one ILLEGAL_CONSTRUCTOR_NO_DEFAULT_IN_INTERFACE per interface constructor, at its name, in order |
| Resolver.ReportIllegalConstructors | tests/lib/test/java/com/google/dart/compiler/resolver/Resolver.java:294-300 | the loop reports exactly IllegalConstructorErrors |
| Resolver.CheckDefaultClause | tests/lib/test/java/com/google/dart/compiler/resolver/Resolver.java:270-300 | NO_SUCH_TYPE for an unresolved default clause; with a default class, DEFAULT_MUST_SPECIFY_CLASS for an interface and the correspondence errors of the interface constructors; without one, each interface constructor is illegal |
| Resolver.CheckClassConstructors | tests/lib/test/java/com/google/dart/compiler/resolver/Resolver.java:266-300 | the redirect-cycle errors, then the default-clause errors and pairs |
| Resolver.ResolveElementsVisitor.constructor | tests/lib/test/java/com/google/dart/compiler/resolver/Resolver.java:183-192 | the visitor starts in the given holder and method, not in an initializer, with no label and empty label and final-field sets |
| Resolver.ResolveElementsVisitor.VisitThisExpression | tests/lib/test/java/com/google/dart/compiler/resolver/Resolver.java:870-883 | the ThisError at the expression, or nothing |
| Resolver.ResolveElementsVisitor.VisitSuperExpression | tests/lib/test/java/com/google/dart/compiler/resolver/Resolver.java:886-900 | the SuperError at the expression and no symbol; or the super element of the superclass, recorded on the node |
| Resolver.ResolveElementsVisitor.VisitGotoStatement | tests/lib/test/java/com/google/dart/compiler/resolver/Resolver.java:1321-1348 | nothing without a target; a label found in the innermost function is recorded and referenced; otherwise CANNOT_RESOLVE_LABEL |
| Resolver.ResolveElementsVisitor.BeginLabel | tests/lib/test/java/com/google/dart/compiler/resolver/Resolver.java:709-711 | the current label becomes a label element for the node, which records it, and the previous one is returned |
| Resolver.ResolveElementsVisitor.EndLabel | tests/lib/test/java/com/google/dart/compiler/resolver/Resolver.java:720 | the previous label is restored |
| Resolver.ResolveElementsVisitor.AddLabelToStatement | tests/lib/test/java/com/google/dart/compiler/resolver/Resolver.java:832-840 | a statement directly under a label puts the current label into the scope, where FindLabel then finds it, and into the labels in scopes; otherwise nothing changes |
| Resolver.ResolveElementsVisitor.VisitReturnStatement | tests/lib/test/java/com/google/dart/compiler/resolver/Resolver.java:1490-1502 | INVALID_RETURN_IN_CONSTRUCTOR exactly for a return with a value directly in a non-factory constructor |
| Resolver.ResolveElementsVisitor.VisitMapLiteral | tests/lib/test/java/com/google/dart/compiler/resolver/Resolver.java:1565-1606 | the errors of MapTypeArguments, and the literal's type instantiated with its arguments |
| Resolver.ResolveElementsVisitor.VisitField | tests/lib/test/java/com/google/dart/compiler/resolver/Resolver.java:615-652 | FieldErrors, then the getter's and the setter's definition errors, which see the finals with this field collected (FieldVisitErrors); the finals needing initialization per CollectFinal; a final top-level field is static; the field's type becomes the value's type when it has one; no current method after an accessor was visited |
| Resolver.ResolveElementsVisitor.VisitAccessors | tests/lib/test/java/com/google/dart/compiler/resolver/Resolver.java:643-650 | the getter's and then the setter's definition errors, with the current finals |
| Resolver.ResolveElementsVisitor.VisitMethodDefinition | tests/lib/test/java/com/google/dart/compiler/resolver/Resolver.java:555-612 | the errors of parameters, body, initializers, the super-constructor check and missing finals, for the class being visited; afterwards no current method |
| Resolver.ResolveElementsVisitor.CheckConstructorInitialization | tests/lib/test/java/com/google/dart/compiler/resolver/Resolver.java:595-606 | for a non-factory constructor the initializer errors, then CheckConstructorErrors for the constructor the initializers invoke, then the missing-final errors, the latter only outside interfaces and redirecting constructors |
| Resolver.ResolveElementsVisitor.CheckConstructor | tests/lib/test/java/com/google/dart/compiler/resolver/Resolver.java:1633-1664 | exactly CheckConstructorErrors for the class being visited |
| Resolver.ResolveElementsVisitor.VisitMembers | tests/lib/test/java/com/google/dart/compiler/resolver/Resolver.java:244-247 | the members' errors (fields with their accessors), each seeing the finals collected before it, and the finals needing initialization collected from them |
| Resolver.ResolveElementsVisitor.VisitConstructors | tests/lib/test/java/com/google/dart/compiler/resolver/Resolver.java:249-255 | the constructors' errors in order, each with the super-constructor check for the class being visited |
| Resolver.ResolveElementsVisitor.VisitClass | tests/lib/test/java/com/google/dart/compiler/resolver/Resolver.java:220-305 | members, then constructors, then the constructor checks; the finals are collected from this class alone; the super-constructor checks see this class's superclass; holder and class restored |
| ResolverConstructors.Site | tests/lib/test/java/com/google/dart/compiler/resolver/Resolver.java:1800 | an element with a node is reported at that node |
| ResolverConstructors.SyntheticDefaultConstructor | tests/lib/test/java/com/google/dart/compiler/resolver/Resolver.java:1290 | a synthetic default constructor of the class: no node, no parameters, enclosed by and constructing the class |
| ResolverConstructors.LookupConstructor | tests/lib/test/java/com/google/dart/compiler/resolver/Resolver.java:1195-1207 | a constructor of the class with the name, or none exactly when no constructor has it |
| ResolverConstructors.FirstNamed | tests/lib/test/java/com/google/dart/compiler/resolver/Resolver.java:1195-1207 | the first element of the name, or none exactly when none has it |
| ResolverConstructors.FirstCorresponding | tests/lib/test/java/com/google/dart/compiler/resolver/Resolver.java:1263-1284 | the first default-class constructor that corresponds, or none exactly when none does |
| ResolverConstructors.DefaultClassOf | tests/lib/test/java/com/google/dart/compiler/resolver/Resolver.java:1248-1253 | a default class exactly when the constructor's class has one |
| ResolverConstructors.DefaultClassConstructor | tests/lib/test/java/com/google/dart/compiler/resolver/Resolver.java:1245-1318 | the constructor itself without one or without a default class; else a corresponding constructor of the default class or the synthetic default one; failing both, none and DEFAULT_CONSTRUCTOR_UNRESOLVED |
| ResolverConstructors.ExpectedConstructorName | tests/lib/test/java/com/google/dart/compiler/resolver/Resolver.java:1299-1308 | the expected name is the original raw name when the default class does not implement the interface |
| ResolverConstructors.ExpectedNameCorresponds | tests/lib/test/java/com/google/dart/compiler/resolver/Resolver.java:1263-1308 | the name the error message expects would indeed correspond |
| ResolverConstructors.RawNamesCorrespond | tests/lib/test/java/com/google/dart/compiler/resolver/Resolver.java:1266-1283 | the comparisons of raw names compute Corresponds |
| ResolverConstructors.FindCorresponding | tests/lib/test/java/com/google/dart/compiler/resolver/Resolver.java:1263-1284 | the loop over the default class's constructors finds FirstCorresponding |
| ResolverConstructors.ResolveInterfaceConstructorInDefaultClass | tests/lib/test/java/com/google/dart/compiler/resolver/Resolver.java:1245-1318 | computes DefaultClassConstructor |
| ResolverConstructors.CorrespondenceErrors | tests/lib/test/java/com/google/dart/compiler/resolver/Resolver.java:464-504 | with a constructor found, DEFAULT_CONSTRUCTOR_NUMBER_OF_REQUIRED_PARAMETERS exactly when the required counts differ and DEFAULT_CONSTRUCTOR_NAMED_PARAMETERS exactly when the named parameter names differ; with none, the unresolved error |
| ResolverConstructors.CheckInterfaceConstructor | tests/lib/test/java/com/google/dart/compiler/resolver/Resolver.java:464-504 | one constructor's errors and its default constructor |
| ResolverConstructors.CheckInterfaceConstructors | tests/lib/test/java/com/google/dart/compiler/resolver/Resolver.java:460-506 | every interface constructor's errors in order, and the pairs of each with the default constructor found for it |
| ResolverConstructors.CheckedStep | tests/lib/test/java/com/google/dart/compiler/resolver/Resolver.java:464-505 | one more constructor appends its errors and its pair |
| ResolverConstructors.NewExpressionConstructor | tests/lib/test/java/com/google/dart/compiler/resolver/Resolver.java:1203-1223 | for a class, its unnamed constructor, else the synthetic default one when there are no arguments and the class needs it, else NEW_EXPRESSION_NOT_CONSTRUCTOR; a type variable reports NEW_EXPRESSION_CANT_USE_TYPE_VAR; a constructor is kept; anything else is not a constructor |
| ResolverConstructors.VisitNewExpression | tests/lib/test/java/com/google/dart/compiler/resolver/Resolver.java:1179-1237 | the constructor looked up again in its default class, with the errors of both steps and CONST_AND_NONCONST_CONSTRUCTOR for const on a non-const constructor; recorded on the node when found |
| ResolverConstructors.NextConstructorInvocation | tests/lib/test/java/com/google/dart/compiler/resolver/Resolver.java:1816-1832 | the next constructor is the only initializer's constructor, and only when it is of the same class, compared by identity (element id) |
| ResolverConstructors.Iterate | tests/lib/test/java/com/google/dart/compiler/resolver/Resolver.java:1806-1811 | zero steps from a constructor is the constructor |
| ResolverConstructors.AsWrittenAnswersAgree | tests/lib/test/java/com/google/dart/compiler/resolver/Resolver.java:1805-1814 | whenever the loop as written stops, its answer is whether the chain returns to the starting name |
| ResolverConstructors.CycleAsWritten | tests/lib/test/java/com/google/dart/compiler/resolver/Resolver.java:1805-1814 | the loop as written for at most fuel steps: false at the end of the chain, true at a constructor of the starting name, nothing when the steps run out |
| ResolverConstructors.NoneStays | tests/lib/test/java/com/google/dart/compiler/resolver/Resolver.java:1807 | once the redirect chain ends it stays ended |
| ResolverConstructors.NoneStaysAt | tests/lib/test/java/com/google/dart/compiler/resolver/Resolver.java:1807 | the chain ended at step j is ended at every later step |
| ResolverConstructors.AsWrittenLoopsForever | tests/lib/test/java/com/google/dart/compiler/resolver/Resolver.java:1805-1814 | on a → b → c → b the loop as written never stops, whatever the number of steps |
| ResolverConstructors.Periodic | tests/lib/test/java/com/google/dart/compiler/resolver/Resolver.java:1807-1811 | once the chain repeats a constructor it repeats with that period |
| ResolverConstructors.RepeatSeen | tests/lib/test/java/com/google/dart/compiler/resolver/Resolver.java:1807-1811 | after a repeat every later constructor is one seen before |
| ResolverConstructors.NoReturnAfter | tests/lib/test/java/com/google/dart/compiler/resolver/Resolver.java:1805-1814 | a chain that ends or repeats before meeting the starting name never meets it |
| ResolverConstructors.HasRedirectedConstructorCycle | tests/lib/test/java/com/google/dart/compiler/resolver/Resolver.java:1805-1814 | true exactly when the redirect chain reaches a constructor of the starting name; it always stops |
| ResolverConstructors.CheckRedirectConstructorCycle | tests/lib/test/java/com/google/dart/compiler/resolver/Resolver.java:1795-1803 | one REDIRECTED_CONSTRUCTOR_CYCLE per constructor whose chain returns to its name, in order |
| LibraryDepsVisitor.DependencyOf | tests/lib/test/java/com/google/dart/compiler/LibraryDepsVisitor.java:136-145 | a dependency exactly for an element whose node has a Dart source with a library; it records that library's URI, the unit's name and its time stamp |
| LibraryDepsVisitor.ElementDependency | tests/lib/test/java/com/google/dart/compiler/LibraryDepsVisitor.java:136-145 | appends the element's dependency when it has one, keeps the holes, and fails exactly on an element whose node's source is not a Dart source of a library |
| LibraryDepsVisitor.HoleIfSuper | tests/lib/test/java/com/google/dart/compiler/LibraryDepsVisitor.java:127-131 | adds the name as a hole exactly when the holder is a class other than the current one, compared by identity (element id); a class holder outside any class fails |
| LibraryDepsVisitor.MemberReference | tests/lib/test/java/com/google/dart/compiler/LibraryDepsVisitor.java:47-57 | only a field or method target changes the state |
| LibraryDepsVisitor.TypeReference | tests/lib/test/java/com/google/dart/compiler/LibraryDepsVisitor.java:59-73 | only a target that is neither missing nor dynamic can add its type's class |
| LibraryDepsVisitor.FailureStays | tests/lib/test/java/com/google/dart/compiler/LibraryDepsVisitor.java:26-146 | a traversal that succeeds started from a state that had not failed |
| LibraryDepsVisitor.PrefixSucceeds | tests/lib/test/java/com/google/dart/compiler/LibraryDepsVisitor.java:26-146 | when a sequence of children is visited without failure, so is each prefix |
| LibraryDepsVisitor.DependencySet | tests/lib/test/java/com/google/dart/compiler/LibraryDepsVisitor.java:136-145 | the set of dependencies an element contributes: empty exactly when it has none |
| LibraryDepsVisitor.IdentifierStep | tests/lib/test/java/com/google/dart/compiler/LibraryDepsVisitor.java:43-75 | visiting an identifier adds exactly its holes and its dependencies and keeps the current class |
| LibraryDepsVisitor.VisitContributes | tests/lib/test/java/com/google/dart/compiler/LibraryDepsVisitor.java:26-146 | a successful traversal of a node adds exactly the holes and the dependency set the node specifies, only appends dependencies, and restores the current class |
| LibraryDepsVisitor.VisitAllContributes | tests/lib/test/java/com/google/dart/compiler/LibraryDepsVisitor.java:26-146 | the same for a sequence of children |
| LibraryDepsVisitor.FailureStaysAll | tests/lib/test/java/com/google/dart/compiler/LibraryDepsVisitor.java:26-146 | a successful traversal of children started from a state that had not failed |
| LibraryDepsVisitor.Start | tests/lib/test/java/com/google/dart/compiler/LibraryDepsVisitor.java:30-40 | the visitor starts with the source's holes and dependencies, outside any class |
| LibraryDepsVisitor.LibraryDepsVisitor.State | tests/lib/test/java/com/google/dart/compiler/LibraryDepsVisitor.java:35-36 | the visitor's fields as a state |
| LibraryDepsVisitor.LibraryDepsVisitor.constructor | tests/lib/test/java/com/google/dart/compiler/LibraryDepsVisitor.java:38-40 | the visitor's state is Start of the source |
| LibraryDepsVisitor.LibraryDepsVisitor.Accept | tests/lib/test/java/com/google/dart/compiler/LibraryDepsVisitor.java:26-117 | dispatching on the node's kind, the new state is Visit of the old one |
| LibraryDepsVisitor.LibraryDepsVisitor.VisitChildren | tests/lib/test/java/com/google/dart/compiler/LibraryDepsVisitor.java:94-117 | the children visited left to right: VisitAll of the old state |
| LibraryDepsVisitor.LibraryDepsVisitor.VisitIdentifier | tests/lib/test/java/com/google/dart/compiler/LibraryDepsVisitor.java:43-75 | the member reference and then the type reference of the identifier's target |
| LibraryDepsVisitor.LibraryDepsVisitor.VisitPropertyAccess | tests/lib/test/java/com/google/dart/compiler/LibraryDepsVisitor.java:78-91 | a library-prefixed access visits both parts, any other only the qualifier |
| LibraryDepsVisitor.LibraryDepsVisitor.VisitTypeNode | tests/lib/test/java/com/google/dart/compiler/LibraryDepsVisitor.java:102-117 | an interface type adds its class, then the children are visited |
| LibraryDepsVisitor.LibraryDepsVisitor.VisitClass | tests/lib/test/java/com/google/dart/compiler/LibraryDepsVisitor.java:94-99 | the children are visited with the class as the current one, which is cleared after |
| LibraryDepsVisitor.LibraryDepsVisitor.AddHoleIfSuper | tests/lib/test/java/com/google/dart/compiler/LibraryDepsVisitor.java:127-131 | the holes become those of HoleIfSuper |
| LibraryDepsVisitor.LibraryDepsVisitor.AddElementDependency | tests/lib/test/java/com/google/dart/compiler/LibraryDepsVisitor.java:136-145 | the dependencies become those of ElementDependency |
| LibraryDepsVisitor.Exec | tests/lib/test/java/com/google/dart/compiler/LibraryDepsVisitor.java:30-33 | the source keeps its symbols and flag, gains exactly the unit's holes and dependency set, and keeps its earlier dependencies as a prefix |
| DartCompiler.Lookup | tests/lib/test/java/com/google/dart/compiler/DartCompiler.java:383 | a library exactly for a URI the map holds, and that one |
| DartCompiler.ResolvedImports | tests/lib/test/java/com/google/dart/compiler/DartCompiler.java:398-403 | one import per import path whose source resolves, each a loaded library or null; all of them when every path resolves |
| DartCompiler.ResolvedImportsStep | tests/lib/test/java/com/google/dart/compiler/DartCompiler.java:398-403 | one more import path appends its import exactly when its source resolves |
| DartCompiler.ResolvedPrefixesStep | tests/lib/test/java/com/google/dart/compiler/DartCompiler.java:398-403 | one more import path records its prefix for its import exactly when its source resolves and it carries a prefix |
| DartCompiler.ResolvedPrefixOf | tests/lib/test/java/com/google/dart/compiler/DartCompiler.java:398-403 | an import has a recorded prefix exactly when it had one or a prefixed path adds it; the prefix is that of the last such path, else the earlier one |
| DartCompiler.ImportsLoadedStep | tests/lib/test/java/com/google/dart/compiler/DartCompiler.java:398-403 | the imports loaded so far stay loaded as loading goes on |
| DartCompiler.WithEmbedded | tests/lib/test/java/com/google/dart/compiler/DartCompiler.java:357-367 | the library's own imports are kept as a prefix; every embedded library other than it ends imported; each added one is embedded, not itself, not already imported and added once |
| DartCompiler.WithEmbeddedStep | tests/lib/test/java/com/google/dart/compiler/DartCompiler.java:358-366 | one more embedded library is appended exactly when it is neither the library nor already imported |
| DartCompiler.Compiler.constructor | tests/lib/test/java/com/google/dart/compiler/DartCompiler.java:131-148 | the embedded libraries followed by the core library, no library loaded yet |
| DartCompiler.Compiler.UnloadedShrinks | tests/lib/test/java/com/google/dart/compiler/DartCompiler.java:377-408 | loading a library shrinks the libraries still to load, which makes the recursion terminate |
| DartCompiler.Compiler.LoadedNotUnloaded | tests/lib/test/java/com/google/dart/compiler/DartCompiler.java:395 | a cached library is no longer among those to load |
| DartCompiler.Compiler.UpdateLibraries | tests/lib/test/java/com/google/dart/compiler/DartCompiler.java:377-408 | a cached library is returned unchanged; a library the context cannot find gives null and loads nothing; otherwise it is cached before its imports, which are then loaded and imported in order, each prefixed one recording its prefix (ResolvedPrefixes) |
| DartCompiler.Compiler.Load | tests/lib/test/java/com/google/dart/compiler/DartCompiler.java:388-404 | a library found by the context is cached, its imports loaded and appended, and their prefixes recorded as ResolvedPrefixes states |
| DartCompiler.Compiler.Cache | tests/lib/test/java/com/google/dart/compiler/DartCompiler.java:395 | the library is added under its URI, after all the libraries loaded before |
| DartCompiler.Compiler.ImportAll | tests/lib/test/java/com/google/dart/compiler/DartCompiler.java:398-403 | the library's imports gain exactly the resolved imports of its import paths, in order, its prefixes become ResolvedPrefixes of them, and each resolving one is loaded |
| DartCompiler.Compiler.ImportingStart | tests/lib/test/java/com/google/dart/compiler/DartCompiler.java:398 | the import loop's invariant holds before its first path |
| DartCompiler.Compiler.ImportingEnd | tests/lib/test/java/com/google/dart/compiler/DartCompiler.java:403 | after the last path the imports are the resolved ones |
| DartCompiler.Compiler.ImportOne | tests/lib/test/java/com/google/dart/compiler/DartCompiler.java:399-402 | one import path is loaded and imported, with its prefix, keeping the loop's invariant over imports, prefixes and loaded libraries |
| DartCompiler.Compiler.ImportFound | tests/lib/test/java/com/google/dart/compiler/DartCompiler.java:399-402 | the import is the loaded library for the path (null when none), appended to the imports; the path's prefix, when it has one, is recorded for it |
| DartCompiler.Compiler.ImportEmbeddedLibraries | tests/lib/test/java/com/google/dart/compiler/DartCompiler.java:349-371 | every embedded library found is loaded, and every loaded library is that library or imports it |
| DartCompiler.Compiler.LoadEmbedded | tests/lib/test/java/com/google/dart/compiler/DartCompiler.java:353-355 | every embedded library the context finds is loaded |
| DartCompiler.Compiler.ImportEmbedded | tests/lib/test/java/com/google/dart/compiler/DartCompiler.java:357-368 | every loaded library's imports become WithEmbedded of them; prefixes unchanged |
| DartCompiler.Compiler.DistinctLoaded | tests/lib/test/java/com/google/dart/compiler/DartCompiler.java:124 | distinct URIs in load order hold distinct libraries |
| DartCompiler.Compiler.ImportInto | tests/lib/test/java/com/google/dart/compiler/DartCompiler.java:358-366 | one library's imports become WithEmbedded of them; prefixes unchanged |
| DartCompiler.LookupAll | tests/lib/test/java/com/google/dart/compiler/DartCompiler.java:358-359 | the library for each embedded source, in order |
| DartCompiler.LookupAllHas | tests/lib/test/java/com/google/dart/compiler/DartCompiler.java:358-359 | each embedded source's library is among them |
| DartCompiler.FindLibrary | tests/lib/test/java/com/google/dart/compiler/DartCompiler.java:1146-1164 | a library seen before gives nothing; one with the source path is returned; anything found has the path; when nothing is found, every library first seen here lacks the path and has all its imports seen |
| DartCompiler.ExhaustedTrans | tests/lib/test/java/com/google/dart/compiler/DartCompiler.java:1156-1161 | the searches of consecutive imports compose |
| DartCompiler.ExhaustedAdd | tests/lib/test/java/com/google/dart/compiler/DartCompiler.java:1150-1163 | a library without the path whose imports were all searched is exhausted too |
| DartCompiler.NotFoundMeansUnreachable | tests/lib/test/java/com/google/dart/compiler/DartCompiler.java:1146-1164 | when the search finds nothing, no library reachable by imports has the source path |
| DartCompiler.GetCoreLib | tests/lib/test/java/com/google/dart/compiler/DartCompiler.java:1166-1168 | the library holding corelib.dart reachable from the given one; the library itself when it has it; nothing only when no reachable library has it |
| Strings.Decimal | tests/lib/test/java/com/google/dart/compiler/DartCompiler.java:1053 | the decimal digits of a natural number: nonempty, digits only, no leading zero |
| Strings.DecimalRoundTrip | tests/lib/test/java/com/google/dart/compiler/DartCompiler.java:1053 | reading the digits back gives the number |
| CompileRules.SourceOutOfDate | tests/lib/test/java/com/google/dart/compiler/DartCompiler.java:432-457 | every source is out of date without incremental compilation; with it, exactly when its time stamp says so |
| CompileRules.FullParse | tests/lib/test/java/com/google/dart/compiler/DartCompiler.java:241-243 | a unit is parsed in full exactly when compilation is not incremental or its source is out of date (precompiled system libraries are always used, line 148) |
| CompileRules.UnitPathsMembers | tests/lib/test/java/com/google/dart/compiler/DartCompiler.java:226-231 | the new unit paths are exactly the #source paths of the library |
| CompileRules.UnitDiffMembers | tests/lib/test/java/com/google/dart/compiler/DartCompiler.java:264-275 | a symbol enters the diff from a unit exactly when the unit was parsed in full and the symbol is in the symmetric difference of its old and new top-level symbols, or in its new ones when it had no record |
| CompileRules.UnitsDiffMembers | tests/lib/test/java/com/google/dart/compiler/DartCompiler.java:229-286 | a library's units contribute the union of each unit's contribution |
| CompileRules.LibraryDiffMembers | tests/lib/test/java/com/google/dart/compiler/DartCompiler.java:219-299 | a library contributes exactly the symbols of its freshly parsed units and the old top-level symbols of its disappeared units |
| CompileRules.SymbolsDiffMembers | tests/lib/test/java/com/google/dart/compiler/DartCompiler.java:218-300 | the diff holds exactly the symbols some library contributes |
| CompileRules.NothingParsedNoDiff | tests/lib/test/java/com/google/dart/compiler/DartCompiler.java:218-300 | when no unit was parsed in full and no unit disappeared, the diff is empty and no second sweep happens |
| CompileRules.TopLevelSymbolsDiff | tests/lib/test/java/com/google/dart/compiler/DartCompiler.java:218-300 | the loop over the libraries computes SymbolsDiff |
| CompileRules.AddLibraryDiff | tests/lib/test/java/com/google/dart/compiler/DartCompiler.java:220-299 | one library adds LibraryDiff |
| CompileRules.AddUnitsDiff | tests/lib/test/java/com/google/dart/compiler/DartCompiler.java:226-286 | the new unit paths, and the units' diff added |
| CompileRules.AddDisappeared | tests/lib/test/java/com/google/dart/compiler/DartCompiler.java:289-299 | the old top-level symbols of each disappeared unit with a record are added |
| CompileRules.DisappearedNone | tests/lib/test/java/com/google/dart/compiler/DartCompiler.java:290-291 | no old unit path missing means nothing disappeared |
| CompileRules.DisappearedStep | tests/lib/test/java/com/google/dart/compiler/DartCompiler.java:291-297 | removing one recorded path from the new ones adds exactly its old top-level symbols |
| CompileRules.ShouldReparseRule | tests/lib/test/java/com/google/dart/compiler/DartCompiler.java:317-319 | a unit with a record is parsed again exactly when it must recompile on any top-level change or a diff symbol is among its symbols or its holes |
| CompileRules.SweepLibraryMembers | tests/lib/test/java/com/google/dart/compiler/DartCompiler.java:309-333 | a unit of the library is parsed again exactly when it is selected by its record and the diff |
| CompileRules.SweepFromMembers | tests/lib/test/java/com/google/dart/compiler/DartCompiler.java:305-333 | across the libraries, exactly the selected units of each |
| CompileRules.SweepMembers | tests/lib/test/java/com/google/dart/compiler/DartCompiler.java:303-334 | nothing with an empty diff; otherwise exactly the selected units of each library |
| CompileRules.SecondSweep | tests/lib/test/java/com/google/dart/compiler/DartCompiler.java:303-334 | the loops compute Sweep |
| CompileRules.FailureCount | tests/lib/test/java/com/google/dart/compiler/DartCompiler.java:1044-1051 | the errors plus the type errors and warnings that are fatal: zero exactly when each counted kind is zero, the error count when neither is fatal |
| CompileRules.FailureMessage | tests/lib/test/java/com/google/dart/compiler/DartCompiler.java:1052-1055 | a message exactly for a positive count, starting "Compilation failed with " and ending " problem." exactly for one |
| CompileRules.FailureMessageRoundTrip | tests/lib/test/java/com/google/dart/compiler/DartCompiler.java:1052-1055 | the count can be read back from the message |
| OutOfDate.IsUnitOutOfDate | tests/lib/test/java/com/google/dart/compiler/DartCompiler.java:538-561 | true exactly when the unit has no record or one of its recorded dependencies names a library or unit that is gone or a unit whose time stamp changed |
| OutOfDate.StaleUnitsMembers | tests/lib/test/java/com/google/dart/compiler/DartCompiler.java:488-533 | a unit of a library is collected exactly when it is a diet unit whose record says it is out of date |
| OutOfDate.StaleInMembers | tests/lib/test/java/com/google/dart/compiler/DartCompiler.java:488-533 | a unit is parsed again exactly when it is a diet unit of a library other than a dart: one and out of date |
| OutOfDate.AddOutOfDateDeps | tests/lib/test/java/com/google/dart/compiler/DartCompiler.java:488-533 | the stale diet units in load order, and whether any was found |
| OutOfDate.OutOfDateUnits | tests/lib/test/java/com/google/dart/compiler/DartCompiler.java:505-530 | the loop over one library's units computes StaleUnits |
| OutOfDate.SnapshotIs | tests/lib/test/java/com/google/dart/compiler/DartCompiler.java:488-533 | the loop's snapshot is the loaded libraries' units and records |
| OutOfDate.StaleInStep | tests/lib/test/java/com/google/dart/compiler/DartCompiler.java:495-531 | one more library appends its stale units, or nothing for a dart: library |

## Left out

- File and stream I/O: parsing sources, reading and writing artifacts and dependency records, the compile log. A source's presence, its time stamp verdict and the parser's top-level names are inputs (`CompileRules.UnitScan`).
- The command line, `System.exit`, the batch runner, tracing, metrics and AST dump writers: they decide nothing the resolver depends on.
- `ResolutionContext` (type and class resolution, `extend`, `declare`), `CoreTypeProvider` and `Types`: their results are parameters.
- `getAllSupertypes` and its cycle exceptions: `Elements.ImplementsType` takes the supertype enumeration's outcome as a parameter.
- `String.hashCode`: `ElementMap` uses an arbitrary hash function supplied as a constant; the proofs hold for every hash.
- `DartIdentifier.isPrivateName` is not part of this model; a private name is one that starts with '_', the Dart rule.
- Elements.GetLibraryElement: an element that is its own enclosing element cannot be built from values, so the loop's exit through that case is not modelled.
- The `add*`/`set*` mutators of `Elements` are not modelled separately; elements are values and the passes return or store the updated value.
- Resolver.ResolveElementsVisitor.VisitClass: the supertype-cycle and duplicated-interface errors, the type-variable checks, the const-field verification, the implicit default super-invocation check and the default clause's type-parameter checks are left out, because they rely on `getAllSupertypes`, `Types` and the pretty-printer, which are not part of this model.
- Resolver.ResolveElementsVisitor.VisitMethodDefinition: the parameter declaration errors (DUPLICATE_PARAMETER) and `checkParameterInitializer`'s errors are left out, because they come from `ResolutionContext.declare` and class member lookups that are not part of this model; each field-initializer parameter's field is given.
- Resolver.ResolveElementsVisitor.VisitField: `makeStatic` at Resolver.java:623 is taken to make a final top-level field static; the `Modifiers` class is not part of this model, so whether that call, whose result is ignored there, changes anything cannot be decided.
- Resolution of expressions and statements other than `this`, `super`, `new`, `goto`, `return`, labels and map literals is left out; it is `ResolutionContext`'s work.
- `ResolveVisitor.visitParameter` and `resolveFunctionAlias` are not modelled; `ResolveVisitor.ResolveFunction` takes the parameter elements as built.
- MemberBuilder: `resolveConstructorName` is an input (`resolvedName`), since it resolves through `ResolutionContext`; the class-context bookkeeping of `visitClass` and `visitFunctionTypeAlias` is left out. `ConstructorNameResolves`, which `BuildConstructor`, `AddNewConstructor`, `AddNewMethod` and `VisitMethodDefinition` require, assumes that this input is null, a constructor, a class or Dynamic, so the `(ClassElement) e` cast at MemberBuilder.java:239-240 never fails; a name resolving to any other kind of element, for which that cast throws `ClassCastException`, is not modelled.
- The unused label warnings of `visitLabel` are commented out in the source, so they are not modelled.
- OutOfDate.AddOutOfDateDeps: returns the units to parse again instead of parsing them and replacing them with `putUnit`; staleness is decided on the libraries' units as they are when the sweep starts.
- OutOfDate.AddOutOfDateDeps: requires every library's dependency record to be memoised already, as the first sweep's `getDeps` leaves it; a first call's artifact read is not part of this model.
- CompileRules.SecondSweep: returns the units to parse again; the parse and the replacement of the units are left out, as above.
- DartCompiler.FindLibrary: weaker than the source on order; it states that a library found has the source path and that nothing found means no reachable library has it, not that the result is the first one in depth-first order.
- Resolver.ResolveElementsVisitor.VisitSuperExpression: requires that a class reaching the `super` branch has a supertype. The one class without a supertype is Object (SupertypeResolver.java:63-68); for `super` in an instance method of Object the source dereferences the missing supertype at Resolver.java:896-897 and throws `NullPointerException`, and that failure is not modelled.
- DartCompiler.FindLibrary: a null import, which `addImport(updateLibraries(dep), ...)` can store when a library is not found, raises `NullPointerException` in the source; the model returns `NullImport`.
- `SystemLibraryManager`, `isDartUri` and `getImportSource` are parameters of the compiler.
- `compileLib`'s remaining steps (the compile itself and the unchanged-files early return) are left out; only the failure count and message are modelled.
- ResolverConstructors.CycleAsWritten: `hasRedirectedConstructorCycle` as written can fail to stop, so it is modelled with a step bound (`fuel`) that returns nothing when the steps run out; the corrected method carries a visited set.
- ElementMap: the holder chain of `ElementHolder` objects is a sequence inside the slot, since no code outside the map sees the holders.
- `ConcurrentSkipListMap` carries no real concurrency here; it is modelled as a sorted sequence.
- MemberBuilder.Holder.AddMember: checks names with the corrected `UniqueNameErrors` of the first "## Findings" row, not with `checkUniqueName` as written (`UniqueNameErrorsAsWritten`), so two same-name operator methods are reported DUPLICATE_MEMBER twice where the code as written reports nothing; the fields built by `BuildField`, `BuildAbstractField` and `BuildFieldOutcome` inherit this.
- MemberBuilder.Holder.AddConstructor: uses the corrected `UniqueNameErrors` as well; for two constructors the two versions agree (`UniqueNameVersionsAgree`), since a constructor is not an operator method.
- MemberBuilder.AddNewMethod: appends through `Holder.AddMember`, so a repeated operator method is reported as the corrected rule says, not passed as the code as written does.
- MemberBuilder.VisitMethodDefinition: the same difference, through `AddNewMethod`.
- MemberBuilder.VisitMethodDefinition: does not call `resolveFunction` (MemberBuilder.java:144-148), nor the context extension around it. Elements are values here, so the holder's member list would keep a copy of the element rather than share the one object that the source types after adding it. So a built element carries its node's parameter elements from the start (`MethodFromNode`, `ConstructorFromNode`), its `elemType` stays none, and the return-type node is not typed. `ResolveVisitor.ResolveFunction` models that step on its own.
- MemberBuilder.BuildAbstractField: likewise does not call `resolveFunction` on the accessor (MemberBuilder.java:316). The accessor element carries its node's parameters but no function type, and a getter gives the field the accessor node's declared return type (`MethodNode.returnType`) rather than the return type of that function type.
- MemberBuilder.GetMethodKind: requires that a non-factory member of a class is not named by a bare parameterized type. For that name the source's cast to `DartPropertyAccess` at MemberBuilder.java:404 throws `ClassCastException`, which is not modelled. A factory, or a method outside a class, may have such a name (MemberBuilder.java:388-394). `ConstructorBuildErrors`, `AddNewConstructor`, `AddNewMethod` and `VisitMethodDefinition` carry the same requires.
- TopLevelElementBuilder.FillInLibraryScope: requires that no import is null. `updateLibraries` stores a null import for a library the context cannot find, and the source then throws `NullPointerException` at TopLevelElementBuilder.java:66-72; that failure is not modelled.
- Strings.Less: a Dafny string is a sequence of Unicode scalar values, not of UTF-16 code units as a Java string is, so for text outside the Basic Multilingual Plane the order can differ from `String.compareTo`.
- Strings.IndexOf: for the same reason its indices count scalar values, not UTF-16 code units; Strings.LastIndexOf likewise.
- ElementMap.ElementMap.Values: returns the associated elements as a value at the time of the call; the source returns its live list, which later `add` and `clear` calls change, and that aliasing is not modelled.
- The error listener is modelled by returning the diagnostics in the order they are reported; message arguments and source locations beyond the node id are left out. A declaration's name node is identified with the declaration: an error the source reports at `getName()` (the modifier errors at MemberBuilder.java:435-458, ILLEGAL_CONSTRUCTOR_NO_DEFAULT_IN_INTERFACE at Resolver.java:297) and one it reports at the declaration itself (CONSTRUCTOR_CANNOT_HAVE_RETURN_TYPE at MemberBuilder.java:468) both carry the declaration's id.

## Findings

| source | as written | input that shows it | evidently intended | confidence | as-written member | corrected member |
|---|---|---|---|---|---|---|
| tests/lib/test/java/com/google/dart/compiler/resolver/MemberBuilder.java:498-502 | after the test that both or neither are operators, the operator/method exemption admits any two operators when one of them is a method, so two same-name operator methods are never reported | two `operator +` method declarations in one class | only separate namespaces pass; a repeated operator is reported DUPLICATE_MEMBER at both declarations | medium, not executed | MemberBuilder.SameNameOperatorsPass | MemberBuilder.UniqueNameErrors |
| tests/lib/test/java/com/google/dart/compiler/resolver/Resolver.java:1805-1814 | the loop stops only at the end of the redirect chain or at a constructor of the starting name, with no visited set | constructors a → b → c → b of one class: checking a never stops | the loop stops on a repeated constructor and answers whether the chain reaches the starting name | high, not executed | ResolverConstructors.AsWrittenLoopsForever | ResolverConstructors.HasRedirectedConstructorCycle |
