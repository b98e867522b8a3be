/**
 * `SupertypeResolver`: for each class of a unit, sets the supertype (Object by default),
 * the default class, the interfaces and the bounds of the type parameters, and reports
 * deny-listed built-in types in `extends` and `implements` clauses.
 */
module SupertypeResolver {
  import opened Wrappers
  import opened ElementModel
  import Strings
  import Elements

  /** The built-in types user classes may not extend or implement. */
  const BlackListedTypes: set<string> := {"Dynamic", "Function", "bool", "num", "int", "double", "String"}

  /** `isCoreLibrarySource`: the source is a unit of the core library or its implementation. */
  function IsCoreLibrarySource(source: Source): (r: bool)
    ensures r ==> source.DartSource? && source.library.Some?
    ensures r <==>
      source.DartSource? && source.library.Some? && Strings.StartsWith(source.library.value.name, "dart://") &&
      (Strings.EndsWith(source.library.value.name, "/" + "corelib.dart") ||
       Strings.EndsWith(source.library.value.name, "/" + "corelib_impl.dart"))
  {
    Elements.IsLibrarySource(source, "corelib.dart") || Elements.IsLibrarySource(source, "corelib_impl.dart")
  }

  /**
   * `Elements.isTypeNode(node, names)`: a non-null type node whose identifier name is in
   * `names`; the node's `name` stands for that identifier name.
   */
  predicate IsTypeNode(node: AstNode?, names: set<string>)
  {
    node != null && node.name in names
  }

  /** The part of a class element this pass fills in. */
  class ClassState {
    const element: Element
    const classType: Type
    var supertype: Option<Type>
    var interfaces: seq<Type>
    var defaultClass: Option<Type>

    constructor (element: Element, classType: Type)
      ensures this.element == element && this.classType == classType
      ensures supertype.None? && interfaces == [] && defaultClass.None?
    {
      this.element := element;
      this.classType := classType;
      supertype := None;
      interfaces := [];
      defaultClass := None;
    }
  }

  /** A type variable, the bound node of its declaration (null when none) and its bound. */
  class TypeVariableState {
    const element: Element
    const boundNode: AstNode?
    var bound: Option<Type>

    constructor (element: Element, boundNode: AstNode?)
      ensures this.element == element && this.boundNode == boundNode && bound.None?
    {
      this.element := element;
      this.boundNode := boundNode;
      bound := None;
    }
  }

  /** A class declaration as the pass sees it. */
  datatype ClassNode = ClassNode(
    symbol: ClassState,
    superclass: AstNode?,
    defaultClass: AstNode?,
    interfaces: Option<seq<AstNode>>,
    source: Source,
    typeParameters: seq<TypeVariableState>)

  /**
   * What the resolution context answers, for the class being resolved: the core types and
   * the results of resolving type nodes and names (`ResolutionContext` is not part of this model).
   */
  datatype Resolution = Resolution(
    objectType: Type,
    functionType: Type,
    resolveClass: AstNode -> Type,
    resolveName: AstNode -> Option<Element>,
    resolveInterface: AstNode -> Type,
    resolveType: AstNode -> Type)

  /** The bound of a type variable: its resolved bound node, or Object. */
  function BoundOf(v: TypeVariableState, res: Resolution): (t: Type) {
    if v.boundNode != null then res.resolveType(v.boundNode) else res.objectType
  }

  /** The supertype `visitClass` sets, or `None` when it sets none (Object itself). */
  function SupertypeOf(node: ClassNode, res: Resolution): (t: Option<Type>) {
    if node.superclass == null then
      if res.objectType == node.symbol.classType then None else Some(res.objectType)
    else Some(res.resolveClass(node.superclass))
  }

  /** An implicit supertype is Object, and only Object has none. */
  lemma DefaultSupertype(node: ClassNode, res: Resolution)
    requires node.superclass == null
    ensures SupertypeOf(node, res).None? <==> node.symbol.classType == res.objectType
    ensures SupertypeOf(node, res).Some? ==> SupertypeOf(node, res).value == res.objectType
  {
  }

  /** The `implements` errors: one per deny-listed interface, outside the core library. */
  function ImplementsErrors(interfaces: seq<AstNode>, core: bool): (r: seq<Diagnostic>)
    ensures core ==> r == []
    ensures |r| <= |interfaces|
    ensures forall d :: d in r ==> d.code == BlackListedImplements
    decreases |interfaces|
  {
    if |interfaces| == 0 then []
    else
      var init := ImplementsErrors(interfaces[..|interfaces| - 1], core);
      var last := interfaces[|interfaces| - 1];
      if IsTypeNode(last, BlackListedTypes) && !core then init + [Diagnostic(BlackListedImplements, last.id)]
      else init
  }

  /** A deny-listed interface is reported outside the core library. */
  lemma {:induction false} BlackListedInterfaceReported(interfaces: seq<AstNode>, core: bool, i: nat)
    requires i < |interfaces| && !core && IsTypeNode(interfaces[i], BlackListedTypes)
    ensures Diagnostic(BlackListedImplements, interfaces[i].id) in ImplementsErrors(interfaces, core)
    decreases |interfaces|
  {
    if i < |interfaces| - 1 {
      assert interfaces[..|interfaces| - 1][i] == interfaces[i];
      BlackListedInterfaceReported(interfaces[..|interfaces| - 1], core, i);
    }
  }

  function Resolved(nodes: seq<AstNode>, resolve: AstNode -> Type): (ts: seq<Type>)
    ensures |ts| == |nodes| && forall i :: 0 <= i < |nodes| ==> ts[i] == resolve(nodes[i])
  {
    seq(|nodes|, i requires 0 <= i < |nodes| => resolve(nodes[i]))
  }

  function TypeVariableSet(vs: seq<TypeVariableState>): set<object> {
    set i | 0 <= i < |vs| :: vs[i]
  }

  function BoundNodeSet(vs: seq<TypeVariableState>): set<object> {
    set i | 0 <= i < |vs| && vs[i].boundNode != null :: vs[i].boundNode as object
  }

  /**
   * `setBoundsOnTypeParameters`: each type variable's bound is its resolved bound node, whose
   * type is set to it, or Object when no bound is declared.
   */
  method SetBoundsOnTypeParameters(vs: seq<TypeVariableState>, res: Resolution)
    modifies TypeVariableSet(vs), BoundNodeSet(vs)
    ensures forall i :: 0 <= i < |vs| ==> vs[i].bound == Some(BoundOf(vs[i], res))
    ensures forall i :: 0 <= i < |vs| && vs[i].boundNode != null ==> vs[i].boundNode.nodeType == Some(BoundOf(vs[i], res))
    ensures forall i :: 0 <= i < |vs| && vs[i].boundNode != null ==> vs[i].boundNode.symbol == old(vs[i].boundNode.symbol)
  {
    for i := 0 to |vs|
      invariant forall k :: 0 <= k < i ==> vs[k].bound == Some(BoundOf(vs[k], res))
      invariant forall k :: 0 <= k < i && vs[k].boundNode != null ==> vs[k].boundNode.nodeType == Some(BoundOf(vs[k], res))
      invariant forall k :: 0 <= k < |vs| && vs[k].boundNode != null ==> vs[k].boundNode.symbol == old(vs[k].boundNode.symbol)
    {
      var variable := vs[i];
      var boundNode := variable.boundNode;
      var bound: Type;
      if boundNode != null {
        bound := res.resolveType(boundNode);
        boundNode.nodeType := Some(bound);
      } else {
        bound := res.objectType;
      }
      variable.bound := Some(bound);
    }
  }

  /** The `implements` loop of `visitClass`: appends each resolved interface, reporting deny-listed ones. */
  method AddInterfaces(classElement: ClassState, ints: seq<AstNode>, res: Resolution, core: bool)
    returns (errors: seq<Diagnostic>)
    modifies classElement`interfaces
    ensures classElement.interfaces == old(classElement.interfaces) + Resolved(ints, res.resolveInterface)
    ensures errors == ImplementsErrors(ints, core)
  {
    errors := [];
    for i := 0 to |ints|
      invariant classElement.interfaces == old(classElement.interfaces) + Resolved(ints[..i], res.resolveInterface)
      invariant errors == ImplementsErrors(ints[..i], core)
    {
      var intElement := res.resolveInterface(ints[i]);
      classElement.interfaces := classElement.interfaces + [intElement];
      assert ints[..i + 1][..i] == ints[..i];
      if IsTypeNode(ints[i], BlackListedTypes) && !core {
        errors := errors + [Diagnostic(BlackListedImplements, ints[i].id)];
      }
    }
    assert ints[..|ints|] == ints;
  }

  /**
   * `ClassElementResolver.visitClass`: sets the supertype (Object by default, none for Object
   * itself), records a default class only when its name resolves to a class, appends every
   * declared interface, and sets the type parameters' bounds. Deny-listed built-in types
   * are reported outside the core library, but are still used.
   */
  method VisitClass(node: ClassNode, res: Resolution) returns (errors: seq<Diagnostic>)
    requires node.defaultClass != null ==> node.defaultClass !in BoundNodeSet(node.typeParameters)
    modifies node.symbol, (if node.defaultClass != null then {node.defaultClass} else {})`nodeType,
      TypeVariableSet(node.typeParameters), BoundNodeSet(node.typeParameters)
    ensures SupertypeOf(node, res).Some? ==> node.symbol.supertype == SupertypeOf(node, res)
    ensures SupertypeOf(node, res).None? ==> node.symbol.supertype == old(node.symbol.supertype)
    ensures var found := if node.defaultClass != null then res.resolveName(node.defaultClass) else None;
      if KindOf(found) == Class then
        node.symbol.defaultClass == found.value.elemType && node.defaultClass.nodeType == found.value.elemType
      else
        node.symbol.defaultClass == old(node.symbol.defaultClass)
        && (node.defaultClass != null ==> node.defaultClass.nodeType == old(node.defaultClass.nodeType))
    ensures node.symbol.interfaces == old(node.symbol.interfaces)
      + if node.interfaces.Some? then Resolved(node.interfaces.value, res.resolveInterface) else []
    ensures node.defaultClass != null ==> node.defaultClass.symbol == old(node.defaultClass.symbol)
    ensures forall i :: 0 <= i < |node.typeParameters| ==> node.typeParameters[i].bound == Some(BoundOf(node.typeParameters[i], res))
    ensures forall i :: 0 <= i < |node.typeParameters| && node.typeParameters[i].boundNode != null ==>
      node.typeParameters[i].boundNode.nodeType == Some(BoundOf(node.typeParameters[i], res))
    ensures forall i :: 0 <= i < |node.typeParameters| && node.typeParameters[i].boundNode != null ==>
      node.typeParameters[i].boundNode.symbol == old(node.typeParameters[i].boundNode.symbol)
    ensures errors ==
      (if SupertypeOf(node, res).Some? && IsTypeNode(node.superclass, BlackListedTypes) && !IsCoreLibrarySource(node.source)
       then [Diagnostic(BlackListedExtends, node.superclass.id)] else [])
      + (if node.interfaces.Some? then ImplementsErrors(node.interfaces.value, IsCoreLibrarySource(node.source)) else [])
  {
    var classElement := node.symbol;
    var core := IsCoreLibrarySource(node.source);
    errors := ResolveSupertype(node, res);
    ResolveDefaultClass(node, res);
    if node.interfaces.Some? {
      var interfaceErrors := AddInterfaces(classElement, node.interfaces.value, res, core);
      errors := errors + interfaceErrors;
    }
    assert classElement !in TypeVariableSet(node.typeParameters);
    assert classElement !in BoundNodeSet(node.typeParameters);
    SetBoundsOnTypeParameters(node.typeParameters, res);
  }

  /** The supertype part of `visitClass`: Object by default, none for Object itself, a deny-listed one reported. */
  method ResolveSupertype(node: ClassNode, res: Resolution) returns (errors: seq<Diagnostic>)
    modifies node.symbol`supertype
    ensures SupertypeOf(node, res).Some? ==> node.symbol.supertype == SupertypeOf(node, res)
    ensures SupertypeOf(node, res).None? ==> node.symbol.supertype == old(node.symbol.supertype)
    ensures errors ==
      if SupertypeOf(node, res).Some? && IsTypeNode(node.superclass, BlackListedTypes) && !IsCoreLibrarySource(node.source)
      then [Diagnostic(BlackListedExtends, node.superclass.id)] else []
  {
    var classElement := node.symbol;
    errors := [];
    var supertype: Option<Type>;
    if node.superclass == null {
      supertype := Some(res.objectType);
      if supertype.value == classElement.classType {
        supertype := None;
      }
    } else {
      supertype := Some(res.resolveClass(node.superclass));
    }
    if supertype.Some? {
      if IsTypeNode(node.superclass, BlackListedTypes) && !IsCoreLibrarySource(node.source) {
        errors := errors + [Diagnostic(BlackListedExtends, node.superclass.id)];
      }
      classElement.supertype := supertype;
    }
  }

  /** The default-class part of `visitClass`: recorded on the class and its node only when it names a class. */
  method ResolveDefaultClass(node: ClassNode, res: Resolution)
    modifies node.symbol`defaultClass, (if node.defaultClass != null then {node.defaultClass} else {})`nodeType
    ensures var found := if node.defaultClass != null then res.resolveName(node.defaultClass) else None;
      if KindOf(found) == Class then
        node.symbol.defaultClass == found.value.elemType && node.defaultClass.nodeType == found.value.elemType
      else
        node.symbol.defaultClass == old(node.symbol.defaultClass)
        && (node.defaultClass != null ==> node.defaultClass.nodeType == old(node.defaultClass.nodeType))
  {
    if node.defaultClass != null {
      var defaultClassElement := res.resolveName(node.defaultClass);
      if KindOf(defaultClassElement) == Class {
        node.symbol.defaultClass := defaultClassElement.value.elemType;
        node.defaultClass.nodeType := defaultClassElement.value.elemType;
      }
    }
  }

  /** `visitFunctionTypeAlias`: the alias implements Function, and its type parameters get bounds. */
  method VisitFunctionTypeAlias(symbol: ClassState, typeParameters: seq<TypeVariableState>, res: Resolution)
    modifies symbol, TypeVariableSet(typeParameters), BoundNodeSet(typeParameters)
    ensures symbol.interfaces == old(symbol.interfaces) + [res.functionType]
    ensures symbol.supertype == old(symbol.supertype) && symbol.defaultClass == old(symbol.defaultClass)
    ensures forall i :: 0 <= i < |typeParameters| ==> typeParameters[i].bound == Some(BoundOf(typeParameters[i], res))
    ensures forall i :: 0 <= i < |typeParameters| && typeParameters[i].boundNode != null ==>
      typeParameters[i].boundNode.nodeType == Some(BoundOf(typeParameters[i], res))
    ensures forall i :: 0 <= i < |typeParameters| && typeParameters[i].boundNode != null ==>
      typeParameters[i].boundNode.symbol == old(typeParameters[i].boundNode.symbol)
  {
    symbol.interfaces := symbol.interfaces + [res.functionType];
    SetBoundsOnTypeParameters(typeParameters, res);
  }
}
