/** The static helper predicates and queries of the resolver's `Elements` class. */
module Elements {
  import opened Wrappers
  import opened ElementModel
  import Strings

  /** The chain of enclosing elements of `e`, `e` first. */
  function EnclosingChain(e: Element): (c: seq<Element>)
    ensures |c| > 0 && c[0] == e
    ensures forall i :: 0 < i < |c| ==> c[i - 1].enclosing == Some(c[i])
    ensures c[|c| - 1].enclosing.None?
    decreases e
  {
    match e.enclosing
    case None => [e]
    case Some(p) => [e] + EnclosingChain(p)
  }

  /**
   * `getLibraryElement`: the innermost element of the enclosing chain (the element
   * itself included) whose kind is LIBRARY, or null when there is none.
   */
  method GetLibraryElement(element: Element) returns (r: Option<Element>)
    ensures r.Some? <==> exists i :: 0 <= i < |EnclosingChain(element)| && EnclosingChain(element)[i].kind == Library
    ensures r.Some? ==> exists i :: (0 <= i < |EnclosingChain(element)| && EnclosingChain(element)[i] == r.value
      && r.value.kind == Library && forall j :: 0 <= j < i ==> EnclosingChain(element)[j].kind != Library)
  {
    ghost var chain := EnclosingChain(element);
    var cur := Some(element);
    ghost var k := 0;
    while cur.Some? && cur.value.kind != Library
      invariant 0 <= k <= |chain|
      invariant cur.Some? <==> k < |chain|
      invariant cur.Some? ==> cur.value == chain[k] && EnclosingChain(cur.value) == chain[k..]
      invariant forall j :: 0 <= j < k ==> chain[j].kind != Library
      decreases |chain| - k
    {
      cur := cur.value.enclosing;
      k := k + 1;
    }
    r := cur;
  }

  predicate IsNonFactoryConstructor(method_: Element) {
    !method_.mods.isFactory && method_.kind == Constructor
  }

  /** `isTopLevel`: the enclosing element is a library. */
  predicate IsTopLevel(e: Element) {
    KindOf(e.enclosing) == Library
  }

  /**
   * `needsImplicitDefaultConstructor`: no declared constructor, and either a class
   * or an interface that has a default class.
   */
  predicate NeedsImplicitDefaultConstructor(c: ClassInfo) {
    |c.constructors| == 0 && (!c.isInterface || c.defaultClass.Some?)
  }

  /**
   * `implementsType`: some supertype of `c` names `iface`. A supertype enumeration
   * that throws (`allSupertypes == None`) yields false instead of propagating.
   */
  predicate Implements(c: ClassInfo, iface: Element) {
    c.allSupertypes.Some? && exists i :: 0 <= i < |c.allSupertypes.value| && c.allSupertypes.value[i].element == Some(iface)
  }

  method ImplementsType(c: ClassInfo, iface: Element) returns (r: bool)
    ensures r <==> Implements(c, iface)
    ensures c.allSupertypes.None? ==> !r
  {
    if c.allSupertypes.None? {
      return false;
    }
    var supertypes := c.allSupertypes.value;
    var i := 0;
    while i < |supertypes|
      invariant 0 <= i <= |supertypes|
      invariant forall j :: 0 <= j < i ==> supertypes[j].element != Some(iface)
    {
      if supertypes[i].element == Some(iface) {
        return true;
      }
      i := i + 1;
    }
    return false;
  }

  /** `getRawName`: the source spelling of a method name, `q.x` for a property access. */
  function RawName(n: NameExpr): string
  {
    match n
    case Ident(name) => name
    case Parameterized(expr) => RawName(expr)
    case PropertyAccess(q, name) => RawName(q) + "." + name
  }

  /** A name expression none of whose identifiers contains a dot. */
  predicate DotFreeIdents(n: NameExpr) {
    match n
    case Ident(name) => '.' !in name
    case Parameterized(expr) => DotFreeIdents(expr)
    case PropertyAccess(q, name) => DotFreeIdents(q) && '.' !in name
  }

  /** A qualified name `q.x` (seen through type arguments). */
  predicate IsQualified(n: NameExpr) {
    match n
    case Ident(_) => false
    case Parameterized(expr) => IsQualified(expr)
    case PropertyAccess(_, _) => true
  }

  /** With dot-free identifiers, a raw name contains a dot exactly when the name is qualified. */
  lemma {:induction false} RawNameDot(n: NameExpr)
    requires DotFreeIdents(n)
    ensures '.' in RawName(n) <==> IsQualified(n)
  {
    match n
    case Ident(_) =>
    case Parameterized(expr) => RawNameDot(expr);
    case PropertyAccess(q, name) =>
      assert RawName(n)[|RawName(q)|] == '.';
  }

  /**
   * Splitting the raw name `C.x` of a once-qualified name at its first dot gives back its
   * qualifier and its name, as the constructor correspondence in the resolver relies on.
   */
  lemma RawNameSplit(q: NameExpr, name: string)
    requires DotFreeIdents(q) && !IsQualified(q) && '.' !in name
    ensures Strings.SubstringBefore(RawName(PropertyAccess(q, name)), '.') == RawName(q)
    ensures Strings.SubstringAfter(RawName(PropertyAccess(q, name)), '.') == name
  {
    RawNameDot(q);
    var s := RawName(PropertyAccess(q, name));
    var k := Strings.IndexOf(s, '.');
    assert s[|RawName(q)|] == '.';
    assert s[..|RawName(q)|] == RawName(q);
    assert '.' !in RawName(q);
    assert forall i :: 0 <= i < |RawName(q)| ==> s[i] == RawName(q)[i];
    assert k == |RawName(q)|;
    assert s[k + 1..] == name;
  }

  /**
   * `getRawMethodName`: the raw name of the method's definition, or, for a synthetic
   * method without a node, the name of its enclosing element.
   */
  function RawMethodName(m: Element): (r: string)
    requires m.node.Some? ==> m.node.value.methodName.Some?
    requires m.node.None? ==> m.enclosing.Some?
    ensures m.node.None? ==> r == m.enclosing.value.name
    ensures m.node.Some? ==> r == RawName(m.node.value.methodName.value)
  {
    if m.node.None? then m.enclosing.value.name else RawName(m.node.value.methodName.value)
  }

  /** The parameters that are not named, in declaration order. */
  function RequiredParameters(ps: seq<Element>): seq<Element>
  {
    if ps == [] then []
    else RequiredParameters(ps[..|ps| - 1]) + (if ps[|ps| - 1].mods.isNamed then [] else [ps[|ps| - 1]])
  }

  /** The names of the named parameters, in declaration order. */
  function NamedParameterNames(ps: seq<Element>): seq<string>
  {
    if ps == [] then []
    else NamedParameterNames(ps[..|ps| - 1]) + (if ps[|ps| - 1].mods.isNamed then [ps[|ps| - 1].name] else [])
  }

  /** Every parameter is either required or named: the two counts add up to the arity. */
  lemma {:induction false} RequiredPlusNamed(ps: seq<Element>)
    ensures |RequiredParameters(ps)| + |NamedParameterNames(ps)| == |ps|
    decreases |ps|
  {
    if ps != [] { RequiredPlusNamed(ps[..|ps| - 1]); }
  }

  /** Named names are the named parameters' names, each at its declaration position order. */
  lemma {:induction false} NamedParameterNamesAt(ps: seq<Element>, i: nat)
    requires i < |ps| && ps[i].mods.isNamed
    ensures ps[i].name in NamedParameterNames(ps)
    decreases |ps|
  {
    if i < |ps| - 1 {
      NamedParameterNamesAt(ps[..|ps| - 1], i);
    }
  }

  /** `getNumberOfRequiredParameters`. */
  method GetNumberOfRequiredParameters(m: Element) returns (num: nat)
    ensures num == |RequiredParameters(m.params)|
    ensures num <= |m.params|
    ensures num == |m.params| - |NamedParameterNames(m.params)|
  {
    var ps := m.params;
    num := 0;
    var i := 0;
    while i < |ps|
      invariant 0 <= i <= |ps|
      invariant num == |RequiredParameters(ps[..i])|
    {
      assert ps[..i + 1][..i] == ps[..i];
      if !ps[i].mods.isNamed {
        num := num + 1;
      }
      i := i + 1;
    }
    assert ps[..i] == ps;
    RequiredPlusNamed(ps);
  }

  /** `getNamedParameters`. */
  method GetNamedParameters(m: Element) returns (names: seq<string>)
    ensures names == NamedParameterNames(m.params)
    ensures |names| <= |m.params|
  {
    var ps := m.params;
    names := [];
    var i := 0;
    while i < |ps|
      invariant 0 <= i <= |ps|
      invariant names == NamedParameterNames(ps[..i])
    {
      assert ps[..i + 1][..i] == ps[..i];
      if ps[i].mods.isNamed {
        names := names + [ps[i].name];
      }
      i := i + 1;
    }
    assert ps[..i] == ps;
    RequiredPlusNamed(ps);
  }

  /** A constructor whose node and enclosing element the raw-name query can read. */
  predicate HasRawName(c: Element) {
    (c.node.Some? ==> c.node.value.methodName.Some?) && (c.node.None? ==> c.enclosing.Some?)
  }

  /** `isSyntheticConstructor`: a constructor without a node. */
  predicate IsSyntheticConstructor(c: Option<Element>) {
    c.Some? && c.value.node.None?
  }

  /** `isDefaultConstructor`: no parameters, and the raw name is the enclosing class name. */
  predicate IsDefaultConstructor(c: Option<Element>)
    requires c.Some? ==> HasRawName(c.value) && c.value.enclosing.Some?
  {
    c.Some? && |c.value.params| == 0 && RawMethodName(c.value) == c.value.enclosing.value.name
  }

  /** A synthetic constructor without parameters is always a default constructor. */
  lemma SyntheticIsDefault(c: Element)
    requires HasRawName(c) && c.enclosing.Some?
    requires IsSyntheticConstructor(Some(c)) && |c.params| == 0
    ensures IsDefaultConstructor(Some(c))
  {
  }

  /** A node-backed constructor is a default constructor exactly when it is spelt like its class. */
  lemma DeclaredDefaultConstructor(c: Element)
    requires HasRawName(c) && c.enclosing.Some? && c.node.Some? && |c.params| == 0
    ensures IsDefaultConstructor(Some(c)) <==> RawName(c.node.value.methodName.value) == c.enclosing.value.name
  {
  }

  /**
   * `isStaticContext`: walking from the element's node to the root, a unit or a static
   * class member is met before any class.
   */
  method IsStaticContext(e: Element) returns (r: bool)
    ensures e.node.None? ==> !r
    ensures e.node.Some? ==> (r <==> exists i :: (0 <= i < |e.node.value.path|
      && (e.node.value.path[i].UnitNode? || e.node.value.path[i] == MemberNode(true))
      && forall j :: 0 <= j < i ==> !e.node.value.path[j].ClassNode?))
  {
    if e.node.None? {
      return false;
    }
    var path := e.node.value.path;
    var i := 0;
    while i < |path|
      invariant 0 <= i <= |path|
      invariant forall j :: 0 <= j < i ==> !path[j].ClassNode? && !path[j].UnitNode? && path[j] != MemberNode(true)
    {
      if path[i].UnitNode? {
        return true;
      }
      if path[i].ClassNode? {
        return false;
      }
      if path[i].MemberNode? && path[i].isStatic {
        return true;
      }
      i := i + 1;
    }
    return false;
  }

  /**
   * `isLibrarySource(source, name)`: a Dart source whose library is named
   * "dart://..." and ends with "/" + name.
   */
  function IsLibrarySource(source: Source, name: string): (r: bool)
    ensures r ==> source.DartSource? && source.library.Some?
    ensures r ==> Strings.StartsWith(source.library.value.name, "dart://")
    ensures r ==> Strings.EndsWith(source.library.value.name, "/" + name)
    ensures (source.DartSource? && source.library.Some?
      && Strings.StartsWith(source.library.value.name, "dart://")
      && Strings.EndsWith(source.library.value.name, "/" + name)) ==> r
  {
    match source
    case DartSource(library, _, _, _) =>
      library.Some? && Strings.StartsWith(library.value.name, "dart://")
        && Strings.EndsWith(library.value.name, "/" + name)
    case OtherSource(_) => false
  }

  /** The element `Elements.typeVariableFromNode` makes for a type parameter named by `name`. */
  function TypeVariableFor(name: AstNode, owner: Element): (v: Element)
    ensures v.kind == TypeVariable && v.name == name.name && v.enclosing == Some(owner)
  {
    Element(name.id, name.name, TypeVariable, NoModifiers, Some(owner), None, [], None, None)
  }

  /**
   * `makeTypeVariables`: one type variable per type parameter, in order (none for a
   * null list), each recorded as the symbol of its parameter's name node.
   */
  method MakeTypeVariables(parameterNames: Option<seq<AstNode>>, owner: Element) returns (vars: seq<Element>)
    requires parameterNames.Some? ==> forall i, j :: 0 <= i < j < |parameterNames.value| ==> parameterNames.value[i] != parameterNames.value[j]
    modifies if parameterNames.Some? then set n | n in parameterNames.value else {}
    ensures parameterNames.None? ==> vars == []
    ensures parameterNames.Some? ==> |vars| == |parameterNames.value|
    ensures parameterNames.Some? ==> forall i :: 0 <= i < |vars| ==>
      vars[i] == TypeVariableFor(parameterNames.value[i], owner) && parameterNames.value[i].symbol == Some(vars[i])
    ensures parameterNames.Some? ==> forall n :: n in parameterNames.value ==> n.nodeType == old(n.nodeType)
  {
    if parameterNames.None? {
      return [];
    }
    var ns := parameterNames.value;
    vars := [];
    var i := 0;
    while i < |ns|
      invariant 0 <= i <= |ns|
      invariant |vars| == i
      invariant forall j :: 0 <= j < i ==> vars[j] == TypeVariableFor(ns[j], owner) && ns[j].symbol == Some(vars[j])
      invariant forall n :: n in ns ==> n.nodeType == old(n.nodeType)
    {
      var v := TypeVariableFor(ns[i], owner);
      vars := vars + [v];
      ns[i].symbol := Some(v);
      i := i + 1;
    }
  }
}
