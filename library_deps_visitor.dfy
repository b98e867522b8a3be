/**
 * `LibraryDepsVisitor`: walks a resolved compilation unit and fills in its dependency
 * record. The record gains a dependency (library URI, unit name, time stamp) for each unit
 * that provides a library-level member or a class the unit uses, and a "hole" for each
 * unqualified name bound to a member of another class: a library-scope declaration of that
 * name would bind more strongly, so adding one must recompile the unit.
 */
module LibraryDepsVisitor {
  import opened Wrappers
  import opened ElementModel
  import LibraryUnit

  type Dependency = LibraryUnit.Dependency

  /** The nodes the visitor distinguishes; every other node is `Other` with its children. */
  datatype DepsNode =
    | Identifier(name: string, target: Option<Element>)
    | PropertyAccess(qualifier: DepsNode, property: DepsNode)
    | ClassDecl(symbol: Element, members: seq<DepsNode>)
    | TypeNode(nodeType: Option<Type>, typeArguments: seq<DepsNode>)
    | Other(children: seq<DepsNode>)

  /**
   * What the walk has produced so far: the holes, the dependencies in the order they were
   * added, the class being visited, and `ok`, which turns false where the code would throw
   * (a null dereference or a failing cast).
   */
  datatype DepsState = DepsState(holes: set<string>, deps: seq<Dependency>, currentClass: Option<Element>, ok: bool)

  /** The dependency on the unit that declares `e`: none for an element without a node. */
  function DependencyOf(e: Element): (r: Option<Dependency>)
    ensures r.Some? <==> e.node.Some? && e.node.value.source.DartSource? && e.node.value.source.library.Some?
    ensures r.Some? ==> r.value.libUri == e.node.value.source.library.value.uri
    ensures r.Some? ==> r.value.unitName == e.node.value.source.name
    ensures r.Some? ==> r.value.lastModified == e.node.value.source.lastModified
  {
    match e.node
    case None => None
    case Some(node) =>
      match node.source
      case DartSource(library, name, _, lastModified) =>
        if library.Some? then Some(LibraryUnit.Dependency(library.value.uri, name, lastModified)) else None
      case OtherSource(_) => None
  }

  /** The cast to a library unit source and the read of its library both succeed. */
  predicate Dependable(e: Element) {
    e.node.None? || (e.node.value.source.DartSource? && e.node.value.source.library.Some?)
  }

  /** `addElementDependency`. */
  function ElementDependency(e: Element, s: DepsState): (r: DepsState)
    ensures r.holes == s.holes && r.currentClass == s.currentClass
    ensures r.ok <==> s.ok && Dependable(e)
    ensures DependencyOf(e).Some? ==> r.deps == s.deps + [DependencyOf(e).value]
    ensures DependencyOf(e).None? ==> r.deps == s.deps
  {
    if !Dependable(e) then s.(ok := false)
    else if e.node.None? then s
    else s.(deps := s.deps + [DependencyOf(e).value])
  }

  /** `addHoleIfSuper`: reading the current class fails outside a class. */
  function HoleIfSuper(name: string, holder: Option<Element>, s: DepsState): (r: DepsState)
    ensures r.deps == s.deps && r.currentClass == s.currentClass
    ensures r.ok <==> s.ok && (KindOf(holder) == Class ==> s.currentClass.Some?)
    ensures KindOf(holder) == Class && s.currentClass.Some? && holder.value.id != s.currentClass.value.id ==> r.holes == s.holes + {name}
    ensures !(KindOf(holder) == Class && s.currentClass.Some? && holder.value.id != s.currentClass.value.id) ==> r.holes == s.holes
  {
    if KindOf(holder) != Class then s
    else if s.currentClass.None? then s.(ok := false)
    else if holder.value.id != s.currentClass.value.id then s.(holes := s.holes + {name})
    else s
  }

  predicate IsMember(target: Option<Element>) {
    KindOf(target) == Field || KindOf(target) == Method
  }

  /** An identifier's target has a computed type to depend on. */
  predicate IsTyped(target: Option<Element>) {
    KindOf(target) != NoKind && KindOf(target) != Dynamic
  }

  /** The first switch of `visitIdentifier`: a field or method reference. */
  function MemberReference(name: string, target: Option<Element>, s: DepsState): (r: DepsState)
    ensures !IsMember(target) ==> r == s
  {
    if !IsMember(target) then s
    else
      var enclosing := target.value.enclosing;
      var s1 := HoleIfSuper(name, enclosing, s);
      if enclosing.None? then s1.(ok := false)
      else if enclosing.value.kind == Library then ElementDependency(target.value, s1)
      else s1
  }

  /** The second switch of `visitIdentifier`: the class of the target's type. */
  function TypeReference(target: Option<Element>, s: DepsState): (r: DepsState)
    ensures !IsTyped(target) ==> r == s
  {
    if !IsTyped(target) then s
    else
      var t := target.value.elemType;
      if t.Some? && KindOf(t.value.element) == Class then ElementDependency(t.value.element.value, s)
      else s
  }

  /** A type node of an interface type depends on the type's class. */
  function TypeNodeReference(nodeType: Option<Type>, s: DepsState): (r: DepsState)
  {
    if TypeKindOf(nodeType) != InterfaceType then s
    else if nodeType.value.element.None? then s.(ok := false)
    else ElementDependency(nodeType.value.element.value, s)
  }

  /** The qualifier names a library prefix. */
  predicate IsLibraryPrefix(qualifier: DepsNode) {
    qualifier.Identifier? && qualifier.target.Some? && qualifier.target.value.kind == Library
  }

  /** The traversal, node by node; once a step has failed nothing further happens. */
  function Visit(n: DepsNode, s: DepsState): (r: DepsState)
    decreases n, 1
  {
    if !s.ok then s
    else
      match n
      case Identifier(name, target) => TypeReference(target, MemberReference(name, target, s))
      case PropertyAccess(q, p) =>
        if IsLibraryPrefix(q) then Visit(p, Visit(q, s)) else Visit(q, s)
      case ClassDecl(symbol, members) =>
        VisitAll(members, s.(currentClass := Some(symbol))).(currentClass := None)
      case TypeNode(nodeType, arguments) => VisitAll(arguments, TypeNodeReference(nodeType, s))
      case Other(children) => VisitAll(children, s)
  }

  /** Visiting the children in order. */
  function VisitAll(ns: seq<DepsNode>, s: DepsState): (r: DepsState)
    decreases ns, 0
  {
    if |ns| == 0 then s
    else
      var last := ns[|ns| - 1];
      Visit(last, VisitAll(ns[..|ns| - 1], s))
  }

  lemma {:induction false} FailureStays(n: DepsNode, s: DepsState)
    requires Visit(n, s).ok
    ensures s.ok
  {
  }

  /** A walk that succeeds succeeded on every prefix of the children. */
  lemma {:induction false} PrefixSucceeds(ns: seq<DepsNode>, s: DepsState, i: nat)
    requires i <= |ns| && VisitAll(ns, s).ok
    ensures VisitAll(ns[..i], s).ok
  {
    if i < |ns| {
      var front := ns[..|ns| - 1];
      FailureStays(ns[|ns| - 1], VisitAll(front, s));
      assert front[..i] == ns[..i];
      PrefixSucceeds(front, s, i);
    } else {
      assert ns[..i] == ns;
    }
  }

  /* ---------------------------------------------------------------------------------------
   * The record described node by node rather than by threading the state: which names a
   * subtree contributes as holes, with the innermost enclosing class known lexically, and which
   * dependencies.
   * --------------------------------------------------------------------------------------- */

  /** The dependency of `e`, as a set of zero or one entries. */
  function DependencySet(e: Element): (r: set<Dependency>)
    ensures r == {} <==> DependencyOf(e).None?
    ensures DependencyOf(e).Some? ==> r == {DependencyOf(e).value}
  {
    if DependencyOf(e).Some? then {DependencyOf(e).value} else {}
  }

  /** The hole an identifier contributes inside the class `cc`. */
  function IdentifierHoles(name: string, target: Option<Element>, cc: Option<Element>): (r: set<string>)
  {
    if IsMember(target) && KindOf(target.value.enclosing) == Class && cc.Some? && target.value.enclosing.value.id != cc.value.id
    then {name}
    else {}
  }

  /** The dependencies an identifier contributes: a library-level member's unit, then its type's class. */
  function IdentifierDeps(target: Option<Element>): (r: set<Dependency>)
  {
    var member :=
      if IsMember(target) && target.value.enclosing.Some? && target.value.enclosing.value.kind == Library
      then DependencySet(target.value)
      else {};
    var typed :=
      if IsTyped(target) && target.value.elemType.Some? && KindOf(target.value.elemType.value.element) == Class
      then DependencySet(target.value.elemType.value.element.value)
      else {};
    member + typed
  }

  /** The holes of a subtree whose innermost enclosing class is `cc`. */
  ghost function Holes(n: DepsNode, cc: Option<Element>): set<string>
    decreases n
  {
    match n
    case Identifier(name, target) => IdentifierHoles(name, target, cc)
    case PropertyAccess(q, p) => if IsLibraryPrefix(q) then Holes(q, cc) + Holes(p, cc) else Holes(q, cc)
    case ClassDecl(symbol, members) => HolesAll(members, Some(symbol))
    case TypeNode(_, arguments) => HolesAll(arguments, cc)
    case Other(children) => HolesAll(children, cc)
  }

  ghost function HolesAll(ns: seq<DepsNode>, cc: Option<Element>): set<string>
    decreases ns
  {
    if |ns| == 0 then {}
    else
      var last := ns[|ns| - 1];
      HolesAll(ns[..|ns| - 1], cc) + Holes(last, cc)
  }

  /** The dependencies of a subtree. */
  ghost function Deps(n: DepsNode): set<Dependency>
    decreases n
  {
    match n
    case Identifier(_, target) => IdentifierDeps(target)
    case PropertyAccess(q, p) => if IsLibraryPrefix(q) then Deps(q) + Deps(p) else Deps(q)
    case ClassDecl(_, members) => DepsAll(members)
    case TypeNode(nodeType, arguments) =>
      var own := if TypeKindOf(nodeType) == InterfaceType && nodeType.value.element.Some?
                 then DependencySet(nodeType.value.element.value) else {};
      own + DepsAll(arguments)
    case Other(children) => DepsAll(children)
  }

  ghost function DepsAll(ns: seq<DepsNode>): set<Dependency>
    decreases ns
  {
    if |ns| == 0 then {}
    else
      var last := ns[|ns| - 1];
      DepsAll(ns[..|ns| - 1]) + Deps(last)
  }

  /** Classes occur only outside classes, as in a Dart unit. */
  ghost predicate ClassesAtTop(n: DepsNode, inClass: bool)
    decreases n
  {
    match n
    case Identifier(_, _) => true
    case PropertyAccess(q, p) => ClassesAtTop(q, inClass) && ClassesAtTop(p, inClass)
    case ClassDecl(_, members) => !inClass && AllClassesAtTop(members, true)
    case TypeNode(_, arguments) => AllClassesAtTop(arguments, inClass)
    case Other(children) => AllClassesAtTop(children, inClass)
  }

  ghost predicate AllClassesAtTop(ns: seq<DepsNode>, inClass: bool)
    decreases ns
  {
    forall i :: 0 <= i < |ns| ==> ClassesAtTop(ns[i], inClass)
  }

  ghost function DepSet(ds: seq<Dependency>): set<Dependency> {
    set d | d in ds
  }

  lemma DepSetAppend(a: seq<Dependency>, b: seq<Dependency>)
    ensures DepSet(a + b) == DepSet(a) + DepSet(b)
  {
    assert forall d :: d in a + b <==> d in a || d in b;
  }

  /** One identifier: the holes and dependencies it adds are the lexical ones. */
  lemma IdentifierStep(name: string, target: Option<Element>, s: DepsState)
    requires s.ok
    requires TypeReference(target, MemberReference(name, target, s)).ok
    ensures var r := TypeReference(target, MemberReference(name, target, s));
      r.holes == s.holes + IdentifierHoles(name, target, s.currentClass) &&
      s.deps <= r.deps && DepSet(r.deps) == DepSet(s.deps) + IdentifierDeps(target) &&
      r.currentClass == s.currentClass
  {
    var m := MemberReference(name, target, s);
    var r := TypeReference(target, m);
    if IsMember(target) {
      var s1 := HoleIfSuper(name, target.value.enclosing, s);
      if target.value.enclosing.value.kind == Library {
        if DependencyOf(target.value).Some? {
          DepSetAppend(s1.deps, [DependencyOf(target.value).value]);
        }
      }
    }
    if IsTyped(target) && target.value.elemType.Some? && KindOf(target.value.elemType.value.element) == Class {
      var e := target.value.elemType.value.element.value;
      if DependencyOf(e).Some? {
        DepSetAppend(m.deps, [DependencyOf(e).value]);
      }
    }
  }

  /**
   * The threaded walk agrees with the lexical description: in a unit whose classes are not
   * nested, a successful walk adds exactly the holes and dependencies the subtree contributes,
   * keeps the earlier dependencies as a prefix and leaves the current class as it found it.
   */
  lemma {:induction false} VisitContributes(n: DepsNode, s: DepsState)
    requires s.ok && ClassesAtTop(n, s.currentClass.Some?)
    requires Visit(n, s).ok
    ensures Visit(n, s).holes == s.holes + Holes(n, s.currentClass)
    ensures s.deps <= Visit(n, s).deps
    ensures DepSet(Visit(n, s).deps) == DepSet(s.deps) + Deps(n)
    ensures Visit(n, s).currentClass == s.currentClass
    decreases n, 1
  {
    match n
    case Identifier(name, target) =>
      IdentifierStep(name, target, s);
    case PropertyAccess(q, p) =>
      if IsLibraryPrefix(q) {
        FailureStays(p, Visit(q, s));
        VisitContributes(q, s);
        VisitContributes(p, Visit(q, s));
      } else {
        VisitContributes(q, s);
      }
    case ClassDecl(symbol, members) =>
      VisitAllContributes(members, s.(currentClass := Some(symbol)));
    case TypeNode(nodeType, arguments) =>
      var t := TypeNodeReference(nodeType, s);
      FailureStaysAll(arguments, t);
      VisitAllContributes(arguments, t);
      if TypeKindOf(nodeType) == InterfaceType {
        var e := nodeType.value.element.value;
        if DependencyOf(e).Some? {
          DepSetAppend(s.deps, [DependencyOf(e).value]);
        }
      }
    case Other(children) =>
      VisitAllContributes(children, s);
  }

  lemma {:induction false} VisitAllContributes(ns: seq<DepsNode>, s: DepsState)
    requires s.ok && AllClassesAtTop(ns, s.currentClass.Some?)
    requires VisitAll(ns, s).ok
    ensures VisitAll(ns, s).holes == s.holes + HolesAll(ns, s.currentClass)
    ensures s.deps <= VisitAll(ns, s).deps
    ensures DepSet(VisitAll(ns, s).deps) == DepSet(s.deps) + DepsAll(ns)
    ensures VisitAll(ns, s).currentClass == s.currentClass
    decreases ns, 0
  {
    if |ns| > 0 {
      var front := ns[..|ns| - 1];
      var mid := VisitAll(front, s);
      FailureStays(ns[|ns| - 1], mid);
      VisitAllContributes(front, s);
      VisitContributes(ns[|ns| - 1], mid);
    }
  }

  lemma {:induction false} FailureStaysAll(ns: seq<DepsNode>, s: DepsState)
    requires VisitAll(ns, s).ok
    ensures s.ok
  {
    if |ns| > 0 {
      FailureStays(ns[|ns| - 1], VisitAll(ns[..|ns| - 1], s));
      FailureStaysAll(ns[..|ns| - 1], s);
    }
  }

  /** The walk as it starts on a unit: the unit's existing record, outside any class. */
  function Start(source: LibraryUnit.DepsSource): (s: DepsState)
    ensures s.holes == source.holes && s.deps == source.deps && s.currentClass.None? && s.ok
  {
    DepsState(source.holes, source.deps, None, true)
  }

  /** The visitor; `holes` and `deps` stand for the dependency record it fills in. */
  class LibraryDepsVisitor {
    var holes: set<string>
    var deps: seq<Dependency>
    var currentClass: Option<Element>

    function State(): (s: DepsState)
      reads this
      ensures s.holes == holes && s.deps == deps && s.currentClass == currentClass && s.ok
    {
      DepsState(holes, deps, currentClass, true)
    }

    constructor (source: LibraryUnit.DepsSource)
      ensures State() == Start(source)
    {
      holes := source.holes;
      deps := source.deps;
      currentClass := None;
    }

    /** `accept`: dispatch on the node. */
    method Accept(n: DepsNode)
      requires Visit(n, State()).ok
      modifies this
      ensures State() == Visit(n, old(State()))
      decreases n, 2
    {
      match n {
        case Identifier(name, target) => VisitIdentifier(name, target);
        case PropertyAccess(_, _) => VisitPropertyAccess(n);
        case ClassDecl(_, _) => VisitClass(n);
        case TypeNode(_, _) => VisitTypeNode(n);
        case Other(children) => VisitChildren(children);
      }
    }

    /** `visitChildren`. */
    method VisitChildren(ns: seq<DepsNode>)
      requires VisitAll(ns, State()).ok
      modifies this
      ensures State() == VisitAll(ns, old(State()))
      decreases ns, 1
    {
      ghost var s0 := State();
      for i := 0 to |ns|
        invariant State() == VisitAll(ns[..i], s0)
      {
        assert ns[..i + 1][..i] == ns[..i];
        PrefixSucceeds(ns, s0, i + 1);
        Accept(ns[i]);
      }
      assert ns[..|ns|] == ns;
    }

    /** `visitIdentifier`. */
    method VisitIdentifier(name: string, target: Option<Element>)
      requires TypeReference(target, MemberReference(name, target, State())).ok
      modifies this`holes, this`deps
      ensures State() == TypeReference(target, MemberReference(name, target, old(State())))
    {
      var kind := KindOf(target);
      if kind == Field || kind == Method {
        var enclosing := target.value.enclosing;
        AddHoleIfSuper(name, enclosing);
        if enclosing.value.kind == Library {
          AddElementDependency(target.value);
        }
      }
      if kind != NoKind && kind != Dynamic {
        var t := target.value.elemType;
        if t.Some? && KindOf(t.value.element) == Class {
          AddElementDependency(t.value.element.value);
        }
      }
    }

    /** `visitPropertyAccess`: only a library prefix lets the walk into the property name. */
    method VisitPropertyAccess(n: DepsNode)
      requires n.PropertyAccess? && Visit(n, State()).ok
      modifies this
      ensures State() == Visit(n, old(State()))
      decreases n, 1
    {
      var q := n.qualifier;
      if q.Identifier? && q.target.Some? && q.target.value.kind == Library {
        FailureStays(n.property, Visit(q, State()));
        Accept(q);
        Accept(n.property);
      } else {
        Accept(q);
      }
    }

    /** `visitTypeNode` and `visitParameterizedTypeNode`: an interface type's class, then the children. */
    method VisitTypeNode(n: DepsNode)
      requires n.TypeNode? && Visit(n, State()).ok
      modifies this
      ensures State() == Visit(n, old(State()))
      decreases n, 1
    {
      FailureStaysAll(n.typeArguments, TypeNodeReference(n.nodeType, State()));
      if TypeKindOf(n.nodeType) == InterfaceType {
        AddElementDependency(n.nodeType.value.element.value);
      }
      VisitChildren(n.typeArguments);
    }

    /** `visitClass`: the class is current while its members are visited, and none is after. */
    method VisitClass(n: DepsNode)
      requires n.ClassDecl? && Visit(n, State()).ok
      modifies this
      ensures State() == Visit(n, old(State()))
      decreases n, 1
    {
      currentClass := Some(n.symbol);
      VisitChildren(n.members);
      currentClass := None;
    }

    /** `addHoleIfSuper`. */
    method AddHoleIfSuper(name: string, holder: Option<Element>)
      requires HoleIfSuper(name, holder, State()).ok
      modifies this`holes
      ensures State() == HoleIfSuper(name, holder, old(State()))
    {
      if KindOf(holder) == Class && holder.value.id != currentClass.value.id {
        holes := holes + {name};
      }
    }

    /** `addElementDependency`. */
    method AddElementDependency(e: Element)
      requires Dependable(e)
      modifies this`deps
      ensures State() == ElementDependency(e, old(State()))
    {
      if e.node.Some? {
        var unitSource := e.node.value.source;
        var dep := LibraryUnit.Dependency(unitSource.library.value.uri, unitSource.name, unitSource.lastModified);
        deps := deps + [dep];
      }
    }
  }

  /**
   * `exec`: fills in the record of a unit. The holes and dependencies it adds are exactly
   * those the unit's nodes contribute.
   */
  method Exec(unit: DepsNode, source: LibraryUnit.DepsSource) returns (r: LibraryUnit.DepsSource)
    requires Visit(unit, Start(source)).ok && ClassesAtTop(unit, false)
    ensures r.topSymbols == source.topSymbols && r.allSymbols == source.allSymbols
    ensures r.recompileOnAnyTopLevelChange == source.recompileOnAnyTopLevelChange
    ensures r.holes == source.holes + Holes(unit, None)
    ensures source.deps <= r.deps && DepSet(r.deps) == DepSet(source.deps) + Deps(unit)
  {
    var v := new LibraryDepsVisitor(source);
    v.Accept(unit);
    VisitContributes(unit, Start(source));
    r := source.(holes := v.holes, deps := v.deps);
  }
}
