/**
 * `MemberBuilder`: builds the method, constructor and field elements of a class or of the
 * library, decides constructor versus method, checks modifiers and name uniqueness, and
 * merges a getter and a setter of one name into one field.
 */
module MemberBuilder {
  import opened Wrappers
  import opened ElementModel
  import Elements

  /**
   * A method definition: its AST node, its declaration node, its name expression, its
   * modifiers, whether it has a body and a declared return type, its parameter elements and
   * its resolved return type.
   */
  datatype MethodNode = MethodNode(
    ast: AstNode, decl: DeclNode, name: NameExpr, mods: Modifiers,
    hasBody: bool, hasReturnType: bool, params: seq<Element>, returnType: Type)

  /** A field of a field definition; an abstract field (a getter or setter) carries its accessor. */
  datatype FieldNode = FieldNode(ast: AstNode, decl: DeclNode, mods: Modifiers, accessor: Option<MethodNode>)

  /** The getter, the setter and the type of an abstract field element. */
  datatype Accessors = Accessors(getter: Option<Element>, setter: Option<Element>, fieldType: Option<Type>)

  const NoAccessors := Accessors(None, None, None)

  /** The first element of `s` named `n`. */
  function FirstNamed(s: seq<Element>, n: string): (r: Option<Element>)
    ensures r.None? <==> forall i :: 0 <= i < |s| ==> s[i].name != n
    ensures r.Some? ==>
      exists i :: 0 <= i < |s| && s[i] == r.value && s[i].name == n && forall j :: 0 <= j < i ==> s[j].name != n
  {
    if |s| == 0 then None
    else if s[0].name == n then Some(s[0])
    else
      var r := FirstNamed(s[1..], n);
      assert forall i :: 0 < i < |s| ==> s[i] == s[1..][i - 1];
      r
  }

  /** The name under which a class's constructor named `n` is recorded: "" for the class's own name. */
  function ConstructorName(holderName: string, n: string): (r: string)
    ensures n == holderName ==> r == ""
    ensures n != holderName ==> r == n
  {
    if n == holderName then "" else n
  }

  /** `lookupElementByName` in a holder with these members and constructors. */
  function ElementIn(holder: Element, members: seq<Element>, constructors: seq<Element>, n: string): Option<Element> {
    var local := FirstNamed(members, n);
    if local.Some? || holder.kind != Class then local
    else FirstNamed(constructors, ConstructorName(holder.name, n))
  }

  /**
   * An enclosing element (a class or the library) and what this pass adds to it: its members,
   * its constructors, and the accessors of its abstract fields, keyed by the field's id.
   */
  class Holder {
    const element: Element
    var members: seq<Element>
    var constructors: seq<Element>
    var accessors: map<nat, Accessors>

    constructor (element: Element)
      ensures this.element == element && members == [] && constructors == [] && accessors == map[]
    {
      this.element := element;
      members := [];
      constructors := [];
      accessors := map[];
    }

    /** `lookupLocalElement`: the first member of that name (the member table returns the first). */
    function LookupLocalElement(n: string): (r: Option<Element>)
      reads this`members
      ensures r.Some? ==> r.value in members && r.value.name == n
      ensures r.None? <==> forall i :: 0 <= i < |members| ==> members[i].name != n
    {
      FirstNamed(members, n)
    }

    /**
     * What `lookupElementByName` finds: a local member first; failing that, in a class, the
     * first constructor recorded under `ConstructorName`.
     */
    ghost function ElementByName(n: string): (r: Option<Element>)
      reads this`members, this`constructors
      ensures LookupLocalElement(n).Some? ==> r == LookupLocalElement(n)
      ensures LookupLocalElement(n).None? && element.kind != Class ==> r.None?
      ensures LookupLocalElement(n).None? && element.kind == Class ==>
        (r.None? <==> forall i :: 0 <= i < |constructors| ==> constructors[i].name != ConstructorName(element.name, n))
      ensures LookupLocalElement(n).None? && element.kind == Class && r.Some? ==>
        r.value in constructors && r.value.name == ConstructorName(element.name, n)
    {
      ElementIn(element, members, constructors, n)
    }

    /** `lookupElementByName`, searching the constructors in order. */
    method LookupElementByName(n: string) returns (r: Option<Element>)
      ensures r == ElementByName(n)
    {
      r := LookupLocalElement(n);
      if r.None? && element.kind == Class {
        var ctorName := ConstructorName(element.name, n);
        var i := 0;
        while i < |constructors|
          invariant 0 <= i <= |constructors|
          invariant forall j :: 0 <= j < i ==> constructors[j].name != ctorName
        {
          if constructors[i].name == ctorName {
            assert FirstNamed(constructors, ctorName) == Some(constructors[i]);
            return Some(constructors[i]);
          }
          i := i + 1;
        }
      }
    }

    /** `addField`/`addMethod`: the uniqueness check, then the element is added. */
    method AddMember(e: Element) returns (errors: seq<Diagnostic>)
      modifies this`members
      ensures members == old(members) + [e]
      ensures errors == UniqueNameErrors(old(ElementByName(e.name)), e)
    {
      var other := LookupElementByName(e.name);
      errors := UniqueNameErrors(other, e);
      members := members + [e];
    }

    /** `addConstructor`: the uniqueness check, then the constructor is added. */
    method AddConstructor(e: Element) returns (errors: seq<Diagnostic>)
      modifies this`constructors
      ensures constructors == old(constructors) + [e]
      ensures errors == UniqueNameErrors(old(ElementByName(e.name)), e)
    {
      var other := LookupElementByName(e.name);
      errors := UniqueNameErrors(other, e);
      constructors := constructors + [e];
    }
  }

  /** What `getMethodKind` decides, and the error it reports when it decides `NONE`. */
  datatype KindDecision = KindDecision(kind: ElementKind, errors: seq<Diagnostic>)

  /**
   * `getMethodKind` of a method named `name` declared in `holder`: outside a class a method;
   * a factory, the class's own name, `C.x` for the class `C`, or `T<...>.x` a constructor;
   * any other qualified name an error and `NONE`.
   */
  function GetMethodKind(holder: Element, isFactory: bool, name: NameExpr, site: nat): (r: KindDecision)
    requires holder.kind == Class && !isFactory ==> !name.Parameterized?
    ensures r.kind == Method || r.kind == Constructor || r.kind == NoKind
    ensures r.errors == [] <==> r.kind != NoKind
    ensures r.kind == NoKind ==> |r.errors| == 1 && r.errors[0].site == site
    ensures holder.kind != Class ==> r.kind == Method
    ensures holder.kind == Class && isFactory ==> r.kind == Constructor
    ensures holder.kind == Class && !isFactory && name.Ident? ==> (r.kind == Constructor <==> name.name == holder.name)
    ensures holder.kind == Class && !isFactory && name.PropertyAccess? ==>
      r.kind != Method &&
      (r.kind == Constructor <==> name.qualifier == Ident(holder.name) || (name.qualifier.Parameterized? && name.qualifier.expr.Ident?))
    ensures r.kind == NoKind ==> name.PropertyAccess?
    ensures r.kind == NoKind && name.PropertyAccess? ==>
      (r.errors[0].code == CannotDeclareNonFactoryConstructor <==> name.qualifier.Ident?)
    ensures r.kind == NoKind && name.PropertyAccess? ==>
      (r.errors[0].code == TooManyQualifiersForMethod <==> !name.qualifier.Ident?)
  {
    if holder.kind != Class then KindDecision(Method, [])
    else if isFactory then KindDecision(Constructor, [])
    else match name
      case Ident(n) => KindDecision(if n == holder.name then Constructor else Method, [])
      case PropertyAccess(qualifier, _) =>
        match qualifier
        case Ident(q) =>
          if q == holder.name then KindDecision(Constructor, [])
          else KindDecision(NoKind, [Diagnostic(CannotDeclareNonFactoryConstructor, site)])
        case Parameterized(expr) =>
          if expr.Ident? then KindDecision(Constructor, [])
          else KindDecision(NoKind, [Diagnostic(TooManyQualifiersForMethod, site)])
        case PropertyAccess(_, _) => KindDecision(NoKind, [Diagnostic(TooManyQualifiersForMethod, site)])
  }

  /** The error at `site` when `condition` holds. */
  function ErrorIf(condition: bool, code: ErrorCode, site: nat): (r: seq<Diagnostic>)
    ensures r == [] || r == [Diagnostic(code, site)]
    ensures r != [] <==> condition
  {
    if condition then [Diagnostic(code, site)] else []
  }

  /** `checkModifiers`: the modifier errors of a method element, in the order they are reported. */
  function ModifierErrors(e: Element, mods: Modifiers, hasBody: bool, site: nat): (r: seq<Diagnostic>)
    ensures forall d :: d in r ==> d.site == site
    ensures Diagnostic(ConstructorCannotBeStatic, site) in r <==> Elements.IsNonFactoryConstructor(e) && mods.isStatic
    ensures Diagnostic(ConstructorCannotBeAbstract, site) in r <==> Elements.IsNonFactoryConstructor(e) && mods.isAbstract
    ensures Diagnostic(ConstConstructorCannotHaveBody, site) in r <==>
      Elements.IsNonFactoryConstructor(e) && mods.isConstant && hasBody
    ensures Diagnostic(FactoryCannotBeStatic, site) in r <==> mods.isFactory && mods.isStatic
    ensures Diagnostic(FactoryCannotBeAbstract, site) in r <==> mods.isFactory && mods.isAbstract
    ensures Diagnostic(FactoryCannotBeConst, site) in r <==> mods.isFactory && mods.isConstant
    ensures !Elements.IsNonFactoryConstructor(e) && !mods.isFactory ==> r == []
  {
    ConstructorModifierErrors(Elements.IsNonFactoryConstructor(e), mods, hasBody, site) + FactoryModifierErrors(mods, site)
  }

  /** The first half of `checkModifiers`: the errors of a constructor that is not a factory. */
  function ConstructorModifierErrors(nonFactory: bool, mods: Modifiers, hasBody: bool, site: nat): (r: seq<Diagnostic>)
    ensures forall d :: d in r ==>
      d == Diagnostic(ConstructorCannotBeStatic, site) || d == Diagnostic(ConstructorCannotBeAbstract, site) ||
      d == Diagnostic(ConstConstructorCannotHaveBody, site)
    ensures Diagnostic(ConstructorCannotBeStatic, site) in r <==> nonFactory && mods.isStatic
    ensures Diagnostic(ConstructorCannotBeAbstract, site) in r <==> nonFactory && mods.isAbstract
    ensures Diagnostic(ConstConstructorCannotHaveBody, site) in r <==> nonFactory && mods.isConstant && hasBody
    ensures !nonFactory ==> r == []
  {
    ErrorIf(nonFactory && mods.isStatic, ConstructorCannotBeStatic, site)
      + ErrorIf(nonFactory && mods.isAbstract, ConstructorCannotBeAbstract, site)
      + ErrorIf(nonFactory && mods.isConstant && hasBody, ConstConstructorCannotHaveBody, site)
  }

  /** The second half of `checkModifiers`: the errors of a factory. */
  function FactoryModifierErrors(mods: Modifiers, site: nat): (r: seq<Diagnostic>)
    ensures forall d :: d in r ==>
      d == Diagnostic(FactoryCannotBeStatic, site) || d == Diagnostic(FactoryCannotBeAbstract, site) ||
      d == Diagnostic(FactoryCannotBeConst, site)
    ensures Diagnostic(FactoryCannotBeStatic, site) in r <==> mods.isFactory && mods.isStatic
    ensures Diagnostic(FactoryCannotBeAbstract, site) in r <==> mods.isFactory && mods.isAbstract
    ensures Diagnostic(FactoryCannotBeConst, site) in r <==> mods.isFactory && mods.isConstant
    ensures !mods.isFactory ==> r == []
  {
    ErrorIf(mods.isFactory && mods.isStatic, FactoryCannotBeStatic, site)
      + ErrorIf(mods.isFactory && mods.isAbstract, FactoryCannotBeAbstract, site)
      + ErrorIf(mods.isFactory && mods.isConstant, FactoryCannotBeConst, site)
  }

  /** `checkConstructor`: a non-factory constructor may not declare a return type. */
  function ConstructorErrors(e: Element, hasReturnType: bool, site: nat): (r: seq<Diagnostic>)
    ensures r != [] <==> Elements.IsNonFactoryConstructor(e) && hasReturnType
    ensures r == [] || r == [Diagnostic(ConstructorCannotHaveReturnType, site)]
  {
    if Elements.IsNonFactoryConstructor(e) && hasReturnType then [Diagnostic(ConstructorCannotHaveReturnType, site)] else []
  }

  /**
   * The pairs `checkUniqueName` lets share a name: a constructor and a non-constructor,
   * constructors of different classes, an operator and a non-operator.
   */
  predicate SeparateNamespaces(other: Element, e: Element) {
    (other.kind == Constructor) != (e.kind == Constructor)
    || (other.kind == Constructor && e.kind == Constructor && e.ctorType != other.ctorType)
    || other.mods.isOperator != e.mods.isOperator
  }

  /**
   * `checkUniqueName` as written: after the namespace tests, its operator/method exemption
   * can only meet two operators, so two same-name operator methods are never reported.
   */
  function UniqueNameErrorsAsWritten(other: Option<Element>, e: Element): (r: seq<Diagnostic>)
    ensures other.None? ==> r == []
    ensures other.Some? && SeparateNamespaces(other.value, e) ==> r == []
  {
    if other.None? then []
    else
      var o := other.value;
      var oIsConstructor := o.kind == Constructor;
      var eIsConstructor := e.kind == Constructor;
      if oIsConstructor != eIsConstructor then []
      else if oIsConstructor && eIsConstructor && e.ctorType != o.ctorType then []
      else if o.mods.isOperator != e.mods.isOperator then []
      else if (o.mods.isOperator && e.kind == Method) || (o.kind == Method && e.mods.isOperator) then []
      else DuplicateDeclarationReport(DuplicateMember, o) + DuplicateDeclarationReport(DuplicateMember, e)
  }

  /** Two same-name operator methods pass `checkUniqueName` as written. */
  lemma SameNameOperatorsPass(other: Element, e: Element)
    requires other.kind == Method && e.kind == Method && other.mods.isOperator && e.mods.isOperator
    requires other.node.Some? && other.node.value.isDeclaration && e.node.Some? && e.node.value.isDeclaration
    ensures UniqueNameErrorsAsWritten(Some(other), e) == []
    ensures |UniqueNameErrors(Some(other), e)| == 2
  {
  }

  /**
   * `checkUniqueName` with the exemption limited to what its comment says (an operator and a
   * method may share a name, which the namespace tests already allow): apart from
   * separate namespaces, a clash is reported at the earlier element and then at the new one.
   */
  function UniqueNameErrors(other: Option<Element>, e: Element): (r: seq<Diagnostic>)
    ensures other.None? ==> r == []
    ensures other.Some? && SeparateNamespaces(other.value, e) ==> r == []
    ensures other.Some? && !SeparateNamespaces(other.value, e) ==>
      r == DuplicateDeclarationReport(DuplicateMember, other.value) + DuplicateDeclarationReport(DuplicateMember, e)
    ensures forall d :: d in r ==> d.code == DuplicateMember
  {
    if other.None? || SeparateNamespaces(other.value, e) then []
    else DuplicateDeclarationReport(DuplicateMember, other.value) + DuplicateDeclarationReport(DuplicateMember, e)
  }

  /** The two versions differ exactly on same-name operator methods. */
  lemma UniqueNameVersionsAgree(other: Element, e: Element)
    requires !(other.mods.isOperator && e.mods.isOperator && (other.kind == Method || e.kind == Method))
    ensures UniqueNameErrorsAsWritten(Some(other), e) == UniqueNameErrors(Some(other), e)
  {
  }

  /**
   * The modifiers `buildField` gives a new field: a final field that is static or top level
   * becomes static and const; all other modifiers are kept.
   */
  function FieldModifiers(mods: Modifiers, topLevel: bool): (r: Modifiers)
    ensures r.isStatic <==> mods.isStatic || (mods.isFinal && topLevel)
    ensures r.isConstant <==> mods.isConstant || (mods.isFinal && (mods.isStatic || topLevel))
  {
    if mods.isFinal && (mods.isStatic || topLevel) then mods.(isStatic := true, isConstant := true) else mods
  }

  /** `FieldModifiers` changes no modifier but static and const. */
  lemma FieldModifiersKeepOthers(mods: Modifiers, topLevel: bool)
    ensures FieldModifiers(mods, topLevel).(isStatic := mods.isStatic, isConstant := mods.isConstant) == mods
  {
  }

  /** `Elements.fieldFromNode`: a field element of the holder, identified by its declaration node. */
  function FieldFromNode(f: FieldNode, holder: Element, mods: Modifiers): (e: Element)
    ensures e.kind == Field && e.name == f.ast.name && e.mods == mods && e.enclosing == Some(holder)
  {
    Element(f.decl.id, f.ast.name, Field, mods, Some(holder), Some(f.decl), [], None, None)
  }

  /** `Elements.methodFromMethodNode`: a method element of the holder. */
  function MethodFromNode(m: MethodNode, holder: Element): (e: Element)
    ensures e.kind == Method && e.mods == m.mods && e.params == m.params && e.enclosing == Some(holder)
  {
    Element(m.decl.id, Elements.RawName(m.name), Method, m.mods, Some(holder), Some(m.decl), m.params, None, None)
  }

  /** `Elements.constructorFromMethodNode`: a constructor named `name` of the class `ctorType`. */
  function ConstructorFromNode(m: MethodNode, name: string, holder: Element, ctorType: Option<Element>): (e: Element)
    ensures e.kind == Constructor && e.name == name && e.mods == m.mods && e.ctorType == ctorType
  {
    Element(m.decl.id, name, Constructor, m.mods, Some(holder), Some(m.decl), m.params, None, ctorType)
  }

  /**
   * What the name of a constructor may resolve to without a failing cast: nothing, or a
   * constructor, a class or Dynamic.
   */
  predicate ConstructorNameResolves(resolved: Option<Element>) {
    resolved.None? || resolved.value.kind in {Constructor, Class, Dynamic}
  }

  /**
   * `buildConstructor`, given what the constructor's name resolved to: a resolved constructor
   * is used as is; a class or Dynamic gives the unnamed constructor; an unresolved name is
   * reported and still gives the unnamed constructor.
   */
  function BuildConstructor(m: MethodNode, holder: Element, resolved: Option<Element>): (r: (Element, seq<Diagnostic>))
    requires ConstructorNameResolves(resolved)
    ensures r.0.kind == Constructor
    ensures r.1 != [] <==> resolved.None?
    ensures r.1 != [] ==> r.1 == [Diagnostic(InvalidTypeNameInConstructor, m.decl.id)]
    ensures KindOf(resolved) == Constructor ==> r.0 == resolved.value
    ensures KindOf(resolved) != Constructor ==> r.0.name == "" && r.0.ctorType == resolved
  {
    match KindOf(resolved)
    case Constructor => (resolved.value, [])
    case Class => (ConstructorFromNode(m, "", holder, resolved), [])
    case Dynamic => (ConstructorFromNode(m, "", holder, resolved), [])
    case _ => (ConstructorFromNode(m, "", holder, resolved), [Diagnostic(InvalidTypeNameInConstructor, m.decl.id)])
  }

  /** The outcome of merging one accessor into an abstract field. */
  datatype Merge = Merge(accessors: Accessors, errors: seq<Diagnostic>)

  /**
   * The getter/setter step of `buildAbstractField`. A getter is recorded, with its return
   * type as the field type, unless one is already there; a setter likewise, with the type of
   * its single parameter (Dynamic and an error when it has not exactly one). A second getter
   * or setter is reported at both declarations in a class, and ignored at top level.
   */
  function MergeAccessor(acc: Accessors, a: Element, returnType: Type, inClass: bool, dynamicType: Type, site: nat): (r: Merge)
    ensures a.mods.isGetter && acc.getter.None? ==>
      r == Merge(acc.(getter := Some(a), fieldType := Some(returnType)), [])
    ensures a.mods.isGetter && acc.getter.Some? ==> r.accessors == acc
    ensures a.mods.isGetter && acc.getter.Some? ==>
      r.errors == if inClass then DuplicateDeclarationReport(DuplicateMember, acc.getter.value) + DuplicateDeclarationReport(DuplicateMember, a) else []
    ensures !a.mods.isGetter && a.mods.isSetter && acc.setter.None? ==>
      r.accessors.setter == Some(a) && r.accessors.getter == acc.getter
    ensures !a.mods.isGetter && a.mods.isSetter && acc.setter.None? ==>
      (|a.params| == 1 <==> r.errors == []) &&
      r.accessors.fieldType == if |a.params| == 1 then a.params[0].elemType else Some(dynamicType)
    ensures !a.mods.isGetter && a.mods.isSetter && acc.setter.None? && |a.params| != 1 ==>
      r.errors == [Diagnostic(ExpectedOneArgument, site)]
    ensures !a.mods.isGetter && a.mods.isSetter && acc.setter.Some? ==> r.accessors == acc
    ensures !a.mods.isGetter && a.mods.isSetter && acc.setter.Some? ==>
      r.errors == if inClass then DuplicateDeclarationReport(DuplicateMember, acc.setter.value) + DuplicateDeclarationReport(DuplicateMember, a) else []
    ensures !a.mods.isGetter && !a.mods.isSetter ==> r == Merge(acc, [])
  {
    if a.mods.isGetter then
      if acc.getter.Some? then
        Merge(acc, if inClass then DuplicateDeclarationReport(DuplicateMember, acc.getter.value) + DuplicateDeclarationReport(DuplicateMember, a) else [])
      else Merge(acc.(getter := Some(a), fieldType := Some(returnType)), [])
    else if a.mods.isSetter then
      if acc.setter.Some? then
        Merge(acc, if inClass then DuplicateDeclarationReport(DuplicateMember, acc.setter.value) + DuplicateDeclarationReport(DuplicateMember, a) else [])
      else if |a.params| != 1 then
        Merge(acc.(setter := Some(a), fieldType := Some(dynamicType)), [Diagnostic(ExpectedOneArgument, site)])
      else Merge(acc.(setter := Some(a), fieldType := a.params[0].elemType), [])
    else Merge(acc, [])
  }

  /** A getter and then a one-parameter setter of a name merge into one field, without errors. */
  lemma GetterThenSetterMerge(g: Element, gType: Type, s: Element, sType: Type, inClass: bool, dynamicType: Type, site: nat)
    requires g.mods.isGetter && !s.mods.isGetter && s.mods.isSetter && |s.params| == 1
    ensures var first := MergeAccessor(NoAccessors, g, gType, inClass, dynamicType, site);
      var second := MergeAccessor(first.accessors, s, sType, inClass, dynamicType, site);
      first.errors == [] && second.errors == [] &&
      second.accessors == Accessors(Some(g), Some(s), s.params[0].elemType)
  {
  }

  /** A setter and then a getter of a name merge into one field typed by the getter. */
  lemma SetterThenGetterMerge(s: Element, sType: Type, g: Element, gType: Type, inClass: bool, dynamicType: Type, site: nat)
    requires g.mods.isGetter && !s.mods.isGetter && s.mods.isSetter
    ensures var first := MergeAccessor(NoAccessors, s, sType, inClass, dynamicType, site);
      var second := MergeAccessor(first.accessors, g, gType, inClass, dynamicType, site);
      second.errors == [] && second.accessors == Accessors(Some(g), Some(s), Some(gType))
  {
  }

  /** A second getter is reported twice in a class, at the first getter then at the second, and never at top level. */
  lemma SecondGetterReported(acc: Accessors, g: Element, gType: Type, dynamicType: Type, site: nat)
    requires acc.getter.Some? && g.mods.isGetter
    requires acc.getter.value.node.Some? && acc.getter.value.node.value.isDeclaration
    requires g.node.Some? && g.node.value.isDeclaration
    ensures MergeAccessor(acc, g, gType, true, dynamicType, site).errors ==
      [Diagnostic(DuplicateMember, acc.getter.value.node.value.id), Diagnostic(DuplicateMember, g.node.value.id)]
    ensures MergeAccessor(acc, g, gType, false, dynamicType, site).errors == []
  {
  }

  /**
   * `buildField`: a field built here gets `FieldModifiers` and passes the uniqueness check; a
   * top-level field already built by the top-level pass is only added. Either way the field
   * gets the definition's type and becomes the node's symbol.
   */
  method BuildField(holder: Holder, f: FieldNode, fieldType: Type) returns (fieldElement: Element, errors: seq<Diagnostic>)
    requires !f.mods.isAbstractField
    requires f.ast.symbol.Some? ==> holder.element.kind == Library
    modifies holder`members, f.ast`symbol
    ensures old(f.ast.symbol).None? ==>
      fieldElement == FieldFromNode(f, holder.element, FieldModifiers(f.mods, holder.element.kind == Library)).(elemType := Some(fieldType))
    ensures old(f.ast.symbol).None? ==> errors == UniqueNameErrors(old(holder.ElementByName(f.ast.name)), fieldElement)
    ensures old(f.ast.symbol).Some? ==> fieldElement == old(f.ast.symbol).value.(elemType := Some(fieldType)) && errors == []
    ensures holder.members == old(holder.members) + [fieldElement]
    ensures f.ast.symbol == Some(fieldElement) && f.ast.nodeType == old(f.ast.nodeType)
  {
    var modifiers := FieldModifiers(f.mods, holder.element.kind == Library);
    if f.ast.symbol.None? {
      fieldElement := FieldFromNode(f, holder.element, modifiers).(elemType := Some(fieldType));
      errors := holder.AddMember(fieldElement);
    } else {
      fieldElement := f.ast.symbol.value.(elemType := Some(fieldType));
      holder.members := holder.members + [fieldElement];
      errors := [];
    }
    f.ast.symbol := Some(fieldElement);
  }

  /** The element reused by `buildAbstractField`: none, or an abstract field of that name. */
  function ReusableField(found: Option<Element>): (r: Option<Element>)
    ensures r.Some? <==> found.Some? && found.value.kind == Field && found.value.mods.isAbstractField
    ensures r.Some? ==> r == found
  {
    if found.Some? && found.value.kind == Field && found.value.mods.isAbstractField then found else None
  }

  /**
   * `buildAbstractField`: the accessor becomes a method element; the holder's abstract field
   * of that name is reused, or a new one is built and added; the accessor is merged into it.
   */
  method BuildAbstractField(holder: Holder, f: FieldNode, dynamicType: Type) returns (fieldElement: Element, errors: seq<Diagnostic>)
    requires f.mods.isAbstractField && f.accessor.Some? && f.accessor.value.ast != f.ast
    modifies holder`members, holder`accessors, f.ast`symbol, f.accessor.value.ast`symbol
    ensures ReusableField(old(holder.LookupLocalElement(f.ast.name))).Some? ==>
      fieldElement == old(holder.LookupLocalElement(f.ast.name)).value && holder.members == old(holder.members) &&
      errors == MergeOf(old(holder.accessors), fieldElement, f, holder.element.kind == Class, dynamicType, holder.element).errors
    ensures ReusableField(old(holder.LookupLocalElement(f.ast.name))).None? ==>
      fieldElement == FieldFromNode(f, holder.element, f.mods) && holder.members == old(holder.members) + [fieldElement] &&
      errors == UniqueNameErrors(old(holder.ElementByName(f.ast.name)), fieldElement)
        + MergeOf(old(holder.accessors), fieldElement, f, holder.element.kind == Class, dynamicType, holder.element).errors
    ensures holder.accessors == old(holder.accessors)[fieldElement.id :=
      MergeOf(old(holder.accessors), fieldElement, f, holder.element.kind == Class, dynamicType, holder.element).accessors]
    ensures f.ast.symbol == Some(fieldElement)
    ensures f.accessor.value.ast.symbol == Some(MethodFromNode(f.accessor.value, holder.element))
  {
    var accessorNode := f.accessor.value;
    var accessorElement := MethodFromNode(accessorNode, holder.element);
    accessorNode.ast.symbol := Some(accessorElement);
    fieldElement, errors := FieldForAccessor(holder, f);
    var mergeErrors := RecordAccessor(holder, fieldElement, f, dynamicType);
    errors := errors + mergeErrors;
    f.ast.symbol := Some(fieldElement);
  }

  /** The accessor of `f` joins the recorded accessors of `fieldElement`. */
  method RecordAccessor(holder: Holder, fieldElement: Element, f: FieldNode, dynamicType: Type) returns (errors: seq<Diagnostic>)
    requires f.accessor.Some?
    modifies holder`accessors
    ensures holder.accessors == old(holder.accessors)[fieldElement.id :=
      MergeOf(old(holder.accessors), fieldElement, f, holder.element.kind == Class, dynamicType, holder.element).accessors]
    ensures errors == MergeOf(old(holder.accessors), fieldElement, f, holder.element.kind == Class, dynamicType, holder.element).errors
  {
    var merge := MergeOf(holder.accessors, fieldElement, f, holder.element.kind == Class, dynamicType, holder.element);
    holder.accessors := holder.accessors[fieldElement.id := merge.accessors];
    errors := merge.errors;
  }

  /** The field `buildAbstractField` merges the accessor into: the holder's abstract field of that name, or a new one. */
  method FieldForAccessor(holder: Holder, f: FieldNode) returns (fieldElement: Element, errors: seq<Diagnostic>)
    modifies holder`members
    ensures ReusableField(old(holder.LookupLocalElement(f.ast.name))).Some? ==>
      fieldElement == old(holder.LookupLocalElement(f.ast.name)).value && holder.members == old(holder.members) && errors == []
    ensures ReusableField(old(holder.LookupLocalElement(f.ast.name))).None? ==>
      fieldElement == FieldFromNode(f, holder.element, f.mods) && holder.members == old(holder.members) + [fieldElement] &&
      errors == UniqueNameErrors(old(holder.ElementByName(f.ast.name)), fieldElement)
  {
    var element := holder.LookupLocalElement(f.ast.name);
    var reused := ReusableField(element);
    errors := [];
    if reused.Some? {
      fieldElement := reused.value;
    } else {
      fieldElement := FieldFromNode(f, holder.element, f.mods);
      errors := holder.AddMember(fieldElement);
    }
  }

  /** The merge `buildAbstractField` performs: the accessor joins the field's recorded accessors, if any. */
  function MergeOf(accessors: map<nat, Accessors>, fieldElement: Element, f: FieldNode, inClass: bool, dynamicType: Type, holder: Element): (r: Merge)
    requires f.accessor.Some?
    ensures fieldElement.id !in accessors ==>
      r == MergeAccessor(NoAccessors, MethodFromNode(f.accessor.value, holder), f.accessor.value.returnType, inClass, dynamicType, f.decl.id)
  {
    var acc := if fieldElement.id in accessors then accessors[fieldElement.id] else NoAccessors;
    MergeAccessor(acc, MethodFromNode(f.accessor.value, holder), f.accessor.value.returnType, inClass, dynamicType, f.decl.id)
  }

  /** A merge reports only duplicate accessors and setters without exactly one parameter. */
  lemma MergeErrorCodes(accessors: map<nat, Accessors>, fieldElement: Element, f: FieldNode, inClass: bool, dynamicType: Type, holder: Element)
    requires f.accessor.Some?
    ensures forall d :: d in MergeOf(accessors, fieldElement, f, inClass, dynamicType, holder).errors ==>
      d.code == DuplicateMember || d.code == ExpectedOneArgument
  {
  }

  /** The errors of building a constructor for `m`, from `getMethodKind` to the uniqueness check. */
  ghost function ConstructorBuildErrors(m: MethodNode, holder: Element, resolvedName: Option<Element>, other: Option<Element>): seq<Diagnostic>
    requires (holder.kind == Class && !m.mods.isFactory ==> !m.name.Parameterized?) && ConstructorNameResolves(resolvedName)
  {
    var built := BuildConstructor(m, holder, resolvedName);
    GetMethodKind(holder, m.mods.isFactory, m.name, m.decl.id).errors + built.1
      + ConstructorErrors(built.0, m.hasReturnType, m.decl.id) + UniqueNameErrors(other, built.0)
  }

  /** The `CONSTRUCTOR`/`NONE` branch of `visitMethodDefinition`. */
  method AddNewConstructor(holder: Holder, m: MethodNode, resolvedName: Option<Element>)
    returns (element: Element, errors: seq<Diagnostic>)
    requires (holder.element.kind == Class && !m.mods.isFactory ==> !m.name.Parameterized?) && ConstructorNameResolves(resolvedName)
    modifies holder`constructors
    ensures element == BuildConstructor(m, holder.element, resolvedName).0
    ensures holder.constructors == old(holder.constructors) + [element]
    ensures errors == ConstructorBuildErrors(m, holder.element, resolvedName, old(holder.ElementByName(element.name)))
  {
    var decision := GetMethodKind(holder.element, m.mods.isFactory, m.name, m.decl.id);
    var built := BuildConstructor(m, holder.element, resolvedName);
    element := built.0;
    errors := decision.errors + built.1 + ConstructorErrors(element, m.hasReturnType, m.decl.id);
    var uniqueness := holder.AddConstructor(element);
    errors := errors + uniqueness;
  }

  /** `visitMethodDefinition` for a method without a symbol: `getMethodKind` decides what is built. */
  method AddNewMethod(holder: Holder, m: MethodNode, resolvedName: Option<Element>)
    returns (element: Element, errors: seq<Diagnostic>)
    requires (holder.element.kind == Class && !m.mods.isFactory ==> !m.name.Parameterized?) && ConstructorNameResolves(resolvedName)
    modifies holder`members, holder`constructors
    ensures GetMethodKind(holder.element, m.mods.isFactory, m.name, m.decl.id).kind == Method ==>
      element == MethodFromNode(m, holder.element) && holder.members == old(holder.members) + [element] &&
      holder.constructors == old(holder.constructors) &&
      errors == UniqueNameErrors(old(holder.ElementByName(element.name)), element)
    ensures GetMethodKind(holder.element, m.mods.isFactory, m.name, m.decl.id).kind != Method ==>
      element == BuildConstructor(m, holder.element, resolvedName).0 &&
      holder.constructors == old(holder.constructors) + [element] && holder.members == old(holder.members) &&
      errors == ConstructorBuildErrors(m, holder.element, resolvedName, old(holder.ElementByName(element.name)))
  {
    var decision := GetMethodKind(holder.element, m.mods.isFactory, m.name, m.decl.id);
    errors := decision.errors;
    if decision.kind == Method {
      element := MethodFromNode(m, holder.element);
      var uniqueness := holder.AddMember(element);
      errors := errors + uniqueness;
    } else {
      element, errors := AddNewConstructor(holder, m, resolvedName);
    }
  }

  /**
   * `visitMethodDefinition`. A method without a symbol is built as `getMethodKind` decides:
   * a method, or (for `CONSTRUCTOR` and, after its error, `NONE`) a constructor, checked
   * for a return type; both pass the uniqueness check. A top-level method already built by the
   * top-level pass is only added. The modifiers are then checked and the element recorded.
   */
  method VisitMethodDefinition(holder: Holder, m: MethodNode, resolvedName: Option<Element>)
    returns (element: Element, errors: seq<Diagnostic>)
    requires holder.element.kind == Class && !m.mods.isFactory ==> !m.name.Parameterized?
    requires ConstructorNameResolves(resolvedName)
    requires m.ast.symbol.Some? ==> holder.element.kind == Library
    modifies holder`members, holder`constructors, m.ast`symbol
    ensures m.ast.symbol == Some(element)
    ensures old(m.ast.symbol).Some? ==>
      element == old(m.ast.symbol).value && holder.members == old(holder.members) + [element] &&
      holder.constructors == old(holder.constructors) && errors == ModifierErrors(element, m.mods, m.hasBody, m.decl.id)
    ensures old(m.ast.symbol).None? && GetMethodKind(holder.element, m.mods.isFactory, m.name, m.decl.id).kind == Method ==>
      element == MethodFromNode(m, holder.element) && holder.members == old(holder.members) + [element] &&
      holder.constructors == old(holder.constructors) &&
      errors == UniqueNameErrors(old(holder.ElementByName(element.name)), element) + ModifierErrors(element, m.mods, m.hasBody, m.decl.id)
    ensures old(m.ast.symbol).None? && GetMethodKind(holder.element, m.mods.isFactory, m.name, m.decl.id).kind != Method ==>
      element == BuildConstructor(m, holder.element, resolvedName).0 &&
      holder.constructors == old(holder.constructors) + [element] && holder.members == old(holder.members) &&
      errors == ConstructorBuildErrors(m, holder.element, resolvedName, old(holder.ElementByName(element.name)))
        + ModifierErrors(element, m.mods, m.hasBody, m.decl.id)
  {
    if m.ast.symbol.None? {
      element, errors := AddNewMethod(holder, m, resolvedName);
    } else {
      element := m.ast.symbol.value;
      holder.members := holder.members + [element];
      errors := [];
    }
    errors := errors + ModifierErrors(element, m.mods, m.hasBody, m.decl.id);
    m.ast.symbol := Some(element);
  }

  /** The AST nodes of the fields of a definition and of their accessors are distinct. */
  predicate DistinctFieldNodes(fields: seq<FieldNode>) {
    (forall i, j :: 0 <= i < j < |fields| ==> fields[i].ast != fields[j].ast)
    && (forall i, j :: 0 <= i < |fields| && 0 <= j < |fields| && fields[j].accessor.Some? ==> fields[i].ast != fields[j].accessor.value.ast)
    && (forall i, j :: 0 <= i < j < |fields| && fields[i].accessor.Some? && fields[j].accessor.Some? ==>
          fields[i].accessor.value.ast != fields[j].accessor.value.ast)
  }

  function FieldAsts(fields: seq<FieldNode>): set<AstNode> {
    set i | 0 <= i < |fields| :: fields[i].ast
  }

  function AccessorAsts(fields: seq<FieldNode>): set<AstNode> {
    set i | 0 <= i < |fields| && fields[i].accessor.Some? :: fields[i].accessor.value.ast
  }

  /** The AST node of a field's accessor, if it has one. */
  function AccessorAst(f: FieldNode): set<AstNode> {
    if f.accessor.Some? then {f.accessor.value.ast} else {}
  }

  /** The symbols of the field nodes. */
  ghost function Symbols(fields: seq<FieldNode>): (r: seq<Option<Element>>)
    reads FieldAsts(fields)`symbol
    ensures |r| == |fields|
    ensures forall i :: 0 <= i < |fields| ==> r[i] == fields[i].ast.symbol
  {
    if |fields| == 0 then []
    else
      assert FieldAsts(fields[1..]) <= FieldAsts(fields) by {
        forall i | 0 <= i < |fields| - 1
          ensures fields[1..][i].ast in FieldAsts(fields)
        {
          assert fields[1..][i] == fields[i + 1];
        }
      }
      [fields[0].ast.symbol] + Symbols(fields[1..])
  }

  /**
   * What `visitFieldDefinition` leaves in the node of a field whose symbol was `was`: a symbol;
   * for a field that is not abstract, the definition's type and, when it had no symbol, the field
   * built with `FieldModifiers`; for an abstract field, the node's name.
   */
  ghost predicate FieldBuilt(f: FieldNode, holder: Element, fieldType: Type, was: Option<Element>)
    reads f.ast`symbol
  {
    FieldBuiltAs(f, holder, fieldType, was, f.ast.symbol)
  }

  /** `FieldBuilt` for a node whose symbol is now `symbol`. */
  predicate FieldBuiltAs(f: FieldNode, holder: Element, fieldType: Type, was: Option<Element>, symbol: Option<Element>) {
    symbol.Some? &&
    (!f.mods.isAbstractField ==> symbol.value.elemType == Some(fieldType)) &&
    (!f.mods.isAbstractField && was.None? ==>
      symbol == Some(FieldFromNode(f, holder, FieldModifiers(f.mods, holder.kind == Library)).(elemType := Some(fieldType)))) &&
    (f.mods.isAbstractField ==> symbol.value.name == f.ast.name)
  }

  /** A field the definition can build: an abstract field has its accessor, an existing symbol is top level. */
  predicate BuildableField(f: FieldNode, holder: Element)
    reads f.ast`symbol
  {
    (f.mods.isAbstractField ==> f.accessor.Some?)
    && (!f.mods.isAbstractField && f.ast.symbol.Some? ==> holder.kind == Library)
  }

  /** What building one field leaves in the holder: its members, its accessors, the field's symbol and the errors. */
  datatype FieldOutcome = FieldOutcome(members: seq<Element>, accessors: map<nat, Accessors>, symbol: Element, errors: seq<Diagnostic>)

  /**
   * Building the field `f`, whose node had the symbol `symbol`, in a holder with these members,
   * constructors and accessors. An abstract field joins the holder's abstract field of its name
   * or is added as a new field after the uniqueness check, and its accessor is merged in. Any
   * other field is added with the definition's type: built with `FieldModifiers` after the
   * uniqueness check, or, at top level, the symbol the top-level pass built.
   */
  function BuildFieldOutcome(holder: Element, members: seq<Element>, constructors: seq<Element>,
                             accessors: map<nat, Accessors>, f: FieldNode, symbol: Option<Element>,
                             fieldType: Type, dynamicType: Type): FieldOutcome
    requires f.mods.isAbstractField ==> f.accessor.Some?
  {
    if f.mods.isAbstractField then
      var reused := ReusableField(FirstNamed(members, f.ast.name));
      var fieldElement := if reused.Some? then reused.value else FieldFromNode(f, holder, f.mods);
      var unique := if reused.Some? then [] else UniqueNameErrors(ElementIn(holder, members, constructors, f.ast.name), fieldElement);
      var merge := MergeOf(accessors, fieldElement, f, holder.kind == Class, dynamicType, holder);
      FieldOutcome(if reused.Some? then members else members + [fieldElement],
                   accessors[fieldElement.id := merge.accessors], fieldElement, unique + merge.errors)
    else if symbol.None? then
      var e := FieldFromNode(f, holder, FieldModifiers(f.mods, holder.kind == Library)).(elemType := Some(fieldType));
      FieldOutcome(members + [e], accessors, e, UniqueNameErrors(ElementIn(holder, members, constructors, e.name), e))
    else
      var e := symbol.value.(elemType := Some(fieldType));
      FieldOutcome(members + [e], accessors, e, [])
  }

  /**
   * A field that is not abstract adds exactly its symbol, with the definition's type; an abstract field's
   * symbol has the field's name and recorded accessors; the only errors are duplicates
   * and accessors with the wrong number of parameters.
   */
  lemma BuildFieldOutcomeShape(holder: Element, members: seq<Element>, constructors: seq<Element>,
                               accessors: map<nat, Accessors>, f: FieldNode, symbol: Option<Element>,
                               fieldType: Type, dynamicType: Type)
    requires f.mods.isAbstractField ==> f.accessor.Some?
    ensures var r := BuildFieldOutcome(holder, members, constructors, accessors, f, symbol, fieldType, dynamicType);
      (!f.mods.isAbstractField ==> r.members == members + [r.symbol] && r.accessors == accessors && r.symbol.elemType == Some(fieldType))
      && (f.mods.isAbstractField ==> r.symbol.name == f.ast.name && r.symbol.id in r.accessors)
      && (forall d :: d in r.errors ==> d.code == DuplicateMember || d.code == ExpectedOneArgument)
  {
    if f.mods.isAbstractField {
      var reused := ReusableField(FirstNamed(members, f.ast.name));
      var fieldElement := if reused.Some? then reused.value else FieldFromNode(f, holder, f.mods);
      MergeErrorCodes(accessors, fieldElement, f, holder.kind == Class, dynamicType, holder);
    }
  }

  /** One field's members extend the holder's by at most one, and by exactly one when it is not abstract. */
  lemma BuildFieldOutcomeGrows(holder: Element, members: seq<Element>, constructors: seq<Element>,
                               accessors: map<nat, Accessors>, f: FieldNode, symbol: Option<Element>,
                               fieldType: Type, dynamicType: Type)
    requires f.mods.isAbstractField ==> f.accessor.Some?
    ensures var r := BuildFieldOutcome(holder, members, constructors, accessors, f, symbol, fieldType, dynamicType);
      members <= r.members && |r.members| <= |members| + 1 && (!f.mods.isAbstractField ==> |r.members| == |members| + 1)
  {
  }

  /** Every abstract field of the definition carries its accessor. */
  predicate AccessorsPresent(fields: seq<FieldNode>) {
    forall i :: 0 <= i < |fields| && fields[i].mods.isAbstractField ==> fields[i].accessor.Some?
  }

  /** What building fields leaves: the holder's members and accessors, each field's symbol, and the errors. */
  datatype FieldsState = FieldsState(members: seq<Element>, accessors: map<nat, Accessors>, symbols: seq<Element>,
                                     errors: seq<Diagnostic>)

  /** Building the first `n` fields in order, each field `i` with the symbol `symbols[i]` before. */
  function FieldsOutcome(holder: Element, members: seq<Element>, constructors: seq<Element>, accessors: map<nat, Accessors>,
                         fields: seq<FieldNode>, symbols: seq<Option<Element>>, fieldType: Type, dynamicType: Type, n: nat)
    : (r: FieldsState)
    requires |symbols| == |fields| && AccessorsPresent(fields) && n <= |fields|
    ensures |r.symbols| == n
  {
    if n == 0 then FieldsState(members, accessors, [], [])
    else
      var before := FieldsOutcome(holder, members, constructors, accessors, fields, symbols, fieldType, dynamicType, n - 1);
      var last := BuildFieldOutcome(holder, before.members, constructors, before.accessors, fields[n - 1], symbols[n - 1], fieldType, dynamicType);
      FieldsState(last.members, last.accessors, before.symbols + [last.symbol], before.errors + last.errors)
  }

  /**
   * A field definition only adds members after the holder's: at most one per field, and
   * exactly one per field when none of its fields is abstract.
   */
  lemma {:induction false} FieldsAddMembers(holder: Element, members: seq<Element>, constructors: seq<Element>,
                                            accessors: map<nat, Accessors>, fields: seq<FieldNode>,
                                            symbols: seq<Option<Element>>, fieldType: Type, dynamicType: Type, n: nat)
    requires |symbols| == |fields| && AccessorsPresent(fields) && n <= |fields|
    ensures var ms := FieldsOutcome(holder, members, constructors, accessors, fields, symbols, fieldType, dynamicType, n).members;
      members <= ms && |ms| <= |members| + n
    ensures (forall i :: 0 <= i < n ==> !fields[i].mods.isAbstractField) ==>
      |FieldsOutcome(holder, members, constructors, accessors, fields, symbols, fieldType, dynamicType, n).members| == |members| + n
  {
    if n > 0 {
      FieldsAddMembers(holder, members, constructors, accessors, fields, symbols, fieldType, dynamicType, n - 1);
      var before := FieldsOutcome(holder, members, constructors, accessors, fields, symbols, fieldType, dynamicType, n - 1);
      BuildFieldOutcomeGrows(holder, before.members, constructors, before.accessors, fields[n - 1], symbols[n - 1], fieldType, dynamicType);
    }
  }

  /** The symbol the `k`-th field ends with is built as `FieldBuiltAs` states. */
  lemma {:induction false} FieldsOutcomeBuilt(holder: Element, members: seq<Element>, constructors: seq<Element>,
                                              accessors: map<nat, Accessors>, fields: seq<FieldNode>,
                                              symbols: seq<Option<Element>>, fieldType: Type, dynamicType: Type, n: nat, k: nat)
    requires |symbols| == |fields| && AccessorsPresent(fields) && k < n <= |fields|
    ensures FieldBuiltAs(fields[k], holder, fieldType, symbols[k],
                         Some(FieldsOutcome(holder, members, constructors, accessors, fields, symbols, fieldType, dynamicType, n).symbols[k]))
  {
    var before := FieldsOutcome(holder, members, constructors, accessors, fields, symbols, fieldType, dynamicType, n - 1);
    var last := BuildFieldOutcome(holder, before.members, constructors, before.accessors, fields[n - 1], symbols[n - 1], fieldType, dynamicType);
    var r := FieldsOutcome(holder, members, constructors, accessors, fields, symbols, fieldType, dynamicType, n);
    assert r.symbols == before.symbols + [last.symbol];
    if k == n - 1 {
      BuildFieldOutcomeBuilt(holder, before.members, constructors, before.accessors, fields[n - 1], symbols[n - 1], fieldType, dynamicType);
    } else {
      FieldsOutcomeBuilt(holder, members, constructors, accessors, fields, symbols, fieldType, dynamicType, n - 1, k);
      assert r.symbols[k] == before.symbols[k];
    }
  }

  /** The symbol one field ends with is built as `FieldBuiltAs` states. */
  lemma BuildFieldOutcomeBuilt(holder: Element, members: seq<Element>, constructors: seq<Element>,
                               accessors: map<nat, Accessors>, f: FieldNode, symbol: Option<Element>,
                               fieldType: Type, dynamicType: Type)
    requires f.mods.isAbstractField ==> f.accessor.Some?
    ensures FieldBuiltAs(f, holder, fieldType, symbol,
                         Some(BuildFieldOutcome(holder, members, constructors, accessors, f, symbol, fieldType, dynamicType).symbol))
  {
  }

  /** Nodes holding the symbols the fields end with are built as `FieldBuilt` states. */
  lemma SymbolsBuilt(holder: Element, members: seq<Element>, constructors: seq<Element>, accessors: map<nat, Accessors>,
                     fields: seq<FieldNode>, was: seq<Option<Element>>, fieldType: Type, dynamicType: Type)
    requires |was| == |fields| && AccessorsPresent(fields)
    requires var r := FieldsOutcome(holder, members, constructors, accessors, fields, was, fieldType, dynamicType, |fields|);
      forall i :: 0 <= i < |fields| ==> fields[i].ast.symbol == Some(r.symbols[i])
    ensures forall i :: 0 <= i < |fields| ==> FieldBuilt(fields[i], holder, fieldType, was[i])
  {
    forall k | 0 <= k < |fields|
      ensures FieldBuilt(fields[k], holder, fieldType, was[k])
    {
      FieldsOutcomeBuilt(holder, members, constructors, accessors, fields, was, fieldType, dynamicType, |fields|, k);
    }
  }

  /**
   * `visitFieldDefinition`: builds each field in order, an abstract field by
   * `buildAbstractField` and any other by `buildField` with the definition's type, as
   * `FieldsOutcome` states, and every field node ends with its symbol there; by
   * `SymbolsBuilt` each node is then as `FieldBuilt` states, so a field built here gets
   * `FieldModifiers`.
   */
  method VisitFieldDefinition(holder: Holder, fields: seq<FieldNode>, fieldType: Type, dynamicType: Type)
    returns (errors: seq<Diagnostic>)
    requires DistinctFieldNodes(fields)
    requires forall i :: 0 <= i < |fields| ==> BuildableField(fields[i], holder.element)
    requires AccessorsPresent(fields)
    modifies holder`members, holder`accessors, FieldAsts(fields)`symbol, AccessorAsts(fields)`symbol
    ensures var r := FieldsOutcome(holder.element, old(holder.members), holder.constructors, old(holder.accessors), fields,
                                   old(Symbols(fields)), fieldType, dynamicType, |fields|);
      holder.members == r.members && holder.accessors == r.accessors && errors == r.errors
      && forall i :: 0 <= i < |fields| ==> fields[i].ast.symbol == Some(r.symbols[i])
  {
    ghost var was := Symbols(fields);
    ghost var members0, accessors0 := holder.members, holder.accessors;
    errors := [];
    for i := 0 to |fields|
      invariant forall k :: i <= k < |fields| ==> fields[k].ast.symbol == was[k]
      invariant var r := FieldsOutcome(holder.element, members0, holder.constructors, accessors0, fields, was, fieldType, dynamicType, i);
        holder.members == r.members && holder.accessors == r.accessors && errors == r.errors
        && forall k :: 0 <= k < i ==> fields[k].ast.symbol == Some(r.symbols[k])
    {
      OthersUntouched(fields, i);
      errors := BuildNthField(holder, fields, i, fieldType, dynamicType, was, members0, accessors0, errors);
    }
  }

  /** The `i`-th step of `visitFieldDefinition`: `FieldsOutcome` of one more field. */
  method BuildNthField(holder: Holder, fields: seq<FieldNode>, i: nat, fieldType: Type, dynamicType: Type,
                       ghost was: seq<Option<Element>>, ghost members0: seq<Element>, ghost accessors0: map<nat, Accessors>,
                       errors0: seq<Diagnostic>)
    returns (errors: seq<Diagnostic>)
    requires i < |fields| && |was| == |fields| && AccessorsPresent(fields)
    requires BuildableField(fields[i], holder.element) && fields[i].ast.symbol == was[i]
    requires fields[i].accessor.Some? ==> fields[i].accessor.value.ast != fields[i].ast
    requires var r := FieldsOutcome(holder.element, members0, holder.constructors, accessors0, fields, was, fieldType, dynamicType, i);
      holder.members == r.members && holder.accessors == r.accessors && errors0 == r.errors
    modifies holder`members, holder`accessors, fields[i].ast`symbol, AccessorAst(fields[i])`symbol
    ensures var before := FieldsOutcome(holder.element, members0, holder.constructors, accessors0, fields, was, fieldType, dynamicType, i);
      var r := FieldsOutcome(holder.element, members0, holder.constructors, accessors0, fields, was, fieldType, dynamicType, i + 1);
      holder.members == r.members && holder.accessors == r.accessors && errors == r.errors
      && fields[i].ast.symbol.Some? && r.symbols == before.symbols + [fields[i].ast.symbol.value]
  {
    var more := BuildOneField(holder, fields[i], fieldType, dynamicType);
    errors := errors0 + more;
  }

  /** Building the `i`-th field leaves the nodes of the other fields alone. */
  lemma OthersUntouched(fields: seq<FieldNode>, i: nat)
    requires DistinctFieldNodes(fields) && i < |fields|
    ensures fields[i].accessor.Some? ==> fields[i].accessor.value.ast != fields[i].ast
    ensures forall k :: 0 <= k < |fields| && k != i ==> fields[k].ast != fields[i].ast && fields[k].ast !in AccessorAst(fields[i])
  {
  }

  /** One field of `visitFieldDefinition`, as `BuildFieldOutcome` states. */
  method BuildOneField(holder: Holder, f: FieldNode, fieldType: Type, dynamicType: Type) returns (errors: seq<Diagnostic>)
    requires BuildableField(f, holder.element)
    requires f.accessor.Some? ==> f.accessor.value.ast != f.ast
    modifies holder`members, holder`accessors, f.ast`symbol, AccessorAst(f)`symbol
    ensures var r := BuildFieldOutcome(holder.element, old(holder.members), holder.constructors, old(holder.accessors),
                                       f, old(f.ast.symbol), fieldType, dynamicType);
      holder.members == r.members && holder.accessors == r.accessors && errors == r.errors && f.ast.symbol == Some(r.symbol)
    ensures FieldBuilt(f, holder.element, fieldType, old(f.ast.symbol))
  {
    var built: Element;
    if f.mods.isAbstractField {
      built, errors := BuildAbstractField(holder, f, dynamicType);
    } else {
      built, errors := BuildField(holder, f, fieldType);
    }
  }
}
