/**
 * The constructor rules of `Resolver`: finding the default-class constructor that an
 * interface constructor stands for, checking that interface constructors have such
 * constructors with matching parameters, choosing the constructor of a `new` expression,
 * and detecting redirecting-constructor cycles.
 */
module ResolverConstructors {
  import opened Wrappers
  import opened ElementModel
  import Strings
  import Elements
  import ResolveVisitor

  /** Where an error about an element is reported: its node, or the element itself when it has none. */
  function Site(e: Element): (s: nat)
    ensures e.node.Some? ==> s == e.node.value.id
  {
    if e.node.Some? then e.node.value.id else e.id
  }

  /**
   * A `SyntheticDefaultConstructorElement` of a class: no node, no parameters, unnamed.
   * Its raw name is therefore the class's name.
   */
  function SyntheticDefaultConstructor(cls: Element): (c: Element)
    ensures c.kind == Constructor && c.node.None? && c.params == [] && c.enclosing == Some(cls) && c.ctorType == Some(cls)
    ensures Elements.IsSyntheticConstructor(Some(c)) && Elements.IsDefaultConstructor(Some(c))
  {
    Element(cls.id, "", Constructor, NoModifiers, Some(cls), None, [], None, Some(cls))
  }

  /** `lookupConstructor(cls, name)`: the first constructor of the class with that name. */
  function LookupConstructor(cls: ClassInfo, name: string): (r: Option<Element>)
    ensures r.Some? ==> r.value in cls.constructors && r.value.name == name
    ensures r.None? <==> forall i :: 0 <= i < |cls.constructors| ==> cls.constructors[i].name != name
  {
    FirstNamed(cls.constructors, name)
  }

  function FirstNamed(cs: seq<Element>, name: string): (r: Option<Element>)
    ensures r.Some? ==> r.value in cs && r.value.name == name
    ensures r.None? <==> forall i :: 0 <= i < |cs| ==> cs[i].name != name
  {
    if |cs| == 0 then None
    else if cs[0].name == name then Some(cs[0])
    else
      var r := FirstNamed(cs[1..], name);
      assert forall i :: 0 < i < |cs| ==> cs[i] == cs[1..][i - 1];
      r
  }

  /**
   * The correspondence rule between the raw name of an interface constructor and that of a
   * default-class constructor. When the default class implements the interface, `I` matches
   * `F` and `I.id` matches `F.id` (I, F the class names); otherwise the raw names are equal.
   */
  predicate Corresponds(implementing: bool, rawOriginal: string, originalClassName: string,
                        rawDefault: string, defaultClassName: string)
  {
    if implementing then
      (rawOriginal == originalClassName && rawDefault == defaultClassName)
      || ('.' in rawOriginal && '.' in rawDefault
          && Strings.SubstringBefore(rawDefault, '.') == defaultClassName
          && Strings.SubstringBefore(rawOriginal, '.') == originalClassName
          && Strings.SubstringAfter(rawDefault, '.') == Strings.SubstringAfter(rawOriginal, '.'))
    else rawDefault == rawOriginal
  }

  /** Constructors whose raw names can be computed. */
  predicate AllHaveRawNames(cs: seq<Element>) {
    forall i :: 0 <= i < |cs| ==> Elements.HasRawName(cs[i])
  }

  /** The first constructor of `cs` corresponding to the interface constructor. */
  function FirstCorresponding(cs: seq<Element>, implementing: bool, rawOriginal: string,
                              originalClassName: string, defaultClassName: string): (r: Option<Element>)
    requires AllHaveRawNames(cs)
    ensures r.None? <==> forall i :: 0 <= i < |cs| ==>
      !Corresponds(implementing, rawOriginal, originalClassName, Elements.RawMethodName(cs[i]), defaultClassName)
    ensures r.Some? ==>
      exists i :: 0 <= i < |cs| && cs[i] == r.value &&
        Corresponds(implementing, rawOriginal, originalClassName, Elements.RawMethodName(cs[i]), defaultClassName) &&
        forall j :: 0 <= j < i ==> !Corresponds(implementing, rawOriginal, originalClassName, Elements.RawMethodName(cs[j]), defaultClassName)
  {
    if |cs| == 0 then None
    else if Corresponds(implementing, rawOriginal, originalClassName, Elements.RawMethodName(cs[0]), defaultClassName) then Some(cs[0])
    else
      var r := FirstCorresponding(cs[1..], implementing, rawOriginal, originalClassName, defaultClassName);
      assert forall i :: 0 < i < |cs| ==> cs[i] == cs[1..][i - 1];
      r
  }

  /**
   * A constructor the default-class lookup can work on: it knows its class, it and the
   * default class's constructors have raw names, and a default class names its element.
   */
  predicate Resolvable(c: Element, classOf: Element -> ClassInfo) {
    c.ctorType.Some? && Elements.HasRawName(c) && c.enclosing.Some?
    && (classOf(c.ctorType.value).defaultClass.Some? ==>
          var dt := classOf(c.ctorType.value).defaultClass.value;
          dt.element.Some? && AllHaveRawNames(classOf(dt.element.value).constructors))
  }

  /** What a lookup in the default class yields: a constructor or none, and its errors. */
  datatype Outcome = Outcome(ctor: Option<Element>, errors: seq<Diagnostic>)

  /** The default class of a constructor's class, when it has one. */
  function DefaultClassOf(c: Element, classOf: Element -> ClassInfo): (d: Option<Element>)
    requires Resolvable(c, classOf)
    ensures d.Some? <==> classOf(c.ctorType.value).defaultClass.Some?
  {
    var info := classOf(c.ctorType.value);
    if info.defaultClass.None? then None else info.defaultClass.value.element
  }

  /**
   * `resolveInterfaceConstructorInDefaultClass`: without a default class the constructor is
   * kept; otherwise the first default-class constructor that corresponds to it; failing that,
   * for a default constructor that is synthetic or whose default class implements the
   * interface, the default class's implicit constructor when it needs one; failing that,
   * `DEFAULT_CONSTRUCTOR_UNRESOLVED` and none.
   */
  function DefaultClassConstructor(site: nat, ctor: Option<Element>, classOf: Element -> ClassInfo): (r: Outcome)
    requires ctor.Some? ==> Resolvable(ctor.value, classOf)
    ensures ctor.None? || DefaultClassOf(ctor.value, classOf).None? ==> r == Outcome(ctor, [])
    ensures r.errors != [] ==> r.ctor.None? && r.errors == [Diagnostic(DefaultConstructorUnresolved, site)]
    ensures ctor.Some? && r.ctor.None? ==> r.errors == [Diagnostic(DefaultConstructorUnresolved, site)]
    ensures ctor.Some? && DefaultClassOf(ctor.value, classOf).Some? && r.ctor.Some? ==>
      var original := ctor.value;
      var defaultClass := DefaultClassOf(original, classOf).value;
      var implementing := Elements.Implements(classOf(defaultClass), original.ctorType.value);
      (r.ctor.value in classOf(defaultClass).constructors &&
       Corresponds(implementing, Elements.RawMethodName(original), original.ctorType.value.name,
                   Elements.RawMethodName(r.ctor.value), defaultClass.name))
      || r.ctor == Some(SyntheticDefaultConstructor(defaultClass))
  {
    if ctor.None? || DefaultClassOf(ctor.value, classOf).None? then Outcome(ctor, [])
    else
      var original := ctor.value;
      var originalClass := original.ctorType.value;
      var defaultClass := DefaultClassOf(original, classOf).value;
      var implementing := Elements.Implements(classOf(defaultClass), originalClass);
      var found := FirstCorresponding(classOf(defaultClass).constructors, implementing,
        Elements.RawMethodName(original), originalClass.name, defaultClass.name);
      if found.Some? then Outcome(found, [])
      else if Elements.IsDefaultConstructor(ctor) && (Elements.IsSyntheticConstructor(ctor) || implementing)
        && Elements.NeedsImplicitDefaultConstructor(classOf(defaultClass))
      then Outcome(Some(SyntheticDefaultConstructor(defaultClass)), [])
      else Outcome(None, [Diagnostic(DefaultConstructorUnresolved, site)])
  }

  /** The name the unresolved-constructor error asks for in the default class. */
  function ExpectedConstructorName(implementing: bool, rawOriginal: string, defaultClassName: string): (r: string)
    ensures !implementing ==> r == rawOriginal
  {
    if implementing then
      if '.' !in rawOriginal then defaultClassName else defaultClassName + "." + Strings.SubstringAfter(rawOriginal, '.')
    else rawOriginal
  }

  /**
   * The expected name is the one that would have resolved: a default-class constructor
   * spelt that way corresponds to the interface constructor.
   */
  lemma ExpectedNameCorresponds(implementing: bool, rawOriginal: string, originalClassName: string, defaultClassName: string)
    requires '.' !in defaultClassName
    requires implementing ==>
      ('.' !in rawOriginal ==> rawOriginal == originalClassName) &&
      ('.' in rawOriginal ==> Strings.SubstringBefore(rawOriginal, '.') == originalClassName)
    ensures Corresponds(implementing, rawOriginal, originalClassName,
                        ExpectedConstructorName(implementing, rawOriginal, defaultClassName), defaultClassName)
  {
    if implementing && '.' in rawOriginal {
      var after := Strings.SubstringAfter(rawOriginal, '.');
      var expected := defaultClassName + "." + after;
      assert expected[|defaultClassName|] == '.';
      assert '.' in expected;
      var k := Strings.IndexOf(expected, '.');
      assert k == |defaultClassName| by {
        assert forall i :: 0 <= i < |defaultClassName| ==> expected[i] == defaultClassName[i];
      }
      assert expected[..k] == defaultClassName;
      assert expected[k + 1..] == after;
    }
  }

  /**
   * The name comparison of `resolveInterfaceConstructorInDefaultClass` for one default-class
   * constructor, on the parts of the interface constructor's name computed once.
   */
  method RawNamesCorrespond(implementing: bool, rawOriginal: string, originalClassName: string,
                            rawDefault: string, defaultClassName: string) returns (matches: bool)
    ensures matches == Corresponds(implementing, rawOriginal, originalClassName, rawDefault, defaultClassName)
  {
    if implementing {
      matches := rawOriginal == originalClassName && rawDefault == defaultClassName;
      var originalDotIndex := Strings.IndexOf(rawOriginal, '.');
      if !matches && originalDotIndex != -1 {
        var defaultDotIndex := Strings.IndexOf(rawDefault, '.');
        if defaultDotIndex != -1 {
          var originalQualifier := Strings.SubstringBefore(rawOriginal, '.');
          var originalName := Strings.SubstringAfter(rawOriginal, '.');
          var defaultQualifier := Strings.SubstringBefore(rawDefault, '.');
          var defaultName := Strings.SubstringAfter(rawDefault, '.');
          matches := defaultQualifier == defaultClassName && originalQualifier == originalClassName && defaultName == originalName;
        }
      }
    } else {
      matches := rawDefault == rawOriginal;
    }
  }

  /** The search loop: the first default-class constructor whose raw name corresponds. */
  method FindCorresponding(cs: seq<Element>, implementing: bool, rawOriginal: string,
                           originalClassName: string, defaultClassName: string) returns (r: Option<Element>)
    requires AllHaveRawNames(cs)
    ensures r == FirstCorresponding(cs, implementing, rawOriginal, originalClassName, defaultClassName)
  {
    var i := 0;
    while i < |cs|
      invariant 0 <= i <= |cs|
      invariant FirstCorresponding(cs, implementing, rawOriginal, originalClassName, defaultClassName)
             == FirstCorresponding(cs[i..], implementing, rawOriginal, originalClassName, defaultClassName)
    {
      var matches := RawNamesCorrespond(implementing, rawOriginal, originalClassName, Elements.RawMethodName(cs[i]), defaultClassName);
      if matches {
        return Some(cs[i]);
      }
      assert cs[i..][1..] == cs[i + 1..];
      i := i + 1;
    }
    return None;
  }

  /**
   * `resolveInterfaceConstructorInDefaultClass`, searching the default class's constructors
   * in order.
   */
  method ResolveInterfaceConstructorInDefaultClass(site: nat, ctor: Option<Element>, classOf: Element -> ClassInfo)
    returns (r: Outcome)
    requires ctor.Some? ==> Resolvable(ctor.value, classOf)
    ensures r == DefaultClassConstructor(site, ctor, classOf)
  {
    if ctor.None? || classOf(ctor.value.ctorType.value).defaultClass.None? {
      return Outcome(ctor, []);
    }
    var original := ctor.value;
    var originalClass := original.ctorType.value;
    var defaultClass := classOf(originalClass).defaultClass.value.element.value;
    var factoryImplementsInterface := Elements.ImplementsType(classOf(defaultClass), originalClass);
    var found := FindCorresponding(classOf(defaultClass).constructors, factoryImplementsInterface,
      Elements.RawMethodName(original), originalClass.name, defaultClass.name);
    if found.Some? {
      return Outcome(found, []);
    }
    if Elements.IsDefaultConstructor(ctor) && (Elements.IsSyntheticConstructor(ctor) || factoryImplementsInterface)
      && Elements.NeedsImplicitDefaultConstructor(classOf(defaultClass))
    {
      return Outcome(Some(SyntheticDefaultConstructor(defaultClass)), []);
    }
    return Outcome(None, [Diagnostic(DefaultConstructorUnresolved, site)]);
  }

  /**
   * The errors `checkInteraceConstructors` reports for one interface constructor: those of
   * the default-class lookup, then, when one is found, a mismatch in the number of required
   * parameters and a mismatch in the ordered list of named parameters.
   */
  function CorrespondenceErrors(c: Element, classOf: Element -> ClassInfo): (r: seq<Diagnostic>)
    requires Resolvable(c, classOf)
    ensures var found := DefaultClassConstructor(Site(c), Some(c), classOf).ctor;
      found.Some? ==>
        (Diagnostic(DefaultConstructorNumberOfRequiredParameters, Site(c)) in r <==>
           |Elements.RequiredParameters(c.params)| != |Elements.RequiredParameters(found.value.params)|) &&
        (Diagnostic(DefaultConstructorNamedParameters, Site(c)) in r <==>
           Elements.NamedParameterNames(c.params) != Elements.NamedParameterNames(found.value.params))
    ensures DefaultClassConstructor(Site(c), Some(c), classOf).ctor.None? ==>
      r == DefaultClassConstructor(Site(c), Some(c), classOf).errors
  {
    var outcome := DefaultClassConstructor(Site(c), Some(c), classOf);
    if outcome.ctor.None? then outcome.errors
    else
      var d := outcome.ctor.value;
      (if |Elements.RequiredParameters(c.params)| != |Elements.RequiredParameters(d.params)|
       then [Diagnostic(DefaultConstructorNumberOfRequiredParameters, Site(c))] else [])
      + (if Elements.NamedParameterNames(c.params) != Elements.NamedParameterNames(d.params)
         then [Diagnostic(DefaultConstructorNamedParameters, Site(c))] else [])
  }

  predicate AllResolvable(cs: seq<Element>, classOf: Element -> ClassInfo) {
    forall i :: 0 <= i < |cs| ==> Resolvable(cs[i], classOf)
  }

  /** The errors for a sequence of interface constructors, in order. */
  function AllCorrespondenceErrors(cs: seq<Element>, classOf: Element -> ClassInfo): seq<Diagnostic>
    requires AllResolvable(cs, classOf)
    decreases |cs|
  {
    if |cs| == 0 then []
    else AllCorrespondenceErrors(cs[..|cs| - 1], classOf) + CorrespondenceErrors(cs[|cs| - 1], classOf)
  }

  /** The (interface constructor, default constructor) pairs recorded, in order. */
  function DefaultConstructorPairs(cs: seq<Element>, classOf: Element -> ClassInfo): seq<(Element, Element)>
    requires AllResolvable(cs, classOf)
    decreases |cs|
  {
    if |cs| == 0 then []
    else
      var c := cs[|cs| - 1];
      var found := DefaultClassConstructor(Site(c), Some(c), classOf).ctor;
      DefaultConstructorPairs(cs[..|cs| - 1], classOf) + (if found.Some? then [(c, found.value)] else [])
  }

  /** One step of `checkInteraceConstructors`: the lookup, then the parameter comparison. */
  method CheckInterfaceConstructor(interfaceConstructor: Element, classOf: Element -> ClassInfo)
    returns (errors: seq<Diagnostic>, found: Option<Element>)
    requires Resolvable(interfaceConstructor, classOf)
    ensures errors == CorrespondenceErrors(interfaceConstructor, classOf)
    ensures found == DefaultClassConstructor(Site(interfaceConstructor), Some(interfaceConstructor), classOf).ctor
  {
    var outcome := ResolveInterfaceConstructorInDefaultClass(Site(interfaceConstructor), Some(interfaceConstructor), classOf);
    errors := outcome.errors;
    found := outcome.ctor;
    if found.Some? {
      var defaultConstructor := found.value;
      var numReqInterface := Elements.GetNumberOfRequiredParameters(interfaceConstructor);
      var numReqDefault := Elements.GetNumberOfRequiredParameters(defaultConstructor);
      if numReqInterface != numReqDefault {
        errors := errors + [Diagnostic(DefaultConstructorNumberOfRequiredParameters, Site(interfaceConstructor))];
      }
      var interfaceNames := Elements.GetNamedParameters(interfaceConstructor);
      var defaultNames := Elements.GetNamedParameters(defaultConstructor);
      if interfaceNames != defaultNames {
        errors := errors + [Diagnostic(DefaultConstructorNamedParameters, Site(interfaceConstructor))];
      }
    }
  }

  /**
   * `checkInteraceConstructors`: each interface constructor is looked up in the default
   * class; a found one is recorded as its default constructor and its parameters compared.
   */
  method CheckInterfaceConstructors(interfaceInfo: ClassInfo, classOf: Element -> ClassInfo)
    returns (errors: seq<Diagnostic>, defaults: seq<(Element, Element)>)
    requires AllResolvable(interfaceInfo.constructors, classOf)
    ensures errors == AllCorrespondenceErrors(interfaceInfo.constructors, classOf)
    ensures defaults == DefaultConstructorPairs(interfaceInfo.constructors, classOf)
  {
    var cs := interfaceInfo.constructors;
    errors := [];
    defaults := [];
    for i := 0 to |cs|
      invariant errors == AllCorrespondenceErrors(cs[..i], classOf)
      invariant defaults == DefaultConstructorPairs(cs[..i], classOf)
    {
      CheckedStep(cs, i, classOf);
      var more, found := CheckInterfaceConstructor(cs[i], classOf);
      errors := errors + more;
      if found.Some? {
        defaults := defaults + [(cs[i], found.value)];
      }
    }
    assert cs[..|cs|] == cs;
  }

  lemma CheckedStep(cs: seq<Element>, i: nat, classOf: Element -> ClassInfo)
    requires AllResolvable(cs, classOf) && i < |cs|
    ensures AllResolvable(cs[..i + 1], classOf)
    ensures AllCorrespondenceErrors(cs[..i + 1], classOf) ==
      AllCorrespondenceErrors(cs[..i], classOf) + CorrespondenceErrors(cs[i], classOf)
    ensures var found := DefaultClassConstructor(Site(cs[i]), Some(cs[i]), classOf).ctor;
      DefaultConstructorPairs(cs[..i + 1], classOf) ==
        DefaultConstructorPairs(cs[..i], classOf) + (if found.Some? then [(cs[i], found.value)] else [])
  {
    assert cs[..i + 1][..i] == cs[..i];
  }

  /**
   * The first steps of `visitNewExpression`: a class target means its unnamed constructor,
   * or, with no such constructor, no arguments and an implicit constructor needed, a
   * synthetic one; a type variable is an error and gives none; any other non-constructor
   * is an error and gives none.
   */
  function NewExpressionConstructor(target: Option<Element>, argsEmpty: bool, site: nat, classOf: Element -> ClassInfo): (r: Outcome)
    ensures r.ctor.Some? ==> r.ctor.value.kind == Constructor && r.errors == []
    ensures KindOf(target) == TypeVariable ==> r == Outcome(None, [Diagnostic(NewExpressionCantUseTypeVar, site)])
    ensures KindOf(target) == Constructor ==> r == Outcome(target, [])
    ensures KindOf(target) == Class ==>
      var cls := classOf(target.value);
      if LookupConstructor(cls, "").Some? then
        r.ctor == LookupConstructor(cls, "") || (r.ctor.None? && LookupConstructor(cls, "").value.kind != Constructor)
      else if argsEmpty && Elements.NeedsImplicitDefaultConstructor(cls) then r.ctor == Some(SyntheticDefaultConstructor(target.value))
      else r == Outcome(None, [Diagnostic(NewExpressionNotConstructor, site)])
    ensures KindOf(target) != Class && KindOf(target) != TypeVariable && KindOf(target) != Constructor ==>
      r == Outcome(None, [Diagnostic(NewExpressionNotConstructor, site)])
  {
    var element :=
      if KindOf(target) == Class then
        var found := LookupConstructor(classOf(target.value), "");
        if found.None? && argsEmpty && Elements.NeedsImplicitDefaultConstructor(classOf(target.value))
        then Some(SyntheticDefaultConstructor(target.value)) else found
      else target;
    if KindOf(target) == TypeVariable then Outcome(None, [Diagnostic(NewExpressionCantUseTypeVar, site)])
    else if KindOf(element) != Constructor then Outcome(None, [Diagnostic(NewExpressionNotConstructor, site)])
    else Outcome(element, [])
  }

  /**
   * `visitNewExpression`: the constructor chosen above, looked up in the default class of
   * an interface, is recorded on the expression; `const` on a non-const constructor is an error.
   */
  method VisitNewExpression(x: AstNode, target: Option<Element>, argsEmpty: bool, isConst: bool,
                            constructorSite: nat, classOf: Element -> ClassInfo)
    returns (r: Option<Element>, errors: seq<Diagnostic>)
    requires var chosen := NewExpressionConstructor(target, argsEmpty, constructorSite, classOf).ctor;
      chosen.Some? ==> Resolvable(chosen.value, classOf)
    modifies x`symbol
    ensures var chosen := NewExpressionConstructor(target, argsEmpty, constructorSite, classOf);
      var inDefault := DefaultClassConstructor(constructorSite, chosen.ctor, classOf);
      r == inDefault.ctor &&
      errors == chosen.errors + inDefault.errors
        + (if r.Some? && isConst && !r.value.mods.isConstant then [Diagnostic(ConstAndNonConstConstructor, x.id)] else [])
    ensures KindOf(target) == TypeVariable ==> x.symbol == old(x.symbol)
    ensures r.None? ==> x.symbol == old(x.symbol)
    ensures r.Some? ==> x.symbol == r
  {
    var chosen := NewExpressionConstructor(target, argsEmpty, constructorSite, classOf);
    errors := chosen.errors;
    if KindOf(target) == TypeVariable {
      return None, errors;
    }
    var outcome := ResolveInterfaceConstructorInDefaultClass(constructorSite, chosen.ctor, classOf);
    errors := errors + outcome.errors;
    r := outcome.ctor;
    if r.Some? && isConst && !r.value.mods.isConstant {
      errors := errors + [Diagnostic(ConstAndNonConstConstructor, x.id)];
    }
    var _ := ResolveVisitor.RecordElement(x, r);
  }

  /**
   * `getNextConstructorInvocation`: with a single initializer whose target is a constructor
   * of the same class, that constructor (a redirection); otherwise none. `initsOf` gives
   * the symbols of a constructor's initializers.
   */
  function NextConstructorInvocation(c: Element, initsOf: Element -> seq<Option<Element>>): (r: Option<Element>)
    ensures r.Some? ==> initsOf(c) == [r] && r.value.kind == Constructor && IdOf(r.value.enclosing) == IdOf(c.enclosing)
    ensures r.None? && |initsOf(c)| == 1 && KindOf(initsOf(c)[0]) == Constructor ==> IdOf(initsOf(c)[0].value.enclosing) != IdOf(c.enclosing)
  {
    var inits := initsOf(c);
    if |inits| == 1 && KindOf(inits[0]) == Constructor && IdOf(inits[0].value.enclosing) == IdOf(c.enclosing) then inits[0] else None
  }

  /** The constructor reached after `k` redirections from `start`. */
  function Iterate(start: Element, k: nat, initsOf: Element -> seq<Option<Element>>): (r: Option<Element>)
    ensures k == 0 ==> r == Some(start)
  {
    if k == 0 then Some(start)
    else
      var previous := Iterate(start, k - 1, initsOf);
      if previous.None? then None else NextConstructorInvocation(previous.value, initsOf)
  }

  /** The redirect chain from `start` reaches a constructor of the same name. */
  ghost predicate ReturnsToName(start: Element, initsOf: Element -> seq<Option<Element>>) {
    exists k: nat :: k >= 1 && Iterate(start, k, initsOf).Some? && Iterate(start, k, initsOf).value.name == start.name
  }

  /**
   * `hasRedirectedConstructorCycle` as written, run for at most `fuel` further steps
   * (`None` when the steps run out): it stops only at the end of the chain or at a
   * constructor with the starting name.
   */
  function CycleAsWritten(start: Element, next: Option<Element>, initsOf: Element -> seq<Option<Element>>, fuel: nat): (r: Option<bool>)
    decreases fuel
  {
    if next.None? then Some(false)
    else if start.name == next.value.name then Some(true)
    else if fuel == 0 then None
    else CycleAsWritten(start, NextConstructorInvocation(next.value, initsOf), initsOf, fuel - 1)
  }

  /** Whenever the loop as written stops, its answer is the intended one. */
  lemma {:induction false} AsWrittenAnswersAgree(start: Element, j: nat, initsOf: Element -> seq<Option<Element>>, fuel: nat)
    requires j >= 1
    requires forall i: nat :: 1 <= i < j ==> Iterate(start, i, initsOf).Some? && Iterate(start, i, initsOf).value.name != start.name
    requires CycleAsWritten(start, Iterate(start, j, initsOf), initsOf, fuel).Some?
    ensures CycleAsWritten(start, Iterate(start, j, initsOf), initsOf, fuel).value <==> ReturnsToName(start, initsOf)
    decreases fuel
  {
    var next := Iterate(start, j, initsOf);
    if next.None? {
      NoReturnAfter(start, j, initsOf);
    } else if start.name == next.value.name {
    } else {
      assert Iterate(start, j + 1, initsOf) == NextConstructorInvocation(next.value, initsOf);
      AsWrittenAnswersAgree(start, j + 1, initsOf, fuel - 1);
    }
  }

  /** Once the chain ends, it stays ended. */
  lemma {:induction false} NoneStays(start: Element, j: nat, initsOf: Element -> seq<Option<Element>>)
    requires Iterate(start, j, initsOf).None?
    ensures forall k: nat :: k >= j ==> Iterate(start, k, initsOf).None?
  {
    forall k: nat | k >= j
      ensures Iterate(start, k, initsOf).None?
    {
      NoneStaysAt(start, j, k, initsOf);
    }
  }

  lemma {:induction false} NoneStaysAt(start: Element, j: nat, k: nat, initsOf: Element -> seq<Option<Element>>)
    requires Iterate(start, j, initsOf).None? && k >= j
    ensures Iterate(start, k, initsOf).None?
    decreases k
  {
    if k > j {
      NoneStaysAt(start, j, k - 1, initsOf);
    }
  }

  /** Three constructors `a` → `b` → `c` → `b`: a cycle that does not pass through `a`. */
  const CycleA := Element(1, "a", Constructor, NoModifiers, None, None, [], None, None)
  const CycleB := Element(2, "b", Constructor, NoModifiers, None, None, [], None, None)
  const CycleC := Element(3, "c", Constructor, NoModifiers, None, None, [], None, None)

  function CycleInits(e: Element): seq<Option<Element>> {
    if e == CycleA then [Some(CycleB)] else if e == CycleB then [Some(CycleC)] else if e == CycleC then [Some(CycleB)] else []
  }

  /** On that chain the loop as written never stops, however many steps it is given. */
  lemma {:induction false} AsWrittenLoopsForever(fuel: nat)
    ensures CycleAsWritten(CycleA, NextConstructorInvocation(CycleA, CycleInits), CycleInits, fuel).None?
    ensures CycleAsWritten(CycleA, Some(CycleC), CycleInits, fuel).None?
    decreases fuel
  {
    assert NextConstructorInvocation(CycleA, CycleInits) == Some(CycleB);
    assert NextConstructorInvocation(CycleB, CycleInits) == Some(CycleC);
    assert NextConstructorInvocation(CycleC, CycleInits) == Some(CycleB);
    if fuel > 0 {
      AsWrittenLoopsForever(fuel - 1);
    }
  }

  /** The chain is periodic once a constructor repeats. */
  lemma {:induction false} Periodic(start: Element, i: nat, j: nat, k: nat, initsOf: Element -> seq<Option<Element>>)
    requires 1 <= i < j <= k && Iterate(start, j, initsOf) == Iterate(start, i, initsOf)
    ensures Iterate(start, k, initsOf) == Iterate(start, k - (j - i), initsOf)
    decreases k
  {
    if k > j {
      Periodic(start, i, j, k - 1, initsOf);
    }
  }

  /** Past a repetition, every constructor of the chain is one already seen. */
  lemma {:induction false} RepeatSeen(start: Element, i: nat, j: nat, k: nat, initsOf: Element -> seq<Option<Element>>)
    requires 1 <= i < j <= k && Iterate(start, j, initsOf) == Iterate(start, i, initsOf)
    ensures exists m: nat :: 1 <= m < j && Iterate(start, k, initsOf) == Iterate(start, m, initsOf)
    decreases k
  {
    Periodic(start, i, j, k, initsOf);
    var k' := k - (j - i);
    if k' < j {
      assert 1 <= k' < j;
    } else {
      RepeatSeen(start, i, j, k', initsOf);
    }
  }

  /**
   * No constructor of the chain so far has the starting name, and the chain either ends
   * at step `j` or repeats an earlier constructor there: it never reaches the starting name.
   */
  lemma NoReturnAfter(start: Element, j: nat, initsOf: Element -> seq<Option<Element>>)
    requires j >= 1
    requires forall i: nat :: 1 <= i < j ==> Iterate(start, i, initsOf).Some? && Iterate(start, i, initsOf).value.name != start.name
    requires Iterate(start, j, initsOf).None? || exists i: nat :: 1 <= i < j && Iterate(start, i, initsOf) == Iterate(start, j, initsOf)
    ensures !ReturnsToName(start, initsOf)
  {
    if Iterate(start, j, initsOf).None? {
      NoneStays(start, j, initsOf);
    } else {
      var i: nat :| 1 <= i < j && Iterate(start, i, initsOf) == Iterate(start, j, initsOf);
      forall k: nat | k >= j
        ensures Iterate(start, k, initsOf).Some? ==> Iterate(start, k, initsOf).value.name != start.name
      {
        RepeatSeen(start, i, j, k, initsOf);
      }
    }
    forall k: nat | k >= 1
      ensures !(Iterate(start, k, initsOf).Some? && Iterate(start, k, initsOf).value.name == start.name)
    {
      if k < j {
        assert Iterate(start, k, initsOf).value.name != start.name;
      }
    }
  }

  /** Redirections stay among the class's constructors. */
  predicate ClosedUnderRedirect(constructors: seq<Element>, initsOf: Element -> seq<Option<Element>>) {
    forall c :: c in constructors && NextConstructorInvocation(c, initsOf).Some? ==>
      NextConstructorInvocation(c, initsOf).value in constructors
  }

  /**
   * `hasRedirectedConstructorCycle` with a set of the constructors already met: it stops
   * when the chain ends, when a constructor repeats, or at the starting name, and answers
   * exactly whether the chain reaches the starting name.
   */
  method HasRedirectedConstructorCycle(start: Element, initsOf: Element -> seq<Option<Element>>, constructors: seq<Element>)
    returns (r: bool)
    requires start in constructors && ClosedUnderRedirect(constructors, initsOf)
    ensures r <==> ReturnsToName(start, initsOf)
  {
    var next := NextConstructorInvocation(start, initsOf);
    ghost var j: nat := 1;
    var visited: set<Element> := {};
    while next.Some? && next.value !in visited
      invariant j >= 1 && next == Iterate(start, j, initsOf)
      invariant next.Some? ==> next.value in constructors
      invariant visited <= set c | c in constructors
      invariant forall c :: c in visited ==> exists i: nat :: 1 <= i < j && Iterate(start, i, initsOf) == Some(c)
      invariant forall i: nat :: 1 <= i < j ==> Iterate(start, i, initsOf).Some? && Iterate(start, i, initsOf).value.name != start.name
      decreases (set c | c in constructors) - visited
    {
      if start.name == next.value.name {
        return true;
      }
      visited := visited + {next.value};
      next := NextConstructorInvocation(next.value, initsOf);
      j := j + 1;
    }
    NoReturnAfter(start, j, initsOf);
    return false;
  }

  /** The cycle errors of a class's constructors, in order: one at each constructor whose chain returns to its name. */
  ghost function CycleErrors(cs: seq<Element>, initsOf: Element -> seq<Option<Element>>): seq<Diagnostic>
    decreases |cs|
  {
    if |cs| == 0 then []
    else
      var last := cs[|cs| - 1];
      CycleErrors(cs[..|cs| - 1], initsOf) + (if ReturnsToName(last, initsOf) then [Diagnostic(RedirectedConstructorCycle, Site(last))] else [])
  }

  /** `checkRedirectConstructorCycle`: reports each constructor of the class on a cycle back to its name. */
  method CheckRedirectConstructorCycle(constructors: seq<Element>, initsOf: Element -> seq<Option<Element>>)
    returns (errors: seq<Diagnostic>)
    requires ClosedUnderRedirect(constructors, initsOf)
    ensures errors == CycleErrors(constructors, initsOf)
  {
    errors := [];
    for i := 0 to |constructors|
      invariant errors == CycleErrors(constructors[..i], initsOf)
    {
      assert constructors[..i + 1][..i] == constructors[..i];
      var cycle := HasRedirectedConstructorCycle(constructors[i], initsOf, constructors);
      if cycle {
        errors := errors + [Diagnostic(RedirectedConstructorCycle, Site(constructors[i]))];
      }
    }
    assert constructors[..|constructors|] == constructors;
  }
}
