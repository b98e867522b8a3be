/**
 * `Resolver.ResolveElementsVisitor`: the body-resolution pass. The model covers the
 * decisions the visitor takes while walking a unit: the legality of `this` and `super`,
 * the tracking of final fields that constructors must initialize, label resolution,
 * `return` in generative constructors, map-literal type arguments and the per-class
 * constructor checks. Resolution of nested expressions is done by the caller.
 */
module Resolver {
  import opened Wrappers
  import opened ElementModel
  import Elements
  import Scope
  import ResolveVisitor
  import ResolverConstructors

  /** The first failing `this` check, in the order the visitor makes them. */
  function ThisError(holder: Element, currentMethod: Option<Element>, inInitializer: bool): (r: Option<ErrorCode>)
    ensures r.None? <==>
      holder.kind != Library && currentMethod.Some? && !currentMethod.value.mods.isStatic
      && !currentMethod.value.mods.isFactory && !inInitializer
    ensures r == Some(ThisOnTopLevel) <==> holder.kind == Library
    ensures r == Some(ThisOutsideOfMethod) <==> holder.kind != Library && currentMethod.None?
    ensures r == Some(ThisInStaticMethod) <==>
      holder.kind != Library && currentMethod.Some? && currentMethod.value.mods.isStatic
    ensures r == Some(ThisInFactoryConstructor) <==>
      holder.kind != Library && currentMethod.Some? && !currentMethod.value.mods.isStatic && currentMethod.value.mods.isFactory
    ensures r == Some(ThisInInitializerAsExpression) <==>
      holder.kind != Library && currentMethod.Some? && !currentMethod.value.mods.isStatic
      && !currentMethod.value.mods.isFactory && inInitializer
  {
    if holder.kind == Library then Some(ThisOnTopLevel)
    else if currentMethod.None? then Some(ThisOutsideOfMethod)
    else if currentMethod.value.mods.isStatic then Some(ThisInStaticMethod)
    else if currentMethod.value.mods.isFactory then Some(ThisInFactoryConstructor)
    else if inInitializer then Some(ThisInInitializerAsExpression)
    else None
  }

  /** The first failing `super` check: the `this` checks without the initializer one. */
  function SuperError(holder: Element, currentMethod: Option<Element>): (r: Option<ErrorCode>)
    ensures r.None? <==>
      holder.kind != Library && currentMethod.Some? && !currentMethod.value.mods.isStatic && !currentMethod.value.mods.isFactory
    ensures r == Some(SuperOnTopLevel) <==> holder.kind == Library
    ensures r == Some(SuperOutsideOfMethod) <==> holder.kind != Library && currentMethod.None?
    ensures r == Some(SuperInStaticMethod) <==>
      holder.kind != Library && currentMethod.Some? && currentMethod.value.mods.isStatic
    ensures r == Some(SuperInFactoryConstructor) <==>
      holder.kind != Library && currentMethod.Some? && !currentMethod.value.mods.isStatic && currentMethod.value.mods.isFactory
  {
    if holder.kind == Library then Some(SuperOnTopLevel)
    else if currentMethod.None? then Some(SuperOutsideOfMethod)
    else if currentMethod.value.mods.isStatic then Some(SuperInStaticMethod)
    else if currentMethod.value.mods.isFactory then Some(SuperInFactoryConstructor)
    else None
  }

  /** `Elements.superElement`: the element a legal `super` stands for, of the superclass. */
  function SuperElementOf(site: nat, superclass: Element): (e: Element)
    ensures e.kind == Super && e.enclosing == Some(superclass) && e.id == site
  {
    Element(site, superclass.name, Super, NoModifiers, Some(superclass), None, [], None, None)
  }

  /** `Elements.labelElement`: the element of a label declared in a function. */
  function LabelElementOf(site: nat, name: string, enclosingFunction: Option<Element>): (e: Element)
    ensures e.kind == Label && e.name == name && e.id == site
  {
    Element(site, name, Label, NoModifiers, enclosingFunction, None, [], None, None)
  }

  /** A type argument of a map literal: one of the literal's own, or an implicit named one. */
  datatype TypeArgument = Given(site: nat) | Implicit(name: string)

  /**
   * The type arguments `visitMapLiteral` instantiates the map type with, from the literal's
   * own ones, and the errors it reports. The key is always `String`; the value is the last
   * given argument when one or two are given (two is the deprecated form and is reported
   * at the first), `Dynamic` otherwise; three or more are a wrong number of arguments.
   */
  function MapTypeArguments(given: seq<nat>, site: nat): (r: (seq<TypeArgument>, seq<Diagnostic>))
    ensures |r.0| == 2 && r.0[0] == Implicit("String")
    ensures r.0[1] == if 1 <= |given| <= 2 then Given(given[|given| - 1]) else Implicit("Dynamic")
    ensures r.1 == [] <==> |given| <= 1
    ensures |given| == 2 ==> r.1 == [Diagnostic(DeprecatedMapLiteralSyntax, given[0])]
    ensures |given| >= 3 ==> r.1 == [Diagnostic(WrongNumberOfTypeArguments, site)]
  {
    var implicitKey := Implicit("String");
    if |given| == 1 then ([implicitKey, Given(given[0])], [])
    else if |given| == 2 then ([implicitKey, Given(given[1])], [Diagnostic(DeprecatedMapLiteralSyntax, given[0])])
    else
      var errors := if |given| == 0 then [] else [Diagnostic(WrongNumberOfTypeArguments, site)];
      ([implicitKey, Implicit("Dynamic")], errors)
  }

  /**
   * A parameter of a method definition: whether it is a `this.x` parameter, and the field
   * its `this.x` refers to (`None` when no such field was found).
   */
  datatype ParameterNode = ParameterNode(site: nat, isFieldInitializer: bool, initializedField: Option<Element>)

  /**
   * An entry of a constructor's initializer list: the element it resolves to, whether it is a
   * constructor invocation, whether its name resolves to a declared element, and that target.
   */
  datatype InitializerNode = InitializerNode(
    site: nat, symbol: Option<Element>, isInvocation: bool, namesField: bool, target: Option<Element>)

  /**
   * A method definition: its element, parameters, body presence, initializers and report
   * sites (the definition, its name and its function).
   */
  datatype MethodDefinition = MethodDefinition(
    member: Element, params: seq<ParameterNode>, hasBody: bool, initializers: seq<InitializerNode>,
    site: nat, nameSite: nat, functionSite: nat)

  /**
   * A field declaration: its element, modifiers, initial value presence, the value's type,
   * and the definitions of the getter and setter its element carries.
   */
  datatype FieldNode = FieldNode(symbol: Element, site: nat, mods: Modifiers, hasValue: bool, valueType: Option<Type>,
                                 getter: Option<MethodDefinition>, setter: Option<MethodDefinition>)

  /** A member of a class body. */
  datatype ClassMember = FieldMember(field: FieldNode) | MethodMember(definition: MethodDefinition)

  /** One initialization of a field, by a `this.x` parameter or an initializer, and where. */
  datatype FieldInit = FieldInit(site: nat, field: Option<Element>)

  /** The field initializations of the `this.x` parameters, in order. */
  function ParameterFieldInits(ps: seq<ParameterNode>): seq<FieldInit>
    decreases |ps|
  {
    if |ps| == 0 then []
    else
      var p := ps[|ps| - 1];
      ParameterFieldInits(ps[..|ps| - 1]) + (if p.isFieldInitializer then [FieldInit(p.site, p.initializedField)] else [])
  }

  /** An initializer that resolves to a constructor and invokes it: `super(...)` or `this(...)`. */
  predicate InvokesConstructor(i: InitializerNode) {
    KindOf(i.symbol) == Constructor && i.isInvocation
  }

  /** An initializer initializes a field unless it invokes a constructor; it needs a resolved name. */
  predicate InitializesField(i: InitializerNode) {
    !InvokesConstructor(i) && i.namesField
  }

  /** The constructor `resolveInitializers` passes on: that of the last initializer invoking one. */
  function ExplicitSuperCall(inits: seq<InitializerNode>): Option<Element>
    decreases |inits|
  {
    if |inits| == 0 then None
    else
      var last := inits[|inits| - 1];
      if InvokesConstructor(last) then last.symbol else ExplicitSuperCall(inits[..|inits| - 1])
  }

  /**
   * The constructor passed on is nothing exactly when no initializer invokes one, and
   * otherwise that of an initializer invoking one after which none does.
   */
  lemma {:induction false} ExplicitSuperCallIsLast(inits: seq<InitializerNode>)
    ensures ExplicitSuperCall(inits).None? <==> forall k :: 0 <= k < |inits| ==> !InvokesConstructor(inits[k])
    ensures ExplicitSuperCall(inits).Some? ==>
      exists k :: 0 <= k < |inits| && InvokesConstructor(inits[k]) && inits[k].symbol == ExplicitSuperCall(inits)
        && (forall j :: k < j < |inits| ==> !InvokesConstructor(inits[j]))
    decreases |inits|
  {
    if |inits| > 0 {
      var n := |inits| - 1;
      var front := inits[..n];
      ExplicitSuperCallIsLast(front);
      assert forall k :: 0 <= k < n ==> front[k] == inits[k];
      if InvokesConstructor(inits[n]) {
        assert KindOf(inits[n].symbol) == Constructor;
      } else if ExplicitSuperCall(front).Some? {
        var k :| 0 <= k < n && InvokesConstructor(front[k]) && front[k].symbol == ExplicitSuperCall(front)
          && (forall j :: k < j < n ==> !InvokesConstructor(front[j]));
        assert inits[k] == front[k];
      }
    }
  }

  /**
   * What `checkConstructor` reads of the class being visited: whether it is `Object` or a
   * direct subclass of it, and its superclass. `superclass` is `None` both for a class
   * without a supertype and for a supertype without an element; `lookupConstructor` of a
   * missing element finds nothing and the missing element is skipped, so the two agree.
   */
  datatype SuperContext = SuperContext(isObject: bool, isObjectChild: bool, superclass: Option<ClassInfo>)

  /** `hasDefaultConstructor`: an implicit default constructor, or an unnamed one without parameters. */
  predicate HasDefaultConstructor(c: ClassInfo) {
    Elements.NeedsImplicitDefaultConstructor(c)
    || (ResolverConstructors.LookupConstructor(c, "").Some? && ResolverConstructors.LookupConstructor(c, "").value.params == [])
  }

  /** The constructor a constructor calls: the one its initializers invoke, else the superclass's unnamed one. */
  function SuperCallOf(explicit: Option<Element>, ctx: SuperContext): (r: Option<Element>)
    ensures explicit.Some? ==> r == explicit
    ensures explicit.None? && ctx.superclass.Some? ==> r == ResolverConstructors.LookupConstructor(ctx.superclass.value, "")
    ensures explicit.None? && ctx.superclass.None? ==> r.None?
  {
    if explicit.Some? then explicit
    else if ctx.superclass.Some? then ResolverConstructors.LookupConstructor(ctx.superclass.value, "")
    else None
  }

  /**
   * `checkConstructor`: with no constructor to call, outside `Object` and its direct
   * subclasses, a superclass without a default constructor is
   * CANNOT_RESOLVE_IMPLICIT_CALL_TO_SUPER_CONSTRUCTOR; a `const` constructor calling one that
   * is not `const` is CONST_CONSTRUCTOR_MUST_CALL_CONST_SUPER. Both are reported at the definition.
   */
  function CheckConstructorErrors(m: MethodDefinition, explicit: Option<Element>, ctx: SuperContext): (r: seq<Diagnostic>)
    ensures |r| <= 1 && forall d :: d in r ==> d.site == m.site
  {
    var superCall := SuperCallOf(explicit, ctx);
    if superCall.None? && !ctx.isObject && !ctx.isObjectChild then
      if ctx.superclass.Some? && !HasDefaultConstructor(ctx.superclass.value)
      then [Diagnostic(CannotResolveImplicitCallToSuperConstructor, m.site)] else []
    else if superCall.Some? && m.member.mods.isConstant && !superCall.value.mods.isConstant
    then [Diagnostic(ConstConstructorMustCallConstSuper, m.site)]
    else []
  }

  /**
   * The implicit super call fails exactly when the initializers invoke no constructor, the
   * class is neither `Object` nor a direct subclass of it, and its superclass has no unnamed
   * constructor and declares constructors (or is an interface without a default class).
   * `hasDefaultConstructor`'s parameter test never decides here: the error needs the
   * unnamed constructor to be missing.
   */
  lemma ImplicitSuperCallFails(m: MethodDefinition, ctx: SuperContext)
    ensures (Diagnostic(CannotResolveImplicitCallToSuperConstructor, m.site) in
             CheckConstructorErrors(m, ExplicitSuperCall(m.initializers), ctx)) <==>
      (forall k :: 0 <= k < |m.initializers| ==> !InvokesConstructor(m.initializers[k]))
      && !ctx.isObject && !ctx.isObjectChild && ctx.superclass.Some?
      && ResolverConstructors.LookupConstructor(ctx.superclass.value, "").None?
      && !Elements.NeedsImplicitDefaultConstructor(ctx.superclass.value)
  {
    ExplicitSuperCallIsLast(m.initializers);
  }

  /**
   * A `const` constructor is reported for its call exactly when the constructor it calls,
   * explicitly or implicitly, exists and is not `const`; the two errors exclude each other.
   */
  lemma ConstSuperCallChecked(m: MethodDefinition, explicit: Option<Element>, ctx: SuperContext)
    ensures Diagnostic(ConstConstructorMustCallConstSuper, m.site) in CheckConstructorErrors(m, explicit, ctx) <==>
      m.member.mods.isConstant && SuperCallOf(explicit, ctx).Some? && !SuperCallOf(explicit, ctx).value.mods.isConstant
    ensures !(Diagnostic(ConstConstructorMustCallConstSuper, m.site) in CheckConstructorErrors(m, explicit, ctx)
              && Diagnostic(CannotResolveImplicitCallToSuperConstructor, m.site) in CheckConstructorErrors(m, explicit, ctx))
  {
  }

  /** The field initializations of an initializer list, in order. */
  function InitializerFieldInits(inits: seq<InitializerNode>): seq<FieldInit>
    decreases |inits|
  {
    if |inits| == 0 then []
    else
      var i := inits[|inits| - 1];
      InitializerFieldInits(inits[..|inits| - 1]) + (if InitializesField(i) then [FieldInit(i.site, i.target)] else [])
  }

  /**
   * Adding initializations to the set of initialized fields: the set grows by their fields,
   * and an initialization of a field already in the set is a `DUPLICATE_INITIALIZATION`.
   */
  function Initialize(seen: set<Option<Element>>, fis: seq<FieldInit>): (r: (set<Option<Element>>, seq<Diagnostic>))
    ensures r.0 == seen + set k | 0 <= k < |fis| :: fis[k].field
    ensures forall d :: d in r.1 ==> d.code == DuplicateInitialization
    ensures |r.1| <= |fis|
    decreases |fis|
  {
    if |fis| == 0 then (seen, [])
    else
      var front := fis[..|fis| - 1];
      var last := fis[|fis| - 1];
      var (s, e) := Initialize(seen, front);
      assert (set k | 0 <= k < |fis| :: fis[k].field) == (set k | 0 <= k < |front| :: front[k].field) + {last.field} by {
        assert forall k :: 0 <= k < |front| ==> front[k] == fis[k];
      }
      if last.field in s then (s, e + [Diagnostic(DuplicateInitialization, last.site)]) else (s + {last.field}, e)
  }

  /** Every field is initialized once: none is already initialized and none twice. */
  predicate InitializedOnce(seen: set<Option<Element>>, fis: seq<FieldInit>) {
    (forall k :: 0 <= k < |fis| ==> fis[k].field !in seen)
    && (forall k, m :: 0 <= k < m < |fis| ==> fis[k].field != fis[m].field)
  }

  /** A duplicate initialization is reported exactly when some field is initialized twice. */
  lemma {:induction false} DuplicateReportedIffRepeated(seen: set<Option<Element>>, fis: seq<FieldInit>)
    ensures Initialize(seen, fis).1 == [] <==> InitializedOnce(seen, fis)
    decreases |fis|
  {
    if |fis| > 0 {
      var front := fis[..|fis| - 1];
      var last := fis[|fis| - 1];
      DuplicateReportedIffRepeated(seen, front);
      var (s, e) := Initialize(seen, front);
      assert forall k :: 0 <= k < |front| ==> front[k] == fis[k];
      if InitializedOnce(seen, fis) {
        assert InitializedOnce(seen, front);
        assert last.field !in s;
      }
      if Initialize(seen, fis).1 == [] {
        assert last.field !in s;
        forall k | 0 <= k < |front|
          ensures fis[k].field != last.field
        {
          assert front[k].field in s;
        }
      }
    }
  }

  /** The collected finals missing from the initialized fields, in collection order. */
  function MissingFinals(finals: seq<Element>, initialized: set<Option<Element>>): (r: seq<Element>)
    ensures forall f :: f in r <==> f in finals && Some(f) !in initialized
    ensures |r| <= |finals|
    decreases |finals|
  {
    if |finals| == 0 then []
    else
      var f := finals[|finals| - 1];
      MissingFinals(finals[..|finals| - 1], initialized) + (if Some(f) !in initialized then [f] else [])
  }

  /** A field declaration that leaves a final instance field to the constructors. */
  predicate NeedsInitializing(f: FieldNode) {
    f.mods.isFinal && !f.mods.isStatic && !f.hasValue
  }

  /** Adding a field to the collected finals when it needs initializing, as a set adds. */
  function CollectFinal(finals: seq<Element>, f: FieldNode): (r: seq<Element>)
    ensures forall e :: e in r <==> e in finals || (e == f.symbol && NeedsInitializing(f))
    ensures |finals| <= |r| && r[..|finals|] == finals
  {
    if NeedsInitializing(f) && f.symbol !in finals then finals + [f.symbol] else finals
  }

  /** The finals collected over a class body's fields. */
  function MembersFinals(finals: seq<Element>, members: seq<ClassMember>): seq<Element>
    decreases |members|
  {
    if |members| == 0 then finals
    else
      var before := MembersFinals(finals, members[..|members| - 1]);
      match members[|members| - 1]
      case FieldMember(f) => CollectFinal(before, f)
      case MethodMember(_) => before
  }

  /** The finals collected over a class body are exactly its final instance fields without a value. */
  lemma {:induction false} CollectedFinals(members: seq<ClassMember>)
    ensures forall e :: e in MembersFinals([], members) <==>
      exists k :: 0 <= k < |members| && members[k].FieldMember? && members[k].field.symbol == e && NeedsInitializing(members[k].field)
    decreases |members|
  {
    if |members| > 0 {
      var front := members[..|members| - 1];
      CollectedFinals(front);
      assert forall k :: 0 <= k < |front| ==> front[k] == members[k];
      forall e | e in MembersFinals([], members)
        ensures exists k :: 0 <= k < |members| && members[k].FieldMember? && members[k].field.symbol == e && NeedsInitializing(members[k].field)
      {
        if e !in MembersFinals([], front) {
          assert members[|members| - 1].FieldMember?;
        }
      }
      forall e | exists k :: 0 <= k < |members| && members[k].FieldMember? && members[k].field.symbol == e && NeedsInitializing(members[k].field)
        ensures e in MembersFinals([], members)
      {
        var k :| 0 <= k < |members| && members[k].FieldMember? && members[k].field.symbol == e && NeedsInitializing(members[k].field);
        if k < |front| {
          assert front[k] == members[k];
        }
      }
    }
  }

  /**
   * The errors `visitMethodDefinition` reports, given the collected finals: duplicate
   * `this.x` parameters; a missing body where one is required; then, for a non-factory
   * constructor, duplicate initializations in the initializer list and, outside interfaces
   * and redirecting constructors, one `FINAL_FIELD_MUST_BE_INITIALIZED` per collected final
   * among neither.
   */
  ghost function MethodDefinitionErrors(m: MethodDefinition, finals: seq<Element>, holderIsInterface: bool, ctx: SuperContext): seq<Diagnostic> {
    var parameters := Initialize({}, ParameterFieldInits(m.params));
    parameters.1 + BodyErrors(m, holderIsInterface)
      + (if Elements.IsNonFactoryConstructor(m.member) then ConstructorInitErrors(m, parameters.0, finals, holderIsInterface, ctx) else [])
  }

  /** A missing body is an error except in a generative constructor, an abstract method or an interface. */
  function BodyErrors(m: MethodDefinition, holderIsInterface: bool): (r: seq<Diagnostic>)
    ensures r != [] <==> !m.hasBody && !Elements.IsNonFactoryConstructor(m.member) && !m.member.mods.isAbstract && !holderIsInterface
    ensures r != [] ==> r == [Diagnostic(MethodMustHaveBody, m.functionSite)]
  {
    if !m.hasBody && !Elements.IsNonFactoryConstructor(m.member) && !m.member.mods.isAbstract && !holderIsInterface
    then [Diagnostic(MethodMustHaveBody, m.functionSite)] else []
  }

  /**
   * The constructor part of `visitMethodDefinition`: duplicate initializations in the
   * initializer list, `checkConstructor`'s errors, then, outside interfaces and redirecting
   * constructors, one error at the constructor's name per collected final initialized
   * neither by a parameter nor by an initializer.
   */
  ghost function ConstructorInitErrors(m: MethodDefinition, afterParameters: set<Option<Element>>, finals: seq<Element>,
                                       holderIsInterface: bool, ctx: SuperContext): seq<Diagnostic> {
    var initializers := Initialize(afterParameters, InitializerFieldInits(m.initializers));
    var missing := if !holderIsInterface && !m.member.mods.isRedirected then MissingFinals(finals, initializers.0) else [];
    initializers.1 + CheckConstructorErrors(m, ExplicitSuperCall(m.initializers), ctx)
      + seq(|missing|, _ => Diagnostic(FinalFieldMustBeInitialized, m.nameSite))
  }

  /** The errors of a class body's members, each method seeing the finals collected before it. */
  ghost function MembersErrors(members: seq<ClassMember>, holderIsInterface: bool, ctx: SuperContext): seq<Diagnostic>
    decreases |members|
  {
    if |members| == 0 then []
    else
      var front := members[..|members| - 1];
      MembersErrors(front, holderIsInterface, ctx) +
        match members[|members| - 1]
        case FieldMember(f) => FieldVisitErrors(f, MembersFinals([], front), holderIsInterface, ctx)
        case MethodMember(m) => MethodDefinitionErrors(m, MembersFinals([], front), holderIsInterface, ctx)
  }

  /** The errors of a class's constructors, all seeing the finals of the whole body. */
  ghost function ConstructorsErrors(constructors: seq<MethodDefinition>, finals: seq<Element>, holderIsInterface: bool,
                                    ctx: SuperContext): seq<Diagnostic>
    decreases |constructors|
  {
    if |constructors| == 0 then []
    else
      var last := constructors[|constructors| - 1];
      ConstructorsErrors(constructors[..|constructors| - 1], finals, holderIsInterface, ctx)
        + MethodDefinitionErrors(last, finals, holderIsInterface, ctx)
  }

  /**
   * The errors of visiting a field: `FieldErrors`, then those of its getter and its setter,
   * which see the finals with this field collected.
   */
  ghost function FieldVisitErrors(f: FieldNode, finals: seq<Element>, holderIsInterface: bool, ctx: SuperContext): seq<Diagnostic> {
    FieldErrors(f) + AccessorErrors(f, CollectFinal(finals, f), holderIsInterface, ctx)
  }

  /** The errors of visiting a field's getter and then its setter. */
  ghost function AccessorErrors(f: FieldNode, finals: seq<Element>, holderIsInterface: bool, ctx: SuperContext): seq<Diagnostic> {
    (if f.getter.Some? then MethodDefinitionErrors(f.getter.value, finals, holderIsInterface, ctx) else [])
      + (if f.setter.Some? then MethodDefinitionErrors(f.setter.value, finals, holderIsInterface, ctx) else [])
  }

  /** `visitField` reports a static final field without a value. */
  function FieldErrors(f: FieldNode): (r: seq<Diagnostic>)
    ensures r != [] <==> !f.hasValue && f.mods.isFinal && f.mods.isStatic
    ensures r != [] ==> r == [Diagnostic(StaticFinalRequiresValue, f.site)]
  {
    if !f.hasValue && f.mods.isFinal && f.mods.isStatic then [Diagnostic(StaticFinalRequiresValue, f.site)] else []
  }

  /**
   * The `this.x` parameter loop of `visitMethodDefinition`: the fields initialized, and a
   * duplicate error for each repetition.
   */
  method InitializeFromParameters(params: seq<ParameterNode>) returns (initialized: set<Option<Element>>, errors: seq<Diagnostic>)
    ensures (initialized, errors) == Initialize({}, ParameterFieldInits(params))
  {
    initialized := {};
    errors := [];
    for i := 0 to |params|
      invariant (initialized, errors) == Initialize({}, ParameterFieldInits(params[..i]))
    {
      var parameter := params[i];
      assert params[..i + 1][..i] == params[..i];
      ghost var fis := ParameterFieldInits(params[..i]);
      if parameter.isFieldInitializer {
        assert ParameterFieldInits(params[..i + 1]) == fis + [FieldInit(parameter.site, parameter.initializedField)];
        assert (fis + [FieldInit(parameter.site, parameter.initializedField)])[..|fis|] == fis;
        if parameter.initializedField in initialized {
          errors := errors + [Diagnostic(DuplicateInitialization, parameter.site)];
        } else {
          initialized := initialized + {parameter.initializedField};
        }
      } else {
        assert ParameterFieldInits(params[..i + 1]) == fis;
      }
    }
    assert params[..|params|] == params;
  }

  /**
   * `resolveInitializers`: the initializer list, continuing the fields initialized by the
   * parameters.
   */
  method InitializeFromInitializers(seen: set<Option<Element>>, inits: seq<InitializerNode>)
    returns (initialized: set<Option<Element>>, errors: seq<Diagnostic>, superCall: Option<Element>)
    ensures (initialized, errors) == Initialize(seen, InitializerFieldInits(inits))
    ensures superCall == ExplicitSuperCall(inits)
  {
    initialized := seen;
    errors := [];
    superCall := None;
    var i := 0;
    while i < |inits|
      invariant 0 <= i <= |inits|
      invariant (initialized, errors) == Initialize(seen, InitializerFieldInits(inits[..i]))
      invariant superCall == ExplicitSuperCall(inits[..i])
    {
      var initializer := inits[i];
      assert inits[..i + 1][..i] == inits[..i];
      ghost var fis := InitializerFieldInits(inits[..i]);
      if (KindOf(initializer.symbol) == Constructor && initializer.isInvocation) {
        superCall := initializer.symbol;
        assert InitializerFieldInits(inits[..i + 1]) == fis;
      } else if initializer.namesField {
        assert InitializerFieldInits(inits[..i + 1]) == fis + [FieldInit(initializer.site, initializer.target)];
        assert (fis + [FieldInit(initializer.site, initializer.target)])[..|fis|] == fis;
        if initializer.target in initialized {
          errors := errors + [Diagnostic(DuplicateInitialization, initializer.site)];
        } else {
          initialized := initialized + {initializer.target};
        }
      } else {
        assert InitializerFieldInits(inits[..i + 1]) == fis;
      }
      i := i + 1;
    }
    assert inits[..|inits|] == inits;
  }

  /** The missing-final loop: one error at the constructor's name per final not initialized. */
  method ReportMissingFinals(finals: seq<Element>, initialized: set<Option<Element>>, site: nat) returns (errors: seq<Diagnostic>)
    ensures errors == seq(|MissingFinals(finals, initialized)|, _ => Diagnostic(FinalFieldMustBeInitialized, site))
  {
    errors := [];
    for i := 0 to |finals|
      invariant |errors| == |MissingFinals(finals[..i], initialized)|
      invariant forall k :: 0 <= k < |errors| ==> errors[k] == Diagnostic(FinalFieldMustBeInitialized, site)
    {
      assert finals[..i + 1][..i] == finals[..i];
      if Some(finals[i]) !in initialized {
        errors := errors + [Diagnostic(FinalFieldMustBeInitialized, site)];
      }
    }
    assert finals[..|finals|] == finals;
  }

  /**
   * What `visitClass` verifies about a class's constructors after its body: redirect cycles,
   * then its `default` clause.
   */
  ghost function ClassConstructorErrors(info: ClassInfo, declaredDefault: Option<nat>, classOf: Element -> ClassInfo,
                                        initsOf: Element -> seq<Option<Element>>): seq<Diagnostic>
    requires info.defaultClass.Some? ==>
      declaredDefault.Some? && info.defaultClass.value.element.Some? && ResolverConstructors.AllResolvable(info.constructors, classOf)
  {
    ResolverConstructors.CycleErrors(info.constructors, initsOf) + DefaultClauseErrors(info, declaredDefault, classOf)
  }

  /**
   * A `default` clause that did not resolve is an error; with a default class, it must be a
   * class and the interface constructors must correspond; an interface without a default
   * class may not declare constructors, each one being an error.
   */
  ghost function DefaultClauseErrors(info: ClassInfo, declaredDefault: Option<nat>, classOf: Element -> ClassInfo): seq<Diagnostic>
    requires info.defaultClass.Some? ==>
      declaredDefault.Some? && info.defaultClass.value.element.Some? && ResolverConstructors.AllResolvable(info.constructors, classOf)
  {
    var cs := info.constructors;
    if declaredDefault.Some? && info.defaultClass.None? then [Diagnostic(NoSuchType, declaredDefault.value)]
    else if info.defaultClass.Some? then
      (if classOf(info.defaultClass.value.element.value).isInterface then [Diagnostic(DefaultMustSpecifyClass, declaredDefault.value)] else [])
      + ResolverConstructors.AllCorrespondenceErrors(cs, classOf)
    else if info.isInterface then IllegalConstructorErrors(cs)
    else []
  }

  /** One error per constructor of an interface without a default class, in order. */
  function IllegalConstructorErrors(cs: seq<Element>): (r: seq<Diagnostic>)
    ensures |r| == |cs|
    ensures forall k :: 0 <= k < |cs| ==> r[k] == Diagnostic(IllegalConstructorNoDefaultInInterface, ResolverConstructors.Site(cs[k]))
  {
    seq(|cs|, k requires 0 <= k < |cs| => Diagnostic(IllegalConstructorNoDefaultInInterface, ResolverConstructors.Site(cs[k])))
  }

  /** The loop reporting each constructor of an interface without a default class. */
  method ReportIllegalConstructors(cs: seq<Element>) returns (errors: seq<Diagnostic>)
    ensures errors == IllegalConstructorErrors(cs)
  {
    errors := [];
    for i := 0 to |cs|
      invariant |errors| == i
      invariant forall k :: 0 <= k < i ==> errors[k] == Diagnostic(IllegalConstructorNoDefaultInInterface, ResolverConstructors.Site(cs[k]))
    {
      errors := errors + [Diagnostic(IllegalConstructorNoDefaultInInterface, ResolverConstructors.Site(cs[i]))];
    }
  }

  /** The verification of the `default` clause at the end of `visitClass`. */
  method CheckDefaultClause(info: ClassInfo, declaredDefault: Option<nat>, classOf: Element -> ClassInfo)
    returns (errors: seq<Diagnostic>, defaults: seq<(Element, Element)>)
    requires info.defaultClass.Some? ==>
      declaredDefault.Some? && info.defaultClass.value.element.Some? && ResolverConstructors.AllResolvable(info.constructors, classOf)
    ensures errors == DefaultClauseErrors(info, declaredDefault, classOf)
    ensures info.defaultClass.Some? ==> defaults == ResolverConstructors.DefaultConstructorPairs(info.constructors, classOf)
    ensures info.defaultClass.None? ==> defaults == []
  {
    errors := [];
    defaults := [];
    if declaredDefault.Some? && info.defaultClass.None? {
      errors := [Diagnostic(NoSuchType, declaredDefault.value)];
    } else if info.defaultClass.Some? {
      if classOf(info.defaultClass.value.element.value).isInterface {
        errors := [Diagnostic(DefaultMustSpecifyClass, declaredDefault.value)];
      }
      var more;
      more, defaults := ResolverConstructors.CheckInterfaceConstructors(info, classOf);
      errors := errors + more;
    } else if info.isInterface {
      errors := ReportIllegalConstructors(info.constructors);
    }
  }

  /** The constructor checks at the end of `visitClass`. */
  method CheckClassConstructors(info: ClassInfo, declaredDefault: Option<nat>, classOf: Element -> ClassInfo,
                                initsOf: Element -> seq<Option<Element>>)
    returns (errors: seq<Diagnostic>, defaults: seq<(Element, Element)>)
    requires ResolverConstructors.ClosedUnderRedirect(info.constructors, initsOf)
    requires info.defaultClass.Some? ==>
      declaredDefault.Some? && info.defaultClass.value.element.Some? && ResolverConstructors.AllResolvable(info.constructors, classOf)
    ensures errors == ClassConstructorErrors(info, declaredDefault, classOf, initsOf)
    ensures info.defaultClass.Some? ==> defaults == ResolverConstructors.DefaultConstructorPairs(info.constructors, classOf)
    ensures info.defaultClass.None? ==> defaults == []
  {
    var cycleErrors := ResolverConstructors.CheckRedirectConstructorCycle(info.constructors, initsOf);
    var clauseErrors;
    clauseErrors, defaults := CheckDefaultClause(info, declaredDefault, classOf);
    errors := cycleErrors + clauseErrors;
  }

  /** `ResolveElementsVisitor`: the visitor's state while it walks a unit. */
  class ResolveElementsVisitor {
    /** The innermost scope of the resolution context. */
    var scope: Scope.Scope
    var currentHolder: Element
    /** Whether `currentHolder` is an interface. */
    var holderIsInterface: bool
    var currentMethod: Option<Element>
    var innermostFunction: Option<Element>
    var inInitializer: bool
    var currentLabel: Option<Scope.LabelInfo>
    /** The final instance fields of the current class without a value, in the order met. */
    var finalsNeedingInitializing: seq<Element>
    var referencedLabels: set<Element>
    var labelsInScopes: set<Element>
    /** What `checkConstructor` reads of `currentHolder` while a class is visited. */
    var currentClass: SuperContext

    constructor (scope: Scope.Scope, currentHolder: Element, holderIsInterface: bool, currentMethod: Option<Element>)
      ensures this.scope == scope && this.currentHolder == currentHolder && this.holderIsInterface == holderIsInterface
      ensures this.currentMethod == currentMethod && innermostFunction == currentMethod && !inInitializer
      ensures currentLabel.None? && finalsNeedingInitializing == [] && referencedLabels == {} && labelsInScopes == {}
    {
      this.scope := scope;
      this.currentHolder := currentHolder;
      this.holderIsInterface := holderIsInterface;
      this.currentMethod := currentMethod;
      innermostFunction := currentMethod;
      inInitializer := false;
      currentLabel := None;
      finalsNeedingInitializing := [];
      referencedLabels := {};
      labelsInScopes := {};
      currentClass := SuperContext(false, false, None);
    }

    /** `visitThisExpression`: the first failing check is reported at the expression. */
    method VisitThisExpression(site: nat) returns (errors: seq<Diagnostic>)
      ensures ThisError(currentHolder, currentMethod, inInitializer).None? ==> errors == []
      ensures ThisError(currentHolder, currentMethod, inInitializer).Some? ==>
        errors == [Diagnostic(ThisError(currentHolder, currentMethod, inInitializer).value, site)]
    {
      var error := ThisError(currentHolder, currentMethod, inInitializer);
      errors := if error.Some? then [Diagnostic(error.value, site)] else [];
    }

    /**
     * `visitSuperExpression`: the first failing check is reported; a legal `super` records
     * the super element of the holder's superclass.
     */
    method VisitSuperExpression(x: AstNode, superclass: Option<Element>) returns (r: Option<Element>, errors: seq<Diagnostic>)
      requires SuperError(currentHolder, currentMethod).None? ==> superclass.Some?
      modifies x`symbol
      ensures SuperError(currentHolder, currentMethod).Some? ==>
        r.None? && errors == [Diagnostic(SuperError(currentHolder, currentMethod).value, x.id)] && x.symbol == old(x.symbol)
      ensures SuperError(currentHolder, currentMethod).None? ==>
        errors == [] && r == Some(SuperElementOf(x.id, superclass.value)) && x.symbol == r
    {
      var error := SuperError(currentHolder, currentMethod);
      if error.Some? {
        return None, [Diagnostic(error.value, x.id)];
      }
      r := ResolveVisitor.RecordElement(x, Some(SuperElementOf(x.id, superclass.value)));
      errors := [];
    }

    /**
     * `visitGotoStatement`: a `break` or `continue` with a target resolves to the label
     * `findLabel` finds, which is recorded and counted as referenced; otherwise the label
     * cannot be resolved. As `findLabel` only returns labels of the innermost function, the
     * outer-label and not-a-label errors never arise.
     */
    method VisitGotoStatement(x: AstNode, targetName: Option<string>, labelSite: nat)
      returns (r: Option<Element>, errors: seq<Diagnostic>)
      requires scope.Valid()
      modifies x`symbol, this`referencedLabels
      ensures targetName.None? ==> r.None? && errors == [] && x.symbol == old(x.symbol) && referencedLabels == old(referencedLabels)
      ensures targetName.Some? && old(scope.FindLabel(targetName.value, innermostFunction)).Some? ==>
        var l := old(scope.FindLabel(targetName.value, innermostFunction)).value;
        r == Some(l.element) && x.symbol == r && errors == [] && referencedLabels == old(referencedLabels) + {l.element}
      ensures targetName.Some? && old(scope.FindLabel(targetName.value, innermostFunction)).None? ==>
        r.None? && errors == [Diagnostic(CannotResolveLabel, labelSite)]
        && x.symbol == old(x.symbol) && referencedLabels == old(referencedLabels)
      ensures Diagnostic(CannotAccessOuterLabel, labelSite) !in errors && Diagnostic(NotALabel, labelSite) !in errors
    {
      if targetName.None? {
        return None, [];
      }
      var found := scope.FindLabel(targetName.value, innermostFunction);
      if found.Some? {
        // the enclosing-function test of the source always passes here
        assert found.value.enclosingFunction == innermostFunction;
        referencedLabels := referencedLabels + {found.value.element};
        r := ResolveVisitor.RecordElement(x, Some(found.value.element));
        return r, [];
      }
      return None, [Diagnostic(CannotResolveLabel, labelSite)];
    }

    /**
     * The first half of `visitLabel`: a found element of the innermost function becomes the
     * current found and is recorded on the node; the previous found is returned for `EndLabel`.
     */
    method BeginLabel(x: AstNode, name: string) returns (previous: Option<Scope.LabelInfo>)
      modifies this`currentLabel, x`symbol
      ensures previous == old(currentLabel)
      ensures currentLabel == Some(Scope.LabelInfo(LabelElementOf(x.id, name, innermostFunction), innermostFunction))
      ensures x.symbol == Some(currentLabel.value.element)
    {
      previous := currentLabel;
      currentLabel := Some(Scope.LabelInfo(LabelElementOf(x.id, name, innermostFunction), innermostFunction));
      var _ := ResolveVisitor.RecordElement(x, Some(currentLabel.value.element));
    }

    /** The second half of `visitLabel`: the previous label is restored. */
    method EndLabel(previous: Option<Scope.LabelInfo>)
      modifies this`currentLabel
      ensures currentLabel == previous
    {
      currentLabel := previous;
    }

    /**
     * `addLabelToStatement`: a labelled statement puts the current label in its scope; a
     * `goto` from the same function with that name then finds it.
     */
    method AddLabelToStatement(parentIsLabel: bool)
      requires scope.Valid()
      modifies scope, this`labelsInScopes
      ensures scope.Valid() && scope.elements == old(scope.elements)
      ensures parentIsLabel && currentLabel.Some? ==>
        scope.currentLabel == currentLabel && labelsInScopes == old(labelsInScopes) + {currentLabel.value.element}
      ensures parentIsLabel && currentLabel.Some? ==>
        scope.FindLabel(currentLabel.value.element.name, currentLabel.value.enclosingFunction) == currentLabel
      ensures !(parentIsLabel && currentLabel.Some?) ==>
        scope.currentLabel == old(scope.currentLabel) && labelsInScopes == old(labelsInScopes)
    {
      if currentLabel.Some? && parentIsLabel {
        scope.SetLabel(currentLabel);
        labelsInScopes := labelsInScopes + {currentLabel.value.element};
      }
    }

    /**
     * `visitReturnStatement`: `return e;` directly in a generative constructor is an error;
     * in a function nested in one it is not.
     */
    method VisitReturnStatement(site: nat, hasValue: bool) returns (errors: seq<Diagnostic>)
      requires hasValue && currentMethod == innermostFunction ==> currentMethod.Some?
      ensures errors != [] <==>
        hasValue && currentMethod == innermostFunction && Elements.IsNonFactoryConstructor(currentMethod.value)
      ensures errors != [] ==> errors == [Diagnostic(InvalidReturnInConstructor, site)]
    {
      errors := [];
      if hasValue {
        if currentMethod == innermostFunction && Elements.IsNonFactoryConstructor(currentMethod.value) {
          errors := [Diagnostic(InvalidReturnInConstructor, site)];
        }
      }
    }

    /**
     * `visitMapLiteral`: the literal's type is the map type instantiated with the normalized
     * type arguments (`instantiate` stands for the context's instantiation).
     */
    method VisitMapLiteral(node: AstNode, given: seq<nat>, instantiate: seq<TypeArgument> -> Type) returns (errors: seq<Diagnostic>)
      modifies node`nodeType
      ensures errors == MapTypeArguments(given, node.id).1
      ensures node.nodeType == Some(instantiate(MapTypeArguments(given, node.id).0))
    {
      var (typeArgs, mapErrors) := MapTypeArguments(given, node.id);
      errors := mapErrors;
      node.nodeType := Some(instantiate(typeArgs));
    }

    /**
     * `visitField`: a top-level final field becomes static; a value's type becomes the field's
     * type; a final field without a value is an error when static and is otherwise left for
     * the constructors to initialize; then the getter and the setter are visited. The field's
     * static-ness is read before it is changed.
     */
    method VisitField(f: FieldNode) returns (errors: seq<Diagnostic>, mods: Modifiers, fieldType: Option<Type>)
      modifies this`finalsNeedingInitializing, this`currentMethod, this`innermostFunction
      ensures errors == FieldVisitErrors(f, old(finalsNeedingInitializing), holderIsInterface, currentClass)
      ensures finalsNeedingInitializing == CollectFinal(old(finalsNeedingInitializing), f)
      ensures mods == f.mods.(isStatic := f.mods.isStatic || (currentHolder.kind == Library && f.mods.isFinal))
      ensures fieldType == if f.hasValue && f.valueType.Some? then f.valueType else f.symbol.elemType
      ensures f.getter.Some? || f.setter.Some? ==> currentMethod.None? && innermostFunction.None?
      ensures f.getter.None? && f.setter.None? ==>
        currentMethod == old(currentMethod) && innermostFunction == old(innermostFunction)
    {
      var isStatic := f.mods.isStatic;
      var isFinal := f.mods.isFinal;
      var isTopLevel := KindOf(Some(currentHolder)) == Library;
      mods := f.mods;
      if isTopLevel && isFinal {
        mods := mods.(isStatic := true);
      }
      errors := [];
      fieldType := f.symbol.elemType;
      if f.hasValue {
        if f.valueType.Some? {
          fieldType := f.valueType;
        }
      } else if isFinal {
        if isStatic {
          errors := [Diagnostic(StaticFinalRequiresValue, f.site)];
        } else if f.symbol !in finalsNeedingInitializing {
          finalsNeedingInitializing := finalsNeedingInitializing + [f.symbol];
        }
      }
      assert errors == FieldErrors(f);
      var accessorErrors := VisitAccessors(f);
      errors := errors + accessorErrors;
    }

    /** The end of `visitField`: the field's getter and then its setter are visited. */
    method VisitAccessors(f: FieldNode) returns (errors: seq<Diagnostic>)
      modifies this`currentMethod, this`innermostFunction
      ensures errors == AccessorErrors(f, finalsNeedingInitializing, holderIsInterface, currentClass)
      ensures f.getter.Some? || f.setter.Some? ==> currentMethod.None? && innermostFunction.None?
      ensures f.getter.None? && f.setter.None? ==>
        currentMethod == old(currentMethod) && innermostFunction == old(innermostFunction)
    {
      var getterErrors, setterErrors := [], [];
      if f.getter.Some? {
        getterErrors := VisitMethodDefinition(f.getter.value);
      }
      if f.setter.Some? {
        setterErrors := VisitMethodDefinition(f.setter.value);
      }
      errors := getterErrors + setterErrors;
    }

    /**
     * `visitMethodDefinition`: the errors stated by `MethodDefinitionErrors`; the method is the
     * current and innermost function while it is visited, and neither is set afterwards.
     */
    method VisitMethodDefinition(m: MethodDefinition) returns (errors: seq<Diagnostic>)
      modifies this`currentMethod, this`innermostFunction
      ensures errors == MethodDefinitionErrors(m, finalsNeedingInitializing, holderIsInterface, currentClass)
      ensures currentMethod.None? && innermostFunction.None?
    {
      currentMethod := Some(m.member);
      innermostFunction := currentMethod;
      var initialized, parameterErrors := InitializeFromParameters(m.params);
      errors := parameterErrors;
      if !m.hasBody && !Elements.IsNonFactoryConstructor(m.member) && !m.member.mods.isAbstract && !holderIsInterface {
        errors := errors + [Diagnostic(MethodMustHaveBody, m.functionSite)];
      }
      assert errors == parameterErrors + BodyErrors(m, holderIsInterface);
      var more := [];
      if Elements.IsNonFactoryConstructor(m.member) {
        more := CheckConstructorInitialization(m, initialized);
      }
      errors := errors + more;
      currentMethod := None;
      innermostFunction := None;
    }

    /** `resolveInitializers`, with `checkConstructor`, and the test for final fields left uninitialized. */
    method CheckConstructorInitialization(m: MethodDefinition, initialized: set<Option<Element>>) returns (errors: seq<Diagnostic>)
      ensures errors == ConstructorInitErrors(m, initialized, finalsNeedingInitializing, holderIsInterface, currentClass)
    {
      var allInitialized, initializerErrors, superCall := InitializeFromInitializers(initialized, m.initializers);
      var checkErrors := CheckConstructor(m, superCall);
      errors := initializerErrors + checkErrors;
      if !holderIsInterface && !m.member.mods.isRedirected {
        var missing := ReportMissingFinals(finalsNeedingInitializing, allInitialized, m.nameSite);
        errors := errors + missing;
      } else {
        assert seq(0, _ => Diagnostic(FinalFieldMustBeInitialized, m.nameSite)) == [];
        assert errors + seq(0, _ => Diagnostic(FinalFieldMustBeInitialized, m.nameSite)) == errors;
      }
    }

    /**
     * `checkConstructor`: without an invoked constructor the superclass's unnamed one is
     * called; then the missing implicit call or a non-`const` call from a `const` constructor
     * is reported.
     */
    method CheckConstructor(m: MethodDefinition, explicit: Option<Element>) returns (errors: seq<Diagnostic>)
      ensures errors == CheckConstructorErrors(m, explicit, currentClass)
    {
      var superCall := explicit;
      if superCall.None? {
        if currentClass.superclass.Some? {
          superCall := ResolverConstructors.LookupConstructor(currentClass.superclass.value, "");
        }
      }
      errors := [];
      if superCall.None? && !currentClass.isObject && !currentClass.isObjectChild {
        if currentClass.superclass.Some? {
          var superElement := currentClass.superclass.value;
          if !HasDefaultConstructor(superElement) {
            errors := [Diagnostic(CannotResolveImplicitCallToSuperConstructor, m.site)];
          }
        }
      } else if superCall.Some? && m.member.mods.isConstant && !superCall.value.mods.isConstant {
        errors := [Diagnostic(ConstConstructorMustCallConstSuper, m.site)];
      }
    }

    /** The member loop of `visitClass`: fields collect finals, methods see those collected so far. */
    method VisitMembers(members: seq<ClassMember>) returns (errors: seq<Diagnostic>)
      requires finalsNeedingInitializing == []
      modifies this`finalsNeedingInitializing, this`currentMethod, this`innermostFunction
      ensures errors == MembersErrors(members, holderIsInterface, currentClass)
      ensures finalsNeedingInitializing == MembersFinals([], members)
    {
      errors := [];
      for i := 0 to |members|
        invariant errors == MembersErrors(members[..i], holderIsInterface, currentClass)
        invariant finalsNeedingInitializing == MembersFinals([], members[..i])
      {
        assert members[..i + 1][..i] == members[..i];
        match members[i]
        case FieldMember(f) =>
          var more, _, _ := VisitField(f);
          errors := errors + more;
        case MethodMember(m) =>
          var more := VisitMethodDefinition(m);
          errors := errors + more;
      }
      assert members[..|members|] == members;
    }

    /** The constructor loop of `visitClass`. */
    method VisitConstructors(constructors: seq<MethodDefinition>) returns (errors: seq<Diagnostic>)
      modifies this`currentMethod, this`innermostFunction
      ensures errors == ConstructorsErrors(constructors, finalsNeedingInitializing, holderIsInterface, currentClass)
    {
      errors := [];
      for i := 0 to |constructors|
        invariant errors == ConstructorsErrors(constructors[..i], finalsNeedingInitializing, holderIsInterface, currentClass)
      {
        assert constructors[..i + 1][..i] == constructors[..i];
        var more := VisitMethodDefinition(constructors[i]);
        errors := errors + more;
      }
      assert constructors[..|constructors|] == constructors;
    }

    /**
     * `visitClass`: with the class as holder and no finals collected, the members and then the
     * constructors are visited, then the class's constructors are checked; the previous
     * holder is restored. `sup` is what `checkConstructor` reads of the class.
     */
    method VisitClass(info: ClassInfo, sup: SuperContext, members: seq<ClassMember>, constructors: seq<MethodDefinition>,
                      declaredDefault: Option<nat>, classOf: Element -> ClassInfo, initsOf: Element -> seq<Option<Element>>)
      returns (errors: seq<Diagnostic>, defaults: seq<(Element, Element)>)
      requires ResolverConstructors.ClosedUnderRedirect(info.constructors, initsOf)
      requires info.defaultClass.Some? ==>
        declaredDefault.Some? && info.defaultClass.value.element.Some? && ResolverConstructors.AllResolvable(info.constructors, classOf)
      modifies this`currentHolder, this`holderIsInterface, this`currentClass, this`finalsNeedingInitializing
      modifies this`currentMethod, this`innermostFunction
      ensures finalsNeedingInitializing == MembersFinals([], members)
      ensures errors ==
        MembersErrors(members, info.isInterface, sup)
        + ConstructorsErrors(constructors, MembersFinals([], members), info.isInterface, sup)
        + ClassConstructorErrors(info, declaredDefault, classOf, initsOf)
      ensures info.defaultClass.Some? ==> defaults == ResolverConstructors.DefaultConstructorPairs(info.constructors, classOf)
      ensures currentHolder == old(currentHolder) && holderIsInterface == old(holderIsInterface)
      ensures currentClass == old(currentClass)
    {
      var previousHolder, previousIsInterface, previousClass := currentHolder, holderIsInterface, currentClass;
      currentHolder := info.element;
      holderIsInterface := info.isInterface;
      currentClass := sup;
      finalsNeedingInitializing := [];
      var memberErrors := VisitMembers(members);
      var constructorErrors := VisitConstructors(constructors);
      var checkErrors;
      checkErrors, defaults := CheckClassConstructors(info, declaredDefault, classOf, initsOf);
      errors := memberErrors + constructorErrors + checkErrors;
      currentHolder, holderIsInterface, currentClass := previousHolder, previousIsInterface, previousClass;
    }
  }
}
