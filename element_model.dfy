/**
 * The resolver's shared vocabulary: element kinds, modifiers, elements, types,
 * sources, diagnostics and annotated AST nodes.
 *
 * Java elements are objects compared by identity; here an element is a value
 * whose `id` stands for that identity, and its enclosing element is a nested value.
 */
module ElementModel {
  import opened Wrappers

  /** `ElementKind`; `NoKind` is `ElementKind.NONE`, the kind `ElementKind.of(null)` yields. */
  datatype ElementKind =
    | NoKind | Dynamic | Library | Class | Constructor | Method | Field | Variable
    | Parameter | TypeVariable | FunctionTypeAlias | Label | Super | FunctionObject | Void

  /** The declaration modifiers the resolver consults. */
  datatype Modifiers = Modifiers(
    isStatic: bool, isFinal: bool, isConstant: bool, isAbstract: bool, isFactory: bool,
    isGetter: bool, isSetter: bool, isOperator: bool, isAbstractField: bool,
    isNamed: bool, isRedirected: bool)

  const NoModifiers := Modifiers(false, false, false, false, false, false, false, false, false, false, false)

  /**
   * A library source: its URI, the scheme-specific part of that URI, and its name
   * ("dart://core/corelib.dart").
   */
  datatype LibrarySource = LibrarySource(uri: string, schemeSpecificPart: string, name: string)

  /** The source of a node: a unit of a library (`DartSource`), or any other source. */
  datatype Source =
    | DartSource(library: Option<LibrarySource>, name: string, relativePath: string, lastModified: int)
    | OtherSource(name: string)

  /** The source of a compilation unit, which is always a unit of a library. */
  type UnitSource = s: Source | s.DartSource? witness DartSource(None, "", "", 0)

  /** What a parent walk from a node meets: a unit, a class, a class member, anything else. */
  datatype NodeShape = UnitNode | ClassNode | MemberNode(isStatic: bool) | OtherNode

  /** The name expression of a method definition: `x`, `C<T>`, `q.x`. */
  datatype NameExpr =
    | Ident(name: string)
    | Parameterized(expr: NameExpr)
    | PropertyAccess(qualifier: NameExpr, name: string)

  /**
   * The declaring node of an element: whether it is a `DartDeclaration`, the name
   * expression when it is a method definition, its source, and the shapes met walking
   * from it to the root (the node itself first).
   */
  datatype DeclNode = DeclNode(
    id: nat, isDeclaration: bool, methodName: Option<NameExpr>, source: Source, path: seq<NodeShape>)

  datatype TypeKind = NoType | DynamicType | InterfaceType | FunctionType | FunctionAliasType | VariableType | VoidType

  /** A type and the element it names (`Type.getElement()`). */
  datatype Type = Type(kind: TypeKind, element: Option<Element>)

  /**
   * An element. `node` is `None` for synthetic elements; `params` are the parameters of a
   * method or constructor; `ctorType` is the class a constructor constructs.
   */
  datatype Element = Element(
    id: nat,
    name: string,
    kind: ElementKind,
    mods: Modifiers,
    enclosing: Option<Element>,
    node: Option<DeclNode>,
    params: seq<Element>,
    elemType: Option<Type>,
    ctorType: Option<Element>)

  /** `ElementKind.of(e)`: `NONE` for null. */
  function KindOf(e: Option<Element>): (k: ElementKind)
    ensures e.None? ==> k == NoKind
    ensures e.Some? ==> k == e.value.kind
  {
    if e.None? then NoKind else e.value.kind
  }

  /** The identity of a nullable element reference: its id, or none for null. */
  function IdOf(e: Option<Element>): (r: Option<nat>)
    ensures r.None? <==> e.None?
    ensures e.Some? ==> r == Some(e.value.id)
  {
    if e.None? then None else Some(e.value.id)
  }

  /** `TypeKind.of(t)`: `NONE` for null. */
  function TypeKindOf(t: Option<Type>): (k: TypeKind)
    ensures t.None? ==> k == NoType
    ensures t.Some? ==> k == t.value.kind
  {
    if t.None? then NoType else t.value.kind
  }

  /**
   * A top-level node of a unit, with the symbols the element builder attached: a field
   * definition carries one element per declared field, any other declaration one element.
   */
  datatype TopLevelNode = FieldDefinition(fields: seq<Element>) | Declaration(symbol: Element)

  /**
   * The class-specific view of a class or interface element. `allSupertypes` is
   * `None` when enumerating the supertypes throws (a cyclic hierarchy).
   */
  datatype ClassInfo = ClassInfo(
    element: Element,
    isInterface: bool,
    constructors: seq<Element>,
    defaultClass: Option<Type>,
    allSupertypes: Option<seq<Type>>)

  /** The resolver's error codes (those of `ResolverErrorCode` the model reports). */
  datatype ErrorCode =
    | DuplicateTopLevelDefinition
    | BlackListedExtends | BlackListedImplements
    | DuplicateMember | ExpectedOneArgument
    | CannotDeclareNonFactoryConstructor | TooManyQualifiersForMethod
    | ConstructorCannotBeStatic | ConstructorCannotBeAbstract | ConstConstructorCannotHaveBody
    | FactoryCannotBeStatic | FactoryCannotBeAbstract | FactoryCannotBeConst
    | ConstructorCannotHaveReturnType
    | ThisOnTopLevel | ThisOutsideOfMethod | ThisInStaticMethod | ThisInFactoryConstructor
    | ThisInInitializerAsExpression
    | SuperOnTopLevel | SuperOutsideOfMethod | SuperInStaticMethod | SuperInFactoryConstructor
    | DefaultConstructorUnresolved | DefaultConstructorNumberOfRequiredParameters
    | DefaultConstructorNamedParameters | IllegalConstructorNoDefaultInInterface
    | NewExpressionCantUseTypeVar | NewExpressionNotConstructor | ConstAndNonConstConstructor
    | DuplicateInitialization | FinalFieldMustBeInitialized | StaticFinalRequiresValue
    | DeprecatedMapLiteralSyntax | WrongNumberOfTypeArguments
    | CannotResolveLabel | CannotAccessOuterLabel | NotALabel
    | RedirectedConstructorCycle | InvalidReturnInConstructor | InvalidTypeNameInConstructor
    | MethodMustHaveBody | NoSuchType | DefaultMustSpecifyClass
    | CannotResolveImplicitCallToSuperConstructor | ConstConstructorMustCallConstSuper

  /** One reported error: its code and the id of the node or element it is reported at. */
  datatype Diagnostic = Diagnostic(code: ErrorCode, site: nat)

  /** `reportDuplicateDeclaration`: one error at the element's node when it is a declaration, else none. */
  function DuplicateDeclarationReport(code: ErrorCode, e: Element): (r: seq<Diagnostic>)
    ensures |r| <= 1
    ensures r != [] <==> e.node.Some? && e.node.value.isDeclaration
    ensures r != [] ==> r[0] == Diagnostic(code, e.node.value.id)
  {
    if e.node.Some? && e.node.value.isDeclaration then [Diagnostic(code, e.node.value.id)] else []
  }

  /** An AST node the resolver annotates with a symbol and a type. */
  class AstNode {
    const id: nat
    const name: string
    var symbol: Option<Element>
    var nodeType: Option<Type>

    constructor (id: nat, name: string)
      ensures this.id == id && this.name == name && symbol.None? && nodeType.None?
    {
      this.id := id;
      this.name := name;
      symbol := None;
      nodeType := None;
    }
  }
}
