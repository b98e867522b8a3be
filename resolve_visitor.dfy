/**
 * `ResolveVisitor`: the steps the member builder and the resolver share: resolving a type
 * node (falling back to Dynamic), recording an element on a node, binding type variables,
 * and resolving a function's parameters and type.
 */
module ResolveVisitor {
  import opened Wrappers
  import opened ElementModel
  import Scope
  import opened SupertypeResolver

  /** A type node and the identifier it names its type with. */
  datatype TypeNode = TypeNode(node: AstNode, identifier: AstNode)

  /** The type `resolveType` settles on: the resolved one, or Dynamic when there is none. */
  function TypeOrDynamic(node: Option<TypeNode>, resolve: AstNode -> Option<Type>, dynamicType: Type): (t: Type)
    ensures node.None? ==> t == dynamicType
    ensures node.Some? && resolve(node.value.node).None? ==> t == dynamicType
    ensures node.Some? && resolve(node.value.node).Some? ==> t == resolve(node.value.node).value
  {
    if node.None? then dynamicType
    else
      var resolved := resolve(node.value.node);
      if resolved.None? then dynamicType else resolved.value
  }

  /** `recordElement`: a null element leaves the node alone; any other becomes its symbol. */
  method RecordElement(node: AstNode, element: Option<Element>) returns (r: Option<Element>)
    modifies node`symbol
    ensures r == element
    ensures element.None? ==> node.symbol == old(node.symbol)
    ensures element.Some? ==> node.symbol == element
  {
    if element.None? {
      return None;
    }
    node.symbol := element;
    return element;
  }

  /**
   * `resolveType`: Dynamic for a missing node; otherwise the resolved type, or Dynamic when
   * it does not resolve, becomes the node's type, and its element the identifier's symbol.
   */
  method ResolveType(node: Option<TypeNode>, resolve: AstNode -> Option<Type>, dynamicType: Type) returns (t: Type)
    modifies if node.Some? then {node.value.node, node.value.identifier} else {}
    ensures t == TypeOrDynamic(node, resolve, dynamicType)
    ensures node.Some? ==> node.value.node.nodeType == Some(t)
    ensures node.Some? && node.value.identifier != node.value.node ==>
      node.value.identifier.nodeType == old(node.value.identifier.nodeType)
    ensures node.Some? && node.value.identifier != node.value.node ==>
      node.value.node.symbol == old(node.value.node.symbol)
    ensures node.Some? && t.element.Some? ==> node.value.identifier.symbol == t.element
    ensures node.Some? && t.element.None? ==> node.value.identifier.symbol == old(node.value.identifier.symbol)
  {
    if node.None? {
      return dynamicType;
    }
    var resolved := resolve(node.value.node);
    t := if resolved.None? then dynamicType else resolved.value;
    node.value.node.nodeType := Some(t);
    var _ := RecordElement(node.value.identifier, t.element);
  }

  /** `bindTypeVariable`: the bound is the resolved bound node, which gets that type, or Object. */
  method BindTypeVariable(variable: TypeVariableState, res: Resolution)
    modifies variable, if variable.boundNode != null then {variable.boundNode} else {}
    ensures variable.bound == Some(BoundOf(variable, res))
    ensures variable.boundNode != null ==> variable.boundNode.nodeType == Some(BoundOf(variable, res))
    ensures variable.boundNode != null ==> variable.boundNode.symbol == old(variable.boundNode.symbol)
  {
    var boundNode := variable.boundNode;
    var bound: Type;
    if boundNode != null {
      bound := res.resolveType(boundNode);
      boundNode.nodeType := Some(bound);
    } else {
      bound := res.objectType;
    }
    variable.bound := Some(bound);
  }

  /** The bindings after declaring the variables' elements in order. */
  ghost function WithVariables(m: map<string, Element>, vs: seq<TypeVariableState>): (r: map<string, Element>)
    ensures forall n :: n in m ==> n in r
    ensures r.Keys == m.Keys + set i | 0 <= i < |vs| :: vs[i].element.name
    decreases |vs|
  {
    if |vs| == 0 then m
    else
      var init := WithVariables(m, vs[..|vs| - 1]);
      assert forall i :: 0 <= i < |vs| - 1 ==> vs[..|vs| - 1][i] == vs[i];
      init[vs[|vs| - 1].element.name := vs[|vs| - 1].element]
  }

  /** After binding, each name is bound to the last variable of that name. */
  lemma {:induction false} LastVariableWins(m: map<string, Element>, vs: seq<TypeVariableState>, k: nat)
    requires k < |vs| && forall j :: k < j < |vs| ==> vs[j].element.name != vs[k].element.name
    ensures WithVariables(m, vs)[vs[k].element.name] == vs[k].element
    decreases |vs|
  {
    if k < |vs| - 1 {
      var init := vs[..|vs| - 1];
      assert init[k] == vs[k];
      assert forall j :: k < j < |init| ==> init[j] == vs[j];
      LastVariableWins(m, init, k);
    }
  }

  /**
   * `bindTypeVariables`: nothing for a missing list; otherwise each variable is bound and
   * then declared in the scope, in order.
   */
  method BindTypeVariables(variables: Option<seq<TypeVariableState>>, scope: Scope.Scope, res: Resolution)
    modifies scope
    modifies if variables.Some? then TypeVariableSet(variables.value) else {}
    modifies if variables.Some? then BoundNodeSet(variables.value) else {}
    ensures variables.None? ==> scope.elements == old(scope.elements)
    ensures variables.Some? ==> scope.elements == WithVariables(old(scope.elements), variables.value)
    ensures variables.Some? ==> forall i :: 0 <= i < |variables.value| ==>
      variables.value[i].bound == Some(BoundOf(variables.value[i], res))
    ensures variables.Some? ==> forall i :: 0 <= i < |variables.value| && variables.value[i].boundNode != null ==>
      variables.value[i].boundNode.nodeType == Some(BoundOf(variables.value[i], res))
    ensures variables.Some? ==> forall i :: 0 <= i < |variables.value| && variables.value[i].boundNode != null ==>
      variables.value[i].boundNode.symbol == old(variables.value[i].boundNode.symbol)
  {
    if variables.Some? {
      BindEach(variables.value, scope, res);
    }
  }

  /** The loop of `bindTypeVariables` over a present list. */
  method BindEach(vs: seq<TypeVariableState>, scope: Scope.Scope, res: Resolution)
    modifies scope, TypeVariableSet(vs), BoundNodeSet(vs)
    ensures scope.elements == WithVariables(old(scope.elements), vs)
    ensures forall i :: 0 <= i < |vs| ==> vs[i].bound == Some(BoundOf(vs[i], res))
    ensures forall i :: 0 <= i < |vs| && vs[i].boundNode != null ==> vs[i].boundNode.nodeType == Some(BoundOf(vs[i], res))
    ensures forall i :: 0 <= i < |vs| && vs[i].boundNode != null ==> vs[i].boundNode.symbol == old(vs[i].boundNode.symbol)
  {
    for i := 0 to |vs|
      invariant scope.elements == WithVariables(old(scope.elements), vs[..i])
      invariant forall k :: 0 <= k < i ==> vs[k].bound == Some(BoundOf(vs[k], res))
      invariant forall k :: 0 <= k < i && vs[k].boundNode != null ==> vs[k].boundNode.nodeType == Some(BoundOf(vs[k], res))
      invariant forall k :: 0 <= k < |vs| && vs[k].boundNode != null ==> vs[k].boundNode.symbol == old(vs[k].boundNode.symbol)
    {
      assert scope !in TypeVariableSet(vs) && scope !in BoundNodeSet(vs);
      BindTypeVariable(vs[i], res);
      assert forall k :: 0 <= k <= i ==> vs[k].bound == Some(BoundOf(vs[k], res));
      assert forall k :: 0 <= k <= i && vs[k].boundNode != null ==> vs[k].boundNode.nodeType == Some(BoundOf(vs[k], res));
      var _ := scope.DeclareElement(vs[i].element.name, vs[i].element);
      assert vs[..i + 1][..i] == vs[..i];
    }
    assert vs[..|vs|] == vs;
  }

  /**
   * `resolveFunction`: the parameter elements are added to the function's element in order,
   * then its type becomes the function type of those parameters and the resolved return type.
   * `makeFunctionType` stands for `Types.makeFunctionType`.
   */
  method ResolveFunction(element: Element, parameters: seq<Element>, returnTypeNode: Option<TypeNode>,
                         resolve: AstNode -> Option<Type>, dynamicType: Type,
                         makeFunctionType: (seq<Element>, Type) -> Type)
    returns (r: Element)
    modifies if returnTypeNode.Some? then {returnTypeNode.value.node, returnTypeNode.value.identifier} else {}
    ensures r.params == element.params + parameters
    ensures r.elemType == Some(makeFunctionType(r.params, TypeOrDynamic(returnTypeNode, resolve, dynamicType)))
    ensures r.(params := element.params, elemType := element.elemType) == element
    ensures returnTypeNode.Some? ==>
      returnTypeNode.value.node.nodeType == Some(TypeOrDynamic(returnTypeNode, resolve, dynamicType))
    ensures returnTypeNode.Some? && TypeOrDynamic(returnTypeNode, resolve, dynamicType).element.Some? ==>
      returnTypeNode.value.identifier.symbol == TypeOrDynamic(returnTypeNode, resolve, dynamicType).element
    ensures returnTypeNode.Some? && TypeOrDynamic(returnTypeNode, resolve, dynamicType).element.None? ==>
      returnTypeNode.value.identifier.symbol == old(returnTypeNode.value.identifier.symbol)
    ensures returnTypeNode.Some? && returnTypeNode.value.identifier != returnTypeNode.value.node ==>
      returnTypeNode.value.identifier.nodeType == old(returnTypeNode.value.identifier.nodeType)
      && returnTypeNode.value.node.symbol == old(returnTypeNode.value.node.symbol)
  {
    r := element;
    for i := 0 to |parameters|
      invariant r == element.(params := element.params + parameters[..i])
    {
      r := r.(params := r.params + [parameters[i]]);
      assert parameters[..i + 1] == parameters[..i] + [parameters[i]];
    }
    assert parameters[..|parameters|] == parameters;
    var returnType := ResolveType(returnTypeNode, resolve, dynamicType);
    r := r.(elemType := Some(makeFunctionType(r.params, returnType)));
  }
}
