/**
 * `Scope`: a chained environment of the resolver. Each scope maps names to elements,
 * may carry one label, knows its library, and defers to its parent.
 */
module Scope {
  import opened Wrappers
  import opened ElementModel

  /** `DartIdentifier.isPrivateName`: Dart names starting with an underscore are library-private. */
  predicate IsPrivateName(name: string) {
    |name| > 0 && name[0] == '_'
  }

  /** A label element and the function it is declared in (`getEnclosingFunction`). */
  datatype LabelInfo = LabelInfo(element: Element, enclosingFunction: Option<Element>)

  class Scope {
    var elements: map<string, Element>
    const parent: Scope?
    const name: string
    var currentLabel: Option<LabelInfo>
    const library: Option<Element>
    /** Distance to the root scope; the parent chain is finite and acyclic. */
    ghost const depth: nat

    ghost predicate Valid()
      decreases depth
    {
      parent != null ==> parent.depth < depth && parent.Valid()
    }

    /** This scope and its ancestors, innermost first. */
    ghost function Chain(): (c: seq<Scope>)
      requires Valid()
      ensures |c| > 0 && c[0] == this
      ensures forall k :: 0 <= k < |c| ==> c[k].Valid()
      ensures forall k :: 0 < k < |c| ==> c[k - 1].parent == c[k]
      ensures c[|c| - 1].parent == null
      decreases depth
    {
      if parent == null then [this] else [this] + parent.Chain()
    }

    ghost function Ancestors(): (s: set<Scope>)
      requires Valid()
      ensures this in s
      ensures forall k :: 0 <= k < |Chain()| ==> Chain()[k] in s
      decreases depth
    {
      if parent == null then {this}
      else
        var s := {this} + parent.Ancestors();
        assert forall k :: 0 < k < |Chain()| ==> Chain()[k] == parent.Chain()[k - 1];
        s
    }

    constructor (name: string, library: Option<Element>, parent: Scope?)
      requires parent != null ==> parent.Valid()
      ensures Valid()
      ensures this.name == name && this.library == library && this.parent == parent
      ensures elements == map[] && currentLabel.None?
    {
      this.name := name;
      this.library := library;
      this.parent := parent;
      this.depth := if parent == null then 0 else parent.depth + 1;
      elements := map[];
      currentLabel := None;
    }

    /** `clear`: empties the local bindings only. */
    method Clear()
      modifies this
      ensures elements == map[] && currentLabel == old(currentLabel)
    {
      elements := map[];
    }

    /** `declareElement`: binds `n` to `e` here and returns the binding it replaces. */
    method DeclareElement(n: string, e: Element) returns (previous: Option<Element>)
      modifies this
      ensures previous == old(FindLocalElement(n))
      ensures elements == old(elements)[n := e]
      ensures FindLocalElement(n) == Some(e)
      ensures forall m :: m != n ==> FindLocalElement(m) == old(FindLocalElement(m))
      ensures currentLabel == old(currentLabel)
    {
      previous := if n in elements then Some(elements[n]) else None;
      elements := elements[n := e];
    }

    function FindLocalElement(n: string): (r: Option<Element>)
      reads this
      ensures r.Some? <==> n in elements
      ensures r.Some? ==> r.value == elements[n]
    {
      if n in elements then Some(elements[n]) else None
    }

    /** `isClear`: no local bindings. */
    function IsClear(): (r: bool)
      reads this
      ensures r <==> forall n :: FindLocalElement(n).None?
    {
      assert forall n :: n in elements ==> FindLocalElement(n).Some?;
      |elements| == 0
    }

    /** `setLabel`. */
    method SetLabel(l: Option<LabelInfo>)
      modifies this
      ensures currentLabel == l && elements == old(elements)
    {
      currentLabel := l;
    }

    /**
     * Scope `s` yields a binding of `n` to a lookup from `fromLibrary`: it binds `n`, and the
     * lookup ignores libraries, or `n` is public, or `s` belongs to `fromLibrary`.
     */
    static ghost predicate Yields(s: Scope, fromLibrary: Option<Element>, n: string)
      reads s
    {
      n in s.elements && (fromLibrary.None? || !IsPrivateName(n) || fromLibrary == s.library)
    }

    /**
     * `findElement`: the binding of the innermost scope on the parent chain that yields
     * one, or null when none does.
     */
    function FindElement(fromLibrary: Option<Element>, n: string): (r: Option<Element>)
      requires Valid()
      reads Ancestors()
      ensures r.Some? <==> exists k :: 0 <= k < |Chain()| && Yields(Chain()[k], fromLibrary, n)
      ensures r.Some? ==>
        exists k :: 0 <= k < |Chain()| && Yields(Chain()[k], fromLibrary, n) && r.value == Chain()[k].elements[n] &&
          forall j :: 0 <= j < k ==> !Yields(Chain()[j], fromLibrary, n)
      decreases depth
    {
      var local := if fromLibrary.None? || !IsPrivateName(n) || fromLibrary == library
        then FindLocalElement(n) else None;
      if local.Some? then
        assert Yields(Chain()[0], fromLibrary, n);
        local
      else if parent == null then None
      else
        var r := parent.FindElement(fromLibrary, n);
        ShiftYields(fromLibrary, n, r);
        r
    }

    /** The lookup result of the parent is the result of this scope when this scope yields nothing. */
    lemma ShiftYields(fromLibrary: Option<Element>, n: string, r: Option<Element>)
      requires Valid() && parent != null && !Yields(this, fromLibrary, n)
      requires r.Some? <==> exists k :: 0 <= k < |parent.Chain()| && Yields(parent.Chain()[k], fromLibrary, n)
      requires r.Some? ==>
        exists k :: 0 <= k < |parent.Chain()| && Yields(parent.Chain()[k], fromLibrary, n) && r.value == parent.Chain()[k].elements[n] &&
          forall j :: 0 <= j < k ==> !Yields(parent.Chain()[j], fromLibrary, n)
      ensures r.Some? <==> exists k :: 0 <= k < |Chain()| && Yields(Chain()[k], fromLibrary, n)
      ensures r.Some? ==>
        exists k :: 0 <= k < |Chain()| && Yields(Chain()[k], fromLibrary, n) && r.value == Chain()[k].elements[n] &&
          forall j :: 0 <= j < k ==> !Yields(Chain()[j], fromLibrary, n)
    {
      var c, pc := Chain(), parent.Chain();
      assert c == [this] + pc;
      if r.Some? {
        var k :| 0 <= k < |pc| && Yields(pc[k], fromLibrary, n) && r.value == pc[k].elements[n] &&
          forall j :: 0 <= j < k ==> !Yields(pc[j], fromLibrary, n);
        assert c[k + 1] == pc[k];
        assert forall j :: 0 < j < k + 1 ==> c[j] == pc[j - 1];
      } else {
        assert !(exists k :: 0 <= k < |parent.Chain()| && Yields(parent.Chain()[k], fromLibrary, n));
        assert forall k :: 0 <= k < |pc| ==> !Yields(pc[k], fromLibrary, n);
        forall k | 0 <= k < |c|
          ensures !Yields(c[k], fromLibrary, n)
        {
          if k > 0 {
            assert c[k] == pc[k - 1];
            assert !Yields(pc[k - 1], fromLibrary, n);
          } else {
            assert c[k] == this;
          }
        }
      }
    }

    /** A label matches a `goto` when it has the target name and the same innermost function. */
    static predicate LabelMatches(l: Option<LabelInfo>, targetName: string, innermostFunction: Option<Element>) {
      l.Some? && l.value.element.name == targetName && innermostFunction == l.value.enclosingFunction
    }

    /**
     * `findLabel`: the label of the innermost scope whose label has the target name and
     * belongs to the same innermost function; null at the root.
     */
    function FindLabel(targetName: string, innermostFunction: Option<Element>): (r: Option<LabelInfo>)
      requires Valid()
      reads Ancestors()
      ensures r.Some? ==> r.value.element.name == targetName && r.value.enclosingFunction == innermostFunction
      ensures r.None? <==> forall k :: 0 <= k < |Chain()| ==> !LabelMatches(Chain()[k].currentLabel, targetName, innermostFunction)
      ensures r.Some? ==>
        exists k :: 0 <= k < |Chain()| && Chain()[k].currentLabel == r &&
          forall j :: 0 <= j < k ==> !LabelMatches(Chain()[j].currentLabel, targetName, innermostFunction)
      decreases depth
    {
      if LabelMatches(currentLabel, targetName, innermostFunction) then
        assert Chain()[0].currentLabel == currentLabel;
        currentLabel
      else if parent == null then None
      else
        var r := parent.FindLabel(targetName, innermostFunction);
        ShiftLabel(targetName, innermostFunction, r);
        r
    }

    /** The label found from the parent is the label found here when this scope's label does not match. */
    lemma ShiftLabel(targetName: string, innermostFunction: Option<Element>, r: Option<LabelInfo>)
      requires Valid() && parent != null && !LabelMatches(currentLabel, targetName, innermostFunction)
      requires r.Some? ==> LabelMatches(r, targetName, innermostFunction)
      requires r.None? ==> forall k :: 0 <= k < |parent.Chain()| ==> !LabelMatches(parent.Chain()[k].currentLabel, targetName, innermostFunction)
      requires r.Some? ==>
        exists k :: 0 <= k < |parent.Chain()| && parent.Chain()[k].currentLabel == r &&
          forall j :: 0 <= j < k ==> !LabelMatches(parent.Chain()[j].currentLabel, targetName, innermostFunction)
      ensures r.None? <==> forall k :: 0 <= k < |Chain()| ==> !LabelMatches(Chain()[k].currentLabel, targetName, innermostFunction)
      ensures r.Some? ==>
        exists k :: 0 <= k < |Chain()| && Chain()[k].currentLabel == r &&
          forall j :: 0 <= j < k ==> !LabelMatches(Chain()[j].currentLabel, targetName, innermostFunction)
    {
      var c, pc := Chain(), parent.Chain();
      assert c == [this] + pc;
      if r.Some? {
        var k :| 0 <= k < |pc| && pc[k].currentLabel == r &&
          forall j :: 0 <= j < k ==> !LabelMatches(pc[j].currentLabel, targetName, innermostFunction);
        assert c[0] == this && c[k + 1] == pc[k];
        assert forall j :: 0 < j < k + 1 ==> c[j] == pc[j - 1];
      } else {
        forall k | 0 <= k < |c|
          ensures !LabelMatches(c[k].currentLabel, targetName, innermostFunction)
        {
          if k > 0 {
            assert c[k] == pc[k - 1];
          } else {
            assert c[0] == this;
          }
        }
      }
    }

    /** With a null `fromLibrary`, privacy is ignored: lookup finds any binding on the chain. */
    lemma NoLibraryIgnoresPrivacy(n: string)
      requires Valid()
      ensures FindElement(None, n).Some? <==> exists k :: 0 <= k < |Chain()| && n in Chain()[k].elements
    {
      assert forall k :: 0 <= k < |Chain()| ==> (Yields(Chain()[k], None, n) <==> n in Chain()[k].elements);
    }

    /** The library of the lookup matters only for private names. */
    static lemma {:induction false} PublicNameIgnoresLibrary(s: Scope, lib: Element, n: string)
      requires s.Valid() && !IsPrivateName(n)
      ensures s.FindElement(Some(lib), n) == s.FindElement(None, n)
      decreases s.depth
    {
      if s.parent != null {
        PublicNameIgnoresLibrary(s.parent, lib, n);
      }
    }

    /** A private name bound in a scope of another library is skipped: lookup continues in the parent. */
    lemma PrivateNameSkipped(lib: Element, n: string)
      requires Valid() && IsPrivateName(n) && library != Some(lib) && n in elements
      ensures FindElement(Some(lib), n) == if parent == null then None else parent.FindElement(Some(lib), n)
    {
    }
  }
}
