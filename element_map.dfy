/**
 * `ElementMap`: the resolver's open-addressing, linear-probing hash multimap from names
 * to elements. A slot holds one name and the chain of elements associated with it (in
 * Java a bare element, or a linked list of `ElementHolder`s); `ordered` lists every
 * association's element in insertion order.
 */
module ElementMap {
  import opened Wrappers
  import opened ElementModel

  /** One slot of the table: empty (null), or a name with its non-empty chain of elements. */
  datatype Slot = Empty | Entry(name: string, chain: seq<Element>)

  const InitialCapacity := 16

  /** The capacities the table can have: 16, then each growth multiplies by 4. */
  ghost predicate IsCapacity(n: int)
    decreases n
  {
    n == InitialCapacity || (n > InitialCapacity && n % 4 == 0 && IsCapacity(n / 4))
  }

  /** Every capacity is a power of two, so `h & (n - 1)` is `h % n`. */
  ghost predicate PowerOfTwo(n: int)
    decreases n
  {
    n == 1 || (n > 1 && n % 2 == 0 && PowerOfTwo(n / 2))
  }

  lemma {:induction false} CapacityIsPowerOfTwo(n: int)
    requires IsCapacity(n)
    ensures PowerOfTwo(n) && n >= InitialCapacity
    decreases n
  {
    if n == InitialCapacity {
      assert PowerOfTwo(16) by {
        assert PowerOfTwo(1);
        assert PowerOfTwo(2);
        assert PowerOfTwo(4);
        assert PowerOfTwo(8);
      }
    } else {
      CapacityIsPowerOfTwo(n / 4);
      assert (n / 2) / 2 == n / 4;
    }
  }

  /** The home slot of a hash code: `hash & mask`, which is the Euclidean remainder for power-of-two sizes. */
  function Home(h: int, len: int): (k: int)
    requires len > 0
    ensures 0 <= k < len
  {
    h % len
  }

  /** The slot visited `d` steps after `home`, wrapping around: `(probe + d) & mask`. */
  function Probe(home: int, d: int, len: int): (k: int)
    requires len > 0 && 0 <= home < len && 0 <= d < len
    ensures 0 <= k < len
    ensures k == if home + d < len then home + d else home + d - len
  {
    (home + d) % len
  }

  /** How many steps after `home` slot `k` is visited. */
  function Dist(home: int, k: int, len: int): (d: int)
    requires 0 <= home < len && 0 <= k < len
    ensures 0 <= d < len
    ensures Probe(home, d, len) == k
  {
    if home <= k then k - home else k + len - home
  }

  /** The number of occupied slots. */
  function Count(s: seq<Slot>): (n: nat)
    ensures n <= |s|
  {
    if s == [] then 0 else Count(s[..|s| - 1]) + (if s[|s| - 1].Entry? then 1 else 0)
  }

  lemma {:induction false} CountUpdate(s: seq<Slot>, j: int, v: Slot)
    requires 0 <= j < |s|
    ensures Count(s[j := v]) == Count(s) - (if s[j].Entry? then 1 else 0) + (if v.Entry? then 1 else 0)
    decreases |s|
  {
    var t := s[j := v];
    if j < |s| - 1 {
      assert t[..|t| - 1] == s[..|s| - 1][j := v];
      CountUpdate(s[..|s| - 1], j, v);
    } else {
      assert t[..|t| - 1] == s[..|s| - 1];
    }
  }

  lemma {:induction false} CountFull(s: seq<Slot>)
    requires forall k :: 0 <= k < |s| ==> s[k].Entry?
    ensures Count(s) == |s|
    decreases |s|
  {
    if s != [] { CountFull(s[..|s| - 1]); }
  }

  lemma {:induction false} CountPrefix(s: seq<Slot>, i: int)
    requires 0 <= i < |s|
    ensures Count(s[..i + 1]) == Count(s[..i]) + (if s[i].Entry? then 1 else 0)
  {
    assert s[..i + 1][..i] == s[..i];
  }

  /** Name `n` occupies some slot. */
  ghost predicate Stored(s: seq<Slot>, n: string) {
    exists k :: 0 <= k < |s| && s[k].Entry? && s[k].name == n
  }

  /** No two slots hold the same name. */
  ghost predicate UniqueNames(s: seq<Slot>) {
    forall k, k' :: 0 <= k < k' < |s| && s[k].Entry? && s[k'].Entry? ==> s[k].name != s[k'].name
  }

  /** Linear probing: every slot between a name's home and the slot holding it is occupied. */
  ghost predicate ProbePathsFull(s: seq<Slot>, hash: string -> int)
    requires |s| > 0
  {
    forall k, d :: 0 <= k < |s| && s[k].Entry? && 0 <= d < Dist(Home(hash(s[k].name), |s|), k, |s|) ==>
      s[Probe(Home(hash(s[k].name), |s|), d, |s|)].Entry?
  }

  ghost predicate Table(s: seq<Slot>, hash: string -> int) {
    |s| > 0 && UniqueNames(s) && ProbePathsFull(s, hash)
  }

  /** The elements associated with `n`, in association order: the slot's chain. */
  ghost function ChainOf(assoc: seq<(string, Element)>, n: string): seq<Element>
  {
    if assoc == [] then []
    else ChainOf(assoc[..|assoc| - 1], n) + (if assoc[|assoc| - 1].0 == n then [assoc[|assoc| - 1].1] else [])
  }

  lemma ChainOfAppend(assoc: seq<(string, Element)>, p: (string, Element), n: string)
    ensures ChainOf(assoc + [p], n) == ChainOf(assoc, n) + (if p.0 == n then [p.1] else [])
  {
    assert (assoc + [p])[..|assoc|] == assoc;
  }

  /** An element is in `n`'s chain exactly when the pair (n, e) has been associated. */
  lemma {:induction false} ChainOfMember(assoc: seq<(string, Element)>, n: string, e: Element)
    ensures e in ChainOf(assoc, n) <==> exists i :: 0 <= i < |assoc| && assoc[i] == (n, e)
    decreases |assoc|
  {
    if assoc != [] {
      var init := assoc[..|assoc| - 1];
      ChainOfMember(init, n, e);
      if exists i :: 0 <= i < |init| && init[i] == (n, e) {
        var i :| 0 <= i < |init| && init[i] == (n, e);
        assert assoc[i] == (n, e);
      }
      if exists i :: 0 <= i < |assoc| && assoc[i] == (n, e) {
        var i :| 0 <= i < |assoc| && assoc[i] == (n, e);
        if i < |init| { assert init[i] == (n, e); }
      }
    }
  }

  /** A chain is empty exactly when the name was never associated. */
  lemma {:induction false} ChainOfEmpty(assoc: seq<(string, Element)>, n: string)
    ensures ChainOf(assoc, n) == [] <==> forall i :: 0 <= i < |assoc| ==> assoc[i].0 != n
    decreases |assoc|
  {
    if assoc != [] {
      var init := assoc[..|assoc| - 1];
      ChainOfEmpty(init, n);
      assert forall i :: 0 <= i < |init| ==> init[i] == assoc[i];
    }
  }

  /**
   * The head of a chain is the element of the FIRST association of that name (the
   * doc comment of `get` says "last"; the code returns the head).
   */
  lemma {:induction false} ChainHeadIsFirst(assoc: seq<(string, Element)>, n: string)
    requires ChainOf(assoc, n) != []
    ensures exists i :: (0 <= i < |assoc| && assoc[i] == (n, ChainOf(assoc, n)[0])
      && forall j :: 0 <= j < i ==> assoc[j].0 != n)
    decreases |assoc|
  {
    var init := assoc[..|assoc| - 1];
    assert forall i :: 0 <= i < |init| ==> init[i] == assoc[i];
    if ChainOf(init, n) == [] {
      ChainOfEmpty(init, n);
      assert assoc[|assoc| - 1] == (n, ChainOf(assoc, n)[0]);
    } else {
      ChainHeadIsFirst(init, n);
      var i :| 0 <= i < |init| && init[i] == (n, ChainOf(init, n)[0]) && forall j :: 0 <= j < i ==> init[j].0 != n;
      assert assoc[i] == (n, ChainOf(assoc, n)[0]);
    }
  }

  /** Two elements associated with one name: `get` yields the first, not the last. */
  lemma GetYieldsFirstNotLast(n: string, e1: Element, e2: Element)
    requires e1 != e2
    ensures ChainOf([(n, e1), (n, e2)], n)[0] == e1
    ensures ChainOf([(n, e1), (n, e2)], n)[0] != e2
  {
    var a := [(n, e1), (n, e2)];
    assert a[..1] == [(n, e1)];
    assert [(n, e1)][..0] == [];
    assert ChainOf([(n, e1)], n) == [e1];
    assert ChainOf(a, n) == [e1, e2];
  }

  /** A visit of `d` probes that met only other names and then an empty slot shows the name absent. */
  lemma AbsentAfterEmpty(s: seq<Slot>, hash: string -> int, n: string, d: int)
    requires Table(s, hash)
    requires 0 <= d < |s|
    requires s[Probe(Home(hash(n), |s|), d, |s|)].Empty?
    requires forall d' :: 0 <= d' < d ==> s[Probe(Home(hash(n), |s|), d', |s|)].Entry? && s[Probe(Home(hash(n), |s|), d', |s|)].name != n
    ensures !Stored(s, n)
  {
    var home := Home(hash(n), |s|);
    forall k | 0 <= k < |s| && s[k].Entry? ensures s[k].name != n {
      var dk := Dist(home, k, |s|);
      assert Probe(home, dk, |s|) == k;
    }
  }

  /** If every probe from one home met an occupied slot, the table is full. */
  lemma AllProbesFull(s: seq<Slot>, home: int)
    requires 0 <= home < |s|
    requires forall d :: 0 <= d < |s| ==> s[Probe(home, d, |s|)].Entry?
    ensures Count(s) == |s|
  {
    forall k | 0 <= k < |s| ensures s[k].Entry? {
      assert Probe(home, Dist(home, k, |s|), |s|) == k;
    }
    CountFull(s);
  }

  /** Filling an empty slot whose probe path is occupied keeps the table a probing table. */
  lemma FillKeepsTable(s: seq<Slot>, hash: string -> int, n: string, chain: seq<Element>, d: int)
    requires Table(s, hash) && !Stored(s, n)
    requires 0 <= d < |s|
    requires s[Probe(Home(hash(n), |s|), d, |s|)].Empty?
    requires forall d' :: 0 <= d' < d ==> s[Probe(Home(hash(n), |s|), d', |s|)].Entry?
    ensures Table(s[Probe(Home(hash(n), |s|), d, |s|) := Entry(n, chain)], hash)
  {
    var j := Probe(Home(hash(n), |s|), d, |s|);
    var t := s[j := Entry(n, chain)];
    assert Dist(Home(hash(n), |s|), j, |s|) == d;
    forall k, d' | 0 <= k < |t| && t[k].Entry? && 0 <= d' < Dist(Home(hash(t[k].name), |t|), k, |t|)
      ensures t[Probe(Home(hash(t[k].name), |t|), d', |t|)].Entry?
    {
      if k != j {
        assert s[Probe(Home(hash(s[k].name), |s|), d', |s|)].Entry?;
      }
    }
  }

  /**
   * The state invariant over the table's slots, the ordered list and the associations:
   * a probing table, `ordered` lists the associated elements, associations are distinct,
   * each slot holds the chain of its name, every associated name is stored, and the
   * occupancy is bounded by the association count and by 3/4 of the capacity.
   */
  ghost predicate Consistent(s: seq<Slot>, hash: string -> int, ordered: seq<Element>, assoc: seq<(string, Element)>) {
    Table(s, hash)
    && |ordered| == |assoc|
    && (forall i :: 0 <= i < |assoc| ==> ordered[i] == assoc[i].1)
    && (forall i, j :: 0 <= i < j < |assoc| ==> assoc[i] != assoc[j])
    && (forall k :: 0 <= k < |s| && s[k].Entry? ==> s[k].chain == ChainOf(assoc, s[k].name) && s[k].chain != [])
    && (forall i :: 0 <= i < |assoc| ==> Stored(s, assoc[i].0))
    && Count(s) <= |assoc|
    && Count(s) <= 3 * (|s| / 4)
  }

  /** A name is stored exactly when its chain is non-empty. */
  lemma StoredIffChain(s: seq<Slot>, hash: string -> int, ordered: seq<Element>, assoc: seq<(string, Element)>, n: string)
    requires Consistent(s, hash, ordered, assoc)
    ensures Stored(s, n) <==> ChainOf(assoc, n) != []
  {
    ChainOfEmpty(assoc, n);
  }

  /** Filling an empty slot with a new name and its one element records one new association. */
  lemma AddNewName(s: seq<Slot>, hash: string -> int, ordered: seq<Element>, assoc: seq<(string, Element)>,
                   n: string, e: Element, j: int)
    requires Consistent(s, hash, ordered, assoc)
    requires Count(s) < 3 * (|s| / 4)
    requires !Stored(s, n)
    requires 0 <= j < |s| && s[j].Empty?
    requires Table(s[j := Entry(n, [e])], hash)
    ensures Consistent(s[j := Entry(n, [e])], hash, ordered + [e], assoc + [(n, e)])
  {
    var t := s[j := Entry(n, [e])];
    var a := assoc + [(n, e)];
    CountUpdate(s, j, Entry(n, [e]));
    NewNameStored(s, assoc, n, e, j);
    NewNameChains(s, hash, ordered, assoc, n, e, j, t, a);
    NewPairDistinct(s, assoc, n, e, a);
    assert forall i :: 0 <= i < |a| ==> (ordered + [e])[i] == a[i].1;
  }

  lemma NewPairDistinct(s: seq<Slot>, assoc: seq<(string, Element)>, n: string, e: Element, a: seq<(string, Element)>)
    requires forall i, j :: 0 <= i < j < |assoc| ==> assoc[i] != assoc[j]
    requires forall i :: 0 <= i < |assoc| ==> Stored(s, assoc[i].0)
    requires !Stored(s, n)
    requires a == assoc + [(n, e)]
    ensures forall i, j :: 0 <= i < j < |a| ==> a[i] != a[j]
  {
    forall i | 0 <= i < |assoc| ensures assoc[i].0 != n {
      assert Stored(s, assoc[i].0);
    }
  }

  lemma NewNameStored(s: seq<Slot>, assoc: seq<(string, Element)>, n: string, e: Element, j: int)
    requires 0 <= j < |s| && s[j].Empty?
    requires forall i :: 0 <= i < |assoc| ==> Stored(s, assoc[i].0)
    ensures forall i :: 0 <= i < |assoc + [(n, e)]| ==> Stored(s[j := Entry(n, [e])], (assoc + [(n, e)])[i].0)
  {
    var t := s[j := Entry(n, [e])];
    var a := assoc + [(n, e)];
    forall i | 0 <= i < |a| ensures Stored(t, a[i].0) {
      if i < |assoc| {
        var k :| 0 <= k < |s| && s[k].Entry? && s[k].name == assoc[i].0;
        assert t[k].Entry? && t[k].name == a[i].0;
      } else {
        assert t[j].Entry? && t[j].name == a[i].0;
      }
    }
  }

  lemma NewNameChains(s: seq<Slot>, hash: string -> int, ordered: seq<Element>, assoc: seq<(string, Element)>,
                      n: string, e: Element, j: int, t: seq<Slot>, a: seq<(string, Element)>)
    requires Consistent(s, hash, ordered, assoc)
    requires !Stored(s, n)
    requires 0 <= j < |s| && s[j].Empty?
    requires t == s[j := Entry(n, [e])] && a == assoc + [(n, e)]
    ensures forall k :: 0 <= k < |t| && t[k].Entry? ==> t[k].chain == ChainOf(a, t[k].name) && t[k].chain != []
  {
    ChainOfEmpty(assoc, n);
    forall k | 0 <= k < |t| && t[k].Entry? ensures t[k].chain == ChainOf(a, t[k].name) && t[k].chain != [] {
      ChainOfAppend(assoc, (n, e), t[k].name);
      if k != j {
        assert s[k].name != n;
      }
    }
  }

  /** Appending a new element to a stored name's chain records one new association. */
  lemma AddToChain(s: seq<Slot>, hash: string -> int, ordered: seq<Element>, assoc: seq<(string, Element)>,
                   n: string, e: Element, k: int)
    requires Consistent(s, hash, ordered, assoc)
    requires 0 <= k < |s| && s[k].Entry? && s[k].name == n && e !in s[k].chain
    ensures Consistent(s[k := Entry(n, s[k].chain + [e])], hash, ordered + [e], assoc + [(n, e)])
  {
    var t := s[k := Entry(n, s[k].chain + [e])];
    var a := assoc + [(n, e)];
    CountUpdate(s, k, Entry(n, s[k].chain + [e]));
    ChainOfMember(assoc, n, e);
    ExtendedStored(s, assoc, n, e, k, t, a);
    ExtendedChains(s, hash, ordered, assoc, n, e, k, t, a);
    ExtendedTable(s, hash, n, e, k, t);
    assert forall i :: 0 <= i < |a| ==> (ordered + [e])[i] == a[i].1;
  }

  lemma ExtendedStored(s: seq<Slot>, assoc: seq<(string, Element)>, n: string, e: Element, k: int,
                       t: seq<Slot>, a: seq<(string, Element)>)
    requires forall i :: 0 <= i < |assoc| ==> Stored(s, assoc[i].0)
    requires 0 <= k < |s| && s[k].Entry? && s[k].name == n
    requires t == s[k := Entry(n, s[k].chain + [e])] && a == assoc + [(n, e)]
    ensures forall i :: 0 <= i < |a| ==> Stored(t, a[i].0)
  {
    forall i | 0 <= i < |a| ensures Stored(t, a[i].0) {
      if i < |assoc| {
        var k' :| 0 <= k' < |s| && s[k'].Entry? && s[k'].name == assoc[i].0;
        assert t[k'].Entry? && t[k'].name == a[i].0;
      } else {
        assert t[k].Entry? && t[k].name == a[i].0;
      }
    }
  }

  lemma ExtendedChains(s: seq<Slot>, hash: string -> int, ordered: seq<Element>, assoc: seq<(string, Element)>,
                       n: string, e: Element, k: int, t: seq<Slot>, a: seq<(string, Element)>)
    requires Consistent(s, hash, ordered, assoc)
    requires 0 <= k < |s| && s[k].Entry? && s[k].name == n
    requires t == s[k := Entry(n, s[k].chain + [e])] && a == assoc + [(n, e)]
    ensures forall k' :: 0 <= k' < |t| && t[k'].Entry? ==> t[k'].chain == ChainOf(a, t[k'].name) && t[k'].chain != []
  {
    forall k' | 0 <= k' < |t| && t[k'].Entry? ensures t[k'].chain == ChainOf(a, t[k'].name) && t[k'].chain != [] {
      ChainOfAppend(assoc, (n, e), t[k'].name);
      if k' != k {
        assert s[k'].name != n;
      }
    }
  }

  lemma ExtendedTable(s: seq<Slot>, hash: string -> int, n: string, e: Element, k: int, t: seq<Slot>)
    requires Table(s, hash)
    requires 0 <= k < |s| && s[k].Entry? && s[k].name == n
    requires t == s[k := Entry(n, s[k].chain + [e])]
    ensures Table(t, hash)
  {
    forall k', d | 0 <= k' < |t| && t[k'].Entry? && 0 <= d < Dist(Home(hash(t[k'].name), |t|), k', |t|)
      ensures t[Probe(Home(hash(t[k'].name), |t|), d, |t|)].Entry?
    {
      assert s[Probe(Home(hash(s[k'].name), |s|), d, |s|)].Entry?;
    }
  }

  /** While rehashing, the name of the next old slot is not yet in the new table. */
  lemma NotYetMoved(was: seq<Slot>, i: int, now: seq<Slot>)
    requires 0 <= i < |was| && was[i].Entry? && UniqueNames(was)
    requires forall j :: 0 <= j < |now| && now[j].Entry? ==> now[j] in was[..i]
    ensures !Stored(now, was[i].name)
  {
    forall j | 0 <= j < |now| && now[j].Entry? ensures now[j].name != was[i].name {
      var k :| 0 <= k < i && was[..i][k] == now[j];
      assert was[k] == now[j];
    }
  }

  /** One rehashing step: the new table gains exactly old slot `i`. */
  lemma MovedOne(was: seq<Slot>, i: int, before: seq<Slot>, filled: int, after: seq<Slot>)
    requires 0 <= i < |was| && was[i].Entry?
    requires forall k :: 0 <= k < i && was[k].Entry? ==> was[k] in before
    requires forall j :: 0 <= j < |before| && before[j].Entry? ==> before[j] in was[..i]
    requires 0 <= filled < |before| && before[filled].Empty? && after == before[filled := was[i]]
    ensures forall k :: 0 <= k < i + 1 && was[k].Entry? ==> was[k] in after
    ensures forall j :: 0 <= j < |after| && after[j].Entry? ==> after[j] in was[..i + 1]
  {
    forall k | 0 <= k < i + 1 && was[k].Entry? ensures was[k] in after {
      if k < i {
        var j :| 0 <= j < |before| && before[j] == was[k];
        assert after[j] == was[k];
      } else {
        assert after[filled] == was[k];
      }
    }
    forall j | 0 <= j < |after| && after[j].Entry? ensures after[j] in was[..i + 1] {
      assert was[..i + 1][i] == was[i];
      if j != filled {
        assert before[j] in was[..i];
        var k :| 0 <= k < i && was[..i][k] == before[j];
        assert was[..i + 1][k] == before[j];
      }
    }
  }

  /** Slot-for-slot the same entries: a rehashed table is consistent with the same associations. */
  lemma Rehashed(was: seq<Slot>, now: seq<Slot>, hash: string -> int, ordered: seq<Element>, assoc: seq<(string, Element)>)
    requires Consistent(was, hash, ordered, assoc)
    requires Table(now, hash) && |now| == 4 * |was| && Count(now) == Count(was)
    requires forall k :: 0 <= k < |was| && was[k].Entry? ==> was[k] in now
    requires forall j :: 0 <= j < |now| && now[j].Entry? ==> now[j] in was
    ensures Consistent(now, hash, ordered, assoc)
    ensures forall n :: Stored(now, n) <==> Stored(was, n)
  {
    forall n ensures Stored(now, n) <==> Stored(was, n) {
      if Stored(now, n) {
        var j :| 0 <= j < |now| && now[j].Entry? && now[j].name == n;
        var k :| 0 <= k < |was| && was[k] == now[j];
      }
      if Stored(was, n) {
        var k :| 0 <= k < |was| && was[k].Entry? && was[k].name == n;
        var j :| 0 <= j < |now| && now[j] == was[k];
      }
    }
    forall j | 0 <= j < |now| && now[j].Entry?
      ensures now[j].chain == ChainOf(assoc, now[j].name) && now[j].chain != []
    {
      var k :| 0 <= k < |was| && was[k] == now[j];
    }
  }

  /** Rehashing has moved exactly the occupied old slots before `i` into `now`. */
  ghost predicate Moving(was: seq<Slot>, i: int, now: seq<Slot>, hash: string -> int)
    requires 0 <= i <= |was|
  {
    Table(now, hash) && Count(now) == Count(was[..i])
    && (forall k :: 0 <= k < i && was[k].Entry? ==> was[k] in now)
    && (forall j :: 0 <= j < |now| && now[j].Entry? ==> now[j] in was[..i])
  }

  lemma MovedEmpty(was: seq<Slot>, i: int, now: seq<Slot>, hash: string -> int)
    requires 0 <= i < |was| && was[i].Empty? && Moving(was, i, now, hash)
    ensures Moving(was, i + 1, now, hash)
  {
    CountPrefix(was, i);
    assert was[..i] <= was[..i + 1];
    forall j | 0 <= j < |now| && now[j].Entry? ensures now[j] in was[..i + 1] {
    }
  }

  lemma MovedEntry(was: seq<Slot>, i: int, before: seq<Slot>, filled: int, after: seq<Slot>, hash: string -> int)
    requires 0 <= i < |was| && was[i].Entry? && Moving(was, i, before, hash)
    requires 0 <= filled < |before| && before[filled].Empty? && after == before[filled := was[i]]
    requires Table(after, hash)
    ensures Moving(was, i + 1, after, hash)
  {
    CountPrefix(was, i);
    CountUpdate(before, filled, was[i]);
    MovedOne(was, i, before, filled, after);
  }

  lemma CapacityGrows(n: int)
    requires IsCapacity(n)
    ensures IsCapacity(4 * n)
  {
    CapacityIsPowerOfTwo(n);
    assert (4 * n) / 4 == n;
  }

  lemma {:induction false} CountEmpty(s: seq<Slot>)
    requires forall k :: 0 <= k < |s| ==> s[k].Empty?
    ensures Count(s) == 0
    decreases |s|
  {
    if s != [] { CountEmpty(s[..|s| - 1]); }
  }

  /** The walk along a holder chain looking for `element` (the `while (true)` loop of `add`). */
  method ChainHolds(chain: seq<Element>, element: Element) returns (found: bool)
    ensures found <==> element in chain
  {
    var i := 0;
    while i < |chain|
      invariant 0 <= i <= |chain|
      invariant forall j :: 0 <= j < i ==> chain[j] != element
    {
      if chain[i] == element {
        return true;
      }
      i := i + 1;
    }
    return false;
  }

  /** The walk along a holder chain of `get(name, kind)`: the first element of that kind. */
  method FirstOfKind(chain: seq<Element>, kind: ElementKind) returns (r: Option<Element>)
    ensures r.None? <==> forall i :: 0 <= i < |chain| ==> chain[i].kind != kind
    ensures r.Some? ==> exists i :: (0 <= i < |chain| && chain[i] == r.value
      && r.value.kind == kind && forall j :: 0 <= j < i ==> chain[j].kind != kind)
  {
    var i := 0;
    while i < |chain|
      invariant 0 <= i <= |chain|
      invariant forall j :: 0 <= j < i ==> chain[j].kind != kind
    {
      if chain[i].kind == kind {
        return Some(chain[i]);
      }
      i := i + 1;
    }
    return None;
  }

  class ElementMap {
    /** `String.hashCode`. */
    const hash: string -> int
    var elements: array<Slot>
    var ordered: seq<Element>
    /** Every (name, element) association made since the last clear, in order. */
    ghost var assoc: seq<(string, Element)>

    ghost predicate Valid()
      reads this, elements
    {
      IsCapacity(elements.Length) && Consistent(elements[..], hash, ordered, assoc)
    }

    constructor (hash: string -> int)
      ensures Valid() && fresh(elements)
      ensures this.hash == hash && elements.Length == InitialCapacity
      ensures assoc == [] && ordered == []
    {
      this.hash := hash;
      elements := new Slot[InitialCapacity](_ => Empty);
      ordered := [];
      assoc := [];
      new;
      CountEmpty(elements[..]);
    }

    /** `clear`: a fresh table of capacity 16 and no associations. */
    method Clear()
      modifies this
      ensures Valid() && fresh(elements) && elements.Length == InitialCapacity
      ensures assoc == [] && ordered == []
    {
      elements := new Slot[InitialCapacity](_ => Empty);
      ordered := [];
      assoc := [];
      CountEmpty(elements[..]);
    }

    /** `size`: the number of associations. */
    function Size(): (r: nat)
      reads this, elements
      requires Valid()
      ensures r == |assoc|
    {
      |ordered|
    }

    /** `isEmpty`: no association, i.e. `size() == 0`. */
    function IsEmpty(): (r: bool)
      reads this, elements
      requires Valid()
      ensures r <==> assoc == []
      ensures r <==> Size() == 0
    {
      |ordered| == 0
    }

    /** `values`: the elements of all associations, in insertion order. */
    function Values(): (r: seq<Element>)
      reads this, elements
      requires Valid()
      ensures |r| == |assoc| && forall i :: 0 <= i < |r| ==> r[i] == assoc[i].1
    {
      ordered
    }

    /**
     * `internalAdd`: probes from the name's home slot; an empty slot receives the entry
     * (result -1), a slot already holding the name is returned untouched. The caller
     * guarantees a free slot, so the "overfilled array" failure cannot happen.
     */
    method InternalAdd(name: string, chain: seq<Element>) returns (index: int, ghost filled: int)
      requires Table(elements[..], hash)
      requires Count(elements[..]) < elements.Length
      modifies elements
      ensures Table(elements[..], hash)
      ensures index == -1 <==> !Stored(old(elements[..]), name)
      ensures index == -1 ==> (0 <= filled < elements.Length && old(elements[filled]).Empty?
        && elements[..] == old(elements[..])[filled := Entry(name, chain)])
      ensures index != -1 ==> (0 <= index < elements.Length && elements[..] == old(elements[..])
        && elements[index].Entry? && elements[index].name == name)
    {
      filled := 0;
      var len := elements.Length;
      var home := Home(hash(name), len);
      var d := 0;
      while d < len
        invariant 0 <= d <= len
        invariant elements[..] == old(elements[..])
        invariant forall d' :: 0 <= d' < d ==>
          elements[Probe(home, d', len)].Entry? && elements[Probe(home, d', len)].name != name
      {
        var i := Probe(home, d, len);
        if elements[i].Empty? {
          AbsentAfterEmpty(elements[..], hash, name, d);
          FillKeepsTable(elements[..], hash, name, chain, d);
          elements[i] := Entry(name, chain);
          return -1, i;
        }
        if elements[i].name == name {
          return i, 0;
        }
        d := d + 1;
      }
      AllProbesFull(elements[..], home);
      assert false;
    }

    /** `internalGet`: the slot holding `name`, or an empty slot when the name is absent. */
    method InternalGet(name: string) returns (slot: Slot)
      requires Table(elements[..], hash)
      requires Count(elements[..]) < elements.Length
      ensures slot.Empty? <==> !Stored(elements[..], name)
      ensures slot.Entry? ==> slot.name == name && slot in elements[..]
    {
      var len := elements.Length;
      var home := Home(hash(name), len);
      var d := 0;
      while d < len
        invariant 0 <= d <= len
        invariant forall d' :: 0 <= d' < d ==>
          elements[Probe(home, d', len)].Entry? && elements[Probe(home, d', len)].name != name
      {
        slot := elements[Probe(home, d, len)];
        if slot.Empty? {
          AbsentAfterEmpty(elements[..], hash, name, d);
          return;
        }
        if slot.name == name {
          assert elements[..][Probe(home, d, len)] == slot;
          return;
        }
        d := d + 1;
      }
      AllProbesFull(elements[..], home);
      assert false;
    }

    /**
     * `grow`: a table four times larger holding the same slots. Names are unique, so
     * re-adding never meets the name already stored ("Failed to grow" cannot happen).
     */
    method Grow()
      requires Valid()
      modifies this
      ensures Valid() && fresh(elements)
      ensures elements.Length == 4 * old(elements.Length)
      ensures assoc == old(assoc) && ordered == old(ordered)
      ensures Count(elements[..]) == old(Count(elements[..]))
      ensures forall n :: Stored(elements[..], n) <==> Stored(old(elements[..]), n)
    {
      var oldSlots := elements;
      ghost var was := oldSlots[..];
      assert Consistent(was, hash, ordered, assoc);
      elements := new Slot[oldSlots.Length * 4](_ => Empty);
      CountEmpty(elements[..]);
      var i := 0;
      while i < oldSlots.Length
        invariant 0 <= i <= oldSlots.Length
        invariant fresh(elements) && elements.Length == 4 * oldSlots.Length
        invariant oldSlots[..] == was
        invariant ordered == old(ordered) && assoc == old(assoc)
        invariant Moving(was, i, elements[..], hash)
      {
        if oldSlots[i].Entry? {
          var slot := oldSlots[i];
          ghost var before := elements[..];
          NotYetMoved(was, i, before);
          var r, filled := InternalAdd(slot.name, slot.chain);
          if r != -1 {
            assert false;
          }
          MovedEntry(was, i, before, filled, elements[..], hash);
        } else {
          MovedEmpty(was, i, elements[..], hash);
        }
        i := i + 1;
      }
      assert was[..oldSlots.Length] == was;
      Rehashed(was, elements[..], hash, ordered, assoc);
      CapacityGrows(oldSlots.Length);
    }

    /**
     * `add`: grows first when the associations reach 3/4 of the capacity, then associates
     * `element` with `name` unless that pair is already associated.
     */
    method Add(name: string, element: Element)
      requires Valid()
      modifies this, elements
      ensures Valid()
      ensures (name, element) in old(assoc) ==> assoc == old(assoc) && ordered == old(ordered)
      ensures (name, element) !in old(assoc) ==>
        assoc == old(assoc) + [(name, element)] && ordered == old(ordered) + [element]
    {
      if (elements.Length / 4) * 3 <= |ordered| {
        CapacityIsPowerOfTwo(elements.Length);
        Grow();
      }
      CapacityIsPowerOfTwo(elements.Length);
      Insert(name, element);
    }

    /** The association step of `add`, once the table has room. */
    method Insert(name: string, element: Element)
      requires Valid() && Count(elements[..]) < 3 * (elements.Length / 4)
      modifies this`ordered, this`assoc, elements
      ensures Valid()
      ensures (name, element) in old(assoc) ==> assoc == old(assoc) && ordered == old(ordered)
      ensures (name, element) !in old(assoc) ==>
        assoc == old(assoc) + [(name, element)] && ordered == old(ordered) + [element]
    {
      ghost var before := elements[..];
      var index, filled := InternalAdd(name, [element]);
      ChainOfMember(assoc, name, element);
      if index == -1 {
        AddNewName(before, hash, ordered, assoc, name, element, filled);
        StoredIffChain(before, hash, ordered, assoc, name);
        Record(name, element);
        return;
      }
      var chain := elements[index].chain;
      var found := ChainHolds(chain, element);
      if found {
        return;
      }
      AddToChain(elements[..], hash, ordered, assoc, name, element, index);
      elements[index] := Entry(name, chain + [element]);
      Record(name, element);
    }

    /** The new association and its element at the end of `ordered`. */
    method Record(name: string, element: Element)
      modifies this`ordered, this`assoc
      ensures ordered == old(ordered) + [element] && assoc == old(assoc) + [(name, element)]
    {
      ordered := ordered + [element];
      assoc := assoc + [(name, element)];
    }

    /** `get(name)`: the head of the name's chain, i.e. the first element associated with it. */
    method Get(name: string) returns (r: Option<Element>)
      requires Valid()
      ensures ChainOf(assoc, name) == [] ==> r.None?
      ensures ChainOf(assoc, name) != [] ==> r == Some(ChainOf(assoc, name)[0])
    {
      CapacityIsPowerOfTwo(elements.Length);
      var slot := InternalGet(name);
      StoredIffChain(elements[..], hash, ordered, assoc, name);
      if slot.Empty? {
        return None;
      }
      return Some(slot.chain[0]);
    }

    /** `get(name, kind)`: the first element of the name's chain whose kind is `kind`. */
    method GetByKind(name: string, kind: ElementKind) returns (r: Option<Element>)
      requires Valid()
      ensures r.None? <==> forall i :: 0 <= i < |ChainOf(assoc, name)| ==> ChainOf(assoc, name)[i].kind != kind
      ensures r.Some? ==> exists i :: (0 <= i < |ChainOf(assoc, name)| && ChainOf(assoc, name)[i] == r.value
        && r.value.kind == kind && forall j :: 0 <= j < i ==> ChainOf(assoc, name)[j].kind != kind)
    {
      CapacityIsPowerOfTwo(elements.Length);
      var slot := InternalGet(name);
      StoredIffChain(elements[..], hash, ordered, assoc, name);
      if slot.Empty? {
        return None;
      }
      r := FirstOfKind(slot.chain, kind);
    }
  }
}
