/** Orders in which every node comes after the nodes it depends on, and what leaving some
    nodes out of the graph does to them. An edge `(a, b)` reads "a depends on b". */
module DependencyOrders {
  type Node = string
  type Edges<T(==)> = set<(T, T)>

  ghost predicate NoRepeats<T>(o: seq<T>) {
    forall i, j | 0 <= i < j < |o| :: o[i] != o[j]
  }

  ghost function Members<T>(o: seq<T>): set<T> {
    set x | x in o
  }

  ghost predicate Respects<T>(o: seq<T>, edges: Edges<T>) {
    forall i, j | 0 <= i < |o| && 0 <= j < |o| && (o[i], o[j]) in edges :: j < i
  }

  /** `o` lists the nodes of `s` once each, every node after those it depends on. */
  ghost predicate IsOrder<T>(o: seq<T>, s: set<T>, edges: Edges<T>) {
    NoRepeats(o) && Members(o) == s && Respects(o, edges)
  }

  ghost predicate IsChain(edges: Edges<Node>, p: seq<Node>) {
    |p| > 1 && forall i | 0 < i < |p| :: (p[i - 1], p[i]) in edges
  }

  ghost predicate Chains(edges: Edges<Node>, p: seq<Node>, a: Node, b: Node) {
    IsChain(edges, p) && p[0] == a && p[|p| - 1] == b
  }

  /** `a` depends on `b`, directly or through other nodes. */
  ghost predicate Needs(edges: Edges<Node>, a: Node, b: Node) {
    exists p :: Chains(edges, p, a, b)
  }

  ghost predicate Acyclic(edges: Edges<Node>) {
    forall a :: !Needs(edges, a, a)
  }

  ghost function Within(edges: Edges<Node>, kept: set<Node>): Edges<Node> {
    set e | e in edges && e.0 in kept && e.1 in kept
  }

  /** Whatever a kept node needs among the kept nodes it needs through kept nodes alone. */
  ghost predicate KeepsNeeds(edges: Edges<Node>, kept: set<Node>) {
    forall a, b | a in kept && b in kept && Needs(edges, a, b) :: Needs(Within(edges, kept), a, b)
  }

  ghost predicate RespectsNeeds(o: seq<Node>, edges: Edges<Node>) {
    forall i, j | 0 <= i < |o| && 0 <= j < |o| && Needs(edges, o[i], o[j]) :: j < i
  }

  function Filter(o: seq<Node>, kept: set<Node>): seq<Node> {
    if o == [] then []
    else if o[|o| - 1] in kept then Filter(o[..|o| - 1], kept) + [o[|o| - 1]]
    else Filter(o[..|o| - 1], kept)
  }

  lemma NeedsJoin(edges: Edges<Node>, a: Node, b: Node, c: Node)
    requires Needs(edges, a, b) && Needs(edges, b, c)
    ensures Needs(edges, a, c)
  {
    var p :| Chains(edges, p, a, b);
    var q :| Chains(edges, q, b, c);
    var r := p + q[1..];
    forall i | 0 < i < |r| ensures (r[i - 1], r[i]) in edges {
      if i >= |p| {
        assert r[i] == q[i - |p| + 1] && r[i - 1] == q[i - |p|];
      }
    }
    assert Chains(edges, r, a, c);
  }

  lemma EdgeIsNeed(edges: Edges<Node>, a: Node, b: Node)
    requires (a, b) in edges
    ensures Needs(edges, a, b)
  {
    assert Chains(edges, [a, b], a, b);
  }

  lemma MembersJoin<T>(a: seq<T>, b: seq<T>)
    ensures Members(a + b) == Members(a) + Members(b)
  {
    forall x | x in Members(a) + Members(b) ensures x in Members(a + b) {
      if x in Members(a) {
        assert x in a;
      } else {
        assert x in b;
      }
    }
  }

  lemma NeedHasEdge(edges: Edges<Node>, a: Node, b: Node)
    ensures Needs(edges, a, b) ==> edges != {}
  {
    if p :| Chains(edges, p, a, b) {
      assert (p[0], p[1]) in edges;
    }
  }

  lemma {:induction false} FilterJoins(a: seq<Node>, b: seq<Node>, kept: set<Node>)
    ensures Filter(a + b, kept) == Filter(a, kept) + Filter(b, kept)
  {
    if b == [] {
      assert a + b == a;
    } else {
      assert (a + b)[..|a + b| - 1] == a + b[..|b| - 1];
      FilterJoins(a, b[..|b| - 1], kept);
    }
  }

  lemma {:induction false} FilterAll(o: seq<Node>, kept: set<Node>)
    ensures Members(o) <= kept ==> Filter(o, kept) == o
    ensures Members(Filter(o, kept)) == Members(o) * kept
  {
    if o != [] {
      var init, last := o[..|o| - 1], o[|o| - 1];
      FilterAll(init, kept);
      assert o == init + [last];
      MembersJoin(init, [last]);
      MembersJoin(Filter(init, kept), [last]);
    }
  }

  lemma {:induction false} FilterKeepsOrder(o: seq<Node>, kept: set<Node>, edges: Edges<Node>)
    requires NoRepeats(o) && Respects(o, edges)
    ensures NoRepeats(Filter(o, kept)) && Respects(Filter(o, kept), edges)
  {
    if o != [] {
      var init, last := o[..|o| - 1], o[|o| - 1];
      FilterKeepsOrder(init, kept, edges);
      FilterAll(init, kept);
      assert forall x | x in Members(Filter(init, kept)) :: x in Members(init);
      var f := Filter(o, kept);
      if last in kept {
        forall i | 0 <= i < |f| - 1 ensures f[i] != last && (f[i], last) !in edges {
          assert f[i] in Members(Filter(init, kept));
          var k :| 0 <= k < |init| && init[k] == f[i];
          assert o[k] == f[i];
        }
        assert (last, last) !in edges by { assert o[|o| - 1] == last; }
      }
    }
  }

  /** An order that respects the edges respects whole chains of them. */
  lemma {:induction false} ChainRespected(o: seq<Node>, edges: Edges<Node>, p: seq<Node>, i: nat, j: nat)
    requires Respects(o, edges) && i < |o| && j < |o| && Chains(edges, p, o[i], o[j])
    requires forall x | x in p :: x in o
    ensures j < i
    decreases |p|
  {
    if |p| == 2 {
      assert (p[0], p[1]) in edges;
    } else {
      assert p[1] in p;
      var k :| 0 <= k < |o| && o[k] == p[1];
      assert (p[0], p[1]) in edges;
      ChainRespected(o, edges, p[1..], k, j);
    }
  }

  lemma ChainStaysInside(edges: Edges<Node>, s: set<Node>, p: seq<Node>)
    requires IsChain(edges, p) && forall e | e in edges :: e.0 in s && e.1 in s
    ensures forall x | x in p :: x in s
  {
    forall i | 0 <= i < |p| ensures p[i] in s {
      assert (p[if i == 0 then 0 else i - 1], p[if i == 0 then 1 else i]) in edges;
    }
  }

  /** A graph with an order has no cycle. */
  lemma OrderedIsAcyclic(o: seq<Node>, s: set<Node>, edges: Edges<Node>)
    requires IsOrder(o, s, edges) && forall e | e in edges :: e.0 in s && e.1 in s
    ensures Acyclic(edges)
  {
    forall x ensures !Needs(edges, x, x) {
      if p :| Chains(edges, p, x, x) {
        ChainStaysInside(edges, s, p);
        assert forall y | y in p :: y in Members(o);
        assert p[0] in p;
        var i :| 0 <= i < |o| && o[i] == x;
        ChainRespected(o, edges, p, i, i);
      }
    }
  }

  /** Where a new node goes: right after the last node it needs. */
  lemma Place(o: seq<Node>, c: Node, edges: Edges<Node>) returns (k: nat)
    requires RespectsNeeds(o, edges)
    ensures k <= |o|
    ensures forall i | k <= i < |o| :: !Needs(edges, c, o[i])
    ensures forall i | 0 <= i < k :: !Needs(edges, o[i], c)
  {
    k := 0;
    for j := 0 to |o|
      invariant k <= j
      invariant k > 0 ==> Needs(edges, c, o[k - 1])
      invariant forall i | k <= i < j :: !Needs(edges, c, o[i])
    {
      if Needs(edges, c, o[j]) { k := j + 1; }
    }
    forall i | 0 <= i < k ensures !Needs(edges, o[i], c) {
      if Needs(edges, o[i], c) { NeedsJoin(edges, o[i], c, o[k - 1]); }
    }
  }

  lemma InsertAt(o: seq<Node>, c: Node, edges: Edges<Node>, k: nat)
    requires NoRepeats(o) && RespectsNeeds(o, edges) && c !in o && !Needs(edges, c, c) && k <= |o|
    requires forall i | k <= i < |o| :: !Needs(edges, c, o[i])
    requires forall i | 0 <= i < k :: !Needs(edges, o[i], c)
    ensures NoRepeats(o[..k] + [c] + o[k..]) && RespectsNeeds(o[..k] + [c] + o[k..], edges)
  {
    var r := o[..k] + [c] + o[k..];
    forall i, j | 0 <= i < |r| && 0 <= j < |r| && Needs(edges, r[i], r[j]) ensures j < i {
      var x := if i > k then i - 1 else i;
      var y := if j > k then j - 1 else j;
      assert i != k ==> r[i] == o[x];
      assert j != k ==> r[j] == o[y];
    }
  }

  lemma Insert(o: seq<Node>, c: Node, edges: Edges<Node>) returns (r: seq<Node>)
    requires NoRepeats(o) && RespectsNeeds(o, edges) && c !in o && Acyclic(edges)
    ensures NoRepeats(r) && RespectsNeeds(r, edges) && Members(r) == Members(o) + {c}
    ensures forall kept | c !in kept :: Filter(r, kept) == Filter(o, kept)
  {
    var k := Place(o, c, edges);
    InsertAt(o, c, edges, k);
    r := o[..k] + [c] + o[k..];
    assert o == o[..k] + o[k..];
    MembersJoin(o[..k] + [c], o[k..]);
    MembersJoin(o[..k], [c]);
    MembersJoin(o[..k], o[k..]);
    forall kept | c !in kept ensures Filter(r, kept) == Filter(o, kept) {
      FilterJoins(o[..k] + [c], o[k..], kept);
      FilterJoins(o[..k], [c], kept);
      FilterJoins(o[..k], o[k..], kept);
    }
  }

  /** Any set of further nodes can be added to an order that already respects all needs. */
  lemma {:induction false} InsertAll(o: seq<Node>, more: set<Node>, edges: Edges<Node>) returns (r: seq<Node>)
    requires NoRepeats(o) && RespectsNeeds(o, edges) && Members(o) !! more && Acyclic(edges)
    ensures NoRepeats(r) && RespectsNeeds(r, edges) && Members(r) == Members(o) + more
    ensures forall kept | kept !! more :: Filter(r, kept) == Filter(o, kept)
    decreases more
  {
    if more == {} {
      r := o;
    } else {
      var c :| c in more;
      var mid := Insert(o, c, edges);
      r := InsertAll(mid, more - {c}, edges);
    }
  }

  lemma NeedsRespected(o: seq<Node>, s: set<Node>, edges: Edges<Node>)
    requires NoRepeats(o) && Members(o) == s && RespectsNeeds(o, edges)
    ensures IsOrder(o, s, edges)
  {
    forall i, j | 0 <= i < |o| && 0 <= j < |o| && (o[i], o[j]) in edges ensures j < i {
      EdgeIsNeed(edges, o[i], o[j]);
    }
  }

  lemma ChainStaysWithin(edges: Edges<Node>, kept: set<Node>, p: seq<Node>)
    requires IsChain(Within(edges, kept), p)
    ensures forall x | x in p :: x in kept
    ensures IsChain(edges, p)
  {
    forall i | 0 <= i < |p| ensures p[i] in kept {
      assert i > 0 ==> (p[i - 1], p[i]) in Within(edges, kept);
      assert i == 0 ==> (p[0], p[1]) in Within(edges, kept);
    }
  }

  /** When needs survive, every order of the kept nodes is what some order of all nodes leaves. */
  lemma KeptOrderExtends(s: set<Node>, kept: set<Node>, edges: Edges<Node>, t: seq<Node>) returns (o: seq<Node>)
    requires kept <= s && Acyclic(edges) && KeepsNeeds(edges, kept) && IsOrder(t, kept, Within(edges, kept))
    ensures IsOrder(o, s, edges) && Filter(o, kept) == t
  {
    forall i, j | 0 <= i < |t| && 0 <= j < |t| && Needs(edges, t[i], t[j]) ensures j < i {
      assert t[i] in Members(t) && t[j] in Members(t);
      var p :| Chains(Within(edges, kept), p, t[i], t[j]);
      ChainStaysWithin(edges, kept, p);
      assert forall x | x in p :: x in Members(t);
      ChainRespected(t, Within(edges, kept), p, i, j);
    }
    o := InsertAll(t, s - kept, edges);
    NeedsRespected(o, s, edges);
    FilterAll(t, kept);
  }

  /** When a need is lost, some order of the kept nodes puts the needing node first. */
  lemma LostNeedMisorders(kept: set<Node>, edges: Edges<Node>, a: Node, b: Node) returns (t: seq<Node>, i: nat, j: nat)
    requires Acyclic(edges) && a in kept && b in kept && Needs(edges, a, b) && !Needs(Within(edges, kept), a, b)
    ensures IsOrder(t, kept, Within(edges, kept)) && i < j < |t| && t[i] == a && t[j] == b
  {
    var inner := Within(edges, kept);
    WithinAcyclic(edges, kept);
    var below := set x | x in kept && (x == a || Needs(inner, a, x));
    var first := InsertAll([], below, inner);
    var rest := InsertAll([], kept - below, inner);
    t := first + rest;
    assert a in Members(first) && b in Members(rest);
    i :| 0 <= i < |first| && first[i] == a;
    var k :| 0 <= k < |rest| && rest[k] == b;
    j := |first| + k;
    MembersJoin(first, rest);
    assert below + (kept - below) == kept;
    forall x, y | x in below && y !in below && (x, y) in inner ensures false {
      EdgeIsNeed(inner, x, y);
      if x != a { NeedsJoin(inner, a, x, y); }
    }
    NeedsRespected(first, below, inner);
    NeedsRespected(rest, kept - below, inner);
    AppendOrders(first, rest, below, kept - below, inner);
  }

  lemma WithinAcyclic(edges: Edges<Node>, kept: set<Node>)
    requires Acyclic(edges)
    ensures Acyclic(Within(edges, kept))
  {
    if x :| Needs(Within(edges, kept), x, x) {
      assert !Needs(edges, x, x);
      var p :| Chains(Within(edges, kept), p, x, x);
      assert Chains(edges, p, x, x);
    }
  }

  lemma AppendOrders(a: seq<Node>, b: seq<Node>, s: set<Node>, t: set<Node>, edges: Edges<Node>)
    requires IsOrder(a, s, edges) && IsOrder(b, t, edges) && s !! t
    requires forall x, y | x in s && y in t :: (x, y) !in edges
    ensures NoRepeats(a + b) && Respects(a + b, edges)
  {
    var r := a + b;
    forall i | 0 <= i < |r| ensures if i < |a| then r[i] in s else r[i] in t {
      if i < |a| { assert a[i] in Members(a); } else { assert b[i - |a|] in Members(b); }
    }
  }

  lemma {:induction false} FilterFollows(o: seq<Node>, kept: set<Node>, f: seq<Node>, i: nat, j: nat)
    returns (m: nat, n: nat)
    requires f == Filter(o, kept) && i < j < |f|
    ensures m < n < |o| && o[m] == f[i] && o[n] == f[j]
    decreases |o|
  {
    var init, last := o[..|o| - 1], o[|o| - 1];
    if last in kept && j == |f| - 1 {
      n := |o| - 1;
      FilterAll(init, kept);
      assert f[i] in Members(Filter(init, kept));
      m :| 0 <= m < |init| && init[m] == f[i];
    } else {
      m, n := FilterFollows(init, kept, Filter(init, kept), i, j);
    }
  }

  /** Every order of the kept nodes comes from an order of all nodes exactly when leaving the
      others out loses no need. */
  lemma OrdersExtendIff(s: set<Node>, kept: set<Node>, edges: Edges<Node>)
    requires kept <= s && Acyclic(edges) && forall e | e in edges :: e.0 in s && e.1 in s
    ensures (forall t | IsOrder(t, kept, Within(edges, kept)) ::
               exists o :: IsOrder(o, s, edges) && Filter(o, kept) == t)
       <==> KeepsNeeds(edges, kept)
  {
    if KeepsNeeds(edges, kept) {
      forall t | IsOrder(t, kept, Within(edges, kept))
        ensures exists o :: IsOrder(o, s, edges) && Filter(o, kept) == t
      {
        var o := KeptOrderExtends(s, kept, edges, t);
      }
    } else {
      var a, b :| a in kept && b in kept && Needs(edges, a, b) && !Needs(Within(edges, kept), a, b);
      var t, i, j := LostNeedMisorders(kept, edges, a, b);
      forall o | IsOrder(o, s, edges) ensures Filter(o, kept) != t {
        if Filter(o, kept) == t {
          var m, n := FilterFollows(o, kept, t, i, j);
          var p :| Chains(edges, p, a, b);
          ChainStaysInside(edges, s, p);
          assert forall x | x in p :: x in Members(o);
          ChainRespected(o, edges, p, m, n);
        }
      }
    }
  }

  /** A kept node never depending on a dropped one is enough for that. */
  lemma NoDroppedNeeds(edges: Edges<Node>, kept: set<Node>)
    requires forall e | e in edges && e.0 in kept :: e.1 in kept
    ensures KeepsNeeds(edges, kept)
  {
    forall a, b | a in kept && b in kept && Needs(edges, a, b) ensures Needs(Within(edges, kept), a, b) {
      var p :| Chains(edges, p, a, b);
      for i := 1 to |p|
        invariant forall k | 0 <= k < i :: p[k] in kept
        invariant forall k | 0 < k < i :: (p[k - 1], p[k]) in Within(edges, kept)
      {
        assert (p[i - 1], p[i]) in edges;
      }
      assert Chains(Within(edges, kept), p, a, b);
    }
  }

  /** A graph has an order exactly when it has no cycle. */
  lemma OrderExistsIff(s: set<Node>, edges: Edges<Node>)
    requires forall e | e in edges :: e.0 in s && e.1 in s
    ensures (exists o :: IsOrder(o, s, edges)) <==> Acyclic(edges)
  {
    if Acyclic(edges) {
      var o := InsertAll([], s, edges);
      NeedsRespected(o, s, edges);
    } else if o :| IsOrder(o, s, edges) {
      OrderedIsAcyclic(o, s, edges);
    }
  }
}
