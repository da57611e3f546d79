/** Reachability along child lists that only ever steps through a given set of
    "white" identifiers. The three cascades of the agent supervisor each change
    exactly such a set; this module holds the graph reasoning they share. */
module WhitePaths {
  type Id = string
  type Graph = map<Id, seq<Id>>

  /** `p` is a nonempty path of white nodes, each listed as a child of the one before. */
  ghost predicate IsPath(g: Graph, white: set<Id>, p: seq<Id>) {
    && |p| > 0
    && (forall i | 0 <= i < |p| :: p[i] in white && p[i] in g)
    && (forall i | 0 < i < |p| :: p[i] in g[p[i - 1]])
  }

  ghost predicate Connects(g: Graph, white: set<Id>, from: set<Id>, p: seq<Id>, to: Id) {
    IsPath(g, white, p) && p[0] in from && p[|p| - 1] == to
  }

  ghost function Members(s: seq<Id>): set<Id> {
    set c | c in s
  }

  ghost function Kids(g: Graph, x: Id): set<Id>
    requires x in g
  {
    Members(g[x])
  }

  /** The white nodes some white path reaches from `from`. */
  ghost function Reach(g: Graph, white: set<Id>, from: set<Id>): set<Id> {
    set x | x in white && exists p :: Connects(g, white, from, p, x)
  }

  lemma WiderPath(g: Graph, white: set<Id>, wider: set<Id>, from: set<Id>, more: set<Id>, p: seq<Id>, to: Id)
    requires Connects(g, white, from, p, to) && white <= wider && from <= more
    ensures Connects(g, wider, more, p, to)
  {
  }

  /** Two white paths that meet make one. */
  lemma JoinPaths(g: Graph, white: set<Id>, from: set<Id>, p: seq<Id>, q: seq<Id>, to: Id)
    requires |q| > 0 && Connects(g, white, from, p, q[0]) && IsPath(g, white, q) && q[|q| - 1] == to
    ensures Connects(g, white, from, p + q[1..], to)
  {
    var r := p + q[1..];
    forall i | 0 < i < |r| ensures r[i] in g[r[i - 1]] {
      if i >= |p| {
        assert r[i] == q[i - |p| + 1];
        assert r[i - 1] == q[i - |p|];
      }
    }
  }

  /** Sweeping one more root after others costs nothing: what the extra root still
      reaches once everything reached so far has lost its colour completes the set. */
  lemma ReachSplit(g: Graph, white: set<Id>, from: set<Id>, root: Id)
    ensures var done := Reach(g, white, from);
            Reach(g, white, from + {root}) == done + Reach(g, white - done, {root})
  {
    var done := Reach(g, white, from);
    forall x | x in Reach(g, white, from + {root}) ensures x in done || x in Reach(g, white - done, {root}) {
      var p :| Connects(g, white, from + {root}, p, x);
      if p[0] in from {
        assert Connects(g, white, from, p, x);
      } else if i :| 0 <= i < |p| && p[i] in done {
        var q :| Connects(g, white, from, q, p[i]);
        JoinPaths(g, white, from, q, p[i..], x);
      } else {
        assert Connects(g, white - done, {root}, p, x);
      }
    }
    forall x | x in done ensures x in Reach(g, white, from + {root}) {
      var p :| Connects(g, white, from, p, x);
      WiderPath(g, white, white, from, from + {root}, p, x);
    }
    forall x | x in Reach(g, white - done, {root}) ensures x in Reach(g, white, from + {root}) {
      var p :| Connects(g, white - done, {root}, p, x);
      WiderPath(g, white - done, white, {root}, from + {root}, p, x);
    }
  }

  /** From a path that starts at `root`, the part after the last visit to `root`. */
  lemma {:induction false} LeaveRoot(g: Graph, white: set<Id>, root: Id, p: seq<Id>, x: Id) returns (q: seq<Id>)
    requires Connects(g, white, {root}, p, x) && x != root
    ensures Connects(g, white - {root}, Kids(g, root), q, x)
    decreases |p|
  {
    if i :| 0 < i < |p| && p[i] == root {
      q := LeaveRoot(g, white, root, p[i..], x);
    } else {
      q := p[1..];
      assert q[0] == p[1] && q[0] in g[p[0]];
    }
  }

  /** A white root reaches itself and whatever its children reach once it is no longer white. */
  lemma ReachStep(g: Graph, white: set<Id>, root: Id)
    requires root in white && root in g
    ensures Reach(g, white, {root}) == {root} + Reach(g, white - {root}, Kids(g, root))
  {
    var kids := Kids(g, root);
    forall x | x in Reach(g, white, {root}) ensures x == root || x in Reach(g, white - {root}, kids) {
      var p :| Connects(g, white, {root}, p, x);
      if x != root {
        var q := LeaveRoot(g, white, root, p, x);
      }
    }
    assert Connects(g, white, {root}, [root], root);
    forall x | x in Reach(g, white - {root}, kids) ensures x in Reach(g, white, {root}) {
      var p :| Connects(g, white - {root}, kids, p, x);
      Prepend(g, white, root, p, x);
    }
  }

  lemma Prepend(g: Graph, white: set<Id>, root: Id, p: seq<Id>, x: Id)
    requires root in white && root in g
    requires Connects(g, white - {root}, Kids(g, root), p, x)
    ensures Connects(g, white, {root}, [root] + p, x)
  {
    WiderPath(g, white - {root}, white, Kids(g, root), Kids(g, root), p, x);
    var r := [root] + p;
    forall i | 0 < i < |r| ensures r[i] in g[r[i - 1]] {
      if i > 1 { assert r[i] == p[i - 1] && r[i - 1] == p[i - 2]; }
    }
  }

  lemma ReachNothing(g: Graph, white: set<Id>, root: Id)
    requires root !in white || root !in g
    ensures Reach(g, white, {root}) == {}
  {
  }
}
