/** Depth-first walks that guard against cycles with the set of nodes on the current
    path only (each node is removed again when the walk leaves it). */
module PathScopedWalk {
  import opened Finite

  type Ref = nat

  type Graph = map<Ref, seq<Ref>>

  ghost predicate Closed(g: Graph) {
    forall r, c :: r in g && c in g[r] ==> c in g
  }

  /** The nodes such a walk looks at, entered from `r` with `seen` on the path. */
  ghost function Visited(g: Graph, r: Ref, seen: set<Ref>): (visited: set<Ref>)
    requires Closed(g) && r in g && seen <= g.Keys
    ensures visited <= g.Keys
    decreases |g.Keys - seen|, 0, 0
  {
    if r in seen then {}
    else
      PathGrows(g, r, seen);
      {r} + VisitedAll(g, g[r], seen + {r})
  }

  ghost function VisitedAll(g: Graph, rs: seq<Ref>, seen: set<Ref>): (visited: set<Ref>)
    requires Closed(g) && seen <= g.Keys && forall c :: c in rs ==> c in g
    ensures visited <= g.Keys
    decreases |g.Keys - seen|, 1, |rs|
  {
    if rs == [] then {} else Visited(g, rs[0], seen) + VisitedAll(g, rs[1..], seen)
  }

  /** `p` leads from its first node to its last along edges of `g`. */
  ghost predicate IsPath(g: Graph, p: seq<Ref>) {
    && p != []
    && (forall i :: 0 <= i < |p| ==> p[i] in g)
    && (forall i :: 0 <= i < |p| - 1 ==> p[i + 1] in g[p[i]])
  }

  ghost predicate Reaches(g: Graph, a: Ref, b: Ref) {
    exists p :: IsPath(g, p) && p[0] == a && p[|p| - 1] == b
  }

  lemma ReachesSelf(g: Graph, a: Ref)
    requires a in g
    ensures Reaches(g, a, a)
  {
    assert IsPath(g, [a]);
  }

  lemma ReachesThroughChild(g: Graph, a: Ref, c: Ref, b: Ref)
    requires a in g && c in g[a] && Reaches(g, c, b)
    ensures Reaches(g, a, b)
  {
    var p :| IsPath(g, p) && p[0] == c && p[|p| - 1] == b;
    assert IsPath(g, [a] + p);
  }

  lemma {:induction false} VisitedAllMember(g: Graph, rs: seq<Ref>, seen: set<Ref>, b: Ref)
    requires Closed(g) && seen <= g.Keys && forall c :: c in rs ==> c in g
    ensures b in VisitedAll(g, rs, seen) <==> exists i :: 0 <= i < |rs| && b in Visited(g, rs[i], seen)
    decreases |rs|
  {
    if rs != [] {
      VisitedAllMember(g, rs[1..], seen, b);
      if b in VisitedAll(g, rs[1..], seen) {
        var i :| 0 <= i < |rs[1..]| && b in Visited(g, rs[1..][i], seen);
        assert b in Visited(g, rs[i + 1], seen);
      }
      if i :| 0 <= i < |rs| && b in Visited(g, rs[i], seen) {
        if i > 0 { assert b in Visited(g, rs[1..][i - 1], seen); }
      }
    }
  }

  /** Nothing is looked at that cannot be reached. */
  lemma {:induction false} VisitedIsReached(g: Graph, r: Ref, seen: set<Ref>, b: Ref)
    requires Closed(g) && r in g && seen <= g.Keys && b in Visited(g, r, seen)
    ensures Reaches(g, r, b)
    decreases |g.Keys - seen|
  {
    if b == r {
      ReachesSelf(g, r);
    } else {
      PathGrows(g, r, seen);
      VisitedAllMember(g, g[r], seen + {r}, b);
      var i :| 0 <= i < |g[r]| && b in Visited(g, g[r][i], seen + {r});
      VisitedIsReached(g, g[r][i], seen + {r}, b);
      ReachesThroughChild(g, r, g[r][i], b);
    }
  }

  /** The part of a path after the last visit to its first node. */
  lemma {:induction false} LastVisit(g: Graph, p: seq<Ref>) returns (q: seq<Ref>)
    requires IsPath(g, p) && p[|p| - 1] != p[0]
    ensures IsPath(g, q) && q[|q| - 1] == p[|p| - 1] && q[0] in g[p[0]] && p[0] !in q
    ensures forall x :: x in q ==> x in p
    decreases |p|
  {
    q := p[1..];
    if p[0] in q {
      var i :| 0 <= i < |q| && q[i] == p[0];
      q := LastVisit(g, q[i..]);
    }
  }

  /** Whatever a path avoiding the nodes on the current path leads to is looked at. */
  lemma {:induction false} ReachedIsVisited(g: Graph, p: seq<Ref>, seen: set<Ref>)
    requires Closed(g) && seen <= g.Keys && IsPath(g, p)
    requires forall x :: x in p ==> x !in seen
    ensures p[|p| - 1] in Visited(g, p[0], seen)
    decreases |g.Keys - seen|
  {
    var r, b := p[0], p[|p| - 1];
    if b != r {
      var q := LastVisit(g, p);
      PathGrows(g, r, seen);
      ReachedIsVisited(g, q, seen + {r});
      VisitedAllMember(g, g[r], seen + {r}, b);
      var i :| 0 <= i < |g[r]| && g[r][i] == q[0];
      assert b in Visited(g, g[r][i], seen + {r});
    }
  }

  /** A path-scoped walk over any finite graph, cyclic or not, looks at exactly the
      nodes that can be reached. */
  lemma VisitedIffReachable(g: Graph, r: Ref, b: Ref)
    requires Closed(g) && r in g
    ensures b in Visited(g, r, {}) <==> Reaches(g, r, b)
  {
    if b in Visited(g, r, {}) {
      VisitedIsReached(g, r, {}, b);
    }
    if Reaches(g, r, b) {
      var p :| IsPath(g, p) && p[0] == r && p[|p| - 1] == b;
      ReachedIsVisited(g, p, {});
    }
  }

  lemma {:induction false} VisitedAllSnoc(g: Graph, rs: seq<Ref>, c: Ref, seen: set<Ref>)
    requires Closed(g) && seen <= g.Keys && c in g && forall x :: x in rs ==> x in g
    ensures VisitedAll(g, rs + [c], seen) == VisitedAll(g, rs, seen) + Visited(g, c, seen)
    decreases |rs|
  {
    if rs == [] {
      assert ([c] + [])[1..] == [];
      assert rs + [c] == [c];
    } else {
      VisitedAllSnoc(g, rs[1..], c, seen);
      assert (rs + [c])[1..] == rs[1..] + [c];
    }
  }

  lemma ReachesOnward(g: Graph, a: Ref, b: Ref, c: Ref)
    requires Reaches(g, a, b) && c in g && b in g && c in g[b]
    ensures Reaches(g, a, c)
  {
    var p :| IsPath(g, p) && p[0] == a && p[|p| - 1] == b;
    assert IsPath(g, p + [c]);
  }

  /** Nothing leads out of the set. */
  ghost predicate Keeps(g: Graph, held: set<Ref>) {
    forall r, c :: r in held && r in g && c in g[r] ==> c in held
  }

  lemma {:induction false} PathStays(g: Graph, p: seq<Ref>, held: set<Ref>)
    requires Keeps(g, held) && IsPath(g, p) && p[0] in held
    ensures p[|p| - 1] in held
    decreases |p|
  {
    if |p| > 1 {
      assert p[1] in g[p[0]];
      PathStays(g, p[1..], held);
    }
  }

  /** Whatever is reached lies in every set that holds the start and that nothing leads out
      of, and the nodes reached are such a set. */
  lemma ReachedAreKept(g: Graph, a: Ref) returns (reached: set<Ref>)
    requires Closed(g) && a in g
    ensures reached <= g.Keys && a in reached && Keeps(g, reached)
    ensures forall b :: b in reached <==> Reaches(g, a, b)
    ensures forall held: set<Ref> :: a in held && Keeps(g, held) ==> reached <= held
  {
    reached := set b | b in g && Reaches(g, a, b);
    ReachesSelf(g, a);
    forall r, c | r in reached && r in g && c in g[r]
      ensures c in reached
    {
      ReachesOnward(g, a, r, c);
    }
    forall held: set<Ref>, b | a in held && Keeps(g, held) && b in reached
      ensures b in held
    {
      var p :| IsPath(g, p) && p[0] == a && p[|p| - 1] == b;
      PathStays(g, p, held);
    }
  }
}
