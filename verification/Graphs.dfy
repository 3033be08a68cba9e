/** Reachability in a finite directed graph, the vocabulary in which the cycle
    checker's answers are stated. */
module Graphs {

  /** A graph is its set of edges. */
  type Graph = set<(nat, nat)>

  /** `p` lists the nodes after `u` on a walk that ends in `v`. */
  ghost predicate Walk(g: Graph, u: nat, p: seq<nat>, v: nat)
    decreases |p|
  {
    if p == [] then u == v else (u, p[0]) in g && Walk(g, p[0], p[1..], v)
  }

  ghost predicate Reach(g: Graph, u: nat, v: nat) {
    exists p :: Walk(g, u, p, v)
  }

  /** Each reaches the other: the relation whose classes are the strongly
      connected components. */
  ghost predicate Mutual(g: Graph, u: nat, v: nat) {
    Reach(g, u, v) && Reach(g, v, u)
  }

  /** No edge leaves `s`. */
  ghost predicate Closed(g: Graph, s: set<nat>) {
    forall u, v :: u in s && (u, v) in g ==> v in s
  }

  ghost predicate Within(g: Graph, n: nat) {
    forall u, v :: (u, v) in g ==> u < n && v < n
  }

  lemma ReachSelf(g: Graph, u: nat)
    ensures Reach(g, u, u)
  {
    assert Walk(g, u, [], u);
  }

  lemma ReachEdge(g: Graph, u: nat, v: nat)
    requires (u, v) in g
    ensures Reach(g, u, v)
  {
    assert Walk(g, v, [], v);
    assert [v][1..] == [];
    assert Walk(g, u, [v], v);
  }

  lemma {:induction false} WalkAppend(g: Graph, u: nat, p: seq<nat>, v: nat, q: seq<nat>, w: nat)
    requires Walk(g, u, p, v) && Walk(g, v, q, w)
    ensures Walk(g, u, p + q, w)
    decreases |p|
  {
    if p == [] {
      assert p + q == q;
    } else {
      WalkAppend(g, p[0], p[1..], v, q, w);
      assert (p + q)[1..] == p[1..] + q;
    }
  }

  lemma ReachTransitive(g: Graph, u: nat, v: nat, w: nat)
    requires Reach(g, u, v) && Reach(g, v, w)
    ensures Reach(g, u, w)
  {
    var p :| Walk(g, u, p, v);
    var q :| Walk(g, v, q, w);
    WalkAppend(g, u, p, v, q, w);
  }

  lemma {:induction false} WalkStaysInside(g: Graph, s: set<nat>, u: nat, p: seq<nat>, v: nat)
    requires Closed(g, s) && u in s && Walk(g, u, p, v)
    ensures v in s
    decreases |p|
  {
    if p != [] {
      WalkStaysInside(g, s, p[0], p[1..], v);
    }
  }

  lemma ReachStaysInside(g: Graph, s: set<nat>, u: nat, v: nat)
    requires Closed(g, s) && u in s && Reach(g, u, v)
    ensures v in s
  {
    var p :| Walk(g, u, p, v);
    WalkStaysInside(g, s, u, p, v);
  }

  /** A node that reaches a different one does so through some first edge. */
  lemma ReachFirstEdge(g: Graph, u: nat, v: nat) returns (w: nat)
    requires Reach(g, u, v) && u != v
    ensures (u, w) in g && Reach(g, w, v)
  {
    var p :| Walk(g, u, p, v);
    w := p[0];
    assert Walk(g, w, p[1..], v);
  }

  lemma {:induction false} WalkMonotone(g: Graph, h: Graph, u: nat, p: seq<nat>, v: nat)
    requires g <= h && Walk(g, u, p, v)
    ensures Walk(h, u, p, v)
    decreases |p|
  {
    if p != [] {
      WalkMonotone(g, h, p[0], p[1..], v);
    }
  }

  lemma ReachMonotone(g: Graph, h: Graph, u: nat, v: nat)
    requires g <= h && Reach(g, u, v)
    ensures Reach(h, u, v)
  {
    var p :| Walk(g, u, p, v);
    WalkMonotone(g, h, u, p, v);
  }
}
