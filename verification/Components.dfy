/** Tarjan's search over the foreign-key graph, as the cycle checker runs it:
    the search state, the invariant every call keeps, and the steps of the
    proof that each group it closes is a whole strongly connected component. */
module Components {
  import opened Graphs
  import opened Options

  /** One snapshot of the search's fields. */
  datatype Env = Env(
    index: seq<Option<nat>>,
    low: seq<nat>,
    onStack: seq<bool>,
    stack: seq<nat>,
    next: nat,
    components: seq<seq<nat>>)
  {
    predicate Visited(v: nat) {
      v < |index| && index[v].Some?
    }

    /** When `v` was first met. */
    function Num(v: nat): nat {
      if Visited(v) then index[v].value else 0
    }

    /** Met, and already put into a component. */
    predicate Done(v: nat) {
      Visited(v) && v !in stack
    }
  }

  ghost predicate Shape(n: nat, e: Env) {
    && |e.index| == |e.low| == |e.onStack| == n
    && (forall v: nat :: v < n ==> (e.onStack[v] <==> v in e.stack))
    && (forall v :: v in e.stack ==> e.Visited(v))
    && (forall v: nat :: e.Visited(v) ==> e.Num(v) < e.next)
  }

  /** The stack lists its nodes in the order they were met. */
  ghost predicate Ordered(e: Env) {
    forall i, j :: 0 <= i < j < |e.stack| ==> e.Num(e.stack[i]) < e.Num(e.stack[j])
  }

  /** A stacked node reaches every stacked node met after it. */
  ghost predicate Linked(g: Graph, e: Env) {
    forall u: nat, v: nat {:trigger Reach(g, u, v)} ::
      u in e.stack && v in e.stack && e.Num(u) <= e.Num(v) ==> Reach(g, u, v)
  }

  /** `x` is an active call that `v` reaches and that began no later than `v`. */
  ghost predicate LeadsBackTo(g: Graph, e: Env, gray: set<nat>, v: nat, x: nat) {
    x in gray && e.Num(x) <= e.Num(v) && Reach(g, v, x)
  }

  ghost predicate HasAnchor(g: Graph, e: Env, gray: set<nat>, v: nat) {
    exists x :: LeadsBackTo(g, e, gray, v, x)
  }

  /** Every node on the stack leads back to an active call. */
  ghost predicate Anchored(g: Graph, e: Env, gray: set<nat>) {
    && (forall x :: x in gray ==> x in e.stack)
    && (forall v {:trigger HasAnchor(g, e, gray, v)} :: v in e.stack ==> HasAnchor(g, e, gray, v))
  }

  /** A call that returned saw every successor. */
  ghost predicate Explored(g: Graph, e: Env, gray: set<nat>) {
    forall v: nat, w: nat :: (v, w) in g && e.Visited(v) && v !in gray ==> e.Visited(w)
  }

  /** A closed group keeps all of its successors among the closed groups. */
  ghost predicate Sealed(g: Graph, e: Env) {
    forall v: nat, w: nat :: (v, w) in g && e.Done(v) ==> e.Done(w)
  }

  /** `c` lists, once each, exactly the nodes mutually reachable with any
      of its members. */
  ghost predicate IsComponent(g: Graph, n: nat, c: seq<nat>) {
    && c != []
    && (forall i :: 0 <= i < |c| ==> c[i] < n)
    && (forall i, j :: 0 <= i < j < |c| ==> c[i] != c[j])
    && (forall u: nat, v: nat :: u in c && v < n ==> (v in c <==> Mutual(g, u, v)))
  }

  ghost predicate Disjoint(cs: seq<seq<nat>>) {
    forall k, l, v :: 0 <= k < l < |cs| && v in cs[k] ==> v !in cs[l]
  }

  ghost predicate Listed(cs: seq<seq<nat>>, v: nat) {
    exists k :: 0 <= k < |cs| && v in cs[k]
  }

  ghost predicate Grouped(g: Graph, n: nat, e: Env) {
    && (forall k :: 0 <= k < |e.components| ==> IsComponent(g, n, e.components[k]))
    && Disjoint(e.components)
    && (forall v: nat :: v < n ==> (e.Done(v) <==> Listed(e.components, v)))
  }

  /** The invariant of the search. `gray` holds the nodes whose call is active. */
  ghost predicate Consistent(g: Graph, n: nat, e: Env, gray: set<nat>) {
    && Shape(n, e)
    && Ordered(e)
    && Linked(g, e)
    && Anchored(g, e, gray)
    && Explored(g, e, gray)
    && Sealed(g, e)
    && Grouped(g, n, e)
  }

  /** What a call leaves as it found it. */
  ghost predicate Extends(before: Env, after: Env) {
    && |after.index| == |before.index|
    && before.next <= after.next
    && before.stack <= after.stack
    && (forall v: nat :: before.Visited(v) ==> after.index[v] == before.index[v])
    && (forall v: nat :: after.Visited(v) && !before.Visited(v) ==> before.next <= after.Num(v))
    && (forall v: nat :: before.Done(v) ==> after.Done(v))
  }

  /** Calls already begun keep their `low`, except the one on `node`. */
  ghost predicate LowKept(before: Env, after: Env, node: nat) {
    && |after.low| == |before.low|
    && forall v: nat :: before.Visited(v) && v < |before.low| && v != node ==> after.low[v] == before.low[v]
  }

  lemma ExtendsTransitive(a: Env, b: Env, c: Env, node: nat)
    requires Extends(a, b) && Extends(b, c) && LowKept(a, b, node) && LowKept(b, c, node)
    ensures Extends(a, c) && LowKept(a, c, node)
  {
  }

  /** `low` is the number of a stacked node that `v` reaches. */
  ghost predicate LowReached(g: Graph, e: Env, v: nat, low: nat) {
    exists w :: w in e.stack && e.Num(w) == low && Reach(g, v, w)
  }

  /** Edges that start at a stacked node met at time `from` or later, and end
      at one met before `bound`, go no lower than `low`. */
  ghost predicate NoEdgeBelow(g: Graph, e: Env, from: nat, bound: nat, low: nat) {
    forall u, w :: (u, w) in g && u in e.stack && w in e.stack && from <= e.Num(u) && e.Num(w) < bound
      ==> low <= e.Num(w)
  }

  // ----- pushing a node -----

  function Pushed(e: Env, node: nat): Env
    requires node < |e.index| && |e.index| == |e.low| == |e.onStack|
  {
    e.(index := e.index[node := Some(e.next)],
       low := e.low[node := e.next],
       next := e.next + 1,
       stack := e.stack + [node],
       onStack := e.onStack[node := true])
  }

  ghost predicate SameExcept(e: Env, f: Env, node: nat) {
    && (forall v: nat :: v != node ==> f.Visited(v) == e.Visited(v) && f.Num(v) == e.Num(v))
    && (forall v: nat :: f.Done(v) <==> e.Done(v))
  }

  lemma PushShape(n: nat, e: Env, node: nat)
    requires Shape(n, e) && node < n && !e.Visited(node)
    ensures Shape(n, Pushed(e, node)) && SameExcept(e, Pushed(e, node), node)
    ensures Extends(e, Pushed(e, node)) && LowKept(e, Pushed(e, node), node)
    ensures Pushed(e, node).Num(node) == e.next && Pushed(e, node).Visited(node)
  {
    var f := Pushed(e, node);
    assert forall v: nat :: v != node ==> f.Visited(v) == e.Visited(v) && f.Num(v) == e.Num(v);
    assert forall v: nat :: v in f.stack <==> v in e.stack || v == node;
  }

  lemma PushOrdered(n: nat, e: Env, node: nat)
    requires Shape(n, e) && node < n && !e.Visited(node) && Ordered(e)
    ensures Ordered(Pushed(e, node))
  {
    PushShape(n, e, node);
    var f := Pushed(e, node);
    forall i, j | 0 <= i < j < |f.stack|
      ensures f.Num(f.stack[i]) < f.Num(f.stack[j])
    {
      assert f.stack[i] == e.stack[i] && e.stack[i] in e.stack;
      if j < |e.stack| {
        assert f.stack[j] == e.stack[j] && e.stack[j] in e.stack;
      }
    }
  }

  lemma PushLinked(g: Graph, n: nat, e: Env, gray: set<nat>, node: nat)
    requires Shape(n, e) && node < n && !e.Visited(node) && Linked(g, e) && Anchored(g, e, gray)
    requires forall x :: x in gray ==> Reach(g, x, node)
    ensures Linked(g, Pushed(e, node)) && Anchored(g, Pushed(e, node), gray + {node})
  {
    PushShape(n, e, node);
    var f := Pushed(e, node);
    ReachSelf(g, node);
    assert forall v: nat :: v in f.stack <==> v in e.stack || v == node;
    forall v | v in e.stack
      ensures Reach(g, v, node)
      ensures HasAnchor(g, f, gray + {node}, v)
    {
      assert HasAnchor(g, e, gray, v);
      var x :| LeadsBackTo(g, e, gray, v, x);
      ReachTransitive(g, v, x, node);
      assert LeadsBackTo(g, f, gray + {node}, v, x);
    }
    assert LeadsBackTo(g, f, gray + {node}, node, node);
  }

  lemma PushConsistent(g: Graph, n: nat, e: Env, gray: set<nat>, node: nat)
    requires Consistent(g, n, e, gray) && node < n && !e.Visited(node)
    requires forall x :: x in gray ==> Reach(g, x, node)
    ensures Consistent(g, n, Pushed(e, node), gray + {node})
  {
    PushShape(n, e, node);
    PushOrdered(n, e, node);
    PushLinked(g, n, e, gray, node);
  }

  // ----- closing a group -----

  /** The stacked nodes met at time `from` or later. */
  ghost predicate Top(e: Env, from: nat, v: nat) {
    v in e.stack && from <= e.Num(v)
  }

  ghost function DoneSet(n: nat, e: Env): set<nat> {
    set v: nat | 0 <= v < n && e.Done(v)
  }

  ghost function DoneOrTop(n: nat, e: Env, from: nat): set<nat> {
    set v: nat | 0 <= v < n && (e.Done(v) || Top(e, from, v))
  }

  /** All calls begun at time `from` or later have seen all their successors. */
  ghost predicate TopExplored(g: Graph, e: Env, from: nat) {
    forall v, w :: (v, w) in g && Top(e, from, v) ==> e.Visited(w)
  }

  lemma TopIsClosed(g: Graph, n: nat, e: Env, from: nat)
    requires Within(g, n) && Shape(n, e) && Sealed(g, e)
    requires TopExplored(g, e, from) && NoEdgeBelow(g, e, from, from, from)
    ensures Closed(g, DoneSet(n, e)) && Closed(g, DoneOrTop(n, e, from))
  {
    forall u, v | u in DoneOrTop(n, e, from) && (u, v) in g
      ensures v in DoneOrTop(n, e, from)
    {
      if Top(e, from, u) {
        assert e.Visited(v);
      }
    }
  }

  /** From above `from`, only the call begun at `from` can be led back to. */
  lemma TopLeadsToNode(g: Graph, n: nat, e: Env, gray: set<nat>, node: nat, u: nat)
    requires Within(g, n) && Shape(n, e) && Sealed(g, e) && Linked(g, e)
    requires Anchored(g, e, gray + {node})
    requires forall x :: x in gray ==> e.Num(x) < e.Num(node)
    requires TopExplored(g, e, e.Num(node)) && NoEdgeBelow(g, e, e.Num(node), e.Num(node), e.Num(node))
    requires Top(e, e.Num(node), u) && node in e.stack
    ensures Mutual(g, u, node)
  {
    assert HasAnchor(g, e, gray + {node}, u);
    var x :| LeadsBackTo(g, e, gray + {node}, u, x);
    TopIsClosed(g, n, e, e.Num(node));
    ReachStaysInside(g, DoneOrTop(n, e, e.Num(node)), u, x);
  }

  lemma TopIsComponent(g: Graph, n: nat, e: Env, gray: set<nat>, node: nat, c: seq<nat>)
    requires Within(g, n) && Shape(n, e) && Sealed(g, e) && Linked(g, e)
    requires Anchored(g, e, gray + {node})
    requires forall x :: x in gray ==> e.Num(x) < e.Num(node)
    requires TopExplored(g, e, e.Num(node)) && NoEdgeBelow(g, e, e.Num(node), e.Num(node), e.Num(node))
    requires node in e.stack
    requires forall v: nat :: v in c <==> Top(e, e.Num(node), v)
    requires forall i, j :: 0 <= i < j < |c| ==> c[i] != c[j]
    ensures IsComponent(g, n, c)
  {
    assert node in c;
    assert forall i :: 0 <= i < |c| ==> c[i] in c && Top(e, e.Num(node), c[i]);
    forall u: nat, v: nat | u in c && v < n
      ensures v in c <==> Mutual(g, u, v)
    {
      TopLeadsToNode(g, n, e, gray, node, u);
      if v in c {
        TopLeadsToNode(g, n, e, gray, node, v);
        ReachTransitive(g, u, node, v);
        ReachTransitive(g, v, node, u);
      }
      if Mutual(g, u, v) {
        TopIsClosed(g, n, e, e.Num(node));
        ReachStaysInside(g, DoneOrTop(n, e, e.Num(node)), u, v);
        if v in DoneSet(n, e) {
          ReachStaysInside(g, DoneSet(n, e), v, u);
        }
      }
    }
  }

  function Popped(e: Env, k: nat, c: seq<nat>): Env
    requires k <= |e.stack|
  {
    e.(stack := e.stack[..k],
       onStack := seq(|e.onStack|, v requires 0 <= v < |e.onStack| => v in e.stack[..k]),
       components := e.components + [c])
  }

  lemma StackDistinct(e: Env)
    requires Ordered(e)
    ensures forall i, j :: 0 <= i < j < |e.stack| ==> e.stack[i] != e.stack[j]
  {
  }

  /** The nodes popped down to position `k`, last in first out. */
  ghost predicate IsPoppedTo(e: Env, k: nat, c: seq<nat>) {
    k <= |e.stack| && |c| == |e.stack| - k
    && forall i :: 0 <= i < |c| ==> c[i] == e.stack[|e.stack| - 1 - i]
  }

  lemma PoppedIsTop(e: Env, k: nat, c: seq<nat>)
    requires Ordered(e) && k < |e.stack| && IsPoppedTo(e, k, c)
    ensures forall v: nat :: v in c <==> Top(e, e.Num(e.stack[k]), v)
    ensures forall i, j :: 0 <= i < j < |c| ==> c[i] != c[j]
  {
    StackDistinct(e);
    forall v: nat | Top(e, e.Num(e.stack[k]), v)
      ensures v in c
    {
      var i :| 0 <= i < |e.stack| && e.stack[i] == v;
      assert i >= k;
      assert c[|e.stack| - 1 - i] == v;
    }
  }

  /** Cutting the stack at `k` keeps the nodes met before `e.stack[k]`. */
  ghost predicate Cut(e: Env, f: Env, from: nat) {
    && (forall v: nat :: f.Visited(v) == e.Visited(v) && f.Num(v) == e.Num(v))
    && (forall v: nat :: v in f.stack <==> v in e.stack && e.Num(v) < from)
    && (forall v: nat :: f.Done(v) <==> e.Done(v) || Top(e, from, v))
  }

  lemma PopCut(n: nat, e: Env, k: nat, c: seq<nat>)
    requires Shape(n, e) && Ordered(e) && k < |e.stack|
    ensures Cut(e, Popped(e, k, c), e.Num(e.stack[k]))
  {
    var f := Popped(e, k, c);
    assert forall v: nat :: f.Visited(v) == e.Visited(v) && f.Num(v) == e.Num(v);
    forall v: nat
      ensures v in f.stack <==> v in e.stack && e.Num(v) < e.Num(e.stack[k])
    {
      if v in e.stack {
        var i :| 0 <= i < |e.stack| && e.stack[i] == v;
        if i < k {
          assert f.stack[i] == v;
        }
      }
    }
  }

  lemma PopShape(n: nat, e: Env, k: nat, c: seq<nat>)
    requires Shape(n, e) && Ordered(e) && k < |e.stack|
    ensures Shape(n, Popped(e, k, c)) && Ordered(Popped(e, k, c))
    ensures Cut(e, Popped(e, k, c), e.Num(e.stack[k]))
  {
    PopCut(n, e, k, c);
  }

  lemma PopLinked(g: Graph, n: nat, e: Env, f: Env, gray: set<nat>, node: nat)
    requires Cut(e, f, e.Num(node)) && Linked(g, e) && Anchored(g, e, gray + {node})
    requires forall x :: x in gray ==> e.Num(x) < e.Num(node)
    ensures Linked(g, f) && Anchored(g, f, gray)
  {
    forall v | v in f.stack
      ensures HasAnchor(g, f, gray, v)
    {
      assert HasAnchor(g, e, gray + {node}, v);
      var x :| LeadsBackTo(g, e, gray + {node}, v, x);
      assert LeadsBackTo(g, f, gray, v, x);
    }
  }

  lemma PopSealed(g: Graph, n: nat, e: Env, f: Env, gray: set<nat>, node: nat)
    requires Within(g, n) && Shape(n, e) && Sealed(g, e) && Explored(g, e, gray + {node})
    requires Cut(e, f, e.Num(node))
    requires TopExplored(g, e, e.Num(node)) && NoEdgeBelow(g, e, e.Num(node), e.Num(node), e.Num(node))
    requires node in e.stack
    ensures Sealed(g, f) && Explored(g, f, gray)
  {
    TopIsClosed(g, n, e, e.Num(node));
    forall v: nat, w: nat | (v, w) in g && f.Done(v)
      ensures f.Done(w)
    {
      assert v in DoneOrTop(n, e, e.Num(node));
      assert w in DoneOrTop(n, e, e.Num(node));
    }
    forall v: nat, w: nat | (v, w) in g && f.Visited(v) && v !in gray
      ensures f.Visited(w)
    {
      if v == node {
        assert Top(e, e.Num(node), v);
      }
    }
  }

  lemma PopGrouped(g: Graph, n: nat, e: Env, f: Env, from: nat, c: seq<nat>)
    requires Grouped(g, n, e) && IsComponent(g, n, c) && Cut(e, f, from)
    requires f.components == e.components + [c]
    requires forall v: nat :: v in c <==> Top(e, from, v)
    ensures Grouped(g, n, f)
  {
    var m := |e.components|;
    assert f.components[m] == c && forall i :: 0 <= i < m ==> f.components[i] == e.components[i];
    forall i, v | 0 <= i < m && v in e.components[i]
      ensures v !in c
    {
      var j :| 0 <= j < |e.components[i]| && e.components[i][j] == v;
      assert Listed(e.components, v);
    }
    forall v: nat | v < n
      ensures f.Done(v) <==> Listed(f.components, v)
    {
      if Listed(f.components, v) {
        var i :| 0 <= i < |f.components| && v in f.components[i];
        if i < m {
          assert Listed(e.components, v);
        }
      }
      if Listed(e.components, v) {
        var i :| 0 <= i < m && v in e.components[i];
        assert v in f.components[i];
      }
      if Top(e, from, v) {
        assert v in f.components[m];
      }
    }
  }

  lemma PopConsistent(g: Graph, n: nat, e: Env, gray: set<nat>, k: nat, c: seq<nat>)
    requires Within(g, n) && k < |e.stack| && Consistent(g, n, e, gray + {e.stack[k]})
    requires forall x :: x in gray ==> e.Num(x) < e.Num(e.stack[k])
    requires TopExplored(g, e, e.Num(e.stack[k]))
    requires NoEdgeBelow(g, e, e.Num(e.stack[k]), e.Num(e.stack[k]), e.Num(e.stack[k]))
    requires forall v: nat :: v in c <==> Top(e, e.Num(e.stack[k]), v)
    requires forall i, j :: 0 <= i < j < |c| ==> c[i] != c[j]
    ensures Consistent(g, n, Popped(e, k, c), gray)
    ensures Cut(e, Popped(e, k, c), e.Num(e.stack[k]))
  {
    var f, node := Popped(e, k, c), e.stack[k];
    PopShape(n, e, k, c);
    TopIsComponent(g, n, e, gray, node, c);
    PopLinked(g, n, e, f, gray, node);
    PopSealed(g, n, e, f, gray, node);
    PopGrouped(g, n, e, f, e.Num(node), c);
  }

  // ----- leaving a node on the stack -----

  /** A call that can go further down the stack hands its anchor on. */
  lemma BlackenAnchored(g: Graph, e: Env, gray: set<nat>, node: nat, low: nat)
    requires Anchored(g, e, gray + {node}) && LowReached(g, e, node, low) && low < e.Num(node)
    ensures Anchored(g, e, gray)
  {
    var w :| w in e.stack && e.Num(w) == low && Reach(g, node, w);
    assert HasAnchor(g, e, gray + {node}, w);
    var y :| LeadsBackTo(g, e, gray + {node}, w, y);
    ReachTransitive(g, node, w, y);
    forall v | v in e.stack
      ensures HasAnchor(g, e, gray, v)
    {
      assert HasAnchor(g, e, gray + {node}, v);
      var x :| LeadsBackTo(g, e, gray + {node}, v, x);
      if x == node {
        ReachTransitive(g, v, node, y);
        assert LeadsBackTo(g, e, gray, v, y);
      } else {
        assert LeadsBackTo(g, e, gray, v, x);
      }
    }
  }

  lemma BlackenConsistent(g: Graph, n: nat, e: Env, gray: set<nat>, node: nat, low: nat)
    requires Consistent(g, n, e, gray + {node}) && TopExplored(g, e, e.Num(node))
    requires LowReached(g, e, node, low) && low < e.Num(node)
    ensures Consistent(g, n, e, gray)
  {
    BlackenAnchored(g, e, gray, node, low);
    assert Top(e, e.Num(node), node);
  }

  // ----- scanning a node's successors -----

  /** The call on `node` has looked at `seen` and would return `low`. */
  ghost predicate Scanning(g: Graph, e: Env, node: nat, seen: seq<nat>, low: nat) {
    && node in e.stack && low <= e.Num(node)
    && LowReached(g, e, node, low)
    && (forall w :: w in seen ==> e.Visited(w))
    && (forall w :: w in seen && w in e.stack && e.Num(w) < e.Num(node) ==> low <= e.Num(w))
    && NoEdgeBelow(g, e, e.Num(node) + 1, e.Num(node), low)
  }

  ghost predicate LowApart(e: Env, f: Env) {
    f == e.(low := f.low) && |f.low| == |e.low|
  }

  lemma LowApartAnchored(g: Graph, e: Env, f: Env, gray: set<nat>)
    requires LowApart(e, f) && Anchored(g, e, gray)
    ensures Anchored(g, f, gray)
  {
    forall v | v in f.stack
      ensures HasAnchor(g, f, gray, v)
    {
      assert HasAnchor(g, e, gray, v);
      var x :| LeadsBackTo(g, e, gray, v, x);
      assert LeadsBackTo(g, f, gray, v, x);
    }
  }

  /** Only the call itself reads `low`; the invariant does not. */
  lemma LowIsFree(g: Graph, n: nat, e: Env, f: Env, gray: set<nat>)
    requires LowApart(e, f) && Consistent(g, n, e, gray)
    ensures Consistent(g, n, f, gray)
  {
    LowApartAnchored(g, e, f, gray);
    assert forall v: nat :: f.Visited(v) == e.Visited(v) && f.Num(v) == e.Num(v) && f.Done(v) == e.Done(v);
  }

  lemma LowIsFreeInScan(g: Graph, e: Env, f: Env, node: nat, seen: seq<nat>, low: nat)
    requires LowApart(e, f) && Scanning(g, e, node, seen, low)
    ensures Scanning(g, f, node, seen, low)
  {
    assert forall v: nat :: f.Visited(v) == e.Visited(v) && f.Num(v) == e.Num(v);
    var w :| w in e.stack && e.Num(w) == low && Reach(g, node, w);
    assert w in f.stack && f.Num(w) == low;
  }

  lemma ScanStart(g: Graph, n: nat, e: Env, node: nat)
    requires Shape(n, e) && node < n && !e.Visited(node)
    ensures Scanning(g, Pushed(e, node), node, [], e.next)
  {
    PushShape(n, e, node);
    ReachSelf(g, node);
    var f := Pushed(e, node);
    assert node in f.stack && f.Num(node) == e.next;
  }

  /** What a stacked node met before `f.next` looked like before the call. */
  lemma OlderStays(n: nat, f: Env, h: Env, v: nat)
    requires Shape(n, h) && Extends(f, h) && v in h.stack && h.Num(v) < f.next
    ensures v in f.stack && f.Num(v) == h.Num(v)
  {
    assert f.Visited(v);
    assert f.Done(v) ==> h.Done(v);
  }

  lemma ScanChild(g: Graph, n: nat, f: Env, h: Env, node: nat, seen: seq<nat>, low: nat, child: nat, childLow: nat)
    requires Shape(n, f) && Shape(n, h) && Extends(f, h) && Scanning(g, f, node, seen, low)
    requires (node, child) in g && h.Visited(child) && h.Num(child) == f.next
    requires child in h.stack ==> LowReached(g, h, child, childLow)
    requires child !in h.stack ==> childLow == f.next
    requires NoEdgeBelow(g, h, f.next, f.next, childLow)
    ensures Scanning(g, h, node, seen + [child], if childLow < low then childLow else low)
  {
    var m := if childLow < low then childLow else low;
    assert f.Visited(node);
    assert h.Num(node) == f.Num(node) < f.next;
    assert LowReached(g, h, node, m) by {
      if childLow < low {
        var w :| w in h.stack && h.Num(w) == childLow && Reach(g, child, w);
        ReachEdge(g, node, child);
        ReachTransitive(g, node, child, w);
      } else {
        var w :| w in f.stack && f.Num(w) == low && Reach(g, node, w);
        assert f.Visited(w);
        assert w in h.stack && h.Num(w) == low;
      }
    }
    forall u, w | (u, w) in g && u in h.stack && w in h.stack && h.Num(node) + 1 <= h.Num(u) && h.Num(w) < h.Num(node)
      ensures m <= h.Num(w)
    {
      OlderStays(n, f, h, w);
      if h.Num(u) < f.next {
        OlderStays(n, f, h, u);
      }
    }
    forall w | w in seen + [child] && w in h.stack && h.Num(w) < h.Num(node)
      ensures m <= h.Num(w)
    {
      OlderStays(n, f, h, w);
    }
  }

  lemma ScanStacked(g: Graph, e: Env, node: nat, seen: seq<nat>, low: nat, w: nat)
    requires Scanning(g, e, node, seen, low) && (node, w) in g && e.Visited(w) && w in e.stack
    ensures Scanning(g, e, node, seen + [w], if e.Num(w) < low then e.Num(w) else low)
  {
    ReachEdge(g, node, w);
  }

  /** All successors seen: the call's answer covers everything above it. */
  lemma ScanEnd(g: Graph, n: nat, e: Env, gray: set<nat>, node: nat, seen: seq<nat>, low: nat)
    requires Ordered(e) && Shape(n, e) && Explored(g, e, gray + {node}) && Scanning(g, e, node, seen, low)
    requires forall x :: x in gray ==> e.Num(x) < e.Num(node)
    requires forall w :: (node, w) in g ==> w in seen
    ensures TopExplored(g, e, e.Num(node)) && NoEdgeBelow(g, e, e.Num(node), e.Num(node), low)
  {
    forall u, w | (u, w) in g && u in e.stack && w in e.stack && e.Num(node) <= e.Num(u) && e.Num(w) < e.Num(node)
      ensures low <= e.Num(w)
    {
      if e.Num(u) == e.Num(node) {
        var i :| 0 <= i < |e.stack| && e.stack[i] == u;
        var j :| 0 <= j < |e.stack| && e.stack[j] == node;
        assert i == j;
      }
    }
  }
}
