/** The depth-first search itself, as an object that updates its fields. */
module Tarjan {
  import opened Graphs
  import opened Components
  import opened Options

  /** `adjacency` lists the edges of `g`, node by node. */
  ghost predicate Lists(adjacency: seq<seq<nat>>, g: Graph) {
    forall u: nat, v: nat :: (u, v) in g <==> u < |adjacency| && v in adjacency[u]
  }

  function Unvisited(e: Env): set<nat> {
    set v: nat | 0 <= v < |e.index| && e.index[v].None?
  }

  lemma UnvisitedShrinks(e: Env, f: Env, node: nat)
    requires Extends(e, f) && !e.Visited(node) && f.Visited(node)
    ensures Unvisited(f) < Unvisited(e)
  {
    UnvisitedShrinksOrStays(e, f);
    assert node in Unvisited(e) && node !in Unvisited(f);
  }

  lemma UnvisitedShrinksOrStays(e: Env, f: Env)
    requires Extends(e, f)
    ensures Unvisited(f) <= Unvisited(e)
  {
    forall v | v in Unvisited(f)
      ensures v in Unvisited(e)
    {
      assert !f.Visited(v);
    }
  }

  class Search {
    const adjacency: seq<seq<nat>>
    ghost const graph: Graph
    var index: seq<Option<nat>>
    var low: seq<nat>
    var onStack: seq<bool>
    var stack: seq<nat>
    var next: nat
    var components: seq<seq<nat>>

    ghost function Env(): Env
      reads this
    {
      Components.Env.Env(index, low, onStack, stack, next, components)
    }

    ghost predicate Valid(gray: set<nat>)
      reads this
    {
      && Lists(adjacency, graph)
      && Within(graph, |adjacency|)
      && Consistent(graph, |adjacency|, Env(), gray)
    }

    constructor (adjacency: seq<seq<nat>>, ghost g: Graph)
      requires Lists(adjacency, g) && Within(g, |adjacency|)
      ensures Valid({}) && this.adjacency == adjacency && graph == g
      ensures stack == [] && forall v :: 0 <= v < |adjacency| ==> index[v].None?
    {
      this.adjacency := adjacency;
      graph := g;
      index := seq(|adjacency|, _ => None);
      low := seq(|adjacency|, _ => 0);
      onStack := seq(|adjacency|, _ => false);
      stack := [];
      next := 0;
      components := [];
    }

    /** Closes off the nodes from position `k` of the stack up. */
    method PopComponent(node: nat, ghost k: nat, ghost gray: set<nat>)
      requires Valid(gray + {node}) && k < |stack| && stack[k] == node
      requires forall x :: x in gray ==> Env().Num(x) < Env().Num(node)
      requires TopExplored(graph, Env(), Env().Num(node))
      requires NoEdgeBelow(graph, Env(), Env().Num(node), Env().Num(node), Env().Num(node))
      modifies this`stack, this`onStack, this`components
      ensures Valid(gray) && stack == old(stack)[..k]
      ensures Cut(old(Env()), Env(), old(Env().Num(node)))
    {
      hide Linked, Anchored, HasAnchor, Explored, Sealed, Grouped, Reach, TopExplored, NoEdgeBelow;
      ghost var e := Env();
      StackDistinct(e);
      var component := [];
      var open := true;
      while open && |stack| > 0
        invariant k <= |stack| <= |e.stack| && stack == e.stack[..|stack|]
        invariant open <==> k < |stack|
        invariant IsPoppedTo(e, |stack|, component)
        invariant |onStack| == |e.onStack| && components == e.components
        invariant forall v :: 0 <= v < |onStack| ==> (onStack[v] <==> v in stack)
        decreases open, |stack|
      {
        var top := |stack| - 1;
        var member := stack[top];
        assert member in e.stack;
        stack := stack[..top];
        onStack := onStack[member := false];
        component := component + [member];
        open := member != node;
      }
      components := components + [component];
      PoppedIsTop(e, k, component);
      assert onStack == Popped(e, k, component).onStack;
      assert Env() == Popped(e, k, component);
      PopConsistent(graph, |adjacency|, e, gray, k, component);
    }

    method Visit(node: nat, ghost gray: set<nat>)
      requires Valid(gray) && node < |adjacency| && index[node].None?
      requires forall x :: x in gray ==> Reach(graph, x, node)
      modifies this`index, this`low, this`onStack, this`stack, this`next, this`components
      ensures Valid(gray) && Extends(old(Env()), Env()) && LowKept(old(Env()), Env(), node)
      ensures index[node] == Some(old(next)) && low[node] <= old(next)
      ensures node in stack ==> LowReached(graph, Env(), node, low[node])
      ensures node !in stack ==> low[node] == old(next)
      ensures NoEdgeBelow(graph, Env(), old(next), old(next), low[node])
      decreases Unvisited(Env()), 0
    {
      hide Ordered, Linked, Anchored, HasAnchor, Explored, Sealed, Grouped, LowReached, Reach;
      ghost var e := Env();
      Enter(node, gray);
      UnvisitedShrinks(e, Env(), node);
      ghost var f := Env();
      LookAtAll(node, gray);
      ExtendsTransitive(e, f, Env(), node);
      Settle(node, |e.stack|, gray);
    }

    /** The start of a call: number the node and put it on the stack. */
    method Enter(node: nat, ghost gray: set<nat>)
      requires Valid(gray) && node < |adjacency| && index[node].None?
      requires forall x :: x in gray ==> Reach(graph, x, node)
      modifies this`index, this`low, this`onStack, this`stack, this`next
      ensures Valid(gray + {node}) && Env() == Pushed(old(Env()), node)
      ensures Extends(old(Env()), Env()) && LowKept(old(Env()), Env(), node)
      ensures Scanning(graph, Env(), node, [], low[node]) && Env().Num(node) == old(next)
      ensures forall x :: x in gray ==> Env().Visited(x) && Env().Num(x) < old(next)
    {
      hide Ordered, Linked, HasAnchor, Explored, Sealed, Grouped, NoEdgeBelow, LowReached, Reach;
      PushShape(|adjacency|, Env(), node);
      PushConsistent(graph, |adjacency|, Env(), gray, node);
      ScanStart(graph, |adjacency|, Env(), node);
      index := index[node := Some(next)];
      low := low[node := next];
      next := next + 1;
      stack := stack + [node];
      onStack := onStack[node := true];
    }

    method LookAtAll(node: nat, ghost gray: set<nat>)
      requires Valid(gray + {node}) && node < |adjacency|
      requires Scanning(graph, Env(), node, [], low[node])
      requires forall x :: x in gray ==> Reach(graph, x, node)
      modifies this`index, this`low, this`onStack, this`stack, this`next, this`components
      ensures Valid(gray + {node}) && Extends(old(Env()), Env()) && LowKept(old(Env()), Env(), node)
      ensures Scanning(graph, Env(), node, adjacency[node], low[node])
      decreases Unvisited(Env()), 3
    {
      hide Ordered, Linked, Anchored, HasAnchor, Explored, Sealed, Grouped, NoEdgeBelow, LowReached, Reach;
      ghost var e := Env();
      for i := 0 to |adjacency[node]|
        invariant Valid(gray + {node})
        invariant Extends(e, Env()) && LowKept(e, Env(), node)
        invariant Scanning(graph, Env(), node, adjacency[node][..i], low[node])
      {
        ghost var f := Env();
        UnvisitedShrinksOrStays(e, f);
        Look(node, i, gray);
        ExtendsTransitive(e, f, Env(), node);
      }
      assert adjacency[node][..|adjacency[node]|] == adjacency[node];
    }

    /** The end of a call: close the group it started, or leave the node to
        the call whose node it can reach further down. */
    method Settle(node: nat, ghost k: nat, ghost gray: set<nat>)
      requires Valid(gray + {node}) && k < |stack| && stack[k] == node
      requires Scanning(graph, Env(), node, adjacency[node], low[node])
      requires forall x :: x in gray ==> Env().Num(x) < Env().Num(node)
      modifies this`stack, this`onStack, this`components
      ensures Valid(gray) && old(stack[..k]) <= stack
      ensures node in stack ==> stack == old(stack) && LowReached(graph, Env(), node, low[node])
      ensures node !in stack ==> stack == old(stack[..k]) && low[node] == Env().Num(node)
      ensures forall v: nat :: old(Env().Done(v)) ==> Env().Done(v)
      ensures NoEdgeBelow(graph, Env(), Env().Num(node), Env().Num(node), low[node])
    {
      hide Ordered, Linked, Anchored, HasAnchor, Explored, Sealed, Grouped, LowReached, Reach;
      ScanEnd(graph, |adjacency|, Env(), gray, node, adjacency[node], low[node]);
      if Some(low[node]) == index[node] {
        PopComponent(node, k, gray);
      } else {
        BlackenConsistent(graph, |adjacency|, Env(), gray, node, low[node]);
      }
    }

    /** One turn of the loop over the successors of `node`. */
    method Look(node: nat, i: nat, ghost gray: set<nat>)
      requires Valid(gray + {node}) && node < |adjacency| && i < |adjacency[node]|
      requires Scanning(graph, Env(), node, adjacency[node][..i], low[node])
      requires forall x :: x in gray ==> Reach(graph, x, node)
      modifies this`index, this`low, this`onStack, this`stack, this`next, this`components
      ensures Valid(gray + {node}) && Extends(old(Env()), Env()) && LowKept(old(Env()), Env(), node)
      ensures Scanning(graph, Env(), node, adjacency[node][..i + 1], low[node])
      decreases Unvisited(Env()), 2
    {
      hide Ordered, Linked, Anchored, HasAnchor, Explored, Sealed, Grouped, NoEdgeBelow, LowReached, Reach;
      ghost var seen := adjacency[node][..i];
      var neighbour := adjacency[node][i];
      assert adjacency[node][..i + 1] == seen + [neighbour];
      assert (node, neighbour) in graph;
      match index[neighbour] {
        case None =>
          Descend(node, neighbour, gray, seen);
        case Some(at) =>
          if onStack[neighbour] {
            LowerTo(node, neighbour, at, gray, seen);
          }
      }
    }

    /** A successor not met before: visit it, and take over how low it got. */
    method Descend(node: nat, neighbour: nat, ghost gray: set<nat>, ghost seen: seq<nat>)
      requires Valid(gray + {node}) && node < |adjacency| && (node, neighbour) in graph
      requires index[neighbour].None? && Scanning(graph, Env(), node, seen, low[node])
      requires forall x :: x in gray ==> Reach(graph, x, node)
      modifies this`index, this`low, this`onStack, this`stack, this`next, this`components
      ensures Valid(gray + {node}) && Extends(old(Env()), Env()) && LowKept(old(Env()), Env(), node)
      ensures Scanning(graph, Env(), node, seen + [neighbour], low[node])
      decreases Unvisited(Env()), 1
    {
      hide Ordered, Linked, Anchored, HasAnchor, Explored, Sealed, Grouped, NoEdgeBelow, LowReached, Reach;
      ghost var f := Env();
      forall x | x in gray + {node}
        ensures Reach(graph, x, neighbour)
      {
        ReachEdge(graph, node, neighbour);
        if x != node {
          ReachTransitive(graph, x, node, neighbour);
        }
      }
      assert Visited(node);
      Visit(neighbour, gray + {node});
      ghost var h := Env();
      ScanChild(graph, |adjacency|, f, h, node, seen, f.low[node], neighbour, h.low[neighbour]);
      low := low[node := if low[neighbour] < low[node] then low[neighbour] else low[node]];
      LowIsFree(graph, |adjacency|, h, Env(), gray + {node});
      LowIsFreeInScan(graph, h, Env(), node, seen + [neighbour], low[node]);
    }

    /** A successor still on the stack: `node` can get as low as it was met. */
    method LowerTo(node: nat, neighbour: nat, at: nat, ghost gray: set<nat>, ghost seen: seq<nat>)
      requires Valid(gray + {node}) && node < |adjacency| && (node, neighbour) in graph
      requires index[neighbour] == Some(at) && onStack[neighbour]
      requires Scanning(graph, Env(), node, seen, low[node])
      modifies this`low
      ensures Valid(gray + {node}) && LowApart(old(Env()), Env())
      ensures LowKept(old(Env()), Env(), node)
      ensures Scanning(graph, Env(), node, seen + [neighbour], low[node])
    {
      hide Ordered, Linked, Anchored, HasAnchor, Explored, Sealed, Grouped, NoEdgeBelow, LowReached, Reach;
      ghost var f := Env();
      ScanStacked(graph, f, node, seen, low[node], neighbour);
      low := low[node := if at < low[node] then at else low[node]];
      LowIsFree(graph, |adjacency|, f, Env(), gray + {node});
      LowIsFreeInScan(graph, f, Env(), node, seen + [neighbour], low[node]);
    }

    ghost predicate Visited(v: nat)
      reads this
    {
      Env().Visited(v)
    }
  }
}
