/** Filling tables with rows, one insert at a time: a row needs a row in every
    table its own points at. An edge of the graph is such a need. */
module Runs {
  import opened Graphs

  /** Each insert finds the rows it needs. Tables are listed in insert order,
      and may repeat. */
  ghost predicate ValidRun(g: Graph, n: nat, run: seq<nat>)
    decreases |run|
  {
    run == [] ||
    (var before, t := run[..|run| - 1], run[|run| - 1];
     ValidRun(g, n, before) && t < n && forall v: nat :: (t, v) in g ==> v in before)
  }

  ghost predicate CanReceiveARow(g: Graph, n: nat, t: nat) {
    exists run :: ValidRun(g, n, run) && t in run
  }

  /** `t` needs, through some chain, two tables that need each other. */
  ghost predicate Stuck(g: Graph, t: nat) {
    exists u, v :: u != v && Mutual(g, u, v) && Reach(g, t, u)
  }

  ghost predicate NoSelfEdge(g: Graph) {
    forall u, v :: (u, v) in g ==> u != v
  }

  /** A stuck table needs a table that is stuck itself. */
  lemma StuckNeedsStuck(g: Graph, t: nat) returns (w: nat)
    requires Stuck(g, t)
    ensures (t, w) in g && Stuck(g, w)
  {
    var u, v :| u != v && Mutual(g, u, v) && Reach(g, t, u);
    if t == u {
      w := ReachFirstEdge(g, t, v);
      assert Mutual(g, v, u) && Reach(g, w, v);
    } else {
      w := ReachFirstEdge(g, t, u);
      assert Mutual(g, u, v) && Reach(g, w, u);
    }
  }

  lemma {:induction false} StuckNeverFills(g: Graph, n: nat, run: seq<nat>, t: nat)
    requires Stuck(g, t) && ValidRun(g, n, run)
    ensures t !in run
    decreases |run|
  {
    if run != [] {
      var before, last := run[..|run| - 1], run[|run| - 1];
      assert run == before + [last];
      StuckNeverFills(g, n, before, t);
      if last == t {
        var w := StuckNeedsStuck(g, t);
        StuckNeverFills(g, n, before, w);
      }
    }
  }

  lemma StuckBackwards(g: Graph, t: nat, w: nat)
    requires (t, w) in g && Stuck(g, w)
    ensures Stuck(g, t)
  {
    var u, v :| u != v && Mutual(g, u, v) && Reach(g, w, u);
    ReachEdge(g, t, w);
    ReachTransitive(g, t, w, u);
  }

  /** Among tables still empty and not stuck, one needs none of the others:
      following needs from `t` cannot come back to the tables passed so far. */
  lemma SomeTableIsReady(g: Graph, empty: set<nat>, passed: set<nat>, t: nat) returns (r: nat)
    requires NoSelfEdge(g) && t in empty && t !in passed && passed <= empty
    requires forall u :: u in empty ==> !Stuck(g, u)
    requires forall u :: u in passed ==> Reach(g, u, t)
    ensures r in empty && forall v :: (r, v) in g ==> v !in empty
    decreases empty - passed
  {
    if w: nat :| (t, w) in g && w in empty {
      ReachEdge(g, t, w);
      if w in passed {
        assert Mutual(g, t, w);
        ReachSelf(g, t);
        assert Stuck(g, t);
      }
      forall u | u in passed + {t}
        ensures Reach(g, u, w)
      {
        if u in passed {
          ReachTransitive(g, u, t, w);
        }
      }
      r := SomeTableIsReady(g, empty, passed + {t}, w);
    } else {
      r := t;
    }
  }

  /** A run that fills every table that is not stuck, continuing `run`. */
  lemma {:induction false} FillTheRest(g: Graph, n: nat, run: seq<nat>, empty: set<nat>) returns (full: seq<nat>)
    requires Within(g, n) && NoSelfEdge(g) && ValidRun(g, n, run)
    requires forall t: nat :: t in empty <==> t < n && t !in run && !Stuck(g, t)
    ensures ValidRun(g, n, full) && forall t: nat :: t < n && !Stuck(g, t) ==> t in full
    decreases empty
  {
    if empty == {} {
      full := run;
    } else {
      var t :| t in empty;
      var r := SomeTableIsReady(g, empty, {}, t);
      forall v: nat | (r, v) in g
        ensures v in run
      {
        if Stuck(g, v) {
          StuckBackwards(g, r, v);
        }
      }
      assert (run + [r])[..|run|] == run;
      full := FillTheRest(g, n, run + [r], empty - {r});
    }
  }

  /** Exactly the stuck tables stay empty in every run. */
  lemma EmptyForeverIffStuck(g: Graph, n: nat, t: nat)
    requires Within(g, n) && NoSelfEdge(g) && t < n
    ensures CanReceiveARow(g, n, t) <==> !Stuck(g, t)
  {
    if Stuck(g, t) {
      forall run | ValidRun(g, n, run)
        ensures t !in run
      {
        StuckNeverFills(g, n, run, t);
      }
    } else {
      var full := FillTheRest(g, n, [], set t: nat | 0 <= t < n && !Stuck(g, t));
    }
  }

  /** If every table can receive a row, one run gives a row to each of them. */
  lemma OneRunFillsAll(g: Graph, n: nat) returns (full: seq<nat>)
    requires Within(g, n) && NoSelfEdge(g)
    requires forall t: nat :: t < n ==> CanReceiveARow(g, n, t)
    ensures ValidRun(g, n, full) && forall t: nat :: t < n ==> t in full
  {
    forall t: nat | t < n
      ensures !Stuck(g, t)
    {
      EmptyForeverIffStuck(g, n, t);
    }
    full := FillTheRest(g, n, [], set t: nat | 0 <= t < n && !Stuck(g, t));
  }
}
