/** Sorted groups of mutually reachable tables, the cycle checker's view of a
    finished search. */
module Groups {
  import opened Graphs
  import opened Components
  import opened Options
  import Tarjan

  // ----- the two orders `sort_unstable` is called with -----

  ghost predicate Increasing(s: seq<nat>) {
    forall i, j :: 0 <= i < j < |s| ==> s[i] < s[j]
  }

  predicate LexLe(a: seq<nat>, b: seq<nat>)
    decreases |a|
  {
    a == [] || (b != [] && (a[0] < b[0] || (a[0] == b[0] && LexLe(a[1..], b[1..]))))
  }

  function InsertNat(x: nat, s: seq<nat>): (r: seq<nat>)
    ensures forall v: nat :: v in r <==> v == x || v in s
    ensures |r| == |s| + 1
  {
    if s == [] || x <= s[0] then [x] + s
    else
      assert s == [s[0]] + s[1..];
      [s[0]] + InsertNat(x, s[1..])
  }

  function SortNats(s: seq<nat>): (r: seq<nat>)
    ensures forall v: nat :: v in r <==> v in s
    ensures |r| == |s|
  {
    if s == [] then []
    else
      assert s == [s[0]] + s[1..];
      InsertNat(s[0], SortNats(s[1..]))
  }

  lemma {:induction false} InsertNatIncreasing(x: nat, s: seq<nat>)
    requires Increasing(s) && x !in s
    ensures Increasing(InsertNat(x, s))
  {
    if s != [] && s[0] < x {
      InsertNatIncreasing(x, s[1..]);
      var r := InsertNat(x, s[1..]);
      forall i | 0 <= i < |r|
        ensures s[0] < r[i]
      {
        assert r[i] in r;
      }
    }
  }

  lemma {:induction false} SortNatsIncreasing(s: seq<nat>)
    requires forall i, j :: 0 <= i < j < |s| ==> s[i] != s[j]
    ensures Increasing(SortNats(s))
  {
    if s != [] {
      SortNatsIncreasing(s[1..]);
      InsertNatIncreasing(s[0], SortNats(s[1..]));
    }
  }

  ghost predicate Apart(c: seq<nat>, cs: seq<seq<nat>>) {
    forall k, v :: 0 <= k < |cs| && v in cs[k] ==> v !in c
  }

  function InsertGroup(c: seq<nat>, cs: seq<seq<nat>>): (r: seq<seq<nat>>)
    ensures forall d :: d in r <==> d == c || d in cs
  {
    if cs == [] || LexLe(c, cs[0]) then [c] + cs
    else
      assert cs == [cs[0]] + cs[1..];
      [cs[0]] + InsertGroup(c, cs[1..])
  }

  function SortGroups(cs: seq<seq<nat>>): (r: seq<seq<nat>>)
    ensures forall d :: d in r <==> d in cs
  {
    if cs == [] then []
    else
      assert cs == [cs[0]] + cs[1..];
      InsertGroup(cs[0], SortGroups(cs[1..]))
  }

  /** The groups that name a cycle: more than one member, members sorted. */
  function Cycles(cs: seq<seq<nat>>): seq<seq<nat>> {
    if cs == [] then []
    else if |cs[0]| > 1 then [SortNats(cs[0])] + Cycles(cs[1..])
    else Cycles(cs[1..])
  }

  /** Groups in the order of their least members, no two sharing one. */
  ghost predicate InOrder(cs: seq<seq<nat>>) {
    && (forall k :: 0 <= k < |cs| ==> cs[k] != [] && Increasing(cs[k]))
    && Disjoint(cs)
    && (forall k, l :: 0 <= k < l < |cs| ==> cs[k][0] < cs[l][0])
  }

  lemma ApartTail(cs: seq<seq<nat>>)
    requires Disjoint(cs) && cs != []
    ensures Disjoint(cs[1..]) && Apart(cs[0], cs[1..])
  {
    var t := cs[1..];
    forall k, l, v | 0 <= k < l < |t| && v in t[k]
      ensures v !in t[l]
    {
      assert t[k] == cs[k + 1] && t[l] == cs[l + 1];
    }
    forall k, v | 0 <= k < |t| && v in t[k]
      ensures v !in cs[0]
    {
      assert t[k] == cs[k + 1];
    }
  }

  lemma DisjointCons(c: seq<nat>, cs: seq<seq<nat>>)
    requires Disjoint(cs) && Apart(c, cs)
    ensures Disjoint([c] + cs)
  {
    var r := [c] + cs;
    forall k, l, v | 0 <= k < l < |r| && v in r[k]
      ensures v !in r[l]
    {
      assert r[l] == cs[l - 1];
      if k > 0 {
        assert r[k] == cs[k - 1];
      }
    }
  }

  lemma InOrderTail(cs: seq<seq<nat>>)
    requires InOrder(cs) && cs != []
    ensures InOrder(cs[1..])
  {
    ApartTail(cs);
  }

  lemma InOrderCons(c: seq<nat>, cs: seq<seq<nat>>)
    requires c != [] && Increasing(c) && InOrder(cs) && Apart(c, cs)
    requires forall d :: d in cs ==> c[0] < d[0]
    ensures InOrder([c] + cs)
  {
    DisjointCons(c, cs);
    var r := [c] + cs;
    forall k, l | 0 <= k < l < |r|
      ensures r[k][0] < r[l][0]
    {
      assert r[l] == cs[l - 1] && cs[l - 1] in cs;
    }
  }

  lemma {:induction false} InsertGroupInOrder(c: seq<nat>, cs: seq<seq<nat>>)
    requires c != [] && Increasing(c) && InOrder(cs) && Apart(c, cs)
    ensures InOrder(InsertGroup(c, cs))
  {
    if cs == [] {
    } else if LexLe(c, cs[0]) {
      assert c[0] in c && cs[0][0] in cs[0];
      InOrderCons(c, cs);
    } else {
      assert c[0] in c && cs[0][0] in cs[0];
      InOrderTail(cs);
      ApartTail(cs);
      InsertGroupInOrder(c, cs[1..]);
      var r := InsertGroup(c, cs[1..]);
      forall d | d in r
        ensures cs[0][0] < d[0]
      {
        if d != c {
          var k :| 0 <= k < |cs[1..]| && cs[1..][k] == d;
          assert cs[k + 1] == d;
        }
      }
      forall k, v | 0 <= k < |r| && v in r[k]
        ensures v !in cs[0]
      {
        assert r[k] in r;
        if r[k] != c {
          var j :| 0 <= j < |cs[1..]| && cs[1..][j] == r[k];
        }
      }
      InOrderCons(cs[0], r);
    }
  }

  lemma {:induction false} SortGroupsInOrder(cs: seq<seq<nat>>)
    requires Disjoint(cs) && forall k :: 0 <= k < |cs| ==> cs[k] != [] && Increasing(cs[k])
    ensures InOrder(SortGroups(cs))
  {
    if cs != [] {
      ApartTail(cs);
      SortGroupsInOrder(cs[1..]);
      var r := SortGroups(cs[1..]);
      forall k, v | 0 <= k < |r| && v in r[k]
        ensures v !in cs[0]
      {
        assert r[k] in r;
        var j :| 0 <= j < |cs[1..]| && cs[1..][j] == r[k];
      }
      InsertGroupInOrder(cs[0], r);
    }
  }

  // ----- what the groups mean -----

  ghost predicate Together(groups: seq<seq<nat>>, u: nat, v: nat) {
    exists k :: 0 <= k < |groups| && u in groups[k] && v in groups[k]
  }

  /** The strongly connected components of size two or more, in order. */
  ghost predicate IsCycleReport(g: Graph, n: nat, groups: seq<seq<nat>>) {
    && InOrder(groups)
    && (forall k :: 0 <= k < |groups| ==> |groups[k]| >= 2)
    && (forall k, v :: 0 <= k < |groups| && v in groups[k] ==> v < n)
    && (forall u: nat, v: nat :: u < n && v < n && u != v ==> (Together(groups, u, v) <==> Mutual(g, u, v)))
  }

  lemma {:induction false} CyclesMembers(cs: seq<seq<nat>>)
    ensures forall d :: d in Cycles(cs) ==> exists c :: c in cs && |c| > 1 && d == SortNats(c)
    ensures forall c :: c in cs && |c| > 1 ==> SortNats(c) in Cycles(cs)
  {
    if cs != [] {
      CyclesMembers(cs[1..]);
      assert cs == [cs[0]] + cs[1..];
    }
  }

  lemma {:induction false} CyclesDisjoint(cs: seq<seq<nat>>)
    requires Disjoint(cs)
    ensures Disjoint(Cycles(cs))
  {
    if cs != [] {
      ApartTail(cs);
      CyclesDisjoint(cs[1..]);
      CyclesMembers(cs[1..]);
      var r := Cycles(cs[1..]);
      forall k, v | 0 <= k < |r| && v in r[k]
        ensures v !in cs[0]
      {
        assert r[k] in r;
        var c :| c in cs[1..] && |c| > 1 && r[k] == SortNats(c);
        var j :| 0 <= j < |cs[1..]| && cs[1..][j] == c;
      }
      DisjointCons(SortNats(cs[0]), r);
    }
  }

  /** Disjoint components that list every node give the report. */
  lemma ComponentsToReport(g: Graph, n: nat, cs: seq<seq<nat>>)
    requires forall k :: 0 <= k < |cs| ==> IsComponent(g, n, cs[k])
    requires Disjoint(cs) && forall v: nat :: v < n ==> Listed(cs, v)
    ensures IsCycleReport(g, n, SortGroups(Cycles(cs)))
  {
    GroupsAreSorted(g, n, cs);
    forall u: nat, v: nat | u < n && v < n && u != v
      ensures Together(SortGroups(Cycles(cs)), u, v) <==> Mutual(g, u, v)
    {
      TogetherIsMutual(g, n, cs, u, v);
    }
  }

  lemma CycleShape(g: Graph, n: nat, cs: seq<seq<nat>>, d: seq<nat>)
    requires forall k :: 0 <= k < |cs| ==> IsComponent(g, n, cs[k])
    requires d in Cycles(cs)
    ensures Increasing(d) && |d| >= 2 && forall v :: v in d ==> v < n
  {
    CyclesMembers(cs);
    var c :| c in cs && |c| > 1 && d == SortNats(c);
    var k :| 0 <= k < |cs| && cs[k] == c;
    SortNatsIncreasing(c);
  }

  lemma GroupsAreSorted(g: Graph, n: nat, cs: seq<seq<nat>>)
    requires forall k :: 0 <= k < |cs| ==> IsComponent(g, n, cs[k])
    requires Disjoint(cs)
    ensures var groups := SortGroups(Cycles(cs));
            InOrder(groups) && forall k :: 0 <= k < |groups| ==> |groups[k]| >= 2 && forall v :: v in groups[k] ==> v < n
  {
    var ds, groups := Cycles(cs), SortGroups(Cycles(cs));
    CyclesDisjoint(cs);
    forall d | d in ds
      ensures Increasing(d) && |d| >= 2 && forall v :: v in d ==> v < n
    {
      CycleShape(g, n, cs, d);
    }
    SortGroupsInOrder(ds);
    assert forall k :: 0 <= k < |groups| ==> groups[k] in ds;
  }

  lemma TogetherIsMutual(g: Graph, n: nat, cs: seq<seq<nat>>, u: nat, v: nat)
    requires forall k :: 0 <= k < |cs| ==> IsComponent(g, n, cs[k])
    requires Listed(cs, u) && u < n && v < n && u != v
    ensures Together(SortGroups(Cycles(cs)), u, v) <==> Mutual(g, u, v)
  {
    var groups := SortGroups(Cycles(cs));
    CyclesMembers(cs);
    if Together(groups, u, v) {
      var k :| 0 <= k < |groups| && u in groups[k] && v in groups[k];
      assert groups[k] in groups;
      var c :| c in cs && |c| > 1 && groups[k] == SortNats(c);
      var l :| 0 <= l < |cs| && cs[l] == c;
    }
    if Mutual(g, u, v) {
      var k :| 0 <= k < |cs| && u in cs[k];
      var c := cs[k];
      assert IsComponent(g, n, c) && v in c;
      var i :| 0 <= i < |c| && c[i] == u;
      var j :| 0 <= j < |c| && c[j] == v;
      assert SortNats(c) in groups;
    }
  }

  lemma HeadIn(s: seq<nat>)
    ensures s != [] ==> s[0] in s
  {
  }

  lemma {:induction false} IncreasingUnique(a: seq<nat>, b: seq<nat>)
    requires Increasing(a) && Increasing(b) && forall v: nat :: v in a <==> v in b
    ensures a == b
    decreases |a|
  {
    HeadIn(a);
    HeadIn(b);
    if a != [] {
      assert a == [a[0]] + a[1..] && b == [b[0]] + b[1..];
      forall v: nat
        ensures v in a[1..] <==> v in b[1..]
      {
        assert v in a[1..] ==> v in a && v != a[0];
        assert v in b[1..] ==> v in b && v != b[0];
      }
      IncreasingUnique(a[1..], b[1..]);
    }
  }

  function Heads(cs: seq<seq<nat>>): seq<nat>
    requires forall k :: 0 <= k < |cs| ==> cs[k] != []
  {
    seq(|cs|, k requires 0 <= k < |cs| => cs[k][0])
  }

  /** Two reports on one graph have a group in common wherever either has one. */
  lemma GroupIsShared(g: Graph, n: nat, a: seq<seq<nat>>, b: seq<seq<nat>>, k: nat) returns (l: nat)
    requires IsCycleReport(g, n, a) && IsCycleReport(g, n, b) && k < |a|
    ensures l < |b| && b[l] == a[k]
  {
    var u, w := a[k][0], a[k][1];
    assert u in a[k] && w in a[k] && u != w;
    assert Together(a, u, w);
    assert Together(b, u, w);
    l :| 0 <= l < |b| && u in b[l] && w in b[l];
    forall v: nat
      ensures v in a[k] <==> v in b[l]
    {
      if v in a[k] {
        SharedMember(g, n, a, b, k, l, u, v);
      }
      if v in b[l] {
        SharedMember(g, n, b, a, l, k, u, v);
      }
    }
    IncreasingUnique(a[k], b[l]);
  }

  lemma SharedMember(g: Graph, n: nat, a: seq<seq<nat>>, b: seq<seq<nat>>, k: nat, l: nat, u: nat, v: nat)
    requires IsCycleReport(g, n, a) && IsCycleReport(g, n, b) && k < |a| && l < |b|
    requires u in a[k] && u in b[l] && v in a[k]
    ensures v in b[l]
  {
    if v != u {
      assert Together(a, u, v);
      assert Together(b, u, v);
      var m :| 0 <= m < |b| && u in b[m] && v in b[m];
      if m < l {
        assert false;
      } else if l < m {
        assert false;
      }
    }
  }

  /** A graph has one report: the list is canonical, order included. */
  lemma ReportUnique(g: Graph, n: nat, a: seq<seq<nat>>, b: seq<seq<nat>>)
    requires IsCycleReport(g, n, a) && IsCycleReport(g, n, b)
    ensures a == b
  {
    forall v: nat
      ensures v in Heads(a) <==> v in Heads(b)
    {
      if v in Heads(a) {
        var k :| 0 <= k < |a| && a[k][0] == v;
        var l := GroupIsShared(g, n, a, b, k);
        assert Heads(b)[l] == v;
      }
      if v in Heads(b) {
        var k :| 0 <= k < |b| && b[k][0] == v;
        var l := GroupIsShared(g, n, b, a, k);
        assert Heads(a)[l] == v;
      }
    }
    IncreasingUnique(Heads(a), Heads(b));
    assert |a| == |b|;
    forall k | 0 <= k < |a|
      ensures a[k] == b[k]
    {
      assert Heads(a)[k] == a[k][0] && Heads(b)[k] == b[k][0];
      var l := GroupIsShared(g, n, a, b, k);
      assert Heads(b)[l] == Heads(b)[k];
    }
  }

  ghost function EdgeSet(edges: seq<(nat, nat)>): Graph {
    set e | e in edges
  }

  method Adjacency(count: nat, edges: seq<(nat, nat)>) returns (adjacency: seq<seq<nat>>)
    requires forall e :: e in edges ==> e.0 < count && e.1 < count
    ensures |adjacency| == count && Tarjan.Lists(adjacency, EdgeSet(edges))
  {
    adjacency := seq(count, _ => []);
    for i := 0 to |edges|
      invariant |adjacency| == count
      invariant Tarjan.Lists(adjacency, EdgeSet(edges[..i]))
    {
      assert edges[..i + 1] == edges[..i] + [edges[i]];
      assert edges[i] in edges;
      var (from, to) := edges[i];
      adjacency := adjacency[from := adjacency[from] + [to]];
    }
    assert edges[..|edges|] == edges;
  }

  /** With every node visited and nothing left to come back to, every node is
      in a component. */
  lemma AllListed(search: Tarjan.Search, count: nat)
    requires search.Valid({}) && forall v: nat :: v < count ==> search.Env().Visited(v)
    ensures forall v: nat :: v < count ==> Listed(search.components, v)
  {
    forall v: nat | v < count
      ensures Listed(search.components, v)
    {
      assert HasAnchor(search.graph, search.Env(), {}, v) || v !in search.stack;
      assert search.Env().Done(v);
    }
  }

  method StronglyConnected(count: nat, edges: seq<(nat, nat)>) returns (groups: seq<seq<nat>>)
    requires forall e :: e in edges ==> e.0 < count && e.1 < count
    ensures IsCycleReport(EdgeSet(edges), count, groups)
  {
    var adjacency := Adjacency(count, edges);
    ghost var g := EdgeSet(edges);
    var search := new Tarjan.Search(adjacency, g);
    for node := 0 to count
      invariant search.Valid({}) && search.adjacency == adjacency && search.graph == g
      invariant forall v :: 0 <= v < node ==> search.Env().Visited(v)
    {
      if search.index[node].None? {
        ghost var e := search.Env();
        search.Visit(node, {});
        assert forall v: nat :: e.Visited(v) ==> search.Env().index[v] == e.index[v];
      }
    }
    AllListed(search, count);
    ComponentsToReport(g, count, search.components);
    groups := SortGroups(Cycles(search.components));
  }
}
