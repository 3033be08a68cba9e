/** The circular-dependency check: which groups of tables depend on each other,
    and whether a NOT NULL cycle keeps some of them empty for good. */
module Cycles {
  import opened Options
  import opened Domain
  import opened Diagnostics
  import opened Graphs
  import opened Groups
  import opened Runs

  /** Where each id sits. A repeated id keeps its last position. */
  function Index(entities: seq<Entity>): (index: map<string, nat>)
    ensures forall id :: id in index ==> index[id] < |entities| && entities[index[id]].id == id
    ensures forall i :: 0 <= i < |entities| ==> entities[i].id in index
  {
    if entities == [] then map[]
    else
      var last := |entities| - 1;
      assert entities == entities[..last] + [entities[last]];
      Index(entities[..last])[entities[last].id := last]
  }

  /** Column `a` of table `from` references another table, `to`. */
  predicate Refers(index: map<string, nat>, a: Attribute, from: nat, to: nat) {
    && a.foreignKey.Some?
    && a.foreignKey.value.entityId in index
    && index[a.foreignKey.value.entityId] == to
    && to != from
  }

  predicate TableRefers(index: map<string, nat>, attributes: seq<Attribute>, from: nat, to: nat, required: bool) {
    exists k :: 0 <= k < |attributes| && Refers(index, attributes[k], from, to)
                && (required ==> !attributes[k].nullable)
  }

  /** Which tables reference which others; with `required`, through a column
      that is NOT NULL. */
  ghost function References(entities: seq<Entity>, required: bool): Graph {
    set from: nat, to: nat |
      0 <= from < |entities| && 0 <= to < |entities|
      && TableRefers(Index(entities), entities[from].attributes, from, to, required) :: (from, to)
  }

  lemma ReferencesShape(entities: seq<Entity>, required: bool)
    ensures Within(References(entities, required), |entities|)
    ensures NoSelfEdge(References(entities, required))
    ensures References(entities, true) <= References(entities, false)
  {
  }

  /** One group's diagnostic: an error if a NOT NULL cycle touches it. */
  function GroupDiagnostic(entities: seq<Entity>, blocked: seq<seq<nat>>, component: seq<nat>): Diagnostic
    requires component != [] && forall v :: v in component ==> v < |entities|
  {
    assert component[0] in component;
    var isBlocked := exists k :: 0 <= k < |blocked| && exists i :: 0 <= i < |blocked[k]| && blocked[k][i] in component;
    Diagnostic(
      CircularDependency,
      if isBlocked then Error else Warning,
      seq(|component|, i requires 0 <= i < |component| => assert component[i] in component; entities[component[i]].id),
      Some(entities[component[0]].position))
  }

  predicate GroupsWithin(groups: seq<seq<nat>>, n: nat) {
    forall k :: 0 <= k < |groups| ==> groups[k] != [] && forall v :: v in groups[k] ==> v < n
  }

  function GroupDiagnostics(entities: seq<Entity>, blocked: seq<seq<nat>>, groups: seq<seq<nat>>): (r: seq<Diagnostic>)
    requires GroupsWithin(groups, |entities|)
    ensures |r| == |groups|
    ensures forall k :: 0 <= k < |r| ==> r[k] == GroupDiagnostic(entities, blocked, groups[k])
  {
    seq(|groups|, k requires 0 <= k < |groups| => GroupDiagnostic(entities, blocked, groups[k]))
  }

  /** `found` is what the check reports: one diagnostic for each strongly
      connected group of the reference graph, in order. */
  ghost predicate IsCycleFinding(entities: seq<Entity>, all: seq<seq<nat>>, blocked: seq<seq<nat>>, found: seq<Diagnostic>) {
    && IsCycleReport(References(entities, false), |entities|, all)
    && IsCycleReport(References(entities, true), |entities|, blocked)
    && GroupsWithin(all, |entities|)
    && found == GroupDiagnostics(entities, blocked, all)
  }

  ghost predicate CycleFinding(entities: seq<Entity>, found: seq<Diagnostic>) {
    exists all, blocked :: IsCycleFinding(entities, all, blocked, found)
  }

  /** The edges of both graphs, collected table by table. */
  method CollectEdges(entities: seq<Entity>) returns (all: seq<(nat, nat)>, required: seq<(nat, nat)>)
    ensures EdgeSet(all) == References(entities, false)
    ensures EdgeSet(required) == References(entities, true)
  {
    var index := Index(entities);
    all, required := [], [];
    for from := 0 to |entities|
      invariant IsEdgesBefore(entities, from, all, false) && IsEdgesBefore(entities, from, required, true)
    {
      all, required := CollectTableEdges(index, entities[from].attributes, from, all, required);
    }
    EdgesAreReferences(entities, all, false);
    EdgesAreReferences(entities, required, true);
  }

  lemma EdgesAreReferences(entities: seq<Entity>, edges: seq<(nat, nat)>, required: bool)
    requires IsEdgesBefore(entities, |entities|, edges, required)
    ensures EdgeSet(edges) == References(entities, required)
  {
    forall e
      ensures e in EdgeSet(edges) <==> e in References(entities, required)
    {
    }
  }

  /** One table's edges, column by column. */
  method CollectTableEdges(index: map<string, nat>, attributes: seq<Attribute>, from: nat,
                           all0: seq<(nat, nat)>, required0: seq<(nat, nat)>)
    returns (all: seq<(nat, nat)>, required: seq<(nat, nat)>)
    ensures IsEdgesOfPrefix(index, attributes, from, all0, all, false)
    ensures IsEdgesOfPrefix(index, attributes, from, required0, required, true)
  {
    all, required := all0, required0;
    for k := 0 to |attributes|
      invariant IsEdgesOfPrefix(index, attributes[..k], from, all0, all, false)
      invariant IsEdgesOfPrefix(index, attributes[..k], from, required0, required, true)
    {
      var a := attributes[k];
      assert attributes[..k + 1] == attributes[..k] + [a];
      PrefixStep(index, attributes[..k], a, from);
      if a.foreignKey.Some? && a.foreignKey.value.entityId in index {
        var to := index[a.foreignKey.value.entityId];
        if to != from {
          all := all + [(from, to)];
          if !a.nullable {
            required := required + [(from, to)];
          }
        }
      }
    }
    assert attributes[..|attributes|] == attributes;
  }

  ghost predicate IsEdgesBefore(entities: seq<Entity>, from: nat, edges: seq<(nat, nat)>, required: bool) {
    forall e :: e in edges <==>
      e.0 < from && e.0 < |entities| && TableRefers(Index(entities), entities[e.0].attributes, e.0, e.1, required)
  }

  ghost predicate IsEdgesOfPrefix(index: map<string, nat>, attributes: seq<Attribute>, from: nat,
                                  before: seq<(nat, nat)>, edges: seq<(nat, nat)>, required: bool) {
    forall e :: e in edges <==> e in before || (e.0 == from && TableRefers(index, attributes, from, e.1, required))
  }

  lemma PrefixStep(index: map<string, nat>, attributes: seq<Attribute>, a: Attribute, from: nat)
    ensures forall to: nat, required: bool ::
      TableRefers(index, attributes + [a], from, to, required)
      <==> TableRefers(index, attributes, from, to, required) || (Refers(index, a, from, to) && (required ==> !a.nullable))
  {
    var more := attributes + [a];
    forall to: nat, required: bool
      ensures TableRefers(index, more, from, to, required)
        <==> TableRefers(index, attributes, from, to, required) || (Refers(index, a, from, to) && (required ==> !a.nullable))
    {
      assert more[|attributes|] == a;
      assert forall k :: 0 <= k < |attributes| ==> more[k] == attributes[k];
    }
  }

  method CheckCycles(schema: Schema, report: Report) returns (ghost found: seq<Diagnostic>)
    modifies report
    ensures CycleFinding(schema.entities, found)
    ensures report.diagnostics == old(report.diagnostics) + found
  {
    var entities := schema.entities;
    var groups, blocked := GroupsOf(entities);
    found := GroupDiagnostics(entities, blocked, groups);
    for k := 0 to |groups|
      invariant report.diagnostics == old(report.diagnostics) + found[..k]
    {
      report.Push(GroupDiagnostic(entities, blocked, groups[k]));
    }
  }

  method GroupsOf(entities: seq<Entity>) returns (groups: seq<seq<nat>>, blocked: seq<seq<nat>>)
    ensures GroupsWithin(groups, |entities|)
    ensures IsCycleFinding(entities, groups, blocked, GroupDiagnostics(entities, blocked, groups))
  {
    var all, required := CollectEdges(entities);
    ReferencesShape(entities, false);
    ReferencesShape(entities, true);
    assert forall e :: e in all ==> e in EdgeSet(all);
    assert forall e :: e in required ==> e in EdgeSet(required);
    blocked := StronglyConnected(|entities|, required);
    groups := StronglyConnected(|entities|, all);
  }

  /** What the check finds is fixed by the tables. */
  lemma CycleFindingUnique(entities: seq<Entity>, a: seq<Diagnostic>, b: seq<Diagnostic>)
    requires CycleFinding(entities, a) && CycleFinding(entities, b)
    ensures a == b
  {
    var all, blocked :| IsCycleFinding(entities, all, blocked, a);
    var all', blocked' :| IsCycleFinding(entities, all', blocked', b);
    ReportUnique(References(entities, false), |entities|, all, all');
    ReportUnique(References(entities, true), |entities|, blocked, blocked');
  }

  // ----- what the severity claims -----

  /** A table that needs a NOT NULL cycle exists just when some two tables are
      on one. */
  ghost predicate HasRequiredCycle(entities: seq<Entity>) {
    exists u, v :: u != v && Mutual(References(entities, true), u, v)
  }

  lemma ErrorIffRequiredCycle(entities: seq<Entity>, found: seq<Diagnostic>)
    requires CycleFinding(entities, found)
    ensures !IsValid(found) <==> HasRequiredCycle(entities)
  {
    var all, blocked :| IsCycleFinding(entities, all, blocked, found);
    if !IsValid(found) {
      ErrorShowsCycle(entities, all, blocked, found);
    }
    if HasRequiredCycle(entities) {
      CycleShowsError(entities, all, blocked, found);
    }
  }

  /** Group by group: the diagnostic is an error when one of its own tables is
      on a NOT NULL cycle. */
  lemma GroupErrorIffBlocked(entities: seq<Entity>, all: seq<seq<nat>>, blocked: seq<seq<nat>>, found: seq<Diagnostic>, d: nat)
    requires IsCycleFinding(entities, all, blocked, found) && d < |all|
    ensures found[d].IsError() <==> exists u, v :: u in all[d] && u != v && Mutual(References(entities, true), u, v)
  {
    var r := References(entities, true);
    ReferencesShape(entities, true);
    if found[d].IsError() {
      var k :| 0 <= k < |blocked| && exists i :: 0 <= i < |blocked[k]| && blocked[k][i] in all[d];
      var i :| 0 <= i < |blocked[k]| && blocked[k][i] in all[d];
      var u := blocked[k][i];
      var v := if i == 0 then blocked[k][1] else blocked[k][0];
      assert u in blocked[k] && v in blocked[k] && u != v;
      assert Together(blocked, u, v);
    }
    if u, v :| u in all[d] && u != v && Mutual(r, u, v) {
      MutualInRange(r, |entities|, u, v);
      MutualInRange(r, |entities|, v, u);
      assert Together(blocked, u, v);
      var k :| 0 <= k < |blocked| && u in blocked[k] && v in blocked[k];
      var i :| 0 <= i < |blocked[k]| && blocked[k][i] == u;
      assert blocked[k][i] in all[d];
    }
  }

  lemma ErrorShowsCycle(entities: seq<Entity>, all: seq<seq<nat>>, blocked: seq<seq<nat>>, found: seq<Diagnostic>)
    requires IsCycleFinding(entities, all, blocked, found) && !IsValid(found)
    ensures HasRequiredCycle(entities)
  {
    assert blocked != [];
    var u, v := blocked[0][0], blocked[0][1];
    assert u in blocked[0] && v in blocked[0];
    assert Together(blocked, u, v);
    assert Mutual(References(entities, true), u, v);
  }

  lemma CycleShowsError(entities: seq<Entity>, all: seq<seq<nat>>, blocked: seq<seq<nat>>, found: seq<Diagnostic>)
    requires IsCycleFinding(entities, all, blocked, found) && HasRequiredCycle(entities)
    ensures !IsValid(found)
  {
    var g, r := References(entities, false), References(entities, true);
    ReferencesShape(entities, false);
    ReferencesShape(entities, true);
    var u, v :| u != v && Mutual(r, u, v);
    MutualInRange(r, |entities|, u, v);
    MutualInRange(r, |entities|, v, u);
    ReachMonotone(r, g, u, v);
    ReachMonotone(r, g, v, u);
    assert Together(blocked, u, v);
    assert Together(all, u, v);
    SharedGroupIsError(entities, all, blocked, found, u, v);
  }

  lemma SharedGroupIsError(entities: seq<Entity>, all: seq<seq<nat>>, blocked: seq<seq<nat>>, found: seq<Diagnostic>, u: nat, v: nat)
    requires GroupsWithin(all, |entities|) && found == GroupDiagnostics(entities, blocked, all)
    requires Together(blocked, u, v) && Together(all, u, v)
    ensures !IsValid(found)
  {
    var k :| 0 <= k < |blocked| && u in blocked[k] && v in blocked[k];
    var i :| 0 <= i < |blocked[k]| && blocked[k][i] == u;
    var d :| 0 <= d < |all| && u in all[d] && v in all[d];
    assert blocked[k][i] in all[d];
    assert found[d].IsError();
  }

  lemma MutualInRange(g: Graph, n: nat, u: nat, v: nat)
    requires Within(g, n) && u != v && Mutual(g, u, v)
    ensures u < n
  {
    var w := ReachFirstEdge(g, u, v);
  }

  /** Table `from` cannot hold a row unless table `to` does: a NOT NULL column
      of one references the other by its id. */
  ghost predicate Needs(entities: seq<Entity>, from: nat, to: nat) {
    && from < |entities| && to < |entities| && from != to
    && exists k :: 0 <= k < |entities[from].attributes| && NeedsThrough(entities[from].attributes[k], entities[to].id)
  }

  predicate NeedsThrough(a: Attribute, entityId: string) {
    a.foreignKey.Some? && a.foreignKey.value.entityId == entityId && !a.nullable
  }

  lemma RequiredMeansNeeds(entities: seq<Entity>, from: nat, to: nat)
    requires UniqueEntityIds(entities)
    ensures (from, to) in References(entities, true) <==> Needs(entities, from, to)
  {
    if from < |entities| && to < |entities| {
      var index, attributes := Index(entities), entities[from].attributes;
      assert index[entities[to].id] == to;
      forall k | 0 <= k < |attributes|
        ensures Refers(index, attributes[k], from, to) && !attributes[k].nullable
                <==> NeedsThrough(attributes[k], entities[to].id) && from != to
      {
      }
    }
  }

  /** Insert by insert, each row finding the rows its NOT NULL columns need. */
  ghost predicate IsInsertRun(entities: seq<Entity>, run: seq<nat>)
    decreases |run|
  {
    run == [] ||
    (var before, t := run[..|run| - 1], run[|run| - 1];
     IsInsertRun(entities, before) && t < |entities| && forall to: nat :: Needs(entities, t, to) ==> to in before)
  }

  lemma {:induction false} InsertRunIsValidRun(entities: seq<Entity>, run: seq<nat>)
    requires UniqueEntityIds(entities)
    ensures IsInsertRun(entities, run) <==> ValidRun(References(entities, true), |entities|, run)
    decreases |run|
  {
    if run != [] {
      InsertRunIsValidRun(entities, run[..|run| - 1]);
      var t := run[|run| - 1];
      forall to: nat
        ensures (t, to) in References(entities, true) <==> Needs(entities, t, to)
      {
        RequiredMeansNeeds(entities, t, to);
      }
    }
  }

  ghost predicate NeverFills(entities: seq<Entity>, t: nat) {
    forall run :: IsInsertRun(entities, run) ==> t !in run
  }

  /** Which tables stay empty for good: those that need, directly or not, two
      tables that need each other. */
  lemma NeverFillsIffStuck(entities: seq<Entity>, t: nat)
    requires UniqueEntityIds(entities) && t < |entities|
    ensures NeverFills(entities, t) <==> Stuck(References(entities, true), t)
  {
    ReferencesShape(entities, true);
    var g := References(entities, true);
    EmptyForeverIffStuck(g, |entities|, t);
    forall run
      ensures IsInsertRun(entities, run) <==> ValidRun(g, |entities|, run)
    {
      InsertRunIsValidRun(entities, run);
    }
  }

  /** An error is reported exactly when some table can never receive a row. */
  lemma ErrorIffSomeTableNeverFills(entities: seq<Entity>, found: seq<Diagnostic>)
    requires UniqueEntityIds(entities) && CycleFinding(entities, found)
    ensures !IsValid(found) <==> exists t: nat :: t < |entities| && NeverFills(entities, t)
  {
    var g := References(entities, true);
    ReferencesShape(entities, true);
    ErrorIffRequiredCycle(entities, found);
    if HasRequiredCycle(entities) {
      var u, v :| u != v && Mutual(g, u, v);
      MutualInRange(g, |entities|, u, v);
      ReachSelf(g, u);
      assert Stuck(g, u);
      NeverFillsIffStuck(entities, u);
    }
    if t: nat :| t < |entities| && NeverFills(entities, t) {
      NeverFillsIffStuck(entities, t);
    }
  }

  /** Without an error, one run of inserts puts a row into every table. */
  lemma NoErrorFillsEveryTable(entities: seq<Entity>, found: seq<Diagnostic>) returns (run: seq<nat>)
    requires UniqueEntityIds(entities) && CycleFinding(entities, found) && IsValid(found)
    ensures IsInsertRun(entities, run) && forall t: nat :: t < |entities| ==> t in run
  {
    var g := References(entities, true);
    ReferencesShape(entities, true);
    forall t: nat | t < |entities|
      ensures CanReceiveARow(g, |entities|, t)
    {
      ErrorIffRequiredCycle(entities, found);
      EmptyForeverIffStuck(g, |entities|, t);
    }
    run := OneRunFillsAll(g, |entities|);
    InsertRunIsValidRun(entities, run);
  }
}
