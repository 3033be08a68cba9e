/** Checks for tables or columns of the same name and for missing keys. */
module StructureChecks {
  import opened Options
  import opened Strings
  import opened Domain
  import opened Diagnostics

  /** Names are compared trimmed and in lower case. */
  function Folded(name: string): string {
    Lower(Trim(name))
  }

  // ----- grouping by name -----

  /** A folded name and the positions that carry it. */
  datatype Group = Group(key: string, members: seq<nat>)

  function GroupAt(groups: seq<Group>, key: string): (r: Option<nat>)
    ensures r.Some? ==> r.value < |groups| && groups[r.value].key == key
    ensures r.None? ==> forall g :: 0 <= g < |groups| ==> groups[g].key != key
  {
    var p := (g: Group) => g.key == key;
    assert forall g :: 0 <= g < |groups| ==> p(groups[g]) == (groups[g].key == key);
    First(groups, p)
  }

  /** The positions below `n` whose name folds to `key`. */
  function PositionsOf(names: seq<string>, n: nat, key: string): (r: seq<nat>)
    requires n <= |names|
  {
    if n == 0 then []
    else PositionsOf(names, n - 1, key) + (if Folded(names[n - 1]) == key then [n - 1] else [])
  }

  lemma {:induction false} PositionsAre(names: seq<string>, n: nat, key: string)
    requires n <= |names|
    ensures forall p: nat :: p in PositionsOf(names, n, key) <==> p < n && Folded(names[p]) == key
    ensures forall i, j :: 0 <= i < j < |PositionsOf(names, n, key)| ==>
      PositionsOf(names, n, key)[i] < PositionsOf(names, n, key)[j]
  {
    hide Folded;
    if n > 0 {
      PositionsAre(names, n - 1, key);
      var before := PositionsOf(names, n - 1, key);
      assert forall i :: 0 <= i < |before| ==> before[i] in before;
    }
  }

  /** One group for each name met among the first `n`, blank ones aside, with
      all its positions in order. */
  ghost predicate IsGrouping(names: seq<string>, n: nat, groups: seq<Group>)
    requires n <= |names|
  {
    && (forall g :: 0 <= g < |groups| ==>
          groups[g].key != "" && groups[g].members != [] && groups[g].members == PositionsOf(names, n, groups[g].key))
    && (forall g, h :: 0 <= g < h < |groups| ==> groups[g].key != groups[h].key)
    && (forall p: nat :: p < n && Folded(names[p]) != "" ==> exists g :: 0 <= g < |groups| && groups[g].key == Folded(names[p]))
  }

  function AddTo(groups: seq<Group>, key: string, position: nat): seq<Group> {
    match GroupAt(groups, key)
    case Some(g) => groups[g := groups[g].(members := groups[g].members + [position])]
    case None => groups + [Group(key, [position])]
  }

  /** The groups so far, in the order their names were first met. */
  function GroupsUpTo(names: seq<string>, n: nat): seq<Group>
    requires n <= |names|
  {
    if n == 0 then []
    else
      var groups, key := GroupsUpTo(names, n - 1), Folded(names[n - 1]);
      if key == "" then groups else AddTo(groups, key, n - 1)
  }

  lemma {:induction false} GroupsAre(names: seq<string>, n: nat)
    requires n <= |names|
    ensures IsGrouping(names, n, GroupsUpTo(names, n))
  {
    hide Folded;
    if n > 0 {
      GroupsAre(names, n - 1);
      var groups, key := GroupsUpTo(names, n - 1), Folded(names[n - 1]);
      if key == "" {
        GroupingSkips(names, n, groups);
      } else {
        match GroupAt(groups, key) {
          case Some(g) => GroupingGrows(names, n, groups, g);
          case None => GroupingStarts(names, n, groups);
        }
      }
    }
  }

  lemma GroupingSkips(names: seq<string>, n: nat, groups: seq<Group>)
    requires 0 < n <= |names| && IsGrouping(names, n - 1, groups) && Folded(names[n - 1]) == ""
    ensures IsGrouping(names, n, groups)
  {
    hide Folded;
  }

  lemma GroupingGrows(names: seq<string>, n: nat, groups: seq<Group>, g: nat)
    requires 0 < n <= |names| && IsGrouping(names, n - 1, groups)
    requires g < |groups| && groups[g].key == Folded(names[n - 1]) && groups[g].key != ""
    ensures IsGrouping(names, n, groups[g := groups[g].(members := groups[g].members + [n - 1])])
  {
    hide Folded;
    var after := groups[g := groups[g].(members := groups[g].members + [n - 1])];
    forall p: nat | p < n && Folded(names[p]) != ""
      ensures exists h :: 0 <= h < |after| && after[h].key == Folded(names[p])
    {
      if p == n - 1 {
        assert after[g].key == Folded(names[p]);
      } else {
        var h :| 0 <= h < |groups| && groups[h].key == Folded(names[p]);
        assert after[h].key == Folded(names[p]);
      }
    }
  }

  lemma NotMetBefore(names: seq<string>, n: nat, groups: seq<Group>, key: string)
    requires n <= |names| && IsGrouping(names, n, groups) && key != ""
    requires forall g :: 0 <= g < |groups| ==> groups[g].key != key
    ensures PositionsOf(names, n, key) == []
  {
    hide Folded;
    PositionsAre(names, n, key);
    SomeMember(PositionsOf(names, n, key));
  }

  lemma SomeMember(s: seq<nat>)
    ensures s == [] || exists p: nat :: p in s
  {
    if s != [] {
      assert s[0] in s;
    }
  }

  lemma TwoMembers(s: seq<nat>, i: nat, j: nat)
    requires i in s && j in s && i != j
    ensures |s| > 1
  {
    var a :| 0 <= a < |s| && s[a] == i;
    var b :| 0 <= b < |s| && s[b] == j;
  }

  lemma GroupingStarts(names: seq<string>, n: nat, groups: seq<Group>)
    requires 0 < n <= |names| && IsGrouping(names, n - 1, groups)
    requires Folded(names[n - 1]) != "" && forall g :: 0 <= g < |groups| ==> groups[g].key != Folded(names[n - 1])
    ensures IsGrouping(names, n, groups + [Group(Folded(names[n - 1]), [n - 1])])
  {
    hide Folded;
    var key := Folded(names[n - 1]);
    var after := groups + [Group(key, [n - 1])];
    NotMetBefore(names, n - 1, groups, key);
    assert [] + [n - 1] == [n - 1];
    forall g | 0 <= g < |groups|
      ensures groups[g].members == PositionsOf(names, n, groups[g].key)
    {
      assert PositionsOf(names, n - 1, groups[g].key) + [] == PositionsOf(names, n - 1, groups[g].key);
    }
    forall p: nat | p < n && Folded(names[p]) != ""
      ensures exists h :: 0 <= h < |after| && after[h].key == Folded(names[p])
    {
      if p == n - 1 {
        assert after[|groups|].key == Folded(names[p]);
      } else {
        var h :| 0 <= h < |groups| && groups[h].key == Folded(names[p]);
        assert after[h].key == Folded(names[p]);
      }
    }
  }

  /** The groups with more than one member. */
  function Repeated(groups: seq<Group>): seq<seq<nat>> {
    if groups == [] then []
    else
      var front, last := Repeated(groups[..|groups| - 1]), groups[|groups| - 1];
      if |last.members| > 1 then front + [last.members] else front
  }

  function SameNames(names: seq<string>): seq<seq<nat>> {
    Repeated(GroupsUpTo(names, |names|))
  }

  method SameNameGroups(names: seq<string>) returns (found: seq<seq<nat>>)
    ensures found == SameNames(names)
  {
    hide Folded;
    var groups: seq<Group> := [];
    for n := 0 to |names|
      invariant groups == GroupsUpTo(names, n)
    {
      var key := Folded(names[n]);
      if key != "" {
        match GroupAt(groups, key) {
          case Some(g) => groups := groups[g := groups[g].(members := groups[g].members + [n])];
          case None => groups := groups + [Group(key, [n])];
        }
      }
    }
    found := [];
    for g := 0 to |groups|
      invariant found == Repeated(groups[..g])
    {
      assert groups[..g + 1][..g] == groups[..g];
      if |groups[g].members| > 1 {
        found := found + [groups[g].members];
      }
    }
    assert groups[..|groups|] == groups;
  }

  /** Two names that are not blank and fold to the same. */
  ghost predicate Clash(names: seq<string>, i: nat, j: nat) {
    i < j < |names| && Folded(names[i]) != "" && Folded(names[i]) == Folded(names[j])
  }

  ghost predicate IsRepeated(groups: seq<Group>, members: seq<nat>) {
    |members| > 1 && exists g :: 0 <= g < |groups| && groups[g].members == members
  }

  lemma {:induction false} RepeatedHolds(groups: seq<Group>)
    ensures forall k :: 0 <= k < |Repeated(groups)| ==> IsRepeated(groups, Repeated(groups)[k])
    ensures forall g :: 0 <= g < |groups| && |groups[g].members| > 1 ==> groups[g].members in Repeated(groups)
  {
    if groups != [] {
      var front, last := groups[..|groups| - 1], groups[|groups| - 1];
      RepeatedHolds(front);
      forall k | 0 <= k < |Repeated(groups)|
        ensures IsRepeated(groups, Repeated(groups)[k])
      {
        if k < |Repeated(front)| {
          assert IsRepeated(front, Repeated(front)[k]);
          var g :| 0 <= g < |front| && front[g].members == Repeated(front)[k];
          assert groups[g].members == Repeated(groups)[k];
        } else {
          assert groups[|groups| - 1].members == Repeated(groups)[k];
        }
      }
    }
  }

  /** A group is reported exactly when two names clash, and a reported group is
      every position of its name, in order. */
  lemma SameNamesAre(names: seq<string>)
    ensures SameNames(names) == [] <==> forall i: nat, j: nat :: !Clash(names, i, j)
    ensures forall k :: 0 <= k < |SameNames(names)| ==> IsClashGroup(names, SameNames(names)[k])
  {
    hide Folded, GroupsUpTo, IsGrouping;
    var groups := GroupsUpTo(names, |names|);
    GroupsAre(names, |names|);
    RepeatedHolds(groups);
    forall i: nat, j: nat | Clash(names, i, j)
      ensures SameNames(names) != []
    {
      ClashIsGrouped(names, groups, i, j);
    }
    forall k | 0 <= k < |SameNames(names)|
      ensures IsClashGroup(names, SameNames(names)[k])
    {
      assert IsRepeated(groups, SameNames(names)[k]);
      GroupIsClash(names, groups, SameNames(names)[k]);
    }
    if SameNames(names) != [] {
      var members := SameNames(names)[0];
      assert IsClashGroup(names, members);
      assert Clash(names, members[0], members[1]);
    }
  }

  /** The members are all the positions of one name, and there are several. */
  ghost predicate IsClashGroup(names: seq<string>, members: seq<nat>) {
    && |members| > 1 && (forall p: nat :: p in members ==> p < |names|)
    && Clash(names, members[0], members[1])
    && members == PositionsOf(names, |names|, Folded(names[members[0]]))
  }

  lemma ClashIsGrouped(names: seq<string>, groups: seq<Group>, i: nat, j: nat)
    requires IsGrouping(names, |names|, groups) && Clash(names, i, j)
    ensures exists g :: 0 <= g < |groups| && |groups[g].members| > 1
  {
    hide Folded;
    var g :| 0 <= g < |groups| && groups[g].key == Folded(names[i]);
    PositionsAre(names, |names|, groups[g].key);
    var members := groups[g].members;
    TwoMembers(members, i, j);
  }

  lemma GroupIsClash(names: seq<string>, groups: seq<Group>, members: seq<nat>)
    requires IsGrouping(names, |names|, groups) && IsRepeated(groups, members)
    ensures IsClashGroup(names, members)
  {
    hide Folded;
    var g :| 0 <= g < |groups| && groups[g].members == members;
    PositionsAre(names, |names|, groups[g].key);
    assert members[0] in members && members[1] in members;
  }

  // ----- the checks -----

  predicate InRange(members: seq<nat>, n: nat) {
    members != [] && forall i :: 0 <= i < |members| ==> members[i] < n
  }

  function TableClash(entities: seq<Entity>, members: seq<nat>): seq<Diagnostic> {
    if !InRange(members, |entities|) then []
    else
      var ids := seq(|members|, i requires 0 <= i < |members| => entities[members[i]].id);
      [Diagnostic(DuplicateEntityName, Error, ids, Some(entities[members[0]].position))]
  }

  function TableClashes(entities: seq<Entity>): seq<nat> -> seq<Diagnostic> {
    (members: seq<nat>) => TableClash(entities, members)
  }

  function ColumnClash(e: Entity, members: seq<nat>): seq<Diagnostic> {
    if !InRange(members, |e.attributes|) then []
    else
      var ids := seq(|members|, i requires 0 <= i < |members| => e.attributes[members[i]].id);
      [Diagnostic(DuplicateAttributeName, Error, [e.id] + ids, Some(e.position))]
  }

  function ColumnClashes(e: Entity): seq<nat> -> seq<Diagnostic> {
    (members: seq<nat>) => ColumnClash(e, members)
  }

  function TableColumnClashes(): Entity -> seq<Diagnostic> {
    (e: Entity) => Collect(SameNames(ColumnNames(e.attributes)), ColumnClashes(e))
  }

  lemma ClashInRange(names: seq<string>, k: nat)
    requires k < |SameNames(names)|
    ensures InRange(SameNames(names)[k], |names|)
  {
    hide SameNames, Folded;
    SameNamesAre(names);
    var members := SameNames(names)[k];
    assert IsClashGroup(names, members);
    assert forall i :: 0 <= i < |members| ==> members[i] in members;
  }

  method CheckTableNames(entities: seq<Entity>, report: Report)
    modifies report
    ensures report.diagnostics == old(report.diagnostics) + Collect(SameNames(TableNames(entities)), TableClashes(entities))
  {
    hide SameNames, InRange, TableClash;
    var names := TableNames(entities);
    var groups := SameNameGroups(names);
    for k := 0 to |groups|
      invariant report.diagnostics == old(report.diagnostics) + Collect(groups[..k], TableClashes(entities))
    {
      CollectStep(groups, TableClashes(entities), k);
      ClashInRange(names, k);
      PushTableClash(entities, groups[k], report);
    }
    assert groups[..|groups|] == groups;
  }

  method CheckDuplicateNames(s: Schema, report: Report)
    modifies report
    ensures report.diagnostics == old(report.diagnostics)
      + Collect(SameNames(TableNames(s.entities)), TableClashes(s.entities))
      + Collect(s.entities, TableColumnClashes())
  {
    hide SameNames, TableColumnClashes, TableClashes;
    CheckTableNames(s.entities, report);
    ghost var start := report.diagnostics;
    for i := 0 to |s.entities|
      invariant report.diagnostics == start + Collect(s.entities[..i], TableColumnClashes())
    {
      CollectStep(s.entities, TableColumnClashes(), i);
      CheckColumnNames(s.entities[i], report);
    }
    assert s.entities[..|s.entities|] == s.entities;
  }

  method PushTableClash(entities: seq<Entity>, members: seq<nat>, report: Report)
    requires InRange(members, |entities|)
    modifies report
    ensures report.diagnostics == old(report.diagnostics) + TableClash(entities, members)
  {
    var ids: seq<string> := [];
    for i := 0 to |members|
      invariant ids == seq(i, j requires 0 <= j < i => entities[members[j]].id)
    {
      ids := ids + [entities[members[i]].id];
    }
    report.Push(Diagnostic(DuplicateEntityName, Error, ids, Some(entities[members[0]].position)));
  }

  method PushColumnClash(e: Entity, members: seq<nat>, report: Report)
    requires InRange(members, |e.attributes|)
    modifies report
    ensures report.diagnostics == old(report.diagnostics) + ColumnClash(e, members)
  {
    var ids: seq<string> := [];
    for i := 0 to |members|
      invariant ids == seq(i, j requires 0 <= j < i => e.attributes[members[j]].id)
    {
      ids := ids + [e.attributes[members[i]].id];
    }
    report.Push(Diagnostic(DuplicateAttributeName, Error, [e.id] + ids, Some(e.position)));
  }

  method CheckColumnNames(e: Entity, report: Report)
    modifies report
    ensures report.diagnostics == old(report.diagnostics) + TableColumnClashes()(e)
  {
    hide SameNames, InRange, ColumnClash;
    var names := ColumnNames(e.attributes);
    var groups := SameNameGroups(names);
    for k := 0 to |groups|
      invariant report.diagnostics == old(report.diagnostics) + Collect(groups[..k], ColumnClashes(e))
    {
      CollectStep(groups, ColumnClashes(e), k);
      ClashInRange(names, k);
      PushColumnClash(e, groups[k], report);
    }
    assert groups[..|groups|] == groups;
  }

  function KeyProblem(e: Entity): seq<Diagnostic> {
    if e.HasPrimaryKey() then [] else [Diagnostic(MissingPrimaryKey, Error, [e.id], Some(e.position))]
  }

  function MissingKeys(): Entity -> seq<Diagnostic> {
    (e: Entity) => KeyProblem(e)
  }

  method CheckPrimaryKeys(s: Schema, report: Report)
    modifies report
    ensures report.diagnostics == old(report.diagnostics) + Collect(s.entities, MissingKeys())
  {
    hide Entity.HasPrimaryKey;
    for i := 0 to |s.entities|
      invariant report.diagnostics == old(report.diagnostics) + Collect(s.entities[..i], MissingKeys())
    {
      CollectStep(s.entities, MissingKeys(), i);
      var e := s.entities[i];
      if !e.HasPrimaryKey() {
        report.Push(Diagnostic(MissingPrimaryKey, Error, [e.id], Some(e.position)));
      }
    }
    assert s.entities[..|s.entities|] == s.entities;
  }

  /** No clash among names, no duplicate reported. */
  lemma NoTableClashIff(s: Schema)
    ensures IsValid(Collect(SameNames(TableNames(s.entities)), TableClashes(s.entities)))
      <==> forall i: nat, j: nat :: !Clash(TableNames(s.entities), i, j)
  {
    hide SameNames, Folded, InRange, Clash;
    var names := TableNames(s.entities);
    var groups := SameNames(names);
    SameNamesAre(names);
    CollectValid(groups, TableClashes(s.entities));
    if groups != [] {
      ClashInRange(names, 0);
      assert TableClashes(s.entities)(groups[0])[0].IsError();
    }
  }

  lemma NoColumnClashIff(e: Entity)
    ensures IsValid(TableColumnClashes()(e)) <==> forall i: nat, j: nat :: !Clash(ColumnNames(e.attributes), i, j)
  {
    hide SameNames, Folded, InRange, Clash;
    var names := ColumnNames(e.attributes);
    var groups := SameNames(names);
    SameNamesAre(names);
    CollectValid(groups, ColumnClashes(e));
    if groups != [] {
      ClashInRange(names, 0);
      assert ColumnClashes(e)(groups[0])[0].IsError();
    }
  }
}
