/** What a report says, diagnostic by diagnostic: every rule written out as a
    condition on the schema, with the elements it blames. */
module VerdictLaws {
  import opened Options
  import opened Strings
  import opened Domain
  import opened Diagnostics
  import opened Graphs
  import opened Components
  import opened Groups
  import opened SyntaxChecks
  import opened StructureChecks
  import opened ReferenceChecks
  import opened DocumentationCheck
  import opened Verifier
  import Cycles

  // ----- columns -----

  /** Some keys of the second type do not fit the first. */
  predicate TooNarrow(column: DataType, key: DataType) {
    || (column.kind.SmallInt? && (key.kind.Integer? || key.kind.BigInt?))
    || (column.kind.Integer? && key.kind.BigInt?)
    || ((column.kind.Varchar? || column.kind.Char?) && column.length.Some?
        && (key.kind.Text? || ((key.kind.Varchar? || key.kind.Char?) && (key.length.None? || column.length.value < key.length.value))))
  }

  ghost predicate ReferenceSays(s: Schema, e: Entity, a: Attribute, d: Diagnostic) {
    a.foreignKey.Some? &&
      match s.Resolve(a.foreignKey.value.entityId, a.foreignKey.value.attributeId)
      case None => d == Diagnostic(InvalidForeignKey, Error, [e.id, a.id], Some(e.position))
      case Some((t, c)) =>
        var target, key := s.entities[t], s.entities[t].attributes[c];
        var ids, sameFamily := [e.id, a.id, target.id, key.id], a.dataType.kind.Family() == key.dataType.kind.Family();
        || (!AloneUnique(target, c) && d == Diagnostic(ForeignKeyNotAKey, Error, ids, Some(e.position)))
        || (!sameFamily && d == Diagnostic(TypeMismatch, Error, ids, Some(e.position)))
        || (sameFamily && TooNarrow(a.dataType, key.dataType) && d == Diagnostic(TypeMismatch, Warning, ids, Some(e.position)))
  }

  ghost predicate ColumnSays(s: Schema, e: Entity, a: Attribute, d: Diagnostic) {
    || (Blank(a.name) && d == Diagnostic(EmptyName, Error, [e.id, a.id], Some(e.position)))
    || (!GoodParameters(a.dataType) && d == Diagnostic(InvalidTypeParameter, Error, [e.id, a.id], Some(e.position)))
    || ReferenceSays(s, e, a, d)
  }

  // ----- tables -----

  /** All positions of one name, up to case and white space around; at least two. */
  ghost predicate SharesName(names: seq<string>, members: seq<nat>) {
    && |members| > 1 && Increasing(members) && members[0] < |names| && !Blank(names[members[0]])
    && forall p: nat :: p in members <==> p < |names| && Lower(Trim(names[p])) == Lower(Trim(names[members[0]]))
  }

  function ColumnIds(attributes: seq<Attribute>, at: seq<nat>): seq<string> {
    seq(|at|, i requires 0 <= i < |at| => if at[i] < |attributes| then attributes[at[i]].id else "")
  }

  function TableIds(entities: seq<Entity>, at: seq<nat>): seq<string> {
    seq(|at|, i requires 0 <= i < |at| => if at[i] < |entities| then entities[at[i]].id else "")
  }

  ghost predicate ClashSays(e: Entity, d: Diagnostic) {
    exists members :: SharesName(ColumnNames(e.attributes), members)
                      && d == Diagnostic(DuplicateAttributeName, Error, [e.id] + ColumnIds(e.attributes, members), Some(e.position))
  }

  /** The columns without a description, in order. */
  ghost predicate Undescribed(attributes: seq<Attribute>, at: seq<nat>) {
    Increasing(at) && forall k: nat :: k in at <==> k < |attributes| && Blank(attributes[k].description)
  }

  ghost predicate SilenceSays(e: Entity, d: Diagnostic) {
    exists at :: Undescribed(e.attributes, at) && (at != [] || Blank(e.description))
                 && d == Diagnostic(MissingDescription, Warning, [e.id] + ColumnIds(e.attributes, at), Some(e.position))
  }

  ghost predicate TableSays(s: Schema, e: Entity, d: Diagnostic) {
    || (Blank(e.name) && d == Diagnostic(EmptyName, Error, [e.id], Some(e.position)))
    || (!e.HasPrimaryKey() && d == Diagnostic(MissingPrimaryKey, Error, [e.id], Some(e.position)))
    || ClashSays(e, d)
    || SilenceSays(e, d)
    || exists k :: 0 <= k < |e.attributes| && ColumnSays(s, e, e.attributes[k], d)
  }

  // ----- lines -----

  /** At the first of its two tables that is there. */
  predicate ShownAt(s: Schema, link: Relationship, place: Option<Position>) {
    var f, t := s.EntityAt(link.fromEntityId), s.EntityAt(link.toEntityId);
    && (f.Some? ==> place == Some(s.entities[f.value].position))
    && (f.None? && t.Some? ==> place == Some(s.entities[t.value].position))
    && (f.None? && t.None? ==> place == None)
  }

  /** A line says 1:1 where its key may repeat, or 1:N where it may not. */
  predicate Contradicts(c: Cardinality, alone: bool) {
    (c.OneToOne? && !alone) || (c.OneToMany? && alone)
  }

  ghost predicate KeySays(s: Schema, link: Relationship, from: (nat, nat), to: (nat, nat), d: Diagnostic)
    requires from.0 < |s.entities| && from.1 < |s.entities[from.0].attributes|
    requires to.0 < |s.entities| && to.1 < |s.entities[to.0].attributes|
  {
    var f, t := s.entities[from.0], s.entities[to.0];
    var a, b := f.attributes[from.1], t.attributes[to.1];
    if a.foreignKey == Some(ForeignKeyRef(t.id, b.id)) then
      Contradicts(link.cardinality, AloneUnique(f, from.1))
      && d == Diagnostic(CardinalityMismatch, Warning, [link.id, f.id, a.id], Some(f.position))
    else if b.foreignKey == Some(ForeignKeyRef(f.id, a.id)) then
      Contradicts(link.cardinality, AloneUnique(t, to.1))
      && d == Diagnostic(CardinalityMismatch, Warning, [link.id, t.id, b.id], Some(t.position))
    else
      d == Diagnostic(RelationshipWithoutForeignKey, Error, [link.id], Some(f.position))
  }

  ghost predicate LineSays(s: Schema, link: Relationship, d: Diagnostic) {
    var from, to := s.Resolve(link.fromEntityId, link.fromAttributeId), s.Resolve(link.toEntityId, link.toAttributeId);
    || ((from.None? || to.None?)
        && d.code.DanglingRelationship? && d.severity.Error? && d.elementIds == [link.id] && ShownAt(s, link, d.location))
    || (from.Some? && to.Some? && !link.cardinality.ManyToMany? && KeySays(s, link, from.value, to.value, d))
    || (Blank(link.description) && d == Diagnostic(MissingDescription, Warning, [link.id], None))
  }

  // ----- the whole schema -----

  ghost predicate TablesClashSays(s: Schema, d: Diagnostic) {
    exists members :: SharesName(TableNames(s.entities), members)
                      && d == Diagnostic(DuplicateEntityName, Error, TableIds(s.entities, members), Some(s.entities[members[0]].position))
  }

  /** All tables that depend on each other, in order; at least two. */
  ghost predicate DependOnEachOther(entities: seq<Entity>, members: seq<nat>) {
    var g := Cycles.References(entities, false);
    && |members| > 1 && Increasing(members) && members[0] < |entities|
    && forall v: nat :: v in members <==> v < |entities| && (v == members[0] || Mutual(g, v, members[0]))
  }

  /** One of them is on a cycle of NOT NULL references. */
  ghost predicate SomeBlocked(entities: seq<Entity>, members: seq<nat>) {
    exists u, v :: u in members && u != v && Mutual(Cycles.References(entities, true), u, v)
  }

  ghost predicate CycleSays(s: Schema, d: Diagnostic) {
    exists members :: DependOnEachOther(s.entities, members)
      && d == Diagnostic(CircularDependency, if SomeBlocked(s.entities, members) then Error else Warning,
                         TableIds(s.entities, members), Some(s.entities[members[0]].position))
  }

  ghost predicate Says(s: Schema, d: Diagnostic) {
    || (s.entities == [] && d == Diagnostic(EmptySchema, Warning, [], None))
    || (exists i :: 0 <= i < |s.entities| && TableSays(s, s.entities[i], d))
    || (exists r :: 0 <= r < |s.relationships| && LineSays(s, s.relationships[r], d))
    || TablesClashSays(s, d)
    || CycleSays(s, d)
  }

  // ----- one rule at a time -----

  lemma {:induction false} CollectHas<T>(items: seq<T>, found: T -> seq<Diagnostic>, d: Diagnostic)
    ensures d in Collect(items, found) <==> exists i :: 0 <= i < |items| && d in found(items[i])
  {
    if items != [] {
      var front, last := items[..|items| - 1], items[|items| - 1];
      CollectHas(front, found, d);
      if d in found(last) {
        assert items[|items| - 1] == last;
      }
      if i :| 0 <= i < |front| && d in found(front[i]) {
        assert items[i] == front[i];
      }
    }
  }

  lemma NarrowIff(column: DataType, key: DataType)
    requires column.kind.Family() == key.kind.Family()
    ensures IsNarrower(column, key) <==> TooNarrow(column, key)
  {
  }

  lemma ReferenceHas(s: Schema, e: Entity, a: Attribute, d: Diagnostic)
    ensures d in ReferenceProblem(s, e, a) <==> ReferenceSays(s, e, a, d)
  {
    hide IsUniqueKey, AloneUnique, IsNarrower, TooNarrow, DataTypeKind.Family;
    if a.foreignKey.Some? {
      match s.Resolve(a.foreignKey.value.entityId, a.foreignKey.value.attributeId) {
        case None =>
        case Some(found) =>
          var target := s.entities[found.0];
          UniqueKeyIff(target, found.1);
          if a.dataType.kind.Family() == target.attributes[found.1].dataType.kind.Family() {
            NarrowIff(a.dataType, target.attributes[found.1].dataType);
          }
      }
    }
  }

  lemma NameHas(e: Entity, a: Attribute, d: Diagnostic)
    ensures d in ColumnNameProblem(e, a) <==> Blank(a.name) && d == Diagnostic(EmptyName, Error, [e.id, a.id], Some(e.position))
  {
    hide Trim, Blank;
    TrimFacts(a.name);
  }

  lemma ParameterHas(e: Entity, a: Attribute, d: Diagnostic)
    ensures d in ParameterProblem(e, a)
      <==> !GoodParameters(a.dataType) && d == Diagnostic(InvalidTypeParameter, Error, [e.id, a.id], Some(e.position))
  {
    hide BadParameters, GoodParameters;
    ParametersBadIff(a.dataType);
  }

  // ----- lists of positions -----

  lemma SharedIff(names: seq<string>, members: seq<nat>)
    ensures members in SameNames(names) <==> SharesName(names, members)
  {
    hide Folded, GroupsUpTo, Repeated, Trim, Blank;
    var groups := GroupsUpTo(names, |names|);
    GroupsAre(names, |names|);
    RepeatedHolds(groups);
    if members in SameNames(names) {
      var k :| 0 <= k < |SameNames(names)| && SameNames(names)[k] == members;
      assert IsRepeated(groups, members);
      GroupIsClash(names, groups, members);
      ClashGroupShares(names, members);
    }
    if SharesName(names, members) {
      ShareIsGrouped(names, groups, members);
    }
  }

  lemma ClashGroupShares(names: seq<string>, members: seq<nat>)
    requires IsClashGroup(names, members)
    ensures SharesName(names, members)
  {
    hide Trim, Blank;
    var key := Folded(names[members[0]]);
    PositionsAre(names, |names|, key);
    FoldedBlank(names[members[0]]);
  }

  lemma ShareIsGrouped(names: seq<string>, groups: seq<Group>, members: seq<nat>)
    requires IsGrouping(names, |names|, groups) && SharesName(names, members)
    ensures exists g :: 0 <= g < |groups| && groups[g].members == members && |groups[g].members| > 1
  {
    hide Trim, Blank;
    var key := Folded(names[members[0]]);
    FoldedBlank(names[members[0]]);
    var g :| 0 <= g < |groups| && groups[g].key == key;
    PositionsAre(names, |names|, key);
    IncreasingUnique(groups[g].members, members);
  }

  lemma TableClashHas(s: Schema, d: Diagnostic)
    ensures d in Collect(SameNames(TableNames(s.entities)), TableClashes(s.entities)) <==> TablesClashSays(s, d)
  {
    hide SameNames, SharesName;
    var names := TableNames(s.entities);
    CollectHas(SameNames(names), TableClashes(s.entities), d);
    forall members
      ensures members in SameNames(names) <==> SharesName(names, members)
      ensures SharesName(names, members) ==>
        && members != [] && members[0] < |s.entities|
        && TableClash(s.entities, members)
             == [Diagnostic(DuplicateEntityName, Error, TableIds(s.entities, members), Some(s.entities[members[0]].position))]
    {
      SharedIff(names, members);
      if SharesName(names, members) {
        SharersInRange(names, members);
        TableClashIs(s.entities, members);
      }
    }
  }

  lemma SharersInRange(names: seq<string>, members: seq<nat>)
    requires SharesName(names, members)
    ensures members != [] && InRange(members, |names|)
  {
    assert forall i :: 0 <= i < |members| ==> members[i] in members;
  }

  lemma TableClashIs(entities: seq<Entity>, members: seq<nat>)
    requires InRange(members, |entities|)
    ensures TableClash(entities, members)
      == [Diagnostic(DuplicateEntityName, Error, TableIds(entities, members), Some(entities[members[0]].position))]
  {
    assert seq(|members|, i requires 0 <= i < |members| => entities[members[i]].id) == TableIds(entities, members);
  }

  lemma ColumnClashIs(e: Entity, members: seq<nat>)
    requires InRange(members, |e.attributes|)
    ensures ColumnClash(e, members)
      == [Diagnostic(DuplicateAttributeName, Error, [e.id] + ColumnIds(e.attributes, members), Some(e.position))]
  {
    assert seq(|members|, i requires 0 <= i < |members| => e.attributes[members[i]].id) == ColumnIds(e.attributes, members);
  }

  lemma ColumnClashHas(e: Entity, d: Diagnostic)
    ensures d in TableColumnClashes()(e) <==> ClashSays(e, d)
  {
    hide SameNames, SharesName;
    var names := ColumnNames(e.attributes);
    CollectHas(SameNames(names), ColumnClashes(e), d);
    forall members
      ensures members in SameNames(names) <==> SharesName(names, members)
      ensures SharesName(names, members) ==>
        ColumnClash(e, members)
          == [Diagnostic(DuplicateAttributeName, Error, [e.id] + ColumnIds(e.attributes, members), Some(e.position))]
    {
      SharedIff(names, members);
      if SharesName(names, members) {
        SharersInRange(names, members);
        ColumnClashIs(e, members);
      }
    }
  }

  // ----- descriptions -----

  function UndescribedAt(attributes: seq<Attribute>, n: nat): seq<nat>
    requires n <= |attributes|
  {
    if n == 0 then []
    else UndescribedAt(attributes, n - 1) + (if Blank(attributes[n - 1].description) then [n - 1] else [])
  }

  lemma {:induction false} UndescribedAre(attributes: seq<Attribute>, n: nat)
    requires n <= |attributes|
    ensures Increasing(UndescribedAt(attributes, n))
    ensures forall k: nat :: k in UndescribedAt(attributes, n) <==> k < n && Blank(attributes[k].description)
  {
    hide Blank;
    if n > 0 {
      UndescribedAre(attributes, n - 1);
      var before := UndescribedAt(attributes, n - 1);
      assert forall i :: 0 <= i < |before| ==> before[i] in before;
    }
  }

  lemma {:induction false} UndescribedNamed(attributes: seq<Attribute>, n: nat)
    requires n <= |attributes|
    ensures UndocumentedIds(attributes[..n]) == ColumnIds(attributes, UndescribedAt(attributes, n))
  {
    hide Blank, Trim;
    if n > 0 {
      UndescribedNamed(attributes, n - 1);
      var before, last := UndescribedAt(attributes, n - 1), attributes[n - 1];
      assert attributes[..n][..n - 1] == attributes[..n - 1] && attributes[..n][n - 1] == last;
      TrimFacts(last.description);
      if Blank(last.description) {
        assert ColumnIds(attributes, before + [n - 1]) == ColumnIds(attributes, before) + [last.id];
      } else {
        assert before + [] == before;
      }
    }
  }

  lemma SilenceHas(e: Entity, d: Diagnostic)
    ensures d in TableUndocumented()(e) <==> SilenceSays(e, d)
  {
    hide Blank, Trim, UndocumentedIds, UndescribedAt;
    var n := |e.attributes|;
    UndescribedAre(e.attributes, n);
    UndescribedNamed(e.attributes, n);
    assert e.attributes[..n] == e.attributes;
    TrimFacts(e.description);
    var at := UndescribedAt(e.attributes, n);
    assert Undescribed(e.attributes, at);
    forall other | Undescribed(e.attributes, other)
      ensures other == at
    {
      IncreasingUnique(other, at);
    }
    assert ColumnIds(e.attributes, at) == [] <==> at == [];
  }

  // ----- lines -----

  lemma LineHas(s: Schema, link: Relationship, d: Diagnostic)
    ensures d in EndProblem(s, link) || d in LineProblem(s, link) || d in LineUndocumented()(link) <==> LineSays(s, link, d)
  {
    hide IsUniqueKey, AloneUnique, Trim, Blank, Schema.Resolve;
    TrimFacts(link.description);
    var from, to := s.Resolve(link.fromEntityId, link.fromAttributeId), s.Resolve(link.toEntityId, link.toAttributeId);
    if from.Some? && to.Some? {
      KeyHas(s, link, from.value, to.value, d);
    } else {
      DanglingHas(s, link, d);
    }
  }

  lemma DanglingHas(s: Schema, link: Relationship, d: Diagnostic)
    ensures ShownAt(s, link, d.location) <==> d.location == DanglingPlace(s, link)
  {
    hide Schema.EntityAt;
  }

  lemma KeyHas(s: Schema, link: Relationship, from: (nat, nat), to: (nat, nat), d: Diagnostic)
    requires s.Resolve(link.fromEntityId, link.fromAttributeId) == Some(from)
    requires s.Resolve(link.toEntityId, link.toAttributeId) == Some(to)
    ensures d in LineProblem(s, link) <==> !link.cardinality.ManyToMany? && KeySays(s, link, from, to, d)
  {
    hide IsUniqueKey, AloneUnique, Schema.Resolve;
    UniqueKeyIff(s.entities[from.0], from.1);
    UniqueKeyIff(s.entities[to.0], to.1);
  }

  // ----- cycles -----

  lemma GroupIff(g: Graph, n: nat, groups: seq<seq<nat>>, members: seq<nat>)
    requires IsCycleReport(g, n, groups) && Within(g, n)
    ensures members in groups <==>
      && |members| > 1 && Increasing(members) && members[0] < n
      && forall v: nat :: v in members <==> v < n && (v == members[0] || Mutual(g, v, members[0]))
  {
    hide Mutual;
    if members in groups {
      var k :| 0 <= k < |groups| && groups[k] == members;
      GroupIsClass(g, n, groups, k);
    }
    if |members| > 1 && Increasing(members) && members[0] < n
      && forall v: nat :: v in members <==> v < n && (v == members[0] || Mutual(g, v, members[0])) {
      ClassIsGroup(g, n, groups, members);
    }
  }

  lemma GroupIsClass(g: Graph, n: nat, groups: seq<seq<nat>>, k: nat)
    requires IsCycleReport(g, n, groups) && k < |groups|
    ensures |groups[k]| > 1 && Increasing(groups[k]) && groups[k][0] < n
    ensures forall v: nat :: v in groups[k] <==> v < n && (v == groups[k][0] || Mutual(g, v, groups[k][0]))
  {
    hide Mutual;
    var first := groups[k][0];
    assert first in groups[k];
    forall v: nat
      ensures v in groups[k] <==> v < n && (v == first || Mutual(g, v, first))
    {
      if v in groups[k] && v != first {
        assert Together(groups, v, first);
      }
      if v < n && v != first && Mutual(g, v, first) {
        assert Together(groups, v, first);
        var l :| 0 <= l < |groups| && v in groups[l] && first in groups[l];
        assert l == k;
      }
    }
  }

  lemma ClassIsGroup(g: Graph, n: nat, groups: seq<seq<nat>>, members: seq<nat>)
    requires IsCycleReport(g, n, groups) && |members| > 1 && Increasing(members) && members[0] < n
    requires forall v: nat :: v in members <==> v < n && (v == members[0] || Mutual(g, v, members[0]))
    ensures members in groups
  {
    hide Mutual;
    var first, second := members[0], members[1];
    assert second in members && second != first;
    assert Together(groups, second, first);
    var k :| 0 <= k < |groups| && second in groups[k] && first in groups[k];
    GroupIsClass(g, n, groups, k);
    forall v: nat
      ensures v in groups[k] <==> v in members
    {
      if v < n && v != first {
        assert Together(groups, v, first) <==> Mutual(g, v, first);
        GroupOfFirst(groups, k, v, first);
      }
    }
    IncreasingUnique(groups[k], members);
  }

  lemma GroupOfFirst(groups: seq<seq<nat>>, k: nat, v: nat, first: nat)
    requires k < |groups| && first in groups[k] && Disjoint(groups)
    ensures Together(groups, v, first) <==> v in groups[k]
  {
    if Together(groups, v, first) {
      var l :| 0 <= l < |groups| && v in groups[l] && first in groups[l];
      assert l == k;
    }
  }

  lemma CycleHas(s: Schema, cycles: seq<Diagnostic>, d: Diagnostic)
    requires Cycles.CycleFinding(s.entities, cycles)
    ensures d in cycles <==> CycleSays(s, d)
  {
    hide IsCycleReport, Mutual, Cycles.GroupDiagnostic, DependOnEachOther, SomeBlocked;
    var all, blocked :| Cycles.IsCycleFinding(s.entities, all, blocked, cycles);
    forall k | 0 <= k < |all|
      ensures DependOnEachOther(s.entities, all[k])
      ensures all[k] != [] && all[k][0] < |s.entities| && cycles[k] == GroupReport(s, all[k])
    {
      GroupReported(s, all, blocked, cycles, k);
    }
    forall members | DependOnEachOther(s.entities, members)
      ensures members in all
    {
      ClassReported(s, all, blocked, cycles, members);
    }
    ReportsAre(s, all, cycles, d);
  }

  ghost function GroupReport(s: Schema, members: seq<nat>): Diagnostic
    requires members != [] && members[0] < |s.entities|
  {
    Diagnostic(CircularDependency, if SomeBlocked(s.entities, members) then Error else Warning,
               TableIds(s.entities, members), Some(s.entities[members[0]].position))
  }

  lemma ReportsAre(s: Schema, all: seq<seq<nat>>, cycles: seq<Diagnostic>, d: Diagnostic)
    requires |cycles| == |all|
    requires forall k :: 0 <= k < |all| ==> DependOnEachOther(s.entities, all[k]) && cycles[k] == GroupReport(s, all[k])
    requires forall members :: DependOnEachOther(s.entities, members) ==> members in all
    ensures d in cycles <==> CycleSays(s, d)
  {
    hide SomeBlocked;
    if members :| DependOnEachOther(s.entities, members) && d == GroupReport(s, members) {
      var k :| 0 <= k < |all| && all[k] == members;
      assert cycles[k] == d;
    }
  }

  lemma ClassReported(s: Schema, all: seq<seq<nat>>, blocked: seq<seq<nat>>, cycles: seq<Diagnostic>, members: seq<nat>)
    requires Cycles.IsCycleFinding(s.entities, all, blocked, cycles) && DependOnEachOther(s.entities, members)
    ensures members in all
  {
    hide IsCycleReport, Mutual;
    Cycles.ReferencesShape(s.entities, false);
    GroupIff(Cycles.References(s.entities, false), |s.entities|, all, members);
  }

  lemma GroupReported(s: Schema, all: seq<seq<nat>>, blocked: seq<seq<nat>>, cycles: seq<Diagnostic>, k: nat)
    requires Cycles.IsCycleFinding(s.entities, all, blocked, cycles) && k < |all|
    ensures DependOnEachOther(s.entities, all[k])
    ensures all[k] != [] && all[k][0] < |s.entities| && cycles[k] == GroupReport(s, all[k])
  {
    hide IsCycleReport, Mutual;
    Cycles.ReferencesShape(s.entities, false);
    GroupIff(Cycles.References(s.entities, false), |s.entities|, all, all[k]);
    assert all[k] in all;
    Cycles.GroupErrorIffBlocked(s.entities, all, blocked, cycles, k);
    GroupIdsAre(s.entities, blocked, all[k]);
  }

  lemma GroupIdsAre(entities: seq<Entity>, blocked: seq<seq<nat>>, members: seq<nat>)
    requires members != [] && members[0] < |entities| && forall v :: v in members ==> v < |entities|
    ensures var d := Cycles.GroupDiagnostic(entities, blocked, members);
            d.code.CircularDependency? && d.elementIds == TableIds(entities, members) && d.location == Some(entities[members[0]].position)
  {
    assert forall i :: 0 <= i < |members| ==> members[i] in members;
  }

  // ----- the law -----

  lemma ColumnHas(s: Schema, e: Entity, a: Attribute, d: Diagnostic)
    ensures ColumnSays(s, e, a, d)
      <==> d in ColumnNameProblem(e, a) || d in ParameterProblem(e, a) || d in ReferenceProblem(s, e, a)
  {
    hide ColumnNameProblem, ParameterProblem, ReferenceProblem, ReferenceSays, GoodParameters, Blank;
    NameHas(e, a, d);
    ParameterHas(e, a, d);
    ReferenceHas(s, e, a, d);
  }

  lemma ColumnsHave(s: Schema, e: Entity, d: Diagnostic)
    ensures (exists k :: 0 <= k < |e.attributes| && ColumnSays(s, e, e.attributes[k], d)) <==>
      || d in Collect(e.attributes, ColumnNameProblems(e)) || d in Collect(e.attributes, ParameterProblems(e))
      || d in Collect(e.attributes, ReferenceProblems(s, e))
  {
    hide ColumnSays, ColumnNameProblem, ParameterProblem, ReferenceProblem, Collect;
    CollectHas(e.attributes, ColumnNameProblems(e), d);
    CollectHas(e.attributes, ParameterProblems(e), d);
    CollectHas(e.attributes, ReferenceProblems(s, e), d);
    forall k | 0 <= k < |e.attributes|
      ensures ColumnSays(s, e, e.attributes[k], d) <==>
        || d in ColumnNameProblem(e, e.attributes[k]) || d in ParameterProblem(e, e.attributes[k])
        || d in ReferenceProblem(s, e, e.attributes[k])
    {
      ColumnHas(s, e, e.attributes[k], d);
    }
  }

  lemma TableNameHas(e: Entity, d: Diagnostic)
    ensures d in TableNameProblem(e) <==> Blank(e.name) && d == Diagnostic(EmptyName, Error, [e.id], Some(e.position))
    ensures d in KeyProblem(e) <==> !e.HasPrimaryKey() && d == Diagnostic(MissingPrimaryKey, Error, [e.id], Some(e.position))
  {
    hide Trim, Blank, Entity.HasPrimaryKey;
    TrimFacts(e.name);
  }

  lemma TableHas(s: Schema, e: Entity, d: Diagnostic)
    ensures TableSays(s, e, d) <==>
      || d in NameProblems()(e) || d in TableParameterProblems()(e) || d in TableColumnClashes()(e) || d in MissingKeys()(e)
      || d in TableReferenceProblems(s)(e) || d in TableUndocumented()(e)
  {
    hide ColumnSays, TableNameProblem, KeyProblem, TableColumnClashes, TableUndocumented, Collect, Blank, ClashSays, SilenceSays, Entity.HasPrimaryKey;
    TableNameHas(e, d);
    ColumnsHave(s, e, d);
    ColumnClashHas(e, d);
    SilenceHas(e, d);
  }

  lemma TablesHave(s: Schema, d: Diagnostic)
    ensures (exists i :: 0 <= i < |s.entities| && TableSays(s, s.entities[i], d)) <==>
      || d in Collect(s.entities, NameProblems()) || d in Collect(s.entities, TableParameterProblems())
      || d in Collect(s.entities, TableColumnClashes()) || d in Collect(s.entities, MissingKeys())
      || d in Collect(s.entities, TableReferenceProblems(s)) || d in Collect(s.entities, TableUndocumented())
  {
    hide Collect, TableSays, NameProblems, TableParameterProblems, TableColumnClashes, MissingKeys, TableReferenceProblems, TableUndocumented;
    CollectHas(s.entities, NameProblems(), d);
    CollectHas(s.entities, TableParameterProblems(), d);
    CollectHas(s.entities, TableColumnClashes(), d);
    CollectHas(s.entities, MissingKeys(), d);
    CollectHas(s.entities, TableReferenceProblems(s), d);
    CollectHas(s.entities, TableUndocumented(), d);
    forall i | 0 <= i < |s.entities|
      ensures TableSays(s, s.entities[i], d) <==>
        || d in NameProblems()(s.entities[i]) || d in TableParameterProblems()(s.entities[i])
        || d in TableColumnClashes()(s.entities[i]) || d in MissingKeys()(s.entities[i])
        || d in TableReferenceProblems(s)(s.entities[i]) || d in TableUndocumented()(s.entities[i])
    {
      TableHas(s, s.entities[i], d);
    }
  }

  lemma LinesHave(s: Schema, d: Diagnostic)
    ensures (exists r :: 0 <= r < |s.relationships| && LineSays(s, s.relationships[r], d)) <==>
      || d in Collect(s.relationships, EndProblems(s)) || d in Collect(s.relationships, LineProblems(s))
      || d in Collect(s.relationships, LineUndocumented())
  {
    hide Collect, LineSays, EndProblem, LineProblem, LineUndocumented;
    CollectHas(s.relationships, EndProblems(s), d);
    CollectHas(s.relationships, LineProblems(s), d);
    CollectHas(s.relationships, LineUndocumented(), d);
    forall r | 0 <= r < |s.relationships|
      ensures LineSays(s, s.relationships[r], d) <==>
        || d in EndProblem(s, s.relationships[r]) || d in LineProblem(s, s.relationships[r])
        || d in LineUndocumented()(s.relationships[r])
    {
      LineHas(s, s.relationships[r], d);
    }
  }

  /** The report holds exactly what the rules say of the schema: nothing is
      missed, and nothing else is said. */
  lemma ReportedIff(s: Schema, diagnostics: seq<Diagnostic>, d: Diagnostic)
    requires IsVerdict(s, diagnostics)
    ensures d in diagnostics <==> Says(s, d)
  {
    hide Collect, TableSays, LineSays, TablesClashSays, CycleSays, SameNames, Cycles.CycleFinding;
    hide NameProblems, TableParameterProblems, TableColumnClashes, MissingKeys, TableReferenceProblems, TableUndocumented, LineUndocumented;
    var cycles :| Cycles.CycleFinding(s.entities, cycles) && diagnostics == Findings(s, cycles);
    TablesHave(s, d);
    LinesHave(s, d);
    TableClashHas(s, d);
    CycleHas(s, cycles, d);
  }

  /** With unique table ids, one table references another when one of its
      columns does by that table's id. */
  lemma ReferencesMean(entities: seq<Entity>, from: nat, to: nat)
    requires UniqueEntityIds(entities) && from < |entities| && to < |entities|
    ensures (from, to) in Cycles.References(entities, false) <==>
      from != to && exists k :: 0 <= k < |entities[from].attributes| && PointsInto(entities[from].attributes[k], entities[to].id)
  {
    var index, attributes := Cycles.Index(entities), entities[from].attributes;
    assert index[entities[to].id] == to;
    forall k | 0 <= k < |attributes|
      ensures Cycles.Refers(index, attributes[k], from, to) <==> PointsInto(attributes[k], entities[to].id) && from != to
    {
    }
  }

  predicate PointsInto(a: Attribute, entityId: string) {
    a.foreignKey.Some? && a.foreignKey.value.entityId == entityId
  }

  // ----- order -----

  /** Which of the ten checks reports a code. */
  function CheckOf(code: Code): nat {
    match code
    case EmptySchema => 1
    case EmptyName => 2
    case InvalidTypeParameter => 3
    case DanglingRelationship => 4
    case DuplicateEntityName => 5
    case DuplicateAttributeName => 5
    case MissingPrimaryKey => 6
    case InvalidForeignKey => 7
    case ForeignKeyNotAKey => 7
    case TypeMismatch => 7
    case RelationshipWithoutForeignKey => 8
    case CardinalityMismatch => 8
    case CircularDependency => 9
    case MissingDescription => 10
    case ImportSkipped => 11
  }

  /** Check by check, from the `low`-th to the `high`-th. */
  ghost predicate InOrderOf(ds: seq<Diagnostic>, low: nat, high: nat) {
    && (forall i :: 0 <= i < |ds| ==> low <= CheckOf(ds[i].code) <= high)
    && forall i, j :: 0 <= i < j < |ds| ==> CheckOf(ds[i].code) <= CheckOf(ds[j].code)
  }

  lemma OrderAppend(a: seq<Diagnostic>, b: seq<Diagnostic>, low: nat, middle: nat, high: nat)
    requires InOrderOf(a, low, middle) && InOrderOf(b, middle + 1, high) && low <= middle < high
    ensures InOrderOf(a + b, low, high)
  {
    hide CheckOf;
  }

  lemma OneCheck(ds: seq<Diagnostic>, check: nat)
    requires forall d :: d in ds ==> CheckOf(d.code) == check
    ensures InOrderOf(ds, check, check)
  {
    hide CheckOf;
    assert forall i :: 0 <= i < |ds| ==> ds[i] in ds;
  }

  lemma CollectOneCheck<T>(items: seq<T>, found: T -> seq<Diagnostic>, check: nat)
    requires forall item: T, d :: item in items && d in found(item) ==> CheckOf(d.code) == check
    ensures InOrderOf(Collect(items, found), check, check)
  {
    hide CheckOf, Collect;
    forall d | d in Collect(items, found)
      ensures CheckOf(d.code) == check
    {
      CollectHas(items, found, d);
      var i :| 0 <= i < |items| && d in found(items[i]);
      assert items[i] in items;
    }
    OneCheck(Collect(items, found), check);
  }

  lemma NamesInOrder(s: Schema)
    ensures InOrderOf(Collect(s.entities, NameProblems()), 2, 2)
  {
    hide Collect;
    forall e: Entity, d | d in NameProblems()(e)
      ensures CheckOf(d.code) == 2
    {
      CollectHas(e.attributes, ColumnNameProblems(e), d);
    }
    CollectOneCheck(s.entities, NameProblems(), 2);
  }

  lemma ParametersInOrder(s: Schema)
    ensures InOrderOf(Collect(s.entities, TableParameterProblems()), 3, 3)
  {
    hide Collect, BadParameters;
    forall e: Entity, d | d in TableParameterProblems()(e)
      ensures CheckOf(d.code) == 3
    {
      CollectHas(e.attributes, ParameterProblems(e), d);
    }
    CollectOneCheck(s.entities, TableParameterProblems(), 3);
  }

  lemma DuplicatesInOrder(s: Schema)
    ensures InOrderOf(Collect(SameNames(TableNames(s.entities)), TableClashes(s.entities)) + Collect(s.entities, TableColumnClashes()), 5, 5)
  {
    hide Collect, SameNames, InRange;
    CollectOneCheck(SameNames(TableNames(s.entities)), TableClashes(s.entities), 5);
    forall e: Entity, d | d in TableColumnClashes()(e)
      ensures CheckOf(d.code) == 5
    {
      CollectHas(SameNames(ColumnNames(e.attributes)), ColumnClashes(e), d);
    }
    CollectOneCheck(s.entities, TableColumnClashes(), 5);
    OneCheck(Collect(SameNames(TableNames(s.entities)), TableClashes(s.entities)) + Collect(s.entities, TableColumnClashes()), 5);
  }

  lemma ReferencesInOrder(s: Schema)
    ensures InOrderOf(Collect(s.entities, TableReferenceProblems(s)), 7, 7)
  {
    hide Collect, IsUniqueKey, Compatible, IsNarrower, Schema.Resolve;
    forall e: Entity, d | d in TableReferenceProblems(s)(e)
      ensures CheckOf(d.code) == 7
    {
      CollectHas(e.attributes, ReferenceProblems(s, e), d);
    }
    CollectOneCheck(s.entities, TableReferenceProblems(s), 7);
  }

  lemma LinesInOrder(s: Schema)
    ensures InOrderOf(Collect(s.relationships, EndProblems(s)), 4, 4)
    ensures InOrderOf(Collect(s.relationships, LineProblems(s)), 8, 8)
  {
    hide Collect, IsUniqueKey, PointsAt, Schema.Resolve, BothResolve, DanglingPlace;
    CollectOneCheck(s.relationships, EndProblems(s), 4);
    CollectOneCheck(s.relationships, LineProblems(s), 8);
  }

  lemma DescriptionsInOrder(s: Schema)
    ensures InOrderOf(DocumentationFindings(s), 10, 10)
  {
    hide Collect, UndocumentedIds, Entity.IsDocumented, Relationship.IsDocumented;
    CollectOneCheck(s.entities, TableUndocumented(), 10);
    CollectOneCheck(s.relationships, LineUndocumented(), 10);
    OneCheck(DocumentationFindings(s), 10);
  }

  lemma CyclesInOrder(s: Schema, cycles: seq<Diagnostic>)
    requires Cycles.CycleFinding(s.entities, cycles)
    ensures InOrderOf(cycles, 9, 9)
  {
    hide Cycles.CycleFinding, DependOnEachOther, SomeBlocked;
    forall d | d in cycles
      ensures CheckOf(d.code) == 9
    {
      CycleHas(s, cycles, d);
    }
    OneCheck(cycles, 9);
  }

  /** The report runs through the ten checks in their order. */
  lemma ReportedInOrder(s: Schema, diagnostics: seq<Diagnostic>)
    requires IsVerdict(s, diagnostics)
    ensures InOrderOf(diagnostics, 1, 10)
  {
    hide InOrderOf, Collect, SameNames, Cycles.CycleFinding, DocumentationFindings;
    var cycles :| Cycles.CycleFinding(s.entities, cycles) && diagnostics == Findings(s, cycles);
    var empty, names, parameters := EmptyProblem(s), Collect(s.entities, NameProblems()), Collect(s.entities, TableParameterProblems());
    var ends := Collect(s.relationships, EndProblems(s));
    var duplicates := Collect(SameNames(TableNames(s.entities)), TableClashes(s.entities)) + Collect(s.entities, TableColumnClashes());
    var keys, references := Collect(s.entities, MissingKeys()), Collect(s.entities, TableReferenceProblems(s));
    var lines := Collect(s.relationships, LineProblems(s));
    OneCheck(empty, 1);
    NamesInOrder(s);
    ParametersInOrder(s);
    LinesInOrder(s);
    DuplicatesInOrder(s);
    CollectOneCheck(s.entities, MissingKeys(), 6);
    ReferencesInOrder(s);
    CyclesInOrder(s, cycles);
    DescriptionsInOrder(s);
    OrderAppend(empty, names, 1, 1, 2);
    OrderAppend(empty + names, parameters, 1, 2, 3);
    OrderAppend(empty + names + parameters, ends, 1, 3, 4);
    var syntax := empty + names + parameters + ends;
    OrderAppend(syntax, duplicates, 1, 4, 5);
    OrderAppend(syntax + duplicates, keys, 1, 5, 6);
    assert syntax + (duplicates + keys) == syntax + duplicates + keys;
    OrderAppend(syntax + duplicates + keys, references, 1, 6, 7);
    OrderAppend(syntax + duplicates + keys + references, lines, 1, 7, 8);
    assert syntax + duplicates + keys + (references + lines) == syntax + duplicates + keys + references + lines;
    OrderAppend(syntax + duplicates + keys + references + lines, cycles, 1, 8, 9);
    OrderAppend(syntax + duplicates + keys + references + lines + cycles, DocumentationFindings(s), 1, 9, 10);
  }
}
