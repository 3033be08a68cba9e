/** The ten checks in order, and the one predicate they decide together. */
module Verifier {
  import opened Options
  import opened Strings
  import opened Domain
  import opened Diagnostics
  import opened Graphs
  import opened SyntaxChecks
  import opened StructureChecks
  import opened ReferenceChecks
  import Cycles
  import opened DocumentationCheck

  // ----- the run of checks -----

  function SyntaxFindings(s: Schema): seq<Diagnostic> {
    EmptyProblem(s)
    + Collect(s.entities, NameProblems())
    + Collect(s.entities, TableParameterProblems())
    + Collect(s.relationships, EndProblems(s))
  }

  function StructureFindings(s: Schema): seq<Diagnostic> {
    Collect(SameNames(TableNames(s.entities)), TableClashes(s.entities))
    + Collect(s.entities, TableColumnClashes())
    + Collect(s.entities, MissingKeys())
  }

  function ReferenceFindings(s: Schema): seq<Diagnostic> {
    Collect(s.entities, TableReferenceProblems(s)) + Collect(s.relationships, LineProblems(s))
  }

  function DocumentationFindings(s: Schema): seq<Diagnostic> {
    Collect(s.entities, TableUndocumented()) + Collect(s.relationships, LineUndocumented())
  }

  /** The whole report, given what the cycle check adds to it. */
  function Findings(s: Schema, cycles: seq<Diagnostic>): seq<Diagnostic> {
    SyntaxFindings(s) + StructureFindings(s) + ReferenceFindings(s) + cycles + DocumentationFindings(s)
  }

  ghost predicate IsVerdict(s: Schema, diagnostics: seq<Diagnostic>) {
    exists cycles :: Cycles.CycleFinding(s.entities, cycles) && diagnostics == Findings(s, cycles)
  }

  method CheckSyntax(s: Schema, report: Report)
    modifies report
    ensures report.diagnostics == old(report.diagnostics) + SyntaxFindings(s)
  {
    hide EmptyProblem, Collect;
    CheckNotEmpty(s, report);
    CheckNames(s, report);
    CheckTypeParameters(s, report);
    CheckRelationshipEnds(s, report);
  }

  method CheckStructure(s: Schema, report: Report)
    modifies report
    ensures report.diagnostics == old(report.diagnostics) + StructureFindings(s)
  {
    hide SameNames, Collect;
    CheckDuplicateNames(s, report);
    CheckPrimaryKeys(s, report);
  }

  method CheckReferences(s: Schema, report: Report)
    modifies report
    ensures report.diagnostics == old(report.diagnostics) + ReferenceFindings(s)
  {
    hide Collect;
    CheckForeignKeys(s, report);
    CheckRelationships(s, report);
  }

  method Verify(s: Schema) returns (report: Report)
    ensures fresh(report) && IsVerdict(s, report.diagnostics)
  {
    hide SyntaxFindings, StructureFindings, ReferenceFindings, Collect, Cycles.CycleFinding;
    report := new Report();
    CheckSyntax(s, report);
    CheckStructure(s, report);
    CheckReferences(s, report);
    ghost var cycles := Cycles.CheckCycles(s, report);
    CheckDocumentation(s, report);
    assert report.diagnostics == Findings(s, cycles);
  }

  /** The report is fixed by the schema. */
  lemma VerdictUnique(s: Schema, a: seq<Diagnostic>, b: seq<Diagnostic>)
    requires IsVerdict(s, a) && IsVerdict(s, b)
    ensures a == b
  {
    hide Findings, Cycles.CycleFinding;
    var c :| Cycles.CycleFinding(s.entities, c) && a == Findings(s, c);
    var d :| Cycles.CycleFinding(s.entities, d) && b == Findings(s, d);
    Cycles.CycleFindingUnique(s.entities, c, d);
  }

  // ----- what it is to be well formed -----

  predicate GoodParameters(t: DataType) {
    && (t.kind.TakesLength() ==> t.length.Some? ==> 1 <= t.length.value <= MAX_LENGTH)
    && (t.kind.TakesPrecision() ==>
          && (t.scale.Some? ==> t.precision.Some? && t.scale.value <= MAX_PRECISION)
          && (t.precision.Some? ==> 1 <= t.precision.value <= MAX_PRECISION))
  }

  predicate ColumnFormed(a: Attribute) {
    !Blank(a.name) && GoodParameters(a.dataType)
  }

  /** No two names are the same once trimmed and in lower case. */
  predicate NamesApart(names: seq<string>) {
    forall i, j :: 0 <= i < j < |names| ==> Folded(names[i]) != Folded(names[j])
  }

  predicate TableFormed(e: Entity) {
    && !Blank(e.name) && e.HasPrimaryKey() && NamesApart(ColumnNames(e.attributes))
    && forall k :: 0 <= k < |e.attributes| ==> ColumnFormed(e.attributes[k])
  }

  /** No other row of `e` can repeat what its column `k` holds. */
  predicate AloneUnique(e: Entity, k: nat) {
    k < |e.attributes|
    && (e.attributes[k].unique
        || (e.attributes[k].primaryKey && forall j :: 0 <= j < |e.attributes| && j != k ==> !e.attributes[j].primaryKey))
  }

  /** The reference leads to a column that is unique and of the same family. */
  predicate KeySound(s: Schema, a: Attribute) {
    a.foreignKey.Some? ==>
      var at := s.Resolve(a.foreignKey.value.entityId, a.foreignKey.value.attributeId);
      && at.Some? && AloneUnique(s.entities[at.value.0], at.value.1)
      && s.entities[at.value.0].attributes[at.value.1].dataType.kind.Family() == a.dataType.kind.Family()
  }

  /** The first end is a foreign key to the second. */
  predicate HoldsKey(s: Schema, entityId: string, attributeId: string, targetId: string, keyId: string) {
    var at := s.Resolve(entityId, attributeId);
    && at.Some?
    && s.entities[at.value.0].attributes[at.value.1].foreignKey == Some(ForeignKeyRef(targetId, keyId))
  }

  predicate LineFormed(s: Schema, r: Relationship) {
    && BothResolve(s, r)
    && (r.cardinality.ManyToMany?
        || HoldsKey(s, r.fromEntityId, r.fromAttributeId, r.toEntityId, r.toAttributeId)
        || HoldsKey(s, r.toEntityId, r.toAttributeId, r.fromEntityId, r.fromAttributeId))
  }

  ghost function NeedsGraph(entities: seq<Entity>): Graph {
    set from: nat, to: nat | from < |entities| && to < |entities| && Cycles.Needs(entities, from, to) :: (from, to)
  }

  /** No two tables need each other, directly or through others, by NOT NULL
      columns. */
  ghost predicate NoRequiredCycle(entities: seq<Entity>) {
    forall u, v :: u != v ==> !Mutual(NeedsGraph(entities), u, v)
  }

  ghost predicate WellFormed(s: Schema) {
    && NamesApart(TableNames(s.entities))
    && (forall i :: 0 <= i < |s.entities| ==> TableFormed(s.entities[i]))
    && (forall i, k :: 0 <= i < |s.entities| && 0 <= k < |s.entities[i].attributes| ==>
          KeySound(s, s.entities[i].attributes[k]))
    && (forall r :: 0 <= r < |s.relationships| ==> LineFormed(s, s.relationships[r]))
    && NoRequiredCycle(s.entities)
  }

  // ----- one check at a time -----

  lemma OneError(d: Diagnostic)
    requires d.IsError()
    ensures !IsValid([d])
  {
    assert [d][0] == d;
  }

  lemma ColumnNameValid(e: Entity, a: Attribute)
    ensures IsValid(ColumnNameProblem(e, a)) <==> !Blank(a.name)
  {
    TrimFacts(a.name);
    if Blank(a.name) {
      OneError(ColumnNameProblem(e, a)[0]);
    }
  }

  lemma TableNameValid(e: Entity)
    ensures IsValid(TableNameProblem(e)) <==> !Blank(e.name)
  {
    TrimFacts(e.name);
    if Blank(e.name) {
      OneError(TableNameProblem(e)[0]);
    }
  }

  predicate TableNamed(e: Entity) {
    !Blank(e.name) && forall k :: 0 <= k < |e.attributes| ==> !Blank(e.attributes[k].name)
  }

  lemma NamesValid(e: Entity)
    ensures IsValid(NameProblems()(e)) <==> TableNamed(e)
  {
    hide Blank, ColumnNameProblem, TableNameProblem, IsValid, Collect;
    var found := ColumnNameProblems(e);
    TableNameValid(e);
    CollectValid(e.attributes, found);
    IsValidAppend(TableNameProblem(e), Collect(e.attributes, found));
    forall k | 0 <= k < |e.attributes|
      ensures IsValid(found(e.attributes[k])) <==> !Blank(e.attributes[k].name)
    {
      ColumnNameValid(e, e.attributes[k]);
    }
  }

  lemma ParameterValid(e: Entity, a: Attribute)
    ensures IsValid(ParameterProblem(e, a)) <==> GoodParameters(a.dataType)
  {
    ParametersBadIff(a.dataType);
    if BadParameters(a.dataType) {
      OneError(ParameterProblem(e, a)[0]);
    }
  }

  lemma ParametersBadIff(t: DataType)
    ensures BadParameters(t) <==> !GoodParameters(t)
  {
  }

  lemma ParametersValid(e: Entity)
    ensures IsValid(TableParameterProblems()(e)) <==> forall k :: 0 <= k < |e.attributes| ==> GoodParameters(e.attributes[k].dataType)
  {
    hide ParameterProblem, GoodParameters, IsValid, Collect;
    var found := ParameterProblems(e);
    CollectValid(e.attributes, found);
    forall k | 0 <= k < |e.attributes|
      ensures IsValid(found(e.attributes[k])) <==> GoodParameters(e.attributes[k].dataType)
    {
      ParameterValid(e, e.attributes[k]);
    }
  }

  lemma EndsValid(s: Schema, r: Relationship)
    ensures IsValid(EndProblem(s, r)) <==> BothResolve(s, r)
  {
    hide BothResolve, DanglingPlace;
    if !BothResolve(s, r) {
      OneError(EndProblem(s, r)[0]);
    }
  }

  lemma KeyValid(e: Entity)
    ensures IsValid(KeyProblem(e)) <==> e.HasPrimaryKey()
  {
    hide Entity.HasPrimaryKey;
    if !e.HasPrimaryKey() {
      OneError(KeyProblem(e)[0]);
    }
  }

  lemma {:induction false} NoKeyColumns(attributes: seq<Attribute>)
    ensures KeyColumns(attributes) == [] <==> forall j :: 0 <= j < |attributes| ==> !attributes[j].primaryKey
  {
    if attributes != [] {
      NoKeyColumns(attributes[1..]);
      assert forall j :: 0 < j < |attributes| ==> attributes[j] == attributes[1..][j - 1];
    }
  }

  /** A key column is the whole key when no other column is in it. */
  lemma {:induction false} WholeKey(attributes: seq<Attribute>, k: nat)
    requires k < |attributes| && attributes[k].primaryKey
    ensures |KeyColumns(attributes)| == 1 <==> forall j :: 0 <= j < |attributes| && j != k ==> !attributes[j].primaryKey
  {
    var tail := attributes[1..];
    assert forall j :: 0 < j < |attributes| ==> attributes[j] == tail[j - 1];
    NoKeyColumns(tail);
    if k == 0 {
      assert |KeyColumns(attributes)| == 1 + |KeyColumns(tail)|;
    } else {
      WholeKey(tail, k - 1);
      assert tail[k - 1].primaryKey;
      if attributes[0].primaryKey {
        assert |KeyColumns(attributes)| == 1 + |KeyColumns(tail)|;
      } else {
        assert forall j :: 0 <= j < |tail| && j != k - 1 ==> tail[j] == attributes[j + 1];
      }
    }
  }

  lemma UniqueKeyIff(e: Entity, k: nat)
    requires k < |e.attributes|
    ensures IsUniqueKey(e, e.attributes[k]) <==> AloneUnique(e, k)
  {
    if e.attributes[k].primaryKey {
      WholeKey(e.attributes, k);
    }
  }

  lemma ReferenceValid(s: Schema, e: Entity, a: Attribute)
    ensures IsValid(ReferenceProblem(s, e, a)) <==> KeySound(s, a)
  {
    hide IsUniqueKey, AloneUnique, IsNarrower, DataTypeKind.Family;
    if a.foreignKey.Some? {
      match s.Resolve(a.foreignKey.value.entityId, a.foreignKey.value.attributeId) {
        case None =>
          OneError(ReferenceProblem(s, e, a)[0]);
        case Some(found) =>
          var target, k := s.entities[found.0], found.1;
          UniqueKeyIff(target, k);
          IsValidAppend(NotAKey(e, a, target, target.attributes[k]), Mismatch(e, a, target, target.attributes[k]));
          NotAKeyValid(e, a, target, target.attributes[k]);
          MismatchValid(e, a, target, target.attributes[k]);
      }
    }
  }

  lemma NotAKeyValid(e: Entity, a: Attribute, target: Entity, key: Attribute)
    ensures IsValid(NotAKey(e, a, target, key)) <==> IsUniqueKey(target, key)
  {
    hide IsUniqueKey;
    if !IsUniqueKey(target, key) {
      OneError(NotAKey(e, a, target, key)[0]);
    }
  }

  lemma MismatchValid(e: Entity, a: Attribute, target: Entity, key: Attribute)
    ensures IsValid(Mismatch(e, a, target, key)) <==> key.dataType.kind.Family() == a.dataType.kind.Family()
  {
    hide IsNarrower, DataTypeKind.Family;
    if !Compatible(a.dataType, key.dataType) {
      OneError(Mismatch(e, a, target, key)[0]);
    }
  }

  lemma ReferencesValid(s: Schema, e: Entity)
    ensures IsValid(TableReferenceProblems(s)(e)) <==> forall k :: 0 <= k < |e.attributes| ==> KeySound(s, e.attributes[k])
  {
    hide ReferenceProblem, KeySound, IsValid, Collect;
    var found := ReferenceProblems(s, e);
    CollectValid(e.attributes, found);
    forall k | 0 <= k < |e.attributes|
      ensures IsValid(found(e.attributes[k])) <==> KeySound(s, e.attributes[k])
    {
      ReferenceValid(s, e, e.attributes[k]);
    }
  }

  lemma LineValid(s: Schema, r: Relationship)
    ensures BothResolve(s, r) ==> (IsValid(LineProblem(s, r)) <==> LineFormed(s, r))
  {
    hide IsUniqueKey, Schema.EntityAt;
    if BothResolve(s, r) && !LineFormed(s, r) {
      OneError(LineProblem(s, r)[0]);
    }
  }

  lemma FoldedBlank(name: string)
    ensures Folded(name) == "" <==> Blank(name)
  {
    TrimFacts(name);
    assert |Folded(name)| == |Trim(name)|;
  }

  lemma ApartIffNoClash(names: seq<string>)
    requires forall i :: 0 <= i < |names| ==> !Blank(names[i])
    ensures NamesApart(names) <==> forall i: nat, j: nat :: !Clash(names, i, j)
  {
    hide Folded, Blank;
    forall i | 0 <= i < |names|
      ensures Folded(names[i]) != ""
    {
      FoldedBlank(names[i]);
    }
    if !NamesApart(names) {
      var i, j :| 0 <= i < j < |names| && Folded(names[i]) == Folded(names[j]);
      assert Clash(names, i, j);
    }
  }

  lemma CyclesValid(entities: seq<Entity>, cycles: seq<Diagnostic>)
    requires UniqueEntityIds(entities) && Cycles.CycleFinding(entities, cycles)
    ensures IsValid(cycles) <==> NoRequiredCycle(entities)
  {
    hide Cycles.CycleFinding, Cycles.Needs, Mutual, IsValid;
    Cycles.ErrorIffRequiredCycle(entities, cycles);
    forall e
      ensures e in Cycles.References(entities, true) <==> e in NeedsGraph(entities)
    {
      Cycles.RequiredMeansNeeds(entities, e.0, e.1);
      Cycles.ReferencesShape(entities, true);
    }
    assert Cycles.References(entities, true) == NeedsGraph(entities);
  }

  lemma DocumentationValid(s: Schema)
    ensures IsValid(DocumentationFindings(s))
  {
    hide Collect, Entity.IsDocumented, Relationship.IsDocumented, UndocumentedIds;
    CollectValid(s.entities, TableUndocumented());
    CollectValid(s.relationships, LineUndocumented());
    IsValidAppend(Collect(s.entities, TableUndocumented()), Collect(s.relationships, LineUndocumented()));
  }

  lemma EmptyValid(s: Schema)
    ensures IsValid(EmptyProblem(s))
  {
  }

  // ----- all of them -----

  lemma SyntaxValid(s: Schema)
    ensures IsValid(SyntaxFindings(s)) <==>
      && (forall i :: 0 <= i < |s.entities| ==> TableNamed(s.entities[i]))
      && (forall i, k :: 0 <= i < |s.entities| && 0 <= k < |s.entities[i].attributes| ==>
            GoodParameters(s.entities[i].attributes[k].dataType))
      && (forall r :: 0 <= r < |s.relationships| ==> BothResolve(s, s.relationships[r]))
  {
    hide Collect, IsValid, NameProblems, TableParameterProblems, EndProblem, TableNamed, GoodParameters, BothResolve, EmptyProblem;
    var names, parameters := NameProblems(), TableParameterProblems();
    EmptyValid(s);
    CollectValid(s.entities, names);
    CollectValid(s.entities, parameters);
    CollectValid(s.relationships, EndProblems(s));
    IsValidAppend(EmptyProblem(s), Collect(s.entities, names));
    IsValidAppend(EmptyProblem(s) + Collect(s.entities, names), Collect(s.entities, parameters));
    IsValidAppend(EmptyProblem(s) + Collect(s.entities, names) + Collect(s.entities, parameters), Collect(s.relationships, EndProblems(s)));
    forall i | 0 <= i < |s.entities|
      ensures IsValid(names(s.entities[i])) <==> TableNamed(s.entities[i])
      ensures IsValid(parameters(s.entities[i])) <==>
        forall k :: 0 <= k < |s.entities[i].attributes| ==> GoodParameters(s.entities[i].attributes[k].dataType)
    {
      NamesValid(s.entities[i]);
      ParametersValid(s.entities[i]);
    }
    forall r | 0 <= r < |s.relationships|
      ensures IsValid(EndProblems(s)(s.relationships[r])) <==> BothResolve(s, s.relationships[r])
    {
      EndsValid(s, s.relationships[r]);
    }
  }

  ghost predicate NoClash(names: seq<string>) {
    forall i: nat, j: nat :: !Clash(names, i, j)
  }

  lemma StructureValid(s: Schema)
    ensures IsValid(StructureFindings(s)) <==>
      && NoClash(TableNames(s.entities))
      && (forall i :: 0 <= i < |s.entities| ==> NoClash(ColumnNames(s.entities[i].attributes)))
      && (forall i :: 0 <= i < |s.entities| ==> s.entities[i].HasPrimaryKey())
  {
    hide Collect, IsValid, TableColumnClashes, KeyProblem, TableClashes, SameNames, Clash, Entity.HasPrimaryKey;
    var tables := Collect(SameNames(TableNames(s.entities)), TableClashes(s.entities));
    var columns, keys := TableColumnClashes(), MissingKeys();
    NoTableClashIff(s);
    CollectValid(s.entities, columns);
    CollectValid(s.entities, keys);
    IsValidAppend(tables, Collect(s.entities, columns));
    IsValidAppend(tables + Collect(s.entities, columns), Collect(s.entities, keys));
    forall i | 0 <= i < |s.entities|
      ensures IsValid(columns(s.entities[i])) <==> NoClash(ColumnNames(s.entities[i].attributes))
      ensures IsValid(keys(s.entities[i])) <==> s.entities[i].HasPrimaryKey()
    {
      NoColumnClashIff(s.entities[i]);
      KeyValid(s.entities[i]);
    }
  }

  lemma ReferenceFindingsValid(s: Schema)
    ensures IsValid(ReferenceFindings(s)) <==>
      && (forall i, k :: 0 <= i < |s.entities| && 0 <= k < |s.entities[i].attributes| ==> KeySound(s, s.entities[i].attributes[k]))
      && (forall r :: 0 <= r < |s.relationships| ==> IsValid(LineProblem(s, s.relationships[r])))
  {
    hide Collect, IsValid, TableReferenceProblems, LineProblem, KeySound;
    var keys := TableReferenceProblems(s);
    CollectValid(s.entities, keys);
    CollectValid(s.relationships, LineProblems(s));
    IsValidAppend(Collect(s.entities, keys), Collect(s.relationships, LineProblems(s)));
    forall i | 0 <= i < |s.entities|
      ensures IsValid(keys(s.entities[i])) <==>
        forall k :: 0 <= k < |s.entities[i].attributes| ==> KeySound(s, s.entities[i].attributes[k])
    {
      ReferencesValid(s, s.entities[i]);
    }
    forall r | 0 <= r < |s.relationships|
      ensures IsValid(LineProblems(s)(s.relationships[r])) <==> IsValid(LineProblem(s, s.relationships[r]))
    {
    }
  }

  lemma TablesFormedIff(s: Schema)
    requires forall i :: 0 <= i < |s.entities| ==> TableNamed(s.entities[i])
    ensures NamesApart(TableNames(s.entities)) <==> NoClash(TableNames(s.entities))
    ensures forall i :: 0 <= i < |s.entities| ==>
      (NamesApart(ColumnNames(s.entities[i].attributes)) <==> NoClash(ColumnNames(s.entities[i].attributes)))
  {
    hide Blank, NamesApart, Clash;
    ApartIffNoClash(TableNames(s.entities));
    forall i | 0 <= i < |s.entities|
      ensures NamesApart(ColumnNames(s.entities[i].attributes)) <==> NoClash(ColumnNames(s.entities[i].attributes))
    {
      assert TableNamed(s.entities[i]);
      ApartIffNoClash(ColumnNames(s.entities[i].attributes));
    }
  }

  lemma FindingsValid(s: Schema, cycles: seq<Diagnostic>)
    ensures IsValid(Findings(s, cycles)) <==>
      IsValid(SyntaxFindings(s)) && IsValid(StructureFindings(s)) && IsValid(ReferenceFindings(s)) && IsValid(cycles)
  {
    hide SyntaxFindings, StructureFindings, ReferenceFindings, DocumentationFindings, IsValid;
    var a, b, c, d := SyntaxFindings(s), StructureFindings(s), ReferenceFindings(s), DocumentationFindings(s);
    DocumentationValid(s);
    IsValidAppend(a, b);
    IsValidAppend(a + b, c);
    IsValidAppend(a + b + c, cycles);
    IsValidAppend(a + b + c + cycles, d);
  }

  lemma TableFormedIs(e: Entity)
    ensures TableFormed(e) <==>
      && TableNamed(e) && e.HasPrimaryKey() && NamesApart(ColumnNames(e.attributes))
      && forall k :: 0 <= k < |e.attributes| ==> GoodParameters(e.attributes[k].dataType)
  {
    hide Blank, NamesApart, GoodParameters, Entity.HasPrimaryKey;
    if TableFormed(e) {
      assert forall k :: 0 <= k < |e.attributes| ==> ColumnFormed(e.attributes[k]);
    }
  }

  /** The verifier is a decision procedure: with unique table ids it reports no
      error exactly when the schema is well formed. */
  lemma NoErrorIffWellFormed(s: Schema, diagnostics: seq<Diagnostic>)
    requires UniqueEntityIds(s.entities) && IsVerdict(s, diagnostics)
    ensures IsValid(diagnostics) <==> WellFormed(s)
  {
    hide Cycles.CycleFinding, Findings, SyntaxFindings, StructureFindings, ReferenceFindings, IsValid, LineProblem;
    hide TableFormed, TableNamed, GoodParameters, BothResolve, KeySound, LineFormed, NoRequiredCycle, NamesApart, NoClash, Entity.HasPrimaryKey;
    var cycles :| Cycles.CycleFinding(s.entities, cycles) && diagnostics == Findings(s, cycles);
    FindingsValid(s, cycles);
    SyntaxValid(s);
    StructureValid(s);
    ReferenceFindingsValid(s);
    CyclesValid(s.entities, cycles);
    forall i | 0 <= i < |s.entities|
      ensures TableFormed(s.entities[i]) <==>
        && TableNamed(s.entities[i]) && s.entities[i].HasPrimaryKey() && NamesApart(ColumnNames(s.entities[i].attributes))
        && forall k :: 0 <= k < |s.entities[i].attributes| ==> GoodParameters(s.entities[i].attributes[k].dataType)
    {
      TableFormedIs(s.entities[i]);
    }
    forall r | 0 <= r < |s.relationships|
      ensures LineFormed(s, s.relationships[r]) ==> BothResolve(s, s.relationships[r])
      ensures BothResolve(s, s.relationships[r]) ==>
        (IsValid(LineProblem(s, s.relationships[r])) <==> LineFormed(s, s.relationships[r]))
    {
      LineValid(s, s.relationships[r]);
      FormedResolves(s, s.relationships[r]);
    }
    if forall i :: 0 <= i < |s.entities| ==> TableNamed(s.entities[i]) {
      TablesFormedIff(s);
    }
  }

  lemma FormedResolves(s: Schema, r: Relationship)
    ensures LineFormed(s, r) ==> BothResolve(s, r)
  {
  }
}
