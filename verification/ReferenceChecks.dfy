/** Checks of foreign keys and of the lines drawn between columns. */
module ReferenceChecks {
  import opened Options
  import opened Domain
  import opened Diagnostics

  /** Flagged unique, or the whole key by itself. */
  predicate IsUniqueKey(e: Entity, a: Attribute) {
    a.unique || (a.primaryKey && |e.PrimaryKey()| == 1)
  }

  predicate Compatible(a: DataType, b: DataType) {
    a.kind.Family() == b.kind.Family()
  }

  function Width(kind: DataTypeKind): nat {
    match kind
    case SmallInt => 2
    case Integer => 4
    case _ => 8
  }

  function Bound(t: DataType): Option<U32> {
    if t.kind == DataTypeKind.Text then None else t.length
  }

  predicate IsNarrower(column: DataType, key: DataType) {
    match column.kind.Family()
    case Integral => Width(column.kind) < Width(key.kind)
    case Textual =>
      (match (Bound(column), Bound(key))
       case (Some(c), Some(k)) => c < k
       case (Some(_), None) => true
       case (None, _) => false)
    case _ => false
  }

  // ----- foreign keys -----

  function NotAKey(e: Entity, a: Attribute, target: Entity, key: Attribute): seq<Diagnostic> {
    if IsUniqueKey(target, key) then []
    else [Diagnostic(ForeignKeyNotAKey, Error, [e.id, a.id, target.id, key.id], Some(e.position))]
  }

  function Mismatch(e: Entity, a: Attribute, target: Entity, key: Attribute): seq<Diagnostic> {
    var ids := [e.id, a.id, target.id, key.id];
    if !Compatible(a.dataType, key.dataType) then [Diagnostic(TypeMismatch, Error, ids, Some(e.position))]
    else if IsNarrower(a.dataType, key.dataType) then [Diagnostic(TypeMismatch, Warning, ids, Some(e.position))]
    else []
  }

  function ReferenceProblem(s: Schema, e: Entity, a: Attribute): seq<Diagnostic> {
    match a.foreignKey
    case None => []
    case Some(reference) =>
      match s.Resolve(reference.entityId, reference.attributeId)
      case None => [Diagnostic(InvalidForeignKey, Error, [e.id, a.id], Some(e.position))]
      case Some((t, k)) =>
        NotAKey(e, a, s.entities[t], s.entities[t].attributes[k]) + Mismatch(e, a, s.entities[t], s.entities[t].attributes[k])
  }

  function ReferenceProblems(s: Schema, e: Entity): Attribute -> seq<Diagnostic> {
    (a: Attribute) => ReferenceProblem(s, e, a)
  }

  function TableReferenceProblems(s: Schema): Entity -> seq<Diagnostic> {
    (e: Entity) => Collect(e.attributes, ReferenceProblems(s, e))
  }

  method CheckReference(s: Schema, e: Entity, a: Attribute, report: Report)
    modifies report
    ensures report.diagnostics == old(report.diagnostics) + ReferenceProblem(s, e, a)
  {
    hide IsUniqueKey, Compatible, IsNarrower;
    if a.foreignKey.None? {
      return;
    }
    match s.Resolve(a.foreignKey.value.entityId, a.foreignKey.value.attributeId) {
      case None =>
        report.Push(Diagnostic(InvalidForeignKey, Error, [e.id, a.id], Some(e.position)));
      case Some(found) =>
        var target := s.entities[found.0];
        var key := target.attributes[found.1];
        var ids := [e.id, a.id, target.id, key.id];
        if !IsUniqueKey(target, key) {
          report.Push(Diagnostic(ForeignKeyNotAKey, Error, ids, Some(e.position)));
        }
        if !Compatible(a.dataType, key.dataType) {
          report.Push(Diagnostic(TypeMismatch, Error, ids, Some(e.position)));
        } else if IsNarrower(a.dataType, key.dataType) {
          report.Push(Diagnostic(TypeMismatch, Warning, ids, Some(e.position)));
        }
    }
  }

  method CheckForeignKeys(s: Schema, report: Report)
    modifies report
    ensures report.diagnostics == old(report.diagnostics) + Collect(s.entities, TableReferenceProblems(s))
  {
    hide ReferenceProblem;
    for i := 0 to |s.entities|
      invariant report.diagnostics == old(report.diagnostics) + Collect(s.entities[..i], TableReferenceProblems(s))
    {
      CollectStep(s.entities, TableReferenceProblems(s), i);
      var e := s.entities[i];
      ghost var start := report.diagnostics;
      for k := 0 to |e.attributes|
        invariant report.diagnostics == start + Collect(e.attributes[..k], ReferenceProblems(s, e))
      {
        CollectStep(e.attributes, ReferenceProblems(s, e), k);
        CheckReference(s, e, e.attributes[k], report);
      }
      assert e.attributes[..|e.attributes|] == e.attributes;
    }
    assert s.entities[..|s.entities|] == s.entities;
  }

  // ----- relationships -----

  predicate PointsAt(a: Attribute, e: Entity, key: Attribute) {
    a.foreignKey == Some(ForeignKeyRef(e.id, key.id))
  }

  function CardinalityProblem(link: Relationship, holder: Entity, column: Attribute): seq<Diagnostic> {
    var unique := IsUniqueKey(holder, column);
    if (link.cardinality.OneToOne? && !unique) || (link.cardinality.OneToMany? && unique) then
      [Diagnostic(CardinalityMismatch, Warning, [link.id, holder.id, column.id], Some(holder.position))]
    else []
  }

  /** The column that holds the key is looked for at both ends. */
  function LineProblem(s: Schema, link: Relationship): seq<Diagnostic> {
    if link.cardinality.ManyToMany? then []
    else
      match (s.Resolve(link.fromEntityId, link.fromAttributeId), s.Resolve(link.toEntityId, link.toAttributeId))
      case (Some((f, fk)), Some((t, tk))) =>
        var fromEntity, toEntity := s.entities[f], s.entities[t];
        var from, to := fromEntity.attributes[fk], toEntity.attributes[tk];
        if PointsAt(from, toEntity, to) then CardinalityProblem(link, fromEntity, from)
        else if PointsAt(to, fromEntity, from) then CardinalityProblem(link, toEntity, to)
        else [Diagnostic(RelationshipWithoutForeignKey, Error, [link.id], Some(fromEntity.position))]
      case _ => []
  }

  function LineProblems(s: Schema): Relationship -> seq<Diagnostic> {
    (link: Relationship) => LineProblem(s, link)
  }

  method CheckRelationship(s: Schema, link: Relationship, report: Report)
    modifies report
    ensures report.diagnostics == old(report.diagnostics) + LineProblem(s, link)
  {
    hide IsUniqueKey, PointsAt, Schema.Resolve;
    if link.cardinality.ManyToMany? {
      return;
    }
    var fromAt := s.Resolve(link.fromEntityId, link.fromAttributeId);
    var toAt := s.Resolve(link.toEntityId, link.toAttributeId);
    if fromAt.None? || toAt.None? {
      return;
    }
    var fromEntity, toEntity := s.entities[fromAt.value.0], s.entities[toAt.value.0];
    var from, to := fromEntity.attributes[fromAt.value.1], toEntity.attributes[toAt.value.1];
    var holder, column := fromEntity, from;
    if !PointsAt(from, toEntity, to) {
      if !PointsAt(to, fromEntity, from) {
        report.Push(Diagnostic(RelationshipWithoutForeignKey, Error, [link.id], Some(fromEntity.position)));
        return;
      }
      holder, column := toEntity, to;
    }
    var unique := IsUniqueKey(holder, column);
    if (link.cardinality.OneToOne? && !unique) || (link.cardinality.OneToMany? && unique) {
      report.Push(Diagnostic(CardinalityMismatch, Warning, [link.id, holder.id, column.id], Some(holder.position)));
    }
  }

  method CheckRelationships(s: Schema, report: Report)
    modifies report
    ensures report.diagnostics == old(report.diagnostics) + Collect(s.relationships, LineProblems(s))
  {
    hide LineProblem;
    for i := 0 to |s.relationships|
      invariant report.diagnostics == old(report.diagnostics) + Collect(s.relationships[..i], LineProblems(s))
    {
      CollectStep(s.relationships, LineProblems(s), i);
      CheckRelationship(s, s.relationships[i], report);
    }
    assert s.relationships[..|s.relationships|] == s.relationships;
  }
}
