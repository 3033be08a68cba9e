/** Checks that the diagram is well formed: names, type parameters, and lines
    that end somewhere. */
module SyntaxChecks {
  import opened Options
  import opened Strings
  import opened Domain
  import opened Diagnostics

  const MAX_LENGTH := 10_485_760
  const MAX_PRECISION := 1000

  function EmptyProblem(s: Schema): seq<Diagnostic> {
    if s.entities == [] then [Diagnostic(EmptySchema, Warning, [], None)] else []
  }

  method CheckNotEmpty(s: Schema, report: Report)
    modifies report
    ensures report.diagnostics == old(report.diagnostics) + EmptyProblem(s)
  {
    if s.entities == [] {
      report.Push(Diagnostic(EmptySchema, Warning, [], None));
    }
  }

  // ----- names -----

  function ColumnNameProblem(e: Entity, a: Attribute): seq<Diagnostic> {
    if Trim(a.name) == "" then [Diagnostic(EmptyName, Error, [e.id, a.id], Some(e.position))] else []
  }

  function ColumnNameProblems(e: Entity): Attribute -> seq<Diagnostic> {
    (a: Attribute) => ColumnNameProblem(e, a)
  }

  function TableNameProblem(e: Entity): seq<Diagnostic> {
    if Trim(e.name) == "" then [Diagnostic(EmptyName, Error, [e.id], Some(e.position))] else []
  }

  function NameProblems(): Entity -> seq<Diagnostic> {
    (e: Entity) => TableNameProblem(e) + Collect(e.attributes, ColumnNameProblems(e))
  }

  method CheckTableNames(e: Entity, report: Report)
    modifies report
    ensures report.diagnostics == old(report.diagnostics) + NameProblems()(e)
  {
    hide Trim;
    if Trim(e.name) == "" {
      report.Push(Diagnostic(EmptyName, Error, [e.id], Some(e.position)));
    }
    ghost var start := report.diagnostics;
    assert start == old(report.diagnostics) + TableNameProblem(e);
    for i := 0 to |e.attributes|
      invariant report.diagnostics == start + Collect(e.attributes[..i], ColumnNameProblems(e))
    {
      CollectStep(e.attributes, ColumnNameProblems(e), i);
      var a := e.attributes[i];
      if Trim(a.name) == "" {
        report.Push(Diagnostic(EmptyName, Error, [e.id, a.id], Some(e.position)));
      }
    }
    assert e.attributes[..|e.attributes|] == e.attributes;
  }

  method CheckNames(s: Schema, report: Report)
    modifies report
    ensures report.diagnostics == old(report.diagnostics) + Collect(s.entities, NameProblems())
  {
    hide NameProblems;
    for i := 0 to |s.entities|
      invariant report.diagnostics == old(report.diagnostics) + Collect(s.entities[..i], NameProblems())
    {
      CollectStep(s.entities, NameProblems(), i);
      CheckTableNames(s.entities[i], report);
    }
    assert s.entities[..|s.entities|] == s.entities;
  }

  // ----- type parameters -----

  predicate BadParameters(t: DataType) {
    if t.kind.TakesLength() then
      match t.length
      case Some(length) => length == 0 || length > MAX_LENGTH
      case None => false
    else if t.kind.TakesPrecision() then
      match (t.precision, t.scale)
      case (None, Some(_)) => true
      case (Some(precision), _) =>
        precision == 0 || precision > MAX_PRECISION || (t.scale.Some? && t.scale.value > MAX_PRECISION)
      case (None, None) => false
    else false
  }

  function ParameterProblem(e: Entity, a: Attribute): seq<Diagnostic> {
    if BadParameters(a.dataType) then [Diagnostic(InvalidTypeParameter, Error, [e.id, a.id], Some(e.position))] else []
  }

  function ParameterProblems(e: Entity): Attribute -> seq<Diagnostic> {
    (a: Attribute) => ParameterProblem(e, a)
  }

  function TableParameterProblems(): Entity -> seq<Diagnostic> {
    (e: Entity) => Collect(e.attributes, ParameterProblems(e))
  }

  method CheckTypeParameters(s: Schema, report: Report)
    modifies report
    ensures report.diagnostics == old(report.diagnostics) + Collect(s.entities, TableParameterProblems())
  {
    hide BadParameters;
    for i := 0 to |s.entities|
      invariant report.diagnostics == old(report.diagnostics) + Collect(s.entities[..i], TableParameterProblems())
    {
      CollectStep(s.entities, TableParameterProblems(), i);
      var e := s.entities[i];
      ghost var start := report.diagnostics;
      for k := 0 to |e.attributes|
        invariant report.diagnostics == start + Collect(e.attributes[..k], ParameterProblems(e))
      {
        CollectStep(e.attributes, ParameterProblems(e), k);
        if BadParameters(e.attributes[k].dataType) {
          report.Push(Diagnostic(InvalidTypeParameter, Error, [e.id, e.attributes[k].id], Some(e.position)));
        }
      }
      assert e.attributes[..|e.attributes|] == e.attributes;
    }
    assert s.entities[..|s.entities|] == s.entities;
  }

  // ----- relationship ends -----

  predicate BothResolve(s: Schema, link: Relationship) {
    && s.Resolve(link.fromEntityId, link.fromAttributeId).Some?
    && s.Resolve(link.toEntityId, link.toAttributeId).Some?
  }

  /** Where a dangling line is shown: at whichever table it still has. */
  function DanglingPlace(s: Schema, link: Relationship): Option<Position> {
    match (s.EntityAt(link.fromEntityId), s.EntityAt(link.toEntityId))
    case (Some(e), _) => Some(s.entities[e].position)
    case (None, Some(e)) => Some(s.entities[e].position)
    case (None, None) => None
  }

  function EndProblem(s: Schema, link: Relationship): seq<Diagnostic> {
    if BothResolve(s, link) then [] else [Diagnostic(DanglingRelationship, Error, [link.id], DanglingPlace(s, link))]
  }

  function EndProblems(s: Schema): Relationship -> seq<Diagnostic> {
    (link: Relationship) => EndProblem(s, link)
  }

  method CheckRelationshipEnds(s: Schema, report: Report)
    modifies report
    ensures report.diagnostics == old(report.diagnostics) + Collect(s.relationships, EndProblems(s))
  {
    hide BothResolve, DanglingPlace;
    for i := 0 to |s.relationships|
      invariant report.diagnostics == old(report.diagnostics) + Collect(s.relationships[..i], EndProblems(s))
    {
      CollectStep(s.relationships, EndProblems(s), i);
      var link := s.relationships[i];
      if !BothResolve(s, link) {
        report.Push(Diagnostic(DanglingRelationship, Error, [link.id], DanglingPlace(s, link)));
      }
    }
    assert s.relationships[..|s.relationships|] == s.relationships;
  }
}
