/** One warning for each table or line that is not fully described. */
module DocumentationCheck {
  import opened Options
  import opened Domain
  import opened Diagnostics

  function UndocumentedIds(attributes: seq<Attribute>): seq<string> {
    if attributes == [] then []
    else
      var front, last := UndocumentedIds(attributes[..|attributes| - 1]), attributes[|attributes| - 1];
      if last.IsDocumented() then front else front + [last.id]
  }

  function TableUndocumented(): Entity -> seq<Diagnostic> {
    (e: Entity) =>
      var undocumented := UndocumentedIds(e.attributes);
      if e.IsDocumented() && undocumented == [] then []
      else [Diagnostic(MissingDescription, Warning, [e.id] + undocumented, Some(e.position))]
  }

  function LineUndocumented(): Relationship -> seq<Diagnostic> {
    (link: Relationship) =>
      if link.IsDocumented() then [] else [Diagnostic(MissingDescription, Warning, [link.id], None)]
  }

  method FindUndocumented(attributes: seq<Attribute>) returns (ids: seq<string>)
    ensures ids == UndocumentedIds(attributes)
  {
    hide Attribute.IsDocumented;
    ids := [];
    for i := 0 to |attributes|
      invariant ids == UndocumentedIds(attributes[..i])
    {
      assert attributes[..i + 1][..i] == attributes[..i];
      if !attributes[i].IsDocumented() {
        ids := ids + [attributes[i].id];
      }
    }
    assert attributes[..|attributes|] == attributes;
  }

  method CheckDocumentation(s: Schema, report: Report)
    modifies report
    ensures report.diagnostics == old(report.diagnostics)
      + Collect(s.entities, TableUndocumented()) + Collect(s.relationships, LineUndocumented())
  {
    hide Entity.IsDocumented, Relationship.IsDocumented, UndocumentedIds;
    for i := 0 to |s.entities|
      invariant report.diagnostics == old(report.diagnostics) + Collect(s.entities[..i], TableUndocumented())
    {
      CollectStep(s.entities, TableUndocumented(), i);
      var e := s.entities[i];
      var undocumented := FindUndocumented(e.attributes);
      if !(e.IsDocumented() && undocumented == []) {
        report.Push(Diagnostic(MissingDescription, Warning, [e.id] + undocumented, Some(e.position)));
      }
    }
    assert s.entities[..|s.entities|] == s.entities;
    ghost var start := report.diagnostics;
    for i := 0 to |s.relationships|
      invariant report.diagnostics == start + Collect(s.relationships[..i], LineUndocumented())
    {
      CollectStep(s.relationships, LineUndocumented(), i);
      var link := s.relationships[i];
      if !link.IsDocumented() {
        report.Push(Diagnostic(MissingDescription, Warning, [link.id], None));
      }
    }
    assert s.relationships[..|s.relationships|] == s.relationships;
  }
}
