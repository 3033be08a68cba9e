/** What the verifier reports: codes, severities and the elements blamed. The
    wording of a message is not modelled. */
module Diagnostics {
  import opened Options
  import opened Domain

  datatype Code =
    | DanglingRelationship | EmptyName | EmptySchema | InvalidTypeParameter
    | DuplicateEntityName | DuplicateAttributeName | MissingPrimaryKey
    | InvalidForeignKey | ForeignKeyNotAKey | CircularDependency | TypeMismatch
    | RelationshipWithoutForeignKey | CardinalityMismatch
    | MissingDescription | ImportSkipped

  datatype Severity = Warning | Error

  datatype Diagnostic = Diagnostic(
    code: Code,
    severity: Severity,
    elementIds: seq<string>,
    location: Option<Position>)
  {
    predicate IsError() {
      severity.Error?
    }
  }

  /** The outcome of a run of checks, which each check adds to. */
  class Report {
    var diagnostics: seq<Diagnostic>

    constructor ()
      ensures diagnostics == []
    {
      diagnostics := [];
    }

    method Push(diagnostic: Diagnostic)
      modifies this
      ensures diagnostics == old(diagnostics) + [diagnostic]
    {
      diagnostics := diagnostics + [diagnostic];
    }
  }

  /** No errors; warnings may be there. */
  predicate IsValid(diagnostics: seq<Diagnostic>) {
    forall i :: 0 <= i < |diagnostics| ==> !diagnostics[i].IsError()
  }

  lemma IsValidAppend(a: seq<Diagnostic>, b: seq<Diagnostic>)
    ensures IsValid(a + b) <==> IsValid(a) && IsValid(b)
  {
    assert IsValid(a + b) ==> forall i :: 0 <= i < |b| ==> (a + b)[|a| + i] == b[i];
    assert IsValid(a + b) ==> forall i :: 0 <= i < |a| ==> (a + b)[i] == a[i];
  }

  /** What is found looking at each item in turn. */
  function Collect<T>(items: seq<T>, found: T -> seq<Diagnostic>): seq<Diagnostic> {
    if items == [] then [] else Collect(items[..|items| - 1], found) + found(items[|items| - 1])
  }

  lemma {:induction false} CollectValid<T>(items: seq<T>, found: T -> seq<Diagnostic>)
    ensures IsValid(Collect(items, found)) <==> forall i :: 0 <= i < |items| ==> IsValid(found(items[i]))
  {
    if items != [] {
      var front := items[..|items| - 1];
      CollectValid(front, found);
      IsValidAppend(Collect(front, found), found(items[|items| - 1]));
      assert forall i :: 0 <= i < |front| ==> front[i] == items[i];
    }
  }

  lemma CollectStep<T>(items: seq<T>, found: T -> seq<Diagnostic>, i: nat)
    requires i < |items|
    ensures Collect(items[..i + 1], found) == Collect(items[..i], found) + found(items[i])
  {
    assert items[..i + 1][..i] == items[..i];
  }
}
