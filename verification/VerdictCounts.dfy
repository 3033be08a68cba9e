/** How much each of the ten checks reports: one diagnostic for each thing wrong,
    and no more. */
module VerdictCounts {
  import opened Options
  import opened Strings
  import opened Domain
  import opened Diagnostics
  import opened Groups
  import opened SyntaxChecks
  import opened StructureChecks
  import opened ReferenceChecks
  import opened DocumentationCheck
  import opened Verifier
  import opened VerdictLaws
  import Cycles

  function Sum<T>(items: seq<T>, f: T -> nat): nat {
    if items == [] then 0 else Sum(items[..|items| - 1], f) + f(items[|items| - 1])
  }

  function One(b: bool): nat {
    if b then 1 else 0
  }

  lemma {:induction false} CollectSize<T>(items: seq<T>, found: T -> seq<Diagnostic>, f: T -> nat)
    requires forall item: T :: item in items ==> |found(item)| == f(item)
    ensures |Collect(items, found)| == Sum(items, f)
  {
    if items != [] {
      assert items[|items| - 1] in items;
      assert forall item :: item in items[..|items| - 1] ==> item in items;
      CollectSize(items[..|items| - 1], found, f);
    }
  }

  // ----- how much is wrong -----

  function BlankNames(): Entity -> nat {
    (e: Entity) => One(Blank(e.name)) + Sum(e.attributes, (a: Attribute) => One(Blank(a.name)))
  }

  function BadTypes(): Entity -> nat {
    (e: Entity) => Sum(e.attributes, (a: Attribute) => One(!GoodParameters(a.dataType)))
  }

  function Dangling(s: Schema): Relationship -> nat {
    (r: Relationship) => One(s.Resolve(r.fromEntityId, r.fromAttributeId).None? || s.Resolve(r.toEntityId, r.toAttributeId).None?)
  }

  /** Each name that columns of the table share, counted once. */
  function SharedNames(): Entity -> nat {
    (e: Entity) => |SameNames(ColumnNames(e.attributes))|
  }

  function Keyless(): Entity -> nat {
    (e: Entity) => One(!e.HasPrimaryKey())
  }

  function WrongReference(s: Schema): Attribute -> nat {
    (a: Attribute) =>
      if a.foreignKey.None? then 0
      else
        match s.Resolve(a.foreignKey.value.entityId, a.foreignKey.value.attributeId)
        case None => 1
        case Some((t, c)) =>
          var key := s.entities[t].attributes[c];
          One(!AloneUnique(s.entities[t], c))
          + One(a.dataType.kind.Family() != key.dataType.kind.Family() || TooNarrow(a.dataType, key.dataType))
  }

  function WrongReferences(s: Schema): Entity -> nat {
    (e: Entity) => Sum(e.attributes, WrongReference(s))
  }

  function WrongLine(s: Schema): Relationship -> nat {
    (r: Relationship) =>
      match (s.Resolve(r.fromEntityId, r.fromAttributeId), s.Resolve(r.toEntityId, r.toAttributeId))
      case (Some((f, fc)), Some((t, tc))) =>
        var a, b := s.entities[f].attributes[fc], s.entities[t].attributes[tc];
        if r.cardinality.ManyToMany? then 0
        else if a.foreignKey == Some(ForeignKeyRef(s.entities[t].id, b.id)) then One(Contradicts(r.cardinality, AloneUnique(s.entities[f], fc)))
        else if b.foreignKey == Some(ForeignKeyRef(s.entities[f].id, a.id)) then One(Contradicts(r.cardinality, AloneUnique(s.entities[t], tc)))
        else 1
      case _ => 0
  }

  function Wordless(): Entity -> nat {
    (e: Entity) => One(Blank(e.description) || exists k :: 0 <= k < |e.attributes| && Blank(e.attributes[k].description))
  }

  function WordlessLine(): Relationship -> nat {
    (r: Relationship) => One(Blank(r.description))
  }

  /** What the check of this number has to report; `groups` are the groups of
      tables that depend on each other. */
  function Wrong(s: Schema, groups: seq<seq<nat>>, check: nat): nat {
    match check
    case 1 => One(s.entities == [])
    case 2 => Sum(s.entities, BlankNames())
    case 3 => Sum(s.entities, BadTypes())
    case 4 => Sum(s.relationships, Dangling(s))
    case 5 => |SameNames(TableNames(s.entities))| + Sum(s.entities, SharedNames())
    case 6 => Sum(s.entities, Keyless())
    case 7 => Sum(s.entities, WrongReferences(s))
    case 8 => Sum(s.relationships, WrongLine(s))
    case 9 => |groups|
    case 10 => Sum(s.entities, Wordless()) + Sum(s.relationships, WordlessLine())
    case _ => 0
  }

  // ----- how much is reported -----

  lemma BlankIff(text: string)
    ensures Trim(text) == "" <==> Blank(text)
  {
    hide Trim, Blank;
    TrimFacts(text);
  }

  lemma NamesSize(s: Schema)
    ensures |Collect(s.entities, NameProblems())| == Sum(s.entities, BlankNames())
  {
    hide Collect, Sum, Trim, Blank;
    forall e: Entity
      ensures |NameProblems()(e)| == BlankNames()(e)
    {
      BlankIff(e.name);
      forall a: Attribute
        ensures Trim(a.name) == "" <==> Blank(a.name)
      {
        BlankIff(a.name);
      }
      CollectSize(e.attributes, ColumnNameProblems(e), (a: Attribute) => One(Blank(a.name)));
    }
    CollectSize(s.entities, NameProblems(), BlankNames());
  }

  lemma TypesSize(s: Schema)
    ensures |Collect(s.entities, TableParameterProblems())| == Sum(s.entities, BadTypes())
  {
    hide Collect, Sum, BadParameters, GoodParameters;
    forall e: Entity
      ensures |TableParameterProblems()(e)| == BadTypes()(e)
    {
      forall a: Attribute
        ensures BadParameters(a.dataType) <==> !GoodParameters(a.dataType)
      {
        ParametersBadIff(a.dataType);
      }
      CollectSize(e.attributes, ParameterProblems(e), (a: Attribute) => One(!GoodParameters(a.dataType)));
    }
    CollectSize(s.entities, TableParameterProblems(), BadTypes());
  }

  lemma EndsSize(s: Schema)
    ensures |Collect(s.relationships, EndProblems(s))| == Sum(s.relationships, Dangling(s))
  {
    hide Collect, Sum, Schema.Resolve;
    CollectSize(s.relationships, EndProblems(s), Dangling(s));
  }

  lemma OneForEach<T>(items: seq<T>, found: T -> seq<Diagnostic>)
    requires forall item: T :: item in items ==> |found(item)| == 1
    ensures |Collect(items, found)| == |items|
  {
    hide Collect, Sum;
    CollectSize(items, found, (item: T) => 1);
    SumOfOnes(items);
  }

  lemma {:induction false} SumOfOnes<T>(items: seq<T>)
    ensures Sum(items, (item: T) => 1) == |items|
  {
    if items != [] {
      SumOfOnes(items[..|items| - 1]);
    }
  }

  lemma ClashesSize(s: Schema)
    ensures |Collect(SameNames(TableNames(s.entities)), TableClashes(s.entities))| == |SameNames(TableNames(s.entities))|
    ensures |Collect(s.entities, TableColumnClashes())| == Sum(s.entities, SharedNames())
  {
    hide Collect, Sum, SameNames, SharesName, InRange;
    forall members | members in SameNames(TableNames(s.entities))
      ensures |TableClashes(s.entities)(members)| == 1
    {
      SharedIff(TableNames(s.entities), members);
      SharersInRange(TableNames(s.entities), members);
    }
    OneForEach(SameNames(TableNames(s.entities)), TableClashes(s.entities));
    forall e: Entity
      ensures |TableColumnClashes()(e)| == SharedNames()(e)
    {
      forall members | members in SameNames(ColumnNames(e.attributes))
        ensures |ColumnClashes(e)(members)| == 1
      {
        SharedIff(ColumnNames(e.attributes), members);
        SharersInRange(ColumnNames(e.attributes), members);
      }
      OneForEach(SameNames(ColumnNames(e.attributes)), ColumnClashes(e));
    }
    CollectSize(s.entities, TableColumnClashes(), SharedNames());
  }

  lemma KeysSize(s: Schema)
    ensures |Collect(s.entities, MissingKeys())| == Sum(s.entities, Keyless())
  {
    hide Collect, Sum, Entity.HasPrimaryKey;
    CollectSize(s.entities, MissingKeys(), Keyless());
  }

  lemma ReferenceSize(s: Schema, e: Entity, a: Attribute)
    ensures |ReferenceProblem(s, e, a)| == WrongReference(s)(a)
  {
    hide IsUniqueKey, AloneUnique, IsNarrower, TooNarrow, DataTypeKind.Family;
    if a.foreignKey.Some? {
      match s.Resolve(a.foreignKey.value.entityId, a.foreignKey.value.attributeId) {
        case None =>
        case Some(found) =>
          var target := s.entities[found.0];
          UniqueKeyIff(target, found.1);
          if a.dataType.kind.Family() == target.attributes[found.1].dataType.kind.Family() {
            NarrowIff(a.dataType, target.attributes[found.1].dataType);
          }
      }
    }
  }

  lemma ReferencesSize(s: Schema)
    ensures |Collect(s.entities, TableReferenceProblems(s))| == Sum(s.entities, WrongReferences(s))
  {
    hide Collect, Sum, ReferenceProblem, WrongReference;
    forall e: Entity
      ensures |TableReferenceProblems(s)(e)| == WrongReferences(s)(e)
    {
      forall a: Attribute
        ensures |ReferenceProblems(s, e)(a)| == WrongReference(s)(a)
      {
        ReferenceSize(s, e, a);
      }
      CollectSize(e.attributes, ReferenceProblems(s, e), WrongReference(s));
    }
    CollectSize(s.entities, TableReferenceProblems(s), WrongReferences(s));
  }

  lemma LineSize(s: Schema, r: Relationship)
    ensures |LineProblem(s, r)| == WrongLine(s)(r)
  {
    hide IsUniqueKey, AloneUnique, Schema.Resolve;
    var from, to := s.Resolve(r.fromEntityId, r.fromAttributeId), s.Resolve(r.toEntityId, r.toAttributeId);
    if from.Some? && to.Some? {
      UniqueKeyIff(s.entities[from.value.0], from.value.1);
      UniqueKeyIff(s.entities[to.value.0], to.value.1);
    }
  }

  lemma LinesSize(s: Schema)
    ensures |Collect(s.relationships, LineProblems(s))| == Sum(s.relationships, WrongLine(s))
  {
    hide Collect, Sum, LineProblem, WrongLine;
    forall r: Relationship
      ensures |LineProblems(s)(r)| == WrongLine(s)(r)
    {
      LineSize(s, r);
    }
    CollectSize(s.relationships, LineProblems(s), WrongLine(s));
  }

  lemma WordlessSize(e: Entity)
    ensures |TableUndocumented()(e)| == Wordless()(e)
  {
    hide Trim, Blank, UndocumentedIds, UndescribedAt;
    var n := |e.attributes|;
    UndescribedAre(e.attributes, n);
    UndescribedNamed(e.attributes, n);
    assert e.attributes[..n] == e.attributes;
    BlankIff(e.description);
    var at := UndescribedAt(e.attributes, n);
    if at != [] {
      assert at[0] in at;
    }
  }

  lemma DescriptionsSize(s: Schema)
    ensures |DocumentationFindings(s)| == Sum(s.entities, Wordless()) + Sum(s.relationships, WordlessLine())
  {
    hide Collect, Sum, TableUndocumented, Wordless, Trim, Blank;
    forall e: Entity
      ensures |TableUndocumented()(e)| == Wordless()(e)
    {
      WordlessSize(e);
    }
    CollectSize(s.entities, TableUndocumented(), Wordless());
    forall r: Relationship
      ensures |LineUndocumented()(r)| == WordlessLine()(r)
    {
      BlankIff(r.description);
    }
    CollectSize(s.relationships, LineUndocumented(), WordlessLine());
  }

  // ----- check by check -----

  /** How many diagnostics come from this check. */
  function OfCheck(ds: seq<Diagnostic>, check: nat): nat {
    if ds == [] then 0 else OfCheck(ds[..|ds| - 1], check) + One(CheckOf(ds[|ds| - 1].code) == check)
  }

  lemma {:induction false} OfCheckAppend(a: seq<Diagnostic>, b: seq<Diagnostic>, check: nat)
    ensures OfCheck(a + b, check) == OfCheck(a, check) + OfCheck(b, check)
  {
    hide CheckOf;
    if b == [] {
      assert a + b == a;
    } else {
      assert (a + b)[..|a + b| - 1] == a + b[..|b| - 1];
      OfCheckAppend(a, b[..|b| - 1], check);
    }
  }

  lemma {:induction false} OfOneCheck(ds: seq<Diagnostic>, own: nat, check: nat)
    requires InOrderOf(ds, own, own)
    ensures OfCheck(ds, check) == if check == own then |ds| else 0
  {
    hide CheckOf;
    if ds != [] {
      OfOneCheck(ds[..|ds| - 1], own, check);
    }
  }

  lemma Segment(before: seq<Diagnostic>, ds: seq<Diagnostic>, own: nat, check: nat)
    requires InOrderOf(ds, own, own)
    ensures OfCheck(before + ds, check) == OfCheck(before, check) + if check == own then |ds| else 0
  {
    hide OfCheck, InOrderOf;
    OfCheckAppend(before, ds, check);
    OfOneCheck(ds, own, check);
  }

  lemma EmptySize(s: Schema)
    ensures |EmptyProblem(s)| == One(s.entities == []) && InOrderOf(EmptyProblem(s), 1, 1)
  {
  }

  lemma SyntaxCounts(s: Schema, check: nat)
    ensures OfCheck(SyntaxFindings(s), check) == if 1 <= check <= 4 then Wrong(s, [], check) else 0
  {
    hide OfCheck, InOrderOf, Collect, Sum, EmptyProblem;
    EmptySize(s);
    NamesInOrder(s);
    ParametersInOrder(s);
    LinesInOrder(s);
    NamesSize(s);
    TypesSize(s);
    EndsSize(s);
    var empty, names, types := EmptyProblem(s), Collect(s.entities, NameProblems()), Collect(s.entities, TableParameterProblems());
    OfOneCheck(empty, 1, check);
    Segment(empty, names, 2, check);
    Segment(empty + names, types, 3, check);
    Segment(empty + names + types, Collect(s.relationships, EndProblems(s)), 4, check);
  }

  lemma StructureCounts(s: Schema, check: nat)
    ensures OfCheck(StructureFindings(s), check) == if 5 <= check <= 6 then Wrong(s, [], check) else 0
  {
    hide OfCheck, InOrderOf, Collect, Sum, SameNames;
    DuplicatesInOrder(s);
    ClashesSize(s);
    KeysSize(s);
    KeysInOrderOf(s);
    var clashes := Collect(SameNames(TableNames(s.entities)), TableClashes(s.entities)) + Collect(s.entities, TableColumnClashes());
    OfOneCheck(clashes, 5, check);
    Segment(clashes, Collect(s.entities, MissingKeys()), 6, check);
  }

  lemma KeysInOrderOf(s: Schema)
    ensures InOrderOf(Collect(s.entities, MissingKeys()), 6, 6)
  {
    hide Collect, Entity.HasPrimaryKey;
    CollectOneCheck(s.entities, MissingKeys(), 6);
  }

  lemma ReferenceCounts(s: Schema, check: nat)
    ensures OfCheck(ReferenceFindings(s), check) == if 7 <= check <= 8 then Wrong(s, [], check) else 0
  {
    hide OfCheck, InOrderOf, Collect, Sum;
    ReferencesInOrder(s);
    LinesInOrder(s);
    ReferencesSize(s);
    LinesSize(s);
    OfOneCheck(Collect(s.entities, TableReferenceProblems(s)), 7, check);
    Segment(Collect(s.entities, TableReferenceProblems(s)), Collect(s.relationships, LineProblems(s)), 8, check);
  }

  lemma RestCounts(s: Schema, groups: seq<seq<nat>>, cycles: seq<Diagnostic>, check: nat)
    requires Cycles.CycleFinding(s.entities, cycles) && |cycles| == |groups|
    ensures OfCheck(cycles, check) == if check == 9 then Wrong(s, groups, check) else 0
    ensures OfCheck(DocumentationFindings(s), check) == if check == 10 then Wrong(s, groups, check) else 0
  {
    hide OfCheck, InOrderOf, Collect, Sum, DocumentationFindings, Cycles.CycleFinding;
    CyclesInOrder(s, cycles);
    DescriptionsInOrder(s);
    DescriptionsSize(s);
    OfOneCheck(cycles, 9, check);
    OfOneCheck(DocumentationFindings(s), 10, check);
  }

  ghost predicate GroupsFound(s: Schema, groups: seq<seq<nat>>) {
    IsCycleReport(Cycles.References(s.entities, false), |s.entities|, groups)
  }

  lemma GroupsOf(s: Schema, cycles: seq<Diagnostic>) returns (groups: seq<seq<nat>>)
    requires Cycles.CycleFinding(s.entities, cycles)
    ensures GroupsFound(s, groups) && |groups| == |cycles|
  {
    hide IsCycleReport;
    var all, blocked :| Cycles.IsCycleFinding(s.entities, all, blocked, cycles);
    groups := all;
  }

  lemma GroupsAreOne(s: Schema, a: seq<seq<nat>>, b: seq<seq<nat>>)
    requires GroupsFound(s, a) && GroupsFound(s, b)
    ensures a == b
  {
    hide IsCycleReport;
    ReportUnique(Cycles.References(s.entities, false), |s.entities|, a, b);
  }

  /** Each check reports each thing wrong once. */
  lemma ReportedOnce(s: Schema, diagnostics: seq<Diagnostic>, groups: seq<seq<nat>>, check: nat)
    requires IsVerdict(s, diagnostics) && GroupsFound(s, groups)
    ensures OfCheck(diagnostics, check) == Wrong(s, groups, check)
  {
    hide OfCheck, SyntaxFindings, StructureFindings, ReferenceFindings, DocumentationFindings, Cycles.CycleFinding, GroupsFound;
    var cycles :| Cycles.CycleFinding(s.entities, cycles) && diagnostics == Findings(s, cycles);
    var all := GroupsOf(s, cycles);
    GroupsAreOne(s, all, groups);
    var syntax, structure, references := SyntaxFindings(s), StructureFindings(s), ReferenceFindings(s);
    SyntaxCounts(s, check);
    StructureCounts(s, check);
    ReferenceCounts(s, check);
    RestCounts(s, groups, cycles, check);
    OfCheckAppend(syntax, structure, check);
    OfCheckAppend(syntax + structure, references, check);
    OfCheckAppend(syntax + structure + references, cycles, check);
    OfCheckAppend(syntax + structure + references + cycles, DocumentationFindings(s), check);
  }
}
