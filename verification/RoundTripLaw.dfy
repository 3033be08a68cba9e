/** Reading back what was printed compares equal to the original. */
module RoundTripLaw {
  import opened Options
  import opened Strings
  import opened Domain
  import opened Comparisons
  import opened Matching
  import opened Differ
  import opened Equality
  import opened EqualityLaws
  import opened Scanning
  import opened Rendering
  import opened Generator
  import opened ScriptTokens
  import opened Script
  import opened ScriptScan
  import opened ParseTable
  import opened SqlReader
  import opened ReaderLaws
  import opened ReadBack
  import opened DraftBack
  import opened CommentsBack
  import opened DottedColumns
  import opened RoundTrip

  // ----- tables -----

  lemma DefaultComesBackIff(a: Attribute)
    ensures OrEmpty(DefaultKept(a)) == OrEmpty(a.defaultValue) <==> StableDefault(a)
  {
    hide TokensOf;
    assert Render([]) == "";
  }

  lemma AttributeComesBackIff(a: Attribute, b: Attribute)
    requires ColumnFrom(b, KeptColumn(a)) && ColumnCommentable(a) && b.description == Trim(a.description)
    ensures AttributesAgree(a, b) <==> KeptColumnWhole(a)
  {
    hide TokensOf, DefaultKept, ShownType, StableText, FitsKind, Trim;
    TrimFacts(a.description);
    TrimFacts(Trim(a.description));
    DefaultComesBackIff(a);
  }

  lemma ColumnsComeBackIff(e: Entity, b: Entity)
    requires NamedAs(e, b) && EntityOf(b, TableOf(e)) && Commentable(e)
    requires forall q :: 0 <= q < |e.attributes| ==> b.attributes[q].description == Trim(e.attributes[q].description)
    ensures ColumnsAgree(e.attributes, b.attributes) <==> KeptTable(e)
  {
    hide Perfect, Rank, Same, AttributesAgree, KeptColumn, KeptColumnWhole, ColumnCommentable, Trim, ColumnFrom;
    forall i | 0 <= i < |e.attributes|
      ensures AttributesAgree(e.attributes[i], b.attributes[i]) <==> KeptColumnWhole(e.attributes[i])
    {
      assert ColumnFrom(b.attributes[i], KeptColumn(e.attributes[i]));
      AttributeComesBackIff(e.attributes[i], b.attributes[i]);
    }
    SameNamesAgreeIff(e.attributes, b.attributes);
  }

  /** With the same names on both sides each column meets its own. */
  lemma SameNamesAgreeIff(a: seq<Attribute>, b: seq<Attribute>)
    requires ColumnNames(a) == ColumnNames(b)
    ensures ColumnsAgree(a, b) <==> forall i :: 0 <= i < |a| && i < |b| ==> AttributesAgree(a[i], b[i])
  {
    hide Perfect, Rank, Same, AttributesAgree;
    var names := ColumnNames(a);
    assert |a| == |names| == |ColumnNames(b)| == |b|;
    SelfPerfect(names);
    forall i: nat, j: nat | i < |names| && j < |names|
      ensures Paired(names, names, i, j) <==> i == j
    {
      SelfPaired(names, i, j);
    }
  }

  lemma TableComesBackIff(s: Schema, d: Schema, includePositions: bool, i: nat)
    requires ReadsBack(s, d, includePositions) && i < |s.entities| && Commentable(s.entities[i])
    ensures |d.entities| == |s.entities|
    ensures EntitiesAgree(s.entities[i], d.entities[i], includePositions) <==> KeptTable(s.entities[i])
  {
    hide KeysSoFar, LinesDrawn, UniqueIds, ColumnsAgree, TableOf, Trim, Commentable, KeptTable;
    var e, b := s.entities[i], d.entities[i];
    assert NamedAs(e, b) && EntityOf(b, TableOf(e));
    assert EntityText(e, b, i, |s.entities|, 0, false);
    ColumnsComeBackIff(e, b);
    TrimFacts(e.description);
    TrimFacts(Trim(e.description));
  }

  lemma SameTablesAgreeIff(a: seq<Entity>, b: seq<Entity>, includePositions: bool)
    requires AllNamedAs(a, b)
    ensures TablesAgree(a, b, includePositions)
      <==> forall i :: 0 <= i < |a| && i < |b| ==> EntitiesAgree(a[i], b[i], includePositions)
  {
    hide Perfect, Rank, Same, EntitiesAgree;
    var names := TableNames(a);
    assert TableNames(b) == names by {
      assert forall i :: 0 <= i < |a| ==> NamedAs(a[i], b[i]);
    }
    SelfPerfect(names);
    forall i: nat, j: nat | i < |names| && j < |names|
      ensures Paired(names, names, i, j) <==> i == j
    {
      SelfPaired(names, i, j);
    }
  }

  lemma TablesComeBackIff(s: Schema, d: Schema, includePositions: bool)
    requires ReadsBack(s, d, includePositions) && forall i :: 0 <= i < |s.entities| ==> Commentable(s.entities[i])
    ensures TablesAgree(s.entities, d.entities, includePositions)
      <==> forall i :: 0 <= i < |s.entities| ==> KeptTable(s.entities[i])
  {
    hide ReadsBack, Commentable, KeptTable, EntitiesAgree, TablesAgree, AllNamedAs;
    ReadsBackParts(s, d, includePositions);
    SameTablesAgreeIff(s.entities, d.entities, includePositions);
    forall i | 0 <= i < |s.entities|
      ensures EntitiesAgree(s.entities[i], d.entities[i], includePositions) <==> KeptTable(s.entities[i])
    {
      TableComesBackIff(s, d, includePositions, i);
    }
  }

  /** A documented column with a dot in its name has lost its words. */
  lemma DottedDiffers(s: Schema, d: Schema, includePositions: bool, i: nat, k: nat)
    requires WellNamed(s.entities) && AllNamedAs(s.entities, d.entities) && Silent(d.entities)
    requires i < |s.entities| && k < |s.entities[i].attributes| && !ColumnCommentable(s.entities[i].attributes[k])
    ensures !TablesAgree(s.entities, d.entities, includePositions)
  {
    hide TablesAgree, DistinctTables, DistinctColumns, Trim;
    var e, b := s.entities[i], d.entities[i];
    assert NamedAs(e, b) && ColumnsWellNamed(e) && TableSilent(b);
    TrimFacts(e.attributes[k].name);
    assert ColumnSilent(b.attributes[k]);
    TrimFacts("");
    assert !AttributesAgree(e.attributes[k], b.attributes[k]);
    assert ColumnNames(e.attributes) == ColumnNames(b.attributes);
    SameNamesAgreeIff(e.attributes, b.attributes);
    assert !EntitiesAgree(e, b, includePositions);
    SameTablesAgreeIff(s.entities, d.entities, includePositions);
  }

  lemma SameTrimmed(a: string, b: string)
    requires Same(a, b) && Trimmed(b)
    ensures Trimmed(a)
  {
    if a != "" {
      var last := |a| - 1;
      assert |Lower(a)| == |Lower(b)|;
      assert LowerChar(a[0]) == Lower(a)[0] == Lower(b)[0] == LowerChar(b[0]);
      assert LowerChar(a[last]) == Lower(a)[last] == Lower(b)[last] == LowerChar(b[last]);
    }
  }

  /** Names are read trimmed, so one that is not finds no partner. */
  lemma UntrimmedDiffers(s: Schema, d: Schema, includePositions: bool, i: nat)
    requires EntitiesOf(d.entities, AllTables(s.entities)) && i < |s.entities| && !NamesTrimmed(s.entities[i])
    ensures !TablesAgree(s.entities, d.entities, includePositions)
  {
    hide Perfect, Rank, Same, Trimmed, AttributesAgree, KeptColumn, Trim;
    if TablesAgree(s.entities, d.entities, includePositions) {
      var e := s.entities[i];
      var j := PartnerOf(TableNames(s.entities), TableNames(d.entities), i);
      var b := d.entities[j];
      assert EntityOf(b, TableOf(s.entities[j]));
      TrimFacts(s.entities[j].name);
      SameTrimmed(e.name, b.name);
      assert EntitiesAgree(e, b, includePositions);
      forall k: nat | k < |e.attributes|
        ensures Trimmed(e.attributes[k].name)
      {
        var l := PartnerOf(ColumnNames(e.attributes), ColumnNames(b.attributes), k);
        assert ColumnFrom(b.attributes[l], KeptColumn(s.entities[j].attributes[l]));
        ColumnReadTrimmed(s.entities[j].attributes[l], b.attributes[l]);
        SameTrimmed(e.attributes[k].name, b.attributes[l].name);
      }
    }
  }

  lemma ColumnReadTrimmed(a: Attribute, b: Attribute)
    requires ColumnFrom(b, KeptColumn(a))
    ensures Trimmed(b.name)
  {
    TrimFacts(a.name);
  }

  // ----- foreign keys -----

  function ColumnAt(entities: seq<Entity>, at: Option<(nat, nat)>): string {
    if at.Some? && at.value.0 < |entities| && at.value.1 < |entities[at.value.0].attributes| then
      entities[at.value.0].name + "." + entities[at.value.0].attributes[at.value.1].name
    else ""
  }

  lemma ColumnAtNamed(a: seq<Entity>, b: seq<Entity>, at: Option<(nat, nat)>)
    requires AllNamedAs(a, b)
    ensures ColumnAt(a, at) == ColumnAt(b, at)
  {
    if at.Some? && at.value.0 < |a| {
      assert NamedAs(a[at.value.0], b[at.value.0]);
    }
  }

  lemma PointAtResolved(s: Schema, entityId: string, attributeId: string)
    requires s.Resolve(entityId, attributeId).Some?
    ensures PointAt(s, entityId, attributeId) == ColumnAt(s.entities, s.Resolve(entityId, attributeId))
  {
  }

  lemma PointAtIds(s: Schema, d: Schema, at: Option<(nat, nat)>, entityId: string, attributeId: string)
    requires UniqueIds(d.entities) && AllNamedAs(s.entities, d.entities) && HasIds(d.entities, at, entityId, attributeId)
    ensures PointAt(d, entityId, attributeId) == ColumnAt(s.entities, at)
  {
    hide PointAt, Schema.Resolve, UniqueIds, AllNamedAs;
    ResolvesThere(d, at.value.0, at.value.1);
    PointAtResolved(d, entityId, attributeId);
    ColumnAtNamed(s.entities, d.entities, at);
  }

  lemma ColumnReferenceBack(s: Schema, d: Schema, n: nat, k: nat)
    requires KeysResolve(s) && UniqueIds(d.entities) && AllNamedAs(s.entities, d.entities)
    requires KeysSoFar(s, d.entities, |s.entities|, 0)
    requires n < |s.entities| && n < |d.entities| && k < |s.entities[n].attributes| && k < |d.entities[n].attributes|
    ensures ColumnReference(d, d.entities[n], d.entities[n].attributes[k])
         == ColumnReference(s, s.entities[n], s.entities[n].attributes[k])
  {
    hide PointAt, Schema.Resolve, UniqueIds, AllNamedAs;
    var a, b := s.entities[n].attributes[k], d.entities[n].attributes[k];
    assert KeyResolves(s, a);
    assert b.foreignKey == WantedKey(s, d.entities, a);
    assert d.entities[n].name + "." + b.name == s.entities[n].name + "." + a.name by {
      ColumnAtNamed(s.entities, d.entities, Some((n, k)));
    }
    if a.foreignKey.Some? {
      var reference := a.foreignKey.value;
      var at := s.Resolve(reference.entityId, reference.attributeId);
      NamedInRange(s.entities, d.entities, at.value.0, at.value.1);
      PointAtResolved(s, reference.entityId, reference.attributeId);
      PointAtIds(s, d, at, b.foreignKey.value.entityId, b.foreignKey.value.attributeId);
    }
  }

  lemma NamedInRange(a: seq<Entity>, b: seq<Entity>, n: nat, k: nat)
    requires AllNamedAs(a, b) && n < |a| && k < |a[n].attributes|
    ensures n < |b| && k < |b[n].attributes| && |b[n].attributes| == |a[n].attributes|
  {
    assert NamedAs(a[n], b[n]);
  }

  lemma {:induction false} TableReferencesBack(s: Schema, d: Schema, n: nat, k: nat)
    requires KeysResolve(s) && UniqueIds(d.entities) && AllNamedAs(s.entities, d.entities)
    requires KeysSoFar(s, d.entities, |s.entities|, 0)
    requires n < |s.entities| && n < |d.entities| && k <= |s.entities[n].attributes| && k <= |d.entities[n].attributes|
    ensures TableReferences(d, d.entities[n], k) == TableReferences(s, s.entities[n], k)
  {
    hide KeysResolve, UniqueIds, AllNamedAs, KeysSoFar, ColumnReference;
    if k > 0 {
      TableReferencesBack(s, d, n, k - 1);
      ColumnReferenceBack(s, d, n, k - 1);
    }
  }

  lemma {:induction false} ReferencesBack(s: Schema, d: Schema, n: nat)
    requires KeysResolve(s) && UniqueIds(d.entities) && AllNamedAs(s.entities, d.entities)
    requires KeysSoFar(s, d.entities, |s.entities|, 0)
    requires n <= |s.entities| && n <= |d.entities|
    ensures ReferencesUpTo(d, n) == ReferencesUpTo(s, n)
  {
    hide KeysResolve, UniqueIds, NamedAs, KeysSoFar, TableReferences;
    if n > 0 {
      ReferencesBack(s, d, n - 1);
      assert NamedAs(s.entities[n - 1], d.entities[n - 1]);
      assert |d.entities[n - 1].attributes| == |s.entities[n - 1].attributes| by {
        SameWidth(s.entities[n - 1], d.entities[n - 1]);
      }
      TableReferencesBack(s, d, n - 1, |s.entities[n - 1].attributes|);
    }
  }

  lemma SameWidth(a: Entity, b: Entity)
    requires NamedAs(a, b)
    ensures |a.attributes| == |b.attributes|
  {
  }

  // ----- relationships -----

  function TextOf(entities: seq<Entity>, line: Line): string {
    ColumnAt(entities, line.from) + " -> " + ColumnAt(entities, line.to)
  }

  function Texts(entities: seq<Entity>, lines: seq<Line>): (r: seq<string>)
    ensures |r| == |lines| && forall i :: 0 <= i < |r| ==> r[i] == TextOf(entities, lines[i])
  {
    seq(|lines|, i requires 0 <= i < |lines| => TextOf(entities, lines[i]))
  }

  lemma DrawnLinks(s: Schema, d: Schema, lines: seq<Line>)
    requires UniqueIds(d.entities) && AllNamedAs(s.entities, d.entities) && LinesDrawn(d.entities, d.relationships, lines)
    ensures Links(d) == Texts(s.entities, lines)
  {
    hide PointAt, UniqueIds, AllNamedAs, ColumnAt, HasIds;
    forall j | 0 <= j < |lines|
      ensures Links(d)[j] == Texts(s.entities, lines)[j]
    {
      var r := d.relationships[j];
      assert DrawnAs(d.entities, r, lines[j]);
      PointAtIds(s, d, lines[j].from, r.fromEntityId, r.fromAttributeId);
      PointAtIds(s, d, lines[j].to, r.toEntityId, r.toAttributeId);
    }
  }

  lemma ColumnSpelled(s: Schema, n: nat, k: nat)
    requires KeysResolve(s) && n < |s.entities| && k < |s.entities[n].attributes|
    ensures Texts(s.entities, DraftBack.ColumnLine(s, n, k)) == KeySpellings(ColumnReference(s, s.entities[n], s.entities[n].attributes[k]))
  {
    hide PointAt, Schema.Resolve;
    var a := s.entities[n].attributes[k];
    assert KeyResolves(s, a);
    if a.foreignKey.Some? {
      PointAtResolved(s, a.foreignKey.value.entityId, a.foreignKey.value.attributeId);
    }
  }

  lemma TextsAppend(entities: seq<Entity>, u: seq<Line>, w: seq<Line>)
    ensures Texts(entities, u + w) == Texts(entities, u) + Texts(entities, w)
  {
    hide TextOf;
  }

  lemma SpellingsAppend(u: seq<(string, string)>, w: seq<(string, string)>)
    ensures KeySpellings(u + w) == KeySpellings(u) + KeySpellings(w)
  {
  }

  lemma {:induction false} TableSpelled(s: Schema, n: nat, k: nat)
    requires KeysResolve(s) && n < |s.entities| && k <= |s.entities[n].attributes|
    ensures Texts(s.entities, TableLines(s, n, k)) == KeySpellings(TableReferences(s, s.entities[n], k))
  {
    hide KeysResolve, DraftBack.ColumnLine, ColumnReference, Texts, KeySpellings;
    if k == 0 {
      NothingSpelled(s.entities);
    } else {
      TableSpelled(s, n, k - 1);
      ColumnSpelled(s, n, k - 1);
      TextsAppend(s.entities, TableLines(s, n, k - 1), DraftBack.ColumnLine(s, n, k - 1));
      SpellingsAppend(TableReferences(s, s.entities[n], k - 1), ColumnReference(s, s.entities[n], s.entities[n].attributes[k - 1]));
    }
  }

  lemma NothingSpelled(entities: seq<Entity>)
    ensures Texts(entities, []) == KeySpellings([])
  {
  }

  /** The lines drawn for the keys are spelled as the references are. */
  lemma {:induction false} KeysSpelled(s: Schema, n: nat)
    requires KeysResolve(s) && n <= |s.entities|
    ensures Texts(s.entities, KeyLinesUpTo(s, n)) == KeySpellings(ReferencesUpTo(s, n))
  {
    hide KeysResolve, TableLines, TableReferences, Texts, KeySpellings;
    if n == 0 {
      NothingSpelled(s.entities);
    } else {
      KeysSpelled(s, n - 1);
      var width := |s.entities[n - 1].attributes|;
      TableSpelled(s, n - 1, width);
      TextsAppend(s.entities, KeyLinesUpTo(s, n - 1), TableLines(s, n - 1, width));
      SpellingsAppend(ReferencesUpTo(s, n - 1), TableReferences(s, s.entities[n - 1], width));
    }
  }

  lemma BlankIff(text: string)
    ensures Trim(text) == Trim("") <==> Blank(text)
  {
    TrimFacts(text);
    TrimFacts("");
  }

  lemma LineAgreesIff(s: Schema, d: Schema, lines: seq<Line>, i: nat, j: nat)
    requires LinesDrawn(d.entities, d.relationships, lines) && i < |s.relationships| && j < |d.relationships|
    ensures LinkAgrees(s.relationships[i], d.relationships[j])
      <==> s.relationships[i].cardinality.OneToMany? && Blank(s.relationships[i].description)
  {
    hide HasIds, Trim, Blank;
    assert DrawnAs(d.entities, d.relationships[j], lines[j]);
    BlankIff(s.relationships[i].description);
  }

  lemma LinksComeBackIff(s: Schema, d: Schema)
    requires KeysResolve(s) && UniqueIds(d.entities) && AllNamedAs(s.entities, d.entities)
    requires LinesDrawn(d.entities, d.relationships, KeyLinesUpTo(s, |s.entities|))
    ensures LinksAgree(s, d) <==> LinesMatch(s)
  {
    hide KeysResolve, UniqueIds, AllNamedAs, KeyLinesUpTo, Perfect, Texts, Links, KeySpellings, LinesDrawn, SameCounts, Paired, LinkAgrees, Blank;
    var lines := KeyLinesUpTo(s, |s.entities|);
    DrawnLinks(s, d, lines);
    KeysSpelled(s, |s.entities|);
    assert Links(d) == KeySpellings(References(s));
    PerfectIff(Links(s), Links(d));
    forall i: nat, j: nat | i < |s.relationships| && j < |d.relationships|
      ensures LinkAgrees(s.relationships[i], d.relationships[j])
        <==> s.relationships[i].cardinality.OneToMany? && Blank(s.relationships[i].description)
    {
      LineAgreesIff(s, d, lines, i, j);
    }
    if LinksAgree(s, d) {
      forall i | 0 <= i < |s.relationships|
        ensures s.relationships[i].cardinality.OneToMany? && Blank(s.relationships[i].description)
      {
        LinksLength(s);
        var j := PartnerOf(Links(s), Links(d), i);
        LinkInRange(s, d, i, j);
      }
    }
    forall i: nat, j: nat | Paired(Links(s), Links(d), i, j)
      ensures i < |s.relationships| && j < |d.relationships|
    {
      LinkInRange(s, d, i, j);
    }
  }

  lemma LinksLength(s: Schema)
    ensures |Links(s)| == |s.relationships|
  {
  }

  lemma LinkInRange(s: Schema, d: Schema, i: nat, j: nat)
    requires Paired(Links(s), Links(d), i, j)
    ensures i < |s.relationships| && j < |d.relationships|
  {
  }

  // ----- the law -----

  lemma ReadsBackParts(s: Schema, d: Schema, includePositions: bool)
    requires ReadsBack(s, d, includePositions)
    ensures AllNamedAs(s.entities, d.entities) && UniqueIds(d.entities) && KeysSoFar(s, d.entities, |s.entities|, 0)
    ensures LinesDrawn(d.entities, d.relationships, KeyLinesUpTo(s, |s.entities|)) && |d.entities| == |s.entities|
  {
    hide UniqueIds, KeysSoFar, LinesDrawn, EntitiesOf, TextSoFar;
  }

  lemma DraftAgreesIff(s: Schema, d: Schema, includePositions: bool)
    requires KeysResolve(s) && ReadsBack(s, d, includePositions)
    requires forall i :: 0 <= i < |s.entities| ==> Commentable(s.entities[i]) && NamesTrimmed(s.entities[i])
    ensures SchemasAgree(s, d, includePositions) <==> Kept(s)
  {
    hide ReadsBack, KeptTable, Commentable, NamesTrimmed, KeysResolve, ConsistentHolders, LinesMatch, UniqueIds, KeysSoFar, LinesDrawn;
    hide AllNamedAs, TablesAgree, KeysAgree, LinksAgree;
    ReadsBackParts(s, d, includePositions);
    TablesComeBackIff(s, d, includePositions);
    ReferencesBack(s, d, |s.entities|);
    KeysAgreeSelfIff(References(s));
    LinksComeBackIff(s, d);
  }

  lemma CarriedParts(s: Schema, includePositions: bool)
    requires Carried(s, includePositions)
    ensures s.entities != [] && KeysResolve(s)
    ensures Printable(s, GenerateOptions(true, includePositions))
    ensures forall i :: 0 <= i < |s.entities| ==> TableReadable(s.entities[i])
  {
    hide KeysResolve, DefaultLexes, Trim, DistinctTables, TableReadable;
    forall i | 0 <= i < |s.entities|
      ensures TablePrintable(s.entities[i], GenerateOptions(true, includePositions))
      ensures TableReadable(s.entities[i])
    {
      assert CarriedTable(s.entities[i], includePositions);
    }
  }

  lemma TrimmedIsWellNamed(s: Schema, includePositions: bool)
    requires Carried(s, includePositions) && forall i :: 0 <= i < |s.entities| ==> NamesTrimmed(s.entities[i])
    ensures WellNamed(s.entities)
  {
    hide KeysResolve, DefaultLexes, Trim, Trimmed, Same, ColumnReadable, OneLine;
    forall i | 0 <= i < |s.entities|
      ensures ColumnsWellNamed(s.entities[i])
    {
      var e := s.entities[i];
      assert CarriedTable(e, includePositions) && NamesTrimmed(e);
      forall k | 0 <= k < |e.attributes|
        ensures Trim(e.attributes[k].name) == e.attributes[k].name
      {
        TrimFacts(e.attributes[k].name);
      }
    }
  }

  /** What the reader makes of the script of `s`. */
  function ReadAgain(s: Schema, includePositions: bool, uuid: nat -> string): Option<Import> {
    Imported(ScanFrom(Generated(s, GenerateOptions(true, includePositions)), EMPTY), includePositions, uuid)
  }

  lemma ScriptIsRead(s: Schema, includePositions: bool, uuid: nat -> string)
    requires Carried(s, includePositions)
    ensures var options := GenerateOptions(true, includePositions);
            var n := |s.entities|;
            var sorted := Sorted(AllTables(s.entities), Numbers(n), LateKeysUpTo(s, n), RemarksUpTo(s, n), 0);
            var built := Assembled(sorted, uuid);
            ReadAgain(s, includePositions, uuid)
              == Some(built.(entities := Placed(built.entities, ScriptHints(s, options), Numbers(n), includePositions)))
  {
    hide Carried, Printable, TableReadable, ScriptStatements, ScriptHints, Assembled, SortedUpTo, Placed, LateKeysUpTo, RemarksUpTo;
    hide Generated, ScanFrom, WellNamed, KeysResolve;
    var options := GenerateOptions(true, includePositions);
    CarriedParts(s, includePositions);
    ScanOfScript(s, options);
    ScriptSorts(s, options);
  }

  /** Where every documented column can be commented, all is read back. */
  lemma CommentableIsRead(s: Schema, includePositions: bool, uuid: nat -> string)
    requires Carried(s, includePositions) && WellNamed(s.entities) && Injective(uuid)
    requires forall i :: 0 <= i < |s.entities| ==> Commentable(s.entities[i])
    ensures var read := ReadAgain(s, includePositions, uuid);
            read.Some? && read.value.report == [] && ReadsBack(s, read.value.Draft(), includePositions)
  {
    hide Carried, Injective, Printable, TableReadable, Commentable, ScriptHints, Assembled, ReadsBack, Placed, LateKeysUpTo, RemarksUpTo;
    hide ReadAgain, WellNamed, KeysResolve;
    CarriedParts(s, includePositions);
    ScriptIsRead(s, includePositions, uuid);
    var n := |s.entities|;
    var sorted := Sorted(AllTables(s.entities), Numbers(n), LateKeysUpTo(s, n), RemarksUpTo(s, n), 0);
    AssembledBack(s, sorted, uuid);
    PlacedBack(s, Assembled(sorted, uuid).Draft(), GenerateOptions(true, includePositions));
  }

  /** In any case the tables and columns are read back. */
  lemma TablesAreRead(s: Schema, includePositions: bool, uuid: nat -> string)
    requires Carried(s, includePositions) && Injective(uuid)
    ensures var read := ReadAgain(s, includePositions, uuid);
            read.Some? && EntitiesOf(read.value.entities, AllTables(s.entities)) && Silent(read.value.entities)
  {
    hide Carried, Injective, Printable, TableReadable, ScriptStatements, SortedUpTo, ReadsBack, LateKeysUpTo, RemarksUpTo;
    hide Generated, ScanFrom, WellNamed, KeysResolve, Imported, Silent, AllTables, Sound, LostKeys, LostComments, NotesOf, AllKeys, EntitiesOf;
    var options := GenerateOptions(true, includePositions);
    CarriedParts(s, includePositions);
    ScanOfScript(s, options);
    ScriptSorts(s, options);
    ScriptIsRead(s, includePositions, uuid);
    var scan := ScanFrom(Generated(s, options), EMPTY);
    EveryStatementIsAccountedFor(scan, includePositions, uuid);
    DottedColumnsStaySilent(scan, includePositions, uuid);
  }

  lemma AgreesIff(s: Schema, includePositions: bool, uuid: nat -> string)
    requires Carried(s, includePositions) && Injective(uuid)
    ensures var read := ReadAgain(s, includePositions, uuid);
            && read.Some?
            && (SchemasAgree(s, read.value.Draft(), includePositions) <==> Kept(s))
            && (Kept(s) ==> read.value.report == [])
  {
    hide Carried, Injective, ReadsBack, ReadAgain, TablesAgree, KeysAgree, LinksAgree, ConsistentHolders, LinesMatch, WellNamed, KeysResolve;
    hide NamesTrimmed, KeptTable, Commentable, AllNamedAs, Silent, EntitiesOf;
    CarriedParts(s, includePositions);
    TablesAreRead(s, includePositions, uuid);
    var d := ReadAgain(s, includePositions, uuid).value.Draft();
    if i: nat :| i < |s.entities| && !NamesTrimmed(s.entities[i]) {
      UntrimmedDiffers(s, d, includePositions, i);
    } else {
      TrimmedIsWellNamed(s, includePositions);
      NamedAsTables(s.entities, d.entities);
      if i: nat :| i < |s.entities| && !Commentable(s.entities[i]) {
        TableDottedDiffers(s, d, includePositions, i);
      } else {
        CommentableIsRead(s, includePositions, uuid);
        DraftAgreesIff(s, d, includePositions);
      }
    }
  }

  lemma TableDottedDiffers(s: Schema, d: Schema, includePositions: bool, i: nat)
    requires WellNamed(s.entities) && AllNamedAs(s.entities, d.entities) && Silent(d.entities)
    requires i < |s.entities| && !Commentable(s.entities[i])
    ensures !TablesAgree(s.entities, d.entities, includePositions) && !KeptTable(s.entities[i])
  {
    hide TablesAgree, ColumnCommentable, WellNamed, AllNamedAs, Silent, FitsKind, StableDefault;
    var k: nat :| k < |s.entities[i].attributes| && !ColumnCommentable(s.entities[i].attributes[k]);
    DottedDiffers(s, d, includePositions, i, k);
    assert !KeptColumnWhole(s.entities[i].attributes[k]);
  }

  /** The round trip. A schema a script can carry, printed and read back, with
      positions or without, compares equal exactly when it is kept: names
      trimmed, types only with what their kind takes, defaults normalised, key columns unique and not
      nullable, no dot in a documented column, keys spelled as held by one column
      leading to one target, and a plain 1:N line spelled for each key. Then
      there is also nothing to report and no difference listed. */
  lemma PrintedThenReadIsEqualIff(s: Schema, includePositions: bool, uuid: nat -> string)
    requires Carried(s, includePositions) && Injective(uuid)
    ensures var read := ReadAgain(s, includePositions, uuid);
            && read.Some?
            && (Kept(s) ==> read.value.report == [])
            && forall c :: IsTotal(c, Compared(s, read.value.Draft(), includePositions)) ==>
                 (c.IsEqual() <==> Kept(s)) && (c.differences == [] <==> Kept(s))
  {
    hide Carried, Kept, Injective, ReadAgain, SchemasAgree, Compared, IsTotal;
    AgreesIff(s, includePositions, uuid);
    var read := ReadAgain(s, includePositions, uuid).value.Draft();
    forall c | IsTotal(c, Compared(s, read, includePositions))
      ensures (c.IsEqual() <==> Kept(s)) && (c.differences == [] <==> Kept(s))
    {
      EqualIffAgree(s, read, includePositions, c);
      EqualIffNoDifference(s, read, includePositions, c);
    }
  }
}
