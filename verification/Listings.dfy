/** What the list of differences says, entry by entry: each difference written
    out with its path and what the two sides held. */
module Listings {
  import opened Options
  import opened Strings
  import opened Decimal
  import opened Domain
  import opened Comparisons
  import opened Matching
  import opened Differ
  import opened Sums
  import opened Tallies
  import opened EqualityLaws

  // ----- one column -----

  function TruthText(b: bool): string {
    if b then "true" else "false"
  }

  predicate DescriptionLists(path: string, e: string, a: string, d: Difference) {
    var at, left, right := path + ".description", Trim(e), Trim(a);
    || (!Blank(e) && Blank(a) && d == Difference(Missing, at, left, ""))
    || (Blank(e) && !Blank(a) && d == Difference(Extra, at, "", right))
    || (!Blank(e) && !Blank(a) && left != right && d == Difference(Changed, at, left, right))
  }

  predicate FieldLists(path: string, e: Attribute, a: Attribute, d: Difference) {
    || (e.dataType != a.dataType && d == Difference(Changed, path + ".dataType", TypeText(e.dataType), TypeText(a.dataType)))
    || (e.nullable != a.nullable && d == Difference(Changed, path + ".nullable", TruthText(e.nullable), TruthText(a.nullable)))
    || (OrEmpty(e.defaultValue) != OrEmpty(a.defaultValue)
        && d == Difference(Changed, path + ".default", OrEmpty(e.defaultValue), OrEmpty(a.defaultValue)))
  }

  function FlagsText(primaryKey: bool, unique: bool): string {
    if primaryKey && unique then "primary key, unique" else if primaryKey then "primary key" else "unique"
  }

  /** Flags on one side only are one difference; on both sides, flag by flag. */
  predicate FlagsList(path: string, e: Attribute, a: Attribute, d: Difference) {
    var left, right := e.primaryKey || e.unique, a.primaryKey || a.unique;
    || (left && !right && d == Difference(Missing, path, FlagsText(e.primaryKey, e.unique), ""))
    || (!left && right && d == Difference(Extra, path, "", FlagsText(a.primaryKey, a.unique)))
    || (left && right && e.primaryKey != a.primaryKey
        && d == Difference(Changed, path + ".primaryKey", TruthText(e.primaryKey), TruthText(a.primaryKey)))
    || (left && right && e.unique != a.unique
        && d == Difference(Changed, path + ".unique", TruthText(e.unique), TruthText(a.unique)))
  }

  predicate ColumnLists(table: string, e: Attribute, a: Attribute, d: Difference) {
    var path := table + ".attributes[" + e.name + "]";
    FieldLists(path, e, a, d) || FlagsList(path, e, a, d) || DescriptionLists(path, e.description, a.description, d)
  }

  // ----- one table -----

  predicate ColumnMissing(path: string, e: seq<Attribute>, a: seq<Attribute>, i: nat, d: Difference) {
    && i < |e| && (forall j: nat :: j < |a| ==> !Paired(ColumnNames(e), ColumnNames(a), i, j))
    && d == Difference(Missing, path + ".attributes[" + e[i].name + "]", e[i].name, "")
  }

  predicate ColumnExtra(path: string, e: seq<Attribute>, a: seq<Attribute>, j: nat, d: Difference) {
    && j < |a| && (forall i: nat :: i < |e| ==> !Paired(ColumnNames(e), ColumnNames(a), i, j))
    && d == Difference(Extra, path + ".attributes[" + a[j].name + "]", "", a[j].name)
  }

  predicate ColumnChanged(path: string, e: seq<Attribute>, a: seq<Attribute>, i: nat, j: nat, d: Difference) {
    Paired(ColumnNames(e), ColumnNames(a), i, j) && ColumnLists(path, e[i], a[j], d)
  }

  ghost predicate ColumnsList(path: string, e: seq<Attribute>, a: seq<Attribute>, d: Difference) {
    || (exists i: nat :: ColumnMissing(path, e, a, i, d))
    || (exists j: nat :: ColumnExtra(path, e, a, j, d))
    || (exists i: nat, j: nat :: ColumnChanged(path, e, a, i, j, d))
  }

  function PlaceText(p: Position): string {
    IntText(p.x) + ", " + IntText(p.y)
  }

  ghost predicate TableLists(e: Entity, a: Entity, includePositions: bool, d: Difference) {
    var path := "entities[" + e.name + "]";
    || DescriptionLists(path, e.description, a.description, d)
    || (includePositions && e.position != a.position
        && d == Difference(Changed, path + ".position", PlaceText(e.position), PlaceText(a.position)))
    || ColumnsList(path, e.attributes, a.attributes, d)
  }

  // ----- all tables -----

  predicate TableMissing(e: seq<Entity>, a: seq<Entity>, i: nat, d: Difference) {
    && i < |e| && (forall j: nat :: j < |a| ==> !Paired(TableNames(e), TableNames(a), i, j))
    && d == Difference(Missing, "entities[" + e[i].name + "]", e[i].name, "")
  }

  predicate TableExtra(e: seq<Entity>, a: seq<Entity>, j: nat, d: Difference) {
    && j < |a| && (forall i: nat :: i < |e| ==> !Paired(TableNames(e), TableNames(a), i, j))
    && d == Difference(Extra, "entities[" + a[j].name + "]", "", a[j].name)
  }

  ghost predicate TableChanged(e: seq<Entity>, a: seq<Entity>, includePositions: bool, i: nat, j: nat, d: Difference) {
    Paired(TableNames(e), TableNames(a), i, j) && TableLists(e[i], a[j], includePositions, d)
  }

  ghost predicate TablesList(e: seq<Entity>, a: seq<Entity>, includePositions: bool, d: Difference) {
    || (exists i: nat :: TableMissing(e, a, i, d))
    || (exists j: nat :: TableExtra(e, a, j, d))
    || (exists i: nat, j: nat :: TableChanged(e, a, includePositions, i, j, d))
  }

  // ----- foreign keys -----

  predicate NoHolder(references: seq<(string, string)>, holder: string) {
    forall j :: 0 <= j < |references| ==> !Same(references[j].0, holder)
  }

  /** The first reference of this holder. */
  predicate FirstHolder(references: seq<(string, string)>, holder: string, j: nat) {
    j < |references| && Same(references[j].0, holder) && forall k :: 0 <= k < j ==> !Same(references[k].0, holder)
  }

  predicate ReferenceLost(e: seq<(string, string)>, a: seq<(string, string)>, i: nat, d: Difference) {
    i < |e| && NoHolder(a, e[i].0) && d == Difference(Missing, e[i].0 + ".foreignKey", e[i].1, "")
  }

  predicate ReferenceAdded(e: seq<(string, string)>, a: seq<(string, string)>, j: nat, d: Difference) {
    j < |a| && NoHolder(e, a[j].0) && d == Difference(Extra, a[j].0 + ".foreignKey", "", a[j].1)
  }

  predicate ReferenceMoved(e: seq<(string, string)>, a: seq<(string, string)>, i: nat, j: nat, d: Difference) {
    && i < |e| && FirstHolder(a, e[i].0, j) && !Same(a[j].1, e[i].1)
    && d == Difference(Changed, e[i].0 + ".foreignKey", e[i].1, a[j].1)
  }

  ghost predicate ReferencesList(e: seq<(string, string)>, a: seq<(string, string)>, d: Difference) {
    || (exists i: nat :: ReferenceLost(e, a, i, d))
    || (exists j: nat :: ReferenceAdded(e, a, j, d))
    || (exists i: nat, j: nat :: ReferenceMoved(e, a, i, j, d))
  }

  // ----- relationships -----

  function EndsText(c: Cardinality): string {
    if c.OneToOne? then "1:1" else if c.OneToMany? then "1:N" else "N:M"
  }

  predicate LineMissing(e: Schema, a: Schema, i: nat, d: Difference) {
    && i < |e.relationships| && (forall j: nat :: j < |a.relationships| ==> !Paired(Links(e), Links(a), i, j))
    && d == Difference(Missing, "relationships[" + Links(e)[i] + "]", EndsText(e.relationships[i].cardinality), "")
  }

  predicate LineExtra(e: Schema, a: Schema, j: nat, d: Difference) {
    && j < |a.relationships| && (forall i: nat :: i < |e.relationships| ==> !Paired(Links(e), Links(a), i, j))
    && d == Difference(Extra, "relationships[" + Links(a)[j] + "]", "", EndsText(a.relationships[j].cardinality))
  }

  predicate LineChanged(e: Schema, a: Schema, i: nat, j: nat, d: Difference) {
    && Paired(Links(e), Links(a), i, j) &&
    var x, y, path := e.relationships[i], a.relationships[j], "relationships[" + Links(e)[i] + "]";
    || (x.cardinality != y.cardinality && d == Difference(Changed, path, EndsText(x.cardinality), EndsText(y.cardinality)))
    || DescriptionLists(path, x.description, y.description, d)
  }

  ghost predicate LinesList(e: Schema, a: Schema, d: Difference) {
    || (exists i: nat :: LineMissing(e, a, i, d))
    || (exists j: nat :: LineExtra(e, a, j, d))
    || (exists i: nat, j: nat :: LineChanged(e, a, i, j, d))
  }

  ghost predicate Lists(e: Schema, a: Schema, includePositions: bool, d: Difference) {
    || TablesList(e.entities, a.entities, includePositions, d)
    || ReferencesList(References(e), References(a), d)
    || LinesList(e, a, d)
  }

  // ----- membership in a trace -----

  ghost predicate Has(trace: Trace, d: Difference) {
    d in DifferencesOf(trace)
  }

  lemma {:induction false} HasAppend(a: Trace, b: Trace, d: Difference)
    ensures Has(a + b, d) <==> Has(a, d) || Has(b, d)
    decreases |b|
  {
    if b == [] {
      assert a + b == a;
    } else {
      var front := b[..|b| - 1];
      HasAppend(a, front, d);
      assert (a + b)[..|a + b| - 1] == a + front;
      assert (a + b)[|a + b| - 1] == b[|b| - 1];
    }
  }

  lemma HasOne(event: Event, d: Difference)
    ensures Has([event], d) <==> d in event.differences
    ensures !Has([], d)
  {
    assert DifferencesOf([event][..0]) == [];
  }

  lemma {:induction false} HasSum(n: nat, f: nat -> Trace, d: Difference)
    ensures Has(Sum(n, f), d) <==> exists k: nat :: k < n && Has(f(k), d)
  {
    hide Has;
    if n == 0 {
      HasNone(d);
    } else {
      HasSum(n - 1, f, d);
      HasAppend(Sum(n - 1, f), f(n - 1), d);
    }
  }

  lemma HasNone(d: Difference)
    ensures !Has([], d)
  {
  }

  lemma HasSettled(category: Category, found: seq<Difference>, d: Difference)
    ensures Has(Settled(category, found), d) <==> d in found
    ensures !Has(Matched(category), d)
  {
    hide Has;
    HasOne(Matched(category)[0], d);
    HasOne(Settled(category, found)[0], d);
    assert Settled(category, found) == [Settled(category, found)[0]];
    assert Matched(category) == [Matched(category)[0]];
  }

  lemma HasRecorded(category: Category, one: Difference, d: Difference)
    ensures Has(Recorded(category, one), d) <==> d == one
  {
    hide Has;
    HasOne(Recorded(category, one)[0], d);
    assert Recorded(category, one) == [Recorded(category, one)[0]];
  }

  // ----- columns -----

  lemma DescriptionHas(path: string, e: string, a: string, d: Difference)
    ensures Has(DescriptionFound(path, e, a), d) <==> DescriptionLists(path, e, a, d)
  {
    hide Has, Recorded, Matched, Trim, Blank;
    TrimFacts(e);
    TrimFacts(a);
    var at := path + ".description";
    HasNone(d);
    HasSettled(Descriptions, [], d);
    HasRecorded(Descriptions, MissingAt(at, Trim(e)), d);
    HasRecorded(Descriptions, ExtraAt(at, Trim(a)), d);
    HasRecorded(Descriptions, ChangedAt(at, Trim(e), Trim(a)), d);
  }

  lemma FieldsHave(path: string, e: Attribute, a: Attribute, d: Difference)
    ensures d in ColumnFields(path, e, a) <==> FieldLists(path, e, a, d)
    ensures d in KeyFields(path, e, a) <==>
      || (e.primaryKey != a.primaryKey
          && d == Difference(Changed, path + ".primaryKey", TruthText(e.primaryKey), TruthText(a.primaryKey)))
      || (e.unique != a.unique && d == Difference(Changed, path + ".unique", TruthText(e.unique), TruthText(a.unique)))
  {
    hide TypeText;
    assert path + "." + "dataType" == path + ".dataType" && path + "." + "nullable" == path + ".nullable";
    assert path + "." + "default" == path + ".default" && path + "." + "primaryKey" == path + ".primaryKey";
    assert path + "." + "unique" == path + ".unique";
  }

  lemma FlagsHave(path: string, e: Attribute, a: Attribute, d: Difference)
    ensures Has(KeysFound(path, e, a), d) <==> FlagsList(path, e, a, d)
  {
    hide Has, Recorded, Settled, KeyFields;
    HasNone(d);
    FieldsHave(path, e, a, d);
    HasSettled(Keys, KeyFields(path, e, a), d);
    HasRecorded(Keys, MissingAt(path, SpellKeys(e)), d);
    HasRecorded(Keys, ExtraAt(path, SpellKeys(a)), d);
  }

  lemma ColumnHas(table: string, e: Attribute, a: Attribute, d: Difference)
    ensures Has(AttributeFound(table, e, a), d) <==> ColumnLists(table, e, a, d)
  {
    hide Has, Settled, ColumnFields, KeysFound, DescriptionFound, FieldLists, FlagsList, DescriptionLists;
    var path := ColumnPath(table, e.name);
    var fields, keys, prose := Settled(Columns, ColumnFields(path, e, a)), KeysFound(path, e, a), DescriptionFound(path, e.description, a.description);
    HasSettled(Columns, ColumnFields(path, e, a), d);
    FieldsHave(path, e, a, d);
    FlagsHave(path, e, a, d);
    DescriptionHas(path, e.description, a.description, d);
    HasAppend(fields, keys, d);
    HasAppend(fields + keys, prose, d);
  }

  lemma NoPartner(left: seq<string>, right: seq<string>, i: nat)
    ensures Partner(left, right, i).None? <==> forall k: nat :: k < |right| ==> !Paired(left, right, i, k)
  {
    hide Same, Rank;
  }

  lemma NotPartner(left: seq<string>, right: seq<string>, j: nat)
    ensures !HasPartner(left, right, j) <==> forall k: nat :: k < |left| ==> !Paired(left, right, k, j)
  {
    hide Same, Rank;
  }

  lemma ColumnPairHas(path: string, e: seq<Attribute>, a: seq<Attribute>, i: nat, j: nat, d: Difference)
    requires Paired(ColumnNames(e), ColumnNames(a), i, j)
    ensures i < |e| && (Has(ColumnRow(path, e, a, i), d) <==> ColumnChanged(path, e, a, i, j, d))
  {
    hide Has, Recorded, AttributeFound, ColumnLists, Same, Rank;
    PartnerIs(ColumnNames(e), ColumnNames(a), i, j);
    ColumnHas(path, e[i], a[j], d);
  }

  lemma ColumnLoneHas(path: string, e: seq<Attribute>, a: seq<Attribute>, i: nat, d: Difference)
    requires i < |e| && Partner(ColumnNames(e), ColumnNames(a), i).None?
    ensures Has(ColumnRow(path, e, a, i), d) <==> ColumnMissing(path, e, a, i, d)
  {
    hide Has, Recorded, AttributeFound, Paired;
    NoPartner(ColumnNames(e), ColumnNames(a), i);
    HasRecorded(Columns, MissingAt(ColumnPath(path, e[i].name), e[i].name), d);
  }

  lemma ExtraColumnHas(path: string, e: seq<Attribute>, a: seq<Attribute>, j: nat, d: Difference)
    requires j < |a|
    ensures Has(ExtraColumn(path, e, a, j), d) <==> ColumnExtra(path, e, a, j, d)
  {
    hide Has, Recorded, Paired, HasPartner;
    NotPartner(ColumnNames(e), ColumnNames(a), j);
    HasRecorded(Columns, ExtraAt(ColumnPath(path, a[j].name), a[j].name), d);
    HasNone(d);
  }

  lemma ColumnRowsHave(path: string, e: seq<Attribute>, a: seq<Attribute>, d: Difference)
    ensures Has(Sum(|e|, ColumnRows(path, e, a)), d)
      <==> (exists i: nat :: ColumnMissing(path, e, a, i, d)) || exists i: nat, j: nat :: ColumnChanged(path, e, a, i, j, d)
  {
    hide Has, ColumnRow, ColumnLists, Paired, Sum;
    var rows := ColumnRows(path, e, a);
    HasSum(|e|, rows, d);
    if i: nat :| i < |e| && Has(rows(i), d) {
      match Partner(ColumnNames(e), ColumnNames(a), i) {
        case None =>
          ColumnLoneHas(path, e, a, i, d);
        case Some(j) =>
          ColumnPairHas(path, e, a, i, j, d);
          assert ColumnChanged(path, e, a, i, j, d);
      }
    }
    if i: nat :| ColumnMissing(path, e, a, i, d) {
      NoPartner(ColumnNames(e), ColumnNames(a), i);
      ColumnLoneHas(path, e, a, i, d);
      assert Has(rows(i), d);
    }
    if i: nat, j: nat :| ColumnChanged(path, e, a, i, j, d) {
      ColumnPairHas(path, e, a, i, j, d);
      assert Has(rows(i), d);
    }
  }

  lemma ExtraColumnsHave(path: string, e: seq<Attribute>, a: seq<Attribute>, d: Difference)
    ensures Has(Sum(|a|, ExtraColumns(path, e, a)), d) <==> exists j: nat :: ColumnExtra(path, e, a, j, d)
  {
    hide Has, ExtraColumn, Paired, Sum;
    var extras := ExtraColumns(path, e, a);
    HasSum(|a|, extras, d);
    forall j: nat | j < |a|
      ensures Has(extras(j), d) <==> ColumnExtra(path, e, a, j, d)
    {
      ExtraColumnHas(path, e, a, j, d);
    }
    if j: nat :| ColumnExtra(path, e, a, j, d) {
      assert Has(extras(j), d);
    }
  }

  // ----- tables -----

  lemma TableHas(e: Entity, a: Entity, includePositions: bool, d: Difference)
    ensures Has(EntityFound(e, a, includePositions), d) <==> TableLists(e, a, includePositions, d)
  {
    hide Has, DescriptionFound, PositionFound, Sum, ColumnsList, DescriptionLists;
    var path := TablePath(e.name);
    var prose := DescriptionFound(path, e.description, a.description);
    var place := if includePositions then PositionFound(path, e, a) else [];
    var rows, extras := Sum(|e.attributes|, ColumnRows(path, e.attributes, a.attributes)), Sum(|a.attributes|, ExtraColumns(path, e.attributes, a.attributes));
    DescriptionHas(path, e.description, a.description, d);
    PlaceHas(path, e, a, d);
    HasNone(d);
    ColumnRowsHave(path, e.attributes, a.attributes, d);
    ExtraColumnsHave(path, e.attributes, a.attributes, d);
    ColumnsListIs(path, e.attributes, a.attributes, d);
    HasAppend(prose, place, d);
    HasAppend(prose + place, rows, d);
    HasAppend(prose + place + rows, extras, d);
  }

  lemma PlaceHas(path: string, e: Entity, a: Entity, d: Difference)
    ensures Has(PositionFound(path, e, a), d)
      <==> e.position != a.position && d == Difference(Changed, path + ".position", PlaceText(e.position), PlaceText(a.position))
  {
    hide Has, Recorded, Matched;
    HasSettled(Positions, [], d);
    HasRecorded(Positions, ChangedAt(path + ".position", PositionText(e.position), PositionText(a.position)), d);
  }

  lemma ColumnsListIs(path: string, e: seq<Attribute>, a: seq<Attribute>, d: Difference)
    ensures ColumnsList(path, e, a, d) <==>
      || (exists i: nat :: ColumnMissing(path, e, a, i, d))
      || (exists j: nat :: ColumnExtra(path, e, a, j, d))
      || (exists i: nat, j: nat :: ColumnChanged(path, e, a, i, j, d))
  {
    hide ColumnMissing, ColumnExtra, ColumnChanged;
  }

  lemma TablePairHas(e: seq<Entity>, a: seq<Entity>, includePositions: bool, i: nat, j: nat, d: Difference)
    requires Paired(TableNames(e), TableNames(a), i, j)
    ensures i < |e| && !Has(TableRow(e, a, i), d)
    ensures Has(ContentRow(e, a, includePositions, i), d) <==> TableChanged(e, a, includePositions, i, j, d)
  {
    hide Has, Recorded, Matched, EntityFound, TableLists, Same, Rank;
    PartnerIs(TableNames(e), TableNames(a), i, j);
    HasSettled(Tables, [], d);
    TableHas(e[i], a[j], includePositions, d);
  }

  lemma TableLoneHas(e: seq<Entity>, a: seq<Entity>, includePositions: bool, i: nat, d: Difference)
    requires i < |e| && Partner(TableNames(e), TableNames(a), i).None?
    ensures !Has(ContentRow(e, a, includePositions, i), d)
    ensures Has(TableRow(e, a, i), d) <==> TableMissing(e, a, i, d)
  {
    hide Has, Recorded, Matched, EntityFound, Paired;
    NoPartner(TableNames(e), TableNames(a), i);
    HasNone(d);
    HasRecorded(Tables, MissingAt(TablePath(e[i].name), e[i].name), d);
  }

  lemma ExtraTableHas(e: seq<Entity>, a: seq<Entity>, j: nat, d: Difference)
    requires j < |a|
    ensures Has(ExtraTable(e, a, j), d) <==> TableExtra(e, a, j, d)
  {
    hide Has, Recorded, Paired, HasPartner;
    NotPartner(TableNames(e), TableNames(a), j);
    HasRecorded(Tables, ExtraAt(TablePath(a[j].name), a[j].name), d);
    HasNone(d);
  }

  lemma TableRowsHave(e: seq<Entity>, a: seq<Entity>, d: Difference)
    ensures Has(Sum(|e|, TableRows(e, a)), d) <==> exists i: nat :: TableMissing(e, a, i, d)
  {
    hide Has, TableRow, Paired, Sum;
    var rows := TableRows(e, a);
    HasSum(|e|, rows, d);
    if i: nat :| i < |e| && Has(rows(i), d) {
      match Partner(TableNames(e), TableNames(a), i) {
        case None => TableLoneHas(e, a, false, i, d);
        case Some(j) => TablePairHas(e, a, false, i, j, d);
      }
    }
    if i: nat :| TableMissing(e, a, i, d) {
      NoPartner(TableNames(e), TableNames(a), i);
      TableLoneHas(e, a, false, i, d);
      assert Has(rows(i), d);
    }
  }

  lemma ContentRowsHave(e: seq<Entity>, a: seq<Entity>, includePositions: bool, d: Difference)
    ensures Has(Sum(|e|, ContentRows(e, a, includePositions)), d)
      <==> exists i: nat, j: nat :: TableChanged(e, a, includePositions, i, j, d)
  {
    hide Has, ContentRow, TableLists, Paired, Sum;
    var rows := ContentRows(e, a, includePositions);
    HasSum(|e|, rows, d);
    if i: nat :| i < |e| && Has(rows(i), d) {
      match Partner(TableNames(e), TableNames(a), i) {
        case None => TableLoneHas(e, a, includePositions, i, d);
        case Some(j) =>
          TablePairHas(e, a, includePositions, i, j, d);
          assert TableChanged(e, a, includePositions, i, j, d);
      }
    }
    if i: nat, j: nat :| TableChanged(e, a, includePositions, i, j, d) {
      TablePairHas(e, a, includePositions, i, j, d);
      assert Has(rows(i), d);
    }
  }

  lemma ExtraTablesHave(e: seq<Entity>, a: seq<Entity>, d: Difference)
    ensures Has(Sum(|a|, ExtraTables(e, a)), d) <==> exists j: nat :: TableExtra(e, a, j, d)
  {
    hide Has, ExtraTable, Paired, Sum;
    var extras := ExtraTables(e, a);
    HasSum(|a|, extras, d);
    forall j: nat | j < |a|
      ensures Has(extras(j), d) <==> TableExtra(e, a, j, d)
    {
      ExtraTableHas(e, a, j, d);
    }
    if j: nat :| TableExtra(e, a, j, d) {
      assert Has(extras(j), d);
    }
  }

  lemma TablesHave(e: Schema, a: Schema, includePositions: bool, d: Difference)
    ensures Has(TablesPart(e, a), d) || Has(ContentPart(e, a, includePositions), d)
      <==> TablesList(e.entities, a.entities, includePositions, d)
  {
    hide Has, TableRow, ContentRow, ExtraTable, TableMissing, TableExtra, TableChanged, Sum;
    var x, y := e.entities, a.entities;
    TableRowsHave(x, y, d);
    ExtraTablesHave(x, y, d);
    ContentRowsHave(x, y, includePositions, d);
    HasAppend(Sum(|x|, TableRows(x, y)), Sum(|y|, ExtraTables(x, y)), d);
  }

  // ----- foreign keys -----

  lemma HolderIs(references: seq<(string, string)>, holder: string, j: nat)
    ensures Holder(references, holder).None? <==> NoHolder(references, holder)
    ensures Holder(references, holder) == Some(j) <==> FirstHolder(references, holder, j)
  {
    hide Same;
    if FirstHolder(references, holder, j) {
      FirstIs(references, (r: (string, string)) => Same(r.0, holder), j);
    }
    FirstOnly(references, holder);
  }

  lemma FirstOnly(references: seq<(string, string)>, holder: string)
    ensures Holder(references, holder).Some? ==> FirstHolder(references, holder, Holder(references, holder).value)
  {
    hide Same;
    var p := (r: (string, string)) => Same(r.0, holder);
    assert Holder(references, holder) == First(references, p);
    assert forall k :: 0 <= k < |references| ==> p(references[k]) == Same(references[k].0, holder);
  }

  lemma ReferenceRowHas(e: seq<(string, string)>, a: seq<(string, string)>, i: nat, d: Difference)
    requires i < |e|
    ensures match Holder(a, e[i].0)
            case None => Has(ForeignKeyRow(e, a, i), d) <==> ReferenceLost(e, a, i, d)
            case Some(j) => Has(ForeignKeyRow(e, a, i), d) <==> ReferenceMoved(e, a, i, j, d)
  {
    hide Has, Recorded, Matched, Same, Holder, NoHolder, FirstHolder;
    var path := e[i].0 + ".foreignKey";
    HasSettled(ForeignKeys, [], d);
    match Holder(a, e[i].0) {
      case None =>
        HolderIs(a, e[i].0, 0);
        HasRecorded(ForeignKeys, MissingAt(path, e[i].1), d);
      case Some(j) =>
        HolderIs(a, e[i].0, j);
        HasRecorded(ForeignKeys, ChangedAt(path, e[i].1, a[j].1), d);
    }
  }

  lemma ReferenceRowsHave(e: seq<(string, string)>, a: seq<(string, string)>, d: Difference)
    ensures Has(Sum(|e|, ForeignKeyRows(e, a)), d)
      <==> (exists i: nat :: ReferenceLost(e, a, i, d)) || exists i: nat, j: nat :: ReferenceMoved(e, a, i, j, d)
  {
    hide Has, ForeignKeyRow, NoHolder, FirstHolder, Same, Sum, Holder;
    var rows := ForeignKeyRows(e, a);
    HasSum(|e|, rows, d);
    if i: nat :| i < |e| && Has(rows(i), d) {
      ReferenceRowHas(e, a, i, d);
    }
    if i: nat :| ReferenceLost(e, a, i, d) {
      HolderIs(a, e[i].0, 0);
      ReferenceRowHas(e, a, i, d);
      assert Has(rows(i), d);
    }
    if i: nat, j: nat :| ReferenceMoved(e, a, i, j, d) {
      HolderIs(a, e[i].0, j);
      ReferenceRowHas(e, a, i, d);
      assert Has(rows(i), d);
    }
  }

  lemma ExtraReferenceHas(e: seq<(string, string)>, a: seq<(string, string)>, j: nat, d: Difference)
    requires j < |a|
    ensures Has(ExtraForeignKey(e, a, j), d) <==> ReferenceAdded(e, a, j, d)
  {
    hide Has, Recorded, Same, Holder, NoHolder;
    HolderIs(e, a[j].0, 0);
    HasNone(d);
    HasRecorded(ForeignKeys, ExtraAt(a[j].0 + ".foreignKey", a[j].1), d);
  }

  lemma ExtraReferencesHave(e: seq<(string, string)>, a: seq<(string, string)>, d: Difference)
    ensures Has(Sum(|a|, ExtraForeignKeys(e, a)), d) <==> exists j: nat :: ReferenceAdded(e, a, j, d)
  {
    hide Has, ExtraForeignKey, NoHolder, Sum;
    var extras := ExtraForeignKeys(e, a);
    HasSum(|a|, extras, d);
    forall j: nat | j < |a|
      ensures Has(extras(j), d) <==> ReferenceAdded(e, a, j, d)
    {
      ExtraReferenceHas(e, a, j, d);
    }
    if j: nat :| ReferenceAdded(e, a, j, d) {
      assert Has(extras(j), d);
    }
  }

  lemma ReferencesHave(e: Schema, a: Schema, d: Difference)
    ensures Has(ForeignKeysPart(e, a), d) <==> ReferencesList(References(e), References(a), d)
  {
    hide Has, References, ReferenceLost, ReferenceAdded, ReferenceMoved, Sum;
    var x, y := References(e), References(a);
    ReferenceRowsHave(x, y, d);
    ExtraReferencesHave(x, y, d);
    HasAppend(Sum(|x|, ForeignKeyRows(x, y)), Sum(|y|, ExtraForeignKeys(x, y)), d);
  }

  // ----- relationships -----

  lemma LineHas(ends: string, e: Relationship, a: Relationship, d: Difference)
    ensures var path := "relationships[" + ends + "]";
            Has(LinkFound(ends, e, a), d) <==>
              || (e.cardinality != a.cardinality && d == Difference(Changed, path, EndsText(e.cardinality), EndsText(a.cardinality)))
              || DescriptionLists(path, e.description, a.description, d)
  {
    hide Has, Recorded, Matched, DescriptionFound, DescriptionLists;
    var path := LinkPath(ends);
    HasSettled(Relationships, [], d);
    HasRecorded(Relationships, ChangedAt(path, CardinalityText(e.cardinality), CardinalityText(a.cardinality)), d);
    DescriptionHas(path, e.description, a.description, d);
    var first := if e.cardinality == a.cardinality then Matched(Relationships)
                 else Recorded(Relationships, ChangedAt(path, CardinalityText(e.cardinality), CardinalityText(a.cardinality)));
    HasAppend(first, DescriptionFound(path, e.description, a.description), d);
  }

  lemma LinePairHas(e: Schema, a: Schema, i: nat, j: nat, d: Difference)
    requires Paired(Links(e), Links(a), i, j)
    ensures i < |e.relationships| && (Has(LinkRow(e, a, i), d) <==> LineChanged(e, a, i, j, d))
  {
    hide Has, Recorded, LinkFound, DescriptionLists, Same, Rank, LinkText;
    PartnerIs(Links(e), Links(a), i, j);
    LineHas(Links(e)[i], e.relationships[i], a.relationships[j], d);
  }

  lemma LineLoneHas(e: Schema, a: Schema, i: nat, d: Difference)
    requires i < |e.relationships| && Partner(Links(e), Links(a), i).None?
    ensures Has(LinkRow(e, a, i), d) <==> LineMissing(e, a, i, d)
  {
    hide Has, Recorded, LinkFound, Paired, LinkText;
    NoPartner(Links(e), Links(a), i);
    HasRecorded(Relationships, MissingAt(LinkPath(Links(e)[i]), CardinalityText(e.relationships[i].cardinality)), d);
  }

  lemma ExtraLineHas(e: Schema, a: Schema, j: nat, d: Difference)
    requires j < |a.relationships|
    ensures Has(ExtraLink(e, a, j), d) <==> LineExtra(e, a, j, d)
  {
    hide Has, Recorded, Paired, HasPartner, LinkText;
    NotPartner(Links(e), Links(a), j);
    HasNone(d);
    HasRecorded(Relationships, ExtraAt(LinkPath(Links(a)[j]), CardinalityText(a.relationships[j].cardinality)), d);
  }

  lemma LineRowsHave(e: Schema, a: Schema, d: Difference)
    ensures Has(Sum(|e.relationships|, LinkRows(e, a)), d)
      <==> (exists i: nat :: LineMissing(e, a, i, d)) || exists i: nat, j: nat :: LineChanged(e, a, i, j, d)
  {
    hide Has, LinkRow, DescriptionLists, Paired, Sum, LinkText;
    var rows := LinkRows(e, a);
    HasSum(|e.relationships|, rows, d);
    if i: nat :| i < |e.relationships| && Has(rows(i), d) {
      match Partner(Links(e), Links(a), i) {
        case None =>
          LineLoneHas(e, a, i, d);
        case Some(j) =>
          LinePairHas(e, a, i, j, d);
          assert LineChanged(e, a, i, j, d);
      }
    }
    if i: nat :| LineMissing(e, a, i, d) {
      NoPartner(Links(e), Links(a), i);
      LineLoneHas(e, a, i, d);
      assert Has(rows(i), d);
    }
    if i: nat, j: nat :| LineChanged(e, a, i, j, d) {
      LinePairHas(e, a, i, j, d);
      assert Has(rows(i), d);
    }
  }

  lemma ExtraLinesHave(e: Schema, a: Schema, d: Difference)
    ensures Has(Sum(|a.relationships|, ExtraLinks(e, a)), d) <==> exists j: nat :: LineExtra(e, a, j, d)
  {
    hide Has, ExtraLink, Paired, Sum, LinkText;
    var extras := ExtraLinks(e, a);
    HasSum(|a.relationships|, extras, d);
    forall j: nat | j < |a.relationships|
      ensures Has(extras(j), d) <==> LineExtra(e, a, j, d)
    {
      ExtraLineHas(e, a, j, d);
    }
    if j: nat :| LineExtra(e, a, j, d) {
      assert Has(extras(j), d);
    }
  }

  lemma LinesHave(e: Schema, a: Schema, d: Difference)
    ensures Has(RelationshipsPart(e, a), d) <==> LinesList(e, a, d)
  {
    hide Has, LineMissing, LineExtra, LineChanged, Sum;
    LineRowsHave(e, a, d);
    ExtraLinesHave(e, a, d);
    HasAppend(Sum(|e.relationships|, LinkRows(e, a)), Sum(|a.relationships|, ExtraLinks(e, a)), d);
  }

  // ----- the law -----

  /** The comparison lists exactly the differences there are, each under its own
      path, with what was expected first and what was found second. */
  lemma ListedIff(e: Schema, a: Schema, includePositions: bool, c: Comparison, d: Difference)
    requires IsTotal(c, Compared(e, a, includePositions))
    ensures d in c.differences <==> Lists(e, a, includePositions, d)
  {
    hide Has, TablesPart, ContentPart, ForeignKeysPart, RelationshipsPart, TablesList, ReferencesList, LinesList, References;
    var tables, content := TablesPart(e, a), ContentPart(e, a, includePositions);
    var keys, lines := ForeignKeysPart(e, a), RelationshipsPart(e, a);
    TablesHave(e, a, includePositions, d);
    ReferencesHave(e, a, d);
    LinesHave(e, a, d);
    HasAppend(tables, content, d);
    HasAppend(tables + content, keys, d);
    HasAppend(tables + content + keys, lines, d);
    HasIs(Compared(e, a, includePositions), d);
  }

  lemma HasIs(trace: Trace, d: Difference)
    ensures Has(trace, d) <==> d in DifferencesOf(trace)
  {
  }

  // ----- how many there are -----

  function OfKind(ds: seq<Difference>, kind: DifferenceKind): nat {
    if ds == [] then 0 else OfKind(ds[..|ds| - 1], kind) + (if ds[|ds| - 1].kind == kind then 1 else 0)
  }

  lemma {:induction false} OfKindAppend(a: seq<Difference>, b: seq<Difference>, kind: DifferenceKind)
    ensures OfKind(a + b, kind) == OfKind(a, kind) + OfKind(b, kind)
    decreases |b|
  {
    if b == [] {
      assert a + b == a;
    } else {
      OfKindAppend(a, b[..|b| - 1], kind);
      assert (a + b)[..|a + b| - 1] == a + b[..|b| - 1];
    }
  }

  lemma {:induction false} OnlyChanges(ds: seq<Difference>)
    requires forall k :: 0 <= k < |ds| ==> ds[k].kind.Changed?
    ensures OfKind(ds, Missing) == 0 && OfKind(ds, Extra) == 0 && OfKind(ds, Changed) == |ds|
  {
    if ds != [] {
      OnlyChanges(ds[..|ds| - 1]);
    }
  }

  /** All seven categories together. */
  function Overall(of: Category -> Counts): Counts {
    of(Tables).Plus(of(Columns)).Plus(of(Keys)).Plus(of(ForeignKeys)).Plus(of(Relationships)).Plus(of(Descriptions)).Plus(of(Positions))
  }

  ghost function Tally(trace: Trace): Counts {
    if trace == [] then NO_COUNTS else Tally(trace[..|trace| - 1]).Plus(trace[|trace| - 1].counts)
  }

  lemma OverallMore(f: Category -> Counts, g: Category -> Counts, category: Category, more: Counts)
    requires forall of: Category :: g(of) == if of == category then f(of).Plus(more) else f(of)
    ensures Overall(g) == Overall(f).Plus(more)
  {
  }

  ghost function CountsIn(trace: Trace): Category -> Counts {
    (of: Category) => CountsOf(trace, of)
  }

  lemma {:induction false} TallyIs(trace: Trace)
    ensures Overall(CountsIn(trace)) == Tally(trace)
  {
    hide Counts.Plus, Overall;
    if trace == [] {
      NothingTallied();
    } else {
      var before, last := trace[..|trace| - 1], trace[|trace| - 1];
      TallyIs(before);
      OverallMore(CountsIn(before), CountsIn(trace), last.category, last.counts);
    }
  }

  lemma NothingTallied()
    ensures Overall(CountsIn([])) == NO_COUNTS
  {
    hide CountsOf;
    forall of: Category
      ensures CountsIn([])(of) == NO_COUNTS
    {
      NothingCounts(of);
    }
    OverallNothing(CountsIn([]));
  }

  lemma OverallNothing(f: Category -> Counts)
    requires forall of: Category :: f(of) == NO_COUNTS
    ensures Overall(f) == NO_COUNTS
  {
    hide Counts.Plus;
    PlusZero(NO_COUNTS);
  }

  lemma OverallSame(f: Category -> Counts, g: Category -> Counts)
    requires forall of: Category :: f(of) == g(of)
    ensures Overall(f) == Overall(g)
  {
    hide Counts.Plus;
  }

  lemma EventCounted(e: Event)
    requires Honest(e)
    ensures OfKind(e.differences, Missing) == e.counts.missing && OfKind(e.differences, Extra) == e.counts.extra
    ensures e.counts.changed <= OfKind(e.differences, Changed)
  {
    if |e.differences| == 1 {
      assert e.differences[..0] == [];
    } else {
      OnlyChanges(e.differences);
    }
  }

  lemma {:induction false} TraceCounted(trace: Trace)
    requires AllHonest(trace)
    ensures OfKind(DifferencesOf(trace), Missing) == Tally(trace).missing && OfKind(DifferencesOf(trace), Extra) == Tally(trace).extra
    ensures Tally(trace).changed <= OfKind(DifferencesOf(trace), Changed)
  {
    hide Honest;
    if trace != [] {
      var before, last := trace[..|trace| - 1], trace[|trace| - 1];
      TraceCounted(before);
      EventCounted(last);
      OfKindAppend(DifferencesOf(before), last.differences, Missing);
      OfKindAppend(DifferencesOf(before), last.differences, Extra);
      OfKindAppend(DifferencesOf(before), last.differences, Changed);
    }
  }

  /** Each thing missing or extra is listed once, and each thing changed at least
      once: the list adds up to the counters. */
  lemma ListedOnce(e: Schema, a: Schema, includePositions: bool, c: Comparison)
    requires IsTotal(c, Compared(e, a, includePositions))
    ensures var all := Overall((of: Category) => c.Of(of));
            && OfKind(c.differences, Missing) == all.missing && OfKind(c.differences, Extra) == all.extra
            && all.changed <= OfKind(c.differences, Changed)
  {
    hide Compared, DifferencesOf, AllHonest, OfKind, CountsOf, Tally, Overall;
    HonestCompared(e, a, includePositions);
    TraceCounted(Compared(e, a, includePositions));
    TallyIs(Compared(e, a, includePositions));
    OverallSame(CountsIn(Compared(e, a, includePositions)), (of: Category) => c.Of(of));
  }
}
