/** The counts of a comparison, category by category, without the order or the
    wording of its differences. */
module Tallies {
  import opened Options
  import opened Strings
  import opened Domain
  import opened Comparisons
  import opened Matching
  import opened Differ
  import opened Sums

  const ONE_MATCHED := Counts(1, 0, 0, 0)
  const ONE_CHANGED := Counts(0, 0, 0, 1)

  predicate SameFields(e: Attribute, a: Attribute) {
    e.dataType == a.dataType && e.nullable == a.nullable && OrEmpty(e.defaultValue) == OrEmpty(a.defaultValue)
  }

  predicate SameKeys(e: Attribute, a: Attribute) {
    e.primaryKey == a.primaryKey && e.unique == a.unique
  }

  function FieldCounts(e: Attribute, a: Attribute): Counts {
    if SameFields(e, a) then ONE_MATCHED else ONE_CHANGED
  }

  function KeyCounts(e: Attribute, a: Attribute): Counts {
    if Flagged(e) then
      if Flagged(a) then if SameKeys(e, a) then ONE_MATCHED else ONE_CHANGED
      else ONE_MISSING
    else if Flagged(a) then ONE_EXTRA
    else NO_COUNTS
  }

  function DescriptionCounts(e: string, a: string): Counts {
    if Trim(e) == "" then if Trim(a) == "" then NO_COUNTS else ONE_EXTRA
    else if Trim(a) == "" then ONE_MISSING
    else if Trim(e) == Trim(a) then ONE_MATCHED
    else ONE_CHANGED
  }

  function AttributeCounts(e: Attribute, a: Attribute, category: Category): Counts {
    match category
    case Columns => FieldCounts(e, a)
    case Keys => KeyCounts(e, a)
    case Descriptions => DescriptionCounts(e.description, a.description)
    case _ => NO_COUNTS
  }

  lemma SettledCounts(category: Category, found: seq<Difference>, of: Category)
    ensures CountsOf(Settled(category, found), of)
         == if of != category then NO_COUNTS else if found == [] then ONE_MATCHED else ONE_CHANGED
  {
    CountsOfEvent(Settled(category, found)[0], of);
  }

  lemma RecordedCounts(category: Category, d: Difference, of: Category)
    ensures CountsOf(Recorded(category, d), of) == if of != category then NO_COUNTS else CountsOfKind(d.kind)
    ensures CountsOf(Matched(category), of) == if of != category then NO_COUNTS else ONE_MATCHED
  {
    CountsOfEvent(Recorded(category, d)[0], of);
    CountsOfEvent(Matched(category)[0], of);
  }

  lemma DescriptionFoundCounts(path: string, e: string, a: string, of: Category)
    ensures CountsOf(DescriptionFound(path, e, a), of) == if of == Descriptions then DescriptionCounts(e, a) else NO_COUNTS
  {
    hide CountsOf, Recorded, Matched, Trim;
    var at := path + ".description";
    RecordedCounts(Descriptions, MissingAt(at, Trim(e)), of);
    RecordedCounts(Descriptions, ExtraAt(at, Trim(a)), of);
    RecordedCounts(Descriptions, ChangedAt(at, Trim(e), Trim(a)), of);
    NothingCounts(of);
  }

  lemma NothingCounts(of: Category)
    ensures CountsOf([], of) == NO_COUNTS
  {
  }

  lemma KeysFoundCounts(path: string, e: Attribute, a: Attribute, of: Category)
    ensures CountsOf(KeysFound(path, e, a), of) == if of == Keys then KeyCounts(e, a) else NO_COUNTS
  {
    hide CountsOf, Recorded, Settled, Trim;
    RecordedCounts(Keys, MissingAt(path, SpellKeys(e)), of);
    RecordedCounts(Keys, ExtraAt(path, SpellKeys(a)), of);
    SettledCounts(Keys, KeyFields(path, e, a), of);
    NothingCounts(of);
  }

  lemma ColumnFieldsEmpty(path: string, e: Attribute, a: Attribute)
    ensures ColumnFields(path, e, a) == [] <==> SameFields(e, a)
  {
  }

  lemma AttributeFoundCounts(table: string, e: Attribute, a: Attribute, of: Category)
    ensures CountsOf(AttributeFound(table, e, a), of) == AttributeCounts(e, a, of)
  {
    hide CountsOf, ColumnFields, KeysFound, DescriptionFound, Settled, Counts.Plus, ColumnPath;
    var path := ColumnPath(table, e.name);
    var fields, keys := Settled(Columns, ColumnFields(path, e, a)), KeysFound(path, e, a);
    var prose := DescriptionFound(path, e.description, a.description);
    SettledCounts(Columns, ColumnFields(path, e, a), of);
    ColumnFieldsEmpty(path, e, a);
    KeysFoundCounts(path, e, a, of);
    DescriptionFoundCounts(path, e.description, a.description, of);
    CountsOfAppend(fields, keys, of);
    CountsOfAppend(fields + keys, prose, of);
    PlusZero(NO_COUNTS);
    PlusZero(AttributeCounts(e, a, of));
  }

  // ----- one table -----

  ghost function AttributeCells(e: seq<Attribute>, a: seq<Attribute>, of: Category): (nat, nat) -> Counts {
    (i: nat, j: nat) => if i < |e| && j < |a| then AttributeCounts(e[i], a[j], of) else NO_COUNTS
  }

  ghost function ColumnsCounts(e: seq<Attribute>, a: seq<Attribute>, of: Category): Counts {
    MatchTotal(ColumnNames(e), ColumnNames(a), AttributeCells(e, a, of), of == Columns)
  }

  lemma ColumnRowCounts(path: string, e: seq<Attribute>, a: seq<Attribute>, of: Category, i: nat)
    requires i < |e|
    ensures CountRows(ColumnRows(path, e, a), of)(i)
         == LeftCounts(ColumnNames(e), ColumnNames(a), AttributeCells(e, a, of), of == Columns)(i)
  {
    hide CountsOf, Recorded, AttributeFound, AttributeCounts, ColumnPath, Partner;
    match Partner(ColumnNames(e), ColumnNames(a), i) {
      case Some(j) => AttributeFoundCounts(path, e[i], a[j], of);
      case None => RecordedCounts(Columns, MissingAt(ColumnPath(path, e[i].name), e[i].name), of);
    }
  }

  lemma ExtraColumnCounts(path: string, e: seq<Attribute>, a: seq<Attribute>, of: Category, j: nat)
    requires j < |a|
    ensures CountRows(ExtraColumns(path, e, a), of)(j) == RightCounts(ColumnNames(e), ColumnNames(a), of == Columns)(j)
  {
    hide CountsOf, Recorded, ColumnPath, HasPartner;
    RecordedCounts(Columns, ExtraAt(ColumnPath(path, a[j].name), a[j].name), of);
    NothingCounts(of);
  }

  lemma ColumnsFoundCounts(path: string, e: seq<Attribute>, a: seq<Attribute>, of: Category)
    ensures CountsOf(Sum(|e|, ColumnRows(path, e, a)) + Sum(|a|, ExtraColumns(path, e, a)), of) == ColumnsCounts(e, a, of)
  {
    hide CountsOf, Sum, Counts.Plus, CountSum;
    var rows, extras := ColumnRows(path, e, a), ExtraColumns(path, e, a);
    CountsOfAppend(Sum(|e|, rows), Sum(|a|, extras), of);
    CountsOfSum(|e|, rows, of);
    CountsOfSum(|a|, extras, of);
    forall i: nat | i < |e|
      ensures CountRows(rows, of)(i) == LeftCounts(ColumnNames(e), ColumnNames(a), AttributeCells(e, a, of), of == Columns)(i)
    {
      ColumnRowCounts(path, e, a, of, i);
    }
    forall j: nat | j < |a|
      ensures CountRows(extras, of)(j) == RightCounts(ColumnNames(e), ColumnNames(a), of == Columns)(j)
    {
      ExtraColumnCounts(path, e, a, of, j);
    }
    CountSumCongruent(|e|, CountRows(rows, of), LeftCounts(ColumnNames(e), ColumnNames(a), AttributeCells(e, a, of), of == Columns));
    CountSumCongruent(|a|, CountRows(extras, of), RightCounts(ColumnNames(e), ColumnNames(a), of == Columns));
  }

  ghost function HeadCounts(e: Entity, a: Entity, includePositions: bool, of: Category): Counts {
    match of
    case Descriptions => DescriptionCounts(e.description, a.description)
    case Positions =>
      if !includePositions then NO_COUNTS else if e.position == a.position then ONE_MATCHED else ONE_CHANGED
    case _ => NO_COUNTS
  }

  ghost function EntityCounts(e: Entity, a: Entity, includePositions: bool, of: Category): Counts {
    HeadCounts(e, a, includePositions, of).Plus(ColumnsCounts(e.attributes, a.attributes, of))
  }

  lemma PositionFoundCounts(path: string, e: Entity, a: Entity, of: Category)
    ensures CountsOf(PositionFound(path, e, a), of)
         == if of != Positions then NO_COUNTS else if e.position == a.position then ONE_MATCHED else ONE_CHANGED
  {
    hide CountsOf, Recorded, Matched, PositionText;
    RecordedCounts(Positions, ChangedAt(path + ".position", PositionText(e.position), PositionText(a.position)), of);
  }

  lemma EntityFoundCounts(e: Entity, a: Entity, includePositions: bool, of: Category)
    ensures CountsOf(EntityFound(e, a, includePositions), of) == EntityCounts(e, a, includePositions, of)
  {
    hide CountsOf, Sum, Counts.Plus, DescriptionFound, PositionFound, ColumnsCounts, DescriptionCounts, TablePath, ColumnRows, ExtraColumns;
    var path := TablePath(e.name);
    var prose := DescriptionFound(path, e.description, a.description);
    var place := if includePositions then PositionFound(path, e, a) else [];
    var rows, extras := Sum(|e.attributes|, ColumnRows(path, e.attributes, a.attributes)),
                        Sum(|a.attributes|, ExtraColumns(path, e.attributes, a.attributes));
    DescriptionFoundCounts(path, e.description, a.description, of);
    PositionFoundCounts(path, e, a, of);
    NothingCounts(of);
    ColumnsFoundCounts(path, e.attributes, a.attributes, of);
    Associative(prose + place, rows, extras);
    CountsOfAppend(prose, place, of);
    CountsOfAppend(prose + place, rows + extras, of);
    PlusZero(HeadCounts(e, a, includePositions, of));
  }

  // ----- the whole comparison -----

  ghost function TableCells(of: Category): (nat, nat) -> Counts {
    (i: nat, j: nat) => if of == Tables then ONE_MATCHED else NO_COUNTS
  }

  ghost function EntityCells(e: seq<Entity>, a: seq<Entity>, includePositions: bool, of: Category): (nat, nat) -> Counts {
    (i: nat, j: nat) => if i < |e| && j < |a| then EntityCounts(e[i], a[j], includePositions, of) else NO_COUNTS
  }

  ghost function TablesCounts(e: seq<Entity>, a: seq<Entity>, of: Category): Counts {
    MatchTotal(TableNames(e), TableNames(a), TableCells(of), of == Tables)
  }

  ghost function ContentCounts(e: seq<Entity>, a: seq<Entity>, includePositions: bool, of: Category): Counts {
    MatchTotal(TableNames(e), TableNames(a), EntityCells(e, a, includePositions, of), false)
  }

  lemma TableRowCounts(e: seq<Entity>, a: seq<Entity>, of: Category, i: nat)
    requires i < |e|
    ensures CountRows(TableRows(e, a), of)(i) == LeftCounts(TableNames(e), TableNames(a), TableCells(of), of == Tables)(i)
  {
    hide CountsOf, Recorded, Matched, TablePath, Partner;
    RecordedCounts(Tables, MissingAt(TablePath(e[i].name), e[i].name), of);
  }

  lemma ExtraTableCounts(e: seq<Entity>, a: seq<Entity>, of: Category, j: nat)
    requires j < |a|
    ensures CountRows(ExtraTables(e, a), of)(j) == RightCounts(TableNames(e), TableNames(a), of == Tables)(j)
  {
    hide CountsOf, Recorded, TablePath, HasPartner;
    RecordedCounts(Tables, ExtraAt(TablePath(a[j].name), a[j].name), of);
    NothingCounts(of);
  }

  lemma TablesPartCounts(e: Schema, a: Schema, of: Category)
    ensures CountsOf(TablesPart(e, a), of) == TablesCounts(e.entities, a.entities, of)
  {
    hide CountsOf, Sum, Counts.Plus, CountSum;
    var es, as_ := e.entities, a.entities;
    var rows, extras := TableRows(es, as_), ExtraTables(es, as_);
    CountsOfAppend(Sum(|es|, rows), Sum(|as_|, extras), of);
    CountsOfSum(|es|, rows, of);
    CountsOfSum(|as_|, extras, of);
    forall i: nat | i < |es|
      ensures CountRows(rows, of)(i) == LeftCounts(TableNames(es), TableNames(as_), TableCells(of), of == Tables)(i)
    {
      TableRowCounts(es, as_, of, i);
    }
    forall j: nat | j < |as_|
      ensures CountRows(extras, of)(j) == RightCounts(TableNames(es), TableNames(as_), of == Tables)(j)
    {
      ExtraTableCounts(es, as_, of, j);
    }
    CountSumCongruent(|es|, CountRows(rows, of), LeftCounts(TableNames(es), TableNames(as_), TableCells(of), of == Tables));
    CountSumCongruent(|as_|, CountRows(extras, of), RightCounts(TableNames(es), TableNames(as_), of == Tables));
  }

  lemma ContentRowCounts(e: seq<Entity>, a: seq<Entity>, includePositions: bool, of: Category, i: nat)
    requires i < |e|
    ensures CountRows(ContentRows(e, a, includePositions), of)(i)
         == LeftCounts(TableNames(e), TableNames(a), EntityCells(e, a, includePositions, of), false)(i)
  {
    hide CountsOf, EntityFound, EntityCounts, Partner;
    match Partner(TableNames(e), TableNames(a), i) {
      case Some(j) => EntityFoundCounts(e[i], a[j], includePositions, of);
      case None => NothingCounts(of);
    }
  }

  lemma ContentPartCounts(e: Schema, a: Schema, includePositions: bool, of: Category)
    ensures CountsOf(ContentPart(e, a, includePositions), of) == ContentCounts(e.entities, a.entities, includePositions, of)
  {
    hide CountsOf, Sum, Counts.Plus, CountSum;
    var es, as_ := e.entities, a.entities;
    var rows := ContentRows(es, as_, includePositions);
    var cells := EntityCells(es, as_, includePositions, of);
    CountsOfSum(|es|, rows, of);
    forall i: nat | i < |es|
      ensures CountRows(rows, of)(i) == LeftCounts(TableNames(es), TableNames(as_), cells, false)(i)
    {
      ContentRowCounts(es, as_, includePositions, of, i);
    }
    CountSumCongruent(|es|, CountRows(rows, of), LeftCounts(TableNames(es), TableNames(as_), cells, false));
    CountSumZero(|as_|, RightCounts(TableNames(es), TableNames(as_), false));
    PlusZero(CountSum(|es|, CountRows(rows, of)));
  }

  /** What the `i`-th expected foreign key counts for. */
  ghost function KeyRowCount(left: seq<(string, string)>, right: seq<(string, string)>, i: nat): Counts {
    if i >= |left| then NO_COUNTS
    else
      match Holder(right, left[i].0)
      case None => ONE_MISSING
      case Some(j) => if Same(right[j].1, left[i].1) then ONE_MATCHED else ONE_CHANGED
  }

  ghost function KeyRowCounts(left: seq<(string, string)>, right: seq<(string, string)>, of: Category): nat -> Counts {
    (i: nat) => if of == ForeignKeys then KeyRowCount(left, right, i) else NO_COUNTS
  }

  ghost function ExtraKeyCounts(left: seq<(string, string)>, right: seq<(string, string)>, of: Category): nat -> Counts {
    (j: nat) => if of == ForeignKeys && j < |right| && Holder(left, right[j].0).None? then ONE_EXTRA else NO_COUNTS
  }

  ghost function ForeignKeyCounts(left: seq<(string, string)>, right: seq<(string, string)>, of: Category): Counts {
    CountSum(|left|, KeyRowCounts(left, right, of)).Plus(CountSum(|right|, ExtraKeyCounts(left, right, of)))
  }

  lemma ForeignKeyRowCounts(left: seq<(string, string)>, right: seq<(string, string)>, of: Category, i: nat)
    requires i < |left|
    ensures CountRows(ForeignKeyRows(left, right), of)(i) == KeyRowCounts(left, right, of)(i)
  {
    hide CountsOf, Recorded, Matched, Holder, Same;
    var path := left[i].0 + ".foreignKey";
    match Holder(right, left[i].0) {
      case None => RecordedCounts(ForeignKeys, MissingAt(path, left[i].1), of);
      case Some(j) => RecordedCounts(ForeignKeys, ChangedAt(path, left[i].1, right[j].1), of);
    }
  }

  lemma ExtraForeignKeyCounts(left: seq<(string, string)>, right: seq<(string, string)>, of: Category, j: nat)
    requires j < |right|
    ensures CountRows(ExtraForeignKeys(left, right), of)(j) == ExtraKeyCounts(left, right, of)(j)
  {
    hide CountsOf, Recorded, Holder;
    RecordedCounts(ForeignKeys, ExtraAt(right[j].0 + ".foreignKey", right[j].1), of);
    NothingCounts(of);
  }

  lemma ForeignKeysPartCounts(e: Schema, a: Schema, of: Category)
    ensures CountsOf(ForeignKeysPart(e, a), of) == ForeignKeyCounts(References(e), References(a), of)
  {
    hide CountsOf, Sum, Counts.Plus, CountSum, References;
    var left, right := References(e), References(a);
    var rows, extras := ForeignKeyRows(left, right), ExtraForeignKeys(left, right);
    CountsOfAppend(Sum(|left|, rows), Sum(|right|, extras), of);
    CountsOfSum(|left|, rows, of);
    CountsOfSum(|right|, extras, of);
    forall i: nat | i < |left|
      ensures CountRows(rows, of)(i) == KeyRowCounts(left, right, of)(i)
    {
      ForeignKeyRowCounts(left, right, of, i);
    }
    forall j: nat | j < |right|
      ensures CountRows(extras, of)(j) == ExtraKeyCounts(left, right, of)(j)
    {
      ExtraForeignKeyCounts(left, right, of, j);
    }
    CountSumCongruent(|left|, CountRows(rows, of), KeyRowCounts(left, right, of));
    CountSumCongruent(|right|, CountRows(extras, of), ExtraKeyCounts(left, right, of));
  }

  function LinkCounts(e: Relationship, a: Relationship, of: Category): Counts {
    match of
    case Relationships => if e.cardinality == a.cardinality then ONE_MATCHED else ONE_CHANGED
    case Descriptions => DescriptionCounts(e.description, a.description)
    case _ => NO_COUNTS
  }

  ghost function LinkCells(e: seq<Relationship>, a: seq<Relationship>, of: Category): (nat, nat) -> Counts {
    (i: nat, j: nat) => if i < |e| && j < |a| then LinkCounts(e[i], a[j], of) else NO_COUNTS
  }

  ghost function LinksCounts(e: Schema, a: Schema, of: Category): Counts {
    MatchTotal(Links(e), Links(a), LinkCells(e.relationships, a.relationships, of), of == Relationships)
  }

  lemma LinkFoundCounts(ends: string, e: Relationship, a: Relationship, of: Category)
    ensures CountsOf(LinkFound(ends, e, a), of) == LinkCounts(e, a, of)
  {
    hide CountsOf, Recorded, Matched, DescriptionFound, DescriptionCounts, Counts.Plus, LinkPath, CardinalityText;
    var path := LinkPath(ends);
    var d := ChangedAt(path, CardinalityText(e.cardinality), CardinalityText(a.cardinality));
    RecordedCounts(Relationships, d, of);
    DescriptionFoundCounts(path, e.description, a.description, of);
    CountsOfAppend(if e.cardinality == a.cardinality then Matched(Relationships) else Recorded(Relationships, d),
                   DescriptionFound(path, e.description, a.description), of);
    PlusZero(LinkCounts(e, a, of));
  }

  lemma LinkRowCounts(e: Schema, a: Schema, of: Category, i: nat)
    requires i < |e.relationships|
    ensures CountRows(LinkRows(e, a), of)(i)
         == LeftCounts(Links(e), Links(a), LinkCells(e.relationships, a.relationships, of), of == Relationships)(i)
  {
    hide CountsOf, Recorded, LinkFound, LinkCounts, LinkPath, CardinalityText, Partner;
    var ends := Links(e)[i];
    match Partner(Links(e), Links(a), i) {
      case Some(j) => LinkFoundCounts(ends, e.relationships[i], a.relationships[j], of);
      case None =>
        RecordedCounts(Relationships, MissingAt(LinkPath(ends), CardinalityText(e.relationships[i].cardinality)), of);
    }
  }

  lemma ExtraLinkCounts(e: Schema, a: Schema, of: Category, j: nat)
    requires j < |a.relationships|
    ensures CountRows(ExtraLinks(e, a), of)(j) == RightCounts(Links(e), Links(a), of == Relationships)(j)
  {
    hide CountsOf, Recorded, LinkPath, CardinalityText, HasPartner;
    RecordedCounts(Relationships, ExtraAt(LinkPath(Links(a)[j]), CardinalityText(a.relationships[j].cardinality)), of);
    NothingCounts(of);
  }

  lemma RelationshipsPartCounts(e: Schema, a: Schema, of: Category)
    ensures CountsOf(RelationshipsPart(e, a), of) == LinksCounts(e, a, of)
  {
    hide CountsOf, Sum, Counts.Plus, CountSum, Links;
    var n, m := |e.relationships|, |a.relationships|;
    var rows, extras := LinkRows(e, a), ExtraLinks(e, a);
    var cells := LinkCells(e.relationships, a.relationships, of);
    CountsOfAppend(Sum(n, rows), Sum(m, extras), of);
    CountsOfSum(n, rows, of);
    CountsOfSum(m, extras, of);
    forall i: nat | i < n
      ensures CountRows(rows, of)(i) == LeftCounts(Links(e), Links(a), cells, of == Relationships)(i)
    {
      LinkRowCounts(e, a, of, i);
    }
    forall j: nat | j < m
      ensures CountRows(extras, of)(j) == RightCounts(Links(e), Links(a), of == Relationships)(j)
    {
      ExtraLinkCounts(e, a, of, j);
    }
    CountSumCongruent(n, CountRows(rows, of), LeftCounts(Links(e), Links(a), cells, of == Relationships));
    CountSumCongruent(m, CountRows(extras, of), RightCounts(Links(e), Links(a), of == Relationships));
  }

  /** Everything a comparison counts in one category. */
  ghost function SchemaCounts(e: Schema, a: Schema, includePositions: bool, of: Category): Counts {
    TablesCounts(e.entities, a.entities, of)
    .Plus(ContentCounts(e.entities, a.entities, includePositions, of))
    .Plus(ForeignKeyCounts(References(e), References(a), of))
    .Plus(LinksCounts(e, a, of))
  }

  lemma ComparedCounts(e: Schema, a: Schema, includePositions: bool, of: Category)
    ensures CountsOf(Compared(e, a, includePositions), of) == SchemaCounts(e, a, includePositions, of)
  {
    hide CountsOf, TablesPart, ContentPart, ForeignKeysPart, RelationshipsPart, Counts.Plus;
    hide TablesCounts, ContentCounts, ForeignKeyCounts, LinksCounts, References;
    var tables, content := TablesPart(e, a), ContentPart(e, a, includePositions);
    var keys, links := ForeignKeysPart(e, a), RelationshipsPart(e, a);
    CountsOfAppend(tables, content, of);
    CountsOfAppend(tables + content, keys, of);
    CountsOfAppend(tables + content + keys, links, of);
    TablesPartCounts(e, a, of);
    ContentPartCounts(e, a, includePositions, of);
    ForeignKeysPartCounts(e, a, of);
    RelationshipsPartCounts(e, a, of);
  }
}
