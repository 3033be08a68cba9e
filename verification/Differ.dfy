/** The comparison of two schemas: what each step adds, and the loops that add
    it. Names are matched, never ids. */
module Differ {
  import opened Options
  import opened Strings
  import opened Decimal
  import opened Domain
  import opened Comparisons
  import opened Matching

  function TablePath(name: string): string {
    "entities[" + name + "]"
  }

  function ColumnPath(table: string, name: string): string {
    table + ".attributes[" + name + "]"
  }

  function MissingAt(path: string, expected: string): Difference {
    Difference(Missing, path, expected, "")
  }

  function ExtraAt(path: string, actual: string): Difference {
    Difference(Extra, path, "", actual)
  }

  function ChangedAt(path: string, expected: string, actual: string): Difference {
    Difference(Changed, path, expected, actual)
  }

  // ----- one column -----

  function BoolText(b: bool): string {
    if b then "true" else "false"
  }

  /** The difference in one field, if there is one. */
  function FieldDifference<T(==)>(path: string, name: string, expected: T, actual: T, text: T -> string): seq<Difference> {
    if expected == actual then [] else [ChangedAt(path + "." + name, text(expected), text(actual))]
  }

  function ColumnFields(path: string, expected: Attribute, actual: Attribute): seq<Difference> {
    FieldDifference(path, "dataType", expected.dataType, actual.dataType, TypeText)
    + FieldDifference(path, "nullable", expected.nullable, actual.nullable, BoolText)
    + FieldDifference(path, "default", OrEmpty(expected.defaultValue), OrEmpty(actual.defaultValue), (s: string) => s)
  }

  predicate Flagged(a: Attribute) {
    a.primaryKey || a.unique
  }

  function SpellKeys(a: Attribute): string {
    if a.primaryKey && a.unique then "primary key, unique"
    else if a.primaryKey then "primary key"
    else if a.unique then "unique"
    else ""
  }

  function KeyFields(path: string, expected: Attribute, actual: Attribute): seq<Difference> {
    FieldDifference(path, "primaryKey", expected.primaryKey, actual.primaryKey, BoolText)
    + FieldDifference(path, "unique", expected.unique, actual.unique, BoolText)
  }

  function KeysFound(path: string, expected: Attribute, actual: Attribute): Trace {
    match (Flagged(expected), Flagged(actual))
    case (false, false) => []
    case (true, false) => Recorded(Keys, MissingAt(path, SpellKeys(expected)))
    case (false, true) => Recorded(Keys, ExtraAt(path, SpellKeys(actual)))
    case (true, true) => Settled(Keys, KeyFields(path, expected, actual))
  }

  function DescriptionFound(path: string, expected: string, actual: string): Trace {
    var at, left, right := path + ".description", Trim(expected), Trim(actual);
    match (left == "", right == "")
    case (true, true) => []
    case (false, true) => Recorded(Descriptions, MissingAt(at, left))
    case (true, false) => Recorded(Descriptions, ExtraAt(at, right))
    case (false, false) =>
      if left == right then Matched(Descriptions) else Recorded(Descriptions, ChangedAt(at, left, right))
  }

  function AttributeFound(table: string, expected: Attribute, actual: Attribute): Trace {
    var path := ColumnPath(table, expected.name);
    Settled(Columns, ColumnFields(path, expected, actual))
    + KeysFound(path, expected, actual)
    + DescriptionFound(path, expected.description, actual.description)
  }

  method CompareKeys(path: string, expected: Attribute, actual: Attribute, log: Log)
    requires log.Valid()
    modifies log
    ensures log.Valid()
    ensures log.trace == old(log.trace) + KeysFound(path, expected, actual)
  {
    hide Settled, Recorded, KeyFields, IsTotal;
    match (Flagged(expected), Flagged(actual)) {
      case (false, false) =>
      case (true, false) => log.Record(Keys, MissingAt(path, SpellKeys(expected)));
      case (false, true) => log.Record(Keys, ExtraAt(path, SpellKeys(actual)));
      case (true, true) => log.Settle(Keys, KeyFields(path, expected, actual));
    }
  }

  method CompareDescription(path: string, expected: string, actual: string, log: Log)
    requires log.Valid()
    modifies log
    ensures log.Valid()
    ensures log.trace == old(log.trace) + DescriptionFound(path, expected, actual)
  {
    hide Matched, Recorded, MissingAt, ExtraAt, ChangedAt, Trim, IsTotal;
    var at, left, right := path + ".description", Trim(expected), Trim(actual);
    if left == "" {
      if right == "" {
      } else {
        log.Record(Descriptions, ExtraAt(at, right));
      }
    } else if right == "" {
      log.Record(Descriptions, MissingAt(at, left));
    } else if left == right {
      log.Match(Descriptions);
    } else {
      log.Record(Descriptions, ChangedAt(at, left, right));
    }
  }

  method CompareAttribute(table: string, expected: Attribute, actual: Attribute, log: Log)
    requires log.Valid()
    modifies log
    ensures log.Valid()
    ensures log.trace == old(log.trace) + AttributeFound(table, expected, actual)
  {
    hide Settled, ColumnFields, KeysFound, DescriptionFound, ColumnPath, IsTotal;
    ghost var start := log.trace;
    var path := ColumnPath(table, expected.name);
    log.Settle(Columns, ColumnFields(path, expected, actual));
    CompareKeys(path, expected, actual, log);
    CompareDescription(path, expected.description, actual.description, log);
    Grouped3(start, Settled(Columns, ColumnFields(path, expected, actual)), KeysFound(path, expected, actual),
             DescriptionFound(path, expected.description, actual.description));
  }

  lemma Grouped3(start: Trace, a: Trace, b: Trace, c: Trace)
    ensures start + a + b + c == start + (a + b + c)
  {
    Associative(start, a, b);
    Associative(start, a + b, c);
  }

  /** A loop's next step. */
  lemma SumNext(start: Trace, n: nat, f: nat -> Trace)
    ensures start + Sum(n, f) + f(n) == start + Sum(n + 1, f)
  {
    Associative(start, Sum(n, f), f(n));
  }

  // ----- one table -----

  function PositionText(p: Position): string {
    IntText(p.x) + ", " + IntText(p.y)
  }

  function PositionFound(path: string, expected: Entity, actual: Entity): Trace {
    if expected.position == actual.position then Matched(Positions)
    else Recorded(Positions, ChangedAt(path + ".position", PositionText(expected.position), PositionText(actual.position)))
  }

  function ColumnRow(path: string, expected: seq<Attribute>, actual: seq<Attribute>, i: nat): Trace {
    if i >= |expected| then []
    else
      match Partner(ColumnNames(expected), ColumnNames(actual), i)
      case Some(j) => AttributeFound(path, expected[i], actual[j])
      case None => Recorded(Columns, MissingAt(ColumnPath(path, expected[i].name), expected[i].name))
  }

  function ColumnRows(path: string, expected: seq<Attribute>, actual: seq<Attribute>): nat -> Trace {
    (i: nat) => ColumnRow(path, expected, actual, i)
  }

  function ExtraColumn(path: string, expected: seq<Attribute>, actual: seq<Attribute>, j: nat): Trace {
    if j >= |actual| || HasPartner(ColumnNames(expected), ColumnNames(actual), j) then []
    else Recorded(Columns, ExtraAt(ColumnPath(path, actual[j].name), actual[j].name))
  }

  function ExtraColumns(path: string, expected: seq<Attribute>, actual: seq<Attribute>): nat -> Trace {
    (j: nat) => ExtraColumn(path, expected, actual, j)
  }

  ghost function EntityFound(expected: Entity, actual: Entity, includePositions: bool): Trace {
    var path := TablePath(expected.name);
    DescriptionFound(path, expected.description, actual.description)
    + (if includePositions then PositionFound(path, expected, actual) else [])
    + Sum(|expected.attributes|, ColumnRows(path, expected.attributes, actual.attributes))
    + Sum(|actual.attributes|, ExtraColumns(path, expected.attributes, actual.attributes))
  }

  /** The `i`-th expected column against the first free one of its name. */
  method CompareColumn(path: string, expected: seq<Attribute>, actual: seq<Attribute>, i: nat, taken: seq<bool>, log: Log)
    returns (after: seq<bool>)
    requires log.Valid() && i < |expected| && TakenBy(ColumnNames(expected), ColumnNames(actual), i, taken)
    modifies log
    ensures log.Valid() && TakenBy(ColumnNames(expected), ColumnNames(actual), i + 1, after)
    ensures log.trace == old(log.trace) + ColumnRow(path, expected, actual, i)
  {
    hide Recorded, AttributeFound, ColumnPath, Paired, Same, TakenBy, IsTotal, FindFree, Partner;
    var right := ColumnNames(actual);
    FreeIsPartner(ColumnNames(expected), right, i, taken);
    TakeNext(ColumnNames(expected), right, i, taken);
    after := taken;
    match FindFree(right, taken, expected[i].name) {
      case Some(at) =>
        after := after[at := true];
        CompareAttribute(path, expected[i], actual[at], log);
      case None =>
        log.Record(Columns, MissingAt(ColumnPath(path, expected[i].name), expected[i].name));
    }
  }

  method CompareColumns(path: string, expected: seq<Attribute>, actual: seq<Attribute>, log: Log)
    requires log.Valid()
    modifies log
    ensures log.Valid()
    ensures log.trace == old(log.trace)
                         + Sum(|expected|, ColumnRows(path, expected, actual))
                         + Sum(|actual|, ExtraColumns(path, expected, actual))
  {
    hide Recorded, ColumnPath, Paired, TakenBy, IsTotal, ColumnRow;
    ghost var left, right, start := ColumnNames(expected), ColumnNames(actual), log.trace;
    ghost var rows, extras := ColumnRows(path, expected, actual), ExtraColumns(path, expected, actual);
    var taken := seq(|actual|, _ => false);
    NoneTaken(left, right, taken);
    for i := 0 to |expected|
      invariant log.Valid() && TakenBy(left, right, i, taken)
      invariant log.trace == start + Sum(i, rows)
    {
      SumNext(start, i, rows);
      taken := CompareColumn(path, expected, actual, i, taken, log);
    }
    ghost var middle := log.trace;
    for j := 0 to |actual|
      invariant log.Valid() && log.trace == middle + Sum(j, extras)
    {
      AllTaken(left, right, taken, j);
      SumNext(middle, j, extras);
      if !taken[j] {
        log.Record(Columns, ExtraAt(ColumnPath(path, actual[j].name), actual[j].name));
      }
    }
  }

  method CompareEntity(expected: Entity, actual: Entity, includePositions: bool, log: Log)
    requires log.Valid()
    modifies log
    ensures log.Valid()
    ensures log.trace == old(log.trace) + EntityFound(expected, actual, includePositions)
  {
    hide DescriptionFound, Matched, Recorded, Sum, IsTotal, TablePath, ChangedAt;
    ghost var start := log.trace;
    var path := TablePath(expected.name);
    CompareDescription(path, expected.description, actual.description, log);
    if includePositions {
      if expected.position == actual.position {
        log.Match(Positions);
      } else {
        log.Record(Positions, ChangedAt(path + ".position", PositionText(expected.position), PositionText(actual.position)));
      }
    } else {
    }
    CompareColumns(path, expected.attributes, actual.attributes, log);
    ghost var a := DescriptionFound(path, expected.description, actual.description);
    ghost var b := if includePositions then PositionFound(path, expected, actual) else [];
    ghost var c := Sum(|expected.attributes|, ColumnRows(path, expected.attributes, actual.attributes));
    ghost var d := Sum(|actual.attributes|, ExtraColumns(path, expected.attributes, actual.attributes));
    Grouped3(start, a, b, c);
    Associative(start, a + b + c, d);
  }

  // ----- all tables -----

  function TableRow(expected: seq<Entity>, actual: seq<Entity>, i: nat): Trace {
    if i >= |expected| then []
    else
      match Partner(TableNames(expected), TableNames(actual), i)
      case Some(_) => Matched(Tables)
      case None => Recorded(Tables, MissingAt(TablePath(expected[i].name), expected[i].name))
  }

  function TableRows(expected: seq<Entity>, actual: seq<Entity>): nat -> Trace {
    (i: nat) => TableRow(expected, actual, i)
  }

  function ExtraTable(expected: seq<Entity>, actual: seq<Entity>, j: nat): Trace {
    if j >= |actual| || HasPartner(TableNames(expected), TableNames(actual), j) then []
    else Recorded(Tables, ExtraAt(TablePath(actual[j].name), actual[j].name))
  }

  function ExtraTables(expected: seq<Entity>, actual: seq<Entity>): nat -> Trace {
    (j: nat) => ExtraTable(expected, actual, j)
  }

  /** The contents of the `i`-th expected table against its partner's. */
  ghost function ContentRow(expected: seq<Entity>, actual: seq<Entity>, includePositions: bool, i: nat): Trace {
    if i >= |expected| then []
    else
      match Partner(TableNames(expected), TableNames(actual), i)
      case Some(j) => EntityFound(expected[i], actual[j], includePositions)
      case None => []
  }

  ghost function ContentRows(expected: seq<Entity>, actual: seq<Entity>, includePositions: bool): nat -> Trace {
    (i: nat) => ContentRow(expected, actual, includePositions, i)
  }

  /** The pairs of tables found among the first `n` expected ones. */
  function Pairs(expected: seq<Entity>, actual: seq<Entity>, n: nat): seq<(Entity, Entity)>
    requires n <= |expected|
  {
    if n == 0 then []
    else
      match Partner(TableNames(expected), TableNames(actual), n - 1)
      case Some(j) => Pairs(expected, actual, n - 1) + [(expected[n - 1], actual[j])]
      case None => Pairs(expected, actual, n - 1)
  }

  /** The `i`-th expected table against the first free one of its name. */
  method FindTable(expected: seq<Entity>, actual: seq<Entity>, i: nat, taken: seq<bool>, log: Log)
    returns (after: seq<bool>, found: seq<(Entity, Entity)>)
    requires log.Valid() && i < |expected| && TakenBy(TableNames(expected), TableNames(actual), i, taken)
    modifies log
    ensures log.Valid() && TakenBy(TableNames(expected), TableNames(actual), i + 1, after)
    ensures log.trace == old(log.trace) + TableRow(expected, actual, i)
    ensures Pairs(expected, actual, i + 1) == Pairs(expected, actual, i) + found
  {
    hide Recorded, Matched, Paired, Same, TakenBy, IsTotal, TablePath, FindFree, Partner;
    var right := TableNames(actual);
    FreeIsPartner(TableNames(expected), right, i, taken);
    TakeNext(TableNames(expected), right, i, taken);
    after, found := taken, [];
    match FindFree(right, taken, expected[i].name) {
      case Some(at) =>
        after := after[at := true];
        log.Match(Tables);
        found := [(expected[i], actual[at])];
      case None =>
        log.Record(Tables, MissingAt(TablePath(expected[i].name), expected[i].name));
    }
  }

  method CompareEntities(expected: seq<Entity>, actual: seq<Entity>, log: Log) returns (pairs: seq<(Entity, Entity)>)
    requires log.Valid()
    modifies log
    ensures log.Valid()
    ensures pairs == Pairs(expected, actual, |expected|)
    ensures log.trace == old(log.trace)
                         + Sum(|expected|, TableRows(expected, actual))
                         + Sum(|actual|, ExtraTables(expected, actual))
  {
    hide Recorded, TablePath, Paired, TakenBy, IsTotal, TableRow, Partner, Same;
    ghost var left, right, start := TableNames(expected), TableNames(actual), log.trace;
    ghost var rows, extras := TableRows(expected, actual), ExtraTables(expected, actual);
    var taken := seq(|actual|, _ => false);
    NoneTaken(left, right, taken);
    pairs := [];
    for i := 0 to |expected|
      invariant log.Valid() && TakenBy(left, right, i, taken)
      invariant pairs == Pairs(expected, actual, i)
      invariant log.trace == start + Sum(i, rows)
    {
      SumNext(start, i, rows);
      var found;
      taken, found := FindTable(expected, actual, i, taken, log);
      pairs := pairs + found;
    }
    ghost var middle := log.trace;
    for j := 0 to |actual|
      invariant log.Valid() && log.trace == middle + Sum(j, extras)
    {
      AllTaken(left, right, taken, j);
      SumNext(middle, j, extras);
      if !taken[j] {
        log.Record(Tables, ExtraAt(TablePath(actual[j].name), actual[j].name));
      }
    }
  }

  // ----- foreign keys -----

  /** `table.column` by name; an id stands in for what is not found. */
  function PointAt(draft: Schema, entityId: string, attributeId: string): string {
    match draft.EntityAt(entityId)
    case None => entityId + "." + attributeId
    case Some(e) =>
      var entity := draft.entities[e];
      match entity.AttributeAt(attributeId)
      case Some(a) => entity.name + "." + entity.attributes[a].name
      case None => entity.name + "." + attributeId
  }

  /** A foreign key by its holder and its target, both as `table.column`. */
  function ColumnReference(draft: Schema, entity: Entity, a: Attribute): seq<(string, string)> {
    match a.foreignKey
    case None => []
    case Some(reference) =>
      [(entity.name + "." + a.name, PointAt(draft, reference.entityId, reference.attributeId))]
  }

  function TableReferences(draft: Schema, entity: Entity, n: nat): seq<(string, string)>
    requires n <= |entity.attributes|
  {
    if n == 0 then []
    else TableReferences(draft, entity, n - 1) + ColumnReference(draft, entity, entity.attributes[n - 1])
  }

  function ReferencesUpTo(draft: Schema, n: nat): seq<(string, string)>
    requires n <= |draft.entities|
  {
    if n == 0 then []
    else
      var entity := draft.entities[n - 1];
      ReferencesUpTo(draft, n - 1) + TableReferences(draft, entity, |entity.attributes|)
  }

  function References(draft: Schema): seq<(string, string)> {
    ReferencesUpTo(draft, |draft.entities|)
  }

  method FindReferences(draft: Schema) returns (found: seq<(string, string)>)
    ensures found == References(draft)
  {
    found := [];
    for n := 0 to |draft.entities|
      invariant found == ReferencesUpTo(draft, n)
    {
      var entity := draft.entities[n];
      for k := 0 to |entity.attributes|
        invariant found == ReferencesUpTo(draft, n) + TableReferences(draft, entity, k)
      {
        var a := entity.attributes[k];
        if a.foreignKey.Some? {
          var reference := a.foreignKey.value;
          found := found + [(entity.name + "." + a.name, PointAt(draft, reference.entityId, reference.attributeId))];
        }
      }
    }
  }

  function Holder(references: seq<(string, string)>, holder: string): (r: Option<nat>)
    ensures r.Some? ==> r.value < |references| && Same(references[r.value].0, holder)
    ensures r.None? ==> forall j :: 0 <= j < |references| ==> !Same(references[j].0, holder)
  {
    var p := (r: (string, string)) => Same(r.0, holder);
    assert forall j :: 0 <= j < |references| ==> p(references[j]) == Same(references[j].0, holder);
    First(references, p)
  }

  function ForeignKeyRow(left: seq<(string, string)>, right: seq<(string, string)>, i: nat): Trace {
    if i >= |left| then []
    else
      var path := left[i].0 + ".foreignKey";
      match Holder(right, left[i].0)
      case None => Recorded(ForeignKeys, MissingAt(path, left[i].1))
      case Some(j) =>
        if Same(right[j].1, left[i].1) then Matched(ForeignKeys)
        else Recorded(ForeignKeys, ChangedAt(path, left[i].1, right[j].1))
  }

  function ForeignKeyRows(left: seq<(string, string)>, right: seq<(string, string)>): nat -> Trace {
    (i: nat) => ForeignKeyRow(left, right, i)
  }

  function ExtraForeignKey(left: seq<(string, string)>, right: seq<(string, string)>, j: nat): Trace {
    if j >= |right| || Holder(left, right[j].0).Some? then []
    else Recorded(ForeignKeys, ExtraAt(right[j].0 + ".foreignKey", right[j].1))
  }

  function ExtraForeignKeys(left: seq<(string, string)>, right: seq<(string, string)>): nat -> Trace {
    (j: nat) => ExtraForeignKey(left, right, j)
  }

  method CompareForeignKey(left: seq<(string, string)>, right: seq<(string, string)>, i: nat, log: Log)
    requires log.Valid() && i < |left|
    modifies log
    ensures log.Valid() && log.trace == old(log.trace) + ForeignKeyRow(left, right, i)
  {
    hide Recorded, Matched, Same, IsTotal, Holder;
    var (holder, target) := left[i];
    match Holder(right, holder) {
      case None => log.Record(ForeignKeys, MissingAt(holder + ".foreignKey", target));
      case Some(j) =>
        if Same(right[j].1, target) {
          log.Match(ForeignKeys);
        } else {
          log.Record(ForeignKeys, ChangedAt(holder + ".foreignKey", target, right[j].1));
        }
    }
  }

  method CompareForeignKeys(expected: Schema, actual: Schema, log: Log)
    requires log.Valid()
    modifies log
    ensures log.Valid()
    ensures var left, right := References(expected), References(actual);
            log.trace == old(log.trace)
                         + Sum(|left|, ForeignKeyRows(left, right))
                         + Sum(|right|, ExtraForeignKeys(left, right))
  {
    hide References, Recorded, Same, IsTotal, ForeignKeyRow, Holder;
    var left := FindReferences(expected);
    var right := FindReferences(actual);
    ghost var start, rows, extras := log.trace, ForeignKeyRows(left, right), ExtraForeignKeys(left, right);
    for i := 0 to |left|
      invariant log.Valid() && log.trace == start + Sum(i, rows)
    {
      SumNext(start, i, rows);
      CompareForeignKey(left, right, i, log);
    }
    ghost var middle := log.trace;
    for j := 0 to |right|
      invariant log.Valid() && log.trace == middle + Sum(j, extras)
    {
      SumNext(middle, j, extras);
      if Holder(left, right[j].0).None? {
        log.Record(ForeignKeys, ExtraAt(right[j].0 + ".foreignKey", right[j].1));
      }
    }
  }

  // ----- relationships -----

  function LinkText(draft: Schema, link: Relationship): string {
    PointAt(draft, link.fromEntityId, link.fromAttributeId) + " -> " + PointAt(draft, link.toEntityId, link.toAttributeId)
  }

  /** Each relationship spelled by its two ends, position by position. */
  function Links(draft: Schema): (r: seq<string>)
    ensures |r| == |draft.relationships|
    ensures forall i :: 0 <= i < |r| ==> r[i] == LinkText(draft, draft.relationships[i])
  {
    seq(|draft.relationships|, i requires 0 <= i < |draft.relationships| => LinkText(draft, draft.relationships[i]))
  }

  function LinkPath(ends: string): string {
    "relationships[" + ends + "]"
  }

  function LinkFound(ends: string, expected: Relationship, actual: Relationship): Trace {
    var path := LinkPath(ends);
    (if expected.cardinality == actual.cardinality then Matched(Relationships)
     else Recorded(Relationships,
                   ChangedAt(path, CardinalityText(expected.cardinality), CardinalityText(actual.cardinality))))
    + DescriptionFound(path, expected.description, actual.description)
  }

  function LinkRow(expected: Schema, actual: Schema, i: nat): Trace {
    if i >= |expected.relationships| then []
    else
      var link, ends := expected.relationships[i], Links(expected)[i];
      match Partner(Links(expected), Links(actual), i)
      case Some(j) => LinkFound(ends, link, actual.relationships[j])
      case None => Recorded(Relationships, MissingAt(LinkPath(ends), CardinalityText(link.cardinality)))
  }

  function LinkRows(expected: Schema, actual: Schema): nat -> Trace {
    (i: nat) => LinkRow(expected, actual, i)
  }

  function ExtraLink(expected: Schema, actual: Schema, j: nat): Trace {
    if j >= |actual.relationships| || HasPartner(Links(expected), Links(actual), j) then []
    else Recorded(Relationships, ExtraAt(LinkPath(Links(actual)[j]), CardinalityText(actual.relationships[j].cardinality)))
  }

  function ExtraLinks(expected: Schema, actual: Schema): nat -> Trace {
    (j: nat) => ExtraLink(expected, actual, j)
  }

  /** The `i`-th expected line against the first free one with the same ends. */
  method FindLink(expected: Schema, actual: Schema, i: nat, taken: seq<bool>, log: Log) returns (after: seq<bool>)
    requires log.Valid() && i < |expected.relationships| && TakenBy(Links(expected), Links(actual), i, taken)
    modifies log
    ensures log.Valid() && TakenBy(Links(expected), Links(actual), i + 1, after)
    ensures log.trace == old(log.trace) + LinkRow(expected, actual, i)
  {
    hide Recorded, LinkFound, LinkPath, Paired, Same, TakenBy, IsTotal, FindFree, Partner;
    var left, right := Links(expected), Links(actual);
    FreeIsPartner(left, right, i, taken);
    TakeNext(left, right, i, taken);
    after := taken;
    var link := expected.relationships[i];
    match FindFree(right, taken, left[i]) {
      case None =>
        log.Record(Relationships, MissingAt(LinkPath(left[i]), CardinalityText(link.cardinality)));
      case Some(at) =>
        after := after[at := true];
        CompareLink(left[i], link, actual.relationships[at], log);
    }
  }

  method CompareRelationships(expected: Schema, actual: Schema, log: Log)
    requires log.Valid()
    modifies log
    ensures log.Valid()
    ensures log.trace == old(log.trace)
                         + Sum(|expected.relationships|, LinkRows(expected, actual))
                         + Sum(|actual.relationships|, ExtraLinks(expected, actual))
  {
    hide Recorded, LinkPath, Paired, TakenBy, IsTotal, LinkRow, Partner, Same, LinkText, CardinalityText;
    ghost var left, start := Links(expected), log.trace;
    var right := Links(actual);
    ghost var rows, extras := LinkRows(expected, actual), ExtraLinks(expected, actual);
    var taken := seq(|right|, _ => false);
    NoneTaken(left, right, taken);
    for i := 0 to |expected.relationships|
      invariant log.Valid() && TakenBy(left, right, i, taken)
      invariant log.trace == start + Sum(i, rows)
    {
      SumNext(start, i, rows);
      taken := FindLink(expected, actual, i, taken, log);
    }
    ghost var middle := log.trace;
    for j := 0 to |right|
      invariant log.Valid() && log.trace == middle + Sum(j, extras)
    {
      AllTaken(left, right, taken, j);
      SumNext(middle, j, extras);
      if !taken[j] {
        log.Record(Relationships, ExtraAt(LinkPath(right[j]), CardinalityText(actual.relationships[j].cardinality)));
      }
    }
  }

  method CompareLink(ends: string, link: Relationship, other: Relationship, log: Log)
    requires log.Valid()
    modifies log
    ensures log.Valid()
    ensures log.trace == old(log.trace) + LinkFound(ends, link, other)
  {
    ghost var start := log.trace;
    var path := LinkPath(ends);
    if other.cardinality == link.cardinality {
      log.Match(Relationships);
    } else {
      log.Record(Relationships, ChangedAt(path, CardinalityText(link.cardinality), CardinalityText(other.cardinality)));
    }
    CompareDescription(path, link.description, other.description, log);
    Associative(start,
                    if link.cardinality == other.cardinality then Matched(Relationships)
                    else Recorded(Relationships, ChangedAt(path, CardinalityText(link.cardinality), CardinalityText(other.cardinality))),
                    DescriptionFound(path, link.description, other.description));
  }

  // ----- the whole comparison -----

  ghost function TablesPart(expected: Schema, actual: Schema): Trace {
    Sum(|expected.entities|, TableRows(expected.entities, actual.entities))
    + Sum(|actual.entities|, ExtraTables(expected.entities, actual.entities))
  }

  ghost function ContentPart(expected: Schema, actual: Schema, includePositions: bool): Trace {
    Sum(|expected.entities|, ContentRows(expected.entities, actual.entities, includePositions))
  }

  ghost function ForeignKeysPart(expected: Schema, actual: Schema): Trace {
    var left, right := References(expected), References(actual);
    Sum(|left|, ForeignKeyRows(left, right)) + Sum(|right|, ExtraForeignKeys(left, right))
  }

  ghost function RelationshipsPart(expected: Schema, actual: Schema): Trace {
    Sum(|expected.relationships|, LinkRows(expected, actual))
    + Sum(|actual.relationships|, ExtraLinks(expected, actual))
  }

  ghost function Compared(expected: Schema, actual: Schema, includePositions: bool): Trace {
    TablesPart(expected, actual)
    + ContentPart(expected, actual, includePositions)
    + ForeignKeysPart(expected, actual)
    + RelationshipsPart(expected, actual)
  }

  /** Pair by pair is table by table: an unmatched table has no contents to compare. */
  ghost function PairRow(pairs: seq<(Entity, Entity)>, includePositions: bool, k: nat): Trace {
    if k >= |pairs| then [] else EntityFound(pairs[k].0, pairs[k].1, includePositions)
  }

  ghost function PairRows(pairs: seq<(Entity, Entity)>, includePositions: bool): nat -> Trace {
    (k: nat) => PairRow(pairs, includePositions, k)
  }

  lemma {:induction false} SumCongruent(n: nat, f: nat -> Trace, g: nat -> Trace)
    requires forall k: nat :: k < n ==> f(k) == g(k)
    ensures Sum(n, f) == Sum(n, g)
  {
    if n > 0 {
      SumCongruent(n - 1, f, g);
    }
  }

  lemma PairsStep(expected: seq<Entity>, actual: seq<Entity>, includePositions: bool, n: nat)
    requires n < |expected|
    ensures var before, pairs := Pairs(expected, actual, n), Pairs(expected, actual, n + 1);
            var row := ContentRows(expected, actual, includePositions)(n);
            || (pairs == before && row == [])
            || (before < pairs && |pairs| == |before| + 1 && row == PairRows(pairs, includePositions)(|before|))
  {
    hide EntityFound, Partner;
  }

  lemma NoPairs(expected: seq<Entity>, actual: seq<Entity>, f: nat -> Trace, g: nat -> Trace)
    ensures Pairs(expected, actual, 0) == [] && Sum(0, f) == Sum(0, g)
  {
  }

  lemma {:induction false} PairsAreContent(expected: seq<Entity>, actual: seq<Entity>, includePositions: bool, n: nat)
    requires n <= |expected|
    ensures var pairs := Pairs(expected, actual, n);
            Sum(|pairs|, PairRows(pairs, includePositions)) == Sum(n, ContentRows(expected, actual, includePositions))
  {
    hide EntityFound, Pairs, Sum, ContentRow, Partner;
    var all := ContentRows(expected, actual, includePositions);
    var pairs := Pairs(expected, actual, n);
    var rows := PairRows(pairs, includePositions);
    if n == 0 {
      NoPairs(expected, actual, rows, all);
    } else {
      PairsAreContent(expected, actual, includePositions, n - 1);
      PairsStep(expected, actual, includePositions, n - 1);
      var before := Pairs(expected, actual, n - 1);
      SumLast(n - 1, all);
      if pairs == before {
        assert Sum(n - 1, all) + [] == Sum(n - 1, all);
      } else {
        SumCongruent(|before|, PairRows(before, includePositions), rows);
        SumLast(|before|, rows);
      }
    }
  }

  lemma SumLast(n: nat, f: nat -> Trace)
    ensures Sum(n + 1, f) == Sum(n, f) + f(n)
  {
  }

  method CompareContents(pairs: seq<(Entity, Entity)>, includePositions: bool, log: Log)
    requires log.Valid()
    modifies log
    ensures log.Valid() && log.trace == old(log.trace) + Sum(|pairs|, PairRows(pairs, includePositions))
  {
    hide EntityFound, IsTotal;
    ghost var start, rows := log.trace, PairRows(pairs, includePositions);
    for k := 0 to |pairs|
      invariant log.Valid() && log.trace == start + Sum(k, rows)
    {
      SumNext(start, k, rows);
      CompareEntity(pairs[k].0, pairs[k].1, includePositions, log);
    }
  }

  method Compare(expected: Schema, actual: Schema, includePositions: bool) returns (comparison: Comparison)
    ensures IsTotal(comparison, Compared(expected, actual, includePositions))
  {
    hide IsTotal, Sum, References, TableRows, ExtraTables;
    var log := new Log();
    var pairs := CompareEntities(expected.entities, actual.entities, log);
    assert log.trace == TablesPart(expected, actual);
    CompareContents(pairs, includePositions, log);
    PairsAreContent(expected.entities, actual.entities, includePositions, |expected.entities|);
    ghost var middle := log.trace;
    CompareForeignKeys(expected, actual, log);
    ghost var left, right := References(expected), References(actual);
    Associative(middle, Sum(|left|, ForeignKeyRows(left, right)), Sum(|right|, ExtraForeignKeys(left, right)));
    ghost var end := log.trace;
    CompareRelationships(expected, actual, log);
    Associative(end, Sum(|expected.relationships|, LinkRows(expected, actual)),
                Sum(|actual.relationships|, ExtraLinks(expected, actual)));
    comparison := Comparison(log.differences, log.counts);
  }
}
