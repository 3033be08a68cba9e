/** The draft read back from a generated script, stage by stage: its tables,
    then a key for each that was written, then the comments. */
module DraftBack {
  import opened Options
  import opened Strings
  import opened Domain
  import opened TableParser
  import opened ParseTable
  import opened SqlReader
  import opened ReaderLaws
  import opened ReadBack

  // ----- finding things by name -----

  ghost predicate DistinctTables(entities: seq<Entity>) {
    forall i, j :: 0 <= i < j < |entities| ==> !Same(entities[i].name, entities[j].name)
  }

  ghost predicate DistinctColumns(attributes: seq<Attribute>) {
    forall i, j :: 0 <= i < j < |attributes| ==> !Same(attributes[i].name, attributes[j].name)
  }

  /** Names with no white space around them, none the same up to case. */
  ghost predicate WellNamed(entities: seq<Entity>) {
    && DistinctTables(entities)
    && forall i :: 0 <= i < |entities| ==> ColumnsWellNamed(entities[i])
  }

  ghost predicate ColumnsWellNamed(e: Entity) {
    && Trimmed(e.name) && DistinctColumns(e.attributes)
    && forall k :: 0 <= k < |e.attributes| ==> Trimmed(e.attributes[k].name)
  }

  predicate NamedAs(a: Entity, b: Entity) {
    && a.name == b.name && |a.attributes| == |b.attributes|
    && forall k :: 0 <= k < |a.attributes| ==> a.attributes[k].name == b.attributes[k].name
  }

  /** The same tables and columns by name, position by position. */
  predicate AllNamedAs(a: seq<Entity>, b: seq<Entity>) {
    |a| == |b| && forall i :: 0 <= i < |a| ==> NamedAs(a[i], b[i])
  }

  lemma FindsTable(wanted: seq<Entity>, entities: seq<Entity>, i: nat)
    requires WellNamed(wanted) && AllNamedAs(wanted, entities) && i < |wanted|
    ensures FindTable(entities, Trim(wanted[i].name)) == Some(i)
  {
    hide ColumnsWellNamed, Lower, Trimmed;
    var name := wanted[i].name;
    assert Trim(name) == name by {
      assert ColumnsWellNamed(wanted[i]);
      TableNameTrimmed(wanted[i]);
    }
    var p := (e: Entity) => Same(e.name, name);
    assert NamedAs(wanted[i], entities[i]);
    forall j | 0 <= j < i
      ensures !p(entities[j])
    {
      assert NamedAs(wanted[j], entities[j]);
    }
    FirstIs(entities, p, i);
  }

  lemma TableNameTrimmed(e: Entity)
    requires ColumnsWellNamed(e)
    ensures Trim(e.name) == e.name
  {
    TrimFacts(e.name);
  }

  lemma FindsColumn(wanted: Entity, e: Entity, k: nat)
    requires ColumnsWellNamed(wanted) && NamedAs(wanted, e) && k < |wanted.attributes|
    ensures e.AttributeByName(Trim(wanted.attributes[k].name)) == Some(k)
  {
    hide Lower;
    var name := wanted.attributes[k].name;
    TrimFacts(name);
    var p := (a: Attribute) => Same(a.name, name);
    assert forall j :: 0 <= j < k ==> !p(e.attributes[j]);
    FirstIs(e.attributes, p, k);
  }

  lemma NamedAsSame(wanted: seq<Entity>, a: seq<Entity>, b: seq<Entity>)
    requires AllNamedAs(wanted, a) && SameShape(a, b)
    ensures AllNamedAs(wanted, b)
  {
    forall i | 0 <= i < |wanted|
      ensures NamedAs(wanted[i], b[i])
    {
      assert NamedAs(wanted[i], a[i]) && SameEntity(a[i], b[i]);
      assert forall k :: 0 <= k < |a[i].attributes| ==> SameColumn(a[i].attributes[k], b[i].attributes[k]);
    }
  }

  lemma NamedAsTables(wanted: seq<Entity>, entities: seq<Entity>)
    requires WellNamed(wanted) && EntitiesOf(entities, AllTables(wanted))
    ensures AllNamedAs(wanted, entities)
  {
    hide Trimmed;
    forall i | 0 <= i < |wanted|
      ensures NamedAs(wanted[i], entities[i])
    {
      assert ColumnsWellNamed(wanted[i]) && EntityOf(entities[i], TableOf(wanted[i]));
      TableNameTrimmed(wanted[i]);
      NamedAsTable(wanted[i], entities[i]);
    }
  }

  lemma NamedAsTable(wanted: Entity, e: Entity)
    requires ColumnsWellNamed(wanted) && EntityOf(e, TableOf(wanted))
    ensures NamedAs(wanted, e)
  {
    TableNameTrimmed(wanted);
    forall k | 0 <= k < |wanted.attributes|
      ensures e.attributes[k].name == wanted.attributes[k].name
    {
      TrimFacts(wanted.attributes[k].name);
      assert ColumnFrom(e.attributes[k], KeptColumn(wanted.attributes[k]));
    }
  }

  // ----- keys -----

  /** The reference of `a`, in the ids of `entities`. */
  function WantedKey(s: Schema, entities: seq<Entity>, a: Attribute): Option<ForeignKeyRef> {
    match a.foreignKey
    case None => None
    case Some(reference) =>
      match s.Resolve(reference.entityId, reference.attributeId)
      case None => None
      case Some((t, c)) =>
        if t < |entities| && c < |entities[t].attributes| then
          Some(ForeignKeyRef(entities[t].id, entities[t].attributes[c].id))
        else None
  }

  lemma WantedKeySame(s: Schema, a: seq<Entity>, b: seq<Entity>, of: Attribute)
    requires SameShape(a, b)
    ensures WantedKey(s, a, of) == WantedKey(s, b, of)
  {
    hide Schema.Resolve, SameColumns;
    if of.foreignKey.Some? {
      var found := s.Resolve(of.foreignKey.value.entityId, of.foreignKey.value.attributeId);
      if found.Some? && found.value.0 < |a| {
        var t := found.value.0;
        assert SameEntity(a[t], b[t]);
        SameCount(a, b, t);
        if found.value.1 < |a[t].attributes| {
          SameAt(a, b, t, found.value.1);
        }
      }
    }
  }

  predicate Before(p: nat, q: nat, n: nat, k: nat) {
    p < n || (p == n && q < k)
  }

  /** The keys of the columns before the `k`-th of table `n`, and no others. */
  ghost predicate KeysSoFar(s: Schema, entities: seq<Entity>, n: nat, k: nat) {
    forall p: nat, q: nat :: p < |entities| && p < |s.entities| && q < |entities[p].attributes| && q < |s.entities[p].attributes| ==>
      entities[p].attributes[q].foreignKey
        == if Before(p, q, n, k) then WantedKey(s, entities, s.entities[p].attributes[q]) else None
  }

  /** A line between two columns, by their positions. */
  datatype Line = Line(from: Option<(nat, nat)>, to: Option<(nat, nat)>)

  predicate HasIds(entities: seq<Entity>, at: Option<(nat, nat)>, entityId: string, attributeId: string) {
    && at.Some? && at.value.0 < |entities| && at.value.1 < |entities[at.value.0].attributes|
    && entities[at.value.0].id == entityId && entities[at.value.0].attributes[at.value.1].id == attributeId
  }

  predicate DrawnAs(entities: seq<Entity>, r: Relationship, line: Line) {
    && HasIds(entities, line.from, r.fromEntityId, r.fromAttributeId)
    && HasIds(entities, line.to, r.toEntityId, r.toAttributeId)
    && r.cardinality.OneToMany? && r.description == ""
  }

  ghost predicate LinesDrawn(entities: seq<Entity>, relationships: seq<Relationship>, lines: seq<Line>) {
    |relationships| == |lines| && forall j :: 0 <= j < |lines| ==> DrawnAs(entities, relationships[j], lines[j])
  }

  lemma DrawnAsSame(a: seq<Entity>, b: seq<Entity>, r: Relationship, line: Line)
    requires SameShape(a, b) && DrawnAs(a, r, line)
    ensures DrawnAs(b, r, line)
  {
    HasIdsSame(a, b, line.from, r.fromEntityId, r.fromAttributeId);
    HasIdsSame(a, b, line.to, r.toEntityId, r.toAttributeId);
  }

  lemma HasIdsSame(a: seq<Entity>, b: seq<Entity>, at: Option<(nat, nat)>, entityId: string, attributeId: string)
    requires SameShape(a, b) && HasIds(a, at, entityId, attributeId)
    ensures HasIds(b, at, entityId, attributeId)
  {
    SameCount(a, b, at.value.0);
    SameAt(a, b, at.value.0, at.value.1);
  }

  lemma LinesDrawnSame(a: seq<Entity>, b: seq<Entity>, relationships: seq<Relationship>, lines: seq<Line>)
    requires SameShape(a, b) && LinesDrawn(a, relationships, lines)
    ensures LinesDrawn(b, relationships, lines)
  {
    hide SameShape, DrawnAs;
    forall j | 0 <= j < |lines|
      ensures DrawnAs(b, relationships[j], lines[j])
    {
      DrawnAsSame(a, b, relationships[j], lines[j]);
    }
  }

  /** From the column pointed at to the column that holds the key. */
  function ColumnLine(s: Schema, n: nat, k: nat): seq<Line>
    requires n < |s.entities| && k < |s.entities[n].attributes|
  {
    match s.entities[n].attributes[k].foreignKey
    case None => []
    case Some(reference) => [Line(s.Resolve(reference.entityId, reference.attributeId), Some((n, k)))]
  }

  function TableLines(s: Schema, n: nat, k: nat): seq<Line>
    requires n < |s.entities| && k <= |s.entities[n].attributes|
  {
    if k == 0 then [] else TableLines(s, n, k - 1) + ColumnLine(s, n, k - 1)
  }

  /** One line for each foreign key of the first `n` tables. */
  function KeyLinesUpTo(s: Schema, n: nat): seq<Line>
    requires n <= |s.entities|
  {
    if n == 0 then [] else KeyLinesUpTo(s, n - 1) + TableLines(s, n - 1, |s.entities[n - 1].attributes|)
  }

  /** No description has been written yet. */
  ghost predicate Undescribed(entities: seq<Entity>) {
    forall p: nat :: p < |entities| ==> EntityUndescribed(entities[p])
  }

  predicate EntityUndescribed(e: Entity) {
    e.description == "" && forall q :: 0 <= q < |e.attributes| ==> e.attributes[q].description == ""
  }

  ghost predicate Stage(s: Schema, i: Import, n: nat, k: nat, lines: seq<Line>) {
    && AllNamedAs(s.entities, i.entities) && UniqueIds(i.entities) && Undescribed(i.entities)
    && KeysSoFar(s, i.entities, n, k) && LinesDrawn(i.entities, i.relationships, lines) && i.report == []
  }

  /** The key of one column, found again by its names. */
  lemma LinkFound(s: Schema, i: Import, n: nat, k: nat, t: nat, c: nat)
    requires WellNamed(s.entities) && AllNamedAs(s.entities, i.entities)
    requires n < |s.entities| && k < |s.entities[n].attributes| && t < |s.entities| && c < |s.entities[t].attributes|
    ensures var key := KeyOf(s.entities[n], s.entities[n].attributes[k], s.entities[t], s.entities[t].attributes[c]);
            LinkOf(i.entities, key.0, key.1) == Some(Link(n, k, t, c))
  {
    hide FindTable, Entity.AttributeByName, NamedAs, ColumnsWellNamed, DistinctTables, Trim;
    FindsTable(s.entities, i.entities, n);
    FindsTable(s.entities, i.entities, t);
    assert NamedAs(s.entities[n], i.entities[n]) && ColumnsWellNamed(s.entities[n]);
    assert NamedAs(s.entities[t], i.entities[t]) && ColumnsWellNamed(s.entities[t]);
    FindsColumn(s.entities[n], i.entities[n], k);
    FindsColumn(s.entities[t], i.entities[t], c);
  }

  lemma JoinedStage(s: Schema, i: Import, n: nat, k: nat, t: nat, c: nat, lines: seq<Line>, uuid: nat -> string)
    requires Stage(s, i, n, k, lines)
    requires n < |i.entities| && k < |i.entities[n].attributes| && t < |i.entities| && c < |i.entities[t].attributes|
    requires n < |s.entities| && k < |s.entities[n].attributes|
    requires s.entities[n].attributes[k].foreignKey.Some?
    requires var reference := s.entities[n].attributes[k].foreignKey.value;
             s.Resolve(reference.entityId, reference.attributeId) == Some((t, c))
    ensures Stage(s, Joined(i, Link(n, k, t, c), uuid), n, k + 1, lines + ColumnLine(s, n, k))
  {
    hide Stage, SameShape, UniqueIds, KeysSoFar, LinesDrawn, AllNamedAs, Undescribed, Schema.Resolve, WithKey;
    var link, reference := Link(n, k, t, c), s.entities[n].attributes[k].foreignKey.value;
    var after := Joined(i, link, uuid);
    assert AllNamedAs(s.entities, i.entities) && UniqueIds(i.entities) && Undescribed(i.entities)
        && KeysSoFar(s, i.entities, n, k) && LinesDrawn(i.entities, i.relationships, lines) && i.report == [] by {
      StageParts(s, i, n, k, lines);
    }
    JoinedShape(i, link, uuid);
    UniqueIdsSame(i.entities, after.entities);
    NamedAsSame(s.entities, i.entities, after.entities);
    JoinedKeys(s, i, link, uuid);
    JoinedUndescribed(i, link, uuid);
    LinesDrawnSame(i.entities, after.entities, i.relationships, lines);
    JoinedLines(i, link, after.entities, uuid);
    LinesDrawnMore(after.entities, i.relationships, lines, after.relationships[|i.relationships|], Line(Some((t, c)), Some((n, k))));
    assert ColumnLine(s, n, k) == [Line(Some((t, c)), Some((n, k)))];
    assert after.relationships == i.relationships + [after.relationships[|i.relationships|]];
    PartsStage(s, after, n, k + 1, lines + ColumnLine(s, n, k));
  }

  lemma StageParts(s: Schema, i: Import, n: nat, k: nat, lines: seq<Line>)
    requires Stage(s, i, n, k, lines)
    ensures AllNamedAs(s.entities, i.entities) && UniqueIds(i.entities) && Undescribed(i.entities)
    ensures KeysSoFar(s, i.entities, n, k) && LinesDrawn(i.entities, i.relationships, lines) && i.report == []
  {
  }

  lemma PartsStage(s: Schema, i: Import, n: nat, k: nat, lines: seq<Line>)
    requires AllNamedAs(s.entities, i.entities) && UniqueIds(i.entities) && Undescribed(i.entities)
    requires KeysSoFar(s, i.entities, n, k) && LinesDrawn(i.entities, i.relationships, lines) && i.report == []
    ensures Stage(s, i, n, k, lines)
  {
  }

  lemma LinesDrawnMore(entities: seq<Entity>, relationships: seq<Relationship>, lines: seq<Line>, r: Relationship, line: Line)
    requires LinesDrawn(entities, relationships, lines) && DrawnAs(entities, r, line)
    ensures LinesDrawn(entities, relationships + [r], lines + [line])
  {
    hide DrawnAs;
  }

  lemma JoinedLines(i: Import, link: Link, entities: seq<Entity>, uuid: nat -> string)
    requires link.holder < |i.entities| && link.column < |i.entities[link.holder].attributes|
    requires link.target < |i.entities| && link.key < |i.entities[link.target].attributes|
    requires SameShape(i.entities, entities)
    ensures DrawnAs(entities, Joined(i, link, uuid).relationships[|i.relationships|],
                    Line(Some((link.target, link.key)), Some((link.holder, link.column))))
  {
    hide SameShape, WithKey;
    var line := Line(Some((link.target, link.key)), Some((link.holder, link.column)));
    assert DrawnAs(i.entities, Joined(i, link, uuid).relationships[|i.relationships|], line);
    DrawnAsSame(i.entities, entities, Joined(i, link, uuid).relationships[|i.relationships|], line);
  }

  lemma JoinedUndescribed(i: Import, link: Link, uuid: nat -> string)
    requires UniqueIds(i.entities) && Undescribed(i.entities)
    requires link.holder < |i.entities| && link.column < |i.entities[link.holder].attributes|
    requires link.target < |i.entities| && link.key < |i.entities[link.target].attributes|
    ensures Undescribed(Joined(i, link, uuid).entities)
  {
    hide UniqueIds, WithKey;
    JoinedIs(i, link, uuid);
    assert EntityUndescribed(i.entities[link.holder]);
  }

  lemma JoinedKeys(s: Schema, i: Import, link: Link, uuid: nat -> string)
    requires UniqueIds(i.entities) && KeysSoFar(s, i.entities, link.holder, link.column)
    requires link.holder < |i.entities| && link.column < |i.entities[link.holder].attributes|
    requires link.target < |i.entities| && link.key < |i.entities[link.target].attributes|
    requires link.holder < |s.entities| && link.column < |s.entities[link.holder].attributes|
    requires s.entities[link.holder].attributes[link.column].foreignKey.Some?
    requires var reference := s.entities[link.holder].attributes[link.column].foreignKey.value;
             s.Resolve(reference.entityId, reference.attributeId) == Some((link.target, link.key))
    ensures KeysSoFar(s, Joined(i, link, uuid).entities, link.holder, link.column + 1)
  {
    hide UniqueIds, WithKey, Schema.Resolve, SameShape;
    var after := Joined(i, link, uuid).entities;
    JoinedIs(i, link, uuid);
    JoinedShape(i, link, uuid);
    forall p: nat, q: nat | p < |after| && p < |s.entities| && q < |after[p].attributes| && q < |s.entities[p].attributes|
      ensures after[p].attributes[q].foreignKey
        == if Before(p, q, link.holder, link.column + 1) then WantedKey(s, after, s.entities[p].attributes[q]) else None
    {
      WantedKeySame(s, i.entities, after, s.entities[p].attributes[q]);
      if !(p == link.holder && q == link.column) {
        assert after[p].attributes[q] == i.entities[p].attributes[q];
      }
    }
  }

  lemma LinkedNothing(i: Import, uuid: nat -> string)
    ensures LinkedUpTo(i, [], 0, uuid) == i
  {
  }

  lemma LinkedOne(i: Import, key: (string, ParsedForeignKey), uuid: nat -> string)
    ensures LinkedUpTo(i, [key], 1, uuid) == Linked(i, key.0, key.1, uuid)
  {
    hide Linked;
    assert LinkedUpTo(i, [key], 0, uuid) == i;
  }

  lemma {:induction false} LinkedAppend(i: Import, a: seq<(string, ParsedForeignKey)>, b: seq<(string, ParsedForeignKey)>, m: nat, uuid: nat -> string)
    requires m <= |b|
    ensures LinkedUpTo(i, a + b, |a| + m, uuid) == LinkedUpTo(LinkedUpTo(i, a, |a|, uuid), b, m, uuid)
  {
    hide Linked;
    if m == 0 {
      LinkedPrefix(i, a, b, |a|, uuid);
    } else {
      LinkedAppend(i, a, b, m - 1, uuid);
      assert (a + b)[|a| + m - 1] == b[m - 1];
    }
  }

  lemma {:induction false} LinkedPrefix(i: Import, a: seq<(string, ParsedForeignKey)>, b: seq<(string, ParsedForeignKey)>, n: nat, uuid: nat -> string)
    requires n <= |a|
    ensures LinkedUpTo(i, a + b, n, uuid) == LinkedUpTo(i, a, n, uuid)
  {
    hide Linked;
    if n > 0 {
      LinkedPrefix(i, a, b, n - 1, uuid);
      assert (a + b)[n - 1] == a[n - 1];
    }
  }

  lemma ColumnLinked(s: Schema, i: Import, n: nat, k: nat, lines: seq<Line>, uuid: nat -> string)
    requires WellNamed(s.entities) && KeysResolve(s) && Stage(s, i, n, k, lines)
    requires n < |s.entities| && k < |s.entities[n].attributes|
    ensures var keys := ColumnLateKeys(s, s.entities[n], s.entities[n].attributes[k]);
            Stage(s, LinkedUpTo(i, keys, |keys|, uuid), n, k + 1, lines + ColumnLine(s, n, k))
  {
    hide Stage, WellNamed, Schema.Resolve, KeyOf, LinkOf, Joined, LinkedUpTo;
    var a := s.entities[n].attributes[k];
    assert KeyResolves(s, a);
    match a.foreignKey {
      case None =>
        LinkedNothing(i, uuid);
        assert lines + [] == lines;
        NoKeyStage(s, i, n, k, lines);
      case Some(reference) =>
        var (t, c) := s.Resolve(reference.entityId, reference.attributeId).value;
        StageRanges(s, i, n, k, lines, t);
        LinkFound(s, i, n, k, t, c);
        var key := KeyOf(s.entities[n], a, s.entities[t], s.entities[t].attributes[c]);
        LinkedOne(i, key, uuid);
        JoinedStage(s, i, n, k, t, c, lines, uuid);
    }
  }

  lemma StageRanges(s: Schema, i: Import, n: nat, k: nat, lines: seq<Line>, t: nat)
    requires Stage(s, i, n, k, lines) && n < |s.entities| && t < |s.entities|
    ensures AllNamedAs(s.entities, i.entities) && |s.entities| == |i.entities|
    ensures |s.entities[n].attributes| == |i.entities[n].attributes| && |s.entities[t].attributes| == |i.entities[t].attributes|
  {
    assert NamedAs(s.entities[n], i.entities[n]) && NamedAs(s.entities[t], i.entities[t]);
  }

  lemma NoKeyStage(s: Schema, i: Import, n: nat, k: nat, lines: seq<Line>)
    requires Stage(s, i, n, k, lines) && n < |s.entities| && k < |s.entities[n].attributes|
    requires s.entities[n].attributes[k].foreignKey.None?
    ensures Stage(s, i, n, k + 1, lines)
  {
    hide AllNamedAs, UniqueIds, Undescribed, LinesDrawn;
  }

  lemma {:induction false} TableLinked(s: Schema, i: Import, n: nat, k: nat, lines: seq<Line>, uuid: nat -> string)
    requires WellNamed(s.entities) && KeysResolve(s) && Stage(s, i, n, 0, lines)
    requires n < |s.entities| && k <= |s.entities[n].attributes|
    ensures var keys := TableLateKeys(s, s.entities[n], k);
            Stage(s, LinkedUpTo(i, keys, |keys|, uuid), n, k, lines + TableLines(s, n, k))
  {
    hide Stage, WellNamed, KeysResolve, ColumnLateKeys, ColumnLine, LinkedUpTo;
    var e := s.entities[n];
    if k == 0 {
      LinkedNothing(i, uuid);
      assert lines + [] == lines;
    } else {
      TableLinked(s, i, n, k - 1, lines, uuid);
      var before, more := TableLateKeys(s, e, k - 1), ColumnLateKeys(s, e, e.attributes[k - 1]);
      var middle := LinkedUpTo(i, before, |before|, uuid);
      ColumnLinked(s, middle, n, k - 1, lines + TableLines(s, n, k - 1), uuid);
      LinkedAppend(i, before, more, |more|, uuid);
      assert lines + TableLines(s, n, k) == lines + TableLines(s, n, k - 1) + ColumnLine(s, n, k - 1);
    }
  }

  lemma NextTable(s: Schema, i: Import, n: nat, lines: seq<Line>)
    requires n < |s.entities| && Stage(s, i, n, |s.entities[n].attributes|, lines)
    ensures Stage(s, i, n + 1, 0, lines)
  {
    hide AllNamedAs, UniqueIds, Undescribed, LinesDrawn, WantedKey;
  }

  lemma {:induction false} AllLinked(s: Schema, i: Import, n: nat, uuid: nat -> string)
    requires WellNamed(s.entities) && KeysResolve(s) && Stage(s, i, 0, 0, [])
    requires n <= |s.entities|
    ensures var keys := LateKeysUpTo(s, n);
            Stage(s, LinkedUpTo(i, keys, |keys|, uuid), n, 0, KeyLinesUpTo(s, n))
  {
    hide Stage, WellNamed, KeysResolve, TableLateKeys, TableLines, LinkedUpTo;
    if n == 0 {
      LinkedNothing(i, uuid);
    } else {
      AllLinked(s, i, n - 1, uuid);
      var e := s.entities[n - 1];
      var before, more := LateKeysUpTo(s, n - 1), TableLateKeys(s, e, |e.attributes|);
      var middle := LinkedUpTo(i, before, |before|, uuid);
      TableLinked(s, middle, n - 1, |e.attributes|, KeyLinesUpTo(s, n - 1), uuid);
      LinkedAppend(i, before, more, |more|, uuid);
      NextTable(s, LinkedUpTo(middle, more, |more|, uuid), n - 1, KeyLinesUpTo(s, n));
    }
  }
}
