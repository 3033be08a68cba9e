/** A comparison looks at names and never at ids. */
module Renaming {
  import opened Options
  import opened Domain
  import opened Comparisons
  import opened Matching
  import opened Differ

  // ----- what a comparison reads of a schema -----

  ghost predicate SameColumn(x: Attribute, y: Attribute) {
    y == x.(id := y.id, foreignKey := y.foreignKey)
  }

  ghost predicate SameTable(x: Entity, y: Entity) {
    && y == x.(id := y.id, attributes := y.attributes)
    && |y.attributes| == |x.attributes|
    && forall k :: 0 <= k < |x.attributes| ==> SameColumn(x.attributes[k], y.attributes[k])
  }

  /** Alike but for ids, with every reference and every line spelled the same. */
  ghost predicate Alike(x: Schema, y: Schema) {
    && |y.entities| == |x.entities|
    && (forall k :: 0 <= k < |x.entities| ==> SameTable(x.entities[k], y.entities[k]))
    && References(y) == References(x)
    && Links(y) == Links(x)
    && (forall k :: 0 <= k < |x.relationships| ==>
          y.relationships[k].cardinality == x.relationships[k].cardinality
          && y.relationships[k].description == x.relationships[k].description)
  }

  lemma ColumnNamesAlike(x: Entity, y: Entity)
    requires SameTable(x, y)
    ensures ColumnNames(y.attributes) == ColumnNames(x.attributes)
  {
  }

  lemma TableNamesAlike(x: Schema, y: Schema)
    requires Alike(x, y)
    ensures TableNames(y.entities) == TableNames(x.entities)
  {
    hide References, Links;
  }

  lemma EntityFoundAlike(e: Entity, e': Entity, a: Entity, a': Entity, includePositions: bool)
    requires SameTable(e, e') && SameTable(a, a')
    ensures EntityFound(e', a', includePositions) == EntityFound(e, a, includePositions)
  {
    hide DescriptionFound, AttributeFound, Partner, HasPartner, Sum, Recorded;
    ColumnNamesAlike(e, e');
    ColumnNamesAlike(a, a');
    var path := TablePath(e.name);
    var rows, rows' := ColumnRows(path, e.attributes, a.attributes), ColumnRows(path, e'.attributes, a'.attributes);
    var extras, extras' := ExtraColumns(path, e.attributes, a.attributes), ExtraColumns(path, e'.attributes, a'.attributes);
    forall k: nat | k < |e.attributes|
      ensures rows(k) == rows'(k)
    {
      match Partner(ColumnNames(e.attributes), ColumnNames(a.attributes), k) {
        case Some(j) => AttributeFoundAlike(path, e.attributes[k], e'.attributes[k], a.attributes[j], a'.attributes[j]);
        case None =>
      }
    }
    SumCongruent(|e.attributes|, rows, rows');
    SumCongruent(|a.attributes|, extras, extras');
  }

  lemma AttributeFoundAlike(path: string, e: Attribute, e': Attribute, a: Attribute, a': Attribute)
    requires SameColumn(e, e') && SameColumn(a, a')
    ensures AttributeFound(path, e', a') == AttributeFound(path, e, a)
  {
    hide DescriptionFound, Settled, Recorded, FieldDifference;
  }

  lemma TablesPartAlike(e: Schema, e': Schema, a: Schema, a': Schema)
    requires Alike(e, e') && Alike(a, a')
    ensures TablesPart(e', a') == TablesPart(e, a)
  {
    hide Partner, HasPartner, Sum, Recorded, Matched, References, Links, TablePath;
    TableNamesAlike(e, e');
    TableNamesAlike(a, a');
    SumCongruent(|e.entities|, TableRows(e.entities, a.entities), TableRows(e'.entities, a'.entities));
    SumCongruent(|a.entities|, ExtraTables(e.entities, a.entities), ExtraTables(e'.entities, a'.entities));
  }

  lemma ContentPartAlike(e: Schema, e': Schema, a: Schema, a': Schema, includePositions: bool)
    requires Alike(e, e') && Alike(a, a')
    ensures ContentPart(e', a', includePositions) == ContentPart(e, a, includePositions)
  {
    hide Partner, HasPartner, Sum, References, Links, EntityFound, SameTable;
    TableNamesAlike(e, e');
    TableNamesAlike(a, a');
    var rows, rows' := ContentRows(e.entities, a.entities, includePositions), ContentRows(e'.entities, a'.entities, includePositions);
    forall k: nat | k < |e.entities|
      ensures rows(k) == rows'(k)
    {
      match Partner(TableNames(e.entities), TableNames(a.entities), k) {
        case Some(j) => EntityFoundAlike(e.entities[k], e'.entities[k], a.entities[j], a'.entities[j], includePositions);
        case None =>
      }
    }
    SumCongruent(|e.entities|, rows, rows');
  }

  lemma RelationshipsPartAlike(e: Schema, e': Schema, a: Schema, a': Schema)
    requires Alike(e, e') && Alike(a, a')
    ensures RelationshipsPart(e', a') == RelationshipsPart(e, a)
  {
    hide Partner, HasPartner, Sum, References, SameTable, Recorded, Matched, DescriptionFound, LinkPath, CardinalityText, LinkText;
    SumCongruent(|e.relationships|, LinkRows(e, a), LinkRows(e', a'));
    SumCongruent(|a.relationships|, ExtraLinks(e, a), ExtraLinks(e', a'));
  }

  /** Schemas alike but for ids compare alike, difference by difference. */
  lemma ComparedAlike(e: Schema, e': Schema, a: Schema, a': Schema, includePositions: bool)
    requires Alike(e, e') && Alike(a, a')
    ensures Compared(e', a', includePositions) == Compared(e, a, includePositions)
  {
    hide TablesPart, ContentPart, RelationshipsPart, References, Links, SameTable, Sum;
    TablesPartAlike(e, e', a, a');
    ContentPartAlike(e, e', a, a', includePositions);
    RelationshipsPartAlike(e, e', a, a');
  }

  // ----- renaming ids -----

  ghost predicate Injective(f: string -> string) {
    forall x, y :: f(x) == f(y) ==> x == y
  }

  /** Within one table different attribute ids stay different. */
  ghost predicate InjectiveInEach(g: (string, string) -> string) {
    forall owner, x, y :: g(owner, x) == g(owner, y) ==> x == y
  }

  function RenameAttribute(x: Attribute, owner: string, f: string -> string, g: (string, string) -> string): Attribute {
    x.(id := g(owner, x.id),
       foreignKey := match x.foreignKey
                     case None => None
                     case Some(r) => Some(ForeignKeyRef(f(r.entityId), g(r.entityId, r.attributeId))))
  }

  function RenameAttributes(xs: seq<Attribute>, owner: string, f: string -> string, g: (string, string) -> string): (r: seq<Attribute>)
    ensures |r| == |xs| && forall k :: 0 <= k < |r| ==> r[k] == RenameAttribute(xs[k], owner, f, g)
  {
    seq(|xs|, k requires 0 <= k < |xs| => RenameAttribute(xs[k], owner, f, g))
  }

  function RenameEntity(x: Entity, f: string -> string, g: (string, string) -> string): Entity {
    x.(id := f(x.id), attributes := RenameAttributes(x.attributes, x.id, f, g))
  }

  function RenameLink(x: Relationship, f: string -> string, g: (string, string) -> string): Relationship {
    x.(fromEntityId := f(x.fromEntityId), fromAttributeId := g(x.fromEntityId, x.fromAttributeId),
       toEntityId := f(x.toEntityId), toAttributeId := g(x.toEntityId, x.toAttributeId))
  }

  /** Every entity id through `f`, and every attribute id, beside the id of its
      table, through `g`, wherever they are held. */
  function Rename(x: Schema, f: string -> string, g: (string, string) -> string): (r: Schema)
    ensures |r.entities| == |x.entities| && |r.relationships| == |x.relationships|
    ensures forall k :: 0 <= k < |x.entities| ==> r.entities[k] == RenameEntity(x.entities[k], f, g)
    ensures forall k :: 0 <= k < |x.relationships| ==> r.relationships[k] == RenameLink(x.relationships[k], f, g)
  {
    x.(entities := seq(|x.entities|, k requires 0 <= k < |x.entities| => RenameEntity(x.entities[k], f, g)),
       relationships := seq(|x.relationships|, k requires 0 <= k < |x.relationships| => RenameLink(x.relationships[k], f, g)))
  }

  predicate ReferenceResolves(x: Schema, a: Attribute) {
    a.foreignKey.Some? ==> x.Resolve(a.foreignKey.value.entityId, a.foreignKey.value.attributeId).Some?
  }

  ghost predicate AllResolve(x: Schema) {
    && (forall k, l :: 0 <= k < |x.entities| && 0 <= l < |x.entities[k].attributes| ==>
          ReferenceResolves(x, x.entities[k].attributes[l]))
    && (forall k :: 0 <= k < |x.relationships| ==>
          x.Resolve(x.relationships[k].fromEntityId, x.relationships[k].fromAttributeId).Some?
          && x.Resolve(x.relationships[k].toEntityId, x.relationships[k].toAttributeId).Some?)
  }

  lemma EntityAtRenamed(x: Schema, f: string -> string, g: (string, string) -> string, id: string)
    requires Injective(f)
    ensures Rename(x, f, g).EntityAt(f(id)) == x.EntityAt(id)
  {
    hide RenameEntity, RenameLink;
    var y := Rename(x, f, g);
    var p, q := (e: Entity) => e.id == id, (e: Entity) => e.id == f(id);
    forall k | 0 <= k < |x.entities|
      ensures q(y.entities[k]) == p(x.entities[k])
    {
      RenameEntityId(x.entities[k], f, g);
    }
    FirstSame(x.entities, p, y.entities, q);
  }

  lemma RenameEntityId(e: Entity, f: string -> string, g: (string, string) -> string)
    ensures RenameEntity(e, f, g).id == f(e.id)
  {
  }

  lemma AttributeAtRenamed(e: Entity, f: string -> string, g: (string, string) -> string, id: string)
    requires InjectiveInEach(g)
    ensures RenameEntity(e, f, g).AttributeAt(g(e.id, id)) == e.AttributeAt(id)
  {
    var p, q := (a: Attribute) => a.id == id, (a: Attribute) => a.id == g(e.id, id);
    FirstSame(e.attributes, p, RenameAttributes(e.attributes, e.id, f, g), q);
  }

  lemma PointAtRenamed(x: Schema, f: string -> string, g: (string, string) -> string, entityId: string, attributeId: string)
    requires Injective(f) && InjectiveInEach(g) && x.Resolve(entityId, attributeId).Some?
    ensures PointAt(Rename(x, f, g), f(entityId), g(entityId, attributeId)) == PointAt(x, entityId, attributeId)
  {
    hide InjectiveInEach, Injective;
    EntityAtRenamed(x, f, g, entityId);
    var e := x.entities[x.EntityAt(entityId).value];
    AttributeAtRenamed(e, f, g, attributeId);
  }

  lemma ColumnReferenceRenamed(x: Schema, f: string -> string, g: (string, string) -> string, e: Entity, k: nat)
    requires Injective(f) && InjectiveInEach(g) && k < |e.attributes| && ReferenceResolves(x, e.attributes[k])
    ensures ColumnReference(Rename(x, f, g), RenameEntity(e, f, g), RenameEntity(e, f, g).attributes[k])
         == ColumnReference(x, e, e.attributes[k])
  {
    hide InjectiveInEach, Injective, PointAt, Rename, Schema.Resolve;
    var a := e.attributes[k];
    if a.foreignKey.Some? {
      PointAtRenamed(x, f, g, a.foreignKey.value.entityId, a.foreignKey.value.attributeId);
    }
  }

  lemma {:induction false} TableReferencesRenamed(x: Schema, f: string -> string, g: (string, string) -> string, e: Entity, n: nat)
    requires Injective(f) && InjectiveInEach(g) && n <= |e.attributes|
    requires forall l :: 0 <= l < |e.attributes| ==> ReferenceResolves(x, e.attributes[l])
    ensures TableReferences(Rename(x, f, g), RenameEntity(e, f, g), n) == TableReferences(x, e, n)
  {
    hide InjectiveInEach, Injective, ColumnReference, Rename, RenameEntity, ReferenceResolves;
    RenamedWidth(e, f, g);
    if n > 0 {
      TableReferencesRenamed(x, f, g, e, n - 1);
      ColumnReferenceRenamed(x, f, g, e, n - 1);
    }
  }

  lemma RenamedWidth(e: Entity, f: string -> string, g: (string, string) -> string)
    ensures |RenameEntity(e, f, g).attributes| == |e.attributes|
  {
  }

  lemma {:induction false} ReferencesRenamed(x: Schema, f: string -> string, g: (string, string) -> string, n: nat)
    requires Injective(f) && InjectiveInEach(g) && AllResolve(x) && n <= |x.entities|
    ensures ReferencesUpTo(Rename(x, f, g), n) == ReferencesUpTo(x, n)
  {
    hide InjectiveInEach, Injective, ReferenceResolves, TableReferences, RenameLink;
    if n > 0 {
      ReferencesRenamed(x, f, g, n - 1);
      TableReferencesRenamed(x, f, g, x.entities[n - 1], |x.entities[n - 1].attributes|);
    }
  }

  lemma LinksRenamed(x: Schema, f: string -> string, g: (string, string) -> string)
    requires Injective(f) && InjectiveInEach(g) && AllResolve(x)
    ensures Links(Rename(x, f, g)) == Links(x)
  {
    hide InjectiveInEach, Injective, ReferenceResolves, PointAt, RenameEntity, Schema.Resolve;
    var y := Rename(x, f, g);
    forall k | 0 <= k < |x.relationships|
      ensures Links(y)[k] == Links(x)[k]
    {
      var link := x.relationships[k];
      PointAtRenamed(x, f, g, link.fromEntityId, link.fromAttributeId);
      PointAtRenamed(x, f, g, link.toEntityId, link.toAttributeId);
    }
  }

  lemma RenamedAlike(x: Schema, f: string -> string, g: (string, string) -> string)
    requires Injective(f) && InjectiveInEach(g) && AllResolve(x)
    ensures Alike(x, Rename(x, f, g))
  {
    hide InjectiveInEach, Injective, AllResolve, ReferencesUpTo, Links;
    ReferencesRenamed(x, f, g, |x.entities|);
    LinksRenamed(x, f, g);
  }

  lemma AlikeSelf(x: Schema)
    ensures Alike(x, x)
  {
    hide References, Links;
  }

  /** Fresh ids, as a round trip through SQL mints them, change nothing: the
      comparison is the same difference by difference, on either side. */
  lemma RenamingChangesNothing(x: Schema, f: string -> string, g: (string, string) -> string, other: Schema, includePositions: bool)
    requires Injective(f) && InjectiveInEach(g) && AllResolve(x)
    ensures Compared(Rename(x, f, g), other, includePositions) == Compared(x, other, includePositions)
    ensures Compared(other, Rename(x, f, g), includePositions) == Compared(other, x, includePositions)
  {
    hide InjectiveInEach, Injective, AllResolve, Rename, Compared, Alike;
    RenamedAlike(x, f, g);
    AlikeSelf(other);
    ComparedAlike(x, Rename(x, f, g), other, other, includePositions);
    ComparedAlike(other, other, x, Rename(x, f, g), includePositions);
  }
}
