/** The JSON round trip and the normal form it settles in. */
module JsonLaws {
  import opened Options
  import opened Strings
  import opened Domain
  import opened Grid
  import opened Names
  import opened JsonValues
  import opened JsonCodec

  // ----- the normal form -----

  predicate IdKept(id: string) {
    id != "" && Trimmed(id)
  }

  /** Parameters only where the kind takes them. */
  predicate ParametersFit(t: DataType) {
    && (t.length.Some? ==> t.kind.TakesLength())
    && (t.precision.Some? || t.scale.Some? ==> t.kind.TakesPrecision())
  }

  predicate AttributeNormal(a: Attribute) {
    IdKept(a.id) && (a.primaryKey ==> !a.nullable) && ParametersFit(a.dataType)
  }

  predicate EntityNormal(e: Entity, i: nat, includePositions: bool) {
    && IdKept(e.id)
    && (includePositions || e.position == GridSlot(i))
    && forall k :: 0 <= k < |e.attributes| ==> AttributeNormal(e.attributes[k])
  }

  predicate LineNormal(r: Relationship, entities: seq<Entity>) {
    IdKept(r.id) && Held(entities, r.fromEntityId) && Held(entities, r.toEntityId)
  }

  /** Ids trimmed and not empty, key columns not nullable, parameters that fit
      their kind, lines that end at tables held; and, where positions are not
      carried, every table in its grid slot. */
  predicate Normal(s: Schema, includePositions: bool) {
    && (forall i :: 0 <= i < |s.entities| ==> EntityNormal(s.entities[i], i, includePositions))
    && (forall r :: 0 <= r < |s.relationships| ==> LineNormal(s.relationships[r], s.entities))
  }

  /** The ids made up have no white space and are not empty. */
  ghost predicate MadeKept(made: Made) {
    forall place: Place :: IdKept(made(place))
  }

  // ----- one field at a time -----

  lemma IdentityKept(source: Fields, made: string)
    requires IdKept(made)
    ensures IdKept(Identity(source, made))
  {
    if "id" in source && source["id"].Str? {
      TrimFacts(source["id"].text);
    }
  }

  lemma IdentityBack(source: Fields, id: string, made: string)
    requires "id" in source && source["id"] == Str(id) && IdKept(made)
    ensures Identity(source, made) == id <==> IdKept(id)
  {
    TrimFacts(id);
    IdentityKept(source, made);
  }

  /** Parameters dropped where they do not fit. */
  function Fitted(t: DataType): DataType {
    DataType(t.kind,
             if t.kind.TakesLength() then t.length else None,
             if t.kind.TakesPrecision() then t.precision else None,
             if t.kind.TakesPrecision() then t.scale else None)
  }

  lemma FittedIff(t: DataType)
    ensures Fitted(t) == t <==> ParametersFit(t)
  {
  }

  lemma TypeFields(t: DataType)
    ensures var fields := TypeDoc(t).fields;
            && Present(fields, "kind") == Some(Str(KindName(t.kind)))
            && Present(fields, "length") == NumberDoc(t.length)
            && Present(fields, "precision") == NumberDoc(t.precision)
            && Present(fields, "scale") == NumberDoc(t.scale)
  {
    hide KindName;
  }

  lemma CountBack(parent: Fields, key: string, n: Option<U32>)
    requires Present(parent, key) == NumberDoc(n)
    ensures Count(parent, key) == Ok(n)
  {
  }

  lemma TypeBack(source: Fields, t: DataType)
    requires Present(source, "dataType") == Some(TypeDoc(t))
    ensures TypeFrom(source) == Ok(Fitted(t))
  {
    hide TypeDoc, KindName, KindFromName, Count, Present;
    TypeIsObject(t);
    TypeFields(t);
    var fields := TypeDoc(t).fields;
    CountBack(fields, "length", t.length);
    CountBack(fields, "precision", t.precision);
    CountBack(fields, "scale", t.scale);
    KindComesBack(t.kind);
  }

  lemma TypeIsObject(t: DataType)
    ensures TypeDoc(t).Obj?
  {
  }

  lemma KeyBack(source: Fields, key: Option<ForeignKeyRef>)
    requires Present(source, "foreignKey") == (match key case None => None case Some(reference) => Some(KeyDoc(reference)))
    ensures KeyFrom(source) == Ok(key)
  {
  }

  lemma OptionalBack(source: Fields, field: string, text: string)
    requires Present(source, field) == Some(Str(text))
    ensures OptionalText(source, field) == Ok(Some(text)) && RequiredText(source, field) == Ok(text)
  {
  }

  lemma AttributeFields(a: Attribute)
    ensures AttributeDoc(a).Obj?
    ensures var fields := AttributeDoc(a).fields;
            && "id" in fields && fields["id"] == Str(a.id)
            && Present(fields, "name") == Some(Str(a.name))
            && Present(fields, "description") == Some(Str(a.description))
            && Present(fields, "dataType") == Some(TypeDoc(a.dataType))
  {
    hide TypeDoc, KeyDoc;
    TypeIsObject(a.dataType);
  }

  lemma AttributeFlags(a: Attribute)
    ensures AttributeDoc(a).Obj?
    ensures var fields := AttributeDoc(a).fields;
            && Present(fields, "nullable") == Some(Bool(a.nullable))
            && Present(fields, "primaryKey") == Some(Bool(a.primaryKey))
            && Present(fields, "unique") == Some(Bool(a.unique))
  {
    hide TypeDoc, KeyDoc;
  }

  lemma AttributeOptions(a: Attribute)
    ensures AttributeDoc(a).Obj?
    ensures var fields := AttributeDoc(a).fields;
            && Present(fields, "foreignKey") == (match a.foreignKey case None => None case Some(reference) => Some(KeyDoc(reference)))
            && Present(fields, "defaultValue") == (match a.defaultValue case None => None case Some(text) => Some(Str(text)))
  {
    hide TypeDoc;
  }

  /** An attribute as it comes back. */
  function AttributeBack(a: Attribute, id: string): Attribute {
    a.(id := id, dataType := Fitted(a.dataType), nullable := a.nullable && !a.primaryKey)
  }

  lemma AttributeRead(a: Attribute, made: string)
    ensures AttributeDoc(a).Obj?
    ensures AttributeFrom(AttributeDoc(a), made) == Ok(AttributeBack(a, Identity(AttributeDoc(a).fields, made)))
  {
    hide AttributeDoc, TypeDoc, KeyDoc, TypeFrom, KeyFrom, Present, Fitted, Identity;
    AttributeFields(a);
    AttributeFlags(a);
    AttributeOptions(a);
    var fields := AttributeDoc(a).fields;
    OptionalBack(fields, "name", a.name);
    OptionalBack(fields, "description", a.description);
    TypeBack(fields, a.dataType);
    KeyBack(fields, a.foreignKey);
    assert OptionalText(fields, "defaultValue") == Ok(a.defaultValue);
  }

  lemma AttributeBackIff(a: Attribute, made: string)
    requires IdKept(made)
    ensures AttributeDoc(a).Obj?
    ensures AttributeBack(a, Identity(AttributeDoc(a).fields, made)) == a <==> AttributeNormal(a)
  {
    hide AttributeDoc, Fitted, ParametersFit, Identity, IdKept;
    AttributeFields(a);
    FittedIff(a.dataType);
    IdentityBack(AttributeDoc(a).fields, a.id, made);
  }

  // ----- lists -----

  lemma {:induction false} AttributesRead(attributes: seq<Attribute>, n: nat, i: nat, made: Made)
    requires n <= |attributes| && MadeKept(made)
    ensures var r := AttributesUpTo(AttributeDocs(attributes), n, i, made);
            && r.Ok? && |r.value| == n
            && forall k :: 0 <= k < n ==> (r.value[k] == attributes[k] <==> AttributeNormal(attributes[k]))
  {
    hide AttributeFrom, AttributeDoc, AttributeBack, AttributeNormal, Identity, IdKept;
    if n > 0 {
      AttributesRead(attributes, n - 1, i, made);
      var a, id := attributes[n - 1], made(AttributePlace(i, n - 1));
      AttributeRead(a, id);
      AttributeBackIff(a, id);
    }
  }

  lemma SameExactly<T>(a: seq<T>, b: seq<T>)
    requires |a| == |b|
    ensures a == b <==> forall k :: 0 <= k < |a| ==> a[k] == b[k]
  {
  }

  predicate AttributesNormal(attributes: seq<Attribute>) {
    forall k :: 0 <= k < |attributes| ==> AttributeNormal(attributes[k])
  }

  lemma AttributesBack(source: Fields, attributes: seq<Attribute>, i: nat, made: Made)
    requires MadeKept(made) && Present(source, "attributes") == Some(Arr(AttributeDocs(attributes)))
    ensures var r := AttributesFrom(source, i, made); r.Ok? && (r.value == attributes <==> AttributesNormal(attributes))
  {
    hide AttributesUpTo, AttributeNormal, AttributeDoc, Present;
    AttributesRead(attributes, |attributes|, i, made);
    SameExactly(AttributesFrom(source, i, made).value, attributes);
  }

  lemma EntityFields(e: Entity, includePositions: bool)
    ensures EntityDoc(e, includePositions).Obj?
    ensures var fields := EntityDoc(e, includePositions).fields;
            && "id" in fields && fields["id"] == Str(e.id)
            && Present(fields, "name") == Some(Str(e.name))
            && Present(fields, "description") == Some(Str(e.description))
            && Present(fields, "attributes") == Some(Arr(AttributeDocs(e.attributes)))
            && Present(fields, "position") == (if includePositions then Some(PositionDoc(e.position)) else None)
  {
    hide AttributeDocs;
  }

  lemma PositionBack(source: Fields, p: Position, i: nat, includePositions: bool)
    requires Present(source, "position") == (if includePositions then Some(PositionDoc(p)) else None)
    ensures PositionFrom(source, i, includePositions) == Ok(if includePositions then p else GridSlot(i))
  {
    hide GridSlot;
  }

  lemma EntityRead(e: Entity, i: nat, includePositions: bool, made: Made)
    requires MadeKept(made)
    ensures var r := EntityFrom(EntityDoc(e, includePositions), i, includePositions, made);
            r.Ok? && (r.value == e <==> EntityNormal(e, i, includePositions))
  {
    hide EntityDoc, AttributesFrom, AttributeNormal, Present, PositionFrom, Identity, IdKept, GridSlot;
    EntityFields(e, includePositions);
    var fields := EntityDoc(e, includePositions).fields;
    OptionalBack(fields, "name", e.name);
    OptionalBack(fields, "description", e.description);
    AttributesBack(fields, e.attributes, i, made);
    PositionBack(fields, e.position, i, includePositions);
    assert IdKept(made(EntityPlace(i)));
    IdentityBack(fields, e.id, made(EntityPlace(i)));
  }

  lemma {:induction false} EntitiesRead(entities: seq<Entity>, n: nat, includePositions: bool, made: Made)
    requires n <= |entities| && MadeKept(made)
    ensures var r := EntitiesUpTo(EntityDocs(entities, includePositions), n, includePositions, made);
            && r.Ok? && |r.value| == n
            && forall i :: 0 <= i < n ==> (r.value[i] == entities[i] <==> EntityNormal(entities[i], i, includePositions))
  {
    hide EntityFrom, EntityDoc, EntityNormal, IdKept;
    if n > 0 {
      EntitiesRead(entities, n - 1, includePositions, made);
      EntityRead(entities[n - 1], n - 1, includePositions, made);
    }
  }

  lemma LineFields(r: Relationship)
    ensures RelationshipDoc(r).Obj?
    ensures var fields := RelationshipDoc(r).fields;
            && "id" in fields && fields["id"] == Str(r.id)
            && Present(fields, "name") == Some(Str(r.name))
            && Present(fields, "description") == Some(Str(r.description))
            && Present(fields, "cardinality") == Some(Str(CardinalityName(r.cardinality)))
  {
    hide CardinalityName;
  }

  lemma LineEnds(r: Relationship)
    ensures RelationshipDoc(r).Obj?
    ensures var fields := RelationshipDoc(r).fields;
            && Present(fields, "fromEntityId") == Some(Str(r.fromEntityId))
            && Present(fields, "fromAttributeId") == Some(Str(r.fromAttributeId))
            && Present(fields, "toEntityId") == Some(Str(r.toEntityId))
            && Present(fields, "toAttributeId") == Some(Str(r.toAttributeId))
  {
    hide CardinalityName;
  }

  lemma CardinalityBack(source: Fields, c: Cardinality)
    requires Present(source, "cardinality") == Some(Str(CardinalityName(c)))
    ensures CardinalityFrom(source) == Ok(c)
  {
    hide Present, CardinalityName, CardinalityFromName;
    CardinalityComesBack(c);
    OptionalBack(source, "cardinality", CardinalityName(c));
  }

  lemma LineRead(r: Relationship, entities: seq<Entity>, made: string)
    requires IdKept(made)
    ensures RelationshipFrom(RelationshipDoc(r), entities, made) == Ok(r) <==> LineNormal(r, entities)
    ensures RelationshipFrom(RelationshipDoc(r), entities, made).Ok? <==> Held(entities, r.fromEntityId) && Held(entities, r.toEntityId)
  {
    hide RelationshipDoc, Present, Identity, IdKept, Held, CardinalityFrom, RequiredText, OptionalText;
    LineFields(r);
    LineEnds(r);
    var fields := RelationshipDoc(r).fields;
    OptionalBack(fields, "name", r.name);
    OptionalBack(fields, "description", r.description);
    OptionalBack(fields, "fromEntityId", r.fromEntityId);
    OptionalBack(fields, "fromAttributeId", r.fromAttributeId);
    OptionalBack(fields, "toEntityId", r.toEntityId);
    OptionalBack(fields, "toAttributeId", r.toAttributeId);
    CardinalityBack(fields, r.cardinality);
    IdentityBack(fields, r.id, made);
  }

  predicate LinesNormal(relationships: seq<Relationship>, entities: seq<Entity>, n: nat)
    requires n <= |relationships|
  {
    forall r :: 0 <= r < n ==> LineNormal(relationships[r], entities)
  }

  lemma {:induction false} LinesRead(relationships: seq<Relationship>, entities: seq<Entity>, n: nat, made: Made)
    requires n <= |relationships| && MadeKept(made)
    ensures RelationshipsUpTo(RelationshipDocs(relationships), n, entities, made) == Ok(relationships[..n])
      <==> LinesNormal(relationships, entities, n)
    ensures RelationshipsUpTo(RelationshipDocs(relationships), n, entities, made).Ok? ==>
      |RelationshipsUpTo(RelationshipDocs(relationships), n, entities, made).value| == n
  {
    hide RelationshipFrom, RelationshipDoc, LineNormal, IdKept;
    if n > 0 {
      LinesRead(relationships, entities, n - 1, made);
      var r, docs := relationships[n - 1], RelationshipDocs(relationships);
      assert IdKept(made(LinePlace(n - 1)));
      LineRead(r, entities, made(LinePlace(n - 1)));
      var before, last := RelationshipsUpTo(docs, n - 1, entities, made), RelationshipFrom(docs[n - 1], entities, made(LinePlace(n - 1)));
      assert relationships[..n] == relationships[..n - 1] + [r];
      if before.Ok? && last.Ok? {
        LastApart(before.value, last.value, relationships[..n - 1], r);
      }
    }
  }

  lemma LastApart<T>(a: seq<T>, x: T, b: seq<T>, y: T)
    requires |a| == |b|
    ensures a + [x] == b + [y] <==> a == b && x == y
  {
    assert (a + [x])[..|a|] == a && (b + [y])[..|b|] == b;
    assert (a + [x])[|a|] == x && (b + [y])[|b|] == y;
  }

  lemma DocumentFields(s: Schema, includePositions: bool)
    ensures SchemaDoc(s, includePositions).Obj?
    ensures var fields := SchemaDoc(s, includePositions).fields;
            && Present(fields, "name") == Some(Str(s.name))
            && Present(fields, "description") == Some(Str(s.description))
            && Present(fields, "entities") == Some(Arr(EntityDocs(s.entities, includePositions)))
            && Present(fields, "relationships") == Some(Arr(RelationshipDocs(s.relationships)))
  {
    hide EntityDocs, RelationshipDocs;
  }

  lemma NormalParts(s: Schema, includePositions: bool)
    ensures Normal(s, includePositions) <==>
      && (forall i :: 0 <= i < |s.entities| ==> EntityNormal(s.entities[i], i, includePositions))
      && LinesNormal(s.relationships, s.entities, |s.relationships|)
  {
    hide EntityNormal, LineNormal;
  }

  /** Reading what was written gives the draft back exactly when the draft is in
      normal form. */
  lemma WrittenThenReadIff(s: Schema, includePositions: bool, made: Made)
    requires MadeKept(made)
    ensures Decoded(SchemaDoc(s, includePositions), includePositions, made) == Ok(s) <==> Normal(s, includePositions)
  {
    hide SchemaDoc, Present, EntitiesUpTo, RelationshipsUpTo, EntityDocs, RelationshipDocs, Normal, EntityNormal, LinesNormal, IdKept;
    DocumentFields(s, includePositions);
    var fields := SchemaDoc(s, includePositions).fields;
    OptionalBack(fields, "name", s.name);
    OptionalBack(fields, "description", s.description);
    EntitiesRead(s.entities, |s.entities|, includePositions, made);
    var docs := EntityDocs(s.entities, includePositions);
    var entities := EntitiesUpTo(docs, |docs|, includePositions, made).value;
    SameExactly(entities, s.entities);
    LinesRead(s.relationships, s.entities, |s.relationships|, made);
    assert s.relationships[..|s.relationships|] == s.relationships;
    NormalParts(s, includePositions);
    if entities == s.entities {
      assert RelationshipsFrom(fields, entities, made) == RelationshipsUpTo(RelationshipDocs(s.relationships), |s.relationships|, s.entities, made);
    }
  }

  // ----- whatever is accepted is in normal form -----

  lemma TypeFromFits(source: Fields)
    ensures TypeFrom(source).Ok? ==> ParametersFit(TypeFrom(source).value)
  {
    hide KindFromName, Count;
  }

  lemma AttributeFromNormal(value: Json, made: string)
    requires IdKept(made)
    ensures AttributeFrom(value, made).Ok? ==> AttributeNormal(AttributeFrom(value, made).value)
  {
    hide TypeFrom, KeyFrom, RequiredText, OptionalText, Flag, Identity, ParametersFit, IdKept;
    if value.Obj? {
      TypeFromFits(value.fields);
      IdentityKept(value.fields, made);
    }
  }

  lemma {:induction false} AttributesFromNormal(values: seq<Json>, n: nat, i: nat, made: Made)
    requires n <= |values| && MadeKept(made)
    ensures var r := AttributesUpTo(values, n, i, made); r.Ok? ==> AttributesNormal(r.value)
  {
    hide AttributeFrom, AttributeNormal, IdKept;
    if n > 0 {
      AttributesFromNormal(values, n - 1, i, made);
      AttributeFromNormal(values[n - 1], made(AttributePlace(i, n - 1)));
    }
  }

  lemma EntityFromNormal(value: Json, i: nat, includePositions: bool, made: Made)
    requires MadeKept(made)
    ensures var r := EntityFrom(value, i, includePositions, made); r.Ok? ==> EntityNormal(r.value, i, includePositions)
  {
    hide AttributesUpTo, AttributeNormal, RequiredText, OptionalText, Identity, IdKept, GridSlot, Coordinate;
    if value.Obj? {
      assert IdKept(made(EntityPlace(i)));
      IdentityKept(value.fields, made(EntityPlace(i)));
      var listed := Present(value.fields, "attributes");
      if listed.Some? && listed.value.Arr? {
        AttributesFromNormal(listed.value.items, |listed.value.items|, i, made);
      }
    }
  }

  lemma {:induction false} EntitiesFromNormal(values: seq<Json>, n: nat, includePositions: bool, made: Made)
    requires n <= |values| && MadeKept(made)
    ensures var r := EntitiesUpTo(values, n, includePositions, made);
            r.Ok? ==> |r.value| == n && forall i :: 0 <= i < n ==> EntityNormal(r.value[i], i, includePositions)
  {
    hide EntityFrom, EntityNormal, IdKept;
    if n > 0 {
      EntitiesFromNormal(values, n - 1, includePositions, made);
      EntityFromNormal(values[n - 1], n - 1, includePositions, made);
    }
  }

  lemma LineFromNormal(value: Json, entities: seq<Entity>, made: string)
    requires IdKept(made)
    ensures var r := RelationshipFrom(value, entities, made); r.Ok? ==> LineNormal(r.value, entities)
  {
    hide CardinalityFrom, RequiredText, OptionalText, Identity, IdKept, Held;
    if value.Obj? {
      IdentityKept(value.fields, made);
    }
  }

  lemma {:induction false} LinesFromNormal(values: seq<Json>, n: nat, entities: seq<Entity>, made: Made)
    requires n <= |values| && MadeKept(made)
    ensures var r := RelationshipsUpTo(values, n, entities, made); r.Ok? ==> LinesNormal(r.value, entities, |r.value|)
  {
    hide RelationshipFrom, LineNormal, IdKept;
    if n > 0 {
      LinesFromNormal(values, n - 1, entities, made);
      assert IdKept(made(LinePlace(n - 1)));
      LineFromNormal(values[n - 1], entities, made(LinePlace(n - 1)));
    }
  }

  /** Any document that is accepted reads as a draft in normal form. */
  lemma ReadIsNormal(document: Json, includePositions: bool, made: Made)
    requires MadeKept(made) && Decoded(document, includePositions, made).Ok?
    ensures Normal(Decoded(document, includePositions, made).value, includePositions)
  {
    hide RequiredText, OptionalText, EntitiesUpTo, RelationshipsUpTo, EntityNormal, LineNormal, IdKept, Present;
    var root := document.fields;
    var values := Present(root, "entities").value.items;
    EntitiesFromNormal(values, |values|, includePositions, made);
    var entities := EntitiesUpTo(values, |values|, includePositions, made).value;
    var lines := Present(root, "relationships");
    if lines.Some? {
      LinesFromNormal(lines.value.items, |lines.value.items|, entities, made);
    }
  }

  /** So a second trip changes nothing, whatever ids are made up on the way. */
  lemma SecondTripIsIdentity(document: Json, includePositions: bool, made: Made, again: Made)
    requires MadeKept(made) && MadeKept(again) && Decoded(document, includePositions, made).Ok?
    ensures var draft := Decoded(document, includePositions, made).value;
            Decoded(SchemaDoc(draft, includePositions), includePositions, again) == Ok(draft)
  {
    hide Decoded, SchemaDoc, Normal, IdKept;
    ReadIsNormal(document, includePositions, made);
    WrittenThenReadIff(Decoded(document, includePositions, made).value, includePositions, again);
  }
}
