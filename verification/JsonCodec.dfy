/** The JSON document of a schema, written and read. */
module JsonCodec {
  import opened Options
  import opened Strings
  import opened Domain
  import opened Grid
  import opened Names
  import opened JsonValues

  const VERSION := 1

  // ----- writing -----

  /** A field left out where there is nothing to say. */
  function Optional(key: string, value: Option<Json>): Fields {
    match value
    case None => map[]
    case Some(v) => map[key := v]
  }

  function NumberDoc(n: Option<U32>): Option<Json> {
    match n
    case None => None
    case Some(value) => var number: int := value; Some(Num(number))
  }

  function TypeDoc(t: DataType): Json {
    Obj(Optional("length", NumberDoc(t.length))
        + Optional("precision", NumberDoc(t.precision))
        + Optional("scale", NumberDoc(t.scale))
        + map["kind" := Str(KindName(t.kind))])
  }

  function KeyDoc(reference: ForeignKeyRef): Json {
    Obj(map["entityId" := Str(reference.entityId), "attributeId" := Str(reference.attributeId)])
  }

  function AttributeDoc(a: Attribute): Json {
    Obj(Optional("foreignKey", match a.foreignKey case None => None case Some(reference) => Some(KeyDoc(reference)))
        + Optional("defaultValue", match a.defaultValue case None => None case Some(text) => Some(Str(text)))
        + map["id" := Str(a.id),
              "name" := Str(a.name),
              "description" := Str(a.description),
              "dataType" := TypeDoc(a.dataType),
              "nullable" := Bool(a.nullable),
              "primaryKey" := Bool(a.primaryKey),
              "unique" := Bool(a.unique)])
  }

  function AttributeDocs(attributes: seq<Attribute>): (r: seq<Json>)
    ensures |r| == |attributes| && forall i :: 0 <= i < |r| ==> r[i] == AttributeDoc(attributes[i])
  {
    seq(|attributes|, i requires 0 <= i < |attributes| => AttributeDoc(attributes[i]))
  }

  function PositionDoc(p: Position): Json {
    Obj(map["x" := Num(p.x), "y" := Num(p.y)])
  }

  function EntityDoc(e: Entity, includePositions: bool): Json {
    Obj(Optional("position", if includePositions then Some(PositionDoc(e.position)) else None)
        + map["id" := Str(e.id),
              "name" := Str(e.name),
              "description" := Str(e.description),
              "attributes" := Arr(AttributeDocs(e.attributes))])
  }

  function RelationshipDoc(r: Relationship): Json {
    Obj(map["id" := Str(r.id),
            "name" := Str(r.name),
            "description" := Str(r.description),
            "fromEntityId" := Str(r.fromEntityId),
            "fromAttributeId" := Str(r.fromAttributeId),
            "toEntityId" := Str(r.toEntityId),
            "toAttributeId" := Str(r.toAttributeId),
            "cardinality" := Str(CardinalityName(r.cardinality))])
  }

  function EntityDocs(entities: seq<Entity>, includePositions: bool): (r: seq<Json>)
    ensures |r| == |entities| && forall i :: 0 <= i < |r| ==> r[i] == EntityDoc(entities[i], includePositions)
  {
    seq(|entities|, i requires 0 <= i < |entities| => EntityDoc(entities[i], includePositions))
  }

  function RelationshipDocs(relationships: seq<Relationship>): (r: seq<Json>)
    ensures |r| == |relationships| && forall i :: 0 <= i < |r| ==> r[i] == RelationshipDoc(relationships[i])
  {
    seq(|relationships|, i requires 0 <= i < |relationships| => RelationshipDoc(relationships[i]))
  }

  function SchemaDoc(s: Schema, includePositions: bool): Json {
    Obj(map["schemaforge" := Num(VERSION),
            "name" := Str(s.name),
            "description" := Str(s.description),
            "entities" := Arr(EntityDocs(s.entities, includePositions)),
            "relationships" := Arr(RelationshipDocs(s.relationships))])
  }

  // ----- reading -----

  /** Where an element without an id of its own stands; each place has an id
      made up for it. */
  datatype Place = EntityPlace(i: nat) | AttributePlace(i: nat, k: nat) | LinePlace(r: nat)

  type Made = Place -> string

  /** An id written down, trimmed, or the one made up. */
  function Identity(source: Fields, made: string): string {
    if "id" in source && source["id"].Str? && Trim(source["id"].text) != "" then Trim(source["id"].text) else made
  }

  /** A parameter its kind does not take is checked to be a number, then left
      out. */
  function TypeFrom(source: Fields): Result<DataType> {
    var value :- Required(source, "dataType");
    var dataType :- AsObject(value);
    var name :- RequiredText(dataType, "kind");
    match KindFromName(name)
    case None => Refused
    case Some(kind) =>
      var length :- Count(dataType, "length");
      var precision :- Count(dataType, "precision");
      var scale :- Count(dataType, "scale");
      Ok(DataType(
        kind,
        if kind.TakesLength() then length else None,
        if kind.TakesPrecision() then precision else None,
        if kind.TakesPrecision() then scale else None))
  }

  function KeyFrom(source: Fields): Result<Option<ForeignKeyRef>> {
    match Present(source, "foreignKey")
    case None => Ok(None)
    case Some(value) =>
      var reference :- AsObject(value);
      var entityId :- RequiredText(reference, "entityId");
      var attributeId :- RequiredText(reference, "attributeId");
      Ok(Some(ForeignKeyRef(entityId, attributeId)))
  }

  /** The key flag overrules the nullable flag. */
  function AttributeFrom(value: Json, made: string): Result<Attribute> {
    var source :- AsObject(value);
    var name :- RequiredText(source, "name");
    var dataType :- TypeFrom(source);
    var description :- OptionalText(source, "description");
    var nullable :- Flag(source, "nullable", true);
    var primaryKey :- Flag(source, "primaryKey", false);
    var unique :- Flag(source, "unique", false);
    var defaultValue :- OptionalText(source, "defaultValue");
    var foreignKey :- KeyFrom(source);
    Ok(Attribute(Identity(source, made), name, OrEmpty(description), dataType,
                 nullable && !primaryKey, primaryKey, unique, foreignKey, defaultValue))
  }

  /** The first `n` attributes of the `i`-th entity. */
  function AttributesUpTo(values: seq<Json>, n: nat, i: nat, made: Made): Result<seq<Attribute>>
    requires n <= |values|
  {
    if n == 0 then Ok([])
    else
      var before :- AttributesUpTo(values, n - 1, i, made);
      var a :- AttributeFrom(values[n - 1], made(AttributePlace(i, n - 1)));
      Ok(before + [a])
  }

  function AttributesFrom(source: Fields, i: nat, made: Made): Result<seq<Attribute>> {
    match Present(source, "attributes")
    case None => Ok([])
    case Some(value) =>
      var values :- AsArray(value);
      AttributesUpTo(values, |values|, i, made)
  }

  function PositionFrom(source: Fields, i: nat, includePositions: bool): Result<Position> {
    if !includePositions then Ok(GridSlot(i))
    else
      match Present(source, "position")
      case None => Ok(GridSlot(i))
      case Some(value) =>
        var position :- AsObject(value);
        var x :- Coordinate(position, "x");
        var y :- Coordinate(position, "y");
        Ok(Position(x, y))
  }

  function EntityFrom(value: Json, i: nat, includePositions: bool, made: Made): Result<Entity> {
    var source :- AsObject(value);
    var name :- RequiredText(source, "name");
    var description :- OptionalText(source, "description");
    var position :- PositionFrom(source, i, includePositions);
    var attributes :- AttributesFrom(source, i, made);
    Ok(Entity(Identity(source, made(EntityPlace(i))), name, OrEmpty(description), attributes, position))
  }

  function EntitiesUpTo(values: seq<Json>, n: nat, includePositions: bool, made: Made): Result<seq<Entity>>
    requires n <= |values|
  {
    if n == 0 then Ok([])
    else
      var before :- EntitiesUpTo(values, n - 1, includePositions, made);
      var e :- EntityFrom(values[n - 1], n - 1, includePositions, made);
      Ok(before + [e])
  }

  function CardinalityFrom(source: Fields): Result<Cardinality> {
    var name :- OptionalText(source, "cardinality");
    match name
    case None => Ok(OneToMany)
    case Some(text) =>
      match CardinalityFromName(text)
      case None => Refused
      case Some(c) => Ok(c)
  }

  predicate Held(entities: seq<Entity>, id: string) {
    exists i :: 0 <= i < |entities| && entities[i].id == id
  }

  /** A line has to end at tables that are in the file. */
  function RelationshipFrom(value: Json, entities: seq<Entity>, made: string): Result<Relationship> {
    var source :- AsObject(value);
    var cardinality :- CardinalityFrom(source);
    var fromEntityId :- RequiredText(source, "fromEntityId");
    var fromAttributeId :- RequiredText(source, "fromAttributeId");
    var toEntityId :- RequiredText(source, "toEntityId");
    var toAttributeId :- RequiredText(source, "toAttributeId");
    var name :- OptionalText(source, "name");
    var description :- OptionalText(source, "description");
    if !Held(entities, fromEntityId) || !Held(entities, toEntityId) then Refused
    else Ok(Relationship(Identity(source, made), OrEmpty(name), OrEmpty(description),
                         fromEntityId, fromAttributeId, toEntityId, toAttributeId, cardinality))
  }

  function RelationshipsUpTo(values: seq<Json>, n: nat, entities: seq<Entity>, made: Made): Result<seq<Relationship>>
    requires n <= |values|
  {
    if n == 0 then Ok([])
    else
      var before :- RelationshipsUpTo(values, n - 1, entities, made);
      var r :- RelationshipFrom(values[n - 1], entities, made(LinePlace(n - 1)));
      Ok(before + [r])
  }

  function RelationshipsFrom(root: Fields, entities: seq<Entity>, made: Made): Result<seq<Relationship>> {
    match Present(root, "relationships")
    case None => Ok([])
    case Some(value) =>
      var values :- AsArray(value);
      RelationshipsUpTo(values, |values|, entities, made)
  }

  function Decoded(document: Json, includePositions: bool, made: Made): Result<Schema> {
    var root :- AsObject(document);
    var name :- RequiredText(root, "name");
    var description :- OptionalText(root, "description");
    var value :- Required(root, "entities");
    var values :- AsArray(value);
    var entities :- EntitiesUpTo(values, |values|, includePositions, made);
    var relationships :- RelationshipsFrom(root, entities, made);
    Ok(Schema(name, OrEmpty(description), entities, relationships))
  }

  // ----- reading, step by step -----

  lemma {:induction false} RefusedAttributes(values: seq<Json>, n: nat, m: nat, i: nat, made: Made)
    requires n <= m <= |values| && AttributesUpTo(values, n, i, made).Refused?
    ensures AttributesUpTo(values, m, i, made).Refused?
    decreases m
  {
    hide AttributeFrom;
    if n < m {
      RefusedAttributes(values, n, m - 1, i, made);
    }
  }

  lemma {:induction false} RefusedEntities(values: seq<Json>, n: nat, m: nat, includePositions: bool, made: Made)
    requires n <= m <= |values| && EntitiesUpTo(values, n, includePositions, made).Refused?
    ensures EntitiesUpTo(values, m, includePositions, made).Refused?
    decreases m
  {
    hide EntityFrom;
    if n < m {
      RefusedEntities(values, n, m - 1, includePositions, made);
    }
  }

  lemma {:induction false} RefusedRelationships(values: seq<Json>, n: nat, m: nat, entities: seq<Entity>, made: Made)
    requires n <= m <= |values| && RelationshipsUpTo(values, n, entities, made).Refused?
    ensures RelationshipsUpTo(values, m, entities, made).Refused?
    decreases m
  {
    hide RelationshipFrom;
    if n < m {
      RefusedRelationships(values, n, m - 1, entities, made);
    }
  }

  method ReadAttributes(values: seq<Json>, i: nat, made: Made) returns (result: Result<seq<Attribute>>)
    ensures result == AttributesUpTo(values, |values|, i, made)
  {
    hide AttributeFrom;
    var attributes: seq<Attribute> := [];
    for at := 0 to |values|
      invariant AttributesUpTo(values, at, i, made) == Ok(attributes)
    {
      match AttributeFrom(values[at], made(AttributePlace(i, at))) {
        case Refused =>
          RefusedAttributes(values, at + 1, |values|, i, made);
          return Refused;
        case Ok(a) => attributes := attributes + [a];
      }
    }
    return Ok(attributes);
  }

  method ReadEntity(value: Json, i: nat, includePositions: bool, made: Made) returns (result: Result<Entity>)
    ensures result == EntityFrom(value, i, includePositions, made)
  {
    hide AttributesUpTo, PositionFrom, RequiredText, OptionalText, Identity;
    var source :- AsObject(value);
    var name :- RequiredText(source, "name");
    var description :- OptionalText(source, "description");
    var position :- PositionFrom(source, i, includePositions);
    var entity := Entity(Identity(source, made(EntityPlace(i))), name, OrEmpty(description), [], position);
    match Present(source, "attributes") {
      case None =>
      case Some(listed) =>
        var values :- AsArray(listed);
        var attributes :- ReadAttributes(values, i, made);
        entity := entity.(attributes := attributes);
    }
    return Ok(entity);
  }

  method Read(document: Json, includePositions: bool, made: Made) returns (result: Result<Schema>)
    ensures result == Decoded(document, includePositions, made)
  {
    hide EntityFrom, RelationshipFrom, RequiredText, OptionalText, Required;
    var root :- AsObject(document);
    var name :- RequiredText(root, "name");
    var description :- OptionalText(root, "description");
    var draft := Schema(name, OrEmpty(description), [], []);
    var value :- Required(root, "entities");
    var values :- AsArray(value);
    for i := 0 to |values|
      invariant EntitiesUpTo(values, i, includePositions, made) == Ok(draft.entities)
      invariant draft == Schema(name, OrEmpty(description), draft.entities, [])
    {
      var entity := ReadEntity(values[i], i, includePositions, made);
      match entity {
        case Refused =>
          RefusedEntities(values, i + 1, |values|, includePositions, made);
          return Refused;
        case Ok(e) => draft := draft.(entities := draft.entities + [e]);
      }
    }
    match Present(root, "relationships") {
      case None =>
      case Some(listed) =>
        var lines :- AsArray(listed);
        var relationships :- ReadRelationships(lines, draft.entities, made);
        draft := draft.(relationships := relationships);
    }
    return Ok(draft);
  }

  method ReadRelationships(values: seq<Json>, entities: seq<Entity>, made: Made) returns (result: Result<seq<Relationship>>)
    ensures result == RelationshipsUpTo(values, |values|, entities, made)
  {
    hide RelationshipFrom;
    var relationships: seq<Relationship> := [];
    for r := 0 to |values|
      invariant RelationshipsUpTo(values, r, entities, made) == Ok(relationships)
    {
      match RelationshipFrom(values[r], entities, made(LinePlace(r))) {
        case Refused =>
          RefusedRelationships(values, r + 1, |values|, entities, made);
          return Refused;
        case Ok(line) => relationships := relationships + [line];
      }
    }
    return Ok(relationships);
  }
}
