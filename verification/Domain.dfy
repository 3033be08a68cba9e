/** The canonical schema model. The id and the two timestamps of a stored
    schema are the store's and take no part in what is modelled here. */
module Domain {
  import opened Options
  import opened Strings
  import opened Decimal

  type U32 = x: nat | x < 0x1_0000_0000

  datatype DataTypeKind =
    | Text | Varchar | Char
    | SmallInt | Integer | BigInt
    | Numeric | Real | DoublePrecision
    | Boolean
    | Date | Time | Timestamp | TimestampTz
    | Uuid
    | Json | Jsonb
    | Bytea
  {
    predicate TakesLength() {
      Varchar? || Char?
    }

    predicate TakesPrecision() {
      Numeric?
    }

    function Family(): TypeFamily {
      match this
      case Text | Varchar | Char => Textual
      case SmallInt | Integer | BigInt => Integral
      case Numeric | Real | DoublePrecision => Decimal
      case Boolean => Truth
      case Date | Time | Timestamp | TimestampTz => Temporal
      case Uuid => Identifier
      case Json | Jsonb => Document
      case Bytea => Binary
    }
  }

  datatype TypeFamily = Textual | Integral | Decimal | Truth | Temporal | Identifier | Document | Binary

  datatype DataType = DataType(
    kind: DataTypeKind,
    length: Option<U32>,
    precision: Option<U32>,
    scale: Option<U32>)

  /** The kind's own short name. */
  function KindText(kind: DataTypeKind): string {
    match kind
    case Text => "text"
    case Varchar => "varchar"
    case Char => "char"
    case SmallInt => "smallint"
    case Integer => "integer"
    case BigInt => "bigint"
    case Numeric => "numeric"
    case Real => "real"
    case DoublePrecision => "double precision"
    case Boolean => "boolean"
    case Date => "date"
    case Time => "time"
    case Timestamp => "timestamp"
    case TimestampTz => "timestamptz"
    case Uuid => "uuid"
    case Json => "json"
    case Jsonb => "jsonb"
    case Bytea => "bytea"
  }

  /** The kind by name, with what parameters it takes in parentheses. */
  function TypeText(t: DataType): string {
    if t.kind.TakesLength() then
      match t.length
      case Some(length) => KindText(t.kind) + "(" + NatText(length) + ")"
      case None => KindText(t.kind)
    else if t.kind.TakesPrecision() then
      match (t.precision, t.scale)
      case (Some(precision), Some(scale)) =>
        KindText(t.kind) + "(" + NatText(precision) + ", " + NatText(scale) + ")"
      case (Some(precision), None) => KindText(t.kind) + "(" + NatText(precision) + ")"
      case _ => KindText(t.kind)
    else KindText(t.kind)
  }

  datatype ForeignKeyRef = ForeignKeyRef(entityId: string, attributeId: string)

  datatype Attribute = Attribute(
    id: string,
    name: string,
    description: string,
    dataType: DataType,
    nullable: bool,
    primaryKey: bool,
    unique: bool,
    foreignKey: Option<ForeignKeyRef>,
    defaultValue: Option<string>)
  {
    predicate IsDocumented() {
      Trim(description) != ""
    }
  }

  /** Canvas placement, in whole units. */
  datatype Position = Position(x: int, y: int)

  datatype Entity = Entity(
    id: string,
    name: string,
    description: string,
    attributes: seq<Attribute>,
    position: Position)
  {
    predicate IsDocumented() {
      Trim(description) != ""
    }

    /** Position of the attribute with this id. */
    function AttributeAt(attributeId: string): (r: Option<nat>)
      ensures r.Some? ==> r.value < |attributes| && attributes[r.value].id == attributeId
    {
      First(attributes, (a: Attribute) => a.id == attributeId)
    }

    function AttributeByName(wanted: string): (r: Option<nat>)
      ensures r.Some? ==> r.value < |attributes| && Same(attributes[r.value].name, wanted)
    {
      First(attributes, (a: Attribute) => Same(a.name, wanted))
    }

    function PrimaryKey(): seq<Attribute> {
      KeyColumns(attributes)
    }

    predicate HasPrimaryKey() {
      exists i :: 0 <= i < |attributes| && attributes[i].primaryKey
    }
  }

  /** The key columns, in column order. */
  function KeyColumns(attributes: seq<Attribute>): (r: seq<Attribute>)
    ensures |r| <= |attributes|
  {
    if attributes == [] then []
    else if attributes[0].primaryKey then [attributes[0]] + KeyColumns(attributes[1..])
    else KeyColumns(attributes[1..])
  }

  datatype Cardinality = OneToOne | OneToMany | ManyToMany

  function CardinalityText(c: Cardinality): string {
    match c
    case OneToOne => "1:1"
    case OneToMany => "1:N"
    case ManyToMany => "N:M"
  }

  datatype Relationship = Relationship(
    id: string,
    name: string,
    description: string,
    fromEntityId: string,
    fromAttributeId: string,
    toEntityId: string,
    toAttributeId: string,
    cardinality: Cardinality)
  {
    predicate IsDocumented() {
      Trim(description) != ""
    }
  }

  datatype Schema = Schema(
    name: string,
    description: string,
    entities: seq<Entity>,
    relationships: seq<Relationship>)
  {
    /** Position of the first entity with this id. */
    function EntityAt(entityId: string): (r: Option<nat>)
      ensures r.Some? ==> r.value < |entities| && entities[r.value].id == entityId
    {
      First(entities, (e: Entity) => e.id == entityId)
    }

    /** Positions of an entity and of an attribute within it. */
    function Resolve(entityId: string, attributeId: string): (r: Option<(nat, nat)>)
      ensures r.Some? ==> r.value.0 < |entities| && r.value.1 < |entities[r.value.0].attributes|
      ensures r.Some? ==> entities[r.value.0].id == entityId
      ensures r.Some? ==> entities[r.value.0].attributes[r.value.1].id == attributeId
    {
      match EntityAt(entityId)
      case None => None
      case Some(e) =>
        match entities[e].AttributeAt(attributeId)
        case None => None
        case Some(a) => Some((e, a))
    }
  }

  function ColumnNames(attributes: seq<Attribute>): (r: seq<string>)
    ensures |r| == |attributes| && forall i :: 0 <= i < |r| ==> r[i] == attributes[i].name
  {
    seq(|attributes|, i requires 0 <= i < |attributes| => attributes[i].name)
  }

  function TrimmedNames(attributes: seq<Attribute>): (r: seq<string>)
    ensures |r| == |attributes| && forall i :: 0 <= i < |r| ==> r[i] == Trim(attributes[i].name)
  {
    seq(|attributes|, i requires 0 <= i < |attributes| => Trim(attributes[i].name))
  }

  function TableNames(entities: seq<Entity>): (r: seq<string>)
    ensures |r| == |entities| && forall i :: 0 <= i < |r| ==> r[i] == entities[i].name
  {
    seq(|entities|, i requires 0 <= i < |entities| => entities[i].name)
  }

  ghost predicate UniqueEntityIds(entities: seq<Entity>) {
    forall i, j :: 0 <= i < j < |entities| ==> entities[i].id != entities[j].id
  }
}
