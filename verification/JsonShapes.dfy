/** Which documents are read, and as what: told field by field. */
module JsonShapes {
  import opened Options
  import opened Strings
  import opened Domain
  import opened Names
  import opened JsonValues
  import opened JsonCodec

  // ----- names -----

  /** The word the contract has for a kind, behind the same prefix for all. */
  function ContractWord(kind: DataTypeKind): string {
    match kind
    case Text => "TEXT"
    case Varchar => "VARCHAR"
    case Char => "CHAR"
    case SmallInt => "SMALL_INT"
    case Integer => "INTEGER"
    case BigInt => "BIG_INT"
    case Numeric => "NUMERIC"
    case Real => "REAL"
    case DoublePrecision => "DOUBLE_PRECISION"
    case Boolean => "BOOLEAN"
    case Date => "DATE"
    case Time => "TIME"
    case Timestamp => "TIMESTAMP"
    case TimestampTz => "TIMESTAMPTZ"
    case Uuid => "UUID"
    case Json => "JSON"
    case Jsonb => "JSONB"
    case Bytea => "BYTEA"
  }

  function ContractName(kind: DataTypeKind): string {
    "DATA_TYPE_KIND_" + ContractWord(kind)
  }

  lemma ShortWordIs(kind: DataTypeKind)
    requires kind.Text? || kind.Char? || kind.Real? || kind.Date? || kind.Time? || kind.Uuid? || kind.Json? || kind.Jsonb? || kind.Bytea?
    ensures KindSuffix(kind) == ContractWord(kind)
  {
  }

  lemma LongWordIs(kind: DataTypeKind)
    requires kind.Varchar? || kind.SmallInt? || kind.Integer? || kind.BigInt? || kind.Numeric?
    ensures KindSuffix(kind) == ContractWord(kind)
  {
  }

  lemma LongestWordIs(kind: DataTypeKind)
    requires kind.DoublePrecision? || kind.Boolean? || kind.Timestamp? || kind.TimestampTz?
    ensures KindSuffix(kind) == ContractWord(kind)
  {
  }

  lemma KindNameIs(kind: DataTypeKind)
    ensures KindName(kind) == ContractName(kind)
  {
    hide KindSuffix, ContractWord;
    match kind {
      case Varchar | SmallInt | Integer | BigInt | Numeric => LongWordIs(kind);
      case DoublePrecision | Boolean | Timestamp | TimestampTz => LongestWordIs(kind);
      case _ => ShortWordIs(kind);
    }
  }

  function TextMark(kind: DataTypeKind): (nat, char, char) {
    match kind
    case Text => (4, 't', 't')
    case Varchar => (7, 'v', 'r')
    case Char => (4, 'c', 'r')
    case SmallInt => (8, 's', 't')
    case Integer => (7, 'i', 'r')
    case BigInt => (6, 'b', 't')
    case Numeric => (7, 'n', 'c')
    case Real => (4, 'r', 'l')
    case DoublePrecision => (16, 'd', 'n')
    case Boolean => (7, 'b', 'n')
    case Date => (4, 'd', 'e')
    case Time => (4, 't', 'e')
    case Timestamp => (9, 't', 'p')
    case TimestampTz => (11, 't', 'z')
    case Uuid => (4, 'u', 'd')
    case Json => (4, 'j', 'n')
    case Jsonb => (5, 'j', 'b')
    case Bytea => (5, 'b', 'a')
  }

  lemma TextMarkIs(kind: DataTypeKind)
    ensures var s := KindText(kind); s != "" && TextMark(kind) == (|s|, s[0], s[|s| - 1])
  {
  }

  lemma TextMarksDiffer(a: DataTypeKind, b: DataTypeKind)
    requires TextMark(a) == TextMark(b)
    ensures a == b
  {
  }

  lemma MarkIsLower(kind: DataTypeKind)
    ensures LowerChar(TextMark(kind).1) == TextMark(kind).1 && LowerChar(TextMark(kind).2) == TextMark(kind).2
  {
  }

  /** No text names two kinds. */
  lemma NamesOneKind(a: DataTypeKind, b: DataTypeKind, wanted: string)
    requires NamesKind(a, wanted) && NamesKind(b, wanted)
    ensures a == b
  {
    hide KindName, KindText, TextMark;
    TextMarkIs(a);
    TextMarkIs(b);
    MarkIsLower(a);
    MarkIsLower(b);
    TextIsShort(a);
    TextIsShort(b);
    NameIsLong(a);
    NameIsLong(b);
    if KindName(a) == KindName(b) {
      KindNameInjective(a, b);
    } else if Lower(KindText(a)) == Lower(KindText(b)) {
      var x, y := KindText(a), KindText(b);
      assert |Lower(x)| == |x| && Lower(x)[0] == LowerChar(x[0]) && Lower(x)[|x| - 1] == LowerChar(x[|x| - 1]);
      assert |Lower(y)| == |y| && Lower(y)[0] == LowerChar(y[0]) && Lower(y)[|y| - 1] == LowerChar(y[|y| - 1]);
      TextMarksDiffer(a, b);
    }
  }

  /** A kind is read from its contract name, or from its own in any case, with
      blanks around it passed over. */
  lemma KindIff(name: string, kind: DataTypeKind)
    ensures KindFromName(name) == Some(kind) <==> Trim(name) == ContractName(kind) || Same(KindText(kind), Trim(name))
  {
    hide KindName, ContractName, KindText, Trim, Lower, Ordinal;
    KindNameIs(kind);
    var p := (k: DataTypeKind) => NamesKind(k, Trim(name));
    assert KindFromName(name) == match First(KINDS, p) case None => None case Some(i) => Some(KINDS[i]);
    if NamesKind(kind, Trim(name)) {
      assert KINDS[Ordinal(kind)] == kind && p(KINDS[Ordinal(kind)]);
      var found := First(KINDS, p);
      NamesOneKind(KINDS[found.value], kind, Trim(name));
    }
  }

  lemma NamesOneCardinality(a: Cardinality, b: Cardinality, wanted: string)
    requires NamesCardinality(a, wanted) && NamesCardinality(b, wanted)
    ensures a == b
  {
    assert |CardinalityName(OneToOne)| == 22 && |CardinalityName(OneToMany)| == 23 && |CardinalityName(ManyToMany)| == 24;
    assert |Lower(CardinalityText(a))| == 3 && |Lower(CardinalityText(b))| == 3;
    CardinalityTextsDiffer(a, b);
  }

  lemma CardinalityTextsDiffer(a: Cardinality, b: Cardinality)
    requires Same(CardinalityText(a), CardinalityText(b))
    ensures a == b
  {
    var x, y := CardinalityText(a), CardinalityText(b);
    assert Lower(x)[0] == LowerChar(x[0]) && Lower(y)[0] == LowerChar(y[0]);
    assert Lower(x)[2] == LowerChar(x[2]) && Lower(y)[2] == LowerChar(y[2]);
  }

  /** The contract's name for a cardinality, or the canvas's in any case. */
  predicate IsCardinality(c: Cardinality, wanted: string) {
    match c
    case OneToOne => wanted == "CARDINALITY_ONE_TO_ONE" || Same("1:1", wanted)
    case OneToMany => wanted == "CARDINALITY_ONE_TO_MANY" || Same("1:N", wanted)
    case ManyToMany => wanted == "CARDINALITY_MANY_TO_MANY" || Same("N:M", wanted)
  }

  lemma CardinalityNamed(c: Cardinality, wanted: string)
    ensures NamesCardinality(c, wanted) <==> IsCardinality(c, wanted)
  {
    hide Same;
  }

  lemma CardinalityIff(name: string, c: Cardinality)
    ensures CardinalityFromName(name) == Some(c) <==> IsCardinality(c, Trim(name))
  {
    hide CardinalityName, CardinalityText, Trim, Lower, NamesCardinality, IsCardinality;
    CardinalityNamed(c, Trim(name));
    var p := (k: Cardinality) => NamesCardinality(k, Trim(name));
    assert CardinalityFromName(name) == match First(CARDINALITIES, p) case None => None case Some(i) => Some(CARDINALITIES[i]);
    if NamesCardinality(c, Trim(name)) {
      var at: nat := if c.OneToOne? then 0 else if c.OneToMany? then 1 else 2;
      assert CARDINALITIES[at] == c && p(CARDINALITIES[at]);
      var found := First(CARDINALITIES, p);
      NamesOneCardinality(CARDINALITIES[found.value], c, Trim(name));
    }
  }

  // ----- fields -----

  /** Nothing is said: the field is not there, or null. */
  predicate Missing(o: Fields, key: string) {
    key in o ==> o[key] == Null
  }

  predicate Holds(o: Fields, key: string, value: Json) {
    key in o && o[key] == value
  }

  predicate IsOptionalText(o: Fields, key: string, text: Option<string>) {
    match text
    case None => Missing(o, key)
    case Some(t) => Holds(o, key, Str(t))
  }

  /** A text, blank where nothing is said. */
  predicate IsTextOrBlank(o: Fields, key: string, text: string) {
    Holds(o, key, Str(text)) || (Missing(o, key) && text == "")
  }

  predicate IsFlag(o: Fields, key: string, default: bool, flag: bool) {
    Holds(o, key, Bool(flag)) || (Missing(o, key) && flag == default)
  }

  predicate IsCount(o: Fields, key: string, n: Option<U32>) {
    match n
    case None => Missing(o, key)
    case Some(value) => Holds(o, key, Num(value))
  }

  predicate HasCount(o: Fields, key: string) {
    Missing(o, key) || (key in o && o[key].Num? && 0 <= o[key].number < 0x1_0000_0000)
  }

  predicate IsCoordinate(o: Fields, key: string, n: int) {
    Holds(o, key, Num(n)) || (Missing(o, key) && n == 0)
  }

  /** An id that is a text and not blank is kept without the blanks around it;
      anything else is replaced. */
  ghost predicate IsIdentity(o: Fields, made: string, id: string) {
    && (forall text :: Holds(o, "id", Str(text)) && Trim(text) != "" ==> id == Trim(text))
    && (!(exists text :: Holds(o, "id", Str(text)) && Trim(text) != "") ==> id == made)
  }

  lemma IdentityIff(o: Fields, made: string, id: string)
    ensures Identity(o, made) == id <==> IsIdentity(o, made, id)
  {
    hide Trim;
    if "id" in o && o["id"].Str? {
      assert Holds(o, "id", Str(o["id"].text));
    }
  }

  lemma TextIff(o: Fields, key: string, text: string)
    ensures RequiredText(o, key) == Ok(text) <==> Holds(o, key, Str(text))
    ensures (exists t :: OptionalText(o, key) == Ok(t) && OrEmpty(t) == text) <==> IsTextOrBlank(o, key, text)
  {
    if Missing(o, key) {
      assert OptionalText(o, key) == Ok(None);
    } else {
      assert OptionalText(o, key) == if o[key].Str? then Ok(Some(o[key].text)) else Refused;
    }
  }

  lemma OptionalTextIff(o: Fields, key: string, text: Option<string>)
    ensures OptionalText(o, key) == Ok(text) <==> IsOptionalText(o, key, text)
  {
  }

  lemma FlagIff(o: Fields, key: string, default: bool, flag: bool)
    ensures Flag(o, key, default) == Ok(flag) <==> IsFlag(o, key, default, flag)
  {
  }

  lemma CountIff(o: Fields, key: string, n: Option<U32>)
    ensures Count(o, key) == Ok(n) <==> IsCount(o, key, n)
    ensures Count(o, key).Ok? <==> HasCount(o, key)
  {
  }

  lemma CoordinateIff(o: Fields, key: string, n: int)
    ensures Coordinate(o, key) == Ok(n) <==> IsCoordinate(o, key, n)
  {
  }

  // ----- types and keys -----

  /** The type of a column: its kind by name, and the parameters that kind takes.
      A parameter it does not take has to be a number all the same. */
  ghost predicate TypeInside(d: Fields, name: string, t: DataType) {
    && Holds(d, "kind", Str(name))
    && (Trim(name) == ContractName(t.kind) || Same(KindText(t.kind), Trim(name)))
    && HasCount(d, "length") && HasCount(d, "precision") && HasCount(d, "scale")
    && (if t.kind.TakesLength() then IsCount(d, "length", t.length) else t.length.None?)
    && (if t.kind.TakesPrecision() then IsCount(d, "precision", t.precision) && IsCount(d, "scale", t.scale)
        else t.precision.None? && t.scale.None?)
  }

  ghost predicate IsTypeDoc(o: Fields, t: DataType) {
    exists d: Fields, name: string :: Holds(o, "dataType", Obj(d)) && TypeInside(d, name, t)
  }

  lemma InsideIff(o: Fields, d: Fields, name: string, t: DataType)
    requires Holds(o, "dataType", Obj(d)) && Holds(d, "kind", Str(name))
    ensures TypeFrom(o) == Ok(t) <==> TypeInside(d, name, t)
  {
    hide KindFromName, KindName, KindText, Trim, Same, Count, IsCount, HasCount;
    KindIff(name, t.kind);
    CountIff(d, "length", t.length);
    CountIff(d, "precision", t.precision);
    CountIff(d, "scale", t.scale);
    assert RequiredText(d, "kind") == Ok(name);
    assert Required(o, "dataType") == Ok(Obj(d));
  }

  lemma TypeIff(o: Fields, t: DataType)
    ensures TypeFrom(o) == Ok(t) <==> IsTypeDoc(o, t)
  {
    hide KindFromName, TypeInside, Count;
    if "dataType" in o && o["dataType"].Obj? && "kind" in o["dataType"].fields && o["dataType"].fields["kind"].Str? {
      InsideIff(o, o["dataType"].fields, o["dataType"].fields["kind"].text, t);
    }
    if d: Fields, name: string :| Holds(o, "dataType", Obj(d)) && TypeInside(d, name, t) {
      InsideKind(d, name, t);
      InsideIff(o, d, name, t);
    }
  }

  lemma InsideKind(d: Fields, name: string, t: DataType)
    requires TypeInside(d, name, t)
    ensures Holds(d, "kind", Str(name))
  {
  }

  predicate KeyInside(d: Fields, reference: ForeignKeyRef) {
    Holds(d, "entityId", Str(reference.entityId)) && Holds(d, "attributeId", Str(reference.attributeId))
  }

  ghost predicate IsKeyDoc(o: Fields, key: Option<ForeignKeyRef>) {
    match key
    case None => Missing(o, "foreignKey")
    case Some(reference) => exists d: Fields :: Holds(o, "foreignKey", Obj(d)) && KeyInside(d, reference)
  }

  lemma KeyIff(o: Fields, key: Option<ForeignKeyRef>)
    ensures KeyFrom(o) == Ok(key) <==> IsKeyDoc(o, key)
  {
    if "foreignKey" in o && o["foreignKey"].Obj? {
      var d := o["foreignKey"].fields;
      if key.Some? {
        TextIff(d, "entityId", key.value.entityId);
        TextIff(d, "attributeId", key.value.attributeId);
        assert Holds(o, "foreignKey", Obj(d));
      }
    }
  }

  // ----- columns -----

  ghost predicate AttributeInside(o: Fields, made: string, a: Attribute, nullable: bool) {
    && IsIdentity(o, made, a.id) && Holds(o, "name", Str(a.name)) && IsTextOrBlank(o, "description", a.description)
    && IsTypeDoc(o, a.dataType)
    && IsFlag(o, "nullable", true, nullable) && IsFlag(o, "primaryKey", false, a.primaryKey) && IsFlag(o, "unique", false, a.unique)
    && IsOptionalText(o, "defaultValue", a.defaultValue) && IsKeyDoc(o, a.foreignKey)
    && a.nullable == (nullable && !a.primaryKey)
  }

  /** A column: nullable unless it says otherwise, neither key nor unique unless
      it says so, and never nullable as a key. */
  ghost predicate IsAttributeDoc(v: Json, made: string, a: Attribute) {
    v.Obj? && exists nullable :: AttributeInside(v.fields, made, a, nullable)
  }

  lemma AttributeOnly(o: Fields, made: string, a: Attribute)
    requires AttributeFrom(Obj(o), made) == Ok(a)
    ensures exists nullable :: AttributeInside(o, made, a, nullable)
  {
    hide Identity, TypeFrom, KeyFrom, OptionalText, RequiredText, Flag, IsIdentity, IsTypeDoc, IsKeyDoc, IsFlag, IsTextOrBlank, IsOptionalText;
    IdentityIff(o, made, a.id);
    TextIff(o, "name", a.name);
    TextIff(o, "description", a.description);
    TypeIff(o, a.dataType);
    var nullable := Flag(o, "nullable", true).value;
    FlagIff(o, "nullable", true, nullable);
    FlagIff(o, "primaryKey", false, a.primaryKey);
    FlagIff(o, "unique", false, a.unique);
    OptionalTextIff(o, "defaultValue", a.defaultValue);
    KeyIff(o, a.foreignKey);
    assert AttributeInside(o, made, a, nullable);
  }

  lemma AttributeThere(o: Fields, made: string, a: Attribute, nullable: bool)
    requires AttributeInside(o, made, a, nullable)
    ensures AttributeFrom(Obj(o), made) == Ok(a)
  {
    hide Identity, TypeFrom, KeyFrom, OptionalText, RequiredText, Flag, IsIdentity, IsTypeDoc, IsKeyDoc, IsFlag, IsTextOrBlank, IsOptionalText;
    IdentityIff(o, made, a.id);
    TextIff(o, "name", a.name);
    TextIff(o, "description", a.description);
    TypeIff(o, a.dataType);
    FlagIff(o, "nullable", true, nullable);
    FlagIff(o, "primaryKey", false, a.primaryKey);
    FlagIff(o, "unique", false, a.unique);
    OptionalTextIff(o, "defaultValue", a.defaultValue);
    KeyIff(o, a.foreignKey);
  }

  lemma AttributeIff(v: Json, made: string, a: Attribute)
    ensures AttributeFrom(v, made) == Ok(a) <==> IsAttributeDoc(v, made, a)
  {
    hide AttributeInside;
    if v.Obj? {
      assert v == Obj(v.fields);
      if AttributeFrom(v, made) == Ok(a) {
        AttributeOnly(v.fields, made, a);
      }
      if nullable :| AttributeInside(v.fields, made, a, nullable) {
        AttributeThere(v.fields, made, a, nullable);
      }
    }
  }

  ghost predicate AreAttributeDocs(values: seq<Json>, n: nat, i: nat, made: Made, attributes: seq<Attribute>)
    requires n <= |values|
  {
    |attributes| == n && forall k :: 0 <= k < n ==> IsAttributeDoc(values[k], made(AttributePlace(i, k)), attributes[k])
  }

  lemma AppendIs<T>(before: seq<T>, x: T, front: seq<T>, last: T)
    ensures before + [x] == front + [last] <==> before == front && x == last
  {
    if before + [x] == front + [last] {
      assert (before + [x])[..|before|] == before && (front + [last])[..|front|] == front;
      assert (before + [x])[|before|] == x && (front + [last])[|front|] == last;
    }
  }

  lemma {:induction false} AttributesIff(values: seq<Json>, n: nat, i: nat, made: Made, attributes: seq<Attribute>)
    requires n <= |values|
    ensures AttributesUpTo(values, n, i, made) == Ok(attributes) <==> AreAttributeDocs(values, n, i, made, attributes)
  {
    hide AttributeFrom, IsAttributeDoc;
    if n > 0 && attributes != [] {
      var front, last := attributes[..|attributes| - 1], attributes[|attributes| - 1];
      assert attributes == front + [last];
      AttributesIff(values, n - 1, i, made, front);
      AttributeIff(values[n - 1], made(AttributePlace(i, n - 1)), last);
      if AttributesUpTo(values, n, i, made).Ok? {
        AppendIs(AttributesUpTo(values, n - 1, i, made).value, AttributeFrom(values[n - 1], made(AttributePlace(i, n - 1))).value, front, last);
      }
    }
  }

  // ----- tables -----

  ghost predicate IsAttributesDoc(o: Fields, i: nat, made: Made, attributes: seq<Attribute>) {
    || (Missing(o, "attributes") && attributes == [])
    || exists values :: Holds(o, "attributes", Arr(values)) && AreAttributeDocs(values, |values|, i, made, attributes)
  }

  lemma AttributesDocIff(o: Fields, i: nat, made: Made, attributes: seq<Attribute>)
    ensures AttributesFrom(o, i, made) == Ok(attributes) <==> IsAttributesDoc(o, i, made, attributes)
  {
    hide AttributesUpTo, AreAttributeDocs;
    if "attributes" in o && o["attributes"].Arr? {
      assert Holds(o, "attributes", Arr(o["attributes"].items));
      AttributesIff(o["attributes"].items, |o["attributes"].items|, i, made, attributes);
    }
  }

  /** A place is read only where it is asked for; without one a table has its
      slot of the grid, and a coordinate not given is 0. */
  ghost predicate IsPositionDoc(o: Fields, i: nat, includePositions: bool, p: Position) {
    if includePositions && !Missing(o, "position")
    then exists d :: Holds(o, "position", Obj(d)) && IsCoordinate(d, "x", p.x) && IsCoordinate(d, "y", p.y)
    else p == Position((i % 4) * 320, (i / 4) * 260)
  }

  lemma PositionIff(o: Fields, i: nat, includePositions: bool, p: Position)
    ensures PositionFrom(o, i, includePositions) == Ok(p) <==> IsPositionDoc(o, i, includePositions, p)
  {
    hide Coordinate, IsCoordinate;
    if "position" in o && o["position"].Obj? {
      var d := o["position"].fields;
      assert Holds(o, "position", Obj(d));
      CoordinateIff(d, "x", p.x);
      CoordinateIff(d, "y", p.y);
    }
  }

  ghost predicate IsEntityDoc(v: Json, i: nat, includePositions: bool, made: Made, e: Entity) {
    && v.Obj? && IsIdentity(v.fields, made(EntityPlace(i)), e.id) && Holds(v.fields, "name", Str(e.name))
    && IsTextOrBlank(v.fields, "description", e.description) && IsPositionDoc(v.fields, i, includePositions, e.position)
    && IsAttributesDoc(v.fields, i, made, e.attributes)
  }

  lemma EntityIff(v: Json, i: nat, includePositions: bool, made: Made, e: Entity)
    ensures EntityFrom(v, i, includePositions, made) == Ok(e) <==> IsEntityDoc(v, i, includePositions, made, e)
  {
    hide Identity, PositionFrom, AttributesFrom, OptionalText, RequiredText, IsIdentity, IsPositionDoc, IsAttributesDoc, IsTextOrBlank;
    if v.Obj? {
      IdentityIff(v.fields, made(EntityPlace(i)), e.id);
      TextIff(v.fields, "name", e.name);
      TextIff(v.fields, "description", e.description);
      PositionIff(v.fields, i, includePositions, e.position);
      AttributesDocIff(v.fields, i, made, e.attributes);
    }
  }

  ghost predicate AreEntityDocs(values: seq<Json>, n: nat, includePositions: bool, made: Made, entities: seq<Entity>)
    requires n <= |values|
  {
    |entities| == n && forall k :: 0 <= k < n ==> IsEntityDoc(values[k], k, includePositions, made, entities[k])
  }

  lemma {:induction false} EntitiesIff(values: seq<Json>, n: nat, includePositions: bool, made: Made, entities: seq<Entity>)
    requires n <= |values|
    ensures EntitiesUpTo(values, n, includePositions, made) == Ok(entities) <==> AreEntityDocs(values, n, includePositions, made, entities)
  {
    hide EntityFrom, IsEntityDoc;
    if n > 0 && entities != [] {
      var front, last := entities[..|entities| - 1], entities[|entities| - 1];
      assert entities == front + [last];
      EntitiesIff(values, n - 1, includePositions, made, front);
      EntityIff(values[n - 1], n - 1, includePositions, made, last);
      if EntitiesUpTo(values, n, includePositions, made).Ok? {
        AppendIs(EntitiesUpTo(values, n - 1, includePositions, made).value, EntityFrom(values[n - 1], n - 1, includePositions, made).value, front, last);
      }
    }
  }

  // ----- lines -----

  /** One table to many, unless it says otherwise. */
  ghost predicate IsCardinalityDoc(o: Fields, c: Cardinality) {
    || (Missing(o, "cardinality") && c == OneToMany)
    || exists name :: Holds(o, "cardinality", Str(name)) && IsCardinality(c, Trim(name))
  }

  lemma CardinalityDocIff(o: Fields, c: Cardinality)
    ensures CardinalityFrom(o) == Ok(c) <==> IsCardinalityDoc(o, c)
  {
    hide CardinalityFromName, IsCardinality, Trim;
    if "cardinality" in o && o["cardinality"].Str? {
      var name := o["cardinality"].text;
      assert Holds(o, "cardinality", Str(name));
      CardinalityIff(name, c);
    }
  }

  predicate EndsAt(o: Fields, r: Relationship) {
    && Holds(o, "fromEntityId", Str(r.fromEntityId)) && Holds(o, "fromAttributeId", Str(r.fromAttributeId))
    && Holds(o, "toEntityId", Str(r.toEntityId)) && Holds(o, "toAttributeId", Str(r.toAttributeId))
  }

  ghost predicate IsLineDoc(v: Json, entities: seq<Entity>, made: string, r: Relationship) {
    && v.Obj? && IsIdentity(v.fields, made, r.id) && EndsAt(v.fields, r) && IsCardinalityDoc(v.fields, r.cardinality)
    && IsTextOrBlank(v.fields, "name", r.name) && IsTextOrBlank(v.fields, "description", r.description)
    && (exists i :: 0 <= i < |entities| && entities[i].id == r.fromEntityId)
    && (exists i :: 0 <= i < |entities| && entities[i].id == r.toEntityId)
  }

  lemma EndsIff(o: Fields, r: Relationship)
    ensures EndsAt(o, r) <==>
      && RequiredText(o, "fromEntityId") == Ok(r.fromEntityId) && RequiredText(o, "fromAttributeId") == Ok(r.fromAttributeId)
      && RequiredText(o, "toEntityId") == Ok(r.toEntityId) && RequiredText(o, "toAttributeId") == Ok(r.toAttributeId)
  {
    hide RequiredText, OptionalText, Holds;
    TextIff(o, "fromEntityId", r.fromEntityId);
    TextIff(o, "fromAttributeId", r.fromAttributeId);
    TextIff(o, "toEntityId", r.toEntityId);
    TextIff(o, "toAttributeId", r.toAttributeId);
  }

  lemma LineIff(v: Json, entities: seq<Entity>, made: string, r: Relationship)
    ensures RelationshipFrom(v, entities, made) == Ok(r) <==> IsLineDoc(v, entities, made, r)
  {
    hide Identity, CardinalityFrom, OptionalText, RequiredText, IsIdentity, IsCardinalityDoc, IsTextOrBlank, EndsAt;
    if v.Obj? {
      IdentityIff(v.fields, made, r.id);
      EndsIff(v.fields, r);
      TextIff(v.fields, "name", r.name);
      TextIff(v.fields, "description", r.description);
      CardinalityDocIff(v.fields, r.cardinality);
      HeldIs(entities, r);
    }
  }

  lemma HeldIs(entities: seq<Entity>, r: Relationship)
    ensures Held(entities, r.fromEntityId) <==> exists i :: 0 <= i < |entities| && entities[i].id == r.fromEntityId
    ensures Held(entities, r.toEntityId) <==> exists i :: 0 <= i < |entities| && entities[i].id == r.toEntityId
  {
  }

  ghost predicate AreLineDocs(values: seq<Json>, n: nat, entities: seq<Entity>, made: Made, lines: seq<Relationship>)
    requires n <= |values|
  {
    |lines| == n && forall k: nat :: k < n ==> IsLineDoc(values[k], entities, made(LinePlace(k)), lines[k])
  }

  lemma {:induction false} LinesIff(values: seq<Json>, n: nat, entities: seq<Entity>, made: Made, lines: seq<Relationship>)
    requires n <= |values|
    ensures RelationshipsUpTo(values, n, entities, made) == Ok(lines) <==> AreLineDocs(values, n, entities, made, lines)
  {
    hide RelationshipFrom, IsLineDoc;
    if n > 0 && lines != [] {
      var front, last := lines[..|lines| - 1], lines[|lines| - 1];
      assert lines == front + [last];
      LinesIff(values, n - 1, entities, made, front);
      LineIff(values[n - 1], entities, made(LinePlace(n - 1)), last);
      if RelationshipsUpTo(values, n, entities, made).Ok? {
        AppendIs(RelationshipsUpTo(values, n - 1, entities, made).value, RelationshipFrom(values[n - 1], entities, made(LinePlace(n - 1))).value, front, last);
      }
    }
  }

  ghost predicate IsLinesDoc(o: Fields, entities: seq<Entity>, made: Made, lines: seq<Relationship>) {
    || (Missing(o, "relationships") && lines == [])
    || exists values :: Holds(o, "relationships", Arr(values)) && AreLineDocs(values, |values|, entities, made, lines)
  }

  lemma LinesDocIff(o: Fields, entities: seq<Entity>, made: Made, lines: seq<Relationship>)
    ensures RelationshipsFrom(o, entities, made) == Ok(lines) <==> IsLinesDoc(o, entities, made, lines)
  {
    hide RelationshipsUpTo, AreLineDocs;
    if "relationships" in o && o["relationships"].Arr? {
      assert Holds(o, "relationships", Arr(o["relationships"].items));
      LinesIff(o["relationships"].items, |o["relationships"].items|, entities, made, lines);
    }
  }

  // ----- the document -----

  ghost predicate IsEntitiesDoc(o: Fields, includePositions: bool, made: Made, entities: seq<Entity>) {
    exists values :: Holds(o, "entities", Arr(values)) && AreEntityDocs(values, |values|, includePositions, made, entities)
  }

  /** `s` is what the document says: a name and tables are required, lines and
      everything else may be left out, and every line ends at its tables. */
  ghost predicate Reads(document: Json, includePositions: bool, made: Made, s: Schema) {
    && document.Obj? && Holds(document.fields, "name", Str(s.name)) && IsTextOrBlank(document.fields, "description", s.description)
    && IsEntitiesDoc(document.fields, includePositions, made, s.entities)
    && IsLinesDoc(document.fields, s.entities, made, s.relationships)
  }

  lemma EntitiesDocIff(o: Fields, includePositions: bool, made: Made, entities: seq<Entity>)
    ensures IsEntitiesDoc(o, includePositions, made, entities) <==>
      "entities" in o && o["entities"].Arr? && EntitiesUpTo(o["entities"].items, |o["entities"].items|, includePositions, made) == Ok(entities)
  {
    hide EntitiesUpTo, AreEntityDocs;
    if "entities" in o && o["entities"].Arr? {
      assert Holds(o, "entities", Arr(o["entities"].items));
      EntitiesIff(o["entities"].items, |o["entities"].items|, includePositions, made, entities);
    }
  }

  /** A document is accepted as exactly the schema it says, and refused when it
      says none. */
  lemma DecodedIff(document: Json, includePositions: bool, made: Made, s: Schema)
    ensures Decoded(document, includePositions, made) == Ok(s) <==> Reads(document, includePositions, made, s)
  {
    hide EntitiesUpTo, RelationshipsFrom, OptionalText, RequiredText, IsTextOrBlank, IsEntitiesDoc, IsLinesDoc;
    if document.Obj? {
      TextIff(document.fields, "name", s.name);
      TextIff(document.fields, "description", s.description);
      EntitiesDocIff(document.fields, includePositions, made, s.entities);
      LinesDocIff(document.fields, s.entities, made, s.relationships);
    }
  }

  // ----- the document written -----

  function Given(key: string, given: bool): set<string> {
    if given then {key} else {}
  }

  /** What a written document leaves out: places unless asked for, and of a column
      or its type only what is not there. */
  lemma WrittenFields(e: Entity, a: Attribute, includePositions: bool)
    ensures EntityDoc(e, includePositions).Obj? && AttributeDoc(a).Obj? && TypeDoc(a.dataType).Obj?
    ensures EntityDoc(e, includePositions).fields.Keys == {"id", "name", "description", "attributes"} + Given("position", includePositions)
    ensures AttributeDoc(a).fields.Keys
      == {"id", "name", "description", "dataType", "nullable", "primaryKey", "unique"}
         + Given("foreignKey", a.foreignKey.Some?) + Given("defaultValue", a.defaultValue.Some?)
    ensures TypeDoc(a.dataType).fields.Keys
      == {"kind"} + Given("length", a.dataType.length.Some?) + Given("precision", a.dataType.precision.Some?) + Given("scale", a.dataType.scale.Some?)
  {
    hide TypeDoc, KeyDoc, PositionDoc, AttributeDocs;
    EntityKeys(e, includePositions);
    AttributeKeys(a);
    TypeKeys(a.dataType);
  }

  lemma EntityKeys(e: Entity, includePositions: bool)
    ensures EntityDoc(e, includePositions).fields.Keys == {"id", "name", "description", "attributes"} + Given("position", includePositions)
  {
  }

  lemma AttributeKeys(a: Attribute)
    ensures AttributeDoc(a).fields.Keys
      == {"id", "name", "description", "dataType", "nullable", "primaryKey", "unique"}
         + Given("foreignKey", a.foreignKey.Some?) + Given("defaultValue", a.defaultValue.Some?)
  {
  }

  lemma TypeKeys(t: DataType)
    ensures TypeDoc(t).Obj? && TypeDoc(t).fields.Keys
      == {"kind"} + Given("length", t.length.Some?) + Given("precision", t.precision.Some?) + Given("scale", t.scale.Some?)
  {
  }
}
