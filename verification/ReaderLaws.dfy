/** What holds of every draft the SQL reader returns: each statement accounted
    for, every reference resolved, every line with a foreign key behind it. */
module ReaderLaws {
  import opened Options
  import opened Strings
  import opened Domain
  import opened Diagnostics
  import opened Scanning
  import opened TableParser
  import opened Statements
  import opened Grid
  import opened SqlReader

  // ----- what linking, describing and placing leave alone -----

  predicate SameColumn(a: Attribute, b: Attribute) {
    a.(description := "", foreignKey := None) == b.(description := "", foreignKey := None)
  }

  predicate SameColumns(a: seq<Attribute>, b: seq<Attribute>) {
    |a| == |b| && forall k :: 0 <= k < |a| ==> SameColumn(a[k], b[k])
  }

  predicate SameEntity(a: Entity, b: Entity) {
    a.id == b.id && a.name == b.name && SameColumns(a.attributes, b.attributes)
  }

  /** Same tables and columns; descriptions, places and foreign keys aside. */
  predicate SameShape(a: seq<Entity>, b: seq<Entity>) {
    |a| == |b| && forall i :: 0 <= i < |a| ==> SameEntity(a[i], b[i])
  }

  lemma SameShapeTransitive(a: seq<Entity>, b: seq<Entity>, c: seq<Entity>)
    requires SameShape(a, b) && SameShape(b, c)
    ensures SameShape(a, c)
  {
    forall i | 0 <= i < |a|
      ensures SameEntity(a[i], c[i])
    {
      assert SameEntity(a[i], b[i]) && SameEntity(b[i], c[i]);
      forall k | 0 <= k < |a[i].attributes|
        ensures SameColumn(a[i].attributes[k], c[i].attributes[k])
      {
        assert SameColumn(a[i].attributes[k], b[i].attributes[k]) && SameColumn(b[i].attributes[k], c[i].attributes[k]);
      }
    }
  }

  lemma FindTableSame(a: seq<Entity>, b: seq<Entity>, name: string)
    requires SameShape(a, b)
    ensures FindTable(a, name) == FindTable(b, name)
  {
    hide Same, SameTable, SameColumns;
    var same, tail := (e: Entity) => Same(e.name, name), (e: Entity) => SameTable(e.name, name);
    FirstSame(a, same, b, same);
    FirstSame(a, tail, b, tail);
  }

  lemma ColumnSame(x: Entity, y: Entity, name: string)
    requires SameEntity(x, y)
    ensures x.AttributeByName(name) == y.AttributeByName(name)
    ensures x.AttributeAt(name) == y.AttributeAt(name)
    ensures KeyTarget(x, None) == KeyTarget(y, None)
  {
    hide Same;
    assert forall k :: 0 <= k < |x.attributes| ==> SameColumn(x.attributes[k], y.attributes[k]);
    var named, at, key := (a: Attribute) => Same(a.name, name), (a: Attribute) => a.id == name, (a: Attribute) => a.primaryKey;
    FirstSame(x.attributes, named, y.attributes, named);
    FirstSame(x.attributes, at, y.attributes, at);
    FirstSame(x.attributes, key, y.attributes, key);
  }

  lemma LinkOfSame(a: seq<Entity>, b: seq<Entity>, holder: string, key: ParsedForeignKey)
    requires SameShape(a, b)
    ensures LinkOf(a, holder, key) == LinkOf(b, holder, key)
  {
    hide FindTable, Entity.AttributeByName, Entity.AttributeAt, SameEntity;
    FindTableSame(a, b, holder);
    FindTableSame(a, b, key.table);
    var h, t := FindTable(a, holder), FindTable(a, key.table);
    if h.Some? && t.Some? {
      ColumnSame(a[h.value], b[h.value], key.column);
      ColumnSame(a[t.value], b[t.value], if key.target.Some? then key.target.value else "");
    }
  }

  lemma ResolveSame(s: Schema, t: Schema, entityId: string, attributeId: string)
    requires SameShape(s.entities, t.entities)
    ensures s.Resolve(entityId, attributeId) == t.Resolve(entityId, attributeId)
  {
    hide SameColumns;
    var p := (e: Entity) => e.id == entityId;
    FirstSame(s.entities, p, t.entities, p);
    var e := s.EntityAt(entityId);
    assert e == First(s.entities, p) && t.EntityAt(entityId) == First(t.entities, p);
    if e.Some? {
      ColumnSame(s.entities[e.value], t.entities[e.value], attributeId);
    }
  }

  // ----- ids -----

  ghost predicate Injective(uuid: nat -> string) {
    forall i: nat, j: nat :: uuid(i) == uuid(j) ==> i == j
  }

  ghost predicate UniqueColumnIds(e: Entity) {
    forall i, j :: 0 <= i < j < |e.attributes| ==> e.attributes[i].id != e.attributes[j].id
  }

  ghost predicate UniqueIds(entities: seq<Entity>) {
    UniqueEntityIds(entities) && forall i :: 0 <= i < |entities| ==> UniqueColumnIds(entities[i])
  }

  lemma UniqueIdsSame(a: seq<Entity>, b: seq<Entity>)
    requires SameShape(a, b) && UniqueIds(a)
    ensures UniqueIds(b)
  {
    forall i | 0 <= i < |b|
      ensures UniqueColumnIds(b[i])
    {
      assert SameEntity(a[i], b[i]) && UniqueColumnIds(a[i]);
      assert forall k :: 0 <= k < |a[i].attributes| ==> SameColumn(a[i].attributes[k], b[i].attributes[k]);
    }
    assert forall i :: 0 <= i < |a| ==> SameEntity(a[i], b[i]);
  }

  lemma FindsEntity(s: Schema, i: nat)
    requires UniqueEntityIds(s.entities) && i < |s.entities|
    ensures s.EntityAt(s.entities[i].id) == Some(i)
  {
    FirstIs(s.entities, (e: Entity) => e.id == s.entities[i].id, i);
  }

  lemma FindsAttribute(e: Entity, k: nat)
    requires UniqueColumnIds(e) && k < |e.attributes|
    ensures e.AttributeAt(e.attributes[k].id) == Some(k)
  {
    FirstIs(e.attributes, (a: Attribute) => a.id == e.attributes[k].id, k);
  }

  /** With unique ids, a pair of ids resolves to where they stand. */
  lemma ResolvesThere(s: Schema, i: nat, k: nat)
    requires UniqueIds(s.entities) && i < |s.entities| && k < |s.entities[i].attributes|
    ensures s.Resolve(s.entities[i].id, s.entities[i].attributes[k].id) == Some((i, k))
  {
    hide UniqueColumnIds;
    FindsEntity(s, i);
    FindsAttribute(s.entities[i], k);
  }

  ghost predicate MintedId(id: string, uuid: nat -> string, minted: nat) {
    exists k: nat :: k < minted && IsId(id, uuid, k)
  }

  predicate IsId(id: string, uuid: nat -> string, k: nat) {
    id == "e" + uuid(k)
  }

  /** Every table's id was handed out among the first `minted`. */
  ghost predicate Minted(entities: seq<Entity>, uuid: nat -> string, minted: nat) {
    forall i :: 0 <= i < |entities| ==> MintedId(entities[i].id, uuid, minted)
  }

  // ----- the draft is sound -----

  predicate KeyResolves(s: Schema, a: Attribute) {
    a.foreignKey.Some? ==> s.Resolve(a.foreignKey.value.entityId, a.foreignKey.value.attributeId).Some?
  }

  predicate EndsResolve(s: Schema, r: Relationship) {
    && s.Resolve(r.fromEntityId, r.fromAttributeId).Some?
    && s.Resolve(r.toEntityId, r.toAttributeId).Some?
  }

  predicate KeysResolve(s: Schema) {
    forall i, k :: 0 <= i < |s.entities| && 0 <= k < |s.entities[i].attributes| ==>
      KeyResolves(s, s.entities[i].attributes[k])
  }

  predicate LinesResolve(s: Schema) {
    forall r :: 0 <= r < |s.relationships| ==> EndsResolve(s, s.relationships[r])
  }

  /** The line `r` runs from what the column references to the column. */
  predicate Draws(e: Entity, a: Attribute, r: Relationship) {
    && r.cardinality.OneToMany? && r.toEntityId == e.id && r.toAttributeId == a.id
    && a.foreignKey == Some(ForeignKeyRef(r.fromEntityId, r.fromAttributeId))
  }

  ghost predicate KeyDrawn(s: Schema, i: nat, k: nat)
    requires i < |s.entities| && k < |s.entities[i].attributes|
  {
    s.entities[i].attributes[k].foreignKey.Some? ==>
      exists r :: 0 <= r < |s.relationships| && Draws(s.entities[i], s.entities[i].attributes[k], s.relationships[r])
  }

  /** Every foreign key has its line. */
  ghost predicate KeysDrawn(s: Schema) {
    forall i: nat, k: nat :: i < |s.entities| && k < |s.entities[i].attributes| ==> KeyDrawn(s, i, k)
  }

  predicate KeysFlagged(entities: seq<Entity>) {
    forall i, k :: 0 <= i < |entities| && 0 <= k < |entities[i].attributes| ==>
      entities[i].attributes[k].primaryKey ==> entities[i].attributes[k].unique
  }

  ghost predicate Sound(s: Schema) {
    UniqueIds(s.entities) && KeysFlagged(s.entities) && KeysResolve(s) && LinesResolve(s) && KeysDrawn(s)
  }

  lemma KeysFlaggedSame(a: seq<Entity>, b: seq<Entity>)
    requires SameShape(a, b) && KeysFlagged(a)
    ensures KeysFlagged(b)
  {
    forall i, k | 0 <= i < |b| && 0 <= k < |b[i].attributes|
      ensures b[i].attributes[k].primaryKey ==> b[i].attributes[k].unique
    {
      assert SameEntity(a[i], b[i]);
      assert SameColumn(a[i].attributes[k], b[i].attributes[k]);
    }
  }

  predicate SameReferences(a: seq<Entity>, b: seq<Entity>) {
    SameShape(a, b) && forall i, k :: 0 <= i < |a| && 0 <= k < |a[i].attributes| && k < |b[i].attributes| ==>
      b[i].attributes[k].foreignKey == a[i].attributes[k].foreignKey
  }

  /** Describing and placing keep a draft sound. */
  lemma SoundKept(s: Schema, t: Schema)
    requires Sound(s) && SameReferences(s.entities, t.entities) && t.relationships == s.relationships
    ensures Sound(t)
  {
    hide Schema.Resolve, UniqueIds, KeysFlagged, SameColumns;
    UniqueIdsSame(s.entities, t.entities);
    KeysFlaggedSame(s.entities, t.entities);
    forall r | 0 <= r < |t.relationships|
      ensures EndsResolve(t, t.relationships[r])
    {
      assert EndsResolve(s, s.relationships[r]);
      ResolveSame(s, t, t.relationships[r].fromEntityId, t.relationships[r].fromAttributeId);
      ResolveSame(s, t, t.relationships[r].toEntityId, t.relationships[r].toAttributeId);
    }
    forall i: nat, k: nat | i < |t.entities| && k < |t.entities[i].attributes|
      ensures KeyResolves(t, t.entities[i].attributes[k]) && KeyDrawn(t, i, k)
    {
      SameAt(s.entities, t.entities, i, k);
      KeptAt(s, t, i, k);
    }
  }

  lemma SameAt(a: seq<Entity>, b: seq<Entity>, i: nat, k: nat)
    requires SameShape(a, b) && i < |b| && k < |b[i].attributes|
    ensures i < |a| && k < |a[i].attributes|
    ensures a[i].id == b[i].id && SameColumn(a[i].attributes[k], b[i].attributes[k])
  {
    assert SameEntity(a[i], b[i]);
  }

  lemma KeptAt(s: Schema, t: Schema, i: nat, k: nat)
    requires KeysResolve(s) && KeysDrawn(s) && SameReferences(s.entities, t.entities) && t.relationships == s.relationships
    requires i < |t.entities| && i < |s.entities| && k < |t.entities[i].attributes| && k < |s.entities[i].attributes|
    ensures KeyResolves(t, t.entities[i].attributes[k]) && KeyDrawn(t, i, k)
  {
    hide Schema.Resolve, SameColumns, SameShape;
    var a, b := s.entities[i].attributes[k], t.entities[i].attributes[k];
    SameAt(s.entities, t.entities, i, k);
    assert KeyResolves(s, a) && KeyDrawn(s, i, k);
    if b.foreignKey.Some? {
      ResolveSame(s, t, b.foreignKey.value.entityId, b.foreignKey.value.attributeId);
      var r :| 0 <= r < |s.relationships| && Draws(s.entities[i], a, s.relationships[r]);
      assert Draws(t.entities[i], b, t.relationships[r]);
    }
  }

  // ----- tables -----

  /** Before any link: nothing refers to anything. */
  ghost predicate Unlinked(i: Import) {
    && i.relationships == []
    && forall n, k :: 0 <= n < |i.entities| && 0 <= k < |i.entities[n].attributes| ==>
         i.entities[n].attributes[k].foreignKey.None?
  }

  lemma UnlinkedSound(i: Import)
    requires Unlinked(i) && UniqueIds(i.entities) && KeysFlagged(i.entities)
    ensures Sound(i.Draft())
  {
    hide UniqueIds, KeysFlagged;
  }

  lemma EntityFromUnique(parsed: ParsedTable, uuid: nat -> string, minted: nat)
    requires Injective(uuid)
    ensures UniqueColumnIds(EntityFrom(parsed, uuid, minted))
  {
    var attributes := EntityFrom(parsed, uuid, minted).attributes;
    forall i, j | 0 <= i < j < |attributes|
      ensures attributes[i].id != attributes[j].id
    {
      var a, b := uuid(minted + 1 + i), uuid(minted + 1 + j);
      if "a" + a == "a" + b {
        SamePrefix("a", a, b);
      }
    }
  }

  ghost predicate Fresh(i: Import, uuid: nat -> string) {
    Unlinked(i) && UniqueIds(i.entities) && KeysFlagged(i.entities) && Minted(i.entities, uuid, i.minted)
  }

  /** An id not yet handed out is not in use. */
  lemma NewId(id: string, uuid: nat -> string, minted: nat)
    requires Injective(uuid) && MintedId(id, uuid, minted)
    ensures id != "e" + uuid(minted)
    ensures forall more: nat :: minted <= more ==> MintedId(id, uuid, more)
  {
    var k: nat :| k < minted && IsId(id, uuid, k);
    if id == "e" + uuid(minted) {
      SamePrefix("e", uuid(k), uuid(minted));
    }
  }

  lemma AddedFresh(i: Import, parsed: ParsedTable, uuid: nat -> string)
    requires Injective(uuid) && Fresh(i, uuid)
    ensures Fresh(Added(i, parsed, uuid), uuid)
  {
    hide MintedId, UniqueColumnIds, Injective;
    var next, e := Added(i, parsed, uuid), EntityFrom(parsed, uuid, i.minted);
    EntityFromUnique(parsed, uuid, i.minted);
    forall n | 0 <= n < |i.entities|
      ensures i.entities[n].id != e.id && MintedId(i.entities[n].id, uuid, next.minted)
    {
      NewId(i.entities[n].id, uuid, i.minted);
    }
    assert MintedId(e.id, uuid, next.minted) by {
      NowMinted(uuid, i.minted, next.minted);
    }
  }

  lemma NowMinted(uuid: nat -> string, k: nat, minted: nat)
    requires k < minted
    ensures MintedId("e" + uuid(k), uuid, minted)
  {
    assert IsId("e" + uuid(k), uuid, k);
  }

  /** The parts of the first `n` tables that were left out. */
  function NotesOf(tables: seq<ParsedTable>, n: nat): nat
    requires n <= |tables|
  {
    if n == 0 then 0 else NotesOf(tables, n - 1) + |tables[n - 1].skipped|
  }

  /** The column read, whatever was later linked to or written about it. */
  predicate ColumnFrom(a: Attribute, c: ParsedColumn) {
    && a.name == c.name && a.dataType == c.dataType && a.nullable == c.nullable && a.primaryKey == c.primaryKey
    && a.unique == (c.unique || c.primaryKey) && a.defaultValue == c.defaultValue
  }

  predicate EntityOf(e: Entity, parsed: ParsedTable) {
    && e.name == parsed.name && |e.attributes| == |parsed.columns|
    && forall k :: 0 <= k < |e.attributes| ==> ColumnFrom(e.attributes[k], parsed.columns[k])
  }

  /** One entity for each table, in order. */
  predicate EntitiesOf(entities: seq<Entity>, tables: seq<ParsedTable>) {
    |entities| == |tables| && forall i :: 0 <= i < |entities| ==> EntityOf(entities[i], tables[i])
  }

  lemma EntitiesOfSame(a: seq<Entity>, b: seq<Entity>, tables: seq<ParsedTable>)
    requires EntitiesOf(a, tables) && SameShape(a, b)
    ensures EntitiesOf(b, tables)
  {
    forall i | 0 <= i < |b|
      ensures EntityOf(b[i], tables[i])
    {
      assert SameEntity(a[i], b[i]) && EntityOf(a[i], tables[i]);
      forall k | 0 <= k < |b[i].attributes|
        ensures ColumnFrom(b[i].attributes[k], tables[i].columns[k])
      {
        assert SameColumn(a[i].attributes[k], b[i].attributes[k]) && ColumnFrom(a[i].attributes[k], tables[i].columns[k]);
      }
    }
  }

  lemma {:induction false} AddedAll(i: Import, tables: seq<ParsedTable>, n: nat, uuid: nat -> string)
    requires Injective(uuid) && Fresh(i, uuid) && i.entities == [] && n <= |tables|
    ensures var added := AddedUpTo(i, tables, n, uuid);
            && Fresh(added, uuid)
            && EntitiesOf(added.entities, tables[..n])
            && |added.report| == |i.report| + NotesOf(tables, n)
  {
    hide Fresh, Injective, EntityOf;
    if n > 0 {
      AddedAll(i, tables, n - 1, uuid);
      var before := AddedUpTo(i, tables, n - 1, uuid);
      AddedFresh(before, tables[n - 1], uuid);
      assert tables[..n] == tables[..n - 1] + [tables[n - 1]];
      EntityFromIs(tables[n - 1], uuid, before.minted);
    }
  }

  lemma EntityFromIs(parsed: ParsedTable, uuid: nat -> string, minted: nat)
    ensures EntityOf(EntityFrom(parsed, uuid, minted), parsed)
  {
  }

  // ----- links -----

  /** What linking does, ids being unique: one attribute gains its key. */
  lemma JoinedIs(i: Import, link: Link, uuid: nat -> string)
    requires UniqueIds(i.entities)
    requires link.holder < |i.entities| && link.column < |i.entities[link.holder].attributes|
    requires link.target < |i.entities| && link.key < |i.entities[link.target].attributes|
    ensures var h, t := i.entities[link.holder], i.entities[link.target];
            var a := h.attributes[link.column].(foreignKey := Some(ForeignKeyRef(t.id, t.attributes[link.key].id)));
            Joined(i, link, uuid).entities == i.entities[link.holder := h.(attributes := h.attributes[link.column := a])]
  {
    FindsAttribute(i.entities[link.holder], link.column);
  }

  lemma JoinedShape(i: Import, link: Link, uuid: nat -> string)
    requires UniqueIds(i.entities)
    requires link.holder < |i.entities| && link.column < |i.entities[link.holder].attributes|
    requires link.target < |i.entities| && link.key < |i.entities[link.target].attributes|
    ensures SameShape(i.entities, Joined(i, link, uuid).entities)
  {
    hide Joined, UniqueIds;
    JoinedIs(i, link, uuid);
  }

  lemma JoinedSound(i: Import, link: Link, uuid: nat -> string)
    requires Sound(i.Draft())
    requires link.holder < |i.entities| && link.column < |i.entities[link.holder].attributes|
    requires link.target < |i.entities| && link.key < |i.entities[link.target].attributes|
    ensures Sound(Joined(i, link, uuid).Draft())
  {
    hide UniqueIds, KeysFlagged, KeysResolve, LinesResolve, KeysDrawn, SameShape;
    var s, t := i.Draft(), Joined(i, link, uuid).Draft();
    JoinedShape(i, link, uuid);
    UniqueIdsSame(s.entities, t.entities);
    KeysFlaggedSame(s.entities, t.entities);
    JoinedResolves(i, link, uuid);
    JoinedDrawn(i, link, uuid);
  }

  lemma JoinedResolves(i: Import, link: Link, uuid: nat -> string)
    requires UniqueIds(i.entities) && KeysResolve(i.Draft()) && LinesResolve(i.Draft())
    requires link.holder < |i.entities| && link.column < |i.entities[link.holder].attributes|
    requires link.target < |i.entities| && link.key < |i.entities[link.target].attributes|
    ensures KeysResolve(Joined(i, link, uuid).Draft()) && LinesResolve(Joined(i, link, uuid).Draft())
  {
    hide UniqueIds, SameShape, Schema.Resolve, WithKey;
    var s, t := i.Draft(), Joined(i, link, uuid).Draft();
    JoinedShape(i, link, uuid);
    JoinedIs(i, link, uuid);
    ResolvesThere(s, link.holder, link.column);
    ResolvesThere(s, link.target, link.key);
    forall r | 0 <= r < |t.relationships|
      ensures EndsResolve(t, t.relationships[r])
    {
      assert r < |s.relationships| ==> EndsResolve(s, s.relationships[r]);
      ResolveSame(s, t, t.relationships[r].fromEntityId, t.relationships[r].fromAttributeId);
      ResolveSame(s, t, t.relationships[r].toEntityId, t.relationships[r].toAttributeId);
    }
    forall n, k | 0 <= n < |t.entities| && 0 <= k < |t.entities[n].attributes|
      ensures KeyResolves(t, t.entities[n].attributes[k])
    {
      var a := t.entities[n].attributes[k];
      assert !(n == link.holder && k == link.column) ==> a == s.entities[n].attributes[k] && KeyResolves(s, a);
      if a.foreignKey.Some? {
        ResolveSame(s, t, a.foreignKey.value.entityId, a.foreignKey.value.attributeId);
      }
    }
  }

  lemma JoinedDrawn(i: Import, link: Link, uuid: nat -> string)
    requires UniqueIds(i.entities) && KeysDrawn(i.Draft())
    requires link.holder < |i.entities| && link.column < |i.entities[link.holder].attributes|
    requires link.target < |i.entities| && link.key < |i.entities[link.target].attributes|
    ensures KeysDrawn(Joined(i, link, uuid).Draft())
  {
    hide UniqueIds, WithKey;
    var s, t := i.Draft(), Joined(i, link, uuid).Draft();
    JoinedIs(i, link, uuid);
    forall n: nat, k: nat | n < |t.entities| && k < |t.entities[n].attributes|
      ensures KeyDrawn(t, n, k)
    {
      var a := t.entities[n].attributes[k];
      if n == link.holder && k == link.column {
        assert Draws(t.entities[n], a, t.relationships[|s.relationships|]);
      } else if a.foreignKey.Some? {
        assert KeyDrawn(s, n, k) && a == s.entities[n].attributes[k];
        var r :| 0 <= r < |s.relationships| && Draws(s.entities[n], a, s.relationships[r]);
        assert Draws(t.entities[n], a, t.relationships[r]);
      }
    }
  }

  /** How many of the first `n` keys name something that is not there. */
  function LostKeys(entities: seq<Entity>, keys: seq<(string, ParsedForeignKey)>, n: nat): (r: nat)
    requires n <= |keys|
    ensures r <= n
  {
    if n == 0 then 0
    else LostKeys(entities, keys, n - 1) + (if LinkOf(entities, keys[n - 1].0, keys[n - 1].1).None? then 1 else 0)
  }

  lemma {:induction false} LostKeysSame(a: seq<Entity>, b: seq<Entity>, keys: seq<(string, ParsedForeignKey)>, n: nat)
    requires SameShape(a, b) && n <= |keys|
    ensures LostKeys(a, keys, n) == LostKeys(b, keys, n)
  {
    hide LinkOf, SameShape;
    if n > 0 {
      LostKeysSame(a, b, keys, n - 1);
      LinkOfSame(a, b, keys[n - 1].0, keys[n - 1].1);
    }
  }

  lemma SameShapeSelf(a: seq<Entity>)
    ensures SameShape(a, a)
  {
  }

  /** Each foreign key becomes exactly one line or one warning. */
  lemma {:induction false} LinkedAll(i: Import, keys: seq<(string, ParsedForeignKey)>, n: nat, uuid: nat -> string)
    requires Sound(i.Draft()) && n <= |keys|
    ensures var linked := LinkedUpTo(i, keys, n, uuid);
            && Sound(linked.Draft()) && SameShape(i.entities, linked.entities)
            && |linked.relationships| == |i.relationships| + n - LostKeys(i.entities, keys, n)
            && |linked.report| == |i.report| + LostKeys(i.entities, keys, n)
  {
    hide Sound, SameShape, LinkOf;
    if n == 0 {
      SameShapeSelf(i.entities);
    } else {
      LinkedAll(i, keys, n - 1, uuid);
      var before := LinkedUpTo(i, keys, n - 1, uuid);
      var (holder, key) := keys[n - 1];
      LinkOfSame(i.entities, before.entities, holder, key);
      match LinkOf(before.entities, holder, key) {
        case None =>
          NotedSound(before);
        case Some(link) =>
          SoundIds(before.Draft());
          JoinedSound(before, link, uuid);
          JoinedShape(before, link, uuid);
          SameShapeTransitive(i.entities, before.entities, Joined(before, link, uuid).entities);
      }
    }
  }

  lemma SoundIds(s: Schema)
    requires Sound(s)
    ensures UniqueIds(s.entities)
  {
  }

  lemma NotedSound(i: Import)
    requires Sound(i.Draft())
    ensures Sound(i.Noted().Draft())
  {
  }

  // ----- comments and places -----

  /** How many of the first `n` comments name something that is not there. */
  function LostComments(entities: seq<Entity>, comments: seq<Comment>, n: nat): (r: nat)
    requires n <= |comments|
    ensures r <= n
  {
    if n == 0 then 0
    else LostComments(entities, comments, n - 1) + (if CommentLost(entities, comments[n - 1]) then 1 else 0)
  }

  predicate CommentLost(entities: seq<Entity>, comment: Comment) {
    match FindTable(entities, comment.table)
    case None => true
    case Some(at) => comment.column.Some? && entities[at].AttributeByName(comment.column.value).None?
  }

  lemma CommentLostSame(a: seq<Entity>, b: seq<Entity>, comment: Comment)
    requires SameShape(a, b)
    ensures CommentLost(a, comment) == CommentLost(b, comment)
  {
    hide FindTable, Entity.AttributeByName, SameEntity;
    FindTableSame(a, b, comment.table);
    var at := FindTable(a, comment.table);
    if at.Some? && comment.column.Some? {
      ColumnSame(a[at.value], b[at.value], comment.column.value);
    }
  }

  lemma {:induction false} LostCommentsSame(a: seq<Entity>, b: seq<Entity>, comments: seq<Comment>, n: nat)
    requires SameShape(a, b) && n <= |comments|
    ensures LostComments(a, comments, n) == LostComments(b, comments, n)
  {
    hide CommentLost, SameShape;
    if n > 0 {
      LostCommentsSame(a, b, comments, n - 1);
      CommentLostSame(a, b, comments[n - 1]);
    }
  }

  lemma DescribedIs(i: Import, comment: Comment)
    ensures var d := Described(i, comment);
            && SameReferences(i.entities, d.entities) && d.relationships == i.relationships
            && |d.report| == |i.report| + (if CommentLost(i.entities, comment) then 1 else 0)
  {
    hide FindTable, Entity.AttributeByName;
  }

  lemma SameReferencesSelf(a: seq<Entity>)
    ensures SameReferences(a, a)
  {
  }

  lemma ReferencesAreShape(a: seq<Entity>, b: seq<Entity>)
    requires SameReferences(a, b)
    ensures SameShape(a, b)
  {
  }

  lemma SameReferencesTransitive(a: seq<Entity>, b: seq<Entity>, c: seq<Entity>)
    requires SameReferences(a, b) && SameReferences(b, c)
    ensures SameReferences(a, c)
  {
    hide SameShape, SameColumn;
    SameShapeTransitive(a, b, c);
    forall i, k | 0 <= i < |a| && 0 <= k < |a[i].attributes| && k < |c[i].attributes|
      ensures c[i].attributes[k].foreignKey == a[i].attributes[k].foreignKey
    {
      SameCount(a, b, i);
    }
  }

  lemma SameCount(a: seq<Entity>, b: seq<Entity>, i: nat)
    requires SameShape(a, b) && i < |a|
    ensures |a| == |b| && |a[i].attributes| == |b[i].attributes|
  {
    assert SameEntity(a[i], b[i]);
  }

  /** Each comment is written down or becomes one warning. */
  lemma {:induction false} DescribedAll(i: Import, comments: seq<Comment>, n: nat)
    requires Sound(i.Draft()) && n <= |comments|
    ensures var d := DescribedUpTo(i, comments, n);
            && Sound(d.Draft()) && SameReferences(i.entities, d.entities) && d.relationships == i.relationships
            && |d.report| == |i.report| + LostComments(i.entities, comments, n)
  {
    hide Sound, SameShape, SameReferences, Described, CommentLost;
    if n == 0 {
      SameReferencesSelf(i.entities);
    } else {
      DescribedAll(i, comments, n - 1);
      var before := DescribedUpTo(i, comments, n - 1);
      ReferencesAreShape(i.entities, before.entities);
      CommentLostSame(i.entities, before.entities, comments[n - 1]);
      DescribedIs(before, comments[n - 1]);
      var after := Described(before, comments[n - 1]);
      SoundKept(before.Draft(), after.Draft());
      SameReferencesTransitive(i.entities, before.entities, after.entities);
    }
  }

  lemma PlacedKeys(entities: seq<Entity>, hints: seq<LayoutHint>, tableAt: seq<nat>, includePositions: bool)
    ensures SameReferences(entities, Placed(entities, hints, tableAt, includePositions))
  {
    hide PlaceOf;
  }

  // ----- the statements -----

  /** Every statement falls in exactly one of the four piles, and each table
      stands where its statement did. */
  lemma {:induction false} SortedAll(statements: seq<seq<Token>>, n: nat)
    requires n <= |statements|
    ensures var sorted := SortedUpTo(statements, n);
            && |sorted.tables| + |sorted.lateKeys| + |sorted.comments| + sorted.skipped == n
            && |sorted.tableAt| == |sorted.tables|
            && (forall i :: 0 <= i < |sorted.tables| ==>
                  sorted.tableAt[i] < n && Classified(statements[sorted.tableAt[i]]) == Table(sorted.tables[i]))
            && forall i, j :: 0 <= i < j < |sorted.tables| ==> sorted.tableAt[i] < sorted.tableAt[j]
  {
    hide Classified;
    if n > 0 {
      SortedAll(statements, n - 1);
    }
  }

  /** The report holds nothing but these warnings. */
  predicate OnlyNotes(report: seq<Diagnostic>) {
    forall i :: 0 <= i < |report| ==> report[i] == NOTE
  }

  lemma {:induction false} AddedNotes(i: Import, tables: seq<ParsedTable>, n: nat, uuid: nat -> string)
    requires OnlyNotes(i.report) && n <= |tables|
    ensures OnlyNotes(AddedUpTo(i, tables, n, uuid).report)
  {
    if n > 0 {
      AddedNotes(i, tables, n - 1, uuid);
    }
  }

  lemma {:induction false} LinkedNotes(i: Import, keys: seq<(string, ParsedForeignKey)>, n: nat, uuid: nat -> string)
    requires OnlyNotes(i.report) && n <= |keys|
    ensures OnlyNotes(LinkedUpTo(i, keys, n, uuid).report)
  {
    hide LinkOf;
    if n > 0 {
      LinkedNotes(i, keys, n - 1, uuid);
    }
  }

  lemma {:induction false} DescribedNotes(i: Import, comments: seq<Comment>, n: nat)
    requires OnlyNotes(i.report) && n <= |comments|
    ensures OnlyNotes(DescribedUpTo(i, comments, n).report)
  {
    hide FindTable, Entity.AttributeByName;
    if n > 0 {
      DescribedNotes(i, comments, n - 1);
    }
  }

  lemma AssembledIs(sorted: Sorted, uuid: nat -> string)
    requires Injective(uuid)
    ensures var built, keys := Assembled(sorted, uuid), AllKeys(sorted);
            var lost := LostKeys(built.entities, keys, |keys|);
            && Sound(built.Draft()) && EntitiesOf(built.entities, sorted.tables)
            && |built.relationships| == |keys| - lost
            && |built.report| == sorted.skipped + NotesOf(sorted.tables, |sorted.tables|) + lost
                                 + LostComments(built.entities, sorted.comments, |sorted.comments|)
            && OnlyNotes(built.report)
  {
    hide Sound, SameShape, SameReferences, EntitiesOf, AddedUpTo, LinkedUpTo, DescribedUpTo, LostKeys, LostComments, NotesOf, AllKeys;
    hide Fresh, Injective;
    var keys := AllKeys(sorted);
    var started := Import([], [], Notes(sorted.skipped), 0);
    StartedFresh(started, uuid);
    AddedAll(started, sorted.tables, |sorted.tables|, uuid);
    AddedNotes(started, sorted.tables, |sorted.tables|, uuid);
    assert sorted.tables[..|sorted.tables|] == sorted.tables;
    var added := AddedUpTo(started, sorted.tables, |sorted.tables|, uuid);
    FreshSound(added, uuid);
    LinkedAll(added, keys, |keys|, uuid);
    LinkedNotes(added, keys, |keys|, uuid);
    var linked := LinkedUpTo(added, keys, |keys|, uuid);
    DescribedAll(linked, sorted.comments, |sorted.comments|);
    DescribedNotes(linked, sorted.comments, |sorted.comments|);
    var built := DescribedUpTo(linked, sorted.comments, |sorted.comments|);
    ReferencesAreShape(linked.entities, built.entities);
    SameShapeTransitive(added.entities, linked.entities, built.entities);
    LostKeysSame(added.entities, built.entities, keys, |keys|);
    LostCommentsSame(linked.entities, built.entities, sorted.comments, |sorted.comments|);
    EntitiesOfSame(added.entities, built.entities, sorted.tables);
  }

  lemma StartedFresh(started: Import, uuid: nat -> string)
    requires started.entities == [] && started.relationships == []
    ensures Fresh(started, uuid)
  {
  }

  lemma FreshSound(i: Import, uuid: nat -> string)
    requires Fresh(i, uuid)
    ensures Sound(i.Draft()) && i.relationships == []
  {
    UnlinkedSound(i);
  }

  /** For every script that is accepted: each statement is a table, a late key,
      a comment or a warning; the draft holds one entity per table, as parsed;
      each foreign key the script wrote is one line or one warning; every key
      and line resolves, every key has its line, and every primary key column
      is flagged unique. */
  lemma EveryStatementIsAccountedFor(scan: Scan, includePositions: bool, uuid: nat -> string)
    requires Injective(uuid) && Imported(scan, includePositions, uuid).Some?
    ensures var i := Imported(scan, includePositions, uuid).value;
            var sorted := SortedUpTo(scan.statements, |scan.statements|);
            var keys := AllKeys(sorted);
            var lost := LostKeys(i.entities, keys, |keys|);
            && Sound(i.Draft())
            && |sorted.tables| + |sorted.lateKeys| + |sorted.comments| + sorted.skipped == |scan.statements|
            && EntitiesOf(i.entities, sorted.tables)
            && |i.relationships| == |keys| - lost
            && OnlyNotes(i.report)
            && |i.report| == sorted.skipped + NotesOf(sorted.tables, |sorted.tables|) + lost
                             + LostComments(i.entities, sorted.comments, |sorted.comments|)
  {
    hide Sound, EntitiesOf, LostKeys, LostComments, NotesOf, AllKeys, Injective, Assembled, SortedUpTo, SameShape, OnlyNotes;
    var sorted := SortedUpTo(scan.statements, |scan.statements|);
    SortedAll(scan.statements, |scan.statements|);
    AssembledIs(sorted, uuid);
    var built := Assembled(sorted, uuid);
    var placed := Placed(built.entities, scan.hints, sorted.tableAt, includePositions);
    PlacedKeys(built.entities, scan.hints, sorted.tableAt, includePositions);
    SoundKept(built.Draft(), built.(entities := placed).Draft());
    EntitiesOfSame(built.entities, placed, sorted.tables);
    LostKeysSame(built.entities, placed, AllKeys(sorted), |AllKeys(sorted)|);
    LostCommentsSame(built.entities, placed, sorted.comments, |sorted.comments|);
  }

  /** Where positions are not read, no two tables are put in one place. */
  lemma WithoutPositionsTablesAreApart(scan: Scan, uuid: nat -> string, i: nat, j: nat)
    requires Imported(scan, false, uuid).Some? && i < j < |Imported(scan, false, uuid).value.entities|
    ensures Imported(scan, false, uuid).value.entities[i].position != Imported(scan, false, uuid).value.entities[j].position
  {
    hide Assembled, SortedUpTo, GridSlot;
    if GridSlot(i) == GridSlot(j) {
      GridSlotsApart(i, j);
    }
  }
}
