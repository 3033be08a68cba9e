/** What a script's names, keys, comments and hints come to in the draft read
    from it. */
module ReaderMeaning {
  import opened Options
  import opened Strings
  import opened Domain
  import opened Scanning
  import opened TableParser
  import opened Statements
  import opened SqlReader
  import opened ReaderLaws

  // ----- what a name designates -----

  /** `part` is what stands behind the last dot of `name`, or all of it. */
  predicate IsLastPart(name: string, part: string) {
    && '.' !in part && |part| <= |name| && name[|name| - |part|..] == part
    && (|part| < |name| ==> name[|name| - |part| - 1] == '.')
  }

  lemma {:induction false} DotInside(name: string, part: string)
    requires |part| <= |name| && name[|name| - |part|..] == part && |part| > |Tail(name)|
    ensures '.' in part
  {
    match LastDot(name) {
      case None =>
      case Some(dot) => assert part[dot - (|name| - |part|)] == name[dot];
    }
  }

  lemma {:induction false} LastPartIs(name: string, part: string)
    ensures IsLastPart(name, part) <==> part == Tail(name)
  {
    var tail := Tail(name);
    match LastDot(name) {
      case None =>
        assert name[0..] == name;
      case Some(dot) =>
        assert |tail| == |name| - dot - 1;
        assert '.' !in tail;
    }
    if IsLastPart(name, part) && |part| > |tail| {
      DotInside(name, part);
    }
  }

  /** Table `i` is meant by `name`: it is the first of that name up to case, or,
      when there is none, the first with the same last part. */
  predicate Designates(entities: seq<Entity>, name: string, i: nat) {
    && i < |entities|
    && if exists j :: 0 <= j < |entities| && Same(entities[j].name, name)
       then Same(entities[i].name, name) && forall j :: 0 <= j < i ==> !Same(entities[j].name, name)
       else Same(Tail(entities[i].name), Tail(name)) && forall j :: 0 <= j < i ==> !Same(Tail(entities[j].name), Tail(name))
  }

  lemma {:induction false} DesignatedIs(entities: seq<Entity>, name: string, i: nat)
    ensures FindTable(entities, name) == Some(i) <==> Designates(entities, name, i)
  {
    hide Lower, Tail;
    var same, tail := (e: Entity) => Same(e.name, name), (e: Entity) => SameTable(e.name, name);
    assert FindTable(entities, name) == (match First(entities, same) case Some(k) => Some(k) case None => First(entities, tail));
    if Designates(entities, name, i) {
      if j :| 0 <= j < |entities| && Same(entities[j].name, name) {
        FirstIs(entities, same, i);
      } else {
        FirstIs(entities, tail, i);
      }
    }
  }

  predicate ColumnNamed(e: Entity, name: string, k: nat) {
    k < |e.attributes| && Same(e.attributes[k].name, name) && forall j :: 0 <= j < k ==> !Same(e.attributes[j].name, name)
  }

  predicate FirstOfKey(e: Entity, k: nat) {
    k < |e.attributes| && e.attributes[k].primaryKey && forall j :: 0 <= j < k ==> !e.attributes[j].primaryKey
  }

  lemma {:induction false} ColumnNamedIs(e: Entity, name: string, k: nat)
    ensures e.AttributeByName(name) == Some(k) <==> ColumnNamed(e, name, k)
  {
    hide Lower;
    var p := (a: Attribute) => Same(a.name, name);
    assert e.AttributeByName(name) == First(e.attributes, p);
    if ColumnNamed(e, name, k) {
      FirstIs(e.attributes, p, k);
    }
  }

  lemma {:induction false} TargetIs(e: Entity, target: Option<string>, k: nat)
    ensures KeyTarget(e, target) == Some(k) <==> if target.Some? then ColumnNamed(e, target.value, k) else FirstOfKey(e, k)
  {
    hide ColumnNamed, Entity.AttributeByName;
    match target {
      case Some(name) => ColumnNamedIs(e, name, k);
      case None =>
        var p := (a: Attribute) => a.primaryKey;
        if FirstOfKey(e, k) {
          FirstIs(e.attributes, p, k);
        }
    }
  }

  /** The key written for `holder` ties this column to that one. Without a target
      column, the first column of the other table's key is meant. */
  predicate Ties(entities: seq<Entity>, holder: string, key: ParsedForeignKey, link: Link) {
    && Designates(entities, holder, link.holder) && Designates(entities, key.table, link.target)
    && ColumnNamed(entities[link.holder], key.column, link.column)
    && if key.target.Some? then ColumnNamed(entities[link.target], key.target.value, link.key)
       else FirstOfKey(entities[link.target], link.key)
  }

  lemma {:induction false} DesignatedInRange(entities: seq<Entity>, name: string, i: nat)
    requires Designates(entities, name, i)
    ensures i < |entities|
  {
  }

  /** A key is linked exactly when its names tie two columns together. */
  lemma {:induction false} TiesIff(entities: seq<Entity>, holder: string, key: ParsedForeignKey, link: Link)
    ensures LinkOf(entities, holder, key) == Some(link) <==> Ties(entities, holder, key, link)
  {
    hide Designates, FindTable, ColumnNamed, FirstOfKey, KeyTarget, Entity.AttributeByName;
    DesignatedIs(entities, holder, link.holder);
    DesignatedIs(entities, key.table, link.target);
    if FindTable(entities, holder) == Some(link.holder) && FindTable(entities, key.table) == Some(link.target) {
      ColumnNamedIs(entities[link.holder], key.column, link.column);
      TargetIs(entities[link.target], key.target, link.key);
    }
  }

  // ----- the keys of the draft -----

  /** The last of the first `n` keys that ties this column. */
  function LastTie(entities: seq<Entity>, keys: seq<(string, ParsedForeignKey)>, n: nat, h: nat, c: nat): (r: Option<Link>)
    requires n <= |keys|
    ensures r.Some? ==> r.value.holder == h && r.value.column == c
    ensures r.Some? ==> r.value.target < |entities| && r.value.key < |entities[r.value.target].attributes|
  {
    if n == 0 then None
    else
      var link := LinkOf(entities, keys[n - 1].0, keys[n - 1].1);
      if link.Some? && link.value.holder == h && link.value.column == c then link
      else LastTie(entities, keys, n - 1, h, c)
  }

  function ReferenceTo(entities: seq<Entity>, link: Link): ForeignKeyRef
    requires link.target < |entities| && link.key < |entities[link.target].attributes|
  {
    ForeignKeyRef(entities[link.target].id, entities[link.target].attributes[link.key].id)
  }

  function KeyFrom(entities: seq<Entity>, keys: seq<(string, ParsedForeignKey)>, n: nat, h: nat, c: nat): Option<ForeignKeyRef>
    requires n <= |keys|
  {
    match LastTie(entities, keys, n, h, c)
    case None => None
    case Some(link) => Some(ReferenceTo(entities, link))
  }

  lemma {:induction false} ReferenceSame(a: seq<Entity>, b: seq<Entity>, link: Link)
    requires SameShape(a, b) && link.target < |a| && link.key < |a[link.target].attributes|
    ensures link.target < |b| && link.key < |b[link.target].attributes| && ReferenceTo(a, link) == ReferenceTo(b, link)
  {
    assert SameEntity(a[link.target], b[link.target]);
    assert SameColumn(a[link.target].attributes[link.key], b[link.target].attributes[link.key]);
  }

  lemma {:induction false} LastTieSame(a: seq<Entity>, b: seq<Entity>, keys: seq<(string, ParsedForeignKey)>, n: nat, h: nat, c: nat)
    requires SameShape(a, b) && n <= |keys|
    ensures KeyFrom(a, keys, n, h, c) == KeyFrom(b, keys, n, h, c) && LastTie(a, keys, n, h, c) == LastTie(b, keys, n, h, c)
  {
    hide LinkOf, SameShape, ReferenceTo;
    if n > 0 {
      LinkOfSame(a, b, keys[n - 1].0, keys[n - 1].1);
      LastTieSame(a, b, keys, n - 1, h, c);
    }
    var link := LastTie(a, keys, n, h, c);
    if link.Some? {
      ReferenceSame(a, b, link.value);
    }
  }

  predicate NoKeys(entities: seq<Entity>) {
    forall h, c :: 0 <= h < |entities| && 0 <= c < |entities[h].attributes| ==> entities[h].attributes[c].foreignKey.None?
  }

  /** Every column holds the key of the last tie. */
  predicate KeysFrom(entities: seq<Entity>, keys: seq<(string, ParsedForeignKey)>, n: nat)
    requires n <= |keys|
  {
    forall h: nat, c: nat :: h < |entities| && c < |entities[h].attributes| ==>
      entities[h].attributes[c].foreignKey == KeyFrom(entities, keys, n, h, c)
  }

  /** The line of the `m`-th key stands behind those of the keys before it that
      found their tables. */
  predicate LineOf(i: Import, lines: seq<Relationship>, link: Link, at: int)
    requires link.target < |i.entities| && link.key < |i.entities[link.target].attributes|
    requires link.holder < |i.entities| && link.column < |i.entities[link.holder].attributes|
  {
    var holder, target := i.entities[link.holder], i.entities[link.target];
    0 <= at < |lines| && lines[at] == Relationship(lines[at].id, "", "", target.id, target.attributes[link.key].id,
                                                   holder.id, holder.attributes[link.column].id, OneToMany)
  }

  predicate LinesFrom(i: Import, lines: seq<Relationship>, keys: seq<(string, ParsedForeignKey)>, n: nat)
    requires n <= |keys|
  {
    forall m: nat :: m < n && LinkOf(i.entities, keys[m].0, keys[m].1).Some? ==>
      LineOf(i, lines, LinkOf(i.entities, keys[m].0, keys[m].1).value, m - LostKeys(i.entities, keys, m))
  }

  lemma {:induction false} JoinedKeys(i: Import, keys: seq<(string, ParsedForeignKey)>, n: nat, link: Link, uuid: nat -> string)
    requires UniqueIds(i.entities) && n < |keys| && KeysFrom(i.entities, keys, n)
    requires LinkOf(i.entities, keys[n].0, keys[n].1) == Some(link)
    ensures KeysFrom(Joined(i, link, uuid).entities, keys, n + 1)
  {
    hide UniqueIds, LinkOf, SameShape, Joined, LastTie;
    var after := Joined(i, link, uuid).entities;
    JoinedIs(i, link, uuid);
    JoinedShape(i, link, uuid);
    forall h: nat, c: nat | h < |after| && c < |after[h].attributes|
      ensures after[h].attributes[c].foreignKey == KeyFrom(after, keys, n + 1, h, c)
    {
      LastTieSame(i.entities, after, keys, n + 1, h, c);
      TieStep(i.entities, keys, n, h, c);
      assert c < |i.entities[h].attributes|;
    }
  }

  lemma {:induction false} TieStep(entities: seq<Entity>, keys: seq<(string, ParsedForeignKey)>, n: nat, h: nat, c: nat)
    requires n < |keys|
    ensures var link := LinkOf(entities, keys[n].0, keys[n].1);
            LastTie(entities, keys, n + 1, h, c)
              == if link.Some? && link.value.holder == h && link.value.column == c then link else LastTie(entities, keys, n, h, c)
  {
  }

  lemma {:induction false} NotedKeys(entities: seq<Entity>, keys: seq<(string, ParsedForeignKey)>, n: nat)
    requires n < |keys| && KeysFrom(entities, keys, n) && LinkOf(entities, keys[n].0, keys[n].1).None?
    ensures KeysFrom(entities, keys, n + 1)
  {
    hide LinkOf, LastTie;
    forall h: nat, c: nat | h < |entities| && c < |entities[h].attributes|
      ensures entities[h].attributes[c].foreignKey == KeyFrom(entities, keys, n + 1, h, c)
    {
      TieStep(entities, keys, n, h, c);
    }
  }

  lemma {:induction false} NoKeysYet(entities: seq<Entity>, keys: seq<(string, ParsedForeignKey)>)
    requires NoKeys(entities)
    ensures KeysFrom(entities, keys, 0)
  {
  }

  lemma {:induction false} NoLinesYet(i: Import, keys: seq<(string, ParsedForeignKey)>)
    ensures LinesFrom(i, i.relationships, keys, 0)
  {
  }

  lemma {:induction false} NotedLines(i: Import, lines: seq<Relationship>, keys: seq<(string, ParsedForeignKey)>, n: nat)
    requires n < |keys| && LinesFrom(i, lines, keys, n) && LinkOf(i.entities, keys[n].0, keys[n].1).None?
    ensures LinesFrom(i, lines, keys, n + 1)
  {
    hide LinkOf, LineOf, LostKeys;
  }

  lemma {:induction false} LinkedKeys(i: Import, keys: seq<(string, ParsedForeignKey)>, n: nat, uuid: nat -> string)
    requires Sound(i.Draft()) && NoKeys(i.entities) && i.relationships == [] && n <= |keys|
    ensures var linked := LinkedUpTo(i, keys, n, uuid); KeysFrom(linked.entities, keys, n) && LinesFrom(i, linked.relationships, keys, n)
  {
    hide Sound, NoKeys, KeysFrom, LinesFrom, LinkOf, SameShape, LostKeys, Joined;
    if n == 0 {
      NoKeysYet(i.entities, keys);
      NoLinesYet(i, keys);
    } else {
      LinkedKeys(i, keys, n - 1, uuid);
      LinkedAll(i, keys, n - 1, uuid);
      var before := LinkedUpTo(i, keys, n - 1, uuid);
      var (holder, key) := keys[n - 1];
      LinkOfSame(i.entities, before.entities, holder, key);
      match LinkOf(before.entities, holder, key) {
        case None =>
          NotedKeys(before.entities, keys, n - 1);
          NotedLines(i, before.relationships, keys, n - 1);
        case Some(link) =>
          SoundIds(before.Draft());
          JoinedKeys(before, keys, n - 1, link, uuid);
          JoinedLines(i, before, keys, n - 1, link, uuid);
      }
    }
  }

  lemma {:induction false} JoinedLines(i: Import, before: Import, keys: seq<(string, ParsedForeignKey)>, n: nat, link: Link, uuid: nat -> string)
    requires n < |keys| && LinesFrom(i, before.relationships, keys, n) && SameShape(i.entities, before.entities)
    requires LinkOf(i.entities, keys[n].0, keys[n].1) == Some(link) && LinkOf(before.entities, keys[n].0, keys[n].1) == Some(link)
    requires |before.relationships| == n - LostKeys(i.entities, keys, n)
    ensures LinesFrom(i, Joined(before, link, uuid).relationships, keys, n + 1)
  {
    hide LinkOf, LostKeys, SameEntity, SameShape, WithKey;
    var lines := Joined(before, link, uuid).relationships;
    LineJoined(i, before, link, uuid);
    forall m: nat | m < n + 1 && LinkOf(i.entities, keys[m].0, keys[m].1).Some?
      ensures LineOf(i, lines, LinkOf(i.entities, keys[m].0, keys[m].1).value, m - LostKeys(i.entities, keys, m))
    {
      if m < n {
        assert LineOf(i, before.relationships, LinkOf(i.entities, keys[m].0, keys[m].1).value, m - LostKeys(i.entities, keys, m));
      }
    }
  }

  lemma {:induction false} LineJoined(i: Import, before: Import, link: Link, uuid: nat -> string)
    requires SameShape(i.entities, before.entities)
    requires link.target < |i.entities| && link.key < |i.entities[link.target].attributes|
    requires link.holder < |i.entities| && link.column < |i.entities[link.holder].attributes|
    requires link.target < |before.entities| && link.key < |before.entities[link.target].attributes|
    requires link.holder < |before.entities| && link.column < |before.entities[link.holder].attributes|
    ensures LineOf(i, Joined(before, link, uuid).relationships, link, |before.relationships|)
    ensures before.relationships <= Joined(before, link, uuid).relationships
  {
    hide WithKey;
    assert SameEntity(i.entities[link.target], before.entities[link.target]);
    assert SameEntity(i.entities[link.holder], before.entities[link.holder]);
    assert SameColumn(i.entities[link.target].attributes[link.key], before.entities[link.target].attributes[link.key]);
    assert SameColumn(i.entities[link.holder].attributes[link.column], before.entities[link.holder].attributes[link.column]);
  }

  // ----- the descriptions of the draft -----

  /** What a comment is about: a table, or one of its columns. */
  function HitOf(entities: seq<Entity>, comment: Comment): (r: Option<(nat, Option<nat>)>)
    ensures r.Some? ==> r.value.0 < |entities|
    ensures r.Some? && r.value.1.Some? ==> r.value.1.value < |entities[r.value.0].attributes|
  {
    match FindTable(entities, comment.table)
    case None => None
    case Some(h) =>
      match comment.column
      case None => Some((h, None))
      case Some(name) =>
        match entities[h].AttributeByName(name)
        case None => None
        case Some(c) => Some((h, Some(c)))
  }

  predicate Hits(entities: seq<Entity>, comment: Comment, h: nat, column: Option<nat>) {
    && Designates(entities, comment.table, h)
    && if column.None? then comment.column.None?
       else comment.column.Some? && ColumnNamed(entities[h], comment.column.value, column.value)
  }

  lemma {:induction false} HitsIff(entities: seq<Entity>, comment: Comment, h: nat, column: Option<nat>)
    ensures HitOf(entities, comment) == Some((h, column)) <==> Hits(entities, comment, h, column)
  {
    hide Designates, FindTable, ColumnNamed, Entity.AttributeByName;
    DesignatedIs(entities, comment.table, h);
    if FindTable(entities, comment.table) == Some(h) && column.Some? && comment.column.Some? {
      ColumnNamedIs(entities[h], comment.column.value, column.value);
    }
  }

  lemma {:induction false} HitOfSame(a: seq<Entity>, b: seq<Entity>, comment: Comment)
    requires SameShape(a, b)
    ensures HitOf(a, comment) == HitOf(b, comment)
  {
    hide FindTable, Entity.AttributeByName, SameEntity;
    FindTableSame(a, b, comment.table);
    var h := FindTable(a, comment.table);
    if h.Some? && comment.column.Some? {
      ColumnSame(a[h.value], b[h.value], comment.column.value);
    }
  }

  /** The text of the last of the first `n` comments about this. */
  function TextFor(entities: seq<Entity>, comments: seq<Comment>, n: nat, h: nat, column: Option<nat>): string
    requires n <= |comments|
  {
    if n == 0 then ""
    else if HitOf(entities, comments[n - 1]) == Some((h, column)) then comments[n - 1].text
    else TextFor(entities, comments, n - 1, h, column)
  }

  predicate ColumnTexts(entities: seq<Entity>, comments: seq<Comment>, n: nat)
    requires n <= |comments|
  {
    forall h: nat, c: nat :: h < |entities| && c < |entities[h].attributes| ==>
      entities[h].attributes[c].description == TextFor(entities, comments, n, h, Some(c))
  }

  predicate TableTexts(entities: seq<Entity>, comments: seq<Comment>, n: nat)
    requires n <= |comments|
  {
    forall h: nat :: h < |entities| ==> entities[h].description == TextFor(entities, comments, n, h, None)
  }

  predicate Silent(entities: seq<Entity>) {
    forall h :: 0 <= h < |entities| ==>
      entities[h].description == "" && forall c :: 0 <= c < |entities[h].attributes| ==> entities[h].attributes[c].description == ""
  }

  lemma {:induction false} TextForSame(a: seq<Entity>, b: seq<Entity>, comments: seq<Comment>, n: nat, h: nat, column: Option<nat>)
    requires SameShape(a, b) && n <= |comments|
    ensures TextFor(a, comments, n, h, column) == TextFor(b, comments, n, h, column)
  {
    hide HitOf, SameShape;
    if n > 0 {
      HitOfSame(a, b, comments[n - 1]);
      TextForSame(a, b, comments, n - 1, h, column);
    }
  }

  /** What one comment changes. */
  lemma {:induction false} DescribedHit(i: Import, comment: Comment)
    ensures var after, hit := Described(i, comment).entities, HitOf(i.entities, comment);
            && SameShape(i.entities, after) && |after| == |i.entities|
            && (forall h: nat :: h < |after| ==> after[h].description == if hit == Some((h, None)) then comment.text else i.entities[h].description)
            && (forall h: nat, c: nat :: h < |after| && c < |after[h].attributes| && c < |i.entities[h].attributes| ==>
                  after[h].attributes[c].description == if hit == Some((h, Some(c))) then comment.text else i.entities[h].attributes[c].description)
  {
    hide FindTable, Entity.AttributeByName;
  }

  lemma {:induction false} DescribedStep(i: Import, comments: seq<Comment>, n: nat)
    requires n < |comments| && ColumnTexts(i.entities, comments, n) && TableTexts(i.entities, comments, n)
    ensures var after := Described(i, comments[n]).entities; ColumnTexts(after, comments, n + 1) && TableTexts(after, comments, n + 1)
  {
    hide HitOf, Described, SameShape;
    var after := Described(i, comments[n]).entities;
    DescribedHit(i, comments[n]);
    forall h: nat | h < |after|
      ensures after[h].description == TextFor(after, comments, n + 1, h, None)
    {
      SameCount(i.entities, after, h);
      TextForSame(i.entities, after, comments, n + 1, h, None);
    }
    forall h: nat, c: nat | h < |after| && c < |after[h].attributes|
      ensures after[h].attributes[c].description == TextFor(after, comments, n + 1, h, Some(c))
    {
      SameCount(i.entities, after, h);
      TextForSame(i.entities, after, comments, n + 1, h, Some(c));
    }
  }

  lemma {:induction false} SilentYet(entities: seq<Entity>, comments: seq<Comment>)
    requires Silent(entities)
    ensures ColumnTexts(entities, comments, 0) && TableTexts(entities, comments, 0)
  {
  }

  lemma {:induction false} DescribedTexts(i: Import, comments: seq<Comment>, n: nat)
    requires Silent(i.entities) && n <= |comments|
    ensures var after := DescribedUpTo(i, comments, n).entities; ColumnTexts(after, comments, n) && TableTexts(after, comments, n)
  {
    hide Described, ColumnTexts, TableTexts, Silent;
    if n == 0 {
      SilentYet(i.entities, comments);
    } else {
      DescribedTexts(i, comments, n - 1);
      DescribedStep(DescribedUpTo(i, comments, n - 1), comments, n - 1);
    }
  }

  // ----- from the tables on -----

  lemma {:induction false} AddedSilent(i: Import, tables: seq<ParsedTable>, n: nat, uuid: nat -> string)
    requires n <= |tables| && Silent(i.entities) && NoKeys(i.entities) && i.relationships == []
    ensures var added := AddedUpTo(i, tables, n, uuid); Silent(added.entities) && NoKeys(added.entities) && added.relationships == []
  {
    if n > 0 {
      AddedSilent(i, tables, n - 1, uuid);
    }
  }

  lemma {:induction false} JoinedSilent(i: Import, link: Link, uuid: nat -> string)
    requires UniqueIds(i.entities) && Silent(i.entities)
    requires link.holder < |i.entities| && link.column < |i.entities[link.holder].attributes|
    requires link.target < |i.entities| && link.key < |i.entities[link.target].attributes|
    ensures Silent(Joined(i, link, uuid).entities)
  {
    hide UniqueIds, Joined;
    JoinedIs(i, link, uuid);
  }

  lemma {:induction false} LinkedSilent(i: Import, keys: seq<(string, ParsedForeignKey)>, n: nat, uuid: nat -> string)
    requires Sound(i.Draft()) && Silent(i.entities) && n <= |keys|
    ensures Silent(LinkedUpTo(i, keys, n, uuid).entities)
  {
    hide Sound, Silent, LinkOf, SameShape;
    if n > 0 {
      LinkedSilent(i, keys, n - 1, uuid);
      LinkedAll(i, keys, n - 1, uuid);
      var before := LinkedUpTo(i, keys, n - 1, uuid);
      SoundIds(before.Draft());
      match LinkOf(before.entities, keys[n - 1].0, keys[n - 1].1) {
        case None =>
        case Some(link) => JoinedSilent(before, link, uuid);
      }
    }
  }

  lemma {:induction false} KeysFromSame(a: seq<Entity>, b: seq<Entity>, keys: seq<(string, ParsedForeignKey)>, n: nat)
    requires SameReferences(a, b) && n <= |keys| && KeysFrom(a, keys, n)
    ensures KeysFrom(b, keys, n)
  {
    hide KeyFrom, SameShape;
    ReferencesAreShape(a, b);
    forall h: nat, c: nat | h < |b| && c < |b[h].attributes|
      ensures b[h].attributes[c].foreignKey == KeyFrom(b, keys, n, h, c)
    {
      SameCount(a, b, h);
      LastTieSame(a, b, keys, n, h, c);
    }
  }

  lemma {:induction false} LinesFromSame(a: Import, b: Import, keys: seq<(string, ParsedForeignKey)>, n: nat, lines: seq<Relationship>)
    requires SameShape(a.entities, b.entities) && n <= |keys| && LinesFrom(a, lines, keys, n)
    ensures LinesFrom(b, lines, keys, n)
  {
    hide LinkOf, LineOf, SameShape, LostKeys;
    forall m: nat | m < n && LinkOf(b.entities, keys[m].0, keys[m].1).Some?
      ensures LineOf(b, lines, LinkOf(b.entities, keys[m].0, keys[m].1).value, m - LostKeys(b.entities, keys, m))
    {
      LinkOfSame(a.entities, b.entities, keys[m].0, keys[m].1);
      LostKeysSame(a.entities, b.entities, keys, m);
      LineSame(a, b, lines, LinkOf(b.entities, keys[m].0, keys[m].1).value, m - LostKeys(b.entities, keys, m));
    }
  }

  lemma {:induction false} LineSame(a: Import, b: Import, lines: seq<Relationship>, link: Link, at: int)
    requires SameShape(a.entities, b.entities)
    requires link.target < |a.entities| && link.key < |a.entities[link.target].attributes|
    requires link.holder < |a.entities| && link.column < |a.entities[link.holder].attributes|
    requires link.target < |b.entities| && link.key < |b.entities[link.target].attributes|
    requires link.holder < |b.entities| && link.column < |b.entities[link.holder].attributes|
    ensures LineOf(a, lines, link, at) == LineOf(b, lines, link, at)
  {
    assert SameEntity(a.entities[link.target], b.entities[link.target]);
    assert SameEntity(a.entities[link.holder], b.entities[link.holder]);
    assert SameColumn(a.entities[link.target].attributes[link.key], b.entities[link.target].attributes[link.key]);
    assert SameColumn(a.entities[link.holder].attributes[link.column], b.entities[link.holder].attributes[link.column]);
  }

  lemma {:induction false} PlacedSame(i: Import, hints: seq<LayoutHint>, tableAt: seq<nat>, includePositions: bool, keys: seq<(string, ParsedForeignKey)>, comments: seq<Comment>)
    requires KeysFrom(i.entities, keys, |keys|) && LinesFrom(i, i.relationships, keys, |keys|)
    requires ColumnTexts(i.entities, comments, |comments|) && TableTexts(i.entities, comments, |comments|)
    ensures var placed := i.(entities := Placed(i.entities, hints, tableAt, includePositions));
            && KeysFrom(placed.entities, keys, |keys|) && LinesFrom(placed, placed.relationships, keys, |keys|)
            && ColumnTexts(placed.entities, comments, |comments|) && TableTexts(placed.entities, comments, |comments|)
  {
    hide PlaceOf, KeysFrom, LinesFrom, TextFor, SameShape, SameReferences;
    var placed := Placed(i.entities, hints, tableAt, includePositions);
    PlacedKeys(i.entities, hints, tableAt, includePositions);
    ReferencesAreShape(i.entities, placed);
    KeysFromSame(i.entities, placed, keys, |keys|);
    LinesFromSame(i, i.(entities := placed), keys, |keys|, i.relationships);
    forall h: nat | h < |placed|
      ensures placed[h].description == TextFor(placed, comments, |comments|, h, None)
    {
      TextForSame(i.entities, placed, comments, |comments|, h, None);
    }
    forall h: nat, c: nat | h < |placed| && c < |placed[h].attributes|
      ensures placed[h].attributes[c].description == TextFor(placed, comments, |comments|, h, Some(c))
    {
      TextForSame(i.entities, placed, comments, |comments|, h, Some(c));
    }
  }

  lemma {:induction false} AssembledMeans(sorted: Sorted, uuid: nat -> string)
    requires Injective(uuid)
    ensures var built, keys := Assembled(sorted, uuid), AllKeys(sorted);
            && KeysFrom(built.entities, keys, |keys|) && LinesFrom(built, built.relationships, keys, |keys|)
            && ColumnTexts(built.entities, sorted.comments, |sorted.comments|)
            && TableTexts(built.entities, sorted.comments, |sorted.comments|)
  {
    hide Sound, Fresh, Injective, AddedUpTo, LinkedUpTo, DescribedUpTo, AllKeys, Silent, NoKeys;
    hide KeysFrom, LinesFrom, ColumnTexts, TableTexts, SameShape, SameReferences, LostKeys, LostComments, EntitiesOf;
    var keys := AllKeys(sorted);
    var started := Import([], [], Notes(sorted.skipped), 0);
    StartedFresh(started, uuid);
    StartedSilent(started);
    AddedAll(started, sorted.tables, |sorted.tables|, uuid);
    AddedSilent(started, sorted.tables, |sorted.tables|, uuid);
    var added := AddedUpTo(started, sorted.tables, |sorted.tables|, uuid);
    FreshSound(added, uuid);
    LinkedAll(added, keys, |keys|, uuid);
    LinkedKeys(added, keys, |keys|, uuid);
    LinkedSilent(added, keys, |keys|, uuid);
    var linked := LinkedUpTo(added, keys, |keys|, uuid);
    DescribedAll(linked, sorted.comments, |sorted.comments|);
    DescribedTexts(linked, sorted.comments, |sorted.comments|);
    var built := DescribedUpTo(linked, sorted.comments, |sorted.comments|);
    KeysFromSame(linked.entities, built.entities, keys, |keys|);
    ReferencesAreShape(linked.entities, built.entities);
    SameShapeTransitive(added.entities, linked.entities, built.entities);
    LinesFromSame(added, built, keys, |keys|, built.relationships);
  }

  lemma {:induction false} StartedSilent(started: Import)
    requires started.entities == []
    ensures Silent(started.entities) && NoKeys(started.entities)
  {
  }

  // ----- told from the script -----

  /** The last key that ties this column. */
  ghost predicate TiedLast(entities: seq<Entity>, keys: seq<(string, ParsedForeignKey)>, m: nat, link: Link) {
    && m < |keys| && Ties(entities, keys[m].0, keys[m].1, link)
    && forall k: nat, other: Link :: m < k < |keys| && Ties(entities, keys[k].0, keys[k].1, other) ==>
         !(other.holder == link.holder && other.column == link.column)
  }

  ghost predicate TiedAt(entities: seq<Entity>, keys: seq<(string, ParsedForeignKey)>, m: nat, link: Link, h: nat, c: nat) {
    m < |keys| && Ties(entities, keys[m].0, keys[m].1, link) && link.holder == h && link.column == c
  }

  /** The last comment about this table or column. */
  ghost predicate HitLast(entities: seq<Entity>, comments: seq<Comment>, m: nat, h: nat, column: Option<nat>) {
    && m < |comments| && Hits(entities, comments[m], h, column)
    && forall k: nat :: m < k < |comments| ==> !Hits(entities, comments[k], h, column)
  }

  lemma {:induction false} LastTieIs(entities: seq<Entity>, keys: seq<(string, ParsedForeignKey)>, n: nat, m: nat, link: Link)
    requires m < n <= |keys| && TiedLast(entities, keys, m, link)
    ensures LastTie(entities, keys, n, link.holder, link.column) == Some(link)
  {
    hide Ties, LinkOf;
    if n - 1 == m {
      TiesIff(entities, keys[m].0, keys[m].1, link);
    } else {
      LastTieIs(entities, keys, n - 1, m, link);
      var other := LinkOf(entities, keys[n - 1].0, keys[n - 1].1);
      if other.Some? {
        TiesIff(entities, keys[n - 1].0, keys[n - 1].1, other.value);
      }
    }
  }

  lemma {:induction false} LastTieTies(entities: seq<Entity>, keys: seq<(string, ParsedForeignKey)>, n: nat, h: nat, c: nat) returns (m: nat)
    requires n <= |keys| && LastTie(entities, keys, n, h, c).Some?
    ensures TiedAt(entities, keys, m, LastTie(entities, keys, n, h, c).value, h, c)
  {
    hide Ties, LinkOf;
    var link := LinkOf(entities, keys[n - 1].0, keys[n - 1].1);
    if link.Some? && link.value.holder == h && link.value.column == c {
      m := n - 1;
      TiesIff(entities, keys[m].0, keys[m].1, link.value);
    } else {
      m := LastTieTies(entities, keys, n - 1, h, c);
    }
  }

  lemma {:induction false} TextIs(entities: seq<Entity>, comments: seq<Comment>, n: nat, m: nat, h: nat, column: Option<nat>)
    requires m < n <= |comments| && HitLast(entities, comments, m, h, column)
    ensures TextFor(entities, comments, n, h, column) == comments[m].text
  {
    hide Hits, HitOf;
    HitsIff(entities, comments[n - 1], h, column);
    if n - 1 > m {
      TextIs(entities, comments, n - 1, m, h, column);
    }
  }

  lemma {:induction false} NoText(entities: seq<Entity>, comments: seq<Comment>, n: nat, h: nat, column: Option<nat>)
    requires n <= |comments| && Unsaid(entities, comments, h, column)
    ensures TextFor(entities, comments, n, h, column) == ""
  {
    hide Hits, HitOf;
    if n > 0 {
      HitsIff(entities, comments[n - 1], h, column);
      NoText(entities, comments, n - 1, h, column);
    }
  }

  /** A column's foreign key is the one the last key tying it wrote. */
  ghost predicate KeysAsWritten(entities: seq<Entity>, keys: seq<(string, ParsedForeignKey)>) {
    && (forall m: nat, link: Link :: TiedLast(entities, keys, m, link) ==>
          && InRange(entities, link)
          && entities[link.holder].attributes[link.column].foreignKey
               == Some(ForeignKeyRef(entities[link.target].id, entities[link.target].attributes[link.key].id)))
    && (forall h: nat, c: nat :: h < |entities| && c < |entities[h].attributes| && entities[h].attributes[c].foreignKey.Some? ==>
          exists m: nat, link: Link :: TiedAt(entities, keys, m, link, h, c))
  }

  predicate InRange(entities: seq<Entity>, link: Link) {
    && link.holder < |entities| && link.column < |entities[link.holder].attributes|
    && link.target < |entities| && link.key < |entities[link.target].attributes|
  }

  lemma {:induction false} TiesInRange(entities: seq<Entity>, holder: string, key: ParsedForeignKey, link: Link)
    requires Ties(entities, holder, key, link)
    ensures InRange(entities, link)
  {
    hide Same, Tail;
  }

  lemma {:induction false} KeysWritten(entities: seq<Entity>, keys: seq<(string, ParsedForeignKey)>)
    requires KeysFrom(entities, keys, |keys|)
    ensures KeysAsWritten(entities, keys)
  {
    hide Ties, LastTie;
    forall m: nat, link: Link | TiedLast(entities, keys, m, link)
      ensures InRange(entities, link)
      ensures entities[link.holder].attributes[link.column].foreignKey
                == Some(ForeignKeyRef(entities[link.target].id, entities[link.target].attributes[link.key].id))
    {
      TiesInRange(entities, keys[m].0, keys[m].1, link);
      LastTieIs(entities, keys, |keys|, m, link);
    }
    forall h: nat, c: nat | h < |entities| && c < |entities[h].attributes| && entities[h].attributes[c].foreignKey.Some?
      ensures exists m: nat, link: Link :: TiedAt(entities, keys, m, link, h, c)
    {
      var m := LastTieTies(entities, keys, |keys|, h, c);
    }
  }

  predicate Unsaid(entities: seq<Entity>, comments: seq<Comment>, h: nat, column: Option<nat>) {
    forall m :: 0 <= m < |comments| ==> !Hits(entities, comments[m], h, column)
  }

  /** `text` is the last comment about this, or nothing. */
  ghost predicate IsSaid(entities: seq<Entity>, comments: seq<Comment>, h: nat, column: Option<nat>, text: string) {
    && (forall m: nat :: HitLast(entities, comments, m, h, column) ==> text == comments[m].text)
    && (Unsaid(entities, comments, h, column) ==> text == "")
  }

  lemma {:induction false} SaidIs(entities: seq<Entity>, comments: seq<Comment>, h: nat, column: Option<nat>)
    ensures IsSaid(entities, comments, h, column, TextFor(entities, comments, |comments|, h, column))
  {
    hide Hits, TextFor, Unsaid;
    forall m: nat | HitLast(entities, comments, m, h, column)
      ensures TextFor(entities, comments, |comments|, h, column) == comments[m].text
    {
      TextIs(entities, comments, |comments|, m, h, column);
    }
    if Unsaid(entities, comments, h, column) {
      NoText(entities, comments, |comments|, h, column);
    }
  }

  /** A table or column is described by the last comment about it. */
  ghost predicate TextsAsWritten(entities: seq<Entity>, comments: seq<Comment>) {
    && (forall h: nat :: h < |entities| ==> IsSaid(entities, comments, h, None, entities[h].description))
    && (forall h: nat, c: nat :: h < |entities| && c < |entities[h].attributes| ==>
          IsSaid(entities, comments, h, Some(c), entities[h].attributes[c].description))
  }

  lemma {:induction false} TextsWritten(entities: seq<Entity>, comments: seq<Comment>)
    requires ColumnTexts(entities, comments, |comments|) && TableTexts(entities, comments, |comments|)
    ensures TextsAsWritten(entities, comments)
  {
    hide TextFor, IsSaid;
    forall h: nat | h < |entities|
      ensures IsSaid(entities, comments, h, None, entities[h].description)
    {
      SaidIs(entities, comments, h, None);
    }
    forall h: nat, c: nat | h < |entities| && c < |entities[h].attributes|
      ensures IsSaid(entities, comments, h, Some(c), entities[h].attributes[c].description)
    {
      SaidIs(entities, comments, h, Some(c));
    }
  }

  // ----- places -----

  /** The hint that places a table: the first of its name directly above its
      statement, or else the first of its name anywhere. */
  predicate Places(hints: seq<LayoutHint>, above: Option<nat>, name: string, k: nat) {
    && k < |hints| && SameTable(hints[k].table, name)
    && if exists j :: 0 <= j < |hints| && hints[j].above == above && SameTable(hints[j].table, name)
       then hints[k].above == above && forall j :: 0 <= j < k ==> !(hints[j].above == above && SameTable(hints[j].table, name))
       else forall j :: 0 <= j < k ==> !SameTable(hints[j].table, name)
  }

  lemma {:induction false} PlacesIff(hints: seq<LayoutHint>, above: Option<nat>, name: string, k: nat)
    ensures HintFor(hints, above, name) == Some(k) <==> Places(hints, above, name, k)
  {
    hide SameTable;
    var own, any := (h: LayoutHint) => h.above == above && SameTable(h.table, name), (h: LayoutHint) => SameTable(h.table, name);
    assert HintFor(hints, above, name) == (match First(hints, own) case Some(i) => Some(i) case None => First(hints, any));
    if Places(hints, above, name, k) {
      if j :| 0 <= j < |hints| && hints[j].above == above && SameTable(hints[j].table, name) {
        FirstIs(hints, own, k);
      } else {
        FirstIs(hints, any, k);
      }
    }
  }

  /** A table stands where its hint says, or in its slot of the grid: four to a
      row, in the order of the file. */
  ghost predicate PlacedAsWritten(e: Entity, hints: seq<LayoutHint>, above: nat, includePositions: bool, i: nat) {
    && (forall k: nat :: includePositions && Places(hints, Some(above), e.name, k) && k < |hints| ==>
          e.position == Position(hints[k].x, hints[k].y))
    && ((forall k: nat :: !(includePositions && Places(hints, Some(above), e.name, k))) ==>
          e.position == Position((i % 4) * 320, (i / 4) * 260))
  }

  lemma {:induction false} PlaceIs(e: Entity, hints: seq<LayoutHint>, tableAt: seq<nat>, includePositions: bool, i: nat)
    requires i < |tableAt| && e.position == PlaceOf(hints, tableAt, includePositions, i, e.name)
    ensures PlacedAsWritten(e, hints, tableAt[i], includePositions, i)
  {
    hide HintFor, Places;
    forall k: nat
      ensures HintFor(hints, Some(tableAt[i]), e.name) == Some(k) <==> Places(hints, Some(tableAt[i]), e.name, k)
    {
      PlacesIff(hints, Some(tableAt[i]), e.name, k);
    }
  }

  /** The draft says what the script says: every column's key is the last one
      written for it, every key that finds its tables is one line in its place
      in the list, every description is the last comment about the thing, and
      every table stands where its hint or the grid puts it. */
  lemma {:induction false} DraftMeans(scan: Scan, includePositions: bool, uuid: nat -> string)
    requires Injective(uuid) && Imported(scan, includePositions, uuid).Some?
    ensures var i := Imported(scan, includePositions, uuid).value;
            var sorted := SortedUpTo(scan.statements, |scan.statements|);
            && KeysAsWritten(i.entities, AllKeys(sorted))
            && LinesFrom(i, i.relationships, AllKeys(sorted), |AllKeys(sorted)|)
            && TextsAsWritten(i.entities, sorted.comments)
            && |i.entities| == |sorted.tableAt|
            && forall k :: 0 <= k < |i.entities| ==> PlacedAsWritten(i.entities[k], scan.hints, sorted.tableAt[k], includePositions, k)
  {
    hide Sound, EntitiesOf, LostKeys, LostComments, AllKeys, Injective, Assembled, SortedUpTo, PlaceOf, OnlyNotes, NotesOf;
    hide KeysFrom, LinesFrom, ColumnTexts, TableTexts, KeysAsWritten, TextsAsWritten, PlacedAsWritten;
    var sorted := SortedUpTo(scan.statements, |scan.statements|);
    var i := Imported(scan, includePositions, uuid).value;
    SortedAll(scan.statements, |scan.statements|);
    AssembledMeans(sorted, uuid);
    AssembledCount(sorted, uuid);
    PlacedSame(Assembled(sorted, uuid), scan.hints, sorted.tableAt, includePositions, AllKeys(sorted), sorted.comments);
    KeysWritten(i.entities, AllKeys(sorted));
    TextsWritten(i.entities, sorted.comments);
    forall k | 0 <= k < |i.entities|
      ensures PlacedAsWritten(i.entities[k], scan.hints, sorted.tableAt[k], includePositions, k)
    {
      PlaceIs(i.entities[k], scan.hints, sorted.tableAt, includePositions, k);
    }
  }

  lemma {:induction false} AssembledCount(sorted: Sorted, uuid: nat -> string)
    requires Injective(uuid)
    ensures |Assembled(sorted, uuid).entities| == |sorted.tables|
  {
    hide Injective, Assembled, EntityOf, Sound, LostKeys, LostComments, AllKeys, NotesOf, OnlyNotes;
    AssembledIs(sorted, uuid);
  }

  // ----- the piles in order -----

  /** How many of the first `n` statements are late keys, and how many comments. */
  function LateBefore(statements: seq<seq<Token>>, n: nat): nat
    requires n <= |statements|
  {
    if n == 0 then 0 else LateBefore(statements, n - 1) + (if Classified(statements[n - 1]).ForeignKey? then 1 else 0)
  }

  function RemarksBefore(statements: seq<seq<Token>>, n: nat): nat
    requires n <= |statements|
  {
    if n == 0 then 0 else RemarksBefore(statements, n - 1) + (if Classified(statements[n - 1]).Remark? then 1 else 0)
  }

  /** Late keys and comments are taken in the order the script has them. */
  lemma {:induction false} PilesInOrder(statements: seq<seq<Token>>, n: nat, m: nat)
    requires m < n <= |statements|
    ensures var sorted := SortedUpTo(statements, n);
            && |sorted.lateKeys| == LateBefore(statements, n) && |sorted.comments| == RemarksBefore(statements, n)
            && (Classified(statements[m]).ForeignKey? ==>
                  LateBefore(statements, m) < |sorted.lateKeys|
                  && sorted.lateKeys[LateBefore(statements, m)] == (Classified(statements[m]).holder, Classified(statements[m]).key))
            && (Classified(statements[m]).Remark? ==>
                  RemarksBefore(statements, m) < |sorted.comments|
                  && sorted.comments[RemarksBefore(statements, m)] == Classified(statements[m]).comment)
  {
    hide Classified;
    if n == 1 {
      assert SortedUpTo(statements, 0) == UNSORTED;
    } else if m < n - 1 {
      PilesInOrder(statements, n - 1, m);
    } else {
      PilesInOrder(statements, n - 1, n - 2);
    }
  }

  function OwnBefore(tables: seq<ParsedTable>, n: nat): nat
    requires n <= |tables|
  {
    if n == 0 then 0 else OwnBefore(tables, n - 1) + |tables[n - 1].foreignKeys|
  }

  lemma {:induction false} OwnKeysInOrder(tables: seq<ParsedTable>, n: nat, t: nat, j: nat)
    requires t < n <= |tables| && j < |tables[t].foreignKeys|
    ensures |OwnKeys(tables, n)| == OwnBefore(tables, n)
    ensures OwnBefore(tables, t) + j < |OwnKeys(tables, n)|
    ensures OwnKeys(tables, n)[OwnBefore(tables, t) + j] == (tables[t].name, tables[t].foreignKeys[j])
  {
    OwnCount(tables, n - 1);
    if t < n - 1 {
      OwnKeysInOrder(tables, n - 1, t, j);
    }
  }

  lemma {:induction false} OwnCount(tables: seq<ParsedTable>, n: nat)
    requires n <= |tables|
    ensures |OwnKeys(tables, n)| == OwnBefore(tables, n)
  {
    if n > 0 {
      OwnCount(tables, n - 1);
    }
  }

  /** The keys tables wrote themselves come first, in the order of the script;
      those added later follow. */
  lemma {:induction false} KeysInOrder(sorted: Sorted, t: nat, j: nat, late: nat)
    ensures |AllKeys(sorted)| == OwnBefore(sorted.tables, |sorted.tables|) + |sorted.lateKeys|
    ensures t < |sorted.tables| && j < |sorted.tables[t].foreignKeys| ==>
      && OwnBefore(sorted.tables, t) + j < |AllKeys(sorted)|
      && AllKeys(sorted)[OwnBefore(sorted.tables, t) + j] == (sorted.tables[t].name, sorted.tables[t].foreignKeys[j])
    ensures late < |sorted.lateKeys| ==> AllKeys(sorted)[OwnBefore(sorted.tables, |sorted.tables|) + late] == sorted.lateKeys[late]
  {
    OwnCount(sorted.tables, |sorted.tables|);
    if t < |sorted.tables| && j < |sorted.tables[t].foreignKeys| {
      OwnKeysInOrder(sorted.tables, |sorted.tables|, t, j);
    }
  }
}
