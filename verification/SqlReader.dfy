/** Building a draft from the statements of a script: tables first, then the
    foreign keys between them, then comments, then places on the canvas. */
module SqlReader {
  import opened Options
  import opened Strings
  import opened Domain
  import opened Diagnostics
  import opened Scanning
  import opened TableParser
  import opened Statements
  import opened Grid

  // ----- the statements, sorted -----

  datatype Sorted = Sorted(
    tables: seq<ParsedTable>,
    tableAt: seq<nat>,
    lateKeys: seq<(string, ParsedForeignKey)>,
    comments: seq<Comment>,
    skipped: nat)
  {
    function Add(at: nat, meaning: Meaning): Sorted {
      match meaning
      case Table(parsed) => this.(tables := tables + [parsed], tableAt := tableAt + [at])
      case ForeignKey(holder, key) => this.(lateKeys := lateKeys + [(holder, key)])
      case Remark(comment) => this.(comments := comments + [comment])
      case Skipped => this.(skipped := skipped + 1)
    }
  }

  const UNSORTED := Sorted([], [], [], [], 0)

  function SortedUpTo(statements: seq<seq<Token>>, n: nat): Sorted
    requires n <= |statements|
  {
    if n == 0 then UNSORTED else SortedUpTo(statements, n - 1).Add(n - 1, Classified(statements[n - 1]))
  }

  method Sort(statements: seq<seq<Token>>) returns (sorted: Sorted)
    ensures sorted == SortedUpTo(statements, |statements|)
  {
    hide Classified;
    sorted := UNSORTED;
    for at := 0 to |statements|
      invariant sorted == SortedUpTo(statements, at)
    {
      var meaning := Classify(statements[at]);
      sorted := sorted.Add(at, meaning);
    }
  }

  // ----- names -----

  /** A name without the schema in front of it. */
  function Tail(name: string): string {
    match LastDot(name)
    case None => name
    case Some(dot) => name[dot + 1..]
  }

  /** Equal names, or equal last parts: a qualifier on either side is no bar. */
  predicate SameTable(left: string, right: string) {
    Same(left, right) || Same(Tail(left), Tail(right))
  }

  function FindTable(entities: seq<Entity>, name: string): (r: Option<nat>)
    ensures r.Some? ==> r.value < |entities|
  {
    match First(entities, (e: Entity) => Same(e.name, name))
    case Some(i) => Some(i)
    case None => First(entities, (e: Entity) => SameTable(e.name, name))
  }

  // ----- the draft under way -----

  /** `minted` counts the ids handed out so far. */
  datatype Import = Import(
    entities: seq<Entity>,
    relationships: seq<Relationship>,
    report: seq<Diagnostic>,
    minted: nat)
  {
    function Noted(): Import {
      this.(report := report + [NOTE])
    }

    function Draft(): Schema {
      Schema("", "", entities, relationships)
    }
  }

  /** Something in the file that did not reach the canvas. */
  const NOTE := Diagnostic(ImportSkipped, Warning, [], None)

  function Notes(n: nat): (r: seq<Diagnostic>)
    ensures |r| == n && forall i :: 0 <= i < n ==> r[i] == NOTE
  {
    seq(n, _ => NOTE)
  }

  function AttributeFrom(c: ParsedColumn, id: string): Attribute {
    Attribute(id, c.name, "", c.dataType, c.nullable, c.primaryKey, c.unique || c.primaryKey, None, c.defaultValue)
  }

  function AttributesFrom(columns: seq<ParsedColumn>, uuid: nat -> string, minted: nat): (r: seq<Attribute>)
    ensures |r| == |columns|
    ensures forall i :: 0 <= i < |r| ==> r[i] == AttributeFrom(columns[i], "a" + uuid(minted + i))
  {
    seq(|columns|, i requires 0 <= i < |columns| => AttributeFrom(columns[i], "a" + uuid(minted + i)))
  }

  function EntityFrom(parsed: ParsedTable, uuid: nat -> string, minted: nat): Entity {
    Entity("e" + uuid(minted), parsed.name, "", AttributesFrom(parsed.columns, uuid, minted + 1), Position(0, 0))
  }

  function Added(i: Import, parsed: ParsedTable, uuid: nat -> string): Import {
    Import(i.entities + [EntityFrom(parsed, uuid, i.minted)],
           i.relationships,
           i.report + Notes(|parsed.skipped|),
           i.minted + 1 + |parsed.columns|)
  }

  function AddedUpTo(i: Import, tables: seq<ParsedTable>, n: nat, uuid: nat -> string): Import
    requires n <= |tables|
  {
    if n == 0 then i else Added(AddedUpTo(i, tables, n - 1, uuid), tables[n - 1], uuid)
  }

  // ----- foreign keys -----

  /** The column pointed at; without a name, the first of the key. */
  function KeyTarget(e: Entity, target: Option<string>): (r: Option<nat>)
    ensures r.Some? ==> r.value < |e.attributes|
  {
    match target
    case Some(name) => e.AttributeByName(name)
    case None => First(e.attributes, (a: Attribute) => a.primaryKey)
  }

  /** Positions of the holding column and of the one it points at. */
  datatype Link = Link(holder: nat, column: nat, target: nat, key: nat)

  function LinkOf(entities: seq<Entity>, holder: string, key: ParsedForeignKey): (r: Option<Link>)
    ensures r.Some? ==> r.value.holder < |entities| && r.value.column < |entities[r.value.holder].attributes|
    ensures r.Some? ==> r.value.target < |entities| && r.value.key < |entities[r.value.target].attributes|
  {
    match (FindTable(entities, holder), FindTable(entities, key.table))
    case (Some(h), Some(t)) =>
      (match (entities[h].AttributeByName(key.column), KeyTarget(entities[t], key.target))
       case (Some(a), Some(k)) => Some(Link(h, a, t, k))
       case _ => None)
    case _ => None
  }

  /** `reference` put on the attribute of this id. */
  function WithKey(e: Entity, attributeId: string, reference: ForeignKeyRef): Entity {
    match e.AttributeAt(attributeId)
    case None => e
    case Some(a) => e.(attributes := e.attributes[a := e.attributes[a].(foreignKey := Some(reference))])
  }

  function Joined(i: Import, link: Link, uuid: nat -> string): Import
    requires link.holder < |i.entities| && link.column < |i.entities[link.holder].attributes|
    requires link.target < |i.entities| && link.key < |i.entities[link.target].attributes|
  {
    var holder, target := i.entities[link.holder], i.entities[link.target];
    var column, key := holder.attributes[link.column].id, target.attributes[link.key].id;
    i.(entities := i.entities[link.holder := WithKey(holder, column, ForeignKeyRef(target.id, key))],
       relationships := i.relationships
         + [Relationship("r" + uuid(i.minted), "", "", target.id, key, holder.id, column, OneToMany)],
       minted := i.minted + 1)
  }

  function Linked(i: Import, holder: string, key: ParsedForeignKey, uuid: nat -> string): Import {
    match LinkOf(i.entities, holder, key)
    case None => i.Noted()
    case Some(link) => Joined(i, link, uuid)
  }

  function LinkedUpTo(i: Import, keys: seq<(string, ParsedForeignKey)>, n: nat, uuid: nat -> string): Import
    requires n <= |keys|
  {
    if n == 0 then i else Linked(LinkedUpTo(i, keys, n - 1, uuid), keys[n - 1].0, keys[n - 1].1, uuid)
  }

  function KeysOf(parsed: ParsedTable): (r: seq<(string, ParsedForeignKey)>)
    ensures |r| == |parsed.foreignKeys|
    ensures forall i :: 0 <= i < |r| ==> r[i] == (parsed.name, parsed.foreignKeys[i])
  {
    seq(|parsed.foreignKeys|, i requires 0 <= i < |parsed.foreignKeys| => (parsed.name, parsed.foreignKeys[i]))
  }

  function OwnKeys(tables: seq<ParsedTable>, n: nat): seq<(string, ParsedForeignKey)>
    requires n <= |tables|
  {
    if n == 0 then [] else OwnKeys(tables, n - 1) + KeysOf(tables[n - 1])
  }

  /** The keys tables wrote themselves, then those added later. */
  function AllKeys(sorted: Sorted): seq<(string, ParsedForeignKey)> {
    OwnKeys(sorted.tables, |sorted.tables|) + sorted.lateKeys
  }

  // ----- comments -----

  function Described(i: Import, comment: Comment): Import {
    match FindTable(i.entities, comment.table)
    case None => i.Noted()
    case Some(at) =>
      var e := i.entities[at];
      match comment.column
      case None => i.(entities := i.entities[at := e.(description := comment.text)])
      case Some(column) =>
        match e.AttributeByName(column)
        case None => i.Noted()
        case Some(a) =>
          var described := e.attributes[a].(description := comment.text);
          i.(entities := i.entities[at := e.(attributes := e.attributes[a := described])])
  }

  function DescribedUpTo(i: Import, comments: seq<Comment>, n: nat): Import
    requires n <= |comments|
  {
    if n == 0 then i else Described(DescribedUpTo(i, comments, n - 1), comments[n - 1])
  }

  // ----- places -----

  function StatementOf(tableAt: seq<nat>, index: nat): Option<nat> {
    if index < |tableAt| then Some(tableAt[index]) else None
  }

  /** A hint directly above the table, before any other of its name. */
  function HintFor(hints: seq<LayoutHint>, above: Option<nat>, name: string): (r: Option<nat>)
    ensures r.Some? ==> r.value < |hints|
  {
    match First(hints, (h: LayoutHint) => h.above == above && SameTable(h.table, name))
    case Some(i) => Some(i)
    case None => First(hints, (h: LayoutHint) => SameTable(h.table, name))
  }

  function PlaceOf(hints: seq<LayoutHint>, tableAt: seq<nat>, includePositions: bool, index: nat, name: string): Position {
    var hint := if includePositions then HintFor(hints, StatementOf(tableAt, index), name) else None;
    match hint
    case Some(i) => Position(hints[i].x, hints[i].y)
    case None => GridSlot(index)
  }

  function Placed(entities: seq<Entity>, hints: seq<LayoutHint>, tableAt: seq<nat>, includePositions: bool): (r: seq<Entity>)
    ensures |r| == |entities|
    ensures forall i :: 0 <= i < |r| ==>
      r[i] == entities[i].(position := PlaceOf(hints, tableAt, includePositions, i, entities[i].name))
  {
    seq(|entities|, i requires 0 <= i < |entities| =>
      entities[i].(position := PlaceOf(hints, tableAt, includePositions, i, entities[i].name)))
  }

  // ----- the whole reading -----

  /** The draft before anything is placed. */
  function Assembled(sorted: Sorted, uuid: nat -> string): Import {
    var started := Import([], [], Notes(sorted.skipped), 0);
    var added := AddedUpTo(started, sorted.tables, |sorted.tables|, uuid);
    var linked := LinkedUpTo(added, AllKeys(sorted), |AllKeys(sorted)|, uuid);
    DescribedUpTo(linked, sorted.comments, |sorted.comments|)
  }

  /** A script without tables gives no draft. */
  function Imported(scan: Scan, includePositions: bool, uuid: nat -> string): Option<Import> {
    var sorted := SortedUpTo(scan.statements, |scan.statements|);
    if sorted.tables == [] then None
    else
      var built := Assembled(sorted, uuid);
      Some(built.(entities := Placed(built.entities, scan.hints, sorted.tableAt, includePositions)))
  }

  // ----- the reader, step by step -----

  class Importer {
    const uuid: nat -> string
    var entities: seq<Entity>
    var relationships: seq<Relationship>
    var report: seq<Diagnostic>
    var minted: nat

    constructor (uuid: nat -> string)
      ensures this.uuid == uuid && Now() == Import([], [], [], 0)
    {
      this.uuid := uuid;
      entities, relationships, report, minted := [], [], [], 0;
    }

    function Now(): Import
      reads this
    {
      Import(entities, relationships, report, minted)
    }

    method Fresh(prefix: string) returns (id: string)
      modifies this`minted
      ensures id == prefix + uuid(old(minted)) && minted == old(minted) + 1
    {
      id := prefix + uuid(minted);
      minted := minted + 1;
    }

    method Note()
      modifies this`report
      ensures Now() == old(Now()).Noted()
    {
      report := report + [NOTE];
    }

    method NoteAll(n: nat)
      modifies this`report
      ensures report == old(report) + Notes(n)
    {
      for k := 0 to n
        invariant report == old(report) + Notes(k)
      {
        assert Notes(k + 1) == Notes(k) + [NOTE];
        Note();
      }
    }

    method AddTable(parsed: ParsedTable)
      modifies this
      ensures Now() == Added(old(Now()), parsed, uuid)
    {
      NoteAll(|parsed.skipped|);
      var id := Fresh("e");
      ghost var start := minted;
      var attributes: seq<Attribute> := [];
      for k := 0 to |parsed.columns|
        invariant minted == start + k
        invariant attributes == AttributesFrom(parsed.columns, uuid, start)[..k]
        invariant entities == old(entities) && relationships == old(relationships)
        invariant report == old(report) + Notes(|parsed.skipped|)
      {
        var attributeId := Fresh("a");
        attributes := attributes + [AttributeFrom(parsed.columns[k], attributeId)];
      }
      assert attributes == AttributesFrom(parsed.columns, uuid, start);
      entities := entities + [Entity(id, parsed.name, "", attributes, Position(0, 0))];
    }

    method Link(holder: string, key: ParsedForeignKey)
      modifies this
      ensures Now() == Linked(old(Now()), holder, key, uuid)
    {
      hide FindTable, KeyTarget;
      var holderAt := FindTable(entities, holder);
      var targetAt := FindTable(entities, key.table);
      if holderAt.None? || targetAt.None? {
        Note();
        return;
      }
      var holderEntity, target := entities[holderAt.value], entities[targetAt.value];
      var column := holderEntity.AttributeByName(key.column);
      if column.None? {
        Note();
        return;
      }
      var keyAt := KeyTarget(target, key.target);
      if keyAt.None? {
        Note();
        return;
      }
      var columnId, keyId := holderEntity.attributes[column.value].id, target.attributes[keyAt.value].id;
      entities := entities[holderAt.value := WithKey(holderEntity, columnId, ForeignKeyRef(target.id, keyId))];
      var id := Fresh("r");
      relationships := relationships
        + [Relationship(id, "", "", target.id, keyId, holderEntity.id, columnId, OneToMany)];
    }

    method Describe(comment: Comment)
      modifies this
      ensures Now() == Described(old(Now()), comment)
    {
      hide FindTable;
      var at := FindTable(entities, comment.table);
      if at.None? {
        Note();
        return;
      }
      var e := entities[at.value];
      match comment.column {
        case None =>
          entities := entities[at.value := e.(description := comment.text)];
        case Some(column) =>
          var a := e.AttributeByName(column);
          match a {
            case None => Note();
            case Some(k) =>
              var described := e.attributes[k].(description := comment.text);
              entities := entities[at.value := e.(attributes := e.attributes[k := described])];
          }
      }
    }

    method Place(hints: seq<LayoutHint>, tableAt: seq<nat>, includePositions: bool)
      modifies this`entities
      ensures entities == Placed(old(entities), hints, tableAt, includePositions)
    {
      hide PlaceOf;
      for index := 0 to |entities|
        invariant |entities| == |old(entities)|
        invariant entities[..index] == Placed(old(entities), hints, tableAt, includePositions)[..index]
        invariant entities[index..] == old(entities)[index..]
      {
        ghost var before := entities;
        assert before[index] == before[index..][0];
        var e := entities[index];
        entities := entities[index := e.(position := PlaceOf(hints, tableAt, includePositions, index, e.name))];
        assert entities[..index + 1] == entities[..index] + [entities[index]];
      }
      assert entities[..|entities|] == entities;
    }

    method AddTables(tables: seq<ParsedTable>)
      modifies this
      ensures Now() == AddedUpTo(old(Now()), tables, |tables|, uuid)
    {
      hide Added;
      for n := 0 to |tables|
        invariant Now() == AddedUpTo(old(Now()), tables, n, uuid)
      {
        AddTable(tables[n]);
      }
    }

    method LinkAll(keys: seq<(string, ParsedForeignKey)>)
      modifies this
      ensures Now() == LinkedUpTo(old(Now()), keys, |keys|, uuid)
    {
      hide Linked;
      for n := 0 to |keys|
        invariant Now() == LinkedUpTo(old(Now()), keys, n, uuid)
      {
        Link(keys[n].0, keys[n].1);
      }
    }

    method DescribeAll(comments: seq<Comment>)
      modifies this
      ensures Now() == DescribedUpTo(old(Now()), comments, |comments|)
    {
      hide Described;
      for n := 0 to |comments|
        invariant Now() == DescribedUpTo(old(Now()), comments, n)
      {
        Describe(comments[n]);
      }
    }
  }

  /** A whole script, read. */
  method ReadScript(content: string, includePositions: bool, uuid: nat -> string) returns (result: Option<Import>)
    ensures result == Imported(ScanFrom(content, EMPTY), includePositions, uuid)
  {
    hide ScanFrom, SortedUpTo, AddedUpTo, LinkedUpTo, DescribedUpTo, OwnKeys, Placed;
    var scan := ScanScript(content);
    var sorted := Sort(scan.statements);
    if sorted.tables == [] {
      return None;
    }
    var importer := new Importer(uuid);
    importer.NoteAll(sorted.skipped);
    assert [] + Notes(sorted.skipped) == Notes(sorted.skipped);
    importer.AddTables(sorted.tables);
    importer.LinkAll(AllKeys(sorted));
    importer.DescribeAll(sorted.comments);
    importer.Place(scan.hints, sorted.tableAt, includePositions);
    result := Some(importer.Now());
  }
}
