/** A database as its catalogue, the statements of a generated script as
    commands against it, and how those commands are written. */
module Catalogue {
  import opened Options
  import opened Strings
  import opened Domain
  import opened Rendering
  import opened Generator
  import opened Verifier

  datatype Column = Column(name: string, dataType: DataType, notNull: bool, defaultText: Option<string>, unique: bool)

  datatype Command =
    | CreateRelation(table: string, columns: seq<Column>, key: seq<string>)
    | AddKey(table: string, constraint: string, column: string, target: string, targetColumn: string)
    | CommentOnTable(table: string, text: string)
    | CommentOnColumn(table: string, column: string, text: string)

  datatype Relation = Relation(columns: seq<Column>, key: seq<string>, constraints: set<string>)
  {
    predicate Has(name: string) {
      exists k :: 0 <= k < |columns| && columns[k].name == name
    }

    /** A foreign key may point at the whole primary key or at a UNIQUE column. */
    predicate DeclaresUnique(name: string) {
      key == [name] || exists k :: 0 <= k < |columns| && columns[k].name == name && columns[k].unique
    }
  }

  type Tables = map<string, Relation>

  /** What a server can do with values of a kind: hold them in the index behind
      a key or UNIQUE, and compare those of one kind with those of another, as
      a foreign key does. */
  datatype Server = Server(indexable: DataTypeKind -> bool, comparable: (DataTypeKind, DataTypeKind) -> bool)

  // ----- what the server does -----

  /** The server keeps the first 63 bytes of an identifier, whole characters only. */
  function Kept(name: string): string {
    CutTo(name, MAX_IDENTIFIER_BYTES)
  }

  function KeptNames(names: seq<string>): (r: seq<string>)
    ensures |r| == |names| && forall k :: 0 <= k < |r| ==> r[k] == Kept(names[k])
  {
    seq(|names|, k requires 0 <= k < |names| => Kept(names[k]))
  }

  function KeptColumns(columns: seq<Column>): (r: seq<Column>)
    ensures |r| == |columns| && forall k :: 0 <= k < |r| ==> r[k] == columns[k].(name := Kept(columns[k].name))
  {
    seq(|columns|, k requires 0 <= k < |columns| => columns[k].(name := Kept(columns[k].name)))
  }

  /** A command as the server reads it, every identifier cut back. */
  function Understood(command: Command): Command {
    match command
    case CreateRelation(table, columns, key) => CreateRelation(Kept(table), KeptColumns(columns), KeptNames(key))
    case AddKey(table, constraint, column, target, targetColumn) =>
      AddKey(Kept(table), Kept(constraint), Kept(column), Kept(target), Kept(targetColumn))
    case CommentOnTable(table, text) => CommentOnTable(Kept(table), text)
    case CommentOnColumn(table, column, text) => CommentOnColumn(Kept(table), Kept(column), text)
  }

  predicate IsIdentifier(name: string) {
    name != ""
  }

  const MAX_CHARACTERS := 10_485_760
  const MAX_DIGITS := 1000

  /** The parameters a type is written with are in the server's range. A scale
      is only written after a precision, so without one it does not matter. */
  predicate TypeAccepted(t: DataType) {
    if t.kind.TakesLength() then
      match t.length
      case None => true
      case Some(n) => 1 <= n <= MAX_CHARACTERS
    else if t.kind.TakesPrecision() then
      match (t.precision, t.scale)
      case (None, _) => true
      case (Some(p), None) => 1 <= p <= MAX_DIGITS
      case (Some(p), Some(scale)) => 1 <= p <= MAX_DIGITS && 0 <= scale <= MAX_DIGITS
    else true
  }

  predicate LoneScale(t: DataType) {
    t.kind.TakesPrecision() && t.precision.None? && t.scale.Some?
  }

  /** The verifier asks for what the server asks for, and refuses one thing more:
      a scale without a precision, which the script would leave out. */
  lemma TypeAcceptedIff(t: DataType)
    ensures TypeAccepted(t) <==> GoodParameters(t) || LoneScale(t)
    ensures LoneScale(t) ==> TypeText(t) == TypeText(t.(scale := None))
  {
  }

  predicate ColumnAccepted(c: Column) {
    IsIdentifier(c.name) && TypeAccepted(c.dataType)
  }

  /** A key and every UNIQUE column need an index. */
  predicate Indexed(server: Server, columns: seq<Column>, key: seq<string>) {
    forall k :: 0 <= k < |columns| && (columns[k].unique || columns[k].name in key) ==>
      server.indexable(columns[k].dataType.kind)
  }

  predicate DistinctNames(columns: seq<Column>) {
    forall i, j :: 0 <= i < j < |columns| ==> columns[i].name != columns[j].name
  }

  predicate CreateAccepted(server: Server, tables: Tables, table: string, columns: seq<Column>, key: seq<string>) {
    && IsIdentifier(table) && table !in tables
    && (forall k :: 0 <= k < |columns| ==> ColumnAccepted(columns[k]))
    && DistinctNames(columns) && Indexed(server, columns, key)
    && forall k :: 0 <= k < |key| ==> Relation(columns, key, {}).Has(key[k])
  }

  /** The server can compare the two ends of a key. */
  predicate EndsComparable(server: Server, from: Relation, column: string, to: Relation, targetColumn: string) {
    forall i, j :: 0 <= i < |from.columns| && 0 <= j < |to.columns|
      && from.columns[i].name == column && to.columns[j].name == targetColumn
      ==> server.comparable(from.columns[i].dataType.kind, to.columns[j].dataType.kind)
  }

  predicate AddAccepted(server: Server, tables: Tables, table: string, constraint: string, column: string, target: string, targetColumn: string) {
    && table in tables && target in tables
    && IsIdentifier(constraint) && constraint !in tables[table].constraints
    && tables[table].Has(column) && tables[target].Has(targetColumn)
    && tables[target].DeclaresUnique(targetColumn)
    && EndsComparable(server, tables[table], column, tables[target], targetColumn)
  }

  function Run(server: Server, tables: Tables, command: Command): Option<Tables> {
    match Understood(command)
    case CreateRelation(table, columns, key) =>
      if CreateAccepted(server, tables, table, columns, key) then Some(tables[table := Relation(columns, key, {})]) else None
    case AddKey(table, constraint, column, target, targetColumn) =>
      if AddAccepted(server, tables, table, constraint, column, target, targetColumn) then
        Some(tables[table := tables[table].(constraints := tables[table].constraints + {constraint})])
      else None
    case CommentOnTable(table, _) => if table in tables then Some(tables) else None
    case CommentOnColumn(table, column, _) => if table in tables && tables[table].Has(column) then Some(tables) else None
  }

  /** Command by command; one that fails ends the run. */
  function RunAll(server: Server, tables: Tables, commands: seq<Command>): Option<Tables>
    decreases |commands|
  {
    if commands == [] then Some(tables)
    else
      match Run(server, tables, commands[0])
      case None => None
      case Some(after) => RunAll(server, after, commands[1..])
  }

  lemma {:induction false} RunAppend(server: Server, tables: Tables, a: seq<Command>, b: seq<Command>)
    ensures RunAll(server, tables, a + b) ==
      match RunAll(server, tables, a)
      case None => None
      case Some(after) => RunAll(server, after, b)
    decreases |a|
  {
    hide Run;
    if a == [] {
      assert a + b == b;
    } else {
      assert (a + b)[0] == a[0] && (a + b)[1..] == a[1..] + b;
      match Run(server, tables, a[0]) {
        case None =>
        case Some(after) => RunAppend(server, after, a[1..], b);
      }
    }
  }

  lemma RunOne(server: Server, tables: Tables, command: Command)
    ensures RunAll(server, tables, [command]) == Run(server, tables, command)
  {
    hide Run;
    assert [command][1..] == [];
  }

  // ----- a schema's commands -----

  function ColumnOf(a: Attribute): Column {
    Column(Trim(a.name), a.dataType, !a.nullable, a.defaultValue, a.unique && !a.primaryKey)
  }

  function ColumnsOf(attributes: seq<Attribute>): (r: seq<Column>)
    ensures |r| == |attributes| && forall k :: 0 <= k < |r| ==> r[k] == ColumnOf(attributes[k])
  {
    seq(|attributes|, k requires 0 <= k < |attributes| => ColumnOf(attributes[k]))
  }

  function TableCommand(e: Entity): Command {
    CreateRelation(Trim(e.name), ColumnsOf(e.attributes), TrimmedNames(e.PrimaryKey()))
  }

  function TableCommandsUpTo(s: Schema, n: nat): seq<Command>
    requires n <= |s.entities|
  {
    if n == 0 then [] else TableCommandsUpTo(s, n - 1) + [TableCommand(s.entities[n - 1])]
  }

  function KeyCommand(e: Entity, a: Attribute, target: Entity, key: Attribute): Command {
    AddKey(Trim(e.name), Trim(ConstraintName(e.name, a.name)), Trim(a.name), Trim(target.name), Trim(key.name))
  }

  function ColumnKeyCommands(s: Schema, e: Entity, a: Attribute): seq<Command> {
    match a.foreignKey
    case None => []
    case Some(reference) =>
      match s.Resolve(reference.entityId, reference.attributeId)
      case None => []
      case Some((t, k)) => [KeyCommand(e, a, s.entities[t], s.entities[t].attributes[k])]
  }

  function TableKeyCommands(s: Schema, e: Entity, k: nat): seq<Command>
    requires k <= |e.attributes|
  {
    if k == 0 then [] else TableKeyCommands(s, e, k - 1) + ColumnKeyCommands(s, e, e.attributes[k - 1])
  }

  function KeyCommandsUpTo(s: Schema, n: nat): seq<Command>
    requires n <= |s.entities|
  {
    if n == 0 then []
    else KeyCommandsUpTo(s, n - 1) + TableKeyCommands(s, s.entities[n - 1], |s.entities[n - 1].attributes|)
  }

  function TableRemarkCommands(e: Entity): seq<Command> {
    if e.IsDocumented() then [CommentOnTable(Trim(e.name), Trim(e.description))] else []
  }

  function ColumnRemarkCommands(e: Entity, a: Attribute): seq<Command> {
    if a.IsDocumented() then [CommentOnColumn(Trim(e.name), Trim(a.name), Trim(a.description))] else []
  }

  function RemarkCommands(e: Entity, k: nat): seq<Command>
    requires k <= |e.attributes|
  {
    if k == 0 then TableRemarkCommands(e) else RemarkCommands(e, k - 1) + ColumnRemarkCommands(e, e.attributes[k - 1])
  }

  function RemarkCommandsUpTo(s: Schema, n: nat): seq<Command>
    requires n <= |s.entities|
  {
    if n == 0 then []
    else RemarkCommandsUpTo(s, n - 1) + RemarkCommands(s.entities[n - 1], |s.entities[n - 1].attributes|)
  }

  function Commands(s: Schema): seq<Command> {
    TableCommandsUpTo(s, |s.entities|) + KeyCommandsUpTo(s, |s.entities|) + RemarkCommandsUpTo(s, |s.entities|)
  }

  // ----- how commands are written -----

  function Delimited(text: string, mark: char): string {
    [mark] + Doubled(text, mark) + [mark]
  }

  function ColumnText(c: Column): string {
    Delimited(c.name, '"') + " " + Upper(TypeText(c.dataType))
    + (if c.notNull then " NOT NULL" else "")
    + (match c.defaultText case None => "" case Some(text) => " DEFAULT " + text)
    + (if c.unique then " UNIQUE" else "")
  }

  function ColumnTexts(columns: seq<Column>): (r: seq<string>)
    ensures |r| == |columns| && forall k :: 0 <= k < |r| ==> r[k] == ColumnText(columns[k])
  {
    seq(|columns|, k requires 0 <= k < |columns| => ColumnText(columns[k]))
  }

  function DelimitedNames(names: seq<string>): (r: seq<string>)
    ensures |r| == |names| && forall k :: 0 <= k < |r| ==> r[k] == Delimited(names[k], '"')
  {
    seq(|names|, k requires 0 <= k < |names| => Delimited(names[k], '"'))
  }

  /** The text of a command. */
  function Written(command: Command): string {
    match command
    case CreateRelation(table, columns, key) =>
      var lines := ColumnTexts(columns) + (if key == [] then [] else ["PRIMARY KEY (" + Join(DelimitedNames(key), ", ") + ")"]);
      if lines == [] then "CREATE TABLE " + Delimited(table, '"') + " ();"
      else "CREATE TABLE " + Delimited(table, '"') + " (\n    " + Join(lines, ",\n    ") + "\n);"
    case AddKey(table, constraint, column, target, targetColumn) =>
      "ALTER TABLE " + Delimited(table, '"')
      + "\n    ADD CONSTRAINT " + Delimited(constraint, '"')
      + " FOREIGN KEY (" + Delimited(column, '"')
      + ") REFERENCES " + Delimited(target, '"')
      + " (" + Delimited(targetColumn, '"') + ");"
    case CommentOnTable(table, text) =>
      "COMMENT ON TABLE " + Delimited(table, '"') + " IS " + Delimited(text, '\'') + ";"
    case CommentOnColumn(table, column, text) =>
      "COMMENT ON COLUMN " + Delimited(table, '"') + "." + Delimited(column, '"') + " IS " + Delimited(text, '\'') + ";"
  }

  function AllWritten(commands: seq<Command>): (r: seq<string>)
    ensures |r| == |commands| && forall i :: 0 <= i < |r| ==> r[i] == Written(commands[i])
  {
    seq(|commands|, i requires 0 <= i < |commands| => Written(commands[i]))
  }

  lemma QuoteIsDelimited(name: string)
    ensures Quote(name) == Delimited(Trim(name), '"') && Literal(name) == Delimited(Trim(name), '\'')
  {
    hide Trim;
  }

  lemma ColumnWritten(a: Attribute)
    ensures ColumnLine(a) == ColumnText(ColumnOf(a))
  {
    hide Trim, Quote, Delimited;
    QuoteIsDelimited(a.name);
  }

  lemma TableWritten(e: Entity)
    ensures CreateTable(e) == Written(TableCommand(e))
  {
    hide Trim, Quote, Delimited, ColumnLine, ColumnText, KeyColumns, Join;
    QuoteIsDelimited(e.name);
    forall k | 0 <= k < |e.attributes|
      ensures ColumnLines(e.attributes)[k] == ColumnTexts(ColumnsOf(e.attributes))[k]
    {
      ColumnWritten(e.attributes[k]);
    }
    assert ColumnLines(e.attributes) == ColumnTexts(ColumnsOf(e.attributes));
    KeyWritten(e.PrimaryKey());
    assert e.PrimaryKey() == [] <==> TrimmedNames(e.PrimaryKey()) == [];
  }

  lemma KeyWritten(key: seq<Attribute>)
    ensures QuotedNames(key) == DelimitedNames(TrimmedNames(key))
  {
    hide Trim, Quote, Delimited;
    forall k | 0 <= k < |key|
      ensures QuotedNames(key)[k] == DelimitedNames(TrimmedNames(key))[k]
    {
      QuoteIsDelimited(key[k].name);
    }
  }

  lemma AddKeyWritten(e: Entity, a: Attribute, target: Entity, key: Attribute)
    ensures ForeignKeyStatement(e, a, target, key) == Written(KeyCommand(e, a, target, key))
  {
    hide Trim, Quote, Delimited, ConstraintName;
    QuoteIsDelimited(e.name);
    QuoteIsDelimited(ConstraintName(e.name, a.name));
    QuoteIsDelimited(a.name);
    QuoteIsDelimited(target.name);
    QuoteIsDelimited(key.name);
  }

  lemma AllWrittenAppend(a: seq<Command>, b: seq<Command>)
    ensures AllWritten(a + b) == AllWritten(a) + AllWritten(b)
  {
    hide Written;
  }

  lemma {:induction false} TableKeysWritten(s: Schema, e: Entity, k: nat)
    requires k <= |e.attributes|
    ensures TableKeys(s, e, k) == AllWritten(TableKeyCommands(s, e, k))
  {
    hide Written, ForeignKeyStatement, KeyCommand, Schema.Resolve;
    if k > 0 {
      TableKeysWritten(s, e, k - 1);
      var a := e.attributes[k - 1];
      if a.foreignKey.Some? {
        var found := s.Resolve(a.foreignKey.value.entityId, a.foreignKey.value.attributeId);
        if found.Some? {
          AddKeyWritten(e, a, s.entities[found.value.0], s.entities[found.value.0].attributes[found.value.1]);
        }
      }
      AllWrittenAppend(TableKeyCommands(s, e, k - 1), ColumnKeyCommands(s, e, a));
      assert ColumnKey(s, e, a) == AllWritten(ColumnKeyCommands(s, e, a));
    }
  }

  lemma {:induction false} KeysWritten(s: Schema, n: nat)
    requires n <= |s.entities|
    ensures KeysUpTo(s, n) == AllWritten(KeyCommandsUpTo(s, n))
  {
    hide TableKeys, TableKeyCommands, Written;
    if n > 0 {
      KeysWritten(s, n - 1);
      var e := s.entities[n - 1];
      TableKeysWritten(s, e, |e.attributes|);
      AllWrittenAppend(KeyCommandsUpTo(s, n - 1), TableKeyCommands(s, e, |e.attributes|));
    }
  }

  lemma {:induction false} RemarksWritten(e: Entity, k: nat)
    requires k <= |e.attributes|
    ensures ColumnComments(e, k) == AllWritten(RemarkCommands(e, k))
  {
    hide Trim, Quote, Literal, Delimited;
    QuoteIsDelimited(e.name);
    if k == 0 {
      QuoteIsDelimited(e.description);
      assert TableComment(e) == AllWritten(TableRemarkCommands(e));
    } else {
      RemarksWritten(e, k - 1);
      var a := e.attributes[k - 1];
      QuoteIsDelimited(a.name);
      QuoteIsDelimited(a.description);
      assert ColumnComment(e, a) == AllWritten(ColumnRemarkCommands(e, a));
      AllWrittenAppend(RemarkCommands(e, k - 1), ColumnRemarkCommands(e, a));
    }
  }

  lemma {:induction false} CommentsWritten(s: Schema, n: nat)
    requires n <= |s.entities|
    ensures CommentsUpTo(s, n) == AllWritten(RemarkCommandsUpTo(s, n))
  {
    hide ColumnComments, RemarkCommands, Written;
    if n > 0 {
      CommentsWritten(s, n - 1);
      var e := s.entities[n - 1];
      RemarksWritten(e, |e.attributes|);
      AllWrittenAppend(RemarkCommandsUpTo(s, n - 1), RemarkCommands(e, |e.attributes|));
    }
  }

  lemma {:induction false} TablesWritten(s: Schema, n: nat)
    requires n <= |s.entities|
    ensures TableBlocks(s.entities, false)[..n] == AllWritten(TableCommandsUpTo(s, n))
  {
    hide CreateTable, TableCommand, Written;
    if n > 0 {
      TablesWritten(s, n - 1);
      TableWritten(s.entities[n - 1]);
      AllWrittenAppend(TableCommandsUpTo(s, n - 1), [TableCommand(s.entities[n - 1])]);
      assert TableBlocks(s.entities, false)[..n] == TableBlocks(s.entities, false)[..n - 1] + [CreateTable(s.entities[n - 1])];
    }
  }

  /** The statements of the script, in order, are the commands as written. */
  lemma ScriptIsWritten(s: Schema)
    ensures TableBlocks(s.entities, false) + KeysUpTo(s, |s.entities|) + CommentsUpTo(s, |s.entities|)
         == AllWritten(Commands(s))
  {
    hide TableCommandsUpTo, KeyCommandsUpTo, RemarkCommandsUpTo, KeysUpTo, CommentsUpTo, Written, TableBlock;
    var n := |s.entities|;
    TablesWritten(s, n);
    KeysWritten(s, n);
    CommentsWritten(s, n);
    assert TableBlocks(s.entities, false)[..n] == TableBlocks(s.entities, false);
    AllWrittenAppend(TableCommandsUpTo(s, n), KeyCommandsUpTo(s, n));
    AllWrittenAppend(TableCommandsUpTo(s, n) + KeyCommandsUpTo(s, n), RemarkCommandsUpTo(s, n));
  }
}
