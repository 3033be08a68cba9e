/** The PostgreSQL script a schema is printed as. */
module Generator {
  import opened Options
  import opened Strings
  import opened Decimal
  import opened Domain
  import opened Rendering

  datatype GenerateOptions = GenerateOptions(includeComments: bool, includePositions: bool)

  function Join(parts: seq<string>, separator: string): string {
    if parts == [] then ""
    else if |parts| == 1 then parts[0]
    else parts[0] + separator + Join(parts[1..], separator)
  }

  /** Every identifier is quoted, so it keeps its case and may be any word. */
  function Quote(name: string): string {
    "\"" + Doubled(Trim(name), '"') + "\""
  }

  function Literal(value: string): string {
    "'" + Doubled(Trim(value), '\'') + "'"
  }

  // ----- tables -----

  function DefaultClause(a: Attribute): string {
    match a.defaultValue
    case None => ""
    case Some(text) => " DEFAULT " + text
  }

  function ColumnLine(a: Attribute): string {
    Quote(a.name) + " " + Upper(TypeText(a.dataType))
    + (if !a.nullable then " NOT NULL" else "")
    + DefaultClause(a)
    + (if a.unique && !a.primaryKey then " UNIQUE" else "")
  }

  method WriteColumn(a: Attribute) returns (line: string)
    ensures line == ColumnLine(a)
  {
    line := Quote(a.name) + " " + Upper(TypeText(a.dataType));
    if !a.nullable {
      line := line + " NOT NULL";
    } else {
      assert line + "" == line;
    }
    if a.defaultValue.Some? {
      line := line + (" DEFAULT " + a.defaultValue.value);
    } else {
      assert line + "" == line;
    }
    if a.unique && !a.primaryKey {
      line := line + " UNIQUE";
    } else {
      assert line + "" == line;
    }
  }

  function QuotedNames(attributes: seq<Attribute>): (r: seq<string>)
    ensures |r| == |attributes| && forall i :: 0 <= i < |r| ==> r[i] == Quote(attributes[i].name)
  {
    seq(|attributes|, i requires 0 <= i < |attributes| => Quote(attributes[i].name))
  }

  function KeyLines(e: Entity): seq<string> {
    if e.PrimaryKey() == [] then []
    else ["PRIMARY KEY (" + Join(QuotedNames(e.PrimaryKey()), ", ") + ")"]
  }

  function ColumnLines(attributes: seq<Attribute>): (r: seq<string>)
    ensures |r| == |attributes| && forall i :: 0 <= i < |r| ==> r[i] == ColumnLine(attributes[i])
  {
    seq(|attributes|, i requires 0 <= i < |attributes| => ColumnLine(attributes[i]))
  }

  function CreateTable(e: Entity): string {
    var lines := ColumnLines(e.attributes) + KeyLines(e);
    if lines == [] then "CREATE TABLE " + Quote(e.name) + " ();"
    else "CREATE TABLE " + Quote(e.name) + " (\n    " + Join(lines, ",\n    ") + "\n);"
  }

  method WriteTable(e: Entity) returns (statement: string)
    ensures statement == CreateTable(e)
  {
    hide Quote, ColumnLine, Join, KeyColumns;
    var lines: seq<string> := [];
    for i := 0 to |e.attributes|
      invariant lines == ColumnLines(e.attributes)[..i]
    {
      var line := WriteColumn(e.attributes[i]);
      lines := lines + [line];
    }
    assert ColumnLines(e.attributes)[..|e.attributes|] == ColumnLines(e.attributes);
    var key := e.PrimaryKey();
    if key != [] {
      lines := lines + ["PRIMARY KEY (" + Join(QuotedNames(key), ", ") + ")"];
    } else {
      assert lines + [] == lines;
    }
    if lines == [] {
      return "CREATE TABLE " + Quote(e.name) + " ();";
    }
    return "CREATE TABLE " + Quote(e.name) + " (\n    " + Join(lines, ",\n    ") + "\n);";
  }

  /** The comment line that carries a table's place on the canvas. */
  function PositionLine(e: Entity): string {
    "-- @table " + Quote(e.name) + " " + IntText(e.position.x) + " " + IntText(e.position.y)
  }

  function TableBlock(e: Entity, includePositions: bool): string {
    if includePositions then PositionLine(e) + "\n" + CreateTable(e) else CreateTable(e)
  }

  // ----- foreign keys -----

  const MAX_IDENTIFIER_BYTES := 63

  /** How many bytes a character takes in UTF-8. */
  function CharBytes(c: char): nat {
    if c < '\U{80}' then 1 else if c < '\U{800}' then 2 else if c < '\U{10000}' then 3 else 4
  }

  function Bytes(s: string): nat {
    if s == "" then 0 else Bytes(s[..|s| - 1]) + CharBytes(s[|s| - 1])
  }

  /** `s` cut back, a character at a time, until it fits. */
  function CutTo(s: string, limit: nat): (r: string)
    ensures r <= s && Bytes(r) <= limit
    ensures r != s ==> Bytes(r) + CharBytes(s[|r|]) > limit
  {
    if Bytes(s) <= limit then s
    else
      var front := s[..|s| - 1];
      CutTo(front, limit)
  }

  function ConstraintName(table: string, column: string): (r: string)
    ensures Bytes(r) <= MAX_IDENTIFIER_BYTES
  {
    CutTo("fk_" + Trim(table) + "_" + Trim(column), MAX_IDENTIFIER_BYTES)
  }

  function ForeignKeyStatement(e: Entity, a: Attribute, target: Entity, key: Attribute): string {
    "ALTER TABLE " + Quote(e.name)
    + "\n    ADD CONSTRAINT " + Quote(ConstraintName(e.name, a.name))
    + " FOREIGN KEY (" + Quote(a.name)
    + ") REFERENCES " + Quote(target.name)
    + " (" + Quote(key.name) + ");"
  }

  /** The statement of one column, if its reference resolves. */
  function ColumnKey(s: Schema, e: Entity, a: Attribute): seq<string> {
    match a.foreignKey
    case None => []
    case Some(reference) =>
      match s.Resolve(reference.entityId, reference.attributeId)
      case None => []
      case Some((t, k)) => [ForeignKeyStatement(e, a, s.entities[t], s.entities[t].attributes[k])]
  }

  function TableKeys(s: Schema, e: Entity, n: nat): seq<string>
    requires n <= |e.attributes|
  {
    if n == 0 then [] else TableKeys(s, e, n - 1) + ColumnKey(s, e, e.attributes[n - 1])
  }

  function KeysUpTo(s: Schema, n: nat): seq<string>
    requires n <= |s.entities|
  {
    if n == 0 then []
    else KeysUpTo(s, n - 1) + TableKeys(s, s.entities[n - 1], |s.entities[n - 1].attributes|)
  }

  method WriteForeignKeys(s: Schema) returns (statements: seq<string>)
    ensures statements == KeysUpTo(s, |s.entities|)
  {
    hide ForeignKeyStatement, Schema.Resolve;
    statements := [];
    for n := 0 to |s.entities|
      invariant statements == KeysUpTo(s, n)
    {
      var e := s.entities[n];
      for k := 0 to |e.attributes|
        invariant statements == KeysUpTo(s, n) + TableKeys(s, e, k)
      {
        var a := e.attributes[k];
        if a.foreignKey.Some? {
          match s.Resolve(a.foreignKey.value.entityId, a.foreignKey.value.attributeId) {
            case None =>
            case Some(found) =>
              var target := s.entities[found.0];
              statements := statements + [ForeignKeyStatement(e, a, target, target.attributes[found.1])];
          }
        }
      }
    }
  }

  // ----- comments -----

  function TableComment(e: Entity): seq<string> {
    if e.IsDocumented() then ["COMMENT ON TABLE " + Quote(e.name) + " IS " + Literal(e.description) + ";"] else []
  }

  function ColumnComment(e: Entity, a: Attribute): seq<string> {
    if a.IsDocumented() then
      ["COMMENT ON COLUMN " + Quote(e.name) + "." + Quote(a.name) + " IS " + Literal(a.description) + ";"]
    else []
  }

  function ColumnComments(e: Entity, n: nat): seq<string>
    requires n <= |e.attributes|
  {
    if n == 0 then TableComment(e) else ColumnComments(e, n - 1) + ColumnComment(e, e.attributes[n - 1])
  }

  function CommentsUpTo(s: Schema, n: nat): seq<string>
    requires n <= |s.entities|
  {
    if n == 0 then []
    else CommentsUpTo(s, n - 1) + ColumnComments(s.entities[n - 1], |s.entities[n - 1].attributes|)
  }

  method WriteComments(s: Schema) returns (statements: seq<string>)
    ensures statements == CommentsUpTo(s, |s.entities|)
  {
    hide Quote, Literal, Trim;
    statements := [];
    for n := 0 to |s.entities|
      invariant statements == CommentsUpTo(s, n)
    {
      var e := s.entities[n];
      if e.IsDocumented() {
        statements := statements + ["COMMENT ON TABLE " + Quote(e.name) + " IS " + Literal(e.description) + ";"];
      }
      for k := 0 to |e.attributes|
        invariant statements == CommentsUpTo(s, n) + ColumnComments(e, k)
      {
        var a := e.attributes[k];
        if a.IsDocumented() {
          statements := statements +
            ["COMMENT ON COLUMN " + Quote(e.name) + "." + Quote(a.name) + " IS " + Literal(a.description) + ";"];
        }
      }
    }
  }

  // ----- the script -----

  function TableBlocks(entities: seq<Entity>, includePositions: bool): (r: seq<string>)
    ensures |r| == |entities| && forall i :: 0 <= i < |r| ==> r[i] == TableBlock(entities[i], includePositions)
  {
    seq(|entities|, i requires 0 <= i < |entities| => TableBlock(entities[i], includePositions))
  }

  function CommentBlocks(s: Schema, includeComments: bool): seq<string> {
    var comments := CommentsUpTo(s, |s.entities|);
    if includeComments && comments != [] then [Join(comments, "\n")] else []
  }

  function Blocks(s: Schema, options: GenerateOptions): seq<string> {
    TableBlocks(s.entities, options.includePositions)
    + KeysUpTo(s, |s.entities|)
    + CommentBlocks(s, options.includeComments)
  }

  function Generated(s: Schema, options: GenerateOptions): string {
    Join(Blocks(s, options), "\n\n")
  }

  method Generate(s: Schema, options: GenerateOptions) returns (script: string)
    ensures script == Generated(s, options)
  {
    hide CreateTable, PositionLine, KeysUpTo, CommentsUpTo, Join;
    var blocks: seq<string> := [];
    ghost var tables := TableBlocks(s.entities, options.includePositions);
    for i := 0 to |s.entities|
      invariant blocks == tables[..i]
    {
      var statement := WriteTable(s.entities[i]);
      if options.includePositions {
        statement := PositionLine(s.entities[i]) + "\n" + statement;
      }
      blocks := blocks + [statement];
    }
    assert tables[..|s.entities|] == tables;
    var keys := WriteForeignKeys(s);
    blocks := blocks + keys;
    assert blocks + [] == blocks;
    if options.includeComments {
      var comments := WriteComments(s);
      if comments != [] {
        blocks := blocks + [Join(comments, "\n")];
      }
    }
    assert blocks == Blocks(s, options);
    script := Join(blocks, "\n\n");
  }
}
