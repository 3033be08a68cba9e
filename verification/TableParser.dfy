/** The parser of CREATE TABLE statements. */
module TableParser {
  import opened Options
  import opened Strings
  import opened Decimal
  import opened Domain
  import opened Scanning
  import opened Rendering
  import opened Cursors

  datatype ParsedColumn = ParsedColumn(
    name: string,
    dataType: DataType,
    nullable: bool,
    primaryKey: bool,
    unique: bool,
    defaultValue: Option<string>)

  /** `target` is absent when the script named no column. */
  datatype ParsedForeignKey = ParsedForeignKey(column: string, table: string, target: Option<string>)

  /** A part of a table that was left out. */
  datatype Note =
    | UnreadableKey
    | UnreadableForeignKey
    | ForeignKeyWithoutTarget
    | WideForeignKey
    | WideUnique
    | CheckConstraint
    | OtherConstraint(written: string)
    | UnknownColumn(name: string, written: string)
    | ReferenceWithoutTarget

  datatype ParsedTable = ParsedTable(
    name: string,
    columns: seq<ParsedColumn>,
    foreignKeys: seq<ParsedForeignKey>,
    skipped: seq<Note>)
  {
    function Skip(note: Note): ParsedTable {
      this.(skipped := skipped + [note])
    }
  }

  /** No type name goes on past one of these. */
  const AFTER_TYPE: seq<string> := ["not", "null", "primary", "unique", "default", "references", "check", "constraint", "collate", "generated"]

  // ----- types -----

  function KindOf(name: string): Option<DataTypeKind> {
    if name == "text" then Some(DataTypeKind.Text)
    else if name == "varchar" || name == "character varying" then Some(Varchar)
    else if name == "char" || name == "character" || name == "bpchar" then Some(Char)
    else if name == "smallint" || name == "int2" || name == "smallserial" || name == "serial2" then Some(SmallInt)
    else if name == "int" || name == "integer" || name == "int4" || name == "serial" || name == "serial4" then Some(Integer)
    else if name == "bigint" || name == "int8" || name == "bigserial" || name == "serial8" then Some(BigInt)
    else if name == "numeric" || name == "decimal" then Some(Numeric)
    else if name == "real" || name == "float4" then Some(Real)
    else if name == "double precision" || name == "float8" || name == "float" then Some(DoublePrecision)
    else if name == "boolean" || name == "bool" then Some(Boolean)
    else if name == "date" then Some(Date)
    else if name == "time" || name == "time without time zone" then Some(Time)
    else if name == "timestamp" || name == "timestamp without time zone" then Some(Timestamp)
    else if name == "timestamptz" || name == "timestamp with time zone" then Some(TimestampTz)
    else if name == "uuid" then Some(Uuid)
    else if name == "json" then Some(Json)
    else if name == "jsonb" then Some(Jsonb)
    else if name == "bytea" then Some(Bytea)
    else None
  }

  predicate IsSerial(name: string) {
    name in {"smallserial", "serial2", "serial", "serial4", "bigserial", "serial8"}
  }

  function JoinWords(words: seq<string>): string {
    if words == [] then ""
    else if |words| == 1 then words[0]
    else words[0] + " " + JoinWords(words[1..])
  }

  predicate IsTypeWord(t: Token) {
    t.Word? && t.word !in AFTER_TYPE
  }

  function TypeWords(rest: seq<Token>): (r: (seq<string>, seq<Token>))
    ensures |r.1| <= |rest|
    decreases |rest|
  {
    if rest != [] && IsTypeWord(rest[0]) then
      var (words, left) := TypeWords(rest[1..]);
      ([rest[0].word] + words, left)
    else ([], rest)
  }

  function ParseU32(digits: string): Option<U32> {
    match ParseNat(digits)
    case None => None
    case Some(n) => if n < 0x1_0000_0000 then Some(n) else None
  }

  function NumberList(rest: seq<Token>): (r: (seq<U32>, seq<Token>))
    ensures |r.1| <= |rest|
    decreases |rest|
  {
    if rest != [] && rest[0].Number? then
      var value := match ParseU32(rest[0].digits) case None => [] case Some(n) => [n];
      var after := rest[1..];
      if AtPunct(after, ',') then
        var (values, left) := NumberList(after[1..]);
        (value + values, left)
      else (value, after)
    else ([], rest)
  }

  /** The numbers in parentheses after a type, and what is left after the
      words that trail it. */
  function Parameters(rest: seq<Token>): (r: (seq<U32>, seq<Token>))
    ensures |r.1| <= |rest|
  {
    if AtPunct(rest, '(') then
      var (numbers, left) := NumberList(rest[1..]);
      (numbers, TypeWords(if AtPunct(left, ')') then left[1..] else left).1)
    else ([], TypeWords(rest).1)
  }

  function At(numbers: seq<U32>, i: nat): Option<U32> {
    if i < |numbers| then Some(numbers[i]) else None
  }

  function TypeFrom(kind: DataTypeKind, numbers: seq<U32>): DataType {
    if kind.TakesLength() then DataType(kind, At(numbers, 0), None, None)
    else if kind.TakesPrecision() then DataType(kind, None, At(numbers, 0), At(numbers, 1))
    else DataType(kind, None, None, None)
  }

  // ----- one column -----

  function SetDefault(c: ParsedColumn, expression: seq<Token>): ParsedColumn {
    if expression == [] then c else c.(defaultValue := Some(Render(expression)))
  }

  /** The constraints written after a column's type. */
  function Constraints(rest: seq<Token>, c: ParsedColumn): (r: (seq<Token>, ParsedColumn))
    ensures |r.0| <= |rest| && r.1.name == c.name
    decreases |rest|
  {
    if rest == [] || AtPunct(rest, ',') || AtPunct(rest, ')') then (rest, c)
    else if AtWords(rest, ["not", "null"]) then Constraints(rest[2..], c.(nullable := false))
    else if AtWords(rest, ["primary", "key"]) then Constraints(rest[2..], c.(primaryKey := true, nullable := false))
    else if AtWord(rest, "unique") then Constraints(rest[1..], c.(unique := true))
    else if AtWord(rest, "null") then Constraints(rest[1..], c.(nullable := true))
    else if AtWord(rest, "default") then
      var (expression, left) := TakeUntil(rest[1..], AFTER_TYPE, 0);
      Constraints(left, SetDefault(c, expression))
    else if AtWord(rest, "constraint") then Constraints(Next(rest[1..]), c)
    else if AtWord(rest, "check") then Constraints(SkipBalanced(rest[1..]), c)
    else if AtWord(rest, "references") then (rest, c)
    else Constraints(rest[1..], c)
  }

  /** A column, or what is left where its type could not be read. */
  datatype ColumnRead = Read(column: ParsedColumn) | Unread(name: string)

  function Column(rest: seq<Token>): (r: (ColumnRead, seq<Token>))
    ensures |r.1| <= |rest|
  {
    if rest == [] || rest[0].Name().None? then (Unread(""), rest)
    else
      var name := rest[0].Name().value;
      var (words, afterType) := TypeWords(rest[1..]);
      var typeName := JoinWords(words);
      match KindOf(typeName)
      case None => (Unread(if typeName == "" then name else name + " " + typeName), afterType)
      case Some(kind) =>
        var (numbers, left) := Parameters(afterType);
        var (end, column) := Constraints(left, ParsedColumn(name, TypeFrom(kind, numbers), !IsSerial(typeName), false, false, None));
        (Read(column), end)
  }

  // ----- table constraints -----

  function FindColumn(columns: seq<ParsedColumn>, name: string): (r: Option<nat>)
    ensures r.Some? ==> r.value < |columns|
  {
    First(columns, (c: ParsedColumn) => Same(c.name, name))
  }

  function MarkPrimary(columns: seq<ParsedColumn>, names: seq<string>): (r: seq<ParsedColumn>)
    ensures |r| == |columns|
    decreases |names|
  {
    if names == [] then columns
    else
      match FindColumn(columns, names[0])
      case None => MarkPrimary(columns, names[1..])
      case Some(i) => MarkPrimary(columns[i := columns[i].(primaryKey := true, nullable := false)], names[1..])
  }

  function MarkUnique(columns: seq<ParsedColumn>, name: string): (r: seq<ParsedColumn>)
    ensures |r| == |columns|
  {
    match FindColumn(columns, name)
    case None => columns
    case Some(i) => columns[i := columns[i].(unique := true)]
  }

  function TargetOf(names: Option<seq<string>>): Option<string> {
    if names.Some? && names.value != [] then Some(names.value[0]) else None
  }

  function TableForeignKey(rest: seq<Token>, table: ParsedTable): (r: (seq<Token>, ParsedTable))
    ensures |r.0| <= |rest|
  {
    var (columns, left) := NameList(rest);
    if columns.None? then (left, table.Skip(UnreadableForeignKey))
    else if !AtWord(left, "references") then (left, table.Skip(ForeignKeyWithoutTarget))
    else
      var (target, left) := QualifiedName(left[1..]);
      if target.None? then (left, table.Skip(ForeignKeyWithoutTarget))
      else
        var (targets, left) := NameList(left);
        if |columns.value| != 1 then (left, table.Skip(WideForeignKey))
        else
          var key := ParsedForeignKey(columns.value[0], target.value, TargetOf(targets));
          (TakeUntil(left, [], 0).1, table.(foreignKeys := table.foreignKeys + [key]))
  }

  /** The `REFERENCES` a column carries itself. */
  function InlineReference(rest: seq<Token>, column: string, table: ParsedTable): (r: (bool, seq<Token>, ParsedTable))
    ensures |r.1| <= |rest| && r.2.columns == table.columns
  {
    if !AtWord(rest, "references") then (false, rest, table)
    else
      var (target, left) := QualifiedName(rest[1..]);
      if target.None? then (true, left, table.Skip(ReferenceWithoutTarget))
      else
        var (targets, left) := NameList(left);
        var key := ParsedForeignKey(column, target.value, TargetOf(targets));
        (true, left, table.(foreignKeys := table.foreignKeys + [key]))
  }

  function ColumnItem(rest: seq<Token>, table: ParsedTable): (r: (seq<Token>, ParsedTable))
    ensures |r.0| <= |rest|
  {
    var (read, left) := Column(rest);
    match read
    case Read(column) =>
      var (referenced, left, table) := InlineReference(left, column.name, table);
      var (left, column) := if referenced then Constraints(left, column) else (left, column);
      (left, table.(columns := table.columns + [column]))
    case Unread(name) =>
      var (taken, left) := TakeUntil(left, [], 0);
      (left, table.Skip(UnknownColumn(name, Render(taken))))
  }

  function TableKey(rest: seq<Token>, table: ParsedTable): (r: (seq<Token>, ParsedTable))
    ensures |r.0| <= |rest|
  {
    var (names, left) := NameList(rest);
    match names
    case Some(names) => (left, table.(columns := MarkPrimary(table.columns, names)))
    case None => (left, table.Skip(UnreadableKey))
  }

  /** UNIQUE over several columns has no place in a parsed table, so it becomes a note. */
  function TableUnique(rest: seq<Token>, table: ParsedTable): (r: (seq<Token>, ParsedTable))
    ensures |r.0| <= |rest|
  {
    var (names, left) := NameList(rest);
    if names.Some? && |names.value| == 1 then (left, table.(columns := MarkUnique(table.columns, names.value[0])))
    else (left, table.Skip(WideUnique))
  }

  function Item(rest: seq<Token>, table: ParsedTable): (r: (seq<Token>, ParsedTable))
    ensures |r.0| <= |rest|
  {
    var named := AtWord(rest, "constraint");
    var rest := if named then Next(rest[1..]) else rest;
    if AtWords(rest, ["primary", "key"]) then TableKey(rest[2..], table)
    else if AtWords(rest, ["foreign", "key"]) then TableForeignKey(rest[2..], table)
    else if AtWord(rest, "unique") then TableUnique(rest[1..], table)
    else if AtWord(rest, "check") || AtWord(rest, "exclude") then
      (SkipBalanced(rest[1..]), table.Skip(CheckConstraint))
    else if named then
      var (taken, left) := TakeUntil(rest, [], 0);
      (left, table.Skip(OtherConstraint(Render(taken))))
    else ColumnItem(rest, table)
  }

  function Items(rest: seq<Token>, table: ParsedTable): ParsedTable
    decreases |rest|
  {
    if rest == [] || AtPunct(rest, ')') then table
    else
      var (left, table) := Item(rest, table);
      if AtPunct(left, ',') then Items(left[1..], table) else table
  }

  function SkipToTable(rest: seq<Token>): (r: seq<Token>)
    ensures |r| <= |rest|
    decreases |rest|
  {
    if rest == [] || AtWord(rest, "table") then rest else SkipToTable(rest[1..])
  }

  function Parsed(tokens: seq<Token>): Option<ParsedTable> {
    if !AtWord(tokens, "create") then None
    else
      var rest := SkipToTable(tokens[1..]);
      if rest == [] then None
      else
        var rest := rest[1..];
        var rest := if AtWords(rest, ["if", "not", "exists"]) then rest[3..] else rest;
        var (name, rest) := QualifiedName(rest);
        match name
        case None => None
        case Some(name) =>
          var table := ParsedTable(name, [], [], []);
          if AtPunct(rest, '(') then Some(Items(rest[1..], table)) else Some(table)
  }

  // ----- the parser, step by step -----

  method ReadTypeWords(cursor: Cursor) returns (words: seq<string>)
    requires cursor.Valid()
    modifies cursor
    ensures cursor.Valid() && (words, cursor.Rest()) == TypeWords(old(cursor.Rest()))
  {
    ghost var end := TypeWords(cursor.Rest());
    words := [];
    assert [] + end.0 == end.0;
    while cursor.at < |cursor.tokens| && IsTypeWord(cursor.tokens[cursor.at])
      invariant cursor.Valid()
      invariant end.0 == words + TypeWords(cursor.Rest()).0
      invariant end.1 == TypeWords(cursor.Rest()).1
      decreases |cursor.tokens| - cursor.at
    {
      ghost var before := cursor.Rest();
      var token := cursor.Step();
      assert words + ([token.value.word] + TypeWords(before[1..]).0) == words + [token.value.word] + TypeWords(before[1..]).0;
      words := words + [token.value.word];
    }
    assert words + [] == words;
  }

  method ReadParameters(cursor: Cursor) returns (numbers: seq<U32>)
    requires cursor.Valid()
    modifies cursor
    ensures cursor.Valid() && (numbers, cursor.Rest()) == Parameters(old(cursor.Rest()))
  {
    numbers := [];
    var open := cursor.EatPunct('(');
    if open {
      numbers := ReadNumbers(cursor);
      var _ := cursor.EatPunct(')');
    }
    var _ := ReadTypeWords(cursor);
  }

  /** `numbers` has been read of the list whose whole reading is `end`. */
  ghost predicate NumbersPending(end: (seq<U32>, seq<Token>), numbers: seq<U32>, rest: seq<Token>) {
    end.0 == numbers + NumberList(rest).0 && end.1 == NumberList(rest).1
  }

  function NumberValue(t: Token): seq<U32>
    requires t.Number?
  {
    match ParseU32(t.digits)
    case None => []
    case Some(n) => [n]
  }

  lemma NumbersStart(rest: seq<Token>)
    ensures NumbersPending(NumberList(rest), [], rest)
  {
  }

  lemma NumbersStep(end: (seq<U32>, seq<Token>), numbers: seq<U32>, rest: seq<Token>)
    requires NumbersPending(end, numbers, rest)
    ensures rest == [] || !rest[0].Number? ==> end == (numbers, rest)
    ensures rest != [] && rest[0].Number? && AtPunct(rest[1..], ',') ==>
      NumbersPending(end, numbers + NumberValue(rest[0]), rest[1..][1..])
    ensures rest != [] && rest[0].Number? && !AtPunct(rest[1..], ',') ==>
      end == (numbers + NumberValue(rest[0]), rest[1..])
  {
    hide ParseU32;
    if rest == [] || !rest[0].Number? {
      assert numbers + [] == numbers;
    } else if AtPunct(rest[1..], ',') {
      var more := NumberList(rest[1..][1..]).0;
      assert numbers + (NumberValue(rest[0]) + more) == numbers + NumberValue(rest[0]) + more;
    }
  }

  method ReadNumbers(cursor: Cursor) returns (numbers: seq<U32>)
    requires cursor.Valid()
    modifies cursor
    ensures cursor.Valid() && (numbers, cursor.Rest()) == NumberList(old(cursor.Rest()))
  {
    hide ParseU32, NumberList, NumbersPending;
    ghost var end := NumberList(cursor.Rest());
    NumbersStart(cursor.Rest());
    numbers := [];
    var more := true;
    while more && cursor.at < |cursor.tokens| && cursor.tokens[cursor.at].Number?
      invariant cursor.Valid()
      invariant more ==> NumbersPending(end, numbers, cursor.Rest())
      invariant !more ==> end == (numbers, cursor.Rest())
      decreases |cursor.tokens| - cursor.at
    {
      NumbersStep(end, numbers, cursor.Rest());
      var token := cursor.Step();
      match ParseU32(token.value.digits) {
        case None => assert numbers + [] == numbers;
        case Some(n) => numbers := numbers + [n];
      }
      more := cursor.EatPunct(',');
    }
    if more {
      NumbersStep(end, numbers, cursor.Rest());
    }
  }

  method ReadConstraints(cursor: Cursor, c0: ParsedColumn) returns (c: ParsedColumn)
    requires cursor.Valid()
    modifies cursor
    ensures cursor.Valid() && (cursor.Rest(), c) == Constraints(old(cursor.Rest()), c0)
  {
    ghost var end := Constraints(cursor.Rest(), c0);
    c := c0;
    var open := true;
    while open && !cursor.Done() && cursor.Peek() != Some(Punct(',')) && cursor.Peek() != Some(Punct(')'))
      invariant cursor.Valid()
      invariant open ==> Constraints(cursor.Rest(), c) == end
      invariant !open ==> (cursor.Rest(), c) == end
      decreases open, |cursor.Rest()|
    {
      c, open := ReadConstraint(cursor, c);
    }
  }

  /** One turn of the loop: a constraint taken, or the end of them. */
  method ReadConstraint(cursor: Cursor, c0: ParsedColumn) returns (c: ParsedColumn, open: bool)
    requires cursor.Valid() && cursor.Rest() != [] && !AtPunct(cursor.Rest(), ',') && !AtPunct(cursor.Rest(), ')')
    modifies cursor
    ensures cursor.Valid() && (open ==> |cursor.Rest()| < |old(cursor.Rest())|)
    ensures Constraints(old(cursor.Rest()), c0) == if open then Constraints(cursor.Rest(), c) else (cursor.Rest(), c)
  {
    hide TakeUntil, Render;
    c, open := c0, true;
    var found := cursor.EatWords(["not", "null"]);
    if found {
      c := c.(nullable := false);
      return;
    }
    found := cursor.EatWords(["primary", "key"]);
    if found {
      c := c.(primaryKey := true, nullable := false);
      return;
    }
    found := cursor.EatWord("unique");
    if found {
      c := c.(unique := true);
      return;
    }
    found := cursor.EatWord("null");
    if found {
      c := c.(nullable := true);
      return;
    }
    found := cursor.EatWord("default");
    if found {
      var expression := cursor.TakeUntilSeparator(AFTER_TYPE);
      if expression != [] {
        var written := RenderTokens(expression);
        c := c.(defaultValue := Some(written));
      }
      return;
    }
    found := cursor.EatWord("constraint");
    if found {
      var _ := cursor.Step();
      return;
    }
    found := cursor.EatWord("check");
    if found {
      cursor.SkipParentheses();
      return;
    }
    if cursor.Peek() == Some(Word("references")) {
      open := false;
      return;
    }
    var _ := cursor.Step();
  }

  method ReadColumn(cursor: Cursor) returns (read: ColumnRead)
    requires cursor.Valid()
    modifies cursor
    ensures cursor.Valid() && (read, cursor.Rest()) == Column(old(cursor.Rest()))
  {
    hide TypeWords, Parameters, Constraints, KindOf, JoinWords, IsSerial;
    var token := cursor.Peek();
    if token.None? || token.value.Name().None? {
      return Unread("");
    }
    var name := token.value.Name().value;
    var _ := cursor.Step();
    var words := ReadTypeWords(cursor);
    var typeName := JoinWords(words);
    match KindOf(typeName) {
      case None =>
        return Unread(if typeName == "" then name else name + " " + typeName);
      case Some(kind) =>
        var numbers := ReadParameters(cursor);
        var column := ParsedColumn(name, TypeFrom(kind, numbers), !IsSerial(typeName), false, false, None);
        column := ReadConstraints(cursor, column);
        return Read(column);
    }
  }

  method MarkPrimaryColumns(columns0: seq<ParsedColumn>, names: seq<string>) returns (columns: seq<ParsedColumn>)
    ensures columns == MarkPrimary(columns0, names)
  {
    columns := columns0;
    for i := 0 to |names|
      invariant MarkPrimary(columns, names[i..]) == MarkPrimary(columns0, names)
    {
      assert names[i..][1..] == names[i + 1..];
      match FindColumn(columns, names[i]) {
        case None =>
        case Some(at) => columns := columns[at := columns[at].(primaryKey := true, nullable := false)];
      }
    }
  }

  method ReadForeignKey(cursor: Cursor, table0: ParsedTable) returns (table: ParsedTable)
    requires cursor.Valid()
    modifies cursor
    ensures cursor.Valid() && (cursor.Rest(), table) == TableForeignKey(old(cursor.Rest()), table0)
  {
    hide NameList, QualifiedName, TakeUntil;
    table := table0;
    var columns := cursor.ReadNames();
    if columns.None? {
      table := table.Skip(UnreadableForeignKey);
      return;
    }
    var found := cursor.EatWord("references");
    if !found {
      table := table.Skip(ForeignKeyWithoutTarget);
      return;
    }
    var target := cursor.ReadName();
    if target.None? {
      table := table.Skip(ForeignKeyWithoutTarget);
      return;
    }
    var targets := cursor.ReadNames();
    if |columns.value| != 1 {
      table := table.Skip(WideForeignKey);
      return;
    }
    var key := ParsedForeignKey(columns.value[0], target.value, TargetOf(targets));
    table := table.(foreignKeys := table.foreignKeys + [key]);
    var _ := cursor.TakeUntilSeparator([]);
  }

  method ReadInlineReference(cursor: Cursor, column: string, table0: ParsedTable) returns (found: bool, table: ParsedTable)
    requires cursor.Valid()
    modifies cursor
    ensures cursor.Valid() && (found, cursor.Rest(), table) == InlineReference(old(cursor.Rest()), column, table0)
  {
    hide NameList, QualifiedName;
    table := table0;
    found := cursor.EatWord("references");
    if !found {
      return;
    }
    var target := cursor.ReadName();
    if target.None? {
      table := table.Skip(ReferenceWithoutTarget);
      return;
    }
    var targets := cursor.ReadNames();
    table := table.(foreignKeys := table.foreignKeys + [ParsedForeignKey(column, target.value, TargetOf(targets))]);
  }

  method ReadColumnItem(cursor: Cursor, table0: ParsedTable) returns (table: ParsedTable)
    requires cursor.Valid()
    modifies cursor
    ensures cursor.Valid() && (cursor.Rest(), table) == ColumnItem(old(cursor.Rest()), table0)
  {
    hide Column, InlineReference, Constraints, TakeUntil, Render;
    table := table0;
    var read := ReadColumn(cursor);
    match read {
      case Read(parsed) =>
        var column := parsed;
        var referenced;
        referenced, table := ReadInlineReference(cursor, column.name, table);
        if referenced {
          column := ReadConstraints(cursor, column);
        }
        table := table.(columns := table.columns + [column]);
      case Unread(name) =>
        var taken := cursor.TakeUntilSeparator([]);
        var written := RenderTokens(taken);
        table := table.Skip(UnknownColumn(name, written));
    }
  }

  /** A key of the table, or a note that it could not be read. */
  method ReadPrimaryKey(cursor: Cursor, table0: ParsedTable) returns (table: ParsedTable)
    requires cursor.Valid()
    modifies cursor
    ensures cursor.Valid() && (cursor.Rest(), table) == TableKey(old(cursor.Rest()), table0)
  {
    hide NameList, MarkPrimary;
    var names := cursor.ReadNames();
    match names {
      case Some(ns) =>
        var columns := MarkPrimaryColumns(table0.columns, ns);
        table := table0.(columns := columns);
      case None =>
        table := table0.Skip(UnreadableKey);
    }
  }

  method ReadUnique(cursor: Cursor, table0: ParsedTable) returns (table: ParsedTable)
    requires cursor.Valid()
    modifies cursor
    ensures cursor.Valid() && (cursor.Rest(), table) == TableUnique(old(cursor.Rest()), table0)
  {
    hide NameList, MarkUnique;
    var names := cursor.ReadNames();
    if names.Some? && |names.value| == 1 {
      table := table0.(columns := MarkUnique(table0.columns, names.value[0]));
    } else {
      table := table0.Skip(WideUnique);
    }
  }

  method ReadItem(cursor: Cursor, table0: ParsedTable) returns (table: ParsedTable)
    requires cursor.Valid()
    modifies cursor
    ensures cursor.Valid() && (cursor.Rest(), table) == Item(old(cursor.Rest()), table0)
  {
    hide TableKey, TableUnique, ColumnItem, TableForeignKey, TakeUntil, Render, AtWords, SkipBalanced;
    table := table0;
    var named := cursor.EatWord("constraint");
    if named {
      var _ := cursor.Step();
    }
    var found := cursor.EatWords(["primary", "key"]);
    if found {
      table := ReadPrimaryKey(cursor, table);
      return;
    }
    found := cursor.EatWords(["foreign", "key"]);
    if found {
      table := ReadForeignKey(cursor, table);
      return;
    }
    found := cursor.EatWord("unique");
    if found {
      table := ReadUnique(cursor, table);
      return;
    }
    if cursor.Peek() == Some(Word("check")) || cursor.Peek() == Some(Word("exclude")) {
      var _ := cursor.Step();
      cursor.SkipParentheses();
      table := table.Skip(CheckConstraint);
      return;
    }
    if named {
      var taken := cursor.TakeUntilSeparator([]);
      var written := RenderTokens(taken);
      table := table.Skip(OtherConstraint(written));
      return;
    }
    table := ReadColumnItem(cursor, table);
  }

  method ReadItems(cursor: Cursor, table0: ParsedTable) returns (table: ParsedTable)
    requires cursor.Valid()
    modifies cursor
    ensures cursor.Valid() && table == Items(old(cursor.Rest()), table0)
  {
    hide Item;
    ghost var end := Items(cursor.Rest(), table0);
    table := table0;
    var open := true;
    while open && !cursor.Done() && cursor.Peek() != Some(Punct(')'))
      invariant cursor.Valid()
      invariant open ==> Items(cursor.Rest(), table) == end
      invariant !open ==> table == end
      decreases open, |cursor.Rest()|
    {
      table := ReadItem(cursor, table);
      open := cursor.EatPunct(',');
    }
  }

  method Parse(tokens: seq<Token>) returns (parsed: Option<ParsedTable>)
    ensures parsed == Parsed(tokens)
  {
    hide Items, QualifiedName, AtWords;
    var cursor := new Cursor(tokens);
    var found := cursor.EatWord("create");
    if !found {
      return None;
    }
    ReachTable(cursor);
    found := cursor.EatWord("table");
    if !found {
      return None;
    }
    var _ := cursor.EatWords(["if", "not", "exists"]);
    var name := cursor.ReadName();
    if name.None? {
      return None;
    }
    var table := ParsedTable(name.value, [], [], []);
    found := cursor.EatPunct('(');
    if found {
      table := ReadItems(cursor, table);
    }
    return Some(table);
  }

  /** Words such as `TEMP` between CREATE and TABLE are passed over. */
  method ReachTable(cursor: Cursor)
    requires cursor.Valid()
    modifies cursor
    ensures cursor.Valid() && cursor.Rest() == SkipToTable(old(cursor.Rest()))
    ensures cursor.Rest() == [] || AtWord(cursor.Rest(), "table")
  {
    while !cursor.Done() && cursor.Peek() != Some(Word("table"))
      invariant cursor.Valid() && SkipToTable(cursor.Rest()) == SkipToTable(old(cursor.Rest()))
      decreases |cursor.Rest()|
    {
      var _ := cursor.Step();
    }
  }
}
